/** Where the lines of a program send the machine, and how fast. */
module GcodeMotion {
  import opened Axes
  import opened GcodeWords
  import opened Options
  import opened GcodeBlock
  import opened GcodeLines
  import opened GcodePrograms

  // ---------------------------------------------------------------------------
  // Targets
  // ---------------------------------------------------------------------------

  /** The value that a line gives for an axis, in millimeters. */
  function Given(m: Modal, b: Block, a: Axis): real {
    Length(m, Value(b, Letter(a)))
  }

  lemma AimedTarget(s: State, m: Modal, b: Block, cs: Point, out: Outside, a: Axis)
    requires NonModalOf(b) !in {SET_COORDINATE_DATA, SET_COORDINATE_OFFSET} && NamesAny(b)
    requires Aimed(s, m, b, cs, out).Success?
    ensures Aimed(s, m, b, cs, out).value.xyz.At(a) == TargetAt(s, m, b, Begin(b, m), cs, a)
  {
  }

  /** What the execution does when the motion takes the axis words. */
  lemma MotionMoves(s: State, plan: Plan, out: Outside)
    requires plan.end.axisCommand == MotionMode && plan.modal.motion !in PROBES && plan.modal.motion != NO_MOTION
    requires plan.modal.motion in {SEEK, LINEAR, CW_ARC, CCW_ARC}
    ensures MotionDone(s, plan, out).0 == s.(position := plan.end.xyz)
  {
  }

  lemma NonModalStays(s: State, b: Block, plan: Plan)
    requires NonModalOf(b) !in {SET_COORDINATE_DATA, GO_HOME_0, GO_HOME_1, SET_COORDINATE_OFFSET, RESET_COORDINATE_OFFSET}
    ensures NonModalDone(s, b, plan).0 == s
  {
  }

  /** What the checks have settled for a line that moves. */
  lemma MovePlan(s: State, b: Block, out: Outside, a: Axis)
    requires Coherent(b) && NamesAny(b) && Check(s, b, false, out).Success?
    requires NonModalOf(b) in {0, DWELL, SET_HOME_0, SET_HOME_1, ABSOLUTE_OVERRIDE, RESET_COORDINATE_OFFSET}
    ensures var m := ModalOf(s.modal, b, false);
            var plan := Check(s, b, false, out).value;
            && plan.modal == m && plan.end.axisCommand == MotionMode
            && plan.end.xyz.At(a) == TargetAt(s, m, b, Begin(b, m), plan.coordSystem, a)
  {
    CheckedParts(s, b, false, out);
    var m := ModalOf(s.modal, b, false);
    var plan := Check(s, b, false, out).value;
    var aimed := Aimed(s, m, b, plan.coordSystem, out).value;
    AimedLeaves(s, m, b, plan.coordSystem, out);
    AimedTarget(s, m, b, plan.coordSystem, out, a);
    MotionAims(s, m, b, aimed, plan.feed, out);
    MotionClaims(s, m, b, aimed, plan.feed, out);
  }

  /** What the execution makes of it. */
  lemma MoveDone(s: State, b: Block, plan: Plan, out: Outside)
    requires NonModalOf(b) in {0, DWELL, SET_HOME_0, SET_HOME_1, ABSOLUTE_OVERRIDE}
    requires plan.end.axisCommand == MotionMode && plan.modal.motion in {SEEK, LINEAR, CW_ARC, CCW_ARC}
    ensures Execute(s, b, plan, false, out).0 == Settled(s, b, plan).(position := plan.end.xyz)
  {
    NonModalStays(Settled(s, b, plan), b, plan);
    MotionMoves(Settled(s, b, plan), plan, out);
  }

  /**
   A rapid, feed or arc move ends where the line says. In absolute mode each named axis then reads the
   given value in work coordinates, in incremental mode it has moved by it, and under G53 it stands at
   it in machine coordinates; axes that are not named have not moved.
   */
  lemma MoveGoesWhereItSays(s: State, line: Input, b: Block, a: Axis)
    requires Import(Empty, line.words) == Success(b) && !line.jog && ExecuteLine(s, line).status == Accepted
    requires NamesAny(b) && NonModalOf(b) in {0, DWELL, SET_HOME_0, SET_HOME_1, ABSOLUTE_OVERRIDE}
    requires ModalOf(s.modal, b, false).motion in {SEEK, LINEAR, CW_ARC, CCW_ARC}
    ensures var m := ModalOf(s.modal, b, false);
            var t := ExecuteLine(s, line).state;
            && (!Names(b, a) ==> t.position.At(a) == s.position.At(a))
            && (Names(b, a) ==>
                  if NonModalOf(b) == ABSOLUTE_OVERRIDE then t.position.At(a) == Given(m, b, a)
                  else if m.distance == ABSOLUTE then Work(t, a) == Given(m, b, a)
                  else t.position.At(a) == s.position.At(a) + Given(m, b, a))
  {
    if Check(s, b, false, line.out).Success? {
      ImportIsCoherent(Empty, line.words);
      SystemIsTaken(s, b, false, line.out);
      MovePlan(s, b, line.out, a);
      MoveDone(s, b, Check(s, b, false, line.out).value, line.out);
    }
  }

  lemma ResetDone(s: State, b: Block, plan: Plan, out: Outside)
    requires NonModalOf(b) == RESET_COORDINATE_OFFSET
    requires plan.end.axisCommand == MotionMode && plan.modal.motion in {SEEK, LINEAR, CW_ARC, CCW_ARC}
    ensures Execute(s, b, plan, false, out).0 ==
              Settled(s, b, plan).(position := plan.end.xyz, coordOffset := Vec(0.0, 0.0, 0.0))
  {
    MotionMoves(Settled(s, b, plan).(coordOffset := Vec(0.0, 0.0, 0.0)), plan, out);
  }

  /**
   A move on the line of a G92.1 is aimed with the offset that the line resets: in absolute mode a named
   axis then reads the given value if and only if its old offset was zero.
   */
  lemma MoveWithResetExactly(s: State, line: Input, b: Block, a: Axis)
    requires Import(Empty, line.words) == Success(b) && !line.jog && ExecuteLine(s, line).status == Accepted
    requires Names(b, a) && NonModalOf(b) == RESET_COORDINATE_OFFSET
    requires ModalOf(s.modal, b, false).motion in {SEEK, LINEAR, CW_ARC, CCW_ARC}
    requires ModalOf(s.modal, b, false).distance == ABSOLUTE
    ensures var t := ExecuteLine(s, line).state;
            && t.coordOffset == Vec(0.0, 0.0, 0.0)
            && (Work(t, a) == Given(ModalOf(s.modal, b, false), b, a) <==> s.coordOffset.At(a) == 0.0)
  {
    if Check(s, b, false, line.out).Success? {
      ImportIsCoherent(Empty, line.words);
      SystemIsTaken(s, b, false, line.out);
      MovePlan(s, b, line.out, a);
      ResetDone(s, b, Check(s, b, false, line.out).value, line.out);
    }
  }

  lemma MotionClaims(s: State, m: Modal, b: Block, p: Progress, feed: real, out: Outside)
    requires MotionChecked(s, m, b, p, feed, out).Success? && NamesAny(b)
    ensures MotionChecked(s, m, b, p, feed, out).value.axisCommand == p.axisCommand
  {
  }

  lemma HomePlan(s: State, m: Modal, b: Block, cs: Point, out: Outside, a: Axis)
    requires NonModalOf(b) in {GO_HOME_0, GO_HOME_1} && Aimed(s, m, b, cs, out).Success?
    ensures var index := if NonModalOf(b) == GO_HOME_0 then SETTING_INDEX_G28 else SETTING_INDEX_G30;
            && out.stored(index).Some?
            && Aimed(s, m, b, cs, out).value.ijk.At(a) == HomeAt(s, b, out.stored(index).value, a)
  {
  }

  /** G28 and G30 end at the stored position, on the named axes or, with none named, on all. */
  lemma HomeIsReached(s: State, line: Input, b: Block, a: Axis)
    requires Import(Empty, line.words) == Success(b) && !line.jog && ExecuteLine(s, line).status == Accepted
    requires NonModalOf(b) in {GO_HOME_0, GO_HOME_1}
    ensures var index := if NonModalOf(b) == GO_HOME_0 then SETTING_INDEX_G28 else SETTING_INDEX_G30;
            var t := ExecuteLine(s, line).state;
            if NamesAny(b) && !Names(b, a) then t.position.At(a) == s.position.At(a)
            else Some(t.position.At(a)) == StoredAt(line.out, index, a)
  {
    if Check(s, b, false, line.out).Success? {
      ImportIsCoherent(Empty, line.words);
      CheckedParts(s, b, false, line.out);
      var m := ModalOf(s.modal, b, false);
      var plan := Check(s, b, false, line.out).value;
      AimedLeaves(s, m, b, plan.coordSystem, line.out);
      HomePlan(s, m, b, plan.coordSystem, line.out, a);
      Untaken(s, m, b, Aimed(s, m, b, plan.coordSystem, line.out).value, plan.feed, line.out);
    }
  }

  // ---------------------------------------------------------------------------
  // Feed rates
  // ---------------------------------------------------------------------------

  /** No F word of the block is negative. */
  predicate FeedWordOk(b: Block) {
    Value(b, 'F') >= 0.0
  }

  lemma {:induction false} ImportedFeedWord(b: Block, line: seq<Token>)
    requires FeedWordOk(b) && Import(b, line).Success?
    ensures FeedWordOk(Import(b, line).value)
    decreases |line|
  {
    if line != [] {
      StepExactly(b, line[0]);
      assert FeedWordOk(Step(b, line[0]).value);
      ImportedFeedWord(Step(b, line[0]).value, line[1..]);
    }
  }

  /** Moves at a feed rate have a positive one. */
  predicate FeedOk(x: Action) {
    match x
    case Line(_, feed, rapid, _) => rapid || feed > 0.0
    case Arc(_, _, _, _, feed, _) => feed > 0.0
    case Probe(_, _, feed) => feed > 0.0
    case _ => true
  }

  predicate FeedsOk(actions: seq<Action>) {
    forall x | x in actions :: FeedOk(x)
  }

  lemma FeedIsNonNegative(s: State, m: Modal, b: Block, c: AxisCommand, jog: bool)
    requires s.feedRate >= 0.0 && FeedWordOk(b) && FeedOf(s, m, b, c, jog).Success?
    ensures FeedOf(s, m, b, c, jog).value >= 0.0
  {
  }

  /** A motion that takes the axis words and is not a rapid has passed the check of its feed rate. */
  lemma MotionHasFeed(s: State, m: Modal, b: Block, p: Progress, feed: real, out: Outside)
    requires MotionChecked(s, m, b, p, feed, out).Success? && m.motion !in {NO_MOTION, SEEK}
    requires MotionChecked(s, m, b, p, feed, out).value.axisCommand == MotionMode
    ensures feed != 0.0
  {
  }

  lemma JogHasFeed(s: State, b: Block, out: Outside)
    requires Coherent(b) && Check(s, b, true, out).Success? && NamesAny(b)
    ensures Check(s, b, true, out).value.feed != 0.0
  {
    CheckedParts(s, b, true, out);
    var m := ModalOf(s.modal, b, true);
    var plan := Check(s, b, true, out).value;
    var aimed := Aimed(s, m, b, plan.coordSystem, out).value;
    AimedLeaves(s, m, b, plan.coordSystem, out);
    MotionClaims(s, m, b, aimed, plan.feed, out);
    MotionHasFeed(s, m, b, aimed, plan.feed, out);
  }

  lemma ExecutedFeeds(s: State, b: Block, plan: Plan, out: Outside)
    requires plan.modal.motion !in {NO_MOTION, SEEK} && plan.end.axisCommand == MotionMode ==> plan.feed > 0.0
    ensures FeedsOk(Execute(s, b, plan, false, out).1)
  {
  }

  lemma LineFeeds(s: State, line: Input)
    requires s.feedRate >= 0.0 && !line.jog
    ensures var r := ExecuteLine(s, line); r.state.feedRate >= 0.0 && FeedsOk(r.actions)
  {
    if Import(Empty, line.words).Success? {
      var b := Import(Empty, line.words).value;
      ImportedFeedWord(Empty, line.words);
      if Check(s, b, false, line.out).Success? {
        CheckedParts(s, b, false, line.out);
        var m := ModalOf(s.modal, b, false);
        var plan := Check(s, b, false, line.out).value;
        FeedIsNonNegative(s, m, b, Begin(b, m).axisCommand, false);
        if m.motion !in {NO_MOTION, SEEK} && plan.end.axisCommand == MotionMode {
          MotionHasFeed(s, m, b, Aimed(s, m, b, plan.coordSystem, line.out).value, plan.feed, line.out);
        }
        ExecutedFeeds(s, b, plan, line.out);
      }
    }
  }

  /** A jog that names no axis, at a feed rate of zero. */
  predicate IsIdleJog(line: Input) {
    line.jog && Import(Empty, line.words).Success?
    && !NamesAny(Import(Empty, line.words).value) && Value(Import(Empty, line.words).value, 'F') == 0.0
  }

  lemma JogFeedIs(s: State, b: Block, out: Outside)
    requires Check(s, b, true, out).Success?
    ensures 'F' in b.values && Check(s, b, true, out).value.feed == Length(ModalOf(s.modal, b, true), Value(b, 'F'))
  {
    CheckedParts(s, b, true, out);
  }

  /** A jog moves at a positive feed rate, unless it is idle. */
  lemma JogFeeds(s: State, line: Input)
    requires s.feedRate >= 0.0 && line.jog
    ensures var r := ExecuteLine(s, line);
            && r.state.feedRate >= 0.0
            && (FeedsOk(r.actions) <==> !(IsIdleJog(line) && r.status == Accepted))
  {
    if Import(Empty, line.words).Success? {
      var b := Import(Empty, line.words).value;
      ImportedFeedWord(Empty, line.words);
      ImportIsCoherent(Empty, line.words);
      if Check(s, b, true, line.out).Success? {
        var plan := Check(s, b, true, line.out).value;
        JogFeedIs(s, b, line.out);
        if NamesAny(b) { JogHasFeed(s, b, line.out); }
        var x := Line(plan.end.xyz, plan.feed, false, false);
        assert ExecuteLine(s, line).actions == [x] && x in [x];
      }
    }
  }

  /** Somewhere in the program an idle jog is accepted. */
  predicate JogsIdly(s: State, program: seq<Input>)
    decreases |program|
  {
    program != [] &&
    (|| (IsIdleJog(program[0]) && ExecuteLine(s, program[0]).status == Accepted)
     || JogsIdly(ExecuteLine(s, program[0]).state, program[1..]))
  }

  lemma FeedsOfBoth(first: seq<Action>, rest: seq<Action>)
    ensures FeedsOk(first + rest) <==> FeedsOk(first) && FeedsOk(rest)
  {
    assert forall x | x in first :: x in first + rest;
    assert forall x | x in rest :: x in first + rest;
  }

  /**
   In any program, whatever is moved at a feed rate is moved at a positive one, if and only if no jog without
   axis words and with a feed rate of zero is accepted.
   */
  lemma {:induction false} FeedsArePositiveExactly(s: State, program: seq<Input>)
    requires s.feedRate >= 0.0
    ensures Run(s, program).0.feedRate >= 0.0
    ensures FeedsOk(Run(s, program).1) <==> !JogsIdly(s, program)
    decreases |program|
  {
    if program != [] {
      var first := ExecuteLine(s, program[0]);
      if program[0].jog { JogFeeds(s, program[0]); } else { LineFeeds(s, program[0]); }
      FeedsArePositiveExactly(first.state, program[1..]);
      FeedsOfBoth(first.actions, Run(first.state, program[1..]).1);
    }
  }
}
