/**
 What holds of whole g-code lines and of programs made of them.
 */
module GcodeLines {
  import opened Axes
  import opened GcodeWords
  import opened Options
  import opened GcodeBlock

  // ---------------------------------------------------------------------------
  // Importable blocks
  // ---------------------------------------------------------------------------

  /** The claim on the axis words goes with the commands. */
  predicate Coherent(b: Block) {
    && (b.axisCommand == NonModal <==> NonModalOf(b) in {SET_COORDINATE_DATA, GO_HOME_0, GO_HOME_1, SET_COORDINATE_OFFSET})
    && (b.axisCommand == MotionMode <==> CodeOr(b, G1, NO_MOTION) != NO_MOTION)
    && CodeOr(b, G12, 0) < N_COORDINATE_SYSTEM
  }

  lemma GWordKeepsCoherent(b: Block, i: int, m: int)
    requires Coherent(b) && m >= 0 && GWord(b, i, m).Success?
    ensures Coherent(GWord(b, i, m).value)
  {
  }

  lemma StepKeepsCoherent(b: Block, t: Token)
    requires Coherent(b) && Step(b, t).Success?
    ensures Coherent(Step(b, t).value)
  {
    if t.Word? && t.letter == 'G' { GWordKeepsCoherent(b, Significand(t.value), Mantissa(t.value)); }
  }

  lemma {:induction false} ImportIsCoherent(b: Block, line: seq<Token>)
    requires Coherent(b) && Import(b, line).Success?
    ensures Coherent(Import(b, line).value)
    decreases |line|
  {
    if line != [] {
      StepKeepsCoherent(b, line[0]);
      ImportIsCoherent(Step(b, line[0]).value, line[1..]);
    }
  }

  // ---------------------------------------------------------------------------
  // Every word is used
  // ---------------------------------------------------------------------------

  /** The block moves along an arc. */
  predicate IsArc(b: Block, m: Modal) {
    Begin(b, m).axisCommand == MotionMode && m.motion in {CW_ARC, CCW_ARC}
  }

  /** Which words a block has a use for. */
  predicate HasUse(b: Block, m: Modal, jog: bool, letter: char) {
    match letter
    case 'N' => true
    case 'F' => true
    case 'S' => !jog
    case 'T' => !jog
    case 'X' => true
    case 'Y' => true
    case 'Z' => true
    case 'P' => NonModalOf(b) in {DWELL, SET_COORDINATE_DATA}
    case 'L' => NonModalOf(b) == SET_COORDINATE_DATA
    case 'R' => IsArc(b, m)
    case 'I' => IsArc(b, m) && 'R' !in b.values
    case 'J' => IsArc(b, m) && 'R' !in b.values
    case 'K' => IsArc(b, m) && 'R' !in b.values
    case _ => false
  }

  function NonModalUses(b: Block): set<char> {
    if NonModalOf(b) == SET_COORDINATE_DATA then {'L', 'P'} else if NonModalOf(b) == DWELL then {'P'} else {}
  }

  function ArcUses(b: Block, m: Modal): set<char> {
    if !IsArc(b, m) then {} else if 'R' in b.values then {'R'} else {'I', 'J', 'K'}
  }

  /** What the non-modal stage leaves of the words and of the claim. */
  lemma AimedLeaves(s: State, m: Modal, b: Block, cs: Point, out: Outside)
    requires Coherent(b) && Aimed(s, m, b, cs, out).Success?
    ensures var p := Aimed(s, m, b, cs, out).value;
            && p.words == b.values.Keys - NonModalUses(b)
            && (p.axisCommand == MotionMode <==> Begin(b, m).axisCommand == MotionMode)
            && (NamesAny(b) ==> p.axisCommand != NoCommand)
  {
  }

  lemma MotionLeaves(s: State, m: Modal, b: Block, p: Progress, feed: real, out: Outside)
    requires MotionChecked(s, m, b, p, feed, out).Success?
    requires p.words == b.values.Keys - NonModalUses(b)
    requires p.axisCommand == MotionMode <==> Begin(b, m).axisCommand == MotionMode
    requires NamesAny(b) ==> p.axisCommand != NoCommand
    ensures var q := MotionChecked(s, m, b, p, feed, out).value;
            && q.words == p.words - ArcUses(b, m)
            && (NamesAny(b) ==> q.axisCommand != NoCommand)
  {
    assert 'R' in p.words <==> 'R' in b.values;
  }

  /** The words left over at the end are exactly those that the block has no use for. */
  lemma UnusedExactly(s: State, m: Modal, b: Block, cs: Point, feed: real, jog: bool, out: Outside)
    requires Coherent(b) && Aimed(s, m, b, cs, out).Success?
    requires MotionChecked(s, m, b, Aimed(s, m, b, cs, out).value, feed, out).Success?
    ensures var q := MotionChecked(s, m, b, Aimed(s, m, b, cs, out).value, feed, out).value;
            Unused(q, jog) == set letter | letter in b.values && !HasUse(b, m, jog, letter)
  {
    AimedLeaves(s, m, b, cs, out);
    MotionLeaves(s, m, b, Aimed(s, m, b, cs, out).value, feed, out);
  }

  /** The pieces of a successful check. */
  lemma CheckedParts(s: State, b: Block, jog: bool, out: Outside)
    requires Check(s, b, jog, out).Success?
    ensures var m := ModalOf(s.modal, b, jog);
            var plan := Check(s, b, jog, out).value;
            && plan.modal == m
            && Located(s, m, b, out) == Success(plan.coordSystem)
            && FeedOf(s, m, b, Begin(b, m).axisCommand, jog) == Success(plan.feed)
            && plan.speed == SpeedOf(s, b)
            && Aimed(s, m, b, plan.coordSystem, out).Success?
            && MotionChecked(s, m, b, Aimed(s, m, b, plan.coordSystem, out).value, plan.feed, out) == Success(plan.end)
            && Unused(plan.end, jog) == {}
            && (jog ==> JogChecked(b, plan.end, out) == Accepted)
  {
  }

  /** An accepted line has a use for each of its words. */
  lemma AcceptedUsesEveryWord(s: State, line: Input, b: Block)
    requires Import(Empty, line.words) == Success(b) && ExecuteLine(s, line).status == Accepted
    ensures forall letter | letter in b.values :: HasUse(b, ModalOf(s.modal, b, line.jog), line.jog, letter)
  {
    if Check(s, b, line.jog, line.out).Success? {
      ImportIsCoherent(Empty, line.words);
      CheckedParts(s, b, line.jog, line.out);
      var m := ModalOf(s.modal, b, line.jog);
      var plan := Check(s, b, line.jog, line.out).value;
      UnusedExactly(s, m, b, plan.coordSystem, plan.feed, line.jog, line.out);
      assert forall letter | letter in b.values :: HasUse(b, m, line.jog, letter) || letter in Unused(plan.end, line.jog);
    }
  }

  /** The order of the words on an importable line changes nothing at all. */
  lemma WordOrderIsFree(s: State, line: Input, words: seq<Token>)
    requires multiset(words) == multiset(line.words) && Import(Empty, line.words).Success?
    ensures ExecuteLine(s, line.(words := words)) == ExecuteLine(s, line)
  {
    AnyOrder(line.words, words);
  }

  // ---------------------------------------------------------------------------
  // Work coordinates
  // ---------------------------------------------------------------------------

  /** Where the machine stands in the coordinates of the active system. */
  function Work(s: State, a: Axis): real {
    s.position.At(a) - s.coordSystem.At(a) - s.coordOffset.At(a)
  }

  /** The coordinate system of the block is the active one afterwards, unless G10 rewrites it. */
  lemma SystemIsTaken(s: State, b: Block, jog: bool, out: Outside)
    requires Check(s, b, jog, out).Success?
    ensures Settled(s, b, Check(s, b, jog, out).value).coordSystem == Check(s, b, jog, out).value.coordSystem
  {
    CheckedParts(s, b, jog, out);
  }

  lemma OffsetPlan(s: State, m: Modal, b: Block, cs: Point, out: Outside)
    requires NonModalOf(b) == SET_COORDINATE_OFFSET && Aimed(s, m, b, cs, out).Success?
    ensures var xyz := Aimed(s, m, b, cs, out).value.xyz;
            forall a :: xyz.At(a) == Offset(s, b, Begin(b, m), cs, a)
  {
  }

  lemma Untaken(s: State, m: Modal, b: Block, p: Progress, feed: real, out: Outside)
    requires MotionChecked(s, m, b, p, feed, out).Success? && p.axisCommand != MotionMode
    ensures MotionChecked(s, m, b, p, feed, out).value == p
  {
  }

  /** After G92 each named axis reads the value it was given, and nothing has moved. */
  lemma OffsetSetsWork(s: State, line: Input, b: Block, a: Axis)
    requires Import(Empty, line.words) == Success(b) && NonModalOf(b) == SET_COORDINATE_OFFSET
    requires !line.jog && ExecuteLine(s, line).status == Accepted
    ensures var r := ExecuteLine(s, line);
            && r.state.position == s.position && r.actions == []
            && (Names(b, a) ==> Work(r.state, a) == Length(ModalOf(s.modal, b, false), Value(b, Letter(a))))
            && (!Names(b, a) ==> r.state.coordOffset.At(a) == s.coordOffset.At(a))
  {
    if Check(s, b, false, line.out).Success? {
      ImportIsCoherent(Empty, line.words);
      CheckedParts(s, b, false, line.out);
      SystemIsTaken(s, b, false, line.out);
      var m := ModalOf(s.modal, b, false);
      var plan := Check(s, b, false, line.out).value;
      AimedLeaves(s, m, b, plan.coordSystem, line.out);
      OffsetPlan(s, m, b, plan.coordSystem, line.out);
      Untaken(s, m, b, Aimed(s, m, b, plan.coordSystem, line.out).value, plan.feed, line.out);
    }
  }

  lemma DataPlan(s: State, m: Modal, b: Block, cs: Point, out: Outside)
    requires NonModalOf(b) == SET_COORDINATE_DATA && Aimed(s, m, b, cs, out).Success?
    ensures var p := Aimed(s, m, b, cs, out).value;
            && p.coordSelect == CoordIndex(m, Significand(Value(b, 'P')))
            && out.stored(p.coordSelect).Some?
            && (forall a :: p.ijk.At(a) == CoordData(s, b, Begin(b, m), out.stored(p.coordSelect).value, a))
            && Significand(Value(b, 'L')) in {2, 20}
  {
  }

  /**
   G10 stores what it announces. When it names the active system, L20 makes each named axis read the
   value it was given, and L2 makes that value the origin; the other axes take their stored origin.
   */
  lemma CoordinateDataIsSet(s: State, line: Input, b: Block, a: Axis)
    requires Import(Empty, line.words) == Success(b) && NonModalOf(b) == SET_COORDINATE_DATA
    requires !line.jog && ExecuteLine(s, line).status == Accepted
    ensures var m := ModalOf(s.modal, b, false);
            var r := ExecuteLine(s, line);
            var index := CoordIndex(m, Significand(Value(b, 'P')));
            var v := Length(m, Value(b, Letter(a)));
            && r.state.position == s.position
            && |r.actions| == 1 && r.actions[0].Store? && r.actions[0].index == index
            && (index == m.coordSelect ==>
                  && r.state.coordSystem == r.actions[0].data
                  && (Names(b, a) && Significand(Value(b, 'L')) == 20 ==> Work(r.state, a) == v)
                  && (Names(b, a) && Significand(Value(b, 'L')) == 2 ==> r.state.coordSystem.At(a) == v)
                  && (!Names(b, a) ==> Some(r.state.coordSystem.At(a)) == StoredAt(line.out, index, a)))
  {
    if Check(s, b, false, line.out).Success? {
      ImportIsCoherent(Empty, line.words);
      CheckedParts(s, b, false, line.out);
      var m := ModalOf(s.modal, b, false);
      var plan := Check(s, b, false, line.out).value;
      AimedLeaves(s, m, b, plan.coordSystem, line.out);
      DataPlan(s, m, b, plan.coordSystem, line.out);
      Untaken(s, m, b, Aimed(s, m, b, plan.coordSystem, line.out).value, plan.feed, line.out);
    }
  }

  function StoredAt(out: Outside, index: int, a: Axis): Option<real> {
    match out.stored(index)
    case None => None
    case Some(data) => Some(data.At(a))
  }

  // ---------------------------------------------------------------------------
  // Words that may be missing
  // ---------------------------------------------------------------------------

  /** The checks of a line get as far as its non-modal command. */
  predicate ReachesNonModal(s: State, b: Block, jog: bool, out: Outside) {
    var m := ModalOf(s.modal, b, jog);
    !BadLineNumber(b) && FeedOf(s, m, b, Begin(b, m).axisCommand, jog).Success? && Located(s, m, b, out).Success?
  }

  lemma DataWordsMissing(s: State, m: Modal, b: Block, cs: Point, out: Outside)
    requires NonModalOf(b) == SET_COORDINATE_DATA
    ensures Aimed(s, m, b, cs, out) == Fail(ValueWordMissing) <==>
              NamesAny(b) && 'P' !in b.values && 'L' !in b.values
    ensures Aimed(s, m, b, cs, out).Success? ==> 'L' in b.values
  {
    ZeroIsWhole();
    assert Begin(b, m).words == b.values.Keys;
  }

  lemma MotionMissesNoWord(s: State, m: Modal, b: Block, p: Progress, feed: real, out: Outside)
    ensures MotionChecked(s, m, b, p, feed, out) != Fail(ValueWordMissing)
  {
  }

  /**
   A line with G10 that gets as far as this command is refused for a missing word only when P and L are both
   missing; an accepted one has L, but not always P.
   */
  lemma MissingWordsOfG10(s: State, line: Input, b: Block)
    requires Import(Empty, line.words) == Success(b) && NonModalOf(b) == SET_COORDINATE_DATA
    ensures ExecuteLine(s, line).status == ValueWordMissing <==>
              ReachesNonModal(s, b, line.jog, line.out) && NamesAny(b) && 'P' !in b.values && 'L' !in b.values
    ensures ExecuteLine(s, line).status == Accepted ==> 'L' in b.values
  {
    var m := ModalOf(s.modal, b, line.jog);
    if ReachesNonModal(s, b, line.jog, line.out) {
      var cs := Located(s, m, b, line.out).value;
      var feed := FeedOf(s, m, b, Begin(b, m).axisCommand, line.jog).value;
      DataWordsMissing(s, m, b, cs, line.out);
      if Aimed(s, m, b, cs, line.out).Success? {
        MotionMissesNoWord(s, m, b, Aimed(s, m, b, cs, line.out).value, feed, line.out);
      }
    }
  }

  lemma ZeroIsWhole()
    ensures Significand(0.0) == 0
  {
  }

  lemma MissingPInData(s: State, m: Modal, b: Block, cs: Point, out: Outside)
    requires NonModalOf(b) == SET_COORDINATE_DATA && 'L' in b.values && 'P' !in b.values
    ensures Aimed(s, m, b.(values := b.values['P' := 0.0]), cs, out) == Aimed(s, m, b, cs, out)
  {
    ZeroIsWhole();
    var c := b.(values := b.values['P' := 0.0]);
    assert c.values.Keys == b.values.Keys + {'P'};
    assert c.values.Keys - {'L', 'P'} == b.values.Keys - {'L', 'P'};
  }

  lemma MissingPInPrepared(s: State, m: Modal, b: Block, jog: bool, out: Outside)
    requires NonModalOf(b) == SET_COORDINATE_DATA && 'L' in b.values && 'P' !in b.values
    ensures Prepared(s, m, b.(values := b.values['P' := 0.0]), jog, out) == Prepared(s, m, b, jog, out)
  {
    var c := b.(values := b.values['P' := 0.0]);
    assert Located(s, m, c, out) == Located(s, m, b, out);
    if Located(s, m, b, out).Success? {
      MissingPInData(s, m, b, Located(s, m, b, out).value, out);
    }
  }

  lemma MissingPInFinished(s: State, b: Block, plan: Plan, jog: bool, out: Outside)
    ensures Finished(s, b.(values := b.values['P' := 0.0]), plan, jog, out) == Finished(s, b, plan, jog, out)
  {
  }

  lemma MissingPInCheck(s: State, b: Block, jog: bool, out: Outside)
    requires NonModalOf(b) == SET_COORDINATE_DATA && 'L' in b.values && 'P' !in b.values
    ensures Check(s, b.(values := b.values['P' := 0.0]), jog, out) == Check(s, b, jog, out)
  {
    var m := ModalOf(s.modal, b, jog);
    MissingPInPrepared(s, m, b, jog, out);
    if Prepared(s, m, b, jog, out).Success? {
      MissingPInFinished(s, b, Prepared(s, m, b, jog, out).value, jog, out);
    }
  }

  lemma {:induction false} ImportOneMore(b: Block, line: seq<Token>, t: Token)
    requires Import(b, line).Success?
    ensures Import(b, line + [t]) == Step(Import(b, line).value, t)
    decreases |line|
  {
    if line == [] {
      assert ([] + [t])[1..] == [];
    } else {
      assert (line + [t])[1..] == line[1..] + [t];
      ImportOneMore(Step(b, line[0]).value, line[1..], t);
    }
  }

  /** A G10 without its P word is not refused: it does exactly what P0 does. */
  lemma MissingPActsAsZero(s: State, line: Input, b: Block)
    requires Import(Empty, line.words) == Success(b) && NonModalOf(b) == SET_COORDINATE_DATA
    requires 'L' in b.values && 'P' !in b.values
    ensures ExecuteLine(s, line.(words := line.words + [Word('P', 0.0)])) == ExecuteLine(s, line)
  {
    var c := b.(values := b.values['P' := 0.0]);
    ImportOneMore(Empty, line.words, Word('P', 0.0));
    MissingPInCheck(s, b, line.jog, line.out);
    if Check(s, b, line.jog, line.out).Success? {
      var plan := Check(s, b, line.jog, line.out).value;
      assert Settled(s, c, plan) == Settled(s, b, plan);
    }
  }

  // ---------------------------------------------------------------------------
  // Feed rates and jogs
  // ---------------------------------------------------------------------------

  /** The F word of an accepted line, converted to millimeters, is the feed rate of the line. */
  predicate FeedIsConverted(m: Modal, b: Block, feed: real) {
    feed == Length(m, Value(b, 'F'))
  }

  /**
   An F word in units per minute is converted unless the line is in inches, the line before was in
   inverse time mode, the line is not a jog and the rate is not zero.
   */
  lemma FeedIsConvertedExactly(s: State, b: Block, jog: bool, out: Outside)
    requires Check(s, b, jog, out).Success? && 'F' in b.values
    requires ModalOf(s.modal, b, jog).feedRate != INVERSE_TIME
    ensures var m := ModalOf(s.modal, b, jog);
            FeedIsConverted(m, b, Check(s, b, jog, out).value.feed) <==>
              jog || m.units != INCHES || s.modal.feedRate == UNITS_PER_MIN || Value(b, 'F') == 0.0
  {
    CheckedParts(s, b, jog, out);
  }

  lemma JogTarget(s: State, m: Modal, b: Block, cs: Point, out: Outside)
    requires NonModalOf(b) in {0, ABSOLUTE_OVERRIDE} && Aimed(s, m, b, cs, out).Success?
    ensures var p := Aimed(s, m, b, cs, out).value;
            && (!NamesAny(b) ==> p.xyz == Vec(0.0, 0.0, 0.0))
            && (forall a | NamesAny(b) && !Names(b, a) :: p.xyz.At(a) == s.position.At(a))
  {
  }

  lemma MotionAims(s: State, m: Modal, b: Block, p: Progress, feed: real, out: Outside)
    requires MotionChecked(s, m, b, p, feed, out).Success?
    ensures MotionChecked(s, m, b, p, feed, out).value.xyz == p.xyz
  {
  }

  /**
   A jog moves in one straight line to where it says, and only the parser's position changes. The axes it
   does not name stay where they are exactly if it names any axis, or they are at machine zero already:
   a jog without axis words goes to machine zero.
   */
  lemma JogKeepsUnnamedAxesExactly(s: State, line: Input, b: Block)
    requires Import(Empty, line.words) == Success(b) && line.jog && ExecuteLine(s, line).status == Accepted
    ensures var r := ExecuteLine(s, line);
            && r.state == s.(position := r.state.position)
            && (exists feed :: r.actions == [Line(r.state.position, feed, false, false)])
            && ((forall a | !Names(b, a) :: r.state.position.At(a) == s.position.At(a)) <==>
                  NamesAny(b) || s.position == Vec(0.0, 0.0, 0.0))
  {
    if Check(s, b, true, line.out).Success? {
      CheckedParts(s, b, true, line.out);
      var m := ModalOf(s.modal, b, true);
      var plan := Check(s, b, true, line.out).value;
      JogTarget(s, m, b, plan.coordSystem, line.out);
      MotionAims(s, m, b, Aimed(s, m, b, plan.coordSystem, line.out).value, plan.feed, line.out);
      if !NamesAny(b) {
        assert !Names(b, X) && !Names(b, Y) && !Names(b, Z);
      }
    }
  }
}
