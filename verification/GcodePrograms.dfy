/**
 What holds of whole g-code programs, and of a program written in other units.
 */
module GcodePrograms {
  import opened Axes
  import opened GcodeWords
  import opened Options
  import opened GcodeBlock
  import opened GcodeLines

  // ---------------------------------------------------------------------------
  // The parser's position
  // ---------------------------------------------------------------------------

  predicate Probes(actions: seq<Action>) {
    exists i | 0 <= i < |actions| :: actions[i].Probe?
  }

  /** Where the queued moves end, starting from `p`. */
  function EndOf(actions: seq<Action>, p: Point): Point
    decreases |actions|
  {
    if actions == [] then p
    else EndOf(actions[1..], if actions[0].Line? || actions[0].Arc? then actions[0].target else p)
  }

  lemma {:induction false} EndOfBoth(first: seq<Action>, second: seq<Action>, p: Point)
    ensures EndOf(first + second, p) == EndOf(second, EndOf(first, p))
    decreases |first|
  {
    if first == [] {
      assert first + second == second;
    } else {
      assert (first + second)[1..] == first[1..] + second;
      EndOfBoth(first[1..], second, if first[0].Line? || first[0].Arc? then first[0].target else p);
    }
  }

  lemma NonModalEnds(s: State, b: Block, plan: Plan)
    ensures var (after, actions) := NonModalDone(s, b, plan);
            after.position == EndOf(actions, s.position)
  {
    var actions := NonModalDone(s, b, plan).1;
    if NonModalOf(b) == GO_HOME_0 || NonModalOf(b) == GO_HOME_1 {
      var last := actions[|actions| - 1];
      assert actions == actions[..|actions| - 1] + [last];
      assert [last][1..] == [];
      EndOfBoth(actions[..|actions| - 1], [last], s.position);
    } else if actions != [] {
      assert actions[1..] == [];
    }
  }

  lemma MotionEnds(s: State, plan: Plan, out: Outside)
    requires !Probes(MotionDone(s, plan, out).1)
    ensures var (after, actions) := MotionDone(s, plan, out);
            after.position == EndOf(actions, s.position)
  {
    var actions := MotionDone(s, plan, out).1;
    if actions != [] {
      assert !actions[0].Probe?;
      assert actions[1..] == [];
    }
  }

  /** A line that does not probe leaves the parser where its last move ends. */
  lemma LineEnds(s: State, line: Input)
    requires !Probes(ExecuteLine(s, line).actions)
    ensures ExecuteLine(s, line).state.position == EndOf(ExecuteLine(s, line).actions, s.position)
  {
    var r := ExecuteLine(s, line);
    if r.status == Accepted && !line.jog && Import(Empty, line.words).Success? {
      var b := Import(Empty, line.words).value;
      if Check(s, b, line.jog, line.out).Success? {
        var plan := Check(s, b, line.jog, line.out).value;
        var (located, first) := NonModalDone(Settled(s, b, plan), b, plan);
        var second := MotionDone(located, plan, line.out).1;
        assert forall i | 0 <= i < |second| :: second[i] == (first + second)[|first| + i];
        NonModalEnds(Settled(s, b, plan), b, plan);
        MotionEnds(located, plan, line.out);
        EndOfBoth(first, second, s.position);
      }
    }
  }

  // ---------------------------------------------------------------------------
  // Programs
  // ---------------------------------------------------------------------------

  /** A program: the final state and all actions, in order. */
  function Run(s: State, program: seq<Input>): (State, seq<Action>)
    decreases |program|
  {
    if program == [] then (s, [])
    else
      var first := ExecuteLine(s, program[0]);
      var (after, rest) := Run(first.state, program[1..]);
      (after, first.actions + rest)
  }

  /** Over any program without probing, the parser's position is where the last queued move ends. */
  lemma {:induction false} PositionFollowsMotion(s: State, program: seq<Input>)
    requires !Probes(Run(s, program).1)
    ensures Run(s, program).0.position == EndOf(Run(s, program).1, s.position)
    decreases |program|
  {
    if program != [] {
      var first := ExecuteLine(s, program[0]);
      var rest := Run(first.state, program[1..]).1;
      assert forall i | 0 <= i < |first.actions| :: first.actions[i] == (first.actions + rest)[i];
      assert forall i | 0 <= i < |rest| :: rest[i] == (first.actions + rest)[|first.actions| + i];
      LineEnds(s, program[0]);
      PositionFollowsMotion(first.state, program[1..]);
      EndOfBoth(first.actions, rest, s.position);
    }
  }

  /** The lines of a program that are accepted when their turn comes. */
  function AcceptedLines(s: State, program: seq<Input>): seq<Input>
    decreases |program|
  {
    if program == [] then []
    else
      var first := ExecuteLine(s, program[0]);
      (if first.status == Accepted then [program[0]] else []) + AcceptedLines(first.state, program[1..])
  }

  /** A refused line leaves the parser as it was and moves nothing. */
  lemma RefusedLine(s: State, line: Input)
    requires ExecuteLine(s, line).status != Accepted
    ensures ExecuteLine(s, line).state == s && ExecuteLine(s, line).actions == []
  {
  }

  /** The run of a program begins with its first line. */
  lemma RunSteps(s: State, line: Input, rest: seq<Input>)
    ensures var first := ExecuteLine(s, line);
            var after := Run(first.state, rest);
            Run(s, [line] + rest) == (after.0, first.actions + after.1)
  {
    assert ([line] + rest)[1..] == rest;
  }

  /** A refused line changes nothing of the run that follows. */
  lemma RunRefused(s: State, line: Input, rest: seq<Input>)
    requires ExecuteLine(s, line).status != Accepted
    ensures Run(s, [line] + rest) == Run(s, rest)
  {
    RefusedLine(s, line);
    RunSteps(s, line, rest);
    assert [] + Run(s, rest).1 == Run(s, rest).1;
  }

  lemma AcceptedSteps(s: State, line: Input, rest: seq<Input>)
    ensures var first := ExecuteLine(s, line);
            var later := AcceptedLines(first.state, rest);
            AcceptedLines(s, [line] + rest) == if first.status == Accepted then [line] + later else later
  {
    assert ([line] + rest)[1..] == rest;
    assert [] + AcceptedLines(ExecuteLine(s, line).state, rest) == AcceptedLines(ExecuteLine(s, line).state, rest);
  }

  /** Lines answered with an error might as well not have been sent. */
  lemma {:induction false} RefusedLinesVanish(s: State, program: seq<Input>)
    ensures Run(s, AcceptedLines(s, program)) == Run(s, program)
    decreases |program|
  {
    if program != [] {
      var line, rest := program[0], program[1..];
      assert program == [line] + rest;
      var after := ExecuteLine(s, line).state;
      RefusedLinesVanish(after, rest);
      AcceptedSteps(s, line, rest);
      if ExecuteLine(s, line).status == Accepted {
        RunSteps(s, line, rest);
        RunSteps(s, line, AcceptedLines(after, rest));
      } else {
        RefusedLine(s, line);
        RunRefused(s, line, rest);
      }
    }
  }

  // ---------------------------------------------------------------------------
  // Inches are only a notation
  // ---------------------------------------------------------------------------

  /** The letters that hold a length. F does so per minute, unless the line is in inverse time mode. */
  predicate HoldsLength(m: Modal, jog: bool, letter: char) {
    letter in {'X', 'Y', 'Z', 'I', 'J', 'K', 'R'} || (letter == 'F' && (jog || m.feedRate != INVERSE_TIME))
  }

  /** The same block written in millimeters. */
  function InMillimeters(b: Block, m: Modal, jog: bool): Block {
    b.(commands := b.commands[G6 := MM],
       values := map letter | letter in b.values ::
                   if HoldsLength(m, jog, letter) then b.values[letter] * MM_PER_INCH else b.values[letter])
  }

  function Converted(p: Point): Point {
    Vec(p.x * MM_PER_INCH, p.y * MM_PER_INCH, p.z * MM_PER_INCH)
  }

  function ArcWords(b: Block): Point {
    Vec(Value(b, 'I'), Value(b, 'J'), Value(b, 'K'))
  }

  /** Progress on the two notations: words of arcs are not converted yet, other uses of their place are equal. */
  predicate Alike(b: Block, p: Progress, q: Progress) {
    && q == p.(ijk := q.ijk, r := q.r)
    && p.r == Value(b, 'R') && q.r == p.r * MM_PER_INCH
    && ((p.axisCommand != MotionMode && q.ijk == p.ijk) || (p.ijk == ArcWords(b) && q.ijk == Converted(p.ijk)))
  }

  predicate AlikeResults(b: Block, p: Result<Progress>, q: Result<Progress>) {
    if p.Success? then q.Success? && Alike(b, p.value, q.value) else q == p
  }

  lemma ValueInMillimeters(b: Block, m: Modal, jog: bool, letter: char)
    ensures Value(InMillimeters(b, m, jog), letter) ==
              if HoldsLength(m, jog, letter) then Value(b, letter) * MM_PER_INCH else Value(b, letter)
    ensures letter in InMillimeters(b, m, jog).values <==> letter in b.values
  {
  }

  lemma BeginAlike(b: Block, m: Modal, jog: bool)
    requires m.units == INCHES
    ensures var p := Begin(b, m);
            var q := Begin(InMillimeters(b, m, jog), m.(units := MM));
            q == p.(ijk := Converted(p.ijk), r := p.r * MM_PER_INCH)
  {
    ValueInMillimeters(b, m, jog, 'X');
    ValueInMillimeters(b, m, jog, 'Y');
    ValueInMillimeters(b, m, jog, 'Z');
    ValueInMillimeters(b, m, jog, 'I');
    ValueInMillimeters(b, m, jog, 'J');
    ValueInMillimeters(b, m, jog, 'K');
    ValueInMillimeters(b, m, jog, 'R');
    assert InMillimeters(b, m, jog).values.Keys == b.values.Keys;
  }

  lemma SameNames(b: Block, m: Modal, jog: bool)
    ensures var c := InMillimeters(b, m, jog);
            && NonModalOf(c) == NonModalOf(b)
            && (forall letter :: letter in c.values <==> letter in b.values)
            && Value(c, 'L') == Value(b, 'L') && Value(c, 'P') == Value(b, 'P')
            && Value(c, 'N') == Value(b, 'N') && Value(c, 'T') == Value(b, 'T')
            && NamesAny(c) == NamesAny(b)
  {
  }

  lemma NonModalAlike(s: State, m: Modal, b: Block, jog: bool, p: Progress, q: Progress, cs: Point, out: Outside)
    requires m.units == INCHES && Coherent(b) && Alike(b, p, q) && p.ijk == ArcWords(b) && q.ijk == Converted(p.ijk)
    requires p.axisCommand == Begin(b, m).axisCommand
    ensures AlikeResults(b, NonModalChecked(s, m, b, p, cs, out),
                         NonModalChecked(s, m.(units := MM), InMillimeters(b, m, jog), q, cs, out))
  {
    SameNames(b, m, jog);
  }

  lemma AimedAlike(s: State, m: Modal, b: Block, jog: bool, cs: Point, out: Outside)
    requires m.units == INCHES && Coherent(b)
    ensures AlikeResults(b, Aimed(s, m, b, cs, out), Aimed(s, m.(units := MM), InMillimeters(b, m, jog), cs, out))
  {
    BeginAlike(b, m, jog);
    SameNames(b, m, jog);
    var p := DwellChecked(b, Begin(b, m));
    var q := DwellChecked(InMillimeters(b, m, jog), Begin(InMillimeters(b, m, jog), m.(units := MM)));
    if p.Success? {
      NonModalAlike(s, m, b, jog, p.value, q.value, cs, out);
    }
  }

  /** After the motion stage the two notations agree, but for arc words that no arc has used. */
  predicate AgreeButUnused(jog: bool, p: Result<Progress>, q: Result<Progress>) {
    if p.Success? then
      && q.Success? && q.value == p.value.(ijk := q.value.ijk, r := q.value.r)
      && (Unused(p.value, jog) == {} ==> q == p)
    else q == p
  }

  /** The words that no earlier stage takes are still there. */
  predicate KeepsArcWords(b: Block, p: Progress) {
    forall letter | letter in {'I', 'J', 'K', 'R'} :: letter in p.words <==> letter in b.values
  }

  lemma UntouchedAgree(b: Block, jog: bool, p: Progress, q: Progress)
    requires Alike(b, p, q) && KeepsArcWords(b, p)
    ensures AgreeButUnused(jog, Success(p), Success(q))
    ensures AgreeButUnused(jog, Success(Unclaimed(b, p)), Success(Unclaimed(b, q)))
  {
    if Unused(p, jog) == {} || Unused(Unclaimed(b, p), jog) == {} {
      forall letter | letter in {'I', 'J', 'K', 'R'} ensures letter !in b.values {
        assert letter in p.words ==> letter in Unused(p, jog) && letter in Unused(Unclaimed(b, p), jog);
      }
    }
  }

  lemma ArcAgrees(s: State, m: Modal, b: Block, jog: bool, p: Progress, q: Progress, out: Outside)
    requires m.units == INCHES && Alike(b, p, q) && KeepsArcWords(b, p) && p.axisCommand == MotionMode
    ensures AgreeButUnused(jog, ArcChecked(s, m, b, p, out),
                           ArcChecked(s, m.(units := MM), InMillimeters(b, m, jog), q, out))
  {
    SameNames(b, m, jog);
    var r := RadiusArc(s, m, p, out);
    if 'R' in p.words && r.Success? && Unused(r.value, jog) == {} {
      assert 'K' in p.words ==> 'K' in Unused(r.value, jog);
    }
  }

  lemma MotionAgrees(s: State, m: Modal, b: Block, jog: bool, p: Progress, q: Progress, feed: real, out: Outside)
    requires m.units == INCHES && Alike(b, p, q) && KeepsArcWords(b, p)
    ensures AgreeButUnused(jog, MotionChecked(s, m, b, p, feed, out),
                           MotionChecked(s, m.(units := MM), InMillimeters(b, m, jog), q, feed, out))
  {
    SameNames(b, m, jog);
    UntouchedAgree(b, jog, p, q);
    if p.axisCommand == MotionMode && m.motion in {CW_ARC, CCW_ARC} {
      ArcAgrees(s, m, b, jog, p, q, out);
    }
  }

  /** The two notations pass the same checks, to the same plan in other units. */
  predicate SamePlan(p: Result<Plan>, q: Result<Plan>) {
    if p.Success? then q == Success(p.value.(modal := p.value.modal.(units := MM))) else q == p
  }

  /** The F word of the line is read in units per minute, but not converted. */
  predicate FeedIsRaw(s: State, b: Block, m: Modal, jog: bool) {
    !jog && m.feedRate != INVERSE_TIME && s.modal.feedRate != UNITS_PER_MIN && Value(b, 'F') != 0.0
  }

  lemma FeedAgrees(s: State, m: Modal, b: Block, c: AxisCommand, jog: bool)
    requires m.units == INCHES && !FeedIsRaw(s, b, m, jog)
    ensures FeedOf(s, m.(units := MM), InMillimeters(b, m, jog), c, jog) == FeedOf(s, m, b, c, jog)
  {
    ValueInMillimeters(b, m, jog, 'F');
  }

  lemma LocatedAgrees(s: State, m: Modal, b: Block, jog: bool, out: Outside)
    requires m.units == INCHES
    ensures Located(s, m.(units := MM), InMillimeters(b, m, jog), out) == Located(s, m, b, out)
  {
    SameNames(b, m, jog);
    BeginAlike(b, m, jog);
  }

  predicate AlikePlans(b: Block, p: Result<Plan>, q: Result<Plan>) {
    if p.Success? then
      && q.Success? && Alike(b, p.value.end, q.value.end)
      && q.value == p.value.(modal := p.value.modal.(units := MM), end := q.value.end)
    else q == p
  }

  lemma PreparedAgrees(s: State, m: Modal, b: Block, jog: bool, out: Outside)
    requires m.units == INCHES && Coherent(b) && !FeedIsRaw(s, b, m, jog)
    ensures AlikePlans(b, Prepared(s, m, b, jog, out),
                       Prepared(s, m.(units := MM), InMillimeters(b, m, jog), jog, out))
  {
    SameNames(b, m, jog);
    ValueInMillimeters(b, m, jog, 'S');
    BeginAlike(b, m, jog);
    FeedAgrees(s, m, b, Begin(b, m).axisCommand, jog);
    LocatedAgrees(s, m, b, jog, out);
    if Located(s, m, b, out).Success? {
      AimedAlike(s, m, b, jog, Located(s, m, b, out).value, out);
    }
  }

  lemma JogAgrees(b: Block, m: Modal, jog: bool, p: Progress, out: Outside)
    ensures JogChecked(InMillimeters(b, m, jog), p, out) == JogChecked(b, p, out)
  {
    SameNames(b, m, jog);
    assert InMillimeters(b, m, jog).commands.Keys == b.commands.Keys + {G6};
  }

  lemma FinishedAgrees(s: State, b: Block, p: Plan, q: Plan, jog: bool, out: Outside)
    requires p.modal.units == INCHES && Alike(b, p.end, q.end) && KeepsArcWords(b, p.end)
    requires q == p.(modal := p.modal.(units := MM), end := q.end)
    ensures SamePlan(Finished(s, b, p, jog, out), Finished(s, InMillimeters(b, p.modal, jog), q, jog, out))
  {
    MotionAgrees(s, p.modal, b, jog, p.end, q.end, p.feed, out);
    var end := MotionChecked(s, p.modal, b, p.end, p.feed, out);
    if end.Success? {
      JogAgrees(b, p.modal, jog, end.value, out);
    }
  }

  lemma PreparedKeepsArcWords(s: State, m: Modal, b: Block, jog: bool, out: Outside)
    requires Coherent(b) && Prepared(s, m, b, jog, out).Success?
    ensures KeepsArcWords(b, Prepared(s, m, b, jog, out).value.end)
    ensures Prepared(s, m, b, jog, out).value.modal == m
  {
    AimedLeaves(s, m, b, Prepared(s, m, b, jog, out).value.coordSystem, out);
  }

  lemma InchesAlike(s: State, b: Block, jog: bool, out: Outside)
    requires Coherent(b) && ModalOf(s.modal, b, jog).units == INCHES && !FeedIsRaw(s, b, ModalOf(s.modal, b, jog), jog)
    ensures SamePlan(Check(s, b, jog, out), Check(s, InMillimeters(b, ModalOf(s.modal, b, jog), jog), jog, out))
  {
    var m := ModalOf(s.modal, b, jog);
    var c := InMillimeters(b, m, jog);
    assert ModalOf(s.modal, c, jog) == m.(units := MM);
    PreparedAgrees(s, m, b, jog, out);
    var p := Prepared(s, m, b, jog, out);
    if p.Success? {
      PreparedKeepsArcWords(s, m, b, jog, out);
      FinishedAgrees(s, b, p.value, Prepared(s, m.(units := MM), c, jog, out).value, jog, out);
    }
  }

  lemma RawFeedDiffers(s: State, b: Block, jog: bool, out: Outside)
    requires ModalOf(s.modal, b, jog).units == INCHES && FeedIsRaw(s, b, ModalOf(s.modal, b, jog), jog)
    requires Check(s, b, jog, out).Success?
    ensures !SamePlan(Check(s, b, jog, out), Check(s, InMillimeters(b, ModalOf(s.modal, b, jog), jog), jog, out))
  {
    var m := ModalOf(s.modal, b, jog);
    var c := InMillimeters(b, m, jog);
    CheckedParts(s, b, jog, out);
    if Check(s, c, jog, out).Success? {
      CheckedParts(s, c, jog, out);
      ValueInMillimeters(b, m, jog, 'F');
    }
  }

  /**
   A block in inches and the same block written in millimeters are checked alike and aim at the same
   points, whatever the line does; an acceptable block does so exactly if its F word does not escape
   conversion.
   */
  lemma InchesAreNotationExactly(s: State, line: Input, b: Block)
    requires Import(Empty, line.words) == Success(b) && ModalOf(s.modal, b, line.jog).units == INCHES
    ensures var m := ModalOf(s.modal, b, line.jog);
            var inches := Check(s, b, line.jog, line.out);
            var millimeters := Check(s, InMillimeters(b, m, line.jog), line.jog, line.out);
            && (!FeedIsRaw(s, b, m, line.jog) ==> SamePlan(inches, millimeters))
            && (inches.Success? ==> (SamePlan(inches, millimeters) <==> !FeedIsRaw(s, b, m, line.jog)))
  {
    ImportIsCoherent(Empty, line.words);
    if !FeedIsRaw(s, b, ModalOf(s.modal, b, line.jog), line.jog) {
      InchesAlike(s, b, line.jog, line.out);
    } else if Check(s, b, line.jog, line.out).Success? {
      RawFeedDiffers(s, b, line.jog, line.out);
    }
  }
}
