/** Accepted lines on which the parser does not do what a reader of the line would expect. */
module GcodeInputs {
  import opened Axes
  import opened GcodeWords
  import opened Options
  import opened GcodeBlock
  import opened GcodeLines
  import opened GcodeMotion
  import opened GcodeTable
  import opened GcodeActions
  import opened GcodeArcs
  import opened GcodeAcceptance

  const Origin := Vec(0.0, 0.0, 0.0)

  /** A parser in rapid mode and absolute millimeters at `position`, with the G92 offset `offset`. */
  function Resting(position: Point, offset: Point): State {
    State(Modal(SEEK, UNITS_PER_MIN, MM, ABSOLUTE, 0, 5, 9), 0.0, 0.0, 0, 0, position, Origin, offset)
  }

  lemma OneWord(t: Token)
    requires Step(Empty, t).Success?
    ensures Import(Empty, [t]) == Step(Empty, t)
  {
    assert [t][1..] == [];
  }

  lemma TwoWords(t: Token, u: Token)
    requires Step(Empty, t).Success? && Step(Step(Empty, t).value, u).Success?
    ensures Import(Empty, [t, u]) == Step(Step(Empty, t).value, u)
  {
    assert [t, u][1..] == [u] && [u][1..] == [];
    var b := Step(Empty, t).value;
    assert Import(b, [u]) == Step(b, u);
  }

  // ---------------------------------------------------------------------------
  // A jog without axis words
  // ---------------------------------------------------------------------------

  lemma BareJogChecked(out: Outside)
    requires !out.beyondTravel(Origin)
    ensures var s := Resting(Vec(5.0, 5.0, 5.0), Origin);
            var b := Block(map[], map['F' := 100.0], NoCommand);
            && Check(s, b, true, out).Success?
            && Check(s, b, true, out).value.end.xyz == Origin && Check(s, b, true, out).value.feed == 100.0
  {
    var s := Resting(Vec(5.0, 5.0, 5.0), Origin);
    var b := Block(map[], map['F' := 100.0], NoCommand);
    var m := ModalOf(s.modal, b, true);
    assert Begin(b, m) == Progress(NoCommand, {'F'}, Origin, Origin, 0.0, 0);
    assert Prepared(s, m, b, true, out) == Success(Plan(m, 100.0, 0.0, Origin, Begin(b, m)));
    assert Unused(Begin(b, m), true) == {};
  }

  /** `$J=F100` at X5 Y5 Z5 moves the machine to its zero. */
  lemma BareJogMoves(out: Outside)
    requires !out.beyondTravel(Origin)
    ensures var r := ExecuteLine(Resting(Vec(5.0, 5.0, 5.0), Origin), Input(true, [Word('F', 100.0)], out));
            r.status == Accepted && r.state.position == Origin && r.actions == [Line(Origin, 100.0, false, false)]
  {
    OneWord(Word('F', 100.0));
    assert Step(Empty, Word('F', 100.0)) == Success(Block(map[], map['F' := 100.0], NoCommand));
    BareJogChecked(out);
  }

  lemma IdleJogChecked(out: Outside)
    requires !out.beyondTravel(Origin)
    ensures var s := Resting(Vec(5.0, 5.0, 5.0), Origin);
            var b := Block(map[], map['F' := 0.0], NoCommand);
            && Check(s, b, true, out).Success?
            && Check(s, b, true, out).value.end.xyz == Origin && Check(s, b, true, out).value.feed == 0.0
  {
    var s := Resting(Vec(5.0, 5.0, 5.0), Origin);
    var b := Block(map[], map['F' := 0.0], NoCommand);
    var m := ModalOf(s.modal, b, true);
    assert Begin(b, m) == Progress(NoCommand, {'F'}, Origin, Origin, 0.0, 0);
    assert Prepared(s, m, b, true, out) == Success(Plan(m, 0.0, 0.0, Origin, Begin(b, m)));
    assert Unused(Begin(b, m), true) == {};
  }

  /** `$J=F0` is accepted, and the move to machine zero has no speed. */
  lemma IdleJogMoves(out: Outside)
    requires !out.beyondTravel(Origin)
    ensures var line := Input(true, [Word('F', 0.0)], out);
            var r := ExecuteLine(Resting(Vec(5.0, 5.0, 5.0), Origin), line);
            IsIdleJog(line) && r.status == Accepted && r.actions == [Line(Origin, 0.0, false, false)]
  {
    OneWord(Word('F', 0.0));
    assert Step(Empty, Word('F', 0.0)) == Success(Block(map[], map['F' := 0.0], NoCommand));
    IdleJogChecked(out);
  }

  // ---------------------------------------------------------------------------
  // A G10 without P
  // ---------------------------------------------------------------------------

  lemma ThreeWords(t: Token, u: Token, v: Token)
    requires Step(Empty, t).Success? && Step(Step(Empty, t).value, u).Success?
    requires Step(Step(Step(Empty, t).value, u).value, v).Success?
    ensures Import(Empty, [t, u, v]) == Step(Step(Step(Empty, t).value, u).value, v)
  {
    TwoWords(t, u);
    ImportOneMore(Empty, [t, u], v);
    assert [t, u] + [v] == [t, u, v];
  }

  /** `G10 L2 X1`. */
  function Unaddressed(): Block {
    Block(map[G0 := SET_COORDINATE_DATA], map['L' := 2.0, 'X' := 1.0], NonModal)
  }

  lemma UnaddressedImported()
    ensures Import(Empty, [Word('G', 10.0), Word('L', 2.0), Word('X', 1.0)]) == Success(Unaddressed())
  {
    assert Significand(10.0) == 10 && Mantissa(10.0) == 0;
    assert Significand(2.0) == 2 && Mantissa(2.0) == 0;
    var b := Block(map[G0 := SET_COORDINATE_DATA], map[], NonModal);
    assert Step(Empty, Word('G', 10.0)) == Success(b);
    assert Step(b, Word('L', 2.0)) == Success(b.(values := map['L' := 2.0]));
    assert Step(b.(values := map['L' := 2.0]), Word('X', 1.0)) == Success(Unaddressed());
    ThreeWords(Word('G', 10.0), Word('L', 2.0), Word('X', 1.0));
  }

  lemma UnaddressedChecked(out: Outside, data: Point)
    requires out.stored(0) == Some(data)
    ensures var s := Resting(Origin, Origin);
            && Check(s, Unaddressed(), false, out).Success?
            && Check(s, Unaddressed(), false, out).value.end.coordSelect == 0
            && Check(s, Unaddressed(), false, out).value.end.ijk == data.(x := 1.0)
            && Check(s, Unaddressed(), false, out).value.end.axisCommand == NonModal
            && Check(s, Unaddressed(), false, out).value.modal == s.modal
  {
    var s := Resting(Origin, Origin);
    var b := Unaddressed();
    var m := ModalOf(s.modal, b, false);
    var p := Progress(NonModal, {'L', 'X'}, Vec(1.0, 0.0, 0.0), Origin, 0.0, 0);
    assert Begin(b, m) == p;
    assert Significand(2.0) == 2 && Significand(0.0) == 0;
    var q := p.(words := {'X'}, ijk := data.(x := 1.0));
    assert p.words - {'L', 'P'} == {'X'};
    assert Aimed(s, m, b, Origin, out) == Success(q);
    assert Prepared(s, m, b, false, out) == Success(Plan(m, 0.0, 0.0, Origin, q));
    assert Unused(q, false) == {};
  }

  /** `G10 L2 X1` is accepted without its P word, and moves the origin of the active coordinate system. */
  lemma UnaddressedDataIsStored(out: Outside, data: Point)
    requires out.stored(0) == Some(data)
    ensures var line := Input(false, [Word('G', 10.0), Word('L', 2.0), Word('X', 1.0)], out);
            var r := ExecuteLine(Resting(Origin, Origin), line);
            && r.status == Accepted && r.actions == [Store(0, data.(x := 1.0))]
            && r.state.coordSystem == data.(x := 1.0)
  {
    UnaddressedImported();
    UnaddressedChecked(out, data);
  }

  // ---------------------------------------------------------------------------
  // A feed rate in inches on the line that leaves inverse time mode
  // ---------------------------------------------------------------------------

  /** In inverse time mode and inches. */
  function Timed(): State {
    var s := Resting(Origin, Origin);
    s.(modal := s.modal.(feedRate := INVERSE_TIME, units := INCHES))
  }

  lemma LeavingInverseTimeChecked(out: Outside)
    ensures var b := Block(map[G5 := 0], map['F' := 10.0], NoCommand);
            && Check(Timed(), b, false, out).Success? && Check(Timed(), b, false, out).value.feed == 10.0
            && Check(Timed(), b, false, out).value.modal.units == INCHES
  {
    var s := Timed();
    var b := Block(map[G5 := 0], map['F' := 10.0], NoCommand);
    var m := ModalOf(s.modal, b, false);
    assert Begin(b, m) == Progress(NoCommand, {'F'}, Origin, Origin, 0.0, 0);
    assert FeedOf(s, m, b, NoCommand, false) == Success(10.0);
    assert Prepared(s, m, b, false, out) == Success(Plan(m, 10.0, 0.0, Origin, Begin(b, m)));
    assert Unused(Begin(b, m), false) == {};
  }

  /** `G94 F10` in inches after G93 sets 10 millimeters per minute, not the 254 of ten inches. */
  lemma FeedInInchesIsKept(out: Outside)
    ensures var r := ExecuteLine(Timed(), Input(false, [Word('G', 94.0), Word('F', 10.0)], out));
            && r.status == Accepted && r.state.modal.units == INCHES && r.state.modal.feedRate == UNITS_PER_MIN
            && r.state.feedRate == 10.0 != 10.0 * MM_PER_INCH
  {
    assert Significand(94.0) == 94 && Mantissa(94.0) == 0;
    var b := Block(map[G5 := 0], map[], NoCommand);
    assert Step(Empty, Word('G', 94.0)) == Success(b);
    assert Step(b, Word('F', 10.0)) == Success(Block(map[G5 := 0], map['F' := 10.0], NoCommand));
    TwoWords(Word('G', 94.0), Word('F', 10.0));
    LeavingInverseTimeChecked(out);
  }

  // ---------------------------------------------------------------------------
  // A move on the line of a G92.1
  // ---------------------------------------------------------------------------

  /** With an offset of one millimeter on the first axis. */
  function Shifted(): State {
    Resting(Origin, Vec(1.0, 0.0, 0.0))
  }

  lemma ResetMoveChecked(out: Outside)
    ensures var b := Block(map[G0 := RESET_COORDINATE_OFFSET], map['X' := 5.0], NoCommand);
            && Check(Shifted(), b, false, out).Success?
            && Check(Shifted(), b, false, out).value.end.xyz == Vec(6.0, 0.0, 0.0)
            && Check(Shifted(), b, false, out).value.end.axisCommand == MotionMode
  {
    var s := Shifted();
    var b := Block(map[G0 := RESET_COORDINATE_OFFSET], map['X' := 5.0], NoCommand);
    var m := ModalOf(s.modal, b, false);
    var p := Progress(MotionMode, {'X'}, Vec(5.0, 0.0, 0.0), Origin, 0.0, 0);
    assert Begin(b, m) == p;
    assert Aimed(s, m, b, Origin, out) == Success(p.(xyz := Vec(6.0, 0.0, 0.0)));
    assert FeedOf(s, m, b, MotionMode, false) == Success(0.0);
    assert Prepared(s, m, b, false, out) == Success(Plan(m, 0.0, 0.0, Origin, p.(xyz := Vec(6.0, 0.0, 0.0))));
    assert Unused(p.(xyz := Vec(6.0, 0.0, 0.0)), false) == {};
  }

  /** `G92.1 X5` with an offset of 1 on that axis ends at 6 in the coordinates it leaves active. */
  lemma ResetMoveOvershoots(out: Outside)
    ensures var r := ExecuteLine(Shifted(), Input(false, [Word('G', 92.1), Word('X', 5.0)], out));
            r.status == Accepted && r.state.coordOffset == Origin && Work(r.state, X) == 6.0
  {
    assert Significand(92.1) == 92 && Mantissa(92.1) == 10;
    var b := Block(map[G0 := RESET_COORDINATE_OFFSET], map[], NoCommand);
    assert Step(Empty, Word('G', 92.1)) == Success(b);
    assert Step(b, Word('X', 5.0)) == Success(Block(map[G0 := RESET_COORDINATE_OFFSET], map['X' := 5.0], NoCommand));
    TwoWords(Word('G', 92.1), Word('X', 5.0));
    ResetMoveChecked(out);
  }

  // ---------------------------------------------------------------------------
  // An arc straight up
  // ---------------------------------------------------------------------------

  /** A parser in clockwise arcs at F100. */
  function Arcing(): State {
    State(Modal(CW_ARC, UNITS_PER_MIN, MM, ABSOLUTE, 0, 5, 9), 0.0, 100.0, 0, 0, Origin, Origin, Origin)
  }

  /** `X0 Z1 R1`. */
  function StraightUp(): Block {
    Block(map[], map['X' := 0.0, 'Z' := 1.0, 'R' := 1.0], NoCommand)
  }

  const UpWords := [Word('X', 0.0), Word('Z', 1.0), Word('R', 1.0)]

  lemma StraightUpImported()
    ensures Import(Empty, UpWords) == Success(StraightUp())
  {
    ThreeWords(Word('X', 0.0), Word('Z', 1.0), Word('R', 1.0));
  }

  lemma StraightUpFits(out: Outside)
    ensures Acceptable(Arcing(), StraightUp(), out)
  {
    var target := AimOf(Arcing(), StraightUp(), Origin);
    assert target.x == 0.0 && target.y == 0.0 && target.z == 1.0;
    assert RadiusFits(Arcing(), target, 1.0);
  }

  lemma StraightUpAccepted(out: Outside)
    ensures ExecuteLine(Arcing(), Input(false, UpWords, out)).status == Accepted
  {
    StraightUpImported();
    StraightUpFits(out);
    AcceptedExactly(Arcing(), Input(false, UpWords, out));
  }

  lemma StraightUpIsArc()
    ensures InMotionMode(Arcing(), UpWords, (2, 0)) && NamesAxis(UpWords) && AxesAreFree(UpWords)
    ensures Word('R', 1.0) in UpWords
  {
    assert UpWords[0] == Word('X', 0.0) && UpWords[2] == Word('R', 1.0);
    forall i, m ensures !Says(UpWords, i, m) {
    }
  }

  lemma StraightUpGoes(out: Outside)
    requires ExecuteLine(Arcing(), Input(false, UpWords, out)).status == Accepted
    ensures var r := ExecuteLine(Arcing(), Input(false, UpWords, out));
            && r.actions != []
            && var a := r.actions[|r.actions| - 1];
            a.Arc? ==> a.target.x == 0.0 && a.target.y == 0.0
  {
    StraightUpImported();
    MotionGoesToAim(Arcing(), Input(false, UpWords, out), StraightUp());
  }

  /** `X0 Z1 R1` in G2 is accepted, and the arc it queues has a centre that is not a number. */
  lemma UpwardArcHasNoCentre(out: Outside)
    requires IsRoot(out, 0.0)
    ensures var r := ExecuteLine(Arcing(), Input(false, UpWords, out));
            && r.status == Accepted && r.actions != []
            && var a := r.actions[|r.actions| - 1];
            a.Arc? && a.centre.x == a.centre.y == out.notANumber
  {
    StraightUpAccepted(out);
    StraightUpIsArc();
    StraightUpGoes(out);
    RadiusArcIsCircle(Arcing(), Input(false, UpWords, out), (2, 0), 1.0);
  }
}
