/**
 What an accepted line makes the machine do, in terms of its words: what kind of motion, dwells, and what is
 stored.
 */
module GcodeActions {
  import opened Axes
  import opened GcodeWords
  import opened Options
  import opened GcodeBlock
  import opened GcodeLines
  import opened GcodeTable

  /**
   The line is in this motion mode: one of its words is the command, or it has no motion command and the parser
   was in that mode before.
   */
  ghost predicate InMotionMode(s: State, words: seq<Token>, c: (int, int))
    requires c in MOTIONS
  {
    Says(words, c.0, c.1) || ((forall d | d in MOTIONS :: !Says(words, d.0, d.1)) && s.modal.motion == MOTIONS[c])
  }

  /** One of the words is for an axis. */
  ghost predicate NamesAxis(words: seq<Token>) {
    exists t :: t in words && t.Word? && t.letter in {'X', 'Y', 'Z'}
  }

  /** No command of the line takes the axis words away from the motion: G10, G28, G30 or G92. */
  ghost predicate AxesAreFree(words: seq<Token>) {
    !Says(words, 10, 0) && !Says(words, 28, 0) && !Says(words, 30, 0) && !Says(words, 92, 0)
  }

  lemma ModeOfLine(s: State, words: seq<Token>, b: Block, c: (int, int))
    requires Import(Empty, words) == Success(b) && c in MOTIONS && InMotionMode(s, words, c)
    ensures ModalOf(s.modal, b, false).motion == MOTIONS[c]
  {
    if Says(words, c.0, c.1) {
      WordSetsMode(words, b, G1, c);
    } else if G1 in b.commands {
      var d := ModeHasWord(words, b, G1);
    }
  }

  lemma AxesOfLine(words: seq<Token>, b: Block)
    requires Import(Empty, words) == Success(b)
    ensures NamesAxis(words) <==> NamesAny(b)
  {
    WordSetsValue(words, b, 'X');
    WordSetsValue(words, b, 'Y');
    WordSetsValue(words, b, 'Z');
    if NamesAxis(words) {
      var t :| t in words && t.Word? && t.letter in {'X', 'Y', 'Z'};
      assert Word(t.letter, t.value) in words;
    }
    if Names(b, X) { assert Word('X', b.values['X']) in words; }
    if Names(b, Y) { assert Word('Y', b.values['Y']) in words; }
    if Names(b, Z) { assert Word('Z', b.values['Z']) in words; }
  }

  lemma FreeOfLine(words: seq<Token>, b: Block)
    requires Import(Empty, words) == Success(b) && AxesAreFree(words)
    ensures NonModalOf(b) !in {10, 28, 30, 92}
  {
    if G0 in b.commands {
      var c := ModeHasWord(words, b, G0);
    }
  }

  /** What the checks have settled for the motion of a line. */
  lemma MotionPlanned(s: State, b: Block, out: Outside)
    requires Coherent(b) && NamesAny(b) && NonModalOf(b) !in {10, 28, 30, 92} && Check(s, b, false, out).Success?
    ensures var plan := Check(s, b, false, out).value;
            plan.modal == ModalOf(s.modal, b, false) && plan.end.axisCommand == MotionMode && plan.modal.motion != NO_MOTION
  {
    CheckedParts(s, b, false, out);
    var m := ModalOf(s.modal, b, false);
    var plan := Check(s, b, false, out).value;
    AimedLeaves(s, m, b, plan.coordSystem, out);
    ClaimStays(s, m, b, Aimed(s, m, b, plan.coordSystem, out).value, plan.feed, out);
  }

  lemma ClaimStays(s: State, m: Modal, b: Block, p: Progress, feed: real, out: Outside)
    requires MotionChecked(s, m, b, p, feed, out).Success? && NamesAny(b)
    ensures m.motion != NO_MOTION && MotionChecked(s, m, b, p, feed, out).value.axisCommand == p.axisCommand
  {
  }

  /** The motion of a planned line is its last action. */
  lemma MotionIsLast(s: State, b: Block, plan: Plan, out: Outside)
    requires plan.end.axisCommand == MotionMode && plan.modal.motion != 80
    ensures var acts := Execute(s, b, plan, false, out).1;
            acts != [] &&
            var x := acts[|acts| - 1];
            && (plan.modal.motion == 0 ==> x == Line(plan.end.xyz, plan.feed, true, plan.modal.feedRate == 1))
            && (plan.modal.motion == 1 ==> x == Line(plan.end.xyz, plan.feed, false, plan.modal.feedRate == 1))
            && (plan.modal.motion == 2 ==> x == Arc(plan.end.xyz, plan.end.ijk, plan.end.r, true, plan.feed, plan.modal.feedRate == 1))
            && (plan.modal.motion == 3 ==> x == Arc(plan.end.xyz, plan.end.ijk, plan.end.r, false, plan.feed, plan.modal.feedRate == 1))
            && (plan.modal.motion in {140, 141, 142, 143} ==> x == Probe(plan.end.xyz, plan.modal.motion, plan.feed))
  {
  }

  /** The action belongs to the motion mode of G`c`. */
  predicate IsMotionOf(x: Action, c: (int, int), feed: real, inverse: bool)
    requires c in MOTIONS
  {
    match x
    case Line(_, f, rapid, inv) => f == feed && inv == inverse && (if rapid then c == (0, 0) else c == (1, 0))
    case Arc(_, _, _, clockwise, f, inv) => f == feed && inv == inverse && (if clockwise then c == (2, 0) else c == (3, 0))
    case Probe(_, mode, f) =>
      && f == feed
      && (match mode
          case 140 => c == (38, 20)
          case 141 => c == (38, 30)
          case 142 => c == (38, 40)
          case 143 => c == (38, 50)
          case _ => false)
    case _ => false
  }

  /** Only an imported line is accepted. */
  lemma {:induction false} RefusedImport(b: Block, words: seq<Token>)
    ensures Import(b, words) != Fail(Accepted)
    decreases |words|
  {
    if words != [] {
      RefusedWord(b, words[0]);
      if Step(b, words[0]).Success? { RefusedImport(Step(b, words[0]).value, words[1..]); }
    }
  }

  lemma RefusedWord(b: Block, t: Token)
    ensures Step(b, t) != Fail(Accepted)
  {
    if t.Word? && t.letter == 'G' {
      RefusedG(b, Significand(t.value), Mantissa(t.value));
    }
  }

  lemma RefusedG(b: Block, i: int, m: int)
    ensures GWord(b, i, m) != Fail(Accepted)
  {
  }

  lemma ExecutedLine(s: State, line: Input, b: Block)
    requires Import(Empty, line.words) == Success(b) && !line.jog && ExecuteLine(s, line).status == Accepted
    ensures Check(s, b, false, line.out).Success?
    ensures var x := Execute(s, b, Check(s, b, false, line.out).value, false, line.out);
            ExecuteLine(s, line) == Outcome(Accepted, x.0, x.1)
  {
  }

  lemma PlannedMotion(s: State, b: Block, plan: Plan, out: Outside, c: (int, int))
    requires plan.end.axisCommand == MotionMode && c in MOTIONS && plan.modal.motion == MOTIONS[c] != 80
    ensures var x := Execute(s, b, plan, false, out);
            x.1 != [] && IsMotionOf(x.1[|x.1| - 1], c, x.0.feedRate, x.0.modal.feedRate == 1)
  {
    MotionIsLast(s, b, plan, out);
    StateIsSettled(s, b, plan, out);
  }

  /**
   An accepted line with axis words that no other command takes makes the motion of its mode, and of no other:
   a rapid in G0 and only there, a feed move in G1, an arc in G2 clockwise and in G3 counterclockwise, a probe
   in G38.2 to G38.5. Its feed is that of the line, and it is in inverse time exactly in G93.
   */
  lemma MotionIsOfItsMode(s: State, line: Input, c: (int, int))
    requires !line.jog && ExecuteLine(s, line).status == Accepted && c in MOTIONS && InMotionMode(s, line.words, c)
    requires NamesAxis(line.words) && AxesAreFree(line.words)
    ensures var r := ExecuteLine(s, line);
            r.actions != [] && IsMotionOf(r.actions[|r.actions| - 1], c, r.state.feedRate, r.state.modal.feedRate == 1)
  {
    RefusedImport(Empty, line.words);
    var b := Import(Empty, line.words).value;
    ImportIsCoherent(Empty, line.words);
    ModeOfLine(s, line.words, b, c);
    AxesOfLine(line.words, b);
    FreeOfLine(line.words, b);
    ExecutedLine(s, line, b);
    MotionPlanned(s, b, line.out);
    PlannedMotion(s, b, Check(s, b, false, line.out).value, line.out, c);
  }

  // ---------------------------------------------------------------------------
  // The actions before the motion
  // ---------------------------------------------------------------------------

  /** The motion of a line, if it makes one: it does so with axis words that are its own, and never otherwise. */
  lemma MovesExactly(s: State, words: seq<Token>, b: Block, out: Outside)
    requires Import(Empty, words) == Success(b) && Check(s, b, false, out).Success?
    ensures var plan := Check(s, b, false, out).value;
            plan.end.axisCommand == MotionMode && plan.modal.motion != 80 <==> NamesAny(b) && NonModalOf(b) !in {10, 28, 30, 92}
  {
    ImportIsCoherent(Empty, words);
    CheckedParts(s, b, false, out);
    var m := ModalOf(s.modal, b, false);
    var plan := Check(s, b, false, out).value;
    var p := Aimed(s, m, b, plan.coordSystem, out).value;
    AimedLeaves(s, m, b, plan.coordSystem, out);
    if NamesAny(b) {
      ClaimStays(s, m, b, p, plan.feed, out);
    } else if p.axisCommand == MotionMode {
      var c := ModeHasWord(words, b, G1);
      ClaimIsDropped(s, m, b, p, plan.feed, out);
    }
  }

  lemma ClaimIsDropped(s: State, m: Modal, b: Block, p: Progress, feed: real, out: Outside)
    requires MotionChecked(s, m, b, p, feed, out).Success? && !NamesAny(b) && p.axisCommand == MotionMode
    requires m.motion in {0, 1, 2, 3, 140, 141, 142, 143}
    ensures MotionChecked(s, m, b, p, feed, out).value.axisCommand == NoCommand
  {
  }

  /** What comes before the motion: a dwell, a store, or the moves of G28 and G30. */
  lemma FirstActions(s: State, b: Block, plan: Plan, out: Outside)
    ensures var first := NonModalDone(Settled(s, b, plan), b, plan).1;
            var code := NonModalOf(b);
            && (code == 4 ==> first == [Dwell(Value(b, 'P'))])
            && (code == 10 ==> first == [Store(plan.end.coordSelect, plan.end.ijk)])
            && (code == 38 ==> first == [Store(6, s.position)])
            && (code == 40 ==> first == [Store(7, s.position)])
            && (code in {28, 30} ==>
                  first == (if plan.end.axisCommand != NoCommand then [Line(plan.end.xyz, plan.feed, true, plan.modal.feedRate == 1)] else [])
                           + [Line(plan.end.ijk, plan.feed, true, plan.modal.feedRate == 1)])
            && (code !in {4, 10, 28, 30, 38, 40} ==> first == [])
    ensures Execute(s, b, plan, false, out).1 ==
              NonModalDone(Settled(s, b, plan), b, plan).1
              + MotionDone(NonModalDone(Settled(s, b, plan), b, plan).0, plan, out).1
    ensures |MotionDone(NonModalDone(Settled(s, b, plan), b, plan).0, plan, out).1| ==
              if plan.end.axisCommand == MotionMode && plan.modal.motion != 80 then 1 else 0
  {
  }

  /** G4 waits for as many seconds as its P word says. */
  lemma WaitsForP(s: State, line: Input)
    requires !line.jog && ExecuteLine(s, line).status == Accepted && Says(line.words, 4, 0)
    ensures exists p :: Word('P', p) in line.words
    ensures forall p | Word('P', p) in line.words ::
              ExecuteLine(s, line).actions != [] && ExecuteLine(s, line).actions[0] == Dwell(p)
  {
    RefusedImport(Empty, line.words);
    var b := Import(Empty, line.words).value;
    ExecutedLine(s, line, b);
    WordSetsValue(line.words, b, 'P');
    WordSetsMode(line.words, b, G0, (4, 0));
    DwellNeedsP(s, b, line.out);
    FirstActions(s, b, Check(s, b, false, line.out).value, line.out);
    assert Word('P', b.values['P']) in line.words;
  }

  /** G28.1 stores where the parser stands in slot 6, and G30.1 in slot 7. */
  lemma StoresPosition(s: State, line: Input, home: int)
    requires !line.jog && ExecuteLine(s, line).status == Accepted && home in {28, 30} && Says(line.words, home, 10)
    ensures ExecuteLine(s, line).actions != [] &&
            ExecuteLine(s, line).actions[0] == Store(if home == 28 then 6 else 7, s.position)
  {
    RefusedImport(Empty, line.words);
    var b := Import(Empty, line.words).value;
    ExecutedLine(s, line, b);
    WordSetsMode(line.words, b, G0, (home, 10));
    FirstActions(s, b, Check(s, b, false, line.out).value, line.out);
  }

  lemma DwellNeedsP(s: State, b: Block, out: Outside)
    requires NonModalOf(b) == 4 && Check(s, b, false, out).Success?
    ensures 'P' in b.values
  {
  }

  /** How many actions a line has: one for each of dwell, store and motion; G28 and G30 have one move, or two with axis words. */
  lemma ActionsAreCounted(s: State, line: Input, b: Block)
    requires Import(Empty, line.words) == Success(b) && !line.jog && ExecuteLine(s, line).status == Accepted
    ensures |ExecuteLine(s, line).actions| ==
              (if NonModalOf(b) in {4, 10, 38, 40} then 1 else if NonModalOf(b) in {28, 30} then if NamesAny(b) then 2 else 1 else 0)
              + (if NamesAny(b) && NonModalOf(b) !in {10, 28, 30, 92} then 1 else 0)
  {
    ImportIsCoherent(Empty, line.words);
    ExecutedLine(s, line, b);
    var plan := Check(s, b, false, line.out).value;
    FirstActions(s, b, plan, line.out);
    MovesExactly(s, line.words, b, line.out);
    if NonModalOf(b) in {28, 30} { HomeClaim(s, b, line.out); }
  }

  lemma HomeClaim(s: State, b: Block, out: Outside)
    requires Coherent(b) && NonModalOf(b) in {28, 30} && Check(s, b, false, out).Success?
    ensures Check(s, b, false, out).value.end.axisCommand == if NamesAny(b) then NonModal else NoCommand
  {
    CheckedParts(s, b, false, out);
    var m := ModalOf(s.modal, b, false);
    var plan := Check(s, b, false, out).value;
    HomeAims(s, m, b, plan.coordSystem, out);
    Untaken(s, m, b, Aimed(s, m, b, plan.coordSystem, out).value, plan.feed, out);
  }

  lemma HomeAims(s: State, m: Modal, b: Block, cs: Point, out: Outside)
    requires Coherent(b) && NonModalOf(b) in {28, 30} && Aimed(s, m, b, cs, out).Success?
    ensures var p := Aimed(s, m, b, cs, out).value;
            && p.axisCommand == (if NamesAny(b) then NonModal else NoCommand)
            && (forall a | NamesAny(b) :: p.xyz.At(a) == TargetAt(s, m, b, Begin(b, m), cs, a))
  {
  }
}
