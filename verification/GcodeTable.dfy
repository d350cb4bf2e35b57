/**
 What the words of a line stand for, in plain numbers: the codes of the commands, and the state of the
 parser after an accepted line.
 */
module GcodeTable {
  import opened Axes
  import opened GcodeWords
  import opened Options
  import opened GcodeBlock
  import opened GcodeLines

  // ---------------------------------------------------------------------------
  // From words to the block
  // ---------------------------------------------------------------------------

  /** One of the words is this G command, whole number and hundredths. */
  ghost predicate Says(words: seq<Token>, i: int, m: int) {
    exists t :: t in words && IsG(t, i, m)
  }

  predicate IsG(t: Token, i: int, m: int) {
    t.Word? && t.letter == 'G' && Significand(t.value) == i && Mantissa(t.value) == m
  }

  /** The motion commands and the codes of their modes: G0 to G3, G38.2 to G38.5, G80. */
  const MOTIONS: map<(int, int), int> :=
    map[(0, 0) := 0, (1, 0) := 1, (2, 0) := 2, (3, 0) := 3,
        (38, 20) := 140, (38, 30) := 141, (38, 40) := 142, (38, 50) := 143, (80, 0) := 80]

  /** The commands that are no modes, and their codes. */
  const NON_MODALS: map<(int, int), int> :=
    map[(4, 0) := 4, (10, 0) := 10, (28, 0) := 28, (28, 10) := 38, (30, 0) := 30, (30, 10) := 40,
        (53, 0) := 53, (92, 0) := 92, (92, 10) := 102]

  const DISTANCES: map<(int, int), int> := map[(90, 0) := 0, (91, 0) := 1]
  const FEED_MODES: map<(int, int), int> := map[(93, 0) := 1, (94, 0) := 0]
  const UNITS: map<(int, int), int> := map[(20, 0) := 1, (21, 0) := 0]
  const SYSTEMS: map<(int, int), int> :=
    map[(54, 0) := 0, (55, 0) := 1, (56, 0) := 2, (57, 0) := 3, (58, 0) := 4, (59, 0) := 5]

  /** The table of a group. */
  function TableOf(g: Group): map<(int, int), int> {
    match g
    case G0 => NON_MODALS
    case G1 => MOTIONS
    case G3 => DISTANCES
    case G5 => FEED_MODES
    case G6 => UNITS
    case G12 => SYSTEMS
    case _ => map[]
  }

  lemma MotionCodes(c: (int, int))
    ensures GGroup(c) == Some(G1) <==> c in MOTIONS
    ensures c in MOTIONS ==> GCommand(c.0, c.1) == Success(Command(G1, MOTIONS[c]))
  {
  }

  lemma NonModalCodes(c: (int, int))
    ensures GGroup(c) == Some(G0) <==> c in NON_MODALS
    ensures c in NON_MODALS ==> GCommand(c.0, c.1) == Success(Command(G0, NON_MODALS[c]))
  {
  }

  lemma SystemCodes(c: (int, int))
    ensures GGroup(c) == Some(G12) <==> c in SYSTEMS
    ensures c in SYSTEMS ==> GCommand(c.0, c.1) == Success(Command(G12, SYSTEMS[c]))
  {
  }

  lemma ModeCodes(c: (int, int))
    ensures GGroup(c) == Some(G3) <==> c in DISTANCES
    ensures c in DISTANCES ==> GCommand(c.0, c.1) == Success(Command(G3, DISTANCES[c]))
    ensures GGroup(c) == Some(G5) <==> c in FEED_MODES
    ensures c in FEED_MODES ==> GCommand(c.0, c.1) == Success(Command(G5, FEED_MODES[c]))
    ensures GGroup(c) == Some(G6) <==> c in UNITS
    ensures c in UNITS ==> GCommand(c.0, c.1) == Success(Command(G6, UNITS[c]))
  {
  }

  lemma CodeTable(g: Group, c: (int, int))
    requires g in {G0, G1, G3, G5, G6, G12}
    ensures GGroup(c) == Some(g) <==> c in TableOf(g)
    ensures c in TableOf(g) ==> GCommand(c.0, c.1) == Success(Command(g, TableOf(g)[c]))
  {
    MotionCodes(c);
    NonModalCodes(c);
    SystemCodes(c);
    ModeCodes(c);
  }

  predicate Tabled(g: Group) {
    g in {G0, G1, G3, G5, G6, G12}
  }

  lemma HeldWords(words: seq<Token>, b: Block)
    requires Import(Empty, words) == Success(b)
    ensures Holds(b, multiset(words))
  {
    ImportExactly(words);
  }

  /** A command on the line sets its mode to the code of the table. */
  lemma WordSetsMode(words: seq<Token>, b: Block, g: Group, c: (int, int))
    requires Import(Empty, words) == Success(b) && Tabled(g) && c in TableOf(g) && Says(words, c.0, c.1)
    ensures g in b.commands && b.commands[g] == TableOf(g)[c]
  {
    HeldWords(words, b);
    var t :| t in words && IsG(t, c.0, c.1);
    assert t in multiset(words) && Has(b, t);
    CodeTable(g, c);
  }

  lemma SlotIsG(t: Token, g: Group)
    requires Tabled(g) && SlotOf(t) == Some(CommandSlot(g))
    ensures t.Word? && t.letter == 'G' && (Significand(t.value), Mantissa(t.value)) in TableOf(g)
    ensures CodeOf(t) == TableOf(g)[(Significand(t.value), Mantissa(t.value))]
  {
    CodeTable(g, (Significand(t.value), Mantissa(t.value)));
  }

  /** A mode is set only by a command on the line. */
  lemma ModeHasWord(words: seq<Token>, b: Block, g: Group) returns (c: (int, int))
    requires Import(Empty, words) == Success(b) && Tabled(g) && g in b.commands
    ensures c in TableOf(g) && Says(words, c.0, c.1) && b.commands[g] == TableOf(g)[c]
  {
    HeldWords(words, b);
    assert Occupied(b, CommandSlot(g));
    var t :| t in multiset(words) && SlotOf(t) == Some(CommandSlot(g));
    assert Has(b, t);
    SlotIsG(t, g);
    c := (Significand(t.value), Mantissa(t.value));
    assert t in words && IsG(t, c.0, c.1);
  }

  /** The value of a letter is that of its word. */
  lemma WordSetsValue(words: seq<Token>, b: Block, letter: char)
    requires Import(Empty, words) == Success(b) && letter != 'G' && letter != 'M'
    ensures forall v | Word(letter, v) in words :: letter in b.values && b.values[letter] == v
    ensures letter in b.values ==> Word(letter, b.values[letter]) in words
    ensures letter in b.values && letter in {'F', 'N', 'P', 'S', 'T'} ==> b.values[letter] >= 0.0
    ensures letter in b.values && letter == 'T' ==> b.values[letter] <= 255.0
  {
    HeldWords(words, b);
    forall v | Word(letter, v) in words ensures letter in b.values && b.values[letter] == v {
      assert Word(letter, v) in multiset(words) && Has(b, Word(letter, v));
    }
    if letter in b.values {
      assert Occupied(b, ValueSlot(letter));
      var t :| t in multiset(words) && SlotOf(t) == Some(ValueSlot(letter));
      assert Has(b, t);
    }
  }

  /** The M commands: program flow, spindle and coolant, each with its number for its code. */
  lemma MCodeTable(i: int, m: int)
    requires m >= 0
    ensures MCommand(i, m).Success? <==> m == 0 && i in {0, 1, 2, 3, 4, 5, 8, 9, 30}
    ensures MCommand(i, m).Success? ==>
              MCommand(i, m).value == Command(if i in {3, 4, 5} then M7 else if i in {8, 9} then M8 else M4, i)
  {
  }

  /** An M command on the line sets the mode of its group. */
  lemma MWordSetsMode(words: seq<Token>, b: Block, v: real)
    requires Import(Empty, words) == Success(b) && Word('M', v) in words
    ensures Mantissa(v) == 0 && Significand(v) in {0, 1, 2, 3, 4, 5, 8, 9, 30}
    ensures var i := Significand(v);
            var g := if i in {3, 4, 5} then M7 else if i in {8, 9} then M8 else M4;
            g in b.commands && b.commands[g] == i
  {
    HeldWords(words, b);
    assert Word('M', v) in multiset(words) && Has(b, Word('M', v));
    MCodeTable(Significand(v), Mantissa(v));
  }

  /** The letters that a word may have; a number of zero is within the limits of each. */
  lemma LetterTable(letter: char, v: real)
    ensures letter in {'F', 'I', 'J', 'K', 'L', 'N', 'P', 'R', 'S', 'T', 'X', 'Y', 'Z'} ==>
              Step(Empty, Word(letter, 0.0)) == Success(Empty.(values := map[letter := 0.0]))
    ensures letter !in {'F', 'G', 'I', 'J', 'K', 'L', 'M', 'N', 'P', 'R', 'S', 'T', 'X', 'Y', 'Z'} ==>
              Step(Empty, Word(letter, v)) == Fail(UnsupportedCommand)
  {
  }

  /** The whole part of a number is read modulo 256, and what is left of it to the nearest hundredth. */
  lemma NearestHundredth(v: real)
    requires 0.0 <= v
    ensures Significand(v) == v.Floor % 256
    ensures v < 256.0 ==> -0.5 <= 100.0 * (v - v.Floor as real) - Mantissa(v) as real < 0.5
  {
  }

  /** The number of a command is read to the hundredth. */
  lemma NumbersInHundredths(i: int, m: int)
    requires 0 <= i < 256 && 0 <= m < 100
    ensures var v := i as real + m as real / 100.0; Significand(v) == i && Mantissa(v) == m
  {
    var v := i as real + m as real / 100.0;
    assert 0.0 <= m as real / 100.0 < 1.0;
    assert v.Floor == i;
    assert 100.0 * (v - i as real) == m as real;
  }

  // ---------------------------------------------------------------------------
  // From the block to the state
  // ---------------------------------------------------------------------------

  /** The mode of a group after the line: that of its command, or the one before. */
  function After(b: Block, g: Group, before: int): int {
    if g in b.commands then b.commands[g] else before
  }

  /** Every mode outlasts the line that sets it. */
  lemma ModesAfter(s: State, line: Input, b: Block)
    requires Import(Empty, line.words) == Success(b) && !line.jog && ExecuteLine(s, line).status == Accepted
    ensures ExecuteLine(s, line).state.modal ==
              Modal(After(b, G1, s.modal.motion), After(b, G5, s.modal.feedRate), After(b, G6, s.modal.units),
                    After(b, G3, s.modal.distance), After(b, G12, s.modal.coordSelect),
                    After(b, M7, s.modal.spindle), After(b, M8, s.modal.coolant))
  {
    CheckedParts(s, b, false, line.out);
    StateIsSettled(s, b, Check(s, b, false, line.out).value, line.out);
  }

  /** What the actions of a line leave of the state: everything but position, coordinate system and offset. */
  lemma StateIsSettled(s: State, b: Block, plan: Plan, out: Outside)
    ensures var t := Execute(s, b, plan, false, out).0;
            var u := Settled(s, b, plan);
            t == u.(position := t.position, coordSystem := t.coordSystem, coordOffset := t.coordOffset)
  {
  }

  /** The feed rate of a line, in millimeters per minute or, in inverse time mode, per minute. */
  lemma FeedAfter(s: State, line: Input, b: Block)
    requires Import(Empty, line.words) == Success(b) && !line.jog && ExecuteLine(s, line).status == Accepted
    ensures var t := ExecuteLine(s, line).state;
            var f := if 'F' in b.values then b.values['F'] else 0.0;
            t.feedRate ==
              if t.modal.feedRate == 1 || s.modal.feedRate != 0 then f
              else if 'F' !in b.values then s.feedRate
              else if t.modal.units == 1 then f * 25.4 else f
  {
    ModesAfter(s, line, b);
    FeedOfLine(s, b, line.out);
  }

  lemma FeedOfLine(s: State, b: Block, out: Outside)
    requires Check(s, b, false, out).Success?
    ensures var plan := Check(s, b, false, out).value;
            var f := if 'F' in b.values then b.values['F'] else 0.0;
            && Execute(s, b, plan, false, out).0.feedRate == plan.feed
            && plan.feed ==
                 if plan.modal.feedRate == 1 || s.modal.feedRate != 0 then f
                 else if 'F' !in b.values then s.feedRate
                 else if plan.modal.units == 1 then f * 25.4 else f
  {
    CheckedParts(s, b, false, out);
    StateIsSettled(s, b, Check(s, b, false, out).value, out);
  }

  lemma TruncOfNat(v: real)
    requires v >= 0.0
    ensures Trunc(v) == v.Floor >= 0
    ensures v <= 255.0 ==> Significand(v) == v.Floor
  {
  }

  /** Spindle speed, tool and line number: the speed is kept, tool and line number are zero without their words. */
  lemma NumbersAfter(s: State, line: Input, b: Block)
    requires Import(Empty, line.words) == Success(b) && !line.jog && ExecuteLine(s, line).status == Accepted
    ensures var t := ExecuteLine(s, line).state;
            && t.spindleSpeed == (if 'S' in b.values then b.values['S'] else s.spindleSpeed)
            && t.tool == (if 'T' in b.values then b.values['T'].Floor else 0)
            && t.lineNumber == (if 'N' in b.values then b.values['N'].Floor else 0)
            && 0 <= t.lineNumber <= 10000000
  {
    CheckedParts(s, b, false, line.out);
    StateIsSettled(s, b, Check(s, b, false, line.out).value, line.out);
    WordSetsValue(line.words, b, 'T');
    WordSetsValue(line.words, b, 'N');
    TruncOfNat(Value(b, 'T'));
    TruncOfNat(Value(b, 'N'));
  }

  /** The coordinate system and the offset after a line that is no G10. */
  lemma SystemsAfter(s: State, line: Input, b: Block)
    requires Import(Empty, line.words) == Success(b) && !line.jog && ExecuteLine(s, line).status == Accepted
    requires After(b, G0, 0) != 10
    ensures var t := ExecuteLine(s, line).state;
            && (t.modal.coordSelect == s.modal.coordSelect ==> t.coordSystem == s.coordSystem)
            && (t.modal.coordSelect != s.modal.coordSelect ==>
                  line.out.stored(t.modal.coordSelect) == Some(t.coordSystem))
            && (After(b, G0, 0) == 102 ==> t.coordOffset == Vec(0.0, 0.0, 0.0))
            && (After(b, G0, 0) !in {92, 102} ==> t.coordOffset == s.coordOffset)
  {
    CheckedParts(s, b, false, line.out);
    ModesAfter(s, line, b);
    ImportIsCoherent(Empty, line.words);
    OtherSystems(s, b, Check(s, b, false, line.out).value, line.out);
  }

  lemma OtherSystems(s: State, b: Block, plan: Plan, out: Outside)
    requires NonModalOf(b) != SET_COORDINATE_DATA
    ensures var t := Execute(s, b, plan, false, out).0;
            var u := Settled(s, b, plan);
            && t.coordSystem == u.coordSystem
            && (NonModalOf(b) == 102 ==> t.coordOffset == Vec(0.0, 0.0, 0.0))
            && (NonModalOf(b) !in {92, 102} ==> t.coordOffset == s.coordOffset)
  {
  }
}
