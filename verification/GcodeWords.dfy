/**
 The words of a g-code line: what each letter and number stands for, and the first pass of the
 parser, which imports them one after the other.
 */
module GcodeWords {
  import opened Options

  /** The status codes that a line can be answered with. */
  datatype Status =
    | Accepted
    | ExpectedCommandLetter
    | BadNumberFormat
    | NegativeValue
    | SettingReadFail
    | TravelExceeded
    | InvalidJogCommand
    | UnsupportedCommand
    | ModalGroupViolation
    | UndefinedFeedRate
    | CommandValueNotInteger
    | AxisCommandConflict
    | WordRepeated
    | NoAxisWords
    | InvalidLineNumber
    | ValueWordMissing
    | UnsupportedCoordSys
    | InvalidMotionModeForG53
    | AxisWordsExist
    | NoAxisWordsInPlane
    | InvalidTarget
    | ArcRadiusError
    | NoOffsetsInPlane
    | UnusedWords
    | MaxValueExceeded

  datatype Result<T> = Success(value: T) | Fail(status: Status)

  /** What the scanner finds next on a line: a letter with its number, or one of its two errors. */
  datatype Token = Word(letter: char, value: real) | NoLetter | NoNumber

  /** The modal groups, as numbered by the standard. */
  datatype Group = G0 | G1 | G2 | G3 | G4 | G5 | G6 | G7 | G12 | G13 | M4 | M7 | M8

  /** Who takes the axis words of the line. */
  datatype AxisCommand = NoCommand | NonModal | MotionMode

  /** Everything the first pass stores: the command of each group it met, and the value of each letter. */
  datatype Block = Block(commands: map<Group, int>, values: map<char, real>, axisCommand: AxisCommand)

  const Empty := Block(map[], map[], NoCommand)

  const MAX_TOOL_NUMBER := 255.0

  // ---------------------------------------------------------------------------
  // Numbers
  // ---------------------------------------------------------------------------

  function Trunc(v: real): int {
    if v >= 0.0 then v.Floor else -((-v).Floor)
  }

  function Round(v: real): int {
    if v >= 0.0 then (v + 0.5).Floor else -((0.5 - v).Floor)
  }

  /** int_value: the whole part in a byte. */
  function Significand(v: real): int {
    Trunc(v) % 256
  }

  /** mantissa: the hundredths left over, in an unsigned 16-bit integer. */
  function Mantissa(v: real): int {
    Round(100.0 * (v - Significand(v) as real)) % 0x1_0000
  }

  // ---------------------------------------------------------------------------
  // One word
  // ---------------------------------------------------------------------------

  datatype Command = Command(group: Group, code: int)

  function AxisUse(i: int, m: int): AxisCommand {
    if i in {10, 28, 30, 92} && m == 0 then NonModal
    else if i in {0, 1, 2, 3, 38} then MotionMode
    else NoCommand
  }

  function Whole(m: int, c: Command): Result<Command> {
    if m > 0 then Fail(CommandValueNotInteger) else Success(c)
  }

  /** The switch over G commands, without the check for axis conflicts. */
  function GCommand(i: int, m: int): Result<Command> {
    if i in {28, 30, 92} then
      if m == 0 || m == 10 then Success(Command(G0, i + m)) else Fail(UnsupportedCommand)
    else if i in {4, 10, 53} then Whole(m, Command(G0, i))
    else if i == 38 then
      if m in {20, 30, 40, 50} then Success(Command(G1, i + m / 10 + 100)) else Fail(UnsupportedCommand)
    else if i in {0, 1, 2, 3, 80} then Whole(m, Command(G1, i))
    else if i in {17, 18, 19} then Whole(m, Command(G2, 0))
    else if i in {90, 91} then
      if m == 0 then Success(Command(G3, i - 90))
      else if m != 10 || i == 90 then Fail(UnsupportedCommand)
      else Success(Command(G4, 0))
    else if i in {93, 94} then Whole(m, Command(G5, 94 - i))
    else if i in {20, 21} then Whole(m, Command(G6, 21 - i))
    else if i == 40 then Whole(m, Command(G7, 0))
    else if i in {54, 55, 56, 57, 58, 59} then Whole(m, Command(G12, i - 54))
    else if i == 61 then
      if m != 0 then Fail(UnsupportedCommand) else Success(Command(G13, 0))
    else Fail(UnsupportedCommand)
  }

  function MCommand(i: int, m: int): Result<Command> {
    if m > 0 then Fail(CommandValueNotInteger)
    else if i in {0, 1, 2, 30} then Success(Command(M4, i))
    else if i in {3, 4, 5} then Success(Command(M7, i))
    else if i in {8, 9} then Success(Command(M8, i))
    else Fail(UnsupportedCommand)
  }

  function Enter(b: Block, c: Command): Result<Block> {
    if c.group in b.commands then Fail(ModalGroupViolation)
    else Success(b.(commands := b.commands[c.group := c.code]))
  }

  function GWord(b: Block, i: int, m: int): Result<Block> {
    var use := AxisUse(i, m);
    if use != NoCommand && b.axisCommand != NoCommand then Fail(AxisCommandConflict)
    else
      match GCommand(i, m)
      case Fail(status) => Fail(status)
      case Success(c) => Enter(if use == NoCommand then b else b.(axisCommand := use), c)
  }

  function MWord(b: Block, i: int, m: int): Result<Block> {
    match MCommand(i, m)
    case Fail(status) => Fail(status)
    case Success(c) => Enter(b, c)
  }

  predicate ValueLetter(letter: char) {
    letter in {'F', 'I', 'J', 'K', 'L', 'N', 'P', 'R', 'S', 'T', 'X', 'Y', 'Z'}
  }

  function ValueWord(b: Block, letter: char, v: real): Result<Block> {
    if !ValueLetter(letter) then Fail(UnsupportedCommand)
    else if letter == 'T' && v > MAX_TOOL_NUMBER then Fail(MaxValueExceeded)
    else if letter in b.values then Fail(WordRepeated)
    else if letter in {'F', 'N', 'P', 'T', 'S'} && v < 0.0 then Fail(NegativeValue)
    else Success(b.(values := b.values[letter := v]))
  }

  /** One turn of the import loop. */
  function Step(b: Block, t: Token): Result<Block> {
    match t
    case NoLetter => Fail(ExpectedCommandLetter)
    case NoNumber => Fail(BadNumberFormat)
    case Word(letter, v) =>
      if letter == 'G' then GWord(b, Significand(v), Mantissa(v))
      else if letter == 'M' then MWord(b, Significand(v), Mantissa(v))
      else ValueWord(b, letter, v)
  }

  function Import(b: Block, line: seq<Token>): Result<Block>
    decreases |line|
  {
    if line == [] then Success(b)
    else
      match Step(b, line[0])
      case Fail(status) => Fail(status)
      case Success(next) => Import(next, line[1..])
  }

  // ---------------------------------------------------------------------------
  // The same, as a table of what may stand on a line together
  // ---------------------------------------------------------------------------

  /** The commands of each modal group, whole number and hundredths. */
  const NON_MODAL_COMMANDS := {(4, 0), (10, 0), (28, 0), (28, 10), (30, 0), (30, 10), (53, 0), (92, 0), (92, 10)}
  const MOTION_COMMANDS := {(0, 0), (1, 0), (2, 0), (3, 0), (38, 20), (38, 30), (38, 40), (38, 50), (80, 0)}
  const PLANE_COMMANDS := {(17, 0), (18, 0), (19, 0)}
  const DISTANCE_COMMANDS := {(90, 0), (91, 0)}
  const ARC_DISTANCE_COMMANDS := {(91, 10)}
  const FEED_RATE_COMMANDS := {(93, 0), (94, 0)}
  const UNITS_COMMANDS := {(20, 0), (21, 0)}
  const CUTTER_COMMANDS := {(40, 0)}
  const COORDINATE_COMMANDS := {(54, 0), (55, 0), (56, 0), (57, 0), (58, 0), (59, 0)}
  const CONTROL_COMMANDS := {(61, 0)}

  function GGroup(c: (int, int)): Option<Group> {
    if c in NON_MODAL_COMMANDS then Some(G0)
    else if c in MOTION_COMMANDS then Some(G1)
    else if c in PLANE_COMMANDS then Some(G2)
    else if c in DISTANCE_COMMANDS then Some(G3)
    else if c in ARC_DISTANCE_COMMANDS then Some(G4)
    else if c in FEED_RATE_COMMANDS then Some(G5)
    else if c in UNITS_COMMANDS then Some(G6)
    else if c in CUTTER_COMMANDS then Some(G7)
    else if c in COORDINATE_COMMANDS then Some(G12)
    else if c in CONTROL_COMMANDS then Some(G13)
    else None
  }

  function MGroup(c: (int, int)): Option<Group> {
    if c in {(0, 0), (1, 0), (2, 0), (30, 0)} then Some(M4)
    else if c in {(3, 0), (4, 0), (5, 0)} then Some(M7)
    else if c in {(8, 0), (9, 0)} then Some(M8)
    else None
  }

  /** What a word occupies: the slot of its modal group or of its letter. */
  datatype Slot = CommandSlot(group: Group) | ValueSlot(letter: char)

  function SlotOfGroup(g: Option<Group>): Option<Slot> {
    if g.Some? then Some(CommandSlot(g.value)) else None
  }

  /** No slot: the word is not legal, whatever else is on the line. */
  function SlotOf(t: Token): Option<Slot> {
    if !t.Word? then None
    else if t.letter == 'G' then SlotOfGroup(GGroup((Significand(t.value), Mantissa(t.value))))
    else if t.letter == 'M' then SlotOfGroup(MGroup((Significand(t.value), Mantissa(t.value))))
    else if !ValueLetter(t.letter) then None
    else if t.letter in {'F', 'N', 'P', 'S', 'T'} && t.value < 0.0 then None
    else if t.letter == 'T' && t.value > MAX_TOOL_NUMBER then None
    else Some(ValueSlot(t.letter))
  }

  /** Words that take the axis words of their line. */
  function Claim(t: Token): AxisCommand {
    if t.Word? && t.letter == 'G' then AxisUse(Significand(t.value), Mantissa(t.value)) else NoCommand
  }

  /** Two words that cannot stand on one line. */
  predicate Clash(t: Token, u: Token) {
    SlotOf(t) == SlotOf(u) || (Claim(t) != NoCommand && Claim(u) != NoCommand)
  }

  /** Every word is legal, none stands there twice, and no two clash. */
  ghost predicate WellFormed(words: multiset<Token>) {
    && (forall t | t in words :: SlotOf(t).Some? && words[t] == 1)
    && (forall t, u | t in words && u in words && t != u :: !Clash(t, u))
  }

  /** The code a word stores in its slot. */
  function CodeOf(t: Token): int
    requires SlotOf(t).Some? && SlotOf(t).value.CommandSlot?
  {
    var c := if t.letter == 'G' then GCommand(Significand(t.value), Mantissa(t.value))
             else MCommand(Significand(t.value), Mantissa(t.value));
    if c.Success? then c.value.code else 0
  }

  /** `b` has the word `t`. */
  predicate Has(b: Block, t: Token) {
    SlotOf(t).Some? &&
    match SlotOf(t).value
    case CommandSlot(g) => g in b.commands && b.commands[g] == CodeOf(t)
    case ValueSlot(letter) => letter in b.values && b.values[letter] == t.value
  }

  predicate Occupied(b: Block, s: Slot) {
    match s
    case CommandSlot(g) => g in b.commands
    case ValueSlot(letter) => letter in b.values
  }

  ghost predicate Filled(b: Block, words: multiset<Token>) {
    forall s | Occupied(b, s) :: exists t | t in words :: SlotOf(t) == Some(s)
  }

  ghost predicate Claims(c: AxisCommand, words: multiset<Token>) {
    && (forall t | t in words && Claim(t) != NoCommand :: c == Claim(t))
    && (c != NoCommand ==> exists t | t in words :: Claim(t) == c)
  }

  /** `b` holds these words and nothing else. */
  ghost predicate Holds(b: Block, words: multiset<Token>) {
    && (forall t | t in words :: Has(b, t))
    && Filled(b, words)
    && Claims(b.axisCommand, words)
  }

  /** The table has a group for the command exactly if the switch accepts it, and the same one. */
  predicate Agree(r: Result<Command>, g: Option<Group>) {
    (r.Success? <==> g.Some?) && (r.Success? ==> r.value.group == g.value)
  }

  lemma NonModalIsTable(i: int, m: int)
    requires m >= 0 && i in {4, 10, 28, 30, 53, 92}
    ensures Agree(GCommand(i, m), GGroup((i, m)))
  {
  }

  lemma MotionIsTable(i: int, m: int)
    requires m >= 0 && i in {0, 1, 2, 3, 38, 80}
    ensures Agree(GCommand(i, m), GGroup((i, m)))
  {
  }

  lemma CoordinatesAreTable(i: int, m: int)
    requires m >= 0 && i in {54, 55, 56, 57, 58, 59}
    ensures Agree(GCommand(i, m), GGroup((i, m)))
  {
  }

  lemma ModesAreTable(i: int, m: int)
    requires m >= 0 && i !in {4, 10, 28, 30, 53, 92} && i !in {0, 1, 2, 3, 38, 80} && i !in {54, 55, 56, 57, 58, 59}
    ensures Agree(GCommand(i, m), GGroup((i, m)))
  {
  }

  /** The switch over G commands accepts exactly the table. */
  lemma GCommandIsTable(i: int, m: int)
    requires m >= 0
    ensures Agree(GCommand(i, m), GGroup((i, m)))
  {
    if i in {4, 10, 28, 30, 53, 92} {
      NonModalIsTable(i, m);
    } else if i in {0, 1, 2, 3, 38, 80} {
      MotionIsTable(i, m);
    } else if i in {54, 55, 56, 57, 58, 59} {
      CoordinatesAreTable(i, m);
    } else {
      ModesAreTable(i, m);
    }
  }

  lemma MCommandIsTable(i: int, m: int)
    requires m >= 0
    ensures Agree(MCommand(i, m), MGroup((i, m)))
  {
  }

  /** `b` with one more word. */
  function Put(b: Block, t: Token): Block
    requires SlotOf(t).Some?
  {
    var c := if Claim(t) == NoCommand then b else b.(axisCommand := Claim(t));
    match SlotOf(t).value
    case CommandSlot(g) => c.(commands := c.commands[g := CodeOf(t)])
    case ValueSlot(letter) => c.(values := c.values[letter := t.value])
  }

  /** A turn of the loop succeeds exactly when the word is legal, its slot free and its claim unopposed. */
  lemma StepExactly(b: Block, t: Token)
    ensures Step(b, t).Success? <==>
              SlotOf(t).Some? && !Occupied(b, SlotOf(t).value) && (Claim(t) == NoCommand || b.axisCommand == NoCommand)
    ensures Step(b, t).Success? ==> Step(b, t).value == Put(b, t)
  {
    if t.Word? {
      GCommandIsTable(Significand(t.value), Mantissa(t.value));
      MCommandIsTable(Significand(t.value), Mantissa(t.value));
    }
  }

  lemma PutClaims(b: Block, words: multiset<Token>, t: Token)
    requires Claims(b.axisCommand, words) && SlotOf(t).Some?
    requires Claim(t) == NoCommand || b.axisCommand == NoCommand
    ensures Claims(Put(b, t).axisCommand, words + multiset{t})
  {
    assert t in words + multiset{t};
    if b.axisCommand != NoCommand {
      var u :| u in words && Claim(u) == b.axisCommand;
      assert u in words + multiset{t};
    }
  }

  lemma PutHas(b: Block, words: multiset<Token>, t: Token)
    requires (forall u | u in words :: Has(b, u)) && SlotOf(t).Some? && !Occupied(b, SlotOf(t).value)
    ensures forall u | u in words + multiset{t} :: Has(Put(b, t), u)
  {
    forall u | u in words + multiset{t} ensures Has(Put(b, t), u) {
      if u != t { assert u in words && Has(b, u); }
    }
  }

  lemma PutFills(b: Block, words: multiset<Token>, t: Token)
    requires Filled(b, words) && SlotOf(t).Some?
    ensures Filled(Put(b, t), words + multiset{t})
  {
    assert t in words + multiset{t};
    forall s | Occupied(Put(b, t), s) ensures exists u | u in words + multiset{t} :: SlotOf(u) == Some(s) {
      if s != SlotOf(t).value {
        assert Occupied(b, s);
        var u :| u in words && SlotOf(u) == Some(s);
        assert u in words + multiset{t};
      }
    }
  }

  lemma PutHolds(b: Block, words: multiset<Token>, t: Token)
    requires Holds(b, words) && SlotOf(t).Some? && !Occupied(b, SlotOf(t).value)
    requires Claim(t) == NoCommand || b.axisCommand == NoCommand
    ensures Holds(Put(b, t), words + multiset{t})
  {
    PutHas(b, words, t);
    PutFills(b, words, t);
    PutClaims(b, words, t);
  }

  /** One more word keeps a line well formed exactly when the loop takes it. */
  lemma WellFormedOneMore(b: Block, words: multiset<Token>, t: Token)
    requires Holds(b, words) && WellFormed(words)
    ensures WellFormed(words + multiset{t}) <==> Step(b, t).Success?
  {
    StepExactly(b, t);
    var more := words + multiset{t};
    assert t in more;
    if Step(b, t).Success? {
      forall u | u in words ensures u != t && !Clash(u, t) && !Clash(t, u) {
        assert Has(b, u);
      }
    } else if WellFormed(more) {
      if Occupied(b, SlotOf(t).value) {
        var u :| u in words && SlotOf(u) == SlotOf(t);
        assert u in more && Clash(t, u);
      } else {
        var u :| u in words && Claim(u) == b.axisCommand;
        assert u in more && Clash(t, u);
      }
    }
  }

  lemma {:induction false} ImportFrom(b: Block, words: multiset<Token>, line: seq<Token>)
    requires Holds(b, words) && WellFormed(words)
    ensures Import(b, line).Success? <==> WellFormed(words + multiset(line))
    ensures Import(b, line).Success? ==> Holds(Import(b, line).value, words + multiset(line))
    decreases |line|
  {
    if line == [] {
      assert words + multiset(line) == words;
    } else {
      var t := line[0];
      assert line == [t] + line[1..];
      assert words + multiset(line) == (words + multiset{t}) + multiset(line[1..]);
      WellFormedOneMore(b, words, t);
      if Step(b, t).Success? {
        StepExactly(b, t);
        PutHolds(b, words, t);
        ImportFrom(Put(b, t), words + multiset{t}, line[1..]);
      } else if WellFormed(words + multiset(line)) {
        PartWellFormed(words + multiset{t}, multiset(line[1..]));
      }
    }
  }

  lemma PartWellFormed(part: multiset<Token>, rest: multiset<Token>)
    requires WellFormed(part + rest)
    ensures WellFormed(part)
  {
    forall t | t in part ensures SlotOf(t).Some? && part[t] == 1 {
      assert t in part + rest;
    }
    forall t, u | t in part && u in part && t != u ensures !Clash(t, u) {
      assert t in part + rest && u in part + rest;
    }
  }

  /**
   A line is imported exactly when all its words are legal, no modal group and no letter occurs
   twice, and at most one command claims the axis words; the block then holds those words.
   */
  lemma ImportExactly(line: seq<Token>)
    ensures Import(Empty, line).Success? <==> WellFormed(multiset(line))
    ensures Import(Empty, line).Success? ==> Holds(Import(Empty, line).value, multiset(line))
  {
    assert multiset{} + multiset(line) == multiset(line);
    ImportFrom(Empty, multiset{}, line);
  }

  /** The words of a line determine the block. */
  lemma HoldsOnce(b: Block, c: Block, words: multiset<Token>)
    requires Holds(b, words) && Holds(c, words)
    ensures b == c
  {
    SameSlots(b, c, words);
    SameSlots(c, b, words);
    assert b.commands == c.commands;
    assert b.values == c.values;
  }

  lemma SameSlots(b: Block, c: Block, words: multiset<Token>)
    requires Holds(b, words) && Holds(c, words)
    ensures forall g | g in b.commands :: g in c.commands && c.commands[g] == b.commands[g]
    ensures forall letter | letter in b.values :: letter in c.values && c.values[letter] == b.values[letter]
    ensures b.axisCommand != NoCommand ==> c.axisCommand == b.axisCommand
  {
    forall g | g in b.commands ensures g in c.commands && c.commands[g] == b.commands[g] {
      assert Occupied(b, CommandSlot(g));
      var t :| t in words && SlotOf(t) == Some(CommandSlot(g));
      assert Has(b, t) && Has(c, t);
    }
    forall letter | letter in b.values ensures letter in c.values && c.values[letter] == b.values[letter] {
      assert Occupied(b, ValueSlot(letter));
      var t :| t in words && SlotOf(t) == Some(ValueSlot(letter));
      assert Has(b, t) && Has(c, t);
    }
  }

  /** The order of the words does not matter: an importable line is imported in any order, to the same block. */
  lemma AnyOrder(line: seq<Token>, other: seq<Token>)
    requires multiset(line) == multiset(other) && Import(Empty, line).Success?
    ensures Import(Empty, other) == Import(Empty, line)
  {
    ImportExactly(line);
    ImportExactly(other);
    HoldsOnce(Import(Empty, line).value, Import(Empty, other).value, multiset(line));
  }
}
