/**
 The second and third pass of the g-code parser on one line: the checks, which may only read the
 parser's state, and the execution, which may no longer fail.
 */
module GcodeBlock {
  import opened Axes
  import opened GcodeWords
  import opened Options

  type Point = Vec<real>

  const MM_PER_INCH := 25.4
  const MAX_LINE_NUMBER := 10000000
  const N_COORDINATE_SYSTEM := 6
  const SETTING_INDEX_G28 := 6
  const SETTING_INDEX_G30 := 7

  const DWELL := 4
  const SET_COORDINATE_DATA := 10
  const GO_HOME_0 := 28
  const GO_HOME_1 := 30
  const SET_HOME_0 := 38
  const SET_HOME_1 := 40
  const ABSOLUTE_OVERRIDE := 53
  const SET_COORDINATE_OFFSET := 92
  const RESET_COORDINATE_OFFSET := 102

  const SEEK := 0
  const LINEAR := 1
  const CW_ARC := 2
  const CCW_ARC := 3
  const NO_MOTION := 80
  const PROBES := {140, 141, 142, 143}

  const UNITS_PER_MIN := 0
  const INVERSE_TIME := 1
  const MM := 0
  const INCHES := 1
  const ABSOLUTE := 0

  /** The modes that outlast a line. The plane is always XY, so it is not kept. */
  datatype Modal = Modal(motion: int, feedRate: int, units: int, distance: int, coordSelect: int,
                         spindle: int, coolant: int)

  /** gc_state. */
  datatype State = State(modal: Modal, spindleSpeed: real, feedRate: real, tool: int, lineNumber: int,
                         position: Point, coordSystem: Point, coordOffset: Point)

  /** Where a probing cycle leaves the parser's position. */
  datatype Update = ToTarget | ToMachine(position: Point) | Unmoved

  /**
   What the line depends on outside the parser: stored coordinates, square roots, what a division by zero leaves,
   the probe and the machine's travel.
   */
  datatype Outside = Outside(stored: int -> Option<Point>,
                             root: real -> real,
                             notANumber: real,
                             probed: Point -> Update,
                             beyondTravel: Point -> bool)

  /** What an accepted line makes the machine do. */
  datatype Action =
    | Dwell(seconds: real)
    | Store(index: int, data: Point)
    | Line(target: Point, feed: real, rapid: bool, inverseTime: bool)
    | Arc(target: Point, centre: Point, radius: real, clockwise: bool, feed: real, inverseTime: bool)
    | Probe(target: Point, mode: int, feed: real)

  // ---------------------------------------------------------------------------
  // Reading the block
  // ---------------------------------------------------------------------------

  function CodeOr(b: Block, g: Group, otherwise: int): int {
    if g in b.commands then b.commands[g] else otherwise
  }

  function NonModalOf(b: Block): int {
    CodeOr(b, G0, 0)
  }

  /** A letter that is missing reads as zero. */
  function Value(b: Block, letter: char): real {
    if letter in b.values then b.values[letter] else 0.0
  }

  function Letter(a: Axis): char {
    match a
    case X => 'X'
    case Y => 'Y'
    case Z => 'Z'
  }

  predicate Names(b: Block, a: Axis) {
    Letter(a) in b.values
  }

  predicate NamesAny(b: Block) {
    Names(b, X) || Names(b, Y) || Names(b, Z)
  }

  /** The modes of the block: those of the state, changed by its commands. A jog starts out in G1 and G94. */
  function ModalOf(m: Modal, b: Block, jog: bool): Modal {
    Modal(CodeOr(b, G1, if jog then LINEAR else m.motion),
          CodeOr(b, G5, if jog then UNITS_PER_MIN else m.feedRate),
          CodeOr(b, G6, m.units),
          CodeOr(b, G3, m.distance),
          CodeOr(b, G12, m.coordSelect),
          CodeOr(b, M7, m.spindle),
          CodeOr(b, M8, m.coolant))
  }

  /** A length in the units of the block, in millimeters. */
  function Length(m: Modal, v: real): real {
    if m.units == INCHES then v * MM_PER_INCH else v
  }

  // ---------------------------------------------------------------------------
  // The checks
  // ---------------------------------------------------------------------------

  /** What the checks pass on: who takes the axis words, the words not used so far, and the converted values. */
  datatype Progress = Progress(axisCommand: AxisCommand, words: set<char>, xyz: Point, ijk: Point, r: real,
                               coordSelect: int)

  function Begin(b: Block, m: Modal): Progress {
    Progress(if NamesAny(b) && b.axisCommand == NoCommand then MotionMode else b.axisCommand,
             b.values.Keys,
             Vec(Length(m, Value(b, 'X')), Length(m, Value(b, 'Y')), Length(m, Value(b, 'Z'))),
             Vec(Value(b, 'I'), Value(b, 'J'), Value(b, 'K')),
             Value(b, 'R'),
             0)
  }

  /** The feed rate of the block, in millimeters per minute except in inverse time mode. */
  function FeedOf(s: State, m: Modal, b: Block, c: AxisCommand, jog: bool): Result<real> {
    if jog then
      if 'F' !in b.values then Fail(UndefinedFeedRate) else Success(Length(m, Value(b, 'F')))
    else if m.feedRate == INVERSE_TIME then
      if c == MotionMode && m.motion != NO_MOTION && m.motion != SEEK && 'F' !in b.values then Fail(UndefinedFeedRate)
      else Success(Value(b, 'F'))
    else if s.modal.feedRate != UNITS_PER_MIN then Success(Value(b, 'F'))
    else if 'F' in b.values then Success(Length(m, Value(b, 'F')))
    else Success(s.feedRate)
  }

  function SpeedOf(s: State, b: Block): real {
    if 'S' in b.values then b.values['S'] else s.spindleSpeed
  }

  function DwellChecked(b: Block, p: Progress): Result<Progress> {
    if NonModalOf(b) != DWELL then Success(p)
    else if 'P' !in p.words then Fail(ValueWordMissing)
    else Success(p.(words := p.words - {'P'}))
  }

  function Stored(out: Outside, index: int): Result<Point> {
    match out.stored(index)
    case None => Fail(SettingReadFail)
    case Some(data) => Success(data)
  }

  /** The coordinate system that the block works in. */
  function CoordSystemOf(s: State, m: Modal, b: Block, out: Outside): Result<Point> {
    if G12 !in b.commands then Success(s.coordSystem)
    else if m.coordSelect > N_COORDINATE_SYSTEM then Fail(UnsupportedCoordSys)
    else if s.modal.coordSelect != m.coordSelect then Stored(out, m.coordSelect)
    else Success(s.coordSystem)
  }

  /** G10 takes P1 to P6 for the stored systems, and P0 for the active one. */
  function CoordIndex(m: Modal, p: int): int {
    if p > 0 then p - 1 else m.coordSelect
  }

  /** The axis of a coordinate system that G10 sets. */
  function CoordData(s: State, b: Block, p: Progress, data: Point, a: Axis): real {
    if !Names(b, a) then data.At(a)
    else if Significand(Value(b, 'L')) == 20 then s.position.At(a) - s.coordOffset.At(a) - p.xyz.At(a)
    else p.xyz.At(a)
  }

  function CoordDataChecked(s: State, m: Modal, b: Block, p: Progress, out: Outside): Result<Progress> {
    var l := Significand(Value(b, 'L'));
    var select := Significand(Value(b, 'P'));
    if !NamesAny(b) then Fail(NoAxisWords)
    else if 'P' !in p.words && 'L' !in p.words then Fail(ValueWordMissing)
    else if select > N_COORDINATE_SYSTEM then Fail(UnsupportedCoordSys)
    else if l != 20 && (l != 2 || 'R' in p.words) then Fail(UnsupportedCommand)
    else
      match Stored(out, CoordIndex(m, select))
      case Fail(status) => Fail(status)
      case Success(data) =>
        Success(p.(words := p.words - {'L', 'P'}, coordSelect := CoordIndex(m, select),
                   ijk := Vec(CoordData(s, b, p, data, X), CoordData(s, b, p, data, Y), CoordData(s, b, p, data, Z))))
  }

  function Offset(s: State, b: Block, p: Progress, cs: Point, a: Axis): real {
    if Names(b, a) then s.position.At(a) - cs.At(a) - p.xyz.At(a) else s.coordOffset.At(a)
  }

  function OffsetChecked(s: State, b: Block, p: Progress, cs: Point): Result<Progress> {
    if !NamesAny(b) then Fail(NoAxisWords)
    else Success(p.(xyz := Vec(Offset(s, b, p, cs, X), Offset(s, b, p, cs, Y), Offset(s, b, p, cs, Z))))
  }

  /** Where an axis is to go, in machine coordinates. */
  function TargetAt(s: State, m: Modal, b: Block, p: Progress, cs: Point, a: Axis): real {
    if !Names(b, a) then s.position.At(a)
    else if NonModalOf(b) == ABSOLUTE_OVERRIDE then p.xyz.At(a)
    else if m.distance == ABSOLUTE then p.xyz.At(a) + (cs.At(a) + s.coordOffset.At(a))
    else p.xyz.At(a) + s.position.At(a)
  }

  /** The target of the line; without axis words it stays at zero. */
  function Targeted(s: State, m: Modal, b: Block, p: Progress, cs: Point): Progress {
    if !NamesAny(b) then p
    else p.(xyz := Vec(TargetAt(s, m, b, p, cs, X), TargetAt(s, m, b, p, cs, Y), TargetAt(s, m, b, p, cs, Z)))
  }

  function HomeAt(s: State, b: Block, home: Point, a: Axis): real {
    if NamesAny(b) && !Names(b, a) then s.position.At(a) else home.At(a)
  }

  function HomeChecked(s: State, b: Block, p: Progress, out: Outside): Result<Progress> {
    match Stored(out, if NonModalOf(b) == GO_HOME_0 then SETTING_INDEX_G28 else SETTING_INDEX_G30)
    case Fail(status) => Fail(status)
    case Success(home) =>
      Success(p.(ijk := Vec(HomeAt(s, b, home, X), HomeAt(s, b, home, Y), HomeAt(s, b, home, Z)),
                 axisCommand := if NamesAny(b) then p.axisCommand else NoCommand))
  }

  function NonModalChecked(s: State, m: Modal, b: Block, p: Progress, cs: Point, out: Outside): Result<Progress> {
    var command := NonModalOf(b);
    if command == SET_COORDINATE_DATA then CoordDataChecked(s, m, b, p, out)
    else if command == SET_COORDINATE_OFFSET then OffsetChecked(s, b, p, cs)
    else
      var aimed := Targeted(s, m, b, p, cs);
      if command == GO_HOME_0 || command == GO_HOME_1 then HomeChecked(s, b, aimed, out)
      else if command == ABSOLUTE_OVERRIDE && m.motion != SEEK && m.motion != LINEAR then Fail(InvalidMotionModeForG53)
      else Success(aimed)
  }

  /** Four times the square of the height over the chord; negative if the radius is too short. */
  function Discriminant(x: real, y: real, r: real): real {
    4.0 * r * r - x * x - y * y
  }

  function Hypot(out: Outside, x: real, y: real): real {
    out.root(x * x + y * y)
  }

  /** How far an arc's centre lies off the middle of the chord, to its left, as a multiple of it. */
  function Bend(x: real, y: real, r: real, counterclockwise: bool, out: Outside): real
    requires Hypot(out, x, y) != 0.0
  {
    var right := -(out.root(Discriminant(x, y, r)) / Hypot(out, x, y));
    var turned := if counterclockwise then -right else right;
    if r < 0.0 then -turned else turned
  }

  /** The point that is a multiple of the way (x, y) to the left of its middle. */
  function OffChord(x: real, y: real, bend: real): (real, real) {
    (0.5 * (x - y * bend), 0.5 * (y + x * bend))
  }

  /**
   Where the centre of an arc lies from its start, given the way to its target. A target straight above the start
   has no chord to divide by.
   */
  function Centre(x: real, y: real, r: real, counterclockwise: bool, out: Outside): (real, real) {
    if Hypot(out, x, y) == 0.0 then (out.notANumber, out.notANumber)
    else OffChord(x, y, Bend(x, y, r, counterclockwise, out))
  }

  function RadiusArc(s: State, m: Modal, p: Progress, out: Outside): Result<Progress> {
    var x := p.xyz.x - s.position.x;
    var y := p.xyz.y - s.position.y;
    var r := Length(m, p.r);
    if s.position == p.xyz then Fail(InvalidTarget)
    else if Discriminant(x, y, r) < 0.0 then Fail(ArcRadiusError)
    else
      var (i, j) := Centre(x, y, r, m.motion == CCW_ARC, out);
      Success(p.(words := p.words - {'R'}, r := if r < 0.0 then -r else r, ijk := Vec(i, j, p.ijk.z)))
  }

  function Distance(a: real, b: real): real {
    if a < b then b - a else a - b
  }

  /** The radii at both ends of an arc may differ by 0.005 mm, or by a thousandth up to 0.5 mm. */
  predicate RadiiDiffer(target: real, r: real) {
    var d := Distance(target, r);
    d > 0.005 && (d > 0.5 || d > 0.001 * r)
  }

  function CentreArc(s: State, m: Modal, b: Block, p: Progress, out: Outside): Result<Progress> {
    var ijk := Vec(Length(m, p.ijk.x), Length(m, p.ijk.y), Length(m, p.ijk.z));
    var r := Hypot(out, ijk.x, ijk.y);
    if 'I' !in b.values && 'J' !in b.values then Fail(NoOffsetsInPlane)
    else if RadiiDiffer(Hypot(out, p.xyz.x - s.position.x - ijk.x, p.xyz.y - s.position.y - ijk.y), r) then
      Fail(InvalidTarget)
    else Success(p.(words := p.words - {'I', 'J', 'K'}, r := r, ijk := ijk))
  }

  function ArcChecked(s: State, m: Modal, b: Block, p: Progress, out: Outside): Result<Progress> {
    if !NamesAny(b) then Fail(NoAxisWords)
    else if !Names(b, X) && !Names(b, Y) then Fail(NoAxisWordsInPlane)
    else if 'R' in p.words then RadiusArc(s, m, p, out)
    else CentreArc(s, m, b, p, out)
  }

  function Unclaimed(b: Block, p: Progress): Progress {
    if NamesAny(b) then p else p.(axisCommand := NoCommand)
  }

  function MotionChecked(s: State, m: Modal, b: Block, p: Progress, feed: real, out: Outside): Result<Progress> {
    if m.motion == NO_MOTION then
      if NamesAny(b) then Fail(AxisWordsExist) else Success(p)
    else if p.axisCommand != MotionMode then Success(p)
    else if m.motion == SEEK then Success(Unclaimed(b, p))
    else if feed == 0.0 then Fail(UndefinedFeedRate)
    else if m.motion == LINEAR then Success(Unclaimed(b, p))
    else if m.motion == CW_ARC || m.motion == CCW_ARC then ArcChecked(s, m, b, p, out)
    else if m.motion in PROBES then
      if !NamesAny(b) then Fail(NoAxisWords)
      else if s.position == p.xyz then Fail(InvalidTarget)
      else Success(p)
    else Success(p)
  }

  /** The words that are left over at the end. */
  function Unused(p: Progress, jog: bool): set<char> {
    var left := p.words - {'N', 'F'};
    var unspoken := if jog then left else left - {'S', 'T'};
    if p.axisCommand == NoCommand then unspoken else unspoken - {'X', 'Y', 'Z'}
  }

  /** A block that has passed all checks. */
  datatype Plan = Plan(modal: Modal, feed: real, speed: real, coordSystem: Point, end: Progress)

  function JogChecked(b: Block, p: Progress, out: Outside): Status {
    if !(b.commands.Keys <= {G3, G6, G0}) then InvalidJogCommand
    else if NonModalOf(b) != ABSOLUTE_OVERRIDE && NonModalOf(b) != 0 then InvalidJogCommand
    else if out.beyondTravel(p.xyz) then TravelExceeded
    else Accepted
  }

  /** The checks up to the non-modal commands. */
  function Aimed(s: State, m: Modal, b: Block, cs: Point, out: Outside): Result<Progress> {
    match DwellChecked(b, Begin(b, m))
    case Fail(status) => Fail(status)
    case Success(p) => NonModalChecked(s, m, b, p, cs, out)
  }

  function BadLineNumber(b: Block): bool {
    Trunc(Value(b, 'N')) > MAX_LINE_NUMBER
  }

  /** The dwell is checked before the coordinate system is read. */
  function Located(s: State, m: Modal, b: Block, out: Outside): Result<Point> {
    match DwellChecked(b, Begin(b, m))
    case Fail(status) => Fail(status)
    case Success(_) => CoordSystemOf(s, m, b, out)
  }

  /** Everything up to the motion modes. */
  function Prepared(s: State, m: Modal, b: Block, jog: bool, out: Outside): Result<Plan> {
    if BadLineNumber(b) then Fail(InvalidLineNumber)
    else
      match FeedOf(s, m, b, Begin(b, m).axisCommand, jog)
      case Fail(status) => Fail(status)
      case Success(feed) =>
        match Located(s, m, b, out)
        case Fail(status) => Fail(status)
        case Success(cs) =>
          match Aimed(s, m, b, cs, out)
          case Fail(status) => Fail(status)
          case Success(p) => Success(Plan(m, feed, SpeedOf(s, b), cs, p))
  }

  /** The motion modes, and the checks at the end. */
  function Finished(s: State, b: Block, plan: Plan, jog: bool, out: Outside): Result<Plan> {
    match MotionChecked(s, plan.modal, b, plan.end, plan.feed, out)
    case Fail(status) => Fail(status)
    case Success(p) =>
      if Unused(p, jog) != {} then Fail(UnusedWords)
      else if jog && JogChecked(b, p, out) != Accepted then Fail(JogChecked(b, p, out))
      else Success(plan.(end := p))
  }

  function Check(s: State, b: Block, jog: bool, out: Outside): Result<Plan> {
    match Prepared(s, ModalOf(s.modal, b, jog), b, jog, out)
    case Fail(status) => Fail(status)
    case Success(plan) => Finished(s, b, plan, jog, out)
  }

  // ---------------------------------------------------------------------------
  // The execution
  // ---------------------------------------------------------------------------

  predicate Inverse(m: Modal) {
    m.feedRate == INVERSE_TIME
  }

  /** The state after everything but non-modal commands and motion. */
  function Settled(s: State, b: Block, plan: Plan): State {
    State(plan.modal, plan.speed, plan.feed, Significand(Value(b, 'T')), Trunc(Value(b, 'N')), s.position,
          if s.modal.coordSelect != plan.modal.coordSelect then plan.coordSystem else s.coordSystem,
          s.coordOffset)
  }

  function NonModalDone(s: State, b: Block, plan: Plan): (State, seq<Action>) {
    var command := NonModalOf(b);
    var end := plan.end;
    if command == DWELL then (s, [Dwell(Value(b, 'P'))])
    else if command == SET_COORDINATE_DATA then
      (if s.modal.coordSelect == end.coordSelect then s.(coordSystem := end.ijk) else s,
       [Store(end.coordSelect, end.ijk)])
    else if command == GO_HOME_0 || command == GO_HOME_1 then
      (s.(position := end.ijk),
       (if end.axisCommand != NoCommand then [Line(end.xyz, plan.feed, true, Inverse(plan.modal))] else []) +
       [Line(end.ijk, plan.feed, true, Inverse(plan.modal))])
    else if command == SET_HOME_0 then (s, [Store(SETTING_INDEX_G28, s.position)])
    else if command == SET_HOME_1 then (s, [Store(SETTING_INDEX_G30, s.position)])
    else if command == SET_COORDINATE_OFFSET then (s.(coordOffset := end.xyz), [])
    else if command == RESET_COORDINATE_OFFSET then (s.(coordOffset := Vec(0.0, 0.0, 0.0)), [])
    else (s, [])
  }

  function MotionDone(s: State, plan: Plan, out: Outside): (State, seq<Action>) {
    var end := plan.end;
    var motion := plan.modal.motion;
    if motion == NO_MOTION || end.axisCommand != MotionMode then (s, [])
    else if motion == SEEK || motion == LINEAR then
      (s.(position := end.xyz), [Line(end.xyz, plan.feed, motion == SEEK, Inverse(plan.modal))])
    else if motion == CW_ARC || motion == CCW_ARC then
      (s.(position := end.xyz),
       [Arc(end.xyz, end.ijk, end.r, motion == CW_ARC, plan.feed, Inverse(plan.modal))])
    else
      (match out.probed(end.xyz)
       case ToTarget => s.(position := end.xyz)
       case ToMachine(position) => s.(position := position)
       case Unmoved => s,
       [Probe(end.xyz, motion, plan.feed)])
  }

  function Execute(s: State, b: Block, plan: Plan, jog: bool, out: Outside): (State, seq<Action>) {
    if jog then (s.(position := plan.end.xyz), [Line(plan.end.xyz, plan.feed, false, false)])
    else
      var (located, first) := NonModalDone(Settled(s, b, plan), b, plan);
      var (moved, second) := MotionDone(located, plan, out);
      (moved, first + second)
  }

  // ---------------------------------------------------------------------------
  // A whole line
  // ---------------------------------------------------------------------------

  datatype Input = Input(jog: bool, words: seq<Token>, out: Outside)

  datatype Outcome = Outcome(status: Status, state: State, actions: seq<Action>)

  function ExecuteLine(s: State, line: Input): Outcome {
    match Import(Empty, line.words)
    case Fail(status) => Outcome(status, s, [])
    case Success(b) =>
      match Check(s, b, line.jog, line.out)
      case Fail(status) => Outcome(status, s, [])
      case Success(plan) =>
        var (after, actions) := Execute(s, b, plan, line.jog, line.out);
        Outcome(Accepted, after, actions)
  }
}
