/** Which lines the parser accepts: every condition that a line has to meet, on its words and the parser's state. */
module GcodeAcceptance {
  import opened Axes
  import opened GcodeWords
  import opened Options
  import opened GcodeBlock
  import opened GcodeLines
  import opened GcodeTable
  import opened GcodeActions
  import opened GcodeArcs

  function Motion(s: State, b: Block): int {
    After(b, G1, s.modal.motion)
  }

  function Command(b: Block): int {
    After(b, G0, 0)
  }

  function Units(s: State, b: Block): int {
    After(b, G6, s.modal.units)
  }

  function System(s: State, b: Block): int {
    After(b, G12, s.modal.coordSelect)
  }

  predicate HasAxes(b: Block) {
    'X' in b.values || 'Y' in b.values || 'Z' in b.values
  }

  /** The line is for the motion of its mode: it has a motion command, or axis words that no other command takes. */
  predicate Moves(b: Block) {
    (G1 in b.commands && b.commands[G1] != 80) || (HasAxes(b) && Command(b) !in {10, 28, 30, 92})
  }

  /** The feed rate that the line works with. */
  function Feed(s: State, b: Block, jog: bool): real {
    var f := if 'F' in b.values then b.values['F'] else 0.0;
    if jog then Millimeters(Units(s, b), f)
    else if After(b, G5, s.modal.feedRate) == 1 || s.modal.feedRate != 0 then f
    else if 'F' !in b.values then s.feedRate
    else Millimeters(Units(s, b), f)
  }

  /** The place of the origin along an axis. */
  function OriginOf(s: State, b: Block, out: Outside): Point
    requires System(s, b) != s.modal.coordSelect ==> out.stored(System(s, b)).Some?
  {
    if System(s, b) == s.modal.coordSelect then s.coordSystem else out.stored(System(s, b)).value
  }

  /** Where an axis is sent. */
  function Aim(s: State, b: Block, origin: Point, a: Axis): real {
    if Letter(a) !in b.values then s.position.At(a)
    else
      var v := Millimeters(Units(s, b), b.values[Letter(a)]);
      if Command(b) == 53 then v
      else if After(b, G3, s.modal.distance) == 0 then v + origin.At(a) + s.coordOffset.At(a)
      else s.position.At(a) + v
  }

  function AimOf(s: State, b: Block, origin: Point): Point {
    Vec(Aim(s, b, origin, X), Aim(s, b, origin, Y), Aim(s, b, origin, Z))
  }

  // ---------------------------------------------------------------------------
  // The conditions
  // ---------------------------------------------------------------------------

  /** The conditions on the numbers of a line, and on what can be read from the store. */
  ghost predicate NumbersFit(s: State, b: Block, out: Outside) {
    && ('N' in b.values ==> b.values['N'] < 10000001.0)
    && (After(b, G5, s.modal.feedRate) == 1 && Moves(b) && Motion(s, b) !in {0, 80} ==> 'F' in b.values)
    && (System(s, b) != s.modal.coordSelect ==> out.stored(System(s, b)).Some?)
  }

  /** The stored system that G10 is for: P1 to P6, or the active one. */
  function SystemOfG10(s: State, b: Block): int {
    var p := Significand(Value(b, 'P'));
    if p == 0 then System(s, b) else p - 1
  }

  /** What each command asks for. */
  ghost predicate CommandFits(s: State, b: Block, out: Outside) {
    match Command(b)
    case 4 => 'P' in b.values
    case 10 =>
      && HasAxes(b) && ('P' in b.values || 'L' in b.values) && Significand(Value(b, 'P')) <= 6
      && (Significand(Value(b, 'L')) == 20 || (Significand(Value(b, 'L')) == 2 && 'R' !in b.values))
      && out.stored(SystemOfG10(s, b)).Some?
    case 28 => out.stored(6).Some?
    case 30 => out.stored(7).Some?
    case 53 => Motion(s, b) in {0, 1}
    case 92 => HasAxes(b)
    case _ => true
  }

  /** The distances of an arc's centre from both ends are near enough. */
  ghost predicate IsNear(far: real, radius: real) {
    || -0.005 <= far - radius <= 0.005
    || (-0.5 <= far - radius <= 0.5 && -0.001 * radius <= far - radius <= 0.001 * radius)
  }

  /** An arc with a radius: to another place, no further away than twice the radius. */
  ghost predicate RadiusFits(s: State, target: Point, r: real) {
    var x, y := target.x - s.position.x, target.y - s.position.y;
    target != s.position && x * x + y * y <= 4.0 * r * r
  }

  /** An arc with its centre at (i, j) from the start. */
  ghost predicate CentreFits(s: State, target: Point, i: real, j: real, out: Outside) {
    IsNear(Far(out, target.x - s.position.x - i, target.y - s.position.y - j), Far(out, i, j))
  }

  /** The words of an arc make a circle. */
  ghost predicate ArcFits(s: State, b: Block, target: Point, out: Outside) {
    && ('X' in b.values || 'Y' in b.values)
    && if 'R' in b.values then RadiusFits(s, target, Millimeters(Units(s, b), b.values['R']))
       else
         && ('I' in b.values || 'J' in b.values)
         && CentreFits(s, target, Millimeters(Units(s, b), Value(b, 'I')), Millimeters(Units(s, b), Value(b, 'J')), out)
  }

  /** What each kind of motion asks for. */
  ghost predicate MotionFits(s: State, b: Block, feed: real, target: Point, out: Outside) {
    && (Motion(s, b) == 80 ==> !HasAxes(b))
    && (Moves(b) && Motion(s, b) !in {0, 80} ==>
          && feed != 0.0
          && (Motion(s, b) in {2, 3} ==> ArcFits(s, b, target, out))
          && (Motion(s, b) in {140, 141, 142, 143} ==> HasAxes(b) && target != s.position))
  }

  /** What the line has a use for. */
  ghost predicate WordsFit(s: State, b: Block) {
    && (forall letter | letter in b.values :: letter in {'N', 'F', 'S', 'T', 'X', 'Y', 'Z', 'P', 'L', 'R', 'I', 'J', 'K'})
    && ('P' in b.values ==> Command(b) in {4, 10})
    && ('L' in b.values ==> Command(b) == 10)
    && ('R' in b.values || 'I' in b.values || 'J' in b.values || 'K' in b.values ==> Moves(b) && Motion(s, b) in {2, 3})
    && ('R' in b.values ==> 'I' !in b.values && 'J' !in b.values && 'K' !in b.values)
  }

  // ---------------------------------------------------------------------------
  // They are all
  // ---------------------------------------------------------------------------

  lemma ClaimIsMoves(b: Block, m: Modal)
    requires Coherent(b)
    ensures Begin(b, m).axisCommand == MotionMode <==> Moves(b)
  {
  }

  lemma NumberLimit(b: Block)
    requires 'N' in b.values ==> b.values['N'] >= 0.0
    ensures BadLineNumber(b) <==> !('N' in b.values ==> b.values['N'] < 10000001.0)
  {
    TruncOfNat(Value(b, 'N'));
  }

  lemma FeedExactly(s: State, b: Block)
    requires Coherent(b)
    ensures var m := ModalOf(s.modal, b, false);
            var r := FeedOf(s, m, b, Begin(b, m).axisCommand, false);
            && (r.Success? <==> (After(b, G5, s.modal.feedRate) == 1 && Moves(b) && Motion(s, b) !in {0, 80} ==> 'F' in b.values))
            && (r.Success? ==> r.value == Feed(s, b, false))
  {
    ClaimIsMoves(b, ModalOf(s.modal, b, false));
  }

  lemma SystemExactly(s: State, b: Block, out: Outside)
    requires Coherent(b)
    ensures var r := CoordSystemOf(s, ModalOf(s.modal, b, false), b, out);
            && (r.Success? <==> (System(s, b) != s.modal.coordSelect ==> out.stored(System(s, b)).Some?))
            && (r.Success? ==> r.value == OriginOf(s, b, out))
  {
  }

  lemma AimedExactly(s: State, b: Block, cs: Point, out: Outside)
    requires Coherent(b) && ('P' in b.values ==> b.values['P'] >= 0.0)
    ensures Aimed(s, ModalOf(s.modal, b, false), b, cs, out).Success? <==> CommandFits(s, b, out)
  {
    var m := ModalOf(s.modal, b, false);
    var p := Begin(b, m);
    assert Significand(Value(b, 'P')) >= 0;
  }

  /** Where the line aims at, if the motion takes the axis words. */
  lemma AimIsTarget(s: State, b: Block, jog: bool, cs: Point, out: Outside)
    requires Coherent(b) && Moves(b) && HasAxes(b) && Aimed(s, ModalOf(s.modal, b, jog), b, cs, out).Success?
    ensures Aimed(s, ModalOf(s.modal, b, jog), b, cs, out).value.xyz == AimOf(s, b, cs)
  {
  }

  /** What the motion stage is given. */
  lemma AimedParts(s: State, b: Block, jog: bool, cs: Point, out: Outside)
    requires Coherent(b) && Aimed(s, ModalOf(s.modal, b, jog), b, cs, out).Success?
    ensures var p := Aimed(s, ModalOf(s.modal, b, jog), b, cs, out).value;
            && (p.axisCommand == MotionMode <==> Moves(b))
            && (Moves(b) ==>
                  && p.r == Value(b, 'R') && p.ijk == Vec(Value(b, 'I'), Value(b, 'J'), Value(b, 'K'))
                  && ('R' in p.words <==> 'R' in b.values))
  {
    var m := ModalOf(s.modal, b, jog);
    ClaimIsMoves(b, m);
    AimedLeaves(s, m, b, cs, out);
    if Moves(b) { ArcWordsStay(s, m, b, cs, out); }
  }

  lemma NearExactly(far: real, r: real)
    ensures RadiiDiffer(far, r) <==> !IsNear(far, r)
  {
  }

  lemma LengthIs(m: Modal, v: real)
    ensures Length(m, v) == Millimeters(m.units, v)
  {
  }

  lemma CentreArcExactly(s: State, m: Modal, b: Block, p: Progress, out: Outside)
    ensures CentreArc(s, m, b, p, out).Success? <==>
              && ('I' in b.values || 'J' in b.values)
              && CentreFits(s, p.xyz, Millimeters(m.units, p.ijk.x), Millimeters(m.units, p.ijk.y), out)
  {
    var i, j := Millimeters(m.units, p.ijk.x), Millimeters(m.units, p.ijk.y);
    var x, y := p.xyz.x - s.position.x, p.xyz.y - s.position.y;
    LengthIs(m, p.ijk.x);
    LengthIs(m, p.ijk.y);
    FarIsHypot(out, i, j);
    FarIsHypot(out, x - i, y - j);
    NearExactly(Far(out, x - i, y - j), Far(out, i, j));
  }

  lemma RadiusArcExactly(s: State, m: Modal, p: Progress, out: Outside)
    ensures RadiusArc(s, m, p, out).Success? <==> RadiusFits(s, p.xyz, Millimeters(m.units, p.r))
  {
    LengthIs(m, p.r);
  }

  lemma ArcExactly(s: State, b: Block, p: Progress, out: Outside)
    requires p.r == Value(b, 'R') && p.ijk == Vec(Value(b, 'I'), Value(b, 'J'), Value(b, 'K'))
    requires 'R' in p.words <==> 'R' in b.values
    ensures ArcChecked(s, ModalOf(s.modal, b, false), b, p, out).Success? <==> ArcFits(s, b, p.xyz, out)
  {
    var m := ModalOf(s.modal, b, false);
    RadiusArcExactly(s, m, p, out);
    CentreArcExactly(s, m, b, p, out);
    ArcStages(s, m, b, p, out);
  }

  lemma ArcStages(s: State, m: Modal, b: Block, p: Progress, out: Outside)
    ensures ArcChecked(s, m, b, p, out).Success? <==>
              && ('X' in b.values || 'Y' in b.values)
              && if 'R' in p.words then RadiusArc(s, m, p, out).Success? else CentreArc(s, m, b, p, out).Success?
  {
  }

  lemma MotionExactly(s: State, b: Block, p: Progress, feed: real, out: Outside)
    requires p.axisCommand == MotionMode <==> Moves(b)
    requires Moves(b) ==>
               && p.r == Value(b, 'R') && p.ijk == Vec(Value(b, 'I'), Value(b, 'J'), Value(b, 'K'))
               && ('R' in p.words <==> 'R' in b.values)
    ensures MotionChecked(s, ModalOf(s.modal, b, false), b, p, feed, out).Success? <==> MotionFits(s, b, feed, p.xyz, out)
  {
    if Moves(b) { ArcExactly(s, b, p, out); }
  }

  lemma WordsExactly(s: State, b: Block)
    requires Coherent(b)
    ensures (forall letter | letter in b.values :: HasUse(b, ModalOf(s.modal, b, false), false, letter)) <==> WordsFit(s, b)
  {
    ClaimIsMoves(b, ModalOf(s.modal, b, false));
  }

  lemma NoneLeft(b: Block, m: Modal, jog: bool)
    ensures (set letter | letter in b.values && !HasUse(b, m, jog, letter)) == {} <==>
              forall letter | letter in b.values :: HasUse(b, m, jog, letter)
  {
    var left := set letter | letter in b.values && !HasUse(b, m, jog, letter);
    forall letter | letter in b.values ensures letter in left <==> !HasUse(b, m, jog, letter) {
    }
    if left == {} {
      forall letter | letter in b.values ensures HasUse(b, m, jog, letter) {
        assert letter !in left;
      }
    }
  }

  /** The target as the motion stage sees it: without axis words it is zero, but no check depends on it then. */
  lemma TargetFits(s: State, b: Block, cs: Point, out: Outside, feed: real)
    requires Coherent(b) && Aimed(s, ModalOf(s.modal, b, false), b, cs, out).Success?
    ensures var p := Aimed(s, ModalOf(s.modal, b, false), b, cs, out).value;
            MotionFits(s, b, feed, p.xyz, out) <==> MotionFits(s, b, feed, AimOf(s, b, cs), out)
  {
    if Moves(b) && HasAxes(b) { AimIsTarget(s, b, false, cs, out); }
  }

  /** Everything that a line has to meet. */
  ghost predicate Acceptable(s: State, b: Block, out: Outside) {
    && NumbersFit(s, b, out) && CommandFits(s, b, out) && WordsFit(s, b)
    && MotionFits(s, b, Feed(s, b, false), AimOf(s, b, OriginOf(s, b, out)), out)
  }

  lemma PreparedExactly(s: State, b: Block, out: Outside)
    requires Coherent(b) && ('P' in b.values ==> b.values['P'] >= 0.0) && ('N' in b.values ==> b.values['N'] >= 0.0)
    ensures var m := ModalOf(s.modal, b, false);
            var r := Prepared(s, m, b, false, out);
            && (r.Success? <==> NumbersFit(s, b, out) && CommandFits(s, b, out))
            && (r.Success? ==>
                  && r.value.feed == Feed(s, b, false) && r.value.modal == m
                  && Aimed(s, m, b, OriginOf(s, b, out), out) == Success(r.value.end))
  {
    NumberLimit(b);
    FeedExactly(s, b);
    SystemExactly(s, b, out);
    var cs := CoordSystemOf(s, ModalOf(s.modal, b, false), b, out);
    if cs.Success? { AimedExactly(s, b, cs.value, out); }
  }

  lemma CheckedExactly(s: State, b: Block, out: Outside)
    requires Coherent(b) && ('P' in b.values ==> b.values['P'] >= 0.0) && ('N' in b.values ==> b.values['N'] >= 0.0)
    ensures Check(s, b, false, out).Success? <==> Acceptable(s, b, out)
  {
    PreparedExactly(s, b, out);
    var m := ModalOf(s.modal, b, false);
    if NumbersFit(s, b, out) && CommandFits(s, b, out) {
      var plan := Prepared(s, m, b, false, out).value;
      var cs := OriginOf(s, b, out);
      AimedParts(s, b, false, cs, out);
      MotionExactly(s, b, plan.end, plan.feed, out);
      TargetFits(s, b, cs, out, plan.feed);
      WordsExactly(s, b);
      var end := MotionChecked(s, m, b, plan.end, plan.feed, out);
      if end.Success? {
        UnusedExactly(s, m, b, cs, plan.feed, false, out);
        NoneLeft(b, m, false);
      }
    }
  }

  /** A line is accepted exactly when its words are legal together and all of the conditions hold. */
  lemma AcceptedExactly(s: State, line: Input)
    requires !line.jog
    ensures ExecuteLine(s, line).status == Accepted <==>
              Import(Empty, line.words).Success? && Acceptable(s, Import(Empty, line.words).value, line.out)
  {
    RefusedImport(Empty, line.words);
    if Import(Empty, line.words).Success? {
      var b := Import(Empty, line.words).value;
      ImportIsCoherent(Empty, line.words);
      WordSetsValue(line.words, b, 'P');
      WordSetsValue(line.words, b, 'N');
      CheckedExactly(s, b, line.out);
      RefusedCheck(s, b, line.out);
    }
  }

  lemma RefusedCheck(s: State, b: Block, out: Outside)
    ensures Check(s, b, false, out) != Fail(Accepted)
  {
  }

  // ---------------------------------------------------------------------------
  // Jogs
  // ---------------------------------------------------------------------------

  /** The commands of a jog: units, distance mode and G53. */
  ghost predicate JogCommandsFit(b: Block) {
    b.commands.Keys <= {G0, G3, G6} && Command(b) in {0, 53}
  }

  /** Where a jog goes; without axis words, to machine zero. */
  function JogTarget(s: State, b: Block): Point {
    if HasAxes(b) then AimOf(s, b, s.coordSystem) else Vec(0.0, 0.0, 0.0)
  }

  ghost predicate JogAcceptable(s: State, b: Block, out: Outside) {
    && JogCommandsFit(b)
    && 'F' in b.values && (HasAxes(b) ==> b.values['F'] != 0.0)
    && ('N' in b.values ==> b.values['N'] < 10000001.0)
    && (forall letter | letter in b.values :: letter in {'N', 'F', 'X', 'Y', 'Z'})
    && !out.beyondTravel(JogTarget(s, b))
  }

  lemma JogPrepared(s: State, b: Block, out: Outside)
    requires Coherent(b) && JogCommandsFit(b) && ('N' in b.values ==> b.values['N'] >= 0.0)
    ensures var m := ModalOf(s.modal, b, true);
            var r := Prepared(s, m, b, true, out);
            && m.motion == 1
            && (r.Success? <==> 'F' in b.values && ('N' in b.values ==> b.values['N'] < 10000001.0))
            && (r.Success? ==>
                  && r.value.feed == Feed(s, b, true) && r.value.modal == m
                  && Aimed(s, m, b, s.coordSystem, out) == Success(r.value.end)
                  && r.value.end.xyz == JogTarget(s, b)
                  && (r.value.end.axisCommand == MotionMode <==> HasAxes(b)))
  {
    NumberLimit(b);
    var m := ModalOf(s.modal, b, true);
    if Aimed(s, m, b, s.coordSystem, out).Success? {
      AimedParts(s, b, true, s.coordSystem, out);
      if HasAxes(b) { AimIsTarget(s, b, true, s.coordSystem, out); }
    }
  }

  lemma JogFinished(s: State, b: Block, plan: Plan, out: Outside)
    requires Coherent(b) && JogCommandsFit(b) && plan.modal == ModalOf(s.modal, b, true) && plan.modal.motion == 1
    requires Aimed(s, plan.modal, b, s.coordSystem, out) == Success(plan.end)
    requires plan.end.axisCommand == MotionMode <==> HasAxes(b)
    ensures Finished(s, b, plan, true, out).Success? <==>
              && (HasAxes(b) ==> plan.feed != 0.0)
              && (forall letter | letter in b.values :: HasUse(b, plan.modal, true, letter))
              && !out.beyondTravel(plan.end.xyz)
    ensures Finished(s, b, plan, true, out).Success? ==> Finished(s, b, plan, true, out).value.end.xyz == plan.end.xyz
  {
    var end := MotionChecked(s, plan.modal, b, plan.end, plan.feed, out);
    if end.Success? {
      UnusedExactly(s, plan.modal, b, s.coordSystem, plan.feed, true, out);
      NoneLeft(b, plan.modal, true);
    }
  }

  lemma JogWords(s: State, b: Block)
    requires Coherent(b) && JogCommandsFit(b)
    ensures (forall letter | letter in b.values :: HasUse(b, ModalOf(s.modal, b, true), true, letter)) <==>
              forall letter | letter in b.values :: letter in {'N', 'F', 'X', 'Y', 'Z'}
  {
    ClaimIsMoves(b, ModalOf(s.modal, b, true));
  }

  lemma JogCheckedExactly(s: State, b: Block, out: Outside)
    requires Coherent(b) && ('N' in b.values ==> b.values['N'] >= 0.0)
    ensures Check(s, b, true, out).Success? <==> JogAcceptable(s, b, out)
    ensures Check(s, b, true, out) != Fail(Accepted)
    ensures Check(s, b, true, out).Success? ==>
              var plan := Check(s, b, true, out).value;
              plan.end.xyz == JogTarget(s, b) && plan.feed == Feed(s, b, true)
  {
    if Check(s, b, true, out).Success? {
      CheckedParts(s, b, true, out);
    }
    if JogCommandsFit(b) {
      JogPrepared(s, b, out);
      JogWords(s, b);
      var r := Prepared(s, ModalOf(s.modal, b, true), b, true, out);
      if r.Success? { JogFinished(s, b, r.value, out); }
    }
  }

  /** What a jog needs, and all it does: one feed move in units per minute, and the position follows. */
  lemma JogsExactly(s: State, line: Input)
    requires line.jog
    ensures var r := ExecuteLine(s, line);
            && (r.status == Accepted <==>
                  Import(Empty, line.words).Success? && JogAcceptable(s, Import(Empty, line.words).value, line.out))
            && (r.status == Accepted ==>
                  var b := Import(Empty, line.words).value;
                  && r.state == s.(position := JogTarget(s, b))
                  && r.actions == [Line(JogTarget(s, b), Feed(s, b, true), false, false)])
  {
    RefusedImport(Empty, line.words);
    if Import(Empty, line.words).Success? {
      var b := Import(Empty, line.words).value;
      ImportIsCoherent(Empty, line.words);
      WordSetsValue(line.words, b, 'N');
      JogCheckedExactly(s, b, line.out);
    }
  }

  // ---------------------------------------------------------------------------
  // Probes and stored systems
  // ---------------------------------------------------------------------------

  /** Where an action goes. */
  function TargetOf(x: Action): Point
    requires x.Line? || x.Arc? || x.Probe?
  {
    x.target
  }

  /** The motion of a line goes where its axis words send it. */
  lemma MotionGoesToAim(s: State, line: Input, b: Block)
    requires Import(Empty, line.words) == Success(b) && !line.jog && ExecuteLine(s, line).status == Accepted
    requires Moves(b) && HasAxes(b) && Motion(s, b) in {0, 1, 2, 3, 140, 141, 142, 143}
    ensures System(s, b) != s.modal.coordSelect ==> line.out.stored(System(s, b)).Some?
    ensures var r := ExecuteLine(s, line);
            && r.actions != []
            && var x := r.actions[|r.actions| - 1];
            (x.Line? || x.Arc? || x.Probe?) && TargetOf(x) == AimOf(s, b, OriginOf(s, b, line.out))
  {
    AcceptedExactly(s, line);
    ImportIsCoherent(Empty, line.words);
    ExecutedLine(s, line, b);
    AimedPlan(s, b, line.out);
    MotionIsLast(s, b, Check(s, b, false, line.out).value, line.out);
  }

  /** After a probe the parser is at the target, where the machine stopped, or where it was, as the probe reports. */
  lemma PositionAfterProbe(s: State, line: Input, b: Block)
    requires Import(Empty, line.words) == Success(b) && !line.jog && ExecuteLine(s, line).status == Accepted
    requires Moves(b) && HasAxes(b) && Motion(s, b) in {140, 141, 142, 143}
    ensures System(s, b) != s.modal.coordSelect ==> line.out.stored(System(s, b)).Some?
    ensures var target := AimOf(s, b, OriginOf(s, b, line.out));
            ExecuteLine(s, line).state.position ==
              match line.out.probed(target)
              case ToTarget => target
              case ToMachine(position) => position
              case Unmoved => s.position
  {
    AcceptedExactly(s, line);
    ImportIsCoherent(Empty, line.words);
    ExecutedLine(s, line, b);
    AimedPlan(s, b, line.out);
    ProbeEnds(s, b, Check(s, b, false, line.out).value, line.out);
  }

  lemma AimedPlan(s: State, b: Block, out: Outside)
    requires Coherent(b) && Check(s, b, false, out).Success? && NumbersFit(s, b, out)
    requires Moves(b) && HasAxes(b)
    ensures var plan := Check(s, b, false, out).value;
            && plan.end.xyz == AimOf(s, b, OriginOf(s, b, out)) && plan.end.axisCommand == MotionMode
            && plan.modal.motion == Motion(s, b)
  {
    CheckedParts(s, b, false, out);
    var m := ModalOf(s.modal, b, false);
    var cs := Check(s, b, false, out).value.coordSystem;
    SystemExactly(s, b, out);
    AimedParts(s, b, false, cs, out);
    AimIsTarget(s, b, false, cs, out);
  }

  lemma ProbeEnds(s: State, b: Block, plan: Plan, out: Outside)
    requires plan.end.axisCommand == MotionMode && plan.modal.motion in {140, 141, 142, 143}
    requires NonModalOf(b) !in {28, 30}
    ensures Execute(s, b, plan, false, out).0.position ==
              match out.probed(plan.end.xyz)
              case ToTarget => plan.end.xyz
              case ToMachine(position) => position
              case Unmoved => s.position
  {
  }

  /** G10 stores the system of its P word, P1 to P6 in the slots 0 to 5 and P0 in that of the active system, and nothing else. */
  lemma StoresSystem(s: State, line: Input, b: Block)
    requires Import(Empty, line.words) == Success(b) && !line.jog && ExecuteLine(s, line).status == Accepted
    requires Command(b) == 10
    ensures exists data :: ExecuteLine(s, line).actions == [Store(SystemOfG10(s, b), data)]
  {
    ExecutedLine(s, line, b);
    ImportIsCoherent(Empty, line.words);
    WordSetsValue(line.words, b, 'P');
    var plan := Check(s, b, false, line.out).value;
    FirstActions(s, b, plan, line.out);
    MovesExactly(s, line.words, b, line.out);
    StorePlan(s, b, line.out);
    assert ExecuteLine(s, line).actions == [Store(SystemOfG10(s, b), plan.end.ijk)];
  }

  lemma StorePlan(s: State, b: Block, out: Outside)
    requires Coherent(b) && Check(s, b, false, out).Success? && Command(b) == 10 && ('P' in b.values ==> b.values['P'] >= 0.0)
    ensures Check(s, b, false, out).value.end.coordSelect == SystemOfG10(s, b)
  {
    CheckedParts(s, b, false, out);
    var m := ModalOf(s.modal, b, false);
    var plan := Check(s, b, false, out).value;
    StoreAims(s, m, b, plan.coordSystem, out);
    Untaken(s, m, b, Aimed(s, m, b, plan.coordSystem, out).value, plan.feed, out);
  }

  lemma StoreAims(s: State, m: Modal, b: Block, cs: Point, out: Outside)
    requires Coherent(b) && Command(b) == 10 && Aimed(s, m, b, cs, out).Success? && ('P' in b.values ==> b.values['P'] >= 0.0)
    requires m == ModalOf(s.modal, b, false)
    ensures Aimed(s, m, b, cs, out).value.coordSelect == SystemOfG10(s, b)
    ensures Aimed(s, m, b, cs, out).value.axisCommand == NonModal
  {
  }
}
