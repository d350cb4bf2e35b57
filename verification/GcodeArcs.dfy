/** The circles of G2 and G3: where their centre lies, and how far its distances to both ends may differ. */
module GcodeArcs {
  import opened Axes
  import opened GcodeWords
  import opened Options
  import opened GcodeBlock
  import opened GcodeLines
  import opened GcodeTable
  import opened GcodeActions

  // ---------------------------------------------------------------------------
  // Circles through two points
  // ---------------------------------------------------------------------------

  /** (i, j) has distance r from the origin and from (x, y). */
  predicate IsCentre(x: real, y: real, r: real, i: real, j: real) {
    i * i + j * j == r * r && (x - i) * (x - i) + (y - j) * (y - j) == r * r
  }

  /** On which side of the way to (x, y) the point (i, j) lies: positive on the left. */
  function Side(x: real, y: real, i: real, j: real): real {
    x * j - y * i
  }

  predicate IsRoot(out: Outside, v: real) {
    out.root(v) >= 0.0 && out.root(v) * out.root(v) == v
  }

  lemma SquareOfRatio(a: real, d: real)
    requires d != 0.0
    ensures (a / d) * (a / d) * (d * d) == a * a
  {
    var q := a / d;
    assert q * d == a;
    assert (q * q) * (d * d) == (q * d) * (q * d);
  }

  /** A point half the chord along it, and bent off by a multiple of it, is the centre of a circle. */
  lemma BentIsCentre(x: real, y: real, r: real, bend: real, chord: real)
    requires chord == x * x + y * y && bend * bend * chord == 4.0 * r * r - x * x - y * y
    ensures IsCentre(x, y, r, 0.5 * (x - y * bend), 0.5 * (y + x * bend))
    ensures Side(x, y, 0.5 * (x - y * bend), 0.5 * (y + x * bend)) == 0.5 * bend * chord
  {
    var i := 0.5 * (x - y * bend);
    var j := 0.5 * (y + x * bend);
    assert i * i == 0.25 * (x * x - 2.0 * (x * y * bend) + bend * bend * (y * y));
    assert j * j == 0.25 * (y * y + 2.0 * (x * y * bend) + bend * bend * (x * x));
    assert bend * bend * (x * x + y * y) == bend * bend * (x * x) + bend * bend * (y * y);
    assert i * i + j * j == r * r;
    assert x * i + y * j == 0.5 * (x * x + y * y);
    assert (x - i) * (x - i) + (y - j) * (y - j) == (x * x + y * y) - 2.0 * (x * i + y * j) + (i * i + j * j);
  }

  lemma SignOfProduct(a: real, d: real)
    requires d > 0.0
    ensures a >= 0.0 ==> 0.5 * a * d >= 0.0
    ensures a <= 0.0 ==> 0.5 * a * d <= 0.0
  {
  }

  lemma ProductSign(a: real, b: real, product: real)
    requires a > 0.0 && b > 0.0 && a * b == product
    ensures product > 0.0
  {
  }

  lemma SquareSign(x: real, square: real)
    requires square == x * x
    ensures square >= 0.0 && (x != 0.0 ==> square > 0.0)
  {
    if x > 0.0 {
      ProductSign(x, x, square);
    } else if x < 0.0 {
      ProductSign(-x, -x, square);
    }
  }

  lemma SquareIsPositive(x: real, y: real, chord: real)
    requires x != 0.0 || y != 0.0
    requires chord == x * x + y * y
    ensures chord > 0.0
  {
    SquareSign(x, x * x);
    SquareSign(y, y * y);
  }

  lemma RootIsPositive(out: Outside, v: real)
    requires v > 0.0 && IsRoot(out, v)
    ensures out.root(v) > 0.0
  {
    assert out.root(v) == 0.0 ==> out.root(v) * out.root(v) == 0.0;
  }

  /** The formula bends to the left of a counterclockwise arc, and of a clockwise one with a negative radius. */
  lemma BendSide(x: real, y: real, r: real, counterclockwise: bool, out: Outside)
    requires Hypot(out, x, y) != 0.0
    ensures var q := out.root(Discriminant(x, y, r)) / Hypot(out, x, y);
            Bend(x, y, r, counterclockwise, out) == if counterclockwise == (r >= 0.0) then q else -q
  {
  }

  lemma BendFits(h: real, d: real, disc: real, chord: real)
    requires d > 0.0 && h >= 0.0 && d * d == chord && h * h == disc
    ensures h / d >= 0.0 && (h / d) * (h / d) * chord == disc
  {
    SquareOfRatio(h, d);
  }

  lemma QuotientFits(x: real, y: real, r: real, out: Outside, chord: real)
    requires chord > 0.0 && chord == x * x + y * y
    requires IsRoot(out, chord) && IsRoot(out, Discriminant(x, y, r))
    ensures Hypot(out, x, y) != 0.0
    ensures var q := out.root(Discriminant(x, y, r)) / Hypot(out, x, y);
            q >= 0.0 && q * q * chord == Discriminant(x, y, r)
  {
    RootIsPositive(out, chord);
    BendFits(out.root(Discriminant(x, y, r)), out.root(chord), Discriminant(x, y, r), chord);
  }

  lemma BentEitherWay(x: real, y: real, r: real, q: real, left: bool, chord: real)
    requires chord > 0.0 && chord == x * x + y * y
    requires q >= 0.0 && q * q * chord == Discriminant(x, y, r)
    ensures var bend := if left then q else -q;
            var (i, j) := OffChord(x, y, bend);
            && IsCentre(x, y, r, i, j)
            && (if left then Side(x, y, i, j) >= 0.0 else Side(x, y, i, j) <= 0.0)
  {
    var bend := if left then q else -q;
    SignOfProduct(bend, chord);
    BentIsCentre(x, y, r, bend, chord);
  }

  lemma CentreOfChord(x: real, y: real, r: real, counterclockwise: bool, out: Outside, chord: real)
    requires chord > 0.0 && chord == x * x + y * y
    requires IsRoot(out, chord) && IsRoot(out, Discriminant(x, y, r))
    ensures var (i, j) := Centre(x, y, r, counterclockwise, out);
            && IsCentre(x, y, r, i, j)
            && (if counterclockwise == (r >= 0.0) then Side(x, y, i, j) >= 0.0 else Side(x, y, i, j) <= 0.0)
  {
    QuotientFits(x, y, r, out, chord);
    var q := out.root(Discriminant(x, y, r)) / Hypot(out, x, y);
    BendSide(x, y, r, counterclockwise, out);
    BentEitherWay(x, y, r, q, counterclockwise == (r >= 0.0), chord);
  }

  /**
   The centre of a radius arc has the distance of the radius from both ends. With a positive radius it lies on the
   left of a counterclockwise arc and on the right of a clockwise one, so that neither is longer than half a circle.
   */
  lemma CentreOfRadius(x: real, y: real, r: real, counterclockwise: bool, out: Outside)
    requires x != 0.0 || y != 0.0
    requires IsRoot(out, x * x + y * y) && IsRoot(out, 4.0 * r * r - x * x - y * y)
    ensures var (i, j) := Centre(x, y, r, counterclockwise, out);
            && IsCentre(x, y, r, i, j)
            && (if counterclockwise == (r >= 0.0) then Side(x, y, i, j) >= 0.0 else Side(x, y, i, j) <= 0.0)
  {
    var chord := x * x + y * y;
    SquareIsPositive(x, y, chord);
    CentreOfChord(x, y, r, counterclockwise, out, chord);
  }

  /** What the two distances say of a centre: its place along the chord, and how far off it. */
  lemma CentreParts(x: real, y: real, r: real, i: real, j: real)
    requires IsCentre(x, y, r, i, j)
    ensures x * i + y * j == 0.5 * (x * x + y * y)
    ensures Side(x, y, i, j) * Side(x, y, i, j) == (x * x + y * y) * (r * r) - 0.25 * ((x * x + y * y) * (x * x + y * y))
  {
    assert (x - i) * (x - i) + (y - j) * (y - j) == (x * x + y * y) - 2.0 * (x * i + y * j) + (i * i + j * j);
    var dot := x * i + y * j;
    var side := Side(x, y, i, j);
    assert side * side + dot * dot == (x * x + y * y) * (i * i + j * j) by {
      assert side * side == x * x * (j * j) - 2.0 * (x * i * (y * j)) + y * y * (i * i);
      assert dot * dot == x * x * (i * i) + 2.0 * (x * i * (y * j)) + y * y * (j * j);
    }
    assert dot * dot == 0.25 * ((x * x + y * y) * (x * x + y * y));
  }

  lemma SameSquare(a: real, b: real)
    requires a * a == b * b && ((a >= 0.0 && b >= 0.0) || (a <= 0.0 && b <= 0.0))
    ensures a == b
  {
    var d, sum := a - b, a + b;
    assert d * sum == 0.0;
    if d != 0.0 && sum != 0.0 {
      ProductIsNotZero(d, sum);
    }
  }

  lemma ProductIsNotZero(a: real, b: real)
    requires a != 0.0 && b != 0.0
    ensures a * b != 0.0
  {
    ProductSign(if a < 0.0 then -a else a, if b < 0.0 then -b else b,
                (if a < 0.0 then -a else a) * (if b < 0.0 then -b else b));
  }

  lemma SamePoint(x: real, y: real, i: real, j: real, u: real, v: real)
    requires x != 0.0 || y != 0.0
    requires x * i + y * j == x * u + y * v && x * j - y * i == x * v - y * u
    ensures i == u && j == v
  {
    var p := i - u;
    var q := j - v;
    assert x * p + y * q == 0.0;
    assert x * q - y * p == 0.0;
    var chord := x * x + y * y;
    SquareIsPositive(x, y, chord);
    assert chord * p == x * (x * p + y * q) - y * (x * q - y * p);
    assert chord * q == y * (x * p + y * q) + x * (x * q - y * p);
  }

  /** There is only one centre on either side. */
  lemma OnlyCentre(x: real, y: real, r: real, i: real, j: real, u: real, v: real)
    requires x != 0.0 || y != 0.0
    requires IsCentre(x, y, r, i, j) && IsCentre(x, y, r, u, v)
    requires (Side(x, y, i, j) >= 0.0 && Side(x, y, u, v) >= 0.0) || (Side(x, y, i, j) <= 0.0 && Side(x, y, u, v) <= 0.0)
    ensures i == u && j == v
  {
    CentreParts(x, y, r, i, j);
    CentreParts(x, y, r, u, v);
    SameSquare(Side(x, y, i, j), Side(x, y, u, v));
    SamePoint(x, y, i, j, u, v);
  }

  // ---------------------------------------------------------------------------
  // The arcs of accepted lines
  // ---------------------------------------------------------------------------

  lemma ArcWordsStay(s: State, m: Modal, b: Block, cs: Point, out: Outside)
    requires NonModalOf(b) !in {10, 28, 30, 92} && Aimed(s, m, b, cs, out).Success?
    ensures var p := Aimed(s, m, b, cs, out).value;
            && p.r == Value(b, 'R') && p.ijk == Vec(Value(b, 'I'), Value(b, 'J'), Value(b, 'K'))
            && ('R' in p.words <==> 'R' in b.values)
  {
  }

  /** The checks of the arc are those that the plan has passed. */
  lemma ArcPlanned(s: State, b: Block, out: Outside) returns (p: Progress)
    requires Coherent(b) && NamesAny(b) && NonModalOf(b) !in {10, 28, 30, 92} && Check(s, b, false, out).Success?
    requires ModalOf(s.modal, b, false).motion in {2, 3}
    ensures p.r == Value(b, 'R') && p.ijk == Vec(Value(b, 'I'), Value(b, 'J'), Value(b, 'K'))
    ensures 'R' in p.words <==> 'R' in b.values
    ensures var plan := Check(s, b, false, out).value;
            plan.modal == ModalOf(s.modal, b, false) && ArcChecked(s, plan.modal, b, p, out) == Success(plan.end)
  {
    CheckedParts(s, b, false, out);
    MotionPlanned(s, b, out);
    var m := ModalOf(s.modal, b, false);
    var plan := Check(s, b, false, out).value;
    p := Aimed(s, m, b, plan.coordSystem, out).value;
    AimedLeaves(s, m, b, plan.coordSystem, out);
    ArcWordsStay(s, m, b, plan.coordSystem, out);
    ArcOfMotion(s, m, b, p, plan.feed, out);
  }

  lemma ArcOfMotion(s: State, m: Modal, b: Block, p: Progress, feed: real, out: Outside)
    requires m.motion in {2, 3} && MotionChecked(s, m, b, p, feed, out).Success?
    requires p.axisCommand == MotionMode
    ensures MotionChecked(s, m, b, p, feed, out) == ArcChecked(s, m, b, p, out)
  {
  }

  /** A length of the line in millimeters. */
  function Millimeters(units: int, v: real): real {
    if units == 1 then v * 25.4 else v
  }

  /**
   (i, j) is the centre of a circle through the start and the target at (x, y), on the side that makes a positive
   radius the short way; if both ends are the same point, there is none.
   */
  ghost predicate IsCircle(x: real, y: real, radius: real, counterclockwise: bool, out: Outside, i: real, j: real) {
    && x * x + y * y <= 4.0 * radius * radius
    && ((x != 0.0 || y != 0.0) && IsRoot(out, x * x + y * y) && IsRoot(out, 4.0 * radius * radius - x * x - y * y) ==>
          && IsCentre(x, y, radius, i, j)
          && (if counterclockwise == (radius >= 0.0) then Side(x, y, i, j) >= 0.0 else Side(x, y, i, j) <= 0.0))
    && (x == 0.0 && y == 0.0 && IsRoot(out, 0.0) ==> i == j == out.notANumber)
  }

  ghost predicate IsRadiusArc(start: Point, a: Action, radius: real, counterclockwise: bool, out: Outside)
    requires a.Arc?
  {
    && a.radius == (if radius < 0.0 then -radius else radius)
    && IsCircle(a.target.x - start.x, a.target.y - start.y, radius, counterclockwise, out, a.centre.x, a.centre.y)
  }

  /** What an arc with a radius passes on, for its way (x, y) and its radius r in millimeters. */
  lemma RadiusArcParts(s: State, m: Modal, b: Block, p: Progress, out: Outside, x: real, y: real, r: real)
    requires ArcChecked(s, m, b, p, out).Success? && 'R' in p.words
    requires x == p.xyz.x - s.position.x && y == p.xyz.y - s.position.y && r == Millimeters(m.units, p.r)
    ensures var q := ArcChecked(s, m, b, p, out).value;
            && q.xyz == p.xyz && q.r == (if r < 0.0 then -r else r)
            && Discriminant(x, y, r) >= 0.0
            && (q.ijk.x, q.ijk.y) == Centre(x, y, r, m.motion == 3, out)
  {
  }

  lemma RadiusArcChecked(s: State, m: Modal, b: Block, p: Progress, out: Outside, a: Action)
    requires ArcChecked(s, m, b, p, out).Success? && 'R' in p.words && p.r == Value(b, 'R') && a.Arc?
    requires var q := ArcChecked(s, m, b, p, out).value; a.target == q.xyz && a.centre == q.ijk && a.radius == q.r
    ensures IsRadiusArc(s.position, a, Millimeters(m.units, Value(b, 'R')), m.motion == 3, out)
  {
    var x, y := p.xyz.x - s.position.x, p.xyz.y - s.position.y;
    var r := Millimeters(m.units, p.r);
    RadiusArcParts(s, m, b, p, out, x, y, r);
    CircleOfParts(x, y, r, m.motion == 3, out, a.centre.x, a.centre.y);
    assert x == a.target.x - s.position.x && y == a.target.y - s.position.y;
  }

  lemma CircleOfParts(x: real, y: real, r: real, counterclockwise: bool, out: Outside, i: real, j: real)
    requires Discriminant(x, y, r) >= 0.0 && (i, j) == Centre(x, y, r, counterclockwise, out)
    ensures IsCircle(x, y, r, counterclockwise, out, i, j)
  {
    if (x != 0.0 || y != 0.0) && IsRoot(out, x * x + y * y) && IsRoot(out, 4.0 * r * r - x * x - y * y) {
      CentreOfRadius(x, y, r, counterclockwise, out);
    }
    if x == 0.0 && y == 0.0 && IsRoot(out, 0.0) {
      RootOfZero(x, y, out);
    }
  }

  lemma RootOfZero(x: real, y: real, out: Outside)
    requires x == 0.0 && y == 0.0 && IsRoot(out, 0.0)
    ensures Hypot(out, x, y) == 0.0
  {
    if out.root(0.0) > 0.0 { ProductSign(out.root(0.0), out.root(0.0), 0.0); }
  }

  /** What the line of an arc makes of its motion. */
  lemma ArcOfLine(s: State, line: Input, c: (int, int)) returns (b: Block, p: Progress)
    requires !line.jog && ExecuteLine(s, line).status == Accepted && c in {(2, 0), (3, 0)}
    requires InMotionMode(s, line.words, c) && NamesAxis(line.words) && AxesAreFree(line.words)
    ensures Import(Empty, line.words) == Success(b)
    ensures p.r == Value(b, 'R') && p.ijk == Vec(Value(b, 'I'), Value(b, 'J'), Value(b, 'K'))
    ensures 'R' in p.words <==> 'R' in b.values
    ensures var r := ExecuteLine(s, line);
            && r.actions != []
            && var a := r.actions[|r.actions| - 1];
            && a.Arc? && a.clockwise == (c == (2, 0)) && r.state.modal.motion == (if c == (2, 0) then 2 else 3)
            && ArcChecked(s, r.state.modal, b, p, line.out).Success?
            && var q := ArcChecked(s, r.state.modal, b, p, line.out).value;
            a.target == q.xyz && a.centre == q.ijk && a.radius == q.r
  {
    RefusedImport(Empty, line.words);
    b := Import(Empty, line.words).value;
    ImportIsCoherent(Empty, line.words);
    ModeOfLine(s, line.words, b, c);
    AxesOfLine(line.words, b);
    FreeOfLine(line.words, b);
    ExecutedLine(s, line, b);
    MotionPlanned(s, b, line.out);
    p := ArcPlanned(s, b, line.out);
    MotionIsLast(s, b, Check(s, b, false, line.out).value, line.out);
    StateIsSettled(s, b, Check(s, b, false, line.out).value, line.out);
  }

  /**
   An arc with an R word runs on the circle of that radius through both ends, the short way round exactly when the
   radius is positive; the centre of that circle is the only one (OnlyCentre). A chord longer than twice the radius
   is refused. If the target lies straight above or below the start, the line is accepted without any centre.
   */
  lemma RadiusArcIsCircle(s: State, line: Input, c: (int, int), r: real)
    requires !line.jog && ExecuteLine(s, line).status == Accepted && c in {(2, 0), (3, 0)}
    requires InMotionMode(s, line.words, c) && NamesAxis(line.words) && AxesAreFree(line.words)
    requires Word('R', r) in line.words
    ensures var done := ExecuteLine(s, line);
            && done.actions != []
            && var a := done.actions[|done.actions| - 1];
            a.Arc? && IsRadiusArc(s.position, a, Millimeters(done.state.modal.units, r), c == (3, 0), line.out)
  {
    var b, p := ArcOfLine(s, line, c);
    WordSetsValue(line.words, b, 'R');
    var done := ExecuteLine(s, line);
    RadiusArcChecked(s, done.state.modal, b, p, line.out, done.actions[|done.actions| - 1]);
  }

  /** How far it is to (x, y). */
  ghost function Far(out: Outside, x: real, y: real): real {
    out.root(x * x + y * y)
  }

  lemma FarIsHypot(out: Outside, x: real, y: real)
    ensures Far(out, x, y) == Hypot(out, x, y)
  {
  }

  /** The centre of an arc with I or J words is where they say, and nearly as far from the target as from the start. */
  ghost predicate IsCentreArc(start: Point, a: Action, i: real, j: real, out: Outside)
    requires a.Arc?
  {
    var x, y := a.target.x - start.x, a.target.y - start.y;
    var far := Far(out, x - i, y - j);
    && a.centre.x == i && a.centre.y == j && a.radius == Far(out, i, j)
    && (|| -0.005 <= far - a.radius <= 0.005
        || (-0.5 <= far - a.radius <= 0.5 && -0.001 * a.radius <= far - a.radius <= 0.001 * a.radius))
  }

  lemma CentreArcChecked(s: State, m: Modal, b: Block, p: Progress, out: Outside, a: Action)
    requires ArcChecked(s, m, b, p, out).Success? && 'R' !in p.words && a.Arc?
    requires p.ijk == Vec(Value(b, 'I'), Value(b, 'J'), Value(b, 'K'))
    requires var q := ArcChecked(s, m, b, p, out).value; a.target == q.xyz && a.centre == q.ijk && a.radius == q.r
    ensures IsCentreArc(s.position, a, Millimeters(m.units, Value(b, 'I')), Millimeters(m.units, Value(b, 'J')), out)
    ensures 'I' in b.values || 'J' in b.values
  {
    var i, j := Millimeters(m.units, Value(b, 'I')), Millimeters(m.units, Value(b, 'J'));
    var x, y := p.xyz.x - s.position.x, p.xyz.y - s.position.y;
    assert Length(m, p.ijk.x) == i && Length(m, p.ijk.y) == j;
    FarIsHypot(out, i, j);
    FarIsHypot(out, x - i, y - j);
  }

  /** An arc without an R word has an I or a J word; a missing one of the two is zero. */
  lemma CentreArcIsNear(s: State, line: Input, c: (int, int))
    requires !line.jog && ExecuteLine(s, line).status == Accepted && c in {(2, 0), (3, 0)}
    requires InMotionMode(s, line.words, c) && NamesAxis(line.words) && AxesAreFree(line.words)
    requires forall r :: Word('R', r) !in line.words
    ensures var done := ExecuteLine(s, line);
            && done.actions != []
            && var a := done.actions[|done.actions| - 1];
            && a.Arc?
            && exists i, j ::
                 && (Word('I', i) in line.words || (i == 0.0 && forall v :: Word('I', v) !in line.words))
                 && (Word('J', j) in line.words || (j == 0.0 && forall v :: Word('J', v) !in line.words))
                 && (Word('I', i) in line.words || Word('J', j) in line.words)
                 && IsCentreArc(s.position, a, Millimeters(done.state.modal.units, i), Millimeters(done.state.modal.units, j), line.out)
  {
    var b, p := ArcOfLine(s, line, c);
    WordSetsValue(line.words, b, 'R');
    WordSetsValue(line.words, b, 'I');
    WordSetsValue(line.words, b, 'J');
    var done := ExecuteLine(s, line);
    CentreArcChecked(s, done.state.modal, b, p, line.out, done.actions[|done.actions| - 1]);
  }
}
