/** Planner blocks: their contents, their speed limits, and planning over a queue of them. */
module Blocks {
  import opened Axes
  import opened PlannerTheory

  const BLOCK_BUFFER_SIZE := 12
  const MINIMUM_FEED_RATE := 1.0

  /** plan_block_t. Speeds that the planner compares are squared. */
  datatype PlanBlock = PlanBlock(
    steps: Vec<nat>,
    stepEventCount: nat,
    negative: Vec<bool>,
    line: LineData,
    entrySqr: real,
    maxEntrySqr: real,
    acceleration: real,
    millimeters: real,
    maxJunctionSqr: real,
    rapidRate: real,
    programmedRate: real)

  /** plan_line_data_t: what the caller asks of a line. */
  datatype LineData = LineData(
    feedRate: real,
    rapidMotion: bool,
    systemMotion: bool,
    noFeedOverride: bool,
    inverseTime: bool)

  /** Results of the vector arithmetic on the line, which this model takes as given. */
  datatype Geometry = Geometry(millimeters: real, acceleration: real, rapidRate: real, junctionSqr: real)

  datatype Overrides = Overrides(feed: nat, rapid: nat)

  predicate Possible(g: Geometry) {
    g.millimeters > 0.0 && g.acceleration > 0.0 && g.rapidRate > 0.0 && g.junctionSqr >= 0.0
  }

  /** The speed a block runs at under the current overrides. */
  function NominalSpeed(b: PlanBlock, o: Overrides): (r: real)
    ensures r >= 1.0
    ensures !b.line.rapidMotion ==> r <= b.rapidRate || r == 1.0
  {
    var speed :=
      if b.line.rapidMotion then b.programmedRate * (0.01 * o.rapid as real)
      else
        var fed := if b.line.noFeedOverride then b.programmedRate else b.programmedRate * (0.01 * o.feed as real);
        if fed > b.rapidRate then b.rapidRate else fed;
    if speed > MINIMUM_FEED_RATE then speed else MINIMUM_FEED_RATE
  }

  /** The override that applies to a block, in percent: that of rapids to rapids, that of feeds to feeds, unless they refuse it. */
  function Percent(b: PlanBlock, o: Overrides): nat {
    if b.line.rapidMotion then o.rapid else if b.line.noFeedOverride then 100 else o.feed
  }

  /**
   The programmed rate, scaled by its override, is what a block runs at, as long as this is at least 1 and for
   feed moves no more than the rapid rate; otherwise the block runs at the bound that is missed, and at 1 at
   least. The other override does not matter.
   */
  lemma NominalSpeedExactly(b: PlanBlock, o: Overrides)
    ensures var wanted := b.programmedRate * Percent(b, o) as real / 100.0;
            var capped := !b.line.rapidMotion && wanted > b.rapidRate;
            && (1.0 <= wanted && !capped ==> NominalSpeed(b, o) == wanted)
            && (wanted <= 1.0 ==> NominalSpeed(b, o) == 1.0)
            && (capped && b.rapidRate >= 1.0 ==> NominalSpeed(b, o) == b.rapidRate)
            && (capped && b.rapidRate <= 1.0 ==> NominalSpeed(b, o) == 1.0)
  {
    Hundredths(b.programmedRate, Percent(b, o));
  }

  lemma Hundredths(rate: real, percent: nat)
    ensures rate * (0.01 * percent as real) == rate * percent as real / 100.0
    ensures percent == 100 ==> rate * percent as real / 100.0 == rate
  {
  }

  /** At 100 percent a block runs at its programmed rate, between the minimum and the limit of its direction. */
  lemma FullSpeedIsProgrammed(b: PlanBlock)
    requires 1.0 <= b.programmedRate && (b.line.rapidMotion || b.programmedRate <= b.rapidRate)
    ensures NominalSpeed(b, Overrides(100, 100)) == b.programmedRate
  {
    NominalSpeedExactly(b, Overrides(100, 100));
    Hundredths(b.programmedRate, 100);
  }

  /** Each override is for its own kind of move. */
  lemma OtherOverrideIsFree(b: PlanBlock, o: Overrides, feed: nat, rapid: nat)
    ensures b.line.rapidMotion ==> NominalSpeed(b, o.(feed := feed)) == NominalSpeed(b, o)
    ensures !b.line.rapidMotion ==> NominalSpeed(b, o.(rapid := rapid)) == NominalSpeed(b, o)
    ensures !b.line.rapidMotion && b.line.noFeedOverride ==> NominalSpeed(b, o.(feed := feed)) == NominalSpeed(b, o)
  {
  }

  /** No move is faster than the rapid rate of its direction, where that is at least 1. */
  lemma NeverFasterThanRapid(b: PlanBlock, o: Overrides)
    requires b.rapidRate >= 1.0
    requires b.line.rapidMotion ==> b.programmedRate == b.rapidRate && o.rapid <= 100
    ensures NominalSpeed(b, o) <= b.rapidRate && NominalSqr(b, o) <= Square(b.rapidRate)
  {
    RapidBound(b, o);
    SquareOrder(NominalSpeed(b, o), b.rapidRate);
  }

  lemma RapidBound(b: PlanBlock, o: Overrides)
    requires b.rapidRate >= 1.0
    requires b.line.rapidMotion ==> b.programmedRate == b.rapidRate && o.rapid <= 100
    ensures NominalSpeed(b, o) <= b.rapidRate
  {
    if b.line.rapidMotion {
      NominalSpeedExactly(b, o);
      ScaledDown(b.programmedRate, Percent(b, o));
    }
  }

  lemma ScaledDown(rate: real, percent: nat)
    requires rate >= 0.0 && percent <= 100
    ensures rate * percent as real / 100.0 <= rate
  {
    assert rate * (100.0 - percent as real) >= 0.0;
  }

  function Square(x: real): (r: real)
    ensures r >= 0.0
  {
    x * x
  }

  /** The entry limit: the slower of the two nominal speeds at the junction, and the junction itself. */
  function MaxEntrySqr(b: PlanBlock, nominal: real, prevNominal: real): (r: real)
    requires nominal >= 0.0 && prevNominal >= 0.0 && b.maxJunctionSqr >= 0.0
    ensures 0.0 <= r <= Square(nominal) && r <= Square(prevNominal) && r <= b.maxJunctionSqr
    ensures r == Square(nominal) || r == Square(prevNominal) || r == b.maxJunctionSqr
  {
    SquareOrder(nominal, prevNominal);
    var limit := if nominal > prevNominal then Square(prevNominal) else Square(nominal);
    if limit > b.maxJunctionSqr then b.maxJunctionSqr else limit
  }

  lemma SquareOrder(a: real, b: real)
    requires a >= 0.0 && b >= 0.0
    ensures a <= b ==> Square(a) <= Square(b)
    ensures b <= a ==> Square(b) <= Square(a)
  {
    assert (a - b) * (a + b) == a * a - b * b;
    if a <= b { assert (b - a) * (a + b) >= 0.0; } else { assert (a - b) * (a + b) >= 0.0; }
  }

  /**
   What a line asks for: a rapid runs at the limit of its direction; in inverse time mode the move takes the
   inverse of its feed rate, in minutes; otherwise the feed rate is the speed. The first block after a rest
   may not be entered at any speed.
   */
  lemma LineSpeeds(from: Vec<int>, target: Vec<int>, line: LineData, g: Geometry, atRest: bool)
    requires Possible(g)
    ensures var b := NewBlock(from, target, line, g, atRest);
            && b.millimeters == g.millimeters && b.acceleration == g.acceleration && b.rapidRate == g.rapidRate
            && (line.rapidMotion ==> b.programmedRate == g.rapidRate)
            && (!line.rapidMotion && line.inverseTime ==> b.programmedRate / b.millimeters == line.feedRate)
            && (!line.rapidMotion && !line.inverseTime ==> b.programmedRate == line.feedRate)
            && b.maxJunctionSqr == (if atRest then 0.0 else g.junctionSqr) && b.line == line
  {
    Quotient(line.feedRate, g.millimeters);
  }

  lemma Quotient(x: real, y: real)
    requires y > 0.0
    ensures x * y / y == x
  {
  }

  /** The block that plan_buffer_line lays down, before its entry limit is known. */
  function NewBlock(from: Vec<int>, target: Vec<int>, line: LineData, g: Geometry, atRest: bool): (b: PlanBlock)
    ensures b.steps.x <= b.stepEventCount && b.steps.y <= b.stepEventCount && b.steps.z <= b.stepEventCount
    ensures b.stepEventCount in {b.steps.x, b.steps.y, b.steps.z}
    ensures b.stepEventCount == 0 <==> from == target
    ensures forall a: Axis :: from.At(a) + Signed(b.negative.At(a), b.steps.At(a)) == target.At(a)
  {
    var steps := Vec(Abs(target.x - from.x), Abs(target.y - from.y), Abs(target.z - from.z));
    PlanBlock(
      steps,
      Max3(steps.x, steps.y, steps.z),
      Vec(target.x < from.x, target.y < from.y, target.z < from.z),
      line,
      0.0,
      0.0,
      g.acceleration,
      g.millimeters,
      if atRest then 0.0 else g.junctionSqr,
      g.rapidRate,
      if line.rapidMotion then g.rapidRate
      else if line.inverseTime then line.feedRate * g.millimeters
      else line.feedRate)
  }

  /** The new block with its entry limit, as it enters the queue. */
  function PlannedBlock(from: Vec<int>, target: Vec<int>, line: LineData, g: Geometry, atRest: bool,
                        o: Overrides, prevNominal: real): (b: PlanBlock)
    requires Possible(g) && prevNominal >= 0.0
    ensures b == NewBlock(from, target, line, g, atRest).(maxEntrySqr := b.maxEntrySqr)
    ensures b.maxEntrySqr >= 0.0 && (atRest ==> b.maxEntrySqr == 0.0)
    ensures b.maxEntrySqr <= NominalSqr(b, o) && b.maxEntrySqr <= Square(prevNominal)
  {
    var b := NewBlock(from, target, line, g, atRest);
    b.(maxEntrySqr := MaxEntrySqr(b, NominalSpeed(b, o), prevNominal))
  }

  /** The planner's own writes, to entry speed and entry limit, leave the nominal speed alone. */
  lemma NominalIgnoresEntry(b: PlanBlock, entry: real, limit: real, o: Overrides)
    ensures NominalSpeed(b.(entrySqr := entry, maxEntrySqr := limit), o) == NominalSpeed(b, o)
  {
  }

  function NominalSqr(b: PlanBlock, o: Overrides): real {
    Square(NominalSpeed(b, o))
  }

  /** plan_update_velocity_profile_parameters: the limits of every block under new overrides. */
  function Relimit(bs: seq<PlanBlock>, o: Overrides, prevNominal: real): (r: seq<PlanBlock>)
    requires prevNominal >= 0.0 && forall b | b in bs :: b.maxJunctionSqr >= 0.0
    ensures |r| == |bs|
    ensures forall i {:trigger r[i]} :: 0 <= i < |r| ==> r[i] == bs[i].(maxEntrySqr := r[i].maxEntrySqr)
  {
    if bs == [] then []
    else
      var nominal := NominalSpeed(bs[0], o);
      [bs[0].(maxEntrySqr := MaxEntrySqr(bs[0], nominal, prevNominal))] + Relimit(bs[1..], o, nominal)
  }

  const SOME_LARGE_VALUE := 1.0e38

  function LastNominal(bs: seq<PlanBlock>, o: Overrides): (r: real)
    ensures r >= 0.0
  {
    if bs == [] then SOME_LARGE_VALUE else NominalSpeed(bs[|bs| - 1], o)
  }

  // ---------------------------------------------------------------------------
  // Planning over blocks
  // ---------------------------------------------------------------------------

  /** The change of squared speed that full acceleration achieves over what is left of the block. */
  function Reach(b: PlanBlock): (r: real)
    ensures b.acceleration >= 0.0 && b.millimeters >= 0.0 ==> r >= 0.0
  {
    2.0 * b.acceleration * b.millimeters
  }

  function LegOf(b: PlanBlock): Leg {
    Leg(b.entrySqr, b.maxEntrySqr, Reach(b))
  }

  lemma EntryOnly(b: PlanBlock, entry: real)
    ensures LegOf(b.(entrySqr := entry)) == LegOf(b).(entry := entry)
  {
  }

  function Legs(bs: seq<PlanBlock>): (legs: seq<Leg>)
    ensures |legs| == |bs|
    ensures forall i {:trigger legs[i]} :: 0 <= i < |legs| ==> legs[i] == LegOf(bs[i])
  {
    seq(|bs|, i requires 0 <= i < |bs| => LegOf(bs[i]))
  }

  function WithEntries(bs: seq<PlanBlock>, legs: seq<Leg>): (r: seq<PlanBlock>)
    requires |legs| == |bs|
    ensures |r| == |bs|
    ensures forall i {:trigger r[i]} :: 0 <= i < |r| ==> r[i] == bs[i].(entrySqr := legs[i].entry)
  {
    seq(|bs|, i requires 0 <= i < |bs| => bs[i].(entrySqr := legs[i].entry))
  }

  /** Writing an entry speed into a block is writing it into its leg. */
  lemma LegsUpdate(w: seq<PlanBlock>, k: nat, entry: real)
    requires k < |w|
    ensures Legs(w[k := w[k].(entrySqr := entry)]) == Legs(w)[k := Legs(w)[k].(entry := entry)]
  {
    EntryOnly(w[k], entry);
  }

  lemma LegsOfEntries(bs: seq<PlanBlock>, legs: seq<Leg>)
    requires SameLimits(legs, Legs(bs))
    ensures Legs(WithEntries(bs, legs)) == legs
  {
    forall i: nat | i < |bs| ensures Legs(WithEntries(bs, legs))[i] == legs[i] {
      EntryOnly(bs[i], legs[i].entry);
      assert Legs(bs)[i] == LegOf(bs[i]);
    }
  }

  /** The planner's two passes over a queue of blocks whose planned pointer stands at block `p`. */
  function ReplanBlocks(bs: seq<PlanBlock>, p: nat): (r: (seq<PlanBlock>, nat))
    requires |bs| > 0 ==> p < |bs|
    ensures |r.0| == |bs|
    ensures |bs| > 0 ==> p <= r.1 < |bs|
    ensures forall i {:trigger r.0[i]} :: 0 <= i < |bs| ==> r.0[i] == bs[i].(entrySqr := r.0[i].entrySqr)
  {
    var (legs, q) := Replan(Legs(bs), p);
    (WithEntries(bs, legs), q)
  }

  /**
   planner_recalculate on a queue: if the replan starts at the tail and the step generator has
   the tail taken, the tail's entry speed becomes its current speed first.
   */
  function RecalculateQueue(bs: seq<PlanBlock>, p: nat, taken: bool, currentSqr: real): (r: (seq<PlanBlock>, nat))
    requires |bs| > 0 ==> p < |bs|
    ensures |r.0| == |bs|
    ensures |bs| > 0 ==> p <= r.1 < |bs|
  {
    if p + 1 >= |bs| then (bs, p)
    else ReplanBlocks(if p == 0 && taken then bs[0 := bs[0].(entrySqr := currentSqr)] else bs, p)
  }

  /** The exit speed of the first block: the entry speed of the next, or rest. */
  function ExitSqr(bs: seq<PlanBlock>): real {
    if |bs| > 1 then bs[1].entrySqr else 0.0
  }

  // ---------------------------------------------------------------------------
  // Passes keep speeds non-negative
  // ---------------------------------------------------------------------------

  lemma {:induction false} ReversePassNonNegative(legs: seq<Leg>, i: nat, p: nat)
    requires p <= i && i + 1 < |legs| && WellFormed(legs)
    ensures WellFormed(ReversePass(legs, i, p))
    decreases i
  {
    if i > p { ReversePassNonNegative(ReverseStep(legs, i), i - 1, p); }
  }

  lemma {:induction false} ForwardPassNonNegative(legs: seq<Leg>, i: nat, planned: nat)
    requires 1 <= i <= |legs| && planned < i && WellFormed(legs)
    ensures WellFormed(ForwardPass(legs, i, planned).0)
    decreases |legs| - i
  {
    if i < |legs| {
      ForwardPassNonNegative(legs[i := ForwardStep(legs, i)], i + 1, if LocksAt(legs, i) then i else planned);
    }
  }

  lemma ReplanNonNegative(legs: seq<Leg>, p: nat)
    requires |legs| > 0 ==> p < |legs|
    requires WellFormed(legs)
    ensures WellFormed(Replan(legs, p).0)
  {
    if p + 1 < |legs| {
      ReversePassNonNegative(BrakeLast(legs), |legs| - 2, p);
      ForwardPassNonNegative(ReversePass(BrakeLast(legs), |legs| - 2, p), p + 1, p);
    }
  }
}
