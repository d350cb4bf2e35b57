/**
 The Bresenham tracer of the step interrupt, on one axis.

 A block with `events` step events and `steps` steps on the axis is traced on data shifted
 left by MAX_AMASS_LEVEL. A tick at smoothing level L adds the shifted step count divided by
 2^L, so 2^L ticks make one step event. The level may change between any two step events.
 */
module Bresenham {

  const MAX_AMASS_LEVEL := 3
  const UINT32 := 0x1_0000_0000

  /** Blocks below this many step events never overflow the 32-bit counters; see AnyLevelsExactly for the exact bounds. */
  const MAX_EVENTS := 0x1000_0000

  function Pow2(level: nat): nat
    requires level <= MAX_AMASS_LEVEL
  {
    if level == 0 then 1 else if level == 1 then 2 else if level == 2 then 4 else 8
  }

  /** How much of a step event one tick performs, in eighths. */
  function Weight(level: nat): nat
    requires level <= MAX_AMASS_LEVEL
  {
    Pow2(MAX_AMASS_LEVEL - level)
  }

  /** Left shift of 32-bit step data by MAX_AMASS_LEVEL. */
  function Shifted(n: nat): nat {
    (n * 8) % UINT32
  }

  /** The counter of one axis after adding `increment`, and whether the axis steps. */
  function Tick(counter: nat, increment: nat, total: nat): (nat, bool)
  {
    var c := (counter + increment) % UINT32;
    if c > total then (c - total, true) else (c, false)
  }

  /** The increment of one tick at the given level. */
  function Increment(shiftedSteps: nat, level: nat): nat
    requires level <= MAX_AMASS_LEVEL
  {
    shiftedSteps / Pow2(level)
  }

  /**
   After `t` eighths of step events, of which `fired` axis steps were emitted, the counter is
   half a block plus the exact residue, and it stays in (0, total].
   */
  ghost predicate Exact(counter: int, steps: nat, events: nat, t: nat, fired: nat) {
    && counter == 4 * events + steps * t - 8 * events * fired
    && 0 < counter <= 8 * events
  }

  predicate Traceable(steps: nat, events: nat) {
    steps <= events && 1 <= events < MAX_EVENTS
  }

  lemma IncrementIsWeight(steps: nat, events: nat, level: nat)
    requires steps <= events <= MAX_EVENTS && level <= MAX_AMASS_LEVEL
    ensures Shifted(steps) == 8 * steps && Shifted(events) == 8 * events
    ensures Shifted(events) / 2 == 4 * events
    ensures Increment(Shifted(steps), level) == steps * Weight(level) <= 8 * events
  {
    match level
    case 0 => case 1 => case 2 => case 3 =>
  }

  /** The counters that a new block starts with. */
  lemma StartIsExact(steps: nat, events: nat)
    requires Traceable(steps, events)
    ensures Exact(Shifted(events) / 2, steps, events, 0, 0)
  {
  }

  lemma Distributes(a: int, x: int, y: int)
    ensures a * (x + y) == a * x + a * y
  {
  }

  /** A tick's effect on the exact residue. */
  lemma ExactMoves(counter: int, steps: nat, events: nat, t: nat, fired: nat, w: nat)
    requires Exact(counter, steps, events, t, fired) && 0 <= steps * w <= 8 * events
    ensures var c := counter + steps * w;
            if c > 8 * events then Exact(c - 8 * events, steps, events, t + w, fired + 1)
            else Exact(c, steps, events, t + w, fired)
  {
    Distributes(steps, t, w);
    Distributes(8 * events, fired, 1);
  }

  lemma PlainTick(counter: nat, increment: nat, total: nat)
    requires counter + increment < UINT32
    ensures Tick(counter, increment, total) ==
              if counter + increment > total then (counter + increment - total, true) else (counter + increment, false)
  {
  }

  lemma TickOf(counter: nat, steps: nat, events: nat, level: nat)
    requires steps <= events <= MAX_EVENTS && level <= MAX_AMASS_LEVEL && counter + steps * Weight(level) < UINT32
    ensures var c := counter + steps * Weight(level);
            Tick(counter, Increment(Shifted(steps), level), Shifted(events)) ==
              (if c > 8 * events then (c - 8 * events, true) else (c, false))
    ensures steps * Weight(level) <= 8 * events
  {
    IncrementIsWeight(steps, events, level);
    PlainTick(counter, steps * Weight(level), 8 * events);
  }

  /** A tick that does not overflow the counter. */
  lemma TickWithoutWrap(counter: nat, steps: nat, events: nat, t: nat, fired: nat, level: nat)
    requires steps <= events <= MAX_EVENTS && level <= MAX_AMASS_LEVEL
    requires Exact(counter, steps, events, t, fired) && counter + steps * Weight(level) < UINT32
    ensures var (c, stepped) := Tick(counter, Increment(Shifted(steps), level), Shifted(events));
            Exact(c, steps, events, t + Weight(level), if stepped then fired + 1 else fired)
  {
    TickOf(counter, steps, events, level);
    ExactMoves(counter, steps, events, t, fired, Weight(level));
  }

  lemma TickIsExact(counter: nat, steps: nat, events: nat, t: nat, fired: nat, level: nat)
    requires Traceable(steps, events) && level <= MAX_AMASS_LEVEL
    requires Exact(counter, steps, events, t, fired)
    ensures var (c, stepped) := Tick(counter, Increment(Shifted(steps), level), Shifted(events));
            Exact(c, steps, events, t + Weight(level), if stepped then fired + 1 else fired)
  {
    IncrementIsWeight(steps, events, level);
    TickWithoutWrap(counter, steps, events, t, fired, level);
  }

  lemma OneMoreStep(events: nat, fired: nat, fired': nat)
    requires fired < fired'
    ensures 8 * events * fired + 8 * events <= 8 * events * fired'
  {
    var d := fired' - fired - 1;
    assert fired' == fired + 1 + d;
    assert 8 * events * fired' == 8 * events * fired + 8 * events + 8 * events * d;
    assert events * d >= 0;
  }

  /** The residue determines how many steps were emitted. */
  lemma ExactIsUnique(c: int, c': int, steps: nat, events: nat, t: nat, fired: nat, fired': nat)
    requires Exact(c, steps, events, t, fired) && Exact(c', steps, events, t, fired')
    ensures fired == fired' && c == c'
  {
    if fired < fired' {
      OneMoreStep(events, fired, fired');
    } else if fired' < fired {
      OneMoreStep(events, fired', fired);
    }
  }

  /** A completed block has emitted exactly its steps, and its counter is back where it began. */
  lemma CompletedIsExact(counter: int, steps: nat, events: nat, fired: nat)
    requires Exact(counter, steps, events, 8 * events, fired)
    ensures fired == steps && counter == 4 * events
  {
    assert steps * (8 * events) == 8 * events * steps;
    ExactIsUnique(counter, 4 * events, steps, events, 8 * events, fired, steps);
  }

  // ---------------------------------------------------------------------------
  // Whole traces: one smoothing level per tick
  // ---------------------------------------------------------------------------

  predicate Levels(levels: seq<nat>) {
    forall i | 0 <= i < |levels| :: levels[i] <= MAX_AMASS_LEVEL
  }

  /** Eighths of step events performed. */
  function Progress(levels: seq<nat>): nat
    requires Levels(levels)
  {
    if levels == [] then 0 else Progress(levels[..|levels| - 1]) + Weight(levels[|levels| - 1])
  }

  /** Counter and emitted steps after the ticks, starting a new block. */
  function Trace(steps: nat, events: nat, levels: seq<nat>): (nat, nat)
    requires Levels(levels)
  {
    if levels == [] then (Shifted(events) / 2, 0)
    else
      var n := |levels| - 1;
      var (counter, fired) := Trace(steps, events, levels[..n]);
      var (c, stepped) := Tick(counter, Increment(Shifted(steps), levels[n]), Shifted(events));
      (c, if stepped then fired + 1 else fired)
  }

  lemma {:induction false} TraceIsExact(steps: nat, events: nat, levels: seq<nat>)
    requires Traceable(steps, events) && Levels(levels)
    ensures var (counter, fired) := Trace(steps, events, levels);
            Exact(counter, steps, events, Progress(levels), fired)
    decreases |levels|
  {
    if levels == [] {
      StartIsExact(steps, events);
    } else {
      var n := |levels| - 1;
      TraceIsExact(steps, events, levels[..n]);
      var (counter, fired) := Trace(steps, events, levels[..n]);
      TickIsExact(counter, steps, events, Progress(levels[..n]), fired, levels[n]);
    }
  }

  function Level0(k: nat): (levels: seq<nat>)
    ensures Levels(levels)
  {
    seq(k, _ => 0)
  }

  lemma {:induction false} Level0Progress(k: nat)
    ensures Progress(Level0(k)) == 8 * k
  {
    if k > 0 {
      Level0Progress(k - 1);
      assert Level0(k)[..k - 1] == Level0(k - 1);
    }
  }

  /**
   Smoothing refines plain Bresenham: whatever level each tick ran at, after k whole step
   events the axis stands where level 0 puts it after k ticks, with the same counter.
   */
  lemma SmoothingRefinesBresenham(steps: nat, events: nat, levels: seq<nat>, k: nat)
    requires Traceable(steps, events) && Levels(levels) && Progress(levels) == 8 * k
    ensures Trace(steps, events, levels) == Trace(steps, events, Level0(k))
    ensures k == events ==> Trace(steps, events, levels).1 == steps
  {
    Level0Progress(k);
    TraceIsExact(steps, events, levels);
    TraceIsExact(steps, events, Level0(k));
    var (c, fired) := Trace(steps, events, levels);
    var (c', fired') := Trace(steps, events, Level0(k));
    ExactIsUnique(c, c', steps, events, 8 * k, fired, fired');
    if k == events { CompletedIsExact(c, steps, events, fired); }
  }

  /**
   Half-step accuracy: after every tick, under any mix of levels, the axis is within half a
   step of the ideal line, which has reached steps * progress / (8 * events) by then.
   */
  lemma HalfStepAccurate(steps: nat, events: nat, levels: seq<nat>)
    requires Traceable(steps, events) && Levels(levels)
    ensures NearIdeal(steps, events, Progress(levels), Trace(steps, events, levels).1)
  {
    TraceIsExact(steps, events, levels);
    var (counter, fired) := Trace(steps, events, levels);
    ExactIsNear(counter, steps, events, Progress(levels), fired);
  }

  /** `fired` steps are within half a step of the ideal line after `t` eighths of step events. */
  ghost predicate NearIdeal(steps: nat, events: nat, t: nat, fired: nat)
    requires events > 0
  {
    var ideal := (steps * t) as real / (8 * events) as real;
    ideal - 0.5 <= fired as real < ideal + 0.5
  }

  lemma ExactIsNear(counter: int, steps: nat, events: nat, t: nat, fired: nat)
    requires events > 0 && Exact(counter, steps, events, t, fired)
    ensures NearIdeal(steps, events, t, fired)
  {
    NearLine(steps * t, 8 * events, fired, 8 * events * fired);
  }

  lemma NearLine(reached: nat, total: int, fired: nat, emitted: nat)
    requires total > 0 && emitted == total * fired
    requires -total < 2 * (reached - emitted) <= total
    ensures reached as real / total as real - 0.5 <= fired as real < reached as real / total as real + 0.5
  {
    assert emitted as real == fired as real * total as real;
    DivideBounds(reached as real, fired as real, total as real);
  }

  lemma DivideBounds(n: real, f: real, total: real)
    requires total > 0.0 && -0.5 * total < n - f * total <= 0.5 * total
    ensures n / total - 0.5 <= f < n / total + 0.5
  {
    var q := n / total;
    assert q * total == n;
    if f >= q + 0.5 {
      ScaleOrder(q + 0.5, f, total);
    }
    if f < q - 0.5 {
      ScaleOrder(f, q - 0.5, total);
    }
  }

  lemma ScaleOrder(a: real, b: real, total: real)
    requires a <= b && total > 0.0
    ensures a * total <= b * total
    ensures a < b ==> a * total < b * total
  {
    assert (b - a) * total >= 0.0;
    if a < b { assert (b - a) * total > 0.0; }
  }

  // ---------------------------------------------------------------------------
  // How many step events the 32-bit counters can take
  // ---------------------------------------------------------------------------

  /** The level changes only between two step events, as it does from segment to segment. */
  ghost predicate ChangesAtWholeEvents(levels: seq<nat>)
    requires Levels(levels)
  {
    forall n: nat {:trigger levels[..n]} | 0 < n < |levels| && levels[n] != levels[n - 1] ::
      Progress(levels[..n]) % 8 == 0
  }

  ghost predicate TraceExact(steps: nat, events: nat, levels: seq<nat>)
    requires Levels(levels)
  {
    var (counter, fired) := Trace(steps, events, levels);
    Exact(counter, steps, events, Progress(levels), fired)
  }

  /** Whatever the steps of an axis and the level of each tick, a block of this size is traced exactly. */
  ghost predicate AlwaysExact(events: nat) {
    forall steps: nat, levels: seq<nat> | steps <= events && Levels(levels) :: TraceExact(steps, events, levels)
  }

  /** The same with levels that change only between step events. */
  ghost predicate ExactBySegments(events: nat) {
    forall steps: nat, levels: seq<nat> | steps <= events && Levels(levels) && ChangesAtWholeEvents(levels) ::
      TraceExact(steps, events, levels)
  }

  lemma {:induction false} LevelZeroIsWhole(levels: seq<nat>, n: nat)
    requires Levels(levels) && ChangesAtWholeEvents(levels) && n < |levels| && levels[n] == 0
    ensures Progress(levels[..n]) % 8 == 0
  {
    if n > 0 {
      assert levels[..n][..n - 1] == levels[..n - 1];
      if levels[n] == levels[n - 1] { LevelZeroIsWhole(levels, n - 1); }
    }
  }

  lemma Ordered(e: nat, x: int, y: int)
    ensures x <= y ==> e * x <= e * y
  {
  }

  lemma WholeMultiple(e: nat, t: nat, fired: nat)
    requires e > 0 && t % 8 == 0 && 0 < 4 * e + e * t - 8 * e * fired <= 8 * e
    ensures e * t == 8 * e * fired
  {
    var k := t / 8;
    assert t == 8 * k && e * t == 8 * (e * k) && 8 * e * fired == 8 * (e * fired);
    var d: int := k - fired;
    assert e * k - e * fired == e * d;
    Ordered(e, 1, d);
    Ordered(e, d, -1);
  }

  /** At the bound, a tick overflows only if it takes a whole step event at once in the middle of one. */
  lemma TickAtBound(counter: nat, steps: nat, t: nat, fired: nat, level: nat)
    requires steps <= MAX_EVENTS && level <= MAX_AMASS_LEVEL && (level == 0 ==> t % 8 == 0)
    requires Exact(counter, steps, MAX_EVENTS, t, fired)
    ensures counter + steps * Weight(level) < UINT32
  {
    if level == 0 && steps == MAX_EVENTS { WholeMultiple(MAX_EVENTS, t, fired); }
  }

  lemma PrefixChanges(levels: seq<nat>, n: nat)
    requires Levels(levels) && ChangesAtWholeEvents(levels) && n <= |levels|
    ensures Levels(levels[..n]) && ChangesAtWholeEvents(levels[..n])
  {
    assert forall k: nat {:trigger levels[..n][..k]} | k <= n :: levels[..n][..k] == levels[..k];
  }

  lemma OneMoreTick(steps: nat, events: nat, levels: seq<nat>)
    requires steps <= events <= MAX_EVENTS && Levels(levels) && levels != []
    requires TraceExact(steps, events, levels[..|levels| - 1])
    requires Trace(steps, events, levels[..|levels| - 1]).0 + steps * Weight(levels[|levels| - 1]) < UINT32
    ensures TraceExact(steps, events, levels)
  {
    var n := |levels| - 1;
    var (counter, fired) := Trace(steps, events, levels[..n]);
    TickWithoutWrap(counter, steps, events, Progress(levels[..n]), fired, levels[n]);
  }

  lemma {:induction false} ExactUpToBound(steps: nat, levels: seq<nat>)
    requires steps <= MAX_EVENTS && Levels(levels) && ChangesAtWholeEvents(levels)
    ensures TraceExact(steps, MAX_EVENTS, levels)
    decreases |levels|
  {
    if levels != [] {
      var n := |levels| - 1;
      PrefixChanges(levels, n);
      ExactUpToBound(steps, levels[..n]);
      if levels[n] == 0 { LevelZeroIsWhole(levels, n); }
      var (counter, fired) := Trace(steps, MAX_EVENTS, levels[..n]);
      TickAtBound(counter, steps, Progress(levels[..n]), fired, levels[n]);
      OneMoreTick(steps, MAX_EVENTS, levels);
    }
  }

  /** From 2^29 step events on, already the block data overflows. */
  lemma DataOverflows(events: nat)
    requires 8 * events >= UINT32
    ensures !TraceExact(0, events, [])
  {
  }

  lemma OverflowTick(counter: nat, steps: nat, events: nat)
    requires MAX_EVENTS <= events && 8 * events < UINT32 && steps <= events && counter <= 8 * events
    requires counter + 8 * steps >= UINT32
    ensures Tick(counter, Increment(Shifted(steps), 0), Shifted(events)) == (counter + 8 * steps - UINT32, false)
  {
  }

  /** A tick that overflows the counter breaks the equation that the counter should meet. */
  lemma OverflowBreaks(steps: nat, events: nat, levels: seq<nat>)
    requires Levels(levels) && levels != [] && MAX_EVENTS <= events && 8 * events < UINT32 && steps <= events
    requires levels[|levels| - 1] == 0 && TraceExact(steps, events, levels[..|levels| - 1])
    requires Trace(steps, events, levels[..|levels| - 1]).0 + 8 * steps >= UINT32
    ensures !TraceExact(steps, events, levels)
  {
    var n := |levels| - 1;
    var t := Progress(levels[..n]);
    var (counter, fired) := Trace(steps, events, levels[..n]);
    OverflowTick(counter, steps, events);
    assert Trace(steps, events, levels) == (counter + 8 * steps - UINT32, fired);
    assert Progress(levels) == t + 8;
    EquationBroken(counter, steps, events, t, fired);
  }

  lemma EquationBroken(counter: int, steps: nat, events: nat, t: nat, fired: nat)
    requires Exact(counter, steps, events, t, fired)
    ensures !Exact(counter + 8 * steps - UINT32, steps, events, t + 8, fired)
  {
    assert steps * (t + 8) == steps * t + steps * 8;
  }

  lemma EighthCounter(events: nat, c: nat)
    requires 8 * events < UINT32 && c + events <= 8 * events
    ensures Tick(c, Increment(Shifted(events), 3), Shifted(events)) == (c + events, false)
  {
    assert (8 * events) / 8 == events;
  }

  /** A tick of an eighth of a step event in a block whose axis steps at every event. */
  lemma EighthTick(events: nat, c: nat, levels: seq<nat>)
    requires Levels(levels) && 8 * events < UINT32 && c + events <= 8 * events && Trace(events, events, levels) == (c, 0)
    ensures Levels(levels + [3]) && Trace(events, events, levels + [3]) == (c + events, 0)
  {
    var more := levels + [3];
    assert more[..|more| - 1] == levels && more[|more| - 1] == 3;
    EighthCounter(events, c);
  }

  /** Four ticks of an eighth and one whole step event: a full counter, and one that overflows. */
  lemma MixedLevelsOverflow(events: nat)
    requires MAX_EVENTS <= events && 8 * events < UINT32
    ensures !AlwaysExact(events)
  {
    EighthTick(events, 4 * events, []);
    EighthTick(events, 5 * events, [] + [3]);
    EighthTick(events, 6 * events, [] + [3] + [3]);
    EighthTick(events, 7 * events, [] + [3] + [3] + [3]);
    var full := [] + [3] + [3] + [3] + [3];
    assert (full + [0])[..4] == full;
    if TraceExact(events, events, full) { OverflowBreaks(events, events, full + [0]); }
  }

  lemma HalfwayLinear(e: nat, k: nat, d: int, counter: int)
    requires e > 1 && k == (e + 1) / 2 && counter == 4 * e + 8 * d - 8 * k && 0 < counter <= 8 * e
    requires d >= 2 * e || d == e || d <= 0
    ensures counter >= 8 * e - 4
  {
  }

  lemma HalfwayAlgebra(e: int, k: int, fired: int)
    ensures (e - 1) * (8 * k) - 8 * e * fired == 8 * (e * (k - fired)) - 8 * k
  {
  }

  /** An axis one step short of the block reaches a full counter after half the block. */
  lemma HalfwayCounter(e: nat, k: nat, counter: int, fired: nat)
    requires e > 1 && k == (e + 1) / 2 && Exact(counter, e - 1, e, 8 * k, fired)
    ensures counter >= 8 * e - 4
  {
    HalfwayAlgebra(e, k, fired);
    Halves(e, k, counter, k - fired);
  }

  lemma Halves(e: nat, k: nat, counter: int, d: int)
    requires e > 1 && k == (e + 1) / 2 && counter == 4 * e + 8 * (e * d) - 8 * k && 0 < counter <= 8 * e
    ensures counter >= 8 * e - 4
  {
    Ordered(e, 2, d);
    Ordered(e, d, 0);
    HalfwayLinear(e, k, e * d, counter);
  }

  lemma SegmentsOverflow(events: nat)
    requires MAX_EVENTS < events && 8 * events < UINT32
    ensures !ExactBySegments(events)
  {
    var k := (events + 1) / 2;
    var steps := events - 1;
    assert Level0(k + 1)[..k] == Level0(k);
    Level0Progress(k);
    assert ChangesAtWholeEvents(Level0(k)) && ChangesAtWholeEvents(Level0(k + 1));
    if TraceExact(steps, events, Level0(k)) {
      var (counter, fired) := Trace(steps, events, Level0(k));
      HalfwayCounter(events, k, counter, fired);
      OverflowBreaks(steps, events, Level0(k + 1));
    }
  }

  /** If the level may change at any tick, exactly the blocks below 2^28 step events are always traced exactly. */
  lemma AnyLevelsExactly(events: nat)
    requires events >= 1
    ensures AlwaysExact(events) <==> events < MAX_EVENTS
  {
    if events < MAX_EVENTS {
      forall steps: nat, levels: seq<nat> | steps <= events && Levels(levels)
        ensures TraceExact(steps, events, levels)
      {
        TraceIsExact(steps, events, levels);
      }
    } else if 8 * events >= UINT32 {
      DataOverflows(events);
    } else {
      MixedLevelsOverflow(events);
    }
  }

  /** If it changes only between step events, as segments do, exactly the blocks of up to 2^28 step events are. */
  lemma SegmentsExactly(events: nat)
    requires events >= 1
    ensures ExactBySegments(events) <==> events <= MAX_EVENTS
  {
    if events <= MAX_EVENTS {
      forall steps: nat, levels: seq<nat> | steps <= events && Levels(levels) && ChangesAtWholeEvents(levels)
        ensures TraceExact(steps, events, levels)
      {
        if events < MAX_EVENTS { TraceIsExact(steps, events, levels); } else { ExactUpToBound(steps, levels); }
      }
    } else if 8 * events >= UINT32 {
      DataOverflows(events);
    } else {
      SegmentsOverflow(events);
    }
  }

  /** A block beyond both bounds: the shifted event count of this one is zero, and it misses its first step. */
  lemma WideBlocksWrap()
    ensures Shifted(0x2000_0000) == 0
    ensures Trace(0x2000_0000, 0x2000_0000, [0]).1 == 0 != Trace(1, 1, [0]).1
  {
    assert [0][..0] == [];
    assert Trace(0x2000_0000, 0x2000_0000, []) == (0, 0);
    assert Trace(1, 1, []) == (4, 0);
  }
}
