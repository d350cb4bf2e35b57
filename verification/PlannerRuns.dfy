/**
 Runs of the planner. The state is the queue of legs, the planned pointer, and the squared
 speed of the step generator while it works on the tail block. A run interleaves appended
 blocks, discarded blocks, progress on the tail, feed holds and full replans.
 */
module PlannerRuns {
  import opened Options
  import opened PlannerTheory

  /**
   `speed` is the squared current speed while the step generator has the tail block loaded;
   the entry speed stored in the tail is stale meanwhile.
   */
  datatype State = State(legs: seq<Leg>, planned: nat, speed: Option<real>, holding: bool)

  const Empty := State([], 0, None, false)

  datatype Event =
    | Append(maxEntry: real, delta: real)
    | Discard
    | Load
    | Progress(speed: real, delta: real)
    | Hold
    | HoldLoad(speed: real)
    | HoldProgress(speed: real, delta: real)
    | HoldComplete
    | RaiseLimits(limits: seq<real>)

  /** The step generator hands the tail back with its current speed as entry speed. */
  function Notify(s: State): State {
    match s.speed
    case None => s
    case Some(v) =>
      if s.legs == [] then s.(speed := None)
      else s.(legs := s.legs[0 := s.legs[0].(entry := v)], speed := None)
  }

  /** planner_recalculate. Only a replan that starts at the tail involves the step generator. */
  function Recalculate(s: State): State
    requires s.legs != [] ==> s.planned < |s.legs|
  {
    if s.planned + 1 >= |s.legs| then s
    else
      var t := if s.planned == 0 then Notify(s) else s;
      var (legs, planned) := Replan(t.legs, t.planned);
      t.(legs := legs, planned := planned)
  }

  /** plan_cycle_reinitialize. */
  function Reinitialize(s: State): State {
    Recalculate(Notify(s).(planned := 0))
  }

  function WithLimits(legs: seq<Leg>, limits: seq<real>): (r: seq<Leg>)
    requires |limits| == |legs|
    ensures |r| == |legs|
    ensures forall i: nat {:trigger r[i]} | i < |r| :: r[i] == legs[i].(maxEntry := limits[i])
  {
    seq(|legs|, i requires 0 <= i < |legs| => legs[i].(maxEntry := limits[i]))
  }

  /** The speed at which the tail block is to be left. */
  function ExitSpeed(legs: seq<Leg>): real {
    if |legs| > 1 then legs[1].entry else 0.0
  }

  /** What the environment may do next. */
  predicate Enabled(s: State, e: Event) {
    match e
    case Append(maxEntry, delta) => maxEntry >= 0.0 && delta >= 0.0
    case Discard => s.legs != []
    case Load => s.legs != [] && s.speed.None? && !s.holding
    case Progress(v, delta) =>
      // The tail was driven within its acceleration and can still meet its exit speed.
      && s.legs != [] && s.speed.Some? && !s.holding
      && v >= 0.0 && 0.0 <= delta <= s.legs[0].delta
      && v + delta <= s.speed.value + s.legs[0].delta
      && ExitSpeed(s.legs) <= v + delta && v <= ExitSpeed(s.legs) + delta
    case Hold => true
    case HoldLoad(v) => s.legs != [] && s.speed.None? && s.holding && v >= 0.0
    case HoldProgress(v, delta) =>
      s.legs != [] && s.speed.Some? && s.holding && v >= 0.0 && 0.0 <= delta <= s.legs[0].delta
    case HoldComplete =>
      // The machine is at rest, or at least it can still meet the exit speed of the tail.
      s.holding && (s.legs != [] ==> Notify(s).legs[0].entry <= ExitSpeed(s.legs) + s.legs[0].delta)
    case RaiseLimits(limits) =>
      && !s.holding && |limits| == |s.legs|
      && forall i | 0 <= i < |limits| :: limits[i] >= s.legs[i].maxEntry
  }

  function Step(s: State, e: Event): State
    requires Enabled(s, e)
    requires s.legs != [] ==> s.planned < |s.legs|
  {
    match e
    case Append(maxEntry, delta) =>
      if s.legs == [] then s.(legs := [Leg(0.0, 0.0, delta)], planned := 0, speed := None)
      else Recalculate(s.(legs := s.legs + [Leg(0.0, maxEntry, delta)]))
    case Discard =>
      s.(legs := s.legs[1..], planned := if s.planned == 0 then 0 else s.planned - 1, speed := None)
    case Load => s.(speed := Some(s.legs[0].entry))
    case Progress(v, delta) => s.(legs := s.legs[0 := s.legs[0].(delta := delta)], speed := Some(v))
    case Hold => Notify(s).(holding := true)
    case HoldLoad(v) => s.(legs := s.legs[0 := s.legs[0].(entry := v)], speed := Some(v))
    case HoldProgress(v, delta) => s.(legs := s.legs[0 := s.legs[0].(delta := delta)], speed := Some(v))
    case HoldComplete => Reinitialize(s).(holding := false)
    case RaiseLimits(limits) => Reinitialize(s.(legs := WithLimits(s.legs, limits)))
  }

  // ---------------------------------------------------------------------------
  // The invariant
  // ---------------------------------------------------------------------------

  /** The legs with the tail at the speed it really has. */
  function Actual(s: State): (legs: seq<Leg>)
    ensures |legs| == |s.legs|
  {
    Notify(s).legs
  }

  ghost predicate Sane(s: State) {
    && WellFormed(s.legs)
    && (s.legs != [] ==> s.planned < |s.legs|)
    && (s.legs == [] ==> s.planned == 0 && s.speed.None?)
    && (s.speed.Some? ==> s.speed.value >= 0.0)
    && WithinLimits(s.legs) && Stoppable(s.legs, 1)
  }

  /** The entry speeds are those of a full pass, and everything up to the planned pointer is final. */
  ghost predicate Planned(legs: seq<Leg>, p: nat) {
    legs != [] ==> p < |legs| && IsPlan(legs) && Locked(legs, p) && Stoppable(legs, 0)
  }

  ghost predicate Inv(s: State) {
    && Sane(s)
    && (!s.holding ==> Planned(Actual(s), s.planned))
  }

  lemma SingleLegIsPlanned(leg: Leg)
    requires leg.entry == 0.0 && leg.maxEntry >= 0.0 && leg.delta >= 0.0
    ensures Planned([leg], 0) && WithinLimits([leg]) && Stoppable([leg], 1) && WellFormed([leg])
  {
    assert [leg][0] == leg;
  }

  lemma ActualFacts(s: State)
    requires Sane(s)
    ensures WellFormed(Actual(s)) && WithinLimits(Actual(s)) && Stoppable(Actual(s), 1)
    ensures SameLimits(Actual(s), s.legs)
    ensures forall i: nat {:trigger Actual(s)[i]} | 1 <= i < |s.legs| :: Actual(s)[i] == s.legs[i]
  {
    var a := Actual(s);
    assert forall i: nat {:trigger a[i]} | 1 <= i < |a| :: a[i] == s.legs[i];
    assert s.legs != [] ==> a[0].entry >= 0.0 && a[0].delta == s.legs[0].delta && a[0].maxEntry == s.legs[0].maxEntry;
  }

  // ---------------------------------------------------------------------------
  // A replan that starts behind the tail neither reads nor writes the tail
  // ---------------------------------------------------------------------------

  lemma {:induction false} ReverseTailBlind(legs: seq<Leg>, x: Leg, i: nat, p: nat)
    requires 1 <= p <= i && i + 1 < |legs|
    ensures ReversePass(legs[0 := x], i, p) == ReversePass(legs, i, p)[0 := x]
    decreases i
  {
    if i > p {
      assert ReverseStep(legs[0 := x], i) == ReverseStep(legs, i)[0 := x];
      ReverseTailBlind(ReverseStep(legs, i), x, i - 1, p);
    }
  }

  lemma {:induction false} ForwardTailBlind(legs: seq<Leg>, x: Leg, i: nat, planned: nat)
    requires 2 <= i <= |legs| && planned < i
    ensures ForwardPass(legs[0 := x], i, planned).0 == ForwardPass(legs, i, planned).0[0 := x]
    ensures ForwardPass(legs[0 := x], i, planned).1 == ForwardPass(legs, i, planned).1
    decreases |legs| - i
  {
    if i < |legs| {
      var legs' := legs[i := ForwardStep(legs, i)];
      assert legs[0 := x][i := ForwardStep(legs, i)] == legs'[0 := x];
      ForwardTailBlind(legs', x, i + 1, if LocksAt(legs, i) then i else planned);
    }
  }

  lemma ReplanTailBlind(legs: seq<Leg>, x: Leg, p: nat)
    requires 1 <= p < |legs|
    ensures Replan(legs[0 := x], p).0 == Replan(legs, p).0[0 := x]
    ensures Replan(legs[0 := x], p).1 == Replan(legs, p).1
  {
    if p + 1 < |legs| {
      assert BrakeLast(legs[0 := x]) == BrakeLast(legs)[0 := x];
      ReverseTailBlind(BrakeLast(legs), x, |legs| - 2, p);
      ForwardTailBlind(ReversePass(BrakeLast(legs), |legs| - 2, p), x, p + 1, p);
    }
  }

  /** Seen with the tail at its real speed, a recalculation is a replan from the planned pointer. */
  lemma RecalculateActual(s: State)
    requires s.legs != [] && s.planned < |s.legs|
    ensures var r := Recalculate(s);
            && Actual(r) == Replan(Actual(s), s.planned).0
            && r.planned == Replan(Actual(s), s.planned).1
            && r.holding == s.holding
            && r.speed in {None, s.speed}
  {
    if s.planned > 0 && s.speed.Some? {
      ReplanTailBlind(s.legs, Actual(s)[0], s.planned);
      var r := Replan(s.legs, s.planned).0;
      if s.planned + 1 < |s.legs| {
        ReplanKeepsTail(s.legs, s.planned);
      }
    }
  }

  lemma ReplanKeepsTail(legs: seq<Leg>, p: nat)
    requires 1 <= p < |legs|
    ensures Replan(legs, p).0[0] == legs[0]
  {
    assert legs[0 := legs[0]] == legs;
    ReplanTailBlind(legs, legs[0], p);
  }

  // ---------------------------------------------------------------------------
  // Every step keeps the invariant
  // ---------------------------------------------------------------------------

  lemma RecalculateSane(s: State)
    requires Sane(s) && s.legs != []
    ensures Sane(Recalculate(s)) && SameLimits(Recalculate(s).legs, s.legs)
    ensures Stoppable(Actual(s), 0) ==> Stoppable(Actual(Recalculate(s)), 0)
  {
    ActualFacts(s);
    var t := if s.planned == 0 then Notify(s) else s;
    ReplanIsStoppable(t.legs, s.planned);
    ReplanIsStoppable(Actual(s), s.planned);
    RecalculateActual(s);
  }

  lemma AppendKeepsInv(s: State, e: Event)
    requires Inv(s) && e.Append? && Enabled(s, e)
    ensures Inv(Step(s, e))
  {
    if s.legs == [] {
      SingleLegIsPlanned(Leg(0.0, 0.0, e.delta));
    } else {
      var x := Leg(0.0, e.maxEntry, e.delta);
      var t := s.(legs := s.legs + [x]);
      assert [x][0] == x;
      AppendedIsStoppable(s.legs, x);
      assert Sane(t);
      assert Actual(t) == Actual(s) + [x];
      RecalculateSane(t);
      RecalculateActual(t);
      if !s.holding {
        ActualFacts(s);
        AppendKeepsPlan(Actual(s), s.planned, x);
        AppendedIsStoppable(Actual(s), x);
      }
    }
  }

  lemma {:induction false} BestOfRest(legs: seq<Leg>, i: nat)
    requires i + 1 < |legs| && legs[1].entry == Best(legs, 1)
    ensures Best(legs[1..], i) == Best(legs, i + 1)
  {
    if i > 0 {
      BestOfRest(legs, i - 1);
      BrakeOfRest(legs, i);
    }
  }

  lemma {:induction false} BrakeOfRest(legs: seq<Leg>, i: nat)
    requires i + 1 < |legs|
    ensures Brake(legs[1..], i) == Brake(legs, i + 1)
    decreases |legs| - i
  {
    if i + 2 < |legs| { BrakeOfRest(legs, i + 1); }
  }

  lemma {:induction false} LockedOfRest(legs: seq<Leg>, p: nat)
    requires 1 <= p < |legs| && Locked(legs, p)
    ensures Locked(legs[1..], p - 1)
  {
    if p > 1 && legs[p].entry != legs[p].maxEntry { LockedOfRest(legs, p - 1); }
  }

  lemma RestIsPlanned(legs: seq<Leg>, p: nat)
    requires |legs| > 1 && Planned(legs, p) && Stoppable(legs, 1)
    ensures Planned(legs[1..], if p == 0 then 0 else p - 1)
  {
    var rest := legs[1..];
    assert Best(legs, 1) == legs[1].entry;
    forall i: nat {:trigger Best(rest, i)} | i < |rest| ensures rest[i].entry == Best(rest, i) {
      BestOfRest(legs, i);
      assert Best(legs, i + 1) == legs[i + 1].entry;
    }
    if p > 0 { LockedOfRest(legs, p); }
    RestIsStoppable(legs);
  }

  lemma RestIsStoppable(legs: seq<Leg>)
    requires legs != [] && Stoppable(legs, 1)
    ensures Stoppable(legs[1..], 0) && Stoppable(legs[1..], 1)
  {
    var rest := legs[1..];
    forall i, j {:trigger rest[i], rest[j]} | 0 <= i < j < |rest| && j == i + 1
      ensures rest[i].entry <= rest[j].entry + rest[i].delta
    {
      assert legs[i + 1].entry <= legs[j + 1].entry + legs[i + 1].delta;
    }
  }

  lemma DiscardKeepsInv(s: State)
    requires Inv(s) && s.legs != []
    ensures Inv(Step(s, Discard))
  {
    ActualFacts(s);
    RestIsStoppable(s.legs);
    var a := Actual(s);
    assert s.legs[1..] == a[1..];
    if !s.holding && |a| > 1 { RestIsPlanned(a, s.planned); }
  }

  /** Only the reach of the tail matters to the plan behind it. */
  lemma {:induction false} TailReach(a: seq<Leg>, b: seq<Leg>, i: nat)
    requires |a| == |b| && i < |a| && (forall j: nat {:trigger b[j]} | 1 <= j < |a| :: a[j] == b[j])
    requires IsPlan(a)
    requires |a| > 1 ==> a[1].entry <= b[0].entry + b[0].delta <= a[0].entry + a[0].delta
    ensures b[i].entry == Best(b, i)
  {
    if i > 0 {
      TailReach(a, b, i - 1);
      assert Best(a, i) == a[i].entry && Best(a, i - 1) == a[i - 1].entry;
      BrakeBehindTail(a, b, i);
    }
  }

  lemma {:induction false} BrakeBehindTail(a: seq<Leg>, b: seq<Leg>, i: nat)
    requires |a| == |b| && 1 <= i < |a| && (forall j: nat {:trigger b[j]} | 1 <= j < |a| :: a[j] == b[j])
    ensures Brake(a, i) == Brake(b, i)
    decreases |a| - i
  {
    assert a[i] == b[i];
    if i + 1 < |a| { BrakeBehindTail(a, b, i + 1); }
  }

  lemma {:induction false} TailLocked(a: seq<Leg>, b: seq<Leg>, p: nat)
    requires |a| == |b| && p < |a| && (forall j: nat {:trigger b[j]} | 1 <= j < |a| :: a[j] == b[j])
    requires |a| > 1 ==> a[1].entry <= b[0].entry + b[0].delta <= a[0].entry + a[0].delta
    requires Locked(a, p)
    ensures Locked(b, p)
  {
    if p > 0 {
      assert a[p] == b[p];
      if a[p].entry != a[p].maxEntry { TailLocked(a, b, p - 1); }
    }
  }

  lemma ProgressKeepsInv(s: State, e: Event)
    requires Inv(s) && e.Progress? && Enabled(s, e)
    ensures Inv(Step(s, e))
  {
    var t := Step(s, e);
    var a, b := Actual(s), Actual(t);
    assert forall j: nat {:trigger b[j]} | 1 <= j < |a| :: a[j] == b[j] == s.legs[j];
    TailUpdateIsSane(s, s.legs[0].(delta := e.delta));
    forall i: nat | i < |b| ensures b[i].entry == Best(b, i) {
      TailReach(a, b, i);
    }
    TailLocked(a, b, s.planned);
    assert Stoppable(b, 0);
  }

  lemma TailUpdateIsSane(s: State, tail: Leg)
    requires Sane(s) && s.legs != []
    requires tail.entry >= 0.0 && tail.maxEntry >= 0.0 && tail.delta >= 0.0
    ensures Sane(s.(legs := s.legs[0 := tail]))
  {
    var legs := s.legs[0 := tail];
    assert forall i: nat {:trigger legs[i]} | 1 <= i < |legs| :: legs[i] == s.legs[i];
  }

  /** A full replan restores the plan, however the tail was left. */
  lemma ReinitializeRestores(s: State)
    requires Sane(s)
    requires s.legs != [] ==> Stoppable(Actual(s), 0)
    ensures var r := Reinitialize(s);
            Sane(r) && Planned(Actual(r), r.planned) && r.speed.None? && r.holding == s.holding
  {
    if s.legs != [] {
      ActualFacts(s);
      var t := Notify(s).(planned := 0);
      assert Sane(t) && Actual(t) == Actual(s);
      RecalculateSane(t);
      RecalculateActual(t);
      ReplanFromTail(t.legs);
      ReplanIsStoppable(t.legs, 0);
    }
  }

  lemma HoldCompleteKeepsInv(s: State)
    requires Inv(s) && Enabled(s, HoldComplete)
    ensures Inv(Step(s, HoldComplete))
  {
    ActualFacts(s);
    if s.legs != [] {
      var a := Actual(s);
      assert forall i: nat {:trigger a[i]} | 1 <= i < |a| :: a[i] == s.legs[i];
      assert Stoppable(a, 0);
    }
    ReinitializeRestores(s);
  }

  lemma RaiseLimitsKeepsInv(s: State, e: Event)
    requires Inv(s) && e.RaiseLimits? && Enabled(s, e)
    ensures Inv(Step(s, e))
  {
    var legs := WithLimits(s.legs, e.limits);
    var t := s.(legs := legs);
    forall i: nat {:trigger legs[i]} | i < |legs|
      ensures legs[i].maxEntry >= s.legs[i].maxEntry && legs[i].entry == s.legs[i].entry && legs[i].delta == s.legs[i].delta
    {
    }
    assert Sane(t);
    if s.legs != [] {
      var a, b := Actual(s), Actual(t);
      assert forall i: nat {:trigger b[i]} | i < |b| :: b[i].entry == a[i].entry && b[i].delta == a[i].delta;
      assert Stoppable(b, 0);
    }
    ReinitializeRestores(t);
  }

  lemma HoldKeepsInv(s: State, e: Event)
    requires Inv(s) && Enabled(s, e) && (e.Hold? || e.HoldLoad? || e.HoldProgress? || e.Load?)
    ensures Inv(Step(s, e))
  {
    ActualFacts(s);
    match e
    case HoldLoad(v) => TailUpdateIsSane(s, s.legs[0].(entry := v));
    case HoldProgress(v, delta) => TailUpdateIsSane(s, s.legs[0].(delta := delta));
    case Load => assert s.legs[0 := s.legs[0]] == s.legs;
    case _ =>
  }

  lemma StepKeepsInv(s: State, e: Event)
    requires Inv(s) && Enabled(s, e)
    ensures Inv(Step(s, e))
  {
    match e
    case Append(_, _) => AppendKeepsInv(s, e);
    case Discard => DiscardKeepsInv(s);
    case Progress(_, _) => ProgressKeepsInv(s, e);
    case HoldComplete => HoldCompleteKeepsInv(s);
    case RaiseLimits(_) => RaiseLimitsKeepsInv(s, e);
    case _ => HoldKeepsInv(s, e);
  }

  // ---------------------------------------------------------------------------
  // Whole runs
  // ---------------------------------------------------------------------------

  /** `s` is reached from the empty planner by the given events, each enabled when it happens. */
  ghost predicate Reaches(events: seq<Event>, s: State)
    decreases |events|
  {
    if events == [] then s == Empty
    else
      var n := |events| - 1;
      exists t {:trigger Reaches(events[..n], t)} ::
        && Reaches(events[..n], t)
        && (t.legs != [] ==> t.planned < |t.legs|)
        && Enabled(t, events[n]) && s == Step(t, events[n])
  }

  lemma {:induction false} ReachableInv(events: seq<Event>, s: State)
    requires Reaches(events, s)
    ensures Inv(s)
    decreases |events|
  {
    if events != [] {
      var n := |events| - 1;
      var t :| Reaches(events[..n], t) && (t.legs != [] ==> t.planned < |t.legs|)
               && Enabled(t, events[n]) && s == Step(t, events[n]);
      ReachableInv(events[..n], t);
      StepKeepsInv(t, events[n]);
    }
  }

  /**
   The headline of the planner. After any run, unless a hold is in progress, the entry speeds
   are those of a from-scratch reverse and forward pass over the whole buffer, they are the
   greatest feasible ones for the tail's actual speed, and the tail can brake to its exit.
   */
  lemma IncrementalPlanIsOptimal(events: seq<Event>, s: State, v: seq<real>)
    requires Reaches(events, s) && !s.holding
    ensures forall i: nat {:trigger Best(Actual(s), i)} | i < |s.legs| :: Actual(s)[i].entry == Best(Actual(s), i)
    ensures Feasible(Actual(s), Entries(Actual(s)))
    ensures TailBrakes(Actual(s), Entries(Actual(s)))
    ensures Feasible(Actual(s), v) ==> forall i | 0 <= i < |v| :: v[i] <= Entries(Actual(s))[i]
  {
    ReachableInv(events, s);
    PlanOfInvIsOptimal(s, v);
  }

  /** What the invariant says of the plan, unless a hold is in progress. */
  lemma PlanOfInvIsOptimal(s: State, v: seq<real>)
    requires Inv(s) && !s.holding
    ensures IsPlan(Actual(s))
    ensures Feasible(Actual(s), Entries(Actual(s)))
    ensures TailBrakes(Actual(s), Entries(Actual(s)))
    ensures Feasible(Actual(s), v) ==> forall i | 0 <= i < |v| :: v[i] <= Entries(Actual(s))[i]
  {
    ActualFacts(s);
    var a := Actual(s);
    if a != [] {
      PlanIsOptimal(a, v);
      if |a| > 1 { assert a[0].entry <= a[1].entry + a[0].delta; }
    }
  }

  /** A step outside holds and limit changes, as the blocks see it: how far it shifts the queue. */
  function Shift(e: Event): nat {
    if e.Discard? then 1 else 0
  }

  predicate Streaming(e: Event) {
    e.Append? || e.Discard? || e.Load? || e.Progress?
  }

  lemma LockedStaysOneStep(s: State, e: Event, i: nat)
    requires Inv(s) && !s.holding && Enabled(s, e) && Streaming(e)
    requires Shift(e) <= i <= s.planned && 1 <= i < |s.legs|
    ensures var t := Step(s, e);
            && i - Shift(e) <= t.planned < |t.legs|
            && t.legs[i - Shift(e)].entry == s.legs[i].entry
            && !t.holding
  {
    if e.Append? {
      var x := Leg(0.0, e.maxEntry, e.delta);
      var t := s.(legs := s.legs + [x]);
      assert [x][0] == x;
      AppendedIsStoppable(s.legs, x);
      assert s.planned + 1 < |t.legs|;
      ReplanIsStoppable(t.legs, s.planned);
      assert Replan(t.legs, s.planned).0[i] == t.legs[i].(entry := BestFrom(t.legs, s.planned, i));
    }
  }

  /** The run `events` from `s` to `t`. */
  ghost predicate Runs(s: State, events: seq<Event>, t: State)
    decreases |events|
  {
    if events == [] then s == t
    else
      && (s.legs != [] ==> s.planned < |s.legs|) && Enabled(s, events[0])
      && Runs(Step(s, events[0]), events[1..], t)
  }

  function Discards(events: seq<Event>): nat {
    if events == [] then 0 else Shift(events[0]) + Discards(events[1..])
  }

  /**
   Speeds up to the planned pointer never change: a block at or before it keeps its entry
   speed through any streaming run until it becomes the tail.
   */
  lemma {:induction false} LockedNeverChanges(s: State, events: seq<Event>, t: State, i: nat)
    requires Inv(s) && !s.holding && Runs(s, events, t)
    requires forall e | e in events :: Streaming(e)
    requires Discards(events) <= i <= s.planned && 1 <= i < |s.legs|
    ensures i - Discards(events) < |t.legs|
    ensures i > Discards(events) ==> t.legs[i - Discards(events)].entry == s.legs[i].entry
    ensures i > Discards(events) ==> i - Discards(events) <= t.planned
    decreases |events|
  {
    if events != [] {
      var e := events[0];
      var s' := Step(s, e);
      LockedStaysOneStep(s, e, i);
      StepKeepsInv(s, e);
      if i - Shift(e) >= 1 {
        LockedNeverChanges(s', events[1..], t, i - Shift(e));
      } else {
        TailStays(s', events[1..], t);
      }
    }
  }

  lemma {:induction false} TailStays(s: State, events: seq<Event>, t: State)
    requires Inv(s) && s.legs != [] && Runs(s, events, t) && Discards(events) == 0
    requires forall e | e in events :: Streaming(e)
    ensures t.legs != []
    decreases |events|
  {
    if events != [] {
      StepKeepsInv(s, events[0]);
      TailStays(Step(s, events[0]), events[1..], t);
    }
  }

  /**
   The step generator is told of every exit-speed change: if a recalculation changes the entry
   speed of the block behind the tail, it started at the tail and took back the tail's speed.
   */
  lemma ExitChangeIsNotified(s: State)
    requires |s.legs| > 1 && s.planned < |s.legs|
    requires Recalculate(s).legs[1].entry != s.legs[1].entry
    ensures s.planned == 0 && Recalculate(s).speed.None?
    ensures s.speed.Some? ==> Recalculate(s).legs[0].entry == s.speed.value
  {
    if s.planned > 0 {
      ReplanKeepsUpTo(s.legs, s.planned, 1);
    } else {
      ReplanKeepsUpTo(Notify(s).legs, 0, 0);
    }
  }

  /** A replan never writes a leg at or before the planned pointer. */
  lemma ReplanKeepsUpTo(legs: seq<Leg>, p: nat, i: nat)
    requires i <= p < |legs|
    ensures Replan(legs, p).0[i] == legs[i]
  {
    if p + 1 < |legs| {
      ReversePassKeeps(BrakeLast(legs), |legs| - 2, p, i);
      ForwardPassKeeps(ReversePass(BrakeLast(legs), |legs| - 2, p), p + 1, p, i);
    }
  }

  lemma {:induction false} ForwardPassKeeps(legs: seq<Leg>, i: nat, planned: nat, j: nat)
    requires 1 <= i <= |legs| && planned < i && j < i
    ensures ForwardPass(legs, i, planned).0[j] == legs[j]
    decreases |legs| - i
  {
    if i < |legs| {
      ForwardPassKeeps(legs[i := ForwardStep(legs, i)], i + 1, if LocksAt(legs, i) then i else planned, j);
    }
  }
}
