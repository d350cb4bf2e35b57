/**
 The look-ahead plan as arithmetic on squared entry speeds.

 A block enters this module as a `Leg`: its squared entry speed, the limit on it, and
 `delta`, the change of squared speed that full acceleration achieves over the block
 (2 * acceleration * millimeters). `Replan` is the two-pass algorithm with both of its
 shortcuts. `Best` is the plan a from-scratch pass over the whole buffer computes.
 */
module PlannerTheory {

  datatype Leg = Leg(entry: real, maxEntry: real, delta: real)

  function Min(a: real, b: real): real {
    if a < b then a else b
  }

  ghost predicate WellFormed(legs: seq<Leg>) {
    forall i | 0 <= i < |legs| ::
      legs[i].entry >= 0.0 && legs[i].maxEntry >= 0.0 && legs[i].delta >= 0.0
  }

  ghost predicate SameLimits(a: seq<Leg>, b: seq<Leg>) {
    && |a| == |b|
    && forall i | 0 <= i < |a| :: a[i].maxEntry == b[i].maxEntry && a[i].delta == b[i].delta
  }

  // ---------------------------------------------------------------------------
  // The from-scratch plan
  // ---------------------------------------------------------------------------

  /** The greatest entry speed from which the machine can still stop at the end of the buffer. */
  ghost function Brake(legs: seq<Leg>, i: nat): real
    requires i < |legs|
    decreases |legs| - i
  {
    if i == |legs| - 1 then Min(legs[i].maxEntry, legs[i].delta)
    else Min(legs[i].maxEntry, Brake(legs, i + 1) + legs[i].delta)
  }

  /** The entry speeds of a full reverse pass followed by a full forward pass. */
  ghost function Best(legs: seq<Leg>, i: nat): real
    requires i < |legs|
  {
    if i == 0 then legs[0].entry
    else Min(Brake(legs, i), Best(legs, i - 1) + legs[i - 1].delta)
  }

  ghost predicate IsPlan(legs: seq<Leg>) {
    forall i: nat {:trigger Best(legs, i)} | i < |legs| :: legs[i].entry == Best(legs, i)
  }

  // ---------------------------------------------------------------------------
  // The code's passes. `p` is the planned pointer, counted from the tail.
  // ---------------------------------------------------------------------------

  /** The last leg must be able to brake to rest. */
  function BrakeLast(legs: seq<Leg>): (r: seq<Leg>)
    requires |legs| > 0
    ensures |r| == |legs|
  {
    var last := legs[|legs| - 1];
    legs[|legs| - 1 := last.(entry := Min(last.maxEntry, last.delta))]
  }

  /** A leg must be able to brake to the next one. A leg that already enters at its limit is skipped. */
  function ReverseStep(legs: seq<Leg>, i: nat): (r: seq<Leg>)
    requires i + 1 < |legs|
    ensures |r| == |legs|
  {
    var current, next := legs[i], legs[i + 1];
    if current.entry == current.maxEntry then legs
    else legs[i := current.(entry := Min(next.entry + current.delta, current.maxEntry))]
  }

  /** Reverse pass over legs i, i-1, ..., p+1. */
  function ReversePass(legs: seq<Leg>, i: nat, p: nat): (r: seq<Leg>)
    requires p <= i && i + 1 < |legs|
    ensures |r| == |legs|
    decreases i
  {
    if i == p then legs else ReversePass(ReverseStep(legs, i), i - 1, p)
  }

  /** Leg `i` may not be entered faster than leg `i - 1` can accelerate to. */
  function ForwardStep(legs: seq<Leg>, i: nat): Leg
    requires 1 <= i < |legs|
  {
    var current, next := legs[i - 1], legs[i];
    if current.entry < next.entry && current.entry + current.delta < next.entry
    then next.(entry := current.entry + current.delta) else next
  }

  /** The forward pass moves the planned pointer to leg `i`. */
  predicate LocksAt(legs: seq<Leg>, i: nat)
    requires 1 <= i < |legs|
  {
    var next := ForwardStep(legs, i);
    next != legs[i] || next.entry == next.maxEntry
  }

  /** Forward pass that enters leg `i` and all later ones. */
  function ForwardPass(legs: seq<Leg>, i: nat, planned: nat): (r: (seq<Leg>, nat))
    requires 1 <= i <= |legs| && planned < i
    ensures |r.0| == |legs| && planned <= r.1 < |legs|
    decreases |legs| - i
  {
    if i == |legs| then (legs, planned)
    else ForwardPass(legs[i := ForwardStep(legs, i)], i + 1, if LocksAt(legs, i) then i else planned)
  }

  /** Both passes, from the planned pointer onward; nothing to do with at most one plannable leg. */
  function Replan(legs: seq<Leg>, p: nat): (r: (seq<Leg>, nat))
    requires |legs| > 0 ==> p < |legs|
    ensures |r.0| == |legs|
    ensures |legs| > 0 ==> p <= r.1 < |legs|
  {
    if p + 1 >= |legs| then (legs, p)
    else ForwardPass(ReversePass(BrakeLast(legs), |legs| - 2, p), p + 1, p)
  }

  // ---------------------------------------------------------------------------
  // What a plan must respect
  // ---------------------------------------------------------------------------

  /** From leg `from` on, every leg can brake to the next one and the last can brake to rest. */
  ghost predicate Stoppable(legs: seq<Leg>, from: nat) {
    && (forall i, j {:trigger legs[i], legs[j]} | from <= i < j < |legs| && j == i + 1 ::
         legs[i].entry <= legs[j].entry + legs[i].delta)
    && (|legs| > from ==> legs[|legs| - 1].entry <= legs[|legs| - 1].delta)
  }

  ghost predicate WithinLimits(legs: seq<Leg>) {
    forall i | 1 <= i < |legs| :: 0.0 <= legs[i].entry <= legs[i].maxEntry
  }

  /**
   The planned pointer may stand at leg `p`: the leg enters at its limit, or at full
   acceleration from a leg of the same kind, down to the tail.
   */
  ghost predicate Locked(legs: seq<Leg>, p: nat)
    requires p < |legs|
  {
    || p == 0
    || legs[p].entry == legs[p].maxEntry
    || (legs[p].entry == legs[p - 1].entry + legs[p - 1].delta && Locked(legs, p - 1))
  }

  /** Every leg after `p` that the reverse pass skips has a limit that the legs behind it allow. */
  ghost predicate SkipSound(legs: seq<Leg>, p: nat) {
    forall i: nat | p < i < |legs| - 1 && legs[i].entry == legs[i].maxEntry ::
      legs[i].maxEntry <= Brake(legs, i + 1) + legs[i].delta
  }

  /** The forward pass from leg `p` on, with everything up to `p` taken as it is. */
  ghost function BestFrom(legs: seq<Leg>, p: nat, i: nat): real
    requires i < |legs|
  {
    if i <= p then legs[i].entry
    else Min(Brake(legs, i), BestFrom(legs, p, i - 1) + legs[i - 1].delta)
  }

  /** `r` is `legs` with the entry speeds of a pass from leg `p` on. */
  ghost predicate IsSwept(r: seq<Leg>, legs: seq<Leg>, p: nat) {
    && |r| == |legs|
    && forall j: nat {:trigger r[j]} | j < |r| :: r[j] == legs[j].(entry := BestFrom(legs, p, j))
  }

  // ---------------------------------------------------------------------------
  // Elementary facts about Brake and Best
  // ---------------------------------------------------------------------------

  lemma {:induction false} BrakeOfSameLimits(a: seq<Leg>, b: seq<Leg>, i: nat)
    requires SameLimits(a, b) && i < |a|
    ensures Brake(a, i) == Brake(b, i)
    decreases |a| - i
  {
    if i < |a| - 1 { BrakeOfSameLimits(a, b, i + 1); }
  }

  lemma {:induction false} BrakeBounds(legs: seq<Leg>, i: nat)
    requires WellFormed(legs) && i < |legs|
    ensures 0.0 <= Brake(legs, i) <= legs[i].maxEntry
    decreases |legs| - i
  {
    if i < |legs| - 1 { BrakeBounds(legs, i + 1); }
  }

  lemma {:induction false} BestFromBounds(legs: seq<Leg>, p: nat, i: nat)
    requires WellFormed(legs) && i < |legs|
    ensures 0.0 <= BestFrom(legs, p, i)
    ensures i > p ==> BestFrom(legs, p, i) <= Brake(legs, i) <= legs[i].maxEntry
  {
    BrakeBounds(legs, i);
    if i > p { BestFromBounds(legs, p, i - 1); }
  }

  lemma {:induction false} BestOfSame(a: seq<Leg>, b: seq<Leg>, i: nat)
    requires SameLimits(a, b) && i < |a| && a[0].entry == b[0].entry
    ensures Best(a, i) == Best(b, i)
  {
    BrakeOfSameLimits(a, b, i);
    if i > 0 { BestOfSame(a, b, i - 1); }
  }

  lemma {:induction false} BestFromTail(legs: seq<Leg>, i: nat)
    requires i < |legs|
    ensures BestFrom(legs, 0, i) == Best(legs, i)
  {
    if i > 0 { BestFromTail(legs, i - 1); }
  }

  /** A stoppable plan never exceeds the braking bound. */
  lemma {:induction false} BrakeAboveEntry(legs: seq<Leg>, i: nat)
    requires WithinLimits(legs) && Stoppable(legs, 1) && 1 <= i < |legs|
    ensures Brake(legs, i) >= legs[i].entry
    decreases |legs| - i
  {
    if i < |legs| - 1 { BrakeAboveEntry(legs, i + 1); }
  }

  /** If the speeds up to `p` are those of the full plan, so are the speeds of a pass from `p` on. */
  lemma {:induction false} SettledBest(legs: seq<Leg>, p: nat, i: nat)
    requires p < |legs| && i < |legs|
    requires forall j: nat {:trigger legs[j]} | j <= p :: legs[j].entry == Best(legs, j)
    ensures BestFrom(legs, p, i) == Best(legs, i)
  {
    if i <= p {
      assert legs[i].entry == Best(legs, i);
    } else {
      SettledBest(legs, p, i - 1);
    }
  }

  // ---------------------------------------------------------------------------
  // What the passes compute
  // ---------------------------------------------------------------------------

  /** Legs after `i` enter at the braking bound, the others as before. */
  ghost predicate BrakedAfter(legs: seq<Leg>, i: nat, before: seq<Leg>) {
    && |legs| == |before|
    && (forall j: nat {:trigger legs[j]} | j < |legs| ::
         legs[j] == if j > i then before[j].(entry := Brake(before, j)) else before[j])
  }

  /** Legs after `p` and before `i` have their final entry speed, from `i` on only the braking bound. */
  ghost predicate SweptTo(legs: seq<Leg>, i: nat, before: seq<Leg>, p: nat) {
    && |legs| == |before|
    && (forall j: nat {:trigger legs[j]} | j < |legs| ::
         legs[j] == before[j].(entry := if j < i then BestFrom(before, p, j) else Brake(before, j)))
  }

  lemma {:induction false} ReversePassIsBrake(legs: seq<Leg>, i: nat, before: seq<Leg>, p: nat)
    requires p <= i && i + 1 < |legs| && BrakedAfter(legs, i, before) && SkipSound(before, p)
    ensures BrakedAfter(ReversePass(legs, i, p), p, before)
    decreases i
  {
    if i > p {
      assert ReverseStep(legs, i)[i].entry == Brake(before, i);
      ReversePassIsBrake(ReverseStep(legs, i), i - 1, before, p);
    }
  }

  /** The reverse pass leaves a leg that was at its limit where it was. */
  lemma {:induction false} ReversePassKeeps(legs: seq<Leg>, i: nat, p: nat, j: nat)
    requires p <= i && i + 1 < |legs| && j < |legs|
    requires j <= p || j > i || legs[j].entry == legs[j].maxEntry
    ensures ReversePass(legs, i, p)[j] == legs[j]
    decreases i
  {
    if i > p { ReversePassKeeps(ReverseStep(legs, i), i - 1, p, j); }
  }

  lemma ReplanLimits(legs: seq<Leg>, p: nat)
    requires |legs| > 0 ==> p < |legs|
    ensures SameLimits(Replan(legs, p).0, legs)
  {
    if p + 1 < |legs| {
      ReverseLimits(BrakeLast(legs), |legs| - 2, p);
      ForwardLimits(ReversePass(BrakeLast(legs), |legs| - 2, p), p + 1, p);
    }
  }

  lemma {:induction false} ReverseLimits(legs: seq<Leg>, i: nat, p: nat)
    requires p <= i && i + 1 < |legs|
    ensures SameLimits(ReversePass(legs, i, p), legs)
    decreases i
  {
    if i > p { ReverseLimits(ReverseStep(legs, i), i - 1, p); }
  }

  lemma {:induction false} ForwardLimits(legs: seq<Leg>, i: nat, planned: nat)
    requires 1 <= i <= |legs| && planned < i
    ensures SameLimits(ForwardPass(legs, i, planned).0, legs)
    decreases |legs| - i
  {
    if i < |legs| {
      ForwardLimits(legs[i := ForwardStep(legs, i)], i + 1, if LocksAt(legs, i) then i else planned);
    }
  }

  /** If the forward pass has to lower the next leg, everything up to here is at full acceleration from a locked leg. */
  lemma {:induction false} AccelerationLocks(legs: seq<Leg>, before: seq<Leg>, p: nat, i: nat)
    requires WellFormed(before) && p <= i && i + 1 < |legs|
    requires SweptTo(legs, i + 1, before, p) && Locked(legs, p)
    requires BestFrom(before, p, i) + before[i].delta < Brake(before, i + 1)
    ensures Locked(legs, i)
    decreases i
  {
    if i > p && BestFrom(before, p, i) != before[i].maxEntry {
      assert legs[i - 1].entry == BestFrom(before, p, i - 1);
      AccelerationLocksBack(legs, before, p, i);
    }
  }

  lemma {:induction false} AccelerationLocksBack(legs: seq<Leg>, before: seq<Leg>, p: nat, i: nat)
    requires WellFormed(before) && p < i && i < |legs| && |legs| == |before|
    requires forall j: nat {:trigger legs[j]} | j <= i :: legs[j] == before[j].(entry := BestFrom(before, p, j))
    requires Locked(legs, p)
    requires BestFrom(before, p, i) < Brake(before, i)
    ensures Locked(legs, i)
    decreases i
  {
    assert legs[i].entry == legs[i - 1].entry + legs[i - 1].delta;
    if i - 1 > p && BestFrom(before, p, i - 1) < Brake(before, i - 1) {
      AccelerationLocksBack(legs, before, p, i - 1);
    }
  }

  lemma {:induction false} LockedOfPrefix(a: seq<Leg>, b: seq<Leg>, p: nat)
    requires p < |a| && p < |b| && (forall j: nat {:trigger a[j]} | j <= p :: a[j] == b[j])
    ensures Locked(a, p) == Locked(b, p)
  {
    assert a[p] == b[p];
    if p > 0 {
      assert a[p - 1] == b[p - 1];
      LockedOfPrefix(a, b, p - 1);
    }
  }

  lemma ForwardStepIsBest(legs: seq<Leg>, i: nat, planned: nat, before: seq<Leg>, p: nat)
    requires p < i < |legs| && p <= planned < i
    requires WellFormed(before) && SweptTo(legs, i, before, p)
    ensures ForwardStep(legs, i) == before[i].(entry := BestFrom(before, p, i))
    ensures Locked(legs, p) && Locked(legs, planned) ==>
              Locked(legs[i := ForwardStep(legs, i)], if LocksAt(legs, i) then i else planned)
  {
    var legs' := legs[i := ForwardStep(legs, i)];
    assert legs'[i - 1] == legs[i - 1];
    if Locked(legs, p) && Locked(legs, planned) {
      if legs'[i] != legs[i] {
        AccelerationLocks(legs, before, p, i - 1);
        LockedOfPrefix(legs, legs', i - 1);
      } else if legs'[i].entry != legs'[i].maxEntry {
        LockedOfPrefix(legs, legs', planned);
      }
    }
  }

  lemma {:induction false} ForwardPassIsBest(legs: seq<Leg>, i: nat, planned: nat, before: seq<Leg>, p: nat)
    requires p < i <= |legs| && p <= planned < i
    requires WellFormed(before) && SweptTo(legs, i, before, p)
    ensures var r := ForwardPass(legs, i, planned);
            && IsSwept(r.0, before, p)
            && (Locked(legs, p) && Locked(legs, planned) ==> Locked(r.0, r.1))
    decreases |legs| - i
  {
    if i < |legs| {
      var planned' := if LocksAt(legs, i) then i else planned;
      var legs' := legs[i := ForwardStep(legs, i)];
      ForwardStepIsBest(legs, i, planned, before, p);
      assert SweptTo(legs', i + 1, before, p);
      LockedOfPrefix(legs, legs', p);
      ForwardPassIsBest(legs', i + 1, planned', before, p);
    }
  }

  /** With sound skips, the code's two passes are one full sweep of the legs after `p`. */
  lemma ReplanIsSweep(legs: seq<Leg>, p: nat)
    requires p < |legs| && WellFormed(legs) && SkipSound(legs, p)
    ensures IsSwept(Replan(legs, p).0, legs, p)
    ensures Locked(legs, p) ==> Locked(Replan(legs, p).0, Replan(legs, p).1)
  {
    if p + 1 < |legs| {
      ReversePassIsBrake(BrakeLast(legs), |legs| - 2, legs, p);
      var reversed := ReversePass(BrakeLast(legs), |legs| - 2, p);
      assert SweptTo(reversed, p + 1, legs, p);
      LockedOfPrefix(legs, reversed, p);
      ForwardPassIsBest(reversed, p + 1, p, legs, p);
    }
  }

  /** Leg `i` is at its limit, or as fast as the machine can get there and slower than it could brake from. */
  ghost predicate Settled(legs: seq<Leg>, p: nat, i: nat)
    requires i < |legs|
  {
    BestFrom(legs, p, i) == legs[i].maxEntry || BestFrom(legs, p, i) < Brake(legs, i)
  }

  /** `q` is the last of these legs from `i` on, or `planned` if there is none. */
  ghost predicate LastSettled(legs: seq<Leg>, p: nat, i: nat, planned: nat, q: nat)
    requires q < |legs|
  {
    && (q == planned || (i <= q && Settled(legs, p, q)))
    && (forall j: nat {:trigger Settled(legs, p, j)} | i <= j < |legs| && q < j :: !Settled(legs, p, j))
  }

  lemma LocksExactly(legs: seq<Leg>, i: nat, before: seq<Leg>, p: nat)
    requires p < i < |legs| && WellFormed(before) && SweptTo(legs, i, before, p)
    ensures LocksAt(legs, i) <==> Settled(before, p, i)
  {
    ForwardStepIsBest(legs, i, p, before, p);
    assert legs[i] == before[i].(entry := Brake(before, i));
  }

  lemma {:induction false} ForwardPointer(legs: seq<Leg>, i: nat, planned: nat, before: seq<Leg>, p: nat)
    requires p < i <= |legs| && p <= planned < i
    requires WellFormed(before) && SweptTo(legs, i, before, p)
    ensures LastSettled(before, p, i, planned, ForwardPass(legs, i, planned).1)
    decreases |legs| - i
  {
    if i < |legs| {
      var legs' := legs[i := ForwardStep(legs, i)];
      ForwardStepIsBest(legs, i, planned, before, p);
      assert SweptTo(legs', i + 1, before, p);
      LocksExactly(legs, i, before, p);
      ForwardPointer(legs', i + 1, if LocksAt(legs, i) then i else planned, before, p);
    }
  }

  /** The planned pointer ends on the last settled leg: everything behind it is still open to the next plan. */
  lemma PointerIsLastSettled(legs: seq<Leg>, p: nat)
    requires p < |legs| && WellFormed(legs) && SkipSound(legs, p)
    ensures LastSettled(legs, p, p + 1, p, Replan(legs, p).1)
  {
    if p + 1 < |legs| {
      ReversePassIsBrake(BrakeLast(legs), |legs| - 2, legs, p);
      var reversed := ReversePass(BrakeLast(legs), |legs| - 2, p);
      assert SweptTo(reversed, p + 1, legs, p);
      ForwardPointer(reversed, p + 1, p, legs, p);
    }
  }

  /** The reverse pass, skips included, reaches every braking bound exactly. */
  ghost predicate ReverseExact(legs: seq<Leg>, p: nat)
    requires p + 1 < |legs|
  {
    forall i: nat | p < i < |legs| ::
      ReversePass(BrakeLast(legs), |legs| - 2, p)[i].entry == Brake(legs, i)
  }

  /**
   The at-max skip of the reverse pass loses nothing exactly when every skipped limit is
   one the legs behind it can brake from.
   */
  lemma ReverseSkipExact(legs: seq<Leg>, p: nat)
    requires p + 1 < |legs|
    ensures SkipSound(legs, p) <==> ReverseExact(legs, p)
  {
    var n := |legs|;
    var braked := BrakeLast(legs);
    if SkipSound(legs, p) {
      ReversePassIsBrake(braked, n - 2, legs, p);
      forall i: nat | p < i < |legs|
        ensures ReversePass(braked, n - 2, p)[i].entry == Brake(legs, i)
      {
      }
    } else {
      var i: nat :| p < i < n - 1 && legs[i].entry == legs[i].maxEntry
                    && legs[i].maxEntry > Brake(legs, i + 1) + legs[i].delta;
      ReversePassKeeps(braked, n - 2, p, i);
      assert ReversePass(braked, n - 2, p)[i].entry > Brake(legs, i);
      assert !ReverseExact(legs, p);
    }
  }

  // ---------------------------------------------------------------------------
  // Every replan leaves a plan that can stop
  // ---------------------------------------------------------------------------

  lemma StoppableSkips(legs: seq<Leg>, p: nat)
    requires WithinLimits(legs) && Stoppable(legs, 1)
    ensures SkipSound(legs, p)
  {
    forall i: nat | p < i < |legs| - 1 && legs[i].entry == legs[i].maxEntry
      ensures legs[i].maxEntry <= Brake(legs, i + 1) + legs[i].delta
    {
      BrakeAboveEntry(legs, i + 1);
    }
  }

  lemma SweepAt(legs: seq<Leg>, p: nat, i: nat)
    requires WellFormed(legs) && p < |legs| && i < |legs|
    requires WithinLimits(legs) && Stoppable(legs, 1)
    ensures 0.0 <= BestFrom(legs, p, i)
    ensures i > 0 ==> BestFrom(legs, p, i) <= legs[i].maxEntry
    ensures i + 1 < |legs| && (i > 0 || Stoppable(legs, 0)) ==>
              BestFrom(legs, p, i) <= BestFrom(legs, p, i + 1) + legs[i].delta
    ensures i + 1 == |legs| && (i > 0 || Stoppable(legs, 0)) ==> BestFrom(legs, p, i) <= legs[i].delta
  {
    BestFromBounds(legs, p, i);
    if i + 1 < |legs| && i <= p {
      BrakeAboveEntry(legs, i + 1);
    }
  }

  /**
   Replanning from any planned pointer keeps every speed up to the pointer and leaves a plan
   within the limits in which every leg can brake to the next.
   */
  lemma ReplanIsStoppable(legs: seq<Leg>, p: nat)
    requires WellFormed(legs) && p < |legs|
    requires WithinLimits(legs) && Stoppable(legs, 1)
    ensures var r := Replan(legs, p).0;
            && IsSwept(r, legs, p) && SameLimits(r, legs) && WellFormed(r)
            && WithinLimits(r) && Stoppable(r, 1)
            && (Stoppable(legs, 0) ==> Stoppable(r, 0))
  {
    StoppableSkips(legs, p);
    ReplanIsSweep(legs, p);
    var r := Replan(legs, p).0;
    forall i: nat {:trigger r[i]} | i < |r|
      ensures r[i].entry >= 0.0
      ensures i > 0 ==> r[i].entry <= r[i].maxEntry
      ensures i + 1 < |r| && (i > 0 || Stoppable(legs, 0)) ==> r[i].entry <= r[i + 1].entry + r[i].delta
      ensures i + 1 == |r| && (i > 0 || Stoppable(legs, 0)) ==> r[i].entry <= r[i].delta
    {
      SweepAt(legs, p, i);
      if i + 1 < |r| { assert r[i + 1] == legs[i + 1].(entry := BestFrom(legs, p, i + 1)); }
    }
  }

  lemma PlanIsStoppable(legs: seq<Leg>)
    requires WellFormed(legs) && IsPlan(legs)
    ensures WithinLimits(legs) && Stoppable(legs, 1)
  {
    forall i: nat {:trigger legs[i]} | 1 <= i < |legs|
      ensures 0.0 <= legs[i].entry <= legs[i].maxEntry
      ensures i + 1 < |legs| ==> legs[i].entry <= legs[i + 1].entry + legs[i].delta
      ensures i + 1 == |legs| ==> legs[i].entry <= legs[i].delta
    {
      BestFromTail(legs, i);
      BestFromBounds(legs, 0, i);
      if i + 1 < |legs| { assert legs[i + 1].entry == Best(legs, i + 1); }
    }
  }

  // ---------------------------------------------------------------------------
  // The planned pointer: appended legs never reach behind it
  // ---------------------------------------------------------------------------

  lemma {:induction false} BrakeGrows(legs: seq<Leg>, more: seq<Leg>, i: nat)
    requires WellFormed(legs + more) && i < |legs|
    ensures Brake(legs + more, i) >= Brake(legs, i)
    decreases |legs| - i
  {
    if i < |legs| - 1 {
      BrakeGrows(legs, more, i + 1);
    } else if |more| > 0 {
      BrakeBounds(legs + more, i + 1);
    }
  }

  /** Behind a leg that enters at its limit, braking bounds do not depend on what follows. */
  lemma {:induction false} BrakeBehindLimit(legs: seq<Leg>, more: seq<Leg>, i: nat, j: nat)
    requires WellFormed(legs + more) && 1 <= j <= i < |legs|
    requires Brake(legs, i) == legs[i].maxEntry
    ensures Brake(legs + more, j) == Brake(legs, j)
    decreases i - j
  {
    if j == i {
      BrakeGrows(legs, more, i);
      BrakeBounds(legs + more, i);
    } else {
      BrakeBehindLimit(legs, more, i, j + 1);
    }
  }

  lemma {:induction false} BestBehindLimit(legs: seq<Leg>, more: seq<Leg>, i: nat, j: nat)
    requires WellFormed(legs + more) && j <= i < |legs|
    requires i > 0 ==> Brake(legs, i) == legs[i].maxEntry
    ensures Best(legs + more, j) == Best(legs, j)
  {
    if j > 0 {
      BrakeBehindLimit(legs, more, i, j);
      BestBehindLimit(legs, more, i, j - 1);
    }
  }

  /** Entry speeds up to a locked leg are final: no appended legs change them. */
  lemma {:induction false} LockedIsFinal(legs: seq<Leg>, more: seq<Leg>, p: nat, i: nat)
    requires WellFormed(legs) && WellFormed(legs + more)
    requires IsPlan(legs) && i <= p < |legs| && Locked(legs, p)
    ensures Best(legs + more, i) == legs[i].entry
    decreases p
  {
    if p == 0 || legs[p].entry == legs[p].maxEntry {
      BestFromTail(legs, p);
      BestFromBounds(legs, 0, p);
      BestBehindLimit(legs, more, p, i);
    } else if i < p {
      LockedIsFinal(legs, more, p - 1, i);
    } else {
      LockedIsFinal(legs, more, p - 1, p - 1);
      BrakeGrows(legs, more, p);
      assert Best(legs, p) == legs[p].entry <= Brake(legs, p);
    }
  }

  lemma AppendedIsStoppable(legs: seq<Leg>, x: Leg)
    requires WellFormed(legs) && WellFormed([x]) && x.entry == 0.0
    requires WithinLimits(legs) && Stoppable(legs, 1)
    ensures WellFormed(legs + [x]) && WithinLimits(legs + [x]) && Stoppable(legs + [x], 1)
    ensures Stoppable(legs, 0) ==> Stoppable(legs + [x], 0)
  {
    var all := legs + [x];
    assert [x][0] == x;
    assert all[|legs|].entry == 0.0;
    assert forall i: nat {:trigger all[i]} | i < |legs| :: all[i] == legs[i];
  }

  /**
   Incremental planning equals full planning: in a planned buffer, appending a block and
   replanning from the planned pointer gives the plan of a full pass over all blocks, and
   the planned pointer may stand where the code puts it.
   */
  lemma AppendKeepsPlan(legs: seq<Leg>, p: nat, x: Leg)
    requires WellFormed(legs) && WellFormed([x]) && x.entry == 0.0
    requires IsPlan(legs) && p < |legs| && Locked(legs, p)
    ensures var r := Replan(legs + [x], p);
            && IsSwept(r.0, legs + [x], 0)
            && IsPlan(r.0) && Locked(r.0, r.1)
  {
    var all := legs + [x];
    PlanIsStoppable(legs);
    AppendedIsStoppable(legs, x);
    StoppableSkips(all, p);
    LockedOfPrefix(legs, all, p);
    ReplanIsSweep(all, p);
    LockedPrefixSettled(legs, x, p);
    SweptIsPlan(Replan(all, p).0, all, p);
  }

  lemma LockedPrefixSettled(legs: seq<Leg>, x: Leg, p: nat)
    requires WellFormed(legs) && WellFormed(legs + [x]) && IsPlan(legs) && p < |legs| && Locked(legs, p)
    ensures forall i: nat {:trigger (legs + [x])[i]} | i <= p :: (legs + [x])[i].entry == Best(legs + [x], i)
  {
    var all := legs + [x];
    forall i: nat {:trigger all[i]} | i <= p ensures all[i].entry == Best(all, i) {
      LockedIsFinal(legs, [x], p, i);
    }
  }

  /** A sweep from a settled leg is the from-scratch plan. */
  lemma SweptIsPlan(r: seq<Leg>, legs: seq<Leg>, p: nat)
    requires p < |legs| && IsSwept(r, legs, p)
    requires forall j: nat {:trigger legs[j]} | j <= p :: legs[j].entry == Best(legs, j)
    ensures IsPlan(r) && IsSwept(r, legs, 0) && SameLimits(r, legs) && r[0] == legs[0]
  {
    assert r[0] == legs[0];
    forall i: nat | i < |r| ensures BestFrom(legs, p, i) == Best(legs, i) == Best(r, i) == BestFrom(legs, 0, i) {
      SettledBest(legs, p, i);
      BestOfSame(r, legs, i);
      BestFromTail(legs, i);
    }
  }

  /** Replanning from the tail gives the from-scratch plan, whatever happened to the tail. */
  lemma ReplanFromTail(legs: seq<Leg>)
    requires |legs| > 0 && WellFormed(legs) && WithinLimits(legs) && Stoppable(legs, 1)
    ensures var r := Replan(legs, 0); IsPlan(r.0) && IsSwept(r.0, legs, 0) && Locked(r.0, r.1)
  {
    StoppableSkips(legs, 0);
    ReplanIsSweep(legs, 0);
    SweptIsPlan(Replan(legs, 0).0, legs, 0);
  }

  // ---------------------------------------------------------------------------
  // Optimality
  // ---------------------------------------------------------------------------

  ghost function Entries(legs: seq<Leg>): (v: seq<real>)
    ensures |v| == |legs| && forall i | 0 <= i < |v| :: v[i] == legs[i].entry
  {
    seq(|legs|, i requires 0 <= i < |legs| => legs[i].entry)
  }

  /** `v` keeps the tail's speed, the junction limits, and the acceleration limits, and ends at rest. */
  ghost predicate Feasible(legs: seq<Leg>, v: seq<real>) {
    && |v| == |legs|
    && (|v| > 0 ==> v[0] == legs[0].entry)
    && (forall i | 1 <= i < |v| :: 0.0 <= v[i] <= legs[i].maxEntry)
    && (forall i, j {:trigger v[i], v[j]} | 0 <= i < j < |v| && j == i + 1 ::
         v[j] <= v[i] + legs[i].delta)
    && (forall i, j {:trigger v[i], v[j]} | 1 <= i < j < |v| && j == i + 1 ::
         v[i] <= v[j] + legs[i].delta)
    && (|v| > 1 ==> v[|v| - 1] <= legs[|v| - 1].delta)
  }

  /** The tail block, whose entry speed is given, can brake to its exit speed. */
  ghost predicate TailBrakes(legs: seq<Leg>, v: seq<real>)
    requires |v| == |legs|
  {
    |v| > 0 ==> v[0] <= (if |v| > 1 then v[1] else 0.0) + legs[0].delta
  }

  lemma {:induction false} FeasibleBelowBrake(legs: seq<Leg>, v: seq<real>, i: nat)
    requires Feasible(legs, v) && 1 <= i < |legs|
    ensures v[i] <= Brake(legs, i)
    decreases |legs| - i
  {
    if i < |legs| - 1 { FeasibleBelowBrake(legs, v, i + 1); }
  }

  lemma {:induction false} FeasibleBelowBest(legs: seq<Leg>, v: seq<real>, i: nat)
    requires Feasible(legs, v) && i < |legs|
    ensures v[i] <= Best(legs, i)
  {
    if i > 0 {
      FeasibleBelowBrake(legs, v, i);
      FeasibleBelowBest(legs, v, i - 1);
    }
  }

  lemma PlanIsFeasible(legs: seq<Leg>)
    requires WellFormed(legs) && IsPlan(legs)
    ensures Feasible(legs, Entries(legs))
  {
    PlanIsStoppable(legs);
    var e := Entries(legs);
    forall i, j {:trigger e[i], e[j]} | 0 <= i < j < |e| && j == i + 1
      ensures e[j] <= e[i] + legs[i].delta
      ensures i > 0 ==> e[i] <= e[j] + legs[i].delta
    {
      assert Best(legs, j) <= Best(legs, i) + legs[i].delta;
    }
  }

  /**
   The plan is feasible and is pointwise the greatest feasible plan with the tail's entry
   speed fixed; and the tail can brake in it as soon as it can in any feasible plan.
   */
  lemma PlanIsOptimal(legs: seq<Leg>, v: seq<real>)
    requires WellFormed(legs) && IsPlan(legs)
    ensures Feasible(legs, Entries(legs))
    ensures Feasible(legs, v) ==> forall i | 0 <= i < |v| :: v[i] <= Entries(legs)[i]
    ensures Feasible(legs, v) && TailBrakes(legs, v) ==> TailBrakes(legs, Entries(legs))
  {
    PlanIsFeasible(legs);
    if Feasible(legs, v) {
      forall i: nat | i < |v| ensures v[i] <= Entries(legs)[i] {
        FeasibleBelowBest(legs, v, i);
      }
    }
  }
}
