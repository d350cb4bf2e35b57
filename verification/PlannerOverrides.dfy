/**
 Where the at-max skip of the reverse pass stops being an optimisation: the entry-speed
 limits were lowered by an override after the entry speeds had been planned.
 */
module PlannerOverrides {
  import opened PlannerTheory

  /** The forward pass over given braking speeds. */
  ghost function Swept(braked: seq<Leg>, i: nat): real
    requires i < |braked|
  {
    if i == 0 then braked[0].entry
    else Min(braked[i].entry, Swept(braked, i - 1) + braked[i - 1].delta)
  }

  /** The code's braking speeds: the reverse pass with its skips. */
  function Skipped(legs: seq<Leg>): (r: seq<Leg>)
    requires |legs| > 1
    ensures |r| == |legs|
  {
    ReversePass(BrakeLast(legs), |legs| - 2, 0)
  }

  lemma {:induction false} ForwardPassIsSwept(legs: seq<Leg>, i: nat, planned: nat, braked: seq<Leg>)
    requires 1 <= i <= |legs| && planned < i && |legs| == |braked|
    requires WellFormed(braked)
    requires forall j: nat {:trigger legs[j]} | j < |legs| ::
               legs[j] == braked[j].(entry := if j < i then Swept(braked, j) else braked[j].entry)
    ensures forall j: nat {:trigger Swept(braked, j)} | j < |legs| ::
              ForwardPass(legs, i, planned).0[j].entry == Swept(braked, j)
    decreases |legs| - i
  {
    if i < |legs| {
      assert legs[i - 1].entry == Swept(braked, i - 1);
      assert ForwardStep(legs, i).entry == Swept(braked, i);
      ForwardPassIsSwept(legs[i := ForwardStep(legs, i)], i + 1, if LocksAt(legs, i) then i else planned, braked);
    }
  }

  /** Skipping can only leave a braking speed too high. */
  lemma {:induction false} SkipOvershoots(legs: seq<Leg>, i: nat, p: nat, before: seq<Leg>)
    requires p <= i && i + 1 < |legs| && SameLimits(legs, before) && WellFormed(legs)
    requires forall j: nat {:trigger legs[j]} | i < j < |legs| :: legs[j].entry >= Brake(before, j)
    ensures var r := ReversePass(legs, i, p);
            && SameLimits(r, before) && WellFormed(r) && r[p] == legs[p]
            && forall j: nat {:trigger Brake(before, j)} | p < j < |r| :: r[j].entry >= Brake(before, j)
    decreases i
  {
    if i > p {
      var swept := ReverseStep(legs, i);
      assert legs[i + 1].entry >= Brake(before, i + 1);
      assert swept[i].entry >= Brake(before, i);
      SkipOvershoots(swept, i - 1, p, before);
    }
  }

  lemma SkippedFacts(legs: seq<Leg>)
    requires |legs| > 1 && WellFormed(legs)
    ensures SameLimits(Skipped(legs), legs) && WellFormed(Skipped(legs)) && Skipped(legs)[0] == legs[0]
    ensures forall j: nat {:trigger Brake(legs, j)} | 1 <= j < |legs| :: Skipped(legs)[j].entry >= Brake(legs, j)
  {
    SkipOvershoots(BrakeLast(legs), |legs| - 2, 0, legs);
  }

  /** Where the skip overshoots the braking bound, the machine cannot accelerate to that bound anyway. */
  ghost predicate OvershootsUnreachable(legs: seq<Leg>)
    requires |legs| > 1
  {
    forall i: nat {:trigger Brake(legs, i)} | 1 <= i < |legs| && Skipped(legs)[i].entry > Brake(legs, i) ::
      Best(legs, i - 1) + legs[i - 1].delta <= Brake(legs, i)
  }

  ghost predicate ReplansFully(legs: seq<Leg>)
    requires |legs| > 1
  {
    forall i: nat {:trigger Best(legs, i)} | i < |legs| :: Replan(legs, 0).0[i].entry == Best(legs, i)
  }

  lemma {:induction false} SweptAgrees(legs: seq<Leg>, i: nat)
    requires |legs| > 1 && WellFormed(legs) && i < |legs| && OvershootsUnreachable(legs)
    ensures Swept(Skipped(legs), i) == Best(legs, i)
  {
    SkippedFacts(legs);
    if i > 0 {
      SweptAgrees(legs, i - 1);
      assert Skipped(legs)[i].entry >= Brake(legs, i);
    }
  }

  /**
   For arbitrary entry speeds and limits, a replan from the tail equals the from-scratch plan
   if and only if no overshoot of the at-max skip is within reach.
   */
  lemma ReplanExact(legs: seq<Leg>)
    requires |legs| > 1 && WellFormed(legs)
    ensures ReplansFully(legs) <==> OvershootsUnreachable(legs)
  {
    var braked := Skipped(legs);
    SkippedFacts(legs);
    ForwardPassIsSwept(braked, 1, 0, braked);
    if OvershootsUnreachable(legs) {
      forall i: nat {:trigger Best(legs, i)} | i < |legs| ensures Replan(legs, 0).0[i].entry == Best(legs, i) {
        SweptAgrees(legs, i);
      }
    }
    if ReplansFully(legs) {
      forall i: nat {:trigger Brake(legs, i)} | 1 <= i < |legs| && braked[i].entry > Brake(legs, i)
        ensures Best(legs, i - 1) + legs[i - 1].delta <= Brake(legs, i)
      {
        assert Swept(braked, i) == Best(legs, i) && Swept(braked, i - 1) == Best(legs, i - 1);
      }
    }
  }

  // ---------------------------------------------------------------------------
  // The same condition on entry speeds and limits alone
  // ---------------------------------------------------------------------------

  /** What the reverse pass leaves in a leg, from what it left in the next one. */
  lemma {:induction false} ReversePassAt(legs: seq<Leg>, i: nat, p: nat, j: nat)
    requires p <= i && i + 1 < |legs|
    ensures var r := ReversePass(legs, i, p);
            && (i < j < |legs| ==> r[j] == legs[j])
            && (p < j <= i ==> r[j].entry == if legs[j].entry == legs[j].maxEntry then legs[j].entry
                                            else Min(r[j + 1].entry + legs[j].delta, legs[j].maxEntry))
    decreases i
  {
    if i > p {
      var swept := ReverseStep(legs, i);
      ReversePassAt(swept, i - 1, p, j);
      ReversePassAt(swept, i - 1, p, i + 1);
      ReversePassAt(swept, i - 1, p, i);
    }
  }

  lemma SkippedAt(legs: seq<Leg>, j: nat)
    requires |legs| > 1 && 1 <= j < |legs|
    ensures j == |legs| - 1 ==> Skipped(legs)[j].entry == Min(legs[j].maxEntry, legs[j].delta)
    ensures j < |legs| - 1 ==>
              Skipped(legs)[j].entry == if legs[j].entry == legs[j].maxEntry then legs[j].entry
                                        else Min(Skipped(legs)[j + 1].entry + legs[j].delta, legs[j].maxEntry)
  {
    ReversePassAt(BrakeLast(legs), |legs| - 2, 0, j);
  }

  /** A leg that enters at a limit which the legs behind it cannot brake from. */
  ghost predicate UnsoundAt(legs: seq<Leg>, k: nat) {
    1 <= k < |legs| - 1 && legs[k].entry == legs[k].maxEntry > Brake(legs, k + 1) + legs[k].delta
  }

  /** The machine, as the full plan drives it, cannot get faster up to there than it can brake from. */
  ghost predicate UnsoundUnreachable(legs: seq<Leg>) {
    forall k: nat {:trigger UnsoundAt(legs, k)} | UnsoundAt(legs, k) ::
      Best(legs, k - 1) + legs[k - 1].delta <= Brake(legs, k + 1) + legs[k].delta
  }

  /** An overshoot within reach comes from an unsound leg within reach at or behind it. */
  lemma {:induction false} OvershootOrigin(legs: seq<Leg>, i: nat)
    requires |legs| > 1 && WellFormed(legs) && 1 <= i < |legs| && UnsoundUnreachable(legs)
    requires forall j | 1 <= j < |legs| :: legs[j].delta > 0.0
    requires Skipped(legs)[i].entry > Brake(legs, i)
    ensures Best(legs, i - 1) + legs[i - 1].delta <= Brake(legs, i)
    decreases |legs| - i
  {
    SkippedAt(legs, i);
    if i < |legs| - 1 {
      if legs[i].entry == legs[i].maxEntry {
        assert UnsoundAt(legs, i);
      } else {
        OvershootOrigin(legs, i + 1);
        assert Best(legs, i) + legs[i].delta <= Brake(legs, i + 1);
      }
    }
  }

  /**
   For arbitrary entry speeds and limits of blocks of some length, a replan from the tail equals the
   from-scratch plan if and only if every block that enters at a limit it cannot brake from is out of reach.
   */
  lemma ReplanExactOnLimits(legs: seq<Leg>)
    requires |legs| > 1 && WellFormed(legs) && forall j | 1 <= j < |legs| :: legs[j].delta > 0.0
    ensures ReplansFully(legs) <==> UnsoundUnreachable(legs)
  {
    ReplanExact(legs);
    if UnsoundUnreachable(legs) {
      forall i: nat {:trigger Brake(legs, i)} | 1 <= i < |legs| && Skipped(legs)[i].entry > Brake(legs, i)
        ensures Best(legs, i - 1) + legs[i - 1].delta <= Brake(legs, i)
      {
        OvershootOrigin(legs, i);
      }
    }
    if OvershootsUnreachable(legs) {
      forall k: nat {:trigger UnsoundAt(legs, k)} | UnsoundAt(legs, k)
        ensures Best(legs, k - 1) + legs[k - 1].delta <= Brake(legs, k + 1) + legs[k].delta
      {
        SkippedAt(legs, k);
        assert Skipped(legs)[k].entry > Brake(legs, k);
      }
    }
  }

  /** Three legs whose limits have been lowered: leg 1 enters at its limit 49, and can shed no more than 20. */
  function Lowered(): seq<Leg> {
    [Leg(0.0, 0.0, 60.0), Leg(49.0, 49.0, 20.0), Leg(64.0, 16.0, 100.0)]
  }

  /** The replan skips leg 1, so that it cannot slow down to the limit of leg 2. */
  lemma LoweredLimitsBreakTheSkip()
    ensures var r := Replan(Lowered(), 0).0;
            && r == [Leg(0.0, 0.0, 60.0), Leg(49.0, 49.0, 20.0), Leg(16.0, 16.0, 100.0)]
            && !IsPlan(r) && !Stoppable(r, 1)
    ensures !ReplansFully(Lowered()) && Best(Lowered(), 1) == 36.0
  {
    var legs := Lowered();
    var braked := BrakeLast(legs);
    assert braked == [legs[0], legs[1], Leg(16.0, 16.0, 100.0)];
    assert ReverseStep(braked, 1) == braked;
    assert ReversePass(braked, 1, 0) == ReversePass(braked, 0, 0) == braked;
    assert braked[1 := ForwardStep(braked, 1)] == braked;
    assert braked[2 := ForwardStep(braked, 2)] == braked;
    assert LocksAt(braked, 1) && LocksAt(braked, 2);
    assert ForwardPass(braked, 3, 2) == (braked, 2);
    assert ForwardPass(braked, 2, 1) == (braked, 2);
    assert ForwardPass(braked, 1, 0) == (braked, 2);
    assert Brake(legs, 2) == 16.0 == Brake(braked, 2);
    assert Brake(legs, 1) == 36.0 == Brake(braked, 1);
    assert Best(legs, 1) == 36.0 == Best(braked, 1);
    assert braked[1].entry > braked[2].entry + braked[1].delta;
  }
}
