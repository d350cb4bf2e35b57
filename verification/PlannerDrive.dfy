/**
 The planner and the step generator meet: the planner operations of the pipeline are steps of
 the planner model, and a tail block driven along its velocity profile makes the progress
 that the planner model allows.
 */
module PlannerDrive {
  import opened Axes
  import opened Blocks
  import opened Options
  import opened PlannerTheory
  import M = Motion
  import P = PlannerRuns
  import V = VelocityProfile

  /** The pipeline as the planner model sees it. */
  function PlannerView(m: M.Machine): P.State {
    P.State(Legs(m.plan), m.planned,
            if m.prep.loaded then Some(m.prep.currentSqr) else None, m.executeHold)
  }

  ghost predicate Consistent(m: M.Machine) {
    && (m.plan != [] ==> m.planned < |m.plan|)
    && (m.plan == [] ==> m.planned == 0 && !m.prep.loaded)
  }

  lemma LegsOfUpdate(bs: seq<PlanBlock>, i: nat, b: PlanBlock)
    requires i < |bs|
    ensures Legs(bs[i := b]) == Legs(bs)[i := LegOf(b)]
  {
  }

  // ---------------------------------------------------------------------------
  // The pipeline's planner operations are the planner model's
  // ---------------------------------------------------------------------------

  lemma NotifyAgrees(m: M.Machine)
    requires Consistent(m)
    ensures PlannerView(M.Notify(m)) == P.Notify(PlannerView(m)) && Consistent(M.Notify(m))
  {
    if m.prep.loaded {
      EntryOnly(m.plan[0], m.prep.currentSqr);
      LegsOfUpdate(m.plan, 0, m.plan[0].(entrySqr := m.prep.currentSqr));
    }
  }

  lemma RecalculateAgrees(m: M.Machine)
    requires Consistent(m)
    ensures PlannerView(M.Recalculate(m)) == P.Recalculate(PlannerView(m)) && Consistent(M.Recalculate(m))
  {
    NotifyAgrees(m);
    if m.planned + 1 < |m.plan| {
      var t := if m.planned == 0 then M.Notify(m) else m;
      ReplanLimits(Legs(t.plan), t.planned);
      LegsOfEntries(t.plan, Replan(Legs(t.plan), t.planned).0);
    }
  }

  lemma ReinitializeAgrees(m: M.Machine)
    requires Consistent(m)
    ensures PlannerView(M.Reinitialize(m)) == P.Reinitialize(PlannerView(m))
    ensures Consistent(M.Reinitialize(m))
  {
    NotifyAgrees(m);
    RecalculateAgrees(M.Notify(m).(planned := 0));
  }

  /** A line appends one leg; the first line of an empty buffer starts from rest. */
  lemma EnqueueAgrees(m: M.Machine, b: PlanBlock, target: Vec<int>)
    requires Consistent(m) && b.entrySqr == 0.0 && b.maxEntrySqr >= 0.0 && LegOf(b).delta >= 0.0
    requires m.plan == [] ==> b.maxEntrySqr == 0.0
    ensures P.Enabled(PlannerView(m), P.Append(b.maxEntrySqr, LegOf(b).delta))
    ensures PlannerView(M.Enqueue(m, b, target))
         == P.Step(PlannerView(m), P.Append(b.maxEntrySqr, LegOf(b).delta))
  {
    var t := M.Appended(m, b, target);
    assert Legs(t.plan) == Legs(m.plan) + [LegOf(b)];
    RecalculateAgrees(t);
  }

  /** A block that is cut to its end is let go and discarded. */
  lemma DiscardAgrees(m: M.Machine)
    requires Consistent(m) && m.plan != []
    ensures var t := M.Discard(m.(prep := m.prep.(loaded := false)));
            PlannerView(t) == P.Step(PlannerView(m), P.Discard) && Consistent(t)
  {
    assert Legs(m.plan[1..]) == Legs(m.plan)[1..];
  }

  /** Starting and finishing a hold are the planner model's hold events. */
  lemma HoldsAgree(m: M.Machine)
    requires Consistent(m)
    ensures PlannerView(M.StartHold(m)) == P.Step(PlannerView(m), P.Hold)
    ensures P.Enabled(PlannerView(m), P.HoldComplete) ==>
              PlannerView(M.FinishHold(m)) == P.Step(PlannerView(m), P.HoldComplete)
  {
    NotifyAgrees(m);
    ReinitializeAgrees(m);
  }

  // ---------------------------------------------------------------------------
  // Entry limits never exceed the nominal speeds on either side
  // ---------------------------------------------------------------------------

  function NominalSqrs(bs: seq<PlanBlock>, o: Overrides): (r: seq<real>)
    ensures |r| == |bs|
    ensures forall i {:trigger r[i]} :: 0 <= i < |r| ==> r[i] == NominalSqr(bs[i], o)
  {
    seq(|bs|, i requires 0 <= i < |bs| => NominalSqr(bs[i], o))
  }

  /** Every entry limit is within the squared nominal speeds `sq` of the block and of the one before it. */
  ghost predicate Within(bs: seq<PlanBlock>, sq: seq<real>) {
    && |sq| == |bs|
    && (forall i {:trigger bs[i]} | 0 <= i < |bs| :: bs[i].maxEntrySqr <= sq[i])
    && (forall i, j {:trigger sq[i], bs[j]} | 0 <= i < j < |bs| && j == i + 1 :: bs[j].maxEntrySqr <= sq[i])
  }

  ghost predicate Joined(bs: seq<PlanBlock>, o: Overrides, prev: real) {
    && Within(bs, NominalSqrs(bs, o))
    && (bs != [] ==> prev == NominalSpeed(bs[|bs| - 1], o))
  }

  lemma NominalIgnoresPlan(a: PlanBlock, b: PlanBlock, o: Overrides)
    requires b.line == a.line && b.programmedRate == a.programmedRate && b.rapidRate == a.rapidRate
    ensures NominalSpeed(a, o) == NominalSpeed(b, o)
    ensures NominalSqr(a, o) == NominalSqr(b, o)
  {
  }

  /** Blocks that differ in planned speeds only have the same nominal speeds. */
  lemma SameNominals(bs: seq<PlanBlock>, r: seq<PlanBlock>, o: Overrides)
    requires |r| == |bs|
    requires forall i {:trigger r[i]} :: 0 <= i < |bs| ==>
               r[i] == bs[i].(entrySqr := r[i].entrySqr, maxEntrySqr := r[i].maxEntrySqr)
    ensures NominalSqrs(r, o) == NominalSqrs(bs, o)
    ensures bs != [] ==> NominalSpeed(r[|r| - 1], o) == NominalSpeed(bs[|bs| - 1], o)
  {
    var n, n' := NominalSqrs(bs, o), NominalSqrs(r, o);
    forall i | 0 <= i < |bs| ensures n'[i] == n[i] {
      NominalIgnoresPlan(bs[i], r[i], o);
    }
    if bs != [] { NominalIgnoresPlan(bs[|bs| - 1], r[|r| - 1], o); }
  }

  lemma EntriesKeepJoined(bs: seq<PlanBlock>, r: seq<PlanBlock>, o: Overrides, prev: real)
    requires |r| == |bs| && Joined(bs, o, prev)
    requires forall i {:trigger r[i]} :: 0 <= i < |bs| ==> r[i] == bs[i].(entrySqr := r[i].entrySqr)
    ensures Joined(r, o, prev)
  {
    SameNominals(bs, r, o);
  }

  lemma RecalculateKeepsJoined(m: M.Machine)
    requires Consistent(m) && Joined(m.plan, m.overrides, m.previousNominal)
    ensures var t := M.Recalculate(m); Joined(t.plan, m.overrides, m.previousNominal)
  {
    if m.planned + 1 < |m.plan| {
      var u := if m.planned == 0 then M.Notify(m) else m;
      EntriesKeepJoined(m.plan, u.plan, m.overrides, m.previousNominal);
      EntriesKeepJoined(u.plan, ReplanBlocks(u.plan, u.planned).0, m.overrides, m.previousNominal);
    }
  }

  /** Planning a line keeps every entry limit below the nominal speeds of both neighbours. */
  lemma EnqueueKeepsJoined(m: M.Machine, b: PlanBlock, target: Vec<int>)
    requires Consistent(m) && Joined(m.plan, m.overrides, m.previousNominal)
    requires b.maxEntrySqr <= NominalSqr(b, m.overrides)
    requires b.maxEntrySqr <= Square(m.previousNominal)
    ensures var t := M.Enqueue(m, b, target); Joined(t.plan, t.overrides, t.previousNominal)
  {
    AppendKeepsJoined(m.plan, b, m.overrides, m.previousNominal);
    RecalculateKeepsJoined(M.Appended(m, b, target));
  }

  lemma AppendKeepsJoined(bs: seq<PlanBlock>, b: PlanBlock, o: Overrides, prev: real)
    requires Joined(bs, o, prev) && b.maxEntrySqr <= NominalSqr(b, o) && b.maxEntrySqr <= Square(prev)
    ensures Joined(bs + [b], o, NominalSpeed(b, o))
  {
    var r := bs + [b];
    assert NominalSqrs(r, o) == NominalSqrs(bs, o) + [NominalSqr(b, o)];
    WithinAppend(bs, NominalSqrs(bs, o), b, NominalSqr(b, o), Square(prev));
  }

  lemma WithinAppend(bs: seq<PlanBlock>, sq: seq<real>, b: PlanBlock, nominal: real, prev: real)
    requires Within(bs, sq) && b.maxEntrySqr <= nominal && b.maxEntrySqr <= prev
    requires bs != [] ==> sq[|bs| - 1] == prev
    ensures Within(bs + [b], sq + [nominal])
  {
  }

  lemma DiscardKeepsJoined(m: M.Machine)
    requires Joined(m.plan, m.overrides, m.previousNominal)
    ensures Joined(M.Discard(m).plan, m.overrides, m.previousNominal)
  {
    if m.plan != [] {
      var sq := NominalSqrs(m.plan, m.overrides);
      assert NominalSqrs(m.plan[1..], m.overrides) == sq[1..];
      WithinRest(m.plan, sq);
    }
  }

  lemma WithinRest(bs: seq<PlanBlock>, sq: seq<real>)
    requires bs != [] && Within(bs, sq)
    ensures Within(bs[1..], sq[1..])
  {
    var r := bs[1..];
    assert forall i {:trigger r[i]} | 0 <= i < |r| :: r[i] == bs[i + 1] && sq[1..][i] == sq[i + 1];
    forall i, j {:trigger sq[1..][i], r[j]} | 0 <= i < j < |r| && j == i + 1 ensures r[j].maxEntrySqr <= sq[1..][i] {
      assert bs[j + 1].maxEntrySqr <= sq[i + 1];
    }
  }

  /** After an override the limits are joined again, whatever they were. */
  lemma {:induction false} RelimitJoins(bs: seq<PlanBlock>, o: Overrides, prev: real)
    requires prev >= 0.0 && forall b | b in bs :: b.maxJunctionSqr >= 0.0
    ensures Within(Relimit(bs, o, prev), NominalSqrs(bs, o))
    ensures bs != [] ==> Relimit(bs, o, prev)[0].maxEntrySqr <= Square(prev)
  {
    if bs != [] {
      RelimitJoins(bs[1..], o, NominalSpeed(bs[0], o));
      RelimitOne(bs, o, prev);
      var r := Relimit(bs, o, prev);
      WithinPrepend(r[0], r[1..], NominalSqr(bs[0], o), NominalSqrs(bs[1..], o));
      assert r == [r[0]] + r[1..];
      assert NominalSqrs(bs, o) == [NominalSqr(bs[0], o)] + NominalSqrs(bs[1..], o);
    }
  }

  lemma RelimitOne(bs: seq<PlanBlock>, o: Overrides, prev: real)
    requires bs != [] && prev >= 0.0 && forall b | b in bs :: b.maxJunctionSqr >= 0.0
    ensures var r := Relimit(bs, o, prev);
            && r[0].maxEntrySqr <= NominalSqr(bs[0], o) && r[0].maxEntrySqr <= Square(prev)
            && r[1..] == Relimit(bs[1..], o, NominalSpeed(bs[0], o))
  {
  }

  lemma WithinPrepend(b: PlanBlock, bs: seq<PlanBlock>, nominal: real, sq: seq<real>)
    requires Within(bs, sq) && b.maxEntrySqr <= nominal
    requires bs != [] ==> bs[0].maxEntrySqr <= nominal
    ensures Within([b] + bs, [nominal] + sq)
  {
    var r, q := [b] + bs, [nominal] + sq;
    assert forall i {:trigger r[i]} | 1 <= i < |r| :: r[i] == bs[i - 1];
    forall i, j {:trigger q[i], r[j]} | 0 <= i < j < |r| && j == i + 1 ensures r[j].maxEntrySqr <= q[i] {
      if i > 0 { assert q[i] == sq[i - 1] && r[j] == bs[j - 1]; }
    }
  }

  /** The exit speed of the tail is never above its nominal speed. */
  lemma ExitBelowNominal(bs: seq<PlanBlock>, o: Overrides, prev: real)
    requires bs != [] && Joined(bs, o, prev)
    requires |bs| > 1 ==> bs[1].entrySqr <= bs[1].maxEntrySqr
    ensures ExitSqr(bs) <= NominalSqr(bs[0], o)
  {
    if |bs| > 1 { assert bs[1].maxEntrySqr <= NominalSqrs(bs, o)[0]; }
  }

  // ---------------------------------------------------------------------------
  // Driving the tail block
  // ---------------------------------------------------------------------------

  /** In a planned buffer the tail block meets every premise of its velocity profile. */
  lemma TailIsFeasible(s: P.State, nominal: real, a: real, mm: real)
    requires P.Inv(s) && !s.holding && s.legs != [] && s.speed.None?
    requires a > 0.0 && mm > 0.0 && s.legs[0].delta == V.Gain(a, mm) && nominal >= 0.0
    requires |s.legs| > 1 ==> s.legs[1].maxEntry <= nominal
    ensures V.PlannerFeasible(s.legs[0].entry, P.ExitSpeed(s.legs), nominal, a, mm)
  {
    assert P.Actual(s) == s.legs;
    if |s.legs| > 1 {
      assert Best(s.legs, 1) == s.legs[1].entry;
    }
    assert s.legs[0].entry <= P.ExitSpeed(s.legs) + s.legs[0].delta;
    V.GainIsMonotone(a, 0.0, mm);
  }

  /**
   Driving the tail along its profile from distance `x` to distance `y` is progress that the
   planner model allows: it keeps the plan a full plan.
   */
  lemma DriveIsProgress(s: P.State, prior: V.Profile, entry: real, nominal: real, a: real, mm: real, x: real, y: real)
    requires P.Inv(s) && !s.holding && s.legs != []
    requires V.PlannerFeasible(entry, P.ExitSpeed(s.legs), nominal, a, mm) && entry <= nominal
    requires 0.0 <= y <= x <= mm && s.legs[0].delta == V.Gain(a, x)
    requires var p := V.NormalProfile(prior, entry, P.ExitSpeed(s.legs), nominal, a, mm);
             s.speed == Some(V.SpeedSqr(p, entry, a, mm, x))
    ensures var p := V.NormalProfile(prior, entry, P.ExitSpeed(s.legs), nominal, a, mm);
            var e := P.Progress(V.SpeedSqr(p, entry, a, mm, y), V.Gain(a, y));
            P.Enabled(s, e) && P.Inv(P.Step(s, e))
  {
    var exit := P.ExitSpeed(s.legs);
    V.ProfileMeetsPlan(prior, entry, exit, nominal, a, mm, y);
    V.ProfileIsProgress(prior, entry, exit, nominal, a, mm, y);
    V.SpeedIsContinuous(prior, entry, exit, nominal, a, mm, x, y);
    V.GainIsLinear(a, x, y);
    V.GainIsMonotone(a, 0.0, y);
    V.GainIsMonotone(a, y, x);
    var p := V.NormalProfile(prior, entry, exit, nominal, a, mm);
    P.StepKeepsInv(s, P.Progress(V.SpeedSqr(p, entry, a, mm, y), V.Gain(a, y)));
  }
}
