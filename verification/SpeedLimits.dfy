/** The speed limit of the machine's axes, carried from the line to the segments that are driven. */
module SpeedLimits {
  import opened Blocks
  import opened Conservation
  import opened DrivenRuns
  import opened Motion
  import opened MotionRuns
  import opened Pipeline

  /** Rapids are programmed at the limit of their direction. */
  predicate Rated(bs: seq<PlanBlock>) {
    forall i {:trigger bs[i]} | 0 <= i < |bs| :: bs[i].line.rapidMotion ==> bs[i].programmedRate == bs[i].rapidRate
  }

  predicate SameRates(a: seq<PlanBlock>, b: seq<PlanBlock>) {
    |a| == |b| && forall i {:trigger b[i]} | 0 <= i < |b| ::
      b[i].line == a[i].line && b[i].programmedRate == a[i].programmedRate && b[i].rapidRate == a[i].rapidRate
  }

  lemma SameStepsKeepRated(a: seq<PlanBlock>, b: seq<PlanBlock>)
    requires Rated(a) && SameSteps(a, b)
    ensures Rated(b)
  {
  }

  lemma LineKeepsRated(m: Machine, e: Event)
    requires Good(m) && Enabled(m, e) && e.Line? && Rated(m.plan)
    ensures Rated(Next(m, e).plan)
  {
    Legal(m, e);
    var jobs :| Inv(m, jobs);
    var b := PlannedBlock(m.planPosition, e.target, e.line, e.geometry, m.plan == [], m.overrides, m.previousNominal);
    if b.stepEventCount > 0 {
      LineSpeeds(m.planPosition, e.target, e.line, e.geometry, m.plan == []);
      PlannedBlockOk(m.planPosition, e.target, b);
      AppendKeepsInv(m, jobs, b, e.target);
      assert Rated(Appended(m, b, e.target).plan);
      RecalculateReplans(Appended(m, b, e.target), jobs);
      SameStepsKeepRated(Appended(m, b, e.target).plan, Next(m, e).plan);
    }
  }

  lemma ReinitializeKeepsRated(m: Machine, jobs: seq<Job>)
    requires Inv(m, jobs) && Rated(m.plan)
    ensures Rated(Reinitialize(m).plan)
  {
    NotifyReplans(m, jobs);
    NotifyKeepsInv(m, jobs);
    SameStepsKeepRated(m.plan, Notify(m).plan);
    var u := Notify(m).(planned := 0);
    assert SameSteps(Notify(m).plan, u.plan);
    ReplannedKeepsInv(Notify(m), u, jobs);
    RecalculateReplans(u, jobs);
    SameStepsKeepRated(u.plan, Reinitialize(m).plan);
  }

  lemma OverrideKeepsRated(m: Machine, jobs: seq<Job>, o: Overrides)
    requires Inv(m, jobs) && Rated(m.plan) && forall b | b in m.plan :: b.maxJunctionSqr >= 0.0
    ensures Rated(SetOverrides(m, o).plan)
  {
    assert forall b | b in m.plan :: BlockOk(b) && b.maxJunctionSqr >= 0.0;
    RelimitKeepsBlocks(m.plan, o, SOME_LARGE_VALUE);
    var u := Relimited(m, o);
    ReplannedKeepsInv(m, u, jobs);
    SameStepsKeepRated(m.plan, u.plan);
    ReinitializeKeepsRated(u, jobs);
  }

  lemma NextKeepsRated(m: Machine, e: Event)
    requires Good(m) && Enabled(m, e) && Rated(m.plan)
    ensures Rated(Next(m, e).plan)
  {
    Legal(m, e);
    var jobs :| Inv(m, jobs);
    match e
    case Line(_, _, _) => LineKeepsRated(m, e);
    case Load => assert SameRates(m.plan, TakeBlock(m).plan);
    case Tick => if m.segments != [] { TickKeepsPlan(m); }
    case HoldDone => ReinitializeKeepsRated(m, jobs);
    case Override(o) => OverrideKeepsRated(m, jobs, o);
    case _ =>
  }

  lemma {:induction false} ReachableIsRated(events: seq<Event>, m: Machine)
    requires Reaches(events, m)
    ensures Rated(m.plan)
    decreases |events|
  {
    if events != [] {
      var n := |events| - 1;
      var t :| Reaches(events[..n], t) && Good(t) && Enabled(t, events[n]) && m == Next(t, events[n]);
      ReachableIsRated(events[..n], t);
      NextKeepsRated(t, events[n]);
    }
  }

  /**
   In every driven run, no segment ends faster than the limit of its direction, where that is at least the
   minimum feed rate and rapids are not overridden upwards.
   */
  lemma NoSegmentIsTooFast(events: seq<Event>, m: Machine, e: Event)
    requires Drives(events, m) && Enabled(m, e) && e.Commit? && Follows(m, e)
    requires m.plan[0].rapidRate >= 1.0 && m.overrides.rapid <= 100
    ensures e.speedSqr <= Square(m.plan[0].rapidRate)
  {
    WithinNominal(events, m, e);
    DrivenIsRated(events, m);
    NominalIsLimited(m.plan, m.overrides);
  }

  lemma DrivenIsRated(events: seq<Event>, m: Machine)
    requires Drives(events, m)
    ensures Rated(m.plan)
  {
    DrivenIsGood(events, m);
    ReachableIsRated(events, m);
  }

  lemma WithinNominal(events: seq<Event>, m: Machine, e: Event)
    requires Drives(events, m) && Enabled(m, e) && e.Commit? && Follows(m, e)
    ensures e.speedSqr <= NominalSqr(m.plan[0], m.overrides)
  {
    BlocksAreLeftAsPlanned(events, m, e);
  }

  lemma NominalIsLimited(bs: seq<PlanBlock>, o: Overrides)
    requires bs != [] && Rated(bs) && bs[0].rapidRate >= 1.0 && o.rapid <= 100
    ensures NominalSqr(bs[0], o) <= Square(bs[0].rapidRate)
  {
    NeverFasterThanRapid(bs[0], o);
  }
}
