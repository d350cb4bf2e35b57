/** The speed of the machine is carried over from block to block: in a cycle, in a hold, and in a slowdown. */
module SpeedCarryover {
  import opened Blocks
  import opened Conservation
  import opened DrivenRuns
  import opened Motion
  import opened MotionRuns
  import opened Pipeline
  import opened VelocityProfile

  /** Between two blocks the machine has the speed at which the last profile was to end. */
  predicate Flowing(m: Machine) {
    !Open(m) ==> m.prep.currentSqr == m.prep.profile.exitSqr
  }

  lemma RespeedingFlows(m: Machine, t: Machine)
    requires Flowing(m) && Respeeded(m, t)
    ensures Flowing(t)
  {
  }

  lemma LineFlows(m: Machine, e: Event)
    requires Good(m) && DriveInv(m) && Enabled(m, e) && e.Line? && Flowing(m)
    ensures Flowing(Next(m, e))
  {
    Legal(m, e);
    var b := PlannedBlock(m.planPosition, e.target, e.line, e.geometry, m.plan == [], m.overrides, m.previousNominal);
    if b.stepEventCount > 0 {
      PlannedBlockOk(m.planPosition, e.target, b);
      AppendFlows(m, b, e.target);
    }
  }

  lemma AppendFlows(m: Machine, b: PlanBlock, target: Axes.Vec<int>)
    requires Good(m) && DriveInv(m) && Flowing(m) && BlockOk(b) && b.entrySqr == 0.0
    requires m.plan == [] ==> b.maxEntrySqr == 0.0
    ensures m.plan != [] ==> m.planned < |m.plan|
    ensures Flowing(Enqueue(m, b, target))
  {
    GoodFacts(m);
    EnqueueKeepsSound(m, b, target);
  }

  lemma CommitFlows(m: Machine, e: Event)
    requires Good(m) && DriveInv(m) && Enabled(m, e) && Follows(m, e) && e.Commit?
    ensures Flowing(Next(m, e))
  {
    Legal(m, e);
    var jobs :| Inv(m, jobs);
    SegmentsHaveSteps(m, jobs, e.mmRemaining);
    var y, v := e.mmRemaining, e.speedSqr;
    if m.executeHold {
      var prior, entry, mm :| BrakedFrom(m, prior, entry, mm);
      BrakeAdvances(m, v, y, prior, entry, mm);
    } else {
      var prior, entry, mm :| ProfiledFrom(m, prior, entry, mm);
      DriveAdvances(m, v, y, prior, entry, mm);
    }
    if StepsTo(m, y) > 0 || !m.executeHold { CommitAdvances(m, y, v, e.level); }
  }

  lemma HoldFlows(m: Machine)
    requires DriveInv(m) && Flowing(m)
    ensures Flowing(StartHold(m)) && Flowing(FinishHold(m))
  {
    NotifyRespeeds(m);
    RespeedingFlows(m, Notify(m));
    ReinitializeRespeeds(m);
    RespeedingFlows(m, Reinitialize(m));
  }

  lemma LoadFlows(m: Machine)
    requires Good(m) && Enabled(m, Load)
    ensures Flowing(Next(m, Load))
  {
    Legal(m, Load);
  }

  lemma TickFlows(m: Machine)
    requires CanTick(m) && Flowing(m)
    ensures Flowing(Interrupt(m))
  {
  }

  lemma NextFlows(m: Machine, e: Event)
    requires Good(m) && DriveInv(m) && Enabled(m, e) && Follows(m, e) && Flowing(m)
    ensures Flowing(Next(m, e))
  {
    Legal(m, e);
    match e
    case Line(_, _, _) => LineFlows(m, e);
    case Commit(_, _, _) => CommitFlows(m, e);
    case Load => LoadFlows(m);
    case Tick => TickFlows(m);
    case Hold => HoldFlows(m);
    case HoldDone => HoldFlows(m);
    case Override(o) => OverrideFlows(m, o);
    case _ =>
  }

  lemma OverrideFlows(m: Machine, o: Overrides)
    requires DriveInv(m) && Follows(m, Override(o)) && Flowing(m) && forall b | b in m.plan :: b.maxJunctionSqr >= 0.0
    ensures Flowing(SetOverrides(m, o))
  {
    OverrideIsSound(m, o);
    ReinitializeRespeeds(Relimited(m, o));
    RespeedingFlows(Relimited(m, o), Reinitialize(Relimited(m, o)));
  }

  lemma {:induction false} DrivenFlows(events: seq<Event>, m: Machine)
    requires Drives(events, m)
    ensures Good(m) && DriveInv(m) && Flowing(m)
    decreases |events|
  {
    DrivenIsGood(events, m);
    if events != [] {
      var n := |events| - 1;
      var t :| Drives(events[..n], t) && Good(t) && Enabled(t, events[n]) && Follows(t, events[n]) && m == Next(t, events[n]);
      DrivenFlows(events[..n], t);
      NextFlows(t, events[n]);
    }
  }

  /**
   In every driven run, with or without a hold, taking a block, anew or again, leaves the speed of the machine as
   it is; the block is entered at just that speed.
   */
  lemma SpeedIsCarriedOver(events: seq<Event>, m: Machine)
    requires Drives(events, m) && Enabled(m, Load)
    ensures Good(m)
    ensures var t := Next(m, Load);
            t.prep.currentSqr == m.prep.currentSqr && t.plan != [] && t.plan[0].entrySqr == m.prep.currentSqr
  {
    DrivenFlows(events, m);
    Legal(m, Load);
  }

  /**
   Outside these runs, a block that is entered too fast after an override and is too short to be slowed down in
   hands over the speed that is left to the next block, whatever that was planned to be entered at.
   */
  lemma SlowdownIsCarriedOver(m: Machine, prior: Profile, entry: real, nominal: real, level: nat)
    requires |m.plan| > 1 && m.plan[0].acceleration > 0.0 && m.plan[1].millimeters > 0.0
    requires |m.slots| == 5 && m.prep.slot < 5 && m.prep.loaded && !m.prep.recalculate && !m.executeHold && level <= 3
    requires StepsTo(m, 0.0) >= 0
    requires var b := m.plan[0];
             && entry > nominal && entry - Gain(b.acceleration, b.millimeters) >= nominal
             && m.prep.profile == NormalProfile(prior, entry, ExitSqr(m.plan), nominal, b.acceleration, b.millimeters)
    ensures var v := SpeedSqr(m.prep.profile, entry, m.plan[0].acceleration, m.plan[0].millimeters, 0.0);
            WholeSteps(m.prep.stepPerMm, 0.0) >= 0
            && TakeBlock(CommitSegment(m, 0.0, v, level)).prep.currentSqr == v == entry - Gain(m.plan[0].acceleration, m.plan[0].millimeters)
  {
    var b := m.plan[0];
    GainOfDistance(b.acceleration, entry - nominal);
  }
}
