/**
 The realtime executor and the motion pipeline together: what the executor does to the planner and the
 step generator, interleaved with lines, loads, commits, interrupts and overrides.
 */
module JointRuns {
  import opened Options
  import opened UnfinishedHolds
  import B = Blocks
  import M = Motion
  import P = MotionRuns
  import R = Realtime
  import S = StaleProfiles

  datatype Step = Realtime(action: R.Action) | Motion(event: P.Event)

  /** A hold command that starts a deceleration. */
  predicate Decelerates(s: R.System) {
    && s.place == R.AtHold && R.HoldCommanded(s.rt) && s.state in {R.Cycle, R.Jog}
    && !s.suspend.motionCancel && !s.suspend.jogCancel
  }

  /** What a step of the executor does to the pipeline. */
  function Effect(s: R.System, a: R.Action): Option<P.Event> {
    if !a.Stage? then None
    else if Decelerates(s) then Some(P.Hold)
    else if StartObeyed(s) then Some(P.CycleStart)
    else if HoldCompleted(s) then Some(if s.suspend.jogCancel then P.Restart else P.HoldDone)
    else None
  }

  /** What the main program and the step interrupt do by themselves. */
  predicate ByItself(e: P.Event) {
    e.Line? || e.Load? || e.Commit? || e.Tick? || e.Override?
  }

  predicate Enabled(s: R.System, m: M.Machine, x: Step) {
    match x
    case Realtime(a) => R.Enabled(s, a)
    case Motion(e) => ByItself(e) && P.Enabled(m, e)
  }

  lemma EffectIsEnabled(s: R.System, m: M.Machine, a: R.Action)
    ensures Effect(s, a).Some? ==> P.Enabled(m, Effect(s, a).value)
  {
  }

  ghost function Next(s: R.System, m: M.Machine, x: Step): (R.System, M.Machine)
    requires P.Good(m) && Enabled(s, m, x)
  {
    match x
    case Motion(e) => (s, P.Next(m, e))
    case Realtime(a) =>
      (R.Next(s, a),
       match Effect(s, a)
       case None => m
       case Some(e) => P.Next(m, e))
  }

  /** A run in which no step ends a motion, or strikes it with an alarm, while a hold executes. */
  ghost predicate RunsTo(s: R.System, m: M.Machine, steps: seq<Step>, t: R.System, n: M.Machine)
    decreases |steps|
  {
    if steps == [] then t == s && n == m
    else
      && P.Good(m) && Enabled(s, m, steps[0]) && (steps[0].Realtime? ==> !Abandons(s, steps[0].action))
      && var (s', m') := Next(s, m, steps[0]);
         RunsTo(s', m', steps[1..], t, n)
  }

  /** Executor and step generator agree on the hold, and nothing is left behind. */
  ghost predicate Agree(s: R.System, m: M.Machine) {
    Tracks(s, false) && P.Good(m) && !S.Stale(m) && m.executeHold == s.executeHold
  }

  lemma HoldMotionHold(s: R.System)
    ensures R.HoldMotion(s).executeHold == (s.executeHold ||
              (s.state in {R.Cycle, R.Jog} && !s.suspend.motionCancel && !s.suspend.jogCancel))
  {
    var t := R.CancelMotion(R.SuspendIdle(R.BeginDeceleration(s)));
    assert t.executeHold == R.BeginDeceleration(s).executeHold;
    assert R.OpenDoor(R.EnterHold(t)).executeHold == t.executeHold;
  }

  lemma HoldStageHold(s: R.System, queued: bool)
    requires s.place == R.AtHold
    ensures R.NextStage(s, queued).executeHold == (s.executeHold || Decelerates(s))
  {
    HoldMotionHold(s);
    assert R.NextStage(s, queued).executeHold == R.HoldStage(s).executeHold;
  }

  lemma StartStageHold(s: R.System, queued: bool)
    requires s.place == R.AtStart
    ensures R.NextStage(s, queued).executeHold == (s.executeHold && !StartObeyed(s))
  {
  }

  lemma StopStageHold(s: R.System, queued: bool)
    requires s.place == R.AtStop
    ensures R.NextStage(s, queued).executeHold == (s.executeHold && !HoldCompleted(s))
  {
  }

  lemma OtherStageHold(s: R.System, queued: bool)
    requires R.InPass(s.place) && s.place !in {R.AtHold, R.AtStart, R.AtStop}
    ensures R.NextStage(s, queued).executeHold == s.executeHold && Effect(s, R.Stage(queued)) == None
  {
  }

  /** The hold of the executor goes with what the step does to the pipeline. */
  lemma EffectOnHold(s: R.System, a: R.Action)
    requires R.Enabled(s, a)
    ensures R.Next(s, a).executeHold ==
              match Effect(s, a)
              case None => s.executeHold
              case Some(e) => e == P.Hold
  {
    if a.Stage? {
      if s.place == R.AtHold {
        HoldStageHold(s, a.queued);
      } else if s.place == R.AtStart {
        StartStageHold(s, a.queued);
      } else if s.place == R.AtStop {
        StopStageHold(s, a.queued);
      } else {
        OtherStageHold(s, a.queued);
      }
    }
  }

  lemma EventOnHold(m: M.Machine, e: P.Event)
    requires P.Good(m) && P.Enabled(m, e)
    ensures P.Next(m, e).executeHold == if e == P.Hold then true
                                        else if e in {P.HoldDone, P.CycleStart, P.Restart} then false
                                        else m.executeHold
  {
    P.Legal(m, e);
    match e
    case Line(target, line, g) => S.LineLoads(m, target, line, g);
    case Override(o) => OverrideKeepsHold(m, o);
    case _ =>
  }

  lemma OverrideKeepsHold(m: M.Machine, o: B.Overrides)
    requires P.Good(m) && forall b | b in m.plan :: b.maxJunctionSqr >= 0.0
    ensures M.SetOverrides(m, o).executeHold == m.executeHold
  {
  }

  lemma RealtimeAgrees(s: R.System, m: M.Machine, a: R.Action)
    requires Agree(s, m) && R.Enabled(s, a) && !Abandons(s, a)
    ensures var (t, n) := Next(s, m, Realtime(a)); Agree(t, n)
  {
    StepTracks(s, false, a);
    EffectOnHold(s, a);
    match Effect(s, a)
    case None =>
    case Some(e) =>
      if e == P.CycleStart { ObeyedWithoutHold(s); }
      S.NeverStale(m, e);
      P.NextIsGood(m, e);
      EventOnHold(m, e);
  }

  lemma MotionAgrees(s: R.System, m: M.Machine, e: P.Event)
    requires Agree(s, m) && ByItself(e) && P.Enabled(m, e)
    ensures Agree(s, P.Next(m, e))
  {
    S.NeverStale(m, e);
    P.NextIsGood(m, e);
    EventOnHold(m, e);
  }

  /**
   Executor and pipeline together: from a reset on, in every interleaving in which no motion is abandoned,
   both agree on whether a hold executes, the account of steps is kept, and no segment is without a tick.
   */
  lemma {:induction false} JointRunsConserve(s: R.System, m: M.Machine, steps: seq<Step>, t: R.System, n: M.Machine)
    requires Agree(s, m) && RunsTo(s, m, steps, t, n)
    ensures Agree(t, n) && P.NoEmptySegment(n)
    decreases |steps|
  {
    if steps == [] {
      P.GoodHasNoEmptySegment(n);
    } else {
      var x := steps[0];
      if x.Realtime? { RealtimeAgrees(s, m, x.action); } else { MotionAgrees(s, m, x.event); }
      var (s', m') := Next(s, m, x);
      JointRunsConserve(s', m', steps[1..], t, n);
    }
  }

  lemma InitialAgrees(s: R.System, m: M.Machine)
    requires R.Initial(s) && P.Initial(m)
    ensures Agree(s, m)
  {
    P.ReachableIsGood([], m);
  }
}
