/** Runs of the whole motion pipeline, with every interleaving of main program and step interrupt. */
module MotionRuns {
  import opened Axes
  import opened Blocks
  import opened Bresenham
  import opened Motion
  import opened Conservation
  import opened Pipeline

  datatype Event =
    | Line(target: Vec<int>, line: LineData, geometry: Geometry)
    | Load
    | Commit(mmRemaining: real, speedSqr: real, level: nat)
    | Tick
    | Hold
    | HoldDone
    | CycleStart
    | Override(overrides: Overrides)
    | Restart

  ghost predicate Good(m: Machine) {
    exists jobs: seq<Job> :: Inv(m, jobs)
  }

  /** What the source may do next in a state. */
  predicate Enabled(m: Machine, e: Event) {
    match e
    case Line(target, line, g) =>
      && |m.plan| < BLOCK_BUFFER_SIZE - 1 && Possible(g)
      && NewBlock(m.planPosition, target, line, g, m.plan == []).stepEventCount < MAX_EVENTS
    case Load => CanPrep(m) && !m.prep.loaded && m.plan != []
    case Commit(mm, speed, level) =>
      CanPrep(m) && m.prep.loaded && m.plan != [] && m.prep.stepPerMm > 0.0 && MayCommit(m, mm, speed, level)
    case _ => true
  }

  /** In a good state every enabled operation may be called. */
  lemma Legal(m: Machine, e: Event)
    requires Good(m) && Enabled(m, e)
    ensures |m.slots| == SEGMENT_BUFFER_SIZE - 1 && m.prep.slot < SEGMENT_BUFFER_SIZE - 1
    ensures m.previousNominal >= 0.0 && (m.plan != [] ==> m.planned < |m.plan|)
    ensures m.plan != [] ==> BlockOk(m.plan[0])
    ensures forall b | b in m.plan :: b.maxJunctionSqr >= 0.0
    ensures CanTick(m)
    ensures e.Commit? ==> StepsTo(m, e.mmRemaining) >= 0 && WholeSteps(m.prep.stepPerMm, e.mmRemaining) >= 0
  {
    var jobs :| Inv(m, jobs);
    InterruptIsLegal(m, jobs);
    assert forall b | b in m.plan :: BlockOk(b);
    if m.plan != [] { assert m.plan[0] in m.plan; }
    if e.Commit? { SegmentsHaveSteps(m, jobs, e.mmRemaining); }
  }

  ghost function Next(m: Machine, e: Event): Machine
    requires Good(m) && Enabled(m, e)
  {
    Legal(m, e);
    match e
    case Line(target, line, g) => PlanLine(m, target, line, g)
    case Load => LoadBlock(m)
    case Commit(mm, speed, level) => CommitSegment(m, mm, speed, level)
    case Tick => Interrupt(m)
    case Hold => StartHold(m)
    case HoldDone => FinishHold(m)
    case CycleStart => Resume(m)
    case Override(o) => SetOverrides(m, o)
    case Restart => Reset(m)
  }

  /** A commit outside a hold that would make a segment without a step event. */
  predicate EmptyCommit(m: Machine, e: Event) {
    e.Commit? && !m.executeHold && StepsTo(m, e.mmRemaining) == 0
  }

  lemma NextIsGood(m: Machine, e: Event)
    requires Good(m) && Enabled(m, e) && !EmptyCommit(m, e)
    ensures Good(Next(m, e))
  {
    var jobs :| Inv(m, jobs);
    Legal(m, e);
    match e
    case Line(target, line, g) => PlanLineKeepsInv(m, jobs, target, line, g);
    case Load => LoadKeepsInv(m, jobs);
    case Commit(mm, speed, level) => var jobs' := CommitKeepsInv(m, jobs, mm, speed, level);
    case Tick => var jobs' := InterruptKeepsInv(m, jobs);
    case Hold => StartHoldKeepsInv(m, jobs);
    case HoldDone => FinishHoldKeepsInv(m, jobs);
    case CycleStart => ResumeKeepsInv(m, jobs);
    case Override(o) => OverridesKeepInv(m, jobs, o);
    case Restart => ResetKeepsInv(m);
  }

  /** Every queued segment has a tick. */
  predicate NoEmptySegment(m: Machine) {
    forall s | s in m.segments :: s.nStep > 0
  }

  lemma GoodHasNoEmptySegment(m: Machine)
    requires Good(m)
    ensures NoEmptySegment(m)
  {
    var jobs :| Inv(m, jobs);
    SegmentsBelongToJobs(m, jobs);
    assert forall j | j in jobs :: JobOk(m.slots, j);
  }

  lemma EmptyCommitQueues(m: Machine, e: Event)
    requires Good(m) && Enabled(m, e) && EmptyCommit(m, e)
    ensures Next(m, e).segments == m.segments + [Segment(0, m.prep.slot, e.level)]
    ensures !NoEmptySegment(Next(m, e))
  {
    Legal(m, e);
    var t := Next(m, e);
    assert t.segments[|m.segments|] in t.segments;
  }

  /** The account of steps can be kept after an operation if and only if it makes no segment without a step event. */
  lemma NextIsGoodExactly(m: Machine, e: Event)
    requires Good(m) && Enabled(m, e)
    ensures Good(Next(m, e)) <==> !EmptyCommit(m, e)
    ensures Good(Next(m, e)) <==> NoEmptySegment(Next(m, e))
  {
    if EmptyCommit(m, e) {
      EmptyCommitQueues(m, e);
      if Good(Next(m, e)) { GoodHasNoEmptySegment(Next(m, e)); }
    } else {
      NextIsGood(m, e);
      GoodHasNoEmptySegment(Next(m, e));
    }
  }

  /** The machine after a system reset at any position. */
  predicate Initial(m: Machine) {
    |m.slots| == SEGMENT_BUFFER_SIZE - 1 && m == Reset(m)
  }

  /** A run, up to the first segment without a tick. */
  ghost predicate Reaches(events: seq<Event>, m: Machine)
    decreases |events|
  {
    if events == [] then Initial(m)
    else
      var n := |events| - 1;
      exists t {:trigger Reaches(events[..n], t)} ::
        Reaches(events[..n], t) && Good(t) && Enabled(t, events[n]) && m == Next(t, events[n])
  }

  /** In every reachable state the account of steps is kept if and only if every queued segment has a tick. */
  lemma ReachableIsGood(events: seq<Event>, m: Machine)
    requires Reaches(events, m)
    ensures Good(m) <==> NoEmptySegment(m)
  {
    if events == [] {
      ResetKeepsInv(m);
    } else {
      var n := |events| - 1;
      var t :| Reaches(events[..n], t) && Good(t) && Enabled(t, events[n]) && m == Next(t, events[n]);
      NextIsGoodExactly(t, events[n]);
    }
  }

  const Full := Overrides(100, 100)

  /** The machine after a system reset at its zero. */
  function Start(): Machine {
    Machine([], 0, Vec(0, 0, 0), 0.0, Full, NoPrep,
            seq(SEGMENT_BUFFER_SIZE - 1, _ => StBlock(Vec(0, 0, 0), 0, Vec(false, false, false))),
            [], NoIsr, Vec(0, 0, 0), false, false)
  }

  lemma ReachesStep(events: seq<Event>, m: Machine, e: Event, t: Machine) returns (more: seq<Event>)
    requires Reaches(events, m) && Good(m) && Enabled(m, e) && t == Next(m, e)
    ensures Reaches(more, t) && (!EmptyCommit(m, e) ==> Good(t))
  {
    more := events + [e];
    assert more[..|more| - 1] == events && more[|more| - 1] == e;
    NextIsGoodExactly(m, e);
  }

  /** Everything planned has been cut into segments, and every segment has been executed. */
  predicate Drained(m: Machine) {
    m.plan == [] && m.segments == []
  }

  /**
   The headline of the pipeline. After any interleaving of planning, prepping, ticks, holds,
   replans, overrides and resets, the planner's position on every axis is the machine position
   plus the signed steps still owed by loaded and by waiting blocks; and when everything has
   drained, the two positions are equal. StaleProfiles says which runs never queue a segment without
   a tick.
   */
  lemma StepsAreConserved(events: seq<Event>, m: Machine) returns (jobs: seq<Job>)
    requires Reaches(events, m) && NoEmptySegment(m)
    ensures Inv(m, jobs)
    ensures forall a: Axis ::
              m.planPosition.At(a) == m.position.At(a) + OwedByJobs(jobs, a) + OwedByBlocks(Waiting(m), a)
    ensures Drained(m) ==> jobs == [] && m.position == m.planPosition
  {
    ReachableIsGood(events, m);
    jobs :| Inv(m, jobs);
    if Drained(m) {
      DrainedHasNoJobs(m, jobs);
      assert forall a: Axis :: m.planPosition.At(a) == m.position.At(a);
      assert m.planPosition.At(X) == m.position.At(X) && m.planPosition.At(Y) == m.position.At(Y)
             && m.planPosition.At(Z) == m.position.At(Z);
    }
  }

  lemma DrainedHasNoJobs(m: Machine, jobs: seq<Job>)
    requires Inv(m, jobs) && Drained(m)
    ensures jobs == []
  {
    assert !Open(m);
    ClosedJobsHaveSegments(m, jobs);
    JobsHaveSegments(jobs);
  }

  /** The block the interrupt is executing: its data in the slot, and its exact progress. */
  ghost predicate Executing(m: Machine, j: Job) {
    && m.segments != [] && j.slot == m.segments[0].slot == m.isr.execIndex < |m.slots|
    && m.slots[j.slot].stepEventCount == 8 * j.events
    && j.events > 0 && j.ticked < 8 * j.events
    && forall a: Axis ::
         && m.slots[j.slot].steps.At(a) == 8 * j.steps.At(a)
         && j.steps.At(a) <= j.events
         && Exact(m.isr.counter.At(a), j.steps.At(a), j.events, j.ticked, j.fired.At(a))
  }

  lemma ExecutingJob(m: Machine, jobs: seq<Job>)
    requires Inv(m, jobs) && m.isr.executing
    ensures jobs != [] && Executing(m, jobs[0])
  {
    HeadIsSegment(m, jobs);
    HeadSegment(m, jobs);
    assert jobs[0] in jobs && JobOk(m.slots, jobs[0]);
    ExecutingData(m, jobs[0]);
  }

  lemma ExecutingData(m: Machine, j: Job)
    requires |m.slots| == SEGMENT_BUFFER_SIZE - 1 && JobOk(m.slots, j)
    ensures j.events > 0 && m.slots[j.slot].stepEventCount == 8 * j.events
    ensures forall a: Axis :: m.slots[j.slot].steps.At(a) == 8 * j.steps.At(a) && j.steps.At(a) <= j.events
  {
    assert Traceable(j.steps.At(X), j.events);
  }

  /** Where the executing block ends: the planner's position, less what the blocks behind it owe. */
  ghost function BlockEnd(m: Machine, jobs: seq<Job>, a: Axis): int
    requires jobs != []
  {
    m.planPosition.At(a) - OwedByJobs(jobs[1..], a) - OwedByBlocks(Waiting(m), a)
  }

  /** Where it began. */
  ghost function BlockStart(m: Machine, jobs: seq<Job>, a: Axis): int
    requires jobs != []
  {
    BlockEnd(m, jobs, a) - Signed(jobs[0].negative.At(a), jobs[0].steps.At(a))
  }

  /** `at` is within half a step of the point of the line that lies `done` of `total` behind its start. */
  ghost predicate OnLine(at: int, start: int, end: int, done: nat, total: nat)
    requires total > 0
  {
    var ideal := start as real + ((end - start) * done) as real / total as real;
    ideal - 0.5 <= at as real <= ideal + 0.5
  }

  lemma NearIsOnLine(negative: bool, steps: nat, events: nat, ticked: nat, fired: nat, start: int)
    requires events > 0 && NearIdeal(steps, events, ticked, fired)
    ensures OnLine(start + Signed(negative, fired), start, start + Signed(negative, steps), ticked, 8 * events)
  {
    var total := 8 * events;
    if negative {
      NegatedQuotient(steps * ticked, total);
      var back: int := 0 - steps;
      assert back * ticked == -(steps * ticked);
    }
  }

  lemma NegatedQuotient(n: int, total: int)
    requires total > 0
    ensures (-n) as real / total as real == -(n as real / total as real)
  {
  }

  /** What the executing block has moved on an axis, as an account of the machine's position. */
  lemma PositionInBlock(m: Machine, jobs: seq<Job>, a: Axis)
    requires Inv(m, jobs) && jobs != []
    ensures m.position.At(a) == BlockStart(m, jobs, a) + Signed(jobs[0].negative.At(a), jobs[0].fired.At(a))
  {
    assert m.planPosition.At(a) == m.position.At(a) + OwedByJobs(jobs, a) + OwedByBlocks(Waiting(m), a);
  }

  /** The machine stands where the block began plus the steps emitted, and near the line to where it ends. */
  ghost predicate TracedOn(m: Machine, jobs: seq<Job>, a: Axis)
    requires jobs != [] && jobs[0].events > 0
  {
    var j := jobs[0];
    && m.position.At(a) == BlockStart(m, jobs, a) + Signed(j.negative.At(a), j.fired.At(a))
    && OnLine(m.position.At(a), BlockStart(m, jobs, a), BlockEnd(m, jobs, a), j.ticked, 8 * j.events)
  }

  lemma AxisIsTraced(m: Machine, jobs: seq<Job>, a: Axis)
    requires jobs != [] && Executing(m, jobs[0])
    requires m.position.At(a) == BlockStart(m, jobs, a) + Signed(jobs[0].negative.At(a), jobs[0].fired.At(a))
    ensures TracedOn(m, jobs, a)
  {
    var j := jobs[0];
    ExactIsNear(m.isr.counter.At(a), j.steps.At(a), j.events, j.ticked, j.fired.At(a));
    NearIsOnLine(j.negative.At(a), j.steps.At(a), j.events, j.ticked, j.fired.At(a), BlockStart(m, jobs, a));
  }

  lemma BlockIsTraced(m: Machine, jobs: seq<Job>)
    requires Inv(m, jobs) && m.isr.executing
    ensures jobs != [] && Executing(m, jobs[0]) && forall a: Axis :: TracedOn(m, jobs, a)
  {
    ExecutingJob(m, jobs);
    forall a: Axis ensures TracedOn(m, jobs, a) {
      PositionInBlock(m, jobs, a);
      AxisIsTraced(m, jobs, a);
    }
  }

  /**
   At every tick of every run the executing block is traced exactly: the machine stands on each axis where
   the block began plus the steps it has emitted, within half a step of the line from the block's start
   to its end, at the point where the step events done so far put it, whatever levels were used.
   */
  lemma TracingIsAccurate(events: seq<Event>, m: Machine) returns (jobs: seq<Job>)
    requires Reaches(events, m) && NoEmptySegment(m) && m.isr.executing
    ensures Inv(m, jobs) && jobs != [] && Executing(m, jobs[0])
    ensures forall a: Axis :: TracedOn(m, jobs, a)
  {
    ReachableIsGood(events, m);
    jobs :| Inv(m, jobs);
    BlockIsTraced(m, jobs);
  }

  // ---------------------------------------------------------------------------
  // Load-once segmentation
  // ---------------------------------------------------------------------------

  /**
   In every reachable state, a load of a new block writes a slot that no queued or executing
   segment refers to; a load after a hold or a replan writes no slot and loses no step.
   */
  lemma LoadsAreSafe(events: seq<Event>, m: Machine)
    requires Reaches(events, m) && Good(m) && Enabled(m, Load)
    ensures var t := Next(m, Load);
            && t.prep.loaded
            && (Open(m) ==> t.slots == m.slots && t.prep.slot == m.prep.slot
                            && t.prep.stepsRemaining == m.prep.stepsRemaining)
            && (!Open(m) ==>
                  && t.prep.slot == NextSlot(m.prep.slot) < |m.slots|
                  && t.slots == m.slots[t.prep.slot := CopyOf(m.plan[0])]
                  && t.prep.stepsRemaining == m.plan[0].stepEventCount
                  && (forall s | s in m.segments :: s.slot != t.prep.slot)
                  && (m.isr.executing ==> m.isr.execIndex != t.prep.slot))
  {
    ReachableIsGood(events, m);
    var jobs :| Inv(m, jobs);
    Legal(m, Load);
    if !Open(m) { LoadUsesFreeSlot(m, jobs); }
  }

  /**
   A loaded block stays loaded, in the same slot and with the same steps, through holds,
   replans, overrides and ticks, until its last step has been cut; only then, or by a reset,
   does it leave the planner.
   */
  lemma LoadedOnce(events: seq<Event>, m: Machine, e: Event)
    requires Reaches(events, m) && Good(m) && Enabled(m, e) && !e.Restart? && Open(m)
    ensures m.plan != []
    ensures var t := Next(m, e);
            && (Open(t) ==>
                  && t.plan != [] && t.prep.slot == m.prep.slot
                  && t.plan[0].steps == m.plan[0].steps && t.plan[0].stepEventCount == m.plan[0].stepEventCount
                  && t.slots == m.slots)
            && (!Open(t) ==> e.Commit? && t.plan == m.plan[1..] && e.mmRemaining == 0.0)
  {
    ReachableIsGood(events, m);
    var jobs :| Inv(m, jobs);
    Legal(m, e);
    StaysOpen(m, jobs, e);
  }

  lemma StaysOpen(m: Machine, jobs: seq<Job>, e: Event)
    requires Inv(m, jobs) && Good(m) && Enabled(m, e) && !e.Restart? && Open(m)
    ensures m.plan != []
    ensures var t := Next(m, e);
            && (Open(t) ==>
                  && t.plan != [] && t.prep.slot == m.prep.slot
                  && t.plan[0].steps == m.plan[0].steps && t.plan[0].stepEventCount == m.plan[0].stepEventCount
                  && t.slots == m.slots)
            && (!Open(t) ==> e.Commit? && t.plan == m.plan[1..] && e.mmRemaining == 0.0)
  {
    Legal(m, e);
    match e
    case Line(target, line, g) => LineTailSteps(m, jobs, target, line, g);
    case HoldDone => ReplanTailSteps(m, jobs);
    case Override(o) => OverrideTailSteps(m, jobs, o);
    case Tick =>
      if m.segments != [] { TickKeepsPlan(m); }
    case _ =>
  }

  lemma LineTailSteps(m: Machine, jobs: seq<Job>, target: Vec<int>, line: LineData, g: Geometry)
    requires Inv(m, jobs) && Open(m) && Possible(g)
    requires NewBlock(m.planPosition, target, line, g, m.plan == []).stepEventCount < MAX_EVENTS
    ensures m.plan != []
    ensures var t := PlanLine(m, target, line, g);
            && t.plan != [] && Open(t) && t.prep.slot == m.prep.slot && t.slots == m.slots
            && t.plan[0].steps == m.plan[0].steps && t.plan[0].stepEventCount == m.plan[0].stepEventCount
  {
    var b := PlannedBlock(m.planPosition, target, line, g, m.plan == [], m.overrides, m.previousNominal);
    if b.stepEventCount > 0 {
      PlannedBlockOk(m.planPosition, target, b);
      AppendKeepsInv(m, jobs, b, target);
      RecalculateReplans(Appended(m, b, target), jobs);
      TailSteps(Appended(m, b, target), Enqueue(m, b, target));
    }
  }

  lemma OverrideTailSteps(m: Machine, jobs: seq<Job>, o: Overrides)
    requires Inv(m, jobs) && Open(m)
    ensures forall b | b in m.plan :: b.maxJunctionSqr >= 0.0
    ensures m.plan != []
    ensures var t := SetOverrides(m, o);
            && t.plan != [] && Open(t) && t.prep.slot == m.prep.slot && t.slots == m.slots
            && t.plan[0].steps == m.plan[0].steps && t.plan[0].stepEventCount == m.plan[0].stepEventCount
  {
    OverridesKeepInv(m, jobs, o);
    RelimitKeepsBlocks(m.plan, o, SOME_LARGE_VALUE);
    var t := m.(overrides := o, plan := Relimit(m.plan, o, SOME_LARGE_VALUE),
                previousNominal := LastNominal(m.plan, o));
    ReplannedKeepsInv(m, t, jobs);
    TailSteps(m, t);
    ReplanTailSteps(t, jobs);
  }

  lemma TickKeepsPlan(m: Machine)
    requires CanTick(m) && m.segments != []
    ensures Interrupt(m).plan == m.plan && Interrupt(m).prep == m.prep && Interrupt(m).slots == m.slots
  {
  }

  lemma TailSteps(m: Machine, t: Machine)
    requires SameSteps(m.plan, t.plan) && m.plan != []
    ensures t.plan[0].steps == m.plan[0].steps && t.plan[0].stepEventCount == m.plan[0].stepEventCount
  {
    assert t.plan[0] == m.plan[0].(entrySqr := t.plan[0].entrySqr, maxEntrySqr := t.plan[0].maxEntrySqr);
  }

  lemma ReplanTailSteps(m: Machine, jobs: seq<Job>)
    requires Inv(m, jobs) && Open(m)
    ensures m.plan != []
    ensures var t := Reinitialize(m);
            && t.plan != [] && Open(t) && t.prep.slot == m.prep.slot && t.slots == m.slots
            && t.plan[0].steps == m.plan[0].steps && t.plan[0].stepEventCount == m.plan[0].stepEventCount
  {
    NotifyKeepsInv(m, jobs);
    var n := Notify(m);
    var u := n.(planned := 0);
    assert SameSteps(n.plan, u.plan);
    ReplannedKeepsInv(n, u, jobs);
    RecalculateReplans(u, jobs);
    TailSteps(u, Recalculate(u));
  }

  /**
   As long as every segment has a tick, its ticks fit 16 bits, and the step events of a block add up: what the interrupt has done, what is queued, and what is still to be cut make its
   step event count.
   */
  lemma SegmentsAddUp(events: seq<Event>, m: Machine) returns (jobs: seq<Job>)
    requires Reaches(events, m) && NoEmptySegment(m)
    ensures forall s | s in m.segments :: 1 <= s.nStep < 0x1_0000 && s.slot < |m.slots| && s.level <= MAX_AMASS_LEVEL
    ensures m.segments == Flatten(jobs)
    ensures forall k: nat | k < |jobs| :: Balanced(m, jobs, k)
    ensures Open(m) ==> m.plan != [] && jobs != [] && jobs[|jobs| - 1].events == m.plan[0].stepEventCount
    ensures Open(m) ==> m.prep.stepsRemaining == WholeSteps(m.prep.stepPerMm, m.plan[0].millimeters) >= 1
  {
    ReachableIsGood(events, m);
    jobs :| Inv(m, jobs);
    SegmentsBelongToJobs(m, jobs);
    assert forall j | j in jobs :: JobOk(m.slots, j);
  }
}
