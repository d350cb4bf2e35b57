/**
 What every interleaving of planning, prepping and step interrupts keeps.

 The proofs follow the blocks that have been loaded and not yet completed. Such a block is a
 `Job`: its step data, its slot, its segments still queued, and what the interrupt has done
 of it. The segment queue is the concatenation of the jobs' queues.
 */
module Conservation {
  import opened Axes
  import opened Blocks
  import opened Bresenham
  import opened Motion
  import PlannerTheory
  import opened VelocityProfile

  datatype Job = Job(
    steps: Vec<nat>,
    events: nat,
    negative: Vec<bool>,
    slot: nat,
    queue: seq<Segment>,
    started: bool,
    ticked: nat,
    fired: Vec<nat>)

  // ---------------------------------------------------------------------------
  // Segments of a job
  // ---------------------------------------------------------------------------

  ghost predicate SegmentOk(s: Segment, slot: nat) {
    s.slot == slot && s.level <= MAX_AMASS_LEVEL && 1 <= s.nStep < 0x1_0000
  }

  /** Eighths of step events that `ticks` ticks at a level perform. */
  ghost function Worth(ticks: nat, level: nat): nat {
    if level <= MAX_AMASS_LEVEL then ticks * Weight(level) else 0
  }

  /** Eighths of step events in a queue of segments. */
  ghost function Eighths(queue: seq<Segment>): nat {
    if queue == [] then 0 else Worth(queue[0].nStep, queue[0].level) + Eighths(queue[1..])
  }

  /** Eighths of step events that the interrupt still has to perform from a job's segments. */
  ghost function Left(queue: seq<Segment>, executing: bool, stepCount: nat): nat {
    if executing && queue != [] then Worth(stepCount, queue[0].level) + Eighths(queue[1..])
    else Eighths(queue)
  }

  ghost function Flatten(jobs: seq<Job>): seq<Segment> {
    if jobs == [] then [] else jobs[0].queue + Flatten(jobs[1..])
  }

  // ---------------------------------------------------------------------------
  // The invariant
  // ---------------------------------------------------------------------------

  ghost predicate BlockOk(b: PlanBlock) {
    && (forall a: Axis :: Traceable(b.steps.At(a), b.stepEventCount))
    && b.millimeters > 0.0 && b.acceleration > 0.0
    && b.entrySqr >= 0.0 && b.maxEntrySqr >= 0.0 && b.maxJunctionSqr >= 0.0
  }

  ghost predicate Shape(m: Machine) {
    && |m.slots| == SEGMENT_BUFFER_SIZE - 1 && |m.segments| <= SEGMENT_BUFFER_SIZE - 1
    && m.prep.slot < SEGMENT_BUFFER_SIZE - 1 && m.isr.execIndex < SEGMENT_BUFFER_SIZE - 1
    && (m.plan != [] ==> m.planned < |m.plan|) && (m.plan == [] ==> m.planned == 0)
    && m.previousNominal >= 0.0 && m.prep.currentSqr >= 0.0 && m.prep.profile.exitSqr >= 0.0
    && (forall b | b in m.plan :: BlockOk(b))
  }

  /** The tail block has been copied into a slot and is not finished being cut. */
  predicate Open(m: Machine) {
    m.prep.loaded || m.prep.recalculate
  }

  ghost predicate JobOk(slots: seq<StBlock>, j: Job)
    requires |slots| == SEGMENT_BUFFER_SIZE - 1
  {
    && (forall a: Axis :: Traceable(j.steps.At(a), j.events))
    && j.slot < SEGMENT_BUFFER_SIZE - 1
    && slots[j.slot].stepEventCount == Shifted(j.events)
    && (forall a: Axis :: slots[j.slot].steps.At(a) == Shifted(j.steps.At(a)))
    && slots[j.slot].negative == j.negative
    && (forall s | s in j.queue :: SegmentOk(s, j.slot))
    && j.ticked < 8 * j.events
  }

  /** Loaded blocks occupy consecutive slots, the newest the one that is being prepped. */
  ghost predicate Chained(jobs: seq<Job>, last: nat) {
    && (forall i, k {:trigger jobs[i], jobs[k]} | 0 <= i < k < |jobs| && k == i + 1 ::
         jobs[k].slot == NextSlot(jobs[i].slot))
    && (jobs != [] ==> jobs[|jobs| - 1].slot == last)
  }

  predicate Unstarted(j: Job) {
    !j.started && j.ticked == 0 && j.fired == Vec(0, 0, 0)
  }

  ghost predicate IsrOk(m: Machine, jobs: seq<Job>) {
    if jobs == [] then !m.isr.executing && m.isr.execIndex == m.prep.slot
    else
      var j := jobs[0];
      if !j.started then !m.isr.executing && Unstarted(j) && NextSlot(m.isr.execIndex) == j.slot
      else
        && m.isr.execIndex == j.slot
        && (forall a: Axis :: Exact(m.isr.counter.At(a), j.steps.At(a), j.events, j.ticked, j.fired.At(a)))
        && (m.isr.executing ==>
             && j.queue != [] && 1 <= m.isr.stepCount <= j.queue[0].nStep
             && j.queue[0].level <= MAX_AMASS_LEVEL
             && (forall a: Axis :: m.isr.steps.At(a) == Increment(Shifted(j.steps.At(a)), j.queue[0].level)))
  }

  /** Every step event of a job has been done, is queued, or is still to be cut. */
  ghost predicate Balanced(m: Machine, jobs: seq<Job>, k: nat)
    requires k < |jobs|
  {
    jobs[k].ticked + Left(jobs[k].queue, m.isr.executing && k == 0, m.isr.stepCount)
    + 8 * (if Open(m) && k == |jobs| - 1 then m.prep.stepsRemaining else 0)
    == 8 * jobs[k].events
  }

  /** The job being cut is the tail block, and what is left of it is counted in whole steps. */
  ghost predicate PrepOk(m: Machine, jobs: seq<Job>) {
    && (m.prep.loaded ==> !m.prep.recalculate)
    && (Open(m) ==>
         && jobs != [] && m.plan != []
         && jobs[|jobs| - 1].steps == m.plan[0].steps
         && jobs[|jobs| - 1].events == m.plan[0].stepEventCount
         && jobs[|jobs| - 1].negative == m.plan[0].negative
         && m.prep.stepPerMm > 0.0
         && m.prep.stepsRemaining >= 1
         && m.prep.stepsRemaining == WholeSteps(m.prep.stepPerMm, m.plan[0].millimeters))
    && (m.prep.loaded ==> 0.0 <= m.prep.profile.mmComplete <= m.plan[0].millimeters)
  }

  ghost function OwedByJobs(jobs: seq<Job>, a: Axis): int {
    if jobs == [] then 0
    else Signed(jobs[0].negative.At(a), jobs[0].steps.At(a) - jobs[0].fired.At(a)) + OwedByJobs(jobs[1..], a)
  }

  ghost function OwedByBlocks(bs: seq<PlanBlock>, a: Axis): int {
    if bs == [] then 0
    else Signed(bs[0].negative.At(a), bs[0].steps.At(a)) + OwedByBlocks(bs[1..], a)
  }

  /** The blocks of the queue that have not been loaded yet. */
  function Waiting(m: Machine): seq<PlanBlock> {
    if Open(m) && m.plan != [] then m.plan[1..] else m.plan
  }

  /** The planner's position is the machine's plus every step still owed. */
  ghost predicate Conserved(m: Machine, jobs: seq<Job>) {
    forall a: Axis :: m.planPosition.At(a) == m.position.At(a) + OwedByJobs(jobs, a) + OwedByBlocks(Waiting(m), a)
  }

  ghost predicate JobsOk(m: Machine, jobs: seq<Job>)
    requires |m.slots| == SEGMENT_BUFFER_SIZE - 1
  {
    && (forall j | j in jobs :: JobOk(m.slots, j))
    && (forall k | 1 <= k < |jobs| :: Unstarted(jobs[k]))
    && (forall k: nat | k < |jobs| :: Balanced(m, jobs, k))
  }

  ghost predicate Inv(m: Machine, jobs: seq<Job>) {
    && Shape(m)
    && m.segments == Flatten(jobs)
    && Chained(jobs, m.prep.slot)
    && JobsOk(m, jobs)
    && IsrOk(m, jobs)
    && PrepOk(m, jobs)
    && Conserved(m, jobs)
  }

  // ---------------------------------------------------------------------------
  // Facts about jobs and queues
  // ---------------------------------------------------------------------------

  lemma {:induction false} FlattenAppend(jobs: seq<Job>, j: Job)
    ensures Flatten(jobs + [j]) == Flatten(jobs) + j.queue
  {
    if jobs == [] {
      assert Flatten([j]) == j.queue + Flatten([]);
    } else {
      assert (jobs + [j])[1..] == jobs[1..] + [j];
      FlattenAppend(jobs[1..], j);
    }
  }

  lemma {:induction false} OwedAppend(jobs: seq<Job>, j: Job, a: Axis)
    ensures OwedByJobs(jobs + [j], a)
         == OwedByJobs(jobs, a) + Signed(j.negative.At(a), j.steps.At(a) - j.fired.At(a))
  {
    if jobs != [] {
      assert (jobs + [j])[1..] == jobs[1..] + [j];
      OwedAppend(jobs[1..], j, a);
    }
  }

  lemma {:induction false} OwedBlocksAppend(bs: seq<PlanBlock>, b: PlanBlock, a: Axis)
    ensures OwedByBlocks(bs + [b], a) == OwedByBlocks(bs, a) + Signed(b.negative.At(a), b.steps.At(a))
  {
    if bs != [] {
      assert (bs + [b])[1..] == bs[1..] + [b];
      OwedBlocksAppend(bs[1..], b, a);
    }
  }

  lemma {:induction false} EighthsAppend(queue: seq<Segment>, s: Segment)
    ensures Eighths(queue + [s]) == Eighths(queue) + Worth(s.nStep, s.level)
  {
    if queue == [] {
      assert Eighths([s]) == Worth(s.nStep, s.level) + Eighths([]);
    } else {
      assert (queue + [s])[1..] == queue[1..] + [s];
      EighthsAppend(queue[1..], s);
    }
  }

  /** As many loaded blocks as queued segments, at most, when nothing is being cut. */
  lemma {:induction false} JobsHaveSegments(jobs: seq<Job>)
    requires forall j | j in jobs :: j.queue != []
    ensures |jobs| <= |Flatten(jobs)|
  {
    if jobs != [] { JobsHaveSegments(jobs[1..]); }
  }

  /** Slots of at most four chained jobs never include the next one. */
  lemma {:induction false} NextSlotIsFree(jobs: seq<Job>, last: nat, k: nat)
    requires Chained(jobs, last) && last < SEGMENT_BUFFER_SIZE - 1
    requires k < |jobs| && |jobs| - k <= SEGMENT_BUFFER_SIZE - 2
    requires forall j | j in jobs :: j.slot < SEGMENT_BUFFER_SIZE - 1
    ensures jobs[k].slot != NextSlot(last)
    ensures (jobs[k].slot + (|jobs| - 1 - k)) % (SEGMENT_BUFFER_SIZE - 1) == last
    decreases |jobs| - k
  {
    assert jobs[k] in jobs;
    if k + 1 < |jobs| { NextSlotIsFree(jobs, last, k + 1); }
  }

  /** When nothing is being cut, every loaded block still has a segment queued. */
  lemma ClosedJobsHaveSegments(m: Machine, jobs: seq<Job>)
    requires Inv(m, jobs) && !Open(m)
    ensures forall j | j in jobs :: j.queue != []
  {
    forall k: nat | k < |jobs| ensures jobs[k].queue != [] {
      assert jobs[k] in jobs && JobOk(m.slots, jobs[k]);
      assert Balanced(m, jobs, k);
    }
  }

  // ---------------------------------------------------------------------------
  // Planning changes speeds only
  // ---------------------------------------------------------------------------

  /** Same step data and distances, whatever the speeds. */
  ghost predicate SameSteps(a: seq<PlanBlock>, b: seq<PlanBlock>) {
    && |a| == |b|
    && forall i {:trigger b[i]} :: 0 <= i < |a| ==>
         b[i] == a[i].(entrySqr := b[i].entrySqr, maxEntrySqr := b[i].maxEntrySqr)
  }

  lemma {:induction false} OwedSame(a: seq<PlanBlock>, b: seq<PlanBlock>, x: Axis)
    requires SameSteps(a, b)
    ensures OwedByBlocks(a, x) == OwedByBlocks(b, x)
  {
    if a != [] {
      assert b[0] == a[0].(entrySqr := b[0].entrySqr, maxEntrySqr := b[0].maxEntrySqr);
      OwedSame(a[1..], b[1..], x);
    }
  }

  /** `t` is `m` after planning: only speeds, the planned pointer and the loaded mark may differ. */
  ghost predicate Replanned(m: Machine, t: Machine) {
    && SameSteps(m.plan, t.plan)
    && (t.plan != [] ==> t.planned < |t.plan|) && (t.plan == [] ==> t.planned == 0)
    && (forall b | b in t.plan :: BlockOk(b))
    && t.planPosition == m.planPosition && t.position == m.position
    && t.slots == m.slots && t.segments == m.segments && t.isr == m.isr
    && (t.prep == m.prep || (m.prep.loaded && t.prep == m.prep.(loaded := false, recalculate := true)))
  }

  lemma ReplannedKeepsInv(m: Machine, t: Machine, jobs: seq<Job>)
    requires Inv(m, jobs) && Replanned(m, t) && t.previousNominal >= 0.0
    ensures Inv(t, jobs)
  {
    assert Open(m) == Open(t);
    forall x: Axis ensures OwedByBlocks(Waiting(m), x) == OwedByBlocks(Waiting(t), x) {
      OwedSame(Waiting(m), Waiting(t), x);
    }
    assert forall k: nat | k < |jobs| :: Balanced(m, jobs, k) ==> Balanced(t, jobs, k);
    if t.plan != [] {
      assert t.plan[0] == m.plan[0].(entrySqr := t.plan[0].entrySqr, maxEntrySqr := t.plan[0].maxEntrySqr);
    }
  }

  lemma NotifyReplans(m: Machine, jobs: seq<Job>)
    requires Inv(m, jobs)
    ensures Replanned(m, Notify(m))
  {
    var t := Notify(m);
    if m.prep.loaded {
      forall b | b in t.plan ensures BlockOk(b) {
        var i :| 0 <= i < |t.plan| && t.plan[i] == b;
        assert m.plan[i] in m.plan;
      }
    }
  }

  lemma RecalculateReplans(m: Machine, jobs: seq<Job>)
    requires Inv(m, jobs)
    ensures Replanned(m, Recalculate(m))
    ensures Recalculate(m).previousNominal == m.previousNominal
  {
    if m.planned + 1 < |m.plan| {
      var t := if m.planned == 0 then Notify(m) else m;
      NotifyReplans(m, jobs);
      BlocksReplan(t.plan, t.planned);
      var r := ReplanBlocks(t.plan, t.planned).0;
      assert SameSteps(m.plan, r);
    } else {
      assert SameSteps(m.plan, m.plan);
    }
  }

  lemma BlocksReplan(bs: seq<PlanBlock>, p: nat)
    requires bs != [] && p < |bs|
    requires forall b | b in bs :: BlockOk(b)
    ensures forall b | b in ReplanBlocks(bs, p).0 :: BlockOk(b)
  {
    var legs := Legs(bs);
    assert PlannerTheory.WellFormed(legs) by {
      forall i | 0 <= i < |legs|
        ensures legs[i].entry >= 0.0 && legs[i].maxEntry >= 0.0 && legs[i].delta >= 0.0
      {
        assert bs[i] in bs;
        PositiveProduct(bs[i].acceleration, bs[i].millimeters);
      }
    }
    ReplanNonNegative(legs, p);
    var r := ReplanBlocks(bs, p).0;
    forall b | b in r ensures BlockOk(b) {
      var i :| 0 <= i < |r| && r[i] == b;
      assert bs[i] in bs;
      assert r[i].entrySqr == PlannerTheory.Replan(legs, p).0[i].entry;
    }
  }

  lemma PositiveProduct(a: real, b: real)
    requires a > 0.0 && b > 0.0
    ensures 2.0 * a * b > 0.0
  {
    assert a * b > 0.0;
  }
}
