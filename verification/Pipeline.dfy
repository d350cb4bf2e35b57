/** Every step of the motion pipeline keeps the conservation invariant; so does every run. */
module Pipeline {
  import opened Axes
  import opened Blocks
  import opened Bresenham
  import opened Motion
  import opened Conservation
  import opened VelocityProfile

  // ---------------------------------------------------------------------------
  // Planning a line
  // ---------------------------------------------------------------------------

  lemma PlanLineKeepsInv(m: Machine, jobs: seq<Job>, target: Vec<int>, line: LineData, g: Geometry)
    requires Inv(m, jobs) && Possible(g)
    requires NewBlock(m.planPosition, target, line, g, m.plan == []).stepEventCount < MAX_EVENTS
    ensures Inv(PlanLine(m, target, line, g), jobs)
  {
    var b := PlannedBlock(m.planPosition, target, line, g, m.plan == [], m.overrides, m.previousNominal);
    if b.stepEventCount > 0 {
      PlannedBlockOk(m.planPosition, target, b);
      AppendKeepsInv(m, jobs, b, target);
      RecalculateReplans(Appended(m, b, target), jobs);
      ReplannedKeepsInv(Appended(m, b, target), Enqueue(m, b, target), jobs);
    }
  }

  lemma PlannedBlockOk(from: Vec<int>, target: Vec<int>, b: PlanBlock)
    requires b.steps.x <= b.stepEventCount && b.steps.y <= b.stepEventCount && b.steps.z <= b.stepEventCount
    requires 1 <= b.stepEventCount < MAX_EVENTS
    requires b.millimeters > 0.0 && b.acceleration > 0.0 && b.entrySqr >= 0.0 && b.maxEntrySqr >= 0.0
    requires b.maxJunctionSqr >= 0.0
    ensures BlockOk(b)
  {
  }

  lemma AppendKeepsInv(m: Machine, jobs: seq<Job>, b: PlanBlock, target: Vec<int>)
    requires Inv(m, jobs) && BlockOk(b)
    requires forall a: Axis :: target.At(a) == m.planPosition.At(a) + Signed(b.negative.At(a), b.steps.At(a))
    ensures Inv(Appended(m, b, target), jobs)
  {
    var t := Appended(m, b, target);
    assert Open(m) ==> m.plan != [] && t.plan[1..] == m.plan[1..] + [b] && t.plan[0] == m.plan[0];
    forall a: Axis
      ensures OwedByBlocks(Waiting(t), a) == OwedByBlocks(Waiting(m), a) + Signed(b.negative.At(a), b.steps.At(a))
    {
      OwedBlocksAppend(Waiting(m), b, a);
    }
    assert forall k: nat | k < |jobs| :: Balanced(m, jobs, k) ==> Balanced(t, jobs, k);
  }

  // ---------------------------------------------------------------------------
  // Loading a block
  // ---------------------------------------------------------------------------

  /** The slot that the next new block will be copied into is referred to by no queued segment and by no executing one. */
  lemma LoadUsesFreeSlot(m: Machine, jobs: seq<Job>)
    requires Inv(m, jobs) && CanPrep(m) && !Open(m)
    ensures forall s | s in m.segments :: s.slot != NextSlot(m.prep.slot)
    ensures m.isr.executing ==> m.isr.execIndex != NextSlot(m.prep.slot)
    ensures forall j | j in jobs :: j.slot != NextSlot(m.prep.slot)
    ensures |jobs| <= |m.segments|
  {
    ClosedJobsHaveSegments(m, jobs);
    JobsHaveSegments(jobs);
    assert forall j | j in jobs :: JobOk(m.slots, j);
    forall j | j in jobs ensures j.slot != NextSlot(m.prep.slot) {
      var k :| 0 <= k < |jobs| && jobs[k] == j;
      NextSlotIsFree(jobs, m.prep.slot, k);
    }
    SegmentsBelongToJobs(m, jobs);
    if m.isr.executing { assert jobs[0] in jobs; }
  }

  lemma {:induction false} FlattenMembers(jobs: seq<Job>, s: Segment)
    requires s in Flatten(jobs)
    ensures exists j :: j in jobs && s in j.queue
  {
    if s in jobs[0].queue {
      assert jobs[0] in jobs;
    } else {
      FlattenMembers(jobs[1..], s);
      var j :| j in jobs[1..] && s in j.queue;
      assert j in jobs;
    }
  }

  lemma SegmentsBelongToJobs(m: Machine, jobs: seq<Job>)
    requires Inv(m, jobs)
    ensures forall s | s in m.segments :: exists j :: j in jobs && s in j.queue && SegmentOk(s, j.slot)
  {
    forall s | s in m.segments ensures exists j :: j in jobs && s in j.queue && SegmentOk(s, j.slot) {
      FlattenMembers(jobs, s);
      var j :| j in jobs && s in j.queue;
      assert JobOk(m.slots, j);
    }
  }

  lemma StepsPerMm(events: nat, mm: real)
    requires events >= 1 && mm > 0.0
    ensures events as real / mm > 0.0
    ensures WholeSteps(events as real / mm, mm) == events
  {
    var q := events as real / mm;
    assert q * mm == events as real;
  }

  function JobOf(m: Machine): Job
    requires m.plan != []
  {
    var b := m.plan[0];
    Job(b.steps, b.stepEventCount, b.negative, NextSlot(m.prep.slot), [], false, 0, Vec(0, 0, 0))
  }

  /** The jobs after a load: a block is copied once, a replanned one is not copied again. */
  function JobsAfterLoad(m: Machine, jobs: seq<Job>): seq<Job>
    requires m.plan != []
  {
    if m.prep.recalculate then jobs else jobs + [JobOf(m)]
  }

  lemma TakeNewBlock(m: Machine, jobs: seq<Job>)
    requires Inv(m, jobs) && CanPrep(m) && !Open(m) && m.plan != []
    requires m.plan[0].millimeters > 0.0
    ensures var t := TakeBlock(m);
            && Inv(t.(prep := t.prep.(loaded := false, recalculate := true)), JobsAfterLoad(m, jobs))
            && t.prep.loaded && t.prep.profile.exitSqr >= 0.0
  {
    assert m.plan[0] in m.plan;
    var t0 := TakeBlock(m);
    var t := t0.(prep := t0.prep.(loaded := false, recalculate := true));
    var j := JobOf(m);
    var jobs' := jobs + [j];
    LoadUsesFreeSlot(m, jobs);
    assert Traceable(m.plan[0].steps.At(X), m.plan[0].stepEventCount);
    StepsPerMm(m.plan[0].stepEventCount, m.plan[0].millimeters);
    FlattenAppend(jobs, j);
    NewJobOk(m, j);
    NewJobsOk(m, t, jobs, j);
    forall a: Axis
      ensures OwedByJobs(jobs', a) + OwedByBlocks(Waiting(t), a) == OwedByJobs(jobs, a) + OwedByBlocks(Waiting(m), a)
    {
      OwedAppend(jobs, j, a);
      assert t.plan[1..] == m.plan[1..];
    }
    assert IsrOk(t, jobs') by {
      if jobs != [] { assert jobs'[0] == jobs[0]; }
    }
    TakeNewPlan(m, t);
    assert PrepOk(t, jobs');
  }

  lemma TakeNewPlan(m: Machine, t: Machine)
    requires Shape(m) && m.plan != [] && m.plan[0] in m.plan
    requires |t.plan| == |m.plan| && t.plan[1..] == m.plan[1..]
    requires t.plan[0] == m.plan[0].(entrySqr := t.plan[0].entrySqr) && t.plan[0].entrySqr >= 0.0
    ensures forall b | b in t.plan :: BlockOk(b)
  {
    forall b | b in t.plan ensures BlockOk(b) {
      if b in t.plan[1..] { assert b in m.plan; }
    }
  }

  lemma NewJobOk(m: Machine, j: Job)
    requires Shape(m) && m.plan != [] && m.plan[0] in m.plan && j == JobOf(m)
    ensures JobOk(m.slots[j.slot := CopyOf(m.plan[0])], j)
  {
    var slots := m.slots[j.slot := CopyOf(m.plan[0])];
    forall a: Axis ensures slots[j.slot].steps.At(a) == Shifted(j.steps.At(a)) {
    }
    assert Traceable(j.steps.At(X), j.events);
  }

  lemma NewJobsOk(m: Machine, t: Machine, jobs: seq<Job>, j: Job)
    requires Inv(m, jobs) && !Open(m) && Open(t) && |t.slots| == SEGMENT_BUFFER_SIZE - 1
    requires j.slot < SEGMENT_BUFFER_SIZE - 1 && j.queue == [] && Unstarted(j) && JobOk(t.slots, j)
    requires j.slot == NextSlot(m.prep.slot)
    requires t.isr == m.isr && t.slots == m.slots[j.slot := t.slots[j.slot]]
    requires t.prep.stepsRemaining == j.events
    requires forall i | i in jobs :: i.slot != j.slot
    ensures JobsOk(t, jobs + [j]) && Chained(jobs + [j], j.slot)
  {
    var jobs' := jobs + [j];
    forall i | i in jobs' ensures JobOk(t.slots, i) {
      if i in jobs { assert JobOk(m.slots, i); }
    }
    forall k: nat | k < |jobs'| ensures Balanced(t, jobs', k) && (k >= 1 ==> Unstarted(jobs'[k])) {
      if k < |jobs| {
        assert jobs'[k] == jobs[k] && Balanced(m, jobs, k);
      } else {
        assert jobs'[k] == j;
      }
    }
  }

  lemma TakeOldBlock(m: Machine, jobs: seq<Job>)
    requires Inv(m, jobs) && m.prep.recalculate && m.plan != [] && m.plan[0].millimeters > 0.0
    ensures var t := TakeBlock(m);
            && Inv(t.(prep := t.prep.(loaded := false, recalculate := true)), jobs)
            && t.prep.loaded && t.prep.profile.exitSqr >= 0.0
  {
    var t := TakeBlock(m);
    PrepOnly(m, t.(prep := t.prep.(loaded := false, recalculate := true)), jobs);
  }

  /** Speeds, profile and control flags may change freely while the block stays taken. */
  lemma PrepOnly(m: Machine, t: Machine, jobs: seq<Job>)
    requires Inv(m, jobs)
    requires t == m.(prep := t.prep, endMotion := t.endMotion, executeHold := t.executeHold)
    requires t.prep.slot == m.prep.slot && t.prep.stepsRemaining == m.prep.stepsRemaining
    requires t.prep.stepPerMm == m.prep.stepPerMm && Open(t) == Open(m)
    requires t.prep.currentSqr >= 0.0 && t.prep.profile.exitSqr >= 0.0
    requires t.prep.loaded ==> !t.prep.recalculate
    requires t.prep.loaded && m.plan != [] ==> 0.0 <= t.prep.profile.mmComplete <= m.plan[0].millimeters
    ensures Inv(t, jobs)
  {
    PrepOnlyJobs(m, t, jobs);
    assert Waiting(t) == Waiting(m);
    assert PrepOk(t, jobs);
  }

  lemma PrepOnlyJobs(m: Machine, t: Machine, jobs: seq<Job>)
    requires |m.slots| == SEGMENT_BUFFER_SIZE - 1 && JobsOk(m, jobs)
    requires t.slots == m.slots && t.isr == m.isr
    requires t.prep.stepsRemaining == m.prep.stepsRemaining && Open(t) == Open(m)
    ensures JobsOk(t, jobs)
  {
    assert forall k: nat | k < |jobs| :: Balanced(m, jobs, k) ==> Balanced(t, jobs, k);
  }

  /** The profile completes within what is left of the block, and short of its end only in a hold. */
  lemma ShapeWithinBlock(m: Machine)
    requires m.plan != [] && BlockOk(m.plan[0])
    ensures var p := ShapeBlock(m).prep.profile;
            && 0.0 <= p.mmComplete <= m.plan[0].millimeters
            && (p.mmComplete > 0.0 ==> m.executeHold)
  {
    var b := m.plan[0];
    if m.executeHold {
      HoldBrakes(m.prep.profile, b.entrySqr, b.acceleration, b.millimeters, b.millimeters);
    }
  }

  lemma ShapeExitNonNegative(m: Machine)
    requires m.plan != [] && BlockOk(m.plan[0]) && ExitSqr(m.plan) >= 0.0
    ensures ShapeBlock(m).prep.profile.exitSqr >= 0.0
  {
    var b := m.plan[0];
    if m.executeHold {
      HoldBrakes(m.prep.profile, b.entrySqr, b.acceleration, b.millimeters, b.millimeters);
    } else {
      OverrideExit(m.prep.profile, b.entrySqr, ExitSqr(m.plan), NominalSqr(b, m.overrides), b.acceleration, b.millimeters);
    }
  }

  /** Even when an override leaves too little room to slow down, the exit speed is a real one. */
  lemma OverrideExit(prior: Profile, entry: real, exit: real, nominal: real, a: real, mm: real)
    requires a > 0.0 && exit >= 0.0 && nominal >= 0.0
    ensures NormalProfile(prior, entry, exit, nominal, a, mm).exitSqr >= 0.0
  {
    GainOfDistance(a, entry - nominal);
    GainIsMonotone(a, mm, Distance(a, entry - nominal));
  }

  lemma LoadKeepsInv(m: Machine, jobs: seq<Job>)
    requires Inv(m, jobs) && CanPrep(m) && !m.prep.loaded && m.plan != []
    requires BlockOk(m.plan[0])
    ensures Inv(LoadBlock(m), JobsAfterLoad(m, jobs))
  {
    if m.prep.recalculate { TakeOldBlock(m, jobs); } else { TakeNewBlock(m, jobs); }
    var t := TakeBlock(m);
    var u := t.(prep := t.prep.(loaded := false, recalculate := true));
    assert u.plan[0] in u.plan;
    assert |u.plan| > 1 ==> u.plan[1] in u.plan;
    ShapeWithinBlock(t);
    ShapeExitNonNegative(t);
    MarkLoaded(u, JobsAfterLoad(m, jobs), ShapeBlock(t).prep.profile);
  }

  lemma MarkLoaded(u: Machine, jobs: seq<Job>, p: Profile)
    requires Inv(u, jobs) && u.prep.recalculate && u.plan != []
    requires 0.0 <= p.mmComplete <= u.plan[0].millimeters && p.exitSqr >= 0.0
    ensures Inv(u.(prep := u.prep.(loaded := true, recalculate := false, profile := p)), jobs)
  {
    PrepOnly(u, u.(prep := u.prep.(loaded := true, recalculate := false, profile := p)), jobs);
  }

  // ---------------------------------------------------------------------------
  // Committing a segment
  // ---------------------------------------------------------------------------

  lemma CeilOrder(x: real, y: real)
    requires x <= y
    ensures Ceil(x) <= Ceil(y)
    ensures x + 1.0 <= y ==> Ceil(x) + 1 <= Ceil(y)
    ensures x == 0.0 ==> Ceil(x) == 0
    ensures x > 0.0 ==> Ceil(x) >= 1
  {
  }

  lemma Scaled(spm: real, a: real, b: real)
    requires spm > 0.0 && a <= b
    ensures spm * a <= spm * b
    ensures a < b ==> spm * a < spm * b
  {
    assert spm * (b - a) >= 0.0;
    if a < b { assert spm * (b - a) > 0.0; }
  }

  lemma WholeStepsOrder(spm: real, a: real, b: real)
    requires spm > 0.0 && a <= b
    ensures WholeSteps(spm, a) <= WholeSteps(spm, b)
  {
    Scaled(spm, a, b);
    CeilOrder(spm * a, spm * b);
  }

  lemma WholeStepsOfNothing(spm: real, left: real)
    requires spm > 0.0 && left >= 0.0
    ensures WholeSteps(spm, 0.0) == 0
    ensures left > 0.0 <==> WholeSteps(spm, left) >= 1
  {
    assert spm * 0.0 == 0.0;
    Scaled(spm, 0.0, left);
    CeilOrder(spm * left, spm * left);
  }

  /** A distance of at least 1.25 steps holds at least one whole step. */
  lemma WholeStepsGap(spm: real, a: real, b: real)
    requires spm > 0.0 && a <= b - REQ_MM_INCREMENT_SCALAR / spm
    ensures WholeSteps(spm, a) + 1 <= WholeSteps(spm, b)
  {
    var inc := REQ_MM_INCREMENT_SCALAR / spm;
    assert spm * inc == REQ_MM_INCREMENT_SCALAR;
    Scaled(spm, a, b - inc);
    assert spm * (b - inc) == spm * b - spm * inc;
    CeilOrder(spm * a, spm * b);
  }

  /**
   A segment carries at least one step event, unless it ends where the profile does, short of the end
   of the block. In a hold no segment is made then.
   */
  lemma SegmentsHaveSteps(m: Machine, jobs: seq<Job>, mmRemaining: real)
    requires Inv(m, jobs) && m.prep.loaded && RampMayEnd(m, mmRemaining)
    ensures WholeSteps(m.prep.stepPerMm, mmRemaining) >= 0
    ensures StepsTo(m, mmRemaining) >= 0
    ensures StepsTo(m, mmRemaining) == 0 ==> mmRemaining == m.prep.profile.mmComplete > 0.0
    ensures mmRemaining == 0.0 ==> WholeSteps(m.prep.stepPerMm, mmRemaining) == 0
    ensures mmRemaining > 0.0 ==> WholeSteps(m.prep.stepPerMm, mmRemaining) >= 1
  {
    StepsWithin(m.prep.stepPerMm, m.plan[0].millimeters, m.prep.profile.mmComplete, mmRemaining);
  }

  lemma StepsWithin(spm: real, mm: real, complete: real, left: real)
    requires spm > 0.0 && 0.0 <= complete <= left <= mm
    requires WholeSteps(spm, mm) >= 1
    requires left == complete || left <= (if mm - REQ_MM_INCREMENT_SCALAR / spm < 0.0 then 0.0
                                          else mm - REQ_MM_INCREMENT_SCALAR / spm)
    ensures 0 <= WholeSteps(spm, left) <= WholeSteps(spm, mm)
    ensures left > 0.0 ==> WholeSteps(spm, left) >= 1
    ensures left == 0.0 ==> WholeSteps(spm, left) == 0
    ensures WholeSteps(spm, left) == WholeSteps(spm, mm) ==> left == complete > 0.0
  {
    WholeStepsOrder(spm, left, mm);
    WholeStepsOrder(spm, 0.0, left);
    WholeStepsOfNothing(spm, left);
    if left != complete { WholeStepsGap(spm, left, mm); }
  }

  predicate MayCommit(m: Machine, mmRemaining: real, speedSqr: real, level: nat)
    requires m.plan != [] && m.prep.stepPerMm > 0.0
  {
    && level <= MAX_AMASS_LEVEL && speedSqr >= 0.0
    && RampMayEnd(m, mmRemaining)
    && StepsTo(m, mmRemaining) * Pow2(level) < 0x1_0000
  }

  function SegmentOf(m: Machine, mmRemaining: real, level: nat): Segment
    requires level <= MAX_AMASS_LEVEL && StepsTo(m, mmRemaining) >= 0
  {
    Segment(StepsTo(m, mmRemaining) * Pow2(level), m.prep.slot, level)
  }

  /** The newest job with one more segment. */
  function Queued(jobs: seq<Job>, s: Segment): seq<Job>
    requires jobs != []
  {
    var n := |jobs| - 1;
    jobs[..n] + [jobs[n].(queue := jobs[n].queue + [s])]
  }

  lemma QueuedFlattens(jobs: seq<Job>, s: Segment)
    requires jobs != []
    ensures Flatten(Queued(jobs, s)) == Flatten(jobs) + [s]
    ensures forall a: Axis :: OwedByJobs(Queued(jobs, s), a) == OwedByJobs(jobs, a)
  {
    var n := |jobs| - 1;
    assert jobs == jobs[..n] + [jobs[n]];
    FlattenAppend(jobs[..n], jobs[n]);
    FlattenAppend(jobs[..n], jobs[n].(queue := jobs[n].queue + [s]));
    forall a: Axis ensures OwedByJobs(Queued(jobs, s), a) == OwedByJobs(jobs, a) {
      OwedAppend(jobs[..n], jobs[n], a);
      OwedAppend(jobs[..n], jobs[n].(queue := jobs[n].queue + [s]), a);
    }
  }

  lemma LeftAppend(queue: seq<Segment>, s: Segment, executing: bool, stepCount: nat)
    requires executing ==> queue != []
    ensures Left(queue + [s], executing, stepCount) == Left(queue, executing, stepCount) + Worth(s.nStep, s.level)
  {
    EighthsAppend(queue, s);
    if executing {
      assert (queue + [s])[1..] == queue[1..] + [s];
      EighthsAppend(queue[1..], s);
    }
  }

  lemma QueuedJobsOk(m: Machine, t: Machine, jobs: seq<Job>, s: Segment, n: nat)
    requires Inv(m, jobs) && Open(m)
    requires SegmentOk(s, m.prep.slot) && Worth(s.nStep, s.level) == 8 * n
    requires t.slots == m.slots && t.isr == m.isr
    requires m.prep.stepsRemaining == n + (if Open(t) then t.prep.stepsRemaining else 0)
    ensures JobsOk(t, Queued(jobs, s)) && Chained(Queued(jobs, s), m.prep.slot)
  {
    var jobs' := Queued(jobs, s);
    var l := |jobs| - 1;
    forall j | j in jobs' ensures JobOk(t.slots, j) {
      if j in jobs[..l] {
        assert j in jobs && JobOk(m.slots, j);
      } else {
        assert jobs[l] in jobs && JobOk(m.slots, jobs[l]);
      }
    }
    forall k: nat | k < |jobs'| ensures Balanced(t, jobs', k) && (k >= 1 ==> Unstarted(jobs'[k])) {
      assert Balanced(m, jobs, k);
      assert k >= 1 ==> Unstarted(jobs[k]);
      if k == l { LeftAppend(jobs[k].queue, s, m.isr.executing && k == 0, m.isr.stepCount); }
    }
  }

  lemma CommitKeepsInv(m: Machine, jobs: seq<Job>, mmRemaining: real, speedSqr: real, level: nat) returns (jobs': seq<Job>)
    requires Inv(m, jobs) && CanPrep(m) && m.prep.loaded && MayCommit(m, mmRemaining, speedSqr, level)
    requires m.executeHold || StepsTo(m, mmRemaining) != 0
    ensures StepsTo(m, mmRemaining) >= 0 && WholeSteps(m.prep.stepPerMm, mmRemaining) >= 0
    ensures Inv(CommitSegment(m, mmRemaining, speedSqr, level), jobs')
  {
    SegmentsHaveSteps(m, jobs, mmRemaining);
    if StepsTo(m, mmRemaining) == 0 {
      jobs' := jobs;
      CommitNothing(m, jobs, mmRemaining, speedSqr, level);
    } else {
      jobs' := Queued(jobs, SegmentOf(m, mmRemaining, level));
      CommitSome(m, jobs, mmRemaining, speedSqr, level);
    }
  }

  lemma CommitNothing(m: Machine, jobs: seq<Job>, mmRemaining: real, speedSqr: real, level: nat)
    requires Inv(m, jobs) && m.plan != [] && level <= MAX_AMASS_LEVEL && speedSqr >= 0.0
    requires StepsTo(m, mmRemaining) == 0 && WholeSteps(m.prep.stepPerMm, mmRemaining) >= 0 && m.executeHold
    ensures Inv(CommitSegment(m, mmRemaining, speedSqr, level), jobs)
  {
    var t := CommitSegment(m, mmRemaining, speedSqr, level);
    assert t == m.(prep := m.prep.(currentSqr := speedSqr), endMotion := true);
    PrepOnly(m, t, jobs);
  }

  lemma CommitSome(m: Machine, jobs: seq<Job>, mmRemaining: real, speedSqr: real, level: nat)
    requires Inv(m, jobs) && CanPrep(m) && m.prep.loaded && MayCommit(m, mmRemaining, speedSqr, level)
    requires StepsTo(m, mmRemaining) >= 1 && WholeSteps(m.prep.stepPerMm, mmRemaining) >= 0
    requires mmRemaining == 0.0 <==> WholeSteps(m.prep.stepPerMm, mmRemaining) == 0
    ensures Inv(CommitSegment(m, mmRemaining, speedSqr, level), Queued(jobs, SegmentOf(m, mmRemaining, level)))
  {
    var s := SegmentOf(m, mmRemaining, level);
    var t := CommitSegment(m, mmRemaining, speedSqr, level);
    SegmentIsOk(m, StepsTo(m, mmRemaining), level);
    QueuedFlattens(jobs, s);
    CommitFrame(m, jobs, mmRemaining, speedSqr, level);
    QueuedJobsOk(m, t, jobs, s, StepsTo(m, mmRemaining));
    QueuedIsrOk(m, t, jobs, s);
    CommitPrepOk(m, t, jobs, s, mmRemaining, speedSqr, level);
  }

  lemma CommitFrame(m: Machine, jobs: seq<Job>, mmRemaining: real, speedSqr: real, level: nat)
    requires Inv(m, jobs) && CanPrep(m) && m.prep.loaded && MayCommit(m, mmRemaining, speedSqr, level)
    requires StepsTo(m, mmRemaining) >= 1 && WholeSteps(m.prep.stepPerMm, mmRemaining) >= 0
    requires mmRemaining == 0.0 <==> WholeSteps(m.prep.stepPerMm, mmRemaining) == 0
    ensures var t := CommitSegment(m, mmRemaining, speedSqr, level);
            && Shape(t) && Waiting(t) == Waiting(m)
            && t.segments == m.segments + [SegmentOf(m, mmRemaining, level)]
            && t.slots == m.slots && t.isr == m.isr && t.position == m.position && t.planPosition == m.planPosition
            && t.prep.slot == m.prep.slot
            && m.prep.stepsRemaining
               == StepsTo(m, mmRemaining) + (if Open(t) then t.prep.stepsRemaining else 0)
  {
    CommitPlan(m, mmRemaining);
  }

  lemma SegmentIsOk(m: Machine, n: nat, level: nat)
    requires level <= MAX_AMASS_LEVEL && 1 <= n && n * Pow2(level) < 0x1_0000
    ensures SegmentOk(Segment(n * Pow2(level), m.prep.slot, level), m.prep.slot)
    ensures Worth(n * Pow2(level), level) == 8 * n
  {
    if level == 0 {
    } else if level == 1 {
    } else if level == 2 {
    } else {
    }
  }

  lemma CommitPlan(m: Machine, mmRemaining: real)
    requires Shape(m) && m.plan != [] && mmRemaining >= 0.0
    ensures var plan := m.plan[0 := m.plan[0].(millimeters := mmRemaining)];
            && plan[1..] == m.plan[1..]
            && (forall b | b in plan[1..] :: BlockOk(b))
            && (mmRemaining > 0.0 ==> forall b | b in plan :: BlockOk(b))
  {
    var plan := m.plan[0 := m.plan[0].(millimeters := mmRemaining)];
    assert m.plan[0] in m.plan;
    assert plan[1..] == m.plan[1..];
    forall b | b in plan[1..] ensures BlockOk(b) { assert b in m.plan; }
    forall b | b in plan && mmRemaining > 0.0 ensures BlockOk(b) {
      if b != plan[0] { assert b in plan[1..]; }
    }
  }

  lemma QueuedIsrOk(m: Machine, t: Machine, jobs: seq<Job>, s: Segment)
    requires Inv(m, jobs) && jobs != [] && t.isr == m.isr
    ensures IsrOk(t, Queued(jobs, s))
  {
    assert Queued(jobs, s)[0].(queue := []) == jobs[0].(queue := []);
    assert jobs[0].queue != [] ==> Queued(jobs, s)[0].queue[0] == jobs[0].queue[0];
  }

  lemma CommitPrepOk(m: Machine, t: Machine, jobs: seq<Job>, s: Segment, mmRemaining: real, speedSqr: real, level: nat)
    requires Inv(m, jobs) && m.prep.loaded && MayCommit(m, mmRemaining, speedSqr, level)
    requires StepsTo(m, mmRemaining) >= 1 && WholeSteps(m.prep.stepPerMm, mmRemaining) >= 0
    requires t == CommitSegment(m, mmRemaining, speedSqr, level)
    requires mmRemaining > 0.0 ==> WholeSteps(m.prep.stepPerMm, mmRemaining) >= 1
    ensures PrepOk(t, Queued(jobs, s))
  {
    var jobs' := Queued(jobs, s);
    assert jobs'[|jobs'| - 1].(queue := []) == jobs[|jobs| - 1].(queue := []);
  }

  // ---------------------------------------------------------------------------
  // The step interrupt
  // ---------------------------------------------------------------------------

  /** The segment at the head of the queue belongs to the oldest job. */
  lemma HeadSegment(m: Machine, jobs: seq<Job>)
    requires Inv(m, jobs) && m.segments != []
    ensures jobs != [] && jobs[0].queue != [] && m.segments[0] == jobs[0].queue[0]
    ensures SegmentOk(m.segments[0], jobs[0].slot)
    ensures m.segments[1..] == jobs[0].queue[1..] + Flatten(jobs[1..])
  {
    assert Balanced(m, jobs, 0);
    assert jobs[0] in jobs && JobOk(m.slots, jobs[0]);
    assert |jobs| == 1 ==> Flatten(jobs[1..]) == [];
    assert jobs[0].queue[0] in jobs[0].queue;
  }

  /** The interrupt resets its counters exactly when it loads the first segment of a block. */
  lemma CountersResetOncePerBlock(m: Machine, jobs: seq<Job>)
    requires Inv(m, jobs) && !m.isr.executing && m.segments != []
    ensures jobs != []
    ensures m.isr.execIndex != m.segments[0].slot <==> !jobs[0].started
    ensures !jobs[0].started ==> jobs[0].ticked == 0
  {
    HeadSegment(m, jobs);
  }

  lemma LoadSegmentKeepsInv(m: Machine, jobs: seq<Job>) returns (jobs': seq<Job>)
    requires Inv(m, jobs) && !m.isr.executing && m.segments != []
    ensures m.segments[0].slot < |m.slots| && m.segments[0].level <= MAX_AMASS_LEVEL
    ensures Inv(LoadSegment(m), jobs')
  {
    HeadSegment(m, jobs);
    var j := jobs[0];
    assert j in jobs && JobOk(m.slots, j);
    jobs' := jobs[0 := j.(started := true)];
    var t := LoadSegment(m);
    forall a: Axis
      ensures t.isr.steps.At(a) == Increment(Shifted(j.steps.At(a)), j.queue[0].level)
      ensures Exact(t.isr.counter.At(a), j.steps.At(a), j.events, j.ticked, j.fired.At(a))
    {
      if !j.started { StartIsExact(j.steps.At(a), j.events); }
    }
    HeadOnly(m, t, jobs, jobs'[0]);
    assert IsrOk(t, jobs');
  }

  /** Replacing the oldest job by one with the same step data leaves the rest of the invariant alone. */
  lemma HeadOnly(m: Machine, t: Machine, jobs: seq<Job>, j: Job)
    requires Inv(m, jobs) && jobs != []
    requires t == m.(isr := t.isr) && t.isr.executing && t.isr.execIndex < SEGMENT_BUFFER_SIZE - 1
    requires j == jobs[0].(started := true) && j.queue != []
    requires Left(j.queue, true, t.isr.stepCount) == Left(j.queue, m.isr.executing, m.isr.stepCount)
    ensures var jobs' := jobs[0 := j];
            && Shape(t) && t.segments == Flatten(jobs') && Chained(jobs', t.prep.slot)
            && JobsOk(t, jobs') && PrepOk(t, jobs') && Conserved(t, jobs')
  {
    var jobs' := jobs[0 := j];
    assert jobs'[1..] == jobs[1..];
    HeadJobsOk(m, t, jobs, j);
    forall a: Axis ensures OwedByJobs(jobs', a) == OwedByJobs(jobs, a) {
    }
  }

  lemma HeadJobsOk(m: Machine, t: Machine, jobs: seq<Job>, j: Job)
    requires Inv(m, jobs) && jobs != []
    requires t == m.(isr := t.isr) && t.isr.executing
    requires j == jobs[0].(started := true)
    requires Left(j.queue, true, t.isr.stepCount) == Left(j.queue, m.isr.executing, m.isr.stepCount)
    ensures JobsOk(t, jobs[0 := j])
  {
    var jobs' := jobs[0 := j];
    forall i | i in jobs' ensures JobOk(t.slots, i) {
      assert jobs[0] in jobs && JobOk(m.slots, jobs[0]);
    }
    forall k: nat | k < |jobs'| ensures Balanced(t, jobs', k) && (k >= 1 ==> Unstarted(jobs'[k])) {
      assert Balanced(m, jobs, k);
    }
  }

  /** Emitted steps of one axis after one more tick. */
  function Fired(m: Machine, j: Job, a: Axis): nat
    requires m.isr.execIndex < |m.slots|
  {
    j.fired.At(a) + if AxisTick(m, a).1 then 1 else 0
  }

  function Ticked(m: Machine, j: Job): Job
    requires m.isr.execIndex < |m.slots| && j.queue != [] && j.queue[0].level <= MAX_AMASS_LEVEL
  {
    j.(ticked := j.ticked + Weight(j.queue[0].level),
       fired := Vec(Fired(m, j, X), Fired(m, j, Y), Fired(m, j, Z)),
       queue := if m.isr.stepCount == 1 then j.queue[1..] else j.queue)
  }

  lemma TickedExact(m: Machine, j: Job, a: Axis)
    requires m.isr.execIndex < |m.slots| && j.queue != [] && j.queue[0].level <= MAX_AMASS_LEVEL
    requires m.isr.execIndex == j.slot && JobOk2(m.slots, j)
    requires Exact(m.isr.counter.At(a), j.steps.At(a), j.events, j.ticked, j.fired.At(a))
    requires m.isr.steps.At(a) == Increment(Shifted(j.steps.At(a)), j.queue[0].level)
    ensures Exact(AxisTick(m, a).0, j.steps.At(a), j.events, Ticked(m, j).ticked, Ticked(m, j).fired.At(a))
    ensures Moved(m, a) == m.position.At(a) + Signed(j.negative.At(a), Ticked(m, j).fired.At(a) - j.fired.At(a))
  {
    TickIsExact(m.isr.counter.At(a), j.steps.At(a), j.events, j.ticked, j.fired.At(a), j.queue[0].level);
  }

  /** The step data of a job, without its progress. */
  ghost predicate JobOk2(slots: seq<StBlock>, j: Job)
    requires j.slot < |slots|
  {
    && (forall a: Axis :: Traceable(j.steps.At(a), j.events))
    && slots[j.slot].stepEventCount == Shifted(j.events)
    && slots[j.slot].negative == j.negative
  }

  /** What one tick does to the account of the oldest job. */
  lemma TickBalance(m: Machine, jobs: seq<Job>)
    requires Inv(m, jobs) && m.isr.executing
    ensures jobs != [] && jobs[0].queue != [] && jobs[0].queue[0].level <= MAX_AMASS_LEVEL
    ensures m.isr.execIndex == jobs[0].slot && JobOk(m.slots, jobs[0])
    ensures var j' := Ticked(m, jobs[0]);
            && j'.ticked + Left(j'.queue, m.isr.stepCount > 1, m.isr.stepCount - 1)
               == jobs[0].ticked + Left(jobs[0].queue, true, m.isr.stepCount)
            && (m.isr.stepCount > 1 ==> Left(j'.queue, true, m.isr.stepCount - 1) >= 1)
  {
    assert jobs[0] in jobs;
    var level, count := jobs[0].queue[0].level, m.isr.stepCount;
    OneTick(count, level);
  }

  lemma OneTick(count: nat, level: nat)
    requires count >= 1 && level <= MAX_AMASS_LEVEL
    ensures Worth(count, level) == Worth(count - 1, level) + Weight(level)
    ensures count > 1 ==> Worth(count - 1, level) >= 1
  {
  }

  lemma {:induction false} NothingLeft(queue: seq<Segment>, slot: nat)
    requires forall s | s in queue :: SegmentOk(s, slot)
    ensures Eighths(queue) == 0 <==> queue == []
  {
    if queue != [] { assert queue[0] in queue; }
  }

  lemma ExecuteKeepsInv(m: Machine, jobs: seq<Job>) returns (jobs': seq<Job>)
    requires Inv(m, jobs) && m.isr.executing
    ensures m.segments != [] && m.isr.execIndex < |m.slots|
    ensures Inv(Execute(m), jobs')
  {
    TickBalance(m, jobs);
    var j := jobs[0];
    HeadIsSegment(m, jobs);
    var j' := Ticked(m, j);
    forall a: Axis
      ensures Exact(AxisTick(m, a).0, j.steps.At(a), j.events, j'.ticked, j'.fired.At(a))
      ensures Moved(m, a) == m.position.At(a) + Signed(j.negative.At(a), j'.fired.At(a) - j.fired.At(a))
    {
      TickedExact(m, j, a);
    }
    assert Balanced(m, jobs, 0);
    if j'.ticked < 8 * j.events {
      jobs' := jobs[0 := j'];
      ExecuteContinues(m, jobs, j');
    } else {
      jobs' := jobs[1..];
      ExecuteCompletes(m, jobs, j');
    }
  }

  lemma HeadIsSegment(m: Machine, jobs: seq<Job>)
    requires Inv(m, jobs) && m.isr.executing
    ensures m.segments != [] && jobs != [] && jobs[0].queue != []
    ensures m.segments[0] == jobs[0].queue[0] && m.segments[1..] == jobs[0].queue[1..] + Flatten(jobs[1..])
    ensures m.isr.stepCount == 1 <==> (m.isr.stepCount - 1) % 0x1_0000 == 0
    ensures m.isr.stepCount > 1 ==> (m.isr.stepCount - 1) % 0x1_0000 == m.isr.stepCount - 1
  {
    assert jobs[0] in jobs && JobOk(m.slots, jobs[0]);
    assert jobs[0].queue[0] in jobs[0].queue;
  }

  /** What the tick has shown about the oldest job and the new machine state. */
  ghost predicate AfterTick(m: Machine, jobs: seq<Job>, j': Job) {
    && Inv(m, jobs) && m.isr.executing && jobs != []
    && m.segments != [] && m.isr.execIndex < |m.slots|
    && m.isr.execIndex == jobs[0].slot && jobs[0].queue != [] && jobs[0].queue[0].level <= MAX_AMASS_LEVEL
    && j' == Ticked(m, jobs[0])
    && (forall a: Axis ::
         && Exact(AxisTick(m, a).0, j'.steps.At(a), j'.events, j'.ticked, j'.fired.At(a))
         && Moved(m, a) == m.position.At(a) + Signed(j'.negative.At(a), j'.fired.At(a) - jobs[0].fired.At(a)))
    && j'.ticked + Left(j'.queue, m.isr.stepCount > 1, m.isr.stepCount - 1)
       == jobs[0].ticked + Left(jobs[0].queue, true, m.isr.stepCount)
    && m.segments[0] == jobs[0].queue[0] && m.segments[1..] == jobs[0].queue[1..] + Flatten(jobs[1..])
    && (m.isr.stepCount == 1 <==> (m.isr.stepCount - 1) % 0x1_0000 == 0)
    && (m.isr.stepCount > 1 ==> (m.isr.stepCount - 1) % 0x1_0000 == m.isr.stepCount - 1)
  }

  lemma ExecuteFrame(m: Machine)
    requires m.segments != [] && m.isr.execIndex < |m.slots|
    ensures var t := Execute(m);
            && t == m.(position := t.position, isr := t.isr, segments := t.segments)
            && (forall a: Axis :: t.position.At(a) == Moved(m, a) && t.isr.counter.At(a) == AxisTick(m, a).0)
            && t.isr.execIndex == m.isr.execIndex && t.isr.steps == m.isr.steps
            && t.isr.stepCount == (m.isr.stepCount - 1) % 0x1_0000
            && t.segments == (if t.isr.stepCount == 0 then m.segments[1..] else m.segments)
            && t.isr.executing == (m.isr.executing && t.isr.stepCount != 0)
  {
  }

  /** Moving the oldest job's emitted steps into the machine position leaves the account unchanged. */
  lemma HeadOwed(jobs: seq<Job>, j': Job, a: Axis)
    requires jobs != [] && j'.steps == jobs[0].steps && j'.negative == jobs[0].negative
    ensures OwedByJobs(jobs[0 := j'], a) + Signed(j'.negative.At(a), j'.fired.At(a) - jobs[0].fired.At(a))
         == OwedByJobs(jobs, a)
    ensures j'.fired.At(a) == j'.steps.At(a) ==> OwedByJobs(jobs[1..], a) == OwedByJobs(jobs[0 := j'], a)
  {
    assert jobs[0 := j'][1..] == jobs[1..];
  }

  lemma TickConserves(m: Machine, jobs: seq<Job>, j': Job, t: Machine, jobs': seq<Job>)
    requires AfterTick(m, jobs, j') && t == m.(position := t.position, isr := t.isr, segments := t.segments)
    requires forall a: Axis :: t.position.At(a) == Moved(m, a)
    requires jobs' == jobs[0 := j'] || (jobs' == jobs[1..] && forall a: Axis :: j'.fired.At(a) == j'.steps.At(a))
    ensures Conserved(t, jobs')
  {
    assert Waiting(t) == Waiting(m);
    forall a: Axis
      ensures t.planPosition.At(a) == t.position.At(a) + OwedByJobs(jobs', a) + OwedByBlocks(Waiting(t), a)
    {
      HeadOwed(jobs, j', a);
    }
  }

  lemma ExecuteContinues(m: Machine, jobs: seq<Job>, j': Job)
    requires AfterTick(m, jobs, j') && j'.ticked < 8 * j'.events
    ensures Inv(Execute(m), jobs[0 := j'])
  {
    ContinuedShape(m, jobs, j');
    ContinuedPrep(m, jobs, j');
    ContinuedJobsOk(m, jobs, j');
    ContinuedConserves(m, jobs, j');
    ContinuedIsrOk(m, jobs, j');
  }

  lemma ContinuedConserves(m: Machine, jobs: seq<Job>, j': Job)
    requires AfterTick(m, jobs, j')
    ensures Conserved(Execute(m), jobs[0 := j'])
  {
    ExecuteFrame(m);
    TickConserves(m, jobs, j', Execute(m), jobs[0 := j']);
  }

  lemma ContinuedShape(m: Machine, jobs: seq<Job>, j': Job)
    requires AfterTick(m, jobs, j')
    ensures Shape(Execute(m)) && Execute(m).segments == Flatten(jobs[0 := j'])
  {
    ExecuteFrame(m);
    HeadFlattens(jobs, j', m.segments, m.isr.stepCount == 1);
  }

  lemma ContinuedPrep(m: Machine, jobs: seq<Job>, j': Job)
    requires AfterTick(m, jobs, j')
    ensures Chained(jobs[0 := j'], Execute(m).prep.slot) && PrepOk(Execute(m), jobs[0 := j'])
  {
    ExecuteFrame(m);
    ContinuedChain(m, jobs, j', Execute(m));
  }

  lemma HeadFlattens(jobs: seq<Job>, j': Job, segments: seq<Segment>, released: bool)
    requires jobs != [] && jobs[0].queue != [] && segments == Flatten(jobs)
    requires j'.queue == if released then jobs[0].queue[1..] else jobs[0].queue
    ensures |segments| > 0
    ensures Flatten(jobs[0 := j']) == if released then segments[1..] else segments
  {
    assert jobs[0 := j'][1..] == jobs[1..];
  }

  lemma ContinuedChain(m: Machine, jobs: seq<Job>, j': Job, t: Machine)
    requires Chained(jobs, m.prep.slot) && PrepOk(m, jobs) && jobs != []
    requires j'.slot == jobs[0].slot && j'.steps == jobs[0].steps && j'.events == jobs[0].events
    requires j'.negative == jobs[0].negative
    requires t.prep == m.prep && t.plan == m.plan
    ensures Chained(jobs[0 := j'], m.prep.slot) && PrepOk(t, jobs[0 := j'])
  {
  }

  lemma ContinuedJobsOk(m: Machine, jobs: seq<Job>, j': Job)
    requires AfterTick(m, jobs, j') && j'.ticked < 8 * j'.events
    ensures JobsOk(Execute(m), jobs[0 := j'])
  {
    ExecuteFrame(m);
    ContinuedAccounts(m, jobs, j', Execute(m));
  }

  lemma ContinuedAccounts(m: Machine, jobs: seq<Job>, j': Job, t: Machine)
    requires |m.slots| == SEGMENT_BUFFER_SIZE - 1 && JobsOk(m, jobs) && jobs != []
    requires j' == jobs[0].(ticked := j'.ticked, fired := j'.fired, queue := j'.queue) && j'.ticked < 8 * j'.events
    requires forall s | s in j'.queue :: s in jobs[0].queue
    requires t.slots == m.slots && t.prep == m.prep
    requires j'.ticked + Left(j'.queue, t.isr.executing, t.isr.stepCount)
             == jobs[0].ticked + Left(jobs[0].queue, m.isr.executing, m.isr.stepCount)
    ensures JobsOk(t, jobs[0 := j'])
  {
    var jobs' := jobs[0 := j'];
    forall i | i in jobs' ensures JobOk(t.slots, i) {
      assert jobs[0] in jobs && JobOk(m.slots, jobs[0]);
    }
    forall k: nat | k < |jobs'| ensures Balanced(t, jobs', k) && (k >= 1 ==> Unstarted(jobs'[k])) {
      assert Balanced(m, jobs, k);
    }
  }

  lemma ContinuedIsrOk(m: Machine, jobs: seq<Job>, j': Job)
    requires AfterTick(m, jobs, j') && j'.ticked < 8 * j'.events
    ensures IsrOk(Execute(m), jobs[0 := j'])
  {
    ExecuteFrame(m);
    ContinuedTracer(m, jobs, j', Execute(m));
  }

  lemma ContinuedTracer(m: Machine, jobs: seq<Job>, j': Job, t: Machine)
    requires jobs != [] && IsrOk(m, jobs) && m.isr.executing
    requires j' == jobs[0].(ticked := j'.ticked, fired := j'.fired, queue := j'.queue)
    requires t.isr.execIndex == m.isr.execIndex && t.isr.steps == m.isr.steps
    requires forall a: Axis :: Exact(t.isr.counter.At(a), j'.steps.At(a), j'.events, j'.ticked, j'.fired.At(a))
    requires t.isr.executing ==> j'.queue == jobs[0].queue && 1 <= t.isr.stepCount <= m.isr.stepCount
    ensures IsrOk(t, jobs[0 := j'])
  {
  }

  lemma ExecuteCompletes(m: Machine, jobs: seq<Job>, j': Job)
    requires AfterTick(m, jobs, j') && j'.ticked >= 8 * j'.events
    ensures Inv(Execute(m), jobs[1..])
    ensures forall a: Axis :: j'.fired.At(a) == j'.steps.At(a)
  {
    var t := Execute(m);
    var rest := jobs[1..];
    ExecuteFrame(m);
    CompletedAccount(m, jobs, j');
    forall a: Axis ensures j'.fired.At(a) == j'.steps.At(a) {
      CompletedIsExact(AxisTick(m, a).0, j'.steps.At(a), j'.events, j'.fired.At(a));
    }
    TickConserves(m, jobs, j', t, rest);
    RestJobsOk(m, jobs, t);
    RestIsrOk(m, jobs, t);
    assert t.segments == Flatten(rest);
  }

  lemma RestIsrOk(m: Machine, jobs: seq<Job>, t: Machine)
    requires Inv(m, jobs) && jobs != [] && !t.isr.executing && t.isr.execIndex == jobs[0].slot
    requires t == m.(position := t.position, isr := t.isr, segments := t.segments)
    requires Open(m) ==> |jobs| > 1
    ensures IsrOk(t, jobs[1..]) && PrepOk(t, jobs[1..])
  {
    var rest := jobs[1..];
    if rest != [] {
      assert rest[0] == jobs[1] && Unstarted(jobs[1]);
      assert rest[|rest| - 1] == jobs[|jobs| - 1];
      assert jobs[1].slot == NextSlot(jobs[0].slot);
    }
  }

  lemma CompletedAccount(m: Machine, jobs: seq<Job>, j': Job)
    requires AfterTick(m, jobs, j') && j'.ticked >= 8 * j'.events
    ensures j'.ticked == 8 * j'.events && m.isr.stepCount == 1 && jobs[0].queue[1..] == []
    ensures Open(m) ==> |jobs| > 1
  {
    assert Balanced(m, jobs, 0);
    assert jobs[0] in jobs && JobOk(m.slots, jobs[0]);
    NothingLeft(jobs[0].queue[1..], jobs[0].slot);
  }

  lemma RestJobsOk(m: Machine, jobs: seq<Job>, t: Machine)
    requires Inv(m, jobs) && jobs != [] && !t.isr.executing
    requires t.slots == m.slots && t.prep == m.prep
    ensures JobsOk(t, jobs[1..]) && Chained(jobs[1..], m.prep.slot)
  {
    var rest := jobs[1..];
    forall i | i in rest ensures JobOk(t.slots, i) {
      assert i in jobs && JobOk(m.slots, i);
    }
    forall k: nat | k < |rest| ensures Balanced(t, rest, k) && (k >= 1 ==> Unstarted(rest[k])) {
      assert rest[k] == jobs[k + 1] && Balanced(m, jobs, k + 1) && Unstarted(jobs[k + 1]);
    }
    forall i, k {:trigger rest[i], rest[k]} | 0 <= i < k < |rest| && k == i + 1
      ensures rest[k].slot == NextSlot(rest[i].slot)
    {
      assert jobs[k + 1].slot == NextSlot(jobs[i + 1].slot);
    }
  }

  lemma InterruptKeepsInv(m: Machine, jobs: seq<Job>) returns (jobs': seq<Job>)
    requires Inv(m, jobs)
    ensures CanTick(m)
    ensures Inv(Interrupt(m), jobs')
  {
    if m.segments != [] { HeadSegment(m, jobs); assert JobOk(m.slots, jobs[0]) by { assert jobs[0] in jobs; } }
    if m.isr.executing {
      jobs' := ExecuteKeepsInv(m, jobs);
    } else if m.segments != [] {
      var loaded := LoadSegmentKeepsInv(m, jobs);
      jobs' := ExecuteKeepsInv(LoadSegment(m), loaded);
    } else {
      jobs' := jobs;
    }
  }

  lemma InterruptIsLegal(m: Machine, jobs: seq<Job>)
    requires Inv(m, jobs)
    ensures CanTick(m)
  {
    var _ := InterruptKeepsInv(m, jobs);
  }

  // ---------------------------------------------------------------------------
  // Holds, overrides, reset
  // ---------------------------------------------------------------------------

  lemma NotifyKeepsInv(m: Machine, jobs: seq<Job>)
    requires Inv(m, jobs)
    ensures Inv(Notify(m), jobs) && !Notify(m).prep.loaded
  {
    NotifyReplans(m, jobs);
    ReplannedKeepsInv(m, Notify(m), jobs);
  }

  lemma ReinitializeKeepsInv(m: Machine, jobs: seq<Job>)
    requires Inv(m, jobs)
    ensures Inv(Reinitialize(m), jobs) && !Reinitialize(m).prep.loaded
  {
    NotifyKeepsInv(m, jobs);
    var t := Notify(m);
    var u := t.(planned := 0);
    assert SameSteps(t.plan, u.plan);
    ReplannedKeepsInv(t, u, jobs);
    RecalculateReplans(u, jobs);
    ReplannedKeepsInv(u, Recalculate(u), jobs);
  }

  lemma StartHoldKeepsInv(m: Machine, jobs: seq<Job>)
    requires Inv(m, jobs)
    ensures Inv(StartHold(m), jobs)
  {
    NotifyKeepsInv(m, jobs);
    PrepOnly(Notify(m), StartHold(m), jobs);
  }

  lemma FinishHoldKeepsInv(m: Machine, jobs: seq<Job>)
    requires Inv(m, jobs)
    ensures Inv(FinishHold(m), jobs)
  {
    ReinitializeKeepsInv(m, jobs);
    PrepOnly(Reinitialize(m), FinishHold(m), jobs);
  }

  lemma ResumeKeepsInv(m: Machine, jobs: seq<Job>)
    requires Inv(m, jobs)
    ensures Inv(Resume(m), jobs)
  {
    PrepOnly(m, Resume(m), jobs);
  }

  lemma {:induction false} RelimitKeepsBlocks(bs: seq<PlanBlock>, o: Overrides, prevNominal: real)
    requires prevNominal >= 0.0 && forall b | b in bs :: BlockOk(b) && b.maxJunctionSqr >= 0.0
    ensures forall b | b in Relimit(bs, o, prevNominal) :: BlockOk(b)
    ensures SameSteps(bs, Relimit(bs, o, prevNominal))
  {
    if bs != [] {
      assert bs[0] in bs;
      RelimitKeepsBlocks(bs[1..], o, NominalSpeed(bs[0], o));
    }
  }

  lemma OverridesKeepInv(m: Machine, jobs: seq<Job>, o: Overrides)
    requires Inv(m, jobs)
    ensures forall b | b in m.plan :: b.maxJunctionSqr >= 0.0
    ensures Inv(SetOverrides(m, o), jobs)
  {
    assert forall b | b in m.plan :: BlockOk(b) && b.maxJunctionSqr >= 0.0;
    RelimitKeepsBlocks(m.plan, o, SOME_LARGE_VALUE);
    var t := m.(overrides := o, plan := Relimit(m.plan, o, SOME_LARGE_VALUE),
                previousNominal := LastNominal(m.plan, o));
    ReplannedKeepsInv(m, t, jobs);
    ReinitializeKeepsInv(t, jobs);
  }

  lemma ResetKeepsInv(m: Machine)
    requires |m.slots| == SEGMENT_BUFFER_SIZE - 1
    ensures Inv(Reset(m), [])
  {
  }
}
