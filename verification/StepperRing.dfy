/**
 The step generator in its own form: the ring of segments, the ring of block data, and the
 fields of the step interrupt and of the segment generator, updated in place. `View` reads the
 planner's and the step generator's objects as one Machine; every method does to the objects
 what the function of the same name in Motion does to the Machine.
 */
module StepperRing {
  import opened Axes
  import opened Blocks
  import Bresenham
  import M = Motion
  import opened PlannerRing
  import opened RingWindow
  import Rings
  import opened VelocityProfile

  type Segment = M.Segment
  type StBlock = M.StBlock
  type Machine = M.Machine

  const SEGMENTS := M.SEGMENT_BUFFER_SIZE
  const ZeroSegment := M.Segment(0, 0, 0)
  const ZeroStBlock := M.StBlock(Vec(0, 0, 0), 0, Vec(false, false, false))

  /** Position `k` places after index `from` in the segment ring. */
  function Place(from: nat, k: nat): (i: nat)
    requires from < SEGMENTS && k <= SEGMENTS
    ensures i < SEGMENTS
  {
    Rings.Place(from, k, SEGMENTS)
  }

  function Gap(from: nat, to: nat): (d: nat)
    requires from < SEGMENTS && to < SEGMENTS
    ensures d < SEGMENTS && Place(from, d) == to
  {
    Rings.Gap(from, to, SEGMENTS)
  }

  function Queue(buffer: seq<Segment>, tail: nat, n: nat): (q: seq<Segment>)
    requires |buffer| == SEGMENTS && tail < SEGMENTS && n <= SEGMENTS
    ensures |q| == n && forall k: nat {:trigger q[k]} :: k < n ==> q[k] == buffer[Place(tail, k)]
  {
    seq(n, k requires 0 <= k < n => buffer[Place(tail, k)])
  }

  class Stepper {
    const link: StepLink
    const segmentBuffer: array<Segment>
    const stBlockBuffer: array<StBlock>
    var segmentBufferTail: nat
    var segmentBufferHead: nat
    var segmentNextHead: nat

    // stepper_t
    var counterX: nat
    var counterY: nat
    var counterZ: nat
    var steps: Vec<nat>
    var stepCount: nat
    var execBlockIndex: nat
    var execSegment: int
    var sysPosition: Vec<int>

    // st_prep_t; its recalculate flag and current speed are in the link that the planner shares
    var stBlockIndex: nat
    var stepsRemaining: nat
    var stepPerMm: real
    var profile: Profile

    // sys.step_control
    var executeHold: bool
    var endMotion: bool

    constructor (link: StepLink)
      ensures Valid() && Count() == 0 && this.link == link && fresh(segmentBuffer) && fresh(stBlockBuffer)
    {
      this.link := link;
      segmentBuffer := new Segment[SEGMENTS](_ => ZeroSegment);
      stBlockBuffer := new StBlock[SEGMENTS - 1](_ => ZeroStBlock);
      segmentBufferTail, segmentBufferHead, segmentNextHead := 0, 0, 1;
      counterX, counterY, counterZ, stepCount, execBlockIndex := 0, 0, 0, 0, 0;
      steps, execSegment, sysPosition := Vec(0, 0, 0), NULL, Vec(0, 0, 0);
      stBlockIndex, stepsRemaining, stepPerMm, profile := 0, 0, 0.0, M.NoProfile;
      executeHold, endMotion := false, false;
    }

    ghost predicate Valid()
      reads this
    {
      && segmentBuffer.Length == SEGMENTS && stBlockBuffer.Length == SEGMENTS - 1
      && segmentBufferTail < SEGMENTS && segmentBufferHead < SEGMENTS
      && segmentNextHead == Place(segmentBufferHead, 1)
      && (execSegment == NULL || (execSegment == segmentBufferTail && segmentBufferHead != segmentBufferTail))
    }

    /** Segments in the ring. */
    function Count(): (n: nat)
      reads this
      requires segmentBufferTail < SEGMENTS && segmentBufferHead < SEGMENTS
    {
      Gap(segmentBufferTail, segmentBufferHead)
    }

    ghost function Segments(): (q: seq<Segment>)
      reads this, segmentBuffer
      requires Valid()
      ensures |q| == Count()
    {
      Queue(segmentBuffer[..], segmentBufferTail, Count())
    }

    ghost function Tracer(): M.Isr
      reads this
    {
      M.Isr(execSegment != NULL, execBlockIndex, Vec(counterX, counterY, counterZ), steps, stepCount)
    }

    /** The machine `rest` with the step interrupt's state as in this object. */
    ghost function View(rest: Machine): Machine
      reads this, segmentBuffer, stBlockBuffer
      requires Valid()
    {
      rest.(slots := stBlockBuffer[..], segments := Segments(), isr := Tracer(), position := sysPosition)
    }

    /** Pops the segment at the tail. */
    method LoadSegment(ghost rest: Machine)
      requires Valid() && M.CanTick(View(rest)) && execSegment == NULL && segmentBufferHead != segmentBufferTail
      modifies this`execSegment, this`stepCount, this`execBlockIndex, this`counterX, this`counterY, this`counterZ, this`steps
      ensures Valid() && execSegment != NULL && execBlockIndex < SEGMENTS - 1
      ensures View(rest) == M.LoadSegment(old(View(rest)))
    {
      var segment := segmentBuffer[segmentBufferTail];
      assert Segments()[0] == segment;
      execSegment := segmentBufferTail;
      stepCount := segment.nStep;
      if execBlockIndex != segment.slot {
        execBlockIndex := segment.slot;
        counterX := stBlockBuffer[execBlockIndex].stepEventCount / 2;
        counterY, counterZ := counterX, counterX;
      }
      var block := stBlockBuffer[execBlockIndex];
      steps := Vec(Bresenham.Increment(block.steps.x, segment.level),
                   Bresenham.Increment(block.steps.y, segment.level),
                   Bresenham.Increment(block.steps.z, segment.level));
    }

    /** The tracer on one axis: its counter after the tick, and how far the axis moves. */
    method TraceAxis(counter: nat, increment: nat, events: nat, negative: bool) returns (c: nat, moved: int)
      ensures (c, moved != 0) == Bresenham.Tick(counter, increment, events)
      ensures moved in {0, Signed(negative, 1)}
    {
      c, moved := (counter + increment) % Bresenham.UINT32, 0;
      if c > events {
        c := c - events;
        moved := if negative then -1 else 1;
      }
    }

    /** The tracer on all three axes. */
    method Trace(ghost rest: Machine)
      requires Valid() && execBlockIndex < SEGMENTS - 1
      modifies this`counterX, this`counterY, this`counterZ, this`sysPosition
      ensures Valid()
      ensures var m := old(View(rest));
              && Vec(counterX, counterY, counterZ) == Vec(M.AxisTick(m, X).0, M.AxisTick(m, Y).0, M.AxisTick(m, Z).0)
              && sysPosition == Vec(M.Moved(m, X), M.Moved(m, Y), M.Moved(m, Z))
    {
      var block := stBlockBuffer[execBlockIndex];
      var dx, dy, dz;
      counterX, dx := TraceAxis(counterX, steps.x, block.stepEventCount, block.negative.x);
      counterY, dy := TraceAxis(counterY, steps.y, block.stepEventCount, block.negative.y);
      counterZ, dz := TraceAxis(counterZ, steps.z, block.stepEventCount, block.negative.z);
      sysPosition := Vec(sysPosition.x + dx, sysPosition.y + dy, sysPosition.z + dz);
    }

    /** Counts the tick, and releases the segment after its last one. */
    method CountTick()
      requires Valid() && execSegment != NULL
      modifies this`execSegment, this`stepCount, this`segmentBufferTail
      ensures Valid() && stepCount == (old(stepCount) - 1) % 0x1_0000
      ensures (execSegment == NULL) == (stepCount == 0)
      ensures Segments() == if stepCount == 0 then old(Segments())[1..] else old(Segments())
    {
      stepCount := (stepCount - 1) % 0x1_0000;
      if stepCount == 0 {
        execSegment := NULL;
        segmentBufferTail := segmentBufferTail + 1;
        if segmentBufferTail == SEGMENTS { segmentBufferTail := 0; }
        assert Segments() == old(Segments())[1..];
      }
    }

    /** One step of the loaded segment. */
    method Execute(ghost rest: Machine)
      requires Valid() && execSegment != NULL && execBlockIndex < SEGMENTS - 1
      modifies this`execSegment, this`stepCount, this`counterX, this`counterY, this`counterZ, this`sysPosition, this`segmentBufferTail
      ensures Valid() && View(rest) == M.Execute(old(View(rest)))
    {
      Trace(rest);
      CountTick();
    }

    /** The step interrupt. With nothing to execute it raises the cycle stop. */
    method Interrupt(ghost rest: Machine) returns (cycleStop: bool)
      requires Valid() && M.CanTick(View(rest))
      modifies this`execSegment, this`stepCount, this`execBlockIndex, this`counterX, this`counterY, this`counterZ,
               this`steps, this`sysPosition, this`segmentBufferTail
      ensures Valid() && View(rest) == M.Interrupt(old(View(rest)))
      ensures cycleStop <==> old(Segments()) == []
    {
      if execSegment == NULL {
        if segmentBufferHead == segmentBufferTail { return true; }
        LoadSegment(rest);
      }
      Execute(rest);
      cycleStop := false;
    }

    // -------------------------------------------------------------------------
    // The segment generator
    // -------------------------------------------------------------------------

    ghost function PrepView(): M.Prep
      reads this, link
    {
      M.Prep(link.plBlock != NULL, link.recalculate, stBlockIndex, stepsRemaining, stepPerMm, link.currentSqr, profile)
    }

    ghost predicate Shares(planner: Planner)
      reads this, planner, planner.blockBuffer, link
    {
      Valid() && planner.link == link && planner.Valid() && stBlockIndex < SEGMENTS - 1
    }

    /** The machine that this object and the planner make, under the overrides `o`. */
    ghost function Whole(planner: Planner, o: Overrides): Machine
      reads this, segmentBuffer, stBlockBuffer, link, planner, planner.blockBuffer
      requires Shares(planner)
    {
      M.Machine(planner.Blocks(), planner.Planned(), planner.position, planner.previousNominal, o, PrepView(),
                stBlockBuffer[..], Segments(), Tracer(), sysPosition, executeHold, endMotion)
    }

    /** st_next_block_index. */
    function StNextBlockIndex(i: nat): (r: nat)
      requires i < SEGMENTS - 1
      ensures r == (i + 1) % (SEGMENTS - 1) == M.NextSlot(i)
    {
      if i + 1 == SEGMENTS - 1 then 0 else i + 1
    }

    /** Copies the step data of a new block into the next slot of the block data ring. */
    method CopyBlock(block: PlanBlock)
      requires Valid() && stBlockIndex < SEGMENTS - 1 && block.millimeters > 0.0
      modifies this`stBlockIndex, this`stepsRemaining, this`stepPerMm, stBlockBuffer
      ensures Valid() && stBlockIndex == M.NextSlot(old(stBlockIndex))
      ensures stBlockBuffer[..] == old(stBlockBuffer[..])[stBlockIndex := M.CopyOf(block)]
      ensures stepsRemaining == block.stepEventCount && stepPerMm == block.stepEventCount as real / block.millimeters
    {
      stBlockIndex := StNextBlockIndex(stBlockIndex);
      stBlockBuffer[stBlockIndex] := M.StBlock(
        Vec(Bresenham.Shifted(block.steps.x), Bresenham.Shifted(block.steps.y), Bresenham.Shifted(block.steps.z)),
        Bresenham.Shifted(block.stepEventCount), block.negative);
      stepsRemaining := block.stepEventCount;
      stepPerMm := stepsRemaining as real / block.millimeters;
    }

    /** The entry speed of a new block: the planner's, or the one a forced deceleration arrives with. */
    method EnterBlock(planner: Planner)
      requires planner.Valid() && planner.link == link && link.plBlock == planner.blockBufferTail && profile.exitSqr >= 0.0
      modifies link`currentSqr, planner.blockBuffer
      ensures planner.Valid() && planner.Planned() == old(planner.Planned())
      ensures var b := old(planner.Blocks()[0]);
              var entry := if executeHold || profile.decelOverride then profile.exitSqr else b.entrySqr;
              link.currentSqr == entry && planner.Blocks() == old(planner.Blocks())[0 := b.(entrySqr := entry)]
    {
      var block := planner.blockBuffer[link.plBlock];
      if executeHold || profile.decelOverride {
        link.currentSqr := profile.exitSqr;
        WindowUpdate(planner.blockBuffer[..], planner.blockBufferTail, planner.Count(), 0, block.(entrySqr := profile.exitSqr));
        planner.blockBuffer[link.plBlock] := block.(entrySqr := profile.exitSqr);
      } else {
        link.currentSqr := block.entrySqr;
        assert planner.Blocks()[0].(entrySqr := block.entrySqr) == planner.Blocks()[0];
      }
    }

    /** Loads the planner's current block as a new one. */
    method StartBlock(planner: Planner, o: Overrides)
      requires Shares(planner) && link.plBlock == planner.blockBufferTail && !link.recalculate
      requires planner.blockBuffer[planner.blockBufferTail].millimeters > 0.0 && profile.exitSqr >= 0.0
      modifies this`stBlockIndex, this`stepsRemaining, this`stepPerMm, stBlockBuffer, link`currentSqr, planner.blockBuffer
      ensures Shares(planner)
      ensures var m := old(Whole(planner, o));
              Whole(planner, o) == M.TakeBlock(m.(prep := m.prep.(loaded := false))).(prep := PrepView())
      ensures var m := old(Whole(planner, o));
              PrepView() == M.TakeBlock(m.(prep := m.prep.(loaded := false))).prep.(profile := profile)
    {
      CopyBlock(planner.blockBuffer[link.plBlock]);
      EnterBlock(planner);
    }

    /** Takes the planner's current block: anew, or again after a replan. */
    method TakeBlock(planner: Planner, o: Overrides)
      requires Shares(planner) && planner.Count() > 0 && link.plBlock == NULL
      requires planner.blockBuffer[planner.blockBufferTail].millimeters > 0.0 && profile.exitSqr >= 0.0
      modifies this`stBlockIndex, this`stepsRemaining, this`stepPerMm, this`profile, stBlockBuffer, link, planner.blockBuffer
      ensures Shares(planner) && link.plBlock == planner.blockBufferTail
      ensures Whole(planner, o) == M.TakeBlock(old(Whole(planner, o)))
    {
      link.plBlock := planner.blockBufferTail;
      if link.recalculate {
        link.recalculate := false;
      } else {
        StartBlock(planner, o);
      }
      profile := profile.(decelOverride := false);
    }

    /** Computes the velocity profile of the block taken. */
    method ShapeBlock(planner: Planner, o: Overrides)
      requires Shares(planner) && link.plBlock == planner.blockBufferTail
      requires planner.blockBuffer[planner.blockBufferTail].acceleration > 0.0
      modifies this`profile
      ensures Shares(planner) && Whole(planner, o) == M.ShapeBlock(old(Whole(planner, o)))
    {
      var block := planner.blockBuffer[link.plBlock];
      assert block == planner.Blocks()[0];
      if executeHold {
        profile := HoldProfile(profile, block.entrySqr, block.acceleration, block.millimeters);
      } else {
        profile := NormalProfile(profile, block.entrySqr, planner.GetExecBlockExitSpeedSqr(), NominalSqr(block, o),
                                 block.acceleration, block.millimeters);
      }
    }

    /** Makes the segment at the head visible to the step interrupt. */
    method PushSegment(segment: Segment)
      requires Valid() && segmentBufferTail != segmentNextHead
      modifies this`segmentBufferHead, this`segmentNextHead, segmentBuffer
      ensures Valid() && Segments() == old(Segments()) + [segment]
    {
      segmentBuffer[segmentBufferHead] := segment;
      segmentBufferHead := segmentNextHead;
      segmentNextHead := if segmentNextHead + 1 == SEGMENTS then 0 else segmentNextHead + 1;
    }

    /** What is left of the block being cut. */
    method ShortenBlock(planner: Planner, mmRemaining: real)
      requires planner.Valid() && planner.link == link && link.plBlock == planner.blockBufferTail && mmRemaining >= 0.0
      modifies planner.blockBuffer
      ensures planner.Valid() && planner.Planned() == old(planner.Planned())
      ensures planner.Blocks() == old(planner.Blocks())[0 := old(planner.Blocks())[0].(millimeters := mmRemaining)]
    {
      var block := planner.blockBuffer[link.plBlock].(millimeters := mmRemaining);
      WindowUpdate(planner.blockBuffer[..], planner.blockBufferTail, planner.Count(), 0, block);
      planner.blockBuffer[link.plBlock] := block;
    }

    /** Lets go of a block that is cut to its end. */
    method FinishBlock(planner: Planner, o: Overrides)
      requires Shares(planner) && link.plBlock == planner.blockBufferTail
      modifies link`plBlock, planner`blockBufferTail, planner`blockBufferPlanned
      ensures Shares(planner) && link.plBlock == NULL
      ensures var m := old(Whole(planner, o));
              Whole(planner, o) == M.Discard(m.(prep := m.prep.(loaded := false)))
    {
      link.plBlock := NULL;
      planner.PlanDiscardCurrentBlock();
    }

    /** Queues a segment of `nStep` steps that ends `mmRemaining` before the end of the block. */
    method QueueSegment(planner: Planner, o: Overrides, nStep: nat, nStepsRemaining: nat, mmRemaining: real, level: nat)
      requires Shares(planner) && link.plBlock == planner.blockBufferTail && segmentBufferTail != segmentNextHead
      requires mmRemaining >= 0.0 && level <= Bresenham.MAX_AMASS_LEVEL
      modifies this`stepsRemaining, this`segmentBufferHead, this`segmentNextHead, segmentBuffer, planner.blockBuffer
      ensures Shares(planner)
      ensures var m := old(Whole(planner, o));
              Whole(planner, o) == m.(
                segments := m.segments + [M.Segment(nStep * Bresenham.Pow2(level), m.prep.slot, level)],
                plan := m.plan[0 := m.plan[0].(millimeters := mmRemaining)],
                prep := m.prep.(stepsRemaining := nStepsRemaining))
    {
      PushSegment(M.Segment(nStep * Bresenham.Pow2(level), stBlockIndex, level));
      ShortenBlock(planner, mmRemaining);
      stepsRemaining := nStepsRemaining;
    }

    /** After a segment: is the profile at its end, and with it the block? */
    method EndSegment(planner: Planner, o: Overrides, mmRemaining: real)
      requires Shares(planner) && link.plBlock == planner.blockBufferTail
      modifies this`endMotion, link`plBlock, planner`blockBufferTail, planner`blockBufferPlanned
      ensures Shares(planner)
      ensures var m := old(Whole(planner, o));
              Whole(planner, o) ==
                if mmRemaining != m.prep.profile.mmComplete then m
                else if mmRemaining > 0.0 then m.(endMotion := true)
                else M.Discard(m.(prep := m.prep.(loaded := false)))
    {
      if mmRemaining == profile.mmComplete {
        if mmRemaining > 0.0 { endMotion := true; } else { FinishBlock(planner, o); }
      }
    }

    /** The speed at the end of the segment being made. */
    method ArriveAt(planner: Planner, o: Overrides, speedSqr: real)
      requires Shares(planner) && speedSqr >= 0.0
      modifies link`currentSqr
      ensures Shares(planner)
      ensures var m := old(Whole(planner, o)); Whole(planner, o) == m.(prep := m.prep.(currentSqr := speedSqr))
    {
      link.currentSqr := speedSqr;
    }

    /** The forced deceleration is over, less than a step from rest: nothing more is cut. */
    method EndHold(planner: Planner, o: Overrides)
      requires Shares(planner)
      modifies this`endMotion
      ensures Shares(planner) && Whole(planner, o) == old(Whole(planner, o)).(endMotion := true)
    {
      endMotion := true;
    }

    /** Cuts the block to `mmRemaining`, unless a hold ends less than a step before. */
    method CutSegment(planner: Planner, o: Overrides, mmRemaining: real, level: nat)
      requires Shares(planner) && link.plBlock == planner.blockBufferTail && segmentBufferTail != segmentNextHead
      requires mmRemaining >= 0.0 && level <= Bresenham.MAX_AMASS_LEVEL
      requires 0 <= M.WholeSteps(stepPerMm, mmRemaining) <= stepsRemaining
      modifies this`stepsRemaining, this`endMotion, this`segmentBufferHead, this`segmentNextHead, segmentBuffer
      modifies link`plBlock, planner.blockBuffer, planner`blockBufferTail, planner`blockBufferPlanned
      ensures Shares(planner)
      ensures Whole(planner, o) == M.CommitSegment(old(Whole(planner, o)), mmRemaining, old(link.currentSqr), level)
    {
      var nStepsRemaining := M.WholeSteps(stepPerMm, mmRemaining);
      var nStep := stepsRemaining - nStepsRemaining;
      if nStep == 0 && executeHold {
        EndHold(planner, o);
      } else {
        QueueSegment(planner, o, nStep, nStepsRemaining, mmRemaining, level);
        EndSegment(planner, o, mmRemaining);
      }
    }

    /**
     The end of a turn of st_prep_buffer: the ramp loop has arrived at `mmRemaining` with speed
     `speedSqr`, and the step rate has chosen the smoothing level.
     */
    method CommitSegment(planner: Planner, o: Overrides, mmRemaining: real, speedSqr: real, level: nat)
      requires Shares(planner) && link.plBlock == planner.blockBufferTail && segmentBufferTail != segmentNextHead
      requires mmRemaining >= 0.0 && speedSqr >= 0.0 && level <= Bresenham.MAX_AMASS_LEVEL
      requires 0 <= M.WholeSteps(stepPerMm, mmRemaining) <= stepsRemaining
      modifies this`stepsRemaining, this`endMotion, this`segmentBufferHead, this`segmentNextHead, segmentBuffer
      modifies link`currentSqr, link`plBlock, planner.blockBuffer, planner`blockBufferTail, planner`blockBufferPlanned
      ensures Shares(planner)
      ensures Whole(planner, o) == M.CommitSegment(old(Whole(planner, o)), mmRemaining, speedSqr, level)
    {
      ghost var m := Whole(planner, o);
      M.ArrivalOnce(m, mmRemaining, speedSqr, level);
      ArriveAt(planner, o, speedSqr);
      CutSegment(planner, o, mmRemaining, level);
    }

    // -------------------------------------------------------------------------
    // Planner operations, seen on the whole machine
    // -------------------------------------------------------------------------

    /** plan_buffer_line for a line that is not a system motion. */
    method BufferLine(planner: Planner, o: Overrides, target: Vec<int>, line: LineData, g: Geometry)
      requires Shares(planner) && Possible(g) && planner.previousNominal >= 0.0
      requires !line.systemMotion && !planner.CheckFullBuffer()
      modifies planner, planner.blockBuffer, link
      ensures Shares(planner) && planner.previousNominal >= 0.0
      ensures Whole(planner, o) == M.PlanLine(old(Whole(planner, o)), target, line, g)
    {
      ghost var m := Whole(planner, o);
      var ok := planner.PlanBufferLine(target, line, g, o, sysPosition);
      ghost var b := PlannedBlock(m.planPosition, target, line, g, m.plan == [], o, m.previousNominal);
      M.RecalculateIsQueue(M.Appended(m, b, target));
      assert Shares(planner);
    }

    /** The start of a feed hold. */
    method StartHold(planner: Planner, o: Overrides)
      requires Shares(planner)
      modifies this`executeHold, this`endMotion, link, planner.blockBuffer
      ensures Shares(planner) && Whole(planner, o) == M.StartHold(old(Whole(planner, o)))
    {
      planner.StUpdatePlanBlockParameters();
      executeHold, endMotion := true, false;
    }

    /** The cycle stop after a feed hold. */
    method FinishHold(planner: Planner, o: Overrides)
      requires Shares(planner)
      modifies this`executeHold, link, planner.blockBuffer, planner`blockBufferPlanned
      ensures Shares(planner) && Whole(planner, o) == M.FinishHold(old(Whole(planner, o)))
    {
      planner.PlanCycleReinitialize();
      executeHold := false;
    }

    /** st_reset: the segment generator; the hold flags go with it. */
    method ResetPrep()
      modifies this`stBlockIndex, this`stepsRemaining, this`stepPerMm, this`profile, this`executeHold, this`endMotion, link
      ensures PrepView() == M.NoPrep && !executeHold && !endMotion
    {
      stBlockIndex, stepsRemaining, stepPerMm, profile := 0, 0, 0.0, M.NoProfile;
      link.recalculate, link.currentSqr, link.plBlock := false, 0.0, NULL;
      executeHold, endMotion := false, false;
    }

    /** st_reset: the step interrupt and its queue. */
    method ResetTracer()
      requires Valid()
      modifies this`segmentBufferTail, this`segmentBufferHead, this`segmentNextHead, this`counterX, this`counterY,
               this`counterZ, this`steps, this`stepCount, this`execBlockIndex, this`execSegment
      ensures Valid() && Segments() == [] && Tracer() == M.NoIsr
    {
      counterX, counterY, counterZ, steps := 0, 0, 0, Vec(0, 0, 0);
      stepCount, execBlockIndex, execSegment := 0, 0, NULL;
      segmentBufferTail, segmentBufferHead, segmentNextHead := 0, 0, 1;
    }

    /** plan_reset and plan_sync_position, with nothing taken by the step generator. */
    method ResetPlanner(planner: Planner)
      requires planner.Indexed() && planner.link == link && link.plBlock == NULL
      modifies planner
      ensures planner.Valid() && planner.Blocks() == [] && planner.Planned() == 0
      ensures planner.position == sysPosition && planner.previousNominal == 0.0
    {
      planner.PlanReset();
      planner.PlanSyncPosition(sysPosition);
    }

    /** Jog cancel and system reset: both buffers emptied, the planner at the machine position. */
    method Reset(planner: Planner, o: Overrides)
      requires Shares(planner)
      modifies this, link, planner
      ensures Shares(planner) && Whole(planner, o) == M.Reset(old(Whole(planner, o)))
    {
      ResetTracer();
      ResetPrep();
      ResetPlanner(planner);
    }
  }
}
