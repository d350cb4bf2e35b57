/**
 The motion pipeline as a state machine: planner queue, block being prepped, segment queue,
 step interrupt. Queues are sequences here; the classes of PlannerRing and StepperRing hold
 them in the source's ring arrays and refine the functions of this module.
 */
module Motion {
  import opened Axes
  import opened Blocks
  import Bresenham
  import opened VelocityProfile

  const SEGMENT_BUFFER_SIZE := 6
  const REQ_MM_INCREMENT_SCALAR := 1.25

  /** st_block_t: step data of one planner block, shifted for step smoothing. */
  datatype StBlock = StBlock(steps: Vec<nat>, stepEventCount: nat, negative: Vec<bool>)

  /** segment_t: `nStep` ticks at smoothing level `level`, of the block in slot `slot`. */
  datatype Segment = Segment(nStep: nat, slot: nat, level: nat)

  /** st_prep_t, with `loaded` for a planner block being assigned to it. */
  datatype Prep = Prep(
    loaded: bool,
    recalculate: bool,
    slot: nat,
    stepsRemaining: nat,
    stepPerMm: real,
    currentSqr: real,
    profile: Profile)

  /** stepper_t. */
  datatype Isr = Isr(executing: bool, execIndex: nat, counter: Vec<nat>, steps: Vec<nat>, stepCount: nat)

  datatype Machine = Machine(
    plan: seq<PlanBlock>,
    planned: nat,
    planPosition: Vec<int>,
    previousNominal: real,
    overrides: Overrides,
    prep: Prep,
    slots: seq<StBlock>,
    segments: seq<Segment>,
    isr: Isr,
    position: Vec<int>,
    executeHold: bool,
    endMotion: bool)

  const NoProfile := Profile(Accel, 0.0, 0.0, 0.0, 0.0, 0.0, false)
  const NoPrep := Prep(false, false, 0, 0, 0.0, 0.0, NoProfile)
  const NoIsr := Isr(false, 0, Vec(0, 0, 0), Vec(0, 0, 0), 0)

  function NextSlot(slot: nat): nat {
    if slot + 1 == SEGMENT_BUFFER_SIZE - 1 then 0 else slot + 1
  }

  /** The least integer not below x. */
  function Ceil(x: real): (n: int)
    ensures (n - 1) as real < x <= n as real
  {
    -((-x).Floor)
  }

  /** Distance left, in whole steps rounded up. */
  function WholeSteps(stepPerMm: real, mm: real): int {
    Ceil(stepPerMm * mm)
  }

  // ---------------------------------------------------------------------------
  // Planner operations on the machine
  // ---------------------------------------------------------------------------

  /** st_update_plan_block_parameters. */
  function Notify(m: Machine): Machine {
    if m.prep.loaded && m.plan != [] then
      m.(plan := m.plan[0 := m.plan[0].(entrySqr := m.prep.currentSqr)],
         prep := m.prep.(loaded := false, recalculate := true))
    else m
  }

  /** planner_recalculate. */
  function Recalculate(m: Machine): Machine
    requires m.plan != [] ==> m.planned < |m.plan|
  {
    if m.planned + 1 >= |m.plan| then m
    else
      var t := if m.planned == 0 then Notify(m) else m;
      var (plan, planned) := ReplanBlocks(t.plan, t.planned);
      t.(plan := plan, planned := planned)
  }

  /** On the queue, a recalculation is the one the planner's ring is proved to do. */
  lemma RecalculateIsQueue(m: Machine)
    requires m.plan != [] ==> m.planned < |m.plan|
    ensures (Recalculate(m).plan, Recalculate(m).planned)
         == RecalculateQueue(m.plan, m.planned, m.prep.loaded, m.prep.currentSqr)
    ensures Recalculate(m).prep.loaded == (m.prep.loaded && !(m.planned == 0 && |m.plan| >= 2))
  {
  }

  /** plan_cycle_reinitialize. */
  function Reinitialize(m: Machine): Machine {
    Recalculate(Notify(m).(planned := 0))
  }

  /** plan_discard_current_block. */
  function Discard(m: Machine): Machine {
    if m.plan == [] then m
    else m.(plan := m.plan[1..], planned := if m.planned == 0 then 0 else m.planned - 1)
  }

  /** plan_buffer_line for a line that is not a system motion. */
  function PlanLine(m: Machine, target: Vec<int>, line: LineData, g: Geometry): Machine
    requires Possible(g) && m.previousNominal >= 0.0
    requires m.plan != [] ==> m.planned < |m.plan|
  {
    var b := PlannedBlock(m.planPosition, target, line, g, m.plan == [], m.overrides, m.previousNominal);
    if b.stepEventCount == 0 then m else Enqueue(m, b, target)
  }

  /** Appends a block that ends at `target` and replans. */
  function Enqueue(m: Machine, b: PlanBlock, target: Vec<int>): Machine
    requires m.plan != [] ==> m.planned < |m.plan|
  {
    Recalculate(Appended(m, b, target))
  }

  function Appended(m: Machine, b: PlanBlock, target: Vec<int>): Machine {
    m.(plan := m.plan + [b],
       planned := if m.plan == [] then 0 else m.planned,
       planPosition := target,
       previousNominal := NominalSpeed(b, m.overrides))
  }

  // ---------------------------------------------------------------------------
  // st_prep_buffer, in two halves: block load and segment commit
  // ---------------------------------------------------------------------------

  predicate CanPrep(m: Machine) {
    !m.endMotion && |m.segments| < SEGMENT_BUFFER_SIZE - 1
  }

  /** Five segments may wait, and slots 0 to 4 take their blocks in turn. */
  lemma BuffersInNumbers(m: Machine, slot: nat)
    ensures CanPrep(m) <==> !m.endMotion && |m.segments| < 5
    ensures slot < 5 ==> NextSlot(slot) == if slot == 4 then 0 else slot + 1
  {
  }

  function CopyOf(b: PlanBlock): StBlock {
    StBlock(Vec(Bresenham.Shifted(b.steps.x), Bresenham.Shifted(b.steps.y), Bresenham.Shifted(b.steps.z)),
            Bresenham.Shifted(b.stepEventCount), b.negative)
  }

  /** Takes the tail block: a block that was only replanned keeps its step data, a new one is copied into the next slot. */
  function TakeBlock(m: Machine): Machine
    requires m.plan != [] && m.plan[0].millimeters > 0.0 && |m.slots| == SEGMENT_BUFFER_SIZE - 1
    requires m.prep.slot < SEGMENT_BUFFER_SIZE - 1
  {
    var b := m.plan[0];
    if m.prep.recalculate then
      m.(prep := m.prep.(loaded := true, recalculate := false,
                         profile := m.prep.profile.(decelOverride := false)))
    else
      var slot := NextSlot(m.prep.slot);
      var events := b.stepEventCount;
      var forced := m.executeHold || m.prep.profile.decelOverride;
      var entry := if forced then m.prep.profile.exitSqr else b.entrySqr;
      m.(slots := m.slots[slot := CopyOf(b)],
         plan := m.plan[0 := b.(entrySqr := entry)],
         prep := m.prep.(
           loaded := true,
           slot := slot,
           stepsRemaining := events,
           stepPerMm := events as real / b.millimeters,
           currentSqr := entry,
           profile := m.prep.profile.(decelOverride := false)))
  }

  /** Computes the velocity profile of the block taken. */
  function ShapeBlock(m: Machine): Machine
    requires m.plan != [] && m.plan[0].acceleration > 0.0
  {
    var b := m.plan[0];
    m.(prep := m.prep.(profile :=
      if m.executeHold then HoldProfile(m.prep.profile, b.entrySqr, b.acceleration, b.millimeters)
      else NormalProfile(m.prep.profile, b.entrySqr, ExitSqr(m.plan), NominalSqr(b, m.overrides), b.acceleration, b.millimeters)))
  }

  function LoadBlock(m: Machine): Machine
    requires m.plan != [] && m.plan[0].millimeters > 0.0 && m.plan[0].acceleration > 0.0
    requires |m.slots| == SEGMENT_BUFFER_SIZE - 1 && m.prep.slot < SEGMENT_BUFFER_SIZE - 1
  {
    ShapeBlock(TakeBlock(m))
  }

  /** Where the ramp loop may leave the segment: at the end of the profile, or at least 1.25 steps further on. */
  predicate RampMayEnd(m: Machine, mmRemaining: real)
    requires m.plan != [] && m.prep.stepPerMm > 0.0
  {
    var mm := m.plan[0].millimeters;
    var minimum := mm - REQ_MM_INCREMENT_SCALAR / m.prep.stepPerMm;
    && m.prep.profile.mmComplete <= mmRemaining <= mm
    && (mmRemaining == m.prep.profile.mmComplete || mmRemaining <= if minimum < 0.0 then 0.0 else minimum)
  }

  /** Whole steps between the last segment's end and `mmRemaining`. */
  function StepsTo(m: Machine, mmRemaining: real): int {
    m.prep.stepsRemaining - WholeSteps(m.prep.stepPerMm, mmRemaining)
  }

  /** Makes a segment of the steps up to `mmRemaining` and hands it to the interrupt. */
  function CommitSegment(m: Machine, mmRemaining: real, speedSqr: real, level: nat): Machine
    requires m.plan != [] && level <= Bresenham.MAX_AMASS_LEVEL
    requires StepsTo(m, mmRemaining) >= 0 && WholeSteps(m.prep.stepPerMm, mmRemaining) >= 0
  {
    var n := StepsTo(m, mmRemaining);
    var driven := m.(prep := m.prep.(currentSqr := speedSqr));
    if n == 0 && m.executeHold then driven.(endMotion := true)
    else
      var t := driven.(
        segments := m.segments + [Segment(n * Bresenham.Pow2(level), m.prep.slot, level)],
        plan := m.plan[0 := m.plan[0].(millimeters := mmRemaining)],
        prep := driven.prep.(stepsRemaining := WholeSteps(m.prep.stepPerMm, mmRemaining)));
      if mmRemaining == m.prep.profile.mmComplete then
        if mmRemaining > 0.0 then t.(endMotion := true)
        else Discard(t.(prep := t.prep.(loaded := false)))
      else t
  }

  /** The speed a segment arrives with may be stored before the segment is made. */
  lemma ArrivalOnce(m: Machine, mmRemaining: real, speedSqr: real, level: nat)
    requires m.plan != [] && level <= Bresenham.MAX_AMASS_LEVEL
    requires StepsTo(m, mmRemaining) >= 0 && WholeSteps(m.prep.stepPerMm, mmRemaining) >= 0
    ensures CommitSegment(m.(prep := m.prep.(currentSqr := speedSqr)), mmRemaining, speedSqr, level)
         == CommitSegment(m, mmRemaining, speedSqr, level)
  {
  }

  // ---------------------------------------------------------------------------
  // The step interrupt
  // ---------------------------------------------------------------------------

  /** Loads the segment at the head of the queue; a slot other than the current one is a new block. */
  function LoadSegment(m: Machine): Machine
    requires m.segments != [] && m.segments[0].slot < |m.slots| && m.segments[0].level <= Bresenham.MAX_AMASS_LEVEL
  {
    var s := m.segments[0];
    var b := m.slots[s.slot];
    var half := b.stepEventCount / 2;
    m.(isr := Isr(
      true,
      s.slot,
      if m.isr.execIndex != s.slot then Vec(half, half, half) else m.isr.counter,
      Vec(Bresenham.Increment(b.steps.x, s.level),
          Bresenham.Increment(b.steps.y, s.level),
          Bresenham.Increment(b.steps.z, s.level)),
      s.nStep))
  }

  function AxisTick(m: Machine, a: Axis): (nat, bool)
    requires m.isr.execIndex < |m.slots|
  {
    Bresenham.Tick(m.isr.counter.At(a), m.isr.steps.At(a), m.slots[m.isr.execIndex].stepEventCount)
  }

  function Moved(m: Machine, a: Axis): int
    requires m.isr.execIndex < |m.slots|
  {
    m.position.At(a) + if AxisTick(m, a).1 then Signed(m.slots[m.isr.execIndex].negative.At(a), 1) else 0
  }

  /** One step of the tracer on every axis; the segment is released after its last tick. */
  function Execute(m: Machine): Machine
    requires m.segments != [] && m.isr.execIndex < |m.slots|
  {
    var count := (m.isr.stepCount - 1) % 0x1_0000;
    var t := m.(
      position := Vec(Moved(m, X), Moved(m, Y), Moved(m, Z)),
      isr := m.isr.(counter := Vec(AxisTick(m, X).0, AxisTick(m, Y).0, AxisTick(m, Z).0), stepCount := count));
    if count == 0 then t.(isr := t.isr.(executing := false), segments := m.segments[1..]) else t
  }

  predicate CanTick(m: Machine) {
    && (m.isr.executing ==> m.segments != [] && m.isr.execIndex < |m.slots|)
    && (m.segments != [] ==> m.segments[0].slot < |m.slots| && m.segments[0].level <= Bresenham.MAX_AMASS_LEVEL)
  }

  /** One call of the step interrupt. With nothing queued it only goes idle. */
  function Interrupt(m: Machine): Machine
    requires CanTick(m)
  {
    if m.isr.executing then Execute(m)
    else if m.segments != [] then Execute(LoadSegment(m))
    else m
  }

  // ---------------------------------------------------------------------------
  // Holds, overrides, reset
  // ---------------------------------------------------------------------------

  function StartHold(m: Machine): Machine {
    Notify(m).(executeHold := true, endMotion := false)
  }

  /** Handling of the cycle stop after a hold. */
  function FinishHold(m: Machine): Machine {
    Reinitialize(m).(executeHold := false)
  }

  function Resume(m: Machine): Machine {
    m.(executeHold := false, endMotion := false)
  }

  function SetOverrides(m: Machine, o: Overrides): Machine
    requires forall b | b in m.plan :: b.maxJunctionSqr >= 0.0
  {
    Reinitialize(m.(overrides := o, plan := Relimit(m.plan, o, SOME_LARGE_VALUE),
                    previousNominal := LastNominal(m.plan, o)))
  }

  /** plan_reset, st_reset and plan_sync_position: jog cancel, probe end, system reset. */
  function Reset(m: Machine): Machine {
    m.(plan := [], planned := 0, previousNominal := 0.0, planPosition := m.position,
       prep := NoPrep, segments := [], isr := NoIsr, executeHold := false, endMotion := false)
  }
}
