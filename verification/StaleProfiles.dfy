/**
 A cycle start in the middle of a hold. The profile of the loaded block still ends where the hold was to
 end, short of the end of the block, but the segment generator no longer takes the hold into account:
 it may cut a segment without a step event, which the interrupt counts down from 2^16.
 */
module StaleProfiles {
  import opened Axes
  import opened Blocks
  import opened Bresenham
  import opened Conservation
  import opened Motion
  import opened MotionRuns
  import opened Pipeline
  import opened VelocityProfile

  /** The loaded block has a profile that ends short of the end of the block, and no hold is in progress. */
  predicate Stale(m: Machine) {
    m.prep.loaded && !m.executeHold && m.prep.profile.mmComplete > 0.0
  }

  /** A hold is to end within the loaded block, and its end has not been handled. */
  predicate HoldUnfinished(m: Machine) {
    m.prep.loaded && m.executeHold && m.prep.profile.mmComplete > 0.0
  }

  /** What a caller of the cycle start may check. */
  predicate Careful(m: Machine, e: Event) {
    e.CycleStart? ==> !HoldUnfinished(m)
  }

  /** A run from `from` to `m` whose cycle starts never strike an unfinished hold. */
  ghost predicate RunsTo(from: Machine, events: seq<Event>, m: Machine)
    decreases |events|
  {
    if events == [] then m == from
    else
      && Good(from) && Enabled(from, events[0]) && Careful(from, events[0])
      && RunsTo(Next(from, events[0]), events[1..], m)
  }

  // ---------------------------------------------------------------------------
  // Without such a start every segment has a tick
  // ---------------------------------------------------------------------------

  lemma NotifyUnloads(m: Machine)
    requires Good(m)
    ensures !Notify(m).prep.loaded && Notify(m).executeHold == m.executeHold
  {
    var jobs :| Inv(m, jobs);
  }

  lemma RecalculateLoads(m: Machine)
    requires m.plan != [] ==> m.planned < |m.plan|
    ensures var t := Recalculate(m);
            && t.executeHold == m.executeHold && (t.prep.loaded ==> m.prep.loaded && t.prep.profile == m.prep.profile)
  {
  }

  lemma LoadIsNotStale(m: Machine)
    requires Good(m) && Enabled(m, Load)
    ensures !Stale(Next(m, Load))
  {
    Legal(m, Load);
    var t := TakeBlock(m);
    assert t.executeHold == m.executeHold && ShapeBlock(t).executeHold == m.executeHold;
  }

  lemma CommitIsNotEmpty(m: Machine, e: Event)
    requires Good(m) && Enabled(m, e) && e.Commit? && !Stale(m)
    ensures !EmptyCommit(m, e) && !Stale(Next(m, e))
  {
    var jobs :| Inv(m, jobs);
    Legal(m, e);
    SegmentsHaveSteps(m, jobs, e.mmRemaining);
  }

  lemma NeverStale(m: Machine, e: Event)
    requires Good(m) && Enabled(m, e) && Careful(m, e) && !Stale(m)
    ensures !EmptyCommit(m, e) && !Stale(Next(m, e))
  {
    Legal(m, e);
    NotifyUnloads(m);
    match e
    case Line(target, line, g) => LineLoads(m, target, line, g);
    case Load => LoadIsNotStale(m);
    case Commit(_, _, _) => CommitIsNotEmpty(m, e);
    case Tick => if m.segments != [] { TickKeepsPlan(m); }
    case HoldDone => RecalculateLoads(Notify(m).(planned := 0));
    case Override(o) => OverrideUnloads(m, o);
    case _ =>
  }

  lemma LineLoads(m: Machine, target: Vec<int>, line: LineData, g: Geometry)
    requires Possible(g) && m.previousNominal >= 0.0 && (m.plan != [] ==> m.planned < |m.plan|)
    ensures var t := PlanLine(m, target, line, g);
            && t.executeHold == m.executeHold && (t.prep.loaded ==> m.prep.loaded && t.prep.profile == m.prep.profile)
  {
    var b := PlannedBlock(m.planPosition, target, line, g, m.plan == [], m.overrides, m.previousNominal);
    RecalculateLoads(Appended(m, b, target));
  }

  lemma OverrideUnloads(m: Machine, o: Overrides)
    requires Good(m) && forall b | b in m.plan :: b.maxJunctionSqr >= 0.0
    ensures !SetOverrides(m, o).prep.loaded
  {
    var jobs :| Inv(m, jobs);
    var t := m.(overrides := o, plan := Relimit(m.plan, o, SOME_LARGE_VALUE),
                previousNominal := LastNominal(m.plan, o));
    RecalculateLoads(Notify(t).(planned := 0));
  }

  /** Every run without such a start keeps the account of steps, and no segment is without a tick. */
  lemma {:induction false} CarefulRunsConserve(from: Machine, events: seq<Event>, m: Machine)
    requires Good(from) && !Stale(from) && RunsTo(from, events, m)
    ensures Good(m) && !Stale(m) && NoEmptySegment(m)
    decreases |events|
  {
    if events == [] {
      GoodHasNoEmptySegment(m);
    } else {
      NeverStale(from, events[0]);
      NextIsGood(from, events[0]);
      CarefulRunsConserve(Next(from, events[0]), events[1..], m);
    }
  }

  // ---------------------------------------------------------------------------
  // With such a start a segment without a tick may follow
  // ---------------------------------------------------------------------------

  /** Some run from `m` on loses the account of steps. */
  ghost predicate CanFail(m: Machine) {
    exists events, t :: RunsTo(m, events, t) && !Good(t)
  }

  lemma FailsAfter(m: Machine, e: Event)
    requires Good(m) && Enabled(m, e) && Careful(m, e) && CanFail(Next(m, e))
    ensures CanFail(m)
  {
    var events, t :| RunsTo(Next(m, e), events, t) && !Good(t);
    var more := [e] + events;
    assert more[1..] == events;
    assert RunsTo(m, more, t);
  }

  lemma FailsAtOnce(m: Machine, e: Event)
    requires Good(m) && Enabled(m, e) && Careful(m, e) && EmptyCommit(m, e)
    ensures CanFail(m)
  {
    NextIsGoodExactly(m, e);
    assert RunsTo(Next(m, e), [], Next(m, e));
    FailsAfter(m, e);
  }

  /** How many ticks the executing segment has left; more than any segment has, if it is not loaded yet. */
  function TicksLeft(m: Machine): nat {
    if m.isr.executing then m.isr.stepCount else 0x1_0000
  }

  lemma ExecuteGoesOn(m: Machine)
    requires m.segments != [] && m.isr.execIndex < |m.slots| && m.isr.executing && 1 <= m.isr.stepCount < 0x1_0000
    ensures var t := Execute(m);
            && t.plan == m.plan && t.prep == m.prep && t.executeHold == m.executeHold && t.endMotion == m.endMotion
            && (t.segments == m.segments[1..] || (t.segments == m.segments && TicksLeft(t) < TicksLeft(m)))
  {
  }

  lemma Counts(m: Machine)
    requires Good(m) && m.segments != []
    ensures m.isr.executing ==> 1 <= m.isr.stepCount < 0x1_0000
    ensures 1 <= m.segments[0].nStep < 0x1_0000
  {
    var jobs :| Inv(m, jobs);
    HeadSegment(m, jobs);
    assert jobs[0] in jobs && JobOk(m.slots, jobs[0]);
  }

  lemma TickGoesOn(m: Machine)
    requires Good(m) && m.segments != []
    ensures var t := Next(m, Tick);
            && t.plan == m.plan && t.prep == m.prep && t.executeHold == m.executeHold && t.endMotion == m.endMotion
            && (|t.segments| < |m.segments| || (t.segments == m.segments && TicksLeft(t) < TicksLeft(m)))
  {
    Legal(m, Tick);
    Counts(m);
    ExecuteGoesOn(if m.isr.executing then m else LoadSegment(m));
  }

  /** One or two steps on, or where the profile ends. */
  function NextStop(m: Machine): real
    requires m.plan != [] && m.prep.stepPerMm > 0.0
  {
    var x := m.plan[0].millimeters - 2.0 / m.prep.stepPerMm;
    if x <= m.prep.profile.mmComplete then m.prep.profile.mmComplete else x
  }

  lemma StepsToStop(spm: real, mm: real, x: real)
    requires spm > 0.0 && mm - 2.0 / spm <= x <= mm
    ensures WholeSteps(spm, mm) - 2 <= WholeSteps(spm, x)
  {
    var d := 2.0 / spm;
    assert spm * d == 2.0;
    assert spm * (mm - d) == spm * mm - spm * d;
    Scaled(spm, mm - d, x);
    CeilOrder(spm * mm - 2.0, spm * x);
    assert Ceil(spm * mm - 2.0) == Ceil(spm * mm) - 2;
  }

  lemma MayStop(m: Machine)
    requires Good(m) && Stale(m) && CanPrep(m)
    ensures m.plan != [] && m.prep.stepPerMm > 0.0
    ensures Enabled(m, Commit(NextStop(m), 0.0, 0))
  {
    var jobs :| Inv(m, jobs);
    var spm, mm, complete := m.prep.stepPerMm, m.plan[0].millimeters, m.prep.profile.mmComplete;
    var x := NextStop(m);
    Fractions(spm);
    StepsToStop(spm, mm, x);
    assert RampMayEnd(m, x);
    assert StepsTo(m, x) <= 2;
  }

  lemma Fractions(spm: real)
    requires spm > 0.0
    ensures 0.0 < REQ_MM_INCREMENT_SCALAR / spm < 2.0 / spm
  {
    var a, b := REQ_MM_INCREMENT_SCALAR / spm, 2.0 / spm;
    assert a * spm == REQ_MM_INCREMENT_SCALAR && b * spm == 2.0;
  }

  lemma StopGoesOn(m: Machine)
    requires Good(m) && Stale(m) && CanPrep(m)
    requires m.plan != [] && m.prep.stepPerMm > 0.0 && Enabled(m, Commit(NextStop(m), 0.0, 0))
    requires !EmptyCommit(m, Commit(NextStop(m), 0.0, 0))
    ensures var t := Next(m, Commit(NextStop(m), 0.0, 0));
            Good(t) && Stale(t) && t.prep.stepsRemaining < m.prep.stepsRemaining
  {
    var e := Commit(NextStop(m), 0.0, 0);
    NextIsGood(m, e);
    var jobs :| Inv(m, jobs);
    Legal(m, e);
    SegmentsHaveSteps(m, jobs, e.mmRemaining);
  }

  lemma {:induction false} StaleCanFail(m: Machine)
    requires Good(m) && Stale(m)
    ensures CanFail(m)
    decreases m.prep.stepsRemaining, |m.segments|, TicksLeft(m), m.endMotion
  {
    if |m.segments| >= SEGMENT_BUFFER_SIZE - 1 {
      TickGoesOn(m);
      NextIsGood(m, Tick);
      StaleCanFail(Next(m, Tick));
      FailsAfter(m, Tick);
    } else if m.endMotion {
      NextIsGood(m, CycleStart);
      StaleCanFail(Next(m, CycleStart));
      FailsAfter(m, CycleStart);
    } else {
      MayStop(m);
      var e := Commit(NextStop(m), 0.0, 0);
      if EmptyCommit(m, e) {
        FailsAtOnce(m, e);
      } else {
        StopGoesOn(m);
        StaleCanFail(Next(m, e));
        FailsAfter(m, e);
      }
    }
  }

  /** Whether the account of steps can be lost depends on nothing but a stale profile. */
  lemma CanFailExactly(m: Machine)
    requires Good(m)
    ensures CanFail(m) <==> Stale(m)
  {
    if Stale(m) {
      StaleCanFail(m);
    } else {
      forall events, t | RunsTo(m, events, t) ensures Good(t) {
        CarefulRunsConserve(m, events, t);
      }
    }
  }

  /** A cycle start is safe if and only if no hold is unfinished. */
  lemma StartIsSafeExactly(m: Machine)
    requires Good(m) && !Stale(m)
    ensures Good(Next(m, CycleStart))
    ensures CanFail(Next(m, CycleStart)) <==> HoldUnfinished(m)
  {
    NextIsGood(m, CycleStart);
    CanFailExactly(Next(m, CycleStart));
  }

  // ---------------------------------------------------------------------------
  // An input on which this happens
  // ---------------------------------------------------------------------------

  /** A line of four steps, one to the millimeter, from rest to rest. */
  const FourSteps := Line(Vec(4, 0, 0), LineData(40.0, false, false, false, false), Geometry(4.0, 1.0, 100.0, 0.0))

  function Tail(entry: real, left: real): PlanBlock {
    PlanBlock(Vec(4, 0, 0), 4, Vec(false, false, false), FourSteps.line, entry, 0.0, 1.0, left, 0.0, 100.0, 40.0)
  }

  function Lined(): Machine {
    Start().(plan := [Tail(0.0, 4.0)], planPosition := Vec(4, 0, 0), previousNominal := 40.0)
  }

  /** Accelerating to the middle of the block, decelerating from there. */
  const Triangle := Profile(Accel, 0.0, 2.0, 2.0, 4.0, 0.0, false)

  function Loaded(): Machine {
    Lined().(slots := Start().slots[1 := StBlock(Vec(32, 0, 0), 32, Vec(false, false, false))],
             prep := Prep(true, false, 1, 4, 1.0, 0.0, Triangle))
  }

  const OneStep := Segment(1, 1, 0)

  function Moving(): Machine {
    Loaded().(plan := [Tail(0.0, 2.75)], segments := [OneStep],
              prep := Loaded().prep.(stepsRemaining := 3, currentSqr := 2.5))
  }

  /** A hold has been commanded, and has not been seen by the segment generator. */
  function Held(): Machine {
    Moving().(plan := [Tail(2.5, 2.75)], prep := Moving().prep.(loaded := false, recalculate := true), executeHold := true)
  }

  function Braking(): Machine {
    Held().(prep := Moving().prep.(profile := Triangle.(ramp := Decel, mmComplete := 1.5)))
  }

  /** The hold ends with the second step, in the middle of the block. */
  function Ended(): Machine {
    Braking().(plan := [Tail(2.5, 1.5)], segments := [OneStep, OneStep], endMotion := true,
               prep := Braking().prep.(stepsRemaining := 2, currentSqr := 0.0))
  }

  /** Both steps have been executed. */
  function Halted(): Machine {
    Ended().(segments := [], position := Vec(2, 0, 0), isr := Isr(false, 1, Vec(16, 16, 16), Vec(32, 0, 0), 0))
  }

  function Restarted(): Machine {
    Halted().(executeHold := false, endMotion := false)
  }

  /** A segment without a tick. */
  function Emptied(): Machine {
    Restarted().(segments := [Segment(0, 1, 0)], endMotion := true)
  }

  lemma LineIsPlanned()
    ensures PlanLine(Start(), FourSteps.target, FourSteps.line, FourSteps.geometry) == Lined()
  {
    assert PlannedBlock(Vec(0, 0, 0), Vec(4, 0, 0), FourSteps.line, FourSteps.geometry, true, Full, 0.0) == Tail(0.0, 4.0);
    assert [] + [Tail(0.0, 4.0)] == [Tail(0.0, 4.0)];
  }

  lemma LineIsTaken()
    ensures TakeBlock(Lined()) == Loaded().(prep := Loaded().prep.(profile := NoProfile))
  {
    assert Lined().plan[0 := Tail(0.0, 4.0)] == Lined().plan;
  }

  lemma LineIsLoaded()
    ensures LoadBlock(Lined()) == Loaded()
  {
    LineIsTaken();
    assert NominalSpeed(Tail(0.0, 4.0), Full) == 40.0 && Square(40.0) == 1600.0;
    assert NormalProfile(NoProfile, 0.0, 0.0, 1600.0, 1.0, 4.0) == Triangle;
  }

  lemma Wholes()
    ensures WholeSteps(1.0, 4.0) == 4 && WholeSteps(1.0, 2.75) == 3 && WholeSteps(1.0, 1.5) == 2
  {
  }

  lemma FirstIsCut()
    ensures CommitSegment(Loaded(), 2.75, 2.5, 0) == Moving()
  {
    Wholes();
    assert [] + [OneStep] == [OneStep];
    assert Loaded().plan[0 := Tail(0.0, 2.75)] == [Tail(0.0, 2.75)];
  }

  lemma HoldIsTaken()
    ensures StartHold(Moving()) == Held() && LoadBlock(Held()) == Braking()
  {
    assert Moving().plan[0 := Tail(2.5, 2.75)] == [Tail(2.5, 2.75)];
    assert HoldProfile(Triangle, 2.5, 1.0, 2.75) == Triangle.(ramp := Decel, mmComplete := 1.5);
  }

  lemma HoldIsCut()
    ensures CommitSegment(Braking(), 1.5, 0.0, 0) == Ended()
  {
    Wholes();
    assert [OneStep] + [OneStep] == [OneStep, OneStep];
    assert Braking().plan[0 := Tail(2.5, 1.5)] == [Tail(2.5, 1.5)];
  }

  lemma EmptyIsCut()
    ensures CommitSegment(Restarted(), 1.5, 0.0, 0) == Emptied()
  {
    Wholes();
    assert [] + [Segment(0, 1, 0)] == [Segment(0, 1, 0)];
    assert Restarted().plan[0 := Tail(2.5, 1.5)] == [Tail(2.5, 1.5)];
  }

  /** After the first of the two steps. */
  function Halfway(): Machine {
    Ended().(segments := [OneStep], position := Vec(1, 0, 0), isr := Isr(false, 1, Vec(16, 16, 16), Vec(32, 0, 0), 0))
  }

  lemma StepsAreTaken()
    ensures CanTick(Ended()) && Interrupt(Ended()) == Halfway()
    ensures CanTick(Halfway()) && Interrupt(Halfway()) == Halted()
  {
    assert [OneStep, OneStep][1..] == [OneStep] && [OneStep][1..] == [];
  }

  /** `n` ticks into the segment that should have none. */
  function Runaway(n: nat): Machine
    requires 1 <= n <= 3
  {
    Emptied().(position := Vec(2 + n, 0, 0), isr := Isr(true, 1, Vec(16, 16, 16), Vec(32, 0, 0), 0x1_0000 - n))
  }

  lemma StepsTooMany()
    ensures CanTick(Emptied()) && Interrupt(Emptied()) == Runaway(1)
    ensures CanTick(Runaway(1)) && Interrupt(Runaway(1)) == Runaway(2)
    ensures CanTick(Runaway(2)) && Interrupt(Runaway(2)) == Runaway(3)
  {
  }

  lemma ReachesLoaded() returns (events: seq<Event>)
    ensures Reaches(events, Loaded()) && Good(Loaded())
  {
    ReachableIsGood([], Start());
    LineIsPlanned();
    events := ReachesStep([], Start(), FourSteps, Lined());
    LineIsLoaded();
    events := ReachesStep(events, Lined(), Load, Loaded());
  }

  lemma ReachesBraking() returns (events: seq<Event>)
    ensures Reaches(events, Braking()) && Good(Braking())
  {
    events := ReachesLoaded();
    FirstIsCut();
    Wholes();
    events := ReachesStep(events, Loaded(), Commit(2.75, 2.5, 0), Moving());
    HoldIsTaken();
    events := ReachesStep(events, Moving(), Hold, Held());
    events := ReachesStep(events, Held(), Load, Braking());
  }

  lemma ReachesEnd() returns (events: seq<Event>)
    ensures Reaches(events, Ended()) && Good(Ended())
  {
    events := ReachesBraking();
    Wholes();
    HoldIsCut();
    events := ReachesStep(events, Braking(), Commit(1.5, 0.0, 0), Ended());
  }

  lemma ReachesRestart() returns (events: seq<Event>)
    ensures Reaches(events, Restarted()) && Good(Restarted()) && Good(Halted())
  {
    events := ReachesEnd();
    StepsAreTaken();
    events := ReachesStep(events, Ended(), Tick, Halfway());
    events := ReachesStep(events, Halfway(), Tick, Halted());
    events := ReachesStep(events, Halted(), CycleStart, Restarted());
  }

  /**
   A line of four steps is held after two of them, the end of the hold is not handled, and the motion is
   started again: the next segment has no tick, the account of steps is lost, and three interrupts later
   the machine stands beyond the end of the line, with 2^16 - 3 ticks of the segment to go.
   */
  lemma RestartOverruns() returns (events: seq<Event>)
    ensures Good(Halted()) && HoldUnfinished(Halted()) && Resume(Halted()) == Restarted()
    ensures Reaches(events, Emptied()) && !Good(Emptied())
    ensures CanTick(Emptied()) && CanTick(Interrupt(Emptied())) && CanTick(Interrupt(Interrupt(Emptied())))
    ensures var m := Interrupt(Interrupt(Interrupt(Emptied())));
            m.position.x > m.planPosition.x && m.isr.stepCount == 0xFFFD
  {
    events := ReachesRestart();
    EmptyIsCut();
    Wholes();
    var e := Commit(1.5, 0.0, 0);
    assert EmptyCommit(Restarted(), e);
    events := ReachesStep(events, Restarted(), e, Emptied());
    NextIsGoodExactly(Restarted(), e);
    StepsTooMany();
  }
}
