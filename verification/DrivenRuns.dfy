/**
 Runs of the whole pipeline in which the segment generator drives the tail block along its velocity
 profile. Planner and step generator keep each other's promises: the plan stays the full plan for the
 speed that the machine really has, and every block is left at the speed that the plan says.
 */
module DrivenRuns {
  import opened Axes
  import opened Blocks
  import opened Conservation
  import opened Motion
  import opened MotionRuns
  import opened Options
  import opened Pipeline
  import opened PlannerDrive
  import opened PlannerTheory
  import opened VelocityProfile
  import P = PlannerRuns

  /** The squared speed at which the machine is in the tail block, or is to enter it. */
  function TailSqr(m: Machine): real
    requires m.plan != []
  {
    if m.prep.loaded then m.prep.currentSqr else m.plan[0].entrySqr
  }

  /** No nominal speed of the queue is lowered. */
  predicate Raises(m: Machine, o: Overrides) {
    forall b | b in m.plan :: NominalSpeed(b, m.overrides) <= NominalSpeed(b, o) <= SOME_LARGE_VALUE
  }

  /**
   The segment generator arrives with the speed of its profile, a hold that has slowed the machine down at
   the end of a block is not completed before the next one is loaded, a cycle does not start in the middle
   of a hold, and overrides lower no speed.
   */
  predicate Follows(m: Machine, e: Event) {
    match e
    case Commit(mm, v, _) =>
      m.plan != [] ==>
        v == SpeedSqr(m.prep.profile, m.prep.currentSqr, m.plan[0].acceleration, m.plan[0].millimeters, mm)
    case HoldDone => m.executeHold && m.plan != [] && !Open(m) ==> m.prep.profile.exitSqr == m.plan[0].entrySqr
    case CycleStart => !m.executeHold
    case Override(o) => !m.executeHold && Raises(m, o)
    case _ => true
  }

  // ---------------------------------------------------------------------------
  // The invariant
  // ---------------------------------------------------------------------------

  ghost predicate Sound(m: Machine) {
    Consistent(m) && P.Inv(PlannerView(m)) && Stoppable(P.Actual(PlannerView(m)), 0)
  }

  ghost predicate Limited(m: Machine) {
    && Joined(m.plan, m.overrides, m.previousNominal)
    && (forall i {:trigger m.plan[i]} | 0 <= i < |m.plan| :: m.plan[i].maxEntrySqr <= m.plan[i].maxJunctionSqr)
    && (m.plan != [] ==> TailSqr(m) <= NominalSqr(m.plan[0], m.overrides))
  }

  /** The tail is driven along the profile computed when it was `mm` long, from `entry` to the planned exit speed. */
  ghost predicate ProfiledFrom(m: Machine, prior: Profile, entry: real, mm: real)
    requires m.plan != [] && m.plan[0].acceleration > 0.0
  {
    var b := m.plan[0];
    var exit, nominal := ExitSqr(m.plan), NominalSqr(b, m.overrides);
    && PlannerFeasible(entry, exit, nominal, b.acceleration, mm) && entry <= nominal
    && 0.0 <= b.millimeters <= mm
    && m.prep.profile == NormalProfile(prior, entry, exit, nominal, b.acceleration, mm)
    && m.prep.currentSqr == SpeedSqr(m.prep.profile, entry, b.acceleration, mm, b.millimeters)
  }

  /** The same in a hold; at its end the speed may have been taken back within the last step. */
  ghost predicate BrakedFrom(m: Machine, prior: Profile, entry: real, mm: real)
    requires m.plan != [] && m.plan[0].acceleration > 0.0
  {
    var b := m.plan[0];
    && entry >= 0.0 && mm > 0.0 && b.millimeters <= mm
    && m.prep.profile == HoldProfile(prior, entry, b.acceleration, mm)
    && (m.endMotion || m.prep.currentSqr == SpeedSqr(m.prep.profile, entry, b.acceleration, mm, b.millimeters))
  }

  ghost predicate Driven(m: Machine)
    requires m.plan != [] && m.plan[0].acceleration > 0.0
  {
    if m.executeHold then exists prior, entry, mm :: BrakedFrom(m, prior, entry, mm)
    else exists prior, entry, mm :: ProfiledFrom(m, prior, entry, mm)
  }

  /** The speed is carried over from block to block. */
  predicate CarriedOver(m: Machine) {
    && !m.prep.profile.decelOverride
    && (m.prep.recalculate ==> m.plan != [] && m.plan[0].entrySqr == m.prep.currentSqr)
    && (!Open(m) && m.plan == [] ==> m.prep.profile.exitSqr == 0.0)
    && (!Open(m) && m.plan != [] ==>
          if m.executeHold then m.prep.profile.exitSqr <= m.plan[0].entrySqr
          else m.prep.profile.exitSqr == m.plan[0].entrySqr)
  }

  ghost predicate Carried(m: Machine) {
    CarriedOver(m) && (m.prep.loaded ==> m.plan != [] && m.plan[0].acceleration > 0.0 && Driven(m))
  }

  ghost predicate DriveInv(m: Machine) {
    Sound(m) && Limited(m) && Carried(m)
  }

  lemma ActualIs(m: Machine)
    requires m.plan != []
    ensures P.Actual(PlannerView(m)) == Legs(m.plan)[0 := Legs(m.plan)[0].(entry := TailSqr(m))]
  {
  }

  lemma PlannedIsStoppable(m: Machine)
    requires P.Inv(PlannerView(m)) && !m.executeHold
    ensures Stoppable(P.Actual(PlannerView(m)), 0)
  {
  }

  // ---------------------------------------------------------------------------
  // Recalculation
  // ---------------------------------------------------------------------------

  lemma TailIsKept(s: P.State)
    requires s.legs != [] && s.planned < |s.legs|
    ensures P.Actual(P.Recalculate(s))[0].entry == P.Actual(s)[0].entry
  {
    P.RecalculateActual(s);
    P.ReplanKeepsUpTo(P.Actual(s), s.planned, 0);
  }

  /** `t` is `m` with other entry speeds; the tail's speed is kept, and a tail that stays loaded keeps its exit speed. */
  ghost predicate Respeeded(m: Machine, t: Machine) {
    && t == m.(plan := t.plan, planned := t.planned, prep := t.prep) && |t.plan| == |m.plan|
    && (forall i {:trigger t.plan[i]} :: 0 <= i < |t.plan| ==> t.plan[i] == m.plan[i].(entrySqr := t.plan[i].entrySqr))
    && (m.plan != [] ==> TailSqr(t) == TailSqr(m))
    && (if t.prep.loaded then m.plan != [] && t.prep == m.prep && t.plan[0] == m.plan[0] && ExitSqr(t.plan) == ExitSqr(m.plan)
        else t.prep == Notify(m).prep || t.prep == m.prep)
  }

  lemma RecalculateRespeeds(m: Machine)
    requires Consistent(m) && m.plan != []
    ensures Respeeded(m, Recalculate(m))
  {
    var t := Recalculate(m);
    RecalculateAgrees(m);
    TailIsKept(PlannerView(m));
    ActualIs(m);
    ActualIs(t);
    if m.planned > 0 && m.planned + 1 < |m.plan| {
      P.ReplanKeepsUpTo(Legs(m.plan), m.planned, 0);
      P.ReplanKeepsUpTo(Legs(m.plan), m.planned, 1);
    }
  }

  lemma NotifyRespeeds(m: Machine)
    requires Consistent(m)
    ensures Respeeded(m, Notify(m))
  {
  }

  lemma ReinitializeRespeeds(m: Machine)
    requires Consistent(m)
    ensures Respeeded(m, Reinitialize(m)) && !Reinitialize(m).prep.loaded
  {
    NotifyRespeeds(m);
    NotifyAgrees(m);
    if m.plan != [] { RecalculateRespeeds(Notify(m).(planned := 0)); }
  }

  lemma RespeedingKeepsLimited(m: Machine, t: Machine)
    requires Limited(m) && Respeeded(m, t)
    ensures Limited(t)
  {
    EntriesKeepJoined(m.plan, t.plan, m.overrides, m.previousNominal);
    if m.plan != [] { NominalIgnoresPlan(m.plan[0], t.plan[0], m.overrides); }
  }

  lemma RespeedingKeepsDriven(m: Machine, t: Machine)
    requires Respeeded(m, t) && t.prep.loaded && m.plan != [] && m.plan[0].acceleration > 0.0 && Driven(m)
    ensures t.plan[0].acceleration > 0.0 && Driven(t)
  {
    if m.executeHold {
      var prior, entry, mm :| BrakedFrom(m, prior, entry, mm);
      assert BrakedFrom(t, prior, entry, mm);
    } else {
      var prior, entry, mm :| ProfiledFrom(m, prior, entry, mm);
      assert ProfiledFrom(t, prior, entry, mm);
    }
  }

  lemma RespeedingKeepsCarried(m: Machine, t: Machine)
    requires Carried(m) && Respeeded(m, t) && (m.plan == [] ==> !Open(m))
    ensures Carried(t)
  {
    if t.prep.loaded { RespeedingKeepsDriven(m, t); }
  }

  // ---------------------------------------------------------------------------
  // Lines
  // ---------------------------------------------------------------------------

  lemma AppendStops(s: P.State, e: P.Event)
    requires P.Inv(s) && e.Append? && P.Enabled(s, e) && Stoppable(P.Actual(s), 0)
    ensures Stoppable(P.Actual(P.Step(s, e)), 0)
  {
    if s.legs != [] {
      var x := Leg(0.0, e.maxEntry, e.delta);
      var t := s.(legs := s.legs + [x]);
      assert [x][0] == x;
      P.ActualFacts(s);
      AppendedIsStoppable(s.legs, x);
      AppendedIsStoppable(P.Actual(s), x);
      assert P.Actual(t) == P.Actual(s) + [x];
      P.RecalculateSane(t);
    }
  }

  /** The block of a line enters the queue. */
  lemma AppendedIsDriven(m: Machine, b: PlanBlock, target: Vec<int>)
    requires Limited(m) && Carried(m) && Consistent(m) && (m.plan == [] ==> !Open(m))
    requires b.entrySqr == 0.0 && b.maxEntrySqr <= b.maxJunctionSqr
    requires b.maxEntrySqr <= NominalSqr(b, m.overrides) && b.maxEntrySqr <= Square(m.previousNominal)
    ensures var t := Appended(m, b, target);
            && Limited(t) && Consistent(t) && (m.prep.loaded ==> t.plan[0] == m.plan[0])
            && (m.prep.recalculate ==> t.plan[0] == m.plan[0])
            && (!Open(m) ==> if t.executeHold then t.prep.profile.exitSqr <= t.plan[0].entrySqr
                             else t.prep.profile.exitSqr == t.plan[0].entrySqr)
  {
    AppendKeepsJoined(m.plan, b, m.overrides, m.previousNominal);
  }

  lemma EnqueueKeepsCarried(m: Machine, b: PlanBlock, target: Vec<int>)
    requires Limited(m) && Carried(m) && Consistent(m) && (m.plan == [] ==> !Open(m))
    requires b.entrySqr == 0.0 && b.maxEntrySqr <= b.maxJunctionSqr
    requires b.maxEntrySqr <= NominalSqr(b, m.overrides) && b.maxEntrySqr <= Square(m.previousNominal)
    ensures Limited(Enqueue(m, b, target)) && Carried(Enqueue(m, b, target))
  {
    var t := Appended(m, b, target);
    AppendedIsDriven(m, b, target);
    RecalculateRespeeds(t);
    RespeedingKeepsLimited(t, Recalculate(t));
    if Recalculate(t).prep.loaded {
      assert |m.plan| > 1;
      assert ExitSqr(t.plan) == ExitSqr(m.plan);
      if m.executeHold {
        var prior, entry, mm :| BrakedFrom(m, prior, entry, mm);
        assert BrakedFrom(t, prior, entry, mm);
      } else {
        var prior, entry, mm :| ProfiledFrom(m, prior, entry, mm);
        assert ProfiledFrom(t, prior, entry, mm);
      }
      RespeedingKeepsDriven(t, Recalculate(t));
    }
  }

  lemma EnqueueKeepsSound(m: Machine, b: PlanBlock, target: Vec<int>)
    requires Sound(m) && BlockOk(b) && b.entrySqr == 0.0 && (m.plan == [] ==> b.maxEntrySqr == 0.0)
    ensures Sound(Enqueue(m, b, target))
  {
    var e := P.Append(b.maxEntrySqr, LegOf(b).delta);
    ReachOf(b);
    EnqueueAgrees(m, b, target);
    P.StepKeepsInv(PlannerView(m), e);
    AppendStops(PlannerView(m), e);
    RecalculateAgrees(Appended(m, b, target));
  }

  lemma LineKeepsDrive(m: Machine, target: Vec<int>, line: LineData, g: Geometry)
    requires Good(m) && DriveInv(m) && Enabled(m, Line(target, line, g))
    ensures m.previousNominal >= 0.0 && DriveInv(PlanLine(m, target, line, g))
  {
    var jobs :| Inv(m, jobs);
    var b := PlannedBlock(m.planPosition, target, line, g, m.plan == [], m.overrides, m.previousNominal);
    if b.stepEventCount > 0 {
      PlannedBlockOk(m.planPosition, target, b);
      EnqueueKeepsSound(m, b, target);
      EnqueueKeepsCarried(m, b, target);
    }
  }

  lemma ReachOf(b: PlanBlock)
    ensures Reach(b) == Gain(b.acceleration, b.millimeters)
    ensures b.acceleration >= 0.0 && b.millimeters >= 0.0 ==> LegOf(b).delta >= 0.0
  {
  }

  // ---------------------------------------------------------------------------
  // Loading the tail
  // ---------------------------------------------------------------------------

  /** Taking the tail gives the planner model its speed: the planned one, or, in a hold, the one that is left. */
  lemma TakenView(m: Machine)
    requires Good(m) && DriveInv(m) && Enabled(m, Load)
    ensures |m.slots| == SEGMENT_BUFFER_SIZE - 1 && m.prep.slot < SEGMENT_BUFFER_SIZE - 1 && BlockOk(m.plan[0])
    ensures var t := TakeBlock(m);
            var v := t.plan[0].entrySqr;
            && t.plan == m.plan[0 := m.plan[0].(entrySqr := v)] && v >= 0.0 && v <= m.plan[0].entrySqr
            && (!m.executeHold ==> v == m.plan[0].entrySqr)
            && t.prep.loaded && !t.prep.recalculate && t.prep.currentSqr == v && t.prep.profile == m.prep.profile
            && t == m.(slots := t.slots, plan := t.plan, prep := t.prep)
  {
    Legal(m, Load);
    var jobs :| Inv(m, jobs);
    assert m.plan[0] in m.plan;
    assert m.plan[0 := m.plan[0]] == m.plan;
    assert m.prep.profile.(decelOverride := false) == m.prep.profile;
  }

  lemma TakeIsPlannerStep(m: Machine, t: Machine, v: real)
    requires P.Inv(PlannerView(m)) && Consistent(m) && Stoppable(P.Actual(PlannerView(m)), 0)
    requires m.plan != [] && !m.prep.loaded && 0.0 <= v <= m.plan[0].entrySqr && (!m.executeHold ==> v == m.plan[0].entrySqr)
    requires t.plan == m.plan[0 := m.plan[0].(entrySqr := v)] && t.planned == m.planned && t.executeHold == m.executeHold
    requires t.prep.loaded && t.prep.currentSqr == v
    ensures Sound(t)
  {
    var s := PlannerView(m);
    LegsUpdate(m.plan, 0, v);
    if m.executeHold {
      P.StepKeepsInv(s, P.HoldLoad(v));
      assert PlannerView(t) == P.Step(s, P.HoldLoad(v));
    } else {
      assert s.legs[0 := s.legs[0]] == s.legs;
      P.StepKeepsInv(s, P.Load);
      assert PlannerView(t) == P.Step(s, P.Load);
    }
    ActualIs(t);
    ShorterTail(P.Actual(s), P.Actual(PlannerView(t)));
  }

  lemma TakeKeepsLimited(m: Machine, t: Machine, v: real)
    requires Limited(m) && m.plan != [] && !m.prep.loaded && v <= m.plan[0].entrySqr
    requires t.plan == m.plan[0 := m.plan[0].(entrySqr := v)]
    requires t.overrides == m.overrides && t.previousNominal == m.previousNominal && t.prep.loaded && t.prep.currentSqr == v
    ensures Limited(t)
  {
    EntriesKeepJoined(m.plan, t.plan, m.overrides, m.previousNominal);
    NominalIgnoresPlan(m.plan[0], t.plan[0], m.overrides);
  }

  /** In a planned queue the tail meets the premises of its velocity profile. */
  lemma TailMayBeDriven(t: Machine)
    requires Sound(t) && Limited(t) && !t.executeHold && t.prep.loaded && t.plan != [] && BlockOk(t.plan[0])
    requires t.plan[0].entrySqr == t.prep.currentSqr
    ensures PlannerFeasible(t.plan[0].entrySqr, ExitSqr(t.plan), NominalSqr(t.plan[0], t.overrides),
                            t.plan[0].acceleration, t.plan[0].millimeters)
  {
    var s := PlannerView(t).(speed := None);
    assert P.Actual(PlannerView(t)) == s.legs == P.Actual(s) by {
      assert s.legs[0 := s.legs[0]] == s.legs;
    }
    assert P.Inv(s);
    ReachOf(t.plan[0]);
    if |t.plan| > 1 { assert t.plan[1].maxEntrySqr <= NominalSqrs(t.plan, t.overrides)[0]; }
    TailIsFeasible(s, NominalSqr(t.plan[0], t.overrides), t.plan[0].acceleration, t.plan[0].millimeters);
  }

  lemma ProfileStarts(t: Machine)
    requires !t.executeHold && t.prep.loaded && t.plan != [] && BlockOk(t.plan[0])
    requires t.plan[0].entrySqr == t.prep.currentSqr <= NominalSqr(t.plan[0], t.overrides) && !t.prep.profile.decelOverride
    requires PlannerFeasible(t.plan[0].entrySqr, ExitSqr(t.plan), NominalSqr(t.plan[0], t.overrides),
                             t.plan[0].acceleration, t.plan[0].millimeters)
    ensures var u := ShapeBlock(t); Driven(u) && !u.prep.profile.decelOverride
  {
    var u := ShapeBlock(t);
    var b := t.plan[0];
    ProfileMeetsPlan(t.prep.profile, b.entrySqr, ExitSqr(t.plan), NominalSqr(b, t.overrides), b.acceleration,
                     b.millimeters, b.millimeters);
    assert ProfiledFrom(u, t.prep.profile, b.entrySqr, b.millimeters);
  }

  lemma BrakingStarts(t: Machine)
    requires t.executeHold && t.prep.loaded && t.plan != [] && BlockOk(t.plan[0])
    requires t.plan[0].entrySqr == t.prep.currentSqr && !t.prep.profile.decelOverride
    ensures var u := ShapeBlock(t); Driven(u) && !u.prep.profile.decelOverride
  {
    var u := ShapeBlock(t);
    var b := t.plan[0];
    HoldBrakes(t.prep.profile, b.entrySqr, b.acceleration, b.millimeters, b.millimeters);
    assert BrakedFrom(u, t.prep.profile, b.entrySqr, b.millimeters);
  }

  lemma ShapeIsProfiled(t: Machine)
    requires Sound(t) && Limited(t) && t.prep.loaded && t.plan != [] && BlockOk(t.plan[0])
    requires t.plan[0].entrySqr == t.prep.currentSqr && !t.prep.profile.decelOverride
    ensures var u := ShapeBlock(t); Driven(u) && !u.prep.profile.decelOverride
  {
    if t.executeHold {
      BrakingStarts(t);
    } else {
      TailMayBeDriven(t);
      ProfileStarts(t);
    }
  }

  lemma ShapingKeepsDrive(t: Machine)
    requires Sound(t) && Limited(t) && t.prep.loaded && !t.prep.recalculate && t.plan != [] && BlockOk(t.plan[0])
    requires t.plan[0].entrySqr == t.prep.currentSqr && !t.prep.profile.decelOverride
    ensures DriveInv(ShapeBlock(t))
  {
    ShapeIsProfiled(t);
    var u := ShapeBlock(t);
    assert u == t.(prep := t.prep.(profile := u.prep.profile));
    assert PlannerView(u) == PlannerView(t);
    assert Limited(u);
  }

  lemma LoadKeepsDrive(m: Machine)
    requires Good(m) && DriveInv(m) && Enabled(m, Load)
    ensures DriveInv(Next(m, Load))
  {
    Legal(m, Load);
    TakenView(m);
    var t := TakeBlock(m);
    TakeIsPlannerStep(m, t, t.plan[0].entrySqr);
    TakeKeepsLimited(m, t, t.plan[0].entrySqr);
    assert BlockOk(t.plan[0]);
    ShapingKeepsDrive(t);
  }

  // ---------------------------------------------------------------------------
  // Driving the tail
  // ---------------------------------------------------------------------------

  /** The same profile, seen from a point on the way. */
  lemma SpeedGoesOn(p: Profile, entry: real, a: real, mm: real, x: real, y: real)
    requires y <= x <= mm
    ensures SpeedSqr(p, SpeedSqr(p, entry, a, mm, x), a, x, y) == SpeedSqr(p, entry, a, mm, y)
  {
    GainIsLinear(a, mm, x);
    GainIsLinear(a, mm, y);
    GainIsLinear(a, x, y);
  }

  /** The tail driven to `mm` before its end, at squared speed `v`. */
  function Advanced(m: Machine, mm: real, v: real): Machine
    requires m.plan != []
  {
    m.(plan := m.plan[0 := m.plan[0].(millimeters := mm)], prep := m.prep.(currentSqr := v))
  }

  /** The tail let go at its end. */
  function LetGo(m: Machine): Machine {
    Discard(m.(prep := m.prep.(loaded := false)))
  }

  lemma AdvancedView(m: Machine, mm: real, v: real)
    requires Consistent(m) && m.plan != [] && m.prep.loaded
    ensures var t := Advanced(m, mm, v);
            && Consistent(t) && Legs(t.plan) == Legs(m.plan)[0 := Legs(m.plan)[0].(delta := Gain(m.plan[0].acceleration, mm))]
            && PlannerView(t) == PlannerView(m).(legs := Legs(t.plan), speed := Some(v))
  {
    ReachOf(m.plan[0].(millimeters := mm));
    LegsOfUpdate(m.plan, 0, m.plan[0].(millimeters := mm));
  }

  lemma AdvancingKeepsLimited(m: Machine, mm: real, v: real)
    requires Limited(m) && m.plan != [] && m.prep.loaded && v <= NominalSqr(m.plan[0], m.overrides)
    ensures Limited(Advanced(m, mm, v))
  {
    var t := Advanced(m, mm, v);
    forall i | 0 <= i < |m.plan| ensures NominalSqrs(t.plan, m.overrides)[i] == NominalSqrs(m.plan, m.overrides)[i] {
      NominalIgnoresPlan(m.plan[i], t.plan[i], m.overrides);
    }
    assert NominalSqrs(t.plan, m.overrides) == NominalSqrs(m.plan, m.overrides);
    NominalIgnoresPlan(m.plan[|m.plan| - 1], t.plan[|m.plan| - 1], m.overrides);
    NominalIgnoresPlan(m.plan[0], t.plan[0], m.overrides);
  }

  lemma LettingGoKeepsLimited(m: Machine)
    requires Limited(m) && m.plan != [] && Sound(m)
    ensures Limited(LetGo(m))
  {
    DiscardKeepsJoined(m);
    var t := LetGo(m);
    if t.plan != [] {
      assert t.plan[0] == m.plan[1];
      assert Legs(m.plan)[1].entry <= Legs(m.plan)[1].maxEntry;
      assert m.plan[1].maxEntrySqr <= NominalSqrs(m.plan, m.overrides)[1];
    }
  }

  lemma LettingGoKeepsSound(m: Machine)
    requires Sound(m) && m.plan != []
    ensures Sound(LetGo(m))
  {
    DiscardAgrees(m);
    P.StepKeepsInv(PlannerView(m), P.Discard);
    P.RestIsStoppable(PlannerView(m).legs);
  }

  /** Outside a hold a commit is progress along the profile. */
  lemma DriveAdvances(m: Machine, v: real, y: real, prior: Profile, entry: real, mm: real)
    requires Sound(m) && Limited(m) && m.prep.loaded && !m.executeHold && m.plan != [] && m.plan[0].acceleration > 0.0
    requires ProfiledFrom(m, prior, entry, mm) && 0.0 <= y <= m.plan[0].millimeters
    requires v == SpeedSqr(m.prep.profile, m.prep.currentSqr, m.plan[0].acceleration, m.plan[0].millimeters, y)
    ensures Sound(Advanced(m, y, v)) && Limited(Advanced(m, y, v)) && ProfiledFrom(Advanced(m, y, v), prior, entry, mm)
    ensures m.prep.profile.mmComplete == 0.0 && m.prep.profile.exitSqr == ExitSqr(m.plan)
    ensures v <= NominalSqr(m.plan[0], m.overrides) && (y == 0.0 ==> v == ExitSqr(m.plan))
  {
    var s := PlannerView(m);
    var b := m.plan[0];
    var nominal := NominalSqr(b, m.overrides);
    SpeedGoesOn(m.prep.profile, entry, b.acceleration, mm, b.millimeters, y);
    ProfileMeetsPlan(prior, entry, ExitSqr(m.plan), nominal, b.acceleration, mm, y);
    ReachOf(b);
    DriveIsProgress(s, prior, entry, nominal, b.acceleration, mm, b.millimeters, y);
    AdvancedView(m, y, v);
    assert PlannerView(Advanced(m, y, v)) == P.Step(s, P.Progress(v, Gain(b.acceleration, y)));
    PlannedIsStoppable(Advanced(m, y, v));
    AdvancingKeepsLimited(m, y, v);
    NominalIgnoresPlan(b, b.(millimeters := y), m.overrides);
  }

  /** In a hold it is progress along the deceleration. */
  lemma BrakeAdvances(m: Machine, v: real, y: real, prior: Profile, entry: real, mm: real)
    requires Sound(m) && Limited(m) && m.prep.loaded && m.executeHold && !m.endMotion
    requires m.plan != [] && m.plan[0].acceleration > 0.0 && BrakedFrom(m, prior, entry, mm)
    requires 0.0 <= m.prep.profile.mmComplete <= y <= m.plan[0].millimeters
    requires v == SpeedSqr(m.prep.profile, m.prep.currentSqr, m.plan[0].acceleration, m.plan[0].millimeters, y)
    ensures Sound(Advanced(m, y, v)) && Limited(Advanced(m, y, v)) && BrakedFrom(Advanced(m, y, v), prior, entry, mm)
    ensures 0.0 <= v <= m.prep.currentSqr && (y == m.prep.profile.mmComplete ==> v == m.prep.profile.exitSqr)
  {
    var s := PlannerView(m);
    var b := m.plan[0];
    var a, x := b.acceleration, b.millimeters;
    SpeedGoesOn(m.prep.profile, entry, a, mm, x, y);
    HoldBrakes(prior, entry, a, mm, y);
    ReachOf(b);
    GainIsLinear(a, x, y);
    GainIsMonotone(a, y, x);
    GainIsMonotone(a, 0.0, y);
    AdvancedView(m, y, v);
    P.StepKeepsInv(s, P.HoldProgress(v, Gain(a, y)));
    assert PlannerView(Advanced(m, y, v)) == P.Step(s, P.HoldProgress(v, Gain(a, y)));
    ActualIs(m);
    ActualIs(Advanced(m, y, v));
    ShorterTail(P.Actual(s), P.Actual(PlannerView(Advanced(m, y, v))));
    AdvancingKeepsLimited(m, y, v);
  }

  lemma ShorterTail(a: seq<Leg>, b: seq<Leg>)
    requires a != [] && b != [] && Stoppable(a, 0) && b == a[0 := b[0]]
    requires b[0].entry - b[0].delta <= a[0].entry - a[0].delta
    ensures Stoppable(b, 0)
  {
  }

  /** The same machine as far as planner and profile are concerned. */
  predicate Alike(t: Machine, u: Machine) {
    && t.plan == u.plan && t.planned == u.planned && t.overrides == u.overrides && t.previousNominal == u.previousNominal
    && t.executeHold == u.executeHold && t.endMotion == u.endMotion
    && t.prep.(slot := u.prep.slot, stepsRemaining := u.prep.stepsRemaining, stepPerMm := u.prep.stepPerMm) == u.prep
  }

  lemma AlikeKeepsDrive(t: Machine, u: Machine)
    requires DriveInv(u) && Alike(t, u)
    ensures DriveInv(t)
  {
    if u.prep.loaded {
      if u.executeHold {
        var prior, entry, mm :| BrakedFrom(u, prior, entry, mm);
        assert BrakedFrom(t, prior, entry, mm);
      } else {
        var prior, entry, mm :| ProfiledFrom(u, prior, entry, mm);
        assert ProfiledFrom(t, prior, entry, mm);
      }
    }
  }

  /** What a commit that makes a segment does. */
  lemma CommitAdvances(m: Machine, y: real, v: real, level: nat)
    requires m.plan != [] && m.prep.loaded && level <= 3 && StepsTo(m, y) >= 0 && WholeSteps(m.prep.stepPerMm, y) >= 0
    requires StepsTo(m, y) > 0 || !m.executeHold
    ensures var u := Advanced(m, y, v);
            Alike(CommitSegment(m, y, v, level),
                  if y != m.prep.profile.mmComplete then u else if y > 0.0 then u.(endMotion := true) else LetGo(u))
  {
  }

  /** At the end of a block outside a hold, the next block is entered at the speed that this one is left with. */
  lemma LeftAtPlannedSpeed(m: Machine)
    requires Sound(m) && Limited(m) && m.plan != [] && !m.executeHold && !m.prep.recalculate
    requires !m.prep.profile.decelOverride && m.prep.profile.exitSqr == ExitSqr(m.plan)
    ensures DriveInv(LetGo(m))
  {
    LettingGoKeepsSound(m);
    LettingGoKeepsLimited(m);
  }

  /** In a hold, it is entered no faster than planned. */
  lemma LeftNoFaster(m: Machine)
    requires Sound(m) && Limited(m) && m.plan != [] && m.executeHold && !m.prep.recalculate
    requires !m.prep.profile.decelOverride && m.prep.loaded && m.plan[0].millimeters == 0.0
    requires m.prep.profile.exitSqr == m.prep.currentSqr >= 0.0
    ensures DriveInv(LetGo(m))
  {
    LettingGoKeepsSound(m);
    LettingGoKeepsLimited(m);
    ActualIs(m);
    ReachOf(m.plan[0]);
    var a := P.Actual(PlannerView(m));
    assert a[0].delta == 0.0;
    if |a| > 1 { assert a[0].entry <= a[1].entry + a[0].delta; }
  }

  lemma DrivenCommit(m: Machine, e: Event)
    requires Good(m) && DriveInv(m) && Enabled(m, e) && e.Commit? && Follows(m, e) && !m.executeHold
    ensures !EmptyCommit(m, e) && DriveInv(Next(m, e))
    ensures e.speedSqr <= NominalSqr(m.plan[0], m.overrides) && (e.mmRemaining == 0.0 ==> e.speedSqr == ExitSqr(m.plan))
  {
    Legal(m, e);
    var jobs :| Inv(m, jobs);
    SegmentsHaveSteps(m, jobs, e.mmRemaining);
    var y, v := e.mmRemaining, e.speedSqr;
    var prior, entry, mm :| ProfiledFrom(m, prior, entry, mm);
    DriveAdvances(m, v, y, prior, entry, mm);
    CommitAdvances(m, y, v, e.level);
    var u := Advanced(m, y, v);
    assert Driven(u);
    if y == 0.0 { LeftAtPlannedSpeed(u); }
    AlikeKeepsDrive(Next(m, e), if y != 0.0 then u else LetGo(u));
  }

  lemma SlowerIsSound(m: Machine, v: real)
    requires Sound(m) && m.plan != [] && m.prep.loaded && m.executeHold && 0.0 <= v <= m.prep.currentSqr
    ensures Sound(m.(prep := m.prep.(currentSqr := v), endMotion := true))
  {
    var t := m.(prep := m.prep.(currentSqr := v), endMotion := true);
    var s := PlannerView(m);
    assert s.legs[0 := s.legs[0].(delta := s.legs[0].delta)] == s.legs;
    P.StepKeepsInv(s, P.HoldProgress(v, s.legs[0].delta));
    assert PlannerView(t) == P.Step(s, P.HoldProgress(v, s.legs[0].delta));
    ActualIs(m);
    ActualIs(t);
    ShorterTail(P.Actual(s), P.Actual(PlannerView(t)));
  }

  lemma SlowerIsLimited(m: Machine, v: real)
    requires Limited(m) && m.plan != [] && m.prep.loaded && v <= m.prep.currentSqr
    ensures Limited(m.(prep := m.prep.(currentSqr := v), endMotion := true))
  {
  }

  lemma SlowerIsCarried(m: Machine, v: real)
    requires Carried(m) && m.prep.loaded && m.executeHold && !m.prep.recalculate
    ensures Carried(m.(prep := m.prep.(currentSqr := v), endMotion := true))
  {
    var prior, entry, mm :| BrakedFrom(m, prior, entry, mm);
    assert BrakedFrom(m.(prep := m.prep.(currentSqr := v), endMotion := true), prior, entry, mm);
  }

  /** The last step of a hold is not made, and the speed is taken for zero. */
  lemma HaltedInStep(m: Machine, v: real)
    requires DriveInv(m) && m.prep.loaded && m.executeHold && !m.prep.recalculate && 0.0 <= v <= m.prep.currentSqr
    ensures DriveInv(m.(prep := m.prep.(currentSqr := v), endMotion := true))
  {
    SlowerIsSound(m, v);
    SlowerIsLimited(m, v);
    SlowerIsCarried(m, v);
  }

  lemma BrakedCommit(m: Machine, e: Event)
    requires Good(m) && DriveInv(m) && Enabled(m, e) && e.Commit? && Follows(m, e) && m.executeHold
    ensures DriveInv(Next(m, e)) && e.speedSqr <= m.prep.currentSqr
  {
    Legal(m, e);
    var jobs :| Inv(m, jobs);
    SegmentsHaveSteps(m, jobs, e.mmRemaining);
    var y, v := e.mmRemaining, e.speedSqr;
    var prior, entry, mm :| BrakedFrom(m, prior, entry, mm);
    BrakeAdvances(m, v, y, prior, entry, mm);
    if StepsTo(m, y) == 0 {
      assert !m.prep.recalculate;
      HaltedInStep(m, v);
    } else {
      CommitAdvances(m, y, v, e.level);
      BrakedAdvance(m, e, prior, entry, mm);
    }
  }

  lemma BrakedAdvance(m: Machine, e: Event, prior: Profile, entry: real, mm: real)
    requires Good(m) && DriveInv(m) && Enabled(m, e) && e.Commit? && m.executeHold && m.plan != []
    requires 0.0 <= m.prep.profile.mmComplete <= e.mmRemaining && !m.prep.recalculate && m.plan[0].acceleration > 0.0
    requires var u := Advanced(m, e.mmRemaining, e.speedSqr);
             && Sound(u) && Limited(u) && BrakedFrom(u, prior, entry, mm)
             && (e.mmRemaining == m.prep.profile.mmComplete ==> e.speedSqr == m.prep.profile.exitSqr)
             && Alike(Next(m, e), if e.mmRemaining != m.prep.profile.mmComplete then u
                                  else if e.mmRemaining > 0.0 then u.(endMotion := true) else LetGo(u))
    ensures DriveInv(Next(m, e))
  {
    var u := Advanced(m, e.mmRemaining, e.speedSqr);
    assert BrakedFrom(u.(endMotion := true), prior, entry, mm);
    assert PlannerView(u.(endMotion := true)) == PlannerView(u);
    if e.mmRemaining == 0.0 { LeftNoFaster(u); }
    AlikeKeepsDrive(Next(m, e), if e.mmRemaining != m.prep.profile.mmComplete then u
                                else if e.mmRemaining > 0.0 then u.(endMotion := true) else LetGo(u));
  }

  // ---------------------------------------------------------------------------
  // Holds, overrides, resets
  // ---------------------------------------------------------------------------

  lemma HoldKeepsDrive(m: Machine)
    requires DriveInv(m) && (m.plan == [] ==> !Open(m))
    ensures DriveInv(StartHold(m))
  {
    NotifyRespeeds(m);
    NotifyAgrees(m);
    P.StepKeepsInv(PlannerView(m), P.Hold);
    HoldsAgree(m);
    var n := Notify(m);
    RespeedingKeepsLimited(m, n);
    RespeedingKeepsCarried(m, n);
    assert P.Actual(PlannerView(n)) == P.Actual(PlannerView(m));
    assert PlannerView(StartHold(m)) == PlannerView(n).(holding := true);
  }

  lemma SameLimitsAgain(m: Machine)
    requires Consistent(m) && P.Inv(PlannerView(m)) && !m.executeHold
    ensures P.Inv(PlannerView(Reinitialize(m)))
  {
    var s := PlannerView(m);
    var limits := seq(|s.legs|, i requires 0 <= i < |s.legs| => s.legs[i].maxEntry);
    assert P.WithLimits(s.legs, limits) == s.legs;
    P.StepKeepsInv(s, P.RaiseLimits(limits));
    ReinitializeAgrees(m);
  }

  lemma MeetsExit(m: Machine)
    requires Sound(m) && m.executeHold
    ensures P.Enabled(PlannerView(m), P.HoldComplete)
  {
    if m.plan != [] {
      ActualIs(m);
      var a := P.Actual(PlannerView(m));
      if |a| > 1 { assert a[0].entry <= a[1].entry + a[0].delta; }
    }
  }

  lemma HoldDoneIsSound(m: Machine)
    requires Sound(m) && Follows(m, HoldDone)
    ensures Sound(FinishHold(m))
  {
    var t := FinishHold(m);
    ReinitializeAgrees(m);
    if m.executeHold {
      MeetsExit(m);
      HoldsAgree(m);
      P.StepKeepsInv(PlannerView(m), P.HoldComplete);
    } else {
      SameLimitsAgain(m);
      assert t == Reinitialize(m);
    }
    PlannedIsStoppable(t);
  }

  lemma EndOfHoldIsCarried(r: Machine)
    requires Carried(r) && !r.prep.loaded
    requires r.executeHold && r.plan != [] && !Open(r) ==> r.prep.profile.exitSqr == r.plan[0].entrySqr
    ensures Carried(r.(executeHold := false))
  {
  }

  lemma HoldIsNoLimit(r: Machine)
    requires Limited(r)
    ensures Limited(r.(executeHold := false))
  {
  }

  lemma HoldDoneKeepsDrive(m: Machine)
    requires DriveInv(m) && Follows(m, HoldDone) && (m.plan == [] ==> !Open(m))
    ensures DriveInv(FinishHold(m))
  {
    var r := Reinitialize(m);
    HoldDoneIsSound(m);
    ReinitializeRespeeds(m);
    RespeedingKeepsLimited(m, r);
    RespeedingKeepsCarried(m, r);
    EndOfHoldIsCarried(r);
    HoldIsNoLimit(r);
    assert FinishHold(m) == r.(executeHold := false);
  }

  lemma StartKeepsDrive(m: Machine)
    requires DriveInv(m) && !m.executeHold
    ensures DriveInv(Resume(m))
  {
    var t := Resume(m);
    if m.prep.loaded {
      var prior, entry, mm :| ProfiledFrom(m, prior, entry, mm);
      assert ProfiledFrom(t, prior, entry, mm);
    }
  }

  lemma OneLimitRaises(b: PlanBlock, o: Overrides, raised: Overrides, prev: real)
    requires prev >= 0.0 && b.maxJunctionSqr >= 0.0 && b.maxEntrySqr <= b.maxJunctionSqr
    requires b.maxEntrySqr <= Square(prev) && b.maxEntrySqr <= NominalSqr(b, o)
    requires NominalSpeed(b, o) <= NominalSpeed(b, raised)
    ensures b.maxEntrySqr <= MaxEntrySqr(b, NominalSpeed(b, raised), prev) <= b.maxJunctionSqr
    ensures NominalSqr(b, o) <= Square(NominalSpeed(b, raised))
  {
    SquareOrder(NominalSpeed(b, o), NominalSpeed(b, raised));
  }

  lemma {:induction false} RelimitRaises(bs: seq<PlanBlock>, o: Overrides, raised: Overrides, prev: real, limit: real)
    requires prev >= 0.0 && Square(prev) >= limit && forall b | b in bs :: b.maxJunctionSqr >= 0.0
    requires bs != [] ==> bs[0].maxEntrySqr <= limit
    requires forall i {:trigger bs[i]} | 0 <= i < |bs| ::
               bs[i].maxEntrySqr <= bs[i].maxJunctionSqr && NominalSpeed(bs[i], o) <= NominalSpeed(bs[i], raised)
    requires Within(bs, NominalSqrs(bs, o))
    ensures forall i {:trigger bs[i]} :: 0 <= i < |bs| ==> bs[i].maxEntrySqr <= Relimit(bs, raised, prev)[i].maxEntrySqr
    ensures forall i {:trigger bs[i]} :: 0 <= i < |bs| ==>
              Relimit(bs, raised, prev)[i].maxEntrySqr <= bs[i].maxJunctionSqr
  {
    if bs != [] {
      var sq := NominalSqrs(bs, o);
      assert bs[0].maxEntrySqr <= sq[0];
      OneLimitRaises(bs[0], o, raised, prev);
      WithinRest(bs, sq);
      assert NominalSqrs(bs[1..], o) == sq[1..];
      if |bs| > 1 { assert bs[1].maxEntrySqr <= sq[0]; }
      RelimitRaises(bs[1..], o, raised, NominalSpeed(bs[0], raised), sq[0]);
      assert forall i {:trigger bs[i]} | 1 <= i < |bs| :: bs[i] == bs[1..][i - 1];
    }
  }

  function Relimited(m: Machine, o: Overrides): Machine
    requires forall b | b in m.plan :: b.maxJunctionSqr >= 0.0
  {
    m.(overrides := o, plan := Relimit(m.plan, o, SOME_LARGE_VALUE), previousNominal := LastNominal(m.plan, o))
  }

  lemma RelimitedRaises(m: Machine, o: Overrides)
    requires Limited(m) && Raises(m, o) && forall b | b in m.plan :: b.maxJunctionSqr >= 0.0
    ensures forall i {:trigger m.plan[i]} :: 0 <= i < |m.plan| ==>
              && m.plan[i].maxEntrySqr <= Relimited(m, o).plan[i].maxEntrySqr
              && Relimited(m, o).plan[i].maxEntrySqr <= m.plan[i].maxJunctionSqr
  {
    if m.plan != [] {
      var b := m.plan[0];
      assert b in m.plan;
      assert b.maxEntrySqr <= NominalSqrs(m.plan, m.overrides)[0];
      SquareOrder(NominalSpeed(b, m.overrides), SOME_LARGE_VALUE);
      assert forall i {:trigger m.plan[i]} | 0 <= i < |m.plan| :: m.plan[i] in m.plan;
      RelimitRaises(m.plan, m.overrides, o, SOME_LARGE_VALUE, b.maxEntrySqr);
    }
  }

  lemma RelimitedIsLimited(m: Machine, o: Overrides)
    requires Limited(m) && Raises(m, o) && forall b | b in m.plan :: b.maxJunctionSqr >= 0.0
    ensures Limited(Relimited(m, o))
  {
    RelimitedRaises(m, o);
    RelimitJoins(m.plan, o, SOME_LARGE_VALUE);
    var u := Relimited(m, o);
    SameNominals(m.plan, u.plan, o);
    if m.plan != [] {
      assert m.plan[0] in m.plan;
      SquareOrder(NominalSpeed(m.plan[0], m.overrides), NominalSpeed(m.plan[0], o));
      NominalIgnoresPlan(m.plan[0], u.plan[0], o);
    }
  }

  lemma RelimitedView(m: Machine, o: Overrides, limits: seq<real>)
    requires Consistent(m) && |limits| == |m.plan| && forall b | b in m.plan :: b.maxJunctionSqr >= 0.0
    requires forall i {:trigger limits[i]} | 0 <= i < |limits| :: limits[i] == Relimited(m, o).plan[i].maxEntrySqr
    ensures Consistent(Relimited(m, o))
    ensures PlannerView(Relimited(m, o)) == PlannerView(m).(legs := P.WithLimits(Legs(m.plan), limits))
  {
    var u := Relimited(m, o);
    forall i: nat | i < |m.plan| ensures Legs(u.plan)[i] == P.WithLimits(Legs(m.plan), limits)[i] {
      assert Legs(u.plan)[i] == LegOf(u.plan[i]);
    }
  }

  lemma OverrideIsSound(m: Machine, o: Overrides)
    requires Sound(m) && Limited(m) && Follows(m, Override(o)) && forall b | b in m.plan :: b.maxJunctionSqr >= 0.0
    ensures Sound(SetOverrides(m, o)) && Consistent(Relimited(m, o))
  {
    var s, u := PlannerView(m), Relimited(m, o);
    var limits := seq(|u.plan|, i requires 0 <= i < |u.plan| => u.plan[i].maxEntrySqr);
    RelimitedView(m, o, limits);
    RelimitedRaises(m, o);
    LimitsRaise(m, o, limits);
    P.StepKeepsInv(s, P.RaiseLimits(limits));
    ReinitializeAgrees(u);
    PlannedIsStoppable(SetOverrides(m, o));
  }

  lemma LimitsRaise(m: Machine, o: Overrides, limits: seq<real>)
    requires |limits| == |m.plan| && !m.executeHold && forall b | b in m.plan :: b.maxJunctionSqr >= 0.0
    requires forall i {:trigger limits[i]} | 0 <= i < |limits| :: limits[i] == Relimited(m, o).plan[i].maxEntrySqr
    requires forall i {:trigger m.plan[i]} | 0 <= i < |m.plan| :: m.plan[i].maxEntrySqr <= Relimited(m, o).plan[i].maxEntrySqr
    ensures P.Enabled(PlannerView(m), P.RaiseLimits(limits))
  {
    forall i | 0 <= i < |limits| ensures limits[i] >= Legs(m.plan)[i].maxEntry {
      assert Legs(m.plan)[i] == LegOf(m.plan[i]);
    }
  }

  lemma UnloadingKeepsCarried(m: Machine, t: Machine)
    requires CarriedOver(m) && Respeeded(m, t) && !t.prep.loaded && (m.plan == [] ==> !Open(m))
    ensures Carried(t)
  {
  }

  lemma OverrideKeepsDrive(m: Machine, o: Overrides)
    requires DriveInv(m) && Follows(m, Override(o)) && (m.plan == [] ==> !Open(m))
    requires forall b | b in m.plan :: b.maxJunctionSqr >= 0.0
    ensures DriveInv(SetOverrides(m, o))
  {
    var u := Relimited(m, o);
    OverrideIsSound(m, o);
    RelimitedIsLimited(m, o);
    ReinitializeRespeeds(u);
    RespeedingKeepsLimited(u, Reinitialize(u));
    UnloadingKeepsCarried(u, Reinitialize(u));
  }

  lemma ResetIsDriven(m: Machine)
    ensures DriveInv(Reset(m))
  {
  }

  // ---------------------------------------------------------------------------
  // Every run
  // ---------------------------------------------------------------------------

  lemma GoodFacts(m: Machine)
    requires Good(m)
    ensures m.plan == [] ==> !Open(m)
  {
    var jobs :| Inv(m, jobs);
  }

  lemma NextKeepsDrive(m: Machine, e: Event)
    requires Good(m) && DriveInv(m) && Enabled(m, e) && Follows(m, e)
    ensures !EmptyCommit(m, e) && DriveInv(Next(m, e))
  {
    Legal(m, e);
    GoodFacts(m);
    match e
    case Line(target, line, g) => LineKeepsDrive(m, target, line, g);
    case Load => LoadKeepsDrive(m);
    case Commit(_, _, _) => if m.executeHold { BrakedCommit(m, e); } else { DrivenCommit(m, e); }
    case Tick => TickKeepsDrive(m);
    case Hold => HoldKeepsDrive(m);
    case HoldDone => HoldDoneKeepsDrive(m);
    case CycleStart => StartKeepsDrive(m);
    case Override(o) => OverrideKeepsDrive(m, o);
    case Restart => ResetIsDriven(m);
  }

  lemma TickKeepsDrive(m: Machine)
    requires CanTick(m) && DriveInv(m)
    ensures DriveInv(Interrupt(m))
  {
    AlikeKeepsDrive(Interrupt(m), m);
  }

  /** A driven run, from a reset at any position. */
  ghost predicate Drives(events: seq<Event>, m: Machine)
    decreases |events|
  {
    if events == [] then Initial(m)
    else
      var n := |events| - 1;
      exists t {:trigger Drives(events[..n], t)} ::
        Drives(events[..n], t) && Good(t) && Enabled(t, events[n]) && Follows(t, events[n]) && m == Next(t, events[n])
  }

  lemma {:induction false} DrivenIsGood(events: seq<Event>, m: Machine)
    requires Drives(events, m)
    ensures Good(m) && DriveInv(m) && Reaches(events, m)
    decreases |events|
  {
    if events == [] {
      ReachableIsGood([], m);
      ResetIsDriven(m);
    } else {
      var n := |events| - 1;
      var t :| Drives(events[..n], t) && Good(t) && Enabled(t, events[n]) && Follows(t, events[n]) && m == Next(t, events[n]);
      DrivenIsGood(events[..n], t);
      NextKeepsDrive(t, events[n]);
      NextIsGood(t, events[n]);
    }
  }

  /**
   Planner and step generator together. In every driven run, unless a hold executes, the entry speeds of the
   queue, the tail's being the machine's own, are the greatest that are feasible from there; and no run makes
   a segment without a step event.
   */
  lemma DrivenPlanIsOptimal(events: seq<Event>, m: Machine, v: seq<real>)
    requires Drives(events, m)
    ensures Good(m)
    ensures var legs := P.Actual(PlannerView(m));
            !m.executeHold ==>
              && IsPlan(legs) && Feasible(legs, Entries(legs)) && TailBrakes(legs, Entries(legs))
              && (Feasible(legs, v) ==> forall i | 0 <= i < |v| :: v[i] <= Entries(legs)[i])
  {
    DrivenIsGood(events, m);
    if !m.executeHold { P.PlanOfInvIsOptimal(PlannerView(m), v); }
  }

  /**
   Every segment of a driven run ends no faster than the nominal speed of its block; the last one of a block
   ends, outside a hold, at exactly the planned exit speed, which is the entry speed of the next block.
   */
  lemma BlocksAreLeftAsPlanned(events: seq<Event>, m: Machine, e: Event)
    requires Drives(events, m) && Enabled(m, e) && e.Commit? && Follows(m, e)
    ensures Good(m) && 0.0 <= e.speedSqr <= NominalSqr(m.plan[0], m.overrides)
    ensures !m.executeHold && e.mmRemaining == 0.0 ==>
              && e.speedSqr == ExitSqr(m.plan)
              && (|m.plan| > 1 ==> Next(m, e).plan != [] && Next(m, e).plan[0].entrySqr == e.speedSqr)
              && (|m.plan| == 1 ==> e.speedSqr == 0.0)
  {
    DrivenIsGood(events, m);
    if m.executeHold { BrakedCommit(m, e); } else { DrivenCommit(m, e); }
    if !m.executeHold && e.mmRemaining == 0.0 { DrivenLast(m, e); }
  }

  lemma DrivenLast(m: Machine, e: Event)
    requires Good(m) && DriveInv(m) && Enabled(m, e) && e.Commit? && !m.executeHold && e.mmRemaining == 0.0
    ensures Next(m, e).plan == m.plan[1..]
  {
    Legal(m, e);
    var jobs :| Inv(m, jobs);
    var prior, entry, mm :| ProfiledFrom(m, prior, entry, mm);
    ProfileMeetsPlan(prior, entry, ExitSqr(m.plan), NominalSqr(m.plan[0], m.overrides), m.plan[0].acceleration, mm, 0.0);
    CommitAdvances(m, 0.0, e.speedSqr, e.level);
    assert Advanced(m, 0.0, e.speedSqr).plan[1..] == m.plan[1..];
  }
}
