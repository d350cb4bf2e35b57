/** An override reduction, in a reachable state, after which the plan cannot slow down in time. */
module OverrideRuns {
  import opened Axes
  import opened Blocks
  import opened Motion
  import opened MotionRuns
  import opened PlannerOverrides
  import opened PlannerTheory

  const Half := Overrides(50, 100)

  /** Three lines along one axis; the corner between the first two may be taken at a squared speed of 49. */
  const First := LineData(40.0, false, false, false, false)
  const Last := LineData(8.0, false, false, false, false)
  const FirstShape := Geometry(30.0, 1.0, 100.0, 0.0)
  const SecondShape := Geometry(10.0, 1.0, 100.0, 49.0)
  const LastShape := Geometry(50.0, 1.0, 100.0, 1000.0)

  function FirstBlock(): PlanBlock {
    PlanBlock(Vec(300, 0, 0), 300, Vec(false, false, false), First, 0.0, 0.0, 1.0, 30.0, 0.0, 100.0, 40.0)
  }

  function SecondBlock(entry: real): PlanBlock {
    PlanBlock(Vec(100, 0, 0), 100, Vec(false, false, false), First, entry, 49.0, 1.0, 10.0, 49.0, 100.0, 40.0)
  }

  function LastBlock(entry: real, limit: real): PlanBlock {
    PlanBlock(Vec(500, 0, 0), 500, Vec(false, false, false), Last, entry, limit, 1.0, 50.0, 1000.0, 100.0, 8.0)
  }

  function With(plan: seq<PlanBlock>, planned: nat, x: int, previousNominal: real): Machine {
    Start().(plan := plan, planned := planned, planPosition := Vec(x, 0, 0), previousNominal := previousNominal)
  }

  function One(): Machine {
    With([FirstBlock()], 0, 300, 40.0)
  }

  function Two(): Machine {
    With([FirstBlock(), SecondBlock(20.0)], 0, 400, 40.0)
  }

  function Three(): Machine {
    With([FirstBlock(), SecondBlock(49.0), LastBlock(64.0, 64.0)], 2, 900, 8.0)
  }

  // ---------------------------------------------------------------------------
  // The three lines
  // ---------------------------------------------------------------------------

  lemma FirstLine()
    ensures PlanLine(Start(), Vec(300, 0, 0), First, FirstShape) == One()
  {
    assert PlannedBlock(Vec(0, 0, 0), Vec(300, 0, 0), First, FirstShape, true, Full, 0.0) == FirstBlock();
    assert [] + [FirstBlock()] == [FirstBlock()];
  }

  lemma SecondReplan()
    ensures Replan([Leg(0.0, 0.0, 60.0), Leg(0.0, 49.0, 20.0)], 0) == ([Leg(0.0, 0.0, 60.0), Leg(20.0, 49.0, 20.0)], 0)
  {
    var braked := BrakeLast([Leg(0.0, 0.0, 60.0), Leg(0.0, 49.0, 20.0)]);
    assert braked == [Leg(0.0, 0.0, 60.0), Leg(20.0, 49.0, 20.0)];
    assert braked[1 := ForwardStep(braked, 1)] == braked;
    assert ForwardPass(braked, 2, 0) == (braked, 0);
  }

  lemma SecondLine()
    ensures PlanLine(One(), Vec(400, 0, 0), First, SecondShape) == Two()
  {
    var b := PlannedBlock(Vec(300, 0, 0), Vec(400, 0, 0), First, SecondShape, false, Full, 40.0);
    assert b == SecondBlock(0.0) by { assert Square(40.0) == 1600.0; }
    var plan := [FirstBlock(), b];
    assert [FirstBlock()] + [b] == plan;
    assert Legs(plan) == [Leg(0.0, 0.0, 60.0), Leg(0.0, 49.0, 20.0)];
    SecondReplan();
    assert ReplanBlocks(plan, 0).0 == [FirstBlock(), SecondBlock(20.0)];
  }

  lemma ThirdReplan()
    ensures Replan([Leg(0.0, 0.0, 60.0), Leg(20.0, 49.0, 20.0), Leg(0.0, 64.0, 100.0)], 0)
         == ([Leg(0.0, 0.0, 60.0), Leg(49.0, 49.0, 20.0), Leg(64.0, 64.0, 100.0)], 2)
  {
    var braked := BrakeLast([Leg(0.0, 0.0, 60.0), Leg(20.0, 49.0, 20.0), Leg(0.0, 64.0, 100.0)]);
    assert braked == [Leg(0.0, 0.0, 60.0), Leg(20.0, 49.0, 20.0), Leg(64.0, 64.0, 100.0)];
    var swept := [Leg(0.0, 0.0, 60.0), Leg(49.0, 49.0, 20.0), Leg(64.0, 64.0, 100.0)];
    assert ReverseStep(braked, 1) == swept;
    assert ReversePass(braked, 1, 0) == ReversePass(swept, 0, 0) == swept;
    assert swept[1 := ForwardStep(swept, 1)] == swept && swept[2 := ForwardStep(swept, 2)] == swept;
    assert LocksAt(swept, 1) && LocksAt(swept, 2);
    assert ForwardPass(swept, 3, 2) == (swept, 2);
    assert ForwardPass(swept, 2, 1) == (swept, 2);
    assert ForwardPass(swept, 1, 0) == (swept, 2);
  }

  lemma ThirdBlock()
    ensures PlannedBlock(Vec(400, 0, 0), Vec(900, 0, 0), Last, LastShape, false, Full, 40.0) == LastBlock(0.0, 64.0)
  {
    assert Square(8.0) == 64.0;
  }

  lemma ThirdPlanned()
    ensures ReplanBlocks([FirstBlock(), SecondBlock(20.0), LastBlock(0.0, 64.0)], 0) == (Three().plan, 2)
  {
    var plan := [FirstBlock(), SecondBlock(20.0), LastBlock(0.0, 64.0)];
    assert Legs(plan) == [Leg(0.0, 0.0, 60.0), Leg(20.0, 49.0, 20.0), Leg(0.0, 64.0, 100.0)];
    ThirdReplan();
    assert ReplanBlocks(plan, 0).0 == [FirstBlock(), SecondBlock(49.0), LastBlock(64.0, 64.0)];
  }

  lemma ThirdEnqueued(b: PlanBlock)
    requires b == LastBlock(0.0, 64.0)
    ensures Enqueue(Two(), b, Vec(900, 0, 0)) == Three()
  {
    ThirdPlanned();
    var m := Appended(Two(), b, Vec(900, 0, 0));
    assert m.plan == [FirstBlock(), SecondBlock(20.0), b];
    assert NominalSpeed(b, Full) == 8.0;
    assert m == With(m.plan, 0, 900, 8.0);
    assert Recalculate(m) == m.(plan := Three().plan, planned := 2);
  }

  lemma PlanLineIsEnqueue(m: Machine, target: Vec<int>, line: LineData, g: Geometry, b: PlanBlock)
    requires Possible(g) && m.previousNominal >= 0.0 && (m.plan != [] ==> m.planned < |m.plan|)
    requires b == PlannedBlock(m.planPosition, target, line, g, m.plan == [], m.overrides, m.previousNominal)
    requires b.stepEventCount > 0
    ensures PlanLine(m, target, line, g) == Enqueue(m, b, target)
  {
  }

  lemma ThirdLine()
    ensures PlanLine(Two(), Vec(900, 0, 0), Last, LastShape) == Three()
  {
    ThirdBlock();
    PlanLineIsEnqueue(Two(), Vec(900, 0, 0), Last, LastShape, LastBlock(0.0, 64.0));
    ThirdEnqueued(LastBlock(0.0, 64.0));
  }

  lemma ThreeIsPlanned()
    ensures IsPlan(Legs(Three().plan))
  {
    var legs := Legs(Three().plan);
    assert legs == [Leg(0.0, 0.0, 60.0), Leg(49.0, 49.0, 20.0), Leg(64.0, 64.0, 100.0)];
    assert Brake(legs, 2) == 64.0;
    assert Brake(legs, 1) == 49.0;
    assert Best(legs, 1) == 49.0;
    assert Best(legs, 2) == 64.0;
  }

  // ---------------------------------------------------------------------------
  // The override
  // ---------------------------------------------------------------------------

  lemma RelimitThree()
    ensures Relimit(Three().plan, Half, SOME_LARGE_VALUE) == [FirstBlock(), SecondBlock(49.0), LastBlock(64.0, 16.0)]
  {
    var bs := Three().plan;
    assert NominalSpeed(bs[0], Half) == 20.0 && NominalSpeed(bs[1], Half) == 20.0 && NominalSpeed(bs[2], Half) == 4.0;
    assert Square(20.0) == 400.0 && Square(4.0) == 16.0;
    assert MaxEntrySqr(bs[0], 20.0, SOME_LARGE_VALUE) == 0.0;
    assert MaxEntrySqr(bs[1], 20.0, 20.0) == 49.0;
    assert MaxEntrySqr(bs[2], 4.0, 20.0) == 16.0;
    assert bs[1..] == [bs[1], bs[2]] && bs[1..][1..] == [bs[2]] && [bs[2]][1..] == [];
    assert Relimit([bs[2]], Half, 20.0) == [LastBlock(64.0, 16.0)];
    assert Relimit([bs[1], bs[2]], Half, 20.0) == [SecondBlock(49.0), LastBlock(64.0, 16.0)];
  }

  lemma LoweredPlanned()
    ensures Legs(ReplanBlocks([FirstBlock(), SecondBlock(49.0), LastBlock(64.0, 16.0)], 0).0) == Replan(Lowered(), 0).0
  {
    var plan := [FirstBlock(), SecondBlock(49.0), LastBlock(64.0, 16.0)];
    assert Legs(plan) == Lowered();
    LoweredLimitsBreakTheSkip();
    var after := ReplanBlocks(plan, 0).0;
    assert after == [FirstBlock(), SecondBlock(49.0), LastBlock(16.0, 16.0)];
  }

  lemma OverrideThree()
    requires forall b | b in Three().plan :: b.maxJunctionSqr >= 0.0
    ensures Legs(SetOverrides(Three(), Half).plan) == Replan(Lowered(), 0).0
  {
    RelimitThree();
    LoweredPlanned();
  }

  // ---------------------------------------------------------------------------
  // The run
  // ---------------------------------------------------------------------------

  lemma ReachesOne() returns (events: seq<Event>)
    ensures Reaches(events, One()) && Good(One())
  {
    assert Initial(Start());
    ReachableIsGood([], Start());
    FirstLine();
    events := ReachesStep([], Start(), Line(Vec(300, 0, 0), First, FirstShape), One());
  }

  lemma ReachesTwo() returns (events: seq<Event>)
    ensures Reaches(events, Two()) && Good(Two())
  {
    var before := ReachesOne();
    SecondLine();
    events := ReachesStep(before, One(), Line(Vec(400, 0, 0), First, SecondShape), Two());
  }

  lemma ReachesThree() returns (events: seq<Event>)
    ensures Reaches(events, Three()) && Good(Three())
  {
    var before := ReachesTwo();
    ThirdLine();
    events := ReachesStep(before, Two(), Line(Vec(900, 0, 0), Last, LastShape), Three());
  }

  /**
   A reachable state whose plan is the full plan, and an override reduction to half the feed rate, after
   which the plan is neither the full plan nor one in which every block can brake to the next.
   */
  lemma ReductionBreaksThePlan() returns (events: seq<Event>)
    ensures Reaches(events, Three()) && Good(Three()) && IsPlan(Legs(Three().plan)) && Three().overrides == Full
    ensures var legs := Legs(Next(Three(), Override(Half)).plan);
            !IsPlan(legs) && !Stoppable(legs, 1)
  {
    events := ReachesThree();
    ThreeIsPlanned();
    Legal(Three(), Override(Half));
    OverrideThree();
    LoweredLimitsBreakTheSkip();
  }
}
