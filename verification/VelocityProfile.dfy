/**
 The velocity profile of the block being prepped: how the step generator gets from the
 block's entry speed to its exit speed. All speeds are squared, so no root is taken;
 distances are measured back from the end of the block, as in the source.
 */
module VelocityProfile {

  datatype Ramp = Accel | Cruise | Decel | DecelOverride

  datatype Profile = Profile(
    ramp: Ramp,
    mmComplete: real,
    accelerateUntil: real,
    decelerateAfter: real,
    maximumSqr: real,
    exitSqr: real,
    decelOverride: bool)

  /** The distance over which acceleration `a` changes the squared speed by `v`. */
  function Distance(a: real, v: real): real
    requires a > 0.0
  {
    (0.5 / a) * v
  }

  /** The change of squared speed over distance `x`. */
  function Gain(a: real, x: real): real {
    2.0 * a * x
  }

  /** With acceleration `a` from speed `v` for a time `t`, the gain over the way is the change of the squared speed. */
  lemma GainIsKinematic(a: real, v: real, t: real)
    ensures var way := v * t + a * t * t / 2.0;
            Gain(a, way) == (v + a * t) * (v + a * t) - v * v
  {
    Halved(a * (a * t * t));
    assert 2.0 * a * (v * t) == 2.0 * (v * (a * t));
    assert 2.0 * a * (a * t * t / 2.0) == a * (a * t * t);
    assert (v + a * t) * (v + a * t) == v * v + 2.0 * (v * (a * t)) + (a * t) * (a * t);
  }

  lemma Halved(x: real)
    ensures 2.0 * (x / 2.0) == x
  {
  }

  /** Forced deceleration to rest, or through the whole block if it is too short. */
  function HoldProfile(prior: Profile, entry: real, accel: real, mm: real): Profile
    requires accel > 0.0
  {
    var decelDist := mm - Distance(accel, entry);
    if decelDist < 0.0 then
      prior.(ramp := Decel, mmComplete := 0.0, exitSqr := entry - Gain(accel, mm))
    else
      prior.(ramp := Decel, mmComplete := decelDist, exitSqr := 0.0)
  }

  /**
   The profile of normal operation. Fields that the source leaves alone in a branch keep
   their old value.
   */
  function NormalProfile(prior: Profile, entry: real, exit: real, nominal: real, accel: real, mm: real): Profile
    requires accel > 0.0
  {
    var p := prior.(ramp := Accel, mmComplete := 0.0, accelerateUntil := mm, exitSqr := exit);
    var intersect := 0.5 * (mm + Distance(accel, entry - exit));
    if entry > nominal then
      var until := mm - Distance(accel, entry - nominal);
      if until <= 0.0 then
        p.(ramp := Decel, accelerateUntil := until, exitSqr := entry - Gain(accel, mm), decelOverride := true)
      else
        p.(ramp := DecelOverride, accelerateUntil := until,
           decelerateAfter := Distance(accel, nominal - exit), maximumSqr := nominal)
    else if intersect > 0.0 then
      if intersect < mm then
        var after := Distance(accel, nominal - exit);
        if after < intersect then
          if entry == nominal then
            p.(ramp := Cruise, decelerateAfter := after, maximumSqr := nominal)
          else
            p.(accelerateUntil := mm - Distance(accel, nominal - entry),
               decelerateAfter := after, maximumSqr := nominal)
        else
          p.(accelerateUntil := intersect, decelerateAfter := intersect,
             maximumSqr := Gain(accel, intersect) + exit)
      else p.(ramp := Decel)
    else
      p.(accelerateUntil := 0.0, maximumSqr := exit)
  }

  /** The squared speed with distance `x` left, when the ramps of `p` are driven at acceleration `a`. */
  function SpeedSqr(p: Profile, entry: real, a: real, mm: real, x: real): real {
    match p.ramp
    case Decel => entry - Gain(a, mm - x)
    case Accel =>
      if x >= p.accelerateUntil then entry + Gain(a, mm - x)
      else if x >= p.decelerateAfter then p.maximumSqr
      else p.maximumSqr - Gain(a, p.decelerateAfter - x)
    case DecelOverride =>
      if x >= p.accelerateUntil then entry - Gain(a, mm - x)
      else if x >= p.decelerateAfter then p.maximumSqr
      else p.maximumSqr - Gain(a, p.decelerateAfter - x)
    case Cruise =>
      if x >= p.decelerateAfter then p.maximumSqr
      else p.maximumSqr - Gain(a, p.decelerateAfter - x)
  }

  /** What the planner guarantees for the block: its exit speed is reachable and not above nominal. */
  ghost predicate PlannerFeasible(entry: real, exit: real, nominal: real, a: real, mm: real) {
    && a > 0.0 && mm > 0.0
    && 0.0 <= entry && 0.0 <= exit <= nominal
    && exit <= entry + Gain(a, mm) && entry <= exit + Gain(a, mm)
  }

  /** The ramps of a trapezoid or triangle lie in order within the block. */
  ghost predicate RampsInOrder(p: Profile, mm: real) {
    match p.ramp
    case Accel => 0.0 <= p.accelerateUntil <= mm
                  && (p.accelerateUntil > 0.0 ==> 0.0 <= p.decelerateAfter <= p.accelerateUntil)
    case DecelOverride => 0.0 <= p.decelerateAfter <= p.accelerateUntil <= mm
    case Cruise => 0.0 <= p.decelerateAfter <= mm
    case Decel => true
  }

  lemma GainOfDistance(a: real, v: real)
    requires a > 0.0
    ensures Gain(a, Distance(a, v)) == v
  {
    var h := 0.5 / a;
    assert 2.0 * a * h == 1.0;
    assert Gain(a, h * v) == (2.0 * a * h) * v;
  }

  lemma GainIsLinear(a: real, x: real, y: real)
    ensures Gain(a, x + y) == Gain(a, x) + Gain(a, y)
    ensures Gain(a, x - y) == Gain(a, x) - Gain(a, y)
  {
  }

  lemma GainIsMonotone(a: real, x: real, y: real)
    requires a > 0.0
    ensures x < y <==> Gain(a, x) < Gain(a, y)
    ensures x == y <==> Gain(a, x) == Gain(a, y)
  {
    if x < y {
      assert (y - x) * (2.0 * a) > 0.0;
    } else if y < x {
      assert (x - y) * (2.0 * a) > 0.0;
    }
  }

  lemma GainOfIntersect(entry: real, exit: real, a: real, mm: real)
    requires a > 0.0
    ensures var intersect := 0.5 * (mm + Distance(a, entry - exit));
            2.0 * Gain(a, intersect) == Gain(a, mm) + entry - exit
  {
    var d := Distance(a, entry - exit);
    GainOfDistance(a, entry - exit);
    GainIsLinear(a, mm, d);
    assert Gain(a, 0.5 * (mm + d)) == 0.5 * Gain(a, mm + d);
  }
  /** The ramp junctions, as squared speeds gained over the distance that is left there. */
  lemma JunctionGains(prior: Profile, entry: real, exit: real, nominal: real, a: real, mm: real)
    requires PlannerFeasible(entry, exit, nominal, a, mm)
    ensures var p := NormalProfile(prior, entry, exit, nominal, a, mm);
            && Gain(a, 0.0) == 0.0
            && (p.ramp.Accel? ==> Gain(a, p.accelerateUntil) == Gain(a, mm) + entry - p.maximumSqr)
            && (p.ramp.DecelOverride? ==> Gain(a, p.accelerateUntil) == Gain(a, mm) - entry + p.maximumSqr)
            && (p.ramp.Decel? ==> p.exitSqr == entry - Gain(a, mm))
            && (!p.ramp.Decel? && !(p.ramp.Accel? && p.accelerateUntil == 0.0) ==>
                  Gain(a, p.decelerateAfter) == p.maximumSqr - exit)
  {
    var intersect := 0.5 * (mm + Distance(a, entry - exit));
    GainOfIntersect(entry, exit, a, mm);
    GainIsMonotone(a, intersect, mm);
    GainIsMonotone(a, intersect, 0.0);
    GainOfDistance(a, entry - nominal);
    GainOfDistance(a, nominal - exit);
    GainOfDistance(a, nominal - entry);
    GainIsLinear(a, mm, Distance(a, entry - nominal));
    GainIsLinear(a, mm, Distance(a, nominal - entry));
  }

  lemma RampOrder(prior: Profile, entry: real, exit: real, nominal: real, a: real, mm: real)
    requires PlannerFeasible(entry, exit, nominal, a, mm)
    ensures var p := NormalProfile(prior, entry, exit, nominal, a, mm);
            && RampsInOrder(p, mm)
            && (!p.ramp.Decel? ==> p.maximumSqr <= nominal && p.exitSqr == exit)
            && (p.ramp.Accel? ==> entry <= p.maximumSqr && exit <= p.maximumSqr)
            && (p.ramp.Accel? && p.accelerateUntil == 0.0 ==> p.maximumSqr == exit)
            && (p.ramp.DecelOverride? ==> p.maximumSqr == nominal < entry)
            && (p.ramp.Cruise? ==> p.maximumSqr == entry == nominal)
            && (p.ramp.Decel? && entry <= nominal ==> p.exitSqr == exit)
            && (p.ramp.Decel? && entry > nominal ==> p.decelOverride && p.exitSqr >= nominal)
  {
    var p := NormalProfile(prior, entry, exit, nominal, a, mm);
    JunctionGains(prior, entry, exit, nominal, a, mm);
    var intersect := 0.5 * (mm + Distance(a, entry - exit));
    GainOfIntersect(entry, exit, a, mm);
    GainIsMonotone(a, 0.0, mm);
    GainIsMonotone(a, intersect, mm);
    GainIsMonotone(a, 0.0, intersect);
    GainIsMonotone(a, p.accelerateUntil, mm);
    GainIsMonotone(a, 0.0, p.decelerateAfter);
    GainIsMonotone(a, p.accelerateUntil, p.decelerateAfter);
    GainIsMonotone(a, 0.0, p.accelerateUntil);
    GainOfDistance(a, nominal - exit);
    GainIsMonotone(a, Distance(a, nominal - exit), intersect);
  }

  /**
   The profile realises the plan: the ramps lie in order, the speed is the entry speed at the
   start and the planned exit speed at the end, and nowhere above nominal.
   */
  lemma ProfileMeetsPlan(prior: Profile, entry: real, exit: real, nominal: real, a: real, mm: real, x: real)
    requires PlannerFeasible(entry, exit, nominal, a, mm) && entry <= nominal
    requires 0.0 <= x <= mm
    ensures var p := NormalProfile(prior, entry, exit, nominal, a, mm);
            && RampsInOrder(p, mm) && p.mmComplete == 0.0 && p.exitSqr == exit
            && SpeedSqr(p, entry, a, mm, mm) == entry
            && SpeedSqr(p, entry, a, mm, 0.0) == exit
            && 0.0 <= SpeedSqr(p, entry, a, mm, x) <= nominal
  {
    var p := NormalProfile(prior, entry, exit, nominal, a, mm);
    ProfileIsProgress(prior, entry, exit, nominal, a, mm, x);
    ProfileIsProgress(prior, entry, exit, nominal, a, mm, 0.0);
    RampOrder(prior, entry, exit, nominal, a, mm);
    JunctionGains(prior, entry, exit, nominal, a, mm);
    AtStart(p, entry, a, mm);
    BelowNominal(p, entry, a, mm, x, nominal);
  }

  lemma AtStart(p: Profile, entry: real, a: real, mm: real)
    requires a > 0.0 && mm > 0.0 && RampsInOrder(p, mm)
    requires p.ramp.Cruise? ==> p.maximumSqr == entry
    ensures SpeedSqr(p, entry, a, mm, mm) == entry
  {
  }

  lemma BelowNominal(p: Profile, entry: real, a: real, mm: real, x: real, nominal: real)
    requires a > 0.0 && 0.0 <= x <= mm && RampsInOrder(p, mm) && entry <= nominal
    requires !p.ramp.Decel? ==> p.maximumSqr <= nominal
    requires p.ramp.Accel? ==> Gain(a, p.accelerateUntil) == Gain(a, mm) + entry - p.maximumSqr
    requires !p.ramp.DecelOverride?
    ensures SpeedSqr(p, entry, a, mm, x) <= nominal
  {
    GainIsLinear(a, mm, x);
    GainIsLinear(a, p.decelerateAfter, x);
    GainIsMonotone(a, x, mm);
    GainIsMonotone(a, x, p.decelerateAfter);
    GainIsMonotone(a, x, p.accelerateUntil);
  }

  /**
   Wherever the machine is in the block, its speed was reached within the acceleration limit
   and still allows it to leave the block at the planned exit speed, exactly.
   */
  lemma ProfileIsProgress(prior: Profile, entry: real, exit: real, nominal: real, a: real, mm: real, x: real)
    requires PlannerFeasible(entry, exit, nominal, a, mm) && 0.0 <= x <= mm
    ensures var p := NormalProfile(prior, entry, exit, nominal, a, mm);
            var v := SpeedSqr(p, entry, a, mm, x);
            && v >= 0.0
            && v + Gain(a, x) <= entry + Gain(a, mm)
            && exit <= v + Gain(a, x)
            && (p.exitSqr == exit ==> v <= exit + Gain(a, x))
            && v <= p.exitSqr + Gain(a, x)
  {
    var p := NormalProfile(prior, entry, exit, nominal, a, mm);
    RampOrder(prior, entry, exit, nominal, a, mm);
    JunctionGains(prior, entry, exit, nominal, a, mm);
    ProgressWithin(p, entry, exit, a, mm, x);
  }

  lemma ProgressWithin(p: Profile, entry: real, exit: real, a: real, mm: real, x: real)
    requires a > 0.0 && 0.0 <= x <= mm && 0.0 <= exit && 0.0 <= entry && exit <= entry + Gain(a, mm)
    requires RampsInOrder(p, mm) && exit <= p.exitSqr && entry <= exit + Gain(a, mm)
    requires Gain(a, 0.0) == 0.0
    requires p.ramp.Accel? ==>
               Gain(a, p.accelerateUntil) == Gain(a, mm) + entry - p.maximumSqr && entry <= p.maximumSqr && exit <= p.maximumSqr
    requires p.ramp.DecelOverride? ==>
               Gain(a, p.accelerateUntil) == Gain(a, mm) - entry + p.maximumSqr && exit <= p.maximumSqr < entry
    requires p.ramp.Decel? ==> p.exitSqr == entry - Gain(a, mm)
    requires p.ramp.Cruise? ==> p.maximumSqr == entry
    requires p.ramp.Accel? && p.accelerateUntil == 0.0 ==> p.maximumSqr == exit
    requires !p.ramp.Decel? && !(p.ramp.Accel? && p.accelerateUntil == 0.0) ==>
               Gain(a, p.decelerateAfter) == p.maximumSqr - exit
    requires !p.ramp.Decel? ==> p.exitSqr == exit
    ensures var v := SpeedSqr(p, entry, a, mm, x);
            && v >= 0.0
            && v + Gain(a, x) <= entry + Gain(a, mm)
            && exit <= v + Gain(a, x)
            && v <= p.exitSqr + Gain(a, x)
  {
    GainIsLinear(a, mm, x);
    GainIsLinear(a, p.decelerateAfter, x);
    GainIsMonotone(a, 0.0, x);
    GainIsMonotone(a, x, mm);
    GainIsMonotone(a, x, p.decelerateAfter);
    GainIsMonotone(a, x, p.accelerateUntil);
  }

  function Least(x: real, y: real): real {
    if x < y then x else y
  }

  /**
   The profile is the fastest drive there is: at every point the machine is as fast as the acceleration from
   the entry speed, the deceleration to the exit speed and the nominal speed allow; a block that is entered
   above nominal is first slowed down at full deceleration.
   */
  lemma ProfileIsFastest(prior: Profile, entry: real, exit: real, nominal: real, a: real, mm: real, x: real)
    requires PlannerFeasible(entry, exit, nominal, a, mm) && 0.0 <= x <= mm
    ensures var p := NormalProfile(prior, entry, exit, nominal, a, mm);
            var slowed := entry - Gain(a, mm - x);
            SpeedSqr(p, entry, a, mm, x) ==
              Least(Least(entry + Gain(a, mm - x), exit + Gain(a, x)), if slowed > nominal then slowed else nominal)
  {
    var p := NormalProfile(prior, entry, exit, nominal, a, mm);
    RampOrder(prior, entry, exit, nominal, a, mm);
    JunctionGains(prior, entry, exit, nominal, a, mm);
    PlateauIsNominal(prior, entry, exit, nominal, a, mm);
    Fastest(p, entry, exit, nominal, a, mm, x);
  }

  /** Between acceleration and deceleration there is nothing but cruising at nominal speed. */
  lemma PlateauIsNominal(prior: Profile, entry: real, exit: real, nominal: real, a: real, mm: real)
    requires PlannerFeasible(entry, exit, nominal, a, mm)
    ensures var p := NormalProfile(prior, entry, exit, nominal, a, mm);
            p.ramp.Accel? ==>
              && entry <= nominal
              && (p.decelerateAfter < p.accelerateUntil && p.accelerateUntil > 0.0 ==> p.maximumSqr == nominal)
  {
  }

  lemma Fastest(p: Profile, entry: real, exit: real, nominal: real, a: real, mm: real, x: real)
    requires PlannerFeasible(entry, exit, nominal, a, mm) && 0.0 <= x <= mm && RampsInOrder(p, mm)
    requires Gain(a, 0.0) == 0.0
    requires !p.ramp.Decel? ==> p.maximumSqr <= nominal
    requires p.ramp.Accel? ==>
               && Gain(a, p.accelerateUntil) == Gain(a, mm) + entry - p.maximumSqr && entry <= nominal
               && exit <= p.maximumSqr
               && (p.accelerateUntil == 0.0 ==> p.maximumSqr == exit)
               && (p.decelerateAfter < p.accelerateUntil && p.accelerateUntil > 0.0 ==> p.maximumSqr == nominal)
    requires p.ramp.DecelOverride? ==>
               Gain(a, p.accelerateUntil) == Gain(a, mm) - entry + p.maximumSqr && p.maximumSqr == nominal < entry
    requires p.ramp.Decel? ==> p.exitSqr == entry - Gain(a, mm)
                               && (if entry <= nominal then p.exitSqr == exit else p.exitSqr >= nominal)
    requires p.ramp.Cruise? ==> p.maximumSqr == entry == nominal
    requires !p.ramp.Decel? && !(p.ramp.Accel? && p.accelerateUntil == 0.0) ==>
               Gain(a, p.decelerateAfter) == p.maximumSqr - exit
    ensures var slowed := entry - Gain(a, mm - x);
            SpeedSqr(p, entry, a, mm, x) ==
              Least(Least(entry + Gain(a, mm - x), exit + Gain(a, x)), if slowed > nominal then slowed else nominal)
  {
    GainIsLinear(a, mm, x);
    GainIsLinear(a, p.decelerateAfter, x);
    GainIsMonotone(a, 0.0, x);
    GainIsMonotone(a, x, mm);
    GainIsMonotone(a, x, p.decelerateAfter);
    GainIsMonotone(a, x, p.accelerateUntil);
  }

  /** The squared speed changes by no more than the acceleration allows: no jump at any ramp junction. */
  lemma SpeedIsContinuous(prior: Profile, entry: real, exit: real, nominal: real, a: real, mm: real, x: real, y: real)
    requires PlannerFeasible(entry, exit, nominal, a, mm) && 0.0 <= y <= x <= mm
    ensures var p := NormalProfile(prior, entry, exit, nominal, a, mm);
            var v, w := SpeedSqr(p, entry, a, mm, x), SpeedSqr(p, entry, a, mm, y);
            -Gain(a, x - y) <= w - v <= Gain(a, x - y)
  {
    var p := NormalProfile(prior, entry, exit, nominal, a, mm);
    RampOrder(prior, entry, exit, nominal, a, mm);
    JunctionGains(prior, entry, exit, nominal, a, mm);
    GainIsLinear(a, mm, x);
    GainIsLinear(a, mm, y);
    GainIsLinear(a, x, y);
    GainIsLinear(a, p.decelerateAfter, x);
    GainIsLinear(a, p.decelerateAfter, y);
    GainIsMonotone(a, y, x);
    GainIsMonotone(a, x, mm);
    GainIsMonotone(a, x, p.accelerateUntil);
    GainIsMonotone(a, y, p.accelerateUntil);
    GainIsMonotone(a, x, p.decelerateAfter);
    GainIsMonotone(a, y, p.decelerateAfter);
  }

  /**
   A hold brakes at full deceleration to the point where its profile is complete: at rest
   inside the block, or at the end of the block with the speed that is left.
   */
  lemma HoldBrakes(prior: Profile, entry: real, a: real, mm: real, x: real)
    requires a > 0.0 && mm > 0.0 && entry >= 0.0
    requires HoldProfile(prior, entry, a, mm).mmComplete <= x <= mm
    ensures var p := HoldProfile(prior, entry, a, mm);
            && p.ramp == Decel && 0.0 <= p.mmComplete <= mm
            && SpeedSqr(p, entry, a, mm, mm) == entry
            && SpeedSqr(p, entry, a, mm, p.mmComplete) == p.exitSqr
            && 0.0 <= p.exitSqr <= SpeedSqr(p, entry, a, mm, x) <= entry
            && (p.exitSqr > 0.0 ==> p.mmComplete == 0.0)
  {
    var p := HoldProfile(prior, entry, a, mm);
    var d := Distance(a, entry);
    GainOfDistance(a, entry);
    GainIsLinear(a, mm, d);
    GainIsLinear(a, mm, x);
    GainIsLinear(a, mm, p.mmComplete);
    GainIsMonotone(a, mm, d);
    GainIsMonotone(a, 0.0, d);
    GainIsMonotone(a, p.mmComplete, x);
    GainIsMonotone(a, x, mm);
  }
}
