/**
 Runs of the realtime executor: what a feed hold in motion lets the main program do, the pass that
 completes a hold, and which cycle starts resume it.
 */
module RealtimeRuns {
  import opened Realtime

  // ---------------------------------------------------------------------------
  // Continuations of a run
  // ---------------------------------------------------------------------------

  predicate Runs(s: System, actions: seq<Action>)
    decreases |actions|
  {
    actions == [] || (Enabled(s, actions[0]) && Runs(Next(s, actions[0]), actions[1..]))
  }

  function After(s: System, actions: seq<Action>): System
    requires Runs(s, actions)
    decreases |actions|
  {
    if actions == [] then s else After(Next(s, actions[0]), actions[1..])
  }

  lemma {:induction false} RunKeepsInv(s: System, actions: seq<Action>)
    requires Inv(s) && Runs(s, actions)
    ensures Inv(After(s, actions))
    decreases |actions|
  {
    if actions != [] {
      NextKeepsInv(s, actions[0]);
      RunKeepsInv(Next(s, actions[0]), actions[1..]);
    }
  }

  predicate Leads(s: System, a: Action, t: System) {
    Enabled(s, a) && t == Next(s, a)
  }

  lemma Prepend(s: System, a: Action, t: System, rest: seq<Action>)
    requires Leads(s, a, t) && Runs(t, rest)
    ensures Runs(s, [a] + rest) && After(s, [a] + rest) == After(t, rest)
  {
    assert ([a] + rest)[1..] == rest;
  }

  // ---------------------------------------------------------------------------
  // A hold in motion does not suspend the main program at once
  // ---------------------------------------------------------------------------

  /** Which hold commands suspend an unsuspended main program in their own pass. */
  predicate SuspendsAtOnce(s: System) {
    || (s.state !in {Alarm, CheckMode}
        && (s.state == Idle || (s.state == Jog && !s.rt.sleep) || (s.state != Jog && s.rt.motionCancel) || s.rt.safetyDoor))
    || (s.state == Alarm && s.rt.sleep)
  }

  lemma AtRestSuspends(s: System)
    requires s.state == Idle && s.suspend == NotSuspended
    ensures HoldMotion(s).suspend != NotSuspended
  {
    assert SuspendIdle(s).suspend.holdComplete;
  }

  lemma MotionSuspendsExactly(s: System)
    requires s.state != Idle && s.suspend == NotSuspended
    ensures HoldMotion(s).suspend != NotSuspended <==>
              (s.state == Jog && !s.rt.sleep) || (s.state != Jog && s.rt.motionCancel) || s.rt.safetyDoor
  {
    var t := BeginDeceleration(s);
    var u := EnterHold(CancelMotion(SuspendIdle(t)));
    assert t.suspend == if s.state == Jog && !s.rt.sleep then NotSuspended.(jogCancel := true) else NotSuspended;
    assert u.suspend == if s.rt.motionCancel && s.state != Jog then t.suspend.(motionCancel := true) else t.suspend;
    assert !s.rt.safetyDoor ==> OpenDoor(u) == u;
    assert s.rt.safetyDoor ==> OpenDoor(u).suspend.doorAjar;
  }

  /** A hold command suspends at once exactly at rest, in a jog, with a motion cancel or a door, or in alarm when put to sleep. */
  lemma SuspendedAtOnceExactly(s: System)
    requires HoldCommanded(s.rt) && s.suspend == NotSuspended
    ensures HoldStage(s).suspend != NotSuspended <==> SuspendsAtOnce(s)
  {
    if s.state == Idle { AtRestSuspends(s); } else { MotionSuspendsExactly(s); }
  }

  /** A hold has been commanded, the machine is still slowing down, and nothing suspends the main program. */
  predicate Decelerating(s: System) {
    s.state == Hold && s.suspend == NotSuspended && s.executeHold && !s.restoring && s.place != Restoring
  }

  /** What ends it: an alarm, another hold command, or the stop of the motion. */
  predicate EndsDeceleration(s: System, a: Action) {
    a.Stage? &&
    (|| (s.place == AtAlarm && s.alarm)
     || (s.place == AtHold && (s.rt.motionCancel || s.rt.safetyDoor || s.rt.sleep))
     || (s.place == AtStop && s.rt.cycleStop))
  }

  lemma DecelerationStage(s: System, queued: bool)
    requires Decelerating(s) && InPass(s.place)
    ensures Decelerating(NextStage(s, queued)) <==> !EndsDeceleration(s, Stage(queued))
  {
  }

  lemma DecelerationGoesOnExactly(s: System, a: Action)
    requires Decelerating(s) && Enabled(s, a)
    ensures Decelerating(Next(s, a)) <==> !EndsDeceleration(s, a)
  {
    if a.Stage? { DecelerationStage(s, a.queued); }
  }

  predicate NothingEnds(s: System, actions: seq<Action>)
    requires Runs(s, actions)
    decreases |actions|
  {
    actions == [] || (!EndsDeceleration(s, actions[0]) && NothingEnds(Next(s, actions[0]), actions[1..]))
  }

  lemma {:induction false} DecelerationLasts(s: System, actions: seq<Action>)
    requires Decelerating(s) && Runs(s, actions) && NothingEnds(s, actions)
    ensures Decelerating(After(s, actions))
    decreases |actions|
  {
    if actions != [] {
      DecelerationGoesOnExactly(s, actions[0]);
      DecelerationLasts(Next(s, actions[0]), actions[1..]);
    }
  }

  /**
   A feed hold taken in motion leaves the main program running until the machine has come to rest: in
   every later state before an alarm, another hold command or the handling of the cycle stop, the state
   is hold and no suspend flag is set; the pass returns to the main program, and that may go on, with
   cycle starts of its own.
   */
  lemma DecelerationDoesNotSuspend(s: System, queued: bool, actions: seq<Action>)
    requires s.place == AtHold && s.state == Cycle && s.suspend == NotSuspended && !s.restoring
    requires s.rt.feedHold && !s.rt.motionCancel && !s.rt.safetyDoor && !s.rt.sleep
    requires Runs(Next(s, Stage(queued)), actions) && NothingEnds(Next(s, Stage(queued)), actions)
    ensures var t := After(Next(s, Stage(queued)), actions);
            && t.state == Hold && t.suspend == NotSuspended
            && (t.place == Running ==> Enabled(t, AutoStart))
            && (t.place == AtStopClear ==> Next(t, Stage(queued)).place == Running)
  {
    assert Decelerating(Next(s, Stage(queued)));
    DecelerationLasts(Next(s, Stage(queued)), actions);
  }

  // ---------------------------------------------------------------------------
  // The pass that completes a hold
  // ---------------------------------------------------------------------------

  /** Every action of the run happens inside one pass. */
  predicate RunsInPass(s: System, actions: seq<Action>)
    decreases |actions|
  {
    actions == [] || (InPass(s.place) && Enabled(s, actions[0]) && RunsInPass(Next(s, actions[0]), actions[1..]))
  }

  lemma {:induction false} InPassRuns(s: System, actions: seq<Action>)
    requires RunsInPass(s, actions)
    ensures Runs(s, actions)
    decreases |actions|
  {
    if actions != [] { InPassRuns(Next(s, actions[0]), actions[1..]); }
  }

  /** `s` lies in the rest of the pass that has the copy `rt` of the flags, which ends a hold's deceleration. */
  predicate Completing(rt: Flags, epoch: nat, s: System) {
    && s.rt == rt && s.epoch == epoch && s.state == Hold && !s.suspend.jogCancel && !s.softLimit && !s.restoring
    && rt.cycleStop && !rt.safetyDoor && !rt.sleep
    && (s.place in {AtHold, AtHoldClear, AtStart, AtStartClear, AtStop} ==> s.executeHold && !s.suspend.holdComplete)
    && (s.place in {AtStopClear, Suspending} ==> s.suspend.holdComplete && s.heldSince == epoch)
    && s.place in {AtHold, AtHoldClear, AtStart, AtStartClear, AtStop, AtStopClear, Suspending}
  }

  lemma CompletingStage(rt: Flags, epoch: nat, s: System, queued: bool)
    requires Completing(rt, epoch, s) && InPass(s.place)
    ensures Completing(rt, epoch, NextStage(s, queued))
  {
  }

  lemma CompletingStep(rt: Flags, epoch: nat, s: System, a: Action)
    requires Completing(rt, epoch, s) && InPass(s.place) && Enabled(s, a)
    ensures Completing(rt, epoch, Next(s, a))
  {
    if a.Stage? { CompletingStage(rt, epoch, s, a.queued); }
  }

  lemma {:induction false} CompletingRun(rt: Flags, epoch: nat, s: System, actions: seq<Action>)
    requires Completing(rt, epoch, s) && RunsInPass(s, actions)
    ensures Runs(s, actions) && Completing(rt, epoch, After(s, actions))
    decreases |actions|
  {
    if actions != [] {
      CompletingStep(rt, epoch, s, actions[0]);
      CompletingRun(rt, epoch, Next(s, actions[0]), actions[1..]);
    }
  }

  /**
   Start is handled before stop. In every interleaving, a hold that comes to rest in a pass is complete
   when the pass returns, in the suspend loop, and the cycle starts that the pass was called with have
   not resumed it and are gone.
   */
  lemma StartBeforeStop(before: seq<Action>, s: System, actions: seq<Action>)
    requires Reaches(before, s) && s.place == AtHold && s.state == Hold && !s.suspend.holdComplete && s.executeHold
    requires !s.suspend.jogCancel && !s.softLimit && !s.restoring
    requires s.rt.cycleStop && !s.rt.safetyDoor && !s.rt.sleep
    requires RunsInPass(s, actions) && Runs(s, actions) && !InPass(After(s, actions).place)
    ensures var t := After(s, actions);
            && t.place == Suspending && Held(t) && t.heldSince == t.epoch == s.epoch
            && AllFresh(t.flags.starts, s.epoch) && t.flags.starts !! s.rt.starts
  {
    var t := After(s, actions);
    CompletingRun(s.rt, s.epoch, s, actions);
    ReachableInv(before, s);
    RunKeepsInv(s, actions);
    forall r | r in t.flags.starts ensures r !in s.rt.starts {
      assert Fresh(r, t.heldSince);
    }
  }

  // ---------------------------------------------------------------------------
  // Cycle starts that are raised in the pass that completes a hold
  // ---------------------------------------------------------------------------

  function RaisedBy(s: System, a: Action): set<Raise> {
    if a == UserStart then {Raise(User, s.epoch, Held(s))} else {}
  }

  /** The cycle starts raised in a run inside one pass; only interrupts raise any there. */
  function RaisedIn(s: System, actions: seq<Action>): set<Raise>
    requires Runs(s, actions)
    decreases |actions|
  {
    if actions == [] then {}
    else
      RaisedBy(s, actions[0]) + RaisedIn(Next(s, actions[0]), actions[1..])
  }

  predicate BeforeClear(p: Place) {
    p in {AtHold, AtHoldClear, AtStart, AtStartClear}
  }

  predicate BehindClear(p: Place) {
    p in {AtStop, AtStopClear}
  }

  /** Every action of the run happens before the cycle start of the pass is cleared, and so does its end. */
  predicate RunsBeforeClear(s: System, actions: seq<Action>)
    decreases |actions|
  {
    BeforeClear(s.place) &&
    (actions == [] || (Enabled(s, actions[0]) && RunsBeforeClear(Next(s, actions[0]), actions[1..])))
  }

  /** Every action of the run happens in the rest of the pass. */
  predicate RunsBehindClear(s: System, actions: seq<Action>)
    decreases |actions|
  {
    actions == [] ||
    (BehindClear(s.place) && Enabled(s, actions[0]) && RunsBehindClear(Next(s, actions[0]), actions[1..]))
  }

  lemma StageRaises(s: System, queued: bool)
    requires InPass(s.place) && s.place !in {AtAlarm, AtCopy, AtStartClear}
    ensures NextStage(s, queued).flags.starts == s.flags.starts && NextStage(s, queued).rt == s.rt
  {
    match s.place
    case AtHold => assert HoldStage(s).flags == s.flags && HoldStage(s).rt == s.rt;
    case AtStart => assert StartStage(s, queued).flags == s.flags && StartStage(s, queued).rt == s.rt;
    case AtStop => assert StopStage(s).flags == s.flags && StopStage(s).rt == s.rt;
    case _ =>
  }

  lemma OthersRaiseNothing(s: System, a: Action)
    requires Enabled(s, a) && InPass(s.place) && !a.Stage? && a != UserStart
    ensures Next(s, a).flags.starts == s.flags.starts && Next(s, a).rt == s.rt && Next(s, a).place == s.place
  {
    if a == SpindleOverride {
      assert Next(s, a) == s.(spindleStop := OverrideSpindle(s).spindleStop);
    } else if a == RaiseAlarm {
      assert Next(s, a) == s.(alarm := true);
    } else {
      assert Next(s, a) == s.(flags := Next(s, a).flags);
    }
  }

  lemma UserRaises(s: System)
    requires InPass(s.place)
    ensures Next(s, UserStart) == s.(flags := s.flags.(starts := s.flags.starts + RaisedBy(s, UserStart)))
  {
  }

  lemma WaitRaises(s: System, a: Action)
    requires Enabled(s, a) && InPass(s.place) && !a.Stage?
    ensures Next(s, a).flags.starts == s.flags.starts + RaisedBy(s, a) && Next(s, a).rt == s.rt
    ensures Next(s, a).place == s.place
  {
    if a == UserStart {
      UserRaises(s);
    } else {
      OthersRaiseNothing(s, a);
      assert RaisedBy(s, a) == {} && s.flags.starts + {} == s.flags.starts;
    }
  }

  lemma StepRaises(s: System, a: Action)
    requires Enabled(s, a) && InPass(s.place) && s.place !in {AtAlarm, AtCopy, AtStartClear}
    ensures Next(s, a).flags.starts == s.flags.starts + RaisedBy(s, a) && Next(s, a).rt == s.rt
  {
    if a.Stage? { StageRaises(s, a.queued); } else { WaitRaises(s, a); }
  }

  lemma {:induction false} RaisedBeforeClear(s: System, actions: seq<Action>)
    requires RunsBeforeClear(s, actions)
    ensures Runs(s, actions) && After(s, actions).rt == s.rt
    ensures After(s, actions).flags.starts == s.flags.starts + RaisedIn(s, actions)
    decreases |actions|
  {
    if actions != [] {
      var next := Next(s, actions[0]);
      if s.place == AtStartClear {
        if !actions[0].Stage? { WaitRaises(s, actions[0]); }
      } else {
        StepRaises(s, actions[0]);
      }
      RaisedBeforeClear(next, actions[1..]);
    }
  }

  lemma {:induction false} RaisedBehindClear(s: System, actions: seq<Action>)
    requires RunsBehindClear(s, actions)
    ensures Runs(s, actions)
    ensures After(s, actions).flags.starts == s.flags.starts + RaisedIn(s, actions)
    decreases |actions|
  {
    if actions != [] {
      StepRaises(s, actions[0]);
      RaisedBehindClear(Next(s, actions[0]), actions[1..]);
    }
  }

  /**
   What is left of the cycle starts when a pass ends: what was raised after its clearing stage, and, if
   the pass was not called with a cycle start, what was raised after its copy.
   */
  lemma StartsLeftExactly(s: System, before: seq<Action>, queued: bool, behind: seq<Action>)
    requires s.place == AtHold && s.flags.starts == s.rt.starts && RunsBeforeClear(s, before)
    requires Runs(s, before) && After(s, before).place == AtStartClear
    requires RunsBehindClear(Next(After(s, before), Stage(queued)), behind)
    requires Runs(Next(After(s, before), Stage(queued)), behind)
    ensures var cleared := Next(After(s, before), Stage(queued));
            After(cleared, behind).flags.starts ==
              (if s.rt.starts == {} then RaisedIn(s, before) else {}) + RaisedIn(cleared, behind)
  {
    RaisedBeforeClear(s, before);
    var cleared := Next(After(s, before), Stage(queued));
    RaisedBehindClear(cleared, behind);
    assert cleared.flags.starts == if s.rt.starts == {} then RaisedIn(s, before) else {};
  }

  // ---------------------------------------------------------------------------
  // The pass after it
  // ---------------------------------------------------------------------------

  /** The pass from the suspend loop, up to the handling of the cycle start, when nothing is raised meanwhile. */
  function UpToStart(queued: bool): seq<Action> {
    [Pass, Stage(queued), Stage(queued), Stage(queued), Stage(queued), Stage(queued)]
  }

  /** A complete hold in the suspend loop, with no flag but a cycle start. */
  predicate Waiting(s: System) {
    Held(s) && s.place == Suspending && !s.alarm && s.flags == NoFlags.(starts := s.flags.starts)
    && s.spindleStop == NoSpindleStop && !s.suspend.motionCancel
  }

  lemma ToHold(s: System, queued: bool)
    requires Waiting(s)
    ensures var a := Next(s, Pass);
            var b := NextStage(a, queued);
            var c := NextStage(b, queued);
            c == s.(rt := s.flags, epoch := s.epoch + 1, place := AtHold)
  {
  }

  lemma ToStart(s: System, queued: bool)
    requires s.place == AtHold && !HoldCommanded(s.rt)
    ensures NextStage(NextStage(s, queued), queued) == s.(place := AtStart)
  {
  }

  lemma StartedExactly(s: System, queued: bool)
    requires s.place == AtStart && Held(s) && s.rt == NoFlags.(starts := s.rt.starts)
    requires s.spindleStop == NoSpindleStop && !s.suspend.motionCancel
    ensures NextStage(s, queued).state == Cycle <==> s.rt.starts != {} && queued
  {
  }

  lemma ThreeSteps(a: System, b: System, c: System, d: System, x: Action, y: Action, z: Action, rest: seq<Action>)
    requires Leads(a, x, b) && Leads(b, y, c) && Leads(c, z, d) && Runs(d, rest)
    ensures Runs(a, [x, y, z] + rest) && After(a, [x, y, z] + rest) == After(d, rest)
  {
    Prepend(c, z, d, rest);
    Prepend(b, y, c, [z] + rest);
    Prepend(a, x, b, [y] + ([z] + rest));
    assert [x, y, z] + rest == [x] + ([y] + ([z] + rest));
  }

  /** A waiting hold goes into the cycle in the next pass if and only if a cycle start is left and a block is queued. */
  lemma NextPassExactly(s: System, queued: bool)
    requires Waiting(s)
    ensures Runs(s, UpToStart(queued))
    ensures After(s, UpToStart(queued)).state == Cycle <==> s.flags.starts != {} && queued
  {
    var c := s.(rt := s.flags, epoch := s.epoch + 1, place := AtHold);
    SecondHalf(c, queued);
    FirstHalf(s, queued, [Stage(queued), Stage(queued), Stage(queued)]);
    assert UpToStart(queued) == [Pass, Stage(queued), Stage(queued)] + [Stage(queued), Stage(queued), Stage(queued)];
  }

  lemma FirstHalf(s: System, queued: bool, rest: seq<Action>)
    requires Waiting(s) && Runs(s.(rt := s.flags, epoch := s.epoch + 1, place := AtHold), rest)
    ensures Runs(s, [Pass, Stage(queued), Stage(queued)] + rest)
    ensures After(s, [Pass, Stage(queued), Stage(queued)] + rest) ==
              After(s.(rt := s.flags, epoch := s.epoch + 1, place := AtHold), rest)
  {
    ToHold(s, queued);
    var a := Next(s, Pass);
    var b := Next(a, Stage(queued));
    ThreeSteps(s, a, b, Next(b, Stage(queued)), Pass, Stage(queued), Stage(queued), rest);
  }

  lemma SecondHalf(c: System, queued: bool)
    requires c.place == AtHold && Held(c) && c.rt == NoFlags.(starts := c.rt.starts)
    requires c.spindleStop == NoSpindleStop && !c.suspend.motionCancel
    ensures var stages := [Stage(queued), Stage(queued), Stage(queued)];
            Runs(c, stages) && (After(c, stages).state == Cycle <==> c.rt.starts != {} && queued)
  {
    ToStart(c, queued);
    var d := Next(c, Stage(queued));
    var e := Next(d, Stage(queued));
    StartedExactly(e, queued);
    var f := Next(e, Stage(queued));
    ThreeSteps(c, d, e, f, Stage(queued), Stage(queued), Stage(queued), []);
    assert [Stage(queued), Stage(queued), Stage(queued)] + [] == [Stage(queued), Stage(queued), Stage(queued)];
  }

  /**
   Exactly which early cycle starts resume a hold. Let a pass complete a hold and return to the suspend
   loop. The next pass resumes the hold if and only if, in the completing pass, a cycle start was raised
   after the clearing stage, or after the copy of a pass that was called without a cycle start. Most of
   these are raised before the hold is complete.
   */
  lemma EarlyStartExactly(s: System, before: seq<Action>, q: bool, behind: seq<Action>, t: System)
    requires s.place == AtHold && s.flags.starts == s.rt.starts && RunsBeforeClear(s, before)
    requires Runs(s, before) && After(s, before).place == AtStartClear
    requires RunsBehindClear(Next(After(s, before), Stage(q)), behind)
    requires Runs(Next(After(s, before), Stage(q)), behind)
    requires t == After(Next(After(s, before), Stage(q)), behind) && Waiting(t)
    ensures Runs(t, UpToStart(true))
    ensures After(t, UpToStart(true)).state == Cycle <==>
              (s.rt.starts == {} && RaisedIn(s, before) != {}) || RaisedIn(Next(After(s, before), Stage(q)), behind) != {}
  {
    StartsLeftExactly(s, before, q, behind);
    NextPassExactly(t, true);
  }

  // ---------------------------------------------------------------------------
  // An input on which this happens
  // ---------------------------------------------------------------------------

  /** A set of states that contains, with a state, every state that an enabled action leads to. */
  ghost predicate Closed(r: System -> bool) {
    forall s: System, a: Action, t: System {:trigger Leads(s, a, t)} :: r(s) && Leads(s, a, t) ==> r(t)
  }

  lemma StepIn(r: System -> bool, s: System, a: Action, t: System)
    requires Closed(r) && r(s) && Leads(s, a, t)
    ensures r(t)
  {
  }

  /** Into a pass. */
  lemma BeginIn(r: System -> bool, s: System)
    requires Closed(r) && r(s) && s.place in {Running, Suspending}
    ensures r(s.(place := AtAlarm))
  {
    StepIn(r, s, Pass, s.(place := AtAlarm));
  }

  lemma AlarmIn(r: System -> bool, s: System)
    requires Closed(r) && r(s) && s.place == AtAlarm && !s.alarm
    ensures r(s.(place := AtCopy))
  {
    StepIn(r, s, Stage(true), s.(place := AtCopy));
  }

  lemma CopyIn(r: System -> bool, s: System)
    requires Closed(r) && r(s) && s.place == AtCopy && !s.flags.reset
    ensures r(s.(rt := s.flags, epoch := s.epoch + 1, place := AtHold))
  {
    StepIn(r, s, Stage(true), s.(rt := s.flags, epoch := s.epoch + 1, place := AtHold));
  }

  /** From the start of a pass to its copy of the flags. */
  lemma CopiedIn(r: System -> bool, s: System)
    requires Closed(r) && r(s) && s.place in {Running, Suspending} && !s.alarm && !s.flags.reset
    ensures r(s.(rt := s.flags, epoch := s.epoch + 1, place := AtHold))
  {
    BeginIn(r, s);
    AlarmIn(r, s.(place := AtAlarm));
    CopyIn(r, s.(place := AtCopy));
  }

  /** Past the hold stages of a pass without hold commands. */
  lemma NoHoldIn(r: System -> bool, s: System)
    requires Closed(r) && r(s) && s.place == AtHold && !HoldCommanded(s.rt)
    ensures r(s.(place := AtStart))
  {
    ToStart(s, true);
    StepIn(r, s, Stage(true), NextStage(s, true));
    StepIn(r, NextStage(s, true), Stage(true), s.(place := AtStart));
  }

  lemma StageIn(r: System -> bool, s: System)
    requires Closed(r) && r(s) && InPass(s.place)
    ensures r(NextStage(s, true))
  {
    StepIn(r, s, Stage(true), NextStage(s, true));
  }

  function Moving(rt: Flags): System {
    System(Cycle, NotSuspended, false, NoSpindleStop, false, false, NoFlags, rt, Running, false, 1, 0)
  }

  function Slowing(rt: Flags): System {
    System(Hold, NotSuspended, true, NoSpindleStop, false, false, NoFlags, rt, Running, false, 2, 0)
  }

  const Pressed := NoFlags.(starts := {Raise(User, 0, false)})
  const HoldPressed := NoFlags.(feedHold := true)
  const Stopped := NoFlags.(cycleStop := true)
  const Early := {Raise(User, 3, false)}

  lemma FirstStart()
    ensures var s := Moving(Pressed).(state := Idle, flags := Pressed, place := AtStart);
            NextStage(s, true) == s.(state := Cycle, place := AtStartClear)
  {
  }

  /** A first cycle start takes the idle machine into the cycle. */
  lemma MovingIn(r: System -> bool)
    requires Closed(r) && forall s | Initial(s) :: r(s)
    ensures r(Moving(Pressed))
  {
    var s := System(Idle, NotSuspended, false, NoSpindleStop, false, false, NoFlags, NoFlags, Running, false, 0, 0);
    assert Initial(s);
    StepIn(r, s, UserStart, s.(flags := Pressed));
    CopiedIn(r, s.(flags := Pressed));
    var c := s.(flags := Pressed, rt := Pressed, epoch := 1, place := AtHold);
    NoHoldIn(r, c);
    FirstStart();
    StageIn(r, c.(place := AtStart));
    RestIn(r, c.(state := Cycle, place := AtStartClear));
  }

  /** The end of a pass without a cycle stop. */
  lemma RestIn(r: System -> bool, s: System)
    requires Closed(r) && r(s) && s.place == AtStartClear && !s.rt.cycleStop && s.suspend == NotSuspended && !s.restoring
    ensures r(s.(flags := if s.rt.starts != {} then s.flags.(starts := {}) else s.flags, place := Running))
  {
    var t := s.(flags := if s.rt.starts != {} then s.flags.(starts := {}) else s.flags, place := AtStop);
    StepIn(r, s, Stage(true), t);
    StepIn(r, t, Stage(true), t.(place := AtStopClear));
    StepIn(r, t.(place := AtStopClear), Stage(true), t.(place := Running));
  }

  lemma HoldTaken(s: System)
    requires s.state == Cycle && s.suspend == NotSuspended && s.place == AtHold && s.rt == s.flags == HoldPressed
    ensures NextStage(s, true) == s.(state := Hold, executeHold := true, place := AtHoldClear)
  {
  }

  lemma HoldStartNothing(s: System)
    requires s.place == AtStart && s.rt.starts == {}
    ensures NextStage(s, true) == s.(place := AtStartClear)
  {
  }

  /** Past the start stages of a pass without a cycle start. */
  lemma NoStartIn(r: System -> bool, s: System)
    requires Closed(r) && r(s) && s.place == AtStart && s.rt.starts == {}
    ensures r(s.(place := AtStop))
  {
    HoldStartNothing(s);
    StepIn(r, s, Stage(true), NextStage(s, true));
    StepIn(r, s.(place := AtStartClear), Stage(true), s.(place := AtStop));
  }

  /** A feed hold makes it slow down. */
  lemma SlowingIn(r: System -> bool)
    requires Closed(r) && r(Moving(Pressed))
    ensures r(Slowing(HoldPressed))
  {
    var s := Moving(Pressed).(flags := HoldPressed);
    StepIn(r, Moving(Pressed), RaiseHold, s);
    CopiedIn(r, s);
    var c := s.(rt := HoldPressed, epoch := 2, place := AtHold);
    HoldTaken(c);
    StageIn(r, c);
    var d := c.(state := Hold, executeHold := true, place := AtHoldClear);
    StepIn(r, d, Stage(true), d.(flags := NoFlags, place := AtStart));
    HoldStartNothing(d.(flags := NoFlags, place := AtStart));
    StageIn(r, d.(flags := NoFlags, place := AtStart));
    RestIn(r, d.(flags := NoFlags, place := AtStartClear));
  }

  lemma HoldCompletes(s: System)
    requires s.place == AtStop && s.state == Hold && s.executeHold && s.rt == Stopped && s.suspend == NotSuspended
    requires !s.softLimit && s.epoch == 3
    ensures NextStage(s, true) ==
              s.(suspend := NotSuspended.(holdComplete := true), executeHold := false, heldSince := 3, place := AtStopClear)
  {
  }

  /** The motion stops, and a start arrives while the pass is between its copy and its stop stage. */
  lemma CompleteIn(r: System -> bool, rt: Flags) returns (s: System)
    requires Closed(r) && r(Slowing(rt))
    ensures r(s) && Waiting(s) && s.flags.starts == Early && s.heldSince == s.epoch == 3
  {
    var stopping := Slowing(rt).(flags := Stopped);
    StepIn(r, Slowing(rt), RaiseStop, stopping);
    CopiedIn(r, stopping);
    var c := stopping.(rt := Stopped, epoch := 3, place := AtHold);
    NoHoldIn(r, c);
    var d := c.(flags := Stopped.(starts := Early), place := AtStart);
    StepIn(r, c.(place := AtStart), UserStart, d);
    NoStartIn(r, d);
    HoldCompletes(d.(place := AtStop));
    StageIn(r, d.(place := AtStop));
    var e := d.(suspend := NotSuspended.(holdComplete := true), executeHold := false, heldSince := 3, place := AtStopClear);
    s := e.(flags := NoFlags.(starts := Early), place := Suspending);
    StepIn(r, e, Stage(true), s);
  }

  lemma EarlyStartIn(r: System -> bool) returns (s: System)
    requires Closed(r) && forall s | Initial(s) :: r(s)
    ensures r(s) && s.place == AtStart && Held(s) && s.rt.starts == Early && s.heldSince == 3
    ensures NextStage(s, true).state == Cycle
  {
    MovingIn(r);
    SlowingIn(r);
    var t := CompleteIn(r, HoldPressed);
    CopiedIn(r, t);
    var c := t.(rt := t.flags, epoch := t.epoch + 1, place := AtHold);
    NoHoldIn(r, c);
    s := c.(place := AtStart);
    StartedExactly(s, true);
  }

  ghost predicate Reachable(s: System) {
    exists actions :: Reaches(actions, s)
  }

  lemma ReachableStep(s: System, a: Action, t: System)
    requires Reachable(s) && Leads(s, a, t)
    ensures Reachable(t)
  {
    var before :| Reaches(before, s);
    var after := before + [a];
    assert after[..|after| - 1] == before && after[|after| - 1] == a;
    assert Reaches(after, t);
  }

  lemma ReachableIsClosed()
    ensures Closed(Reachable) && forall s | Initial(s) :: Reachable(s)
  {
    forall s: System, a: Action, t: System {:trigger Leads(s, a, t)} | Reachable(s) && Leads(s, a, t)
      ensures Reachable(t)
    {
      ReachableStep(s, a, t);
    }
    forall s | Initial(s) ensures Reachable(s) {
      assert Reaches([], s);
    }
  }

  /** A reachable state in which the machine is slowing down and the main program starts a cycle of its own. */
  lemma MainGoesOnInHold() returns (actions: seq<Action>, s: System)
    ensures Reaches(actions, s) && Decelerating(s) && s.place == Running && Enabled(s, AutoStart)
  {
    ReachableIsClosed();
    MovingIn(Reachable);
    SlowingIn(Reachable);
    s := Slowing(HoldPressed);
    actions :| Reaches(actions, s);
  }

  /**
   A reachable hold that is about to be resumed by a cycle start raised while it was not complete: the
   start arrived in the pass that handled the stop of the motion, after the copy of the flags.
   */
  lemma EarlyStartResumes() returns (actions: seq<Action>, s: System)
    ensures Reaches(actions, s) && s.place == AtStart && Held(s)
    ensures s.rt.starts == {Raise(User, 3, false)} && s.heldSince == 3
    ensures NextStage(s, true).state == Cycle
  {
    ReachableIsClosed();
    s := EarlyStartIn(Reachable);
    actions :| Reaches(actions, s);
  }
}
