/**
 Cycle starts that strike a machine in which a hold is still marked as executing: a motion was ended
 before the hold that had been started in it could be completed.
 */
module UnfinishedHolds {
  import opened Realtime
  import opened RealtimeRuns

  predicate AtRestOrHeld(s: System) {
    var t := StartAtDoor(s);
    (t.state == Idle || Held(t)) && !(t.state == Hold && t.spindleStop != NoSpindleStop)
  }

  /** A cycle start that is obeyed: it ends whatever hold there is. */
  predicate StartObeyed(s: System) {
    s.place == AtStart && s.rt.starts != {} && !StartBlocked(s.rt) && AtRestOrHeld(s)
  }

  /** A cycle stop that completes a hold or a jog cancel. */
  predicate HoldCompleted(s: System) {
    s.place == AtStop && s.rt.cycleStop
    && (s.suspend.jogCancel || (s.state in {Hold, SafetyDoor, Sleep} && !s.softLimit))
  }

  /** A cycle stop that is taken for the end of the motion: in a motion cancel, for one, or on a soft limit. */
  predicate MotionEnded(s: System) {
    s.place == AtStop && s.rt.cycleStop && !HoldCompleted(s)
  }

  predicate Settles(s: System, a: Action) {
    a.Stage? && (StartObeyed(s) || HoldCompleted(s))
  }

  /** Ends a motion while a hold executes, or interrupts it with an alarm. */
  predicate Abandons(s: System, a: Action) {
    a.Stage? && s.executeHold && (MotionEnded(s) || (s.place == AtAlarm && s.alarm))
  }

  predicate NothingSettles(s: System, actions: seq<Action>)
    requires Runs(s, actions)
    decreases |actions|
  {
    actions == [] || (!Settles(s, actions[0]) && NothingSettles(Next(s, actions[0]), actions[1..]))
  }

  /** Somewhere in the run a hold is abandoned, and nothing settles it from there on. */
  predicate LeavesHold(s: System, actions: seq<Action>)
    requires Runs(s, actions)
    decreases |actions|
  {
    actions != [] &&
    (|| (Abandons(s, actions[0]) && NothingSettles(Next(s, actions[0]), actions[1..]))
     || LeavesHold(Next(s, actions[0]), actions[1..]))
  }

  /** A hold in progress, in a motion that has not ended. */
  predicate SlowingDown(s: System) {
    s.state in {Cycle, Jog, Hold, SafetyDoor, Sleep} && !s.suspend.holdComplete
    && (s.state == SafetyDoor ==> s.suspend.doorAjar)
  }

  /** What `left`, whether a hold has been left behind, has to do with the system. */
  predicate Tracks(s: System, left: bool) {
    && MainIsBlocked(s)
    && (s.state in {Cycle, Jog} ==> !s.suspend.holdComplete)
    && (left ==> s.executeHold)
    && (s.executeHold && !left ==> SlowingDown(s))
  }

  function LeftAfter(s: System, left: bool, a: Action): bool {
    Abandons(s, a) || (left && !Settles(s, a))
  }

  lemma DecelerationTracks(s: System, left: bool)
    requires Tracks(s, left) && s.place == AtHold
    ensures Tracks(CancelMotion(SuspendIdle(BeginDeceleration(s))), left)
  {
  }

  lemma DoorTracks(s: System, left: bool)
    requires Tracks(s, left) && s.place == AtHold
    ensures Tracks(OpenDoor(EnterHold(s)), left)
  {
  }

  lemma HoldTracks(s: System, left: bool, queued: bool)
    requires Tracks(s, left) && s.place == AtHold
    ensures Tracks(NextStage(s, queued), left)
  {
    DecelerationTracks(s, left);
    DoorTracks(CancelMotion(SuspendIdle(BeginDeceleration(s))), left);
    assert Tracks(HoldStage(s), left);
  }

  lemma StartTracks(s: System, left: bool, queued: bool)
    requires Tracks(s, left) && s.place == AtStart
    ensures Tracks(NextStage(s, queued), left && !StartObeyed(s))
  {
    assert Tracks(StartStage(s, queued), left && !StartObeyed(s));
  }

  lemma StopTracks(s: System, left: bool, queued: bool)
    requires Tracks(s, left) && s.place == AtStop
    ensures Tracks(NextStage(s, queued), (s.executeHold && MotionEnded(s)) || (left && !HoldCompleted(s)))
  {
    assert Tracks(StopStage(s), (s.executeHold && MotionEnded(s)) || (left && !HoldCompleted(s)));
  }

  lemma OtherStageTracks(s: System, left: bool, queued: bool)
    requires Tracks(s, left) && InPass(s.place) && s.place !in {AtHold, AtStart, AtStop}
    ensures Tracks(NextStage(s, queued), LeftAfter(s, left, Stage(queued)))
  {
  }

  lemma StageTracks(s: System, left: bool, queued: bool)
    requires Tracks(s, left) && InPass(s.place)
    ensures Tracks(NextStage(s, queued), LeftAfter(s, left, Stage(queued)))
  {
    if s.place == AtHold {
      HoldTracks(s, left, queued);
    } else if s.place == AtStart {
      StartTracks(s, left, queued);
    } else if s.place == AtStop {
      StopTracks(s, left, queued);
    } else {
      OtherStageTracks(s, left, queued);
    }
  }

  lemma StepTracks(s: System, left: bool, a: Action)
    requires Tracks(s, left) && Enabled(s, a)
    ensures Tracks(Next(s, a), LeftAfter(s, left, a))
  {
    if a.Stage? { StageTracks(s, left, a.queued); }
  }

  lemma {:induction false} RunTracks(s: System, left: bool, actions: seq<Action>)
    requires Tracks(s, left) && Runs(s, actions)
    ensures Tracks(After(s, actions), LeavesHold(s, actions) || (left && NothingSettles(s, actions)))
    decreases |actions|
  {
    if actions != [] {
      StepTracks(s, left, actions[0]);
      RunTracks(Next(s, actions[0]), LeftAfter(s, left, actions[0]), actions[1..]);
    }
  }

  /** Only a start that is obeyed begins a cycle. */
  lemma CycleNeedsStart(s: System, queued: bool)
    requires s.place == AtStart && s.state != Cycle && NextStage(s, queued).state == Cycle
    ensures StartObeyed(s)
  {
  }

  /** As long as nothing has been left behind, a start that is obeyed finds no hold executing. */
  lemma ObeyedWithoutHold(s: System)
    requires Tracks(s, false) && StartObeyed(s)
    ensures !s.executeHold
  {
  }

  /**
   A cycle start that is obeyed, and only such a start begins a cycle, finds a hold executing if and only if,
   earlier in the run, a motion was ended or struck by an alarm while the hold executed, and since then
   neither a hold nor a jog cancel has been completed and no start has been obeyed.
   */
  lemma HoldExecutesExactly(s0: System, actions: seq<Action>)
    requires Initial(s0) && Runs(s0, actions) && StartObeyed(After(s0, actions))
    ensures After(s0, actions).executeHold <==> LeavesHold(s0, actions)
  {
    RunTracks(s0, false, actions);
    if After(s0, actions).executeHold && !LeavesHold(s0, actions) { ObeyedWithoutHold(After(s0, actions)); }
  }

  // ---------------------------------------------------------------------------
  // An input on which this happens
  // ---------------------------------------------------------------------------

  const CancelPressed := NoFlags.(motionCancel := true)
  const Cancelled := NotSuspended.(motionCancel := true)

  /** A motion cancel makes the machine slow down in the cycle state. */
  function Cancelling(): System {
    Moving(CancelPressed).(suspend := Cancelled, executeHold := true, place := Suspending, epoch := 2)
  }

  /** The cycle stop takes it to idle. */
  function Ended(): System {
    Moving(Stopped).(state := Idle, executeHold := true, epoch := 3)
  }

  lemma CancelTaken(s: System)
    requires s.state == Cycle && s.suspend == NotSuspended && s.place == AtHold && s.rt == s.flags == CancelPressed
    ensures NextStage(s, true) == s.(suspend := Cancelled, executeHold := true, place := AtHoldClear)
  {
  }

  lemma NothingToStop(s: System)
    requires s.place == AtStop && !s.rt.cycleStop
    ensures NextStage(s, true) == s.(place := AtStopClear)
  {
  }

  lemma CancelTakenIn(r: System -> bool)
    requires Closed(r) && r(Moving(Pressed))
    ensures r(Cancelling().(place := AtStart))
  {
    var s := Moving(Pressed).(flags := CancelPressed);
    StepIn(r, Moving(Pressed), RaiseMotionCancel, s);
    CopiedIn(r, s);
    CancelTaken(s.(rt := CancelPressed, epoch := 2, place := AtHold));
    StageIn(r, s.(rt := CancelPressed, epoch := 2, place := AtHold));
    var d := Cancelling().(place := AtStart);
    StepIn(r, d.(flags := CancelPressed, place := AtHoldClear), Stage(true), d);
  }

  lemma CancellingIn(r: System -> bool)
    requires Closed(r) && r(Moving(Pressed))
    ensures r(Cancelling())
  {
    CancelTakenIn(r);
    var d := Cancelling().(place := AtStart);
    NoStartIn(r, d);
    NothingToStop(d.(place := AtStop));
    StageIn(r, d.(place := AtStop));
    StepIn(r, d.(place := AtStopClear), Stage(true), Cancelling());
  }

  lemma CycleEnds(s: System)
    requires s.place == AtStop && s.state == Cycle && s.rt == Stopped && s.suspend == Cancelled
    ensures NextStage(s, true) == s.(state := Idle, suspend := NotSuspended, place := AtStopClear)
  {
  }

  lemma EndedIn(r: System -> bool)
    requires Closed(r) && r(Cancelling())
    ensures r(Ended())
  {
    var s := Cancelling().(flags := Stopped);
    StepIn(r, Cancelling(), RaiseStop, s);
    CopiedIn(r, s);
    var c := s.(rt := Stopped, epoch := 3, place := AtHold);
    NoHoldIn(r, c);
    var d := c.(place := AtStart);
    NoStartIn(r, d);
    CycleEnds(d.(place := AtStop));
    StageIn(r, d.(place := AtStop));
    var e := d.(state := Idle, suspend := NotSuspended, place := AtStopClear);
    StepIn(r, e, Stage(true), Ended());
  }

  /**
   A reachable idle state in which a hold still executes and the user's cycle start is about to be obeyed:
   the motion was cancelled, and came to rest in the cycle state.
   */
  lemma StartsInHold() returns (actions: seq<Action>, s: System)
    ensures Reaches(actions, s) && s.place == AtStart && s.state == Idle && s.executeHold
    ensures NextStage(s, true).state == Cycle
  {
    ReachableIsClosed();
    MovingIn(Reachable);
    CancellingIn(Reachable);
    EndedIn(Reachable);
    var pressed := Ended().(flags := NoFlags.(starts := {Raise(User, 3, false)}));
    StepIn(Reachable, Ended(), UserStart, pressed);
    CopiedIn(Reachable, pressed);
    var c := pressed.(rt := pressed.flags, epoch := 4, place := AtHold);
    NoHoldIn(Reachable, c);
    s := c.(place := AtStart);
    actions :| Reaches(actions, s);
  }
}
