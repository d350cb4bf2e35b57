/**
 The realtime executor as a state machine. Interrupts raise flags at any moment; the main
 program copies the flags and handles the copy in stages: hold commands, cycle start, cycle
 stop. While it is suspended it sits in a loop of such passes.

 A raised cycle start remembers who raised it, after how many copies of the flags, and whether a
 hold was complete then.
 */
module Realtime {

  datatype SysState = Idle | Alarm | CheckMode | Homing | Cycle | Hold | Jog | SafetyDoor | Sleep

  /** sys.suspend. */
  datatype Suspend = Suspend(
    holdComplete: bool,
    restartRetract: bool,
    retractComplete: bool,
    initiateRestore: bool,
    restoreComplete: bool,
    doorAjar: bool,
    motionCancel: bool,
    jogCancel: bool)

  const NotSuspended := Suspend(false, false, false, false, false, false, false, false)

  /** Who raises a cycle start: an interrupt for the user, the main program, or the suspend loop for a user's earlier start. */
  datatype Origin = User | Auto | Resume

  /** A raised cycle start: by whom, after how many copies of the flags, and whether a hold was complete then. */
  datatype Raise = Raise(origin: Origin, epoch: nat, held: bool)

  /** sys_rt_exec_state; the cycle start bit is set when `starts` is not empty. */
  datatype Flags = Flags(
    starts: set<Raise>,
    cycleStop: bool,
    feedHold: bool,
    reset: bool,
    safetyDoor: bool,
    motionCancel: bool,
    sleep: bool)

  const NoFlags := Flags({}, false, false, false, false, false, false)

  /** sys.spindle_stop_ovr. */
  datatype SpindleStop = SpindleStop(enabled: bool, initiate: bool, restore: bool, restoreCycle: bool)

  const NoSpindleStop := SpindleStop(false, false, false, false)

  /**
   Where the main program is: outside, between the stages of a pass, in the suspend loop, in
   the delays of the suspend loop while a safety door is restored, or aborted.
   */
  datatype Place =
    | Running
    | AtAlarm | AtCopy | AtHold | AtHoldClear | AtStart | AtStartClear | AtStop | AtStopClear
    | Suspending | Restoring | Aborted

  datatype System = System(
    state: SysState,
    suspend: Suspend,
    executeHold: bool,
    spindleStop: SpindleStop,
    softLimit: bool,
    alarm: bool,
    flags: Flags,
    rt: Flags,
    place: Place,
    restoring: bool,
    epoch: nat,
    heldSince: nat)

  /** A completed feed hold. */
  predicate Held(s: System) {
    s.state == Hold && s.suspend.holdComplete
  }

  // ---------------------------------------------------------------------------
  // The stages of a pass
  // ---------------------------------------------------------------------------

  predicate HoldCommanded(f: Flags) {
    f.motionCancel || f.feedHold || f.safetyDoor || f.sleep
  }

  /** Nothing but the state, the suspend flags and the hold in progress may differ. */
  ghost predicate SameFlags(s: System, t: System) {
    t == s.(state := t.state, suspend := t.suspend, executeHold := t.executeHold, spindleStop := t.spindleStop)
  }

  /** In motion, a hold command starts a deceleration, unless one is under way; a jog is cancelled with it. */
  function BeginDeceleration(s: System): (t: System)
    ensures t == s.(suspend := t.suspend, executeHold := t.executeHold)
    ensures t.suspend.holdComplete == s.suspend.holdComplete
  {
    if (s.state == Cycle || s.state == Jog) && !s.suspend.motionCancel && !s.suspend.jogCancel then
      s.(executeHold := true,
         suspend := if s.state == Jog && !s.rt.sleep then s.suspend.(jogCancel := true) else s.suspend)
    else s
  }

  /** At rest there is nothing to decelerate. */
  function SuspendIdle(s: System): (t: System)
    ensures t == s.(suspend := t.suspend)
  {
    if s.state == Idle then s.(suspend := NotSuspended.(holdComplete := true)) else s
  }

  function CancelMotion(s: System): (t: System)
    ensures t == s.(suspend := t.suspend) && t.suspend.holdComplete == s.suspend.holdComplete
  {
    if s.rt.motionCancel && s.state != Jog then s.(suspend := s.suspend.(motionCancel := true)) else s
  }

  function EnterHold(s: System): (t: System)
    ensures t == s.(state := t.state) && (t.state != s.state ==> t.state == Hold && s.rt.feedHold)
  {
    if s.rt.feedHold && s.state != SafetyDoor && s.state != Jog && s.state != Sleep then s.(state := Hold) else s
  }

  function OpenDoor(s: System): (t: System)
    ensures t == s.(state := t.state, suspend := t.suspend)
    ensures t.suspend.holdComplete == s.suspend.holdComplete
    ensures t.state != s.state ==> t.state == SafetyDoor && s.rt.safetyDoor
  {
    if !s.rt.safetyDoor then s
    else
      var t :=
        if s.suspend.jogCancel then s
        else
          var u := if s.state == SafetyDoor && s.suspend.initiateRestore
                   then s.(suspend := s.suspend.(retractComplete := false, initiateRestore := false,
                                                 restoreComplete := false, restartRetract := true))
                   else s;
          u.(state := if u.state != Sleep then SafetyDoor else Sleep);
      t.(suspend := t.suspend.(doorAjar := true))
  }

  /** Feed hold, motion cancel, safety door, sleep: the part for states other than alarm and check mode. */
  function HoldMotion(s: System): (t: System)
    ensures SameFlags(s, t)
    ensures Held(t) && !Held(s) ==> s.rt.feedHold
    ensures s.state == Hold ==> t.state in {Hold, SafetyDoor}
    ensures Held(s) && !Held(t) ==> s.rt.safetyDoor
  {
    OpenDoor(EnterHold(CancelMotion(SuspendIdle(BeginDeceleration(s)))))
  }

  function HoldStage(s: System): (t: System)
    ensures SameFlags(s, t)
    ensures Held(t) && !Held(s) ==> s.rt.feedHold
    ensures s.state == Hold ==> t.state in {Hold, SafetyDoor, Sleep}
    ensures Held(s) && !Held(t) ==> s.rt.safetyDoor || s.rt.sleep
  {
    if !HoldCommanded(s.rt) then s
    else
      var t := if s.state != Alarm && s.state != CheckMode then HoldMotion(s) else s;
      if s.rt.sleep then
        t.(suspend := if t.state == Alarm then t.suspend.(retractComplete := true, holdComplete := true) else t.suspend,
           state := Sleep)
      else t
  }

  /** The cycle start is not obeyed in the same pass as a hold command. */
  predicate StartBlocked(rt: Flags) {
    rt.feedHold || rt.motionCancel || rt.safetyDoor
  }

  /** With the door closed again, a start restores, and after that resumes. */
  function StartAtDoor(s: System): (t: System)
    ensures t == s.(state := t.state, suspend := t.suspend)
    ensures Held(t) == Held(s)
  {
    if s.state == SafetyDoor && !s.suspend.doorAjar then
      if s.suspend.restoreComplete then s.(state := Idle)
      else if s.suspend.retractComplete then s.(suspend := s.suspend.(initiateRestore := true))
      else s
    else s
  }

  /** Cycle start; `queued` says whether the planner has a block. */
  function StartStage(s: System, queued: bool): (t: System)
    ensures SameFlags(s, t)
    ensures Held(t) ==> Held(s)
    ensures s.state == Hold && t.state != Hold ==> Held(s) && s.rt.starts != {} && !StartBlocked(s.rt)
    ensures Held(s) && !Held(t) ==> t.state != Hold
  {
    if s.rt.starts == {} || StartBlocked(s.rt) then s
    else
      var t := StartAtDoor(s);
      if t.state == Idle || Held(t) then
        if t.state == Hold && t.spindleStop != NoSpindleStop then
          t.(spindleStop := t.spindleStop.(restoreCycle := true))
        else
          t.(executeHold := false, suspend := NotSuspended,
             state := if queued && !t.suspend.motionCancel then Cycle else Idle)
      else t
  }

  /** The motion is done; a door that opened during a jog is handled now. */
  function EndMotion(s: System): (t: System)
    ensures t == s.(state := t.state, suspend := t.suspend, executeHold := t.executeHold)
    ensures t.state in {SafetyDoor, Idle}
  {
    var t := if s.suspend.jogCancel then s.(executeHold := false) else s;
    if t.suspend.doorAjar then
      t.(suspend := t.suspend.(jogCancel := false, holdComplete := true), state := SafetyDoor)
    else t.(suspend := NotSuspended, state := Idle)
  }

  /** Cycle stop: a hold is complete, or the motion is. */
  function StopStage(s: System): (t: System)
    ensures SameFlags(s, t)
    ensures s.state == Hold ==> t.state in {Hold, SafetyDoor, Idle}
    ensures Held(s) && !Held(t) ==> s.rt.cycleStop && (s.softLimit || s.suspend.jogCancel)
  {
    if !s.rt.cycleStop then s
    else if s.state in {Hold, SafetyDoor, Sleep} && !s.softLimit && !s.suspend.jogCancel then
      s.(suspend := s.suspend.(holdComplete := s.suspend.holdComplete || s.executeHold), executeHold := false)
    else EndMotion(s)
  }

  /** Notes the pass in which a feed hold completes. */
  function Noted(s: System, t: System): System {
    if Held(t) && !Held(s) then t.(heldSince := s.epoch) else t
  }

  /** Where a pass returns to: the delay it was called in; otherwise the suspend loop, as long as there is a reason for it. */
  function Returned(s: System): System {
    s.(place := if s.restoring then Restoring else if s.suspend != NotSuspended then Suspending else Running)
  }

  // ---------------------------------------------------------------------------
  // Steps
  // ---------------------------------------------------------------------------

  datatype Action =
    | UserStart
    | RaiseStop
    | RaiseHold
    | RaiseReset
    | RaiseDoor
    | RaiseMotionCancel
    | RaiseSleep
    | RaiseAlarm
    | AutoStart
    | MainSets(state: SysState, softLimit: bool)
    | Pass
    | Stage(queued: bool)
    | SpindleOverride
    | Retracted
    | DoorClosed
    | BeginRestore
    | EndRestore
    | SpindleRestored

  predicate InPass(p: Place) {
    p != Running && p != Suspending && p != Restoring && p != Aborted
  }

  predicate Enabled(s: System, a: Action) {
    match a
    case AutoStart => s.place == Running
    case MainSets(state, _) =>
      // The soft limit may be set in any state.
      s.place == Running
      && (state == s.state || (s.state in {Idle, Alarm, CheckMode, Homing} && state in {Idle, Alarm, CheckMode, Homing, Jog}))
    case Pass => s.place == Running || s.place == Suspending || s.place == Restoring
    case Stage(_) => InPass(s.place)
    case SpindleOverride => InPass(s.place) && s.state == Hold
    case Retracted => s.place == Suspending && s.suspend.holdComplete && s.state in {SafetyDoor, Sleep}
    case DoorClosed => s.place == Suspending && s.suspend.holdComplete && s.suspend.retractComplete && s.state == SafetyDoor
    case BeginRestore =>
      s.place == Suspending && s.suspend.holdComplete && s.suspend.retractComplete && s.suspend.initiateRestore
      && s.state in {SafetyDoor, Sleep}
    case EndRestore => s.place == Restoring
    case SpindleRestored =>
      s.place == Suspending && s.suspend.holdComplete && s.state !in {SafetyDoor, Sleep} && s.spindleStop != NoSpindleStop
    case _ => s.place != Aborted
  }

  function RaiseStart(s: System, origin: Origin): System {
    s.(flags := s.flags.(starts := s.flags.starts + {Raise(origin, s.epoch, Held(s))}))
  }

  function NextStage(s: System, queued: bool): System
    requires InPass(s.place)
  {
    match s.place
    case AtAlarm => (if s.alarm then s.(state := Alarm, alarm := false) else s).(place := AtCopy)
    case AtCopy => s.(rt := s.flags, epoch := s.epoch + 1, place := if s.flags.reset then Aborted else AtHold)
    case AtHold => Noted(s, HoldStage(s)).(place := AtHoldClear)
    case AtHoldClear =>
      (if HoldCommanded(s.rt)
       then s.(flags := s.flags.(motionCancel := false, feedHold := false, safetyDoor := false, sleep := false))
       else s).(place := AtStart)
    case AtStart => StartStage(s, queued).(place := AtStartClear)
    case AtStartClear =>
      (if s.rt.starts != {} then s.(flags := s.flags.(starts := {})) else s).(place := AtStop)
    case AtStop => Noted(s, StopStage(s)).(place := AtStopClear)
    case AtStopClear =>
      Returned(if s.rt.cycleStop then s.(flags := s.flags.(cycleStop := false)) else s)
  }

  /** The spindle stop override, allowed in a hold only. */
  function OverrideSpindle(s: System): (t: System)
    ensures t == s.(spindleStop := t.spindleStop)
  {
    if s.spindleStop == NoSpindleStop then s.(spindleStop := NoSpindleStop.(initiate := true))
    else if s.spindleStop.enabled then s.(spindleStop := s.spindleStop.(restore := true))
    else s
  }

  /** The suspend loop has de-energised the machine for the door or for sleep. */
  function Retract(s: System): (t: System)
    ensures t == s.(spindleStop := t.spindleStop, suspend := t.suspend)
    ensures t.suspend.holdComplete == s.suspend.holdComplete && t.suspend.retractComplete
  {
    if s.suspend.retractComplete then s
    else s.(spindleStop := NoSpindleStop, suspend := s.suspend.(restartRetract := false, retractComplete := true))
  }

  /** The suspend loop has restored the machine after the door, unless the door was opened again. */
  function RestoreDone(s: System): (t: System)
    ensures t == s.(flags := t.flags, suspend := t.suspend, restoring := false)
    ensures t.suspend.holdComplete == s.suspend.holdComplete
  {
    (if s.suspend.restartRetract then s
     else RaiseStart(s.(suspend := s.suspend.(restoreComplete := true)), Resume)).(restoring := false)
  }

  /** The suspend loop's part of the spindle stop override. */
  function RestoreSpindle(s: System): (t: System)
    ensures t == s.(flags := t.flags, spindleStop := t.spindleStop)
  {
    if s.spindleStop.initiate then s.(spindleStop := NoSpindleStop.(enabled := true))
    else if s.spindleStop.restore || s.spindleStop.restoreCycle then
      (if s.spindleStop.restoreCycle then RaiseStart(s, Resume) else s).(spindleStop := NoSpindleStop)
    else s
  }

  function Next(s: System, a: Action): System
    requires Enabled(s, a)
  {
    match a
    case UserStart => RaiseStart(s, User)
    case RaiseStop => s.(flags := s.flags.(cycleStop := true))
    case RaiseHold => s.(flags := s.flags.(feedHold := true))
    case RaiseReset => s.(flags := s.flags.(reset := true))
    case RaiseDoor => s.(flags := s.flags.(safetyDoor := true))
    case RaiseMotionCancel => s.(flags := s.flags.(motionCancel := true))
    case RaiseSleep => s.(flags := s.flags.(sleep := true))
    case RaiseAlarm => s.(alarm := true)
    case AutoStart => RaiseStart(s, Auto)
    case MainSets(state, softLimit) => s.(state := state, softLimit := softLimit)
    case Pass => s.(place := AtAlarm)
    case Stage(queued) => NextStage(s, queued)
    case SpindleOverride => OverrideSpindle(s)
    case Retracted => Retract(s)
    case DoorClosed => s.(suspend := s.suspend.(doorAjar := false))
    case BeginRestore => s.(place := Restoring, restoring := true)
    case EndRestore => Returned(RestoreDone(s))
    case SpindleRestored => RestoreSpindle(s)
  }

  // ---------------------------------------------------------------------------
  // The invariant
  // ---------------------------------------------------------------------------

  /**
   Raised no earlier than the copy with which the hold was completed, not by the main program itself, and
   on the complete hold unless it was in the same pass.
   */
  predicate Fresh(r: Raise, since: nat) {
    r.origin != Auto && r.epoch >= since && (r.epoch > since ==> r.held)
  }

  ghost predicate AllFresh(starts: set<Raise>, since: nat) {
    forall r | r in starts :: Fresh(r, since)
  }

  /** The main program runs only while nothing suspends it. */
  predicate MainIsBlocked(s: System) {
    s.place == Running ==> s.suspend == NotSuspended && !s.restoring
  }

  predicate CopyIsDone(p: Place) {
    p in {AtHold, AtHoldClear, AtStart, AtStartClear}
  }

  /** Until the cycle start of this pass has been cleared, only the starts in the copy are older than the copy. */
  ghost predicate CopyOk(s: System) {
    && (CopyIsDone(s.place) ==>
          && (forall r | r in s.rt.starts :: r.epoch < s.epoch)
          && AllFresh(s.flags.starts - s.rt.starts, s.epoch))
    && (s.place in {AtStop, AtStopClear} ==> AllFresh(s.flags.starts, s.epoch))
    && (forall r | r in s.flags.starts :: r.epoch <= s.epoch)
  }

  /** While a hold is complete, stale starts are left only in the pass that completed it, where they are never obeyed. */
  ghost predicate HeldOk(s: System) {
    Held(s) ==>
      && s.place != Running
      && s.heldSince <= s.epoch
      && (CopyIsDone(s.place) ==>
            || (s.heldSince < s.epoch && AllFresh(s.rt.starts, s.heldSince) && AllFresh(s.flags.starts, s.heldSince))
            || (s.heldSince == s.epoch && s.place != AtHold && s.rt.feedHold))
      && (!CopyIsDone(s.place) ==> AllFresh(s.flags.starts, s.heldSince))
  }

  ghost predicate Inv(s: System) {
    MainIsBlocked(s) && CopyOk(s) && HeldOk(s)
  }

  lemma AlarmKeepsInv(s: System)
    requires Inv(s) && s.place == AtAlarm
    ensures Inv(NextStage(s, false))
  {
  }

  lemma CopyKeepsInv(s: System)
    requires Inv(s) && s.place == AtCopy
    ensures Inv(NextStage(s, false))
  {
  }

  lemma HoldKeepsInv(s: System)
    requires Inv(s) && s.place == AtHold
    ensures Inv(NextStage(s, false))
  {
  }

  lemma HoldClearKeepsInv(s: System)
    requires Inv(s) && s.place == AtHoldClear
    ensures Inv(NextStage(s, false))
  {
  }

  lemma StartKeepsInv(s: System, queued: bool)
    requires Inv(s) && s.place == AtStart
    ensures Inv(NextStage(s, queued))
  {
  }

  lemma StartClearKeepsInv(s: System)
    requires Inv(s) && s.place == AtStartClear
    ensures Inv(NextStage(s, false))
  {
    if s.rt.starts == {} { assert s.flags.starts - s.rt.starts == s.flags.starts; }
  }

  lemma StopKeepsInv(s: System)
    requires Inv(s) && s.place == AtStop
    ensures Inv(NextStage(s, false))
  {
  }

  lemma StopClearKeepsInv(s: System)
    requires Inv(s) && s.place == AtStopClear
    ensures Inv(NextStage(s, false))
  {
  }

  lemma StageKeepsInv(s: System, queued: bool)
    requires Inv(s) && InPass(s.place)
    ensures Inv(NextStage(s, queued))
  {
    match s.place
    case AtAlarm => AlarmKeepsInv(s);
    case AtCopy => CopyKeepsInv(s);
    case AtHold => HoldKeepsInv(s);
    case AtHoldClear => HoldClearKeepsInv(s);
    case AtStart => StartKeepsInv(s, queued);
    case AtStartClear => StartClearKeepsInv(s);
    case AtStop => StopKeepsInv(s);
    case AtStopClear => StopClearKeepsInv(s);
  }

  lemma RaiseKeepsInv(s: System, origin: Origin)
    requires Inv(s) && (origin == Auto ==> s.place == Running)
    ensures Inv(RaiseStart(s, origin))
  {
    var r := Raise(origin, s.epoch, Held(s));
    if CopyIsDone(s.place) { assert r !in s.rt.starts; }
  }

  lemma EndRestoreKeepsInv(s: System)
    requires Inv(s) && s.place == Restoring
    ensures Inv(Next(s, EndRestore))
  {
    if !s.suspend.restartRetract {
      var t := s.(suspend := s.suspend.(restoreComplete := true));
      RaiseKeepsInv(t, Resume);
    }
  }

  lemma SpindleRestoredKeepsInv(s: System)
    requires Inv(s) && Enabled(s, SpindleRestored)
    ensures Inv(Next(s, SpindleRestored))
  {
    RaiseKeepsInv(s, Resume);
  }

  lemma NextKeepsInv(s: System, a: Action)
    requires Inv(s) && Enabled(s, a)
    ensures Inv(Next(s, a))
  {
    match a
    case UserStart => RaiseKeepsInv(s, User);
    case AutoStart => RaiseKeepsInv(s, Auto);
    case Stage(queued) => StageKeepsInv(s, queued);
    case EndRestore => EndRestoreKeepsInv(s);
    case SpindleRestored => SpindleRestoredKeepsInv(s);
    case _ => OtherKeepsInv(s, a);
  }

  lemma OtherKeepsInv(s: System, a: Action)
    requires Inv(s) && Enabled(s, a)
    requires !a.UserStart? && !a.AutoStart? && !a.Stage? && !a.EndRestore? && !a.SpindleRestored?
    ensures Inv(Next(s, a))
  {
  }

  // ---------------------------------------------------------------------------
  // Runs
  // ---------------------------------------------------------------------------

  /** After initialisation: no flag, nothing suspended, idle or locked. */
  predicate Initial(s: System) {
    && s.state in {Idle, Alarm} && s.suspend == NotSuspended && !s.executeHold && s.spindleStop == NoSpindleStop
    && s.flags == NoFlags && s.place == Running && !s.restoring
  }

  ghost predicate Reaches(actions: seq<Action>, s: System)
    decreases |actions|
  {
    if actions == [] then Initial(s)
    else
      var n := |actions| - 1;
      exists t {:trigger Reaches(actions[..n], t)} ::
        Reaches(actions[..n], t) && Enabled(t, actions[n]) && s == Next(t, actions[n])
  }

  lemma {:induction false} ReachableInv(actions: seq<Action>, s: System)
    requires Reaches(actions, s)
    ensures Inv(s)
    decreases |actions|
  {
    if actions != [] {
      var n := |actions| - 1;
      var t :| Reaches(actions[..n], t) && Enabled(t, actions[n]) && s == Next(t, actions[n]);
      ReachableInv(actions[..n], t);
      NextKeepsInv(t, actions[n]);
    }
  }

  /**
   A hold is never resumed by the main program's own cycle start. In every interleaving with the
   interrupts, a step takes a hold to the cycle state only if the hold is complete, and it then obeys a
   cycle start that no hold command accompanies. Every raise of it came from the user or the suspend
   loop, and either on the complete hold or in the very pass that completed it, after the copy.
   */
  lemma HoldIsNotAutoResumed(actions: seq<Action>, s: System, a: Action)
    requires Reaches(actions, s) && Enabled(s, a)
    requires s.state == Hold && Next(s, a).state == Cycle
    ensures a.Stage? && s.place == AtStart && Held(s)
    ensures s.rt.starts != {} && !StartBlocked(s.rt)
    ensures forall r | r in s.rt.starts :: r.origin in {User, Resume}
    ensures forall r | r in s.rt.starts :: (r.held && r.epoch >= s.heldSince) || r.epoch == s.heldSince
  {
    ReachableInv(actions, s);
    OnlyStartResumes(s, a);
  }

  /** Outside the stages of a pass a hold stays what it is. */
  lemma OthersKeepHold(s: System, a: Action)
    requires Enabled(s, a) && !a.Stage? && s.state == Hold
    ensures Next(s, a).state == Hold && Next(s, a).suspend.holdComplete == s.suspend.holdComplete
  {
  }

  lemma StageLeavesHold(s: System, queued: bool)
    requires InPass(s.place) && s.state == Hold
    ensures var t := NextStage(s, queued);
            && (t.state == Cycle ==> s.place == AtStart && Held(s) && s.rt.starts != {} && !StartBlocked(s.rt))
            && (Held(s) && !Held(t) ==>
                  || (s.place == AtAlarm && s.alarm)
                  || (s.place == AtHold && (s.rt.safetyDoor || s.rt.sleep))
                  || (s.place == AtStart && s.rt.starts != {} && !StartBlocked(s.rt))
                  || (s.place == AtStop && s.rt.cycleStop && (s.softLimit || s.suspend.jogCancel)))
  {
    var t := NextStage(s, queued);
    match s.place
    case AtHold => assert t.state == HoldStage(s).state && t.suspend == HoldStage(s).suspend;
    case AtStart => assert t.state == StartStage(s, queued).state && t.suspend == StartStage(s, queued).suspend;
    case AtStop => assert t.state == StopStage(s).state && t.suspend == StopStage(s).suspend;
    case _ =>
  }

  lemma OnlyStartResumes(s: System, a: Action)
    requires Enabled(s, a) && s.state == Hold && Next(s, a).state == Cycle
    ensures a.Stage? && s.place == AtStart && Held(s) && s.rt.starts != {} && !StartBlocked(s.rt)
  {
    if !a.Stage? { OthersKeepHold(s, a); } else { StageLeavesHold(s, a.queued); }
  }

  /** The main program gets on with its work only while no suspend flag is set. */
  lemma MainIsBlockedWhileSuspended(actions: seq<Action>, s: System)
    requires Reaches(actions, s) && s.suspend != NotSuspended
    ensures s.place != Running
    ensures !Enabled(s, AutoStart)
  {
    ReachableInv(actions, s);
  }

  /** What may end a completed hold: an alarm, the door, sleep, or a start that is not the main program's own. */
  lemma HeldEndsOnlyBy(actions: seq<Action>, s: System, a: Action)
    requires Reaches(actions, s) && Enabled(s, a) && Held(s) && !Held(Next(s, a))
    ensures a.Stage?
    ensures || (s.place == AtAlarm && s.alarm)
            || (s.place == AtHold && (s.rt.safetyDoor || s.rt.sleep))
            || (s.place == AtStart && s.rt.starts != {} && !StartBlocked(s.rt)
                && AllFresh(s.rt.starts, s.heldSince))
            || (s.place == AtStop && s.rt.cycleStop && (s.softLimit || s.suspend.jogCancel))
  {
    ReachableInv(actions, s);
    if !a.Stage? { OthersKeepHold(s, a); } else { StageLeavesHold(s, a.queued); }
  }

  // ---------------------------------------------------------------------------
  // The stages in their own form
  // ---------------------------------------------------------------------------

  /** The variables of protocol_exec_rt_system. */
  class Executor {
    var state: SysState
    var suspend: Suspend
    var executeHold: bool
    var spindleStop: SpindleStop
    var softLimit: bool
    var alarm: bool
    var flags: Flags

    /** After initialisation. */
    constructor (locked: bool)
      ensures state == (if locked then Alarm else Idle) && suspend == NotSuspended && flags == NoFlags
    {
      state := if locked then Alarm else Idle;
      suspend, executeHold, spindleStop := NotSuspended, false, NoSpindleStop;
      softLimit, alarm, flags := false, false, NoFlags;
    }

    /** The system `rest` with the variables of this object. */
    function View(rest: System): System
      reads this
    {
      rest.(state := state, suspend := suspend, executeHold := executeHold, spindleStop := spindleStop,
            softLimit := softLimit, alarm := alarm, flags := flags)
    }

    method DoorCommand(rt: Flags, ghost rest: System)
      requires rest.rt == rt
      modifies this`state, this`suspend
      ensures View(rest) == OpenDoor(old(View(rest)))
    {
      if rt.safetyDoor {
        if !suspend.jogCancel {
          if state == SafetyDoor && suspend.initiateRestore {
            suspend := suspend.(retractComplete := false, initiateRestore := false, restoreComplete := false,
                                restartRetract := true);
          }
          if state != Sleep { state := SafetyDoor; }
        }
        suspend := suspend.(doorAjar := true);
      }
    }

    method Decelerate(rt: Flags, ghost rest: System)
      requires rest.rt == rt
      modifies this`suspend, this`executeHold
      ensures View(rest) == SuspendIdle(BeginDeceleration(old(View(rest))))
    {
      if state == Cycle || state == Jog {
        if !suspend.motionCancel && !suspend.jogCancel {
          executeHold := true;
          if state == Jog && !rt.sleep { suspend := suspend.(jogCancel := true); }
        }
      }
      if state == Idle { suspend := NotSuspended.(holdComplete := true); }
    }

    method CancelAndHold(rt: Flags, ghost rest: System)
      requires rest.rt == rt
      modifies this`state, this`suspend
      ensures View(rest) == EnterHold(CancelMotion(old(View(rest))))
    {
      if rt.motionCancel {
        if state != Jog { suspend := suspend.(motionCancel := true); }
      }
      if rt.feedHold {
        if state != SafetyDoor && state != Jog && state != Sleep { state := Hold; }
      }
    }

    method HoldMotionCommands(rt: Flags, ghost rest: System)
      requires rest.rt == rt
      modifies this`state, this`suspend, this`executeHold
      ensures View(rest) == HoldMotion(old(View(rest)))
    {
      Decelerate(rt, rest);
      CancelAndHold(rt, rest);
      DoorCommand(rt, rest);
    }

    /** Motion cancel, feed hold, safety door and sleep. */
    method HoldCommands(rt: Flags, ghost rest: System)
      requires rest.rt == rt
      modifies this`state, this`suspend, this`executeHold
      ensures View(rest) == HoldStage(old(View(rest)))
    {
      if HoldCommanded(rt) {
        if state != Alarm && state != CheckMode { HoldMotionCommands(rt, rest); }
        if rt.sleep {
          if state == Alarm { suspend := suspend.(retractComplete := true, holdComplete := true); }
          state := Sleep;
        }
      }
    }

    /** Cycle start; true if the step generator is woken. */
    method CycleStart(rt: Flags, queued: bool, ghost rest: System) returns (woken: bool)
      requires rest.rt == rt
      modifies this`state, this`suspend, this`executeHold, this`spindleStop
      ensures View(rest) == StartStage(old(View(rest)), queued)
      ensures woken <==> state == Cycle && old(state) != Cycle
      ensures woken ==> suspend == NotSuspended
    {
      woken := false;
      if rt.starts != {} && !StartBlocked(rt) {
        if state == SafetyDoor && !suspend.doorAjar {
          if suspend.restoreComplete {
            state := Idle;
          } else if suspend.retractComplete {
            suspend := suspend.(initiateRestore := true);
          }
        }
        if state == Idle || (state == Hold && suspend.holdComplete) {
          if state == Hold && spindleStop != NoSpindleStop {
            spindleStop := spindleStop.(restoreCycle := true);
          } else {
            executeHold := false;
            woken := queued && !suspend.motionCancel;
            suspend := NotSuspended;
            state := if woken then Cycle else Idle;
          }
        }
      }
    }

    /** The motion is done, or a jog has been cancelled. */
    method MotionDone(ghost rest: System) returns (flush: bool)
      modifies this`state, this`suspend, this`executeHold
      ensures View(rest) == EndMotion(old(View(rest))) && flush == old(suspend.jogCancel)
    {
      flush := suspend.jogCancel;
      if suspend.jogCancel { executeHold := false; }
      if suspend.doorAjar {
        suspend := suspend.(jogCancel := false, holdComplete := true);
        state := SafetyDoor;
      } else {
        suspend := NotSuspended;
        state := Idle;
      }
    }

    /** Cycle stop; what it asks of planner and step generator: a replan from rest, or a reset of both. */
    method CycleStop(rt: Flags, ghost rest: System) returns (replan: bool, flush: bool)
      requires rest.rt == rt
      modifies this`state, this`suspend, this`executeHold
      ensures View(rest) == StopStage(old(View(rest)))
      ensures replan <==> rt.cycleStop && old(state in {Hold, SafetyDoor, Sleep} && !softLimit && !suspend.jogCancel)
      ensures flush <==> rt.cycleStop && old(suspend.jogCancel)
    {
      replan, flush := false, false;
      if rt.cycleStop {
        replan := state in {Hold, SafetyDoor, Sleep} && !softLimit && !suspend.jogCancel;
        if replan {
          if executeHold { suspend := suspend.(holdComplete := true); }
          executeHold := false;
        } else {
          flush := MotionDone(rest);
        }
      }
    }

    method HoldPart(rt: Flags, ghost rest: System)
      requires rest.rt == rt
      modifies this`state, this`suspend, this`executeHold, this`flags
      ensures View(rest) == QuietHold(old(View(rest)))
    {
      HoldCommands(rt, rest);
      if HoldCommanded(rt) {
        flags := flags.(motionCancel := false, feedHold := false, safetyDoor := false, sleep := false);
      }
    }

    method StartPart(rt: Flags, queued: bool, ghost rest: System)
      requires rest.rt == rt
      modifies this`state, this`suspend, this`executeHold, this`spindleStop, this`flags
      ensures View(rest) == QuietStart(old(View(rest)), queued)
    {
      var woken := CycleStart(rt, queued, rest);
      if rt.starts != {} { flags := flags.(starts := {}); }
    }

    method StopPart(rt: Flags, ghost rest: System)
      requires rest.rt == rt
      modifies this`state, this`suspend, this`executeHold, this`flags
      ensures View(rest) == QuietStop(old(View(rest)))
    {
      var replan, flush := CycleStop(rt, rest);
      if rt.cycleStop { flags := flags.(cycleStop := false); }
    }

    method AlarmPart(ghost rest: System)
      modifies this`state, this`alarm
      ensures View(rest) == Alarmed(old(View(rest))) && flags == old(flags)
    {
      if alarm {
        state := Alarm;
        alarm := false;
      }
    }

    /** protocol_exec_rt_system, when no interrupt strikes meanwhile; overrides and reports left aside. */
    method ExecRtSystem(queued: bool, ghost rest: System) returns (aborted: bool)
      requires rest.rt == flags
      modifies this
      ensures aborted <==> old(flags.reset)
      ensures View(rest) == if aborted then Alarmed(old(View(rest))) else Quiet(old(View(rest)), queued)
    {
      AlarmPart(rest);
      var rt := flags;
      if rt.reset { return true; }
      HoldPart(rt, rest);
      StartPart(rt, queued, rest);
      StopPart(rt, rest);
      aborted := false;
    }
  }

  function Alarmed(s: System): System {
    if s.alarm then s.(state := Alarm, alarm := false) else s
  }

  function QuietHold(s: System): System {
    var t := HoldStage(s);
    if HoldCommanded(s.rt)
    then t.(flags := t.flags.(motionCancel := false, feedHold := false, safetyDoor := false, sleep := false)) else t
  }

  function QuietStart(s: System, queued: bool): System {
    var t := StartStage(s, queued);
    if s.rt.starts != {} then t.(flags := t.flags.(starts := {})) else t
  }

  function QuietStop(s: System): System {
    var t := StopStage(s);
    if s.rt.cycleStop then t.(flags := t.flags.(cycleStop := false)) else t
  }

  /** A pass in which no interrupt strikes, on the copy `s.rt` of the flags. */
  function Quiet(s: System, queued: bool): System {
    QuietStop(QuietStart(QuietHold(Alarmed(s)), queued))
  }
}
