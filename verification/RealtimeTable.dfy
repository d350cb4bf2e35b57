/**
 What every stage of a pass does to state, suspend flags and hold, as tables over the flags; and what this
 means for the safety door.
 */
module RealtimeTable {
  import opened Realtime
  import opened RealtimeRuns

  // ---------------------------------------------------------------------------
  // Hold commands
  // ---------------------------------------------------------------------------

  predicate Commanded(s: System) {
    s.rt.motionCancel || s.rt.feedHold || s.rt.safetyDoor || s.rt.sleep
  }

  /** Neither in alarm nor in check mode. */
  predicate MayHold(s: System) {
    s.state != Alarm && s.state != CheckMode
  }

  /** A motion that is not being cancelled already. */
  predicate MayDecelerate(s: System) {
    (s.state == Cycle || s.state == Jog) && !s.suspend.motionCancel && !s.suspend.jogCancel
  }

  /** A jog is being cancelled, from now on or already. */
  predicate JogCancelled(s: System) {
    s.state != Idle && (s.suspend.jogCancel || (s.state == Jog && MayDecelerate(s) && !s.rt.sleep))
  }

  /** The state after the hold commands: sleep beats the door, the door beats the hold, and a jog is cancelled first. */
  function StateHeld(s: System): SysState {
    if s.rt.sleep then Sleep
    else if !MayHold(s) then s.state
    else if s.rt.safetyDoor && s.state != Sleep && !JogCancelled(s) then SafetyDoor
    else if s.rt.feedHold && s.state !in {SafetyDoor, Jog, Sleep} then Hold
    else s.state
  }

  /** The door opens again while the machine is restored after it. */
  predicate RestoreInterrupted(s: System) {
    s.rt.safetyDoor && s.state == SafetyDoor && s.suspend.initiateRestore && !JogCancelled(s)
  }

  lemma DecelerationTable(s: System)
    requires s.state != Idle
    ensures SuspendIdle(BeginDeceleration(s)) ==
              s.(executeHold := s.executeHold || MayDecelerate(s), suspend := s.suspend.(jogCancel := JogCancelled(s)))
  {
  }

  lemma CancelTable(s: System)
    ensures EnterHold(CancelMotion(s)) ==
              s.(suspend := s.suspend.(motionCancel := s.suspend.motionCancel || (s.rt.motionCancel && s.state != Jog)),
                 state := if s.rt.feedHold && s.state !in {SafetyDoor, Jog, Sleep} then Hold else s.state)
  {
  }

  /** The door, on the state before it. */
  lemma DoorTable(s: System)
    ensures var again := s.rt.safetyDoor && !s.suspend.jogCancel && s.state == SafetyDoor && s.suspend.initiateRestore;
            OpenDoor(s) ==
              s.(state := if s.rt.safetyDoor && !s.suspend.jogCancel && s.state != Sleep then SafetyDoor else s.state,
                 suspend := s.suspend.(
                   doorAjar := s.suspend.doorAjar || s.rt.safetyDoor,
                   retractComplete := s.suspend.retractComplete && !again,
                   initiateRestore := s.suspend.initiateRestore && !again,
                   restoreComplete := s.suspend.restoreComplete && !again,
                   restartRetract := s.suspend.restartRetract || again))
  {
  }

  /** At rest the hold is complete at once. */
  lemma HoldAtRest(s: System)
    requires Commanded(s) && s.state == Idle
    ensures var t := HoldMotion(s);
            && t.state == (if s.rt.safetyDoor then SafetyDoor else if s.rt.feedHold then Hold else Idle)
            && t.suspend == NotSuspended.(holdComplete := true, motionCancel := s.rt.motionCancel, doorAjar := s.rt.safetyDoor)
            && t.executeHold == s.executeHold
  {
  }

  lemma HoldInMotion(s: System)
    requires Commanded(s) && s.state != Idle && MayHold(s)
    ensures var t := HoldMotion(s);
            && t.state == (if s.rt.safetyDoor && s.state != Sleep && !JogCancelled(s) then SafetyDoor
                           else if s.rt.feedHold && s.state !in {SafetyDoor, Jog, Sleep} then Hold
                           else s.state)
            && t.executeHold == (s.executeHold || MayDecelerate(s))
            && t.suspend == s.suspend.(
                 jogCancel := JogCancelled(s),
                 motionCancel := s.suspend.motionCancel || (s.rt.motionCancel && s.state != Jog),
                 doorAjar := s.suspend.doorAjar || s.rt.safetyDoor,
                 retractComplete := s.suspend.retractComplete && !RestoreInterrupted(s),
                 initiateRestore := s.suspend.initiateRestore && !RestoreInterrupted(s),
                 restoreComplete := s.suspend.restoreComplete && !RestoreInterrupted(s),
                 restartRetract := s.suspend.restartRetract || RestoreInterrupted(s))
  {
    var d := SuspendIdle(BeginDeceleration(s));
    DecelerationTable(s);
    CancelTable(d);
    DoorTable(EnterHold(CancelMotion(d)));
  }

  /** In alarm, sleep is the only hold command that does anything; in check mode it only changes the state. */
  lemma HoldBlocked(s: System)
    requires Commanded(s) && !MayHold(s)
    ensures var t := HoldStage(s);
            && t.state == (if s.rt.sleep then Sleep else s.state) && t.executeHold == s.executeHold
            && t.suspend == (if s.state == Alarm && s.rt.sleep then s.suspend.(retractComplete := true, holdComplete := true)
                             else s.suspend)
  {
  }

  lemma SleepAfter(s: System)
    requires Commanded(s) && MayHold(s) && HoldMotion(s).state != Alarm
    ensures HoldStage(s).state == if s.rt.sleep then Sleep else HoldMotion(s).state
    ensures HoldStage(s).executeHold == HoldMotion(s).executeHold && HoldStage(s).suspend == HoldMotion(s).suspend
  {
  }

  lemma HoldAllowed(s: System)
    requires Commanded(s) && MayHold(s)
    ensures HoldStage(s).state == StateHeld(s)
    ensures HoldStage(s).executeHold == (s.executeHold || MayDecelerate(s)) && HoldStage(s).suspend == HoldMotion(s).suspend
  {
    if s.state == Idle { HoldAtRest(s); } else { HoldInMotion(s); }
    SleepAfter(s);
  }

  /** What the hold commands do to state and hold, in every state. */
  lemma HoldTable(s: System)
    ensures HoldStage(s).state == if !Commanded(s) then s.state else StateHeld(s)
    ensures HoldStage(s).executeHold == (s.executeHold || (Commanded(s) && MayDecelerate(s)))
    ensures HoldStage(s).suspend ==
              if !Commanded(s) then s.suspend
              else if MayHold(s) then HoldMotion(s).suspend
              else if s.state == Alarm && s.rt.sleep then s.suspend.(retractComplete := true, holdComplete := true)
              else s.suspend
  {
    if !Commanded(s) {
      assert HoldStage(s) == s;
    } else if MayHold(s) {
      HoldAllowed(s);
    } else {
      HoldBlocked(s);
    }
  }

  // ---------------------------------------------------------------------------
  // Cycle start and cycle stop
  // ---------------------------------------------------------------------------

  /** A start that comes alone. */
  predicate Started(s: System) {
    s.rt.starts != {} && !s.rt.feedHold && !s.rt.motionCancel && !s.rt.safetyDoor
  }

  /** At rest, in a complete hold, or restored after the door. */
  predicate Ready(s: System) {
    || s.state == Idle
    || (s.state == Hold && s.suspend.holdComplete && s.spindleStop == NoSpindleStop)
    || (s.state == SafetyDoor && !s.suspend.doorAjar && s.suspend.restoreComplete)
  }

  /** The door is closed and the machine still retracted. */
  predicate MayRestore(s: System) {
    s.state == SafetyDoor && !s.suspend.doorAjar && s.suspend.retractComplete && !s.suspend.restoreComplete
  }

  /**
   What a cycle start does: a ready machine goes into the cycle if a block is queued and no motion cancel is
   flagged, and to idle otherwise, unsuspended and with no hold executing; a retracted one behind a closed door
   begins to be restored; a hold with the spindle stopped notes that the spindle is to be restored first;
   nothing else happens.
   */
  lemma StartTable(s: System, queued: bool)
    ensures var t := StartStage(s, queued);
            t == if !Started(s) then s
                 else if Ready(s) then
                   s.(state := if queued && !s.suspend.motionCancel then Cycle else Idle,
                      suspend := NotSuspended, executeHold := false)
                 else if MayRestore(s) then s.(suspend := s.suspend.(initiateRestore := true))
                 else if Held(s) then s.(spindleStop := s.spindleStop.(restoreCycle := true))
                 else s
  {
  }

  /** A cycle stop that completes a hold. */
  predicate StopsHold(s: System) {
    s.state in {Hold, SafetyDoor, Sleep} && !s.softLimit && !s.suspend.jogCancel
  }

  /** What a cycle stop does: it completes a hold that executes; otherwise the motion is over, and the machine idle or behind its door. */
  lemma StopTable(s: System)
    ensures var t := StopStage(s);
            t == if !s.rt.cycleStop then s
                 else if StopsHold(s) then
                   s.(suspend := s.suspend.(holdComplete := s.suspend.holdComplete || s.executeHold), executeHold := false)
                 else if s.suspend.doorAjar then
                   s.(state := SafetyDoor, suspend := s.suspend.(jogCancel := false, holdComplete := true),
                      executeHold := s.executeHold && !s.suspend.jogCancel)
                 else s.(state := Idle, suspend := NotSuspended, executeHold := s.executeHold && !s.suspend.jogCancel)
  {
  }

  // ---------------------------------------------------------------------------
  // The safety door
  // ---------------------------------------------------------------------------

  /** Steps outside the three stages never change the state to the cycle, nor the door's part of the suspend flags. */
  lemma OtherStages(s: System, queued: bool)
    requires InPass(s.place) && s.place !in {AtHold, AtStart, AtStop}
    ensures var t := NextStage(s, queued); t.suspend == s.suspend && t.state in {s.state, Alarm}
  {
  }

  lemma StageOfDoor(s: System, queued: bool)
    requires InPass(s.place)
    ensures var t := NextStage(s, queued);
            && (s.place == AtHold ==> t.state == HoldStage(s).state && t.suspend == HoldStage(s).suspend)
            && (s.place == AtStart ==> t.state == StartStage(s, queued).state && t.suspend == StartStage(s, queued).suspend)
            && (s.place == AtStop ==> t.state == StopStage(s).state && t.suspend == StopStage(s).suspend)
  {
  }

  /**
   In every interleaving a step takes the machine from the door into the cycle if and only if it is the start
   stage of a pass with a start that comes alone, with the door closed, the machine restored, a block queued
   and no motion cancel.
   */
  lemma DoorToCycleExactly(s: System, a: Action)
    requires Enabled(s, a) && s.state == SafetyDoor
    ensures Next(s, a).state == Cycle <==>
              && s.place == AtStart && a.Stage? && a.queued
              && s.rt.starts != {} && !s.rt.feedHold && !s.rt.motionCancel && !s.rt.safetyDoor
              && !s.suspend.doorAjar && s.suspend.restoreComplete && !s.suspend.motionCancel
  {
    if a.Stage? {
      StageOfDoor(s, a.queued);
      if s.place == AtHold {
        HoldTable(s);
      } else if s.place == AtStart {
        StartTable(s, a.queued);
      } else if s.place == AtStop {
        StopTable(s);
      } else {
        OtherStages(s, a.queued);
      }
    }
  }

  /** The suspend flags change only in the three stages, and when the suspend loop retracts, closes the door or has restored. */
  lemma OthersKeepSuspend(s: System, a: Action)
    requires Enabled(s, a) && !a.Stage?
    ensures Next(s, a).suspend ==
              match a
              case Retracted =>
                if s.suspend.retractComplete then s.suspend
                else s.suspend.(restartRetract := false, retractComplete := true)
              case DoorClosed => s.suspend.(doorAjar := false)
              case EndRestore => if s.suspend.restartRetract then s.suspend else s.suspend.(restoreComplete := true)
              case _ => s.suspend
  {
  }

  lemma HoldKeepsRestore(s: System)
    ensures HoldStage(s).suspend.initiateRestore ==> s.suspend.initiateRestore
    ensures HoldStage(s).suspend.restoreComplete ==> s.suspend.restoreComplete
  {
    HoldTable(s);
    if Commanded(s) && MayHold(s) {
      if s.state == Idle { HoldAtRest(s); } else { HoldInMotion(s); }
    }
  }

  predicate RestoreBegins(s: System) {
    && s.rt.starts != {} && !s.rt.feedHold && !s.rt.motionCancel && !s.rt.safetyDoor
    && s.state == SafetyDoor && !s.suspend.doorAjar && s.suspend.retractComplete && !s.suspend.restoreComplete
  }

  lemma StartRestores(s: System, queued: bool)
    ensures !s.suspend.initiateRestore ==> (StartStage(s, queued).suspend.initiateRestore <==> RestoreBegins(s))
    ensures StartStage(s, queued).suspend.restoreComplete ==> s.suspend.restoreComplete
  {
    StartTable(s, queued);
  }

  lemma StopRestores(s: System)
    ensures StopStage(s).suspend.initiateRestore ==> s.suspend.initiateRestore
    ensures StopStage(s).suspend.restoreComplete ==> s.suspend.restoreComplete
  {
    StopTable(s);
  }

  lemma StageRestores(s: System, queued: bool)
    requires InPass(s.place)
    ensures !s.suspend.initiateRestore ==>
              (NextStage(s, queued).suspend.initiateRestore <==> s.place == AtStart && RestoreBegins(s))
    ensures NextStage(s, queued).suspend.restoreComplete ==> s.suspend.restoreComplete
  {
    HoldKeepsRestore(s);
    StartRestores(s, queued);
    StopRestores(s);
    StageOfDoor(s, queued);
    if s.place !in {AtHold, AtStart, AtStop} { OtherStages(s, queued); }
  }

  /**
   The restore begins exactly with a start that comes alone behind a closed door, with the machine retracted
   and not yet restored; and the machine counts as restored exactly when the suspend loop has finished it and
   the door has not been opened again.
   */
  lemma RestoreExactly(s: System, a: Action)
    requires Enabled(s, a)
    ensures !s.suspend.initiateRestore ==>
              (Next(s, a).suspend.initiateRestore <==>
                && s.place == AtStart && a.Stage?
                && s.rt.starts != {} && !s.rt.feedHold && !s.rt.motionCancel && !s.rt.safetyDoor
                && s.state == SafetyDoor && !s.suspend.doorAjar
                && s.suspend.retractComplete && !s.suspend.restoreComplete)
    ensures !s.suspend.restoreComplete ==>
              (Next(s, a).suspend.restoreComplete <==> a == EndRestore && !s.suspend.restartRetract)
  {
    if a.Stage? { StageRestores(s, a.queued); } else { OthersKeepSuspend(s, a); }
  }

  lemma {:induction false} RestoredByRestoring(s: System, actions: seq<Action>)
    requires Runs(s, actions) && !s.suspend.restoreComplete && After(s, actions).suspend.restoreComplete
    ensures EndRestore in actions
    decreases |actions|
  {
    if actions != [] {
      RestoreExactly(s, actions[0]);
      if !Next(s, actions[0]).suspend.restoreComplete { RestoredByRestoring(Next(s, actions[0]), actions[1..]); }
    }
  }

  /** Over every run: a machine that is not restored goes from the door into the cycle only after the suspend loop has restored it. */
  lemma NoCycleUnrestored(s: System, actions: seq<Action>, a: Action)
    requires Runs(s, actions) && !s.suspend.restoreComplete
    requires var t := After(s, actions); t.state == SafetyDoor && Enabled(t, a) && Next(t, a).state == Cycle
    ensures EndRestore in actions
  {
    DoorToCycleExactly(After(s, actions), a);
    RestoredByRestoring(s, actions);
  }

  /** A start on a cancelled motion ends in idle, unsuspended, whatever is queued. */
  lemma CancelledStartEndsIdle(s: System, queued: bool)
    requires s.state == Idle && s.suspend.motionCancel && s.rt.starts != {}
    requires !s.rt.feedHold && !s.rt.motionCancel && !s.rt.safetyDoor
    ensures StartStage(s, queued).state == Idle && StartStage(s, queued).suspend == NotSuspended
  {
    StartTable(s, queued);
  }

  // ---------------------------------------------------------------------------
  // Flags, places and the spindle
  // ---------------------------------------------------------------------------

  lemma HandlingKeepsFlags(s: System, queued: bool)
    requires s.place in {AtHold, AtStart, AtStop}
    ensures NextStage(s, queued).rt == s.rt && NextStage(s, queued).flags == s.flags && NextStage(s, queued).alarm == s.alarm
  {
    assert SameFlags(s, HoldStage(s)) && SameFlags(s, StartStage(s, queued)) && SameFlags(s, StopStage(s));
  }

  /** A pass copies the flags once, and clears each flag after the stage that has handled it, if the copy has it. */
  lemma FlagsTable(s: System, queued: bool)
    requires InPass(s.place)
    ensures NextStage(s, queued).rt == if s.place == AtCopy then s.flags else s.rt
    ensures NextStage(s, queued).flags ==
              if s.place == AtHoldClear && Commanded(s) then
                s.flags.(feedHold := false, motionCancel := false, safetyDoor := false, sleep := false)
              else if s.place == AtStartClear && s.rt.starts != {} then s.flags.(starts := {})
              else if s.place == AtStopClear && s.rt.cycleStop then s.flags.(cycleStop := false)
              else s.flags
    ensures NextStage(s, queued).alarm == (s.alarm && s.place != AtAlarm)
    ensures s.place == AtAlarm ==> NextStage(s, queued).state == if s.alarm then Alarm else s.state
  {
    if s.place in {AtHold, AtStart, AtStop} { HandlingKeepsFlags(s, queued); }
  }

  /** The stages follow each other; a reset ends the program, and a pass returns to the suspend loop as long as anything is suspended. */
  lemma PlaceTable(s: System, queued: bool)
    requires InPass(s.place)
    ensures NextStage(s, queued).place ==
              match s.place
              case AtAlarm => AtCopy
              case AtCopy => if s.flags.reset then Aborted else AtHold
              case AtHold => AtHoldClear
              case AtHoldClear => AtStart
              case AtStart => AtStartClear
              case AtStartClear => AtStop
              case AtStop => AtStopClear
              case _ => if s.restoring then Restoring else if s.suspend != NotSuspended then Suspending else Running
  {
  }

  /** The spindle is stopped and restored in a hold only; a hold that is to be resumed raises its cycle start after the spindle is restored. */
  lemma SpindleTable(s: System, a: Action)
    requires Enabled(s, a) && !a.Stage?
    ensures Next(s, a).spindleStop ==
              match a
              case SpindleOverride =>
                if s.spindleStop == NoSpindleStop then SpindleStop(false, true, false, false)
                else s.spindleStop.(restore := s.spindleStop.restore || s.spindleStop.enabled)
              case SpindleRestored =>
                if s.spindleStop.initiate then SpindleStop(true, false, false, false)
                else if s.spindleStop.restore || s.spindleStop.restoreCycle then NoSpindleStop
                else s.spindleStop
              case Retracted => if s.suspend.retractComplete then s.spindleStop else NoSpindleStop
              case _ => s.spindleStop
    ensures a == SpindleRestored ==>
              (Next(s, a).flags.starts != s.flags.starts ==> s.spindleStop.restoreCycle && !s.spindleStop.initiate)
  {
  }
}
