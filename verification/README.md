# A verified model of grbl-llp

grbl-llp turns lines of g-code, received over a framed serial link, into step pulses for three
axes. This project models the parts of it in which an error would be silent: the look-ahead
planner, the segment generator and step interrupt, the LLP link with both of its parsers, the
realtime state machine with its receive path, and the g-code parser. To verify all files, run
`dafny verify dfyconfig.toml` in this directory.

Each component is written twice. Functions on values say what it computes, and classes over rings
and arrays do it in place, as the firmware does; the contract of every method equates the new state
of the object with the function of the old one. The theorems are about the functions, and so hold
of the objects.

## The parts

**Planner** (`PlannerTheory`, `PlannerRuns`, `PlannerOverrides`, `OverrideRuns`, `VelocityProfile`,
`Blocks`, `Rings`, `RingWindow`, `PlannerRing`, `PlannerDrive`, `DrivenRuns`, `SpeedLimits`,
`SpeedCarryover`). A block is seen as a leg: an entry speed, its limit, and the change of squared speed
that full acceleration achieves over what is left of the block. The from-scratch plan (`Best`) is defined
without loops, pointers or shortcuts. The planner's incremental passes are proved to compute it over every
run of appended, executed and discarded blocks and of holds, and it is proved to be the pointwise greatest
feasible plan. `SpeedLimits` carries the rapid rate of a block to every segment that is driven.
`PlannerRing.Planner` is the ring of `planner.c` with its head, tail and planned indices.

**Step generation** (`Bresenham`, `Motion`, `Conservation`, `Pipeline`, `MotionRuns`, `StaleProfiles`,
`StepperRing`). `Motion` is one machine state for planner, segment generator and step interrupt. Its
invariant keeps an account of every step: executed, queued in segments, to be cut from the current block,
or planned. Interrupt ticks, segment cutting, planning, holds, overrides and resets may follow each other
in any order. `DrivenRuns` joins this to the planner: in runs whose segments follow the velocity profile
the plan stays the optimal one for the speed the machine really has. `StepperRing.Stepper` does the same
in place and shares the planner's ring.

**Link** (`Crc16`, `Polynomials`, `CrcPolynomial`, `LinkFormat`, `LlpFrame`, `LlpParser`, `TimedStreams`,
`LlpStream`, `LinkChecksum`, `LlpFirmware`, `LlpPython`, `LayerChain`). Frames are stuffed and
checksummed; the parsers work on timed byte streams. What is proved of streams holds for any checksum
function; `LinkChecksum` puts the 16-bit CRC in. `CrcPolynomial` proves the CRC to be a remainder of
polynomials over two-element coefficients, which `Polynomials` defines as sets of exponents; `LinkFormat`
states the format of frames and layers in bytes. `LlpFirmware` is the C parser and builder, `LlpPython`
the one of `scripts/llp.py`.

**Receive and transmit path** (`RxRing`, `RxInterleaving`, `ReceivePath`, `TransmitPath`). `serial_read` is
split into its single accesses to the shared indices, and the receive interrupt may strike between
any two of them.

**Realtime executor** (`Realtime`, `RealtimeTable`, `RealtimeRuns`, `UnfinishedHolds`, `JointRuns`). A
pass of `protocol_exec_rt_system` is split into its reads and writes of the volatile flags, and any
interrupt may raise any flag between two of them. `RealtimeTable` says from the flags alone what each
stage of a pass does in every state. `JointRuns` runs it together with the motion pipeline.

**Front end** (`LineAssembler`, `GcodeWords`, `GcodeBlock`, `GcodeLines`, `GcodePrograms`, `GcodeMotion`,
`GcodeTable`, `GcodeActions`, `GcodeArcs`, `GcodeAcceptance`, `GcodeInputs`, `GcodeParser`). The line filter of
the main loop, and `gc_execute_line` with its import, check and execution steps. `GcodeAcceptance` is the
whole list of conditions under which a line is accepted; `GcodeTable` and `GcodeActions` say from its words
what an accepted line leaves behind and makes the machine do, and `GcodeArcs` is the geometry of G2 and G3.

## What does not hold

Where the code does less than its comments or a reader would expect, the model follows the code, and
a lemma says exactly when the expected property holds.

* The shortcut for blocks that already enter at their limit loses nothing as long as limits stay or rise.
  After an override reduction it can leave a block that cannot slow down in time. The replan is the full
  plan if and only if no block that enters at a limit it cannot brake from is within the machine's reach
  (`PlannerOverrides.ReplanExactOnLimits`). Halving the feed rate in a reachable, fully planned state
  breaks the plan (`OverrideRuns.ReductionBreaksThePlan`).
* The 32-bit counters bound the size of a block. If the smoothing level may change at any tick, every
  block is traced exactly if and only if it has fewer than 2^28 step events
  (`Bresenham.AnyLevelsExactly`); if it changes between whole step events only, as from segment to
  segment, 2^28 itself is still exact (`Bresenham.SegmentsExactly`).
* A cycle start that strikes an unfinished hold, one that is to end inside the loaded block and whose end
  has not been handled, leaves the segment generator with a profile that ends short of the block. It may
  then cut a segment without a step event, which the interrupt counts down from 2^16. The account of steps
  can be lost if and only if there is such a profile (`StaleProfiles.CanFailExactly`), and a start is safe
  if and only if no hold is unfinished (`StaleProfiles.StartIsSafeExactly`).
  `StaleProfiles.RestartOverruns` is a line of four steps that overruns its end this way. The executor
  does not rule it out: a start finds a hold executing if and only if a motion was ended by a cycle stop
  that does not count as the completion of the hold, as in a motion cancel or on a soft limit, or was
  struck by an alarm, and nothing has settled the hold since (`UnfinishedHolds.HoldExecutesExactly`);
  `UnfinishedHolds.StartsInHold` is such a start after a motion cancel. Executor and pipeline together
  keep the account as long as no motion is abandoned (`JointRuns.JointRunsConserve`).
* A frame that arrives while an escape is pending is lost as a whole; otherwise it is delivered
  (`LlpStream.DeliveredExactly`).
* The C and the Python parser time out on the same bytes with three exceptions
  (`LlpPython.TimeoutsAgreeExactly`): the Python parser does not time out between the two magic bytes
  (`LlpPython.TimeoutInMagicDiffers`); its test `last_byte_time > 0` takes a byte at time zero for no byte
  (`LlpPython.TimeZeroDiffers`); and the 16-bit time of the C parser wraps, so that a gap of, say, 65.536
  seconds is none (`LlpPython.WrappedGapDiffers`). On streams whose clock avoids the last two, the parsers
  answer alike if and only if no gap between two magic bytes exceeds the timeout
  (`LlpPython.ParsersAgreeExactly`).
* `get_final_payload` in Python takes the first zero byte for the final layer, also in the identifier, the
  length or the metadata of another layer. Both sides return the same data if and only if there is none
  (`LayerChain.SidesAgreeExactly`); a layer without metadata has a zero length byte and always hides the
  data (`LayerChain.EmptyLayerDiffers`).
* A transmitted line of 64 or more bytes, its newline included, loses the 64 bytes of each full line
  buffer (`TransmitPath.NothingLostExactly`).
* The comment in the source says that a hold immediately enters a suspend state. That is so exactly at
  rest, in a jog that is not put to sleep, with a motion cancel outside a jog, with a door, and in alarm
  when put to sleep (`RealtimeRuns.SuspendedAtOnceExactly`). A feed hold in motion leaves the main program
  unsuspended in every state until the cycle stop is handled (`RealtimeRuns.DecelerationDoesNotSuspend`),
  and it may start cycles of its own there (`RealtimeRuns.MainGoesOnInHold`).
* Only an explicit user input resumes a hold, as the comment at the cycle start promises
  (`Realtime.HoldIsNotAutoResumed`), but such an input may come too early: a `~` that arrives while the
  pass that completes the hold is running resumes it in the next pass, although it was given before the
  hold was complete. This happens if and only if it came after the clearing stage of that pass, or after
  its copy of the flags and the pass was called without a cycle start (`RealtimeRuns.EarlyStartExactly`);
  `RealtimeRuns.EarlyStartResumes` is a reachable state of this kind.
* G10 reports a missing P or L word only if both are missing, since the test is for one mask of two bits
  (`GcodeLines.MissingWordsOfG10`). Without P it acts as P0 (`GcodeLines.MissingPActsAsZero`);
  `GcodeInputs.UnaddressedDataIsStored` is `G10 L2 X1`.
* A jog without axis words is accepted and goes to machine zero (`GcodeLines.JogKeepsUnnamedAxesExactly`;
  `GcodeInputs.BareJogMoves` is `$J=F100` at X5 Y5 Z5). The comment says that axis words have been
  checked. Such a jog also escapes the check for a feed rate of zero, and it is the only line that does
  (`GcodeMotion.FeedsArePositiveExactly`; `GcodeInputs.IdleJogMoves` is `$J=F0`).
* A move on the line of a G92.1 is aimed with the offset that the same line resets
  (`GcodeMotion.MoveWithResetExactly`; `GcodeInputs.ResetMoveOvershoots` is `G92.1 X5` under an offset of
  1).
* An arc with an R word whose target lies straight above or below its start has no chord, so its centre is
  the result of a division by zero (`GcodeArcs.RadiusArcIsCircle`). The line is accepted all the same, since
  only equal positions are refused; `GcodeInputs.UpwardArcHasNoCentre` is `X0 Z1 R1` in G2.
* An F word in inches on the line that leaves inverse time mode is not converted to millimeters
  (`GcodeLines.FeedIsConvertedExactly`, `GcodePrograms.InchesAreNotationExactly`;
  `GcodeInputs.FeedInInchesIsKept` is `G94 F10`).

## Model

| member | source | states |
|---|---|---|
| PlannerTheory.ReplanIsSweep | src/planner.c:126-196 | with sound skips, the reverse and forward pass with stop pointer and at-max skip are one full sweep of the blocks after the planned pointer, and the pointer ends on a locked block |
| PlannerTheory.ReverseSkipExact | src/planner.c:157-165 | the at-max skip reaches every braking bound if and only if each skipped limit is one the blocks behind it can brake from |
| PlannerTheory.PointerIsLastSettled | src/planner.c:169-195 | a replan leaves the planned pointer on the last settled block: every block behind it still depends on what is appended |
| PlannerTheory.ReplanIsStoppable | src/planner.c:126-196 | a replan from any planned pointer leaves earlier speeds alone and a plan within its limits in which every block can brake to the next and the last to rest |
| PlannerTheory.LockedIsFinal | src/planner.c:189-193 | entry speeds up to a locked block are the same whatever blocks are appended |
| PlannerTheory.AppendKeepsPlan | src/planner.c:464-469 | appending to a planned buffer and replanning from the pointer gives the from-scratch plan of the longer buffer |
| PlannerTheory.ReplanFromTail | src/planner.c:516-522 | a replan from the tail gives the from-scratch plan, whatever was in the buffer |
| PlannerTheory.PlanIsFeasible | src/planner.c:65-86 | the full plan meets the junction limits and the acceleration limits in both directions and ends at rest |
| PlannerTheory.PlanIsOptimal | src/planner.c:65-86 | no feasible plan with the tail's entry speed enters any block faster |
| PlannerRuns.RecalculateActual | src/planner.c:144-155 | seen with the tail at its real speed, planner_recalculate is a replan, so its forward pass reads no stale tail speed |
| PlannerRuns.StepKeepsInv | src/planner.c:126-223 | append, discard, progress in the tail, hold, hold end and raised limits each keep: speeds are those of a full pass, everything up to the planned pointer is final |
| PlannerRuns.IncrementalPlanIsOptimal | src/planner.c:126-196 | after any run from the empty buffer the entry speeds equal the from-scratch plan and no feasible plan is faster anywhere |
| PlannerRuns.LockedNeverChanges | src/planner.c:65-86 | a block at or before the planned pointer keeps its entry speed through any further run of appends and discards until it is the tail |
| PlannerRuns.ExitChangeIsNotified | src/planner.c:144-155 | if a recalculation changes the entry speed of the block behind the tail, it has handed the taken tail back to the planner with its current speed |
| PlannerRuns.ReplanKeepsUpTo | src/planner.c:169-195 | no block at or before the planned pointer is written |
| PlannerRuns.ReinitializeRestores | src/planner.c:516-522 | plan_cycle_reinitialize restores the full plan, however the tail was left |
| PlannerOverrides.SkipOvershoots | src/planner.c:157-165 | for arbitrary speeds and limits the skip can only leave a braking speed too high |
| PlannerOverrides.ReplanExact | src/planner.c:126-196 | for arbitrary speeds and limits, the replan from the tail is the full plan if and only if no overshoot of the skip is within the machine's reach |
| PlannerOverrides.ReplanExactOnLimits | src/planner.c:126-196 | the same condition on speeds and limits alone: every block that enters at a limit the blocks behind it cannot brake from is out of the machine's reach |
| PlannerOverrides.LoweredLimitsBreakTheSkip | src/planner.c:157-165 | a queue with lowered limits on which the replan leaves a block that cannot brake to the next |
| OverrideRuns.ReductionBreaksThePlan | src/protocol.c:447-453 | a reachable state with a full plan in which an override reduction to half the feed rate leaves neither the full plan nor one that every block can follow |
| Blocks.NominalSpeed | src/planner.c:259-269 | the nominal speed is never below 1, and that of a feed move never above the rapid rate of its direction unless it is 1 |
| Blocks.NominalSpeedExactly | src/planner.c:259-269 | a block runs at its programmed rate times its override in percent, or at the bound that this misses: the minimum of 1, or the rapid rate for feed moves |
| Blocks.FullSpeedIsProgrammed | src/planner.c:259-269 | at 100 percent a block runs at its programmed rate, between the minimum and the limit of its direction |
| Blocks.OtherOverrideIsFree | src/planner.c:262-266 | the feed override leaves rapids alone and moves with the no-override flag, the rapid override leaves all others alone |
| Blocks.NeverFasterThanRapid | src/planner.c:259-269 | no move is faster than the rapid rate of its direction, where that is at least 1 |
| Blocks.LineSpeeds | src/planner.c:379-404 | a rapid is programmed at the limit of its direction, an inverse-time move so that distance over speed is the inverse of its feed, any other at its feed; the first block after a rest is entered at no speed |
| Blocks.MaxEntrySqr | src/planner.c:274-280 | the entry limit is the least of both neighbours' squared nominal speeds and the junction limit |
| Blocks.NominalIgnoresEntry | src/planner.c:259-269 | the nominal speed depends neither on the entry speed nor on the entry limit that the planner has written into the block |
| Blocks.NewBlock | src/planner.c:351-404 | on every axis the start plus the signed steps of the block is the target, and the step events are the steps of the longest axis |
| Blocks.Relimit | src/planner.c:284-298 | an override change leaves everything but the entry limits of the queue as it was |
| Blocks.ReplanBlocks | src/planner.c:126-196 | a replan of the queue changes entry speeds only, and moves the planned pointer forward inside the queue only |
| Blocks.ReplanNonNegative | src/planner.c:126-196 | it keeps entry speeds non-negative |
| RingWindow.WindowSuffix | src/planner.c:41-59 | the window from the k-th place of the ring is the queue from its k-th block |
| RingWindow.ReverseTurn | src/planner.c:149-166 | one turn of the reverse loop on ring indices is one reverse step on the window of the queue |
| RingWindow.ForwardTurn | src/planner.c:173-195 | one turn of the forward loop on ring indices is one forward step on the window, planned index included |
| RingWindow.ReplanSuffix | src/planner.c:126-196 | a replan of the queue from its planned block is a replan of the blocks from there on |
| RingWindow.RestBlockIsPlanned | src/planner.c:399-404 | a newest block that starts from rest becomes the planned block, whatever stale blocks the passes walk over |
| RingWindow.QueueRecalculated | src/planner.c:126-196 | the replanned window and the untouched rest of the ring are the replanned queue |
| RingWindow.RelimitTurn | src/planner.c:290-296 | one turn of the override loop gives one more block of the queue its new limit |
| PlannerRing.Planner.StUpdatePlanBlockParameters | src/stepper.c:598-605 | hands the taken block back with the current speed, and does nothing when none is taken |
| PlannerRing.Planner.BrakeBlock | src/planner.c:157-165 | one block of the reverse pass, in place |
| PlannerRing.Planner.ReverseSweep | src/planner.c:134-167 | the reverse loop from the newest block to the planned index, in place, with the tail handed back when it is reached |
| PlannerRing.Planner.AccelerateBlock | src/planner.c:180-193 | one block of the forward pass, in place, with the planned index |
| PlannerRing.Planner.ForwardSweep | src/planner.c:169-195 | the forward loop from the planned index to the head, in place |
| PlannerRing.Planner.PlannerRecalculate | src/planner.c:126-196 | both passes on the ring are the replan of the window between planned index and head, and write nothing outside it |
| PlannerRing.Planner.Recalculate | src/planner.c:126-196 | on a non-empty ring they are the recalculation of the queue |
| PlannerRing.Planner.PlanReset | src/planner.c:199-212 | empties the ring and zeroes position and previous nominal speed |
| PlannerRing.Planner.PlanDiscardCurrentBlock | src/planner.c:215-223 | drops the first block, if any, and takes the planned index along |
| PlannerRing.Planner.GetExecBlockExitSpeedSqr | src/planner.c:241-246 | the entry speed of the second block, or rest |
| PlannerRing.Planner.CheckFullBuffer | src/planner.c:250-254 | true exactly when one slot is left, which stays free |
| PlannerRing.Planner.PlanUpdateVelocityProfileParameters | src/planner.c:284-298 | relimits the whole queue in place and keeps the planned index |
| PlannerRing.Planner.PlanBufferLine | src/planner.c:315-472 | refuses a line without steps, puts a system motion into the free head slot without touching queue or position, and otherwise appends the block, moves the planner position to the target and replans |
| PlannerRing.Planner.PlanFirst | src/planner.c:399-404 | a line into an empty ring ends planned although both passes walk over stale blocks |
| PlannerRing.Planner.PlanSyncPosition | src/planner.c:476-494 | the planner position is the machine position |
| PlannerRing.Planner.GetBlockBufferAvailable | src/planner.c:498-502 | eleven less the number of queued blocks |
| PlannerRing.Planner.PlanCycleReinitialize | src/planner.c:516-522 | hands the tail back and replans from it; an empty ring stays empty |
| VelocityProfile.RampOrder | src/stepper.c:774-841 | for a planner-feasible block 0 <= decelerate_after <= accelerate_until <= millimeters |
| VelocityProfile.ProfileMeetsPlan | src/stepper.c:774-841 | the profile starts at the entry speed, ends exactly at the planned exit speed and is nowhere above nominal |
| VelocityProfile.ProfileIsFastest | src/stepper.c:774-841 | at every point the profile is as fast as acceleration from entry, deceleration to exit and the nominal speed allow; only a block entered above nominal is first slowed down at full deceleration |
| VelocityProfile.GainIsKinematic | src/stepper.c:774-841 | the change of squared speed that the profile counts with is that of constant acceleration over the same way |
| VelocityProfile.ProfileIsProgress | src/stepper.c:774-841 | at every point the speed was reached within the acceleration limit and still allows the planned exit speed |
| VelocityProfile.SpeedIsContinuous | src/stepper.c:774-841 | the squared speed changes between any two points by no more than the acceleration allows, across all ramp junctions |
| VelocityProfile.HoldBrakes | src/stepper.c:761-773 | in a hold the block is braked at full deceleration to rest inside it, or to its end with the speed left |
| PlannerDrive.RecalculateAgrees | src/planner.c:126-196 | the recalculation of the pipeline is the one the planner theorems are about |
| PlannerDrive.EnqueueAgrees | src/planner.c:464-469 | so is appending a line |
| PlannerDrive.HoldsAgree | src/stepper.c:598-605 | so are the start and the end of a hold |
| PlannerDrive.EnqueueKeepsJoined | src/planner.c:455-469 | planning a line keeps every entry limit below the nominal speeds of both neighbours |
| PlannerDrive.DiscardKeepsJoined | src/planner.c:215-223 | so does discarding the tail |
| PlannerDrive.RelimitJoins | src/planner.c:284-298 | after an override it holds again, whatever the limits were |
| PlannerDrive.ExitBelowNominal | src/planner.c:274-280 | the exit speed of the tail is never above its nominal speed |
| PlannerDrive.TailIsFeasible | src/stepper.c:774-841 | in a planned buffer the tail meets every premise of its velocity profile |
| PlannerDrive.DriveIsProgress | src/stepper.c:878-951 | driving the tail along its profile keeps the plan a full plan |
| DrivenRuns.NextKeepsDrive | src/stepper.c:668-1079 | every operation of a driven run, holds and raised limits included, keeps plan, limits and profile consistent with the speed of the machine |
| DrivenRuns.DrivenPlanIsOptimal | src/planner.c:126-196 | in every driven run of the pipeline, outside holds, the plan is the from-scratch plan and the greatest feasible one for the actual speed, and the account of steps is kept |
| DrivenRuns.BlocksAreLeftAsPlanned | src/stepper.c:774-841 | in every driven run no segment ends above nominal speed, and every block is left at exactly the entry speed of the next |
| SpeedCarryover.SpeedIsCarriedOver | src/stepper.c:729-738 | in every driven run, in a hold or not, taking a block anew or again leaves the machine's speed as it is |
| SpeedCarryover.SlowdownIsCarriedOver | src/stepper.c:729-738 | a block entered above nominal and too short to be slowed down in hands the speed that is left over to the next block |
| SpeedLimits.NoSegmentIsTooFast | src/planner.c:259-269 | in every driven run no segment ends faster than the rapid rate of its block, where that is at least 1 and rapids are not overridden above 100 percent |
| Bresenham.IncrementIsWeight | src/stepper.c:380-385 | shifting the pre-multiplied steps right by the level loses nothing |
| Bresenham.TickIsExact | src/stepper.c:414-420 | a tick at any level keeps the counter at half a block plus the exact residue, inside (0, step_event_count] |
| Bresenham.CompletedIsExact | src/stepper.c:414-453 | a completed block has emitted exactly steps[axis] pulses and its counter is back where it began |
| Bresenham.SmoothingRefinesBresenham | src/stepper.c:380-385 | whatever level each tick ran at, after k whole step events position and counter are those of plain Bresenham after k ticks |
| Bresenham.HalfStepAccurate | src/stepper.c:373-453 | at every tick under any mix of levels the axis is within half a step of the ideal line |
| Bresenham.AnyLevelsExactly | src/stepper.c:414-420 | with levels that may change at any tick, every trace of a block is exact if and only if the block has fewer than 2^28 step events |
| Bresenham.SegmentsExactly | src/stepper.c:1026-1027 | with levels that change only between whole step events, if and only if it has at most 2^28 |
| Bresenham.WideBlocksWrap | src/stepper.c:720-721 | with 2^29 step events the shifted event count is zero and the first step is missed |
| Motion.RecalculateIsQueue | src/planner.c:126-196 | the pipeline's recalculation is the one proved of the planner's ring |
| Motion.BuffersInNumbers | src/stepper.h:25-27 | five segments may wait, and the slots 0 to 4 take their blocks in turn |
| Conservation.NextSlotIsFree | src/stepper.c:609-614 | with at most four loaded blocks in consecutive slots, the next of the five slots is unused |
| Conservation.ReplannedKeepsInv | src/planner.c:126-196 | whatever the planner writes, speeds, pointer and the loaded mark, leaves the account of steps alone |
| Pipeline.PlanLineKeepsInv | src/planner.c:369-377 | a planned line adds to the planner position exactly the signed steps of its block |
| Pipeline.LoadUsesFreeSlot | src/stepper.c:673-701 | the slot a new block is copied into is referred to by no queued and no executing segment |
| Pipeline.LoadKeepsInv | src/stepper.c:676-751 | loading a block, anew or after a replan, keeps the account; a replanned one is not copied again |
| Pipeline.SegmentsHaveSteps | src/stepper.c:873-876 | a segment carries at least one step event unless it ends where its profile does, short of the end of the block |
| Pipeline.CommitKeepsInv | src/stepper.c:986-1078 | committing a segment moves its steps from the block to the queue and keeps steps_remaining = ceil(step_per_mm * millimeters) |
| Pipeline.CountersResetOncePerBlock | src/stepper.c:366-374 | the interrupt resets its counters exactly when it loads the first segment of a block |
| Pipeline.LoadSegmentKeepsInv | src/stepper.c:352-385 | loading a segment keeps the account |
| Pipeline.InterruptKeepsInv | src/stepper.c:352-468 | so does every call of the step interrupt |
| Pipeline.StartHoldKeepsInv | src/protocol.c:286-294 | so does the start of a hold |
| Pipeline.FinishHoldKeepsInv | src/protocol.c:399-404 | so does its end |
| Pipeline.OverridesKeepInv | src/protocol.c:447-453 | so does an override change |
| Pipeline.ResetKeepsInv | src/protocol.c:408-414 | a jog cancel empties both buffers, sets the planner position to the machine's, and so closes the account |
| MotionRuns.NextIsGoodExactly | src/stepper.c:990-1001 | an operation keeps the account of steps if and only if it does not cut a segment without a step event |
| MotionRuns.StepsAreConserved | src/stepper.c:415-468 | in every reachable state of every interleaving, as long as no queued segment is without a tick, the planner position is, per axis, the machine position plus the signed steps still owed, and equals it once everything has drained |
| MotionRuns.TracingIsAccurate | src/stepper.c:414-453 | in every such state the machine stands on each axis at the start of the executing block plus the signed steps emitted, within half a step of the line from the block's start to its end |
| MotionRuns.LoadsAreSafe | src/stepper.c:695-701 | in every reachable state a load of a new block writes a slot that no segment refers to, and a load after a hold or replan writes none |
| MotionRuns.LoadedOnce | src/stepper.c:684-728 | a loaded block keeps slot and steps through holds, replans, overrides and ticks until its last step is cut |
| MotionRuns.SegmentsAddUp | src/stepper.c:986-1078 | in every such state the ticks of each queued segment fit 16 bits, and done, queued and uncut step events of a block add up to its step_event_count |
| StaleProfiles.CarefulRunsConserve | src/protocol.c:371-383 | in every run whose cycle starts strike no unfinished hold the account is kept and every segment has a tick |
| StaleProfiles.CanFailExactly | src/stepper.c:988-1001 | some run loses the account if and only if the loaded block has a profile that ends short of it and no hold executes |
| StaleProfiles.StartIsSafeExactly | src/protocol.c:371-383 | a cycle start keeps the account, and makes its loss possible if and only if a hold is unfinished |
| StaleProfiles.RestartOverruns | src/stepper.c:988-1001 | a reachable machine, held in the middle of a line and started again, that cuts a segment without a tick and steps beyond the end of the line |
| StepperRing.Stepper.LoadSegment | src/stepper.c:352-385 | pops a segment in place as the pipeline model does |
| StepperRing.Stepper.TraceAxis | src/stepper.c:415-428 | one axis of the tracer in place: counter and position |
| StepperRing.Stepper.Execute | src/stepper.c:414-468 | one tick of all axes, and the release of a finished segment |
| StepperRing.Stepper.Interrupt | src/stepper.c:319-475 | the whole step interrupt, and the cycle stop raised exactly when there is nothing to execute |
| StepperRing.Stepper.CopyBlock | src/stepper.c:695-728 | copies a new block's step data into the next slot and nowhere else |
| StepperRing.Stepper.EnterBlock | src/stepper.c:730-737 | the entry speed of a new block: planned, or forced by a deceleration under way |
| StepperRing.Stepper.TakeBlock | src/stepper.c:676-751 | takes the planner's block anew, or again after a replan without copying |
| StepperRing.Stepper.ShapeBlock | src/stepper.c:759-842 | the velocity profile of the block taken, in place |
| StepperRing.Stepper.QueueSegment | src/stepper.c:1049-1055 | makes the segment visible to the interrupt and shortens the block |
| StepperRing.Stepper.EndSegment | src/stepper.c:1058-1079 | ends a forced deceleration, or lets go of a finished block and discards it |
| StepperRing.Stepper.CommitSegment | src/stepper.c:986-1079 | a turn of st_prep_buffer after its ramp loop, in place, is the pipeline model's commit |
| StepperRing.Stepper.BufferLine | src/planner.c:315-472 | the planner's ring and the segment generator together do what the pipeline model does for a line |
| StepperRing.Stepper.StartHold | src/protocol.c:286-294 | the start of a hold, in place |
| StepperRing.Stepper.FinishHold | src/protocol.c:399-404 | the end of a hold, in place |
| StepperRing.Stepper.Reset | src/protocol.c:408-414 | planner and stepper reset and position sync, in place |
| Crc16.UpdateLoop | src/llp_protocol.h:105-111 | the eight-turn loop with its branch computes the byte update; CrcPolynomial says which checksum that is |
| Crc16.CrcIsFeeds | src/llp_protocol.h:105-111 | the checksum of a message is the checksum of its bits, top bit first |
| Crc16.FeedInjective | src/llp_protocol.h:105-111 | the one-bit step is injective |
| Crc16.BurstDetected | src/llp_protocol.h:105-111 | bit messages of any length that differ within one burst of 16 bits have different checksums |
| Crc16.BurstInBytes | src/llp_protocol.h:105-111 | so have byte messages |
| Crc16.TableIsLoop | scripts/llp.py:32-37 | a table-driven step is the bit loop |
| CrcPolynomial.CrcIsRemainder | src/llp_protocol.h:105-111 | the checksum of any message from any initial value is the remainder, modulo x^16 + x^12 + x^5 + 1 over two-element coefficients, of initial value and message as one polynomial followed by sixteen zero bits |
| Polynomials.RemainderIsUnique | src/llp_protocol.h:105-111 | a polynomial has only one such remainder |
| CrcPolynomial.CheckValue | src/llp_protocol.h:105-111 | the check value of the checksum: the digits 1 to 9 give 0x29B1 |
| LlpFrame.StuffHidesMagic | src/llp_protocol.h:429-436 | stuffed bytes never contain a magic pair nor end in its first byte |
| LlpFrame.StuffIsPrefixFree | src/llp_protocol.h:429-436 | two streams that begin with stuffed messages of one length agree only if the messages and the rests agree |
| LlpFrame.FrameIsInjective | src/llp_protocol.h:452-478 | different payloads have different frames |
| LlpFrame.WrittenCompletes | src/llp_protocol.h:474-477 | the builder's running checksum completes the frame |
| LlpParser.StepPends | src/llp_protocol.h:191-327 | after every byte at any time the stream ends in what the parser has consumed of its frame, and an accepting byte completes the frame of the stored payload |
| LlpStream.AcceptedFramesAreReal | src/llp_protocol.h:191-327 | for every byte stream and any timestamps a return of 1 means that the stream ends in the frame of the delivered payload |
| LlpStream.TransmittedIsJudged | src/llp_protocol.h:191-327 | from any state without a pending escape a frame inside its timeouts is answered by at most a resync in its magic, silence, and the verdict on its checksum field |
| LlpStream.DeliveredExactly | src/llp_protocol.h:191-327 | a frame of any payload up to the maximum, inside its timeouts, is delivered on its last byte and not before if and only if no escape is pending when it begins |
| LlpStream.FrameIsLost | src/llp_protocol.h:207-241 | with an escape pending it is lost as a whole |
| LlpStream.DeliveredAfterAnything | src/llp_protocol.h:191-327 | after any stream whatsoever a frame is delivered if the byte before it was not the first magic byte |
| LlpStream.SecondFrameIsDelivered | src/llp_protocol.h:207-263 | from any state the second of two consecutive frames is delivered |
| LlpStream.WrongChecksumIsRefused | src/llp_protocol.h:303-313 | a frame with another checksum than its own is refused on its last byte |
| LinkChecksum.CheckIsCrc | src/llp_protocol.h:105-111 | the checksum of the frames is the 16-bit CRC of the bytes |
| LinkFormat.FrameCheckIsRemainder | src/llp_protocol.h:452-478 | the checksum of a frame is the remainder of its content with 0xFFFF before it |
| LinkFormat.FrameInNumbers | src/llp_protocol.h:452-478 | a frame in bytes: magic 0xAA 0x55, length and checksum low byte first, 0xAA stuffed with 0 |
| LinkFormat.LayerInNumbers | src/llp_protocol.h:342-413 | the layer format in bytes: 0 is the final layer, 0x80 to 0xFE hide the data, 255 announces a two-byte length with the high byte first, truncated layers have no data |
| LinkFormat.TimeoutInNumbers | src/llp_protocol.h:191-205 | behind the magic both parsers give up a frame after more than 2000 milliseconds and not before |
| LinkChecksum.PayloadBurstDetected | src/llp_protocol.h:303-313 | payloads of equal length that differ by one burst of 16 bits have different checksums |
| LinkChecksum.AdjacentBytesAreBurst | src/llp_protocol.h:303-313 | any change inside two adjacent bytes is such a burst |
| LinkChecksum.BurstIsRefused | src/llp_protocol.h:303-313 | a payload hit by such a burst is refused on the last byte of its frame, from any state without a pending escape |
| LlpFirmware.Crc16Update | src/llp_protocol.h:105-111 | the loop on a word computes the byte update whose remainder CrcPolynomial.CrcIsRemainder fixes |
| LlpFirmware.Parser.Reset | src/llp_protocol.h:167-172 | back to searching, with the stored frame kept |
| LlpFirmware.Parser.Unescape | src/llp_protocol.h:210-236 | resync, unstuffed magic byte, or error |
| LlpFirmware.Parser.Switch | src/llp_protocol.h:244-326 | the state machine in place |
| LlpFirmware.Parser.ProcessByte | src/llp_protocol.h:191-327 | llp_parser_process_byte in place is the step that the stream theorems are about |
| LlpFirmware.WriteStuffed | src/llp_protocol.h:429-436 | writes the byte, doubled if it is the first magic byte, at the index |
| LlpFirmware.BuildFinalPayload | src/llp_protocol.h:442-450 | the data in a final layer, or 0 exactly if the buffer is too small |
| LlpFirmware.BuildFrame | src/llp_protocol.h:452-478 | the frame of the payload in the output buffer, or 0 exactly if the payload is too long or the buffer smaller than the worst case |
| LlpPython.StepSimilar | scripts/llp.py:116-229 | one byte on which the timeouts agree, a long gap inside a frame included, keeps the C and the Python parser at the same point and makes them return the same code |
| LlpPython.TimeoutsAgreeExactly | scripts/llp.py:128-137 | the timeouts agree except between the magic bytes, inside a frame whose last byte came at time zero, and after a gap in a frame that the 16-bit time of the C parser takes for a short one |
| LlpPython.RunsAgreeExactly | scripts/llp.py:116-229 | from any two states at the same point the parsers return the same codes, and the same payload on acceptance, if and only if no gap between two magic bytes exceeds the timeout |
| LlpPython.ParsersAgreeExactly | scripts/llp.py:116-229 | so do fresh parsers with the same maximum payload |
| LlpPython.TimeoutInMagicDiffers | scripts/llp.py:128-137 | after any such gap below 2^16 milliseconds, wherever the stream starts, the C parser returns -1 and the Python parser 0 |
| LlpPython.TimeZeroDiffers | scripts/llp.py:128-137 | on a stream that begins at time zero, after a gap behind the magic the C parser returns -1 and the Python parser 0 |
| LlpPython.WrappedGapDiffers | src/llp_protocol.h:191-205 | on a stream with a gap behind the magic whose low 16 bits are within the timeout the Python parser returns -1 and the C parser 0 |
| LlpPython.HqxIsCrc | scripts/llp.py:32-37 | the table-driven CRC is the firmware's |
| LlpPython.CrcHqx | scripts/llp.py:32-37 | the loop over bytes computes the checksum of the frames |
| LlpPython.BuildFrame | scripts/llp.py:48-82 | build_frame returns the frame that the firmware builds, or an error exactly for a payload over the maximum |
| LlpPython.Encode | scripts/llp.py:85-91 | encode returns the frame of the data in a final layer |
| LlpPython.LLPParser.Reset | scripts/llp.py:103-114 | the initial state |
| LlpPython.LLPParser.Switch | scripts/llp.py:166-229 | the state machine in place |
| LlpPython.LLPParser.Unescape | scripts/llp.py:143-161 | escapes in place |
| LlpPython.LLPParser.ProcessByte | scripts/llp.py:116-229 | process_byte in place is the step that is compared with the C parser |
| LayerChain.GetFinalPayloadPtr | src/llp_protocol.h:387-413 | the loop over positions finds what the recursive reading of the layer chain finds, and -1 exactly when that finds nothing |
| LayerChain.ChainRoundTrip | src/llp_protocol.h:387-413 | the data comes back out of every chain of skippable layers, with one-byte and three-byte lengths |
| LayerChain.TransformIsOpaque | src/llp_protocol.h:407 | a transform layer in front makes the data unreachable |
| LayerChain.GetFinalPayload | scripts/llp.py:231-243 | everything after the first zero byte |
| LayerChain.PythonChainExactly | scripts/llp.py:231-243 | Python finds the data of a chain of skippable layers if and only if no layer holds a zero byte, in its identifier, its length or its metadata |
| LayerChain.SidesAgreeExactly | scripts/llp.py:231-243 | the two sides return the same data for exactly those chains |
| LayerChain.EmptyLayerDiffers | scripts/llp.py:231-243 | for any layer without metadata Python returns the final layer's identifier in front of the data |
| LayerChain.EncodeDecode | scripts/llp.py:85-91 | what one side encodes the other accepts on its last byte and decodes to the same data |
| RxRing.WriteAllFits | src/llp_transport.c:60-71 | a burst of data fills the ring to its last slot but one, the rest is dropped from there on, and each dropped character is counted |
| RxRing.EmptyRingTakesEighty | src/llp_transport.c:60-71 | an empty ring takes the first 80 characters of a burst and counts the others |
| RxRing.SerialRx.RxBufferWrite | src/llp_transport.c:60-71 | appends the character, or counts it when the ring is full |
| RxRing.SerialRx.SerialRead | src/serial.c:116-131 | the oldest character, taken out of the ring, or 0xFF; without 0xFF in the ring, 0xFF exactly when it is empty |
| RxRing.SerialRx.SerialGetRxBufferAvailable | src/serial.c:37-43 | the room left in the ring |
| RxRing.SerialRx.SerialResetReadBuffer | src/serial.c:141-144 | forgets what is queued and nothing else |
| RxInterleaving.NextKeepsInv | src/serial.c:116-131 | every single access of the main program and every interrupt keep the accounts of offered, kept, lost and read characters |
| RxInterleaving.ReadsRefineWire | src/serial.c:116-131 | for every interleaving what serial_read has returned is, in order, what was kept less what was cleared and is still queued; of each burst a prefix is kept and the rest counted |
| RxInterleaving.NoDataMeansEmpty | src/serial.c:116-131 | serial_read answers "no data" exactly when the ring was empty as it looked at the head |
| ReceivePath.DataOfOne | src/llp_transport.c:73-166 | one byte of a payload brings itself, unless it is above 0x7F or one of 0x18, 0x21, 0x3F, 0x7E |
| ReceivePath.DataOfBoth | src/llp_transport.c:73-166 | the data of a payload is that of its parts in order, so nothing is lost or moved |
| ReceivePath.DataOfSelects | src/llp_transport.c:73-166 | what a payload brings is exactly the selection, in order, of its 7-bit characters that are no realtime commands |
| ReceivePath.ReceivePathRefinesWire | src/llp_transport.c:168-187 | from wire bytes to serial_read, for every interleaving: the main program reads, in order, the 7-bit characters in the data layers of the accepted frames that are no realtime commands, less counted drops, and 0xFF is never data |
| TransmitPath.PutOne | src/llp_transport.c:189-198 | a byte is in the line or sent unless it fills the line buffer, and then 64 bytes are lost |
| TransmitPath.NothingLostExactly | src/llp_transport.c:189-212 | everything written is sent or still in the line if and only if no line, newline included, is longer than 63 bytes |
| TransmitPath.LineInNumbers | src/llp_transport.c:189-212 | a line of up to 62 bytes is sent with its newline as one chunk, one of 63 is lost |
| TransmitPath.TxLine.TxByte | src/llp_transport.c:189-198 | the line buffer in place |
| TransmitPath.TxLine.TxFlush | src/llp_transport.c:200-234 | the bytes handed to the transmit ring are the frame of the line, or nothing |
| Realtime.NextKeepsInv | src/protocol.c:225-425 | every access to the flags by a pass, every interrupt and every step of the suspend loop keep: stale cycle starts are left only in the pass that completed the hold, and the main program runs only unsuspended |
| Realtime.HoldIsNotAutoResumed | src/protocol.c:354-391 | in every interleaving a step from hold to cycle happens only for a completed hold and on a cycle start from the user or the suspend loop, raised on the complete hold or else in the pass that completed it, after its copy of the flags |
| Realtime.MainIsBlockedWhileSuspended | src/protocol.c:225-229 | the main program gets on only while no suspend flag is set |
| Realtime.HeldEndsOnlyBy | src/protocol.c:354-425 | a completed hold ends only by alarm, door, sleep, or a start that is not the main program's own |
| RealtimeRuns.SuspendedAtOnceExactly | src/protocol.c:278-351 | which hold commands suspend the main program in their own pass, both directions |
| RealtimeRuns.DecelerationGoesOnExactly | src/protocol.c:280-425 | a hold goes on decelerating unsuspended through every step of executor and interrupts except an alarm, another hold command and the handling of the cycle stop |
| RealtimeRuns.DecelerationDoesNotSuspend | src/protocol.c:278-294 | after a feed hold taken in motion the state is hold and no suspend flag is set in every later state of every run up to one of those; the pass returns to the main program, and that may go on |
| RealtimeRuns.MainGoesOnInHold | src/protocol.c:278-294 | a reachable state in which the machine is slowing down and the main program may start a cycle of its own |
| RealtimeRuns.StartBeforeStop | src/protocol.c:353-425 | in every interleaving a hold that comes to rest in a pass is complete when the pass returns, in the suspend loop, and the starts that the pass was called with have not resumed it and are gone |
| RealtimeRuns.StartsLeftExactly | src/protocol.c:263-390 | the cycle starts left after a pass are those raised behind its clearing stage, and, if it was called with none, those raised behind its copy of the flags |
| RealtimeRuns.NextPassExactly | src/protocol.c:354-391 | a completed hold goes into the cycle in an undisturbed next pass if and only if a start is left and a block is queued |
| RealtimeRuns.EarlyStartExactly | src/protocol.c:263-391 | exactly which cycle starts raised in the pass that completes a hold resume it in the next |
| RealtimeRuns.EarlyStartResumes | src/protocol.c:354-391 | a reachable completed hold about to be resumed by a start raised before it was complete |
| UnfinishedHolds.HoldExecutesExactly | src/protocol.c:399-423 | a cycle start that is obeyed finds a hold executing if and only if a motion was ended or struck by an alarm while the hold executed, and neither a completion, nor a jog cancel, nor an obeyed start has settled it since |
| UnfinishedHolds.StartsInHold | src/protocol.c:405-421 | a reachable idle state, after a motion cancel, in which a hold executes and the user's start is about to be obeyed |
| JointRuns.JointRunsConserve | src/protocol.c:280-425 | executor and motion pipeline interleaved: in every run in which no motion is ended or struck by an alarm while a hold executes, both agree on the hold, the account of steps is kept and no segment is without a tick |
| Realtime.HoldStage | src/protocol.c:280-351 | a hold stays a hold or becomes door or sleep; only a feed hold command makes a completed hold, only door or sleep end one |
| RealtimeTable.HoldTable | src/protocol.c:280-351 | state, executing hold and suspend flags after the hold commands, in every state and for all of them at once |
| RealtimeTable.HoldAtRest | src/protocol.c:280-351 | at rest a hold is complete at once |
| RealtimeTable.HoldInMotion | src/protocol.c:280-351 | in motion a hold only begins to decelerate; a jog is cancelled, a motion cancel marks the motion |
| RealtimeTable.HoldBlocked | src/protocol.c:280-351 | in alarm only sleep does anything, in check mode it only changes the state |
| Realtime.StartStage | src/protocol.c:354-391 | a hold ends only if it is complete and a start is raised without a hold command; no hold is completed |
| RealtimeTable.StartTable | src/protocol.c:354-391 | what a start does, from the flags: at a closed door it begins the restore or, once restored, ends the suspension; in a complete hold and at rest it cycles if a block is queued and no motion was cancelled, unless the spindle is to be restored first |
| RealtimeTable.DoorToCycleExactly | src/protocol.c:359-371 | over all steps of all interleavings, the door leads into the cycle exactly at the start stage, with a start and no hold command, the door not ajar, restoreComplete set, a block queued and no motion cancelled |
| RealtimeTable.RestoreExactly | src/protocol.c:359-371 | initiateRestore is newly set exactly when a start is obeyed at a closed door, retracted and not restored; restoreComplete exactly when the suspend loop has restored without a retract in between |
| RealtimeTable.NoCycleUnrestored | src/protocol.c:359-371 | over every run, a machine that is not restored goes from the door into the cycle only after the suspend loop has restored it |
| RealtimeTable.CancelledStartEndsIdle | src/protocol.c:372-389 | a start on a cancelled motion ends in idle, unsuspended, whatever is queued |
| Realtime.StopStage | src/protocol.c:393-425 | a stop leaves a hold a hold, a door or idle, never in a cycle; a completed hold ends only with a soft limit or a jog cancel |
| RealtimeTable.StopTable | src/protocol.c:393-425 | a cycle stop completes a hold that executes; otherwise the motion is over, and the machine idle or behind its door |
| RealtimeTable.FlagsTable | src/protocol.c:278-425 | a pass copies the flags once and clears each after the stage that has handled it, if the copy has it |
| RealtimeTable.OthersKeepSuspend | src/protocol.c:278-425 | the suspend flags change only in the three stages and when the suspend loop retracts, closes the door or has restored |
| Realtime.Executor.HoldCommands | src/protocol.c:280-351 | motion cancel, hold, door and sleep in place |
| Realtime.Executor.CycleStart | src/protocol.c:354-391 | cycle start in place; the step generator is woken exactly when the cycle begins |
| Realtime.Executor.CycleStop | src/protocol.c:393-425 | cycle stop in place, and whether planner and stepper are replanned or reset |
| Realtime.Executor.ExecRtSystem | src/protocol.c:235-426 | a whole pass in which no interrupt strikes |
| LineAssembler.AssembledIsFiltered | src/protocol.c:131-171 | filtering character by character with flags is the staged filter of the whole line: strip comments, drop blanks and block deletes, upcase, refuse what does not fit |
| LineAssembler.UpcaseInNumbers | src/protocol.c:163-167 | the 26 small letters become capitals in order, and nothing else changes |
| LineAssembler.CleanInNumbers | src/protocol.c:131-171 | a line is filtered part by part: a comment in parentheses vanishes, everything from a semicolon or an unclosed parenthesis on vanishes, blanks, control characters and slashes vanish |
| LineAssembler.OverflowsExactly | src/protocol.c:157-163 | a line overflows exactly when more than 47 characters are left of it |
| LineAssembler.FinishedLine | src/protocol.c:131-171 | a finished line has at most 47 characters, with no blank, slash, parenthesis to open, semicolon or small letter among them |
| LineAssembler.LinesInNumbers | src/protocol.c:78-172 | a line ends at a newline or a carriage return and is answered on its own |
| LineAssembler.Assembler.TakeChar | src/protocol.c:131-169 | one character, in place, without writing beyond the line buffer |
| LineAssembler.Assembler.EndLine | src/protocol.c:79-129 | the terminated line or an overflow, and a fresh buffer |
| LineAssembler.Assembler.ReadAll | src/protocol.c:78-172 | the results of all lines of the input, in order |
| GcodeWords.GCommandIsTable | src/gcode.c:143-237 | the switch accepts exactly the G commands of the modal groups and finds the group of each |
| GcodeWords.MCommandIsTable | src/gcode.c:239-287 | the same for M commands |
| GcodeTable.CodeTable | src/gcode.c:143-237 | the mode that each G command of motion, distance, feed, units, coordinate systems and non-modal actions sets, as a table of numbers |
| GcodeTable.MCodeTable | src/gcode.c:239-287 | the M commands, each with its group |
| GcodeWords.StepExactly | src/gcode.c:117-332 | a word is imported exactly when it is legal, its modal group or letter is free and its claim on the axis words is unopposed |
| GcodeWords.ImportExactly | src/gcode.c:117-332 | a line is imported exactly when all words are legal, no modal group and no letter occurs twice and at most one command claims the axis words; the block then holds those words |
| GcodeWords.AnyOrder | src/gcode.c:117-332 | an importable line gives the same block in any word order |
| GcodeTable.WordSetsMode | src/gcode.c:143-237 | a command anywhere on an imported line sets the mode of the table |
| GcodeTable.MWordSetsMode | src/gcode.c:239-287 | an M command anywhere on an imported line is one of the table and sets the mode of its group |
| GcodeTable.LetterTable | src/gcode.c:290-318 | the letters a word may have |
| GcodeTable.NearestHundredth | src/gcode.c:126-134 | the number of a command is read as a whole part modulo 256 and the nearest hundredth |
| GcodeTable.ModeHasWord | src/gcode.c:143-237 | a mode is set only by a command on the line |
| GcodeTable.WordSetsValue | src/gcode.c:290-330 | a letter has the value of its word and no other; feeds, line numbers, times, speeds and tools are not negative |
| GcodeLines.ImportIsCoherent | src/gcode.c:143-181 | the claim on the axis words is that of the line's motion or G10, G28, G30, G92 command |
| GcodeLines.UnusedExactly | src/gcode.c:819-830 | the words left over after all checks are exactly those the line has no use for |
| GcodeLines.AcceptedUsesEveryWord | src/gcode.c:819-830 | an accepted line has a use for each of its words |
| GcodeAcceptance.AcceptedExactly | src/gcode.c:346-830 | a line is accepted if and only if its words are legal together and fit: numbers, what each non-modal command asks for, what each kind of motion asks for, and no word without a use; all conditions are on words and state |
| GcodeAcceptance.JogsExactly | src/gcode.c:847-860 | a jog is accepted if and only if it has F, only units, distance and G53 as commands, only axis, F and N words, a feed if it moves, and stays within travel; it is one feed move in units per minute to the stated target |
| GcodeLines.WordOrderIsFree | src/gcode.c:66-1080 | reordering the words of an importable line changes neither answer, state nor motion |
| GcodeLines.OffsetSetsWork | src/gcode.c:554-569 | after G92 each named axis reads the given value in work coordinates, other offsets stay and nothing moves |
| GcodeLines.CoordinateDataIsSet | src/gcode.c:516-552 | G10 stores one system; if it is the active one, L20 makes the named axes read the given values and L2 makes them the origin |
| GcodeAcceptance.StoresSystem | src/gcode.c:516-535 | G10 stores in slots 0 to 5 for P1 to P6, for P0 in that of the active system, and does nothing else |
| GcodeMotion.MoveGoesWhereItSays | src/gcode.c:571-600 | after an accepted rapid, feed or arc line each named axis reads the given value in work coordinates, has moved by it in incremental mode, or stands at it under G53, whatever coordinate system the line selects; other axes have not moved |
| GcodeMotion.MoveWithResetExactly | src/gcode.c:994-996 | a move on the line of a G92.1 reaches the given work coordinate if and only if the axis had no offset before |
| GcodeMotion.HomeIsReached | src/gcode.c:604-621 | G28 and G30 end at the stored position, on the named axes or on all if none is named |
| GcodeActions.MotionIsOfItsMode | src/gcode.c:1000-1033 | from its words: an accepted line with axis words of its own ends with a rapid in G0 and only there, a feed move in G1, a clockwise arc in G2, the other in G3, a probe of its kind in G38.x; at the feed of the line, in inverse time exactly in G93 |
| GcodeAcceptance.MotionGoesToAim | src/gcode.c:571-600 | that motion goes where the axis words send it, with units, distance mode, coordinate system, offset and G53 taken into account |
| GcodeAcceptance.PositionAfterProbe | src/gcode.c:1021-1032 | after a probe the parser stands at the target, where the machine stopped, or where it was, as the probe reports |
| GcodeActions.MovesExactly | src/gcode.c:1000-1033 | a line makes a motion exactly when it has axis words that no other command takes |
| GcodeActions.ActionsAreCounted | src/gcode.c:893-1033 | an accepted line makes exactly one action for each dwell, store and motion, and one or two for G28 and G30 |
| GcodeActions.WaitsForP | src/gcode.c:929 | G4 waits for as many seconds as its P word says |
| GcodeActions.StoresPosition | src/gcode.c:983-988 | G28.1 stores where the parser stands in slot 6, and G30.1 in slot 7 |
| GcodeTable.ModesAfter | src/gcode.c:893-1003 | after an accepted line each mode is that of its command, or the one before |
| GcodeTable.FeedAfter | src/gcode.c:386-434 | the feed after an accepted line |
| GcodeTable.NumbersAfter | src/gcode.c:893-927 | spindle speed is kept without S; tool and line number are zero without T and N, and the line number is at most 10000000 |
| GcodeTable.SystemsAfter | src/gcode.c:943-996 | coordinate system and offset after a line that is no G10 |
| GcodeArcs.CentreOfRadius | src/gcode.c:684-774 | the formula of the radius format gives a point at the distance of the radius from both ends, on the side that makes a positive radius the short way round |
| GcodeArcs.OnlyCentre | src/gcode.c:684-774 | there is only one such point on either side |
| GcodeArcs.RadiusArcIsCircle | src/gcode.c:684-774 | an accepted arc with R runs on that circle, its chord is no longer than twice the radius, and without a chord its centre is not a number |
| GcodeArcs.CentreArcIsNear | src/gcode.c:776-801 | an accepted arc without R has its centre where I and J say, and its distances from both ends differ by at most 0.005 mm, or by a thousandth up to 0.5 mm |
| GcodeMotion.FeedsArePositiveExactly | src/gcode.c:655-658 | over any program every feed move, arc and probe has a positive feed rate if and only if no jog without axis words and with a feed rate of zero is accepted |
| GcodeLines.MissingWordsOfG10 | src/gcode.c:521 | a G10 line that gets as far as this command is answered with a missing word if and only if it names an axis and lacks both P and L; an accepted one has L |
| GcodeLines.MissingPActsAsZero | src/gcode.c:521-535 | a G10 line without P does exactly what it does with P0 |
| GcodeLines.FeedIsConvertedExactly | src/gcode.c:386-434 | the F word is in millimeters per minute if and only if the line is a jog or in millimeters, the line before was in G94, or F is zero |
| GcodeLines.JogKeepsUnnamedAxesExactly | src/gcode.c:847-860 | an accepted jog is one straight move and changes the position only; axes it does not name stay if and only if it names some axis or stands at machine zero |
| GcodeInputs.BareJogMoves | src/gcode.c:847-860 | an accepted jog without axis words that moves the machine to its zero |
| GcodeInputs.IdleJogMoves | src/gcode.c:847-860 | an accepted jog without axis words whose move has no speed |
| GcodeInputs.UnaddressedDataIsStored | src/gcode.c:521-535 | an accepted G10 line without P that moves the origin of the active system |
| GcodeInputs.FeedInInchesIsKept | src/gcode.c:386-434 | an accepted line from G93 to G94 whose F word in inches is taken for millimeters |
| GcodeInputs.ResetMoveOvershoots | src/gcode.c:994-996 | an accepted move with G92.1 that ends at 6 where its line says 5 |
| GcodeInputs.UpwardArcHasNoCentre | src/gcode.c:684-774 | an accepted arc straight up whose centre is not a number |
| GcodePrograms.LineEnds | src/gcode.c:976-1033 | a line that does not probe leaves the parser where its last move ends |
| GcodePrograms.PositionFollowsMotion | src/gcode.c:976-1033 | over any program without probing the parser's position is the end of the last queued move |
| GcodePrograms.RefusedLinesVanish | src/gcode.c:333-342 | a program and the lines of it that are accepted have the same state and the same actions |
| GcodePrograms.InchesAreNotationExactly | src/gcode.c:469-477 | a block in inches and the same block in millimeters fail with the same status or aim at the same points with the same feed, exactly if the F word does not escape conversion |
| GcodeParser.Parser.ImportG | src/gcode.c:143-237 | a G word into the block in place |
| GcodeParser.Parser.ImportM | src/gcode.c:239-287 | an M word into the block in place |
| GcodeParser.Parser.ImportValue | src/gcode.c:290-330 | a value word into the block in place |
| GcodeParser.Parser.ImportLine | src/gcode.c:117-333 | the import loop |
| GcodeParser.Parser.Settle | src/gcode.c:893-964 | modes, rates and coordinate system, assigned in the order of execution |
| GcodeParser.Parser.DoNonModal | src/gcode.c:965-996 | dwell, stored coordinates, predefined positions and offsets |
| GcodeParser.Parser.DoMotion | src/gcode.c:1000-1033 | the motion of the line and the position after it |
| GcodeParser.Parser.GcExecuteLine | src/gcode.c:66-1080 | a line answered with an error has changed no state and queued no motion, a jog changes the position only, and otherwise state and actions are those of the specification |

## Left out

- Floating-point rounding: speeds, lengths and positions are exact reals. Square roots are avoided by keeping squared speeds; unit vectors and junction geometry come in as arbitrary inputs. Square roots of arcs are an input too, and each theorem that needs one to be a root says so.
- Segment timing: the ramp loop of st_prep_buffer (src/stepper.c:878-951) may stop at any distance that its exit conditions allow, at any speed, and the smoothing level of a segment is any of the four. In RAMP_ACCEL a third pass of the loop can make the time step negative, so the speed it leaves is not tied to the distance.
- st_prep_buffer: a call may commit several segments; the model takes one turn of its loop at a time, so that anything may happen between two turns.
- Motion.CommitSegment: the number of ticks of a segment is assumed to fit its 16 bits, which depends on the segment timing.
- MotionRuns.StepsAreConserved: blocks are assumed to have fewer than 2^28 step events, which leaves out the block of exactly 2^28 that Bresenham.SegmentsExactly still allows.
- PlannerRuns.StepKeepsInv: limits stay or rise within a run, and PlannerOverrides treats reductions; the conservation results allow any override.
- PlannerRuns.IncrementalPlanIsOptimal: during a hold the tail decelerates against the plan, so the plan is claimed optimal again only after the hold is complete, at rest or, if the segments ran out, at a speed from which the tail can still meet its exit speed.
- DrivenRuns.DrivenPlanIsOptimal: overrides that lower a nominal speed are left to PlannerOverrides, cycle starts in a hold to StaleProfiles; a hold that has slowed the machine down at the very end of a block is completed only after the next block is loaded.
- PlannerRing.Planner.PlanCycleReinitialize: on an empty ring the replan walks over stale blocks and may leave the planned index on one of them; the model keeps that, and the next line repairs it.
- StepperRing.Stepper.Reset: plan_reset runs before st_reset in the source, with the step generator's pointer into the ring still set; the class lets go of it first, which gives the same end.
- RealtimeRuns.EarlyStartExactly: the pass after the completing one is taken to run undisturbed, with no flag but the cycle start.
- Realtime.Next: overrides, status reports and accessory overrides are not part of the state.
- Homing, probing cycles, parking, dual axis, CoreXY, limit and control pins, timers, port output and the watch over hard limits are not part of the model.
- Spindle and coolant output, laser mode, reports, settings, EEPROM layout and number printing are not part of the model.
- System motions: they use the free head slot of the planner ring, which is modelled; nothing in the build executes them.
- LlpFirmware.Parser.ProcessByte: the counters of frames, errors and timeouts are left out.
- LayerChain.GetFinalPayloadPtr: positions do not wrap at 16 bits, which would take a payload far beyond the maximum.
- LlpPython.LLPParser.ProcessByte: the statistics, which reset() also clears, and the default clock.
- ReceivePath.ReceivePathRefinesWire: realtime commands in a payload raise their flags outside this path; the flags are those of Realtime.
- TransmitPath.TxLine.TxFlush: the transmit ring, its interrupt and the spin limit.
- LineAssembler.Assembler.EndLine: what is done with the line, system commands included.
- GcodeBlock.ExecuteLine: the scanner (read_float) is an input: each word arrives as a letter and a number, or as one of its two errors. Stored coordinates, square roots, what a division by zero leaves, the travel check, and the result of a probe are inputs too; a failed read of stored coordinates does not rewrite them.
- GcodeWords.Significand: a number outside a byte wraps; the C standard leaves that conversion open.
- GcodeBlock.Check: the checks rewrite gc_block in place in the source; here each stage returns the converted values. The plane is always XY, program flow commands do nothing, and line numbers, mist coolant and parking control are compiled out, as in the build.
- GcodeParser.Parser.GcExecuteLine: a queued action is a call to motion control; check mode, a full buffer and an abort inside mc_line are not part of the model.
