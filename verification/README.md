# Verified models of the mobile-manipulation runtime

This project models eight pieces of the mobile-manipulation stack in Dafny and proves what they promise. Each
piece is small enough to be stated completely and subtle enough that its claims are not evident from the code: a
threaded session table, a lock protocol over a lossy link, a geometric kernel and the samplers that rely on it, a
target filter, a one-way handoff latch, a depth filter, a canonical byte encoding, a set of reference files that
must survive a crash, and a stamp join over two bounded buffers.

`dafny verify dfyconfig.toml` checks everything.

| file | what it holds |
|---|---|
| `SegmentDistance.dfy`, `SegmentGuards.dfy` | closest distance of two segments and its optimality; what the epsilon guards cost |
| `StepGuard.dfy`, `CapsuleClearance.dfy`, `TrajectoryClearance.dfy` | the capsule guard, what its margin says about the capsules, one commanded step, a whole trajectory; from samples to the continuous path |
| `SessionProtocol.dfy`, `SessionInvariants.dfy`, `SessionRuns.dfy`, `SessionCapacity.dfy`, `SessionLeaks.dfy` | the tracking service's sessions as a transition system, what every step keeps, what holds in every schedule, schedules that exhaust the capacity account, states that nothing refers to any more |
| `SessionProgress.dfy`, `SessionSweep.dfy` | when a session enters and leaves the table, which updates are served and how they end; what an idle-expiry scan takes out |
| `MaskRle.dfy` | the vectorised run-length encoder against a per-pixel loop |
| `BaseLock.dfy`, `BaseLockLease.dfy` | the owner, the leased latch, their joint runs, the latch under any traffic; what requests and heartbeats achieve, and which runs keep the lease alive |
| `ServoCore.dfy`, `ServoTarget.dfy` | the target filter with rebase and the freshness decision of a tick; the numbers they come to, and convergence |
| `ServoNode.dfy`, `ServoNodeRuns.dfy` | the handoff latch, the stop mute and the final stop, with signals inside a tick; when the latch is set and given up, what goes out |
| `DepthGate.dfy`, `DepthFilter.dfy`, `DepthPixels.dfy`, `DepthStages.dfy` | the two-scale gate on planes; the stages and the drop account; what each does to one pixel; the array code that runs them |
| `TrajectoryDigest.dfy` | the canonical byte stream and a decoder for it |
| `SessionReferences.dfy`, `ReferenceRuns.dfy` | reference writes cut by crashes, and selections that interleave with them; what whole actions leave |
| `StampPairing.dfy`, `PairingRuns.dfy` | the two nodes that join infrared streams by stamp; exactly what they publish and hand on |
| `Options.dfy`, `Sorting.dfy`, `RealProducts.dfy` | shared helpers |

Conventions. Integers are unbounded and reals exact; epsilons are kept where a statement is about them. What a
clock, a network, a model or a sensor contributes is a parameter: every statement holds for all of its values. Code
that updates fields or arrays in place is a class or a method on arrays, proved equal to a function of the old
state; the promises are then proved of that function over whole runs. Where threads or signals interleave, the
model is a transition system whose steps are the regions that are atomic in the program.

## Findings

Some promises do not hold as stated. In each case the code is modelled as it is. What is proved of each:

- *A stop request mutes every later velocity* (the comments at `scripts/runtime/go2w_depth_servo.py:1558-1597`). A
  signal that arrives between the second publish gate and the publish call lets that one command out, and a run from
  start-up does so (`CommittedStopIsReachable`). If and only if a non-zero command is past its last gate when the
  request comes, a later velocity can be non-zero (`StopIsZeroUnlessCommitted`), and it is one command at most.
- *An abandoned handoff asks for nothing any more.* True of every status a tick writes. A run that ends is quiet if
  and only if the core's last decision did not ask, because the document of the final stop is not stripped
  (`EndedRunIsQuietIff`); in live and in shadow mode some run from start-up does ask (`FinalStatusAsksAgain`).
- *Sessions and reservations stay within `max_sessions`.* An init whose reservation a reset discards still publishes.
  `CapacityBound` bounds the excess by the reservations lost, and `CapacityIsAttained` shows that for every
  configuration and every number of losses some schedule attains the bound.
- *Every session that ends has its inference state reset.* An init that lost its reservation can publish over another
  open session of its name. With nothing in flight, a state is reset in some continuation if and only if it was reset
  before or is still listed; `backend.reset` is never called on an overwritten one, whose memory is left to the garbage
  collector (`QuiescentLeakIff`), and every configuration has a schedule that leaves one (`OverwrittenStateLeaks`).
- *A good plan belongs to the selected perception.* `select_perception` takes no lock. A selection is harmless if and
  only if it is compatible (`SelectionIsSafeIffCompatible`); from an empty store, runs lead to a harmful one both after
  a plan and while a plan is being made (`SelectionCanMismatch`).
- *The edge gate leaves planes alone.* On an exact plane with holes anywhere, a pixel is cut if and only if the holes
  leave a valid pixel of its wide window unexplained by every valid pixel of its near window (`PlaneIsCutIff`). That
  needs a hole at one particular place, the near pixel that goes with a valid wide one (`PlaneSurvives`); so it never
  happens without a hole in the near window (`NoHoleSupports`), and it does happen beside one
  (`HoleBesidePlaneIsCut`). For planes rounded to millimetres only the sufficient direction is stated
  (`RoundedPlaneSurvives`): what a rounded map does beyond it depends on how each pixel happens to round, not on slopes
  and holes.
- *Owner and latch agree.* With acknowledgements and statuses of the current latch, always (`RunAgrees`); a locked owner
  stands over an unlocked latch only since a poll past the deadline released it under that very owner
  (`StrandedOnlyByExpiry`). With statuses and commands of any age, they agree all along a run if and only if no late
  status misleads and no stray command undoes the last one (`LateRunAgreesIff`). A stale status can mislead either way
  (`StaleStatusBreaksAgreement`), also after an expiry in an earlier cycle (`EarlierExpiryExcusesNothing`), and since
  the latch does not compare sequence numbers a delayed duplicate locks again (`DelayedDuplicateRelocks`).
- *`_segment_distance` returns the least distance.* With the shipped epsilons, if and only if no numerator is snapped
  and the point guard or parallel guard that fires, if any, is harmless (`LeastIffHarmless`). The numerator guard,
  which sets one fraction to 0 without solving the other again, is never harmless (`NumeratorGuardAlwaysMisses`): two
  nearly parallel segments of length 1 that cross can be reported 1/2 apart (`SnappedFractionMisses`). The other two can
  do harm: the point guards on segments up to 0.1 micrometre (`SnappedSegmentMisses`), the parallel guard on 0.3 mm
  segments that cross at right angles (`CrossingSegmentsMiss`, `ShippedEpsilonsMiss`). The distance is never reported
  too small, only too large. Where no numerator is snapped it is bounded (`GuardedDistanceBound`), and the guard's
  margin carries the same slack (`MarginWithSlack`).

## Model

| member | source | states |
|---|---|---|
| `SegmentDistance.ClosestFractions` | z_manip/fixed_self_collision.py:85-143 | whatever branch is taken, both fractions lie in [0, 1], so the distance returned is one between points of the segments |
| `SegmentDistance.QuotientsAreFractions` | z_manip/fixed_self_collision.py:109-141 | the reassigned numerators over their denominators stay in [0, 1] in all branches, for any epsilon |
| `SegmentDistance.StationaryIsLeast` | z_manip/fixed_self_collision.py:85-143 | the first-order conditions on the unit square suffice for a global minimum of the gap |
| `SegmentDistance.Parallel` | z_manip/fixed_self_collision.py:109-116 | for parallel segments the two interior conditions coincide, so pinning the first fraction loses nothing |
| `SegmentDistance.ConstrainedSolves` | z_manip/fixed_self_collision.py:109-141 | every branch of the pin-and-clamp cascade ends in a point that meets the first-order conditions |
| `SegmentDistance.SegmentGapIsLeast` | z_manip/fixed_self_collision.py:76-143 | for any epsilons, wherever no guard snaps, the routine returns the least distance over all pairs of points and attains it; the exact condition is `SegmentGuards.LeastIffHarmless` |
| `SegmentDistance.ExactSegmentGapIsLeast` | z_manip/fixed_self_collision.py:76-143 | with the epsilons read as zero that holds for all segments, degenerate and parallel ones included |
| `SegmentDistance.SegmentGapSymmetric` | z_manip/fixed_self_collision.py:85-143 | the result does not depend on which segment comes first, nor on the direction of either |
| `SegmentDistance.SnappedSegmentMisses` | z_manip/fixed_self_collision.py:101-107 | the point guards: for every epsilon a segment no longer than its root counts as its first end, and a contact at the other end is missed |
| `SegmentGuards.BestIsStationary` | z_manip/fixed_self_collision.py:85-143 | the converse: a pair of fractions that no other pair beats meets the first-order conditions |
| `SegmentGuards.LeastIffSolved` | z_manip/fixed_self_collision.py:85-143 | for all segments and epsilons, the result is the least distance exactly when its fractions meet the first-order conditions |
| `SegmentGuards.LeastIffHarmless` | z_manip/fixed_self_collision.py:101-143 | the same read guard by guard from the routine's scalars: for short segments one slope has the right sign; for the others no numerator is snapped, and one slope has the right sign if the parallel guard fires |
| `SegmentGuards.SnapAlwaysHarms` | z_manip/fixed_self_collision.py:140-141 | for all segments and epsilons, in every branch of the cascade, a snapped numerator leaves fractions that miss the first-order conditions |
| `SegmentGuards.NumeratorGuardAlwaysMisses` | z_manip/fixed_self_collision.py:140-143 | so whenever the numerator guard fires, some pair of points is nearer than the distance returned |
| `SegmentGuards.GuardedDistanceBound` | z_manip/fixed_self_collision.py:101-143 | where no numerator is snapped, the distance exceeds that of any pair of points by at most a slack of the order of the root of epsilon, over the second length for the parallel guard |
| `SegmentGuards.CrossingSegmentsMiss` | z_manip/fixed_self_collision.py:114-116 | the parallel guard reports segments that cross at right angles in their midpoints half a length apart, up to the fourth root of epsilon/16 |
| `SegmentGuards.SnappedFractionMisses` | z_manip/fixed_self_collision.py:140-141 | the numerator guard reports nearly parallel crossing segments of length 1 at distance 1/2 |
| `SegmentGuards.ShippedEpsilonsMiss` | z_manip/fixed_self_collision.py:101-101 | the shipped epsilon admits both |
| `StepGuard.CheckState` | z_manip/fixed_self_collision.py:231-252 | the margin is the least over the configured pairs, its witness the first pair that attains it with its distance and threshold, and the state is valid exactly when every pair has positive margin |
| `StepGuard.ApartHasMargin` | z_manip/fixed_self_collision.py:231-252 | for every pair, axes farther apart than radii plus clearance everywhere have a positive margin |
| `StepGuard.MarginSeparatesAxes` | z_manip/fixed_self_collision.py:231-252 | for every pair of capsules, a positive margin means at every clearance exactly that the axes keep their threshold, if and only if no epsilon guard does harm |
| `StepGuard.MarginWithSlack` | z_manip/fixed_self_collision.py:231-252 | for every pair on which no numerator is snapped, short and nearly parallel ones included, a margin above the slack means that the axes keep their threshold |
| `CapsuleClearance.CapsulesApartIff` | z_manip/fixed_self_collision.py:231-252 | for all radii and clearances, every point of one capsule is farther than the clearance from every point of the other exactly if the axes keep radii plus clearance |
| `CapsuleClearance.MarginSeparatesCapsules` | z_manip/fixed_self_collision.py:231-252 | so where no epsilon guard does harm a positive margin means exactly that the capsules keep the clearance, and capsules that do always have a positive margin |
| `StepGuard.CheckStep` | z_manip/fixed_self_collision.py:254-326 | refused exactly for bad endpoints or step size; allowed without escaping exactly when start and all samples are clear; escaping exactly when it starts blocked, never deepens by more than the tolerance and ends better; blamed are the first blocked sample, the first one that deepens, or the target |
| `StepGuard.EscapeFloor` | z_manip/fixed_self_collision.py:301-326 | along an allowed escape sample k is at least the current margin less k times the tolerance |
| `StepGuard.NearSampleDistance` | z_manip/fixed_self_collision.py:272-276 | every point of the path lies within half a step of the sample nearest to it |
| `StepGuard.NearSampleMargin` | z_manip/fixed_self_collision.py:272-280 | so a margin L-Lipschitz in joint distance differs from that sample's by at most L·step/2 |
| `StepGuard.EscapePathFloor` | z_manip/fixed_self_collision.py:301-326 | along an allowed escape every continuous point, nearest to sample k, is at least the current margin less k times the tolerance less L·step/2 |
| `StepGuard.SampledPathIsClear` | z_manip/fixed_self_collision.py:272-280 | for every margin L-Lipschitz in joint distance, clear samples bound the margin above -L·step/2 at every continuous point |
| `StepGuard.AllowedStepIsClear` | z_manip/fixed_self_collision.py:262-300 | so an allowed collision-free step has that bound along its whole motion |
| `TrajectoryClearance.EvaluateSegment` | z_manip/trajectory_clearance.py:174-230 | a segment's record counts its samples, holds their least margin and the first sample that attains it, and is valid exactly when all are clear |
| `TrajectoryClearance.Evaluate` | z_manip/trajectory_clearance.py:174-230 | the evidence has one faithful record a segment, the number of checks made, the least margin with its first witness, and is valid exactly when every segment is |
| `TrajectoryClearance.ValidEvidenceIsClear` | z_manip/trajectory_clearance.py:160-230 | valid evidence bounds the margin above -L·step/2 at every continuous point of every edge |
| `TrajectoryClearance.SampleMargins` | z_manip/trajectory_clearance.py:233-249 | the cost's sampler lists the start and then, edge by edge, every later sample |
| `TrajectoryClearance.SameSamples` | z_manip/trajectory_clearance.py:160-249 | the two samplers see the same margins although one repeats waypoints and the other does not |
| `TrajectoryClearance.PenaltyMinimum` | z_manip/trajectory_clearance.py:294-324 | the minimum the penalty reports, taken from the evidence, is the minimum of its own samples |
| `SessionProtocol.PruneIndexed` | docker/edgetam_service/server.py:413-442 | pruning keeps exactly the entries inside the window, with their values |
| `SessionInvariants.StepReferences` | docker/edgetam_service/server.py:507-714 | every step keeps each request's session handle pointing at a live object of the right id |
| `SessionInvariants.StepLocking` | docker/edgetam_service/server.py:653-714 | every step keeps session locks held by exactly the requests whose position says so |
| `SessionInvariants.StepHistories` | docker/edgetam_service/server.py:367-442 | every step keeps frame numbering, coast count and retained history in their bounds, also inside an update and after a failed mask |
| `SessionInvariants.StepTable` | docker/edgetam_service/server.py:520-544 | every step keeps listed sessions open and published, and session and reserved ids disjoint |
| `SessionInvariants.StepReservations` | docker/edgetam_service/server.py:520-544 | every step keeps the account of inits in flight that own, or have lost, their reservation |
| `SessionInvariants.StepCapacity` | docker/edgetam_service/server.py:636-651 | every step keeps sessions plus reservations within the maximum plus lost less orphans |
| `SessionInvariants.StepCommitments` | docker/edgetam_service/server.py:608-714 | every closed state that is not yet reset has a request committed to reset it |
| `SessionRuns.RunInv` | docker/edgetam_service/server.py:507-714 | every schedule of init, update, reset, close, drop and expiry keeps all of these at once; what the schedules achieve is stated by `SessionProgress` and `SessionSweep` |
| `SessionRuns.NoOverlap` | docker/edgetam_service/server.py:546-714 | in every schedule two backend calls on one inference state never overlap |
| `SessionRuns.NoUpdateAfterReset` | docker/edgetam_service/server.py:546-714 | after a reset of a state no update ever reaches it, in any continuation |
| `SessionRuns.FramesInOrder` | docker/edgetam_service/server.py:546-606 | updates reach each state as 1, 2, 3, ... without gap or repeat |
| `SessionRuns.LiveSessionBounds` | docker/edgetam_service/server.py:367-442 | between requests the coast count is the trailing run of failed masks and within budget, and history holds at most limit plus coast budget entries |
| `SessionRuns.CapacityBound` | docker/edgetam_service/server.py:520-544 | ids disjoint; sessions plus reservations at most the maximum plus lost less orphans; so within the maximum when nothing was lost |
| `SessionRuns.OrphansAreInits` | docker/edgetam_service/server.py:520-544 | the orphans of that account are exactly the inits in flight without their reservation |
| `SessionRuns.QuiescentStates` | docker/edgetam_service/server.py:608-714 | with nothing in flight every state is listed, was reset, or was overwritten, and overwriting costs a lost reservation each |
| `SessionLeaks.StepLeaves` | docker/edgetam_service/server.py:507-714 | no step brings back a reference to a session object that neither the table nor a request refers to, or changes it |
| `SessionLeaks.ForgottenForEver` | docker/edgetam_service/server.py:507-714 | so in every continuation its state is never updated, closed or reset |
| `SessionLeaks.QuiescentLeakIff` | docker/edgetam_service/server.py:520-544 | with nothing in flight, some continuation has a state reset exactly if it was reset before or is listed; otherwise it was overwritten and stays as it is for ever |
| `SessionLeaks.OverwrittenStateLeaks` | docker/edgetam_service/server.py:520-544 | for every configuration some schedule ends with nothing in flight and an open state that no continuation resets |
| `SessionCapacity.CapacityIsAttained` | docker/edgetam_service/server.py:608-634 | for every configuration and every k, a schedule loses k reservations, leaves no orphan and publishes k sessions more than the maximum |
| `SessionProgress.TableAfter` | docker/edgetam_service/server.py:507-714 | the table after any step: a session is listed exactly if it was and the step is no reset, shutdown or overwriting publication of its id, no scan or access of it later than the timeout after its last access and no drop by a refused update, or if the step publishes it |
| `SessionProgress.DropIff` | docker/edgetam_service/server.py:551-606 | a request is about to drop a session exactly if its last step found the wrong frame, the frame limit, the wrong image size, a fault, a rejected mask, or no mask with the coasting budget used up |
| `SessionProgress.LeavesForAReason` | docker/edgetam_service/server.py:546-714 | in every schedule a session that was listed is no longer listed exactly if some step in between took it out for one of these reasons; a drop is preceded by the step of the same request that condemned it |
| `SessionProgress.UpdateIsServed` | docker/edgetam_service/server.py:546-580 | in every interleaving that does not displace the session, an update that holds its lock within the timeout, with the next frame of the right size below the limit, reaches the backend with that frame after three steps of its own, the session still listed |
| `SessionProgress.MaskAnswers` | docker/edgetam_service/server.py:601-606 | an accepted mask ends the update with the session listed and free: last frame, coasting count 0, last access now, and exactly the frames within the history limit retained |
| `SessionProgress.CoastAnswers` | docker/edgetam_service/server.py:575-589 | no mask below the budget keeps the session listed and free with one more frame coasted, the frame counted and the access time renewed |
| `SessionProgress.DueAfter` | docker/edgetam_service/server.py:676-714 | a refused update, an expired access and an expiring scan are a fixed number of their own steps away from the reset of the state |
| `SessionProgress.ResetFollows` | docker/edgetam_service/server.py:676-714 | in every schedule a request that owes a reset has called it once it has taken that many steps |
| `SessionProgress.UpdateBegins` | docker/edgetam_service/server.py:654-662 | an update of a listed id waits for that session; one of an unknown id ends |
| `SessionProgress.UpdateLocksIff` | docker/edgetam_service/server.py:663-664 | it gets the lock exactly if it is free |
| `SessionProgress.AdmittedIff` | docker/edgetam_service/server.py:636-651 | an init is let in exactly if its id is neither listed nor reserved and there is room |
| `SessionProgress.PublishedTrack` | docker/edgetam_service/server.py:522-535 | an init that ends well lists an open session at frame 0 with its access time and size, and gives up its reservation |
| `SessionProgress.NextFrameIsAnswered` | docker/edgetam_service/server.py:546-606 | from the request to its end: with its lock free a listed session answers the next frame that comes in time, and that frame reached the backend |
| `SessionSweep.ScanIsExact` | docker/edgetam_service/server.py:699-714 | a scan at one clock reading takes out exactly the sessions that nobody holds and that were last accessed more than the timeout ago, has their states reset, and changes nothing of the others |
| `MaskRle.PixelLoop` | docker/edgetam_service/server.py:261-283 | the per-pixel loop computes the runs |
| `MaskRle.VectorisedIsLoop` | docker/edgetam_service/server.py:261-283 | the edge-difference encoder equals the per-pixel loop for every mask |
| `MaskRle.RunsDecode` | docker/edgetam_service/server.py:261-283 | decoding gives the pixels back, counts sum to their number, only the first may be zero |
| `MaskRle.EncodeRoundTrip` | docker/edgetam_service/server.py:261-283 | for every rectangular mask the counts decode to it pixel by pixel in column order and sum to height times width |
| `BaseLock.BaseLockLatch.Apply` | scripts/runtime/go2w_base_lock.py:374-413 | one command, malformed ones included, moves the latch as the value function says, field by field |
| `BaseLock.BaseLockLatch.Poll` | scripts/runtime/go2w_base_lock.py:415-422 | a poll expires a lease that has run out and changes nothing else |
| `BaseLock.BaseLockController.RequestLock` | scripts/runtime/go2w_base_lock.py:158-199 | owner, latch and the list of commands sent after a lock request, for every fate of the command |
| `BaseLock.BaseLockController.RequestUnlock` | scripts/runtime/go2w_base_lock.py:201-220 | the same for an unlock request |
| `BaseLock.BaseLockController.Heartbeat` | scripts/runtime/go2w_base_lock.py:239-269 | owner, latch and commands sent after a heartbeat; what it achieves is `BaseLockLease.BeatAchieves` |
| `BaseLock.BaseLockController.ObserveStatus` | scripts/runtime/go2w_base_lock.py:222-237 | a status only ever advances a pending request |
| `BaseLock.RunAgrees` | scripts/runtime/go2w_base_lock.py:158-269 | in every joint run that may lose commands or acks: an unlocked owner means an unlocked latch, the number is odd exactly while engaged, each command sent says lock exactly when its number is odd, and a locked owner over an unlocked latch is in a lapse |
| `BaseLock.LapsedIffExpired` | scripts/runtime/go2w_base_lock.py:415-422 | in every run, late statuses and stray commands included, a lapse is exactly a stretch that a poll past the deadline began under that owner and that no lock has ended |
| `BaseLock.StrandedOnlyByExpiry` | scripts/runtime/go2w_base_lock.py:222-269 | so in every joint run a locked owner stands over an unlocked latch only since such a poll, whatever expired in earlier cycles |
| `BaseLock.MovingBaseSendsNothing` | scripts/runtime/go2w_base_lock.py:158-184 | striking all requests made while the base moves out of a joint run leaves latch, owner and commands sent the same |
| `BaseLock.RequestsAreIdempotent` | scripts/runtime/go2w_base_lock.py:184-211 | remark: a repeated request sends nothing, whatever became of the first |
| `BaseLock.StatusAgreesIff` | scripts/runtime/go2w_base_lock.py:222-237 | a status of any age keeps the agreement exactly unless it confirms an unlock over a locked latch or a lock over an unlocked one |
| `BaseLock.LateCommandAgreesIff` | scripts/runtime/go2w_base_lock.py:374-413 | a command of any age keeps the agreement exactly unless it locks under an unlocked owner or unlocks under one that holds the lock |
| `BaseLock.LateRunAgreesIff` | scripts/runtime/go2w_base_lock.py:158-269 | a run with late statuses and stray commands agrees all along exactly when none of them does harm |
| `BaseLock.AckIsStatus` | scripts/runtime/go2w_base_lock.py:184-237 | taking in an acknowledgement is reading its status, so one that is out of date is a late status |
| `BaseLock.StaleStatusBreaksAgreement` | scripts/runtime/go2w_base_lock.py:222-237 | an out-of-date unlocked status leaves an unlocked owner over a locked latch, and an out-of-date locked one a locked owner over an unlocked latch that never expired |
| `BaseLock.EarlierExpiryExcusesNothing` | scripts/runtime/go2w_base_lock.py:222-237 | the same after a lease that ran out in an earlier cycle: the late status does harm and the run does not agree |
| `BaseLock.LatchTracksLastLock` | scripts/runtime/go2w_base_lock.py:374-422 | under any loss, delay, duplication and order, the latch is locked exactly when some lock is the last, not unlocked and not overtaken by a late poll, and its deadline is that lock's |
| `BaseLock.TrackStep` | scripts/runtime/go2w_base_lock.py:374-422 | one more input, of any kind, keeps that |
| `BaseLock.LockedAfterPollIsLeased` | scripts/runtime/go2w_base_lock.py:415-422 | after a poll a locked latch has had a lock applied whose lease reaches to the poll |
| `BaseLock.ExpiriesAreOverduePolls` | scripts/runtime/go2w_base_lock.py:415-422 | the watchdog counter is exactly the number of polls that came past the lease of a lock in force |
| `BaseLock.RenewedLeaseNeverExpires` | scripts/runtime/go2w_base_lock.py:239-269 | with a monotone clock, if the first lock or unlock after each lock comes within its lease, and the polls do after a lock nothing follows, the watchdog never expires |
| `BaseLock.ReleasedLeaseIsRenewed` | scripts/runtime/go2w_base_lock.py:374-422 | those hypotheses admit a lease that is released half way and polled long after its end |
| `BaseLock.DelayedDuplicateRelocks` | scripts/runtime/go2w_base_lock.py:374-413 | a lock delivered again after its unlock locks the base again |
| `BaseLockLease.BeatAchieves` | scripts/runtime/go2w_base_lock.py:239-269 | in every joint run a heartbeat of an engaged owner sends one lock command with its name and number and, unless lost, leaves the base locked until one lease later; with an unlock pending it sends that again and, acknowledged, unlocks owner and base; otherwise it does nothing |
| `BaseLockLease.LockAchieves` | scripts/runtime/go2w_base_lock.py:158-199 | in every joint run a lock request is refused while the base moves and sends nothing for an engaged owner; any other takes the next number, sends one command and, unless lost, leaves the base locked until one lease later |
| `BaseLockLease.UnlockAchieves` | scripts/runtime/go2w_base_lock.py:201-220 | in every joint run an unlock request of an engaged owner takes the next number, sends one command and, unless lost, leaves the base unlocked; acknowledged, the owner too; others do nothing |
| `BaseLockLease.EventTells` | scripts/runtime/go2w_base_lock.py:374-413 | the event reported for a document is what the latch did with it |
| `BaseLockLease.BeatsKeepTheBaseLocked` | scripts/runtime/go2w_base_lock.py:239-269 | with a monotone clock, no lease ever runs out in a joint run exactly if every poll that finds a delivered lock request or heartbeat in force finds one at most a lease old; and then the base is locked exactly while one is in force |
| `BaseLockLease.LatchRemembers` | scripts/runtime/go2w_base_lock.py:374-422 | under any traffic a locked latch reports source and time of the lock that began the stretch, and an unlocked one nothing |
| `ServoCore.DepthServoCore.ObserveTarget` | scripts/runtime/go2w_depth_servo.py:985-1087 | one observation moves all fields of the core as the value function says; what that comes to, case by case, is `ServoTarget` |
| `ServoCore.DepthServoCore.Tick` | scripts/runtime/go2w_depth_servo.py:1124-1290 | one tick decides and updates the core as the value function says |
| `ServoCore.DepthServoCore.Reset` | scripts/runtime/go2w_depth_servo.py:1089-1107 | a reset gives back the initial core |
| `ServoCore.RunSynchronised` | scripts/runtime/go2w_depth_servo.py:985-1087 | in every run, geometry present means equal receipt stamps and a geometry derived from the target now held |
| `ServoCore.TransformsAreNeverTooOld` | scripts/runtime/go2w_depth_servo.py:1136-1184 | after every run, a tick reports missing transforms exactly when a fresh tracked target has no geometry, never by age |
| `ServoCore.TargetStaysInBox` | scripts/runtime/go2w_depth_servo.py:1026-1076 | in every run the filtered target is inside the box of raw observations used since the last rebase, hence in front of the camera |
| `ServoCore.CountersAccount` | scripts/runtime/go2w_depth_servo.py:1005-1077 | accepted plus rejected less rebases is the number of calls since the last reset not refused as malformed |
| `ServoCore.CoherentOutliersRebase` | scripts/runtime/go2w_depth_servo.py:1032-1062 | from any filter state, as many coherent outliers as the setting asks for force a rebase, refused readings in between notwithstanding |
| `ServoTarget.MedianIsMiddle` | scripts/runtime/go2w_depth_servo.py:1065-1069 | the median of a window is half way between its lower and upper middle entry: at most half of the entries lie strictly on either side |
| `ServoTarget.NearReadingBlends` | scripts/runtime/go2w_depth_servo.py:1026-1087 | a reading within the jump distance joins the newest part of the window, and the error of the target against the window median shrinks by the factor 1 - alpha on each axis |
| `ServoTarget.FirstReadingIsTarget` | scripts/runtime/go2w_depth_servo.py:1063-1087 | the first reading is the target |
| `ServoTarget.FarReadingRebasesIff` | scripts/runtime/go2w_depth_servo.py:1030-1062 | a reading beyond it joins the newest outliers; exactly if these are enough and within the spread of their median the filter restarts on them, otherwise target and window stay |
| `ServoTarget.UnusableReadingIsIgnored` | scripts/runtime/go2w_depth_servo.py:1006-1018 | a reading that is too old is only counted, and a malformed one changes nothing |
| `ServoTarget.ErrorDecays` | scripts/runtime/go2w_depth_servo.py:1063-1076 | once the window holds one point only, k more readings of it leave (1 - alpha)^k of the error |
| `ServoTarget.FullWeightFollows` | scripts/runtime/go2w_depth_servo.py:1063-1076 | with alpha 1 the target is the window median |
| `ServoTarget.TickPublishes` | scripts/runtime/go2w_depth_servo.py:1124-1290 | a tick proposes the decision exactly if the controller is asked, publishes it exactly if also live, and zero otherwise; when it is asked, and with what geometry, in clock readings |
| `ServoTarget.DoneIffHandedOff` | scripts/runtime/go2w_depth_servo.py:1222-1290 | in every run the servo is done exactly if some tick handed off and nothing has reset it since |
| `ServoNode.LatchIsOneWay` | scripts/runtime/go2w_depth_servo.py:384-470 | once latched, every later velocity is zero, and the latch moves only to the abandoned phase and stays there |
| `ServoNode.StopMutes` | scripts/runtime/go2w_depth_servo.py:1558-1597 | after a stop request with no command past its last gate, every later velocity is zero, the final stop's included |
| `ServoNode.StopIsZeroUnlessCommitted` | scripts/runtime/go2w_depth_servo.py:2334-2354 | that condition is exact: with a non-zero command past its last gate some continuation sends it |
| `ServoNode.CommittedStopIsReachable` | scripts/runtime/go2w_depth_servo.py:2316-2354 | from start-up, any non-zero command of a live tick can be overtaken by a stop request after its last gate |
| `ServoNode.AtMostOneLateCommand` | scripts/runtime/go2w_depth_servo.py:2334-2354 | even then only that one command follows a stop request |
| `ServoNode.ShadowIsSilent` | scripts/runtime/go2w_depth_servo.py:2750-2834 | shadow mode publishes no velocity in any run |
| `ServoNode.AbandonedStep` | scripts/runtime/go2w_depth_servo.py:473-502 | a status written under an abandoned latch asks for a handoff exactly if it is the final stop's and the core's last decision asked |
| `ServoNode.AbandonedAsksForNothing` | scripts/runtime/go2w_planning_control.py:1661-1687 | so no status before the final stop is read as a request |
| `ServoNode.EndedRunIsQuietIff` | scripts/runtime/go2w_depth_servo.py:2814-2834 | a run that ends under an abandoned latch writes only statuses that ask for nothing exactly when the core's last decision did not ask |
| `ServoNode.FinalStatusAsksAgain` | scripts/runtime/go2w_depth_servo.py:2814-2834 | in live and in shadow mode, a run from start-up abandons its handoff and ends with a status that is read as a request |
| `ServoNodeRuns.LatchedIffAsked` | scripts/runtime/go2w_depth_servo.py:384-412 | in every run the latch is set exactly if some decision asks for a handoff |
| `ServoNodeRuns.AbandonedIffTooLate` | scripts/runtime/go2w_depth_servo.py:415-470 | in every run of a latched node the latch is given up exactly if a decision comes 20 s or more after it was set; until then it stays the same |
| `ServoNodeRuns.LiveTickPublishes` | scripts/runtime/go2w_depth_servo.py:2750-2812 | an uninterrupted live tick publishes exactly what its core decided and then its status, or zero once a handoff was asked for |
| `ServoNodeRuns.SentIsDecided` | scripts/runtime/go2w_depth_servo.py:2750-2834 | in every run each velocity sent is zero or what a decision of the run put out that asks for no handoff |
| `ServoNodeRuns.FinalStopSendsThree` | scripts/runtime/go2w_depth_servo.py:2814-2834 | the final stop of a live node sends three zeros, stop request or not, and ends with its status |
| `DepthGate.WindowBound` | scripts/runtime/ffs_depth_filter.py:292-295 | the dilated value bounds every in-image entry of the window |
| `DepthGate.Greatest` | scripts/runtime/ffs_depth_filter.py:292-295 | the dilated value is one of those entries |
| `DepthGate.NearPixel` | scripts/runtime/ffs_depth_filter.py:240-311 | for a plane of any slope, the rise to a pixel of the wide window is covered by the rise to one particular pixel of the near window, inside the image also at its border |
| `DepthGate.NoHoleSupports` | scripts/runtime/ffs_depth_filter.py:285-311 | a near window without a hole supports its pixel: the near pixel that goes with each valid wide one is valid |
| `DepthGate.NearPlaneSurvives` | scripts/runtime/ffs_depth_filter.py:240-311 | on a map within e of a plane of any slope, borders included, no supported pixel is cut, so none without a hole in its near window, if margin and quantisation allowance cover 2·gain·e |
| `DepthGate.PlaneSurvives` | scripts/runtime/ffs_depth_filter.py:240-311 | an exact plane loses no supported pixel, for all radii, margins and slopes: one is cut only if a valid wide pixel has a hole at its own near pixel |
| `DepthGate.PlaneIsCutIff` | scripts/runtime/ffs_depth_filter.py:240-311 | on an exact plane with any holes, a valid pixel is cut exactly when some valid pixel of its wide window is explained by no valid pixel of its near window |
| `DepthGate.RoundedPlaneSurvives` | scripts/runtime/ffs_depth_filter.py:289-311 | nor does a plane rounded to whole millimetres at a supported pixel, from the depth on at which the margin covers the rounding |
| `DepthGate.DefaultGateKeepsPlanes` | scripts/runtime/ffs_depth_filter.py:240-311 | the shipped settings meet that from the 280 mm near clip on |
| `DepthGate.NearestPixelSurvives` | scripts/runtime/ffs_depth_filter.py:285-311 | on any map a pixel with nothing nearer in its wide window is never cut |
| `DepthGate.StepBehindFlatIsCut` | scripts/runtime/ffs_depth_filter.py:240-311 | a pixel with a flat near window and something nearer by more than the slack in the wide one is cut |
| `DepthGate.HoleBesidePlaneIsCut` | scripts/runtime/ffs_depth_filter.py:289-311 | a pixel of an exact plane beside a hole is cut |
| `DepthPixels.FiresIff` | scripts/runtime/ffs_depth_filter.py:289-311 | on every map the gate fires at a pixel exactly if some wide pixel exceeds it by more than the scaled step to every near pixel plus margin and quantisation allowance |
| `DepthPixels.GateDropsIff` | scripts/runtime/ffs_depth_filter.py:289-311 | on a depth map exactly the valid pixels at which that holds in disparity are dropped |
| `DepthFilter.SmoothingKeepsMask` | scripts/runtime/ffs_depth_filter.py:374-403 | the median neither fills a hole nor makes one |
| `DepthFilter.SmoothingStaysInWindow` | scripts/runtime/ffs_depth_filter.py:392-403 | a pixel the median changes lies in a window without holes and gets a depth found there |
| `DepthPixels.SmoothingTakesMiddle` | scripts/runtime/ffs_depth_filter.py:392-403 | where the large window has no hole, else where the 3x3 window has none, the result is a depth of that window with fewer than half of its border-replicated entries below and fewer than half above; every other pixel is unchanged |
| `DepthFilter.SpeckleDropsExactly` | scripts/runtime/ffs_depth_filter.py:353-371 | for every constant: a valid pixel is dropped exactly by the component filter or, with a constant set, under the floor or beyond 128 times the constant; the value saturates exactly from 32768 on |
| `DepthFilter.ShippedConstantFits` | scripts/runtime/ffs_depth_filter.py:94-109 | with the shipped constant a 16-bit depth is dropped only under the floor or by the component filter, and nothing saturates |
| `DepthFilter.BlendIsBetween` | scripts/runtime/ffs_depth_filter.py:406-424 | with a weight in [0, 1] a blended depth lies between the two it blends |
| `DepthPixels.BlendIsWeighted` | scripts/runtime/ffs_depth_filter.py:406-424 | exactly where both depths are valid and differ by no more than the threshold the result is their weighted mean cut to whole millimetres; elsewhere the current depth |
| `DepthPixels.ClampKeepsRange` | scripts/runtime/ffs_depth_filter.py:222-237 | the clamp keeps exactly the depths in range and makes holes of the others |
| `DepthFilter.SpreadIsOfValidPixels` | scripts/runtime/ffs_depth_filter.py:314-332 | the gradient gate drops exactly the valid pixels that see two valid depths too far apart; the sentinels play no part |
| `DepthFilter.ChainAccounts` | scripts/runtime/ffs_depth_filter.py:427-483 | for any settings and any number of stages, valid pixels were valid before, and the non-negative drop counts of the enabled stages add up to what is missing |
| `DepthFilter.MedianDropsNothing` | scripts/runtime/ffs_depth_filter.py:469-470 | the median's drop count is zero |
| `DepthPixels.ChainOrder` | scripts/runtime/ffs_depth_filter.py:427-470 | clamp, edge, speckle, median and temporal run in this order, each on the result of the one before |
| `DepthPixels.ChainStaysInRange` | scripts/runtime/ffs_depth_filter.py:427-483 | with the clamp on every valid depth that comes out is in range, for any settings of the other stages |
| `DepthStages.ClampRange` | scripts/runtime/ffs_depth_filter.py:222-237 | the masked copy equals the clamped map |
| `DepthStages.ToDisparity` | scripts/runtime/ffs_depth_filter.py:211-219 | the in-place division equals the disparity map, holes kept at zero |
| `DepthStages.RemoveEdgeBleed` | scripts/runtime/ffs_depth_filter.py:289-311 | the sequence of in-place updates equals the gate, pixel by pixel; errors exactly for bad radii or a zero constant |
| `DepthStages.RemoveSpeckles` | scripts/runtime/ffs_depth_filter.py:353-371 | the masked copy equals the map without specks |
| `DepthStages.SmoothBanding` | scripts/runtime/ffs_depth_filter.py:392-403 | the two masked copies equal the hole-aware median, whose rank is `DepthPixels.SmoothingTakesMiddle` |
| `DepthStages.TemporalEma` | scripts/runtime/ffs_depth_filter.py:406-424 | the blend, or a copy when there is no previous map of that shape |
| `DepthStages.FilterDepth` | scripts/runtime/ffs_depth_filter.py:427-483 | the result is the chain of enabled stages, its mask inside the input's; `removed` is the sum of the drop counts; disabled, the input itself comes back |
| `TrajectoryDigest.StripKeeps` | z_manip/trajectory_digest.py:35-37 | stripping changes nothing exactly when neither end is white space |
| `TrajectoryDigest.DistinctBySize` | z_manip/trajectory_digest.py:100-104 | comparing set size with length decides that no name repeats |
| `TrajectoryDigest.Float64Sequence` | z_manip/trajectory_digest.py:44-74 | the loop accepts exactly the fields of allowed length with finite doubles, and produces their encoding |
| `TrajectoryDigest.CanonicalStream` | z_manip/trajectory_digest.py:92-141 | an error exactly for the trajectories that are not valid; for the others the digest is fed their encoding |
| `TrajectoryDigest.Utf8Read` | z_manip/trajectory_digest.py:35-41 | text without surrogates is recovered from its UTF-8 form (section 3 of RFC 3629) |
| `TrajectoryDigest.Utf8Exact` | z_manip/trajectory_digest.py:35-41 | every byte string the decoder accepts is the UTF-8 form of what it returns |
| `TrajectoryDigest.RoundTrip` | z_manip/trajectory_digest.py:92-141 | the decoder recovers frame, stamp, names, every point field and every duration from the stream, and leaves what follows |
| `TrajectoryDigest.DecodeExact` | z_manip/trajectory_digest.py:92-141 | whatever the decoder accepts is the encoding of what it returns |
| `TrajectoryDigest.StreamIsInjective` | z_manip/trajectory_digest.py:35-141 | equal streams mean equal trajectories, and no stream is a proper prefix of another |
| `TrajectoryDigest.StreamsAreDecodable` | z_manip/trajectory_digest.py:35-141 | a byte string is some valid trajectory's stream exactly when the decoder consumes it and returns a valid trajectory |
| `TrajectoryDigest.SmallStream` | z_manip/trajectory_digest.py:92-141 | the stream of a small trajectory byte by byte: the order of the parts, their widths and the order of the bytes |
| `SessionReferences.ReadOnlySessionService.RemoveReferences` | z_manip/read_only_sessions.py:435-442 | the loop drops the names in order and reports those that were there |
| `SessionReferences.ReadOnlySessionService.RunPerception` | z_manip/read_only_sessions.py:520-590 | a perception makes exactly its sequence of writes: record, latest, and on success both planning references dropped before the new perception is good and selected; a good one leaves exactly the three references to it, a failed one changes only the latest |
| `SessionReferences.ReadOnlySessionService.RunPlanning` | z_manip/read_only_sessions.py:631-713 | a planning run makes exactly its writes and succeeds exactly from a selected, successful, unchanged perception with a good backend; then it is latest and good, otherwise latest only |
| `SessionReferences.ReadOnlySessionService.ClearCurrentContext` | z_manip/read_only_sessions.py:608-629 | clearing drops the selection first and the plan last; afterwards no reference is left, the attempts are unchanged, and exactly the references that were there are reported, each once |
| `SessionReferences.ReadOnlySessionService.SelectPerception` | z_manip/read_only_sessions.py:597-606 | refused for anything but a successful, unchanged perception |
| `SessionReferences.WriteKeeps` | z_manip/read_only_sessions.py:579-590 | every single write of every action keeps the invariant |
| `SessionReferences.PlansMatchSelections` | z_manip/read_only_sessions.py:579-713 | at every point of every run, cut by crashes anywhere, a good plan was made from the selected perception if one is selected, and both name succeeded attempts; runs without a selection need no condition |
| `ReferenceRuns.CompletedActionLeaves` | z_manip/read_only_sessions.py:579-713 | whatever selections fall between its writes, a completed clear leaves no reference, a good perception the three that name it and no plan, a planning its plan; only which perception is selected may differ |
| `ReferenceRuns.NoPlanUntilPlanned` | z_manip/read_only_sessions.py:608-713 | without a good plan or one in the making, none is on disk at any cut of a run in which no planning succeeds |
| `ReferenceRuns.ClearedPlanStaysGone` | z_manip/read_only_sessions.py:608-713 | so from a completed clear or a good perception until the next planning that succeeds, no good plan is on disk at any cut |
| `SessionReferences.SelectionIsSafeIffCompatible` | z_manip/read_only_sessions.py:597-606 | a selection keeps every later cut good exactly when neither the good plan nor one about to be published was made from another perception |
| `SessionReferences.SelectionCanMismatch` | z_manip/read_only_sessions.py:597-606 | from an empty store, runs lead to a selection that leaves a good plan for another perception, after the plan and while it is being made |
| `StampPairing.EvictOldest` | scripts/runtime/ffs_ir_pair_throttle.py:62-63 | the loop evicts oldest stamps until the bound holds |
| `StampPairing.IrPairThrottle.Callback` | scripts/runtime/ffs_ir_pair_throttle.py:59-74 | one arrival: buffers, rate cap, publishes and the error of a missed pop |
| `StampPairing.FfsDepthRelay.Callback` | scripts/runtime/ffs_depth_relay.py:150-163 | the same join with the larger buffer and a latest-only slot |
| `StampPairing.PopMissesIff` | scripts/runtime/ffs_ir_pair_throttle.py:59-68 | for arbitrary stamps, the pop misses its key exactly when the stamp waits in the other buffer while its own is full of newer ones |
| `StampPairing.BuffersSound` | scripts/runtime/ffs_ir_pair_throttle.py:59-68 | for two increasing streams in any interleaving the buffers stay disjoint, bounded and hold what came |
| `StampPairing.NoPopMisses` | scripts/runtime/ffs_ir_pair_throttle.py:64-68 | then no pop misses, and both halves of a match came with the stamp of the arrival that completed it |
| `StampPairing.MatchesIncrease` | scripts/runtime/ffs_ir_pair_throttle.py:64-68 | later matches have greater stamps |
| `StampPairing.PartnersMeet` | scripts/runtime/ffs_ir_pair_throttle.py:59-68 | two messages of one stamp are joined, exactly those two, whenever fewer messages than the bound come between them on the earlier one's stream |
| `StampPairing.PublishesAreSpaced` | scripts/runtime/ffs_ir_pair_throttle.py:69-74 | published stamps strictly increase, both halves came with them, publishes are an interval apart |
| `PairingRuns.PublishedIff` | scripts/runtime/ffs_ir_pair_throttle.py:59-74 | for any stamps, an arrival adds a frameset exactly if it completes a pair an interval or more after the last publish: that pair |
| `PairingRuns.PairIsPublished` | scripts/runtime/ffs_ir_pair_throttle.py:59-74 | so two partners with fewer than 30 messages between them are published together when the later one comes, if an interval has passed |
| `StampPairing.RelayHandsOnInOrder` | scripts/runtime/ffs_depth_relay.py:150-163 | whenever the worker empties the slot, it takes matched stamps in increasing order |
| `PairingRuns.SlotHoldsLast` | scripts/runtime/ffs_depth_relay.py:150-163 | for any stamps, the slot holds exactly the last pair completed, until the worker takes it |
| `PairingRuns.WorkerTakesLast` | scripts/runtime/ffs_depth_relay.py:166-181 | the worker takes the last pair completed unless it has it already, and otherwise nothing |
| `PairingRuns.ReceivedAreMatches` | scripts/runtime/ffs_depth_relay.py:150-163 | the relay counts exactly the pairs completed |
| `PairingRuns.PairReachesSlot` | scripts/runtime/ffs_depth_relay.py:150-163 | two partners with fewer than 60 messages between them are in the slot when the later one has come |
| `PairingRuns.BytesAreCounted` | scripts/runtime/ffs_depth_relay.py:150-152 | the bytes of every arrival are counted |

## Left out

- HTTP handlers, JPEG and base64 decoding, ROS nodes and publishers, containers and process orchestration: plumbing around the modelled logic.
- EdgeTAM, stereo, detection, grasp and whole-body solvers: a backend call succeeds, fails to track or faults, and a controller's decision is arbitrary.
- Rounding of floating-point numbers and 32-bit intermediates of the array code: arithmetic is exact.
- SHA-256: statements are about the bytes hashed.
- Python values of the wrong type (missing attributes, booleans for integers, unhashable names): inputs are typed, except for the elements of a trajectory field and the documents the latch receives.
- OpenCV's component filter: it keeps an arbitrary set of pixels, so its size and tolerance settings play no part.
- The heartbeat thread's start and stop times: a heartbeat is a call at any time.
- BaseLock.RunAgrees: acknowledgements report the latch after the command; one that is older is an unread acknowledgement followed by a late status (`AckIsStatus`), which `LateRunAgreesIff` covers.
- Capture stamps and clock skew; streams whose own stamps go back, beyond the exact condition for a missed pop.
- The side latch, the presentation phases and the legacy optical-depth branch of the servo core, and the posture and arm-view intents of the node.
- The publish calls of the servo node as methods: a signal can fall inside them, so the node is a transition system and not a class.
- The smooth penalty's value and gradient; the evidence and its minimum are modelled.
- File formats, manifests, path checks and the audit history of the session service: a record or a reference is one atomic write.
- Benchmarks, reports, packaging and configuration loading: they would only add easy members.
- DepthGate.RoundedPlaneSurvives: sufficient only; on a rounded plane next to holes the outcome depends on how each pixel rounds.
- SegmentGuards.GuardedDistanceBound: no bound where a numerator is snapped, because there the error can be half a segment; the exact condition covers that case.
