# Verification of the capture control plane

Vixel captures synchronized images from many GenICam cameras. Its control plane is a set of small
protocols between four programs: the GenICam provider schedules actions and serves frames, the recorder
turns requests into operations and stores images, the manager hands out leases and assigns modes, and
the registry keeps the inventory. This project models those protocols in Dafny and proves what they keep.

`dafny verify dfyconfig.toml` checks everything.

| component | specification and theorems | the code's own form |
|---|---|---|
| frame clock arithmetic | FrameTimestamp.dfy | (pure) |
| pairing of buffers and requests | FrameMatching.dfy | its two loops |
| frame pipeline of a camera | FramePipeline.dfy | CameraSession.dfy |
| PTP action scheduler | ActionScheduling.dfy | ActionScheduler.dfy |
| stream recovery | StreamRecovery.dfy | its class |
| cadence and sequence timing | CaptureCadence.dfy, SequenceTiming.dfy | (pure) |
| chunk transport | ChunkTransport.dfy | its class and publisher |
| capture operations | CaptureOperations.dfy, CaptureIdentifiers.dfy, OperationRetention.dfy | CaptureRecorder.dfy |
| goal admission | GoalAdmission.dfy | its class |
| capture leases, assignments | CaptureLeases.dfy, CaptureAssignments.dfy, CaptureControl.dfy | CaptureManager.dfy |
| identity and inventory | HardwareIdentity.dfy, Inventories.dfy, InventoryEffects.dfy, InventoryRoundTrips.dfy, IdentityCollisions.dfy, AddressPool.dfy | Registry.dfy |

Each protocol is a step function over a value that holds the code's fields (and, where a theorem needs
it, the history the code does not keep). The theorems quantify over all runs of those steps. Where the
code updates an object in place, a class has those fields and each method is proved to do exactly the
step. For the main steps a theorem of its own says exactly when the step succeeds and what it achieves, in
terms of cameras, callers, times and events (the names end in `IsExact`, `Exactly` or `ReachesAll`). Optional.dfy, Sequences.dfy and Numerals.dfy hold what several modules share.

Where the code does not keep what one might expect of it, the project says so and gives the exact
condition:

- Two capture commands to one camera can come too close when an action lags far enough behind an earlier
  one that its neighbours are evicted: exactly when the lag and the camera's minimum exceed the second that
  the schedule remembers (`ActionScheduling.LagBoundIsExact`).
- Metering actions are not checked against the schedule. Captures keep clear of them exactly when they are
  dispatched the lead and the camera's minimum ahead of the camera clock, and the image timeout with the lead
  covers the clock skew and that minimum (`ActionScheduling.MeteringClearanceIsExact`). A capture without a
  requested time is only the lead ahead, so it can come too close to the metering action before it.
- The action-time memo tolerates a clock that is set back by one second plus 20 ms, and no more
  (`ActionScheduling.DriftBoundIsExact`).
- Frame matching needs targets more than twice the tolerance apart, and every closer pair can lose a frame
  (`FrameMatching.SeparationIsExact`).
- Phased group targets coincide exactly when the interval has fewer milliseconds than there are groups
  (`SequenceTiming.PhasesDistinctIffIntervalLongEnough`).
- The branch that fails an operation only because cycles failed is never taken: a failed goal has
  stopped scheduling before (`CaptureOperations.FailedCycleStops`).
- Hardware is told apart by vendor and serial number, but the catalogue must be unique by driver and
  serial number, so one sighting can block every later save (`Inventories.RecordSavableExactly`,
  `Inventories.SightingCanBlockSaving`).
- A sighting can be booked on other hardware when its suffixed name is taken too
  (`HardwareIdentity.MergedExactlyWhenSuffixTaken`, `IdentityCollisions.SightingCanBeMerged`).

## Model

| member | source | states |
|---|---|---|
| FrameTimestamp.Classify | vixel_genicam/include/vixel_genicam/FrameTimestamp.hpp:19-32 | a zero timestamp is unknown; otherwise a frame matches exactly when it is within the tolerance on either side, and is stale or future beyond it, with no unsigned underflow |
| FrameTimestamp.Sorted | vixel_genicam/include/vixel_genicam/FrameTimestamp.hpp:37 | the sorted copy is ordered and a permutation of the offsets |
| FrameTimestamp.MedianIgnoresOrder | vixel_genicam/include/vixel_genicam/FrameTimestamp.hpp:34-42 | the offset does not depend on the order in which cameras report |
| FrameTimestamp.MedianSplitsOffsets | vixel_genicam/include/vixel_genicam/FrameTimestamp.hpp:34-42 | at least half of the offsets lie on each side of the median, and it lies between two of them |
| FrameMatching.MatchFrame | vixel_genicam/src/GenicamProvider.cpp:2997-3052 | the loop with one deferred buffer has the outcome of a plain scan from a cursor, and leaves the cursor where the scan says |
| FrameMatching.WorkerLoop | vixel_genicam/src/GenicamProvider.cpp:2890-2904 | serving a whole queue with the deferred buffer carried over gives the outcomes of the scans one after the other |
| FrameMatching.ScanAgrees | vixel_genicam/src/GenicamProvider.cpp:2997-3052 | one scan with nothing usable behind its cursor agrees with a search of the whole stream |
| FrameMatching.EveryRequestAgreesWithSearch | vixel_genicam/src/GenicamProvider.cpp:2997-3052 | for ordered frames and targets more than twice the tolerance apart, every request of a queue agrees with a search of the whole stream, so a skipped action never costs a later request its frame; incomplete frames included |
| FrameMatching.CompleteFramesAreServedExactly | vixel_genicam/src/GenicamProvider.cpp:3011-3052 | on complete frames a request is served if and only if a frame within tolerance arrived in time, and then by the first such frame |
| FrameMatching.NoFrameServesTwoRequests | vixel_genicam/src/GenicamProvider.cpp:2998-3052 | later requests get strictly later frames, in any stream, ordered and stamped or not, and however close the targets |
| FrameMatching.CloseTargetsCompete | vixel_genicam/src/GenicamProvider.cpp:3018-3052 | for every pair of neighbouring targets at most twice the tolerance apart, one frame between them goes to the first though the second could use it |
| FrameMatching.SeparationIsExact | vixel_genicam/src/GenicamProvider.cpp:3018-3052 | a queue of targets is served as the search says on every orderly stream, for all arrivals, if and only if the targets are more than twice the tolerance apart |
| FrameMatching.FirstUsableDecides | vixel_genicam/src/GenicamProvider.cpp:3011-3052 | in any stream, ordered and stamped or not, the first frame at the cursor that is not too old decides the request: unstamped it fails it, within tolerance it serves it exactly when complete, beyond it proves the action skipped; only a complete frame beyond stays for the next request |
| FrameMatching.NothingUsableTimesOut | vixel_genicam/src/GenicamProvider.cpp:2997-3010 | a request times out exactly when all frames that arrived for it are too old, and they are used up |
| FramePipeline.SubmitKeeps | vixel_genicam/src/GenicamProvider.cpp:1123-1161 | request_frame keeps the whole invariant whether it refuses, joins an open request or queues a new one |
| FramePipeline.CloseKeeps | vixel_genicam/src/GenicamProvider.cpp:2906-2925 | closing a matched request unschedules it and hands every caller that joined it to the delivery loop |
| FramePipeline.FailOpenKeeps | vixel_genicam/src/GenicamProvider.cpp:3147-3196 | failing the request in hand answers all its callers and takes exactly them off the depth |
| FramePipeline.DeliverKeeps | vixel_genicam/src/GenicamProvider.cpp:3121-3143 | one turn of the delivery loop answers one caller; a chunk delivery stays in the depth until it is encoded |
| FramePipeline.EncodeEndKeeps | vixel_genicam/src/GenicamProvider.cpp:3218-3231 | a finished encode job is in the depth counter, so taking it off cannot underflow |
| FramePipeline.ShutdownKeeps | vixel_genicam/src/GenicamProvider.cpp:1033-1055 | shutdown answers every queued caller and its aliases and empties the schedule |
| FramePipeline.StepKeeps | vixel_genicam/src/GenicamProvider.cpp:1116-1162 | each of the ten critical sections keeps the invariant |
| FramePipeline.InterleavingsKeepInvariant | vixel_genicam/src/GenicamProvider.cpp:1033-1162 | every interleaving of callers, worker, encoder and shutdown keeps the invariant |
| FramePipeline.EveryCallerAnsweredOnce | vixel_genicam/src/GenicamProvider.cpp:2905-3196 | in every reachable state an accepted caller or alias is still owed its answer and has had none, or has had exactly one |
| FramePipeline.ShutdownLeavesNobodyWaiting | vixel_genicam/src/GenicamProvider.cpp:1035-1058 | once stopped with an idle worker, every accepted caller has been answered exactly once |
| FramePipeline.PipelineGuarantees | vixel_genicam/src/GenicamProvider.cpp:1116-1162 | before shutdown at most one open request per scheduled time, the schedule names only open requests, the depth is queued plus in-hand plus encoding callers and never passes the queue depth, a success carries a frame matching its own caller's time, and chunk jobs are encoded in order |
| FramePipeline.SubmitIsExact | vixel_genicam/src/GenicamProvider.cpp:1123-1161 | in every reachable state a caller is taken if and only if the session is ready and below its depth; it joins the one open request for its device time as last alias, armed at once exactly when that request is, and otherwise ends the queue with a request of its own |
| FramePipeline.RequestsAreTakenInOrder | vixel_genicam/src/GenicamProvider.cpp:2892-2903 | over every interleaving the worker takes requests in the order in which they were accepted |
| FramePipeline.TurnSurvivesInterleaving | vixel_genicam/src/GenicamProvider.cpp:3121-3143 | however callers and the encoder come in between, the worker tells everybody who joined the time of the frame in hand, the requester first, and nobody else |
| FramePipeline.EverySuccessHasItsFrame | vixel_genicam/src/GenicamProvider.cpp:2906-3143 | over every interleaving, whoever is told a success had joined a request when a frame closed it, and is told the device time of that very frame |
| FramePipeline.FailureIsTold | vixel_genicam/src/GenicamProvider.cpp:3147-3196 | everybody who joined a failing request is told the failure, and the worker is free |
| FramePipeline.StopIsTold | vixel_genicam/src/GenicamProvider.cpp:1035-1055 | everybody in the queue is told the stop |
| FramePipeline.ArmingTellsEverybody | vixel_genicam/src/GenicamProvider.cpp:2926-2941 | arming marks exactly the callers who have joined, and later ones find the request armed |
| CameraSessions.CameraSession.RequestFrame | vixel_genicam/src/GenicamProvider.cpp:1123-1161 | the fields change exactly as the request step says, and a caller is taken exactly when ready and below the depth limit |
| CameraSessions.CameraSession.JoinShared | vixel_genicam/src/GenicamProvider.cpp:1133-1148 | an alias joins the open request, is armed at once if the request is, and raises the depth |
| CameraSessions.CameraSession.Push | vixel_genicam/src/GenicamProvider.cpp:1149-1160 | a new request enters the queue and, when it has a time, the schedule in place of an expired entry |
| CameraSessions.CameraSession.PopRequest | vixel_genicam/src/GenicamProvider.cpp:2892-2903 | the worker takes the oldest request |
| CameraSessions.CameraSession.ArmRequest | vixel_genicam/src/GenicamProvider.cpp:2926-2941 | every completion of the request and its aliases is marked armed |
| CameraSessions.CameraSession.Unscheduled | vixel_genicam/src/GenicamProvider.cpp:2917-2924 | the schedule entry goes when it names this request or nobody |
| CameraSessions.CameraSession.CloseMatched | vixel_genicam/src/GenicamProvider.cpp:2906-2925 | nobody can join after the close, and everybody who joined is delivered to |
| CameraSessions.CameraSession.FailRequest | vixel_genicam/src/GenicamProvider.cpp:3147-3196 | all callers of the request in hand are told the failure |
| CameraSessions.CameraSession.ConvertImage | vixel_genicam/src/GenicamProvider.cpp:3091-3120 | a metering frame is settled at once, any other goes to the delivery loop |
| CameraSessions.CameraSession.Deliver | vixel_genicam/src/GenicamProvider.cpp:3121-3143 | one delivery is published or queued for encoding, then completed |
| CameraSessions.CameraSession.FinishEncoding | vixel_genicam/src/GenicamProvider.cpp:3218-3231 | the job leaves the pipeline whether or not it could be published |
| CameraSessions.CameraSession.ServeNext | vixel_genicam/src/GenicamProvider.cpp:2891-3197 | one uninterrupted turn of the worker loop takes the oldest request and tells everybody who joined it the same outcome, the requester first |
| CameraSessions.CameraSession.EncodeNext | vixel_genicam/src/GenicamProvider.cpp:3205-3232 | one turn of the encoder loop encodes the oldest job and takes it off the depth |
| CameraSessions.CameraSession.Stop | vixel_genicam/src/GenicamProvider.cpp:1035-1055 | every queued request and alias is told that the session stopped, both maps are cleared |
| ActionScheduling.SameRequestSameAction | vixel_genicam/src/GenicamProvider.cpp:4259-4289 | two conversions of the same requested time in a run give the same action time, however offsets move and entries are evicted, as long as no request is checked more than a second and 20 ms behind a clock value that evicted earlier |
| ActionScheduling.DriftBoundIsExact | vixel_genicam/src/GenicamProvider.cpp:4279-4287 | every run within a given clock set-back converts equal requests equally if and only if that set-back is at most one second plus 20 ms |
| ActionScheduling.SendsAreNew | vixel_genicam/src/GenicamProvider.cpp:4432-4452 | commands go to distinct targets that were not told before |
| ActionScheduling.DispatchKeepsDistance | vixel_genicam/src/GenicamProvider.cpp:4376-4461 | one dispatch that passed the conflict check against the remaining entries keeps its distance from every capture command ever sent |
| ActionScheduling.WholeRunKeepsDistance | vixel_genicam/src/GenicamProvider.cpp:4376-4461 | if no action lags a second less the camera's minimum behind an earlier one, any two capture commands ever sent to one camera are its minimum apart and none is sent twice, despite eviction |
| ActionScheduling.LagBoundIsExact | vixel_genicam/src/GenicamProvider.cpp:4453-4461 | every run in which no action lags more than a given lag behind an earlier one keeps that distance if and only if the lag and the largest minimum together are at most one second and a nanosecond |
| ActionScheduling.LargeLagCrowds | vixel_genicam/src/GenicamProvider.cpp:4453-4461 | for every larger lag a run of three requests within it and within the accepted time range that breaks the distance |
| ActionScheduling.CaptureTellsExactly | vixel_genicam/src/GenicamProvider.cpp:4371-4452 | for every schedule and request: a camera is told to act at a time if and only if it was before, or all cameras are locked, that is the time the request asks for, no action booked for any of its cameras is within its minimum, and it is a target that can be reached and was not told yet |
| ActionScheduling.AcceptanceIsExact | vixel_genicam/src/GenicamProvider.cpp:4314-4400 | a request is accepted if and only if no camera is locking, its time is in range, and with targets there is an action time that keeps apart from their other actions |
| ActionScheduling.AcceptedCaptureReachesAll | vixel_genicam/src/GenicamProvider.cpp:4430-4452 | after every run an accepted capture has told each reachable camera, and none that cannot be reached; a refused one has told nobody |
| ActionScheduling.SendsReach | vixel_genicam/src/GenicamProvider.cpp:4431-4452 | a camera has been told exactly when it was before or is a target that can be reached |
| ActionScheduling.TickMetersExactly | vixel_genicam/src/GenicamProvider.cpp:3868-3953 | a tick meters all its cameras at the camera clock and the lead, or none while it is blocked |
| ActionScheduling.CaptureBlocksExactly | vixel_genicam/src/GenicamProvider.cpp:4404-4406 | ticks are blocked exactly until every accepted capture's predicted time has passed by the image timeout |
| ActionScheduling.PacedStaysApart | vixel_genicam/src/GenicamProvider.cpp:3868-3953 | on every run of captures and metering ticks in any order in which captures lie the lead and the minimum ahead of the camera clock, and the image timeout with the lead covers skew and minimum, no capture command comes within a camera's minimum of a metering command |
| ActionScheduling.LateCaptureCrowds | vixel_genicam/src/GenicamProvider.cpp:3930-3953 | a run in which a capture less than that far ahead comes too close to the metering action before it |
| ActionScheduling.EarlyTickCrowds | vixel_genicam/src/GenicamProvider.cpp:4404-4406 | a run in which the metering tick let through when the block ends comes too close to the capture, when skew and minimum exceed timeout and lead |
| ActionScheduling.MeteringClearanceIsExact | vixel_genicam/src/GenicamProvider.cpp:3868-3953 | captures keep clear of metering on every paced run, for all cameras, if and only if captures are dispatched at least the lead and the largest minimum ahead of the camera clock, and skew and that minimum are at most the image timeout and the lead |
| ActionSchedulers.ActionScheduler.CommonPtpActionTime | vixel_genicam/src/GenicamProvider.cpp:4259-4289 | memo lookup, conversion and eviction as specified |
| ActionSchedulers.ActionScheduler.ForgetOld | vixel_genicam/src/GenicamProvider.cpp:4279-4287 | exactly the conversions more than a second old go |
| ActionSchedulers.ActionScheduler.IsFree | vixel_genicam/src/GenicamProvider.cpp:4376-4400 | the nested loops find a conflict exactly when there is one |
| ActionSchedulers.ActionScheduler.SendAll | vixel_genicam/src/GenicamProvider.cpp:4430-4452 | afterwards exactly the cameras told before and the targets that can be reached are recorded; each is told once |
| ActionSchedulers.ActionScheduler.EvictBefore | vixel_genicam/src/GenicamProvider.cpp:4453-4461 | exactly the actions more than a second before the new one go |
| ActionSchedulers.ActionScheduler.ScheduleCapture | vixel_genicam/src/GenicamProvider.cpp:4314-4462 | the scheduling phase does the specified step on both maps in every branch, refusals included, and tells whether the capture was accepted |
| ActionSchedulers.ActionScheduler.CaptureCallback | vixel_genicam/src/GenicamProvider.cpp:4314-4462 | an accepted capture also blocks metering until its frame must have arrived, never sooner than before; a refused one does not |
| ActionSchedulers.ActionScheduler.MeteringTick | vixel_genicam/src/GenicamProvider.cpp:3868-3953 | a blocked tick does nothing; any other sends to its cameras at the camera clock plus the lead and leaves the schedule alone |
| StreamRecovery.RecentAfterFailure | vixel_genicam/include/vixel_genicam/StreamRecovery.hpp:25-35 | popping the stale front and appending the failure gives the failures of the full history since its last reset that lie within the window |
| StreamRecovery.RequestHasReason | vixel_genicam/include/vixel_genicam/StreamRecovery.hpp:36-40 | a pending request means threshold failures since the last restart and the backoff served |
| StreamRecovery.RequestHasTrigger | vixel_genicam/include/vixel_genicam/StreamRecovery.hpp:25-60 | a pending request was raised at a failure that met the threshold outside the backoff, with no restart and no healthy success since |
| StreamRecovery.RequestIsExact | vixel_genicam/include/vixel_genicam/StreamRecovery.hpp:25-60 | a restart is requested if and only if at some failure threshold failures within the window were remembered and every restart was at least the backoff ago, with no restart and no healthy success since; said of the events alone |
| StreamRecovery.DegradedIsExact | vixel_genicam/include/vixel_genicam/StreamRecovery.hpp:25-60 | a stream is degraded if and only if there was a failure or a restart with no healthy success since |
| StreamRecovery.RestartsAreSpaced | vixel_genicam/src/GenicamProvider.cpp:3968-3987 | restarts driven by requests are at least the backoff apart with at least threshold failures between them |
| StreamRecovery.StreamRecoveryPolicy.PopStale | vixel_genicam/include/vixel_genicam/StreamRecovery.hpp:32-34 | the pop loop leaves exactly the failures within the window |
| StreamRecovery.StreamRecoveryPolicy.RecordFailure | vixel_genicam/include/vixel_genicam/StreamRecovery.hpp:25-41 | after a failure the fields are again what the full history says |
| StreamRecovery.StreamRecoveryPolicy.RecordSuccess | vixel_genicam/include/vixel_genicam/StreamRecovery.hpp:43-52 | true exactly after the healthy period; the fields follow the full history |
| StreamRecovery.StreamRecoveryPolicy.MarkRestarted | vixel_genicam/include/vixel_genicam/StreamRecovery.hpp:54-60 | a restart clears the request and the window; the fields follow the full history |
| CaptureCadence.LimitIsExact | vixel_genicam/include/vixel_genicam/CaptureCadence.hpp:52-86 | where an exposure limit exists, the minimum interval is within the requested one if and only if the exposure is within the limit, up to the rounding allowance |
| CaptureCadence.IntervalIsExact | vixel_genicam/include/vixel_genicam/CaptureCadence.hpp:52-68 | an interval is long enough if and only if exposure and readout fit beside the margin, together or overlapped |
| CaptureCadence.NoLimitMeansNoExposure | vixel_genicam/include/vixel_genicam/CaptureCadence.hpp:70-86 | no limit, yet a real exposure fits, only in the overlap sliver between the exact period and the allowance |
| CaptureCadence.BoundedLimitIsClosest | vixel_genicam/include/vixel_genicam/CaptureCadence.hpp:41-50 | refused exactly when the range is empty or starts more than one unit too high; otherwise the closest value in range |
| CaptureCadence.ClampedLimitKeepsInterval | vixel_genicam/include/vixel_genicam/CaptureCadence.hpp:41-86 | a limit pushed through the camera's range keeps the interval if and only if the smallest exposure does not exceed it, and otherwise costs at most one millisecond |
| SequenceTiming.LeadLeavesMargin | vixel_recorder/include/vixel_recorder/SequenceTiming.hpp:17-27 | the lead is at least 20 ms and at most the queue window less 20 ms |
| SequenceTiming.LeadIsLargest | vixel_recorder/include/vixel_recorder/SequenceTiming.hpp:17-27 | the configured lead is used whenever it is in range, and no larger lead is within both bounds |
| SequenceTiming.QueueBoundIsExact | vixel_recorder/include/vixel_recorder/SequenceTiming.hpp:17-27 | a lead keeps the camera's queue from overflowing, for all dispatch times, if and only if it is no longer than the queue lasts |
| SequenceTiming.QueueNeverOverflows | vixel_recorder/src/CaptureRecorder.cpp:1093-1101 | at every instant at most one queue length of cycles is dispatched and not yet due, for any length of sequence |
| SequenceTiming.PhasedTargetsAreApart | vixel_recorder/src/CaptureRecorder.cpp:1180-1187 | all (cycle, group) targets of a phased sequence are one phase apart when the interval has a millisecond per group |
| SequenceTiming.CyclesFollowAtInterval | vixel_recorder/src/CaptureRecorder.cpp:1100-1101 | the first cycle acts at the requested time, cycles follow at the interval, and every group acts before the next cycle |
| SequenceTiming.PhasesDistinctIffIntervalLongEnough | vixel_recorder/include/vixel_recorder/SequenceTiming.hpp:29-40 | the targets are distinct if and only if the interval is at least the group count |
| ChunkTransport.Publish | vixel_genicam/src/GenicamProvider.cpp:815-833 | the chunks are the numbered slices, and concatenated they are the encoded image |
| ChunkTransport.SlicesJoin | vixel_genicam/src/GenicamProvider.cpp:815-833 | all slices in index order are the whole image |
| ChunkTransport.BoundsHoldForever | vixel_recorder/src/CaptureRecorder.cpp:233-272 | at most 64 assemblies and 64 images, whatever traffic arrives |
| ChunkTransport.OnlyPublishedImagesAreStored | vixel_recorder/src/CaptureRecorder.cpp:224-276 | under reordering, repetition, loss and eviction every stored image is byte for byte the published one |
| ChunkTransport.StoredExactlyWhenComplete | vixel_recorder/src/CaptureRecorder.cpp:253-276 | as long as nothing is evicted an image is stored exactly from the arrival of its last distinct index |
| ChunkTransport.StoredImagesComeFromOneFrame | vixel_recorder/src/CaptureRecorder.cpp:224-276 | for every traffic, well-formed or not, a stored image is joined from chunks of one capture, one frame and one count, one for every index |
| ChunkTransport.MisfitsAreDropped | vixel_recorder/src/CaptureRecorder.cpp:224-254 | a chunk of another frame or count ends the assembly and stores nothing; a chunk of another sensor, without capture or out of range changes nothing |
| ChunkTransport.OthersAreKept | vixel_recorder/src/CaptureRecorder.cpp:234-272 | a chunk leaves every other capture alone, but for first ones dropped when its own is new in a full map |
| ChunkTransport.TrimDropsFirst | vixel_recorder/src/CaptureRecorder.cpp:234-238 | making room drops first entries only, and no more than needed |
| ChunkTransport.SensorFrames.MakeRoom | vixel_recorder/src/CaptureRecorder.cpp:234-238 | first entries are erased until there is room |
| ChunkTransport.SensorFrames.StoreImage | vixel_recorder/src/CaptureRecorder.cpp:258-275 | the chunks are joined in index order and the assembly is dropped |
| ChunkTransport.SensorFrames.AcceptChunk | vixel_recorder/src/CaptureRecorder.cpp:224-276 | every branch, refusals and mismatches included, does the specified step |
| CaptureOperations.AppendShowsNewest | vixel_recorder/include/vixel_recorder/OperationHistory.hpp:15-27 | appending and trimming one at a time shows the newest identifiers of all ever given out, with the exact total and truncation flag |
| CaptureOperations.DispatchKeeps | vixel_recorder/src/CaptureRecorder.cpp:1154-1213 | dispatching a cycle, or refusing it for an unsafe identifier, keeps every account |
| CaptureOperations.LaunchKeeps | vixel_recorder/src/CaptureRecorder.cpp:846-857 | so does launching a test shot |
| CaptureOperations.ResultKeeps | vixel_recorder/src/CaptureRecorder.cpp:1246-1272 | one result in any order keeps the tables, the tallies and the verdict |
| CaptureOperations.FailedCycleStops | vixel_recorder/src/CaptureRecorder.cpp:1254-1284 | a failed cycle always has scheduling stopped already, so the branch that fails an operation for failed cycles alone is never taken |
| CaptureOperations.AdministrativeKeeps | vixel_recorder/src/CaptureRecorder.cpp:1043-1151 | cancelling, expiry, capacity, lost server, failed preparation and the end of scheduling keep every account |
| CaptureOperations.RunKeeps | vixel_recorder/src/CaptureRecorder.cpp:1098-1289 | every order of scheduling steps, results and cancellations keeps the invariant |
| CaptureOperations.CyclesAddUp | vixel_recorder/src/CaptureRecorder.cpp:1205-1264 | scheduled cycles are completed, failed or open |
| CaptureOperations.CompleteMeansAllSaved | vixel_recorder/src/CaptureRecorder.cpp:1274-1287 | complete means completed = scheduled = requested and every goal of every cycle reported saved |
| CaptureOperations.OperationGuarantees | vixel_recorder/src/CaptureRecorder.cpp:1098-1300 | over every run: pending saves are the goals still out, completed and failed are counted exactly, the terminal transition and the lease release happen once, exactly when scheduling is done and the last result is in, the final status is complete exactly when nothing was cancelled, called off or lost, and then all is saved; else it is cancelled or failed, and failed whenever the servers were lost, cycles or none; and the identifiers shown are the newest |
| CaptureOperations.CanAlwaysFinish | vixel_recorder/src/CaptureRecorder.cpp:1055-1289 | from every reachable state an operation can be brought to its terminal state by cancelling, ending the scheduling and hearing from the goals still out |
| CaptureOperations.Drains | vixel_recorder/src/CaptureRecorder.cpp:1246-1289 | once scheduling is done, as many results as there are goals out end the operation |
| CaptureOperations.DispatchIsExact | vixel_recorder/src/CaptureRecorder.cpp:1163-1213 | a cycle is sent, a goal for each group, if and only if all its identifiers are safe, and otherwise nothing is sent and the operation is called off |
| CaptureOperations.SchedulingEndsExactly | vixel_recorder/src/CaptureRecorder.cpp:1138-1150 | scheduling is done exactly from its end, a failed preparation, a lost server or a launched test shot on |
| CaptureOperations.StoppedSendsNothing | vixel_recorder/src/CaptureRecorder.cpp:1098-1133 | once called off, no run sends another cycle |
| CaptureOperations.RunShowsProgress | vixel_recorder/src/CaptureRecorder.cpp:1138-1213 | over every run an unfinished operation shows waiting, preparing, running or draining as far as it has come |
| CaptureOperations.CallingOffShows | vixel_recorder/src/CaptureRecorder.cpp:1055-1133 | at capacity and after a cancellation with goals out it shows that it drains, and a lease that runs out only stops it |
| OperationRetention.PrunedOnce | vixel_recorder/src/CaptureRecorder.cpp:1302-1311 | only the oldest finished operation can be over the limit, and it is dropped |
| OperationRetention.FinishedStaysFinished | vixel_recorder/src/CaptureRecorder.cpp:1293-1295 | nothing but a refused cancel reaches a finished operation |
| OperationRetention.CreateIsExact | vixel_recorder/src/CaptureRecorder.cpp:678-694 | an operation is taken if and only if fewer than the limit are unfinished |
| OperationRetention.ActMovesOne | vixel_recorder/src/CaptureRecorder.cpp:1301-1311 | an event moves one operation by its own step and no other; when it finishes it, at most the oldest finished one is dropped |
| OperationRetention.RunsKeepInvariant | vixel_recorder/src/CaptureRecorder.cpp:680-694 | every run of creations and operation steps keeps the table sound |
| OperationRetention.RetentionGuarantees | vixel_recorder/src/CaptureRecorder.cpp:1291-1312 | unfinished operations never pass their limit and are never dropped, each operation finishes once, and the finished ones still stored are exactly the newest |
| CaptureRecorders.OperationState.AppendBoundedCaptureId | vixel_recorder/include/vixel_recorder/OperationHistory.hpp:15-25 | the vector, the count and the flag change as specified |
| CaptureRecorders.OperationState.BuildGoals | vixel_recorder/src/CaptureRecorder.cpp:1163-1193 | all identifiers of the cycle, or none when one is unsafe |
| CaptureRecorders.OperationState.DispatchCycle | vixel_recorder/src/CaptureRecorder.cpp:1154-1213 | the fields change exactly as the dispatch step says |
| CaptureRecorders.OperationState.ScheduleTestShot | vixel_recorder/src/CaptureRecorder.cpp:846-857 | the fields change exactly as the launch step says |
| CaptureRecorders.OperationState.CountResult | vixel_recorder/src/CaptureRecorder.cpp:1252-1264 | the counters and both tables change exactly as one result says |
| CaptureRecorders.OperationState.Finish | vixel_recorder/src/CaptureRecorder.cpp:1274-1289 | the final status, recorded once |
| CaptureRecorders.OperationState.RecordTerminal | vixel_recorder/src/CaptureRecorder.cpp:1293-1300 | the terminal transition is recorded and the lease released only the first time |
| CaptureRecorders.OperationState.CaptureFinished | vixel_recorder/src/CaptureRecorder.cpp:1246-1272 | counting and finishing together are the result step |
| CaptureRecorders.OperationState.FinishScheduling | vixel_recorder/src/CaptureRecorder.cpp:1138-1150 | finishes at once when nothing is pending, else drains |
| CaptureRecorders.OperationState.FailSequencePreparation | vixel_recorder/src/CaptureRecorder.cpp:881-892 | cancelled or failed, recorded once |
| CaptureRecorders.OperationState.CancelOperation | vixel_recorder/src/CaptureRecorder.cpp:1055-1070 | refused exactly when the operation has finished |
| CaptureRecorders.OperationTable.CountActive | vixel_recorder/src/CaptureRecorder.cpp:680-688 | counts the operations whose terminal transition is not recorded |
| CaptureRecorders.OperationTable.CreateOperation | vixel_recorder/src/CaptureRecorder.cpp:678-694 | accepted exactly below the active limit |
| CaptureRecorders.OperationTable.Retire | vixel_recorder/src/CaptureRecorder.cpp:1301-1311 | the queue and the table change as the prune loop is specified |
| CaptureIdentifiers.SafeExactly | vixel_recorder/src/CaptureRecorder.cpp:130-137 | an identifier is safe if and only if prefix and group have only allowed characters and the whole at most 128 |
| CaptureIdentifiers.CaptureIdIsInjective | vixel_recorder/src/CaptureRecorder.cpp:1169 | an identifier tells its cycle and its group, whatever the group is called |
| CaptureIdentifiers.IdentifiersNeverCollide | vixel_recorder/src/CaptureRecorder.cpp:1163-1193 | over all cycles and groups of an operation every goal has its own identifier |
| GoalAdmission.PlusAdds | vixel_recorder/src/CaptureRecorder.cpp:1385-1387 | counting the selected cameras up, repeats included |
| GoalAdmission.MinusSubtracts | vixel_recorder/src/CaptureRecorder.cpp:1395-1400 | counting them down again removes exactly that and drops zero entries |
| GoalAdmission.RejectKeeps | vixel_recorder/src/CaptureRecorder.cpp:1391-1403 | a refused goal gives back exactly what it reserved |
| GoalAdmission.StepKeeps | vixel_recorder/src/CaptureRecorder.cpp:1373-1409 | each critical section keeps the invariant |
| GoalAdmission.InterleavingsKeepInvariant | vixel_recorder/src/CaptureRecorder.cpp:1373-1539 | every interleaving of reservations, admissions, starts and releases keeps it |
| GoalAdmission.CounterIsHolders | vixel_recorder/src/CaptureRecorder.cpp:1383-1387 | a camera's counter is the number of goals holding it, at most one, when goals list each camera once |
| GoalAdmission.ReserveIsExact | vixel_recorder/src/CaptureRecorder.cpp:1374-1389 | a goal is taken if and only if it carries a time or no unreleased goal holds one of its cameras |
| GoalAdmission.AdmitIsExact | vixel_recorder/src/CaptureRecorder.cpp:1390-1410 | a goal is admitted if and only if fewer than the limit are in flight and none has its identifier; a refused one holds nothing |
| GoalAdmission.GoalLeavesNoTrace | vixel_recorder/src/CaptureRecorder.cpp:1373-1529 | a refused goal, and one that runs from reservation to release, restore the admission state exactly |
| GoalAdmission.AdmissionGuarantees | vixel_recorder/src/CaptureRecorder.cpp:1373-1539 | over every interleaving the count is the admitted unreleased goals and within the limit, the identifiers are exactly theirs without repeats, and untimed goals hold disjoint cameras |
| GoalAdmission.GoalGate.ReserveSensors | vixel_recorder/src/CaptureRecorder.cpp:1374-1389 | all cameras are checked before any is counted; refused exactly when one is busy |
| GoalAdmission.GoalGate.GiveBack | vixel_recorder/src/CaptureRecorder.cpp:1394-1401 | the decrement loop, with the unsigned wrap written out |
| GoalAdmission.GoalGate.AdmitGoal | vixel_recorder/src/CaptureRecorder.cpp:1390-1410 | admits, or rolls the reservation back |
| GoalAdmission.GoalGate.StartExecution | vixel_recorder/src/CaptureRecorder.cpp:1492-1500 | the selected cameras move into the execution's guard |
| GoalAdmission.GoalGate.ReleaseGoal | vixel_recorder/src/CaptureRecorder.cpp:1513-1529 | everything the goal holds is given back |
| CaptureLeases.AcquireKeeps | vixel_manager/vixel_manager/manager_node.py:1115-1148 | granting a lease keeps exclusive leases disjoint and its targets frozen |
| CaptureLeases.NoSessionsHolds | vixel_manager/vixel_manager/manager_node.py:215-218 | a manager without leases over a validated inventory satisfies the invariant |
| CaptureLeases.UnownedGroupIsUnnamed | vixel_manager/vixel_manager/manager_node.py:2113-2118 | a group none of whose cameras is held is named by no lease |
| CaptureLeases.UpsertKeeps | vixel_manager/vixel_manager/manager_node.py:2111-2130 | the ownership check is enough to keep every lease's members unchanged |
| CaptureLeases.DeleteKeeps | vixel_manager/vixel_manager/manager_node.py:2143-2150 | deleting a group never takes it from under a lease |
| CaptureLeases.CamerasKeepFrozen | vixel_manager/vixel_manager/manager_node.py:1968-1982 | a camera that goes is in no group and no lease |
| CaptureLeases.RunsKeepInvariant | vixel_manager/vixel_manager/manager_node.py:1115-1205 | every run of acquire, renew, release, expire, group, mode, archive, enrol and move steps keeps the invariant |
| CaptureLeases.LeaseLastsItsTime | vixel_manager/vixel_manager/manager_node.py:1173-1205 | a lease is held unchanged through every run in which it is not released and its time to live, as last renewed, has not passed |
| CaptureLeases.GrantedLeaseLasts | vixel_manager/vixel_manager/manager_node.py:1115-1205 | so from the moment of the grant, for exactly the cameras asked for |
| CaptureLeases.GrantIsExact | vixel_manager/vixel_manager/manager_node.py:1092-1148 | a lease is granted if and only if the request is well asked and every lease shares no camera with it or neither is exclusive; it holds exactly the cameras asked for, until its time to live |
| CaptureLeases.ReleaseUndoesAcquire | vixel_manager/vixel_manager/manager_node.py:1188-1195 | releasing a lease undoes its grant |
| CaptureLeases.RenewedLeaseLasts | vixel_manager/vixel_manager/manager_node.py:1173-1186 | a renewed lease lasts its time to live from the renewal on, for the same cameras |
| CaptureLeases.OverdueLeaseIsGone | vixel_manager/vixel_manager/manager_node.py:1197-1205 | through every run, a lease that is not renewed past a time is gone at the next look at the clock after it |
| CaptureAssignments.LeasedCameraCaptures | vixel_manager/vixel_manager/manager_node.py:1493-1510 | a leased camera is assigned capture mode, and is reserved exactly when leased, whatever its other groups ask |
| CaptureAssignments.LeaseGuarantees | vixel_manager/vixel_manager/manager_node.py:1092-1253 | over every run: exclusive leases overlap no other, each group a live lease names exists, the lease's cameras are exactly the union of the members those groups have now, and every leased camera on an approved network is published with mode capture and reserved |
| CaptureAssignments.ModesAgree | vixel_manager/vixel_manager/manager_node.py:1606-1623 | the mode shown for a camera is the mode assigned to it |
| CaptureAssignments.PublishedAre | vixel_manager/vixel_manager/manager_node.py:1474-1479 | exactly the cameras on approved networks of a provider are published to it |
| CaptureAssignments.FoldSummarises | vixel_genicam/src/GenicamProvider.cpp:4057-4085 | the folded status of a group has exactly its listing cameras, the longest of their intervals, and their mode if they share one |
| CaptureAssignments.MembersListTheirGroup | vixel_manager/vixel_manager/manager_node.py:1511-1555 | a camera lists a capturing group exactly when it is a member, and then captures at least as often as the group asks |
| CaptureAssignments.AgreementIsExact | vixel_manager/vixel_manager/manager_node.py:86-107 | the manager finds the provider's status of a capturing group current if and only if all the group's cameras are assigned to that provider, for any overlapping groups and leases and any order of publishing and folding |
| CaptureAssignments.MembersListTheirQuietGroup | vixel_manager/vixel_manager/manager_node.py:1504-1555 | a camera lists a previewing or idle group exactly when it is a member that nothing else makes capture |
| CaptureAssignments.QuietAgreementIsExact | vixel_manager/vixel_manager/manager_node.py:86-107 | the status of a group not asked to capture is current if and only if no interval is asked and every member is assigned to the provider, is not directly leased and is in no capturing group |
| CaptureControl.RequestedModeIsExact | vixel_manager/vixel_manager/manager_node.py:1240-1243 | a group is asked to capture when a lease names it, else what was set for it, else the default |
| CaptureControl.RequestedIntervalIsExact | vixel_manager/vixel_manager/manager_node.py:1245-1253 | the interval asked of a group is the shortest a lease of it asks for, else the group's own |
| CaptureControl.AssignedModeIsExact | vixel_manager/vixel_manager/manager_node.py:1493-1510 | a camera captures, previews or idles as the strongest of its groups and direct leases says, and alone as it was set |
| CaptureControl.AssignedIntervalIsExact | vixel_manager/vixel_manager/manager_node.py:1546-1555 | a capturing camera is asked for the shortest interval of its capturing groups |
| CaptureControl.PublishedIsExact | vixel_manager/vixel_manager/manager_node.py:1474-1479 | a camera is published to a provider if and only if it is enrolled on an approved network and that provider drives it |
| CaptureControl.CurrentIsExact | vixel_manager/vixel_manager/manager_node.py:86-107 | the folded status is found current exactly when the assignments held list the group for its members, in the mode asked for and fast enough |
| CaptureControl.UpsertIsExact | vixel_manager/vixel_manager/manager_node.py:2111-2130 | a group edit succeeds if and only if nobody holds a former or new member, the members are proper and the save is written; then only this group differs, and its settings stay |
| CaptureControl.DeleteIsExact | vixel_manager/vixel_manager/manager_node.py:2143-2150 | a deletion succeeds if and only if the group is there, unheld and the save is written; its settings go with it |
| CaptureControl.SetGroupModeIsExact | vixel_manager/vixel_manager/manager_node.py:2054-2065 | a group mode takes effect if and only if the group is there and unheld: the group is asked for it, and no other group for anything else |
| CaptureControl.SetSensorModeIsExact | vixel_manager/vixel_manager/manager_node.py:2066-2077 | a camera mode takes effect if and only if the camera is known, ungrouped, unheld and the mode is not capture: it is then assigned it |
| CaptureControl.ForgetIsExact | vixel_manager/vixel_manager/manager_node.py:1968-1982 | a camera is forgotten if and only if it is known, ungrouped, unheld, removable and the save is written |
| CaptureManagers.CaptureManager.SessionTargets | vixel_manager/vixel_manager/manager_node.py:1092-1113 | the union of the members, or a refusal for unknown, repeated or missing targets |
| CaptureManagers.CaptureManager.Busy | vixel_manager/vixel_manager/manager_node.py:1123-1130 | finds a lease in the way exactly when there is one |
| CaptureManagers.CaptureManager.CreateCaptureSession | vixel_manager/vixel_manager/manager_node.py:1115-1148 | a lease is created exactly when the request is grantable |
| CaptureManagers.CaptureManager.RenewCaptureSession | vixel_manager/vixel_manager/manager_node.py:1173-1186 | only a live lease is renewed |
| CaptureManagers.CaptureManager.ExpireCaptureSessions | vixel_manager/vixel_manager/manager_node.py:1197-1205 | exactly the overdue leases go |
| CaptureManagers.CaptureManager.UpsertGroup | vixel_manager/vixel_manager/manager_node.py:2111-2130 | refused for held cameras, failed saves and bad members; else group, mode and interval entries as specified |
| CaptureManagers.CaptureManager.DeleteGroup | vixel_manager/vixel_manager/manager_node.py:2143-2150 | the group and its mode and interval entries go together |
| CaptureManagers.CaptureManager.SetGroupMode | vixel_manager/vixel_manager/manager_node.py:2054-2065 | refused while a member is held |
| CaptureManagers.CaptureManager.SetSensorMode | vixel_manager/vixel_manager/manager_node.py:2066-2077 | refused for held or grouped cameras and for capture |
| CaptureManagers.CaptureManager.SetMode | vixel_manager/vixel_manager/manager_node.py:2050-2079 | the mode service dispatches on the kind of target and refuses unknown kinds |
| CaptureManagers.CaptureManager.ForgetSensor | vixel_manager/vixel_manager/manager_node.py:1968-1982 | refused for grouped, held or online cameras |
| CaptureManagers.CaptureManager.RequestedGroupInterval | vixel_manager/vixel_manager/manager_node.py:1245-1253 | the least positive interval asked by a lease of the group, else the group's own |
| CaptureManagers.CaptureManager.AssignedInterval | vixel_manager/vixel_manager/manager_node.py:1546-1555 | the least interval of the camera's capturing groups |
| CaptureManagers.CaptureManager.PublishAssignments | vixel_manager/vixel_manager/manager_node.py:1466-1593 | the published list is the specified one |
| CaptureManagers.PublishGroupStatus | vixel_genicam/src/GenicamProvider.cpp:4049-4085 | the nested loops compute the fold |
| HardwareIdentity.StableIdIsRosSafe | vixel_manager/vixel_manager/registry.py:33-39 | the generated name is ROS-safe for every provider and serial string |
| IdentityCollisions.StableIdIsClean | vixel_manager/vixel_manager/registry.py:33-39 | a generated name is words joined by single underscores, starting with a letter, or the bare prefix |
| HardwareIdentity.WritingDoesNotMatter | vixel_manager/vixel_manager/registry.py:42-63 | addresses, vendors and serial numbers are the same however they are capitalised or divided |
| HardwareIdentity.VendorIsExact | vixel_manager/vixel_manager/registry.py:51-63 | a spelling that contains a known vendor's name stands for the first such vendor, any other for itself |
| HardwareIdentity.MatchIsExact | vixel_manager/vixel_manager/registry.py:663-681 | an observation belongs to the first entry with its address, if there is one, else to the first of its vendor and serial number |
| HardwareIdentity.SuffixTellsApart | vixel_manager/vixel_manager/registry.py:682-686 | when a name is taken, addresses make different names exactly when their last six digits differ |
| HardwareIdentity.ResolvedIdIsRosSafe | vixel_manager/vixel_manager/registry.py:663-686 | so is every resolved name, suffixes included |
| HardwareIdentity.First | vixel_manager/vixel_manager/registry.py:667-681 | a scan finds the first matching entry, or none when none matches |
| HardwareIdentity.ResolutionIsStable | vixel_manager/vixel_manager/registry.py:663-735 | after recording an observation it resolves to the same name again, matched by address, by vendor and serial, or created with or without a suffix |
| HardwareIdentity.MergedExactlyWhenSuffixTaken | vixel_manager/vixel_manager/registry.py:682-702 | a sighting is booked on other hardware's entry if and only if no entry is of its own hardware and both its name and its suffixed name are taken |
| IdentityCollisions.Names | vixel_manager/vixel_manager/registry.py:33-39 | vendor and serial number are joined by an underscore, so however a chain of words is divided between them the name is the same |
| IdentityCollisions.SightingIsMerged | vixel_manager/vixel_manager/registry.py:682-702 | a whole family of cameras: after two sightings from an empty catalogue, which leave a catalogue that validation accepts, the sighting of another vendor's camera changes the second entry and adds none |
| IdentityCollisions.SightingCanBeMerged | vixel_manager/vixel_manager/registry.py:682-702 | three such cameras by name: a catalogue that sightings reach and validation accepts, and a sighting booked on hardware of another vendor |
| Inventories.SavedKeeps | vixel_manager/vixel_manager/registry.py:537-562 | a save, successful or restored, leaves a consistent inventory when the draft calls no stranger enrolled |
| Inventories.RecordKeeps | vixel_manager/vixel_manager/registry.py:688-746 | a sighting keeps every invariant |
| Inventories.EnrollKeeps | vixel_manager/vixel_manager/registry.py:748-789 | so does enrolment, the refusal of a retired camera included |
| Inventories.ReplaceKeeps | vixel_manager/vixel_manager/registry.py:791-837 | and replacement |
| Inventories.ForgetKeeps | vixel_manager/vixel_manager/registry.py:893-921 | and archiving |
| Inventories.PurgeKeeps | vixel_manager/vixel_manager/registry.py:941-957 | and purging |
| Inventories.StepKeeps | vixel_manager/vixel_manager/registry.py:621-990 | every operation, saved or not, keeps the invariants |
| Inventories.RunsStayConsistent | vixel_manager/vixel_manager/registry.py:369-490 | every sequence of operations keeps group members distinct and enrolled, enrolled cameras catalogued, the state enrolled exact, and hardware keys and placed addresses unique, in the subnet and not the host |
| Inventories.ReplaceKeepsGroups | vixel_manager/vixel_manager/registry.py:816-822 | a replacement takes its predecessor's place in every group and no group stands in its way |
| Inventories.RecordSavableExactly | vixel_manager/vixel_manager/registry.py:407-418 | a sighting leaves a savable inventory savable if and only if it is booked on an existing entry, or is named and shares driver and serial number with no entry |
| Inventories.SightingCanBlockSaving | vixel_manager/vixel_manager/registry.py:415-418 | a concrete inventory and sighting of another vendor with the same serial number after which no save validates |
| InventoryEffects.RecordIsExact | vixel_manager/vixel_manager/registry.py:688-746 | a sighting refreshes one entry, all but driver and serial number, or adds one; all others stay |
| InventoryEffects.EnrollIsExact | vixel_manager/vixel_manager/registry.py:748-789 | an enrolment succeeds if and only if the camera is neither enrolled nor retired, is named, its key, place and entry are free and the save is written; it then has the hardware, place and label given, and only the catalogue differs besides |
| InventoryEffects.ReplaceIsExact | vixel_manager/vixel_manager/registry.py:791-837 | a replacement succeeds exactly under the stated conditions; the new camera has the old one's network, address and label and its place in every group, and otherwise nothing changes |
| InventoryEffects.MoveIsExact | vixel_manager/vixel_manager/registry.py:839-862 | a move succeeds if and only if the camera is enrolled, the place is free and the save is written; it then has that network and address and the same hardware, and nothing else changes |
| InventoryEffects.RelabelIsExact | vixel_manager/vixel_manager/registry.py:876-891 | a label changes only itself, for an enrolled camera and a written save |
| InventoryEffects.ForgetIsExact | vixel_manager/vixel_manager/registry.py:893-921 | archiving succeeds if and only if the camera is enrolled, in no group, its entry stays unique and the save is written |
| InventoryEffects.PurgeIsExact | vixel_manager/vixel_manager/registry.py:941-957 | a purge succeeds if and only if the camera is known and not enrolled and the save is written; exactly its entry goes |
| InventoryEffects.UpsertGroupIsExact | vixel_manager/vixel_manager/registry.py:959-978 | a group is stored if and only if name, provider, members, policy and rate are in order and the save is written |
| InventoryEffects.DeleteGroupIsExact | vixel_manager/vixel_manager/registry.py:980-990 | a known group goes exactly with a written save |
| InventoryEffects.SetPortModeIsExact | vixel_manager/vixel_manager/registry.py:621-642 | a port mode is set if and only if the network is known, for direct mode at most one camera is on it, and the save is written |
| InventoryEffects.InventoryGuarantees | vixel_manager/vixel_manager/registry.py:369-490 | after every sequence of operations names are safe, placed addresses lie in their subnet, are not the host's and unique, keys are unique, groups list distinct enrolled cameras, and the catalogue calls enrolled exactly those |
| InventoryRoundTrips.EnsuredResolves | vixel_manager/vixel_manager/registry.py:644-686 | after its entry is refreshed, serial number included, an observation still resolves to the same name |
| InventoryRoundTrips.ArchiveUndoesEnroll | vixel_manager/vixel_manager/registry.py:748-921 | archiving right after enrolling always succeeds, restores cameras, groups and port modes exactly, and the camera gets its old name when seen again |
| InventoryRoundTrips.ReplacedStaysOut | vixel_manager/vixel_manager/registry.py:755-759 | after a replacement the old camera is retired and enrolling anything that resolves to it is refused |
| InventoryRoundTrips.PurgeForgets | vixel_manager/vixel_manager/registry.py:941-957 | a purge forgets one catalogue entry and no other |
| AddressPool.AllocationIsExact | vixel_manager/vixel_manager/registry.py:564-605 | for a validated machine an automatic allocation succeeds exactly below capacity, with the least free pool address, in the subnet, not the host, used by nobody |
| AddressPool.RoomIsExact | vixel_manager/vixel_manager/registry.py:564-619 | there is room exactly while an approved network has fewer cameras than its port mode allows |
| AddressPool.RequestedIsExact | vixel_manager/vixel_manager/registry.py:586-591 | a requested address is granted exactly when there is room and it is a free pool address |
| AddressPool.FullPoolNeedsAsMany | vixel_manager/vixel_manager/registry.py:335-341 | pigeonhole: a full pool needs as many uses as it has addresses |
| AddressPool.AllocatedPlaceIsAccepted | vixel_manager/vixel_manager/registry.py:389-394 | a camera enrolled or moved to the address just allocated passes the address checks |
| Registries.MeetOne | vixel_manager/vixel_manager/registry.py:369-394 | one more camera is sound when its key and place have not been met, and one that does not fit makes the whole inventory invalid |
| Registries.Registry.CheckSensors | vixel_manager/vixel_manager/registry.py:367-405 | the walk accepts exactly the valid cameras |
| Registries.Registry.CheckKnown | vixel_manager/vixel_manager/registry.py:407-418 | the walk accepts exactly the valid catalogues |
| Registries.Registry.SaveOrRestore | vixel_manager/vixel_manager/registry.py:537-562 | a failed validation or write restores the previous inventory exactly |
| Registries.Registry.RecordObservation | vixel_manager/vixel_manager/registry.py:688-746 | the catalogue changes as specified |
| Registries.Registry.EnrollSensor | vixel_manager/vixel_manager/registry.py:748-789 | camera, catalogue and restore as specified |
| Registries.Registry.ReplaceSensor | vixel_manager/vixel_manager/registry.py:791-837 | camera, both catalogue entries, groups and restore as specified |
| Registries.Registry.MoveTo | vixel_manager/vixel_manager/registry.py:839-862 | address, network and restore as specified |
| Registries.Registry.ForgetSensor | vixel_manager/vixel_manager/registry.py:893-921 | refused for a grouped camera; archived entry and restore as specified |
| Registries.Registry.PurgeKnownSensor | vixel_manager/vixel_manager/registry.py:941-957 | refused for an enrolled camera; restore as specified |
| Registries.Registry.PutGroup | vixel_manager/vixel_manager/registry.py:959-978 | group and restore as specified |
| Registries.Registry.RemoveGroup | vixel_manager/vixel_manager/registry.py:980-990 | group and restore as specified |
| Registries.Registry.ChangePortMode | vixel_manager/vixel_manager/registry.py:621-642 | refused for direct mode with several cameras; restore as specified |
| Registries.Registry.Allocate | vixel_manager/vixel_manager/registry.py:564-605 | the search gives the specified allocation |

## Left out

Outside the model:

- All camera, socket, image, ROS, YAML, JSON and file calls; only their outcomes are inputs (a frame with
  its timestamp and status, a command sent or not, a save written or not).
- The web gateway, dashboard, command line, network setup, PTP supervision and port probing.
- Camera feature negotiation, trigger selection, settings merging and worker management.
- Threads: a step is one critical section under its lock, or several in a row: a delivery (queueing the job,
  then completing the caller), a failure (closing the request, completing its callers, lowering the depth)
  and a shutdown (clearing the queue, completing everybody in it) are one step each. Doubles are reals and never infinite or
  NaN, integers are unbounded; cycle numbers and nanosecond times do not wrap.
- Log and status messages, time stamps of messages, counters that are only reported.

Frame pipeline:

- Publishing outside the encoder and reading the PTP offset do not throw in the middle of the delivery
  loop; in the code that would take already settled callers off the depth again.
- A chunk job queued while the session shuts down is not claimed to be encoded: the encoder may be gone.
- Requests and shutdown of one session exclude each other, as under the provider's lock.
- Request objects are values in a map named by their first caller; a weak pointer is such a name.
- FrameMatching.WorkerLoop: serves scheduled requests only; a request without a timestamp takes the newest
  buffer and is not part of the merge.

Action scheduler:

- ActionScheduling.WholeRunKeepsDistance: is about capture commands; their distance from metering actions is
  ActionScheduling.MeteringClearanceIsExact. A camera's minimum interval is constant over the run.
- The deadline that blocks metering is measured on the steady clock; here it is on the camera clock, and the
  skew bounds how far an action time may exceed it.
- When metering is due, which cameras it covers, whether their pipelines are idle and whether a command
  fails: a tick outside the block meters any cameras. The distance of two metering actions.
- The software fallback after failed commands and the waiting for frames after scheduling.

Chunk transport:

- One sensor's traffic; the images taken out by the recorder while it captures; capture identifiers are
  their positions in the maps' string order.

Capture operations and goals:

- The stop check, the counters and the sends of one cycle are one scheduler step. A stop that lands
  between them in the code raises the pending saves with no goal sent.
- The test that finds the recorder at capacity, or the lease gone, is not modelled: both are events that may
  come at any cycle.
- Each sent goal reports once. Shutdown of the recorder, where scheduling ends early without a stop.
- Renewal of the operation's lease appears only as its expiry; whether the release request reaches the
  manager is not modelled.
- CaptureRecorders.OperationTable.Retire: the table holds operations by value; the shared object is modelled
  on its own as OperationState, so aliasing between table and callbacks is not captured.
- GoalAdmission.CounterIsHolders: exact per goal only when a goal lists each camera once; the general
  counter is stated with multiplicity.

Leases and assignments:

- `replace_sensor`, which edits group membership without asking whether the cameras are held.
- Each service call is one step; the order of identifiers in a lease's camera list; imaging settings,
  preview rates and missing policies of assignments.
- Provider and manager share one description of which networks are approved.

Registry:

- Addresses are numbers, a network's subnet and pool are ranges; text forms of addresses are not parsed.
- Letters outside ASCII are treated as separators; case folding of such letters is not modelled.
- The sighting counters, change lists and history entries; `update_known_sensor`, which edits none of the
  modelled fields; migration of old inventories.
- Registries.Registry.SaveOrRestore: a failure after the file was already replaced restores the memory but
  not the file; the file is not modelled.
- Registries.Registry.EnrollSensor: refusing a retired camera keeps the refreshed catalogue entry, as the
  code does, so the restore covers failed saves and not that refusal.
- Observations carry all their keys, and the loaded inventory starts consistent.

Timing:

- SequenceTiming.QueueNeverOverflows: the scheduler may dispatch late but not before its dispatch time.
- `capture_interval_supported` and the texts that explain a cadence limit.
