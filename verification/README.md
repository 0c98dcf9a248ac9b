# Verification of SP RTK Base's core

A Dafny model of the parts of SP RTK Base whose behaviour spans whole runs, and
proofs of what those parts keep. One module stands for one source file or part
of one:

| file | what it models |
|---|---|
| `SurveyModels.dfy`, `SurveyAveraging.dfy`, `ReceiverCounts.dfy` | positions and distances, the running mean, the wrapped receiver counters |
| `SurveyLoop.dfy`, `SurveyRuns.dfy` | the sample loop of a Survey-in, and what holds in every run of it |
| `SurveyService.dfy` | the survey's life: start, sample, commit, abort, cancel, disconnect, shutdown |
| `ReceiverState.dfy`, `ReceiverRead.dfy` | the receiver's writable state, its leaf-by-leaf diff, the profile merge, the full live read |
| `ApplyConfig.dfy` | Apply: the ordered steps, the guards, and the management link after a baud write |
| `RelayEvents.dfy`, `PortalEvents.dfy` | live event streams, and the Portal tunnel's Event log entries |
| `TunnelHead.dfy`, `TunnelBackstop.dfy` | the request-head rewrite, and the tunnel's life with its backstop |
| `CorrectionVerification.dfy`, `CorrectionFeed.dfy` | the RTCM 3 scanner and data window, and the correction pump |
| `Octets.dfy`, `Doh.dfy`, `DohResolver.dfy` | DNS messages, and the addresses kept from them |
| `Common.dfy` | what several of them share |

Code that updates fields or buffers in place is a class or a method here, proved
against a specification function; the properties of every run are lemmas about
that function, or methods that take any number of arbitrary steps. What the
environment decides (a read, a write's success, a clock reading, a schedule) is
an arbitrary value or a parameter. Positions and times are exact.

`dafny verify dfyconfig.toml` checks everything.

## What the properties found

The code is modelled as it is. Where it falls short of what its own comments
say, the exact condition is proved instead.

- Writing every step of an Apply leaves the receiver at the request if and only
  if each port the request doesn't name already took and sent nothing
  (`WriteEverythingReaches`, and `UnnamedPortStays` for a request that isn't
  reached): the steps write only named ports, the diff covers all of them. A live
  read and a merge always name every port (`ReadWrittenBack`,
  `MergedRequestReaches`).
- The DNS parser skips exactly the name a query wrote if and only if every label
  has 1 to 191 bytes (`QueryNameSkipped`). A host name with two dots in a row is
  encoded with a zero byte too early rather than refused (`EmptyLabel`). A part
  of it that holds other dots the IDNA codec knows, an ideographic full stop say,
  is one label here and may encode to more: from 192 bytes on its length reads as
  a pointer (`LongLabel`), and from 256 on it cannot be written and the error goes
  unhandled (`Query` is then `None`).
- The backstop's idle limit, and that it never closes a tunnel before a deadline,
  need each tunnel's streams to end before the next opens (`WithinLimits`, `Pass`).
  If any is left, its end takes one off the next tunnel's count. At -1 that tunnel
  is not seen to be idle, up to its hard cap (`MissesIdle`, and the run
  `OutlivingStream`); and once it opens a stream of its own the count is 0, and it
  is closed as idle with the stream open (`ClosesBusy`, and the run
  `ClosedUnderAStream`). `Pass` says exactly when each happens.
- The request line's pattern ends in `$`, which also lets one trailing line feed
  through; `IsRequestLine` says so.
- The excursion counter counts excursions since the last accepted Fixed sample,
  not excursions in unbroken succession: Float or stale samples between them
  leave it alone (`ExcursionsCounted`, `ExcursionsLeaveAverage`).

## Model

| member | source | states |
|---|---|---|
| `SurveyAveraging.WelfordStep` | src/sp_rtk_base/services/survey_service.py:118-125 | One Welford update turns the batch mean Σx/n and M2 Σ(x−mean)² of the values so far into exactly those of one value more |
| `SurveyAveraging.DeviationsShift` | src/sp_rtk_base/services/survey_service.py:105-110 | The sum of squared deviations about any centre, in terms of that about any other: what makes the running M2 equal the batch one |
| `SurveyAveraging.Averaging.Add` | src/sp_rtk_base/services/survey_service.py:118-125 | After any number of adds every axis holds the batch mean and M2, and the accuracies their sum, of exactly the positions added |
| `SurveyAveraging.Averaging.MeanXyz` | src/sp_rtk_base/services/survey_service.py:127-129 | The mean reported is the batch mean of the positions added |
| `SurveyAveraging.Averaging.IsAccurateTo` | src/sp_rtk_base/services/survey_service.py:131-135 | Within a limit exactly when both the mean accuracy and the 3D spread about the mean are |
| `SurveyAveraging.AccurateToMeans` | src/sp_rtk_base/services/survey_service.py:131-135 | For n Observations, a limit is kept exactly when the accuracies come to at most n times it and the squared 3D distances from the mean position to at most n times its square |
| `ReceiverCounting.ReceiverCounts.Add` | src/sp_rtk_base/services/survey_service.py:154-165 | The totals are the sum of the growths between successive readings, a reset read as counting again from zero |
| `ReceiverCounting.WrappedDifference` | src/sp_rtk_base/services/survey_service.py:141-142 | The wrapped difference of two register values is the true growth when it is under 2^16 |
| `ReceiverCounting.GrowthReaches` | src/sp_rtk_base/services/survey_service.py:154-165 | What any read adds brings the read before it, or zero after a reset, to the new one: bytes exactly, 16-bit registers modulo 2^16, skipped bytes never going back |
| `ReceiverCounting.TotalsAreTrue` | src/sp_rtk_base/services/survey_service.py:154-165 | Over any number of readings, true growth is the totals plus exactly what was counted between a last read and a reset |
| `ReceiverCounting.TotalsNeverExceedTruth` | src/sp_rtk_base/services/survey_service.py:141-145 | The totals never exceed true growth, and equal it when the receiver never reset |
| `SurveyModels.Triangle` | src/sp_rtk_base/services/survey_service.py:491-494 | The 3D triangle inequality on squared distances, with no square root |
| `SurveyModels.WithinAnyAxis` | src/sp_rtk_base/services/survey_service.py:491-494 | Positions within a 3D distance are within it on every axis, so the drift bound holds axis by axis |
| `SurveyLoop.SampleLoop.Take` | src/sp_rtk_base/services/survey_service.py:473-550 | One pass of the loop: its verdict is that of the whole history of samples, which `VerdictExactly` and `PlainObservations` say from the samples alone; on completion the average holds the Observations since the last jump |
| `SurveyLoop.SampleLoop.JudgeJump` | src/sp_rtk_base/services/survey_service.py:484-507 | Near, excursion or jump, and what each does to the reference, the counter, the average and the settling clock |
| `SurveyLoop.SampleLoop.Settle` | src/sp_rtk_base/services/survey_service.py:508-518 | The settling clock starts at the first Fixed after a break or jump; the stall clock restarts only at an Observation |
| `SurveyLoop.SampleLoop.Follow` | src/sp_rtk_base/services/survey_service.py:484-518 | The loop variables, updated in place, hold what the history of samples leaves behind |
| `SurveyLoop.SampleLoop.AddObservation` | src/sp_rtk_base/services/survey_service.py:534-542 | An Observation completes the survey exactly when there are enough and they are accurate enough |
| `SurveyRuns.TraceIsSound` | src/sp_rtk_base/services/survey_service.py:484-518 | In every run, accepted Fixed samples form a chain of fresh Fixed samples each within 5 cm of the one before, begun at the last jump; all lists are of samples taken, in order |
| `SurveyRuns.FreshFixedMeans` | src/sp_rtk_base/services/survey_service.py:168-171 | Fixed is a valid fix with an RTK Fixed solution; fresh is on corrections at most 10 s old |
| `SurveyRuns.JudgedBy` | src/sp_rtk_base/services/survey_service.py:484-507 | Of any sample: only a Corrected survey's fresh Fixed ones are judged; near within 5 cm of the last accepted or the first, else an excursion, and a jump after two excursions |
| `SurveyRuns.DriftBound` | src/sp_rtk_base/services/survey_service.py:76-83 | Two accepted Fixed samples k steps of the chain apart are within k times 5 cm of each other |
| `SurveyRuns.ExcursionsCounted` | src/sp_rtk_base/services/survey_service.py:484-507 | The counter is how many fresh Fixed samples came after the last accepted one: always fewer than three, all more than 5 cm from it |
| `SurveyRuns.ExcursionsLeaveAverage` | src/sp_rtk_base/services/survey_service.py:84-86 | Up to two excursions, whatever lies between them, leave the average and the chain untouched |
| `SurveyRuns.ThirdExcursionRestarts` | src/sp_rtk_base/services/survey_service.py:497-504 | The third excursion discards the average and starts chain and settling again from itself |
| `SurveyRuns.RunStartIsFixedRun` | src/sp_rtk_base/services/survey_service.py:508-512 | The settling clock runs from the first sample of the current unbroken run of Fixed samples with no jump inside it |
| `SurveyRuns.ObservationsExactly` | src/sp_rtk_base/services/survey_service.py:513-516 | A sample is in the average if and only if it is an accepted Fixed since the last jump, not the jump itself, at which Fixed had held for the settling time |
| `SurveyRuns.PlainObservations` | src/sp_rtk_base/services/survey_service.py:565-571 | A plain survey averages exactly the samples with a valid fix, whatever their solution or corrections, and never jumps |
| `SurveyRuns.PlainCommitted` | src/sp_rtk_base/services/survey_service.py:534-542 | A plain survey completes only on enough, accurate samples, every one with a valid fix |
| `SurveyRuns.LastObservedIsLast` | src/sp_rtk_base/services/survey_service.py:517-518 | The stall clock runs from the last sample that was an Observation when it was taken, or the start |
| `SurveyRuns.VerdictExactly` | src/sp_rtk_base/services/survey_service.py:513-547 | Exactly when each verdict is given, from the history of samples: stalled and why, else complete, else timed out, else to go on |
| `SurveyRuns.EndsInTime` | src/sp_rtk_base/services/survey_service.py:543-550 | With a clock that never goes back and sleeps as long as asked, a survey takes at most max(3600, 3·min_duration) + 1 samples |
| `SurveyRuns.ObservationsPaced` | src/sp_rtk_base/services/survey_service.py:548-550 | Observations never exceed the seconds since the survey began plus one, however samples bunch up after a slow read |
| `SurveyRuns.CommittedObservations` | src/sp_rtk_base/services/survey_service.py:534-542 | A Corrected survey completes only on enough, accurate, settled Fixed Observations, all after the last jump and pairwise within 5 cm a chain step |
| `SurveyRuns.ChainBound` | src/sp_rtk_base/services/survey_service.py:76-83 | Any two samples of a chain are apart by at most 5 cm for each step between them |
| `SurveyLifecycle.EveryFixedBase` | src/sp_rtk_base/services/survey_service.py:701-725 | Every fixed base written in any safe log is the mean of a completed survey, with no input open; a Corrected survey writes it right after a restore that succeeded, on Observations fit to commit |
| `SurveyLifecycle.RestoredOnce` | src/sp_rtk_base/services/survey_service.py:752-773 | From one begin of correction input to the next, the restore is attempted exactly once by the time the input is closed |
| `SurveyLifecycle.SurveyService.StartCorrected` | src/sp_rtk_base/services/survey_service.py:254-308 | Busy exactly while a survey of this receiver runs; else the exact calls made, rover first and then the input; started exactly if all succeeded, with this receiver, this moment and no sample as its own; a failure after the input was begun restores it and the saved base |
| `SurveyLifecycle.SurveyService.StartPlain` | src/sp_rtk_base/services/survey_service.py:411-423 | A plain survey opens no input: its one call is to average on the receiver or to make it a rover, and it starts exactly if that succeeds, from now, on the connected receiver |
| `SurveyLifecycle.SurveyService.TaskStep` | src/sp_rtk_base/services/survey_service.py:473-563 | A read that is answered is judged: the survey goes on with no call made exactly if the verdict on its samples says so, and otherwise ends with that verdict's outcome and calls. One that isn't answered aborts it, input and saved base restored |
| `SurveyLifecycle.SurveyService.Conclude` | src/sp_rtk_base/services/survey_service.py:521-547 | Each verdict's exact outcome and calls: a complete survey is restored, then written, then Completed, and aborted only if the logged restore or base write failed; a stalled one keeps its reason unless the restore failed; one out of time says so |
| `SurveyLifecycle.SurveyService.GiveUp` | src/sp_rtk_base/services/survey_service.py:521-547 | A survey that stalled or ran out of time: input restored first, an unrestored input outranking the stall's reason, then the saved base |
| `SurveyLifecycle.SurveyService.Commit` | src/sp_rtk_base/services/survey_service.py:701-725 | Exactly the restore, then the mean of the Observations as fixed base, and Completed; a failed restore writes nothing, a failed write ends on the saved base |
| `SurveyLifecycle.SurveyService.Abort` | src/sp_rtk_base/services/survey_service.py:553-563 | An abort shows its reason, closes the input with one restore if it was open, then attempts the saved base, and makes no other call |
| `SurveyLifecycle.SurveyService.StopCorrections` | src/sp_rtk_base/services/survey_service.py:752-773 | The restore is attempted once if input is open, not at all otherwise, and its success reported |
| `SurveyLifecycle.SurveyService.StopTask` | src/sp_rtk_base/services/survey_service.py:556-563 | Cancelling the sampling closes the input, if open, and makes no other call |
| `SurveyLifecycle.SurveyService.Cancel` | src/sp_rtk_base/services/survey_service.py:367-388 | Which calls a cancel makes and what it shows: the station's own running survey restores the input and the saved base; a finished one is left exactly as it was; otherwise the receiver's own is cancelled |
| `SurveyLifecycle.SurveyService.BeforeDisconnect` | src/sp_rtk_base/services/survey_service.py:395-405 | A running survey ends aborted, its input restored and then the saved base, before the receiver goes; with none running, no call is made |
| `SurveyLifecycle.SurveyService.Shutdown` | src/sp_rtk_base/services/survey_service.py:390-393 | Shutting down restores the input, if open, and makes no other call |
| `SurveyLifecycle.SurveyService.ReadProgress` | src/sp_rtk_base/services/survey_service.py:351-445 | Reading the station's own progress changes nothing; a receiver's own is asked unless it was cancelled or aborted; one of another receiver is dropped |
| `SurveyLifecycle.SurveyService.ForgetIfReceiverChanged` | src/sp_rtk_base/services/survey_service.py:744-750 | A survey is forgotten only once a different receiver is connected |
| `SurveyLifecycle.SurveyService.RunApplicationSurvey` | src/sp_rtk_base/services/survey_service.py:461-563 | A survey left to run ends within its sample bound, on the first verdict not to go on, with that verdict's outcome and calls, or at the first read not answered |
| `SurveyLifecycle.SurveyService.AnyRun` | src/sp_rtk_base/services/survey_service.py:188-200 | Any number of operations in any order keeps the call log safe: input restored once, before any base is written |
| `SurveyLifecycle.SurveyService.AfterFinish` | src/sp_rtk_base/services/survey_service.py:381-382 | Once a survey has completed, no run of cancels, disconnects, shutdowns and reads on the same receiver makes another call or changes its outcome |
| `ReceiverState.DiffReceiverAssertions` | src/sp_rtk_base/models/profile_models.py:373-529 | The nested loops list exactly the differing leaves, in the fixed order |
| `ReceiverState.DiffExactly` | src/sp_rtk_base/models/profile_models.py:378-385 | The diff has each differing leaf once, in order, with its two values, and is empty if and only if the states agree leaf by leaf |
| `ReceiverState.EveryLeafOnce` | src/sp_rtk_base/models/profile_models.py:397-529 | The leaves the diff walks are every leaf, each once |
| `ReceiverState.PathsHaveSteps` | src/sp_rtk_base/models/profile_models.py:547-571 | The path of every leaf maps to exactly the step that writes that leaf |
| `ReceiverState.WriteStepLeaves` | src/sp_rtk_base/services/device_service.py:1526-1571 | A step writes its own leaves and no other; only ports the request names are touched |
| `ReceiverState.DenseMatrixKeepsCells` | src/sp_rtk_base/models/profile_models.py:643-657 | Normalising the matrix keeps every cell, absent meaning off |
| `ReceiverState.WriteEverythingLeaves` | src/sp_rtk_base/models/profile_models.py:535-544 | After the first n steps, exactly their leaves hold the request |
| `ReceiverState.WriteEverythingReaches` | src/sp_rtk_base/services/device_service.py:1543-1546 | Writing every step reaches the request if and only if each port it does not name took and sent nothing |
| `ReceiverState.UnnamedPortStays` | src/sp_rtk_base/services/device_service.py:1543-1546 | A request that names no port, equal otherwise to what the receiver holds, is not reached, and the diff says so |
| `ReceiverState.MergedRequestReaches` | src/sp_rtk_base/models/profile_models.py:692-693 | A merge into a live read names every port, so writing it ends at exactly the merge |
| `ReceiverState.MergeLeaves` | src/sp_rtk_base/models/profile_models.py:660-739 | Leaf by leaf the merge is the profile's own value where it asks for one, each field, port and cell its own, and the live value everywhere else |
| `ReceiverRead.ReadLeaves` | src/sp_rtk_base/services/device_service.py:171-209 | Each leaf is what the three reads say of its own setting and port, an absent entry off, and the live read names every port |
| `ReceiverRead.ReadWrittenBack` | src/sp_rtk_base/services/device_service.py:171-209 | Writing a live read back over any later state brings back exactly what was read |
| `ApplyConfig.IncrementalRefines` | src/sp_rtk_base/services/device_service.py:1442-1496 | Incremental Apply refines writing everything: leaves of steps before the first failure hold the request, later ones their old values, and with no failure all are where writing every step would put them |
| `ApplyConfig.DeviceService.ApplyReceiverConfig` | src/sp_rtk_base/services/device_service.py:1280-1524 | What every outcome means: refused exactly as the rules say, and by which; not connected, refused or unread writes nothing; otherwise the steps ran in order as far as due, the result is ok exactly when the diff is empty, the link answers, and the diff is exactly the differing leaves; a lost link names the old rate and the one it was changing to; with no failed step the receiver is where writing every step would leave it |
| `ApplyConfig.DeviceService.RunSteps` | src/sp_rtk_base/services/device_service.py:1458-1499 | A step runs exactly when it differs or warned last time, until the first failure, each over a link that still answers; warned marks change only for steps that ran |
| `ApplyConfig.DeviceService.RunApplyStep` | src/sp_rtk_base/services/device_service.py:1526-1571 | A step that fails may leave any of its own leaves half-written, and no other |
| `ApplyConfig.DeviceService.Guards` | src/sp_rtk_base/services/device_service.py:1411-1440 | Which rule refuses, port by port: over Bluetooth the known Console port's own rate, any UART's while it is unknown, none on USB; UBX input at the known port, at any that takes it while unknown; a running survey; no position to fix |
| `ApplyConfig.DeviceService.PortByPort` | src/sp_rtk_base/services/device_service.py:1602-1641 | The guards' search over all ports comes to that condition on each of the three |
| `ApplyConfig.DeviceService.Guarded` | src/sp_rtk_base/services/device_service.py:1411-1440 | A request no rule refuses keeps UBX input at the true Console port and, over Bluetooth, its rate |
| `ApplyConfig.UbxSurvives` | src/sp_rtk_base/services/device_service.py:1573-1600 | Whatever steps ran, with the ports step whole or torn, the console port still takes UBX if no guard refused |
| `ApplyConfig.BaudsAfter` | src/sp_rtk_base/services/device_service.py:1481-1485 | The UART rates after the steps, from which the reopen is decided |
| `ApplyConfig.DeviceService.KeepConsoleLinkAfterBaudWrite` | src/sp_rtk_base/services/device_service.py:1643-1708 | Returning normally means the link answers at the true console port; a known port stays as it was, and nothing is reopened unless its own rate changed or a dead link has no known port; a lost link names the old rate and the known port's new one, or the first changed, and needs a reopen that failed though at the receiver's own rate |
| `ApplyConfig.DeviceService.FindConsoleAtNewRates` | src/sp_rtk_base/services/device_service.py:1678-1708 | A rate only one changed port has, if it answers, makes that port the known one; a shared rate is never used to guess; a lost link has tried each new rate once and names the old rate and the first |
| `ApplyConfig.DeviceService.ReopenAfterBaudWrite` | src/sp_rtk_base/services/device_service.py:1710-1764 | Only ever reached over a serial link: one attempt at the new rate, one at the old if it fails, and then a lost link is reported whether or not the second works |
| `ApplyConfig.DeviceService.Confirm` | src/sp_rtk_base/services/device_service.py:1501-1524 | The read-back after the link is kept decides the result |
| `ApplyConfig.DeviceService.ApplyTwice` | src/sp_rtk_base/services/device_service.py:1464-1470 | Repeating an Apply that returned ok without warnings is permitted, skips every step, writes nothing and returns ok |
| `ApplyConfig.DeviceService.AnyApplies` | src/sp_rtk_base/services/device_service.py:1397-1412 | Over any sequence of Applies and reconnects the console port keeps taking UBX and what is believed of it stays true or unknown |
| `RelayEvents.EventStream.Put` | src/sp_rtk_base/services/relay_events.py:68-71 | A put drops the oldest only when the queue is full, so nothing offered is missing, doubled or out of order |
| `RelayEvents.EventStream.Get` | src/sp_rtk_base/services/relay_events.py:50-52 | A read takes the oldest event neither read nor dropped |
| `RelayEvents.EventStream.QueueIsNewest` | src/sp_rtk_base/services/relay_events.py:35-40 | The queue is always the newest at most 200 of the arrived events after the last one read |
| `RelayEvents.RelayEvents.Open` | src/sp_rtk_base/services/relay_events.py:101-106 | A stream opens owed everything the engine emits from then on, and one subscription exists exactly while an engine is followed and a stream open |
| `RelayEvents.RelayEvents.Close` | src/sp_rtk_base/services/relay_events.py:129-132 | Closing removes that stream only, and the last one takes the subscription with it |
| `RelayEvents.RelayEvents.Follow` | src/sp_rtk_base/services/relay_events.py:113-118 | Following the same engine keeps its subscription; another gets a new, empty one |
| `RelayEvents.RelayEvents.BeginUnfollow` | src/sp_rtk_base/services/relay_events.py:120-127 | Unfollowing lets the engine go, keeps everything owed, and leaves the thread running until it has been waited for |
| `RelayEvents.RelayEvents.EndUnfollow` | src/sp_rtk_base/services/relay_events.py:162-171 | By the time an unfollow returns, everything emitted and undelivered has been delivered |
| `RelayEvents.RelayEvents.Deliver` | src/sp_rtk_base/services/relay_events.py:190-192 | An event goes once to every open stream |
| `RelayEvents.RelayEvents.Publish` | src/sp_rtk_base/services/relay_events.py:108-111 | The application's own event goes once to every open stream and counts as none of the engine's |
| `RelayEvents.RelayEvents.Emit` | src/sp_rtk_base/services/relay_events.py:134-138 | Only the followed engine's events are taken |
| `RelayEvents.RelayEvents.ThreadDelivers` | src/sp_rtk_base/services/relay_events.py:184-188 | What is owed does not change when the thread delivers |
| `RelayEvents.RelayEvents.WatchedRun` | src/sp_rtk_base/services/relay_events.py:101-192 | Over every interleaving, those while an unfollow waits for the thread included, a stream kept open from its opening to the end of the unfollow has been offered every event emitted meanwhile, once each and in order |
| `RelayEvents.RelayEvents.FollowedRun` | src/sp_rtk_base/services/relay_events.py:113-127 | A stream already open when another engine is followed is offered from then on exactly that engine's events until the unfollow, once each and in order |
| `RelayEvents.AnyRun` | src/sp_rtk_base/services/relay_events.py:85-143 | Any run of steps keeps every open stream offered exactly the delivered events since it opened |
| `PortalEvents.PortalEvents.Check` | src/sp_rtk_base/services/portal_events.py:59-71 | A check raises the events whose ids are not among the last 200 raised, and nothing when the agent is unavailable |
| `PortalEvents.BoundedIsUnbounded` | src/sp_rtk_base/services/portal_events.py:56-71 | Remembering any 20 or more of the last ids raised, 200 among them, gives the same log as remembering all: every listed event of an ever-growing stream, for runs of any length |
| `PortalEvents.RaisedOnceInOrder` | src/sp_rtk_base/services/portal_events.py:59-71 | Every listed event is raised, none that was not listed, once each and in stream order |
| `PortalEvents.NewestSlide` | src/sp_rtk_base/portal_agent/tunnel.py:178-179 | An agent that keeps its newest 20 events lists windows of the kind the proof needs |
| `PortalEvents.Checks` | src/sp_rtk_base/services/portal_events.py:59-71 | Any number of checks of such statuses, with the agent unavailable any number of times between them, raises exactly what unbounded memory would |
| `TunnelBackstop.TunnelClient.Pass` | src/sp_rtk_base/portal_agent/tunnel.py:269-294 | While no stream an earlier tunnel left has ended, a pass returns exactly at a deadline; once one has, an idle tunnel is not seen to be idle, and one with as many streams as have ended so is taken for idle; otherwise it sleeps a positive time |
| `TunnelBackstop.TunnelClient.WithinLimits` | src/sp_rtk_base/portal_agent/tunnel.py:26-31 | A watched tunnel is never open past hard_cap + idle_timeout, nor, if no earlier stream was left when it opened, without a stream past idle_timeout, by more than the lateness of a wake |
| `TunnelBackstop.TunnelClient.MissesIdle` | src/sp_rtk_base/portal_agent/tunnel.py:283-294 | Any stream left when a tunnel opens can keep it open, without a stream and with every sleep ending on time, past its idle limit |
| `TunnelBackstop.TunnelClient.ClosesBusy` | src/sp_rtk_base/portal_agent/tunnel.py:283-290 | Any stream left when a tunnel opens can have it closed under a live stream, before its hard cap |
| `TunnelBackstop.TunnelClient.StreamEnds` | src/sp_rtk_base/portal_agent/tunnel.py:296-303 | The wake already scheduled is never later than the deadline a stream's end sets |
| `TunnelBackstop.TunnelClient.Connected` | src/sp_rtk_base/portal_agent/tunnel.py:215-240 | Opening records one event and starts the count and the idle clock afresh; a failure records none |
| `TunnelBackstop.TunnelClient.Set` | src/sp_rtk_base/portal_agent/tunnel.py:201-213 | Opens and closes are recorded alternately, failed attempts never, and the newest 20 kept |
| `TunnelBackstop.TunnelClient.Wake` | src/sp_rtk_base/portal_agent/tunnel.py:185-199 | A Wake is ignored unless the tunnel is closed and the nonce well formed |
| `TunnelBackstop.AnyRun` | src/sp_rtk_base/portal_agent/tunnel.py:155-303 | Any schedule over any number of tunnels keeps each within its hard cap, keeps within its idle limit each that opened with no earlier stream left, and keeps the event history |
| `TunnelBackstop.OutlivingStream` | src/sp_rtk_base/portal_agent/tunnel.py:296-303 | A run in which a stream outlives its tunnel, and the next tunnel stays open two idle timeouts without a stream |
| `TunnelBackstop.ClosedUnderAStream` | src/sp_rtk_base/portal_agent/tunnel.py:296-303 | A run in which a stream outlives its tunnel, and the next tunnel is closed at its idle timeout with a stream open |
| `TunnelHead.SplitJoin` | src/sp_rtk_base/portal_agent/tunnel.py:136 | Splitting what was joined gives the lines back, when none has a CRLF |
| `TunnelHead.JoinSplit` | src/sp_rtk_base/portal_agent/tunnel.py:152 | Joining what was split gives the bytes back |
| `TunnelHead.AcceptedExactly` | src/sp_rtk_base/portal_agent/tunnel.py:138-142 | A head is accepted if and only if its lines can be written as an upper-case method other than CONNECT, a path without spaces, HTTP/1.0 or 1.1 and at most one line feed, followed by lines that are empty or have a colon |
| `TunnelHead.KeepsExactly` | src/sp_rtk_base/portal_agent/tunnel.py:133-152 | By the bytes: between the agent's Host and Connection fields the output has exactly those input lines, in order, that are not empty and not named Host, nor Connection or Keep-Alive unless some line is named Upgrade |
| `TunnelHead.NameMeans` | src/sp_rtk_base/portal_agent/tunnel.py:140 | A line's name is the letters, of either case, before its first colon, with blanks around them |
| `TunnelHead.NamesSpelt` | src/sp_rtk_base/portal_agent/tunnel.py:70 | The names the rewrite looks for are these ASCII words |
| `TunnelHead.FieldsSpelt` | src/sp_rtk_base/portal_agent/tunnel.py:62 | And the fields it writes these |
| `TunnelHead.RequestLineSpelt` | src/sp_rtk_base/portal_agent/tunnel.py:69 | And the words, blanks and line ends a request line is read by |
| `TunnelHead.RewriteIsFaithful` | src/sp_rtk_base/portal_agent/tunnel.py:133-152 | The request line and the kept fields stay, in order; there is exactly one Host field, the agent's own, and without Upgrade exactly one Connection field and no Keep-Alive |
| `TunnelHead.RewriteIsIdempotent` | src/sp_rtk_base/portal_agent/tunnel.py:133-152 | Rewriting a rewritten head changes nothing and never refuses it |
| `CorrectionVerification.ScanSplits` | src/sp_rtk_base/services/correction_verification.py:92-117 | Scanning a then what is left plus b gives the pieces and the rest of scanning a and b together |
| `CorrectionVerification.ChunkIndependence` | src/sp_rtk_base/services/correction_verification.py:235-243 | However a stream is cut, feeding the chunks gives what one scan of it all gives |
| `CorrectionVerification.ScanConserves` | src/sp_rtk_base/services/correction_verification.py:92-117 | The pieces and the rest, put together, are the bytes scanned |
| `CorrectionVerification.RestIsPartial` | src/sp_rtk_base/services/correction_verification.py:104-109 | What is left is empty or begins an incomplete frame: the scan stops only to wait |
| `CorrectionVerification.FramesAreValid` | src/sp_rtk_base/services/correction_verification.py:110-115 | Everything counted is a whole valid frame |
| `CorrectionVerification.ScanIsGreedy` | src/sp_rtk_base/services/correction_verification.py:92-117 | At every point the scan takes a Frame exactly when a whole valid one starts there, all of it, and otherwise passes over one byte |
| `CorrectionVerification.LaidOutFrame` | src/sp_rtk_base/services/correction_verification.py:104-110 | 0xD3, a 10-bit length below any six spare bits, that many bytes and three more are a Frame exactly if the decoder accepts them |
| `CorrectionVerification.JudgedBy` | src/sp_rtk_base/services/correction_verification.py:252-278 | Passed exactly if a Frame found is a reference position, then by whether there was any Frame, any byte, or none |
| `CorrectionVerification.BackToBackFramesAreFound` | src/sp_rtk_base/services/correction_verification.py:92-117 | Valid Frames back to back after anything without a preamble byte are each found, with nothing left |
| `CorrectionVerification.Window.ScanBuffer` | src/sp_rtk_base/services/correction_verification.py:92-117 | The scanner, deleting from its buffer in place, does what the specification says and terminates |
| `CorrectionVerification.Window.Take` | src/sp_rtk_base/services/correction_verification.py:240-243 | After each chunk, counts and buffer are those of one scan of everything read |
| `CorrectionVerification.ReadWindow` | src/sp_rtk_base/services/correction_verification.py:226-262 | The verdict depends only on the bytes read, and the window reads on exactly while its deadline, extended once Frames flow, has not passed |
| `Doh.SkipNameLoop` | src/sp_rtk_base/portal_agent/doh.py:219-226 | The loop over labels ends where the recursive definition does, or finds the message too short |
| `Doh.ARecords` | src/sp_rtk_base/portal_agent/doh.py:229-256 | The parsing loops compute the specification on any bytes |
| `Doh.SkipNameExact` | src/sp_rtk_base/portal_agent/doh.py:219-226 | An encoded name anywhere in a message is skipped exactly |
| `Doh.ReplyRoundTrip` | src/sp_rtk_base/portal_agent/doh.py:229-256 | Any encoded reply gives back exactly its IN A records with 4 bytes of data, with their TTLs, in order, or says there are none |
| `Doh.ParsesExactlyReplies` | src/sp_rtk_base/portal_agent/doh.py:229-256 | Bytes parse to a list if and only if they encode a reply with exactly those A records |
| `Doh.HeaderErrors` | src/sp_rtk_base/portal_agent/doh.py:233-238 | Exactly which bytes are no reply to the query, and which are DNS errors, and of what code |
| `Doh.NoneWanted` | src/sp_rtk_base/portal_agent/doh.py:254-255 | Bytes have no A records to give if and only if they encode a reply without any |
| `Octets.NetworkOrder` | src/sp_rtk_base/portal_agent/doh.py:215-216 | Integers are written and read most significant byte first |
| `Doh.QueryNameSkipped` | src/sp_rtk_base/portal_agent/doh.py:207-216 | The parser skips exactly the name a query writes if and only if every label has 1 to 191 bytes |
| `Doh.QueryFields` | src/sp_rtk_base/portal_agent/doh.py:207-216 | A query reads back as ID 0, recursion desired, one question, no records, and asks for IN A |
| `Doh.QueryName` | src/sp_rtk_base/portal_agent/doh.py:211-216 | Every label stands in its turn behind its length byte, and a zero byte ends the name |
| `Doh.EmptyLabel` | src/sp_rtk_base/portal_agent/doh.py:211-214 | The query for "a..b", whose name is read four bytes short |
| `Doh.LongLabel` | src/sp_rtk_base/portal_agent/doh.py:211-214 | A query whose label of 192 to 255 bytes is read as a pointer |
| `DohResolver.LookUp` | src/sp_rtk_base/portal_agent/doh.py:128-155 | The answer is the first public address of the first endpoint with one, for its shortest public TTL within bounds; none means none had one |
| `DohResolver.DohResolver.Address` | src/sp_rtk_base/portal_agent/doh.py:109-121 | An address kept is used without asking until its time; otherwise it is looked up and kept |
| `DohResolver.DohResolver.Forget` | src/sp_rtk_base/portal_agent/doh.py:123-126 | A forgotten host, and only it, is looked up again |
| `DohResolver.DohResolver.KeptIsPublicAndRecent` | src/sp_rtk_base/portal_agent/doh.py:44-51 | Every kept address is public and its lookup between 300 s and an hour from its end |
| `CorrectionFeed.CorrectionFeed.Collect` | src/sp_rtk_base/services/correction_feed.py:142-152 | A write takes whole Frames in order while it holds under 4096 bytes and there are any |
| `CorrectionFeed.CorrectionFeed.WriteBatch` | src/sp_rtk_base/services/correction_feed.py:153-172 | A batch is counted as written or as failed, whole, and its bytes only if written |
| `CorrectionFeed.CorrectionFeed.PushFrames` | src/sp_rtk_base/services/correction_feed.py:132-178 | It ends before its turns are up only once the subscription has closed with none left; it asks every turn, the receiver has the successful batches end to end, written plus failed is taken, and the byte count is what it was sent |
| `CorrectionFeed.CorrectionFeed.Turn` | src/sp_rtk_base/services/correction_feed.py:132-141 | A Frame begins exactly one more batch; without one a closed subscription, and only that, is the end |
| `CorrectionFeed.NoneLost` | src/sp_rtk_base/services/correction_feed.py:153-172 | Every Frame taken is in a successful or a failed batch, once |
| `CorrectionFeed.AllWritten` | src/sp_rtk_base/services/correction_feed.py:170-172 | With no failed write the receiver has every Frame taken, in order |
| `CorrectionFeed.BatchIsShort` | src/sp_rtk_base/services/correction_feed.py:144-151 | A write is under 4096 bytes plus one Frame |
| `CorrectionFeed.JoinSplits` | src/sp_rtk_base/services/correction_feed.py:152 | Joining Frames end to end is the same batch by batch |

## Left out

- Floating point and trigonometry: positions are exact ECEF coordinates; `ecef_to_llh` and the accuracy figure a commit writes are not part of this model.
- The survey's progress display (`SurveyInProgress` fields, diagnostics samplers, stall warnings): only its outcome and averager are kept.
- Cancellation inside `_stop_corrections` or inside a commit's base write: the code promises no end state there. Cancellation lands between the passes of the sampling task.
- A Receiver survey-in is only started and cancelled here: the receiver's own averaging and its status are not part of this model.
- A survey whose receiver was swapped without a disconnect: the restore then goes to whichever receiver is connected; the log records which.
- The Relay, NTRIP sockets, serial, RFCOMM and BlueZ: each call is one atomic step that succeeds or fails.
- The CRC and the message number of an RTCM frame: the decoder library gives them.
- The queue inside a Frame subscription, which may drop Frames before they are taken, and how a batch in flight is counted when the pump is cancelled.
- Warnings a driver leaves behind when a step raises: they are not drained in that step, so only marks of steps that ran are stated.
- `apply_receiver_config` over a driver whose link check fails though the link is alive: `get_device_info` and the identification answer truthfully or not at all here, a reopen may fail at any rate.
- RelayEvents.RelayEvents.Follow: does not model an engine followed while an unfollow still waits for its thread, when two threads deliver at once.
- A thread that overruns its join timeout: the thread's last delivery and the drain come one after the other.
- `TunnelClient.close` while connecting: its task is cancelled between states, and nothing is promised.
- Stream bytes through the tunnel after the head, and the websocket itself.
- `is_public`, `_skips_doh` and the IDNA encoding of a label: the standard library's, given as predicates or as bytes.
- Logging of the DoH fallback, HTTP transport and status codes: an endpoint's reply parses or it doesn't.
- Profiles on disk, API routes, UI, update guard, Bluetooth Verification, agent configuration ranges: finite tables and plumbing.
