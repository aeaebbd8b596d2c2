# Certel: a Dafny model of the alerting pipeline

certel probes TLS endpoints on a schedule, decides per target whether there is something to
tell, and delivers notices through per-notifier webhooks. Everything between the probe and the
webhook is durable in one SQLite database. This project models that path and proves what it
promises over whole runs, with a crash and a restart between any two atomic steps.

`dafny verify dfyconfig.toml` checks the whole project. The files, in reading order:

| file | models |
|---|---|
| `domain.dfy` | statuses, severities, observations, structured bodies, saturating time |
| `debounce.dfy` | the flap counter, the history definition it computes, its rebuild from the probe log |
| `decision.dfy` | severity clamp, per-target decision, fan-out, the naive design it replaces |
| `tables.dfy` | the four tables as values, and the effect of each statement on them |
| `store.dfy` | class `Store`: every statement may fail, `Enqueue` is one transaction |
| `manager.dfy` | classes `TargetState` and `Manager`: `Process` and `Restore` |
| `targetruns.dfy` | all runs of one target: record, decide, commit or fail to, crash and read back |
| `outbox.dfy` | all runs of the delivery queue: insert, read, send, fail, delete, crash |
| `pipeline.dfy` | all runs of many targets, one queue and many dispatchers; end-to-end results |
| `dispatcher.dfy` | class `Dispatcher`, and the interleavings of its wake channel |
| `scheduler.dfy` | the retry loop, the bounded pool with its barrier and ticker, the health threshold |
| `template.dfy`, `tree.dfy`, `body.dfy` | tokens and the two interpolation phases, walks and overlays of structured bodies, the startup check of a body |
| `probe.dfy` | which certificates may drive a diagnosis, and how time left becomes a severity |
| `smtp.dfy` | the bounded reader, the multiline reply format, the STARTTLS dialog |

How the pieces fit. The classes are proved against specification functions (`Judge`, `Decide`,
`Owed`, `Written`, `Resumed`, `RowsOn`, `Chain`, `Pieces`, `Merge`, `ReadReply`). The run-level
state machines take their steps with the same functions, so what is proved of every run is about
what the methods do. `Pipeline` runs all targets and all dispatchers over one database; every
pipeline run projects to a run of each target (`ProjectsToTarget`) and to a run of the queue
(`ProjectsToQueue`), which is how the per-target and per-channel results become results about
the whole. The main end-to-end statement is `Pipeline.DrainedReceiverIsRight`: whenever a
channel's queue is empty, whatever crashed, failed or was sent twice before, its receiver
believes exactly the channel's view of the durable confirmed state, if every write that went
through caught the channel up. Only a write made while the target's row is behind its memory can
fail to do that (`TargetRuns.OnlyLateWritesMiss`, `Pipeline.FailStopCatchesUp`). And every queue
can be emptied, from every point of every run (`Pipeline.QueueCanDrain`).

Where prose and code differ, the model follows the code, and says when the prose holds:

- README.md:194-196 says a fact status always alerts on first sight. It does exactly when the
  debounce is off or the confirmed status is itself reliable (`Debounce.FactAdoptedAtOnce`).
- internal/alert/manager.go:430-433 says a failed enqueue is retried by the next cycle. Memory was
  updated before, so it is retried exactly when the channel's floor is met and a full cadence has
  passed (`TargetRuns.FailedEnqueueIsRetriedByReminderOnly`), and a channel can miss a recovery
  (`TargetRuns.PagerMissesTheRecovery`). `TargetRuns.StreamsTrackTheRow` says on which runs none
  does.
- internal/alert/manager.go:92-95 says an unknown floor carries nothing. It carries everything
  (`Decision.FloorCarriesEverything`).
- cmd/certel/monitor.go:106-109 counts one pause less than internal/probe/probe.go:39-43 makes.
  The health threshold therefore dominates every legal cycle exactly up to 29 waves
  (`Scheduler.HealthyIffAtMost29Waves`), as far as a Duration can hold it; past that its int64
  arithmetic wraps, and health can fail from the start (`Scheduler.OverflowFailsAtOnce`).
- internal/store/store.go:63 declares ids without AUTOINCREMENT, so ids are reused
  (`Outbox.IdsAreReused`); it does no harm (`Outbox.HeldIdNamesTheSameRow`).
- internal/alert/template.go:207-211 speaks of escapes in general; only the namespaces `env` and
  `alert` are decoded, so an escaped text comes back exactly under the condition in
  `Bodies.EscapeRoundTrip`.
- docs/content/adr/adr-0012-verify-chain-before-diagnosing-expiry.md:27-29 says insecure targets
  look at the leaf only; the code uses the leaf chain (`Probe.Evaluate`). And internal/probe/probe.go:114-117
  keeps extraneous certificates out of the diagnosis, but the weak-signature search at :149 does
  not: `Probe.StragglersChangeOnlyTheWeakDiagnosis` gives the one case in which they change it.

Assumptions the run-level results rest on: a validated configuration that does not change, bodies
accepted at startup (which discharges the machines' premise that bodies render,
`Pipeline.AcceptedBodiesAreTotal`), and a wall clock past the first second of 1970. Everything else
is free: crashes, times and interleavings, the cutoffs of pruning, steps of the probe-log clock, and
the success of every send, read and write. What a result needs beyond that is in its statement:

- that everything ever seen decides, not just what the counter was rebuilt from, needs restarts that
  read the newest part of what was seen (`TargetRuns.ReadsNewest`). That holds for a target whose probes
  are logged under a clock that does not step back, whatever is pruned (`Pipeline.DebounceEndToEnd`);
  if pruning leaves the n newest rows, a restart that can read them also gets the candidate right
  (`Pipeline.RestartEndToEnd`). `Tables.ClockStepHidesTheLastRow` shows why the clock matters.
- that memory agrees with the row needs that no decision's write has failed since the last one that
  went through, or the restart (`behind` is false).

## Model

| member | source | states |
|---|---|---|
| Debounce.JudgeMeetsHistory | internal/alert/manager.go:307-331 | One cycle of the counter, from any state and any log it stands for, adopts exactly when the history definition does, and then stands for the longer log |
| Debounce.CounterMeetsHistory | internal/alert/manager.go:307-331 | On every history and streak the incremental counter yields the confirmed state that the history alone defines |
| Debounce.ContestedChangeIsBacked | internal/alert/manager.go:300-306 | A confirmed change that touches a network-shaped status stands on n identical consecutive cycles |
| Debounce.BackedIsConfirmed | internal/alert/manager.go:300-306 | n identical cycles always confirm |
| Debounce.FactAdoptedAtOnce | internal/alert/manager.go:312-331 | A fact status is adopted on first sight if and only if the debounce is off or the confirmed status is reliable |
| Debounce.NetworkChangesWait | internal/alert/manager.go:88-90 | A first sight waits under a streak above 1 if and only if the change starts or ends at unreachable or tls_unavailable |
| Debounce.ExpiryAfterOutageIsHeld | internal/alert/manager.go:312-323 | Under the default streak an expiry seen right after a confirmed outage is held back |
| Debounce.ReconstructPending | internal/alert/manager.go:237-258 | The rebuilt candidate is found exactly for a contested newest observation, and counts the trailing run capped at n - 1 |
| Debounce.PendingFromSuffix | internal/alert/manager.go:230-236 | A log pruned to its newest n - 1 entries rebuilds the same candidate as the whole log |
| Decision.ClampIsRealOrHealthy | internal/alert/manager.go:108-118 | Under a validated floor a channel sees the real pair, and then a problem, or the healthy pair |
| Decision.FloorsByName | internal/alert/manager.go:96-118 | A warning floor lets warning, critical and emergency through, a critical one the last two, an emergency one the last |
| Decision.FloorCarriesEverything | internal/alert/manager.go:92-107 | A floor lets every observation through if and only if it is not an alerting severity |
| Decision.FanOutIsPerChannel | internal/alert/manager.go:365-412 | Each attached notifier gets what its own switch decides, once, whatever the others do; nobody else gets anything |
| Decision.ChannelFires | internal/alert/manager.go:375-399 | By its own settings, a channel is told of a problem exactly when its floor names the severity and the problem changed or is due, and of a recovery exactly when its view turned healthy and it has not opted out |
| Decision.DecideMeetsHistory | internal/alert/manager.go:298-331 | A decision holds exactly when a streak is set and the history definition under that n does not trust the observation; otherwise it adopts, and with no streak set it always does |
| Decision.DeliveryCarriesTheRender | internal/alert/manager.go:401-412 | A channel owed a notice gets one delivery, with its view and what the renderer made of that notice, and none if rendering failed |
| Decision.UnsetNotifierHearsEverything | internal/alert/manager.go:121-130 | A notifier that sets neither a floor nor send_recovery is told of every problem and every recovery |
| Decision.UnknownSeverityRepeatsAtOnce | internal/config/config.go:179-186 | A severity without a cadence reminds on every cycle |
| Decision.SharedRowSimulatesChannels | internal/alert/manager.go:338-412 | After every run one shared row decides the same notices as a design that stores a last-seen view per channel |
| Tables.StateRoundTrip | internal/store/store.go:203-217 | The row has whole unix seconds, 0 for "never"; read back it is the record written, its time cut down by less than a second, never to or from "never" |
| Tables.NewestIsSuffix | internal/store/store.go:171-190 | Under a clock that does not step back the ordered, limited query returns the last rows, newest first |
| Tables.ClockStepHidesTheLastRow | internal/store/store.go:172-174 | After a clock step it does not: the newest row by time is not the row written last |
| Tables.EnqueuePairsLogAndQueue | internal/store/store.go:285-298 | Each delivery becomes one log row and one queue row, in order, with the same channel and time, the view in one and the body in the other |
| Tables.PruneTakesTheOld | internal/store/store.go:457-481 | Pruning takes exactly the log rows older than the cutoffs and never touches state or queue |
| Tables.LoggedUntilPruned | internal/store/store.go:250-264 | A logged probe has its target, outcome and newest id, touches nothing else, and stays until a cutoff passes the second it was made in |
| Stores.Store.LoadAlertStates | internal/store/store.go:142-164 | One decoded record per row, 0 read as the zero time; a failed read exactly when its statement fails |
| Stores.Store.RecentProbeStatuses | internal/store/store.go:171-190 | The target's newest observations, newest first, up to the limit; a failed read exactly when its statement fails |
| Stores.Store.SaveAlertState | internal/store/store.go:193-217 | The row is replaced; exactly when its statement fails nothing changes and one failed write is counted |
| Stores.Store.RecordProbe | internal/store/store.go:250-264 | One row is appended; exactly when its statement fails nothing changes and one failed write is counted |
| Stores.Store.Enqueue | internal/store/store.go:273-300 | State row, log rows and queue rows all commit exactly when begin, every insert and the commit go well; otherwise every table is as it was and one failed write is counted |
| Stores.Store.PendingKeys | internal/store/store.go:319-335 | Exactly the targets with a row queued on this notifier, each once, or a failed read |
| Stores.Store.NextPending | internal/store/store.go:339-352 | The channel's row with the smallest id, none exactly when its queue is empty, or a failed read |
| Stores.Store.DeleteOutbox | internal/store/store.go:407-410 | The rows with that id go; exactly when its statement fails nothing changes and one failed write is counted |
| Stores.Store.FailOutbox | internal/store/store.go:414-419 | The row stays queued with one more attempt and the error, unless its statement fails |
| Stores.Store.DropOrphanedOutbox | internal/store/store.go:376-404 | Reported is how many rows each removed notifier had; queues of configured notifiers are untouched even when a delete fails, which is counted; a full pass leaves exactly their rows; after a failed read nothing changes |
| Stores.OrphansHaveRows | internal/store/store.go:376-394 | Reported are exactly the notifiers outside the configuration with something queued |
| Stores.CountedAreDropped | internal/store/store.go:376-394 | The count reported for a notifier is the number of rows its delete takes |
| Stores.KeptByNotifier | internal/store/store.go:396-404 | After a full pass exactly the rows of configured notifiers are left |
| Stores.Store.PruneLogs | internal/store/store.go:463-481 | Both logs lose what is older than their cutoff, and the rows taken are counted; the delete that fails leaves exactly those before it done |
| Managers.TargetState.Confirm | internal/alert/manager.go:307-331 | The in-place counter takes the step of the specification and touches nothing else |
| Managers.TargetState.Observe | internal/alert/manager.go:298-352 | Debounce, decision and update in place leave the decided state |
| Managers.Manager.Switch | internal/alert/manager.go:374-399 | The transition switch is the channel's notice: under a valid floor, a problem exactly when the floor names its severity and it changed or is due, a recovery exactly when the view turned healthy and the channel did not opt out |
| Managers.Manager.Collect | internal/alert/manager.go:365-412 | The loop over the notifiers collects the fan-out, and the names to wake are those of its deliveries, one by one |
| Managers.Manager.Publish | internal/alert/manager.go:355-441 | What a decision owes is written and announced in full exactly when none of the statements it takes fails; otherwise one failed write is counted and neither tables nor hook see anything |
| Managers.Manager.Process | internal/alert/manager.go:277-442 | One result moves its target's memory to the decided state and no other target's, writes and announces what is owed, and does nothing for a target without notifiers |
| Managers.Manager.Rebuild | internal/alert/manager.go:206-227 | A target's memory becomes its loaded state resumed from its probe log; exactly when its own read fails nothing changes |
| Managers.Manager.Restore | internal/alert/manager.go:193-228 | Unread are exactly the targets with a streak above 1 whose own read of the log fails; every other configured target is rebuilt from its row and its log, and the unread, the unknown and those of a manager without a store keep what their row says |
| TargetRuns.DebounceAcrossCrashes | internal/alert/manager.go:193-331 | On every run a decision adopts the observation just made exactly when the observations the counter stands for, read back or made since, back it against the confirmed state; where restarts read the newest part of what was seen, exactly when everything ever seen does and, for a contested change, n cycles are counted |
| TargetRuns.RestartsRefineOneRun | internal/alert/manager.go:193-258 | A run follows the uninterrupted counter at every point if and only if none of its crashes undid a change of the confirmed state and none of its restarts read another candidate than the observations stand for |
| TargetRuns.OnHistoryIsTheCounter | internal/alert/manager.go:193-258 | Between two cycles, to follow it is to have its confirmed state and its candidate on the same observations, and the row has that state unless it is behind |
| TargetRuns.RestartIsInvisible | internal/alert/manager.go:193-258 | A restart between two cycles goes back to the row and the candidate it reads; unless the row is behind that keeps the confirmed state and the reminder clock up to its sub-second part, whatever it reads, and after a read of the n newest the candidate |
| TargetRuns.CycleGoesThrough | cmd/certel/monitor.go:232-237 | Between two cycles any observation can be made, decided and committed, whatever comes of the write |
| TargetRuns.LostDecisionIsRemade | cmd/certel/monitor.go:232-237 | A decision that a crash undid, before or after it was made in memory, is made again by the next matching cycle, with the same notice for each channel owed one, if the row was not behind and the restart read the n newest; one that held is rebuilt |
| TargetRuns.CrashForgetsTheChoice | internal/alert/manager.go:344-353 | Until the write commits a crash leaves nothing of a decision, made or not |
| TargetRuns.MatchingCyclesConfirmAgain | internal/alert/manager.go:219-223 | Whatever the restarts read, n matching cycles that are counted confirm |
| TargetRuns.UnreadLogDelaysAnOutage | internal/alert/manager.go:219-223 | An outage that everything seen backs, and that the counter left by an unread log does not adopt |
| TargetRuns.StreamsTrackTheRow | internal/alert/manager.go:357-436 | On every run a channel's queued notices are up to date with the durable row at every point, each recovery closing the problem right before it, if and only if every write that went through caught the channel up |
| TargetRuns.OnlyLateWritesMiss | internal/alert/manager.go:428-436 | A write catches up every channel that was up to date, unless the row was behind when it was made |
| TargetRuns.ReminderClock | internal/alert/manager.go:338-350 | On every run a reminder comes a full cadence after the last firing that memory, or after a restart the row, has (less under a second across a restart), each unheld cycle past the cadence fires, and "never" never reminds |
| TargetRuns.ZeroClockWouldRemind | internal/config/config.go:97-104 | From a zero clock the saturating difference reaches the "never" sentinel and would remind at once |
| TargetRuns.FailedEnqueueIsRetriedByReminderOnly | internal/alert/manager.go:428-436 | After a failed write without restart, the next identical cycle owes the channel a notice if and only if its floor is met and a cadence has passed |
| TargetRuns.LostNoticeStaysLost | internal/alert/manager.go:428-436 | A lost first notice that the next cycle does not queue again |
| TargetRuns.StreamAfterFailedWrites | internal/alert/manager.go:344-436 | When a write goes through, whatever failed before, a channel that was up to date is so again if and only if its problem differs from the one in memory, is due or was told last, or, without one, memory and channel agree |
| TargetRuns.PagerMissesTheRecovery | internal/alert/manager.go:344-436 | Emergency, a lost write of critical, then warning: a pager with an emergency floor is not told of the recovery |
| Outbox.NothingLostOrReordered | internal/alert/dispatcher.go:121-153 | On every run, per channel, enqueued is deleted then queued, and the bodies the receiver took, without adjacent repeats, are the first enqueued ones in order, through every deleted row and at most the head |
| Outbox.HeldIdNamesTheSameRow | internal/store/store.go:339-352 | On every run live ids are unique and ascend, and the id a drain holds names the row it read, still the oldest of its channel |
| Outbox.HeadGoes | internal/alert/dispatcher.go:121-153 | A free hand can always take the head of its queue, have it accepted and delete it |
| Outbox.IdsAreReused | internal/store/store.go:62-63 | The id of a deleted last row is given out again |
| Tables.MaxIdIsTheLargest | internal/store/store.go:62-63 | A new id is one above the largest live id, 1 for an empty queue |
| Outbox.StepKeepsInv | internal/alert/dispatcher.go:121-153 | Every insert, read, send, failed send, lost answer, delete, failed delete and crash keeps every channel's order and conservation invariant |
| Dispatchers.Dispatcher.SendHead | internal/alert/dispatcher.go:126-150 | One turn sends the head and removes it, or ends the drain on a failed read, an empty queue, a refused send, which is marked on the head, or a failed delete, whichever its environment brings first; other channels are untouched |
| Dispatchers.Dispatcher.DrainTarget | internal/alert/dispatcher.go:121-153 | The drain goes on until the first turn that its environment ends: an empty queue, its own failed send, delete or read, or a cancelled context; the bodies before it were accepted in order and are gone, but for the last one when its delete failed |
| Dispatchers.DrainIsDetermined | internal/alert/dispatcher.go:121-153 | Which reads, sends and deletes fail and when the context is cancelled determine how far a drain gets and why it ends |
| Dispatchers.Dispatcher.DispatchOnce | internal/alert/dispatcher.go:93-116 | After a successful scan every target with a queue is drained once and ends for a reason of its own, whatever happened to the others, unless a look at the context between two targets found it cancelled; what was accepted, refused and failed is the sum of the drains |
| Dispatchers.FailedIdChangesOne | internal/store/store.go:412-419 | Marking a live row failed counts one more attempt on it, records the error and changes no other row |
| Dispatchers.FailedSendIsCounted | internal/alert/dispatcher.go:136-144 | In the interleavings too a failed send leaves its row at the head of the channel, with one more attempt and the error if the mark went through |
| Wakeups.NoLostWakeup | internal/alert/dispatcher.go:66-90 | In every interleaving an announced commit that no scan has seen has a scan or a token coming, except exactly if it was announced before a failed scan and neither the timer nor another Wake has come since |
| Wakeups.FailedScanLosesTheToken | internal/alert/dispatcher.go:84-98 | A failed scan uses up the token: its commit waits for the timer and the scan after it |
| Pipeline.ProjectsToTarget | cmd/certel/monitor.go:232-237 | Every run of the whole pipeline is a run of each target alone; if the target's probes are logged in order, its restarts read the newest part of what was seen |
| Pipeline.ProjectsToQueue | internal/store/store.go:273-300 | Every run of the whole pipeline is a run of its queue alone |
| Pipeline.RunKeepsLink | internal/store/store.go:285-298 | On every run the queue received exactly the notices each target committed, in order |
| Pipeline.PipelineIsFaithful | internal/alert/dispatcher.go:118-153 | On every run, per attached channel, nothing queued is lost, reordered or repeated out of turn, and what was queued is up to date with the database if every write that went through caught the channel up |
| Pipeline.FailStopCatchesUp | internal/alert/manager.go:428-436 | That is so for every channel of a target each of whose failed writes is followed by a restart before the next write |
| Pipeline.DrainedReceiverIsRight | internal/store/store.go:266-300 | On every run, once the queue of a channel that was always caught up is empty, its receiver believes exactly the channel's view of the durable confirmed state |
| Pipeline.QueueCanDrain | internal/alert/dispatcher.go:118-153 | From every point of every run deliveries alone can empty a channel's queue |
| Pipeline.ReceiverCanBeRight | internal/alert/dispatcher.go:118-153 | So the receiver behind a channel that was always caught up can always be brought to believe its view of the durable confirmed state |
| Pipeline.DebounceEndToEnd | internal/alert/manager.go:193-331 | A target whose probes are logged under a clock that does not step back adopts an observation exactly when everything ever seen backs it and, for a contested change, n cycles are counted, whatever pruning takes off |
| Pipeline.RestartEndToEnd | cmd/certel/monitor.go:232-237 | If pruning leaves such a target the n newest rows, a restart that can read them gets its candidate right, and the next matching cycle makes an undone decision again unless the row was behind |
| Pipeline.AcceptedBodiesAreTotal | internal/alert/manager.go:401-412 | With bodies accepted at startup the branch for a failed render is never taken |
| Scheduler.Check | internal/probe/probe.go:29-48 | Only unreachable is retried, the last attempt's outcome is returned, and the slot is held for what the attempts took and a second after each unreachable one, at most attempts times (timeout + 1s), a bound that is reached |
| Scheduler.LivenessThreshold | cmd/certel/monitor.go:95-119 | The loop and its wrapping int64 arithmetic compute the formula over the true maxima of attempts and timeout, exactly if a Duration can hold it and wrapped around otherwise |
| Scheduler.ThresholdIsShort | cmd/certel/monitor.go:106-119 | The formula is interval, jitter, waves of the slowest hold and slack, less one second a wave |
| Scheduler.WavesAreEnough | cmd/certel/monitor.go:111-114 | The waves are the least number that has a slot for every target |
| Scheduler.MaximaAreTaken | cmd/certel/monitor.go:96-105 | Each maximum is one that some target has |
| Scheduler.AgeIsCoarse | internal/scheduler/scheduler.go:102-116 | The age of a cycle counts from the whole second it completed in |
| Scheduler.WaveStarts | internal/scheduler/scheduler.go:62-100 | Once the k-th deadline has passed, k + 1 full waves, or all probes, had started by it |
| Scheduler.CycleBound | internal/scheduler/scheduler.go:62-108 | On every run a cycle lasts at most jitter + ceil(n/c) of the slowest hold, has at most c probes in flight, and handles each target exactly once |
| Scheduler.NoOverlapPerKey | internal/scheduler/scheduler.go:48-103 | Two results in flight never belong to one target key, and nothing is in flight when a cycle ends or begins |
| Scheduler.HealthyUpTo29Waves | cmd/certel/monitor.go:245-260 | With at most 29 waves and a threshold that a Duration can hold the health check never fails on any legal run |
| Scheduler.OverflowFailsAtOnce | cmd/certel/monitor.go:108-118 | At the start the check passes if and only if the wrapped threshold is positive, which it never is in the first half of the wrapped range |
| Scheduler.ManyRetriesOverflow | cmd/certel/monitor.go:108-118 | One target with a billion retries of ten seconds is validated, has one wave, and fails the check from the start |
| Scheduler.DeafIsUnhealthy | cmd/certel/monitor.go:92-119 | For every w of 30 or more a validated configuration of w waves has a legal run that fails the health check |
| Scheduler.HealthyIffAtMost29Waves | cmd/certel/monitor.go:95-119 | All validated configurations of w waves whose threshold a Duration can hold stay healthy on all runs if and only if w is at most 29 |
| Template.PrintTokenize | internal/alert/template.go:22-25 | Cutting a template at its tokens loses nothing |
| Template.TokenizePrint | internal/alert/template.go:22-25 | Segments that no literal runs into are cut again where they were |
| Template.ReferenceReads | internal/alert/template.go:339-357 | A reference as authors write it reads back as its namespace, path and format |
| Template.BlanksAreNoMatter | internal/alert/template.go:352-357 | White space around the path and around the format is no part of them, and a reference without a bar has no format |
| Template.TrimTakesSpaces | internal/alert/template.go:341-357 | Trimming takes the white space off both ends, all of it and nothing else |
| Template.SpacesByCode | internal/alert/template.go:341-357 | White space is the 25 code points that Unicode gives that property |
| Template.Substitute | internal/alert/template.go:212-235 | The scan yields each segment's piece in order, or fails when a reference does |
| Template.PassIsCompositional | internal/alert/template.go:207-235 | A prefix is substituted the same whatever follows and whatever its references resolved to |
| Template.ValueIsVerbatim | internal/alert/template.go:207-211 | A resolved value comes out as it is, even when it looks like a reference |
| Template.OtherTokensWait | internal/alert/template.go:212-235 | A token of another namespace, escaped or not, is left as it stands |
| Template.EnvironmentValue | internal/config/config.go:461-486 | A variable comes out as it is set, and one that is not set fails the text |
| Template.ExpandEnvIsPass | internal/config/config.go:461-486 | The environment phase is the same pass over namespace env |
| Template.ExpandsKeepsBoundaries | internal/alert/template.go:212-222 | Adding or taking escapes and changing what stands between the braces moves no token boundary |
| Trees.RenderValue | internal/alert/template.go:165-192 | The walk renders every string leaf and keeps everything else, or fails exactly when a leaf does |
| Trees.RenderedAt | internal/alert/template.go:165-192 | Along every path a rendered structure has what a string leaf became, the same keys and lengths, and everything else as it was |
| Trees.Validate | internal/alert/template.go:272-290 | The walk accepts exactly when every string leaf is accepted |
| Trees.LeavesByPath | internal/alert/template.go:272-290 | The leaves that the walk checks are exactly the strings that some path leads to |
| Trees.DeepMerge | internal/alert/template.go:362-377 | Filling a fresh map in two loops yields the overlay |
| Trees.MergedAt | internal/alert/template.go:362-377 | Along every path: where the overlay has something other than a map it alone decides, where it has a map there is a map, where it has nothing stands what the base has |
| Trees.MergeIdempotent | internal/alert/template.go:359-377 | The same overlay twice is the overlay once |
| Trees.MergeKeepsLeaves | internal/alert/template.go:128-134 | What holds of all leaves on both sides holds of the merged body, so it needs no second reference check |
| Trees.RenderingCommutesWithMerge | internal/alert/template.go:165-192 | When both sides render, rendering the overlay is overlaying the renderings |
| Trees.EncodingIsInTheBody | internal/alert/template.go:151-161 | Whether a rendered body encodes depends on the body alone |
| Trees.MarshalsByPath | internal/alert/template.go:151-161 | A value without a JSON form, wherever it stands, fails the encoding |
| Trees.UnmarshalledAt | internal/alert/template.go:151-161 | Nothing else does |
| Bodies.RenderLeaf | internal/alert/template.go:197-205 | A string that is one whole reference is resolved natively, any other is interpolated |
| Bodies.WholeRefKeepsType | internal/alert/template.go:197-200 | One unescaped alert token alone becomes its field in the field's own JSON type: number, bool, text, list or null, a time as text under the format it names |
| Bodies.OtherStringsAreText | internal/alert/template.go:201-205 | Every other string becomes the text of its pieces |
| Bodies.InterpolatedField | internal/alert/template.go:236-252 | A reference inside such a string becomes the text, a numeral that reads back as the count, true or false, the joined names, or the time under its format; a format on any other field fails |
| Bodies.JoinedConcat | internal/alert/template.go:391-392 | Names are joined in order with a comma and a space between each two |
| Bodies.WholeRefIsOneToken | internal/alert/template.go:324-337 | The whole-scalar rule applies exactly to a string cut into one single token, unescaped and in namespace alert |
| Bodies.DigitsReadBack | internal/alert/template.go:389-390 | A printed count reads back as the same number |
| Bodies.CheckStringRefs | internal/alert/template.go:292-322 | Accepts exactly the strings whose unescaped tokens are env or valid alert references |
| Bodies.ReferenceCheckIsExact | internal/alert/template.go:292-322 | An unescaped token passes the check if and only if it is env's, resolves on a representative payload, or only an unknown time format keeps it from that |
| Bodies.BadReferencesAreFound | internal/alert/template.go:121-146 | Startup turns a body away for its references if and only if some string of it or of its overlay, wherever it stands, has a token that is neither escaped nor valid |
| Bodies.PayloadIsComplete | internal/alert/template.go:73-106 | Every payload has exactly the allowlisted fields, and exactly the marked ones are times |
| Bodies.PayloadHas | internal/alert/template.go:73-106 | A payload has the fields below under their names |
| Bodies.AddressFields | internal/alert/template.go:83-86 | Host, address, port and protocol of the report |
| Bodies.DiagnosisFields | internal/alert/template.go:87-91 | Status, severity, message, recovery flag and days left of the report |
| Bodies.SubjectFields | internal/alert/template.go:93-100 | Subject, its common name, serial and alternative names of the report's certificate |
| Bodies.IssuerFields | internal/alert/template.go:95-98 | Issuer, its common name and organisation, and signature algorithm of the report's certificate |
| Bodies.InstantFields | internal/alert/template.go:92-103 | Time of the check, and the three times of the certificate |
| Bodies.WordsOfTheLadder | internal/probe/result.go:12-48 | Each status and severity has its own word |
| Bodies.MissingCertRendersEmpty | internal/alert/template.go:69-81 | Without a certificate its fields render empty instead of failing, times under any format |
| Bodies.AcceptedBodyRenders | internal/alert/template.go:116-146 | A body accepted against a representative payload renders and encodes on every payload, firing or recovered |
| Bodies.ConstantBodyIsAccepted | internal/alert/template.go:121-146 | A body without references passes the startup check, whatever the sample |
| Bodies.SampleIsRepresentative | internal/alert/template.go:461-484 | The sample has every field, each time set |
| Bodies.SampleRenderIsExact | internal/alert/template.go:121-146 | Among bodies with valid references, startup accepts one if and only if it renders for every report |
| Bodies.RecoveryRendersAsOverlay | internal/alert/template.go:148-161 | Rendering the merged recovery body is merging the two rendered bodies |
| Bodies.RenderedWhere | internal/alert/template.go:121-161 | A recovery shows the overlay's string rendered where the overlay has one and the body's where the overlay has nothing; a problem shows the body's |
| Bodies.NoNoticeFailsToRender | internal/alert/manager.go:401-412 | An accepted body renders for every channel's view of every report |
| Bodies.BodyShowsOnlyTheView | internal/alert/manager.go:401-403 | A channel's body shows its clamped view and nothing of the report's own status and severity |
| Bodies.NoticeKeepsTheReport | internal/alert/manager.go:401-403 | Every other field is that of the report |
| Bodies.RendererShowsTheNotice | internal/alert/manager.go:401-412 | What the manager queues for a channel has, where its body has a string, that string rendered on the channel's view of the report |
| Bodies.EscapeRoundTrip | internal/config/config.go:461-486 | Any text with a "$" before each of its tokens passes both phases and the reference check whatever the environment and fields, and comes back if and only if its tokens are trimmed and in env or alert |
| Probe.LeafChain | internal/probe/probe.go:268-291 | The walk with its used array yields the specified chain, and ends |
| Probe.LeafChainIsThePath | internal/probe/probe.go:262-291 | The chain starts at the leaf, visits distinct positions, each certificate issued by the next, and ends only at a self-signed one or where no unused presented certificate continues it |
| Probe.StragglersAppended | internal/probe/probe.go:262-267 | Appended certificates leave the chain unchanged if and only if none of them issued its last certificate |
| Probe.StragglerInserted | internal/probe/probe.go:262-267 | A certificate that issues nothing on the chain leaves it unchanged wherever it is put behind the leaf |
| Probe.EarliestNotAfter | internal/probe/probe.go:249-260 | The least expiry of the chain, zero for an empty one |
| Probe.EarliestIsTheMinimum | internal/probe/probe.go:247-260 | It is the one instant that some certificate has and none undercuts |
| Probe.EarliestOf | internal/probe/probe.go:371-379 | The reported earliest expiry and a certificate in scope that has it |
| Probe.EarliestExpired | internal/probe/probe.go:293-300 | The first expired certificate of the chain, none exactly when all are live |
| Probe.WeakSignatureCert | internal/probe/probe.go:306-318 | Finds a weak certificate that is not self-signed exactly when there is one |
| Probe.BestChain | internal/probe/probe.go:237-244 | The first of the chains whose earliest expiry is latest |
| Probe.DaysAreWhole | internal/probe/probe.go:196-204 | On a live certificate, fewer than n truncated days left means the time left is short of n times 24 hours |
| Probe.DaysTruncateTowardZero | internal/probe/probe.go:196-204 | Days truncate toward zero on both sides of the expiry, and are 0 for an expiry never seen |
| Probe.Evaluate | internal/probe/probe.go:102-194 | Status and severity by the certificates themselves: expired exactly when one in scope is, else weak or invalid exactly when trust failed, else critical, warning or ok exactly by whether all in scope have the critical and the warning days left; expiry and days reported are the scope's, and an expired certificate blamed is one in scope |
| Probe.DiagnosisIsExplained | internal/probe/probe.go:102-194 | The same of the diagnosis by the time left on the scope |
| Probe.SeverityNeverDrops | internal/probe/probe.go:137-192 | On a fixed scope and trust outcome severity only rises with the clock |
| Probe.VerifiedIsNeverExpired | internal/probe/probe.go:131-143 | A target whose chain verifies is never expired, and other presented certificates have no say |
| Probe.StragglersChangeOnlyTheWeakDiagnosis | internal/probe/probe.go:145-162 | Appended certificates that issue nothing on the chain change the diagnosis if and only if trust failed on a live chain and they bring the first weak signature |
| Probe.StragglerLowersTheSeverity | internal/probe/probe.go:145-162 | An untrusted leaf is an emergency, and an appended weak certificate that issued nothing makes it critical |
| Probe.SelfSignedStragglersAreHarmless | internal/probe/probe.go:302-318 | A self-signed certificate off the chain never changes the diagnosis, weak or not |
| Smtp.Reader.ReadResponse | internal/probe/starttls.go:78-97 | The loop reads one reply and stops within 100 lines and the byte budget on every stream |
| Smtp.LinesRead | internal/probe/starttls.go:47-97 | A reply is read, exactly to its end, if and only if it has at most 100 lines and fits the budget |
| Smtp.ReplyRoundTrip | internal/probe/starttls.go:76-97 | A printed reply of RFC 5321, section 4.2.1, reads back as its code and joined lines |
| Smtp.RepliesRoundTrip | internal/probe/starttls.go:76-97 | So does any sequence of replies within the bounds, whatever follows it |
| Smtp.JoinConcat | internal/probe/starttls.go:94 | The lines of a reply are joined in order with a newline between each two |
| Smtp.CutOffReplies | internal/probe/starttls.go:47-97 | A reply that stops within a line is broken by the budget or by the close, one shorter than a code is malformed |
| Smtp.Reader.StartTLS | internal/probe/starttls.go:99-133 | The dialog classifies the stream as specified and reads no more than its budget |
| Smtp.OfferInAnyCase | internal/probe/starttls.go:121-123 | STARTTLS is recognised anywhere in the EHLO reply in any spelling that upper case maps to it, the long s included |
| Smtp.OfferIsSpelled | internal/probe/starttls.go:121-123 | And nothing else is taken for an offer |
| Smtp.DialogIsExact | internal/probe/starttls.go:99-133 | A server speaking well-formed replies is ready exactly on 220, 250 with STARTTLS offered, 220; unsupported exactly when only the last two fail that way; failed otherwise |
| Smtp.UnreadableReplyFails | internal/probe/starttls.go:99-133 | A dialog that comes to a reply it cannot read has failed, whichever of the three it is, unless STARTTLS was not offered before |

## Left out

- Scheduler.HealthyIffAtMost29Waves: is stated as long as a Duration can hold the threshold of w one-second targets, some three billion waves; that w of 30 or more fails is stated for every w (`Scheduler.DeafIsUnhealthy`).
- Stores.Store.PendingKeys: promises the set of targets, not their order; which target is drained first is irrelevant to every channel's order.
- Stores.Store.DropOrphanedOutbox: reports a map; the source lists the same counts sorted by name.
- Dispatchers.Dispatcher.DispatchOnce: drains its targets one after the other; the parallel drains and concurrent enqueues are interleaved steps in `Outbox`, `Pipeline` and `Wakeups`. The limit on parallel drains is not modelled.
- Managers.Manager.Process: runs without interference; concurrent calls for different targets are interleaved steps in `Pipeline`, and calls for one target never overlap (`Scheduler.NoOverlapPerKey`).
- Scheduler.CycleBound: treats the time spent in the result handler, in certificate verification and in scheduling itself as zero, as the bound in the source does.
- Probe.DaysAreWhole: counts whole nanoseconds; the source goes through a floating-point number of hours, which may round within a nanosecond of a day boundary.
- Probe.Evaluate: takes the outcome of x509 verification as given (a chain that starts at the leaf, a hostname mismatch, or another failure) and leaves message texts out.
- Smtp.Reader.StartTLS: leaves out the client's writes and their errors; `Failed` covers every outcome that is reported as unreachable.
- Configuration changes between runs: dropping orphaned queues and stale state rows at startup is proved about the call only, or (stale state rows) left out.
- Cancellation at shutdown: a run simply stops, which is a crash without a restart.
- Error values and their texts; only which case occurs is modelled. All reference errors of `ParseBody` are one case.
- JSON bytes, Go time layouts and the strftime translation: rendered structures stay trees, and an instant under a known format prints through a parameter.
- Integer widths of ids, counters and day counts. Differences of instants saturate and the health threshold wraps, as in Go; the other sums of times are unbounded.
- Other STARTTLS dialogs (IMAP, POP3, FTP, PostgreSQL): single-branch reads over the same reader.
- Sockets, TLS, x509 verification, DNS, SQL, YAML, `Config.Validate` beyond the guarantees used as premises, HTTP delivery, metrics, logging and the command line.
