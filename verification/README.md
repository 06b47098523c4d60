# Wrenn: a verified model of its protocols and codecs

Wrenn runs sandboxes ("capsules") on a fleet of hosts. A control plane keeps what it believes about them in two tables,
`sandboxes` and `volumes`; several writers that do not coordinate keep those tables in step with the hosts. This project
models that protocol, the recipe engine that builds templates, and the smaller kernels around them, and proves what they
keep over every run and every input.

| file | models |
|---|---|
| `Volumes.dfy` | every volume statement as a guarded transition; exclusive claims, host pins, the reaper's timing |
| `Reconcile.dfy` | the reconciliation protocol as steps over both tables: the four monitor phases, consumed events, heartbeats, outages, user operations |
| `ReconcileTheorems.dfy` | what every interleaving keeps: descending ranks, exactly-once audit, fusion of the phases of a pass |
| `RecoveryTheorems.dfy` | volumes freed by a pass; outage followed by recovery |
| `StepTheorems.dfy` | what each phase, check, outage, heartbeat and consumed event does to a row, exactly, from the row and the report or event alone |
| `ControlPlane.dfy`, `HostMonitor.dfy`, `EventConsumer.dfy` | the imperative code: a database object updated in place and the loops of the monitor, the consumer and the reaper, each proved equal to the protocol step it implements |
| `Shell.dfy`, `ShellTheorems.dfy` | a lexer for the shell command language (POSIX.1-2017, Shell Command Language, sections 2.2.1 to 2.2.3 and 2.3) and what the generated command text lexes to |
| `Expand.dfy` | variable expansion in ENV values, against the pattern it is defined by |
| `Executor.dfy`, `ExecutorTheorems.dfy`, `ScriptTheorems.dfy`, `RecipeRunner.dfy` | recipe runs as a fold over an arbitrary sandbox, the scripts they send, and the loops that carry them out |
| `Paths.dfy` | lexical path cleaning (`path.Clean` of Go's standard library, by its documented rules) and the place a path names |
| `BuildStream.dfy` | replay of the build log merged with the live tail |
| `LoopRegistry.dfy` | loop-device reference counts over a kernel table |
| `AtomicMax.dfy` | a compare-and-exchange maximum under every interleaving, with stale loads and spurious failures |
| `Pty.dfy` | the terminal input pump: bounded channel, coalescing sender |
| `Base36.dfy` | the identifier codec |
| `Sse.dfy` | event fan-out to bounded subscribers |
| `Proxy.dfy` | the two-hop reverse proxy and its cache |

Environment choices are parameters: what hosts report, what RPCs answer, what sandboxes reply (as a function of everything
they were asked before), which detach attempts find a device busy, when clocks tick, how goroutines interleave. Sets and
maps are walked in any order. Statements of the database are taken to succeed.

## Findings

Where a property one would expect is false of the code, the model keeps the code, a lemma gives the exact condition, and
another shows a failing input.

- A report label other than the four that are coerced reaches the database as it is. The agent assigns `error` after a
  failed pause (pkg/sandbox/pause.go:210); copied into a row it strands the sandbox's volumes, because those branches do
  not detach: `RecoveryTheorems.PassStrandsIff`, `RecoveryTheorems.ErrorLabelStrands`. `stopped` would do the same, and
  `snapshotting` or `pending` would leave a row unsettled: `ReconcileTheorems.LabelPhaseDescendsIff`,
  `ReconcileTheorems.SnapshottingLabelRaises`; those labels are declared (pkg/models/sandbox.go:11-19) but the agent does
  not assign them.
- The monitor's own pause event pauses the sandbox again exactly when it finds the row running or pausing, whatever
  happened in between: `ReconcileTheorems.LatePauseEvent`. A resume that is confirmed first is enough:
  `ReconcileTheorems.ResumedThenPausedAgain`. `ReconcileTheorems.LateOwnEvent` gives the limit for every kind of event
  the monitor publishes; destroy and timeout events also free whatever volumes the sandbox then holds.
- A COPY source is refused by a prefix test on the cleaned path. Beyond rooted paths and paths that climb, which must be
  refused, that turns away exactly those inside the archive whose first name begins with two dots, such as `..data`:
  `ScriptTheorems.RefusedInsideIff`, `ScriptTheorems.DottedNameIsRefused`.
- Environment keys are not quoted, and the recipe parser takes any non-empty key. The preamble lexes as intended exactly
  when no key holds a special character or begins a comment: `ShellTheorems.PreambleCorrectIff`. It also sets every
  variable exactly when every key is a shell name: `ShellTheorems.PreambleAssignsIff`. A key with a backquote makes the
  whole command unreadable: `ShellTheorems.BackquoteKeyBreaksPreamble`.
- Progress is reported only for steps that succeed, so the end of a failing step reaches a live console only by replay:
  `BuildStream.PublishedEndsAreOkSteps`, `BuildStream.FailingStepHasNoLiveEnd`. The documentation of the callback says it
  is called after each step. A console misses the end of the failing step exactly when its snapshot was read before that
  step was logged: `BuildStream.BuildMergeIff`.
- The build row is read before the subscription is made, although the comment on the dedup number speaks of steps that
  finish between the two (internal/api/handlers_build_stream.go:67-69). A step that ends in that gap reaches the console
  neither by replay nor live: `BuildStream.MergeExactIff`, `BuildStream.StepEndingBeforeSubscribeIsLost`.
- The healthcheck takes a number above the post-build steps and runs before them; a console that connects in between
  drops the remaining post-build steps: `BuildStream.HealthcheckMergeIff`, `BuildStream.LateConsoleMissesPostBuild`.
- A loop device is duplicated exactly when the query fails on an attached image: `LoopRegistry.OneEachKeptIff`,
  `LoopRegistry.FailedQueryDuplicates`. Two registries over one kernel can take each other's loops down:
  `LoopRegistry.OtherRegistryKeptIff`, `LoopRegistry.SharedLoopIsTaken`.
- Decoding panics on 25 alphabet characters worth 2^128 or more: `Base36.DecodeOutcomes`, `Base36.PanicsSomewhere`.

## Model

| member | source | states |
|---|---|---|
| Volumes.StatementKeepsRowsOk | pkg/db/volumes.sql.go:14-163 | every volume statement keeps detached and deleting rows free of sandbox and mount path, and attached rows with a sandbox and a host pin |
| Volumes.RunsKeepRowsOk | pkg/db/volumes.sql.go:14-487 | the same over every run of statements |
| Volumes.HeldUntilFreed | pkg/db/volumes.sql.go:14-487 | a claim, for attach or for delete, lasts until a statement that gives it up |
| Volumes.ClaimsAreExclusive | pkg/db/volumes.sql.go:14-487 | between two successful claims of one volume, at least one of them a reservation, the run holds a release, detach, abort, expiry or the row's removal: never two attaches, never attach and delete together |
| Volumes.HeldRowsSurvive | pkg/db/volumes.sql.go:79-111 | a reserved or attached row disappears exactly when its team's volumes are deleted |
| Volumes.FreedIff | pkg/db/volumes.sql.go:14-475 | for every statement, the exact condition on the row under which it ends the claim that stands |
| Volumes.FreedRow | pkg/db/volumes.sql.go:14-475 | however a claim ends, the row is left unattributed and unmounted, pinned where it was unless its host was given up |
| Volumes.DetachedRowOutcome | pkg/db/volumes.sql.go:28-493 | a free row is claimed by exactly its own reservation or its own team's delete, and otherwise only loses its pin or goes with its team |
| Volumes.HeldRowOutcome | pkg/db/volumes.sql.go:291-405 | while a claim stands only its own create or delete writes to the row, and what they write |
| Volumes.InsertedIff | pkg/db/volumes.sql.go:254-266 | a row appears exactly by its insert, free and unpinned |
| Volumes.CreateWindow | pkg/db/volumes.sql.go:291-493 | from a reservation until it is given up or promoted, only status, sandbox and timestamp of the row differ from before |
| Volumes.FailedCreateRestores | pkg/service/sandbox.go:473-519 | over every run, a create that fails and releases its reservation, linked or not, leaves the row as it was before but for its timestamp |
| Volumes.SuccessfulCreateAttaches | pkg/db/volumes.sql.go:385-405 | over every run, a create that promotes its reservation leaves the volume attached to its sandbox at its path, pinned where it was before, if anywhere |
| Volumes.PinChangesOnlyByHostDetach | pkg/db/volumes.sql.go:385-395 | over every run a host pin, once set, changes only through the detach of that host |
| Volumes.ReservationAge | pkg/db/volumes.sql.go:481-487 | an unattributed reservation is exactly as old as the reserve that made it, and since then its create has not settled and nothing gave it up |
| Volumes.ReaperSparesLiveCreates | internal/api/volume_reaper.go:26-28 | no sweep with a thirty-minute cutoff frees a reservation whose own create links, promotes or releases within ten minutes or is not yet that old, whatever became of earlier creates of the volume |
| Volumes.FirstLateSweepFrees | pkg/db/volumes.sql.go:431-439 | an abandoned unattributed row stays as it is until its cutoff and is detached by the first sweep after it |
| Reconcile.FreeVolumesIsStatement | pkg/db/volumes.sql.go:156-163 | freeing the volumes of a set of sandboxes is the detach statement |
| ReconcileTheorems.ExecOne | internal/api/host_monitor.go:187-486 | a reconciler step changes a sandbox's row, audit rows and events by that sandbox's own decision and nothing else's |
| ReconcileTheorems.WritesDescend | internal/api/host_monitor.go:187-486 | with settled labels every status write by a monitor phase or a consumer handler strictly lowers the row's rank |
| ReconcileTheorems.LabelPhaseDescendsIff | internal/api/host_monitor.go:180-184 | the phases that copy labels descend on every row exactly when no listed row has an unsettled label |
| ReconcileTheorems.SnapshottingLabelRaises | internal/api/host_monitor.go:271-282 | a running row reported snapshotting moves up in rank |
| ReconcileTheorems.WritesAreBounded | internal/api/sandbox_event_consumer.go:213-313 | over any interleaving of passes, duplicated and reordered events, user operations and outages, a row is written at most twice per disturbance of that row, the remaining rank accounted for; other rows and hosts do not count |
| ReconcileTheorems.SettledRowsNeverLeft | internal/api/host_monitor.go:187-486 | paused, stopped and error rows are never changed by any run whose user operations leave that row alone, whatever is reported or delivered |
| ReconcileTheorems.PauseRowIffFlip | internal/api/host_monitor.go:226-231 | a step writes a system pause row for a sandbox exactly when it moves it into paused from running, pausing or missing |
| ReconcileTheorems.PauseAuditExactlyOnce | internal/api/sandbox_event_consumer.go:229-261 | over every run, redeliveries included, the pause rows added equal the flips into paused |
| ReconcileTheorems.OwnEventsAddNothing | pkg/audit/logger.go:248-266 | until a user acts on the sandbox, consuming the events a monitor phase published for it adds no audit row, publishes nothing and changes no row; a pause leaves the whole state alone |
| ReconcileTheorems.TimeoutEventsNeverAudited | internal/api/sandbox_event_consumer.go:315-323 | consuming a transient-timeout failure adds no audit row in any state |
| ReconcileTheorems.LatePauseEvent | internal/api/sandbox_event_consumer.go:238-259 | after any run, the monitor's own pause event flips the sandbox exactly when it finds the row running or pausing |
| ReconcileTheorems.LateOwnEvent | internal/api/sandbox_event_consumer.go:229-323 | after any run, an event the monitor published overwrites the row exactly when it finds it in a status that kind of event overwrites, frees volumes exactly when it is not a pause and the sandbox holds some, and otherwise changes nothing at all |
| ReconcileTheorems.DeliverOwn | internal/api/sandbox_event_consumer.go:229-323 | in any state, the rows, volumes, audit log and stream after consuming such an event |
| ReconcileTheorems.LatePauseRows | internal/api/sandbox_event_consumer.go:238-259 | the pause rows of such a run: one for the monitor's pause, one per flip in between, and one more exactly in that case |
| ReconcileTheorems.ResumedThenPausedAgain | internal/api/sandbox_event_consumer.go:139-148 | a run that does it: paused, resumed by a user, the resume confirmed, then the monitor's event; two pause rows |
| ReconcileTheorems.AliveIsCoerced | internal/api/host_monitor.go:177-185 | the status map built from a report holds no transient label |
| ReconcileTheorems.OnePhaseActs | internal/api/host_monitor.go:187-486 | at most one of the four phases acts on a row, although each sees what the earlier ones wrote |
| ReconcileTheorems.PassIsOneRound | internal/api/host_monitor.go:129-487 | the four phases run back to back equal one simultaneous round of per-row decisions on the state before the pass |
| RecoveryTheorems.PassFreesOnlyGoneSandboxes | internal/api/host_monitor.go:187-486 | a pass changes a volume only if its sandbox is absent from the report or its destroy succeeded or was NotFound in that pass |
| RecoveryTheorems.PassStrandsIff | internal/api/host_monitor.go:302-320 | after a pass a volume still names a sandbox the pass moved to stopped or error exactly when the report's own label put it there |
| RecoveryTheorems.ErrorLabelStrands | internal/api/host_monitor.go:302-320 | a running sandbox with an attached volume, reported in error, ends in error with the volume still claimed |
| RecoveryTheorems.UnreachableHostIsFrozen | internal/api/host_monitor.go:129-152 | while a host is unreachable, its missing and settled rows keep still through any number of checks, events, heartbeats of other hosts, reaper sweeps and user operations elsewhere, and their volumes too if no event names them |
| RecoveryTheorems.Recover | pkg/db/hosts.sql.go:857-863 | a heartbeat and a check bring an unreachable host back and reconcile its rows against the report |
| RecoveryTheorems.OutageThenRecovery | internal/api/host_monitor.go:117-251 | a host goes stale, any such ticks happen, it beats and is reconciled: running and paused rows end as the report says, exactly their old status if it matches, paused and not running if the host paused them, with their volumes untouched |
| StepTheorems.TransientAbsentIff | internal/api/host_monitor.go:438-486 | a transient row whose sandbox is not reported is left alone exactly while it is younger than two minutes; otherwise it is settled, with its audit row, its event and its volumes |
| StepTheorems.TransientAliveIff | internal/api/host_monitor.go:382-437 | a transient row whose sandbox is reported changes exactly when it is starting or resuming, stopping for two minutes and gone, or snapshotting for fifteen, and what it becomes |
| StepTheorems.AliveMeaning | internal/api/host_monitor.go:174-186 | a sandbox is present exactly when the report lists it; its last entry decides; four labels and the empty one mean presence alone |
| StepTheorems.PassOutcome | internal/api/host_monitor.go:187-370 | a whole pass, for every row that is not transient: which rows it leaves alone and exactly what it makes of the others |
| StepTheorems.PassLeavesTransientToItsPhase | internal/api/host_monitor.go:187-486 | a whole pass does to a transient row what the transient phase alone does |
| StepTheorems.CheckDecides | internal/api/host_monitor.go:129-165 | a check marks the host down exactly when it has been silent for more than ninety seconds and is not marked already, and else reconciles exactly when it is online and answers |
| StepTheorems.MarkDownOutcome | pkg/db/sandboxes.sql.go:381-386 | of the rows of a host marked down exactly the running, starting, pending, pausing, resuming and stopping ones become missing; nothing else changes |
| StepTheorems.HeartbeatOutcome | pkg/db/hosts.sql.go:857-863 | a heartbeat brings exactly an unreachable host online and changes nothing else but its time |
| StepTheorems.ConfirmedStart | internal/api/sandbox_event_consumer.go:132-144 | a confirmed create moves exactly a starting row to running, a confirmed resume exactly a resuming one; otherwise the whole state is left alone |
| StepTheorems.FailedStart | internal/api/sandbox_event_consumer.go:304-353 | a failed create or resume puts the row in error from exactly five statuses, frees the volumes, and adds exactly one audit row unless it is a transient timeout |
| StepTheorems.ConfirmedPause | internal/api/sandbox_event_consumer.go:237-261 | a confirmed pause moves exactly a running or pausing row to paused, with exactly one audit row |
| StepTheorems.ConfirmedDestroy | internal/api/sandbox_event_consumer.go:274-294 | a confirmed destroy frees the volumes in any case and stops exactly a stopping or running row |
| StepTheorems.OtherEventsChangeNothing | internal/api/sandbox_event_consumer.go:112-153 | every other event changes nothing |
| ControlPlane.Database.ListByHostAndStatus | pkg/db/sandboxes.sql.go:286-290 | exactly the host's rows with one of the statuses |
| ControlPlane.Database.BulkRestoreMissingToStatus | pkg/db/sandboxes.sql.go:14-19 | only rows still missing take the new status |
| ControlPlane.Database.BulkUpdateStatusByIDs | pkg/db/sandboxes.sql.go:35-40 | every named row takes the new status, whatever it was |
| ControlPlane.Database.UpdateStatusIf | pkg/db/sandboxes.sql.go:591-597 | the row changes, and the call succeeds, exactly when the row has the expected status |
| ControlPlane.Database.MarkSandboxesMissingByHost | pkg/db/sandboxes.sql.go:381-386 | the active rows of the host, and only those, become missing |
| ControlPlane.Database.MarkHostUnreachable | pkg/db/hosts.sql.go:763-765 | the host, if present, becomes unreachable |
| ControlPlane.Database.UpdateHostHeartbeatAndStatus | pkg/db/hosts.sql.go:857-863 | the heartbeat step of the protocol: an unreachable host goes online, other statuses stay; the row count |
| ControlPlane.Database.ReserveVolumeForAttach | pkg/db/volumes.sql.go:481-487 | the reserve transition; a row comes back exactly when the claim was granted |
| ControlPlane.Database.LinkVolumeReservation | pkg/db/volumes.sql.go:291-296 | the link transition |
| ControlPlane.Database.MarkVolumeAttached | pkg/db/volumes.sql.go:385-395 | the promotion, keeping a pin already set; a row comes back exactly when the volume was attaching |
| ControlPlane.Database.ReleaseVolumeReservation | pkg/db/volumes.sql.go:463-469 | the release transition |
| ControlPlane.Database.BeginVolumeDelete | pkg/db/volumes.sql.go:28-34 | the delete claim, by the owning team on a detached or already deleting volume |
| ControlPlane.Database.AbortVolumeDelete | pkg/db/volumes.sql.go:14-19 | the abort transition |
| ControlPlane.Database.DeleteVolumeRow | pkg/db/volumes.sql.go:79-81 | the row goes exactly when it is the team's and deleting |
| ControlPlane.Database.DetachVolumesBySandboxIDs | pkg/db/volumes.sql.go:156-163 | every volume of the named sandboxes is detached and no other changes |
| ControlPlane.Database.ReleaseStaleVolumeReservations | pkg/db/volumes.sql.go:431-439 | the stale release, and the number of rows it changed |
| ControlPlane.Database.Log | pkg/audit/logger.go:144-158 | one audit row and no event |
| ControlPlane.Database.Publish | pkg/audit/logger.go:35-40 | one event and no row |
| ControlPlane.Database.LogAndPublish | pkg/audit/logger.go:248-266 | one row and one event |
| ControlPlane.Database.LogEach | internal/api/host_monitor.go:297-299 | one row and one event for each named sandbox, whatever the order |
| HostMonitor.HostMonitor.CopyLabel | internal/api/host_monitor.go:213-232 | one group of rows takes its label, and each is announced if the label is paused |
| HostMonitor.HostMonitor.StopOrphans | internal/api/host_monitor.go:284-301 | rows the host no longer has are stopped, their volumes freed and the destroys recorded |
| HostMonitor.HostMonitor.Classify | internal/api/host_monitor.go:199-212 | listed rows are split into exactly the absent ones and, by label, the ones to copy |
| HostMonitor.HostMonitor.CopyLabels | internal/api/host_monitor.go:302-320 | all groups together, whatever the order, have the effect of deciding each row on its own |
| HostMonitor.HostMonitor.RestoreMissing | internal/api/host_monitor.go:187-251 | the restore step of the protocol |
| HostMonitor.HostMonitor.SyncRunning | internal/api/host_monitor.go:253-320 | the sync step of the protocol |
| HostMonitor.HostMonitor.DestroyZombie | internal/api/host_monitor.go:350-366 | one stopped row the host reports paused is destroyed and recorded if the call succeeds or says NotFound |
| HostMonitor.HostMonitor.DestroyZombies | internal/api/host_monitor.go:322-368 | the zombie step of the protocol, the query skipped when nothing is reported paused |
| HostMonitor.HostMonitor.PromoteToRunning | internal/api/host_monitor.go:389-395 | a starting or resuming row whose sandbox is alive becomes running |
| HostMonitor.HostMonitor.RetryDestroy | internal/api/host_monitor.go:402-415 | a row stuck stopping is destroyed again; volumes are freed only once the host says it is gone |
| HostMonitor.HostMonitor.FinishDestroy | internal/api/host_monitor.go:405-414 | the write, the freed volumes, the audit row and the event of a confirmed destroy |
| HostMonitor.HostMonitor.RecoverSnapshot | internal/api/host_monitor.go:422-435 | a stuck snapshot returns to the reported status, running by default |
| HostMonitor.HostMonitor.ResolveAlive | internal/api/host_monitor.go:385-437 | the decision for a transient row whose sandbox is alive |
| HostMonitor.HostMonitor.InferFinal | internal/api/host_monitor.go:447-485 | the inferred final status, volumes freed for stopped and error only, and its audit |
| HostMonitor.HostMonitor.AuditInferred | internal/api/host_monitor.go:470-484 | the row and event of an inferred transition |
| HostMonitor.HostMonitor.ResolveTransient | internal/api/host_monitor.go:383-486 | one transient row, grace periods included |
| HostMonitor.HostMonitor.ResolveTransients | internal/api/host_monitor.go:370-486 | the transient step of the protocol |
| HostMonitor.HostMonitor.MarkHostDown | internal/api/host_monitor.go:135-146 | the outage step of the protocol |
| HostMonitor.HostMonitor.ReconcileActive | internal/api/host_monitor.go:187-487 | the four phases of a pass, in order |
| HostMonitor.HostMonitor.BuildAlive | internal/api/host_monitor.go:177-185 | the status map of the report, the last entry for a sandbox winning and transient labels coerced |
| HostMonitor.HostMonitor.CheckHost | internal/api/host_monitor.go:129-487 | the whole check, from table reads to table writes, is the check of the protocol |
| EventConsumer.DeliverIsHandled | internal/api/sandbox_event_consumer.go:132-153 | the delivery step of the protocol is what the handler does to the one row it names |
| EventConsumer.EventConsumer.UpdateFromAny | internal/api/sandbox_event_consumer.go:307-313 | the first expected status that matches decides; success exactly when one does |
| EventConsumer.EventConsumer.HandleStarted | internal/api/sandbox_event_consumer.go:213-227 | the started effect |
| EventConsumer.EventConsumer.HandleAutoPaused | internal/api/sandbox_event_consumer.go:237-261 | the paused effect: an audit row exactly when the flip applied, nothing published |
| EventConsumer.EventConsumer.HandleStopped | internal/api/sandbox_event_consumer.go:274-294 | the stopped effect, volumes freed in any case |
| EventConsumer.EventConsumer.HandleFailed | internal/api/sandbox_event_consumer.go:304-353 | the failed effect, audited unless the monitor already did |
| EventConsumer.EventConsumer.Dispatch | internal/api/sandbox_event_consumer.go:132-153 | the delivery step for a relevant event |
| EventConsumer.EventConsumer.HandleMessage | internal/api/sandbox_event_consumer.go:88-182 | a message is the delivery step, or nothing if it does not decode; it is left unacknowledged exactly when a hook fails on a successful lifecycle event |
| EventConsumer.VolumeReaper.Run | internal/api/volume_reaper.go:62-72 | a sweep is the stale release with the cutoff now minus the grace |
| Shell.SortedKeysUnique | internal/recipe/context.go:87-92 | a set of keys has one increasing order |
| Shell.SortedKeys | internal/recipe/context.go:87-92 | the map's keys in that order, however the map is walked |
| Shell.ShellPrefix | internal/recipe/context.go:77-103 | the text is a function of the context alone, whatever order the map is walked in |
| Shell.WrappedCommand | internal/recipe/context.go:37-51 | the text of a RUN step |
| Shell.StartCommand | internal/recipe/context.go:60-70 | the text of a START step |
| ShellTheorems.ShellescapeIsOneWord | internal/recipe/context.go:133-135 | for every string, lexing its quoted form gives exactly that string as one word, every character literal |
| ShellTheorems.PrefixThenCommand | internal/recipe/context.go:77-103 | preamble and command lex to the intended cd and export tokens followed by exactly the command's own tokens, or its own error |
| ShellTheorems.PreambleCorrectIff | internal/recipe/context.go:92-99 | that holds exactly when no key has a character special to the shell, `$` and backquote included, or begins a comment |
| ShellTheorems.PreambleAssignsIff | internal/recipe/context.go:92-99 | the preamble lexes as intended and every export operand is an assignment of its key exactly when every key is a shell name |
| ShellTheorems.BackquoteKeyBreaksPreamble | internal/recipe/step.go:115-124 | a key with a backquote leaves the command unterminated |
| ShellTheorems.SuSeesInnerVerbatim | internal/recipe/context.go:39-41 | for a user other than root the outer shell sees su, the user, -c and the inner text verbatim |
| ShellTheorems.WrappedMeaning | internal/recipe/context.go:24-41 | with shell names as keys, the shell that runs the step, through su or not, sees the preamble's tokens and then the command's |
| ShellTheorems.StartedMeaning | internal/recipe/context.go:53-70 | a START step is the preamble, nohup with the expansion of the login shell, the command as one literal word, and the redirections of output and of descriptor 2 that detach it |
| Expand.ScanIffPieces | internal/recipe/context.go:17-21 | the scan is exactly the pattern's leftmost, greedy, non-overlapping matching, and the only one |
| Expand.ExpandIsPiecewise | internal/recipe/context.go:110-129 | expansion is the pieces' values in order |
| Expand.ValuesAreVerbatim | internal/recipe/context.go:110-129 | a variable's value goes verbatim into gaps that do not depend on it, so values are never scanned again |
| Expand.DependsIffNamed | internal/recipe/context.go:112-128 | the result depends on a variable exactly when the text names it |
| Expand.AgreeOnNames | internal/recipe/context.go:123-127 | environments that agree on the named variables, unset counting as empty, expand alike |
| Expand.DoublingProtects | internal/recipe/context.go:112-114 | doubling every dollar sign makes any text expand to itself, for any variables and whatever follows |
| Expand.DoubledExpandsBack | internal/recipe/context.go:107-109 | in particular the whole text |
| Expand.LastAssignmentWins | internal/recipe/executor.go:106-111 | a key ends with its last text, expanded under the bindings made before that step |
| ExecutorTheorems.ExecuteAppend | internal/recipe/executor.go:79-169 | for every sandbox, running a + b is running a and then, if it succeeded, b from the counter and context it returned; entries, requests and callbacks included |
| ExecutorTheorems.EntriesOfRun | internal/recipe/executor.go:97-168 | entries are numbered from the start with no gap and name their steps, all but possibly the last are Ok, and ok holds exactly when every step ran Ok |
| ExecutorTheorems.ContextOfRun | internal/recipe/executor.go:105-162 | the context is the one the successful prefix makes: a failed step leaves no trace |
| ExecutorTheorems.RequestsOfRun | internal/recipe/executor.go:105-162 | what is asked of the sandbox is fixed by the recipe; answers only decide how far the run gets |
| ExecutorTheorems.ReportsOfRun | internal/recipe/executor.go:164-166 | progress is reported once per Ok step, in order, with every entry so far, and never for a failing step |
| ExecutorTheorems.EnvSteps | internal/recipe/executor.go:106-111 | ENV steps ask nothing, cannot fail, and are sequential assignment |
| ExecutorTheorems.StreamOkIff | internal/recipe/executor.go:237-264 | a streamed step is Ok exactly when no chunk is an error and the last completion exited zero |
| ExecutorTheorems.StepOkIff | internal/recipe/executor.go:105-381 | a step is Ok exactly when it is ENV, or a streamed RUN whose stream completes, or another step that is sent, answered and exits zero |
| ExecutorTheorems.RunOkIff | internal/recipe/executor.go:97-168 | a run is ok exactly when the sandbox lets every step succeed, each asked after all the requests before it |
| ExecutorTheorems.CallIsLogged | internal/recipe/executor.go:188-205 | a plain call logs what was replied, or that the call failed and why |
| ExecutorTheorems.StreamIsLogged | internal/recipe/executor.go:230-265 | a streamed step forwards its data up to the first error, logs all of it, takes the exit code of the last completion and says why it failed |
| ExecutorTheorems.UnopenedIsLogged | internal/recipe/executor.go:228-233 | a stream that does not open is a failed step |
| ExecutorTheorems.RefusedCopyIsLogged | internal/recipe/executor.go:315-324 | a refused COPY step sends nothing, fails and names the refused source |
| ExecutorTheorems.OutputsSplit | internal/recipe/executor.go:235-253 | forwarded and logged output are the data of the chunks that are no completion, in order |
| ExecutorTheorems.LastStepsDecide | internal/recipe/executor.go:113-130 | after any steps the directory is that of the last WORKDIR and the user that of the last USER |
| ExecutorTheorems.LastAssignerDecides | internal/recipe/executor.go:106-111 | the last ENV or USER step that assigns a variable decides its value |
| ExecutorTheorems.RequestOfStep | internal/recipe/executor.go:93-162 | which steps send a request, with which deadline, and which on a terminal |
| ExecutorTheorems.TranscriptOfRun | internal/recipe/executor.go:79-169 | every run in full: its entries are those of the attempts at its steps, and the callbacks are told of each step that it begins, its output, and all entries so far if it went well |
| Paths.CleanKeepsPlace | internal/recipe/executor.go:316 | a cleaned path leads where the path leads, from every directory |
| Paths.CleanTwice | internal/recipe/executor.go:316 | cleaning a cleaned path changes nothing |
| Paths.SplitOfClean | internal/recipe/executor.go:316 | a cleaned path is rooted exactly when the path is, and splits back into the parts cleaning keeps |
| Paths.KeptShape | internal/recipe/executor.go:316 | those parts are names, after as many double dots as the path climbs, and none of these if it is rooted |
| Paths.InsideIff | internal/recipe/executor.go:313-317 | a relative path stays inside every directory exactly when no part of it climbs above where it starts |
| ScriptTheorems.EscapesIff | internal/recipe/executor.go:316-317 | the prefix test refuses exactly rooted paths, paths that climb and paths whose first name begins with two dots |
| ScriptTheorems.AcceptedIsInArchive | internal/recipe/executor.go:325 | an accepted source is read from inside the archive, at the place it names there |
| ScriptTheorems.RefusedInsideIff | internal/recipe/executor.go:313-317 | of the relative paths that stay inside, exactly those whose first name begins with two dots are refused |
| ScriptTheorems.DottedNameIsRefused | internal/recipe/executor.go:317 | `..data` is refused and names an entry of the archive |
| ScriptTheorems.PlanMeaning | internal/recipe/executor.go:313-326 | a COPY step goes ahead exactly when every source is relative, never climbs and does not begin with two dots, and then reads each from its own place in the archive; otherwise the first refused source is named |
| ScriptTheorems.CopyScriptMeaning | internal/recipe/executor.go:328-340 | the COPY script lexes to cp with each path one exact word, then chown of the destination to the owner |
| ScriptTheorems.UserScriptMeaning | internal/recipe/executor.go:277-284 | the USER script lexes to the intended commands with the name one exact word everywhere |
| ScriptTheorems.WorkdirScriptMeaning | internal/recipe/executor.go:115-116 | the WORKDIR script lexes to mkdir with the path one exact word |
| ScriptTheorems.RequestMeaning | internal/recipe/executor.go:105-162 | what the shell makes of the request of a WORKDIR, USER or COPY step, and the text of a RUN or START step |
| RecipeRunner.Runner.ExecRawShell | internal/recipe/executor.go:348-381 | one call and the entry its reply makes |
| RecipeRunner.Runner.ExecRun | internal/recipe/executor.go:171-205 | the same for a RUN step, its command wrapped in the context |
| RecipeRunner.Runner.Drain | internal/recipe/executor.go:235-253 | the chunk loop gathers exactly the output, completion and error up to the first error chunk |
| RecipeRunner.Runner.ExecRunStreaming | internal/recipe/executor.go:212-265 | a streamed RUN step's entry and forwarded output |
| RecipeRunner.Runner.ExecUser | internal/recipe/executor.go:269-300 | a USER step; the context changes exactly when it succeeds |
| RecipeRunner.Runner.ExecCopy | internal/recipe/executor.go:305-344 | a COPY step; the first source that leaves the archive stops it before anything is sent |
| RecipeRunner.Runner.ExecStart | internal/recipe/executor.go:383-419 | a START step |
| RecipeRunner.Runner.ExecStep | internal/recipe/executor.go:105-162 | one step by kind, its timeout included, against the specification of an attempt |
| RecipeRunner.Runner.Execute | internal/recipe/executor.go:79-169 | the loop with its early returns is the fold: entries, counter, success, context, requests and callbacks |
| BuildStream.Console.ReplayBuildHistory | internal/api/handlers_build_stream.go:130-159 | the frames of every logged entry and the highest step number |
| BuildStream.Console.RunStream | internal/api/handlers_build_stream.go:63-125 | the frames a client gets, for every sequence of live events, ticks, closes and cancellations |
| BuildStream.NothingAfterTerminal | internal/api/handlers_build_stream.go:80-124 | a terminal status is the last frame |
| BuildStream.LiveFrames | internal/api/handlers_build_stream.go:63-125 | after replay and status the client gets everything the loop wakes up for, in order, without exactly the frames of steps the log covers |
| BuildStream.FinishedFrames | internal/api/handlers_build_stream.go:80-83 | the client of a finished build gets the replay and the status |
| BuildStream.EntryIsReplayed | internal/api/handlers_build_stream.go:144-159 | each logged entry, wherever it stands, is replayed as its start, its output if any, and its end |
| BuildStream.MergeExactIff | internal/api/handlers_build_stream.go:67-124 | replay and tail deliver every step end exactly once and in order exactly when the tail starts no later than just after the snapshot, later entries have higher numbers and the snapshot holds whatever is never published |
| BuildStream.StepEndingBeforeSubscribeIsLost | internal/api/handlers_build_stream.go:47-88 | a step that ends after the row is read and before the subscription is never delivered, though the next one is |
| BuildStream.FinishedBuildIsReplayed | internal/api/handlers_build_stream.go:80-83 | a finished build's console gets every logged step end |
| BuildStream.ConsecutiveMergeIff | internal/api/handlers_build_stream.go:115-118 | for consecutive numbering only the start of the tail and the unpublished entries matter |
| BuildStream.PhasesPublishAllButTheFailure | pkg/service/build.go:345-383 | a build of any phases publishes the end of every step it logs except the one it fails at |
| BuildStream.BuildMergeIff | internal/api/handlers_build_stream.go:47-124 | for a build of any phases, whether it succeeds or fails, the console gets every step end once and in order exactly when the tail starts no later than just after the snapshot and, if the build fails, the snapshot holds the failing step |
| BuildStream.PhasesAreConsecutive | pkg/service/build.go:345-374 | any list of phases, each with its own settings and context, numbers its entries consecutively |
| BuildStream.HealthcheckMergeIff | pkg/service/build.go:673-701 | with a healthcheck numbered after, but run before, the post-build steps, exactly the clients whose snapshot holds it and not everything miss steps, however far the post-build phase gets; if that phase fails, so do those whose snapshot does not hold the failing step |
| BuildStream.LateConsoleMissesPostBuild | pkg/service/build.go:673-701 | a console whose snapshot ends with the healthcheck misses the post-build step |
| BuildStream.PublishedEndsAreOkSteps | pkg/service/build.go:358-369 | live step ends are those of the Ok steps of the run |
| BuildStream.FailingStepHasNoLiveEnd | internal/recipe/executor.go:158-166 | a command that exits 1 is logged and never reported |
| LoopRegistry.OneEachKeptIff | pkg/devicemapper/devicemapper.go:360-373 | a call leaves at most one loop per image exactly when it is not an attach after a failed query on an attached image |
| LoopRegistry.FailedQueryDuplicates | pkg/devicemapper/devicemapper.go:360-373 | an attached image and a failed query: a second loop |
| LoopRegistry.RunsKeepOneEach | pkg/devicemapper/devicemapper.go:35-102 | over every run with a working query, whatever detaches fail, at most one loop per image |
| LoopRegistry.RefsAreOutstanding | pkg/devicemapper/devicemapper.go:50-89 | over every run each refcount is the number of outstanding acquires and each entry is backed by the kernel |
| LoopRegistry.HeldLoopsStay | pkg/devicemapper/devicemapper.go:72-89 | no call takes down the loop of an image that still has an outstanding acquire |
| LoopRegistry.LeakedLoopIsReused | pkg/devicemapper/devicemapper.go:345-370 | after a failed detach the next acquire takes the same loop: release and acquire cancel out |
| LoopRegistry.ReleaseOutcome | pkg/devicemapper/devicemapper.go:72-89 | giving up the last reference takes the loop down unless five attempts find it busy; any other only counts |
| LoopRegistry.OtherRegistryKeptIff | pkg/devicemapper/devicemapper.go:345-359 | a call leaves another registry's entries backed exactly when it takes down no loop of an image the other holds |
| LoopRegistry.SharedLoopIsTaken | pkg/devicemapper/devicemapper.go:72-89 | two registries hold an image; the first to release takes the loop down |
| LoopRegistry.Kernel.FindByFile | pkg/devicemapper/devicemapper.go:386-399 | a device exactly when the query works and one device is attached |
| LoopRegistry.Kernel.Create | pkg/devicemapper/devicemapper.go:360-373 | the attached device if there is exactly one, otherwise a free one |
| LoopRegistry.Kernel.DetachRetry | pkg/devicemapper/devicemapper.go:409-422 | the device goes exactly when it is attached and one of five attempts finds it free |
| LoopRegistry.LoopRegistry.Acquire | pkg/devicemapper/devicemapper.go:50-68 | the acquire step of the model and the device it returns |
| LoopRegistry.LoopRegistry.Release | pkg/devicemapper/devicemapper.go:72-89 | the release step of the model |
| LoopRegistry.LoopRegistry.ReleaseAll | pkg/devicemapper/devicemapper.go:92-102 | the release of everything, in any order |
| AtomicMax.StepKeepsInv | envd-rs/src/util.rs:20-34 | every step of every call keeps the invariant |
| AtomicMax.Linearizable | envd-rs/src/util.rs:20-34 | under every interleaving, stale loads and spurious failures included, the calls in order of return are a sequential run: same answers, same value |
| AtomicMax.NeverDecreases | envd-rs/src/util.rs:20-34 | installed values strictly increase and stay; the value never decreases |
| AtomicMax.TrueIffInstalled | envd-rs/src/util.rs:30-31 | a call returns true exactly when its own exchange installed its argument |
| AtomicMax.ReturnedIsCovered | envd-rs/src/util.rs:23-25 | once a call has returned the value is at least its argument |
| AtomicMax.QuiescentIsMaximum | envd-rs/src/util.rs:8-34 | when every call has returned the value is the maximum of the initial value and all arguments |
| AtomicMax.UndisturbedCallReturns | envd-rs/src/util.rs:20-34 | from any moment on, a call left to itself returns in one round with the right answer |
| AtomicMax.ExchangeGoesThroughIff | envd-rs/src/util.rs:26-32 | lock freedom: after a load of the latest value the exchange fails only spuriously or because another call has installed a value, and then the call starts over |
| AtomicMax.Cell.SetToGreater | envd-rs/src/util.rs:20-34 | one call among interference: the loop, its answer and its bound |
| Pty.CallsAreJoinedMessages | internal/api/handlers_pty.go:296-396 | for every interleaving and occupancy, the accepted messages are the groups called for, what the sender holds and the queue, in order, and the calls are those of the groups |
| Pty.OrderIsPreserved | internal/api/handlers_pty.go:328-396 | at every moment the terminal has been sent a prefix, cut between messages, of what one call per accepted message would send |
| Pty.CloseDeliversEverything | internal/api/handlers_pty.go:338-349 | after a close the sender ends, having sent exactly what one call per accepted message would, a held message included |
| Pty.AcceptedIsAdmitted | internal/api/handlers_pty.go:296-325 | over every interleaving a message enters the channel exactly when fewer than 64 wait |
| Pty.NothingDropped | internal/api/handlers_pty.go:318-324 | nothing is dropped while what waits and what is still read come to no more than 64 |
| Pty.ClosedIff | internal/api/handlers_pty.go:302-308 | the channel is closed exactly when the reader has closed it |
| Pty.TypedArrives | internal/api/handlers_pty.go:296-396 | end to end: after a close the terminal has been sent exactly what was admitted, and everything read if that was at most 64 messages |
| Pty.BurstArrives | internal/api/handlers_pty.go:296-396 | up to 64 messages typed before the sender takes any all reach the terminal in order |
| Pty.Channel.CoalesceInput | internal/api/handlers_pty.go:429-444 | with the reader at work, the buffer is the inputs taken and nothing taken is lost |
| Base36.LengthIsRight | pkg/id/id.go:15-18 | 25 base-36 digits hold 128 bits and 24 do not |
| Base36.StrippedMeaning | pkg/id/id.go:111-113 | the bytes of a number without leading zeros are its bytes, the first not zero |
| Base36.StrippedLength | pkg/id/id.go:111-114 | at most k bytes exactly for numbers below 256^k |
| Base36.PaddedIsWritten | pkg/id/id.go:112-114 | right-aligned among zeros they are the number written with that many bytes |
| Base36.Bytes | pkg/id/id.go:111-111 | the byte loop |
| Base36.DecodeIffEncoded | pkg/id/id.go:85-116 | decoding a text gives these bytes exactly when the text encodes them |
| Base36.DecodeOutcomes | pkg/id/id.go:97-116 | decoding succeeds exactly on encodings, and the slice is out of range exactly on 25 alphabet characters worth 2^128 or more |
| Base36.PanicsSomewhere | pkg/id/id.go:111-114 | the largest text of the right length panics |
| Base36.DecodeRefusals | pkg/id/id.go:98-108 | which error a refused text gets: first for its number of UTF-8 bytes, then for a character outside the alphabet |
| Base36.EncodeKeepsOrder | pkg/id/id.go:85-95 | identifiers sort as their bytes do |
| Base36.UuidToBase36 | pkg/id/id.go:86-95 | the division loop over the buffer writes the encoding |
| Base36.Base36ToUuid | pkg/id/id.go:98-116 | the decoding loop with its errors, the stripped bytes, the copy into the last bytes of the result, and the panic when they do not fit |
| Base36.ParseIffFormatted | pkg/id/id.go:118-145 | parsing gives an identifier exactly when the text is its formatted form |
| Base36.ParseByPrefix | pkg/id/id.go:136-145 | a text is read by what follows its prefix and refused as such exactly when it does not begin with it |
| Base36.OtherKindsRejected | pkg/id/id.go:136-139 | an identifier of one kind is refused as any other |
| Base36.KindsArePrefixes | pkg/id/id.go:70-83 | the twelve prefixes are distinct and end with their only hyphen |
| Sse.RunKeepsGood | internal/api/sse_broker.go:62-80 | over every run, received and buffered messages are, in order, those offered while the buffer had room, and the buffer never exceeds 32 |
| Sse.OffersAreMeantEvents | internal/api/sse_broker.go:70-73 | a client that stays is offered exactly the events of its team, or all for an administrator, whoever comes and goes |
| Sse.ClientSeesItsEvents | internal/api/sse_broker.go:38-80 | both together for a client from the moment it is entered, whatever happens between drawing identifiers and entering subscribers |
| Sse.ClientStep | internal/api/sse_broker.go:40-80 | what each operation makes of one client, from that client alone |
| Sse.ClientAlone | internal/api/sse_broker.go:62-80 | over every run, what a client has follows from its own part in it; no other client, however slow, matters |
| Sse.LeftForGood | internal/api/sse_broker.go:55-60 | a client that has left stays away over every run until its identifier is entered again |
| Sse.CatchesUp | internal/api/sse_broker.go:62-80 | a client that receives all it has buffered has everything it was offered with fewer than 32 waiting, in order |
| Sse.SubscribeIsTwoSteps | internal/api/sse_broker.go:40-51 | subscribing enters an empty client under the next number modulo 2^64 and leaves every other client alone |
| Sse.IdsNeverReusedIff | internal/api/sse_broker.go:40-46 | no identifier is handed out twice exactly while at most 2^64 were handed out |
| Sse.SSEBroker.Subscribe | internal/api/sse_broker.go:40-51 | drawing the identifier and then entering the subscriber, two steps that others may come between |
| Sse.SSEBroker.DrawId | internal/api/sse_broker.go:41-41 | the draw step |
| Sse.SSEBroker.Enter | internal/api/sse_broker.go:45-47 | the entering step |
| Sse.SSEBroker.Unsubscribe | internal/api/sse_broker.go:55-60 | the unsubscribe step |
| Sse.SSEBroker.Dispatch | internal/api/sse_broker.go:65-80 | the dispatch step, subscribers visited in any order |
| Proxy.ServeOutcome | internal/hostagent/proxy.go:106-153 | what becomes of every path with an identifier and a port |
| Proxy.AtoiIff | internal/hostagent/proxy.go:125 | a text is read as a number exactly when it is a decimal numeral for it, sign and leading zeros allowed |
| Proxy.ValidPortIff | internal/hostagent/proxy.go:124-129 | a port is accepted exactly when it is a numeral for 1 to 65535 |
| Proxy.BadRequestIff | internal/hostagent/proxy.go:106-129 | whatever the path, it is a bad request exactly when it does not name a sandbox and such a port |
| Proxy.GuestSeesClientPathIff | internal/api/handler_sandbox_proxy.go:178-186 | through both hops the guest is asked for exactly the client's path, doubled and trailing slashes included, exactly when it starts with a slash |
| Proxy.LocationRoundTrip | internal/api/handler_sandbox_proxy.go:187-193 | through both hops a root-relative location is unchanged, one naming the guest becomes its request URI, any other is unchanged |
| Proxy.RedirectLeadsToGuest | internal/hostagent/proxy.go:186-200 | asked for a location it has rewritten, the agent asks the guest for the original |
| Proxy.KeyInjective | internal/hostagent/proxy.go:159-164 | different sandbox, port or address means a different cache key |
| Proxy.EvictedIff | internal/hostagent/proxy.go:96-99 | a key has a sandbox's prefix exactly when it is that sandbox's |
| Proxy.ProxyHandler.GetOrCreateProxy | internal/hostagent/proxy.go:159-209 | whatever the cache holds, the proxy used is the one for this sandbox, port and address |
| Proxy.ProxyHandler.EvictProxy | internal/hostagent/proxy.go:94-103 | exactly the keys with the prefix go, which for an identifier are all and only that sandbox's |
| Proxy.ProxyHandler.ServeHTTP | internal/hostagent/proxy.go:106-153 | the handler is the serving function and keeps the cache valid |

## Left out

- Database failures: every statement is taken to succeed, and each phase's list and writes are taken as one step, because the bulk update has no status guard.
- Audit details: team identifiers, actor names, metadata beyond the reason, the host-down row, and the order of rows of different sandboxes.
- User operations on sandboxes: any change of rows and volumes they may make is one step of the protocol; the services behind them are not modelled.
- Rows for sandboxes that other statements insert or delete: only the statements of the reconcilers and of volumes are modelled.
- A sandbox's host address and start time, which the conditional running update also writes.
- Volume names, sizes and file placement.
- What expansions expand to, pathname expansion, here-documents, aliases and reserved words: the lexer says how each character is quoted and where a unit ends. Inside `$(` and `)` parentheses and quotes are balanced; comments and case patterns there are not recognised.
- Parsing of recipe lines: steps are the parsed records.
- Nil callbacks and a step kind outside the six: callbacks are always told, and steps are of the six kinds.
- Symbolic links: the place a path names is lexical.
- Elapsed times, and the whole-second rounding of a timeout sent along with the deadline.
- Events the build broker drops before the console sees them: the live tail is a gap-free suffix.
- Detaches the kernel defers while a loop is still open.
- HostMonitor.HostMonitor.CheckHost: reads the host's row and the clock once, where the source may act on a row fetched a little earlier and reads the clock again for each transient row.
- AtomicMax.Cell.SetToGreater: describes one call with a given number of turns, since spurious failures may go on for ever.
- Pty: the 5-second deadline of a call and its error, which the sender ignores; frames that do not parse, which never enter the channel.
- Sse: a channel read after its client has unsubscribed.
- Proxy: URL parsing, percent-encoding of paths, the target cache with its time-to-live, retries of the dialer, connection tracking.
- HTTP handlers, authentication, scheduling, cryptography, e-mail, the frontend and the rest of the guest agent.
