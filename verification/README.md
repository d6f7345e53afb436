# Lotse: a verified model of the hub's stateful core

Lotse is a monitoring hub with agents. This project models the parts of it whose promises
span many calls, goroutines or restarts, and proves those promises for every input, every
interleaving and every run:

| file | what it models |
|---|---|
| `Utf8.dfy`, `TailBuffer.dfy`, `ActiveRun.dfy` | the output of a script run: the ring of newest bytes, the hold-back of split characters, snapshot-and-subscribe, the viewers' channels |
| `RunMachine.dfy` | a run over its targets: goroutines, the semaphore of 16, cancellation, the stored row, restarts |
| `Session.dfy` | the two together: what a viewer has who stays until the run is done |
| `Alerts.dfy`, `AlertEngine.dfy`, `LostWrites.dfy` | the alert engine and the alerts table, also when the store refuses writes |
| `LiveMode.dfy` | how often agents report: live while someone watches, idle otherwise |
| `Registration.dfy` | agent registration against system deletion |
| `LoginLimiter.dfy` | the login limiter |
| `MinuteBuckets.dfy`, `Rollup.dfy` | averaging samples into minute rows, and rolling those up |
| `Text.dfy`, `Versions.dfy`, `VersionText.dfy`, `Manifest.dfy` | version order, version texts, the signed text of an update manifest |
| `RowOrder.dfy` | the held row order of live tables |

`dafny verify dfyconfig.toml` checks everything.

## How it is built

Concurrent parts are a state and a step function over values. A step is one section under a
mutex, one store access or one close of a connection; where a section looks at something
guarded by another mutex it is two steps. A run is any sequence of steps, and the theorems are
about every run. Beside each stands a class with the source's fields, whose methods are proved
to perform exactly those steps; some keep the list of steps so far as a ghost field, so the
theorems apply to the object as it is. Go pointers and channels that are compared by identity
are numbers. Times are integers passed in, metric values are reals.

What the store, the clock and the network decide is a parameter or a nondeterministic choice:
whether a write succeeds, which row id is given out, which victim a map iteration finds first
among equals, whether a stopped timer had already fired.

## What the proofs found

- An agent whose system was deleted before it registered is accepted if the store has given the
  system's id to a new one by then: it is taken for the new system. The `systems` table uses
  `INTEGER PRIMARY KEY` without `AUTOINCREMENT`, so SQLite reuses the largest id.
  `LateRecheck` and `LateHandlersAcceptedExactly` say what the store must hold at the recheck for
  such an agent to be accepted, and `NeverMistakenIffIdsAreNotReused` that reuse is the cause.
  Links that registered before the deletion dropped the entry are dropped in any case
  (`DeletionSafe`), and no link leaks (`NoLinkLeaks`).
- Going idle is meant to wait 15 seconds after the last viewer left, so that a page reload does
  not make agents switch back and forth. It does in every run in which timers are stopped in time
  (`TimelyStopsKeepDelay`): subscribing waits for its own change callback, so nobody can come and
  leave unnoticed (`NobodyLeavesUnnoticed`). In general a callback that fires on an unwatched hub
  is too early in exactly two cases (`IdleEarlyIff`, `DelayKeptIff`): its timer was stopped while
  it waited for the mutex, or its timer was forgotten, because the callback of such a timer had
  cleared the recorded one. There is a run for each (`LateTimerCutsDelayShort`,
  `ForgottenTimerCutsDelayShort`). Viewers are never affected (`WatchedIsLive`).
- The stored result of a script is a snapshot that leaves out held-back bytes, so output that
  ends inside a character loses its last bytes for good (`StoredCompleteIff`,
  `HalfCharacterIsLost`). A run that a restart closes has no stored output.
- A failed write when resolving an alert is only logged, and leaves a row that memory does not
  know. A written reset resolves it, and a restart takes it back, unless the pair has fired
  again: then one of its two rows stays left over across restarts (`AgreementIff`,
  `RestartAgreesIff`, `RestartDoesNotAlwaysHelp`).
- A held table drops rows exactly when two of them share a key (`PermutationIffDistinct`).

## Model

| member | source | states |
|---|---|---|
| `Utf8.CompleteUTF8` | internal/hub/scripts.go:238-248 | for arbitrary bytes, the backward scan over at most four of them cuts exactly where an unfinished character at the end begins (section 4 of RFC 3629), and at the end if there is none |
| `Utf8.CompleteExactly` | internal/hub/scripts.go:237-248 | for arbitrary bytes, something is held back if and only if they end in the proper beginning of some character, and the cut is where that begins |
| `Utf8.FullRuneMeaning` | internal/hub/scripts.go:240-244 | Go's FullRune says no exactly for the proper beginnings of characters |
| `Utf8.RuneStartMeaning` | internal/hub/scripts.go:239-240 | Go's RuneStart says no exactly for the bytes that follow the first one of some character |
| `Utf8.ChunkingStep` | internal/hub/scripts.go:229-231 | scanning only the held-back bytes and the new chunk cuts where scanning the whole stream would, for arbitrary bytes |
| `Utf8.CompleteIsBoundary` | internal/hub/scripts.go:221-231 | in the beginning of well-formed UTF-8 (section 4 of RFC 3629) the shown part is whole characters |
| `Utf8.CompleteIsLastBoundary` | internal/hub/scripts.go:237-248 | and no longer beginning of it is: nothing is held back that could be shown |
| `Utf8.BoundaryIffRuneStart` | internal/hub/scripts.go:284-286 | in well-formed UTF-8 a byte starts a character exactly when RuneStart says so |
| `Utf8.StartWithinFour` | internal/hub/scripts.go:284-288 | any four bytes in a row contain the start of a character |
| `TailBuffers.TailBuffer.constructor` | internal/hub/scripts.go:176-178 | an empty buffer of the given size |
| `TailBuffers.TailBuffer.Write` | internal/hub/scripts.go:259-276 | after any writes of any sizes the unrolled ring is exactly the last max bytes, and dropped holds exactly when more than max were written |
| `TailBuffers.TailBuffer.Replace` | internal/hub/scripts.go:260-265 | a chunk as large as the buffer replaces it |
| `TailBuffers.TailBuffer.Fill` | internal/hub/scripts.go:266-269 | takes as much as still fits, which is everything unless the buffer is full then |
| `TailBuffers.TailBuffer.OverwriteOldest` | internal/hub/scripts.go:270-275 | the overwrite loop ends and keeps that invariant |
| `TailBuffers.OverwriteAppends` | internal/hub/scripts.go:272-274 | copying over the oldest bytes appends to the unrolled contents and drops as much at the front |
| `TailBuffers.TailBuffer.Bytes` | internal/hub/scripts.go:280-291 | the result is the visible part of everything written |
| `TailBuffers.SkipMeaning` | internal/hub/scripts.go:283-289 | the loop skips to the first character start among the first four bytes, or nothing |
| `TailBuffers.VisibleMeaning` | internal/hub/scripts.go:278-291 | for arbitrary bytes, all that fits is visible, and of more the last max bytes without at most three at the front that follow a first byte that is gone |
| `TailBuffers.VisibleStartsOnCharacter` | internal/hub/scripts.go:278-291 | for UTF-8 and a size of at least four, the result is the longest kept suffix that starts on a character |
| `ActiveRuns.ChunkingIndependence` | internal/hub/scripts.go:221-235 | over every interleaving, what is held back of a target is what one scan of all bytes written for it holds back, at most three bytes |
| `ActiveRuns.ExactlyOnce` | internal/hub/scripts.go:602-610 | a subscribed viewer for whom no event came while 256 were waiting has, in snapshot plus events, exactly the bytes from where its snapshot began to where the held-back bytes begin: none missed, none twice |
| `ActiveRuns.EachIsTold` | internal/hub/scripts.go:182-189 | every operation puts its news, and nothing else, at the end of the channel of each subscriber who has fewer than 256 events waiting, and marks the others |
| `ActiveRuns.MissedIff` | internal/hub/scripts.go:182-189 | in every interleaving a viewer is marked if and only if some operation had news for it while 256 events were waiting |
| `ActiveRuns.RoomForAll` | internal/hub/scripts.go:182-189 | so one whose channel never holds 256 events misses nothing |
| `ActiveRuns.ReceivesOldest` | internal/hub/scripts.go:631-637 | receiving takes the oldest event out and changes nothing else |
| `ActiveRuns.ExactlyOnceUntilLeaving` | internal/hub/scripts.go:618-624 | a viewer that left or was closed has exactly the bytes up to what was shown at that moment |
| `ActiveRuns.BeginsWhenSubscribing` | internal/hub/scripts.go:602-610 | the bytes of a viewer begin with the first one visible when it subscribed |
| `ActiveRuns.BeginningStays` | internal/hub/scripts.go:604-610 | no later operation moves that beginning |
| `ActiveRuns.EndsWhenLeaving` | internal/hub/scripts.go:618-624 | only leaving or the finish ends them, with what is shown then |
| `ActiveRuns.WatchedFromTheStart` | internal/hub/scripts.go:197-200 | a viewer that subscribes before output was dropped has all of it from the first byte, for as long as it stays |
| `ActiveRuns.ViewersGetWholeCharacters` | internal/hub/scripts.go:221-235 | if the output is the beginning of UTF-8, every snapshot and every output event is whole characters |
| `ActiveRuns.StatusesReachViewers` | internal/hub/scripts.go:212-219 | the statuses in a subscribed viewer's snapshot, updated by the events that are in its channel or were received, are the current ones |
| `ActiveRuns.SubscriberDiscipline` | internal/hub/scripts.go:406-414 | no interleaving sends on or closes a closed channel; "done" is the last event of exactly the closed channels; nobody is subscribed after the end |
| `ActiveRuns.OnlyOpenChannels` | internal/hub/scripts.go:182-189 | in every interleaving whoever has news coming has an open channel, which only the end closes |
| `ActiveRuns.WouldPanic` | internal/hub/scripts.go:182-189 | what the model counts as a panic: a send on or a close of a closed channel, and a write to a nil map |
| `ActiveRuns.OnlyTheEndCloses` | internal/hub/scripts.go:406-414 | the end closes the channels of its subscribers, and nothing else closes any |
| `ActiveRuns.NoNewsAfterLeaving` | internal/hub/scripts.go:618-624 | a viewer that leaves is offered nothing any more, whatever happens |
| `ActiveRuns.FinishClosesSubscribers` | internal/hub/scripts.go:409-413 | finishing offers "done" to everyone subscribed and closes them, and touches no one else |
| `ActiveRuns.NothingAfterDone` | internal/hub/scripts.go:604-608 | after the end no run of operations adds a channel, offers an event or closes a channel |
| `ActiveRuns.SnapshotIsShown` | internal/hub/scripts.go:197-205 | a snapshot is what may be shown from the first visible byte on, also when the buffer keeps less than is held back |
| `ActiveRuns.VisibleBeginsLater` | internal/hub/scripts.go:280-291 | as output is written, what is visible never begins earlier |
| `ActiveRuns.SnapshotIsWholeCharacters` | internal/hub/scripts.go:197-205 | and whole characters for UTF-8 |
| `ActiveRuns.WriteShows` | internal/hub/scripts.go:229-233 | a write moves exactly the newly completed bytes from held back to shown |
| `ActiveRuns.StepKeeps` | internal/hub/scripts.go:182-235 | every operation keeps the invariant behind the theorems above |
| `ActiveRuns.ActiveRun.constructor` | internal/hub/scripts.go:173-180 | a new run has empty buffers, nothing held back and no viewers |
| `ActiveRuns.ActiveRun.PublishLocked` | internal/hub/scripts.go:182-189 | the loop puts the event once at the end of every subscriber's channel that has fewer than 256 waiting, marks the other subscribers, and touches no one else |
| `ActiveRuns.ActiveRun.CloseLocked` | internal/hub/scripts.go:410-412 | the loop closes every subscriber's channel, none of which is closed |
| `ActiveRuns.ActiveRun.SnapshotLocked` | internal/hub/scripts.go:200-210 | the loop returns the visible output of every target without its held-back bytes |
| `ActiveRuns.ActiveRun.SnapshotTarget` | internal/hub/scripts.go:204-205 | the same for one target |
| `ActiveRuns.ActiveRun.WriteOutput` | internal/hub/scripts.go:224-235 | performs the step Write; the object stays the result of the operations so far |
| `ActiveRuns.ActiveRun.AppendOutput` | internal/hub/scripts.go:227-228 | only this target's buffer and truncation mark change |
| `ActiveRuns.ActiveRun.HoldBack` | internal/hub/scripts.go:229-231 | splits what can be sent from what has to wait |
| `ActiveRuns.ActiveRun.UpdateTarget` | internal/hub/scripts.go:212-219 | performs the step Update |
| `ActiveRuns.ActiveRun.SubscribeViewer` | internal/hub/scripts.go:602-610 | performs the step Subscribe; a finished run only gives the snapshot |
| `ActiveRuns.ActiveRun.UnsubscribeViewer` | internal/hub/scripts.go:618-624 | performs the step Unsubscribe, also after the end |
| `ActiveRuns.ActiveRun.ReceiveEvent` | internal/hub/scripts.go:631-637 | performs the step Receive: the viewer gets the oldest event in its channel |
| `ActiveRuns.ActiveRun.FinishRun` | internal/hub/scripts.go:406-414 | performs the step Finish |
| `ActiveRuns.ActiveRun.FinishLocked` | internal/hub/scripts.go:406-414 | sets done, tells and closes everyone subscribed, and drops them |
| `RunMachine.AtMostSixteenRunning` | internal/hub/scripts.go:365-378 | in every schedule at most 16 targets are running |
| `RunMachine.StatusesMoveForward` | internal/hub/scripts.go:423-512 | a target's statuses are pending, then running, then one terminal status, or pending and one terminal status; canceled only in a canceled run |
| `RunMachine.CanceledNeverRuns` | internal/hub/scripts.go:430-433 | a target whose goroutine has not checked for cancellation when the run is canceled is never started in any schedule, and can only end as canceled |
| `RunMachine.CanceledNeedNotWait` | internal/hub/scripts.go:371-376 | and it need not wait for a slot, however full the semaphore is |
| `RunMachine.FreeSlotIsTaken` | internal/hub/scripts.go:365-373 | while fewer than 16 slots are taken a waiting target can have one |
| `RunMachine.EveryOutcomeIsPossible` | internal/hub/scripts.go:434-512 | a target that is let in can be started or declined, and a started one can end in each way |
| `RunMachine.NothingAfterCrash` | internal/hub/scripts.go:662-676 | once the hub has stopped no target moves any more |
| `RunMachine.TerminalIsFinal` | internal/hub/scripts.go:424-429 | once terminal, a target is never updated again |
| `RunMachine.FinishedRowsAreTerminal` | internal/hub/scripts.go:381-386 | a row stored as finished, by the run or after a stop at any point, has only terminal statuses, and every restart finishes the row |
| `RunMachine.StoredAsReported` | internal/hub/scripts.go:379-386 | the row a run stores holds the statuses its targets ended with |
| `RunMachine.StoreMeaning` | internal/hub/scripts.go:381-386 | the results are stored with the statuses and output they are stored for, or not at all |
| `RunMachine.NextKeeps` | internal/hub/scripts.go:365-378 | every action keeps the semaphore equal to the number of goroutines holding a slot |
| `RunMachine.NeverStuck` | internal/hub/scripts.go:365-379 | while a goroutine has not exited, some goroutine can move: the semaphore cannot deadlock |
| `RunMachine.MovesRunOut` | internal/hub/scripts.go:365-379 | every such move lowers a bound, so a run whose goroutines keep moving ends |
| `RunMachine.CloseRecord` | internal/hub/scripts.go:672-676 | pending and running become failed, and all other statuses stay |
| `RunMachine.FinishInterruptedRuns` | internal/hub/scripts.go:664-683 | the loops close every unfinished row and touch no other; a refused write ends them with an error |
| `Sessions.ViewersSeeTheEnd` | internal/hub/scripts.go:360-420 | in every schedule, a viewer subscribed at the finish whose channel never overflowed ends with exactly the output shown since its snapshot began, up to the held-back bytes, and with the terminal status each target ended with |
| `Sessions.CanceledHasNoOutput` | internal/hub/scripts.go:430-433 | in every schedule, a target that a cancellation finds before it started is not started and gets no output |
| `Sessions.RunIsOps` | internal/hub/scripts.go:362-414 | what a schedule does to the run is exactly what its reports, output, viewers and end do |
| `Sessions.MissedIff` | internal/hub/scripts.go:182-189 | in every schedule a viewer misses something if and only if its channel overflowed |
| `Sessions.WatchingBegins` | internal/hub/scripts.go:602-610 | whoever comes gets a snapshot, and is subscribed unless the run is done |
| `Sessions.EndTellsViewers` | internal/hub/scripts.go:406-414 | when all goroutines are done, the end is told to everyone subscribed and closes them |
| `Sessions.StoredOutput` | internal/hub/scripts.go:379-386 | in every schedule the stored output of a target is what is shown of everything its script wrote |
| `Sessions.StoredCompleteIff` | internal/hub/scripts.go:381-384 | all visible output is stored if and only if what the script wrote, whatever the bytes, does not end in the proper beginning of a character |
| `Sessions.StoredCompleteIffWellFormed` | internal/hub/scripts.go:381-384 | for output in UTF-8: if and only if it is well-formed as a whole |
| `Sessions.HalfCharacterIsLost` | internal/hub/scripts.go:381-384 | a schedule whose script writes one byte that is visible and not stored |
| `Sessions.ViewersHaveWhatIsStored` | internal/hub/scripts.go:379-414 | whoever watched to the end has the stored output, and possibly older output before it |
| `Sessions.RestartStoresNoOutput` | internal/hub/scripts.go:664-683 | a run that a restart closes has no stored output |
| `Sessions.DoneIsFinal` | internal/hub/scripts.go:379-414 | after "done" no schedule adds output or changes a status |
| `Sessions.NextKeeps` | internal/hub/scripts.go:362-512 | every move of goroutines, scripts, viewers and the finish keeps the joint invariant |
| `AlertModel.AlertAgreement` | internal/hub/alerts.go:86-155 | over every run of evaluations, resets, prunings and restarts, creating alerts failing or not: at most one unresolved row per pair, one exactly when memory holds an alert for it, and that alert is the row |
| `AlertModel.AlertMeaning` | internal/hub/alerts.go:108-155 | the map entry of a pair is a function of the pair's own evaluations since its last reset or restart and of whether it fired then; other pairs have no effect |
| `AlertModel.FiringMeaning` | internal/hub/alerts.go:108-155 | a pair is firing exactly when that history says so |
| `AlertModel.NotifiesExactly` | internal/hub/alerts.go:116-154 | fires exactly when not firing and the unbroken holding run began at least Duration ago, resolves exactly when firing and the unbroken clear run began at least the delay ago, else is silent |
| `AlertModel.RowsSayWhen` | internal/hub/alerts.go:121-154 | a firing adds one row with the rule's limit, the value and the second in which the unbroken run began, a resolve stamps the alert's row with the second of the evaluation, and nothing else changes |
| `AlertModel.ResetResolves` | internal/hub/alerts.go:230-238 | a reset stamps exactly the unresolved alerts of its rule or system |
| `AlertModel.PruneMeaning` | internal/hub/store/alerts.go:227-230 | pruning removes exactly the alerts resolved before the time |
| `AlertModel.RestartKeepsFiring` | internal/hub/alerts.go:86-105 | a restart neither forgets a firing alert nor notifies again |
| `AlertModel.StepMeaning` | internal/hub/alerts.go:108-155 | one evaluation takes the expected entry to the expected entry |
| `AlertModel.RunStart` | internal/hub/alerts.go:116-120 | where the unbroken run of equal verdicts at the end begins |
| `AlertModel.RestoredMeaning` | internal/hub/alerts.go:101-103 | the restored map has an entry exactly for every unresolved row's pair |
| `AlertModel.ApplyKeeps` | internal/hub/alerts.go:108-251 | every operation keeps agreement and alternation |
| `LostWrites.AgreementNeedsResolveWrites` | internal/hub/alerts.go:149-154 | from agreement, an operation keeps it if and only if it does not lose the write for an alert that is due to be resolved or reset |
| `LostWrites.RunsAreBacked` | internal/hub/alerts.go:149-154 | in every run, whatever writes are lost, an alert in memory is an unresolved row of its pair |
| `LostWrites.NoSecondFiring` | internal/hub/alerts.go:121-155 | whatever writes are lost, between two firings of a pair there is a resolve or a reset of it, also across restarts |
| `LostWrites.LogKept` | internal/hub/alerts.go:108-155 | every operation keeps that a pair whose last notification is a firing has its alert in memory |
| `LostWrites.OrphansExactly` | internal/hub/alerts.go:149-154 | for every operation, exactly which unresolved rows memory does not know afterwards |
| `LostWrites.AgreementIff` | internal/hub/alerts.go:108-155 | after any run, memory and table agree if and only if its operations leave no such row over |
| `LostWrites.RestartAgreesIff` | internal/hub/alerts.go:86-105 | a restart brings them together if and only if no pair has two unresolved rows |
| `LostWrites.RestartDoesNotAlwaysHelp` | internal/hub/alerts.go:86-105 | a run of an offline rule with a lost write and a second firing that stays apart across a restart |
| `AlertEngines.AlertStore.CreateAlert` | internal/hub/store/alerts.go:205-213 | inserts one row under an id that is not in use, or fails and changes nothing |
| `AlertEngines.AlertStore.ResolveAlert` | internal/hub/store/alerts.go:215-218 | resolves that row if it is unresolved, and no other |
| `AlertEngines.AlertStore.ResolveAlertsWhere` | internal/hub/store/alerts.go:220-225 | resolves exactly the unresolved rows of the rule or the system |
| `AlertEngines.AlertStore.PruneAlerts` | internal/hub/store/alerts.go:227-230 | removes exactly the alerts resolved before the retention time, or nothing |
| `AlertEngines.AlertStore.ActiveAlerts` | internal/hub/store/alerts.go:197-199 | lists exactly the unresolved rows |
| `AlertEngines.AlertEngine.constructor` | internal/hub/alerts.go:88-105 | a hub started on an existing table continues its history with a restart |
| `AlertEngines.AlertEngine.Restore` | internal/hub/alerts.go:101-103 | the loop builds the restored map |
| `AlertEngines.AlertEngine.Step` | internal/hub/alerts.go:108-155 | performs one evaluation on map, table and events |
| `AlertEngines.AlertEngine.StepHolding` | internal/hub/alerts.go:116-136 | the branch for a condition that holds |
| `AlertEngines.AlertEngine.StepClear` | internal/hub/alerts.go:138-154 | the branch for one that does not |
| `AlertEngines.AlertEngine.EvaluateMetrics` | internal/hub/alerts.go:157-176 | every evaluation is of a rule for this system at the sample's own cpu, load or share of memory or disk, compared with the limit, with a clear delay of a minute; every such rule that has a value is evaluated |
| `AlertEngines.MetricChecksExactly` | internal/hub/alerts.go:62-84 | a rule is checked at a value if and only if it is for this system and that is what its metric reads; a share needs a total that is not 0 |
| `AlertEngines.MetricChecksInOrder` | internal/hub/alerts.go:162-173 | once for each rule, in the order of the list |
| `AlertEngines.AlertEngine.EvaluateOfflineSystem` | internal/hub/alerts.go:204-210 | evaluates one offline rule for one system, since it went offline or the hub started |
| `AlertEngines.AlertEngine.EvaluateOfflineRule` | internal/hub/alerts.go:200-211 | evaluates one offline rule for every system it applies to, in order |
| `AlertEngines.AlertEngine.EvaluateOffline` | internal/hub/alerts.go:178-215 | every evaluation is of an offline rule for a system it is for, holding if the system is away, since it went away or the hub started, clearing at once; every such pair is evaluated |
| `AlertEngines.OfflineChecksExactly` | internal/hub/alerts.go:196-203 | a rule is checked for a system if and only if it is an offline rule for it |
| `AlertEngines.OfflineChecksInOrder` | internal/hub/alerts.go:196-203 | rule by rule in the order of the list |
| `AlertEngines.SystemChecksInOrder` | internal/hub/alerts.go:200-203 | and for each rule system by system |
| `AlertEngines.AlertEngine.PruneHistory` | internal/hub/hub.go:275-277 | performs the step Prune if the store takes it |
| `AlertEngines.AlertEngine.ForgetStates` | internal/hub/alerts.go:239-243 | the loop drops exactly the states of the rule or the system |
| `AlertEngines.AlertEngine.ResetAlerts` | internal/hub/alerts.go:232-251 | performs a reset, and reloads the rules if one changed |
| `AlertEngines.EnabledRulesExactly` | internal/hub/alerts.go:261-261 | exactly the enabled rules remain |
| `AlertEngines.EnabledRulesInOrder` | internal/hub/alerts.go:261-261 | and in their order |
| `AlertEngines.EngineAgrees` | internal/hub/alerts.go:47-53 | an engine whose resolve writes all succeeded agrees with its table |
| `LiveMode.LiveProtocol` | internal/hub/hub.go:283-324 | whenever every change callback has run: viewers mean live, live without viewers means a timer is due; and the last interval issued to every registered agent is always the current one |
| `LiveMode.WatchedIsLive` | internal/hub/broker.go:32-43 | in every run, while anyone whose subscribe has returned is there, the hub is live and every agent was last told the live interval, whatever else is pending |
| `LiveMode.QuiescentExact` | internal/hub/hub.go:283-310 | with nothing left to run, live if and only if someone watches |
| `LiveMode.ViewersComeAndGo` | internal/hub/broker.go:32-43 | a viewer can come at any time, and leave at any time after its subscribe has returned, whoever holds the mutex |
| `LiveMode.MutexExcludes` | internal/hub/hub.go:285-310 | while the mutex is held nobody else gets a section |
| `LiveMode.AgentsComeAndGo` | internal/hub/gateway.go:236-255 | a registering agent is told 2 seconds if the hub is live and 60 otherwise; an unregistering one is forgotten |
| `LiveMode.AnyTimerGoesIdle` | internal/hub/hub.go:300-308 | an unwatched hub goes idle with the next timer, whichever it is, and tells every agent |
| `LiveMode.IdleEarlyIff` | internal/hub/hub.go:283-308 | in every run, when a timer's callback finds the hub unwatched, a viewer came or left since the timer was started if and only if a change callback stopped it too late or did not find it recorded |
| `LiveMode.NobodyLeavesUnnoticed` | internal/hub/broker.go:32-43 | in every run, on an unwatched hub, a change callback has acted on viewers since a timer was started if and only if anyone came or left since |
| `LiveMode.DelayKeptIff` | internal/hub/hub.go:283-308 | a run keeps the delay at every decision to go idle if and only if neither case decides in it |
| `LiveMode.DecidedIsIdle` | internal/hub/hub.go:300-307 | a callback that finds a live hub unwatched makes it idle, whatever happens before it acts |
| `LiveMode.HowTimersEscape` | internal/hub/hub.go:289-292 | a timer that can still fire after a callback acted on viewers was stopped too late or forgotten |
| `LiveMode.MarksMean` | internal/hub/hub.go:285-310 | what the model's marks say about the actions of a run |
| `LiveMode.EscapesIff` | internal/hub/hub.go:289-292 | a step lets a timer escape if and only if it stops one too late |
| `LiveMode.NoEscapes` | internal/hub/hub.go:289-308 | in a run without such a stop only the recorded timer can fire, and it is newer than the last callback that saw viewers |
| `LiveMode.TimelyStopsKeepDelay` | internal/hub/hub.go:283-308 | a run in which no timer is stopped too late keeps the delay, however viewers come and go |
| `LiveMode.LateTimerCutsDelayShort` | internal/hub/hub.go:289-308 | a run in which a timer that was stopped too late decides to go idle right after a viewer left |
| `LiveMode.ForgottenTimerCutsDelayShort` | internal/hub/hub.go:289-308 | a run in which that one's callback makes the hub forget the newer timer, which no stop was late for and which then decides to go idle right after the next viewer left |
| `LiveMode.NextKeeps` | internal/hub/hub.go:285-324 | every step keeps the invariant |
| `LiveMode.LiveHub.constructor` | internal/hub/hub.go:89-96 | a hub starts idle, unwatched, without timers or agents |
| `LiveMode.LiveHub.SubscribeViewer` | internal/hub/broker.go:32-37 | adds the viewer and owes its change callback; the object stays the result of its steps so far |
| `LiveMode.LiveHub.UnsubscribeViewer` | internal/hub/broker.go:38-43 | removes a viewer whose subscribe has returned and owes a change callback |
| `LiveMode.LiveHub.BeginViewersChanged` | internal/hub/hub.go:286-288 | takes the mutex and reads the viewer count |
| `LiveMode.LiveHub.FinishViewersChanged` | internal/hub/hub.go:288-309 | stops the timer and goes live, or starts a timer |
| `LiveMode.LiveHub.StopAndGoLive` | internal/hub/hub.go:289-296 | the recorded timer is gone, and if the hub was idle it is live and every agent is told |
| `LiveMode.HubServesViewers` | internal/hub/hub.go:283-324 | the object's viewers whose subscribe has returned are served live |
| `LiveMode.LiveHub.BeginTimer` | internal/hub/hub.go:301-304 | the callback forgets the recorded timer and evaluates its condition |
| `LiveMode.LiveHub.FinishTimer` | internal/hub/hub.go:304-307 | goes idle if the condition held |
| `LiveMode.LiveHub.BroadcastIntervalLocked` | internal/hub/hub.go:319-324 | the loop issues the current interval to every registered agent |
| `LiveMode.LiveHub.RegisterAgent` | internal/hub/gateway.go:236-241 | a new agent is told the current interval |
| `LiveMode.LiveHub.UnregisterAgent` | internal/hub/gateway.go:250-255 | the agent is no longer registered |
| `Registration.DeletionSafe` | internal/hub/gateway.go:126-141 | once a deletion has dropped the map entry, every link accepted on the deleted row, and every link that had registered for it before, whatever the store answered it, is out of the map and closed or owed a close; ids reused or not |
| `Registration.LateHandlersAcceptedExactly` | internal/hub/gateway.go:129-141 | in every run, a handler that registered after its system's deletion is accepted if and only if at its recheck the id had another system's row, or the store could not answer |
| `Registration.LateRecheck` | internal/hub/gateway.go:132-140 | for such a handler the recheck refuses if the id has no row, and otherwise mistakes the new system for its own |
| `Registration.LateHandlersAreRefused` | internal/hub/gateway.go:129-141 | without id reuse and with a store that answers, it is refused |
| `Registration.NeverMistakenIffIdsAreNotReused` | internal/hub/store/store.go:55-56 | no handler is ever accepted for another system than the one that admitted it if and only if ids of deleted systems are not given out again |
| `Registration.NoLinkLeaks` | internal/hub/gateway.go:236-266 | every registered link is current, closed, or about to be closed by a definite thread |
| `Registration.HandlerEnds` | internal/hub/gateway.go:99-141 | from every reachable state a handler gets to its end by its own steps alone, and its link is closed and out of the map then |
| `Registration.DeletionEnds` | internal/hub/api.go:236-254 | so does a deletion: the row and the entry are gone and the link is closed |
| `Registration.DisplacedByWhom` | internal/hub/gateway.go:236-255 | only a newer registration, a deletion of the system or the handler itself displaces a link, and then owes its close; an unregister never removes a newer link |
| `Registration.AcceptedAfterReuse` | internal/hub/gateway.go:132-141 | the run in which a deleted system's handler is accepted under a reused id |
| `Registration.NextKeeps` | internal/hub/gateway.go:120-141 | every step of handlers and deletions keeps the invariant |
| `Registration.Gateway.constructor` | internal/hub/hub.go:116-116 | no links at the start |
| `Registration.Gateway.EnrollSystem` | internal/hub/store/store.go:442-451 | a system gets a row under an id that has none |
| `Registration.Gateway.AdmitAgent` | internal/hub/gateway.go:119-123 | admits the agent if and only if its system has a row |
| `Registration.Gateway.RegisterLink` | internal/hub/gateway.go:236-241 | takes the entry and returns the link to close |
| `Registration.Gateway.CloseReplaced` | internal/hub/gateway.go:242-244 | closes the link it replaced, if any |
| `Registration.Gateway.RecheckRow` | internal/hub/gateway.go:129-141 | refuses if and only if the store answers that the row is missing |
| `Registration.Gateway.DropRefused` | internal/hub/gateway.go:133-137 | takes back its own entry only |
| `Registration.Gateway.UnregisterLink` | internal/hub/gateway.go:250-257 | removes the entry if and only if it is its own |
| `Registration.Gateway.CloseOwn` | internal/hub/gateway.go:99-99 | the handler closes its own link last |
| `Registration.Gateway.JoinAgent` | internal/hub/gateway.go:125-141 | undisturbed, an admitted agent takes the entry, its predecessor is closed, and it is refused if and only if the store answers that the row is missing |
| `Registration.Gateway.LeaveAgent` | internal/hub/gateway.go:127-141 | undisturbed, a handler that ends, refused or not, removes its own entry only and closes its link |
| `Registration.Gateway.LookUpSystem` | internal/hub/api.go:237-240 | a deletion goes on if and only if the system has a row |
| `Registration.Gateway.DeleteSystemRow` | internal/hub/api.go:241-246 | the row goes first |
| `Registration.Gateway.DropSystemLink` | internal/hub/api.go:247-251 | the entry goes next, and its link is owed a close |
| `Registration.Gateway.CloseDropped` | internal/hub/api.go:252-254 | closes that link, if any |
| `Registration.Gateway.DeleteSystem` | internal/hub/api.go:236-254 | undisturbed, a deletion removes the row and the entry of this system alone and closes its link, or changes nothing if there is no row |
| `LoginLimiter.Accounting` | internal/hub/auth.go:527-562 | in every interleaving a record's count is the number of its attempts that failed or have not ended, tracked counts are between 1 and 5, and the map is bounded |
| `LoginLimiter.BeginDropsOnly` | internal/hub/auth.go:564-599 | a first attempt drops no recent record of another client unless 10000 others are recent, and then only the oldest of the clients who still have attempts left, or of all if none has; everyone else's record stays as it is |
| `LoginLimiter.CanBegin` | internal/hub/auth.go:583-599 | there is always a record that can go |
| `LoginLimiter.BeginCounts` | internal/hub/auth.go:527-537 | an attempt of a client with a record of the last five minutes is counted on it, and refused if five are counted already |
| `LoginLimiter.BeginStartsAnew` | internal/hub/auth.go:564-578 | anyone else's is counted on a new record that begins with it |
| `LoginLimiter.CheckDropsOnly` | internal/hub/auth.go:539-545 | looking drops the client's own record if it is out of date, and changes nothing else |
| `LoginLimiter.FailureStays` | internal/hub/auth.go:547-562 | in every interleaving a failed attempt stays counted on its record for good |
| `LoginLimiter.EndGivesBackItsOwn` | internal/hub/auth.go:550-562 | a successful end lowers its own record by one and no other |
| `LoginLimiter.EndLeavesOthers` | internal/hub/auth.go:559-561 | an end on a replaced record leaves the map alone; otherwise the client stays tracked exactly while something is counted |
| `LoginLimiter.LockedOutSurvives` | internal/hub/auth.go:580-599 | five failures stay on record until the lockout passes, unless every unexpired record was locked at an eviction |
| `LoginLimiter.LockedOutIsRefused` | internal/hub/auth.go:525-537 | until then the client cannot begin an attempt |
| `LoginLimiter.FiveFailuresLock` | internal/hub/auth.go:532-535 | five failures fill a record: it counts nothing else |
| `LoginLimiter.VictimStep` | internal/hub/auth.go:591-594 | the comparison keeps the best victim of those seen |
| `LoginLimiter.RoomSpares` | internal/hub/auth.go:580-599 | making room spares a locked-out record while someone else can go |
| `LoginLimiter.NextKeeps` | internal/hub/auth.go:527-578 | every operation keeps the accounting and the bound |
| `LoginLimiter.Guard.constructor` | internal/hub/auth.go:498-500 | nothing is tracked at the start |
| `LoginLimiter.Guard.FindVictim` | internal/hub/auth.go:583-595 | one pass in any order drops exactly the expired records and finds the oldest unlocked one, or the oldest if all are locked |
| `LoginLimiter.Guard.EvictLocked` | internal/hub/auth.go:583-599 | leaves fewer than 10000 records, and of the recent ones all but at most that victim, which goes only if the map is still full |
| `LoginLimiter.Guard.DropExpired` | internal/hub/auth.go:565-569 | an expired record of the client is dropped |
| `LoginLimiter.Guard.RecordLocked` | internal/hub/auth.go:564-578 | the client's record, new if asked for, with room made for it |
| `LoginLimiter.Guard.Reserve` | internal/hub/auth.go:532-536 | counts the attempt unless the record is full |
| `LoginLimiter.Guard.BeginLocked` | internal/hub/auth.go:527-537 | performs the step Begin |
| `LoginLimiter.Guard.BeginAttempt` | internal/hub/auth.go:525-537 | and says whether the client was refused, and what it reserved |
| `LoginLimiter.Guard.IsLocked` | internal/hub/auth.go:539-545 | whether the client may not try, using up no attempt |
| `LoginLimiter.Guard.FailAttempt` | internal/hub/auth.go:547-548 | the attempt stays counted |
| `LoginLimiter.Guard.EndLocked` | internal/hub/auth.go:553-562 | the body of end |
| `LoginLimiter.Guard.EndAttempt` | internal/hub/auth.go:550-562 | performs the step End |
| `MinuteBuckets.RowsAreGroupBy` | internal/hub/state.go:65-111 | with a clock that does not go back and no forced flush, rows have strictly increasing timestamps, each is the mean of all samples of its minute, and with the open bucket they cover exactly the minutes that have samples |
| `MinuteBuckets.SamplesConserved` | internal/hub/state.go:139-150 | for any clock and any forced flushes, sums and counts of emitted rows and open bucket are those of all samples |
| `MinuteBuckets.RingIsTail` | internal/hub/state.go:86-93 | the live ring holds the last 180 samples, and the latest time is that of the last one |
| `MinuteBuckets.MinuteMeaning` | internal/hub/state.go:66-67 | the minute of a time is the full minute at or before it |
| `MinuteBuckets.QuotientMeaning` | internal/hub/state.go:67-67 | the division rounds toward zero |
| `MinuteBuckets.FlushMeaning` | internal/hub/state.go:139-150 | a flush emits the means of the open bucket if it is forced or the minute is over, and empties it; otherwise it changes nothing |
| `MinuteBuckets.NextKeeps` | internal/hub/state.go:73-94 | one sample or flush keeps the group-by invariant |
| `MinuteBuckets.SamplesAreRecorded` | internal/hub/state.go:65-94 | the samples counted are those of the operations, in order |
| `MinuteBuckets.SysState.constructor` | internal/hub/state.go:15-24 | an empty state |
| `MinuteBuckets.SysState.TakeBucket` | internal/hub/state.go:103-111 | returns the column means and empties the bucket |
| `MinuteBuckets.SysState.AddToSum` | internal/hub/state.go:81-84 | adds the sample column by column |
| `MinuteBuckets.SysState.PutSample` | internal/hub/state.go:80-93 | the sample goes into bucket, count, latest time and ring |
| `MinuteBuckets.SysState.RecordSample` | internal/hub/state.go:73-94 | performs the step Record and returns the finished row, if any |
| `MinuteBuckets.SysState.FlushState` | internal/hub/state.go:139-150 | performs the step Flush and returns the row to write, if any |
| `MinuteBuckets.SysState.CurrentBucket` | internal/hub/state.go:152-171 | the mean of the open bucket, with the time of the last sample |
| `Rollup.RollUpCorrect` | internal/hub/store/metrics.go:93-101 | after a rollup every bucket in the window with a minute row is the aggregate of all minute rows now in it, and every other row is as before |
| `Rollup.NoIncompleteBucket` | internal/hub/store/metrics.go:95-101 | a row is written only for a bucket that is over |
| `Rollup.RollUpsInAnyOrder` | internal/hub/store/metrics.go:93-94 | lists of rollups made of the same jobs give the same table, in any order and however often each is repeated |
| `Rollup.RollUpsPermute` | internal/hub/store/metrics.go:93-94 | in particular two orders of one list |
| `Rollup.RollUpAllAt` | internal/hub/store/metrics.go:93-101 | after any list of rollups, a bucket any of them covers is the aggregate of its minute rows |
| `Rollup.GroupsAreCovered` | internal/hub/store/metrics.go:51-53 | the statement's groups are exactly the whole buckets of the window that have rows, each with all its rows |
| `Rollup.RollUpKeepsMinutes` | internal/hub/store/metrics.go:42-54 | minute rows are not touched |
| `Rollup.MaxCol` | internal/hub/store/metrics.go:45-49 | the greatest value of a column, which some row has |
| `Rollup.AggregateMeaning` | internal/hub/store/metrics.go:42-50 | the totals of memory, swap and disk are the greatest of the rows, every other column is the mean |
| `Rollup.CoveredMeaning` | internal/hub/store/metrics.go:93-99 | a job covers exactly the full buckets that are over by now and end after the start of its window |
| `Rollup.RowsInMeaning` | internal/hub/store/metrics.go:51-53 | the rows of a bucket are the 1-minute rows of the system whose time lies in it |
| `Rollup.MetricsTable.RollUpTo` | internal/hub/store/metrics.go:95-101 | afterwards every whole bucket of the window with a minute row holds the aggregate of the minute rows in the table, and nothing else changed |
| `Versions.ParseVersion` | internal/update/update.go:140-163 | the loop over the core computes Parse |
| `VersionText.ParseMeaning` | internal/update/update.go:138-163 | the parser reads v from s if and only if s, without a leading "v", is v written out with or without build metadata |
| `VersionText.RenderInjective` | internal/update/update.go:138-163 | different versions are written differently |
| `Versions.Compare` | internal/update/update.go:165-212 | the loops with early returns compute Cmp |
| `Versions.CompareIdents` | internal/update/update.go:182-211 | the loop over the identifiers |
| `Versions.CompareIdent` | internal/update/update.go:183-203 | the rules for two identifiers |
| `Versions.CmpMeaning` | internal/update/update.go:165-212 | negative if and only if a precedes b in semantic precedence, defined without a comparison |
| `Versions.CmpIsTotalPreorder` | internal/update/update.go:165-212 | antisymmetric in sign, reflexive, transitive through numeric and alphanumeric identifiers |
| `Versions.EqualIdents` | internal/update/update.go:182-211 | identifiers compare equal if and only if they differ only in how numbers are written |
| `Versions.NewerIsStrictOrder` | internal/update/update.go:220-232 | Newer is irreflexive, asymmetric and transitive on all strings |
| `Versions.NewerMeaning` | internal/update/update.go:220-232 | newer means: a version that the current one precedes, or any version if the current one is none; exactly the opposite of at or below |
| `Text.AtoiMeaning` | internal/update/update.go:184-185 | a number is digits after an optional sign, within 64 bits, and nothing else is |
| `Text.ValueMeaning` | internal/update/update.go:184-185 | digits are read most significant first, to base ten |
| `Versions.NoDowngrade` | internal/update/update.go:1-7 | along any chain of newer versions none at or below an earlier one recurs |
| `Manifests.DecodeMessage` | internal/update/update.go:59-73 | a decoder recovers file, version, size and hash from the signed bytes |
| `Manifests.MessageDecode` | internal/update/update.go:59-73 | what the decoder accepts is exactly what is signed: its result signs to the same bytes |
| `Manifests.MessageInjective` | internal/update/update.go:59-73 | equal bytes mean equal file, version, size and hash |
| `Manifests.MessageText` | internal/update/update.go:72-72 | the signed text has one line each for the purpose, file, version, size and hash |
| `Manifests.RefusedIff` | internal/update/update.go:60-71 | a manifest is refused if and only if a field is empty or breaks its line, or it has no release version or no size |
| `Manifests.UpdatesOnlyMoveForward` | internal/agent/update.go:45-60 | whatever manifests an agent accepts in whatever order, it never runs a version at or below an earlier one, and all are for its own file and at most 200 MiB |
| `Manifests.AcceptsIff` | internal/agent/update.go:45-60 | an agent takes exactly the signable manifests for its file that are newer and not too large |
| `RowOrder.PermutationIffDistinct` | web/src/lib/rowOrder.ts:26-43 | a call returns a permutation of its items if and only if it sorts or their keys are distinct |
| `RowOrder.SortsAfresh` | web/src/lib/rowOrder.ts:40-43 | asked not to hold, or in a new epoch, a call sorts all items and clears the hint |
| `RowOrder.HoldsOtherwise` | web/src/lib/rowOrder.ts:25-47 | otherwise it holds, and the hint stays or is set by rows out of order |
| `RowOrder.HeldThenNew` | web/src/lib/rowOrder.ts:28-37 | held rows keep the old order without those gone, new rows follow, sorted |
| `RowOrder.RowsKeepTheirOrder` | web/src/lib/rowOrder.ts:1-5 | two rows present in every refresh since the last sort keep their relative order |
| `RowOrder.RefreshKeepsOrder` | web/src/lib/rowOrder.ts:27-37 | the same for one refresh |
| `RowOrder.NotStaleIsSorted` | web/src/lib/rowOrder.ts:38-43 | while stale is false the rows are sorted |
| `RowOrder.OutOfOrderMeaning` | web/src/lib/rowOrder.ts:38-39 | under a total preorder some neighbours are out of order if and only if the rows are not sorted |
| `RowOrder.StaleMeaning` | web/src/lib/rowOrder.ts:38-39 | stale if and only if some refresh since the last sort was out of order |
| `RowOrder.HoldMeaning` | web/src/lib/rowOrder.ts:30-36 | the loop over the old order keeps exactly the rows still there and leaves exactly the others |
| `RowOrder.HoldConserves` | web/src/lib/rowOrder.ts:30-36 | and loses and doubles none |
| `RowOrder.SortKeeps` | web/src/lib/rowOrder.ts:41-41 | sorting permutes, and sorts under a total preorder |
| `RowOrder.SortIsStable` | web/src/lib/rowOrder.ts:41-41 | and keeps the order of what compares equal |
| `RowOrder.MapOfDistinct` | web/src/lib/rowOrder.ts:28-28 | with distinct keys the map holds the items as they are |
| `RowOrder.MapOfDuplicates` | web/src/lib/rowOrder.ts:28-28 | with a repeated key it holds fewer |
| `RowOrder.Orderer.constructor` | web/src/lib/rowOrder.ts:20-23 | nothing held, an epoch equal to none |
| `RowOrder.Orderer.Order` | web/src/lib/rowOrder.ts:25-47 | performs one call and remembers its order |
| `RowOrder.Orderer.HeldRows` | web/src/lib/rowOrder.ts:28-37 | the held branch with its loops |
| `RowOrder.Orderer.AnyOutOfOrder` | web/src/lib/rowOrder.ts:39-39 | whether two neighbours are out of order |

## Left out

- HTTP, JSON, SSE and WebSocket framing, SSH, shells, services, Docker, mail: input and output around the modelled logic.
- Cryptography: signatures, hashes, passwords and TOTP codes.
- Floating-point rounding: metric values are reals.
- Viewers whose channel overflowed: only that they are marked and that others are unaffected is modelled.
- JSON replacing invalid bytes in output that is not UTF-8.
- Delivery order of interval messages: the model speaks of the order in which intervals are issued under the mutex.
- The system id inside output events: an event names its target by index, which is equivalent because a run's systems are distinct.
- The error texts, exit codes and times in a run's targets, and removing a finished run from memory after a minute.
- Notification texts, delivery and retries.
- The `offline` timestamps under concurrent reconnects (`AgentOnline` and `AgentOffline` only set and clear them), and alerts of systems deleted during an evaluation.
- Reading the rule list and the list of systems: they are arguments, and reloading the rules after a notification channel is deleted is not modelled.
- A store that cannot answer when an agent is admitted, or cannot delete a row: the source then stops before anything changes.
- Pruning of metrics, inserting minute rows (`InsertMetrics` only sets one cell), and rows of a minute that gets further samples after a forced flush: the insert replaces the earlier row, so conservation is stated at emission.
- Putting a sample's numbers into columns: a sample is its 14 numbers in column order.
- Clock readings before 1970 in rollups: `RollUpCorrect`, `RollUpsInAnyOrder` and their companions take timestamps that are not negative, since the statement's division rounds toward zero.
- `clientKey`: turning an address into the number the limiter counts.
- Whether an agent's download succeeds, its size and hash checks, and starting the new binary.
- Clamps, validation of rules and scripts, role ranks, install commands, the Svelte components: easy members.
