# Agents Gateway, verified

A Dafny model of the parts of Agents Gateway where the state is hardest to keep straight, with proofs
about every run of them. `dafny verify dfyconfig.toml` checks all files.

| part | files |
|---|---|
| the runner's durable task dispatcher and its stream supervisor | `TaskStore`, `InMemoryDispatch`, `RuntimeProtocol`, `RuntimeStream`, `DispatchMachine`, `DispatchInvariant`, `DispatchCommands`, `DispatchSafety`, `DispatchTheorems`, `DispatchRuns`, `DispatchGuarantees`, `DispatchOutcomes`, `DispatchLostSuccess` |
| its bounded event history and its redaction | `RuntimeHistory`, `RedactText`, `RedactJson` |
| the broker session wrapper | `BrokerSessions`, `BrokerMachine`, `BrokerGuarantees` |
| the artifact retention pass | `Retention` |
| verify before complete | `Verification`, `CompletionProtocol`, `HarnessRuntime` |
| artifact object keys | `ArtifactKeys` |
| shared definitions | `Wrappers`, `HarnessModels` |

How the model is built:

- **Dispatcher.** `TaskStore` gives each lock-held section of the service as a function on one task's
  slot (memory, file, active entry). The class `Dispatch.InMemoryDispatch` keeps the program's maps and
  is proved, method by method, to do exactly that to the one slot it is called for and nothing to any
  other. `DispatchMachine` interleaves the sections with the goroutines, the stream supervisors, the
  resume calls in flight, failing writes, crashes and reloads. A write that fails leaves the old or the
  new record on disk. `observe` has no guard on the state, as in the code, so a frame that arrives late
  can revive a task that failed or was cancelled; of the verdicts only success is final, and on disk
  only under a condition (see below).
- **Broker.** Every call is a thread; a section under the wrapper's own lock is one step, the lock of a
  record is held over several. Each resource is asked for and given back separately, and giving back may
  be refused.
- **Verify before complete.** A session is saved as a whole object, so a save writes a status that was
  read earlier. Supervisors, drive loop and outside requests each hold such an object, and any of them
  may save it at any time. Every task has its own supervisor and each supervisor looks after all active
  sessions, so the model has any number of them.

Where the code and its documentation differ, the model follows the code, and the difference is stated
as a theorem:

- Redaction is not idempotent: a second pass changes the text whenever the first one found a prefix
  (`RedactionIdempotentExactly`).
- A cancel that was acknowledged in memory can be forgotten by a restart, exactly if its write failed
  before reaching the disk and the file says scheduled, succeeded or failed
  (`CancelSurvivesRestarts`, `ForgettableIsForgotten`).
- The cleanup module says that artifacts of active sessions are never deleted. The code finds the session
  through the worktree of the run, so a run without a worktree row is not protected
  (`OwnedIsListedExactly` states the exact condition, `NoWorktreeNoProtection` an input).
- A success that reached the disk can be overwritten with lost: the verdict is written but not confirmed,
  memory says lost, and a resume call still under way saves that
  (`StoredSuccessIsFinalExactly`, `StoredSuccessCanBeLost`).
- Requests are told apart by organization, project and idempotency key joined with NUL characters. That is
  exact for identifiers without NUL, and not otherwise (`KeysTellTasksApart`, `NulMergesTasks`).
- A verification passes although an optional command could not be started
  (`PassedExecutesAll` states when every command ran, `OptionalMayBeSkipped` an input).
- A completed session can be put back to another status. An outside request that read the session earlier
  can do it (`StaleReplyReopens`), and so can, without any outside request, the supervisor of another task
  (`OtherSupervisorReopens`) or, after an earlier outside save, the session's only supervisor
  (`LateTurnReopens`). `SurvivesExactly` states for every reachable state when supervisors and drive loop
  cannot; with one supervisor and no outside saves they never can (`SoleSupervisorIsFinal`).

## Model

| member | source | states |
|---|---|---|
| RedactText.RedactRuntimeText | v2/cmd/agw-runner/dispatch.go:852-886 | the two loops that edit the string they scan end on every string; in the result every occurrence of each of the eleven prefixes is directly followed by the mark, and the mark by a delimiter or the end |
| RedactText.NothingOfTheTokenStays | v2/cmd/agw-runner/dispatch.go:852-886 | in redacted text a prefix is followed by the mark and then by the end or one of the twelve delimiters, so no character of the token is left |
| RedactText.MaskReplacesToken | v2/cmd/agw-runner/dispatch.go:855-867 | a pass copies the text before the first prefix, replaces the whole token behind it by the mark and goes on with the rest |
| RedactText.DelimitersAreTwelve | v2/cmd/agw-runner/dispatch.go:862 | which twelve characters end a token |
| RedactText.PrefixesAreEleven | v2/cmd/agw-runner/dispatch.go:853-869 | which eleven prefixes are looked for, in which order, and what the mark is |
| RedactText.MaskInPlace | v2/cmd/agw-runner/dispatch.go:855-867 | one editing loop computes the one-pass specification that never looks back |
| RedactText.ScanToken | v2/cmd/agw-runner/dispatch.go:862-864 | the inner scan stops at the first delimiter |
| RedactText.EditThenMask | v2/cmd/agw-runner/dispatch.go:855-867 | editing the string and going on behind the mark is the same as masking the rest of the original |
| RedactText.OccurrenceAvoidsMark | v2/cmd/agw-runner/dispatch.go:852-886 | no prefix overlaps a mark, wherever both occur |
| RedactText.EditSeals | v2/cmd/agw-runner/dispatch.go:862-865 | the mark an edit puts down is followed by what ended the token |
| RedactText.MaskGuards | v2/cmd/agw-runner/dispatch.go:852-886 | one pass guards every occurrence of its prefix, also those its own edits bring together |
| RedactText.MaskKeepsGuard | v2/cmd/agw-runner/dispatch.go:852-886 | a later pass never takes the guard of an earlier prefix away or creates an unguarded occurrence |
| RedactText.RedactedIsGuarded | v2/cmd/agw-runner/dispatch.go:852-886 | all eleven passes together leave every occurrence guarded |
| RedactText.RedactionIdempotentExactly | v2/cmd/agw-runner/dispatch.go:852-886 | a second redaction changes nothing if and only if the text holds none of the prefixes, and then the first changes nothing either |
| RedactText.GuardedTokenEnd | v2/cmd/agw-runner/dispatch.go:862-864 | on guarded text the token scan stops before the last character of the mark, which is why a second pass adds a character |
| RedactJson.RedactionByPosition | v2/cmd/agw-runner/dispatch.go:806-834 | for every path: outside secret positions shape, keys and non-string scalars are unchanged; at the first secret position on the path stands the mark, below it nothing |
| RedactJson.RedactedIsClean | v2/cmd/agw-runner/dispatch.go:806-850 | said of the result alone: every string meets the text guarantee, and under a sensitive key and in a `value` beside a sensitive `name` there is the mark |
| RedactJson.SensitiveExactly | v2/cmd/agw-runner/dispatch.go:836-850 | a key is sensitive if and only if it contains one of eight words in any case and is not one of the two token counters in any case |
| RedactJson.RedactionNamesNothing | v2/cmd/agw-runner/dispatch.go:806-850 | a name that is sensitive after text redaction was sensitive before it, so redacting a name never uncovers or creates a secret beside it |
| RuntimeHistory.AppendRuntimeEvent | v2/cmd/agw-runner/dispatch.go:682-719 | the trimming loop yields the longest suffix that fits, or refuses the frame |
| RuntimeHistory.TrimIsLongestFit | v2/cmd/agw-runner/dispatch.go:707-716 | what is kept fits both limits and no longer suffix does |
| RuntimeHistory.TrimIncrementally | v2/cmd/agw-runner/dispatch.go:707-716 | trimming after each event gives the same as trimming the full log once |
| RuntimeHistory.AppendRefinesRecord | v2/cmd/agw-runner/dispatch.go:682-719 | appending to the window abbreviates recording in the full log |
| RuntimeHistory.HistoryRefinesLog | v2/cmd/agw-runner/dispatch.go:682-719 | for every sequence of frames the window is the abbreviation of the full log: a suffix, truncated exactly if something was dropped, with a cursor that never decreases |
| RuntimeHistory.LogShowsEverything | v2/cmd/agw-runner/dispatch.go:682-719 | for new frames in order the full log gains every frame but the heartbeats, with its number, kind, redacted payload and terminal flag |
| RuntimeHistory.StorableExactly | v2/cmd/agw-runner/dispatch.go:753-804 | a valid frame is stored exactly if it is safe after redaction and has at most 768 KiB of payload |
| RuntimeHistory.AppendKeepsWellFormed | v2/cmd/agw-runner/dispatch.go:682-719 | the window stays strictly increasing, within both limits and clean of secrets |
| RuntimeHistory.ReplayChangesNothing | v2/cmd/agw-runner/dispatch.go:683-688 | any frames at or below the cursor leave the history as it is |
| RuntimeHistory.NormalizeRuntimeHistory | v2/cmd/agw-runner/dispatch.go:721-751 | the loading loop accepts and rebuilds exactly what the specification says |
| RuntimeHistory.NormalizedExactly | v2/cmd/agw-runner/dispatch.go:721-765 | which histories are accepted from disk, with all limits written out, and which cursor and start they then have |
| RuntimeHistory.ReloadRoundTrip | v2/cmd/agw-runner/dispatch.go:721-765 | every well-formed history is accepted and read back unchanged: events, cursor, start and truncation |
| RuntimeHistory.StatusEvents | v2/cmd/agw-runner/dispatch.go:302-324 | the loop returns the retained events above the cursor of the caller, in order |
| RuntimeHistory.GaplessPoll | v2/cmd/agw-runner/dispatch.go:302-324 | a poll that reports no gap delivers exactly what was recorded since the last one |
| RuntimeHistory.PollingRefinesLog | v2/cmd/agw-runner/dispatch.go:302-324 | for every sequence of polls without a gap the answers together are all non-heartbeat events, once and in order |
| RuntimeHistory.AnswerIsCompleteExactly | v2/cmd/agw-runner/dispatch.go:302-324 | an answer holds everything new if and only if every dropped event is at or below the cursor of the caller |
| RuntimeHistory.PollingCanMissEvents | v2/cmd/agw-runner/dispatch.go:302-324 | with a gap an event is missed: two events of 600000 bytes and a poll from the start |
| RuntimeStream.SuperviseRuntime | v2/cmd/agw-runner/main.go:528-565 | the decoding loop computes the fold of single supervision steps over the stream |
| RuntimeStream.SupervisionExactly | v2/cmd/agw-runner/main.go:528-565 | for every stream: the count and the terminal frame are those of the longest orderly beginning, and there is an error exactly if the stream goes on after it |
| RuntimeStream.SuperviseExplained | v2/cmd/agw-runner/main.go:528-565 | one step keeps the result explained by the frames the sink took: the last frame, the terminal flag, the accepted order, and an error as soon as a frame is refused |
| RuntimeStream.FinalizeNonEmpty | v2/cmd/agw-runner/main.go:482-499 | no error comes out exactly if the stream ended with a completed run that carries an artifact, the exit was zero and unsignalled, and wait and cleanup succeeded |
| RuntimeStream.OutcomeExactly | v2/cmd/agw-runner/main.go:567-585 | the verdict carries failed, cancelled or unknown exactly if the stream and the process ended and the terminal frame says so |
| RuntimeStream.NoErrorExactlyWhenClean | v2/cmd/agw-runner/main.go:368-499 | over all ways a run can end, the verdict is free of errors exactly for a clean run |
| Dispatch.InMemoryDispatch.Schedule | v2/cmd/agw-runner/dispatch.go:148-188 | a known key answers only the same owner and input and changes nothing; a new key takes the next fencing token, and a failed write leaves no record in memory |
| Dispatch.InMemoryDispatch.Cancel | v2/cmd/agw-runner/dispatch.go:190-218 | the mark is set in memory even if the write fails; settled tasks change nothing; another owner, organization, project or run is refused and changes nothing |
| Dispatch.InMemoryDispatch.ReserveCommand | v2/cmd/agw-runner/dispatch.go:220-279 | which number is reserved, what is rolled back on a failed write, and when the request is answered without sending; a stranger is refused and changes nothing |
| Dispatch.InMemoryDispatch.ConfirmCommand | v2/cmd/agw-runner/dispatch.go:287-300 | the command is recorded as sent in memory whatever the write does; a key without a command would get an empty one |
| Dispatch.InMemoryDispatch.StartTask | v2/cmd/agw-runner/dispatch.go:326-345 | a sandbox is launched exactly if the task was scheduled, had no active entry and its running state was written |
| Dispatch.InMemoryDispatch.Observe | v2/cmd/agw-runner/dispatch.go:380-414 | a frame changes the history, the approval and the output of its own task only, in every state |
| Dispatch.InMemoryDispatch.Finish | v2/cmd/agw-runner/dispatch.go:416-446 | the final state, the three write attempts and the lost record that replaces a verdict which could not be written |
| Dispatch.InMemoryDispatch.Persist | v2/cmd/agw-runner/dispatch.go:591-630 | a failing write leaves either the old or the new record and touches no other file |
| Dispatch.InMemoryDispatch.LoadFile | v2/cmd/agw-runner/dispatch.go:540-569 | an interrupted task becomes lost and is written back; the fencing counter rises to the token read |
| Dispatch.InMemoryDispatch.Load | v2/cmd/agw-runner/dispatch.go:529-571 | the loop over the files reads every one back or stops; on success the counter is the highest stored token |
| Dispatch.InMemoryDispatch.Recover | v2/cmd/agw-runner/dispatch.go:573-589 | every scheduled task is started as if alone, whatever the order |
| DispatchOutcomes.FinishVerdict | v2/cmd/agw-runner/dispatch.go:424-441 | with one write in three succeeding: cancelled exactly if a cancel was seen or the run says cancelled, succeeded exactly if neither that nor any error, failed otherwise; an error text exactly with failed, a deadline its own; nothing else changes |
| DispatchOutcomes.VerdictIsRight | v2/cmd/agw-runner/dispatch.go:416-446 | the same in every reachable state in terms of the run: its cancel request, the last frame of its stream, its exit |
| DispatchOutcomes.FailureIsNamed | v2/cmd/agw-runner/dispatch.go:485-495 | which cause names a failure when several are joined |
| DispatchOutcomes.UnwrittenVerdictIsLost | v2/cmd/agw-runner/dispatch.go:437-445 | after three failed attempts memory says lost, whatever reached the disk |
| DispatchOutcomes.TakenFrameShows | v2/cmd/agw-runner/dispatch.go:380-414 | a frame that is taken moves approval, state, output and history exactly as its kind says, and nothing else |
| DispatchOutcomes.FrameLeaves | v2/cmd/agw-runner/dispatch.go:380-414 | a frame that does not belong or cannot be stored changes nothing, one without the payload its kind needs enters the history in memory only, every other one is written as memory says |
| DispatchOutcomes.StreamedFrameShows | v2/cmd/agw-runner/dispatch.go:380-414 | in every reachable state an approval request handed on by a stream makes the task wait for that approval, and a completed run leaves its artifact |
| DispatchOutcomes.ScheduleRecords | v2/cmd/agw-runner/dispatch.go:148-188 | in every reachable running state a new key can be scheduled and is recorded in memory and on disk with request, owner and next token |
| DispatchOutcomes.StartsExactly | v2/cmd/agw-runner/dispatch.go:326-345 | a task can be started if and only if it is scheduled, and its running state is on disk before the run exists |
| DispatchOutcomes.CancelTakesEffectExactly | v2/cmd/agw-runner/dispatch.go:190-218 | a cancel takes effect if and only if there is no verdict yet; it marks the record and tells the run |
| DispatchOutcomes.ResumeIsTakenExactly | v2/cmd/agw-runner/dispatch.go:220-273 | a resume gets a number if and only if the task runs or waits, its sandbox listens, and its key is new or repeats an unsent command |
| DispatchOutcomes.ConfirmRecords | v2/cmd/agw-runner/dispatch.go:287-300 | a delivered command is recorded as sent, it alone, and the call is over |
| DispatchOutcomes.KeysTellTasksApart | v2/cmd/agw-runner/dispatch.go:913-915 | for identifiers without NUL two requests are one task if and only if organization, project and idempotency key agree |
| DispatchOutcomes.NulMergesTasks | v2/cmd/agw-runner/dispatch.go:913-915 | with a NUL inside an identifier two projects share a task |
| DispatchInvariant.ObserveEffect | v2/cmd/agw-runner/dispatch.go:380-414 | an observation changes neither the request nor the commands, and takes the output of a completed frame over exactly |
| DispatchInvariant.FinishOutcome | v2/cmd/agw-runner/dispatch.go:416-446 | after finishing, memory and disk hold the verdict, or memory says lost and the disk holds the old record, the verdict or lost |
| DispatchInvariant.AttemptsWriteOneRecord | v2/cmd/agw-runner/dispatch.go:437-443 | repeated attempts leave the old record or the new one and never a third |
| DispatchInvariant.NoErrorIsEarned | v2/cmd/agw-runner/main.go:431-499 | a run that ends without error and without a cancel has earned success with the output stored for it |
| DispatchSafety.StepKeepsCell | v2/cmd/agw-runner/dispatch.go:148-446 | every step of every party keeps the invariant of a task |
| DispatchSafety.CrashKeepsCell | v2/cmd/agw-runner/dispatch.go:529-571 | losing memory and goroutines at any point keeps the invariant of the disk |
| DispatchSafety.LoadKeepsCell | v2/cmd/agw-runner/dispatch.go:529-571 | loading re-establishes the full invariant from the disk alone |
| DispatchTheorems.MoveKeepsInv | v2/cmd/agw-runner/dispatch.go:148-630 | every move of the machine, with crashes, loads and loads that fail half-way, keeps the invariant of all tasks and of the fencing tokens |
| DispatchTheorems.StepKeepsFence | v2/cmd/agw-runner/dispatch.go:148-188 | a step never changes the token of a stored task and a new token is the one just drawn |
| DispatchTheorems.ReachableInv | v2/cmd/agw-runner/dispatch.go:127-630 | the invariant holds in every state reachable from an empty directory |
| DispatchRuns.RunFollowsCell | v2/cmd/agw-runner/dispatch.go:148-630 | along every run bookkeeping only grows: issued numbers, sent frames, first accepted request, final success and lasting cancels are kept |
| DispatchGuarantees.AtMostOneLaunch | v2/cmd/agw-runner/dispatch.go:326-345 | no run, with any crashes and failed writes, launches one key twice |
| DispatchGuarantees.SuccessIsEarned | v2/cmd/agw-runner/main.go:431-585 | whatever says succeeded, in memory or on disk, belongs to one run whose last frame was a completed one with exactly that artifact, with a clean exit and no cancel requested |
| DispatchGuarantees.SuccessIsFinal | v2/cmd/agw-runner/dispatch.go:405-446 | a success on disk that memory agrees with, or that is there while the process is down, keeps state and output over every further run |
| DispatchGuarantees.AnsweredIsFinal | v2/cmd/agw-runner/dispatch.go:416-446 | a task that answers succeeded meets that condition |
| DispatchGuarantees.StoredSuccessIsFinalExactly | v2/cmd/agw-runner/dispatch.go:289-446 | a success on disk stays there with its output over every run if and only if the process is down, memory says succeeded, or no resume call is between its two sections |
| DispatchGuarantees.ExposedIsLost | v2/cmd/agw-runner/dispatch.go:289-300 | in every other reachable state a run takes it away |
| DispatchLostSuccess.StoredSuccessCanBeLost | v2/cmd/agw-runner/dispatch.go:289-446 | such a state is reachable from an empty directory, and the success is lost |
| DispatchGuarantees.CancelIsNeverOvertaken | v2/cmd/agw-runner/dispatch.go:190-218 | after a cancel the task is never succeeded or failed as long as the process lives, even if the write failed |
| DispatchGuarantees.CancelSurvivesRestarts | v2/cmd/agw-runner/dispatch.go:190-218 | every cancel that is not forgettable holds through any crashes and reloads |
| DispatchGuarantees.ForgettableIsForgotten | v2/cmd/agw-runner/dispatch.go:208-212 | every forgettable cancel is undone by the next crash and reload |
| DispatchGuarantees.ReloadSucceeds | v2/cmd/agw-runner/dispatch.go:529-571 | a restart never refuses a directory the runner wrote and reads every history back unchanged |
| DispatchGuarantees.Restart | v2/cmd/agw-runner/dispatch.go:529-571 | from every reachable running state a crash and a successful load are possible |
| DispatchGuarantees.CommandsAreDense | v2/cmd/agw-runner/dispatch.go:220-300 | command numbers are dense from 2 and injective in every reachable state, in memory and on disk |
| DispatchGuarantees.CallsFindTheirCommand | v2/cmd/agw-runner/dispatch.go:287-300 | every resume call under way finds its command on record, with the number and digest it was issued |
| DispatchGuarantees.KeyStaysBound | v2/cmd/agw-runner/dispatch.go:220-300 | an issued key keeps its number and its command for good |
| DispatchGuarantees.SameNumberSameFrame | v2/cmd/agw-runner/dispatch.go:220-300 | two frames ever sent with one number are identical |
| DispatchGuarantees.RecordedCommandIsSilent | v2/cmd/agw-runner/dispatch.go:248-257 | after a key is recorded as sent, no later resume with it ever reaches the sending step |
| DispatchGuarantees.FencesAreUnique | v2/cmd/agw-runner/dispatch.go:148-188 | stored tokens differ, and memory and disk agree on them |
| DispatchGuarantees.NewTokenIsHighest | v2/cmd/agw-runner/dispatch.go:148-188 | every new token exceeds the token of every stored task, also for a key without a file and for an older record of the same key |
| DispatchGuarantees.ScheduleIsIdempotent | v2/cmd/agw-runner/dispatch.go:148-188 | after one success, every later success for that key comes from the same owner with equal input, and never creates a record |
| DispatchGuarantees.StoredHistoriesAreSafe | v2/cmd/agw-runner/dispatch.go:682-751 | every history in memory or on disk is ordered, has at most 256 events and 896 KiB, and is clean of secrets |
| BrokerSessions.Activities.CreateSession | v2/pkg/brokerdispatch/dispatch.go:191-280 | whichever step fails, what stays behind is exactly what an undoing call refused to give back |
| BrokerSessions.Activities.Enter | v2/pkg/brokerdispatch/dispatch.go:97-120 | closed, mismatched and unbrokered requests change nothing; an identity gets its existing record or one new one |
| BrokerSessions.EnterAnswers | v2/pkg/brokerdispatch/dispatch.go:97-121 | a request is refused, sent past the broker, failed, or given its bound or a fresh session, each exactly when; a fresh session is bound, live and has all three resources |
| BrokerSessions.Activities.CleanupRecord | v2/pkg/brokerdispatch/dispatch.go:294-333 | a live record gives back its three resources in order and leaves both maps; a closed one is left alone; the answer says whether all went well |
| BrokerMachine.ForgetIsTidy | v2/pkg/brokerdispatch/dispatch.go:323-328 | deleting by key keeps both maps exact, so the entries deleted are the record's own |
| BrokerMachine.CreateIsAccounted | v2/pkg/brokerdispatch/dispatch.go:191-280 | creation, complete or broken off anywhere, leaves every live resource owned or refused |
| BrokerMachine.StepKeepsLocks | v2/pkg/brokerdispatch/dispatch.go:122-152 | a record lock has one holder, and a record is half closed only under its lock |
| BrokerMachine.MoveKeepsClosedList | v2/pkg/brokerdispatch/dispatch.go:398-422 | after Close every record that is left is still on the list of the closing call |
| BrokerMachine.MoveKeepsInv | v2/pkg/brokerdispatch/dispatch.go:87-333 | every step of every call keeps locks, maps, resources, the closing list and the dispatch log consistent |
| BrokerMachine.ReachableInv | v2/pkg/brokerdispatch/dispatch.go:87-422 | the invariant holds after every interleaving |
| BrokerGuarantees.SessionsAreConserved | v2/pkg/brokerdispatch/dispatch.go:87-333 | between calls the live resources are exactly those of the bound records and those refused, never both; identities do not share records; the task map agrees with the identity map |
| BrokerGuarantees.NothingLeaks | v2/pkg/brokerdispatch/dispatch.go:191-333 | if nothing is ever refused, the live resources between calls are exactly those of the bound records |
| BrokerGuarantees.CloseReleasesEverything | v2/pkg/brokerdispatch/dispatch.go:398-422 | once Close has returned both maps are empty and only refused resources are live, even with other calls still under way |
| BrokerGuarantees.TeardownIsOrdered | v2/pkg/brokerdispatch/dispatch.go:291-322 | at every moment a listener that is up has its session and directory, and a session has its directory, except for what was refused |
| BrokerGuarantees.ForgetsOnlyItself | v2/pkg/brokerdispatch/dispatch.go:323-328 | a cleanup never removes an entry of another record |
| BrokerGuarantees.BindingLasts | v2/pkg/brokerdispatch/dispatch.go:102-119 | from creation to cleanup an identity stays bound to its record with the same fingerprint, over every run |
| BrokerGuarantees.MismatchChangesNothing | v2/pkg/brokerdispatch/dispatch.go:102-107 | until a record is cleaned up a request with another fingerprint is refused and changes nothing, whatever came in between |
| BrokerGuarantees.CallCarriesBoundSession | v2/pkg/brokerdispatch/dispatch.go:122-138 | a dispatch carries the session its identity is bound to at that moment |
| BrokerGuarantees.DispatchesShareSession | v2/pkg/brokerdispatch/dispatch.go:122-145 | from creation to cleanup all brokered dispatches of an identity carry one session and fingerprint, the brokered network and no direct internet |
| BrokerGuarantees.NothingSlipsPast | v2/pkg/brokerdispatch/dispatch.go:107-138 | over every run whatever reaches the inner runner was asked for without a broker or carries the session of its record, the brokered network and no direct internet |
| BrokerGuarantees.BrokeredIsDispatched | v2/pkg/brokerdispatch/dispatch.go:111-138 | a first brokered request to an open broker gets a fresh session and is dispatched with it |
| BrokerGuarantees.AnswerRegisters | v2/pkg/brokerdispatch/dispatch.go:139-151 | an answer makes the task known, and when a call with a terminal answer returns its session is gone |
| BrokerGuarantees.CancelCleansUp | v2/pkg/brokerdispatch/dispatch.go:154-189 | a known task is found by cancel and status, and when that call returns its session is gone, whatever runs beside it |
| BrokerGuarantees.OwedIsCleaned | v2/pkg/brokerdispatch/dispatch.go:294-333 | no call returns before every record it has to clean up is gone |
| BrokerGuarantees.SomeCallMoves | v2/pkg/brokerdispatch/dispatch.go:87-422 | no deadlock: while a call is under way some call can take a step |
| BrokerGuarantees.CallsEnd | v2/pkg/brokerdispatch/dispatch.go:87-422 | without new calls every schedule of steps ends within a bound fixed at the start |
| BrokerGuarantees.CallsCanReturn | v2/pkg/brokerdispatch/dispatch.go:87-422 | from every reachable state all calls under way can return |
| Retention.Disk.RunCleanup | agents_gateway/harness/cleanup.py:153-215 | the report and the unlinked files of one pass; a dry run reports the same and leaves the disk alone |
| Retention.Disk.ByCap | agents_gateway/harness/cleanup.py:185-190 | the eviction loop takes the prefix the specification says |
| Retention.Disk.DeleteEach | agents_gateway/harness/cleanup.py:194-210 | what is listed, skipped, counted as freed and unlinked |
| Retention.TakeIsLeast | agents_gateway/harness/cleanup.py:185-190 | the eviction takes the shortest prefix that meets the cap, or everything |
| Retention.CapTakesOldest | agents_gateway/harness/cleanup.py:178-190 | the creation text of what is taken comes before that of what is left in dictionary order, and with one row fewer the cap would be exceeded |
| Retention.SortIsStable | agents_gateway/harness/cleanup.py:180-184 | rows with equal keys stay in the order in which they are stored |
| Retention.TextLeIsDictionary | agents_gateway/harness/cleanup.py:180-184 | the order of the sort is dictionary order: a beginning comes first, otherwise the first difference decides |
| Retention.ListedExactly | agents_gateway/harness/cleanup.py:164-210 | a stored row is listed if and only if its time is at or before the cutoff or the cap took it, and no active session of its run is found |
| Retention.ActiveExactly | agents_gateway/harness/cleanup.py:224-241 | a run is active exactly if a session of the task of its newest worktree row has one of five statuses |
| Retention.ReportIsByTime | agents_gateway/harness/cleanup.py:192-206 | the report lists deletions by creation time |
| Retention.UnlinksExactly | agents_gateway/harness/cleanup.py:209-210 | a live pass removes the files of the listed rows and touches no other |
| Retention.TotalCounts | agents_gateway/harness/cleanup.py:160-161 | totals add up file sizes, and a missing file counts nothing |
| Retention.ListedOnce | agents_gateway/harness/cleanup.py:164-210 | no row is listed more often than stored; a row is listed exactly if it is aged or taken and its run is not active |
| Retention.RowsSplit | agents_gateway/harness/cleanup.py:153-208 | the bytes freed and the bytes of the rows not listed add up to the total |
| Retention.ByteBound | agents_gateway/harness/cleanup.py:153-208 | the rows not listed hold at most the cap plus what was skipped as active |
| Retention.TakesNoMore | agents_gateway/harness/cleanup.py:178-190 | with smaller files the cap takes no row it did not take before |
| Retention.SecondPassFreesNothing | agents_gateway/harness/cleanup.py:159-215 | a second live pass with the same clock, rows and sessions frees zero bytes, also if chosen rows were skipped as active or share a file |
| Retention.OwnedIsSpared | agents_gateway/harness/cleanup.py:224-241 | an artifact of an active session is spared whenever the worktree of its run leads back to the task of the session |
| Retention.OwnedIsListedExactly | agents_gateway/harness/cleanup.py:224-241 | an aged or taken artifact of an active session is listed if and only if that session is not found by way of the newest worktree row of the run |
| Retention.NoWorktreeNoProtection | agents_gateway/harness/cleanup.py:232-241 | such an artifact: its session runs, its run has no worktree row, and it is listed |
| Verification.RunOne | agents_gateway/harness/verification.py:208-339 | blocked exactly behind a shut credential gate, passed exactly if the process ran and exited with zero; the exit codes of commands that are missing, time out or crash |
| Verification.Run | agents_gateway/harness/verification.py:71-141 | although it stops early, the run gets the status that the whole list deserves regardless of order; a passed run has a result for every command |
| Verification.RunVerification | agents_gateway/harness/runtime.py:666-704 | passed if and only if every required command of the specification ran and exited with zero and so did a required live command with all its variables; blocked if and only if such a variable is missing |
| Verification.VerdictOfSpec | agents_gateway/harness/runtime.py:666-704 | the same for the order-free reference |
| Verification.ConfiguredIsSpec | agents_gateway/harness/runtime.py:671-690 | the commands that are run are those of the specification, with text and requirement, in order, and the live one last |
| Verification.PassedIsSound | agents_gateway/harness/verification.py:125-130 | passed if and only if no command was blocked and every required one exited with zero |
| Verification.PassedExecutesAll | agents_gateway/harness/verification.py:110-130 | a passed run executed every command exactly if every optional one could run |
| Verification.OptionalMayBeSkipped | agents_gateway/harness/verification.py:223-231 | an optional command that does not parse is never executed and the run passes |
| CompletionProtocol.MoveKeepsInv | agents_gateway/harness/runtime.py:389-479 | every read and save of every party keeps: a stored or remembered completion has a sound run behind it |
| CompletionProtocol.CompletionIsEarned | agents_gateway/harness/runtime.py:389-479 | over every run, each save of completed comes after a run in which every command was tried, none was blocked and every required one exited with zero |
| CompletionProtocol.SpecIsMetBeforeCompletion | agents_gateway/harness/runtime.py:389-479 | over every run, each save of completed comes after a run that met the specification of the task |
| CompletionProtocol.StoredCompletionIsEarned | agents_gateway/harness/driver.py:443-447 | a session that is stored as completed has such a run behind it |
| CompletionProtocol.DriveIsBounded | agents_gateway/harness/runtime.py:404-417 | since it was last entered the drive loop has performed at most the configured number of verifications |
| CompletionProtocol.SurvivesExactly | agents_gateway/harness/driver.py:317-484 | in every reachable state, also after outside saves, a completed session stays completed over all further runs without outside saves if and only if no supervisor holds an object of it and the drive loop is over, about to look again, or has read a status at which it ends |
| CompletionProtocol.QuietSurvivesExactly | agents_gateway/harness/supervisor.py:94-173 | after a run without outside saves, whatever the number of supervisors, it does so if and only if no supervisor holds an object of it |
| CompletionProtocol.QuietKeepsExclusive | agents_gateway/harness/supervisor.py:94-173 | with one supervisor and no outside saves the supervisor holds no object of a session under verification, and a verifying drive has the status to itself |
| CompletionProtocol.SoleSupervisorIsFinal | agents_gateway/harness/driver.py:443-447 | with one supervisor and no outside saves every completed session stays completed, with supervisor turns, resumed drives and restarts |
| CompletionProtocol.StopKeepsVerdicts | agents_gateway/harness/driver.py:472-484 | stopping a session saves cancelled unless its object says completed or failed |
| CompletionProtocol.StaleReplyReopens | agents_gateway/harness/driver.py:347-371 | a reply that read the session before its completion puts it back to running |
| CompletionProtocol.OtherSupervisorReopens | agents_gateway/harness/driver.py:317-320 | the capture of a second supervisor that read the session as running puts it back to running, without any outside save |
| CompletionProtocol.LateTurnReopens | agents_gateway/harness/driver.py:317-320 | after an earlier outside save the only supervisor does the same |
| HarnessRuntime.Harness.ProcessSession | agents_gateway/harness/supervisor.py:122-173 | a turn of the supervisor, with both capture saves, is a run of the protocol, leaves no busy mark and leaves the status its claim calls for |
| HarnessRuntime.Harness.Conclude | agents_gateway/harness/runtime.py:419-460 | one verification with its consequences, the log capture and the process id included, is a run of the protocol; the session is completed exactly if the specification was met, blocked exactly if a variable is missing |
| HarnessRuntime.Harness.DriveSession | agents_gateway/harness/runtime.py:389-479 | the loop ends at the latest in the round in which its deadline passes, is a run of the protocol, performs at most the configured number of verifications and leaves the session completed, failed, cancelled, blocked or stalled; a claim that is met completes it |
| HarnessRuntime.Harness.Act | agents_gateway/harness/runtime.py:402-479 | what one round does for each status, with and without the deadline and the limit |
| ArtifactKeys.SplitJoin | v2/pkg/artifact/store.go:104 | splitting undoes joining for segments without a slash |
| ArtifactKeys.SegmentExactly | v2/pkg/artifact/store.go:21 | which texts are segments, by character codes |
| ArtifactKeys.RandomIdExactly | v2/pkg/artifact/local.go:234-239 | the id is 32 lower-case hexadecimal digits |
| ArtifactKeys.KeyShape | v2/pkg/artifact/store.go:104 | a key is the prefix if there is one, organization, project, run and the leaf, in this order |
| ArtifactKeys.ScopeIsExact | v2/pkg/artifact/store.go:104-155 | for every configured prefix a stored key passes the scope check of exactly the organization, project and run it was stored for |
| ArtifactKeys.ValidateObjectKey | v2/pkg/artifact/local.go:211-244 | accepts exactly the keys made of at least three valid segments and a leaf of a random id and a valid name |
| ArtifactKeys.ValidIsClean | v2/pkg/artifact/local.go:215-218 | path cleaning leaves a key of valid segments alone |
| ArtifactKeys.StoredKeyAccepted | v2/pkg/artifact/local.go:211-244 | with a prefix of valid segments a stored key is accepted if and only if the name has at most 95 characters |

## Left out

- Power loss that undoes a renamed file after its directory could not be synced: a failed write is taken to have left the old or the new record for good.
- Time: lease expiry, deadlines, drain timeouts and the clock are inputs that may turn out either way.
- Hashing: task ids, file names, session fingerprints and command digests stand for what they are computed from, so no two inputs collide.
- Payload decoding and schemas of runtime frames: a frame carries what the decoders make of it.
- FailureCode: the error text of a failed task is reduced to six codes of the table in `executionFailureCode`.
- Dispatch without a state directory or without a backend: the persistent runner with a backend is modelled.
- HTTP, TLS, Unix sockets, sandbox backends, file descriptors and permissions: plumbing around the modelled sections.
- Broker task ids: the inner runner is taken to give each identity one stable task id, so the identity stands for it.
- Revocation of a broker session only affects the answer of a cleanup, and `Reconcile` works on directories of earlier processes; neither is part of the machine.
- Close and the two-lock calls of the broker as methods: they are steps of the machine, because their interleaving is what matters.
- Unbrokered schedule calls go to the inner runner unchanged and are not part of the dispatch log.
- The worktree pass of the cleanup, and files that cannot be unlinked: the first only adds a filter, the second would be freed again by the next pass.
- RunCleanup: unlinking always succeeds, and row ids are unique as the primary key demands.
- The deadline of the drive loop is the number of a round rather than a time, and what others do between its steps is the subject of the protocol, not of the method.
- The output classifier: its claim about a session is an arbitrary input.
- Git, reports, interactions and events around a completed session: they do not touch its status.
- Media types, staging and digests of stored artifacts: the key does not depend on them.
- The separate tests for `.` and `..` in an object key: they are implied by the test of the segments.
- The task storage and worker of the older gateway, the conductor, gateways to providers and the command line tools.
