# HisnOS verification

A Dafny model of the algorithms in HisnOS whose guarantees range over whole runs or over all inputs, with
proofs of those guarantees. Every module models one component; clocks, files, processes, the network and
the scheduler are parameters or nondeterministic steps.

| file | component |
|---|---|
| SearchText.dfy, SearchIndex.dfy | the search daemon's inverted index, against a plain scan of the live records |
| ActionHeap.dfy, PolicyEnforcer.dfy | the policy enforcer: a binary heap, submitters and one worker with a wake-up channel |
| History.dfy, Watchdog.dfy | the watchdog's restarts, circuit breaker and cool-down |
| CrashHistory.dfy | the supervisor's truncated crash list and the self-healer's ring of failures |
| Reals.dfy, Newton.dfy, Baseline.dfy | square root, running variance and anomaly score |
| Regression.dfy, LongTerm.dfy | least squares over a ring of 5-minute buckets |
| Decimal.dfy, Splitting.dfy, CpuList.dfy | kernel cpulists, parsed and printed character by character |
| Encodings.dfy, Json.dfy, EventStream.dfy | the update's event stream, from the server's lines to the client's items |
| PolicyLoop.dfy | the policy rules, the event bus, and the loop that consumes the events it emits |
| Transactions.dfy | the write-ahead `Apply` over a state file replaced by write, sync and rename, with crashes |
| Sessions.dfy | grouping of signals into attack sessions |
| ProcessTree.dfy | the process-tree search |
| GamingRestore.dfy | what a gaming session changes and puts back |

State that the code updates in place is a class with the same fields; its methods carry the code's loops and
are proved against functions or against a protocol of steps, and the guarantees are lemmas about those.
Ghost fields record what the code forgets: every event ever logged, every restart ever launched, every
sample since a reset.

Several of the code's comments promise more than the code does; the model follows the code:

- `AddFile` is documented as updating a record of the same path; it always adds a new one.
- "Locked" is documented as freezing the baseline; `Observe` updates the statistics in every phase.
- `IncreaseRiskScore` reads its amount as a floating-point number where the rule supplies an integer, so
  the amount is always the default of 10. Neither a raised score nor a failed vault lock emits an event, so
  the loop can go quiet while the lock is due: exactly when, outside safe mode and with the vault open, the
  last pass found a critical score, or found the lab running and raised the score to critical
  (`PolicyLoop.QuietPassLock`, `PolicyLoop.Daemon.RunUntilQuiet`, `PolicyLoop.RaisedRiskIsNotFollowedUp`).
- When `Restore` of the IRQ masks reports an error, the daemon calls `EmergencyRestore`; by then the saved
  masks are forgotten and the call writes nothing. Every saved mask ends as found or reset exactly when each
  could be written or already was (`GamingRestore.IrqOptimizer.RestoreOrReset`,
  `GamingRestore.FailedRestoreLeavesMask`).
- An empty saved autogroup value also means "none saved", so a session that starts with an empty value does
  not put it back; a kernel, which prints a number there, never shows one. An IRQ or governor that is listed
  twice is saved a second time as already changed. These are the only ways in which a session whose restoring
  writes work loses a setting (`GamingRestore.SessionTargetIsStart`, `GamingRestore.Daemon.Session`).
- `Update` gives version 1 to a state that has no version, after `Apply` has recorded the state without it.
  The newest commit record's after-image is on disk exactly when it has a version, in every run
  (`Transactions.NewestCommitIsOnDisk`, `Transactions.NewestRecordExplainsFile`,
  `Transactions.ClearedVersionIsUnexplained`).
- The client's items are declared as strings; the last one is an object (`EventStream.ClientYieldsWhatServerSent`).

Standards: the event stream follows section 9.2.5 of the WHATWG HTML Living Standard, the decoder section
8.1.1 of the WHATWG Encoding Standard, JSON text RFC 8259 (strings: section 7).

## Model

| member | source | states |
|---|---|---|
| SearchText.FieldsAreRuns | commandcenter/searchd/index/index.go:449-453 | the fields of a text are exactly its maximal runs of letters and digits |
| SearchText.Tokenise | commandcenter/searchd/index/index.go:449-467 | the tokens are exactly the lower-cased text's maximal runs of at least two bytes, each once |
| SearchText.TokensOfParts | commandcenter/searchd/index/index.go:449-467 | the tokens of two texts joined by a space are the tokens of either, if a space is not part of a word |
| SearchText.ContainsMeaning | commandcenter/searchd/index/index.go:246-259 | a text contains a part iff it is something, the part, and something |
| SearchText.BaseIsLastElement | commandcenter/searchd/index/index.go:133-141 | a file's name is the last element of its path, whatever slashes follow |
| SearchIndex.PackedTagIsRecovered | commandcenter/searchd/index/index.go:229-236 | for every number below 2^62 the two type bits, tested in the code's order, give the kind of record back |
| SearchIndex.CommandNumberIsRecovered | commandcenter/searchd/index/index.go:361-366 | clearing the command bit gives a command's number back |
| SearchIndex.RecencyWeight | commandcenter/searchd/index/index.go:470-477 | a weight between 0.1 and 1, and 1 for anything not in the past |
| SearchIndex.NewerWeighsMore | commandcenter/searchd/index/index.go:470-477 | a newer time never weighs less |
| SearchIndex.WeightByAge | commandcenter/searchd/index/index.go:470-477 | a month halves the weight; it is at its least from nine months on, and only then |
| SearchIndex.NewerFilesScoreHigher | commandcenter/searchd/index/index.go:281-320 | of two files alike in all but age the newer one scores higher, if it is less than nine months old |
| SearchIndex.CloserNamesScoreHigher | commandcenter/searchd/index/index.go:289-296 | the name bonus: an exact name beats a prefix, a prefix any other occurrence, an occurrence none |
| SearchIndex.CloserFilesScoreHigher | commandcenter/searchd/index/index.go:281-300 | the final score: a file with a closer name scores higher, unless the other has more shared tokens, is newer, or alone has the query in its path |
| SearchIndex.PathsCount | commandcenter/searchd/index/index.go:297-299 | the query in the path raises the score |
| SearchIndex.CloserCommandsScoreHigher | commandcenter/searchd/index/index.go:361-388 | a command with a closer name scores higher, unless the other has more shared tokens or alone has the query in its description |
| SearchIndex.DescriptionsCount | commandcenter/searchd/index/index.go:361-388 | the query in the description raises the score |
| SearchIndex.SevereEventsScoreHigher | commandcenter/searchd/index/index.go:321-358 | a critical event scores above a warning, a warning above any other, unless the other has more shared tokens, is newer, or alone has the query in its message |
| SearchIndex.SayingEventsScoreHigher | commandcenter/searchd/index/index.go:321-358 | the query in the message raises the score |
| SearchIndex.RecordTokensAreFieldTokens | commandcenter/searchd/index/index.go:120-197 | a record's tokens are exactly those of a file's name and path, an event's message, level, source and fields, a command's name, description and keywords |
| SearchIndex.SharedTokenIsFound | commandcenter/searchd/index/index.go:201-241 | a query that shares a token with one of these texts selects the record, with five points or more |
| SearchIndex.SubstringIsFound | commandcenter/searchd/index/index.go:244-267 | a query that occurs in a file's name or path, or in a command's name or description, selects the record, whatever the case |
| SearchIndex.Post | commandcenter/searchd/index/index.go:147-149 | an identifier is posted under every given word and nothing else changes; lists stay free of repeats |
| SearchIndex.PostTelemetry | commandcenter/searchd/index/index.go:190-197 | an event is posted under the tokens of its text and of every field value, and nothing else changes |
| SearchIndex.PostCommands | commandcenter/searchd/index/index.go:120-125 | every command is posted under exactly its tokens, among them every token of its name, its description and each keyword |
| SearchIndex.Credit | commandcenter/searchd/index/index.go:219-221 | one posting list adds five points to each listed identifier |
| SearchIndex.Candidates | commandcenter/searchd/index/index.go:217-222 | an identifier is a candidate iff it is posted under a query token, with five points for each such token |
| SearchIndex.InsertStep | commandcenter/searchd/index/index.go:271-273 | a swap of the insertion sort moves the unsorted place down by one |
| SearchIndex.Insert | commandcenter/searchd/index/index.go:271-273 | the inner loop extends the sorted part by one, each result staying with its record |
| SearchIndex.SortByScore | commandcenter/searchd/index/index.go:270-274 | the in-place sort gives a descending permutation, each result staying with its record |
| SearchIndex.Rank | commandcenter/searchd/index/index.go:269-274 | the sorted list names every record the plain scan selects, each once, by descending score |
| SearchIndex.SnapshotRoundTrip | commandcenter/searchd/index/index.go:405-446 | saving the file table in any order and loading it gives the same table |
| SearchIndex.DistinctRecordsAreKept | commandcenter/searchd/index/index.go:425-446 | a loaded snapshot without repeated identifiers keeps every record |
| SearchIndex.RingPush | commandcenter/searchd/index/index.go:184-188 | after one more event, the written slot belongs to it and all others to whom they did |
| SearchIndex.RingHolds | commandcenter/searchd/index/index.go:184-188 | each of the newest 10,000 events is in the slot of its number modulo the size, within the filled part |
| SearchIndex.Index.constructor | commandcenter/searchd/index/index.go:107-113 | an empty index is valid |
| SearchIndex.Index.InsertFile | commandcenter/searchd/index/index.go:145-149 | a record under a number nothing is posted under becomes live and is posted under exactly its tokens |
| SearchIndex.Index.AddFile | commandcenter/searchd/index/index.go:129-151 | a fresh identifier; the plain view gains exactly this record, whatever the path |
| SearchIndex.Index.RemoveFile | commandcenter/searchd/index/index.go:154-165 | one record of the path disappears if there is any; lingering postings keep the index valid |
| SearchIndex.Index.PushRing | commandcenter/searchd/index/index.go:184-188 | the ring holds exactly the newest 10,000 events after every push |
| SearchIndex.Index.AddTelemetry | commandcenter/searchd/index/index.go:168-198 | the plain view gains the event at its end; the index stays valid although an older event may be evicted |
| SearchIndex.Index.LoadCommands | commandcenter/searchd/index/index.go:116-126 | the command list becomes live, over any earlier one; the index stays valid iff no earlier posting names a new command under a word it does not have, and always at the first load |
| SearchIndex.Index.SaveSnapshot | commandcenter/searchd/index/index.go:405-411 | the saved list holds each file record once |
| SearchIndex.Index.LoadSnapshot | commandcenter/searchd/index/index.go:425-446 | the snapshot's files are live, over any others, and later identifiers are fresh; the index stays valid iff nothing is posted under a loaded identifier that its record does not have, and always over an index without files when no identifier is repeated |
| SearchIndex.Index.FindTelemetry | commandcenter/searchd/index/index.go:321-332 | the ring scan finds an event iff it has not been evicted |
| SearchIndex.Index.PostingsAreShared | commandcenter/searchd/index/index.go:217-222 | a live record is posted under exactly the query tokens it has |
| SearchIndex.Index.ScoreOne | commandcenter/searchd/index/index.go:281-388 | a candidate gets the plain scan's result, a dead one none |
| SearchIndex.Index.ScoreCandidates | commandcenter/searchd/index/index.go:225-241 | exactly the live candidates are scored, as the plain scan would |
| SearchIndex.Index.ScanFiles | commandcenter/searchd/index/index.go:244-255 | files that contain the query and were no candidates are added, once |
| SearchIndex.Index.ScanCommands | commandcenter/searchd/index/index.go:256-267 | commands that contain the query and were no candidates are added, once |
| SearchIndex.Index.Collect | commandcenter/searchd/index/index.go:209-267 | before ranking, the results are exactly those of a plain scan of the live records, each once, with the same score |
| SearchIndex.Index.Search | commandcenter/searchd/index/index.go:201-279 | the first `limit` of all selected records by descending score; nothing left out outscores anything returned; nothing for a blank query |
| ActionHeap.UpStep | core/runtime/policy_enforcer.go:92-99 | a swap upwards keeps heap order everywhere but above the moved action |
| ActionHeap.DownStep | core/runtime/policy_enforcer.go:92-99 | a swap downwards keeps heap order everywhere but below the moved action |
| ActionHeap.RootIsBest | core/runtime/policy_enforcer.go:92-98 | in a heap nothing must run before the root |
| ActionHeap.Up | core/runtime/policy_enforcer.go:141 | the sift restores heap order and keeps the queued actions |
| ActionHeap.Down | core/runtime/policy_enforcer.go:178 | the sift restores heap order, keeps the queued actions and leaves the rest of the array alone |
| ActionHeap.TakeRoot | core/runtime/policy_enforcer.go:178 | takes out a best action and leaves a heap of the others |
| ActionHeap.Heap.Append | core/runtime/policy_enforcer.go:100 | appends one action, in place or in a larger copy |
| ActionHeap.Heap.Push | core/runtime/policy_enforcer.go:100 | heap order is kept and exactly one action is added |
| ActionHeap.Heap.Pop | core/runtime/policy_enforcer.go:101-107 | heap order is kept and exactly one action leaves, one that nothing queued had to precede |
| PolicyEnforcer.StepKeepsConserved | core/runtime/policy_enforcer.go:138-185 | every step keeps submitted = queued + in flight + executed |
| PolicyEnforcer.StepKeepsInv | core/runtime/policy_enforcer.go:138-185 | every step of any interleaving keeps all invariants |
| PolicyEnforcer.RunKeepsInv | core/runtime/policy_enforcer.go:138-185 | they hold at every state of every run |
| PolicyEnforcer.NothingLostOrRepeated | core/runtime/policy_enforcer.go:138-185 | no lost wake-up: a queued action implies a pending signal, a submitter about to poke or a working worker; no action is queued, started or finished more than once |
| PolicyEnforcer.SubmittedWasStamped | core/runtime/policy_enforcer.go:138-142 | in every run every action comes from a submission with just its priority, and the time the clock then showed |
| PolicyEnforcer.StartsInRankOrder | core/runtime/policy_enforcer.go:89-107 | in every run, what is started after one submission's action was queued and before that one started was submitted with a higher priority, or with an equal one and no later |
| PolicyEnforcer.StepDoesWork | core/runtime/policy_enforcer.go:164-185 | every step but a new submission or cancellation decreases a measure |
| PolicyEnforcer.RunsEnd | core/runtime/policy_enforcer.go:164-185 | without new submissions a run has at most that many steps |
| PolicyEnforcer.SomeActionIsBest | core/runtime/policy_enforcer.go:92-98 | the order always has a best action, so draining never sticks |
| PolicyEnforcer.SomeStepIsEnabled | core/runtime/policy_enforcer.go:138-185 | while anything is unfinished some goroutine can move |
| PolicyEnforcer.QuietMeansAllExecuted | core/runtime/policy_enforcer.go:138-185 | when nothing can move, every submitted action was executed exactly once |
| PolicyEnforcer.PolicyEnforcer.constructor | core/runtime/policy_enforcer.go:125-134 | the enforcer starts in the initial state |
| PolicyEnforcer.PolicyEnforcer.ReadClock | core/runtime/policy_enforcer.go:139 | the action carries the given priority, the clock's time and a new number; this is the protocol's stamp step |
| PolicyEnforcer.PolicyEnforcer.PushLocked | core/runtime/policy_enforcer.go:140-142 | pushing on the real heap is the protocol's push step |
| PolicyEnforcer.PolicyEnforcer.PokeWorker | core/runtime/policy_enforcer.go:145-148 | the send that gives up on a full slot is the protocol's poke step |
| PolicyEnforcer.PolicyEnforcer.ReceiveSignal | core/runtime/policy_enforcer.go:170 | the receive empties the slot and starts draining |
| PolicyEnforcer.PolicyEnforcer.TakeLocked | core/runtime/policy_enforcer.go:173-179 | one turn under the lock takes a best action or finds none |
| PolicyEnforcer.PolicyEnforcer.FinishAction | core/runtime/policy_enforcer.go:181 | the end of an action is the protocol's finish step |
| History.CountRecent | core/runtime/watchdog.go:259-268 | the loop counts the stamps inside the window |
| History.CountIsSuffix | core/runtime/watchdog.go:259-268 | in a sorted history these are the last ones |
| History.CountOfTail | core/supervisor/supervisor.go:73-90 | a tail of k stamps counts as the whole history does, up to k |
| Watchdog.ErasureIsHarmless | core/runtime/watchdog.go:162-168 | the launches erased at cool-down are all too old to count |
| Watchdog.TickKeepsInv | core/runtime/watchdog.go:141-236 | one check keeps the history and circuit invariants |
| Watchdog.RunKeepsInv | core/runtime/watchdog.go:141-236 | they hold after every run with a non-decreasing clock |
| Watchdog.AtMostThreeLaunchesAMinute | core/runtime/watchdog.go:141-236 | any 60-second window of any run, its start excluded as in `countRecent`, holds at most three restart launches |
| Watchdog.FourLaunchesSpanAMinute | core/runtime/watchdog.go:141-236 | any four launches in a row of any run span at least 60 seconds |
| Watchdog.NoLaunchDuringCooldown | core/runtime/watchdog.go:141-236 | no restart is decided on less than five minutes after a trip of the circuit |
| Watchdog.CallsAfterATrip | core/runtime/watchdog.go:141-236 | a restart called during the cool-down of a trip was launched before the trip and is called within a minute of it |
| Watchdog.BackoffDoubles | core/runtime/watchdog.go:141-236 | in any run every launch waits five seconds, or twice as long as the one before, up to a minute |
| Watchdog.ChecksDecideByFullRecord | core/runtime/watchdog.go:141-236 | what a run of checks sets off is what its clock readings and heartbeats alone say, by the record of everything that ever happened: last heartbeat, misses and back-off are computed from the checks, not from the entry |
| Watchdog.LateMeansSilent | core/runtime/watchdog.go:170-172 | a check is late iff no heartbeat was found, and no registration made, within the allowance before it |
| Watchdog.SilenceSetsOff | core/runtime/watchdog.go:141-236 | a check launches or trips iff there has been such silence, there had been at the check before, and that one came outside any cool-down; it trips iff three launches of the whole record are recent |
| Watchdog.HeartbeatPreventsEvents | core/runtime/watchdog.go:148-180 | a check that finds a heartbeat sets nothing off |
| Watchdog.FirstCheckIsQuiet | core/runtime/watchdog.go:182-190 | nor does the first check |
| Watchdog.Subsystem.Beat | core/runtime/watchdog.go:62-67 | a heartbeat is pending afterwards, also when the channel was full |
| Watchdog.Subsystem.Refresh | core/runtime/watchdog.go:148-168 | the channel is drained, a waiting heartbeat becomes the last one, and an elapsed cool-down ends |
| Watchdog.Subsystem.Escalate | core/runtime/watchdog.go:170-235 | the entry and the events are those of the transition function |
| Watchdog.Subsystem.CheckOnce | core/runtime/watchdog.go:141-236 | the counters stay those of the whole run of checks |
| Watchdog.Watchdog.Register | core/runtime/watchdog.go:106-123 | a fresh entry replaces any of the same name |
| Watchdog.Watchdog.Tick | core/runtime/watchdog.go:141-236 | every registered subsystem is checked exactly once, with what its channel held; a waiting heartbeat means that nothing is set off |
| CrashHistory.TruncatedCountIsExact | core/supervisor/supervisor.go:73-90 | counting in the kept ten and the new crash gives min(true count, 11) |
| CrashHistory.ServiceEntry.RecordCrash | core/supervisor/supervisor.go:73-90 | returns min(true count in the window, 11) over any history |
| CrashHistory.ServiceEntry.CrashEscalates | core/supervisor/supervisor.go:224-257 | escalates iff more than three crashes of the whole history are recent |
| CrashHistory.RingCountIsExact | core/supervisor/self_healer.go:244-254 | counting over the ring gives min(true count, 16) |
| CrashHistory.RingAppend | core/supervisor/self_healer.go:237-240 | overwriting the oldest slot keeps the newest 16 failures |
| CrashHistory.DelaysDouble | core/supervisor/self_healer.go:46-51 | the first delay is one second, each further one twice the last, up to thirty |
| CrashHistory.DelaysNeverShrink | core/supervisor/self_healer.go:46-51 | delays never shrink and stay between one and thirty seconds |
| CrashHistory.SelfHealer.Register | core/supervisor/self_healer.go:93-102 | the service's failures, counted over everything the healer was told, start from none, and no other service's record changes |
| CrashHistory.SelfHealer.Reset | core/supervisor/self_healer.go:182-189 | the service's failures start from none again, also after it was given up; the time of its last failure and all other records stay |
| CrashHistory.SelfHealer.RecordFailure | core/supervisor/self_healer.go:237-240 | the ring stays the tail of all failures |
| CrashHistory.SelfHealer.DetectCorrelation | core/supervisor/self_healer.go:244-263 | reports the recently failed services iff three failures of the whole history are recent |
| CrashHistory.SelfHealer.NoteFailure | core/supervisor/self_healer.go:119-127 | the failure is counted, enters the ring, and is among those looked at for correlation |
| CrashHistory.SelfHealer.React | core/supervisor/self_healer.go:134-159 | after six attempts the service is disabled and the callback told; a correlation is handed over, else a restart follows after the back-off |
| CrashHistory.SelfHealer.RestartNotify | core/supervisor/self_healer.go:106-159 | gives up, telling the callback, exactly on the seventh failure since the service was registered or last started, and ignores it from then on; before, hands over when correlated, else restarts after the back-off |
| Newton.Root | core/automation/risk_predictor.go:194-203 | positive exactly for positive arguments |
| Newton.StepError | core/performance/helpers.go:107 | after a step the error of the square is the square of the correction |
| Newton.StepShrinks | core/performance/helpers.go:107 | from above the root a step stays above, does not grow and at least quarters the error |
| Newton.IterateIsClose | core/automation/risk_predictor.go:199-201 | after k steps the square lies between x and x + (x/4 - 1)^2 / 4^(k-1) |
| Newton.IteratesDecrease | core/automation/risk_predictor.go:199-201 | iterates stay positive and never increase after the first step |
| Newton.RootAccuracy | core/automation/risk_predictor.go:194-203 | x <= r^2 <= x + (x/4 - 1)^2 / 4^(steps-1) |
| Newton.IterateIsLarge | core/automation/risk_predictor.go:199-201 | after k steps an iterate exceeds 1/2^(k-1), however small the argument |
| Newton.SmallestRoot | core/automation/risk_predictor.go:194-203 | ten steps return more than 1/512 for every positive argument and zero for any other |
| Newton.PackageAccuracy | core/performance/helpers.go:101-110 | the same for ten and for sixteen steps, with 4^9 and 4^15 written out |
| Newton.SqrtApprox | core/automation/risk_predictor.go:194-203 | the loop computes that root |
| Baseline.MeanStepIsBatch | core/automation/baseline_engine.go:119-124 | one Welford step of the mean is the batch mean of one more sample |
| Baseline.M2StepIsBatch | core/automation/baseline_engine.go:119-124 | one Welford step of M2 is the batch sum of squared deviations of one more sample |
| Baseline.ShiftCentre | core/automation/baseline_engine.go:119-124 | what moving the centre changes in a sum of squared deviations |
| Baseline.NewestDeviation | core/automation/baseline_engine.go:119-124 | the newest sample's squared deviation is at most (n-1)/n of the whole sum |
| Baseline.ZBound | core/automation/baseline_engine.go:160-174 | every z-score the code uses satisfies z^2 n <= (n-1)^2 |
| Baseline.ScoreIsBounded | core/automation/baseline_engine.go:160-181 | the mean z^2 times n is at most (n-1)^2 and the square of the score at most that mean and the root's error; the score is at most 100 |
| Baseline.ZIsLargeEnough | core/automation/baseline_engine.go:167-174 | for a metric that varies, z^2 times the largest square of the variance's root is at least the squared deviation |
| Baseline.FarOutRaisesAlert | core/automation/baseline_engine.go:139-181 | a sample far enough out in one metric reaches the alert threshold |
| Baseline.UpdateAll | core/automation/baseline_engine.go:119-124 | the loop gives every metric its own Welford step |
| Baseline.OnlyConstantMetricsAreSkipped | core/automation/baseline_engine.go:167-171 | the guard against a small deviation skips a metric iff all its values were equal; a tiny positive variance is scored against the root's floor |
| Baseline.BaselineEngine.Reset | core/automation/baseline_engine.go:213-224 | back to learning with nothing seen |
| Baseline.BaselineEngine.Lock | core/automation/baseline_engine.go:191-199 | only an active baseline is locked; the statistics stay |
| Baseline.BaselineEngine.Unlock | core/automation/baseline_engine.go:202-210 | only a locked baseline is activated |
| Baseline.BaselineEngine.Accumulate | core/automation/baseline_engine.go:114-124 | the running statistics stay those of all samples since the reset |
| Baseline.BaselineEngine.AnomalyScore | core/automation/baseline_engine.go:160-181 | the score is the root mean square of the batch z-scores, at most 100 |
| Baseline.BaselineEngine.Observe | core/automation/baseline_engine.go:110-156 | the sample is folded in in every phase; scores and alerts start once learning is over |
| Regression.Accumulate | core/automation/longterm_projection.go:192-199 | the loop's sums are the sums over the points |
| Regression.ErrorOfMovedLine | core/automation/longterm_projection.go:191-204 | how a line's squared error changes when the line moves |
| Regression.NormalEquations | core/automation/longterm_projection.go:200-204 | the computed line's residuals cancel, plainly and weighted by x |
| Regression.SlopeMinimisesError | core/automation/longterm_projection.go:200-204 | when the denominator is not zero no line has a smaller squared error, for any number of points |
| Regression.DenominatorIsSpread | core/automation/longterm_projection.go:200 | n times the denominator is a sum of squares |
| Regression.DenominatorSign | core/automation/longterm_projection.go:200-204 | the denominator is never negative, and zero iff all x are equal |
| Regression.CollinearPointsAreRecovered | core/automation/longterm_projection.go:200-204 | points on one line, not all at one x, give that line |
| LongTerm.BucketStart | core/automation/longterm_projection.go:265-269 | a multiple of five minutes, and for times since 1970 the slot that holds the time |
| LongTerm.EarlySlotsAddNothing | core/automation/longterm_projection.go:163-171 | limiting the window to the ring's filled part loses no point |
| LongTerm.TrendIsLeastSquares | core/automation/longterm_projection.go:162-204 | the slope divides by a positive number iff an earlier slot of the window has data, and is then the best fit |
| LongTerm.SlotPointsAreAverages | core/automation/longterm_projection.go:173-184 | every slot with data has exactly one point, at minus five minutes a slot and at the average of its scores; no other slot has any |
| LongTerm.SteadyTrendIsExtrapolated | core/automation/longterm_projection.go:162-224 | when the slots' averages lie on a line over the minutes, its slope is returned and the projection is the line's value in 120 minutes, kept within 0 and 100 |
| LongTerm.EqualScoresStay | core/automation/longterm_projection.go:162-224 | when every score is the same, the slope is zero and the projection is that score |
| LongTerm.Fit | core/automation/longterm_projection.go:185-224 | the loop and the clamps compute the trend of the points |
| LongTerm.LongtermProjector.NextBucket | core/automation/longterm_projection.go:148-156 | a new empty bucket; every other lag still holds its slot's sum and count |
| LongTerm.LongtermProjector.AdvanceBuckets | core/automation/longterm_projection.go:146-157 | the loop ends and the clock's slot is current, across any gap; a clock that went back changes nothing |
| LongTerm.LongtermProjector.CollectPoints | core/automation/longterm_projection.go:173-184 | the collected points are those of the non-empty slots of the whole record (LongTerm.SlotPointsAreAverages says which) |
| LongTerm.LongtermProjector.ComputeTrend | core/automation/longterm_projection.go:162-224 | the trend of everything observed, whatever the ring has dropped |
| LongTerm.LongtermProjector.AddToCurrent | core/automation/longterm_projection.go:106-108 | the score is added to its slot and to no other |
| LongTerm.LongtermProjector.Observe | core/automation/longterm_projection.go:99-113 | the score is attributed to the clock's slot and the trend includes it; the projection does not go against the slope, momentum has its sign, and equal scores stay |
| LongTerm.LongtermProjector.CurrentTrend | core/automation/longterm_projection.go:116-124 | the trend with the current slot's average as the score |
| Splitting.Find | core/performance/helpers.go:65 | the separator occurs at the place found |
| Splitting.SplitConcat | dashboard/frontend/src/lib/api.ts:207-209 | splitting text that arrives in two pieces: only the last part of the first is split again |
| CpuList.AppendPart | core/performance/helpers.go:66-85 | one part's numbers, or its error |
| CpuList.ParseCPUList | core/performance/helpers.go:63-88 | the loop parses all parts in order and stops at the first bad one |
| CpuList.EntriesAreRead | core/performance/helpers.go:63-88 | any list of numbers, ranges and empty entries, with any space around entries, is read as it is meant; a range that ends before it starts means nothing |
| CpuList.OuterSpaceIsIgnored | core/performance/helpers.go:65 | space around the whole list makes no difference |
| CpuList.FirstBadPartFails | core/performance/helpers.go:66-85 | the first bad part's error is the result |
| CpuList.OddCharacterIsBad | core/performance/helpers.go:70-84 | a part with anything but digits and signs is bad |
| CpuList.FormatCPUList | core/performance/helpers.go:113-140 | the loop prints the maximal consecutive runs in order |
| CpuList.RunsExpand | core/performance/helpers.go:113-140 | the runs, written out, are the list |
| CpuList.ParseFormat | core/performance/helpers.go:63-140 | parsing what was printed gives the list back, for every list of non-negative numbers |
| CpuList.FormatParsed | core/performance/helpers.go:63-140 | printing any parsed list and parsing it again gives the same list |
| CpuList.RunsAreBreaks | core/performance/helpers.go:113-140 | there is one run more than there are breaks between consecutive numbers |
| CpuList.FormatUsesFewestParts | core/performance/helpers.go:113-140 | no text that parses to the same list has fewer parts |
| Decimal.ReadPrinted | core/performance/helpers.go:63-88 | reading a printed number gives it back, digit by digit |
| Encodings.DecodeConcat | dashboard/frontend/src/lib/api.ts:205 | decoding in two goes is decoding in one, also when a character is cut |
| Encodings.DecodeEncoded | dashboard/frontend/src/lib/api.ts:205 | the incremental decoder gives an encoded character back, for characters of one to four bytes |
| Encodings.DecodeEncodedText | dashboard/frontend/src/lib/api.ts:205 | the same for text, but for a byte order mark at the very start |
| Json.PieceIsRead | dashboard/backend/api/update.go:387-390 | each escape that is printed is read back as the character, an invalid byte as U+FFFD |
| Json.QuotedIsRead | dashboard/backend/api/update.go:387-390 | parsing a printed string gives its text back, for every string |
| Json.LiteralEndsAtQuote | dashboard/frontend/src/lib/api.ts:216 | what is left after a string literal is the text right after a quote |
| Json.IntegerIsRead | dashboard/backend/api/update.go:162 | a printed integer, negative or not, is read whole as a number |
| Json.PrintedIntegerValue | dashboard/backend/api/update.go:162 | the value of a printed integer is the integer, negative or not |
| EventStream.UpdatePrepare | dashboard/backend/api/update.go:128-163 | the bytes written: one message a line, then the exit code, or one error message if the update did not start |
| EventStream.QuoteIsOneLine | dashboard/backend/api/update.go:385-390 | a quoted line holds no newline, so no output can break the framing |
| EventStream.MoreText | dashboard/frontend/src/lib/api.ts:205-209 | more text finishes more messages and leaves the items so far alone |
| EventStream.BrokenStreamYieldsPrefix | dashboard/frontend/src/lib/api.ts:200-223 | a connection that breaks after any byte has yielded a prefix of what the whole stream yields |
| EventStream.LinesAreYielded | dashboard/frontend/src/lib/api.ts:211-222 | the items of a run of messages are their lines, in order |
| EventStream.AnyDataIsYielded | dashboard/frontend/src/lib/api.ts:211-222 | a data line is yielded as the value it denotes, or as it is when it is not JSON |
| EventStream.OtherLineIsSkipped | dashboard/frontend/src/lib/api.ts:211-213 | any other line yields nothing |
| EventStream.ClientYieldsWhatServerSent | dashboard/backend/api/update.go:138-163 | on the server's stream the items are exactly the emitted lines in order and then an object whose one field has the exit code's value, or the failure message |
| EventStream.ReadStream | dashboard/frontend/src/lib/api.ts:200-223 | the items depend only on the bytes, for every way of cutting them into chunks, and are what a server that sent them meant |
| PolicyLoop.PassIsEffect | core/main.go:453-522 | running a snapshot's recommended actions one after another has the summary effect on the state and emits the summary's events, in order |
| PolicyLoop.PassEmits | core/main.go:482-506 | the vault is reported locked iff it was locked, safe mode entered once for each dead guardian, safe mode left iff it was left; nothing else is emitted |
| PolicyLoop.EventsTellState | core/main.go:482-506 | the vault and safe mode afterwards are as the events say |
| PolicyLoop.RecommendedMeaning | core/policy/policy.go:47-140 | when each of the actions is recommended, the strict firewall, the rejections and the restart of the subsystem included |
| PolicyLoop.PassUsesPending | core/main.go:453-522 | every event a pass emits uses up a pending lock, entry or exit |
| PolicyLoop.SettledMeaning | core/policy/policy.go:47-140 | safe mode is neither recommended nor to be left iff it is on exactly when a guardian is dead, or kept on by critical risk |
| PolicyLoop.QuietPassSettles | core/main.go:453-522 | a pass that emits nothing leaves such a state |
| PolicyLoop.LockDueMeaning | core/policy/policy.go:47-140 | the vault lock is recommended iff the vault is open outside safe mode at a critical score |
| PolicyLoop.QuietPassLock | core/main.go:453-522 | a pass that emits nothing leaves the lock due iff, outside safe mode with the vault open, it found a critical score or raised the score to one |
| PolicyLoop.OfferAllGrows | core/eventbus/eventbus.go:84-103 | a bounded buffer grows by at most what is offered and, if there is room, by something |
| PolicyLoop.BufferHoldsFirstMatches | core/eventbus/eventbus.go:74-103 | a subscriber that does not read holds what it had and then the first events its filter lets through, as many as fit |
| PolicyLoop.SubscriberHears | core/eventbus/eventbus.go:84-103 | a subscriber to one event gets it from a pass as often as it was due, and nothing else |
| PolicyLoop.Bus.Publish | core/eventbus/eventbus.go:84-103 | every matching subscriber with room gets the event, no other buffer changes |
| PolicyLoop.Daemon.DispatchLegacyAction | core/main.go:482-522 | the state and all buffers change as the action says, a failed vault lock changes nothing |
| PolicyLoop.Daemon.RunActions | core/main.go:472-477 | the inner loop runs the actions in order |
| PolicyLoop.Daemon.Pass | core/main.go:466-478 | one event is consumed and the whole snapshot is acted on; every subscriber to one event hears it as often as it was due |
| PolicyLoop.Daemon.RunUntilQuiet | core/main.go:453-480 | from any state, with k buffered events, the loop waits after at most k+3 passes, whether or not locking works; after a pass, safe mode is settled and the vault lock is due iff the state before the last pass says so |
| PolicyLoop.RaisedRiskIsNotFollowedUp | core/main.go:507-519 | a concrete instance: locking works, and the loop goes quiet although the vault should now be locked |
| Transactions.RunKeepsDisk | core/state/state.go:171-205 | at every state of every run the file that is about to be renamed over the state file is whole and synced |
| Transactions.StateFileIsNeverTorn | core/state/state.go:171-205 | whatever fails and wherever crashes fall, no run tears the state file, although a crash tears what is not synced |
| Transactions.StepKeepsCommit | core/runtime/transaction_manager.go:182-227 | every step, a crash or a failed replacement included, keeps a newest commit in agreement with the file, for every mutation |
| Transactions.StepKeepsInStep | core/runtime/transaction_manager.go:182-227 | every step but a failed replacement keeps file, journal and memory in step, for every mutation |
| Transactions.RunKeepsCommit | core/runtime/transaction_manager.go:182-227 | the former at every state of every run |
| Transactions.RunKeepsInStep | core/runtime/transaction_manager.go:182-227 | the latter at every state of every run whose only faults of the state file are crashes |
| Transactions.NewestRecordExplainsFile | core/runtime/transaction_manager.go:182-227 | at every state of such a run the file is the newest record's before- or after-image iff the after-image has a version or the file has not moved on |
| Transactions.NewestCommitIsOnDisk | core/state/state.go:141-150 | in every run a newest commit's after-image is on disk iff it has a version |
| Transactions.CommittedWasReached | core/runtime/transaction_manager.go:220-226 | in every run every commit record means that the file once was its after-image, with a version |
| Transactions.NoChangeWithoutIntent | core/runtime/transaction_manager.go:208-218 | in every run whatever changes the file is the change of the newest record, an intent |
| Transactions.CommitsFollowIntents | core/runtime/transaction_manager.go:198-224 | in every run every commit stands right behind its own intent, with the same images, and no transaction has other records |
| Transactions.CrashIsAllOrNothing | core/state/state.go:153-205 | after a crash at any step of write, sync and rename the next start finds where the interrupted `Apply` started or where it led |
| Transactions.ClearedVersionIsUnexplained | core/state/state.go:141-150 | a concrete run in which a committed record does not explain the file |
| Transactions.TransactionManager.constructor | core/state/state.go:121-129 | the memory is what the state file says, or the defaults; over any earlier state of the disk this is the protocol's crash step |
| Transactions.TransactionManager.Persist | core/state/state.go:171-205 | the file operations, up to the one that fails, are steps of the protocol; the file is replaced by the memory or untouched |
| Transactions.TransactionManager.Update | core/state/state.go:141-150 | the memory is mutated and versioned; the file is replaced by it or untouched |
| Transactions.TransactionManager.Apply | core/runtime/transaction_manager.go:182-227 | its writes are, in this order, the steps of a run of the protocol; a failed intent leaves file, journal and memory as they were |
| Sessions.CutKeepsStream | core/automation/temporal_cluster.go:83-121 | the sessions, end to end, are the ingested signals in order |
| Sessions.CutIsWellCut | core/automation/temporal_cluster.go:195-241 | a new session starts exactly when the gap exceeds two minutes or the age ten |
| Sessions.SessionsInSeconds | core/automation/temporal_cluster.go:195-241 | within a session signals are at most 120 seconds apart and 600 from the first; the next session starts beyond one of the two |
| Sessions.RiskOfEqualScores | core/automation/temporal_cluster.go:176-191 | signals of one score have that risk, and five more for each if the score is 70 or more, at most 100 |
| Sessions.AttackSession.Append | core/automation/temporal_cluster.go:107-114 | a session's kinds, escalations and risk stay those of its signals |
| Sessions.ComputeRisk | core/automation/temporal_cluster.go:176-191 | the mean score plus five a strong signal, at most 100 |
| Sessions.TemporalClusterTracker.CloseStale | core/automation/temporal_cluster.go:216-241 | exactly the expired sessions are closed and nothing else changes |
| Sessions.TemporalClusterTracker.FindOpen | core/automation/temporal_cluster.go:195-212 | finds the last session iff it could take a signal |
| Sessions.TemporalClusterTracker.Place | core/automation/temporal_cluster.go:83-121 | the signal extends the last session or starts a new one, as the cut says |
| Sessions.TemporalClusterTracker.Ingest | core/automation/temporal_cluster.go:83-121 | the sessions are the cut of everything ingested; the number returned is the last session's |
| Sessions.TemporalClusterTracker.HotSessions | core/automation/temporal_cluster.go:124-135 | the cut is unchanged; the last session is reported iff it is open, of two kinds or more and of high risk |
| Sessions.TemporalClusterTracker.Status | core/automation/temporal_cluster.go:138-156 | the cut is unchanged; at most one session counts as open |
| ProcessTree.ClosedHoldsPath | gaming/hispowerd/detect/detector.go:352-375 | a set closed under listed children holds everything that descends from its members |
| ProcessTree.FindGameProcesses | gaming/hispowerd/detect/detector.go:352-375 | ends on cyclic links and returns, without repeats, exactly the given process and its listed descendants |
| GamingRestore.TargetIsStart | gaming/hispowerd/irq/affinity.go:55-104 | writing back what was saved gives the settings as found iff no accessible setting is listed twice with another value than its new one |
| GamingRestore.IrqOptimizer.Apply | gaming/hispowerd/irq/affinity.go:55-104 | every listed mask that can be accessed is set, no other; the last value saved for each is as found, unless it is listed twice; an error means nothing changed |
| GamingRestore.IrqOptimizer.Restore | gaming/hispowerd/irq/affinity.go:108-123 | every saved mask whose write works is put back, every other mask stays; an error iff some write fails |
| GamingRestore.IrqOptimizer.EmergencyRestore | gaming/hispowerd/irq/affinity.go:127-134 | exactly the saved masks that can be written become all-CPUs |
| GamingRestore.IrqOptimizer.RestoreOrReset | gaming/hispowerd/main.go:326-333 | a mask whose restore fails keeps its gaming value; all saved masks end as found or reset iff each can be written or already was |
| GamingRestore.FailedRestoreLeavesMask | gaming/hispowerd/main.go:326-333 | a concrete session after which a mask is neither as found nor reset |
| GamingRestore.Tuner.ApplyGovernor | gaming/hispowerd/tuning/tuning.go:130-155 | exactly the accessible governors before the first refusal are set, and saved as found unless listed twice |
| GamingRestore.Tuner.SetGovernors | gaming/hispowerd/tuning/tuning.go:136-151 | the loop goes through all governors or to the first that refuses, skipping those it cannot read or write |
| GamingRestore.Tuner.ApplyAutogroup | gaming/hispowerd/tuning/tuning.go:157-175 | the switch is set and saved iff it can be read and written |
| GamingRestore.Tuner.Apply | gaming/hispowerd/tuning/tuning.go:63-85 | the governors reached and the switch are set; what is saved turns the settings back into those found, but for repeats and an empty autogroup switch |
| GamingRestore.Tuner.Restore | gaming/hispowerd/tuning/tuning.go:88-110 | everything saved whose write works is put back, and everything else stays |
| GamingRestore.SessionTargetIsStart | gaming/hispowerd/main.go:183-367 | what a session leaves is what it found iff no accessible setting is listed twice with another value than its new one and the autogroup switch is not an empty one that can be set |
| GamingRestore.Daemon.StartGaming | gaming/hispowerd/main.go:183-239 | whatever fails, every accessible listed mask, governor before a refusal and the autogroup switch have their gaming values and nothing else has changed; what stopping will leave is fixed |
| GamingRestore.Daemon.StopGaming | gaming/hispowerd/main.go:288-367 | every setting whose restoring write works is what the session leaves, and every other stays as it was |
| GamingRestore.Daemon.Session | gaming/hispowerd/main.go:183-367 | start and stop on any listing and with any faults of the start leave exactly that target: all settings are as found iff nothing is lost |
| GamingRestore.Daemon.Cycle | gaming/hispowerd/main.go:159-179 | a session runs iff one is detected and not blocked; outside sessions the settings are what the last one leaves |

## Left out

- Rounding of floating-point numbers and overflow of machine integers: numbers are real or unbounded. Identifiers stay below 2^62.
- Unicode tables for letters, digits, white space and case are a parameter of the search index; case mapping is one character to one. What a record's texts are is stated for tables in which a space, lower-cased, is not part of a word.
- Map iteration order is any order; results of equal score may come in any order.
- The enforcer's time-outs, dry runs, dead letters and logging: an execution is one step that ends somehow. Go's `container/heap` is modelled from its documented sifts, as it is not in the repository.
- Watchdog.Watchdog.Tick: a restart counts as launched when it is decided on; its call comes after the back-off delay, in a goroutine of its own, and is a time here (Watchdog.CallsAfterATrip). Operator alerts and the safe-mode callback are events only.
- CrashHistory.SelfHealer.DetectCorrelation: three failures may be of one service; the code counts failures, not services.
- CrashHistory.SelfHealer.RestartNotify: the code lets go of its lock before it disables a service; here no other call comes in between.
- Restart scripts, health probes and their delays in the supervisor and the healer.
- Persisting and loading the baseline; its events.
- `checkMomentum`, its events and its rate limit.
- Objects in JSON: `JSON.parse` keeps the last of repeated members and orders integer-like names first; here an object is the list of its members as written.
- Splitting of a Go string into characters and invalid bytes is the model's input; a line is a list of such pieces.
- HTTP status codes, confirmation tokens, mode transitions and flushing around the event stream; text after the last blank line is dropped by the client and by the model.
- In the policy loop: the handlers of other subscribers, the firewall and subsystem scripts, event payloads and timestamps.
- Transactions: `ReplayJournal`, `CorruptionDetected` and rotation. A rename is atomic and durable, and a journal append is written and synced whole or not at all. A failed replacement leaves the memory ahead of the file, so Transactions.NewestRecordExplainsFile is about runs without one. A mutation is a function of the state, run twice by `Apply`; a transaction's number is new, where the code draws it at random.
- Digests and the update time: records hold state images.
- A session's pattern text, its identifier's text, its events, and `Purge`.
- Finding the game process itself; reading /proc is the input of the search.
- CPU isolation, daemon throttling, firewall fast path, niceness and the environment file of a gaming session; cleaning up after a crash of the daemon.
- The Python and Qt front ends, boot and image scripts, marketplace, fleet, forensics, vault, and the dashboard's tables: plumbing or foreign calls.
