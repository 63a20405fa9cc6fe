# Verification of logstash-filter-verifier

A Dafny model of the two parts of logstash-filter-verifier whose correctness is hard to see: the daemon's
concurrent test protocol, and the handling of nested field references such as `[log][file][path]` in test cases.
`dafny verify dfyconfig.toml` checks everything.

## The daemon

A test session creates a session (at most two live at a time), takes a Logstash controller from a pool, sets up a
pipeline configuration, runs tests, fetches their results and gives the controller back. Meanwhile a housekeeper
replaces dead controllers, Logstash reports events on its standard output and loaded pipelines in its log, and a
goroutine per completed test moves the controller's state machine on.

Each object is modelled twice. As a class with the fields, methods and loops of its source: `EventLog.dfy`,
`ReadyMap.dfy`, `StateMachine.dfy`, `Controller.dfy`, `Pool.dfy`, `SessionController.dfy`. And as a step relation over
all interleavings, one step per critical section: `Protocol.dfy` for one controller and its threads, `Daemon.dfy` for
the whole daemon. A `Controller` carries the history of its steps, and every method keeps this history a run of
`Protocol` that ends in the present state; the results about whole runs are in
`ProtocolProofs.dfy`, `StateChanges.dfy`, `Readiness.dfy`, `Completions.dfy`, `Arrivals.dfy` and `StrayCompletion.dfy`
for one controller, and in `DaemonTheorems.dfy` (with the step lemmas in `DaemonProofs.dfy` and `DaemonSessions.dfy`),
`DaemonAssigned.dfy`, `DaemonShutdown.dfy` and `DaemonStray.dfy` for the daemon. Several of them are told by the steps
of a run alone, without the functions that define a step. `DaemonWitnesses.dfy` holds concrete runs in which a side
condition of a result fails.

How the model reads the source:

- `ReceiveEvent` is two critical sections, append and check, and there is one standard-output scanner. A reset of
  `SetupTest` or `Teardown` that lands between the two starts a completion outside any test, and that completion can
  end a later test at once. The results about complete tests therefore speak of *quiet* runs, in which no such reset
  happens (`Protocol.Quiet`). Three results show that this is the exact condition: a reset is safe, whatever follows,
  if and only if it is quiet. `StrayCompletions.ResetIsSafeIffQuiet` says so for complete results and for the number of
  pending completions, `StrayCompletions.ResetKeepsHealthIffQuiet` for test-completes that miss the table, and
  `DaemonStrays.ResetIsSafeIffQuiet` for the results of all sessions of a daemon; there the test that suffers may be
  that of another session, which gets the controller next. Quiet runs are needed for `ResultsAreComplete`,
  `AtMostOneCompletionPending`, `QuietHealthIsLostOnlyBy`, `SessionsGetCompleteResults` and the last clause of
  `Controller.GetResults`; every other result holds in all runs. The class `Controller` has no such restriction.
- A client makes one call at a time, and `GetResults` only follows a successful `ExecuteTest` (as in
  `internal/app/daemon/daemon.go`). The command, the two resets and the reload of a call are separate steps;
  everything else may happen between them.
- Timers fire whenever the model likes: a wait that has not reached its target may time out at any moment. The late
  arrival sleep of `GetResults` is a gap in which more events may come.
- A cancelled context ends a wait without changing the state. The completion goroutine ignores that error.
- Housekeeping appends what its factory returns even when the factory fails. The pool then holds a nil, and the next
  sweep panics on it. The model does the same; `NilEntersOnlyBy` and `NilIsFatal` say exactly when. `isReady` reads its
  map without the lock and is modelled as an atomic read.
- `Create` and `DestroyByID` hold the session mutex throughout, except while `Create` sleeps. A session whose setup
  failed stays in the map. Session ids and controllers are fresh numbers. The factory may succeed or fail at will.
- The class method `SessionController.Create` is given an arbitrary number of wakeups, after which it is left asleep:
  a Create need not ever return. Whether sleepers can be forgotten is settled by `NoWakeupIsLost`, and when exactly by
  `WakeupIsLostOnlyBy`.
- A failed teardown returns a controller without `Kill`: the pool forgets it and never cancels its context. A woken
  `Create` whose factory fails does not pass its wakeup on. Both are results below, each with a run.
- `Create` looks at the shutdown mark only after it has slept. A Create that finds the gate open gets its session even
  after the channel of `WaitFinish` was closed, and of the Creates that fall asleep after the broadcast some can be left
  asleep for good. Both are runs in `DaemonShutdown.dfy`.
- The comment on `Pool` housekeeping says that it ensures at least one running instance; it does so only when its
  factory succeeds.

## Field references

`Brackets.dfy` models the splitting of keys, including the two regular expressions, and the keys of a Logstash hash.
`FieldTree.dfy` sees a tree of fields through its leaves: two trees with the same leaves are equal. On this
`Expansion.dfy`, `Removal.dfy` and `Serialization.dfy` say what expanding, removing and listing fields mean,
`Determinacy.dfy` says exactly when the order of visiting a map does not matter, and `RoundTrip.dfy` proves that listing
and expanding are inverse. `FieldMap.dfy` holds the nested maps on the heap, where the original changes them in place;
its methods are proved to compute the functions of `Expansion` and `Removal`, and to fail only where some order fails.
`TestCaseSet.dfy` flattens test cases into lines and events and prepares the fields file of a session.

Maps are visited in an arbitrary order everywhere. An `Option` result `None` of `Insert`, or `ok == false` of a method,
stands for the type assertion that makes the original panic. A missing map of local fields behaves like an empty one
and is modelled as one. An input file can fill `InputLines` and `ExpectedEvents` directly, as these fields carry no tag
that forbids it; the lines then no longer align with the events, and the contracts say exactly when they do.

## Model

| member | source | states |
|---|---|---|
| EventLogs.Events.Append | internal/daemon/controller/events.go:21-26 | the event joins the end of the log, nothing else changes |
| EventLogs.Events.IsCompleteFirstTime | internal/daemon/controller/events.go:28-38 | true exactly when the expected number is reached and it was not true since the last reset; then the latch is set |
| EventLogs.Events.Reset | internal/daemon/controller/events.go:40-47 | empties the log and the latch and sets the expectation |
| EventLogs.Events.Get | internal/daemon/controller/events.go:49-57 | a copy of the log |
| ReadyMaps.Pipelines.Reset | internal/daemon/controller/pipelines.go:17-27 | exactly the names and the sentinel, none marked |
| ReadyMaps.Pipelines.SetReady | internal/daemon/controller/pipelines.go:29-36 | marks the names, also unknown ones, and unmarks none |
| ReadyMaps.Pipelines.IsReady | internal/daemon/controller/pipelines.go:38-45 | true exactly when every name in the map is marked |
| ReadyMaps.ReadyIffAllMarkedSinceReset | internal/daemon/controller/pipelines.go:17-45 | after any history with a reset: ready if and only if every name of the last reset and the sentinel were marked since; other names and repetitions never matter |
| Readiness.ReadyIffTestedAfterReset | internal/daemon/controller/controller.go:217-226 | in all runs: when pipeline-ready is issued every pipeline of the last reset is marked if and only if no reset of the map fell between the test of the map and the command |
| Readiness.LoadedIffAllReported | internal/daemon/controller/controller.go:161-177 | in all runs: the test of the map after a reset succeeds if and only if each pipeline named by the SetupTest or ExecuteTest of this reset, and the sentinel, was reported between reset and test; for a Teardown the sentinel alone |
| Readiness.CommandOnlyAfterReports | internal/daemon/controller/controller.go:217-226 | so a pipeline-ready whose test lies after the reset is issued only when all of them were reported |
| Readiness.StartedIffBothReported | internal/daemon/controller/controller.go:96-110 | before the first reset: stdin, output and the sentinel |
| Readiness.ReadyWithoutPipelines | internal/daemon/controller/controller.go:112-121 | a concrete run in which SetupTest ends in ready_for_test with none of its pipelines marked |
| StateMachines.StateMachine.ExecuteCommand | internal/daemon/controller/statemachine.go:95-110 | the next state is the table's entry; a pair without entry gives unknown (what the entries are: EnteredOnlyBy) |
| StateMachines.StateMachine.CheckWait | internal/daemon/controller/statemachine.go:74-92 | one pass of the wait loop: exactly when it ends, each of the four ends with its cause, and only a time-out changes the state |
| StateMachines.StateMachine.GetState | internal/daemon/controller/statemachine.go:112-117 | the current state |
| Controllers.Controller.constructor | internal/daemon/controller/controller.go:39-110 | a launched controller is in the initial state of the protocol |
| Controllers.Controller.EnvStep | internal/daemon/controller/controller.go:201-235 | one critical section of a method that another thread calls makes exactly its step of the protocol |
| Controllers.Controller.Yield | internal/daemon/controller/controller.go:201-235 | any number of steps of the other threads continue the run and leave the client where it is |
| Controllers.Controller.ResetEvents | internal/daemon/controller/controller.go:172 | the reset of the event log starts a new epoch with the call's expectation |
| Controllers.Controller.ResetPipelines | internal/daemon/controller/controller.go:173 | the ready-map is replaced by the names of the call |
| Controllers.Controller.CheckComplete | internal/daemon/controller/controller.go:207-215 | a check that fires starts one pending completion |
| Controllers.Controller.WaitForState | internal/daemon/controller/statemachine.go:57-93 | under interference: every end of the wait keeps the invariant and leads the client to the right place |
| Controllers.Controller.ReloadConfig | internal/daemon/controller/controller.go:161-177 | write, two resets and reload as separate steps of the run, in this order, with anything in between |
| Controllers.Controller.SetupTest | internal/daemon/controller/controller.go:112-121 | under interference: the client makes the steps wait, command, write, reset, reset, reload, in this order, up to one that fails, and with everybody else's steps they form a run of the protocol |
| Controllers.Controller.ExecuteTest | internal/daemon/controller/controller.go:123-132 | the same steps for a test; on success the client holds a test with its expectation and its own reset |
| Controllers.Controller.GetResults | internal/daemon/controller/controller.go:134-148 | under interference: in every history the consecutive arrivals since the test's own reset; without error and in a quiet history at least as many as expected, released by the test's own completion |
| Controllers.Controller.Teardown | internal/daemon/controller/controller.go:150-159 | the same steps from ready_for_test, with no pipelines and no expectation |
| Controllers.Controller.IsHealthy | internal/daemon/controller/controller.go:237-239 | healthy if and only if the state is not unknown |
| ProtocolProofs.ResultsAreOwn | internal/daemon/controller/controller.go:134-148 | in all runs, with or without error, results are the consecutive arrivals since the reset of the client's own test |
| ProtocolProofs.ResultsAreComplete | internal/daemon/controller/controller.go:123-148 | in quiet runs, results without error are at least as many as expected, and no completion of an earlier test released them |
| ProtocolProofs.AtMostOneCompletionPending | internal/daemon/controller/controller.go:207-215 | in quiet runs at most one completion goroutine is pending, and it belongs to the current test (exactness: StrayCompletions.ResetIsSafeIffQuiet) |
| ProtocolProofs.CompletionFiresOncePerReset | internal/daemon/controller/events.go:28-47 | in all runs two completions are started only with a reset between them |
| ProtocolProofs.CompletionHasFired | internal/daemon/controller/controller.go:201-215 | in all runs, between two calls of ReceiveEvent, the latch is set if and only if the expected number (at least one) has arrived |
| ProtocolProofs.UnknownIsAbsorbing | internal/daemon/controller/statemachine.go:95-110 | no step of any thread leaves the unknown state |
| ProtocolProofs.HealthIsMonotone | internal/daemon/controller/controller.go:237-239 | a controller that is healthy now has always been |
| ProtocolProofs.HealthIsLostOnlyBy | internal/daemon/controller/statemachine.go:57-110 | in all runs, cancelled or not, a known state becomes unknown if and only if a wait times out, the process crashes, a pipeline-ready lands in ready_for_test or a test-complete lands outside a running test; so client commands always find a table entry or an already unknown state |
| ProtocolProofs.QuietHealthIsLostOnlyBy | internal/daemon/controller/controller.go:207-215 | in quiet runs, before cancellation, the test-complete finds its table entry too (exactness: ResetKeepsHealthIffQuiet) |
| ProtocolProofs.StrayCompletionIffResetBetween | internal/daemon/controller/controller.go:201-215 | outside a test the check of ReceiveEvent starts a completion if and only if a reset landed between append and check |
| StateChanges.EnteredOnlyBy | internal/daemon/controller/statemachine.go:156-183 | in all runs each state is entered by exactly the named steps of the named threads from the named state, for all eight states |
| StateChanges.SetupWaitsForTeardown | internal/daemon/controller/controller.go:112-159 | between the command of a Teardown and the end of the wait of a later SetupTest lies a pipeline-ready issued in started |
| StateChanges.ResultsWaitForTest | internal/daemon/controller/controller.go:123-148 | between the command of an ExecuteTest and the next wait that is reached, of GetResults or another call, lie a pipeline-ready in executing_test and after it a test-complete in running_test |
| StateChanges.ContextDoneIffCancelled | internal/daemon/controller/statemachine.go:74-85 | the context is done exactly after a cancellation, and no wait ends by shutdown before one |
| Completions.CompletionsAreConserved | internal/daemon/controller/controller.go:207-215 | in all runs, counted by epoch: every completion that was started is pending or has issued test-complete exactly once, however its wait has ended |
| Completions.ResultsCheckIff | internal/daemon/controller/controller.go:134-136 | the check of GetResults starts a completion if and only if exactly the expected number has arrived and the latch is open |
| Completions.EmptyTestIsReleased | internal/daemon/controller/controller.go:134-139 | in all runs a client that waits for, or has, the results of a test that expects nothing and got nothing has a completion of that test pending or done |
| Completions.EmptyTestSucceeds | internal/daemon/controller/controller.go:134-148 | a concrete quiet run in which such a test ends without error and without events |
| Arrivals.ResultsAreAllReceived | internal/daemon/controller/controller.go:134-148 | in all runs the results are, in order, the texts of all lines received between the reset of the ExecuteTest with the expectation of the test and the moment they are fetched, late ones included |
| StrayCompletions.ResetIsSafeIffQuiet | internal/daemon/controller/controller.go:161-205 | a reset of SetupTest or Teardown leaves all later results complete, and at most one completion pending, for every continuation, if and only if the scanner is not between append and check; otherwise, for every expectation of at least one, some test gets no event and no error |
| StrayCompletions.ResetKeepsHealthIffQuiet | internal/daemon/controller/controller.go:161-215 | such a reset is followed, in some continuation, by a test-complete that misses the table and makes a healthy, uncancelled controller unknown, if and only if the scanner is between append and check |
| StrayCompletions.UnsafeResetIsReachable | internal/daemon/controller/controller.go:201-205 | such an unsafe reset occurs after a concrete quiet run |
| Pools.SwapDeleteRemovesOne | internal/daemon/pool/pool.go:85-86 | overwriting with the last element and cutting the end removes exactly one occurrence |
| Pools.SweepKeepsExactlyHealthy | internal/daemon/pool/pool.go:81-98 | a sweep keeps the multiset of healthy elements and no other, though it reorders under its own index |
| Pools.SweepKillsTheOthers | internal/daemon/pool/pool.go:81-98 | and kills each other element exactly once |
| Pools.Pool.constructor | internal/daemon/pool/pool.go:39-63 | one healthy available controller, none assigned, a capacity of at least one |
| Pools.Pool.SweepAvailable | internal/daemon/pool/pool.go:116-124 | terminates; result and killed controllers are those of the sweep; panics exactly on a nil |
| Pools.Pool.SweepAssigned | internal/daemon/pool/pool.go:90-98 | terminates; result and killed controllers are those of the sweep |
| Pools.Pool.Get | internal/daemon/pool/pool.go:111-143 | the answer and the new lists; what is handed out is healthy, was available or is new, and is no longer available; refusal only at full capacity |
| Pools.Pool.Return | internal/daemon/pool/pool.go:145-162 | the controller leaves the assigned list and joins the available one exactly if it was assigned and clean; nothing happens if it was reaped before |
| Pools.Pool.Housekeep | internal/daemon/pool/pool.go:76-107 | both sweeps with their kills and, for an empty pool, one append of what the factory gave, a nil if it failed; when it panics |
| Pools.GetCounts | internal/daemon/pool/pool.go:111-143 | how often each controller is in the pool after Get: healthy or assigned ones as before, the new one once, swept ones gone |
| Pools.GetHandsOut | internal/daemon/pool/pool.go:126-142 | what each answer of Get says about the lists |
| Pools.GetAnswers | internal/daemon/pool/pool.go:126-142 | exactly when Get hands out, fails with its factory, or lacks an instance |
| Pools.GetTakesOldest | internal/daemon/pool/pool.go:126-131 | while all available controllers are healthy, the first of the list is handed out and the others keep their order |
| Pools.GetAfterSweep | internal/daemon/pool/pool.go:116-131 | if the first is unhealthy, the last overtakes the others |
| Pools.HousekeepCounts | internal/daemon/pool/pool.go:80-106 | the same for housekeeping: healthy members stay, others go, and the new one is added exactly if no member is healthy |
| Pools.HousekeepLeavesNil | internal/daemon/pool/pool.go:100-106 | a nil is left if and only if no controller is healthy and the factory fails |
| Pools.ReturnCounts | internal/daemon/pool/pool.go:149-160 | the same for Return |
| SessionControllers.SessionController.Admit | internal/daemon/session/controller.go:62-77 | past the gate: a new session with a controller of its own, also when its setup fails; refused only when no available controller is healthy and the factory fails or, with room for one, none is left; a panic only on a nil |
| SessionControllers.SessionController.Create | internal/daemon/session/controller.go:50-78 | the gate loop: admits when at most one session is in the map and adds exactly the new one to it; a Create that slept gives up once the shutdown is marked and admits no session after it |
| SessionControllers.SessionController.DestroyByID | internal/daemon/session/controller.go:92-113 | removes exactly this session, also when its teardown fails; the controller is available again if the teardown succeeded and it is healthy, and not if it failed; every other session keeps its controller |
| SessionControllers.SessionController.GiveBack | internal/daemon/session/controller.go:99-110 | the pool gets the controller back as clean or not, this session and its count go, and ownership stays exclusive |
| SessionControllers.SessionController.WaitFinish | internal/daemon/session/controller.go:116-119 | marks the shutdown |
| SessionControllers.SessionController.HandedOutAreSessions | internal/daemon/session/controller.go:54-68 | assigned controllers never outnumber live sessions |
| DaemonTheorems.DaemonInvAlways | internal/daemon/session/controller.go:49-130 | the invariants of pool, ownership, gate and wakeups hold in every state of every run |
| DaemonTheorems.SessionsNeverShare | internal/daemon/session/controller.go:62-68 | in every run two live sessions hold different controllers, and none of these is available before its own session has returned it |
| DaemonAssigned.HealthyStayAssigned | internal/daemon/pool/pool.go:80-162 | in every run a controller that a session uses is in the assigned list as long as it is healthy, whatever housekeeping does |
| DaemonAssigned.AvailableAgainIff | internal/daemon/session/session.go:268-280 | in every run Pool.Return makes the controller available if and only if it is still assigned, its Teardown has succeeded and the directory was removed |
| DaemonTheorems.ControllersAreConserved | internal/daemon/pool/pool.go:39-162 | in every run each controller ever created is in exactly one of available, assigned, retired, and the pool never exceeds its capacity |
| DaemonTheorems.RetiredStayRetired | internal/daemon/pool/pool.go:80-98 | a retired controller never comes back |
| DaemonTheorems.RetiredAreSweptOrReturned | internal/daemon/pool/pool.go:145-160 | a sweep retires unhealthy controllers and cancels them; the return after a failed teardown retires one without touching it |
| DaemonWitnesses.UncleanReturnLeaks | internal/daemon/pool/pool.go:149-160 | a concrete run after which a retired controller is not cancelled |
| DaemonTheorems.GetIsNeverExhausted | internal/daemon/session/controller.go:54-65 | with room for at least two, Pool.Get inside Create never lacks an instance, whatever housekeeping and lost health did before |
| DaemonWitnesses.PoolOfOneIsExhausted | internal/daemon/session/controller.go:54-65 | a concrete run in which a pool of one does |
| DaemonWitnesses.ExhaustedIffPoolOfOne | internal/app/daemon/daemon.go:130 | some run lacks an instance if and only if the capacity is one; the daemon uses two |
| DaemonTheorems.LostHealthStaysLost | internal/daemon/controller/controller.go:237-239 | over whole runs of the daemon lost health is never regained |
| DaemonTheorems.HandedOutWasAlwaysHealthy | internal/daemon/pool/pool.go:116-131 | a controller that Get takes from the available list had never been unhealthy |
| DaemonTheorems.WaitGroupCountsSessions | internal/daemon/session/controller.go:70-102 | the wait group equals the number of sessions whenever the mutex is free, and always lies between zero and two |
| DaemonTheorems.ChannelClosesWithoutSessions | internal/daemon/session/controller.go:123-129 | when the channel of WaitFinish closes there is no session, unless a Create is just between inserting and counting its session |
| DaemonWitnesses.ChannelMayCloseEarly | internal/daemon/session/controller.go:68-70 | a concrete run in which the channel closes at that moment |
| DaemonShutdown.ClosesAfterBroadcast | internal/daemon/session/controller.go:116-129 | in every run the channel closes only after the broadcast of a marked shutdown, with the wait group at zero |
| DaemonShutdown.SleepersGiveUpAfterShutdown | internal/daemon/session/controller.go:55-60 | in every run a Create that sleeps when the shutdown is marked never passes the gate again, whenever it is woken |
| DaemonShutdown.BroadcastWakesAll | internal/daemon/session/controller.go:116-121 | in every run each Create that sleeps at the broadcast is awake from then until it resumes |
| DaemonShutdown.SleepersCameLater | internal/daemon/session/controller.go:116-121 | and who sleeps un-notified afterwards came to the gate later and found it closed |
| DaemonShutdown.CreatedAfterClose | internal/daemon/session/controller.go:54-70 | a concrete run in which a session is created after the channel was closed |
| DaemonShutdown.ShutdownStrandsSleeper | internal/daemon/session/controller.go:54-60 | a concrete run in which a Create sleeps on after the shutdown with no session left to wake it |
| DaemonTheorems.NoWakeupIsLost | internal/daemon/session/controller.go:54-60 | a Create that sleeps un-notified implies that live sessions and wakeups in flight are at least two, while not finished and the factory succeeds; otherwise returned errors make up the difference |
| DaemonWitnesses.FactoryFailureLosesWakeup | internal/daemon/session/controller.go:62-65 | a concrete run in which a failing factory loses a wakeup: a Create stays asleep with room for its session |
| DaemonTheorems.WakeupIsLostOnlyBy | internal/daemon/session/controller.go:54-65 | the exact step that leaves a Create asleep with room for its session: a woken Create returns, by shutdown or for lack of a controller, while live sessions and wakeups in flight are two |
| DaemonTheorems.NilEntersOnlyBy | internal/daemon/pool/pool.go:100-106 | a nil enters the pool if and only if housekeeping finds no healthy controller and its factory fails |
| DaemonTheorems.NilIsFatal | internal/daemon/pool/pool.go:81-82 | the daemon panics if and only if a sweep meets that nil, and it stays until then |
| DaemonWitnesses.NilPanics | internal/daemon/pool/pool.go:81-106 | a concrete run: one crash, two rounds of housekeeping, panic |
| DaemonTheorems.SessionsGetTheirOwnResults | internal/app/daemon/daemon.go:363-394 | in every run of the whole daemon each session's results are the consecutive arrivals since the reset of its own test |
| DaemonTheorems.SessionsGetCompleteResults | internal/app/daemon/daemon.go:363-394 | in quiet runs they are complete unless an error is reported, and the test's own completion released them |
| DaemonStrays.ResetIsSafeIffQuiet | internal/daemon/session/controller.go:49-113 | in a daemon that was quiet so far, a reset during set-up or teardown leaves the results of all sessions complete, for every quiet continuation, if and only if the scanner is not between append and check; otherwise, for every expectation of at least one, some session gets no event and no error |
| DaemonStrays.UnsafeResetIsReachable | internal/daemon/controller/controller.go:201-205 | a concrete quiet run of the daemon up to a reset that is not safe |
| Brackets.ExtractFields | internal/testcase/helper.go:42-57 | the loop over the matches returns the specified parts: those of a joined good path, and every other key whole |
| Brackets.SplitIsUnique | internal/testcase/helper.go:42-57 | that determines the parts of every key |
| Brackets.SplitOfJoin | internal/testcase/helper.go:42-57 | splitting a joined path of good keys gives the path back |
| Brackets.JoinOfSplit | internal/testcase/helper.go:42-57 | joining the parts of a validated key gives the key back |
| Brackets.ValidatesIffJoin | internal/testcase/helper.go:43 | the validating expression accepts exactly the joins of non-empty good paths |
| Brackets.PartsArePlain | internal/testcase/helper.go:47-54 | a part is never split again |
| Brackets.HashKeyOfPath | internal/logstash/fieldset.go:41-43 | the hash key of a good path with one key is that key, of a longer path the join |
| Brackets.SplitOfHashKey | internal/logstash/fieldset.go:41-43 | splitting undoes the trimmed or untrimmed key of a hash |
| FieldTrees.LeavesDetermine | internal/testcase/helper.go:10-26 | trees with the same leaves are equal |
| FieldTrees.LeavesArePrefixFree | internal/testcase/helper.go:60-72 | no leaf lies on the way to another |
| Removal.RemoveFiltersLeaves | internal/testcase/helper.go:75-103 | removal is a filter on the leaves: what lies below the path goes, and empty objects on the way |
| Removal.RemoveAllFiltersLeaves | internal/testcase/testcase.go:343-346 | after the whole ignore list exactly the leaves that no ignored path hits are left |
| Removal.OrderDoesNotMatter | internal/testcase/testcase.go:343-346 | neither order nor repetition of the ignore list matters, for any event |
| Removal.RemoveAllPrunes | internal/testcase/helper.go:95-102 | without empty objects before there are none after, and exactly the leaves at or below ignored paths are gone |
| Expansion.InsertClear | internal/testcase/helper.go:60-72 | an insertion with nothing in its way puts the leaves of its value below its path, in place of those there, and changes no other |
| Expansion.InsertLeaves | internal/testcase/helper.go:60-72 | the leaves after any insertion that succeeds: those of the value below its path, none on the way, all others as before |
| Expansion.InsertAllLeaves | internal/testcase/helper.go:13-23 | for values that agree no order fails, and the leaves of the result are those of the values below the paths of their keys |
| Determinacy.OrderIsIrrelevantIffAgree | internal/testcase/helper.go:10-26 | all orders of the keys of one map succeed with the same result if and only if, wherever the path of one key leads through that of another, the first value already contains the second there |
| Determinacy.DeterminedIffAgreeing | internal/testcase/helper.go:10-26 | for whole trees: no order of any map involved fails and all give the same tree, if and only if the values agree at every level |
| Determinacy.ExpansionIsUnique | internal/testcase/helper.go:10-26 | in particular, with prefix-free siblings at every level |
| Determinacy.MayFailIffBlocked | internal/testcase/helper.go:60-72 | some order fails if and only if it fails in a part, or one expanded value puts a scalar or array on the way of another key |
| Determinacy.ScalarBlocks | internal/testcase/helper.go:68-71 | a concrete map for which some order fails |
| Expansion.OrderMatters | internal/testcase/helper.go:10-26 | a concrete map whose values do not agree, with two results |
| Expansion.ExpansionIsNormal | internal/testcase/helper.go:10-26 | any result has only keys that are not expanded further |
| Expansion.ExpansionIsIdempotent | internal/testcase/helper.go:10-26 | expanding a result again changes nothing |
| Expansion.InsertFailsIff | internal/testcase/helper.go:68-71 | the type assertion fails if and only if a scalar or array lies on the way |
| Expansion.SomeOrderFailsIffBlocked | internal/testcase/helper.go:10-26 | some order of the keys fails if and only if the value of one key puts a scalar or array on the way of another |
| Expansion.PrefixFreeNeverFails | internal/testcase/helper.go:10-26 | with prefix-free keys no order fails, whatever the values |
| Serialization.SerializableIff | internal/logstash/fieldset.go:76-106 | accepted are exactly the values of supported types with no object at any depth in an array |
| Serialization.SerializeAsLogstashLiteral | internal/logstash/fieldset.go:59-108 | success if and only if serializable; then equally many keys and literals, one per leaf and none twice; one literal for all but objects, so indexing it is in range |
| Serialization.SerializeObject | internal/logstash/fieldset.go:88-104 | the same for the case of a map, visited in any order |
| Serialization.LogstashHash | internal/logstash/fieldset.go:33-51 | success if and only if serializable; then one entry per leaf with its literal; for good keys a field of the top level is listed without brackets, a longer path in brackets |
| Serialization.IsValid | internal/logstash/fieldset.go:22-28 | valid if and only if not missing, of supported types and without objects in arrays |
| RoundTrip.HashKeysAreDistinct | internal/logstash/fieldset.go:40-44 | for good keys no two entries of a hash have the same key |
| RoundTrip.HashThenExpand | internal/testcase/helper.go:10-26 | for good keys, expanding the keys of a hash in any order gives the tree without its empty objects, so the tree itself if and only if it has none |
| RoundTrip.HashExpands | internal/testcase/helper.go:10-26 | that expansion never fails |
| FieldMaps.FieldMap.RemoveField | internal/testcase/helper.go:75-103 | the removal in place computes Remove on the tree |
| FieldMaps.FieldMap.RemoveFields | internal/testcase/helper.go:107-111 | the same for a key in bracket notation |
| FieldMaps.FieldMap.RemoveIgnored | internal/testcase/testcase.go:343-346 | the loop over the ignore list computes RemoveAll |
| FieldMaps.FieldMap.ParseBracketProperty | internal/testcase/helper.go:60-72 | the insertion in place computes Insert and fails exactly when Insert does |
| FieldMaps.FieldMap.Clone | internal/logstash/fieldset.go:53-55 | a deep copy that shares nothing |
| FieldMaps.FieldMap.Overwrite | internal/testcase/testcase.go:240-243 | the fields afterwards are the old ones overridden by the local ones |
| FieldMaps.ParseAllBracketProperties | internal/testcase/helper.go:10-26 | a fresh map with a result that expansion allows; fails only if some order fails; the input is unchanged |
| TestCaseSets.ParseAllBracketPropertiesInJSON | internal/testcase/helper.go:31-39 | a line is decoded, expanded and encoded; it fails exactly as the decoding fails, or where some order of expanding fails |
| TestCaseSets.TestCaseSet.ConvertBracketFields | internal/testcase/testcase.go:137-173 | global fields, local fields of every case and expected events of the set are expanded, and for the codec json_lines all lines; nothing else changes; every failure has its cause |
| TestCaseSets.TestCaseSet.Flatten | internal/testcase/testcase.go:228-249 | the lines of all cases in order, a dummy for a case without lines; an event per line with the fields of the owning case; a description per expected event |
| TestCaseSets.NewEvent | internal/testcase/testcase.go:238-243 | a fresh event: global fields overridden by local ones |
| TestCaseSets.OwnsElement | internal/testcase/testcase.go:230-249 | the owner of an element of a joined list is the part it comes from |
| TestCaseSets.LinesMeetTheirEvents | internal/testcase/testcase.go:230-244 | as many events as lines in the cases, a case without lines counting as one; the i-th added line is the right line of its case, or its only dummy, and its event has the fields of that case; lines and events are equally many if and only if the file set no lines directly |
| TestCaseSets.ExpectedEventsMeetTheirDescriptions | internal/testcase/testcase.go:236-248 | the same for expected events and descriptions |
| TestCaseSets.DecimalIsInjective | internal/daemon/session/session.go:211 | no two indices have the same decimal form |
| TestCaseSets.DecimalStandsFor | internal/daemon/session/session.go:211 | read by place value the decimal form gives the index back; digits only, no leading zero |
| TestCaseSets.PrepareFields | internal/daemon/session/session.go:207-213 | the event with index i is found under i in decimal, and no event is lost |

## Left out

- gRPC, sockets, zip files, signals, processes, temporary files, templates, log tailing, command-line handling: I/O and library plumbing.
- Rewriting of Logstash configurations and plugin mocks: it rests on the parser and printer of breml/logstash-config, which is not part of this model.
- Sorting and JSON editing of results in internal/app/daemon/run/run.go: mostly library calls.
- The spelling of scalars in literals, and the sorting of the spelled entries: literals are abstract, keys are exact.
- Reading of test case files, the syntax of JSON (decoding and encoding are arbitrary functions), and the writing of the fields file.
- SessionController.Get and the contents of sessions beyond their controller: a map lookup.
- Liveness: that a sleeping thread is scheduled, or that Logstash ever answers. What is shown instead is that no wakeup is lost.
- Go memory-model races, concurrent calls within one session, colliding session ids: assumed away as described above.
- ResultsAreComplete: stated for quiet runs; StrayCompletions.ResetIsSafeIffQuiet shows that the condition cannot be dropped.
- AtMostOneCompletionPending: the same.
- QuietHealthIsLostOnlyBy: the same, by StrayCompletions.ResetKeepsHealthIffQuiet.
- SessionsGetCompleteResults: the same, by DaemonStrays.ResetIsSafeIffQuiet.
- SessionControllers.SessionController: the class keeps its own invariants and does not record its steps as a run of Daemon, as Controller does for Protocol.
- EnvStep: ReceiveEvent, PipelinesReady and SignalCrash have no method of their own, only their critical sections; what may happen between these is in Protocol.
- SessionControllers.SessionController.WaitFinish: the class method only marks the shutdown; the broadcast, the goroutine and the channel are steps of Daemon.
- HashThenExpand: keys must be good (non-empty, without brackets and commas) at every level, the keys that a field reference can spell.
- ChannelClosesWithoutSessions: a Create that is between inserting its session and counting it can coincide with the closing of the channel; DaemonWitnesses.ChannelMayCloseEarly is such a run.
