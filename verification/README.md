# A verified model of the session workers and their request processing

The program answers HTTP requests by running PL/SQL procedures. Each session has a worker goroutine
that owns one Oracle connection; a request is handed to the worker through channels, turned into an
anonymous PL/SQL block with bind variables, executed, and its result repaired and sent back. The
database itself is a foreign system. This project models the logic around it and proves what that
logic guarantees, for every input, every interleaving and every run, and exactly where it stops
guaranteeing it. `dafny verify dfyconfig.toml` checks everything.

## How it is built

| files | what they are about |
|---|---|
| `WorkerProtocol`, `WorkerInvariant`, `WorkerStep`, `WorkerSafety` | `Run`, `Break` and `listen` as a transition system over program counters: tokens, result channels, registry, session counter |
| `WorkerRegistry`, `WorkerResults`, `WorkerDelivery`, `WorkerKeeping`, `WorkerProgress`, `WorkerExecution`, `WorkerReplies`, `WorkerWitnesses` | exactly when a live worker is registered and alone, when a result is sent and can still be received, when `Run` can return and what it answers, when a worker can execute, and the runs in which they do not |
| `TaskerConnection`, `OracleTasker` | the connection of one tasker, first as a transition system in which `Break` reads while `Run` writes field by field, then as a class whose every assignment is a step of that system |
| `WorkerTaskers`, `WorkerBreaks` | the product of both: each listener drives its tasker, and a `Break` that finds its worker busy enters the tasker's |
| `DescribeStore`, `DescribeCache`, `DescribeCoherence` | the cache of procedure signatures: entries and recycled cells on the heap, and describers racing with each other and with DDL |
| `StatementText`, `StatementParts`, `StatementReading`, `StatementArguments`, `ExtendedParameters`, `StatementBinds`, `StatementValues`, `StatementWhole`, `StatementLines`, `StatementBuilder`, `StatementRequests` | the builder of the PL/SQL block: what it writes, what a scanner of literals and placeholders reads back, and the class that writes it |
| `LineEnds`, `MetaCharset`, `FileNames` | repairs of the response: line ends with UTF-8 decoding, charset declarations, file names |
| `FormParts`, `FormOrder`, `Multipart` | the two multipart loops, their byte budgets and their temporary files |
| `SortKeys`, `UserTable` | the order of the session list, and the pooled user table |
| `Bytes`, `Text`, `Collections`, `Options` | shared vocabulary |

Code that updates state is a class or a method with loops, proved equal to a function of its inputs
or of the old state; the laws are lemmas about that function. Concurrent code is a transition system
whose events are single atomic actions of one goroutine; a run is any sequence of enabled events, and
the results hold in every reachable state.

## What the proofs found

Some things one would expect of the code are false. Each is shown false by a concrete run or input, and
the theorems named with it say when it holds; "exactly" marks equivalences.

- `Break` on an idle worker takes its token and does not return it (`WorkerWitnesses.BreakFindsToken`):
  that worker never executes anything again, in any continuation (`WorkerSafety.BreakDisablesIdleWorker`).
  A registered worker can still execute exactly when its listener has not left, its token was not taken
  in this way and it is not returning from an interrupted execution (`WorkerExecution.ExecutesExactly`).
- `Break` can hand over a session that was closed while it was reading, because the close does not take
  the mutex (`TaskerConnection.TargetAlreadyClosed`). The target is always the stored connection, and it is
  open exactly when the running task is not between closing it and clearing its fields
  (`TaskerConnection.TargetIsStored`).
- A call of `Run` need not return: a listener can time out while a client holds the token, and the
  client then waits at the rendezvous forever (`WorkerSafety.RendezvousOrNever`,
  `WorkerWitnesses.StrandedHolder`). There is no other way: every other call can still return
  (`WorkerProgress.RunReturnsExactly`).
- A result need not be sent: the table entry is deleted by task and not by channel, so a late delete can
  remove the channel of the next work for that task (`WorkerWitnesses.ResultAboutToBeLost`). It is sent
  exactly when the entry is still there (`WorkerSafety.SentOrLost`), and always if calls for one task on
  one worker do not overlap from the token to the reply (`WorkerDelivery.SerialRunsSend`).
- A result that was sent need not reach a call: a second call that already waited for the token registers its
  own channel over the entry (`WorkerWitnesses.ResultForgotten`), or the worker empties its table
  (`WorkerWitnesses.ResultPurged`). It can still be received exactly when a call waits for it, or it is the
  entry of its task and a call can come to that worker (`WorkerResults.ReceivedExactly`); three steps end its
  being the entry and no others (`WorkerResults.EntryStep`). If calls for one task on one worker do not
  overlap from reading the table to the reply, it stays the entry until a call takes it or the worker ends
  (`WorkerKeeping.ExclusiveCallsKeepResults`), and the next call gets it (`WorkerKeeping.NextCallGetsIt`).
- Two creations can race for one key, and the elder worker's exit removes the younger's entry from the
  registry (`WorkerWitnesses.TwoWorkersForOneKey`, `WorkerWitnesses.LiveWorkerUnregistered`). A worker
  stays registered exactly as long as nobody creates another for its key and none of its key
  unregisters (`WorkerRegistry.RegisteredExactly`); each key has at most one live worker at all times exactly
  when no creation replaces an entry of the registry (`WorkerRegistry.OneLivePerKey`).
- The key of the describe cache is the upper-cased connect string and procedure with a dot between them,
  although what a name means depends on the user of the session that asks. Two names share an entry
  exactly when they differ in case and user only, or by where the connect string ends
  (`DescribeCoherence.SharedKeys`); entries agree with the database exactly when names that share one
  mean the same object (`DescribeCoherence.SourceKeyExactly`). Two users with a procedure of their own,
  two quoted names and a connect string with a dot break it (`DescribeCoherence.UsersClash`,
  `DescribeCoherence.QuotedNamesClash`, `DescribeCoherence.DotsClash`).
- With a memory limit of 2^63 - 1 the multipart reader loses the content of every file, because the
  limit plus one is negative (`Multipart.ContentsKept`).
- `prev` in users.go is filled by `copy` into an empty slice and so stays empty: an empty buffer never
  clears the user table (`UserTable.Users.UpdateUsers`).
- Different negative numbers are listed in reverse (`SortKeys.KeysCompareAsNumbers`).
- Chunk-wise repair of line ends differs from repair of the whole text exactly when a chunk boundary
  separates a CR from its LF (`LineEnds.ChunkedEqualsWhole`).
- Boolean values, dates and parameter names are quoted without doubling their quotes: they are read back
  as they were exactly when they have none (`StatementText.UndoubledRoundTrip`,
  `ExtendedParameters.ExtTokens`). The statement is read as it was meant exactly when names consist of
  the characters of identifiers and names and booleans have no quotes (`StatementWhole.WholeReadExactly`).
- A placeholder need not carry the value meant for it. Run binds seventeen names of its own, thirteen before
  and four behind the parameters, and a saved copy is bound under the name with a `#` behind it. An
  argument `package_name` gets the package of the procedure (`StatementBinds.PackageReplaces`), an
  argument `num_params` replaces run's own number (`StatementBinds.ArgumentReplaces`), and of `x` and
  `x#` the one prepared last counts (`StatementBinds.CopiesCollide`). All carry their own values exactly
  when no two that write one key write different values (`StatementBinds.OwnExactly`); distinct names
  that are not reserved suffice (`StatementBinds.OwnValues`). To Oracle, which ignores the case of
  placeholders, `a` and `A` are one name and to the map two (`StatementBinds.CasesCollide`); the
  condition is then about keys up to case (`StatementBinds.OwnInAnyCaseExactly`).
- An element of a string table is shown trimmed and bound without its CRs; the two agree under an exact
  condition (`StatementReading.ShownElementIsBound`).

## Model

| member | source | states |
|---|---|---|
| WorkerStep.StepKeepsInv | otasker/worker.go:43-278 | every atomic action of any client, listener or breaker keeps the invariant over tokens, clients, workers, channels, history, registry, lock and session counter |
| WorkerStep.ReachableInv | otasker/worker.go:43-278 | the invariant holds after every finite interleaving |
| WorkerSafety.TokenConservation | otasker/worker.go:50-269 | each worker's token is in exactly one place: not yet sent, in the channel, held by a client before the rendezvous, with the listener at work, or taken by Break |
| WorkerSafety.SendsNeverBlock | otasker/worker.go:50-118 | the sends of the first token, of the returned token and of a result find room whenever they are reached |
| WorkerSafety.HolderExcludesWork | otasker/worker.go:203-227 | while a client holds the token no work is executing, the token is not in the channel and no other client holds it |
| WorkerSafety.ResultRouting | otasker/worker.go:197-254 | a result that Run returns is that of an execution of the same task on the worker of the caller's own key, sent once into one channel and received by that call alone |
| WorkerSafety.OneRunPerExecution | otasker/worker.go:238-246 | two calls of Run never return the result of one execution, even for the same task |
| WorkerSafety.OneResultPerChannel | otasker/worker.go:223-246 | a result channel carries at most one result, is received from at most once and belongs to at most one execution |
| WorkerSafety.SendsIntoOwnChannel | otasker/worker.go:114-117 | the channel that the listener looks up is the one registered for the current work, and nothing was sent into it |
| WorkerSafety.RegistrySafety | otasker/worker.go:74-195 | a registered worker has the key it is found under and its listener has not yet unregistered, however creations raced |
| WorkerSafety.SessionCount | otasker/worker.go:74-192 | numberOfSessions is the workers counted at creation minus the listeners that finished, and never negative |
| WorkerSafety.BreakDisablesIdleWorker | otasker/worker.go:256-270 | after a Break that found the token, no continuation executes a work on that worker or gives a client its token |
| WorkerBreaks.InterruptsExactly | otasker/worker.go:256-274 | trying for the token decides: a Break that does not find it can still enter the Break of that worker's tasker, and one that finds it has returned |
| WorkerBreaks.EntersExactly | otasker/worker.go:256-274 | in every reachable state a Break that has found a worker can still enter its tasker's Break exactly when the token can be absent from the channel as it tries |
| WorkerBreaks.OnlyBreakersKill | otasker/oratasker.go:1097-1120 | a tasker's Break begins only by a call that did not find its worker idle, goes on only by the steps of that call, and nothing else hands a session over |
| WorkerBreaks.BreakReturns | otasker/worker.go:256-276 | in every reachable state every call of Break can still return |
| WorkerBreaks.BreakerKillsOwnSession | otasker/worker.go:256-274 | a reachable state in which a Break of a worker that is executing has handed over the session of that worker's own connection |
| WorkerSafety.NoWorkAfterLeaving | otasker/worker.go:92-130 | a listener that has left its loop never executes again, in any continuation |
| WorkerSafety.RendezvousOrNever | otasker/worker.go:223-227 | a client at the rendezvous can proceed exactly when its listener is selecting; otherwise it stays there in every continuation |
| WorkerSafety.SentOrLost | otasker/worker.go:114-118 | a finished execution's result is sent exactly when the table still has its task; otherwise no continuation ever sends into its channel |
| WorkerRegistry.RegisteredStep | otasker/worker.go:76-195 | in one event a registered worker stays registered exactly when the event is neither a creation for its key nor an Unregister by a worker of its key; one that is not is never registered again |
| WorkerRegistry.RegisteredExactly | otasker/worker.go:76-195 | the same over every run, as an equivalence |
| WorkerRegistry.SoleIsRegistered | otasker/worker.go:76-195 | in every reachable state the only worker of a key is registered exactly until its listener unregisters |
| WorkerRegistry.CreationMakesTwo | otasker/worker.go:171-195 | a creation ends with two live workers for a key exactly when there was a live one |
| WorkerRegistry.OneLivePerKey | otasker/worker.go:160-195 | over every run each key has at most one live worker exactly when no creation replaces an entry of the registry; then every live worker is registered |
| WorkerRegistry.OneCreatorAtATime | otasker/worker.go:160-195 | if calls that create for one key do not overlap, each key has one live worker at most and every live worker is registered |
| WorkerDelivery.SerialRunsSend | otasker/worker.go:105-254 | if calls for one task on one worker do not overlap from the token to the reply, the listener finds the channel of its work and every finished execution has sent its result, once |
| WorkerResults.ReceivedExactly | otasker/worker.go:114-254 | in every reachable state a result that was sent and not received can still reach a call exactly when a call waits for it, or it is the entry of its task and the worker is registered or a call for that task is on its way to the table |
| WorkerResults.EntryStep | otasker/worker.go:128-246 | a channel stays the entry of its task exactly until a call registers another for it, a call deletes the entry of that task, or the listener empties the table |
| WorkerResults.WaitStep | otasker/worker.go:203-246 | a call waits for a result exactly from finding its channel in the table until it takes the result or gives up |
| WorkerKeeping.ExclusiveCallsKeepResults | otasker/worker.go:114-254 | if calls for one task on one worker do not overlap from reading the table to the reply: every execution's result is in the listener's hands, or was received by one call that returns it, or is in its channel, which is the entry of its task until the worker empties its table |
| WorkerKeeping.NextCallGetsIt | otasker/worker.go:197-246 | then the next call for the task finds the channel and can take the result at once, without a second execution |
| WorkerExecution.ExecutesExactly | otasker/worker.go:50-130 | a registered worker can still execute exactly when its listener has not left, Break has not taken its token and it is not returning from an interrupted execution |
| WorkerExecution.DesertedForever | otasker/worker.go:50-130 | a worker that is not registered, that no call is at and that has no work in hand never executes again |
| WorkerProgress.RunReturnsExactly | otasker/worker.go:197-254 | in every reachable state a call of Run can still return exactly when it does not hold the token of a worker whose listener has left |
| WorkerReplies.RepliesExactly | otasker/worker.go:197-254 | a call that returns is told to offer a break exactly if it never came to wait for a result, gets a result exactly if it received one, and is told to go on waiting otherwise |
| WorkerReplies.InterruptedIsLast | otasker/worker.go:105-122 | an interrupted execution is the worker's last in every continuation; behind another one more can follow if the worker is registered |
| WorkerWitnesses.StrandedHolder | otasker/worker.go:124-227 | a reachable state in which a client holds the token of a worker whose listener has left |
| WorkerWitnesses.TwoWorkersForOneKey | otasker/worker.go:171-195 | a reachable state with two live workers for one key |
| WorkerWitnesses.LiveWorkerUnregistered | otasker/worker.go:76-80 | a reachable state in which a waiting worker is missing from the registry |
| WorkerWitnesses.ResultAboutToBeLost | otasker/worker.go:241-246 | a reachable state in which a late delete has removed the channel of a running work whose client waits for it |
| WorkerWitnesses.BreakFindsToken | otasker/worker.go:256-270 | a reachable state in which Break finds the token of an idle worker, and the state it leaves |
| WorkerWitnesses.ResultForgotten | otasker/worker.go:203-246 | a reachable state, by a run without overlapping active calls, in which a sent result can reach no call and the request is about to be executed again |
| WorkerWitnesses.ResultPurged | otasker/worker.go:74-88 | a reachable state in which a sent result was dropped with the table of a listener that timed out |
| TaskerConnection.TaskerRunKeepsInv | otasker/oratasker.go:153-333 | every interleaving of single field writes of Run and CloseAndFree with single reads of Break keeps the connection invariant |
| TaskerConnection.BreakCoherence | otasker/oratasker.go:1097-1120 | whatever Break hands to killSession is user, password, connect string and session of one connection that this tasker opened, and Break never follows a nil connection |
| TaskerConnection.TargetIsStored | otasker/oratasker.go:285-310 | from reading the target until Break returns it is the stored connection, which is open exactly when the running task is not between closing it and clearing its fields |
| TaskerConnection.BreakAlone | otasker/oratasker.go:1097-1120 | a Break that nothing interferes with hands over the stored credentials and session exactly when a task is working, a connection is stored, it is open and its session is known |
| TaskerConnection.TargetAlreadyClosed | otasker/oratasker.go:285-310 | a reachable state in which Break hands over a session that is closed |
| TaskerConnection.ConnectionConservation | otasker/oratasker.go:153-310 | opened minus closed connections is 0 or 1, and 0 when none is stored or after CloseAndFree |
| TaskerConnection.BetweenRuns | otasker/oratasker.go:205-249 | between runs: after a failure nothing is open and nothing stored; after a success its connection is open and its credentials are stored |
| TaskerConnection.PanicOnlyAfterFree | otasker/oratasker.go:278-280 | the panic is unreachable, and a Run after CloseAndFree would reach it exactly when the stored connection is asked for again |
| WorkerTaskers.ReachableInv | otasker/worker.go:50-130 | listener and tasker stay in step in every interleaving of both systems |
| WorkerTaskers.NothingRunsAfterLeaving | otasker/worker.go:84-130 | once a listener has left its loop its tasker is in no Run and none can begin; CloseAndFree never waits; after it nothing is open; the panic in connect is unreachable |
| WorkerTaskers.NoRunFollows | otasker/worker.go:84-130 | in every continuation no Run of that tasker returns and no connection is opened |
| WorkerTaskers.OneRunForEachWork | otasker/worker.go:99-122 | in every run the tasker's Run is entered once for each work its worker executes, and at most once more for the work in hand |
| WorkerTaskers.SessionsBoundConnections | otasker/worker.go:74-192 | never more open connections than numberOfSessions, one for each worker at most |
| OracleTaskerCode.FollowsKeepsInv | otasker/oratasker.go:167-333 | what the methods of the tasker do step by step keeps the invariant of the transition system |
| OracleTaskerCode.OracleTasker.Run | otasker/oratasker.go:167-249 | is a run of the transition system; exits exactly when the environment is empty; else succeeds exactly when its own connection is there or can be made and the request succeeds; afterwards the credentials are its own, or everything is cleared |
| OracleTaskerCode.OracleTasker.Connect | otasker/oratasker.go:251-283 | reuses the connection exactly when all credentials agree, else closes it and logs on; success exactly when reused or both logon and session query succeed |
| OracleTaskerCode.OracleTasker.Disconnect | otasker/oratasker.go:285-310 | closes or frees the connection and clears the fields by steps of the transition system, from any point that calls it |
| OracleTaskerCode.OracleTasker.EvalSessionID | otasker/oratasker.go:312-333 | clears the session identifier, queries it and stores it by steps of the transition system |
| OracleTaskerCode.OracleTasker.Free | otasker/oratasker.go:153-165 | after CloseAndFree no connection of this tasker is open |
| DescribeStore.LastRowCounts | otasker/describe.go:211-217 | a name is among the arguments exactly when some row has it, with the type of the last such row |
| DescribeStore.Cache.Store | otasker/describe.go:195-218 | filling an entry in place gives the cache with exactly that entry replaced, cells never shared between entries or with the pool; asked for any argument it then answers with the type of its last row, and with nothing exactly when no row has it |
| DescribeStore.Cache.FillArguments | otasker/describe.go:211-217 | the cells taken from the pool hold the last row of each name, none is used twice or still pooled |
| DescribeStore.Cache.EntryFor | otasker/describe.go:198-207 | an existing entry's cells go to the pool, all of them, a missing one is made; all other entries keep their values |
| DescribeStore.Cache.ProcedureInfo | otasker/describe.go:75-82 | timestamp and package of the entry under the upper-cased key, if there is one |
| DescribeStore.Cache.ArgumentInfo | otasker/describe.go:84-94 | the type of the upper-cased argument under the upper-cased key, if both are there |
| DescribeCache.ReachableInv | otasker/describe.go:96-223 | in every interleaving of describers of all users and DDL, entries and pending answers are taken from versions of an object that a name with that key means |
| DescribeCoherence.CacheCoherence | otasker/describe.go:96-223 | if names in use that share a key mean the same object: an entry is never newer than the database, and with the database's timestamp it has the database's package and arguments |
| DescribeCoherence.EntriesAreVersions | otasker/describe.go:181-218 | every entry's arguments are those of a version at least as new as its timestamp, or none if the object was replaced meanwhile |
| DescribeCoherence.SoloDescribe | otasker/describe.go:160-223 | from any state, an uninterrupted Describe leaves the entry in agreement exactly when there was none, an older one, or one that agreed |
| DescribeCoherence.SoloDescribeAgrees | otasker/describe.go:96-223 | if names in use that share a key mean the same object, an uninterrupted Describe leaves its entry in agreement, in every reachable state |
| DescribeCoherence.DescribeReports | otasker/describe.go:96-223 | what an uninterrupted Describe with any outcomes of its queries reports, exactly, and what it does: if it fetched, lookups answer by the last rows of the current version, else the cache is untouched |
| DescribeCoherence.ReportedSuccess | otasker/describe.go:96-223 | if names in use that share a key mean the same object, an uninterrupted Describe that reports success leaves a cache that answers for the current version |
| DescribeCoherence.SharedKeyFails | otasker/describe.go:96-223 | otherwise a reachable state in which an uninterrupted Describe leaves the arguments of the other object |
| DescribeCoherence.CoherentExactly | otasker/describe.go:96-223 | both properties hold in all reachable states exactly when names in use that share a key mean the same object |
| DescribeCoherence.SharedKeys | otasker/describe.go:78 | two names have one key exactly when they differ in case and user only, or by where the connect string ends |
| DescribeCoherence.SourceKeyExactly | otasker/describe.go:78 | with the code's key both properties hold exactly when such names mean the same object |
| DescribeCoherence.DotFreeExactly | otasker/describe.go:78 | if no connect string has a dot, exactly when names that differ in case and user only mean the same object |
| DescribeCoherence.UsersClash | otasker/describe.go:78 | two users with a procedure of their own each: an uninterrupted Describe leaves the other's arguments |
| DescribeCoherence.QuotedNamesClash | otasker/describe.go:78 | the same for two quoted names that differ in case |
| DescribeCoherence.DotsClash | otasker/describe.go:78 | the same for a connect string with a dot |
| StatementText.ReadExactly | otasker/oratasker.go:637-641 | a literal is read as a value with a rest behind it exactly when the text is the quoted, doubled value and the rest does not begin with a quote |
| StatementText.QuotingRoundTrip | otasker/oratasker.go:1698 | for every value, the scanner returns the value and leaves the suffix exactly when the suffix does not begin with a quote |
| StatementText.UndoubledRoundTrip | otasker/oratasker.go:1395-1396 | a value quoted without doubling is read back exactly when it has no quote |
| StatementText.ScanOfRender | otasker/oratasker.go:1236-1611 | scanning the text of legible pieces gives back their literals and placeholders, in order and nothing else |
| StatementText.FoundIsWritten | otasker/oratasker.go:1236-1611 | the placeholders a scanner finds in the text are those that were written |
| StatementParts.PlaceholdersAreKeys | otasker/oratasker.go:1236-1611 | for every parameter list in every order, the placeholders written for parameters are the keys that parameters bind, but for the saved copies of empty tables |
| StatementValues.TableHolds | otasker/oratasker.go:1402-1429 | a table holds one element for each value, in order: strings without CRs, others trimmed and without CRs, numbers with 0 before a leading comma; times are those of the trimmed values |
| StatementValues.ScalarHolds | otasker/oratasker.go:1250-1400 | a string is bound without CRs, a boolean trimmed and in lower case, others trimmed, an empty number as null; the saved copy is the same text |
| StatementValues.BindsExactly | otasker/oratasker.go:1236-1611 | which keys a parameter binds, by its type code, and whether argument or copy |
| StatementValues.ExecutedValue | otasker/oratasker.go:490-656 | in the map that is executed those are the values under every key that no later parameter and not run itself writes |
| StatementValues.OwnHolds | otasker/oratasker.go:407-450 | the number, the names and the values of the environment, in order |
| StatementValues.OutputHolds | otasker/oratasker.go:490-502 | the ten variables that the statement writes are bound to themselves |
| StatementValues.LateHolds | otasker/oratasker.go:620-652 | package, number, names and first values of the parameters |
| StatementValues.TrimmedExactly | otasker/oratasker.go:1641 | trimming keeps the text up to the last character that is neither CR nor LF |
| StatementValues.CaseAt | otasker/oratasker.go:1382-1396 | case mapping moves ASCII letters between the alphabets and changes nothing else |
| StatementBinds.LastBindingCounts | otasker/oratasker.go:490-652 | under every key of the whole map is the value of the last to write it: one of the four written behind the parameters, else the last parameter, else one of the thirteen written before |
| StatementBinds.OwnExactly | otasker/oratasker.go:490-652 | everything bound, by run or by a parameter, is what the statement is executed with exactly when no two that write one key write different values |
| StatementBinds.OwnInAnyCaseExactly | otasker/oratasker.go:490-656 | if placeholders ignore case, exactly when no two that write keys equal up to case write different values |
| StatementBinds.OwnValues | otasker/oratasker.go:490-652 | it holds if no two names are equal, none is another's with `#` behind it and none is one of run's seventeen |
| StatementBinds.OutputKept | otasker/oratasker.go:490-502 | a variable that the statement writes, and the number of variables of the environment, is still run's own exactly when no parameter binds its name |
| StatementBinds.PackageReplaces | otasker/oratasker.go:626 | an argument named package_name gets the package of the procedure, whatever its value |
| StatementBinds.ArgumentReplaces | otasker/oratasker.go:490-502 | an argument named num_params replaces the number of variables of the environment |
| StatementBinds.CopiesCollide | otasker/oratasker.go:1279-1307 | the saved copy of `x` and the argument `x#` share a key, and the one prepared last counts |
| StatementBinds.CasesCollide | otasker/oratasker.go:490-656 | of `a` and `A` the map keeps both, so that one placeholder has two values |
| StatementParts.SameArguments | otasker/oratasker.go:1284-1294 | both argument lists have one argument for each parameter of the procedure, in the order prepared |
| StatementParts.UsedIsDeclared | otasker/oratasker.go:1279-1307 | every variable assigned, passed or saved in the shown block is declared in it |
| StatementParts.DeclaredAreParameters | otasker/oratasker.go:1279-1307 | the variables declared are those of the parameters, all of them |
| StatementReading.StoresReadExactly | otasker/oratasker.go:1236-1611 | the saving calls are read as they were meant exactly when each of their placeholders and booleans can be read |
| StatementReading.ArgsReadExactly | otasker/oratasker.go:1284-1294 | the argument list is read as it was meant exactly when the names of the arguments are identifiers |
| StatementReading.FoundAreKeys | otasker/oratasker.go:1236-1611 | both exactly under that condition, and then the placeholders found in them are the keys that the parameters bind, but for the copies of empty tables |
| StatementArguments.ArgumentLists | otasker/oratasker.go:1284-1294 | split at ", ", the executed argument list is `name => :name` and the shown one `name => l_name` for each argument of the procedure, in the same order, exactly when no name has a comma before a space or at its end |
| StatementReading.ShownIsBound | otasker/oratasker.go:1681-1698 | a shown string literal reads back as the very string that is bound and saved |
| StatementReading.ShownElementIsBound | otasker/oratasker.go:1432-1443 | a shown table element reads back as the bound one exactly when the text kept has no CR and the text trimmed has no LF |
| ExtendedParameters.ExtTokens | otasker/oratasker.go:628-641 | a scanner reads from the lines of the extended parameters the upper-cased names and then the values, each in order, exactly when no name has a quote |
| StatementBuilder.Builder.PrepareScalar | otasker/oratasker.go:1666-1721 | the buffers and the map grow by the parameter's pieces; which outcome, for a missing value or a variable that Oracle does not create |
| StatementBuilder.Builder.PrepareTable | otasker/oratasker.go:1402-1588 | the same for tables, with one assignment and one saving call for each element |
| StatementBuilder.Builder.PrepareParam | otasker/oratasker.go:1236-1611 | on success the buffers and the map are those of one parameter more; boolean tables are refused |
| StatementBuilder.Builder.Prepare | otasker/oratasker.go:552-606 | after both loops the buffers, the extended parameters and, behind run's own variables, the map are those of the files and then the named query parameters, whatever each lookup of an argument answers; which outcome otherwise, a file that cannot be saved included |
| StatementBuilder.Builder.WriteExtended | otasker/oratasker.go:628-641 | both blocks get the count, the names and the values of the extended parameters |
| StatementBuilder.Build | otasker/oratasker.go:402-656 | what run executes: the template filled with run's own lines, the extended parameters, the saving calls and the arguments of all parameters, and the whole map; or which outcome instead |
| StatementRequests.RequestsExactly | otasker/oratasker.go:552-606 | prepared are the files, in order, and behind them the query parameters whose name is not blank, in order, with their values and the answer of their lookup |
| StatementRequests.TrimExactly | otasker/oratasker.go:588 | a query parameter's name loses the spaces at its head and its end and nothing else |
| StatementRequests.OutcomeExactly | otasker/oratasker.go:552-606 | preparing succeeds exactly when every file was saved, every parameter has a value, none is a table of booleans and every variable is created; else it ends as the first that fails |
| StatementRequests.FailureExactly | otasker/oratasker.go:1236-1611 | which failure a parameter ends with |
| StatementRequests.EnvText | otasker/oratasker.go:436-455 | the shown block begins with the number, names and values of the environment |
| StatementWhole.WholePlaceholders | otasker/oratasker.go:339-656 | the placeholders of the whole statement are the keys of the whole map, but for the copies of empty tables |
| StatementLines.LinesWritten | otasker/oratasker.go:1236-1611 | the lines that declare, assign and save the parameters are the given texts, one parameter behind the other, tables element by element |
| StatementLines.ExecArgsWritten | otasker/oratasker.go:1284-1294 | the executed argument list is `name => :name` for each parameter of the procedure, booleans compared with 'true', with ", " between them |
| StatementLines.ShowArgsWritten | otasker/oratasker.go:1290-1294 | the shown argument list is `name => l_name` for the same parameters |
| StatementLines.ExtText | otasker/oratasker.go:628-641 | count, upper-cased names and doubled values of the extended parameters, each with its number |
| StatementLines.InitText | otasker/oratasker.go:338-346 | the set part begins by taking over the seven inputs |
| Text.DecimalIsNumeral | otasker/oratasker.go:628-641 | the text of a number consists of digits, stands for it and has no leading zero |
| StatementWhole.WholeReadExactly | otasker/oratasker.go:339-656 | a scanner reads the whole statement as it was meant exactly when names are made of identifier characters wherever they stand in placeholders, and names and booleans have no quotes |
| StatementBuilder.FinishedPlaceholders | otasker/oratasker.go:402-656 | whenever the loops come to their end, the placeholders of the whole statement and the keys of the whole map are the same, because an empty parameter stops the loops |
| StatementBuilder.FinishedText | otasker/oratasker.go:402-656 | and a scanner reads the whole statement as it was meant exactly when all of it can be read, and then finds in it exactly these keys |
| LineEnds.AddCRLoop | otasker/oratasker.go:1645-1664 | the rune-decoding loop computes the byte-level function on every byte string, valid UTF-8 or not |
| LineEnds.EveryLFAfterCR | otasker/oratasker.go:1645-1664 | in the result every LF is preceded by a CR |
| LineEnds.AddCRIdempotent | otasker/oratasker.go:1645-1664 | repairing twice is repairing once |
| LineEnds.RemoveAfterAdd | otasker/oratasker.go:1643-1664 | removing the CRs after adding them is removing them at once |
| LineEnds.AddCRLength | otasker/oratasker.go:1645-1664 | the text grows by the number of line feeds that no CR precedes |
| LineEnds.GetRestChunks | otasker/oratasker.go:783-856 | every fetched chunk is repaired and appended in order, up to the first that stops the loop; how the loop ends, or that it still asks for more |
| LineEnds.ChunkedEqualsWhole | otasker/oratasker.go:827-853 | repairing chunk by chunk equals repairing the whole exactly when no boundary separates a CR from its LF |
| LineEnds.WholeResponse | otasker/oratasker.go:728-735 | the same for the first part of the content together with the chunks |
| MetaCharset.ReplaceEach | otasker/crutches.go:12-18 | for any list of tags, replacing one after the other is one simultaneous replacement of all |
| MetaCharset.ReplaceAfterScan | otasker/crutches.go:14-16 | a replacement never completes an occurrence of another pattern |
| MetaCharset.FixMeta | otasker/crutches.go:12-18 | the body with every occurrence of a pattern replaced in one scan |
| MetaCharset.FixMetaRemovesPatterns | otasker/crutches.go:85-93 | no pattern occurs in the result |
| MetaCharset.Declarations | otasker/crutches.go:85-93 | what is replaced are the declarations of windows-1251 in three spellings, by that of utf-8 |
| MetaCharset.DeclarationReplaced | otasker/crutches.go:12-18 | a declaration behind text without tags is replaced and the rest treated alike |
| MetaCharset.FixMetaIdempotent | otasker/crutches.go:12-18 | fixing a fixed body changes nothing |
| MetaCharset.OnlyPatternsChange | otasker/crutches.go:12-18 | everything outside the replaced occurrences is kept, in order |
| FileNames.UnescapeEscape | otasker/crutches.go:40-43 | query-unescaping undoes query-escaping on every byte string |
| FileNames.EscapedIsNoEncodedWord | otasker/crutches.go:37-43 | an escaped name never begins like an encoded word |
| FileNames.EncodeFilenameIdempotent | otasker/crutches.go:36-44 | encoding an encoded name changes nothing, decodable or not |
| FileNames.EncodedNameMeansTheSame | otasker/crutches.go:36-44 | the encoded name means what the name did, whether that is an encoded word or a decoded name |
| FileNames.EncodedForm | otasker/crutches.go:40-43 | a name of letters, digits, `-`, `.`, `_`, `~` stays; every other becomes such characters, `+` and `%` with two upper-case digits, one for each safe byte and each space and three for any other byte |
| FileNames.EscapedByteByByte | otasker/crutches.go:40-43 | escaping writes byte for byte: a safe byte as it is, a space as `+`, any other as `%` and the digits of its value |
| FileNames.DecodableExactly | otasker/crutches.go:40-43 | decoding fails exactly when some `%` is not followed by two hexadecimal digits of either case |
| FileNames.WordsStay | otasker/crutches.go:37-39 | exactly the names that begin with `=?utf-8?` are encoded words, and they are left alone |
| FileNames.EncodedAlike | otasker/crutches.go:36-44 | any two names are encoded alike exactly when they mean the same |
| Multipart.ReadFormEx | otasker/oraparsemultipart.go:51-126 | succeeds exactly when no part fails, the named values total less than 10 MB and every file that does not fit can be stored; every value and file is filed complete and in order, in memory exactly the files that fit into what those before them leave, the files on disk exactly those of the form; on failure the disk is as before |
| Multipart.ReadParts | otasker/oraparsemultipart.go:61-123 | where the loop stops, why, and what has been read, filed and stored by then |
| Multipart.StoreFile | otasker/oraparsemultipart.go:95-121 | a file is kept in memory exactly if it fits, else spilled to a new file; when it succeeds, exactly; a failure leaves no file |
| Multipart.ReadValue | otasker/oraparsemultipart.go:78-87 | a value is read complete, or refused when it reaches the bytes left, and which error |
| Multipart.RemoveAll | otasker/oraparsemultipart.go:139-152 | exactly the temporary files of the form are removed |
| Multipart.ContentsKept | otasker/oraparsemultipart.go:101-171 | opening the files of the form gives back the bodies of their parts, name by name and in order, exactly when the limit is not 2^63 - 1 or all bodies are empty |
| Multipart.ReadFileItems | otasker/oraparsemultipart.go:207-250 | succeeds exactly when no I/O fails and the named values total less than 10 MB, and files the p_arg_names value in force at each file |
| Multipart.ReadersAgree | otasker/oraparsemultipart.go:207-250 | name by name and in order, the second loop returns the lastArg of each file header of the first |
| FormParts.ValueMapByName | otasker/oraparsemultipart.go:88 | under each name are exactly the values of that name, in stream order |
| FormParts.FiledByName | otasker/oraparsemultipart.go:122 | under each name are exactly the files of that name, in stream order |
| FormOrder.ValuePositions | otasker/oraparsemultipart.go:78-92 | under a name are the contents of the parts of that name without file name, each where the number of those before it says |
| FormOrder.UploadPositions | otasker/oraparsemultipart.go:93-122 | the files are the parts with both names, in stream order, with the p_arg_names value in force |
| FormOrder.FiledPositions | otasker/oraparsemultipart.go:122 | under a name are the files of that name, each where the number of those before it says |
| FormOrder.ArgInForce | otasker/oraparsemultipart.go:89-91 | in force is the last value called p_arg_names, and nothing before the first |
| FormOrder.TotalIsValues | otasker/oraparsemultipart.go:78-87 | what counts against the 10 MB are the bytes of the named values |
| SortKeys.DigitsOrder | otasker/stat.go:119 | fixed-width decimal texts are ordered as their numbers |
| SortKeys.KeyOrder | otasker/stat.go:118-119 | for all int64, keys are ordered with negatives first and in reverse, then the others in order; different numbers have different keys |
| SortKeys.LessExactly | otasker/stat.go:45-47 | one key is before another exactly if it has the smaller character where they first differ, or ends there |
| SortKeys.SortKeyReads | otasker/stat.go:118-119 | a key is forty characters that stand for its number, behind a minus sign if it is negative |
| SortKeys.KeysCompareAsNumbers | otasker/stat.go:45-47 | comparing keys is comparing numbers exactly when not both are negative, or they are equal |
| SortKeys.CollectRows | otasker/stat.go:126-132 | the loop lists every registered worker once |
| SortKeys.CollectIsNumeric | otasker/stat.go:126-139 | sorted by a numeric column, either way, the list still has every registered worker once and is in numeric order exactly when no two workers have different negative numbers |
| UserTable.TableIsLastWins | users.go:85-97 | a name is in the table exactly when a user has it, and then the last such user counts |
| UserTable.Users.Clear | users.go:66-69 | every live cell goes to the pool and the table is empty |
| UserTable.Users.Fill | users.go:85-97 | recycled cells give the last-wins table, none live twice or live and pooled |
| UserTable.Users.UpdateUsers | users.go:54-100 | a non-empty buffer replaces the table by that of its users; an empty one changes nothing |
| UserTable.Users.GetUserInfo | users.go:16-24 | the user of the upper-cased name, or the defaults |
| UserTable.LastNonEmptyBufferWins | users.go:54-100 | after any updates a name is looked up in the last non-empty buffer alone, where the last user of that name wins |

## Left out

- OracleTaskerCode.OracleTasker.Run: does not model the error texts of packError and the dump file; the outcomes of logon, session query and request are parameters.
- TaskerConnection.ConnectionConservation: a Close that fails is not modelled; only Close, Free and a lost logon end a connection.
- DescribeCoherence.CacheCoherence: assumes that DDL times of an object strictly increase; the one-second grain of Oracle dates and the `sysdate` of a recompiled object are not modelled.
- DescribeCoherence.SharedKeys: upper-casing is that of ASCII letters.
- DescribeCache.ReachableInv: what a name means to a user is fixed; a synonym that comes to mean another object while the program runs is not modelled.
- StatementParts.TypeText: a char stands for a byte, as everywhere in these files; case mapping is that of ASCII letters.
- StatementReading.FoundAreKeys: the configured name of the saving procedure has no quote and no colon.
- StatementBuilder.Build: Describe and the creation of run's first thirteen variables succeed; a count beyond 32 bits is not modelled; the text for display is built but not put together.
- SortKeys.CollectIsNumeric: the algorithm of sort.Sort is not modelled, only its promise of a permutation without inversions.
- UserTable.Users.UpdateUsers: the JSON decoder is a parameter; what it yields for a malformed buffer is whatever it has decoded so far.
- Multipart.ReadFormEx: the parts are what multipart.Reader delivers; removals of temporary files are assumed to succeed.
- StatementWhole.WholeReadExactly: the fixed texts of owaapex.go, owaclassic.go and owaekb.go, the configured scripts and the procedure's name are a template that can be read and has the ten output placeholders, which all three have; the path that serves resources through get_resource is left out.
- The step log and the durations, the metrics other than numberOfSessions, wall-clock time: timeouts are steps that may happen at any time.
- That sync.Pool may drop cells: a cell taken from it is a pooled one or a new one.
- parseHeaders, fixContentType, ExtractFileName and packError: thin wrappers over string functions and libraries.
- getConnectionParams and the other lookups of users.go: one branch each over getUserInfo.
- WorkerExecution.ExecutesExactly: for a worker that is no longer registered only one direction is proved (WorkerExecution.DesertedForever); whether the calls still at it can reach the token depends on who deletes the entry of their task first.
- WorkerProgress.RunReturnsExactly: says that a call can return, not that it will: no scheduler is assumed to be fair.
- HTTP routing, templates, authentication, SOAP, logging, configuration and service start-up.
