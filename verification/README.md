# Verified models of the backend pattern examples

The repository is a collection of small C++20 programs, one per pattern. This project models the eleven
that hold real concurrent, algorithmic or encoding logic and proves what they are for. Each Dafny module
follows one `examples/<pattern>/main.cpp`.

| module | program | what is proved |
|---|---|---|
| `ThreadPools` | thread_pool | no lost wakeup although `submit` and the destructor notify outside the lock; draining, terminating shutdown; each job runs once and fulfils its own future |
| `BoundedQueues` | bounded_queue | one bounded FIFO; no lost wakeup on two condition variables; no deadlock; `main` processes every item and returns |
| `FirstSuccesses` | futures_promises | the promise is written exactly once in every interleaving, with a value iff some lookup succeeds |
| `Strategies` | strategy | Graham's bound for least-loaded routing, its tightness for every number of backends, the spread bound; round-robin counts and what the wrap of `next_` does to them |
| `Arenas` | rule_of_0_5 | every run over an explicit heap behaves like plain byte strings: no leak, double free, sharing or stray access |
| `Reactors` | reactor | framing round trip under partial writes; the loop throws exactly when an answer of the system fails, and otherwise logs every source's lines in order, then one EOF; exact dispatch budget |
| `Facades` | facade | a batched fetch refines plain lookups and, from an agreeing cache, the database itself |
| `JsonLogs` | bridge | a decoder inverts the JSON formatter; when its strings are valid JSON |
| `CacheKeys` | traits_tag_dispatch | keys of NUL-free parts are uniquely decodable; exactly which part types stay unambiguous without that condition; hex round trip |
| `Routers` | composite | tree dispatch is the first match of a flat table; exactly when no reordering of children can matter |
| `Connections` | state | exactly which call histories let a query execute |

`Sums`, `Division`, `Sequences`, `Options` and `Bytes` hold shared definitions and helper lemmas.

## How the concurrent programs are modelled

`ThreadPools`, `BoundedQueues` and `FirstSuccesses` are interleavings of atomic steps by any number of
threads. A step is one block executed under the mutex (its notifications included when the code notifies
before unlocking), one notification made after unlocking, one atomic operation, one write to the promise, one
join, or the end of one job. `Enabled` says when a step can happen, `Apply` what it does, `Run` what a
schedule does; theorems quantify over every executable schedule. The classes of the same modules write
each step as the code does, on mutable fields, and their contracts say that the whole new state is what
`Apply` says; their `ExecuteAll` performs a whole schedule and ends in the state of `Run`. Atomics are
sequentially consistent, as with the default memory order.

Condition variables follow section 32.6 of ISO C++20: `notify_one` wakes one waiting thread if there is any,
the scheduler choosing which, `notify_all` wakes all, and a waiting thread may wake spuriously. A `wait`
with a predicate is a loop, so a woken thread is one that will lock the mutex and test the predicate
again. In the wakeup invariants a "notified" thread is a thread that has been woken and has not yet done so.

Termination is by potential: each module bounds the number of steps of a run by a number computed from its
start, with explicit charges for what clients and the environment add (jobs submitted, spurious wakeups).
During shutdown of the pool even spurious wakeups use the potential up.

## Where code and comments differ

- examples/traits_tag_dispatch/main.cpp:43 says that the delimiter makes boundaries unambiguous. It does for
  strings without NUL (`CacheKeys.DecodeBack`). For other strings it does exactly when at most one part is a
  string or a `UserKey` (`CacheKeys.UnambiguousIff`; `NulMovesBetweenStrings` is a collision).
- examples/bridge/main.cpp:82-102 escapes backslash, quote and newline only, so the output is a JSON string
  by section 7 of RFC 8259 exactly for inputs without other control characters (`JsonLogs.EscapeValidIff`);
  a tab is one (`EscapedTabIsInvalid`).
- examples/strategy/main.cpp:34-35 rotates by an unsigned counter. When it wraps after 2^64 requests the
  rotation goes on undisturbed exactly if the number of backends divides 2^64
  (`Strategies.RoundRobinSurvivesWrap`); three do not (`WrapBreaksThree`).
- examples/state/main.cpp:170-175 accepts AUTH_OK whether or not `authenticate` was called, so that call does
  not appear in the condition of `Connections.QueryExecutesIff`; `ReadyWithoutAuthenticate` is such a history.

## Model

| member | source | states |
|---|---|---|
| `ThreadPools.NoLostWakeup` | examples/thread_pool/main.cpp:93-107 | in every reachable state before stopping, if a worker sleeps un-notified, the queue is no longer than the woken workers plus the submitters that still owe their notify |
| `ThreadPools.NoStuckJob` | examples/thread_pool/main.cpp:114-139 | before stopping, a pool that cannot move on its own has an empty queue and has run everything it accepted, each outcome in its own future |
| `ThreadPools.RunKeepsOrder` | examples/thread_pool/main.cpp:93-106 | jobs start in acceptance order, futures once fulfilled never change, and nothing is accepted once stopping is set |
| `ThreadPools.AcceptedAreSubmissions` | examples/thread_pool/main.cpp:93-106 | the accepted jobs are those that clients submit before the destructor is called, in order, each with its own outcome |
| `ThreadPools.DrainedWhenAllExited` | examples/thread_pool/main.cpp:126-134 | when all workers have exited, the jobs popped are exactly those accepted, once each and in order, and every future holds its job's outcome |
| `ThreadPools.DestructorReturnsDrained` | examples/thread_pool/main.cpp:44-53 | the destructor returns only after every job submitted before it was called has run, in submission order, and has fulfilled its own future |
| `ThreadPools.StepPotential` | examples/thread_pool/main.cpp:44-139 | a submission adds 4 to the potential, a spurious wakeup before shutdown 1, every other step takes at least 1 |
| `ThreadPools.RunIsBounded` | examples/thread_pool/main.cpp:44-139 | from any state satisfying the invariant, own steps are bounded by the potential plus 4 per accepted job plus 1 per spurious wakeup |
| `ThreadPools.RunFromStartIsBounded` | examples/thread_pool/main.cpp:31-139 | from construction, own steps are at most 4 per thread plus 2, plus 4 per accepted job, plus 1 per spurious wakeup |
| `ThreadPools.ShutdownTerminates` | examples/thread_pool/main.cpp:44-53 | once stopping is set, all steps but rejected submissions, spurious wakeups included, are bounded in numbers of workers, queued jobs and submitters |
| `ThreadPools.ShutdownNeverStuck` | examples/thread_pool/main.cpp:49-52 | during shutdown some own step is always possible until the last join has returned |
| `ThreadPools.JobsInvStep` | examples/thread_pool/main.cpp:105-137 | accepted jobs stay the disjoint union of finished, running and queued under every step |
| `ThreadPools.WakeInvStep` | examples/thread_pool/main.cpp:93-135 | the wakeup invariant is kept by every step |
| `ThreadPools.ReachableInv` | examples/thread_pool/main.cpp:29-146 | every reachable state satisfies both invariants and has a worker |
| `ThreadPools.RunExtends` | examples/thread_pool/main.cpp:41-139 | a run can be continued by exactly the steps enabled at its end |
| `ThreadPools.SchedulerIsFree` | examples/thread_pool/main.cpp:41-139 | clients may submit at any time, a notification may wake any sleeper, sleepers may wake by themselves, awake workers and jobs may go on |
| `ThreadPools.ThreadPool.constructor` | examples/thread_pool/main.cpp:31-39 | starts the given number of workers, none of them having looked at the queue |
| `ThreadPools.ThreadPool.Make` | examples/thread_pool/main.cpp:31-34 | no pool exactly for zero threads |
| `ThreadPools.ThreadPool.SubmitLocked` | examples/thread_pool/main.cpp:93-106 | an accepted job goes to the end of the queue and makes the caller owe a notify; rejected exactly when stopping |
| `ThreadPools.ThreadPool.NotifyOne` | examples/thread_pool/main.cpp:107 | wakes one sleeper if there is any and settles the debt |
| `ThreadPools.ThreadPool.StopLocked` | examples/thread_pool/main.cpp:45-48 | sets stopping and owes the broadcast |
| `ThreadPools.ThreadPool.NotifyAll` | examples/thread_pool/main.cpp:49 | wakes every sleeper |
| `ThreadPools.ThreadPool.JoinNext` | examples/thread_pool/main.cpp:50-52 | joins the next worker, which has exited |
| `ThreadPools.ThreadPool.CheckQueueLocked` | examples/thread_pool/main.cpp:119-134 | sleeps, exits or pops the front job, by the wait predicate and the exit test |
| `ThreadPools.ThreadPool.RunJob` | examples/thread_pool/main.cpp:137 | stores the job's value or exception in its future and goes back to the queue |
| `ThreadPools.ThreadPool.ExecuteAll` | examples/thread_pool/main.cpp:31-139 | calling the members in the order of any schedule leaves the object in the state of `Run` |
| `BoundedQueues.LinearisesToFifo` | examples/bounded_queue/main.cpp:49-71 | pushed = popped followed by stored, at most as many stored as the capacity the queue was built with, each producer's ids in its own order, a push fails only on a closed queue |
| `BoundedQueues.PushBlocksIffFull` | examples/bounded_queue/main.cpp:49-59 | a push fails iff closed, blocks iff open with at least that capacity stored, and otherwise puts its item at the end |
| `BoundedQueues.NoLostWakeup` | examples/bounded_queue/main.cpp:49-71 | while open: a sleeping consumer implies size <= woken consumers, a sleeping producer implies free slots <= woken producers |
| `BoundedQueues.NoDeadlock` | examples/bounded_queue/main.cpp:30-71 | with a consumer, when nothing inside can move all producers have finished, the queue is empty, and consumers wait for a close that has not come or are all done |
| `BoundedQueues.NeverAllAsleep` | examples/bounded_queue/main.cpp:30-71 | producers and consumers are never all asleep together, neither while open nor after close while its broadcasts are owed |
| `BoundedQueues.ClosedNobodySleeps` | examples/bounded_queue/main.cpp:51-66 | after close no step puts a thread to sleep |
| `BoundedQueues.CloseWakesEveryone` | examples/bounded_queue/main.cpp:39-46 | after close a sleeper always has its broadcast still to come, and it wakes all |
| `BoundedQueues.StepPotential` | examples/bounded_queue/main.cpp:39-110 | a spurious wakeup adds 1 to the potential, every other step takes at least 1 |
| `BoundedQueues.RunIsBounded` | examples/bounded_queue/main.cpp:39-110 | a run from any state has at most as many steps as the state's potential plus two for each spurious wakeup |
| `BoundedQueues.RunFromStartIsBounded` | examples/bounded_queue/main.cpp:30-110 | from construction, the steps of a run are bounded in numbers of items, producers, consumers, closers and spurious wakeups |
| `BoundedQueues.MainProcessesEverything` | examples/bounded_queue/main.cpp:118-131 | in main's order, once the consumers have returned nothing is left, every id was popped in its producer's order, and processed is the number of items |
| `BoundedQueues.MainNeverStuck` | examples/bounded_queue/main.cpp:118-129 | until then some thread can move or main may call close |
| `BoundedQueues.MainOrderIff` | examples/bounded_queue/main.cpp:118-129 | main's order means that at each call of close every producer has returned |
| `BoundedQueues.MainReturns` | examples/bounded_queue/main.cpp:86-129 | a run in main's order has bounded length, and when nothing can move any more every consumer has returned, the queue is empty, every producer's ids were popped in order and `processed` is the number of items |
| `BoundedQueues.OrderInvStep` | examples/bounded_queue/main.cpp:49-71 | the FIFO invariant is kept by every step |
| `BoundedQueues.CountInvStep` | examples/bounded_queue/main.cpp:86-110 | items to push, pushed, being handled and processed always add up |
| `BoundedQueues.WakeInvStep` | examples/bounded_queue/main.cpp:39-71 | the wakeup invariant of both condition variables is kept by every step |
| `BoundedQueues.ReachableInv` | examples/bounded_queue/main.cpp:27-80 | every reachable state of a queue of positive capacity satisfies the invariants |
| `BoundedQueues.RunExtends` | examples/bounded_queue/main.cpp:39-110 | a run can be continued by exactly the steps enabled at its end |
| `BoundedQueues.SchedulerIsFree` | examples/bounded_queue/main.cpp:39-110 | threads that do not sleep may take the lock, a notification may wake any sleeper, sleepers may wake by themselves, close may be called |
| `BoundedQueues.BoundedQueue.Make` | examples/bounded_queue/main.cpp:30-34 | no queue exactly for capacity zero; otherwise an empty, open one of the given capacity |
| `BoundedQueues.BoundedQueue.Push` | examples/bounded_queue/main.cpp:49-58 | sleeps when full, returns false exactly when closed, else enqueues and wakes one consumer |
| `BoundedQueues.BoundedQueue.Pop` | examples/bounded_queue/main.cpp:61-71 | sleeps when empty, returns nothing exactly when closed and empty, else dequeues the front and wakes one producer |
| `BoundedQueues.BoundedQueue.CloseLocked` | examples/bounded_queue/main.cpp:40-43 | sets closed and owes both broadcasts |
| `BoundedQueues.BoundedQueue.NotifyAllNotEmpty` | examples/bounded_queue/main.cpp:44 | wakes every sleeping consumer |
| `BoundedQueues.BoundedQueue.NotifyAllNotFull` | examples/bounded_queue/main.cpp:45 | wakes every sleeping producer |
| `BoundedQueues.BoundedQueue.CountProcessed` | examples/bounded_queue/main.cpp:106 | counts one handled item |
| `BoundedQueues.BoundedQueue.ExecuteAll` | examples/bounded_queue/main.cpp:30-110 | calling the members in the order of any schedule leaves the object in the state of `Run` |
| `FirstSuccesses.WrittenExactlyOnce` | examples/futures_promises/main.cpp:48-95 | in every interleaving the promise is written at most once, no write throws, and it is written exactly once when all threads have finished |
| `FirstSuccesses.ValueIffSomeSuccess` | examples/futures_promises/main.cpp:48-83 | a value iff some lookup succeeds, then that of the successful lookup with the first turn of all; otherwise, after all n failed, the error of the thread whose first turn comes latest |
| `FirstSuccesses.LastFailureWins` | examples/futures_promises/main.cpp:71-81 | the last failure finds done false and all n errors stored, so the fallback error is never used |
| `FirstSuccesses.StoredErrorsWereThrown` | examples/futures_promises/main.cpp:57-60 | only errors thrown by lookups are ever stored |
| `FirstSuccesses.FinishesWithinFiveStepsEach` | examples/futures_promises/main.cpp:87-95 | a run has at most five shared operations per lookup |
| `FirstSuccesses.StuckIsFinished` | examples/futures_promises/main.cpp:48-83 | a run that cannot go on has finished every thread |
| `FirstSuccesses.RunInv` | examples/futures_promises/main.cpp:48-95 | the invariant holds over every run, and a written promise never changes |
| `FirstSuccesses.RunExtends` | examples/futures_promises/main.cpp:48-95 | a run can be continued by exactly the threads that have not finished |
| `FirstSuccesses.FirstSuccess.ExchangeDone` | examples/futures_promises/main.cpp:49 | only the thread that finds done false goes on to write |
| `FirstSuccesses.FirstSuccess.SetPromiseValue` | examples/futures_promises/main.cpp:50 | writes the thread's value, or reports a failure if the promise were already satisfied |
| `FirstSuccesses.FirstSuccess.StoreLastError` | examples/futures_promises/main.cpp:57-60 | replaces the last error by this thread's |
| `FirstSuccesses.FirstSuccess.FetchSub` | examples/futures_promises/main.cpp:71 | the thread that takes remaining from 1 to 0 goes on |
| `FirstSuccesses.FirstSuccess.ReadLastError` | examples/futures_promises/main.cpp:73-79 | takes the last error, or the fallback if there were none |
| `FirstSuccesses.FirstSuccess.SetPromiseException` | examples/futures_promises/main.cpp:80 | writes the error, or terminates if the promise were already satisfied |
| `FirstSuccesses.FirstSuccess.ExecuteAll` | examples/futures_promises/main.cpp:48-95 | performing the shared operations in any interleaving leaves the object in the state of `Run` |
| `Strategies.LeastLoaded` | examples/strategy/main.cpp:48-50 | the first backend of least load |
| `Strategies.RouteOneMore` | examples/strategy/main.cpp:58-60 | each request goes to the backend least loaded at that moment |
| `Strategies.AssignChangesOneLoad` | examples/strategy/main.cpp:58-60 | a request adds its work to one load and changes nothing else |
| `Strategies.TotalLoad` | examples/strategy/main.cpp:58-60 | loads always sum to the initial loads plus the works |
| `Strategies.ReceivedLoadBound` | examples/strategy/main.cpp:43-60 | every backend that received a request satisfies n * load <= total + (n - 1) * largest work |
| `Strategies.GrahamBound` | examples/strategy/main.cpp:43-60 | from idle backends, n * load <= (2n - 1) * makespan of any other assignment |
| `Strategies.GrahamBoundIsTight` | examples/strategy/main.cpp:43-60 | for every n there are works on which another assignment stays within n and this strategy reaches 2n - 1 |
| `Strategies.SpreadBound` | examples/strategy/main.cpp:43-60 | the spread never exceeds the larger of the initial spread and the largest work |
| `Strategies.RoundRobinCount` | examples/strategy/main.cpp:33-37 | after k <= 2^64 requests backend j was chosen exactly (k + n - 1 - j) / n times |
| `Strategies.TimesChosenIs` | examples/strategy/main.cpp:33-37 | where the count is the number of requests that went to that backend |
| `Strategies.RoundRobinIsFair` | examples/strategy/main.cpp:33-37 | counts differ by at most 1 and any n consecutive requests reach each backend once |
| `Strategies.RoundRobinSurvivesWrap` | examples/strategy/main.cpp:34-35 | request k goes to backend k mod n for every k iff n divides 2^64 |
| `Strategies.WrapBreaksThree` | examples/strategy/main.cpp:34-35 | with three backends request 2^64 goes to backend 0, out of turn |
| `Strategies.RoundRobinStrategy.ChooseBackend` | examples/strategy/main.cpp:33-37 | chooses by the counter and adds one to it, back to 0 after 2^64 - 1 |
| `Strategies.LeastLoadedStrategy.ChooseBackend` | examples/strategy/main.cpp:45-51 | returns the first index whose load no other is below |
| `Strategies.RequestRouter.HandleRequest` | examples/strategy/main.cpp:58-60 | the chosen backend, and no other, takes on the work and keeps its name |
| `Strategies.RequestRouter.HandleAll` | examples/strategy/main.cpp:58-60 | a sequence of requests leaves the backends as the bounds and counts above speak of them |
| `Arenas.RunIsValueSemantics` | examples/rule_of_0_5/main.cpp:51-119 | any run does to the arenas' contents what the same operations do to plain byte strings, and keeps the ownership bijection |
| `Arenas.OwnershipOverRuns` | examples/rule_of_0_5/main.cpp:51-119 | from the empty heap: no memory error, data null iff size 0 and else a block of that size, no sharing, no lost block, empty heap once all arenas are destroyed |
| `Arenas.InvStep` | examples/rule_of_0_5/main.cpp:51-119 | every operation, failed allocations and self-assignment included, keeps live blocks and non-null pointers in bijection |
| `Arenas.MeaningStep` | examples/rule_of_0_5/main.cpp:51-119 | every operation does to the contents what it means on byte strings |
| `Arenas.FailedCopyAssignChangesNothing` | examples/rule_of_0_5/main.cpp:74-81 | a copy assignment that throws leaves heap and arenas as they were |
| `Arenas.CallersAreFree` | examples/rule_of_0_5/main.cpp:51-119 | existing arenas can be used in any way, also with themselves, and malloc may answer null or any block that is not live |
| `Arenas.RunExtends` | examples/rule_of_0_5/main.cpp:51-119 | a program can be continued by exactly the operations that are legal at its end |
| `Arenas.CopyIsCorrect` | examples/rule_of_0_5/main.cpp:62-71 | a copy owns a new block holding the original's bytes |
| `Arenas.Arena.Make` | examples/rule_of_0_5/main.cpp:51-56 | allocates unless empty; no object when the allocation fails |
| `Arenas.Arena.MakeCopy` | examples/rule_of_0_5/main.cpp:62-71 | allocates and copies; no object when the allocation fails |
| `Arenas.Arena.MakeMoved` | examples/rule_of_0_5/main.cpp:84-87 | takes over the block and leaves the source empty |
| `Arenas.Arena.AssignFrom` | examples/rule_of_0_5/main.cpp:74-81 | self-assignment changes nothing; otherwise copy, swap and free the old block, or nothing when the copy throws |
| `Arenas.Arena.MoveFrom` | examples/rule_of_0_5/main.cpp:90-100 | self-move changes nothing; otherwise free the old block, take over, leave the source empty |
| `Arenas.Arena.SwapWith` | examples/rule_of_0_5/main.cpp:116-119 | exchanges the two arenas, also with itself |
| `Arenas.Arena.WriteAt` | examples/rule_of_0_5/main.cpp:102-107 | overwrites the range in place, or throws exactly when it ends beyond the size |
| `Arenas.Arena.ReadAt` | examples/rule_of_0_5/main.cpp:109-114 | returns that range of the contents, or throws exactly when it ends beyond the size |
| `Arenas.Arena.Dispose` | examples/rule_of_0_5/main.cpp:59 | frees the owned block |
| `Arenas.Program.Step` | examples/rule_of_0_5/main.cpp:51-119 | calling the members on real objects, possibly the same object twice, has the effect on heap and arenas that the run theorems speak of |
| `Arenas.Program.Execute` | examples/rule_of_0_5/main.cpp:51-119 | a whole program of such calls ends in the state of `Run`, so the ownership and value theorems hold of the objects |
| `Reactors.JoinSplit` | examples/reactor/main.cpp:146-167 | splitting at newlines loses nothing and leaves newline-free pieces |
| `Reactors.SplitJoin` | examples/reactor/main.cpp:146-167 | and is the only such splitting |
| `Reactors.FramingRoundTrip` | examples/reactor/main.cpp:136-167 | newline-free payloads come back exactly from the bytes written for them |
| `Reactors.WriteMessage` | examples/reactor/main.cpp:99-110 | the whole message is written, whatever the sizes of the partial writes, exactly when no call of `write` made for it fails; otherwise exactly the bytes taken before the failing call |
| `Reactors.ShortMeansError` | examples/reactor/main.cpp:99-110 | fewer bytes are taken only if the call made with just the rest of them failed |
| `Reactors.AcceptedByCalls` | examples/reactor/main.cpp:99-110 | the bytes taken are those of successive calls, each made with what the earlier ones left, up to the end or the first call that fails |
| `Reactors.SimulateSource` | examples/reactor/main.cpp:136-144 | without write errors the pipe gets exactly the encoded payloads; otherwise a proper prefix that ends inside the first payload that failed |
| `Reactors.InterruptedSource` | examples/reactor/main.cpp:136-167 | from a writer that failed, the reader gets the payloads before the failing one and, as if it were a whole message, what was taken of that one |
| `Reactors.Reactor.DrainOneMessage` | examples/reactor/main.cpp:146-167 | one call logs one line, or the non-empty tail and then EOF, or fails at the end of a broken source; it keeps the source open exactly when there was a newline |
| `Reactors.Reactor.Dispatch` | examples/reactor/main.cpp:232-239 | throws exactly at the end of a broken source; a watcher is retired exactly at end of file, and active stays the number of unretired watchers |
| `Reactors.Reactor.Round` | examples/reactor/main.cpp:219-240 | exactly the ready, unretired watchers are dispatched, once each, in order, up to the first that is broken and at its end, where the round throws |
| `Reactors.Reactor.Loop` | examples/reactor/main.cpp:199-241 | throws exactly when an answer of `poll` is an error while a source is unfinished or flags a broken source at its end; otherwise every source has had exactly the calls it was flagged for, and the loop ends exactly when they suffice, with all messages logged and then one EOF |
| `Reactors.FailsBeforeIff` | examples/reactor/main.cpp:199-241 | what makes the loop throw, in plain terms |
| `Reactors.FlaggedIs` | examples/reactor/main.cpp:199-241 | the calls a source gets are counted by the answers that flag it |
| `Reactors.Reactor.LoopUntilRetired` | examples/reactor/main.cpp:199-241 | without errors, and with enough answers that flag unfinished sources, the loop ends with everything logged |
| `Reactors.UsefulPollsFinish` | examples/reactor/main.cpp:199-241 | if each answer flags some unfinished source, one answer for every newline and every source is enough |
| `Reactors.Reactor.EofIffRetired` | examples/reactor/main.cpp:146-167 | at every moment, also after a throw, EOF is logged exactly for retired watchers, and the log is a prefix of the messages followed by EOF |
| `Reactors.EofIsLast` | examples/reactor/main.cpp:150-156 | EOF is logged by the last call for a source and by no other, after everything else |
| `Reactors.Reactor.DispatchBudget` | examples/reactor/main.cpp:199-241 | dispatches never exceed newlines plus sources, with equality exactly when nothing is active |
| `Reactors.Reactor.SourceRoundTrip` | examples/reactor/main.cpp:136-241 | at the end each source's log is its emitted payloads in order, then one EOF |
| `Facades.UserProfileFacade.FetchProfiles` | examples/facade/main.cpp:105-145 | position i holds the cache-else-database answer for id i, the cache is warmed with the loaded rows, and hits, database hits and misses grow by exactly the number of ids |
| `Facades.UserProfileFacade.FetchAll` | examples/facade/main.cpp:105-145 | a sequence of batches on the object gives the database's own answer at every position and keeps the cache in agreement |
| `Facades.UserProfileFacade.CollectMisses` | examples/facade/main.cpp:108-117 | counts the hits and pairs every miss with its position |
| `Facades.UserProfileFacade.MergeLoaded` | examples/facade/main.cpp:123-137 | puts each loaded row back at its position and counts it |
| `Facades.BatchesRefineDatabase` | examples/facade/main.cpp:105-145 | over any sequence of batches from an agreeing cache, every answer is the database's |
| `Facades.WarmedAgrees` | examples/facade/main.cpp:139-142 | warming keeps agreement and makes every requested existing id a hit |
| `Facades.WarmedIs` | examples/facade/main.cpp:139-142 | over a keyed database a batch adds exactly the rows of the requested ids the cache did not hold |
| `Facades.RepeatHitsNoRows` | examples/facade/main.cpp:105-145 | repeating a batch adds no database hit |
| `Facades.BatchCounts` | examples/facade/main.cpp:110-137 | misses and loaded rows are counted with multiplicity by which table holds the id |
| `Facades.CountInIs` | examples/facade/main.cpp:110-137 | where the counts are numbers of positions |
| `Facades.ProfileCache.GetMany` | examples/facade/main.cpp:46-60 | aligned cache answers |
| `Facades.ProfileCache.PutMany` | examples/facade/main.cpp:62-66 | files each profile under its own user id, the last one winning |
| `Facades.PutAllIs` | examples/facade/main.cpp:62-66 | the profile filed last for an id replaces whatever the cache held for it; other entries stay |
| `Facades.ProfileDatabase.LoadMany` | examples/facade/main.cpp:76-90 | aligned database answers |
| `JsonLogs.DecodeFormat` | examples/bridge/main.cpp:126-140 | the decoder recovers level, message and the ordered fields for all strings |
| `JsonLogs.FormatInjective` | examples/bridge/main.cpp:126-140 | different events never format alike |
| `JsonLogs.FormatLayout` | examples/bridge/main.cpp:126-140 | the layout of a line, keys, quotes and separators included |
| `JsonLogs.ReadEscaped` | examples/bridge/main.cpp:82-102 | an escaped string is read back exactly, up to its closing quote and no further |
| `JsonLogs.EscapePlain` | examples/bridge/main.cpp:82-102 | other characters are copied, and the three escapes are the standard ones |
| `JsonLogs.EscapeValidIff` | examples/bridge/main.cpp:82-102 | the escaped string is valid exactly for inputs without control characters other than newline |
| `JsonLogs.EscapedTabIsInvalid` | examples/bridge/main.cpp:82-102 | an input on the failing side: a tab stays a raw tab |
| `JsonLogs.FormatOneLine` | examples/bridge/main.cpp:126-140 | the output holds no raw newline |
| `JsonLogs.EscapeJson` | examples/bridge/main.cpp:82-102 | the loop computes the escaped string |
| `JsonLogs.JsonLogger.FormatEvent` | examples/bridge/main.cpp:126-140 | the buffer built is the formatted event |
| `JsonLogs.JsonLogger.Emit` | examples/bridge/main.cpp:77 | the line added to the sink decodes to the event |
| `JsonLogs.JsonLogger.Info` | examples/bridge/main.cpp:65-67 | logs the message and fields at level INFO |
| `JsonLogs.JsonLogger.Warn` | examples/bridge/main.cpp:69-71 | logs the message and fields at level WARN |
| `CacheKeys.LittleEndianRoundTrip` | examples/traits_tag_dispatch/main.cpp:68-75 | a value that fits its width is recovered from its bytes |
| `CacheKeys.LittleEndianByte` | examples/traits_tag_dispatch/main.cpp:68-75 | byte i holds bits 8i to 8i + 7 of the value |
| `CacheKeys.DecodeBack` | examples/traits_tag_dispatch/main.cpp:41-100 | for any sequence of part types, NUL-free parts are read back from their key, whatever follows it |
| `CacheKeys.NulFreeKeysInjective` | examples/traits_tag_dispatch/main.cpp:41-100 | such keys collide only for equal parts |
| `CacheKeys.UnambiguousIff` | examples/traits_tag_dispatch/main.cpp:41-100 | with NUL allowed, keys of given part types are unambiguous iff at most one of them is a string or a user key |
| `CacheKeys.NulMovesBetweenStrings` | examples/traits_tag_dispatch/main.cpp:41-44 | two strings of which one is a NUL have the same key whichever it is |
| `CacheKeys.FromHexToHex` | examples/traits_tag_dispatch/main.cpp:102-114 | two digits a byte, inverted by reading nibbles |
| `CacheKeys.HexDigits` | examples/traits_tag_dispatch/main.cpp:102-114 | byte i becomes the digits of its high and its low half, in that order |
| `CacheKeys.ByteVector.AppendString` | examples/traits_tag_dispatch/main.cpp:41-44 | appends the characters and the delimiter |
| `CacheKeys.ByteVector.AppendPart` | examples/traits_tag_dispatch/main.cpp:68-100 | appends a string and its NUL, the bytes of an integer, or the tag 0xA5, the eight bytes of the id and the region |
| `CacheKeys.ByteVector.AppendParts` | examples/traits_tag_dispatch/main.cpp:172-174 | successive calls append the key of the list |
| `CacheKeys.ToHexLoop` | examples/traits_tag_dispatch/main.cpp:102-114 | the loop computes the hexadecimal form |
| `Routers.HandleIsFirstMatch` | examples/composite/main.cpp:43-79 | recursive dispatch is the first match of the depth-first table guarded by all ancestor prefixes |
| `Routers.AnswersByFirstEndpoint` | examples/composite/main.cpp:43-79 | a tree answers with its first endpoint that has the method and path and whose path goes on after every prefix around it, and declines exactly if there is none |
| `Routers.StartsWithIff` | examples/composite/main.cpp:58-60 | a string starts with a prefix iff it is the prefix followed by something |
| `Routers.WellPrefixedTree` | examples/composite/main.cpp:43-79 | if every endpoint's path extends its ancestors' prefixes, the guards can be dropped and every endpoint's own request is answered |
| `Routers.OrderNeverMattersIff` | examples/composite/main.cpp:73-78 | no reordering of children, at any levels of the tree, changes any answer iff endpoints that can answer the same request answer alike |
| `Routers.ReorderedRoutes` | examples/composite/main.cpp:66-78 | such a reordering keeps all endpoints with their guards |
| `Routers.MoveToFront` | examples/composite/main.cpp:66-78 | some reordering makes any given endpoint the first that is tried |
| `Routers.OrderDoesNotMatter` | examples/composite/main.cpp:73-78 | then trees with the same endpoints in any order answer alike |
| `Routers.ReorderedGroup` | examples/composite/main.cpp:66-78 | reordering children at any level keeps the endpoints |
| `Routers.TryHandle` | examples/composite/main.cpp:43-79 | writes the response exactly when it returns true |
| `Routers.Dispatch` | examples/composite/main.cpp:86-93 | answers 200 with the first match, exactly if some endpoint is for the request, and otherwise 404 |
| `Connections.ReadyIff` | examples/state/main.cpp:70-194 | the exact shape of the histories after which a connection is ready |
| `Connections.QueryExecutesIff` | examples/state/main.cpp:136-138 | a query executes exactly after such a history and never changes the state |
| `Connections.ReadyWithoutAuthenticate` | examples/state/main.cpp:170-175 | connect, socket-connected and AUTH_OK alone make a connection ready and let a query execute |
| `Connections.Connection.ConnectCall` | examples/state/main.cpp:45 | starts connecting only when disconnected |
| `Connections.Connection.AuthenticateCall` | examples/state/main.cpp:47 | changes no state |
| `Connections.Connection.SendQueryCall` | examples/state/main.cpp:49 | executes the query exactly when ready |
| `Connections.Connection.OnSocketConnected` | examples/state/main.cpp:51 | matters only while connecting |
| `Connections.Connection.OnBytesReceived` | examples/state/main.cpp:53-55 | AUTH_OK and AUTH_FAIL matter only while authenticating |
| `Connections.Connection.OnSocketClosed` | examples/state/main.cpp:57-59 | disconnects from every other state |

## Left out

- Arenas.Arena.WriteAt: requires that offset plus length does not wrap 2^64, the condition under which the range test of the code means what it says.
- Arenas.Arena.ReadAt: the same, and it is stated for an arena that owns its block, which every run provides.
- Strategies.RequestRouter.HandleRequest: requires that the new load fits a C++ `int`; loads are unbounded integers in the routing lemmas.
- ThreadPools.NoStuckJob: says that a non-spurious step is enabled, not that an endless stream of spurious wakeups cannot delay it.
- ThreadPools.RunIsBounded: every started job is taken to end; a job that waits for another job of the same pool is not part of the model.
- Arenas.Program.Execute: the same for every write of the program.
- Strategies.RequestRouter.HandleAll: like `HandleRequest`, requires that the loads fit a C++ `int` after every request.
- BoundedQueues.NoDeadlock: stated with at least one consumer; without one, producers of more items than the capacity wait for ever, as the pattern intends.
- Arenas.Program.Step: like `WriteAt`, its writes do not wrap 2^64; the written bytes are a value, not a view into the same arena.
- FirstSuccesses.WrittenExactlyOnce: the object is constructed with the number of lookups that are launched, as `run_lookup_demo` does.
- CacheKeys.LittleEndianRoundTrip: the machine is little-endian; a trivially copyable part is an integer of some width.
- Reactors.Reactor.Loop: takes the answers of `poll` as given and a source's bytes as all that its writer will ever put in the pipe.
- Inside the mutex: locking itself is not modelled; a block under the lock is one step.
- Mutual exclusion, futures' blocking `get`, `wait_for` timeouts, sleeps and clocks.
- Console output of examples/common/log.h, except where a delivered message is the observable result.
- `::close` on a descriptor that a `UniqueFd` still owns (examples/reactor/main.cpp:236): descriptors are only numbers here.
- `TextLogger::format`, whose output is ambiguous by design, and the redaction functions of `LogTraits`.
- `expensive_parse` and `ResponseBuffer::join`.
- abstract_factory, proxy, flyweight and nvi, smaller cases of the facade's cache; command, observer, type_erasure, decorator and visitor, straight-line dispatch; adapter, factory_method, pimpl, raii and smart_pointers, wiring and library ownership.
