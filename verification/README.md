# Verified models of the concurrency course repository

This project models the parts of the repository whose correctness is hard to see from the
code, and proves what those parts are for. Everything is stated for every input, every
interleaving and any number of threads, records, nodes, words or slots.

* **Transaction engine** (`project2`). Threads run `j += i + 1; k -= i` over shared records
  under strict two-phase locking, with FIFO request queues, a reader/writer lock that consults
  the queue, a wait-for graph with cycle detection, rollback, and early lock release under a
  global mutex. `LockManager.dfy` holds the lock and the monitor as classes; `Engine.dfy` is
  the step machine of the threads; `QueueOrder`, `EngineLocks`, `WaitGraph`, `GraphSteps`,
  `SerialData` and `SerialSteps` prove its invariant; `EngineTheorems.dfy` has the results over
  runs, `EngineProgress.dfy` that transactions are committed and none is left over, and
  `LogCheck.dfy` the log checker `test.py`. `FineEngine.dfy` is the same engine with a
  finer grain: releases in three steps, sleeping and waking, and spinning. `FineProof` and
  `FineSteps` show that it refines the engine, `FineTheorems.dfy` what survives and exactly
  when it stops, `FineSolo.dfy` that it commits, and `FineWitness.dfy` a run that stops.
* **Sorted-list sets** (`lab11`). `CoarseList.dfy` is the list with one mutex, on the heap.
  `OptimisticList` and `HandList` are step machines of the optimistic and the hand-over-hand
  list, the latter with `free` and reuse of addresses. `ListSpec` is the abstract set and
  `SortedChain` the chain of nodes common to both. `OptimisticSolo` and `HandSolo` show that
  calls return, and `HandMemory` where the memory of the hand-over-hand list goes.
* **Multi-pattern matcher** (`project1`). `Trie.dfy` and `Matcher.dfy` are the table with
  swapped rows and the class `AhoCorasick`; `Kmp.dfy` is the second solution; `Agreement.dfy`
  shows that the two give the same ordered answer.
* **Client pieces** (`project4`). `LineBuffer.dfy` is the growing line reader and
  `CompletionHash.dfy` the prefix index of tab completion.
* **Snapshot scan** (`project3`). `SnapshotScan.dfy` is the double-collect loop against any
  interference; `SnapshotTheorems.dfy` says when a clean scan is an instant of memory.

`Trails.dfy` holds what continuing a run by the steps of one thread means, for all four machines.

## How the code is modelled

* **Steps of the engine.** One step is one critical section of a record lock's own mutex, one
  access to a record, one `releaseLock`, or one piece of work done with the global mutex held.
  The global mutex is part of the state.
  The choice of the three records is any choice of distinct ones. The output files are
  sequences, and `log` is a history variable listing committed lines in commit order.
* **Atomic release and the finer grain.** In the engine `releaseLock` (erase the request, drop
  the lock, notify) is one step and a wait is a guard on the step. All theorems of
  `EngineTheorems`, safety included, are about that machine. The fine engine takes both apart:
  erase, drop and notify are steps of their own, a test that fails puts the thread to sleep
  until a notification wakes it, and a test that passes the queue while `writing` is still set
  spins with the lock's mutex. Every run of it is a run of the engine with pauses, so
  serializability, the log check and reader/writer safety hold unchanged. Progress does not:
  `FineProgress` proves it as long as nobody spins, so no wake-up is ever lost;
  `TestSpinsIff` says that a test spins exactly between the erase and the drop of a writer's
  lock; `SpinsForEver` and `SpinHalts` that from then on nothing is ever committed; and
  `SomeRunSpins` gives such a run with two threads and three records. A thread left alone never
  spins and never sleeps, so it commits (`FineAloneCommits`). Spurious wake-ups are
  not modelled; they would only repeat a test.
* **Steps of the lists.** One step touches at most one shared `next` field or one mutex, except
  that a removal reads one `next` and writes another in one step, with both nodes locked. The
  sequence of calls that took effect, the unlinked nodes seen when validation began, and the
  logical successor of a half-linked node are history variables. Keys lie strictly between the
  sentinels' keys, memory is sequentially consistent, and the sentinels' mutexes are
  initialised (the optimistic list does not initialise them).
* **Matcher.** Letters are `0..25`, words are non-empty. A word's state is the last index at
  which it was added, so deleting by index removes every copy.
* **Line reader.** A read returns an error or any non-empty part of what is left, up to the
  requested count. Pointers are offsets. The `\r` rule is that of Unix-like platforms.
* **Prefix index.** The hash function is arbitrary. A C string is its characters before the
  terminator; a bucket's list is a sequence, newest word first.
* **Scan.** Memory is any function of time; each slot is read at some time, in order. A slot is
  copied as a whole.

Where the code and what it is meant to do part ways, the code is modelled and the difference is
stated:

* The comment in `wfsnapshot.h` says the stamp represents the update time, but the copy
  constructor resets it, so every update writes stamp 1. The borrowing return is then never
  taken (`ScanOfClass`), and clean scans are not always right: `ScansAreInstantsIff` gives the exact
  set of update orders for which clean scans are still instants of memory, `SmallestTear` the
  smallest order for which they are not, and `CleanScanIsInstant` the claim for stamps that rise.
* The branch of a deadlock on a transaction's first read keeps the global mutex
  (`transaction.cpp:58-61`). `FirstRequestNeverDeadlocks` shows it is never taken.
* The engine's progress depends on nobody testing between two lines of `releaseLock`, as said
  above.
* After a read error the line reader keeps all data, but its line offsets are stale
  (`LineBuffer.Buffer.BatchReadline`).
* `list_add` of the hand-over-hand list does not free its node when it finds the key
  (`fine_grained.cpp:61-65`): `LostNodes` counts exactly one lost node per such call.
* `fill_buffer` sets `end` wrongly when it grows the buffer (`readline.cc:190`); the shift that
  always follows repairs it before it is read.

## Model

| member | source | states |
|---|---|---|
| `LockManager.RWLock.CheckQueue` | project2/rwlock.h:77-116 | the queue test passes exactly if every request in front of the given one is a read and, for a writer, already granted; nothing is changed |
| `LockManager.RWLock.EnterShared` | project2/rwlock.h:43-50 | a reader enters exactly when it may pass the queue and no writer has claimed the lock; only then does the reader count grow |
| `LockManager.RWLock.ClaimExclusive` | project2/rwlock.h:19-25 | a writer claims the lock under the same test and leaves the reader count alone |
| `LockManager.RWLock.UnlockExclusive` | project2/rwlock.h:32-40 | drops the claim, keeps the reader count, and notifies every request waiting for its turn |
| `LockManager.RWLock.UnlockShared` | project2/rwlock.h:53-69 | one reader less, the claim unchanged; notifies the draining writer exactly if it was the last reader under a claim, all waiting requests exactly if there is no claim, and otherwise nobody |
| `LockManager.Monitor.AddDependencies` | project2/monitor.cpp:72-80 | the requester gains an edge to every queued request it conflicts with, and no other edge changes |
| `LockManager.Monitor.FindCycle` | project2/monitor.cpp:82-103 | the breadth-first search terminates and reports a cycle exactly if some path of the graph leads from the requester to itself |
| `LockManager.Monitor.DeadlockCheck` | project2/monitor.cpp:67-127 | `deadlock` exactly if the requester reaches itself in the updated graph, and then nothing is queued; otherwise the request is appended, and a request not queued before gets `get` exactly if nothing queued conflicts with it |
| `LockManager.Monitor.Standing` | project2/monitor.cpp:108-126 | the answer `get` or `waiting` for a request just appended: `get` exactly if no request in front of it conflicts with it |
| `LockManager.ImmediateIff` | project2/monitor.cpp:108-126 | a new request gets its lock at once exactly if nothing queued conflicts with it |
| `LockManager.Monitor.Remove` | project2/monitor.cpp:39-54 | the request leaves its queue and its thread leaves the graph, both as source and as target |
| `LockManager.Monitor.MarkGranted` | project2/monitor.cpp:25-35 | sets the grant flag of that request only |
| `QueueOrder.GrantReader` | project2/rwlock.h:43-50 | letting a reader in keeps the queue invariant: counters agree with granted requests and nobody passed a conflicting request |
| `QueueOrder.ClaimWriter` | project2/rwlock.h:19-25 | so does a writer's claim |
| `QueueOrder.EraseHeld` | project2/monitor.cpp:56-65 | so does releasing a held lock |
| `QueueOrder.WriterAlone` | project2/rwlock.h:19-40 | a granted writer heads its queue, no reader is inside and nobody else is past waiting |
| `QueueOrder.SplitReleaseSpins` | project2/monitor.cpp:56-65 | between the erase and the drop of a writer's lock some request would pass the queue test and still find the lock taken, exactly if any other request is queued |
| `EngineLocks.LockInvStep` | project2/transaction.cpp:32-209 | every step keeps queues, locks and program counters in agreement |
| `EngineTheorems.ReaderWriterSafety` | project2/rwlock.h:19-116 | in every reachable state a record has one granted writer and no one else, or readers only; no request is granted ahead of a conflicting earlier one; `numReader` and `writing` agree with the granted requests |
| `EngineTheorems.NeverSpins` | project2/rwlock.h:22-24 | with release as one step, in every reachable state a request that passes the queue test finds the lock free, so the wait loops never spin |
| `WaitGraph.RankAfterRequest` | project2/monitor.cpp:72-103 | if the requester does not reach itself after its edges are added, the whole graph can still be ranked |
| `WaitGraph.RankedIsAcyclic` | project2/monitor.cpp:82-103 | a ranked graph has no cycle |
| `WaitGraph.FaithfulEnqueue` | project2/monitor.cpp:72-106 | adding the edges and appending the request keep the graph equal to the order of the queues |
| `GraphSteps.ImmediateIsClear` | project2/monitor.cpp:108-123 | after the answer `get` no conflicting request stands in front |
| `GraphSteps.GraphInvStep` | project2/transaction.cpp:52-170 | every step keeps the graph equal to the order of the queues and acyclic, except for the thread in the middle of releasing |
| `EngineTheorems.MutexFreeAcyclic` | project2/monitor.cpp:39-127 | whenever the global mutex is free the graph is acyclic and holds an edge exactly for every request behind an earlier conflicting one |
| `EngineTheorems.MutexHolderRuns` | project2/transaction.cpp:70-76 | a thread that holds the global mutex is never blocked, so `getLock` after `get` never waits |
| `EngineTheorems.DeadlockFreedom` | project2/monitor.cpp:67-127 | with release as one step, in every reachable state with an unfinished thread some thread can step |
| `EngineTheorems.FirstRequestNeverDeadlocks` | project2/transaction.cpp:52-61 | a transaction's first read request never reports a deadlock in any run |
| `EngineTheorems.RequestAnswer` | project2/transaction.cpp:52-76 | in every run a request that closes a cycle is not queued and its thread keeps the global mutex to give up what it has; any other is queued, and its thread keeps the mutex exactly if nothing queued before conflicts |
| `EngineProgress.StopsOnlyWhenFull` | project2/transaction.cpp:37-37 | in every run a thread stops only when exactly E transactions are committed |
| `EngineProgress.EveryStepCounts` | project2/transaction.cpp:37-199 | every step shortens the way of its transaction by a fixed measure, commits it, or finds a deadlock |
| `EngineProgress.AloneCommits` | project2/transaction.cpp:37-199 | from every reachable state with ids left, an unfinished thread commits within 36 of its own steps if the others are between transactions |
| `EngineProgress.AloneCommitsAll` | project2/transaction.cpp:37-202 | and goes on until all E transactions are committed, then stops |
| `SerialData.BothGranted` | project2/rwlock.h:19-50 | two granted requests on one record are both reads |
| `SerialData.RejoinExclusive` | project2/transaction.cpp:64-69 | a thread that passes the global mutex after its grant shares the record with no other transaction in flight, except reads with reads |
| `SerialData.SeesCommitted` | project2/transaction.cpp:81-82 | what a protected record holds before its first write is the committed value |
| `SerialSteps.ValuesCommit` | project2/transaction.cpp:171-182 | at a commit the records written are those of running the transaction alone on the committed state |
| `SerialSteps.ValuesUndo` | project2/transaction.cpp:131-134 | restoring the values read leaves the committed state and everybody else's work intact |
| `SerialSteps.DataInvStep` | project2/transaction.cpp:32-215 | every step keeps records, logged lines and serial replay in agreement |
| `EngineTheorems.RunInv` | project2/transaction.cpp:32-215 | all invariants hold in every state of every run |
| `EngineTheorems.CommitOrderSerializable` | project2/transaction.cpp:171-182 | in every run the logged values are those of replaying the committed transactions in commit order from all-100 records; commit ids are 1, 2, ... without gap or repetition and none exceeds the limit (that none is missing in the end is `EngineProgress.StopsOnlyWhenFull`) |
| `EngineTheorems.CommittedState` | project2/transaction.cpp:118-215 | in every state the committed records sum to 100 per record plus the number of commits, and records untouched by transactions in flight hold their committed values |
| `EngineTheorems.Conservation` | project2/transaction.cpp:130-137 | whenever no transaction is in flight the records are the serial state, whatever was rolled back before |
| `EngineTheorems.ReplaySum` | project2/test.py:32-36 | replaying any log raises the sum of the records by one per line |
| `EngineTheorems.SortedLinesAreLog` | project2/test.py:26-27 | the merged files sorted by commit id are the commit sequence |
| `EngineTheorems.LogCheckSucceeds` | project2/test.py:20-43 | the lines of the files of any run, sorted by commit id, all agree with the replay |
| `LogCheck.ReplayLine` | project2/test.py:34-36 | record j gains the value of record i plus one, record k loses it, and no other record changes |
| `LogCheck.Check` | project2/test.py:29-43 | reports a line as successful exactly if it shows the values of the replay up to it |
| `LogCheck.CheckRun` | project2/test.py:20-43 | on the files of any run of the engine every line is reported successful |
| `FineProof.ReleaseRefines` | project2/monitor.cpp:56-65 | erase, drop and notify together are the engine's release: the erase is that step and the other two are none |
| `FineSteps.FineInvStep` | project2/rwlock.h:19-70 | every step of the fine engine is a step of the engine or none, and keeps its invariant: sleepers have a conflicting request in front or a notification coming, and only a test inside the window spins |
| `FineTheorems.FineRunRefines` | project2/transaction.cpp:32-215 | every run of the fine engine is a run of the engine with pauses |
| `FineTheorems.FineSerializable` | project2/transaction.cpp:171-182 | commit order is serial order in every run of the fine engine |
| `FineTheorems.FineLogCheckSucceeds` | project2/test.py:20-43 | the log checker accepts the files of every run of the fine engine |
| `FineTheorems.FineReaderWriterSafety` | project2/rwlock.h:19-116 | in every run of the fine engine exclusion and queue order hold, and the counters count the granted requests and, until it drops its lock, the thread that has left the queue |
| `FineTheorems.FineProgress` | project2/rwlock.h:22-28 | with sleeping and waking, as long as nobody spins and somebody is unfinished, some thread is awake and can do work, so no wake-up is lost |
| `FineTheorems.WakesOnlyByNotice` | project2/rwlock.h:32-69 | a sleeper wakes only when a lock of its own record is dropped, a waiting request by the notice to the queue and a draining writer by the notice to it |
| `FineSolo.FineStopsOnlyWhenFull` | project2/transaction.cpp:37-37 | in every run of the fine engine a thread stops only when exactly E transactions are committed |
| `FineSolo.AloneMoves` | project2/rwlock.h:19-50 | a thread left alone is awake, is not kept out by a spinning one, and its test succeeds |
| `FineSolo.FineAloneCommits` | project2/transaction.cpp:37-199 | from every reachable state of the fine engine with ids left, a thread left alone commits within 143 of its own steps |
| `FineTheorems.TestSpinsIff` | project2/rwlock.h:22-24 | a request that passes the queue test finds the lock taken exactly between the erase and the drop of a writer's lock of that record |
| `FineTheorems.SpinsForEver` | project2/rwlock.h:46-48 | a thread that spins spins for ever; the releasing thread is blocked, the global mutex stays with it and nothing is committed any more |
| `FineTheorems.SpinHalts` | project2/rwlock.h:46-48 | while a thread spins, every step changes nothing or uses up a finite supply |
| `FineWitness.SomeRunSpins` | project2/monitor.cpp:58-63 | some run with two threads and three records ends with a spinning thread |
| `ListSpec.LegalExtend` | lab11/coarse_grained.cpp:43-112 | a call answered by the abstract set extends a legal sequence of calls |
| `SortedChain.Insert` | lab11/optimistic.cpp:81-82 | linking a node into its gap keeps the sorted chain and adds exactly its key |
| `SortedChain.Delete` | lab11/optimistic.cpp:119-119 | unlinking the successor keeps the chain and removes exactly its key |
| `SortedChain.Found` | lab11/optimistic.cpp:137-151 | where the walk stops, the key is in the set exactly if the current node carries it |
| `SortedChain.ListedIsReachable` | lab11/optimistic.cpp:37-38 | every node of the chain is reached from the head |
| `SortedChain.ReachableIsListed` | lab11/optimistic.cpp:37-38 | and nothing else is |
| `OptimisticProof.ValidateStep` | lab11/optimistic.cpp:41-50 | a step of the unlocked validation keeps the invariant, and success means `prev` is in the list and points to `curr`, whatever removed nodes the walk passed (that it does succeed is `OptimisticSolo.ValidationSucceeds`) |
| `OptimisticProof.InvStep` | lab11/optimistic.cpp:31-157 | every step of every thread keeps the invariant |
| `OptimisticTheorems.ValidationSound` | lab11/optimistic.cpp:41-82 | in every run, after a successful validation `prev` is reachable from the head, adjacent to `curr`, both locked, and the key lies between them |
| `OptimisticTheorems.TakesEffectOnce` | lab11/optimistic.cpp:75-154 | from every reachable state, the set changes only in a step that settles one call while its thread holds both locks, and answer and effect are those of the abstract set at that step |
| `OptimisticTheorems.Linearizable` | lab11/optimistic.cpp:53-157 | in every run the settled calls in order are a legal history, a walk from the head meets exactly the keys it leaves, and each settled call has its place after its invocation |
| `OptimisticTheorems.ReachableIffListed` | lab11/optimistic.cpp:62-67 | in every run the nodes of the list are exactly those reached from the head |
| `OptimisticTheorems.RecordedOnce` | lab11/optimistic.cpp:71-90 | a call is recorded exactly when its thread settles it, once, and before it returns |
| `OptimisticTheorems.RealTimeOrder` | lab11/optimistic.cpp:53-157 | in every run a call that has taken effect comes before every call invoked later |
| `OptimisticTheorems.EveryNodeLeadsToTail` | lab11/optimistic.cpp:41-127 | in every run every node ever linked, removed or not, points to a larger key and leads to the tail |
| `OptimisticTheorems.WalksNeverReachNull` | lab11/optimistic.cpp:62-67 | no thread ever follows a null or wild pointer |
| `OptimisticTheorems.RemovedNodesFrozen` | lab11/optimistic.cpp:119-121 | over the rest of the run a removed node stays removed and neither its key nor its `next` changes |
| `OptimisticTheorems.LockOrder` | lab11/optimistic.cpp:68-69 | the second lock is taken on a larger key while only the first is held |
| `OptimisticTheorems.SomeCallRuns` | lab11/optimistic.cpp:53-157 | while a call is pending some pending call is not blocked (that calls return is `OptimisticSolo.SoloCompletes`) |
| `OptimisticSolo.ValidationSucceeds` | lab11/optimistic.cpp:41-50 | from every reachable state in which the validation's walk leads to `prev` and `curr` is its successor, the thread's own steps end in success, with list and history unchanged |
| `OptimisticSolo.Nearer` | lab11/optimistic.cpp:61-88 | every step of a call lowers a rank, also through failed rounds: a round begun alone succeeds |
| `OptimisticSolo.SoloCompletes` | lab11/optimistic.cpp:53-157 | from every reachable state, if the others are between calls, a pending call returns after a number of its own steps linear in the number of nodes, is recorded, and has the abstract set's answer and effect |
| `HandProof.SuccessorComplete` | lab11/fine_grained.cpp:54-68 | the node a walker waits for is linked completely and is not the one it holds |
| `HandProof.InvStep` | lab11/fine_grained.cpp:31-124 | every step of every thread keeps the invariant |
| `HandTheorems.NeverTouchesFreed` | lab11/fine_grained.cpp:77-103 | in every run no thread holds, waits for, reads, writes or frees a node after `free` |
| `HandTheorems.TakesEffectOnce` | lab11/fine_grained.cpp:61-124 | from every reachable state, the set changes only in a settling step under both locks, with the abstract set's answer and effect |
| `HandTheorems.RefinesCoarseList` | lab11/fine_grained.cpp:44-124 | every run is a legal history of the set operations of the coarse list, a walk from the head meets exactly the keys it leaves, and each settled call has its place after its invocation |
| `HandTheorems.ReachableIffListed` | lab11/fine_grained.cpp:49-59 | in every run the nodes of the list are exactly those reached from the head over the logical successors, which are the pointers of all completely linked nodes |
| `HandTheorems.RecordedOnce` | lab11/fine_grained.cpp:61-73 | a call is recorded exactly when its thread settles it, once, and before it returns |
| `HandTheorems.RealTimeOrder` | lab11/fine_grained.cpp:44-124 | in every run a call that has taken effect comes before every call invoked later |
| `HandTheorems.SomeCallRuns` | lab11/fine_grained.cpp:44-124 | while a call is pending some pending call is not blocked (that calls return is `HandSolo.SoloCompletes`) |
| `HandSolo.SoloCompletes` | lab11/fine_grained.cpp:44-124 | from every reachable state, if the others are between calls, a pending call returns after a number of its own steps linear in the number of nodes, is recorded, and has the abstract set's answer and effect |
| `HandMemory.MemoryRun` | lab11/fine_grained.cpp:45-103 | in every run an unlinked node belongs to the removal about to free it, and the allocated nodes that are not linked are as many as the pending additions and the additions that found their key |
| `HandMemory.LostNodes` | lab11/fine_grained.cpp:61-65 | when no call is pending every node is free, in the list or lost, and one is lost for each addition that found its key |
| `CoarseList.List.constructor` | lab11/coarse_grained.cpp:32-40 | the empty set |
| `CoarseList.List.Locate` | lab11/coarse_grained.cpp:49-55 | finds the adjacent pair around the key and tells whether the key is present |
| `CoarseList.List.Add` | lab11/coarse_grained.cpp:43-68 | the sorted list stays well formed; answer and new set are those of inserting the key |
| `CoarseList.List.Remove` | lab11/coarse_grained.cpp:71-93 | likewise for removing the key |
| `CoarseList.List.Contains` | lab11/coarse_grained.cpp:96-112 | membership, list unchanged |
| `Trie.AddState` | project1/ahocorasick.cpp:76-87 | hanging a new state on the table keeps it the trie of its strings |
| `Trie.MoveState` | project1/ahocorasick.cpp:88-98 | so does swapping a state's row into the next final number and redirecting its edge |
| `Trie.WalkPlaced` | project1/ahocorasick.cpp:126-134 | a walk on the table ends at the state placed for the string, or at -1 if there is none |
| `Matcher.AhoCorasick.InsertLetter` | project1/ahocorasick.cpp:73-101 | one letter of a word extends the trie by its prefix, and by a final state numbered by the word's index at the end |
| `Matcher.AhoCorasick.MakeGraph` | project1/ahocorasick.cpp:42-105 | a string stays on the table from `init_state` exactly if it is a prefix of a word, and ends below `init_state` exactly if it is a word, at the word's last index; no row outside the table is touched |
| `Matcher.TrieRecognizes` | project1/ahocorasick.cpp:42-105 | the same from the invariant of the construction |
| `Matcher.AhoCorasick.AddWord` | project1/ahocorasick.cpp:32-40 | the live words gain exactly the words given, deleted ones among them included |
| `Matcher.AhoCorasick.DeleteWord` | project1/ahocorasick.cpp:152-161 | the live words lose exactly this word, all its copies |
| `Matcher.LiveAfterAdd` | project1/ahocorasick.cpp:32-40 | adding words revives deleted ones, because their last index is new |
| `Matcher.LiveAfterDelete` | project1/ahocorasick.cpp:152-161 | deleting every index of a word removes it from the live words and no other |
| `Matcher.AhoCorasick.ScanFrom` | project1/ahocorasick.cpp:122-147 | after one start position the result holds exactly the live words whose first occurrence is at or before it, in order |
| `Matcher.AhoCorasick.Search` | project1/ahocorasick.cpp:107-150 | after any history of additions and deletions: exactly the live words that occur, each once, ordered by first occurrence and then length |
| `Kmp.GetPi` | project1/kmp_solution/ref_solution.cpp:110-120 | the length of the longest proper border of every prefix |
| `Kmp.FallBack` | project1/kmp_solution/ref_solution.cpp:131-132 | following the border table skips no candidate |
| `Kmp.Search` | project1/kmp_solution/ref_solution.cpp:122-149 | the least match position of a non-empty word, or -1 exactly if there is none |
| `Kmp.SearchAll` | project1/kmp_solution/ref_solution.cpp:52-69 | records the position of every word of the dictionary and nothing else |
| `Agreement.SamePlace` | project1/kmp_solution/ref_solution.cpp:71-74 | of two words first found at one place, the one that sorts first alphabetically is the shorter |
| `Agreement.OrderIsUnique` | project1/kmp_solution/ref_solution.cpp:71-78 | the order by position and length determines the answer |
| `Agreement.MatchersAgree` | project1/kmp_solution/ref_solution.cpp:71-90 | sorting the positions other than -1 by position and word gives the answer of the trie |
| `Agreement.BothAnswers` | project1/ahocorasick.cpp:107-150 | for the same live words and query both programs print the same words in the same order |
| `LineBuffer.Buffer.Grow` | project4/mariadb/server/client/readline.cc:181-190 | doubles the buffer, keeps the current line, and leaves `end` as if the line began at the front |
| `LineBuffer.Buffer.ShiftDown` | project4/mariadb/server/client/readline.cc:193-198 | the line is at the front and `end` is right again |
| `LineBuffer.Buffer.FillBuffer` | project4/mariadb/server/client/readline.cc:157-224 | more data behind the current line with nothing lost; an error exactly if the read failed; end of file only when nothing is left; 0 without end of file only when a line of about half the size limit cannot grow; an incomplete last line gets a newline; the buffer stays within the size limit; after a read error the line and the rest of the file are still there |
| `LineBuffer.Buffer.InternReadLine` | project4/mariadb/server/client/readline.cc:227-265 | terminates, and takes the first line of what is still to be returned, or a cut piece of an overlong one; fails exactly if a read failed; a read error loses nothing, and the next call is possible exactly if the stale line end is inside the buffer |
| `LineBuffer.Buffer.BatchReadline` | project4/mariadb/server/client/readline.cc:57-79 | the next line without newline, without `\r` only in front of a real newline in non-binary file mode; what follows stays to be returned; an error exactly if a read failed, and then buffer and file still hold it all |
| `LineBuffer.Buffer.ReadAll` | project4/mariadb/server/client/readline.cc:57-79 | however reads split the input, the lines returned are the input split at newlines; it succeeds exactly if no read fails, and otherwise the lines so far are the first ones; none is cut if every line is short of half the size limit; cut or not, in binary mode no character but newlines is lost; a string never fails and is never cut |
| `LineBuffer.ReadWhole` | project4/mariadb/server/client/readline.cc:112-124 | opening a file and reading it to the end succeeds exactly if no read fails, and then returns its lines if none is as long as about half the size limit; otherwise the first of its lines |
| `LineBuffer.Buffer.InitFromString` | project4/mariadb/server/client/readline.cc:130-148 | the contents are the earlier contents with their last character replaced by a space, the string and a newline |
| `LineBuffer.Buffer.InitFromStrings` | project4/mariadb/server/client/readline.cc:125-148 | called for several strings in turn, the contents are the strings separated by spaces and a newline |
| `LineBuffer.AnswerKeeps` | project4/mariadb/server/client/readline.cc:239-262 | in binary mode a call loses nothing but a newline, also when it cuts an overlong line |
| `LineBuffer.LinesRoundTrip` | project4/mariadb/server/client/readline.cc:210-218 | the lines of binary mode, each followed by a newline, give back the input, with a final newline if it had none |
| `LineBuffer.LinesPlain` | project4/mariadb/server/client/readline.cc:64-76 | no line holds a newline, and text mode differs from binary mode exactly by taking off one `\r` at the end of a line that ends in a newline |
| `CompletionHash.HashTable.Update` | project4/mariadb/server/client/completion_hash.cc:60-111 | an empty key is refused; otherwise the word goes in front of the key's list and every other key keeps its list, for any hash function and any collisions |
| `CompletionHash.HashTable.Find` | project4/mariadb/server/client/completion_hash.cc:113-133 | the key's bucket with its list and its count, or none exactly if the key has no list |
| `CompletionHash.HashTable.AddWord` | project4/mariadb/server/client/completion_hash.cc:219-225 | the table then indexes the words added so far and this one: every non-empty prefix has exactly its words, newest first |
| `CompletionHash.HashTable.FindAllMatches` | project4/mariadb/server/client/completion_hash.cc:158-171 | all words with the prefix, with their number, or none exactly if no word has it |
| `CompletionHash.HashTable.FindLongestMatch` | project4/mariadb/server/client/completion_hash.cc:173-202 | the length of the longest common prefix of the words that start with the given one, and the bucket of that prefix |
| `CompletionHash.MatchingCounts` | project4/mariadb/server/client/completion_hash.cc:219-225 | the words listed under a prefix are the added words with that prefix, each as often as it was added |
| `CompletionHash.NewestFirst` | project4/mariadb/server/client/completion_hash.cc:78-87 | the words listed under a prefix stand at falling positions among the words added, and none with that prefix is missed |
| `CompletionHash.LongestCommon` | project4/mariadb/server/client/completion_hash.cc:187-201 | a prefix whose count equals the first count and drops with one more letter is the longest common prefix |
| `SnapshotScan.Collect` | project3/wfsnapshot.h:90-98 | the copy holds each slot as it was when it was read |
| `SnapshotScan.Scan` | project3/wfsnapshot.h:38-83 | at most n + 2 collects against any interference; stops at the first pair of collects with equal stamps, returning for each slot the value it held when the second of them read it, or at the first repeated mover, returning the snapshot it carried in the older copy |
| `SnapshotTheorems.CleanScanIsInstant` | project3/wfsnapshot.h:53-82 | if every write raises its slot's stamp, a clean scan returns the memory at every instant between its last two collects |
| `SnapshotTheorems.StampTells` | project3/stampedsnap.h:20-23 | with the stamps of the class, a slot's stamp only tells whether it was ever updated |
| `SnapshotTheorems.LastUpdateStays` | project3/wfsnapshot.h:20-31 | a slot holds the value of its last update, or the initial one if there was none |
| `SnapshotTheorems.MovesOnce` | project3/stampedsnap.h:20-23 | with those stamps no slot is seen to move twice |
| `SnapshotTheorems.ScanOfClass` | project3/wfsnapshot.h:53-83 | with those stamps every scan is clean: it returns for each slot the value read by its last collect, and the return of a borrowed snapshot is never reached |
| `SnapshotTheorems.TearFreeIsInstant` | project3/wfsnapshot.h:20-83 | with those stamps and an update order without a tear, a clean scan returns the memory at an instant of its last collect |
| `SnapshotTheorems.TearShows` | project3/wfsnapshot.h:20-83 | for every order with a tear there are values and read times for which the scan is clean and its values were never in memory together |
| `SnapshotTheorems.ScansAreInstantsIff` | project3/wfsnapshot.h:25-31 | all clean scans over an update order, with any values and read times, are instants of memory exactly if the order has no tear: an update of one slot followed by one of a later slot j, where every slot from j on that is updated in between, and j itself, was updated before both |
| `SnapshotTheorems.SmallestTear` | project3/stampedsnap.h:20-23 | three updates by two threads already break the claim, and no shorter order and no single thread does |

## Left out

- Spurious wake-ups of condition variables.
- EngineTheorems.DeadlockFreedom: is about release as one step; with release as three steps it holds exactly as long as nobody spins (FineTheorems.FineProgress).
- EngineTheorems.NeverSpins: is about release as one step; the exact condition for three steps is FineTheorems.TestSpinsIff.
- `threads_info` in the monitor: written and never read.
- Machine integers: record values, `numReader`, `bufread` and stamps are unbounded; `uint` truncation in `fill_buffer` is not modelled.
- Memory-model races, torn copies of a slot, allocation failure, file and console I/O and the random number generator.
- Fairness: progress is that some thread can step, and that a thread left alone finishes; under a scheduler that never leaves a thread alone nothing is claimed about a given one.
- The snapshot returned by a borrowing scan (project3/wfsnapshot.h:59) as an instant of the caller's interval: it is the older copy's, and nothing is claimed about when it was taken.
- `scan` inside `update`: only the write at its end and its stamp are modelled.
- CompletionHash.HashTable.Find: returns the bucket by value, so later changes through a returned pointer are not captured.
- LineBuffer.Buffer.BatchReadline: returns the text by value although the source returns a pointer into the buffer; pointers are offsets, so that `end_of_line` still points into the old memory when a read fails after the buffer has grown is not modelled.
- `completion_hash_exists`, `completion_hash_clean`: a comparison with the first inserter only, and a plain reset.
- The command loop of project1/ref_solution.cpp and its pending buffer: the matcher results are about the class `AhoCorasick`.
- Threads of the second matcher: its searches write different keys of the result, so they are done one after the other.
- lab02 to lab07 and lab12: exercises and thin wrappers over libraries.
- lab13 and lab14: the queue of lab13/queue_giantlock.cpp draws tickets from counters that never advance (lines 43 and 84), and lab14/queue_unbounded.cpp uses an undeclared name, so neither has a queue law to prove.
- The rest of project4: network clients, option parsing and printing over libraries not shown.
