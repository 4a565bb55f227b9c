# Verified model of the linearizability checker and of the network test harness

This project models two parts of the repository and proves what they are for.

**The Porcupine checker** (`src/porcupine`, `src/models/kv.go`). A history of operations is turned into
call and return entries, split by key, and each part is searched for a legal order by an iterative
backtracking search over a linked list that is edited in place, with a stack, a bitset and a cache of
visited configurations.

- `Linearizability.dfy` defines histories, sequential models and linearizability, independently of the search.
- `Bitset.dfy`, `Cache.dfy` and `LinkedEntries.dfy` are the three data structures, on arrays and heap nodes.
- `Search.dfy` holds the argument for the search: its invariant, why pruning by the cache is sound, why the
  recorded partial results are optimal, and the termination measure. `Checker.dfy` is the search itself.
- `Sorting.dfy`, `Operations.dfy` and `Events.dfy` are the two front ends; `Kv.dfy` and `Locality.dfy` the
  key-value model and the split by key; `KvMeaning.dfy` what a legal order of gets, puts and appends is; `Ties.dfy` and `KeyTies.dfy` what happens to equal timestamps.
- `Parallel.dfy` is the concurrent collection of verdicts as a state machine, `Visualization.dfy` the replay
  of partial results, and `Porcupine.dfy` the entry points, with the link between the searches and the workers
  of the state machine.

**The harness** (`src/labrpc`, `src/labgob`, `src/raft`, `src/kvraft`).

- `Labrpc.dfy` is the simulated network together with the crash and restart protocol, as a state machine in
  which requests, handlers, background saves, and any number of shutdowns and starts interleave as the locks
  allow. `Rpc.dfy` and `Wiring.dfy` prove what holds in every run; `Restart.dfy` that acknowledged work survives if callers use
  the harness as it demands, and `Misuse.dfy` that it can be lost as soon as one of these demands is not met.
  `Persister.dfy` is the storage that survives a crash.
- `Labgob.dfy` is the walk over type graphs, `Monitor.dfy` the run-time check of applied log entries, and
  `Connectivity.dfy` the enabling of endpoints and the choice of partitions.

Everything the original updates in place is a method with loops, on fields, arrays or heap nodes, proved
against a specification. The two concurrent protocols are state machines over their atomic steps.

## What the code does not do

Six expectations that the code or its comments raise are false of the code. Each is modelled as the code
has it, with the exact condition under which the expectation is met.

- *Equal timestamps.* `sort.Sort` is not stable, and only times are compared. If an operation returns at the
  very time another on the same key is called, the sort may order them as if one preceded the other, and the
  verdict may depend on it (`Ties.TieChangesAnswer`). For given keys and times, the check is right about all
  operations and however ties are broken, if and only if no return coincides with a call on the same key
  (`KeyTies.RightIffNoTiesPerKey`); ties between keys are harmless. A positive verdict is right in any case
  (`Porcupine.CheckOperations`).
- *Empty histories.* Without partitions and without a timeout the collector never leaves its receive loop
  (`Parallel.NothingToCheckBlocks`). A run without a verdict can go on if and only if there is a partition or a
  timeout (`Parallel.BlocksIffNothingToDo`).
- *Restarts that overlap.* `StartServer` releases the lock before it boots a server and adds it to the network,
  so the comment at src/kvraft/config.go:286 does not say all that is needed. Three rules are: a server is
  started only when it is down, is not started while another start of it is under way, and is not shut down
  during a start. While they are obeyed no acknowledged save is lost, and from any state reached so far a step
  that breaks one of them can be continued, without a further breach, to a state in which one is lost
  (`Misuse.BreachIsExact`). A run may of course break a rule and still lose nothing; if one of the rules is not
  in force at all, some run does lose a save (`Misuse.RulesAreExact`).
- *Partitions of an even number of servers.* `make_partition` leaves a stray 0 behind
  (`Connectivity.PartitionIffOdd` has the exact condition), and panics with fewer than two servers.
- *Disconnecting.* For an incoming endpoint `disconnectUnlocked` tests whether row `j` of the endpoint names
  exists and then uses row `from[j]`. It can panic because the used row does not exist
  (`Connectivity.MissingRowPanics`) or because the list is longer than there are rows
  (`Connectivity.LongListPanics`), or miss an endpoint (`Connectivity.UntestedRowIsMissed`);
  `Connectivity.CutIsBetweenIff` says exactly when it does none of this. All calls that the harness itself makes
  (src/kvraft/config.go:179, 183 and 259) are of the harmless kind, by `Connectivity.CutIsBetween`: the list
  is not longer than that of all servers, and all rows are in place or it is that list.
- *Crashing a Raft server.* The comments promise that the next instance is given the last persisted state,
  but `crash1` keeps only the Raft state and drops the snapshot (`Persister.Persister.CrashAndStart`).

The comments in `src/porcupine/porcupine.go:10-11` warn of false positives after a timeout; the code answers
`Unknown` then, or `Illegal` if a partition was refuted before, never `Ok` (`Parallel.VerdictIsRight`).

A negative verdict relies on what src/porcupine/model.go:40-42 asks of a model: states that `Equal` identifies
must accept the same steps and stay equal. This hypothesis (`EqualSimulates`) stands in every theorem that
says that a refutation is right or that partial results are optimal; positive verdicts do not need it.

## Model

| member | source | states |
|---|---|---|
| `Checker.CheckSingle` | src/porcupine/checker.go:174-248 | for every well-formed history: true only if some permutation of the operations respects real time and is accepted by the model, false only if none does or its last look found the kill flag set (if `Equal` respects `Step`); a search goes on only while its looks find the flag clear, and looks at least once for each operation of a history that it accepts; on false by exhaustion the partial results are optimal, on true all are the same complete linearization; always terminates, entering each pair of set and state at most once, which bounds the turns of the loop |
| `Checker.TryCall` | src/porcupine/checker.go:189-208 | at a call, taking it only if its configuration is new, or passing it, keeps the search invariant, the list and the bitset in step, and uses up part of the bounded search tree |
| `Checker.Backtrack` | src/porcupine/checker.go:209-237 | at a return, recording partial results and undoing the last call keeps the invariant and uses up part of the search tree |
| `Checker.RecordPartials` | src/porcupine/checker.go:213-229 | exactly the operations on the stack whose record is missing or strictly shorter get the whole stack as their record; a record of equal length is kept |
| `Search.HitIsRefuted` | src/porcupine/checker.go:140-147 | a cache hit means that the configuration was already explored without success; it cannot be one that is still on the current path |
| `Search.SkipKeepsProgress` | src/porcupine/checker.go:204-207 | passing a refuted call keeps the invariant: every choice before the current position is refuted at every depth |
| `Search.PushKeepsProgress` | src/porcupine/checker.go:196-202 | taking a call keeps the invariant |
| `Search.PopKeepsProgress` | src/porcupine/checker.go:209-237 | reaching a return means that everything below the current path is explored, so going back keeps the invariant and all older records stay right |
| `Search.ExhaustedMeansIllegal` | src/porcupine/checker.go:210-212 | when the empty path is explored there is no linearization, and the recorded partial results are the longest legal prefixes |
| `Search.CompleteIsOptimal` | src/porcupine/checker.go:239-247 | when every record is the complete linearization, no legal prefix is longer than the record of any of its operations |
| `Search.AdvanceDecreases` | src/porcupine/checker.go:203-208 | stepping along the list lowers the measure of what is left of the search tree |
| `Search.PushDecreases` | src/porcupine/checker.go:196-202 | going down a level lowers it |
| `Search.PopDecreases` | src/porcupine/checker.go:230-236 | going back up and on lowers it, without any assumption that the states are finitely many |
| `Search.OnceMore` | src/porcupine/checker.go:193-199 | entering a configuration that the cache does not have keeps all entered configurations different and legally reached |
| `Checker.CacheMiss` | src/porcupine/checker.go:140-147 | a miss means that no entered configuration has the same set and an equal state |
| `Linearizability.LinearizationIsFullPartial` | src/porcupine/checker.go:239-247 | the linearizations are exactly the legal, precedence-closed sequences that use every operation, which is what an emptied list leaves on the stack |
| `Linearizability.LegalSimulates` | src/porcupine/model.go:40-42 | from states that the model calls equal, the same sequences are legal |
| `LinkedEntries.MakeLinkedEntries` | src/porcupine/checker.go:116-133 | the list visits fresh, distinct nodes that carry the entries in order, doubly linked, each call matched with its return |
| `LinkedEntries.InsertBefore` | src/porcupine/checker.go:65-76 | the node goes between the mark and what was before it; their other pointers stay |
| `LinkedEntries.Length` | src/porcupine/checker.go:78-85 | the number of nodes of an acyclic list |
| `LinkedEntries.Lift` | src/porcupine/checker.go:154-162 | takes a call and its return out of the list, also when they are adjacent or the return is last |
| `LinkedEntries.Unlift` | src/porcupine/checker.go:164-172 | restores every pointer of every node, if done in reverse order |
| `LinkedEntries.UnlinkAndRelink` | src/porcupine/checker.go:154-172 | the two pointer rewirings are inverse to each other on any list from which other nodes have been removed |
| `LinkedEntries.ListIsWhatRemains` | src/porcupine/checker.go:184-186 | following next pointers from any remaining node visits exactly the entries that were not removed, in order, with matching back pointers |
| `Cache.CacheContains` | src/porcupine/checker.go:140-147 | true exactly if some entry in any bucket is the same set with an equal state: hash collisions never change the answer |
| `Cache.InsertBucketed` | src/porcupine/checker.go:196-197 | an insertion keeps every entry in the bucket of its hash |
| `Bitset.NewBitset` | src/porcupine/bitset.go:10-17 | just enough words for the given number of positions, denoting the empty set |
| `Bitset.Clone` | src/porcupine/bitset.go:19-23 | a fresh array with the same words |
| `Bitset.Set` | src/porcupine/bitset.go:29-33 | adds one position to the set and changes no other, across word boundaries |
| `Bitset.Clear` | src/porcupine/bitset.go:35-39 | removes one position and changes no other |
| `Bitset.Get` | src/porcupine/bitset.go:41-44 | membership |
| `Bitset.Popcnt` | src/porcupine/bitset.go:46-52 | the cardinality of the set |
| `Bitset.PopCountIsCardinality` | src/porcupine/bitset.go:46-52 | the sum of the bit counts of the words is the number of members |
| `Bitset.MembersDetermineWords` | src/porcupine/bitset.go:62-72 | arrays of one length denote the same set exactly if they agree word for word |
| `Bitset.EqualSetsHashEqually` | src/porcupine/bitset.go:54-60 | equal sets have equal hashes |
| `Bitset.Equals` | src/porcupine/bitset.go:62-72 | true exactly for equal words, hence exactly for equal sets |
| `Operations.MakeEntries` | src/porcupine/checker.go:43-55 | some arrangement, sorted by time, of the two entries of each operation |
| `Operations.EntriesWellFormed` | src/porcupine/checker.go:43-55 | if every operation takes time, any such arrangement is a well-formed history |
| `Operations.PrecedenceIsRealTime` | src/porcupine/checker.go:39-55 | an earlier operation always precedes a later one in the arrangement, and without ties only then |
| `Operations.EntriesLinearizableSound` | src/porcupine/checker.go:43-55 | a linearization of the entries is one of the operations, however the sort broke ties |
| `Operations.EntriesLinearizable` | src/porcupine/checker.go:43-55 | without ties the entries are linearizable exactly if the operations are |
| `Ties.TieInvertsOrder` | src/porcupine/checker.go:39-53 | whenever a return coincides with a call, some sorted arrangement makes the first operation precede the second |
| `Ties.OrderIsRealTimeIffNoTies` | src/porcupine/checker.go:39-53 | the order of entries is the real-time order for every sorted arrangement if and only if no return coincides with a call |
| `KeyTies.RightIffNoTiesPerKey` | src/porcupine/checker.go:39-55 | for given keys and times, every choice of operations and every sorted arrangement of every group is judged rightly if and only if no return coincides with a call on the same key |
| `KeyTies.TieGoesWrong` | src/porcupine/checker.go:39-55 | for any tie on one key, a put, a get and empty appends at the given times that are linearizable but may be judged not to be |
| `Ties.TieChangesAnswer` | src/porcupine/checker.go:53 | a put and a get for which one arrangement is linearizable and the other is not, although the store accepts the history |
| `Events.Renumber` | src/porcupine/checker.go:87-101 | an injective renaming of the ids onto 0..n-1 in the order of their first appearance; nothing else changes |
| `Events.ConvertEntries` | src/porcupine/checker.go:103-114 | keeps order, kind, value and id, with the index as time |
| `Events.RenumberedHistory` | src/porcupine/checker.go:350-356 | a complete event history becomes well formed, and is linearizable afterwards exactly if it was before |
| `Kv.Partition` | src/models/kv.go:18-34 | one group for each key that occurs, in key order, each with all operations on its key in history order |
| `Sorting.StringLeqByFirstDifference` | src/models/kv.go:28 | the order of keys: a prefix comes first, otherwise the first difference decides |
| `Locality.OfKeyKeepsOrder` | src/models/kv.go:19-23 | the group of a key holds exactly the operations on it, in the order of the history |
| `Kv.KvEqualSimulates` | src/models/kv.go:40-54 | the register model meets what pruning asks of state equality, and two states are equal exactly if no operation tells them apart |
| `KvMeaning.RegisterLegalIffReadsCurrent` | src/models/kv.go:35-54 | an order of operations on one key is legal exactly if every get returns the value of the last put before it, or "" if there is none, followed by everything appended since then, in order |
| `KvMeaning.StoreLegalIffReadsCurrent` | src/models/kv.go:35-54 | the same for the whole store, key by key |
| `KvMeaning.LinearizableIffSomeOrderReads` | src/models/kv.go:35-54 | a history is linearizable over the store exactly if some arrangement of it respects real time and lets every get read that value |
| `KvMeaning.AppendsAppend` | src/models/kv.go:50-53 | after "x" and then "y" are appended to a key, a get is legal exactly if it returns "xy" |
| `Locality.StoreImpliesKey` | src/models/kv.go:35-39 | a legal order of the whole store restricts to a legal order of each key |
| `Locality.MergeOrders` | src/porcupine/model.go:28-33 | legal orders of all keys merge into one order of the whole history that respects real time and that the store accepts |
| `Locality.PartitionIsLocal` | src/models/kv.go:18-54 | the history is linearizable over a map in which absent keys read as "" exactly if every group is linearizable over one register |
| `Porcupine.CheckParallel` | src/porcupine/checker.go:269-305 | without timeout and info, Ok exactly if every partition is linearizable (if `Equal` respects `Step`), in whatever order the verdicts arrive |
| `Porcupine.CheckOperations` | src/porcupine/porcupine.go:5-8 | on the key-value model: true only for histories that are linearizable over the whole store, and exactly for those if no return coincides with a call on the same key |
| `Porcupine.CheckPartitions` | src/porcupine/checker.go:363-367 | for any model and any split: Ok only if all parts are linearizable, Illegal only if one is not or has a return that coincides with a call (if `Equal` respects `Step`) |
| `Porcupine.CheckUnsplitOperations` | src/porcupine/model.go:51-53 | for any model without a split: true only for linearizable histories, and without ties exactly for those (if `Equal` respects `Step`) |
| `Porcupine.EveryRunDecidesStore` | src/porcupine/checker.go:360-368 | every interleaving of searches, collector and timeout gives a right verdict for the whole store, and without a timeout and ties on one key the exact one |
| `Porcupine.Worker` | src/porcupine/checker.go:276-280 | a search whose looks find the kill flag as it is at states of a run returns only what the state machine lets a worker return |
| `Porcupine.CheckEvents` | src/porcupine/porcupine.go:23-26 | for any model whose `Equal` respects `Step` and any complete event history, true exactly if the history is linearizable |
| `Parallel.RunKeepsInv` | src/porcupine/checker.go:269-347 | the invariant of workers, channel, kill flag and collector holds in every state of every interleaving |
| `Parallel.VerdictIsRight` | src/porcupine/checker.go:286-305 | Ok only if all partitions are linearizable, Illegal only if one is not (never because a worker was killed, but if `Equal` respects `Step`), Unknown only if the timeout was taken, and then never Ok; exact if there is no timeout |
| `Parallel.SlotsAreWritten` | src/porcupine/checker.go:307-333 | in info mode each worker's slot is written before it is read, with legal sequences, and optimal ones for every partition, linearizable or not, if nobody was killed and `Equal` respects `Step` |
| `Parallel.KillIsExact` | src/porcupine/checker.go:286-305 | searches are told to stop exactly after a timeout, or after a refutation when no partial results are wanted, and not while results are still being selected |
| `Parallel.NothingToCheckBlocks` | src/porcupine/checker.go:286-305 | with no partitions and no timeout, every run stays in the receive loop |
| `Parallel.BlocksIffNothingToDo` | src/porcupine/checker.go:275-313 | a state without verdict has a search still going or a step to take if and only if there is a partition to check or a timeout |
| `Parallel.StepsRunOut` | src/porcupine/checker.go:275-313 | every step uses up one of boundedly many |
| `Visualization.CollectPartials` | src/porcupine/checker.go:318-332 | the distinct recorded sequences, each once |
| `Visualization.ComputePartition` | src/porcupine/visualization.go:37-84 | panics exactly if some sequence does not replay; otherwise gives the replays, their lengths never increasing, and a table that is defined exactly on the ids that occur and points to the first of the longest sequences with the id |
| `Visualization.VisualizeRecorded` | src/porcupine/visualization.go:54-79 | on what a search recorded, finished or not, the panic is unreachable, the replays come longest first, and the table points to a longest recorded sequence that contains the id |
| `Restart.AcknowledgedWorkSurvives` | src/labrpc/labrpc.go:262-289 | in every run that obeys the rules for callers: after a positive answer, everything its handler saved before it returned is, from then on, on the saved persister of the server and on the one that every later incarnation starts from |
| `Restart.AliveIsKept` | src/kvraft/config.go:261-275 | when the last check finds the server alive, its persister has not been superseded and there is no later incarnation |
| `Restart.OldSavesStayOut` | src/kvraft/config.go:303-315 | in every run that obeys the rules, the persister of an incarnation holds what it was started from and after that only its own saves |
| `Restart.StepKeepsHarness` | src/kvraft/config.go:255-323 | under the rules every step keeps persisters apart: distinct incarnations have distinct persisters, and the saved one is that of the server in the network |
| `Misuse.BreachIsExact` | src/kvraft/config.go:255-323 | in any state reached by the rules, a step obeys them if and only if no continuation that obeys them loses an acknowledged save |
| `Misuse.BreachExposes` | src/kvraft/config.go:308-322 | any step that breaks a rule, in any state reached by the rules, can be continued to a server in the network that saves to a superseded persister |
| `Misuse.ExposedLoses` | src/labrpc/labrpc.go:262-289 | in whatever state, one more call to such a server, through a new endpoint, is answered positively and its save is lost |
| `Misuse.RulesAreExact` | src/kvraft/config.go:286-323 | some run that obeys the rules in force loses an acknowledged save if and only if one of the rules is not in force |
| `Misuse.StartWhileUpLoses` | src/kvraft/config.go:286-312 | without the first rule, a server that is up is started again and a save is lost |
| `Misuse.StartDuringStartLoses` | src/kvraft/config.go:308-322 | without the second, a start during a start loses one |
| `Misuse.ShutdownDuringStartLoses` | src/kvraft/config.go:308-322 | without the third, a shutdown between the boot of a server and its joining the network loses one |
| `Misuse.CopyBeforeDeleteLosesWork` | src/kvraft/config.go:261-275 | if the copy were made before the server is deleted, in any state with a server in the network, the run could go on to answer positively and lose the save |
| `Rpc.AtMostOneAnswer` | src/labrpc/labrpc.go:216-307 | in every run a request gets at most one answer, exactly one if it has finished, and at most one dispatch of its handler |
| `Rpc.PositiveAnswerWitness` | src/labrpc/labrpc.go:262-289 | a positive answer, even a delayed one, means that at an earlier moment the handler had returned, the endpoint was enabled, and the server instance that the request was sent to was still in the network |
| `Rpc.PositiveAnswerConnected` | src/labrpc/labrpc.go:344-351 | if endpoints are connected only once, at that moment the endpoint was connected to that server |
| `Rpc.DeadIsRefused` | src/labrpc/labrpc.go:262-275 | a request whose last check finds its endpoint disabled, or its server gone or replaced, is never answered positively afterwards, in any run |
| `Rpc.ChecksAreExact` | src/labrpc/labrpc.go:206-214 | a request gives up waiting, or is refused after its handler has returned, exactly if its endpoint is disabled or its server is not in the network any more |
| `Rpc.UnreachableIsNotDispatched` | src/labrpc/labrpc.go:217-305 | a request that finds its endpoint disabled, or leading to no server, is never dispatched and never answered positively, in any run |
| `Rpc.ReliableIsAnswered` | src/labrpc/labrpc.go:226-289 | on a reliable network nothing is dropped: a request that was sent is dispatched, and one found alive is answered positively, at once or with a delay if replies are reordered |
| `Wiring.TablesAreAsLastSet` | src/labrpc/labrpc.go:330-359 | after any run an endpoint is enabled and connected as it was last asked to be, and a server is in the network, with this incarnation, exactly if that start added it after the last shutdown |
| `Wiring.FlagsAreAsLastSet` | src/labrpc/labrpc.go:169-181 | the network is reliable and does not reorder until it is told otherwise, and then as it was told last |
| `Wiring.RouteWasRead` | src/labrpc/labrpc.go:190-204 | a request goes to the server that its enabled endpoint led to at the one moment when the network looked, and is treated as the network was set then, whatever changes while it is on its way |
| `Rpc.RequestsMoveForward` | src/labrpc/labrpc.go:248-307 | a request only moves forward, except for its handler's own steps and polls that find the server alive |
| `Rpc.NoStuckRequest` | src/labrpc/labrpc.go:248-307 | an unanswered request can move on unless its handler is running on a live server |
| `Rpc.CallsNeverBlock` | src/kvraft/config.go:255-323 | a shutdown or start that has begun can always go on |
| `Rpc.StepIsLater` | src/kvraft/config.go:274-312 | no step takes away anything that is on the saved persister of any server |
| `Restart.LastSaveIsRead` | src/raft/persister.go:39-62 | an acknowledged save is what the restarted server reads, unless something was saved after it |
| `Persister.Persister.Copy` | src/raft/persister.go:24-31 | a fresh persister with the same contents |
| `Persister.Persister.SaveRaftState` | src/raft/persister.go:33-37 | replaces the Raft state and keeps the snapshot; contents always equal the replay of all saves |
| `Persister.Persister.SaveStateAndSnapshot` | src/raft/persister.go:53-58 | replaces both at once |
| `Persister.Persister.ReadSnapshot` | src/raft/persister.go:60-64 | the snapshot of the last save of both parts |
| `Persister.Persister.CrashAndStart` | src/raft/config.go:98-163 | the Raft state comes through a crash and restart and the snapshot is empty afterwards; so all contents come through exactly if there was no snapshot |
| `Labgob.Checker.CheckType` | src/labgob/labgob.go:72-113 | terminates on recursive types whatever was checked before; adds only reachable types, each together with the types of all its fields, its element and its key, and counts one complaint for each of their fields whose name is empty or does not start with an upper-case letter |
| `Labgob.Checker.CheckValue` | src/labgob/labgob.go:68-70 | between calls the checked set is closed, and a call adds exactly the reachable types, with all fields, elements and keys, and complains exactly about the lower-case fields of the new ones |
| `Labgob.EachTypeOnce` | src/labgob/labgob.go:75-84 | over any sequence of calls every reachable type is complained about exactly once |
| `Labgob.EachFieldOnce` | src/labgob/labgob.go:88-104 | over any sequence of calls the number of complaints is the number of lower-case fields of all structs that some call reaches |
| `Monitor.Monitor.Read` | src/raft/config.go:165-203 | one applied message: the verdict and the shared table, as functions of all messages so far |
| `Monitor.MonitorIsExact` | src/raft/config.go:165-203 | no error is raised over a run exactly if all servers agree on the value at each index and every server applies in order, restarts included |
| `Monitor.LogsHoldTrace` | src/raft/config.go:173-185 | the table holds exactly the applied indexes, with the value that was applied there last |
| `Monitor.VerdictOfTrace` | src/raft/config.go:173-191 | at any moment of any run a command is out of order exactly if its server has never applied the index before, and otherwise a mismatch exactly if some server's latest value at its index is another one |
| `Monitor.MaxIndexIsHighest` | src/raft/config.go:182-184 | the recorded maximum is the highest index of any command, or 0 |
| `Monitor.NCommitted` | src/raft/config.go:363-385 | in an error-free run the mismatch is unreachable although the table is locked for one server at a time, the value is the one applied at that index everywhere, and the count lies between the counts before and after |
| `Connectivity.Config.ConnectUnlocked` | src/kvraft/config.go:107-121 | enables exactly the endpoints between the server and the listed ones, in both directions |
| `Connectivity.Config.DisconnectUnlocked` | src/kvraft/config.go:131-149 | panics exactly if the list is longer than there are rows or a tested row exists and the used one does not; otherwise disables exactly the endpoints it reaches |
| `Connectivity.CutIsBetweenIff` | src/kvraft/config.go:131-149 | it never panics and reaches exactly the endpoints between the servers if and only if the tested and the used rows agree |
| `Connectivity.MissingRowPanics` | src/kvraft/config.go:142-147 | a row that exists is tested and one that does not is used |
| `Connectivity.LongListPanics` | src/kvraft/config.go:143-144 | the list is longer than there are rows to test |
| `Connectivity.UntestedRowIsMissed` | src/kvraft/config.go:142-147 | a row that exists is not used because the tested one does not |
| `Connectivity.CutIsBetween` | src/kvraft/config.go:179-259 | for a list that is not longer than that of all servers, with all rows in place or for that list itself, exactly the endpoints between the servers are disabled |
| `Connectivity.Config.Partition` | src/kvraft/config.go:174-186 | panics exactly if a block names servers too often; otherwise, afterwards a server can talk to another exactly if both are in one block, and client endpoints are unchanged |
| `Connectivity.MakePartition` | src/kvraft/config.go:339-356 | the two blocks for any number of servers and any leader, and a panic exactly below two servers |
| `Connectivity.PartitionIffOdd` | src/kvraft/config.go:338-356 | the blocks are a partition if and only if the number of servers is odd, or the stray 0 is in the block of server 0 anyway; for odd numbers the leader is in the smaller block |

## Left out

- Histories that are not complete, or in which an operation does not take time: the checker states no
  meaning for them, and the search dereferences missing returns.
- The kill flag that searches share is a function from the number of earlier looks to what the next look
  returns, so that any schedule of other threads is covered; that it is never reset matters only for workers (`Porcupine.KillStays`).
- `Porcupine.CheckParallel`: runs one search after another and takes the verdicts in arbitrary order; the
  interleavings of workers, timeout and kill are those of the state machine in `Parallel.dfy`, whose link to
  the entry point is `Porcupine.EveryRunDecidesStore`.
- Recorded sequences are told apart by value, where the original compares pointers.
- The library sort is replaced by an insertion sort, but nothing is used of it except that the result is sorted
  and a permutation.
- Inputs and outputs of another type than the key-value model's type assertions demand.
- Checking the key-value model on events: it defines no split of events by key.
- Concurrent walks over types, and the nil type of a nil interface value, on which the walk panics.
- The process stops at the first error of the run-time check; what the table holds after that is not used.
- Descriptions of operations and states, the HTML output, wall-clock limits, sleeps, drop probabilities and
  byte counters: random and timed choices of the network are free choices of the state machine.
- Encoding of arguments, reflection, and unknown service names: a handler is a thread that may save to its
  persister any number of times and then returns.
- `Cleanup` of the network, which makes pending calls return false.
- Server identities are numbers that are never reused, and names of endpoints are assumed distinct, as the
  original assumes of its random strings.
- The part of a shutdown after the persister has been copied, which kills the old server without the lock and
  touches neither the network nor persisters.
- `src/shardmaster/config.go` and `src/shardkv/config.go`, near copies of the same harness; the Raft, key-value
  and shard servers themselves, whose bodies are stubs; MapReduce.
