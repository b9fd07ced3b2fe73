# A verified model of four distributed systems

This project models four components of the `mit_65840` repository and proves what they are for, over every run.

1. **The versioned key/value service** (`src/kvsrv1`, `src/models1`, `src/kvtest1`): the server, the retrying clerk, the distributed lock on top, and the concurrent test clients. Modules `KvServer`, `Clerk`, `KvModel`, `KvRuns`, `KvLoops`, `LockProtocol`, `LockLoops`, `TestCounts`, `AppendClients`, `PutClients`.
2. **MapReduce** (`src/mr`, `src/main/mrsequential.go`): file names, the map and reduce workers, the coordinator, whole jobs, and the installation of output files. Modules `MrNames`, `MrData`, `MrPrograms`, `MrScheduler`, `MrProgress`, `MrJob`, `MrWorkers`, `MrFinish`, `MrInstall`.
3. **Shard rebalancing** (`src/shardkv1/shardcfg`): modules `ShardBalance`, `ShardMoves`, `ShardConfig`.
4. **Raft leader election** (`src/raft1/raft.go`): modules `RaftPeer`, `RaftElection`, `RaftSteps`, `RaftLeaders`.

`Sets` holds helpers for picking an element of a set and for sizes of sets.

## How runs are modelled

A concurrent system is a state machine: `Enabled` says when an action can happen, `Do` what it does (a disabled action changes nothing), and `Run` folds a schedule of actions from the initial state. A theorem about all runs is a lemma about `Run` for every schedule, so it covers every interleaving. Code that updates an object under a lock is a class whose methods are proved equal to the function that the machine uses for that step; loops that run alone are methods with loops.

The key/value network follows `src/labrpc/labrpc.go:302-365` for a live server: a `Call` is dropped, or its handler runs once and then the reply is lost or delivered. Which of these happens is decided after the handler ran. Any number of clients and any pattern of losses is allowed.

Fields named as history variables (the votes given, how often a Put was applied, the tasks accepted) record the past and never influence a step.

## Where code and expectations differ

- The sequential model (`src/models1/kv.go:57-63`) has no outcome for a Put on a missing key, but the server answers ErrNoKey there. `KvRuns.Linearizability` proves linearizability in full for a sharper step that also compares versions and errors. `KvRuns.ModelLinearizability` proves that the model as written accepts a key's history exactly when no Put on that key returned ErrNoKey. Clients who send a non-zero version only to existing keys never meet the gap (`KvRuns.DisciplinedLinearizability`), and that discipline is exact: in every reachable state, one more Put keeps the key's history acceptable if and only if it has version 0 or finds the key (`KvRuns.DisciplineIsExact`). `KvRuns.NoKeyRun` is the simplest run that the model refuses.
- The vote handler (`src/raft1/raft.go:135`) refuses every request at its own term, because its test is a disjunction of two inequalities with different values; a repeated request by the candidate already voted for is refused too. The model does what the code does; `RaftPeer.GrantedIff` states when a vote is granted and `RaftPeer.RepeatRefused` the consequence.
- A vote request with a higher term raises the receiver's term without changing its role when the log check fails (`src/raft1/raft.go:141`). So two peers in role Leader can come to share a current term. `RaftLeaders.LeadersDifferWithoutRaise` proves that it takes such a step at a leader or candidate. `RaftLeaders.NeverShareIff` proves that no run of n peers shows two leaders at one current term if and only if n is at most 2; `RaftLeaders.TwoLeadersShareTerm` gives the run for every n from 3 on. The election theorems count leaders by the term of the election that they won.
- The put clients' own value check (`src/kvtest1/kvtest.go:228`) fails only when both the id and the version are wrong. `PutClients.OkReadsOwnValue` proves that both are right.
- Channels of the coordinator have as many slots as there are files. `MrScheduler.CapacityIff` proves that a send can find its channel full exactly when there are more reduce tasks than files.
- All executions of one reduce task use one temporary file name (`src/mr/worker.go:124`). `MrInstall.AlwaysCompleteIff` proves that an execution can report the task done over an incomplete output, unless the task is executed at most once or prints nothing; `MrInstall.TruncatedRun` is the run. `MrInstall.UndisturbedIsComplete` proves that all is well in every run in which no execution renames a file that another one has created anew since; the job theorems take installation as one step, as it is in such runs.

## Model

| member | source | states |
|---|---|---|
| `KvServer.HandleEffect` | src/kvsrv1/server.go:66-85 | A Put takes effect exactly when its version is the key's (0 for a missing key); a handler touches no other key, removes none, and raises the version by one exactly when a Put is applied |
| `KvServer.KVServer.constructor` | src/kvsrv1/server.go:20-24 | A new server has no key |
| `KvServer.KVServer.Get` | src/kvsrv1/server.go:47-60 | The object's Get is the handler function and changes nothing |
| `KvServer.KVServer.Put` | src/kvsrv1/server.go:66-88 | The object's Put moves the store and replies as the handler function |
| `Clerk.OthersKeepClerkOk` | src/kvsrv1/client.go:64-77 | What a clerk in progress knows about its Put survives every request of every other client |
| `Clerk.OwnStepsKeepClerkOk` | src/kvsrv1/client.go:66-75 | It survives the clerk's own resends and handler runs |
| `Clerk.ResultMeaning` | src/kvsrv1/client.go:47-56 | OK means applied exactly once, ErrVersion and ErrNoKey never, ErrMaybe at most once and only after a resend |
| `Clerk.DriveMeaning` | src/kvsrv1/client.go:64-77 | The same for the whole retry loop, for every script of interference, drops and lost replies |
| `Clerk.DriveAnswers` | src/kvsrv1/client.go:35-77 | For every store, request and script: an operation returns exactly when some reply arrives; with the first such attempt, the store is that of all requests that reached the server up to it, in order; a Get returns the handler's reply there, a Put its error, except ErrMaybe exactly for a version error on a resend |
| `Clerk.PutLoop` | src/kvsrv1/client.go:64-77 | The retry loop with its `first` flag answers so, and does to the server what the clerk steps do |
| `Clerk.GetLoop` | src/kvsrv1/client.go:35-45 | The same for Get |
| `KvLoops.LoopIsRecorded` | src/kvsrv1/client.go:35-77 | After any run, a retry loop on any script is part of a longer run, with the loop's effect and its answer as the recorded output; so the loops' answers are linearizable with everything else |
| `KvModel.RealTimeOrder` | src/models1/kv.go:26-63 | A linearization puts an operation that returned before another was called in front of it |
| `KvModel.StrictImpliesModel` | src/models1/kv.go:49-63 | What the sharper step accepts the model accepts, with the same state, unless a Put reported a missing key |
| `KvModel.ModelRefusesNoKey` | src/models1/kv.go:57-63 | The model refuses every order that contains a Put answered with ErrNoKey |
| `KvRuns.Linearizability` | src/kvsrv1/server.go:47-85 | In every run of any number of clerks, the operations of each key have an order, each point inside its call interval, every returned operation included, that the sharper step accepts (value, version and error of Get; error of Put) |
| `KvRuns.ModelLinearizability` | src/models1/kv.go:44-67 | In every run a key's history is linearizable against the model as written if and only if no Put on it returned ErrNoKey |
| `KvRuns.DisciplinedLinearizability` | src/models1/kv.go:44-67 | If Puts with a non-zero version are sent only to existing keys, the model accepts every run |
| `KvRuns.DisciplineIsExact` | src/kvsrv1/server.go:78-84 | In every reachable state, the model accepts a key's history with one more Put if and only if it accepted it so far and the Put has version 0 or finds the key |
| `KvRuns.UndisciplinedIsRefused` | src/kvsrv1/server.go:78-84 | A Put with a non-zero version on a missing key, in any reachable state, leads to a history that the model refuses |
| `KvRuns.NoKeyRun` | src/kvsrv1/server.go:82-84 | The simplest such run: one client, one Put |
| `KvRuns.CallAtOnce` | src/kvsrv1/client.go:35-77 | After any run, a call that nothing disturbs takes effect and returns the handler's reply on the store as it is |
| `KvRuns.VersionCountsPuts` | src/kvsrv1/server.go:70-85 | In every run a key's version is the number of Puts applied to it |
| `KvRuns.PutOutcome` | src/kvsrv1/client.go:66-75 | In every run no Put is applied twice; one that returned OK was applied once, one that returned ErrVersion or ErrNoKey never |
| `LockProtocol.MutualExclusion` | src/kvsrv1/lock/lock.go:67-144 | In every run, with distinct non-empty ids, no two Lock objects of one name are between a returned Acquire and the effect of their Release |
| `LockProtocol.UnlockedIffOdd` | src/kvsrv1/lock/lock.go:48-65 | In every run a lock reads as unlocked exactly when its version is odd |
| `LockProtocol.AcquireResolvesMaybe` | src/kvsrv1/lock/lock.go:99-105 | After ErrMaybe the follow-up Get shows the own id one version up if and only if the Put was applied, and Acquire returns exactly then |
| `LockProtocol.ReleaseFreesOnce` | src/kvsrv1/lock/lock.go:125-142 | When Release's Put returns it was applied exactly once, also after ErrMaybe; the follow-up Get always ends the loop |
| `LockProtocol.NeverAbortsIff` | src/kvsrv1/lock/lock.go:50-136 | No run reaches a fatal branch if and only if ids are non-empty and differ among the Lock objects of one name |
| `LockProtocol.HandOver` | src/kvsrv1/lock/lock.go:67-144 | After any run the holder can release and any other free client can then acquire; each costs one version |
| `LockProtocol.LostRaceRetries` | src/kvsrv1/lock/lock.go:88-91 | An Acquire whose Put meets a version error was not applied and starts over from its first Get |
| `LockProtocol.TakenKeepsWaiting` | src/kvsrv1/lock/lock.go:77-81 | An Acquire that finds the lock taken asks again and changes nothing |
| `LockProtocol.RivalExecution` | src/kvsrv1/lock/lock.go:84-97 | A request of a rival for the same lock, executed at any moment, keeps what a lock client knows |
| `LockProtocol.ResumeOk` | src/kvsrv1/lock/lock.go:70-105 | The code after each clerk operation keeps it too |
| `LockLoops.MakeLock` | src/kvsrv1/lock/lock.go:48-65 | The code leaves the server and ends as the lock machine does, for every script |
| `LockLoops.Acquire` | src/kvsrv1/lock/lock.go:67-107 | The loop leaves the server and ends (returned holding, fatal, or script over) as the lock machine does, for every script |
| `LockLoops.Release` | src/kvsrv1/lock/lock.go:109-144 | The same for Release, which returns only with the lock given up |
| `AppendClients.ExpectBounds` | src/kvtest1/kvtest.go:379-389 | The checker's `expect` is one more than the client's highest entry |
| `AppendClients.SkippedAdds` | src/kvtest1/kvtest.go:384-388 | Skipped and present entries of a client add up to `expect` |
| `AppendClients.TallyOne` | src/kvtest1/kvtest.go:380-388 | One iteration refuses exactly an old number and otherwise keeps both maps up to date |
| `AppendClients.Tally` | src/kvtest1/kvtest.go:373-389 | The walk succeeds exactly when each client's entries strictly increase, and leaves the two maps |
| `AppendClients.CheckAppends` | src/kvtest1/kvtest.go:372-401 | The checker accepts exactly: every client it is told of or meets has reported, strictly increasing entries, length + 1 = version, skipped ≤ maybes, highest + 1 ≤ oks + maybes |
| `AppendClients.AppendRunsAccepted` | src/kvtest1/kvtest.go:338-363 | Every run of concurrent append clients that ends leaves a state that the checker accepts, and no client fails on the way |
| `AppendClients.IterationAppends` | src/kvtest1/kvtest.go:346-359 | After any run, an undisturbed iteration appends exactly its entry, raises the version by one and counts one OK; nothing else changes |
| `AppendClients.CountsTellAnswers` | src/kvtest1/kvtest.go:351-358 | A client's counts grow by one exactly for an OK or an ErrMaybe; after a version error it reads again in the same iteration |
| `PutClients.CheckPutConcurrent` | src/kvtest1/kvtest.go:137-151 | The check compares the version with the sums of the clients' counts |
| `PutClients.PutAccounting` | src/kvtest1/kvtest.go:219-295 | In every run of put clients on any list of keys that ends, oks ≤ sum of the keys' versions ≤ oks + maybes, with equality to oks when no message was lost; no client fails |
| `PutClients.VersionsStep` | src/kvsrv1/server.go:70-85 | A handler run adds one to the sum of the versions exactly when it applies a Put |
| `PutClients.CheckPasses` | src/kvtest1/kvtest.go:144-150 | With one key, the check passes at the end of every run |
| `PutClients.OnePutStores` | src/kvtest1/kvtest.go:219-238 | After any run, an undisturbed OnePut, whatever version the client believes in, stores its value at the key's next version, counts one OK and knows that version |
| `PutClients.CountsTellAnswers` | src/kvtest1/kvtest.go:232-235 | The counts say which answer the Put got; after a version error the OnePut goes on with the version read |
| `PutClients.OkReadsOwnValue` | src/kvtest1/kvtest.go:225-231 | A client whose Put returned OK and whose Get shows the next version reads its own id and version |
| `MrNames.DecimalValue` | src/mr/worker.go:55-55 | A number is written in decimal, without leading zeros: reading it gives it back |
| `MrNames.RenderInjective` | src/mr/worker.go:55-56 | Different files of a job have different names on disk |
| `MrNames.SplitRender` | src/mr/worker.go:94-94 | Splitting a name at hyphens gives back the pieces it was made of |
| `MrNames.SelectedIff` | src/mr/worker.go:93-96 | The name filter accepts exactly the map outputs for this reducer, no temporary and no output file |
| `MrData.ReducesPermute` | src/mr/worker.go:106-121 | With a reduce function that ignores value order, the order of the pairs does not matter |
| `MrData.PartitionedEqualsSequential` | src/mr/worker.go:42-52 | Reductions of all hash buckets together are the lines of the reduction of all pairs, as multisets |
| `MrData.KeyInOneOutput` | src/mr/worker.go:44-44 | A key has a line in the output its hash names and in no other |
| `MrData.TextsPermute` | src/mr/worker.go:119-119 | Printing keeps equality of multisets of lines |
| `MrPrograms.SortAndScan` | src/main/mrsequential.go:70-86 | The loops print a line for each run of equal keys; over sorted pairs that is the reduction of all pairs |
| `MrPrograms.ScanReduces` | src/main/mrsequential.go:61-86 | Over pairs sorted by key the scan gives one line for each key, the reduction of all its values |
| `MrPrograms.GroupValues` | src/main/mrsequential.go:76-79 | The inner loop collects the values of the group |
| `MrPrograms.Contiguous` | src/main/mrsequential.go:20-25 | In pairs sorted by key, equal keys are neighbours |
| `MrPrograms.Partition` | src/mr/worker.go:42-52 | The map holds exactly the non-empty hash buckets, each with its pairs in order |
| `MrPrograms.HandleMap` | src/mr/worker.go:42-73 | The directory gains exactly those bucket files; the temporary files are gone and every other file is as before |
| `MrPrograms.AddPairs` | src/mr/worker.go:106-113 | Adding a file's pairs keeps the values grouped by key |
| `MrPrograms.EmitLines` | src/mr/worker.go:116-121 | Whatever the map's iteration order, the lines are the reduction of the pairs read |
| `MrPrograms.HandleReduce` | src/mr/worker.go:87-137 | The task reads each bucket file of its reducer once and nothing else, and installs the reduction of what it read |
| `MrScheduler.TaskConservation` | src/mr/coordinator.go:33-84 | Under every interleaving of assignment, timeout, late, early or unknown completion, each task is in exactly one place and is accepted at most once, for any number of files and reduce tasks, none included |
| `MrScheduler.Barrier` | src/mr/coordinator.go:109-134 | No reduce task circulates or reaches a worker before every map task is accepted; done is set only when every task was accepted, exactly once |
| `MrScheduler.StepConserves` | src/mr/coordinator.go:60-84 | No step changes how often a task occurs |
| `MrScheduler.CapacityIff` | src/mr/coordinator.go:141-141 | In all runs no send on the tasks, pending or finished channel finds it full, if and only if there are at least as many files as reduce tasks |
| `MrProgress.CompletionFinishes` | src/mr/coordinator.go:67-72 | In every phase a completion of a pending uuid puts exactly its task into the finished channel |
| `MrProgress.CompletionDropped` | src/mr/coordinator.go:67-72 | A completion of any other uuid changes nothing |
| `MrProgress.ExpiryRequeues` | src/mr/coordinator.go:75-80 | In every phase an expiry puts exactly its task back into the tasks channel |
| `MrProgress.CanAlwaysFinish` | src/mr/coordinator.go:33-135 | After any run, for any number of files and reduce tasks and however many sends are blocked, some continuation ends with done set |
| `MrProgress.TasksInOrder` | src/mr/coordinator.go:35-47 | In every run in which no task times out, uuid u names task u of the job: the map tasks in order, then the reduce tasks; when done is set exactly these were handed out |
| `MrJob.ReduceReadsCompleteData` | src/mr/worker.go:88-114 | Whenever a worker has a reduce task, each map task's bucket file is there with exactly its pairs, or absent and the bucket empty, and the name filter lists these files only |
| `MrJob.JobEqualsSequential` | src/main/mrsequential.go:40-86 | When the coordinator is done, in any run with any re-execution and for any number of reducers, the printed lines of all outputs are those that the sequential scan prints for the sorted pairs of all inputs, as a multiset, and each key is in exactly one output |
| `MrFinish.JobCanFinish` | src/main/mrsequential.go:40-86 | After any run of any job some continuation ends with the coordinator done, and then the outputs are those of the sequential program |
| `MrFinish.WorkerFinishes` | src/mr/worker.go:29-140 | Whatever part of its task a worker has done, it can do the rest without the coordinator |
| `MrWorkers.MapTaskIsSteps` | src/mr/worker.go:40-75 | Whatever directory the map program leaves, that worker's steps of the job, running alone, leave |
| `MrWorkers.ReduceTaskIsSteps` | src/mr/worker.go:78-139 | The same for the reduce program |
| `MrInstall.ExecutionsAgree` | src/mr/worker.go:116-129 | Executions that read the same pairs in any order print texts of one length |
| `MrInstall.UndisturbedIsComplete` | src/mr/worker.go:123-137 | In every run in which no execution renames a file that another one has created anew since, the output is the complete text of an execution whenever one is through |
| `MrInstall.TruncatedRun` | src/mr/worker.go:124-137 | A run in which a second execution truncates the file before the first one renames it |
| `MrInstall.AlwaysCompleteIff` | src/mr/worker.go:123-137 | In all runs the output is complete whenever an execution is through, if and only if the task is executed at most once or prints nothing |
| `MrJob.InvStep` | src/mr/worker.go:29-140 | Every step of the coordinator and of every worker, stale ones included, keeps: files hold what their name says, signalled tasks are done |
| `ShardBalance.ChoiceIsUnique` | src/shardkv1/shardcfg/shardcfg.go:90-108 | Least and most loaded group are unique, so map order cannot matter |
| `ShardBalance.MoveLowersSquares` | src/shardkv1/shardcfg/shardcfg.go:141-153 | Every move lowers the sum of the squared loads |
| `ShardBalance.RebalancedIsBalanced` | src/shardkv1/shardcfg/shardcfg.go:122-154 | From any assignment with at least one group, every shard ends owned by a live group and loads differ by at most one |
| `ShardBalance.JoinMovesLeast` | src/shardkv1/shardcfg/shardcfg.go:140-153 | One group joining a balanced, fully assigned configuration of k groups: shards move only onto it, exactly ⌊n/(k+1)⌋ of them |
| `ShardBalance.LeaveMovesLeast` | src/shardkv1/shardcfg/shardcfg.go:131-138 | Groups leaving: exactly the leavers' shards move, and the second loop makes no move |
| `ShardMoves.RebalanceIsFair` | src/shardkv1/shardcfg/shardcfg.go:131-153 | From any assignment: ownerless shards go in turn to the group then least loaded; from there no group both gives and receives, a group gives up its lowest-numbered shards, ties go by the lower group id, and loads end even |
| `ShardMoves.GreedyIsUnique` | src/shardkv1/shardcfg/shardcfg.go:131-138 | The rule for ownerless shards leaves no choice |
| `ShardMoves.JoinKeeps` | src/shardkv1/shardcfg/shardcfg.go:140-153 | What each old group keeps when one group joins: the rounded-down share, and one more for the last of those that had more, as many as the division leaves over |
| `ShardMoves.JoinIsExact` | src/shardkv1/shardcfg/shardcfg.go:147-151 | The result of a join in closed form: a shard goes to the newcomer exactly when fewer shards of its owner come before it than the owner gives up |
| `ShardMoves.LeaveIsExact` | src/shardkv1/shardcfg/shardcfg.go:131-138 | The result of a leave is the one assignment that keeps the others' shards and gives the leavers' in turn to the group then least loaded |
| `ShardConfig.JoinRunIsExact` | src/shardkv1/shardcfg/shardcfg.go:207-213 | The closed form for every reached configuration |
| `ShardConfig.LeaveRunIsExact` | src/shardkv1/shardcfg/shardcfg.go:215-221 | The leave rule for every reached configuration |
| `ShardConfig.ConfigurationRuns` | src/shardkv1/shardcfg/shardcfg.go:156-221 | Every configuration reached by successful joins and leaves counts its steps, has no server in two groups, and passes the check exactly for listings of its groups |
| `ShardConfig.JoinRunMovesLeast` | src/shardkv1/shardcfg/shardcfg.go:207-213 | The join result for every reached configuration |
| `ShardConfig.LeaveRunMovesLeast` | src/shardkv1/shardcfg/shardcfg.go:215-221 | The leave result for every reached configuration |
| `ShardConfig.ShardConfig.constructor` | src/shardkv1/shardcfg/shardcfg.go:44-49 | A new configuration is the start of a run |
| `ShardConfig.SortedGids` | src/shardkv1/shardcfg/shardcfg.go:92-98 | The group ids in ascending order, whatever order the map is visited in |
| `ShardConfig.ShardConfig.Counts` | src/shardkv1/shardcfg/shardcfg.go:81-84 | The loads of all groups |
| `ShardConfig.ShardConfig.Analyze` | src/shardkv1/shardcfg/shardcfg.go:80-111 | The unique most and least loaded groups with their loads, or the sentinels |
| `ShardConfig.ShardConfig.AssignOrphans` | src/shardkv1/shardcfg/shardcfg.go:131-138 | The first loop in place |
| `ShardConfig.ShardConfig.MoveToLeast` | src/shardkv1/shardcfg/shardcfg.go:140-153 | The second loop in place; it terminates by the sum of squares |
| `ShardConfig.ShardConfig.Rebalance` | src/shardkv1/shardcfg/shardcfg.go:122-154 | Balancing in place gives the balanced assignment as a function of the old one |
| `ShardConfig.ShardConfig.Clashes` | src/shardkv1/shardcfg/shardcfg.go:164-172 | Finds a server shared with a present group exactly when there is one |
| `ShardConfig.ShardConfig.Join` | src/shardkv1/shardcfg/shardcfg.go:156-183 | Succeeds exactly when the groups are new and share no server, in any map order; then adds them and counts the step; otherwise says which groups had joined and why it stopped |
| `ShardConfig.JoinOne` | src/shardkv1/shardcfg/shardcfg.go:159-175 | One more group fits exactly when it is new and meets no server already in use |
| `ShardConfig.ShardConfig.Leave` | src/shardkv1/shardcfg/shardcfg.go:185-205 | Succeeds exactly when all named groups are present once; then removes them and counts the step; otherwise says which groups had left and why it stopped |
| `ShardConfig.ShardConfig.JoinBalance` | src/shardkv1/shardcfg/shardcfg.go:207-213 | A successful call is a join step of a run; otherwise number and shards are unchanged and some of the groups may have joined |
| `ShardConfig.ShardConfig.LeaveBalance` | src/shardkv1/shardcfg/shardcfg.go:215-221 | A successful call is a leave step of a run; otherwise number and shards are unchanged and the first of the groups may have left |
| `ShardConfig.ShardConfig.CheckConfig` | src/shardkv1/shardcfg/shardcfg.go:238-279 | The check accepts exactly: the expected groups, every shard owned, loads within one |
| `ShardConfig.ShardConfig.CheckEven` | src/shardkv1/shardcfg/shardcfg.go:261-278 | Its last part decides whether loads are within one |
| `RaftPeer.GrantedIff` | src/raft1/raft.go:135-154 | A vote is granted exactly to a request of a higher term with a log that is up to date; no higher term changes nothing, a refusal on the log raises the term only, and every reply reports the old term |
| `RaftPeer.RepeatRefused` | src/raft1/raft.go:135-138 | After a grant, every request of that term is refused, a repeat by the candidate voted for included |
| `RaftPeer.HeartbeatEffect` | src/raft1/raft.go:184-222 | A heartbeat is ignored exactly when its term is lower; else the peer follows its sender at its term, and it succeeds exactly when the previous entry matches, with the log cut there and extended; the reply reports the old term |
| `RaftPeer.NextHeartbeat` | src/raft1/raft.go:193-215 | A peer that followed a heartbeat takes the next matching one of that leader and term; a repeat changes nothing |
| `RaftPeer.HeartbeatBlocksVote` | src/raft1/raft.go:198-200 | After a heartbeat no vote of that term is granted |
| `RaftPeer.AckEffect` | src/raft1/raft.go:396-424 | A leader steps down exactly on a refusal that reports a higher term, to that term |
| `RaftPeer.TickEffect` | src/raft1/raft.go:247-265 | A round of the candidate loop starts an election exactly for a follower whose lease ran out or a candidate that timed out; another candidate steps down |
| `RaftPeer.CountAllExact` | src/raft1/raft.go:291-325 | The tally is that of the replies up to the first that decides (a higher term, a majority of grants, no majority left), with its term if higher |
| `RaftPeer.OpenIff` | src/raft1/raft.go:296-325 | The tally is closed exactly when some reply decides; a refusal of a higher term always closes it |
| `RaftPeer.ElectionOutcome` | src/raft1/raft.go:291-374 | From the replies to the peer: a higher term makes a follower without a vote at that term or above; else a candidate leads with a majority and follows without, and nothing else changes |
| `RaftPeer.RefusalTeachesTerm` | src/raft1/raft.go:132-138 | A refusal for its term closes the tally with the voter's term |
| `RaftPeer.CountAllSound` | src/raft1/raft.go:291-325 | The tally closes exactly when decided, and never counts more grants or refusals than there are |
| `RaftPeer.CollectVotes` | src/raft1/raft.go:291-325 | The vote loop computes that tally; it times out exactly when no reply decides |
| `RaftPeer.Raft.constructor` | src/raft1/raft.go:488-490 | A new peer is a follower of term 0 that voted for nobody |
| `RaftPeer.Raft.RequestVote` | src/raft1/raft.go:123-155 | The object's handler is the function the machine uses |
| `RaftPeer.Raft.AppendEntries` | src/raft1/raft.go:184-222 | The same for heartbeats |
| `RaftPeer.Raft.ConcludeElection` | src/raft1/raft.go:334-374 | The same for the end of an election |
| `RaftElection.OneVotePerTerm` | src/raft1/raft.go:135-150 | In every run a peer's votes, to itself or to another, are in strictly rising terms, although the field is overwritten and reset elsewhere |
| `RaftElection.ElectionUniqueness` | src/raft1/raft.go:291-325 | In every run at most one election of a term collects peers/2+1 votes |
| `RaftElection.OneLeaderPerElectionTerm` | src/raft1/raft.go:344-354 | No two peers become leader through elections of one term |
| `RaftElection.WinnerIsFit` | src/raft1/raft.go:267-280 | A winner has a majority of supporters and the log it advertised, and that log is at least as up to date as each voter's when it voted |
| `RaftSteps.TermsNeverFall` | src/raft1/raft.go:141-420 | In every run no peer's term ever falls |
| `RaftSteps.RefusalReachesCandidate` | src/raft1/raft.go:132-342 | Asked, answered, counted and concluded, an election of an outdated term makes its candidate a follower that knows the voter's term |
| `RaftSteps.LostVoteIsRefusal` | src/raft1/raft.go:275-279 | A lost request or reply counts as a refusal that knows no higher term; no peer changes and no vote is taken back |
| `RaftSteps.TimeoutRetries` | src/raft1/raft.go:236-285 | After a timeout a peer that is still a candidate starts the next election at once, in the next term, asking all others |
| `RaftSteps.HeartbeatDeposes` | src/raft1/raft.go:378-430 | A leader whose heartbeat meets a higher term steps down to it when it hears the answer, and nobody else changes |
| `RaftSteps.HeartbeatCopies` | src/raft1/raft.go:184-222 | A heartbeat that meets no higher term makes its receiver follow the leader, with the leader's log from the agreed entry on; no other peer changes |
| `RaftSteps.CommandReaches` | src/raft1/raft.go:524-540 | A command to a leader is, after a heartbeat to a peer with an agreeing log, the last entry of both logs |
| `RaftLeaders.LeadersDifferWithoutRaise` | src/raft1/raft.go:140-154 | In every run without a step in which a leader or candidate refuses a vote request of a higher term on its log, no two leaders share a current term |
| `RaftLeaders.FewPeersOneLeader` | src/raft1/raft.go:291-292 | Up to two peers never have two leaders at once |
| `RaftLeaders.TwoLeadersShareTerm` | src/raft1/raft.go:140-154 | For every number of peers from three on, a run that ends with two leaders at one current term |
| `RaftLeaders.NeverShareIff` | src/raft1/raft.go:140-154 | No run of n peers shows two leaders at one current term if and only if n is at most 2 |
| `RaftElection.InvStep` | src/raft1/raft.go:232-430 | Every step of every peer and every lost, late or repeated message keeps the invariant behind these results |

## Left out

- The lock and test clients: their interleavings are modelled as step machines; `LockLoops` ties the lock loops to the machine's code, while the loops of the put and append clients appear only as machine steps.
- Retry loops: the source retries for ever; `Clerk.PutLoop`, `Clerk.GetLoop` and the lock loops end when their script of network verdicts does. Nothing is claimed about termination of elections or lock acquisition; of jobs it is proved that they can always be finished, not that they will be.
- The network beyond drop, lost reply and reply: disabled ends, deleted servers, and handlers that run after their `Call` returned false.
- Clocks, sleeps, leases and timeouts: any timer may fire at any step.
- Integers: versions, uuids and terms are unbounded; JSON and gob texts are constructors of a value type; `ihash` is any function.
- Partitioning a history by key (`src/models1/kv.go:27-43`): the per-key statements are about the operations of one key in the whole history.
- Lock ids: taken as given per Lock object; the counter that makes them (`src/kvsrv1/lock/lock.go:62-63`) is read and raised in two steps, so that ids differ is the condition of `LockProtocol.NeverAbortsIff` and a precondition elsewhere.
- A map task's files and errors: `mapf` is given by its result, a fixed multiset of pairs; file-system errors and the failure of a coordinator call, after which the worker stops, are not modelled.
- MrJob.JobEqualsSequential: installing an output is one step of a job, because with the shared temporary name the statement is false of overlapping executions; `MrInstall` proves exactly when that step is justified. `reducef` ignores the order of its values, and there is at least one reducer, because a map task divides by their number.
- Blocked sends on the completed channel: a completion arrives only when there is room, or on an unbuffered channel together with its receive.
- RaftPeer.Raft.RequestVote: does not model the leader hint, the lease and persistence, which no election step reads but the timer.
- RaftPeer.Raft.AppendEntries: does not model the commit index, the leader hint, the lease and persistence.
- RaftPeer.Raft.ConcludeElection: does not model the leader hint, the next and match indexes and the heartbeat signal.
- The number of shards: any n up to 256 instead of 12, below the sentinel 257 of the scan.
- Raft log replication, commitment and application, persistence, restarts, lease and leader hint; a heartbeat may carry any suffix of the leader's log, so the next-index bookkeeping is not followed.
- `kvraft1`, `shardctrler`, `shardgrp`, the sharded clerk, and the transport, encoding and test-harness packages.
