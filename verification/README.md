# Verified model of the distributed-systems labs

The repository holds several small distributed programs written in Go. This project models
the five that carry real protocol or algorithm logic and proves what they are for.

- **Key/value store, clerk, lock and workloads** (`src/kvsrv1`, `src/models1`, `src/kvtest1`).
  `KVServer` is a class; any number of clerks call it through a network that may lose a
  request or a reply (`Clerks`). A call is the events Invoke, Execute, Fail, Return, in any
  interleaving. On that machine stand the linearizability proof (`Linearizability`, against
  `KvModel`), what a clerk answers (`ClerkAnswers`), the lock (`Lock`), and the two client workloads with the checks applied to
  their results (`AppendWorkload`, `PutWorkload`).
- **Shard rebalancing** (`src/shardkv1/shardcfg`). `Configuration` is a class over an array of
  shards whose methods are proved equal to functions in `ShardSpec`; balance, termination by
  the sum of squared loads, and least movement are proved about those functions.
- **MapReduce** (`map_reduce`). `Coordinator` is a class; `MrWorker` and `MrSequential` hold the
  loops of the worker and of the sequential program; `MrSystem` is the whole program with its
  workers and file store as a state machine, `MrCorrectness` carries its
  invariant, `MrOutput` says of every trace what the output of the job is and exactly when it is
  made of all the pairs, and `MrLostInput` shows traces in which it is not.
- **Raft election** (`src/raft1/raft.go`). `Votes` and `Peer` are classes; `Cluster` is the servers
  with a network that loses, repeats and reorders messages. `Raft` proves safety of the votes;
  `RaftLeader` says exactly when the leader role means an elected leader.
- **Tag demultiplexer** (`src/tester1/demux`). `CallMap` is a class; callers, reader and close run
  in every interleaving.

A class method and the state machine that runs it share one specification function: the
method's `ensures` equates the new state with that function, and the machine's steps apply it.
Every run-level theorem speaks about a whole sequence of states and events of any length.

`Basics` (sums, sets) and `Text` (decimal numerals, splitting at a dash) are shared helpers.

## What is assumed

- Versions are unbounded naturals. No server is removed or disabled during a run, so an attempt
  executes at most once, before its `Call` returns (`src/labrpc/labrpc.go:302-306`, `349-365`).
- JSON and gob encodings are inverse pairs, given as parameters.
- Clocks are parameters of the coordinator's handlers. `HandedOutTwice` asks that they do not
  go back.
- Map fixes the multiset of pairs of a file; Reduce depends on the key and the multiset of its
  values. Sorting is any sorted permutation, globbing and ranging over a map any order.
- File operations succeed, a file appears under its name in one step, there is at least one
  input file and one reduce task, and the file store starts without bucket files.
- Workers may crash at any point, and workers whose task has timed out go on, report late and
  run beside the next attempt. Nothing is assumed about when they do so (next section).
- The demultiplexer's transport answers a written tag at most once, and no more tags are
  handed out than a 32-bit counter has.
- Raft servers do not restart.

## Where code and documentation differ

- The sequential model does not accept `ErrNoKey` from a Put (`src/models1/kv.go:59-63`) although
  the server returns it (`src/kvsrv1/server.go:90-91`). Such Puts are left out of the order, and
  `PutOutcome` shows that they were never applied.
- `KvModel.Step` ignores the version and error of a Get. The order proved here has them right too
  (`KvModel.ExactGet`).
- The distributed program is meant to write what the sequential one writes. The code does not
  ensure it: `LateGlobLosesLines` gives two traces in which a reduce attempt lists its input after
  an earlier attempt deleted it, overwrites the output and the job ends with a line lost. In every
  trace the output of a finished job is that of the pairs the last writer of each output had read
  (`OutputOfPairsRead`). These are all the pairs, and so give the sequential program's lines under
  every Reduce, if and only if every output was last written by an attempt whose listing missed
  no pair of its bucket (`AllPairsReadIff`, `RightIff`). A late listing that is never written out,
  or is overwritten by a complete one, does no harm. The condition holds if no attempt lists its
  input after another attempt at the same task began to delete it (`EarlyRun`, `RunCovers`).
- The test `checkOneLeader` (`src/raft1/test.go:114-150`) asks for one leader per term, which
  the code does not ensure, for two reasons. `Votes.Reset` is never called and a granted vote
  does not carry its term, so the count of a promotion may hold votes of an earlier term: after a
  second candidacy (`CarriedOverVote`), or after a candidate voted in a later term, which leaves
  it candidate (`VotingCandidate`). A leader that votes in a later term takes the term and keeps
  its role (`OvertakenLeader`). `LeadersElected` shows that a promotion without the votes and an
  overtaken leader are the only two ways a leader comes to lack the votes of more than half.
  `OrderlyOneLeader` derives one leader per term from what servers and network do: servers are
  candidates once, only candidates and leaders ask, they are not asked to vote in a later term,
  and no server is brought more votes than others gave it.
- A follower that accepts a heartbeat keeps its own term, and becoming a follower does not
  clear its vote. The model does the same.
- The read-back test of a client that puts (`src/kvtest1/kvtest.go:228`) gives up only if both
  the writer and the version are wrong; `PutAccounting` shows that neither ever is.

## Model

| member | source | states |
|---|---|---|
| `KvStore.KVServer.constructor` | src/kvsrv1/server.go:32-37 | A new server holds no key and satisfies the invariant that every stored key has version at least 1. |
| `KvStore.KVServer.Get` | src/kvsrv1/server.go:41-59 | OK exactly if the key is stored, and then its stored value and version; otherwise ErrNoKey. |
| `KvStore.KVServer.Put` | src/kvsrv1/server.go:65-95 | Compare-and-set: OK exactly if the version is the stored one, or 0 for a missing key, and then the value is stored at the next version; ErrVersion exactly for another version of a stored key, ErrNoKey exactly for another version of a missing one; no other key changes; the invariant is kept. |
| `KvStore.ServeMonotone` | src/kvsrv1/server.go:65-95 | No call moves a version back, and a key keeps its value for as long as it keeps its version. |
| `KvModel.Partition` | src/models1/kv.go:27-43 | The history is split so that exactly the keys in it have a part, and each part is that key's operations in their order. |
| `KvModel.StepMatchesServer` | src/models1/kv.go:49-67 | The model accepts a Get exactly if its value is the one the server would give, and a Put exactly if its error is ErrMaybe or the server's, with a missing key taken for a version mismatch; it moves as the store moves. |
| `Clerks.NextInv` | src/kvsrv1/client.go:44-104 | Every step of any clerk keeps what is known about all calls under way: a landed Put's version is past, an answered Get is no newer than the store, a first-attempt ErrVersion means nothing was written. |
| `Linearizability.RunInv` | src/kvsrv1/client.go:44-104 | In every reachable history each execution answered from the store left by those before it, only one execution per operation wrote, and every returned result is justified by the execution its operation takes effect at. |
| `Linearizability.ModelStepAtPoint` | src/models1/kv.go:49-67 | At its point every operation is accepted by the sequential model from the state of its key, and the model then moves as the store moves. |
| `Linearizability.ModelFollowsStore` | src/models1/kv.go:44-67 | Run over the operations placed so far, the model accepts each key's part and ends in that key's stored value and version. |
| `Linearizability.PlacedIffOrdered` | src/kvsrv1/client.go:44-104 | The order holds exactly the completed operations without ErrNoKey Puts, and the pending Puts that have written. |
| `Linearizability.Linearizable` | src/kvsrv1/client.go:44-104 | In every run of any number of clerks over the lossy network the operations have an order, each once, that respects real time and that the model accepts key by key, with exact versions and errors for Gets. |
| `Linearizability.PutOutcome` | src/kvsrv1/client.go:60-104 | A Put is applied at most once however often it is resent; OK means once, ErrVersion and ErrNoKey never; ErrMaybe only follows a lost attempt and means once if the version was current at the call and nobody else wrote the key; with no attempt lost, OK exactly if applied. |
| `ClerkAnswers.AnswerIsDue` | src/kvsrv1/client.go:44-104 | In every run a returned call was executed, and its answer is exactly that of its last execution: a Get gives that reply; a Put OK or ErrNoKey exactly if the server said so, and on a version mismatch ErrVersion exactly if no attempt was lost and ErrMaybe exactly if one was. |
| `Lock.ParseTagged` | src/kvsrv1/lock/lock.go:61-69 | Splitting a written lock value at the dash gives back the id and whether it says locked. |
| `Lock.HeldStopsOthers` | src/kvsrv1/lock/lock.go:61-84 | A value saying that one object holds the lock never lets another object's Acquire go on to its Put. |
| `Lock.MayTryIff` | src/kvsrv1/lock/lock.go:61-84 | An object goes on to its Put on an empty value, on any freed one and on its own held one, and on no other object's held one. |
| `Lock.OwnerExcludes` | src/kvsrv1/lock/lock.go:53-114 | While an object's held value stands, no other client's Put to that lock lands. |
| `Lock.RunInv` | src/kvsrv1/lock/lock.go:53-114 | In every reachable state an owner's value is in the store, a pending Acquire's version is current only if the lock may be tried, and a release write still to land carries the current version. |
| `Lock.MutualExclusion` | src/kvsrv1/lock/lock.go:53-114 | At no point of any run are two Lock objects of one name both between the return of Acquire and the call of Release, whatever the network loses. |
| `Lock.Reservation` | src/kvsrv1/lock/lock.go:57-86 | Once a write of Acquire has landed, whatever code its Put reported, the lock keeps that value and no other object owns it until the object's own release write. |
| `Lock.ReleaseLandsOnce` | src/kvsrv1/lock/lock.go:89-114 | A Release has landed its write exactly once when it returns, whichever code its Put reported. |
| `Lock.FreeLockIsTaken` | src/kvsrv1/lock/lock.go:53-87 | From every reachable state in which an object is about to look at the lock and no other object's held value stands, its Get and its Put, without loss or interference, lead to holding the lock with "1-" and its id stored. |
| `Lock.HolderReleases` | src/kvsrv1/lock/lock.go:89-114 | From every reachable state in which an object holds the lock, Release, without loss or interference, leads out and leaves "0-" and its id stored. |
| `AppendWorkload.LandingAppends` | src/kvtest1/kvtest.go:347-359 | A write that lands extends the shared list by exactly its client's pair. |
| `AppendWorkload.NoLostUpdate` | src/kvtest1/kvtest.go:327-363 | At every point of every run the list has length version - 1, each client's numbers strictly increase, every append reported OK is in it exactly once, and a client has skipped no more numbers than it counted ErrMaybe. |
| `AppendWorkload.CountsAreReturns` | src/kvtest1/kvtest.go:346-359 | In every run a client has counted as OK exactly the iterations whose append returned OK, as maybe exactly those that returned ErrMaybe, and moves on for no other reason. |
| `AppendWorkload.ReadsBeforeAppend` | src/kvtest1/kvtest.go:347-359 | In every run a client appends at the version it has just read and reads again before every append. |
| `AppendWorkload.SoleClientNeverRefused` | src/kvtest1/kvtest.go:338-363 | A client that is alone on a network that loses nothing has every append answered OK. |
| `AppendWorkload.CheckAppends` | src/kvtest1/kvtest.go:372-401 | The checking loop accepts exactly the lists with increasing numbers, the right length, and skipped and total counts within what the clients reported. |
| `AppendWorkload.FinalCheckPasses` | src/kvtest1/kvtest.go:338-401 | When no call is under way, that check accepts the stored list and the clients' counts. |
| `PutWorkload.PutAccounting` | src/kvtest1/kvtest.go:219-295 | At every point the version of the key is the number of applied Puts, and nothing a client was told is a reason to give up: no Put ended with another code than OK, ErrVersion or ErrMaybe, and reading back found the key, and at the next version after an OK the client's own value; between Puts, OK total <= version <= OK total + ErrMaybe total, with equality to the OK total if nothing was lost. |
| `PutWorkload.CountsAreReturns` | src/kvtest1/kvtest.go:219-295 | In every run a client has counted as OK exactly the Puts that returned OK and as maybe exactly those that returned ErrMaybe, but for one it is reading back after, and it reads back once after each Put. |
| `PutWorkload.SoleClientNeverRefused` | src/kvtest1/kvtest.go:219-238 | A client that is alone on a network that loses nothing has every Put answered OK. |
| `PutWorkload.FinalCheckPasses` | src/kvtest1/kvtest.go:137-151 | Between Puts the check of the totals accepts the version of every run, and the reliable form of it accepts every run that lost nothing. |
| `PutWorkload.CheckPutConcurrent` | src/kvtest1/kvtest.go:137-151 | The summing loop accepts exactly if the version equals the OK total (reliable) or is at most OK plus ErrMaybe (unreliable). |
| `ShardSpec.MoveDecreases` | src/shardkv1/shardcfg/shardcfg.go:141-153 | A move from the most to the least loaded group, when they differ by two, strictly decreases the sum of squared loads. |
| `ShardSpec.SumSquaresIsSum` | src/shardkv1/shardcfg/shardcfg.go:141-153 | The measure is the sum, over the groups, of the number of shards times itself. |
| `ShardSpec.RebalanceCorrect` | src/shardkv1/shardcfg/shardcfg.go:122-154 | From any assignment and any non-empty set of groups, rebalancing puts every shard on a group with loads differing by at most one, and rebalancing again changes nothing. |
| `ShardSpec.LeaveMovesOnlyDeparted` | src/shardkv1/shardcfg/shardcfg.go:131-154 | From a balanced assignment over more groups, exactly the shards of the departed groups move, no assignment to the remaining groups moves fewer, and the levelling loop changes nothing. |
| `ShardSpec.JoinFills` | src/shardkv1/shardcfg/shardcfg.go:140-153 | From a balanced assignment over the old groups, every shard that moves goes to a new group. |
| `ShardSpec.JoinMovesFewest` | src/shardkv1/shardcfg/shardcfg.go:122-154 | Shards move only from old groups to new ones, and no balanced assignment over the enlarged set of groups differs from the old one in fewer shards than the rebalanced one. |
| `ShardSpec.JoinSingleShare` | src/shardkv1/shardcfg/shardcfg.go:122-154 | A single new group ends with the number of shards divided by the number of groups, rounded down. |
| `ShardSpec.EveryGroupServes` | src/shardkv1/shardcfg/shardcfg.go:229-236 | With no more groups than shards, the groups that own a shard in a balanced assignment are exactly the groups. |
| `ShardConfig.Configuration.constructor` | src/shardkv1/shardcfg/shardcfg.go:44-49 | A new configuration has number 0, no groups and every shard unassigned. |
| `ShardConfig.Configuration.Analyze` | src/shardkv1/shardcfg/shardcfg.go:80-111 | The first most and first least loaded groups in id order with their loads; with no groups the sentinels. |
| `ShardConfig.Configuration.LeastLoaded` | src/shardkv1/shardcfg/shardcfg.go:115-118 | The first group with the fewest shards; -1 with no groups. |
| `ShardConfig.Configuration.Rebalance` | src/shardkv1/shardcfg/shardcfg.go:122-154 | The array becomes the rebalanced assignment, the loop ending because the sum of squared loads falls; with no groups every shard is unassigned. |
| `ShardConfig.Configuration.Join` | src/shardkv1/shardcfg/shardcfg.go:156-183 | Succeeds exactly if there are groups to add, all new, and no server would be in two groups, whatever order the map is walked in; then adds them and counts the change; a failing call keeps the number and the old groups and may have added some of the new ones as given; it is refused only for a group that is already there, and ends the process only for an empty request or a shared server. |
| `ShardConfig.Configuration.Leave` | src/shardkv1/shardcfg/shardcfg.go:185-205 | Succeeds exactly if the list is not empty, has no repetition and names only members; then removes those groups and counts the change; a failing call keeps the number and has removed exactly the groups listed before the first that is missing; it ends the process exactly for an empty list. |
| `ShardConfig.Configuration.JoinBalance` | src/shardkv1/shardcfg/shardcfg.go:207-213 | A successful call adds the groups and rebalances; a failing one leaves shards and number alone and the groups as the failing Join does. |
| `ShardConfig.Configuration.LeaveBalance` | src/shardkv1/shardcfg/shardcfg.go:215-221 | A successful call removes the groups and rebalances; a failing one leaves shards and number alone and the groups as the failing Leave does. |
| `ShardConfig.Configuration.IsMember` | src/shardkv1/shardcfg/shardcfg.go:229-236 | True exactly if some shard is on the group. |
| `ShardConfig.Configuration.CheckConfig` | src/shardkv1/shardcfg/shardcfg.go:238-279 | Accepts exactly the configurations with the expected groups, every shard on one of them, and loads differing by at most one. |
| `ShardConfig.ConfigRun` | src/shardkv1/shardcfg/shardcfg.go:156-279 | After every sequence of successful joins and leaves from the empty configuration: shards assigned and balanced, no server in two groups, the number counts the changes, and with 1 to n groups the groups owning shards are exactly the groups. |
| `ShardConfig.JoinMoves` | src/shardkv1/shardcfg/shardcfg.go:156-213 | A successful join onto a balanced configuration moves shards only from old to new groups, as few as any balanced assignment could, and gives a single new group floor(n / (G + 1)) shards. |
| `ShardConfig.LeaveMoves` | src/shardkv1/shardcfg/shardcfg.go:185-221 | A successful leave that leaves a group moves a shard exactly if its group departed. |
| `MrCoordinator.Coordinator.constructor` | map_reduce/mr/coordinator.go:58-74 | One pending map task per file, then one pending reduce task per bucket with its pattern, ids counting from 1, in the map phase. |
| `MrCoordinator.Coordinator.FindPendingTask` | map_reduce/mr/coordinator.go:235-248 | The first pending task of the type the phase asks for, or the number of tasks. |
| `MrCoordinator.Coordinator.GetTask` | map_reduce/mr/coordinator.go:89-132 | Given the kept invariant, exit exactly if every task is done, work exactly if a map task is pending or a reduce task is pending with all map tasks done, otherwise wait; work is the first open task, now out with this worker; the phase does not change. |
| `MrCoordinator.Coordinator.Ping` | map_reduce/mr/coordinator.go:76-87 | Exactly the tasks of the worker get the new time. |
| `MrCoordinator.Coordinator.CheckTask` | map_reduce/mr/coordinator.go:134-147 | A task that is out and silent for more than ten seconds becomes pending without a worker; nothing else changes. |
| `MrCoordinator.Coordinator.UpdateTask` | map_reduce/mr/coordinator.go:149-183 | The tasks with the id get the status, and the phase is recomputed from which types are all done. |
| `MrCoordinator.Coordinator.IsDone` | map_reduce/mr/coordinator.go:187-191 | With the invariant every handler keeps, true exactly if every task of the job is done. |
| `MrCoordinator.NextStatus` | map_reduce/mr/coordinator.go:89-183 | Only a report completes a task, only a timeout returns it, only a handout gives it out. |
| `MrCoordinator.PhaseSafety` | map_reduce/mr/coordinator.go:89-191 | In every run a done task stays done, tasks keep what they were created with, phases only advance, and the phase is done exactly when all tasks are done. |
| `MrCoordinator.ReduceAfterMap` | map_reduce/mr/coordinator.go:89-132 | In every run a reduce task is handed out only when every map task is done. |
| `MrCoordinator.HandedOutTwice` | map_reduce/mr/coordinator.go:76-147 | Between two handouts of one task lies a timeout that took it back more than ten seconds after the first handout and after every ping of its worker; so without timeouts a task is handed out at most once. |
| `MrCoordinator.SilentIsTakenBack` | map_reduce/mr/coordinator.go:122-147 | In every run a task that is out and is looked at more than ten seconds after its handout and after every ping of its worker becomes pending without a worker. |
| `MrCoordinator.IdsApart` | map_reduce/mr/coordinator.go:93-105 | In every run tasks have different ids, and the id given with a wait or exit is no task's, so reporting it changes no task. |
| `MrWorker.SplitIntoBuckets` | map_reduce/mr/worker.go:121-134 | Bucket i holds, in order, exactly the pairs whose hash modulo the number of buckets is i, with their multiplicity. |
| `MrWorker.GroupValuesByKey` | map_reduce/mr/worker.go:215-225 | Exactly the keys present have a group, holding all their values in order. |
| `MrWorker.ReduceValuesByKey` | map_reduce/mr/worker.go:227-235 | In whatever order the map is ranged over, the lines are one per key with the reduction of all its values. |
| `MrWorker.ReduceAll` | map_reduce/mr/worker.go:182-192 | Grouping and reducing a list of pairs gives, as a multiset, the lines of that list. |
| `MrWorker.IHash` | map_reduce/mr/mr_utils.go:10-14 | A 31-bit number that is the FNV-1a hash of the key or differs from it by the top bit. |
| `MrWorker.Fnv1aKnownValues` | map_reduce/mr/mr_utils.go:10-14 | The hash gives the published FNV-1a values for the empty string, "a" and "foobar". |
| `MrWorker.PatternSelects` | map_reduce/mr/coordinator.go:207-216 | Matched star by star, the pattern string of reduce i selects exactly the names of bucket i of some task. |
| `MrWorker.GlobSelectsBucket` | map_reduce/mr/coordinator.go:207-216 | A bucket name is of bucket i for one i only, whatever text the star stands for. |
| `MrWorker.BucketNameInjective` | map_reduce/mr/worker.go:155 | Different tasks or buckets write different files. |
| `MrWorker.OutNameApart` | map_reduce/mr/worker.go:195 | Output files differ from each other and from every bucket file, so no pattern selects one. |
| `MrWorker.OutputsSelected` | map_reduce/mr/worker.go:195 | The pattern mr-out-* selects every output file and no bucket file, and the number of the output can be read back from its name. |
| `MrData.BucketCount` | map_reduce/mr/worker.go:121-134 | A pair occurs in the bucket its key hashes to as often as in the input, and in no other bucket. |
| `MrData.LineReadsBack` | map_reduce/mr/worker.go:231 | From the line of a key without a space the key and the result can be read back. |
| `MrData.LineInjective` | map_reduce/main/mrsequential.go:81 | Lines of keys without spaces are different for different keys or results. |
| `MrData.BucketedRefinesSequential` | map_reduce/mr/worker.go:121-235 | The lines of all buckets together are, as a multiset, the lines of all the pairs at once. |
| `MrSequential.LeIsByteOrder` | map_reduce/mr/mr_utils.go:27-32 | The order of keys is that of strings: a prefix first, otherwise by the first difference. |
| `MrSequential.Scan` | map_reduce/main/mrsequential.go:68-84 | The scan of a sorted list writes exactly one line per key, in the order of the keys, with the reduction of all the key's values. |
| `MrSequential.Sequential` | map_reduce/main/mrsequential.go:38-84 | Whatever sorted permutation the sort produces, the program writes the lines of all pairs of all files. |
| `MrSequential.LinesDependOnMultiset` | map_reduce/main/mrsequential.go:59-84 | Two orders of the same pairs give the same lines. |
| `MrSystem.RenderInjective` | map_reduce/mr/worker.go:155-195 | Different bucket and output files have different names, so the file store may be keyed by what a file is. |
| `MrSystem.TaskSays` | map_reduce/mr/coordinator.go:194-218 | In every reachable job map task t names file t, and reduce task i has index i, the pattern of bucket i and its own id; workers read, list and write by what their task says. |
| `MrSystem.GlobSelects` | map_reduce/mr/worker.go:174-198 | Among the job's files the pattern of reduce i selects bucket i of every map task and nothing else. |
| `MrCorrectness.NextInv` | map_reduce/mr/worker.go:62-244 | Every step of any worker, also of one whose task has timed out, of the coordinator or of a timeout keeps the invariant tying tasks, files and workers together. |
| `MrCorrectness.InputPresent` | map_reduce/mr/worker.go:136-172 | Once all map tasks are done every bucket file is in the file store, or an attempt has begun to delete that bucket, or its reduce task is done. |
| `MrCorrectness.FileGone` | map_reduce/mr/worker.go:174-213 | An attempt whose input disappears before it has read it reports its task, and the output written by another attempt is in place. |
| `MrCorrectness.TraceInv` | map_reduce/mr/worker.go:62-244 | In every trace every bucket file holds its bucket of its task's pairs, every reading attempt has read its bucket of the files it listed so far, and the output of every finished reduce task is one that was written. |
| `MrCorrectness.ReadWhole` | map_reduce/mr/worker.go:200-213 | The pairs read from the listed files are the whole bucket if and only if no file with a pair of the bucket was missed. |
| `MrOutput.WritesWhatItListed` | map_reduce/mr/worker.go:174-198 | In every trace, whatever timed out or was deleted, an attempt writes the lines of the pairs it read from the files it listed, and these are its whole bucket if and only if the listing missed no pair. |
| `MrOutput.HoldsLastWrite` | map_reduce/mr/worker.go:262-285 | In every trace an output file that has been written holds what was written to it last. |
| `MrOutput.DoneOutput` | map_reduce/mr/worker.go:174-198 | In every trace that reaches the done phase every output has been written; it holds the lines of the pairs its last writer had read, and these are its whole bucket if and only if the last writer's listing missed no pair. |
| `MrOutput.OutputOfPairsRead` | map_reduce/mr/worker.go:62-235 | In every trace that reaches the done phase the lines of all output files together are, as a multiset, those of the pairs the last writers had read. |
| `MrOutput.AllPairsReadIff` | map_reduce/mr/worker.go:62-235 | Those pairs are, as a multiset, all pairs of all files if and only if every output was last written by an attempt whose listing missed no pair. |
| `MrOutput.EndToEnd` | map_reduce/mr/worker.go:62-235 | In every trace that reaches the done phase with every output last written by an attempt whose listing missed no pair, the lines of all output files together are, as a multiset, the lines the sequential program writes for the same files. |
| `MrOutput.SamePairsIffSameLines` | map_reduce/main/mrsequential.go:68-84 | Two lists of pairs give the same lines under every Reduce if and only if they hold the same pairs equally often. |
| `MrOutput.RightIff` | map_reduce/mr/worker.go:62-235 | The pairs a finished job's output is made of give the sequential program's lines under every Reduce if and only if every output was last written by an attempt whose listing missed no pair. |
| `MrOutput.EarlyRun` | map_reduce/mr/worker.go:174-198 | If no attempt lists its input after another began to delete it, no listing misses a pair of its bucket. |
| `MrOutput.RunCovers` | map_reduce/mr/worker.go:174-198 | If no listing misses a pair, every output was last written by an attempt whose listing missed none. |
| `MrOutput.JobMatchesSequential` | map_reduce/mr/worker.go:62-235 | With keys spread over buckets by the hash of the program, a job that reaches the done phase without a listing after deletion began writes, as a multiset, the lines of the sequential program. |
| `MrLostInput.LateGlobLosesLines` | map_reduce/mr/worker.go:195-197 | Two traces, one in which a reduce task is handed out again after an attempt deleted its input, one in which the attempt deletes it after the second handout: both end in the done phase with an empty output, although the sequential program writes a line, and every listing but one missed no pair. |
| `Raft.Votes.constructor` | src/raft1/raft.go:443-449 | Counting starts at zero for the given number of servers. |
| `Raft.Votes.HasMajority` | src/raft1/raft.go:457-461 | True exactly if more than half of the total have been counted. |
| `Raft.Peer.constructor` | src/raft1/raft.go:54-77 | A server starts as a follower in term 0 without a vote. |
| `Raft.Peer.RequestVote` | src/raft1/raft.go:176-197 | Grants exactly for a later term, or for its own term if it has not voted or voted for this candidate; a grant means the vote is remembered for that term; a refusal changes nothing; the reply carries its term exactly to an earlier term; role and count stay. |
| `Raft.Peer.AppendEntries` | src/raft1/raft.go:209-228 | Succeeds exactly for a term that is not earlier, and then makes a follower; a refusal leaves the role; term, vote and count stay, and the reply carries the term. |
| `Raft.Peer.BecomeFollower` | src/raft1/raft.go:233-248 | Role and term change, vote and count stay. |
| `Raft.Peer.BecomeCandidate` | src/raft1/raft.go:250-266 | A later term, a vote for itself, one more vote counted. |
| `Raft.Peer.HandleVoteReply` | src/raft1/raft.go:343-359 | A later term makes a follower in that term; otherwise a grant counts one more and makes a candidate leader exactly if more than half are counted. |
| `Raft.Peer.HandleAppendReply` | src/raft1/raft.go:409-416 | A later term makes a follower in that term; otherwise nothing changes. |
| `Raft.VoteOnce` | src/raft1/raft.go:176-266 | Over every run, under loss, duplication and reordering, each server votes for at most one candidate per term, votes are never taken back, and terms never decrease. |
| `Raft.ElectionSafety` | src/raft1/raft.go:176-266 | In no run do two candidates hold votes from more than half of the servers in one term. |
| `Raft.DeposedStaysFollower` | src/raft1/raft.go:209-248 | In every run a server that is delivered a heartbeat of its term or later, or a reply of a later term, is a follower until it times out, in the term of the reply or later. |
| `Raft.HeartbeatAnswered` | src/raft1/raft.go:209-228 | In every run the answer to a heartbeat carries the receiver's term and says exactly whether the heartbeat was of an earlier one. |
| `RaftLeader.LeadersElected` | src/raft1/raft.go:176-359 | In a run every leader always holds votes from more than half of the servers in its term, if and only if every promotion comes with such votes and no leader votes in a later term. |
| `RaftLeader.OneLeader` | src/raft1/test.go:114-150 | In every run whose promotions count only votes of the current term and in which no leader votes in a later term, two leaders of one term, at the same or different times, are the same server. |
| `RaftLeader.OrderlyOneLeader` | src/raft1/test.go:114-150 | In every run in which servers become candidate only before counting a vote, only candidates and leaders ask for votes, none of them is asked in a later term, and no server is brought more votes than others gave it, two leaders of one term, at the same or different times, are the same server. |
| `RaftLeader.OrderlyElects` | src/raft1/raft.go:250-359 | There is such a run that elects a leader. |
| `RaftLeader.CarriedOverVote` | src/raft1/raft.go:343-359 | A run of three servers, without a leader that votes in a later term, in which a vote of an earlier term is counted and two servers are leader in one term. |
| `RaftLeader.OvertakenLeader` | src/raft1/raft.go:189-195 | A run of three servers, in which every promotion counts only votes of its term, in which a leader votes in a later term and two servers are leader in it. |
| `RaftLeader.VotingCandidate` | src/raft1/raft.go:189-195 | A run of three servers, in which nobody is a candidate twice and no leader votes in a later term, in which a candidate votes in a later term, is promoted there on a vote of the earlier one, and two servers are leader in that term. |
| `Demux.CallMap.constructor` | src/tester1/demux/callmap.go:15-17 | A new map is open and empty. |
| `Demux.CallMap.Put` | src/tester1/demux/callmap.go:34-43 | Registers the call exactly if the map is not closed. |
| `Demux.CallMap.Remove` | src/tester1/demux/callmap.go:45-54 | Takes the call of the tag out if there is one. |
| `Demux.CallMap.Outstanding` | src/tester1/demux/callmap.go:56-65 | Every registered tag, each once. |
| `Demux.RunInv` | src/tester1/demux/dmxclnt.go:49-111 | In every reachable state tags are distinct and each registered call without a reply is in the map or is the one the reader is answering. |
| `Demux.ClosedForGood` | src/tester1/demux/callmap.go:19-43 | In every run, once the map is closed it stays closed and never holds a call it did not hold then. |
| `Demux.NoCallerLost` | src/tester1/demux/dmxclnt.go:49-111 | In every interleaving every reply read matches a call; a reply goes only to a call still waiting, carries that call's tag, and is the server's exactly if that was read; only a closed map refuses a call; once the reader has finished no registered call is left without a reply. |

## Left out

- Unfilled code: `src/kvraft1`, `src/kvraft1/rsm`, `src/shardkv1/client.go`, `src/shardkv1/shardctrler`, `src/shardkv1/shardgrp`, `src/mr`, and Raft's Start, persist, readPersist and Snapshot; there is no behaviour to prove.
- Raft timers, heartbeat goroutines, cancellation and liveness.
- The RPC, gob, JSON and socket layers below the lossy network, and the test harness, annotation and logging.
- The Map and Reduce plugins in `map_reduce/mrapps`: both are parameters.
- The retry loops of the clerk and of Acquire and Release as methods: they may never end, so they are steps of a state machine, with the same branches.
- Failed reads and writes in the worker: file operations succeed; the one failing read modelled is that of a file deleted after it was listed, which reports the task done as the code does.
- Key2Shard, String, FromString, Copy and GidServers of the shard configuration: they carry no property of interest.
- KvModel.Partition: the parts come as a map; the final sort of the keys is not modelled.
- KvStore.KVServer.Put: does not model 64-bit wrap-around of versions.
- PutWorkload.PutAccounting: one key; clients that pick among several random keys are not modelled.
- PutWorkload.CheckPutConcurrent: takes the version as an argument; the read that gives up on a missing key is not part of it.
- MrCoordinator.Coordinator.constructor: the window in which the coordinator already serves but has not set its phase is not modelled; it starts in the map phase.
- MrWorker.IHash: a key's bytes are its characters modulo 256; the encoding of other characters is not modelled.
- MrSequential.Sequential: takes the sorted list as an argument; sort.Sort itself is not modelled, and output is a list of lines rather than bytes.
- MrOutput.EndToEnd: speaks of traces that reach the done phase, not of reaching it.
- MrOutput.RightIff: the exact condition is on the pairs the output is made of; a Reduce that ignores values can hide a missed pair in the lines, so for one fixed Reduce the condition is sufficient only.
