# FastStore in Dafny

FastStore is a replicated block store: files are cut into blocks of 4 MB, blocks belong to data
groups, each data group has a master, and one server of the cluster is the leader.  This project
models the parts of FastStore whose correctness does not show in any single function, and proves
what they are meant to guarantee.  `dafny verify dfyconfig.toml` checks everything.

| file | part of the system |
|---|---|
| LeaderElection.dfy | the two-phase leader election as interleaved atomic handler calls, and the candidate's loops |
| WriteCombine.dfy, CombineApi.dfy, WriteCombiner.dfy | write combining in the client API: every interleaving of its locked sections, and the API calls over it |
| ReadAhead.dfy, PrereadList.dfy, ReadAheadClient.dfy | the read-ahead cache, its unlinking loop, and the API with both caches |
| TopologyPush.dfy, FollowerTopology.dfy | pushing data server changes from the leader to its peers, and applying them |
| SliceLoader.dfy | parallel loading of the slice binlog |
| ObjectBlockIndex.dfy, SliceIO.dfy, BlockUpdate.dfy | the slice index of a block, reads and allocations through it, and the block as writes, deletes and allocations change it |
| BinlogCheck.dfy, BinlogRewrite.dfy, BinlogRepair.dfy, BinlogPowerLoss.dfy, BinlogConsistency.dfy | the start-up check of the binlogs, rewriting a binlog, replacing it crash-atomically, what a loss of power does to that, and all of it on the files of all data groups |
| BinlogReader.dfy, ReplicaSearch.dfy, BinlogRecords.dfy | whole-line chunk reading, position search, record text |
| MasterElection.dfy, TrunkFdCache.dfy, BlockStore.dfy | master selection, the trunk file descriptor cache, the plain block |
| Common.dfy | `Text`, `Option`, and the marker `Unfold` |

State that the program changes in place is a class whose methods have the program's loops and
branches.  Where steps of several threads interleave there is also a state machine over values:
a step is one atomic instruction or one locked section, a run is any sequence of enabled steps, and
the class methods are proved to be runs of steps or to apply the same transition functions.
Several invariants are written `forall k :: Unfold(k) ==> ...`: the verifier looks inside only where
a proof mentions `Unfold` (declared in Common).

## Modelling decisions

- Each election handler call is one atomic step, and all servers visit in the same id order
  (src/server/server_group_info.c:438).  The local branch of a candidate's call does not assign the
  connect-failure flag, so it is carried over from the call before
  (src/server/cluster_relationship.c:706, 720).  A candidate that gives up a round while a call is under
  way leaves that call in flight; it is handled once, at any later time, or never.
- Allocation does not fail; queues, hash tables and timers of libfastcommon and libserverframe are
  their abstract queue, map and "may fire at any time".  A pooled slice object gets a fresh id.
- API calls of the client run one at a time in CombineApi, WriteCombiner and ReadAheadClient; between
  any two of their atomic steps the timer and the combine handler do any amount of work.
  WriteCombine makes no such assumption.  Writes to the server succeed; a failed one ends the process.
- A read ends at the last stored byte of its range (src/server/storage/slice_op.c:818-879).
- A crash in BinlogRepair is a crash of the process: what has been written stays written.  In
  BinlogPowerLoss the power fails: of a file that was not synced any prefix may be left, while renames and
  the record of the repair are durable.
- The storage allocator gives enough space, none twice and none that is in use; a request may be split
  into several pieces.
- Parsing a line of the binlogs is a function parameter in ReplicaSearch and BinlogConsistency; a line
  may fail to parse.
- A block delete is a delete of the block's whole range, as the unlink call sets it
  (src/api/fs_api.c:549-551).  The millisecond and second clocks of the master election agree.
- Integers are unbounded, except that the block hash wraps at 64 bits.

## What does not hold

- Leadership is exclusive only if two calls of each pair connect: `MutualExclusionExactly` shows that
  for servers a < b these are the pre-set call from a to b and the commit call from b to a, and that
  losing either lets both lead.  A lost pre-set call does so with no late call at all.  The run for a lost
  commit call needs delayed delivery: calls of rounds given up earlier, each sent before, arrive late.
- A read that read-ahead serves can be longer than the plain read, with zeros for a trailing hole:
  `SliceRead` gives the exact answer, `AnswerDiffers` says exactly when it differs from the plain read,
  something is then always stored behind the request in the same block, and `LongerThanPlain` makes it
  happen.
- The unlinking loop of the read-ahead index keeps `previous` on a node it has just unlinked
  (src/api/read_ahead/obid_htable.c:202): `RemoveConflictSlices` leaves the right list exactly when
  no two adjacent entries overlap the write, and a range that the write overlaps stays registered
  exactly otherwise.  `TwoReadersClash` is a run of two reading threads and a write in which that happens.
- The comment at src/server/cluster_relationship.c:1069 says that a push takes the follower's own status
  from ACTIVE to OFFLINE only.  `RaisedByPush` is an entry that raises it, by making the follower master
  (lines 1033-1036); `OwnStatusChanges` shows that exactly such entries break the rule, and
  `AlwaysFallsExactly` says the same of whole pushes.
- The reading loop of the filter and of the version loader takes an empty file for the end of the
  log: `ReadAll` gets the whole rest exactly when no empty file lies before a non-empty one, and
  `RepairLog` carries this to the repaired log.  `GapHidesLine` and `GapLosesLine` are runs of the loop and
  of a repair that lose a line; `SeenEnough` says exactly when nothing is lost.
- A repair does not survive a loss of power, because only the last of the new files is synced
  (src/server/binlog/binlog_repair.c:246-283, 432): `OneFileSurvives` shows that it does exactly when it
  writes a single file, and `LosesFirstFile` is the failing run for every other repair.
- The tracked file size of the rewriter leaves out the copied front part
  (src/server/binlog/binlog_repair.c:167, 227).  `LimitHoldsExactly`: the files stay within the limit
  for all lines exactly when no front part was copied; `OverfullFile` makes a first file that does not,
  and by `FileSizes` all other files do.

## Model

| member | source | states |
|---|---|---|
| LeaderElection.StepKeepsPairInv | src/server/cluster_handler.c:520-552 | the pair invariant that rests on the common visiting order is kept by every step of every candidate |
| LeaderElection.RunKeepsPairInv | src/server/cluster_relationship.c:672-694 | the invariant holds over every run of pre-set, commit, unset, adopt, abort and late steps, where only a call that was sent can be late |
| LeaderElection.LeadsExactly | src/server/cluster_handler.c:520-552 | in every step a server comes to lead exactly by its own commit, and stops exactly when another candidate calls it, it is unset, or it follows another server |
| LeaderElection.MutualExclusion | src/server/cluster_relationship.c:701-775 | over every run two servers never both lead if their two decisive calls connect |
| LeaderElection.AtMostOneLeader | src/server/cluster_relationship.c:727-775 | if every call connects there is at most one leader, for any number of servers and candidates |
| LeaderElection.LostPreSetSplitsBrain | src/server/cluster_relationship.c:701-725 | a run without late calls in which a lost pre-set call makes both servers lead, for every cluster and pair |
| LeaderElection.LostCommitSplitsBrain | src/server/cluster_relationship.c:701-725 | a run in which a lost commit call makes both servers lead; every call handled late was sent by a round given up before |
| LeaderElection.MutualExclusionExactly | src/server/cluster_relationship.c:727-775 | for every cluster size, pair and set of calls that may fail: exclusive if and only if the two decisive calls cannot fail |
| LeaderElection.Server.PreSetNext | src/server/cluster_relationship.c:474-491 | the slot is taken if free or already the candidate's, otherwise cleared and refused; the leader stays |
| LeaderElection.Server.CommitNext | src/server/cluster_relationship.c:672-694 | a commit succeeds exactly for the candidate in the slot and sets the leader; the slot is free afterwards in any case |
| LeaderElection.Server.Unset | src/server/cluster_relationship.c:493-502 | the leader pointer is cleared and the hints stay in step with it |
| LeaderElection.Server.SetLeader | src/server/cluster_relationship.c:596-670 | the leader pointer is set and the hints name exactly the leader |
| LeaderElection.Server.Handle | src/server/cluster_handler.c:520-552 | a leading server refuses and gives up its leadership, others act on the slot; after a call from another server no server leads |
| LeaderElection.SendOne | src/server/cluster_relationship.c:701-725 | the outcome of one iteration: a call to one server, or a skipped connection |
| LeaderElection.SendToReaches | src/server/cluster_relationship.c:701-725 | that outcome is one step of the protocol |
| LeaderElection.SendPhase | src/server/cluster_relationship.c:727-775 | a candidate's loop is a run of protocol steps, and accepting servers all accept |
| LeaderElection.NotifyLeaderChanged | src/server/cluster_relationship.c:727-775 | a whole round is a protocol run, and on a quiet connected cluster every server follows the candidate |
| BlockStore.OverlapsExactly | src/common/fs_func.h:34-42 | the overlap test holds if and only if some offset lies in both slices |
| BlockStore.Extent | src/server/storage/slice_op.c:818-879 | a read reaches to the last stored offset of its range |
| BlockStore.Fill | src/server/storage/slice_op.c:818-879 | holes read as zero |
| WriteCombine.StepKeepsInv | src/api/write_combine/obid_htable.c:55-167 | every atomic step of any thread keeps queue, lists, waiters and slices consistent |
| WriteCombine.RunKeepsInv | src/api/write_combine/combine_handler.c:28-100 | and so does every run |
| WriteCombine.RunAges | src/api/write_combine/combine_handler.h:43-74 | over every run a slice only moves forward, and its bytes never change once it has left MERGING |
| WriteCombine.SliceLifeCycle | src/api/write_combine/combine_handler.h:43-74 | in every reachable state a slice has been queued and written exactly as often as its phase says, its version has changed exactly if it is released, its buffer is its merged writes and fits, and a task with nothing pending has all its slices written |
| WriteCombine.BlockListOrder | src/api/write_combine/obid_htable.c:262-291 | in every reachable state a block's list is sorted by offset and holds exactly the live slices |
| CombineApi.AdvanceSound | src/api/write_combine/combine_handler.c:28-100 | background work is bounded, keeps the slices' bytes, unhooks a slice from its thread before it is released, and leaves server plus pending slices equal to the plain store |
| CombineApi.AppendSound | src/api/write_combine/obid_htable.c:55-98 | appending to a merging slice is a write to the plain store |
| CombineApi.InsertSound | src/api/write_combine/obid_htable.c:293-372 | starting a slice is a write to the plain store, and pending slices stay disjoint |
| CombineApi.ServerSound | src/api/fs_api.c:483-489 | a direct change of a range without pending slices changes both stores alike |
| CombineApi.ReadSound | src/api/fs_api.c:498-510 | on a range without pending slices the server reads as the plain store |
| WriteCombiner.Combiner.PushWithinLock | src/api/write_combine/combine_handler.h:62-74 | the slice leaves MERGING and enters the queue once |
| WriteCombiner.Combiner.SwapStage | src/api/write_combine/obid_htable.h:55-72 | the timer's stage swap compares with MERGING and fails in any other stage |
| WriteCombiner.Combiner.DealSlice | src/api/write_combine/combine_handler.c:88-100 | the head of the queue goes to a worker and the waiting count falls |
| WriteCombiner.Combiner.WriteOut | src/api/write_combine/combine_handler.c:56-86 | the slice's bytes are written to the server |
| WriteCombiner.Combiner.DropEntry | src/api/write_combine/combine_handler.c:35-36 | the thread entry lets go of the slice exactly if it still has it, and no other entry changes |
| WriteCombiner.Combiner.NotifyWaitingTasks | src/api/write_combine/obid_htable.h:74-93 | exactly the waiting tasks lose the slice |
| WriteCombiner.Combiner.NotifyAndRelease | src/api/write_combine/combine_handler.c:38-54 | the slice is cleaned up, unlinked and its version changed |
| WriteCombiner.Combiner.AddToWaitingList | src/api/write_combine/obid_htable.h:95-113 | task and slice know of each other |
| WriteCombiner.Combiner.Work | src/api/write_combine/combine_handler.c:56-100 | a background step keeps the plain store and reduces the work left |
| WriteCombiner.Combiner.WaitWriteDone | src/api/write_combine/obid_htable.h:115-129 | the wait ends, and then every slice of the task is written and released |
| WriteCombiner.Combiner.DealConflict | src/api/write_combine/obid_htable.c:374-398 | a conflicting slice is pushed if merging, and waited for |
| WriteCombiner.Combiner.FindConflicts | src/api/write_combine/obid_htable.c:400-449 | the early-exit scan finds and counts exactly the live slices that overlap the range |
| WriteCombiner.ScansExactInEveryRun | src/api/write_combine/obid_htable.c:414-446 | the same in every interleaving, and a free insertion point keeps the list sorted |
| WriteCombiner.Combiner.CheckConflictAndWait | src/api/write_combine/obid_htable.c:468-489 | afterwards no pending slice overlaps the range |
| WriteCombiner.Combiner.FindPosition | src/api/write_combine/obid_htable.c:262-291 | fails if and only if a pending slice overlaps, otherwise gives the sorted position |
| WriteCombiner.Combiner.CreateSlice | src/api/write_combine/obid_htable.c:178-209 | starts a slice exactly when buffer and block leave room; it is the thread's slice, or queued at once if the thread has got another one meanwhile |
| WriteCombiner.Combiner.LinkSlice | src/api/write_combine/obid_htable.c:293-372 | the new slice is linked at its position |
| WriteCombiner.Combiner.DoCombine | src/api/write_combine/obid_htable.c:55-98 | small writes are appended, and the slice is pushed when it is nearly full or the write is large |
| WriteCombiner.Combiner.TryCombine | src/api/write_combine/obid_htable.c:100-167 | which of merging, a new slice, waiting and a direct write is chosen for the number of waiting slices seen at the test, and its effect on the plain store |
| WriteCombiner.Combiner.WorkBeside | src/api/write_combine/combine_handler.c:28-100 | what the handler can do while the block is locked: everything but the release of a slice |
| WriteCombiner.Combiner.CheckCombine | src/api/write_combine/obid_htable.c:211-260 | the write acts at most once; it is appended to the thread's slice whenever it follows and fits, and refused only for its length, for lack of room, for another file, or behind a slice of few writes |
| WriteCombiner.Combiner.LookupSlice | src/api/write_combine/obid_htable.c:211-260 | the versioned lookup ends with a slice of the thread whose version has not changed, or with none |
| WriteCombiner.Combiner.LockSlice | src/api/write_combine/obid_htable.c:225-250 | the version differs only if the slice has been released in between |
| WriteCombiner.Combiner.TouchEntry | src/api/write_combine/otid_htable.c:25-60 | successive writes are counted, the entry keeps its slice, and nothing else changes |
| WriteCombiner.Combiner.CheckCombineSlice | src/api/write_combine/obid_htable.c:491-508 | one to four attempts with the same effect, each behind a finished wait, and fewer than four only if the write is combined or refused |
| WriteCombiner.Combiner.OtidInsert | src/api/write_combine/otid_htable.c:25-107 | only successive writes are combined, and they are unless they are refused for a reason or four waits were in vain; any other leaves everything but the counters as it was |
| WriteCombiner.Combiner.SliceWrite | src/api/fs_api.c:451-496 | a write, combined or not, is exactly a write to the plain store; the reported bytes and space; combining is tried exactly without a conflict |
| WriteCombiner.Combiner.DirectWrite | src/api/fs_api.c:483-489 | a write that is not combined gains exactly the space that was not stored |
| WriteCombiner.Combiner.SliceRead | src/api/fs_api.c:498-510 | a read returns what the plain store holds |
| WriteCombiner.Combiner.SliceDelete | src/api/fs_api.c:520-534 | a delete removes the range from the plain store, reports the space freed, and fails exactly when there is none |
| WriteCombiner.Combiner.SliceAllocate | src/api/fs_api.c:512-518 | an allocation fills the holes of the plain store and reports exactly their size |
| WriteCombiner.Combiner.Serve | src/api/fs_api.c:451-534 | every run of API calls, with any background work, has the answers and contents of the plain store |
| PrereadList.RemoveConflictSlices | src/api/read_ahead/obid_htable.c:169-213 | the removed chain is right; the kept chain is right if and only if no two adjacent entries were removed, and still holds a removed entry if and only if two were |
| PrereadList.LeftoverExactly | src/api/read_ahead/obid_htable.c:184-204 | for any links the loop leaves: a removed entry is still met from the head if and only if two adjacent ones were removed |
| ReadAhead.InvalidateKeeps | src/api/read_ahead/obid_htable.c:381-427 | after a write every valid buffer still holds the file's bytes behind its reader's position |
| ReadAhead.UnbufferKeeps | src/api/read_ahead/otid_htable.c:45-54 | giving up a buffer removes its range from the index |
| ReadAhead.ForgetKeeps | src/api/read_ahead/otid_htable.c:174-184 | a reader without a buffer can be dropped at any time |
| ReadAhead.RegisterKeeps | src/api/read_ahead/obid_htable.c:253-339 | a filled buffer and its range satisfy the invariant |
| ReadAhead.TakeKeeps | src/api/read_ahead/otid_htable.c:64-74 | a hit never crosses a block, hands out the file's bytes, and moves buffer and position together |
| ReadAheadClient.Detach | src/api/read_ahead/obid_htable.c:184-211 | exactly the overlapping entries are handed out; the list left is the right one if and only if no two hits are adjacent, and otherwise holds an overlapping entry |
| ReadAheadClient.TwoReadersClash | src/api/read_ahead/obid_htable.c:184-204 | a run of the client: two threads read ahead in one block, a write hits both ranges, and the index still lists an overwritten range |
| ReadAheadClient.LongRead | src/api/read_ahead/otid_htable.c:241-250 | what the requested part of a longer read is |
| ReadAheadClient.HitIs | src/api/read_ahead/otid_htable.c:64-74 | a hit is the zero-filled range, and something is stored at or behind its end |
| ReadAheadClient.AnswerDiffers | src/api/read_ahead/otid_htable.c:200-250 | the answer differs from the plain read if and only if the last byte is missing and the read is a hit or the longer read gets beyond the request |
| ReadAheadClient.LongerThanPlain | src/api/read_ahead/otid_htable.c:200-283 | a run of the client whose answer is a zero where the plain read has no data |
| ReadAheadClient.UsesUpBuffer | src/api/read_ahead/otid_htable.c:64-74 | a run whose last read takes exactly the rest of the buffer: a hit, after which buffer and range are gone |
| ReadAheadClient.ReadClient.AheadBytes | src/api/read_ahead/otid_htable.c:76-104 | the doubling rules, within block and buffer limits |
| ReadAheadClient.WantedIs | src/api/read_ahead/otid_htable.c:76-104 | the size in closed form: the least 512 times a power of two that holds the request, doubled per successive read up to the limit, or twice the old buffer |
| ReadAheadClient.ReadClient.ReleaseBuffer | src/api/read_ahead/otid_htable.c:45-54 | the reader loses its buffer and the index no longer lists it |
| ReadAheadClient.ReadClient.TryHit | src/api/read_ahead/otid_htable.c:64-74 | a hit exactly for a buffer that is neither dirty nor in conflict nor expired and holds the whole request, with the file's bytes; a buffer that is used up is given up |
| ReadAheadClient.ReadClient.Lookup | src/api/read_ahead/otid_htable.c:108-172 | exactly when it is a hit, the size of the longer read, and a fresh buffer tied to the request |
| ReadAheadClient.ReadClient.Store | src/api/read_ahead/otid_htable.c:251-268 | the bytes beyond the request are kept and registered |
| ReadAheadClient.ReadClient.SliceRead | src/api/read_ahead/otid_htable.c:200-283 | the exact answer, which is the plain read, or the zero-filled range while something is stored behind the request; and the range that the read registers |
| ReadAheadClient.ReadClient.ReadLonger | src/api/read_ahead/otid_htable.c:241-268 | the longer read, what is kept of it, and the list of the block afterwards |
| ReadAheadClient.ReadClient.Reclaim | src/api/read_ahead/otid_htable.c:174-184 | a reader that the hash table drops takes its buffer and its range along |
| ReadAheadClient.ReadClient.InvalidateConflicts | src/api/read_ahead/obid_htable.c:381-427 | exactly the buffers of the overlapping ranges are marked; exactly these ranges are removed if and only if no two are adjacent |
| ReadAheadClient.ReadClient.SliceWrite | src/api/fs_api.c:451-496 | a write changes the plain store, and the cache stays valid if and only if no two hits are adjacent |
| ReadAheadClient.OwnedNoAdjacent | src/api/read_ahead/obid_htable.c:184-204 | one reader per block rules out adjacent hits |
| ReadAheadClient.ReadClient.Serve | src/api/fs_api.c:451-510 | with one reading thread per block every answer of every run through both caches, with reclaims at any time, is the plain read, or the zero-filled range while something is stored behind it, and the contents are the plain store's |
| TopologyPush.StepKeepsInv | src/server/cluster_topology.c:115-297 | every atomic step of notifiers, join, consumer and self-reports keeps the invariant |
| TopologyPush.NoLostUpdate | src/server/cluster_topology.c:115-297 | over every run each field has reached a synced peer, or the event is raised, or a notifier is to run, or the consumer will send the current value |
| TopologyPush.EventQueuedOnce | src/server/cluster_topology.c:155-174 | over every run an event is in exactly one place when its flag is set and nowhere otherwise |
| TopologyPush.QuietMeansConverged | src/server/cluster_topology.c:214-297 | a drained, quiet connection means the peer was sent the leader's state |
| TopologyPush.NotifyContext.ChangeAndNotify | src/server/cluster_topology.c:115-187 | a change raises and queues its event exactly if the peer is active, has a task and the event is not raised yet, as protocol steps |
| TopologyPush.NotifyContext.SelfReport | src/server/cluster_topology.c:126-130 | what a peer reports on itself is taken, and not sent back to it |
| TopologyPush.NotifyContext.Activate | src/server/cluster_topology.c:368-388 | the peer is online, as a protocol step |
| TopologyPush.NotifyContext.Deactivate | src/server/cluster_topology.c:390-409 | the peer is offline and its session over, as a protocol step |
| TopologyPush.NotifyContext.SyncAllDataServers | src/server/cluster_topology.c:189-212 | every event is raised, as protocol steps |
| TopologyPush.NotifyContext.JoinLeader | src/server/cluster_handler.c:221-246 | joins exactly when no other task has, sets the peer offline and raises every event |
| TopologyPush.NotifyContext.Pack | src/server/cluster_topology.c:251-280 | flags are released before the state is read, up to the packet's limit |
| TopologyPush.NotifyContext.ProcessNotifyEvents | src/server/cluster_topology.c:214-297 | the first events are sent with the current state, the rest stays at the head of the queue |
| FollowerTopology.DataGroup.OnMasterChange | src/server/cluster_relationship.c:1009-1057 | the follower's own status on becoming and ceasing to be master |
| FollowerTopology.DataGroup.TakeStatus | src/server/cluster_relationship.c:1068-1082 | others' status and version are taken over, the own one only from ACTIVE to OFFLINE |
| FollowerTopology.DataGroup.MoveMaster | src/server/cluster_relationship.c:1084-1113 | flags and pointer move together |
| FollowerTopology.DataGroup.ProcessPushEntry | src/server/cluster_relationship.c:1059-1116 | is_master holds exactly for the master pointer, which behaves as a register |
| FollowerTopology.DataGroup.ProcessLeaderPush | src/server/cluster_relationship.c:1149-1157 | the same for any sequence of entries; unknown servers are ignored |
| FollowerTopology.MoveInEitherOrder | src/server/cluster_relationship.c:1084-1113 | a master move in two entries gives the same state in either order |
| FollowerTopology.OwnStatusChanges | src/server/cluster_relationship.c:1068-1078 | the own status stays or falls to OFFLINE if and only if the entry does not newly make the follower master; exactly when it falls |
| FollowerTopology.RaisedByPush | src/server/cluster_relationship.c:1033-1036 | an entry that raises an offline follower to ACTIVE |
| FollowerTopology.AlwaysFallsExactly | src/server/cluster_relationship.c:1149-1157 | over any sequence of entries the status only falls if and only if no entry raises it where it is applied |
| FollowerTopology.UnnamedOnlyFalls | src/server/cluster_relationship.c:1149-1157 | entries that do not name the follower master never raise its status |
| FollowerTopology.LastMasterDecides | src/server/cluster_relationship.c:1092-1110 | after any sequence the last named master is master, unless unset later |
| FollowerTopology.UnsetDecides | src/server/cluster_relationship.c:1101-1107 | an entry that takes the mastership from the master leaves none, until another is named |
| FollowerTopology.LastEntryDecides | src/server/cluster_relationship.c:1080-1081 | after any sequence every other server has the status and version of its last entry, and the own version stays |
| SliceLoader.SplitRound | src/server/binlog/slice_loader.c:334-398 | the in-place split leaves, per data thread, exactly its records in log order |
| SliceLoader.SplitOne | src/server/binlog/slice_loader.c:351-360 | the chain of one parse thread is moved record by record |
| SliceLoader.AddRecord | src/server/binlog/slice_loader.c:239-246 | a record joins one chain and relinks at most that chain's old tail |
| SliceLoader.CloseChains | src/server/binlog/slice_loader.c:383-395 | every chain ends at its tail |
| SliceLoader.ChainIsForThread | src/server/binlog/slice_loader.c:351-358 | the split is the hash partition of the round |
| SliceLoader.ForThreadKeepsBlock | src/common/fs_func.h:28-32 | all records of a block go to the block's thread, in order |
| SliceLoader.StepKeepsInv | src/server/binlog/slice_loader.c:448-495 | every step, one queue push or one record, keeps that the work left leads to the sequential result so far |
| SliceLoader.FailsRightly | src/server/binlog/slice_loader.c:455-458 | a record that cannot be applied in parallel makes sequential replay fail |
| SliceLoader.ParallelEqualsSequential | src/server/binlog/slice_loader.c:795-854 | for any log, threads, rounds and interleaving: when all done counts have reached the totals, sequential replay succeeds and every block is as after it; a stopped load means that it fails |
| SliceLoader.LoadCompletesExactly | src/server/binlog/slice_loader.c:448-495 | a load that can go no further is complete if and only if sequential replay meets no delete that finds nothing |
| SliceLoader.LastRecordDecides | src/server/binlog/slice_loader.c:424-446 | after sequential replay the last record that touches an offset decides what is stored there |
| SliceLoader.LoadedByLastRecord | src/server/binlog/slice_loader.c:448-495 | and so it does after every complete parallel load |
| SliceLoader.DeletedBlockIsEmpty | src/server/binlog/slice_loader.c:436-445 | a log that ends with the delete of a block leaves nothing of it |
| SliceLoader.NextBlockNextThread | src/common/fs_func.h:28-32 | successive blocks of a file go to successive threads |
| SliceLoader.DealOnBlock | src/server/binlog/slice_loader.c:424-446 | the slice list takes a record's effect, offset by offset, and fails exactly on a delete that finds nothing; a deleted block is empty |
| ObjectBlockIndex.ObjectBlock.AddSlice | src/server/storage/object_block_index.c:528-645 | exactly the slice's offsets change, the list stays ordered and disjoint, and the reported space is what was free |
| ObjectBlockIndex.ObjectBlock.DeleteSlices | src/server/storage/object_block_index.c:688-813 | exactly the target's offsets vanish, and the reported space is what was stored |
| ObjectBlockIndex.ObjectBlock.GetSlices | src/server/storage/object_block_index.c:982-1073 | the pieces are exactly what is stored in the target |
| ObjectBlockIndex.ReplacedView | src/server/storage/object_block_index.c:444-469 | cutting slices keeps every other offset's trunk position |
| SliceIO.ReadPieces | src/server/storage/slice_op.c:843-877 | stored bytes with zeros between the pieces, up to the last piece |
| SliceIO.SliceRead | src/server/storage/slice_op.c:818-879 | a read through the index is the read of the plain block |
| SliceIO.Holes | src/server/storage/slice_op.c:442-509 | the holes are exactly the offsets that are not stored |
| SliceIO.AllocSlices | src/server/storage/slice_op.c:202-264 | the slices cover the range one after the other, each within its space |
| SliceIO.AddPieces | src/server/storage/slice_op.c:135-148 | every offset of the range gets its slice's place, nothing else changes, and the reported space is what was missing |
| SliceIO.SliceAllocate | src/server/storage/slice_op.c:511-614 | stored offsets stay, every hole gets allocated space, in one or several slices, and the reported space is what was missing |
| BlockUpdate.WriteTrunk | src/server/storage/slice_op.c:415-436 | each slice's space holds its part of the bytes, and no other trunk position changes |
| BlockUpdate.Write | src/server/storage/slice_op.c:387-440 | through the index the block holds the written bytes over what it held, all other blocks hold what they held, and the reported space is what was not stored |
| BlockUpdate.HeldIsPresent | src/server/storage/object_block_index.c:528-645 | the space the index counts is what the block holds |
| BlockUpdate.Delete | src/server/storage/slice_op.c:883-913 | a delete through the index is the delete of the plain block |
| BlockUpdate.Allocate | src/server/storage/slice_op.c:511-614 | an allocation through the index is the allocation of the plain block |
| BinlogCheck.Check | src/server/binlog/binlog_check.c:371-422 | each flag is set if and only if a version is missing on the other side, with duplicates and the early return |
| BinlogCheck.LoadVersions | src/server/binlog/binlog_check.c:183-245 | the versions of exactly the records that are no no-ops and have a version |
| BinlogCheck.VersionsIn | src/server/binlog/binlog_types.h:51-52 | which records have a version that counts |
| BinlogCheck.FilteredVersions | src/server/binlog/binlog_repair.c:308-363 | a repair leaves exactly the common versions |
| BinlogCheck.FilteredKeeps | src/server/binlog/binlog_repair.c:344-360 | a repair keeps exactly the no-op records, the records without a version, and those with a version of the array |
| BinlogConsistency.LoadWindow | src/server/binlog/binlog_check.c:183-295 | the versions of the window in log order; it fails if and only if a line does not end, fit or parse |
| BinlogConsistency.LoadReplicas | src/server/binlog/binlog_check.c:324-354 | the versions of the windows of all data groups in one array |
| BinlogConsistency.KeptRecords | src/server/binlog/binlog_repair.c:308-363 | filtering the lines is filtering the records |
| BinlogConsistency.RepairWindow | src/server/binlog/binlog_repair.c:554-577 | the files' window keeps exactly its internal records and those with a version of the array, the log before it stays, and the result can be read again; at the end of the log nothing changes; it fails if and only if the log does not load |
| BinlogConsistency.RepairReplicas | src/server/binlog/binlog_repair.c:590-624 | the same for the logs of all data groups |
| BinlogConsistency.Agree | src/server/binlog/binlog_check.c:371-422 | logs that are filtered by each other end with the versions that both sides had, for every version and every log |
| BinlogConsistency.AgreedLines | src/server/binlog/binlog_repair.c:344-360 | line by line what is left in every log: no-ops, lines without a version, and lines whose version the other side held |
| BinlogConsistency.InternalUntouched | src/server/binlog/binlog_types.h:51-52 | logs of no-ops and lines without a version alone are never touched |
| BinlogConsistency.ResumedCheck | src/server/server_binlog.c:41-60 | a check that was cut off between or within its repairs, with every log old or repaired, is completed by the next one to the same versions |
| BinlogConsistency.CheckAndRepairFiles | src/server/server_binlog.c:53-60 | for any number of data groups and any logs: the check fails, changing nothing, if and only if some log does not load; otherwise each log keeps exactly its share of what both sides had, a second check is clean, and a clean side is untouched |
| BinlogRewrite.RepairWriter.CopyFrontPart | src/server/binlog/binlog_repair.c:171-244 | the front part is copied chunk by chunk |
| BinlogRewrite.RepairWriter.DoWriteToFile | src/server/binlog/binlog_repair.c:246-265 | the buffer goes to the open file, which holds whole lines and stays within the limit |
| BinlogRewrite.RepairWriter.WriteToFile | src/server/binlog/binlog_repair.c:267-283 | a new file is started only when the buffer does not fit |
| BinlogRewrite.RepairWriter.WriteOneLine | src/server/binlog/binlog_repair.c:285-306 | one line is added, and the buffer never overflows |
| BinlogRewrite.RepairWriter.Filter | src/server/binlog/binlog_repair.c:381-413 | the files are the front part and the kept lines in order, no line split, each file full and within the limit but for the front part; a bad line fails the filter |
| BinlogRewrite.FileSizes | src/server/binlog/binlog_repair.c:246-283 | every file but the first is within the limit, and the first exceeds it by the front part at most |
| BinlogRewrite.OutputUnique | src/server/binlog/binlog_repair.c:246-306 | the files are determined by front part, lines and limit: a new file is started only with a line that does not fit |
| BinlogRewrite.LimitHoldsExactly | src/server/binlog/binlog_repair.c:171-283 | all files are within the limit for all lines if and only if no front part was copied |
| BinlogRewrite.OverfullFile | src/server/binlog/binlog_repair.c:171-283 | a run of the writer whose first file exceeds the limit |
| BinlogRepair.Disk.WriteFiles | src/server/binlog/binlog_repair.c:415-446 | the log is untouched while the repaired files are written |
| BinlogRepair.Disk.Finish | src/server/binlog/binlog_repair.c:448-530 | from any recorded state the repaired files and index result, or a crash leaves a recorded state |
| BinlogRepair.Disk.DoRepair | src/server/binlog/binlog_repair.c:532-552 | a crash after any disk operation leaves the log old, recorded or repaired |
| BinlogRepair.Disk.RepairFinish | src/server/binlog/binlog_repair.c:647-670 | start-up completes a recorded repair and otherwise changes nothing |
| BinlogRepair.Disk.RepairWithCrashes | src/server/binlog/binlog_repair.c:647-670 | after any crashes of repair and start-up the log is exactly the repaired one if the repair reached its record, and exactly the old one otherwise |
| BinlogRepair.Rewrite | src/server/binlog/binlog_repair.c:381-446 | the new files hold the front part and the kept lines of what the loop sees; it fails if and only if a line does not end, fit or is bad |
| BinlogRepair.SeenEnough | src/server/binlog/binlog_repair.c:393-406 | a repair that missed a part of the log is right if and only if no line of that part is to be kept |
| BinlogRepair.RepairLog | src/server/binlog/binlog_repair.c:532-577 | after any crashes, if the repair reached its record, the log is everything before the position and the kept lines of what was read, which is the whole rest if and only if no empty file lies before a non-empty one; otherwise nothing has changed |
| BinlogRepair.RepairNow | src/server/binlog/binlog_repair.c:554-577 | without a crash the files are those of the repair, or unchanged at the end of the log or if the filter fails |
| BinlogRepair.GapLosesLine | src/server/binlog/binlog_repair.c:393-406 | a repair that is to keep every line loses the line behind an empty file |
| BinlogPowerLoss.LoseAndRestart | src/server/binlog/binlog_repair.c:647-670 | after a loss of power start-up completes the repair with what is left of its files |
| BinlogPowerLoss.SurvivesExactly | src/server/binlog/binlog_repair.c:415-446 | every loss of power leaves the repaired log if and only if all repaired files but the last are empty |
| BinlogPowerLoss.OneFileSurvives | src/server/binlog/binlog_repair.c:246-283 | what the rewriter makes survives if and only if it is a single file |
| BinlogPowerLoss.LosesFirstFile | src/server/binlog/binlog_repair.c:532-552 | for every repair with more files a run that ends with another log |
| BinlogReader.Reader.ReadToBuffer | src/server/binlog/binlog_reader.c:171-194 | reads on in the next file once, and loses nothing |
| BinlogReader.Reader.IntegralRead | src/server/binlog/binlog_reader.c:196-238 | the longest run of whole lines within reach, or exactly why there is none |
| BinlogReader.Reader.ReadAll | src/server/binlog/binlog_repair.c:393-406 | the loop gets the log up to the first empty file, in whole lines; it succeeds if and only if every line on the way ends and fits, and then has the whole rest if and only if no empty file lies before a non-empty one |
| BinlogReader.SeenIsRest | src/server/binlog/binlog_reader.c:171-194 | the log up to the first empty file is all of it if and only if no empty file lies before a non-empty one |
| BinlogReader.GapHidesLine | src/server/binlog/binlog_repair.c:393-406 | a run of the loop that succeeds and misses a line |
| BinlogReader.SplitAppend | src/server/binlog/binlog_repair.c:328-343 | cutting chunks into lines one by one cuts the whole text |
| BinlogReader.Reader.FetchOutput | src/server/replica_handler.c:232-259 | the last mark is set only when no complete record remains |
| BinlogReader.Reader.FetchAll | src/server/replica_handler.c:232-259 | the chunks up to the last mark are all complete records, whatever files are empty |
| ReplicaSearch.ScanBuffer | src/server/binlog/replica_binlog.c:472-518 | the first greater record of the buffer, the line that does not unpack, or the incomplete line that is left |
| ReplicaSearch.SearchFile | src/server/binlog/replica_binlog.c:520-533 | the first greater record of the file or the line that does not unpack, also when it straddles reads |
| ReplicaSearch.FindPosition | src/server/binlog/replica_binlog.c:535-593 | the position in or behind the chosen file |
| ReplicaSearch.GetPosition | src/server/binlog/replica_binlog.c:595-632 | the position splits the whole log at the version, over any files; overflow exactly behind the last record of the last file; an error only for a line that does not unpack |
| BinlogRecords.StrtolDec | src/server/binlog/binlog_loader.h:55-63 | a printed number is read back and stops at the separator |
| BinlogRecords.ColumnsJoin | src/server/binlog/replica_binlog.c:386-387 | splitting a printed line gives its fields |
| BinlogRecords.ReplicaRoundTrip | src/server/binlog/replica_binlog.c:338-470 | a printed replica record is read back as it was if and only if its numbers are in range |
| BinlogRecords.SliceRoundTrip | src/server/binlog/slice_loader.c:134-332 | the same for the three slice records and the path check |
| MasterElection.LastIsMaximal | src/server/master_election.c:120-147 | the last server of the sorted order has the highest version; among these it is active if any is, then preset if any is, then the present master |
| MasterElection.OrderExists | src/server/master_election.c:279-285 | every group has such an order, because the comparison is total and transitive |
| MasterElection.WaitingExactly | src/server/master_election.c:217-262 | whom the election waits for and how long, in seconds |
| MasterElection.WaitingEnds | src/server/master_election.c:217-262 | no election waits longer than 35 seconds |
| MasterElection.Election.SelectPreseted | src/server/master_election.c:149-163 | without failover the first preset server, if active |
| MasterElection.Election.Count | src/server/master_election.c:217-262 | who must be waited for, and the timeout the loop leaves behind |
| MasterElection.Election.ScanDown | src/server/master_election.c:306-312 | the first active server at or before the last one in configured order |
| MasterElection.Election.Candidates | src/server/master_election.c:333-340 | the active servers with at least the version |
| MasterElection.Election.SelectFrom | src/server/master_election.c:279-366 | for both policies exactly when a master is chosen, tried again or missing; under the strict policy which one, preferring preset servers and then the present master |
| MasterElection.Election.SelectMaster | src/server/master_election.c:192-366 | a strict master is active with the highest version, no preset or present master is passed over for an equal one, and nobody is inside a waiting window; a leader that starts an election never waits for itself |
| MasterElection.RefreshedSame | src/server/master_election.c:196-200 | refreshing the leader's ping time changes neither the order nor what it is made from |
| TrunkFdCache.TouchedIs | src/server/dio/trunk_fd_cache.c:93-98 | a lookup makes the entry the most recent and keeps the order of the others |
| TrunkFdCache.AddedIs | src/server/dio/trunk_fd_cache.c:107-111 | adding at capacity evicts exactly the least recent entry |
| TrunkFdCache.TouchedByUse | src/server/dio/trunk_fd_cache.c:93-98 | moving the looked-up entry to the end keeps the list ordered by last use |
| TrunkFdCache.Cache.Get | src/server/dio/trunk_fd_cache.c:70-99 | the descriptor that was added, or -1; hash chains and list hold the same entries, in the order of their last use |
| TrunkFdCache.Cache.Add | src/server/dio/trunk_fd_cache.c:101-129 | the LRU map after the addition; at capacity exactly the entry that was unused longest is closed |
| TrunkFdCache.Cache.Delete | src/server/dio/trunk_fd_cache.c:131-170 | the entry leaves chain and list and its descriptor is closed |

## Left out

- Sockets, packets, logging, configuration, start-up and the command-line tools.
- Replication between master and slaves, and the recovery threads.
- The inside of the storage allocator, trunk reclaim and the trunk I/O threads.
- Expiry of hash table entries and all timer arithmetic: a timer may fire, and a cached buffer may expire, at any time.
- Read buffer pool accounting, and the status and statistics handlers.
- Concurrent API calls on the level of contents: WriteCombine covers all interleavings of the tables, but that the caches agree with a plain store is proved for calls that run one at a time.
- Write combining switched off while read-ahead is on: the block id is then not set before the invalidation.
- Files behind the new end index stay on disk after a repair; the log is the files up to the write index.
- The master election's delay queue, and a maximum claim for its timeout policy, where the scan does not compute one.
- LeaderElection.Server.SetLeader: states the pointer and the hints only; a new leader also deactivates its peers, changes its version and queues masters to unset, which no election step reads.
- LeaderElection.SendPhase: describes the loop of a candidate that nobody disturbs; interleaved rounds are the runs of StepKeepsPairInv and MutualExclusion.
- LeaderElection.NotifyLeaderChanged: the same, for a whole round.
- WriteCombiner.Combiner.WriteOut: has no write-done callback and no failing write, since a failed write ends the process.
- ReadAheadClient.ReadClient.Serve: has no delete and allocate requests, because those do not invalidate read-ahead buffers.
- TopologyPush.NoLostUpdate: is about one peer; peers do not share events, and a peer's own report is not sent back to it.
- TopologyPush.NotifyContext.JoinLeader: leaves out the deactivation of all peers when a server becomes leader again while a connection of its former leadership is still open.
- FollowerTopology.DataGroup.OnMasterChange: leaves out the report to the leader and the push of recovery tasks.
- How the start-up check finds its positions by timestamp; they are parameters of BinlogConsistency, and so is the parser.
- TrunkFdCache.Cache.Add: requires an absent id, as its callers ensure; the program does not test for a present one.
