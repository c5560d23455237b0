/**
 The write-combine layer as the program runs it: tables changed in place, one locked section at a
 time, with background work between the sections of an API call.
 */
module WriteCombiner {
  import opened Common
  import opened BlockStore
  import opened WriteCombine
  import opened CombineApi

  const MIN_REMAIN: int := 4096

  class Combiner {
    const config: Config
    var slices: seq<Slice>
    var lists: map<Block, seq<nat>>
    var queue: seq<nat>
    var waiting: int
    var tasks: seq<Task>
    var entries: map<Key, Entry>
    var server: Store
    /** The plain store after the same writes. */
    ghost var plain: Store

    ghost function Snap(): State
      reads this
    {
      State(slices, lists, queue, waiting, tasks, entries, server)
    }

    ghost predicate Valid()
      reads this
    {
      Sound(config, Snap(), plain)
    }

    constructor (config: Config)
      ensures this.config == config && Valid() && Snap() == EMPTY && plain == map[]
    {
      this.config := config;
      slices, lists, queue, waiting, tasks, entries, server := [], map[], [], 0, [], map[], map[];
      plain := map[];
    }

    /* -------------------------------------------------------------- tables */

    method PushWithinLock(id: nat)
      requires id < |slices|
      modifies this
      ensures Snap() == Push(old(Snap()), id) && plain == old(plain)
    {
      slices := slices[id := slices[id].(phase := Queued, pushes := slices[id].pushes + 1)];
      waiting := waiting + 1;
      queue := queue + [id];
    }

    /** fs_api_swap_slice_stage from MERGING to PROCESSING; it fails for any other stage. */
    method SwapStage(id: nat) returns (ok: bool)
      requires id < |slices|
      modifies this
      ensures ok <==> old(slices)[id].phase == Merging
      ensures Snap() == (if ok then At(old(Snap()), id, Swapped) else old(Snap())) && plain == old(plain)
    {
      ok := slices[id].phase == Merging;
      if ok {
        slices := slices[id := slices[id].(phase := Swapped)];
      }
    }

    /** deal_slices: the head of the queue goes to a worker thread. */
    method DealSlice()
      requires queue != [] && queue[0] < |slices|
      modifies this
      ensures Snap() == Dequeue(old(Snap())) && plain == old(plain)
    {
      var id := queue[0];
      queue := queue[1..];
      waiting := waiting - 1;
      slices := slices[id := slices[id].(phase := Running)];
    }

    method ServerWrite(b: Block, offset: int, data: seq<Byte>)
      modifies this
      ensures Snap() == ServerPut(old(Snap()), b, offset, data) && plain == old(plain)
    {
      server := server[b := (if b in server then server[b] else map[]) + Span(offset, data)];
    }

    method WriteOut(id: nat)
      requires id < |slices|
      modifies this
      ensures Snap() == Flush(old(Snap()), id) && plain == old(plain)
    {
      var slice := slices[id];
      slices := slices[id := slice.(phase := Written, flushes := slice.flushes + 1)];
      ServerWrite(slice.block, slice.offset, slice.data);
    }

    method DropEntry(id: nat)
      requires id < |slices|
      modifies this
      ensures Snap() == Unhook(old(Snap()), id) && plain == old(plain)
      ensures slices == old(slices)[id := old(slices)[id].(phase := Unhooked)] && entries.Keys == old(entries).Keys
      ensures forall key | key in entries ::
                if key == slices[id].key && old(entries)[key].slice == Some(id)
                then entries[key] == old(entries)[key].(slice := None) else entries[key] == old(entries)[key]
    {
      var key := slices[id].key;
      slices := slices[id := slices[id].(phase := Unhooked)];
      if key in entries && entries[key].slice == Some(id) {
        entries := entries[key := entries[key].(slice := None)];
      }
    }

    /** Takes the slice off the list of every task that waits for it. */
    method NotifyWaitingTasks(id: nat)
      requires id < |slices|
      modifies this`tasks
      ensures tasks == Notified(old(Snap()), id)
    {
      var waitings := slices[id].waiters;
      while waitings != {}
        invariant |tasks| == |old(tasks)| && waitings <= slices[id].waiters
        invariant forall t | 0 <= t < |tasks| ::
                    tasks[t] == if t in slices[id].waiters && t !in waitings
                                then Task(old(tasks)[t].all, old(tasks)[t].pending - {id}) else old(tasks)[t]
        decreases waitings
      {
        var t :| t in waitings;
        if t < |tasks| {
          tasks := tasks[t := Task(tasks[t].all, tasks[t].pending - {id})];
        }
        waitings := waitings - {t};
      }
    }

    method NotifyAndRelease(id: nat)
      requires id < |slices|
      modifies this
      ensures Snap() == Release(old(Snap()), id) && plain == old(plain)
    {
      var slice := slices[id];
      NotifyWaitingTasks(id);
      slices := slices[id := slice.(phase := Cleanup, waiters := {}, version := slice.version + 1)];
      lists := lists[slice.block := Without(if slice.block in lists then lists[slice.block] else [], id)];
    }

    method AddToWaitingList(id: nat, t: nat)
      requires id < |slices| && t < |tasks|
      modifies this
      ensures Snap() == AddWaiter(old(Snap()), id, t) && plain == old(plain)
    {
      tasks := tasks[t := Task(tasks[t].all + {id}, tasks[t].pending + {id})];
      slices := slices[id := slices[id].(waiters := slices[id].waiters + {t})];
    }

    /* -------------------------------------------------------------- background */

    /** The next step of the timer or the combine handler for one slice. */
    method Work(id: nat)
      requires Valid() && id < |slices|
      modifies this
      ensures Valid() && plain == old(plain)
      ensures Quiet(old(Snap()), Snap()) && TasksShrink(old(Snap()), Snap())
      ensures old(slices)[id].Live() ==> Total(Snap()) < Total(old(Snap()))
      ensures Snap() == Advance(old(Snap()), id)
    {
      ghost var s := Snap();
      if !slices[id].Live() { return; }
      AdvanceSound(config, s, id, plain);
      match slices[id].phase {
        case Merging => var swapped := SwapStage(id);
        case Swapped => PushWithinLock(id);
        case Queued => DealSlice();
        case Running => WriteOut(id);
        case Written => DropEntry(id);
        case Unhooked => NotifyAndRelease(id);
      }
      assert Snap() == Advance(s, id);
    }

    /** Any amount of background work. */
    method Background()
      requires Valid()
      modifies this
      ensures Valid() && plain == old(plain)
      ensures Quiet(old(Snap()), Snap()) && TasksShrink(old(Snap()), Snap())
    {
      var n: nat := *;
      while n > 0
        invariant Valid() && plain == old(plain)
        invariant Quiet(old(Snap()), Snap()) && TasksShrink(old(Snap()), Snap())
      {
        var id: nat := *;
        if id < |slices| {
          ghost var s := Snap();
          Work(id);
          QuietTrans(old(Snap()), s, Snap());
        }
        n := n - 1;
      }
    }

    /* -------------------------------------------------------------- waiting */

    /** Waits until the task has no slice left.  Every slice waited for is in the PROCESSING stage,
        so the background threads always have a step to take and the wait ends. */
    method WaitWriteDone(t: nat)
      requires Valid() && t < |tasks|
      modifies this
      ensures Valid() && plain == old(plain) && Quiet(old(Snap()), Snap())
      ensures forall id | id in old(tasks)[t].all :: id < |slices| && slices[id].phase == Cleanup
      ensures TasksAdded(old(Snap()), Snap(), 0) && tasks[t].pending == {}
    {
      Background();
      while tasks[t].pending != {}
        invariant Valid() && plain == old(plain) && Quiet(old(Snap()), Snap()) && TasksAdded(old(Snap()), Snap(), 0)
        invariant t < |tasks| && tasks[t].all == old(tasks)[t].all
        decreases Total(Snap())
      {
        ghost var s := Snap();
        var id :| id in tasks[t].pending;
        PendingLive(config, s, plain, t, id);
        Work(id);
        ghost var s' := Snap();
        Background();
        QuietTrans(s, s', Snap());
        QuietTrans(old(Snap()), s, Snap());
      }
      TaskDone(config, Snap(), plain, t);
    }

    /** One conflicting slice: push it if it is merging, and wait for it. */
    method DealConflict(id: nat, t: nat, first: bool)
      requires id < |slices| && t < |tasks| + (if first then 1 else 0)
      modifies this
      ensures Snap() == Conflict(old(Snap()), id, t, first) && plain == old(plain)
    {
      if slices[id].phase == Merging {
        PushWithinLock(id);
      }
      if first {
        tasks := tasks + [Task({}, {})];
      }
      AddToWaitingList(id, t);
    }

    /** One slice of the conflict scan. */
    method ScanOne(list: seq<nat>, i: nat, size: SliceSize, found: nat, t: nat, ghost s: State) returns (count: nat)
      requires Valid() && i < |list| && list[i] < |slices| && slices[list[i]].Live() &&
               t < |tasks| + (if found == 0 then 1 else 0)
      requires if Overlaps(size, slices[list[i]].Size())
               then Scanning(s, Conflict(Snap(), list[i], t, found == 0), list, i + 1, size, found + 1, t)
               else Scanning(s, Snap(), list, i + 1, size, found, t)
      modifies this
      ensures Valid() && plain == old(plain) && Scanning(s, Snap(), list, i + 1, size, count, t)
    {
      count := found;
      if Overlaps(size, slices[list[i]].Size()) {
        ConflictSound(config, Snap(), plain, list[i], t, count == 0);
        DealConflict(list[i], t, count == 0);
        count := count + 1;
      }
    }

    /** The conflict scan: it stops at the first slice beyond the range and still finds exactly the
        slices that overlap it. */
    method FindConflicts(b: Block, size: SliceSize) returns (count: nat, t: nat)
      requires Valid() && size.length > 0
      modifies this
      ensures Valid() && plain == old(plain) && Quiet(old(Snap()), Snap())
      ensures count == |Conflicting(old(Snap()), b, size)|
      ensures count > 0 ==> t < |tasks| && tasks[t].all == Conflicting(old(Snap()), b, size)
    {
      ghost var s := Snap();
      var list := if b in lists then lists[b] else [];
      count, t := 0, |tasks|;
      ScanStart(s, list, size);
      var i := 0;
      while i < |list|
        invariant Valid() && plain == old(plain) && i <= |list|
        invariant Scanning(s, Snap(), list, i, size, count, t)
      {
        FoundStep(config, s, plain, b, i, size);
        ScanStep(s, Snap(), list, i, size, count, t);
        if size.End() <= slices[list[i]].offset {
          break;
        }
        count := ScanOne(list, i, size, count, t, s);
        i := i + 1;
      }
      ScanEnd(s, Snap(), list, i, size, count, t);
      FoundAll(config, s, plain, b, i, size);
    }

    /** Waits until no pending slice overlaps the range. */
    method CheckConflictAndWait(b: Block, size: SliceSize) returns (count: nat)
      requires Valid() && size.length > 0
      modifies this
      ensures Valid() && plain == old(plain) && Quiet(old(Snap()), Snap())
      ensures Clear(Snap(), b, size) && (count > 0 ==> !Clear(old(Snap()), b, size))
    {
      var t;
      Background();
      ghost var s := Snap();
      count, t := FindConflicts(b, size);
      ghost var s1 := Snap();
      QuietTrans(old(Snap()), s, s1);
      if count > 0 {
        WaitWriteDone(t);
        QuietTrans(old(Snap()), s1, Snap());
        QuietTrans(s, s1, Snap());
      }
      ConflictsGone(s, Snap(), b, size);
    }

    /* -------------------------------------------------------------- combining */

    /** Where to link a new slice; fails when a slice of the block overlaps it. */
    method FindPosition(op: Op) returns (exist: bool, at: nat)
      requires Valid() && op.data != []
      ensures exist <==> !Clear(Snap(), op.block, op.Size())
      ensures !exist ==> Fits(Snap(), op, at)
    {
      ghost var s := Snap();
      var list := if op.block in lists then lists[op.block] else [];
      at := 0;
      exist := false;
      while at < |list|
        invariant at <= |list| && Passed(s, op, at)
      {
        PositionStep(config, s, plain, op, at);
        if op.Size().End() <= slices[list[at]].offset {
          break;
        }
        if Overlaps(op.Size(), slices[list[at]].Size()) {
          exist := true;
          return;
        }
        at := at + 1;
      }
      PositionFits(config, s, plain, op, at);
    }

    /** Starts a new slice with the write, unless it is too long or too close to the block's end. */
    method CreateSlice(op: Op, oldSlice: Option<nat>) returns (combined: bool)
      requires Valid() && op.data != [] && op.key in entries && Clear(Snap(), op.block, op.Size())
      modifies this
      ensures Valid() && Tracks(old(entries), entries)
      ensures combined <==>
                |op.data| + 4096 < config.bufferSize && op.offset + |op.data| + 4096 <= FILE_BLOCK_SIZE
      ensures TasksAdded(old(Snap()), Snap(), 0)
      ensures combined ==>
                |slices| == |old(slices)| + 1 &&
                slices[|old(slices)|].block == op.block && slices[|old(slices)|].offset == op.offset &&
                slices[|old(slices)|].data == op.data && slices[|old(slices)|].key == op.key &&
                slices[|old(slices)|].merged == 1 &&
                if entries[op.key].slice == Some(|old(slices)|) then slices[|old(slices)|].phase == Merging
                else slices[|old(slices)|].phase == Queued && entries[op.key].slice != oldSlice
      ensures plain == if combined then Put(old(plain), op.block, op.offset, op.data) else old(plain)
      ensures !combined ==> Clear(Snap(), op.block, op.Size())
    {
      if |op.data| + MIN_REMAIN >= config.bufferSize {
        return false;
      }
      if FILE_BLOCK_SIZE - op.Size().End() < MIN_REMAIN {
        return false;
      }
      ghost var s := Snap();
      Background();
      QuietClear(s, Snap(), op.block, op.Size());
      var exist, at := FindPosition(op);
      if exist {
        return false;
      }
      InsertSound(config, Snap(), plain, op, at);
      if entries[op.key].slice.Some? {
        EntryLive(config, Snap(), plain, op.key);
      }
      var id := |slices|;
      LinkSlice(op, at);
      HookSlice(op.key, oldSlice, id);
      combined := true;
    }

    /** The thread's entry takes the new slice by compare-and-swap; if that fails the slice is pushed. */
    method HookSlice(key: Key, oldSlice: Option<nat>, id: nat)
      requires Valid() && key in entries && id < |slices| && slices[id].phase == Merging && slices[id].key == key
      modifies this
      ensures Valid() && plain == old(plain) && tasks == old(tasks) && |slices| == |old(slices)|
      ensures if old(entries)[key].slice == oldSlice
              then entries == old(entries)[key := old(entries)[key].(slice := Some(id))] && slices == old(slices)
              else entries == old(entries) && slices[id].phase == Queued &&
                   slices[id] == old(slices)[id].(phase := Queued, pushes := slices[id].pushes)
    {
      if entries[key].slice == oldSlice {
        EntrySound(config, Snap(), plain, key, entries[key].(slice := Some(id)));
        entries := entries[key := entries[key].(slice := Some(id))];
      } else {
        PushSound(config, Snap(), id, plain);
        PushWithinLock(id);
      }
    }

    method LinkSlice(op: Op, at: nat)
      requires at <= |Snap().List(op.block)|
      modifies this
      ensures Snap() == Insert(old(Snap()), op, at)
      ensures plain == Put(old(plain), op.block, op.offset, op.data)
    {
      var list := if op.block in lists then lists[op.block] else [];
      lists := lists[op.block := list[..at] + [|slices|] + list[at..]];
      slices := slices + [NewSlice(op)];
      plain := Put(plain, op.block, op.offset, op.data);
    }

    /** Appends the write to a merging slice it directly follows. */
    method DoCombine(id: nat, op: Op) returns (combined: bool)
      requires Valid() && op.data != [] && op.key in entries && Clear(Snap(), op.block, op.Size())
      requires id < |slices| && slices[id].phase == Merging && slices[id].block == op.block
      requires slices[id].Size().End() == op.offset && |slices[id].data| + |op.data| <= config.bufferSize
      modifies this
      ensures Valid() && entries == old(entries) && tasks == old(tasks) && (combined <==> |op.data| < config.skipSize)
      ensures plain == if combined then Put(old(plain), op.block, op.offset, op.data) else old(plain)
      ensures |slices| == |old(slices)|
      ensures !combined ==> Clear(Snap(), op.block, op.Size()) && slices[id].phase == Queued
      ensures combined ==>
                slices[id].data == old(slices)[id].data + op.data &&
                slices[id].merged == old(slices)[id].merged + 1 &&
                slices[id].phase == if config.bufferSize - |slices[id].data| < MIN_REMAIN then Queued else Merging
    {
      ghost var s := Snap();
      if |op.data| >= config.skipSize {
        PushSound(config, s, id, plain);
        PushWithinLock(id);
        QuietClear(s, Snap(), op.block, op.Size());
        return false;
      }
      AppendSound(config, s, plain, id, op.data);
      var slice := slices[id];
      slices := slices[id := slice.(data := slice.data + op.data, merged := slice.merged + 1,
                                    writes := slice.writes + [op.data])];
      plain := Put(plain, op.block, op.offset, op.data);
      assert Snap() == Append(s, id, op.data);
      if config.bufferSize - |slices[id].data| < MIN_REMAIN {
        PushSound(config, Snap(), id, plain);
        PushWithinLock(id);
      }
      combined := true;
    }

    /** Waits for a processing slice, for flow control. */
    method WaitOn(id: nat) returns (t: nat)
      requires Valid() && id < |slices| && slices[id].phase.Processing()
      modifies this
      ensures Valid() && plain == old(plain) && Quiet(old(Snap()), Snap()) && t == |old(tasks)|
      ensures TasksAdded(old(Snap()), Snap(), 1) && tasks[t].all == {id}
    {
      ghost var s := Snap();
      t := |tasks|;
      ConflictSound(config, s, plain, id, t, true);
      ConflictQuiet(s, id, t, true);
      DealConflict(id, t, true);
    }

    /** Any amount of work that needs no block lock: all steps but the release of a slice. */
    method WorkBeside()
      requires Valid()
      modifies this
      ensures Valid() && plain == old(plain) && Quiet(old(Snap()), Snap())
      ensures Beside(old(Snap()), Snap()) && TasksAdded(old(Snap()), Snap(), 0)
    {
      var n: nat := *;
      while n > 0
        invariant Valid() && plain == old(plain) && Quiet(old(Snap()), Snap())
        invariant Beside(old(Snap()), Snap()) && TasksAdded(old(Snap()), Snap(), 0)
      {
        var id: nat := *;
        if 0 <= id < |slices| && slices[id].phase != Unhooked {
          ghost var s := Snap();
          BesideStep(config, s, id, plain);
          Work(id);
          QuietTrans(old(Snap()), s, Snap());
        }
        n := n - 1;
      }
    }

    /** Combines the write with the thread's current slice, or says how to go on: with a new slice,
        after waiting for a task, or (neither) with a direct write.  The handler does not take the block
        lock, so that `seen`, the number of waiting slices at the test, can be any. */
    method TryCombine(id: nat, op: Op) returns (combined: bool, isNew: bool, task: Option<nat>, ghost seen: int)
      requires Valid() && op.data != [] && op.key in entries && Clear(Snap(), op.block, op.Size()) && id < |slices|
      modifies this
      ensures Valid() && Tracks(old(entries), entries) && TasksAdded(old(Snap()), Snap(), if task.Some? then 1 else 0)
      ensures task.Some? ==> task.value == |old(tasks)| && tasks[task.value].all == {id}
      ensures var slice := old(slices)[id];
              var follows := op.block.offset == slice.block.offset && op.offset == slice.offset + |slice.data|;
              var small := op.block.oid == slice.block.oid && |op.data| < config.skipSize;
              var fits := slice.phase == Merging && follows && |slice.data| + |op.data| <= config.bufferSize;
              var again := small && !fits && (!follows || slice.merged > config.skipMerged);
              (combined && !isNew && task == None <==> small && fits) &&
              (combined && !isNew && task.Some? <==> again && slice.phase != Cleanup && seen > 0) &&
              (combined && isNew && task == None <==> again && (slice.phase == Cleanup || seen <= 0)) &&
              (task.Some? ==> combined && !isNew) &&
              (small && fits ==> |slices| == |old(slices)| && slices[id].data == slice.data + op.data)
      ensures if combined && !isNew && task == None
              then plain == Put(old(plain), op.block, op.offset, op.data)
              else plain == old(plain) && Clear(Snap(), op.block, op.Size())
    {
      ghost var s := Snap();
      combined, isNew, task, seen := false, false, None, waiting;
      var slice := slices[id];
      if op.block.oid != slice.block.oid {
        return;
      }
      var isJump := !(op.block.offset == slice.block.offset && op.offset == slice.Size().End());
      if slice.phase == Merging {
        if !isJump && |slice.data| + |op.data| <= config.bufferSize {
          combined := DoCombine(id, op);
          return;
        }
        PushSound(config, s, id, plain);
        PushWithinLock(id);
        QuietClear(s, Snap(), op.block, op.Size());
      }
      if |op.data| >= config.skipSize {
        return;
      }
      combined := isJump || slice.merged > config.skipMerged;
      task, seen := AwaitOrGoOn(id, op, combined);
      isNew := task == None;
    }

    /** The test for flow control, behind any work beside the block lock. */
    method AwaitOrGoOn(id: nat, op: Op, combined: bool) returns (task: Option<nat>, ghost seen: int)
      requires Valid() && op.data != [] && Clear(Snap(), op.block, op.Size()) && id < |slices|
      requires slices[id].phase != Merging
      modifies this
      ensures Valid() && plain == old(plain) && Quiet(old(Snap()), Snap()) && Clear(Snap(), op.block, op.Size())
      ensures task.Some? <==> combined && old(slices)[id].phase != Cleanup && seen > 0
      ensures TasksAdded(old(Snap()), Snap(), if task.Some? then 1 else 0)
      ensures task.Some? ==> task.value == |old(tasks)| && tasks[task.value].all == {id}
    {
      ghost var s := Snap();
      WorkBeside();
      seen, task := waiting, None;
      if combined && slices[id].phase.Processing() && waiting > 0 {
        ghost var s1 := Snap();
        var t := WaitOn(id);
        QuietTrans(s, s1, Snap());
        task := Some(t);
      }
      QuietClear(s, Snap(), op.block, op.Size());
    }

    /** The thread's slice, looked up and locked; it is looked up again if it has been released in
        between. */
    method LookupSlice(op: Op) returns (oldSlice: Option<nat>, ghost read: State)
      requires Valid() && op.key in entries && Clear(Snap(), op.block, op.Size())
      modifies this
      ensures Valid() && plain == old(plain) && Tracks(old(entries), entries) && Clear(Snap(), op.block, op.Size())
      ensures TasksAdded(old(Snap()), Snap(), 0)
      ensures if oldSlice.Some?
              then oldSlice.value < |slices| == |read.slices| && slices[oldSlice.value].key == op.key &&
                   read.slices[oldSlice.value].version == slices[oldSlice.value].version
              else entries[op.key].slice == None
    {
      read := Snap();
      while true
        invariant Valid() && plain == old(plain) && Tracks(old(entries), entries) && Clear(Snap(), op.block, op.Size())
        invariant TasksAdded(old(Snap()), Snap(), 0)
        decreases Total(Snap())
      {
        ghost var s := Snap();
        Background();
        QuietClear(s, Snap(), op.block, op.Size());
        oldSlice := entries[op.key].slice;
        if oldSlice == None {
          return;
        }
        EntryLive(config, Snap(), plain, op.key);
        var same;
        same, read := LockSlice(op, oldSlice.value);
        if same {
          return;
        }
      }
    }

    /** Takes the version of the slice in state `read`, then the lock, and compares: false only if the slice has
        been released in between. */
    method LockSlice(op: Op, id: nat) returns (same: bool, ghost read: State)
      requires Valid() && op.key in entries && Clear(Snap(), op.block, op.Size()) && id < |slices|
      modifies this
      ensures Valid() && plain == old(plain) && Quiet(old(Snap()), Snap()) && Clear(Snap(), op.block, op.Size())
      ensures TasksAdded(old(Snap()), Snap(), 0) && slices[id].key == old(slices)[id].key
      ensures !same ==> slices[id].phase == Cleanup && Total(Snap()) < Total(old(Snap()))
      ensures |read.slices| == |slices| && (same <==> read.slices[id].version == slices[id].version)
    {
      ghost var s1 := Snap();
      Background();
      QuietClear(s1, Snap(), op.block, op.Size());
      var version := slices[id].version;
      ghost var s2 := Snap();
      Background();
      QuietClear(s2, Snap(), op.block, op.Size());
      QuietTrans(s1, s2, Snap());
      VersionIs(config, Snap(), plain, id);
      VersionIs(config, s2, plain, id);
      same := slices[id].version == version;
      read := s2;
    }

    /** One attempt.  In state s the thread's slice is `slice`: a write that directly follows it and fits is
        appended to it, and a write is refused only for a reason. */
    method CheckCombine(op: Op) returns (combined: bool, task: Option<nat>, ghost s: State, ghost slice: Option<nat>)
      requires Valid() && op.data != [] && op.key in entries && Clear(Snap(), op.block, op.Size())
      modifies this
      ensures Valid() && Tracks(old(entries), entries) && TasksAdded(old(Snap()), Snap(), if task.Some? then 1 else 0)
      ensures task.Some? ==> task.value == |old(tasks)|
      ensures if combined && task == None
              then plain == Put(old(plain), op.block, op.offset, op.data)
              else plain == old(plain) && Clear(Snap(), op.block, op.Size())
      ensures slice == None ==> op.key in s.entries && s.entries[op.key].slice == None
      ensures !combined && task == None ==> Refuses(config, op, s, slice)
      ensures Joins(config, op, s, slice) ==>
                combined && task == None && |slices| == |s.slices| &&
                slices[slice.value].data == s.slices[slice.value].data + op.data
    {
      var isNew := true;
      task := None;
      var oldSlice, read := LookupSlice(op);
      s, slice := Snap(), oldSlice;
      if oldSlice == None {
        combined := |op.data| < config.skipSize;
      } else {
        ghost var seen;
        combined, isNew, task, seen := TryCombine(oldSlice.value, op);
      }
      if isNew && combined {
        combined := CreateSlice(op, oldSlice);
      }
    }

    /** Up to four attempts to combine, each after waiting for flow control.  No wait is left unfinished. */
    method CheckCombineSlice(op: Op)
      returns (combined: bool, attempts: nat, ghost s: State, ghost slice: Option<nat>)
      requires Valid() && op.data != [] && op.key in entries && Clear(Snap(), op.block, op.Size())
      modifies this
      ensures Valid() && Tracks(old(entries), entries) && 1 <= attempts <= 4
      ensures AllButLast(|old(tasks)|, tasks, None) && attempts - 1 <= |tasks| - |old(tasks)| <= attempts
      ensures !combined && attempts < 4 ==> Refuses(config, op, s, slice)
      ensures if combined then plain == Put(old(plain), op.block, op.offset, op.data)
              else plain == old(plain) && Clear(Snap(), op.block, op.Size())
    {
      var count := 0;
      attempts := 1;
      var task: Option<nat>;
      combined, task, s, slice := CheckCombine(op);
      while task.Some?
        invariant Valid() && Tracks(old(entries), entries) && AllButLast(|old(tasks)|, tasks, task)
        invariant 1 <= attempts <= 4 && (task.Some? ==> count < 4 && attempts == count + 1 == |tasks| - |old(tasks)|)
        invariant attempts - 1 <= |tasks| - |old(tasks)| <= attempts
        invariant if combined && task == None then plain == Put(old(plain), op.block, op.offset, op.data)
                  else plain == old(plain) && Clear(Snap(), op.block, op.Size())
        invariant task == None && !combined && attempts < 4 ==> Refuses(config, op, s, slice)
        decreases 4 - count
      {
        combined, task, s, slice := WaitAndRetry(op, task.value, |old(tasks)|, count < 3);
        if count < 3 {
          attempts := attempts + 1;
        }
        count := count + 1;
      }
    }

    /** Waits for the task and tries again, if there is an attempt left. */
    method WaitAndRetry(op: Op, t: nat, ghost n: nat, again: bool)
      returns (combined: bool, task: Option<nat>, ghost s: State, ghost slice: Option<nat>)
      requires Valid() && op.data != [] && op.key in entries && Clear(Snap(), op.block, op.Size())
      requires AllButLast(n, tasks, Some(t))
      modifies this
      ensures Valid() && Tracks(old(entries), entries) && AllButLast(n, tasks, task)
      ensures |tasks| == |old(tasks)| + (if task.Some? then 1 else 0) && (!again ==> !combined && task == None)
      ensures again && !combined && task == None ==> Refuses(config, op, s, slice)
      ensures if combined && task == None then plain == Put(old(plain), op.block, op.offset, op.data)
              else plain == old(plain) && Clear(Snap(), op.block, op.Size())
    {
      s, slice := Snap(), None;
      WaitWriteDone(t);
      QuietClear(s, Snap(), op.block, op.Size());
      combined, task := false, None;
      if again {
        combined, task, s, slice := CheckCombine(op);
      }
    }

    /** The thread's entry is created or counts on; it keeps its slice. */
    method TouchEntry(op: Op)
      requires Valid()
      modifies this
      ensures Valid() && plain == old(plain) && op.key in entries
      ensures Snap() == old(Snap()).(entries := old(entries)[op.key := entries[op.key]])
      ensures entries[op.key].slice == if op.key in old(entries) then old(entries)[op.key].slice else None
      ensures entries[op.key].lastWrite == op.block.offset + op.offset + |op.data|
      ensures entries[op.key].successive ==
              if op.key in old(entries) && old(entries)[op.key].lastWrite == op.block.offset + op.offset
              then old(entries)[op.key].successive + 1 else 0
    {
      var offset := op.block.offset + op.offset;
      var entry :=
        if op.key !in entries then Entry(None, 0, offset + |op.data|)
        else if offset == entries[op.key].lastWrite
        then entries[op.key].(successive := entries[op.key].successive + 1, lastWrite := offset + |op.data|)
        else entries[op.key].(successive := 0, lastWrite := offset + |op.data|);
      ghost var s := Snap();
      if op.key in entries && entries[op.key].slice.Some? {
        EntryLive(config, s, plain, op.key);
      }
      EntrySound(config, s, plain, op.key, entry);
      entries := entries[op.key := entry];
      assert Snap() == s.(entries := s.entries[op.key := entry]);
    }

    /** Tracks whether the thread writes successively; only then is combining tried. */
    method OtidInsert(op: Op)
      returns (combined: bool, ghost attempts: nat, ghost s: State, ghost slice: Option<nat>)
      requires Valid() && op.data != [] && Clear(Snap(), op.block, op.Size())
      modifies this
      ensures Valid() && op.key in entries && entries[op.key].lastWrite == op.block.offset + op.offset + |op.data|
      ensures entries[op.key].successive ==
              if op.key in old(entries) && old(entries)[op.key].lastWrite == op.block.offset + op.offset
              then old(entries)[op.key].successive + 1 else 0
      ensures entries[op.key].successive == 0 ==>
                !combined && Snap() == old(Snap()).(entries := old(entries)[op.key := entries[op.key]]) &&
                entries[op.key].slice == if op.key in old(entries) then old(entries)[op.key].slice else None
      ensures entries[op.key].successive > 0 && !combined ==> attempts == 4 || Refuses(config, op, s, slice)
      ensures if combined then plain == Put(old(plain), op.block, op.offset, op.data)
              else plain == old(plain) && Clear(Snap(), op.block, op.Size())
    {
      s, slice, attempts := Snap(), None, 0;
      TouchEntry(op);
      assert Clear(Snap(), op.block, op.Size());
      combined := false;
      if entries[op.key].successive > 0 {
        combined, attempts, s, slice := CheckCombineSlice(op);
      }
    }

    /* -------------------------------------------------------------- API calls */

    /** A write takes effect on the plain store, whether it is combined or written directly.  It reports
        the space it gains only when it is written directly. */
    method SliceWrite(op: Op) returns (combined: bool, written: int, gained: int, ghost conflicts: nat)
      requires Valid() && op.data != []
      modifies this
      ensures Valid() && plain == Put(old(plain), op.block, op.offset, op.data)
      ensures written == |op.data|
      ensures gained == if combined then 0 else |op.data| - Present(Of(old(plain), op.block), op.offset, |op.data|)
      ensures conflicts > 0 ==>
                !combined && entries.Keys == old(entries).Keys && !Clear(old(Snap()), op.block, op.Size())
      ensures conflicts == 0 ==>
                op.key in entries && entries[op.key].lastWrite == op.block.offset + op.offset + |op.data|
    {
      var count := CheckConflictAndWait(op.block, op.Size());
      combined, written, gained, conflicts := false, |op.data|, 0, count;
      if count == 0 {
        ghost var attempts, s1, slice;
        combined, attempts, s1, slice := OtidInsert(op);
      }
      if !combined {
        gained := WriteThrough(op);
      }
      Background();
    }

    /** Any background work, and then the direct write. */
    method WriteThrough(op: Op) returns (gained: int)
      requires Valid() && op.data != [] && Clear(Snap(), op.block, op.Size())
      modifies this
      ensures Valid() && plain == Put(old(plain), op.block, op.offset, op.data) && Tracks(old(entries), entries)
      ensures gained == |op.data| - Present(Of(old(plain), op.block), op.offset, |op.data|)
    {
      ghost var s := Snap();
      Background();
      QuietClear(s, Snap(), op.block, op.Size());
      gained := DirectWrite(op);
    }

    /** A write that goes to the server, on a range without pending slices. */
    method DirectWrite(op: Op) returns (gained: int)
      requires Valid() && op.data != [] && Clear(Snap(), op.block, op.Size())
      modifies this
      ensures Valid() && plain == Put(old(plain), op.block, op.offset, op.data) && entries == old(entries)
      ensures gained == |op.data| - Present(Of(old(plain), op.block), op.offset, |op.data|)
    {
      ReadSound(config, Snap(), plain, op.block, op.Size());
      gained := |op.data| - Present(if op.block in server then server[op.block] else map[], op.offset, |op.data|);
      PutSound(config, Snap(), plain, op);
      ServerWrite(op.block, op.offset, op.data);
      plain := Put(plain, op.block, op.offset, op.data);
    }

    /** The conflict wait in front of a server call, and any background work before that call. */
    method WaitUntilClear(b: Block, size: SliceSize)
      requires Valid() && size.length > 0
      modifies this
      ensures Valid() && plain == old(plain) && Clear(Snap(), b, size)
    {
      var conflicts := CheckConflictAndWait(b, size);
      ghost var s := Snap();
      Background();
      QuietClear(s, Snap(), b, size);
    }

    /** A read returns what the plain store holds. */
    method SliceRead(b: Block, size: SliceSize) returns (data: seq<Byte>)
      requires Valid() && size.length > 0
      modifies this
      ensures Valid() && plain == old(plain)
      ensures data == Read(Of(plain, b), size.offset, size.length)
    {
      WaitUntilClear(b, size);
      ReadSound(config, Snap(), plain, b, size);
      data := Read(if b in server then server[b] else map[], size.offset, size.length);
    }

    /** A delete frees what is stored in the range, and fails when that is nothing. */
    method SliceDelete(b: Block, size: SliceSize) returns (ok: bool, freed: int)
      requires Valid() && size.length > 0
      modifies this
      ensures Valid() && plain == old(plain)[b := Deleted(Of(old(plain), b), size)]
      ensures freed == Present(Of(old(plain), b), size.offset, size.length) && (ok <==> freed > 0)
    {
      WaitUntilClear(b, size);
      ghost var s := Snap();
      ReadSound(config, s, plain, b, size);
      freed := Present(if b in server then server[b] else map[], size.offset, size.length);
      ok := freed > 0;
      DeleteSound(config, s, plain, b, size);
      server := server[b := Deleted(if b in server then server[b] else map[], size)];
      plain := plain[b := Deleted(Of(plain, b), size)];
    }

    /** An allocation gives the holes of the range space, and reports how much. */
    method SliceAllocate(b: Block, size: SliceSize) returns (gained: int)
      requires Valid() && size.length > 0
      modifies this
      ensures Valid() && plain == old(plain)[b := Allocated(Of(old(plain), b), size)]
      ensures gained == size.length - Present(Of(old(plain), b), size.offset, size.length)
    {
      WaitUntilClear(b, size);
      ghost var s := Snap();
      ReadSound(config, s, plain, b, size);
      gained := size.length - Present(if b in server then server[b] else map[], size.offset, size.length);
      AllocateSound(config, s, plain, b, size);
      server := server[b := Allocated(if b in server then server[b] else map[], size)];
      plain := plain[b := Allocated(Of(plain, b), size)];
    }

    method ServeOne(r: Request) returns (answer: seq<Byte>)
      requires Valid() && r.Proper()
      modifies this
      ensures Valid() && plain == Effect(old(plain), r) && answer == Answer(old(plain), r)
    {
      answer := [];
      match r {
        case Write(op) => var combined, written, gained, conflicts := SliceWrite(op);
        case Fetch(b, size) => answer := SliceRead(b, size);
        case Remove(b, size) => var ok, freed := SliceDelete(b, size);
        case Allocate(b, size) => var gained := SliceAllocate(b, size);
      }
    }

    /** Any sequence of calls has the answers and the final contents of the plain store. */
    method Serve(requests: seq<Request>) returns (answers: seq<seq<Byte>>)
      requires Valid() && forall r | r in requests :: r.Proper()
      modifies this
      ensures Valid() && plain == After(old(plain), requests) && answers == Answers(old(plain), requests)
      decreases |requests|
    {
      if requests == [] {
        return [];
      }
      var answer := ServeOne(requests[0]);
      answers := Serve(requests[1..]);
      answers := [answer] + answers;
    }
  }

  /** The write is appended to the slice: it directly follows a merging slice of the thread and fits. */
  ghost predicate Joins(c: Config, op: Op, s: State, slice: Option<nat>) {
    slice.Some? && slice.value < |s.slices| && |op.data| < c.skipSize &&
    var now := s.slices[slice.value];
    now.phase == Merging && now.block == op.block && now.offset + |now.data| == op.offset &&
    |now.data| + |op.data| <= c.bufferSize
  }

  /** Why a write is not combined: it is too long, leaves too little room in the buffer or the block, is for
      another file than the thread's slice, or follows a slice of few writes. */
  ghost predicate Refuses(c: Config, op: Op, s: State, slice: Option<nat>) {
    |op.data| >= c.skipSize || |op.data| + 4096 >= c.bufferSize || op.offset + |op.data| + 4096 > FILE_BLOCK_SIZE ||
    (slice.Some? && slice.value < |s.slices| &&
     var now := s.slices[slice.value];
     now.key == op.key &&
     (now.block.oid != op.block.oid ||
      (op.block.offset == now.block.offset && op.offset == now.offset + |now.data| && now.merged <= c.skipMerged)))
  }

  /** The tasks from number n on wait for nothing any more, but for the last one if it is still to be waited
      for. */
  ghost predicate AllButLast(n: nat, tasks: seq<Task>, last: Option<nat>) {
    n <= |tasks| && (last.Some? ==> n <= last.value == |tasks| - 1) &&
    forall t | n <= t < |tasks| && last != Some(t) :: tasks[t].pending == {}
  }

  /** No slice is released, and none goes back to merging. */
  ghost predicate Beside(s: State, s': State) {
    |s'.slices| == |s.slices| &&
    forall i | 0 <= i < |s.slices| ::
      (s'.slices[i].phase == Cleanup <==> s.slices[i].phase == Cleanup) &&
      (s'.slices[i].phase == Merging ==> s.slices[i].phase == Merging)
  }

  lemma BesideStep(c: Config, s: State, id: nat, plain: Store)
    requires Sound(c, s, plain) && id < |s.slices| && s.slices[id].phase != Unhooked
    ensures Beside(s, Advance(s, id))
  {
    if s.queue != [] { HeadQueued(c, s, plain); }
  }

  lemma HeadQueued(c: Config, s: State, plain: Store)
    requires Sound(c, s, plain) && s.queue != []
    ensures s.queue[0] < |s.slices| && s.slices[s.queue[0]].phase == Queued
  {
    assert Unfold(0);
    DequeueKeeps(c, s);
  }

  datatype Request =
    | Write(op: Op)
    | Fetch(b: Block, size: SliceSize)
    | Remove(b: Block, size: SliceSize)
    | Allocate(b: Block, size: SliceSize)
  {
    predicate Proper() { if Write? then op.data != [] else size.length > 0 }
  }

  /** What a request does to the plain store. */
  function Effect(plain: Store, r: Request): Store {
    match r
    case Write(op) => Put(plain, op.block, op.offset, op.data)
    case Fetch(_, _) => plain
    case Remove(b, size) => plain[b := Deleted(Of(plain, b), size)]
    case Allocate(b, size) => plain[b := Allocated(Of(plain, b), size)]
  }

  function Answer(plain: Store, r: Request): seq<Byte>
    requires r.Proper()
  {
    if r.Fetch? then Read(Of(plain, r.b), r.size.offset, r.size.length) else []
  }

  function After(plain: Store, requests: seq<Request>): Store
    decreases |requests|
  {
    if requests == [] then plain else After(Effect(plain, requests[0]), requests[1..])
  }

  function Answers(plain: Store, requests: seq<Request>): seq<seq<Byte>>
    requires forall r | r in requests :: r.Proper()
    decreases |requests|
  {
    if requests == [] then [] else [Answer(plain, requests[0])] + Answers(Effect(plain, requests[0]), requests[1..])
  }

  /** The slices of the block that overlap the range. */
  ghost function Conflicting(s: State, b: Block, size: SliceSize): set<nat> {
    set id: nat |
      id < |s.slices| && s.slices[id].Live() && s.slices[id].block == b && Overlaps(size, s.slices[id].Size())
  }

  /** Those among the first i slices of a list that overlap the range. */
  ghost function Found(s: State, list: seq<nat>, i: nat, size: SliceSize): set<nat>
    requires i <= |list|
  {
    if i == 0 then {}
    else Found(s, list, i - 1, size) +
         (if list[i - 1] < |s.slices| && Overlaps(size, s.slices[list[i - 1]].Size()) then {list[i - 1]} else {})
  }

  ghost predicate Scanning(s: State, s': State, list: seq<nat>, i: nat, size: SliceSize, count: nat, t: nat)
    requires i <= |list|
  {
    forall k {:trigger Unfold(k)} :: Unfold(k) ==>
      Quiet(s, s') && s'.lists == s.lists && t == |s.tasks| && count == |Found(s, list, i, size)| &&
      (forall x | 0 <= x < |s.slices| :: s'.slices[x].Live() <==> s.slices[x].Live()) &&
      (count == 0 ==> s'.tasks == s.tasks) &&
      (count > 0 ==> t < |s'.tasks| && s'.tasks[t].all == Found(s, list, i, size))
  }

  lemma ScanStart(s: State, list: seq<nat>, size: SliceSize)
    ensures Scanning(s, s, list, 0, size, 0, |s.tasks|)
  {
  }

  lemma ScanEnd(s: State, s': State, list: seq<nat>, i: nat, size: SliceSize, count: nat, t: nat)
    requires i <= |list| && Scanning(s, s', list, i, size, count, t)
    ensures Quiet(s, s') && count == |Found(s, list, i, size)|
    ensures count > 0 ==> t < |s'.tasks| && s'.tasks[t].all == Found(s, list, i, size)
  {
    assert Unfold(0);
  }

  function Conflict(s: State, id: nat, t: nat, first: bool): State
    requires id < |s.slices| && t < |s.tasks| + (if first then 1 else 0)
  {
    var pushed := if s.slices[id].phase == Merging then Push(s, id) else s;
    AddWaiter(if first then NewTask(pushed) else pushed, id, t)
  }

  lemma TaskSound(c: Config, s: State, plain: Store)
    requires Sound(c, s, plain)
    ensures Sound(c, NewTask(s), plain)
  {
    assert Unfold(0);
    TablesKeep(c, s, NewTask(s));
    TablesSound(c, s, NewTask(s), plain);
  }

  lemma WaiterSound(c: Config, s: State, plain: Store, id: nat, t: nat)
    requires Sound(c, s, plain) && id < |s.slices| && t < |s.tasks| && s.slices[id].phase.Processing()
    ensures Sound(c, AddWaiter(s, id, t), plain)
  {
    assert Unfold(0);
    WaiterKeeps(c, s, id, t);
    TablesSound(c, s, AddWaiter(s, id, t), plain);
  }

  lemma ConflictSound(c: Config, s: State, plain: Store, id: nat, t: nat, first: bool)
    requires Sound(c, s, plain) && id < |s.slices| && s.slices[id].Live() && t < |s.tasks| + (if first then 1 else 0)
    ensures Sound(c, Conflict(s, id, t, first), plain)
  {
    var s1 := if s.slices[id].phase == Merging then Push(s, id) else s;
    if s.slices[id].phase == Merging {
      PushSound(c, s, id, plain);
    }
    var s2 := if first then NewTask(s1) else s1;
    if first {
      TaskSound(c, s1, plain);
    }
    WaiterSound(c, s2, plain, id, t);
  }

  lemma ConflictIs(s: State, id: nat, t: nat, first: bool)
    requires id < |s.slices| && t < |s.tasks| + (if first then 1 else 0)
    ensures var s' := Conflict(s, id, t, first); var a := s.slices[id];
            |s'.slices| == |s.slices| && s'.slices == s.slices[id := s'.slices[id]] && s'.lists == s.lists &&
            s'.entries == s.entries &&
            s'.slices[id] == a.(phase := if a.phase == Merging then Queued else a.phase,
                                pushes := s'.slices[id].pushes, waiters := s'.slices[id].waiters) &&
            t < |s'.tasks| && s'.tasks[t].all == (if t < |s.tasks| then s.tasks[t].all else {}) + {id}
  {
  }

  lemma ConflictQuiet(s: State, id: nat, t: nat, first: bool)
    requires id < |s.slices| && s.slices[id].Live() && t < |s.tasks| + (if first then 1 else 0)
    ensures var s' := Conflict(s, id, t, first);
            Quiet(s, s') && (forall x | 0 <= x < |s.slices| :: s'.slices[x].Live() <==> s.slices[x].Live()) &&
            s'.lists == s.lists && t < |s'.tasks| &&
            s'.tasks[t].all == (if t < |s.tasks| then s.tasks[t].all else {}) + {id}
  {
    ConflictIs(s, id, t, first);
    StepQuiet(s, Conflict(s, id, t, first), id);
  }

  lemma StepQuiet(s: State, s': State, id: nat)
    requires id < |s.slices| == |s'.slices| && s'.slices == s.slices[id := s'.slices[id]] && s'.entries == s.entries
    requires var a, b := s.slices[id], s'.slices[id];
             b == a.(phase := if a.phase == Merging then Queued else a.phase, pushes := b.pushes, waiters := b.waiters)
    ensures Quiet(s, s') && (s.slices[id].Live() <==> s'.slices[id].Live())
  {
    TotalUpdate(s.slices, id, s'.slices[id], |s.slices|);
  }

  lemma ScanStep(s: State, s': State, list: seq<nat>, i: nat, size: SliceSize, count: nat, t: nat)
    requires i < |list| && Scanning(s, s', list, i, size, count, t)
    requires list[i] < |s.slices| && s.slices[list[i]].Live() && list[i] !in Found(s, list, i, size)
    ensures list[i] < |s'.slices| && s'.slices[list[i]].Live() && s'.slices[list[i]].offset == s.slices[list[i]].offset
    ensures t < |s'.tasks| + (if count == 0 then 1 else 0)
    ensures if Overlaps(size, s'.slices[list[i]].Size())
            then Scanning(s, Conflict(s', list[i], t, count == 0), list, i + 1, size, count + 1, t)
            else Scanning(s, s', list, i + 1, size, count, t)
  {
    assert Unfold(0);
    if Overlaps(size, s'.slices[list[i]].Size()) {
      ScanConflict(s, s', list, i, size, count, t);
    } else {
      assert Found(s, list, i + 1, size) == Found(s, list, i, size);
    }
  }

  lemma ScanConflict(s: State, s': State, list: seq<nat>, i: nat, size: SliceSize, count: nat, t: nat)
    requires i < |list| && Scanning(s, s', list, i, size, count, t)
    requires list[i] < |s.slices| && s.slices[list[i]].Live() && list[i] !in Found(s, list, i, size)
    requires list[i] < |s'.slices| && t < |s'.tasks| + (if count == 0 then 1 else 0)
    requires Overlaps(size, s.slices[list[i]].Size())
    ensures Scanning(s, Conflict(s', list[i], t, count == 0), list, i + 1, size, count + 1, t)
  {
    assert Unfold(0);
    var s2 := Conflict(s', list[i], t, count == 0);
    assert Found(s, list, i + 1, size) == Found(s, list, i, size) + {list[i]};
    ConflictQuiet(s', list[i], t, count == 0);
    QuietTrans(s, s', s2);
    assert count == 0 ==> Found(s, list, i, size) == {};
  }

  lemma PendingLive(c: Config, s: State, plain: Store, t: nat, id: nat)
    requires Sound(c, s, plain) && t < |s.tasks| && id in s.tasks[t].pending
    ensures id < |s.slices| && s.slices[id].Live()
  {
    assert Unfold(0);
    assert TaskOk(s, t) && SliceOk(c, s, id);
  }

  lemma TaskDone(c: Config, s: State, plain: Store, t: nat)
    requires Sound(c, s, plain) && t < |s.tasks| && s.tasks[t].pending == {}
    ensures forall id | id in s.tasks[t].all :: id < |s.slices| && s.slices[id].phase == Cleanup
  {
    assert Unfold(0);
    assert TaskOk(s, t);
  }

  lemma ListedLive(c: Config, s: State, b: Block, i: nat)
    requires Inv(c, s) && i < |s.List(b)|
    ensures s.List(b)[i] < |s.slices| && s.slices[s.List(b)[i]].Live() && s.slices[s.List(b)[i]].block == b
    ensures |s.slices[s.List(b)[i]].data| > 0
  {
    assert ListOk(s, b);
    assert SliceOk(c, s, s.List(b)[i]);
  }

  lemma {:induction false} FoundIs(s: State, list: seq<nat>, i: nat, size: SliceSize, x: nat)
    requires i <= |list|
    ensures x in Found(s, list, i, size) <==>
            exists k :: 0 <= k < i && list[k] == x && x < |s.slices| && Overlaps(size, s.slices[x].Size())
  {
    if i > 0 { FoundIs(s, list, i - 1, size, x); }
  }

  lemma FoundStep(c: Config, s: State, plain: Store, b: Block, i: nat, size: SliceSize)
    requires Sound(c, s, plain) && i < |s.List(b)|
    ensures s.List(b)[i] !in Found(s, s.List(b), i, size)
    ensures s.List(b)[i] < |s.slices| && s.slices[s.List(b)[i]].Live()
  {
    assert Unfold(0);
    var list := s.List(b);
    assert ListOk(s, b);
    ListedLive(c, s, b, i);
    FoundIs(s, list, i, size, list[i]);
  }

  lemma FoundConflicts(c: Config, s: State, b: Block, i: nat, size: SliceSize, x: nat)
    requires Inv(c, s) && i <= |s.List(b)| && x in Found(s, s.List(b), i, size)
    ensures x in Conflicting(s, b, size)
  {
    FoundIs(s, s.List(b), i, size, x);
    var k :| 0 <= k < i && s.List(b)[k] == x;
    ListedLive(c, s, b, k);
  }

  lemma ConflictFound(c: Config, s: State, b: Block, i: nat, size: SliceSize, x: nat)
    requires Inv(c, s) && i <= |s.List(b)| && size.length > 0 && x in Conflicting(s, b, size)
    requires i < |s.List(b)| ==> s.List(b)[i] < |s.slices| && size.End() <= s.slices[s.List(b)[i]].offset
    ensures x in Found(s, s.List(b), i, size)
  {
    var list := s.List(b);
    assert SliceOk(c, s, x);
    var k :| 0 <= k < |list| && list[k] == x;
    assert k < i by {
      assert ListOk(s, b);
    }
    FoundIs(s, list, i, size, x);
  }

  /** Nothing beyond the point where the scan stops overlaps the range. */
  lemma ScanComplete(c: Config, s: State, b: Block, i: nat, size: SliceSize)
    requires Inv(c, s) && i <= |s.List(b)| && size.length > 0
    requires i < |s.List(b)| ==> s.List(b)[i] < |s.slices| && size.End() <= s.slices[s.List(b)[i]].offset
    ensures Found(s, s.List(b), i, size) == Conflicting(s, b, size)
  {
    forall x | x in Found(s, s.List(b), i, size) ensures x in Conflicting(s, b, size) {
      FoundConflicts(c, s, b, i, size, x);
    }
    forall x | x in Conflicting(s, b, size) ensures x in Found(s, s.List(b), i, size) {
      ConflictFound(c, s, b, i, size, x);
    }
  }

  lemma FoundAll(c: Config, s: State, plain: Store, b: Block, i: nat, size: SliceSize)
    requires Sound(c, s, plain) && i <= |s.List(b)| && size.length > 0
    requires i < |s.List(b)| ==> s.List(b)[i] < |s.slices| && size.End() <= s.slices[s.List(b)[i]].offset
    ensures Found(s, s.List(b), i, size) == Conflicting(s, b, size)
  {
    assert Unfold(0);
    ScanComplete(c, s, b, i, size);
  }

  /** In every run of every thread, also where API calls interleave: a conflict scan that stops at the
      first slice beyond the range has met exactly the live slices that overlap it, and where the
      insertion scan finds no overlap the slices before the position end before the write and the
      others start behind it, so that the list stays sorted. */
  lemma ScansExactInEveryRun(c: Config, steps: seq<Step>, op: Op, i: nat)
    requires ValidRun(c, EMPTY, steps) && op.data != []
    requires var s := Run(c, EMPTY, steps); var list := s.List(op.block);
             i <= |list| && (i < |list| ==> list[i] < |s.slices| && op.Size().End() <= s.slices[list[i]].offset)
    ensures var s := Run(c, EMPTY, steps);
            Found(s, s.List(op.block), i, op.Size()) == Conflicting(s, op.block, op.Size()) &&
            (Conflicting(s, op.block, op.Size()) == {} && Passed(s, op, i) ==> Fits(s, op, i))
  {
    RunKeepsInv(c, EMPTY, steps);
    var s := Run(c, EMPTY, steps);
    ScanComplete(c, s, op.block, i, op.Size());
    if Passed(s, op, i) {
      PassedFits(c, s, op, i);
    }
  }

  lemma ConflictsGone(s: State, s': State, b: Block, size: SliceSize)
    requires Quiet(s, s')
    requires forall id | id in Conflicting(s, b, size) :: s'.slices[id].phase == Cleanup
    ensures Clear(s', b, size)
  {
    forall id | 0 <= id < |s'.slices| && s'.slices[id].Live() && s'.slices[id].block == b
      ensures !Overlaps(size, s'.slices[id].Size())
    {
      assert s.slices[id].Live() && s.slices[id].Size() == s'.slices[id].Size();
      assert id !in Conflicting(s, b, size);
    }
  }

  /** The first `at` slices of the list end before the write. */
  ghost predicate Passed(s: State, op: Op, at: nat) {
    at <= |s.List(op.block)| &&
    forall i | 0 <= i < at :: s.List(op.block)[i] < |s.slices| &&
           s.slices[s.List(op.block)[i]].Size().End() <= op.offset
  }

  lemma PositionStep(c: Config, s: State, plain: Store, op: Op, at: nat)
    requires Sound(c, s, plain) && op.data != [] && Passed(s, op, at) && at < |s.List(op.block)|
    ensures var id := s.List(op.block)[at];
            id < |s.slices| &&
            (Overlaps(op.Size(), s.slices[id].Size()) ==> !Clear(s, op.block, op.Size())) &&
            (op.Size().End() > s.slices[id].offset && !Overlaps(op.Size(), s.slices[id].Size()) ==>
             Passed(s, op, at + 1))
  {
    assert Unfold(0);
    ListedLive(c, s, op.block, at);
  }

  lemma PassedFits(c: Config, s: State, op: Op, at: nat)
    requires Inv(c, s) && op.data != [] && Passed(s, op, at)
    requires at < |s.List(op.block)| ==>
               s.List(op.block)[at] < |s.slices| && op.Size().End() <= s.slices[s.List(op.block)[at]].offset
    ensures Fits(s, op, at) && Clear(s, op.block, op.Size())
  {
    assert ListOk(s, op.block);
    forall id | 0 <= id < |s.slices| && s.slices[id].Live() && s.slices[id].block == op.block
      ensures !Overlaps(op.Size(), s.slices[id].Size())
    {
      assert SliceOk(c, s, id);
      var k :| 0 <= k < |s.List(op.block)| && s.List(op.block)[k] == id;
    }
  }

  lemma PositionFits(c: Config, s: State, plain: Store, op: Op, at: nat)
    requires Sound(c, s, plain) && op.data != [] && Passed(s, op, at)
    requires at < |s.List(op.block)| ==>
               s.List(op.block)[at] < |s.slices| && op.Size().End() <= s.slices[s.List(op.block)[at]].offset
    ensures Fits(s, op, at) && Clear(s, op.block, op.Size())
  {
    assert Unfold(0);
    PassedFits(c, s, op, at);
  }

  lemma EntrySound(c: Config, s: State, plain: Store, key: Key, entry: Entry)
    requires Sound(c, s, plain) && (entry.slice.Some? ==> Hooks(s, key, entry.slice.value))
    ensures Sound(c, s.(entries := s.entries[key := entry]), plain)
  {
    assert Unfold(0);
    var s' := s.(entries := s.entries[key := entry]);
    TablesKeep(c, s, s');
    TablesSound(c, s, s', plain);
  }

  lemma VersionIs(c: Config, s: State, plain: Store, id: nat)
    requires Sound(c, s, plain) && id < |s.slices|
    ensures s.slices[id].version == if s.slices[id].phase == Cleanup then 1 else 0
  {
    assert Unfold(0);
    assert SliceOk(c, s, id);
  }

  lemma EntryLive(c: Config, s: State, plain: Store, key: Key)
    requires Sound(c, s, plain) && key in s.entries && s.entries[key].slice.Some?
    ensures Hooks(s, key, s.entries[key].slice.value)
  {
    assert Unfold(0);
  }

  /** One block of the server and of the plain store changes alike, within a clear range. */
  lemma BlockSound(c: Config, s: State, plain: Store, b: Block, size: SliceSize, stored: map<int, Byte>,
                   shown: map<int, Byte>)
    requires Sound(c, s, plain) && size.length > 0 && Clear(s, b, size)
    requires forall p | Same(s.Stored(b), Of(plain, b), p) :: Same(stored, shown, p)
    requires forall p | !(size.offset <= p < size.End()) :: Same(s.Stored(b), stored, p) && Same(Of(plain, b), shown, p)
    ensures Sound(c, s.(server := s.server[b := stored]), plain[b := shown])
  {
    ServerSound(c, s, s.(server := s.server[b := stored]), plain, plain[b := shown], b, size);
  }

  lemma PutSound(c: Config, s: State, plain: Store, op: Op)
    requires Sound(c, s, plain) && op.data != [] && Clear(s, op.block, op.Size())
    ensures Sound(c, ServerPut(s, op.block, op.offset, op.data), Put(plain, op.block, op.offset, op.data))
  {
    var span := Span(op.offset, op.data);
    BlockSound(c, s, plain, op.block, op.Size(), s.Stored(op.block) + span, Of(plain, op.block) + span);
  }

  lemma DeleteSound(c: Config, s: State, plain: Store, b: Block, size: SliceSize)
    requires Sound(c, s, plain) && size.length > 0 && Clear(s, b, size)
    ensures Sound(c, s.(server := s.server[b := Deleted(s.Stored(b), size)]), plain[b := Deleted(Of(plain, b), size)])
  {
    BlockSound(c, s, plain, b, size, Deleted(s.Stored(b), size), Deleted(Of(plain, b), size));
  }

  lemma AllocateSound(c: Config, s: State, plain: Store, b: Block, size: SliceSize)
    requires Sound(c, s, plain) && size.length > 0 && Clear(s, b, size)
    ensures Sound(c, s.(server := s.server[b := Allocated(s.Stored(b), size)]),
                  plain[b := Allocated(Of(plain, b), size)])
  {
    BlockSound(c, s, plain, b, size, Allocated(s.Stored(b), size), Allocated(Of(plain, b), size));
  }
}
