/**
 The write-combine tables of the client API: pending slices, the per-block offset-sorted slice
 lists, the per-thread entries, the combine queue and the waiting tasks.  Every step is one locked
 section or one atomic instruction; steps of any number of API callers, of the timer and of the
 combine handler interleave freely.  A slice object taken from the pool gets a fresh id.
 */
module WriteCombine {
  import opened Common
  import opened BlockStore

  datatype Block = Block(oid: int, offset: int)

  datatype Key = Key(oid: int, tid: int)

  /** Where a slice is.  All phases between Merging and Cleanup are the PROCESSING stage: the timer
      has swapped the stage but not yet queued the slice, it is queued, handed to a worker thread,
      written to the server, and unhooked from its thread entry. */
  datatype Phase = Merging | Swapped | Queued | Running | Written | Unhooked | Cleanup {
    function Rank(): nat {
      match this
      case Merging => 6 case Swapped => 5 case Queued => 4 case Running => 3
      case Written => 2 case Unhooked => 1 case Cleanup => 0
    }

    predicate Processing() { this != Merging && this != Cleanup }
  }

  /** `writes`, `pushes` and `flushes` record the merged writes, the entries into the combine queue
      and the writes to the server. */
  datatype Slice = Slice(block: Block, offset: int, data: seq<Byte>, phase: Phase, merged: int, version: int,
                         key: Key, waiters: set<nat>, writes: seq<seq<Byte>>, pushes: nat, flushes: nat)
  {
    function Size(): SliceSize { SliceSize(offset, |data|) }
    predicate Live() { phase != Cleanup }
  }

  datatype Entry = Entry(slice: Option<nat>, successive: nat, lastWrite: int)

  /** A waiting task: the slices it was put on, and those it still waits for. */
  datatype Task = Task(all: set<nat>, pending: set<nat>)

  datatype Config = Config(bufferSize: int, skipSize: int, skipMerged: int)

  datatype Op = Op(key: Key, block: Block, offset: int, data: seq<Byte>) {
    function Size(): SliceSize { SliceSize(offset, |data|) }
  }

  datatype State = State(slices: seq<Slice>, lists: map<Block, seq<nat>>, queue: seq<nat>, waiting: int,
                         tasks: seq<Task>, entries: map<Key, Entry>, server: map<Block, map<int, Byte>>)
  {
    function List(b: Block): seq<nat> { if b in lists then lists[b] else [] }
    function Stored(b: Block): map<int, Byte> { if b in server then server[b] else map[] }
  }

  function Concat(parts: seq<seq<Byte>>): seq<Byte> {
    if parts == [] then [] else Concat(parts[..|parts| - 1]) + parts[|parts| - 1]
  }

  const EMPTY := State([], map[], [], 0, [], map[], map[])

  /* ---------------------------------------------------------------- atomic steps */

  function With(s: State, id: nat, slice: Slice): State
    requires id < |s.slices|
  {
    s.(slices := s.slices[id := slice])
  }

  function At(s: State, id: nat, phase: Phase): State
    requires id < |s.slices|
  {
    With(s, id, s.slices[id].(phase := phase))
  }

  /** The slice leaves MERGING and enters the combine queue. */
  function Push(s: State, id: nat): State
    requires id < |s.slices|
  {
    var slice := s.slices[id];
    With(s, id, slice.(phase := Queued, pushes := slice.pushes + 1))
      .(queue := s.queue + [id], waiting := s.waiting + 1)
  }

  /** Another write is appended to a merging slice. */
  function Append(s: State, id: nat, data: seq<Byte>): State
    requires id < |s.slices|
  {
    var slice := s.slices[id];
    With(s, id, slice.(data := slice.data + data, merged := slice.merged + 1, writes := slice.writes + [data]))
  }

  function NewSlice(op: Op): Slice {
    Slice(op.block, op.offset, op.data, Merging, 1, 0, op.key, {}, [op.data], 0, 0)
  }

  /** A new merging slice is linked into its block's list at position `at`. */
  function Insert(s: State, op: Op, at: nat): State
    requires at <= |s.List(op.block)|
  {
    var list := s.List(op.block);
    s.(slices := s.slices + [NewSlice(op)],
       lists := s.lists[op.block := list[..at] + [|s.slices|] + list[at..]])
  }

  function NewTask(s: State): State {
    s.(tasks := s.tasks + [Task({}, {})])
  }

  function AddWaiter(s: State, id: nat, t: nat): State
    requires id < |s.slices| && t < |s.tasks|
  {
    var slice, task := s.slices[id], s.tasks[t];
    With(s, id, slice.(waiters := slice.waiters + {t}))
      .(tasks := s.tasks[t := Task(task.all + {id}, task.pending + {id})])
  }

  function Dequeue(s: State): State
    requires s.queue != [] && s.queue[0] < |s.slices|
  {
    At(s, s.queue[0], Running).(queue := s.queue[1..], waiting := s.waiting - 1)
  }

  function ServerPut(s: State, b: Block, offset: int, data: seq<Byte>): State {
    s.(server := s.server[b := s.Stored(b) + Span(offset, data)])
  }

  function Flush(s: State, id: nat): State
    requires id < |s.slices|
  {
    var slice := s.slices[id];
    ServerPut(With(s, id, slice.(phase := Written, flushes := slice.flushes + 1)), slice.block, slice.offset,
              slice.data)
  }

  /** The thread entry lets go of the slice if it still points to it. */
  function Unhook(s: State, id: nat): State
    requires id < |s.slices|
  {
    var key := s.slices[id].key;
    var s' := At(s, id, Unhooked);
    if key in s.entries && s.entries[key].slice == Some(id)
    then s'.(entries := s.entries[key := s.entries[key].(slice := None)])
    else s'
  }

  function Without(list: seq<nat>, id: nat): (r: seq<nat>)
    ensures forall x :: x in r <==> x in list && x != id
  {
    if list == [] then []
    else if list[|list| - 1] == id then Without(list[..|list| - 1], id)
    else Without(list[..|list| - 1], id) + [list[|list| - 1]]
  }

  function Notified(s: State, id: nat): seq<Task>
    requires id < |s.slices|
  {
    seq(|s.tasks|, t requires 0 <= t < |s.tasks| =>
      if t in s.slices[id].waiters then Task(s.tasks[t].all, s.tasks[t].pending - {id}) else s.tasks[t])
  }

  /** The slice is unlinked from its block and its waiters are notified. */
  function Release(s: State, id: nat): State
    requires id < |s.slices|
  {
    var slice := s.slices[id];
    With(s, id, slice.(phase := Cleanup, waiters := {}, version := slice.version + 1))
      .(lists := s.lists[slice.block := Without(s.List(slice.block), id)], tasks := Notified(s, id))
  }

  datatype Step =
    | PushSlice(id: nat)
    | TimerSwap(id: nat)
    | TimerPush(id: nat)
    | Dispatch
    | FlushSlice(id: nat)
    | UnhookSlice(id: nat)
    | ReleaseSlice(id: nat)
    | AppendWrite(id: nat, data: seq<Byte>)
    | InsertSlice(op: Op, at: nat)
    | StartTask
    | Wait(id: nat, t: nat)
    | SetEntry(key: Key, entry: Entry)
    | PutServer(server: map<Block, map<int, Byte>>)

  /** An insertion point: everything before ends at or before the write, everything after starts
      at or after its end. */
  ghost predicate Fits(s: State, op: Op, at: nat) {
    var list := s.List(op.block);
    at <= |list| && (forall i | 0 <= i < |list| :: list[i] < |s.slices|) &&
    (forall i | 0 <= i < at :: s.slices[list[i]].Size().End() <= op.offset) &&
    (forall i | at <= i < |list| :: op.Size().End() <= s.slices[list[i]].offset)
  }

  ghost predicate Enabled(c: Config, s: State, step: Step) {
    match step
    case PushSlice(id) => id < |s.slices| && s.slices[id].phase == Merging
    case TimerSwap(id) => id < |s.slices| && s.slices[id].phase == Merging
    case TimerPush(id) => id < |s.slices| && s.slices[id].phase == Swapped
    case Dispatch => s.queue != [] && s.queue[0] < |s.slices|
    case FlushSlice(id) => id < |s.slices| && s.slices[id].phase == Running
    case UnhookSlice(id) => id < |s.slices| && s.slices[id].phase == Written
    case ReleaseSlice(id) => id < |s.slices| && s.slices[id].phase == Unhooked
    case AppendWrite(id, data) =>
      id < |s.slices| && s.slices[id].phase == Merging && |s.slices[id].data| + |data| <= c.bufferSize
    case InsertSlice(op, at) => 0 < |op.data| <= c.bufferSize && Fits(s, op, at)
    case StartTask => true
    case Wait(id, t) => id < |s.slices| && t < |s.tasks| && s.slices[id].phase.Processing()
    case SetEntry(_, _) => true
    case PutServer(_) => true
  }

  function Next(s: State, step: Step): State
    requires step.Dispatch? ==> s.queue != [] && s.queue[0] < |s.slices|
    requires step.InsertSlice? ==> step.at <= |s.List(step.op.block)|
    requires step.Wait? ==> step.t < |s.tasks|
    requires !step.Dispatch? && !step.InsertSlice? && !step.StartTask? && !step.SetEntry? && !step.PutServer? ==>
               step.id < |s.slices|
  {
    match step
    case PushSlice(id) => Push(s, id)
    case TimerSwap(id) => At(s, id, Swapped)
    case TimerPush(id) => Push(s, id)
    case Dispatch => Dequeue(s)
    case FlushSlice(id) => Flush(s, id)
    case UnhookSlice(id) => Unhook(s, id)
    case ReleaseSlice(id) => Release(s, id)
    case AppendWrite(id, data) => Append(s, id, data)
    case InsertSlice(op, at) => Insert(s, op, at)
    case StartTask => NewTask(s)
    case Wait(id, t) => AddWaiter(s, id, t)
    case SetEntry(key, entry) => s.(entries := s.entries[key := entry])
    case PutServer(server) => s.(server := server)
  }

  /* ---------------------------------------------------------------- every interleaving */

  ghost predicate SliceOk(c: Config, s: State, id: nat)
    requires id < |s.slices|
  {
    var slice := s.slices[id];
    0 < |slice.data| <= c.bufferSize &&
    slice.data == Concat(slice.writes) && slice.merged == |slice.writes| &&
    slice.pushes == (if slice.phase.Merging? || slice.phase.Swapped? then 0 else 1) &&
    slice.flushes == (if slice.phase.Rank() <= Written.Rank() then 1 else 0) &&
    slice.version == (if slice.phase == Cleanup then 1 else 0) &&
    (slice.phase == Queued <==> id in s.queue) &&
    (slice.Live() <==> id in s.List(slice.block)) &&
    (slice.waiters != {} ==> slice.phase.Processing()) &&
    (forall t | t in slice.waiters :: t < |s.tasks| && id in s.tasks[t].pending)
  }

  ghost predicate ListOk(s: State, b: Block) {
    var list := s.List(b);
    (forall i | 0 <= i < |list| :: list[i] < |s.slices| && s.slices[list[i]].block == b) &&
    (forall i, j | 0 <= i < j < |list| :: s.slices[list[i]].offset < s.slices[list[j]].offset)
  }

  ghost predicate QueueOk(s: State) {
    s.waiting == |s.queue| &&
    (forall i | 0 <= i < |s.queue| :: s.queue[i] < |s.slices|) &&
    (forall i, j | 0 <= i < j < |s.queue| :: s.queue[i] != s.queue[j])
  }

  ghost predicate TaskOk(s: State, t: nat)
    requires t < |s.tasks|
  {
    var task := s.tasks[t];
    forall id | id in task.all ::
      id < |s.slices| && (id in task.pending <==> t in s.slices[id].waiters) &&
      (id in task.pending || s.slices[id].phase == Cleanup)
  }

  ghost predicate Inv(c: Config, s: State) {
    (forall id | 0 <= id < |s.slices| :: SliceOk(c, s, id)) &&
    (forall b :: ListOk(s, b)) && QueueOk(s) &&
    (forall t | 0 <= t < |s.tasks| :: TaskOk(s, t) && s.tasks[t].pending <= s.tasks[t].all)
  }

  /** A step that touches one slice only, and neither its place nor its waiters. */
  lemma OneSliceKeeps(c: Config, s: State, s': State, id: nat)
    requires Inv(c, s) && id < |s.slices| == |s'.slices| && s'.slices == s.slices[id := s'.slices[id]]
    requires s'.lists == s.lists && s'.tasks == s.tasks && QueueOk(s') && SliceOk(c, s', id)
    requires forall x | x != id :: x in s'.queue <==> x in s.queue
    requires s'.slices[id].block == s.slices[id].block && s'.slices[id].offset == s.slices[id].offset
    requires s'.slices[id].waiters == s.slices[id].waiters && (s.slices[id].Live() || !s'.slices[id].Live())
    ensures Inv(c, s')
  {
    assert forall b :: s'.List(b) == s.List(b);
    forall x | 0 <= x < |s'.slices| ensures SliceOk(c, s', x) { assert SliceOk(c, s, x); }
    forall b ensures ListOk(s', b) { assert ListOk(s, b); }
    forall t | 0 <= t < |s'.tasks| ensures TaskOk(s', t) { assert TaskOk(s, t); }
  }

  lemma PushKeeps(c: Config, s: State, id: nat)
    requires Inv(c, s) && id < |s.slices| && (s.slices[id].phase == Merging || s.slices[id].phase == Swapped)
    ensures Inv(c, Push(s, id))
  {
    assert SliceOk(c, s, id);
    OneSliceKeeps(c, s, Push(s, id), id);
  }

  lemma PhaseKeeps(c: Config, s: State, s': State, id: nat)
    requires Inv(c, s) && id < |s.slices| == |s'.slices|
    requires var slice, phase := s.slices[id], s'.slices[id].phase;
             s'.slices == s.slices[id := slice.(phase := phase,
                                                flushes := if phase == Written then 1 else slice.flushes)]
    requires s' == s.(slices := s'.slices, entries := s'.entries, server := s'.server)
    requires match s.slices[id].phase
             case Merging => s'.slices[id].phase == Swapped
             case Running => s'.slices[id].phase == Written
             case Written => s'.slices[id].phase == Unhooked
             case _ => false
    ensures Inv(c, s')
  {
    assert SliceOk(c, s, id);
    OneSliceKeeps(c, s, s', id);
  }

  lemma DequeueKeeps(c: Config, s: State)
    requires Inv(c, s) && s.queue != []
    ensures s.queue[0] < |s.slices| && s.slices[s.queue[0]].phase == Queued && Inv(c, Dequeue(s))
  {
    var id := s.queue[0];
    assert SliceOk(c, s, id);
    var s' := Dequeue(s);
    assert s.queue == [id] + s'.queue;
    assert forall i | 0 <= i < |s'.queue| :: s'.queue[i] == s.queue[i + 1];
    OneSliceKeeps(c, s, s', id);
  }

  lemma AppendKeeps(c: Config, s: State, id: nat, data: seq<Byte>)
    requires Inv(c, s) && id < |s.slices| && s.slices[id].phase == Merging
    requires |s.slices[id].data| + |data| <= c.bufferSize
    ensures Inv(c, Append(s, id, data))
  {
    var s' := Append(s, id, data);
    assert SliceOk(c, s, id);
    assert s'.slices[id].writes[..|s.slices[id].writes|] == s.slices[id].writes;
    OneSliceKeeps(c, s, s', id);
  }

  lemma InsertKeeps(c: Config, s: State, op: Op, at: nat)
    requires Inv(c, s) && 0 < |op.data| <= c.bufferSize && Fits(s, op, at)
    ensures Inv(c, Insert(s, op, at))
  {
    var s' := Insert(s, op, at);
    var n := |s.slices|;
    var list, list' := s.List(op.block), s'.List(op.block);
    assert Concat([op.data]) == op.data;
    assert ListOk(s, op.block);
    SpliceHas(list, at, n, list');
    forall x | 0 <= x < n ensures SliceOk(c, s', x) { assert SliceOk(c, s, x); }
    assert n !in s.queue;
    assert SliceOk(c, s', n);
    forall b ensures ListOk(s', b) {
      assert ListOk(s, b);
      if b == op.block {
        forall x | x in list ensures |s.slices[x].data| > 0 { assert SliceOk(c, s, x); }
        InsertSorted(s, s', op, at);
      }
    }
    forall t | 0 <= t < |s'.tasks| ensures TaskOk(s', t) { assert TaskOk(s, t); }
  }

  lemma SpliceHas(list: seq<nat>, at: nat, n: nat, list': seq<nat>)
    requires at <= |list| && list' == list[..at] + [n] + list[at..]
    ensures forall x :: x in list' <==> x in list || x == n
  {
    assert list == list[..at] + list[at..];
  }

  lemma InsertSorted(s: State, s': State, op: Op, at: nat)
    requires ListOk(s, op.block) && Fits(s, op, at) && op.data != []
    requires forall x | x in s.List(op.block) :: |s.slices[x].data| > 0
    requires s' == Insert(s, op, at)
    ensures ListOk(s', op.block)
  {
    var list, list' := s.List(op.block), s'.List(op.block);
    assert list' == list[..at] + [|s.slices|] + list[at..];
    forall i | 0 <= i < |list'|
      ensures list'[i] < |s'.slices| && s'.slices[list'[i]].block == op.block
      ensures i < at ==>
                list'[i] == list[i] && s'.slices[list'[i]] == s.slices[list[i]] && s.slices[list[i]].offset < op.offset
      ensures i == at ==> s'.slices[list'[i]].offset == op.offset
      ensures i > at ==>
                list'[i] == list[i - 1] && s'.slices[list'[i]] == s.slices[list[i - 1]] &&
                op.offset < s.slices[list[i - 1]].offset
    {
      if i < at { assert list[i] in list; }
    }
  }

  lemma WaiterKeeps(c: Config, s: State, id: nat, t: nat)
    requires Inv(c, s) && id < |s.slices| && t < |s.tasks| && s.slices[id].phase.Processing()
    ensures Inv(c, AddWaiter(s, id, t))
  {
    var s' := AddWaiter(s, id, t);
    assert SliceOk(c, s, id);
    assert forall b :: s'.List(b) == s.List(b);
    forall x | 0 <= x < |s'.slices| ensures SliceOk(c, s', x) { assert SliceOk(c, s, x); }
    forall b ensures ListOk(s', b) { assert ListOk(s, b); }
    forall u | 0 <= u < |s'.tasks| ensures TaskOk(s', u) { assert TaskOk(s, u); }
  }

  /** Leaving one id out keeps the order of the others. */
  lemma {:induction false} WithoutOrder(list: seq<nat>, id: nat, i: nat, j: nat) returns (i': nat, j': nat)
    requires i < j < |Without(list, id)|
    ensures i' < j' < |list| && list[i'] == Without(list, id)[i] && list[j'] == Without(list, id)[j]
  {
    var front := list[..|list| - 1];
    if list[|list| - 1] == id || j < |Without(front, id)| {
      i', j' := WithoutOrder(front, id, i, j);
    } else {
      assert Without(list, id)[i] == Without(front, id)[i];
      assert Without(front, id)[i] in front;
      i' :| 0 <= i' < |front| && front[i'] == Without(front, id)[i];
      j' := |list| - 1;
    }
  }

  lemma ReleaseKeeps(c: Config, s: State, id: nat)
    requires Inv(c, s) && id < |s.slices| && s.slices[id].phase == Unhooked
    ensures Inv(c, Release(s, id))
  {
    var s' := Release(s, id);
    assert SliceOk(c, s, id);
    forall x | 0 <= x < |s'.slices| ensures SliceOk(c, s', x) {
      assert SliceOk(c, s, x);
    }
    forall b ensures ListOk(s', b) {
      assert ListOk(s, b);
      ReleaseKeepsList(s, id, b);
    }
    forall t | 0 <= t < |s'.tasks| ensures TaskOk(s', t) && s'.tasks[t].pending <= s'.tasks[t].all {
      assert TaskOk(s, t);
    }
  }

  lemma ReleaseKeepsList(s: State, id: nat, b: Block)
    requires id < |s.slices| && ListOk(s, b)
    ensures ListOk(Release(s, id), b)
  {
    var s' := Release(s, id);
    if b == s.slices[id].block {
      var list, list' := s.List(b), s'.List(b);
      forall i | 0 <= i < |list'| ensures list'[i] < |s.slices| && s'.slices[list'[i]].block == b {
        assert list'[i] in list;
      }
      forall i, j | 0 <= i < j < |list'| ensures s'.slices[list'[i]].offset < s'.slices[list'[j]].offset {
        var i', j' := WithoutOrder(list, id, i, j);
      }
    }
  }

  lemma TablesKeep(c: Config, s: State, s': State)
    requires Inv(c, s) && s' == s.(entries := s'.entries, server := s'.server, tasks := s'.tasks)
    requires s'.tasks == s.tasks || s'.tasks == s.tasks + [Task({}, {})]
    ensures Inv(c, s')
  {
    assert forall b :: s'.List(b) == s.List(b);
    forall x | 0 <= x < |s'.slices| ensures SliceOk(c, s', x) { assert SliceOk(c, s, x); }
    forall b ensures ListOk(s', b) { assert ListOk(s, b); }
    forall t | 0 <= t < |s'.tasks| ensures TaskOk(s', t) {
      if t < |s.tasks| { assert TaskOk(s, t); }
    }
  }

  /** Every step of every thread keeps the tables consistent. */
  lemma StepKeepsInv(c: Config, s: State, step: Step)
    requires Inv(c, s) && Enabled(c, s, step)
    ensures Inv(c, Next(s, step))
  {
    match step
    case PushSlice(id) => PushKeeps(c, s, id);
    case TimerSwap(id) => PhaseKeeps(c, s, Next(s, step), id);
    case TimerPush(id) => PushKeeps(c, s, id);
    case Dispatch => DequeueKeeps(c, s);
    case FlushSlice(id) => assert SliceOk(c, s, id); PhaseKeeps(c, s, Next(s, step), id);
    case UnhookSlice(id) => PhaseKeeps(c, s, Next(s, step), id);
    case ReleaseSlice(id) => ReleaseKeeps(c, s, id);
    case AppendWrite(id, data) => AppendKeeps(c, s, id, data);
    case InsertSlice(op, at) => InsertKeeps(c, s, op, at);
    case StartTask => TablesKeep(c, s, Next(s, step));
    case Wait(id, t) => WaiterKeeps(c, s, id, t);
    case SetEntry(_, _) => TablesKeep(c, s, Next(s, step));
    case PutServer(_) => TablesKeep(c, s, Next(s, step));
  }

  ghost predicate ValidRun(c: Config, s: State, steps: seq<Step>)
    decreases |steps|
  {
    steps == [] || (Enabled(c, s, steps[0]) && ValidRun(c, Next(s, steps[0]), steps[1..]))
  }

  ghost function Run(c: Config, s: State, steps: seq<Step>): State
    requires ValidRun(c, s, steps)
    decreases |steps|
  {
    if steps == [] then s else Run(c, Next(s, steps[0]), steps[1..])
  }

  lemma {:induction false} RunKeepsInv(c: Config, s: State, steps: seq<Step>)
    requires Inv(c, s) && ValidRun(c, s, steps)
    ensures Inv(c, Run(c, s, steps))
    decreases |steps|
  {
    if steps != [] {
      StepKeepsInv(c, s, steps[0]);
      RunKeepsInv(c, Next(s, steps[0]), steps[1..]);
    }
  }

  /** What a slice may become: it moves forward through the phases, and only a merging slice grows. */
  ghost predicate Ages(a: Slice, b: Slice) {
    b.block == a.block && b.offset == a.offset && b.phase.Rank() <= a.phase.Rank() &&
    a.data <= b.data && a.writes <= b.writes &&
    (a.phase != Merging ==> b.data == a.data && b.writes == a.writes)
  }

  lemma StepAges(c: Config, s: State, step: Step)
    requires Inv(c, s) && Enabled(c, s, step)
    ensures |s.slices| <= |Next(s, step).slices|
    ensures forall id | 0 <= id < |s.slices| :: Ages(s.slices[id], Next(s, step).slices[id])
  {
    if step.Dispatch? {
      DequeueKeeps(c, s);
    }
    forall id | 0 <= id < |s.slices| ensures Ages(s.slices[id], Next(s, step).slices[id]) {
      SliceAges(c, s, step, id);
    }
  }

  lemma SliceAges(c: Config, s: State, step: Step, id: nat)
    requires Enabled(c, s, step) && id < |s.slices|
    requires step.Dispatch? ==> s.slices[s.queue[0]].phase == Queued
    ensures Ages(s.slices[id], Next(s, step).slices[id])
  {
    if step.AppendWrite? || step.InsertSlice? {
      GrowAges(c, s, step, id);
    } else if step.StartTask? || step.Wait? || step.SetEntry? || step.PutServer? {
      assert Next(s, step).slices[id].(waiters := {}) == s.slices[id].(waiters := {});
    } else {
      MoveAges(c, s, step, id);
    }
  }

  lemma GrowAges(c: Config, s: State, step: Step, id: nat)
    requires (step.AppendWrite? || step.InsertSlice?) && Enabled(c, s, step) && id < |s.slices|
    ensures Ages(s.slices[id], Next(s, step).slices[id])
  {
    var was, now := s.slices[id], Next(s, step).slices[id];
    assert now == was || now == was.(data := now.data, merged := now.merged, writes := now.writes);
  }

  /** The steps that move a slice to its next phase. */
  lemma MoveAges(c: Config, s: State, step: Step, id: nat)
    requires step.PushSlice? || step.TimerSwap? || step.TimerPush? || step.Dispatch? || step.FlushSlice? ||
             step.UnhookSlice? || step.ReleaseSlice?
    requires Enabled(c, s, step) && id < |s.slices|
    requires step.Dispatch? ==> s.slices[s.queue[0]].phase == Queued
    ensures Ages(s.slices[id], Next(s, step).slices[id])
  {
    var was, now := s.slices[id], Next(s, step).slices[id];
    assert now.data == was.data && now.writes == was.writes && now.block == was.block && now.offset == was.offset;
  }

  /** Over every run of every thread the bytes of a slice are fixed once it has left MERGING. */
  lemma {:induction false} RunAges(c: Config, s: State, steps: seq<Step>)
    requires Inv(c, s) && ValidRun(c, s, steps)
    ensures |s.slices| <= |Run(c, s, steps).slices|
    ensures forall id | 0 <= id < |s.slices| :: Ages(s.slices[id], Run(c, s, steps).slices[id])
    decreases |steps|
  {
    if steps != [] {
      var s' := Next(s, steps[0]);
      StepAges(c, s, steps[0]);
      StepKeepsInv(c, s, steps[0]);
      RunAges(c, s', steps[1..]);
      forall id | 0 <= id < |s.slices| ensures Ages(s.slices[id], Run(c, s, steps).slices[id]) {
        assert Ages(s.slices[id], s'.slices[id]);
      }
    }
  }

  /** In every reachable state a slice has entered the queue and been written as often as its phase
      says, never twice; its version changes exactly when it is released; its buffer is its merged writes
      and fits; and a task with nothing left to
      wait for has had every one of its slices written. */
  lemma SliceLifeCycle(c: Config, steps: seq<Step>, id: nat, t: nat)
    requires ValidRun(c, EMPTY, steps)
    ensures var s := Run(c, EMPTY, steps);
            (id < |s.slices| ==>
               var slice := s.slices[id];
               slice.pushes == (if slice.phase.Rank() >= Swapped.Rank() then 0 else 1) &&
               slice.flushes == (if slice.phase.Rank() <= Written.Rank() then 1 else 0) &&
               slice.version == (if slice.phase == Cleanup then 1 else 0) &&
               slice.data == Concat(slice.writes) && slice.merged == |slice.writes| &&
               0 < |slice.data| <= c.bufferSize) &&
            (t < |s.tasks| && s.tasks[t].pending == {} ==>
               forall x | x in s.tasks[t].all :: x < |s.slices| && s.slices[x].flushes == 1) &&
            s.waiting == |s.queue|
  {
    RunKeepsInv(c, EMPTY, steps);
    var s := Run(c, EMPTY, steps);
    if id < |s.slices| { assert SliceOk(c, s, id); }
    if t < |s.tasks| && s.tasks[t].pending == {} {
      assert TaskOk(s, t);
      forall x | x in s.tasks[t].all ensures x < |s.slices| && s.slices[x].flushes == 1 {
        assert SliceOk(c, s, x);
      }
    }
  }

  /** In every reachable state each block list is sorted by offset and holds exactly the live slices. */
  lemma BlockListOrder(c: Config, steps: seq<Step>, b: Block)
    requires ValidRun(c, EMPTY, steps)
    ensures var s := Run(c, EMPTY, steps); var list := s.List(b);
            (forall i, j | 0 <= i < j < |list| :: list[i] < |s.slices| && list[j] < |s.slices| &&
               s.slices[list[i]].offset < s.slices[list[j]].offset) &&
            (forall id | 0 <= id < |s.slices| && s.slices[id].block == b :: s.slices[id].Live() <==> id in list)
  {
    RunKeepsInv(c, EMPTY, steps);
    var s := Run(c, EMPTY, steps);
    assert ListOk(s, b);
    forall id | 0 <= id < |s.slices| && s.slices[id].block == b ensures s.slices[id].Live() <==> id in s.List(b) {
      assert SliceOk(c, s, id);
    }
  }
}
