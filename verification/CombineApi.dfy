/**
 The client API over the write-combine tables.  API calls run one at a time; between any two of
 their atomic steps the timer and the combine handler do any amount of work.  Every call is proved
 to act on the plain store: the server's blocks overlaid with the pending slices.
 */
module CombineApi {
  import opened Common
  import opened BlockStore
  import opened WriteCombine

  type Store = map<Block, map<int, Byte>>

  function Of(plain: Store, b: Block): map<int, Byte> {
    if b in plain then plain[b] else map[]
  }

  function Put(plain: Store, b: Block, offset: int, data: seq<Byte>): Store {
    plain[b := Of(plain, b) + Span(offset, data)]
  }

  /* ---------------------------------------------------------------- coherence */

  predicate Same(a: map<int, Byte>, b: map<int, Byte>, p: int) {
    (p in a <==> p in b) && (p in a ==> a[p] == b[p])
  }

  /** The bytes of the slice are in the plain store. */
  ghost predicate Shows(plain: Store, slice: Slice) {
    forall p | InSpan(slice.offset, slice.data, p) ::
      p in Of(plain, slice.block) && Of(plain, slice.block)[p] == slice.data[p - slice.offset]
  }

  /** An unwritten slice covers offset p of block b. */
  ghost predicate Hides(s: State, id: nat, b: Block, p: int) {
    id < |s.slices| && s.slices[id].block == b && s.slices[id].phase.Rank() > Written.Rank() &&
    InSpan(s.slices[id].offset, s.slices[id].data, p)
  }

  /** The server has the plain byte, or an unwritten slice does. */
  ghost predicate Kept(s: State, plain: Store, b: Block, p: int) {
    Same(s.Stored(b), Of(plain, b), p) || exists id :: Hides(s, id, b, p)
  }

  ghost predicate Coherent(s: State, plain: Store) {
    (forall id | 0 <= id < |s.slices| && s.slices[id].Live() :: Shows(plain, s.slices[id])) &&
    (forall b, p :: Kept(s, plain, b, p))
  }

  ghost predicate Disjoint(s: State) {
    forall i, j | 0 <= i < j < |s.slices| && s.slices[i].Live() && s.slices[j].Live() &&
           s.slices[i].block == s.slices[j].block ::
      !Overlaps(s.slices[i].Size(), s.slices[j].Size())
  }

  /** No live slice of the block overlaps the range. */
  ghost predicate Clear(s: State, b: Block, size: SliceSize) {
    forall id | 0 <= id < |s.slices| && s.slices[id].Live() && s.slices[id].block == b ::
      !Overlaps(size, s.slices[id].Size())
  }

  /** A thread entry points to a slice of that thread, and lets go of it before the slice is released. */
  ghost predicate EntriesOk(s: State) {
    forall key | key in s.entries && s.entries[key].slice.Some? :: Hooks(s, key, s.entries[key].slice.value)
  }

  ghost predicate Hooks(s: State, key: Key, id: nat) {
    id < |s.slices| && s.slices[id].key == key && s.slices[id].phase.Rank() >= Written.Rank()
  }

  ghost predicate Sound(c: Config, s: State, plain: Store) {
    forall k {:trigger Unfold(k)} :: Unfold(k) ==> Inv(c, s) && Coherent(s, plain) && Disjoint(s) && EntriesOk(s)
  }

  /* ---------------------------------------------------------------- background work */

  function TotalUpTo(slices: seq<Slice>, n: nat): nat
    requires n <= |slices|
  {
    if n == 0 then 0 else TotalUpTo(slices, n - 1) + slices[n - 1].phase.Rank()
  }

  /** The number of background steps still to be taken for the existing slices. */
  function Total(s: State): nat { TotalUpTo(s.slices, |s.slices|) }

  lemma {:induction false} TotalUpdate(slices: seq<Slice>, id: nat, slice: Slice, n: nat)
    requires id < |slices| && n <= |slices|
    ensures TotalUpTo(slices[id := slice], n) ==
            TotalUpTo(slices, n) + (if id < n then slice.phase.Rank() - slices[id].phase.Rank() else 0)
  {
    if n > 0 { TotalUpdate(slices, id, slice, n - 1); }
  }

  /** The entries still record the same successive writes. */
  ghost predicate Tracks(entries: map<Key, Entry>, entries': map<Key, Entry>) {
    entries'.Keys == entries.Keys &&
    forall key | key in entries ::
      entries'[key].successive == entries[key].successive && entries'[key].lastWrite == entries[key].lastWrite
  }

  /** Slices keep their bytes and only move forward; entries at most let go of their slice. */
  ghost predicate Quiet(s: State, s': State) {
    |s'.slices| == |s.slices| &&
    (forall id | 0 <= id < |s.slices| ::
       s'.slices[id].block == s.slices[id].block && s'.slices[id].offset == s.slices[id].offset &&
       s'.slices[id].data == s.slices[id].data && s'.slices[id].merged == s.slices[id].merged &&
       s'.slices[id].key == s.slices[id].key && s'.slices[id].phase.Rank() <= s.slices[id].phase.Rank()) &&
    Tracks(s.entries, s'.entries) &&
    (Total(s') < Total(s) || (Total(s') == Total(s) && forall id | 0 <= id < |s.slices| ::
                              s'.slices[id].version == s.slices[id].version))
  }

  ghost predicate TasksShrink(s: State, s': State) {
    |s'.tasks| == |s.tasks| &&
    forall t | 0 <= t < |s.tasks| :: s'.tasks[t].all == s.tasks[t].all && s'.tasks[t].pending <= s.tasks[t].pending
  }

  /** n tasks are new, and the others wait for no more than before. */
  ghost predicate TasksAdded(s: State, s': State, n: nat) {
    |s'.tasks| == |s.tasks| + n && forall t | 0 <= t < |s.tasks| :: s'.tasks[t].pending <= s.tasks[t].pending
  }

  lemma QuietTrans(a: State, b: State, c: State)
    requires Quiet(a, b) && Quiet(b, c)
    ensures Quiet(a, c)
  {
  }

  lemma QuietClear(s: State, s': State, b: Block, size: SliceSize)
    requires Quiet(s, s') && Clear(s, b, size)
    ensures Clear(s', b, size)
  {
  }

  /** A step that only moves a slice forward, and writes to the server only the slice's own bytes. */
  ghost predicate Moves(s: State, s': State, id: nat) {
    id < |s.slices| == |s'.slices| && s'.slices == s.slices[id := s'.slices[id]] &&
    s'.slices[id].block == s.slices[id].block && s'.slices[id].offset == s.slices[id].offset &&
    s'.slices[id].data == s.slices[id].data && s'.slices[id].merged == s.slices[id].merged &&
    s'.slices[id].phase.Rank() < s.slices[id].phase.Rank() && s'.slices[id].key == s.slices[id].key &&
    (if s.slices[id].phase.Rank() > Written.Rank() && s'.slices[id].phase.Rank() <= Written.Rank()
     then s'.server == ServerPut(s, s.slices[id].block, s.slices[id].offset, s.slices[id].data).server
     else s'.server == s.server) &&
    s'.entries.Keys == s.entries.Keys &&
    (forall key | key in s.entries ::
       s'.entries[key] == if LetsGo(s, s', id, key) then s.entries[key].(slice := None) else s.entries[key])
  }

  /** The step unhooks the slice from this entry. */
  ghost predicate LetsGo(s: State, s': State, id: nat, key: Key)
    requires id < |s.slices| == |s'.slices| && key in s.entries
  {
    s.slices[id].phase.Rank() >= Written.Rank() > s'.slices[id].phase.Rank() && key == s.slices[id].key &&
    s.entries[key].slice == Some(id)
  }

  lemma MovesQuiet(s: State, s': State, id: nat)
    requires Moves(s, s', id)
    ensures Quiet(s, s') && Total(s') < Total(s)
  {
    TotalUpdate(s.slices, id, s'.slices[id], |s.slices|);
  }

  lemma MovesCoherent(s: State, s': State, id: nat, plain: Store)
    requires Moves(s, s', id) && Coherent(s, plain)
    ensures Coherent(s', plain)
  {
    var slice := s.slices[id];
    forall x | 0 <= x < |s'.slices| && s'.slices[x].Live() ensures Shows(plain, s'.slices[x]) {
      assert Shows(plain, s.slices[x]);
    }
    forall b, p ensures Kept(s', plain, b, p) {
      assert Kept(s, plain, b, p);
      if b == slice.block && InSpan(slice.offset, slice.data, p) && slice.phase.Rank() > Written.Rank() {
        assert Shows(plain, slice);
        if s'.slices[id].phase.Rank() > Written.Rank() {
          assert Hides(s', id, b, p);
        }
      } else if x :| Hides(s, x, b, p) {
        assert Hides(s', x, b, p);
      }
    }
  }

  lemma MovesDisjoint(s: State, s': State, id: nat)
    requires Moves(s, s', id) && Disjoint(s) && EntriesOk(s)
    ensures Disjoint(s') && EntriesOk(s')
  {
  }

  /** The next background step of a slice. */
  function Advance(s: State, id: nat): State
    requires id < |s.slices|
  {
    match s.slices[id].phase
    case Merging => At(s, id, Swapped)
    case Swapped => Push(s, id)
    case Queued => if s.queue != [] && s.queue[0] < |s.slices| then Dequeue(s) else s
    case Running => Flush(s, id)
    case Written => Unhook(s, id)
    case Unhooked => Release(s, id)
    case Cleanup => s
  }

  lemma AdvanceKeepsInv(c: Config, s: State, id: nat)
    requires Inv(c, s) && id < |s.slices|
    ensures Inv(c, Advance(s, id))
    ensures s.slices[id].phase == Queued ==>
              s.queue != [] && s.queue[0] < |s.slices| && s.slices[s.queue[0]].phase == Queued
  {
    assert SliceOk(c, s, id);
    match s.slices[id].phase {
      case Merging => StepKeepsInv(c, s, TimerSwap(id));
      case Swapped => StepKeepsInv(c, s, TimerPush(id));
      case Queued => DequeueKeeps(c, s);
      case Running => StepKeepsInv(c, s, FlushSlice(id));
      case Written => StepKeepsInv(c, s, UnhookSlice(id));
      case Unhooked => StepKeepsInv(c, s, ReleaseSlice(id));
      case Cleanup =>
    }
  }

  lemma AdvanceMoves(s: State, id: nat)
    requires id < |s.slices| && s.slices[id].Live()
    requires s.slices[id].phase == Queued ==>
               s.queue != [] && s.queue[0] < |s.slices| && s.slices[s.queue[0]].phase == Queued
    ensures Moves(s, Advance(s, id), if s.slices[id].phase == Queued then s.queue[0] else id)
    ensures TasksShrink(s, Advance(s, id))
  {
    match s.slices[id].phase {
      case Written => UnhookMoves(s, id);
      case Unhooked => ReleaseMoves(s, id);
      case Queued => DequeueMoves(s);
      case _ =>
    }
  }

  lemma UnhookMoves(s: State, id: nat)
    requires id < |s.slices| && s.slices[id].phase == Written
    ensures Moves(s, Unhook(s, id), id) && TasksShrink(s, Unhook(s, id))
  {
  }

  lemma ReleaseMoves(s: State, id: nat)
    requires id < |s.slices| && s.slices[id].phase == Unhooked
    ensures Moves(s, Release(s, id), id) && TasksShrink(s, Release(s, id))
  {
  }

  lemma DequeueMoves(s: State)
    requires s.queue != [] && s.queue[0] < |s.slices| && s.slices[s.queue[0]].phase == Queued
    ensures Moves(s, Dequeue(s), s.queue[0]) && TasksShrink(s, Dequeue(s))
  {
  }

  /** Background work is bounded, keeps the slices' bytes and does not change the plain store. */
  lemma AdvanceSound(c: Config, s: State, id: nat, plain: Store)
    requires Sound(c, s, plain) && id < |s.slices| && s.slices[id].Live()
    ensures Sound(c, Advance(s, id), plain) && Quiet(s, Advance(s, id)) && Total(Advance(s, id)) < Total(s)
    ensures TasksShrink(s, Advance(s, id))
    ensures s.slices[id].phase == Queued ==> s.queue != [] && s.queue[0] < |s.slices|
  {
    assert Unfold(0);
    AdvanceKeepsInv(c, s, id);
    AdvanceMoves(s, id);
    var s', moved := Advance(s, id), if s.slices[id].phase == Queued then s.queue[0] else id;
    MovesQuiet(s, s', moved);
    MovesCoherent(s, s', moved, plain);
    MovesDisjoint(s, s', moved);
  }

  /* ---------------------------------------------------------------- effects of the API calls */

  lemma PushSound(c: Config, s: State, id: nat, plain: Store)
    requires Sound(c, s, plain) && id < |s.slices| && s.slices[id].phase == Merging
    ensures Sound(c, Push(s, id), plain) && Quiet(s, Push(s, id)) && Total(Push(s, id)) < Total(s)
    ensures Push(s, id).tasks == s.tasks
  {
    assert Unfold(0);
    var s' := Push(s, id);
    PushKeeps(c, s, id);
    MovesQuiet(s, s', id);
    MovesCoherent(s, s', id, plain);
    MovesDisjoint(s, s', id);
  }

  /** Only the tasks or the entries change. */
  lemma TablesSound(c: Config, s: State, s': State, plain: Store)
    requires Sound(c, s, plain) && Inv(c, s') && EntriesOk(s') && s'.server == s.server && |s'.slices| == |s.slices|
    requires forall id | 0 <= id < |s.slices| ::
               s'.slices[id] == s.slices[id].(waiters := s'.slices[id].waiters)
    ensures Sound(c, s', plain)
  {
    assert Unfold(0);
    forall b, p ensures Kept(s', plain, b, p) {
      assert Kept(s, plain, b, p);
      if x :| Hides(s, x, b, p) { assert Hides(s', x, b, p); }
    }
  }

  ghost predicate OthersSame(s: State, s': State, id: nat) {
    id <= |s.slices| && |s'.slices| == (if id < |s.slices| then |s.slices| else id + 1) &&
    forall x | 0 <= x < |s.slices| && x != id :: s'.slices[x] == s.slices[x]
  }

  /** Slice id, perhaps new, is merging and has got `data` at `offset`, where no other live slice is. */
  ghost predicate Extended(s: State, s': State, id: nat, offset: int, data: seq<Byte>) {
    OthersSame(s, s', id) && data != [] && s'.slices[id].phase == Merging && s'.server == s.server &&
    offset + |data| == s'.slices[id].Size().End() &&
    (forall x | 0 <= x < |s.slices| && x != id && s.slices[x].Live() && s.slices[x].block == s'.slices[id].block ::
       |s.slices[x].data| > 0 && !Overlaps(SliceSize(offset, |data|), s.slices[x].Size())) &&
    if id < |s.slices|
    then s.slices[id].phase == Merging && s.slices[id].data != [] && s.slices[id].block == s'.slices[id].block &&
         s.slices[id].offset == s'.slices[id].offset && s'.slices[id].data == s.slices[id].data + data
    else s'.slices[id].offset == offset && s'.slices[id].data == data
  }

  lemma ExtendShows(s: State, s': State, plain: Store, id: nat, offset: int, data: seq<Byte>, x: nat)
    requires Extended(s, s', id, offset, data) && x < |s'.slices| && s'.slices[x].Live()
    requires x < |s.slices| ==> Shows(plain, s.slices[x])
    ensures Shows(Put(plain, s'.slices[id].block, offset, data), s'.slices[x])
  {
    var b := s'.slices[id].block;
    var plain' := Put(plain, b, offset, data);
    assert Of(plain', b) == Of(plain, b) + Span(offset, data);
    var slice := s'.slices[x];
    forall p | InSpan(slice.offset, slice.data, p)
      ensures p in Of(plain', slice.block) && Of(plain', slice.block)[p] == slice.data[p - slice.offset]
    {
      if x != id || !InSpan(offset, data, p) {
        assert InSpan(s.slices[x].offset, s.slices[x].data, p);
        assert x != id && slice.block == b ==> !InSpan(offset, data, p);
      }
    }
  }

  lemma ExtendKept(s: State, s': State, plain: Store, id: nat, offset: int, data: seq<Byte>, b: Block, p: int)
    requires Extended(s, s', id, offset, data) && Kept(s, plain, b, p)
    ensures Kept(s', Put(plain, s'.slices[id].block, offset, data), b, p)
  {
    if b == s'.slices[id].block && InSpan(offset, data, p) {
      assert Hides(s', id, b, p);
    } else if x :| Hides(s, x, b, p) {
      assert Hides(s', x, b, p);
    }
  }

  /** New bytes where no other live slice is: a write to the plain store. */
  lemma ExtendSound(s: State, s': State, plain: Store, id: nat, offset: int, data: seq<Byte>)
    requires Coherent(s, plain) && Disjoint(s) && Extended(s, s', id, offset, data)
    ensures Coherent(s', Put(plain, s'.slices[id].block, offset, data)) && Disjoint(s')
  {
    var plain' := Put(plain, s'.slices[id].block, offset, data);
    forall x | 0 <= x < |s'.slices| && s'.slices[x].Live() ensures Shows(plain', s'.slices[x]) {
      ExtendShows(s, s', plain, id, offset, data, x);
    }
    forall b, p ensures Kept(s', plain', b, p) {
      assert Kept(s, plain, b, p);
      ExtendKept(s, s', plain, id, offset, data, b, p);
    }
    ExtendDisjoint(s, s', id, offset, data);
  }

  lemma ExtendDisjoint(s: State, s': State, id: nat, offset: int, data: seq<Byte>)
    requires Disjoint(s) && Extended(s, s', id, offset, data)
    ensures Disjoint(s')
  {
    forall x | 0 <= x < |s'.slices| && x != id && s'.slices[x].Live() && s'.slices[x].block == s'.slices[id].block
      ensures !Overlaps(s'.slices[x].Size(), s'.slices[id].Size()) &&
              !Overlaps(s'.slices[id].Size(), s'.slices[x].Size())
    {
      if id < |s.slices| {
        assert !Overlaps(s.slices[if x < id then x else id].Size(), s.slices[if x < id then id else x].Size());
      }
    }
  }

  lemma AppendSound(c: Config, s: State, plain: Store, id: nat, data: seq<Byte>)
    requires Sound(c, s, plain) && id < |s.slices| && s.slices[id].phase == Merging && data != []
    requires |s.slices[id].data| + |data| <= c.bufferSize
    requires Clear(s, s.slices[id].block, SliceSize(s.slices[id].Size().End(), |data|))
    ensures Sound(c, Append(s, id, data), Put(plain, s.slices[id].block, s.slices[id].Size().End(), data))
  {
    assert Unfold(0);
    AppendKeeps(c, s, id, data);
    forall x | 0 <= x < |s.slices| ensures |s.slices[x].data| > 0 { assert SliceOk(c, s, x); }
    ExtendSound(s, Append(s, id, data), plain, id, s.slices[id].Size().End(), data);
  }

  lemma InsertSound(c: Config, s: State, plain: Store, op: Op, at: nat)
    requires Sound(c, s, plain) && 0 < |op.data| <= c.bufferSize && Fits(s, op, at) && Clear(s, op.block, op.Size())
    ensures Sound(c, Insert(s, op, at), Put(plain, op.block, op.offset, op.data))
  {
    assert Unfold(0);
    InsertKeeps(c, s, op, at);
    forall x | 0 <= x < |s.slices| ensures |s.slices[x].data| > 0 { assert SliceOk(c, s, x); }
    ExtendSound(s, Insert(s, op, at), plain, |s.slices|, op.offset, op.data);
  }

  /** On a clear range the server holds the plain bytes. */
  lemma ClearSame(c: Config, s: State, plain: Store, b: Block, size: SliceSize, p: int)
    requires Sound(c, s, plain) && Clear(s, b, size) && size.offset <= p < size.End()
    ensures Same(s.Stored(b), Of(plain, b), p)
  {
    assert Unfold(0);
    assert Kept(s, plain, b, p);
    if x :| Hides(s, x, b, p) { assert SliceOk(c, s, x); }
  }

  /** Both stores change alike, within a clear range only. */
  lemma ServerSound(c: Config, s: State, s': State, plain: Store, plain': Store, b: Block, size: SliceSize)
    requires Sound(c, s, plain) && Clear(s, b, size) && size.length > 0
    requires s' == s.(server := s'.server)
    requires forall x | x != b :: s'.Stored(x) == s.Stored(x) && Of(plain', x) == Of(plain, x)
    requires forall p | Same(s.Stored(b), Of(plain, b), p) :: Same(s'.Stored(b), Of(plain', b), p)
    requires forall p | !(size.offset <= p < size.End()) ::
               Same(s.Stored(b), s'.Stored(b), p) && Same(Of(plain, b), Of(plain', b), p)
    ensures Sound(c, s', plain')
  {
    assert Unfold(0);
    TablesKeep(c, s, s');
    forall x | 0 <= x < |s'.slices| && s'.slices[x].Live() ensures Shows(plain', s'.slices[x]) {
      assert Shows(plain, s.slices[x]);
      assert SliceOk(c, s, x);
      forall p | InSpan(s.slices[x].offset, s.slices[x].data, p)
        ensures p in Of(plain', s.slices[x].block) &&
                Of(plain', s.slices[x].block)[p] == s.slices[x].data[p - s.slices[x].offset]
      {
        if s.slices[x].block == b {
          assert !(size.offset <= p < size.End());
          assert Same(Of(plain, b), Of(plain', b), p);
        }
      }
    }
    forall b', p ensures Kept(s', plain', b', p) {
      assert Kept(s, plain, b', p);
      if x :| Hides(s, x, b', p) { assert Hides(s', x, b', p); }
    }
  }

  lemma ReadSound(c: Config, s: State, plain: Store, b: Block, size: SliceSize)
    requires Sound(c, s, plain) && Clear(s, b, size) && size.length >= 0
    ensures Read(s.Stored(b), size.offset, size.length) == Read(Of(plain, b), size.offset, size.length)
    ensures Present(s.Stored(b), size.offset, size.length) == Present(Of(plain, b), size.offset, size.length)
  {
    forall p | size.offset <= p < size.End() ensures Same(s.Stored(b), Of(plain, b), p) {
      ClearSame(c, s, plain, b, size, p);
    }
    forall p | size.offset <= p < size.End() ensures p in s.Stored(b) <==> p in Of(plain, b) {
      assert Same(s.Stored(b), Of(plain, b), p);
    }
    PresentSame(s.Stored(b), Of(plain, b), size.offset, size.length);
    ReadSame(s.Stored(b), Of(plain, b), size.offset, size.length);
  }

  lemma ReadSame(m: map<int, Byte>, m': map<int, Byte>, offset: int, length: nat)
    requires forall p | offset <= p < offset + length :: Same(m, m', p)
    ensures Read(m, offset, length) == Read(m', offset, length)
  {
    var n, n' := Extent(m, offset, length), Extent(m', offset, length);
    assert n > n' ==> Same(m, m', offset + n - 1);
    assert n' > n ==> Same(m, m', offset + n' - 1);
    forall i | 0 <= i < n ensures Fill(m, offset, n)[i] == Fill(m', offset, n)[i] {
      assert Same(m, m', offset + i);
    }
  }
}
