/**
 The client API with both caches: reads go through the read-ahead cache, writes through write
 combining and then invalidate the read-ahead ranges they overlap.
 */
module ReadAheadClient {
  import opened Common
  import opened BlockStore
  import opened WriteCombine
  import opened CombineApi
  import WriteCombiner
  import opened ReadAhead
  import opened PrereadList

  datatype ReadOp = ReadOp(key: Key, block: Block, offset: int, length: int) {
    function Size(): SliceSize { SliceSize(offset, length) }

    /** Blocks are aligned and a request stays within its block. */
    predicate Proper() {
      key.oid == block.oid && block.offset % FILE_BLOCK_SIZE == 0 && 0 <= offset && length > 0 &&
      offset + length <= FILE_BLOCK_SIZE
    }
  }

  function Hits(list: seq<Indexed>, size: SliceSize): seq<bool> {
    seq(|list|, i requires 0 <= i < |list| => Overlaps(size, list[i].range))
  }

  function Chosen(list: seq<Indexed>, ids: seq<int>): (r: seq<Indexed>)
    requires forall k | 0 <= k < |ids| :: 0 <= ids[k] < |list|
    ensures |r| == |ids|
  {
    seq(|ids|, k requires 0 <= k < |ids| => list[ids[k]])
  }

  lemma {:induction false} KeepPicked(list: seq<Indexed>, size: SliceSize, i: nat)
    requires i <= |list|
    ensures forall k | 0 <= k < |Picked(Hits(list, size), i, false)| ::
              0 <= Picked(Hits(list, size), i, false)[k] < |list|
    ensures Chosen(list, Picked(Hits(list, size), i, false)) == Keep(list[i..], size)
    decreases |list| - i
  {
    var over := Hits(list, size);
    var ids := Picked(over, i, false);
    forall k | 0 <= k < |ids| ensures 0 <= ids[k] < |list| { assert ids[k] in ids; }
    if i < |list| {
      KeepPicked(list, size, i + 1);
      var rest := Picked(over, i + 1, false);
      assert list[i..][0] == list[i] && list[i..][1..] == list[i + 1..];
      if over[i] {
        assert ids == rest;
      } else {
        assert ids == [i] + rest;
        assert Chosen(list, ids) == [list[i]] + Chosen(list, rest);
      }
    }
  }

  method Walk(next: array<int>, start: int, list: seq<Indexed>) returns (r: seq<Indexed>)
    requires next.Length == |list| && Forward(next[..]) && -1 <= start < |list|
    ensures r == Chosen(list, Follow(next[..], start))
  {
    r := [];
    var current := start;
    ghost var ids := Follow(next[..], start);
    while current != -1
      invariant -1 <= current < |list| && |r| <= |ids| && Follow(next[..], current) == ids[|r|..]
      invariant r == Chosen(list, ids)[..|r|]
      decreases |ids| - |r|
    {
      assert ids[|r|..][0] == current && ids[|r|..][1..] == ids[|r| + 1..];
      r := r + [list[current]];
      current := next[current];
    }
  }

  lemma ChosenHits(list: seq<Indexed>, size: SliceSize, removed: seq<Indexed>)
    requires var ids := Picked(Hits(list, size), 0, true);
             (forall k | 0 <= k < |ids| :: 0 <= ids[k] < |list|) && removed == Chosen(list, ids)
    ensures forall x :: x in removed <==> x in list && Overlaps(size, x.range)
  {
    var over := Hits(list, size);
    var ids := Picked(over, 0, true);
    forall k | 0 <= k < |removed| ensures removed[k] in list && Overlaps(size, removed[k].range) {
      assert ids[k] in ids;
    }
    forall x | x in list && Overlaps(size, x.range) ensures x in removed {
      var i :| 0 <= i < |list| && list[i] == x;
      var k := PickedHas(over, 0, true, i);
      assert removed[k] == x;
    }
  }

  /** The entries of a block list that the write overlaps, and the list the loop leaves. */
  method Detach(list: seq<Indexed>, size: SliceSize) returns (left: seq<Indexed>, removed: seq<Indexed>)
    ensures left == Keep(list, size) <==> NoAdjacent(Hits(list, size))
    ensures (exists x :: x in left && x in list && Overlaps(size, x.range)) <==> !NoAdjacent(Hits(list, size))
    ensures forall x :: x in removed <==> x in list && Overlaps(size, x.range)
  {
    var over := Hits(list, size);
    var next := new int[|list|](i requires 0 <= i => Node(i + 1, |list|));
    var head, slices := RemoveConflictSlices(next, over);
    left := Walk(next, head, list);
    removed := Walk(next, slices, list);
    FollowChain(next[..], slices, Picked(over, 0, true));
    ChosenHits(list, size, removed);
    LeftIs(list, size, Follow(next[..], head), left);
    if NoAdjacent(over) {
      FollowChain(next[..], head, Picked(over, 0, false));
      KeepPicked(list, size, 0);
      assert list[0..] == list;
    }
  }

  lemma LeftIs(list: seq<Indexed>, size: SliceSize, ids: seq<int>, left: seq<Indexed>)
    requires (forall k | 0 <= k < |ids| :: 0 <= ids[k] < |list|) && left == Chosen(list, ids)
    ensures (exists x :: x in left && x in list && Overlaps(size, x.range)) <==>
            exists i :: i in ids && Hits(list, size)[i]
  {
    if i :| i in ids && Hits(list, size)[i] {
      var k :| 0 <= k < |ids| && ids[k] == i;
      assert left[k] == list[i] && left[k] in left;
    }
    if x :| x in left && Overlaps(size, x.range) {
      var k :| 0 <= k < |left| && left[k] == x;
      assert ids[k] in ids && Hits(list, size)[ids[k]];
    }
  }

  lemma {:induction false} ExtentGrows(m: map<int, Byte>, offset: int, length: nat, size: nat)
    requires length <= size
    ensures Extent(m, offset, size) <= length ==> Extent(m, offset, size) == Extent(m, offset, length)
  {
    var n, n' := Extent(m, offset, length), Extent(m, offset, size);
    if n' <= length {
      assert n > n' ==> offset + n - 1 !in m;
      assert n' > n ==> offset + n' - 1 !in m;
    }
  }

  /** What the first `length` bytes of a longer read are. */
  lemma LongRead(m: map<int, Byte>, offset: int, length: nat, size: nat)
    requires length <= size
    ensures var got := Read(m, offset, size);
            if |got| > length then got[..length] == Fill(m, offset, length) else got == Read(m, offset, length)
    ensures forall k | 0 <= k < |Read(m, offset, size)| :: Read(m, offset, size)[k] == ByteAt(m, offset + k)
  {
    ExtentGrows(m, offset, length, size);
  }

  /** A plain read and a zero-filled one agree exactly when the last byte of the range is present. */
  lemma ReadIsFill(m: map<int, Byte>, offset: int, length: nat)
    requires length > 0
    ensures Read(m, offset, length) == Fill(m, offset, length) <==> offset + length - 1 in m
  {
    assert |Read(m, offset, length)| == Extent(m, offset, length);
  }

  /** Doubled until it reaches the length. */
  function DoubleTo(bytes: int, length: int): int
    requires bytes > 0
    decreases if bytes < length then length - bytes else 0
  {
    if bytes < length then DoubleTo(2 * bytes, length) else bytes
  }

  /** Doubled up to so many times while below the maximum. */
  function DoubleUp(bytes: int, times: nat, max: int): int
    decreases times
  {
    if times > 0 && bytes < max then DoubleUp(2 * bytes, times - 1, max) else bytes
  }

  /** The size of the whole read: twice the old buffer, or grown with the number of successive reads,
      within the block and the largest buffer. */
  function Wanted(config: ReadConfig, op: ReadOp, successive: nat, capacity: Option<int>): int {
    var remain := FILE_BLOCK_SIZE - op.offset;
    var max := if remain < config.maxBuffer then remain else config.maxBuffer;
    var grown := DoubleUp(DoubleTo(512, op.length), successive, max);
    var bytes :=
      if capacity.Some? then capacity.value * 2 else if grown < config.minBuffer then config.minBuffer else grown;
    if bytes < max then bytes else max
  }

  function Pow2(n: nat): int { if n == 0 then 1 else 2 * Pow2(n - 1) }

  lemma {:induction false} DoubleToIs(bytes: int, length: int) returns (j: nat)
    requires bytes > 0
    ensures DoubleTo(bytes, length) == bytes * Pow2(j) && length <= bytes * Pow2(j)
    ensures j > 0 ==> bytes * Pow2(j - 1) < length
    decreases if bytes < length then length - bytes else 0
  {
    j := 0;
    if bytes < length {
      var k := DoubleToIs(2 * bytes, length);
      j := k + 1;
    }
  }

  lemma {:induction false} DoubleUpIs(bytes: int, times: nat, max: int) returns (i: nat)
    requires bytes > 0
    ensures i <= times && DoubleUp(bytes, times, max) == bytes * Pow2(i) && (i < times ==> max <= bytes * Pow2(i))
    ensures i > 0 ==> bytes * Pow2(i - 1) < max
    decreases times
  {
    i := 0;
    if times > 0 && bytes < max {
      var k := DoubleUpIs(2 * bytes, times - 1, max);
      i := k + 1;
    }
  }

  function Least(a: int, b: int): int { if a < b then a else b }

  /** The size in closed form: without a buffer, the least 512 * 2^j that holds the request is doubled once for
      every successive read, up to the first that reaches the limit; with one, its size is doubled. */
  lemma WantedIs(config: ReadConfig, op: ReadOp, successive: nat, capacity: Option<int>) returns (j: nat, i: nat)
    ensures var max := Least(FILE_BLOCK_SIZE - op.offset, config.maxBuffer);
            var base := 512 * Pow2(j);
            var grown := base * Pow2(i);
            base >= op.length && (j > 0 ==> 512 * Pow2(j - 1) < op.length) &&
            i <= successive && (i < successive ==> grown >= max) && (i > 0 ==> base * Pow2(i - 1) < max) &&
            Wanted(config, op, successive, capacity) ==
            Least(max, if capacity.Some? then 2 * capacity.value
                       else if config.minBuffer > grown then config.minBuffer else grown)
  {
    var max := Least(FILE_BLOCK_SIZE - op.offset, config.maxBuffer);
    j := DoubleToIs(512, op.length);
    Pow2Positive(j);
    i := DoubleUpIs(512 * Pow2(j), successive, max);
  }

  lemma {:induction false} Pow2Positive(n: nat)
    ensures Pow2(n) > 0
  {
    if n > 0 { Pow2Positive(n - 1); }
  }

  /** How much to read beyond a successive request. */
  function Ahead(config: ReadConfig, op: ReadOp, successive: nat, capacity: Option<int>): int {
    if op.length >= config.skipSize then 0 else Wanted(config, op, successive, capacity) - op.length
  }

  /** What the environment decides in a read: whether the buffer has expired, whether a new one is granted,
      and how large that is. */
  datatype Chance = Chance(expired: bool, granted: bool, capacity: int)

  predicate Successive(c: Cache, op: ReadOp) {
    op.key in c.readers && c.readers[op.key].lastRead == op.block.offset + op.offset
  }

  predicate IsHit(c: Cache, op: ReadOp, chance: Chance) {
    Successive(c, op) && !chance.expired && Ready(c, op)
  }

  /** The size of the read that goes to the store when there is no hit. */
  function SizeOf(c: Cache, config: ReadConfig, op: ReadOp, chance: Chance): int {
    if Successive(c, op) && chance.granted then
      var r := c.readers[op.key];
      var capacity :=
        if r.buffer.Some? && r.buffer.value < |c.buffers| then Some(c.buffers[r.buffer.value].capacity) else None;
      var ahead := Ahead(config, op, r.successive + 1, capacity);
      if ahead > 0 then op.length + ahead else op.length
    else op.length
  }

  /** The exact answer of a read: the zero-filled range on a hit, and where the longer read for the buffer
      gets beyond the request; otherwise the plain read. */
  function Answer(c: Cache, config: ReadConfig, op: ReadOp, chance: Chance, m: map<int, Byte>): seq<Byte>
    requires op.length >= 0
  {
    if IsHit(c, op, chance) then Fill(m, op.offset, op.length)
    else if SizeOf(c, config, op, chance) > op.length && Extent(m, op.offset, SizeOf(c, config, op, chance)) > op.length
    then Fill(m, op.offset, op.length)
    else Read(m, op.offset, op.length)
  }

  /** How many bytes beyond the request a read gets and registers. */
  function Beyond(c: Cache, config: ReadConfig, op: ReadOp, chance: Chance, m: map<int, Byte>): int
    requires op.length >= 0
  {
    if IsHit(c, op, chance) || SizeOf(c, config, op, chance) <= op.length then 0
    else
      var more := Extent(m, op.offset, SizeOf(c, config, op, chance)) - op.length;
      if more > 0 then more else 0
  }

  /** A byte behind the request is stored in the same block. */
  ghost predicate StoredBehind(m: map<int, Byte>, op: ReadOp) {
    exists q :: Between(op.offset + op.length, q, FILE_BLOCK_SIZE) && q in m
  }

  /** The answer is the plain read, or the zero-filled range while something is stored behind it. */
  ghost predicate Transparent(m: map<int, Byte>, op: ReadOp, data: seq<Byte>) {
    op.length >= 0 &&
    (data == Read(m, op.offset, op.length) || (data == Fill(m, op.offset, op.length) && StoredBehind(m, op)))
  }

  /** The index lists at most one range per block when each block has one reader. */
  lemma OneReader(list: seq<Indexed>, size: SliceSize, tid: int)
    requires Distinct(list) && forall x | x in list :: x.tid == tid
    ensures NoAdjacent(Hits(list, size))
  {
    assert |list| < 2;
  }

  /** Only the reading thread's range of the block may be new in the index. */
  ghost predicate Tame(c: Cache, c': Cache, op: ReadOp) {
    forall b, x | Listed(c', b, x) :: Listed(c, b, x) || (b == op.block && x.tid == op.key.tid)
  }

  predicate Listed(c: Cache, b: Block, x: Indexed) { x in c.List(b) }

  ghost predicate Shrinks(c: Cache, c': Cache) {
    forall b, x | Listed(c', b, x) :: Listed(c, b, x)
  }

  /** The ranges of the other threads. */
  function Others(c: Cache, b: Block, tid: int): seq<Indexed> { Drop(c.List(b), tid) }

  ghost predicate OthersStay(c: Cache, c': Cache, tid: int) {
    forall b :: Others(c', b, tid) == Others(c, b, tid)
  }

  lemma {:induction false} DropNone(list: seq<Indexed>, tid: int)
    requires NoTid(list, tid)
    ensures Drop(list, tid) == list
  {
    if list != [] { DropNone(list[1..], tid); }
  }

  lemma UnbufferOthers(c: Cache, plain: Store, key: Key)
    requires CacheOk(c, plain) && key in c.readers && c.readers[key].buffer.Some?
    ensures c.readers[key].buffer.value < |c.buffers| && OthersStay(c, Unbuffer(c, key), key.tid)
  {
    BufferThere(c, plain, key);
    var b := Block(key.oid, c.buffers[c.readers[key].buffer.value].bid);
    assert Distinct(c.List(b)) by {
      assert Unfold(0);
      assert IndexOk(c, b);
    }
    DropNone(Drop(c.List(b), key.tid), key.tid);
  }

  /** The thread's buffer is valid and holds the whole request. */
  predicate Ready(c: Cache, op: ReadOp) {
    op.key in c.readers && c.readers[op.key].buffer.Some? && c.readers[op.key].buffer.value < |c.buffers| &&
    var bf := c.buffers[c.readers[op.key].buffer.value];
    !bf.dirty && !bf.conflict && op.length <= |bf.data| - bf.offset
  }

  /** The buffer `id` waits to be filled for this read. */
  ghost predicate Prepared(c: Cache, op: ReadOp, id: nat) {
    op.key in c.readers && id < |c.buffers| &&
    c.readers[op.key].buffer == Some(id) && c.readers[op.key].lastRead == op.block.offset + op.offset + op.length &&
    var bf := c.buffers[id];
    bf.dirty && !bf.conflict && !bf.deleted && bf.key == op.key && bf.bid == op.block.offset && bf.offset == op.length
  }

  /** The reader's buffer holds `more` bytes beyond the request, ready for the next read. */
  ghost predicate Stocked(c: Cache, op: ReadOp, id: nat, more: int) {
    op.key in c.readers && id < |c.buffers| && c.readers[op.key].buffer == Some(id) &&
    c.readers[op.key].lastRead == op.block.offset + op.offset + op.length &&
    var bf := c.buffers[id];
    !bf.dirty && !bf.conflict && bf.offset == op.length && |bf.data| == op.length + more
  }

  /** What the reader's buffer is after a hit: nothing when the hit has used it up. */
  function BufferAfter(c: Cache, op: ReadOp): Option<nat>
    requires Ready(c, op)
  {
    var bf := c.buffers[c.readers[op.key].buffer.value];
    if |bf.data| == bf.offset + op.length then None else c.readers[op.key].buffer
  }

  lemma BufferThere(c: Cache, plain: Store, key: Key)
    requires CacheOk(c, plain) && key in c.readers && c.readers[key].buffer.Some?
    ensures c.readers[key].buffer.value < |c.buffers| && !c.buffers[c.readers[key].buffer.value].deleted
  {
    assert Unfold(0);
    assert ReaderOk(c, plain, key);
  }

  /** Two aligned blocks that both contain a position are the same. */
  lemma SameBlock(a: int, b: int, position: int)
    requires a % FILE_BLOCK_SIZE == 0 && b % FILE_BLOCK_SIZE == 0
    requires a <= position < a + FILE_BLOCK_SIZE && b <= position < b + FILE_BLOCK_SIZE
    ensures a == b
  {
  }

  /** With a stored byte at or behind the end of the request the zero-filled range is transparent. */
  lemma HitTransparent(m: map<int, Byte>, op: ReadOp, q: int)
    requires op.length > 0 && op.offset + op.length - 1 <= q < FILE_BLOCK_SIZE && q in m
    ensures Transparent(m, op, Fill(m, op.offset, op.length))
  {
    if q == op.offset + op.length - 1 {
      ReadIsFill(m, op.offset, op.length);
    } else {
      assert Between(op.offset + op.length, q, FILE_BLOCK_SIZE);
    }
  }

  /** A valid buffer that is long enough holds the answer. */
  lemma HitIs(c: Cache, plain: Store, op: ReadOp, id: nat)
    requires CacheOk(c, plain) && op.Proper() && Successive(c, op) && c.readers[op.key].buffer == Some(id)
    requires id < |c.buffers| && c.buffers[id].Usable() && op.length <= |c.buffers[id].data| - c.buffers[id].offset
    ensures CacheOk(Take(c, op.key, id, op.length), plain)
    ensures var bf := c.buffers[id]; var hit := bf.data[bf.offset..bf.offset + op.length];
            hit == Fill(Of(plain, op.block), op.offset, op.length) && Transparent(Of(plain, op.block), op, hit)
  {
    var bf := c.buffers[id];
    TakeKeeps(c, plain, op.key, id, op.length);
    SameBlock(bf.bid, op.block.offset, c.readers[op.key].lastRead);
    HitTransparent(Of(plain, op.block), op, op.offset + |bf.data| - bf.offset - 1);
  }

  lemma BuffersThere(c: Cache, plain: Store, b: Block)
    requires CacheOk(c, plain)
    ensures forall x | x in c.List(b) :: x.buffer < |c.buffers|
  {
    assert Unfold(0);
    assert IndexOk(c, b);
  }

  /** A range that stays registered although the write has marked its buffer. */
  lemma StaleEntry(c: Cache, c': Cache, plain: Store, b: Block, size: SliceSize, x: Indexed)
    requires x in c.List(b) && x in c'.List(b) && Overlaps(size, x.range) && x.buffer < |c.buffers|
    requires c'.buffers == Invalidate(c, b, size).buffers
    ensures !CacheOk(c', plain)
  {
    assert Unfold(0);
    assert Hit(c.List(b), size, x.buffer);
    assert !IndexOk(c', b);
  }

  class ReadClient {
    const config: ReadConfig
    const store: WriteCombiner.Combiner
    var readers: map<Key, Reader>
    var buffers: seq<Buffer>
    var index: map<Block, seq<Indexed>>

    ghost function Snap(): Cache
      reads this
    {
      Cache(readers, buffers, index)
    }

    ghost predicate Valid()
      reads this, store
    {
      store.Valid() && CacheOk(Snap(), store.plain)
    }

    constructor (config: ReadConfig, store: WriteCombiner.Combiner)
      requires store.Valid()
      ensures this.config == config && this.store == store && Valid() && Snap() == Cache(map[], [], map[])
    {
      this.config, this.store := config, store;
      readers, buffers, index := map[], [], map[];
    }

    /** How much to read beyond the request. */
    method AheadBytes(op: ReadOp, successive: nat, capacity: Option<int>) returns (ahead: int)
      requires op.Proper()
      ensures ahead == Ahead(config, op, successive, capacity)
      ensures ahead > 0 ==> op.length + ahead <= FILE_BLOCK_SIZE - op.offset && op.length + ahead <= config.maxBuffer
      ensures if op.length >= config.skipSize then ahead == 0
              else ahead == Wanted(config, op, successive, capacity) - op.length
    {
      if op.length >= config.skipSize || FILE_BLOCK_SIZE - op.offset <= 0 {
        return 0;
      }
      var remain := FILE_BLOCK_SIZE - op.offset;
      var max := if remain < config.maxBuffer then remain else config.maxBuffer;
      var bytes;
      if capacity.Some? {
        bytes := capacity.value * 2;
      } else {
        bytes := 512;
        while bytes < op.length
          invariant bytes > 0 && DoubleTo(bytes, op.length) == DoubleTo(512, op.length)
          decreases op.length - bytes
        {
          bytes := bytes * 2;
        }
        var i := 0;
        while i < successive && bytes < max
          invariant i <= successive && bytes > 0
          invariant DoubleUp(bytes, successive - i, max) == DoubleUp(DoubleTo(512, op.length), successive, max)
        {
          bytes := bytes * 2;
          i := i + 1;
        }
        if bytes < config.minBuffer {
          bytes := config.minBuffer;
        }
      }
      ahead := (if bytes < max then bytes else max) - op.length;
    }

    method ReleaseBuffer(key: Key)
      requires Valid() && key in readers && readers[key].buffer.Some?
      modifies this
      ensures Valid() && Shrinks(old(Snap()), Snap()) &&
              readers == old(readers)[key := old(readers)[key].(buffer := None)]
      ensures |buffers| == |old(buffers)| && OthersStay(old(Snap()), Snap(), key.tid)
      ensures var id := old(readers)[key].buffer.value;
              id < |old(buffers)| && buffers == old(buffers)[id := old(buffers)[id].(deleted := true)]
    {
      UnbufferKeeps(Snap(), store.plain, key);
      UnbufferOthers(Snap(), store.plain, key);
      var id := readers[key].buffer.value;
      var b := Block(key.oid, buffers[id].bid);
      if !buffers[id].conflict {
        index := index[b := Drop(if b in index then index[b] else [], key.tid)];
      }
      buffers := buffers[id := buffers[id].(deleted := true)];
      readers := readers[key := readers[key].(buffer := None)];
    }

    /** The reclaim callback: the hash table may drop a reader at any time, and its buffer with it. */
    method Reclaim(key: Key)
      requires Valid()
      modifies this
      ensures Valid() && Shrinks(old(Snap()), Snap()) && readers == old(readers) - {key}
    {
      if key in readers && readers[key].buffer.Some? {
        ReleaseBuffer(key);
      }
      ForgetKeeps(Snap(), store.plain, key);
      readers := readers - {key};
    }

    /** Serves a successive read from the thread's buffer if it is valid and long enough. */
    method TryHit(op: ReadOp, expired: bool) returns (hit: seq<Byte>)
      requires Valid() && op.Proper() && op.key in readers && readers[op.key].lastRead == op.block.offset + op.offset
      modifies this
      ensures Valid() && Tame(old(Snap()), Snap(), op) && OthersStay(old(Snap()), Snap(), op.key.tid)
      ensures readers.Keys == old(readers).Keys
      ensures hit == [] ==> Snap() == old(Snap())
      ensures hit != [] <==> !expired && Ready(old(Snap()), op)
      ensures hit != [] <==>
                !expired && old(readers)[op.key].buffer.Some? &&
                var id := old(readers)[op.key].buffer.value;
                id < |old(buffers)| && !old(buffers)[id].dirty && !old(buffers)[id].conflict &&
                op.length <= |old(buffers)[id].data| - old(buffers)[id].offset
      ensures hit != [] ==>
                hit == Fill(Of(store.plain, op.block), op.offset, op.length) && op.key in readers &&
                Transparent(Of(store.plain, op.block), op, hit) &&
                readers[op.key].lastRead == old(readers)[op.key].lastRead + op.length &&
                readers[op.key].successive == old(readers)[op.key].successive + 1 &&
                readers[op.key].buffer == BufferAfter(old(Snap()), op)
    {
      hit := [];
      var r := readers[op.key];
      if r.buffer == None {
        return;
      }
      BufferThere(Snap(), store.plain, op.key);
      var id := r.buffer.value;
      var bf := buffers[id];
      if !bf.dirty && !bf.conflict && !expired && op.length <= |bf.data| - bf.offset {
        hit := TakeHit(op, id);
      }
    }

    /** The bytes of a hit; a buffer that is used up is released. */
    method TakeHit(op: ReadOp, id: nat) returns (hit: seq<Byte>)
      requires Valid() && op.Proper() && op.key in readers && readers[op.key].lastRead == op.block.offset + op.offset
      requires Ready(Snap(), op) && readers[op.key].buffer == Some(id)
      modifies this
      ensures Valid() && Tame(old(Snap()), Snap(), op) && OthersStay(old(Snap()), Snap(), op.key.tid) && hit != []
      ensures readers.Keys == old(readers).Keys
      ensures hit == Fill(Of(store.plain, op.block), op.offset, op.length)
      ensures Transparent(Of(store.plain, op.block), op, hit) && op.key in readers
      ensures readers[op.key].lastRead == old(readers)[op.key].lastRead + op.length
      ensures readers[op.key].successive == old(readers)[op.key].successive + 1
      ensures readers[op.key].buffer == BufferAfter(old(Snap()), op)
    {
      BufferThere(Snap(), store.plain, op.key);
      HitIs(Snap(), store.plain, op, id);
      var bf := buffers[id];
      hit := bf.data[bf.offset..bf.offset + op.length];
      Advance(op, id);
      if |bf.data| - (bf.offset + op.length) == 0 {
        ReleaseBuffer(op.key);
      }
    }

    /** Buffer and reader step over the bytes of the request. */
    method Advance(op: ReadOp, id: nat)
      requires Valid() && op.length >= 0 && op.key in readers && id < |buffers|
      requires CacheOk(Take(Snap(), op.key, id, op.length), store.plain)
      modifies this
      ensures Valid() && Snap() == Take(old(Snap()), op.key, id, op.length)
    {
      var r, bf := readers[op.key], buffers[id];
      buffers := buffers[id := bf.(offset := bf.offset + op.length)];
      readers := readers[op.key := Reader(r.successive + 1, r.lastRead + op.length, r.buffer)];
    }

    /** Without a hit the old buffer is given up. */
    method MoveOn(op: ReadOp, count: nat)
      requires Valid() && op.key in readers
      modifies this
      ensures Valid() && Tame(old(Snap()), Snap(), op) && op.key in readers
      ensures |buffers| == |old(buffers)| && OthersStay(old(Snap()), Snap(), op.key.tid)
      ensures readers.Keys == old(readers).Keys
      ensures readers[op.key] == Reader(count, op.block.offset + op.offset + op.length, None)
    {
      if readers[op.key].buffer.Some? {
        ReleaseBuffer(op.key);
      }
      var r := Reader(count, op.block.offset + op.offset + op.length, None);
      SetReaderKeeps(Snap(), store.plain, op.key, r);
      readers := readers[op.key := r];
    }

    /** The locked lookup of a read: a hit, or the start of a buffer of `size` bytes, or neither. */
    method Lookup(op: ReadOp, chance: Chance) returns (hit: seq<Byte>, fill: Option<nat>, size: int)
      requires Valid() && op.Proper()
      modifies this
      ensures Valid() && Tame(old(Snap()), Snap(), op) && OthersStay(old(Snap()), Snap(), op.key.tid)
      ensures hit != [] <==> IsHit(old(Snap()), op, chance)
      ensures hit != [] ==>
                hit == Fill(Of(store.plain, op.block), op.offset, op.length) && fill == None &&
                Transparent(Of(store.plain, op.block), op, hit) &&
                op.key in readers && readers[op.key].buffer == BufferAfter(old(Snap()), op)
      ensures hit == [] ==> size == SizeOf(old(Snap()), config, op, chance) && (fill.Some? <==> size > op.length)
      ensures fill.Some? ==>
                fill.value == |old(buffers)| && Prepared(Snap(), op, fill.value) &&
                op.length < size <= FILE_BLOCK_SIZE - op.offset
      ensures !Successive(old(Snap()), op) ==>
                op.key in readers && readers[op.key] == Reader(0, op.block.offset + op.offset + op.length, None)
      ensures readers.Keys == old(readers).Keys + {op.key}
      ensures old(op.key !in readers) ==> index == old(index) && buffers == old(buffers)
    {
      if op.key !in readers {
        hit, fill, size := [], None, op.length;
        var r := Reader(0, op.block.offset + op.offset + op.length, None);
        SetReaderKeeps(Snap(), store.plain, op.key, r);
        readers := readers[op.key := r];
      } else {
        hit, fill, size := LookupKnown(op, chance);
      }
    }

    /** The lookup of a thread that has read before. */
    method LookupKnown(op: ReadOp, chance: Chance) returns (hit: seq<Byte>, fill: Option<nat>, size: int)
      requires Valid() && op.Proper() && op.key in readers
      modifies this
      ensures Valid() && Tame(old(Snap()), Snap(), op) && OthersStay(old(Snap()), Snap(), op.key.tid)
      ensures readers.Keys == old(readers).Keys
      ensures hit != [] <==> IsHit(old(Snap()), op, chance)
      ensures hit != [] ==>
                hit == Fill(Of(store.plain, op.block), op.offset, op.length) && fill == None &&
                Transparent(Of(store.plain, op.block), op, hit) &&
                op.key in readers && readers[op.key].buffer == BufferAfter(old(Snap()), op)
      ensures hit == [] ==> size == SizeOf(old(Snap()), config, op, chance) && (fill.Some? <==> size > op.length)
      ensures fill.Some? ==>
                fill.value == |old(buffers)| && Prepared(Snap(), op, fill.value) &&
                op.length < size <= FILE_BLOCK_SIZE - op.offset
      ensures !Successive(old(Snap()), op) ==>
                op.key in readers && readers[op.key] == Reader(0, op.block.offset + op.offset + op.length, None)
    {
      hit, fill, size := [], None, op.length;
      var ahead := 0;
      var successive := op.block.offset + op.offset == readers[op.key].lastRead;
      var count := if successive then readers[op.key].successive + 1 else 0;
      if successive {
        hit := TryHit(op, chance.expired);
        if hit != [] {
          return;
        }
        var capacity := OldCapacity(op.key);
        ahead := AheadBytes(op, count, capacity);
      }
      MoveOn(op, count);
      fill, size := StartAhead(op, ahead, chance);
    }

    method OldCapacity(key: Key) returns (capacity: Option<int>)
      requires Valid() && key in readers
      ensures readers[key].buffer == None ==> capacity == None
      ensures readers[key].buffer.Some? ==>
                readers[key].buffer.value < |buffers| && capacity == Some(buffers[readers[key].buffer.value].capacity)
    {
      capacity := None;
      if readers[key].buffer.Some? {
        BufferThere(Snap(), store.plain, key);
        capacity := Some(buffers[readers[key].buffer.value].capacity);
      }
    }

    /** A buffer for `ahead` more bytes, if any are wanted and it is granted. */
    method StartAhead(op: ReadOp, ahead: int, chance: Chance) returns (fill: Option<nat>, size: int)
      requires Valid() && op.Proper() && op.key in readers && readers[op.key].buffer == None
      requires readers[op.key].lastRead == op.block.offset + op.offset + op.length
      modifies this
      ensures Valid() && index == old(index) && readers.Keys == old(readers).Keys
      ensures fill == if ahead > 0 && chance.granted then Some(|old(buffers)|) else None
      ensures size == if fill.Some? then op.length + ahead else op.length
      ensures if fill.Some? then Prepared(Snap(), op, fill.value) else Snap() == old(Snap())
    {
      fill, size := None, op.length;
      if ahead > 0 && chance.granted {
        size := op.length + ahead;
        fill := Some(|buffers|);
        StartBuffer(op, chance.capacity);
      }
    }

    /** A new buffer, still dirty, for the reader. */
    method StartBuffer(op: ReadOp, capacity: int)
      requires Valid() && op.Proper() && op.key in readers && readers[op.key].buffer == None
      requires readers[op.key].lastRead == op.block.offset + op.offset + op.length
      modifies this
      ensures Valid() && index == old(index) && Prepared(Snap(), op, |old(buffers)|)
      ensures readers.Keys == old(readers).Keys
    {
      NewBufferKeeps(Snap(), store.plain, op.key, op.block.offset, op.length, capacity);
      readers := readers[op.key := readers[op.key].(buffer := Some(|buffers|))];
      buffers := buffers + [Buffer(op.key, op.block.offset, false, true, false, op.length, [], capacity,
                                   SliceSize(0, 0))];
    }

    /** The longer read for a new buffer.  If it gets beyond the request, the rest is kept and its range
        registered in front of the other threads' ranges; otherwise the buffer is never used. */
    method ReadLonger(op: ReadOp, id: nat, size: int) returns (data: seq<Byte>)
      requires Valid() && op.Proper() && Prepared(Snap(), op, id) && op.length < size <= FILE_BLOCK_SIZE - op.offset
      modifies this, store
      ensures Valid() && store.plain == old(store.plain) && Tame(old(Snap()), Snap(), op) && readers == old(readers)
      ensures var m := Of(store.plain, op.block);
              data == (if Extent(m, op.offset, size) > op.length then Fill(m, op.offset, op.length)
                       else Read(m, op.offset, op.length)) &&
              Transparent(m, op, data)
      ensures var more := Extent(Of(store.plain, op.block), op.offset, size) - op.length;
              if more > 0 then
                Snap().List(op.block) == [Indexed(op.key.tid, SliceSize(op.offset + op.length, more), id)] +
                                         Others(old(Snap()), op.block, op.key.tid) &&
                Stocked(Snap(), op, id, more)
              else index == old(index) && buffers == old(buffers)[id := old(buffers)[id].(conflict := true)]
    {
      data := store.SliceRead(op.block, SliceSize(op.offset, size));
      LongRead(Of(store.plain, op.block), op.offset, op.length, size);
      if |data| > op.length {
        HitTransparent(Of(store.plain, op.block), op, op.offset + |data| - 1);
        Store(op, id, data);
        data := data[..op.length];
      } else {
        SpoilKeeps(Snap(), store.plain, id);
        buffers := buffers[id := buffers[id].(conflict := true)];
      }
    }

    /** A read gives exactly the answer stated above, which is the plain read unless something is stored
        behind the request in the same block. */
    method SliceRead(op: ReadOp, chance: Chance) returns (data: seq<Byte>)
      requires Valid() && op.Proper()
      modifies this, store
      ensures Valid() && store.plain == old(store.plain) && Tame(old(Snap()), Snap(), op)
      ensures data == Answer(old(Snap()), config, op, chance, Of(store.plain, op.block))
      ensures Transparent(Of(store.plain, op.block), op, data)
      ensures IsHit(old(Snap()), op, chance) ==>
                op.key in readers && readers[op.key].buffer == BufferAfter(old(Snap()), op)
      ensures !Successive(old(Snap()), op) ==>
                op.key in readers && readers[op.key] == Reader(0, op.block.offset + op.offset + op.length, None)
      ensures readers.Keys == old(readers).Keys + {op.key}
      ensures old(op.key !in readers) ==> index == old(index) && buffers == old(buffers)
      ensures var more := Beyond(old(Snap()), config, op, chance, Of(store.plain, op.block));
              if more > 0 then
                Snap().List(op.block) == [Indexed(op.key.tid, SliceSize(op.offset + op.length, more), |old(buffers)|)] +
                                         Others(old(Snap()), op.block, op.key.tid) &&
                Stocked(Snap(), op, |old(buffers)|, more)
              else OthersStay(old(Snap()), Snap(), op.key.tid)
    {
      var fill, size;
      data, fill, size := Lookup(op, chance);
      if data != [] {
        return;
      }
      if fill == None {
        data := store.SliceRead(op.block, op.Size());
      } else {
        data := ReadLonger(op, fill.value, size);
      }
    }

    /** The bytes beyond the request go into the buffer, and its range into the index. */
    method Store(op: ReadOp, id: nat, data: seq<Byte>)
      requires Valid() && op.Proper() && Prepared(Snap(), op, id)
      requires op.length < |data| <= FILE_BLOCK_SIZE - op.offset
      requires forall k | 0 <= k < |data| :: data[k] == ByteAt(Of(store.plain, op.block), op.offset + k)
      requires op.offset + |data| - 1 in Of(store.plain, op.block)
      modifies this
      ensures Valid() && Tame(old(Snap()), Snap(), op)
      ensures Snap() == Register(old(Snap()), op.key, id, data, SliceSize(op.offset + op.length, |data| - op.length))
    {
      var range := SliceSize(op.offset + op.length, |data| - op.length);
      RegisterKeeps(Snap(), store.plain, op.key, id, data, range);
      buffers := buffers[id := buffers[id].(dirty := false, data := data, range := range)];
      var others := Drop(if op.block in index then index[op.block] else [], op.key.tid);
      index := index[op.block := [Indexed(op.key.tid, range, id)] + others];
    }

    /** Marks the buffers of all ranges a write overlaps, and unregisters these ranges unless two of them
        are adjacent in the list. */
    method InvalidateConflicts(b: Block, size: SliceSize)
      modifies this
      ensures buffers == Invalidate(old(Snap()), b, size).buffers && readers == old(readers)
      ensures Snap() == Invalidate(old(Snap()), b, size) <==> old(NoAdjacent(Hits(Snap().List(b), size)))
      ensures (exists x :: Listed(Snap(), b, x) && Listed(old(Snap()), b, x) && Overlaps(size, x.range)) <==>
              !old(NoAdjacent(Hits(Snap().List(b), size)))
    {
      var list := if b in index then index[b] else [];
      var left, removed := Detach(list, size);
      index := index[b := left];
      MarkAll(removed);
      forall k | 0 <= k < |buffers| ensures Marked(removed, |removed|, k) <==> Hit(list, size, k) {
        MarkedAll(removed, list, size, k);
      }
      assert Snap().List(b) == left && Invalidate(old(Snap()), b, size).List(b) == Keep(list, size);
      if x :| x in left && x in list && Overlaps(size, x.range) {
        assert Listed(Snap(), b, x) && Listed(old(Snap()), b, x);
      }
    }

    method MarkAll(removed: seq<Indexed>)
      modifies this`buffers
      ensures |buffers| == |old(buffers)|
      ensures forall k | 0 <= k < |buffers| ::
                buffers[k] ==
                if Marked(removed, |removed|, k) then old(buffers)[k].(conflict := true) else old(buffers)[k]
    {
      var i := 0;
      while i < |removed|
        invariant i <= |removed| && |buffers| == |old(buffers)|
        invariant forall k | 0 <= k < |buffers| ::
                    buffers[k] == if Marked(removed, i, k) then old(buffers)[k].(conflict := true) else old(buffers)[k]
      {
        var id := removed[i].buffer;
        MarkedNext(removed, i);
        if id < |buffers| {
          buffers := buffers[id := buffers[id].(conflict := true)];
        }
        i := i + 1;
      }
    }

    /** A write goes to the store.  The cache stays valid, so that every later read sees the write, exactly
        when it does not hit two adjacent ranges of the index. */
    method SliceWrite(op: Op)
      requires Valid() && op.data != []
      modifies this, store
      ensures store.Valid() && store.plain == Put(old(store.plain), op.block, op.offset, op.data)
      ensures Valid() <==> old(NoAdjacent(Hits(Snap().List(op.block), op.Size())))
      ensures Valid() ==> Shrinks(old(Snap()), Snap())
      ensures !Valid() ==> exists x :: Listed(Snap(), op.block, x) && Overlaps(op.Size(), x.range)
    {
      ghost var c := Snap();
      InvalidateKeeps(c, store.plain, op);
      BuffersThere(c, store.plain, op.block);
      var combined, written, gained, conflicts := store.SliceWrite(op);
      InvalidateConflicts(op.block, op.Size());
      if x :| Listed(Snap(), op.block, x) && Listed(c, op.block, x) && Overlaps(op.Size(), x.range) {
        StaleEntry(c, Snap(), store.plain, op.block, op.Size(), x);
      }
    }

    method ServeOne(r: Request, ghost owner: Block -> int) returns (answer: seq<Byte>)
      requires Valid() && Owned(Snap(), owner) && Allowed(r, owner)
      modifies this, store
      ensures Valid() && Owned(Snap(), owner) && store.plain == Effect(old(store.plain), r)
      ensures Correct(old(store.plain), r, answer)
    {
      match r {
        case Get(read, chance) => answer := SliceRead(read, chance);
        case Set(write) =>
          OwnedNoAdjacent(Snap(), store.plain, owner, write.block, write.Size());
          SliceWrite(write);
          answer := [];
        case Evict(key) =>
          Reclaim(key);
          answer := [];
      }
    }

    /** With one reading thread per block, every run of reads and writes through both caches, with reclaims
        at any time, has the contents of the plain store, and every answer is transparent. */
    method Serve(requests: seq<Request>, ghost owner: Block -> int) returns (answers: seq<seq<Byte>>)
      requires Valid() && Owned(Snap(), owner) && forall r | r in requests :: Allowed(r, owner)
      modifies this, store
      ensures Valid() && Owned(Snap(), owner) && store.plain == After(old(store.plain), requests)
      ensures AllCorrect(old(store.plain), requests, answers)
      decreases |requests|
    {
      if requests == [] {
        return [];
      }
      var answer := ServeOne(requests[0], owner);
      var rest := Serve(requests[1..], owner);
      answers := [answer] + rest;
      assert answers[1..] == rest;
    }
  }

  /** What a run is made of: reads and writes of the client, and reclaims of the hash table. */
  datatype Request = Get(read: ReadOp, chance: Chance) | Set(write: Op) | Evict(key: Key)

  /** Each block has one reading thread, given by `owner`. */
  ghost predicate Allowed(r: Request, owner: Block -> int) {
    match r
    case Get(read, _) => read.Proper() && owner(read.block) == read.key.tid
    case Set(write) => write.data != []
    case Evict(_) => true
  }

  function Effect(plain: Store, r: Request): Store {
    if r.Set? then Put(plain, r.write.block, r.write.offset, r.write.data) else plain
  }

  function After(plain: Store, requests: seq<Request>): Store
    decreases |requests|
  {
    if requests == [] then plain else After(Effect(plain, requests[0]), requests[1..])
  }

  ghost predicate Correct(plain: Store, r: Request, answer: seq<Byte>) {
    match r
    case Get(read, _) => Transparent(Of(plain, read.block), read, answer)
    case _ => answer == []
  }

  ghost predicate AllCorrect(plain: Store, requests: seq<Request>, answers: seq<seq<Byte>>)
    decreases |requests|
  {
    |answers| == |requests| &&
    (requests == [] ||
     (Correct(plain, requests[0], answers[0]) && AllCorrect(Effect(plain, requests[0]), requests[1..], answers[1..])))
  }

  /** The answer differs from the plain read exactly when the last byte of the range is missing and the
      read is a hit or the longer read gets beyond the request. */
  lemma AnswerDiffers(c: Cache, config: ReadConfig, op: ReadOp, chance: Chance, m: map<int, Byte>)
    requires op.length > 0
    ensures Answer(c, config, op, chance, m) != Read(m, op.offset, op.length) <==>
            op.offset + op.length - 1 !in m &&
            (IsHit(c, op, chance) ||
             (SizeOf(c, config, op, chance) > op.length &&
              Extent(m, op.offset, SizeOf(c, config, op, chance)) > op.length))
  {
    ReadIsFill(m, op.offset, op.length);
  }

  /** A byte at offset 100 of an otherwise empty block, seen by a read of one byte at offset 1. */
  lemma HoleBeforeByte(m: map<int, Byte>, config: ReadConfig, c: Cache, op: ReadOp, chance: Chance)
    requires m == map[100 := 7] && config == ReadConfig(0, 4096, 4096) && op.offset == op.length == 1 && chance.granted
    requires Successive(c, op) && c.readers[op.key] == Reader(0, op.block.offset + 1, None)
    ensures Answer(c, config, op, chance, m) == [0] && Read(m, 1, 1) == []
  {
    assert DoubleTo(512, 1) == 512 && DoubleUp(512, 1, 4096) == DoubleUp(1024, 0, 4096) == 1024;
    assert SizeOf(c, config, op, chance) == 1024;
    assert 100 in m && Extent(m, 1, 1024) >= 100;
    assert Extent(m, 1, 1) == 0;
  }

  /** It happens: one byte is stored at offset 100, and the second of two successive one-byte reads at the
      start of the block answers with a zero, where the plain read has no data. */
  method LongerThanPlain() returns (client: ReadClient, answer: seq<Byte>)
    ensures client.Valid() && Of(client.store.plain, Block(1, 0)) == map[100 := 7]
    ensures answer == [0] && Read(Of(client.store.plain, Block(1, 0)), 1, 1) == []
  {
    var b, key := Block(1, 0), Key(1, 1);
    var store := new WriteCombiner.Combiner(Config(0, 0, 0));
    var combined, written, gained, conflicts := store.SliceWrite(Op(key, b, 100, [7]));
    assert Of(store.plain, b) == map[100 := 7];
    client := new ReadClient(ReadConfig(0, 4096, 4096), store);
    answer := client.SliceRead(ReadOp(key, b, 0, 1), Chance(false, true, 0));
    HoleBeforeByte(Of(store.plain, b), client.config, client.Snap(), ReadOp(key, b, 1, 1), Chance(false, true, 0));
    answer := client.SliceRead(ReadOp(key, b, 1, 1), Chance(false, true, 0));
  }

  /** Every range in the index belongs to its block's reader. */
  ghost predicate Owned(c: Cache, owner: Block -> int) {
    forall b, x | Listed(c, b, x) :: x.tid == owner(b)
  }

  lemma OwnedNoAdjacent(c: Cache, plain: Store, owner: Block -> int, b: Block, size: SliceSize)
    requires CacheOk(c, plain) && Owned(c, owner)
    ensures NoAdjacent(Hits(c.List(b), size))
  {
    assert Unfold(0);
    assert IndexOk(c, b);
    forall x | x in c.List(b) ensures x.tid == owner(b) { assert Listed(c, b, x); }
    OneReader(c.List(b), size, owner(b));
  }

  /** Four bytes are stored; the second of two successive one-byte reads gets the last two as well. */
  lemma SecondRead(m: map<int, Byte>, config: ReadConfig, c: Cache, op: ReadOp, chance: Chance)
    requires m == map[0 := 7, 1 := 7, 2 := 7, 3 := 7] && config == ReadConfig(0, 4096, 4096)
    requires op.offset == op.length == 1 && chance.granted
    requires Successive(c, op) && c.readers[op.key] == Reader(0, op.block.offset + 1, None)
    ensures Beyond(c, config, op, chance, m) == 2
  {
    assert DoubleTo(512, 1) == 512 && DoubleUp(512, 1, 4096) == DoubleUp(1024, 0, 4096) == 1024;
    assert SizeOf(c, config, op, chance) == 1024;
    assert Extent(m, 1, 1024) == 3 by { assert 3 in m && 1 + Extent(m, 1, 1024) - 1 in m; }
  }

  /** A client whose store holds four bytes. */
  method FourBytes() returns (client: ReadClient)
    ensures fresh(client) && fresh(client.store) && client.Valid() && client.config == ReadConfig(0, 4096, 4096)
    ensures client.Snap() == Cache(map[], [], map[])
    ensures Of(client.store.plain, Block(1, 0)) == map[0 := 7, 1 := 7, 2 := 7, 3 := 7]
  {
    var store := new WriteCombiner.Combiner(Config(0, 0, 0));
    var combined, written, gained, conflicts := store.SliceWrite(Op(Key(1, 1), Block(1, 0), 0, [7, 7, 7, 7]));
    assert Of(store.plain, Block(1, 0)) == map[0 := 7, 1 := 7, 2 := 7, 3 := 7];
    client := new ReadClient(ReadConfig(0, 4096, 4096), store);
  }

  method ReadOnce(client: ReadClient, tid: int)
    requires client.Valid() && Key(1, tid) !in client.readers
    modifies client, client.store
    ensures client.Valid() && client.store.plain == old(client.store.plain)
    ensures client.buffers == old(client.buffers) && client.index == old(client.index)
    ensures client.readers.Keys == old(client.readers).Keys + {Key(1, tid)}
    ensures client.readers[Key(1, tid)] == Reader(0, 1, None)
  {
    var answer := client.SliceRead(ReadOp(Key(1, tid), Block(1, 0), 0, 1), Chance(false, true, 0));
  }

  /** A thread that has not read before reads the first two bytes of the block, one after the other. */
  method ReadTwice(client: ReadClient, tid: int)
    requires client.Valid() && client.config == ReadConfig(0, 4096, 4096) && Key(1, tid) !in client.readers
    requires Of(client.store.plain, Block(1, 0)) == map[0 := 7, 1 := 7, 2 := 7, 3 := 7]
    modifies client, client.store
    ensures client.Valid() && client.store.plain == old(client.store.plain)
    ensures client.readers.Keys == old(client.readers).Keys + {Key(1, tid)}
    ensures Stocked(client.Snap(), ReadOp(Key(1, tid), Block(1, 0), 1, 1), |old(client.buffers)|, 2)
    ensures client.Snap().List(Block(1, 0)) ==
            [Indexed(tid, SliceSize(2, 2), |old(client.buffers)|)] + Others(old(client.Snap()), Block(1, 0), tid)
  {
    var b, key, chance := Block(1, 0), Key(1, tid), Chance(false, true, 0);
    ReadOnce(client, tid);
    var answer: seq<Byte>;
    SecondRead(Of(client.store.plain, b), client.config, client.Snap(), ReadOp(key, b, 1, 1), chance);
    answer := client.SliceRead(ReadOp(key, b, 1, 1), chance);
  }

  /** It happens: two threads read ahead in the same block, and a write of one byte hits both ranges.  The
      index then still lists a range of the overwritten byte. */
  method TwoReadersClash() returns (client: ReadClient)
    ensures client.store.Valid() && !client.Valid()
    ensures exists x :: Listed(client.Snap(), Block(1, 0), x) && Overlaps(SliceSize(2, 1), x.range)
  {
    var b, key := Block(1, 0), Key(1, 1);
    client := FourBytes();
    ReadTwice(client, 1);
    assert client.Snap().List(b) == [Indexed(1, SliceSize(2, 2), 0)];
    ReadTwice(client, 2);
    TwoHits(client.Snap().List(b));
    client.SliceWrite(Op(key, b, 2, [8]));
  }

  /** It happens: a third read asks for exactly what is left of the buffer.  It is a hit, and the buffer is
      given up with its range. */
  method UsesUpBuffer() returns (client: ReadClient, answer: seq<Byte>, ghost before: Cache)
    ensures IsHit(before, ReadOp(Key(1, 1), Block(1, 0), 2, 2), Chance(false, true, 0))
    ensures Key(1, 1) in before.readers && before.readers[Key(1, 1)].buffer == Some(0) && |before.buffers| > 0
    ensures |before.buffers[0].data| - before.buffers[0].offset == 2 && |before.List(Block(1, 0))| == 1
    ensures client.Valid() && answer == [7, 7]
    ensures Key(1, 1) in client.readers && client.readers[Key(1, 1)].buffer == None
    ensures client.Snap().List(Block(1, 0)) == []
  {
    var b, key := Block(1, 0), Key(1, 1);
    client := FourBytes();
    ReadTwice(client, 1);
    before := client.Snap();
    answer := client.SliceRead(ReadOp(key, b, 2, 2), Chance(false, true, 0));
    assert answer == [7, 7];
    assert Others(client.Snap(), b, 1) == Others(before, b, 1) == [];
    OnlyOwn(client.Snap(), client.store.plain, b, key);
  }

  /** A thread without a buffer has no range in the index. */
  lemma OnlyOwn(c: Cache, plain: Store, b: Block, key: Key)
    requires CacheOk(c, plain) && key.oid == b.oid && key in c.readers && c.readers[key].buffer == None
    requires Others(c, b, key.tid) == []
    ensures c.List(b) == []
  {
    assert Unfold(0);
    assert IndexOk(c, b);
    forall x | x in c.List(b) ensures x in Others(c, b, key.tid) { }
    HasMember(c.List(b));
  }

  lemma HasMember(list: seq<Indexed>)
    ensures list == [] || exists x :: x in list
  {
    if list != [] { assert list[0] in list; }
  }

  lemma TwoHits(list: seq<Indexed>)
    requires |list| == 2 && list[0].range == list[1].range == SliceSize(2, 2)
    ensures !NoAdjacent(Hits(list, SliceSize(2, 1)))
  {
    var over := Hits(list, SliceSize(2, 1));
    assert over[0] && over[0 + 1];
  }

  predicate Marked(removed: seq<Indexed>, i: nat, id: nat) {
    exists k :: 0 <= k < i <= |removed| && removed[k].buffer == id
  }

  lemma MarkedNext(removed: seq<Indexed>, i: nat)
    requires i < |removed|
    ensures forall id :: Marked(removed, i + 1, id) <==> Marked(removed, i, id) || id == removed[i].buffer
  {
    forall id ensures Marked(removed, i + 1, id) <==> Marked(removed, i, id) || id == removed[i].buffer {
      if Marked(removed, i + 1, id) {
        var k :| 0 <= k < i + 1 && removed[k].buffer == id;
        assert k < i ==> Marked(removed, i, id);
      }
      if Marked(removed, i, id) {
        var k :| 0 <= k < i && removed[k].buffer == id;
        assert 0 <= k < i + 1;
      }
    }
  }

  lemma MarkedAll(removed: seq<Indexed>, list: seq<Indexed>, size: SliceSize, id: nat)
    requires forall x :: x in removed <==> x in list && Overlaps(size, x.range)
    ensures Marked(removed, |removed|, id) <==> Hit(list, size, id)
  {
    if Marked(removed, |removed|, id) {
      var k :| 0 <= k < |removed| && removed[k].buffer == id;
      assert removed[k] in removed;
    }
    if Hit(list, size, id) {
      var x :| x in list && x.buffer == id && Overlaps(size, x.range);
      assert x in removed;
      var k :| 0 <= k < |removed| && removed[k] == x;
    }
  }
}
