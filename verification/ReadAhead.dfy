/**
 The read-ahead cache in front of the store.  Each (file, thread) pair has an entry with the file
 position behind its last read and at most one buffer read ahead; a per-block index lists the
 ranges held by buffers so that writes can invalidate them.
 */
module ReadAhead {
  import opened Common
  import opened BlockStore
  import opened WriteCombine
  import opened CombineApi

  /** `range` is the block range registered in the index when the buffer was filled. */
  datatype Buffer = Buffer(key: Key, bid: int, deleted: bool, dirty: bool, conflict: bool,
                           offset: nat, data: seq<Byte>, capacity: int, range: SliceSize)
  {
    function BlockOf(): Block { Block(key.oid, bid) }
    predicate Usable() { !dirty && !conflict && !deleted }
  }

  datatype Reader = Reader(successive: nat, lastRead: int, buffer: Option<nat>)

  datatype Indexed = Indexed(tid: int, range: SliceSize, buffer: nat)

  datatype Cache = Cache(readers: map<Key, Reader>, buffers: seq<Buffer>, index: map<Block, seq<Indexed>>) {
    function List(b: Block): seq<Indexed> { if b in index then index[b] else [] }
  }

  datatype ReadConfig = ReadConfig(minBuffer: int, maxBuffer: int, skipSize: int)

  function ByteAt(m: map<int, Byte>, p: int): Byte { if p in m then m[p] else 0 }

  /* ---------------------------------------------------------------- the block index */

  predicate NoTid(list: seq<Indexed>, tid: int) {
    forall x | x in list :: x.tid != tid
  }

  predicate Distinct(list: seq<Indexed>) {
    list == [] || (NoTid(list[1..], list[0].tid) && Distinct(list[1..]))
  }

  /** Unlinks the thread's entry. */
  function Drop(list: seq<Indexed>, tid: int): (r: seq<Indexed>)
    ensures forall x | x in r :: x in list
    ensures forall x | x in list && x.tid != tid :: x in r
    ensures Distinct(list) ==> Distinct(r) && NoTid(r, tid)
  {
    if list == [] then []
    else if list[0].tid == tid then list[1..]
    else
      var rest := Drop(list[1..], tid);
      assert ([list[0]] + rest)[1..] == rest;
      [list[0]] + rest
  }

  /** The entries whose range does not overlap the write. */
  function Keep(list: seq<Indexed>, size: SliceSize): (r: seq<Indexed>)
    ensures forall x :: x in r <==> x in list && !Overlaps(size, x.range)
    ensures Distinct(list) ==> Distinct(r)
  {
    if list == [] then []
    else
      var rest := Keep(list[1..], size);
      if Overlaps(size, list[0].range) then rest
      else
        assert ([list[0]] + rest)[1..] == rest;
        [list[0]] + rest
  }

  /* ---------------------------------------------------------------- the invariant */

  /** The rest of the buffer is what the file holds from the reader's position on, its last byte is
      stored, and the index knows about it. */
  ghost predicate Holds(c: Cache, plain: Store, key: Key, id: nat)
    requires key in c.readers && id < |c.buffers|
  {
    var bf := c.buffers[id];
    var from := c.readers[key].lastRead - bf.bid;
    bf.offset <= |bf.data| && 0 <= from && from + |bf.data| - bf.offset <= FILE_BLOCK_SIZE &&
    bf.range.length > 0 && bf.range.offset <= from && from + |bf.data| - bf.offset <= bf.range.End() &&
    Indexed(key.tid, bf.range, id) in c.List(bf.BlockOf()) &&
    (bf.offset < |bf.data| ==> from + |bf.data| - bf.offset - 1 in Of(plain, bf.BlockOf())) &&
    (forall k | bf.offset <= k < |bf.data| :: bf.data[k] == ByteAt(Of(plain, bf.BlockOf()), from - bf.offset + k))
  }

  ghost predicate ReaderOk(c: Cache, plain: Store, key: Key)
    requires key in c.readers
  {
    var r := c.readers[key];
    r.buffer.Some? ==>
      r.buffer.value < |c.buffers| && c.buffers[r.buffer.value].key == key && !c.buffers[r.buffer.value].deleted &&
      c.buffers[r.buffer.value].bid % FILE_BLOCK_SIZE == 0 &&
      (c.buffers[r.buffer.value].Usable() ==> Holds(c, plain, key, r.buffer.value))
  }

  ghost predicate IndexOk(c: Cache, b: Block) {
    Distinct(c.List(b)) &&
    forall x | x in c.List(b) ::
      x.buffer < |c.buffers| && c.buffers[x.buffer].Usable() && c.buffers[x.buffer].BlockOf() == b &&
      c.buffers[x.buffer].key.tid == x.tid && c.buffers[x.buffer].range == x.range && x.range.length > 0 &&
      c.buffers[x.buffer].key in c.readers && c.readers[c.buffers[x.buffer].key].buffer == Some(x.buffer)
  }

  ghost predicate CacheOk(c: Cache, plain: Store) {
    forall k {:trigger Unfold(k)} :: Unfold(k) ==>
      (forall key | key in c.readers :: ReaderOk(c, plain, key)) && (forall b :: IndexOk(c, b))
  }

  /* ---------------------------------------------------------------- steps */

  function Unbuffer(c: Cache, key: Key): Cache
    requires key in c.readers && c.readers[key].buffer.Some? && c.readers[key].buffer.value < |c.buffers|
  {
    var id := c.readers[key].buffer.value;
    var bf := c.buffers[id];
    var b := Block(key.oid, bf.bid);
    Cache(c.readers[key := c.readers[key].(buffer := None)],
          c.buffers[id := bf.(deleted := true)],
          if bf.conflict then c.index else c.index[b := Drop(c.List(b), key.tid)])
  }

  function SetReader(c: Cache, key: Key, r: Reader): Cache {
    c.(readers := c.readers[key := r])
  }

  /** The hash table drops the reader's entry. */
  function Forget(c: Cache, key: Key): Cache {
    c.(readers := c.readers - {key})
  }

  /** A new, still dirty, buffer for the reader. */
  function NewBuffer(c: Cache, key: Key, bid: int, length: nat, capacity: int): Cache
    requires key in c.readers
  {
    c.(readers := c.readers[key := c.readers[key].(buffer := Some(|c.buffers|))],
       buffers := c.buffers + [Buffer(key, bid, false, true, false, length, [], capacity, SliceSize(0, 0))])
  }

  /** The buffer is filled and registered. */
  function Register(c: Cache, key: Key, id: nat, data: seq<Byte>, range: SliceSize): Cache
    requires id < |c.buffers|
  {
    var bf := c.buffers[id];
    var b := bf.BlockOf();
    c.(buffers := c.buffers[id := bf.(dirty := false, data := data, range := range)],
       index := c.index[b := [Indexed(key.tid, range, id)] + Drop(c.List(b), key.tid)])
  }

  function Spoil(c: Cache, id: nat): Cache
    requires id < |c.buffers|
  {
    c.(buffers := c.buffers[id := c.buffers[id].(conflict := true)])
  }

  /** A hit hands out the next bytes of the buffer. */
  function Take(c: Cache, key: Key, id: nat, length: nat): Cache
    requires key in c.readers && id < |c.buffers|
  {
    Cache(c.readers[key := Reader(c.readers[key].successive + 1, c.readers[key].lastRead + length,
                                  c.readers[key].buffer)],
          c.buffers[id := c.buffers[id].(offset := c.buffers[id].offset + length)], c.index)
  }

  /** All overlapping ranges are unregistered and their buffers marked. */
  function Invalidate(c: Cache, b: Block, size: SliceSize): Cache {
    c.(buffers := seq(|c.buffers|, i requires 0 <= i < |c.buffers| =>
         if Hit(c.List(b), size, i) then c.buffers[i].(conflict := true) else c.buffers[i]),
       index := c.index[b := Keep(c.List(b), size)])
  }

  predicate Hit(list: seq<Indexed>, size: SliceSize, id: nat) {
    exists x :: x in list && x.buffer == id && Overlaps(size, x.range)
  }

  /* ---------------------------------------------------------------- preservation */

  lemma UnbufferKeeps(c: Cache, plain: Store, key: Key)
    requires CacheOk(c, plain) && key in c.readers && c.readers[key].buffer.Some?
    ensures c.readers[key].buffer.value < |c.buffers| && CacheOk(Unbuffer(c, key), plain)
  {
    assert Unfold(0);
    assert ReaderOk(c, plain, key);
    var c' := Unbuffer(c, key);
    var bf := c.buffers[c.readers[key].buffer.value];
    assert forall b :: IndexOk(c, b);
    forall k | k in c'.readers ensures ReaderOk(c', plain, k) {
      assert ReaderOk(c, plain, k);
    }
    forall b ensures IndexOk(c', b) {
      assert IndexOk(c, b);
      if b == bf.BlockOf() { assert IndexOk(c, bf.BlockOf()); }
    }
  }

  lemma ForgetKeeps(c: Cache, plain: Store, key: Key)
    requires CacheOk(c, plain) && (key in c.readers ==> c.readers[key].buffer == None)
    ensures CacheOk(Forget(c, key), plain)
  {
    assert Unfold(0);
    var c' := Forget(c, key);
    forall k | k in c'.readers ensures ReaderOk(c', plain, k) { assert ReaderOk(c, plain, k); }
    forall b ensures IndexOk(c', b) { assert IndexOk(c, b); }
  }

  lemma InvalidateKeeps(c: Cache, plain: Store, op: Op)
    requires CacheOk(c, plain) && op.data != []
    ensures CacheOk(Invalidate(c, op.block, op.Size()), Put(plain, op.block, op.offset, op.data))
  {
    assert Unfold(0);
    var c' := Invalidate(c, op.block, op.Size());
    var plain' := Put(plain, op.block, op.offset, op.data);
    forall k | k in c'.readers ensures ReaderOk(c', plain', k) {
      assert ReaderOk(c, plain, k);
      var r := c.readers[k];
      if r.buffer.Some? && c'.buffers[r.buffer.value].Usable() {
        InvalidateHolds(c, plain, op, k);
      }
    }
    forall b ensures IndexOk(c', b) {
      assert IndexOk(c, b) && IndexOk(c, op.block);
      forall x | x in c'.List(b) ensures !Hit(c.List(op.block), op.Size(), x.buffer) {
      }
    }
  }

  lemma InvalidateHolds(c: Cache, plain: Store, op: Op, key: Key)
    requires op.data != [] && key in c.readers && ReaderOk(c, plain, key) && c.readers[key].buffer.Some?
    requires Invalidate(c, op.block, op.Size()).buffers[c.readers[key].buffer.value].Usable()
    ensures Holds(Invalidate(c, op.block, op.Size()), Put(plain, op.block, op.offset, op.data), key,
                  c.readers[key].buffer.value)
  {
    var id := c.readers[key].buffer.value;
    var bf := c.buffers[id];
    var plain' := Put(plain, op.block, op.offset, op.data);
    var x := Indexed(key.tid, bf.range, id);
    assert Holds(c, plain, key, id);
    if bf.BlockOf() == op.block {
      assert Overlaps(op.Size(), x.range) ==> Hit(c.List(op.block), op.Size(), id);
      assert Of(plain', op.block) == Of(plain, op.block) + Span(op.offset, op.data);
    }
  }

  lemma SetReaderKeeps(c: Cache, plain: Store, key: Key, r: Reader)
    requires CacheOk(c, plain) && r.buffer == None && (key in c.readers ==> c.readers[key].buffer == None)
    ensures CacheOk(SetReader(c, key, r), plain)
  {
    assert Unfold(0);
    var c' := SetReader(c, key, r);
    forall k | k in c'.readers ensures ReaderOk(c', plain, k) {
      if k != key { assert ReaderOk(c, plain, k); }
    }
    forall b ensures IndexOk(c', b) { assert IndexOk(c, b); }
  }

  lemma NewBufferKeeps(c: Cache, plain: Store, key: Key, bid: int, length: nat, capacity: int)
    requires CacheOk(c, plain) && key in c.readers && c.readers[key].buffer == None && bid % FILE_BLOCK_SIZE == 0
    ensures CacheOk(NewBuffer(c, key, bid, length, capacity), plain)
  {
    assert Unfold(0);
    var c' := NewBuffer(c, key, bid, length, capacity);
    forall k | k in c'.readers ensures ReaderOk(c', plain, k) {
      if k != key { assert ReaderOk(c, plain, k); }
    }
    forall b ensures IndexOk(c', b) { assert IndexOk(c, b); }
  }

  lemma SpoilKeeps(c: Cache, plain: Store, id: nat)
    requires CacheOk(c, plain) && id < |c.buffers| && c.buffers[id].dirty
    ensures CacheOk(Spoil(c, id), plain)
  {
    assert Unfold(0);
    var c' := Spoil(c, id);
    forall k | k in c'.readers ensures ReaderOk(c', plain, k) { assert ReaderOk(c, plain, k); }
    forall b ensures IndexOk(c', b) { assert IndexOk(c, b); }
  }

  lemma RegisterKeeps(c: Cache, plain: Store, key: Key, id: nat, data: seq<Byte>, range: SliceSize)
    requires CacheOk(c, plain) && key in c.readers && c.readers[key].buffer == Some(id) && id < |c.buffers|
    requires var bf := c.buffers[id];
             bf.dirty && !bf.conflict && !bf.deleted && bf.offset <= |data| && range.length == |data| - bf.offset > 0 &&
             c.readers[key].lastRead == bf.bid + range.offset && 0 <= range.offset && range.End() <= FILE_BLOCK_SIZE &&
             range.End() - 1 in Of(plain, bf.BlockOf()) &&
             forall k | bf.offset <= k < |data| ::
               data[k] == ByteAt(Of(plain, bf.BlockOf()), range.offset - bf.offset + k)
    ensures CacheOk(Register(c, key, id, data, range), plain)
  {
    assert Unfold(0);
    assert ReaderOk(c, plain, key);
    var c' := Register(c, key, id, data, range);
    var b0 := c.buffers[id].BlockOf();
    assert IndexOk(c, b0);
    assert c'.List(b0)[1..] == Drop(c.List(b0), key.tid);
    forall k | k in c'.readers ensures ReaderOk(c', plain, k) {
      assert ReaderOk(c, plain, k);
      if k != key && c.readers[k].buffer.Some? && c'.buffers[c.readers[k].buffer.value].Usable() {
        RegisterOthers(c, plain, key, id, data, range, k);
      }
    }
    forall b ensures IndexOk(c', b) { assert IndexOk(c, b); }
  }

  lemma RegisterOthers(c: Cache, plain: Store, key: Key, id: nat, data: seq<Byte>, range: SliceSize, k: Key)
    requires k in c.readers && k != key && ReaderOk(c, plain, k) && c.readers[k].buffer.Some?
    requires id < |c.buffers| && c.buffers[id].key == key
    requires c.buffers[c.readers[k].buffer.value].Usable()
    ensures Holds(Register(c, key, id, data, range), plain, k, c.readers[k].buffer.value)
  {
    var bf := c.buffers[c.readers[k].buffer.value];
    assert Holds(c, plain, k, c.readers[k].buffer.value);
    assert Indexed(k.tid, bf.range, c.readers[k].buffer.value) in c.List(bf.BlockOf());
    assert c.buffers[id].BlockOf() == bf.BlockOf() ==> k.tid != key.tid;
  }

  /** The bytes a hit hands out are those of the file. */
  lemma TakeKeeps(c: Cache, plain: Store, key: Key, id: nat, length: nat)
    requires CacheOk(c, plain) && key in c.readers && c.readers[key].buffer == Some(id) && length > 0
    requires id < |c.buffers| ==> c.buffers[id].Usable() && length <= |c.buffers[id].data| - c.buffers[id].offset
    ensures id < |c.buffers| && CacheOk(Take(c, key, id, length), plain)
    ensures var bf := c.buffers[id];
            0 <= c.readers[key].lastRead - bf.bid < FILE_BLOCK_SIZE && bf.bid % FILE_BLOCK_SIZE == 0 && bf.key == key &&
            c.readers[key].lastRead - bf.bid + |bf.data| - bf.offset <= FILE_BLOCK_SIZE &&
            c.readers[key].lastRead - bf.bid + |bf.data| - bf.offset - 1 in Of(plain, bf.BlockOf()) &&
            bf.data[bf.offset..bf.offset + length] ==
            Fill(Of(plain, bf.BlockOf()), c.readers[key].lastRead - bf.bid, length)
  {
    assert Unfold(0);
    assert ReaderOk(c, plain, key);
    assert Holds(c, plain, key, id);
    var c' := Take(c, key, id, length);
    forall k | k in c'.readers ensures ReaderOk(c', plain, k) {
      assert ReaderOk(c, plain, k);
    }
    forall b ensures IndexOk(c', b) { assert IndexOk(c, b); }
  }
}
