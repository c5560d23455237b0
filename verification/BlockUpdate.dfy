/**
 A block as the server changes it.  A write gets trunk space from the allocator, puts the bytes into the
 trunk files and adds slices to the index; a delete removes slices, and an allocation adds slices for the
 holes.  Through the index the block then holds what the plain block does.
 */
module BlockUpdate {
  import opened Common
  import opened BlockStore
  import opened ObjectBlockIndex
  import opened SliceIO

  /** The contents of the trunk files. */
  type Trunk = Place -> Byte

  predicate InSpace(s: Space, place: Place) {
    place.trunk == s.trunk && s.start <= place.position < s.start + s.size
  }

  /** The allocator hands out no space twice. */
  ghost predicate Apart(spaces: seq<Space>) {
    forall i, j, place | 0 <= i < j < |spaces| && InSpace(spaces[i], place) :: !InSpace(spaces[j], place)
  }

  /** And none that the index refers to. */
  ghost predicate Unused(slices: seq<Slice>, spaces: seq<Space>) {
    forall p, i | At(slices, p).Some? && 0 <= i < |spaces| :: !InSpace(spaces[i], At(slices, p).value)
  }

  /** The bytes stand in the trunk file from the start of the slice's space on. */
  function Stored(trunk: Trunk, s: Slice, bytes: seq<Byte>): Trunk {
    (place: Place) =>
      if place.trunk == s.trunk && s.start <= place.position < s.start + |bytes| then bytes[place.position - s.start]
      else trunk(place)
  }

  ghost predicate AllCut(pieces: seq<Slice>, spaces: seq<Space>) {
    |pieces| == |spaces| && forall i | 0 <= i < |pieces| :: CutFrom(pieces[i], FileSlice, spaces[i])
  }

  ghost predicate Outside(spaces: seq<Space>, place: Place) {
    forall k | 0 <= k < |spaces| :: !InSpace(spaces[k], place)
  }

  /** The first i slices have their bytes, and nothing outside the spaces has changed. */
  ghost predicate Filled(before: Trunk, now: Trunk, pieces: seq<Slice>, spaces: seq<Space>, i: nat, lo: int,
                         data: seq<Byte>) {
    forall u {:trigger Unfold(u)} :: Unfold(u) ==>
      (forall place | Outside(spaces, place) :: now(place) == before(place)) &&
      (forall k, p | 0 <= k < i <= |pieces| && Covers(pieces[k], p) && 0 <= p - lo < |data| ::
         now(pieces[k].PlaceOf(p)) == data[p - lo])
  }

  lemma FilledNext(before: Trunk, now: Trunk, pieces: seq<Slice>, spaces: seq<Space>, i: nat, lo: int, hi: int,
                   data: seq<Byte>)
    requires i < |pieces| && AllCut(pieces, spaces) && Apart(spaces) && Tiles(pieces, lo, hi) && |data| == hi - lo
    requires Filled(before, now, pieces, spaces, i, lo, data)
    ensures lo <= pieces[i].offset && pieces[i].End() <= hi
    ensures Filled(before, Stored(now, pieces[i], data[pieces[i].offset - lo..pieces[i].End() - lo]), pieces, spaces,
                   i + 1, lo, data)
  {
    assert Unfold(0);
    PieceInside(pieces, i, lo, hi);
    var bytes := data[pieces[i].offset - lo..pieces[i].End() - lo];
    var after := Stored(now, pieces[i], bytes);
    assert CutFrom(pieces[i], FileSlice, spaces[i]);
    forall place | Outside(spaces, place) ensures after(place) == before(place) {
      assert !InSpace(spaces[i], place);
    }
    forall k, p | 0 <= k < i + 1 && Covers(pieces[k], p) && 0 <= p - lo < |data|
      ensures after(pieces[k].PlaceOf(p)) == data[p - lo]
    {
      if k < i { KeepsByte(now, pieces, spaces, i, k, p, bytes); }
    }
  }

  /** Writing one slice leaves the others. */
  lemma KeepsByte(now: Trunk, pieces: seq<Slice>, spaces: seq<Space>, i: nat, k: nat, p: int, bytes: seq<Byte>)
    requires k < i < |pieces| && AllCut(pieces, spaces) && Apart(spaces) && Covers(pieces[k], p)
    requires |bytes| == pieces[i].length
    ensures Stored(now, pieces[i], bytes)(pieces[k].PlaceOf(p)) == now(pieces[k].PlaceOf(p))
  {
    assert CutFrom(pieces[i], FileSlice, spaces[i]) && CutFrom(pieces[k], FileSlice, spaces[k]);
    assert InSpace(spaces[k], pieces[k].PlaceOf(p));
    assert !InSpace(spaces[i], pieces[k].PlaceOf(p));
  }

  /** The bytes go to the trunk files piece by piece. */
  method WriteTrunk(before: Trunk, pieces: seq<Slice>, data: seq<Byte>, ghost spaces: seq<Space>, lo: int,
                    ghost hi: int)
    returns (trunk: Trunk)
    requires AllCut(pieces, spaces) && Apart(spaces) && Tiles(pieces, lo, hi) && |data| == hi - lo
    ensures Filled(before, trunk, pieces, spaces, |pieces|, lo, data)
  {
    trunk := before;
    for i := 0 to |pieces|
      invariant Filled(before, trunk, pieces, spaces, i, lo, data)
    {
      FilledNext(before, trunk, pieces, spaces, i, lo, hi, data);
      trunk := Stored(trunk, pieces[i], data[pieces[i].offset - lo..pieces[i].End() - lo]);
    }
  }

  /** fs_slice_write and fs_write_finish: the block then holds the written bytes over what it held, and the
      reported space is what was not stored before. */
  method Write(block: ObjectBlock, before: Trunk, offset: int, data: seq<Byte>, spaces: seq<Space>,
               ghost m: map<int, Byte>)
    returns (trunk: Trunk, gained: int)
    requires block.Valid() && data != [] && Contains(block.slices, m, before)
    requires Suffices(spaces, |data|) && Apart(spaces) && Unused(block.slices, spaces)
    modifies block
    ensures block.Valid() && Contains(block.slices, m + Span(offset, data), trunk)
    ensures gained == |data| - Present(m, offset, |data|)
    ensures forall slices, n | Contains(slices, n, before) && Unused(slices, spaces) :: Contains(slices, n, trunk)
  {
    HeldIsPresent(block.slices, m, before, offset, |data|);
    var pieces := AllocSlices(FileSlice, SliceSize(offset, |data|), spaces);
    trunk := WriteTrunk(before, pieces, data, spaces, offset, offset + |data|);
    gained := AddPieces(block, pieces, offset, offset + |data|);
    WrittenHolds(old(block.slices), block.slices, before, trunk, pieces, spaces, offset, data, m);
    AllOthersHold(before, trunk, pieces, spaces, offset, data);
  }

  lemma AllOthersHold(before: Trunk, now: Trunk, pieces: seq<Slice>, spaces: seq<Space>, lo: int, data: seq<Byte>)
    requires Filled(before, now, pieces, spaces, |pieces|, lo, data)
    ensures forall slices, m | Contains(slices, m, before) && Unused(slices, spaces) :: Contains(slices, m, now)
  {
    forall slices, m | Contains(slices, m, before) && Unused(slices, spaces) ensures Contains(slices, m, now) {
      OthersHold(slices, m, before, now, pieces, spaces, lo, data);
    }
  }

  /** Blocks whose space was not handed out hold what they held. */
  lemma OthersHold(slices: seq<Slice>, m: map<int, Byte>, before: Trunk, now: Trunk, pieces: seq<Slice>,
                   spaces: seq<Space>, lo: int, data: seq<Byte>)
    requires Contains(slices, m, before) && Unused(slices, spaces)
    requires Filled(before, now, pieces, spaces, |pieces|, lo, data)
    ensures Contains(slices, m, now)
  {
    assert Unfold(0);
    forall p ensures At(slices, p).Some? ==> ByteOf(At(slices, p).value, now) == ByteOf(At(slices, p).value, before) {
      if At(slices, p).Some? {
        assert Outside(spaces, At(slices, p).value);
      }
    }
  }

  lemma WrittenHolds(was: seq<Slice>, slices: seq<Slice>, before: Trunk, now: Trunk, pieces: seq<Slice>,
                     spaces: seq<Space>, lo: int, data: seq<Byte>, m: map<int, Byte>)
    requires data != [] && Contains(was, m, before) && Unused(was, spaces) && AllCut(pieces, spaces)
    requires Tiles(pieces, lo, lo + |data|) && Added(was, slices, pieces, |pieces|, lo)
    requires Filled(before, now, pieces, spaces, |pieces|, lo, data)
    ensures Contains(slices, m + Span(lo, data), now)
  {
    var m' := m + Span(lo, data);
    OthersHold(was, m, before, now, pieces, spaces, lo, data);
    AddedHeld(was, slices, pieces, lo, lo + |data|);
    forall p
      ensures if p in m' then At(slices, p).Some? && m'[p] == ByteOf(At(slices, p).value, now)
              else At(slices, p) == None
    {
      if lo <= p < lo + |data| {
        assert InSpan(lo, data, p);
        WrittenAt(was, slices, before, now, pieces, spaces, lo, data, p);
      } else {
        assert At(slices, p) == At(was, p);
      }
    }
  }

  lemma WrittenAt(was: seq<Slice>, slices: seq<Slice>, before: Trunk, now: Trunk, pieces: seq<Slice>,
                  spaces: seq<Space>, lo: int, data: seq<Byte>, p: int)
    requires AllCut(pieces, spaces) && Tiles(pieces, lo, lo + |data|) && Added(was, slices, pieces, |pieces|, lo)
    requires Filled(before, now, pieces, spaces, |pieces|, lo, data) && lo <= p < lo + |data|
    ensures At(slices, p).Some? && ByteOf(At(slices, p).value, now) == data[p - lo]
  {
    var i := AddedAt(was, slices, pieces, lo, lo + |data|, p);
    assert CutFrom(pieces[i], FileSlice, spaces[i]);
    PieceByte(before, now, pieces, spaces, lo, data, i, p);
  }

  lemma PieceByte(before: Trunk, now: Trunk, pieces: seq<Slice>, spaces: seq<Space>, lo: int, data: seq<Byte>, i: nat,
                  p: int)
    requires Filled(before, now, pieces, spaces, |pieces|, lo, data)
    requires i < |pieces| && Covers(pieces[i], p) && 0 <= p - lo < |data|
    ensures now(pieces[i].PlaceOf(p)) == data[p - lo]
  {
    assert Unfold(0);
  }

  /** What the index counts as stored is what the block holds. */
  lemma {:induction false} HeldIsPresent(slices: seq<Slice>, m: map<int, Byte>, trunk: Trunk, offset: int, n: nat)
    requires Contains(slices, m, trunk)
    ensures Held(slices, offset, offset + n) == Present(m, offset, n)
    decreases n
  {
    if n > 0 {
      HeldIsPresent(slices, m, trunk, offset, n - 1);
      assert At(slices, offset + n - 1).Some? <==> offset + n - 1 in m;
    }
  }

  /** fs_delete_slices. */
  method Delete(block: ObjectBlock, target: SliceSize, ghost trunk: Trunk, ghost m: map<int, Byte>)
    returns (ok: bool, freed: int)
    requires block.Valid() && target.length > 0 && Contains(block.slices, m, trunk)
    modifies block
    ensures block.Valid() && Contains(block.slices, Deleted(m, target), trunk)
    ensures freed == Present(m, target.offset, target.length) && (ok <==> freed > 0)
  {
    HeldIsPresent(block.slices, m, trunk, target.offset, target.length);
    ok, freed := block.DeleteSlices(target);
  }

  /** fs_slice_allocate. */
  method Allocate(block: ObjectBlock, target: SliceSize, spaces: SliceSize -> seq<Space>, ghost trunk: Trunk,
                  ghost m: map<int, Byte>)
    returns (gained: int)
    requires block.Valid() && target.length > 0 && Contains(block.slices, m, trunk)
    requires forall h: SliceSize | h.length > 0 :: Suffices(spaces(h), h.length)
    modifies block
    ensures block.Valid() && Contains(block.slices, Allocated(m, target), trunk)
    ensures gained == target.length - Present(m, target.offset, target.length)
  {
    HeldIsPresent(block.slices, m, trunk, target.offset, target.length);
    gained := SliceAllocate(block, target, spaces);
    AllocatedHolds(old(block.slices), block.slices, target, trunk, m);
  }

  lemma AllocatedHolds(was: seq<Slice>, slices: seq<Slice>, target: SliceSize, trunk: Trunk, m: map<int, Byte>)
    requires target.length > 0 && Contains(was, m, trunk)
    requires forall p | At(was, p).Some? || !(target.offset <= p < target.End()) :: At(slices, p) == At(was, p)
    requires forall p | At(was, p) == None && target.offset <= p < target.End() ::
               At(slices, p).Some? && At(slices, p).value.kind == AllocSlice
    ensures Contains(slices, Allocated(m, target), trunk)
  {
    var m' := Allocated(m, target);
    var zeros: seq<Byte> := seq(target.length, _ => 0);
    forall p
      ensures if p in m' then At(slices, p).Some? && m'[p] == ByteOf(At(slices, p).value, trunk)
              else At(slices, p) == None
    {
      if target.offset <= p < target.End() { assert InSpan(target.offset, zeros, p); }
      assert At(was, p).Some? <==> p in m;
    }
  }
}
