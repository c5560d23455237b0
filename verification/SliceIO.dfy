/**
 Reading and allocating a range of a block through its slice index: a read fills the holes between
 the stored pieces with zeros and ends with the last piece; an allocation adds slices for the holes.
 */
module SliceIO {
  import opened Common
  import opened BlockStore
  import opened ObjectBlockIndex

  /** What a trunk position reads as: allocated space that was never written is zero. */
  function ByteOf(place: Place, fetch: Place -> Byte): Byte {
    if place.kind == AllocSlice then 0 else fetch(place)
  }

  function Shown(slices: seq<Slice>, p: int, fetch: Place -> Byte): Byte {
    match At(slices, p) case None => 0 case Some(place) => ByteOf(place, fetch)
  }

  function Zeros(n: nat): (r: seq<Byte>)
    ensures |r| == n && forall i | 0 <= i < n :: r[i] == 0
  {
    if n == 0 then [] else Zeros(n - 1) + [0]
  }

  /** The first n bytes of a piece, read from its trunk file. */
  function Bytes(s: Slice, n: nat, fetch: Place -> Byte): (r: seq<Byte>)
    ensures |r| == n && forall i | 0 <= i < n :: r[i] == ByteOf(s.PlaceOf(s.offset + i), fetch)
  {
    if n == 0 then [] else Bytes(s, n - 1, fetch) + [ByteOf(s.PlaceOf(s.offset + n - 1), fetch)]
  }

  /** Where a walk over the first k pieces stands. */
  function Reached(found: seq<Slice>, k: nat, lo: int): int
    requires k <= |found|
  {
    if k == 0 then lo else found[k - 1].End()
  }

  /** Between two pieces nothing is stored; within a piece the piece is. */
  lemma Piece(found: seq<Slice>, k: nat, lo: int, end: int)
    requires Within(found, lo, end) && k < |found|
    ensures lo <= Reached(found, k, lo) <= found[k].offset < found[k].End() <= end
    ensures forall p | Reached(found, k, lo) <= p < found[k].offset :: At(found, p) == None
    ensures forall p | found[k].offset <= p < found[k].End() :: At(found, p) == Some(found[k].PlaceOf(p))
  {
    forall p | Reached(found, k, lo) <= p < found[k].offset ensures At(found, p) == None {
      AtNone(found, p);
    }
    forall p | found[k].offset <= p < found[k].End() ensures At(found, p) == Some(found[k].PlaceOf(p)) {
      AtSome(found, k, p);
    }
  }

  lemma BehindLast(found: seq<Slice>, lo: int, end: int)
    requires Within(found, lo, end) && lo <= end
    ensures lo <= Reached(found, |found|, lo) <= end
    ensures forall p | Reached(found, |found|, lo) <= p < end :: At(found, p) == None
  {
    forall p | Reached(found, |found|, lo) <= p < end ensures At(found, p) == None {
      AtNone(found, p);
    }
  }

  /** fs_slice_read over the pieces found in the index. */
  method ReadPieces(found: seq<Slice>, lo: int, end: int, fetch: Place -> Byte) returns (buff: seq<Byte>)
    requires Within(found, lo, end)
    ensures |buff| == Reached(found, |found|, lo) - lo
    ensures forall i | 0 <= i < |buff| :: buff[i] == Shown(found, lo + i, fetch)
  {
    buff := [];
    var offset := lo;
    for k := 0 to |found|
      invariant offset == Reached(found, k, lo) && |buff| == offset - lo
      invariant forall i | 0 <= i < |buff| :: buff[i] == Shown(found, lo + i, fetch)
    {
      Piece(found, k, lo, end);
      var s := found[k];
      var hole := s.offset - offset;
      if hole > 0 {
        buff := buff + Zeros(hole);
      }
      buff := buff + Bytes(s, s.length, fetch);
      offset := s.End();
    }
  }

  /** The contents of a block as the index and the trunk files hold them. */
  ghost predicate Contains(slices: seq<Slice>, m: map<int, Byte>, fetch: Place -> Byte) {
    forall p :: if p in m then At(slices, p).Some? && m[p] == ByteOf(At(slices, p).value, fetch)
                else At(slices, p) == None
  }

  /** A read through the index is the read of the plain block. */
  method SliceRead(block: ObjectBlock, target: SliceSize, fetch: Place -> Byte, ghost m: map<int, Byte>)
    returns (buff: seq<Byte>)
    requires block.Valid() && target.length > 0 && Contains(block.slices, m, fetch)
    ensures buff == Read(m, target.offset, target.length)
  {
    var ok, found := block.GetSlices(target);
    buff := ReadPieces(found, target.offset, target.End(), fetch);
    BehindLast(found, target.offset, target.End());
    ReadIs(block.slices, found, target, fetch, m, buff);
  }

  lemma ReadIs(slices: seq<Slice>, found: seq<Slice>, target: SliceSize, fetch: Place -> Byte, m: map<int, Byte>,
               buff: seq<Byte>)
    requires target.length > 0 && Contains(slices, m, fetch) && Within(found, target.offset, target.End())
    requires forall p | target.offset <= p < target.End() :: At(found, p) == At(slices, p)
    requires target.offset <= Reached(found, |found|, target.offset) <= target.End()
    requires forall p | Reached(found, |found|, target.offset) <= p < target.End() :: At(found, p) == None
    requires |buff| == Reached(found, |found|, target.offset) - target.offset
    requires forall i | 0 <= i < |buff| :: buff[i] == Shown(found, target.offset + i, fetch)
    ensures buff == Read(m, target.offset, target.length)
  {
    var n := Extent(m, target.offset, target.length);
    var last := target.offset + |buff| - 1;
    if |buff| > 0 {
      AtSome(found, |found| - 1, last);
      assert last in m;
    }
    assert n > |buff| ==> At(found, target.offset + n - 1) == None;
    assert n == |buff|;
    forall i | 0 <= i < n ensures buff[i] == Read(m, target.offset, target.length)[i] {
      assert At(found, target.offset + i) == At(slices, target.offset + i);
    }
  }

  /* ---------------------------------------------------------------- holes */

  ghost predicate InHole(holes: seq<SliceSize>, p: int) {
    exists k :: 0 <= k < |holes| && holes[k].offset <= p < holes[k].End()
  }

  lemma InHolePush(holes: seq<SliceSize>, h: SliceSize, p: int)
    ensures InHole(holes + [h], p) <==> InHole(holes, p) || h.offset <= p < h.End()
  {
    if InHole(holes, p) {
      var k :| 0 <= k < |holes| && holes[k].offset <= p < holes[k].End();
      assert (holes + [h])[k] == holes[k];
    }
    if h.offset <= p < h.End() {
      assert (holes + [h])[|holes|] == h;
    }
  }

  /** The holes cover exactly the offsets of [lo, to) that are not stored. */
  ghost predicate Complement(found: seq<Slice>, holes: seq<SliceSize>, lo: int, to: int) {
    forall u {:trigger Unfold(u)} :: Unfold(u) ==>
      (forall k | 0 <= k < |holes| :: holes[k].length > 0 && lo <= holes[k].offset && holes[k].End() <= to) &&
      (forall p | lo <= p < to :: InHole(holes, p) <==> At(found, p) == None)
  }

  lemma ComplementMore(found: seq<Slice>, holes: seq<SliceSize>, lo: int, to: int, next: int)
    requires Complement(found, holes, lo, to) && lo <= to <= next
    requires forall p | to <= p < next :: At(found, p) == None
    ensures Complement(found, if to < next then holes + [SliceSize(to, next - to)] else holes, lo, next)
  {
    assert Unfold(0);
    if to < next {
      var h := SliceSize(to, next - to);
      forall p | lo <= p < next ensures InHole(holes + [h], p) <==> At(found, p) == None {
        InHolePush(holes, h, p);
      }
    }
  }

  lemma ComplementPiece(found: seq<Slice>, holes: seq<SliceSize>, lo: int, to: int, next: int)
    requires Complement(found, holes, lo, to) && lo <= to <= next
    requires forall p | to <= p < next :: At(found, p).Some?
    ensures Complement(found, holes, lo, next)
  {
    assert Unfold(0);
  }

  /** The hole between two positions, if any. */
  function Gap(from: int, to: int): seq<SliceSize> {
    if from < to then [SliceSize(from, to - from)] else []
  }

  lemma HoleStep(found: seq<Slice>, k: nat, lo: int, end: int, holes: seq<SliceSize>)
    requires Within(found, lo, end) && k < |found| && Complement(found, holes, lo, Reached(found, k, lo))
    ensures Complement(found, holes + Gap(Reached(found, k, lo), found[k].offset), lo, found[k].End())
  {
    var to := Reached(found, k, lo);
    Piece(found, k, lo, end);
    ComplementMore(found, holes, lo, to, found[k].offset);
    assert holes + [] == holes;
    ComplementPiece(found, holes + Gap(to, found[k].offset), lo, found[k].offset, found[k].End());
  }

  lemma HoleEnd(found: seq<Slice>, lo: int, end: int, holes: seq<SliceSize>)
    requires Within(found, lo, end) && lo <= end && Complement(found, holes, lo, Reached(found, |found|, lo))
    ensures Complement(found, holes + Gap(Reached(found, |found|, lo), end), lo, end)
  {
    BehindLast(found, lo, end);
    ComplementMore(found, holes, lo, Reached(found, |found|, lo), end);
    assert holes + [] == holes;
  }

  /** get_slice_index_holes. */
  method Holes(found: seq<Slice>, target: SliceSize) returns (holes: seq<SliceSize>)
    requires target.length > 0 && Within(found, target.offset, target.End())
    ensures Complement(found, holes, target.offset, target.End())
  {
    holes := [];
    var offset := target.offset;
    for k := 0 to |found|
      invariant offset == Reached(found, k, target.offset) && Complement(found, holes, target.offset, offset)
    {
      HoleStep(found, k, target.offset, target.End(), holes);
      holes := holes + Gap(offset, found[k].offset);
      offset := found[k].End();
    }
    HoleEnd(found, target.offset, target.End(), holes);
    holes := holes + Gap(offset, target.End());
  }

  /** Adding a slice where nothing was stored raises the count by the reported space. */
  lemma HeldGrows(before: seq<Slice>, after: seq<Slice>, h: SliceSize, lo: int, hi: int)
    requires h.length > 0 && lo <= h.offset && h.End() <= hi
    requires forall p | h.offset <= p < h.End() :: At(after, p).Some?
    requires forall p | !(h.offset <= p < h.End()) :: At(after, p) == At(before, p)
    ensures Held(after, lo, hi) == Held(before, lo, hi) + h.length - Held(before, h.offset, h.End())
  {
    HeldSplit(before, lo, h.offset, hi);
    HeldSplit(before, h.offset, h.End(), hi);
    HeldSplit(after, lo, h.offset, hi);
    HeldSplit(after, h.offset, h.End(), hi);
    HeldSame(before, after, lo, h.offset);
    HeldSame(before, after, h.End(), hi);
    HeldAll(after, h.offset, h.End());
  }

  lemma {:induction false} HeldSame(a: seq<Slice>, b: seq<Slice>, lo: int, hi: int)
    requires forall p | lo <= p < hi :: At(a, p) == At(b, p)
    ensures Held(a, lo, hi) == Held(b, lo, hi)
    decreases if lo < hi then hi - lo else 0
  {
    if lo < hi { HeldSame(a, b, lo, hi - 1); }
  }

  /* ---------------------------------------------------------------- space */

  /** A piece of trunk space that the allocator hands out. */
  datatype Space = Space(trunk: int, start: int, size: int)

  ghost function Total(spaces: seq<Space>, n: nat): int
    requires n <= |spaces|
  {
    if n == 0 then 0 else Total(spaces, n - 1) + spaces[n - 1].size
  }

  /** Together the pieces have the length, and none is superfluous. */
  ghost predicate Suffices(spaces: seq<Space>, length: int) {
    |spaces| > 0 && (forall i | 0 <= i < |spaces| :: spaces[i].size > 0) &&
    Total(spaces, |spaces| - 1) < length <= Total(spaces, |spaces|)
  }

  lemma {:induction false} TotalGrows(spaces: seq<Space>, i: nat, j: nat)
    requires i <= j <= |spaces| && forall k | 0 <= k < |spaces| :: spaces[k].size > 0
    ensures Total(spaces, i) <= Total(spaces, j)
    decreases j
  {
    if i < j { TotalGrows(spaces, i, j - 1); }
  }

  /** Slice number k is not empty and starts where the one before ends. */
  ghost predicate Tile(pieces: seq<Slice>, k: nat, lo: int) {
    k < |pieces| && pieces[k].length > 0 && pieces[k].offset == Reached(pieces, k, lo)
  }

  /** The slices cover [lo, hi) one after the other. */
  ghost predicate Tiles(pieces: seq<Slice>, lo: int, hi: int) {
    (forall k | 0 <= k < |pieces| :: Tile(pieces, k, lo)) && Reached(pieces, |pieces|, lo) == hi
  }

  lemma TilesPush(pieces: seq<Slice>, s: Slice, lo: int)
    requires Tiles(pieces, lo, s.offset) && s.length > 0
    ensures Tiles(pieces + [s], lo, s.End())
  {
    forall k | 0 <= k <= |pieces| ensures Tile(pieces + [s], k, lo) {
      assert k < |pieces| ==> Tile(pieces, k, lo);
    }
  }

  lemma {:induction false} TileOf(pieces: seq<Slice>, lo: int, n: nat, p: int) returns (i: nat)
    requires n <= |pieces| && lo <= p < Reached(pieces, n, lo)
    requires forall k | 0 <= k < |pieces| :: Tile(pieces, k, lo)
    ensures i < n && Covers(pieces[i], p)
    decreases n
  {
    if n > 0 && p < pieces[n - 1].offset {
      assert Tile(pieces, n - 1, lo);
      i := TileOf(pieces, lo, n - 1, p);
    } else {
      i := n - 1;
    }
  }

  /** The slice lies in the space. */
  predicate CutFrom(s: Slice, kind: SliceType, space: Space) {
    s.kind == kind && s.trunk == space.trunk && s.start == space.start && 0 < s.length <= space.size
  }

  /** fs_slice_alloc: a slice for each piece of space, the last one cut to what remains. */
  method AllocSlices(kind: SliceType, target: SliceSize, spaces: seq<Space>) returns (pieces: seq<Slice>)
    requires target.length > 0 && Suffices(spaces, target.length)
    ensures |pieces| == |spaces| && Tiles(pieces, target.offset, target.End())
    ensures forall i | 0 <= i < |pieces| :: CutFrom(pieces[i], kind, spaces[i])
  {
    pieces := [];
    var offset, remain := target.offset, target.length;
    for i := 0 to |spaces|
      invariant |pieces| == i && Tiles(pieces, target.offset, offset) && offset + remain == target.End()
      invariant remain == if i < |spaces| then target.length - Total(spaces, i) else 0
      invariant forall k | 0 <= k < i :: CutFrom(pieces[k], kind, spaces[k])
    {
      Remains(spaces, target.length, i);
      var length := if spaces[i].size < remain then spaces[i].size else remain;
      var piece := Slice(kind, offset, length, spaces[i].trunk, spaces[i].start);
      TilesPush(pieces, piece, target.offset);
      pieces := pieces + [piece];
      offset, remain := offset + length, remain - length;
    }
  }

  /** Before the last piece of space something remains beyond it, and the last one is enough. */
  lemma Remains(spaces: seq<Space>, length: int, i: nat)
    requires Suffices(spaces, length) && i < |spaces|
    ensures Total(spaces, i) < length && spaces[i].size > 0
    ensures if i < |spaces| - 1 then Total(spaces, i + 1) < length else length <= Total(spaces, i) + spaces[i].size
  {
    TotalGrows(spaces, i, |spaces| - 1);
    if i < |spaces| - 1 { TotalGrows(spaces, i + 1, |spaces| - 1); }
  }

  /** The first i slices stand in the index, and nothing else has changed. */
  ghost predicate Added(before: seq<Slice>, now: seq<Slice>, pieces: seq<Slice>, i: nat, lo: int) {
    i <= |pieces| &&
    forall u {:trigger Unfold(u)} :: Unfold(u) ==>
      (forall p | !(lo <= p < Reached(pieces, i, lo)) :: At(now, p) == At(before, p)) &&
      (forall k, p | 0 <= k < i && Covers(pieces[k], p) :: At(now, p) == Some(pieces[k].PlaceOf(p)))
  }

  lemma {:induction false} ReachedOrder(pieces: seq<Slice>, lo: int, i: nat, j: nat)
    requires i <= j <= |pieces| && forall k | 0 <= k < |pieces| :: Tile(pieces, k, lo)
    ensures lo <= Reached(pieces, i, lo) <= Reached(pieces, j, lo)
    decreases i + j
  {
    if i < j {
      ReachedOrder(pieces, lo, i, j - 1);
      assert Tile(pieces, j - 1, lo);
    } else if i > 0 {
      ReachedOrder(pieces, lo, i - 1, i - 1);
      assert Tile(pieces, i - 1, lo);
    }
  }

  lemma PieceInside(pieces: seq<Slice>, i: nat, lo: int, hi: int)
    requires Tiles(pieces, lo, hi) && i < |pieces|
    ensures lo <= pieces[i].offset < pieces[i].End() <= hi && pieces[i].offset == Reached(pieces, i, lo)
  {
    assert Tile(pieces, i, lo);
    ReachedOrder(pieces, lo, i, i);
    ReachedOrder(pieces, lo, i + 1, |pieces|);
  }

  lemma AddedNext(before: seq<Slice>, now: seq<Slice>, now': seq<Slice>, pieces: seq<Slice>, i: nat, lo: int, hi: int)
    requires Tiles(pieces, lo, hi) && i < |pieces| && Added(before, now, pieces, i, lo)
    requires forall p :: At(now', p) == if Covers(pieces[i], p) then Some(pieces[i].PlaceOf(p)) else At(now, p)
    ensures Added(before, now', pieces, i + 1, lo)
  {
    assert Unfold(0);
    PieceInside(pieces, i, lo, hi);
    forall k, p | 0 <= k < i && Covers(pieces[k], p) ensures !Covers(pieces[i], p) {
      ReachedOrder(pieces, lo, k + 1, i);
    }
  }

  /** One slice is added. */
  method AddPiece(block: ObjectBlock, pieces: seq<Slice>, i: nat, ghost before: seq<Slice>, ghost lo: int,
                  ghost hi: int)
    returns (alloc: int)
    requires block.Valid() && Tiles(pieces, lo, hi) && i < |pieces| && Added(before, block.slices, pieces, i, lo)
    modifies block
    ensures block.Valid() && Added(before, block.slices, pieces, i + 1, lo)
    ensures alloc == Held(block.slices, lo, hi) - Held(old(block.slices), lo, hi)
  {
    PieceInside(pieces, i, lo, hi);
    alloc := block.AddSlice(pieces[i]);
    AddedNext(before, old(block.slices), block.slices, pieces, i, lo, hi);
    HeldGrows(old(block.slices), block.slices, SliceSize(pieces[i].offset, pieces[i].length), lo, hi);
  }

  /** The slices are added to the index one after the other; the reported space is what was missing. */
  method AddPieces(block: ObjectBlock, pieces: seq<Slice>, ghost lo: int, ghost hi: int) returns (gained: int)
    requires block.Valid() && lo < hi && Tiles(pieces, lo, hi)
    modifies block
    ensures block.Valid() && Added(old(block.slices), block.slices, pieces, |pieces|, lo)
    ensures gained == hi - lo - Held(old(block.slices), lo, hi)
  {
    gained := 0;
    ghost var before := block.slices;
    for i := 0 to |pieces|
      invariant block.Valid() && Added(before, block.slices, pieces, i, lo)
      invariant gained == Held(block.slices, lo, hi) - Held(before, lo, hi)
    {
      var alloc := AddPiece(block, pieces, i, before, lo, hi);
      gained := gained + alloc;
    }
    AddedHeld(before, block.slices, pieces, lo, hi);
  }

  /** Every offset of the range has its slice's place. */
  lemma AddedAt(before: seq<Slice>, now: seq<Slice>, pieces: seq<Slice>, lo: int, hi: int, p: int) returns (i: nat)
    requires lo <= p < hi && Tiles(pieces, lo, hi) && Added(before, now, pieces, |pieces|, lo)
    ensures i < |pieces| && Covers(pieces[i], p) && At(now, p) == Some(pieces[i].PlaceOf(p))
  {
    assert Unfold(0);
    i := TileOf(pieces, lo, |pieces|, p);
  }

  lemma AddedHeld(before: seq<Slice>, now: seq<Slice>, pieces: seq<Slice>, lo: int, hi: int)
    requires lo < hi && Tiles(pieces, lo, hi) && Added(before, now, pieces, |pieces|, lo)
    ensures forall p | !(lo <= p < hi) :: At(now, p) == At(before, p)
    ensures forall p | lo <= p < hi :: At(now, p).Some?
    ensures Held(now, lo, hi) == hi - lo
  {
    assert forall p | !(lo <= p < hi) :: At(now, p) == At(before, p) by { assert Unfold(0); }
    forall p | lo <= p < hi ensures At(now, p).Some? {
      var i := AddedAt(before, now, pieces, lo, hi, p);
    }
    HeldAll(now, lo, hi);
  }

  /** Slices of one kind give every offset of their range that kind of place. */
  lemma AddedKind(before: seq<Slice>, now: seq<Slice>, pieces: seq<Slice>, lo: int, hi: int, kind: SliceType)
    requires lo < hi && Tiles(pieces, lo, hi) && Added(before, now, pieces, |pieces|, lo)
    requires forall i | 0 <= i < |pieces| :: pieces[i].kind == kind
    ensures forall p :: if lo <= p < hi then At(now, p).Some? && At(now, p).value.kind == kind
                        else At(now, p) == At(before, p)
  {
    AddedHeld(before, now, pieces, lo, hi);
    forall p | lo <= p < hi ensures At(now, p).Some? && At(now, p).value.kind == kind {
      var i := AddedAt(before, now, pieces, lo, hi, p);
    }
  }

  /** The first i holes have been given space. */
  ghost predicate Given(before: seq<Slice>, now: seq<Slice>, holes: seq<SliceSize>, i: nat) {
    i <= |holes| &&
    forall u {:trigger Unfold(u)} :: Unfold(u) ==>
      forall p :: if InHole(holes[..i], p) then At(now, p).Some? && At(now, p).value.kind == AllocSlice
                  else At(now, p) == At(before, p)
  }

  lemma GivenNone(before: seq<Slice>, holes: seq<SliceSize>)
    ensures Given(before, before, holes, 0)
  {
  }

  lemma GivenNext(before: seq<Slice>, now: seq<Slice>, now': seq<Slice>, holes: seq<SliceSize>, i: nat)
    requires i < |holes| && Given(before, now, holes, i)
    requires forall p ::
               if holes[i].offset <= p < holes[i].End() then At(now', p).Some? && At(now', p).value.kind == AllocSlice
                         else At(now', p) == At(now, p)
    ensures Given(before, now', holes, i + 1)
  {
    assert Unfold(0);
    forall p ensures InHole(holes[..i + 1], p) <==> InHole(holes[..i], p) || holes[i].offset <= p < holes[i].End() {
      assert holes[..i + 1] == holes[..i] + [holes[i]];
      InHolePush(holes[..i], holes[i], p);
    }
  }

  /** fs_slice_allocate: what is stored stays, every hole of the target gets allocated space, and the
      reported space is what was missing. */
  method SliceAllocate(block: ObjectBlock, target: SliceSize, spaces: SliceSize -> seq<Space>) returns (gained: int)
    requires block.Valid() && target.length > 0
    requires forall h: SliceSize | h.length > 0 :: Suffices(spaces(h), h.length)
    modifies block
    ensures block.Valid()
    ensures forall p | At(old(block.slices), p).Some? || !(target.offset <= p < target.End()) ::
              At(block.slices, p) == At(old(block.slices), p)
    ensures forall p | At(old(block.slices), p) == None && target.offset <= p < target.End() ::
              At(block.slices, p).Some? && At(block.slices, p).value.kind == AllocSlice
    ensures gained == target.length - Held(old(block.slices), target.offset, target.End())
  {
    var ok, found := block.GetSlices(target);
    var holes := Holes(found, target);
    HolesInside(found, holes, target);
    ghost var before := block.slices;
    gained := 0;
    var i := 0;
    GivenNone(before, holes);
    while i < |holes|
      invariant block.Valid() && Given(before, block.slices, holes, i)
      invariant gained == Held(block.slices, target.offset, target.End()) - Held(before, target.offset, target.End())
    {
      ghost var was := block.slices;
      var pieces := AllocSlices(AllocSlice, holes[i], spaces(holes[i]));
      var alloc := AddPieces(block, pieces, holes[i].offset, holes[i].End());
      AddedKind(was, block.slices, pieces, holes[i].offset, holes[i].End(), AllocSlice);
      GivenNext(before, was, block.slices, holes, i);
      HeldGrows(was, block.slices, holes[i], target.offset, target.End());
      gained := gained + alloc;
      i := i + 1;
    }
    AllGiven(before, block.slices, found, holes, target);
  }

  lemma HolesInside(found: seq<Slice>, holes: seq<SliceSize>, target: SliceSize)
    requires Complement(found, holes, target.offset, target.End())
    ensures forall k | 0 <= k < |holes| ::
              holes[k].length > 0 && target.offset <= holes[k].offset && holes[k].End() <= target.End()
  {
    assert Unfold(0);
  }

  lemma AllGiven(before: seq<Slice>, now: seq<Slice>, found: seq<Slice>, holes: seq<SliceSize>, target: SliceSize)
    requires target.length > 0 && Complement(found, holes, target.offset, target.End()) &&
             Given(before, now, holes, |holes|)
    requires forall p | target.offset <= p < target.End() :: At(found, p) == At(before, p)
    ensures forall p | At(before, p).Some? || !(target.offset <= p < target.End()) :: At(now, p) == At(before, p)
    ensures forall p | At(before, p) == None && target.offset <= p < target.End() ::
              At(now, p).Some? && At(now, p).value.kind == AllocSlice
    ensures Held(now, target.offset, target.End()) == target.length
  {
    assert Unfold(0);
    assert holes[..|holes|] == holes;
    forall p ensures InHole(holes, p) <==> target.offset <= p < target.End() && At(before, p) == None {
      if target.offset <= p < target.End() { assert At(found, p) == At(before, p); }
    }
    HeldAll(now, target.offset, target.End());
  }
}
