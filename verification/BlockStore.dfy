/**
 The contents of a block as a sparse map from offsets to values, with the slice overlap test and
 the read rule of the store: holes read as zero, and a read ends at the last present offset.
 */
module BlockStore {

  const FILE_BLOCK_SIZE: int := 4 * 1024 * 1024

  type Byte = x: int | 0 <= x < 256

  datatype SliceSize = SliceSize(offset: int, length: int) {
    function End(): int { offset + length }
  }

  function Overlaps(s1: SliceSize, s2: SliceSize): bool {
    if s1.offset < s2.offset then s1.offset + s1.length > s2.offset
    else s2.offset + s2.length > s1.offset
  }

  predicate Between(lo: int, p: int, hi: int) {
    lo <= p < hi
  }

  /** The overlap test is exact on non-empty slices: some offset lies in both. */
  lemma OverlapsExactly(s1: SliceSize, s2: SliceSize)
    requires s1.length > 0 && s2.length > 0
    ensures Overlaps(s1, s2) <==> exists p :: Between(s1.offset, p, s1.End()) && Between(s2.offset, p, s2.End())
  {
    if Overlaps(s1, s2) {
      var p := if s1.offset < s2.offset then s2.offset else s1.offset;
      assert Between(s1.offset, p, s1.End()) && Between(s2.offset, p, s2.End());
    }
  }

  predicate InSpan<T>(offset: int, data: seq<T>, p: int) {
    offset <= p < offset + |data|
  }

  /** The values of one write, placed at its offset. */
  function Span<T>(offset: int, data: seq<T>): map<int, T> {
    map p: int | offset <= p < offset + |data| && InSpan(offset, data, p) :: data[p - offset]
  }

  /** How far a read of `length` values from `offset` gets: up to the last present offset. */
  function Extent<T>(m: map<int, T>, offset: int, length: nat): (n: nat)
    ensures n <= length && (n > 0 ==> offset + n - 1 in m)
    ensures forall p | offset + n <= p < offset + length :: p !in m
  {
    if length == 0 || offset + length - 1 in m then length else Extent(m, offset, length - 1)
  }

  /** How many offsets of a range are stored. */
  function Present<T>(m: map<int, T>, offset: int, length: nat): (n: nat)
    ensures n <= length
  {
    if length == 0 then 0
    else Present(m, offset, length - 1) + (if offset + length - 1 in m then 1 else 0)
  }

  lemma {:induction false} PresentSame<T>(m: map<int, T>, m': map<int, T>, offset: int, length: nat)
    requires forall p | offset <= p < offset + length :: p in m <==> p in m'
    ensures Present(m, offset, length) == Present(m', offset, length)
  {
    if length > 0 { PresentSame(m, m', offset, length - 1); }
  }

  function Fill(m: map<int, Byte>, offset: int, length: nat): (data: seq<Byte>)
    ensures |data| == length
    ensures forall i | 0 <= i < length :: data[i] == if offset + i in m then m[offset + i] else 0
  {
    seq(length, i requires 0 <= i < length => if offset + i in m then m[offset + i] else 0)
  }

  /** A read of the store; an empty result is the "no data" error. */
  function Read(m: map<int, Byte>, offset: int, length: nat): seq<Byte> {
    Fill(m, offset, Extent(m, offset, length))
  }

  function Deleted(m: map<int, Byte>, size: SliceSize): map<int, Byte> {
    map p | p in m && !Between(size.offset, p, size.End()) :: m[p]
  }

  /** Allocation gives the holes of the range space that reads as zero. */
  function Allocated(m: map<int, Byte>, size: SliceSize): map<int, Byte> {
    Span(size.offset, seq(if size.length > 0 then size.length else 0, _ => 0)) + m
  }
}
