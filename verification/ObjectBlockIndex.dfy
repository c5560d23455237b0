/**
 The per-block slice index: an offset-ordered list of non-overlapping slices, each pointing into a
 trunk file.  Adding a slice trims or splits the slices it overlaps, deleting a range likewise.
 The list is proved to behave as the plain partial function from block offsets to trunk positions,
 and the reported space changes are exactly the numbers of offsets gained and lost.
 */
module ObjectBlockIndex {
  import opened Common
  import opened BlockStore

  datatype SliceType = FileSlice | AllocSlice

  /** A trunk position. */
  datatype Place = Place(kind: SliceType, trunk: int, position: int)

  /** An index entry: block range [offset, offset + length), stored from `start` of trunk `trunk`. */
  datatype Slice = Slice(kind: SliceType, offset: int, length: int, trunk: int, start: int) {
    function End(): int { offset + length }

    function PlaceOf(p: int): Place {
      Place(kind, trunk, start + (p - offset))
    }

    /** The same trunk bytes, cut down to [lo, lo + len). */
    function Cut(lo: int, len: int): Slice {
      Slice(kind, lo, len, trunk, start + (lo - offset))
    }
  }

  /** The partial function the first n entries of a slice list stand for. */
  function AtUpTo(slices: seq<Slice>, n: nat, p: int): Option<Place>
    requires n <= |slices|
  {
    if n == 0 then None
    else if Covers(slices[n - 1], p) then Some(slices[n - 1].PlaceOf(p))
    else AtUpTo(slices, n - 1, p)
  }

  function At(slices: seq<Slice>, p: int): Option<Place> {
    AtUpTo(slices, |slices|, p)
  }

  predicate Covers(s: Slice, p: int) {
    s.offset <= p < s.End()
  }

  /** The number of offsets in [lo, hi) that are stored. */
  function Held(slices: seq<Slice>, lo: int, hi: int): nat
    decreases if lo < hi then hi - lo else 0
  {
    if lo >= hi then 0 else Held(slices, lo, hi - 1) + (if At(slices, hi - 1).Some? then 1 else 0)
  }

  /** Ordered by offset, non-empty and non-overlapping. */
  ghost predicate Ordered(slices: seq<Slice>) {
    (forall i | 0 <= i < |slices| :: slices[i].length > 0) &&
    (forall i, j | 0 <= i < j < |slices| :: slices[i].End() <= slices[j].offset)
  }

  /** Ordered, and all slices within [lo, hi). */
  ghost predicate Within(slices: seq<Slice>, lo: int, hi: int) {
    Ordered(slices) && forall i | 0 <= i < |slices| :: lo <= slices[i].offset && slices[i].End() <= hi
  }

  /** No slice of the list contains p. */
  lemma AtNone(slices: seq<Slice>, p: int)
    requires forall i | 0 <= i < |slices| :: !Covers(slices[i], p)
    ensures At(slices, p) == None
  {
    AtUpToNone(slices, |slices|, p);
  }

  lemma {:induction false} AtUpToNone(slices: seq<Slice>, n: nat, p: int)
    requires n <= |slices| && forall i | 0 <= i < n :: !Covers(slices[i], p)
    ensures AtUpTo(slices, n, p) == None
  {
    if n > 0 { AtUpToNone(slices, n - 1, p); }
  }

  /** The slice of an ordered list that contains p determines the result. */
  lemma AtSome(slices: seq<Slice>, k: nat, p: int)
    requires Ordered(slices) && k < |slices| && Covers(slices[k], p)
    ensures At(slices, p) == Some(slices[k].PlaceOf(p))
  {
    AtUpToSome(slices, |slices|, k, p);
  }

  lemma {:induction false} AtUpToSome(slices: seq<Slice>, n: nat, k: nat, p: int)
    requires Ordered(slices) && k < n <= |slices| && Covers(slices[k], p)
    ensures AtUpTo(slices, n, p) == Some(slices[k].PlaceOf(p))
  {
    if k < n - 1 { AtUpToSome(slices, n - 1, k, p); }
  }

  lemma AtPush(slices: seq<Slice>, x: Slice, p: int)
    ensures At(slices + [x], p) == if Covers(x, p) then Some(x.PlaceOf(p)) else At(slices, p)
  {
    AtUpToPrefix(slices, x, |slices|, p);
  }

  lemma {:induction false} AtUpToPrefix(slices: seq<Slice>, x: Slice, n: nat, p: int)
    requires n <= |slices|
    ensures AtUpTo(slices + [x], n, p) == AtUpTo(slices, n, p)
  {
    if n > 0 { AtUpToPrefix(slices, x, n - 1, p); }
  }

  lemma {:induction false} HeldSplit(slices: seq<Slice>, lo: int, mid: int, hi: int)
    requires lo <= mid <= hi
    ensures Held(slices, lo, hi) == Held(slices, lo, mid) + Held(slices, mid, hi)
    decreases hi - mid
  {
    if mid < hi {
      HeldSplit(slices, lo, mid, hi - 1);
    }
  }

  lemma {:induction false} HeldAll(slices: seq<Slice>, lo: int, hi: int)
    requires lo <= hi && forall p | lo <= p < hi :: At(slices, p).Some?
    ensures Held(slices, lo, hi) == hi - lo
    decreases hi - lo
  {
    if lo < hi {
      HeldAll(slices, lo, hi - 1);
    }
  }

  lemma {:induction false} HeldNone(slices: seq<Slice>, lo: int, hi: int)
    requires lo <= hi && forall p | lo <= p < hi :: At(slices, p) == None
    ensures Held(slices, lo, hi) == 0
    decreases hi - lo
  {
    if lo < hi {
      HeldNone(slices, lo, hi - 1);
    }
  }

  /** The first position whose slice starts at or after `offset`. */
  method FindGE(slices: seq<Slice>, offset: int) returns (k: nat)
    requires Ordered(slices)
    ensures k <= |slices|
    ensures forall i | 0 <= i < k :: slices[i].offset < offset
    ensures forall i | k <= i < |slices| :: slices[i].offset >= offset
  {
    k := 0;
    while k < |slices| && slices[k].offset < offset
      invariant k <= |slices|
      invariant forall i | 0 <= i < k :: slices[i].offset < offset
    {
      k := k + 1;
    }
    assert k < |slices| ==> forall i | k < i < |slices| :: slices[k].End() <= slices[i].offset;
  }

  /** Positions i..j of the list are the ones that meet [lo, hi). */
  ghost predicate Meets(slices: seq<Slice>, i: nat, j: nat, lo: int, hi: int) {
    Ordered(slices) && Sides(slices, i, j, lo, hi)
  }

  ghost predicate Sides(slices: seq<Slice>, i: nat, j: nat, lo: int, hi: int) {
    i <= j <= |slices| && lo < hi &&
    (forall x | 0 <= x < i :: slices[x].End() <= lo) &&
    (forall x | i <= x < j :: slices[x].End() > lo && slices[x].offset < hi) &&
    (forall x | j <= x < |slices| :: hi <= slices[x].offset)
  }

  /** The remainder of the first met slice before lo. */
  function LeftRest(slices: seq<Slice>, i: nat, j: nat, lo: int): seq<Slice>
    requires i <= j <= |slices|
  {
    if i < j && slices[i].offset < lo then [slices[i].Cut(slices[i].offset, lo - slices[i].offset)] else []
  }

  /** The remainder of the last met slice from hi on. */
  function RightRest(slices: seq<Slice>, i: nat, j: nat, hi: int): seq<Slice>
    requires i <= j <= |slices|
  {
    if i < j && slices[j - 1].End() > hi then [slices[j - 1].Cut(hi, slices[j - 1].End() - hi)] else []
  }

  /** The list obtained by replacing the part that meets [lo, hi) by `inner` and the two rests. */
  function Replaced(slices: seq<Slice>, i: nat, j: nat, lo: int, hi: int, inner: seq<Slice>): seq<Slice>
    requires i <= j <= |slices|
  {
    slices[..i] + LeftRest(slices, i, j, lo) + inner + (RightRest(slices, i, j, hi) + slices[j..])
  }

  lemma WithinConcat(a: seq<Slice>, b: seq<Slice>, lo: int, mid: int, hi: int)
    requires Within(a, lo, mid) && Within(b, mid, hi) && lo <= mid <= hi
    ensures Within(a + b, lo, hi)
  {
  }

  lemma PartWithin(slices: seq<Slice>, i: nat, j: nat, lo: int, hi: int)
    requires Ordered(slices) && i <= j <= |slices|
    requires i < j ==> lo <= slices[i].offset && slices[j - 1].End() <= hi
    ensures Within(slices[i..j], lo, hi)
  {
    var part := slices[i..j];
    forall x | 0 <= x < |part| ensures lo <= part[x].offset && part[x].End() <= hi && part[x].length > 0 {
      assert part[x] == slices[i + x];
      assert x > 0 ==> slices[i].End() <= slices[i + x].offset;
      assert i + x < j - 1 ==> slices[i + x].End() <= slices[j - 1].offset;
    }
    forall x, y | 0 <= x < y < |part| ensures part[x].End() <= part[y].offset {
      assert part[x] == slices[i + x] && part[y] == slices[i + y];
    }
  }

  /** What stays in front of the range. */
  lemma FrontWithin(slices: seq<Slice>, i: nat, j: nat, lo: int, hi: int) returns (bottom: int)
    requires Meets(slices, i, j, lo, hi)
    ensures bottom <= lo && Within(slices[..i] + LeftRest(slices, i, j, lo), bottom, lo)
  {
    var l := LeftRest(slices, i, j, lo);
    var cut := if l == [] then lo else l[0].offset;
    bottom := if i == 0 then cut else slices[0].offset;
    if i > 0 {
      assert i > 1 ==> slices[0].End() <= slices[i - 1].offset;
      assert l != [] ==> slices[i - 1].End() <= slices[i].offset;
    }
    PartWithin(slices, 0, i, bottom, cut);
    WithinConcat(slices[..i], l, bottom, cut, lo);
  }

  /** What stays behind the range. */
  lemma BackWithin(slices: seq<Slice>, i: nat, j: nat, lo: int, hi: int) returns (top: int)
    requires Meets(slices, i, j, lo, hi)
    ensures hi <= top && Within(RightRest(slices, i, j, hi) + slices[j..], hi, top)
  {
    var r, n := RightRest(slices, i, j, hi), |slices|;
    var cut := if r == [] then hi else r[0].End();
    top := if j == n then cut else slices[n - 1].End();
    if j < n {
      assert j < n - 1 ==> slices[j].End() <= slices[n - 1].offset;
      assert r != [] ==> slices[j - 1].End() <= slices[j].offset;
    }
    PartWithin(slices, j, n, cut, top);
    WithinConcat(r, slices[j..], hi, cut, top);
  }

  lemma ReplacedOrdered(slices: seq<Slice>, i: nat, j: nat, lo: int, hi: int, inner: seq<Slice>)
    requires Meets(slices, i, j, lo, hi) && Within(inner, lo, hi)
    ensures Ordered(Replaced(slices, i, j, lo, hi, inner))
  {
    var bottom := FrontWithin(slices, i, j, lo, hi);
    var top := BackWithin(slices, i, j, lo, hi);
    var front, back := slices[..i] + LeftRest(slices, i, j, lo), RightRest(slices, i, j, hi) + slices[j..];
    WithinConcat(front, inner, bottom, lo, hi);
    WithinConcat(front + inner, back, bottom, hi, top);
  }

  /** What a position of the new list covers: a new slice inside [lo, hi), an old one outside. */
  lemma ReplacedCovers(slices: seq<Slice>, i: nat, j: nat, lo: int, hi: int, inner: seq<Slice>, after: seq<Slice>,
                       x: nat, p: int)
    returns (k: nat)
    requires Sides(slices, i, j, lo, hi)
    requires forall y | 0 <= y < |inner| :: lo <= inner[y].offset && inner[y].End() <= hi
    requires after == Replaced(slices, i, j, lo, hi, inner) && x < |after| && Covers(after[x], p)
    ensures lo <= p < hi ==> k < |inner| && inner[k] == after[x]
    ensures !(lo <= p < hi) ==> k < |slices| && Covers(slices[k], p) && slices[k].PlaceOf(p) == after[x].PlaceOf(p)
  {
    var l, r := LeftRest(slices, i, j, lo), RightRest(slices, i, j, hi);
    var a := i + |l|; var b := a + |inner|; var c := b + |r|;
    var back := slices[j..];
    if x < i {
      k := x;
    } else if x < a {
      k := i;
      assert after[x] == l[0];
    } else if x < b {
      k := x - a;
      assert after[x] == inner[k];
    } else if x < c {
      k := j - 1;
      assert after[x] == (r + back)[x - b] == r[0];
    } else {
      k := j + (x - c);
      assert after[x] == (r + back)[x - b] == back[x - c] == slices[k];
    }
  }

  /** Every covered offset outside [lo, hi) is still covered by the new list. */
  lemma ReplacedKeeps(slices: seq<Slice>, i: nat, j: nat, lo: int, hi: int, inner: seq<Slice>, after: seq<Slice>,
                      k: nat, p: int)
    returns (x: nat)
    requires Meets(slices, i, j, lo, hi)
    requires after == Replaced(slices, i, j, lo, hi, inner) && k < |slices| && Covers(slices[k], p) && !(lo <= p < hi)
    ensures x < |after| && Covers(after[x], p)
  {
    var l, r := LeftRest(slices, i, j, lo), RightRest(slices, i, j, hi);
    var a := i + |l|; var b := a + |inner|; var c := b + |r|;
    var back := slices[j..];
    if k < i {
      x := k;
    } else if k >= j {
      x := c + (k - j);
      assert after[x] == (r + back)[x - b] == back[k - j];
    } else if p < lo {
      x := i;
      assert k == i;
      assert after[x] == l[0];
    } else {
      x := b;
      assert k == j - 1;
      assert after[x] == (r + back)[0] == r[0];
    }
  }

  lemma ReplacedAt(slices: seq<Slice>, i: nat, j: nat, lo: int, hi: int, inner: seq<Slice>, after: seq<Slice>, p: int)
    requires Meets(slices, i, j, lo, hi) && Within(inner, lo, hi)
    requires after == Replaced(slices, i, j, lo, hi, inner) && Ordered(after)
    ensures At(after, p) == if lo <= p < hi then At(inner, p) else At(slices, p)
  {
    if x :| 0 <= x < |after| && Covers(after[x], p) {
      AtSome(after, x, p);
      var k := ReplacedCovers(slices, i, j, lo, hi, inner, after, x, p);
      if lo <= p < hi {
        AtSome(inner, k, p);
      } else {
        AtSome(slices, k, p);
      }
    } else {
      AtNone(after, p);
      if lo <= p < hi {
        InnerNone(slices, i, j, lo, hi, inner, after, p);
      } else {
        OuterNone(slices, i, j, lo, hi, inner, after, p);
      }
    }
  }

  lemma InnerNone(slices: seq<Slice>, i: nat, j: nat, lo: int, hi: int, inner: seq<Slice>, after: seq<Slice>, p: int)
    requires i <= j <= |slices| && after == Replaced(slices, i, j, lo, hi, inner)
    requires forall x | 0 <= x < |after| :: !Covers(after[x], p)
    ensures At(inner, p) == None
  {
    var a := i + |LeftRest(slices, i, j, lo)|;
    forall y | 0 <= y < |inner| ensures !Covers(inner[y], p) {
      assert inner[y] == after[a + y];
    }
    AtNone(inner, p);
  }

  lemma OuterNone(slices: seq<Slice>, i: nat, j: nat, lo: int, hi: int, inner: seq<Slice>, after: seq<Slice>, p: int)
    requires Meets(slices, i, j, lo, hi) && after == Replaced(slices, i, j, lo, hi, inner) && !(lo <= p < hi)
    requires forall x | 0 <= x < |after| :: !Covers(after[x], p)
    ensures At(slices, p) == None
  {
    forall k | 0 <= k < |slices| ensures !Covers(slices[k], p) {
      if Covers(slices[k], p) {
        var x := ReplacedKeeps(slices, i, j, lo, hi, inner, after, k, p);
      }
    }
    AtNone(slices, p);
  }

  /** The new list is ordered; outside [lo, hi) nothing changes, inside the new part counts. */
  lemma ReplacedView(slices: seq<Slice>, i: nat, j: nat, lo: int, hi: int, inner: seq<Slice>, after: seq<Slice>)
    requires Meets(slices, i, j, lo, hi) && Within(inner, lo, hi)
    requires after == Replaced(slices, i, j, lo, hi, inner)
    ensures Ordered(after)
    ensures forall p :: At(after, p) == if lo <= p < hi then At(inner, p) else At(slices, p)
  {
    ReplacedOrdered(slices, i, j, lo, hi, inner);
    forall p ensures At(after, p) == if lo <= p < hi then At(inner, p) else At(slices, p) {
      ReplacedAt(slices, i, j, lo, hi, inner, after, p);
    }
  }

  lemma ReplacedByOne(slices: seq<Slice>, i: nat, j: nat, slice: Slice, after: seq<Slice>)
    requires slice.length > 0 && Meets(slices, i, j, slice.offset, slice.End())
    requires after == Replaced(slices, i, j, slice.offset, slice.End(), [slice])
    ensures Ordered(after)
    ensures forall p :: At(after, p) ==
              if slice.offset <= p < slice.End() then Some(slice.PlaceOf(p)) else At(slices, p)
  {
    ReplacedView(slices, i, j, slice.offset, slice.End(), [slice], after);
    forall p | slice.offset <= p < slice.End() ensures At([slice], p) == Some(slice.PlaceOf(p)) {
      AtSome([slice], 0, p);
    }
  }

  /** Where the scan of [lo, hi) stands after the met slices first..j. */
  function Cursor(slices: seq<Slice>, first: nat, j: nat, lo: int, hi: int): int
    requires first <= j <= |slices|
  {
    if first == j then lo else if slices[j - 1].End() < hi then slices[j - 1].End() else hi
  }

  /** The slices first..j meet [lo, hi) and those before do not. */
  ghost predicate Scanned(slices: seq<Slice>, first: nat, j: nat, lo: int, hi: int) {
    Ordered(slices) && first <= j <= |slices| && lo < hi &&
    (forall x | 0 <= x < first :: slices[x].End() <= lo) &&
    (forall x | first <= x < j :: slices[x].End() > lo && slices[x].offset < hi)
  }

  /** One scan step: nothing is stored up to the next slice, everything from there to the new cursor. */
  lemma ScanStep(slices: seq<Slice>, first: nat, j: nat, lo: int, hi: int)
    requires j < |slices| && Scanned(slices, first, j + 1, lo, hi) && first <= j
    ensures var c, c' := Cursor(slices, first, j, lo, hi), Cursor(slices, first, j + 1, lo, hi);
            var from := if slices[j].offset < c then c else slices[j].offset;
            c <= from < c' && Held(slices, lo, c') == Held(slices, lo, c) + (c' - from) &&
            (forall p | c <= p < from :: At(slices, p) == None) &&
            (forall p | from <= p < c' :: At(slices, p) == Some(slices[j].PlaceOf(p)))
  {
    var c, c' := Cursor(slices, first, j, lo, hi), Cursor(slices, first, j + 1, lo, hi);
    var from := if slices[j].offset < c then c else slices[j].offset;
    forall p | c <= p < from ensures At(slices, p) == None {
      AtNone(slices, p);
    }
    forall p | from <= p < c' ensures At(slices, p) == Some(slices[j].PlaceOf(p)) {
      AtSome(slices, j, p);
    }
    HeldSplit(slices, lo, c, c');
    HeldSplit(slices, c, from, c');
    HeldNone(slices, c, from);
    HeldAll(slices, from, c');
  }

  /** Nothing is stored from the cursor on once the scan has ended. */
  lemma ScanEnd(slices: seq<Slice>, first: nat, j: nat, lo: int, hi: int)
    requires Meets(slices, first, j, lo, hi)
    ensures var c := Cursor(slices, first, j, lo, hi);
            lo <= c <= hi && Held(slices, lo, hi) == Held(slices, lo, c) &&
            forall p | c <= p < hi :: At(slices, p) == None
  {
    var c := Cursor(slices, first, j, lo, hi);
    forall p | c <= p < hi ensures At(slices, p) == None {
      AtNone(slices, p);
    }
    HeldSplit(slices, lo, c, hi);
    HeldNone(slices, c, hi);
  }

  /** The pieces found so far are exactly what is stored before the cursor. */
  ghost predicate Collected(slices: seq<Slice>, first: nat, j: nat, lo: int, hi: int, found: seq<Slice>) {
    Scanned(slices, first, j, lo, hi) &&
    Within(found, lo, Cursor(slices, first, j, lo, hi)) &&
    (forall p | lo <= p < Cursor(slices, first, j, lo, hi) :: At(found, p) == At(slices, p)) &&
    (found != [] <==> first < j) &&
    (Held(slices, lo, Cursor(slices, first, j, lo, hi)) > 0 <==> first < j)
  }

  lemma Collect(slices: seq<Slice>, first: nat, j: nat, lo: int, hi: int, found: seq<Slice>, piece: Slice)
    requires Collected(slices, first, j, lo, hi, found) && j < |slices| && Scanned(slices, first, j + 1, lo, hi)
    requires var s := slices[j];
             var from := if s.offset < lo then lo else s.offset;
             piece == s.Cut(from, (if s.End() < hi then s.End() else hi) - from)
    ensures Collected(slices, first, j + 1, lo, hi, found + [piece])
  {
    ScanStep(slices, first, j, lo, hi);
    var c, c' := Cursor(slices, first, j, lo, hi), Cursor(slices, first, j + 1, lo, hi);
    forall p | lo <= p < c' ensures At(found + [piece], p) == At(slices, p) {
      AtPush(found, piece, p);
      if c <= p < piece.offset {
        AtNone(found, p);
      }
    }
  }

  lemma CollectedAll(slices: seq<Slice>, first: nat, j: nat, lo: int, hi: int, found: seq<Slice>)
    requires Collected(slices, first, j, lo, hi, found) && (j == |slices| || hi <= slices[j].offset)
    ensures Within(found, lo, hi) && forall p | lo <= p < hi :: At(found, p) == At(slices, p)
    ensures found != [] <==> Held(slices, lo, hi) > 0
  {
    ScanEnd(slices, first, j, lo, hi);
    forall p | Cursor(slices, first, j, lo, hi) <= p < hi ensures At(found, p) == None {
      AtNone(found, p);
    }
  }

  /** The scan so far, with the remainders it has cut off. */
  ghost predicate Scan(s: seq<Slice>, first: nat, j: nat, lo: int, end: int, left: seq<Slice>, right: seq<Slice>) {
    Scanned(s, first, j, lo, end) && left == LeftRest(s, first, j, lo) && right == RightRest(s, first, j, end)
  }

  lemma ScanFrom(s: seq<Slice>, node: nat, lo: int, end: int)
    requires Ordered(s) && lo < end && node <= |s|
    requires forall i | 0 <= i < node :: s[i].offset < lo
    requires forall i | node <= i < |s| :: s[i].offset >= lo
    ensures node > 0 && s[node - 1].End() > lo ==>
              var curr := s[node - 1];
              Scan(s, node - 1, node, lo, end, [curr.Cut(curr.offset, lo - curr.offset)],
                   if curr.End() > end then [curr.Cut(end, curr.End() - end)] else []) &&
              Held(s, lo, Cursor(s, node - 1, node, lo, end)) == Cursor(s, node - 1, node, lo, end) - lo
    ensures node == 0 || s[node - 1].End() <= lo ==> Scan(s, node, node, lo, end, [], [])
  {
    if node > 0 && s[node - 1].End() > lo {
      ScanStep(s, node - 1, node - 1, lo, end);
    }
  }

  lemma ScanNext(s: seq<Slice>, first: nat, j: nat, lo: int, end: int, left: seq<Slice>, right: seq<Slice>)
    requires Scan(s, first, j, lo, end, left, right)
    requires j < |s| && lo <= s[j].offset < end
    ensures right == []
    ensures Scan(s, first, j + 1, lo, end, left,
                 if s[j].End() > end then [s[j].Cut(end, s[j].End() - end)] else [])
    ensures var c, c' := Cursor(s, first, j, lo, end), Cursor(s, first, j + 1, lo, end);
            c == (if first == j then lo else s[j - 1].End()) && c <= s[j].offset < c' &&
            c' == (if s[j].End() > end then end else s[j].End()) &&
            Held(s, lo, c') == Held(s, lo, c) + (c' - s[j].offset)
  {
    ScanStep(s, first, j, lo, end);
  }

  lemma ScanDone(s: seq<Slice>, first: nat, j: nat, lo: int, end: int, left: seq<Slice>, right: seq<Slice>)
    requires Scan(s, first, j, lo, end, left, right)
    requires (first < j && s[j - 1].End() > end) || j == |s| || end <= s[j].offset
    ensures Meets(s, first, j, lo, end)
    ensures Held(s, lo, end) == Held(s, lo, Cursor(s, first, j, lo, end))
  {
    ScanEnd(s, first, j, lo, end);
  }

  /** The scan of an addition: `alloc` counts the free offsets passed so far, up to the cursor. */
  ghost predicate AddScan(s: seq<Slice>, first: nat, j: nat, lo: int, end: int, left: seq<Slice>, right: seq<Slice>,
                          start: int, alloc: int) {
    Scan(s, first, j, lo, end, left, right) && Ahead(s, j, lo) &&
    start == (if first == j then lo else s[j - 1].End()) &&
    alloc + Held(s, lo, Cursor(s, first, j, lo, end)) == Cursor(s, first, j, lo, end) - lo
  }

  /** The scan of a deletion: `freed` counts the stored offsets passed so far. */
  ghost predicate DeleteScan(s: seq<Slice>, first: nat, j: nat, lo: int, end: int, left: seq<Slice>,
                             right: seq<Slice>, freed: int) {
    Scan(s, first, j, lo, end, left, right) && Ahead(s, j, lo) &&
    freed == Held(s, lo, Cursor(s, first, j, lo, end)) && (freed > 0 <==> first < j)
  }

  ghost predicate Ahead(s: seq<Slice>, j: nat, lo: int) {
    j <= |s| && forall i | j <= i < |s| :: s[i].offset >= lo
  }

  function Rest(s: Slice, end: int): seq<Slice> {
    if s.End() > end then [s.Cut(end, s.End() - end)] else []
  }

  lemma AddScanNext(s: seq<Slice>, first: nat, j: nat, lo: int, end: int, left: seq<Slice>, right: seq<Slice>,
                    start: int, alloc: int)
    requires AddScan(s, first, j, lo, end, left, right, start, alloc) && j < |s| && s[j].offset < end
    ensures right == []
    ensures AddScan(s, first, j + 1, lo, end, left, Rest(s[j], end), s[j].End(),
                    if s[j].offset > start then alloc + (s[j].offset - start) else alloc)
  {
    ScanNext(s, first, j, lo, end, left, right);
  }

  lemma AddScanDone(s: seq<Slice>, first: nat, j: nat, lo: int, end: int, left: seq<Slice>, right: seq<Slice>,
                    start: int, alloc: int)
    requires AddScan(s, first, j, lo, end, left, right, start, alloc)
    requires right != [] || j == |s| || end <= s[j].offset
    ensures Meets(s, first, j, lo, end)
    ensures left == LeftRest(s, first, j, lo) && right == RightRest(s, first, j, end)
    ensures (if end > start then alloc + (end - start) else alloc) == end - lo - Held(s, lo, end)
  {
    ScanDone(s, first, j, lo, end, left, right);
  }

  lemma DeleteScanNext(s: seq<Slice>, first: nat, j: nat, lo: int, end: int, left: seq<Slice>, right: seq<Slice>,
                       freed: int)
    requires DeleteScan(s, first, j, lo, end, left, right, freed) && j < |s| && s[j].offset < end
    ensures right == []
    ensures DeleteScan(s, first, j + 1, lo, end, left, Rest(s[j], end),
                       freed + (if s[j].End() > end then end - s[j].offset else s[j].length))
  {
    ScanNext(s, first, j, lo, end, left, right);
  }

  lemma DeleteScanDone(s: seq<Slice>, first: nat, j: nat, lo: int, end: int, left: seq<Slice>, right: seq<Slice>,
                       freed: int)
    requires DeleteScan(s, first, j, lo, end, left, right, freed)
    requires right != [] || j == |s| || end <= s[j].offset
    ensures Meets(s, first, j, lo, end)
    ensures left == LeftRest(s, first, j, lo) && right == RightRest(s, first, j, end)
    ensures freed == Held(s, lo, end) && (freed > 0 <==> first < j)
  {
    ScanDone(s, first, j, lo, end, left, right);
  }

  /** The slice before the range may reach into it. */
  method AddScanStart(s: seq<Slice>, lo: int, end: int)
    returns (first: nat, j: nat, left: seq<Slice>, right: seq<Slice>, start: int)
    requires Ordered(s) && lo < end
    ensures AddScan(s, first, j, lo, end, left, right, start, 0)
  {
    j := FindGE(s, lo);
    first, left, right, start := j, [], [], lo;
    ScanFrom(s, j, lo, end);
    if j > 0 && s[j - 1].End() > lo {
      var curr := s[j - 1];
      first, left, right, start := j - 1, [curr.Cut(curr.offset, lo - curr.offset)], Rest(curr, end), curr.End();
    }
  }

  method DeleteScanStart(s: seq<Slice>, lo: int, end: int)
    returns (first: nat, j: nat, left: seq<Slice>, right: seq<Slice>, freed: int)
    requires Ordered(s) && lo < end
    ensures DeleteScan(s, first, j, lo, end, left, right, freed)
  {
    j := FindGE(s, lo);
    first, left, right, freed := j, [], [], 0;
    ScanFrom(s, j, lo, end);
    if j > 0 && s[j - 1].End() > lo {
      var curr := s[j - 1];
      first, left, right := j - 1, [curr.Cut(curr.offset, lo - curr.offset)], Rest(curr, end);
      freed := if curr.End() > end then end - lo else curr.End() - lo;
    }
  }

  /** The part of the list an addition replaces, what remains of it, and the space it gains. */
  method ScanForAdd(s: seq<Slice>, lo: int, end: int)
    returns (first: nat, j: nat, left: seq<Slice>, right: seq<Slice>, alloc: int)
    requires Ordered(s) && lo < end
    ensures Meets(s, first, j, lo, end)
    ensures left == LeftRest(s, first, j, lo) && right == RightRest(s, first, j, end)
    ensures alloc == end - lo - Held(s, lo, end)
  {
    var start;
    first, j, left, right, start := AddScanStart(s, lo, end);
    alloc := 0;
    while j < |s| && end > s[j].offset
      invariant AddScan(s, first, j, lo, end, left, right, start, alloc)
    {
      AddScanNext(s, first, j, lo, end, left, right, start, alloc);
      if s[j].offset > start {
        alloc := alloc + (s[j].offset - start);
      }
      start, right := s[j].End(), Rest(s[j], end);
      j := j + 1;
    }
    AddScanDone(s, first, j, lo, end, left, right, start, alloc);
    if end > start {
      alloc := alloc + (end - start);
    }
  }

  /** The part of the list a deletion replaces, what remains of it, and the space it frees. */
  method ScanForDelete(s: seq<Slice>, lo: int, end: int)
    returns (first: nat, j: nat, left: seq<Slice>, right: seq<Slice>, freed: int)
    requires Ordered(s) && lo < end
    ensures Meets(s, first, j, lo, end)
    ensures left == LeftRest(s, first, j, lo) && right == RightRest(s, first, j, end)
    ensures freed == Held(s, lo, end) && (freed > 0 <==> first < j)
  {
    first, j, left, right, freed := DeleteScanStart(s, lo, end);
    while j < |s| && end > s[j].offset
      invariant DeleteScan(s, first, j, lo, end, left, right, freed)
    {
      DeleteScanNext(s, first, j, lo, end, left, right, freed);
      freed := freed + (if s[j].End() > end then end - s[j].offset else s[j].length);
      right := Rest(s[j], end);
      j := j + 1;
    }
    DeleteScanDone(s, first, j, lo, end, left, right, freed);
  }

  class ObjectBlock {
    var slices: seq<Slice>

    ghost predicate Valid()
      reads this
    {
      Ordered(slices)
    }

    constructor ()
      ensures Valid() && slices == []
    {
      slices := [];
    }

    /** Adds a slice over whatever was there; reports the number of newly allocated offsets. */
    method AddSlice(slice: Slice) returns (alloc: int)
      requires Valid() && slice.length > 0
      modifies this
      ensures Valid()
      ensures forall p :: At(slices, p) ==
                if slice.offset <= p < slice.End() then Some(slice.PlaceOf(p)) else At(old(slices), p)
      ensures alloc == slice.length - Held(old(slices), slice.offset, slice.End())
    {
      var first, j, left, right;
      first, j, left, right, alloc := ScanForAdd(slices, slice.offset, slice.End());
      var after := slices[..first] + left + [slice] + (right + slices[j..]);
      ReplacedByOne(slices, first, j, slice, after);
      slices := after;
    }

    /** Deletes the part of the block in `target`; fails when there is nothing to delete. */
    method DeleteSlices(target: SliceSize) returns (ok: bool, freed: int)
      requires Valid() && target.length > 0
      modifies this
      ensures Valid()
      ensures forall p :: At(slices, p) == if target.offset <= p < target.End() then None else At(old(slices), p)
      ensures freed == Held(old(slices), target.offset, target.End())
      ensures ok <==> freed > 0
    {
      var first, j, left, right;
      first, j, left, right, freed := ScanForDelete(slices, target.offset, target.End());
      ok := first < j;
      var after := slices[..first] + left + [] + (right + slices[j..]);
      ReplacedView(slices, first, j, target.offset, target.End(), [], after);
      if ok {
        slices := after;
      } else {
        assert after == slices;
      }
    }

    /** Collects the stored pieces of `target`, in order and cut to it. */
    method GetSlices(target: SliceSize) returns (ok: bool, found: seq<Slice>)
      requires Valid() && target.length > 0
      ensures Within(found, target.offset, target.End())
      ensures forall p | target.offset <= p < target.End() :: At(found, p) == At(slices, p)
      ensures ok <==> Held(slices, target.offset, target.End()) > 0
    {
      found := Pieces(slices, target.offset, target.End());
      ok := found != [];
    }
  }

  method PiecesStart(s: seq<Slice>, lo: int, end: int) returns (ghost first: nat, j: nat, found: seq<Slice>)
    requires Ordered(s) && lo < end
    ensures Collected(s, first, j, lo, end, found) && Ahead(s, j, lo)
  {
    j := FindGE(s, lo);
    first, found := j, [];
    if j > 0 && s[j - 1].End() > lo {
      var curr := s[j - 1];
      first := j - 1;
      var piece := curr.Cut(lo, (if curr.End() < end then curr.End() else end) - lo);
      Collect(s, first, first, lo, end, [], piece);
      found := [] + [piece];
    }
  }

  lemma CollectNext(s: seq<Slice>, first: nat, j: nat, lo: int, end: int, found: seq<Slice>, piece: Slice)
    requires Collected(s, first, j, lo, end, found) && Ahead(s, j, lo) && j < |s| && s[j].offset < end
    requires piece == if s[j].End() > end then s[j].Cut(s[j].offset, end - s[j].offset) else s[j]
    ensures Collected(s, first, j + 1, lo, end, found + [piece]) && Ahead(s, j + 1, lo)
  {
    Collect(s, first, j, lo, end, found, piece);
  }

  method Pieces(s: seq<Slice>, lo: int, end: int) returns (found: seq<Slice>)
    requires Ordered(s) && lo < end
    ensures Within(found, lo, end) && forall p | lo <= p < end :: At(found, p) == At(s, p)
    ensures found != [] <==> Held(s, lo, end) > 0
  {
    ghost var first;
    var j;
    first, j, found := PiecesStart(s, lo, end);
    while j < |s| && end > s[j].offset
      invariant Collected(s, first, j, lo, end, found) && Ahead(s, j, lo)
    {
      var piece := if s[j].End() > end then s[j].Cut(s[j].offset, end - s[j].offset) else s[j];
      CollectNext(s, first, j, lo, end, found, piece);
      found := found + [piece];
      j := j + 1;
    }
    CollectedAll(s, first, j, lo, end, found);
  }
}
