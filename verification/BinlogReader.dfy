/**
 Reading a binlog that is spread over several files in chunks of whole lines, as the filter and the
 fetch handler do.  The log does not change during the reading.
 */
module BinlogReader {
  import opened Common
  import opened BinlogRewrite

  const NL: char := '\n'

  /** The length of the longest prefix that ends in a newline. */
  function WholeLength(s: Text): (n: nat)
    ensures n <= |s| && (n > 0 ==> s[n - 1] == NL)
    ensures forall i | n <= i < |s| :: s[i] != NL
  {
    if s == [] || s[|s| - 1] == NL then |s| else WholeLength(s[..|s| - 1])
  }

  ghost predicate Whole(s: Text) { WholeLength(s) == |s| }

  /** Any n successive characters of the file contain a newline: lines are at most n long. */
  ghost predicate Dense(s: Text, n: nat) {
    forall p: nat | p + n <= |s| :: HasNewline(s, p, n)
  }

  ghost predicate HasNewline(s: Text, p: nat, n: nat) {
    exists q :: p <= q < p + n <= |s| && s[q] == NL
  }

  /** The log from a position on. */
  function Rest(files: seq<Text>, index: nat, offset: nat): Text
    requires index < |files| && offset <= |files[index]|
  {
    files[index][offset..] + Concat(files[index + 1..])
  }

  /** A file behind the position is empty only if all later files are. */
  ghost predicate Gapless(files: seq<Text>, index: nat) {
    forall k, m | index < k < m < |files| && files[m] != [] :: files[k] != []
  }

  lemma RestNext(files: seq<Text>, index: nat)
    requires index + 1 < |files|
    ensures Rest(files, index, |files[index]|) == Rest(files, index + 1, 0)
  {
    assert files[index + 1..][0] == files[index + 1] && files[index + 1..][1..] == files[index + 2..];
  }

  lemma RestSplit(files: seq<Text>, index: nat, offset: nat, n: nat)
    requires index < |files| && offset + n <= |files[index]|
    ensures Rest(files, index, offset) == files[index][offset..offset + n] + Rest(files, index, offset + n)
  {
  }

  lemma {:induction false} AllEmpty(files: seq<Text>)
    ensures Concat(files) == [] <==> forall k | 0 <= k < |files| :: files[k] == []
  {
    if files != [] {
      AllEmpty(files[1..]);
      assert forall k | 0 < k < |files| :: files[k] == files[1..][k - 1];
    }
  }

  /** A chunk, the end of the log, or `length` characters without a newline. */
  datatype Outcome = Chunk(data: Text) | NoEntry | TryAgain(length: nat)

  class Reader {
    const files: seq<Text>
    var index: nat
    var offset: nat

    ghost predicate Valid()
      reads this
    {
      index < |files| && offset <= |files[index]|
    }

    ghost function Left(): Text
      reads this
      requires Valid()
    {
      Rest(files, index, offset)
    }

    /** binlog_reader_init: an offset behind the end of the file is cut back. */
    constructor (files: seq<Text>, index: nat, offset: nat)
      requires index < |files|
      ensures Valid() && this.files == files && this.index == index
      ensures this.offset == if offset > |files[index]| then |files[index]| else offset
    {
      this.files, this.index := files, index;
      this.offset := if offset > |files[index]| then |files[index]| else offset;
    }

    method DoRead(size: nat) returns (data: Text)
      requires Valid() && size > 0
      modifies this`offset
      ensures Valid() && old(Left()) == data + Left() && offset == old(offset) + |data|
      ensures |data| == if |files[index]| - old(offset) < size then |files[index]| - old(offset) else size
      ensures data == files[index][old(offset)..offset]
    {
      var n := if |files[index]| - offset < size then |files[index]| - offset else size;
      RestSplit(files, index, offset, n);
      data := files[index][offset..offset + n];
      offset := offset + n;
    }

    /** binlog_read_to_buffer: at the end of a file it goes on with the next one, but only once. */
    method ReadToBuffer(size: nat) returns (data: Text, ghost start: nat)
      requires Valid() && size > 0
      modifies this
      ensures Valid() && old(Left()) == data + Left() && Moved(files, old(index), old(offset), index, start)
      ensures offset == start + |data| && data == files[index][start..offset] && |data| <= size
      ensures |data| < size ==> offset == |files[index]|
      ensures data == [] ==> index == |files| - 1 || (index == old(index) + 1 && files[index] == [])
    {
      start := offset;
      data := DoRead(size);
      if data == [] && index < |files| - 1 {
        RestNext(files, index);
        offset, index, start := 0, index + 1, 0;
        data := DoRead(size);
      }
    }

    /** binlog_reader_integral_read: what follows the last newline is left for the next read.  When the
        read holds no newline the call fails, and the position stays behind what was read. */
    method IntegralRead(size: nat) returns (r: Outcome, ghost start: nat)
      requires Valid() && size > 0
      modifies this
      ensures Valid() && Moved(files, old(index), old(offset), index, start)
      ensures !r.TryAgain? ==> Splits(old(Left()), if r.Chunk? then r.data else [], Left())
      ensures r.Chunk? ==>
                offset == start + |r.data| && r.data == files[index][start..offset] &&
                Cut(files[index], start, |r.data|, size)
      ensures r.NoEntry? ==>
                start == offset == |files[index]| &&
                (index == |files| - 1 || (index == old(index) + 1 && files[index] == []))
      ensures r.TryAgain? ==>
                0 < r.length && offset == start + r.length && NoNewline(files[index], start, r.length) &&
                (r.length == size || offset == |files[index]|)
    {
      var data;
      data, start := ReadToBuffer(size);
      if data == [] {
        return NoEntry, start;
      }
      var n := WholeLength(data);
      CutText(files[index], start, data, size);
      if n == 0 {
        return TryAgain(|data|), start;
      }
      RestBack(files, index, start, data, n);
      offset := offset - (|data| - n);
      r := Chunk(data[..n]);
    }

    /** The loop of binlog_filter and do_load_data_versions: it reads up to the first failure, takes
        "no entry" for the end, and cuts every chunk into lines.  If it succeeds it has got the whole
        rest of the log exactly when no empty file lies before a non-empty one, and it succeeds exactly
        when every line on the way ends and fits. */
    method ReadAll(size: nat) returns (ok: bool, ghost text: Text, lines: seq<Text>)
      requires Valid() && size > 0
      modifies this
      ensures Valid() && (Lines(files, size) ==> ok)
      ensures ok <==> Readable(files, old(index), old(offset), size)
      ensures ok ==> text == Seen(files, old(index), old(offset))
      ensures ok ==> (text == old(Left()) <==> Gapless(files, old(index)))
      ensures text <= old(Left()) && Whole(text) && lines == SplitLines(text)
      ensures forall line | line in lines :: IsLine(line) && |line| <= size
    {
      ok, text, lines := false, [], [];
      ReadNothing(files, index, offset, size);
      var more := true;
      while more
        invariant Valid()
        invariant more ==> Reading(files, old(index), old(offset), index, offset, text, lines, size)
        invariant !more ==> Cuts(text, lines, size) && Ended(files, old(index), old(offset), text, ok, size)
        decreases more, |files| - index, |files[index]| - offset
      {
        more, ok, text, lines := ReadOn(size, old(index), old(offset), text, lines);
      }
      ReadIs(files, old(index), old(offset), text, lines, ok, size);
    }

    /** One turn of the loop. */
    method ReadOn(size: nat, ghost i0: nat, ghost o0: nat, ghost text0: Text, lines0: seq<Text>)
      returns (more: bool, ok: bool, ghost text: Text, lines: seq<Text>)
      requires Valid() && size > 0 && Reading(files, i0, o0, index, offset, text0, lines0, size)
      modifies this
      ensures Valid() && old(index) <= index
      ensures more ==> Reading(files, i0, o0, index, offset, text, lines, size)
      ensures more ==> index > old(index) || offset > old(offset)
      ensures !more ==> Cuts(text, lines, size) && Ended(files, i0, o0, text, ok, size)
    {
      more, ok, text, lines := false, false, text0, lines0;
      var r, start := IntegralRead(size);
      match r {
        case NoEntry =>
          ok := true;
          ReadEnds(files, i0, o0, old(index), old(offset), index, text, lines, size);
        case TryAgain(n) =>
          ReadFails(files, i0, o0, old(index), old(offset), index, start, n, text, lines, size);
        case Chunk(data) =>
          more, text, lines := true, text0 + data, lines0 + SplitLines(data);
          ReadMore(files, i0, o0, old(index), old(offset), index, start, offset, data, text0, lines0, text, lines,
                   size);
      }
    }

    /** fetch_binlog_output: a failed read without newline is an error; "no entry" is an empty answer.
        The last-chunk mark is set only when no complete record remains. */
    method FetchOutput(size: nat, maxRecord: nat) returns (ok: bool, data: Text, isLast: bool)
      requires Valid() && 0 < maxRecord <= size && Dense(files[|files| - 1], maxRecord)
      modifies this
      ensures Valid() && old(index) <= index && (index == old(index) ==> old(offset) <= offset)
      ensures ok ==> old(Left()) == data + Left() && (isLast ==> NoNewline(Left(), 0, |Left()|))
      ensures ok && !isLast ==> index > old(index) || offset > old(offset)
      ensures !ok ==>
                index < |files| &&
                exists p: nat, n: nat ::
                  n > 0 && NoNewline(files[index], p, n) && (n == size || p + n == |files[index]|)
    {
      ghost var start;
      var r;
      r, start := IntegralRead(size);
      assert Unfold(0);
      data, isLast := [], false;
      if r.TryAgain? {
        assert NoNewline(files[index], start, r.length);
        return false, data, isLast;
      }
      ok := true;
      if r.Chunk? {
        data := r.data;
      }
      if size - |data| >= maxRecord {
        isLast := index == |files| - 1;
      }
      if isLast {
        NothingLeft(files, index, offset, start, |data|, size, maxRecord);
      }
    }

    /** Fetching until the last-chunk mark delivers all complete records, whatever files are empty. */
    method FetchAll(size: nat, maxRecord: nat) returns (ok: bool, text: Text)
      requires Valid() && 0 < maxRecord <= size && Dense(files[|files| - 1], maxRecord)
      modifies this
      ensures Valid() && (ok ==> text + Left() == old(Left()) && NoNewline(Left(), 0, |Left()|))
    {
      text := [];
      ok := true;
      var isLast := false;
      while ok && !isLast
        invariant Valid()
        invariant ok ==> text + Left() == old(Left()) && (isLast ==> NoNewline(Left(), 0, |Left()|))
        decreases ok && !isLast, |files| - index, |files[index]| - offset
      {
        var data;
        ok, data, isLast := FetchOutput(size, maxRecord);
        AppendAssoc(text + data, text, data, Left());
        text := text + data;
      }
    }
  }

  /** Whole files whose lines fit into a read. */
  ghost predicate Lines(files: seq<Text>, size: nat) {
    forall k | 0 <= k < |files| :: Whole(files[k]) && Dense(files[k], size)
  }

  /** What has been read, and what is left, make up everything; no file in between was empty. */
  ghost predicate Progress(files: seq<Text>, i0: nat, o0: nat, index: nat, offset: nat, text: Text) {
    forall u {:trigger Unfold(u)} :: Unfold(u) ==>
      i0 <= index < |files| && o0 <= |files[i0]| && offset <= |files[index]| &&
      text + Rest(files, index, offset) == Rest(files, i0, o0) &&
      forall k | i0 < k <= index :: files[k] != []
  }

  lemma MoreRead(files: seq<Text>, i0: nat, o0: nat, i: nat, o: nat, index: nat, start: nat, offset: nat, text: Text,
                 text': Text)
    requires i < |files| && o <= |files[i]| && Progress(files, i0, o0, i, o, text)
    requires index < |files| && start < offset <= |files[index]| && Moved(files, i, o, index, start)
    requires text' == text + files[index][start..offset]
    ensures Progress(files, i0, o0, index, offset, text')
  {
    assert Unfold(0);
    if index != i { RestNext(files, i); }
    RestSplit(files, index, start, offset - start);
    AppendAssoc(text', text, files[index][start..offset], Rest(files, index, offset));
  }

  /** The reading ends at the end of the log, or at an empty file. */
  lemma EndOfRead(files: seq<Text>, i0: nat, o0: nat, i: nat, o: nat, index: nat, text: Text)
    requires i < |files| && o <= |files[i]| && Progress(files, i0, o0, i, o, text)
    requires index < |files| && Moved(files, i, o, index, |files[index]|)
    requires index == |files| - 1 || (index == i + 1 && files[index] == [])
    ensures i0 < |files| && o0 <= |files[i0]| && text <= Rest(files, i0, o0)
    ensures text == Rest(files, i0, o0) <==> Gapless(files, i0)
  {
    assert Unfold(0);
    if index != i { RestNext(files, i); }
    var rest := files[index + 1..];
    AllEmpty(rest);
    assert forall m | index < m < |files| :: files[m] == rest[m - index - 1];
    assert Rest(files, index, |files[index]|) == Concat(rest);
    PrefixIs(text, Concat(rest), Rest(files, i0, o0));
  }

  lemma PrefixIs(a: Text, b: Text, s: Text)
    requires a + b == s
    ensures a <= s && (a == s <==> b == [])
  {
    assert |s| == |a| + |b|;
  }

  /** Every line of the text ends, and fits into a read. */
  ghost predicate Fits(s: Text, size: nat) {
    Whole(s) && forall line | line in SplitLines(s) :: |line| <= size
  }

  /** The log from a position up to the first empty file. */
  function Seen(files: seq<Text>, index: nat, offset: nat): Text
    requires index < |files| && offset <= |files[index]|
    decreases |files| - index
  {
    files[index][offset..] + if index + 1 < |files| && files[index + 1] != [] then Seen(files, index + 1, 0) else []
  }

  /** The loop sees the whole rest exactly when no empty file lies before a non-empty one. */
  lemma {:induction false} SeenIsRest(files: seq<Text>, index: nat, offset: nat)
    requires index < |files| && offset <= |files[index]|
    ensures Seen(files, index, offset) <= Rest(files, index, offset)
    ensures Seen(files, index, offset) == Rest(files, index, offset) <==> Gapless(files, index)
    decreases |files| - index
  {
    var part, rest := files[index][offset..], files[index + 1..];
    AllEmpty(rest);
    assert forall m | index < m < |files| :: files[m] == rest[m - index - 1];
    if index + 1 < |files| && files[index + 1] != [] {
      SeenIsRest(files, index + 1, 0);
      assert Rest(files, index + 1, 0) == Concat(rest) by { assert rest[1..] == files[index + 2..]; }
      PrefixesJoin(part, Seen(files, index + 1, 0), Concat(rest));
      assert Gapless(files, index) <==> Gapless(files, index + 1);
    } else {
      PrefixIs(part, Concat(rest), Rest(files, index, offset));
      assert part + [] == part;
    }
  }

  lemma PrefixesJoin(part: Text, a: Text, b: Text)
    requires a <= b
    ensures part + a <= part + b && (part + a == part + b <==> a == b)
  {
    if part + a == part + b { assert a == (part + a)[|part|..] && b == (part + b)[|part|..]; }
  }

  /** Every file of that part fits. */
  ghost predicate Readable(files: seq<Text>, index: nat, offset: nat, size: nat)
    requires index < |files| && offset <= |files[index]|
    decreases |files| - index
  {
    Fits(files[index][offset..], size) &&
    (index + 1 < |files| && files[index + 1] != [] ==> Readable(files, index + 1, 0, size))
  }

  /** What has been read and what will be seen make up what was to be seen. */
  ghost predicate Tracks(files: seq<Text>, i0: nat, o0: nat, index: nat, offset: nat, text: Text, size: nat) {
    forall u {:trigger Unfold(u)} :: Unfold(u) ==>
      i0 < |files| && o0 <= |files[i0]| && index < |files| && offset <= |files[index]| &&
      text + Seen(files, index, offset) == Seen(files, i0, o0) &&
      (Readable(files, i0, o0, size) <==> Readable(files, index, offset, size))
  }

  /** Going on with the next file changes nothing, unless it is empty. */
  lemma SeenMoved(files: seq<Text>, i: nat, o: nat, index: nat, start: nat, size: nat)
    requires i < |files| && o <= |files[i]| && index < |files| && start <= |files[index]|
    requires Moved(files, i, o, index, start) && (index == i || files[index] != [])
    ensures Seen(files, i, o) == Seen(files, index, start)
    ensures Readable(files, i, o, size) <==> Readable(files, index, start, size)
  {
    if index != i { assert files[i][o..] == [] && [] + Seen(files, index, 0) == Seen(files, index, 0); }
  }

  lemma {:induction false} FitsAppend(a: Text, b: Text, size: nat)
    requires 0 < |a| <= size && a[|a| - 1] == NL
    ensures Fits(a + b, size) <==> Fits(b, size)
  {
    MoreLines([], a, size);
    assert [] + a == a;
    SplitAppend(a, b);
    if b != [] {
      assert (a + b)[|a + b| - 1] == b[|b| - 1];
    } else {
      assert a + b == a;
    }
  }

  lemma SeenSplit(files: seq<Text>, index: nat, start: nat, offset: nat, size: nat)
    requires index < |files| && start < offset <= |files[index]| && offset - start <= size
    requires files[index][offset - 1] == NL
    ensures Seen(files, index, start) == files[index][start..offset] + Seen(files, index, offset)
    ensures Readable(files, index, start, size) <==> Readable(files, index, offset, size)
  {
    var s, data, rest := files[index][start..], files[index][start..offset], files[index][offset..];
    assert s == data + rest;
    FitsAppend(data, rest, size);
    var more := if index + 1 < |files| && files[index + 1] != [] then Seen(files, index + 1, 0) else [];
    AppendAssoc(s, data, rest, more);
  }

  lemma SeenStep(files: seq<Text>, i: nat, o: nat, index: nat, start: nat, offset: nat, size: nat)
    requires i < |files| && o <= |files[i]| && index < |files| && start < offset <= |files[index]|
    requires Moved(files, i, o, index, start) && offset - start <= size && files[index][offset - 1] == NL
    ensures Seen(files, i, o) == files[index][start..offset] + Seen(files, index, offset)
    ensures Readable(files, i, o, size) <==> Readable(files, index, offset, size)
  {
    SeenMoved(files, i, o, index, start, size);
    SeenSplit(files, index, start, offset, size);
  }

  lemma MoreSeen(files: seq<Text>, i0: nat, o0: nat, i: nat, o: nat, index: nat, start: nat, offset: nat, text: Text,
                 text': Text, size: nat)
    requires Tracks(files, i0, o0, i, o, text, size) && i < |files| && o <= |files[i]|
    requires index < |files| && start < offset <= |files[index]| && Moved(files, i, o, index, start)
    requires offset - start <= size && files[index][offset - 1] == NL && text' == text + files[index][start..offset]
    ensures Tracks(files, i0, o0, index, offset, text', size)
  {
    assert Unfold(0);
    SeenStep(files, i, o, index, start, offset, size);
    AppendAssoc(text', text, files[index][start..offset], Seen(files, index, offset));
  }

  lemma EndOfSeen(files: seq<Text>, i0: nat, o0: nat, i: nat, o: nat, index: nat, start: nat, text: Text, size: nat)
    requires Tracks(files, i0, o0, i, o, text, size) && i < |files| && o <= |files[i]|
    requires i0 < |files| && o0 <= |files[i0]|
    requires index < |files| && start == |files[index]| && Moved(files, i, o, index, start)
    requires index == |files| - 1 || (index == i + 1 && files[index] == [])
    ensures text == Seen(files, i0, o0) && Readable(files, i0, o0, size)
  {
    assert Unfold(0);
    assert files[i][o..] == [] && Seen(files, i, o) == [];
    assert Fits([], size) by { assert SplitLines([]) == []; }
  }

  lemma SeenFails(files: seq<Text>, i0: nat, o0: nat, i: nat, o: nat, index: nat, start: nat, n: nat, text: Text,
                  size: nat)
    requires Tracks(files, i0, o0, i, o, text, size) && i < |files| && o <= |files[i]|
    requires i0 < |files| && o0 <= |files[i0]|
    requires index < |files| && n > 0 && Moved(files, i, o, index, start) && NoNewline(files[index], start, n)
    requires n == size || start + n == |files[index]|
    ensures !Readable(files, i0, o0, size)
  {
    assert Unfold(0);
    SeenMoved(files, i, o, index, start, size);
    NoFit(files[index][start..], n, size);
  }

  lemma NoFit(s: Text, n: nat, size: nat)
    requires n > 0 && NoNewline(s, 0, n) && (n == size || n == |s|)
    ensures !Fits(s, size)
  {
    if Whole(s) {
      assert s[|s| - 1] == NL;
      var p := FirstNL(s);
      assert SplitLines(s)[0] == s[..p + 1];
    }
  }

  /** The state of the reading loop. */
  ghost predicate Reading(files: seq<Text>, i0: nat, o0: nat, index: nat, offset: nat, text: Text, lines: seq<Text>,
                          size: nat) {
    i0 < |files| && o0 <= |files[i0]| && Progress(files, i0, o0, index, offset, text) &&
    Tracks(files, i0, o0, index, offset, text, size) && Cuts(text, lines, size)
  }

  ghost predicate Cuts(text: Text, lines: seq<Text>, size: nat) {
    forall u {:trigger Unfold(u)} :: Unfold(u) ==>
      Whole(text) && lines == SplitLines(text) && forall line | line in lines :: IsLine(line) && |line| <= size
  }

  /** What the loop has got, and when it succeeds. */
  ghost predicate Ended(files: seq<Text>, i0: nat, o0: nat, text: Text, ok: bool, size: nat) {
    forall u {:trigger Unfold(u)} :: Unfold(u) ==>
      i0 < |files| && o0 <= |files[i0]| && text <= Rest(files, i0, o0) && (ok <==> Readable(files, i0, o0, size)) &&
      (Lines(files, size) ==> ok) &&
      (ok ==> text == Seen(files, i0, o0) && (text == Rest(files, i0, o0) <==> Gapless(files, i0)))
  }

  lemma CutsMore(text: Text, lines: seq<Text>, data: Text, text': Text, lines': seq<Text>, size: nat)
    requires Cuts(text, lines, size) && 0 < |data| <= size && data[|data| - 1] == NL
    requires text' == text + data && lines' == lines + SplitLines(data)
    ensures Cuts(text', lines', size)
  {
    assert Unfold(0);
    MoreLines(text, data, size);
  }

  lemma ReadNothing(files: seq<Text>, index: nat, offset: nat, size: nat)
    requires index < |files| && offset <= |files[index]|
    ensures Reading(files, index, offset, index, offset, [], [], size)
  {
    assert [] + Rest(files, index, offset) == Rest(files, index, offset);
    assert [] + Seen(files, index, offset) == Seen(files, index, offset);
    assert SplitLines([]) == [];
  }

  lemma ReadMore(files: seq<Text>, i0: nat, o0: nat, i: nat, o: nat, index: nat, start: nat, offset: nat, data: Text,
                 text: Text, lines: seq<Text>, text': Text, lines': seq<Text>, size: nat)
    requires Reading(files, i0, o0, i, o, text, lines, size) && i < |files| && o <= |files[i]|
    requires index < |files| && start <= offset <= |files[index]| && Moved(files, i, o, index, start)
    requires data == files[index][start..offset] && Cut(files[index], start, |data|, size)
    requires text' == text + data && lines' == lines + SplitLines(data)
    ensures Reading(files, i0, o0, index, offset, text', lines', size)
  {
    MoreRead(files, i0, o0, i, o, index, start, offset, text, text');
    CutsMore(text, lines, data, text', lines', size);
    MoreSeen(files, i0, o0, i, o, index, start, offset, text, text', size);
  }

  lemma ReadEnds(files: seq<Text>, i0: nat, o0: nat, i: nat, o: nat, index: nat, text: Text, lines: seq<Text>,
                 size: nat)
    requires Reading(files, i0, o0, i, o, text, lines, size) && i < |files| && o <= |files[i]|
    requires index < |files| && Moved(files, i, o, index, |files[index]|)
    requires index == |files| - 1 || (index == i + 1 && files[index] == [])
    ensures Ended(files, i0, o0, text, true, size)
  {
    EndOfRead(files, i0, o0, i, o, index, text);
    EndOfSeen(files, i0, o0, i, o, index, |files[index]|, text, size);
  }

  lemma ReadFails(files: seq<Text>, i0: nat, o0: nat, i: nat, o: nat, index: nat, start: nat, n: nat, text: Text,
                  lines: seq<Text>, size: nat)
    requires Reading(files, i0, o0, i, o, text, lines, size) && i < |files| && o <= |files[i]|
    requires index < |files| && n > 0 && Moved(files, i, o, index, start) && NoNewline(files[index], start, n)
    requires n == size || start + n == |files[index]|
    ensures Ended(files, i0, o0, text, false, size)
  {
    HoldsNewline(files, index, start, n, size);
    SeenFails(files, i0, o0, i, o, index, start, n, text, size);
    ReadSoFar(files, i0, o0, i, o, text);
  }

  /** The loop's result, unfolded. */
  lemma ReadIs(files: seq<Text>, i0: nat, o0: nat, text: Text, lines: seq<Text>, ok: bool, size: nat)
    requires Cuts(text, lines, size) && i0 < |files| && o0 <= |files[i0]| && Ended(files, i0, o0, text, ok, size)
    ensures Whole(text) && lines == SplitLines(text) && forall line | line in lines :: IsLine(line) && |line| <= size
    ensures text <= Rest(files, i0, o0) && (ok <==> Readable(files, i0, o0, size)) && (Lines(files, size) ==> ok)
    ensures ok ==> text == Seen(files, i0, o0) && (text == Rest(files, i0, o0) <==> Gapless(files, i0))
  {
    assert Unfold(0);
  }

  /** With whole files and lines that fit, a read always holds a newline. */
  lemma HoldsNewline(files: seq<Text>, index: nat, start: nat, n: nat, size: nat)
    requires index < |files| && n > 0 && NoNewline(files[index], start, n)
    requires n == size || start + n == |files[index]|
    ensures !Lines(files, size)
  {
    var s := files[index];
    if n == size {
      assert Dense(s, size) ==> HasNewline(s, start, size);
    } else {
      assert s[|s| - 1] != NL;
    }
  }

  lemma ReadSoFar(files: seq<Text>, i0: nat, o0: nat, i: nat, o: nat, text: Text)
    requires i < |files| && o <= |files[i]| && Progress(files, i0, o0, i, o, text)
    ensures i0 < |files| && o0 <= |files[i0]| && text <= Rest(files, i0, o0)
  {
    assert Unfold(0);
  }

  /** It happens: of a log in three files, the middle one empty, the loop succeeds with the first line
      only. */
  method GapHidesLine() returns (ok: bool, lines: seq<Text>)
    ensures ok && lines == ["a\n"] && SplitLines(Rest(["a\n", "", "b\n"], 0, 0)) == ["a\n", "b\n"]
  {
    var files: seq<Text> := ["a\n", "", "b\n"];
    var reader := new Reader(files, 0, 0);
    GapOfThree(files);
    ghost var text;
    ok, text, lines := reader.ReadAll(10);
  }

  lemma GapOfThree(files: seq<Text>)
    requires files == ["a\n", "", "b\n"]
    ensures Readable(files, 0, 0, 10) && Seen(files, 0, 0) == "a\n" && Rest(files, 0, 0) == "a\nb\n"
    ensures SplitLines("a\n") == ["a\n"] && SplitLines("a\nb\n") == ["a\n", "b\n"]
  {
    SplitConcat(["a\n"]);
    SplitConcat(["a\n", "b\n"]);
    ConcatOne("a\n");
    ConcatOne("b\n");
    assert ["a\n", "b\n"][1..] == ["b\n"] && Concat(["a\n", "b\n"]) == "a\n" + "b\n" == "a\nb\n";
    assert files[1..] == ["", "b\n"] && files[1..][1..] == ["b\n"] && Concat(files[1..]) == [] + "b\n" == "b\n";
    assert files[0][0..] == "a\n";
  }

  /* ---------------------------------------------------------------- lines */

  ghost predicate IsLine(line: Text) {
    line != [] && line[|line| - 1] == NL && forall i | 0 <= i < |line| - 1 :: line[i] != NL
  }

  /** memchr. */
  function FirstNL(s: Text): (p: int)
    ensures -1 <= p < |s| && (p >= 0 ==> s[p] == NL)
    ensures forall i | 0 <= i < (if p < 0 then |s| else p) :: s[i] != NL
  {
    if s == [] then -1
    else if s[0] == NL then 0
    else var q := FirstNL(s[1..]); if q < 0 then -1 else q + 1
  }

  /** A text cut behind every newline. */
  function SplitLines(s: Text): seq<Text>
    decreases |s|
  {
    if s == [] then []
    else
      var p := FirstNL(s);
      if p < 0 then [s] else [s[..p + 1]] + SplitLines(s[p + 1..])
  }

  lemma FirstOfLine(line: Text, rest: Text)
    requires IsLine(line)
    ensures FirstNL(line + rest) == |line| - 1
  {
    assert forall i | 0 <= i < |line| :: (line + rest)[i] == line[i];
  }

  lemma SplitLine(line: Text, rest: Text)
    requires IsLine(line)
    ensures SplitLines(line + rest) == [line] + SplitLines(rest)
  {
    FirstOfLine(line, rest);
    assert (line + rest)[..|line|] == line && (line + rest)[|line|..] == rest;
  }

  /** Whole lines, put together, are cut into the same lines. */
  lemma {:induction false} SplitConcat(lines: seq<Text>)
    requires forall line | line in lines :: IsLine(line)
    ensures SplitLines(Concat(lines)) == lines && Whole(Concat(lines))
  {
    if lines != [] {
      var rest := Concat(lines[1..]);
      SplitConcat(lines[1..]);
      SplitLine(lines[0], rest);
      WholeAppend(lines[0], rest);
    }
  }

  lemma WholeAppend(a: Text, b: Text)
    requires (a != [] ==> a[|a| - 1] == NL) && Whole(b)
    ensures Whole(a + b)
  {
    if b != [] {
      assert (a + b)[|a + b| - 1] == b[|b| - 1];
    } else {
      assert a + b == a;
    }
  }

  /** The first line of a whole text, and the whole rest. */
  lemma FirstLine(s: Text) returns (first: Text, rest: Text)
    requires Whole(s) && s != []
    ensures IsLine(first) && Whole(rest) && |rest| < |s| && s == first + rest
  {
    var p := FirstNL(s);
    assert s[|s| - 1] == NL;
    first, rest := s[..p + 1], s[p + 1..];
    if rest != [] { assert rest[|rest| - 1] == NL; }
  }

  /** A whole text is cut into whole lines, and together they are the text. */
  lemma {:induction false} SplitWhole(s: Text)
    requires Whole(s)
    ensures (forall line | line in SplitLines(s) :: IsLine(line)) && Concat(SplitLines(s)) == s
    decreases |s|
  {
    if s != [] {
      var first, rest := FirstLine(s);
      SplitLine(first, rest);
      SplitWhole(rest);
      ConcatAppend([first], SplitLines(rest));
      ConcatOne(first);
    }
  }

  lemma AppendAssoc(a: Text, first: Text, rest: Text, b: Text)
    requires a == first + rest
    ensures a + b == first + (rest + b)
  {
  }

  lemma LinesAssoc(first: Text, x: seq<Text>, y: seq<Text>)
    ensures [first] + (x + y) == ([first] + x) + y
  {
  }

  /** A whole text in front is cut on its own. */
  lemma {:induction false} SplitAppend(a: Text, b: Text)
    requires Whole(a)
    ensures SplitLines(a + b) == SplitLines(a) + SplitLines(b)
    decreases |a|
  {
    if a != [] {
      var first, rest := FirstLine(a);
      SplitAppend(rest, b);
      AppendAssoc(a, first, rest, b);
      SplitLine(first, rest);
      SplitLine(first, rest + b);
      LinesAssoc(first, SplitLines(rest), SplitLines(b));
    } else {
      assert a + b == b;
    }
  }

  lemma {:induction false} ShortLines(lines: seq<Text>, size: nat)
    requires |Concat(lines)| <= size
    ensures forall line | line in lines :: |line| <= size
  {
    if lines != [] { ShortLines(lines[1..], size); }
  }

  /** Another chunk of whole lines. */
  lemma MoreLines(text: Text, data: Text, size: nat)
    requires Whole(text) && 0 < |data| <= size && data[|data| - 1] == NL
    ensures Whole(text + data) && SplitLines(text + data) == SplitLines(text) + SplitLines(data)
    ensures forall line | line in SplitLines(data) :: IsLine(line) && |line| <= size
  {
    assert Whole(data);
    SplitWhole(data);
    ShortLines(SplitLines(data), size);
    SplitAppend(text, data);
    WholeAppend(text, data);
  }

  lemma NothingLeft(files: seq<Text>, index: nat, offset: nat, start: nat, n: nat, size: nat, maxRecord: nat)
    requires index == |files| - 1 && 0 < maxRecord && Dense(files[index], maxRecord) && offset <= |files[index]|
    requires size - n >= maxRecord
    requires n == 0 ==> offset == |files[index]|
    requires n > 0 ==> offset == start + n && Cut(files[index], start, n, size)
    ensures NoNewline(Rest(files, index, offset), 0, |Rest(files, index, offset)|)
  {
    var s := files[index];
    assert files[index + 1..] == [];
    assert Rest(files, index, offset) == s[offset..];
    assert offset + maxRecord <= |s| ==> HasNewline(s, offset, maxRecord);
  }

  /** The read starts at the old offset, or at the start of the next file. */
  ghost predicate Moved(files: seq<Text>, index: nat, offset: nat, index': nat, start: nat) {
    (index' == index && start == offset) ||
    (index' == index + 1 && start == 0 && index < |files| && offset == |files[index]|)
  }

  ghost predicate NoNewline(s: Text, p: nat, n: nat) {
    p + n <= |s| && forall i | p <= i < p + n :: s[i] != NL
  }

  ghost predicate Splits(all: Text, data: Text, rest: Text) {
    forall u {:trigger Unfold(u)} :: Unfold(u) ==> all == data + rest
  }

  /** A chunk of length n ends in a newline, and no later newline was within reach of the read. */
  ghost predicate Cut(s: Text, start: nat, n: nat, size: nat) {
    0 < n <= size && start + n <= |s| && s[start + n - 1] == NL &&
    forall i | start + n <= i < |s| && i < start + size :: s[i] != NL
  }

  lemma CutText(s: Text, start: nat, data: Text, size: nat)
    requires start + |data| <= |s| && data == s[start..start + |data|]
    requires 0 < |data| <= size && (|data| < size ==> start + |data| == |s|)
    ensures WholeLength(data) == 0 ==> NoNewline(s, start, |data|)
    ensures WholeLength(data) > 0 ==> Cut(s, start, WholeLength(data), size)
  {
    forall i | start <= i < start + |data| ensures s[i] == data[i - start] { }
  }

  lemma RestBack(files: seq<Text>, index: nat, start: nat, data: Text, n: nat)
    requires index < |files| && start + |data| <= |files[index]| && data == files[index][start..start + |data|] &&
             n <= |data|
    ensures data + Rest(files, index, start + |data|) == data[..n] + Rest(files, index, start + n)
    ensures data[..n] == files[index][start..start + n]
  {
    RestSplit(files, index, start, |data|);
    RestSplit(files, index, start, n);
    assert data[..n] == files[index][start..start + n];
  }
}
