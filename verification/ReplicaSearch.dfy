/**
 Finding the position of a data version in the replica binlog: the files are tried from the last one
 back, and within a file the lines are read through a buffer of limited size.
 */
module ReplicaSearch {
  import opened Common
  import opened BinlogRewrite
  import opened BinlogReader

  /** Where line k starts. */
  function Off(lines: seq<Text>, k: nat): nat
    requires k <= |lines|
  {
    |Concat(lines[..k])|
  }

  /** Line k stands at its offset in the text. */
  lemma LineAt(lines: seq<Text>, k: nat)
    requires k < |lines|
    ensures Off(lines, k + 1) == Off(lines, k) + |lines[k]| <= |Concat(lines)|
    ensures Concat(lines)[Off(lines, k)..Off(lines, k + 1)] == lines[k]
  {
    var front, back := lines[..k], lines[k + 1..];
    assert lines == (front + [lines[k]]) + back;
    ConcatAppend(front + [lines[k]], back);
    ConcatPush(front, lines[k]);
    assert lines[..k + 1] == front + [lines[k]];
  }

  lemma OffEnd(lines: seq<Text>)
    ensures Off(lines, |lines|) == |Concat(lines)| && Off(lines, 0) == 0
  {
    assert lines[..|lines|] == lines;
  }

  lemma FirstIn(line: Text, buffer: Text)
    requires IsLine(line)
    requires forall i | 0 <= i < |line| && i < |buffer| :: buffer[i] == line[i]
    ensures FirstNL(buffer) == if |buffer| < |line| then -1 else |line| - 1
  {
  }

  /** What memchr finds in a buffer that starts at line k. */
  lemma BufferLine(s: Text, lines: seq<Text>, k: nat, buffer: Text, offset: nat)
    requires s == Concat(lines) && k < |lines| && IsLine(lines[k])
    requires Off(lines, k) <= offset <= |s| && buffer == s[Off(lines, k)..offset]
    ensures Off(lines, k + 1) <= |s|
    ensures FirstNL(buffer) == if |buffer| < |lines[k]| then -1 else |lines[k]| - 1
    ensures |buffer| >= |lines[k]| ==>
              buffer[..|lines[k]|] == lines[k] && Off(lines, k + 1) <= offset &&
              buffer[|lines[k]|..] == s[Off(lines, k + 1)..offset]
  {
    LineAt(lines, k);
    var a := Off(lines, k);
    BufferHas(s, a, lines[k], buffer, offset);
    FirstIn(lines[k], buffer);
  }

  lemma BufferHas(s: Text, a: nat, line: Text, buffer: Text, offset: nat)
    requires a <= offset <= |s| && a + |line| <= |s| && buffer == s[a..offset] && s[a..a + |line|] == line
    ensures forall i | 0 <= i < |line| && i < |buffer| :: buffer[i] == line[i]
    ensures |buffer| >= |line| ==>
              buffer[..|line|] == line && a + |line| <= offset && buffer[|line|..] == s[a + |line|..offset]
  {
    forall i | 0 <= i < |line| && i < |buffer| ensures buffer[i] == line[i] {
      assert line[i] == s[a + i];
    }
  }

  /** The version of a line, unless the line does not unpack. */
  type Reading = Text -> Option<int>

  predicate AtMost(line: Text, v: int, ver: Reading) { ver(line).Some? && ver(line).value <= v }
  predicate Greater(line: Text, v: int, ver: Reading) { ver(line).Some? && ver(line).value > v }

  /** The state of the search in one file: k lines passed, the buffer holds the text behind them. */
  ghost predicate Searching(s: Text, lines: seq<Text>, v: int, ver: Reading, k: nat, buffer: Text, offset: nat) {
    k <= |lines| && s == Concat(lines) && Off(lines, k) <= offset <= |s| && buffer == s[Off(lines, k)..offset] &&
    forall j | 0 <= j < k :: AtMost(lines[j], v, ver)
  }

  /** The number of lines before the first one that is greater or does not unpack. */
  function Leading(lines: seq<Text>, v: int, ver: Reading): (k: nat)
    ensures k <= |lines| && (k < |lines| ==> !AtMost(lines[k], v, ver)) && forall j | 0 <= j < k ::
              AtMost(lines[j], v, ver)
  {
    if lines == [] || !AtMost(lines[0], v, ver) then 0 else 1 + Leading(lines[1..], v, ver)
  }

  datatype Scan = FoundAt(offset: nat) | Again(buffer: Text) | BadLine

  /** What a finished search says about the first line that is not at most v. */
  ghost predicate Outcome(r: Scan, lines: seq<Text>, v: int, ver: Reading) {
    var k := Leading(lines, v, ver);
    k < |lines| && (r.FoundAt? ==> Greater(lines[k], v, ver) && r.offset == Off(lines, k)) &&
    (r.BadLine? ==> ver(lines[k]) == None)
  }

  /** find_position_by_buffer: the lines that are complete in the buffer. */
  method ScanBuffer(buffer0: Text, offset: nat, v: int, ver: Reading, ghost s: Text, ghost lines: seq<Text>,
                    ghost k0: nat)
    returns (r: Scan, ghost k: nat)
    requires Searching(s, lines, v, ver, k0, buffer0, offset) && forall j | 0 <= j < |lines| :: IsLine(lines[j])
    ensures !r.Again? ==> Outcome(r, lines, v, ver)
    ensures r.Again? ==>
              Searching(s, lines, v, ver, k, r.buffer, offset) && k0 <= k && (k < |lines| ==> |r.buffer| < |lines[k]|)
  {
    var buffer := buffer0;
    k := k0;
    while buffer != []
      invariant k0 <= k && Searching(s, lines, v, ver, k, buffer, offset)
      decreases |buffer|
    {
      OffEnd(lines);
      BufferLine(s, lines, k, buffer, offset);
      var p := FirstNL(buffer);
      if p < 0 {
        return Again(buffer), k;
      }
      var version := ver(buffer[..p + 1]);
      if version == None || v < version.value {
        assert Leading(lines, v, ver) == k;
        return if version == None then BadLine else FoundAt(offset - |buffer|), k;
      }
      buffer := buffer[p + 1..];
      k := k + 1;
    }
    r := Again(buffer);
  }

  /** The greater last line has not been passed. */
  lemma LastAhead(lines: seq<Text>, v: int, ver: Reading, k: nat)
    requires k <= |lines| && lines != [] && Greater(lines[|lines| - 1], v, ver)
    requires forall j | 0 <= j < k :: AtMost(lines[j], v, ver)
    ensures k < |lines|
  {
  }

  /** find_position_by_reader within the file: read, scan, and keep an incomplete line for the next read. */
  method SearchFile(s: Text, size: nat, v: int, ver: Reading, ghost lines: seq<Text>) returns (r: Scan)
    requires s == Concat(lines) && forall j | 0 <= j < |lines| :: IsLine(lines[j]) && |lines[j]| <= size
    requires lines != [] && Greater(lines[|lines| - 1], v, ver)
    ensures !r.Again? && Outcome(r, lines, v, ver)
  {
    var buffer: Text, position := [], 0;
    ghost var k: nat := 0;
    OffEnd(lines);
    while true
      invariant Searching(s, lines, v, ver, k, buffer, position) && k < |lines| && |buffer| < |lines[k]|
      decreases |s| - position
    {
      LineAt(lines, k);
      var n := if |s| - position < size - |buffer| then |s| - position else size - |buffer|;
      buffer := buffer + s[position..position + n];
      position := position + n;
      r, k := ScanBuffer(buffer, position, v, ver, s, lines, k);
      if !r.Again? {
        return;
      }
      LastAhead(lines, v, ver, k);
      buffer := r.buffer;
    }
  }

  /* ---------------------------------------------------------------- all files */

  predicate Before(f: int, i: int, g: int, j: int) { f < g || (f == g && i < j) }

  /** Whole lines that fit the buffer, and versions that increase strictly over all files. */
  ghost predicate WellFormed(files: seq<seq<Text>>, size: nat, ver: Reading) {
    forall u {:trigger Unfold(u)} :: Unfold(u) ==>
      (forall f, i | 0 <= f < |files| && 0 <= i < |files[f]| :: IsLine(files[f][i]) && |files[f][i]| <= size) &&
      (forall f, i, g, j | 0 <= f < |files| && 0 <= i < |files[f]| && 0 <= g < |files| && 0 <= j < |files[g]| &&
       Before(f, i, g, j) ::
         ver(files[f][i]).Some? && ver(files[g][j]).Some? ==> ver(files[f][i]).value < ver(files[g][j]).value)
  }

  /** Every readable line before line k of file `index` is at most v, every one from there on is greater. */
  ghost predicate Splits(files: seq<seq<Text>>, v: int, ver: Reading, index: nat, k: nat) {
    index < |files| && k <= |files[index]| &&
    forall f, i | 0 <= f < |files| && 0 <= i < |files[f]| && ver(files[f][i]).Some? ::
      ver(files[f][i]).value <= v <==> Before(f, i, index, k)
  }

  /** The position stands for a line where the log splits at v. */
  ghost predicate At(files: seq<seq<Text>>, v: int, ver: Reading, index: nat, offset: nat) {
    index < |files| &&
    exists k: nat ::
      k <= |files[index]| && Splits(files, v, ver, index, k) && offset == Off(files[index], k)
  }

  ghost predicate Readable(files: seq<seq<Text>>, ver: Reading) {
    forall f, i | 0 <= f < |files| && 0 <= i < |files[f]| :: ver(files[f][i]).Some?
  }

  /** All readable lines behind file `index` are greater. */
  ghost predicate HighAfter(files: seq<seq<Text>>, v: int, ver: Reading, index: int) {
    forall f, i | index < f < |files| && 0 <= f && 0 <= i < |files[f]| && ver(files[f][i]).Some? ::
             ver(files[f][i]).value > v
  }

  /** A readable line at most v: so are all readable lines before it. */
  lemma LowBefore(files: seq<seq<Text>>, size: nat, v: int, ver: Reading, g: nat, j: nat)
    requires WellFormed(files, size, ver) && g < |files| && j < |files[g]| && AtMost(files[g][j], v, ver)
    ensures forall f, i | 0 <= f < |files| && 0 <= i < |files[f]| && ver(files[f][i]).Some? && Before(f, i, g, j + 1) ::
              ver(files[f][i]).value <= v
  {
    assert Unfold(0);
    forall f, i | 0 <= f < |files| && 0 <= i < |files[f]| && ver(files[f][i]).Some? && Before(f, i, g, j + 1)
      ensures ver(files[f][i]).value <= v
    {
      assert (f == g && i == j) || Before(f, i, g, j);
    }
  }

  /** A greater line: so are all readable lines behind it. */
  lemma HighFrom(files: seq<seq<Text>>, size: nat, v: int, ver: Reading, g: nat, j: nat)
    requires WellFormed(files, size, ver) && g < |files| && j < |files[g]| && Greater(files[g][j], v, ver)
    ensures forall f, i | 0 <= f < |files| && 0 <= i < |files[f]| && ver(files[f][i]).Some? && !Before(f, i, g, j) ::
              ver(files[f][i]).value > v
  {
    assert Unfold(0);
    forall f, i | 0 <= f < |files| && 0 <= i < |files[f]| && ver(files[f][i]).Some? && !Before(f, i, g, j)
      ensures ver(files[f][i]).value > v
    {
      assert (f == g && i == j) || Before(g, j, f, i);
    }
  }

  datatype Result = Position(index: nat, offset: nat) | Overflow | Invalid

  /** The version of v lies behind the last record of the last file. */
  predicate Behind(files: seq<seq<Text>>, v: int, ver: Reading) {
    files != [] && var lines := files[|files| - 1];
    lines != [] && ver(lines[0]).Some? && ver(lines[|lines| - 1]).Some? && v > ver(lines[|lines| - 1]).value
  }

  /** replica_binlog_get_position_by_dv: a line that does not unpack ends the search with an error. */
  method GetPosition(files: seq<seq<Text>>, size: nat, v: int, ver: Reading, ignoreOverflow: bool)
    returns (r: Result)
    requires files != [] && WellFormed(files, size, ver)
    ensures r.Position? ==> At(files, v, ver, r.index, r.offset)
    ensures r.Overflow? <==> !ignoreOverflow && Behind(files, v, ver)
    ensures r.Overflow? <==>
              !ignoreOverflow && var lines := files[|files| - 1];
              lines != [] && ver(lines[0]).Some? && ver(lines[|lines| - 1]).Some? && ver(lines[|lines| - 1]).value < v
    ensures r.Invalid? ==> !Readable(files, ver)
  {
    var index := |files| - 1;
    while index >= 0
      invariant -1 <= index < |files| && HighAfter(files, v, ver, index)
      invariant index < |files| - 1 ==> !Behind(files, v, ver)
    {
      if files[index] != [] {
        var first := ver(files[index][0]);
        if first == None {
          return Invalid;
        }
        if v >= first.value {
          r := FindPosition(files, index, size, v, ver, ignoreOverflow);
          return;
        }
        HighFrom(files, size, v, ver, index, 0);
        NotBehind(files, size, v, ver, index);
      }
      index := index - 1;
    }
    OffEnd(files[0]);
    assert Splits(files, v, ver, 0, 0);
    return Position(0, 0);
  }

  lemma NotBehind(files: seq<seq<Text>>, size: nat, v: int, ver: Reading, index: nat)
    requires index < |files| && files[index] != [] && HighAfter(files, v, ver, index - 1)
    ensures index == |files| - 1 ==> !Behind(files, v, ver)
  {
  }

  /** find_position in the chosen file. */
  method FindPosition(files: seq<seq<Text>>, index: nat, size: nat, v: int, ver: Reading, ignoreOverflow: bool)
    returns (r: Result)
    requires index < |files| && WellFormed(files, size, ver) && files[index] != [] && AtMost(files[index][0], v, ver)
    requires HighAfter(files, v, ver, index) && (index < |files| - 1 ==> !Behind(files, v, ver))
    ensures r.Position? ==> At(files, v, ver, r.index, r.offset)
    ensures r.Overflow? <==> !ignoreOverflow && Behind(files, v, ver)
    ensures r.Invalid? ==> !Readable(files, ver)
  {
    var lines := files[index];
    var last := ver(lines[|lines| - 1]);
    OffEnd(lines);
    if last == None {
      return Invalid;
    }
    if v >= last.value {
      LowBefore(files, size, v, ver, index, |lines| - 1);
      if index < |files| - 1 {
        OffEnd(files[index + 1]);
        assert Splits(files, v, ver, index + 1, 0);
        return Position(index + 1, 0);
      }
      if v == last.value || ignoreOverflow {
        assert Splits(files, v, ver, index, |lines|);
        return Position(index, Off(lines, |lines|));
      }
      return Overflow;
    }
    FileLines(files, size, ver, index);
    var scan := SearchFile(Concat(lines), size, v, ver, lines);
    if scan.BadLine? {
      return Invalid;
    }
    FoundSplits(files, size, v, ver, index);
    r := Position(index, scan.offset);
  }

  lemma FileLines(files: seq<seq<Text>>, size: nat, ver: Reading, index: nat)
    requires WellFormed(files, size, ver) && index < |files|
    ensures forall i | 0 <= i < |files[index]| :: IsLine(files[index][i]) && |files[index][i]| <= size
  {
    assert Unfold(0);
  }

  /** The first line that is not at most v, if it is greater, splits the log. */
  lemma FoundSplits(files: seq<seq<Text>>, size: nat, v: int, ver: Reading, index: nat)
    requires WellFormed(files, size, ver) && index < |files|
    requires var k := Leading(files[index], v, ver); 0 < k < |files[index]| && Greater(files[index][k], v, ver)
    ensures Splits(files, v, ver, index, Leading(files[index], v, ver))
  {
    var k := Leading(files[index], v, ver);
    LowBefore(files, size, v, ver, index, k - 1);
    HighFrom(files, size, v, ver, index, k);
  }
}
