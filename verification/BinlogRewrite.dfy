/**
 Rewriting a binlog from a position on: the front part of the first file is copied, and the kept
 lines go through a buffer into files that are rotated at a maximum size.
 */
module BinlogRewrite {
  import opened Common

  function Concat(parts: seq<Text>): Text {
    if parts == [] then [] else parts[0] + Concat(parts[1..])
  }

  lemma {:induction false} ConcatAppend(x: seq<Text>, y: seq<Text>)
    ensures Concat(x + y) == Concat(x) + Concat(y)
  {
    if x == [] {
      assert x + y == y;
    } else {
      assert (x + y)[0] == x[0] && (x + y)[1..] == x[1..] + y;
      ConcatAppend(x[1..], y);
    }
  }

  lemma ConcatOne(line: Text)
    ensures Concat([line]) == line
  {
    assert [line][1..] == [];
  }

  /** What the filter does with a line. */
  datatype Verdict = Keep | Skip | Bad

  function Kept(lines: seq<Text>, judge: Text -> Verdict): seq<Text> {
    if lines == [] then []
    else Kept(lines[..|lines| - 1], judge) + (if judge(lines[|lines| - 1]) == Keep then [lines[|lines| - 1]] else [])
  }

  lemma KeptNext(lines: seq<Text>, i: nat, judge: Text -> Verdict)
    requires i < |lines|
    ensures Kept(lines[..i + 1], judge) ==
            if judge(lines[i]) == Keep then Kept(lines[..i], judge) + [lines[i]] else Kept(lines[..i], judge)
  {
    assert lines[..i + 1] == lines[..i] + [lines[i]] && lines[..i + 1][..i] == lines[..i];
  }

  function Flatten(groups: seq<seq<Text>>): seq<Text> {
    if groups == [] then [] else Flatten(groups[..|groups| - 1]) + groups[|groups| - 1]
  }

  /** The files: each holds a group of whole lines, the first one behind the copied front part. */
  ghost predicate Files(files: seq<Text>, front: Text, groups: seq<seq<Text>>) {
    |files| == |groups| > 0 &&
    forall k | 0 <= k < |files| :: FileAt(files, front, groups, k)
  }

  ghost predicate FileAt(files: seq<Text>, front: Text, groups: seq<seq<Text>>, k: nat) {
    k < |files| && k < |groups| && files[k] == (if k == 0 then front else []) + Concat(groups[k])
  }

  lemma ConcatPush(parts: seq<Text>, last: Text)
    ensures Concat(parts + [last]) == Concat(parts) + last
  {
    ConcatAppend(parts, [last]);
    ConcatOne(last);
  }

  lemma FilesOne(file: Text, front: Text, group: seq<Text>)
    requires file == front + Concat(group)
    ensures Concat([file]) == front + Concat(Flatten([group]))
  {
    ConcatOne(file);
    assert [group][..0] == [];
    assert Flatten([]) == [];
    assert Flatten([group]) == group;
  }

  lemma FilesMore(files: seq<Text>, front: Text, groups: seq<seq<Text>>, file: Text, group: seq<Text>)
    requires Concat(files) == front + Concat(Flatten(groups)) && file == Concat(group)
    ensures Concat(files + [file]) == front + Concat(Flatten(groups + [group]))
  {
    var lines := Flatten(groups);
    ConcatPush(files, file);
    FlattenPush(groups, group);
    ConcatAppend(lines, group);
    var a, b := Concat(lines), Concat(group);
    assert front + a + b == front + (a + b);
  }

  lemma {:induction false} FilesUpTo(files: seq<Text>, front: Text, groups: seq<seq<Text>>, n: nat)
    requires Files(files, front, groups) && 1 <= n <= |files|
    ensures Concat(files[..n]) == front + Concat(Flatten(groups[..n]))
  {
    if n == 1 {
      assert files[..1] == [files[0]] && groups[..1] == [groups[0]];
      assert FileAt(files, front, groups, 0);
      FilesOne(files[0], front, groups[0]);
    } else {
      FilesUpTo(files, front, groups, n - 1);
      assert files[..n] == files[..n - 1] + [files[n - 1]];
      assert groups[..n] == groups[..n - 1] + [groups[n - 1]];
      assert FileAt(files, front, groups, n - 1);
      FilesMore(files[..n - 1], front, groups[..n - 1], files[n - 1], groups[n - 1]);
    }
  }

  lemma FilesConcat(files: seq<Text>, front: Text, groups: seq<seq<Text>>)
    requires Files(files, front, groups)
    ensures Concat(files) == front + Concat(Flatten(groups))
  {
    FilesUpTo(files, front, groups, |files|);
    assert files[..|files|] == files && groups[..|groups|] == groups;
  }

  /** A new file is started only with a line that does not fit into the old one. */
  ghost predicate Tight(groups: seq<seq<Text>>, maxSize: nat) {
    forall k | 0 <= k < |groups| - 1 :: TightAt(groups, k, maxSize)
  }

  /** The lines of each file stay within the limit; the copied front part is not counted. */
  ghost predicate Limited(groups: seq<seq<Text>>, maxSize: nat) {
    forall k | 0 <= k < |groups| :: |Concat(groups[k])| <= maxSize
  }

  /** What the writer makes of a front part and the kept lines. */
  ghost predicate Output(files: seq<Text>, front: Text, lines: seq<Text>, maxSize: nat) {
    exists groups ::
      Files(files, front, groups) && Flatten(groups) == lines && Tight(groups, maxSize) && Limited(groups, maxSize)
  }

  ghost predicate TightAt(groups: seq<seq<Text>>, k: nat, maxSize: nat) {
    k + 1 < |groups| && groups[k + 1] != [] && |Concat(groups[k])| + |groups[k + 1][0]| > maxSize
  }

  class RepairWriter {
    const bufferSize: nat
    const maxSize: nat
    var files: seq<Text>      // the output files; the last one is open
    var fileSize: int         // bytes written to the open file, not counting a copied front part
    var buffer: Text
    ghost var front: Text
    ghost var groups: seq<seq<Text>>   // the lines in each file
    ghost var pending: seq<Text>       // the lines in the buffer

    ghost predicate Valid()
      reads this
    {
      forall k {:trigger Unfold(k)} :: Unfold(k) ==>
        bufferSize <= maxSize && |buffer| <= bufferSize && fileSize <= maxSize &&
        Files(files, front, groups) && buffer == Concat(pending) && (buffer == [] ==> pending == []) &&
        fileSize == |Concat(groups[|groups| - 1])| && Tight(groups, maxSize) && Limited(groups, maxSize) &&
        (fileSize + |buffer| > maxSize ==> pending != [] && fileSize + |pending[0]| > maxSize)
    }

    /** The lines accepted so far. */
    ghost function Lines(): seq<Text>
      reads this
    {
      Flatten(groups) + pending
    }

    /** open_write_file and copy_binlog_front_part, for the first `offset` bytes of a file. */
    constructor (bufferSize: nat, maxSize: nat, source: Text, offset: nat)
      requires 0 < bufferSize <= maxSize && offset <= |source|
      ensures Valid() && Lines() == [] && front == source[..offset]
      ensures this.bufferSize == bufferSize && this.maxSize == maxSize
    {
      this.bufferSize, this.maxSize := bufferSize, maxSize;
      var copied := CopyFrontPart(source, offset, bufferSize);
      files, fileSize, buffer := [copied], 0, [];
      front, groups, pending := copied, [[]], [];
    }

    static method CopyFrontPart(source: Text, offset: nat, bufferSize: nat) returns (copied: Text)
      requires offset <= |source| && bufferSize > 0
      ensures copied == source[..offset]
    {
      copied := [];
      var remain := offset;
      while remain > 0
        invariant 0 <= remain <= offset && copied == source[..offset - remain]
      {
        var current := if remain > bufferSize then bufferSize else remain;
        copied := copied + source[offset - remain..offset - remain + current];
        remain := remain - current;
      }
    }

    method DoWriteToFile()
      requires Valid() && fileSize + |buffer| <= maxSize
      modifies this
      ensures Valid() && Lines() == old(Lines()) && front == old(front) && buffer == []
    {
      assert Unfold(0);
      var n := |files| - 1;
      GrowLast(files, front, groups, pending, maxSize);
      FlattenMore(groups, pending);
      files := files[n := files[n] + buffer];
      fileSize := fileSize + |buffer|;
      groups := groups[n := groups[n] + pending];
      buffer, pending := [], [];
    }

    /** binlog_write_to_file: the whole buffer goes to the open file, or to the next one. */
    method WriteToFile()
      requires Valid()
      modifies this
      ensures Valid() && Lines() == old(Lines()) && front == old(front) && buffer == []
    {
      assert Unfold(0);
      if fileSize + |buffer| <= maxSize {
        DoWriteToFile();
      } else {
        Rotate();
      }
    }

    /** Opens the next file and writes the buffer to it. */
    method Rotate()
      requires Valid() && fileSize + |buffer| > maxSize
      modifies this
      ensures Valid() && Lines() == old(Lines()) && front == old(front) && buffer == []
    {
      assert Unfold(0);
      FlattenPush(groups, pending);
      GrowFiles(files, front, groups, pending, maxSize);
      files, fileSize := files + [buffer], |buffer|;
      groups := groups + [pending];
      buffer, pending := [], [];
    }

    /** write_one_line. */
    method WriteOneLine(line: Text)
      requires Valid() && 0 < |line| <= bufferSize
      modifies this
      ensures Valid() && Lines() == old(Lines()) + [line] && front == old(front)
    {
      assert Unfold(0);
      if fileSize + |buffer| + |line| > maxSize {
        WriteToFile();
      } else if bufferSize - |buffer| < |line| {
        WriteToFile();
      }
      ConcatAppend(pending, [line]);
      ConcatOne(line);
      buffer := buffer + line;
      pending := pending + [line];
    }

    /** The end of binlog_filter: what is still in the buffer is written. */
    method WriteRest()
      requires Valid()
      modifies this
      ensures Valid() && front == old(front) && buffer == [] && Flatten(groups) == old(Lines())
      ensures Concat(files) == front + Concat(old(Lines())) && Output(files, front, old(Lines()), maxSize)
    {
      assert Unfold(0);
      if |buffer| > 0 {
        WriteToFile();
      }
      FilesConcat(files, front, groups);
    }

    /** binlog_filter over the lines of the log from the position on; stops at a bad line. */
    method Filter(lines: seq<Text>, judge: Text -> Verdict) returns (ok: bool)
      requires Valid() && Lines() == [] && forall line | line in lines :: 0 < |line| <= bufferSize
      modifies this
      ensures Valid() && front == old(front)
      ensures ok <==> forall line | line in lines :: judge(line) != Bad
      ensures ok ==> buffer == [] && Concat(files) == front + Concat(Kept(lines, judge))
      ensures ok ==> Output(files, front, Kept(lines, judge), maxSize)
    {
      var i := 0;
      while i < |lines|
        invariant i <= |lines| && Valid() && front == old(front) && Lines() == Kept(lines[..i], judge)
        invariant forall j | 0 <= j < i :: judge(lines[j]) != Bad
      {
        KeptNext(lines, i, judge);
        assert lines[i] in lines;
        match judge(lines[i]) {
          case Bad => return false;
          case Keep => WriteOneLine(lines[i]);
          case Skip =>
        }
        i := i + 1;
      }
      assert lines[..i] == lines;
      WriteRest();
      ok := true;
    }
  }

  lemma GrowLastFile(files: seq<Text>, front: Text, groups: seq<seq<Text>>, more: seq<Text>)
    requires Files(files, front, groups)
    ensures var n := |groups| - 1; var groups' := groups[n := groups[n] + more];
            Concat(groups'[n]) == Concat(groups[n]) + Concat(more) &&
            Files(files[n := files[n] + Concat(more)], front, groups')
  {
    var n := |groups| - 1;
    var files', groups' := files[n := files[n] + Concat(more)], groups[n := groups[n] + more];
    ConcatAppend(groups[n], more);
    var lead, a, b := if n == 0 then front else [], Concat(groups[n]), Concat(more);
    assert FileAt(files, front, groups, n);
    assert lead + a + b == lead + (a + b);
    forall k | 0 <= k < |files'| ensures FileAt(files', front, groups', k) {
      assert FileAt(files, front, groups, k);
    }
  }

  lemma GrowTight(groups: seq<seq<Text>>, groups': seq<seq<Text>>, maxSize: nat)
    requires Tight(groups, maxSize) && Limited(groups, maxSize) && |groups| == |groups'| > 0
    requires forall k | 0 <= k < |groups| - 1 :: groups'[k] == groups[k]
    requires groups[|groups| - 1] <= groups'[|groups| - 1] && |Concat(groups'[|groups| - 1])| <= maxSize
    ensures Tight(groups', maxSize) && Limited(groups', maxSize)
  {
    forall k | 0 <= k < |groups| - 1 ensures TightAt(groups', k, maxSize) {
      assert TightAt(groups, k, maxSize);
    }
  }

  /** More lines at the end of the last file. */
  lemma GrowLast(files: seq<Text>, front: Text, groups: seq<seq<Text>>, more: seq<Text>, maxSize: nat)
    requires Files(files, front, groups) && Tight(groups, maxSize) && Limited(groups, maxSize)
    requires |Concat(groups[|groups| - 1])| + |Concat(more)| <= maxSize
    ensures var n := |groups| - 1; var groups' := groups[n := groups[n] + more];
            Concat(groups'[n]) == Concat(groups[n]) + Concat(more) &&
            Files(files[n := files[n] + Concat(more)], front, groups') && Tight(groups', maxSize) &&
            Limited(groups', maxSize)
  {
    GrowLastFile(files, front, groups, more);
    GrowTight(groups, groups[|groups| - 1 := groups[|groups| - 1] + more], maxSize);
  }

  /** A further file for lines that do not fit into the last one. */
  lemma GrowFiles(files: seq<Text>, front: Text, groups: seq<seq<Text>>, more: seq<Text>, maxSize: nat)
    requires Files(files, front, groups) && Tight(groups, maxSize) && Limited(groups, maxSize)
    requires more != [] && |Concat(groups[|groups| - 1])| + |more[0]| > maxSize >= |Concat(more)|
    ensures Files(files + [Concat(more)], front, groups + [more]) && Tight(groups + [more], maxSize)
    ensures Limited(groups + [more], maxSize)
  {
    var files', groups' := files + [Concat(more)], groups + [more];
    forall k | 0 <= k < |files'| ensures FileAt(files', front, groups', k) {
      if k < |files| { assert FileAt(files, front, groups, k); }
    }
    forall k | 0 <= k < |groups'| - 1 ensures TightAt(groups', k, maxSize) {
      if k < |groups| - 1 { assert TightAt(groups, k, maxSize); }
    }
  }

  /* ---------------------------------------------------------------- the size of the files */

  /** Every file but the first stays within the limit; the first one may exceed it by the front part. */
  lemma FileSizes(files: seq<Text>, front: Text, lines: seq<Text>, maxSize: nat)
    requires Output(files, front, lines, maxSize)
    ensures files != [] && |files[0]| <= |front| + maxSize
    ensures forall k | 0 < k < |files| :: |files[k]| <= maxSize
  {
    var groups :| Files(files, front, groups) && Flatten(groups) == lines && Tight(groups, maxSize) &&
        Limited(groups, maxSize);
    forall k | 0 <= k < |files| ensures |files[k]| <= (if k == 0 then |front| else 0) + maxSize {
      assert FileAt(files, front, groups, k);
    }
  }

  lemma {:induction false} FlattenHas(groups: seq<seq<Text>>, k: nat)
    requires k + 1 < |groups|
    ensures |Concat(groups[k])| + |Concat(groups[k + 1])| <= |Concat(Flatten(groups))|
  {
    var n := |groups| - 1;
    ConcatAppend(Flatten(groups[..n]), groups[n]);
    if k + 1 < n {
      FlattenHas(groups[..n], k);
    } else {
      assert groups[..n][..k] == groups[..k];
      ConcatAppend(Flatten(groups[..k]), groups[k]);
    }
  }

  /** Lines that fit into one file go into one file. */
  lemma FewLines(files: seq<Text>, front: Text, lines: seq<Text>, maxSize: nat)
    requires Output(files, front, lines, maxSize) && |Concat(lines)| <= maxSize
    ensures files == [front + Concat(lines)]
  {
    var groups :| Files(files, front, groups) && Flatten(groups) == lines && Tight(groups, maxSize) &&
        Limited(groups, maxSize);
    if |groups| > 1 {
      assert TightAt(groups, 0, maxSize);
      FlattenHas(groups, 0);
      assert false;
    }
    assert groups == [groups[0]] && [groups[0]][..0] == [];
    assert Flatten(groups) == groups[0];
    assert FileAt(files, front, groups, 0);
  }

  lemma {:induction false} FlattenFront(groups: seq<seq<Text>>)
    requires groups != []
    ensures Flatten(groups) == groups[0] + Flatten(groups[1..])
    decreases |groups|
  {
    var n := |groups| - 1;
    if n == 0 {
      assert groups[..0] == [] && groups[1..] == [];
      assert Flatten(groups) == [] + groups[0];
    } else {
      FlattenFront(groups[..n]);
      var rest := groups[1..];
      assert rest[..n - 1] == groups[..n][1..] && rest[n - 1] == groups[n];
      assert groups[..n][0] == groups[0];
      assert groups[0] + Flatten(rest[..n - 1]) + rest[n - 1] == groups[0] + (Flatten(rest[..n - 1]) + rest[n - 1]);
    }
  }

  lemma Overlapping(x: seq<Text>, r: seq<Text>, y: seq<Text>, t: seq<Text>)
    requires x + r == y + t && |x| < |y|
    ensures r != [] && r[0] == y[|x|] && x == y[..|x|]
  {
    assert |x + r| == |x| + |r| && |y + t| == |y| + |t|;
    assert (x + r)[|x|] == r[0] && (y + t)[|x|] == y[|x|];
    assert x == (x + r)[..|x|] && y[..|x|] == (y + t)[..|x|];
  }

  lemma NextGroup(a: seq<seq<Text>>, maxSize: nat)
    requires a != [] && Tight(a, maxSize) && Flatten(a[1..]) != []
    ensures |a| > 1 && a[1] != [] && Flatten(a[1..])[0] == a[1][0] && |Concat(a[0])| + |a[1][0]| > maxSize
  {
    assert TightAt(a, 0, maxSize);
    FlattenFront(a[1..]);
  }

  /** A group cannot end where the next line would still have fitted. */
  lemma FirstNotShorter(a: seq<seq<Text>>, b: seq<seq<Text>>, maxSize: nat)
    requires a != [] && b != [] && Tight(a, maxSize) && |Concat(b[0])| <= maxSize && Flatten(a) == Flatten(b)
    ensures |a[0]| >= |b[0]|
  {
    FlattenFront(a);
    FlattenFront(b);
    if |a[0]| < |b[0]| {
      Overlapping(a[0], Flatten(a[1..]), b[0], Flatten(b[1..]));
      NextGroup(a, maxSize);
      PrefixFits(a[0], a[1][0], b[0]);
    }
  }

  lemma PrefixFits(front: seq<Text>, line: Text, group: seq<Text>)
    requires |front| < |group| && front == group[..|front|] && line == group[|front|]
    ensures |Concat(front)| + |line| <= |Concat(group)|
  {
    var n := |front|;
    assert group == group[..n] + group[n..];
    ConcatAppend(group[..n], group[n..]);
    assert group[n..][0] == line;
  }

  /** The packing of the lines into groups is determined by the limit alone. */
  lemma {:induction false} PackingUnique(a: seq<seq<Text>>, b: seq<seq<Text>>, maxSize: nat)
    requires a != [] && b != [] && Tight(a, maxSize) && Limited(a, maxSize) && Tight(b, maxSize) && Limited(b, maxSize)
    requires Flatten(a) == Flatten(b)
    ensures a == b
    decreases |a|
  {
    FirstNotShorter(a, b, maxSize);
    FirstNotShorter(b, a, maxSize);
    FlattenFront(a);
    FlattenFront(b);
    assert a[0] == Flatten(a)[..|a[0]|] && b[0] == Flatten(b)[..|b[0]|];
    assert Flatten(a[1..]) == Flatten(a)[|a[0]|..] && Flatten(b[1..]) == Flatten(b)[|b[0]|..];
    TailPacked(a, maxSize);
    TailPacked(b, maxSize);
    if |a| > 1 && |b| > 1 {
      PackingUnique(a[1..], b[1..], maxSize);
    }
    assert a == [a[0]] + a[1..] && b == [b[0]] + b[1..];
  }

  lemma TailPacked(groups: seq<seq<Text>>, maxSize: nat)
    requires groups != [] && Tight(groups, maxSize) && Limited(groups, maxSize)
    ensures Tight(groups[1..], maxSize) && Limited(groups[1..], maxSize)
    ensures groups[1..] == [] <==> Flatten(groups[1..]) == []
  {
    var rest := groups[1..];
    forall k | 0 <= k < |rest| - 1 ensures TightAt(rest, k, maxSize) { assert TightAt(groups, k + 1, maxSize); }
    if rest != [] {
      assert TightAt(groups, 0, maxSize);
      FlattenFront(rest);
    }
  }

  /** What the writer makes is determined: every file takes as many lines as the limit allows. */
  lemma OutputUnique(files: seq<Text>, files': seq<Text>, front: Text, lines: seq<Text>, maxSize: nat)
    requires Output(files, front, lines, maxSize) && Output(files', front, lines, maxSize)
    ensures files == files'
  {
    var a :| Files(files, front, a) && Flatten(a) == lines && Tight(a, maxSize) && Limited(a, maxSize);
    var b :| Files(files', front, b) && Flatten(b) == lines && Tight(b, maxSize) && Limited(b, maxSize);
    PackingUnique(a, b, maxSize);
    forall k | 0 <= k < |files| ensures files[k] == files'[k] {
      assert FileAt(files, front, a, k) && FileAt(files', front, b, k);
    }
  }

  /** So many lines that hold nothing but a newline. */
  function Newlines(n: nat): (lines: seq<Text>)
    ensures |lines| == n && forall line | line in lines :: line == ['\n']
  {
    if n == 0 then [] else Newlines(n - 1) + [['\n']]
  }

  lemma {:induction false} NewlinesLength(n: nat)
    ensures |Concat(Newlines(n))| == n
  {
    if n > 0 {
      NewlinesLength(n - 1);
      ConcatPush(Newlines(n - 1), ['\n']);
    }
  }

  ghost predicate WithinLimit(files: seq<Text>, maxSize: nat) {
    forall k | 0 <= k < |files| :: |files[k]| <= maxSize
  }

  /** Whatever lines are kept, all files stay within the limit: exactly when nothing was copied. */
  lemma LimitHoldsExactly(front: Text, maxSize: nat)
    ensures (forall files, lines | Output(files, front, lines, maxSize) :: WithinLimit(files, maxSize)) <==> front == []
  {
    if front == [] {
      forall files, lines | Output(files, front, lines, maxSize) ensures WithinLimit(files, maxSize) {
        FileSizes(files, front, lines, maxSize);
      }
    } else {
      var lines := Newlines(maxSize);
      var files := [front + Concat(lines)];
      NewlinesLength(maxSize);
      assert [lines][..0] == [];
      assert Flatten([lines]) == lines;
      assert FileAt(files, front, [lines], 0) && Files(files, front, [lines]);
      assert Output(files, front, lines, maxSize) && !WithinLimit(files, maxSize) by {
        assert |files[0]| > maxSize;
      }
    }
  }

  /** The writer itself makes such a file: after a copied front part, lines that fill the limit. */
  method OverfullFile(source: Text, offset: nat, bufferSize: nat, maxSize: nat) returns (writer: RepairWriter)
    requires 0 < offset <= |source| && 0 < bufferSize <= maxSize
    ensures |writer.files| == 1 && |writer.files[0]| == offset + maxSize > maxSize
  {
    writer := new RepairWriter(bufferSize, maxSize, source, offset);
    var lines := Newlines(maxSize);
    var judge := (line: Text) => Keep;
    var ok := writer.Filter(lines, judge);
    AllKept(lines, judge);
    NewlinesLength(maxSize);
    FewLines(writer.files, writer.front, lines, maxSize);
  }

  lemma {:induction false} AllKept(lines: seq<Text>, judge: Text -> Verdict)
    requires forall line | line in lines :: judge(line) == Keep
    ensures Kept(lines, judge) == lines
  {
    if lines != [] {
      AllKept(lines[..|lines| - 1], judge);
      assert lines == lines[..|lines| - 1] + [lines[|lines| - 1]];
    }
  }

  lemma FlattenMore(groups: seq<seq<Text>>, more: seq<Text>)
    requires groups != []
    ensures var n := |groups| - 1; Flatten(groups[n := groups[n] + more]) == Flatten(groups) + more
  {
    var n := |groups| - 1;
    var front, last := Flatten(groups[..n]), groups[n];
    assert groups[n := last + more][..n] == groups[..n];
    assert front + (last + more) == front + last + more;
  }

  lemma FlattenPush(groups: seq<seq<Text>>, last: seq<Text>)
    ensures Flatten(groups + [last]) == Flatten(groups) + last
  {
    assert (groups + [last])[..|groups|] == groups;
  }
}
