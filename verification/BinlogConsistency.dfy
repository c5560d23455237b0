/**
 The start-up check on the files: the windows of the replica binlogs and of the slice binlog behind their
 positions are read, their versions compared, and a dirty log is rewritten and replaced.
 */
module BinlogConsistency {
  import opened Common
  import opened BinlogRewrite
  import opened BinlogReader
  import opened BinlogRepair
  import opened BinlogCheck

  /** binlog_unpack_common_fields: a line that does not parse has no record. */
  type Parser = Text -> Option<Record>

  ghost predicate Parses(lines: seq<Text>, parse: Parser) {
    forall i | 0 <= i < |lines| :: parse(lines[i]).Some?
  }

  function Records(lines: seq<Text>, parse: Parser): seq<Record>
    requires forall i | 0 <= i < |lines| :: parse(lines[i]).Some?
  {
    if lines == [] then [] else Records(lines[..|lines| - 1], parse) + [parse(lines[|lines| - 1]).value]
  }

  /** What the filter of a repair does with a line. */
  function Judge(parse: Parser, keep: seq<Version>): Text -> Verdict {
    line =>
      match parse(line)
      case None => Bad
      case Some(r) => if Internal(r) || Version(r.group, r.version) in keep then Keep else Skip
  }

  lemma {:induction false} KeptParses(lines: seq<Text>, parse: Parser, keep: seq<Version>)
    requires Parses(lines, parse)
    ensures Parses(Kept(lines, Judge(parse, keep)), parse)
  {
    if lines != [] { KeptParses(lines[..|lines| - 1], parse, keep); }
  }

  lemma RecordsPush(lines: seq<Text>, line: Text, parse: Parser)
    requires Parses(lines, parse) && parse(line).Some?
    ensures Parses(lines + [line], parse) &&
            Records(lines + [line], parse) == Records(lines, parse) + [parse(line).value]
  {
    assert (lines + [line])[..|lines|] == lines;
  }

  lemma FilteredPush(rs: seq<Record>, r: Record, keep: seq<Version>)
    ensures Filtered(rs + [r], keep) ==
            if Internal(r) || Version(r.group, r.version) in keep then Filtered(rs, keep) + [r] else Filtered(rs, keep)
  {
    assert (rs + [r])[..|rs|] == rs;
  }

  /** Filtering lines is filtering their records. */
  lemma {:induction false} KeptRecords(lines: seq<Text>, parse: Parser, keep: seq<Version>)
    requires Parses(lines, parse)
    ensures Parses(Kept(lines, Judge(parse, keep)), parse)
    ensures Records(Kept(lines, Judge(parse, keep)), parse) == Filtered(Records(lines, parse), keep)
  {
    KeptParses(lines, parse, keep);
    if lines != [] {
      var front, line := lines[..|lines| - 1], lines[|lines| - 1];
      KeptRecords(front, parse, keep);
      FilteredPush(Records(front, parse), parse(line).value, keep);
      if Judge(parse, keep)(line) == Keep {
        RecordsPush(Kept(front, Judge(parse, keep)), line, parse);
      } else {
        assert Kept(lines, Judge(parse, keep)) == Kept(front, Judge(parse, keep));
      }
    }
  }

  lemma {:induction false} RecordsHas(lines: seq<Text>, parse: Parser, i: nat)
    requires Parses(lines, parse) && i < |lines|
    ensures parse(lines[i]).value in Records(lines, parse)
    decreases |lines|
  {
    if i < |lines| - 1 { RecordsHas(lines[..|lines| - 1], parse, i); }
  }

  lemma {:induction false} KeptSame(lines: seq<Text>, judge: Text -> Verdict, judge': Text -> Verdict)
    requires forall line | line in lines :: judge(line) == judge'(line)
    ensures Kept(lines, judge) == Kept(lines, judge')
  {
    if lines != [] { KeptSame(lines[..|lines| - 1], judge, judge'); }
  }

  /* ---------------------------------------------------------------- one log */

  /** A position in a log, and the log as it is at one time. */
  datatype Spot = Spot(start: nat, offset: nat)

  datatype Copy = Copy(files: map<nat, Text>, index: nat) {
    predicate Has(spot: Spot) { Positioned(files, index, spot.start, spot.offset) }
  }

  function Of(disk: Disk): Copy
    reads disk
  {
    Copy(disk.files, disk.index)
  }

  /** The lines that the reading loop sees behind a position. */
  function Window(c: Copy, spot: Spot): seq<Text>
    requires c.Has(spot)
  {
    SplitLines(SeenOf(c.files, c.index, spot.start, spot.offset))
  }

  /** The lines end, fit the buffer and parse. */
  ghost predicate Loads(c: Copy, spot: Spot, parse: Parser, bufferSize: nat) {
    c.Has(spot) &&
    forall u {:trigger Unfold(u)} :: Unfold(u) ==>
      Readable(FileList(c.files, c.index), spot.start, spot.offset, bufferSize) &&
      Parses(Window(c, spot), parse)
  }

  ghost function VersionsOf(c: Copy, spot: Spot, parse: Parser): seq<Version> {
    if c.Has(spot) && Parses(Window(c, spot), parse) then Versions(Records(Window(c, spot), parse)) else []
  }

  ghost predicate Holds(c: Copy, spot: Spot, parse: Parser, versions: seq<Version>) {
    forall u {:trigger Unfold(u)} :: Unfold(u) ==> versions == VersionsOf(c, spot, parse)
  }

  method ParseAll(lines: seq<Text>, parse: Parser) returns (ok: bool, records: seq<Record>)
    ensures ok <==> Parses(lines, parse)
    ensures ok ==> records == Records(lines, parse)
  {
    records := [];
    for i := 0 to |lines|
      invariant Parses(lines[..i], parse) && records == Records(lines[..i], parse)
    {
      if parse(lines[i]) == None {
        return false, records;
      }
      RecordsPush(lines[..i], lines[i], parse);
      assert lines[..i + 1] == lines[..i] + [lines[i]];
      records := records + [parse(lines[i]).value];
    }
    assert lines[..|lines|] == lines;
    ok := true;
  }

  /** do_load_data_versions: it fails exactly when a line does not end, fit or parse. */
  method LoadWindow(disk: Disk, spot: Spot, parse: Parser, bufferSize: nat) returns (ok: bool, versions: seq<Version>)
    requires Of(disk).Has(spot) && bufferSize > 0
    ensures ok <==> Loads(Of(disk), spot, parse, bufferSize)
    ensures ok ==> Holds(Of(disk), spot, parse, versions)
  {
    assert Unfold(0);
    var reader := new Reader(FileList(disk.files, disk.index), spot.start, spot.offset);
    var lines, records;
    ghost var text;
    ok, text, lines := reader.ReadAll(bufferSize);
    versions := [];
    if ok {
      ok, records := ParseAll(lines, parse);
      if ok {
        versions := LoadVersions(records);
      }
    }
  }

  lemma OutputConcat(files: seq<Text>, front: Text, lines: seq<Text>, maxSize: nat)
    requires Output(files, front, lines, maxSize)
    ensures files != [] && front <= files[0] && Concat(files) == front + Concat(lines)
    ensures forall k | 0 < k < |files| :: files[k] != []
  {
    var groups :| Files(files, front, groups) && Flatten(groups) == lines && Tight(groups, maxSize) &&
        Limited(groups, maxSize);
    FilesConcat(files, front, groups);
    assert FileAt(files, front, groups, 0);
    forall k | 0 < k < |files| ensures files[k] != [] {
      assert FileAt(files, front, groups, k) && TightAt(groups, k - 1, maxSize);
    }
  }

  /** What stands behind the position after the files have been replaced. */
  lemma NewWindow(files: map<nat, Text>, index: nat, start: nat, out: seq<Text>, front: Text, lines: seq<Text>,
                  maxSize: nat)
    requires Output(out, front, lines, maxSize) && index == start + |out| - 1 && out != []
    requires forall i: nat | i <= index :: i in files
    requires forall i: nat | start <= i <= index :: files[i] == out[i - start]
    ensures Positioned(files, index, start, |front|) && files[start][..|front|] == front
    ensures SeenOf(files, index, start, |front|) == Concat(lines)
  {
    OutputConcat(out, front, lines, maxSize);
    var list := FileList(files, index);
    assert list[start..] == out;
    assert list[start + 1..] == out[1..];
    RestIs(list, start, out, front, Concat(lines));
    SeenIsRest(list, start, |front|);
  }

  lemma RestIs(list: seq<Text>, start: nat, out: seq<Text>, front: Text, rest: Text)
    requires start < |list| && out != [] && list[start] == out[0] && list[start + 1..] == out[1..]
    requires front <= out[0] && Concat(out) == front + rest
    ensures Rest(list, start, |front|) == rest
  {
    var tail := out[0][|front|..];
    assert out[0] == front + tail;
    AppendAssoc(out[0], front, tail, Concat(out[1..]));
    assert front + rest == front + (tail + Concat(out[1..]));
    assert (front + rest)[|front|..] == rest;
    assert (front + (tail + Concat(out[1..])))[|front|..] == tail + Concat(out[1..]);
  }

  lemma {:induction false} FlattenIn(groups: seq<seq<Text>>, k: nat, line: Text)
    requires k < |groups| && line in groups[k]
    ensures line in Flatten(groups)
    decreases |groups|
  {
    if k < |groups| - 1 { FlattenIn(groups[..|groups| - 1], k, line); }
  }

  /** The lines of file number k end and fit. */
  lemma GroupFits(out: seq<Text>, front: Text, groups: seq<seq<Text>>, k: nat, size: nat)
    requires Files(out, front, groups) && k < |out|
    requires forall line | line in Flatten(groups) :: IsLine(line) && |line| <= size
    ensures var offset := if k == 0 then |front| else 0;
            offset <= |out[k]| && Fits(out[k][offset..], size)
  {
    assert FileAt(out, front, groups, k);
    forall line | line in groups[k] ensures IsLine(line) && |line| <= size { FlattenIn(groups, k, line); }
    SplitConcat(groups[k]);
    var offset := if k == 0 then |front| else 0;
    assert out[k][offset..] == Concat(groups[k]);
  }

  /** The files from number k on can be read again. */
  lemma {:induction false} GroupsReadable(list: seq<Text>, start: nat, out: seq<Text>, front: Text,
                                          groups: seq<seq<Text>>, k: nat, size: nat)
    requires |list| == start + |out| && k < |out| && forall j | 0 <= j < |out| :: list[start + j] == out[j]
    requires Files(out, front, groups) && forall line | line in Flatten(groups) :: IsLine(line) && |line| <= size
    ensures (if k == 0 then |front| else 0) <= |list[start + k]|
    ensures Readable(list, start + k, if k == 0 then |front| else 0, size)
    decreases |out| - k
  {
    assert list[start + k] == out[k];
    GroupFits(out, front, groups, k, size);
    if k + 1 < |out| {
      GroupsReadable(list, start, out, front, groups, k + 1, size);
    }
  }

  lemma ListIs(files: map<nat, Text>, index: nat, start: nat, out: seq<Text>)
    requires index == start + |out| - 1 && out != [] && forall i: nat | i <= index :: i in files
    requires forall i: nat | start <= i <= index :: files[i] == out[i - start]
    ensures var list := FileList(files, index);
            |list| == start + |out| && forall j | 0 <= j < |out| :: list[start + j] == out[j]
  {
  }

  lemma NewReadable(files: map<nat, Text>, index: nat, start: nat, out: seq<Text>, front: Text, lines: seq<Text>,
                    maxSize: nat, size: nat)
    requires Output(out, front, lines, maxSize) && index == start + |out| - 1 && out != []
    requires forall i: nat | i <= index :: i in files
    requires forall i: nat | start <= i <= index :: files[i] == out[i - start]
    requires forall line | line in lines :: IsLine(line) && |line| <= size
    ensures |front| <= |files[start]| && Readable(FileList(files, index), start, |front|, size)
  {
    var groups :| Files(out, front, groups) && Flatten(groups) == lines && Tight(groups, maxSize) &&
        Limited(groups, maxSize);
    ListIs(files, index, start, out);
    FirstReadable(FileList(files, index), start, out, front, groups, size);
  }

  lemma FirstReadable(list: seq<Text>, start: nat, out: seq<Text>, front: Text, groups: seq<seq<Text>>, size: nat)
    requires |list| == start + |out| && forall j | 0 <= j < |out| :: list[start + j] == out[j]
    requires Files(out, front, groups) && forall line | line in Flatten(groups) :: IsLine(line) && |line| <= size
    ensures start < |list| && |front| <= |list[start]| && Readable(list, start, |front|, size)
  {
    GroupsReadable(list, start, out, front, groups, 0, size);
  }

  /** The repaired files, position by position. */
  lemma RepairedWindow(plan: Plan, spot: Spot, lines: seq<Text>, maxSize: nat, size: nat)
    requires plan.Proper() && spot.start == plan.start && spot.offset <= |plan.files[plan.start]|
    requires Output(plan.out, plan.files[plan.start][..spot.offset], lines, maxSize)
    requires forall line | line in lines :: IsLine(line) && |line| <= size
    ensures var c := Copy(Repaired(plan), plan.End());
            c.Has(spot) && Window(c, spot) == lines &&
            Readable(FileList(c.files, c.index), spot.start, spot.offset, size) &&
            c.files[spot.start][..spot.offset] == plan.files[spot.start][..spot.offset] &&
            Before(c.files, spot.start) == Before(plan.files, spot.start)
  {
    InFiles(plan, Repaired(plan), plan.End());
    var front := plan.files[plan.start][..spot.offset];
    NewCopy(Copy(Repaired(plan), plan.End()), spot, plan.out, front, lines, maxSize, size);
  }

  lemma NewCopy(c: Copy, spot: Spot, out: seq<Text>, front: Text, lines: seq<Text>, maxSize: nat, size: nat)
    requires Output(out, front, lines, maxSize) && c.index == spot.start + |out| - 1 && out != []
    requires forall i: nat | i <= c.index :: i in c.files
    requires forall i: nat | spot.start <= i <= c.index :: c.files[i] == out[i - spot.start]
    requires |front| == spot.offset && forall line | line in lines :: IsLine(line) && |line| <= size
    ensures c.Has(spot) && Window(c, spot) == lines && c.files[spot.start][..spot.offset] == front
    ensures Readable(FileList(c.files, c.index), spot.start, spot.offset, size)
  {
    NewWindow(c.files, c.index, spot.start, out, front, lines, maxSize);
    NewReadable(c.files, c.index, spot.start, out, front, lines, maxSize, size);
    SplitConcat(lines);
  }

  lemma InFiles(plan: Plan, files: map<nat, Text>, index: nat)
    requires plan.Proper() && files == Repaired(plan) && index == plan.End()
    ensures forall i: nat | i <= index :: i in files
    ensures forall i: nat | plan.start <= i <= index :: files[i] == plan.out[i - plan.start]
    ensures Before(files, plan.start) == Before(plan.files, plan.start)
  {
    RepairedFiles(plan);
    BeforeSame(plan.files, files, plan.start);
  }

  /** The filter meets no bad line exactly when all lines parse. */
  lemma JudgedExactly(lines: seq<Text>, parse: Parser, keep: seq<Version>)
    ensures Parses(lines, parse) <==> forall line | line in lines :: Judge(parse, keep)(line) != Bad
  {
    if Parses(lines, parse) {
      forall line | line in lines ensures Judge(parse, keep)(line) != Bad {
        var i :| 0 <= i < |lines| && lines[i] == line;
      }
    } else {
      var i :| 0 <= i < |lines| && parse(lines[i]) == None;
      assert lines[i] in lines;
    }
  }

  lemma {:induction false} ReadableLines(files: seq<Text>, index: nat, offset: nat, size: nat)
    requires index < |files| && offset <= |files[index]| && Readable(files, index, offset, size)
    ensures Whole(Seen(files, index, offset))
    ensures forall line | line in SplitLines(Seen(files, index, offset)) :: IsLine(line) && |line| <= size
    decreases |files| - index
  {
    var part := files[index][offset..];
    SplitWhole(part);
    if index + 1 < |files| && files[index + 1] != [] {
      ReadableLines(files, index + 1, 0, size);
      SplitAppend(part, Seen(files, index + 1, 0));
      WholeAppend(part, Seen(files, index + 1, 0));
    } else {
      assert part + [] == part;
    }
  }

  /** The log c' is the log c with its window filtered by the versions. */
  ghost predicate Trimmed(c: Copy, c': Copy, spot: Spot, parse: Parser, keep: seq<Version>, bufferSize: nat) {
    c.Has(spot) && c'.Has(spot) && Loads(c', spot, parse, bufferSize) &&
    forall u {:trigger Unfold(u)} :: Unfold(u) ==>
      Window(c', spot) == Kept(Window(c, spot), Judge(parse, keep)) &&
      c'.files[spot.start][..spot.offset] == c.files[spot.start][..spot.offset] &&
      Before(c'.files, spot.start) == Before(c.files, spot.start)
  }

  lemma PlanTrims(plan: Plan, spot: Spot, parse: Parser, keep: seq<Version>, bufferSize: nat, maxSize: nat)
    requires plan.Proper() && spot.start == plan.start
    requires var c := Copy(plan.files, plan.index);
             Loads(c, spot, parse, bufferSize) &&
             Output(plan.out, plan.files[plan.start][..spot.offset], Kept(Window(c, spot), Judge(parse, keep)), maxSize)
    ensures Trimmed(Copy(plan.files, plan.index), Copy(Repaired(plan), plan.End()), spot, parse, keep, bufferSize)
  {
    assert Unfold(0);
    var c := Copy(plan.files, plan.index);
    var lines := Window(c, spot);
    ReadableLines(FileList(c.files, c.index), spot.start, spot.offset, bufferSize);
    KeptIn(lines, Judge(parse, keep));
    KeptParses(lines, parse, keep);
    RepairedWindow(plan, spot, Kept(lines, Judge(parse, keep)), maxSize, bufferSize);
  }

  lemma EndTrims(c: Copy, spot: Spot, parse: Parser, keep: seq<Version>, bufferSize: nat)
    requires c.Has(spot) && AtEnd(c.files, c.index, spot.start, spot.offset)
    ensures Loads(c, spot, parse, bufferSize) && Trimmed(c, c, spot, parse, keep, bufferSize)
  {
    var list := FileList(c.files, c.index);
    assert list[spot.start][spot.offset..] == [] && SeenOf(c.files, c.index, spot.start, spot.offset) == [];
    assert Window(c, spot) == [];
    assert Fits([], bufferSize) by { assert SplitLines([]) == []; }
  }

  /** binlog_repair without a crash: it fails, changing nothing, exactly when the log does not load. */
  method RepairWindow(disk: Disk, spot: Spot, parse: Parser, keep: seq<Version>, bufferSize: nat, maxSize: nat)
    returns (ok: bool)
    requires disk.sys == None && Of(disk).Has(spot) && 0 < bufferSize <= maxSize
    modifies disk
    ensures disk.sys == None && (ok <==> old(Loads(Of(disk), spot, parse, bufferSize)))
    ensures !ok || old(AtEnd(disk.files, disk.index, spot.start, spot.offset)) ==> Of(disk) == old(Of(disk))
    ensures ok ==> Trimmed(old(Of(disk)), Of(disk), spot, parse, keep, bufferSize)
  {
    assert Unfold(0);
    ghost var c := Of(disk);
    ghost var plan;
    JudgedExactly(Window(c, spot), parse, keep);
    ok, plan := RepairNow(disk, spot.start, spot.offset, Judge(parse, keep), bufferSize, maxSize);
    if AtEnd(c.files, c.index, spot.start, spot.offset) {
      EndTrims(c, spot, parse, keep, bufferSize);
    } else if ok {
      PlanTrims(plan, spot, parse, keep, bufferSize, maxSize);
    }
  }

  lemma RepairedVersions(lines: seq<Text>, parse: Parser, keep: seq<Version>, x: Version)
    requires Parses(lines, parse)
    ensures Parses(Kept(lines, Judge(parse, keep)), parse)
    ensures x in Versions(Records(Kept(lines, Judge(parse, keep)), parse)) <==>
              x in Versions(Records(lines, parse)) && x in keep
  {
    KeptRecords(lines, parse, keep);
    FilteredVersions(Records(lines, parse), keep, x);
  }

  /** What a filtered log holds. */
  lemma TrimmedVersions(c: Copy, c': Copy, spot: Spot, parse: Parser, keep: seq<Version>, bufferSize: nat, x: Version)
    requires Loads(c, spot, parse, bufferSize) && Trimmed(c, c', spot, parse, keep, bufferSize)
    ensures x in VersionsOf(c', spot, parse) <==> x in VersionsOf(c, spot, parse) && x in keep
  {
    assert Unfold(0);
    RepairedVersions(Window(c, spot), parse, keep, x);
  }

  /** A log whose versions are all to be kept is its own filtered form. */
  lemma CleanTrims(c: Copy, spot: Spot, parse: Parser, keep: seq<Version>, bufferSize: nat)
    requires Loads(c, spot, parse, bufferSize) && forall x | x in VersionsOf(c, spot, parse) :: x in keep
    ensures Trimmed(c, c, spot, parse, keep, bufferSize)
  {
    assert Unfold(0);
    CleanKept(Window(c, spot), parse, keep);
  }

  lemma CleanKept(lines: seq<Text>, parse: Parser, keep: seq<Version>)
    requires Parses(lines, parse) && forall x | x in Versions(Records(lines, parse)) :: x in keep
    ensures Kept(lines, Judge(parse, keep)) == lines
  {
    forall line | line in lines ensures Judge(parse, keep)(line) == Keep {
      var i :| 0 <= i < |lines| && lines[i] == line;
      var r := parse(line).value;
      RecordsHas(lines, parse, i);
      VersionsIn(Records(lines, parse), Version(r.group, r.version));
    }
    AllKept(lines, Judge(parse, keep));
  }

  /** Only the versions of the array matter, not their order. */
  lemma SameKeep(c: Copy, c': Copy, spot: Spot, parse: Parser, keep: seq<Version>, keep': seq<Version>,
                 bufferSize: nat)
    requires Trimmed(c, c', spot, parse, keep, bufferSize) && forall x :: x in keep <==> x in keep'
    ensures Trimmed(c, c', spot, parse, keep', bufferSize)
  {
    assert Unfold(0);
    var lines := Window(c, spot);
    forall line | line in lines ensures Judge(parse, keep)(line) == Judge(parse, keep')(line) { }
    KeptSame(lines, Judge(parse, keep), Judge(parse, keep'));
  }

  /* ---------------------------------------------------------------- all logs of a server */

  ghost function Copies(disks: seq<Disk>): (r: seq<Copy>)
    reads disks
    ensures |r| == |disks| && forall i | 0 <= i < |disks| :: r[i] == Of(disks[i])
  {
    seq(|disks|, i requires 0 <= i < |disks| reads disks => Of(disks[i]))
  }

  /** One log per data group, each with its position and with no repair under way. */
  ghost predicate Placed(disks: seq<Disk>, spots: seq<Spot>)
    reads disks
  {
    |spots| == |disks| && forall u {:trigger Unfold(u)} :: Unfold(u) ==> AllPlaced(disks, spots)
  }

  ghost predicate AllLoad(cs: seq<Copy>, spots: seq<Spot>, parse: Parser, bufferSize: nat) {
    |spots| == |cs| && forall i | 0 <= i < |cs| :: Loads(cs[i], spots[i], parse, bufferSize)
  }

  ghost predicate AllTrimmed(cs: seq<Copy>, cs': seq<Copy>, spots: seq<Spot>, parse: Parser, keep: seq<Version>,
                             bufferSize: nat) {
    |cs| == |cs'| == |spots| &&
    forall i | 0 <= i < |cs| :: Trimmed(cs[i], cs'[i], spots[i], parse, keep, bufferSize)
  }

  function Join(parts: seq<seq<Version>>): seq<Version> {
    if parts == [] then [] else Join(parts[..|parts| - 1]) + parts[|parts| - 1]
  }

  lemma {:induction false} JoinIn(parts: seq<seq<Version>>, x: Version)
    ensures x in Join(parts) <==> exists i :: 0 <= i < |parts| && x in parts[i]
  {
    if parts != [] {
      JoinIn(parts[..|parts| - 1], x);
    }
  }

  lemma JoinPush(parts: seq<seq<Version>>, part: seq<Version>)
    ensures Join(parts + [part]) == Join(parts) + part
  {
    assert (parts + [part])[..|parts|] == parts;
  }

  /** The versions of each log. */
  ghost function Shares(cs: seq<Copy>, spots: seq<Spot>, parse: Parser): (r: seq<seq<Version>>)
    requires |cs| == |spots|
    ensures |r| == |cs| && forall i | 0 <= i < |r| :: r[i] == VersionsOf(cs[i], spots[i], parse)
  {
    seq(|cs|, i requires 0 <= i < |cs| => VersionsOf(cs[i], spots[i], parse))
  }

  ghost predicate HoldAll(cs: seq<Copy>, spots: seq<Spot>, parse: Parser, versions: seq<Version>)
    requires |cs| == |spots|
  {
    forall u {:trigger Unfold(u)} :: Unfold(u) ==> versions == Join(Shares(cs, spots, parse))
  }

  /** The first i logs are loaded. */
  ghost predicate Loaded(cs: seq<Copy>, spots: seq<Spot>, parse: Parser, i: nat, parts: seq<seq<Version>>,
                         versions: seq<Version>) {
    forall u {:trigger Unfold(u)} :: Unfold(u) ==>
      i == |parts| <= |cs| == |spots| && versions == Join(parts) &&
      forall j | 0 <= j < i :: Holds(cs[j], spots[j], parse, parts[j])
  }

  lemma LoadedMore(cs: seq<Copy>, spots: seq<Spot>, parse: Parser, i: nat, parts: seq<seq<Version>>,
                   versions: seq<Version>, loaded: seq<Version>)
    requires i < |cs| == |spots| && Loaded(cs, spots, parse, i, parts, versions)
    requires Holds(cs[i], spots[i], parse, loaded)
    ensures Loaded(cs, spots, parse, i + 1, parts + [loaded], versions + loaded)
  {
    assert Unfold(0);
    JoinPush(parts, loaded);
  }

  lemma SharesAre(cs: seq<Copy>, spots: seq<Spot>, parse: Parser, parts: seq<seq<Version>>, versions: seq<Version>)
    requires |cs| == |spots| && Loaded(cs, spots, parse, |cs|, parts, versions)
    ensures HoldAll(cs, spots, parse, versions)
  {
    assert Unfold(0);
    assert parts == Shares(cs, spots, parse);
  }

  /** One log of many is loaded. */
  method LoadAt(disks: seq<Disk>, spots: seq<Spot>, i: nat, parse: Parser, bufferSize: nat)
    returns (ok: bool, versions: seq<Version>)
    requires Placed(disks, spots) && i < |disks| && bufferSize > 0
    ensures ok <==> Loads(Copies(disks)[i], spots[i], parse, bufferSize)
    ensures ok ==> Holds(Copies(disks)[i], spots[i], parse, versions)
  {
    assert Of(disks[i]).Has(spots[i]) by { assert Unfold(0); }
    ok, versions := LoadWindow(disks[i], spots[i], parse, bufferSize);
  }

  /** binlog_load_data_versions, for the replica logs: the versions of all windows in one array. */
  method LoadReplicas(disks: seq<Disk>, spots: seq<Spot>, parse: Parser, bufferSize: nat)
    returns (ok: bool, versions: seq<Version>)
    requires Placed(disks, spots) && bufferSize > 0
    ensures ok <==> AllLoad(Copies(disks), spots, parse, bufferSize)
    ensures ok ==> HoldAll(Copies(disks), spots, parse, versions)
  {
    versions := [];
    ghost var cs := Copies(disks);
    ghost var parts: seq<seq<Version>> := [];
    for i := 0 to |disks|
      invariant Copies(disks) == cs && forall j | 0 <= j < i :: Loads(cs[j], spots[j], parse, bufferSize)
      invariant Loaded(cs, spots, parse, i, parts, versions)
    {
      var loaded;
      ok, loaded := LoadAt(disks, spots, i, parse, bufferSize);
      assert Copies(disks) == cs;
      if !ok {
        return;
      }
      LoadedMore(cs, spots, parse, i, parts, versions, loaded);
      versions, parts := versions + loaded, parts + [loaded];
    }
    SharesAre(cs, spots, parse, parts, versions);
    ok := true;
  }

  /** A position at the end of its log. */
  ghost predicate Ends(c: Copy, spot: Spot) {
    c.Has(spot) && AtEnd(c.files, c.index, spot.start, spot.offset)
  }

  /** One log of many is repaired. */
  method RepairAt(disks: seq<Disk>, spots: seq<Spot>, i: nat, parse: Parser, keep: seq<Version>, bufferSize: nat,
                  maxSize: nat)
    requires Placed(disks, spots) && i < |disks| && 0 < bufferSize <= maxSize
    requires Loads(Copies(disks)[i], spots[i], parse, bufferSize)
    modifies disks[i]
    ensures Placed(disks, spots)
    ensures Copies(disks) == old(Copies(disks))[i := Copies(disks)[i]]
    ensures Trimmed(old(Copies(disks))[i], Copies(disks)[i], spots[i], parse, keep, bufferSize)
    ensures Ends(old(Copies(disks))[i], spots[i]) ==> Copies(disks)[i] == old(Copies(disks))[i]
  {
    PlacedIs(disks, spots);
    var ok := RepairWindow(disks[i], spots[i], parse, keep, bufferSize, maxSize);
    IsPlaced(disks, spots);
  }

  ghost predicate AllPlaced(disks: seq<Disk>, spots: seq<Spot>)
    reads disks
  {
    |spots| == |disks| && (forall i, j | 0 <= i < j < |disks| :: disks[i] != disks[j]) &&
    forall i | 0 <= i < |disks| :: disks[i].sys == None && Of(disks[i]).Has(spots[i])
  }

  lemma PlacedIs(disks: seq<Disk>, spots: seq<Spot>)
    requires Placed(disks, spots)
    ensures AllPlaced(disks, spots)
  {
    assert Unfold(0);
  }

  lemma IsPlaced(disks: seq<Disk>, spots: seq<Spot>)
    requires AllPlaced(disks, spots)
    ensures Placed(disks, spots)
  {
  }

  /** binlog_consistency_repair_replica: one log after the other. */
  method RepairReplicas(disks: seq<Disk>, spots: seq<Spot>, parse: Parser, keep: seq<Version>, bufferSize: nat,
                        maxSize: nat)
    requires Placed(disks, spots) && 0 < bufferSize <= maxSize
    requires AllLoad(Copies(disks), spots, parse, bufferSize)
    modifies disks
    ensures Placed(disks, spots)
    ensures AllTrimmed(old(Copies(disks)), Copies(disks), spots, parse, keep, bufferSize)
    ensures forall i | 0 <= i < |disks| && Ends(old(Copies(disks))[i], spots[i]) ::
              Copies(disks)[i] == old(Copies(disks))[i]
  {
    ghost var was := Copies(disks);
    for i := 0 to |disks|
      invariant Placed(disks, spots)
      invariant forall j | 0 <= j < i :: Trimmed(was[j], Copies(disks)[j], spots[j], parse, keep, bufferSize)
      invariant forall j | 0 <= j < i :: Ends(was[j], spots[j]) ==> Copies(disks)[j] == was[j]
      invariant forall j | i <= j < |disks| :: Copies(disks)[j] == was[j]
    {
      RepairAt(disks, spots, i, parse, keep, bufferSize, maxSize);
    }
  }

  /** Before the check the replica logs held `parts` and the slice log `sv`.  Afterwards each log holds x
      exactly if it did so before and the other side did too, and so both sides agree on x. */
  ghost predicate AgreedOn(parts: seq<seq<Version>>, parts': seq<seq<Version>>, sv: seq<Version>, sv': seq<Version>,
                           x: Version) {
    |parts'| == |parts| && (forall i | 0 <= i < |parts'| :: x in parts'[i] <==> x in parts[i] && x in sv) &&
    (x in sv' <==> x in sv && x in Join(parts)) && (x in Join(parts') <==> x in sv')
  }

  lemma AgreeOn(parts: seq<seq<Version>>, parts': seq<seq<Version>>, sv: seq<Version>, sv': seq<Version>, x: Version)
    requires |parts'| == |parts| && forall i | 0 <= i < |parts'| :: x in parts'[i] <==> x in parts[i] && x in sv
    requires x in sv' <==> x in sv && x in Join(parts)
    ensures AgreedOn(parts, parts', sv, sv', x)
  {
    JoinIn(parts, x);
    JoinIn(parts', x);
  }

  /** A check that was cut off between or within its repairs has left every log as it was or repaired.  The
      next check then ends as the first one would have. */
  lemma ResumedCheck(parts: seq<seq<Version>>, mid: seq<seq<Version>>, parts': seq<seq<Version>>, sv: seq<Version>,
                     midSv: seq<Version>, sv': seq<Version>, x: Version)
    requires |mid| == |parts|
    requires forall i | 0 <= i < |mid| ::
               (x in mid[i] <==> x in parts[i]) || (x in mid[i] <==> x in parts[i] && x in sv)
    requires (x in midSv <==> x in sv) || (x in midSv <==> x in sv && x in Join(parts))
    requires AgreedOn(mid, parts', midSv, sv', x)
    ensures AgreedOn(parts, parts', sv, sv', x)
  {
    JoinIn(parts, x);
    JoinIn(mid, x);
  }

  /** What a check makes of the replica logs `rs` and the slice log s.  Every log keeps exactly its internal
      records and those whose version the other side had too; so both sides end with the versions they
      shared, and a second check finds nothing; a side that had nothing of its own is untouched. */
  ghost predicate Agreed(rs: seq<Copy>, rs': seq<Copy>, spots: seq<Spot>, s: Copy, s': Copy, spot: Spot, parse: Parser,
                         bufferSize: nat) {
    |rs| == |rs'| == |spots| && AllLoad(rs', spots, parse, bufferSize) && Loads(s', spot, parse, bufferSize) &&
    forall u {:trigger Unfold(u)} :: Unfold(u) ==>
      var parts, parts' := Shares(rs, spots, parse), Shares(rs', spots, parse);
      var sv, sv' := VersionsOf(s, spot, parse), VersionsOf(s', spot, parse);
      AllTrimmed(rs, rs', spots, parse, sv, bufferSize) && Trimmed(s, s', spot, parse, Join(parts), bufferSize) &&
      (forall x :: AgreedOn(parts, parts', sv, sv', x)) &&
      (!Lacks(Join(parts), sv) ==> rs' == rs) && (!Lacks(sv, Join(parts)) ==> s' == s)
  }

  lemma AllAgree(rs: seq<Copy>, rs': seq<Copy>, spots: seq<Spot>, s: Copy, s': Copy, spot: Spot, parse: Parser,
                 rv: seq<Version>, sv: seq<Version>, bufferSize: nat, x: Version)
    requires AllLoad(rs, spots, parse, bufferSize) && Loads(s, spot, parse, bufferSize)
    requires rv == Join(Shares(rs, spots, parse)) && sv == VersionsOf(s, spot, parse)
    requires AllTrimmed(rs, rs', spots, parse, sv, bufferSize) && Trimmed(s, s', spot, parse, rv, bufferSize)
    ensures AgreedOn(Shares(rs, spots, parse), Shares(rs', spots, parse), sv, VersionsOf(s', spot, parse), x)
  {
    var parts, parts' := Shares(rs, spots, parse), Shares(rs', spots, parse);
    forall i | 0 <= i < |parts'| ensures x in parts'[i] <==> x in parts[i] && x in sv {
      TrimmedVersions(rs[i], rs'[i], spots[i], parse, sv, bufferSize, x);
    }
    TrimmedVersions(s, s', spot, parse, rv, bufferSize, x);
    AgreeOn(parts, parts', sv, VersionsOf(s', spot, parse), x);
  }

  lemma HoldIs(rs: seq<Copy>, spots: seq<Spot>, s: Copy, spot: Spot, parse: Parser, rv: seq<Version>, sv: seq<Version>)
    requires |rs| == |spots| && HoldAll(rs, spots, parse, rv) && Holds(s, spot, parse, sv)
    ensures rv == Join(Shares(rs, spots, parse)) && sv == VersionsOf(s, spot, parse)
  {
    assert Unfold(0);
  }

  lemma Agree(rs: seq<Copy>, rs': seq<Copy>, spots: seq<Spot>, s: Copy, s': Copy, spot: Spot, parse: Parser,
              rv: seq<Version>, sv: seq<Version>, bufferSize: nat)
    requires AllLoad(rs, spots, parse, bufferSize) && Loads(s, spot, parse, bufferSize)
    requires HoldAll(rs, spots, parse, rv) && Holds(s, spot, parse, sv)
    requires AllTrimmed(rs, rs', spots, parse, sv, bufferSize) && Trimmed(s, s', spot, parse, rv, bufferSize)
    requires (!Lacks(rv, sv) ==> rs' == rs) && (!Lacks(sv, rv) ==> s' == s)
    ensures Agreed(rs, rs', spots, s, s', spot, parse, bufferSize)
  {
    HoldIs(rs, spots, s, spot, parse, rv, sv);
    forall x
      ensures AgreedOn(Shares(rs, spots, parse), Shares(rs', spots, parse), sv, VersionsOf(s', spot, parse), x)
    {
      AllAgree(rs, rs', spots, s, s', spot, parse, rv, sv, bufferSize, x);
    }
  }

  /** What the filter keeps, line by line: no-ops, lines without a version, and lines whose version is in the
      array. */
  lemma {:induction false} KeptLine(lines: seq<Text>, parse: Parser, keep: seq<Version>, line: Text)
    ensures line in Kept(lines, Judge(parse, keep)) <==>
            line in lines && parse(line).Some? &&
            var r := parse(line).value; r.op == 'N' || r.version == 0 || Version(r.group, r.version) in keep
  {
    if lines != [] {
      KeptLine(lines[..|lines| - 1], parse, keep, line);
      assert lines == lines[..|lines| - 1] + [lines[|lines| - 1]];
    }
  }

  /** A line is left in a replica log exactly if it was there and is a no-op, has no version, or has a
      version that the slice log held; and alike for the slice log. */
  lemma AgreedLines(rs: seq<Copy>, rs': seq<Copy>, spots: seq<Spot>, s: Copy, s': Copy, spot: Spot, parse: Parser,
                    bufferSize: nat, line: Text, i: nat)
    requires Agreed(rs, rs', spots, s, s', spot, parse, bufferSize) && i < |rs|
    requires rs[i].Has(spots[i]) && s.Has(spot)
    ensures rs'[i].Has(spots[i]) && s'.Has(spot)
    ensures line in Window(rs'[i], spots[i]) <==>
            line in Window(rs[i], spots[i]) && parse(line).Some? &&
            var r := parse(line).value;
            r.op == 'N' || r.version == 0 || Version(r.group, r.version) in VersionsOf(s, spot, parse)
    ensures line in Window(s', spot) <==>
            line in Window(s, spot) && parse(line).Some? &&
            var r := parse(line).value;
            r.op == 'N' || r.version == 0 || Version(r.group, r.version) in Join(Shares(rs, spots, parse))
  {
    assert Unfold(0);
    assert Trimmed(rs[i], rs'[i], spots[i], parse, VersionsOf(s, spot, parse), bufferSize);
    KeptLine(Window(rs[i], spots[i]), parse, VersionsOf(s, spot, parse), line);
    KeptLine(Window(s, spot), parse, Join(Shares(rs, spots, parse)), line);
  }

  /** A log of no-ops and lines without a version only. */
  ghost predicate OnlyInternal(c: Copy, spot: Spot, parse: Parser) {
    c.Has(spot) &&
    forall line | line in Window(c, spot) ::
      parse(line).Some? && (parse(line).value.op == 'N' || parse(line).value.version == 0)
  }

  lemma {:induction false} InternalNoVersions(lines: seq<Text>, parse: Parser)
    requires Parses(lines, parse)
    requires forall line | line in lines ::
               parse(line).Some? && (parse(line).value.op == 'N' || parse(line).value.version == 0)
    ensures Versions(Records(lines, parse)) == []
  {
    if lines != [] {
      InternalNoVersions(lines[..|lines| - 1], parse);
      assert lines[|lines| - 1] in lines;
    }
  }

  /** Logs without a version of their own are untouched, whatever the other side holds. */
  lemma InternalUntouched(rs: seq<Copy>, rs': seq<Copy>, spots: seq<Spot>, s: Copy, s': Copy, spot: Spot, parse: Parser,
                          bufferSize: nat)
    requires Agreed(rs, rs', spots, s, s', spot, parse, bufferSize)
    ensures (forall i | 0 <= i < |rs| :: OnlyInternal(rs[i], spots[i], parse)) ==> rs' == rs
    ensures OnlyInternal(s, spot, parse) ==> s' == s
  {
    var sv, rv := VersionsOf(s, spot, parse), Join(Shares(rs, spots, parse));
    AgreedUntouched(rs, rs', spots, s, s', spot, parse, bufferSize);
    if forall i | 0 <= i < |rs| :: OnlyInternal(rs[i], spots[i], parse) {
      forall x ensures x !in rv {
        JoinIn(Shares(rs, spots, parse), x);
        forall i | 0 <= i < |rs| ensures x !in Shares(rs, spots, parse)[i] {
          NothingHeld(rs[i], spots[i], parse);
        }
      }
    }
    if OnlyInternal(s, spot, parse) { NothingHeld(s, spot, parse); }
  }

  lemma NothingHeld(c: Copy, spot: Spot, parse: Parser)
    requires OnlyInternal(c, spot, parse)
    ensures VersionsOf(c, spot, parse) == []
  {
    if Parses(Window(c, spot), parse) { InternalNoVersions(Window(c, spot), parse); }
  }

  lemma AgreedUntouched(rs: seq<Copy>, rs': seq<Copy>, spots: seq<Spot>, s: Copy, s': Copy, spot: Spot, parse: Parser,
                        bufferSize: nat)
    requires Agreed(rs, rs', spots, s, s', spot, parse, bufferSize)
    ensures var sv, rv := VersionsOf(s, spot, parse), Join(Shares(rs, spots, parse));
            (!Lacks(rv, sv) ==> rs' == rs) && (!Lacks(sv, rv) ==> s' == s)
  {
    assert Unfold(0);
  }

  /** A clean replica side is its own filtered form. */
  lemma CleanReplicas(rs: seq<Copy>, spots: seq<Spot>, parse: Parser, rv: seq<Version>, keep: seq<Version>,
                      bufferSize: nat)
    requires AllLoad(rs, spots, parse, bufferSize) && HoldAll(rs, spots, parse, rv) && !Lacks(rv, keep)
    ensures AllTrimmed(rs, rs, spots, parse, keep, bufferSize)
  {
    forall i | 0 <= i < |rs| ensures Trimmed(rs[i], rs[i], spots[i], parse, keep, bufferSize) {
      forall x | x in VersionsOf(rs[i], spots[i], parse) ensures x in keep {
        assert Unfold(0);
        JoinIn(Shares(rs, spots, parse), x);
      }
      CleanTrims(rs[i], spots[i], parse, keep, bufferSize);
    }
  }

  /** do_binlog_check on the files of all data groups and of the slice log.  It fails, changing nothing,
      exactly when some log does not load; otherwise it makes both sides agree. */
  method CheckAndRepairFiles(replicas: seq<Disk>, spots: seq<Spot>, slice: Disk, spot: Spot, parse: Parser,
                             bufferSize: nat, maxSize: nat)
    returns (ok: bool)
    requires Placed(replicas, spots) && slice !in replicas && slice.sys == None && Of(slice).Has(spot)
    requires 0 < bufferSize <= maxSize
    modifies replicas, slice
    ensures Placed(replicas, spots) && slice.sys == None
    ensures ok <==> old(AllLoad(Copies(replicas), spots, parse, bufferSize)) &&
                    old(Loads(Of(slice), spot, parse, bufferSize))
    ensures !ok ==> Copies(replicas) == old(Copies(replicas)) && Of(slice) == old(Of(slice))
    ensures ok ==>
              Agreed(old(Copies(replicas)), Copies(replicas), spots, old(Of(slice)), Of(slice), spot, parse, bufferSize)
    ensures (forall i | 0 <= i < |replicas| :: OnlyInternal(old(Copies(replicas))[i], spots[i], parse)) ==>
              Copies(replicas) == old(Copies(replicas))
    ensures OnlyInternal(old(Of(slice)), spot, parse) ==> Of(slice) == old(Of(slice))
  {
    ghost var rs, s := Copies(replicas), Of(slice);
    var rv, sv;
    ok, rv := LoadReplicas(replicas, spots, parse, bufferSize);
    assert Copies(replicas) == rs;
    if !ok {
      return;
    }
    ok, sv := LoadWindow(slice, spot, parse, bufferSize);
    assert Copies(replicas) == rs;
    if !ok {
      return;
    }
    var replicaDirty, sliceDirty := CheckSorted(rv, sv);
    RepairBoth(replicas, spots, slice, spot, parse, rv, sv, replicaDirty, sliceDirty, bufferSize, maxSize);
    Agree(rs, Copies(replicas), spots, s, Of(slice), spot, parse, rv, sv, bufferSize);
    InternalUntouched(rs, Copies(replicas), spots, s, Of(slice), spot, parse, bufferSize);
  }

  /** The repairs that the flags ask for. */
  method RepairBoth(replicas: seq<Disk>, spots: seq<Spot>, slice: Disk, spot: Spot, parse: Parser, rv: seq<Version>,
                    sv: seq<Version>, replicaDirty: bool, sliceDirty: bool, bufferSize: nat, maxSize: nat)
    requires Placed(replicas, spots) && slice !in replicas && slice.sys == None && Of(slice).Has(spot)
    requires AllLoad(Copies(replicas), spots, parse, bufferSize) && Loads(Of(slice), spot, parse, bufferSize)
    requires HoldAll(Copies(replicas), spots, parse, rv) && (replicaDirty <==> Lacks(rv, sv))
    requires Holds(Of(slice), spot, parse, sv) && (sliceDirty <==> Lacks(sv, rv))
    requires 0 < bufferSize <= maxSize
    modifies replicas, slice
    ensures Placed(replicas, spots) && slice.sys == None
    ensures AllTrimmed(old(Copies(replicas)), Copies(replicas), spots, parse, sv, bufferSize)
    ensures Trimmed(old(Of(slice)), Of(slice), spot, parse, rv, bufferSize)
    ensures !replicaDirty ==> Copies(replicas) == old(Copies(replicas))
    ensures !sliceDirty ==> Of(slice) == old(Of(slice))
  {
    ghost var rs, s := Copies(replicas), Of(slice);
    if replicaDirty {
      RepairReplicas(replicas, spots, parse, Sort(sv), bufferSize, maxSize);
      ReplicasSameKeep(rs, Copies(replicas), spots, parse, sv, bufferSize);
    } else {
      CleanReplicas(rs, spots, parse, rv, sv, bufferSize);
    }
    ghost var rs' := Copies(replicas);
    RepairSlice(slice, spot, parse, rv, sv, sliceDirty, bufferSize, maxSize);
    assert Copies(replicas) == rs';
  }

  method RepairSlice(slice: Disk, spot: Spot, parse: Parser, rv: seq<Version>, ghost sv: seq<Version>, dirty: bool,
                     bufferSize: nat, maxSize: nat)
    requires slice.sys == None && Loads(Of(slice), spot, parse, bufferSize) && 0 < bufferSize <= maxSize
    requires Holds(Of(slice), spot, parse, sv) && (dirty <==> Lacks(sv, rv))
    modifies slice
    ensures slice.sys == None && Trimmed(old(Of(slice)), Of(slice), spot, parse, rv, bufferSize)
    ensures !dirty ==> Of(slice) == old(Of(slice))
  {
    if dirty {
      var done := RepairWindow(slice, spot, parse, Sort(rv), bufferSize, maxSize);
      SortSorted(rv);
      SameKeep(old(Of(slice)), Of(slice), spot, parse, Sort(rv), rv, bufferSize);
    } else {
      assert forall x | x in VersionsOf(Of(slice), spot, parse) :: x in rv by { assert Unfold(0); }
      CleanTrims(Of(slice), spot, parse, rv, bufferSize);
    }
  }

  lemma ReplicasSameKeep(rs: seq<Copy>, rs': seq<Copy>, spots: seq<Spot>, parse: Parser, keep: seq<Version>,
                         bufferSize: nat)
    requires AllTrimmed(rs, rs', spots, parse, Sort(keep), bufferSize)
    ensures AllTrimmed(rs, rs', spots, parse, keep, bufferSize)
  {
    SortSorted(keep);
    forall i | 0 <= i < |rs| ensures Trimmed(rs[i], rs'[i], spots[i], parse, keep, bufferSize) {
      SameKeep(rs[i], rs'[i], spots[i], parse, Sort(keep), keep, bufferSize);
    }
  }

  /** The sort and the merge of binlog_check. */
  method CheckSorted(replica: seq<Version>, slice: seq<Version>) returns (replicaDirty: bool, sliceDirty: bool)
    ensures replicaDirty <==> Lacks(replica, slice)
    ensures sliceDirty <==> Lacks(slice, replica)
  {
    SortSorted(replica);
    SortSorted(slice);
    replicaDirty, sliceDirty := Check(Sort(replica), Sort(slice));
  }
}
