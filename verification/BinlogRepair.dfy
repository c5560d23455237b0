/**
 Replacing a part of a binlog by repaired files so that a crash at any point leaves either the old or
 the repaired log: the repaired files are written beside the log, the repair is recorded in the sys
 data file, the files are renamed one by one, the writer's index is set, and the record is removed.
 Start-up finishes a recorded repair.  A crash is modelled by a budget of disk operations.
 */
module BinlogRepair {
  import opened Common
  import opened BinlogRewrite
  import opened BinlogReader

  datatype SysData = SysData(start: nat, end: nat)

  /** The old log and the repaired files, which replace the old ones from `start` on. */
  datatype Plan = Plan(files: map<nat, Text>, index: nat, start: nat, out: seq<Text>) {
    function End(): int { start + |out| - 1 }
    predicate Proper() { out != [] && start <= index && forall i: nat | i <= index :: i in files }
    predicate InRange(i: nat) { start <= i <= End() }
  }

  /** The log is the contents of its files up to the write index. */
  function Log(files: map<nat, Text>, index: nat): Text {
    (if index == 0 then [] else Log(files, index - 1)) + (if index in files then files[index] else [])
  }

  /** The files once the repaired ones have replaced the old ones. */
  function Repaired(plan: Plan): map<nat, Text> {
    plan.files + map i: nat | plan.start <= i <= plan.End() && plan.InRange(i) :: plan.out[i - plan.start]
  }

  class Disk {
    var files: map<nat, Text>     // the binlog files
    var repair: map<nat, Text>    // the files with extension .repair
    var sys: Option<SysData>
    var index: nat                // the writer's current index

    /** Nothing of the log has been touched yet. */
    ghost predicate Old(plan: Plan)
      reads this
    {
      plan.Proper() && sys == None && files == plan.files && index == plan.index
    }

    /** The repair is recorded: the repaired files are complete, renamed or not. */
    ghost predicate Recorded(plan: Plan)
      reads this
    {
      plan.Proper() && sys == Some(SysData(plan.start, plan.End())) && (index == plan.index || index == plan.End()) &&
      (forall i: nat | plan.InRange(i) ::
         if i in repair then repair[i] == plan.out[i - plan.start]
         else i in files && files[i] == plan.out[i - plan.start]) &&
      (forall i: nat | !plan.InRange(i) ::
         (i in files <==> i in plan.files) && (i in files ==> files[i] == plan.files[i]))
    }

    /** The first `done` repaired files have been renamed. */
    ghost predicate RenamedTo(plan: Plan, done: nat)
      reads this
    {
      Recorded(plan) && plan.start <= done && forall i: nat | plan.start <= i < done && plan.InRange(i) :: i !in repair
    }

    ghost predicate New(plan: Plan)
      reads this
    {
      plan.Proper() && sys == None && files == Repaired(plan) && index == plan.End()
    }

    constructor (files: map<nat, Text>, index: nat)
      ensures this.files == files && this.index == index && sys == None && repair == map[]
    {
      this.files, this.index, sys, repair := files, index, None, map[];
    }

    /** The repaired files are written beside the log.  Files left over from an earlier crash are
        truncated; a crash may leave any text in the file being written. */
    method WriteFiles(plan: Plan, budget: nat) returns (crashed: bool, left: nat)
      requires Old(plan)
      modifies this`repair
      ensures Old(plan)
      ensures !crashed ==> forall i: nat | plan.InRange(i) :: i in repair && repair[i] == plan.out[i - plan.start]
      ensures (crashed <==> budget < |plan.out|) && (!crashed ==> left == budget - |plan.out|)
    {
      left := budget;
      var k := 0;
      while k < |plan.out|
        invariant k <= |plan.out| && left == budget - k
        invariant forall i: nat | plan.start <= i < plan.start + k ::
                    i in repair && repair[i] == plan.out[i - plan.start]
      {
        if left == 0 {
          var partial: Text := *;
          repair := repair[plan.start + k := partial];
          return true, 0;
        }
        repair := repair[plan.start + k := plan.out[k]];
        left := left - 1;
        k := k + 1;
      }
      crashed := false;
    }

    method RenameOne(i: nat, ghost plan: Plan)
      requires RenamedTo(plan, i) && plan.InRange(i) && i in repair
      modifies this`files, this`repair
      ensures RenamedTo(plan, i + 1)
    {
      files, repair := files[i := repair[i]], repair - {i};
    }

    method RenameAll(start: nat, end: nat, ghost plan: Plan, budget: nat) returns (crashed: bool, left: nat, count: nat)
      requires Recorded(plan) && start == plan.start && end == plan.End()
      modifies this`files, this`repair
      ensures Recorded(plan) && (!crashed ==> files == Repaired(plan))
      ensures left >= budget - |plan.out| && (budget > |plan.out| ==> !crashed)
      ensures budget == 0 && old(start in repair) ==> crashed
    {
      left, count := budget, 0;
      var i := start;
      while i <= end
        invariant start <= i <= end + 1 && RenamedTo(plan, i)
        invariant left >= budget - (i - start) && (budget == 0 && old(start in repair) ==> i == start)
        invariant i == start ==> repair == old(repair) && left == budget
      {
        if i in repair {
          if left == 0 {
            return true, 0, count;
          }
          RenameOne(i, plan);
          left := left - 1;
          count := count + 1;
        }
        i := i + 1;
      }
      AllRenamed(plan, files);
      crashed := false;
    }

    /** binlog_repair_finish: rename what is still to be renamed, then set the index. */
    method Finish(start: nat, end: nat, ghost plan: Plan, budget: nat) returns (crashed: bool, left: nat)
      requires Recorded(plan) && start == plan.start && end == plan.End()
      modifies this`files, this`repair, this`index
      ensures Recorded(plan)
      ensures !crashed ==> files == Repaired(plan) && index == plan.End()
      ensures budget > |plan.out| + 1 ==> !crashed && left > 0
      ensures budget == 0 && old(start in repair) ==> crashed
    {
      var count;
      crashed, left, count := RenameAll(start, end, plan, budget);
      if crashed {
        return true, 0;
      }
      if count > 0 || end != index {
        if left == 0 {
          return true, 0;
        }
        index := end;
        left := left - 1;
      }
    }

    /** do_repair, with a crash after `budget` disk operations. */
    method DoRepair(plan: Plan, budget: nat) returns (crashed: bool)
      requires Old(plan)
      modifies this
      ensures crashed ==> Old(plan) || Recorded(plan) || New(plan)
      ensures !crashed ==> New(plan)
      ensures budget > 2 * |plan.out| + 2 ==> !crashed
      ensures budget == |plan.out| + 1 ==> Recorded(plan)
      ensures if budget > |plan.out| then Recorded(plan) || New(plan) else Old(plan)
    {
      var left;
      crashed, left := WriteFiles(plan, budget);
      if crashed || left == 0 {
        return true;
      }
      assert plan.InRange(plan.start);
      sys, left := Some(SysData(plan.start, plan.End())), left - 1;
      crashed, left := Finish(plan.start, plan.End(), plan, left);
      if crashed || left == 0 {
        return true;
      }
      sys := None;
    }

    /** binlog_consistency_repair_finish at start-up. */
    method RepairFinish(ghost plan: Plan, budget: nat) returns (crashed: bool)
      requires Old(plan) || Recorded(plan) || New(plan)
      modifies this
      ensures old(Old(plan)) ==> Old(plan)
      ensures old(New(plan)) ==> New(plan)
      ensures old(Recorded(plan)) ==> if crashed then Recorded(plan) else New(plan)
      ensures old(sys) == None ==> !crashed && files == old(files) && index == old(index) && repair == old(repair)
      ensures !crashed ==> sys == None
      ensures budget > |plan.out| + 1 ==> !crashed
    {
      if sys == None {
        return false;
      }
      var left;
      crashed, left := Finish(sys.value.start, sys.value.end, plan, budget);
      if crashed || left == 0 {
        return true;
      }
      sys := None;
    }

    /** A repair that crashes, and start-ups that crash, any number of times; then one start-up that
        does not.  The log is exactly the repaired one if the repair got as far as its record, and exactly
        the old one otherwise. */
    method RepairWithCrashes(plan: Plan, budget: nat, restarts: seq<nat>)
      requires Old(plan)
      modifies this
      ensures sys == None && if budget > |plan.out| then New(plan) else Old(plan)
      ensures Log(files, index) == Log(plan.files, plan.index) || Log(files, index) == Log(Repaired(plan), plan.End())
    {
      var crashed := DoRepair(plan, budget);
      var i := 0;
      while i < |restarts|
        invariant i <= |restarts| && if budget > |plan.out| then Recorded(plan) || New(plan) else Old(plan)
      {
        crashed := RepairFinish(plan, restarts[i]);
        i := i + 1;
      }
      crashed := RepairFinish(plan, |plan.out| + 2);
    }
  }

  lemma AllRenamed(plan: Plan, files: map<nat, Text>)
    requires plan.Proper()
    requires forall i: nat | plan.InRange(i) :: i in files && files[i] == plan.out[i - plan.start]
    requires forall i: nat | !plan.InRange(i) ::
               (i in files <==> i in plan.files) && (i in files ==> files[i] == plan.files[i])
    ensures files == Repaired(plan)
  {
    forall i: nat ensures i in files <==> i in Repaired(plan) {
      assert plan.InRange(i) || !plan.InRange(i);
    }
  }

  /** The log before file `start`. */
  function Before(files: map<nat, Text>, start: nat): Text {
    if start == 0 then [] else Log(files, start - 1)
  }

  lemma {:induction false} BeforeSame(files: map<nat, Text>, files': map<nat, Text>, n: nat)
    requires forall i: nat | i < n :: (i in files' <==> i in files) && (i in files ==> files'[i] == files[i])
    ensures Before(files', n) == Before(files, n)
  {
    if n > 0 { BeforeSame(files, files', n - 1); }
  }

  lemma OutUpTo(out: seq<Text>, k: nat, before: Text)
    requires k < |out|
    ensures before + Concat(out[..k]) + out[k] == before + Concat(out[..k + 1])
  {
    assert out[..k + 1] == out[..k] + [out[k]];
    ConcatPush(out[..k], out[k]);
  }

  /** The log of files that hold `out` from `start` on. */
  lemma {:induction false} LogUpTo(files: map<nat, Text>, start: nat, out: seq<Text>, k: nat)
    requires forall i: nat | start <= i < start + |out| :: i in files && files[i] == out[i - start]
    requires k <= |out|
    ensures Before(files, start + k) == Before(files, start) + Concat(out[..k])
  {
    if k == 0 {
      assert Concat(out[..0]) == [];
    } else {
      LogUpTo(files, start, out, k - 1);
      LogNext(files, start, out, k - 1);
    }
  }

  lemma LogNext(files: map<nat, Text>, start: nat, out: seq<Text>, k: nat)
    requires k < |out| && start + k in files && files[start + k] == out[k]
    requires Before(files, start + k) == Before(files, start) + Concat(out[..k])
    ensures Before(files, start + k + 1) == Before(files, start) + Concat(out[..k + 1])
  {
    LogStep(files, start + k);
    OutUpTo(out, k, Before(files, start));
  }

  lemma LogStep(files: map<nat, Text>, i: nat)
    requires i in files
    ensures Before(files, i + 1) == Before(files, i) + files[i]
  {
  }

  lemma LogFrom(files: map<nat, Text>, files': map<nat, Text>, start: nat, out: seq<Text>)
    requires out != []
    requires forall i: nat | i < start :: (i in files' <==> i in files) && (i in files ==> files'[i] == files[i])
    requires forall i: nat | start <= i < start + |out| :: i in files' && files'[i] == out[i - start]
    ensures Log(files', start + |out| - 1) == Before(files, start) + Concat(out)
  {
    BeforeSame(files, files', start);
    LogUpTo(files', start, out, |out|);
    assert out[..|out|] == out;
  }

  /** The repaired log: everything before the position, then the kept lines. */
  lemma RepairedLog(plan: Plan)
    requires plan.Proper()
    ensures Log(Repaired(plan), plan.End()) == Before(plan.files, plan.start) + Concat(plan.out)
  {
    RepairedFiles(plan);
    LogFrom(plan.files, Repaired(plan), plan.start, plan.out);
  }

  lemma RepairedFiles(plan: Plan)
    requires plan.Proper()
    ensures forall i: nat | plan.start <= i < plan.start + |plan.out| ::
              i in Repaired(plan) && Repaired(plan)[i] == plan.out[i - plan.start]
    ensures forall i: nat | i < plan.start ::
              (i in Repaired(plan) <==> i in plan.files) && (i in plan.files ==> Repaired(plan)[i] == plan.files[i])
  {
    forall i: nat | plan.start <= i < plan.start + |plan.out|
      ensures i in Repaired(plan) && Repaired(plan)[i] == plan.out[i - plan.start]
    {
      assert plan.InRange(i);
    }
  }

  /* ---------------------------------------------------------------- a whole repair */

  /** The files of the log, in order. */
  function FileList(files: map<nat, Text>, index: nat): (r: seq<Text>)
    requires forall i: nat | i <= index :: i in files
    ensures |r| == index + 1 && forall i | 0 <= i <= index :: r[i] == files[i]
  {
    seq(index + 1, i requires 0 <= i <= index => files[i])
  }

  /** A position in the log. */
  predicate Positioned(files: map<nat, Text>, index: nat, start: nat, offset: nat) {
    (forall i: nat | i <= index :: i in files) && start <= index && offset <= |files[start]|
  }

  /** The log behind a position. */
  function Behind(files: map<nat, Text>, index: nat, start: nat, offset: nat): Text
    requires Positioned(files, index, start, offset)
  {
    Rest(FileList(files, index), start, offset)
  }

  lemma {:induction false} KeptAppend(x: seq<Text>, y: seq<Text>, judge: Text -> Verdict)
    ensures Kept(x + y, judge) == Kept(x, judge) + Kept(y, judge)
    decreases |y|
  {
    if y == [] {
      assert x + y == x;
    } else {
      var n := |y| - 1;
      assert (x + y)[..|x + y| - 1] == x + y[..n];
      KeptAppend(x, y[..n], judge);
    }
  }

  lemma {:induction false} SplitNonEmpty(s: Text)
    ensures forall line | line in SplitLines(s) :: line != []
    decreases |s|
  {
    if s != [] && FirstNL(s) >= 0 { SplitNonEmpty(s[FirstNL(s) + 1..]); }
  }

  lemma {:induction false} KeptIn(lines: seq<Text>, judge: Text -> Verdict)
    ensures forall line | line in Kept(lines, judge) :: line in lines && judge(line) == Keep
  {
    if lines != [] { KeptIn(lines[..|lines| - 1], judge); }
  }

  /** A repair that has seen only the front of the rest keeps all it should exactly when no line of the
      unseen remainder is to be kept. */
  lemma SeenEnough(text: Text, all: Text, judge: Text -> Verdict)
    requires Whole(text) && text <= all
    ensures Concat(Kept(SplitLines(text), judge)) == Concat(Kept(SplitLines(all), judge)) <==>
            Kept(SplitLines(all[|text|..]), judge) == []
  {
    var unseen := all[|text|..];
    var x, y := SplitLines(text), SplitLines(unseen);
    assert all == text + unseen;
    SplitAppend(text, unseen);
    KeptAppend(x, y, judge);
    ConcatAppend(Kept(x, judge), Kept(y, judge));
    SplitNonEmpty(unseen);
    KeptIn(y, judge);
    if Kept(y, judge) != [] {
      assert Kept(y, judge)[0] in Kept(y, judge);
      assert |Concat(Kept(y, judge))| > 0;
    }
  }

  /** What the reading loop sees of the log behind a position. */
  function SeenOf(files: map<nat, Text>, index: nat, start: nat, offset: nat): Text
    requires Positioned(files, index, start, offset)
  {
    Seen(FileList(files, index), start, offset)
  }

  /** The lines that the loop sees end and fit, and none of them is bad. */
  ghost predicate Filterable(files: map<nat, Text>, index: nat, start: nat, offset: nat, judge: Text -> Verdict,
                             bufferSize: nat)
    requires Positioned(files, index, start, offset)
  {
    Readable(FileList(files, index), start, offset, bufferSize) &&
    forall line | line in SplitLines(SeenOf(files, index, start, offset)) :: judge(line) != Bad
  }

  /** The lines behind a position are read and filtered into new files. */
  method Rewrite(disk: Disk, start: nat, offset: nat, judge: Text -> Verdict, bufferSize: nat, maxSize: nat)
    returns (ok: bool, out: seq<Text>)
    requires Positioned(disk.files, disk.index, start, offset) && 0 < bufferSize <= maxSize
    ensures ok <==> Filterable(disk.files, disk.index, start, offset, judge, bufferSize)
    ensures ok ==>
              var kept := Kept(SplitLines(SeenOf(disk.files, disk.index, start, offset)), judge);
              out != [] && Output(out, disk.files[start][..offset], kept, maxSize) &&
              Concat(out) == disk.files[start][..offset] + Concat(kept)
  {
    var reader := new Reader(FileList(disk.files, disk.index), start, offset);
    var lines;
    ghost var text;
    ok, text, lines := reader.ReadAll(bufferSize);
    out := [];
    if ok {
      var writer := new RepairWriter(bufferSize, maxSize, disk.files[start], offset);
      ok := writer.Filter(lines, judge);
      out := writer.files;
      if ok {
        FileSizes(writer.files, writer.front, Kept(lines, judge), maxSize);
      }
    }
  }

  /** The position is at the end of the log: there is nothing to repair. */
  predicate AtEnd(files: map<nat, Text>, index: nat, start: nat, offset: nat)
    requires Positioned(files, index, start, offset)
  {
    start == index && offset >= |files[start]|
  }

  /** binlog_repair, from reading the lines behind a position to the last start-up after any crashes.
      If the repair got as far as its record, behind the writing of its `count` files, the log is what stands
      before the position and then the kept lines that the reading loop has seen, and otherwise the old one.
      The loop has seen all lines exactly when the files are gapless. */
  method RepairLog(disk: Disk, start: nat, offset: nat, judge: Text -> Verdict, bufferSize: nat, maxSize: nat,
                   budget: nat, restarts: seq<nat>)
    returns (ok: bool, ghost count: nat)
    requires disk.sys == None && Positioned(disk.files, disk.index, start, offset) && 0 < bufferSize <= maxSize
    modifies disk
    ensures ok <==> old(AtEnd(disk.files, disk.index, start, offset) ||
                        Filterable(disk.files, disk.index, start, offset, judge, bufferSize))
    ensures !ok || old(AtEnd(disk.files, disk.index, start, offset)) || budget <= count ==>
              disk.files == old(disk.files) && disk.index == old(disk.index)
    ensures old(SeenOf(disk.files, disk.index, start, offset) == Behind(disk.files, disk.index, start, offset)) <==>
            Gapless(FileList(old(disk.files), old(disk.index)), start)
    ensures var log := Log(disk.files, disk.index);
            ok && !old(AtEnd(disk.files, disk.index, start, offset)) && budget > count ==>
              log == Before(old(disk.files), start) + old(disk.files)[start][..offset] +
                     Concat(Kept(SplitLines(old(SeenOf(disk.files, disk.index, start, offset))), judge))
  {
    ghost var seen := SeenOf(disk.files, disk.index, start, offset);
    SeenIsRest(FileList(disk.files, disk.index), start, offset);
    count := 0;
    if AtEnd(disk.files, disk.index, start, offset) {
      return true, count;
    }
    var out;
    ok, out := Rewrite(disk, start, offset, judge, bufferSize, maxSize);
    count := |out|;
    if ok {
      var plan := Plan(disk.files, disk.index, start, out);
      RepairedLog(plan);
      BeforeAssoc(Before(disk.files, start), disk.files[start][..offset], Concat(Kept(SplitLines(seen), judge)));
      disk.RepairWithCrashes(plan, budget, restarts);
    }
  }

  /** The same without a crash: nothing changes if the position is at the end or the filter fails,
      otherwise the files are those of the plan. */
  method RepairNow(disk: Disk, start: nat, offset: nat, judge: Text -> Verdict, bufferSize: nat, maxSize: nat)
    returns (ok: bool, ghost plan: Plan)
    requires disk.sys == None && Positioned(disk.files, disk.index, start, offset) && 0 < bufferSize <= maxSize
    modifies disk
    ensures ok <==> old(AtEnd(disk.files, disk.index, start, offset) ||
                        Filterable(disk.files, disk.index, start, offset, judge, bufferSize))
    ensures !ok || old(AtEnd(disk.files, disk.index, start, offset)) ==>
              disk.files == old(disk.files) && disk.index == old(disk.index) && disk.sys == None
    ensures ok && !old(AtEnd(disk.files, disk.index, start, offset)) ==>
              disk.New(plan) && plan == Plan(old(disk.files), old(disk.index), start, plan.out) &&
              Output(plan.out, old(disk.files)[start][..offset],
                     Kept(SplitLines(old(SeenOf(disk.files, disk.index, start, offset))), judge), maxSize) &&
              Concat(plan.out) == old(disk.files)[start][..offset] +
                                  Concat(Kept(SplitLines(old(SeenOf(disk.files, disk.index, start, offset))), judge))
  {
    plan := Plan(disk.files, disk.index, start, []);
    if AtEnd(disk.files, disk.index, start, offset) {
      return true, plan;
    }
    var out;
    ok, out := Rewrite(disk, start, offset, judge, bufferSize, maxSize);
    if ok {
      var work := Plan(disk.files, disk.index, start, out);
      plan := work;
      var crashed := disk.DoRepair(work, 2 * |out| + 3);
    }
  }

  /** It happens: a repair that is to keep every line loses the line behind an empty file. */
  method GapLosesLine() returns (disk: Disk, ok: bool)
    ensures ok && Log(disk.files, disk.index) == "a\n"
    ensures Log(map[0 := "a\n", 1 := "", 2 := "b\n"], 2) == "a\nb\n"
  {
    var files: map<nat, Text> := map[0 := "a\n", 1 := "", 2 := "b\n"];
    disk := new Disk(files, 2);
    var judge := (line: Text) => Keep;
    ThreeFiles(files);
    GapFilters(files, judge);
    ghost var plan;
    ok, plan := RepairNow(disk, 0, 0, judge, 10, 10);
    FromStart(plan, files[0][..0], Concat(Kept(SplitLines(SeenOf(files, 2, 0, 0)), judge)));
  }

  lemma FromStart(plan: Plan, front: Text, kept: Text)
    requires plan.Proper() && plan.start == 0 && front == [] && Concat(plan.out) == front + kept
    ensures Log(Repaired(plan), plan.End()) == kept
  {
    RepairedLog(plan);
  }

  lemma ThreeFiles(files: map<nat, Text>)
    requires files == map[0 := "a\n", 1 := "", 2 := "b\n"]
    ensures Log(files, 2) == "a\nb\n"
  {
    assert Log(files, 0) == "a\n" && Log(files, 1) == "a\n" && Log(files, 2) == "a\n" + "b\n";
  }

  lemma GapFilters(files: map<nat, Text>, judge: Text -> Verdict)
    requires files == map[0 := "a\n", 1 := "", 2 := "b\n"] && forall line :: judge(line) == Keep
    ensures Filterable(files, 2, 0, 0, judge, 10)
    ensures Concat(Kept(SplitLines(SeenOf(files, 2, 0, 0)), judge)) == "a\n"
  {
    var list := FileList(files, 2);
    assert list == ["a\n", "", "b\n"];
    GapOfThree(list);
    AllKept(["a\n"], judge);
    ConcatOne("a\n");
  }

  lemma BeforeAssoc(a: Text, b: Text, c: Text)
    ensures a + (b + c) == a + b + c
  {
  }
}
