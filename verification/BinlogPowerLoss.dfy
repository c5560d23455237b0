/**
 A repair and a loss of power.  Of the repaired files only the last one is synced before the repair is
 recorded, so the others may come back truncated, and start-up goes on with what is there.
 */
module BinlogPowerLoss {
  import opened Common
  import opened BinlogRewrite
  import opened BinlogRepair

  /** What a loss of power may leave of the repaired files: a prefix of each, and all of the last. */
  ghost predicate Torn(out: seq<Text>, left: seq<Text>) {
    |left| == |out| && (out != [] ==> left[|out| - 1] == out[|out| - 1]) &&
    forall k | 0 <= k < |out| :: left[k] <= out[k]
  }

  /** The files with what is left of the repaired ones among them. */
  function Spoiled(files: map<nat, Text>, start: nat, left: seq<Text>, spared: set<nat>): (r: map<nat, Text>)
    ensures r.Keys == files.Keys
    ensures forall i: nat | i in files ::
              r[i] == if start <= i < start + |left| && i !in spared then left[i - start] else files[i]
  {
    map i | i in files :: if start <= i < start + |left| && i !in spared then left[i - start] else files[i]
  }

  /** The power fails after the repair was recorded. */
  method LosePower(disk: Disk, plan: Plan, left: seq<Text>)
    requires (disk.Recorded(plan) || disk.New(plan)) && Torn(plan.out, left)
    modifies disk
    ensures old(disk.Recorded(plan)) ==> disk.Recorded(plan.(out := left))
    ensures old(disk.New(plan)) ==> disk.New(plan.(out := left))
  {
    if disk.sys == None {
      disk.files := Spoiled(disk.files, plan.start, left, {});
      SpoiledDone(plan, left);
    } else {
      LoseRecorded(disk, plan, left);
    }
  }

  method LoseRecorded(disk: Disk, plan: Plan, left: seq<Text>)
    requires disk.Recorded(plan) && |left| == |plan.out|
    modifies disk
    ensures disk.Recorded(plan.(out := left))
  {
    ghost var files, repair := disk.files, disk.repair;
    disk.files := Spoiled(disk.files, plan.start, left, disk.repair.Keys);
    disk.repair := Spoiled(disk.repair, plan.start, left, {});
    SpoiledRecorded(files, repair, disk.files, disk.repair, plan, left);
  }

  lemma SpoiledRecorded(files: map<nat, Text>, repair: map<nat, Text>, files': map<nat, Text>,
                        repair': map<nat, Text>, plan: Plan, left: seq<Text>)
    requires plan.Proper() && |left| == |plan.out|
    requires files' == Spoiled(files, plan.start, left, repair.Keys) && repair' == Spoiled(repair, plan.start, left, {})
    requires forall i: nat | plan.InRange(i) :: i !in repair ==> i in files
    requires forall i: nat | !plan.InRange(i) ::
               (i in files <==> i in plan.files) && (i in files ==> files[i] == plan.files[i])
    ensures var after := plan.(out := left);
            (forall i: nat | after.InRange(i) ::
               if i in repair' then repair'[i] == left[i - plan.start]
               else i in files' && files'[i] == left[i - plan.start]) &&
            (forall i: nat | !after.InRange(i) ::
               (i in files' <==> i in plan.files) && (i in files' ==> files'[i] == plan.files[i]))
  {
    SameRange(plan, plan.(out := left));
  }

  lemma SameRange(plan: Plan, after: Plan)
    requires after == plan.(out := after.out) && |after.out| == |plan.out|
    ensures forall i: nat :: plan.InRange(i) <==> after.InRange(i)
  {
  }

  lemma SpoiledDone(plan: Plan, left: seq<Text>)
    requires plan.Proper() && |left| == |plan.out|
    ensures Spoiled(Repaired(plan), plan.start, left, {}) == Repaired(plan.(out := left))
  {
    var after := plan.(out := left);
    var files := Spoiled(Repaired(plan), plan.start, left, {});
    RepairedFiles(plan);
    SameRange(plan, after);
    AllRenamed(after, files);
  }

  /** The power fails, and the next start-up finishes the repair with the files that are left. */
  method LoseAndRestart(disk: Disk, plan: Plan, left: seq<Text>)
    requires (disk.Recorded(plan) || disk.New(plan)) && Torn(plan.out, left)
    modifies disk
    ensures disk.New(plan.(out := left))
    ensures Log(disk.files, disk.index) == Before(plan.files, plan.start) + Concat(left)
  {
    LosePower(disk, plan, left);
    var crashed := disk.RepairFinish(plan.(out := left), |left| + 2);
    RepairedLog(plan.(out := left));
  }

  lemma {:induction false} TornLength(out: seq<Text>, left: seq<Text>)
    requires Torn(out, left)
    ensures |Concat(left)| <= |Concat(out)|
    ensures Concat(left) == Concat(out) ==> left == out
    decreases |out|
  {
    if out != [] {
      TornTail(out, left);
      TornLength(out[1..], left[1..]);
      if Concat(left) == Concat(out) {
        SameParts(left[0], out[0], Concat(left[1..]), Concat(out[1..]));
        assert left == [left[0]] + left[1..] && out == [out[0]] + out[1..];
      }
    }
  }

  lemma TornTail(out: seq<Text>, left: seq<Text>)
    requires out != [] && Torn(out, left)
    ensures left[0] <= out[0] && Torn(out[1..], left[1..])
  {
  }

  lemma SameParts(x: Text, y: Text, s: Text, t: Text)
    requires x <= y && |s| <= |t| && x + s == y + t
    ensures x == y && s == t
  {
    assert |x + s| == |x| + |s| && |y + t| == |y| + |t|;
    assert s == (x + s)[|x|..] && t == (y + t)[|y|..];
  }

  /** Every loss of power leaves the repaired log. */
  ghost predicate Survives(plan: Plan) {
    plan.Proper() &&
    forall left | Torn(plan.out, left) ::
      Log(Repaired(plan.(out := left)), plan.End()) == Log(Repaired(plan), plan.End())
  }

  /** Exactly the repairs whose files are all empty but the last survive every loss of power. */
  lemma SurvivesExactly(plan: Plan)
    requires plan.Proper()
    ensures Survives(plan) <==> forall k | 0 <= k < |plan.out| - 1 :: plan.out[k] == []
  {
    var out := plan.out;
    RepairedLog(plan);
    if k :| 0 <= k < |out| - 1 && out[k] != [] {
      var left := out[k := []];
      assert Torn(out, left) && left[k] != out[k];
      TornLost(plan, left);
    } else {
      forall left | Torn(out, left) ensures left == out {
        forall k | 0 <= k < |out| ensures left[k] == out[k] { }
      }
    }
  }

  lemma TornLog(plan: Plan, left: seq<Text>)
    requires plan.Proper() && |left| == |plan.out|
    ensures Log(Repaired(plan.(out := left)), plan.End()) == Before(plan.files, plan.start) + Concat(left)
  {
    RepairedLog(plan.(out := left));
  }

  lemma TornLost(plan: Plan, left: seq<Text>)
    requires plan.Proper() && Torn(plan.out, left) && left != plan.out
    ensures Log(Repaired(plan.(out := left)), plan.End()) != Log(Repaired(plan), plan.End())
  {
    TornLog(plan, left);
    TornLog(plan, plan.out);
    TornLength(plan.out, left);
    CancelFront(Before(plan.files, plan.start), Concat(left), Concat(plan.out));
  }

  lemma CancelFront(a: Text, b: Text, c: Text)
    requires b != c
    ensures a + b != a + c
  {
    assert (a + b)[|a|..] == b && (a + c)[|a|..] == c;
  }

  /** What the rewriter makes survives exactly when it is a single file. */
  lemma OneFileSurvives(plan: Plan, front: Text, lines: seq<Text>, maxSize: nat)
    requires plan.Proper() && Output(plan.out, front, lines, maxSize)
    ensures Survives(plan) <==> |plan.out| == 1
  {
    SurvivesExactly(plan);
    if |plan.out| > 1 {
      FirstNotEmpty(plan.out, front, lines, maxSize);
    }
  }

  lemma FirstNotEmpty(files: seq<Text>, front: Text, lines: seq<Text>, maxSize: nat)
    requires Output(files, front, lines, maxSize) && |files| > 1
    ensures files[0] != []
  {
    var groups :| Files(files, front, groups) && Flatten(groups) == lines && Tight(groups, maxSize) &&
        Limited(groups, maxSize);
    assert FileAt(files, front, groups, 0) && TightAt(groups, 0, maxSize);
    assert |Concat(groups[1])| <= maxSize;
  }

  /** It happens to every repair with more than one file: the power fails right after the repair was
      recorded, the first file comes back empty, and start-up completes a log that is not the repaired
      one. */
  method LosesFirstFile(disk: Disk, plan: Plan, ghost front: Text, ghost lines: seq<Text>, ghost maxSize: nat)
    requires disk.Old(plan) && Output(plan.out, front, lines, maxSize) && |plan.out| > 1
    modifies disk
    ensures disk.sys == None && disk.index == plan.End()
    ensures Log(disk.files, disk.index) == Before(plan.files, plan.start) + Concat(plan.out[0 := []])
    ensures Log(disk.files, disk.index) != Log(Repaired(plan), plan.End())
  {
    FirstNotEmpty(plan.out, front, lines, maxSize);
    var crashed := disk.DoRepair(plan, |plan.out| + 1);
    var left := plan.out[0 := []];
    TornLost(plan, left);
    LoseAndRestart(disk, plan, left);
  }
}
