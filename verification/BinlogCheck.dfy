/**
 The start-up consistency check between the replica binlogs and the slice binlog, and the repair it
 triggers: the versions of both windows are collected and sorted, a merge sets the dirty flags, and a
 dirty log is rewritten keeping only what the other log also has.
 */
module BinlogCheck {
  import opened Common

  datatype Version = Version(group: int, version: int)

  /** The fields of a log line that matter here. */
  datatype Record = Record(op: char, group: int, version: int)

  const NO_OP: char := 'N'

  predicate Internal(r: Record) { r.op == NO_OP || r.version == 0 }

  function Compare(a: Version, b: Version): int {
    if a.group < b.group then -1
    else if a.group > b.group then 1
    else if a.version < b.version then -1
    else if a.version > b.version then 1
    else 0
  }

  predicate Less(a: Version, b: Version) { Compare(a, b) < 0 }

  ghost predicate Sorted(s: seq<Version>) {
    forall i, j | 0 <= i < j < |s| :: !Less(s[j], s[i])
  }

  /** Some version of a is missing from b. */
  ghost predicate Lacks(a: seq<Version>, b: seq<Version>) {
    exists x :: x in a && x !in b
  }

  /* ---------------------------------------------------------------- the merge */

  /** The merge stands at i and j: everything passed on one side is below what is left on the other,
      and the flags are right for what has been passed. */
  ghost predicate Merging(replica: seq<Version>, slice: seq<Version>, i: nat, j: nat, rd: bool, sd: bool) {
    forall k {:trigger Unfold(k)} :: Unfold(k) ==>
      i <= |replica| && j <= |slice| && Sorted(replica) && Sorted(slice) &&
      (forall a, b | 0 <= a < i && j <= b < |slice| :: Less(replica[a], slice[b])) &&
      (forall a, b | i <= a < |replica| && 0 <= b < j :: Less(slice[b], replica[a])) &&
      (rd <==> Lacks(replica[..i], slice)) && (sd <==> Lacks(slice[..j], replica))
  }

  lemma NotIn(s: seq<Version>, n: nat, x: Version)
    requires Sorted(s) && n <= |s| && (forall b | 0 <= b < n :: Less(s[b], x)) && (n < |s| ==> Less(x, s[n]))
    ensures x !in s
  {
    forall k | 0 <= k < |s| ensures s[k] != x {
      assert k > n ==> !Less(s[k], s[n]);
    }
  }

  lemma LacksMore(a: seq<Version>, n: nat, b: seq<Version>)
    requires n < |a|
    ensures Lacks(a[..n + 1], b) <==> Lacks(a[..n], b) || a[n] !in b
  {
    assert a[..n + 1] == a[..n] + [a[n]];
    if Lacks(a[..n], b) {
      var x :| x in a[..n] && x !in b;
      assert x in a[..n + 1];
    }
    if a[n] !in b {
      assert a[n] in a[..n + 1];
    }
  }

  lemma ReplicaOnly(replica: seq<Version>, slice: seq<Version>, i: nat, j: nat, rd: bool, sd: bool)
    requires Merging(replica, slice, i, j, rd, sd) && i < |replica| && (j < |slice| ==> Less(replica[i], slice[j]))
    ensures Merging(replica, slice, i + 1, j, true, sd) && Lacks(replica, slice)
  {
    assert Unfold(0);
    NotIn(slice, j, replica[i]);
    LacksMore(replica, i, slice);
    forall b | j <= b < |slice| ensures Less(replica[i], slice[b]) {
      assert b > j ==> !Less(slice[b], slice[j]);
    }
  }

  lemma SliceOnly(replica: seq<Version>, slice: seq<Version>, i: nat, j: nat, rd: bool, sd: bool)
    requires Merging(replica, slice, i, j, rd, sd) && j < |slice| && (i < |replica| ==> Less(slice[j], replica[i]))
    ensures Merging(replica, slice, i, j + 1, rd, true) && Lacks(slice, replica)
  {
    assert Unfold(0);
    NotIn(replica, i, slice[j]);
    LacksMore(slice, j, replica);
    forall a | i <= a < |replica| ensures Less(slice[j], replica[a]) {
      assert a > i ==> !Less(replica[a], replica[i]);
    }
  }

  /** Skips a run of equal versions. */
  method SkipEqual(s: seq<Version>, start: nat) returns (k: nat)
    requires start < |s|
    ensures start < k <= |s| && (forall a | start <= a < k :: s[a] == s[start]) && (k < |s| ==> s[k] != s[start])
  {
    k := start + 1;
    while k < |s| && Compare(s[k], s[start]) == 0
      invariant start < k <= |s| && forall a | start <= a < k :: s[a] == s[start]
    {
      k := k + 1;
    }
  }

  lemma {:induction false} LacksRun(a: seq<Version>, i: nat, k: nat, b: seq<Version>)
    requires i <= k <= |a| && forall x | i <= x < k :: a[x] in b
    ensures Lacks(a[..k], b) <==> Lacks(a[..i], b)
    decreases k - i
  {
    if i < k {
      LacksRun(a, i, k - 1, b);
      LacksMore(a, k - 1, b);
    }
  }

  lemma Both(replica: seq<Version>, slice: seq<Version>, i: nat, j: nat, i': nat, j': nat, rd: bool, sd: bool)
    requires Merging(replica, slice, i, j, rd, sd)
    requires i < i' <= |replica| && j < j' <= |slice| && replica[i] == slice[j]
    requires forall a | i <= a < i' :: replica[a] == replica[i]
    requires forall b | j <= b < j' :: slice[b] == slice[j]
    requires (i' < |replica| ==> replica[i'] != replica[i]) && (j' < |slice| ==> slice[j'] != slice[j])
    ensures Merging(replica, slice, i', j', rd, sd)
  {
    assert Unfold(0);
    LacksRun(replica, i, i', slice);
    LacksRun(slice, j, j', replica);
    forall b | j' <= b < |slice| ensures Less(replica[i], slice[b]) {
      assert !Less(slice[j'], slice[j]) && (b > j' ==> !Less(slice[b], slice[j']));
    }
    forall a | i' <= a < |replica| ensures Less(slice[j], replica[a]) {
      assert !Less(replica[i'], replica[i]) && (a > i' ==> !Less(replica[a], replica[i']));
    }
  }

  lemma MergeEnd(replica: seq<Version>, slice: seq<Version>, i: nat, j: nat, rd: bool, sd: bool)
    requires Merging(replica, slice, i, j, rd, sd) && i <= |replica| && j <= |slice| && (i == |replica| || j == |slice|)
    ensures Lacks(replica, slice) <==> rd || i < |replica|
    ensures Lacks(slice, replica) <==> sd || j < |slice|
  {
    assert Unfold(0);
    assert replica[..|replica|] == replica && slice[..|slice|] == slice;
    if i < |replica| { ReplicaOnly(replica, slice, i, j, rd, sd); }
    if j < |slice| { SliceOnly(replica, slice, i, j, rd, sd); }
  }

  /** binlog_check: a flag is set exactly when the log has a version the other one lacks. */
  method Check(replica: seq<Version>, slice: seq<Version>) returns (replicaDirty: bool, sliceDirty: bool)
    requires Sorted(replica) && Sorted(slice)
    ensures replicaDirty <==> Lacks(replica, slice)
    ensures sliceDirty <==> Lacks(slice, replica)
  {
    replicaDirty, sliceDirty := false, false;
    var i, j := 0, 0;
    while i < |replica| && j < |slice|
      invariant i <= |replica| && j <= |slice| && Merging(replica, slice, i, j, replicaDirty, sliceDirty)
      invariant replicaDirty ==> Lacks(replica, slice)
      invariant sliceDirty ==> Lacks(slice, replica)
      decreases |replica| - i + |slice| - j
    {
      var order := Compare(replica[i], slice[j]);
      if order < 0 {
        ReplicaOnly(replica, slice, i, j, replicaDirty, sliceDirty);
        replicaDirty := true;
        if sliceDirty {
          return;
        }
        i := i + 1;
      } else if order == 0 {
        var i' := SkipEqual(replica, i);
        var j' := SkipEqual(slice, j);
        Both(replica, slice, i, j, i', j', replicaDirty, sliceDirty);
        i, j := i', j';
      } else {
        SliceOnly(replica, slice, i, j, replicaDirty, sliceDirty);
        sliceDirty := true;
        if replicaDirty {
          return;
        }
        j := j + 1;
      }
    }
    MergeEnd(replica, slice, i, j, replicaDirty, sliceDirty);
    if i < |replica| {
      replicaDirty := true;
    } else if j < |slice| {
      sliceDirty := true;
    }
  }

  /* ---------------------------------------------------------------- versions and repair */

  /** The versions of the records of a window that are not internal, in log order. */
  function Versions(log: seq<Record>): (r: seq<Version>)
  {
    if log == [] then []
    else
      var last := log[|log| - 1];
      Versions(log[..|log| - 1]) + if Internal(last) then [] else [Version(last.group, last.version)]
  }

  lemma {:induction false} VersionsIn(log: seq<Record>, x: Version)
    ensures x in Versions(log) <==>
            exists r :: r in log && r.op != 'N' && r.version != 0 && x == Version(r.group, r.version)
  {
    if log != [] {
      VersionsIn(log[..|log| - 1], x);
      assert log == log[..|log| - 1] + [log[|log| - 1]];
    }
  }

  /** The versions of the records that are neither no-ops nor without a version. */
  method LoadVersions(log: seq<Record>) returns (versions: seq<Version>)
    ensures versions == Versions(log)
    ensures forall x :: x in versions <==>
              exists r :: r in log && r.op != 'N' && r.version != 0 && x == Version(r.group, r.version)
  {
    versions := [];
    for i := 0 to |log|
      invariant versions == Versions(log[..i])
    {
      assert log[..i + 1][..i] == log[..i];
      if !Internal(log[i]) {
        versions := versions + [Version(log[i].group, log[i].version)];
      }
    }
    assert log[..|log|] == log;
    forall x { VersionsIn(log, x); }
  }

  function Insert(x: Version, s: seq<Version>): seq<Version> {
    if s == [] || !Less(s[0], x) then [x] + s else [s[0]] + Insert(x, s[1..])
  }

  /** Stands for qsort. */
  function Sort(s: seq<Version>): seq<Version> {
    if s == [] then [] else Insert(s[0], Sort(s[1..]))
  }

  lemma {:induction false} InsertSorted(x: Version, s: seq<Version>)
    requires Sorted(s)
    ensures Sorted(Insert(x, s)) && forall y :: y in Insert(x, s) <==> y == x || y in s
  {
    if s != [] && Less(s[0], x) {
      InsertSorted(x, s[1..]);
      var r := Insert(x, s[1..]);
      assert forall y :: y in s <==> y == s[0] || y in s[1..];
      forall k | 0 <= k < |r| ensures !Less(r[k], s[0]) {
        assert r[k] in r;
        if r[k] != x { assert r[k] in s[1..]; }
      }
    } else if s != [] {
      forall k | 0 <= k < |s| ensures !Less(s[k], x) {
        assert k > 0 ==> !Less(s[k], s[0]);
      }
    }
  }

  lemma {:induction false} SortSorted(s: seq<Version>)
    ensures Sorted(Sort(s)) && forall y :: y in Sort(s) <==> y in s
  {
    if s != [] {
      SortSorted(s[1..]);
      InsertSorted(s[0], Sort(s[1..]));
      assert forall y :: y in s <==> y == s[0] || y in s[1..];
    }
  }

  /** The lines a repair keeps: internal records and those whose version the array holds. */
  function Filtered(log: seq<Record>, keep: seq<Version>): seq<Record> {
    if log == [] then []
    else Filtered(log[..|log| - 1], keep) +
         (var r := log[|log| - 1]; if Internal(r) || Version(r.group, r.version) in keep then [r] else [])
  }

  lemma {:induction false} FilteredVersions(log: seq<Record>, keep: seq<Version>, x: Version)
    ensures x in Versions(Filtered(log, keep)) <==> x in Versions(log) && x in keep
  {
    if log != [] {
      var front, r := log[..|log| - 1], log[|log| - 1];
      FilteredVersions(front, keep, x);
      var f := Filtered(front, keep);
      assert f + [] == f && (f + [r])[..|f|] == f;
      assert Filtered(log, keep) == if Internal(r) || Version(r.group, r.version) in keep then f + [r] else f;
      assert Versions(f + [r]) == Versions(f) + (if Internal(r) then [] else [Version(r.group, r.version)]);
    }
  }

  /** No-op records and records without a version survive, and a kept record is never changed. */
  lemma {:induction false} FilteredKeeps(log: seq<Record>, keep: seq<Version>, r: Record)
    ensures r in Filtered(log, keep) <==>
            r in log && (r.op == 'N' || r.version == 0 || Version(r.group, r.version) in keep)
  {
    if log != [] {
      FilteredKeeps(log[..|log| - 1], keep, r);
      assert log == log[..|log| - 1] + [log[|log| - 1]];
    }
  }
}
