/**
 The unlinking loop of the read-ahead block index.  It walks a singly linked list, moves every
 overlapping node to a second list, and remembers the previous node even when that node has just
 been unlinked.
 */
module PrereadList {
  import opened Common

  /** The node after position i of an untouched list of n nodes; -1 is the null link. */
  function Node(i: nat, n: nat): int {
    if i < n then i else -1
  }

  /** Following `next` from x visits exactly the nodes of `list`. */
  ghost predicate Chain(next: seq<int>, x: int, list: seq<int>) {
    x == (if list == [] then -1 else list[0]) && forall k | 0 <= k < |list| :: Link(next, list, k)
  }

  ghost predicate Link(next: seq<int>, list: seq<int>, k: nat) {
    k < |list| && 0 <= list[k] < |next| && next[list[k]] == if k + 1 < |list| then list[k + 1] else -1
  }

  /** Links lead forward only, so that every walk ends. */
  ghost predicate Forward(next: seq<int>) {
    forall i | 0 <= i < |next| :: next[i] == -1 || i < next[i] < |next|
  }

  /** The nodes met from x on. */
  ghost function Follow(next: seq<int>, x: int): (r: seq<int>)
    requires Forward(next) && -1 <= x < |next|
    ensures forall k | 0 <= k < |r| :: 0 <= r[k] < |next|
    decreases if x < 0 then 0 else |next| - x
  {
    if x < 0 then [] else [x] + Follow(next, next[x])
  }

  lemma {:induction false} FollowChain(next: seq<int>, x: int, list: seq<int>)
    requires Forward(next) && -1 <= x < |next| && Chain(next, x, list)
    ensures Follow(next, x) == list
    decreases |list|
  {
    if list != [] {
      assert Link(next, list, 0);
      forall k | 0 <= k < |list| - 1 ensures Link(next, list[1..], k) { assert Link(next, list, k + 1); }
      FollowChain(next, next[x], list[1..]);
    }
  }

  /** The positions from i on whose flag is `want`, in order. */
  function Picked(over: seq<bool>, i: nat, want: bool): (r: seq<int>)
    requires i <= |over|
    ensures forall x | x in r :: i <= x < |over| && over[x] == want
    decreases |over| - i
  {
    if i == |over| then []
    else if over[i] == want then [i] + Picked(over, i + 1, want)
    else Picked(over, i + 1, want)
  }

  predicate NoAdjacent(over: seq<bool>) {
    forall i | 0 <= i < |over| - 1 :: !(over[i] && over[i + 1])
  }

  /** Where the walk leaves the link of a kept node, and the head: it skips exactly one node. */
  function Skip(over: seq<bool>, i: nat, done: nat): int {
    if i < done <= |over| && over[i] then Node(i + 1, |over|) else Node(i, |over|)
  }

  ghost predicate Walked(over: seq<bool>, next: seq<int>, head: int, done: nat) {
    |next| == |over| && done <= |over| && head == Skip(over, 0, done) &&
    (forall i | 0 <= i < done && !over[i] :: next[i] == Skip(over, i + 1, done)) &&
    (forall i | done <= i < |over| :: next[i] == Node(i + 1, |over|))
  }

  /** The chain of removed nodes so far, without its last link. */
  ghost predicate Collected(over: seq<bool>, next: seq<int>, slices: int, tail: int, removed: seq<int>) {
    |next| == |over| &&
    (removed == [] ==> slices == -1 && tail == -1) &&
    (removed != [] ==> slices == removed[0] && tail == removed[|removed| - 1]) &&
    (forall k | 0 <= k < |removed| :: 0 <= removed[k] < |over| && over[removed[k]]) &&
    (forall j, k | 0 <= j < k < |removed| :: removed[j] < removed[k]) &&
    (forall k | 0 <= k < |removed| - 1 :: next[removed[k]] == removed[k + 1])
  }

  /** The links after unlinking the removed node n and appending it to the removed chain. */
  function Unlinked(next: seq<int>, n: nat, tail: int): seq<int>
    requires n < |next| && tail < |next|
  {
    var unlinked := if n == 0 then next else next[n - 1 := next[n]];
    if tail < 0 then unlinked else unlinked[tail := n]
  }

  /** The state of the walk before node n. */
  ghost predicate Walking(over: seq<bool>, next: seq<int>, head: int, slices: int, tail: int, removed: seq<int>,
                          n: nat) {
    forall k {:trigger Unfold(k)} :: Unfold(k) ==>
      n <= |over| && Walked(over, next, head, n) && Collected(over, next, slices, tail, removed) &&
      removed + Picked(over, n, true) == Picked(over, 0, true) &&
      forall k | 0 <= k < |removed| :: removed[k] < n
  }

  lemma UnlinkStep(over: seq<bool>, next: seq<int>, head: int, slices: int, tail: int, removed: seq<int>, n: nat)
    requires n < |over| == |next| && over[n] && Walking(over, next, head, slices, tail, removed, n)
    ensures -1 <= tail < |next| && (slices == -1 <==> tail == -1)
    ensures Walking(over, Unlinked(next, n, tail), if n == 0 then next[n] else head,
                    if slices == -1 then n else slices, n, removed + [n], n + 1)
    ensures Unlinked(next, n, tail)[n] == Node(n + 1, |over|)
  {
    assert Unfold(0);
    UnlinkLinks(over, next, head, slices, tail, removed, n);
    assert removed + [n] + Picked(over, n + 1, true) == removed + Picked(over, n, true);
  }

  lemma UnlinkLinks(over: seq<bool>, next: seq<int>, head: int, slices: int, tail: int, removed: seq<int>, n: nat)
    requires n < |over| && Walked(over, next, head, n) && Collected(over, next, slices, tail, removed)
    requires over[n] && forall k | 0 <= k < |removed| :: removed[k] < n
    ensures -1 <= tail < |next|
    ensures Walked(over, Unlinked(next, n, tail), if n == 0 then next[n] else head, n + 1)
    ensures Collected(over, Unlinked(next, n, tail), if slices == -1 then n else slices, n, removed + [n])
  {
    var next' := Unlinked(next, n, tail);
    var removed' := removed + [n];
    forall k | 0 <= k < |removed'| - 1 ensures next'[removed'[k]] == removed'[k + 1] {
      if k == |removed| - 1 {
        assert removed'[k] == tail;
      } else {
        assert removed[k] < removed[|removed| - 1];
        assert next[removed[k]] == removed[k + 1];
      }
    }
  }

  lemma KeepStep(over: seq<bool>, next: seq<int>, head: int, slices: int, tail: int, removed: seq<int>, n: nat)
    requires n < |over| == |next| && !over[n] && Walking(over, next, head, slices, tail, removed, n)
    ensures Walking(over, next, head, slices, tail, removed, n + 1) && next[n] == Node(n + 1, |over|)
  {
    assert Unfold(0);
  }

  /** The walk over the list, from its untouched state to its end. */
  method WalkList(next: array<int>, over: seq<bool>)
    returns (head: int, slices: int, tail: int, ghost removed: seq<int>)
    requires next.Length == |over| && Walking(over, next[..], Node(0, |over|), -1, -1, [], 0)
    modifies next
    ensures Walking(over, next[..], head, slices, tail, removed, |over|)
  {
    head, slices, tail, removed := Node(0, |over|), -1, -1, [];
    var previous, current := -1, head;
    ghost var n := 0;
    while current != -1
      invariant 0 <= n <= |over| && current == Node(n, |over|) && previous == n - 1
      invariant Walking(over, next[..], head, slices, tail, removed, n)
      decreases |over| - n
    {
      if over[current] {
        UnlinkStep(over, next[..], head, slices, tail, removed, n);
        head, slices := Unlink(next, head, slices, tail, previous, current);
        tail := current;
        removed := removed + [n];
      } else {
        KeepStep(over, next[..], head, slices, tail, removed, n);
      }
      previous := current;
      current := next[current];
      n := n + 1;
    }
  }

  lemma WalkStart(over: seq<bool>, next: seq<int>)
    requires |next| == |over| && forall i | 0 <= i < |over| :: next[i] == Node(i + 1, |over|)
    ensures Walking(over, next, Node(0, |over|), -1, -1, [], 0)
  {
    assert [] + Picked(over, 0, true) == Picked(over, 0, true);
  }

  /** The whole loop of the source; `next` is changed in place. */
  method RemoveConflictSlices(next: array<int>, over: seq<bool>) returns (head: int, slices: int)
    requires next.Length == |over| && forall i | 0 <= i < |over| :: next[i] == Node(i + 1, |over|)
    modifies next
    ensures Chain(next[..], slices, Picked(over, 0, true))
    ensures Chain(next[..], head, Picked(over, 0, false)) <==> NoAdjacent(over)
    ensures Forward(next[..]) && -1 <= head < |over| && -1 <= slices < |over|
    ensures (exists x :: x in Follow(next[..], head) && over[x]) <==> !NoAdjacent(over)
  {
    WalkStart(over, next[..]);
    var tail;
    ghost var removed;
    head, slices, tail, removed := WalkList(next, over);
    CloseChain(over, next[..], head, slices, tail, removed);
    if slices != -1 {
      next[tail] := -1;
    }
  }

  /** One overlapping node is unlinked and appended to the removed chain. */
  method Unlink(next: array<int>, head0: int, slices0: int, tail: int, previous: int, current: nat)
    returns (head: int, slices: int)
    requires current < next.Length && -1 <= tail < next.Length && previous == current - 1
    requires slices0 == -1 <==> tail == -1
    modifies next
    ensures next[..] == Unlinked(old(next[..]), current, tail)
    ensures head == (if current == 0 then old(next[current]) else head0)
    ensures slices == if slices0 == -1 then current else slices0
  {
    head, slices := head0, slices0;
    if previous == -1 {
      head := next[current];
    } else {
      next[previous] := next[current];
    }
    if slices == -1 {
      slices := current;
    } else {
      next[tail] := current;
    }
  }

  lemma CloseChain(over: seq<bool>, next: seq<int>, head: int, slices: int, tail: int, removed: seq<int>)
    requires Walking(over, next, head, slices, tail, removed, |over|)
    ensures slices != -1 ==> 0 <= tail < |next|
    ensures var closed := if slices == -1 then next else next[tail := -1];
            |closed| == |over| && Chain(closed, slices, Picked(over, 0, true)) && Forward(closed) &&
            -1 <= head < |over| && -1 <= slices < |over| &&
            (Chain(closed, head, Picked(over, 0, false)) <==> NoAdjacent(over)) &&
            ((exists x :: x in Follow(closed, head) && over[x]) <==> !NoAdjacent(over))
  {
    assert Unfold(0);
    assert removed == Picked(over, 0, true);
    var closed := if slices == -1 then next else next[tail := -1];
    LinksExactly(over, closed, head);
    CloseRemoved(over, next, slices, tail, removed);
    assert removed != [] ==> removed[0] in removed;
    LinksForward(over, closed, head, slices);
    LeftoverExactly(over, closed, head);
  }

  /** A removed node is still met from the head exactly when two adjacent ones were removed. */
  lemma LeftoverExactly(over: seq<bool>, next: seq<int>, head: int)
    requires Skipped(over, next, head) && Forward(next)
    ensures -1 <= head < |next| && ((exists x :: x in Follow(next, head) && over[x]) <==> !NoAdjacent(over))
  {
    if NoAdjacent(over) {
      LinksRight(over, next, head);
      FollowChain(next, head, Picked(over, 0, false));
    } else {
      var i := MinPair(over);
      Leftover(over, next, head, 0, i);
    }
  }

  lemma MinPair(over: seq<bool>) returns (i: nat)
    requires !NoAdjacent(over)
    ensures i < |over| - 1 && over[i] && over[i + 1] && forall j | 0 <= j < i :: !(over[j] && over[j + 1])
  {
    i := 0;
    while !(over[i] && over[i + 1])
      invariant i < |over| - 1 && forall j | 0 <= j < i :: !(over[j] && over[j + 1])
      decreases |over| - i
    {
      if i + 1 == |over| - 1 { assert NoAdjacent(over); }
      i := i + 1;
    }
  }

  /** From the link that leads to p or behind it the walk comes to the second node of the first pair. */
  lemma {:induction false} Leftover(over: seq<bool>, next: seq<int>, head: int, p: nat, i: nat)
    requires Skipped(over, next, head) && Forward(next) && p <= i < |over| - 1 && over[i] && over[i + 1]
    requires forall j | 0 <= j < i :: !(over[j] && over[j + 1])
    ensures i + 1 in Follow(next, Skip(over, p, |over|))
    decreases i - p
  {
    var x := Skip(over, p, |over|);
    if p < i {
      Leftover(over, next, head, x + 1, i);
    }
  }

  lemma LinksForward(over: seq<bool>, next: seq<int>, head: int, slices: int)
    requires Skipped(over, next, head) && Chain(next, slices, Picked(over, 0, true))
    ensures Forward(next)
  {
    var removed := Picked(over, 0, true);
    forall i | 0 <= i < |next| ensures next[i] == -1 || i < next[i] < |next| {
      if over[i] {
        var k := PickedHas(over, 0, true, i);
        assert Link(next, removed, k);
        if k + 1 < |removed| {
          PickedSorted(over, 0, true, k + 1);
          assert removed[k + 1] in removed;
        }
      }
    }
  }

  lemma CloseRemoved(over: seq<bool>, next: seq<int>, slices: int, tail: int, removed: seq<int>)
    requires Collected(over, next, slices, tail, removed)
    ensures slices != -1 ==> 0 <= tail < |next|
    ensures Chain(if slices == -1 then next else next[tail := -1], slices, removed)
  {
    var closed := if slices == -1 then next else next[tail := -1];
    forall k | 0 <= k < |removed| ensures Link(closed, removed, k) {
      if k < |removed| - 1 { assert next[removed[k]] == removed[k + 1] && removed[k] < removed[|removed| - 1]; }
    }
  }

  lemma {:induction false} PickedSorted(over: seq<bool>, i: nat, want: bool, k: nat)
    requires i <= |over| && k < |Picked(over, i, want)|
    ensures k > 0 ==> Picked(over, i, want)[k - 1] < Picked(over, i, want)[k]
    ensures var x := Picked(over, i, want)[k]; i <= x < |over| && Picked(over, x, want) == Picked(over, i, want)[k..]
    decreases |over| - i
  {
    var r := Picked(over, i, want);
    if over[i] == want {
      if k == 0 {
        assert r[0..] == r;
      } else {
        PickedSorted(over, i + 1, want, k - 1);
        assert r[k..] == Picked(over, i + 1, want)[k - 1..];
        if k == 1 { assert r[1] in Picked(over, i + 1, want); }
      }
    } else {
      PickedSorted(over, i + 1, want, k);
    }
  }

  lemma {:induction false} PickedHas(over: seq<bool>, i: nat, want: bool, x: nat) returns (k: nat)
    requires i <= x < |over| && over[x] == want
    ensures k < |Picked(over, i, want)| && Picked(over, i, want)[k] == x
    decreases |over| - i
  {
    if i == x {
      k := 0;
    } else {
      k := PickedHas(over, i + 1, want, x);
      if over[i] == want { k := k + 1; }
    }
  }

  ghost predicate Skipped(over: seq<bool>, next: seq<int>, head: int) {
    |next| == |over| && head == Skip(over, 0, |over|) &&
    forall i | 0 <= i < |over| && !over[i] :: next[i] == Skip(over, i + 1, |over|)
  }

  /** The links of the kept nodes are right exactly when no two adjacent nodes were removed. */
  lemma LinksExactly(over: seq<bool>, next: seq<int>, head: int)
    requires Skipped(over, next, head)
    ensures Chain(next, head, Picked(over, 0, false)) <==> NoAdjacent(over)
  {
    if NoAdjacent(over) {
      LinksRight(over, next, head);
    } else {
      LinksWrong(over, next, head);
    }
  }

  lemma LinksRight(over: seq<bool>, next: seq<int>, head: int)
    requires Skipped(over, next, head) && NoAdjacent(over)
    ensures Chain(next, head, Picked(over, 0, false))
  {
    var kept := Picked(over, 0, false);
    SkipIsNext(over, 0);
    forall k | 0 <= k < |kept| ensures Link(next, kept, k) {
      LinkRight(over, next, head, k);
    }
  }

  lemma LinkRight(over: seq<bool>, next: seq<int>, head: int, k: nat)
    requires Skipped(over, next, head) && NoAdjacent(over) && k < |Picked(over, 0, false)|
    ensures Link(next, Picked(over, 0, false), k)
  {
    var kept := Picked(over, 0, false);
    assert kept[k] in kept;
    PickedSorted(over, 0, false, k);
    SkipIsNext(over, kept[k] + 1);
    assert Picked(over, kept[k] + 1, false) == kept[k..][1..] == kept[k + 1..];
  }

  lemma LinksWrong(over: seq<bool>, next: seq<int>, head: int)
    requires Skipped(over, next, head) && !NoAdjacent(over)
    ensures !Chain(next, head, Picked(over, 0, false))
  {
    var kept := Picked(over, 0, false);
    var i := FirstPair(over);
    if i == 0 {
      assert head == 1;
      assert kept != [] ==> kept[0] in kept;
    } else {
      assert next[i - 1] == i + 1;
      var k := PickedHas(over, 0, false, i - 1);
      assert k + 1 < |kept| ==> kept[k + 1] in kept;
      assert !Link(next, kept, k);
    }
  }

  lemma FirstPair(over: seq<bool>) returns (i: nat)
    requires !NoAdjacent(over)
    ensures i < |over| - 1 && over[i] && over[i + 1] && (i > 0 ==> !over[i - 1])
  {
    i :| 0 <= i < |over| - 1 && over[i] && over[i + 1];
    while i > 0 && over[i - 1]
      invariant i < |over| - 1 && over[i] && over[i + 1]
    {
      i := i - 1;
    }
  }

  lemma SkipIsNext(over: seq<bool>, i: nat)
    requires i <= |over| && NoAdjacent(over)
    ensures var rest := Picked(over, i, false); Skip(over, i, |over|) == if rest == [] then -1 else rest[0]
  {
  }
}
