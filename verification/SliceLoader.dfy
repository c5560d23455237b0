/**
 Loading the slice binlog in parallel.  Parse threads produce chains of records; the loader splits
 them in place, through the same links, into one chain per data thread, chosen by the block's hash
 code; the data threads apply their records to the block index while further rounds are loaded.
 */
module SliceLoader {
  import opened Common
  import opened BlockStore
  import opened ObjectBlockIndex

  /* ---------------------------------------------------------------- the in-place split */

  /** The nodes below m that go to data thread t, in log order. */
  function Nodes(target: seq<nat>, t: nat, m: nat): (r: seq<int>)
    requires m <= |target|
  {
    if m == 0 then []
    else if target[m - 1] == t then Nodes(target, t, m - 1) + [m - 1]
    else Nodes(target, t, m - 1)
  }

  lemma {:induction false} NodesIn(target: seq<nat>, t: nat, m: nat)
    requires m <= |target|
    ensures forall k | 0 <= k < |Nodes(target, t, m)| ::
              0 <= Nodes(target, t, m)[k] < m && target[Nodes(target, t, m)[k]] == t
    ensures forall k | 0 <= k < |Nodes(target, t, m)| - 1 ::
              Nodes(target, t, m)[k] < Nodes(target, t, m)[|Nodes(target, t, m)| - 1]
  {
    if m > 0 { NodesIn(target, t, m - 1); }
  }

  ghost predicate Joined(next: seq<int>, list: seq<int>, k: nat) {
    k + 1 < |list| && 0 <= list[k] < |next| && next[list[k]] == list[k + 1]
  }

  /** The chain from head to tail visits `list`; the tail's link is not looked at. */
  ghost predicate Linked(next: seq<int>, head: int, tail: int, list: seq<int>) {
    (if list == [] then head == -1 else head == list[0] && tail == list[|list| - 1]) &&
    forall k | 0 <= k < |list| - 1 :: Joined(next, list, k)
  }

  /** The chain from head visits `list` and then ends. */
  ghost predicate Closed(next: seq<int>, head: int, list: seq<int>) {
    head == (if list == [] then -1 else list[0]) &&
    (forall k | 0 <= k < |list| - 1 :: Joined(next, list, k)) &&
    (list != [] ==> 0 <= list[|list| - 1] < |next| && next[list[|list| - 1]] == -1)
  }

  /** All data chains after the first m records of the round. */
  ghost predicate Chains(target: seq<nat>, next: seq<int>, heads: seq<int>, tails: seq<int>, m: nat) {
    m <= |target| == |next| && |heads| == |tails| &&
    forall k {:trigger Unfold(k)} :: Unfold(k) ==>
      forall t | 0 <= t < |heads| :: Linked(next, heads[t], tails[t], Nodes(target, t, m))
  }

  lemma AddToChain(target: seq<nat>, next: seq<int>, heads: seq<int>, tails: seq<int>, m: nat)
    requires m < |target| && target[m] < |heads| && Chains(target, next, heads, tails, m)
    ensures var t := target[m];
            (heads[t] != -1 ==> 0 <= tails[t] < m) &&
            Chains(target, if heads[t] == -1 then next else next[tails[t] := m],
                   if heads[t] == -1 then heads[t := m] else heads, tails[t := m], m + 1)
    ensures heads[target[m]] != -1 <==> Nodes(target, target[m], m) != []
  {
    assert Unfold(0);
    var t := target[m];
    NodesIn(target, t, m);
    var next' := if heads[t] == -1 then next else next[tails[t] := m];
    var heads' := if heads[t] == -1 then heads[t := m] else heads;
    var tails' := tails[t := m];
    assert Linked(next, heads[t], tails[t], Nodes(target, t, m));
    forall u | 0 <= u < |heads| ensures Linked(next', heads'[u], tails'[u], Nodes(target, u, m + 1)) {
      AddKeepsLinked(target, next, heads[u], tails[u], m, u, if heads[t] == -1 then -1 else tails[t]);
    }
  }

  /** One chain when node m is added to the chain of its target, whose last node is `last`. */
  lemma AddKeepsLinked(target: seq<nat>, next: seq<int>, head: int, tail: int, m: nat, u: nat, last: int)
    requires m < |target| == |next| && Linked(next, head, tail, Nodes(target, u, m))
    requires last == -1 || (0 <= last < m && target[last] == target[m])
    requires u == target[m] ==> last == if head == -1 then -1 else tail
    ensures var next' := if last == -1 then next else next[last := m];
            Linked(next', if u == target[m] && head == -1 then m else head, if u == target[m] then m else tail,
                   Nodes(target, u, m + 1))
  {
    var list, list' := Nodes(target, u, m), Nodes(target, u, m + 1);
    NodesIn(target, u, m);
    var next' := if last == -1 then next else next[last := m];
    forall k | 0 <= k < |list'| - 1 ensures Joined(next', list', k) {
      if k < |list| - 1 {
        assert Joined(next, list, k);
        assert list[k] < list[|list| - 1];
      }
    }
  }

  /** One round of the loader: the parse chains, whose nodes are numbered in log order, are walked one
      after the other, and every record is moved to the chain of its data thread. */
  method SplitRound(next: array<int>, ends: seq<nat>, target: seq<nat>, threads: nat) returns (heads: seq<int>)
    requires next.Length == |target| && forall i | 0 <= i < |target| :: target[i] < threads
    requires ParseChains(next[..], ends)
    modifies next
    ensures |heads| == threads
    ensures forall t | 0 <= t < threads :: Closed(next[..], heads[t], Nodes(target, t, |target|))
  {
    heads := seq(threads, _ => -1);
    var tails := seq(threads, _ => -1);
    var p := 0;
    while p < |ends|
      invariant p <= |ends| && |heads| == threads
      invariant Chains(target, next[..], heads, tails, Start(ends, p)) && Untouched(next[..], ends, Start(ends, p))
    {
      heads, tails := SplitOne(next, ends, p, target, heads, tails);
      p := p + 1;
    }
    CloseChains(next, target, heads, tails);
  }

  /** The links of the parse chains: chain p holds the nodes from ends[p - 1] to ends[p]. */
  ghost predicate ParseChains(next: seq<int>, ends: seq<nat>) {
    (if ends == [] then |next| == 0 else ends[|ends| - 1] == |next|) &&
    (forall p, q | 0 <= p <= q < |ends| :: ends[p] <= ends[q]) && Untouched(next, ends, 0)
  }

  function Start(ends: seq<nat>, p: nat): nat
    requires p <= |ends|
  {
    if p == 0 then 0 else ends[p - 1]
  }

  ghost predicate Untouched(next: seq<int>, ends: seq<nat>, m: nat) {
    forall k {:trigger Unfold(k)} :: Unfold(k) ==>
      forall i | m <= i < |next| :: next[i] == if i + 1 in ends then -1 else i + 1
  }

  /** Relinking a node before m does not touch what is still to be walked. */
  lemma StillUntouched(next: seq<int>, ends: seq<nat>, p: nat, m: nat, x: int, v: int)
    requires p < |ends| && Untouched(next, ends, m) && Start(ends, p) <= m < ends[p] <= |next| && x < m
    requires forall e | e in ends :: e <= Start(ends, p) || ends[p] <= e
    ensures Untouched(if x < 0 then next else next[x := v], ends, m + 1)
    ensures next[m] == if m + 1 < ends[p] then m + 1 else -1
  {
    assert Unfold(0);
    assert ends[p] in ends;
  }

  /** One record joins the chain of its data thread. */
  method AddRecord(next: array<int>, record: nat, target: seq<nat>, heads0: seq<int>, tails0: seq<int>)
    returns (heads: seq<int>, tails: seq<int>, ghost x: int)
    requires next.Length == |target| && record < |target| && target[record] < |heads0|
    requires Chains(target, next[..], heads0, tails0, record)
    modifies next
    ensures |heads| == |heads0| && Chains(target, next[..], heads, tails, record + 1)
    ensures x < record && next[..] == if x < 0 then old(next[..]) else old(next[..])[x := record]
  {
    AddToChain(target, next[..], heads0, tails0, record);
    heads, tails := heads0, tails0;
    var t := target[record];
    x := if heads[t] == -1 then -1 else tails[t];
    if heads[t] == -1 {
      heads := heads[t := record];
    } else {
      next[tails[t]] := record;
    }
    tails := tails[t := record];
  }

  /** The chain of parse thread p. */
  method SplitOne(next: array<int>, ends: seq<nat>, p: nat, target: seq<nat>, heads0: seq<int>, tails0: seq<int>)
    returns (heads: seq<int>, tails: seq<int>)
    requires next.Length == |target| && p < |ends| && Start(ends, p) <= ends[p] <= |target|
    requires forall i | 0 <= i < |target| :: target[i] < |heads0|
    requires Chains(target, next[..], heads0, tails0, Start(ends, p)) && Untouched(next[..], ends, Start(ends, p))
    requires forall x | x in ends :: x <= Start(ends, p) || ends[p] <= x
    modifies next
    ensures |heads| == |heads0| && Chains(target, next[..], heads, tails, ends[p]) && Untouched(next[..], ends, ends[p])
  {
    heads, tails := heads0, tails0;
    ghost var m := Start(ends, p);
    var record: int := if Start(ends, p) < ends[p] then Start(ends, p) else -1;
    while record != -1
      invariant Start(ends, p) <= m <= ends[p] && record == if m < ends[p] then m else -1
      invariant |heads| == |heads0| && Chains(target, next[..], heads, tails, m) && Untouched(next[..], ends, m)
      decreases ends[p] - m
    {
      ghost var was := next[..];
      ghost var x;
      heads, tails, x := AddRecord(next, record, target, heads, tails);
      StillUntouched(was, ends, p, m, x, record);
      record := next[record];
      m := m + 1;
    }
  }

  method CloseChains(next: array<int>, target: seq<nat>, heads: seq<int>, tails: seq<int>)
    requires next.Length == |target| && Chains(target, next[..], heads, tails, |target|)
    modifies next
    ensures forall t | 0 <= t < |heads| :: Closed(next[..], heads[t], Nodes(target, t, |target|))
  {
    var t := 0;
    while t < |heads|
      invariant t <= |heads| && Chains(target, next[..], heads, tails, |target|)
      invariant forall u | 0 <= u < t :: Ended(next[..], Nodes(target, u, |target|))
    {
      CloseOne(target, next[..], heads, tails, t);
      if heads[t] != -1 {
        next[tails[t]] := -1;
      }
      t := t + 1;
    }
    assert Unfold(0);
  }

  ghost predicate Ended(next: seq<int>, list: seq<int>) {
    list != [] ==> 0 <= list[|list| - 1] < |next| && next[list[|list| - 1]] == -1
  }

  /** The last node of a chain. */
  lemma TailOf(target: seq<nat>, next: seq<int>, heads: seq<int>, tails: seq<int>, t: nat)
    requires t < |heads| && Chains(target, next, heads, tails, |target|)
    ensures var list := Nodes(target, t, |target|);
            if heads[t] == -1 then list == []
            else 0 <= tails[t] < |next| && target[tails[t]] == t && list != [] && tails[t] == list[|list| - 1]
  {
    assert Unfold(0);
    NodesIn(target, t, |target|);
    assert Linked(next, heads[t], tails[t], Nodes(target, t, |target|));
  }

  lemma CloseChain(target: seq<nat>, next: seq<int>, heads: seq<int>, tails: seq<int>, t: nat)
    requires t < |heads| && Chains(target, next, heads, tails, |target|) && heads[t] != -1
    requires 0 <= tails[t] < |next| && target[tails[t]] == t
    ensures Chains(target, next[tails[t] := -1], heads, tails, |target|)
  {
    assert Unfold(0);
    forall u | 0 <= u < |heads| ensures Linked(next[tails[t] := -1], heads[u], tails[u], Nodes(target, u, |target|)) {
      CloseKeepsLinked(target, next, heads[u], tails[u], u, tails[t], t);
    }
  }

  lemma CloseOne(target: seq<nat>, next: seq<int>, heads: seq<int>, tails: seq<int>, t: nat)
    requires t < |heads| && Chains(target, next, heads, tails, |target|)
    requires forall u | 0 <= u < t :: Ended(next, Nodes(target, u, |target|))
    ensures heads[t] != -1 ==> 0 <= tails[t] < |next|
    ensures var next' := if heads[t] == -1 then next else next[tails[t] := -1];
            Chains(target, next', heads, tails, |target|) &&
            forall u | 0 <= u <= t :: Ended(next', Nodes(target, u, |target|))
  {
    TailOf(target, next, heads, tails, t);
    var last := if heads[t] == -1 then -1 else tails[t];
    if heads[t] != -1 {
      CloseChain(target, next, heads, tails, t);
    }
    forall u | 0 <= u <= t ensures Ended(if last == -1 then next else next[last := -1], Nodes(target, u, |target|)) {
      CloseEnds(target, next, u, last, t);
    }
  }

  lemma CloseEnds(target: seq<nat>, next: seq<int>, u: nat, last: int, t: nat)
    requires |next| == |target| && u <= t && (u < t ==> Ended(next, Nodes(target, u, |target|)))
    requires last == -1 || (0 <= last < |target| && target[last] == t)
    requires u == t && Nodes(target, t, |target|) != [] ==>
               last == Nodes(target, t, |target|)[|Nodes(target, t, |target|)| - 1]
    ensures Ended(if last == -1 then next else next[last := -1], Nodes(target, u, |target|))
  {
    NodesIn(target, u, |target|);
  }

  lemma CloseKeepsLinked(target: seq<nat>, next: seq<int>, head: int, tail: int, u: nat, last: int, t: nat)
    requires |next| == |target| && Linked(next, head, tail, Nodes(target, u, |target|))
    requires last == -1 || (0 <= last < |target| && target[last] == t && (u == t ==> head != -1 && last == tail))
    ensures Linked(if last == -1 then next else next[last := -1], head, tail, Nodes(target, u, |target|))
  {
    var list := Nodes(target, u, |target|);
    NodesIn(target, u, |target|);
    var next' := if last == -1 then next else next[last := -1];
    forall k | 0 <= k < |list| - 1 ensures Joined(next', list, k) {
      assert Joined(next, list, k);
      assert list[k] < list[|list| - 1];
    }
  }

  /* ---------------------------------------------------------------- parallel replay */

  datatype BlockKey = BlockKey(oid: int, offset: int)

  datatype Record =
    | AddSlice(block: BlockKey, slice: Slice)
    | DeleteSlice(block: BlockKey, size: SliceSize)
    | DeleteBlock(block: BlockKey)

  /** What a block's index stands for: where each stored offset is kept. */
  type Contents = map<int, Place>

  type Index = map<BlockKey, Contents>

  /** The block's hash code, a 64-bit unsigned sum, picks the data thread. */
  function ThreadOf(b: BlockKey, threads: nat): (t: nat)
    requires threads > 0
    ensures t < threads
  {
    ((b.oid + b.offset + b.offset / FILE_BLOCK_SIZE) % 0x1_0000_0000_0000_0000) % threads
  }

  /** What the division by the block size is for: as long as the sum does not wrap around, successive blocks of
      a file go to successive threads if the number of threads divides the block size. */
  lemma NextBlockNextThread(b: BlockKey, threads: nat)
    requires threads > 0 && FILE_BLOCK_SIZE % threads == 0 && b.offset % FILE_BLOCK_SIZE == 0
    requires 0 <= b.oid && 0 <= b.offset
    requires b.oid + b.offset + b.offset / FILE_BLOCK_SIZE + FILE_BLOCK_SIZE + 1 < 0x1_0000_0000_0000_0000
    ensures ThreadOf(b.(offset := b.offset + FILE_BLOCK_SIZE), threads) == (ThreadOf(b, threads) + 1) % threads
  {
    var hash := b.oid + b.offset + b.offset / FILE_BLOCK_SIZE;
    assert (b.offset + FILE_BLOCK_SIZE) / FILE_BLOCK_SIZE == b.offset / FILE_BLOCK_SIZE + 1;
    AddMultiple(hash + 1, FILE_BLOCK_SIZE / threads, threads);
    AddOne(hash, threads);
  }

  lemma {:induction false} AddMultiple(x: nat, k: nat, n: nat)
    requires n > 0
    ensures (x + k * n) % n == x % n
  {
    if k > 0 {
      AddMultiple(x, k - 1, n);
      assert x + k * n == x + (k - 1) * n + n;
      AddOnce(x + (k - 1) * n, n);
    }
  }

  lemma AddOnce(x: nat, n: nat)
    requires n > 0
    ensures (x + n) % n == x % n
  {
    assert x + n == (x / n + 1) * n + x % n;
    Remainder(x / n + 1, x % n, n);
  }

  lemma Remainder(q: nat, r: nat, n: nat)
    requires r < n
    ensures (q * n + r) % n == r
  {
    var x := q * n + r;
    var q', r' := x / n, x % n;
    assert x == q' * n + r';
    assert (q - q') * n == q * n - q' * n;
    SmallMultiple(q - q', n, r' - r);
  }

  lemma SmallMultiple(a: int, n: int, d: int)
    requires 0 < n && 0 - n < d < n && a * n == d
    ensures d == 0
  {
  }

  lemma {:induction false} AddOne(x: nat, n: nat)
    requires n > 0
    ensures (x + 1) % n == (x % n + 1) % n
    decreases x
  {
    if x >= n {
      AddOne(x - n, n);
      AddOneStep(x - n, n, x);
    } else {
      BelowDivisor(x, n);
    }
  }

  lemma AddOneStep(y: nat, n: nat, x: nat)
    requires n > 0 && x == y + n && (y + 1) % n == (y % n + 1) % n
    ensures (x + 1) % n == (x % n + 1) % n
  {
    AddOnce(y, n);
    AddOnce(y + 1, n);
    assert x + 1 == y + 1 + n;
  }

  lemma BelowDivisor(x: nat, n: nat)
    requires x < n
    ensures x % n == x
  {
  }

  /** And at 64 bits the sum wraps around. */
  lemma HashWraps()
    ensures ThreadOf(BlockKey(0xFFFF_FFFF_FFFF_FFFF, FILE_BLOCK_SIZE), 5) == 4
  {
  }

  /** Whether the record can be applied: a delete that finds nothing fails with "no entry". */
  predicate Applies(m: Contents, r: Record) {
    match r
    case AddSlice(_, _) => true
    case DeleteSlice(_, size) => exists p :: p in m && Between(size.offset, p, size.End())
    case DeleteBlock(_) => m != map[]
  }

  function Effect(m: Contents, r: Record): Contents {
    match r
    case AddSlice(_, slice) =>
      m + map p | slice.offset <= p < slice.End() && Between(slice.offset, p, slice.End()) :: slice.PlaceOf(p)
    case DeleteSlice(_, size) => map p | p in m && !Between(size.offset, p, size.End()) :: m[p]
    case DeleteBlock(_) => map[]
  }

  function Get(index: Index, b: BlockKey): Contents { if b in index then index[b] else map[] }

  function Deal(index: Index, r: Record): Index { index[r.block := Effect(Get(index, r.block), r)] }

  /** Sequential replay; it fails at the first record that cannot be applied. */
  ghost function Replay(index: Index, log: seq<Record>): Option<Index>
    decreases |log|
  {
    if log == [] then Some(index)
    else if Applies(Get(index, log[0].block), log[0]) then Replay(Deal(index, log[0]), log[1..])
    else None
  }

  /** The record says what is stored at offset p of block b. */
  predicate Touches(r: Record, b: BlockKey, p: int) {
    r.block == b &&
    match r
    case AddSlice(_, slice) => slice.offset <= p < slice.offset + slice.length
    case DeleteSlice(_, size) => size.offset <= p < size.offset + size.length
    case DeleteBlock(_) => true
  }

  /** What is stored at an offset of a block. */
  function Stored(index: Index, b: BlockKey, p: int): Option<Place> {
    if p in Get(index, b) then Some(Get(index, b)[p]) else None
  }

  /** One record changes exactly what it touches. */
  lemma DealAt(index: Index, r: Record, b: BlockKey, p: int)
    ensures Stored(Deal(index, r), b, p) ==
            if !Touches(r, b, p) then Stored(index, b, p)
            else if r.AddSlice? then Some(Place(r.slice.kind, r.slice.trunk, r.slice.start + p - r.slice.offset))
            else None
  {
    if r.block == b { assert Get(Deal(index, r), b) == Effect(Get(index, b), r); }
  }

  /** Records that do not touch an offset leave it. */
  lemma {:induction false} UntouchedStays(index: Index, log: seq<Record>, b: BlockKey, p: int)
    requires Replay(index, log).Some? && forall k | 0 <= k < |log| :: !Touches(log[k], b, p)
    ensures Stored(Replay(index, log).value, b, p) == Stored(index, b, p)
    decreases |log|
  {
    if log != [] {
      DealAt(index, log[0], b, p);
      UntouchedStays(Deal(index, log[0]), log[1..], b, p);
    }
  }

  /** The last record that touches an offset decides what is stored there: the place of an added slice, or
      nothing after a delete. */
  lemma {:induction false} LastRecordDecides(index: Index, log: seq<Record>, b: BlockKey, p: int, k: nat)
    requires Replay(index, log).Some? && k < |log| && Touches(log[k], b, p)
    requires forall j | k < j < |log| :: !Touches(log[j], b, p)
    ensures Stored(Replay(index, log).value, b, p) ==
            match log[k]
            case AddSlice(_, slice) => Some(Place(slice.kind, slice.trunk, slice.start + p - slice.offset))
            case _ => None
    decreases |log|
  {
    var rest := log[1..];
    forall j | 0 <= j < |rest| ensures rest[j] == log[j + 1] { }
    if k == 0 {
      DealAt(index, log[0], b, p);
      UntouchedStays(Deal(index, log[0]), rest, b, p);
    } else {
      LastRecordDecides(Deal(index, log[0]), rest, b, p, k - 1);
    }
  }

  /** A log whose last record deletes a block leaves nothing of it. */
  lemma DeletedBlockIsEmpty(index: Index, log: seq<Record>, b: BlockKey)
    requires Replay(index, log).Some? && log != [] && log[|log| - 1] == DeleteBlock(b)
    ensures Get(Replay(index, log).value, b) == map[]
  {
    forall p ensures p !in Get(Replay(index, log).value, b) {
      LastRecordDecides(index, log, b, p, |log| - 1);
    }
  }

  /** The replay of the records of one block. */
  ghost function ReplayBlock(m: Contents, log: seq<Record>): Option<Contents>
    decreases |log|
  {
    if log == [] then Some(m)
    else if Applies(m, log[0]) then ReplayBlock(Effect(m, log[0]), log[1..])
    else None
  }

  function OfBlock(log: seq<Record>, b: BlockKey): seq<Record> {
    if log == [] then [] else (if log[0].block == b then [log[0]] else []) + OfBlock(log[1..], b)
  }

  /** The records of a round that go to data thread t. */
  function ForThread(log: seq<Record>, t: nat, threads: nat): seq<Record>
    requires threads > 0
  {
    if log == [] then []
    else (if ThreadOf(log[0].block, threads) == t then [log[0]] else []) + ForThread(log[1..], t, threads)
  }

  /** `split` records have been split so far; `chains` are the chains of the last round that have not
      been pushed yet; a data thread that meets a record it cannot apply stops the load. */
  datatype Loader = Loader(split: nat, chains: seq<seq<Record>>, queues: seq<seq<Record>>, total: seq<nat>,
                           done: seq<nat>, index: Index, stopped: bool)

  datatype Step = SplitUpTo(upTo: nat) | PushChain(t: nat) | DealRecord(t: nat)

  ghost predicate Shaped(l: Loader, log: seq<Record>) {
    l.split <= |log| && 0 < |l.queues| == |l.chains| == |l.total| == |l.done|
  }

  function Fresh(threads: nat): Loader {
    Loader(0, seq(threads, _ => []), seq(threads, _ => []), seq(threads, _ => 0), seq(threads, _ => 0), map[], false)
  }

  ghost predicate AllPushed(l: Loader) {
    forall t | 0 <= t < |l.chains| :: l.chains[t] == []
  }

  /** The loader splits the next round when it has pushed all chains of the last one; data threads run
      at any time. */
  ghost predicate Enabled(l: Loader, log: seq<Record>, step: Step) {
    !l.stopped &&
    match step
    case SplitUpTo(n) => l.split < n <= |log| && AllPushed(l)
    case PushChain(t) => t < |l.chains| && l.chains[t] != []
    case DealRecord(t) => t < |l.queues| && l.queues[t] != []
  }

  ghost function Next(l: Loader, log: seq<Record>, step: Step): Loader
    requires Shaped(l, log) && Enabled(l, log, step)
  {
    var n := |l.queues|;
    match step
    case SplitUpTo(m) =>
      var round := log[l.split..m];
      l.(split := m,
         chains := seq(n, t requires 0 <= t < n => ForThread(round, t, n)),
         total := seq(n, t requires 0 <= t < n => l.total[t] + |ForThread(round, t, n)|))
    case PushChain(t) => l.(queues := l.queues[t := l.queues[t] + l.chains[t]], chains := l.chains[t := []])
    case DealRecord(t) =>
      var r := l.queues[t][0];
      if Applies(Get(l.index, r.block), r)
      then l.(queues := l.queues[t := l.queues[t][1..]], done := l.done[t := l.done[t] + 1], index := Deal(l.index, r))
      else l.(stopped := true)
  }

  /** What data thread t has still to deal with, as far as the log has been split. */
  function Waiting(l: Loader, t: nat): seq<Record>
    requires t < |l.queues| == |l.chains|
  {
    l.queues[t] + l.chains[t]
  }

  /** The work left for a block leads from its present contents to the sequential result so far, also
      where that is a failure. */
  ghost predicate OnTrack(l: Loader, log: seq<Record>, b: BlockKey)
    requires Shaped(l, log)
  {
    ReplayBlock(Get(l.index, b), OfBlock(Waiting(l, ThreadOf(b, |l.queues|)), b)) ==
    ReplayBlock(map[], OfBlock(log[..l.split], b))
  }

  ghost predicate Counted(l: Loader, t: nat)
    requires t < |l.queues| == |l.chains| == |l.total| == |l.done|
  {
    l.done[t] + |Waiting(l, t)| == l.total[t]
  }

  /** Records wait only with their own thread. */
  ghost predicate Own(l: Loader, t: nat)
    requires t < |l.queues| == |l.chains|
  {
    forall k | 0 <= k < |Waiting(l, t)| :: ThreadOf(Waiting(l, t)[k].block, |l.queues|) == t
  }

  /** The load has stopped at a record that sequential replay cannot apply either. */
  ghost predicate StoppedRightly(l: Loader, log: seq<Record>) {
    l.stopped ==> exists b :: ReplayBlock(map[], OfBlock(log, b)) == None
  }

  ghost predicate Inv(l: Loader, log: seq<Record>) {
    Shaped(l, log) && (forall b :: OnTrack(l, log, b)) && StoppedRightly(l, log) &&
    (forall t | 0 <= t < |l.queues| :: Counted(l, t)) && (forall t | 0 <= t < |l.queues| :: Own(l, t))
  }

  lemma {:induction false} OfBlockConcat(x: seq<Record>, y: seq<Record>, b: BlockKey)
    ensures OfBlock(x + y, b) == OfBlock(x, b) + OfBlock(y, b)
  {
    if x == [] {
      assert x + y == y;
    } else {
      assert (x + y)[0] == x[0] && (x + y)[1..] == x[1..] + y;
      OfBlockConcat(x[1..], y, b);
    }
  }

  lemma {:induction false} ReplayConcat(m: Contents, x: seq<Record>, y: seq<Record>)
    ensures ReplayBlock(m, x + y) ==
            match ReplayBlock(m, x) case None => None case Some(m') => ReplayBlock(m', y)
    decreases |x|
  {
    if x == [] {
      assert x + y == y;
    } else {
      assert (x + y)[0] == x[0] && (x + y)[1..] == x[1..] + y;
      ReplayConcat(Effect(m, x[0]), x[1..], y);
    }
  }

  /** The thread of a block gets all records of the block. */
  lemma {:induction false} ForThreadKeepsBlock(log: seq<Record>, threads: nat, b: BlockKey)
    requires threads > 0
    ensures OfBlock(ForThread(log, ThreadOf(b, threads), threads), b) == OfBlock(log, b)
  {
    if log != [] {
      var t := ThreadOf(b, threads);
      ForThreadKeepsBlock(log[1..], threads, b);
      var head := if ThreadOf(log[0].block, threads) == t then [log[0]] else [];
      OfBlockConcat(head, ForThread(log[1..], t, threads), b);
      if head != [] { assert head[1..] == []; }
    }
  }

  lemma {:induction false} ForThreadSorted(log: seq<Record>, t: nat, threads: nat)
    requires threads > 0
    ensures forall k | 0 <= k < |ForThread(log, t, threads)| ::
              ThreadOf(ForThread(log, t, threads)[k].block, threads) == t
  {
    if log != [] { ForThreadSorted(log[1..], t, threads); }
  }

  lemma SplitKeepsTrack(l: Loader, log: seq<Record>, n: nat, b: BlockKey)
    requires Shaped(l, log) && Enabled(l, log, SplitUpTo(n)) && OnTrack(l, log, b)
    ensures OnTrack(Next(l, log, SplitUpTo(n)), log, b)
  {
    var round, t := log[l.split..n], ThreadOf(b, |l.queues|);
    var m := Get(l.index, b);
    assert l.queues[t] + [] == l.queues[t];
    OfBlockConcat(l.queues[t], ForThread(round, t, |l.queues|), b);
    ForThreadKeepsBlock(round, |l.queues|, b);
    ReplayConcat(m, OfBlock(l.queues[t], b), OfBlock(round, b));
    assert log[..n] == log[..l.split] + round;
    OfBlockConcat(log[..l.split], round, b);
    ReplayConcat(map[], OfBlock(log[..l.split], b), OfBlock(round, b));
  }

  lemma PushKeepsTrack(l: Loader, log: seq<Record>, t: nat, b: BlockKey)
    requires Shaped(l, log) && Enabled(l, log, PushChain(t)) && OnTrack(l, log, b)
    ensures OnTrack(Next(l, log, PushChain(t)), log, b)
  {
    var l', u := Next(l, log, PushChain(t)), ThreadOf(b, |l.queues|);
    assert Waiting(l', u) == Waiting(l, u);
  }

  lemma DealKeepsTrack(l: Loader, log: seq<Record>, t: nat, b: BlockKey)
    requires Shaped(l, log) && Enabled(l, log, DealRecord(t)) && OnTrack(l, log, b) && Own(l, t)
    ensures OnTrack(Next(l, log, DealRecord(t)), log, b)
  {
    var l', work := Next(l, log, DealRecord(t)), Waiting(l, t);
    var r := l.queues[t][0];
    assert work[0] == r;
    if Applies(Get(l.index, r.block), r) {
      assert Waiting(l', t) == work[1..];
      if r.block == b {
        assert OfBlock(work, b)[0] == r && OfBlock(work, b)[1..] == OfBlock(work[1..], b);
      } else if ThreadOf(b, |l.queues|) == t {
        assert OfBlock(work, b) == OfBlock(work[1..], b);
      }
    }
  }

  /** A record that cannot be applied makes sequential replay of its block fail. */
  lemma FailsRightly(l: Loader, log: seq<Record>, t: nat)
    requires Inv(l, log) && Enabled(l, log, DealRecord(t))
    requires var r := l.queues[t][0]; !Applies(Get(l.index, r.block), r)
    ensures ReplayBlock(map[], OfBlock(log, l.queues[t][0].block)) == None
  {
    var b, work := l.queues[t][0].block, Waiting(l, t);
    assert Own(l, t) && work[0] == l.queues[t][0];
    assert OnTrack(l, log, b) && OfBlock(work, b)[0] == work[0];
    assert ReplayBlock(Get(l.index, b), OfBlock(work, b)) == None;
    FailsFromPrefix(log, l.split, b);
  }

  lemma FailsFromPrefix(log: seq<Record>, n: nat, b: BlockKey)
    requires n <= |log| && ReplayBlock(map[], OfBlock(log[..n], b)) == None
    ensures ReplayBlock(map[], OfBlock(log, b)) == None
  {
    assert log == log[..n] + log[n..];
    OfBlockConcat(log[..n], log[n..], b);
    ReplayConcat(map[], OfBlock(log[..n], b), OfBlock(log[n..], b));
  }

  lemma StepKeepsThreads(l: Loader, log: seq<Record>, step: Step, t: nat)
    requires Shaped(l, log) && Enabled(l, log, step) && t < |l.queues| && Counted(l, t) && Own(l, t)
    ensures |Next(l, log, step).queues| == |l.queues| && Shaped(Next(l, log, step), log)
    ensures Counted(Next(l, log, step), t) && Own(Next(l, log, step), t)
  {
    var l' := Next(l, log, step);
    match step
    case SplitUpTo(n) =>
      assert Waiting(l, t) == l.queues[t];
      ForThreadSorted(log[l.split..n], t, |l.queues|);
    case PushChain(_) => assert Waiting(l', t) == Waiting(l, t);
    case DealRecord(u) =>
      if u == t && !l'.stopped { assert Waiting(l', t) == Waiting(l, t)[1..]; }
  }

  lemma StepKeepsInv(l: Loader, log: seq<Record>, step: Step)
    requires Inv(l, log) && Enabled(l, log, step)
    ensures Inv(Next(l, log, step), log) && |Next(l, log, step).queues| == |l.queues|
  {
    var l' := Next(l, log, step);
    forall b ensures OnTrack(l', log, b) {
      assert OnTrack(l, log, b);
      match step
      case SplitUpTo(n) => SplitKeepsTrack(l, log, n, b);
      case PushChain(t) => PushKeepsTrack(l, log, t, b);
      case DealRecord(t) => assert Own(l, t); DealKeepsTrack(l, log, t, b);
    }
    if l'.stopped {
      FailsRightly(l, log, step.t);
    }
    forall t | 0 <= t < |l.queues| ensures Counted(l', t) && Own(l', t) {
      assert Counted(l, t) && Own(l, t);
      StepKeepsThreads(l, log, step, t);
    }
  }

  ghost predicate ValidRun(l: Loader, log: seq<Record>, steps: seq<Step>)
    decreases |steps|
  {
    Shaped(l, log) && (steps == [] || (Enabled(l, log, steps[0]) && ValidRun(Next(l, log, steps[0]), log, steps[1..])))
  }

  ghost function Run(l: Loader, log: seq<Record>, steps: seq<Step>): Loader
    requires ValidRun(l, log, steps)
    decreases |steps|
  {
    if steps == [] then l else Run(Next(l, log, steps[0]), log, steps[1..])
  }

  lemma {:induction false} RunKeepsInv(l: Loader, log: seq<Record>, steps: seq<Step>)
    requires Inv(l, log) && ValidRun(l, log, steps)
    ensures Inv(Run(l, log, steps), log) && |Run(l, log, steps).queues| == |l.queues|
    decreases |steps|
  {
    if steps != [] {
      StepKeepsInv(l, log, steps[0]);
      RunKeepsInv(Next(l, log, steps[0]), log, steps[1..]);
    }
  }

  /** Sequential replay succeeds exactly when the replay of every block does, with the same contents. */
  lemma {:induction false} ReplayByBlock(index: Index, log: seq<Record>)
    ensures Replay(index, log).Some? ==>
              forall b :: ReplayBlock(Get(index, b), OfBlock(log, b)) == Some(Get(Replay(index, log).value, b))
    ensures Replay(index, log) == None ==> exists b :: ReplayBlock(Get(index, b), OfBlock(log, b)) == None
    decreases |log|
  {
    if log != [] {
      var r := log[0];
      forall b ensures OfBlock(log, b) == if b == r.block then [r] + OfBlock(log[1..], b) else OfBlock(log[1..], b) { }
      if Applies(Get(index, r.block), r) {
        var index' := Deal(index, r);
        ReplayByBlock(index', log[1..]);
        forall b
          ensures ReplayBlock(Get(index, b), OfBlock(log, b)) == ReplayBlock(Get(index', b), OfBlock(log[1..], b))
        {
          if b == r.block { assert OfBlock(log, b)[1..] == OfBlock(log[1..], b); }
        }
      } else {
        assert ReplayBlock(Get(index, r.block), OfBlock(log, r.block)) == None;
      }
    }
  }

  /** waiting_data_threads_finish: everything has been split, and no thread's done count is below its total. */
  ghost predicate Complete(l: Loader, log: seq<Record>) {
    l.split == |log| && |l.done| == |l.total| && forall t | 0 <= t < |l.done| :: !(l.done[t] < l.total[t])
  }

  /** For any log, any number of data threads, any rounds and any interleaving: a complete load means that
      sequential replay succeeds, and every block is as after it; a stopped load means that it fails. */
  lemma ParallelEqualsSequential(log: seq<Record>, threads: nat, steps: seq<Step>)
    requires threads > 0 && ValidRun(Fresh(threads), log, steps)
    ensures var l := Run(Fresh(threads), log, steps);
            (Complete(l, log) ==>
               Replay(map[], log).Some? && forall b :: Get(l.index, b) == Get(Replay(map[], log).value, b)) &&
            (l.stopped ==> Replay(map[], log) == None)
  {
    var l0 := Fresh(threads);
    RunKeepsInv(l0, log, steps);
    var l := Run(l0, log, steps);
    ReplayByBlock(map[], log);
    if Complete(l, log) {
      assert log[..|log|] == log;
      forall b ensures ReplayBlock(map[], OfBlock(log, b)) == Some(Get(l.index, b)) {
        assert OnTrack(l, log, b) && Counted(l, ThreadOf(b, threads));
      }
    }
  }

  /** After a complete load, whatever the rounds and the interleaving, the last record of the log that touches
      an offset decides what is stored there. */
  lemma LoadedByLastRecord(log: seq<Record>, threads: nat, steps: seq<Step>, b: BlockKey, p: int, k: nat)
    requires threads > 0 && ValidRun(Fresh(threads), log, steps) && Complete(Run(Fresh(threads), log, steps), log)
    requires k < |log| && Touches(log[k], b, p) && forall j | k < j < |log| :: !Touches(log[j], b, p)
    ensures Stored(Run(Fresh(threads), log, steps).index, b, p) ==
            match log[k]
            case AddSlice(_, slice) => Some(Place(slice.kind, slice.trunk, slice.start + p - slice.offset))
            case _ => None
  {
    ParallelEqualsSequential(log, threads, steps);
    LastRecordDecides(map[], log, b, p, k);
  }

  /** A load runs on until it is complete or has stopped, and it completes exactly when sequential replay
      meets no delete that finds nothing. */
  lemma LoadCompletesExactly(log: seq<Record>, threads: nat, steps: seq<Step>)
    requires threads > 0 && ValidRun(Fresh(threads), log, steps)
    requires forall step :: !Enabled(Run(Fresh(threads), log, steps), log, step)
    ensures var l := Run(Fresh(threads), log, steps);
            (Complete(l, log) <==> Replay(map[], log).Some?) && (l.stopped <==> Replay(map[], log) == None)
  {
    var l := Run(Fresh(threads), log, steps);
    ParallelEqualsSequential(log, threads, steps);
    RunKeepsInv(Fresh(threads), log, steps);
    if !l.stopped {
      forall t | 0 <= t < |l.queues| ensures l.chains[t] == [] && l.queues[t] == [] && l.done[t] == l.total[t] {
        assert !Enabled(l, log, PushChain(t)) && !Enabled(l, log, DealRecord(t)) && Counted(l, t);
      }
      assert !Enabled(l, log, SplitUpTo(|log|));
    }
  }

  /* ---------------------------------------------------------------- the split is the round */

  function Targets(round: seq<Record>, threads: nat): (r: seq<nat>)
    requires threads > 0
    ensures |r| == |round| && forall i | 0 <= i < |r| :: r[i] < threads
  {
    seq(|round|, i requires 0 <= i < |round| => ThreadOf(round[i].block, threads))
  }

  function RecordsAt(round: seq<Record>, nodes: seq<int>): seq<Record>
    requires forall k | 0 <= k < |nodes| :: 0 <= nodes[k] < |round|
  {
    seq(|nodes|, k requires 0 <= k < |nodes| => round[nodes[k]])
  }

  lemma {:induction false} ForThreadPush(x: seq<Record>, r: Record, t: nat, threads: nat)
    requires threads > 0
    ensures ForThread(x + [r], t, threads) ==
            ForThread(x, t, threads) + (if ThreadOf(r.block, threads) == t then [r] else [])
  {
    if x == [] {
      assert x + [r] == [r] && [r][1..] == [];
    } else {
      var head := if ThreadOf(x[0].block, threads) == t then [x[0]] else [];
      assert (x + [r])[0] == x[0] && (x + [r])[1..] == x[1..] + [r];
      ForThreadPush(x[1..], r, t, threads);
      assert ForThread(x + [r], t, threads) == head + ForThread(x[1..] + [r], t, threads);
    }
  }

  /** The chain that the in-place split leaves for thread t holds exactly the records of the round
      that belong to t, in log order. */
  lemma {:induction false} ChainIsForThread(round: seq<Record>, threads: nat, t: nat, m: nat)
    requires threads > 0 && m <= |round|
    ensures var nodes := Nodes(Targets(round, threads), t, m);
            (forall k | 0 <= k < |nodes| :: 0 <= nodes[k] < |round|) &&
            RecordsAt(round, nodes) == ForThread(round[..m], t, threads)
  {
    NodesIn(Targets(round, threads), t, m);
    if m > 0 {
      ChainIsForThread(round, threads, t, m - 1);
      assert round[..m] == round[..m - 1] + [round[m - 1]];
      ForThreadPush(round[..m - 1], round[m - 1], t, threads);
    }
  }

  /* ---------------------------------------------------------------- the block index applies the effects */

  /** The slice list of a block stands for its contents. */
  ghost predicate Stands(slices: seq<Slice>, m: Contents) {
    Ordered(slices) && forall p :: At(slices, p) == if p in m then Some(m[p]) else None
  }

  lemma {:induction false} HeldSome(slices: seq<Slice>, lo: int, hi: int)
    ensures Held(slices, lo, hi) > 0 <==> exists p :: Between(lo, p, hi) && At(slices, p).Some?
    decreases if lo < hi then hi - lo else 0
  {
    if lo < hi {
      HeldSome(slices, lo, hi - 1);
      if At(slices, hi - 1).Some? {
        assert Between(lo, hi - 1, hi);
      }
      if p :| Between(lo, p, hi - 1) && At(slices, p).Some? {
        assert Between(lo, p, hi);
      }
      if p :| Between(lo, p, hi) && At(slices, p).Some? && p != hi - 1 {
        assert Between(lo, p, hi - 1);
      }
    }
  }

  lemma EmptyList(slices: seq<Slice>, m: Contents)
    requires Stands(slices, m)
    ensures slices == [] <==> m == map[]
  {
    if slices != [] {
      AtSome(slices, 0, slices[0].offset);
      assert slices[0].offset in m;
    } else {
      forall p ensures p !in m { AtNone(slices, p); }
    }
  }

  /** slice_loader_deal_record on the block's slice list: it fails exactly where the record does not apply,
      and then leaves what is stored. */
  method DealOnBlock(block: ObjectBlock, r: Record, ghost m: Contents) returns (ok: bool)
    requires block.Valid() && Stands(block.slices, m)
    requires (r.AddSlice? ==> r.slice.length > 0) && (r.DeleteSlice? ==> r.size.length > 0)
    modifies block
    ensures block.Valid() && (ok <==> Applies(m, r))
    ensures Stands(block.slices, if ok then Effect(m, r) else m)
    ensures match r
            case AddSlice(_, slice) =>
              ok && forall p :: At(block.slices, p) ==
                                if Covers(slice, p) then Some(slice.PlaceOf(p)) else At(old(block.slices), p)
            case DeleteSlice(_, size) =>
              (ok <==> exists p :: size.offset <= p < size.End() && At(old(block.slices), p).Some?) &&
              forall p :: At(block.slices, p) ==
                          if size.offset <= p < size.End() then None else At(old(block.slices), p)
            case DeleteBlock(_) => (ok <==> old(block.slices) != []) && block.slices == []
  {
    match r {
      case AddSlice(_, slice) =>
        var alloc := block.AddSlice(slice);
        ok := true;
      case DeleteSlice(_, size) =>
        HeldSome(block.slices, size.offset, size.End());
        var freed;
        ok, freed := block.DeleteSlices(size);
      case DeleteBlock(_) =>
        EmptyList(block.slices, m);
        ok := block.slices != [];
        block.slices := [];
    }
  }
}
