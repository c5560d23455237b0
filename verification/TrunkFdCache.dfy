/**
 The cache of open trunk files: a hash table with chains and an LRU list over the same entries.
 */
module TrunkFdCache {

  datatype Pair = Pair(id: nat, fd: int)

  ghost predicate Distinct(s: seq<Pair>) {
    forall i, j | 0 <= i < j < |s| :: s[i].id != s[j].id
  }

  /** The position of an id, or the length of the list. */
  function Find(s: seq<Pair>, id: nat): (k: nat)
    ensures k <= |s| && (k < |s| ==> s[k].id == id)
    ensures forall i | 0 <= i < k :: s[i].id != id
  {
    if s == [] || s[0].id == id then 0 else 1 + Find(s[1..], id)
  }

  predicate Has(s: seq<Pair>, id: nat) { Find(s, id) < |s| }

  function Remove(s: seq<Pair>, k: nat): seq<Pair>
    requires k < |s|
  {
    s[..k] + s[k + 1..]
  }

  /** The list without an id; the least recent entry is the first one. */
  function Without(s: seq<Pair>, id: nat): seq<Pair> {
    if Has(s, id) then Remove(s, Find(s, id)) else s
  }

  function Touched(s: seq<Pair>, id: nat): seq<Pair> {
    if Has(s, id) then Without(s, id) + [s[Find(s, id)]] else s
  }

  function Added(s: seq<Pair>, capacity: nat, p: Pair): seq<Pair> {
    (if s != [] && |s| >= capacity then s[1..] else s) + [p]
  }

  lemma RemoveIs(s: seq<Pair>, k: nat)
    requires k < |s| && Distinct(s)
    ensures Distinct(Remove(s, k)) && forall p :: p in Remove(s, k) <==> p in s && p.id != s[k].id
  {
    var r := Remove(s, k);
    forall i | 0 <= i < |r| ensures r[i] == s[if i < k then i else i + 1] { }
    forall p | p in s && p.id != s[k].id ensures p in r {
      var i :| 0 <= i < |s| && s[i] == p;
      assert r[if i < k then i else i - 1] == p;
    }
  }

  /** A looked-up entry becomes the most recent one; the others keep their order. */
  lemma TouchedIs(s: seq<Pair>, id: nat)
    requires Distinct(s)
    ensures Distinct(Touched(s, id)) && |Touched(s, id)| == |s| && forall p :: p in Touched(s, id) <==> p in s
    ensures Has(s, id) ==> Touched(s, id)[|s| - 1].id == id && Touched(s, id)[..|s| - 1] == Without(s, id)
  {
    if Has(s, id) {
      var k := Find(s, id);
      RemoveIs(s, k);
      assert Touched(s, id) == Remove(s, k) + [s[k]];
      forall p | p in s && p.id == s[k].id ensures p == s[k] {
        var i :| 0 <= i < |s| && s[i] == p;
      }
    }
  }

  /** Adding at capacity evicts exactly the least recent entry. */
  lemma AddedIs(s: seq<Pair>, capacity: nat, p: Pair)
    requires Distinct(s) && 0 < capacity && |s| <= capacity && !Has(s, p.id)
    ensures Distinct(Added(s, capacity, p)) && |Added(s, capacity, p)| <= capacity
    ensures forall q :: q in Added(s, capacity, p) <==> q == p || (q in s && !(|s| == capacity && q == s[0]))
  {
    var kept := if s != [] && |s| >= capacity then s[1..] else s;
    forall q ensures q in kept <==> q in s && !(|s| == capacity && q == s[0]) {
      if |s| == capacity {
        if q in s && q != s[0] {
          var i :| 0 <= i < |s| && s[i] == q;
          assert s[1..][i - 1] == q;
        }
      }
    }
  }

  /** The list is ordered by the time of the last use. */
  ghost predicate ByUse(s: seq<Pair>, used: map<nat, nat>, clock: nat) {
    (forall i | 0 <= i < |s| :: s[i].id in used && used[s[i].id] <= clock) &&
    forall i, j | 0 <= i < j < |s| :: used[s[i].id] < used[s[j].id]
  }

  lemma RemoveByUse(s: seq<Pair>, k: nat, used: map<nat, nat>, clock: nat)
    requires k < |s| && ByUse(s, used, clock)
    ensures ByUse(Remove(s, k), used, clock)
  {
    var r := Remove(s, k);
    forall i | 0 <= i < |r| ensures r[i] == s[if i < k then i else i + 1] { }
  }

  /** An entry that is used now goes behind all others. */
  lemma UseByUse(s: seq<Pair>, p: Pair, used: map<nat, nat>, clock: nat)
    requires ByUse(s, used, clock) && forall q | q in s :: q.id != p.id
    ensures ByUse(s + [p], used[p.id := clock + 1], clock + 1)
  {
    forall i | 0 <= i < |s| ensures s[i].id != p.id { assert s[i] in s; }
  }

  lemma TouchedByUse(s: seq<Pair>, id: nat, used: map<nat, nat>, clock: nat)
    requires Distinct(s) && Has(s, id) && ByUse(s, used, clock)
    ensures ByUse(Touched(s, id), used[id := clock + 1], clock + 1)
  {
    var k := Find(s, id);
    RemoveIs(s, k);
    RemoveByUse(s, k, used, clock);
    UseByUse(Remove(s, k), s[k], used, clock);
  }

  /** The first entry of the list was used before all others. */
  lemma VictimIs(s: seq<Pair>, used: map<nat, nat>, clock: nat)
    requires ByUse(s, used, clock)
    ensures s != [] ==> forall p | p in s && p != s[0] :: p.id in used && s[0].id in used && used[s[0].id] < used[p.id]
  {
    forall p | p in s && p != s[0] ensures p.id in used && s[0].id in used && used[s[0].id] < used[p.id] {
      var i :| 0 <= i < |s| && s[i] == p;
    }
  }

  class Cache {
    const size: nat
    const capacity: nat
    var buckets: seq<seq<Pair>>
    var lru: seq<Pair>       // least recent first
    var count: int
    var closed: seq<int>     // the descriptors closed so far
    ghost var used: map<nat, nat>   // when an id was last added or looked up
    ghost var clock: nat

    /** A chain holds exactly the listed entries of its bucket. */
    ghost predicate ChainOk(h: nat)
      reads this
      requires h < |buckets| == size
    {
      Distinct(buckets[h]) && forall p :: p in buckets[h] <==> p in lru && p.id % size == h
    }

    ghost predicate Valid()
      reads this
    {
      size > 0 && capacity > 0 && |buckets| == size && Distinct(lru) && count == |lru| <= capacity &&
      ByUse(lru, used, clock) &&
      forall h | 0 <= h < size :: ChainOk(h)
    }

    constructor (size: nat, capacity: nat)
      requires size > 0 && capacity > 0
      ensures Valid() && lru == [] && closed == [] && this.capacity == capacity
    {
      this.size, this.capacity := size, capacity;
      buckets, lru, count, closed := seq(size, _ => []), [], 0, [];
      used, clock := map[], 0;
    }

    /** Walks the chain of the id's bucket. */
    method Locate(id: nat) returns (h: nat, k: nat)
      requires Valid()
      ensures h == id % size && h < size && k == Find(buckets[h], id)
      ensures k < |buckets[h]| <==> Has(lru, id)
      ensures k < |buckets[h]| ==> buckets[h][k] == lru[Find(lru, id)]
    {
      h := id % size;
      k := 0;
      while k < |buckets[h]| && buckets[h][k].id != id
        invariant k <= |buckets[h]| && forall i | 0 <= i < k :: buckets[h][i].id != id
      {
        k := k + 1;
      }
      assert ChainOk(h);
      SameEntry(buckets[h], lru, id, size);
    }

    /** Returns the descriptor of a cached trunk file and makes it the most recent one. */
    method Get(id: nat) returns (fd: int)
      requires Valid()
      modifies this
      ensures Valid() && lru == Touched(old(lru), id) && closed == old(closed)
      ensures fd == if Has(old(lru), id) then old(lru)[Find(old(lru), id)].fd else -1
      ensures forall p :: p in lru <==> p in old(lru)
      ensures if Has(old(lru), id) then clock == old(clock) + 1 && used == old(used)[id := clock]
              else clock == old(clock) && used == old(used)
    {
      var h, k := Locate(id);
      if k == |buckets[h]| {
        return -1;
      }
      fd := buckets[h][k].fd;
      TouchedIs(lru, id);
      TouchedByUse(lru, id, used, clock);
      lru := Touched(lru, id);
      used, clock := used[id := clock + 1], clock + 1;
      forall g: nat | 0 <= g < size ensures ChainOk(g) { assert old(ChainOk(g)); }
    }

    /** Closes and forgets a trunk file. */
    method Delete(id: nat) returns (ok: bool)
      requires Valid()
      modifies this
      ensures Valid() && ok == Has(old(lru), id) && lru == Without(old(lru), id)
      ensures closed == old(closed) + if ok then [old(lru)[Find(old(lru), id)].fd] else []
      ensures forall p :: p in lru <==> p in old(lru) && p.id != id
      ensures used == old(used) && clock == old(clock)
    {
      var h, k := Locate(id);
      if k == |buckets[h]| {
        assert forall i | 0 <= i < |lru| :: lru[i].id != id;
        return false;
      }
      assert ChainOk(h);
      RemoveIs(buckets[h], k);
      RemoveIs(lru, Find(lru, id));
      RemoveByUse(lru, Find(lru, id), used, clock);
      assert Without(lru, id) == Remove(lru, Find(lru, id));
      closed := closed + [buckets[h][k].fd];
      buckets := buckets[h := Remove(buckets[h], k)];
      lru := Without(lru, id);
      count := count - 1;
      ok := true;
      forall g: nat | 0 <= g < size ensures ChainOk(g) { assert old(ChainOk(g)); }
    }

    /** Adds an absent trunk file; at capacity the least recent one is closed. */
    method Add(id: nat, fd: int)
      requires Valid() && !Has(lru, id)
      modifies this
      ensures Valid() && lru == Added(old(lru), capacity, Pair(id, fd))
      ensures closed == old(closed) + if |old(lru)| == capacity then [old(lru)[0].fd] else []
      ensures clock == old(clock) + 1 && used == old(used)[id := clock] && Pair(id, fd) in lru
      ensures |old(lru)| < capacity ==> forall p | p in old(lru) :: p in lru
      ensures |old(lru)| == capacity ==>
                var victim := old(lru)[0];
                (forall p | p in old(lru) && p != victim :: p in lru && old(used)[victim.id] < old(used)[p.id]) &&
                !Has(lru, victim.id)
    {
      AddedIs(lru, capacity, Pair(id, fd));
      VictimIs(lru, used, clock);
      if count >= capacity {
        assert Find(lru, lru[0].id) == 0;
        var _ := Delete(lru[0].id);
        assert lru == old(lru)[1..];
      }
      Link(Pair(id, fd));
    }

    method Link(p: Pair)
      requires Valid() && |lru| < capacity && (forall q | q in lru :: q.id != p.id)
      modifies this
      ensures Valid() && lru == old(lru) + [p] && closed == old(closed)
      ensures clock == old(clock) + 1 && used == old(used)[p.id := clock]
    {
      var h := p.id % size;
      buckets := buckets[h := [p] + buckets[h]];
      UseByUse(lru, p, used, clock);
      lru := lru + [p];
      used, clock := used[p.id := clock + 1], clock + 1;
      count := count + 1;
      forall g: nat | 0 <= g < size ensures ChainOk(g) {
        assert old(ChainOk(g));
        if g == h {
          assert forall i | 0 <= i < |old(buckets)[h]| :: old(buckets)[h][i] in old(buckets)[h];
        }
      }
    }
  }

  /** The chain and the list find the same entry. */
  lemma SameEntry(chain: seq<Pair>, lru: seq<Pair>, id: nat, size: nat)
    requires size > 0 && Distinct(lru) && forall p :: p in chain <==> p in lru && p.id % size == id % size
    ensures Has(chain, id) <==> Has(lru, id)
    ensures Has(chain, id) ==> chain[Find(chain, id)] == lru[Find(lru, id)]
  {
    if Has(chain, id) {
      assert chain[Find(chain, id)] in chain;
      var i :| 0 <= i < |lru| && lru[i] == chain[Find(chain, id)];
    }
    if Has(lru, id) {
      assert lru[Find(lru, id)] in lru;
      var i :| 0 <= i < |chain| && chain[i] == lru[Find(lru, id)];
    }
  }
}
