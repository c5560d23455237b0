/**
 How the leader selects the master of a data group, on a snapshot of the group's data servers.  The
 order left by qsort is a parameter: some permutation sorted by the comparison function.
 */
module MasterElection {
  import opened Common

  /** The status of the cluster server, as the source numbers it. */
  const OFFLINE: int := 0
  const ONLINE: int := 1
  const ACTIVE: int := 2

  const OFFLINE_WAIT: int := 5
  const ONLINE_WAIT: int := 30

  type Status = x: int | OFFLINE <= x <= ACTIVE

  datatype Server = Server(status: Status, lastPing: int, statusChanged: int, version: nat, preseted: bool,
                           isMaster: bool) {
    predicate Active() { status == ACTIVE }
  }

  function Int(b: bool): int { if b then 1 else 0 }

  /** compare_ds_by_data_version. */
  function Compare(a: Server, b: Server): int {
    if a.version != b.version then (if a.version < b.version then -1 else 1)
    else if a.status != b.status then a.status - b.status
    else if a.preseted != b.preseted then Int(a.preseted) - Int(b.preseted)
    else Int(a.isMaster) - Int(b.isMaster)
  }

  /** `order` lists all servers, in ascending order. */
  ghost predicate SortedOrder(servers: seq<Server>, order: seq<nat>) {
    |order| == |servers| && (forall k | 0 <= k < |order| :: order[k] < |servers|) &&
    (forall i: nat | i < |servers| :: i in order) &&
    (forall j, k | 0 <= j < k < |order| :: Compare(servers[order[j]], servers[order[k]]) <= 0)
  }

  /** The comparison is a total order up to ties, so that sorting is possible. */
  lemma CompareIsOrder(a: Server, b: Server, c: Server)
    ensures Compare(a, b) <= 0 || Compare(b, a) <= 0
    ensures Compare(a, b) <= 0 && Compare(b, c) <= 0 ==> Compare(a, c) <= 0
    ensures Compare(a, b) == 0 <==>
            a.version == b.version && a.status == b.status && a.preseted == b.preseted && a.isMaster == b.isMaster
  {
  }

  /** The order with index x put in behind everything that is not greater. */
  function PutIn(servers: seq<Server>, order: seq<nat>, x: nat): seq<nat>
    requires x < |servers| && forall k | 0 <= k < |order| :: order[k] < |servers|
  {
    if order == [] || Compare(servers[order[|order| - 1]], servers[x]) <= 0 then order + [x]
    else PutIn(servers, order[..|order| - 1], x) + [order[|order| - 1]]
  }

  ghost predicate Ascending(servers: seq<Server>, order: seq<nat>) {
    (forall k | 0 <= k < |order| :: order[k] < |servers|) &&
    forall j, k | 0 <= j < k < |order| :: Compare(servers[order[j]], servers[order[k]]) <= 0
  }

  lemma {:induction false} PutInAscending(servers: seq<Server>, order: seq<nat>, x: nat)
    requires x < |servers| && Ascending(servers, order)
    ensures Ascending(servers, PutIn(servers, order, x)) && |PutIn(servers, order, x)| == |order| + 1
    ensures forall i :: i in PutIn(servers, order, x) <==> i in order || i == x
    decreases |order|
  {
    if order != [] {
      var front, last := order[..|order| - 1], order[|order| - 1];
      assert order == front + [last];
      if Compare(servers[last], servers[x]) <= 0 {
        forall k | 0 <= k < |order| ensures Compare(servers[order[k]], servers[x]) <= 0 {
          CompareIsOrder(servers[order[k]], servers[last], servers[x]);
        }
      } else {
        PutInAscending(servers, front, x);
        CompareIsOrder(servers[x], servers[last], servers[last]);
        var r := PutIn(servers, front, x);
        forall k | 0 <= k < |r| ensures Compare(servers[r[k]], servers[last]) <= 0 {
          assert r[k] in r;
          if r[k] != x { assert r[k] in front; }
        }
      }
    }
  }

  /** Every group of servers has a sorted order. */
  lemma {:induction false} OrderExists(servers: seq<Server>, n: nat) returns (order: seq<nat>)
    requires n <= |servers|
    ensures Ascending(servers, order) && |order| == n && forall i: nat :: i in order <==> i < n
    ensures n == |servers| ==> SortedOrder(servers, order)
    decreases n
  {
    if n == 0 {
      order := [];
    } else {
      order := OrderExists(servers, n - 1);
      PutInAscending(servers, order, n - 1);
      order := PutIn(servers, order, n - 1);
    }
  }

  /** The last server of the order has the highest version; among these it is active if any is, then preset
      if any is, and then the present master if it is among them. */
  lemma LastIsMaximal(servers: seq<Server>, order: seq<nat>, i: nat)
    requires SortedOrder(servers, order) && i < |servers|
    ensures var last := servers[order[|order| - 1]];
            servers[i].version <= last.version &&
            (servers[i].version == last.version ==>
               servers[i].status <= last.status &&
               (servers[i].status == last.status ==>
                  (servers[i].preseted ==> last.preseted) &&
                  (servers[i].preseted == last.preseted && servers[i].isMaster ==> last.isMaster)))
  {
    assert i in order;
    var k :| 0 <= k < |order| && order[k] == i;
    if k < |order| - 1 {
      assert Compare(servers[order[k]], servers[order[|order| - 1]]) <= 0;
    }
  }

  function Min(a: int, b: int): int { if a < b then a else b }

  /** IS_SERVER_TIMEDOUT. */
  predicate TimedOut(s: Server, now: int, start: int, timeout: int) {
    now - (if s.statusChanged > 0 then Min(s.statusChanged, start) else start) >= timeout
  }

  function Wait(s: Server): int { if s.status == ONLINE then ONLINE_WAIT else OFFLINE_WAIT }

  /** The server may still come back, or report: the election has to wait for it. */
  predicate Waiting(s: Server, now: int, start: int) {
    if s.Active() then s.lastPing < start else !TimedOut(s, now, start, Wait(s))
  }

  predicate Lost(s: Server, now: int, start: int) {
    s.Active() && s.lastPing < start && now - s.lastPing > ONLINE_WAIT + 5
  }

  /** The timeout left over by the counting loop: that of the last server that is not active. */
  function LeftTimeout(servers: seq<Server>): Option<int> {
    if servers == [] then None
    else if !servers[|servers| - 1].Active() then Some(Wait(servers[|servers| - 1]))
    else LeftTimeout(servers[..|servers| - 1])
  }

  function Actives(servers: seq<Server>): nat {
    if servers == [] then 0 else Actives(servers[..|servers| - 1]) + Int(servers[|servers| - 1].Active())
  }

  /** The active servers with at least the version, in configured order. */
  function Eligible(servers: seq<Server>, version: int): seq<nat> {
    if servers == [] then []
    else
      var n := |servers| - 1;
      Eligible(servers[..n], version) + (if servers[n].Active() && servers[n].version >= version then [n] else [])
  }

  lemma {:induction false} ActivesCount(servers: seq<Server>)
    ensures Actives(servers) <= |servers|
    ensures Actives(servers) == |servers| <==> forall i | 0 <= i < |servers| :: servers[i].Active()
    ensures Actives(servers) > 0 <==> exists i :: 0 <= i < |servers| && servers[i].Active()
    ensures Actives(servers) < |servers| <==> LeftTimeout(servers).Some?
  {
    if servers != [] {
      var front := servers[..|servers| - 1];
      ActivesCount(front);
      assert forall i | 0 <= i < |front| :: servers[i] == front[i];
      if Actives(front) > 0 {
        var i :| 0 <= i < |front| && front[i].Active();
        assert servers[i].Active();
      }
      if servers[|servers| - 1].Active() {
        assert Actives(servers) > 0 && 0 <= |servers| - 1 < |servers|;
      }
    }
  }

  ghost predicate SomeLost(servers: seq<Server>, now: int, start: int) {
    exists i :: 0 <= i < |servers| && Lost(servers[i], now, start)
  }

  ghost predicate NoneWaiting(servers: seq<Server>, now: int, start: int) {
    forall i | 0 <= i < |servers| :: !Waiting(servers[i], now, start)
  }

  /** The best server is active, and it is the preset one, or all are active, or it has been up long
      enough by the timeout of the last server that is not active. */
  predicate Decided(servers: seq<Server>, best: nat, now: int, start: int) {
    best < |servers| && servers[best].Active() &&
    (servers[best].preseted || LeftTimeout(servers) == None ||
     TimedOut(servers[best], now, start, LeftTimeout(servers).value))
  }

  /** The servers with the leader's own ping time refreshed, if an election starts. */
  function Refreshed(servers: seq<Server>, myself: Option<nat>, now: int, starts: bool): seq<Server> {
    if starts && myself.Some? && myself.value < |servers|
    then servers[myself.value := servers[myself.value].(lastPing := now + 1)] else servers
  }

  /** The refresh changes neither versions nor status, and so not the order. */
  lemma RefreshedSame(servers: seq<Server>, order: seq<nat>, myself: Option<nat>, now: int, starts: bool)
    requires SortedOrder(servers, order)
    ensures SortedOrder(Refreshed(servers, myself, now, starts), order)
    ensures forall i | 0 <= i < |servers| ::
              Refreshed(servers, myself, now, starts)[i].(lastPing := 0) == servers[i].(lastPing := 0)
  {
    var seen := Refreshed(servers, myself, now, starts);
    forall j, k | 0 <= j < k < |order| ensures Compare(seen[order[j]], seen[order[k]]) <= 0 {
      assert Compare(servers[order[j]], servers[order[k]]) <= 0;
    }
  }

  /** The nearest active server at or before k in configured order. */
  ghost predicate Nearest(servers: seq<Server>, k: nat, j: nat) {
    j <= k < |servers| && servers[j].Active() && forall i | j < i <= k :: !servers[i].Active()
  }

  /** No preset server is passed over for an equal one that is not preset; and with all servers active the
      present master is passed over only for a preset server or a higher version. */
  ghost predicate Preferred(servers: seq<Server>, m: nat) {
    m < |servers| &&
    (forall i | 0 <= i < |servers| && servers[i].status == 2 && servers[i].version == servers[m].version ::
       servers[i].preseted ==> servers[m].preseted) &&
    ((forall i | 0 <= i < |servers| :: servers[i].status == 2) ==>
       forall i | 0 <= i < |servers| && servers[i].version == servers[m].version && servers[i].isMaster ::
         servers[m].isMaster || (servers[m].preseted && !servers[i].preseted))
  }

  /** Whom an election waits for, in seconds: 30 for an online server and 5 for an offline one, since the
      start or the server's last change if that was earlier; and an active server until it reports. */
  lemma WaitingExactly(s: Server, now: int, start: int)
    ensures var since := if 0 < s.statusChanged < start then s.statusChanged else start;
            (s.status == 2 ==> (Waiting(s, now, start) <==> s.lastPing < start)) &&
            (s.status == 1 ==> (Waiting(s, now, start) <==> now < since + 30)) &&
            (s.status == 0 ==> (Waiting(s, now, start) <==> now < since + 5))
    ensures Lost(s, now, start) <==> s.status == 2 && s.lastPing < start && s.lastPing + 35 < now
  {
  }

  /** No election waits longer than 35 seconds: then everybody has reported, is out of time, or is lost, and
      the election starts anew. */
  lemma WaitingEnds(servers: seq<Server>, now: int, start: int)
    requires now >= start + 35
    ensures SomeLost(servers, now, start) || NoneWaiting(servers, now, start)
  {
    if i :| 0 <= i < |servers| && Waiting(servers[i], now, start) {
      WaitingExactly(servers[i], now, start);
      assert Lost(servers[i], now, start);
    }
  }

  datatype Outcome = Master(index: nat) | TryAgain | NoEntry

  datatype Policy = Strict | Timeout(limit: int)

  /** The group's election fields. */
  class Election {
    const hashCode: nat
    var startMs: int
    var retryCount: int

    constructor (hashCode: nat)
      ensures this.hashCode == hashCode && startMs == 0 && retryCount == 0
    {
      this.hashCode, startMs, retryCount := hashCode, 0, 0;
    }

    /** select_master with failover disabled: the preset server, if it is active. */
    method SelectPreseted(servers: seq<Server>) returns (r: Outcome)
      requires servers != []
      ensures r.Master? ==>
                r.index < |servers| && servers[r.index].Active() &&
                ((servers[r.index].preseted && forall i | 0 <= i < r.index :: !servers[i].preseted) ||
                 (r.index == 0 && forall i | 0 <= i < |servers| :: !servers[i].preseted))
      ensures r.Master? || r == TryAgain
      ensures r == TryAgain ==>
                exists i :: 0 <= i < |servers| && !servers[i].Active() && (servers[i].preseted || i == 0)
    {
      var i := 0;
      while i < |servers| && !servers[i].preseted
        invariant i <= |servers| && forall k | 0 <= k < i :: !servers[k].preseted
      {
        i := i + 1;
      }
      if i == |servers| {
        i := 0;
      }
      r := if servers[i].Active() then Master(i) else TryAgain;
    }

    /** The counting loop: who is active, who must be waited for, and the timeout it leaves behind. */
    method Count(servers: seq<Server>, now: int, start: int)
      returns (lost: bool, active: nat, waiting: nat, timeout: Option<int>)
      ensures lost <==> SomeLost(servers, now, start)
      ensures !lost ==> (waiting == 0 <==> NoneWaiting(servers, now, start))
      ensures !lost && waiting == 0 ==> active == Actives(servers) && timeout == LeftTimeout(servers)
    {
      lost, active, waiting, timeout := false, 0, 0, None;
      var i := 0;
      while i < |servers|
        invariant i <= |servers| && forall k | 0 <= k < i :: !Lost(servers[k], now, start)
        invariant waiting == 0 <==> forall k | 0 <= k < i :: !Waiting(servers[k], now, start)
        invariant timeout == LeftTimeout(servers[..i]) && (waiting == 0 ==> active == Actives(servers[..i]))
      {
        var s := servers[i];
        assert servers[..i + 1][..i] == servers[..i] && servers[..i + 1][i] == s;
        if s.Active() {
          if s.lastPing >= start {
            active := active + 1;
          } else if now - s.lastPing <= ONLINE_WAIT + 5 {
            waiting := waiting + 1;
          } else {
            lost := true;
            return;
          }
        } else {
          timeout := Some(Wait(s));
          if !TimedOut(s, now, start, timeout.value) {
            waiting := waiting + 1;
          }
        }
        i := i + 1;
      }
      assert servers[..i] == servers;
    }

    /** The scan walks the configured order down from the last server of the sorted order. */
    method ScanDown(servers: seq<Server>, from: nat) returns (version: int)
      requires from < |servers|
      ensures servers[from].Active() ==> version == servers[from].version
      ensures version == -1 <==> forall i | 0 <= i <= from :: !servers[i].Active()
      ensures version != -1 ==> exists i :: 0 <= i <= from && servers[i].Active() && servers[i].version == version
      ensures forall j: nat | Nearest(servers, from, j) :: version == servers[j].version
    {
      version := -1;
      var i := from;
      while i >= 0
        invariant -1 <= i <= from && version == -1 && forall k | i < k <= from :: !servers[k].Active()
      {
        if servers[i].Active() {
          return servers[i].version;
        }
        i := i - 1;
      }
    }

    method Candidates(servers: seq<Server>, version: int) returns (found: seq<nat>)
      ensures found == Eligible(servers, version)
      ensures forall k | 0 <= k < |found| ::
                found[k] < |servers| && servers[found[k]].Active() && servers[found[k]].version >= version
      ensures forall i: nat | i < |servers| && servers[i].Active() && servers[i].version >= version :: i in found
      ensures |found| <= Actives(servers)
    {
      found := [];
      for i := 0 to |servers|
        invariant found == Eligible(servers[..i], version) && |found| <= Actives(servers[..i])
        invariant forall k | 0 <= k < |found| ::
                    found[k] < i && servers[found[k]].Active() && servers[found[k]].version >= version
        invariant forall x: nat | x < i && servers[x].Active() && servers[x].version >= version :: x in found
      {
        assert servers[..i + 1][..i] == servers[..i];
        if servers[i].Active() && servers[i].version >= version {
          found := found + [i];
        }
      }
      assert servers[..|servers|] == servers;
    }

    /** select_master with failover enabled.  At the start of an election a leader that belongs to the group
        (`myself`) refreshes its own ping time, so that nobody waits for the leader itself. */
    method SelectMaster(servers: seq<Server>, order: seq<nat>, nowMs: int, policy: Policy, myself: Option<nat>)
      returns (r: Outcome, seen: seq<Server>)
      requires servers != [] && SortedOrder(servers, order) && (myself.Some? ==> myself.value < |servers|)
      modifies this
      ensures seen == Refreshed(servers, myself, nowMs / 1000, old(startMs) == 0)
      ensures old(startMs) == 0 && myself.Some? && servers[myself.value].Active() ==>
                !Waiting(seen[myself.value], nowMs / 1000, nowMs / 1000) &&
                !Lost(seen[myself.value], nowMs / 1000, nowMs / 1000)
      ensures var began := if old(startMs) == 0 then nowMs else old(startMs);
              if SomeLost(seen, nowMs / 1000, began / 1000) then startMs == 0 && retryCount == 0 && r == TryAgain
              else startMs == began && retryCount == (if old(startMs) == 0 then 1 else old(retryCount) + 1)
      ensures r.Master? ==>
                r.index < |servers| && servers[r.index].Active() && NoneWaiting(seen, nowMs / 1000, startMs / 1000)
      ensures r.Master? && policy.Strict? ==> forall i | 0 <= i < |servers| ::
                servers[i].version <= servers[r.index].version
      ensures r.Master? && policy.Strict? ==> Preferred(servers, r.index)
      ensures var began := if old(startMs) == 0 then nowMs else old(startMs);
              policy.Strict? ==>
                (r.Master? <==>
                   NoneWaiting(seen, nowMs / 1000, began / 1000) &&
                   Decided(seen, order[|order| - 1], nowMs / 1000, began / 1000))
    {
      seen := servers;
      if startMs == 0 && myself.Some? {
        seen := servers[myself.value := servers[myself.value].(lastPing := nowMs / 1000 + 1)];
      }
      RefreshedSame(servers, order, myself, nowMs / 1000, startMs == 0);
      r := SelectNow(seen, order, nowMs, policy);
    }

    method SelectNow(servers: seq<Server>, order: seq<nat>, nowMs: int, policy: Policy) returns (r: Outcome)
      requires servers != [] && SortedOrder(servers, order)
      modifies this
      ensures var began := if old(startMs) == 0 then nowMs else old(startMs);
              if SomeLost(servers, nowMs / 1000, began / 1000) then startMs == 0 && retryCount == 0 && r == TryAgain
              else startMs == began && retryCount == (if old(startMs) == 0 then 1 else old(retryCount) + 1)
      ensures r.Master? ==>
                r.index < |servers| && servers[r.index].Active() && NoneWaiting(servers, nowMs / 1000, startMs / 1000)
      ensures r.Master? && policy.Strict? ==> forall i | 0 <= i < |servers| ::
                servers[i].version <= servers[r.index].version
      ensures r.Master? && policy.Strict? ==> Preferred(servers, r.index)
      ensures var began := if old(startMs) == 0 then nowMs else old(startMs);
              policy.Strict? ==>
                (r.Master? <==>
                   NoneWaiting(servers, nowMs / 1000, began / 1000) &&
                   Decided(servers, order[|order| - 1], nowMs / 1000, began / 1000))
    {
      if startMs == 0 {
        startMs, retryCount := nowMs, 1;
      } else {
        retryCount := retryCount + 1;
      }
      var now, start := nowMs / 1000, startMs / 1000;
      var lost, active, waiting, timeout := Count(servers, now, start);
      ActivesCount(servers);
      if lost {
        ghost var i :| 0 <= i < |servers| && Lost(servers[i], now, start);
        assert Waiting(servers[i], now, start);
        startMs, retryCount := 0, 0;
        return TryAgain;
      }
      if active == 0 || waiting > 0 {
        return TryAgain;
      }
      var lastIndex := order[|order| - 1];
      r := SelectFrom(servers, order, lastIndex, active, timeout, now, start, policy);
    }

    /** The selection once nobody has to be waited for. */
    method SelectFrom(servers: seq<Server>, order: seq<nat>, lastIndex: nat, active: nat, left: Option<int>,
                      now: int, start: int, policy: Policy)
      returns (r: Outcome)
      requires servers != [] && SortedOrder(servers, order) && lastIndex == order[|order| - 1] && active > 0
      requires active == Actives(servers) && left == LeftTimeout(servers)
      ensures r.Master? ==> r.index < |servers| && servers[r.index].Active()
      ensures r.Master? && policy.Strict? ==> forall i | 0 <= i < |servers| ::
                servers[i].version <= servers[r.index].version
      ensures r.Master? && policy.Strict? ==> Preferred(servers, r.index)
      ensures servers[lastIndex].Active() && (servers[lastIndex].preseted || active == |servers|) ==>
                r == Master(lastIndex)
      ensures policy.Strict? ==> (r.Master? <==> Decided(servers, lastIndex, now, start))
      ensures var last := servers[lastIndex];
              var since := if 0 < last.statusChanged < start then last.statusChanged else start;
              var patience := if last.status == 1 then 90 else if last.status == 0 then 15 else
                              if left.Some? then left.value else 0;
              !(last.status == 2 && (last.preseted || active == |servers|)) ==>
                if now < since + patience then r == TryAgain
                else (r == NoEntry <==> forall i | 0 <= i <= lastIndex :: !servers[i].Active()) &&
                     forall j: nat | Nearest(servers, lastIndex, j) ::
                       (r.Master? <==>
                          servers[j].version >= last.version || (policy.Timeout? && now >= since + policy.limit)) &&
                       (r.Master? ==> servers[r.index].version >= servers[j].version)
      ensures policy.Strict? && r.Master? ==>
                var last, eligible := servers[lastIndex], Eligible(servers, servers[lastIndex].version);
                if last.preseted || active == |servers| then r.index == lastIndex
                else eligible != [] && r.index == eligible[hashCode % |eligible|]
    {
      ActivesCount(servers);
      forall i | 0 <= i < |servers|
        ensures servers[i].version <= servers[lastIndex].version
        ensures servers[i].version == servers[lastIndex].version ==> servers[i].status <= servers[lastIndex].status
        ensures servers[i].version == servers[lastIndex].version && servers[i].status == servers[lastIndex].status ==>
                  (servers[i].preseted ==> servers[lastIndex].preseted) &&
                  (servers[i].preseted == servers[lastIndex].preseted && servers[i].isMaster ==>
                     servers[lastIndex].isMaster)
      {
        LastIsMaximal(servers, order, i);
      }
      var last, timeout := servers[lastIndex], left;
      if last.Active() {
        if last.preseted || active == |order| {
          return Master(lastIndex);
        }
      } else if last.status == ONLINE {
        timeout := Some(ONLINE_WAIT * 3);
      } else {
        timeout := Some(OFFLINE_WAIT * 3);
      }
      if !TimedOut(last, now, start, timeout.value) {
        return TryAgain;
      }
      var max := ScanDown(servers, lastIndex);
      if max == -1 {
        return NoEntry;
      }
      if max < last.version && (policy.Strict? || !TimedOut(last, now, start, policy.limit)) {
        return TryAgain;
      }
      var found := Candidates(servers, max);
      if |found| == 0 {
        return NoEntry;
      }
      if |found| == |servers| {
        assert false;
        return Master(lastIndex);
      }
      r := Master(found[hashCode % |found|]);
    }
  }
}
