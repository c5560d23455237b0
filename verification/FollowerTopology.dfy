/**
 How a follower applies the leader's pushed entries to one data group: the master flags, the group's
 master pointer, and the status and version of each data server.
 */
module FollowerTopology {
  import opened Common

  datatype Status = Init | Rebuilding | Offline | Recovering | Online | Active

  datatype Entry = Entry(ds: nat, isMaster: bool, status: Status, version: int)

  /** The group as its master pointer and the reported status and version of each server. */
  datatype Group = Group(master: Option<nat>, status: seq<Status>, version: seq<int>)

  /** The master pointer as a register: a server is set as master, or unset if it is the master. */
  function Register(master: Option<nat>, e: Entry): Option<nat> {
    if e.isMaster then Some(e.ds) else if master == Some(e.ds) then None else master
  }

  /** The follower's own status: ACTIVE when it becomes master; otherwise it can only fall from ACTIVE
      to OFFLINE, when it is told so or when it ceases to be master. */
  function OwnStatus(me: nat, g: Group, e: Entry): Status
    requires me < |g.status|
  {
    var master' := Register(g.master, e);
    if master' == Some(me) && g.master != Some(me) then Active
    else if g.status[me] == Active &&
            ((e.ds == me && e.status == Offline && !e.isMaster) || (g.master == Some(me) && master' != Some(me)))
    then Offline
    else g.status[me]
  }

  /** What an entry is meant to do; entries of unknown servers are ignored. */
  function Apply(me: Option<nat>, g: Group, e: Entry): (r: Group)
    requires |g.status| == |g.version|
    ensures |r.status| == |r.version| == |g.status|
  {
    if e.ds >= |g.status| then g
    else Group(Register(g.master, e),
               seq(|g.status|, d requires 0 <= d < |g.status| =>
                 if me == Some(d) then OwnStatus(d, g, e) else if d == e.ds then e.status else g.status[d]),
               if me == Some(e.ds) then g.version else g.version[e.ds := e.version])
  }

  function ApplyAll(me: Option<nat>, g: Group, entries: seq<Entry>): (r: Group)
    requires |g.status| == |g.version|
    ensures |r.status| == |r.version| == |g.status|
    decreases |entries|
  {
    if entries == [] then g else ApplyAll(me, Apply(me, g, entries[0]), entries[1..])
  }

  /** A master move pushed as two entries has the same effect in either order. */
  lemma MoveInEitherOrder(me: Option<nat>, g: Group, lost: Entry, gained: Entry)
    requires |g.status| == |g.version| && lost.ds < |g.status| && gained.ds < |g.status|
    requires !lost.isMaster && gained.isMaster && lost.ds != gained.ds
    ensures ApplyAll(me, g, [lost, gained]) == ApplyAll(me, g, [gained, lost])
    ensures ApplyAll(me, g, [lost, gained]).master == Some(gained.ds)
  {
    var a := Apply(me, Apply(me, g, lost), gained);
    var b := Apply(me, Apply(me, g, gained), lost);
    assert [lost, gained][1..] == [gained] && [gained, lost][1..] == [lost];
    assert [gained][1..] == [] && [lost][1..] == [];
    assert a.status == b.status;
    assert a.version == b.version;
    assert ApplyAll(me, Apply(me, g, lost), [gained]) == a;
    assert ApplyAll(me, Apply(me, g, gained), [lost]) == b;
  }

  /** The entry makes the follower master although it was not, and its status was not ACTIVE. */
  predicate Raises(me: nat, g: Group, e: Entry) {
    me < |g.status| && e.ds == me && e.isMaster && g.master != Some(me) && g.status[me] != Active
  }

  /** The own status stays or falls from ACTIVE to OFFLINE. */
  predicate Falls(s: Status, s': Status) { s' == s || (s == Active && s' == Offline) }

  /** The exact law of the follower's own status under one pushed entry: it only falls unless the entry
      raises it, and then it becomes ACTIVE; it falls to OFFLINE exactly when ACTIVE and told so, or
      when it ceases to be master. */
  lemma OwnStatusChanges(me: nat, g: Group, e: Entry)
    requires me < |g.status| == |g.version|
    ensures var s, s' := g.status[me], Apply(Some(me), g, e).status[me];
            (Falls(s, s') <==> !Raises(me, g, e)) && (Raises(me, g, e) ==> s' == Active) &&
            (s == Active && s' == Offline <==>
               s == Active && e.ds < |g.status| &&
               ((e.ds == me && e.status == Offline && !e.isMaster) ||
                (g.master == Some(me) && Register(g.master, e) != Some(me))))
  {
    assert e.ds < |g.status| ==> Apply(Some(me), g, e).status[me] == OwnStatus(me, g, e);
  }

  /** The documented law fails: an entry that names an offline follower master makes it ACTIVE. */
  lemma RaisedByPush()
    ensures var g := Group(None, [Offline], [0]);
            Apply(Some(0), g, Entry(0, true, Offline, 0)).status == [Active] && !Falls(Offline, Active)
  {
    var g := Group(None, [Offline], [0]);
    assert Apply(Some(0), g, Entry(0, true, Offline, 0)).status[0] == Active;
  }

  /** The own status falls at every entry of the sequence, or stays. */
  ghost predicate AlwaysFalls(me: nat, g: Group, entries: seq<Entry>)
    requires me < |g.status| == |g.version|
    decreases |entries|
  {
    entries == [] ||
    (Falls(g.status[me], Apply(Some(me), g, entries[0]).status[me]) &&
     AlwaysFalls(me, Apply(Some(me), g, entries[0]), entries[1..]))
  }

  /** Over any sequence of entries the own status only falls exactly when no entry, where it is applied,
      raises it. */
  lemma {:induction false} AlwaysFallsExactly(me: nat, g: Group, entries: seq<Entry>)
    requires me < |g.status| == |g.version|
    ensures AlwaysFalls(me, g, entries) <==>
            forall k | 0 <= k < |entries| :: !Raises(me, ApplyAll(Some(me), g, entries[..k]), entries[k])
    decreases |entries|
  {
    if entries != [] {
      var e, g', rest := entries[0], Apply(Some(me), g, entries[0]), entries[1..];
      OwnStatusChanges(me, g, e);
      AlwaysFallsExactly(me, g', rest);
      assert entries[..0] == [];
      forall k | 0 <= k < |rest| ensures ApplyAll(Some(me), g, entries[..k + 1]) == ApplyAll(Some(me), g', rest[..k]) {
        assert entries[..k + 1][0] == e && entries[..k + 1][1..] == rest[..k];
      }
      assert forall k | 0 < k < |entries| :: entries[k] == rest[k - 1] && entries[..k] == entries[..(k - 1) + 1];
    }
  }

  /** Entries that do not name the follower master can only take it from ACTIVE to OFFLINE. */
  lemma {:induction false} UnnamedOnlyFalls(me: nat, g: Group, entries: seq<Entry>)
    requires me < |g.status| == |g.version| && forall e | e in entries :: !(e.ds == me && e.isMaster)
    ensures Falls(g.status[me], ApplyAll(Some(me), g, entries).status[me])
    decreases |entries|
  {
    if entries != [] {
      OwnStatusChanges(me, g, entries[0]);
      UnnamedOnlyFalls(me, Apply(Some(me), g, entries[0]), entries[1..]);
    }
  }

  /** The last entry of a server decides its status and version; without an entry both stay.  The follower's
      own version is never taken from a push. */
  lemma {:induction false} LastEntryDecides(me: Option<nat>, g: Group, entries: seq<Entry>, d: nat)
    requires |g.status| == |g.version| && d < |g.status|
    ensures var after := ApplyAll(me, g, entries);
            (me == Some(d) ==> after.version[d] == g.version[d]) &&
            (me != Some(d) && (forall k | 0 <= k < |entries| :: entries[k].ds != d) ==>
               after.status[d] == g.status[d] && after.version[d] == g.version[d]) &&
            forall k | 0 <= k < |entries| && entries[k].ds == d && me != Some(d) &&
                       (forall j | k < j < |entries| :: entries[j].ds != d) ::
              after.status[d] == entries[k].status && after.version[d] == entries[k].version
    decreases |entries|
  {
    if entries != [] {
      var rest := entries[1..];
      LastEntryDecides(me, Apply(me, g, entries[0]), rest, d);
      assert forall k | 0 < k < |entries| :: entries[k] == rest[k - 1];
    }
  }

  /** The last entry that names a master decides, unless that master is unset afterwards. */
  lemma {:induction false} LastMasterDecides(me: Option<nat>, g: Group, before: seq<Entry>, named: Entry,
                                             after: seq<Entry>)
    requires |g.status| == |g.version| && named.isMaster && named.ds < |g.status|
    requires forall e | e in after :: !e.isMaster && e.ds != named.ds
    ensures ApplyAll(me, g, before + [named] + after).master == Some(named.ds)
    decreases |before|
  {
    var all := before + [named] + after;
    if before == [] {
      assert all[0] == named && all[1..] == after;
      OthersUnset(me, Apply(me, g, named), after, named.ds);
    } else {
      assert all[0] == before[0] && all[1..] == before[1..] + [named] + after;
      LastMasterDecides(me, Apply(me, g, before[0]), before[1..], named, after);
    }
  }

  /** An entry that takes the mastership from the present master leaves the group without one, until an entry
      names another. */
  lemma {:induction false} UnsetDecides(me: Option<nat>, g: Group, before: seq<Entry>, lost: Entry, after: seq<Entry>)
    requires |g.status| == |g.version| && !lost.isMaster && lost.ds < |g.status|
    requires ApplyAll(me, g, before).master == Some(lost.ds) && forall e | e in after :: !e.isMaster
    ensures ApplyAll(me, g, before + [lost] + after).master == None
    decreases |before|
  {
    var all := before + [lost] + after;
    if before == [] {
      assert all[0] == lost && all[1..] == after;
      StaysUnset(me, Apply(me, g, lost), after);
    } else {
      assert all[0] == before[0] && all[1..] == before[1..] + [lost] + after;
      UnsetDecides(me, Apply(me, g, before[0]), before[1..], lost, after);
    }
  }

  lemma {:induction false} StaysUnset(me: Option<nat>, g: Group, entries: seq<Entry>)
    requires |g.status| == |g.version| && g.master == None && forall e | e in entries :: !e.isMaster
    ensures ApplyAll(me, g, entries).master == None
    decreases |entries|
  {
    if entries != [] {
      StaysUnset(me, Apply(me, g, entries[0]), entries[1..]);
    }
  }

  lemma {:induction false} OthersUnset(me: Option<nat>, g: Group, entries: seq<Entry>, m: nat)
    requires |g.status| == |g.version| && g.master == Some(m)
    requires forall e | e in entries :: !e.isMaster && e.ds != m
    ensures ApplyAll(me, g, entries).master == Some(m)
    decreases |entries|
  {
    if entries != [] {
      OthersUnset(me, Apply(me, g, entries[0]), entries[1..], m);
    }
  }

  /** The follower's copy of a data group, with the redundant flags the program keeps. */
  class DataGroup {
    const myself: Option<nat>
    var isMaster: seq<bool>
    var master: Option<nat>
    var status: seq<Status>
    var version: seq<int>

    /** A server is flagged as master exactly when the group's master pointer is the server. */
    ghost predicate Valid()
      reads this
    {
      |isMaster| == |status| == |version| &&
      (forall d | 0 <= d < |isMaster| :: isMaster[d] <==> master == Some(d)) &&
      (master.Some? ==> master.value < |isMaster|) && (myself.Some? ==> myself.value < |isMaster|)
    }

    ghost function Snap(): Group
      reads this
    {
      Group(master, status, version)
    }

    constructor (count: nat, myself: Option<nat>)
      requires myself.Some? ==> myself.value < count
      ensures Valid() && this.myself == myself && |status| == count && master == None
    {
      this.myself := myself;
      isMaster, master := seq(count, _ => false), None;
      status, version := seq(count, _ => Init), seq(count, _ => 0);
    }

    method OnMasterChange(oldMaster: Option<nat>, newMaster: Option<nat>)
      requires |status| > 0 && (myself.Some? ==> myself.value < |status|)
      modifies this`status
      ensures status ==
              if myself == None || newMaster == oldMaster then old(status)
              else if newMaster == myself then old(status)[myself.value := Active]
              else if oldMaster == myself && old(status)[myself.value] == Active then
                old(status)[myself.value := Offline]
              else old(status)
    {
      if newMaster == oldMaster || myself == None {
        return;
      }
      if newMaster == myself {
        if status[myself.value] != Active {
          status := status[myself.value := Active];
        }
      } else if oldMaster == myself && status[myself.value] == Active {
        status := status[myself.value := Offline];
      }
    }

    /** The status part of an entry. */
    method TakeStatus(e: Entry)
      requires Valid() && e.ds < |status|
      modifies this`status, this`version
      ensures Valid()
      ensures status == if myself != Some(e.ds) then old(status)[e.ds := e.status]
                        else if e.status == Offline && old(status)[e.ds] == Active && !e.isMaster then
                          old(status)[e.ds := Offline]
                        else old(status)
      ensures version == if myself == Some(e.ds) then old(version) else old(version)[e.ds := e.version]
    {
      if myself == Some(e.ds) {
        if e.status == Offline && status[e.ds] == Active && !e.isMaster {
          status := status[e.ds := Offline];
        }
      } else {
        status := status[e.ds := e.status];
        version := version[e.ds := e.version];
      }
    }

    /** The master part of an entry that changes the server's flag. */
    method MoveMaster(e: Entry) returns (newMaster: Option<nat>)
      requires Valid() && e.ds < |status| && isMaster[e.ds] != e.isMaster
      modifies this`isMaster, this`master
      ensures Valid() && newMaster == master == Register(old(master), e) && master != old(master)
    {
      var oldMaster := master;
      isMaster := isMaster[e.ds := e.isMaster];
      if isMaster[e.ds] {
        newMaster := Some(e.ds);
        if newMaster != oldMaster {
          if oldMaster != None {
            isMaster := isMaster[oldMaster.value := false];
          }
          master := newMaster;
        }
      } else if oldMaster == Some(e.ds) {
        newMaster := None;
        master := None;
      } else {
        assert false;
        newMaster := None;
      }
    }

    /** cluster_process_push_entry. */
    method ProcessPushEntry(e: Entry)
      requires Valid() && e.ds < |status|
      modifies this
      ensures Valid() && Snap() == Apply(myself, old(Snap()), e)
    {
      var wasMaster, oldMaster := isMaster[e.ds], master;
      TakeStatus(e);
      if wasMaster == e.isMaster {
        assert Snap().status == Apply(myself, old(Snap()), e).status;
        return;
      }
      var newMaster := MoveMaster(e);
      OnMasterChange(oldMaster, newMaster);
      assert Snap().status == Apply(myself, old(Snap()), e).status;
    }

    /** All entries of one push packet, in order. */
    method ProcessLeaderPush(entries: seq<Entry>)
      requires Valid()
      modifies this
      ensures Valid() && Snap() == ApplyAll(myself, old(Snap()), entries)
    {
      var i := 0;
      while i < |entries|
        invariant i <= |entries| && Valid() && |status| == |old(status)|
        invariant ApplyAll(myself, Snap(), entries[i..]) == ApplyAll(myself, old(Snap()), entries)
      {
        assert entries[i..][0] == entries[i] && entries[i..][1..] == entries[i + 1..];
        if entries[i].ds < |status| {
          ProcessPushEntry(entries[i]);
        }
        i := i + 1;
      }
    }
  }
}
