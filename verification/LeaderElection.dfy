/**
 The two-phase leader election of the cluster: every server may run as a candidate, sends "pre-set
 next leader" to every server in id order and then "commit next leader" in the same order.  Each
 handler call is one atomic step; the steps of all candidates interleave freely.

 Servers are named by their index in the server array, which every server keeps sorted by id.
 */
module LeaderElection {
  import opened Common

  datatype Phase = PreSet | Commit

  /** One remote call of the protocol: candidate `from` calls server `to`. */
  datatype Call = Call(phase: Phase, from: nat, to: nat)

  /** What a server remembers: the pending candidate and the leader pointer. */
  datatype Node = Node(nextLeader: Option<nat>, leader: Option<nat>)

  /** A candidate's progress: the phase, the next target, whether some call of the phase has
      succeeded, and the connect-failure flag, which only remote calls assign. */
  datatype Round = Idle | Active(phase: Phase, next: nat, succeeded: bool, connectFail: bool)

  /** `inflight` holds the calls that were sent, then given up by their candidate, and not yet handled. */
  datatype Cluster = Cluster(nodes: seq<Node>, rounds: seq<Round>, inflight: multiset<Call>)

  datatype Reply = Reply(node: Node, ok: bool)

  /* ---------------------------------------------------------------- handlers */

  function PreSetLeader(n: Node, c: nat): Reply {
    if n.nextLeader == None then Reply(n.(nextLeader := Some(c)), true)
    else if n.nextLeader != Some(c) then Reply(n.(nextLeader := None), false)
    else Reply(n, true)
  }

  function CommitLeader(n: Node, c: nat): Reply {
    if n.nextLeader == None then Reply(n, false)
    else if n.nextLeader != Some(c) then Reply(n.(nextLeader := None), false)
    else Reply(Node(None, Some(c)), true)
  }

  function Local(n: Node, phase: Phase, c: nat): Reply {
    match phase
    case PreSet => PreSetLeader(n, c)
    case Commit => CommitLeader(n, c)
  }

  /** The network handler: a server that leads rejects the call and gives up its leadership. */
  function DealNextLeader(n: Node, self: nat, phase: Phase, c: nat): Reply {
    if n.leader == Some(self) then Reply(n.(leader := None), false)
    else Local(n, phase, c)
  }

  function Deliver(n: Node, self: nat, phase: Phase, c: nat): Reply {
    if self == c then Local(n, phase, c) else DealNextLeader(n, self, phase, c)
  }

  /* ---------------------------------------------------------------- steps */

  datatype Step =
    | Start(c: nat, stale: bool)                     // the flag starts uninitialised
    | CallNext(c: nat)                               // the next call of the round reaches its target
    | ConnectFail(c: nat)                            // the next call cannot connect
    | EndPhase(c: nat)
    | Abort(c: nat, sent: bool)                      // the round is given up, the next call perhaps sent
    | LateCall(call: Call)                           // a call of an abandoned round is handled late
    | UnsetLeader(s: nat)                            // leader lost, or split brain detected
    | AdoptLeader(s: nat, leader: nat)               // another server reports to be leader

  ghost predicate WellFormed(s: Cluster) {
    |s.nodes| == |s.rounds|
  }

  /** `mayFail` is the set of calls whose connection may fail during the run. */
  ghost predicate Enabled(mayFail: set<Call>, s: Cluster, step: Step)
    requires WellFormed(s)
  {
    var n := |s.nodes|;
    match step
    case Start(c, _) => c < n && s.rounds[c] == Idle && s.nodes[c].leader == None
    case CallNext(c) => c < n && s.rounds[c].Active? && s.rounds[c].next < n
    case ConnectFail(c) =>
      c < n && s.rounds[c].Active? && s.rounds[c].next < n && s.rounds[c].next != c &&
      Call(s.rounds[c].phase, c, s.rounds[c].next) in mayFail
    case EndPhase(c) => c < n && s.rounds[c].Active? && s.rounds[c].next == n
    case Abort(c, sent) =>
      c < n && (sent ==> s.rounds[c].Active? && s.rounds[c].next < n && s.rounds[c].next != c)
    case LateCall(call) => call in s.inflight && call.from < n && call.to < n && call.from != call.to
    case UnsetLeader(t) => t < n
    case AdoptLeader(t, l) => t < n && l < n && t != l
  }

  ghost function Apply(mayFail: set<Call>, s: Cluster, step: Step): (r: Cluster)
    requires WellFormed(s) && Enabled(mayFail, s, step)
    ensures WellFormed(r) && |r.nodes| == |s.nodes|
  {
    match step
    case Start(c, stale) => s.(rounds := s.rounds[c := Active(PreSet, 0, false, stale)])
    case CallNext(c) =>
      var round := s.rounds[c];
      var t := round.next;
      var reply := Deliver(s.nodes[t], t, round.phase, c);
      var fail := if t == c then round.connectFail else false;
      var round' :=
        if reply.ok then round.(next := t + 1, succeeded := true, connectFail := fail)
        else if fail then round.(next := t + 1)
        else Idle;
      s.(nodes := s.nodes[t := reply.node], rounds := s.rounds[c := round'])
    case ConnectFail(c) =>
      s.(rounds := s.rounds[c := s.rounds[c].(next := s.rounds[c].next + 1, connectFail := true)])
    case EndPhase(c) =>
      var round := s.rounds[c];
      s.(rounds := s.rounds[c :=
        if round.phase == PreSet && round.succeeded then Active(Commit, 0, false, round.connectFail)
        else Idle])
    case Abort(c, sent) =>
      var given := s.(rounds := s.rounds[c := Idle]);
      if sent then given.(inflight := s.inflight + multiset{Call(s.rounds[c].phase, c, s.rounds[c].next)}) else given
    case LateCall(call) =>
      var to := call.to;
      s.(nodes := s.nodes[to := DealNextLeader(s.nodes[to], to, call.phase, call.from).node],
         inflight := s.inflight - multiset{call})
    case UnsetLeader(t) => s.(nodes := s.nodes[t := s.nodes[t].(leader := None)])
    case AdoptLeader(t, l) => s.(nodes := s.nodes[t := s.nodes[t].(leader := Some(l))])
  }

  ghost function Init(n: nat): (s: Cluster)
    ensures WellFormed(s) && |s.nodes| == n
  {
    Cluster(seq(n, i => Node(None, None)), seq(n, i => Idle), multiset{})
  }

  ghost predicate ValidRun(mayFail: set<Call>, s: Cluster, steps: seq<Step>)
    requires WellFormed(s)
    decreases |steps|
  {
    steps == [] ||
    (Enabled(mayFail, s, steps[0]) && ValidRun(mayFail, Apply(mayFail, s, steps[0]), steps[1..]))
  }

  ghost function Run(mayFail: set<Call>, s: Cluster, steps: seq<Step>): (r: Cluster)
    requires WellFormed(s) && ValidRun(mayFail, s, steps)
    ensures WellFormed(r) && |r.nodes| == |s.nodes|
    decreases |steps|
  {
    if steps == [] then s else Run(mayFail, Apply(mayFail, s, steps[0]), steps[1..])
  }

  /* ---------------------------------------------------------------- safety */

  ghost predicate Leads(s: Cluster, a: nat) {
    a < |s.nodes| && s.nodes[a].leader == Some(a)
  }

  /** Server a holds its own slot and has passed b in the pre-set phase of the current round,
      without having reached itself in the commit phase. */
  ghost predicate LowerReady(s: Cluster, a: nat, b: nat)
    requires WellFormed(s) && a < b < |s.nodes|
  {
    s.nodes[a].nextLeader == Some(a) && s.rounds[a].Active? &&
    match s.rounds[a].phase
    case PreSet => s.rounds[a].next > b
    case Commit => s.rounds[a].next <= a
  }

  /** Server b holds its own slot and stands between a and itself in the commit phase. */
  ghost predicate UpperReady(s: Cluster, a: nat, b: nat)
    requires WellFormed(s) && a < b < |s.nodes|
  {
    s.nodes[b].nextLeader == Some(b) && s.rounds[b].Active? &&
    s.rounds[b].phase == Commit && a < s.rounds[b].next <= b
  }

  /** The inductive invariant for a pair a < b: of "a leads or is ready" and "b leads or is ready"
      at most one holds.  It rests on the common id order of both phases. */
  ghost predicate PairInv(s: Cluster, a: nat, b: nat)
    requires WellFormed(s) && a < b < |s.nodes|
  {
    !((Leads(s, a) || LowerReady(s, a, b)) && (Leads(s, b) || UpperReady(s, a, b)))
  }

  /** The two kinds of call that have to get through between a and b. */
  ghost predicate PairConnected(mayFail: set<Call>, a: nat, b: nat) {
    Call(PreSet, a, b) !in mayFail && Call(Commit, b, a) !in mayFail
  }

  lemma StepKeepsPairInv(mayFail: set<Call>, s: Cluster, step: Step, a: nat, b: nat)
    requires WellFormed(s) && Enabled(mayFail, s, step)
    requires a < b < |s.nodes| && PairConnected(mayFail, a, b) && PairInv(s, a, b)
    ensures PairInv(Apply(mayFail, s, step), a, b)
  {
    if step.CallNext? {
      CallKeepsPairInv(mayFail, s, step.c, a, b);
    }
  }

  /** The decisive step: a call that reaches its target. */
  lemma CallKeepsPairInv(mayFail: set<Call>, s: Cluster, c: nat, a: nat, b: nat)
    requires WellFormed(s) && Enabled(mayFail, s, CallNext(c))
    requires a < b < |s.nodes| && PairInv(s, a, b)
    ensures PairInv(Apply(mayFail, s, CallNext(c)), a, b)
  {
  }

  /** A call of another server is handled at t. */
  ghost predicate CalledByOther(s: Cluster, step: Step, t: nat)
    requires WellFormed(s)
  {
    (step.CallNext? && step.c < |s.rounds| && step.c != t && s.rounds[step.c].Active? &&
     s.rounds[step.c].next == t) ||
    (step.LateCall? && step.call.to == t)
  }

  /** t commits itself in its own slot. */
  ghost predicate Wins(s: Cluster, step: Step, t: nat)
    requires WellFormed(s) && t < |s.nodes|
  {
    step == CallNext(t) && s.rounds[t].Active? && s.rounds[t].phase == Commit && s.rounds[t].next == t &&
    s.nodes[t].nextLeader == Some(t)
  }

  /** Exactly how leadership changes hands in a step: a server comes to lead only by its own commit, and it
      stops when it is called by another candidate, unset, or follows another server. */
  lemma LeadsExactly(mayFail: set<Call>, s: Cluster, step: Step, t: nat)
    requires WellFormed(s) && Enabled(mayFail, s, step) && t < |s.nodes|
    ensures Leads(Apply(mayFail, s, step), t) <==>
            Wins(s, step, t) ||
            (Leads(s, t) && !CalledByOther(s, step, t) && step != UnsetLeader(t) &&
             !(step.AdoptLeader? && step.s == t))
  {
    assert step.CallNext? ==> s.rounds[step.c].Active?;
  }

  lemma {:induction false} RunKeepsPairInv(mayFail: set<Call>, s: Cluster, steps: seq<Step>, a: nat, b: nat)
    requires WellFormed(s) && ValidRun(mayFail, s, steps)
    requires a < b < |s.nodes| && PairConnected(mayFail, a, b) && PairInv(s, a, b)
    ensures PairInv(Run(mayFail, s, steps), a, b)
    decreases |steps|
  {
    if steps != [] {
      StepKeepsPairInv(mayFail, s, steps[0], a, b);
      RunKeepsPairInv(mayFail, Apply(mayFail, s, steps[0]), steps[1..], a, b);
    }
  }

  /** For any number of servers and candidates and any interleaving: two servers between which the
      lower server's pre-set and the higher server's commit get through never both lead. */
  lemma MutualExclusion(mayFail: set<Call>, n: nat, steps: seq<Step>, a: nat, b: nat)
    requires a < b < n && ValidRun(mayFail, Init(n), steps)
    requires PairConnected(mayFail, a, b)
    ensures var s := Run(mayFail, Init(n), steps); !(Leads(s, a) && Leads(s, b))
  {
    RunKeepsPairInv(mayFail, Init(n), steps, a, b);
  }

  /** When no connection fails there is at most one leader. */
  lemma AtMostOneLeader(n: nat, steps: seq<Step>)
    requires ValidRun({}, Init(n), steps)
    ensures forall a, b | Leads(Run({}, Init(n), steps), a) && Leads(Run({}, Init(n), steps), b) :: a == b
  {
    var s := Run({}, Init(n), steps);
    forall a, b | Leads(s, a) && Leads(s, b) ensures a == b {
      if a < b {
        MutualExclusion({}, n, steps, a, b);
      } else if b < a {
        MutualExclusion({}, n, steps, b, a);
      }
    }
  }

  /* ------------------------------------------- the two calls are also necessary */

  /** Some run leads from s to r. */
  ghost predicate Reaches(mayFail: set<Call>, s: Cluster, r: Cluster) {
    forall k {:trigger Unfold(k)} :: Unfold(k) ==>
      WellFormed(s) && exists steps :: ValidRun(mayFail, s, steps) && Run(mayFail, s, steps) == r
  }

  lemma {:induction false} RunThen(mayFail: set<Call>, s: Cluster, steps: seq<Step>, step: Step)
    requires WellFormed(s) && ValidRun(mayFail, s, steps) && Enabled(mayFail, Run(mayFail, s, steps), step)
    ensures ValidRun(mayFail, s, steps + [step])
    ensures Run(mayFail, s, steps + [step]) == Apply(mayFail, Run(mayFail, s, steps), step)
    decreases |steps|
  {
    if steps == [] {
      assert [] + [step] == [step] && [step][1..] == [];
      assert ValidRun(mayFail, Apply(mayFail, s, step), []);
    } else {
      assert (steps + [step])[0] == steps[0] && (steps + [step])[1..] == steps[1..] + [step];
      RunThen(mayFail, Apply(mayFail, s, steps[0]), steps[1..], step);
    }
  }

  /** Extends a reachability fact by one step. */
  lemma Extend(mayFail: set<Call>, origin: Cluster, s: Cluster, step: Step) returns (r: Cluster)
    requires Reaches(mayFail, origin, s) && WellFormed(s) && Enabled(mayFail, s, step)
    ensures r == Apply(mayFail, s, step) && Reaches(mayFail, origin, r)
  {
    assert Unfold(0);
    r := Apply(mayFail, s, step);
    var steps :| ValidRun(mayFail, origin, steps) && Run(mayFail, origin, steps) == s;
    RunThen(mayFail, origin, steps, step);
  }

  ghost predicate Accepts(n: Node, self: nat, phase: Phase, c: nat) {
    (self == c || n.leader != Some(self)) &&
    match phase
    case PreSet => n.nextLeader in {None, Some(c)}
    case Commit => n.nextLeader == Some(c)
  }

  ghost function Accepted(n: Node, phase: Phase, c: nat): Node {
    match phase
    case PreSet => n.(nextLeader := Some(c))
    case Commit => Node(None, Some(c))
  }

  /** The nodes from lo to hi have accepted candidate c, the others are as before. */
  ghost predicate Swept(s: Cluster, r: Cluster, phase: Phase, c: nat, lo: nat, hi: nat) {
    WellFormed(s) && WellFormed(r) && |r.nodes| == |s.nodes| && c < |s.nodes| && lo <= hi <= |s.nodes| &&
    (forall t | lo <= t < hi :: r.nodes[t] == Accepted(s.nodes[t], phase, c)) &&
    (forall t | 0 <= t < |s.nodes| && !(lo <= t < hi) :: r.nodes[t] == s.nodes[t])
  }

  /** Candidate c's own calls sweep over accepting servers. */
  lemma {:induction false} Sweep(mayFail: set<Call>, origin: Cluster, s: Cluster, c: nat, hi: nat) returns (r: Cluster)
    requires Reaches(mayFail, origin, s) && WellFormed(s) && c < |s.nodes| && s.rounds[c].Active?
    requires s.rounds[c].next <= hi <= |s.nodes|
    requires forall t | s.rounds[c].next <= t < hi :: Accepts(s.nodes[t], t, s.rounds[c].phase, c)
    ensures Reaches(mayFail, origin, r)
    ensures Swept(s, r, s.rounds[c].phase, c, s.rounds[c].next, hi)
    ensures r.rounds[c].Active? && r.rounds[c].phase == s.rounds[c].phase && r.rounds[c].next == hi
    ensures s.rounds[c].succeeded || s.rounds[c].next < hi ==> r.rounds[c].succeeded
    ensures !s.rounds[c].connectFail ==> !r.rounds[c].connectFail
    ensures (forall t | 0 <= t < |s.rounds| && t != c :: r.rounds[t] == s.rounds[t]) && r.inflight == s.inflight
    decreases hi - s.rounds[c].next
  {
    if s.rounds[c].next == hi {
      r := s;
    } else {
      var m := Extend(mayFail, origin, s, CallNext(c));
      r := Sweep(mayFail, origin, m, c, hi);
    }
  }

  /** Candidate c takes the slots of the first hi servers: where another candidate holds one, the call
      clears it and fails, and c starts again. */
  lemma {:induction false} TakeSlots(mayFail: set<Call>, origin: Cluster, s: Cluster, c: nat, hi: nat)
    returns (r: Cluster)
    requires Reaches(mayFail, origin, s) && WellFormed(s) && c < |s.nodes| && hi <= |s.nodes|
    requires s.rounds[c] == Idle && s.nodes[c].leader == None
    requires forall t | 0 <= t < hi :: s.nodes[t].leader != Some(t)
    ensures Reaches(mayFail, origin, r) && Took(s, r, c, hi)
  {
    if hi == 0 {
      r := Extend(mayFail, origin, s, Start(c, false));
    } else {
      var m := TakeSlots(mayFail, origin, s, c, hi - 1);
      r := Extend(mayFail, origin, m, CallNext(c));
      if !Accepts(m.nodes[hi - 1], hi - 1, PreSet, c) {
        r := Extend(mayFail, origin, r, Start(c, false));
        r := Sweep(mayFail, origin, r, c, hi);
      }
    }
  }

  /** c stands at hi in its pre-set phase and holds the slots before; nothing else has changed. */
  ghost predicate Took(s: Cluster, r: Cluster, c: nat, hi: nat) {
    WellFormed(s) && WellFormed(r) && |r.nodes| == |s.nodes| && hi <= |s.nodes| && At(r, c, PreSet, hi) &&
    (hi > 0 ==> r.rounds[c].succeeded) && !r.rounds[c].connectFail && r.inflight == s.inflight &&
    (forall t | 0 <= t < |s.rounds| && t != c :: r.rounds[t] == s.rounds[t]) &&
    (forall t | 0 <= t < hi :: r.nodes[t] == s.nodes[t].(nextLeader := Some(c))) &&
    (forall t | hi <= t < |s.nodes| :: r.nodes[t] == s.nodes[t])
  }

  /** Leaders, rounds and the number of servers are the same. */
  ghost predicate SameButSlots(s: Cluster, r: Cluster) {
    WellFormed(s) && WellFormed(r) && |r.nodes| == |s.nodes| && r.rounds == s.rounds &&
    forall t | 0 <= t < |s.nodes| :: r.nodes[t].leader == s.nodes[t].leader
  }

  ghost predicate NobodyLeads(s: Cluster) {
    forall t | 0 <= t < |s.nodes| :: s.nodes[t].leader != Some(t)
  }

  /** c sends a pre-set call to every server before hi, but gives up each of these rounds before the
      call is handled. */
  lemma {:induction false} SendLate(mayFail: set<Call>, origin: Cluster, s: Cluster, c: nat, hi: nat)
    returns (r: Cluster)
    requires Reaches(mayFail, origin, s) && WellFormed(s) && c < |s.nodes| && hi <= |s.nodes|
    requires s.rounds[c] == Idle && s.nodes[c].leader == None && NobodyLeads(s)
    ensures Reaches(mayFail, origin, r) && SameButSlots(s, r)
    ensures forall call :: r.inflight[call] ==
              s.inflight[call] + if call.phase == PreSet && call.from == c && call.to < hi && call.to != c then 1 else 0
  {
    if hi == 0 {
      r := s;
    } else {
      r := SendLate(mayFail, origin, s, c, hi - 1);
      if hi - 1 != c {
        var m := TakeSlots(mayFail, origin, r, c, hi - 1);
        assert m.rounds[c := Idle] == r.rounds;
        r := Extend(mayFail, origin, m, Abort(c, true));
      }
    }
  }

  /** Late pre-set calls of c reach the servers from lo to hi, none of which leads. */
  lemma {:induction false} LateSweep(mayFail: set<Call>, origin: Cluster, s: Cluster, c: nat, lo: nat, hi: nat)
    returns (r: Cluster)
    requires Reaches(mayFail, origin, s) && WellFormed(s) && c < |s.nodes|
    requires lo <= hi <= |s.nodes| && !(lo <= c < hi)
    requires forall t | lo <= t < hi :: s.nodes[t].leader != Some(t) && s.inflight[Call(PreSet, c, t)] > 0
    ensures Reaches(mayFail, origin, r) && WellFormed(r) && |r.nodes| == |s.nodes| && r.rounds == s.rounds
    ensures forall t | 0 <= t < |s.nodes| ::
              r.nodes[t] == if lo <= t < hi then PreSetLeader(s.nodes[t], c).node else s.nodes[t]
    ensures forall call :: r.inflight[call] ==
              s.inflight[call] - if call.phase == PreSet && call.from == c && lo <= call.to < hi then 1 else 0
    decreases hi - lo
  {
    if lo == hi {
      r := s;
    } else {
      var m := Extend(mayFail, origin, s, LateCall(Call(PreSet, c, lo)));
      r := LateSweep(mayFail, origin, m, c, lo + 1, hi);
    }
  }

  lemma Begin(mayFail: set<Call>, n: nat) returns (s: Cluster)
    ensures s == Init(n) && Reaches(mayFail, s, s)
  {
    s := Init(n);
    assert ValidRun(mayFail, s, []) && Run(mayFail, s, []) == s;
  }

  ghost predicate AllAre(s: Cluster, lo: nat, hi: nat, node: Node) {
    hi <= |s.nodes| && forall t | lo <= t < hi :: s.nodes[t] == node
  }

  ghost predicate At(s: Cluster, c: nat, phase: Phase, next: nat) {
    c < |s.rounds| && s.rounds[c].Active? && s.rounds[c].phase == phase && s.rounds[c].next == next
  }

  /** If the lower server's pre-set can fail to connect, both servers can lead: b is elected, a loses
      sight of it and is elected by the others. */
  lemma LostPreSetSplitsBrain(mayFail: set<Call>, n: nat, a: nat, b: nat) returns (s: Cluster)
    requires a < b < n && Call(PreSet, a, b) in mayFail
    ensures Reaches(mayFail, Init(n), s) && Leads(s, a) && Leads(s, b)
  {
    var o := Begin(mayFail, n);
    s := Elected(mayFail, n, b);
    s := Extend(mayFail, o, s, UnsetLeader(a));
    s := Extend(mayFail, o, s, Start(a, false));
    s := Sweep(mayFail, o, s, a, b);
    s := Extend(mayFail, o, s, ConnectFail(a));
    s := Sweep(mayFail, o, s, a, n);
    s := Extend(mayFail, o, s, EndPhase(a));
    s := Sweep(mayFail, o, s, a, a + 1);
  }

  /** An undisturbed election. */
  lemma Elected(mayFail: set<Call>, n: nat, c: nat) returns (s: Cluster)
    requires c < n
    ensures Reaches(mayFail, Init(n), s) && WellFormed(s) && |s.nodes| == n
    ensures AllAre(s, 0, n, Node(None, Some(c))) && forall t | 0 <= t < n :: s.rounds[t] == Idle
  {
    var o := Begin(mayFail, n);
    s := Extend(mayFail, o, o, Start(c, false));
    s := Sweep(mayFail, o, s, c, n);
    s := Extend(mayFail, o, s, EndPhase(c));
    s := Sweep(mayFail, o, s, c, n);
    s := Extend(mayFail, o, s, EndPhase(c));
  }

  /** The late calls the run below uses: two pre-sets of b and one of a to every other server, and
      one commit of a to b. */
  ghost predicate Armed(s: Cluster, a: nat, b: nat) {
    s.inflight[Call(Commit, a, b)] > 0 &&
    (forall t: nat | t < |s.nodes| && t != b :: s.inflight[Call(PreSet, b, t)] > 1) &&
    (forall t: nat | t < |s.nodes| && t != a :: s.inflight[Call(PreSet, a, t)] > 0)
  }

  /** a has been elected up to b, gave up while its commit to b was under way, and lost the lead. */
  lemma CommitUnderWay(mayFail: set<Call>, n: nat, a: nat, b: nat) returns (s: Cluster)
    requires a < b < n
    ensures Reaches(mayFail, Init(n), s) && WellFormed(s) && |s.nodes| == n && NobodyLeads(s)
    ensures s.nodes[a].leader == None && s.nodes[b].leader == None && s.rounds[a] == s.rounds[b] == Idle
    ensures s.inflight[Call(Commit, a, b)] > 0
  {
    var o := Begin(mayFail, n);
    s := Extend(mayFail, o, o, Start(a, false));
    s := Sweep(mayFail, o, s, a, n);
    s := Extend(mayFail, o, s, EndPhase(a));
    s := Sweep(mayFail, o, s, a, b);
    s := Extend(mayFail, o, s, Abort(a, true));
    s := Extend(mayFail, o, s, UnsetLeader(a));
  }

  lemma AllSent(mayFail: set<Call>, n: nat, a: nat, b: nat) returns (s: Cluster)
    requires a < b < n
    ensures Reaches(mayFail, Init(n), s) && WellFormed(s) && |s.nodes| == n && NobodyLeads(s) && Armed(s, a, b)
    ensures s.nodes[a].leader == None && s.nodes[b].leader == None && s.rounds[a] == s.rounds[b] == Idle
  {
    var o := Init(n);
    s := CommitUnderWay(mayFail, n, a, b);
    s := SendLate(mayFail, o, s, b, n);
    s := SendLate(mayFail, o, s, b, n);
    s := SendLate(mayFail, o, s, a, n);
  }

  /** b stops behind a in its pre-set phase, and a takes all slots. */
  lemma LowerHoldsAll(mayFail: set<Call>, n: nat, a: nat, b: nat) returns (s: Cluster)
    requires a < b < n
    ensures Reaches(mayFail, Init(n), s) && WellFormed(s) && |s.nodes| == n && NobodyLeads(s) && Armed(s, a, b)
    ensures forall t | 0 <= t < n :: s.nodes[t].nextLeader == Some(a)
    ensures At(s, a, PreSet, n) && s.rounds[a].succeeded && At(s, b, PreSet, a + 1) && s.rounds[b].succeeded
  {
    var o := Init(n);
    s := AllSent(mayFail, n, a, b);
    s := TakeSlots(mayFail, o, s, b, a + 1);
    s := TakeSlots(mayFail, o, s, a, n);
  }

  /** a's late commit frees the slot of b. */
  lemma UpperFreed(mayFail: set<Call>, n: nat, a: nat, b: nat) returns (s: Cluster)
    requires a < b < n
    ensures Reaches(mayFail, Init(n), s) && WellFormed(s) && |s.nodes| == n && NobodyLeads(s)
    ensures forall t | 0 <= t < n :: s.nodes[t].nextLeader == if t == b then None else Some(a)
    ensures At(s, a, PreSet, n) && s.rounds[a].succeeded && At(s, b, PreSet, a + 1) && s.rounds[b].succeeded
    ensures forall t: nat | t < n && t != b :: s.inflight[Call(PreSet, b, t)] > 1
    ensures forall t: nat | t < n && t != a :: s.inflight[Call(PreSet, a, t)] > 0
  {
    var o := Init(n);
    s := LowerHoldsAll(mayFail, n, a, b);
    s := Extend(mayFail, o, s, LateCall(Call(Commit, a, b)));
  }

  /** b's late calls free the slots between a and b. */
  lemma BetweenFreed(mayFail: set<Call>, n: nat, a: nat, b: nat) returns (s: Cluster)
    requires a < b < n
    ensures Reaches(mayFail, Init(n), s) && WellFormed(s) && |s.nodes| == n && NobodyLeads(s)
    ensures forall t | 0 <= t < n :: s.nodes[t].nextLeader == if a < t <= b then None else Some(a)
    ensures At(s, a, PreSet, n) && s.rounds[a].succeeded && At(s, b, PreSet, a + 1) && s.rounds[b].succeeded
    ensures forall t: nat | t < n && !(a < t <= b) :: s.inflight[Call(PreSet, b, t)] > 1
    ensures forall t: nat | t < a :: s.inflight[Call(PreSet, a, t)] > 0
  {
    s := UpperFreed(mayFail, n, a, b);
    s := LateSweep(mayFail, Init(n), s, b, a + 1, b);
  }

  /** b's late calls free the other slots above a. */
  lemma SlotsFreed(mayFail: set<Call>, n: nat, a: nat, b: nat) returns (s: Cluster)
    requires a < b < n
    ensures Reaches(mayFail, Init(n), s) && WellFormed(s) && |s.nodes| == n && NobodyLeads(s)
    ensures forall t | 0 <= t < n :: s.nodes[t].nextLeader == if t <= a then Some(a) else None
    ensures At(s, a, PreSet, n) && s.rounds[a].succeeded && At(s, b, PreSet, a + 1) && s.rounds[b].succeeded
    ensures forall t: nat | t < a :: s.inflight[Call(PreSet, b, t)] > 1 && s.inflight[Call(PreSet, a, t)] > 0
  {
    s := BetweenFreed(mayFail, n, a, b);
    s := LateSweep(mayFail, Init(n), s, b, b + 1, n);
  }

  /** b finishes its pre-set phase. */
  lemma UpperHoldsRest(mayFail: set<Call>, n: nat, a: nat, b: nat) returns (s: Cluster)
    requires a < b < n
    ensures Reaches(mayFail, Init(n), s) && WellFormed(s) && |s.nodes| == n && NobodyLeads(s)
    ensures forall t | 0 <= t <= a :: s.nodes[t].nextLeader == Some(a)
    ensures forall t | a < t < n :: s.nodes[t].nextLeader == Some(b)
    ensures At(s, a, PreSet, n) && s.rounds[a].succeeded && At(s, b, PreSet, n) && s.rounds[b].succeeded
    ensures forall t: nat | t < a :: s.inflight[Call(PreSet, b, t)] > 1 && s.inflight[Call(PreSet, a, t)] > 0
  {
    var o := Init(n);
    s := SlotsFreed(mayFail, n, a, b);
    s := Sweep(mayFail, o, s, b, n);
  }

  /** b's late calls win the slots below a: the first clears a slot, the second takes it. */
  lemma UpperHoldsAll(mayFail: set<Call>, n: nat, a: nat, b: nat) returns (s: Cluster)
    requires a < b < n
    ensures Reaches(mayFail, Init(n), s) && WellFormed(s) && |s.nodes| == n && NobodyLeads(s)
    ensures forall t | 0 <= t < n :: s.nodes[t].nextLeader == if t == a then Some(a) else Some(b)
    ensures At(s, a, PreSet, n) && s.rounds[a].succeeded && At(s, b, PreSet, n) && s.rounds[b].succeeded
    ensures forall t: nat | t < a :: s.inflight[Call(PreSet, a, t)] > 0
  {
    var o := Init(n);
    s := UpperHoldsRest(mayFail, n, a, b);
    s := LateSweep(mayFail, o, s, b, 0, a);
    s := LateSweep(mayFail, o, s, b, 0, a);
  }

  /** b is elected past a. */
  lemma UpperLeads(mayFail: set<Call>, n: nat, a: nat, b: nat) returns (s: Cluster)
    requires a < b < n && Call(Commit, b, a) in mayFail
    ensures Reaches(mayFail, Init(n), s) && WellFormed(s) && |s.nodes| == n && Leads(s, b)
    ensures AllAre(s, 0, a, Node(None, Some(b))) && s.nodes[a].nextLeader == Some(a)
    ensures At(s, a, PreSet, n) && s.rounds[a].succeeded
    ensures forall t: nat | t < a :: s.inflight[Call(PreSet, a, t)] > 0
  {
    var o := Init(n);
    s := UpperHoldsAll(mayFail, n, a, b);
    s := Extend(mayFail, o, s, EndPhase(b));
    s := Sweep(mayFail, o, s, b, a);
    s := Extend(mayFail, o, s, ConnectFail(b));
    s := Sweep(mayFail, o, s, b, b + 1);
  }

  /** If the higher server's commit can fail to connect, both servers can lead.  All late calls of the
      run have been sent before. */
  lemma LostCommitSplitsBrain(mayFail: set<Call>, n: nat, a: nat, b: nat) returns (s: Cluster)
    requires a < b < n && Call(Commit, b, a) in mayFail
    ensures Reaches(mayFail, Init(n), s) && Leads(s, a) && Leads(s, b)
  {
    var o := Init(n);
    s := UpperLeads(mayFail, n, a, b);
    s := LateSweep(mayFail, o, s, a, 0, a);
    s := Extend(mayFail, o, s, EndPhase(a));
    s := Sweep(mayFail, o, s, a, a + 1);
  }

  /** Exactly when the pair is safe: in every cluster and for every set of calls that may fail. */
  lemma MutualExclusionExactly(mayFail: set<Call>, n: nat, a: nat, b: nat)
    requires a < b < n
    ensures PairConnected(mayFail, a, b) <==>
            !exists s :: Reaches(mayFail, Init(n), s) && Leads(s, a) && Leads(s, b)
  {
    if PairConnected(mayFail, a, b) {
      forall s | Reaches(mayFail, Init(n), s) ensures !(Leads(s, a) && Leads(s, b)) {
        assert Unfold(0);
        var steps :| ValidRun(mayFail, Init(n), steps) && Run(mayFail, Init(n), steps) == s;
        MutualExclusion(mayFail, n, steps, a, b);
      }
    } else if Call(PreSet, a, b) in mayFail {
      var s := LostPreSetSplitsBrain(mayFail, n, a, b);
    } else {
      var s := LostCommitSplitsBrain(mayFail, n, a, b);
    }
  }

  /* ---------------------------------------------------------------- the server objects */

  /** One server process: its slot, its leader pointer and the per-server is_leader hints. */
  class Server {
    const self: nat
    var nextLeader: Option<nat>
    var leader: Option<nat>
    var hints: set<nat>

    ghost function State(): Node
      reads this
    {
      Node(nextLeader, leader)
    }

    /** The hints name exactly the current leader. */
    ghost predicate Valid()
      reads this
    {
      hints == match leader case None => {} case Some(l) => {l}
    }

    constructor (self: nat)
      ensures Valid() && this.self == self && State() == Node(None, None)
    {
      this.self := self;
      nextLeader, leader, hints := None, None, {};
    }

    method PreSetNext(c: nat) returns (ok: bool)
      requires Valid()
      modifies this
      ensures Valid() && Reply(State(), ok) == PreSetLeader(old(State()), c)
      ensures ok <==> old(nextLeader) == None || old(nextLeader) == Some(c)
      ensures nextLeader == (if ok then Some(c) else None) && leader == old(leader)
    {
      if nextLeader == None {
        nextLeader := Some(c);
      } else if nextLeader != Some(c) {
        nextLeader := None;
        return false;
      }
      return true;
    }

    method Unset()
      requires Valid()
      modifies this
      ensures Valid() && State() == old(State()).(leader := None)
    {
      var oldLeader := leader;
      if oldLeader != None {
        hints := hints - {oldLeader.value};
        leader := None;
      }
    }

    method SetLeader(c: nat)
      requires Valid()
      modifies this
      ensures Valid() && State() == old(State()).(leader := Some(c))
    {
      var oldLeader := leader;
      hints := hints + {c};
      if c != self {
        hints := hints - {self};
      }
      if oldLeader != Some(c) {
        leader := Some(c);
        hints := hints * {c};
      }
    }

    method CommitNext(c: nat) returns (ok: bool)
      requires Valid()
      modifies this
      ensures Valid() && Reply(State(), ok) == CommitLeader(old(State()), c)
      ensures ok <==> old(nextLeader) == Some(c)
      ensures nextLeader == None && leader == if ok then Some(c) else old(leader)
    {
      if nextLeader == None {
        return false;
      }
      if nextLeader != Some(c) {
        nextLeader := None;
        return false;
      }
      SetLeader(c);
      nextLeader := None;
      return true;
    }

    /** The request handler of both commands: a server that leads gives up its leadership, and after a call
        from another server it never leads. */
    method Handle(phase: Phase, c: nat) returns (ok: bool)
      requires Valid()
      modifies this
      ensures Valid() && Reply(State(), ok) == DealNextLeader(old(State()), self, phase, c)
      ensures old(leader) == Some(self) ==> !ok && leader == None && nextLeader == old(nextLeader)
      ensures c != self ==> leader != Some(self)
      ensures !ok && old(leader) != Some(self) ==> nextLeader == None
    {
      if leader == Some(self) {
        Unset();
        return false;
      }
      if phase == PreSet {
        ok := PreSetNext(c);
      } else {
        ok := CommitNext(c);
      }
    }
  }

  ghost function Nodes(servers: seq<Server>): (nodes: seq<Node>)
    reads servers
    ensures |nodes| == |servers|
  {
    seq(|servers|, i requires 0 <= i < |servers| reads servers => servers[i].State())
  }

  /** The server array: sorted by id, every object in order. */
  ghost predicate Lined(servers: seq<Server>)
    reads servers
  {
    forall i | 0 <= i < |servers| :: servers[i].self == i && servers[i].Valid()
  }

  /** The calls of candidate c that do not connect. */
  ghost function Failing(n: nat, c: nat, connects: (Phase, nat) -> bool): set<Call> {
    set p: Phase, t: nat | p in {PreSet, Commit} && 0 <= t < n && !connects(p, t) :: Call(p, c, t)
  }

  ghost function Solo(n: nat, c: nat, round: Round): seq<Round>
    requires c < n
  {
    seq(n, i => if i == c then round else Idle)
  }

  /** One call of candidate c to the server at index t: local for itself, remote for the others. */
  method CallServer(servers: seq<Server>, c: nat, t: nat, phase: Phase) returns (ok: bool)
    requires c < |servers| && t < |servers| && Lined(servers)
    modifies servers[t]
    ensures Lined(servers)
    ensures var reply := Deliver(old(Nodes(servers))[t], t, phase, c);
            ok == reply.ok && Nodes(servers) == old(Nodes(servers))[t := reply.node]
  {
    if t != c {
      ok := servers[t].Handle(phase, c);
    } else if phase == PreSet {
      ok := servers[t].PreSetNext(c);
    } else {
      ok := servers[t].CommitNext(c);
    }
    assert forall i | 0 <= i < |servers| && i != t :: servers[i] != servers[t];
  }

  ghost predicate AllAccept(nodes: seq<Node>, phase: Phase, c: nat) {
    forall t | 0 <= t < |nodes| :: Accepts(nodes[t], t, phase, c)
  }

  /** The first t servers have accepted c, the others are untouched. */
  ghost predicate AcceptedUpTo(nodes: seq<Node>, now: seq<Node>, t: nat, phase: Phase, c: nat) {
    |now| == |nodes| && t <= |nodes| &&
    (forall i | 0 <= i < t :: now[i] == Accepted(nodes[i], phase, c)) &&
    (forall i | t <= i < |nodes| :: now[i] == nodes[i])
  }

  /** The state of a candidate that runs alone and is about to call server t. */
  ghost function Alone(nodes: seq<Node>, c: nat, round: Round): Cluster
    requires c < |nodes|
  {
    Cluster(nodes, Solo(|nodes|, c, round), multiset{})
  }

  /** Candidate c, running alone, has got to this round. */
  ghost predicate Stands(mayFail: set<Call>, origin: Cluster, nodes: seq<Node>, c: nat, round: Round) {
    forall k {:trigger Unfold(k)} :: Unfold(k) ==> c < |nodes| && Reaches(mayFail, origin, Alone(nodes, c, round))
  }

  lemma StandsExtend(mayFail: set<Call>, origin: Cluster, nodes: seq<Node>, c: nat, round: Round, step: Step,
                     nodes': seq<Node>, round': Round)
    requires c < |nodes| == |nodes'| && Stands(mayFail, origin, nodes, c, round)
    requires Enabled(mayFail, Alone(nodes, c, round), step)
    requires var r := Apply(mayFail, Alone(nodes, c, round), step);
             r.nodes == nodes' && r.inflight == multiset{} && r.rounds == Solo(|nodes|, c, round')
    ensures Stands(mayFail, origin, nodes', c, round')
  {
    assert Unfold(0);
    var r := Extend(mayFail, origin, Alone(nodes, c, round), step);
  }

  lemma AloneConnectFail(mayFail: set<Call>, origin: Cluster, nodes: seq<Node>, c: nat, round: Round)
    requires c < |nodes| && round.Active? && round.next < |nodes| && round.next != c
    requires Call(round.phase, c, round.next) in mayFail && Stands(mayFail, origin, nodes, c, round)
    ensures Stands(mayFail, origin, nodes, c, round.(next := round.next + 1, connectFail := true))
  {
    var s, round' := Alone(nodes, c, round), round.(next := round.next + 1, connectFail := true);
    assert s.rounds[c] == round;
    assert s.rounds[c := round'] == Solo(|nodes|, c, round');
    StandsExtend(mayFail, origin, nodes, c, round, ConnectFail(c), nodes, round');
  }

  ghost function AfterReply(round: Round, c: nat, ok: bool): Round
    requires round.Active?
  {
    var fail := round.next == c && round.connectFail;
    if ok then round.(next := round.next + 1, succeeded := true, connectFail := fail)
    else if fail then round.(next := round.next + 1) else Idle
  }

  lemma AloneCallNext(mayFail: set<Call>, origin: Cluster, nodes: seq<Node>, c: nat, round: Round)
    requires c < |nodes| && round.Active? && round.next < |nodes| && Stands(mayFail, origin, nodes, c, round)
    ensures var reply := Deliver(nodes[round.next], round.next, round.phase, c);
            Stands(mayFail, origin, nodes[round.next := reply.node], c, AfterReply(round, c, reply.ok))
  {
    var s, reply := Alone(nodes, c, round), Deliver(nodes[round.next], round.next, round.phase, c);
    var round' := AfterReply(round, c, reply.ok);
    assert s.rounds[c] == round;
    assert s.rounds[c := round'] == Solo(|nodes|, c, round');
    StandsExtend(mayFail, origin, nodes, c, round, CallNext(c), nodes[round.next := reply.node], round');
  }

  /** A step of the candidate that touches no node: the start or the end of a phase. */
  lemma AloneStep(mayFail: set<Call>, origin: Cluster, nodes: seq<Node>, c: nat, round: Round, step: Step, after: Round)
    requires c < |nodes| && Stands(mayFail, origin, nodes, c, round)
    requires (step.Start? && round == Idle && nodes[c].leader == None &&
              after == Active(PreSet, 0, false, step.stale)) ||
             (step.EndPhase? && round.Active? && round.next == |nodes| &&
              after == if round.phase == PreSet && round.succeeded
                       then Active(Commit, 0, false, round.connectFail) else Idle)
    requires step.c == c
    ensures Stands(mayFail, origin, nodes, c, after)
  {
    var s := Alone(nodes, c, round);
    assert s.rounds[c] == round;
    assert s.rounds[c := after] == Solo(|nodes|, c, after);
    StandsExtend(mayFail, origin, nodes, c, round, step, nodes, after);
  }

  /** The outcome of one iteration of a candidate's loop. */
  datatype Sent = Sent(nodes: seq<Node>, stopped: bool, succeeded: bool, connectFail: bool)

  /** One iteration: connect and call server t, or skip it. */
  ghost function SendTo(nodes: seq<Node>, c: nat, phase: Phase, t: nat, connects: bool, succeeded: bool,
                        connectFail: bool): Sent
    requires t < |nodes|
  {
    if t != c && !connects then Sent(nodes, false, succeeded, true)
    else
      var reply := Deliver(nodes[t], t, phase, c);
      var fail := t == c && connectFail;
      Sent(nodes[t := reply.node], !reply.ok && !fail, succeeded || reply.ok, fail)
  }

  lemma AloneAtFirst(mayFail: set<Call>, nodes: seq<Node>, c: nat)
    requires c < |nodes|
    ensures Stands(mayFail, Alone(nodes, c, Idle), nodes, c, Idle)
  {
    var s := Alone(nodes, c, Idle);
    assert ValidRun(mayFail, s, []) && Run(mayFail, s, []) == s;
  }

  /** An iteration is one step of the protocol. */
  lemma SendToReaches(origin: Cluster, nodes: seq<Node>, c: nat, phase: Phase, t: nat,
                      connects: (Phase, nat) -> bool, succeeded: bool, connectFail: bool)
    requires c < |nodes| && t < |nodes|
    requires Stands(Failing(|nodes|, c, connects), origin, nodes, c, Active(phase, t, succeeded, connectFail))
    ensures var r := SendTo(nodes, c, phase, t, connects(phase, t), succeeded, connectFail);
            Stands(Failing(|nodes|, c, connects), origin, r.nodes, c,
                   if r.stopped then Idle else Active(phase, t + 1, r.succeeded, r.connectFail))
  {
    var mayFail, round := Failing(|nodes|, c, connects), Active(phase, t, succeeded, connectFail);
    if t != c && !connects(phase, t) {
      AloneConnectFail(mayFail, origin, nodes, c, round);
    } else {
      AloneCallNext(mayFail, origin, nodes, c, round);
      ReplyIsSent(nodes, c, round, connects(phase, t));
    }
  }

  lemma ReplyIsSent(nodes: seq<Node>, c: nat, round: Round, connects: bool)
    requires round.Active? && round.next < |nodes| && (round.next == c || connects)
    ensures var reply := Deliver(nodes[round.next], round.next, round.phase, c);
            var r := SendTo(nodes, c, round.phase, round.next, connects, round.succeeded, round.connectFail);
            r.nodes == nodes[round.next := reply.node] &&
            AfterReply(round, c, reply.ok) ==
            if r.stopped then Idle else Active(round.phase, round.next + 1, r.succeeded, r.connectFail)
  {
  }

  /** One iteration of the loops, on the server objects. */
  method SendOne(servers: seq<Server>, c: nat, phase: Phase, t: nat, connects: bool, succeeded0: bool,
                 connectFail0: bool)
    returns (stopped: bool, succeeded: bool, connectFail: bool)
    requires c < |servers| && t < |servers| && Lined(servers)
    modifies servers
    ensures Lined(servers)
    ensures Sent(Nodes(servers), stopped, succeeded, connectFail) ==
            SendTo(old(Nodes(servers)), c, phase, t, connects, succeeded0, connectFail0)
  {
    stopped, succeeded, connectFail := false, succeeded0, connectFail0;
    if t != c && !connects {
      connectFail := true;
    } else {
      var ok := CallServer(servers, c, t, phase);
      if t != c {
        connectFail := false;
      }
      if ok {
        succeeded := true;
      } else if !connectFail {
        stopped := true;
      }
    }
  }

  /** If every call connects and every server accepts, the first t servers have accepted. */
  ghost predicate Welcomed(nodes: seq<Node>, now: seq<Node>, c: nat, phase: Phase, t: nat,
                           connects: (Phase, nat) -> bool, stopped: bool, succeeded: bool) {
    forall k {:trigger Unfold(k)} :: Unfold(k) ==>
      ((forall p, i :: connects(p, i)) && AllAccept(nodes, phase, c) ==>
         !stopped && (t > 0 ==> succeeded) && AcceptedUpTo(nodes, now, t, phase, c))
  }

  lemma WelcomedStep(nodes: seq<Node>, now: seq<Node>, c: nat, phase: Phase, t: nat, connects: (Phase, nat) -> bool,
                     succeeded: bool, connectFail: bool)
    requires t < |nodes| == |now| && Welcomed(nodes, now, c, phase, t, connects, false, succeeded)
    ensures var r := SendTo(now, c, phase, t, connects(phase, t), succeeded, connectFail);
            Welcomed(nodes, r.nodes, c, phase, t + 1, connects, r.stopped, r.succeeded)
  {
    assert Unfold(0);
    assert AllAccept(nodes, phase, c) ==> Accepts(nodes[t], t, phase, c);
  }

  /** One of the two loops of a candidate, run without interference, takes exactly the steps of the
      protocol; `stopped` says that it returned early. */
  method SendPhase(servers: seq<Server>, c: nat, phase: Phase, connects: (Phase, nat) -> bool, stale: bool,
                   ghost origin: Cluster)
    returns (stopped: bool, succeeded: bool, connectFail: bool)
    requires c < |servers| && Lined(servers)
    requires Stands(Failing(|servers|, c, connects), origin, Nodes(servers), c, Active(phase, 0, false, stale))
    modifies servers
    ensures Lined(servers)
    ensures var round := if stopped then Idle else Active(phase, |servers|, succeeded, connectFail);
            Stands(Failing(|servers|, c, connects), origin, Nodes(servers), c, round)
    ensures Welcomed(old(Nodes(servers)), Nodes(servers), c, phase, |servers|, connects, stopped, succeeded)
  {
    stopped, succeeded, connectFail := false, false, stale;
    ghost var nodes := Nodes(servers);
    var t := 0;
    while t < |servers|
      invariant 0 <= t <= |servers| && Lined(servers)
      invariant Stands(Failing(|servers|, c, connects), origin, Nodes(servers), c,
                       Active(phase, t, succeeded, connectFail))
      invariant Welcomed(nodes, Nodes(servers), c, phase, t, connects, false, succeeded)
    {
      SendToReaches(origin, Nodes(servers), c, phase, t, connects, succeeded, connectFail);
      WelcomedStep(nodes, Nodes(servers), c, phase, t, connects, succeeded, connectFail);
      stopped, succeeded, connectFail := SendOne(servers, c, phase, t, connects(phase, t), succeeded, connectFail);
      t := t + 1;
      if stopped {
        WelcomedStopped(nodes, Nodes(servers), c, phase, t, |servers|, connects, succeeded);
        return;
      }
    }
  }

  lemma WelcomedStopped(nodes: seq<Node>, now: seq<Node>, c: nat, phase: Phase, t: nat, n: nat,
                        connects: (Phase, nat) -> bool, succeeded: bool)
    requires Welcomed(nodes, now, c, phase, t, connects, true, succeeded)
    ensures Welcomed(nodes, now, c, phase, n, connects, true, succeeded)
  {
    assert Unfold(0);
  }

  /** A whole undisturbed round refines the protocol steps, and on a quiet, fully connected cluster
      it makes every server follow the candidate. */
  method NotifyLeaderChanged(servers: seq<Server>, c: nat, connects: (Phase, nat) -> bool, stale: bool)
    returns (ok: bool)
    requires c < |servers| && Lined(servers) && Nodes(servers)[c].leader == None
    modifies servers
    ensures Lined(servers)
    ensures Stands(Failing(|servers|, c, connects), Alone(old(Nodes(servers)), c, Idle), Nodes(servers), c, Idle)
    ensures (forall p, t :: connects(p, t)) &&
            (forall t | 0 <= t < |servers| :: old(Nodes(servers))[t] == Node(None, None)) ==>
            ok && forall t | 0 <= t < |servers| :: Nodes(servers)[t] == Node(None, Some(c))
  {
    var n := |servers|;
    ghost var mayFail := Failing(n, c, connects);
    ghost var origin := Alone(Nodes(servers), c, Idle);
    AloneAtFirst(mayFail, Nodes(servers), c);
    AloneStep(mayFail, origin, Nodes(servers), c, Idle, Start(c, stale), Active(PreSet, 0, false, stale));
    var stopped, succeeded, connectFail := SendPhase(servers, c, PreSet, connects, stale, origin);
    if stopped {
      assert Unfold(0);
      return false;
    }
    AloneStep(mayFail, origin, Nodes(servers), c, Active(PreSet, n, succeeded, connectFail), EndPhase(c),
              if succeeded then Active(Commit, 0, false, connectFail) else Idle);
    if !succeeded {
      assert Unfold(0);
      return false;
    }
    stopped, succeeded, connectFail := SendPhase(servers, c, Commit, connects, connectFail, origin);
    if stopped {
      assert Unfold(0);
      return false;
    }
    AloneStep(mayFail, origin, Nodes(servers), c, Active(Commit, n, succeeded, connectFail), EndPhase(c), Idle);
    ok := succeeded;
    assert Unfold(0);
  }
}
