/**
 How the leader pushes data server changes to one peer.  The peer's context has one event per data
 server with an in_queue flag, a queue of events, and the connection's task.  Notifiers (any number
 of threads that have changed a data server) test the peer's status, the task and the flag and then
 push; the consumer pops the queue, and for each event releases the flag before it reads the state.
 The consumer, join, activation and disconnect run in the connection's own thread; everything else
 interleaves freely, one atomic instruction at a time.
 */
module TopologyPush {
  import opened Common

  /** The fields of a data server, in the order in which they are read: master flag, status, version. */
  const FIELDS: nat := 3

  type Info = seq<int>

  /** The consumer's work: events popped and not yet released, the event being read with the fields
      read so far, and the packet body built so far. */
  datatype Consumer = Idle | Busy(batch: seq<nat>, current: Option<Reading>, out: map<nat, Info>)

  datatype Reading = Reading(ds: nat, fields: Info)

  datatype Session = Gone | Joining | Joined

  /** `start`, `active`, `tasked` and `pushing` are the notifiers before the status test, the task test,
      the flag swap and the queue push, by data server.  `own` are the data servers of the peer itself;
      `reported` those of them the peer has reported on since the event was last raised. */
  datatype World = World(
    values: seq<Info>, own: set<nat>, reported: set<nat>,
    online: bool, task: bool, session: Session, synced: set<nat>,
    flags: seq<bool>, queue: seq<nat>,
    start: multiset<nat>, active: multiset<nat>, tasked: multiset<nat>, pushing: multiset<nat>,
    consumer: Consumer, sent: seq<Info>)

  function Init(values: seq<Info>, own: set<nat>): World {
    World(values, own, {}, false, false, Gone, {}, seq(|values|, _ => false), [],
          multiset{}, multiset{}, multiset{}, multiset{}, Idle, seq(|values|, _ => []))
  }

  datatype Step =
    | Begin(ds: nat)                           // a thread is about to change a data server and notify
    | Change(ds: nat, field: nat, value: int)  // it changes a field
    | SelfReport(ds: nat, field: nat, value: int)
    | TestStatus(ds: nat)
    | TestTask(ds: nat)
    | TestFlag(ds: nat)
    | PushEvent(ds: nat)
    | Join
    | ResetStatus
    | Sync(ds: nat)
    | JoinDone
    | Activate
    | Deactivate
    | Disconnect
    | Pop
    | ReleaseNext
    | ReadField
    | Send

  ghost predicate WellFormed(w: World) {
    |w.flags| == |w.values| == |w.sent| && forall d | 0 <= d < |w.values| :: |w.values[d]| == FIELDS
  }

  ghost predicate Enabled(w: World, step: Step) {
    match step
    case Begin(d) => d < |w.values|
    case Change(d, f, _) => d < |w.values| && f < FIELDS && w.start[d] > 0
    case SelfReport(d, f, _) => d < |w.values| && f < FIELDS && d in w.own
    case TestStatus(d) => w.start[d] > 0
    case TestTask(d) => w.active[d] > 0
    case TestFlag(d) => d < |w.flags| && w.tasked[d] > 0
    case PushEvent(d) => w.pushing[d] > 0
    case Join => !w.task && w.session == Gone && w.consumer == Idle
    case ResetStatus => w.session == Joining
    case Sync(d) => d < |w.flags| && w.session == Joining && !w.online
    case JoinDone => w.session == Joining && !w.online && forall d | 0 <= d < |w.values| :: d in w.synced
    case Activate => w.session == Joined && w.consumer == Idle
    case Deactivate => w.consumer == Idle
    case Disconnect => w.session == Gone
    case Pop => w.task && w.session == Joined && w.online && w.consumer == Idle && w.queue != []
    case ReleaseNext => w.consumer.Busy? && w.consumer.current == None && w.consumer.batch != [] &&
                        w.consumer.batch[0] < |w.flags|
    case ReadField =>
      w.consumer.Busy? && w.consumer.current.Some? && w.consumer.current.value.ds < |w.values| &&
      |w.consumer.current.value.fields| < FIELDS
    case Send => w.consumer.Busy? && w.consumer.current == None && w.consumer.out != map[]
  }

  function SetField(values: seq<Info>, d: nat, f: nat, value: int): seq<Info>
    requires d < |values| && f < |values[d]|
  {
    values[d := values[d][f := value]]
  }

  function Overlay(sent: seq<Info>, out: map<nat, Info>): (r: seq<Info>)
    ensures |r| == |sent|
  {
    seq(|sent|, d requires 0 <= d < |sent| => if d in out then out[d] else sent[d])
  }

  ghost function Next(w: World, step: Step): World
    requires WellFormed(w) && Enabled(w, step)
  {
    match step
    case Begin(d) => w.(start := w.start + multiset{d})
    case Change(d, f, v) => w.(values := SetField(w.values, d, f, v))
    case SelfReport(d, f, v) => w.(values := SetField(w.values, d, f, v), reported := w.reported + {d})
    case TestStatus(d) =>
      var left := w.(start := w.start - multiset{d});
      if w.online then left.(active := w.active + multiset{d}) else left
    case TestTask(d) =>
      var left := w.(active := w.active - multiset{d});
      if w.task then left.(tasked := w.tasked + multiset{d}) else left
    case TestFlag(d) =>
      var left := w.(tasked := w.tasked - multiset{d}, reported := w.reported - {d});
      if w.flags[d] then left else left.(flags := w.flags[d := true], pushing := w.pushing + multiset{d})
    case PushEvent(d) => w.(pushing := w.pushing - multiset{d}, queue := w.queue + [d])
    case Join => w.(task := true, session := Joining, synced := {})
    case ResetStatus => w.(online := false)
    case Sync(d) =>
      var done := w.(synced := w.synced + {d}, reported := w.reported - {d});
      if w.flags[d] then done else done.(flags := w.flags[d := true], queue := w.queue + [d])
    case JoinDone => w.(session := Joined)
    case Activate => w.(online := true)
    case Deactivate => w.(online := false, session := Gone, synced := {})
    case Disconnect => w.(task := false)
    case Pop => w.(queue := [], consumer := Busy(w.queue, None, map[]))
    case ReleaseNext =>
      var d := w.consumer.batch[0];
      w.(flags := w.flags[d := false],
         consumer := w.consumer.(batch := w.consumer.batch[1..], current := Some(Reading(d, []))))
    case ReadField =>
      var r := w.consumer.current.value;
      var fields := r.fields + [w.values[r.ds][|r.fields|]];
      if |fields| < FIELDS then w.(consumer := w.consumer.(current := Some(Reading(r.ds, fields))))
      else w.(consumer := w.consumer.(current := None, out := w.consumer.out[r.ds := fields]))
    case Send =>
      w.(queue := w.consumer.batch + w.queue, consumer := Idle, sent := Overlay(w.sent, w.consumer.out))
  }

  /* ---------------------------------------------------------------- the invariant */

  function BatchOf(c: Consumer): seq<nat> { if c.Busy? then c.batch else [] }

  /** An event is raised in exactly one place when its flag is set, and nowhere otherwise. */
  ghost predicate FlagOk(w: World, d: nat)
    requires d < |w.flags|
  {
    multiset(w.queue)[d] + multiset(BatchOf(w.consumer))[d] + w.pushing[d] == if w.flags[d] then 1 else 0
  }

  /** A notifier for the data server has not yet tested the flag. */
  predicate Notifying(w: World, d: nat) {
    w.start[d] > 0 || w.active[d] > 0 || w.tasked[d] > 0
  }

  /** The consumer will send the current value of the field: it is still to be read, or has been read. */
  ghost predicate Carries(w: World, d: nat, f: nat)
    requires d < |w.values| && f < |w.values[d]|
  {
    w.consumer.Busy? &&
    ((w.consumer.current.Some? && w.consumer.current.value.ds == d &&
      (f < |w.consumer.current.value.fields| ==> w.consumer.current.value.fields[f] == w.values[d][f])) ||
     (!(w.consumer.current.Some? && w.consumer.current.value.ds == d) && d in w.consumer.out &&
      f < |w.consumer.out[d]| && w.consumer.out[d][f] == w.values[d][f]))
  }

  /** The peer has the value, and the consumer is not about to send another one. */
  ghost predicate Delivered(w: World, d: nat, f: nat)
    requires d < |w.values| && f < |w.values[d]| && d < |w.sent|
  {
    f < |w.sent[d]| && w.sent[d][f] == w.values[d][f] &&
    (w.consumer.Busy? ==> d !in w.consumer.out && !(w.consumer.current.Some? && w.consumer.current.value.ds == d))
  }

  /** No update is lost. */
  ghost predicate Safe(w: World, d: nat, f: nat)
    requires WellFormed(w) && d < |w.values| && f < FIELDS
  {
    w.session != Gone && d in w.synced && d !in w.reported ==>
      w.flags[d] || Notifying(w, d) || Carries(w, d, f) || Delivered(w, d, f)
  }

  /** A joined peer that is not yet active keeps every event that was synced. */
  ghost predicate Held(w: World, d: nat)
    requires WellFormed(w) && d < |w.values|
  {
    w.session != Gone && !w.online && d in w.synced ==> w.flags[d]
  }

  ghost predicate SessionOk(w: World) {
    (w.session != Gone ==> w.task) && (w.session == Joining && w.online ==> w.synced == {}) &&
    (w.consumer.Busy? ==>
       w.session == Joined && w.online &&
       (w.consumer.current.Some? ==>
          w.consumer.current.value.ds < |w.values| && |w.consumer.current.value.fields| < FIELDS) &&
       forall d | d in w.consumer.out :: d < |w.values| && |w.consumer.out[d]| == FIELDS)
  }

  predicate Mentions(w: World, d: nat) {
    d in w.start || d in w.active || d in w.tasked || d in w.pushing || d in w.queue || d in BatchOf(w.consumer)
  }

  ghost predicate InRange(w: World) {
    forall d: nat | Mentions(w, d) :: d < |w.values|
  }

  ghost predicate Inv(w: World) {
    WellFormed(w) && SessionOk(w) && InRange(w) &&
    (forall d | 0 <= d < |w.values| :: FlagOk(w, d)) &&
    (forall d | 0 <= d < |w.values| :: Held(w, d)) &&
    (forall d, f | 0 <= d < |w.values| && 0 <= f < FIELDS :: Safe(w, d, f))
  }

  predicate ByNotifier(step: Step) {
    step.Begin? || step.Change? || step.SelfReport? || step.TestStatus? || step.TestTask? || step.TestFlag? ||
    step.PushEvent?
  }

  predicate ByConsumer(step: Step) {
    step.Pop? || step.ReleaseNext? || step.ReadField? || step.Send?
  }

  lemma ReleaseKeepsFlag(w: World, d: nat)
    requires WellFormed(w) && d < |w.values| && FlagOk(w, d) && Enabled(w, ReleaseNext)
    ensures |Next(w, ReleaseNext).flags| == |w.flags| && FlagOk(Next(w, ReleaseNext), d)
  {
    assert w.consumer.batch == [w.consumer.batch[0]] + w.consumer.batch[1..];
  }

  lemma SendKeepsFlag(w: World, d: nat)
    requires WellFormed(w) && d < |w.values| && FlagOk(w, d) && Enabled(w, Send)
    ensures |Next(w, Send).flags| == |w.flags| && FlagOk(Next(w, Send), d)
  {
    assert multiset(w.consumer.batch + w.queue) == multiset(w.consumer.batch) + multiset(w.queue);
  }

  lemma ConsumerKeepsFlag(w: World, step: Step, d: nat)
    requires WellFormed(w) && d < |w.values| && FlagOk(w, d) && Enabled(w, step) && ByConsumer(step)
    ensures |Next(w, step).flags| == |w.flags| && FlagOk(Next(w, step), d)
  {
    match step
    case Pop =>
    case ReleaseNext => ReleaseKeepsFlag(w, d);
    case ReadField =>
    case Send => SendKeepsFlag(w, d);
  }

  lemma TestFlagKeepsFlag(w: World, x: nat, d: nat)
    requires WellFormed(w) && d < |w.values| && FlagOk(w, d) && Enabled(w, TestFlag(x))
    ensures |Next(w, TestFlag(x)).flags| == |w.flags| && FlagOk(Next(w, TestFlag(x)), d)
  {
    var w' := Next(w, TestFlag(x));
    assert w'.queue == w.queue && w'.consumer == w.consumer;
    if !w.flags[x] {
      assert w'.pushing[d] == w.pushing[d] + if d == x then 1 else 0;
    }
  }

  lemma PushKeepsFlag(w: World, x: nat, d: nat)
    requires WellFormed(w) && d < |w.values| && FlagOk(w, d) && Enabled(w, PushEvent(x))
    ensures |Next(w, PushEvent(x)).flags| == |w.flags| && FlagOk(Next(w, PushEvent(x)), d)
  {
    assert multiset(w.queue + [x]) == multiset(w.queue) + multiset{x};
  }

  lemma SyncKeepsFlag(w: World, x: nat, d: nat)
    requires WellFormed(w) && d < |w.values| && FlagOk(w, d) && Enabled(w, Sync(x))
    ensures |Next(w, Sync(x)).flags| == |w.flags| && FlagOk(Next(w, Sync(x)), d)
  {
    assert multiset(w.queue + [x]) == multiset(w.queue) + multiset{x};
  }

  lemma OthersKeepFlag(w: World, step: Step, d: nat)
    requires WellFormed(w) && d < |w.values| && FlagOk(w, d) && Enabled(w, step) && !ByConsumer(step)
    ensures |Next(w, step).flags| == |w.flags| && FlagOk(Next(w, step), d)
  {
    if step.TestFlag? {
      TestFlagKeepsFlag(w, step.ds, d);
    } else if step.PushEvent? {
      PushKeepsFlag(w, step.ds, d);
    } else if step.Sync? {
      SyncKeepsFlag(w, step.ds, d);
    } else {
      var w' := Next(w, step);
      assert w'.flags == w.flags && w'.queue == w.queue && w'.pushing == w.pushing && w'.consumer == w.consumer;
    }
  }

  lemma ConsumerKeepsSession(w: World, step: Step)
    requires WellFormed(w) && SessionOk(w) && Enabled(w, step) && ByConsumer(step)
    ensures WellFormed(Next(w, step)) && SessionOk(Next(w, step)) && |Next(w, step).values| == |w.values|
  {
  }

  lemma NotifierKeepsSession(w: World, step: Step)
    requires WellFormed(w) && SessionOk(w) && Enabled(w, step) && ByNotifier(step)
    ensures WellFormed(Next(w, step)) && SessionOk(Next(w, step)) && |Next(w, step).values| == |w.values|
  {
  }

  lemma OthersKeepSession(w: World, step: Step)
    requires WellFormed(w) && SessionOk(w) && Enabled(w, step) && !ByConsumer(step) && !ByNotifier(step)
    ensures WellFormed(Next(w, step)) && SessionOk(Next(w, step)) && |Next(w, step).values| == |w.values|
  {
  }

  lemma StepKeepsSession(w: World, step: Step)
    requires WellFormed(w) && SessionOk(w) && Enabled(w, step)
    ensures WellFormed(Next(w, step)) && SessionOk(Next(w, step)) && |Next(w, step).values| == |w.values|
  {
    if ByConsumer(step) {
      ConsumerKeepsSession(w, step);
    } else if ByNotifier(step) {
      NotifierKeepsSession(w, step);
    } else {
      OthersKeepSession(w, step);
    }
  }

  lemma NotifierKeepsRange(w: World, step: Step, d: nat)
    requires WellFormed(w) && InRange(w) && Enabled(w, step) && ByNotifier(step) && Mentions(Next(w, step), d)
    ensures d < |Next(w, step).values|
  {
    assert Mentions(w, d) || step == Begin(d);
  }

  lemma OthersKeepRange(w: World, step: Step, d: nat)
    requires WellFormed(w) && InRange(w) && Enabled(w, step) && !ByNotifier(step) && Mentions(Next(w, step), d)
    ensures d < |Next(w, step).values|
  {
    assert Mentions(w, d) || step == Sync(d);
  }

  lemma StepKeepsRange(w: World, step: Step)
    requires WellFormed(w) && InRange(w) && Enabled(w, step)
    ensures InRange(Next(w, step))
  {
    var w' := Next(w, step);
    forall d: nat | Mentions(w', d) ensures d < |w'.values| {
      if ByNotifier(step) { NotifierKeepsRange(w, step, d); } else { OthersKeepRange(w, step, d); }
    }
  }

  lemma StepKeepsHeld(w: World, step: Step, d: nat)
    requires WellFormed(w) && SessionOk(w) && d < |w.values| && Held(w, d) && Enabled(w, step)
    requires WellFormed(Next(w, step)) && |Next(w, step).values| == |w.values|
    ensures Held(Next(w, step), d)
  {
  }

  lemma ChangeKeepsSafe(w: World, step: Step, d: nat, f: nat)
    requires WellFormed(w) && SessionOk(w) && d < |w.values| && f < FIELDS && Safe(w, d, f)
    requires step.Begin? || step.Change? || step.SelfReport?
    requires Enabled(w, step) && WellFormed(Next(w, step)) && |Next(w, step).values| == |w.values|
    ensures Safe(Next(w, step), d, f)
  {
  }

  lemma RaiseKeepsSafe(w: World, step: Step, d: nat, f: nat)
    requires WellFormed(w) && SessionOk(w) && d < |w.values| && f < FIELDS && Safe(w, d, f)
    requires step.TestFlag? || step.PushEvent?
    requires Enabled(w, step) && WellFormed(Next(w, step)) && |Next(w, step).values| == |w.values|
    ensures Safe(Next(w, step), d, f)
  {
  }

  lemma NotifyKeepsSafe(w: World, step: Step, d: nat, f: nat)
    requires WellFormed(w) && SessionOk(w) && d < |w.values| && Held(w, d) && f < FIELDS && Safe(w, d, f)
    requires step.TestStatus? || step.TestTask?
    requires Enabled(w, step) && WellFormed(Next(w, step)) && |Next(w, step).values| == |w.values|
    ensures Safe(Next(w, step), d, f)
  {
  }

  lemma ConsumerKeepsSafe(w: World, step: Step, d: nat, f: nat)
    requires WellFormed(w) && SessionOk(w) && d < |w.values| && f < FIELDS && Safe(w, d, f)
    requires ByConsumer(step) && Enabled(w, step) && WellFormed(Next(w, step)) && |Next(w, step).values| == |w.values|
    ensures Safe(Next(w, step), d, f)
  {
  }

  lemma SessionKeepsSafe(w: World, step: Step, d: nat, f: nat)
    requires WellFormed(w) && SessionOk(w) && d < |w.values| && f < FIELDS && Safe(w, d, f)
    requires !ByNotifier(step) && !ByConsumer(step) && Enabled(w, step)
    requires WellFormed(Next(w, step)) && |Next(w, step).values| == |w.values|
    ensures Safe(Next(w, step), d, f)
  {
  }

  lemma StepKeepsInv(w: World, step: Step)
    requires Inv(w) && Enabled(w, step)
    ensures Inv(Next(w, step))
  {
    var w' := Next(w, step);
    StepKeepsSession(w, step);
    StepKeepsRange(w, step);
    forall d | 0 <= d < |w.values| ensures FlagOk(w', d) {
      if ByConsumer(step) { ConsumerKeepsFlag(w, step, d); } else { OthersKeepFlag(w, step, d); }
    }
    forall d | 0 <= d < |w.values| ensures Held(w', d) { StepKeepsHeld(w, step, d); }
    forall d, f | 0 <= d < |w.values| && 0 <= f < FIELDS ensures Safe(w', d, f) {
      if step.Begin? || step.Change? || step.SelfReport? {
        ChangeKeepsSafe(w, step, d, f);
      } else if step.TestFlag? || step.PushEvent? {
        RaiseKeepsSafe(w, step, d, f);
      } else if ByNotifier(step) {
        NotifyKeepsSafe(w, step, d, f);
      } else if ByConsumer(step) {
        ConsumerKeepsSafe(w, step, d, f);
      } else {
        SessionKeepsSafe(w, step, d, f);
      }
    }
  }

  ghost predicate ValidRun(w: World, steps: seq<Step>)
    requires WellFormed(w) && SessionOk(w)
    decreases |steps|
  {
    steps == [] ||
    (Enabled(w, steps[0]) && (StepKeepsSession(w, steps[0]); ValidRun(Next(w, steps[0]), steps[1..])))
  }

  ghost function Run(w: World, steps: seq<Step>): World
    requires WellFormed(w) && SessionOk(w) && ValidRun(w, steps)
    decreases |steps|
  {
    if steps == [] then w else (StepKeepsSession(w, steps[0]); Run(Next(w, steps[0]), steps[1..]))
  }

  lemma {:induction false} RunKeepsInv(w: World, steps: seq<Step>)
    requires Inv(w) && ValidRun(w, steps)
    ensures Inv(Run(w, steps))
    decreases |steps|
  {
    if steps != [] {
      StepKeepsInv(w, steps[0]);
      RunKeepsInv(Next(w, steps[0]), steps[1..]);
    }
  }

  ghost predicate Proper(values: seq<Info>) {
    forall d | 0 <= d < |values| :: |values[d]| == FIELDS
  }

  /** In every run, each field of each data server has reached a joined and synced peer, or the event
      is raised, or a notifier is still to run, or the consumer will send the current value; only what
      the peer has itself reported is excepted. */
  lemma NoLostUpdate(values: seq<Info>, own: set<nat>, steps: seq<Step>, d: nat, f: nat)
    requires Proper(values) && ValidRun(Init(values, own), steps)
    requires d < |values| && f < FIELDS
    ensures var w := Run(Init(values, own), steps);
            WellFormed(w) && |w.values| == |values| &&
            (w.session != Gone && d in w.synced && d !in w.reported ==>
               w.flags[d] || Notifying(w, d) || Carries(w, d, f) || Delivered(w, d, f))
  {
    RunKeepsInv(Init(values, own), steps);
    RunKeepsSize(Init(values, own), steps);
    assert Safe(Run(Init(values, own), steps), d, f);
  }

  lemma {:induction false} RunKeepsSize(w: World, steps: seq<Step>)
    requires WellFormed(w) && SessionOk(w) && ValidRun(w, steps)
    ensures |Run(w, steps).values| == |w.values|
    decreases |steps|
  {
    if steps != [] {
      StepKeepsSession(w, steps[0]);
      RunKeepsSize(Next(w, steps[0]), steps[1..]);
    }
  }

  /** An event is never linked into the queue twice. */
  lemma EventQueuedOnce(values: seq<Info>, own: set<nat>, steps: seq<Step>, d: nat)
    requires Proper(values) && ValidRun(Init(values, own), steps) && d < |values|
    ensures var w := Run(Init(values, own), steps);
            |w.flags| == |values| &&
            multiset(w.queue)[d] + multiset(BatchOf(w.consumer))[d] + w.pushing[d] == if w.flags[d] then 1 else 0
  {
    RunKeepsInv(Init(values, own), steps);
    RunKeepsSize(Init(values, own), steps);
    assert FlagOk(Run(Init(values, own), steps), d);
  }

  /** The peer was last sent the leader's value of the field. */
  ghost predicate Agree(w: World, d: nat, f: nat) {
    d < |w.sent| && d < |w.values| && f < |w.sent[d]| && f < |w.values[d]| && w.sent[d][f] == w.values[d][f]
  }

  /** Once the queue is drained, the consumer idle and all notifiers done, the peer has the leader's state. */
  lemma QuietMeansConverged(values: seq<Info>, own: set<nat>, steps: seq<Step>)
    requires Proper(values) && ValidRun(Init(values, own), steps)
    ensures var w := Run(Init(values, own), steps);
            w.session == Joined && w.reported == {} && w.queue == [] && w.consumer == Idle &&
            w.start == w.active == w.tasked == w.pushing == multiset{} &&
            (forall d | 0 <= d < |w.values| :: d in w.synced) ==>
              forall d, f | 0 <= d < |w.values| && 0 <= f < FIELDS :: Agree(w, d, f)
  {
    RunKeepsInv(Init(values, own), steps);
    var w := Run(Init(values, own), steps);
    if w.session == Joined && w.reported == {} && w.queue == [] && w.consumer == Idle &&
       w.start == w.active == w.tasked == w.pushing == multiset{} && (forall d | 0 <= d < |w.values| :: d in w.synced)
    {
      forall d, f | 0 <= d < |w.values| && 0 <= f < FIELDS
        ensures Agree(w, d, f)
      {
        assert FlagOk(w, d) && Safe(w, d, f);
      }
    }
  }

  /* ---------------------------------------------------------------- the methods */

  ghost predicate Ready(w: World) { WellFormed(w) && SessionOk(w) }

  ghost predicate Reaches(w: World, w': World) {
    Ready(w) && exists steps: seq<Step> :: ValidRun(w, steps) && Run(w, steps) == w'
  }

  lemma ReachesSelf(w: World)
    requires Ready(w)
    ensures Reaches(w, w)
  {
    assert ValidRun(w, []) && Run(w, []) == w;
  }

  lemma {:induction false} RunThen(w: World, steps: seq<Step>, step: Step)
    requires Ready(w) && ValidRun(w, steps) && Ready(Run(w, steps)) && Enabled(Run(w, steps), step)
    ensures ValidRun(w, steps + [step]) && Run(w, steps + [step]) == Next(Run(w, steps), step)
    decreases |steps|
  {
    if steps == [] {
      assert [] + [step] == [step];
      StepKeepsSession(w, step);
      assert Run(Next(w, step), []) == Next(w, step);
    } else {
      StepKeepsSession(w, steps[0]);
      assert (steps + [step])[0] == steps[0] && (steps + [step])[1..] == steps[1..] + [step];
      RunThen(Next(w, steps[0]), steps[1..], step);
    }
  }

  lemma Extend(w: World, w': World, step: Step)
    requires Reaches(w, w') && Ready(w') && Enabled(w', step)
    ensures Reaches(w, Next(w', step)) && Ready(Next(w', step))
  {
    var steps: seq<Step> :| ValidRun(w, steps) && Run(w, steps) == w';
    RunThen(w, steps, step);
    StepKeepsSession(w', step);
  }

  /** The invariant holds and the state is reached from w0 by steps. */
  ghost predicate Stable(w0: World, w: World) {
    forall k {:trigger Unfold(k)} :: Unfold(k) ==> Inv(w) && Reaches(w0, w)
  }

  lemma StableSelf(w: World)
    requires Inv(w)
    ensures Stable(w, w)
  {
    ReachesSelf(w);
  }

  lemma StableStep(w0: World, w: World, step: Step)
    requires Stable(w0, w) && WellFormed(w) && Enabled(w, step)
    ensures Stable(w0, Next(w, step)) && WellFormed(Next(w, step))
  {
    assert Unfold(0);
    Extend(w0, w, step);
    StepKeepsInv(w, step);
  }

  /** A notifier that nobody disturbs passes the status test exactly if the peer is online. */
  lemma NotifierStarts(w0: World, w: World, d: nat, f: nat, value: int)
    requires Stable(w0, w) && WellFormed(w) && d < |w.values| && f < FIELDS && w.start == w.active == multiset{}
    ensures var w' := w.(values := SetField(w.values, d, f, value));
            var after := if w.online then w'.(active := multiset{d}) else w';
            Stable(w0, after) && WellFormed(after)
  {
    NotifierChanges(w0, w, d, f, value);
    var w' := w.(values := SetField(w.values, d, f, value));
    var w2 := w'.(start := multiset{d});
    StableStep(w0, w2, TestStatus(d));
    NoneLeft(d);
    assert Next(w2, TestStatus(d)) == if w.online then w'.(active := multiset{d}) else w';
  }

  lemma NotifierChanges(w0: World, w: World, d: nat, f: nat, value: int)
    requires Stable(w0, w) && WellFormed(w) && d < |w.values| && f < FIELDS && w.start == multiset{}
    ensures var after := w.(values := SetField(w.values, d, f, value), start := multiset{d});
            Stable(w0, after) && WellFormed(after)
  {
    NoneLeft(d);
    StableStep(w0, w, Begin(d));
    var w1 := w.(start := multiset{d});
    assert Next(w, Begin(d)) == w1;
    StableStep(w0, w1, Change(d, f, value));
  }

  lemma NoneLeft(d: nat)
    ensures multiset{} + multiset{d} == multiset{d} && multiset{d} - multiset{d} == multiset{}
  {
  }

  /** It comes to the flag exactly if there is also a task. */
  lemma NotifierRuns(w0: World, w: World, d: nat, f: nat, value: int)
    requires Stable(w0, w) && WellFormed(w) && d < |w.values| && f < FIELDS
    requires w.start == w.active == w.tasked == multiset{}
    ensures var w' := w.(values := SetField(w.values, d, f, value));
            var after := if w.online && w.task then w'.(tasked := multiset{d}) else w';
            Stable(w0, after) && WellFormed(after)
  {
    NotifierStarts(w0, w, d, f, value);
    if w.online {
      var w1 := w.(values := SetField(w.values, d, f, value), active := multiset{d});
      StableStep(w0, w1, TestTask(d));
      NoneLeft(d);
      assert Next(w1, TestTask(d)).active == w.active;
      assert Next(w1, TestTask(d)).tasked == if w.task then multiset{d} else w.tasked;
    }
  }

  /** The state after the consumer has taken the first event of its batch into the packet. */
  ghost function Consumed(w: World): World
    requires w.consumer.Busy? && w.consumer.batch != [] && w.consumer.batch[0] < |w.flags| == |w.values|
  {
    var d := w.consumer.batch[0];
    w.(flags := w.flags[d := false], consumer := Busy(w.consumer.batch[1..], None, w.consumer.out[d := w.values[d]]))
  }

  lemma ConsumeOne(w0: World, w: World)
    requires Stable(w0, w) && WellFormed(w) && w.consumer.Busy? && w.consumer.current == None
    requires w.consumer.batch != [] && w.consumer.batch[0] < |w.flags|
    ensures Stable(w0, Consumed(w)) && WellFormed(Consumed(w))
  {
    var d := w.consumer.batch[0];
    var v := w.values[d];
    StableStep(w0, w, ReleaseNext);
    var w1 := Next(w, ReleaseNext);
    StableStep(w0, w1, ReadField);
    var w2 := Next(w1, ReadField);
    assert [] + [v[0]] == [v[0]];
    assert w2.consumer.current == Some(Reading(d, [v[0]]));
    StableStep(w0, w2, ReadField);
    var w3 := Next(w2, ReadField);
    assert [v[0]] + [v[1]] == [v[0], v[1]];
    assert w3.consumer.current == Some(Reading(d, [v[0], v[1]]));
    StableStep(w0, w3, ReadField);
    assert v == [v[0], v[1]] + [v[2]];
    assert Next(w3, ReadField) == Consumed(w);
  }

  lemma QueueInRange(w0: World, w: World)
    requires Stable(w0, w)
    ensures forall k | 0 <= k < |w.queue| :: w.queue[k] < |w.flags|
  {
    assert Unfold(0);
    forall k | 0 <= k < |w.queue| ensures w.queue[k] < |w.flags| { assert Mentions(w, w.queue[k]); }
  }

  /** The leader's side of one connection, while no consumer call is under way.  The methods are the
      program's loops run without interruption; each is a run of the steps above. */
  class NotifyContext {
    const maxEvents: nat
    const own: set<nat>
    ghost const origin: World
    var values: seq<Info>
    var online: bool
    var task: bool
    var session: Session
    var synced: set<nat>
    var reported: set<nat>
    var flags: seq<bool>
    var queue: seq<nat>
    var sent: seq<Info>

    ghost function Snap(): World
      reads this
    {
      World(values, own, reported, online, task, session, synced, flags, queue,
            multiset{}, multiset{}, multiset{}, multiset{}, Idle, sent)
    }

    /** The state is reached from the initial one by steps, and keeps the invariant. */
    ghost predicate Valid()
      reads this
    {
      Stable(origin, Snap()) && WellFormed(Snap()) && maxEvents > 0
    }

    constructor (values: seq<Info>, own: set<nat>, maxEvents: nat)
      requires Proper(values) && maxEvents > 0
      ensures Snap() == Init(values, own) == origin && Valid() && this.maxEvents == maxEvents
    {
      this.maxEvents, this.own, this.values := maxEvents, own, values;
      this.origin := Init(values, own);
      online, task, session, synced, reported := false, false, Gone, {}, {};
      flags, queue, sent := seq(|values|, _ => false), [], seq(|values|, _ => []);
      new;
      StableSelf(Init(values, own));
    }

    /** A change and cluster_topology_data_server_chg_notify, with no other thread in between: the event is
        raised and queued exactly if the peer is active, has a task, and the event is not raised already. */
    method ChangeAndNotify(d: nat, f: nat, value: int)
      requires Valid() && d < |values| && f < FIELDS
      modifies this
      ensures Valid() && values == old(values)[d := old(values)[d][f := value]]
      ensures online == old(online) && task == old(task) && session == old(session) && sent == old(sent)
      ensures reported == if online && task then old(reported) - {d} else old(reported)
      ensures var raise := online && task && !old(flags)[d];
              flags == (if raise then old(flags)[d := true] else old(flags)) &&
              queue == (if raise then old(queue) + [d] else old(queue))
    {
      ghost var w := Snap();
      NotifierRuns(origin, w, d, f, value);
      values := values[d := values[d][f := value]];
      assert Snap() == w.(values := values);
      if !online {
        return;
      }
      if !task {
        return;
      }
      Notify(d, Snap().(tasked := multiset{d}));
    }

    /** The peer becomes active. */
    method Activate()
      requires Valid() && session == Joined
      modifies this`online
      ensures Valid() && online
    {
      StableStep(origin, Snap(), Step.Activate);
      online := true;
    }

    /** The peer becomes inactive, and its session ends. */
    method Deactivate()
      requires Valid()
      modifies this`online, this`session, this`synced
      ensures Valid() && !online && session == Gone && synced == {}
    {
      StableStep(origin, Snap(), Step.Deactivate);
      online, session, synced := false, Gone, {};
    }

    /** The connection's task goes away. */
    method Disconnect()
      requires Valid() && session == Gone
      modifies this`task
      ensures Valid() && !task
    {
      StableStep(origin, Snap(), Step.Disconnect);
      task := false;
    }

    /** The peer reports on a data server of its own: the value is taken, and no event raised for the peer. */
    method SelfReport(d: nat, f: nat, value: int)
      requires Valid() && d < |values| && f < FIELDS && d in own
      modifies this
      ensures Valid() && values == old(values)[d := old(values)[d][f := value]] && reported == old(reported) + {d}
      ensures flags == old(flags) && queue == old(queue) && sent == old(sent)
      ensures online == old(online) && task == old(task) && session == old(session) && synced == old(synced)
    {
      ghost var w := Snap();
      StableStep(origin, w, Step.SelfReport(d, f, value));
      values := values[d := values[d][f := value]];
      reported := reported + {d};
      assert Snap() == Next(w, Step.SelfReport(d, f, value));
    }

    /** The event is fetched by compare-and-swap, and queued if that succeeds. */
    method Notify(d: nat, ghost w: World)
      requires d < |flags| && maxEvents > 0 && Stable(origin, w) && WellFormed(w)
      requires w == Snap().(tasked := multiset{d})
      modifies this`flags, this`queue, this`reported
      ensures Valid()
      ensures flags == old(flags)[d := true]
      ensures queue == (if old(flags)[d] then old(queue) else old(queue) + [d]) && reported == old(reported) - {d}
    {
      StableStep(origin, w, TestFlag(d));
      ghost var w1 := Next(w, TestFlag(d));
      reported := reported - {d};
      if !flags[d] {
        flags := flags[d := true];
        StableStep(origin, w1, PushEvent(d));
        queue := queue + [d];
        assert Snap() == Next(w1, PushEvent(d));
      } else {
        assert Snap() == w1;
      }
    }

    /** Raises every event. */
    method SyncAllDataServers()
      requires Valid() && session == Joining && !online
      modifies this`flags, this`queue, this`synced, this`reported
      ensures Valid() && forall x | 0 <= x < |values| :: flags[x] && x in synced
    {
      var d := 0;
      while d < |values|
        invariant d <= |values| && Valid()
        invariant forall x | 0 <= x < d :: flags[x] && x in synced
      {
        ghost var w := Snap();
        StableStep(origin, w, Sync(d));
        if !flags[d] {
          flags := flags[d := true];
          queue := queue + [d];
        }
        synced, reported := synced + {d}, reported - {d};
        assert Snap() == Next(w, Sync(d));
        d := d + 1;
      }
    }

    /** cluster_deal_join_leader: the peer is set offline and every event is raised. */
    method JoinLeader() returns (ok: bool)
      requires Valid()
      modifies this
      ensures Valid() && values == old(values) && sent == old(sent)
      ensures ok <==> !old(task) && old(session) == Gone
      ensures !ok ==> Snap() == old(Snap())
      ensures ok ==> session == Joined && !online && |flags| == |values| && forall d | 0 <= d < |values| ::
                flags[d] && d in synced
    {
      ok := !task && session == Gone;
      if !ok {
        return;
      }
      StableStep(origin, Snap(), Join);
      task, session, synced := true, Joining, {};
      StableStep(origin, Snap(), ResetStatus);
      online := false;
      SyncAllDataServers();
      StableStep(origin, Snap(), JoinDone);
      session := Joined;
    }

    /** Packs up to `maxEvents` events of the batch: each flag is released before the state is read. */
    method Pack(batch: seq<nat>, ghost w0: World) returns (out: map<nat, Info>, i: nat, ghost w: World)
      requires Stable(origin, w0) && WellFormed(w0) && w0 == Snap().(consumer := Busy(batch, None, map[]))
      requires forall k | 0 <= k < |batch| :: batch[k] < |values|
      modifies this`flags
      ensures i == if |batch| < maxEvents then |batch| else maxEvents
      ensures Stable(origin, w) && WellFormed(w) && w == Snap().(consumer := Busy(batch[i..], None, out))
      ensures forall k | 0 <= k < i :: batch[k] in out && out[batch[k]] == values[batch[k]]
    {
      out, i, w := map[], 0, w0;
      assert batch[0..] == batch;
      while i < |batch| && i < maxEvents
        invariant i <= |batch| && i <= maxEvents && Stable(origin, w) && WellFormed(w)
        invariant w == Snap().(consumer := Busy(batch[i..], None, out))
        invariant forall k | 0 <= k < i :: batch[k] in out && out[batch[k]] == values[batch[k]]
      {
        ConsumeOne(origin, w);
        var d := batch[i];
        flags := flags[d := false];
        out := out[d := values[d]];
        w := Consumed(w);
        i := i + 1;
      }
    }

    /** Sends up to `maxEvents` queued events; what is left goes back to the head of the queue. */
    method ProcessNotifyEvents()
      requires Valid()
      modifies this
      ensures Valid() && values == old(values)
      ensures var n := if !old(task && online && session == Joined) then 0
                       else if |old(queue)| < maxEvents then |old(queue)| else maxEvents;
              queue == old(queue)[n..] &&
              forall k | 0 <= k < n :: old(queue)[k] < |values| && sent[old(queue)[k]] == values[old(queue)[k]]
    {
      if !(task && session == Joined) || !online || queue == [] {
        return;
      }
      ghost var w := Snap();
      QueueInRange(origin, w);
      StableStep(origin, w, Pop);
      var batch := queue;
      queue := [];
      var out, i;
      out, i, w := Pack(batch, Next(w, Pop));
      assert batch[0] in out;
      SendPacket(batch[i..], out, w);
    }

    /** The packet is sent, and what did not fit goes back to the head of the queue. */
    method SendPacket(rest: seq<nat>, out: map<nat, Info>, ghost w: World)
      requires Stable(origin, w) && WellFormed(w) && w == Snap().(consumer := Busy(rest, None, out)) &&
               out != map[] && maxEvents > 0
      modifies this`queue, this`sent
      ensures Valid() && queue == rest + old(queue) && sent == Overlay(old(sent), out)
    {
      StableStep(origin, w, Send);
      queue := rest + queue;
      sent := Overlay(sent, out);
      assert Snap() == Next(w, Send);
    }
  }
}
