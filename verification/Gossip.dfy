/**
 * Many nodes exchanging their membership tables. The network keeps every message for ever,
 * so that it can be delivered late, again, out of order or never. Timers go off and probes
 * fail at any moment.
 */
module Gossip {
  import opened Sequences
  import opened Membership

  /** `own` is each node's entry for itself, or the last one if it has dropped itself. */
  datatype State = State(tables: map<Id, Table>, network: set<seq<Record>>, own: map<Id, Entry>)

  datatype Step =
    | Send(node: Id, message: seq<Record>)
    | Deliver(node: Id, message: seq<Record>)
    | CheckTimers(node: Id, gossip: bool, suspicion: bool, expired: set<Id>)
    | ProbeFails(node: Id, target: Id, verdict: Status)
    | HeartBeat(node: Id)
    | Depart(node: Id)

  const NEWBORN := Entry(0, Alive, 0)

  function Init(nodes: set<Id>): State {
    State(map n | n in nodes :: map[n := NEWBORN], {}, map n | n in nodes :: NEWBORN)
  }

  predicate Enabled(s: State, step: Step) {
    && step.node in s.tables
    && match step
       case Send(n, message) => forall r :: r in message ==> Lookup(s.tables[n], r.id) == Some(r.entry)
       case Deliver(_, message) => message in s.network
       case ProbeFails(n, target, verdict) => target != n && (verdict == Suspected || verdict == Failed)
       case _ => true
  }

  /** What a step does to the table of the node that takes it. */
  function NewTable(t: Table, step: Step): Table {
    match step
    case Send(_, _) => t
    case Deliver(n, message) => Receive(t, message, n)
    case CheckTimers(_, gossip, suspicion, expired) => TimeOutAll(t, gossip, suspicion, expired)
    case ProbeFails(_, target, verdict) => ChangeStatus(t, target, Alive, verdict)
    case HeartBeat(n) => Beat(t, n)
    case Depart(n) => LeaveGroup(t, n)
  }

  function Act(s: State, step: Step): State
    requires step.node in s.tables
  {
    var n := step.node;
    var t := NewTable(s.tables[n], step);
    State(s.tables[n := t],
          if step.Send? then s.network + {step.message} else s.network,
          if n in t then s.own[n := t[n]] else s.own)
  }

  function Next(s: State, step: Step): State {
    if Enabled(s, step) then Act(s, step) else s
  }

  function Run(start: State, steps: seq<Step>): State {
    if steps == [] then start else Next(Run(start, steps[..|steps| - 1]), steps[|steps| - 1])
  }

  // ---------------------------------------------------------------- ownership of incarnations

  predicate Bounded(e: Entry, own: Entry) {
    e.incarnation <= own.incarnation && e.heartbeat <= own.heartbeat
  }

  predicate TableBounded(t: Table, own: map<Id, Entry>) {
    forall id :: id in t ==> id in own && Bounded(t[id], own[id])
  }

  predicate MessageBounded(message: seq<Record>, own: map<Id, Entry>) {
    forall r :: r in message ==> r.id in own && Bounded(r.entry, own[r.id])
  }

  /** Nobody's copy of a member's entry is ahead of the member itself. */
  ghost predicate Owned(s: State) {
    && s.tables.Keys == s.own.Keys
    && (forall n :: n in s.tables ==> TableBounded(s.tables[n], s.own))
    && (forall message :: message in s.network ==> MessageBounded(message, s.own))
    && (forall n :: n in s.tables && n in s.tables[n] ==> s.tables[n][n] == s.own[n])
  }

  lemma {:induction false} ReceiveBounded(t: Table, message: seq<Record>, self: Id, own: map<Id, Entry>)
    requires TableBounded(t, own) && MessageBounded(message, own)
    requires self in t ==> t[self] == own[self]
    ensures var t' := Receive(t, message, self);
      && (self in t' <==> self in t)
      && (self in t ==>
            && t'[self] == t[self].(incarnation := t'[self].incarnation)
            && t[self].incarnation <= t'[self].incarnation
            && TableBounded(t', own[self := t'[self]]))
      && (self !in t ==> TableBounded(t', own))
    decreases |message|
  {
    if message != [] {
      var r := message[0];
      assert MessageBounded(message[1..], own);
      if r.id == self {
        if self in t {
          var next := Refute(t[self], r.entry);
          ReceiveBounded(t[self := next], message[1..], self, own[self := next]);
          var end := Receive(t, message, self)[self];
          assert own[self := next][self := end] == own[self := end];
        }
      } else {
        ReceiveBounded(AbsorbIn(t, r), message[1..], self, own);
      }
    }
  }

  /** What a step leaves of the node's own entry, and that nothing else outgrows its owner. */
  lemma {:induction false} NewTableBounded(t: Table, step: Step, own: map<Id, Entry>)
    requires TableBounded(t, own) && step.node in own
    requires step.node in t ==> t[step.node] == own[step.node]
    requires step.Deliver? ==> MessageBounded(step.message, own)
    requires step.ProbeFails? ==> step.target != step.node
    ensures var n, t' := step.node, NewTable(t, step);
      && (n in t' ==> n in t && Bounded(own[n], t'[n]))
      && TableBounded(t', if n in t' then own[n := t'[n]] else own)
  {
    match step
    case Deliver(n, message) => ReceiveBounded(t, message, n, own);
    case _ =>
  }

  lemma {:induction false} ActKeepsOwned(s: State, step: Step)
    requires Owned(s) && Enabled(s, step)
    ensures Owned(Act(s, step)) && OwnGrows(s, Act(s, step))
  {
    var n := step.node;
    NewTableBounded(s.tables[n], step, s.own);
    OwnChanges(s, Act(s, step), n, NewTable(s.tables[n], step));
    NetworkBounded(s, Act(s, step), step);
  }

  lemma {:induction false} OwnChanges(s: State, s': State, n: Id, t: Table)
    requires Owned(s) && n in s.tables && s'.tables == s.tables[n := t]
    requires s'.own == if n in t then s.own[n := t[n]] else s.own
    requires (n in t ==> Bounded(s.own[n], t[n])) && TableBounded(t, s'.own)
    ensures OwnGrows(s, s') && s'.tables.Keys == s'.own.Keys
    ensures forall k :: k in s'.tables ==> TableBounded(s'.tables[k], s'.own)
    ensures forall k :: k in s'.tables && k in s'.tables[k] ==> s'.tables[k][k] == s'.own[k]
  {
    TablesBounded(s, s', n, t);
  }

  lemma {:induction false} TablesBounded(s: State, s': State, n: Id, t: Table)
    requires n in s.tables && s.tables.Keys == s.own.Keys
    requires forall k :: k in s.tables ==> TableBounded(s.tables[k], s.own)
    requires s'.tables == s.tables[n := t]
    requires OwnGrows(s, s') && TableBounded(t, s'.own)
    ensures forall k :: k in s'.tables ==> TableBounded(s'.tables[k], s'.own)
  {
  }

  lemma {:induction false} NetworkBounded(s: State, s': State, step: Step)
    requires (forall message :: message in s.network ==> MessageBounded(message, s.own)) && OwnGrows(s, s')
    requires Enabled(s, step) && TableBounded(s.tables[step.node], s.own)
    requires s'.network == if step.Send? then s.network + {step.message} else s.network
    ensures forall message :: message in s'.network ==> MessageBounded(message, s'.own)
  {
  }

  /** Incarnations and heartbeats of the owners only grow. */
  ghost predicate OwnGrows(s: State, s': State) {
    && s.own.Keys == s'.own.Keys
    && forall id :: id in s.own ==> Bounded(s.own[id], s'.own[id])
  }

  /** In every run, however messages are delayed, repeated, reordered or lost. */
  lemma {:induction false} OwnershipHolds(nodes: set<Id>, steps: seq<Step>)
    ensures Owned(Run(Init(nodes), steps))
  {
    if steps != [] {
      var n := |steps| - 1;
      OwnershipHolds(nodes, steps[..n]);
      if Enabled(Run(Init(nodes), steps[..n]), steps[n]) {
        ActKeepsOwned(Run(Init(nodes), steps[..n]), steps[n]);
      }
    }
  }

  // ---------------------------------------------------------------- refutation

  predicate Suspects(message: seq<Record>, self: Id, incarnation: int) {
    exists r :: r in message && r.id == self && r.entry.status == Suspected && r.entry.incarnation == incarnation
  }

  /** A message moves a living node's incarnation by one if it carries a current suspicion, however
      often, and leaves it otherwise. */
  lemma {:induction false} OneStepPerMessage(t: Table, message: seq<Record>, self: Id)
    requires self in t
    requires forall r :: r in message && r.id == self ==> r.entry.incarnation <= t[self].incarnation
    ensures var t' := Receive(t, message, self);
      && self in t'
      && t'[self] == if t[self].status == Alive && Suspects(message, self, t[self].incarnation)
                     then t[self].(incarnation := t[self].incarnation + 1) else t[self]
    decreases |message|
  {
    if message != [] {
      var r, rest := message[0], message[1..];
      assert message == [r] + rest;
      assert forall i :: Suspects(message, self, i) <==>
        Suspects(rest, self, i) || (r.id == self && r.entry.status == Suspected && r.entry.incarnation == i);
      if r.id == self {
        OneStepPerMessage(t[self := Refute(t[self], r.entry)], rest, self);
      } else {
        OneStepPerMessage(AbsorbIn(t, r), rest, self);
      }
    }
  }

  /** The news that node n is alive after all, delivered to node k. */
  function Told(s: State, k: Id, n: Id): Table
    requires k in s.tables && n in s.own
  {
    Receive(s.tables[k], [Record(n, s.own[n])], k)
  }

  /** In every reachable state: a living node that hears of its own suspicion then has an incarnation
      above every copy in any table or any message, and its entry replaces whatever the next
      receiver had, be it failed. */
  lemma {:induction false} RefutationWins(nodes: set<Id>, steps: seq<Step>, n: Id, message: seq<Record>)
    requires var s := Run(Init(nodes), steps);
      && Enabled(s, Deliver(n, message)) && n in s.tables[n] && n in s.own && s.own[n].status == Alive
      && exists r :: r in message && r.id == n && r.entry.status == Suspected
                     && r.entry.incarnation >= s.own[n].incarnation
    ensures var s := Run(Init(nodes), steps);
      var s' := Run(Init(nodes), steps + [Deliver(n, message)]);
      && n in s.own && n in s'.own && s'.own[n] == s.own[n].(incarnation := s.own[n].incarnation + 1)
      && (forall k :: k in s'.tables && k != n && n in s'.tables[k] ==>
        s'.tables[k][n].incarnation < s'.own[n].incarnation)
      && (forall m, r :: m in s'.network && r in m && r.id == n ==> r.entry.incarnation < s'.own[n].incarnation)
      && (forall k :: k in s'.tables && k != n ==> Lookup(Told(s', k, n), n) == Some(s'.own[n]))
  {
    var s := Run(Init(nodes), steps);
    OwnershipHolds(nodes, steps);
    assert (steps + [Deliver(n, message)])[..|steps|] == steps;
    var s' := Act(s, Deliver(n, message));
    assert MessageBounded(message, s.own);
    OneStepPerMessage(s.tables[n], message, n);
    forall k | k in s'.tables && k != n ensures Lookup(Told(s', k, n), n) == Some(s'.own[n]) {
      assert s'.tables[k] == s.tables[k] && TableBounded(s.tables[k], s.own);
      ReceiveOne(s'.tables[k], Record(n, s'.own[n]), k);
    }
    forall k | k in s'.tables && k != n && n in s'.tables[k]
      ensures s'.tables[k][n].incarnation < s'.own[n].incarnation
    {
      assert s'.tables[k] == s.tables[k] && TableBounded(s.tables[k], s.own);
    }
    forall m, r | m in s'.network && r in m && r.id == n ensures r.entry.incarnation < s'.own[n].incarnation {
      assert MessageBounded(m, s.own);
    }
  }

  lemma {:induction false} ReceiveOne(t: Table, r: Record, self: Id)
    requires r.id != self
    ensures Receive(t, [r], self) == AbsorbIn(t, r)
  {
  }

  // ---------------------------------------------------------------- forward movement

  lemma {:induction false} ActMovesForward(s: State, step: Step, n: Id)
    requires n in s.tables && Enabled(s, step)
    ensures n in Act(s, step).tables && Forward(s.tables[n], Act(s, step).tables[n], n)
  {
    if step.node == n {
      match step
      case Deliver(_, message) => ReceiveMovesForward(s.tables[n], message, n);
      case CheckTimers(_, gossip, suspicion, expired) =>
        TimeOutMovesForward(s.tables[n], gossip, suspicion, expired, n);
      case _ =>
    }
  }

  /** As long as n keeps an entry for m, that entry never goes back. */
  lemma {:induction false} RunsMoveForward(start: State, steps: seq<Step>, n: Id, m: Id)
    requires n != m
    requires forall k :: 0 <= k <= |steps| ==>
      n in Run(start, steps[..k]).tables && m in Run(start, steps[..k]).tables[n]
    ensures n in start.tables && m in start.tables[n] && n in Run(start, steps).tables
    ensures m in Run(start, steps).tables[n]
    ensures Ahead(start.tables[n][m], Run(start, steps).tables[n][m])
  {
    assert steps[..0] == [] && steps[..|steps|] == steps;
    assert Run(start, steps[..0]) == start;
    if steps != [] {
      var l := |steps| - 1;
      forall k | 0 <= k <= l ensures steps[..l][..k] == steps[..k] {
      }
      RunsMoveForward(start, steps[..l], n, m);
      var before := Run(start, steps[..l]);
      if Enabled(before, steps[l]) {
        ActMovesForward(before, steps[l], n);
        AheadTransitive(start.tables[n][m], before.tables[n][m], Run(start, steps).tables[n][m]);
      }
    }
  }

  // ---------------------------------------------------------------- who comes back

  /** The message has news of the member other than its failure. */
  ghost predicate HasLiving(message: seq<Record>, id: Id) {
    exists r :: r in message && r.id == id && r.entry.status != Failed
  }

  lemma {:induction false} LivingBeforeSelf(message: seq<Record>, self: Id, id: Id)
    requires HasLiving(BeforeSelf(message, self), id)
    ensures HasLiving(message, id)
  {
    SubsetBeforeSelf(message, self);
  }

  lemma {:induction false} SubsetBeforeSelf(message: seq<Record>, self: Id)
    ensures forall r :: r in BeforeSelf(message, self) ==> r in message
  {
    if message != [] {
      SubsetBeforeSelf(message[1..], self);
    }
  }

  lemma {:induction false} LivingAbout(message: seq<Record>, id: Id, e: Entry)
    requires e in About(message, id) && e.status != Failed
    ensures HasLiving(message, id)
  {
    AboutMember(message, id, e);
    assert Record(id, e).id == id;
  }

  /** A member that is not in a node's table, because it was removed for one, is there after a step only if the
      node has received news of it other than a failure; and then it is, if the node has kept itself. */
  lemma {:induction false} MemberReturnsExactlyWhen(s: State, step: Step, n: Id, id: Id)
    requires n in s.tables && id != n && id !in s.tables[n] && Enabled(s, step)
    ensures var received := step.Deliver? && step.node == n && HasLiving(step.message, id);
      && n in Act(s, step).tables
      && (id in Act(s, step).tables[n] ==> received)
      && (n in s.tables[n] && received ==> id in Act(s, step).tables[n])
  {
    if step.Deliver? && step.node == n {
      var t := s.tables[n];
      if n in t {
        UnknownAddedExactlyWhen(t, step.message, n, id);
      } else {
        ReceiveWithoutSelf(t, step.message, n, id);
        var about := About(BeforeSelf(step.message, n), id);
        AbsorbMissing(about);
        if e :| e in about && e.status != Failed {
          LivingAbout(BeforeSelf(step.message, n), id, e);
          LivingBeforeSelf(step.message, n, id);
        }
      }
    }
  }

  /** Over any run: who was not in the table and is there now has come by such a message. */
  lemma {:induction false} MembersReturnByMessages(start: State, steps: seq<Step>, n: Id, id: Id) returns (k: nat)
    requires n in start.tables && id != n && id !in start.tables[n]
    requires n in Run(start, steps).tables ==> id in Run(start, steps).tables[n]
    ensures k < |steps| && Enabled(Run(start, steps[..k]), steps[k])
    ensures steps[k].Deliver? && steps[k].node == n && HasLiving(steps[k].message, id)
  {
    TablesStay(start, steps, n);
    var last := |steps| - 1;
    var before := Run(start, steps[..last]);
    TablesStay(start, steps[..last], n);
    if id in before.tables[n] {
      k := MembersReturnByMessages(start, steps[..last], n, id);
      assert steps[..last][..k] == steps[..k] && steps[..last][k] == steps[k];
    } else {
      k := last;
      MemberReturnsExactlyWhen(before, steps[last], n, id);
    }
  }

  lemma {:induction false} TablesStay(start: State, steps: seq<Step>, n: Id)
    requires n in start.tables
    ensures n in Run(start, steps).tables
  {
    if steps != [] {
      TablesStay(start, steps[..|steps| - 1], n);
    }
  }

  // ---------------------------------------------------------------- heartbeats, probes and departures

  function Beats(steps: seq<Step>, n: Id): nat {
    if steps == [] then 0
    else Beats(steps[..|steps| - 1], n) + if steps[|steps| - 1] == HeartBeat(n) then 1 else 0
  }

  /** As long as a node keeps its own entry, its heartbeat is the number of its beats. */
  lemma {:induction false} HeartbeatCounts(nodes: set<Id>, steps: seq<Step>, n: Id)
    requires n in nodes
    ensures var s := Run(Init(nodes), steps);
      n in s.tables && (n in s.tables[n] ==> s.tables[n][n].heartbeat == Beats(steps, n))
  {
    if steps != [] {
      var last := |steps| - 1;
      HeartbeatCounts(nodes, steps[..last], n);
      var s, step := Run(Init(nodes), steps[..last]), steps[last];
      if Enabled(s, step) && step.node == n {
        BeatCounts(s.tables[n], step);
      }
    }
  }

  lemma {:induction false} BeatCounts(t: Table, step: Step)
    requires step.ProbeFails? ==> step.target != step.node
    ensures var n, t' := step.node, NewTable(t, step);
      n in t' ==> n in t && t'[n].heartbeat == t[n].heartbeat + if step.HeartBeat? then 1 else 0
  {
    if step.Deliver? {
      OwnEntryOutcome(t, step.message, step.node);
    }
  }

  /** A node whose timers are checked has the members timed out as TimeOutCheck says, and no other node has. */
  lemma {:induction false} TimersOutcome(s: State, n: Id, gossip: bool, suspicion: bool, expired: set<Id>)
    requires Enabled(s, CheckTimers(n, gossip, suspicion, expired))
    ensures var s' := Act(s, CheckTimers(n, gossip, suspicion, expired));
      && s'.tables.Keys == s.tables.Keys && TimedOut(s.tables[n], s'.tables[n], gossip, suspicion, expired)
      && forall k :: k in s.tables && k != n ==> s'.tables[k] == s.tables[k]
  {
    TimeOutOutcome(s.tables[n], gossip, suspicion, expired);
  }

  /** A probe that fails gives a living member the status asked for, and changes nothing else. */
  lemma {:induction false} FailedProbeOutcome(s: State, n: Id, target: Id, verdict: Status)
    requires Enabled(s, ProbeFails(n, target, verdict)) && target in s.tables[n]
    ensures var t, t' := s.tables[n], Act(s, ProbeFails(n, target, verdict)).tables[n];
      && t'.Keys == t.Keys && (forall id :: id in t && id != target ==> t'[id] == t[id])
      && t'[target].incarnation == t[target].incarnation && t'[target].heartbeat == t[target].heartbeat
      && t'[target].status == if t[target].status == Alive then verdict else t[target].status
  {
  }

  /** A node that departs says so, and fails at whoever hears it; whoever knew only an older incarnation,
      or nothing of it, has it as departed. */
  lemma {:induction false} DepartureIsHeard(s: State, n: Id, k: Id)
    requires n in s.tables && n in s.tables[n] && k in s.tables && k != n
    ensures var own := s.tables[n][n];
      var news := [Record(n, Entry(own.incarnation, Leave, own.heartbeat))];
      var s' := Next(Next(Next(s, Depart(n)), Send(n, news)), Deliver(k, news));
      && k in s'.tables && n in s'.tables[k]
      && (n in s.tables[k] && s.tables[k][n].incarnation >= own.incarnation ==>
            s'.tables[k][n] == Entry(s.tables[k][n].incarnation, Failed, s.tables[k][n].heartbeat))
      && (n in s.tables[k] && s.tables[k][n].incarnation < own.incarnation ==> s'.tables[k][n] == news[0].entry)
      && (n !in s.tables[k] ==> s'.tables[k][n] == news[0].entry)
  {
    var own := s.tables[n][n];
    var r := Record(n, Entry(own.incarnation, Leave, own.heartbeat));
    ReceiveOne(s.tables[k], r, k);
    var departed := Next(s, Depart(n));
    assert Lookup(departed.tables[n], n) == Some(r.entry);
    var sent := Next(departed, Send(n, [r]));
    assert [r] in sent.network && sent.tables[k] == s.tables[k];
  }
}
