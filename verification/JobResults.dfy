/**
 * What holds over whole runs of a job: stable numbering and exactly-once delivery across
 * crashes, the end-of-stream barrier, and schedule independence of the final output.
 */
module JobResults {
  import opened Sequences
  import opened Operators
  import opened Delivery
  import opened OrderlyTask
  import opened Pipeline

  // ---------------------------------------------------------------- later states extend earlier ones

  ghost predicate Extends(s: State, s': State) {
    && s.slots.Keys == s'.slots.Keys
    && (forall n :: n in s.slots ==> s.slots[n].task.log <= s'.slots[n].task.log)
    && s.sent <= s'.sent
    && s.acked <= s'.acked
  }

  /** The node whose slot a step changes. */
  function Touched(j: Job, step: Step): Node
    requires ValidJob(j)
  {
    match step
    case EmitLine(n) => n
    case Deliver(m, _, _) => Target(j, m)
    case SendEos(u, i) => Node(u.stage + 1, i)
    case OperatorDies(n) => n
    case Kill(n) => n
    case Restart(n) => n
    case ReplayLine(n) => n
  }

  lemma {:induction false} NextExtends(j: Job, s: State, step: Step)
    requires ValidJob(j)
    ensures Extends(s, Next(j, s, step))
  {
    if Enabled(j, s, step) {
      var n, s' := Touched(j, step), Act(j, s, step);
      assert s'.slots == s.slots[n := s'.slots[n]] && s.slots[n].task.log <= s'.slots[n].task.log;
    }
  }

  lemma {:induction false} ExtendsTransitive(a: State, b: State, c: State)
    requires Extends(a, b) && Extends(b, c)
    ensures Extends(a, c)
  {
  }

  lemma {:induction false} RunSnocExtends(j: Job, steps: seq<Step>, step: Step)
    requires ValidJob(j)
    ensures Extends(Run(j, steps), Run(j, steps + [step]))
  {
    assert (steps + [step])[..|steps|] == steps;
    NextExtends(j, Run(j, steps), step);
  }

  lemma {:induction false} RunExtends(j: Job, steps: seq<Step>, more: seq<Step>)
    requires ValidJob(j)
    ensures Extends(Run(j, steps), Run(j, steps + more))
    decreases |more|
  {
    if more == [] {
      assert steps + more == steps;
    } else {
      var k := |more| - 1;
      RunExtends(j, steps, more[..k]);
      assert steps + more == steps + more[..k] + [more[k]];
      RunSnocExtends(j, steps + more[..k], more[k]);
      ExtendsTransitive(Run(j, steps), Run(j, steps + more[..k]), Run(j, steps + more));
    }
  }

  // ---------------------------------------------------------------- exactly once across restarts

  /** Every incarnation's input, at any moment, is a prefix of the durable log at any later moment. */
  lemma {:induction false} InputIsPrefixOfLaterLog(j: Job, steps: seq<Step>, more: seq<Step>, n: Node)
    requires ValidJob(j) && IsNode(j, n) && n.stage > 0
    ensures var s, s' := Run(j, steps), Run(j, steps + more);
      n in s.slots && n in s'.slots && s.slots[n].task.stdin <= s'.slots[n].task.log
  {
    RunKeepsInv(j, steps);
    RunExtends(j, steps, more);
    var s := Run(j, steps);
    assert n in s.slots;
    assert TaskInv(j, s, n);
  }

  /** Output number k of a task carries the same line, and goes to the same downstream task, in
      every incarnation. */
  lemma {:induction false} NumberingIsStable(j: Job, steps: seq<Step>, more: seq<Step>, m: Message, m': Message)
    requires ValidJob(j)
    requires m in Run(j, steps).sent && m' in Run(j, steps + more).sent
    requires m.from == m'.from && m.number == m'.number
    ensures m == m' && Target(j, m) == Target(j, m') && MessageEntry(m) == MessageEntry(m')
  {
    RunExtends(j, steps, more);
    RunKeepsInv(j, steps + more);
    var s := Run(j, steps + more);
    assert SentInv(j, s, m) && SentInv(j, s, m');
    IdDeterminesMessage(j, s, m, m');
  }

  /** A downstream log holds no ID twice, and nothing that was not sent to that task. */
  lemma {:induction false} LoggedAtMostOnce(j: Job, steps: seq<Step>, n: Node, e: Entry)
    requires ValidJob(j) && IsNode(j, n) && n.stage > 0
    requires var s := Run(j, steps); n in s.slots && e in s.slots[n].task.log
    ensures DistinctIds(Run(j, steps).slots[n].task.log)
    ensures exists m :: m in Run(j, steps).sent && Target(j, m) == n && MessageEntry(m) == e
  {
    RunKeepsInv(j, steps);
    var s := Run(j, steps);
    assert TaskInv(j, s, n) && LogInv(j, s, n);
  }

  /** When a node has finished, each of its output lines is in the log of its target exactly
      once, as the multiplicity of its entry and as the only entry with its ID. */
  lemma {:induction false} FinishedMeansExactlyOnce(j: Job, steps: seq<Step>, u: Node, k: nat)
    requires ValidJob(j) && IsNode(j, u) && u.stage < j.stages
    requires var s := Run(j, steps); u in s.slots && Finished(j, s, u) && k < |Printed(j, s, u)|
    ensures var s := Run(j, steps);
      var m := Message(u, k + 1, Printed(j, s, u)[k]);
      && Target(j, m) in s.slots
      && var log := s.slots[Target(j, m)].task.log;
         multiset(log)[MessageEntry(m)] == 1
         && forall e :: e in log && e.id == MessageEntry(m).id ==> e == MessageEntry(m)
  {
    RunKeepsInv(j, steps);
    var s := Run(j, steps);
    var m := Message(u, k + 1, Printed(j, s, u)[k]);
    assert EmitInv(j, s, u);
    assert m in s.sent && AckedInv(j, s, m);
    var log := s.slots[Target(j, m)].task.log;
    assert IsNode(j, Target(j, m));
    assert TaskInv(j, s, Target(j, m));
    assert Distinct(log);
    DistinctMultiplicity(log, MessageEntry(m));
  }

  // ---------------------------------------------------------------- the end-of-stream barrier

  /** By induction over the stages: once the end of stream has closed one task's stdin, every node
      of every earlier stage has finished. */
  lemma {:induction false} ClosedMeansEarlierFinished(j: Job, s: State, n: Node, u: Node)
    requires ValidJob(j) && Inv(j, s) && IsNode(j, n) && IsNode(j, u) && u.stage < n.stage
    requires n in s.slots && ClosedByEos(s.slots[n].task)
    ensures u in s.slots && Finished(j, s, u)
    decreases n.stage
  {
    assert TaskInv(j, s, n);
    if u.stage == n.stage - 1 {
      ClosedMeansUpstreamFinished(j, s, n, u);
    } else {
      var before := Node(n.stage - 1, 0);
      ClosedMeansUpstreamFinished(j, s, n, before);
      ClosedMeansEarlierFinished(j, s, before, u);
    }
  }

  /** When the stdin of a task is closed by the end of stream, every node of every earlier stage has
      printed all it ever will, and every line of it, wherever it goes, has been accepted
      by its target; so no later push can bring anything new. */
  lemma {:induction false} EosBarrier(j: Job, steps: seq<Step>, n: Node, u: Node, k: nat)
    requires ValidJob(j) && IsNode(j, n) && IsNode(j, u) && u.stage < n.stage
    requires var s := Run(j, steps); n in s.slots && ClosedByEos(s.slots[n].task)
    ensures var s := Run(j, steps);
      && u in s.slots && Finished(j, s, u)
      && Printed(j, s, u) == Out(Emitter(j, u.stage), Recorded(j, s, u))
      && (k < |Printed(j, s, u)| ==>
            var m := Message(u, k + 1, Printed(j, s, u)[k]);
            m in s.acked && Target(j, m) in s.slots && MessageEntry(m) in s.slots[Target(j, m)].task.log)
  {
    RunKeepsInv(j, steps);
    var s := Run(j, steps);
    ClosedMeansEarlierFinished(j, s, n, u);
    assert u.stage > 0 ==> TaskInv(j, s, u);
    FinishedReceivedAll(j, s, u);
    assert EmitInv(j, s, u);
    if k < |Printed(j, s, u)| {
      var m := Message(u, k + 1, Printed(j, s, u)[k]);
      assert m in s.sent;
      assert AckedInv(j, s, m);
    }
  }

  lemma {:induction false} FinishedReceivedAll(j: Job, s: State, n: Node)
    requires n in s.slots && Finished(j, s, n) && (n.stage > 0 ==> TaskInv(j, s, n))
    ensures Received(j, s, n) == Recorded(j, s, n)
  {
  }

  // ---------------------------------------------------------------- a kill, and the way back

  /** A task that was killed takes in nothing until it is restarted, which is possible at once; what it has read
      can still be printed. */
  lemma {:induction false} KilledUntilRestarted(j: Job, s: State, n: Node)
    requires ValidJob(j) && Enabled(j, s, Kill(n)) && TaskInv(j, s, n)
    ensures var s' := Act(j, s, Kill(n));
      && Enabled(j, s', Restart(n)) && !Enabled(j, s', ReplayLine(n))
      && (forall m, outcome, lost :: Target(j, m) == n ==> !Enabled(j, s', Deliver(m, outcome, lost)))
      && (forall u: Node, i: nat :: Node(u.stage + 1, i) == n ==> !Enabled(j, s', SendEos(u, i)))
      && (Enabled(j, s', EmitLine(n)) <==> Enabled(j, s, EmitLine(n)))
  {
    assert Printed(j, Act(j, s, Kill(n)), n) == Printed(j, s, n);
  }

  /** A restart, and the replay of a log of this length. */
  function RestartAndReplay(n: Node, length: nat): seq<Step> {
    [Restart(n)] + seq(length, _ => ReplayLine(n))
  }

  /** After a restart and the replay of its log a task's operator has read all of it again. */
  lemma {:induction false} ReplayRestoresInput(j: Job, steps: seq<Step>, n: Node, k: nat)
    requires ValidJob(j) && Enabled(j, Run(j, steps), Restart(n)) && k <= |Run(j, steps).slots[n].task.log|
    ensures var s, s' := Run(j, steps), Run(j, steps + RestartAndReplay(n, k));
      n in s'.slots && s'.slots[n] == Slot(Replayed(s.slots[n].task, k), true)
  {
    if k == 0 {
      assert steps + RestartAndReplay(n, 0) == steps + [Restart(n)];
      RunSnoc(j, steps, Restart(n));
    } else {
      var before := steps + RestartAndReplay(n, k - 1);
      ReplayRestoresInput(j, steps, n, k - 1);
      assert steps + RestartAndReplay(n, k) == before + [ReplayLine(n)];
      RunSnoc(j, before, ReplayLine(n));
      ReplayNext(j, Run(j, before), n);
      OneMoreReplayed(Run(j, steps).slots[n].task, k - 1);
    }
  }

  /** A task restarted, with k lines of its log replayed. */
  function Replayed(t: Task, k: nat): Task {
    if k <= |t.log| then Start(t.log, t.numUpstream, t.hasLogFile).(stdin := t.log[..k], pos := k) else t
  }

  lemma {:induction false} OneMoreReplayed(t: Task, k: nat)
    requires k < |t.log|
    ensures ReplayOwn(Replayed(t, k)) == Replayed(t, k + 1)
  {
    assert t.log[..k + 1] == t.log[..k] + [t.log[k]];
  }

  lemma {:induction false} RunSnoc(j: Job, steps: seq<Step>, step: Step)
    requires ValidJob(j)
    ensures Run(j, steps + [step]) == Next(j, Run(j, steps), step)
  {
    assert (steps + [step])[..|steps|] == steps;
  }

  lemma {:induction false} ReplayNext(j: Job, s: State, n: Node)
    requires ValidJob(j) && n in s.slots && n.stage > 0 && s.slots[n].registered
    ensures Next(j, s, ReplayLine(n)).slots == s.slots[n := s.slots[n].(task := ReplayOwn(s.slots[n].task))]
  {
  }

  // ---------------------------------------------------------------- every end of stream counts

  /** The nodes whose end of stream has reached the current incarnation of a task. */
  ghost function EndsArrived(j: Job, steps: seq<Step>, n: Node): set<Node>
    requires ValidJob(j)
  {
    if steps == [] then {} else
      var front, last := steps[..|steps| - 1], steps[|steps| - 1];
      if !Enabled(j, Run(j, front), last) then EndsArrived(j, front, n)
      else if last == Restart(n) then {}
      else if last.SendEos? && n == Node(last.node.stage + 1, last.index) then EndsArrived(j, front, n) + {last.node}
      else EndsArrived(j, front, n)
  }

  /** A task counts each of them once, and no other. */
  lemma {:induction false} EveryEndIsCounted(j: Job, steps: seq<Step>, n: Node)
    requires ValidJob(j) && IsNode(j, n) && n.stage > 0
    ensures var s := Run(j, steps);
      && n in s.slots && s.slots[n].task.eosCount == |EndsArrived(j, steps, n)|
      && EndsArrived(j, steps, n) <= EosSenders(s, n)
  {
    if steps != [] {
      var front, last := steps[..|steps| - 1], steps[|steps| - 1];
      EveryEndIsCounted(j, front, n);
      if Enabled(j, Run(j, front), last) {
        EndCountedByStep(j, Run(j, front), last, n, EndsArrived(j, front, n), EndsArrived(j, steps, n));
      }
    }
  }

  lemma {:induction false} EndCountedByStep(
      j: Job, s: State, step: Step, n: Node, before: set<Node>, after: set<Node>)
    requires ValidJob(j) && Enabled(j, s, step) && n in s.slots
    requires s.slots[n].task.eosCount == |before| && before <= EosSenders(s, n)
    requires after ==
      if step == Restart(n) then {}
      else if step.SendEos? && n == Node(step.node.stage + 1, step.index) then before + {step.node}
      else before
    ensures var s' := Act(j, s, step);
      n in s'.slots && s'.slots[n].task.eosCount == |after| && after <= EosSenders(s', n)
  {
    var s' := Act(j, s, step);
    assert EosSenders(s, n) <= EosSenders(s', n);
    if step.SendEos? && n == Node(step.node.stage + 1, step.index) {
      assert step.node !in EosSenders(s, n) && step.node in EosSenders(s', n);
    }
  }

  /** The stdin of a task is closed by the end of the stream exactly when it has come to this incarnation from
      every node upstream. */
  lemma {:induction false} ClosedExactlyWhenAllEnded(j: Job, steps: seq<Step>, n: Node)
    requires ValidJob(j) && IsNode(j, n) && n.stage > 0
    ensures var s := Run(j, steps);
      n in s.slots && (ClosedByEos(s.slots[n].task) <==> EndsArrived(j, steps, n) == UpstreamNodes(j, n.stage))
  {
    RunKeepsInv(j, steps);
    EveryEndIsCounted(j, steps, n);
    var s := Run(j, steps);
    assert TaskInv(j, s, n);
    EosSendersAreUpstream(j, s, n);
    SubsetCardinality(EndsArrived(j, steps, n), UpstreamNodes(j, n.stage));
  }

  /** For a task that was never restarted these are all who have sent it. */
  lemma {:induction false} NeverRestartedHasAllEnds(j: Job, steps: seq<Step>, n: Node)
    requires ValidJob(j) && forall k :: 0 <= k < |steps| ==> steps[k] != Restart(n)
    ensures EndsArrived(j, steps, n) == EosSenders(Run(j, steps), n)
  {
    if steps != [] {
      var front, last := steps[..|steps| - 1], steps[|steps| - 1];
      NeverRestartedHasAllEnds(j, front, n);
      if Enabled(j, Run(j, front), last) {
        SendersAfter(j, Run(j, front), last, n);
      }
    }
  }

  /** So a task that was never restarted has closed its stdin when every node upstream has sent the end. */
  lemma {:induction false} AllEndsClose(j: Job, steps: seq<Step>, n: Node)
    requires ValidJob(j) && IsNode(j, n) && n.stage > 0
    requires forall k :: 0 <= k < |steps| ==> steps[k] != Restart(n)
    requires forall u :: u in UpstreamNodes(j, n.stage) ==> (u, n) in Run(j, steps).eos
    ensures n in Run(j, steps).slots && ClosedByEos(Run(j, steps).slots[n].task)
  {
    NeverRestartedHasAllEnds(j, steps, n);
    AllSendersAreUpstream(j, steps, n);
    ClosedExactlyWhenAllEnded(j, steps, n);
  }

  lemma {:induction false} AllSendersAreUpstream(j: Job, steps: seq<Step>, n: Node)
    requires ValidJob(j) && n.stage > 0
    requires forall u :: u in UpstreamNodes(j, n.stage) ==> (u, n) in Run(j, steps).eos
    ensures EosSenders(Run(j, steps), n) == UpstreamNodes(j, n.stage)
  {
    RunKeepsInv(j, steps);
    EosSendersAreUpstream(j, Run(j, steps), n);
  }

  lemma {:induction false} SendersAfter(j: Job, s: State, step: Step, n: Node)
    requires ValidJob(j) && Enabled(j, s, step)
    ensures EosSenders(Act(j, s, step), n) == EosSenders(s, n) +
      if step.SendEos? && n == Node(step.node.stage + 1, step.index) then {step.node} else {}
  {
  }

  // ---------------------------------------------------------------- what a finished job has delivered

  ghost predicate AllFinished(j: Job, s: State) {
    forall n :: IsNode(j, n) ==> n in s.slots && Finished(j, s, n)
  }

  /** The tasks that write the output have finished. */
  ghost predicate LastStageFinished(j: Job, s: State) {
    forall i: nat :: i < j.width ==> Node(j.stages, i) in s.slots && Finished(j, s, Node(j.stages, i))
  }

  /** That is enough for the whole job to have finished. */
  lemma {:induction false} LastStageFinishesJob(j: Job, s: State)
    requires ValidJob(j) && Inv(j, s) && LastStageFinished(j, s)
    ensures AllFinished(j, s)
  {
    forall n | IsNode(j, n) ensures n in s.slots && Finished(j, s, n) {
      LastStageFinishesNode(j, s, n);
    }
  }

  lemma {:induction false} LastStageFinishesNode(j: Job, s: State, n: Node)
    requires ValidJob(j) && Inv(j, s) && LastStageFinished(j, s) && IsNode(j, n)
    ensures n in s.slots && Finished(j, s, n)
  {
    if n.stage < j.stages {
      var last := Node(j.stages, 0);
      assert last in s.slots && Finished(j, s, last);
      ClosedMeansEarlierFinished(j, s, last, n);
    } else {
      assert n == Node(j.stages, n.index);
    }
  }

  /** The entries for task `n` among the numbered lines of node `u`. */
  function Routed(j: Job, u: Node, lines: seq<string>, n: Node): seq<Entry>
    requires ValidJob(j)
  {
    if lines == [] then [] else
      var m := Message(u, |lines|, lines[|lines| - 1]);
      Routed(j, u, lines[..|lines| - 1], n) + if Target(j, m) == n then [MessageEntry(m)] else []
  }

  /** Line k is the one that goes to the task as this entry. */
  predicate RoutedAt(j: Job, u: Node, lines: seq<string>, n: Node, e: Entry, k: nat)
    requires ValidJob(j)
  {
    k < |lines| && Target(j, Message(u, k + 1, lines[k])) == n && MessageEntry(Message(u, k + 1, lines[k])) == e
  }

  lemma {:induction false} RoutedMember(j: Job, u: Node, lines: seq<string>, n: Node, e: Entry)
    requires ValidJob(j)
    ensures e in Routed(j, u, lines, n) <==> exists k: nat :: RoutedAt(j, u, lines, n, e, k)
  {
    if lines != [] {
      var last := |lines| - 1;
      var front := lines[..last];
      RoutedMember(j, u, front, n, e);
      if k: nat :| RoutedAt(j, u, lines, n, e, k) {
        assert k < last ==> RoutedAt(j, u, front, n, e, k);
      }
      if e in Routed(j, u, front, n) {
        var k: nat :| RoutedAt(j, u, front, n, e, k);
        assert RoutedAt(j, u, lines, n, e, k);
      } else if e in Routed(j, u, lines, n) {
        assert RoutedAt(j, u, lines, n, e, last);
      }
    }
  }

  lemma {:induction false} RoutedDistinct(j: Job, u: Node, lines: seq<string>, n: Node)
    requires ValidJob(j)
    ensures Distinct(Routed(j, u, lines, n))
  {
    if lines != [] {
      var last := |lines| - 1;
      RoutedDistinct(j, u, lines[..last], n);
      RoutedMember(j, u, lines[..last], n, MessageEntry(Message(u, |lines|, lines[last])));
    }
  }

  function Up(n: Node, i: nat): Node
    requires n.stage > 0
  {
    Node(n.stage - 1, i)
  }

  /** The entries for task `n` among the lines printed by each node upstream. */
  ghost function Shares(j: Job, s: State, n: Node): nat -> seq<Entry>
    requires ValidJob(j) && n.stage > 0
  {
    (i: nat) => if Up(n, i) in s.slots then Routed(j, Up(n, i), Printed(j, s, Up(n, i)), n) else []
  }

  /** All that was printed for task `n`. */
  ghost function Inflow(j: Job, s: State, n: Node): seq<Entry>
    requires ValidJob(j) && n.stage > 0
  {
    ConcatAll(Shares(j, s, n), UpstreamCount(j, n.stage))
  }

  /** An entry names its sender. */
  lemma {:induction false} ShareNamesSender(j: Job, s: State, n: Node, i: nat, e: Entry)
    requires ValidJob(j) && n.stage > 0 && e in Shares(j, s, n)(i)
    ensures n.stage > 1 ==> e.id.OutputId? && e.id.task == i
  {
    RoutedMember(j, Up(n, i), Printed(j, s, Up(n, i)), n, e);
  }

  lemma {:induction false} InflowDistinct(j: Job, s: State, n: Node)
    requires ValidJob(j) && n.stage > 0
    ensures Distinct(Inflow(j, s, n))
  {
    var shares := Shares(j, s, n);
    forall i: nat ensures Distinct(shares(i)) {
      if Up(n, i) in s.slots {
        RoutedDistinct(j, Up(n, i), Printed(j, s, Up(n, i)), n);
      }
    }
    forall i: nat, k: nat, e | i < k < UpstreamCount(j, n.stage) && e in shares(i) ensures e !in shares(k) {
      ShareNamesSender(j, s, n, i, e);
      if e in shares(k) {
        ShareNamesSender(j, s, n, k, e);
      }
    }
    ConcatAllDistinct(shares, UpstreamCount(j, n.stage));
  }

  /** In a finished job, the log of a task is a permutation of all that was printed for it upstream. */
  lemma {:induction false} LogIsInflow(j: Job, s: State, n: Node)
    requires ValidJob(j) && Inv(j, s) && AllFinished(j, s) && IsNode(j, n) && n.stage > 0
    ensures n in s.slots && Permutation(s.slots[n].task.log, Inflow(j, s, n))
  {
    var log, inflow := s.slots[n].task.log, Inflow(j, s, n);
    assert TaskInv(j, s, n);
    InflowDistinct(j, s, n);
    forall e ensures e in log <==> e in inflow {
      ConcatAllMember(Shares(j, s, n), UpstreamCount(j, n.stage), e);
      if e in log {
        LoggedIsShared(j, s, n, e);
      }
      if e in inflow {
        var i: nat :| i < UpstreamCount(j, n.stage) && e in Shares(j, s, n)(i);
        assert IsNode(j, Up(n, i));
        SharedIsLogged(j, s, n, i, e);
      }
    }
    DistinctSameElements(log, inflow);
  }

  lemma {:induction false} SentIsPrinted(j: Job, s: State, m: Message)
    requires SentInv(j, s, m) && Finished(j, s, m.from) && (m.from.stage > 0 ==> TaskInv(j, s, m.from))
    ensures 1 <= m.number <= |Printed(j, s, m.from)| && m.line == Printed(j, s, m.from)[m.number - 1]
  {
  }

  lemma {:induction false} PrintedIsShared(j: Job, s: State, n: Node, m: Message)
    requires ValidJob(j) && n.stage > 0 && m.from in s.slots && Target(j, m) == n
    requires 1 <= m.number <= |Printed(j, s, m.from)| && m.line == Printed(j, s, m.from)[m.number - 1]
    ensures m.from == Up(n, m.from.index) && MessageEntry(m) in Shares(j, s, n)(m.from.index)
  {
    var k := m.number - 1;
    assert m == Message(m.from, k + 1, Printed(j, s, m.from)[k]);
    RoutedMember(j, m.from, Printed(j, s, m.from), n, MessageEntry(m));
    assert RoutedAt(j, m.from, Printed(j, s, m.from), n, MessageEntry(m), k);
  }

  lemma {:induction false} LoggedIsShared(j: Job, s: State, n: Node, e: Entry)
    requires ValidJob(j) && Inv(j, s) && AllFinished(j, s) && IsNode(j, n) && n.stage > 0
    requires e in s.slots[n].task.log
    ensures exists i: nat :: i < UpstreamCount(j, n.stage) && e in Shares(j, s, n)(i)
  {
    var m := SenderOf(j, s, n, e);
    SentIsShared(j, s, n, m);
  }

  lemma {:induction false} SentIsShared(j: Job, s: State, n: Node, m: Message)
    requires ValidJob(j) && s.slots.Keys == Nodes(j) && AllFinished(j, s) && SentInv(j, s, m)
    requires m.from.stage > 0 ==> TaskInv(j, s, m.from)
    requires Target(j, m) == n
    ensures exists i: nat :: i < UpstreamCount(j, n.stage) && MessageEntry(m) in Shares(j, s, n)(i)
  {
    assert IsNode(j, m.from);
    SentIsPrinted(j, s, m);
    PrintedIsShared(j, s, n, m);
  }

  lemma {:induction false} SenderOf(j: Job, s: State, n: Node, e: Entry) returns (m: Message)
    requires ValidJob(j) && TasksInv(j, s) && MessagesInv(j, s)
    requires n in s.slots && n.stage > 0 && e in s.slots[n].task.log
    ensures m in s.sent && Target(j, m) == n && MessageEntry(m) == e && SentInv(j, s, m)
    ensures m.from.stage > 0 ==> TaskInv(j, s, m.from)
  {
    assert LogInv(j, s, n);
    m :| m in s.sent && Target(j, m) == n && MessageEntry(m) == e;
    assert SentInv(j, s, m);
  }

  lemma {:induction false} SharedIsLogged(j: Job, s: State, n: Node, i: nat, e: Entry)
    requires ValidJob(j) && MessagesInv(j, s) && AllFinished(j, s) && n in s.slots
    requires 0 < n.stage <= j.stages && Up(n, i) in s.slots && IsNode(j, Up(n, i)) && EmitInv(j, s, Up(n, i))
    requires e in Shares(j, s, n)(i)
    ensures e in s.slots[n].task.log
  {
    var u := Up(n, i);
    var lines := Printed(j, s, u);
    RoutedMember(j, u, lines, n, e);
    var k: nat :| RoutedAt(j, u, lines, n, e, k);
    assert Finished(j, s, u);
    assert Message(u, k + 1, lines[k]) in s.acked;
    assert AckedInv(j, s, Message(u, k + 1, lines[k]));
  }

  // ---------------------------------------------------------------- schedule independence

  /** What task `index` receives from a stage's printed line. */
  function RouteEmit(j: Job, index: nat): Emit
    requires ValidJob(j)
  {
    (history, line) => if j.hash(LineKey(line)) % j.width == index then [LineValue(line)] else []
  }

  lemma {:induction false} RoutedValues(j: Job, u: Node, lines: seq<string>, n: Node)
    requires ValidJob(j) && u.stage > 0 && n.stage == u.stage + 1
    ensures Values(Routed(j, u, lines, n)) == Out(RouteEmit(j, n.index), lines)
  {
    if lines != [] {
      var last := |lines| - 1;
      RoutedValues(j, u, lines[..last], n);
      var m := Message(u, |lines|, lines[last]);
      MapOfConcat((e: Entry) => e.value, Routed(j, u, lines[..last], n),
                  if Target(j, m) == n then [MessageEntry(m)] else []);
    }
  }

  /** The values that each node upstream prints for task `n`, without order. */
  ghost function ShareBags(j: Job, s: State, n: Node): nat -> multiset<string>
    requires ValidJob(j) && n.stage > 0
  {
    (i: nat) => multiset(Values(Shares(j, s, n)(i)))
  }

  lemma {:induction false} ShareBagIsRouted(j: Job, s: State, n: Node, i: nat)
    requires ValidJob(j) && n.stage > 1 && Up(n, i) in s.slots
    ensures ShareBags(j, s, n)(i) == multiset(Out(RouteEmit(j, n.index), Printed(j, s, Up(n, i))))
  {
    RoutedValues(j, Up(n, i), Printed(j, s, Up(n, i)), n);
    assert Shares(j, s, n)(i) == Routed(j, Up(n, i), Printed(j, s, Up(n, i)), n);
  }

  /** The values on record at a task of a finished job are those printed for it upstream. */
  lemma {:induction false} RecordIsInflow(j: Job, s: State, n: Node)
    requires ValidJob(j) && Inv(j, s) && AllFinished(j, s) && IsNode(j, n) && n.stage > 0
    ensures n in s.slots
    ensures multiset(Received(j, s, n)) == SumBags(ShareBags(j, s, n), UpstreamCount(j, n.stage))
  {
    LogIsInflow(j, s, n);
    assert TaskInv(j, s, n);
    FinishedReceivedAll(j, s, n);
    MapPermutation((e: Entry) => e.value, s.slots[n].task.log, Inflow(j, s, n));
    ConcatAllBags((e: Entry) => e.value, Shares(j, s, n), ShareBags(j, s, n), UpstreamCount(j, n.stage));
  }

  ghost predicate OrderInsensitiveJob(j: Job) {
    forall stage: nat :: 1 <= stage <= j.stages ==> OrderInsensitive(j.operators(stage))
  }

  /** Every task has exactly what was printed for it upstream. */
  ghost predicate Settled(j: Job, s: State)
    requires ValidJob(j)
  {
    forall n :: IsNode(j, n) ==>
      && n in s.slots
      && (n.stage > 0 ==> multiset(Received(j, s, n)) == SumBags(ShareBags(j, s, n), UpstreamCount(j, n.stage)))
  }

  lemma {:induction false} FinishedIsSettled(j: Job, s: State)
    requires ValidJob(j) && Inv(j, s) && AllFinished(j, s)
    ensures Settled(j, s)
  {
    forall n | IsNode(j, n)
      ensures n in s.slots
      ensures n.stage > 0 ==> multiset(Received(j, s, n)) == SumBags(ShareBags(j, s, n), UpstreamCount(j, n.stage))
    {
      if n.stage > 0 {
        RecordIsInflow(j, s, n);
      }
    }
  }

  /** By induction over the stages, two finished runs of the same job give every task the
      same input and the same output, up to order. */
  lemma {:induction false} SettledRunsAgree(j: Job, a: State, b: State, n: Node)
    requires ValidJob(j) && OrderInsensitiveJob(j) && Settled(j, a) && Settled(j, b)
    requires IsNode(j, n)
    ensures n in a.slots && n in b.slots
    ensures Permutation(Received(j, a, n), Received(j, b, n))
    ensures Permutation(Printed(j, a, n), Printed(j, b, n))
    decreases n.stage
  {
    if n.stage > 0 {
      forall i: nat | i < UpstreamCount(j, n.stage)
        ensures ShareBags(j, a, n)(i) == ShareBags(j, b, n)(i)
      {
        SettledRunsAgree(j, a, b, Up(n, i));
        SharesAgree(j, a, b, n, i);
      }
      SumBagsSame(ShareBags(j, a, n), ShareBags(j, b, n), UpstreamCount(j, n.stage));
      assert OrderInsensitive(j.operators(n.stage));
    }
  }

  lemma {:induction false} SharesAgree(j: Job, a: State, b: State, n: Node, i: nat)
    requires ValidJob(j) && n.stage > 0 && Up(n, i) in a.slots && Up(n, i) in b.slots
    requires Permutation(Printed(j, a, Up(n, i)), Printed(j, b, Up(n, i)))
    ensures ShareBags(j, a, n)(i) == ShareBags(j, b, n)(i)
  {
    if n.stage == 1 {
      assert Printed(j, a, Up(n, i)) == Printed(j, b, Up(n, i));
      assert Shares(j, a, n)(i) == Shares(j, b, n)(i);
    } else {
      ShareBagIsRouted(j, a, n, i);
      ShareBagIsRouted(j, b, n, i);
      StatelessPermutation(RouteEmit(j, n.index), Printed(j, a, Up(n, i)), Printed(j, b, Up(n, i)));
    }
  }

  // ---------------------------------------------------------------- the output file

  function OutputLines(output: seq<Message>): seq<string> {
    Map((m: Message) => m.line, output)
  }

  /** The lines of each task of a stage. */
  function TaskBags(output: seq<Message>, stage: nat): nat -> multiset<string> {
    (i: nat) => multiset(OutputOf(output, Node(stage, i)))
  }

  lemma {:induction false} OutputIsTasksOutput(output: seq<Message>, stage: nat, count: nat)
    requires forall m :: m in output ==> m.from.stage == stage && m.from.index < count
    ensures multiset(OutputLines(output)) == SumBags(TaskBags(output, stage), count)
  {
    if output == [] {
      SumBagsEmpty(TaskBags(output, stage), count);
    } else {
      var k := |output| - 1;
      assert output == output[..k] + [output[k]];
      OutputIsTasksOutput(output[..k], stage, count);
      SumBagsAdd(TaskBags(output[..k], stage), TaskBags(output, stage), count, output[k].from.index,
        multiset{output[k].line});
      MapMultisetSnoc((m: Message) => m.line, output[..k], output[k]);
    }
  }

  lemma {:induction false} FinalOutput(j: Job, s: State)
    requires ValidJob(j) && Inv(j, s) && AllFinished(j, s)
    ensures multiset(OutputLines(s.output)) == SumBags(TaskBags(s.output, j.stages), j.width)
    ensures forall i: nat :: i < j.width ==>
      Node(j.stages, i) in s.slots && OutputOf(s.output, Node(j.stages, i)) == Printed(j, s, Node(j.stages, i))
  {
    assert forall m :: m in s.output ==> IsNode(j, m.from);
    OutputIsTasksOutput(s.output, j.stages, j.width);
    forall i: nat | i < j.width
      ensures Node(j.stages, i) in s.slots && OutputOf(s.output, Node(j.stages, i)) == Printed(j, s, Node(j.stages, i))
    {
      assert IsNode(j, Node(j.stages, i));
      assert OutputInv(j, s, Node(j.stages, i));
    }
  }

  /**
   * Schedule independence. For operators whose output does not depend on the order of
   * their input, every two runs in which the last stage has finished, whatever the
   * interleaving, the retries and the crashes of tasks before the last stage, leave the same
   * lines in the output file.
   */
  lemma {:induction false} ScheduleIndependence(j: Job, stepsA: seq<Step>, stepsB: seq<Step>)
    requires ValidJob(j) && OrderInsensitiveJob(j)
    requires LastStageFinished(j, Run(j, stepsA)) && LastStageFinished(j, Run(j, stepsB))
    ensures Permutation(OutputLines(Run(j, stepsA).output), OutputLines(Run(j, stepsB).output))
  {
    RunKeepsInv(j, stepsA);
    RunKeepsInv(j, stepsB);
    var a, b := Run(j, stepsA), Run(j, stepsB);
    LastStageFinishesJob(j, a);
    LastStageFinishesJob(j, b);
    FinalOutput(j, a);
    FinalOutput(j, b);
    FinishedIsSettled(j, a);
    FinishedIsSettled(j, b);
    forall i: nat | i < j.width
      ensures Permutation(OutputOf(a.output, Node(j.stages, i)), OutputOf(b.output, Node(j.stages, i)))
    {
      SettledRunsAgree(j, a, b, Node(j.stages, i));
    }
    SumBagsSame(TaskBags(a.output, j.stages), TaskBags(b.output, j.stages), j.width);
  }
}
