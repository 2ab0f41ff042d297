/**
 * A whole job as a step system: a source, stages of tasks with one operator per stage,
 * numbered and hashed outputs, retries with lost replies, appends that fail or are made and
 * reported as failed, operators that die while their task stays registered, kills and
 * restarts of the tasks of every stage but the last, the replay line by line beside new
 * pushes, and the end-of-stream protocol. A list of steps is a run; a step that is not
 * enabled changes nothing, so every list is a run.
 *
 * The environment is held to the conditions under which a single task keeps its log and
 * input in order (InOrder below): no push repeats a logged ID, tuples are written in turn,
 * and the last end of stream comes to a living operator after its replay. TaskLimits shows
 * that each is exact. Beyond that, replies to end-of-stream tuples are not lost and output
 * appends succeed.
 */
module Pipeline {
  import opened Text
  import opened Operators
  import opened Delivery
  import opened OrderlyTask

  /** Task `index` of a stage; the source is Node(0, 0). */
  datatype Node = Node(stage: nat, index: nat)

  /** Output line `number` of a node, counted from 1. */
  datatype Message = Message(from: Node, number: nat, line: string)

  datatype Job = Job(
    stages: nat,
    width: nat,
    source: seq<string>,
    operators: nat -> Emit,
    hash: string -> nat)

  datatype Slot = Slot(task: Task, registered: bool)

  /** `sent` holds every message a sender goroutine was started for, `acked` those whose
      sender saw a success reply, `eos` the (sender, receiver) pairs of delivered end-of-stream
      tuples, and `output` the lines appended to the output file. */
  datatype State = State(
    slots: map<Node, Slot>,
    sent: set<Message>,
    acked: set<Message>,
    eos: set<(Node, Node)>,
    output: seq<Message>)

  datatype Step =
    | EmitLine(node: Node)
    | Deliver(message: Message, outcome: AppendOutcome, replyLost: bool)
    | SendEos(node: Node, index: nat)
    | OperatorDies(node: Node)
    | Kill(node: Node)
    | Restart(node: Node)
    | ReplayLine(node: Node)

  predicate ValidJob(j: Job) {
    j.stages >= 1 && j.width >= 1
  }

  predicate IsNode(j: Job, n: Node) {
    n == Node(0, 0) || (1 <= n.stage <= j.stages && n.index < j.width)
  }

  function Nodes(j: Job): (r: set<Node>)
    ensures forall n :: n in r <==> IsNode(j, n)
  {
    {Node(0, 0)} + set s: nat, i: nat | 1 <= s <= j.stages && i < j.width :: Node(s, i)
  }

  /** startAllTasks: the source is the one upstream of stage 1. */
  function UpstreamCount(j: Job, stage: nat): nat {
    if stage == 1 then 1 else j.width
  }

  function Emitter(j: Job, stage: nat): Emit {
    if stage == 0 then Identity() else j.operators(stage)
  }

  // ---------------------------------------------------------------- messages

  /** handleTaskOutput: what stands before and after the first tab; the whole line twice
      when there is none. */
  function LineKey(line: string): string {
    match IndexOf(line, '\t')
    case None => line
    case Some(i) => line[..i]
  }

  function LineValue(line: string): string {
    match IndexOf(line, '\t')
    case None => line
    case Some(i) => line[i + 1..]
  }

  /** A line with a tab is taken apart at the first one; a line without goes on as it is. */
  lemma {:induction false} LineParts(line: string)
    ensures '\t' in line ==> line == LineKey(line) + "\t" + LineValue(line) && '\t' !in LineKey(line)
    ensures '\t' !in line ==> LineKey(line) == line && LineValue(line) == line
  {
    if '\t' in line {
      var i := IndexOf(line, '\t').value;
      assert line == line[..i] + [line[i]] + line[i + 1..];
    }
  }

  /** The task that receives a message: by sequence number from the source, by key hash
      from a task. */
  function Target(j: Job, m: Message): Node
    requires ValidJob(j)
  {
    if m.from.stage == 0 then Node(1, m.number % j.width)
    else Node(m.from.stage + 1, j.hash(LineKey(m.line)) % j.width)
  }

  function MessageEntry(m: Message): Entry {
    if m.from.stage == 0 then Entry(SourceId(m.number), m.line)
    else Entry(OutputId(m.from.stage, m.from.index, m.number), LineValue(m.line))
  }

  // ---------------------------------------------------------------- what a node has seen and printed

  /** The input of the current incarnation's operator. */
  function Received(j: Job, s: State, n: Node): seq<string>
    requires n in s.slots
  {
    if n.stage == 0 then j.source else Values(s.slots[n].task.stdin)
  }

  /** The input on durable record. */
  function Recorded(j: Job, s: State, n: Node): seq<string>
    requires n in s.slots
  {
    if n.stage == 0 then j.source else Values(s.slots[n].task.log)
  }

  function Printed(j: Job, s: State, n: Node): seq<string>
    requires n in s.slots
  {
    Out(Emitter(j, n.stage), Received(j, s, n))
  }

  /** handleTaskOutput past its wait for acknowledgements with a success verdict; for the
      source, StartSource past its own wait. */
  ghost predicate Finished(j: Job, s: State, n: Node)
    requires n in s.slots
  {
    var slot := s.slots[n];
    && (n.stage > 0 ==> slot.registered && ClosedByEos(slot.task))
    && slot.task.seqNum == |Printed(j, s, n)|
    && (n.stage < j.stages ==> forall m :: m in s.sent && m.from == n ==> m in s.acked)
  }

  // ---------------------------------------------------------------- steps

  function Init(j: Job): State {
    State(map n | n in Nodes(j) :: Slot(Start([], UpstreamCount(j, n.stage), true), true), {}, {}, {}, [])
  }

  /** What can happen at this moment. */
  ghost predicate Possible(j: Job, s: State, step: Step)
    requires ValidJob(j)
  {
    match step
    case EmitLine(n) => n in s.slots && s.slots[n].task.seqNum < |Printed(j, s, n)|
    case Deliver(m, _, _) => m in s.sent && Target(j, m) in s.slots && s.slots[Target(j, m)].registered
    case SendEos(u, i) =>
      var n := Node(u.stage + 1, i);
      u in s.slots && n in s.slots && Finished(j, s, u) && (u, n) !in s.eos && s.slots[n].registered
    case OperatorDies(n) => n in s.slots && 0 < n.stage < j.stages && s.slots[n].task.open
    case Kill(n) =>
      n in s.slots && 0 < n.stage < j.stages && s.slots[n].registered && !ClosedByEos(s.slots[n].task)
    case Restart(n) =>
      n in s.slots && 0 < n.stage < j.stages && !s.slots[n].task.open && !ClosedByEos(s.slots[n].task)
    case ReplayLine(n) => n in s.slots && 0 < n.stage && s.slots[n].registered
  }

  /** What the environment is held to. */
  predicate InOrder(j: Job, s: State, step: Step)
    requires ValidJob(j)
  {
    match step
    case Deliver(m, outcome, _) =>
      Target(j, m) in s.slots ==>
        var t, e := s.slots[Target(j, m)].task, MessageEntry(m);
        KeepsLogDistinct(t, e.id, outcome) && ComesInTurn(t, e, outcome)
    case SendEos(u, i) => Node(u.stage + 1, i) in s.slots ==> LastEosInTurn(s.slots[Node(u.stage + 1, i)].task)
    case _ => true
  }

  ghost predicate Enabled(j: Job, s: State, step: Step)
    requires ValidJob(j)
  {
    Possible(j, s, step) && InOrder(j, s, step)
  }

  ghost function Act(j: Job, s: State, step: Step): State
    requires ValidJob(j) && Possible(j, s, step)
  {
    match step
    case EmitLine(n) =>
      var slot := s.slots[n];
      var m := Message(n, slot.task.seqNum + 1, Printed(j, s, n)[slot.task.seqNum]);
      var s' := s.(slots := s.slots[n := slot.(task := slot.task.(seqNum := slot.task.seqNum + 1))]);
      if n.stage < j.stages then s'.(sent := s.sent + {m}) else s'.(output := s.output + [m])
    case Deliver(m, outcome, replyLost) =>
      var n, e := Target(j, m), MessageEntry(m);
      var slot := s.slots[n];
      var p := Push(slot.task, Data(e.id, e.value), outcome);
      s.(slots := s.slots[n := slot.(task := p.task)],
         acked := if p.reply.Success? && !replyLost then s.acked + {m} else s.acked)
    case SendEos(u, i) =>
      var n := Node(u.stage + 1, i);
      var slot := s.slots[n];
      s.(slots := s.slots[n := slot.(task := Push(slot.task, Eos, Appended).task)], eos := s.eos + {(u, n)})
    case OperatorDies(n) => s.(slots := s.slots[n := s.slots[n].(task := s.slots[n].task.(open := false))])
    case Kill(n) => s.(slots := s.slots[n := Slot(s.slots[n].task.(open := false), false)])
    case Restart(n) =>
      var t := s.slots[n].task;
      s.(slots := s.slots[n := Slot(Start(t.log, t.numUpstream, t.hasLogFile), true)])
    case ReplayLine(n) =>
      s.(slots := s.slots[n := s.slots[n].(task := ReplayOwn(s.slots[n].task))])
  }

  ghost function Next(j: Job, s: State, step: Step): State
    requires ValidJob(j)
  {
    if Enabled(j, s, step) then Act(j, s, step) else s
  }

  ghost function Run(j: Job, steps: seq<Step>): State
    requires ValidJob(j)
  {
    if steps == [] then Init(j) else Next(j, Run(j, steps[..|steps| - 1]), steps[|steps| - 1])
  }

  // ---------------------------------------------------------------- invariant

  ghost function EosSenders(s: State, n: Node): set<Node> {
    set p | p in s.eos && p.1 == n :: p.0
  }

  function FirstNodes(stage: nat, count: nat): (r: set<Node>)
    ensures |r| == count
    ensures forall n :: n in r <==> n.stage == stage && n.index < count
  {
    if count == 0 then {} else FirstNodes(stage, count - 1) + {Node(stage, count - 1)}
  }

  function UpstreamNodes(j: Job, stage: nat): (r: set<Node>)
    requires stage > 0
    ensures |r| == UpstreamCount(j, stage)
  {
    FirstNodes(stage - 1, UpstreamCount(j, stage))
  }

  /** One task: log and input are in order, and each end of stream that it has counted came from another sender. */
  ghost predicate TaskInv(j: Job, s: State, n: Node)
    requires n in s.slots
  {
    var t := s.slots[n].task;
    && t.hasLogFile
    && t.numUpstream == UpstreamCount(j, n.stage)
    && Orderly(t)
    && t.eosCount <= |EosSenders(s, n)|
  }

  /** Every entry of the log is a message somebody sent to this task. */
  ghost predicate LogInv(j: Job, s: State, n: Node)
    requires ValidJob(j) && n in s.slots
  {
    forall e :: e in s.slots[n].task.log ==> exists m :: m in s.sent && Target(j, m) == n && MessageEntry(m) == e
  }

  /** The numbered outputs are a prefix of what is printed, and all were sent. */
  ghost predicate EmitInv(j: Job, s: State, n: Node)
    requires n in s.slots
  {
    var k := s.slots[n].task.seqNum;
    && k <= |Printed(j, s, n)|
    && (n.stage < j.stages ==> forall i :: 0 <= i < k ==> Message(n, i + 1, Printed(j, s, n)[i]) in s.sent)
  }

  /** A message carries the line its number has in the sender's durable record. */
  ghost predicate SentInv(j: Job, s: State, m: Message) {
    && m.from in s.slots
    && m.from.stage < j.stages
    && var lines := Out(Emitter(j, m.from.stage), Recorded(j, s, m.from));
       1 <= m.number <= |lines| && m.line == lines[m.number - 1]
  }

  ghost predicate AckedInv(j: Job, s: State, m: Message)
    requires ValidJob(j)
  {
    && m in s.sent && Target(j, m) in s.slots
    && var t := s.slots[Target(j, m)].task;
       MessageEntry(m) in t.log && MessageEntry(m).id in t.processed
  }

  ghost predicate EosInv(j: Job, s: State, p: (Node, Node)) {
    p.0 in s.slots && p.1 in s.slots && p.1.stage > 0 && p.0 in UpstreamNodes(j, p.1.stage) && Finished(j, s, p.0)
  }

  ghost predicate EosAllInv(j: Job, s: State) {
    forall p :: p in s.eos ==> EosInv(j, s, p)
  }

  /** The lines one node has appended to the output file. */
  function OutputOf(output: seq<Message>, n: Node): seq<string> {
    if output == [] then [] else
      var last := output[|output| - 1];
      OutputOf(output[..|output| - 1], n) + if last.from == n then [last.line] else []
  }

  ghost predicate OutputInv(j: Job, s: State, n: Node)
    requires n in s.slots
  {
    n.stage == j.stages ==>
      && s.slots[n].registered
      && s.slots[n].task.seqNum <= |Printed(j, s, n)|
      && OutputOf(s.output, n) == Printed(j, s, n)[..s.slots[n].task.seqNum]
  }

  ghost predicate TasksInv(j: Job, s: State)
    requires ValidJob(j)
  {
    forall n :: n in s.slots && n.stage > 0 ==> TaskInv(j, s, n) && LogInv(j, s, n)
  }

  ghost predicate OutputsInv(j: Job, s: State) {
    forall n :: n in s.slots ==> EmitInv(j, s, n) && OutputInv(j, s, n)
  }

  ghost predicate OutputLinesInv(j: Job, s: State) {
    forall m :: m in s.output ==> m.from in s.slots && m.from.stage == j.stages
  }

  ghost predicate MessagesInv(j: Job, s: State)
    requires ValidJob(j)
  {
    && (forall m :: m in s.sent ==> SentInv(j, s, m))
    && (forall m :: m in s.acked ==> AckedInv(j, s, m))
  }

  ghost predicate Inv(j: Job, s: State)
    requires ValidJob(j)
  {
    && s.slots.Keys == Nodes(j)
    && TasksInv(j, s)
    && OutputsInv(j, s)
    && OutputLinesInv(j, s)
    && MessagesInv(j, s)
    && EosAllInv(j, s)
  }

  // ---------------------------------------------------------------- the end-of-stream barrier

  lemma {:induction false} SubsetCardinality<T>(a: set<T>, b: set<T>)
    requires a <= b
    ensures |a| <= |b|
    ensures |a| == |b| ==> a == b
  {
    assert b == a + (b - a);
  }

  lemma {:induction false} EosSendersAreUpstream(j: Job, s: State, n: Node)
    requires EosAllInv(j, s) && n.stage > 0
    ensures EosSenders(s, n) <= UpstreamNodes(j, n.stage)
    ensures |EosSenders(s, n)| <= UpstreamCount(j, n.stage)
    ensures |EosSenders(s, n)| == UpstreamCount(j, n.stage) ==> EosSenders(s, n) == UpstreamNodes(j, n.stage)
  {
    SubsetCardinality(EosSenders(s, n), UpstreamNodes(j, n.stage));
  }

  /** Once the end of stream has closed the stdin of a task, every node upstream has finished. */
  lemma {:induction false} ClosedMeansUpstreamFinished(j: Job, s: State, n: Node, u: Node)
    requires EosAllInv(j, s) && n in s.slots && n.stage > 0 && TaskInv(j, s, n)
    requires ClosedByEos(s.slots[n].task)
    requires u in UpstreamNodes(j, n.stage)
    ensures u in s.slots && Finished(j, s, u)
  {
    EosSendersAreUpstream(j, s, n);
    assert u in EosSenders(s, n);
  }

  /** The barrier: when the end of stream has closed the stdin of a task, every message sent towards it has
      been accepted. */
  lemma {:induction false} ClosedMeansAllReceived(j: Job, s: State, n: Node, m: Message)
    requires ValidJob(j) && s.slots.Keys == Nodes(j)
    requires EosAllInv(j, s) && n in s.slots && n.stage > 0 && TaskInv(j, s, n)
    requires ClosedByEos(s.slots[n].task)
    requires m in s.sent && Target(j, m) == n && SentInv(j, s, m)
    requires m in s.acked ==> AckedInv(j, s, m)
    ensures m in s.acked && MessageEntry(m) in s.slots[n].task.log
  {
    assert IsNode(j, m.from);
    ClosedMeansUpstreamFinished(j, s, n, m.from);
  }

  // ---------------------------------------------------------------- every step keeps the invariant

  lemma {:induction false} InitInv(j: Job)
    requires ValidJob(j)
    ensures Inv(j, Init(j))
  {
  }

  /** Sender and number determine a sent message, hence so does its ID. */
  lemma {:induction false} IdDeterminesMessage(j: Job, s: State, m: Message, m': Message)
    requires s.slots.Keys == Nodes(j) && SentInv(j, s, m) && SentInv(j, s, m')
    requires MessageEntry(m).id == MessageEntry(m').id
    ensures m == m'
  {
  }

  lemma {:induction false} LoggedIdMeansLoggedEntry(j: Job, s: State, m: Message)
    requires ValidJob(j) && Inv(j, s) && m in s.sent && Target(j, m) in s.slots
    requires MessageEntry(m).id in Ids(s.slots[Target(j, m)].task.log)
    ensures MessageEntry(m) in s.slots[Target(j, m)].task.log
  {
    var n := Target(j, m);
    var x :| x in s.slots[n].task.log && x.id == MessageEntry(m).id;
    assert LogInv(j, s, n);
    var m' :| m' in s.sent && Target(j, m') == n && MessageEntry(m') == x;
    IdDeterminesMessage(j, s, m, m');
  }

  lemma {:induction false} ValuesPrefix(a: seq<Entry>, b: seq<Entry>)
    requires a <= b
    ensures Values(a) <= Values(b)
  {
  }

  /** A node whose input grows keeps its numbered outputs, its sent messages and its
      share of the output file. */
  lemma {:induction false} GrowthKeepsOutputs(j: Job, s: State, s': State, n: Node)
    requires n in s.slots && n in s'.slots
    requires s.slots[n].task.stdin <= s'.slots[n].task.stdin
    requires s.slots[n].task.seqNum == s'.slots[n].task.seqNum
    requires n.stage == j.stages && s.slots[n].registered ==> s'.slots[n].registered
    requires s.sent <= s'.sent && s.output == s'.output
    requires EmitInv(j, s, n) && OutputInv(j, s, n)
    ensures EmitInv(j, s', n) && OutputInv(j, s', n)
  {
    ValuesPrefix(s.slots[n].task.stdin, s'.slots[n].task.stdin);
    OutPrefix(Emitter(j, n.stage), Received(j, s, n), Received(j, s', n));
  }

  lemma {:induction false} GrowthKeepsSent(j: Job, s: State, s': State, m: Message)
    requires SentInv(j, s, m) && m.from in s'.slots
    requires s.slots[m.from].task.log <= s'.slots[m.from].task.log
    ensures SentInv(j, s', m)
  {
    ValuesPrefix(s.slots[m.from].task.log, s'.slots[m.from].task.log);
    OutPrefix(Emitter(j, m.from.stage), Recorded(j, s, m.from), Recorded(j, s', m.from));
  }

  /** How every step changes the state: one slot, and growing sets of messages. */
  ghost predicate Changes(s: State, s': State, n: Node) {
    && n in s.slots && n in s'.slots
    && s'.slots == s.slots[n := s'.slots[n]]
    && s.slots[n].task.log <= s'.slots[n].task.log
    && s.slots[n].task.processed <= s'.slots[n].task.processed
    && s.sent <= s'.sent && s.acked <= s'.acked && s.eos <= s'.eos
    && (forall m :: m in s'.sent - s.sent ==> m.from == n)
    && (forall p :: p in s'.eos - s.eos ==> p.1 == n)
    && (s'.output == s.output ||
        (s'.output != [] && s'.output[..|s'.output| - 1] == s.output && s'.output[|s'.output| - 1].from == n))
  }

  lemma {:induction false} OtherFinished(j: Job, s: State, s': State, n: Node, u: Node)
    requires Changes(s, s', n) && u in s.slots && u != n && Finished(j, s, u)
    ensures Finished(j, s', u)
  {
  }

  lemma {:induction false} OtherTask(j: Job, s: State, s': State, n: Node, x: Node)
    requires ValidJob(j) && Changes(s, s', n) && x in s.slots && x != n
    requires TaskInv(j, s, x) && LogInv(j, s, x)
    ensures TaskInv(j, s', x) && LogInv(j, s', x)
  {
    assert EosSenders(s', x) == EosSenders(s, x);
    forall e | e in s'.slots[x].task.log
      ensures exists m :: m in s'.sent && Target(j, m) == x && MessageEntry(m) == e
    {
      var m :| m in s.sent && Target(j, m) == x && MessageEntry(m) == e;
      assert m in s'.sent;
    }
  }

  lemma {:induction false} OtherOutputs(j: Job, s: State, s': State, n: Node, x: Node)
    requires Changes(s, s', n) && x in s.slots && x != n && EmitInv(j, s, x) && OutputInv(j, s, x)
    ensures EmitInv(j, s', x) && OutputInv(j, s', x)
  {
    assert s'.slots[x] == s.slots[x] && Printed(j, s', x) == Printed(j, s, x);
    assert OutputOf(s'.output, x) == OutputOf(s.output, x);
  }

  lemma {:induction false} OldSent(j: Job, s: State, s': State, n: Node, m: Message)
    requires Changes(s, s', n) && SentInv(j, s, m)
    ensures SentInv(j, s', m)
  {
    GrowthKeepsSent(j, s, s', m);
  }

  lemma {:induction false} OldAcked(j: Job, s: State, s': State, n: Node, m: Message)
    requires ValidJob(j) && Changes(s, s', n) && AckedInv(j, s, m)
    ensures AckedInv(j, s', m)
  {
  }

  /** What a step has to establish about the one node it touches. */
  ghost predicate LocallySound(j: Job, s: State, s': State, n: Node)
    requires ValidJob(j)
  {
    && Changes(s, s', n)
    && (n.stage > 0 ==> TaskInv(j, s', n) && LogInv(j, s', n))
    && EmitInv(j, s', n) && OutputInv(j, s', n)
    && (forall m :: m in s'.sent - s.sent ==> SentInv(j, s', m))
    && (forall m :: m in s'.acked - s.acked ==> AckedInv(j, s', m))
    && (forall p :: p in s'.eos - s.eos ==> EosInv(j, s', p))
    && (s'.output != s.output ==> n.stage == j.stages)
    && (Finished(j, s, n) ==> Finished(j, s', n))
  }

  lemma {:induction false} LocalNodes(j: Job, s: State, s': State, n: Node)
    requires ValidJob(j) && LocallySound(j, s, s', n)
    ensures s'.slots.Keys == s.slots.Keys
  {
  }

  lemma {:induction false} LocalTasks(j: Job, s: State, s': State, n: Node)
    requires ValidJob(j) && TasksInv(j, s) && LocallySound(j, s, s', n)
    ensures TasksInv(j, s')
  {
    forall x | x in s'.slots && x.stage > 0 ensures TaskInv(j, s', x) && LogInv(j, s', x) {
      if x != n { OtherTask(j, s, s', n, x); }
    }
  }

  lemma {:induction false} LocalOutputLines(j: Job, s: State, s': State, n: Node)
    requires ValidJob(j) && OutputLinesInv(j, s) && LocallySound(j, s, s', n)
    ensures OutputLinesInv(j, s')
  {
    OutputLinesAfter(j, s, s', n);
  }

  lemma {:induction false} OutputLinesAfter(j: Job, s: State, s': State, n: Node)
    requires OutputLinesInv(j, s) && Changes(s, s', n) && (s'.output != s.output ==> n.stage == j.stages)
    ensures OutputLinesInv(j, s')
  {
    forall m | m in s'.output ensures m.from in s'.slots && m.from.stage == j.stages {
      assert s'.output != s.output ==> m in s'.output[..|s'.output| - 1] || m == s'.output[|s'.output| - 1];
      assert m in s.output || m.from == n;
    }
  }

  lemma {:induction false} LocalOutputs(j: Job, s: State, s': State, n: Node)
    requires ValidJob(j) && OutputsInv(j, s) && LocallySound(j, s, s', n)
    ensures OutputsInv(j, s')
  {
    forall x | x in s'.slots ensures EmitInv(j, s', x) && OutputInv(j, s', x) {
      if x != n { OtherOutputs(j, s, s', n, x); }
    }
  }

  lemma {:induction false} LocalMessages(j: Job, s: State, s': State, n: Node)
    requires ValidJob(j) && MessagesInv(j, s) && LocallySound(j, s, s', n)
    ensures MessagesInv(j, s')
  {
    forall m | m in s'.sent ensures SentInv(j, s', m) {
      if m in s.sent { OldSent(j, s, s', n, m); }
    }
    forall m | m in s'.acked ensures AckedInv(j, s', m) {
      if m in s.acked { OldAcked(j, s, s', n, m); }
    }
  }

  lemma {:induction false} LocalEos(j: Job, s: State, s': State, n: Node)
    requires ValidJob(j) && EosAllInv(j, s) && LocallySound(j, s, s', n)
    ensures EosAllInv(j, s')
  {
    forall p | p in s'.eos ensures EosInv(j, s', p) {
      if p in s.eos && p.0 != n { OtherFinished(j, s, s', n, p.0); }
    }
  }

  lemma {:induction false} LocallySoundKeepsInv(j: Job, s: State, s': State, n: Node)
    requires ValidJob(j) && Inv(j, s) && LocallySound(j, s, s', n)
    ensures Inv(j, s')
  {
    LocalNodes(j, s, s', n);
    LocalTasks(j, s, s', n);
    LocalOutputs(j, s, s', n);
    LocalOutputLines(j, s, s', n);
    LocalMessages(j, s, s', n);
    LocalEos(j, s, s', n);
  }

  /** The invariant as far as it concerns one node. */
  ghost predicate NodeInv(j: Job, s: State, n: Node)
    requires ValidJob(j)
  {
    && s.slots.Keys == Nodes(j) && n in s.slots
    && (n.stage > 0 ==> TaskInv(j, s, n) && LogInv(j, s, n))
    && EmitInv(j, s, n) && OutputInv(j, s, n)
  }

  lemma {:induction false} InvOfNode(j: Job, s: State, n: Node)
    requires ValidJob(j) && Inv(j, s) && n in s.slots
    ensures NodeInv(j, s, n)
  {
  }

  lemma {:induction false} LogInvGrows(j: Job, s: State, s': State, n: Node)
    requires ValidJob(j) && n in s.slots && n in s'.slots && LogInv(j, s, n)
    requires s.sent <= s'.sent
    requires forall e :: e in s'.slots[n].task.log && e !in s.slots[n].task.log ==>
      exists m :: m in s'.sent && Target(j, m) == n && MessageEntry(m) == e
    ensures LogInv(j, s', n)
  {
  }

  // ---- printing a line

  lemma {:induction false} RecordedBeginsWithReceived(j: Job, s: State, n: Node)
    requires n in s.slots && (n.stage > 0 ==> TaskInv(j, s, n))
    ensures Printed(j, s, n) <= Out(Emitter(j, n.stage), Recorded(j, s, n))
  {
    if n.stage > 0 {
      ValuesPrefix(s.slots[n].task.stdin, s.slots[n].task.log);
    }
    OutPrefix(Emitter(j, n.stage), Received(j, s, n), Recorded(j, s, n));
  }

  lemma {:induction false} EmitOutputs(j: Job, s: State, n: Node)
    requires ValidJob(j) && n in s.slots && EmitInv(j, s, n) && OutputInv(j, s, n)
    requires Enabled(j, s, EmitLine(n))
    ensures var s' := Act(j, s, EmitLine(n));
      n in s'.slots && EmitInv(j, s', n) && OutputInv(j, s', n) && Changes(s, s', n)
  {
    var s' := Act(j, s, EmitLine(n));
    var k := s.slots[n].task.seqNum;
    var lines := Printed(j, s, n);
    assert Printed(j, s', n) == lines;
    assert lines[..k + 1] == lines[..k] + [lines[k]];
    if n.stage < j.stages {
      forall i | 0 <= i < k + 1 ensures Message(n, i + 1, lines[i]) in s'.sent {
        if i < k {
          assert Message(n, i + 1, lines[i]) in s.sent;
        }
      }
    } else {
      assert s'.output[..|s.output|] == s.output;
    }
  }

  lemma {:induction false} EmitSent(j: Job, s: State, n: Node)
    requires ValidJob(j) && n in s.slots && (n.stage > 0 ==> TaskInv(j, s, n))
    requires Enabled(j, s, EmitLine(n))
    ensures var s' := Act(j, s, EmitLine(n)); forall m :: m in s'.sent - s.sent ==> SentInv(j, s', m)
  {
    RecordedBeginsWithReceived(j, s, n);
    var s' := Act(j, s, EmitLine(n));
    assert Recorded(j, s', n) == Recorded(j, s, n);
  }

  lemma {:induction false} EmitTask(j: Job, s: State, n: Node)
    requires ValidJob(j) && n in s.slots && TaskInv(j, s, n) && LogInv(j, s, n) && Enabled(j, s, EmitLine(n))
    ensures var s' := Act(j, s, EmitLine(n)); n in s'.slots && TaskInv(j, s', n) && LogInv(j, s', n)
  {
  }

  lemma {:induction false} EmitIsSound(j: Job, s: State, n: Node)
    requires ValidJob(j) && NodeInv(j, s, n) && Enabled(j, s, EmitLine(n))
    ensures LocallySound(j, s, Act(j, s, EmitLine(n)), n)
  {
    EmitOutputs(j, s, n);
    EmitSent(j, s, n);
    if n.stage > 0 {
      EmitTask(j, s, n);
    }
    EmitUnfinished(j, s, n);
  }

  lemma {:induction false} EmitUnfinished(j: Job, s: State, n: Node)
    requires ValidJob(j) && n in s.slots && Enabled(j, s, EmitLine(n))
    ensures var s' := Act(j, s, EmitLine(n));
      && !Finished(j, s, n) && s'.acked == s.acked && s'.eos == s.eos
      && (s'.output != s.output ==> n.stage >= j.stages)
  {
  }

  lemma {:induction false} EmitKeepsInv(j: Job, s: State, n: Node)
    requires ValidJob(j) && Inv(j, s) && Enabled(j, s, EmitLine(n))
    ensures Inv(j, Act(j, s, EmitLine(n)))
  {
    EmitIsSound(j, s, n);
    LocallySoundKeepsInv(j, s, Act(j, s, EmitLine(n)), n);
  }

  // ---- a step of one task that goes on

  /** A step that changes one task, which goes on, and lets nothing be printed. */
  ghost predicate TaskSteps(j: Job, s: State, s': State, n: Node) {
    && n in s.slots && n in s'.slots && n.stage > 0
    && s'.slots == s.slots[n := s'.slots[n]]
    && Progress(s.slots[n].task, s'.slots[n].task)
    && (s.slots[n].registered ==>
          s'.slots[n].registered || (n.stage < j.stages && !ClosedByEos(s.slots[n].task)))
    && s'.sent == s.sent && s'.output == s.output && s.acked <= s'.acked && s.eos <= s'.eos
    && forall p :: p in s'.eos - s.eos ==> p.1 == n
  }

  lemma {:induction false} StepKeepsOutputs(j: Job, s: State, s': State, n: Node)
    requires TaskSteps(j, s, s', n) && EmitInv(j, s, n) && OutputInv(j, s, n)
    ensures Changes(s, s', n) && EmitInv(j, s', n) && OutputInv(j, s', n)
  {
    GrowthKeepsOutputs(j, s, s', n);
  }

  lemma {:induction false} StepKeepsFinished(j: Job, s: State, s': State, n: Node)
    requires TaskSteps(j, s, s', n) && Finished(j, s, n)
    ensures Finished(j, s', n)
  {
  }

  lemma {:induction false} TaskStepIsSound(j: Job, s: State, s': State, n: Node)
    requires ValidJob(j) && NodeInv(j, s, n) && TaskSteps(j, s, s', n)
    requires TaskInv(j, s', n) && LogInv(j, s', n)
    requires forall m :: m in s'.acked - s.acked ==> AckedInv(j, s', m)
    requires forall p :: p in s'.eos - s.eos ==> EosInv(j, s', p)
    ensures LocallySound(j, s, s', n)
  {
    StepKeepsOutputs(j, s, s', n);
    if Finished(j, s, n) {
      StepKeepsFinished(j, s, s', n);
    }
  }

  // ---- a push

  lemma {:induction false} PushSteps(
    j: Job, s: State, m: Message, outcome: AppendOutcome, replyLost: bool)
    requires ValidJob(j) && Enabled(j, s, Deliver(m, outcome, replyLost)) && NodeInv(j, s, Target(j, m))
    requires var t := s.slots[Target(j, m)].task; ClosedByEos(t) ==> MessageEntry(m).id in t.processed
    ensures var n, e, s' := Target(j, m), MessageEntry(m), Act(j, s, Deliver(m, outcome, replyLost));
      && TaskSteps(j, s, s', n) && s'.eos == s.eos
      && var t, p := s.slots[n].task, Push(s.slots[n].task, Data(e.id, e.value), outcome);
         s'.slots[n].task == p.task && s'.acked == if p.reply.Success? && !replyLost then s.acked + {m} else s.acked
  {
    var n, e, s' := Target(j, m), MessageEntry(m), Act(j, s, Deliver(m, outcome, replyLost));
    PushIsOrderly(s.slots[n].task, e, outcome);
    assert s'.slots[n] == s.slots[n].(task := Push(s.slots[n].task, Data(e.id, e.value), outcome).task);
    assert s'.slots == s.slots[n := s'.slots[n]];
  }

  lemma {:induction false} PushedTask(j: Job, s: State, s': State, m: Message, outcome: AppendOutcome)
    requires ValidJob(j) && m in s.sent && NodeInv(j, s, Target(j, m)) && TaskSteps(j, s, s', Target(j, m))
    requires var t, e := s.slots[Target(j, m)].task, MessageEntry(m);
      && KeepsLogDistinct(t, e.id, outcome) && ComesInTurn(t, e, outcome)
      && (ClosedByEos(t) ==> e.id in t.processed) && (e.id in t.processed ==> e in t.log)
      && var p := Push(t, Data(e.id, e.value), outcome);
         && s'.slots[Target(j, m)].task == p.task && s'.eos == s.eos
         && s'.acked <= if p.reply.Success? then s.acked + {m} else s.acked
    ensures TaskInv(j, s', Target(j, m)) && LogInv(j, s', Target(j, m))
    ensures m in s'.acked - s.acked ==> AckedInv(j, s', m)
  {
    var n, e := Target(j, m), MessageEntry(m);
    var t, t' := s.slots[n].task, s'.slots[n].task;
    PushIsOrderly(t, e, outcome);
    assert e in t'.log || t'.log == t.log;
    assert EosSenders(s', n) == EosSenders(s, n);
    LogInvGrows(j, s, s', n);
  }

  lemma {:induction false} PushIsSound(
    j: Job, s: State, m: Message, outcome: AppendOutcome, replyLost: bool)
    requires ValidJob(j) && Enabled(j, s, Deliver(m, outcome, replyLost)) && NodeInv(j, s, Target(j, m))
    requires var t, e := s.slots[Target(j, m)].task, MessageEntry(m);
      (ClosedByEos(t) ==> e.id in t.processed) && (e.id in t.processed ==> e in t.log)
    ensures LocallySound(j, s, Act(j, s, Deliver(m, outcome, replyLost)), Target(j, m))
  {
    var n, s' := Target(j, m), Act(j, s, Deliver(m, outcome, replyLost));
    PushSteps(j, s, m, outcome, replyLost);
    PushedTask(j, s, s', m, outcome);
    forall x | x in s'.acked - s.acked ensures AckedInv(j, s', x) {
      assert x == m;
    }
    TaskStepIsSound(j, s, s', n);
  }

  /** A task that has closed knows the message, and a known ID is that of a logged entry. */
  lemma {:induction false} KnownIsLogged(j: Job, s: State, m: Message)
    requires ValidJob(j) && Inv(j, s) && m in s.sent && Target(j, m) in s.slots
    ensures var t, e := s.slots[Target(j, m)].task, MessageEntry(m);
      (ClosedByEos(t) ==> e.id in t.processed) && (e.id in t.processed ==> e in t.log)
  {
    var n := Target(j, m);
    assert SentInv(j, s, m);
    assert TaskInv(j, s, n);
    if ClosedByEos(s.slots[n].task) {
      ClosedMeansAllReceived(j, s, n, m);
    }
    if MessageEntry(m).id in s.slots[n].task.processed {
      LoggedIdMeansLoggedEntry(j, s, m);
    }
  }

  /** The condition on pushes is exact: a push that does not meet it leaves the target's log or input out of order. */
  lemma {:induction false} PushKeepsTaskOrderExactlyWhen(
    j: Job, s: State, m: Message, outcome: AppendOutcome, replyLost: bool)
    requires ValidJob(j) && Inv(j, s) && Possible(j, s, Deliver(m, outcome, replyLost))
    ensures Orderly(Act(j, s, Deliver(m, outcome, replyLost)).slots[Target(j, m)].task) <==>
      InOrder(j, s, Deliver(m, outcome, replyLost))
  {
    assert TaskInv(j, s, Target(j, m));
    KnownIsLogged(j, s, m);
    PushIsOrderlyExactlyWhen(s.slots[Target(j, m)].task, MessageEntry(m), outcome);
  }

  lemma {:induction false} DeliverKeepsInv(j: Job, s: State, m: Message, outcome: AppendOutcome, replyLost: bool)
    requires ValidJob(j) && Inv(j, s) && Enabled(j, s, Deliver(m, outcome, replyLost))
    ensures Inv(j, Act(j, s, Deliver(m, outcome, replyLost)))
  {
    InvOfNode(j, s, Target(j, m));
    KnownIsLogged(j, s, m);
    PushIsSound(j, s, m, outcome, replyLost);
    LocallySoundKeepsInv(j, s, Act(j, s, Deliver(m, outcome, replyLost)), Target(j, m));
  }

  // ---- end of stream

  lemma {:induction false} EosSteps(j: Job, s: State, u: Node, i: nat, n: Node)
    requires ValidJob(j) && Enabled(j, s, SendEos(u, i)) && n == Node(u.stage + 1, i) && NodeInv(j, s, n)
    requires var t := s.slots[n].task;
      !ClosedByEos(t) && (t.eosCount + 1 >= t.numUpstream ==> Ids(t.log) <= t.processed)
    ensures var t, s' := s.slots[n].task, Act(j, s, SendEos(u, i));
      && TaskSteps(j, s, s', n) && s'.eos == s.eos + {(u, n)} && s'.acked == s.acked
      && s'.slots[n].task == Push(t, Eos, Appended).task && Orderly(s'.slots[n].task)
  {
    var t, s' := s.slots[n].task, Act(j, s, SendEos(u, i));
    EosIsOrderly(t);
    assert s'.slots[n] == s.slots[n].(task := Push(t, Eos, Appended).task);
    assert s'.slots == s.slots[n := s'.slots[n]];
  }

  lemma {:induction false} EosTask(j: Job, s: State, s': State, u: Node, n: Node)
    requires ValidJob(j) && NodeInv(j, s, n) && TaskSteps(j, s, s', n)
    requires (u, n) !in s.eos && s'.eos == s.eos + {(u, n)}
    requires s'.slots[n].task == Push(s.slots[n].task, Eos, Appended).task && Orderly(s'.slots[n].task)
    ensures TaskInv(j, s', n) && LogInv(j, s', n)
  {
    assert u !in EosSenders(s, n) && EosSenders(s', n) == EosSenders(s, n) + {u};
    LogInvGrows(j, s, s', n);
  }

  lemma {:induction false} EosIsSound(j: Job, s: State, u: Node, i: nat, n: Node)
    requires ValidJob(j) && Enabled(j, s, SendEos(u, i)) && n == Node(u.stage + 1, i) && NodeInv(j, s, n)
    requires u in UpstreamNodes(j, n.stage)
    requires var t := s.slots[n].task;
      !ClosedByEos(t) && (t.eosCount + 1 >= t.numUpstream ==> Ids(t.log) <= t.processed)
    ensures LocallySound(j, s, Act(j, s, SendEos(u, i)), n)
  {
    var s' := Act(j, s, SendEos(u, i));
    EosSteps(j, s, u, i, n);
    EosTask(j, s, s', u, n);
    StepKeepsOutputs(j, s, s', n);
    OtherFinished(j, s, s', n, u);
    TaskStepIsSound(j, s, s', n);
  }

  lemma {:induction false} OneMoreSender(j: Job, s: State, u: Node, n: Node)
    requires EosAllInv(j, s) && n.stage > 0 && u in UpstreamNodes(j, n.stage) && (u, n) !in s.eos
    ensures var senders := EosSenders(s, n);
      && |senders| + 1 <= UpstreamCount(j, n.stage)
      && (|senders| + 1 == UpstreamCount(j, n.stage) ==> senders + {u} == UpstreamNodes(j, n.stage))
  {
    EosSendersAreUpstream(j, s, n);
    assert u !in EosSenders(s, n);
    SubsetCardinality(EosSenders(s, n) + {u}, UpstreamNodes(j, n.stage));
  }

  lemma {:induction false} IsUpstream(j: Job, u: Node)
    requires ValidJob(j) && IsNode(j, u)
    ensures u in UpstreamNodes(j, u.stage + 1)
  {
  }

  /** When all upstream has finished, everything logged has been acknowledged. */
  lemma {:induction false} LoggedFromFinished(j: Job, s: State, n: Node)
    requires ValidJob(j) && s.slots.Keys == Nodes(j) && MessagesInv(j, s) && n in s.slots && n.stage > 0
    requires LogInv(j, s, n)
    requires forall v :: v in UpstreamNodes(j, n.stage) ==> v in s.slots && Finished(j, s, v)
    ensures Ids(s.slots[n].task.log) <= s.slots[n].task.processed
  {
    forall e | e in s.slots[n].task.log ensures e.id in s.slots[n].task.processed {
      var m :| m in s.sent && Target(j, m) == n && MessageEntry(m) == e;
      SentIsProcessed(j, s, m);
    }
  }

  lemma {:induction false} SentIsProcessed(j: Job, s: State, m: Message)
    requires ValidJob(j) && s.slots.Keys == Nodes(j) && m in s.sent && SentInv(j, s, m)
    requires m in s.acked ==> AckedInv(j, s, m)
    requires m.from in UpstreamNodes(j, m.from.stage + 1) ==> Finished(j, s, m.from)
    ensures MessageEntry(m).id in s.slots[Target(j, m)].task.processed
  {
    IsUpstream(j, m.from);
  }

  lemma {:induction false} LastEosFindsAllProcessed(j: Job, s: State, u: Node, n: Node)
    requires ValidJob(j) && s.slots.Keys == Nodes(j) && MessagesInv(j, s) && EosAllInv(j, s)
    requires n in s.slots && n.stage > 0 && TaskInv(j, s, n) && LogInv(j, s, n)
    requires u in UpstreamNodes(j, n.stage) && u in s.slots && Finished(j, s, u) && (u, n) !in s.eos
    ensures var t := s.slots[n].task;
      !ClosedByEos(t) && (t.eosCount + 1 >= t.numUpstream ==> Ids(t.log) <= t.processed)
  {
    OneMoreSender(j, s, u, n);
    if EosSenders(s, n) + {u} == UpstreamNodes(j, n.stage) {
      forall v | v in UpstreamNodes(j, n.stage) ensures v in s.slots && Finished(j, s, v) {
        assert v == u || EosInv(j, s, (v, n));
      }
      LoggedFromFinished(j, s, n);
    }
  }

  lemma {:induction false} SendEosKeepsInv(j: Job, s: State, u: Node, i: nat)
    requires ValidJob(j) && Inv(j, s) && Enabled(j, s, SendEos(u, i))
    ensures Inv(j, Act(j, s, SendEos(u, i)))
  {
    var n := Node(u.stage + 1, i);
    IsUpstream(j, u);
    InvOfNode(j, s, n);
    LastEosFindsAllProcessed(j, s, u, n);
    EosIsSound(j, s, u, i, n);
    LocallySoundKeepsInv(j, s, Act(j, s, SendEos(u, i)), n);
  }

  // ---- death of the operator, kill, replay

  /** A step of a task that leaves its log as it is. */
  lemma {:induction false} SameLogIsSound(j: Job, s: State, s': State, n: Node)
    requires ValidJob(j) && NodeInv(j, s, n) && TaskSteps(j, s, s', n)
    requires s'.acked == s.acked && s'.eos == s.eos
    requires Orderly(s'.slots[n].task) && s'.slots[n].task.log == s.slots[n].task.log
    requires s'.slots[n].task.eosCount == s.slots[n].task.eosCount
    ensures LocallySound(j, s, s', n)
  {
    assert EosSenders(s', n) == EosSenders(s, n);
    LogInvGrows(j, s, s', n);
    TaskStepIsSound(j, s, s', n);
  }

  lemma {:induction false} DeathKeepsInv(j: Job, s: State, n: Node)
    requires ValidJob(j) && Inv(j, s) && Enabled(j, s, OperatorDies(n))
    ensures Inv(j, Act(j, s, OperatorDies(n)))
  {
    assert TaskInv(j, s, n);
    DeathIsOrderly(s.slots[n].task);
    SameLogIsSound(j, s, Act(j, s, OperatorDies(n)), n);
    LocallySoundKeepsInv(j, s, Act(j, s, OperatorDies(n)), n);
  }

  lemma {:induction false} KillKeepsInv(j: Job, s: State, n: Node)
    requires ValidJob(j) && Inv(j, s) && Enabled(j, s, Kill(n))
    ensures Inv(j, Act(j, s, Kill(n)))
  {
    assert TaskInv(j, s, n);
    DeathIsOrderly(s.slots[n].task);
    SameLogIsSound(j, s, Act(j, s, Kill(n)), n);
    LocallySoundKeepsInv(j, s, Act(j, s, Kill(n)), n);
  }

  lemma {:induction false} ReplayKeepsInv(j: Job, s: State, n: Node)
    requires ValidJob(j) && Inv(j, s) && Enabled(j, s, ReplayLine(n))
    ensures Inv(j, Act(j, s, ReplayLine(n)))
  {
    assert TaskInv(j, s, n);
    ReplayIsOrderly(s.slots[n].task);
    SameLogIsSound(j, s, Act(j, s, ReplayLine(n)), n);
    LocallySoundKeepsInv(j, s, Act(j, s, ReplayLine(n)), n);
  }

  // ---- restart

  lemma {:induction false} RestartIsSound(j: Job, s: State, n: Node)
    requires ValidJob(j) && NodeInv(j, s, n) && Enabled(j, s, Restart(n))
    ensures LocallySound(j, s, Act(j, s, Restart(n)), n)
  {
    var t, s' := s.slots[n].task, Act(j, s, Restart(n));
    StartIsOrderly(t.log, t.numUpstream, t.hasLogFile);
    assert EosSenders(s', n) == EosSenders(s, n);
    LogInvGrows(j, s, s', n);
    assert !Finished(j, s, n);
  }

  lemma {:induction false} RestartKeepsInv(j: Job, s: State, n: Node)
    requires ValidJob(j) && Inv(j, s) && Enabled(j, s, Restart(n))
    ensures Inv(j, Act(j, s, Restart(n)))
  {
    RestartIsSound(j, s, n);
    LocallySoundKeepsInv(j, s, Act(j, s, Restart(n)), n);
  }

  lemma {:induction false} ActKeepsInv(j: Job, s: State, step: Step)
    requires ValidJob(j) && Inv(j, s) && Enabled(j, s, step)
    ensures Inv(j, Act(j, s, step))
  {
    match step
    case EmitLine(n) => EmitKeepsInv(j, s, n);
    case Deliver(m, outcome, replyLost) => DeliverKeepsInv(j, s, m, outcome, replyLost);
    case SendEos(u, i) => SendEosKeepsInv(j, s, u, i);
    case OperatorDies(n) => DeathKeepsInv(j, s, n);
    case Kill(n) => KillKeepsInv(j, s, n);
    case Restart(n) => RestartKeepsInv(j, s, n);
    case ReplayLine(n) => ReplayKeepsInv(j, s, n);
  }

  lemma {:induction false} RunKeepsInv(j: Job, steps: seq<Step>)
    requires ValidJob(j)
    ensures Inv(j, Run(j, steps))
  {
    if steps == [] {
      InitInv(j);
    } else {
      RunKeepsInv(j, steps[..|steps| - 1]);
      var s, step := Run(j, steps[..|steps| - 1]), steps[|steps| - 1];
      if Enabled(j, s, step) {
        ActKeepsInv(j, s, step);
      }
    }
  }
}
