/**
 * One stage task of a RainStorm job: duplicate elimination by message ID, the
 * durable dedup log, the operator's stdin, the end-of-stream count, the replay of a
 * log and the numbering of the operator's output lines.
 *
 * The class RainStormTask carries the state and its methods change it in place. Each
 * method is proved equal to a function on the datatype Task, and the protocols built on
 * tasks (TaskLife, Pipeline) use those functions.
 */
module Delivery {
  import opened Sequences

  /** "src-<vm>-<seq>" for source lines, "<stage>-<task>-<seq>" for task outputs. */
  datatype MessageId = SourceId(number: nat) | OutputId(stage: nat, task: nat, number: nat)

  /** One line of a dedup log: "<id>\t<value>\n". */
  datatype Entry = Entry(id: MessageId, value: string)

  datatype StreamTuple = Eos | Data(id: MessageId, value: string)

  /** What one append to the dedup log in HyDFS came to: done and acknowledged; failed
      without a trace; or reported as failed although the line is in the log. */
  datatype AppendOutcome = Appended | AppendFailed | AppendedWithError

  datatype Reply = Success | Failure(message: string)

  /**
   * The state of one incarnation of a task, together with its durable log.
   * `stdin` lists what was written to the operator; the ID beside each value is not part
   * of the bytes. `loaded` is the log content read at start-up and `pos` the number of its
   * lines already replayed. `open` says that stdin accepts writes: it stops when the
   * end of stream closes it and when the operator process dies.
   */
  datatype Task = Task(
    log: seq<Entry>,
    processed: set<MessageId>,
    stdin: seq<Entry>,
    open: bool,
    loaded: seq<Entry>,
    pos: nat,
    seqNum: nat,
    eosCount: nat,
    numUpstream: nat,
    counter: nat,
    hasLogFile: bool)

  datatype Pushed = Pushed(task: Task, reply: Reply)

  function Ids(es: seq<Entry>): (r: set<MessageId>)
    ensures forall i :: 0 <= i < |es| ==> es[i].id in r
  {
    set e | e in es :: e.id
  }

  function Values(es: seq<Entry>): seq<string> {
    Map((e: Entry) => e.value, es)
  }

  /** No message ID occurs twice. */
  predicate DistinctIds(es: seq<Entry>) {
    forall i, j :: 0 <= i < j < |es| ==> es[i].id != es[j].id
  }

  /** A task as StartTask creates it over an existing log. */
  function Start(log: seq<Entry>, numUpstream: nat, hasLogFile: bool): Task {
    Task(log, Ids(log), [], true, log, 0, 0, 0, numUpstream, 0, hasLogFile)
  }

  /** PushTuple on a single tuple. */
  function Push(t: Task, tuple: StreamTuple, outcome: AppendOutcome): Pushed {
    match tuple
    case Eos =>
      var t' := t.(eosCount := t.eosCount + 1);
      Pushed(if t'.eosCount >= t'.numUpstream then t'.(open := false) else t', Success)
    case Data(id, value) =>
      if id in t.processed then Pushed(t, Success)
      else if !t.hasLogFile then Pushed(t, Failure("Dedup Log filename missing"))
      else if outcome == AppendFailed then Pushed(t, Failure("Failed to persist dedup log"))
      else
        var logged := t.(log := t.log + [Entry(id, value)]);
        if outcome == AppendedWithError then Pushed(logged, Failure("Failed to persist dedup log"))
        else if !t.open then Pushed(logged, Failure("Failed to write to operator stdin"))
        else Pushed(logged.(stdin := t.stdin + [Entry(id, value)],
                            counter := t.counter + 1,
                            processed := t.processed + {id}), Success)
  }

  /** The append of a push repeats no ID: the log does not hold it yet, or nothing is appended. */
  predicate KeepsLogDistinct(t: Task, id: MessageId, outcome: AppendOutcome) {
    id !in Ids(t.log) || id in t.processed || !t.hasLogFile || outcome == AppendFailed
  }

  /** The push is logged and written. */
  predicate IsWritten(t: Task, id: MessageId, outcome: AppendOutcome) {
    outcome == Appended && t.open && t.hasLogFile && id !in t.processed
  }

  /** A tuple that is written comes when the input has caught up with the log, or is the very
      entry the input lacks. */
  predicate ComesInTurn(t: Task, e: Entry, outcome: AppendOutcome) {
    IsWritten(t, e.id, outcome) ==> t.stdin == t.log || (|t.stdin| < |t.log| && t.log[|t.stdin|] == e)
  }

  /** PushTuple on a batch: it stops at the first tuple that fails. */
  function PushAll(t: Task, tuples: seq<StreamTuple>, outcomes: seq<AppendOutcome>): Pushed
    requires |outcomes| == |tuples|
    decreases |tuples|
  {
    if tuples == [] then Pushed(t, Success) else
      var first := Push(t, tuples[0], outcomes[0]);
      if first.reply.Failure? then first else PushAll(first.task, tuples[1..], outcomes[1..])
  }

  /** A push is answered with success exactly when it is an end of stream, is known, or is logged and written. */
  lemma {:induction false} PushSucceedsExactlyWhen(t: Task, tuple: StreamTuple, outcome: AppendOutcome)
    ensures Push(t, tuple, outcome).reply.Success? <==>
      tuple.Eos? || tuple.id in t.processed || IsWritten(t, tuple.id, outcome)
  {
  }

  /** The tuples before the k-th succeed, one after the other, and lead from each task to the next. */
  predicate Succeed(tasks: seq<Task>, tuples: seq<StreamTuple>, outcomes: seq<AppendOutcome>, k: nat)
    requires |outcomes| == |tuples|
  {
    && k <= |tuples| && k < |tasks|
    && forall i :: 0 <= i < k ==> Push(tasks[i], tuples[i], outcomes[i]) == Pushed(tasks[i + 1], Success)
  }

  /** A batch takes in the tuples up to the first that fails, and no more; that one answers it. */
  lemma {:induction false} BatchStopsAtFirstFailure(t: Task, tuples: seq<StreamTuple>, outcomes: seq<AppendOutcome>)
    returns (tasks: seq<Task>, k: nat)
    requires |outcomes| == |tuples|
    ensures Succeed(tasks, tuples, outcomes, k) && tasks[0] == t
    ensures k == |tuples| ==> PushAll(t, tuples, outcomes) == Pushed(tasks[k], Success)
    ensures k < |tuples| ==>
      var last := Push(tasks[k], tuples[k], outcomes[k]);
      last.reply.Failure? && PushAll(t, tuples, outcomes) == last
    decreases |tuples|
  {
    tasks, k := [t], 0;
    if tuples != [] && Push(t, tuples[0], outcomes[0]).reply.Success? {
      var rest, n := BatchStopsAtFirstFailure(Push(t, tuples[0], outcomes[0]).task, tuples[1..], outcomes[1..]);
      tasks, k := [t] + rest, n + 1;
      forall i | 0 <= i < k ensures Push(tasks[i], tuples[i], outcomes[i]) == Pushed(tasks[i + 1], Success) {
        if i > 0 {
          assert tuples[i] == tuples[1..][i - 1] && outcomes[i] == outcomes[1..][i - 1];
        }
      }
    }
  }

  /** replayLogData on one line of the log that was loaded at start-up. */
  function ReplayOwn(t: Task): Task {
    if t.pos >= |t.loaded| then t
    else if t.open then t.(stdin := t.stdin + [t.loaded[t.pos]], pos := t.pos + 1)
    else t.(pos := t.pos + 1)
  }

  /** replayLogData on one line of an orphan log: deduplicated, and not logged again. */
  function ReplayOrphan(t: Task, e: Entry): Task {
    if e.id in t.processed then t
    else
      var marked := t.(processed := t.processed + {e.id});
      if t.open then marked.(stdin := t.stdin + [e]) else marked
  }

  function ReplayOrphans(t: Task, es: seq<Entry>): Task {
    if es == [] then t else ReplayOrphan(ReplayOrphans(t, es[..|es| - 1]), es[|es| - 1])
  }

  /**
   * No loss within an incarnation: while stdin is open, the processed IDs are exactly
   * those the operator received and those the replay still has to write.
   */
  ghost predicate Accounted(t: Task) {
    && t.pos <= |t.loaded|
    && t.loaded <= t.log
    && Ids(t.loaded) <= t.processed
    && Ids(t.stdin) <= t.processed
    && (t.open ==> Ids(t.stdin) + Ids(t.loaded[t.pos..]) == t.processed)
  }

  /** At most once within an incarnation: no ID reaches the operator a second time. */
  ghost predicate AtMostOnce(t: Task)
    requires t.pos <= |t.loaded|
  {
    && DistinctIds(t.stdin)
    && Ids(t.stdin) !! Ids(t.loaded[t.pos..])
  }

  ghost predicate Incarnation(t: Task) {
    && Accounted(t)
    && (DistinctIds(t.loaded) ==> AtMostOnce(t))
  }

  lemma {:induction false} IdsOfConcat(a: seq<Entry>, b: seq<Entry>)
    ensures Ids(a + b) == Ids(a) + Ids(b)
  {
  }

  lemma {:induction false} SnocDistinct(es: seq<Entry>, e: Entry)
    ensures Ids(es + [e]) == Ids(es) + {e.id}
    ensures DistinctIds(es + [e]) <==> DistinctIds(es) && e.id !in Ids(es)
  {
    IdsOfConcat(es, [e]);
    var s := es + [e];
    if DistinctIds(s) {
      forall x | x in es ensures x.id != e.id {
        var k :| 0 <= k < |es| && es[k] == x;
        assert s[k].id != s[|es|].id;
      }
      forall i, j | 0 <= i < j < |es| ensures es[i].id != es[j].id {
        assert s[i].id != s[j].id;
      }
    }
  }

  lemma {:induction false} SuffixIds(es: seq<Entry>, p: nat)
    requires p < |es|
    ensures Ids(es[p..]) == {es[p].id} + Ids(es[p + 1..])
    ensures DistinctIds(es) ==> es[p].id !in Ids(es[p + 1..])
  {
  }

  lemma {:induction false} StartIsIncarnation(log: seq<Entry>, numUpstream: nat, hasLogFile: bool)
    ensures Incarnation(Start(log, numUpstream, hasLogFile))
  {
  }

  lemma {:induction false} PushKeepsIncarnation(t: Task, tuple: StreamTuple, outcome: AppendOutcome)
    requires Incarnation(t)
    ensures Incarnation(Push(t, tuple, outcome).task)
  {
    if tuple.Data? {
      SnocDistinct(t.stdin, Entry(tuple.id, tuple.value));
      assert Ids(t.loaded[t.pos..]) <= Ids(t.loaded);
    }
  }

  lemma {:induction false} ReplayOwnKeepsIncarnation(t: Task)
    requires Incarnation(t)
    ensures Incarnation(ReplayOwn(t))
  {
    if t.pos < |t.loaded| {
      ReplayOwnKeepsAccounted(t);
      ReplayOwnKeepsAtMostOnce(t);
    }
  }

  lemma {:induction false} ReplayOwnKeepsAccounted(t: Task)
    requires Accounted(t)
    ensures Accounted(ReplayOwn(t))
  {
    if t.pos < |t.loaded| {
      SuffixIds(t.loaded, t.pos);
      SnocDistinct(t.stdin, t.loaded[t.pos]);
    }
  }

  lemma {:induction false} ReplayOwnKeepsAtMostOnce(t: Task)
    requires t.pos < |t.loaded| && DistinctIds(t.loaded) ==> AtMostOnce(t)
    ensures t.pos < |t.loaded| && DistinctIds(t.loaded) ==> AtMostOnce(ReplayOwn(t))
  {
    if t.pos < |t.loaded| && DistinctIds(t.loaded) {
      SuffixIds(t.loaded, t.pos);
      SnocDistinct(t.stdin, t.loaded[t.pos]);
    }
  }

  lemma {:induction false} ReplayOrphanKeepsIncarnation(t: Task, e: Entry)
    requires Incarnation(t)
    ensures Incarnation(ReplayOrphan(t, e))
  {
  }

  class RainStormTask {
    var log: seq<Entry>
    var processedIDs: set<MessageId>
    ghost var delivered: seq<Entry>
    var stdin: seq<string>
    var open: bool
    var loaded: seq<Entry>
    var pos: nat
    var seqNum: nat
    var eosCount: nat
    var numUpstream: nat
    var counter: nat
    var hasLogFile: bool
    var downstreamList: seq<string>

    ghost function State(): Task
      reads this
    {
      Task(log, processedIDs, delivered, open, loaded, pos, seqNum, eosCount, numUpstream, counter, hasLogFile)
    }

    ghost predicate Valid()
      reads this
    {
      && Incarnation(State())
      && stdin == Values(delivered)
    }

    /** StartTask after loadDedupLog has returned `logContent`. */
    constructor (logContent: seq<Entry>, upstream: nat, hasFile: bool, downstream: seq<string>)
      ensures Valid()
      ensures State() == Start(logContent, upstream, hasFile)
      ensures downstreamList == downstream
    {
      log := logContent;
      loaded := logContent;
      processedIDs := set e | e in logContent :: e.id;
      delivered, stdin := [], [];
      open := true;
      pos, seqNum, eosCount, counter := 0, 0, 0, 0;
      numUpstream := upstream;
      hasLogFile := hasFile;
      downstreamList := downstream;
      new;
      StartIsIncarnation(logContent, upstream, hasFile);
    }

    /** The body of PushTuple's loop, for one tuple. */
    method Accept(tuple: StreamTuple, outcome: AppendOutcome) returns (reply: Reply)
      requires Valid()
      modifies this
      ensures Valid()
      ensures Pushed(State(), reply) == Push(old(State()), tuple, outcome)
      ensures downstreamList == old(downstreamList)
    {
      match tuple {
        case Eos =>
          PushKeepsIncarnation(State(), tuple, outcome);
          eosCount := eosCount + 1;
          if eosCount >= numUpstream {
            open := false;
          }
          reply := Success;
        case Data(id, value) =>
          reply := AcceptData(id, value, outcome);
      }
    }

    method AcceptData(id: MessageId, value: string, outcome: AppendOutcome) returns (reply: Reply)
      requires Valid()
      modifies this
      ensures Valid()
      ensures Pushed(State(), reply) == Push(old(State()), Data(id, value), outcome)
      ensures downstreamList == old(downstreamList)
    {
      PushKeepsIncarnation(State(), Data(id, value), outcome);
      if id in processedIDs {
        return Success;
      }
      if !hasLogFile {
        return Failure("Dedup Log filename missing");
      }
      if outcome != AppendFailed {
        log := log + [Entry(id, value)];
      }
      if outcome != Appended {
        return Failure("Failed to persist dedup log");
      }
      if !open {
        return Failure("Failed to write to operator stdin");
      }
      stdin := stdin + [value];
      delivered := delivered + [Entry(id, value)];
      counter := counter + 1;
      processedIDs := processedIDs + {id};
      reply := Success;
    }

    method PushTuple(tuples: seq<StreamTuple>, outcomes: seq<AppendOutcome>) returns (reply: Reply)
      requires Valid() && |outcomes| == |tuples|
      modifies this
      ensures Valid()
      ensures Pushed(State(), reply) == PushAll(old(State()), tuples, outcomes)
      ensures downstreamList == old(downstreamList)
    {
      for i := 0 to |tuples|
        invariant Valid() && downstreamList == old(downstreamList)
        invariant PushAll(old(State()), tuples, outcomes) == PushAll(State(), tuples[i..], outcomes[i..])
      {
        assert tuples[i..][1..] == tuples[i + 1..] && outcomes[i..][1..] == outcomes[i + 1..];
        var r := Accept(tuples[i], outcomes[i]);
        if r.Failure? {
          return r;
        }
      }
      reply := Success;
    }

    /** One turn of the start-up replay loop; pushes may come between two turns. */
    method ReplayNextLine()
      requires Valid()
      modifies this
      ensures Valid()
      ensures State() == ReplayOwn(old(State()))
      ensures downstreamList == old(downstreamList)
    {
      ReplayOwnKeepsIncarnation(State());
      if pos < |loaded| {
        if open {
          assert Values(delivered + [loaded[pos]]) == Values(delivered) + [loaded[pos].value];
          stdin := stdin + [loaded[pos].value];
          delivered := delivered + [loaded[pos]];
        }
        pos := pos + 1;
      }
    }

    method AdoptLine(e: Entry)
      requires Valid()
      modifies this
      ensures Valid()
      ensures State() == ReplayOrphan(old(State()), e)
      ensures downstreamList == old(downstreamList)
    {
      ReplayOrphanKeepsIncarnation(State(), e);
      if e.id !in processedIDs {
        processedIDs := processedIDs + {e.id};
        if open {
          stdin := stdin + [e.value];
          delivered := delivered + [e];
        }
      }
    }

    /** ProcessOrphanLog: the loop over the lines of a removed task's log. */
    method AdoptOrphanLog(orphan: seq<Entry>)
      requires Valid()
      modifies this
      ensures Valid()
      ensures State() == ReplayOrphans(old(State()), orphan)
      ensures downstreamList == old(downstreamList)
    {
      var i := 0;
      while i < |orphan|
        invariant 0 <= i <= |orphan|
        invariant Valid() && downstreamList == old(downstreamList)
        invariant State() == ReplayOrphans(old(State()), orphan[..i])
      {
        assert orphan[..i + 1][..i] == orphan[..i];
        AdoptLine(orphan[i]);
        i := i + 1;
      }
      assert orphan[..i] == orphan;
    }

    /** handleTaskOutput: number the next output line. */
    method NumberOutput(stage: nat, task: nat) returns (id: MessageId)
      requires Valid()
      modifies this`seqNum
      ensures Valid()
      ensures State() == old(State()).(seqNum := old(seqNum) + 1)
      ensures id == OutputId(stage, task, seqNum)
    {
      seqNum := seqNum + 1;
      id := OutputId(stage, task, seqNum);
    }

    /** sendTupleWithDynamicRouting: the index and address of one attempt; none while
        the list is empty. */
    method Route(hash: nat) returns (target: Option<(nat, string)>)
      ensures target.None? <==> downstreamList == []
      ensures target.Some? ==>
        target == Some((hash % |downstreamList|, downstreamList[hash % |downstreamList|]))
    {
      if downstreamList == [] {
        return None;
      }
      var index := hash % |downstreamList|;
      target := Some((index, downstreamList[index]));
    }

    /** The operator process dies: its stdin no longer takes writes. */
    method ProcessExit()
      requires Valid()
      modifies this`open
      ensures Valid()
      ensures State() == old(State()).(open := false)
    {
      open := false;
    }

    /** handleTaskOutput: the verdict sent to the leader once stdout has ended. */
    method ExitStatus() returns (success: bool)
      ensures success <==> eosCount >= numUpstream
    {
      success := eosCount >= numUpstream;
    }
  }
}
