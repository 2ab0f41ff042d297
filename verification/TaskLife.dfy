/**
 * The life of one task across crashes: pushes with any append outcome, death of the
 * operator process, KillTask, restarts that reload the durable log, the replay goroutine
 * line by line, and the adoption of logs of removed tasks. Every list of steps is a
 * run, so the theorems cover every interleaving.
 *
 * A restart is modelled as the leader performs it when no push is in flight on the old
 * incarnation and the reload returns the whole log.
 */
module TaskLife {
  import opened Sequences
  import opened Delivery

  datatype Adoption = Adoption(entries: seq<Entry>, pos: nat)

  /** `acked` collects the tuples whose push replied success, over all incarnations;
      `adopted` the IDs of all orphan logs handed to this task. */
  datatype Life = Life(
    task: Task,
    registered: bool,
    orphans: seq<Adoption>,
    acked: set<Entry>,
    adopted: set<MessageId>)

  datatype Step =
    | Deliver(tuple: StreamTuple, outcome: AppendOutcome)
    | ProcessDies
    | Kill
    | Restart
    | ReplayLine
    | Adopt(entries: seq<Entry>)
    | OrphanLine(which: nat)

  function Init(numUpstream: nat): Life {
    Life(Start([], numUpstream, true), true, [], {}, {})
  }

  function Next(l: Life, step: Step): Life {
    match step
    case Deliver(tuple, outcome) =>
      if !l.registered then l else
        var p := Push(l.task, tuple, outcome);
        l.(task := p.task,
           acked := if p.reply.Success? && tuple.Data?
                    then l.acked + {Entry(tuple.id, tuple.value)} else l.acked)
    case ProcessDies => l.(task := l.task.(open := false))
    case Kill => l.(task := l.task.(open := false), registered := false)
    case Restart =>
      l.(task := Start(l.task.log, l.task.numUpstream, l.task.hasLogFile), registered := true, orphans := [])
    case ReplayLine => l.(task := ReplayOwn(l.task))
    case Adopt(entries) =>
      if !l.registered then l
      else l.(orphans := l.orphans + [Adoption(entries, 0)], adopted := l.adopted + Ids(entries))
    case OrphanLine(i) =>
      if i >= |l.orphans| || l.orphans[i].pos >= |l.orphans[i].entries| then l else
        var a := l.orphans[i];
        l.(task := ReplayOrphan(l.task, a.entries[a.pos]), orphans := l.orphans[i := a.(pos := a.pos + 1)])
  }

  function Run(numUpstream: nat, steps: seq<Step>): Life {
    if steps == [] then Init(numUpstream)
    else Next(Run(numUpstream, steps[..|steps| - 1]), steps[|steps| - 1])
  }

  ghost predicate OrphansProcessed(l: Life) {
    forall i :: 0 <= i < |l.orphans| ==>
      && l.orphans[i].pos <= |l.orphans[i].entries|
      && Ids(l.orphans[i].entries) <= l.adopted
      && Ids(l.orphans[i].entries[..l.orphans[i].pos]) <= l.task.processed
  }

  /** Nothing is processed or acknowledged that no durable log holds; and without adopted
      orphans everything acknowledged counts as processed, in every incarnation. */
  ghost predicate Durable(l: Life) {
    && l.task.processed <= Ids(l.task.log) + l.adopted
    && (forall e :: e in l.acked ==> e.id in Ids(l.task.log) + l.adopted)
    && (l.adopted == {} ==> forall e :: e in l.acked ==> e.id in l.task.processed)
  }

  ghost predicate Inv(l: Life) {
    Incarnation(l.task) && OrphansProcessed(l) && Durable(l)
  }

  lemma {:induction false} PushGrows(t: Task, tuple: StreamTuple, outcome: AppendOutcome)
    ensures var p := Push(t, tuple, outcome);
      && t.log <= p.task.log
      && Ids(t.log) <= Ids(p.task.log)
      && t.processed <= p.task.processed
      && (p.reply.Success? && tuple.Data? ==> tuple.id in p.task.processed)
      && p.task.processed <= t.processed + Ids(p.task.log)
  {
  }

  lemma {:induction false} DeliverKeepsInv(l: Life, tuple: StreamTuple, outcome: AppendOutcome)
    requires Inv(l)
    ensures Inv(Next(l, Deliver(tuple, outcome)))
  {
    PushGrows(l.task, tuple, outcome);
    PushKeepsIncarnation(l.task, tuple, outcome);
  }

  lemma {:induction false} AdoptKeepsInv(l: Life, entries: seq<Entry>)
    requires Inv(l)
    ensures Inv(Next(l, Adopt(entries)))
  {
  }

  lemma {:induction false} OrphanLineKeepsInv(l: Life, i: nat)
    requires Inv(l)
    ensures Inv(Next(l, OrphanLine(i)))
  {
    if i < |l.orphans| && l.orphans[i].pos < |l.orphans[i].entries| {
      var a := l.orphans[i];
      var e := a.entries[a.pos];
      ReplayOrphanKeepsIncarnation(l.task, e);
      OrphanLineProcessed(l, i);
      assert e.id in Ids(a.entries);
    }
  }

  lemma {:induction false} OrphanLineProcessed(l: Life, i: nat)
    requires OrphansProcessed(l) && i < |l.orphans| && l.orphans[i].pos < |l.orphans[i].entries|
    ensures OrphansProcessed(Next(l, OrphanLine(i)))
  {
    var a := l.orphans[i];
    var e := a.entries[a.pos];
    assert a.entries[..a.pos + 1] == a.entries[..a.pos] + [e];
    SnocDistinct(a.entries[..a.pos], e);
  }

  lemma {:induction false} NextKeepsInv(l: Life, step: Step)
    requires Inv(l)
    ensures Inv(Next(l, step))
  {
    match step
    case Deliver(tuple, outcome) => DeliverKeepsInv(l, tuple, outcome);
    case Restart => StartIsIncarnation(l.task.log, l.task.numUpstream, l.task.hasLogFile);
    case ReplayLine => ReplayOwnKeepsIncarnation(l.task);
    case Adopt(entries) => AdoptKeepsInv(l, entries);
    case OrphanLine(i) => OrphanLineKeepsInv(l, i);
    case ProcessDies =>
    case Kill =>
  }

  lemma {:induction false} RunKeepsInv(numUpstream: nat, steps: seq<Step>)
    ensures Inv(Run(numUpstream, steps))
  {
    if steps == [] {
      StartIsIncarnation([], numUpstream, true);
    } else {
      RunKeepsInv(numUpstream, steps[..|steps| - 1]);
      NextKeepsInv(Run(numUpstream, steps[..|steps| - 1]), steps[|steps| - 1]);
    }
  }

  // ---------------------------------------------------------------- the end of the stream

  /** The steps of the current incarnation. */
  function SinceStart(steps: seq<Step>): seq<Step> {
    if steps == [] || steps[|steps| - 1] == Restart then [] else SinceStart(steps[..|steps| - 1]) + [steps[|steps| - 1]]
  }

  /** How many end-of-stream tuples were sent. */
  function EndsSent(steps: seq<Step>): nat {
    if steps == [] then 0 else
      var last := steps[|steps| - 1];
      EndsSent(steps[..|steps| - 1]) + if last.Deliver? && last.tuple == Eos then 1 else 0
  }

  ghost predicate Undisturbed(steps: seq<Step>) {
    forall k :: 0 <= k < |steps| ==> !steps[k].ProcessDies? && !steps[k].Kill?
  }

  /** In an incarnation that nothing has killed, stdin is closed exactly when the end of the stream has come
      from as many upstream tasks as there are, and from one at least; every end is counted. */
  lemma {:induction false} StdinClosedExactlyWhen(numUpstream: nat, steps: seq<Step>)
    requires Undisturbed(SinceStart(steps))
    ensures var t, ends := Run(numUpstream, steps).task, EndsSent(SinceStart(steps));
      && t.numUpstream == numUpstream && t.eosCount == ends
      && (!t.open <==> ends >= 1 && ends >= numUpstream)
    ensures Run(numUpstream, steps).registered
  {
    StaysFor(numUpstream, steps);
    if steps != [] && steps[|steps| - 1] != Restart {
      var n := |steps| - 1;
      var before := SinceStart(steps[..n]);
      OneMoreStep(before, steps[n]);
      StdinClosedExactlyWhen(numUpstream, steps[..n]);
      EndCounted(Run(numUpstream, steps[..n]), steps[n]);
    }
  }

  lemma {:induction false} OneMoreStep(before: seq<Step>, step: Step)
    ensures EndsSent(before + [step]) == EndsSent(before) + if step.Deliver? && step.tuple == Eos then 1 else 0
    ensures Undisturbed(before + [step]) ==> Undisturbed(before) && !step.ProcessDies? && !step.Kill?
  {
    var steps := before + [step];
    assert steps[..|before|] == before && steps[|before|] == step;
    assert forall k :: 0 <= k < |before| ==> before[k] == steps[k];
  }

  lemma {:induction false} StaysFor(numUpstream: nat, steps: seq<Step>)
    ensures Run(numUpstream, steps).task.numUpstream == numUpstream
  {
    if steps != [] {
      StaysFor(numUpstream, steps[..|steps| - 1]);
    }
  }

  lemma {:induction false} EndCounted(l: Life, step: Step)
    requires l.registered && !step.Restart? && !step.ProcessDies? && !step.Kill?
    requires !l.task.open <==> l.task.eosCount >= 1 && l.task.eosCount >= l.task.numUpstream
    ensures var l', ends := Next(l, step), l.task.eosCount + if step.Deliver? && step.tuple == Eos then 1 else 0;
      && l'.registered && l'.task.eosCount == ends
      && (!l'.task.open <==> ends >= 1 && ends >= l.task.numUpstream)
  {
  }

  /** The tuples that pushes have written to the current operator. */
  function PushedInto(numUpstream: nat, steps: seq<Step>): seq<Entry> {
    if steps == [] then [] else
      var before, last := steps[..|steps| - 1], steps[|steps| - 1];
      var l, front := Run(numUpstream, before), PushedInto(numUpstream, before);
      if last.Restart? then []
      else if last.Deliver? && last.tuple.Data? && l.registered && IsWritten(l.task, last.tuple.id, last.outcome)
      then front + [Entry(last.tuple.id, last.tuple.value)]
      else front
  }

  /** The rate counter is their number. */
  lemma {:induction false} CounterCounts(numUpstream: nat, steps: seq<Step>)
    ensures Run(numUpstream, steps).task.counter == |PushedInto(numUpstream, steps)|
  {
    if steps != [] {
      CounterCounts(numUpstream, steps[..|steps| - 1]);
    }
  }

  // ---------------------------------------------------------------- no acknowledged tuple is lost

  /** Every tuple whose push replied success is in the task's durable log or in a log
      the task adopted, whatever failed, died and restarted since. */
  lemma {:induction false} AckedTuplesAreDurable(numUpstream: nat, steps: seq<Step>, e: Entry)
    requires e in Run(numUpstream, steps).acked
    ensures var l := Run(numUpstream, steps); e.id in Ids(l.task.log) + l.adopted
  {
    RunKeepsInv(numUpstream, steps);
  }

  /** Without adopted orphans, once the replay is complete and stdin still open, every
      acknowledged tuple has been written to the current operator. */
  lemma {:induction false} AckedTuplesReachOperator(numUpstream: nat, steps: seq<Step>, e: Entry)
    requires var l := Run(numUpstream, steps);
      l.adopted == {} && l.task.open && l.task.pos == |l.task.loaded| && e in l.acked
    ensures e.id in Ids(Run(numUpstream, steps).task.stdin)
  {
    RunKeepsInv(numUpstream, steps);
    var t := Run(numUpstream, steps).task;
    assert t.loaded[t.pos..] == [];
  }

  // ---------------------------------------------------------------- at most once per incarnation

  /** If the log loaded at start-up has distinct IDs, no ID is written twice to the same
      operator, for every interleaving of replay, orphan replay and pushes; and a
      finished replay over an open stdin has delivered exactly the processed IDs. */
  lemma {:induction false} AtMostOncePerIncarnation(numUpstream: nat, steps: seq<Step>)
    requires DistinctIds(Run(numUpstream, steps).task.loaded)
    ensures var t := Run(numUpstream, steps).task;
      && DistinctIds(t.stdin)
      && (t.open && t.pos == |t.loaded| ==> Ids(t.stdin) == t.processed)
  {
    RunKeepsInv(numUpstream, steps);
    var t := Run(numUpstream, steps).task;
    if t.pos == |t.loaded| {
      assert t.loaded[t.pos..] == [];
    }
  }

  /** The replayed part of the loaded log is in the operator's input, with repetitions. */
  ghost predicate ReplayVisible(t: Task) {
    t.open && t.pos <= |t.loaded| ==> multiset(t.loaded[..t.pos]) <= multiset(t.stdin)
  }

  lemma {:induction false} StdinGrowsVisible(t: Task, t': Task, e: Entry)
    requires ReplayVisible(t) && t'.open == t.open && t'.loaded == t.loaded && t'.pos == t.pos
    requires t'.stdin == t.stdin || t'.stdin == t.stdin + [e]
    ensures ReplayVisible(t')
  {
  }

  lemma {:induction false} ReplayIsVisible(t: Task)
    requires ReplayVisible(t)
    ensures ReplayVisible(ReplayOwn(t))
  {
    if t.pos < |t.loaded| {
      assert t.loaded[..t.pos + 1] == t.loaded[..t.pos] + [t.loaded[t.pos]];
      MultisetOfConcat(t.loaded[..t.pos], [t.loaded[t.pos]]);
      MultisetOfConcat(t.stdin, [t.loaded[t.pos]]);
    }
  }

  lemma {:induction false} NextReplayVisible(l: Life, step: Step)
    requires ReplayVisible(l.task)
    ensures ReplayVisible(Next(l, step).task)
  {
    var t := l.task;
    match step {
      case ReplayLine =>
        ReplayIsVisible(t);
      case Deliver(tuple, outcome) =>
        if tuple.Data? {
          StdinGrowsVisible(t, Push(t, tuple, outcome).task, Entry(tuple.id, tuple.value));
        }
      case OrphanLine(i) =>
        if i < |l.orphans| && l.orphans[i].pos < |l.orphans[i].entries| {
          var e := l.orphans[i].entries[l.orphans[i].pos];
          StdinGrowsVisible(t, ReplayOrphan(t, e), e);
        }
      case _ =>
    }
  }

  lemma {:induction false} RunReplayVisible(numUpstream: nat, steps: seq<Step>)
    ensures ReplayVisible(Run(numUpstream, steps).task)
  {
    if steps != [] {
      RunReplayVisible(numUpstream, steps[..|steps| - 1]);
      NextReplayVisible(Run(numUpstream, steps[..|steps| - 1]), steps[|steps| - 1]);
    }
  }

  /** Distinct IDs in the loaded log are also necessary: with stdin open to the end of the
      replay, the operator's input is free of repeated IDs exactly when the log was. */
  lemma {:induction false} AtMostOnceExactlyWhenLogDistinct(numUpstream: nat, steps: seq<Step>)
    requires var t := Run(numUpstream, steps).task; t.open && t.pos == |t.loaded|
    ensures var t := Run(numUpstream, steps).task; DistinctIds(t.stdin) <==> DistinctIds(t.loaded)
  {
    RunKeepsInv(numUpstream, steps);
    RunReplayVisible(numUpstream, steps);
    var t := Run(numUpstream, steps).task;
    assert t.loaded[..t.pos] == t.loaded;
    if DistinctIds(t.stdin) {
      forall i, j | 0 <= i < j < |t.loaded| ensures t.loaded[i].id != t.loaded[j].id {
        TwoOccurrences(t.loaded, i, j, t.stdin);
      }
    }
  }

  lemma {:induction false} TwoOccurrences(es: seq<Entry>, i: nat, j: nat, out: seq<Entry>)
    requires i < j < |es| && multiset(es) <= multiset(out) && DistinctIds(out)
    ensures es[i].id != es[j].id
  {
    var x, y := es[i], es[j];
    assert x in multiset(es) && y in multiset(es);
    assert x in out && y in out;
    if x == y {
      assert es == es[..i] + [es[i]] + es[i + 1..];
      assert es[j] in es[i + 1..];
      assert multiset(es)[x] >= 2;
      DistinctMultiplicity(out, x);
      assert false;
    }
  }

  // ---------------------------------------------------------------- the value arrives with the ID

  /** The senders' promise: an ID is always pushed with the same value. */
  ghost predicate Agree(payload: MessageId -> string, es: seq<Entry>) {
    forall i :: 0 <= i < |es| ==> es[i].value == payload(es[i].id)
  }

  ghost predicate StepAgrees(payload: MessageId -> string, step: Step) {
    match step
    case Deliver(Data(id, value), _) => value == payload(id)
    case Adopt(entries) => Agree(payload, entries)
    case _ => true
  }

  ghost predicate LifeAgrees(payload: MessageId -> string, l: Life) {
    && Agree(payload, l.task.log)
    && Agree(payload, l.task.loaded)
    && Agree(payload, l.task.stdin)
    && (forall i :: 0 <= i < |l.orphans| ==> Agree(payload, l.orphans[i].entries))
    && (forall e :: e in l.acked ==> e.value == payload(e.id))
  }

  lemma {:induction false} RunAgrees(payload: MessageId -> string, numUpstream: nat, steps: seq<Step>)
    requires forall i :: 0 <= i < |steps| ==> StepAgrees(payload, steps[i])
    ensures LifeAgrees(payload, Run(numUpstream, steps))
  {
    if steps != [] {
      var n := |steps| - 1;
      assert forall i :: 0 <= i < n ==> steps[..n][i] == steps[i];
      RunAgrees(payload, numUpstream, steps[..n]);
      NextAgrees(payload, Run(numUpstream, steps[..n]), steps[n]);
    }
  }

  lemma {:induction false} NextAgrees(payload: MessageId -> string, l: Life, step: Step)
    requires LifeAgrees(payload, l) && StepAgrees(payload, step)
    ensures LifeAgrees(payload, Next(l, step))
  {
    match step
    case Deliver(tuple, outcome) =>
    case Restart =>
    case ReplayLine =>
    case Adopt(entries) =>
    case OrphanLine(i) =>
    case _ =>
  }

  lemma {:induction false} EntryByIdAndValue(payload: MessageId -> string, es: seq<Entry>, e: Entry)
    requires Agree(payload, es) && e.value == payload(e.id) && e.id in Ids(es)
    ensures e in es
  {
  }

  /** The same with the value: each acknowledged (ID, value) pair is in the current
      operator's input after a completed replay. */
  lemma {:induction false} AckedEntriesReachOperator(
    payload: MessageId -> string, numUpstream: nat, steps: seq<Step>, e: Entry)
    requires forall i :: 0 <= i < |steps| ==> StepAgrees(payload, steps[i])
    requires var l := Run(numUpstream, steps);
      l.adopted == {} && l.task.open && l.task.pos == |l.task.loaded| && e in l.acked
    ensures e in Run(numUpstream, steps).task.stdin
  {
    RunAgrees(payload, numUpstream, steps);
    AckedTuplesReachOperator(numUpstream, steps, e);
    EntryByIdAndValue(payload, Run(numUpstream, steps).task.stdin, e);
  }

  // ---------------------------------------------------------------- scale-down

  /**
   * Scale-down keeps at-least-once. When task 0 has gone through the whole log the victim
   * left behind, every tuple the victim acknowledged is among task 0's processed IDs, and
   * over an open stdin with the own replay done it has reached task 0's operator.
   */
  lemma {:induction false} ScaleDownKeepsAcked(
    payload: MessageId -> string, numUpstream: nat, victim: seq<Step>, survivor: seq<Step>, which: nat, e: Entry)
    requires forall i :: 0 <= i < |victim| ==> StepAgrees(payload, victim[i])
    requires forall i :: 0 <= i < |survivor| ==> StepAgrees(payload, survivor[i])
    requires var v := Run(numUpstream, victim); v.adopted == {} && e in v.acked
    requires var v, s := Run(numUpstream, victim), Run(numUpstream, survivor);
      which < |s.orphans| && s.orphans[which] == Adoption(v.task.log, |v.task.log|)
    ensures var t := Run(numUpstream, survivor).task;
      && e.id in t.processed
      && (t.open && t.pos == |t.loaded| ==> e in t.stdin)
  {
    var v, s := Run(numUpstream, victim), Run(numUpstream, survivor);
    AckedTuplesAreDurable(numUpstream, victim, e);
    RunKeepsInv(numUpstream, survivor);
    assert v.task.log[..|v.task.log|] == v.task.log;
    var t := s.task;
    if t.open && t.pos == |t.loaded| {
      assert t.loaded[t.pos..] == [];
      RunAgrees(payload, numUpstream, victim);
      RunAgrees(payload, numUpstream, survivor);
      EntryByIdAndValue(payload, t.stdin, e);
    }
  }
}
