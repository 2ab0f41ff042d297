/**
 * Where a task falls short of exactly-once, and when exactly: repeated log entries, input out
 * of the log's order, tuples lost to a closed stdin, tuples lost to a restart, and logs
 * handed out too early. Each condition is one that can be checked before the step, and each
 * comes with a run that breaks it.
 */
module TaskLimits {
  import opened Delivery
  import opened TaskLife

  const A := Entry(OutputId(1, 0, 1), "a")
  const B := Entry(OutputId(1, 0, 2), "b")

  function Send(e: Entry): Step {
    Deliver(Data(e.id, e.value), Appended)
  }

  lemma {:induction false} RunStep(numUpstream: nat, steps: seq<Step>, step: Step)
    ensures Run(numUpstream, steps + [step]) == Next(Run(numUpstream, steps), step)
  {
  }

  lemma {:induction false} PrefixOfFront(steps: seq<Step>, n: nat)
    requires n <= |steps|
    ensures forall k :: 0 <= k <= n ==> steps[..n][..k] == steps[..k]
  {
  }

  // ---------------------------------------------------------------- a log without repeated IDs

  /** The append comes before the write to stdin. After the operator died, a push is
      logged and refused; its retry is logged again, and the next incarnation receives
      the tuple twice. */
  lemma {:induction false} RetryOverDeadOperatorDuplicates()
    ensures var steps := [ProcessDies, Send(A), Send(A), Restart, ReplayLine, ReplayLine];
      Run(1, steps).task.stdin == [A, A]
  {
    var s := [ProcessDies];
    RunStep(1, [], ProcessDies);
    assert [] + [ProcessDies] == s;
    RunStep(1, s, Send(A));
    RunStep(1, s + [Send(A)], Send(A));
    RunStep(1, s + [Send(A)] + [Send(A)], Restart);
    RunStep(1, s + [Send(A)] + [Send(A)] + [Restart], ReplayLine);
    RunStep(1, s + [Send(A)] + [Send(A)] + [Restart] + [ReplayLine], ReplayLine);
    assert s + [Send(A)] + [Send(A)] + [Restart] + [ReplayLine] + [ReplayLine]
        == [ProcessDies, Send(A), Send(A), Restart, ReplayLine, ReplayLine];
  }

  /** Exactly when one push keeps the durable log free of repeated IDs: unless the log
      already holds the ID, the table of processed IDs does not, and the append goes through. */
  lemma {:induction false} PushKeepsLogDistinctExactlyWhen(
      t: Task, id: MessageId, value: string, outcome: AppendOutcome)
    requires DistinctIds(t.log)
    ensures DistinctIds(Push(t, Data(id, value), outcome).task.log) <==>
      KeepsLogDistinct(t, id, outcome)
  {
    SnocDistinct(t.log, Entry(id, value));
  }

  /** That condition, for any step. */
  predicate StepKeepsLogDistinct(l: Life, step: Step) {
    match step
    case Deliver(Data(id, _), outcome) => l.registered ==> KeepsLogDistinct(l.task, id, outcome)
    case _ => true
  }

  lemma {:induction false} NextKeepsLogDistinctExactlyWhen(l: Life, step: Step)
    ensures DistinctIds(Next(l, step).task.log) <==> DistinctIds(l.task.log) && StepKeepsLogDistinct(l, step)
  {
    if step.Deliver? && step.tuple.Data? {
      SnocDistinct(l.task.log, Entry(step.tuple.id, step.tuple.value));
    }
  }

  ghost predicate AllKeepLogDistinct(numUpstream: nat, steps: seq<Step>) {
    forall k :: 0 <= k < |steps| ==> StepKeepsLogDistinct(Run(numUpstream, steps[..k]), steps[k])
  }

  lemma {:induction false} AllKeepLogDistinctSnoc(numUpstream: nat, steps: seq<Step>)
    requires steps != []
    ensures AllKeepLogDistinct(numUpstream, steps) <==>
      && AllKeepLogDistinct(numUpstream, steps[..|steps| - 1])
      && StepKeepsLogDistinct(Run(numUpstream, steps[..|steps| - 1]), steps[|steps| - 1])
  {
    PrefixOfFront(steps, |steps| - 1);
  }

  /** A run ends with a log free of repeated IDs exactly when every push of it met the condition. */
  lemma {:induction false} RunKeepsLogDistinctExactlyWhen(numUpstream: nat, steps: seq<Step>)
    ensures DistinctIds(Run(numUpstream, steps).task.log) <==> AllKeepLogDistinct(numUpstream, steps)
  {
    if steps != [] {
      var n := |steps| - 1;
      RunKeepsLogDistinctExactlyWhen(numUpstream, steps[..n]);
      NextKeepsLogDistinctExactlyWhen(Run(numUpstream, steps[..n]), steps[n]);
      AllKeepLogDistinctSnoc(numUpstream, steps);
    }
  }

  // ---------------------------------------------------------------- input in the order of the log

  /** The replay runs beside new pushes: a push that overtakes it reorders the operator's input. */
  lemma {:induction false} PushDuringReplayReorders()
    ensures var t := Run(1, [Send(A), Kill, Restart, Send(B), ReplayLine]).task;
      t.log == [A, B] && t.stdin == [B, A]
  {
    RunStep(1, [], Send(A));
    assert [] + [Send(A)] == [Send(A)];
    RunStep(1, [Send(A)], Kill);
    RunStep(1, [Send(A)] + [Kill], Restart);
    RunStep(1, [Send(A)] + [Kill] + [Restart], Send(B));
    RunStep(1, [Send(A)] + [Kill] + [Restart] + [Send(B)], ReplayLine);
    assert [Send(A)] + [Kill] + [Restart] + [Send(B)] + [ReplayLine]
        == [Send(A), Kill, Restart, Send(B), ReplayLine];
  }

  /** A push whose append is made and reported as failed. */
  const LOST := Deliver(Data(A.id, A.value), AppendedWithError)

  /** So does an append that was reported as failed after it was made: nothing is left to replay, and
      the next tuple is first in the operator's input and second in the log. */
  lemma {:induction false} FailedReplyReorders()
    ensures var t := Run(1, [LOST, Send(B)]).task;
      t.log == [A, B] && t.stdin == [B] && t.open && t.pos == |t.loaded|
  {
    LostReply();
    RunStep(1, [LOST], Send(B));
    assert [LOST] + [Send(B)] == [LOST, Send(B)];
    assert Push(Init(1).task.(log := [A]), Data(B.id, B.value), Appended).task
        == Init(1).task.(log := [A, B], stdin := [B], counter := 1, processed := {B.id});
  }

  lemma {:induction false} LostReply()
    ensures Run(1, [LOST]) == Init(1).(task := Init(1).task.(log := [A]))
  {
    RunStep(1, [], LOST);
    assert [] + [LOST] == [LOST];
    assert Push(Init(1).task, Data(A.id, A.value), AppendedWithError).task == Init(1).task.(log := [A]);
  }

  /** That holds of the step, if it is a push. */
  predicate InTurn(l: Life, step: Step) {
    match step
    case Deliver(Data(id, value), outcome) => l.registered ==> ComesInTurn(l.task, Entry(id, value), outcome)
    case _ => true
  }

  /** As stable output numbers need it: the operator's input is a prefix of the log. */
  predicate FollowsLog(l: Life) {
    l.task.stdin <= l.task.log
  }

  /** A push keeps the input a prefix of the log exactly when it comes in turn. */
  lemma {:induction false} PushKeepsOrderExactlyWhen(l: Life, tuple: StreamTuple, outcome: AppendOutcome)
    requires FollowsLog(l)
    ensures FollowsLog(Next(l, Deliver(tuple, outcome))) <==> InTurn(l, Deliver(tuple, outcome))
  {
    if tuple.Data? && l.registered && IsWritten(l.task, tuple.id, outcome) {
      var e, t := Entry(tuple.id, tuple.value), l.task;
      var t' := Next(l, Deliver(tuple, outcome)).task;
      assert t'.stdin == t.stdin + [e] && t'.log == t.log + [e];
      assert t'.stdin[|t.stdin|] == e;
      if |t.stdin| < |t.log| {
        assert t'.log[|t.stdin|] == t.log[|t.stdin|];
        assert t.stdin == t.log[..|t.stdin|];
      } else {
        assert t.stdin == t.log;
      }
    }
  }

  /** While the replay is going on over an open stdin, it has written just what it has read. */
  predicate ReplayInStep(l: Life) {
    var t := l.task;
    && t.pos <= |t.loaded| && t.loaded <= t.log
    && (t.open && t.pos < |t.loaded| ==> t.stdin == t.loaded[..t.pos])
  }

  lemma {:induction false} ReplayKeepsOrder(l: Life)
    requires FollowsLog(l) && ReplayInStep(l)
    ensures FollowsLog(Next(l, ReplayLine)) && ReplayInStep(Next(l, ReplayLine))
  {
    var t := l.task;
    if t.pos < |t.loaded| {
      assert t.loaded[..t.pos + 1] == t.loaded[..t.pos] + [t.loaded[t.pos]];
    }
  }

  lemma {:induction false} NotWritten(l: Life, tuple: StreamTuple, outcome: AppendOutcome)
    requires l.registered && tuple.Data? ==> !IsWritten(l.task, tuple.id, outcome)
    ensures Next(l, Deliver(tuple, outcome)).task.stdin == l.task.stdin
  {
  }

  lemma {:induction false} PushKeepsReplayInStep(l: Life, tuple: StreamTuple, outcome: AppendOutcome)
    requires Incarnation(l.task) && FollowsLog(l) && ReplayInStep(l) && InTurn(l, Deliver(tuple, outcome))
    ensures ReplayInStep(Next(l, Deliver(tuple, outcome)))
  {
    var t := l.task;
    PushKeepsLoaded(l, tuple, outcome);
    if t.open && t.pos < |t.loaded| {
      assert t.loaded[t.pos].id in t.processed;
      assert t.log[t.pos] == t.loaded[t.pos] && |t.stdin| == t.pos;
      NotWritten(l, tuple, outcome);
    }
  }

  lemma {:induction false} PushKeepsLoaded(l: Life, tuple: StreamTuple, outcome: AppendOutcome)
    ensures var t, t' := l.task, Next(l, Deliver(tuple, outcome)).task;
      t'.pos == t.pos && t'.loaded == t.loaded && t.log <= t'.log && (t'.open ==> t.open)
  {
  }

  lemma {:induction false} NextKeepsOrderExactlyWhen(l: Life, step: Step)
    requires Inv(l) && l.adopted == {} && FollowsLog(l) && ReplayInStep(l)
    ensures FollowsLog(Next(l, step)) <==> InTurn(l, step)
    ensures InTurn(l, step) ==> ReplayInStep(Next(l, step))
  {
    match step
    case Deliver(tuple, outcome) =>
      PushKeepsOrderExactlyWhen(l, tuple, outcome);
      if InTurn(l, step) {
        PushKeepsReplayInStep(l, tuple, outcome);
      }
    case ReplayLine => ReplayKeepsOrder(l);
    case OrphanLine(i) => NoOrphanLines(l, i);
    case _ =>
  }

  lemma {:induction false} NoOrphanLines(l: Life, i: nat)
    requires Inv(l) && l.adopted == {}
    ensures Next(l, OrphanLine(i)) == l
  {
    if i < |l.orphans| {
      AdoptedNothing(l, i);
    }
  }

  lemma {:induction false} AdoptedNothing(l: Life, i: nat)
    requires Inv(l) && l.adopted == {} && i < |l.orphans|
    ensures l.orphans[i].entries == []
  {
    EntriesHaveIds(l.orphans[i].entries);
    assert Ids(l.orphans[i].entries) <= l.adopted;
  }

  lemma {:induction false} EntriesHaveIds(es: seq<Entry>)
    ensures es != [] ==> Ids(es) != {}
  {
    if es != [] {
      assert es[0].id in Ids(es);
    }
  }

  lemma {:induction false} AdoptedGrows(numUpstream: nat, steps: seq<Step>, k: nat)
    requires k <= |steps|
    ensures Run(numUpstream, steps[..k]).adopted <= Run(numUpstream, steps).adopted
    decreases |steps| - k
  {
    if k == |steps| {
      assert steps[..k] == steps;
    } else {
      AdoptedGrows(numUpstream, steps, k + 1);
      assert steps[..k + 1][..k] == steps[..k];
    }
  }

  ghost predicate AlwaysFollowsLog(numUpstream: nat, steps: seq<Step>) {
    forall k :: 0 <= k <= |steps| ==> FollowsLog(Run(numUpstream, steps[..k]))
  }

  ghost predicate AllInTurn(numUpstream: nat, steps: seq<Step>) {
    forall k :: 0 <= k < |steps| ==> InTurn(Run(numUpstream, steps[..k]), steps[k])
  }

  lemma {:induction false} AlwaysFollowsLogSnoc(numUpstream: nat, steps: seq<Step>)
    requires steps != []
    ensures AlwaysFollowsLog(numUpstream, steps) <==>
      AlwaysFollowsLog(numUpstream, steps[..|steps| - 1]) && FollowsLog(Run(numUpstream, steps))
  {
    var n := |steps| - 1;
    PrefixOfFront(steps, n);
    assert steps[..n + 1] == steps;
  }

  lemma {:induction false} AllInTurnSnoc(numUpstream: nat, steps: seq<Step>)
    requires steps != []
    ensures AllInTurn(numUpstream, steps) <==>
      && AllInTurn(numUpstream, steps[..|steps| - 1])
      && InTurn(Run(numUpstream, steps[..|steps| - 1]), steps[|steps| - 1])
  {
    PrefixOfFront(steps, |steps| - 1);
  }

  /** Over a run without adopted logs: at every moment the operator's input is a prefix of the log
      exactly when every tuple that was written came in turn. */
  lemma {:induction false} RunKeepsOrderExactlyWhen(numUpstream: nat, steps: seq<Step>)
    requires Run(numUpstream, steps).adopted == {}
    ensures AlwaysFollowsLog(numUpstream, steps) <==> AllInTurn(numUpstream, steps)
    ensures AllInTurn(numUpstream, steps) ==> ReplayInStep(Run(numUpstream, steps))
  {
    if steps != [] {
      var n := |steps| - 1;
      AdoptedGrows(numUpstream, steps, n);
      RunKeepsOrderExactlyWhen(numUpstream, steps[..n]);
      AlwaysFollowsLogSnoc(numUpstream, steps);
      AllInTurnSnoc(numUpstream, steps);
      assert steps[..n][..n] == steps[..n];
      if AllInTurn(numUpstream, steps[..n]) {
        RunKeepsInv(numUpstream, steps[..n]);
        NextKeepsOrderExactlyWhen(Run(numUpstream, steps[..n]), steps[n]);
      }
    }
  }

  // ---------------------------------------------------------------- an end of stream during the replay

  /** The last end of stream closes stdin although the replay is still going on. The task then has
      everything it waits for, and reports success; what was not yet replayed is lost. */
  lemma {:induction false} EosDuringReplayLosesTuple()
    ensures var l := Run(1, [Send(A), Kill, Restart, Deliver(Eos, Appended), ReplayLine]);
      && A in l.acked && l.registered && l.task.eosCount >= l.task.numUpstream
      && l.task.pos == |l.task.loaded| && l.task.stdin == []
  {
    var eos := Deliver(Eos, Appended);
    RunStep(1, [], Send(A));
    assert [] + [Send(A)] == [Send(A)];
    RunStep(1, [Send(A)], Kill);
    RunStep(1, [Send(A)] + [Kill], Restart);
    RunStep(1, [Send(A)] + [Kill] + [Restart], eos);
    RunStep(1, [Send(A)] + [Kill] + [Restart] + [eos], ReplayLine);
    assert [Send(A)] + [Kill] + [Restart] + [eos] + [ReplayLine] == [Send(A), Kill, Restart, eos, ReplayLine];
  }

  /** It also closes stdin under the reading of an adopted log. A line read after that counts as processed,
      and a retry of it is acknowledged. */
  lemma {:induction false} EosDuringAdoptionLosesTuple()
    ensures var l := Run(1, [Adopt([A]), Deliver(Eos, Appended), OrphanLine(0), Send(A)]);
      A in l.acked && l.registered && l.task.eosCount >= l.task.numUpstream && l.task.stdin == []
  {
    var eos := Deliver(Eos, Appended);
    RunStep(1, [], Adopt([A]));
    assert [] + [Adopt([A])] == [Adopt([A])];
    RunStep(1, [Adopt([A])], eos);
    var l := Run(1, [Adopt([A])] + [eos]);
    assert l.orphans == [Adoption([A], 0)] && !l.task.open && l.task.stdin == [] && l.task.processed == {};
    assert l.registered && l.task.eosCount == l.task.numUpstream == 1;
    RunStep(1, [Adopt([A])] + [eos], OrphanLine(0));
    assert Next(l, OrphanLine(0)).task == l.task.(processed := {A.id});
    RunStep(1, [Adopt([A])] + [eos] + [OrphanLine(0)], Send(A));
    assert [Adopt([A])] + [eos] + [OrphanLine(0)] + [Send(A)] == [Adopt([A]), eos, OrphanLine(0), Send(A)];
  }

  /** Steps that leave the incarnation as it is, and hand it no other task's log. */
  ghost predicate SameIncarnation(steps: seq<Step>) {
    forall k :: 0 <= k < |steps| ==> !steps[k].Restart? && !steps[k].Adopt?
  }

  /** Every acknowledged tuple, also of pushes still to come, is in this operator's input. */
  ghost predicate DeliversAcked(numUpstream: nat, steps: seq<Step>) {
    forall more, e :: SameIncarnation(more) && e in Run(numUpstream, steps + more).acked ==>
      e.id in Ids(Run(numUpstream, steps + more).task.stdin)
  }

  /** The lines that the replay has still to read. */
  function ToReplay(t: Task): seq<Entry> {
    if t.pos <= |t.loaded| then t.loaded[t.pos..] else []
  }

  /** Line k of the i-th adopted log has still to be read. */
  predicate Unread(l: Life, i: nat, k: nat) {
    i < |l.orphans| && l.orphans[i].pos <= k < |l.orphans[i].entries|
  }

  /** Whatever is still to be read, of the own log or of adopted ones, has been written before. */
  ghost predicate RestIsWritten(l: Life) {
    && Ids(ToReplay(l.task)) <= Ids(l.task.stdin)
    && forall i: nat, k: nat :: Unread(l, i, k) ==> l.orphans[i].entries[k].id in Ids(l.task.stdin)
  }

  /** No restart has forgotten an acknowledged tuple that had come with an adopted log. */
  ghost predicate NoneForgotten(l: Life) {
    forall e :: e in l.acked ==> e.id in l.task.processed
  }

  ghost predicate ClosesStdin(l: Life) {
    l.registered && l.task.open && l.task.eosCount + 1 >= l.task.numUpstream
  }

  /** Stdin is closed, and holds all that is processed or acknowledged, or can still come to be. */
  ghost predicate Sealed(l: Life) {
    !l.task.open && l.task.processed <= Ids(l.task.stdin) && NoneForgotten(l) && RestIsWritten(l)
  }

  lemma {:induction false} ReadSealedLine(l: Life, i: nat)
    requires Sealed(l)
    ensures Sealed(Next(l, OrphanLine(i)))
  {
    if Unread(l, i, if i < |l.orphans| then l.orphans[i].pos else 0) {
      var l' := Next(l, OrphanLine(i));
      assert l'.task.stdin == l.task.stdin && l'.acked == l.acked;
      forall j: nat, k: nat | Unread(l', j, k) ensures l'.orphans[j].entries[k].id in Ids(l'.task.stdin) {
        assert Unread(l, j, k);
      }
    }
  }

  lemma {:induction false} SealedStep(l: Life, step: Step)
    requires Sealed(l) && !step.Restart? && !step.Adopt?
    ensures Sealed(Next(l, step))
  {
    match step
    case OrphanLine(i) => ReadSealedLine(l, i);
    case Deliver(tuple, outcome) => PushToSealed(l, tuple, outcome);
    case ReplayLine => assert Ids(ToReplay(Next(l, step).task)) <= Ids(ToReplay(l.task));
    case _ => UnreadOnlyOf(l, Next(l, step));
  }

  lemma {:induction false} PushToSealed(l: Life, tuple: StreamTuple, outcome: AppendOutcome)
    requires Sealed(l)
    ensures Sealed(Next(l, Deliver(tuple, outcome)))
  {
    var l' := Next(l, Deliver(tuple, outcome));
    assert l'.task.stdin == l.task.stdin && l'.task.processed == l.task.processed && !l'.task.open;
    assert forall e :: e in l'.acked ==> e in l.acked || e.id in l.task.processed;
    UnreadOnlyOf(l, l');
  }

  lemma {:induction false} UnreadOnlyOf(l: Life, l': Life)
    requires RestIsWritten(l) && l'.orphans == l.orphans
    requires l'.task.stdin == l.task.stdin && l'.task.loaded == l.task.loaded && l'.task.pos == l.task.pos
    ensures RestIsWritten(l')
  {
    forall i: nat, k: nat | Unread(l', i, k) ensures l'.orphans[i].entries[k].id in Ids(l'.task.stdin) {
      assert Unread(l, i, k);
    }
  }

  lemma {:induction false} StaysSealed(numUpstream: nat, steps: seq<Step>, more: seq<Step>)
    requires Sealed(Run(numUpstream, steps)) && SameIncarnation(more)
    ensures Sealed(Run(numUpstream, steps + more))
  {
    if more == [] {
      assert steps + more == steps;
    } else {
      var n := |more| - 1;
      StaysSealed(numUpstream, steps, more[..n]);
      assert steps + more == steps + more[..n] + [more[n]];
      RunStep(numUpstream, steps + more[..n], more[n]);
      SealedStep(Run(numUpstream, steps + more[..n]), more[n]);
    }
  }

  /** After the lines up to k of an adopted log have been read, a retry of line k is acknowledged. */
  lemma {:induction false} ReadLines(numUpstream: nat, steps: seq<Step>, i: nat, n: nat)
    requires var l := Run(numUpstream, steps);
      !l.task.open && i < |l.orphans| && l.orphans[i].pos + n <= |l.orphans[i].entries|
    ensures var l, l' := Run(numUpstream, steps), Run(numUpstream, steps + seq(n, _ => OrphanLine(i)));
      && !l'.task.open && l'.registered == l.registered && l'.task.stdin == l.task.stdin
      && i < |l'.orphans| && l'.orphans[i] == Adoption(l.orphans[i].entries, l.orphans[i].pos + n)
  {
    if n == 0 {
      assert steps + seq(n, _ => OrphanLine(i)) == steps;
    } else {
      ReadLines(numUpstream, steps, i, n - 1);
      var before := steps + seq(n - 1, _ => OrphanLine(i));
      assert steps + seq(n, _ => OrphanLine(i)) == before + [OrphanLine(i)];
      RunStep(numUpstream, before, OrphanLine(i));
      ReadLine(Run(numUpstream, before), i);
    }
  }

  lemma {:induction false} ReadLine(l: Life, i: nat)
    requires !l.task.open && i < |l.orphans| && l.orphans[i].pos < |l.orphans[i].entries|
    ensures var l' := Next(l, OrphanLine(i));
      && !l'.task.open && l'.registered == l.registered && l'.task.stdin == l.task.stdin
      && l'.orphans == l.orphans[i := l.orphans[i].(pos := l.orphans[i].pos + 1)]
  {
  }

  /** A processed ID that was not written is lost: its next push is acknowledged without a write. */
  lemma {:induction false} RetryIsLost(numUpstream: nat, steps: seq<Step>, more: seq<Step>, id: MessageId)
    requires SameIncarnation(more)
    requires var l := Run(numUpstream, steps + more);
      l.registered && id in l.task.processed && id !in Ids(l.task.stdin)
    ensures !DeliversAcked(numUpstream, steps)
  {
    var retry := Deliver(Data(id, ""), Appended);
    RunStep(numUpstream, steps + more, retry);
    assert steps + more + [retry] == steps + (more + [retry]);
    assert SameIncarnation(more + [retry]);
    assert Entry(id, "") in Run(numUpstream, steps + (more + [retry])).acked;
  }

  lemma {:induction false} UnreadIsLost(numUpstream: nat, steps: seq<Step>, i: nat, k: nat)
    requires var l := Run(numUpstream, steps);
      !l.task.open && l.registered && Unread(l, i, k) && l.orphans[i].entries[k].id !in Ids(l.task.stdin)
    ensures !DeliversAcked(numUpstream, steps)
  {
    var a := Run(numUpstream, steps).orphans[i];
    var n := k + 1 - a.pos;
    var more := seq(n, _ => OrphanLine(i));
    ReadLines(numUpstream, steps, i, n);
    RunKeepsInv(numUpstream, steps + more);
    assert a.entries[..k + 1][k] == a.entries[k];
    assert a.entries[k].id in Ids(a.entries[..k + 1]);
    RetryIsLost(numUpstream, steps, more, a.entries[k].id);
  }

  /** The end of stream that closes stdin loses nothing that was or will be acknowledged exactly when no
      restart has forgotten an adopted tuple, and all lines still to be read, of the own log and of
      adopted ones, have been written before. Without adoptions only the own log matters, and a
      complete replay is enough. */
  lemma {:induction false} ClosingEosDeliversExactlyWhen(numUpstream: nat, steps: seq<Step>)
    requires ClosesStdin(Run(numUpstream, steps))
    ensures var l := Run(numUpstream, steps);
      var delivers := DeliversAcked(numUpstream, steps + [Deliver(Eos, Appended)]);
      && (delivers <==> NoneForgotten(l) && RestIsWritten(l))
      && (l.adopted == {} ==> (delivers <==> Ids(ToReplay(l.task)) <= Ids(l.task.stdin)))
      && (l.adopted == {} && l.task.pos == |l.task.loaded| ==> delivers)
  {
    var l, closed := Run(numUpstream, steps), steps + [Deliver(Eos, Appended)];
    var l' := Run(numUpstream, closed);
    RunKeepsInv(numUpstream, steps);
    RunStep(numUpstream, steps, Deliver(Eos, Appended));
    assert closed + [] == closed;
    assert SameIncarnation([]);
    if NoneForgotten(l) && RestIsWritten(l) {
      UnreadOnlyOf(l, l');
      SealedDelivers(numUpstream, closed);
    } else if !NoneForgotten(l) {
      var e :| e in l.acked && e.id !in l.task.processed;
      assert e in Run(numUpstream, closed + []).acked;
    } else if id :| id in Ids(ToReplay(l.task)) && id !in Ids(l.task.stdin) {
      RetryIsLost(numUpstream, closed, [], id);
    } else {
      var i: nat, k: nat :| Unread(l, i, k) && l.orphans[i].entries[k].id !in Ids(l.task.stdin);
      assert Unread(l', i, k);
      UnreadIsLost(numUpstream, closed, i, k);
    }
    if l.adopted == {} {
      NothingUnread(l);
    }
  }

  lemma {:induction false} SealedDelivers(numUpstream: nat, steps: seq<Step>)
    requires Sealed(Run(numUpstream, steps))
    ensures DeliversAcked(numUpstream, steps)
  {
    forall more, e | SameIncarnation(more) && e in Run(numUpstream, steps + more).acked
      ensures e.id in Ids(Run(numUpstream, steps + more).task.stdin)
    {
      StaysSealed(numUpstream, steps, more);
    }
  }

  lemma {:induction false} NothingUnread(l: Life)
    requires Inv(l) && l.adopted == {}
    ensures NoneForgotten(l) && forall i: nat, k: nat :: !Unread(l, i, k)
  {
    forall i: nat | i < |l.orphans| ensures l.orphans[i].entries == [] {
      AdoptedNothing(l, i);
    }
  }

  // ---------------------------------------------------------------- a restart after an adoption

  /** A restart, and the replay of the whole log. */
  function RestartAndReplay(l: Life): seq<Step> {
    [Restart] + seq(|l.task.log|, _ => ReplayLine)
  }

  lemma {:induction false} ReplayedPart(numUpstream: nat, steps: seq<Step>, k: nat)
    requires k <= |Run(numUpstream, steps).task.log|
    ensures var l, l' := Run(numUpstream, steps), Run(numUpstream, steps + [Restart] + seq(k, _ => ReplayLine));
      && l'.task == Start(l.task.log, l.task.numUpstream, l.task.hasLogFile).(stdin := l.task.log[..k], pos := k)
      && l'.acked == l.acked && l'.adopted == l.adopted
  {
    var l := Run(numUpstream, steps);
    var before := steps + [Restart];
    RunStep(numUpstream, steps, Restart);
    if k == 0 {
      assert before + seq(k, _ => ReplayLine) == before;
      assert l.task.log[..0] == [];
    } else {
      ReplayedPart(numUpstream, steps, k - 1);
      assert before + seq(k, _ => ReplayLine) == before + seq(k - 1, _ => ReplayLine) + [ReplayLine];
      RunStep(numUpstream, before + seq(k - 1, _ => ReplayLine), ReplayLine);
      assert l.task.log[..k] == l.task.log[..k - 1] + [l.task.log[k - 1]];
    }
  }

  /** Adopted tuples are not written to the survivor's own log. After a restart and a complete replay,
      an acknowledged tuple is missing from the operator's input exactly when the own log does
      not hold it; those that are missing all came with adopted logs. */
  lemma {:induction false} RestartLosesAckedExactlyWhen(numUpstream: nat, steps: seq<Step>, e: Entry)
    requires e in Run(numUpstream, steps).acked
    ensures var l := Run(numUpstream, steps);
      var l' := Run(numUpstream, steps + RestartAndReplay(l));
      && l'.task.open && l'.task.pos == |l'.task.loaded| && e in l'.acked
      && (e.id !in Ids(l'.task.stdin) <==> e.id !in Ids(l.task.log))
      && (e.id !in Ids(l'.task.stdin) ==> e.id in l.adopted)
  {
    var l := Run(numUpstream, steps);
    RunKeepsInv(numUpstream, steps);
    ReplayedPart(numUpstream, steps, |l.task.log|);
    assert steps + RestartAndReplay(l) == steps + [Restart] + seq(|l.task.log|, _ => ReplayLine);
    assert l.task.log[..|l.task.log|] == l.task.log;
  }

  /** It happens: the survivor acknowledges a tuple that it has adopted, and forgets it at the restart. */
  lemma {:induction false} RestartForgetsAdopted()
    ensures var l := Run(1, [Adopt([A]), OrphanLine(0), Send(A), Restart]);
      A in l.acked && A.id !in l.task.processed && l.task.stdin == [] && l.task.log == []
  {
    RunStep(1, [], Adopt([A]));
    assert [] + [Adopt([A])] == [Adopt([A])];
    RunStep(1, [Adopt([A])], OrphanLine(0));
    RunStep(1, [Adopt([A])] + [OrphanLine(0)], Send(A));
    RunStep(1, [Adopt([A])] + [OrphanLine(0)] + [Send(A)], Restart);
    assert [Adopt([A])] + [OrphanLine(0)] + [Send(A)] + [Restart] == [Adopt([A]), OrphanLine(0), Send(A), Restart];
  }

  /** A log handed to a survivor that is down is refused, and not handed out again. */
  lemma {:induction false} AdoptionByKilledTaskIsRefused()
    ensures var l := Run(1, [Kill, Adopt([A]), Restart, OrphanLine(0)]);
      l.registered && l.adopted == {} && l.orphans == [] && A.id !in l.task.processed
  {
    RunStep(1, [], Kill);
    assert [] + [Kill] == [Kill];
    RunStep(1, [Kill], Adopt([A]));
    RunStep(1, [Kill] + [Adopt([A])], Restart);
    RunStep(1, [Kill] + [Adopt([A])] + [Restart], OrphanLine(0));
    assert [Kill] + [Adopt([A])] + [Restart] + [OrphanLine(0)] == [Kill, Adopt([A]), Restart, OrphanLine(0)];
  }

  // ---------------------------------------------------------------- a log that is handed out early

  /** The leader kills the victim and hands out its log concurrently. A log read before a
      further push still covers everything acknowledged exactly when that push was
      refused or was already in the log. */
  lemma {:induction false} OrphanLogReadEarlyIsCompleteExactlyWhen(
    numUpstream: nat, steps: seq<Step>, id: MessageId, value: string)
    requires Run(numUpstream, steps).adopted == {}
    ensures var v := Run(numUpstream, steps);
      var v' := Next(v, Deliver(Data(id, value), Appended));
      (forall e :: e in v'.acked ==> e.id in Ids(v.task.log)) <==>
      (!v.registered || !v.task.open || !v.task.hasLogFile || id in Ids(v.task.log))
  {
    RunKeepsInv(numUpstream, steps);
    var v := Run(numUpstream, steps);
    var v' := Next(v, Deliver(Data(id, value), Appended));
    if v.registered && v.task.open && v.task.hasLogFile && id !in Ids(v.task.log) {
      assert Entry(id, value) in v'.acked;
    }
  }
}
