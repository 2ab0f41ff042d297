/**
 * One task whose pushes all keep the log's IDs distinct and come in turn, and whose last end of
 * stream waits for the replay: through appends reported as failed, deaths of the operator,
 * kills, restarts and pushes during the replay, its input stays a prefix of its log, and when
 * the end of stream closes stdin it is the whole log.
 */
module OrderlyTask {
  import opened Delivery

  /** The last end of stream has closed stdin; a task whose operator died has counted fewer. */
  predicate ClosedByEos(t: Task) {
    !t.open && t.eosCount >= t.numUpstream
  }

  /** An end of stream that closes stdin finds the operator alive and the replay complete. */
  predicate LastEosInTurn(t: Task) {
    t.eosCount + 1 >= t.numUpstream ==> t.open && t.pos >= |t.loaded|
  }

  /** The replay has written just what it has read; after it, the input has all that is processed. */
  ghost predicate ReplayExact(t: Task) {
    if t.pos < |t.loaded| then t.stdin == t.loaded[..t.pos] && t.processed == Ids(t.loaded)
    else t.processed == Ids(t.stdin)
  }

  ghost predicate Orderly(t: Task) {
    && DistinctIds(t.log) && t.stdin <= t.log
    && t.loaded <= t.log && t.pos <= |t.loaded|
    && t.processed <= Ids(t.log)
    && (t.open ==> t.eosCount < t.numUpstream && ReplayExact(t))
    && (ClosedByEos(t) ==> t.stdin == t.log && t.processed == Ids(t.log))
  }

  /** How a step changes a task that goes on: nothing is taken back, and what was closed stays as it is. */
  ghost predicate Progress(t: Task, t': Task) {
    && t.log <= t'.log && t.stdin <= t'.stdin && t.processed <= t'.processed
    && t'.seqNum == t.seqNum && t'.numUpstream == t.numUpstream && t'.hasLogFile == t.hasLogFile
    && t.eosCount <= t'.eosCount && (t'.open ==> t.open)
    && (ClosedByEos(t) ==> t'.stdin == t.stdin)
  }

  lemma {:induction false} StartIsOrderly(log: seq<Entry>, numUpstream: nat, hasLogFile: bool)
    requires DistinctIds(log) && numUpstream > 0
    ensures Orderly(Start(log, numUpstream, hasLogFile))
  {
    if log != [] {
      assert log[..0] == [];
    }
  }

  /** An entry that is logged and not written leaves the rest as it was. */
  lemma {:induction false} LoggedIsOrderly(t: Task, e: Entry)
    requires Orderly(t) && !ClosedByEos(t) && e.id !in Ids(t.log)
    ensures Orderly(t.(log := t.log + [e]))
  {
    SnocDistinct(t.log, e);
  }

  /** An entry that is logged and written in turn is the next of both. */
  lemma {:induction false} WrittenIsOrderly(t: Task, e: Entry, counter: nat)
    requires Orderly(t) && t.open && e.id !in Ids(t.log) && t.stdin == t.log
    ensures Orderly(t.(log := t.log + [e], stdin := t.stdin + [e], counter := counter,
      processed := t.processed + {e.id}))
  {
    SnocDistinct(t.log, e);
    assert t.pos == |t.loaded|;
  }

  lemma {:induction false} PushIsOrderly(t: Task, e: Entry, outcome: AppendOutcome)
    requires Orderly(t) && t.hasLogFile && KeepsLogDistinct(t, e.id, outcome) && ComesInTurn(t, e, outcome)
    requires ClosedByEos(t) ==> e.id in t.processed
    ensures var p := Push(t, Data(e.id, e.value), outcome);
      && Orderly(p.task) && Progress(t, p.task) && p.task.eosCount == t.eosCount
      && (p.task.log == t.log || p.task.log == t.log + [e])
      && (p.reply.Success? ==> e.id in p.task.processed && (e.id in t.processed || p.task.log == t.log + [e]))
  {
    if e.id !in t.processed && outcome != AppendFailed {
      if IsWritten(t, e.id, outcome) {
        WrittenIsOrderly(t, e, t.counter + 1);
      } else {
        LoggedIsOrderly(t, e);
      }
    }
  }

  /** A push keeps the order of a task exactly when it repeats no logged ID and is written in turn. */
  lemma {:induction false} PushIsOrderlyExactlyWhen(t: Task, e: Entry, outcome: AppendOutcome)
    requires Orderly(t) && t.hasLogFile && (ClosedByEos(t) ==> e.id in t.processed)
    ensures Orderly(Push(t, Data(e.id, e.value), outcome).task) <==>
      KeepsLogDistinct(t, e.id, outcome) && ComesInTurn(t, e, outcome)
  {
    var t' := Push(t, Data(e.id, e.value), outcome).task;
    if KeepsLogDistinct(t, e.id, outcome) && ComesInTurn(t, e, outcome) {
      PushIsOrderly(t, e, outcome);
    } else if !KeepsLogDistinct(t, e.id, outcome) {
      SnocDistinct(t.log, e);
      assert t'.log == t.log + [e];
    } else {
      assert t'.log == t.log + [e] && t'.stdin == t.stdin + [e];
      assert t'.stdin[|t.stdin|] == e && t'.log[|t.stdin|] == t.log[|t.stdin|];
    }
  }

  lemma {:induction false} ReplayIsOrderly(t: Task)
    requires Orderly(t)
    ensures Orderly(ReplayOwn(t)) && Progress(t, ReplayOwn(t)) && ReplayOwn(t).log == t.log
  {
    if t.pos < |t.loaded| {
      assert t.loaded[..t.pos + 1] == t.loaded[..t.pos] + [t.loaded[t.pos]];
      if t.pos + 1 == |t.loaded| {
        assert t.loaded[..t.pos + 1] == t.loaded;
      }
    }
  }

  lemma {:induction false} DeathIsOrderly(t: Task)
    requires Orderly(t) && !ClosedByEos(t)
    ensures Orderly(t.(open := false)) && Progress(t, t.(open := false)) && !ClosedByEos(t.(open := false))
  {
  }

  /** When everything in the log is processed, the end of stream that closes stdin in turn leaves the whole
      log in the operator's input. */
  lemma {:induction false} EosIsOrderly(t: Task)
    requires Orderly(t) && LastEosInTurn(t) && !ClosedByEos(t)
    requires t.eosCount + 1 >= t.numUpstream ==> Ids(t.log) <= t.processed
    ensures var t' := Push(t, Eos, Appended).task; Orderly(t') && Progress(t, t') && t'.log == t.log
  {
    if t.eosCount + 1 >= t.numUpstream {
      PrefixWithAllIds(t.stdin, t.log);
    }
  }

  /** While the operator lives the condition is exact. */
  lemma {:induction false} EosIsOrderlyExactlyWhen(t: Task)
    requires Orderly(t) && t.open && (t.eosCount + 1 >= t.numUpstream ==> Ids(t.log) <= t.processed)
    ensures Orderly(Push(t, Eos, Appended).task) <==> LastEosInTurn(t)
  {
    if LastEosInTurn(t) {
      EosIsOrderly(t);
    } else {
      assert |t.stdin| < |t.log|;
    }
  }

  lemma {:induction false} PrefixWithAllIds(part: seq<Entry>, whole: seq<Entry>)
    requires part <= whole && DistinctIds(whole)
    ensures Ids(whole) <= Ids(part) ==> part == whole
  {
    if |part| < |whole| {
      assert whole[|part|].id in Ids(whole);
      assert whole[|part|].id !in Ids(part);
    }
  }
}
