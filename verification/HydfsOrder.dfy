/**
 * The order of the bytes in a file. A merge sorts entries by operation ID; where appends
 * come with increasing IDs, that is the order in which they were made, and a file read from the
 * primary is what was appended, in order, each append once. Entries without data, as a
 * create of an empty file leaves them, may have any ID.
 */
module HydfsOrder {
  import opened Sequences
  import opened Hydfs
  import opened HydfsProtocol
  import opened HydfsOnce

  /** The entries that have data. */
  function Written(log: seq<LogEntry>): seq<LogEntry> {
    if log == [] then []
    else Written(log[..|log| - 1]) + if log[|log| - 1].data == [] then [] else [log[|log| - 1]]
  }

  lemma {:induction false} WrittenSnoc(log: seq<LogEntry>, e: LogEntry)
    ensures Written(log + [e]) == Written(log) + if e.data == [] then [] else [e]
  {
    assert (log + [e])[..|log|] == log;
  }

  lemma {:induction false} ConcatWritten(log: seq<LogEntry>)
    ensures Concat(Written(log)) == Concat(log)
  {
    if log != [] {
      var n := |log| - 1;
      ConcatWritten(log[..n]);
      ConcatSnoc(Written(log[..n]), log[n]);
      assert log[n].data == [] ==> Concat(log[..n]) + log[n].data == Concat(log[..n]);
      assert log[n].data == [] ==> Written(log[..n]) + [] == Written(log[..n]);
    }
  }

  lemma {:induction false} WrittenMember(log: seq<LogEntry>, e: LogEntry)
    ensures e in Written(log) <==> e in log && e.data != []
  {
    if log != [] {
      var n := |log| - 1;
      WrittenMember(log[..n], e);
      assert log == log[..n] + [log[n]];
    }
  }

  lemma {:induction false} SortedSnoc(log: seq<LogEntry>, e: LogEntry)
    requires Sorted(log) && forall x :: x in log ==> Less(x.op, e.op)
    ensures Sorted(log + [e])
  {
  }

  lemma {:induction false} SortedWritten(log: seq<LogEntry>)
    requires Sorted(log)
    ensures Sorted(Written(log))
  {
    if log != [] {
      var n := |log| - 1;
      SortedWritten(log[..n]);
      forall x | x in Written(log[..n]) ensures Less(x.op, log[n].op) {
        WrittenMember(log[..n], x);
      }
      SortedSnoc(Written(log[..n]), log[n]);
    }
  }

  /** A merge of a log whose data came with increasing IDs leaves the data as it is. */
  lemma {:induction false} MergeKeepsData(log: seq<LogEntry>, final: seq<LogEntry>)
    requires Sorted(Written(log)) && IsMerge(Entries(log), final)
    ensures Concat(final) == Concat(log)
  {
    SortedWritten(final);
    forall e ensures e in Written(log) <==> e in Written(final) {
      WrittenMember(log, e);
      WrittenMember(final, e);
      assert e in final <==> e in Entries(final);
    }
    SortedUnique(Written(log), Written(final));
    ConcatWritten(log);
    ConcatWritten(final);
  }

  // ---------------------------------------------------------------- runs with increasing IDs

  /** An append with data has a greater ID than the data the primary holds. */
  ghost predicate IncreasingStep(s: State, step: Step) {
    step.Append? && step.data != [] ==>
      |s.replicas| > 0 && forall e :: e in Written(Log(s.replicas[0])) ==> Less(e.op, step.op)
  }

  ghost predicate Increasing(hash: Bytes -> Bytes, start: State, steps: seq<Step>) {
    forall k :: 0 <= k < |steps| ==> IncreasingStep(Run(hash, start, steps[..k]), steps[k])
  }

  /** The primary's data is in order, and a merge has compacted just that. */
  ghost predicate Ordered(primary: Replica, merge: Option<Merge>) {
    && FileEqualsLog(primary)
    && Sorted(Written(Log(primary)))
    && (merge.Some? && merge.value.compacted.Some? ==> primary.data == Some(merge.value.compacted.value.data))
  }

  /** What a step appends. */
  ghost function NewData(s: State, step: Step): Bytes {
    if step.Append? && Enabled(s, step) then step.data else []
  }

  ghost predicate KeepsOrder(s: State, s': State, added: Bytes) {
    && |s.replicas| > 0 && |s'.replicas| > 0
    && Ordered(s.replicas[0], s.merge) && Ordered(s'.replicas[0], s'.merge)
    && s'.replicas[0].data.value == s.replicas[0].data.value + added
  }

  lemma {:induction false} AppendKeepsOrder(hash: Bytes -> Bytes, s: State, op: string, data: Bytes)
    requires |s.replicas| > 0 && Ordered(s.replicas[0], s.merge) && Enabled(s, Append(op, data))
    requires IncreasingStep(s, Append(op, data))
    ensures KeepsOrder(s, Act(hash, s, Append(op, data)), data)
  {
    var log, e := Log(s.replicas[0]), LogEntry(op, data);
    WrittenSnoc(log, e);
    ConcatSnoc(log, e);
    if data != [] {
      SortedSnoc(Written(log), e);
    }
  }

  lemma {:induction false} CompactKeepsOrder(hash: Bytes -> Bytes, s: State, op: string, final: seq<LogEntry>)
    requires Inv(s) && Once(s, LogsOf(s)) && Ordered(s.replicas[0], s.merge) && Enabled(s, Compact(op, final))
    ensures KeepsOrder(s, Act(hash, s, Compact(op, final)), [])
  {
    var m := s.merge.value;
    PolledIsKnown(s.issued, s.parts, Held(s)[0], m);
    ConsistentMerge(PolledEntries(m), final);
    PolledIsPrimaryLog(LogsOf(s), m);
    MergeKeepsData(Log(s.replicas[0]), final);
  }

  lemma {:induction false} PushKeepsOrder(hash: Bytes -> Bytes, s: State, i: nat, arrives: bool)
    requires Injective(hash) && |s.replicas| > 0 && Ordered(s.replicas[0], s.merge) && Enabled(s, Push(i, arrives))
    ensures KeepsOrder(s, Act(hash, s, Push(i, arrives)), [])
  {
    var e := s.merge.value.compacted.value;
    ReconcileIsOverwrite(s.replicas[i], e.data, [e], hash);
    ConcatSnoc([], e);
    WrittenSnoc([], e);
    assert [] + [e] == [e];
  }

  lemma {:induction false} FanOutKeepsOrder(hash: Bytes -> Bytes, s: State, step: Step)
    requires Inv(s) && Ordered(s.replicas[0], s.merge) && Enabled(s, step) && step.FanOut?
    ensures KeepsOrder(s, Act(hash, s, step), [])
  {
    assert (step.op, step.replica) in s.outstanding;
    assert Act(hash, s, step).replicas[0] == s.replicas[0];
  }

  lemma {:induction false} NextKeepsOrder(hash: Bytes -> Bytes, s: State, step: Step)
    requires Injective(hash) && Inv(s) && Once(s, LogsOf(s)) && Ordered(s.replicas[0], s.merge)
    requires IncreasingStep(s, step)
    ensures KeepsOrder(s, Next(hash, s, step), NewData(s, step))
  {
    if Enabled(s, step) {
      match step
      case Append(op, data) => AppendKeepsOrder(hash, s, op, data);
      case FanOut(_, _, _, _) => FanOutKeepsOrder(hash, s, step);
      case Compact(op, final) => CompactKeepsOrder(hash, s, op, final);
      case Push(i, arrives) => PushKeepsOrder(hash, s, i, arrives);
      case _ => assert Act(hash, s, step).replicas == s.replicas;
    }
  }

  /** The data of the appends of a run, in order. */
  ghost function AppendedData(hash: Bytes -> Bytes, start: State, steps: seq<Step>): Bytes {
    if steps == [] then []
    else
      var n := |steps| - 1;
      AppendedData(hash, start, steps[..n]) + NewData(Run(hash, start, steps[..n]), steps[n])
  }

  lemma {:induction false} IncreasingPrefix(hash: Bytes -> Bytes, start: State, steps: seq<Step>)
    requires Increasing(hash, start, steps) && steps != []
    ensures var n := |steps| - 1;
      Increasing(hash, start, steps[..n]) && IncreasingStep(Run(hash, start, steps[..n]), steps[n])
  {
    var n := |steps| - 1;
    forall k | 0 <= k < n ensures IncreasingStep(Run(hash, start, steps[..n][..k]), steps[..n][k]) {
      assert steps[..n][..k] == steps[..k];
    }
  }

  /** The primary's file has this content, in order. */
  ghost predicate PrimaryFileIs(s: State, bytes: Bytes) {
    |s.replicas| > 0 && Ordered(s.replicas[0], s.merge) && s.replicas[0].data.value == bytes
  }

  lemma {:induction false} InitFileIs(count: nat, first: string, data: Bytes)
    requires count > 0
    ensures PrimaryFileIs(Init(count, first, data), data)
  {
    var e := LogEntry(first, data);
    ConcatSnoc([], e);
    WrittenSnoc([], e);
    assert [] + [e] == [e];
  }

  lemma {:induction false} NextFileIs(hash: Bytes -> Bytes, s: State, step: Step, bytes: Bytes)
    requires Injective(hash) && Inv(s) && Once(s, LogsOf(s)) && PrimaryFileIs(s, bytes) && IncreasingStep(s, step)
    ensures PrimaryFileIs(Next(hash, s, step), bytes + NewData(s, step))
  {
    NextKeepsOrder(hash, s, step);
  }

  /** In a careful run with increasing IDs the primary's file is, at every moment, what was created and
      then appended, in the order of the appends; merges leave no trace in it. */
  lemma {:induction false} PrimaryFileIsAppends(
    hash: Bytes -> Bytes, count: nat, first: string, data: Bytes, steps: seq<Step>)
    requires Injective(hash) && count > 0
    requires Careful(hash, Init(count, first, data), steps) && Increasing(hash, Init(count, first, data), steps)
    ensures var start := Init(count, first, data);
      PrimaryFileIs(Run(hash, start, steps), data + AppendedData(hash, start, steps))
  {
    var start := Init(count, first, data);
    if steps == [] {
      InitFileIs(count, first, data);
      assert data + [] == data;
    } else {
      var n := |steps| - 1;
      var added := AppendedData(hash, start, steps[..n]);
      CarefulPrefix(hash, start, steps);
      IncreasingPrefix(hash, start, steps);
      PrimaryFileIsAppends(hash, count, first, data, steps[..n]);
      OneMoreStep(hash, count, first, data, steps, data + added);
      AppendedSnoc(hash, start, steps, data);
    }
  }

  lemma {:induction false} AppendedSnoc(hash: Bytes -> Bytes, start: State, steps: seq<Step>, data: Bytes)
    requires steps != []
    ensures var n := |steps| - 1;
      data + AppendedData(hash, start, steps) ==
      data + AppendedData(hash, start, steps[..n]) + NewData(Run(hash, start, steps[..n]), steps[n])
  {
  }

  lemma {:induction false} OneMoreStep(
    hash: Bytes -> Bytes, count: nat, first: string, data: Bytes, steps: seq<Step>, bytes: Bytes)
    requires Injective(hash) && count > 0 && steps != []
    requires Careful(hash, Init(count, first, data), steps[..|steps| - 1])
    requires var s, last := Run(hash, Init(count, first, data), steps[..|steps| - 1]), steps[|steps| - 1];
      PrimaryFileIs(s, bytes) && IncreasingStep(s, last)
    ensures var s, last := Run(hash, Init(count, first, data), steps[..|steps| - 1]), steps[|steps| - 1];
      PrimaryFileIs(Run(hash, Init(count, first, data), steps), bytes + NewData(s, last))
  {
    var start, n := Init(count, first, data), |steps| - 1;
    CarefulRunReaches(hash, count, first, data, steps[..n]);
    NextFileIs(hash, Run(hash, start, steps[..n]), steps[n], bytes);
  }
}
