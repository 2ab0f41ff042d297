/**
 * When an operation's bytes are in a file once. They can be there twice: a fan-out that
 * arrives after a merge writes them again, and so does a merge after a push that failed.
 * In runs without either, every replica holds every operation at most once.
 */
module HydfsOnce {
  import opened Sequences
  import opened Hydfs
  import opened HydfsProtocol
  import opened HydfsResults

  // ---------------------------------------------------------------- counterexamples

  function NoHash(): Bytes -> Bytes {
    (b: Bytes) => b
  }

  const FIRST := LogEntry("1", "")
  const SECOND := LogEntry("2", "d")
  const BOTH := LogEntry("3", "d")
  const CREATED := Replica(Some(""), Some([FIRST]))
  const APPENDED := Replica(Some("d"), Some([FIRST, SECOND]))

  lemma {:induction false} ConcatPair(a: LogEntry, b: LogEntry)
    ensures Concat([a, b]) == a.data + b.data
  {
    ConcatSnoc([a], b);
    ConcatSnoc([], a);
    assert [] + [a] == [a] && [a] + [b] == [a, b];
  }

  ghost predicate MergedBoth(s: State, s': State, e: LogEntry) {
    && s'.replicas == [Compacted(e), Compacted(e)] && s'.issued == s.issued[e.op := e.data]
    && s'.outstanding == s.outstanding
  }

  /** A whole merge of two replicas that hold two entries between them. */
  lemma {:induction false} MergeOfTwo(hash: Bytes -> Bytes, s: State, op: string, a: LogEntry, b: LogEntry, e: LogEntry)
    requires Injective(hash) && s.merge.None? && op !in s.issued && |s.replicas| == 2
    requires Sorted([a, b]) && AllEntries(s) == Entries([a, b]) && e == LogEntry(op, a.data + b.data)
    ensures MergedBoth(s, Run(hash, s, WholeMerge([0, 1], op, [a, b], [0, 1])), e)
  {
    ConcatPair(a, b);
    MergeAllOnce(hash, s, [0, 1], op, [a, b], e);
  }

  lemma {:induction false} MergeAllOnce(
      hash: Bytes -> Bytes, s: State, order: seq<nat>, op: string, final: seq<LogEntry>, e: LogEntry)
    requires Injective(hash) && s.merge.None? && op !in s.issued && |s.replicas| == 2 && order == [0, 1]
    requires Sorted(final) && AllEntries(s) == Entries(final) && e == LogEntry(op, Concat(final))
    ensures MergedBoth(s, Run(hash, s, WholeMerge(order, op, final, order)), e)
  {
    ZeroAndOne();
    WholeMergeRuns(hash, s, order, op, final, order);
    assert seq(2, _ => Compacted(e)) == [Compacted(e), Compacted(e)];
  }

  lemma {:induction false} RunThree(hash: Bytes -> Bytes, s: State, a: seq<Step>, b: seq<Step>, c: seq<Step>)
    ensures Run(hash, s, a + b + c) == Run(hash, Run(hash, Run(hash, s, a), b), c)
  {
    RunSplit(hash, s, a, b);
    RunSplit(hash, s, a + b, c);
  }

  lemma {:induction false} ZeroAndOne()
    ensures AllOnce([0, 1], 2)
  {
  }

  function LateFanOut(): seq<Step> {
    [Append("2", "d")] + WholeMerge([0, 1], "3", [FIRST, SECOND], [0, 1]) + [FanOut("2", 1, true, true)]
  }

  /** Append, merge, and only then the fan-out: replica 1 holds the bytes twice. */
  lemma {:induction false} LateFanOutRepeatsBytes()
    ensures Run(NoHash(), Init(2, "1", ""), LateFanOut()).replicas ==
      [Replica(Some("d"), Some([BOTH])), Replica(Some("dd"), Some([BOTH, SECOND]))]
  {
    var hash, start := NoHash(), Init(2, "1", "");
    RunThree(hash, start, [Append("2", "d")], WholeMerge([0, 1], "3", [FIRST, SECOND], [0, 1]),
      [FanOut("2", 1, true, true)]);
    AfterAppend(hash);
    var s := Run(hash, start, [Append("2", "d")]);
    MergeOfAppended(hash, s);
    AfterLateFanOut(hash, Run(hash, s, WholeMerge([0, 1], "3", [FIRST, SECOND], [0, 1])));
  }

  lemma {:induction false} AfterAppend(hash: Bytes -> Bytes)
    ensures var s := Run(hash, Init(2, "1", ""), [Append("2", "d")]);
      && s.replicas == [APPENDED, CREATED] && s.merge.None? && s.outstanding == {("2", 1)}
      && s.issued == map["1" := "", "2" := "d"]
  {
    var start := Init(2, "1", "");
    RunOne(hash, start, Append("2", "d"));
    assert start.replicas == [CREATED, CREATED];
    assert "1"[0] != "2"[0];
    assert Enabled(start, Append("2", "d"));
    assert "" + "d" == "d" && [FIRST] + [SECOND] == [FIRST, SECOND];
    assert AppendOn(CREATED, "2", "d").replica == APPENDED;
    assert [CREATED, CREATED][0 := APPENDED] == [APPENDED, CREATED];
  }

  lemma {:induction false} MergeOfAppended(hash: Bytes -> Bytes, s: State)
    requires Injective(hash) && s.replicas == [APPENDED, CREATED] && s.merge.None?
    requires s.issued == map["1" := "", "2" := "d"]
    ensures var s' := Run(hash, s, WholeMerge([0, 1], "3", [FIRST, SECOND], [0, 1]));
      && s'.replicas == [Compacted(BOTH), Compacted(BOTH)] && s'.issued == s.issued["3" := "d"]
      && s'.outstanding == s.outstanding
  {
    assert FIRST in Log(s.replicas[0]) && SECOND in Log(s.replicas[0]);
    forall e | e in AllEntries(s) ensures e in {FIRST, SECOND} {
      var i :| 0 <= i < |s.replicas| && e in Log(s.replicas[i]);
    }
    assert "1"[0] < "2"[0] < "3"[0];
    assert "" + "d" == "d";
    assert AllEntries(s) == Entries([FIRST, SECOND]);
    MergeOfTwo(hash, s, "3", FIRST, SECOND, BOTH);
  }

  lemma {:induction false} AfterLateFanOut(hash: Bytes -> Bytes, s: State)
    requires s.replicas == [Compacted(BOTH), Compacted(BOTH)]
    requires s.outstanding == {("2", 1)} && "2" in s.issued && s.issued["2"] == "d"
    ensures Run(hash, s, [FanOut("2", 1, true, true)]).replicas ==
      [Replica(Some("d"), Some([BOTH])), Replica(Some("dd"), Some([BOTH, SECOND]))]
  {
    RunOne(hash, s, FanOut("2", 1, true, true));
    assert Enabled(s, FanOut("2", 1, true, true));
    assert "d" + "d" == "dd" && [BOTH] + [SECOND] == [BOTH, SECOND];
    var after := AppendOn(Compacted(BOTH), "2", "d").replica;
    assert [Compacted(BOTH), Compacted(BOTH)][1 := after] == [Compacted(BOTH), after];
  }

  const ONE := LogEntry("1", "d")
  const TWO := LogEntry("2", "d")

  function FailedPush(): seq<Step> {
    MergeSteps([0, 1], "2", [ONE], [0, 1], {0}) + WholeMerge([0, 1], "3", [ONE, TWO], [0, 1])
  }

  /** A push fails and a later merge, answered by all, takes the operation and the entry that
      absorbed it for two: all replicas hold the bytes twice. */
  lemma {:induction false} FailedPushRepeatsBytes()
    ensures Run(NoHash(), Init(2, "1", "d"), FailedPush()).replicas ==
      [Compacted(LogEntry("3", "dd")), Compacted(LogEntry("3", "dd"))]
  {
    var hash, start := NoHash(), Init(2, "1", "d");
    var merge := MergeSteps([0, 1], "2", [ONE], [0, 1], {0});
    RunSplit(hash, start, merge, WholeMerge([0, 1], "3", [ONE, TWO], [0, 1]));
    FirstMerge(hash);
    SecondMerge(hash, Run(hash, start, merge));
  }

  lemma {:induction false} FirstMerge(hash: Bytes -> Bytes)
    requires Injective(hash)
    ensures var s := Run(hash, Init(2, "1", "d"), MergeSteps([0, 1], "2", [ONE], [0, 1], {0}));
      s.replicas == [Compacted(TWO), Compacted(ONE)] && s.issued == map["1" := "d", "2" := "d"] && s.merge.None?
  {
    var s := Init(2, "1", "d");
    assert s.replicas == [Compacted(ONE), Compacted(ONE)];
    assert ONE in Log(s.replicas[0]);
    forall e | e in AllEntries(s) ensures e == ONE {
      var i :| 0 <= i < |s.replicas| && e in Log(s.replicas[i]);
    }
    assert AllEntries(s) == {ONE};
    assert ONE in Entries([ONE]);
    ConcatSnoc([], ONE);
    assert [] + [ONE] == [ONE] && "" + "d" == "d";
    ZeroAndOne();
    assert "1"[0] != "2"[0];
    MergeRuns(hash, s, [0, 1], "2", [ONE], [0, 1], {0});
    assert AfterMerge(s.replicas, TWO, {0}) == [Compacted(TWO), Compacted(ONE)];
  }

  lemma {:induction false} SecondMerge(hash: Bytes -> Bytes, s: State)
    requires Injective(hash) && s.replicas == [Compacted(TWO), Compacted(ONE)] && s.merge.None?
    requires s.issued == map["1" := "d", "2" := "d"]
    ensures Run(hash, s, WholeMerge([0, 1], "3", [ONE, TWO], [0, 1])).replicas ==
      [Compacted(LogEntry("3", "dd")), Compacted(LogEntry("3", "dd"))]
  {
    assert TWO in Log(s.replicas[0]) && ONE in Log(s.replicas[1]);
    forall e | e in AllEntries(s) ensures e in {ONE, TWO} {
      var i :| 0 <= i < |s.replicas| && e in Log(s.replicas[i]);
    }
    assert "1"[0] < "2"[0] < "3"[0];
    assert "d" + "d" == "dd";
    assert AllEntries(s) == Entries([ONE, TWO]);
    MergeOfTwo(hash, s, "3", ONE, TWO, LogEntry("3", "dd"));
  }

  // ---------------------------------------------------------------- the exact conditions, step by step

  /** A fan-out writes an operation a second time exactly when the replica already holds it. */
  lemma {:induction false} FanOutKeepsOnceExactlyWhen(hash: Bytes -> Bytes, s: State, op: string, i: nat, replied: bool)
    requires Inv(s) && Enabled(s, FanOut(op, i, true, replied)) && Distinct(Parts(s.parts, Log(s.replicas[i])))
    ensures var s' := Next(hash, s, FanOut(op, i, true, replied));
      |s'.replicas| == |s.replicas| && (Distinct(Parts(s'.parts, Log(s'.replicas[i]))) <==> op !in Covered(s, i))
  {
    var e := LogEntry(op, s.issued[op]);
    assert s.parts[op] == [op];
    PartsSnoc(s.parts, Log(s.replicas[i]), e);
    var before := Parts(s.parts, Log(s.replicas[i]));
    assert ReplicaOk(s.issued, s.parts, s.replicas[i]);
    DistinctSnoc(before, op);
  }

  lemma {:induction false} DistinctSnoc<T>(s: seq<T>, x: T)
    ensures Distinct(s + [x]) <==> Distinct(s) && x !in s
  {
    if Distinct(s + [x]) {
      assert forall k :: 0 <= k < |s| ==> (s + [x])[k] == s[k];
      assert (s + [x])[|s|] == x;
    }
  }

  /** The entries stand for different operations. */
  ghost predicate Apart(parts: map<string, seq<string>>, entries: set<LogEntry>) {
    && (forall e :: e in entries ==> e.op in parts && Distinct(parts[e.op]))
    && (forall e, f, o :: e in entries && f in entries && e != f && o in parts[e.op] ==> o !in parts[f.op])
  }

  lemma {:induction false} DistinctConcat<T>(a: seq<T>, b: seq<T>)
    ensures Distinct(a + b) <==> Distinct(a) && Distinct(b) && forall x :: x in a ==> x !in b
  {
    if Distinct(a + b) {
      assert forall i :: 0 <= i < |a| ==> (a + b)[i] == a[i];
      assert forall i :: 0 <= i < |b| ==> (a + b)[|a| + i] == b[i];
      forall i, k | 0 <= i < |a| && 0 <= k < |b| ensures a[i] != b[k] {
        assert (a + b)[i] != (a + b)[|a| + k];
      }
    } else if Distinct(a) && Distinct(b) && forall x :: x in a ==> x !in b {
      ConcatDistinct(a, b);
    }
  }

  /** A log in which no entry is repeated holds every operation once when its entries stand for different
      operations, and only then. */
  lemma {:induction false} EntriesApart(parts: map<string, seq<string>>, log: seq<LogEntry>)
    requires Distinct(log) && forall e :: e in log ==> e.op in parts
    ensures Distinct(Parts(parts, log)) <==> Apart(parts, Entries(log))
  {
    if log != [] {
      var n := |log| - 1;
      var last, front := log[n], log[..n];
      assert log == front + [last] && last !in front;
      EntriesApart(parts, front);
      DistinctConcat(Parts(parts, front), parts[last.op]);
      forall o ensures o in Parts(parts, front) <==> exists e :: e in front && o in parts[e.op] {
        PartsMember(parts, front, o);
        assert o in Parts(parts, front) <==> o in CoveredBy(parts, front);
      }
      ApartSnoc(parts, Entries(front), last);
      assert Entries(log) == Entries(front) + {last};
    }
  }

  lemma {:induction false} ApartSnoc(parts: map<string, seq<string>>, entries: set<LogEntry>, e: LogEntry)
    requires e !in entries && e.op in parts && forall f :: f in entries ==> f.op in parts
    ensures Apart(parts, entries + {e}) <==>
      && Apart(parts, entries) && Distinct(parts[e.op])
      && forall f, o :: f in entries && o in parts[f.op] ==> o !in parts[e.op]
  {
  }

  // ---------------------------------------------------------------- runs that write everything once

  /** Merges start when no fan-out is under way, and every push arrives. */
  ghost predicate Careful(hash: Bytes -> Bytes, start: State, steps: seq<Step>) {
    forall k :: 0 <= k < |steps| ==> CarefulStep(Run(hash, start, steps[..k]), steps[k])
  }

  ghost predicate CarefulStep(s: State, step: Step) {
    (step.StartMerge? ==> s.outstanding == {}) && (step.Push? ==> step.arrives)
  }

  type Logs = seq<seq<LogEntry>>

  function LogsOf(s: State): (logs: Logs)
    ensures |logs| == |s.replicas|
    ensures forall i :: 0 <= i < |logs| ==> logs[i] == Log(s.replicas[i])
  {
    seq(|s.replicas|, i requires 0 <= i < |s.replicas| => Log(s.replicas[i]))
  }

  /** Outside the push phase the primary's log has all entries. */
  ghost predicate PrimaryHasAll(logs: Logs) {
    |logs| > 0 && forall i :: 0 <= i < |logs| ==> Entries(logs[i]) <= Entries(logs[0])
  }

  ghost predicate AwaitedOnce(issued: Issued, parts: PartMap, logs: Logs, outstanding: set<(string, nat)>)
    requires |logs| > 0
  {
    forall p :: p in outstanding ==>
      && p.1 < |logs| && p.0 !in Parts(parts, logs[p.1])
      && p.0 in issued && LogEntry(p.0, issued[p.0]) in logs[0]
  }

  ghost predicate MergeOnce(parts: PartMap, logs: Logs, m: Merge) {
    && (m.compacted.None? ==>
          && m.pushed == {} && PrimaryHasAll(logs)
          && forall i :: i in m.polls && m.polls[i].Some? ==> i < |logs| && m.polls[i].value == logs[i])
    && (m.compacted.Some? ==>
          && m.compacted.value.op in parts && Distinct(parts[m.compacted.value.op])
          && forall i :: i in m.pushed && i < |logs| ==> logs[i] == [m.compacted.value])
  }

  ghost predicate Once(s: State, logs: Logs) {
    && |logs| > 0
    && (forall i :: 0 <= i < |logs| ==> Distinct(Parts(s.parts, logs[i])))
    && AwaitedOnce(s.issued, s.parts, logs, s.outstanding)
    && (s.merge.None? ==> PrimaryHasAll(logs))
    && (s.merge.Some? ==> s.outstanding == {} && MergeOnce(s.parts, logs, s.merge.value))
  }

  lemma {:induction false} AppendKeepsOnce(hash: Bytes -> Bytes, s: State, op: string, data: Bytes)
    requires Inv(s) && Once(s, LogsOf(s)) && Enabled(s, Append(op, data))
    ensures var s' := Act(hash, s, Append(op, data)); Once(s', LogsOf(s'))
  {
    var s' := Act(hash, s, Append(op, data));
    var logs, logs', e := LogsOf(s), LogsOf(s'), LogEntry(op, data);
    forall i | 0 <= i < |logs|
      ensures Known(s.issued, s.parts, logs[i])
      ensures Parts(s'.parts, logs[i]) == Parts(s.parts, logs[i])
      ensures op !in Parts(s.parts, logs[i])
    {
      assert ReplicaOk(s.issued, s.parts, s.replicas[i]);
      KnownAfterIssue(s.issued, s.parts, op, data, [op], logs[i]);
      KnownPartsIssued(s.issued, s.parts, logs[i]);
    }
    assert logs' == logs[0 := logs[0] + [e]];
    AppendKeepsOnceLogs(s, s', logs, logs', e);
  }

  lemma {:induction false} AppendKeepsOnceLogs(s: State, s': State, logs: Logs, logs': Logs, e: LogEntry)
    requires Once(s, logs) && s.merge.None? && s'.merge.None? && logs' == logs[0 := logs[0] + [e]]
    requires e.op !in s.issued && s'.issued == s.issued[e.op := e.data] && e.op in s'.parts && s'.parts[e.op] == [e.op]
    requires forall i :: 0 <= i < |logs| ==>
      Parts(s'.parts, logs[i]) == Parts(s.parts, logs[i]) && e.op !in Parts(s.parts, logs[i])
    requires s'.outstanding == s.outstanding + set i: nat | 1 <= i < |logs| :: (e.op, i)
    ensures Once(s', logs')
  {
  }

  lemma {:induction false} FanOutKeepsOnce(
      hash: Bytes -> Bytes, s: State, op: string, i: nat, arrives: bool, replied: bool)
    requires Inv(s) && Once(s, LogsOf(s)) && Enabled(s, FanOut(op, i, arrives, replied))
    ensures var s' := Act(hash, s, FanOut(op, i, arrives, replied)); Once(s', LogsOf(s'))
  {
    var s' := Act(hash, s, FanOut(op, i, arrives, replied));
    var logs, e := LogsOf(s), LogEntry(op, s.issued[op]);
    assert (op, i) in s.outstanding;
    assert s.parts[op] == [op] && 1 <= i;
    if arrives {
      assert ReplicaOk(s.issued, s.parts, s.replicas[i]);
      assert LogsOf(s') == logs[i := logs[i] + [e]];
    } else {
      assert LogsOf(s') == logs;
    }
    FanOutKeepsOnceLogs(s, s', logs, LogsOf(s'), i, e, arrives);
  }

  lemma {:induction false} FanOutKeepsOnceLogs(
      s: State, s': State, logs: Logs, logs': Logs, i: nat, e: LogEntry, arrives: bool)
    requires Once(s, logs) && (e.op, i) in s.outstanding && 1 <= i < |logs|
    requires e.op in s.issued && s.issued[e.op] == e.data && e.op in s.parts && s.parts[e.op] == [e.op]
    requires s'.parts == s.parts && s'.issued == s.issued && s'.merge == s.merge
    requires s'.outstanding == s.outstanding - {(e.op, i)}
    requires logs' == if arrives then logs[i := logs[i] + [e]] else logs
    ensures Once(s', logs')
  {
    if arrives {
      PartsSnoc(s.parts, logs[i], e);
      DistinctSnoc(Parts(s.parts, logs[i]), e.op);
      assert e in logs[0] && logs'[0] == logs[0];
      forall k | 0 <= k < |logs| ensures Entries(logs'[k]) <= Entries(logs[0]) {
        assert Entries(logs[k]) <= Entries(logs[0]);
      }
      forall p | p in s'.outstanding ensures p.1 < |logs'| && p.0 !in Parts(s.parts, logs'[p.1]) {
        assert p in s.outstanding;
      }
    }
  }

  lemma {:induction false} CompactKeepsOnce(hash: Bytes -> Bytes, s: State, op: string, final: seq<LogEntry>)
    requires Inv(s) && Once(s, LogsOf(s)) && Enabled(s, Compact(op, final))
    ensures var s' := Act(hash, s, Compact(op, final)); Once(s', LogsOf(s'))
  {
    var s' := Act(hash, s, Compact(op, final));
    var logs, m := LogsOf(s), s.merge.value;
    forall i | 0 <= i < |logs| ensures Parts(s'.parts, logs[i]) == Parts(s.parts, logs[i]) {
      assert ReplicaOk(s.issued, s.parts, s.replicas[i]);
      KnownAfterIssue(s.issued, s.parts, op, Concat(final), Parts(s.parts, final), logs[i]);
    }
    assert LogsOf(s') == logs;
    PolledIsKnown(s.issued, s.parts, Held(s)[0], m);
    ConsistentMerge(PolledEntries(m), final);
    PolledIsPrimaryLog(logs, m);
    assert ReplicaOk(s.issued, s.parts, s.replicas[0]);
    RearrangedHoldsOnce(s.parts, logs[0], final);
  }

  lemma {:induction false} PolledIsPrimaryLog(logs: Logs, m: Merge)
    requires PrimaryHasAll(logs) && 0 in m.polls && m.polls[0].Some?
    requires forall i :: i in m.polls && m.polls[i].Some? ==> i < |logs| && m.polls[i].value == logs[i]
    ensures PolledEntries(m) == Entries(logs[0])
  {
  }

  lemma {:induction false} RearrangedHoldsOnce(parts: PartMap, log: seq<LogEntry>, final: seq<LogEntry>)
    requires Sorted(final) && Entries(final) == Entries(log) && forall e :: e in log ==> e.op in parts
    requires Distinct(Parts(parts, log))
    ensures Distinct(Parts(parts, final))
  {
    OnceIsApart(parts, log);
    forall i, k | 0 <= i < k < |final| ensures final[i] != final[k] {
      LessTotal(final[i].op, final[k].op);
    }
    assert forall e :: e in final ==> e in Entries(log);
    EntriesApart(parts, final);
  }

  lemma {:induction false} OnceIsApart(parts: PartMap, log: seq<LogEntry>)
    requires Distinct(Parts(parts, log)) && forall e :: e in log ==> e.op in parts
    ensures Apart(parts, Entries(log))
  {
    if log != [] {
      var n := |log| - 1;
      var last, front := log[n], log[..n];
      assert log == front + [last];
      DistinctConcat(Parts(parts, front), parts[last.op]);
      OnceIsApart(parts, front);
      assert Entries(log) == Entries(front) + {last};
      if last in front {
        assert Entries(log) == Entries(front);
      } else {
        forall f, o | f in Entries(front) && o in parts[f.op] ensures o !in parts[last.op] {
          PartsMember(parts, front, o);
          assert o in CoveredBy(parts, front);
        }
        ApartSnoc(parts, Entries(front), last);
      }
    }
  }

  lemma {:induction false} PushKeepsOnce(hash: Bytes -> Bytes, s: State, i: nat)
    requires Injective(hash) && Once(s, LogsOf(s)) && Enabled(s, Push(i, true))
    ensures var s' := Act(hash, s, Push(i, true)); Once(s', LogsOf(s'))
  {
  }

  lemma {:induction false} PollKeepsOnce(hash: Bytes -> Bytes, s: State, i: nat, answered: bool)
    requires Once(s, LogsOf(s)) && Enabled(s, Poll(i, answered))
    ensures var s' := Act(hash, s, Poll(i, answered)); Once(s', LogsOf(s'))
  {
  }

  lemma {:induction false} EndKeepsOnce(hash: Bytes -> Bytes, s: State)
    requires Once(s, LogsOf(s)) && Enabled(s, EndMerge)
    ensures var s' := Act(hash, s, EndMerge); Once(s', LogsOf(s'))
  {
  }

  lemma {:induction false} ActKeepsOnce(hash: Bytes -> Bytes, s: State, step: Step)
    requires Injective(hash) && Inv(s) && Once(s, LogsOf(s)) && Enabled(s, step) && CarefulStep(s, step)
    ensures var s' := Act(hash, s, step); Once(s', LogsOf(s'))
  {
    match step
    case Append(op, data) => AppendKeepsOnce(hash, s, op, data);
    case FanOut(op, i, arrives, replied) => FanOutKeepsOnce(hash, s, op, i, arrives, replied);
    case Ack(op) => assert LogsOf(Act(hash, s, step)) == LogsOf(s);
    case StartMerge => assert LogsOf(Act(hash, s, step)) == LogsOf(s);
    case Poll(i, answered) => PollKeepsOnce(hash, s, i, answered);
    case Compact(op, final) => CompactKeepsOnce(hash, s, op, final);
    case Push(i, _) => PushKeepsOnce(hash, s, i);
    case EndMerge => EndKeepsOnce(hash, s);
  }

  lemma {:induction false} InitHoldsOnce(count: nat, op: string, data: Bytes)
    requires count > 0
    ensures Once(Init(count, op, data), LogsOf(Init(count, op, data)))
  {
  }

  lemma {:induction false} CarefulPrefix(hash: Bytes -> Bytes, start: State, steps: seq<Step>)
    requires Careful(hash, start, steps) && steps != []
    ensures var n := |steps| - 1;
      Careful(hash, start, steps[..n]) && CarefulStep(Run(hash, start, steps[..n]), steps[n])
  {
    var n := |steps| - 1;
    forall k | 0 <= k < n ensures CarefulStep(Run(hash, start, steps[..n][..k]), steps[..n][k]) {
      assert steps[..n][..k] == steps[..k];
    }
  }

  lemma {:induction false} CarefulRunKeepsOnce(hash: Bytes -> Bytes, start: State, steps: seq<Step>)
    requires Injective(hash) && Inv(start) && Once(start, LogsOf(start)) && Careful(hash, start, steps)
    ensures Inv(Run(hash, start, steps)) && Once(Run(hash, start, steps), LogsOf(Run(hash, start, steps)))
  {
    RunKeepsInv(hash, start, steps);
    if steps != [] {
      var n := |steps| - 1;
      CarefulPrefix(hash, start, steps);
      CarefulRunKeepsOnce(hash, start, steps[..n]);
      RunKeepsInv(hash, start, steps[..n]);
      NextKeepsOnce(hash, Run(hash, start, steps[..n]), steps[n]);
    }
  }

  lemma {:induction false} NextKeepsOnce(hash: Bytes -> Bytes, s: State, step: Step)
    requires Injective(hash) && Inv(s) && Once(s, LogsOf(s)) && CarefulStep(s, step)
    ensures Once(Next(hash, s, step), LogsOf(Next(hash, s, step)))
  {
    if Enabled(s, step) {
      ActKeepsOnce(hash, s, step);
    }
  }

  /** In a run in which merges start with no fan-out under way and all pushes arrive, polls and fan-outs
      failing as they like, every file is a list of whole appends, each at most once. */
  lemma {:induction false} CarefulRunsWriteOnce(
      hash: Bytes -> Bytes, count: nat, first: string, data: Bytes, steps: seq<Step>, i: nat)
    requires Injective(hash) && i < count && Careful(hash, Init(count, first, data), steps)
    ensures var s := Run(hash, Init(count, first, data), steps);
      && |s.replicas| == count && FileIsWholeAppends(s, i)
      && Distinct(Parts(s.parts, Log(s.replicas[i])))
      && s.acked <= Covered(s, i)
  {
    var start := Init(count, first, data);
    CarefulRunReaches(hash, count, first, data, steps);
    var s := Run(hash, start, steps);
    InvFiles(s, i);
    assert LogsOf(s)[i] == Log(s.replicas[i]) && Held(s)[i] == Covered(s, i);
  }

  lemma {:induction false} CarefulRunReaches(
      hash: Bytes -> Bytes, count: nat, first: string, data: Bytes, steps: seq<Step>)
    requires Injective(hash) && count > 0 && Careful(hash, Init(count, first, data), steps)
    ensures var s := Run(hash, Init(count, first, data), steps);
      Inv(s) && Once(s, LogsOf(s)) && |s.replicas| == count && first in s.acked
  {
    InitHasInv(count, first, data);
    InitHoldsOnce(count, first, data);
    CarefulRunKeepsOnce(hash, Init(count, first, data), steps);
    RunKeepsInv(hash, Init(count, first, data), steps);
  }
}
