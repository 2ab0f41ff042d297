/**
 * A replicated HyDFS file under concurrent appends and merges with one primary. Replica 0 is
 * the primary. An append is written at the primary under its lock and fanned out after the
 * lock is released; a merge polls all logs, compacts them into one entry and pushes it,
 * holding the primary's lock throughout. Every poll, fan-out and push may fail, and a
 * fan-out may succeed without its reply arriving.
 *
 * `parts` says which client operations an operation ID stands for, in order: an append for
 * itself, the compacted entry of a merge for all that the merged entries stood for.
 */
module HydfsProtocol {
  import opened Sequences
  import opened Hydfs

  datatype Merge = Merge(polls: map<nat, Option<seq<LogEntry>>>, compacted: Option<LogEntry>, pushed: set<nat>)

  datatype State = State(
    replicas: seq<Replica>,
    issued: map<string, Bytes>,
    parts: map<string, seq<string>>,
    outstanding: set<(string, nat)>,
    confirmed: set<(string, nat)>,
    acked: set<string>,
    merge: Option<Merge>)

  datatype Step =
    | Append(op: string, data: Bytes)
    | FanOut(op: string, replica: nat, arrives: bool, replied: bool)
    | Ack(op: string)
    | StartMerge
    | Poll(replica: nat, answered: bool)
    | Compact(op: string, final: seq<LogEntry>)
    | Push(replica: nat, arrives: bool)
    | EndMerge

  /** The file has been created on all replicas. */
  function Init(count: nat, op: string, data: Bytes): State {
    State(seq(count, _ => Replica(Some(data), Some([LogEntry(op, data)]))),
          map[op := data], map[op := [op]], {}, {}, {op}, None)
  }

  function Log(r: Replica): seq<LogEntry> {
    if r.log.Some? then r.log.value else []
  }

  /** The client operations in a log, in order. */
  function Parts(parts: map<string, seq<string>>, log: seq<LogEntry>): seq<string> {
    if log == [] then []
    else
      var last := log[|log| - 1].op;
      Parts(parts, log[..|log| - 1]) + if last in parts then parts[last] else []
  }

  function CoveredBy(parts: map<string, seq<string>>, log: seq<LogEntry>): set<string> {
    set o | o in Parts(parts, log)
  }

  /** The operations that replica i holds. */
  function Covered(s: State, i: nat): set<string>
    requires i < |s.replicas|
  {
    CoveredBy(s.parts, Log(s.replicas[i]))
  }

  function PolledEntries(m: Merge): set<LogEntry> {
    set i, e | i in m.polls && m.polls[i].Some? && e in m.polls[i].value :: e
  }

  ghost predicate Enabled(s: State, step: Step) {
    match step
    case Append(op, _) => s.merge.None? && op !in s.issued && |s.replicas| > 0
    case FanOut(op, i, _, _) => (op, i) in s.outstanding && op in s.issued && i < |s.replicas|
    case Ack(op) =>
      op in s.parts && s.parts[op] == [op] && forall i: nat :: 1 <= i < |s.replicas| ==> (op, i) in s.confirmed
    case StartMerge => s.merge.None?
    case Poll(i, answered) =>
      && s.merge.Some? && s.merge.value.compacted.None?
      && i < |s.replicas| && i !in s.merge.value.polls && (i == 0 ==> answered)
    case Compact(op, final) =>
      && s.merge.Some? && s.merge.value.compacted.None? && op !in s.issued
      && (forall i: nat :: i < |s.replicas| ==> i in s.merge.value.polls)
      && Sorted(final) && OnePerOp(PolledEntries(s.merge.value), Entries(final))
    case Push(i, arrives) =>
      && s.merge.Some? && s.merge.value.compacted.Some?
      && i < |s.replicas| && i !in s.merge.value.pushed && (i == 0 ==> arrives)
    case EndMerge =>
      s.merge.Some? && s.merge.value.compacted.Some? && forall i: nat :: i < |s.replicas| ==> i in s.merge.value.pushed
  }

  ghost function Act(hash: Bytes -> Bytes, s: State, step: Step): State
    requires Enabled(s, step)
  {
    match step
    case Append(op, data) =>
      s.(replicas := s.replicas[0 := AppendOn(s.replicas[0], op, data).replica],
         issued := s.issued[op := data],
         parts := s.parts[op := [op]],
         outstanding := s.outstanding + set i: nat | 1 <= i < |s.replicas| :: (op, i))
    case FanOut(op, i, arrives, replied) =>
      s.(replicas := if arrives then s.replicas[i := AppendOn(s.replicas[i], op, s.issued[op]).replica] else s.replicas,
         outstanding := s.outstanding - {(op, i)},
         confirmed := if arrives && replied then s.confirmed + {(op, i)} else s.confirmed)
    case Ack(op) => s.(acked := s.acked + {op})
    case StartMerge => s.(merge := Some(Merge(map[], None, {})))
    case Poll(i, answered) =>
      var m := s.merge.value;
      s.(merge := Some(m.(polls := m.polls[i := if answered then Some(Log(s.replicas[i])) else None])))
    case Compact(op, final) =>
      s.(issued := s.issued[op := Concat(final)],
         parts := s.parts[op := Parts(s.parts, final)],
         merge := Some(s.merge.value.(compacted := Some(LogEntry(op, Concat(final))))))
    case Push(i, arrives) =>
      var m := s.merge.value;
      var e := m.compacted.value;
      s.(replicas := if arrives then s.replicas[i := ReconcileOn(s.replicas[i], e.data, [e], hash)] else s.replicas,
         merge := Some(m.(pushed := m.pushed + {i})))
    case EndMerge => s.(merge := None)
  }

  ghost function Next(hash: Bytes -> Bytes, s: State, step: Step): State {
    if Enabled(s, step) then Act(hash, s, step) else s
  }

  ghost function Stepper(hash: Bytes -> Bytes): (State, Step) -> State {
    (s: State, step: Step) => Next(hash, s, step)
  }

  ghost function Run(hash: Bytes -> Bytes, start: State, steps: seq<Step>): State {
    Fold(Stepper(hash), start, steps)
  }

  // ---------------------------------------------------------------- invariant

  type Issued = map<string, Bytes>
  type PartMap = map<string, seq<string>>

  /** What each replica holds. */
  function Held(s: State): (held: seq<set<string>>)
    ensures |held| == |s.replicas|
    ensures forall i :: 0 <= i < |held| ==> held[i] == Covered(s, i)
  {
    seq(|s.replicas|, i requires 0 <= i < |s.replicas| => Covered(s, i))
  }

  /** All entries carry the data issued under their ID. */
  ghost predicate Known(issued: Issued, parts: PartMap, log: seq<LogEntry>) {
    forall e :: e in log ==> e.op in issued && e.op in parts && issued[e.op] == e.data
  }

  /** The data of client operations, one after the other. */
  function Text(issued: Issued, ops: seq<string>): Bytes {
    if ops == [] then []
    else
      var last := ops[|ops| - 1];
      Text(issued, ops[..|ops| - 1]) + if last in issued then issued[last] else []
  }

  /** The data under an ID is that of the client operations it stands for. */
  ghost predicate PartsOk(issued: Issued, parts: PartMap) {
    && issued.Keys == parts.Keys
    && (forall id :: id in parts ==>
          (forall o :: o in parts[id] ==> o in issued) && issued[id] == Text(issued, parts[id]))
  }

  ghost predicate ReplicaOk(issued: Issued, parts: PartMap, r: Replica) {
    FileEqualsLog(r) && Known(issued, parts, Log(r))
  }

  /** The primary holds all that any replica holds. */
  ghost predicate PrimaryHoldsMost(held: seq<set<string>>) {
    |held| > 0 && forall i :: 0 <= i < |held| ==> held[i] <= held[0]
  }

  ghost predicate FanOutOk(
      parts: PartMap, held: seq<set<string>>, outstanding: set<(string, nat)>, confirmed: set<(string, nat)>)
    requires |held| > 0
  {
    && (forall p :: p in outstanding ==> 1 <= p.1 < |held| && p.0 in parts && parts[p.0] == [p.0] && p.0 in held[0])
    && (forall p :: p in confirmed ==> p.1 < |held| && p.0 in held[p.1])
    && (forall op :: op in parts && parts[op] == [op] ==> op in held[0])
  }

  ghost predicate AckedOk(issued: Issued, held: seq<set<string>>, acked: set<string>) {
    acked <= issued.Keys && forall i :: 0 <= i < |held| ==> acked <= held[i]
  }

  ghost predicate MergeOk(issued: Issued, parts: PartMap, primary: set<string>, m: Merge) {
    && (forall i :: i in m.polls && m.polls[i].Some? ==>
          Known(issued, parts, m.polls[i].value) && CoveredBy(parts, m.polls[i].value) <= primary)
    && (0 in m.polls ==> m.polls[0].Some? && CoveredBy(parts, m.polls[0].value) == primary)
    && (m.compacted.Some? ==>
          Known(issued, parts, [m.compacted.value]) && CoveredBy(parts, [m.compacted.value]) == primary)
  }

  ghost predicate LogsOk(s: State) {
    forall i :: 0 <= i < |s.replicas| ==> ReplicaOk(s.issued, s.parts, s.replicas[i])
  }

  ghost predicate HoldingsOk(s: State, held: seq<set<string>>) {
    && PrimaryHoldsMost(held)
    && FanOutOk(s.parts, held, s.outstanding, s.confirmed)
    && AckedOk(s.issued, held, s.acked)
    && (s.merge.Some? ==> MergeOk(s.issued, s.parts, held[0], s.merge.value))
  }

  ghost predicate Inv(s: State) {
    LogsOk(s) && PartsOk(s.issued, s.parts) && HoldingsOk(s, Held(s))
  }

  lemma {:induction false} PartsSnoc(parts: PartMap, log: seq<LogEntry>, e: LogEntry)
    requires e.op in parts
    ensures Parts(parts, log + [e]) == Parts(parts, log) + parts[e.op]
    ensures CoveredBy(parts, log + [e]) == CoveredBy(parts, log) + set o | o in parts[e.op]
  {
  }

  lemma {:induction false} PartsSingle(parts: PartMap, e: LogEntry)
    requires e.op in parts
    ensures Parts(parts, [e]) == parts[e.op]
  {
  }

  lemma {:induction false} PartsMember(parts: PartMap, log: seq<LogEntry>, o: string)
    ensures o in CoveredBy(parts, log) <==> exists e :: e in log && e.op in parts && o in parts[e.op]
  {
    if log != [] {
      var n := |log| - 1;
      PartsMember(parts, log[..n], o);
      assert log == log[..n] + [log[n]];
    }
  }

  lemma {:induction false} PartsHas(parts: PartMap, log: seq<LogEntry>, o: string)
    ensures o in Parts(parts, log) <==> exists e :: e in log && e.op in parts && o in parts[e.op]
  {
    PartsMember(parts, log, o);
    assert o in Parts(parts, log) <==> o in CoveredBy(parts, log);
  }

  lemma {:induction false} TextConcat(issued: Issued, a: seq<string>, b: seq<string>)
    ensures Text(issued, a + b) == Text(issued, a) + Text(issued, b)
  {
    if b == [] {
      assert a + b == a;
    } else {
      var n := |b| - 1;
      TextConcat(issued, a, b[..n]);
      assert (a + b)[..|a| + n] == a + b[..n];
    }
  }

  /** The data of a log is that of the client operations in it. */
  lemma {:induction false} ConcatIsText(issued: Issued, parts: PartMap, log: seq<LogEntry>)
    requires PartsOk(issued, parts) && Known(issued, parts, log)
    ensures Concat(log) == Text(issued, Parts(parts, log))
  {
    if log != [] {
      var n := |log| - 1;
      ConcatIsText(issued, parts, log[..n]);
      TextConcat(issued, Parts(parts, log[..n]), parts[log[n].op]);
    }
  }

  lemma {:induction false} TextAfterIssue(issued: Issued, op: string, data: Bytes, ops: seq<string>)
    requires op !in ops
    ensures Text(issued[op := data], ops) == Text(issued, ops)
  {
    if ops != [] {
      TextAfterIssue(issued, op, data, ops[..|ops| - 1]);
    }
  }

  /** A new operation ID leaves what known logs stand for as it is. */
  lemma {:induction false} KnownAfterIssue(
      issued: Issued, parts: PartMap, op: string, data: Bytes, ops: seq<string>, log: seq<LogEntry>)
    requires op !in issued && Known(issued, parts, log)
    ensures Known(issued[op := data], parts[op := ops], log)
    ensures Parts(parts[op := ops], log) == Parts(parts, log)
  {
    if log != [] {
      KnownAfterIssue(issued, parts, op, data, ops, log[..|log| - 1]);
    }
  }

  lemma {:induction false} IssueKeepsMergeOk(
      issued: Issued, parts: PartMap, op: string, data: Bytes, ops: seq<string>, primary: set<string>, m: Merge)
    requires MergeOk(issued, parts, primary, m) && op !in issued
    ensures MergeOk(issued[op := data], parts[op := ops], primary, m)
  {
    var issued', parts' := issued[op := data], parts[op := ops];
    forall i | i in m.polls && m.polls[i].Some?
      ensures Known(issued', parts', m.polls[i].value)
      ensures CoveredBy(parts', m.polls[i].value) == CoveredBy(parts, m.polls[i].value)
    {
      KnownAfterIssue(issued, parts, op, data, ops, m.polls[i].value);
    }
    if m.compacted.Some? {
      KnownAfterIssue(issued, parts, op, data, ops, [m.compacted.value]);
    }
  }

  lemma {:induction false} IssueKeepsPartsOk(issued: Issued, parts: PartMap, op: string, data: Bytes, ops: seq<string>)
    requires PartsOk(issued, parts) && op !in issued
    requires ops == [op] || (data == Text(issued, ops) && forall o :: o in ops ==> o in issued)
    ensures PartsOk(issued[op := data], parts[op := ops])
  {
    var issued', parts' := issued[op := data], parts[op := ops];
    assert Text(issued', [op]) == Text(issued', []) + data;
    forall id | id in parts'
      ensures (forall o :: o in parts'[id] ==> o in issued') && issued'[id] == Text(issued', parts'[id])
    {
      if id != op || ops != [op] {
        TextAfterIssue(issued, op, data, parts'[id]);
      }
    }
  }

  /** Writing a known operation at the end of a replica. */
  lemma {:induction false} AppendAt(issued: Issued, parts: PartMap, r: Replica, e: LogEntry)
    requires ReplicaOk(issued, parts, r) && Known(issued, parts, [e])
    ensures var r' := AppendOn(r, e.op, e.data).replica;
      e.op in parts && ReplicaOk(issued, parts, r') && Parts(parts, Log(r')) == Parts(parts, Log(r)) + parts[e.op]
  {
  }

  /** Overwriting a replica by a known entry. */
  lemma {:induction false} ReconcileAt(hash: Bytes -> Bytes, issued: Issued, parts: PartMap, r: Replica, e: LogEntry)
    requires Injective(hash) && Known(issued, parts, [e])
    ensures var r' := ReconcileOn(r, e.data, [e], hash);
      ReplicaOk(issued, parts, r') && Parts(parts, Log(r')) == Parts(parts, [e])
  {
    ReconcileIsOverwrite(r, e.data, [e], hash);
    ConcatSnoc([], e);
    assert [] + [e] == [e];
  }

  // ---------------------------------------------------------------- every step keeps the invariant

  /** Replica i changed, to one that holds `ops`. */
  lemma {:induction false} HeldAfterWrite(s: State, s': State, i: nat, ops: set<string>)
    requires i < |s.replicas| && LogsOk(s)
    requires s'.parts == s.parts && s'.issued == s.issued && |s'.replicas| == |s.replicas|
    requires s'.replicas == s.replicas[i := s'.replicas[i]]
    requires ReplicaOk(s.issued, s.parts, s'.replicas[i]) && Covered(s', i) == ops
    ensures LogsOk(s') && Held(s') == Held(s)[i := ops]
  {
  }

  lemma {:induction false} HeldSame(s: State, s': State)
    requires s'.parts == s.parts && s'.replicas == s.replicas
    ensures Held(s') == Held(s)
  {
  }

  /** The state with a further operation ID, before anything is written under it. */
  function Issue(s: State, op: string, data: Bytes, ops: seq<string>): State {
    s.(issued := s.issued[op := data], parts := s.parts[op := ops])
  }

  lemma {:induction false} HeldAfterIssue(s: State, op: string, data: Bytes, ops: seq<string>)
    requires LogsOk(s) && op !in s.issued
    ensures LogsOk(Issue(s, op, data, ops)) && Held(Issue(s, op, data, ops)) == Held(s)
  {
    var s' := Issue(s, op, data, ops);
    forall k | 0 <= k < |s.replicas|
      ensures ReplicaOk(s'.issued, s'.parts, s'.replicas[k]) && Held(s')[k] == Held(s)[k]
    {
      KnownAfterIssue(s.issued, s.parts, op, data, ops, Log(s.replicas[k]));
    }
  }

  /** What a step does to what is held, issued and acknowledged: nothing is taken back. */
  ghost predicate Grows(s: State, s': State) {
    && |s'.replicas| == |s.replicas|
    && (forall i :: 0 <= i < |s.replicas| ==> Held(s)[i] <= Held(s')[i])
    && (forall o :: o in s.issued ==> o in s'.issued && s'.issued[o] == s.issued[o])
    && s.acked <= s'.acked
  }

  lemma {:induction false} AppendKeepsInv(hash: Bytes -> Bytes, s: State, op: string, data: Bytes)
    requires Inv(s) && Enabled(s, Append(op, data))
    ensures Inv(Act(hash, s, Append(op, data))) && Grows(s, Act(hash, s, Append(op, data)))
  {
    var s' := Act(hash, s, Append(op, data));
    IssueKeepsPartsOk(s.issued, s.parts, op, data, [op]);
    AppendHolds(s, s', 0, op, data);
    AppendKeepsHoldings(s, s', Held(s), Held(s'), op);
    assert Grows(s, s') by { HeldGrows(s, s', 0, {op}); }
  }

  lemma {:induction false} HeldGrows(s: State, s': State, i: nat, ops: set<string>)
    requires i < |s.replicas| && Held(s') == Held(s)[i := Held(s)[i] + ops]
    ensures |s'.replicas| == |s.replicas| && forall k :: 0 <= k < |s.replicas| ==> Held(s)[k] <= Held(s')[k]
  {
  }

  lemma {:induction false} AppendHolds(s: State, s': State, i: nat, op: string, data: Bytes)
    requires LogsOk(s) && op !in s.issued && i < |s.replicas|
    requires s'.replicas == s.replicas[i := AppendOn(s.replicas[i], op, data).replica]
    requires s'.issued == s.issued[op := data] && s'.parts == s.parts[op := [op]]
    ensures LogsOk(s') && Held(s') == Held(s)[i := Held(s)[i] + {op}]
  {
    var mid := Issue(s, op, data, [op]);
    HeldAfterIssue(s, op, data, [op]);
    AppendAt(mid.issued, mid.parts, mid.replicas[i], LogEntry(op, data));
    HeldAfterWrite(mid, s', i, Covered(mid, i) + {op});
    assert Held(mid)[i] == Covered(mid, i);
  }

  lemma {:induction false} AppendKeepsHoldings(
      s: State, s': State, held: seq<set<string>>, held': seq<set<string>>, op: string)
    requires HoldingsOk(s, held) && op !in s.issued && s.issued.Keys == s.parts.Keys && s.merge.None? && s'.merge.None?
    requires op in s'.issued && s.issued.Keys <= s'.issued.Keys && s'.parts == s.parts[op := [op]]
    requires s'.outstanding == s.outstanding + set i: nat | 1 <= i < |held| :: (op, i)
    requires s'.confirmed == s.confirmed && s'.acked == s.acked
    requires held' == held[0 := held[0] + {op}]
    ensures HoldingsOk(s', held')
  {
  }

  lemma {:induction false} FanOutKeepsInv(
      hash: Bytes -> Bytes, s: State, op: string, i: nat, arrives: bool, replied: bool)
    requires Inv(s) && Enabled(s, FanOut(op, i, arrives, replied))
    ensures Inv(Act(hash, s, FanOut(op, i, arrives, replied)))
    ensures Grows(s, Act(hash, s, FanOut(op, i, arrives, replied)))
  {
    var s' := Act(hash, s, FanOut(op, i, arrives, replied));
    assert (op, i) in s.outstanding;
    assert s.parts[op] == [op];
    if arrives {
      FanOutHolds(s, s', op, i);
    } else {
      HeldSame(s, s');
    }
    FanOutKeepsHoldings(s, s', Held(s), Held(s'), op, i, arrives);
  }

  lemma {:induction false} FanOutHolds(s: State, s': State, op: string, i: nat)
    requires LogsOk(s) && op in s.issued && op in s.parts && s.parts[op] == [op] && i < |s.replicas|
    requires s'.replicas == s.replicas[i := AppendOn(s.replicas[i], op, s.issued[op]).replica]
    requires s'.issued == s.issued && s'.parts == s.parts
    ensures LogsOk(s') && Held(s') == Held(s)[i := Held(s)[i] + {op}]
  {
    assert ReplicaOk(s.issued, s.parts, s.replicas[i]);
    AppendAt(s.issued, s.parts, s.replicas[i], LogEntry(op, s.issued[op]));
    HeldAfterWrite(s, s', i, Covered(s, i) + {op});
    assert Held(s)[i] == Covered(s, i);
  }

  lemma {:induction false} FanOutKeepsHoldings(
    s: State, s': State, held: seq<set<string>>, held': seq<set<string>>, op: string, i: nat, arrives: bool)
    requires HoldingsOk(s, held) && (op, i) in s.outstanding
    requires s'.issued == s.issued && s'.parts == s.parts && s'.merge == s.merge && s'.acked == s.acked
    requires s'.outstanding <= s.outstanding && s'.confirmed <= s.confirmed + if arrives then {(op, i)} else {}
    requires held' == if arrives then held[i := held[i] + {op}] else held
    ensures HoldingsOk(s', held')
  {
  }

  lemma {:induction false} PushKeepsInv(hash: Bytes -> Bytes, s: State, i: nat, arrives: bool)
    requires Injective(hash) && Inv(s) && Enabled(s, Push(i, arrives))
    ensures Inv(Act(hash, s, Push(i, arrives))) && Grows(s, Act(hash, s, Push(i, arrives)))
  {
    var s' := Act(hash, s, Push(i, arrives));
    var held := Held(s);
    if arrives {
      ReconcileAt(hash, s.issued, s.parts, s.replicas[i], s.merge.value.compacted.value);
      HeldAfterWrite(s, s', i, held[0]);
    } else {
      HeldSame(s, s');
    }
    PushKeepsHoldings(s, s', held, Held(s'), i, arrives);
  }

  lemma {:induction false} PushKeepsHoldings(
      s: State, s': State, held: seq<set<string>>, held': seq<set<string>>, i: nat, arrives: bool)
    requires HoldingsOk(s, held) && i < |held| && s.merge.Some? && s'.merge.Some?
    requires s' == s.(replicas := s'.replicas, merge := s'.merge)
    requires s'.merge.value == s.merge.value.(pushed := s'.merge.value.pushed)
    requires held' == if arrives then held[i := held[0]] else held
    ensures HoldingsOk(s', held')
  {
  }

  lemma {:induction false} PollKeepsInv(hash: Bytes -> Bytes, s: State, i: nat, answered: bool)
    requires Inv(s) && Enabled(s, Poll(i, answered))
    ensures Inv(Act(hash, s, Poll(i, answered))) && Grows(s, Act(hash, s, Poll(i, answered)))
  {
    var s' := Act(hash, s, Poll(i, answered));
    var held, m := Held(s), s.merge.value;
    HeldSame(s, s');
    assert ReplicaOk(s.issued, s.parts, s.replicas[i]);
    assert CoveredBy(s.parts, Log(s.replicas[i])) == held[i];
    var answer := if answered then Some(Log(s.replicas[i])) else None;
    PollKeepsMergeOk(s.issued, s.parts, held[0], m, s'.merge.value, i, answer);
    MergeKeepsHoldings(s, s', held);
  }

  lemma {:induction false} MergeKeepsHoldings(s: State, s': State, held: seq<set<string>>)
    requires HoldingsOk(s, held) && s' == s.(merge := s'.merge)
    requires s'.merge.Some? ==> MergeOk(s.issued, s.parts, held[0], s'.merge.value)
    ensures HoldingsOk(s', held)
  {
  }

  lemma {:induction false} PollKeepsMergeOk(
      issued: Issued, parts: PartMap, primary: set<string>, m: Merge, m': Merge, i: nat, log: Option<seq<LogEntry>>)
    requires MergeOk(issued, parts, primary, m) && m' == m.(polls := m.polls[i := log])
    requires log.Some? ==> Known(issued, parts, log.value) && CoveredBy(parts, log.value) <= primary
    requires i == 0 ==> log.Some? && CoveredBy(parts, log.value) == primary
    ensures MergeOk(issued, parts, primary, m')
  {
  }

  /** What has been polled is consistent. */
  lemma {:induction false} PolledIsKnown(issued: Issued, parts: PartMap, primary: set<string>, m: Merge)
    requires MergeOk(issued, parts, primary, m)
    ensures Consistent(PolledEntries(m))
    ensures forall e :: e in PolledEntries(m) ==> e.op in issued && e.op in parts && issued[e.op] == e.data
  {
  }

  /** The merged log covers what the primary holds. */
  lemma {:induction false} MergeCoversPrimary(
      issued: Issued, parts: PartMap, primary: set<string>, m: Merge, final: seq<LogEntry>)
    requires MergeOk(issued, parts, primary, m) && 0 in m.polls && Entries(final) == PolledEntries(m)
    ensures CoveredBy(parts, final) == primary
  {
    forall o ensures o in CoveredBy(parts, final) <==> o in primary {
      PartsMember(parts, final, o);
      PartsMember(parts, m.polls[0].value, o);
      assert forall e :: e in final <==> e in PolledEntries(m) by {
        assert forall e :: e in final <==> e in Entries(final);
      }
      if o in CoveredBy(parts, final) {
        var e :| e in final && e.op in parts && o in parts[e.op];
        var i :| i in m.polls && m.polls[i].Some? && e in m.polls[i].value;
        PartsMember(parts, m.polls[i].value, o);
      }
    }
  }

  lemma {:induction false} CompactKeepsInv(hash: Bytes -> Bytes, s: State, op: string, final: seq<LogEntry>)
    requires Inv(s) && Enabled(s, Compact(op, final))
    ensures Inv(Act(hash, s, Compact(op, final))) && Grows(s, Act(hash, s, Compact(op, final)))
  {
    var data, ops := Concat(final), Parts(s.parts, final);
    var m, held := s.merge.value, Held(s);
    var s' := Act(hash, s, Compact(op, final));
    PolledIsKnown(s.issued, s.parts, held[0], m);
    ConsistentMerge(PolledEntries(m), final);
    MergeCoversPrimary(s.issued, s.parts, held[0], m, final);
    assert Known(s.issued, s.parts, final) by {
      assert forall e :: e in final ==> e in Entries(final);
    }
    KnownPartsIssued(s.issued, s.parts, final);
    ConcatIsText(s.issued, s.parts, final);
    HeldAfterIssue(s, op, data, ops);
    HeldSame(Issue(s, op, data, ops), s');
    IssueKeepsPartsOk(s.issued, s.parts, op, data, ops);
    IssueKeepsMergeOk(s.issued, s.parts, op, data, ops, held[0], m);
    CompactedIsOk(s'.issued, s'.parts, held[0], m, s'.merge.value, LogEntry(op, data));
    CompactKeepsHoldings(s, s', held, op, ops);
  }

  lemma {:induction false} KnownPartsIssued(issued: Issued, parts: PartMap, log: seq<LogEntry>)
    requires PartsOk(issued, parts) && Known(issued, parts, log)
    ensures forall o :: o in Parts(parts, log) ==> o in issued
  {
    forall o | o in Parts(parts, log) ensures o in issued {
      PartsMember(parts, log, o);
      assert o in CoveredBy(parts, log);
    }
  }

  lemma {:induction false} CompactedIsOk(
      issued: Issued, parts: PartMap, primary: set<string>, m: Merge, m': Merge, e: LogEntry)
    requires MergeOk(issued, parts, primary, m) && m' == m.(compacted := Some(e))
    requires e.op in issued && e.op in parts && issued[e.op] == e.data && (set o | o in parts[e.op]) == primary
    ensures MergeOk(issued, parts, primary, m')
  {
    PartsSingle(parts, e);
  }

  lemma {:induction false} CompactKeepsHoldings(
      s: State, s': State, held: seq<set<string>>, op: string, ops: seq<string>)
    requires HoldingsOk(s, held) && op !in s.issued && s.issued.Keys == s.parts.Keys && op !in ops
    requires s.issued.Keys <= s'.issued.Keys && s'.parts == s.parts[op := ops]
    requires s'.outstanding == s.outstanding && s'.confirmed == s.confirmed && s'.acked == s.acked
    requires s'.merge.Some? && MergeOk(s'.issued, s'.parts, held[0], s'.merge.value)
    ensures HoldingsOk(s', held)
  {
  }

  lemma {:induction false} AckKeepsInv(hash: Bytes -> Bytes, s: State, op: string)
    requires Inv(s) && Enabled(s, Ack(op))
    ensures Inv(Act(hash, s, Ack(op))) && Grows(s, Act(hash, s, Ack(op)))
  {
    HeldSame(s, Act(hash, s, Ack(op)));
    var held := Held(s);
    forall i | 0 <= i < |held| ensures op in held[i] {
      if i > 0 {
        assert (op, i) in s.confirmed;
      }
    }
  }

  lemma {:induction false} StartOrEndKeepsInv(hash: Bytes -> Bytes, s: State, step: Step)
    requires Inv(s) && Enabled(s, step) && (step.StartMerge? || step.EndMerge?)
    ensures Inv(Act(hash, s, step)) && Grows(s, Act(hash, s, step))
  {
    HeldSame(s, Act(hash, s, step));
  }

  lemma {:induction false} ActKeepsInv(hash: Bytes -> Bytes, s: State, step: Step)
    requires Injective(hash) && Inv(s) && Enabled(s, step)
    ensures Inv(Act(hash, s, step)) && Grows(s, Act(hash, s, step))
  {
    match step
    case Append(op, data) => AppendKeepsInv(hash, s, op, data);
    case FanOut(op, i, arrives, replied) => FanOutKeepsInv(hash, s, op, i, arrives, replied);
    case Ack(op) => AckKeepsInv(hash, s, op);
    case Poll(i, answered) => PollKeepsInv(hash, s, i, answered);
    case Compact(op, final) => CompactKeepsInv(hash, s, op, final);
    case Push(i, arrives) => PushKeepsInv(hash, s, i, arrives);
    case _ => StartOrEndKeepsInv(hash, s, step);
  }

  lemma {:induction false} InitHasInv(count: nat, op: string, data: Bytes)
    requires count > 0
    ensures Inv(Init(count, op, data))
  {
    var s := Init(count, op, data);
    var e, held := LogEntry(op, data), seq(count, _ => {op});
    ConcatSnoc([], e);
    assert [] + [e] == [e];
    PartsSingle(s.parts, e);
    assert [op][..0] == [] && Text(s.issued, []) == [];
    assert Text(s.issued, [op]) == data;
    assert Known(s.issued, s.parts, [e]);
    assert LogsOk(s);
    assert Held(s) == held by {
      assert forall i: nat :: i < count ==> Log(s.replicas[i]) == [e] && Covered(s, i) == {op};
    }
    InitHoldings(s, held, op);
  }

  lemma {:induction false} InitHoldings(s: State, held: seq<set<string>>, op: string)
    requires |held| > 0 && forall i :: 0 <= i < |held| ==> held[i] == {op}
    requires s.issued.Keys == {op} && s.parts == map[op := [op]] && s.outstanding == {} && s.confirmed == {}
    requires s.acked == {op} && s.merge.None?
    ensures HoldingsOk(s, held)
  {
  }

  lemma {:induction false} RunKeepsInv(hash: Bytes -> Bytes, start: State, steps: seq<Step>)
    requires Injective(hash) && Inv(start)
    ensures Inv(Run(hash, start, steps)) && Grows(start, Run(hash, start, steps))
  {
    if steps != [] {
      var n := |steps| - 1;
      var before := Run(hash, start, steps[..n]);
      RunKeepsInv(hash, start, steps[..n]);
      if Enabled(before, steps[n]) {
        ActKeepsInv(hash, before, steps[n]);
      }
    }
  }
}
