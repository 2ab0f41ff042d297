/**
 * Exactly when a file holds every operation once, over all runs. A replica falls behind when it
 * misses the push of a merge, or takes a fan-out that a pushed merge has overtaken. The primary's
 * file repeats an operation exactly when a replica that was behind has answered a merge; and as
 * long as none has, another replica's file repeats one exactly when an overtaken fan-out
 * arrived after its last push.
 */
module HydfsBehind {
  import opened Sequences
  import opened Hydfs
  import opened HydfsProtocol
  import opened HydfsResults
  import opened HydfsOnce

  /** What can be observed of a run. `behind` are the replicas that have something else than the newest
      compacted entry and what was appended since, `overtaken` the fan-outs that were under way when a push
      arrived at their replica, `doubled` the replicas where such a fan-out arrived after the last push; and
      `mixed` says that a replica that was behind has answered a merge. */
  datatype Track = Track(behind: set<nat>, overtaken: set<(string, nat)>, doubled: set<nat>, mixed: bool)

  function Below(n: nat): (r: set<nat>)
    ensures forall i: nat :: i in r <==> i < n
  {
    if n == 0 then {} else Below(n - 1) + {n - 1}
  }

  function Observe(s: State, t: Track, step: Step): Track {
    match step
    case FanOut(op, i, arrives, _) =>
      if arrives && (op, i) in t.overtaken then t.(behind := t.behind + {i}, doubled := t.doubled + {i}) else t
    case Poll(i, answered) => t.(mixed := t.mixed || (answered && i in t.behind))
    case Compact(_, _) => t.(behind := Below(|s.replicas|))
    case Push(i, arrives) =>
      if !arrives then t else
        t.(behind := t.behind - {i}, doubled := t.doubled - {i},
           overtaken := t.overtaken + set p | p in s.outstanding && p.1 == i)
    case _ => t
  }

  ghost function Watch(hash: Bytes -> Bytes, start: State, steps: seq<Step>): Track {
    if steps == [] then Track({}, {}, {}, false) else
      var front, last := steps[..|steps| - 1], steps[|steps| - 1];
      var s, t := Run(hash, start, front), Watch(hash, start, front);
      if Enabled(s, last) then Observe(s, t, last) else t
  }

  // ---------------------------------------------------------------- what the observations say

  function LogOf(s: State, i: nat): seq<LogEntry> {
    if i < |s.replicas| then Log(s.replicas[i]) else []
  }

  ghost predicate Compacting(s: State) {
    s.merge.Some? && s.merge.value.compacted.Some?
  }

  /** The entries that a replica has that is not behind: those of the primary, or the one that
      a merge is pushing. */
  ghost function Newest(s: State): set<LogEntry> {
    if Compacting(s) then {s.merge.value.compacted.value} else Entries(LogOf(s, 0))
  }

  /** The entries that a merge has gathered, with those. */
  ghost function Gathered(s: State): set<LogEntry> {
    Newest(s) + if s.merge.Some? && !Compacting(s) then PolledEntries(s.merge.value) else {}
  }

  ghost predicate PrimaryOk(s: State) {
    && Distinct(LogOf(s, 0))
    && (s.merge.Some? && !Compacting(s) ==>
          s.merge.value.pushed == {} && (0 in s.merge.value.polls ==> s.merge.value.polls[0] == Some(LogOf(s, 0))))
    && (Compacting(s) ==>
          var e := s.merge.value.compacted.value;
          && (0 in s.merge.value.pushed ==> LogOf(s, 0) == [e])
          && forall p :: p in s.outstanding ==> p.0 != e.op)
  }

  ghost predicate MixedOk(s: State, t: Track) {
    t.mixed <==> !Apart(s.parts, Gathered(s))
  }

  /** An entry that stands for something the newest entries hold under another ID. */
  ghost predicate Outdated(s: State, e: LogEntry) {
    e !in Newest(s) && e.op in s.parts && s.parts[e.op] != []
  }

  ghost predicate BehindOk(s: State, t: Track, i: nat) {
    if i in t.behind then exists e :: e in LogOf(s, i) && Outdated(s, e) else Entries(LogOf(s, i)) <= Newest(s)
  }

  function Pending(s: State, p: (string, nat)): LogEntry {
    LogEntry(p.0, if p.0 in s.issued then s.issued[p.0] else [])
  }

  ghost predicate FanOutTracked(s: State, t: Track, p: (string, nat)) {
    var held := Parts(s.parts, LogOf(s, p.1));
    if p in t.overtaken then p.0 in held && Pending(s, p) !in Newest(s)
    else p.0 !in held && (p.1 !in t.behind ==> Pending(s, p) in Newest(s))
  }

  ghost predicate DoubledOk(s: State, t: Track, i: nat) {
    !t.mixed ==> (Distinct(Parts(s.parts, LogOf(s, i))) <==> i !in t.doubled)
  }

  ghost predicate Tracks(s: State, t: Track) {
    && PrimaryOk(s)
    && MixedOk(s, t)
    && (forall i: nat :: i < |s.replicas| ==> BehindOk(s, t, i) && DoubledOk(s, t, i))
    && (forall p :: p in s.outstanding ==> FanOutTracked(s, t, p))
    && (forall p :: p in t.overtaken ==> p.0 in s.issued)
  }

  /** What is needed of the invariant here. */
  ghost predicate Sane(s: State) {
    && |s.replicas| > 0 && s.issued.Keys == s.parts.Keys
    && (forall i: nat, e :: i < |s.replicas| && e in LogOf(s, i) ==>
          e.op in s.issued && s.issued[e.op] == e.data)
    && (forall id, o :: id in s.parts && o in s.parts[id] ==> o in s.issued)
    && (forall p :: p in s.outstanding ==>
          1 <= p.1 < |s.replicas| && p.0 in s.parts && s.parts[p.0] == [p.0] && p.0 in Parts(s.parts, LogOf(s, 0)))
    && (forall i: nat, o :: i < |s.replicas| && o in Parts(s.parts, LogOf(s, i)) ==> o in Parts(s.parts, LogOf(s, 0)))
    && (Compacting(s) ==>
          var e := s.merge.value.compacted.value;
          e.op in s.parts && forall o :: o in s.parts[e.op] <==> o in Parts(s.parts, LogOf(s, 0)))
    && (s.merge.Some? ==> forall e :: e in PolledEntries(s.merge.value) ==> e.op in s.parts)
  }

  lemma {:induction false} InvIsSane(s: State)
    requires Inv(s)
    ensures Sane(s)
  {
    forall i: nat, o | i < |s.replicas| && o in Parts(s.parts, LogOf(s, i)) ensures o in Parts(s.parts, LogOf(s, 0)) {
      assert Held(s)[i] == Covered(s, i) && Held(s)[0] == Covered(s, 0);
      assert o in Covered(s, i);
      assert o in Covered(s, 0);
    }
    forall i: nat, e | i < |s.replicas| && e in LogOf(s, i) ensures e.op in s.issued && s.issued[e.op] == e.data {
      assert ReplicaOk(s.issued, s.parts, s.replicas[i]);
    }
    assert Held(s)[0] == Covered(s, 0);
    forall p | p in s.outstanding ensures p.0 in Parts(s.parts, LogOf(s, 0)) {
      assert p.0 in Covered(s, 0);
    }
    if s.merge.Some? {
      PolledIsKnown(s.issued, s.parts, Held(s)[0], s.merge.value);
    }
    if Compacting(s) {
      var e := s.merge.value.compacted.value;
      PartsSingle(s.parts, e);
      forall o ensures o in s.parts[e.op] <==> o in Parts(s.parts, LogOf(s, 0)) {
        assert o in CoveredBy(s.parts, [e]) <==> o in Covered(s, 0);
      }
    }
  }

  // ---------------------------------------------------------------- entries that are apart

  lemma {:induction false} ApartAfterIssue(parts: PartMap, op: string, ops: seq<string>, entries: set<LogEntry>)
    requires forall e :: e in entries ==> e.op != op
    ensures Apart(parts[op := ops], entries) <==> Apart(parts, entries)
  {
  }

  lemma {:induction false} ApartSingle(parts: PartMap, e: LogEntry)
    requires e.op in parts
    ensures Apart(parts, {e}) <==> Distinct(parts[e.op])
  {
  }

  /** A log without repeated entries, as a list and as a set. */
  lemma {:induction false} LogApart(s: State, i: nat)
    requires Sane(s) && i < |s.replicas| && Distinct(LogOf(s, i))
    ensures Distinct(Parts(s.parts, LogOf(s, i))) <==> Apart(s.parts, Entries(LogOf(s, i)))
  {
    EntriesApart(s.parts, LogOf(s, i));
  }

  /** With an outdated entry of some replica the primary's entries are not apart. */
  lemma {:induction false} OutdatedOverlaps(s: State, i: nat, e: LogEntry, entries: set<LogEntry>)
    requires Sane(s) && i < |s.replicas| && !Compacting(s) && e in LogOf(s, i) && Outdated(s, e)
    requires Entries(LogOf(s, 0)) + {e} <= entries
    ensures !Apart(s.parts, entries)
  {
    var o := s.parts[e.op][0];
    PartsHas(s.parts, LogOf(s, i), o);
    PartsHas(s.parts, LogOf(s, 0), o);
    var g :| g in LogOf(s, 0) && g.op in s.parts && o in s.parts[g.op];
    assert g in entries && e in entries && g != e;
  }

  // ---------------------------------------------------------------- appends

  /** The entry has been appended at the primary. */
  ghost predicate Appended(s: State, s': State, e: LogEntry) {
    && |s'.replicas| == |s.replicas| && e.op !in s.issued
    && s'.issued == s.issued[e.op := e.data] && s'.parts == s.parts[e.op := [e.op]]
    && LogOf(s', 0) == LogOf(s, 0) + [e]
    && (forall i: nat :: i != 0 ==> LogOf(s', i) == LogOf(s, i))
    && Newest(s') == Newest(s) + {e} && Gathered(s') == Newest(s') && Gathered(s) == Newest(s)
    && s'.merge.None? && forall p :: p in s'.outstanding ==> p in s.outstanding || p.0 == e.op
  }

  lemma {:induction false} AppendIsAppended(hash: Bytes -> Bytes, s: State, op: string, data: Bytes)
    requires Inv(s) && Enabled(s, Append(op, data))
    ensures Appended(s, Act(hash, s, Append(op, data)), LogEntry(op, data))
  {
    assert ReplicaOk(s.issued, s.parts, s.replicas[0]);
  }

  /** What a log stood for before an operation ID was issued, it stands for afterwards. */
  lemma {:induction false} SamePartsAfterIssue(s: State, i: nat, op: string, ops: seq<string>)
    requires Sane(s) && op !in s.issued
    ensures Parts(s.parts[op := ops], LogOf(s, i)) == Parts(s.parts, LogOf(s, i)) && op !in Parts(s.parts, LogOf(s, i))
  {
    SamePartsOfLog(s, LogOf(s, i), op, ops);
    PartsHas(s.parts, LogOf(s, i), op);
  }

  lemma {:induction false} SamePartsOfLog(s: State, log: seq<LogEntry>, op: string, ops: seq<string>)
    requires forall e :: e in log ==> e.op != op
    ensures Parts(s.parts[op := ops], log) == Parts(s.parts, log)
  {
    if log != [] {
      SamePartsOfLog(s, log[..|log| - 1], op, ops);
    }
  }

  lemma {:induction false} AppendTracksMixed(s: State, s': State, t: Track, e: LogEntry)
    requires Sane(s) && Appended(s, s', e) && MixedOk(s, t) && Newest(s) == Entries(LogOf(s, 0))
    ensures MixedOk(s', t)
  {
    forall f | f in Newest(s) ensures f.op in s.issued {
      assert f in LogOf(s, 0);
    }
    ApartAfterIssue(s.parts, e.op, [e.op], Newest(s));
    ApartSnoc(s'.parts, Newest(s), e);
  }

  /** An outdated entry stays one. */
  lemma {:induction false} StillBehind(s: State, s': State, t: Track, i: nat)
    requires i in t.behind && BehindOk(s, t, i) && LogOf(s, i) <= LogOf(s', i)
    requires forall e :: e in LogOf(s, i) && Outdated(s, e) ==> Outdated(s', e)
    ensures exists e :: e in LogOf(s', i) && Outdated(s', e)
  {
    var e :| e in LogOf(s, i) && Outdated(s, e);
    assert e in LogOf(s', i);
  }

  lemma {:induction false} AppendTracksPrimary(s: State, s': State, t: Track, e: LogEntry)
    requires Sane(s) && Appended(s, s', e) && Newest(s) == Entries(LogOf(s, 0))
    requires BehindOk(s, t, 0) && DoubledOk(s, t, 0)
    ensures BehindOk(s', t, 0) && DoubledOk(s', t, 0)
  {
    SamePartsAfterIssue(s, 0, e.op, [e.op]);
    PartsSnoc(s'.parts, LogOf(s, 0), e);
    DistinctSnoc(Parts(s.parts, LogOf(s, 0)), e.op);
    assert Entries(LogOf(s', 0)) == Newest(s');
  }

  lemma {:induction false} AppendTracksReplica(s: State, s': State, t: Track, e: LogEntry, i: nat)
    requires Sane(s) && Appended(s, s', e) && 0 < i < |s.replicas|
    requires BehindOk(s, t, i) && DoubledOk(s, t, i)
    ensures BehindOk(s', t, i) && DoubledOk(s', t, i)
  {
    SamePartsAfterIssue(s, i, e.op, [e.op]);
    if i in t.behind {
      StillBehind(s, s', t, i);
    }
  }

  lemma {:induction false} AppendTracksFanOuts(s: State, s': State, t: Track, e: LogEntry, p: (string, nat))
    requires Sane(s) && Appended(s, s', e) && p in s'.outstanding && p.1 > 0
    requires p in s.outstanding ==> FanOutTracked(s, t, p)
    requires forall q :: q in t.overtaken ==> q.0 in s.issued
    ensures FanOutTracked(s', t, p)
  {
    SamePartsAfterIssue(s, p.1, e.op, [e.op]);
  }

  lemma {:induction false} AppendTracks(hash: Bytes -> Bytes, s: State, t: Track, op: string, data: Bytes)
    requires Inv(s) && Sane(s) && Tracks(s, t) && Enabled(s, Append(op, data))
    ensures Tracks(Act(hash, s, Append(op, data)), t)
  {
    var s', e := Act(hash, s, Append(op, data)), LogEntry(op, data);
    AppendIsAppended(hash, s, op, data);
    AppendTracksMixed(s, s', t, e);
    DistinctSnoc(LogOf(s, 0), e);
    forall i: nat | i < |s'.replicas| ensures BehindOk(s', t, i) && DoubledOk(s', t, i) {
      assert BehindOk(s, t, i) && DoubledOk(s, t, i);
      if i == 0 {
        AppendTracksPrimary(s, s', t, e);
      } else {
        AppendTracksReplica(s, s', t, e, i);
      }
    }
    forall p | p in s'.outstanding ensures FanOutTracked(s', t, p) {
      AppendTracksFanOuts(s, s', t, e, p);
    }
  }

  // ---------------------------------------------------------------- fan-outs

  /** The entry has been appended at replica i, or not. */
  ghost predicate FannedOut(s: State, s': State, e: LogEntry, i: nat, arrives: bool) {
    && |s'.replicas| == |s.replicas| && 0 < i < |s.replicas|
    && s'.issued == s.issued && s'.parts == s.parts && e.op in s.parts && s.parts[e.op] == [e.op]
    && (forall k: nat :: LogOf(s', k) == if k == i && arrives then LogOf(s, i) + [e] else LogOf(s, k))
    && Newest(s') == Newest(s) && Gathered(s') == Gathered(s)
    && s'.outstanding == s.outstanding - {(e.op, i)}
  }

  lemma {:induction false} FanOutIsFannedOut(
      hash: Bytes -> Bytes, s: State, op: string, i: nat, arrives: bool, replied: bool)
    requires LogsOk(s) && Sane(s) && Enabled(s, FanOut(op, i, arrives, replied))
    ensures Pending(s, (op, i)).op == op
    ensures FannedOut(s, Act(hash, s, FanOut(op, i, arrives, replied)), Pending(s, (op, i)), i, arrives)
  {
    var s', e := Act(hash, s, FanOut(op, i, arrives, replied)), Pending(s, (op, i));
    assert (op, i) in s.outstanding;
    assert ReplicaOk(s.issued, s.parts, s.replicas[i]) && s.replicas[i].log.Some? && s.replicas[i].data.Some?;
    assert LogOf(s', i) == if arrives then LogOf(s, i) + [e] else LogOf(s, i);
    assert forall k: nat :: k != i ==> LogOf(s', k) == LogOf(s, k);
    assert s'.merge == s.merge && LogOf(s', 0) == LogOf(s, 0);
  }

  /** The replica where a fan-out arrives that no push has overtaken. */
  lemma {:induction false} TimelyFanOut(s: State, s': State, t: Track, e: LogEntry, i: nat)
    requires FannedOut(s, s', e, i, true) && BehindOk(s, t, i) && DoubledOk(s, t, i)
    requires e.op !in Parts(s.parts, LogOf(s, i)) && (i !in t.behind ==> e in Newest(s))
    ensures BehindOk(s', t, i) && DoubledOk(s', t, i)
  {
    PartsSnoc(s.parts, LogOf(s, i), e);
    DistinctSnoc(Parts(s.parts, LogOf(s, i)), e.op);
    assert LogOf(s', i) == LogOf(s, i) + [e];
    if i in t.behind {
      StillBehind(s, s', t, i);
    }
  }

  /** The replica where one arrives that a push has overtaken. */
  lemma {:induction false} OvertakenFanOut(s: State, s': State, t: Track, e: LogEntry, i: nat)
    requires FannedOut(s, s', e, i, true) && e.op in Parts(s.parts, LogOf(s, i)) && e !in Newest(s)
    requires i in t.behind && i in t.doubled
    ensures BehindOk(s', t, i) && DoubledOk(s', t, i)
  {
    PartsSnoc(s.parts, LogOf(s, i), e);
    DistinctSnoc(Parts(s.parts, LogOf(s, i)), e.op);
    assert LogOf(s', i) == LogOf(s, i) + [e];
    assert e in LogOf(s', i) && Outdated(s', e);
  }

  lemma {:induction false} FanOutLeavesReplica(
      s: State, s': State, t: Track, t': Track, e: LogEntry, i: nat, arrives: bool, k: nat)
    requires FannedOut(s, s', e, i, arrives) && (k != i || !arrives) && BehindOk(s, t, k) && DoubledOk(s, t, k)
    requires (k in t'.behind <==> k in t.behind) && (k in t'.doubled <==> k in t.doubled) && t'.mixed == t.mixed
    ensures BehindOk(s', t', k) && DoubledOk(s', t', k)
  {
    if k in t.behind {
      StillBehind(s, s', t, k);
    }
  }

  lemma {:induction false} FanOutTracksFanOuts(
      s: State, s': State, t: Track, t': Track, e: LogEntry, i: nat, arrives: bool, p: (string, nat))
    requires FannedOut(s, s', e, i, arrives) && p in s'.outstanding && FanOutTracked(s, t, p)
    requires t'.overtaken == t.overtaken && t.behind <= t'.behind
    ensures FanOutTracked(s', t', p)
  {
    PartsSnoc(s.parts, LogOf(s, i), e);
  }

  lemma {:induction false} FanOutTracks(
      hash: Bytes -> Bytes, s: State, t: Track, op: string, i: nat, arrives: bool, replied: bool)
    requires Inv(s) && Sane(s) && Tracks(s, t) && Enabled(s, FanOut(op, i, arrives, replied))
    ensures var step := FanOut(op, i, arrives, replied); Tracks(Act(hash, s, step), Observe(s, t, step))
  {
    var step, e := FanOut(op, i, arrives, replied), Pending(s, (op, i));
    var s', t' := Act(hash, s, step), Observe(s, t, step);
    FanOutIsFannedOut(hash, s, op, i, arrives, replied);
    assert FanOutTracked(s, t, (op, i));
    forall k: nat | k < |s'.replicas| ensures BehindOk(s', t', k) && DoubledOk(s', t', k) {
      assert BehindOk(s, t, k) && DoubledOk(s, t, k);
      if k != i || !arrives {
        FanOutLeavesReplica(s, s', t, t', e, i, arrives, k);
      } else if (op, i) in t.overtaken {
        OvertakenFanOut(s, s', t', e, i);
      } else {
        TimelyFanOut(s, s', t, e, i);
      }
    }
    forall p | p in s'.outstanding ensures FanOutTracked(s', t', p) {
      FanOutTracksFanOuts(s, s', t, t', e, i, arrives, p);
    }
  }

  // ---------------------------------------------------------------- polls

  lemma {:induction false} PollChanges(hash: Bytes -> Bytes, s: State, i: nat, answered: bool)
    requires Inv(s) && PrimaryOk(s) && Enabled(s, Poll(i, answered))
    ensures var s' := Act(hash, s, Poll(i, answered));
      && Newest(s') == Newest(s) && PrimaryOk(s')
      && Gathered(s') == Gathered(s) + if answered then Entries(LogOf(s, i)) else {}
  {
    var m, m' := s.merge.value, Act(hash, s, Poll(i, answered)).merge.value;
    forall e ensures e in PolledEntries(m') <==> e in PolledEntries(m) || (answered && e in LogOf(s, i)) {
      if e in PolledEntries(m) {
        var k :| k in m.polls && m.polls[k].Some? && e in m.polls[k].value;
        assert m'.polls[k] == m.polls[k];
      }
      if answered && e in LogOf(s, i) {
        assert m'.polls[i] == Some(LogOf(s, i));
      }
    }
  }

  /** The answer of a replica that is not behind adds nothing; any other overlaps what the primary has. */
  lemma {:induction false} PollMixes(s: State, t: Track, i: nat)
    requires Sane(s) && MixedOk(s, t) && i < |s.replicas| && BehindOk(s, t, i) && !Compacting(s)
    ensures Apart(s.parts, Gathered(s) + Entries(LogOf(s, i))) <==> !t.mixed && i !in t.behind
  {
    var all := Gathered(s) + Entries(LogOf(s, i));
    if i in t.behind {
      var e :| e in LogOf(s, i) && Outdated(s, e);
      assert e in all;
      OutdatedOverlaps(s, i, e, all);
    } else {
      assert all == Gathered(s);
    }
  }

  lemma {:induction false} PollTracksMixed(s: State, s': State, t: Track, t': Track, i: nat, answered: bool)
    requires Sane(s) && MixedOk(s, t) && i < |s.replicas| && BehindOk(s, t, i) && !Compacting(s)
    requires s'.parts == s.parts && t'.mixed == (t.mixed || (answered && i in t.behind))
    requires Gathered(s') == Gathered(s) + if answered then Entries(LogOf(s, i)) else {}
    ensures MixedOk(s', t')
  {
    PollMixes(s, t, i);
    assert Gathered(s) + {} == Gathered(s);
  }

  lemma {:induction false} PollTracks(hash: Bytes -> Bytes, s: State, t: Track, i: nat, answered: bool)
    requires Inv(s) && Sane(s) && Tracks(s, t) && Enabled(s, Poll(i, answered))
    ensures Tracks(Act(hash, s, Poll(i, answered)), Observe(s, t, Poll(i, answered)))
  {
    var s', t' := Act(hash, s, Poll(i, answered)), Observe(s, t, Poll(i, answered));
    PollChanges(hash, s, i, answered);
    assert BehindOk(s, t, i);
    PollTracksMixed(s, s', t, t', i, answered);
    SameLogsTrack(s, s', t, t');
  }

  /** The logs and the newest entries stay, and no more is said of the replicas. */
  lemma {:induction false} SameLogsTrack(s: State, s': State, t: Track, t': Track)
    requires s'.replicas == s.replicas && s'.parts == s.parts && s'.issued == s.issued
    requires s'.outstanding == s.outstanding
    requires Newest(s') == Newest(s) && Tracks(s, t) && PrimaryOk(s') && MixedOk(s', t')
    requires t'.behind == t.behind && t'.overtaken == t.overtaken && t'.doubled == t.doubled && (t.mixed ==> t'.mixed)
    ensures Tracks(s', t')
  {
    forall i: nat | i < |s'.replicas| ensures BehindOk(s', t', i) && DoubledOk(s', t', i) {
      assert BehindOk(s, t, i) && DoubledOk(s, t, i);
      if i in t.behind {
        var e :| e in LogOf(s, i) && Outdated(s, e);
        assert e in LogOf(s', i) && Outdated(s', e);
      }
    }
    forall p | p in s'.outstanding ensures FanOutTracked(s', t', p) {
      assert FanOutTracked(s, t, p);
    }
  }

  // ---------------------------------------------------------------- the other steps of a merge

  lemma {:induction false} CompactChanges(hash: Bytes -> Bytes, s: State, op: string, final: seq<LogEntry>)
    requires Inv(s) && PrimaryOk(s) && Enabled(s, Compact(op, final)) && |s.replicas| > 0
    ensures var s' := Act(hash, s, Compact(op, final));
      && Newest(s') == Gathered(s') == {LogEntry(op, Concat(final))}
      && Gathered(s) == Entries(final) && s'.parts == s.parts[op := Parts(s.parts, final)]
  {
    var m := s.merge.value;
    PolledIsKnown(s.issued, s.parts, Held(s)[0], m);
    ConsistentMerge(PolledEntries(m), final);
    assert 0 in m.polls && m.polls[0] == Some(LogOf(s, 0));
    assert Entries(LogOf(s, 0)) <= PolledEntries(m);
  }

  lemma {:induction false} SortedIsDistinct(log: seq<LogEntry>)
    requires Sorted(log)
    ensures Distinct(log)
  {
    forall i, k | 0 <= i < k < |log| ensures log[i] != log[k] {
      LessTotal(log[i].op, log[k].op);
    }
  }

  /** Every replica has an entry that the new one stands for, and is behind until it is pushed there. */
  lemma {:induction false} CompactLeavesBehind(s: State, s': State, i: nat, o: string)
    requires Sane(s) && i < |s.replicas| && o in Parts(s.parts, LogOf(s, i))
    requires s'.replicas == s.replicas && Compacting(s')
    requires var op := s'.merge.value.compacted.value.op;
      op !in s.issued && op in s'.parts && s'.parts == s.parts[op := s'.parts[op]]
    ensures exists e :: e in LogOf(s', i) && Outdated(s', e)
  {
    PartsHas(s.parts, LogOf(s, i), o);
    var e :| e in LogOf(s, i) && e.op in s.parts && o in s.parts[e.op];
    assert e in LogOf(s', i) && Outdated(s', e);
  }

  lemma {:induction false} CompactTracksMixed(
      hash: Bytes -> Bytes, s: State, t: Track, op: string, final: seq<LogEntry>)
    requires Inv(s) && Sane(s) && PrimaryOk(s) && MixedOk(s, t) && Enabled(s, Compact(op, final))
    ensures MixedOk(Act(hash, s, Compact(op, final)), t)
  {
    CompactChanges(hash, s, op, final);
    SortedIsDistinct(final);
    forall e | e in final ensures e.op in s.parts {
      assert e in Entries(final);
    }
    EntriesApart(s.parts, final);
    ApartSingle(s.parts[op := Parts(s.parts, final)], LogEntry(op, Concat(final)));
  }

  lemma {:induction false} CompactTracks(hash: Bytes -> Bytes, s: State, t: Track, op: string, final: seq<LogEntry>)
    requires Inv(s) && Sane(s) && s.acked != {} && Tracks(s, t) && Enabled(s, Compact(op, final))
    ensures Tracks(Act(hash, s, Compact(op, final)), Observe(s, t, Compact(op, final)))
  {
    var s', t' := Act(hash, s, Compact(op, final)), Observe(s, t, Compact(op, final));
    CompactTracksMixed(hash, s, t, op, final);
    var o :| o in s.acked;
    forall i: nat | i < |s'.replicas| ensures BehindOk(s', t', i) && DoubledOk(s', t', i) {
      assert o in Held(s)[i] && Held(s)[i] == Covered(s, i);
      CompactLeavesBehind(s, s', i, o);
      SamePartsAfterIssue(s, i, op, s'.parts[op]);
      assert DoubledOk(s, t, i);
    }
    forall p | p in s'.outstanding ensures FanOutTracked(s', t', p) {
      assert FanOutTracked(s, t, p);
      SamePartsAfterIssue(s, p.1, op, s'.parts[op]);
    }
  }

  lemma {:induction false} PushChanges(hash: Bytes -> Bytes, s: State, i: nat)
    requires Injective(hash) && Enabled(s, Push(i, true))
    ensures var s', e := Act(hash, s, Push(i, true)), s.merge.value.compacted.value;
      && LogOf(s', i) == [e] && (forall k: nat :: k != i ==> LogOf(s', k) == LogOf(s, k))
      && Newest(s') == Newest(s) == {e} && Gathered(s') == Gathered(s) == {e}
  {
    var e := s.merge.value.compacted.value;
    ReconcileIsOverwrite(s.replicas[i], e.data, [e], hash);
  }

  lemma {:induction false} PushTracksReplica(hash: Bytes -> Bytes, s: State, t: Track, i: nat, k: nat)
    requires Injective(hash) && Sane(s) && MixedOk(s, t) && Enabled(s, Push(i, true)) && k < |s.replicas|
    requires BehindOk(s, t, k) && DoubledOk(s, t, k)
    ensures var s', t' := Act(hash, s, Push(i, true)), Observe(s, t, Push(i, true));
      BehindOk(s', t', k) && DoubledOk(s', t', k)
  {
    var s', e := Act(hash, s, Push(i, true)), s.merge.value.compacted.value;
    PushChanges(hash, s, i);
    if k == i {
      PartsSingle(s.parts, e);
      ApartSingle(s.parts, e);
    } else if k in t.behind {
      var f :| f in LogOf(s, k) && Outdated(s, f);
      assert f in LogOf(s', k) && Outdated(s', f);
    }
  }

  lemma {:induction false} PushTracksFanOut(hash: Bytes -> Bytes, s: State, t: Track, i: nat, p: (string, nat))
    requires Injective(hash) && Sane(s) && PrimaryOk(s) && Enabled(s, Push(i, true)) && p in s.outstanding
    requires FanOutTracked(s, t, p)
    ensures var s', t' := Act(hash, s, Push(i, true)), Observe(s, t, Push(i, true)); FanOutTracked(s', t', p)
  {
    var e := s.merge.value.compacted.value;
    PushChanges(hash, s, i);
    PartsSingle(s.parts, e);
  }

  lemma {:induction false} PushTracks(hash: Bytes -> Bytes, s: State, t: Track, i: nat, arrives: bool)
    requires Injective(hash) && Sane(s) && Tracks(s, t) && Enabled(s, Push(i, arrives))
    ensures Tracks(Act(hash, s, Push(i, arrives)), Observe(s, t, Push(i, arrives)))
  {
    var s', t' := Act(hash, s, Push(i, arrives)), Observe(s, t, Push(i, arrives));
    if arrives {
      PushChanges(hash, s, i);
      forall k: nat | k < |s'.replicas| ensures BehindOk(s', t', k) && DoubledOk(s', t', k) {
        PushTracksReplica(hash, s, t, i, k);
      }
      forall p | p in s'.outstanding ensures FanOutTracked(s', t', p) {
        PushTracksFanOut(hash, s, t, i, p);
      }
    } else {
      SameLogsTrack(s, s', t, t');
    }
  }

  lemma {:induction false} ActTracks(hash: Bytes -> Bytes, s: State, t: Track, step: Step)
    requires Injective(hash) && Inv(s) && s.acked != {} && Tracks(s, t) && Enabled(s, step)
    ensures Tracks(Act(hash, s, step), Observe(s, t, step))
  {
    InvIsSane(s);
    match step
    case Append(op, data) => AppendTracks(hash, s, t, op, data);
    case FanOut(op, i, arrives, replied) => FanOutTracks(hash, s, t, op, i, arrives, replied);
    case Poll(i, answered) => PollTracks(hash, s, t, i, answered);
    case Compact(op, final) => CompactTracks(hash, s, t, op, final);
    case Push(i, arrives) => PushTracks(hash, s, t, i, arrives);
    case _ => OtherStepTracks(hash, s, t, step);
  }

  lemma {:induction false} OtherStepTracks(hash: Bytes -> Bytes, s: State, t: Track, step: Step)
    requires Sane(s) && Tracks(s, t) && Enabled(s, step) && (step.Ack? || step.StartMerge? || step.EndMerge?)
    ensures Tracks(Act(hash, s, step), Observe(s, t, step))
  {
    var s' := Act(hash, s, step);
    assert step.EndMerge? ==> LogOf(s, 0) == [s.merge.value.compacted.value];
    assert Newest(s') == Newest(s);
    assert Gathered(s') == Gathered(s);
    SameLogsTrack(s, s', t, t);
  }

  lemma {:induction false} InitTracks(count: nat, op: string, data: Bytes)
    requires count > 0
    ensures Tracks(Init(count, op, data), Track({}, {}, {}, false))
  {
    var s, e := Init(count, op, data), LogEntry(op, data);
    PartsSingle(s.parts, e);
    ApartSingle(s.parts, e);
    assert Entries([e]) == {e};
  }

  lemma {:induction false} RunTracks(hash: Bytes -> Bytes, count: nat, first: string, data: Bytes, steps: seq<Step>)
    requires Injective(hash) && count > 0
    ensures var s := Run(hash, Init(count, first, data), steps);
      Inv(s) && first in s.acked && |s.replicas| == count && Tracks(s, Watch(hash, Init(count, first, data), steps))
  {
    var start := Init(count, first, data);
    InitHasInv(count, first, data);
    RunKeepsInv(hash, start, steps);
    if steps == [] {
      InitTracks(count, first, data);
    } else {
      var n := |steps| - 1;
      RunTracks(hash, count, first, data, steps[..n]);
      var s := Run(hash, start, steps[..n]);
      if Enabled(s, steps[n]) {
        ActTracks(hash, s, Watch(hash, start, steps[..n]), steps[n]);
      }
    }
  }

  // ---------------------------------------------------------------- the exact conditions, over all runs

  /** Between merges, in any run: the primary's file holds every operation once exactly when no replica that was
      behind has answered a merge; and then another replica's file does exactly when no overtaken
      fan-out has arrived there since its last push. */
  lemma {:induction false} FilesHoldOnceExactlyWhen(
      hash: Bytes -> Bytes, count: nat, first: string, data: Bytes, steps: seq<Step>, i: nat)
    requires Injective(hash) && i < count
    ensures var s, t := Run(hash, Init(count, first, data), steps), Watch(hash, Init(count, first, data), steps);
      && |s.replicas| == count
      && (s.merge.None? ==> (Distinct(Parts(s.parts, Log(s.replicas[0]))) <==> !t.mixed))
      && (!t.mixed ==> (Distinct(Parts(s.parts, Log(s.replicas[i]))) <==> i !in t.doubled))
  {
    RunTracks(hash, count, first, data, steps);
    var s, t := Run(hash, Init(count, first, data), steps), Watch(hash, Init(count, first, data), steps);
    InvIsSane(s);
    LogApart(s, 0);
    assert LogOf(s, i) == Log(s.replicas[i]) && LogOf(s, 0) == Log(s.replicas[0]);
    assert DoubledOk(s, t, i);
  }

  /** In particular, after any run: a further merge that all replicas answer leaves every operation in the
      file once exactly when that held before and no replica was behind. */
  lemma {:induction false} MergeHoldsOnceExactlyWhen(
    hash: Bytes -> Bytes, count: nat, first: string, data: Bytes, steps: seq<Step>,
    polls: seq<nat>, op: string, final: seq<LogEntry>, pushes: seq<nat>)
    requires Injective(hash) && count > 0
    requires MergePossible(Run(hash, Init(count, first, data), steps), polls, op, final, pushes)
    ensures var s, t := Run(hash, Init(count, first, data), steps), Watch(hash, Init(count, first, data), steps);
      var end := Run(hash, s, WholeMerge(polls, op, final, pushes));
      && |end.replicas| == |s.replicas| == count
      && (Distinct(Parts(end.parts, Log(end.replicas[0]))) <==>
          Distinct(Parts(s.parts, Log(s.replicas[0]))) && forall i: nat :: i < count ==> i !in t.behind)
  {
    RunTracks(hash, count, first, data, steps);
    FilesHoldOnceExactlyWhen(hash, count, first, data, steps, 0);
    var s, t := Run(hash, Init(count, first, data), steps), Watch(hash, Init(count, first, data), steps);
    AllEntriesConsistent(s);
    ConsistentMerge(AllEntries(s), final);
    WholeMergeRuns(hash, s, polls, op, final, pushes);
    PartsSingle(s.parts[op := Parts(s.parts, final)], LogEntry(op, Concat(final)));
    InvIsSane(s);
    AllEntriesApart(s, t);
    SortedIsDistinct(final);
    forall e | e in final ensures e.op in s.parts {
      assert e in Entries(final);
      var i: nat :| i < |s.replicas| && e in Log(s.replicas[i]);
      assert e in LogOf(s, i);
    }
    EntriesApart(s.parts, final);
  }

  lemma {:induction false} AllEntriesApart(s: State, t: Track)
    requires Sane(s) && s.merge.None? && Tracks(s, t)
    ensures Apart(s.parts, AllEntries(s)) <==> !t.mixed && forall i: nat :: i < |s.replicas| ==> i !in t.behind
  {
    var all := AllEntries(s);
    forall i: nat, e | i < |s.replicas| && e in LogOf(s, i) ensures e in all {
      assert e in Log(s.replicas[i]);
    }
    if i: nat :| i < |s.replicas| && i in t.behind {
      assert BehindOk(s, t, i);
      var e :| e in LogOf(s, i) && Outdated(s, e);
      OutdatedOverlaps(s, i, e, all);
    } else {
      forall e | e in all ensures e in Newest(s) {
        var i: nat :| i < |s.replicas| && e in Log(s.replicas[i]);
        assert e in LogOf(s, i) && BehindOk(s, t, i);
      }
      assert all == Gathered(s);
    }
  }
}
