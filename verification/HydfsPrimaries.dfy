/**
 * A file with several primaries. A client may send an append to any replica as the primary,
 * while merges run at replica 0 and lock the file there only. An append that reaches another
 * replica between its poll and its push is overwritten, and may be acknowledged all the same.
 */
module HydfsPrimaries {
  import opened Sequences
  import opened Hydfs
  import opened HydfsProtocol
  import opened HydfsResults
  import opened HydfsOnce

  /** The steps of HydfsProtocol, with appends and acknowledgements for any primary. */
  datatype Event =
    | Same(step: Step)
    | WriteAt(primary: nat, op: string, data: Bytes)
    | AckAll(op: string)

  /** What needs the file's lock at replica 0 waits for a merge. */
  ghost predicate CanHappen(s: State, event: Event) {
    match event
    case Same(step) =>
      Enabled(s, step) && !step.Append? && !step.Ack? && (step.FanOut? && step.replica == 0 ==> s.merge.None?)
    case WriteAt(p, op, _) => p < |s.replicas| && op !in s.issued && (p == 0 ==> s.merge.None?)
    case AckAll(op) => op in s.issued && forall i: nat :: i < |s.replicas| ==> (op, i) in s.confirmed
  }

  function Others(n: nat, p: nat, op: string): (r: set<(string, nat)>)
    ensures forall q :: q in r <==> q.0 == op && q.1 < n && q.1 != p
  {
    if n == 0 then {} else Others(n - 1, p, op) + if n - 1 == p then {} else {(op, n - 1)}
  }

  ghost function Effect(hash: Bytes -> Bytes, s: State, event: Event): State
    requires CanHappen(s, event)
  {
    match event
    case Same(step) => Act(hash, s, step)
    case WriteAt(p, op, data) =>
      s.(replicas := s.replicas[p := AppendOn(s.replicas[p], op, data).replica],
         issued := s.issued[op := data],
         parts := s.parts[op := [op]],
         outstanding := s.outstanding + Others(|s.replicas|, p, op),
         confirmed := s.confirmed + {(op, p)})
    case AckAll(op) => s.(acked := s.acked + {op})
  }

  ghost function Follow(hash: Bytes -> Bytes, s: State, event: Event): State {
    if CanHappen(s, event) then Effect(hash, s, event) else s
  }

  ghost function RunOf(hash: Bytes -> Bytes, start: State, events: seq<Event>): State {
    if events == [] then start
    else Follow(hash, RunOf(hash, start, events[..|events| - 1]), events[|events| - 1])
  }

  // ---------------------------------------------------------------- a lost append

  const MERGED := LogEntry("3", "")

  function Overtaken(): seq<Event> {
    [Same(StartMerge), Same(Poll(0, true)), Same(Poll(1, true)), WriteAt(1, "2", "d"),
     Same(Compact("3", [FIRST])), Same(Push(0, true)), Same(Push(1, true)), Same(EndMerge),
     Same(FanOut("2", 0, true, true)), AckAll("2")]
  }

  /** The replicas after the k-th event. */
  function ReplicasAfter(k: nat): seq<Replica> {
    if k < 4 then [CREATED, CREATED]
    else if k < 6 then [CREATED, APPENDED]
    else if k < 7 then [Compacted(MERGED), APPENDED]
    else if k < 9 then [Compacted(MERGED), Compacted(MERGED)]
    else [Replica(Some("d"), Some([MERGED, SECOND])), Compacted(MERGED)]
  }

  function MergeAfter(k: nat): Option<Merge> {
    var both := map[0 := Some([FIRST]), 1 := Some([FIRST])];
    match k
    case 1 => Some(Merge(map[], None, {}))
    case 2 => Some(Merge(map[0 := Some([FIRST])], None, {}))
    case 3 => Some(Merge(both, None, {}))
    case 4 => Some(Merge(both, None, {}))
    case 5 => Some(Merge(both, Some(MERGED), {}))
    case 6 => Some(Merge(both, Some(MERGED), {0}))
    case 7 => Some(Merge(both, Some(MERGED), {0, 1}))
    case _ => None
  }

  function After(k: nat): State {
    State(
      ReplicasAfter(k),
      if k < 4 then map["1" := ""]
      else if k < 5 then map["1" := "", "2" := "d"]
      else map["1" := "", "2" := "d", "3" := ""],
      if k < 4 then map["1" := ["1"]]
      else if k < 5 then map["1" := ["1"], "2" := ["2"]]
      else map["1" := ["1"], "2" := ["2"], "3" := ["1"]],
      if 4 <= k < 9 then {("2", 0)} else {},
      (if k < 4 then {} else {("2", 1)}) + (if k < 9 then {} else {("2", 0)}),
      {"1"} + (if k < 10 then {} else {"2"}),
      MergeAfter(k))
  }

  lemma {:induction false} DifferentIds()
    ensures "1" != "2" && "1" != "3" && "2" != "3"
  {
    assert "1"[0] != "2"[0] && "1"[0] != "3"[0] && "2"[0] != "3"[0];
  }

  lemma {:induction false} GatherStep(k: nat)
    requires k in {0, 1, 2}
    ensures Follow(NoHash(), After(k), Overtaken()[k]) == After(k + 1)
  {
    var answer := Some([FIRST]);
    assert map[][0 := answer] == map[0 := answer] && map[0 := answer][1 := answer] == map[0 := answer, 1 := answer];
    assert Log(CREATED) == [FIRST];
  }

  lemma {:induction false} WriteStep()
    ensures Follow(NoHash(), After(3), Overtaken()[3]) == After(4)
  {
    DifferentIds();
    assert "" + "d" == "d" && [FIRST] + [SECOND] == [FIRST, SECOND];
    assert [CREATED, CREATED][1 := APPENDED] == [CREATED, APPENDED];
    assert Others(2, 1, "2") == {("2", 0)};
  }

  lemma {:induction false} CompactStep()
    ensures Follow(NoHash(), After(4), Overtaken()[4]) == After(5)
  {
    DifferentIds();
    CompactCanHappen();
    ConcatSnoc([], FIRST);
    assert [] + [FIRST] == [FIRST] && "" + "" == "";
    PartsSingle(After(4).parts, FIRST);
    assert After(5).issued == After(4).issued["3" := ""] && After(5).parts == After(4).parts["3" := ["1"]];
  }

  lemma {:induction false} CompactCanHappen()
    ensures CanHappen(After(4), Overtaken()[4])
  {
    var s, m := After(4), MergeAfter(4).value;
    AllPolledFirst();
    assert s.merge == Some(m) && m.compacted.None?;
    assert "3" !in s.issued by {
      DifferentIds();
    }
  }

  lemma {:induction false} AllPolledFirst()
    ensures PolledEntries(MergeAfter(4).value) == Entries([FIRST])
  {
    assert MergeAfter(4).value.polls[0] == Some([FIRST]) && FIRST in [FIRST];
  }

  lemma {:induction false} PushStep(k: nat)
    requires k in {5, 6, 7}
    ensures Follow(NoHash(), After(k), Overtaken()[k]) == After(k + 1)
  {
    var r := [Compacted(MERGED), Compacted(MERGED)];
    assert [CREATED, APPENDED][0 := r[0]] == [r[0], APPENDED] && [r[0], APPENDED][1 := r[1]] == r;
    assert {} + {0} == {0} && {0} + {1} == {0, 1};
  }

  lemma {:induction false} LateStep(k: nat)
    requires k in {8, 9}
    ensures Follow(NoHash(), After(k), Overtaken()[k]) == After(k + 1)
  {
    DifferentIds();
    assert "" + "d" == "d" && [MERGED] + [SECOND] == [MERGED, SECOND];
    var r := Replica(Some("d"), Some([MERGED, SECOND]));
    assert [Compacted(MERGED), Compacted(MERGED)][0 := r] == [r, Compacted(MERGED)];
  }

  lemma {:induction false} RunTo(k: nat)
    requires k <= |Overtaken()|
    ensures RunOf(NoHash(), Init(2, "1", ""), Overtaken()[..k]) == After(k)
  {
    if k == 0 {
      assert Init(2, "1", "").replicas == [CREATED, CREATED];
    } else {
      RunTo(k - 1);
      assert Overtaken()[..k][..k - 1] == Overtaken()[..k - 1];
      if k <= 3 {
        GatherStep(k - 1);
      } else if k == 4 {
        WriteStep();
      } else if k == 5 {
        CompactStep();
      } else if k <= 8 {
        PushStep(k - 1);
      } else {
        LateStep(k - 1);
      }
    }
  }

  /** An append at replica 1 between its poll and its push: acknowledged, and not in the file of replica 1. */
  lemma {:induction false} AckedAppendIsLost()
    ensures var s := RunOf(NoHash(), Init(2, "1", ""), Overtaken());
      && "2" in s.acked && s.merge.None? && |s.replicas| == 2 && s.replicas[1] == Replica(Some(""), Some([MERGED]))
  {
    RunTo(10);
    assert Overtaken()[..10] == Overtaken();
  }

  // ---------------------------------------------------------------- what every event keeps

  /** A replica that held the operation has answered the merge. */
  ghost predicate HasGathered(parts: PartMap, m: Merge, o: string) {
    exists k :: k in m.polls && m.polls[k].Some? && o in Parts(parts, m.polls[k].value)
  }

  ghost predicate MergeSound(issued: Issued, parts: PartMap, m: Merge) {
    && (forall k :: k in m.polls && m.polls[k].Some? ==> Known(issued, parts, m.polls[k].value))
    && (m.compacted.Some? ==>
          && Known(issued, parts, [m.compacted.value])
          && forall o :: o in parts[m.compacted.value.op] <==> HasGathered(parts, m, o))
  }

  ghost predicate Sound(s: State) {
    && LogsOk(s) && PartsOk(s.issued, s.parts)
    && (forall p :: p in s.outstanding ==> p.1 < |s.replicas| && p.0 in s.parts && s.parts[p.0] == [p.0])
    && (s.merge.Some? ==> MergeSound(s.issued, s.parts, s.merge.value))
  }

  lemma {:induction false} InitIsSound(count: nat, op: string, data: Bytes)
    requires count > 0
    ensures Sound(Init(count, op, data))
  {
    InitHasInv(count, op, data);
  }

  lemma {:induction false} IssueKeepsMergeSound(
      issued: Issued, parts: PartMap, op: string, data: Bytes, ops: seq<string>, m: Merge)
    requires MergeSound(issued, parts, m) && op !in issued
    ensures MergeSound(issued[op := data], parts[op := ops], m)
    ensures forall o :: HasGathered(parts[op := ops], m, o) <==> HasGathered(parts, m, o)
  {
    forall k | k in m.polls && m.polls[k].Some?
      ensures Known(issued[op := data], parts[op := ops], m.polls[k].value)
      ensures Parts(parts[op := ops], m.polls[k].value) == Parts(parts, m.polls[k].value)
    {
      KnownAfterIssue(issued, parts, op, data, ops, m.polls[k].value);
    }
    if m.compacted.Some? {
      KnownAfterIssue(issued, parts, op, data, ops, [m.compacted.value]);
    }
  }

  lemma {:induction false} WriteKeepsSound(hash: Bytes -> Bytes, s: State, p: nat, op: string, data: Bytes)
    requires Sound(s) && CanHappen(s, WriteAt(p, op, data))
    ensures var s' := Follow(hash, s, WriteAt(p, op, data));
      Sound(s') && Held(s') == Held(s)[p := Held(s)[p] + {op}]
  {
    var s' := Follow(hash, s, WriteAt(p, op, data));
    IssueKeepsPartsOk(s.issued, s.parts, op, data, [op]);
    AppendHolds(s, s', p, op, data);
    if s.merge.Some? {
      IssueKeepsMergeSound(s.issued, s.parts, op, data, [op], s.merge.value);
    }
  }

  lemma {:induction false} FanOutKeepsSound(
      hash: Bytes -> Bytes, s: State, op: string, i: nat, arrives: bool, replied: bool)
    requires Sound(s) && CanHappen(s, Same(FanOut(op, i, arrives, replied)))
    ensures var s' := Follow(hash, s, Same(FanOut(op, i, arrives, replied)));
      Sound(s') && Held(s') == if arrives then Held(s)[i := Held(s)[i] + {op}] else Held(s)
  {
    var s' := Follow(hash, s, Same(FanOut(op, i, arrives, replied)));
    assert (op, i) in s.outstanding;
    if arrives {
      FanOutHolds(s, s', op, i);
    } else {
      HeldSame(s, s');
    }
  }

  lemma {:induction false} PollKeepsSound(hash: Bytes -> Bytes, s: State, i: nat, answered: bool)
    requires Sound(s) && CanHappen(s, Same(Poll(i, answered)))
    ensures var s' := Follow(hash, s, Same(Poll(i, answered))); Sound(s') && Held(s') == Held(s)
  {
    HeldSame(s, Follow(hash, s, Same(Poll(i, answered))));
    assert ReplicaOk(s.issued, s.parts, s.replicas[i]);
  }

  lemma {:induction false} GatheredIsPolled(parts: PartMap, m: Merge, o: string)
    ensures HasGathered(parts, m, o) <==> exists e :: e in PolledEntries(m) && e.op in parts && o in parts[e.op]
  {
    if k :| k in m.polls && m.polls[k].Some? && o in Parts(parts, m.polls[k].value) {
      PartsHas(parts, m.polls[k].value, o);
      var e :| e in m.polls[k].value && e.op in parts && o in parts[e.op];
      assert e in PolledEntries(m);
    }
    if e :| e in PolledEntries(m) && e.op in parts && o in parts[e.op] {
      var k :| k in m.polls && m.polls[k].Some? && e in m.polls[k].value;
      PartsHas(parts, m.polls[k].value, o);
    }
  }

  lemma {:induction false} PolledIsConsistent(issued: Issued, parts: PartMap, m: Merge)
    requires MergeSound(issued, parts, m)
    ensures Consistent(PolledEntries(m))
    ensures forall e :: e in PolledEntries(m) ==> e.op in issued && e.op in parts && issued[e.op] == e.data
  {
  }

  lemma {:induction false} CompactedIsGathered(s: State, m: Merge, final: seq<LogEntry>)
    requires MergeSound(s.issued, s.parts, m) && Sorted(final) && OnePerOp(PolledEntries(m), Entries(final))
    ensures Known(s.issued, s.parts, final)
    ensures forall o :: o in Parts(s.parts, final) <==> HasGathered(s.parts, m, o)
  {
    PolledIsConsistent(s.issued, s.parts, m);
    ConsistentMerge(PolledEntries(m), final);
    assert forall e :: e in final <==> e in Entries(final);
    forall o ensures o in Parts(s.parts, final) <==> HasGathered(s.parts, m, o) {
      PartsHas(s.parts, final, o);
      GatheredIsPolled(s.parts, m, o);
    }
  }

  lemma {:induction false} CompactKeepsSound(hash: Bytes -> Bytes, s: State, op: string, final: seq<LogEntry>)
    requires Sound(s) && CanHappen(s, Same(Compact(op, final)))
    ensures var s' := Follow(hash, s, Same(Compact(op, final))); Sound(s') && Held(s') == Held(s)
  {
    var data, ops, m := Concat(final), Parts(s.parts, final), s.merge.value;
    CompactedIsGathered(s, m, final);
    KnownPartsIssued(s.issued, s.parts, final);
    ConcatIsText(s.issued, s.parts, final);
    HeldAfterIssue(s, op, data, ops);
    HeldSame(Issue(s, op, data, ops), Follow(hash, s, Same(Compact(op, final))));
    IssueKeepsPartsOk(s.issued, s.parts, op, data, ops);
    IssueKeepsMergeSound(s.issued, s.parts, op, data, ops, m);
    CompactedIsSound(s.issued[op := data], s.parts[op := ops], m, LogEntry(op, data), ops);
  }

  lemma {:induction false} CompactedIsSound(issued: Issued, parts: PartMap, m: Merge, e: LogEntry, ops: seq<string>)
    requires MergeSound(issued, parts, m) && Known(issued, parts, [e]) && parts[e.op] == ops
    requires forall o :: o in ops <==> HasGathered(parts, m, o)
    ensures MergeSound(issued, parts, m.(compacted := Some(e)))
  {
    var m' := m.(compacted := Some(e));
    forall o ensures HasGathered(parts, m', o) <==> HasGathered(parts, m, o) {
      GatheredIsPolled(parts, m, o);
      GatheredIsPolled(parts, m', o);
      assert PolledEntries(m') == PolledEntries(m);
    }
  }

  /** A push leaves a replica with what its merge has gathered. */
  lemma {:induction false} PushKeepsSound(hash: Bytes -> Bytes, s: State, i: nat, arrives: bool)
    requires Injective(hash) && Sound(s) && CanHappen(s, Same(Push(i, arrives)))
    ensures var s' := Follow(hash, s, Same(Push(i, arrives)));
      && Sound(s') && s'.parts == s.parts && |Held(s')| == |Held(s)|
      && (forall k :: 0 <= k < |Held(s)| && (k != i || !arrives) ==> Held(s')[k] == Held(s)[k])
      && (arrives ==> forall o :: o in Held(s')[i] <==> HasGathered(s.parts, s.merge.value, o))
  {
    var s', e := Follow(hash, s, Same(Push(i, arrives))), s.merge.value.compacted.value;
    if arrives {
      ReconcileAt(hash, s.issued, s.parts, s.replicas[i], e);
      PartsSingle(s.parts, e);
      HeldAfterWrite(s, s', i, set o | o in s.parts[e.op]);
    } else {
      HeldSame(s, s');
    }
  }

  /** What an event takes back of an operation at a replica. */
  ghost predicate TakenBack(s: State, s': State, i: nat, o: string) {
    i < |s.replicas| && i < |s'.replicas| && o in Covered(s, i) && o !in Covered(s', i)
  }

  /** A push that arrives at a replica, of a merge that has not gathered the operation. */
  ghost predicate PushedWithout(s: State, event: Event, i: nat, o: string) {
    CanHappen(s, event) && event == Same(Push(i, true)) && !HasGathered(s.parts, s.merge.value, o)
  }

  /** An event takes an operation back at a replica exactly when it is a push of a merge that no replica with
      the operation has answered. */
  lemma {:induction false} TakenBackExactlyWhen(hash: Bytes -> Bytes, s: State, event: Event, i: nat, o: string)
    requires Injective(hash) && Sound(s) && i < |s.replicas| && o in Covered(s, i)
    ensures var s' := Follow(hash, s, event);
      |s'.replicas| == |s.replicas| && (o !in Covered(s', i) <==> PushedWithout(s, event, i, o))
  {
    var s' := Follow(hash, s, event);
    EventHolds(hash, s, event);
    assert Held(s)[i] == Covered(s, i) && Held(s')[i] == Covered(s', i);
  }

  /** What every event does to what is held. */
  lemma {:induction false} EventHolds(hash: Bytes -> Bytes, s: State, event: Event)
    requires Injective(hash) && Sound(s)
    ensures var s' := Follow(hash, s, event);
      && Sound(s') && |Held(s')| == |Held(s)|
      && forall i: nat, o :: i < |Held(s)| && o in Held(s)[i] ==>
           (o !in Held(s')[i] <==> PushedWithout(s, event, i, o))
  {
    if CanHappen(s, event) {
      match event {
        case WriteAt(p, op, data) => WriteKeepsSound(hash, s, p, op, data);
        case AckAll(_) => HeldSame(s, Follow(hash, s, event));
        case Same(FanOut(op, k, arrives, replied)) => FanOutKeepsSound(hash, s, op, k, arrives, replied);
        case Same(Poll(k, answered)) => PollKeepsSound(hash, s, k, answered);
        case Same(Compact(op, final)) => CompactKeepsSound(hash, s, op, final);
        case Same(Push(k, arrives)) => PushKeepsSound(hash, s, k, arrives);
        case Same(_) => HeldSame(s, Follow(hash, s, event));
      }
    }
  }

  // ---------------------------------------------------------------- over runs

  /** In the run no event takes an operation back. */
  ghost predicate TakesNothingBack(hash: Bytes -> Bytes, start: State, events: seq<Event>) {
    forall k, i: nat, o :: 0 <= k < |events| ==>
      !TakenBack(RunOf(hash, start, events[..k]), Follow(hash, RunOf(hash, start, events[..k]), events[k]), i, o)
  }

  /** Every push that arrives comes from a merge that has gathered all that its replica holds. */
  ghost predicate PushesGathered(hash: Bytes -> Bytes, start: State, events: seq<Event>) {
    forall k, i: nat, o :: 0 <= k < |events| ==>
      var s := RunOf(hash, start, events[..k]); !(HoldsAt(s, i, o) && PushedWithout(s, events[k], i, o))
  }

  ghost predicate HoldsAt(s: State, i: nat, o: string) {
    i < |s.replicas| && o in Covered(s, i)
  }

  lemma {:induction false} RunIsSound(
      hash: Bytes -> Bytes, count: nat, first: string, data: Bytes, events: seq<Event>)
    requires Injective(hash) && count > 0
    ensures var s := RunOf(hash, Init(count, first, data), events); Sound(s) && |s.replicas| == count
  {
    var start := Init(count, first, data);
    if events == [] {
      InitIsSound(count, first, data);
    } else {
      var n := |events| - 1;
      RunIsSound(hash, count, first, data, events[..n]);
      EventHolds(hash, RunOf(hash, start, events[..n]), events[n]);
    }
  }

  /** With any primaries, a run takes back no operation from any replica exactly when every push that arrives
      comes from a merge that has gathered all that its replica holds. */
  lemma {:induction false} RunTakesNothingBackExactlyWhen(
      hash: Bytes -> Bytes, count: nat, first: string, data: Bytes, events: seq<Event>)
    requires Injective(hash) && count > 0
    ensures var start := Init(count, first, data);
      TakesNothingBack(hash, start, events) <==> PushesGathered(hash, start, events)
  {
    var start := Init(count, first, data);
    forall k, i: nat, o | 0 <= k < |events|
      ensures var s := RunOf(hash, start, events[..k]);
        TakenBack(s, Follow(hash, s, events[k]), i, o) <==> HoldsAt(s, i, o) && PushedWithout(s, events[k], i, o)
    {
      var s := RunOf(hash, start, events[..k]);
      RunIsSound(hash, count, first, data, events[..k]);
      if HoldsAt(s, i, o) {
        TakenBackExactlyWhen(hash, s, events[k], i, o);
      }
    }
  }

  /** What is confirmed or acknowledged has arrived. */
  ghost predicate ConfirmedHeld(s: State) {
    && (forall p :: p in s.confirmed ==> HoldsAt(s, p.1, p.0))
    && (forall o, i: nat :: o in s.acked && i < |s.replicas| ==> HoldsAt(s, i, o))
  }

  lemma {:induction false} StillHeld(s: State, s': State, i: nat, o: string)
    requires HoldsAt(s, i, o) && |s'.replicas| == |s.replicas| && !TakenBack(s, s', i, o)
    ensures HoldsAt(s', i, o)
  {
  }

  /** What is acknowledged has been confirmed by all. */
  lemma {:induction false} AckedHeld(hash: Bytes -> Bytes, s: State, event: Event, o: string, i: nat)
    requires ConfirmedHeld(s) && o in Follow(hash, s, event).acked && i < |s.replicas|
    ensures HoldsAt(s, i, o)
  {
    if o !in s.acked {
      assert event == AckAll(o) && (o, i) in s.confirmed;
    }
  }

  lemma {:induction false} EventConfirms(hash: Bytes -> Bytes, s: State, event: Event)
    requires Sound(s) && ConfirmedHeld(s)
    requires forall i: nat, o :: !TakenBack(s, Follow(hash, s, event), i, o)
    ensures ConfirmedHeld(Follow(hash, s, event))
  {
    var s' := Follow(hash, s, event);
    forall p | p in s'.confirmed ensures p in s.confirmed || HoldsAt(s', p.1, p.0) {
      if p !in s.confirmed {
        NewlyConfirmed(hash, s, event, p);
      }
    }
    forall o, i: nat | o in s'.acked && i < |s.replicas| ensures HoldsAt(s, i, o) {
      AckedHeld(hash, s, event, o, i);
    }
    SameCount(hash, s, event);
    ConfirmedStays(s, s');
  }

  lemma {:induction false} SameCount(hash: Bytes -> Bytes, s: State, event: Event)
    ensures |Follow(hash, s, event).replicas| == |s.replicas|
  {
  }

  lemma {:induction false} ConfirmedStays(s: State, s': State)
    requires |s'.replicas| == |s.replicas| && ConfirmedHeld(s) && forall i: nat, o :: !TakenBack(s, s', i, o)
    requires forall p :: p in s'.confirmed ==> p in s.confirmed || HoldsAt(s', p.1, p.0)
    requires forall o, i: nat :: o in s'.acked && i < |s.replicas| ==> HoldsAt(s, i, o)
    ensures ConfirmedHeld(s')
  {
    forall p | p in s'.confirmed ensures HoldsAt(s', p.1, p.0) {
      if !HoldsAt(s', p.1, p.0) {
        StillHeld(s, s', p.1, p.0);
      }
    }
    forall o, i: nat | o in s'.acked && i < |s'.replicas| ensures HoldsAt(s', i, o) {
      StillHeld(s, s', i, o);
    }
  }

  lemma {:induction false} NewlyConfirmed(hash: Bytes -> Bytes, s: State, event: Event, p: (string, nat))
    requires Sound(s) && p in Follow(hash, s, event).confirmed && p !in s.confirmed
    ensures HoldsAt(Follow(hash, s, event), p.1, p.0)
  {
    var s' := Follow(hash, s, event);
    match event
    case WriteAt(q, op, data) =>
      WriteKeepsSound(hash, s, q, op, data);
      assert Held(s')[q] == Covered(s', q);
    case Same(FanOut(op, k, arrives, replied)) =>
      FanOutKeepsSound(hash, s, op, k, arrives, replied);
      assert Held(s')[k] == Covered(s', k);
  }

  /** In such a run every acknowledged append is in every replica. */
  lemma {:induction false} AckedIsEverywhere(
      hash: Bytes -> Bytes, count: nat, first: string, data: Bytes, events: seq<Event>, o: string, i: nat)
    requires Injective(hash) && i < count && PushesGathered(hash, Init(count, first, data), events)
    requires o in RunOf(hash, Init(count, first, data), events).acked
    ensures var s := RunOf(hash, Init(count, first, data), events); |s.replicas| == count && o in Covered(s, i)
  {
    RunTakesNothingBackExactlyWhen(hash, count, first, data, events);
    RunConfirms(hash, count, first, data, events);
    RunIsSound(hash, count, first, data, events);
    assert HoldsAt(RunOf(hash, Init(count, first, data), events), i, o);
  }

  lemma {:induction false} RunConfirms(
      hash: Bytes -> Bytes, count: nat, first: string, data: Bytes, events: seq<Event>)
    requires Injective(hash) && count > 0 && TakesNothingBack(hash, Init(count, first, data), events)
    ensures ConfirmedHeld(RunOf(hash, Init(count, first, data), events))
  {
    var start := Init(count, first, data);
    if events == [] {
      forall i: nat | i < count ensures HoldsAt(start, i, first) {
        InitHolds(count, first, data, i);
      }
    } else {
      var n := |events| - 1;
      var s := RunOf(hash, start, events[..n]);
      forall k, i: nat, o | 0 <= k < n
        ensures !TakenBack(RunOf(hash, start, events[..n][..k]),
          Follow(hash, RunOf(hash, start, events[..n][..k]), events[..n][k]), i, o)
      {
        assert events[..n][..k] == events[..k];
      }
      RunConfirms(hash, count, first, data, events[..n]);
      RunIsSound(hash, count, first, data, events[..n]);
      forall i: nat, o ensures !TakenBack(s, Follow(hash, s, events[n]), i, o) {
      }
      EventConfirms(hash, s, events[n]);
    }
  }

  lemma {:induction false} InitHolds(count: nat, op: string, data: Bytes, i: nat)
    requires i < count
    ensures HoldsAt(Init(count, op, data), i, op)
  {
    var s := Init(count, op, data);
    PartsSingle(s.parts, LogEntry(op, data));
    assert Log(s.replicas[i]) == [LogEntry(op, data)];
  }
}
