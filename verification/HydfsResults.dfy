/** What the invariant of HydfsProtocol says about clients and files. */
module HydfsResults {
  import opened Sequences
  import opened Hydfs
  import opened HydfsProtocol

  lemma {:induction false} RunSplit(hash: Bytes -> Bytes, start: State, a: seq<Step>, b: seq<Step>)
    ensures Run(hash, start, a + b) == Run(hash, Run(hash, start, a), b)
  {
    FoldSplit(Stepper(hash), start, a, b);
  }

  /** Replica i's file is, byte for byte, the data of the operations that its log holds. */
  ghost predicate FileIsWholeAppends(s: State, i: nat)
    requires i < |s.replicas|
  {
    var r := s.replicas[i];
    && FileEqualsLog(r)
    && (forall o :: o in Parts(s.parts, Log(r)) ==> o in s.issued)
    && r.data.value == Text(s.issued, Parts(s.parts, Log(r)))
  }

  lemma {:induction false} InvFiles(s: State, i: nat)
    requires Inv(s) && i < |s.replicas|
    ensures FileIsWholeAppends(s, i)
  {
    var log := Log(s.replicas[i]);
    assert ReplicaOk(s.issued, s.parts, s.replicas[i]);
    KnownPartsIssued(s.issued, s.parts, log);
    ConcatIsText(s.issued, s.parts, log);
  }

  /** Under any interleaving of appends, fan-outs and merges, with any of their calls failing, an
      append that was acknowledged stays in the file of every replica for ever, its bytes whole,
      and what each replica holds only grows. */
  lemma {:induction false} AckedAppendNeverLost(
    hash: Bytes -> Bytes, count: nat, first: string, data: Bytes, before: seq<Step>, after: seq<Step>, op: string,
    i: nat)
    requires Injective(hash) && i < count
    requires op in Run(hash, Init(count, first, data), before).acked
    ensures var mid := Run(hash, Init(count, first, data), before);
      var end := Run(hash, Init(count, first, data), before + after);
      && |mid.replicas| == |end.replicas| == count
      && op in mid.issued && op in end.issued && end.issued[op] == mid.issued[op]
      && op in Parts(end.parts, Log(end.replicas[i])) && FileIsWholeAppends(end, i)
      && Covered(mid, i) <= Covered(end, i) <= Covered(end, 0)
  {
    var start := Init(count, first, data);
    InitHasInv(count, first, data);
    RunSplit(hash, start, before, after);
    RunKeepsInv(hash, start, before);
    var mid := Run(hash, start, before);
    RunKeepsInv(hash, mid, after);
    var end := Run(hash, mid, after);
    InvFiles(end, i);
    assert Held(mid)[i] == Covered(mid, i) && Held(end)[i] == Covered(end, i) && Held(end)[0] == Covered(end, 0);
  }

  /** A create of a new name that all replicas take leaves the file as the runs of the protocol start with it. */
  lemma {:induction false} CreateStartsProtocol(calls: seq<Call>, before: seq<Replica>, op: string, bytes: Bytes)
    requires PrimaryCreates(calls, before) && FanOutCreates(calls, before)
    requires forall i :: 0 <= i < |before| ==> calls[i].arrives
    ensures AfterCreate(calls, before, op, bytes) == Init(|before|, op, bytes).replicas
  {
  }

  // ---------------------------------------------------------------- a merge with nothing else going on

  ghost predicate AllOnce(order: seq<nat>, count: nat) {
    Distinct(order) && forall i: nat :: i in order <==> i < count
  }

  function Polls(order: seq<nat>): seq<Step> {
    seq(|order|, k requires 0 <= k < |order| => Poll(order[k], true))
  }

  function Pushes(order: seq<nat>, arrived: set<nat>): seq<Step> {
    seq(|order|, k requires 0 <= k < |order| => Push(order[k], order[k] in arrived))
  }

  /** A merge whose polls are all answered, in some order, and whose pushes reach some replicas. */
  function MergeSteps(
    polls: seq<nat>, op: string, final: seq<LogEntry>, pushes: seq<nat>, arrived: set<nat>): seq<Step>
  {
    [StartMerge] + Polls(polls) + [Compact(op, final)] + Pushes(pushes, arrived) + [EndMerge]
  }

  /** A merge that every replica answers, in some order, both times. */
  function WholeMerge(polls: seq<nat>, op: string, final: seq<LogEntry>, pushes: seq<nat>): seq<Step> {
    MergeSteps(polls, op, final, pushes, Everyone(pushes))
  }

  function Everyone(order: seq<nat>): set<nat> {
    set i | i in order
  }

  function AllEntries(s: State): set<LogEntry> {
    set i, e | 0 <= i < |s.replicas| && e in Log(s.replicas[i]) :: e
  }

  /** A merge can be made in these orders, with this operation ID and this result. */
  ghost predicate MergePossible(s: State, polls: seq<nat>, op: string, final: seq<LogEntry>, pushes: seq<nat>) {
    && s.merge.None? && op !in s.issued && |s.replicas| > 0
    && AllOnce(polls, |s.replicas|) && AllOnce(pushes, |s.replicas|)
    && Sorted(final) && OnePerOp(AllEntries(s), Entries(final))
  }

  function Compacted(e: LogEntry): Replica {
    Replica(Some(e.data), Some([e]))
  }

  /** The state in which the replicas in `order` have answered. */
  function Answered(s: State, order: seq<nat>): State
    requires forall k :: 0 <= k < |order| ==> order[k] < |s.replicas|
  {
    s.(merge := Some(Merge(map i | i in order :: Some(Log(s.replicas[i])), None, {})))
  }

  lemma {:induction false} PollStep(hash: Bytes -> Bytes, s: State, done: seq<nat>, i: nat)
    requires s.merge == Some(Merge(map[], None, {})) && i < |s.replicas| && i !in done
    requires forall k :: 0 <= k < |done| ==> done[k] < |s.replicas|
    ensures Next(hash, Answered(s, done), Poll(i, true)) == Answered(s, done + [i])
  {
    assert (map k | k in done + [i] :: Some(Log(s.replicas[k]))) ==
      (map k | k in done :: Some(Log(s.replicas[k])))[i := Some(Log(s.replicas[i]))];
  }

  lemma {:induction false} AfterPolls(hash: Bytes -> Bytes, s: State, order: seq<nat>)
    requires s.merge == Some(Merge(map[], None, {})) && Distinct(order)
    requires forall k :: 0 <= k < |order| ==> order[k] < |s.replicas|
    ensures Run(hash, s, Polls(order)) == Answered(s, order)
  {
    var path := (k: nat) => if k <= |order| then Answered(s, order[..k]) else s;
    forall k: nat | k < |order| ensures Stepper(hash)(path(k), Polls(order)[k]) == path(k + 1) {
      assert order[..k + 1] == order[..k] + [order[k]];
      PollStep(hash, s, order[..k], order[k]);
    }
    FoldFollows(Stepper(hash), path, Polls(order));
    assert Answered(s, []) == s;
    assert order[..|order|] == order;
  }

  /** The state in which the replicas in `order` have been overwritten, as far as pushes arrived. */
  function Overwritten(s: State, e: LogEntry, order: seq<nat>, arrived: set<nat>): State
    requires s.merge.Some?
  {
    s.(replicas := seq(|s.replicas|, i requires 0 <= i < |s.replicas| =>
         if i in order && i in arrived then Compacted(e) else s.replicas[i]),
       merge := Some(s.merge.value.(pushed := set i | i in order)))
  }

  lemma {:induction false} PushStep(
    hash: Bytes -> Bytes, s: State, e: LogEntry, done: seq<nat>, i: nat, arrived: set<nat>)
    requires Injective(hash) && s.merge.Some? && s.merge.value.compacted == Some(e)
    requires i < |s.replicas| && i !in done && 0 in arrived
    ensures Next(hash, Overwritten(s, e, done, arrived), Push(i, i in arrived)) ==
      Overwritten(s, e, done + [i], arrived)
  {
    var mid := Overwritten(s, e, done, arrived);
    var end := Overwritten(s, e, done + [i], arrived);
    ReconcileIsOverwrite(mid.replicas[i], e.data, [e], hash);
    assert end.replicas == if i in arrived then mid.replicas[i := Compacted(e)] else mid.replicas;
    assert mid.merge.value.pushed + {i} == end.merge.value.pushed;
  }

  lemma {:induction false} AfterPushes(
    hash: Bytes -> Bytes, s: State, e: LogEntry, order: seq<nat>, arrived: set<nat>)
    requires Injective(hash) && s.merge.Some? && s.merge.value.compacted == Some(e) && s.merge.value.pushed == {}
    requires Distinct(order) && 0 in arrived && forall k :: 0 <= k < |order| ==> order[k] < |s.replicas|
    ensures Run(hash, s, Pushes(order, arrived)) == Overwritten(s, e, order, arrived)
  {
    var path := (k: nat) => if k <= |order| then Overwritten(s, e, order[..k], arrived) else s;
    forall k: nat | k < |order| ensures Stepper(hash)(path(k), Pushes(order, arrived)[k]) == path(k + 1) {
      assert order[..k + 1] == order[..k] + [order[k]];
      PushStep(hash, s, e, order[..k], order[k], arrived);
    }
    FoldFollows(Stepper(hash), path, Pushes(order, arrived));
    NothingPushed(s, e, arrived);
    assert order[..0] == [];
    assert order[..|order|] == order;
  }

  lemma {:induction false} NothingPushed(s: State, e: LogEntry, arrived: set<nat>)
    requires s.merge.Some? && s.merge.value.pushed == {}
    ensures Overwritten(s, e, [], arrived) == s
  {
    assert Overwritten(s, e, [], arrived).replicas == s.replicas;
    assert Overwritten(s, e, [], arrived).merge.value.pushed == s.merge.value.pushed;
  }

  lemma {:induction false} PolledIsAll(s: State, order: seq<nat>)
    requires AllOnce(order, |s.replicas|)
    ensures PolledEntries(Merge(map i | i in order :: Some(Log(s.replicas[i])), None, {})) == AllEntries(s)
  {
    var m := Merge(map i | i in order :: Some(Log(s.replicas[i])), None, {});
    forall e | e in AllEntries(s) ensures e in PolledEntries(m) {
      var i :| 0 <= i < |s.replicas| && e in Log(s.replicas[i]);
      assert i in m.polls;
    }
  }

  /** The state after the compaction, all replicas having answered in the given order. */
  function AfterCompact(s: State, polls: seq<nat>, op: string, final: seq<LogEntry>): State
    requires forall k :: 0 <= k < |polls| ==> polls[k] < |s.replicas|
  {
    s.(issued := s.issued[op := Concat(final)], parts := s.parts[op := Parts(s.parts, final)],
       merge := Some(Answered(s, polls).merge.value.(compacted := Some(LogEntry(op, Concat(final))))))
  }

  lemma {:induction false} FirstHalf(hash: Bytes -> Bytes, s: State, polls: seq<nat>, op: string, final: seq<LogEntry>)
    requires s.merge.None? && op !in s.issued && AllOnce(polls, |s.replicas|)
    requires Sorted(final) && OnePerOp(AllEntries(s), Entries(final))
    ensures forall k :: 0 <= k < |polls| ==> polls[k] < |s.replicas|
    ensures Run(hash, s, [StartMerge] + Polls(polls) + [Compact(op, final)]) == AfterCompact(s, polls, op, final)
  {
    assert forall k :: 0 <= k < |polls| ==> polls[k] in polls;
    var s1 := s.(merge := Some(Merge(map[], None, {})));
    StartStep(hash, s);
    AfterPolls(hash, s1, polls);
    RunSplit(hash, s, [StartMerge], Polls(polls));
    PolledIsAll(s, polls);
    CompactStep(hash, Answered(s1, polls), op, final);
    RunSplit(hash, s, [StartMerge] + Polls(polls), [Compact(op, final)]);
  }

  /** The replicas after a merge whose pushes reached some of them. */
  function AfterMerge(replicas: seq<Replica>, e: LogEntry, arrived: set<nat>): seq<Replica> {
    seq(|replicas|, i requires 0 <= i < |replicas| => if i in arrived then Compacted(e) else replicas[i])
  }

  lemma {:induction false} MergeRuns(
    hash: Bytes -> Bytes, s: State, polls: seq<nat>, op: string, final: seq<LogEntry>, pushes: seq<nat>,
    arrived: set<nat>)
    requires Injective(hash) && MergePossible(s, polls, op, final, pushes) && 0 in arrived
    ensures Run(hash, s, MergeSteps(polls, op, final, pushes, arrived)) ==
      s.(issued := s.issued[op := Concat(final)], parts := s.parts[op := Parts(s.parts, final)],
         replicas := AfterMerge(s.replicas, LogEntry(op, Concat(final)), arrived))
  {
    var half := [StartMerge] + Polls(polls) + [Compact(op, final)];
    FirstHalf(hash, s, polls, op, final);
    SecondHalf(hash, AfterCompact(s, polls, op, final), LogEntry(op, Concat(final)), pushes, arrived);
    RunSplit(hash, s, half, Pushes(pushes, arrived) + [EndMerge]);
    assert MergeSteps(polls, op, final, pushes, arrived) == half + (Pushes(pushes, arrived) + [EndMerge]);
  }

  lemma {:induction false} SecondHalf(hash: Bytes -> Bytes, s: State, e: LogEntry, pushes: seq<nat>, arrived: set<nat>)
    requires Injective(hash) && s.merge.Some? && s.merge.value.compacted == Some(e) && s.merge.value.pushed == {}
    requires AllOnce(pushes, |s.replicas|) && 0 in arrived
    ensures Run(hash, s, Pushes(pushes, arrived) + [EndMerge]) ==
      s.(merge := None, replicas := AfterMerge(s.replicas, e, arrived))
  {
    assert forall k :: 0 <= k < |pushes| ==> pushes[k] in pushes;
    AfterPushes(hash, s, e, pushes, arrived);
    EndStep(hash, Overwritten(s, e, pushes, arrived));
    RunSplit(hash, s, Pushes(pushes, arrived), [EndMerge]);
    assert Overwritten(s, e, pushes, arrived).replicas == AfterMerge(s.replicas, e, arrived);
  }

  lemma {:induction false} WholeMergeRuns(
    hash: Bytes -> Bytes, s: State, polls: seq<nat>, op: string, final: seq<LogEntry>, pushes: seq<nat>)
    requires Injective(hash) && MergePossible(s, polls, op, final, pushes)
    ensures Run(hash, s, WholeMerge(polls, op, final, pushes)) ==
      s.(issued := s.issued[op := Concat(final)], parts := s.parts[op := Parts(s.parts, final)],
         replicas := seq(|s.replicas|, _ => Compacted(LogEntry(op, Concat(final)))))
  {
    EveryoneIsAll(s.replicas, LogEntry(op, Concat(final)), pushes);
    MergeRuns(hash, s, polls, op, final, pushes, Everyone(pushes));
  }

  lemma {:induction false} EveryoneIsAll(replicas: seq<Replica>, e: LogEntry, order: seq<nat>)
    requires AllOnce(order, |replicas|)
    ensures |replicas| > 0 ==> 0 in Everyone(order)
    ensures AfterMerge(replicas, e, Everyone(order)) == seq(|replicas|, _ => Compacted(e))
  {
  }

  lemma {:induction false} RunOne(hash: Bytes -> Bytes, s: State, step: Step)
    ensures Run(hash, s, [step]) == Next(hash, s, step)
  {
    FoldSnoc(Stepper(hash), s, [], step);
    assert [] + [step] == [step];
  }

  lemma {:induction false} StartStep(hash: Bytes -> Bytes, s: State)
    requires s.merge.None?
    ensures Run(hash, s, [StartMerge]) == s.(merge := Some(Merge(map[], None, {})))
  {
  }

  lemma {:induction false} CompactStep(hash: Bytes -> Bytes, s: State, op: string, final: seq<LogEntry>)
    requires s.merge.Some? && s.merge.value.compacted.None? && op !in s.issued
    requires forall i: nat :: i < |s.replicas| ==> i in s.merge.value.polls
    requires Sorted(final) && OnePerOp(PolledEntries(s.merge.value), Entries(final))
    ensures Run(hash, s, [Compact(op, final)]) ==
      s.(issued := s.issued[op := Concat(final)], parts := s.parts[op := Parts(s.parts, final)],
         merge := Some(s.merge.value.(compacted := Some(LogEntry(op, Concat(final))))))
  {
    RunOne(hash, s, Compact(op, final));
    assert Enabled(s, Compact(op, final));
  }

  lemma {:induction false} EndStep(hash: Bytes -> Bytes, s: State)
    requires s.merge.Some? && s.merge.value.compacted.Some?
    requires forall i: nat :: i < |s.replicas| ==> i in s.merge.value.pushed
    ensures Run(hash, s, [EndMerge]) == s.(merge := None)
  {
  }

  /** A merge that all replicas answer, with no append in between, after any run: all replicas end
      with the same log and file; the file is the data of the union of all entries in increasing
      order of operation IDs, each once. */
  lemma {:induction false} QuiescentMerge(
    hash: Bytes -> Bytes, s: State, polls: seq<nat>, op: string, final: seq<LogEntry>, pushes: seq<nat>)
    requires Injective(hash) && Inv(s) && MergePossible(s, polls, op, final, pushes)
    ensures IsMerge(AllEntries(s), final)
    ensures var end := Run(hash, s, WholeMerge(polls, op, final, pushes));
      && |end.replicas| == |s.replicas| && end.merge.None? && Inv(end)
      && forall i :: 0 <= i < |end.replicas| ==> end.replicas[i] == Compacted(LogEntry(op, Concat(final)))
  {
    AllEntriesConsistent(s);
    ConsistentMerge(AllEntries(s), final);
    WholeMergeRuns(hash, s, polls, op, final, pushes);
    RunKeepsInv(hash, s, WholeMerge(polls, op, final, pushes));
  }

  /** In every reachable state equal operation IDs carry equal data on all replicas. */
  lemma {:induction false} AllEntriesConsistent(s: State)
    requires Inv(s)
    ensures Consistent(AllEntries(s))
  {
  }

  /** The order in which replicas answer, and the choice made where two answers agree on an ID, do not
      matter. */
  lemma {:induction false} MergeOrderDoesNotMatter(
    hash: Bytes -> Bytes, s: State, op: string,
    polls: seq<nat>, final: seq<LogEntry>, pushes: seq<nat>, polls': seq<nat>, final': seq<LogEntry>, pushes': seq<nat>)
    requires Injective(hash) && Inv(s)
    requires MergePossible(s, polls, op, final, pushes) && MergePossible(s, polls', op, final', pushes')
    ensures final == final'
    ensures Run(hash, s, WholeMerge(polls, op, final, pushes)).replicas ==
      Run(hash, s, WholeMerge(polls', op, final', pushes')).replicas
  {
    QuiescentMerge(hash, s, polls, op, final, pushes);
    QuiescentMerge(hash, s, polls', op, final', pushes');
    MergeUnique(AllEntries(s), final, final');
  }

  /** A second merge leaves the data as it is. */
  lemma {:induction false} SecondMergeKeepsData(
    hash: Bytes -> Bytes, s: State, e: LogEntry, polls: seq<nat>, op: string, final: seq<LogEntry>, pushes: seq<nat>)
    requires Injective(hash) && Inv(s) && MergePossible(s, polls, op, final, pushes)
    requires forall i :: 0 <= i < |s.replicas| ==> s.replicas[i] == Compacted(e)
    ensures var end := Run(hash, s, WholeMerge(polls, op, final, pushes));
      && |end.replicas| == |s.replicas|
      && forall i :: 0 <= i < |end.replicas| ==> end.replicas[i].data == s.replicas[i].data
  {
    QuiescentMerge(hash, s, polls, op, final, pushes);
    MergeOfOne(s, e, final);
    var end := Run(hash, s, WholeMerge(polls, op, final, pushes));
    forall i | 0 <= i < |end.replicas| ensures end.replicas[i].data == s.replicas[i].data {
      assert end.replicas[i] == Compacted(LogEntry(op, Concat(final))) && s.replicas[i] == Compacted(e);
    }
  }

  lemma {:induction false} MergeOfOne(s: State, e: LogEntry, final: seq<LogEntry>)
    requires |s.replicas| > 0 && forall i :: 0 <= i < |s.replicas| ==> s.replicas[i] == Compacted(e)
    requires IsMerge(AllEntries(s), final)
    ensures final == [e] && Concat(final) == e.data
  {
    assert s.replicas[0] == Compacted(e) && e in Log(s.replicas[0]);
    forall x | x in AllEntries(s) ensures x == e {
      var i :| 0 <= i < |s.replicas| && x in Log(s.replicas[i]);
      assert s.replicas[i] == Compacted(e);
    }
    assert AllEntries(s) == {e};
    assert Sorted([e]) && Entries([e]) == {e};
    MergeUnique({e}, final, [e]);
    ConcatSnoc([], e);
    assert [] + [e] == [e];
  }

  // ---------------------------------------------------------------- a client's append as a run

  /** The append at the primary and the fan-out to all others. */
  function WriteSteps(calls: seq<Call>, op: string, bytes: Bytes): seq<Step>
    requires calls != []
  {
    [Append(op, bytes)] + FanOuts(calls, op)
  }

  function FanOuts(calls: seq<Call>, op: string): seq<Step>
    requires calls != []
  {
    seq(|calls| - 1, k requires 0 <= k < |calls| - 1 => FanOut(op, k + 1, calls[k + 1].arrives, calls[k + 1].replied))
  }

  /** The state after `done` fan-outs of an append. */
  function FannedOut(s: State, calls: seq<Call>, op: string, bytes: Bytes, done: nat): State
    requires |calls| == |s.replicas|
  {
    s.(replicas := seq(|s.replicas|, i requires 0 <= i < |s.replicas| =>
         if 1 <= i <= done && calls[i].arrives then AppendOn(s.replicas[i], op, bytes).replica else s.replicas[i]),
       outstanding := s.outstanding - set i: nat | 1 <= i <= done :: (op, i),
       confirmed := s.confirmed +
         set i: nat | 1 <= i <= done && i < |calls| && calls[i].arrives && calls[i].replied :: (op, i))
  }

  lemma {:induction false} FanOutStep(
      hash: Bytes -> Bytes, s: State, calls: seq<Call>, op: string, bytes: Bytes, k: nat)
    requires |calls| == |s.replicas| && k + 1 < |calls| && op in s.issued && s.issued[op] == bytes
    requires (op, k + 1) in s.outstanding
    ensures var step := FanOut(op, k + 1, calls[k + 1].arrives, calls[k + 1].replied);
      Next(hash, FannedOut(s, calls, op, bytes, k), step) == FannedOut(s, calls, op, bytes, k + 1)
  {
    var mid, end := FannedOut(s, calls, op, bytes, k), FannedOut(s, calls, op, bytes, k + 1);
    assert end.outstanding == mid.outstanding - {(op, k + 1)};
    assert end.confirmed == if calls[k + 1].arrives && calls[k + 1].replied
      then mid.confirmed + {(op, k + 1)} else mid.confirmed;
    assert end.replicas == if calls[k + 1].arrives
      then mid.replicas[k + 1 := AppendOn(mid.replicas[k + 1], op, bytes).replica] else mid.replicas;
  }

  lemma {:induction false} AfterFanOuts(hash: Bytes -> Bytes, s: State, calls: seq<Call>, op: string, bytes: Bytes)
    requires |calls| == |s.replicas| > 0 && op in s.issued && s.issued[op] == bytes
    requires forall i: nat :: 1 <= i < |calls| ==> (op, i) in s.outstanding
    ensures Run(hash, s, FanOuts(calls, op)) == FannedOut(s, calls, op, bytes, |calls| - 1)
  {
    var path := (k: nat) => FannedOut(s, calls, op, bytes, k);
    forall k: nat | k < |calls| - 1 ensures Stepper(hash)(path(k), FanOuts(calls, op)[k]) == path(k + 1) {
      FanOutStep(hash, s, calls, op, bytes, k);
    }
    FoldFollows(Stepper(hash), path, FanOuts(calls, op));
    NoFanOutYet(s, calls, op, bytes);
  }

  lemma {:induction false} NoFanOutYet(s: State, calls: seq<Call>, op: string, bytes: Bytes)
    requires |calls| == |s.replicas|
    ensures FannedOut(s, calls, op, bytes, 0) == s
  {
    var t := FannedOut(s, calls, op, bytes, 0);
    assert t.replicas == s.replicas && t.outstanding == s.outstanding && t.confirmed == s.confirmed;
  }

  /** What the imperative append does to the replicas is a run of the protocol, and its acknowledgement
      is a step that is possible then. */
  lemma {:induction false} WriteIsARun(hash: Bytes -> Bytes, s: State, calls: seq<Call>, op: string, bytes: Bytes)
    requires Inv(s) && s.merge.None? && op !in s.issued && |calls| == |s.replicas| && calls[0].arrives
    ensures var end := Run(hash, s, WriteSteps(calls, op, bytes));
      && end.replicas == AfterWrite(calls, s.replicas, op, bytes)
      && (AllDone(calls, s.replicas, op, bytes) ==> Enabled(end, Ack(op)))
  {
    AfterWriteSteps(hash, s, calls, op, bytes);
    var s1 := Act(hash, s, Append(op, bytes));
    assert ReplicaOk(s.issued, s.parts, s.replicas[0]);
    assert FannedOut(s1, calls, op, bytes, |calls| - 1).replicas == AfterWrite(calls, s.replicas, op, bytes);
  }

  lemma {:induction false} AfterWriteSteps(hash: Bytes -> Bytes, s: State, calls: seq<Call>, op: string, bytes: Bytes)
    requires s.merge.None? && op !in s.issued && |calls| == |s.replicas| > 0
    ensures Run(hash, s, WriteSteps(calls, op, bytes)) ==
      FannedOut(Act(hash, s, Append(op, bytes)), calls, op, bytes, |calls| - 1)
  {
    RunOne(hash, s, Append(op, bytes));
    RunSplit(hash, s, [Append(op, bytes)], FanOuts(calls, op));
    AfterFanOuts(hash, Act(hash, s, Append(op, bytes)), calls, op, bytes);
  }

  /** It is acknowledged then exactly when every other replica was reached and its reply has arrived. */
  lemma {:induction false} WriteIsAckedExactlyWhen(
      hash: Bytes -> Bytes, s: State, calls: seq<Call>, op: string, bytes: Bytes)
    requires Inv(s) && s.merge.None? && op !in s.issued && |calls| == |s.replicas| && calls[0].arrives
    ensures op in Run(hash, s, WriteSteps(calls, op, bytes) + [Ack(op)]).acked <==>
      forall i :: 1 <= i < |calls| ==> calls[i].arrives && calls[i].replied
    ensures AllDone(calls, s.replicas, op, bytes) <==>
      calls[0].replied && op in Run(hash, s, WriteSteps(calls, op, bytes) + [Ack(op)]).acked
  {
    AllDoneExactlyWhen(s, calls, op, bytes);
    var end := FannedOut(Act(hash, s, Append(op, bytes)), calls, op, bytes, |calls| - 1);
    AfterWriteSteps(hash, s, calls, op, bytes);
    RunSplit(hash, s, WriteSteps(calls, op, bytes), [Ack(op)]);
    RunOne(hash, end, Ack(op));
    forall i: nat | i < |calls| ensures (op, i) !in s.confirmed {
      NewIsUnconfirmed(s, op, i);
    }
    assert op !in s.acked;
    ConfirmedByFanOuts(s, calls, op, end.confirmed);
  }

  lemma {:induction false} ConfirmedByFanOuts(
      s: State, calls: seq<Call>, op: string, confirmed: set<(string, nat)>)
    requires forall i: nat :: i < |calls| ==> (op, i) !in s.confirmed
    requires calls != [] && confirmed == s.confirmed +
      set i: nat | 1 <= i <= |calls| - 1 && i < |calls| && calls[i].arrives && calls[i].replied :: (op, i)
    ensures forall i: nat :: 1 <= i < |calls| ==> ((op, i) in confirmed <==> calls[i].arrives && calls[i].replied)
  {
  }

  lemma {:induction false} AllDoneExactlyWhen(s: State, calls: seq<Call>, op: string, bytes: Bytes)
    requires LogsOk(s) && |calls| == |s.replicas| > 0 && calls[0].arrives
    ensures AllDone(calls, s.replicas, op, bytes) <==>
      calls[0].replied && forall i :: 1 <= i < |calls| ==> calls[i].arrives && calls[i].replied
  {
    assert forall i :: 0 <= i < |s.replicas| ==> ReplicaOk(s.issued, s.parts, s.replicas[i]);
  }

  lemma {:induction false} NewIsUnconfirmed(s: State, op: string, i: nat)
    requires Inv(s) && op !in s.issued
    ensures (op, i) !in s.confirmed
  {
    if (op, i) in s.confirmed {
      assert op in Held(s)[i] && Held(s)[i] == Covered(s, i);
      assert ReplicaOk(s.issued, s.parts, s.replicas[i]);
      KnownPartsIssued(s.issued, s.parts, Log(s.replicas[i]));
    }
  }
}
