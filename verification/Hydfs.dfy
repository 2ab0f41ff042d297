/**
 * One HyDFS file on one node: the data file, its operation log and the lock; and the
 * computation of a merge. The class FileReplica is the file as the node's RPC handlers
 * change it; each handler is proved equal to a function on the datatype Replica, which
 * module HydfsProtocol uses. Local disk writes succeed.
 */
module Hydfs {
  import opened Sequences

  type Bytes = seq<char>

  datatype LogEntry = LogEntry(op: string, data: Bytes)

  /** The two files behind a HyDFS file name; None is a missing file. */
  datatype Replica = Replica(data: Option<Bytes>, log: Option<seq<LogEntry>>)

  datatype Changed = Changed(replica: Replica, success: bool)

  /** The data of a log's entries, one after the other. */
  function Concat(log: seq<LogEntry>): Bytes {
    if log == [] then [] else Concat(log[..|log| - 1]) + log[|log| - 1].data
  }

  lemma {:induction false} ConcatSnoc(log: seq<LogEntry>, e: LogEntry)
    ensures Concat(log + [e]) == Concat(log) + e.data
  {
  }

  /** The file exists with its log, and holds what the log says. */
  ghost predicate FileEqualsLog(r: Replica) {
    r.data.Some? && r.log.Some? && r.data.value == Concat(r.log.value)
  }

  ghost predicate Missing(r: Replica) {
    r.data.None? && r.log.None?
  }

  // ---------------------------------------------------------------- the handlers, on values

  /** CreateFile up to the fan-out: refused when the log exists. */
  function CreateOn(r: Replica, op: string, data: Bytes): Changed {
    if r.log.Some? then Changed(r, false)
    else Changed(Replica(Some(data), Some([LogEntry(op, data)])), true)
  }

  /** AppendFile up to the fan-out. */
  function AppendOn(r: Replica, op: string, data: Bytes): Changed {
    if r.log.None? || r.data.None? then Changed(r, false)
    else Changed(Replica(Some(r.data.value + data), Some(r.log.value + [LogEntry(op, data)])), true)
  }

  /** localReconcileFile: the data file is written unless its hash is the announced one. */
  function ReconcileOn<H(==)>(r: Replica, data: Bytes, log: seq<LogEntry>, hash: Bytes -> H): Replica {
    if r.data.Some? && hash(r.data.value) == hash(data) then Replica(r.data, Some(log))
    else Replica(Some(data), Some(log))
  }

  ghost predicate Injective<H>(hash: Bytes -> H) {
    forall a, b :: hash(a) == hash(b) ==> a == b
  }

  lemma {:induction false} CreateKeepsFileEqualsLog(r: Replica, op: string, data: Bytes)
    requires FileEqualsLog(r) || Missing(r)
    ensures FileEqualsLog(CreateOn(r, op, data).replica)
    ensures CreateOn(r, op, data).success <==> Missing(r)
    ensures Missing(r) ==> CreateOn(r, op, data).replica.data == Some(data)
  {
  }

  lemma {:induction false} AppendKeepsFileEqualsLog(r: Replica, op: string, data: Bytes)
    requires FileEqualsLog(r)
    ensures AppendOn(r, op, data).success && FileEqualsLog(AppendOn(r, op, data).replica)
  {
  }

  /** With an injective hash the skip makes no difference: a reconcile always leaves the
      announced data and log. */
  lemma {:induction false} ReconcileIsOverwrite<H>(r: Replica, data: Bytes, log: seq<LogEntry>, hash: Bytes -> H)
    requires Injective(hash)
    ensures ReconcileOn(r, data, log, hash) == Replica(Some(data), Some(log))
  {
  }

  /** In general: a reconcile to a log that matches its data keeps file and log equal exactly
      when the old data, if its hash is the announced one, is the announced data. */
  lemma {:induction false} ReconcileKeepsFileEqualsLogExactlyWhen<H>(
    r: Replica, log: seq<LogEntry>, hash: Bytes -> H)
    ensures FileEqualsLog(ReconcileOn(r, Concat(log), log, hash)) <==>
      (r.data.Some? && hash(r.data.value) == hash(Concat(log)) ==> r.data.value == Concat(log))
  {
  }

  // ---------------------------------------------------------------- the order of operation IDs

  /** The order of strings in Go. */
  predicate Less(a: string, b: string) {
    b != [] && (a == [] || a[0] < b[0] || (a[0] == b[0] && Less(a[1..], b[1..])))
  }

  lemma {:induction false} LessTotal(a: string, b: string)
    ensures Less(a, b) || a == b || Less(b, a)
    ensures !(Less(a, b) && Less(b, a)) && !Less(a, a)
  {
    if a != [] && b != [] {
      LessTotal(a[1..], b[1..]);
      LessTotal(a[1..], a[1..]);
      if a[0] == b[0] && a[1..] == b[1..] {
        assert a == [a[0]] + a[1..] == b;
      }
    } else if a != [] {
      LessTotal(a[1..], a[1..]);
    }
  }

  lemma {:induction false} LessTransitive(a: string, b: string, c: string)
    requires Less(a, b) && Less(b, c)
    ensures Less(a, c)
  {
    if a != [] && a[0] == b[0] && b[0] == c[0] {
      LessTransitive(a[1..], b[1..], c[1..]);
    }
  }

  /** Said without the recursion: b goes on where a ends, or the first characters that differ decide. */
  ghost predicate FirstDifferenceLess(a: string, b: string) {
    a != b && (a <= b || exists k :: DiffersAt(a, b, k))
  }

  /** Up to place k they are the same, and there a has the lesser character. */
  predicate DiffersAt(a: string, b: string, k: int) {
    0 <= k < |a| && k < |b| && a[..k] == b[..k] && a[k] < b[k]
  }

  lemma {:induction false} LessIsFirstDifference(a: string, b: string)
    ensures Less(a, b) <==> FirstDifferenceLess(a, b)
  {
    if a != [] && b != [] && a[0] == b[0] {
      LessIsFirstDifference(a[1..], b[1..]);
      SameFirst(a, b);
    } else if a != [] && b != [] {
      assert a[0] < b[0] ==> DiffersAt(a, b, 0);
      if k :| DiffersAt(a, b, k) {
        FirstDecides(a, b, k);
      }
    }
  }

  lemma {:induction false} FirstDecides(a: string, b: string, k: int)
    requires DiffersAt(a, b, k)
    ensures if k == 0 then a[0] < b[0] else a[0] == b[0]
  {
    if k > 0 {
      assert a[..k][0] == a[0] && b[..k][0] == b[0];
    }
  }

  lemma {:induction false} SameFirst(a: string, b: string)
    requires a != [] && b != [] && a[0] == b[0]
    ensures FirstDifferenceLess(a, b) <==> FirstDifferenceLess(a[1..], b[1..])
  {
    assert a == [a[0]] + a[1..] && b == [b[0]] + b[1..];
    if k :| DiffersAt(a[1..], b[1..], k) {
      assert a[..k + 1] == [a[0]] + a[1..][..k] && b[..k + 1] == [b[0]] + b[1..][..k];
      assert DiffersAt(a, b, k + 1);
    }
    if k :| DiffersAt(a, b, k) {
      assert a[1..][..k - 1] == a[..k][1..] && b[1..][..k - 1] == b[..k][1..];
      assert DiffersAt(a[1..], b[1..], k - 1);
    }
  }

  /** In particular numbers in IDs are not compared as numbers. */
  lemma {:induction false} TenBeforeNine()
    ensures Less("append-1-0-10-6", "append-1-0-9-5")
  {
    var a, b := "append-1-0-10-6", "append-1-0-9-5";
    assert a[..11] == "append-1-0-" == b[..11] && a[11] < b[11];
    assert DiffersAt(a, b, 11);
    LessIsFirstDifference(a, b);
  }

  /** Strictly increasing operation IDs. */
  ghost predicate Sorted(log: seq<LogEntry>) {
    forall i, k :: 0 <= i < k < |log| ==> Less(log[i].op, log[k].op)
  }

  /** Equal operation IDs carry equal data. */
  ghost predicate Consistent(entries: set<LogEntry>) {
    forall x, y :: x in entries && y in entries && x.op == y.op ==> x == y
  }

  function Entries(log: seq<LogEntry>): set<LogEntry> {
    set e | e in log
  }

  lemma {:induction false} SortedTail(log: seq<LogEntry>)
    requires Sorted(log) && log != []
    ensures Sorted(log[1..]) && log[0] !in log[1..]
    ensures forall e :: e in log[1..] ==> Less(log[0].op, e.op)
  {
    LessTotal(log[0].op, log[0].op);
    forall i, k | 0 <= i < k < |log[1..]| ensures Less(log[1..][i].op, log[1..][k].op) {
      assert log[1..][i] == log[i + 1] && log[1..][k] == log[k + 1];
    }
  }

  /** A set of entries has one arrangement in increasing order. */
  lemma {:induction false} SortedUnique(a: seq<LogEntry>, b: seq<LogEntry>)
    requires Sorted(a) && Sorted(b) && Entries(a) == Entries(b)
    ensures a == b
  {
    assert forall i :: 0 <= i < |a| ==> a[i] in Entries(a);
    assert forall i :: 0 <= i < |b| ==> b[i] in Entries(b);
    if a != [] && b != [] {
      SortedTail(a);
      SortedTail(b);
      assert a[0] in Entries(b) && b[0] in Entries(a);
      LessTotal(a[0].op, b[0].op);
      assert a[0] == b[0];
      forall e ensures e in a[1..] <==> e in b[1..] {
        assert a == [a[0]] + a[1..] && b == [b[0]] + b[1..];
        assert e in a <==> e in Entries(a);
        assert e in b <==> e in Entries(b);
      }
      SortedUnique(a[1..], b[1..]);
      assert a == [a[0]] + a[1..] && b == [b[0]] + b[1..];
    }
  }

  // ---------------------------------------------------------------- the merge computation

  /** The entries of all replies; a failed poll contributes nothing. */
  function Polled(replies: seq<Option<seq<LogEntry>>>): set<LogEntry> {
    set i, e | 0 <= i < |replies| && replies[i].Some? && e in replies[i].value :: e
  }

  /** The final log of a merge: the polled entries in increasing order. */
  ghost predicate IsMerge(entries: set<LogEntry>, final: seq<LogEntry>) {
    Sorted(final) && Entries(final) == entries
  }

  function Insert(log: seq<LogEntry>, e: LogEntry): seq<LogEntry> {
    if log == [] || Less(e.op, log[0].op) then [e] + log else [log[0]] + Insert(log[1..], e)
  }

  lemma {:induction false} InsertSorted(log: seq<LogEntry>, e: LogEntry)
    requires Sorted(log) && forall x :: x in log ==> x.op != e.op
    ensures Sorted(Insert(log, e)) && Entries(Insert(log, e)) == Entries(log) + {e}
  {
    if log != [] {
      SortedTail(log);
      LessTotal(e.op, log[0].op);
      assert log == [log[0]] + log[1..];
      if Less(e.op, log[0].op) {
        forall x | x in log ensures Less(e.op, x.op) {
          if x in log[1..] {
            LessTransitive(e.op, log[0].op, x.op);
          }
        }
        ConsSorted(e, log);
      } else {
        InsertSorted(log[1..], e);
        forall x | x in Insert(log[1..], e) ensures Less(log[0].op, x.op) {
          assert x in Entries(Insert(log[1..], e));
        }
        ConsSorted(log[0], Insert(log[1..], e));
      }
    }
  }

  lemma {:induction false} ConsSorted(e: LogEntry, log: seq<LogEntry>)
    requires Sorted(log) && forall x :: x in log ==> Less(e.op, x.op)
    ensures Sorted([e] + log) && Entries([e] + log) == {e} + Entries(log)
  {
  }

  /** One entry for every operation ID, and no other. */
  ghost predicate OnePerOp(entries: set<LogEntry>, chosen: set<LogEntry>) {
    && chosen <= entries
    && (forall e :: e in entries ==> exists f :: f in chosen && f.op == e.op)
  }

  /** The table of a merge keeps one polled entry under each operation ID. */
  ghost predicate TableOf(table: map<string, LogEntry>, entries: set<LogEntry>) {
    && (forall op :: op in table ==> table[op].op == op && table[op] in entries)
    && (forall e :: e in entries ==> e.op in table)
  }

  /** MergeFile between the polls and the push: union by operation ID, sort, concatenate. Where two
      replies disagree on an ID, which one stays is left open, as is the order in which
      the table is walked. */
  method MergeLogs(replies: seq<Option<seq<LogEntry>>>) returns (final: seq<LogEntry>, data: Bytes)
    ensures Sorted(final) && OnePerOp(Polled(replies), Entries(final))
    ensures forall i, k :: 0 <= i < k < |final| ==> FirstDifferenceLess(final[i].op, final[k].op)
    ensures data == Concat(final)
  {
    var table := UnionByOp(replies);
    final := SortByOp(table);
    forall e | e in Polled(replies) ensures exists f :: f in Entries(final) && f.op == e.op {
      assert table[e.op] in Entries(final);
    }
    data := [];
    for i := 0 to |final|
      invariant data == Concat(final[..i])
    {
      assert final[..i + 1][..i] == final[..i];
      data := data + final[i].data;
    }
    assert final[..|final|] == final;
  }

  method UnionByOp(replies: seq<Option<seq<LogEntry>>>) returns (table: map<string, LogEntry>)
    ensures TableOf(table, Polled(replies))
  {
    table := map[];
    for i := 0 to |replies|
      invariant TableOf(table, Polled(replies[..i]))
    {
      PolledSnoc(replies, i);
      if replies[i].Some? {
        table := AddReply(table, Polled(replies[..i]), replies[i].value);
      }
    }
    assert replies[..|replies|] == replies;
  }

  method AddReply(given: map<string, LogEntry>, ghost before: set<LogEntry>, log: seq<LogEntry>)
    returns (table: map<string, LogEntry>)
    requires TableOf(given, before)
    ensures TableOf(table, before + Entries(log))
  {
    table := given;
    for k := 0 to |log|
      invariant TableOf(table, before + Entries(log[..k]))
    {
      assert log[..k + 1] == log[..k] + [log[k]];
      assert before + Entries(log[..k + 1]) == before + Entries(log[..k]) + {log[k]};
      table := table[log[k].op := log[k]];
    }
    assert log[..|log|] == log;
  }

  method SortByOp(table: map<string, LogEntry>) returns (final: seq<LogEntry>)
    requires forall op :: op in table ==> table[op].op == op
    ensures Sorted(final) && Entries(final) == set op | op in table :: table[op]
    ensures forall i, k :: 0 <= i < k < |final| ==> FirstDifferenceLess(final[i].op, final[k].op)
  {
    final := [];
    var rest := table.Keys;
    while rest != {}
      invariant rest <= table.Keys
      invariant Sorted(final)
      invariant Entries(final) == set op | op in table.Keys - rest :: table[op]
      decreases rest
    {
      var op := Pick(rest);
      assert forall x :: x in final ==> x in Entries(final);
      InsertSorted(final, table[op]);
      final := Insert(final, table[op]);
      rest := rest - {op};
    }
    SortedByFirstDifference(final);
  }

  lemma {:induction false} SortedByFirstDifference(log: seq<LogEntry>)
    requires Sorted(log)
    ensures forall i, k :: 0 <= i < k < |log| ==> FirstDifferenceLess(log[i].op, log[k].op)
  {
    forall i, k | 0 <= i < k < |log| ensures FirstDifferenceLess(log[i].op, log[k].op) {
      LessIsFirstDifference(log[i].op, log[k].op);
    }
  }

  /** When equal IDs carry equal data nothing is dropped. */
  lemma {:induction false} ConsistentMerge(entries: set<LogEntry>, final: seq<LogEntry>)
    requires Consistent(entries) && Sorted(final) && OnePerOp(entries, Entries(final))
    ensures IsMerge(entries, final)
  {
  }

  lemma {:induction false} PolledSnoc(replies: seq<Option<seq<LogEntry>>>, i: nat)
    requires i < |replies|
    ensures Polled(replies[..i + 1]) ==
      Polled(replies[..i]) + if replies[i].Some? then Entries(replies[i].value) else {}
    ensures Polled(replies[..i + 1]) <= Polled(replies)
  {
  }

  /** The result of a merge depends only on what was polled: not on the order of replies, nor on
      which replica holds which entry. */
  lemma {:induction false} MergeUnique(entries: set<LogEntry>, a: seq<LogEntry>, b: seq<LogEntry>)
    requires IsMerge(entries, a) && IsMerge(entries, b)
    ensures a == b && Concat(a) == Concat(b)
  {
    SortedUnique(a, b);
  }

  // ---------------------------------------------------------------- the file on a node

  class FileReplica {
    var data: Option<Bytes>
    var log: Option<seq<LogEntry>>
    var locked: bool

    ghost function State(): Replica
      reads this
    {
      Replica(data, log)
    }

    constructor ()
      ensures Missing(State()) && !locked
    {
      data, log, locked := None, None, false;
    }

    method CreateFile(op: string, bytes: Bytes) returns (success: bool)
      requires !locked
      modifies this
      ensures Changed(State(), success) == CreateOn(old(State()), op, bytes)
      ensures !locked
    {
      locked := true;
      if log.Some? {
        locked := false;
        return false;
      }
      data := Some(bytes);
      log := Some([LogEntry(op, bytes)]);
      locked := false;
      success := true;
    }

    /** The primary's clean-up when the fan-out of a create failed. */
    method RemoveData()
      modifies this
      ensures State() == old(State()).(data := None) && locked == old(locked)
    {
      data := None;
    }

    /** The lock stays held when the file is missing. */
    method AppendFile(op: string, bytes: Bytes) returns (success: bool)
      requires !locked
      modifies this
      ensures Changed(State(), success) == AppendOn(old(State()), op, bytes)
      ensures locked <==> !success
    {
      locked := true;
      if log.None? {
        return false;
      }
      if data.None? {
        return false;
      }
      data := Some(data.value + bytes);
      log := Some(log.value + [LogEntry(op, bytes)]);
      locked := false;
      success := true;
    }

    method ReconcileFile<H(==)>(final: Bytes, finalLog: seq<LogEntry>, hash: Bytes -> H)
      requires !locked
      modifies this
      ensures State() == ReconcileOn(old(State()), final, finalLog, hash)
      ensures !locked
    {
      locked := true;
      if data.Some? && hash(data.value) == hash(final) {
        log := Some(finalLog);
      } else {
        data := Some(final);
        log := Some(finalLog);
      }
      locked := false;
    }

    method GetOperationLog() returns (reply: Option<seq<LogEntry>>)
      requires !locked
      ensures reply == log
    {
      reply := log;
    }
  }

  // ---------------------------------------------------------------- an append from the client's side

  /** What reaches a replica, and whether its reply comes back. */
  datatype Call = Call(arrives: bool, replied: bool)

  ghost predicate Ready(replicas: seq<FileReplica>)
    reads replicas
  {
    && (forall i, k :: 0 <= i < k < |replicas| ==> replicas[i] != replicas[k])
    && forall i :: 0 <= i < |replicas| ==> !replicas[i].locked
  }

  ghost function States(replicas: seq<FileReplica>): (r: seq<Replica>)
    reads replicas
    ensures |r| == |replicas| && forall i :: 0 <= i < |r| ==> r[i] == replicas[i].State()
  {
    seq(|replicas|, i requires 0 <= i < |replicas| reads replicas => replicas[i].State())
  }

  /** The primary has appended. */
  predicate PrimaryDone(calls: seq<Call>, before: seq<Replica>, op: string, bytes: Bytes) {
    |calls| == |before| > 0 && calls[0].arrives && AppendOn(before[0], op, bytes).success
  }

  /** Every replica has appended, and every reply has arrived. */
  predicate AllDone(calls: seq<Call>, before: seq<Replica>, op: string, bytes: Bytes) {
    && |calls| == |before| > 0
    && forall i :: 0 <= i < |before| ==> calls[i].arrives && calls[i].replied && AppendOn(before[i], op, bytes).success
  }

  function AfterWrite(calls: seq<Call>, before: seq<Replica>, op: string, bytes: Bytes): seq<Replica>
    requires |calls| == |before|
  {
    if PrimaryDone(calls, before, op, bytes) then
      seq(|before|, i requires 0 <= i < |before| =>
        if calls[i].arrives then AppendOn(before[i], op, bytes).replica else before[i])
    else before
  }

  /**
   * CallHyDFSWrite for an append: the first replica is the primary; it appends, and fans out
   * to the others if that succeeded. The client gets an acknowledgement exactly when every
   * replica has appended and every reply has arrived.
   */
  method AppendReplicated(replicas: seq<FileReplica>, calls: seq<Call>, op: string, bytes: Bytes) returns (acked: bool)
    requires |calls| == |replicas| && Ready(replicas)
    modifies replicas
    ensures States(replicas) == AfterWrite(calls, old(States(replicas)), op, bytes)
    ensures acked <==> AllDone(calls, old(States(replicas)), op, bytes)
    ensures States(replicas) == Serve(old(States(replicas)), AppendRequest(calls, op, bytes))
    ensures acked <==> Acknowledged(old(States(replicas)), AppendRequest(calls, op, bytes))
  {
    ghost var before := States(replicas);
    if replicas == [] || !calls[0].arrives {
      return false;
    }
    var primaryDone := replicas[0].AppendFile(op, bytes);
    if !primaryDone {
      assert States(replicas) == before;
      return false;
    }
    var count := 0;
    for i := 1 to |replicas|
      invariant count < i
      invariant count == i - 1 <==> forall k :: 1 <= k < i ==>
        calls[k].arrives && calls[k].replied && AppendOn(before[k], op, bytes).success
      invariant forall k :: 0 <= k < i ==> replicas[k].State() == AfterWrite(calls, before, op, bytes)[k]
      invariant forall k :: i <= k < |replicas| ==> replicas[k].State() == before[k] && !replicas[k].locked
    {
      if calls[i].arrives {
        var done := replicas[i].AppendFile(op, bytes);
        if done && calls[i].replied {
          count := count + 1;
        }
      }
    }
    acked := count == |replicas| - 1 && calls[0].replied;
  }

  // ---------------------------------------------------------------- a create from the client's side

  /** The primary has created the file. */
  predicate PrimaryCreates(calls: seq<Call>, before: seq<Replica>) {
    |calls| == |before| > 0 && calls[0].arrives && before[0].log.None?
  }

  /** Every other replica had no log, was reached, and its reply has arrived. */
  predicate FanOutCreates(calls: seq<Call>, before: seq<Replica>)
    requires |calls| == |before|
  {
    forall i :: 1 <= i < |before| ==> calls[i].arrives && calls[i].replied && before[i].log.None?
  }

  function AfterCreate(calls: seq<Call>, before: seq<Replica>, op: string, bytes: Bytes): seq<Replica>
    requires |calls| == |before|
  {
    if PrimaryCreates(calls, before) then
      seq(|before|, i requires 0 <= i < |before| =>
        if i == 0 && !FanOutCreates(calls, before) then CreateOn(before[i], op, bytes).replica.(data := None)
        else if calls[i].arrives then CreateOn(before[i], op, bytes).replica
        else before[i])
    else before
  }

  /**
   * CallHyDFSWrite for a create: the primary creates the file, and fans out to the others. When one of
   * them fails, the primary removes its data file and keeps the log.
   */
  method CreateReplicated(replicas: seq<FileReplica>, calls: seq<Call>, op: string, bytes: Bytes) returns (acked: bool)
    requires |calls| == |replicas| && Ready(replicas)
    modifies replicas
    ensures States(replicas) == AfterCreate(calls, old(States(replicas)), op, bytes)
    ensures acked <==>
      && PrimaryCreates(calls, old(States(replicas)))
      && FanOutCreates(calls, old(States(replicas))) && calls[0].replied
    ensures States(replicas) == Serve(old(States(replicas)), CreateRequest(calls, op, bytes))
    ensures acked <==> Acknowledged(old(States(replicas)), CreateRequest(calls, op, bytes))
  {
    ghost var before := States(replicas);
    if replicas == [] || !calls[0].arrives {
      return false;
    }
    var primaryDone := replicas[0].CreateFile(op, bytes);
    if !primaryDone {
      assert States(replicas) == before;
      return false;
    }
    var count := 0;
    for i := 1 to |replicas|
      invariant count < i
      invariant count == i - 1 <==> forall k :: 1 <= k < i ==>
        calls[k].arrives && calls[k].replied && before[k].log.None?
      invariant replicas[0].State() == CreateOn(before[0], op, bytes).replica
      invariant forall k :: 1 <= k < i ==>
        replicas[k].State() == if calls[k].arrives then CreateOn(before[k], op, bytes).replica else before[k]
      invariant forall k :: i <= k < |replicas| ==> replicas[k].State() == before[k] && !replicas[k].locked
    {
      if calls[i].arrives {
        var done := replicas[i].CreateFile(op, bytes);
        if done && calls[i].replied {
          count := count + 1;
        }
      }
    }
    if count != |replicas| - 1 {
      replicas[0].RemoveData();
      return false;
    }
    acked := calls[0].replied;
  }

  /** Of a name not in use, the primary ends up with a file that equals its log exactly when every call
      of the fan-out reached a replica without a log and was answered. */
  lemma {:induction false} CreateLeavesFileExactlyWhen(calls: seq<Call>, before: seq<Replica>, op: string, bytes: Bytes)
    requires |calls| == |before| > 0 && calls[0].arrives && Missing(before[0])
    ensures FileEqualsLog(AfterCreate(calls, before, op, bytes)[0]) <==>
      forall i :: 1 <= i < |before| ==> calls[i].arrives && calls[i].replied && before[i].log.None?
  {
    CreateKeepsFileEqualsLog(before[0], op, bytes);
  }

  // ---------------------------------------------------------------- after a failed create

  datatype Request =
    | CreateRequest(calls: seq<Call>, op: string, bytes: Bytes)
    | AppendRequest(calls: seq<Call>, op: string, bytes: Bytes)

  function Serve(replicas: seq<Replica>, r: Request): seq<Replica> {
    if |r.calls| != |replicas| then replicas
    else match r
      case CreateRequest(calls, op, bytes) => AfterCreate(calls, replicas, op, bytes)
      case AppendRequest(calls, op, bytes) => AfterWrite(calls, replicas, op, bytes)
  }

  function ServeAll(replicas: seq<Replica>, requests: seq<Request>): seq<Replica> {
    if requests == [] then replicas
    else Serve(ServeAll(replicas, requests[..|requests| - 1]), requests[|requests| - 1])
  }

  /** The client of a request is told that it succeeded. */
  predicate Acknowledged(replicas: seq<Replica>, r: Request) {
    |r.calls| == |replicas| > 0 &&
    match r
    case CreateRequest(calls, _, _) =>
      PrimaryCreates(calls, replicas) && FanOutCreates(calls, replicas) && calls[0].replied
    case AppendRequest(calls, op, bytes) => AllDone(calls, replicas, op, bytes)
  }

  /** A failed create leaves the primary with a log and no data. From then on, over any series of creates and
      appends, the primary's copy stays without data and no client's request succeeds. */
  lemma {:induction false} FailedCreateBlocksName(
      replicas: seq<Replica>, r: Request, requests: seq<Request>, next: Request)
    requires r.CreateRequest? && |r.calls| == |replicas| && PrimaryCreates(r.calls, replicas)
    requires !FanOutCreates(r.calls, replicas)
    ensures var left := ServeAll(Serve(replicas, r), requests);
      && |left| == |replicas| && left[0].log.Some? && left[0].data.None?
      && !Acknowledged(left, next)
  {
    if requests != [] {
      FailedCreateBlocksName(replicas, r, requests[..|requests| - 1], next);
    }
  }

  /** A merge ends that: its reconcile writes the data file again. */
  lemma {:induction false} MergeRestoresFile<H>(left: Replica, log: seq<LogEntry>, hash: Bytes -> H)
    requires left.data.None?
    ensures FileEqualsLog(ReconcileOn(left, Concat(log), log, hash))
  {
  }
}
