/**
 * The membership table of one node. Entries are kept under their node's ID; the class
 * MemberList changes them as the node's message handler, its timers and its probes do, and
 * each of its methods is proved equal to a function on tables. Clocks appear only as the
 * set of members whose last update is too long ago.
 */
module Membership {
  import opened Sequences
  import opened RoundRobin

  type Id = string

  datatype Status = Alive | Suspected | Leave | Failed

  datatype Entry = Entry(incarnation: int, status: Status, heartbeat: int)

  datatype Record = Record(id: Id, entry: Entry)

  type Table = map<Id, Entry>

  // ---------------------------------------------------------------- what a record does to an entry

  /** A record about a member that is in the table. */
  function Update(e: Entry, r: Entry): Entry {
    if r.incarnation > e.incarnation then r
    else if e.status == Failed then e
    else if r.status == Failed || r.status == Leave then e.(status := Failed)
    else if r.incarnation == e.incarnation && e.status == Alive then
      if r.status == Alive && r.heartbeat > e.heartbeat then e.(heartbeat := r.heartbeat)
      else if r.status == Suspected then e.(status := Suspected)
      else e
    else e
  }

  /** A record about a member that may be missing. */
  function Absorb(e: Option<Entry>, r: Entry): Option<Entry> {
    match e
    case Some(known) => Some(Update(known, r))
    case None => if r.status != Failed then Some(r) else None
  }

  function AbsorbAll(e: Option<Entry>, records: seq<Entry>): Option<Entry>
    decreases |records|
  {
    if records == [] then e else AbsorbAll(Absorb(e, records[0]), records[1..])
  }

  /** A record about the node itself: a suspicion of a living node is refuted. */
  function Refute(own: Entry, r: Entry): Entry {
    if r.status == Suspected && own.status == Alive && r.incarnation >= own.incarnation
    then own.(incarnation := own.incarnation + 1) else own
  }

  /** Taking in a message; a record about the node itself ends it when its own entry is missing. */
  function Receive(t: Table, records: seq<Record>, self: Id): Table
    decreases |records|
  {
    if records == [] then t
    else
      var r := records[0];
      if r.id == self then
        if self in t then Receive(t[self := Refute(t[self], r.entry)], records[1..], self) else t
      else Receive(AbsorbIn(t, r), records[1..], self)
  }

  function AbsorbIn(t: Table, r: Record): Table {
    match Absorb(Lookup(t, r.id), r.entry)
    case Some(e) => t[r.id := e]
    case None => t
  }

  function Lookup(t: Table, id: Id): Option<Entry> {
    if id in t then Some(t[id]) else None
  }

  // ---------------------------------------------------------------- forward movement

  function Rank(s: Status): nat {
    match s
    case Alive => 0
    case Suspected => 1
    case Leave => 2
    case Failed => 3
  }

  /** b is a or later news than a: by incarnation, then status, then heartbeat. */
  predicate Ahead(a: Entry, b: Entry) {
    || a.incarnation < b.incarnation
    || (a.incarnation == b.incarnation &&
        (Rank(a.status) < Rank(b.status) || (a.status == b.status && a.heartbeat <= b.heartbeat)))
  }

  lemma {:induction false} AheadTransitive(a: Entry, b: Entry, c: Entry)
    requires Ahead(a, b) && Ahead(b, c)
    ensures Ahead(a, c)
  {
  }

  /** What may become of the entries of other members: none goes back, and only failed ones go away. */
  ghost predicate Forward(t: Table, t': Table, self: Id) {
    forall id :: id in t && id != self ==>
      if id in t' then Ahead(t[id], t'[id]) else t[id].status == Failed
  }

  lemma {:induction false} ReceiveMovesForward(t: Table, records: seq<Record>, self: Id)
    ensures Forward(t, Receive(t, records, self), self)
    ensures t.Keys <= Receive(t, records, self).Keys
    decreases |records|
  {
    if records != [] {
      var r := records[0];
      if r.id == self {
        if self in t {
          ReceiveMovesForward(t[self := Refute(t[self], r.entry)], records[1..], self);
        }
      } else {
        ReceiveMovesForward(AbsorbIn(t, r), records[1..], self);
      }
    }
  }

  // ---------------------------------------------------------------- members are independent

  /** The records about one member, in order. */
  function About(records: seq<Record>, id: Id): seq<Entry> {
    if records == [] then []
    else (if records[0].id == id then [records[0].entry] else []) + About(records[1..], id)
  }

  lemma {:induction false} AboutMember(records: seq<Record>, id: Id, e: Entry)
    ensures e in About(records, id) <==> Record(id, e) in records
  {
    if records != [] {
      AboutMember(records[1..], id, e);
      assert records == [records[0]] + records[1..];
    }
  }

  /** What a message does to the entry of another member depends on that entry and on the records
      about it alone. */
  lemma {:induction false} ReceiveByMember(t: Table, records: seq<Record>, self: Id, id: Id)
    requires id != self && self in t
    ensures Lookup(Receive(t, records, self), id) == AbsorbAll(Lookup(t, id), About(records, id))
    decreases |records|
  {
    if records != [] {
      var r := records[0];
      if r.id == self {
        ReceiveByMember(t[self := Refute(t[self], r.entry)], records[1..], self, id);
        assert About(records, id) == About(records[1..], id);
      } else {
        ReceiveByMember(AbsorbIn(t, r), records[1..], self, id);
        assert About(records, id) == (if r.id == id then [r.entry] else []) + About(records[1..], id);
        if r.id == id {
          assert About(records, id)[1..] == About(records[1..], id);
          assert About(records, id)[0] == r.entry;
        } else {
          assert About(records, id) == About(records[1..], id);
        }
      }
    }
  }

  // ---------------------------------------------------------------- members that are not in the table

  /** Record k is the first that is not a failure. */
  predicate FirstLiving(records: seq<Entry>, k: nat) {
    k < |records| && records[k].status != Failed && forall i :: 0 <= i < k ==> records[i].status == Failed
  }

  /** What records do to a missing entry: failures do nothing, and the first other record is taken as it is. */
  lemma {:induction false} AbsorbMissing(records: seq<Entry>)
    ensures AbsorbAll(None, records).Some? <==> exists r :: r in records && r.status != Failed
    ensures forall k: nat :: FirstLiving(records, k) ==>
      AbsorbAll(None, records) == AbsorbAll(Some(records[k]), records[k + 1..])
    decreases |records|
  {
    if records != [] {
      var rest := records[1..];
      assert records == [records[0]] + rest;
      if records[0].status == Failed {
        AbsorbMissing(rest);
        forall k: nat | FirstLiving(records, k)
          ensures AbsorbAll(None, records) == AbsorbAll(Some(records[k]), records[k + 1..])
        {
          assert rest[k - 1] == records[k] && rest[k..] == records[k + 1..];
          assert FirstLiving(rest, k - 1);
        }
      } else {
        StaysInTable(records[0], rest);
      }
    }
  }

  lemma {:induction false} StaysInTable(e: Entry, records: seq<Entry>)
    ensures AbsorbAll(Some(e), records).Some?
    decreases |records|
  {
    if records != [] {
      StaysInTable(Update(e, records[0]), records[1..]);
    }
  }

  /** A member that is not in the table is there after a message exactly when the message has a record about it
      that is not a failure; the entry of a single such record is stored as it is. */
  lemma {:induction false} UnknownAddedExactlyWhen(t: Table, records: seq<Record>, self: Id, id: Id)
    requires self in t && id != self && id !in t
    ensures var t' := Receive(t, records, self);
      && (id in t' <==> exists r :: r in records && r.id == id && r.entry.status != Failed)
      && (|About(records, id)| == 1 && id in t' ==> t'[id] == About(records, id)[0])
  {
    ReceiveByMember(t, records, self, id);
    var about := About(records, id);
    AbsorbMissing(about);
    assert (exists r :: r in about && r.status != Failed) <==>
      exists r :: r in records && r.id == id && r.entry.status != Failed by {
      if e :| e in about && e.status != Failed {
        AboutMember(records, id, e);
        assert Record(id, e).id == id;
      }
      if r :| r in records && r.id == id && r.entry.status != Failed {
        AboutMember(records, id, r.entry);
        assert r == Record(id, r.entry);
      }
    }
    if |about| == 1 && id in Receive(t, records, self) {
      assert about[0].status != Failed;
      assert about[1..] == [];
    }
  }

  /** The records before the first one about the node itself. */
  function BeforeSelf(records: seq<Record>, self: Id): seq<Record> {
    if records == [] || records[0].id == self then [] else [records[0]] + BeforeSelf(records[1..], self)
  }

  /** A node that has dropped its own entry stops at the first record about itself. */
  lemma {:induction false} ReceiveWithoutSelf(t: Table, records: seq<Record>, self: Id, id: Id)
    requires id != self && self !in t
    ensures Lookup(Receive(t, records, self), id) == AbsorbAll(Lookup(t, id), About(BeforeSelf(records, self), id))
    ensures self !in Receive(t, records, self)
    decreases |records|
  {
    if records != [] && records[0].id != self {
      var r, rest := records[0], BeforeSelf(records[1..], self);
      ReceiveWithoutSelf(AbsorbIn(t, r), records[1..], self, id);
      assert ([r] + rest)[1..] == rest && ([r] + rest)[0] == r;
      assert About([r] + rest, id) == (if r.id == id then [r.entry] else []) + About(rest, id);
      if r.id == id {
        assert About([r] + rest, id)[1..] == About(rest, id) && About([r] + rest, id)[0] == r.entry;
      } else {
        assert About([r] + rest, id) == About(rest, id);
      }
    }
  }

  /** A record of a newer incarnation replaces the entry, whatever it was. */
  lemma {:induction false} NewerReplaces(t: Table, r: Record, self: Id)
    requires self != r.id && r.id in t && r.entry.incarnation > t[r.id].incarnation
    ensures Receive(t, [r], self) == t[r.id := r.entry]
  {
    assert [r][1..] == [];
  }

  /** How many suspicions of the member a message carries. */
  function Suspicions(records: seq<Record>, id: Id): nat {
    if records == [] then 0
    else Suspicions(records[1..], id) + if records[0].id == id && records[0].entry.status == Suspected then 1 else 0
  }

  /** Whatever a message says about the node itself, it only raises the incarnation, by one for a suspicion
      at most. */
  lemma {:induction false} OwnEntryOutcome(t: Table, records: seq<Record>, self: Id)
    ensures var t' := Receive(t, records, self);
      && (self in t' <==> self in t)
      && (self in t ==>
            && t'[self].status == t[self].status && t'[self].heartbeat == t[self].heartbeat
            && t[self].incarnation <= t'[self].incarnation <= t[self].incarnation + Suspicions(records, self)
            && (t[self].status != Alive ==> t'[self] == t[self]))
    decreases |records|
  {
    if records != [] {
      var r := records[0];
      if r.id != self {
        OwnEntryOutcome(AbsorbIn(t, r), records[1..], self);
      } else if self in t {
        OwnEntryOutcome(t[self := Refute(t[self], r.entry)], records[1..], self);
      }
    }
  }

  // ---------------------------------------------------------------- order independence

  predicate Fatal(r: Entry) {
    r.status == Failed || r.status == Leave
  }

  /** The outcome of records of no higher incarnation, said without their order. */
  ghost predicate Outcome(e: Entry, records: seq<Entry>, f: Entry) {
    var fatal := exists r :: r in records && Fatal(r);
    var suspicion := exists r :: r in records && r.incarnation == e.incarnation && r.status == Suspected;
    && f.incarnation == e.incarnation
    && (f.status == Failed <==> e.status == Failed || fatal)
    && (f.status == Leave <==> e.status == Leave && !fatal)
    && (f.status == Suspected <==> !fatal && (e.status == Suspected || (e.status == Alive && suspicion)))
    && (f.status == Alive ==>
          && e.heartbeat <= f.heartbeat
          && (forall r :: r in records && r.incarnation == e.incarnation && r.status == Alive ==>
            r.heartbeat <= f.heartbeat)
          && (f.heartbeat == e.heartbeat ||
              exists r :: r in records && r.incarnation == e.incarnation && r.status == Alive
                          && r.heartbeat == f.heartbeat))
  }

  /** Records of no higher incarnation have that outcome. */
  lemma {:induction false} AbsorbAllOutcome(e: Entry, records: seq<Entry>)
    requires forall r :: r in records ==> r.incarnation <= e.incarnation
    ensures AbsorbAll(Some(e), records).Some? && Outcome(e, records, AbsorbAll(Some(e), records).value)
    decreases |records|
  {
    if records != [] {
      var next := Update(e, records[0]);
      assert records == [records[0]] + records[1..];
      AbsorbAllOutcome(next, records[1..]);
      OutcomeCons(e, records[0], records[1..], AbsorbAll(Some(e), records).value);
    }
  }

  lemma {:induction false} OutcomeCons(e: Entry, r: Entry, rest: seq<Entry>, f: Entry)
    requires r.incarnation <= e.incarnation && Outcome(Update(e, r), rest, f)
    ensures Outcome(e, [r] + rest, f)
  {
    var records := [r] + rest;
    assert r in records;
    assert forall x :: x in records <==> x == r || x in rest;
  }

  lemma {:induction false} OutcomeUnique(e: Entry, records: seq<Entry>, records': seq<Entry>, f: Entry, f': Entry)
    requires (forall r :: r in records <==> r in records')
    requires Outcome(e, records, f) && Outcome(e, records', f')
    ensures f.incarnation == f'.incarnation && f.status == f'.status && (f.status == Alive ==> f == f')
  {
  }

  /** Two messages with the same records, in any order and any number of times, leave another
      member's entry in the same status, and with the same heartbeat when it is alive; provided
      none of them is of a higher incarnation than the entry. */
  lemma {:induction false} OrderDoesNotMatter(t: Table, records: seq<Record>, records': seq<Record>, self: Id, id: Id)
    requires self in t && id in t && id != self
    requires forall r :: r in records <==> r in records'
    requires forall r :: r in records && r.id == id ==> r.entry.incarnation <= t[id].incarnation
    ensures var after, after' := Receive(t, records, self), Receive(t, records', self);
      && id in after && id in after'
      && after[id].incarnation == after'[id].incarnation == t[id].incarnation
      && after[id].status == after'[id].status
      && (after[id].status == Alive ==> after[id] == after'[id])
  {
    ReceiveByMember(t, records, self, id);
    ReceiveByMember(t, records', self, id);
    forall e ensures e in About(records, id) <==> e in About(records', id) {
      AboutMember(records, id, e);
      AboutMember(records', id, e);
    }
    forall e | e in About(records, id) ensures e.incarnation <= t[id].incarnation {
      AboutMember(records, id, e);
    }
    AbsorbAllOutcome(t[id], About(records, id));
    AbsorbAllOutcome(t[id], About(records', id));
    OutcomeUnique(t[id], About(records, id), About(records', id),
      AbsorbAll(Some(t[id]), About(records, id)).value, AbsorbAll(Some(t[id]), About(records', id)).value);
  }

  /** When two records reach the same status in both orders. */
  predicate StatusCommutes(e: Entry, a: Entry, b: Entry) {
    if a.incarnation <= e.incarnation && b.incarnation <= e.incarnation then true
    else if a.incarnation == b.incarnation then (a.status == Leave || b.status == Leave) ==> (Fatal(a) && Fatal(b))
    else if a.incarnation > b.incarnation then a.status == Failed || !Fatal(b)
    else b.status == Failed || !Fatal(a)
  }

  /** Across incarnations the order matters, exactly when a record that a later incarnation
      overtakes is fatal, or one of two new records is a departure. */
  lemma {:induction false} OrderMattersExactlyWhen(e: Entry, a: Entry, b: Entry)
    ensures Update(Update(e, a), b).status == Update(Update(e, b), a).status <==> StatusCommutes(e, a, b)
    ensures StatusCommutes(e, a, b) && Update(Update(e, a), b).status == Alive ==>
      Update(Update(e, a), b) == Update(Update(e, b), a)
  {
  }

  /** An old failure that arrives after the refutation kills the entry; before it, it does not. */
  lemma {:induction false} OldFailureAfterRefutation(i: int, h: int)
    ensures var e, refuted, failed := Entry(i, Suspected, h), Entry(i + 1, Alive, h), Entry(i, Failed, h);
      && AbsorbAll(Some(e), [refuted, failed]) == Some(Entry(i + 1, Failed, h))
      && AbsorbAll(Some(e), [failed, refuted]) == Some(refuted)
  {
    var e, refuted, failed := Entry(i, Suspected, h), Entry(i + 1, Alive, h), Entry(i, Failed, h);
    assert [refuted, failed][1..] == [failed] && [failed, refuted][1..] == [refuted];
    assert AbsorbAll(Some(Update(e, refuted)), [failed]) == AbsorbAll(Some(Update(Update(e, refuted), failed)), []);
    assert AbsorbAll(Some(Update(e, failed)), [refuted]) == AbsorbAll(Some(Update(Update(e, failed), refuted)), []);
  }

  // ---------------------------------------------------------------- the timers

  /** One entry at a check of the timers. */
  function TimeOut(e: Entry, gossip: bool, suspicion: bool, expired: bool): Entry {
    if !expired then e
    else if e.status == Alive && gossip then e.(status := if suspicion then Suspected else Failed)
    else if e.status == Suspected && suspicion then e.(status := Failed)
    else e
  }

  function Checked(t: Table, gossip: bool, suspicion: bool, expired: set<Id>): (r: Table)
    ensures r.Keys == t.Keys
  {
    map id | id in t :: TimeOut(t[id], gossip, suspicion, id in expired)
  }

  /** The failed entries whose time is up. */
  function Expired(t: Table, expired: set<Id>): set<Id> {
    set id | id in t && t[id].status == Failed && id in expired
  }

  function TimeOutAll(t: Table, gossip: bool, suspicion: bool, expired: set<Id>): Table {
    Checked(t, gossip, suspicion, expired) - Expired(t, expired)
  }

  lemma {:induction false} TimeOutMovesForward(t: Table, gossip: bool, suspicion: bool, expired: set<Id>, self: Id)
    ensures Forward(t, TimeOutAll(t, gossip, suspicion, expired), self)
    ensures forall id :: id in t && id !in TimeOutAll(t, gossip, suspicion, expired) ==>
      t[id].status == Failed && id in expired
  {
  }

  /** What a check of the timers makes of an entry that stays. Only an expired one changes, and only its status:
      under gossip a live one becomes suspected, or failed without suspicion; with suspicion a
      suspected one fails. */
  predicate EntryTimedOut(e: Entry, e': Entry, gossip: bool, suspicion: bool, expired: bool) {
    && e'.incarnation == e.incarnation && e'.heartbeat == e.heartbeat
    && (!expired || e.status == Leave || e.status == Failed ==> e' == e)
    && (e.status == Alive && expired ==>
          e'.status == if !gossip then Alive else if suspicion then Suspected else Failed)
    && (e.status == Suspected && expired ==> e'.status == if suspicion then Failed else Suspected)
  }

  /** Expired failed members go away, and no others. */
  ghost predicate TimedOut(t: Table, t': Table, gossip: bool, suspicion: bool, expired: set<Id>) {
    && (forall id :: id in t' <==> id in t && !(t[id].status == Failed && id in expired))
    && (forall id :: id in t' && id in t ==> EntryTimedOut(t[id], t'[id], gossip, suspicion, id in expired))
  }

  lemma {:induction false} TimeOutOutcome(t: Table, gossip: bool, suspicion: bool, expired: set<Id>)
    ensures TimedOut(t, TimeOutAll(t, gossip, suspicion, expired), gossip, suspicion, expired)
  {
  }

  /** With suspicion nobody fails who was not suspected before, and suspicion is all that gossip adds. */
  lemma {:induction false} SuspectedBeforeFailed(t: Table, t': Table, gossip: bool, expired: set<Id>)
    requires TimedOut(t, t', gossip, true, expired)
    ensures forall id :: id in t' ==>
      && (t'[id].status == Failed && t[id].status != Failed <==> t[id].status == Suspected && id in expired)
      && (t'[id].status == Suspected && t[id].status != Suspected <==>
            gossip && t[id].status == Alive && id in expired)
  {
  }

  /** The members among `ids` that have failed since `before`, each once. */
  ghost predicate NewlyFailed(failed: seq<Record>, before: Table, after: Table, ids: set<Id>) {
    && Distinct(failed)
    && forall r :: r in failed <==>
         && r.id in ids && r.id in before && r.id in after && r.entry == after[r.id]
         && r.entry.status == Failed && before[r.id].status != Failed
  }

  lemma {:induction false} NewlyFailedNext(
      failed: seq<Record>, before: Table, after: Table, ids: set<Id>, id: Id, news: seq<Record>)
    requires id in before && id in after && id !in ids
    requires NewlyFailed(failed, before, after, ids)
    requires news == if after[id].status == Failed && before[id].status != Failed then [Record(id, after[id])] else []
    ensures NewlyFailed(failed + news, before, after, ids + {id})
  {
  }

  lemma {:induction false} NewlyFailedKept(failed: seq<Record>, before: Table, after: Table, kept: Table)
    requires before.Keys == after.Keys && NewlyFailed(failed, before, after, before.Keys)
    requires kept.Keys <= before.Keys && forall id :: id in kept ==> kept[id] == after[id]
    requires forall id :: id in before && id !in kept ==> before[id].status == Failed
    ensures NewlyFailed(failed, before, kept, kept.Keys)
  {
  }

  /** The timers have been checked for the members `done`. */
  ghost predicate Checking(before: Table, after: Table, expired: set<Id>, t: Table, deleted: set<Id>, done: set<Id>) {
    && before.Keys == after.Keys == t.Keys && done <= before.Keys
    && (forall id :: id in before ==> t[id] == if id in done then after[id] else before[id])
    && (forall id :: id in deleted <==> id in done && id in expired)
  }

  lemma {:induction false} CheckingNext(
    before: Table, after: Table, expired: set<Id>, t: Table, deleted: set<Id>, done: set<Id>, id: Id, remove: bool)
    requires Checking(before, after, expired, t, deleted, done) && id in before && id !in done
    requires (remove <==> id in expired)
    ensures var deleted' := if remove then deleted + {id} else deleted;
      Checking(before, after, expired, t[id := after[id]], deleted', done + {id})
    ensures id !in deleted && t[id] == before[id]
  {
  }

  lemma {:induction false} CheckingDone(
      before: Table, after: Table, expired: set<Id>, t: Table, deleted: set<Id>, done: set<Id>)
    requires Checking(before, after, expired, t, deleted, done) && done == before.Keys && expired <= before.Keys
    ensures t == after && deleted == expired
  {
  }

  function ChangeStatus(t: Table, id: Id, before: Status, after: Status): Table {
    if id in t && t[id].status == before then t[id := t[id].(status := after)] else t
  }

  function Beat(t: Table, id: Id): Table {
    if id in t then t[id := t[id].(heartbeat := t[id].heartbeat + 1)] else t
  }

  function LeaveGroup(t: Table, id: Id): Table {
    if id in t then t[id := t[id].(status := Leave)] else t
  }

  lemma {:induction false} PickOne<T>(picks: seq<T>, rest: seq<T>)
    requires rest != []
    ensures picks + [rest[0]] + rest[1..] == picks + rest
  {
  }

  /** The peers a node may probe or gossip to. */
  function Eligible(t: Table, self: Id): set<Id> {
    set id | id in t && id != self && t[id].status != Failed
  }

  /** Whoever is alive, suspected or departed is still probed and told; whoever has failed is not. */
  lemma {:induction false} ProbedExactlyWhen(t: Table, self: Id, list: seq<Id>, id: Id)
    requires Shuffle(list, Eligible(t, self))
    ensures id in list <==>
      id in t && id != self && (t[id].status == Alive || t[id].status == Suspected || t[id].status == Leave)
  {
    assert id in list <==> id in Eligible(t, self);
  }

  // ---------------------------------------------------------------- the table as the node changes it

  class MemberList {
    var members: map<Id, Entry>
    var roundRobinIndex: nat
    var roundRobinList: seq<Id>
    var deleteNumber: nat

    constructor ()
      ensures members == map[] && deleteNumber == 0 && roundRobinList == [] && roundRobinIndex == 0
    {
      members, deleteNumber := map[], 0;
      roundRobinIndex, roundRobinList := 0, [];
    }

    method UpdateMemberlist(records: seq<Record>, self: Id)
      modifies this`members
      ensures members == Receive(old(members), records, self)
      ensures self in old(members) ==> forall id :: id != self && id !in old(members) ==>
        (id in members <==> exists r :: r in records && r.id == id && r.entry.status != Failed)
    {
      ghost var before := members;
      for i := 0 to |records|
        invariant Receive(members, records[i..], self) == Receive(old(members), records, self)
        invariant self in before ==> self in members
      {
        var next := records[i];
        ghost var was := members;
        assert records[i..][1..] == records[i + 1..];
        if next.id == self {
          if self !in members {
            return;
          }
          var own := members[self];
          if next.entry.status == Suspected && own.status == Alive {
            if next.entry.incarnation >= own.incarnation {
              members := members[self := own.(incarnation := own.incarnation + 1)];
            }
          }
          assert members == was[self := Refute(was[self], next.entry)];
          continue;
        }
        UpdateOther(next);
      }
      if self in before {
        forall id | id != self && id !in before
          ensures id in members <==> exists r :: r in records && r.id == id && r.entry.status != Failed
        {
          UnknownAddedExactlyWhen(before, records, self, id);
        }
      }
    }

    method UpdateOther(next: Record)
      modifies this`members
      ensures members == AbsorbIn(old(members), next)
      ensures next.id !in old(members) ==>
        members == if next.entry.status == Failed then old(members) else old(members)[next.id := next.entry]
    {
      if next.id in members {
        var current := members[next.id];
        if next.entry.incarnation > current.incarnation {
          current := current.(incarnation := next.entry.incarnation);
          current := current.(status := next.entry.status);
          current := current.(heartbeat := next.entry.heartbeat);
        } else if current.status == Failed {
        } else if next.entry.status == Failed {
          current := current.(status := Failed);
        } else if next.entry.status == Leave {
          current := current.(status := Failed);
        } else if next.entry.incarnation == current.incarnation {
          if current.status == Alive {
            if next.entry.status == Alive && next.entry.heartbeat > current.heartbeat {
              current := current.(heartbeat := next.entry.heartbeat);
            } else if next.entry.status == Suspected {
              current := current.(status := Suspected);
            }
          }
        }
        members := members[next.id := current];
      } else {
        if next.entry.status != Failed {
          members := members[next.id := next.entry];
        }
      }
    }

    method ChangeState(id: Id, before: Status, after: Status) returns (changed: seq<Record>)
      modifies this`members
      ensures members == ChangeStatus(old(members), id, before, after)
      ensures changed ==
        if id in old(members) && old(members)[id].status == before then [Record(id, members[id])] else []
    {
      if id !in members || members[id].status != before {
        return [];
      }
      members := members[id := members[id].(status := after)];
      return [Record(id, members[id])];
    }

    /** Returns the members that have just failed, each once. */
    method TimeOutCheck(gossip: bool, suspicion: bool, expired: set<Id>) returns (failed: seq<Record>)
      modifies this`members, this`deleteNumber
      ensures members == TimeOutAll(old(members), gossip, suspicion, expired)
      ensures TimedOut(old(members), members, gossip, suspicion, expired)
      ensures members.Keys <= old(members).Keys && NewlyFailed(failed, old(members), members, members.Keys)
      ensures deleteNumber == old(deleteNumber) + |old(members).Keys - members.Keys|
    {
      ghost var was := members;
      var deleted;
      failed, deleted := CheckAll(gossip, suspicion, expired);
      ghost var checked := members;
      members := members - deleted;
      NewlyFailedKept(failed, was, checked, members);
      TimeOutOutcome(was, gossip, suspicion, expired);
      assert was.Keys - members.Keys == deleted;
    }

    method CheckAll(gossip: bool, suspicion: bool, expired: set<Id>) returns (failed: seq<Record>, deleted: set<Id>)
      modifies this`members, this`deleteNumber
      ensures members == Checked(old(members), gossip, suspicion, expired)
      ensures NewlyFailed(failed, old(members), members, members.Keys)
      ensures deleted == Expired(old(members), expired)
      ensures deleteNumber == old(deleteNumber) + |deleted|
    {
      failed, deleted := [], {};
      var rest, table, deleteCount := members.Keys, members, 0;
      ghost var was, end, done := members, Checked(members, gossip, suspicion, expired), {};
      while rest != {}
        invariant rest == was.Keys - done
        invariant Checking(was, end, Expired(was, expired), table, deleted, done)
        invariant deleteCount == |deleted| && deleteNumber == old(deleteNumber)
        invariant NewlyFailed(failed, was, end, done)
        decreases rest
      {
        var id := Pick(rest);
        var next, remove, news := CheckOne(id, table[id], gossip, suspicion, id in expired);
        NewlyFailedNext(failed, was, end, done, id, news);
        CheckingNext(was, end, Expired(was, expired), table, deleted, done, id, remove);
        table := table[id := next];
        failed := failed + news;
        if remove {
          deleted := deleted + {id};
          deleteCount := deleteCount + 1;
        }
        rest, done := rest - {id}, done + {id};
      }
      assert done == was.Keys;
      CheckingDone(was, end, Expired(was, expired), table, deleted, done);
      members, deleteNumber := table, deleteNumber + deleteCount;
    }

    static method CheckOne(id: Id, entry: Entry, gossip: bool, suspicion: bool, expired: bool)
      returns (e: Entry, remove: bool, news: seq<Record>)
      ensures e == TimeOut(entry, gossip, suspicion, expired)
      ensures EntryTimedOut(entry, e, gossip, suspicion, expired)
      ensures remove <==> entry.status == Failed && expired
      ensures news == if e.status == Failed && entry.status != Failed then [Record(id, e)] else []
    {
      e := entry;
      remove := e.status == Failed && expired;
      news := [];
      if e.status == Alive && gossip && expired {
        if suspicion {
          e := e.(status := Suspected);
        } else {
          e := e.(status := Failed);
          news := [Record(id, e)];
        }
      } else if e.status == Suspected && suspicion && expired {
        e := e.(status := Failed);
        news := [Record(id, e)];
      }
    }

    method AddHeartBeat(self: Id)
      modifies this`members
      ensures members == Beat(old(members), self)
    {
      if self in members {
        members := members[self := members[self].(heartbeat := members[self].heartbeat + 1)];
      }
    }

    method TurnLeave(self: Id)
      modifies this`members
      ensures members == LeaveGroup(old(members), self)
    {
      if self in members {
        members := members[self := members[self].(status := Leave)];
      }
    }

    /** A snapshot to be sent: every entry once. */
    method GetMemberList() returns (records: seq<Record>)
      ensures Distinct(records)
      ensures forall r :: r in records <==> r.id in members && members[r.id] == r.entry
    {
      records := [];
      var rest := members.Keys;
      while rest != {}
        invariant rest <= members.Keys && Distinct(records)
        invariant forall r :: r in records <==> r.id in members.Keys - rest && members[r.id] == r.entry
        decreases rest
      {
        var id := Pick(rest);
        rest := rest - {id};
        records := records + [Record(id, members[id])];
      }
    }

    // -------------------------------------------------------------- peers in turn

    ghost predicate ValidTurn()
      reads this
    {
      roundRobinIndex <= |roundRobinList|
    }

    /** What has not been handed out since the last shuffle. */
    ghost function Rest(): seq<Id>
      reads this
      requires ValidTurn()
    {
      roundRobinList[roundRobinIndex..]
    }

    /** The list is a shuffle of these peers, or used up. */
    ghost predicate TurnOf(peers: set<Id>)
      reads this
    {
      Shuffle(roundRobinList, peers) || roundRobinIndex >= |roundRobinList|
    }

    /** A new list of peers. The arbitrary order in which the table is walked stands for the shuffle. */
    method Permutation(self: Id)
      modifies this`roundRobinList, this`roundRobinIndex
      ensures Shuffle(roundRobinList, Eligible(members, self)) && roundRobinIndex == 0
    {
      var list: seq<Id> := [];
      var rest := members.Keys;
      while rest != {}
        invariant rest <= members.Keys
        invariant Shuffle(list, Eligible(members, self) - rest)
        decreases rest
      {
        var id := Pick(rest);
        if id != self && members[id].status != Failed {
          list := list + [id];
        }
        rest := rest - {id};
      }
      roundRobinList, roundRobinIndex := list, 0;
    }

    method RoundRobinK(num: nat, self: Id) returns (picks: seq<Id>)
      requires ValidTurn()
      modifies this`roundRobinList, this`roundRobinIndex
      ensures ValidTurn() && |picks| <= num
      ensures forall id :: id in picks ==> id in old(roundRobinList) || id in Eligible(members, self)
      ensures old(TurnOf(Eligible(members, self))) ==> Shuffle(roundRobinList, Eligible(members, self))
      ensures old(TurnOf(Eligible(members, self))) && num < |Eligible(members, self)| ==>
        |picks| == num && Turn(Eligible(members, self), old(Rest()), picks, Rest())
      ensures old(TurnOf(Eligible(members, self))) && num >= |Eligible(members, self)| ==>
        Shuffle(picks, Eligible(members, self))
    {
      ghost var peers, rest := Eligible(members, self), Rest();
      ghost var fixed := TurnOf(peers);
      if roundRobinIndex >= |roundRobinList| {
        Permutation(self);
      }
      assert Rest() == rest || rest + roundRobinList == Rest();
      if fixed {
        ShuffleLength(roundRobinList, peers);
      }
      if |roundRobinList| == 0 {
        return [];
      }
      if num >= |roundRobinList| {
        roundRobinIndex := |roundRobinList|;
        return roundRobinList;
      }
      picks := PickInTurn(num, self);
    }

    /** The loop of RoundRobinK, for fewer picks than the list has. */
    method PickInTurn(num: nat, self: Id) returns (picks: seq<Id>)
      requires ValidTurn() && num < |roundRobinList|
      modifies this`roundRobinList, this`roundRobinIndex
      ensures ValidTurn() && |picks| <= num
      ensures forall id :: id in picks ==> id in old(roundRobinList) || id in Eligible(members, self)
      ensures old(Shuffle(roundRobinList, Eligible(members, self))) ==>
        && Shuffle(roundRobinList, Eligible(members, self)) && |picks| == num
        && (picks + Rest() == old(Rest()) || picks + Rest() == old(Rest()) + roundRobinList)
    {
      ghost var peers, rest := Eligible(members, self), Rest();
      ghost var fixed := Shuffle(roundRobinList, peers);
      if fixed {
        ShuffleLength(roundRobinList, peers);
      }
      picks := [];
      for i := 0 to num
        invariant ValidTurn() && |picks| == i
        invariant forall id :: id in picks ==> id in old(roundRobinList) || id in peers
        invariant forall id :: id in roundRobinList ==> id in old(roundRobinList) || id in peers
        invariant fixed ==> Shuffle(roundRobinList, peers) && num < |roundRobinList| == |peers|
        invariant fixed ==> picks + Rest() == rest || (picks + Rest() == rest + roundRobinList && |rest| <= i)
      {
        if roundRobinIndex >= |roundRobinList| {
          assert Rest() == [];
          Permutation(self);
          assert Rest() == roundRobinList;
          if fixed {
            ShuffleLength(roundRobinList, peers);
          }
          if |roundRobinList| == 0 {
            break;
          }
        }
        PickOne(picks, Rest());
        picks := picks + [roundRobinList[roundRobinIndex]];
        roundRobinIndex := roundRobinIndex + 1;
      }
    }

    /** The picks of the probing and gossip rounds, while the peers stay the same: any 2n - 1 of them
        in a row include everyone. */
    method PickRepeatedly(nums: seq<nat>, self: Id) returns (picks: seq<seq<Id>>)
      requires ValidTurn() && roundRobinList == []
      requires forall k :: 0 <= k < |nums| ==> nums[k] < |Eligible(members, self)|
      modifies this`roundRobinList, this`roundRobinIndex
      ensures |picks| == |nums| && forall k :: 0 <= k < |nums| ==> |picks[k]| == nums[k]
      ensures Fair(Flatten(picks), Eligible(members, self))
    {
      ghost var peers, rests := Eligible(members, self), [[]];
      picks := [];
      for k := 0 to |nums|
        invariant ValidTurn() && TurnOf(peers)
        invariant |picks| == k && forall i :: 0 <= i < k ==> |picks[i]| == nums[i]
        invariant Calls(peers, rests, picks) && rests[k] == Rest()
      {
        var next := RoundRobinK(nums[k], self);
        picks := picks + [next];
        rests := rests + [Rest()];
      }
      CallsAreFair(peers, rests, picks);
    }
  }
}
