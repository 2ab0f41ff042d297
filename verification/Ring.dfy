/**
 * The hash ring: which nodes hold a file. Node IDs and file IDs are 32-bit hashes; the
 * replicas of a file are the nodes that follow its ID clockwise.
 */
module Ring {
  import opened Sequences

  const SIZE := 0x1_0000_0000
  const REPLICA_NUM := 3
  const RPC_PORT := "9082"

  type HashId = x: nat | x < 0x1_0000_0000

  datatype NodeInfo = NodeInfo(id: HashId, address: string)

  datatype Member = Member(id: string, address: string)

  // ---------------------------------------------------------------- nearest nodes

  /** Clockwise distance from a file to a node. */
  function Distance(file: HashId, n: NodeInfo): (d: nat)
    ensures d < SIZE
  {
    if n.id >= file then n.id - file else n.id - file + SIZE
  }

  ghost predicate DistinctIds(nodes: set<NodeInfo>) {
    forall x, y :: x in nodes && y in nodes && x.id == y.id ==> x == y
  }

  function Nodes(ring: seq<NodeInfo>): set<NodeInfo> {
    set n | n in ring
  }

  /** In order of distance from the file. */
  ghost predicate ByDistance(file: HashId, r: seq<NodeInfo>) {
    forall i, j :: 0 <= i < j < |r| ==> Distance(file, r[i]) < Distance(file, r[j])
  }

  /** r lists `num` of the nodes, nearest first, and all others are further away. */
  ghost predicate Nearest(file: HashId, nodes: set<NodeInfo>, num: nat, r: seq<NodeInfo>) {
    && |r| == num && Nodes(r) <= nodes && ByDistance(file, r)
    && forall n, i :: n in nodes && n !in r && 0 <= i < |r| ==> Distance(file, r[i]) < Distance(file, n)
  }

  lemma {:induction false} DistanceInjective(file: HashId, nodes: set<NodeInfo>, x: NodeInfo, y: NodeInfo)
    requires DistinctIds(nodes) && x in nodes && y in nodes && Distance(file, x) == Distance(file, y)
    ensures x == y
  {
  }

  /** A shorter list of nearest nodes is a prefix of a longer one. */
  lemma {:induction false} NearestPrefix(
      file: HashId, nodes: set<NodeInfo>, m: nat, n: nat, r: seq<NodeInfo>, s: seq<NodeInfo>)
    requires DistinctIds(nodes) && m <= n && Nearest(file, nodes, m, r) && Nearest(file, nodes, n, s)
    ensures r == s[..m]
  {
    if m > 0 {
      NearestShorter(file, nodes, m, r);
      NearestPrefix(file, nodes, m - 1, n, r[..m - 1], s);
      NthNearest(file, nodes, n, s, m - 1);
      NthNearest(file, nodes, m, r, m - 1);
      var x, y := r[m - 1], s[m - 1];
      assert x in r && y in s && x in Nodes(r) && y in Nodes(s);
      assert x !in s[..m - 1] && y !in r[..m - 1];
      DistanceInjective(file, nodes, x, y);
    }
  }

  lemma {:induction false} NearestShorter(file: HashId, nodes: set<NodeInfo>, m: nat, r: seq<NodeInfo>)
    requires m > 0 && Nearest(file, nodes, m, r)
    ensures Nearest(file, nodes, m - 1, r[..m - 1])
  {
  }

  /** The k-th of the nearest is the nearest of all but the first k. */
  lemma {:induction false} NthNearest(file: HashId, nodes: set<NodeInfo>, num: nat, r: seq<NodeInfo>, k: nat)
    requires Nearest(file, nodes, num, r) && k < num
    ensures r[k] !in r[..k]
    ensures forall n :: n in nodes && n !in r[..k] ==> Distance(file, r[k]) <= Distance(file, n)
  {
  }

  /** The nearest nodes are determined by the set of nodes. */
  lemma {:induction false} NearestUnique(
      file: HashId, nodes: set<NodeInfo>, num: nat, r: seq<NodeInfo>, s: seq<NodeInfo>)
    requires DistinctIds(nodes) && Nearest(file, nodes, num, r) && Nearest(file, nodes, num, s)
    ensures r == s
  {
    NearestPrefix(file, nodes, num, num, r, s);
    assert s[..num] == s;
  }

  // ---------------------------------------------------------------- nodes that come and go

  /** A node that was not chosen leaves: nothing changes. */
  lemma {:induction false} RemoveOutside(file: HashId, nodes: set<NodeInfo>, num: nat, r: seq<NodeInfo>, x: NodeInfo)
    requires Nearest(file, nodes, num, r) && x !in r
    ensures Nearest(file, nodes - {x}, num, r)
  {
  }

  /** A chosen node leaves: the others stay in order and one node that was not chosen is added at
      the end. */
  lemma {:induction false} RemoveInside(
    file: HashId, nodes: set<NodeInfo>, num: nat, r: seq<NodeInfo>, k: nat, s: seq<NodeInfo>)
    requires DistinctIds(nodes) && k < num
    requires Nearest(file, nodes, num, r) && Nearest(file, nodes - {r[k]}, num, s)
    ensures s[..num - 1] == Remove(r, k) && s[num - 1] !in r
  {
    var x, rest := r[k], Remove(r, k);
    RemovedIsNearest(file, nodes, num, r, k);
    NearestPrefix(file, nodes - {x}, num - 1, num, rest, s);
    NthNearest(file, nodes - {x}, num, s, num - 1);
    assert s[num - 1] in Nodes(s);
    assert s[num - 1] !in rest && s[num - 1] != x;
    RemoveMembers(file, r, k);
  }

  lemma {:induction false} RemovedIsNearest(file: HashId, nodes: set<NodeInfo>, num: nat, r: seq<NodeInfo>, k: nat)
    requires Nearest(file, nodes, num, r) && k < num
    ensures Nearest(file, nodes - {r[k]}, num - 1, Remove(r, k))
  {
    RemoveMembers(file, r, k);
    assert ByDistance(file, Remove(r, k)) by {
      assert forall i :: 0 <= i < |r| - 1 ==> Remove(r, k)[i] == r[if i < k then i else i + 1];
    }
  }

  lemma {:induction false} RemoveMembers(file: HashId, r: seq<NodeInfo>, k: nat)
    requires k < |r| && ByDistance(file, r)
    ensures Nodes(Remove(r, k)) == Nodes(r) - {r[k]}
  {
  }

  /** A node joins: either nothing changes, or it takes its place and the last of the old ones goes. */
  lemma {:induction false} AddOne(
      file: HashId, nodes: set<NodeInfo>, num: nat, r: seq<NodeInfo>, x: NodeInfo, s: seq<NodeInfo>)
    requires DistinctIds(nodes + {x}) && x !in nodes && num > 0
    requires Nearest(file, nodes, num, r) && Nearest(file, nodes + {x}, num, s)
    ensures s == r || exists k :: 0 <= k < num && s[k] == x && Remove(s, k) == r[..num - 1]
  {
    assert nodes + {x} - {x} == nodes;
    if x in s {
      var k :| 0 <= k < num && s[k] == x;
      RemoveInside(file, nodes + {x}, num, s, k, r);
    } else {
      RemoveOutside(file, nodes + {x}, num, s, x);
      NearestUnique(file, nodes, num, r, s);
    }
  }

  // ---------------------------------------------------------------- the successors on a sorted ring

  ghost predicate SortedRing(ring: seq<NodeInfo>) {
    forall i, j :: 0 <= i < j < |ring| ==> ring[i].id <= ring[j].id
  }

  ghost predicate IdsDiffer(ring: seq<NodeInfo>) {
    forall i, j :: 0 <= i < j < |ring| ==> ring[i].id != ring[j].id
  }

  /** The place of the first node whose ID is not below the file's. */
  function FirstAtLeast(file: HashId, ring: seq<NodeInfo>): (i: nat)
    ensures i <= |ring| && (i < |ring| ==> ring[i].id >= file)
    ensures forall j :: 0 <= j < i ==> ring[j].id < file
  {
    if ring == [] || ring[0].id >= file then 0 else 1 + FirstAtLeast(file, ring[1..])
  }

  /** Where the walk starts: there, or at the front. */
  function Start(file: HashId, ring: seq<NodeInfo>): (i: nat)
    ensures ring != [] ==> i < |ring|
  {
    if FirstAtLeast(file, ring) < |ring| then FirstAtLeast(file, ring) else 0
  }

  function Successors(file: HashId, ring: seq<NodeInfo>, num: nat): (r: seq<NodeInfo>)
    requires ring != []
    ensures |r| == num
  {
    seq(num, i requires 0 <= i < num => ring[(Start(file, ring) + i) % |ring|])
  }

  /** On a sorted ring the walk meets the nodes in order of distance. */
  lemma {:induction false} WalkDistance(file: HashId, ring: seq<NodeInfo>, i: nat, j: nat)
    requires SortedRing(ring) && IdsDiffer(ring) && i < j < |ring|
    ensures var s := Start(file, ring);
      Distance(file, ring[(s + i) % |ring|]) < Distance(file, ring[(s + j) % |ring|])
  {
    var s, n := Start(file, ring), |ring|;
    var a, b := (s + i) % n, (s + j) % n;
    WalkPlace(s, i, n);
    WalkPlace(s, j, n);
    assert ring[a] in Nodes(ring) && ring[b] in Nodes(ring);
    assert a < b ==> ring[a].id < ring[b].id;
    assert b < a ==> ring[b].id < ring[a].id;
    assert forall k :: 0 <= k < s ==> ring[k].id < file;
    if FirstAtLeast(file, ring) < n {
      assert forall k :: s <= k < n ==> ring[s].id <= ring[k].id;
    }
  }

  lemma {:induction false} WalkPlace(s: nat, i: nat, n: nat)
    requires s < n && i < n
    ensures (s + i) % n == if s + i < n then s + i else s + i - n
  {
  }

  lemma {:induction false} WalkReaches(file: HashId, ring: seq<NodeInfo>, x: NodeInfo)
    requires x in ring
    ensures x in Successors(file, ring, |ring|)
  {
    var s, n := Start(file, ring), |ring|;
    var k :| 0 <= k < n && ring[k] == x;
    var j := if k >= s then k - s else k - s + n;
    WalkPlace(s, j, n);
    assert Successors(file, ring, n)[j] == x;
  }

  /** Once around the ring. */
  lemma {:induction false} WalkAround(file: HashId, ring: seq<NodeInfo>)
    requires SortedRing(ring) && IdsDiffer(ring) && ring != []
    ensures ByDistance(file, Successors(file, ring, |ring|))
    ensures Nodes(Successors(file, ring, |ring|)) == Nodes(ring)
  {
    var walk := Successors(file, ring, |ring|);
    forall i, j | 0 <= i < j < |walk| ensures Distance(file, walk[i]) < Distance(file, walk[j]) {
      WalkDistance(file, ring, i, j);
    }
    forall x ensures x in walk <==> x in ring {
      if x in ring {
        WalkReaches(file, ring, x);
      }
    }
  }

  /** The successors are the nearest nodes, nearest first. */
  lemma {:induction false} SuccessorsAreNearest(file: HashId, ring: seq<NodeInfo>, num: nat)
    requires SortedRing(ring) && IdsDiffer(ring) && ring != [] && num <= |ring|
    ensures Nearest(file, Nodes(ring), num, Successors(file, ring, num))
  {
    WalkAround(file, ring);
    assert Successors(file, ring, num) == Successors(file, ring, |ring|)[..num];
    PrefixIsNearest(file, Successors(file, ring, |ring|), num);
  }

  lemma {:induction false} PrefixIsNearest(file: HashId, walk: seq<NodeInfo>, num: nat)
    requires ByDistance(file, walk) && num <= |walk|
    ensures Nearest(file, Nodes(walk), num, walk[..num])
  {
  }

  // ---------------------------------------------------------------- the operations

  /** strings.LastIndex for one character. */
  function LastIndexOf(s: string, c: char): (r: Option<nat>)
    ensures r.None? <==> c !in s
    ensures r.Some? ==> r.value < |s| && s[r.value] == c && forall k :: r.value < k < |s| ==> s[k] != c
  {
    if s == [] then None
    else if s[|s| - 1] == c then Some(|s| - 1)
    else LastIndexOf(s[..|s| - 1], c)
  }

  /** Gossip2RPCAddr: the same host with the RPC port, in brackets if the host has a colon. */
  function RpcAddress(gossip: string): Option<string> {
    match LastIndexOf(gossip, ':')
    case None => None
    case Some(i) =>
      var host := gossip[..i];
      Some((if ':' in host then "[" + host + "]" else host) + ":" + RPC_PORT)
  }

  /** Of "host:port" it is the host with the other port; only an address without a colon has none. */
  lemma {:induction false} RpcAddressOf(host: string, port: string)
    requires ':' !in port
    ensures RpcAddress(host + ":" + port) == Some((if ':' in host then "[" + host + "]" else host) + ":9082")
    ensures ':' !in host ==> RpcAddress(host) == None
  {
    var s := host + [':'] + port;
    assert ":" == [':'] && host + ":" + port == s;
    assert s[|host|] == ':';
    var i := LastIndexOf(s, ':').value;
    assert i <= |host| by {
      assert forall k :: |host| < k < |s| ==> s[k] in port;
    }
    assert s[..|host|] == host;
    assert ":" + RPC_PORT == ":9082";
    var shown := if ':' in host then "[" + host + "]" else host;
    assert shown + ":" + RPC_PORT == shown + ":9082";
  }

  /** The ring entry of a member; none for the leader and for addresses without a port. */
  function RingNode(m: Member, leader: string, hash: string -> HashId): Option<NodeInfo> {
    match RpcAddress(m.address)
    case None => None
    case Some(address) => if address == leader then None else Some(NodeInfo(hash(m.id), address))
  }

  function RingNodes(members: seq<Member>, leader: string, hash: string -> HashId): set<NodeInfo> {
    set m | m in members && RingNode(m, leader, hash).Some? :: RingNode(m, leader, hash).value
  }

  /** Different members have different hashes. */
  ghost predicate HashesDiffer(members: seq<Member>, hash: string -> HashId) {
    forall i, j :: 0 <= i < j < |members| ==> hash(members[i].id) != hash(members[j].id)
  }

  lemma {:induction false} RingNodesSnoc(members: seq<Member>, m: Member, leader: string, hash: string -> HashId)
    ensures RingNodes(members + [m], leader, hash) ==
      RingNodes(members, leader, hash) + match RingNode(m, leader, hash) case None => {} case Some(n) => {n}
  {
  }

  lemma {:induction false} RingNodesDiffer(members: seq<Member>, leader: string, hash: string -> HashId)
    requires HashesDiffer(members, hash)
    ensures DistinctIds(RingNodes(members, leader, hash))
  {
  }

  method GetRingInfo(members: seq<Member>, leader: string, hash: string -> HashId) returns (nodes: seq<NodeInfo>)
    ensures Nodes(nodes) == RingNodes(members, leader, hash)
    ensures HashesDiffer(members, hash) ==> IdsDiffer(nodes)
  {
    nodes := [];
    for i := 0 to |members|
      invariant Nodes(nodes) == RingNodes(members[..i], leader, hash)
      invariant forall n :: n in nodes ==> exists k :: 0 <= k < i && hash(members[k].id) == n.id
      invariant HashesDiffer(members, hash) ==> IdsDiffer(nodes)
    {
      assert members[..i + 1] == members[..i] + [members[i]];
      RingNodesSnoc(members[..i], members[i], leader, hash);
      var rpc := RpcAddress(members[i].address);
      if rpc == Some(leader) {
        continue;
      }
      if rpc == None {
        continue;
      }
      var node := NodeInfo(hash(members[i].id), rpc.value);
      nodes := nodes + [node];
    }
    assert members[..|members|] == members;
  }

  method GetSuccessor(file: HashId, ring: seq<NodeInfo>, num: nat) returns (successor: seq<NodeInfo>)
    requires ring != []
    ensures successor == Successors(file, ring, num)
  {
    var startIndex := 0;
    for i := 0 to |ring|
      invariant startIndex == 0 && forall j :: 0 <= j < i ==> ring[j].id < file
    {
      if ring[i].id >= file {
        startIndex := i;
        break;
      }
    }
    assert startIndex == Start(file, ring);
    successor := [];
    for i := 0 to num
      invariant successor == Successors(file, ring, num)[..i]
    {
      successor := successor + [ring[(startIndex + i) % |ring|]];
    }
  }

  function InsertById(ring: seq<NodeInfo>, n: NodeInfo): seq<NodeInfo> {
    if ring == [] || n.id <= ring[0].id then [n] + ring else [ring[0]] + InsertById(ring[1..], n)
  }

  function SortById(nodes: seq<NodeInfo>): seq<NodeInfo> {
    if nodes == [] then [] else InsertById(SortById(nodes[1..]), nodes[0])
  }

  lemma {:induction false} InsertByIdSorted(ring: seq<NodeInfo>, n: NodeInfo)
    requires SortedRing(ring)
    ensures SortedRing(InsertById(ring, n)) && multiset(InsertById(ring, n)) == multiset(ring) + multiset{n}
  {
    if ring != [] {
      assert ring == [ring[0]] + ring[1..];
      assert forall i :: 0 <= i < |ring| ==> ring[0].id <= ring[i].id;
      if n.id <= ring[0].id {
        ConsSorted(n, ring);
      } else {
        InsertByIdSorted(ring[1..], n);
        BoundedBag(ring[0].id, InsertById(ring[1..], n), ring[1..], n);
        ConsSorted(ring[0], InsertById(ring[1..], n));
      }
    }
  }

  lemma {:induction false} BoundedBag(bound: HashId, r: seq<NodeInfo>, ring: seq<NodeInfo>, n: NodeInfo)
    requires multiset(r) == multiset(ring) + multiset{n}
    requires bound <= n.id && forall i :: 0 <= i < |ring| ==> bound <= ring[i].id
    ensures forall i :: 0 <= i < |r| ==> bound <= r[i].id
  {
    forall i | 0 <= i < |r| ensures bound <= r[i].id {
      assert r[i] in multiset(r);
      assert r[i] in ring || r[i] == n;
    }
  }

  lemma {:induction false} ConsSorted(n: NodeInfo, ring: seq<NodeInfo>)
    requires SortedRing(ring) && forall i :: 0 <= i < |ring| ==> n.id <= ring[i].id
    ensures SortedRing([n] + ring)
  {
  }

  lemma {:induction false} SortByIdSorted(nodes: seq<NodeInfo>)
    ensures SortedRing(SortById(nodes)) && Permutation(SortById(nodes), nodes)
  {
    if nodes != [] {
      assert nodes == [nodes[0]] + nodes[1..];
      SortByIdSorted(nodes[1..]);
      InsertByIdSorted(SortById(nodes[1..]), nodes[0]);
    }
  }

  lemma {:induction false} PermutationKeepsNodes(a: seq<NodeInfo>, b: seq<NodeInfo>)
    requires Permutation(a, b)
    ensures |a| == |b| && Nodes(a) == Nodes(b) && (IdsDiffer(a) ==> IdsDiffer(b))
  {
    assert |multiset(a)| == |a| && |multiset(b)| == |b|;
    assert forall n :: n in a <==> n in multiset(a);
    assert forall n :: n in b <==> n in multiset(b);
    if IdsDiffer(a) {
      forall x, y | x in a && y in a && x.id == y.id ensures x == y {
        var k :| 0 <= k < |a| && a[k] == x;
        var l :| 0 <= l < |a| && a[l] == y;
        assert k == l;
      }
      forall i, j | 0 <= i < j < |b| ensures b[i].id != b[j].id {
        TwiceInBag(b, i, j);
        assert b[i] in a && b[j] in a;
        DistinctMultiplicity(a, b[i]);
      }
    }
  }

  lemma {:induction false} TwiceInBag<T>(s: seq<T>, i: nat, j: nat)
    requires i < j < |s|
    ensures s[i] == s[j] ==> multiset(s)[s[i]] >= 2
  {
    assert s == s[..j] + ([s[j]] + s[j + 1..]);
    assert s[i] in s[..j];
    MultisetOfConcat(s[..j], [s[j]] + s[j + 1..]);
    MultisetOfConcat([s[j]], s[j + 1..]);
  }

  datatype Replicas = Replicas(nodes: seq<NodeInfo>) | NoMemberList | NotEnoughNodes | NotEnoughValidNodes

  /** The nodes that hold a file: the three nearest. */
  method GetReplica(fileName: string, memberList: Option<seq<Member>>, leader: string, hash: string -> HashId)
    returns (r: Replicas)
    ensures r.NoMemberList? <==> memberList.None?
    ensures r.NotEnoughNodes? <==> memberList.Some? && |memberList.value| < REPLICA_NUM
    ensures r.Replicas? ==> memberList.Some? && |r.nodes| == REPLICA_NUM
    ensures r.Replicas? ==> forall n :: n in r.nodes ==> n.address != leader && IsMember(memberList.value, hash, n)
    ensures r.Replicas? && HashesDiffer(memberList.value, hash) ==>
      Nearest(hash(fileName), RingNodes(memberList.value, leader, hash), REPLICA_NUM, r.nodes)
    ensures memberList.Some? && |memberList.value| >= REPLICA_NUM && HashesDiffer(memberList.value, hash) ==>
      (r.Replicas? <==> |RingNodes(memberList.value, leader, hash)| >= REPLICA_NUM)
  {
    if memberList.None? {
      return NoMemberList;
    }
    if |memberList.value| < REPLICA_NUM {
      return NotEnoughNodes;
    }
    var nodes := GetRingInfo(memberList.value, leader, hash);
    if HashesDiffer(memberList.value, hash) {
      NodesCount(nodes);
    }
    if |nodes| < REPLICA_NUM {
      return NotEnoughValidNodes;
    }
    var ring := SortById(nodes);
    SortByIdSorted(nodes);
    PermutationKeepsNodes(nodes, ring);
    var replicas := GetSuccessor(hash(fileName), ring, REPLICA_NUM);
    forall n | n in replicas
      ensures n.address != leader && IsMember(memberList.value, hash, n)
    {
      assert n in ring;
      assert n in Nodes(ring) && n in Nodes(nodes);
      RingNodeIsMember(memberList.value, leader, hash, n);
    }
    if HashesDiffer(memberList.value, hash) {
      SuccessorsAreNearest(hash(fileName), ring, REPLICA_NUM);
    }
    return Replicas(replicas);
  }

  /** The node has the hash and the RPC address of a member. */
  ghost predicate IsMember(members: seq<Member>, hash: string -> HashId, n: NodeInfo) {
    exists m :: m in members && n.id == hash(m.id) && RpcAddress(m.address) == Some(n.address)
  }

  /** The ring has all members but the leader, and nobody else. */
  lemma {:induction false} RingNodeIsMember(
      members: seq<Member>, leader: string, hash: string -> HashId, n: NodeInfo)
    ensures n in RingNodes(members, leader, hash) <==> n.address != leader && IsMember(members, hash, n)
  {
    if n.address != leader && IsMember(members, hash, n) {
      var m :| m in members && n.id == hash(m.id) && RpcAddress(m.address) == Some(n.address);
      assert RingNode(m, leader, hash) == Some(n);
    }
  }

  lemma {:induction false} NodesCount(nodes: seq<NodeInfo>)
    requires IdsDiffer(nodes)
    ensures |Nodes(nodes)| == |nodes|
  {
    if nodes != [] {
      var n := |nodes| - 1;
      assert nodes == nodes[..n] + [nodes[n]];
      NodesCount(nodes[..n]);
      assert Nodes(nodes) == Nodes(nodes[..n]) + {nodes[n]};
    }
  }

  /** Two nodes with the same members in different orders choose the same replicas. */
  lemma {:induction false} PlacementIgnoresOrder(
    file: HashId, members: seq<Member>, members': seq<Member>, leader: string, hash: string -> HashId,
    r: seq<NodeInfo>, r': seq<NodeInfo>)
    requires (forall m :: m in members <==> m in members') && HashesDiffer(members, hash)
    requires Nearest(file, RingNodes(members, leader, hash), REPLICA_NUM, r)
    requires Nearest(file, RingNodes(members', leader, hash), REPLICA_NUM, r')
    ensures r == r'
  {
    assert RingNodes(members, leader, hash) == RingNodes(members', leader, hash);
    RingNodesDiffer(members, leader, hash);
    NearestUnique(file, RingNodes(members, leader, hash), REPLICA_NUM, r, r');
  }
}
