/**
 * What the running tasks know of their neighbours, against the leader's task map: the list
 * of addresses a task routes by, and the number of upstream tasks whose end it waits for.
 * Scale-ups and scale-downs bring both up to date when their calls arrive; a restart takes
 * the arguments of the first start again.
 */
module Topology {
  import opened Sequences
  import opened Scheduler
  import Leader

  type Key = (int, int)

  datatype Route = Route(downstream: seq<Address>, numUpstream: nat)

  type Running = map<Key, Route>

  /** The tasks on every node. */
  type Cluster = map<Address, Running>

  function WithDownstream(tasks: Running, stage: int, list: seq<Address>): Running {
    map k | k in tasks :: if k.0 == stage then tasks[k].(downstream := list) else tasks[k]
  }

  function WithUpstream(tasks: Running, stage: int, count: nat): Running {
    map k | k in tasks :: if k.0 == stage then tasks[k].(numUpstream := count) else tasks[k]
  }

  function StartOn(tasks: Running, args: StartArgs): Running {
    tasks[(args.stage, args.task) := Route(args.downstream, args.numUpstream)]
  }

  // ---------------------------------------------------------------- one node

  class Worker {
    var rsTasks: Running

    constructor ()
      ensures rsTasks == map[]
    {
      rsTasks := map[];
    }

    method StartTask(args: StartArgs)
      modifies this
      ensures rsTasks == StartOn(old(rsTasks), args)
    {
      rsTasks := rsTasks[(args.stage, args.task) := Route(args.downstream, args.numUpstream)];
    }

    method UpdateDownstream(stage: int, list: seq<Address>)
      modifies this
      ensures rsTasks == WithDownstream(old(rsTasks), stage, list)
    {
      var rest := rsTasks.Keys;
      ghost var was := rsTasks;
      while rest != {}
        invariant rest <= was.Keys == rsTasks.Keys
        invariant forall k :: k in was ==>
          rsTasks[k] == if k in rest || k.0 != stage then was[k] else was[k].(downstream := list)
        decreases rest
      {
        var k := Pick(rest);
        rest := rest - {k};
        if k.0 == stage {
          rsTasks := rsTasks[k := rsTasks[k].(downstream := list)];
        }
      }
    }

    method UpdateUpstream(stage: int, count: nat)
      modifies this
      ensures rsTasks == WithUpstream(old(rsTasks), stage, count)
    {
      var rest := rsTasks.Keys;
      ghost var was := rsTasks;
      while rest != {}
        invariant rest <= was.Keys == rsTasks.Keys
        invariant forall k :: k in was ==>
          rsTasks[k] == if k in rest || k.0 != stage then was[k] else was[k].(numUpstream := count)
        decreases rest
      {
        var k := Pick(rest);
        rest := rest - {k};
        if k.0 == stage {
          rsTasks := rsTasks[k := rsTasks[k].(numUpstream := count)];
        }
      }
    }

    method KillTask(k: Key)
      modifies this
      ensures rsTasks == old(rsTasks) - {k}
    {
      rsTasks := rsTasks - {k};
    }
  }

  // ---------------------------------------------------------------- the whole cluster

  function At(c: Cluster, a: Address): Running {
    if a in c then c[a] else map[]
  }

  /** StartTask on the node at an address. */
  function StartedOn(c: Cluster, a: Address, args: StartArgs): Cluster {
    c[a := StartOn(At(c, a), args)]
  }

  /** The addresses of a stage, in the order of task IDs. */
  function Addresses(tm: TaskMap, stage: int): seq<Address> {
    seq(Count(tm, stage), i => if i in Tasks(tm, stage) then Tasks(tm, stage)[i].address else "")
  }

  function Downstream(tm: TaskMap, numStages: nat, stage: int): seq<Address> {
    if stage < numStages then Addresses(tm, stage + 1) else []
  }

  function Upstream(tm: TaskMap, stage: int): nat {
    if stage == 1 then 1 else Count(tm, stage - 1)
  }

  function Hosts(tm: TaskMap, stage: int): set<Address> {
    set t | t in Tasks(tm, stage) :: Tasks(tm, stage)[t].address
  }

  /** The list the leader computes is that one, and no other. */
  lemma {:induction false} SortedWorkersAreAddresses(tm: TaskMap, numStages: nat, stage: int, workers: seq<Address>)
    requires ValidMap(tm, numStages) && 1 <= stage <= numStages
    ensures SortedWorkers(tm, stage, workers) <==> workers == Addresses(tm, stage)
  {
    if SortedWorkers(tm, stage, workers) {
      IndexIsTask(tm, numStages, stage, workers, 0);
    }
    if workers == Addresses(tm, stage) {
      var n := Count(tm, stage);
      var ids := seq(n, i requires 0 <= i < n => i);
      forall t ensures t in ids <==> t in Tasks(tm, stage) {
        assert 0 <= t < n ==> ids[t] == t;
      }
      assert ListsWorkers(Tasks(tm, stage), ids, workers);
    }
  }

  /** What a task of the stage should know. */
  function Neighbours(tm: TaskMap, numStages: nat, stage: int): Route {
    Route(Downstream(tm, numStages, stage), Upstream(tm, stage))
  }

  /** The node at the address runs the task, which knows just this. */
  predicate Knows(c: Cluster, a: Address, k: Key, r: Route) {
    k in At(c, a) && At(c, a)[k] == r
  }

  /** Every task in the map runs at its address and knows its neighbours. */
  ghost predicate UpToDate(tm: TaskMap, numStages: nat, c: Cluster) {
    KnowsNeighbours(tm, numStages, tm, c)
  }

  /** The tasks of one map know the neighbours they have in another. */
  ghost predicate KnowsNeighbours(tm: TaskMap, numStages: nat, other: TaskMap, c: Cluster) {
    forall s, t :: t in Tasks(tm, s) ==> Knows(c, Tasks(tm, s)[t].address, (s, t), Neighbours(other, numStages, s))
  }

  /** Whatever index a task picks from its list, a hash modulo the length for one, the node at that
      index runs the task of that number. */
  lemma {:induction false} RoutedTupleArrives(
      tm: TaskMap, numStages: nat, c: Cluster, s: int, t: int, list: seq<Address>)
    requires ValidMap(tm, numStages) && UpToDate(tm, numStages, c) && t in Tasks(tm, s) && s < numStages
    requires var tasks := At(c, Tasks(tm, s)[t].address); (s, t) in tasks ==> list == tasks[(s, t)].downstream
    ensures list != [] && forall i :: 0 <= i < |list| ==> (s + 1, i) in At(c, list[i])
  {
    assert Knows(c, Tasks(tm, s)[t].address, (s, t), Neighbours(tm, numStages, s));
    assert list == Addresses(tm, s + 1);
    assert Contiguous(tm[s + 1]);
    forall i | 0 <= i < |list| ensures (s + 1, i) in At(c, list[i]) {
      assert i in Tasks(tm, s + 1);
      assert Knows(c, list[i], (s + 1, i), Neighbours(tm, numStages, s + 1));
    }
  }

  // ---------------------------------------------------------------- scaling

  /** A call that arrives at some nodes. */
  function TellDownstream(c: Cluster, reached: set<Address>, stage: int, list: seq<Address>): Cluster {
    map a | a in c :: if a in reached then WithDownstream(c[a], stage, list) else c[a]
  }

  function TellUpstream(c: Cluster, reached: set<Address>, stage: int, count: nat): Cluster {
    map a | a in c :: if a in reached then WithUpstream(c[a], stage, count) else c[a]
  }

  /** broadcastUpdateDownstream to the stage before, which reaches the nodes `above`, and
      broadcastUpdateUpstream to the stage after, which reaches the nodes `below`. The source
      asks the leader for its list and is not told. */
  function Told(tm: TaskMap, c: Cluster, stage: int, above: set<Address>, below: set<Address>): Cluster {
    var c' := if stage - 1 < 1 then c else TellDownstream(c, above, stage - 1, Addresses(tm, stage));
    TellUpstream(c', below, stage + 1, Count(tm, stage))
  }

  /** The broadcasts reach every node that runs a neighbour. */
  predicate ReachesAll(tm: TaskMap, stage: int, above: set<Address>, below: set<Address>) {
    Hosts(tm, stage - 1) <= above && Hosts(tm, stage + 1) <= below
  }

  /** A call about a stage reaches the tasks of that stage on the nodes where it arrives, and no others. */
  lemma {:induction false} TellDownstreamIsSeen(
      c: Cluster, reached: set<Address>, stage: int, list: seq<Address>, a: Address, k: Key, r: Route)
    requires Knows(c, a, k, r)
    ensures Knows(TellDownstream(c, reached, stage, list), a, k,
      if a in reached && k.0 == stage then r.(downstream := list) else r)
  {
    assert a in c;
  }

  lemma {:induction false} TellUpstreamIsSeen(
      c: Cluster, reached: set<Address>, stage: int, count: nat, a: Address, k: Key, r: Route)
    requires Knows(c, a, k, r)
    ensures Knows(TellUpstream(c, reached, stage, count), a, k,
      if a in reached && k.0 == stage then r.(numUpstream := count) else r)
  {
    assert a in c;
  }

  lemma {:induction false} ToldIsSeen(
      tm: TaskMap, c: Cluster, stage: int, above: set<Address>, below: set<Address>, a: Address, k: Key, r: Route)
    requires Knows(c, a, k, r) && k.0 >= 1
    ensures Knows(Told(tm, c, stage, above, below), a, k,
      if k.0 == stage - 1 && a in above then r.(downstream := Addresses(tm, stage))
      else if k.0 == stage + 1 && a in below then r.(numUpstream := Count(tm, stage))
      else r)
  {
    if stage - 1 < 1 {
      TellUpstreamIsSeen(c, below, stage + 1, Count(tm, stage), a, k, r);
    } else {
      var list := Addresses(tm, stage);
      var r' := if a in above && k.0 == stage - 1 then r.(downstream := list) else r;
      TellDownstreamIsSeen(c, above, stage - 1, list, a, k, r);
      TellUpstreamIsSeen(TellDownstream(c, above, stage - 1, list), below, stage + 1, Count(tm, stage), a, k, r');
    }
  }

  lemma {:induction false} SameTasksSameAddresses(tm: TaskMap, tm': TaskMap, stage: int)
    requires Tasks(tm', stage) == Tasks(tm, stage)
    ensures Addresses(tm', stage) == Addresses(tm, stage)
  {
  }

  /** A change to one stage is seen by its neighbours only: by the stage before as a new list, and by the
      stage after as a new count. */
  lemma {:induction false} NeighboursAfterChange(tm: TaskMap, tm': TaskMap, numStages: nat, stage: int, s: int)
    requires forall k :: k != stage ==> Tasks(tm', k) == Tasks(tm, k)
    requires 1 <= stage <= numStages && s >= 1
    ensures var r := Neighbours(tm, numStages, s);
      Neighbours(tm', numStages, s) ==
        if s == stage - 1 then r.(downstream := Addresses(tm', stage))
        else if s == stage + 1 then r.(numUpstream := Count(tm', stage))
        else r
  {
    var r, r' := Neighbours(tm, numStages, s), Neighbours(tm', numStages, s);
    assert r'.downstream == if s == stage - 1 then Addresses(tm', stage) else r.downstream by {
      if s + 1 != stage {
        SameTasksSameAddresses(tm, tm', s + 1);
      }
    }
    assert r'.numUpstream == if s == stage + 1 then Count(tm', stage) else r.numUpstream by {
      assert s - 1 != stage ==> Tasks(tm', s - 1) == Tasks(tm, s - 1);
    }
  }

  lemma {:induction false} ChangeIsSeen(tm: TaskMap, tm': TaskMap, numStages: nat, stage: int, s: int)
    requires forall k :: k != stage ==> Tasks(tm', k) == Tasks(tm, k)
    requires 1 <= stage <= numStages && s >= 1 && Count(tm', stage) != Count(tm, stage)
    ensures s == stage - 1 || s == stage + 1 ==> Neighbours(tm', numStages, s) != Neighbours(tm, numStages, s)
  {
    if s == stage - 1 {
      assert |Downstream(tm', numStages, s)| == Count(tm', stage);
      assert |Downstream(tm, numStages, s)| == Count(tm, stage);
    }
  }

  /** A task that knew its neighbours before the change knows them after the broadcasts if and only if the
      broadcast meant for it arrives at its node. */
  lemma {:induction false} TaskIsToldExactlyWhen(
      tm: TaskMap, tm': TaskMap, numStages: nat, c: Cluster, stage: int, above: set<Address>, below: set<Address>,
      a: Address, k: Key)
    requires forall i :: i != stage ==> Tasks(tm', i) == Tasks(tm, i)
    requires 1 <= stage <= numStages && k.0 >= 1 && Count(tm', stage) != Count(tm, stage)
    requires Knows(c, a, k, Neighbours(tm, numStages, k.0))
    ensures Knows(Told(tm', c, stage, above, below), a, k, Neighbours(tm', numStages, k.0)) <==>
      (k.0 == stage - 1 ==> a in above) && (k.0 == stage + 1 ==> a in below)
  {
    ToldIsSeen(tm', c, stage, above, below, a, k, Neighbours(tm, numStages, k.0));
    NeighboursAfterChange(tm, tm', numStages, stage, k.0);
    ChangeIsSeen(tm, tm', numStages, stage, k.0);
  }

  /** Before the broadcasts all know the old neighbours; afterwards all know the new ones if and only if the
      broadcasts reach every node that runs a neighbour. */
  lemma {:induction false} ToldIsUpToDateExactlyWhen(
      tm: TaskMap, tm': TaskMap, numStages: nat, c: Cluster, stage: int, above: set<Address>, below: set<Address>)
    requires ValidMap(tm', numStages) && 1 <= stage <= numStages && KnowsNeighbours(tm', numStages, tm, c)
    requires forall i :: i != stage ==> Tasks(tm', i) == Tasks(tm, i)
    requires Count(tm', stage) != Count(tm, stage)
    ensures UpToDate(tm', numStages, Told(tm', c, stage, above, below)) <==> ReachesAll(tm', stage, above, below)
  {
    var told := Told(tm', c, stage, above, below);
    forall s, t | t in Tasks(tm', s)
      ensures var a := Tasks(tm', s)[t].address;
        Knows(told, a, (s, t), Neighbours(tm', numStages, s)) <==>
          (s == stage - 1 ==> a in above) && (s == stage + 1 ==> a in below)
    {
      TaskIsToldExactlyWhen(tm, tm', numStages, c, stage, above, below, Tasks(tm', s)[t].address, (s, t));
    }
  }

  /** A task added with the neighbours of the moment knows those, and the others still know theirs. */
  lemma {:induction false} NewTaskKnowsOld(tm: TaskMap, numStages: nat, c: Cluster, stage: int, info: TaskInfo)
    requires UpToDate(tm, numStages, c) && info.args.stage == stage && info.args.task == Count(tm, stage)
    requires info.args.downstream == Downstream(tm, numStages, stage) && info.args.numUpstream == Upstream(tm, stage)
    requires Count(tm, stage) !in Tasks(tm, stage)
    ensures var tm' := Add(tm, stage, Count(tm, stage), info);
      KnowsNeighbours(tm', numStages, tm, StartedOn(c, info.address, info.args))
  {
    var tm' := Add(tm, stage, Count(tm, stage), info);
    forall s, t | t in Tasks(tm', s)
      ensures Knows(StartedOn(c, info.address, info.args), Tasks(tm', s)[t].address, (s, t),
        Neighbours(tm, numStages, s))
    {
      if (s, t) != (stage, Count(tm, stage)) {
        assert t in Tasks(tm, s) && Tasks(tm', s)[t] == Tasks(tm, s)[t];
        assert Knows(c, Tasks(tm, s)[t].address, (s, t), Neighbours(tm, numStages, s));
      }
    }
  }

  function ScaledUp(
    tm: TaskMap, c: Cluster, stage: int, info: TaskInfo, above: set<Address>, below: set<Address>): Cluster
  {
    Told(Add(tm, stage, Count(tm, stage), info), StartedOn(c, info.address, info.args), stage, above, below)
  }

  lemma {:induction false} AddChangesOneStage(tm: TaskMap, stage: int, info: TaskInfo)
    requires stage in tm && Contiguous(tm[stage])
    ensures var tm' := Add(tm, stage, Count(tm, stage), info);
      && (forall k :: k != stage ==> Tasks(tm', k) == Tasks(tm, k))
      && Count(tm', stage) == Count(tm, stage) + 1
      && Count(tm, stage) !in Tasks(tm, stage)
  {
    ContiguousAfterAdd(tm[stage], info);
  }

  /** A scale-up leaves every task up to date exactly when its broadcasts reach every node that runs a
      neighbour; failed calls are not repeated. */
  lemma {:induction false} ScaleUpIsUpToDateExactlyWhen(
    tm: TaskMap, numStages: nat, c: Cluster, stage: int, info: TaskInfo, above: set<Address>, below: set<Address>)
    requires ValidMap(tm, numStages) && 1 <= stage <= numStages && UpToDate(tm, numStages, c)
    requires info.args.stage == stage && info.args.task == Count(tm, stage)
    requires info.args.downstream == Downstream(tm, numStages, stage) && info.args.numUpstream == Upstream(tm, stage)
    ensures var tm' := Add(tm, stage, Count(tm, stage), info);
      UpToDate(tm', numStages, ScaledUp(tm, c, stage, info, above, below)) <==> ReachesAll(tm', stage, above, below)
  {
    AddKeepsValid(tm, numStages, stage, info);
    AddChangesOneStage(tm, stage, info);
    NewTaskKnowsOld(tm, numStages, c, stage, info);
    ToldIsUpToDateExactlyWhen(tm, Add(tm, stage, Count(tm, stage), info), numStages,
      StartedOn(c, info.address, info.args), stage, above, below);
  }

  function ScaledDown(
    tm: TaskMap, c: Cluster, stage: int, victim: TaskInfo, above: set<Address>, below: set<Address>): Cluster
  {
    var told := Told(Drop(tm, stage, Count(tm, stage) - 1), c, stage, above, below);
    told[victim.address := At(told, victim.address) - {(stage, Count(tm, stage) - 1)}]
  }

  lemma {:induction false} RestKnowsOld(tm: TaskMap, numStages: nat, c: Cluster, stage: int, task: int)
    requires UpToDate(tm, numStages, c)
    ensures KnowsNeighbours(Drop(tm, stage, task), numStages, tm, c)
  {
    var tm' := Drop(tm, stage, task);
    forall s, t | t in Tasks(tm', s)
      ensures Knows(c, Tasks(tm', s)[t].address, (s, t), Neighbours(tm, numStages, s))
    {
      assert t in Tasks(tm, s) && Tasks(tm', s)[t] == Tasks(tm, s)[t];
    }
  }

  /** The same for a scale-down. */
  lemma {:induction false} ScaleDownIsUpToDateExactlyWhen(
    tm: TaskMap, numStages: nat, c: Cluster, stage: int, above: set<Address>, below: set<Address>)
    requires ValidMap(tm, numStages) && 1 <= stage <= numStages && UpToDate(tm, numStages, c) && Count(tm, stage) >= 2
    ensures var tm' := Drop(tm, stage, Count(tm, stage) - 1);
      var victim := tm[stage][Count(tm, stage) - 1];
      UpToDate(tm', numStages, ScaledDown(tm, c, stage, victim, above, below)) <==> ReachesAll(tm', stage, above, below)
  {
    var n, tm' := Count(tm, stage) - 1, Drop(tm, stage, Count(tm, stage) - 1);
    DropKeepsValid(tm, numStages, stage);
    ContiguousAfterDrop(tm[stage]);
    RestKnowsOld(tm, numStages, c, stage, n);
    ToldIsUpToDateExactlyWhen(tm, tm', numStages, c, stage, above, below);
    KillOneKeepsOthers(tm', numStages, Told(tm', c, stage, above, below), tm[stage][n].address, (stage, n));
  }

  /** Removing a task that is not in the map makes no difference to the others. */
  lemma {:induction false} KillOneKeepsOthers(tm: TaskMap, numStages: nat, c: Cluster, a: Address, victim: Key)
    requires victim.1 !in Tasks(tm, victim.0)
    ensures UpToDate(tm, numStages, c[a := At(c, a) - {victim}]) <==> UpToDate(tm, numStages, c)
  {
    var c' := c[a := At(c, a) - {victim}];
    forall s, t | t in Tasks(tm, s)
      ensures var r := Neighbours(tm, numStages, s);
        Knows(c', Tasks(tm, s)[t].address, (s, t), r) <==> Knows(c, Tasks(tm, s)[t].address, (s, t), r)
    {
      assert (s, t) != victim;
    }
  }

  // ---------------------------------------------------------------- starting and restarting

  /** The nodes after the calls of StartTask have arrived, in this order. */
  function AllStartedOn(c: Cluster, starts: seq<Leader.Start>): Cluster {
    if starts == [] then c
    else
      var last := starts[|starts| - 1];
      StartedOn(AllStartedOn(c, starts[..|starts| - 1]), last.address, last.args)
  }

  /** No two different calls are about the same task. */
  predicate OnePerTask(starts: seq<Leader.Start>) {
    forall i, j :: 0 <= i < j < |starts| ==>
      starts[i].args.stage != starts[j].args.stage || starts[i].args.task != starts[j].args.task
      || starts[i] == starts[j]
  }

  lemma {:induction false} StartedTaskKnows(c: Cluster, starts: seq<Leader.Start>, i: nat)
    requires OnePerTask(starts) && i < |starts|
    ensures var args := starts[i].args;
      Knows(AllStartedOn(c, starts), starts[i].address, (args.stage, args.task),
        Route(args.downstream, args.numUpstream))
  {
    var n := |starts| - 1;
    if i < n {
      StartedTaskKnows(c, starts[..n], i);
      assert starts[..n][i] == starts[i];
    }
  }

  /** The calls are those for the tasks of the job, in any order. */
  ghost predicate StartsOfJob(
    starts: seq<Leader.Start>, plan: map<int, seq<Address>>, numStages: nat, numTasks: nat, logs: (int, int) -> string)
    requires Leader.Covers(plan, numStages, numTasks)
  {
    && (forall i :: 0 <= i < |starts| ==>
          var args := starts[i].args;
          && Leader.InJob(numStages, numTasks, args.stage, args.task)
          && starts[i] == FirstStart(plan, numStages, numTasks, logs, args.stage, args.task))
    && (forall s, t :: Leader.InJob(numStages, numTasks, s, t) ==>
          FirstStart(plan, numStages, numTasks, logs, s, t) in starts)
  }

  ghost function FirstStart(
    plan: map<int, seq<Address>>, numStages: nat, numTasks: nat, logs: (int, int) -> string, s: int, t: int)
    : Leader.Start
    requires Leader.Covers(plan, numStages, numTasks) && Leader.InJob(numStages, numTasks, s, t)
  {
    Leader.Start(plan[s][t], Leader.FirstArgs(plan, numStages, numTasks, logs, s, t))
  }

  /** A stage of a started job is the one that was planned. */
  lemma {:induction false} PlanIsAddresses(
      tm: TaskMap, plan: map<int, seq<Address>>, numStages: nat, numTasks: nat, logs: (int, int) -> string,
      started: (int, int) -> Option<int>, s: int)
    requires Leader.Covers(plan, numStages, numTasks) && 1 <= s <= numStages
    requires Leader.StartedUpTo(tm, numStages + 1, 0, plan, numStages, numTasks, logs, started)
    requires forall s, t :: Leader.InJob(numStages, numTasks, s, t) ==> started(s, t).Some?
    ensures Addresses(tm, s) == plan[s] && Count(tm, s) == numTasks
  {
    var tasks := Tasks(tm, s);
    forall t ensures t in tasks <==> 0 <= t < numTasks {
      assert Leader.InJob(numStages, numTasks, s, t) <==> 0 <= t < numTasks;
    }
    Leader.IdsBelow(tasks, numTasks);
    forall i | 0 <= i < numTasks ensures Addresses(tm, s)[i] == plan[s][i] {
      assert i in tasks && Leader.InJob(numStages, numTasks, s, i);
    }
  }

  lemma {:induction false} FirstArgsAreNeighbours(
    tm: TaskMap, plan: map<int, seq<Address>>, numStages: nat, numTasks: nat, logs: (int, int) -> string,
    s: int, t: int)
    requires Leader.Covers(plan, numStages, numTasks) && Leader.InJob(numStages, numTasks, s, t)
    requires forall k :: 1 <= k <= numStages ==> Addresses(tm, k) == plan[k] && Count(tm, k) == numTasks
    ensures var args := Leader.FirstArgs(plan, numStages, numTasks, logs, s, t);
      Route(args.downstream, args.numUpstream) == Neighbours(tm, numStages, s)
  {
    assert s < numStages ==> s + 1 in plan && Addresses(tm, s + 1) == plan[s + 1];
    assert s > 1 ==> Count(tm, s - 1) == numTasks;
  }

  /** A task in the map of a started job is one of the job, with the arguments of its start. */
  lemma {:induction false} StartedTask(
      tm: TaskMap, plan: map<int, seq<Address>>, numStages: nat, numTasks: nat, logs: (int, int) -> string,
      started: (int, int) -> Option<int>, s: int, t: int)
    requires Leader.Covers(plan, numStages, numTasks)
    requires Leader.StartedUpTo(tm, numStages + 1, 0, plan, numStages, numTasks, logs, started)
    requires t in Tasks(tm, s)
    ensures Leader.InJob(numStages, numTasks, s, t) && Tasks(tm, s)[t].address == plan[s][t]
  {
  }

  /** When all starts of a job have succeeded, in whatever order they arrive, every task in the leader's
      map runs at its address and knows its neighbours. */
  lemma {:induction false} DeployedIsUpToDate(
      tm: TaskMap, plan: map<int, seq<Address>>, numStages: nat, numTasks: nat, logs: (int, int) -> string,
      started: (int, int) -> Option<int>, c: Cluster, starts: seq<Leader.Start>)
    requires Leader.Covers(plan, numStages, numTasks)
    requires Leader.StartedUpTo(tm, numStages + 1, 0, plan, numStages, numTasks, logs, started)
    requires forall s, t :: Leader.InJob(numStages, numTasks, s, t) ==> started(s, t).Some?
    requires StartsOfJob(starts, plan, numStages, numTasks, logs)
    ensures UpToDate(tm, numStages, AllStartedOn(c, starts))
  {
    forall s | 1 <= s <= numStages ensures Addresses(tm, s) == plan[s] && Count(tm, s) == numTasks {
      PlanIsAddresses(tm, plan, numStages, numTasks, logs, started, s);
    }
    forall s, t | t in Tasks(tm, s)
      ensures Knows(AllStartedOn(c, starts), Tasks(tm, s)[t].address, (s, t), Neighbours(tm, numStages, s))
    {
      StartedTask(tm, plan, numStages, numTasks, logs, started, s, t);
      JobTaskKnows(c, starts, plan, numStages, numTasks, logs, s, t);
      FirstArgsAreNeighbours(tm, plan, numStages, numTasks, logs, s, t);
    }
  }

  lemma {:induction false} JobTaskKnows(
      c: Cluster, starts: seq<Leader.Start>, plan: map<int, seq<Address>>, numStages: nat, numTasks: nat,
      logs: (int, int) -> string, s: int, t: int)
    requires Leader.Covers(plan, numStages, numTasks) && Leader.InJob(numStages, numTasks, s, t)
    requires StartsOfJob(starts, plan, numStages, numTasks, logs)
    ensures var args := Leader.FirstArgs(plan, numStages, numTasks, logs, s, t);
      Knows(AllStartedOn(c, starts), plan[s][t], (s, t), Route(args.downstream, args.numUpstream))
  {
    var start := FirstStart(plan, numStages, numTasks, logs, s, t);
    assert start in starts;
    var i :| 0 <= i < |starts| && starts[i] == start;
    assert OnePerTask(starts);
    StartedTaskKnows(c, starts, i);
  }

  /** A restart runs with the arguments of the first start. All tasks are up to date afterwards
      exactly when these are still right. */
  lemma {:induction false} RestartIsUpToDateExactlyWhen(tm: TaskMap, numStages: nat, c: Cluster, s: int, t: int)
    requires ValidMap(tm, numStages) && UpToDate(tm, numStages, c) && t in Tasks(tm, s)
    requires Tasks(tm, s)[t].args.stage == s && Tasks(tm, s)[t].args.task == t
    ensures var info := Tasks(tm, s)[t];
      UpToDate(tm, numStages, StartedOn(c, info.address, info.args)) <==>
        info.args.downstream == Downstream(tm, numStages, s) && info.args.numUpstream == Upstream(tm, s)
  {
    var info := Tasks(tm, s)[t];
    var c' := StartedOn(c, info.address, info.args);
    assert Knows(c', info.address, (s, t), Route(info.args.downstream, info.args.numUpstream));
    forall s', t' | t' in Tasks(tm, s') && (s', t') != (s, t)
      ensures Knows(c', Tasks(tm, s')[t'].address, (s', t'), Neighbours(tm, numStages, s'))
    {
      assert Knows(c, Tasks(tm, s')[t'].address, (s', t'), Neighbours(tm, numStages, s'));
    }
  }

  /** The task map after the first k changes. */
  function MapAfter(tm: TaskMap, numStages: nat, changes: seq<Leader.Change>, k: nat): TaskMap
    requires k <= |changes|
  {
    Leader.AllChanges(tm, numStages, changes[..k])
  }

  lemma {:induction false} ChangeKeepsArgs(tm: TaskMap, numStages: nat, change: Leader.Change, s: int, t: int)
    requires ValidMap(tm, numStages) && t in Tasks(tm, s) && t in Tasks(Leader.Changed(tm, numStages, change), s)
    ensures var after := Tasks(Leader.Changed(tm, numStages, change), s)[t];
      after.args == Tasks(tm, s)[t].args && after.address == Tasks(tm, s)[t].address
  {
  }

  /** A task that is never removed keeps its place and its first arguments. */
  lemma {:induction false} ChangesKeepArgs(tm: TaskMap, numStages: nat, changes: seq<Leader.Change>, s: int, t: int)
    requires ValidMap(tm, numStages)
    requires forall k :: 0 <= k <= |changes| ==> t in Tasks(MapAfter(tm, numStages, changes, k), s)
    ensures t in Tasks(tm, s) && t in Tasks(Leader.AllChanges(tm, numStages, changes), s)
    ensures var after := Tasks(Leader.AllChanges(tm, numStages, changes), s)[t];
      after.args == Tasks(tm, s)[t].args && after.address == Tasks(tm, s)[t].address
  {
    assert MapAfter(tm, numStages, changes, 0) == tm;
    assert changes[..|changes|] == changes;
    assert t in Tasks(MapAfter(tm, numStages, changes, |changes|), s);
    if changes != [] {
      var n := |changes| - 1;
      var front := changes[..n];
      forall k | 0 <= k <= n ensures t in Tasks(MapAfter(tm, numStages, front, k), s) {
        assert front[..k] == changes[..k];
        assert t in Tasks(MapAfter(tm, numStages, changes, k), s);
      }
      ChangesKeepArgs(tm, numStages, front, s, t);
      Leader.ChangesKeepValid(tm, numStages, front);
      ChangeKeepsArgs(Leader.AllChanges(tm, numStages, front), numStages, changes[n], s, t);
    }
  }

  /** After any series of scale-ups, scale-downs and restarts: a task is restarted with what it was
      first started with, and that is up to date exactly when the addresses of the next stage and the
      size of the stage before are those of its first start. */
  lemma {:induction false} RestartAfterChangesIsUpToDateExactlyWhen(
    tm: TaskMap, numStages: nat, changes: seq<Leader.Change>, c: Cluster, s: int, t: int)
    requires ValidMap(tm, numStages)
    requires forall k :: 0 <= k <= |changes| ==> t in Tasks(MapAfter(tm, numStages, changes, k), s)
    requires t in Tasks(tm, s) ==>
      Tasks(tm, s)[t].args.(dedupLog := "") == StartArgs(s, t, Downstream(tm, numStages, s), Upstream(tm, s), "")
    requires UpToDate(Leader.AllChanges(tm, numStages, changes), numStages, c)
    ensures var end := Leader.AllChanges(tm, numStages, changes);
      && t in Tasks(end, s)
      && var info := Tasks(end, s)[t];
         UpToDate(end, numStages, StartedOn(c, info.address, info.args)) <==>
           Downstream(end, numStages, s) == Downstream(tm, numStages, s) && Upstream(end, s) == Upstream(tm, s)
  {
    ChangesKeepArgs(tm, numStages, changes, s, t);
    Leader.ChangesKeepValid(tm, numStages, changes);
    RestartIsUpToDateExactlyWhen(Leader.AllChanges(tm, numStages, changes), numStages, c, s, t);
  }

  /** They are not after the next stage has been scaled: the restarted task goes on routing by the
      old list. */
  lemma {:induction false} RestartAfterScaleUpIsStale(
      tm: TaskMap, numStages: nat, c: Cluster, s: int, t: int, added: TaskInfo)
    requires ValidMap(tm, numStages) && 1 <= s < numStages && t in Tasks(tm, s)
    requires Tasks(tm, s)[t].args.stage == s && Tasks(tm, s)[t].args.task == t
    requires Tasks(tm, s)[t].args.downstream == Downstream(tm, numStages, s)
    requires UpToDate(Add(tm, s + 1, Count(tm, s + 1), added), numStages, c)
    ensures var tm' := Add(tm, s + 1, Count(tm, s + 1), added);
      var info := Tasks(tm, s)[t];
      && Tasks(tm', s)[t] == info
      && !UpToDate(tm', numStages, StartedOn(c, info.address, info.args))
  {
  }
}
