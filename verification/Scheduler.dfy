/**
 * The leader's task map: starting the tasks of a job, restarting failed ones, and adding and
 * removing tasks while the job runs. Which remote calls succeed, and with which process IDs,
 * is given from outside.
 */
module Scheduler {
  type Address = string

  datatype StartArgs = StartArgs(stage: int, task: int, downstream: seq<Address>, numUpstream: nat, dedupLog: string)

  datatype TaskInfo = TaskInfo(address: Address, pid: int, dedupLog: string, args: StartArgs)

  /** The tasks of a stage, by task ID. */
  type Stage = map<int, TaskInfo>

  /** The stages of a job, by stage ID. */
  type TaskMap = map<int, Stage>

  function Tasks(tm: TaskMap, stage: int): Stage {
    if stage in tm then tm[stage] else map[]
  }

  function Count(tm: TaskMap, stage: int): nat {
    |Tasks(tm, stage)|
  }

  function Total(tm: TaskMap, stages: nat): nat {
    if stages == 0 then 0 else Total(tm, stages - 1) + Count(tm, stages)
  }

  function Add(tm: TaskMap, stage: int, task: int, info: TaskInfo): TaskMap {
    tm[stage := Tasks(tm, stage)[task := info]]
  }

  function Drop(tm: TaskMap, stage: int, task: int): TaskMap {
    if stage in tm then tm[stage := tm[stage] - {task}] else tm
  }

  /** A restarted task keeps its place and gets a new process. */
  function Restarted(tm: TaskMap, stage: int, task: int, pid: int): TaskMap {
    if stage in tm && task in tm[stage] then tm[stage := tm[stage][task := tm[stage][task].(pid := pid)]] else tm
  }

  // ---------------------------------------------------------------- the invariant

  /** Task IDs are 0 .. n-1, and there is at least one. */
  ghost predicate Contiguous(stage: Stage) {
    |stage| >= 1 && forall t :: t in stage <==> 0 <= t < |stage|
  }

  ghost predicate ValidMap(tm: TaskMap, numStages: nat) {
    && (forall s :: s in tm <==> 1 <= s <= numStages)
    && (forall s :: s in tm ==> Contiguous(tm[s]))
  }

  lemma {:induction false} TotalAfter(tm: TaskMap, tm': TaskMap, stages: nat, stage: int, change: int)
    requires forall s :: 1 <= s <= stages ==> Count(tm', s) == Count(tm, s) + if s == stage then change else 0
    ensures Total(tm', stages) == Total(tm, stages) + if 1 <= stage <= stages then change else 0
  {
    if stages > 0 {
      TotalAfter(tm, tm', stages - 1, stage, change);
    }
  }

  lemma {:induction false} ContiguousAfterAdd(stage: Stage, info: TaskInfo)
    requires Contiguous(stage)
    ensures var stage' := stage[|stage| := info]; Contiguous(stage') && |stage'| == |stage| + 1
  {
  }

  lemma {:induction false} ContiguousAfterDrop(stage: Stage)
    requires Contiguous(stage) && |stage| >= 2
    ensures var stage' := stage - {|stage| - 1}; Contiguous(stage') && |stage'| == |stage| - 1
  {
  }

  lemma {:induction false} AddKeepsValid(tm: TaskMap, numStages: nat, stage: int, info: TaskInfo)
    requires ValidMap(tm, numStages) && 1 <= stage <= numStages
    ensures var tm' := Add(tm, stage, Count(tm, stage), info);
      ValidMap(tm', numStages) && Total(tm', numStages) == Total(tm, numStages) + 1
  {
    ContiguousAfterAdd(tm[stage], info);
    TotalAfter(tm, Add(tm, stage, Count(tm, stage), info), numStages, stage, 1);
  }

  lemma {:induction false} DropKeepsValid(tm: TaskMap, numStages: nat, stage: int)
    requires ValidMap(tm, numStages) && 1 <= stage <= numStages && Count(tm, stage) >= 2
    ensures var tm' := Drop(tm, stage, Count(tm, stage) - 1);
      ValidMap(tm', numStages) && Total(tm', numStages) == Total(tm, numStages) - 1
  {
    var n, tm' := Count(tm, stage), Drop(tm, stage, Count(tm, stage) - 1);
    var rest := tm[stage] - {n - 1};
    ContiguousAfterDrop(tm[stage]);
    assert tm' == tm[stage := rest];
    forall s ensures Count(tm', s) == Count(tm, s) + if s == stage then -1 else 0 {
      assert s != stage ==> Tasks(tm', s) == Tasks(tm, s);
    }
    TotalAfter(tm, tm', numStages, stage, -1);
  }

  lemma {:induction false} RestartKeepsValid(tm: TaskMap, numStages: nat, stage: int, task: int, pid: int)
    requires ValidMap(tm, numStages)
    ensures ValidMap(Restarted(tm, stage, task, pid), numStages)
    ensures Total(Restarted(tm, stage, task, pid), numStages) == Total(tm, numStages)
  {
    var tm' := Restarted(tm, stage, task, pid);
    if stage in tm && task in tm[stage] {
      assert tm'[stage].Keys == tm[stage].Keys && |tm'[stage]| == |tm[stage]|;
    }
    TotalAfter(tm, tm', numStages, stage, 0);
  }

  /** A restart gives the task its new process, and changes nothing else. */
  lemma {:induction false} RestartRecordsProcess(tm: TaskMap, stage: int, task: int, pid: int)
    ensures var tm' := Restarted(tm, stage, task, pid);
      && tm'.Keys == tm.Keys
      && (forall s, t :: t in Tasks(tm', s) <==> t in Tasks(tm, s))
      && (forall s, t :: t in Tasks(tm, s) && (s, t) != (stage, task) ==> Tasks(tm', s)[t] == Tasks(tm, s)[t])
      && (task in Tasks(tm, stage) ==>
            var info, info' := Tasks(tm, stage)[task], Tasks(tm', stage)[task];
            && info'.pid == pid && info'.address == info.address
            && info'.dedupLog == info.dedupLog && info'.args == info.args)
  {
  }

  // ---------------------------------------------------------------- the list that tuples are routed by

  ghost predicate Increasing(ids: seq<int>) {
    forall i, j :: 0 <= i < j < |ids| ==> ids[i] < ids[j]
  }

  /** The workers are the addresses of the tasks with these IDs, which are all the IDs of the stage. */
  ghost predicate ListsWorkers(stage: Stage, ids: seq<int>, workers: seq<Address>) {
    && Increasing(ids)
    && (forall t :: t in ids <==> t in stage)
    && |workers| == |ids|
    && forall i :: 0 <= i < |ids| && ids[i] in stage ==> workers[i] == stage[ids[i]].address
  }

  /** The addresses of a stage's tasks, by increasing task ID. */
  ghost predicate SortedWorkers(tm: TaskMap, stage: int, workers: seq<Address>) {
    exists ids: seq<int> :: ListsWorkers(Tasks(tm, stage), ids, workers)
  }

  lemma {:induction false} IncreasingContiguous(ids: seq<int>, n: nat)
    requires Increasing(ids) && forall t :: t in ids <==> 0 <= t < n
    ensures |ids| == n && forall i :: 0 <= i < n ==> ids[i] == i
  {
    assert ids == [] || ids[0] in ids;
    if n > 0 {
      assert n - 1 in ids;
      GreatestIsLast(ids, ids[..|ids| - 1], n);
      IncreasingContiguous(ids[..|ids| - 1], n - 1);
    }
  }

  lemma {:induction false} GreatestIsLast(ids: seq<int>, front: seq<int>, n: nat)
    requires Increasing(ids) && n > 0 && forall t :: t in ids <==> 0 <= t < n
    requires ids != [] ==> front == ids[..|ids| - 1]
    ensures ids != [] && ids == front + [n - 1]
    ensures forall t :: t in front <==> 0 <= t < n - 1
  {
    assert n - 1 in ids;
    var k :| 0 <= k < |ids| && ids[k] == n - 1;
    var last := |ids| - 1;
    assert ids[last] in ids;
    assert k == last;
    assert ids == front + [n - 1];
    assert forall i :: 0 <= i < last ==> front[i] == ids[i] < n - 1;
    assert forall t :: t in ids <==> t in front || t == n - 1;
  }

  lemma {:induction false} ContiguousWorkers(stage: Stage, ids: seq<int>, workers: seq<Address>)
    requires Contiguous(stage) && ListsWorkers(stage, ids, workers)
    ensures |workers| == |stage|
    ensures forall i :: 0 <= i < |workers| ==> i in stage && workers[i] == stage[i].address
  {
    forall t ensures t in ids <==> 0 <= t < |stage| {
      assert t in stage <==> 0 <= t < |stage|;
    }
    IncreasingContiguous(ids, |stage|);
    forall i | 0 <= i < |workers| ensures i in stage && workers[i] == stage[i].address {
      assert ids[i] == i && i in ids;
    }
  }

  lemma {:induction false} RemainderIsIndex(hash: nat, length: nat)
    requires length > 0
    ensures 0 <= hash % length < length
  {
  }

  /** With contiguous IDs the i-th address is that of task i, so that any index modulo the length
      of the list is the ID of a task at that address. */
  lemma {:induction false} IndexIsTask(tm: TaskMap, numStages: nat, stage: int, workers: seq<Address>, hash: nat)
    requires ValidMap(tm, numStages) && 1 <= stage <= numStages && SortedWorkers(tm, stage, workers)
    ensures |workers| == Count(tm, stage) > 0
    ensures forall i :: 0 <= i < |workers| ==> i in tm[stage] && workers[i] == tm[stage][i].address
    ensures hash % |workers| in tm[stage] && workers[hash % |workers|] == tm[stage][hash % |workers|].address
  {
    var ids :| ListsWorkers(Tasks(tm, stage), ids, workers);
    ContiguousWorkers(tm[stage], ids, workers);
    RemainderIsIndex(hash, |workers|);
  }
}
