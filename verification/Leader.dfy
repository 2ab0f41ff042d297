/**
 * The leader as the job's RPC handlers and the autoscaler change it. Each method keeps the
 * task map contiguous and the task count in step with it.
 */
module Leader {
  import opened Sequences
  import opened Scheduler
  import opened Placement

  datatype Removal = Removal(victim: TaskInfo, task: int, survivor: Address, survivorTask: int)

  /** A start or restart to be asked of a worker. */
  datatype Start = Start(address: Address, args: StartArgs)

  ghost predicate InJob(numStages: nat, numTasks: nat, s: int, t: int) {
    1 <= s <= numStages && 0 <= t < numTasks
  }

  /** A plan with an address for every task. */
  ghost predicate Covers(plan: map<int, seq<Address>>, numStages: nat, numTasks: nat) {
    forall s :: 1 <= s <= numStages ==> s in plan && |plan[s]| == numTasks
  }

  ghost predicate RoundRobinPlan(plan: map<int, seq<Address>>, numStages: nat, numTasks: nat, workers: seq<Address>)
    requires workers != []
  {
    && Covers(plan, numStages, numTasks)
    && forall s, t :: InJob(numStages, numTasks, s, t) ==> plan[s][t] == Planned(workers, numTasks, s, t)
  }

  /** What task t of stage s is started with. */
  function FirstArgs(
    plan: map<int, seq<Address>>, numStages: nat, numTasks: nat, logs: (int, int) -> string, s: int, t: int): StartArgs
  {
    StartArgs(s, t, if s < numStages && s + 1 in plan then plan[s + 1] else [],
              if s == 1 then 1 else numTasks, logs(s, t))
  }

  /** The map after the tasks below (stage, task) have been asked to start. */
  ghost predicate StartedUpTo(
    tm: TaskMap, stage: int, task: int, plan: map<int, seq<Address>>, numStages: nat, numTasks: nat,
    logs: (int, int) -> string, started: (int, int) -> Option<int>)
    requires Covers(plan, numStages, numTasks) && stage <= numStages + 1 && task <= numTasks
  {
    && (forall s :: s in tm ==> 1 <= s <= numStages)
    && (forall s, t :: t in Tasks(tm, s) <==>
          InJob(numStages, numTasks, s, t) && (s < stage || (s == stage && t < task)) && started(s, t).Some?)
    && (forall s, t :: t in Tasks(tm, s) && InJob(numStages, numTasks, s, t) ==>
          Tasks(tm, s)[t] == TaskInfo(plan[s][t], started(s, t).value, logs(s, t),
            FirstArgs(plan, numStages, numTasks, logs, s, t)))
  }

  lemma {:induction false} StartOne(
    tm: TaskMap, stage: int, task: int, plan: map<int, seq<Address>>, numStages: nat, numTasks: nat,
    logs: (int, int) -> string, started: (int, int) -> Option<int>)
    requires Covers(plan, numStages, numTasks) && InJob(numStages, numTasks, stage, task)
    requires StartedUpTo(tm, stage, task, plan, numStages, numTasks, logs, started)
    ensures started(stage, task).None? ==> StartedUpTo(tm, stage, task + 1, plan, numStages, numTasks, logs, started)
    ensures started(stage, task).Some? ==>
      var args := FirstArgs(plan, numStages, numTasks, logs, stage, task);
      StartedUpTo(Add(tm, stage, task, TaskInfo(plan[stage][task], started(stage, task).value, args.dedupLog, args)),
        stage, task + 1, plan, numStages, numTasks, logs, started)
  {
    if started(stage, task).Some? {
      var args := FirstArgs(plan, numStages, numTasks, logs, stage, task);
      var info := TaskInfo(plan[stage][task], started(stage, task).value, args.dedupLog, args);
      var tm' := Add(tm, stage, task, info);
      forall s, t ensures t in Tasks(tm', s) <==> t in Tasks(tm, s) || (s == stage && t == task) {
        assert s != stage ==> Tasks(tm', s) == Tasks(tm, s);
      }
      assert Tasks(tm', stage)[task] == info;
      assert forall s, t :: t in Tasks(tm, s) && !(s == stage && t == task) ==> Tasks(tm', s)[t] == Tasks(tm, s)[t];
    }
  }

  lemma {:induction false} NextStage(
    tm: TaskMap, stage: int, plan: map<int, seq<Address>>, numStages: nat, numTasks: nat,
    logs: (int, int) -> string, started: (int, int) -> Option<int>)
    requires Covers(plan, numStages, numTasks) && stage <= numStages
    requires StartedUpTo(tm, stage, numTasks, plan, numStages, numTasks, logs, started)
    ensures StartedUpTo(tm, stage + 1, 0, plan, numStages, numTasks, logs, started)
  {
  }

  /** All tasks of earlier stages have started. */
  ghost predicate AllBefore(numTasks: nat, stage: int, started: (int, int) -> Option<int>) {
    forall s, t :: 1 <= s < stage && 0 <= t < numTasks ==> started(s, t).Some?
  }

  lemma {:induction false} AllBeforeNext(numTasks: nat, stage: int, started: (int, int) -> Option<int>)
    requires stage >= 1
    ensures AllBefore(numTasks, stage + 1, started) <==>
      AllBefore(numTasks, stage, started) && forall t :: 0 <= t < numTasks ==> started(stage, t).Some?
  {
  }

  lemma {:induction false} IdsBelow(stage: Stage, n: nat)
    requires forall t :: t in stage <==> 0 <= t < n
    ensures |stage| == n
  {
    if n == 0 {
      assert forall t :: t !in stage;
      assert stage == map[];
    } else {
      IdsBelow(stage - {n - 1}, n - 1);
      assert stage.Keys == (stage - {n - 1}).Keys + {n - 1};
    }
  }

  lemma {:induction false} UniformTotal(tm: TaskMap, stages: nat, n: nat)
    requires forall s :: 1 <= s <= stages ==> Count(tm, s) == n
    ensures Total(tm, stages) == stages * n
  {
    if stages > 0 {
      UniformTotal(tm, stages - 1, n);
      assert (stages - 1) * n + n == stages * n;
    }
  }

  /** When all tasks have started the map is the one the invariant asks for. */
  lemma {:induction false} AllStarted(
    tm: TaskMap, plan: map<int, seq<Address>>, numStages: nat, numTasks: nat, logs: (int, int) -> string,
    started: (int, int) -> Option<int>)
    requires Covers(plan, numStages, numTasks) && numTasks >= 1
    requires StartedUpTo(tm, numStages + 1, 0, plan, numStages, numTasks, logs, started)
    requires forall s, t :: InJob(numStages, numTasks, s, t) ==> started(s, t).Some?
    ensures ValidMap(tm, numStages) && Total(tm, numStages) == numStages * numTasks
  {
    forall s | 1 <= s <= numStages ensures s in tm && |Tasks(tm, s)| == numTasks && Contiguous(tm[s]) {
      assert InJob(numStages, numTasks, s, 0);
      assert 0 in Tasks(tm, s);
      assert forall t :: t in Tasks(tm, s) <==> InJob(numStages, numTasks, s, t);
      IdsBelow(Tasks(tm, s), numTasks);
    }
    UniformTotal(tm, numStages, numTasks);
  }

  function InsertId(ids: seq<int>, id: int): seq<int> {
    if ids == [] || id < ids[0] then [id] + ids else [ids[0]] + InsertId(ids[1..], id)
  }

  lemma {:induction false} InsertIdIncreasing(ids: seq<int>, id: int)
    requires Increasing(ids) && id !in ids
    ensures Increasing(InsertId(ids, id)) && forall t :: t in InsertId(ids, id) <==> t in ids || t == id
  {
    if ids != [] && id >= ids[0] {
      assert ids == [ids[0]] + ids[1..];
      InsertIdIncreasing(ids[1..], id);
      var rest := InsertId(ids[1..], id);
      forall i | 0 <= i < |rest| ensures ids[0] < rest[i] {
        assert rest[i] in rest;
      }
    }
  }

  /** The counts of a map; an address without tasks may be missing. */
  ghost predicate Counts(load: map<Address, nat>, tm: TaskMap) {
    forall a :: Load(tm, a) == if a in load then load[a] else 0
  }

  lemma {:induction false} CountOne(load: map<Address, nat>, tm: TaskMap, stage: int, task: int, info: TaskInfo)
    requires Counts(load, tm) && stage in tm && task !in tm[stage]
    ensures var a := info.address;
      Counts(load[a := (if a in load then load[a] else 0) + 1], tm[stage := tm[stage][task := info]])
  {
    forall a ensures Load(Add(tm, stage, task, info), a) == Load(tm, a) + if info.address == a then 1 else 0 {
      AddLoad(tm, stage, task, info, a);
    }
    assert Add(tm, stage, task, info) == tm[stage := tm[stage][task := info]];
  }

  lemma {:induction false} OneMore(s: int, n: int)
    ensures (s - 1) * n + n == s * n
  {
  }

  class Leader {
    var numStages: nat
    var taskMap: TaskMap
    var totalTasks: int
    var finishedTasks: nat

    ghost predicate Valid()
      reads this
    {
      ValidMap(taskMap, numStages) && totalTasks == Total(taskMap, numStages)
    }

    constructor ()
      ensures Valid()
    {
      numStages, taskMap, totalTasks, finishedTasks := 0, map[], 0, 0;
    }

    // -------------------------------------------------------------- starting a job

    static method CalculateDeploymentPlan(
        stages: nat, numTasks: nat, workers: seq<Address>) returns (plan: map<int, seq<Address>>)
      requires workers != []
      ensures RoundRobinPlan(plan, stages, numTasks, workers)
    {
      plan := map[];
      var globalTaskIdx := 0;
      for s := 1 to stages + 1
        invariant globalTaskIdx == (s - 1) * numTasks
        invariant RoundRobinPlan(plan, s - 1, numTasks, workers)
      {
        var row: seq<Address> := [];
        for t := 0 to numTasks
          invariant globalTaskIdx == (s - 1) * numTasks + t
          invariant |row| == t && forall k :: 0 <= k < t ==> row[k] == Planned(workers, numTasks, s, k)
        {
          row := row + [workers[globalTaskIdx % |workers|]];
          globalTaskIdx := globalTaskIdx + 1;
        }
        plan := plan[s := row];
        assert (s - 1) * numTasks + numTasks == s * numTasks;
      }
    }

    /** The tasks of one stage: the map with those that started, and their number. */
    static method StartStage(given: TaskMap, s: int, stages: nat, numTasks: nat, plan: map<int, seq<Address>>,
        logs: (int, int) -> string, started: (int, int) -> Option<int>)
      returns (tm: TaskMap, count: nat)
      requires Covers(plan, stages, numTasks) && 1 <= s <= stages
      requires StartedUpTo(given, s, 0, plan, stages, numTasks, logs, started)
      ensures StartedUpTo(tm, s, numTasks, plan, stages, numTasks, logs, started)
      ensures count <= numTasks && (count == numTasks <==> forall t :: 0 <= t < numTasks ==> started(s, t).Some?)
    {
      tm, count := given, 0;
      for t := 0 to numTasks
        invariant StartedUpTo(tm, s, t, plan, stages, numTasks, logs, started)
        invariant count <= t && (count == t <==> forall k :: 0 <= k < t ==> started(s, k).Some?)
      {
        StartOne(tm, s, t, plan, stages, numTasks, logs, started);
        var args := FirstArgs(plan, stages, numTasks, logs, s, t);
        match started(s, t)
        case Some(pid) =>
          tm := Add(tm, s, t, TaskInfo(plan[s][t], pid, args.dedupLog, args));
          count := count + 1;
        case None =>
      }
    }

    /** StartAllTasks after resetLeaderState. */
    method StartAllTasks(
        stages: nat, numTasks: nat, plan: map<int, seq<Address>>, logs: (int, int) -> string,
        started: (int, int) -> Option<int>)
      returns (ok: bool)
      requires Covers(plan, stages, numTasks)
      modifies this
      ensures numStages == stages && totalTasks == stages * numTasks && finishedTasks == 0
      ensures StartedUpTo(taskMap, stages + 1, 0, plan, stages, numTasks, logs, started)
      ensures ok <==> forall s, t :: InJob(stages, numTasks, s, t) ==> started(s, t).Some?
      ensures ok && numTasks >= 1 ==> Valid()
    {
      var tm, successCount: nat := map[], 0;
      ghost var asked := 0;
      for s := 1 to stages + 1
        invariant StartedUpTo(tm, s, 0, plan, stages, numTasks, logs, started)
        invariant asked == (s - 1) * numTasks && successCount <= asked
        invariant successCount == asked <==> AllBefore(numTasks, s, started)
      {
        var count: nat;
        tm, count := StartStage(tm, s, stages, numTasks, plan, logs, started);
        successCount := successCount + count;
        NextStage(tm, s, plan, stages, numTasks, logs, started);
        AllBeforeNext(numTasks, s, started);
        OneMore(s, numTasks);
        asked := asked + numTasks;
      }
      numStages, taskMap, totalTasks, finishedTasks := stages, tm, stages * numTasks, 0;
      ok := successCount >= stages * numTasks;
      assert ok <==> AllBefore(numTasks, stages + 1, started);
      if ok && numTasks >= 1 {
        AllStarted(tm, plan, stages, numTasks, logs, started);
      }
    }

    // -------------------------------------------------------------- reading the map

    method GetSortedStageWorkers(stage: int) returns (workers: seq<Address>)
      ensures SortedWorkers(taskMap, stage, workers)
    {
      var tasks := Tasks(taskMap, stage);
      var ids: seq<int> := [];
      var rest := tasks.Keys;
      while rest != {}
        invariant rest <= tasks.Keys && Increasing(ids)
        invariant forall t :: t in ids <==> t in tasks && t !in rest
        decreases rest
      {
        var id := Pick(rest);
        rest := rest - {id};
        InsertIdIncreasing(ids, id);
        ids := InsertId(ids, id);
      }
      workers := [];
      for i := 0 to |ids|
        invariant |workers| == i && forall k :: 0 <= k < i ==> ids[k] in tasks && workers[k] == tasks[ids[k]].address
      {
        assert ids[i] in ids;
        workers := workers + [tasks[ids[i]].address];
      }
      assert ListsWorkers(tasks, ids, workers);
    }

    method GetStageTaskCount(stage: int) returns (count: nat)
      ensures count == Count(taskMap, stage)
    {
      count := if stage in taskMap then |taskMap[stage]| else 0;
    }

    method MaxTaskID(stage: int) returns (maxID: int)
      ensures Valid() && 1 <= stage <= numStages ==> maxID == Count(taskMap, stage) - 1
    {
      maxID := -1;
      var tasks := Tasks(taskMap, stage);
      var rest := tasks.Keys;
      while rest != {}
        invariant rest <= tasks.Keys
        invariant maxID == -1 || maxID in tasks
        invariant forall t :: t in tasks && t !in rest ==> t <= maxID
        decreases rest
      {
        var id := Pick(rest);
        rest := rest - {id};
        if id > maxID {
          maxID := id;
        }
      }
      assert Valid() && 1 <= stage <= numStages ==> Count(taskMap, stage) - 1 in tasks;
    }

    /** The first of the least loaded; the empty string if there is nobody. */
    method GetLeastLoadedWorker(workers: seq<Address>) returns (best: Address)
      ensures workers == [] ==> best == ""
      ensures workers != [] ==> Chosen(LoadOf(taskMap), workers, best)
    {
      if workers == [] {
        return "";
      }
      var load := CountLoads(workers);
      var minLoad := LOAD_LIMIT;
      best := workers[0];
      ghost var at := 0;
      for i := 0 to |workers|
        invariant minLoad <= LOAD_LIMIT
        invariant minLoad == LOAD_LIMIT ==> best == workers[0]
        invariant minLoad == LOAD_LIMIT ==> forall j :: 0 <= j < i ==> load[workers[j]] >= LOAD_LIMIT
        invariant minLoad < LOAD_LIMIT ==> at < i && best == workers[at] && load[best] == minLoad
        invariant minLoad < LOAD_LIMIT ==> forall j :: 0 <= j < i ==> minLoad <= load[workers[j]]
        invariant minLoad < LOAD_LIMIT ==> forall j :: 0 <= j < at ==> minLoad < load[workers[j]]
      {
        if load[workers[i]] < minLoad {
          minLoad := load[workers[i]];
          best := workers[i];
          at := i;
        }
      }
      assert forall j :: 0 <= j < |workers| ==> LoadOf(taskMap)(workers[j]) == load[workers[j]];
    }

    /** Tasks per address: of the given workers, and of all addresses that have tasks. */
    method CountLoads(workers: seq<Address>) returns (load: map<Address, nat>)
      ensures forall i :: 0 <= i < |workers| ==> workers[i] in load && load[workers[i]] == Load(taskMap, workers[i])
    {
      load := map[];
      for i := 0 to |workers|
        invariant forall k :: 0 <= k < i ==> workers[k] in load
        invariant forall a :: a in load ==> load[a] == 0
      {
        load := load[workers[i] := 0];
      }
      ghost var seen: TaskMap := map[];
      var stages := taskMap.Keys;
      while stages != {}
        invariant stages <= taskMap.Keys
        invariant seen == map s | s in taskMap && s !in stages :: taskMap[s]
        invariant forall k :: 0 <= k < |workers| ==> workers[k] in load
        invariant Counts(load, seen)
        decreases stages
      {
        var s := Pick(stages);
        stages := stages - {s};
        load := CountStage(load, seen, s, taskMap[s]);
        seen := seen[s := taskMap[s]];
      }
      assert seen == taskMap;
      assert forall a :: a in load ==> load[a] == Load(taskMap, a);
    }

    static method CountStage(
        given: map<Address, nat>, ghost seen: TaskMap, s: int, stage: Stage) returns (load: map<Address, nat>)
      requires s !in seen && Counts(given, seen)
      ensures Counts(load, seen[s := stage]) && given.Keys <= load.Keys
    {
      load := given;
      var tasks := stage.Keys;
      ghost var part: Stage := map[];
      assert forall a :: Placed(seen[s := part], a) == Placed(seen, a);
      while tasks != {}
        invariant tasks <= stage.Keys && given.Keys <= load.Keys
        invariant part == map t | t in stage && t !in tasks :: stage[t]
        invariant Counts(load, seen[s := part])
        decreases tasks
      {
        var t := Pick(tasks);
        tasks := tasks - {t};
        var a := stage[t].address;
        CountOne(load, seen[s := part], s, t, stage[t]);
        load := load[a := (if a in load then load[a] else 0) + 1];
        assert seen[s := part][s := part[t := stage[t]]] == seen[s := part[t := stage[t]]];
        part := part[t := stage[t]];
      }
      assert part == stage;
    }

    // -------------------------------------------------------------- changing the map

    /** The outcomes of creating the new task's log and of starting it are given. */
    method ScaleUp(
        stage: int, workers: seq<Address>, dedupLog: Option<string>, pid: Option<int>)
        returns (added: Option<TaskInfo>)
      requires Valid() && 1 <= stage <= numStages
      modifies this
      ensures Valid() && numStages == old(numStages) && finishedTasks == old(finishedTasks)
      ensures added.Some? <==> workers != [] && dedupLog.Some? && pid.Some?
      ensures added.None? ==> taskMap == old(taskMap)
      ensures added.Some? ==> taskMap == Changed(old(taskMap), numStages, Grow(stage, added.value))
      ensures added.Some? ==>
        var n, info := Count(old(taskMap), stage), added.value;
        && taskMap == Add(old(taskMap), stage, n, info)
        && info.pid == pid.value && info.dedupLog == info.args.dedupLog == dedupLog.value
        && info.args.stage == stage && info.args.task == n
        && info.args.numUpstream == (if stage == 1 then 1 else Count(old(taskMap), stage - 1))
        && (if stage < numStages then SortedWorkers(old(taskMap), stage + 1, info.args.downstream)
          else info.args.downstream == [])
        && Chosen(LoadOf(old(taskMap)), workers, info.address)
    {
      var maxID := MaxTaskID(stage);
      var newTaskID := maxID + 1;
      if workers == [] {
        return None;
      }
      var target := GetLeastLoadedWorker(workers);
      if dedupLog.None? {
        return None;
      }
      var downstream := [];
      if stage < numStages {
        downstream := GetSortedStageWorkers(stage + 1);
      }
      var prevStageTasks := 1;
      if stage != 1 {
        prevStageTasks := GetStageTaskCount(stage - 1);
      }
      var args := StartArgs(stage, newTaskID, downstream, prevStageTasks, dedupLog.value);
      match pid
      case Some(id) =>
        var info := TaskInfo(target, id, dedupLog.value, args);
        AddKeepsValid(taskMap, numStages, stage, info);
        taskMap := Add(taskMap, stage, newTaskID, info);
        totalTasks := totalTasks + 1;
        return Some(info);
      case None =>
        return None;
    }

    /** Removes the task with the greatest ID, and names task 0 as the one to adopt its log. */
    method ScaleDown(stage: int) returns (removal: Option<Removal>)
      requires Valid() && 1 <= stage <= numStages
      modifies this
      ensures Valid() && numStages == old(numStages) && finishedTasks == old(finishedTasks)
      ensures removal.Some? <==> Count(old(taskMap), stage) >= 2
      ensures removal.None? ==> taskMap == old(taskMap)
      ensures taskMap == Changed(old(taskMap), numStages, Shrink(stage))
      ensures removal.Some? ==>
        var victim, r := Count(old(taskMap), stage) - 1, removal.value;
        && taskMap == Drop(old(taskMap), stage, victim)
        && r.task == victim && r.victim == old(taskMap)[stage][victim]
        && r.survivorTask == 0 != victim && 0 in taskMap[stage] && r.survivor == taskMap[stage][0].address
    {
      var maxID := MaxTaskID(stage);
      if maxID == -1 || maxID == 0 {
        return None;
      }
      var victim, survivor := taskMap[stage][maxID], taskMap[stage][0].address;
      DropKeepsValid(taskMap, numStages, stage);
      taskMap := Drop(taskMap, stage, maxID);
      totalTasks := totalTasks - 1;
      return Some(Removal(victim, maxID, survivor, 0));
    }

    /** A worker reports that a task's process has ended. */
    method TaskFinished(stage: int, task: int, success: bool) returns (complete: bool, restart: Option<Start>)
      requires Valid()
      modifies this`finishedTasks
      ensures Valid()
      ensures finishedTasks == old(finishedTasks) + if success then 1 else 0
      ensures complete <==> success && finishedTasks >= Total(taskMap, numStages)
      ensures restart == if !success && task in Tasks(taskMap, stage)
        then Some(Start(Tasks(taskMap, stage)[task].address, Tasks(taskMap, stage)[task].args)) else None
    {
      if success {
        finishedTasks := finishedTasks + 1;
        return finishedTasks >= totalTasks, None;
      }
      if stage in taskMap && task in taskMap[stage] {
        var info := taskMap[stage][task];
        return false, Some(Start(info.address, info.args));
      }
      return false, None;
    }

    /** The reply to a restart. */
    method RecordRestart(stage: int, task: int, pid: Option<int>)
      requires Valid()
      modifies this`taskMap
      ensures Valid()
      ensures taskMap == if pid.Some? then Restarted(old(taskMap), stage, task, pid.value) else old(taskMap)
      ensures pid.Some? ==> taskMap == Changed(old(taskMap), numStages, Replace(stage, task, pid.value))
    {
      if pid.Some? {
        RestartKeepsValid(taskMap, numStages, stage, task, pid.value);
        if stage in taskMap && task in taskMap[stage] {
          var entry := taskMap[stage][task].(pid := pid.value);
          taskMap := taskMap[stage := taskMap[stage][task := entry]];
        }
      }
    }
  }

  // ---------------------------------------------------------------- late reports

  /** A report about a task that was removed is ignored exactly as long as its ID is not in use. */
  lemma {:induction false} ReportIgnoredExactlyWhen(tm: TaskMap, numStages: nat, stage: int, task: nat)
    requires ValidMap(tm, numStages)
    ensures task !in Tasks(tm, stage) <==> Count(tm, stage) <= task
  {
  }

  /** A scale-up after a scale-down takes the victim's ID again: a report of the victim's end that
      arrives only then restarts the new task. */
  lemma {:induction false} LateReportRestartsReplacement(tm: TaskMap, numStages: nat, stage: int, info: TaskInfo)
    requires ValidMap(tm, numStages) && 1 <= stage <= numStages && Count(tm, stage) >= 2
    ensures var victim := Count(tm, stage) - 1;
      var after := Drop(tm, stage, victim);
      var again := Add(after, stage, Count(after, stage), info);
      && victim !in Tasks(after, stage)
      && victim in Tasks(again, stage) && Tasks(again, stage)[victim] == info
  {
  }

  // ---------------------------------------------------------------- whole runs

  /** A job started by the round-robin plan loads any two workers within one task of each other. */
  lemma {:induction false} StartedJobIsBalanced(
    tm: TaskMap, plan: map<int, seq<Address>>, numStages: nat, numTasks: nat, workers: seq<Address>,
    logs: (int, int) -> string, started: (int, int) -> Option<int>)
    requires workers != [] && Distinct(workers) && RoundRobinPlan(plan, numStages, numTasks, workers)
    requires StartedUpTo(tm, numStages + 1, 0, plan, numStages, numTasks, logs, started)
    requires forall s, t :: InJob(numStages, numTasks, s, t) ==> started(s, t).Some?
    ensures Balanced(LoadOf(tm), workers)
  {
    forall s, t | 1 <= s <= numStages ensures t in Tasks(tm, s) <==> 0 <= t < numTasks {
      assert InJob(numStages, numTasks, s, t) <==> 0 <= t < numTasks;
    }
    forall s, t | 1 <= s <= numStages && 0 <= t < numTasks
      ensures Tasks(tm, s)[t].address == Planned(workers, numTasks, s, t)
    {
      assert InJob(numStages, numTasks, s, t) && t in Tasks(tm, s);
    }
    DeployedIsBalanced(tm, numStages, numTasks, workers);
  }

  /** What the methods above do to the map. */
  datatype Change = Grow(stage: int, info: TaskInfo) | Shrink(stage: int) | Replace(stage: int, task: int, pid: int)

  function Changed(tm: TaskMap, numStages: nat, change: Change): TaskMap {
    match change
    case Grow(stage, info) => if 1 <= stage <= numStages then Add(tm, stage, Count(tm, stage), info) else tm
    case Shrink(stage) =>
      if 1 <= stage <= numStages && Count(tm, stage) >= 2 then Drop(tm, stage, Count(tm, stage) - 1) else tm
    case Replace(stage, task, pid) => Restarted(tm, stage, task, pid)
  }

  function AllChanges(tm: TaskMap, numStages: nat, changes: seq<Change>): TaskMap {
    if changes == [] then tm
    else Changed(AllChanges(tm, numStages, changes[..|changes| - 1]), numStages, changes[|changes| - 1])
  }

  /** After any series of scale-ups, scale-downs and restarts, an index into a stage's list of workers is the
      ID of a task that runs there. */
  lemma {:induction false} RunsKeepTaskMap(tm: TaskMap, numStages: nat, changes: seq<Change>)
    requires ValidMap(tm, numStages)
    ensures var end := AllChanges(tm, numStages, changes);
      && ValidMap(end, numStages)
      && forall stage, workers :: 1 <= stage <= numStages && SortedWorkers(end, stage, workers) ==>
           && workers != []
           && forall i :: 0 <= i < |workers| ==> i in Tasks(end, stage) && workers[i] == Tasks(end, stage)[i].address
  {
    ChangesKeepValid(tm, numStages, changes);
    var end := AllChanges(tm, numStages, changes);
    forall stage, workers | 1 <= stage <= numStages && SortedWorkers(end, stage, workers)
      ensures workers != []
      ensures forall i :: 0 <= i < |workers| ==> i in Tasks(end, stage) && workers[i] == Tasks(end, stage)[i].address
    {
      IndexIsTask(end, numStages, stage, workers, 0);
    }
  }

  lemma {:induction false} ChangesKeepValid(tm: TaskMap, numStages: nat, changes: seq<Change>)
    requires ValidMap(tm, numStages)
    ensures ValidMap(AllChanges(tm, numStages, changes), numStages)
  {
    if changes != [] {
      var n := |changes| - 1;
      ChangesKeepValid(tm, numStages, changes[..n]);
      ChangeKeepsValid(AllChanges(tm, numStages, changes[..n]), numStages, changes[n]);
    }
  }

  lemma {:induction false} ChangeKeepsValid(tm: TaskMap, numStages: nat, change: Change)
    requires ValidMap(tm, numStages)
    ensures ValidMap(Changed(tm, numStages, change), numStages)
  {
    var tm' := Changed(tm, numStages, change);
    match change
    case Grow(stage, info) =>
      if 1 <= stage <= numStages {
        AddKeepsValid(tm, numStages, stage, info);
        assert tm' == Add(tm, stage, Count(tm, stage), info);
      } else {
        assert tm' == tm;
      }
    case Shrink(stage) =>
      if 1 <= stage <= numStages && Count(tm, stage) >= 2 {
        DropKeepsValid(tm, numStages, stage);
        assert tm' == Drop(tm, stage, Count(tm, stage) - 1);
      } else {
        assert tm' == tm;
      }
    case Replace(stage, task, pid) =>
      RestartKeepsValid(tm, numStages, stage, task, pid);
  }
}
