/** How many tasks each worker has, under the round-robin plan and under least-loaded scale-up. */
module Placement {
  import opened Sequences
  import opened Scheduler

  const LOAD_LIMIT := 999999

  /** The tasks at an address, as (stage, task). */
  function Placed(tm: TaskMap, a: Address): set<(int, int)> {
    set s, t | s in tm && t in tm[s] && tm[s][t].address == a :: (s, t)
  }

  function Load(tm: TaskMap, a: Address): nat {
    |Placed(tm, a)|
  }

  /** Any two workers are within one task of each other. */
  ghost predicate Balanced(load: Address -> nat, workers: seq<Address>) {
    forall a, b :: a in workers && b in workers ==> load(a) <= load(b) + 1
  }

  function LoadOf(tm: TaskMap): Address -> nat {
    a => Load(tm, a)
  }

  lemma {:induction false} AddLoad(tm: TaskMap, stage: int, task: int, info: TaskInfo, a: Address)
    requires task !in Tasks(tm, stage)
    ensures Load(Add(tm, stage, task, info), a) == Load(tm, a) + if info.address == a then 1 else 0
  {
    var tm' := Add(tm, stage, task, info);
    var extra := if info.address == a then {(stage, task)} else {};
    forall s, t ensures (s, t) in Placed(tm', a) <==> (s, t) in Placed(tm, a) || (s, t) in extra {
      assert t in Tasks(tm', s) <==> t in Tasks(tm, s) || (s, t) == (stage, task);
    }
    assert Placed(tm', a) == Placed(tm, a) + extra;
    assert (stage, task) !in Placed(tm, a);
  }

  // ---------------------------------------------------------------- the least loaded worker

  /** The worker that the scan settles on: the first with the least load, or the first of all if no
      load is below the limit. */
  ghost predicate Chosen(load: Address -> nat, workers: seq<Address>, best: Address) {
    if exists i :: 0 <= i < |workers| && load(workers[i]) < LOAD_LIMIT then
      exists k :: 0 <= k < |workers| && workers[k] == best
        && (forall j :: 0 <= j < |workers| ==> load(best) <= load(workers[j]))
        && (forall j :: 0 <= j < k ==> load(best) < load(workers[j]))
    else workers != [] && best == workers[0]
  }

  ghost predicate Least(load: Address -> nat, workers: seq<Address>, best: Address) {
    best in workers && forall a :: a in workers ==> load(best) <= load(a)
  }

  /** One more task keeps the balance exactly when it goes to a worker with the least load. */
  lemma {:induction false} OneMoreKeepsBalanceExactlyWhen(
      load: Address -> nat, load': Address -> nat, workers: seq<Address>, best: Address)
    requires Balanced(load, workers) && best in workers
    requires forall a :: load'(a) == load(a) + if a == best then 1 else 0
    ensures Balanced(load', workers) <==> Least(load, workers, best)
  {
  }

  /** The scan finds a least loaded worker exactly when some load is below the limit or the first
      worker happens to be one. */
  lemma {:induction false} ScanFindsLeastExactlyWhen(load: Address -> nat, workers: seq<Address>, best: Address)
    requires Chosen(load, workers, best)
    ensures Least(load, workers, best) <==>
      (exists a :: a in workers && load(a) < 999999) || Least(load, workers, workers[0])
  {
  }

  /** A task was added at the worker that the scan chose, some load being below the limit. */
  ghost predicate ScaledUp(tm: TaskMap, tm': TaskMap, info: TaskInfo, workers: seq<Address>) {
    && Chosen(LoadOf(tm), workers, info.address)
    && (exists a :: a in workers && Load(tm, a) < LOAD_LIMIT)
    && (exists stage, task :: task !in Tasks(tm, stage) && tm' == Add(tm, stage, task, info))
  }

  /** Any series of scale-ups over the same workers keeps the balance while loads stay below the
      limit. */
  lemma {:induction false} ScaleUpsKeepBalance(tms: seq<TaskMap>, added: seq<TaskInfo>, workers: seq<Address>)
    requires |tms| == |added| + 1 && Balanced(LoadOf(tms[0]), workers)
    requires forall k :: 0 <= k < |added| ==> ScaledUp(tms[k], tms[k + 1], added[k], workers)
    ensures Balanced(LoadOf(tms[|added|]), workers)
  {
    if added != [] {
      var n := |added| - 1;
      ScaleUpsKeepBalance(tms[..n + 1], added[..n], workers);
      ScaleUpKeepsBalance(tms[n], tms[n + 1], added[n], workers);
    }
  }

  lemma {:induction false} ScaleUpKeepsBalance(tm: TaskMap, tm': TaskMap, info: TaskInfo, workers: seq<Address>)
    requires Balanced(LoadOf(tm), workers) && ScaledUp(tm, tm', info, workers)
    ensures Balanced(LoadOf(tm'), workers)
  {
    var stage, task :| task !in Tasks(tm, stage) && tm' == Add(tm, stage, task, info);
    forall a ensures LoadOf(tm')(a) == LoadOf(tm)(a) + if a == info.address then 1 else 0 {
      AddLoad(tm, stage, task, info, a);
    }
    var a :| a in workers && Load(tm, a) < LOAD_LIMIT;
    assert LoadOf(tm)(a) < LOAD_LIMIT;
    ScanFindsLeastExactlyWhen(LoadOf(tm), workers, info.address);
    OneMoreKeepsBalanceExactlyWhen(LoadOf(tm), LoadOf(tm'), workers, info.address);
  }

  // ---------------------------------------------------------------- the round-robin plan

  /** The worker of a task under the plan. */
  function Planned(workers: seq<Address>, numTasks: nat, stage: nat, task: nat): Address
    requires workers != [] && stage >= 1
  {
    workers[((stage - 1) * numTasks + task) % |workers|]
  }

  /** b is the worker after a, which is at place k, and the first after the last. */
  predicate NextAt(workers: seq<Address>, k: nat, a: Address, b: Address) {
    k < |workers| && workers[k] == a && b == workers[if k + 1 < |workers| then k + 1 else 0]
  }

  ghost predicate NextWorker(workers: seq<Address>, a: Address, b: Address) {
    exists k: nat :: NextAt(workers, k, a, b)
  }

  /** The task after another, in the order of stages and task IDs. */
  predicate NextTask(numTasks: nat, s: nat, t: nat, s': nat, t': nat) {
    if t + 1 < numTasks then s' == s && t' == t + 1 else t + 1 == numTasks && s' == s + 1 && t' == 0
  }

  /** Each task goes to the worker after that of the task before. */
  lemma {:induction false} PlannedInTurn(workers: seq<Address>, numTasks: nat, s: nat, t: nat, s': nat, t': nat)
    requires workers != [] && s >= 1 && s' >= 1 && NextTask(numTasks, s, t, s', t')
    ensures NextWorker(workers, Planned(workers, numTasks, s, t), Planned(workers, numTasks, s', t'))
  {
    NextNumber(numTasks, s, t, s', t');
    NumbersInTurn(workers, (s - 1) * numTasks + t);
  }

  lemma {:induction false} NextNumber(numTasks: nat, s: nat, t: nat, s': nat, t': nat)
    requires s >= 1 && NextTask(numTasks, s, t, s', t')
    ensures (s' - 1) * numTasks + t' == (s - 1) * numTasks + t + 1
  {
    assert (s - 1) * numTasks + numTasks == s * numTasks;
  }

  /** The first task goes to the first worker. */
  lemma {:induction false} FirstPlanned(workers: seq<Address>, numTasks: nat)
    requires workers != []
    ensures Planned(workers, numTasks, 1, 0) == workers[0]
  {
    assert (1 - 1) * numTasks + 0 == 0;
  }

  lemma {:induction false} NumbersInTurn(workers: seq<Address>, i: nat)
    requires workers != []
    ensures NextWorker(workers, workers[i % |workers|], workers[(i + 1) % |workers|])
  {
    DivNext(i, |workers|);
    assert NextAt(workers, i % |workers|, workers[i % |workers|], workers[(i + 1) % |workers|]);
  }

  ghost predicate Deployed(tm: TaskMap, numStages: nat, numTasks: nat, workers: seq<Address>)
    requires workers != []
  {
    && (forall s :: s in tm ==> 1 <= s <= numStages)
    && (forall s, t :: 1 <= s <= numStages ==> (t in Tasks(tm, s) <==> 0 <= t < numTasks))
    && (forall s, t :: 1 <= s <= numStages && 0 <= t < numTasks ==>
      Tasks(tm, s)[t].address == Planned(workers, numTasks, s, t))
  }

  /** The numbers below n that are k modulo m. */
  function Residues(n: nat, m: nat, k: nat): set<nat>
    requires m > 0
  {
    set i: nat | i < n && i % m == k
  }

  lemma {:induction false} ResiduesCount(n: nat, m: nat, k: nat)
    requires k < m
    ensures n / m <= |Residues(n, m, k)| <= n / m + 1
    ensures |Residues(n, m, k)| == n / m + if k < n % m then 1 else 0
  {
    if n == 0 {
      assert Residues(n, m, k) == {};
    } else {
      ResiduesCount(n - 1, m, k);
      DivNext(n - 1, m);
      ResiduesNext(n - 1, m, k);
    }
  }

  lemma {:induction false} ResiduesNext(n: nat, m: nat, k: nat)
    requires k < m
    ensures |Residues(n + 1, m, k)| == |Residues(n, m, k)| + if n % m == k then 1 else 0
  {
    if n % m == k {
      assert Residues(n + 1, m, k) == Residues(n, m, k) + {n};
    } else {
      assert Residues(n + 1, m, k) == Residues(n, m, k);
    }
  }

  lemma {:induction false} MulMonotone(a: int, b: int, m: nat)
    ensures a <= b ==> a * m <= b * m
  {
  }

  lemma {:induction false} DivModUnique(x: nat, q: nat, r: nat, m: nat)
    requires x == q * m + r && r < m
    ensures x / m == q && x % m == r
  {
    var q' := x / m;
    assert x == q' * m + x % m;
    MulMonotone(q + 1, q', m);
    MulMonotone(q' + 1, q, m);
    assert (q + 1) * m == q * m + m && (q' + 1) * m == q' * m + m;
  }

  lemma {:induction false} DivNext(n: nat, m: nat)
    requires m > 0
    ensures if n % m == m - 1 then (n + 1) / m == n / m + 1 && (n + 1) % m == 0
            else (n + 1) / m == n / m && (n + 1) % m == n % m + 1
  {
    var q, r := n / m, n % m;
    if r == m - 1 {
      assert n + 1 == (q + 1) * m + 0;
      DivModUnique(n + 1, q + 1, 0, m);
    } else {
      DivModUnique(n + 1, q, r + 1, m);
    }
  }

  function Image<A, B>(s: set<A>, f: A -> B): set<B> {
    set x | x in s :: f(x)
  }

  lemma {:induction false} ImageSize<A, B>(s: set<A>, f: A -> B)
    requires forall x, y :: x in s && y in s && f(x) == f(y) ==> x == y
    ensures |Image(s, f)| == |s|
  {
    if s != {} {
      var x :| x in s;
      ImageSize(s - {x}, f);
      assert Image(s, f) == Image(s - {x}, f) + {f(x)};
    }
  }

  lemma {:induction false} PlaceOf(i: nat, numStages: nat, numTasks: nat)
    requires i < numStages * numTasks
    ensures numTasks > 0 && 1 <= i / numTasks + 1 <= numStages && i % numTasks < numTasks
    ensures (i / numTasks) * numTasks + i % numTasks == i
  {
  }

  lemma {:induction false} NumberOf(stage: nat, task: nat, numStages: nat, numTasks: nat)
    requires 1 <= stage <= numStages && task < numTasks
    ensures (stage - 1) * numTasks + task < numStages * numTasks
    ensures ((stage - 1) * numTasks + task) / numTasks == stage - 1
    ensures ((stage - 1) * numTasks + task) % numTasks == task
  {
    MulMonotone(stage, numStages, numTasks);
    assert (stage - 1) * numTasks + numTasks == stage * numTasks;
    DivModUnique((stage - 1) * numTasks + task, stage - 1, task, numTasks);
  }

  /** The stage and task ID of the i-th task of the plan. */
  function Place(numTasks: nat, i: nat): (int, int) {
    if numTasks > 0 then (i / numTasks + 1, i % numTasks) else (0, 0)
  }

  lemma {:induction false} PlacedToNumber(
      tm: TaskMap, numStages: nat, numTasks: nat, workers: seq<Address>, k: nat, s: int, t: int)
    requires k < |workers| && Distinct(workers) && Deployed(tm, numStages, numTasks, workers)
    requires (s, t) in Placed(tm, workers[k])
    ensures exists i :: i in Residues(numStages * numTasks, |workers|, k) && Place(numTasks, i) == (s, t)
  {
    assert t in Tasks(tm, s) && 0 <= t < numTasks;
    NumberOf(s, t, numStages, numTasks);
    var i := (s - 1) * numTasks + t;
    assert workers[i % |workers|] == workers[k];
    assert i in Residues(numStages * numTasks, |workers|, k);
    assert Place(numTasks, i) == (s, t);
  }

  lemma {:induction false} NumberToPlaced(
      tm: TaskMap, numStages: nat, numTasks: nat, workers: seq<Address>, k: nat, i: nat)
    requires k < |workers| && Deployed(tm, numStages, numTasks, workers)
    requires i in Residues(numStages * numTasks, |workers|, k)
    ensures Place(numTasks, i) in Placed(tm, workers[k])
  {
    PlaceOf(i, numStages, numTasks);
    var s, t := i / numTasks + 1, i % numTasks;
    assert t in Tasks(tm, s);
    assert Planned(workers, numTasks, s, t) == workers[i % |workers|];
  }

  /** Worker k gets the tasks whose numbers are k modulo the number of workers. */
  lemma {:induction false} DeployedLoad(tm: TaskMap, numStages: nat, numTasks: nat, workers: seq<Address>, k: nat)
    requires k < |workers| && Distinct(workers) && Deployed(tm, numStages, numTasks, workers)
    ensures Load(tm, workers[k]) == |Residues(numStages * numTasks, |workers|, k)|
  {
    var n := numStages * numTasks;
    var residues := Residues(n, |workers|, k);
    var place := (i: nat) => Place(numTasks, i);
    forall i, j | i in residues && j in residues && place(i) == place(j) ensures i == j {
      PlaceOf(i, numStages, numTasks);
      PlaceOf(j, numStages, numTasks);
    }
    ImageSize(residues, place);
    forall p | p in Placed(tm, workers[k]) ensures p in Image(residues, place) {
      PlacedToNumber(tm, numStages, numTasks, workers, k, p.0, p.1);
      var i :| i in residues && Place(numTasks, i) == p;
      assert place(i) == p;
    }
    forall p | p in Image(residues, place) ensures p in Placed(tm, workers[k]) {
      var i :| i in residues && place(i) == p;
      NumberToPlaced(tm, numStages, numTasks, workers, k, i);
    }
    assert Placed(tm, workers[k]) == Image(residues, place);
  }

  /** A freshly deployed job loads any two workers within one task of each other. */
  lemma {:induction false} DeployedIsBalanced(tm: TaskMap, numStages: nat, numTasks: nat, workers: seq<Address>)
    requires workers != [] && Distinct(workers) && Deployed(tm, numStages, numTasks, workers)
    ensures Balanced(LoadOf(tm), workers)
  {
    forall a, b | a in workers && b in workers ensures LoadOf(tm)(a) <= LoadOf(tm)(b) + 1 {
      var i :| 0 <= i < |workers| && workers[i] == a;
      var j :| 0 <= j < |workers| && workers[j] == b;
      DeployedLoad(tm, numStages, numTasks, workers, i);
      DeployedLoad(tm, numStages, numTasks, workers, j);
      ResiduesCount(numStages * numTasks, |workers|, i);
      ResiduesCount(numStages * numTasks, |workers|, j);
    }
  }
}
