/** What the analyzer computes, without timelines: a plan assigns to every job a start time
and a set of cores, and a greedy plan gives each job of the queue in turn the least start,
not before its children end, at which as many cores as it needs are free.

This is the reference the analyzer's gap search, retry loop and splicing are proved against;
precedence, the bounds on the makespan and exclusive use of cores are proved about it. */
module ListScheduling {
  import opened Sets
  import opened Timeline

  /** A queued copy of a graph node. */
  datatype Job = Job(index: int, core: int32, runTime: int32, invLaxity: int)

  datatype Placement = Placement(job: Job, start: int32, cores: set<nat>)

  function End(p: Placement): int { p.start + p.job.runTime }

  /** How many cores a job occupies: `core` only matters above 1. */
  function Copies(j: Job): int { if j.core > 1 then j.core else 1 }

  function Max(a: int, b: int): int { if a < b then b else a }

  ghost predicate CoreFree(plan: seq<Placement>, c: nat, t: int, r: int) {
    forall i | 0 <= i < |plan| :: c in plan[i].cores ==> End(plan[i]) <= t || t + r <= plan[i].start
  }

  ghost function FreeCores(plan: seq<Placement>, n: nat, t: int, r: int): set<nat> {
    set c: nat | c < n && CoreFree(plan, c, t, r)
  }

  /** When the last placed child ends; 0 without one. */
  ghost function Ready(plan: seq<Placement>, children: seq<int>): int {
    if plan == [] then 0
    else
      var p := plan[|plan| - 1];
      Max(Ready(plan[..|plan| - 1], children), if p.job.index in children then End(p) else 0)
  }

  /** s is the least start from m on at which enough cores are free together. */
  ghost predicate LeastStart(plan: seq<Placement>, n: nat, job: Job, m: int, s: int) {
    && m <= s
    && |FreeCores(plan, n, s, job.runTime)| >= Copies(job)
    && forall t | m <= t < s :: |FreeCores(plan, n, t, job.runTime)| < Copies(job)
  }

  ghost predicate GreedyStep(plan: seq<Placement>, n: nat, children: seq<int>, p: Placement) {
    && LeastStart(plan, n, p.job, Ready(plan, children), p.start)
    && p.cores <= FreeCores(plan, n, p.start, p.job.runTime)
    && |p.cores| == Copies(p.job)
  }

  /** The children the analyzer sees for a node index. */
  type Children = map<int, seq<int>>

  function ChildrenOf(children: Children, index: int): seq<int> {
    if index in children then children[index] else []
  }

  ghost predicate GreedyPlan(queue: seq<Job>, children: Children, n: nat, plan: seq<Placement>) {
    && |plan| == |queue|
    && forall i | 0 <= i < |plan| ::
         plan[i].job == queue[i] && GreedyStep(plan[..i], n, ChildrenOf(children, queue[i].index), plan[i])
  }

  /** What the analyzer asks of a queue on n cores. */
  ghost predicate Schedulable(queue: seq<Job>, n: nat) {
    && 0 < n
    && (forall i | 0 <= i < |queue| :: 0 <= queue[i].index && 0 < queue[i].runTime && Copies(queue[i]) <= n)
    && (forall i, j | 0 <= i < j < |queue| :: queue[i].index != queue[j].index)
  }

  ghost function Makespan(plan: seq<Placement>): int {
    if plan == [] then 0 else Max(Makespan(plan[..|plan| - 1]), End(plan[|plan| - 1]))
  }

  ghost function TotalRunTime(queue: seq<Job>): int {
    if queue == [] then 0 else TotalRunTime(queue[..|queue| - 1]) + queue[|queue| - 1].runTime
  }

  /** Core time handed out. */
  ghost function Area(plan: seq<Placement>): int {
    if plan == [] then 0
    else Area(plan[..|plan| - 1]) + plan[|plan| - 1].job.runTime * |plan[|plan| - 1].cores|
  }

  // ---------------------------------------------------------- Ready and Makespan

  lemma {:induction false} ReadyIsLargest(plan: seq<Placement>, children: seq<int>)
    ensures 0 <= Ready(plan, children)
    ensures forall i | 0 <= i < |plan| && plan[i].job.index in children :: End(plan[i]) <= Ready(plan, children)
    ensures Ready(plan, children) == 0 ||
            exists i :: 0 <= i < |plan| && plan[i].job.index in children && End(plan[i]) == Ready(plan, children)
  {
    if plan != [] {
      var init, k := plan[..|plan| - 1], |plan| - 1;
      ReadyIsLargest(init, children);
      forall i | 0 <= i < |plan| && plan[i].job.index in children
        ensures End(plan[i]) <= Ready(plan, children)
      {
        if i < k { assert init[i] == plan[i]; }
      }
      if Ready(plan, children) != 0 && Ready(plan, children) == Ready(init, children) {
        var i :| 0 <= i < |init| && init[i].job.index in children && End(init[i]) == Ready(init, children);
        assert plan[i] == init[i];
      }
    }
  }

  /** A number with the properties of ReadyIsLargest is Ready. */
  lemma ReadyUnique(plan: seq<Placement>, children: seq<int>, m: int)
    requires 0 <= m
    requires forall i | 0 <= i < |plan| && plan[i].job.index in children :: End(plan[i]) <= m
    requires m == 0 || exists i :: 0 <= i < |plan| && plan[i].job.index in children && End(plan[i]) == m
    ensures m == Ready(plan, children)
  {
    ReadyIsLargest(plan, children);
  }

  lemma {:induction false} MakespanIsLargest(plan: seq<Placement>)
    ensures 0 <= Makespan(plan)
    ensures forall i | 0 <= i < |plan| :: End(plan[i]) <= Makespan(plan)
    ensures Makespan(plan) == 0 || exists i :: 0 <= i < |plan| && End(plan[i]) == Makespan(plan)
  {
    if plan != [] {
      var init, k := plan[..|plan| - 1], |plan| - 1;
      MakespanIsLargest(init);
      forall i | 0 <= i < |plan| ensures End(plan[i]) <= Makespan(plan) {
        if i < k { assert init[i] == plan[i]; }
      }
      if Makespan(plan) == Makespan(init) != 0 {
        var i :| 0 <= i < |init| && End(init[i]) == Makespan(init);
        assert plan[i] == init[i];
      } else {
        assert End(plan[k]) == Makespan(plan) || Makespan(plan) == 0;
      }
    }
  }

  lemma ReadyByMakespan(plan: seq<Placement>, children: seq<int>)
    ensures 0 <= Ready(plan, children) <= Makespan(plan)
  {
    ReadyIsLargest(plan, children);
    MakespanIsLargest(plan);
  }

  // ------------------------------------------------------------------ free cores

  ghost function AllCores(n: nat): (s: set<nat>)
    ensures forall c: nat :: c in s <==> c < n
    ensures |s| == n
  {
    if n == 0 then {} else AllCores(n - 1) + {n - 1}
  }

  /** From the makespan on every core is free. */
  lemma FreeFromMakespan(plan: seq<Placement>, n: nat, t: int, r: int)
    requires Makespan(plan) <= t
    ensures FreeCores(plan, n, t, r) == AllCores(n) && |FreeCores(plan, n, t, r)| == n
  {
    MakespanIsLargest(plan);
    assert FreeCores(plan, n, t, r) == AllCores(n);
  }

  /** So the least start is not later than the makespan so far. */
  lemma LeastStartByMakespan(plan: seq<Placement>, n: nat, job: Job, m: int, s: int)
    requires Copies(job) <= n && m <= Makespan(plan) && LeastStart(plan, n, job, m, s)
    ensures s <= Makespan(plan)
  {
    if Makespan(plan) < s {
      FreeFromMakespan(plan, n, Makespan(plan), job.runTime);
    }
  }

  // ----------------------------------------------------------------- the results

  lemma GreedyPrefix(queue: seq<Job>, children: Children, n: nat, plan: seq<Placement>, i: nat)
    requires GreedyPlan(queue, children, n, plan) && i <= |queue|
    ensures GreedyPlan(queue[..i], children, n, plan[..i])
  {
    forall k | 0 <= k < i ensures plan[..i][..k] == plan[..k] {}
  }

  /** A core never runs two jobs at once. */
  lemma Exclusive(queue: seq<Job>, children: Children, n: nat, plan: seq<Placement>, i: nat, j: nat, c: nat)
    requires GreedyPlan(queue, children, n, plan)
    requires i < j < |plan| && c in plan[i].cores && c in plan[j].cores
    ensures End(plan[i]) <= plan[j].start || End(plan[j]) <= plan[i].start
  {
    assert c in FreeCores(plan[..j], n, plan[j].start, plan[j].job.runTime);
    assert plan[..j][i] == plan[i];
  }

  /** The queue lists every child before its parents. */
  ghost predicate ChildrenFirst(queue: seq<Job>, children: Children) {
    forall i, j | 0 <= i < |queue| && 0 <= j < |queue| &&
                  queue[j].index in ChildrenOf(children, queue[i].index) :: j < i
  }

  /** A job starts when all its children have ended. */
  lemma Precedence(queue: seq<Job>, children: Children, n: nat, plan: seq<Placement>, i: nat, j: nat)
    requires GreedyPlan(queue, children, n, plan) && ChildrenFirst(queue, children)
    requires i < |queue| && j < |queue| && queue[j].index in ChildrenOf(children, queue[i].index)
    ensures End(plan[j]) <= plan[i].start
  {
    ReadyIsLargest(plan[..i], ChildrenOf(children, queue[i].index));
    assert plan[..i][j] == plan[j];
  }

  /** Some core is always busy: the makespan is at most the sum of the run times. */
  lemma {:induction false} MakespanAtMostTotal(queue: seq<Job>, children: Children, n: nat, plan: seq<Placement>)
    requires GreedyPlan(queue, children, n, plan) && Schedulable(queue, n)
    ensures Makespan(plan) <= TotalRunTime(queue)
  {
    if queue != [] {
      var k := |queue| - 1;
      GreedyPrefix(queue, children, n, plan, k);
      MakespanAtMostTotal(queue[..k], children, n, plan[..k]);
      var kids := ChildrenOf(children, queue[k].index);
      ReadyByMakespan(plan[..k], kids);
      LeastStartByMakespan(plan[..k], n, queue[k], Ready(plan[..k], kids), plan[k].start);
    }
  }

  /** Every inverse laxity is a sum of run times along a chain of parents: a job with no
  parent in the queue has its own run time, any other has at most that of some parent more. */
  ghost predicate LaxityWitnessed(queue: seq<Job>, children: Children) {
    forall j | 0 <= j < |queue| ::
      queue[j].invLaxity <= queue[j].runTime ||
      exists i :: 0 <= i < |queue| && queue[j].index in ChildrenOf(children, queue[i].index) &&
                  queue[j].invLaxity <= queue[i].invLaxity + queue[j].runTime
  }

  /** What has to run after job j still fits before the makespan. */
  lemma {:induction false} CriticalPath(queue: seq<Job>, children: Children, n: nat, plan: seq<Placement>, j: nat)
    requires GreedyPlan(queue, children, n, plan) && ChildrenFirst(queue, children)
    requires LaxityWitnessed(queue, children) && j < |queue|
    ensures End(plan[j]) + queue[j].invLaxity - queue[j].runTime <= Makespan(plan)
    decreases |queue| - j
  {
    MakespanIsLargest(plan);
    if queue[j].invLaxity > queue[j].runTime {
      var i :| 0 <= i < |queue| && queue[j].index in ChildrenOf(children, queue[i].index) &&
               queue[j].invLaxity <= queue[i].invLaxity + queue[j].runTime;
      Precedence(queue, children, n, plan, i, j);
      CriticalPath(queue, children, n, plan, i);
    }
  }

  lemma {:induction false} StartsNotNegative(queue: seq<Job>, children: Children, n: nat, plan: seq<Placement>, i: nat)
    requires GreedyPlan(queue, children, n, plan) && i < |plan|
    ensures 0 <= plan[i].start
  {
    ReadyIsLargest(plan[..i], ChildrenOf(children, queue[i].index));
  }

  /** The makespan is at least every inverse laxity, in particular the longest path. */
  lemma MakespanAtLeastLaxity(queue: seq<Job>, children: Children, n: nat, plan: seq<Placement>, j: nat)
    requires GreedyPlan(queue, children, n, plan) && ChildrenFirst(queue, children)
    requires LaxityWitnessed(queue, children) && j < |queue|
    ensures queue[j].invLaxity <= Makespan(plan)
  {
    CriticalPath(queue, children, n, plan, j);
    StartsNotNegative(queue, children, n, plan, j);
  }

  // ------------------------------------------------------------------ area bound

  ghost function Cells(cores: set<nat>, a: int, b: int): set<(nat, int)>
    requires a <= b
  {
    set c, t | c in cores && t in Range(a, b) :: (c, t)
  }

  /** The (core, instant) pairs a plan uses. */
  ghost function Used(plan: seq<Placement>): set<(nat, int)> {
    if plan == [] then {}
    else
      var p := plan[|plan| - 1];
      Used(plan[..|plan| - 1]) + (if 0 <= p.job.runTime then Cells(p.cores, p.start, End(p)) else {})
  }

  lemma {:induction false} ColumnSize(c: nat, a: int, b: int)
    requires a <= b
    ensures |Cells({c}, a, b)| == b - a
    decreases b - a
  {
    if a == b {
      assert Cells({c}, a, b) == {};
    } else {
      ColumnSize(c, a, b - 1);
      assert Cells({c}, a, b) == Cells({c}, a, b - 1) + {(c, b - 1)};
    }
  }

  lemma {:induction false} CellsSize(cores: set<nat>, a: int, b: int)
    requires a <= b
    ensures |Cells(cores, a, b)| == (b - a) * |cores|
    decreases |cores|
  {
    if cores == {} {
      assert Cells(cores, a, b) == {};
    } else {
      var c :| c in cores;
      var rest := cores - {c};
      CellsSize(rest, a, b);
      CellsGrow(rest, c, a, b);
      assert cores == rest + {c};
      Distribute(b - a, |rest|);
    }
  }

  lemma CellsGrow(rest: set<nat>, c: nat, a: int, b: int)
    requires a <= b && c !in rest
    ensures |Cells(rest + {c}, a, b)| == |Cells(rest, a, b)| + (b - a)
  {
    ColumnSize(c, a, b);
    assert Cells(rest + {c}, a, b) == Cells(rest, a, b) + Cells({c}, a, b);
    assert Cells(rest, a, b) !! Cells({c}, a, b);
  }

  lemma Distribute(x: int, y: int)
    ensures x * (y + 1) == x * y + x
  {
  }

  lemma {:induction false} UsedMember(plan: seq<Placement>, c: nat, t: int)
    ensures (c, t) in Used(plan) <==>
            exists i :: 0 <= i < |plan| && c in plan[i].cores && plan[i].start <= t < End(plan[i])
  {
    if plan != [] {
      var init, k := plan[..|plan| - 1], |plan| - 1;
      UsedMember(init, c, t);
      if i :| 0 <= i < |plan| && c in plan[i].cores && plan[i].start <= t < End(plan[i]) {
        if i < k { assert init[i] == plan[i]; }
      }
      if i :| 0 <= i < |init| && c in init[i].cores && init[i].start <= t < End(init[i]) {
        assert init[i] == plan[i];
      }
    }
  }

  lemma NewCellsAreFree(plan: seq<Placement>, n: nat, p: Placement)
    requires p.cores <= FreeCores(plan, n, p.start, p.job.runTime) && 0 <= p.job.runTime
    ensures Used(plan) !! Cells(p.cores, p.start, End(p))
  {
    forall c: nat, t: int | (c, t) in Cells(p.cores, p.start, End(p))
      ensures (c, t) !in Used(plan)
    {
      UsedMember(plan, c, t);
      assert c in FreeCores(plan, n, p.start, p.job.runTime);
    }
  }

  ghost predicate ProperPlan(plan: seq<Placement>, n: nat) {
    forall i | 0 <= i < |plan| ::
      0 < plan[i].job.runTime && 0 <= plan[i].start &&
      plan[i].cores <= FreeCores(plan[..i], n, plan[i].start, plan[i].job.runTime)
  }

  lemma GreedyIsProper(queue: seq<Job>, children: Children, n: nat, plan: seq<Placement>)
    requires GreedyPlan(queue, children, n, plan) && Schedulable(queue, n)
    ensures ProperPlan(plan, n)
  {
    forall i | 0 <= i < |plan| ensures 0 <= plan[i].start {
      StartsNotNegative(queue, children, n, plan, i);
    }
  }

  lemma ProperPrefix(plan: seq<Placement>, n: nat)
    requires ProperPlan(plan, n) && plan != []
    ensures ProperPlan(plan[..|plan| - 1], n)
  {
    var init := plan[..|plan| - 1];
    forall i | 0 <= i < |init|
      ensures init[i] == plan[i] && init[..i] == plan[..i]
    {
    }
  }

  /** Placements never share a cell, so the cells in use count the core time handed out. */
  lemma {:induction false} UsedSize(plan: seq<Placement>, n: nat)
    requires ProperPlan(plan, n)
    ensures |Used(plan)| == Area(plan)
  {
    if plan != [] {
      var k := |plan| - 1;
      ProperPrefix(plan, n);
      UsedSize(plan[..k], n);
      NewCellsAreFree(plan[..k], n, plan[k]);
      CellsSize(plan[k].cores, plan[k].start, End(plan[k]));
      assert End(plan[k]) - plan[k].start == plan[k].job.runTime;
    }
  }

  lemma UsedWithin(plan: seq<Placement>, n: nat)
    requires ProperPlan(plan, n)
    ensures 0 <= Makespan(plan)
    ensures Used(plan) <= Cells(AllCores(n), 0, Makespan(plan))
  {
    MakespanIsLargest(plan);
    forall x | x in Used(plan) ensures x in Cells(AllCores(n), 0, Makespan(plan)) {
      UsedMember(plan, x.0, x.1);
    }
  }

  lemma AllCellsSize(n: nat, m: nat)
    ensures |Cells(AllCores(n), 0, m)| == m * n
  {
    CellsSize(AllCores(n), 0, m);
  }

  /** cores * makespan covers the run time of every job on every core it occupies. */
  lemma AreaBound(queue: seq<Job>, children: Children, n: nat, plan: seq<Placement>)
    requires GreedyPlan(queue, children, n, plan) && Schedulable(queue, n)
    ensures Area(plan) <= Makespan(plan) * n
  {
    assert ProperPlan(plan, n) by { GreedyIsProper(queue, children, n, plan); }
    var m := Makespan(plan);
    assert 0 <= m by { MakespanIsLargest(plan); }
    calc <= {
      Area(plan);
      { UsedSize(plan, n); }
      |Used(plan)|;
      { UsedWithin(plan, n); SubsetSize(Used(plan), Cells(AllCores(n), 0, m)); }
      |Cells(AllCores(n), 0, m)|;
      { AllCellsSize(n, m); }
      m * n;
    }
  }

  // ------------------------------------------------------------- permuted queues

  ghost predicate Queued(queue: seq<Job>, index: int) {
    exists k :: 0 <= k < |queue| && queue[k].index == index
  }

  /** The queue lists every job once. */
  ghost predicate QueueOf(jobs: seq<Job>, queue: seq<Job>) {
    && |queue| == |jobs|
    && (forall k | 0 <= k < |queue| :: 0 <= queue[k].index < |jobs| && queue[k] == jobs[queue[k].index])
    && (forall j, k | 0 <= j < k < |queue| :: queue[j].index != queue[k].index)
    && (forall i | 0 <= i < |jobs| :: Queued(queue, i))
  }

  /** Run times of the first n jobs that are in s. */
  ghost function RunTimeOf(jobs: seq<Job>, n: nat, s: set<int>): int
    requires n <= |jobs|
  {
    if n == 0 then 0 else RunTimeOf(jobs, n - 1, s) + if n - 1 in s then jobs[n - 1].runTime else 0
  }

  lemma {:induction false} RunTimeAdd(jobs: seq<Job>, n: nat, s: set<int>, i: int)
    requires n <= |jobs| && i !in s && 0 <= i
    ensures RunTimeOf(jobs, n, s + {i}) == RunTimeOf(jobs, n, s) + if i < n then jobs[i].runTime else 0
  {
    if n > 0 { RunTimeAdd(jobs, n - 1, s, i); }
  }

  lemma {:induction false} RunTimeGrows(jobs: seq<Job>, n: nat, s: set<int>, t: set<int>)
    requires n <= |jobs| && s <= t && forall i | 0 <= i < n :: 0 <= jobs[i].runTime
    ensures RunTimeOf(jobs, n, s) <= RunTimeOf(jobs, n, t)
  {
    if n > 0 { RunTimeGrows(jobs, n - 1, s, t); }
  }

  lemma {:induction false} RunTimeAll(jobs: seq<Job>, n: nat, s: set<int>)
    requires n <= |jobs| && forall i | 0 <= i < n :: i in s
    ensures RunTimeOf(jobs, n, s) == TotalRunTime(jobs[..n])
  {
    if n > 0 {
      RunTimeAll(jobs, n - 1, s);
      assert jobs[..n][..n - 1] == jobs[..n - 1];
    }
  }

  lemma {:induction false} RunTimeNone(jobs: seq<Job>, n: nat)
    requires n <= |jobs|
    ensures RunTimeOf(jobs, n, {}) == 0
  {
    if n > 0 { RunTimeNone(jobs, n - 1); }
  }

  ghost function Indices(queue: seq<Job>, k: nat): set<int>
    requires k <= |queue|
  {
    set x | 0 <= x < k :: queue[x].index
  }

  lemma {:induction false} TotalByIndices(jobs: seq<Job>, queue: seq<Job>, k: nat)
    requires QueueOf(jobs, queue) && k <= |queue|
    ensures TotalRunTime(queue[..k]) == RunTimeOf(jobs, |jobs|, Indices(queue, k))
  {
    if k == 0 {
      assert Indices(queue, 0) == {};
      RunTimeNone(jobs, |jobs|);
    } else {
      var i := queue[k - 1].index;
      TotalByIndices(jobs, queue, k - 1);
      assert queue[..k][..k - 1] == queue[..k - 1];
      assert Indices(queue, k) == Indices(queue, k - 1) + {i};
      RunTimeAdd(jobs, |jobs|, Indices(queue, k - 1), i);
    }
  }

  /** Reordering the jobs does not change the sum of their run times. */
  lemma TotalPermuted(jobs: seq<Job>, queue: seq<Job>)
    requires QueueOf(jobs, queue)
    ensures TotalRunTime(queue) == TotalRunTime(jobs)
  {
    TotalByIndices(jobs, queue, |queue|);
    forall i | 0 <= i < |jobs| ensures i in Indices(queue, |queue|) { assert Queued(queue, i); }
    RunTimeAll(jobs, |jobs|, Indices(queue, |queue|));
    assert queue[..|queue|] == queue && jobs[..|jobs|] == jobs;
  }

  lemma {:induction false} TotalPrefix(queue: seq<Job>, k: nat)
    requires k <= |queue| && forall i | 0 <= i < |queue| :: 0 < queue[i].runTime
    ensures TotalRunTime(queue[..k]) <= TotalRunTime(queue)
    ensures k < |queue| ==> TotalRunTime(queue[..k]) + queue[k].runTime <= TotalRunTime(queue)
    decreases |queue|
  {
    if k == |queue| {
      assert queue[..k] == queue;
    } else {
      var init := queue[..|queue| - 1];
      TotalPrefix(init, k);
      assert init[..k] == queue[..k];
    }
  }

  lemma {:induction false} TotalSame(a: seq<Job>, b: seq<Job>)
    requires |a| == |b| && forall i | 0 <= i < |a| :: a[i].runTime == b[i].runTime
    ensures TotalRunTime(a) == TotalRunTime(b)
  {
    if a != [] {
      TotalSame(a[..|a| - 1], b[..|b| - 1]);
    }
  }
}
