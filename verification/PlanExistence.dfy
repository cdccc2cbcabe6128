/** Greedy plans exist, and on many cores they start at once what waits for nothing. */
module PlanExistence {
  import opened ListScheduling
  import opened Sets
  import opened Timeline

  /** How many cores the jobs of a queue occupy in all. */
  ghost function AllCopies(queue: seq<Job>): nat {
    if queue == [] then 0 else AllCopies(queue[..|queue| - 1]) + Copies(queue[|queue| - 1])
  }

  lemma {:induction false} CopiesAdd(p: seq<Job>, q: seq<Job>)
    ensures AllCopies(p + q) == AllCopies(p) + AllCopies(q)
    decreases q
  {
    if q == [] {
      assert p + q == p;
    } else {
      assert (p + q)[..|p + q| - 1] == p + q[..|q| - 1];
      CopiesAdd(p, q[..|q| - 1]);
    }
  }

  lemma {:induction false} CopiesAmong(queue: seq<Job>, i: nat)
    requires i < |queue|
    ensures AllCopies(queue[..i]) + Copies(queue[i]) <= AllCopies(queue)
    decreases |queue|
  {
    var init := queue[..|queue| - 1];
    if i == |queue| - 1 {
    } else {
      CopiesAmong(init, i);
      assert init[..i] == queue[..i];
    }
  }

  ghost function CoresUsed(plan: seq<Placement>): set<nat> {
    if plan == [] then {} else CoresUsed(plan[..|plan| - 1]) + plan[|plan| - 1].cores
  }

  lemma {:induction false} CoresUsedHolds(plan: seq<Placement>, i: nat)
    requires i < |plan|
    ensures plan[i].cores <= CoresUsed(plan)
    decreases |plan|
  {
    if i < |plan| - 1 {
      CoresUsedHolds(plan[..|plan| - 1], i);
    }
  }

  lemma {:induction false} CoresUsedSize(queue: seq<Job>, children: Children, n: nat, plan: seq<Placement>)
    requires GreedyPlan(queue, children, n, plan)
    ensures |CoresUsed(plan)| <= AllCopies(queue)
    decreases |queue|
  {
    if plan != [] {
      var k := |plan| - 1;
      GreedyPrefix(queue, children, n, plan, k);
      CoresUsedSize(queue[..k], children, n, plan[..k]);
      assert GreedyStep(plan[..k], n, ChildrenOf(children, queue[k].index), plan[k]);
      UnionSize(CoresUsed(plan[..k]), plan[k].cores);
    }
  }

  lemma UnionSize<T>(a: set<T>, b: set<T>)
    ensures |a + b| <= |a| + |b|
  {
    assert a + b == a + (b - a);
    SubsetSize(b - a, b);
  }

  /** The cores nothing is placed on are free at any time. */
  lemma UnusedAreFree(plan: seq<Placement>, n: nat, t: int, r: int)
    ensures |FreeCores(plan, n, t, r)| >= n - |CoresUsed(plan)|
  {
    forall c | c in AllCores(n) - CoresUsed(plan) ensures c in FreeCores(plan, n, t, r) {
      forall i | 0 <= i < |plan| ensures c !in plan[i].cores {
        CoresUsedHolds(plan, i);
      }
    }
    var unused := AllCores(n) - CoresUsed(plan);
    SubsetSize(unused, FreeCores(plan, n, t, r));
    UnionSize(unused, CoresUsed(plan));
    SubsetSize(AllCores(n), unused + CoresUsed(plan));
  }

  /** With a core for every copy so far, a job that waits for no child starts at time 0. */
  lemma StartsAtOnce(queue: seq<Job>, children: Children, n: nat, plan: seq<Placement>, i: nat)
    requires GreedyPlan(queue, children, n, plan) && i < |queue|
    requires ChildrenOf(children, queue[i].index) == []
    requires AllCopies(queue[..i]) + Copies(queue[i]) <= n
    ensures plan[i].start == 0
  {
    GreedyPrefix(queue, children, n, plan, i);
    CoresUsedSize(queue[..i], children, n, plan[..i]);
    UnusedAreFree(plan[..i], n, 0, queue[i].runTime);
    ReadyIsLargest(plan[..i], []);
    assert GreedyStep(plan[..i], n, [], plan[i]);
  }

  // ------------------------------------------------------------------- existence

  lemma {:induction false} Subset<T>(s: set<T>, k: nat) returns (t: set<T>)
    requires k <= |s|
    ensures t <= s && |t| == k
    decreases |s|
  {
    if |s| == k {
      t := s;
    } else {
      var x :| x in s;
      t := Subset(s - {x}, k);
    }
  }

  /** Searching on from m, by the makespan at the latest enough cores are free. */
  lemma {:induction false} LeastStartExists(plan: seq<Placement>, n: nat, job: Job, m: int, t: int) returns (s: int)
    requires Copies(job) <= n && m <= t <= Makespan(plan)
    requires forall u | m <= u < t :: |FreeCores(plan, n, u, job.runTime)| < Copies(job)
    ensures LeastStart(plan, n, job, m, s) && s <= Makespan(plan)
    decreases Makespan(plan) - t
  {
    if |FreeCores(plan, n, t, job.runTime)| >= Copies(job) {
      s := t;
    } else {
      FreeFromMakespan(plan, n, Makespan(plan), job.runTime);
      s := LeastStartExists(plan, n, job, m, t + 1);
    }
  }

  lemma {:induction false} GreedyExists(queue: seq<Job>, children: Children, n: nat) returns (plan: seq<Placement>)
    requires Schedulable(queue, n) && TotalRunTime(queue) < INT_MAX
    ensures GreedyPlan(queue, children, n, plan)
    decreases |queue|
  {
    plan := [];
    if queue != [] {
      var k := |queue| - 1;
      var job, init := queue[k], queue[..k];
      plan := GreedyExists(init, children, n);
      MakespanAtMostTotal(init, children, n, plan);
      ReadyByMakespan(plan, ChildrenOf(children, job.index));
      var m := Ready(plan, ChildrenOf(children, job.index));
      var s := LeastStartExists(plan, n, job, m, m);
      var cores := Subset(FreeCores(plan, n, s, job.runTime), Copies(job));
      plan := GreedySnoc(init, job, children, n, plan, Placement(job, s, cores));
      assert init + [job] == queue;
    }
  }

  lemma GreedySnoc(queue: seq<Job>, job: Job, children: Children, n: nat, plan: seq<Placement>, p: Placement)
    returns (longer: seq<Placement>)
    requires GreedyPlan(queue, children, n, plan) && p.job == job
    requires GreedyStep(plan, n, ChildrenOf(children, job.index), p)
    ensures longer == plan + [p] && GreedyPlan(queue + [job], children, n, longer)
  {
    longer := plan + [p];
    forall i | 0 <= i < |longer|
      ensures longer[i].job == (queue + [job])[i]
      ensures GreedyStep(longer[..i], n, ChildrenOf(children, (queue + [job])[i].index), longer[i])
    {
      assert longer[..i] == if i < |plan| then plan[..i] else plan;
    }
  }
}
