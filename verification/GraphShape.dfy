/** The node graph as the scheduler depends on it, as a value: the nodes' data, the pointers, and
ranks that show them acyclic.  Laxity order and the laxities themselves are related to the
children the scheduler sees here. */
module GraphShape {
  import opened GraphBuild
  import opened LeafSearch
  import opened ListScheduling
  import opened NodeLinks
  import opened Options
  import opened Sequences
  import opened Sets
  import opened SortKeys
  import opened Timeline
  import opened TopicWiring

  /** Size of the array `sched_child_list` fills. */
  const CHILD_SIZE: nat := 16

  datatype Shape = Shape(infos: seq<NodeInfo>, links: Links<int>, rank: map<int, nat>)

  ghost function RunTimes(infos: seq<NodeInfo>): map<int, int> {
    map i | i in Ids(|infos|) :: if i == ROOT_INDEX then -1 else infos[i].runTime
  }

  /** Pointers are acyclic and the root, in no chain, reaches every node. */
  ghost predicate Connected(g: Links<int>, ns: set<int>, rank: map<int, nat>) {
    && Ranked(g, ns, rank)
    && ROOT_INDEX in ns && ROOT_INDEX !in g.next
    && (forall x | x in ns :: Reaches(g, ROOT_INDEX, x))
  }

  /** Every publisher is in the chain of every subscriber to one of its topics. */
  ghost predicate TopicsLinked(infos: seq<NodeInfo>, g: Links<int>) {
    forall a, b, i, j | 0 <= a < |infos| && 0 <= b < |infos| &&
                        0 <= i < |infos[a].subTopics| && 0 <= j < |infos[b].pubTopics| &&
                        infos[a].subTopics[i] == infos[b].pubTopics[j] ::
      InChain(g, a, b)
  }

  /** The pointers built from the topics, and whatever extends them, link all publishers. */
  lemma GraphLinked(infos: seq<NodeInfo>, end: Wiring, g: Links<int>)
    requires Built(infos) == Some(end) && Extends(end.links, g)
    ensures TopicsLinked(infos, g)
  {
    StartSound(|infos|);
    forall a, b, i, j | 0 <= a < |infos| && 0 <= b < |infos| &&
                        0 <= i < |infos[a].subTopics| && 0 <= j < |infos[b].pubTopics| &&
                        infos[a].subTopics[i] == infos[b].pubTopics[j]
      ensures InChain(g, a, b)
    {
      BuildChains(infos, 0, 0, 0, 0, Start(|infos|), a, b, i, j);
      ChainKept(end.links, g, a, b);
    }
  }

  ghost predicate Good(g: Shape) {
    Connected(g.links, Ids(|g.infos|), g.rank)
  }

  ghost predicate PositiveRunTimes(g: Shape) {
    forall i | 0 <= i < |g.infos| :: 0 < g.infos[i].runTime
  }

  /** The indices of the children of a node. */
  ghost function ChainOf(g: Shape, x: int): seq<int>
    requires Good(g) && x in Ids(|g.infos|)
  {
    Chain(g.links, Ids(|g.infos|), g.rank, x)
  }

  /** The children `sched_child_list` reports: all of them when they fit its array together with
  the null that ends it, none otherwise. */
  ghost function VisibleChildren(g: Shape, x: int): seq<int>
    requires Good(g) && x in Ids(|g.infos|)
  {
    if |ChainOf(g, x)| < CHILD_SIZE then ChainOf(g, x) else []
  }

  ghost function SeenChildren(g: Shape): Children
    requires Good(g)
  {
    map i | 0 <= i < |g.infos| :: VisibleChildren(g, i)
  }

  ghost predicate AllSeen(g: Shape)
    requires Good(g)
  {
    forall i | 0 <= i < |g.infos| :: |ChainOf(g, i)| < 16
  }

  /** Every laxity is the longest path from the root. */
  ghost predicate LaxityComputed(g: Shape, lax: map<int, int>) {
    Computed(g.links, RunTimes(g.infos), ROOT_INDEX, lax)
  }

  /** The laxities the search from the root leaves. */
  ghost function LaxityFrom(g: Shape, lax: map<int, int>): map<int, int>
    requires Good(g) && lax.Keys == Ids(|g.infos|)
  {
    Search(g.links, Ids(|g.infos|), g.rank, RunTimes(g.infos), ROOT_INDEX, 0, lax)
  }

  /** From unset laxities the search computes longest paths; repeating it changes nothing. */
  lemma LaxityComputes(g: Shape, lax: map<int, int>)
    requires Good(g) && lax.Keys == Ids(|g.infos|)
    requires LaxityComputed(g, lax) || forall i | i in lax :: lax[i] == -1
    ensures LaxityComputed(g, LaxityFrom(g, lax))
    ensures LaxityComputed(g, lax) ==> LaxityFrom(g, lax) == lax
  {
    SearchFromRoot(g.links, Ids(|g.infos|), g.rank, RunTimes(g.infos), ROOT_INDEX, lax);
  }

  /** Copies of all nodes, by index. */
  ghost function Jobs(infos: seq<NodeInfo>, lax: map<int, int>): (jobs: seq<Job>)
    ensures |jobs| == |infos|
    ensures forall i | 0 <= i < |infos| :: jobs[i].index == i && jobs[i].runTime == infos[i].runTime
  {
    seq(|infos|, i requires 0 <= i < |infos| =>
      Job(i, infos[i].core, infos[i].runTime, if i in lax then lax[i] else -1))
  }

  /** The sum of all run times; laxities do not matter for it. */
  ghost function TotalRun(infos: seq<NodeInfo>): int { TotalRunTime(Jobs(infos, map[])) }

  function KeyOf(j: Job): SortKey { SortKey(j.index, j.invLaxity, j.runTime) }

  /** Laxity order: inverse laxities never rise, nor do run times among jobs of the same one. */
  ghost predicate LaxityOrdered(queue: seq<Job>) {
    forall i, j | 0 <= i < j < |queue| ::
      && queue[i].invLaxity >= queue[j].invLaxity
      && (queue[i].invLaxity == queue[j].invLaxity ==> queue[i].runTime >= queue[j].runTime)
  }

  lemma QueueSorted(jobs: seq<Job>, sorted: seq<SortKey>, queue: seq<Job>)
    requires |sorted| == |jobs| == |queue| && Sorted(sorted)
    requires forall i | 0 <= i < |jobs| :: jobs[i].index == i
    requires forall k | 0 <= k < |sorted| :: 0 <= sorted[k].index < |jobs| && sorted[k] == KeyOf(jobs[sorted[k].index])
    requires forall j, k | 0 <= j < k < |sorted| :: sorted[j].index != sorted[k].index
    requires forall i | 0 <= i < |jobs| :: KeyOf(jobs[i]) in sorted
    requires forall k | 0 <= k < |queue| :: queue[k] == jobs[sorted[k].index]
    ensures QueueOf(jobs, queue) && LaxityOrdered(queue)
  {
    forall k | 0 <= k < |queue| ensures KeyOf(queue[k]) == sorted[k] {}
    forall i | 0 <= i < |jobs| ensures Queued(queue, i) {
      var k :| 0 <= k < |sorted| && sorted[k] == KeyOf(jobs[i]);
      assert queue[k].index == i;
    }
  }

  /** So sorting the keys and looking the jobs up again makes a queue. */
  lemma SortedIsQueue(jobs: seq<Job>, keys: seq<SortKey>, sorted: seq<SortKey>, queue: seq<Job>)
    requires forall i | 0 <= i < |jobs| :: jobs[i].index == i
    requires |keys| == |jobs| && forall i | 0 <= i < |jobs| :: keys[i] == KeyOf(jobs[i])
    requires Sorted(sorted) && multiset(sorted) == multiset(keys) && |queue| == |sorted|
    requires forall k | 0 <= k < |sorted| :: 0 <= sorted[k].index < |jobs|
    requires forall k | 0 <= k < |sorted| :: queue[k] == jobs[sorted[k].index]
    ensures QueueOf(jobs, queue) && LaxityOrdered(queue)
  {
    hide Sorted, QueueOf, LaxityOrdered;
    KeysPermuted(keys, sorted);
    forall i | 0 <= i < |jobs| ensures KeyOf(jobs[i]) in sorted {
      assert keys[i] == KeyOf(jobs[i]);
    }
    QueueSorted(jobs, sorted, queue);
  }

  // -------------------------------------------------------------- children seen

  lemma RootInNoChain(g: Shape, x: int)
    requires Good(g)
    ensures !InChain(g.links, x, ROOT_INDEX)
  {
    if InChain(g.links, x, ROOT_INDEX) {
      InChainBelow(g.links, Ids(|g.infos|), g.rank, x, ROOT_INDEX);
      var w: Walk :| EndOf(g.links, ROOT_INDEX, w) == Some(x);
      WalkStays(g.links, Ids(|g.infos|), g.rank, ROOT_INDEX, w);
    }
  }

  lemma ChildrenAreNodes(g: Shape, x: int)
    requires Good(g) && 0 <= x < |g.infos|
    ensures forall k | k in ChildrenOf(SeenChildren(g), x) :: 0 <= k < |g.infos| && InChain(g.links, x, k)
  {
    forall k | k in ChainOf(g, x) ensures 0 <= k < |g.infos| && InChain(g.links, x, k) {
      ChainMembers(g.links, Ids(|g.infos|), g.rank, x, k);
      InChainBelow(g.links, Ids(|g.infos|), g.rank, x, k);
      RootInNoChain(g, x);
    }
  }

  /** A child in a chain that is not too long is seen. */
  lemma ChildSeen(g: Shape, x: int, y: int)
    requires Good(g) && 0 <= x < |g.infos| && InChain(g.links, x, y) && |ChainOf(g, x)| < 16
    ensures y in ChildrenOf(SeenChildren(g), x)
  {
    ChainMembers(g.links, Ids(|g.infos|), g.rank, x, y);
  }

  /** Why run times must be positive: a child is sorted before its parent exactly when the longest path to
  it is longer than its parent's, which a positive run time sees to. */
  lemma ChildBeforeIff(g: Shape, lax: map<int, int>, p: int, c: int)
    requires Good(g) && LaxityComputed(g, lax) && 0 <= p < |g.infos| && 0 <= c < |g.infos|
    requires g.infos[p].runTime >= 0 && g.infos[c].runTime >= 0 && InChain(g.links, p, c)
    ensures p in lax && c in lax
    ensures Before(KeyOf(Jobs(g.infos, lax)[c]), KeyOf(Jobs(g.infos, lax)[p])) <==> lax[c] > lax[p]
    ensures g.infos[c].runTime > 0 ==> lax[c] > lax[p]
  {
    hide Good, Computed, InChain, Reaches;
    LaxityKeys(g, lax);
    Reached(g, p);
    ChildLaxity(g.links, RunTimes(g.infos), ROOT_INDEX, lax, p, c);
  }

  lemma LaxityKeys(g: Shape, lax: map<int, int>)
    requires LaxityComputed(g, lax)
    ensures lax.Keys == Ids(|g.infos|)
  {
  }

  lemma Reached(g: Shape, x: int)
    requires Good(g) && x in Ids(|g.infos|)
    ensures Reaches(g.links, ROOT_INDEX, x)
  {
  }

  /** Children come before their parents in laxity order. */
  lemma LaxityPutsChildrenFirst(g: Shape, lax: map<int, int>, queue: seq<Job>)
    requires Good(g) && PositiveRunTimes(g) && LaxityComputed(g, lax)
    requires QueueOf(Jobs(g.infos, lax), queue) && LaxityOrdered(queue)
    ensures ChildrenFirst(queue, SeenChildren(g))
  {
    hide Good, PositiveRunTimes, LaxityComputed, QueueOf, LaxityOrdered, SeenChildren, Jobs;
    forall i, j | 0 <= i < |queue| && 0 <= j < |queue| && queue[j].index in ChildrenOf(SeenChildren(g), queue[i].index)
      ensures j < i
    {
      ChildFirst(g, lax, queue, i, j);
    }
  }

  lemma ChildFirst(g: Shape, lax: map<int, int>, queue: seq<Job>, i: nat, j: nat)
    requires Good(g) && PositiveRunTimes(g) && LaxityComputed(g, lax)
    requires QueueOf(Jobs(g.infos, lax), queue) && LaxityOrdered(queue)
    requires i < |queue| && j < |queue| && queue[j].index in ChildrenOf(SeenChildren(g), queue[i].index)
    ensures j < i
  {
    hide Good, LaxityComputed, SeenChildren, ChildrenFirst;
    var p, c := queue[i].index, queue[j].index;
    ChildrenAreNodes(g, p);
    ChildBeforeIff(g, lax, p, c);
    assert Before(KeyOf(queue[j]), KeyOf(queue[i]));
  }

  /** The nodes ranked no higher than x. */
  ghost function RankedTo(g: Shape, x: int): set<int>
    requires Good(g) && x in Ids(|g.infos|)
  {
    set z | 0 <= z < |g.infos| && g.rank[z] <= g.rank[x]
  }

  ghost predicate NoNegativeRunTimes(infos: seq<NodeInfo>) {
    forall i | 0 <= i < |infos| :: 0 <= infos[i].runTime
  }

  /** A walk adds up run times of nodes it never comes back to. */
  lemma {:induction false} LoadRankedTo(g: Shape, x: int, w: Walk)
    requires Good(g) && NoNegativeRunTimes(g.infos) && x in Ids(|g.infos|) && EndOf(g.links, x, w).Some?
    ensures var run := RunTimes(g.infos);
      && EndOf(g.links, x, w).value in run
      && Load(g.links, run, x, w) + Cost(run[EndOf(g.links, x, w).value])
         <= RunTimeOf(Jobs(g.infos, map[]), |g.infos|, RankedTo(g, x))
    decreases |w|
  {
    hide Reaches;
    var jobs, n := Jobs(g.infos, map[]), |g.infos|;
    if w == [] {
      RunTimeWithin(g, x, {});
    } else {
      var y := Target(g.links, x, w[0]).value;
      LoadRankedTo(g, y, w[1..]);
      RunTimeWithin(g, x, RankedTo(g, y));
    }
  }

  lemma RunTimeWithin(g: Shape, x: int, s: set<int>)
    requires Good(g) && NoNegativeRunTimes(g.infos) && x in Ids(|g.infos|)
    requires s <= RankedTo(g, x) && x !in s
    ensures var jobs := Jobs(g.infos, map[]);
      && 0 <= RunTimeOf(jobs, |g.infos|, s)
      && RunTimeOf(jobs, |g.infos|, s) + Cost(RunTimes(g.infos)[x]) <= RunTimeOf(jobs, |g.infos|, RankedTo(g, x))
  {
    hide Connected;
    var jobs, n := Jobs(g.infos, map[]), |g.infos|;
    RunTimeNone(jobs, n);
    RunTimeGrows(jobs, n, {}, s);
    if x == ROOT_INDEX {
      RunTimeGrows(jobs, n, s, RankedTo(g, x));
    } else {
      RunTimeAdd(jobs, n, s, x);
      RunTimeGrows(jobs, n, s + {x}, RankedTo(g, x));
    }
  }

  /** The accumulator of the laxity search, with the run time of the node it has come to, is never more than
  the sum of all run times. */
  lemma LoadFits(g: Shape, w: Walk)
    requires Good(g) && NoNegativeRunTimes(g.infos) && EndOf(g.links, ROOT_INDEX, w).Some?
    ensures var run, y := RunTimes(g.infos), EndOf(g.links, ROOT_INDEX, w).value;
      && y in run && 0 <= Load(g.links, run, ROOT_INDEX, w)
      && Load(g.links, run, ROOT_INDEX, w) + Cost(run[y]) <= TotalRun(g.infos)
  {
    hide Connected;
    var jobs, n := Jobs(g.infos, map[]), |g.infos|;
    LoadNotNegative(g.links, RunTimes(g.infos), ROOT_INDEX, w);
    LoadRankedTo(g, ROOT_INDEX, w);
    RunTimeGrows(jobs, n, RankedTo(g, ROOT_INDEX), Range(0, n));
    RunTimeAll(jobs, n, Range(0, n));
    assert jobs[..n] == jobs;
  }

  /** So is every laxity. */
  lemma LaxityFits(g: Shape, lax: map<int, int>, y: int)
    requires Good(g) && NoNegativeRunTimes(g.infos) && LaxityComputed(g, lax) && y in Ids(|g.infos|)
    ensures y in lax && -1 <= lax[y] <= TotalRun(g.infos)
  {
    hide Good, TotalRun;
    LoadFits(g, []);
    if lax[y] != -1 {
      var w: Walk :| Totals(g.links, RunTimes(g.infos), ROOT_INDEX, 0, w, y, lax[y]);
      LoadFits(g, w);
    }
  }

  /** When every chain is seen, laxities are handed down along the children the scheduler sees. */
  lemma LaxityIsWitnessed(g: Shape, lax: map<int, int>, queue: seq<Job>)
    requires Good(g) && PositiveRunTimes(g) && LaxityComputed(g, lax) && AllSeen(g)
    requires QueueOf(Jobs(g.infos, lax), queue)
    ensures LaxityWitnessed(queue, SeenChildren(g))
  {
    hide Good, PositiveRunTimes, LaxityComputed, AllSeen, QueueOf, SeenChildren;
    forall j | 0 <= j < |queue|
      ensures queue[j].invLaxity <= queue[j].runTime ||
              exists i :: 0 <= i < |queue| && queue[j].index in ChildrenOf(SeenChildren(g), queue[i].index) &&
                          queue[j].invLaxity <= queue[i].invLaxity + queue[j].runTime
    {
      var i := Witness(g, lax, queue, j);
    }
  }

  lemma Witness(g: Shape, lax: map<int, int>, queue: seq<Job>, j: nat) returns (i: int)
    requires Good(g) && PositiveRunTimes(g) && LaxityComputed(g, lax) && AllSeen(g)
    requires QueueOf(Jobs(g.infos, lax), queue) && j < |queue|
    ensures queue[j].invLaxity <= queue[j].runTime
         || (0 <= i < |queue| && queue[j].index in ChildrenOf(SeenChildren(g), queue[i].index)
             && queue[j].invLaxity <= queue[i].invLaxity + queue[j].runTime)
  {
    hide Ranked, Reaches, Computed, InChain, SeenChildren, ChainOf;
    var y := queue[j].index;
    i := 0;
    LaxityKeys(g, lax);
    Reached(g, y);
    var p := LaxityHandedDown(g.links, Ids(|g.infos|), g.rank, RunTimes(g.infos), ROOT_INDEX, lax, y);
    if p != ROOT_INDEX {
      ChildSeen(g, p, y);
      assert Queued(queue, p);
      i :| 0 <= i < |queue| && queue[i].index == p;
    }
  }

  ghost function LeavesOf(g: Shape): seq<int>
    requires Good(g)
  {
    Leaves(g.links, Ids(|g.infos|), g.rank, ROOT_INDEX, [])
  }

  /** The leaf search finds exactly the childless nodes, each once: all are reachable. */
  lemma LeavesAreChildless(g: Shape)
    requires Good(g)
    ensures Distinct(LeavesOf(g))
    ensures forall y :: y in LeavesOf(g) <==> y in Ids(|g.infos|) && y !in g.links.child
  {
    AllLeaves(g.links, Ids(|g.infos|), g.rank, ROOT_INDEX);
  }

  // -------------------------------------------------------------- the whole run

  /** What a run leaves: every node queued once in laxity order, and the greedy plan for the queue. */
  ghost predicate Scheduled(g: Shape, lax: map<int, int>, queue: seq<Job>, n: nat, plan: seq<Placement>)
    requires Good(g)
  {
    Prepared(g, lax, queue) && GreedyPlan(queue, SeenChildren(g), n, plan)
  }

  ghost predicate Prepared(g: Shape, lax: map<int, int>, queue: seq<Job>) {
    LaxityComputed(g, lax) && QueueOf(Jobs(g.infos, lax), queue) && LaxityOrdered(queue)
  }

  ghost predicate Runnable(infos: seq<NodeInfo>, n: nat) {
    && 0 < n && TotalRun(infos) < 0x7fff_ffff
    && forall i | 0 <= i < |infos| :: 0 < infos[i].runTime && infos[i].core <= n
  }

  lemma QueueIsSchedulable(infos: seq<NodeInfo>, lax: map<int, int>, queue: seq<Job>, n: nat)
    requires Runnable(infos, n) && QueueOf(Jobs(infos, lax), queue)
    ensures Schedulable(queue, n) && TotalRunTime(queue) == TotalRun(infos)
  {
    TotalPermuted(Jobs(infos, lax), queue);
    TotalSame(Jobs(infos, lax), Jobs(infos, map[]));
  }

  /** End-to-end precedence: no node starts before every node in its child chain has ended,
  provided the chain is short enough to be seen. */
  lemma RunPrecedence(g: Shape, lax: map<int, int>, queue: seq<Job>, n: nat, plan: seq<Placement>, i: nat, j: nat)
    requires Good(g) && PositiveRunTimes(g) && Scheduled(g, lax, queue, n, plan)
    requires i < |queue| && j < |queue| && InChain(g.links, queue[i].index, queue[j].index)
    requires |ChainOf(g, queue[i].index)| < 16
    ensures End(plan[j]) <= plan[i].start
  {
    LaxityPutsChildrenFirst(g, lax, queue);
    ChildSeen(g, queue[i].index, queue[j].index);
    Precedence(queue, SeenChildren(g), n, plan, i, j);
  }

  /** What the topics are for: a subscriber, unless its chain is too long, starts after every publisher of
  what it subscribes to has ended. */
  lemma SubscriberRunsLater(g: Shape, lax: map<int, int>, queue: seq<Job>, n: nat, plan: seq<Placement>,
                            a: nat, b: nat, i: nat, j: nat) returns (x: nat, y: nat)
    requires Good(g) && TopicsLinked(g.infos, g.links) && PositiveRunTimes(g) && Scheduled(g, lax, queue, n, plan)
    requires Matches(g.infos, a, b, i, j) && |ChainOf(g, a)| < 16
    ensures x < |plan| && plan[x].job.index == a && y < |plan| && plan[y].job.index == b
    ensures End(plan[y]) <= plan[x].start
  {
    hide Good, PositiveRunTimes, LaxityComputed, LaxityOrdered, GreedyStep, ChainOf;
    x := QueuedAt(g, lax, queue, a);
    y := QueuedAt(g, lax, queue, b);
    RunPrecedence(g, lax, queue, n, plan, x, y);
  }

  lemma QueuedAt(g: Shape, lax: map<int, int>, queue: seq<Job>, x: int) returns (i: nat)
    requires Prepared(g, lax, queue) && 0 <= x < |g.infos|
    ensures i < |queue| && queue[i].index == x
  {
    assert Queued(queue, x);
    i :| 0 <= i < |queue| && queue[i].index == x;
  }

  /** The makespan lies between the longest path and the sum of the run times, and all cores
  together have room for every copy of every node. */
  lemma RunMakespan(g: Shape, lax: map<int, int>, queue: seq<Job>, n: nat, plan: seq<Placement>)
    requires Good(g) && Runnable(g.infos, n) && Scheduled(g, lax, queue, n, plan)
    ensures Makespan(plan) <= TotalRun(g.infos) < INT_MAX
    ensures Area(plan) <= Makespan(plan) * n
    ensures AllSeen(g) ==> forall j | 0 <= j < |queue| :: queue[j].invLaxity <= Makespan(plan)
  {
    QueueIsSchedulable(g.infos, lax, queue, n);
    MakespanAtMostTotal(queue, SeenChildren(g), n, plan);
    AreaBound(queue, SeenChildren(g), n, plan);
    if AllSeen(g) {
      LaxityPutsChildrenFirst(g, lax, queue);
      LaxityIsWitnessed(g, lax, queue);
      forall j | 0 <= j < |queue| ensures queue[j].invLaxity <= Makespan(plan) {
        MakespanAtLeastLaxity(queue, SeenChildren(g), n, plan, j);
      }
    }
  }
}
