/** Runs of the scheduler on given topics: they exist, and exactly which nodes respect their children in all
of them. */
module GraphRuns {
  import opened GraphBuild
  import opened GraphShape
  import opened ListScheduling
  import opened NodeLinks
  import opened PlanExistence
  import opened Sequences
  import opened Sets
  import opened SharedTopics
  import opened SortKeys
  import opened Timeline
  import opened TopicShapes
  import opened TopicWiring

  /** Topics on which no insertion closes a cycle have a graph. */
  lemma GraphExists(infos: seq<NodeInfo>) returns (g: Shape)
    requires Buildable(infos)
    ensures g.infos == infos && Good(g) && TopicsLinked(infos, g.links)
  {
    var n := |infos|;
    StartSound(n);
    BuildSound(infos, 0, 0, 0, 0, Start(n));
    var w0 := Built(infos).value;
    AttachConnects(n, w0);
    var w := AttachFrom(n, 0, w0).value;
    g := Shape(infos, w.links, w.rank);
    GraphLinked(infos, w0, w.links);
  }

  /** Every graph has laxities and a queue. */
  lemma PreparedExists(g: Shape) returns (lax: map<int, int>, queue: seq<Job>)
    requires Good(g)
    ensures Prepared(g, lax, queue)
  {
    var unset := map i | i in Ids(|g.infos|) :: -1;
    LaxityComputes(g, unset);
    lax := LaxityFrom(g, unset);
    queue := SortedQueue(Jobs(g.infos, lax));
  }

  lemma SortedQueue(jobs: seq<Job>) returns (queue: seq<Job>)
    requires forall i | 0 <= i < |jobs| :: jobs[i].index == i
    ensures QueueOf(jobs, queue) && LaxityOrdered(queue)
  {
    hide Sort, Sorted, QueueOf, LaxityOrdered;
    var keys := seq(|jobs|, i requires 0 <= i < |jobs| => KeyOf(jobs[i]));
    var sorted := Sort(keys);
    KeysPermuted(keys, sorted);
    queue := seq(|sorted|, k requires 0 <= k < |sorted| => jobs[sorted[k].index]);
    SortedIsQueue(jobs, keys, sorted, queue);
  }

  /** And on enough cores, a run. */
  lemma RunExists(g: Shape, lax: map<int, int>, queue: seq<Job>, n: nat) returns (plan: seq<Placement>)
    requires Good(g) && Prepared(g, lax, queue) && Runnable(g.infos, n)
    ensures Scheduled(g, lax, queue, n, plan)
  {
    QueueIsSchedulable(g.infos, lax, queue, n);
    plan := GreedyExists(queue, SeenChildren(g), n);
  }

  /** The i-th job of the queue starts no earlier than any node in its chain ends. */
  ghost predicate Respects(g: Shape, queue: seq<Job>, plan: seq<Placement>, i: nat)
    requires i < |queue| == |plan|
  {
    forall j | 0 <= j < |queue| && InChain(g.links, queue[i].index, queue[j].index) :: End(plan[j]) <= plan[i].start
  }

  /** A node with too long a chain starts at time 0, before all its children end, as soon as there is a core
  for every copy of it and of the nodes queued before it. */
  lemma UnseenStartsAtOnce(g: Shape, lax: map<int, int>, queue: seq<Job>, n: nat, plan: seq<Placement>, i: nat)
    requires Good(g) && Runnable(g.infos, n) && Scheduled(g, lax, queue, n, plan) && i < |queue|
    requires |ChainOf(g, queue[i].index)| >= 16
    requires AllCopies(queue[..i]) + Copies(queue[i]) <= n
    ensures plan[i].start == 0 && forall j | 0 <= j < |queue| :: 0 < End(plan[j])
  {
    hide Good, ChainOf, SeenChildren, QueueOf, LaxityComputed, LaxityOrdered, Runnable, Schedulable;
    UnseenChildren(g, queue[i].index);
    StartsAtOnce(queue, SeenChildren(g), n, plan, i);
    QueueIsSchedulable(g.infos, lax, queue, n);
    forall j | 0 <= j < |queue| ensures 0 < End(plan[j]) {
      EndsLater(queue, SeenChildren(g), n, plan, j);
    }
  }

  lemma UnseenChildren(g: Shape, x: int)
    requires Good(g) && (x in Ids(|g.infos|) ==> |ChainOf(g, x)| >= 16)
    ensures ChildrenOf(SeenChildren(g), x) == []
  {
  }

  lemma EndsLater(queue: seq<Job>, children: Children, n: nat, plan: seq<Placement>, j: nat)
    requires Schedulable(queue, n) && GreedyPlan(queue, children, n, plan) && j < |queue|
    ensures 0 < End(plan[j])
  {
    StartsNotNegative(queue, children, n, plan, j);
  }

  lemma RunnableOnAll(infos: seq<NodeInfo>, lax: map<int, int>, queue: seq<Job>)
    requires (forall i | 0 <= i < |infos| :: 0 < infos[i].runTime) && TotalRun(infos) < 0x7fff_ffff
    requires QueueOf(Jobs(infos, lax), queue) && queue != []
    ensures Runnable(infos, AllCopies(queue))
  {
    CopiesAmong(queue, 0);
    forall i | 0 <= i < |infos| ensures infos[i].core <= AllCopies(queue) {
      assert Queued(queue, i);
      var k :| 0 <= k < |queue| && queue[k].index == i;
      CopiesAmong(queue, k);
    }
  }

  /** Exactly which nodes respect their children in every run: those whose chain fits the array. */
  lemma PrecedenceIff(g: Shape, lax: map<int, int>, queue: seq<Job>, i: nat)
    requires Good(g) && PositiveRunTimes(g) && TotalRun(g.infos) < 0x7fff_ffff
    requires Prepared(g, lax, queue) && i < |queue|
    ensures (forall n: nat, plan: seq<Placement> | Runnable(g.infos, n) && Scheduled(g, lax, queue, n, plan) ::
               Respects(g, queue, plan, i))
      <==> |ChainOf(g, queue[i].index)| < 16
  {
    if |ChainOf(g, queue[i].index)| < 16 {
      forall n: nat, plan: seq<Placement> | Runnable(g.infos, n) && Scheduled(g, lax, queue, n, plan)
        ensures Respects(g, queue, plan, i)
      {
        forall j | 0 <= j < |queue| && InChain(g.links, queue[i].index, queue[j].index)
          ensures End(plan[j]) <= plan[i].start
        {
          RunPrecedence(g, lax, queue, n, plan, i, j);
        }
      }
    } else {
      var n, plan, j := Violation(g, lax, queue, i);
      assert !Respects(g, queue, plan, i);
    }
  }

  /** A run in which a node with too long a chain starts before a child of it ends. */
  lemma Violation(g: Shape, lax: map<int, int>, queue: seq<Job>, i: nat)
    returns (n: nat, plan: seq<Placement>, j: nat)
    requires Good(g) && PositiveRunTimes(g) && TotalRun(g.infos) < 0x7fff_ffff
    requires Prepared(g, lax, queue) && i < |queue| && |ChainOf(g, queue[i].index)| >= 16
    ensures Runnable(g.infos, n) && Scheduled(g, lax, queue, n, plan)
    ensures j < |queue| && InChain(g.links, queue[i].index, queue[j].index) && plan[i].start < End(plan[j])
  {
    n := AllCopies(queue);
    RunnableOnAll(g.infos, lax, queue);
    plan := RunExists(g, lax, queue, n);
    CopiesAmong(queue, i);
    var x := queue[i].index;
    var y := ChainOf(g, x)[0];
    ChainMembers(g.links, Ids(|g.infos|), g.rank, x, y);
    InChainBelow(g.links, Ids(|g.infos|), g.rank, x, y);
    RootInNoChain(g, x);
    j := QueuedAt(g, lax, queue, y);
    UnseenStartsAtOnce(g, lax, queue, n, plan, i);
  }

  // -------------------------------------------------------------------- witnesses

  /** One node that subscribes to the topic of k others. */
  function Star(k: nat): seq<NodeInfo> {
    [NodeInfo(1, 1, ["t"], [])] + seq(k, _ => NodeInfo(1, 1, [], ["t"]))
  }

  lemma StarMatch(k: nat, m: Pass)
    requires IsMatch(Star(k), m)
    ensures m.a == 0 < m.b <= k && m.i == m.j == 0
  {
  }

  lemma StarIsBuildable(k: nat)
    ensures Buildable(Star(k))
  {
    hide IsMatch, Star;
    forall m | IsMatch(Star(k), m) ensures m.a == 0 < m.b <= k && m.i == m.j == 0 {
      StarMatch(k, m);
    }
    StarSize(k);
    var level: seq<nat> := [1] + seq(k, _ => 0);
    assert Levelled(Star(k), level);
    SharedBuildableIff(Star(k));
  }

  lemma StarSize(k: nat)
    ensures |Star(k)| == k + 1
  {
  }

  lemma {:induction false} UnitTotal(queue: seq<Job>)
    requires forall i | 0 <= i < |queue| :: queue[i].runTime == 1
    ensures TotalRunTime(queue) == |queue|
  {
    if queue != [] {
      UnitTotal(queue[..|queue| - 1]);
    }
  }

  lemma {:induction false} MembersFit<T>(s: seq<T>, t: set<T>)
    requires forall x | x in t :: x in s
    ensures |t| <= |s|
  {
    if s == [] {
      assert t == {};
    } else {
      MembersFit(s[1..], t - {s[0]});
      SubsetSize(t, (t - {s[0]}) + {s[0]});
    }
  }

  lemma {:induction false} DistinctFit<T>(s: seq<T>, t: set<T>)
    requires Distinct(s) && forall x | x in s :: x in t
    ensures |s| <= |t|
  {
    if s != [] {
      assert forall x | x in s[1..] :: x != s[0];
      DistinctFit(s[1..], t - {s[0]});
    }
  }

  lemma RangeSize(a: int, b: int)
    requires a <= b
    ensures |Range(a, b)| == b - a
    decreases b - a
  {
  }

  /** The subscriber's chain is its k publishers. */
  lemma StarChain(g: Shape, k: nat)
    requires g.infos == Star(k) && Good(g) && TopicsLinked(g.infos, g.links)
    ensures |ChainOf(g, 0)| == k
  {
    hide Connected, Star, ChainOf, TopicsLinked, InChain, Distinct;
    StarMembers(g, k);
    RangeSize(1, k + 1);
    MembersFit(ChainOf(g, 0), Range(1, k + 1));
    ChainDistinct(g, 0);
    DistinctFit(ChainOf(g, 0), Range(1, k + 1));
  }

  lemma StarMembers(g: Shape, k: nat)
    requires g.infos == Star(k) && Good(g) && TopicsLinked(g.infos, g.links)
    ensures |g.infos| == k + 1
    ensures forall b | b in Range(1, k + 1) :: b in ChainOf(g, 0)
    ensures forall x | x in ChainOf(g, 0) :: x in Range(1, k + 1)
  {
    hide Good, Connected, Star, ChainOf, TopicsLinked, InChain, Distinct;
    StarSize(k);
    forall b | b in Range(1, k + 1) ensures b in ChainOf(g, 0) {
      StarLinked(g, k, b);
      InOwnChain(g, 0, b);
    }
    forall x | x in ChainOf(g, 0) ensures x in Range(1, k + 1) {
      ChainNodes(g, 0, x);
    }
  }

  lemma StarLinked(g: Shape, k: nat, b: nat)
    requires g.infos == Star(k) && TopicsLinked(g.infos, g.links) && 1 <= b <= k
    ensures InChain(g.links, 0, b)
  {
    assert g.infos[0].subTopics[0] == g.infos[b].pubTopics[0];
  }

  lemma ChainDistinct(g: Shape, x: int)
    requires Good(g) && 0 <= x < |g.infos|
    ensures Distinct(ChainOf(g, x))
  {
    var c := ChainOf(g, x);
    forall i, j | 0 <= i < j < |c| ensures c[i] != c[j] {
      ChainFalls(g.links, Ids(|g.infos|), g.rank, g.links.child[x], i, j);
    }
  }

  lemma ChainNodes(g: Shape, x: int, y: int)
    requires Good(g) && 0 <= x < |g.infos| && y in ChainOf(g, x)
    ensures 0 <= y < |g.infos| && y != x && InChain(g.links, x, y)
  {
    ChainMembers(g.links, Ids(|g.infos|), g.rank, x, y);
    InChainBelow(g.links, Ids(|g.infos|), g.rank, x, y);
    RootInNoChain(g, x);
  }

  lemma InOwnChain(g: Shape, x: int, y: int)
    requires Good(g) && 0 <= x < |g.infos| && InChain(g.links, x, y)
    ensures y in ChainOf(g, x)
  {
    ChainMembers(g.links, Ids(|g.infos|), g.rank, x, y);
  }

  lemma StarRuns(g: Shape, k: nat)
    requires g.infos == Star(k)
    ensures |g.infos| == k + 1 && PositiveRunTimes(g) && TotalRun(g.infos) == k + 1
  {
    UnitTotal(Jobs(Star(k), map[]));
  }

  /** The subscriber respects its publishers in every run if there are at most fifteen, and only then. */
  lemma StarIff(g: Shape, k: nat, lax: map<int, int>, queue: seq<Job>, i: nat)
    requires g.infos == Star(k) && k < 0x7fff_fffe && Good(g) && TopicsLinked(g.infos, g.links)
    requires Prepared(g, lax, queue) && i < |queue| && queue[i].index == 0
    ensures (forall n: nat, plan: seq<Placement> | Runnable(g.infos, n) && Scheduled(g, lax, queue, n, plan) ::
               Respects(g, queue, plan, i))
      <==> k <= 15
  {
    hide Good, TopicsLinked, Prepared, Scheduled, ChainOf, TotalRun, Star, PositiveRunTimes, Respects;
    StarChain(g, k);
    StarRuns(g, k);
    PrecedenceIff(g, lax, queue, i);
  }

  /** Sixteen children are one too many: a run on which the subscriber starts before a publisher ends. */
  lemma SixteenChildren() returns (g: Shape, lax: map<int, int>, queue: seq<Job>, n: nat, plan: seq<Placement>,
                                   i: nat, j: nat)
    ensures g.infos == Star(16) && Good(g) && TopicsLinked(g.infos, g.links)
    ensures Runnable(g.infos, n) && Scheduled(g, lax, queue, n, plan)
    ensures i < |queue| && j < |queue| && queue[i].index == 0 && InChain(g.links, 0, queue[j].index)
    ensures plan[i].start < End(plan[j])
  {
    hide Good, TopicsLinked, Prepared, Scheduled, ChainOf, TotalRun, Star, PositiveRunTimes;
    StarIsBuildable(16);
    g := GraphExists(Star(16));
    lax, queue := PreparedExists(g);
    StarChain(g, 16);
    StarRuns(g, 16);
    i := QueuedAt(g, lax, queue, 0);
    n, plan, j := Violation(g, lax, queue, i);
  }

  /** Fifteen are not: on every run the subscriber starts after all other nodes have ended. */
  lemma FifteenChildren() returns (g: Shape, lax: map<int, int>, queue: seq<Job>, i: nat)
    ensures g.infos == Star(15) && Good(g) && TopicsLinked(g.infos, g.links) && Prepared(g, lax, queue)
    ensures i < |queue| == 16 && queue[i].index == 0
    ensures exists plan: seq<Placement> :: Scheduled(g, lax, queue, 1, plan)
    ensures forall n: nat, plan: seq<Placement> | Scheduled(g, lax, queue, n, plan) :: LastOf(queue, plan, i)
  {
    hide Good, TopicsLinked, Prepared, Scheduled, Star, LastOf;
    StarIsBuildable(15);
    g := GraphExists(Star(15));
    lax, queue := PreparedExists(g);
    StarSize(15);
    i := QueuedAt(g, lax, queue, 0);
    StarQueue(g, 15, lax, queue, i);
    StarRunsOnOne(g, lax, queue);
    AlwaysLast(g, lax, queue, i);
  }

  lemma StarRunsOnOne(g: Shape, lax: map<int, int>, queue: seq<Job>)
    requires g.infos == Star(15) && Good(g) && Prepared(g, lax, queue)
    ensures exists plan: seq<Placement> :: Scheduled(g, lax, queue, 1, plan)
  {
    hide Good, Prepared, Scheduled, Star;
    StarRunnable(15);
    var plan := RunExists(g, lax, queue, 1);
  }

  /** The i-th job of the queue starts after all others have ended. */
  ghost predicate LastOf(queue: seq<Job>, plan: seq<Placement>, i: nat) {
    i < |queue| == |plan| && forall j | 0 <= j < |queue| && j != i :: End(plan[j]) <= plan[i].start
  }

  lemma AlwaysLast(g: Shape, lax: map<int, int>, queue: seq<Job>, i: nat)
    requires g.infos == Star(15) && Good(g) && TopicsLinked(g.infos, g.links)
    requires i < |queue| && queue[i].index == 0
    ensures forall n: nat, plan: seq<Placement> | Scheduled(g, lax, queue, n, plan) :: LastOf(queue, plan, i)
  {
    hide *;
    forall n: nat, plan: seq<Placement> | Scheduled(g, lax, queue, n, plan) ensures LastOf(queue, plan, i) {
      FifteenLast(g, lax, queue, n, plan, i);
    }
  }

  lemma FifteenLast(g: Shape, lax: map<int, int>, queue: seq<Job>, n: nat, plan: seq<Placement>, i: nat)
    requires g.infos == Star(15) && Good(g) && TopicsLinked(g.infos, g.links)
    requires Scheduled(g, lax, queue, n, plan) && i < |queue| && queue[i].index == 0
    ensures LastOf(queue, plan, i)
  {
    hide Good, TopicsLinked, Prepared, ChainOf, Star, PositiveRunTimes, GreedyStep;
    StarChain(g, 15);
    StarRuns(g, 15);
    StarQueue(g, 15, lax, queue, i);
    forall j | 0 <= j < |queue| && j != i ensures End(plan[j]) <= plan[i].start {
      StarLinked(g, 15, queue[j].index);
      RunPrecedence(g, lax, queue, n, plan, i, j);
    }
  }

  lemma StarQueue(g: Shape, k: nat, lax: map<int, int>, queue: seq<Job>, i: nat)
    requires g.infos == Star(k) && Prepared(g, lax, queue) && i < |queue| && queue[i].index == 0
    ensures |queue| == k + 1
    ensures forall j | 0 <= j < |queue| && j != i :: 1 <= queue[j].index <= k
  {
    hide Star, LaxityOrdered, LaxityComputed;
    StarSize(k);
    forall j | 0 <= j < |queue| && j != i ensures 1 <= queue[j].index <= k {
      assert 0 <= queue[j].index < k + 1;
    }
  }

  lemma StarRunnable(k: nat)
    requires k < 0x7fff_fffe
    ensures Runnable(Star(k), 1)
  {
    UnitTotal(Jobs(Star(k), map[]));
  }

  /** A subscriber and a publisher that takes no time. */
  function Instant(): seq<NodeInfo> {
    [NodeInfo(1, 5, ["t"], []), NodeInfo(1, 0, [], ["t"])]
  }

  lemma InstantMatch(m: Pass)
    requires IsMatch(Instant(), m)
    ensures m == Pass(0, 1, 0, 0)
  {
  }

  lemma InstantIsBuildable()
    ensures Buildable(Instant())
  {
    hide IsMatch, Levelled, Buildable;
    forall m | IsMatch(Instant(), m) ensures m == Pass(0, 1, 0, 0) {
      InstantMatch(m);
    }
    InstantLevels([1, 0]);
    SharedBuildableIff(Instant());
  }

  lemma InstantLevels(level: seq<nat>)
    requires level == [1, 0]
    ensures Levelled(Instant(), level)
  {
    hide IsMatch;
    forall m | IsMatch(Instant(), m) ensures m == Pass(0, 1, 0, 0) {
      InstantMatch(m);
    }
  }

  lemma InstantLinked(g: Shape)
    requires g.infos == Instant() && TopicsLinked(g.infos, g.links)
    ensures InChain(g.links, 0, 1)
  {
    assert g.infos[0].subTopics[0] == g.infos[1].pubTopics[0];
  }

  /** Then the child has no longer path than its parent, and is sorted behind it. */
  lemma InstantChild() returns (g: Shape, lax: map<int, int>, queue: seq<Job>, i: nat, j: nat)
    ensures g.infos == Instant() && Good(g) && InChain(g.links, 0, 1) && Prepared(g, lax, queue)
    ensures i < j < |queue| && queue[i].index == 0 && queue[j].index == 1
  {
    hide Good, TopicsLinked, InChain, Prepared, Buildable;
    InstantIsBuildable();
    g := GraphExists(Instant());
    InstantLinked(g);
    lax, queue := PreparedExists(g);
    i := QueuedAt(g, lax, queue, 0);
    j := QueuedAt(g, lax, queue, 1);
    InstantOrder(g, lax, queue, i, j);
  }

  lemma InstantOrder(g: Shape, lax: map<int, int>, queue: seq<Job>, i: nat, j: nat)
    requires g.infos == Instant() && Good(g) && InChain(g.links, 0, 1) && Prepared(g, lax, queue)
    requires i < |queue| && j < |queue| && queue[i].index == 0 && queue[j].index == 1
    ensures i < j
  {
    hide Good, InChain, LaxityComputed;
    InstantLaxity(g, lax);
    assert Before(KeyOf(queue[i]), KeyOf(queue[j]));
  }

  lemma InstantLaxity(g: Shape, lax: map<int, int>)
    requires g.infos == Instant() && Good(g) && InChain(g.links, 0, 1) && LaxityComputed(g, lax)
    ensures 0 in lax && 1 in lax && lax[1] == lax[0]
  {
    hide Computed;
    var run := RunTimes(g.infos);
    InChainBelow(g.links, Ids(2), g.rank, 0, 1);
    ChildLaxity(g.links, run, ROOT_INDEX, lax, 0, 1);
    InstantParent(g, lax, 0);
    InstantParent(g, lax, 1);
  }

  /** A node's laxity is its run time or also that of the other node, if that is its parent. */
  lemma InstantParent(g: Shape, lax: map<int, int>, y: int)
    requires g.infos == Instant() && Good(g) && InChain(g.links, 0, 1) && LaxityComputed(g, lax) && 0 <= y < 2
    ensures 0 in lax && 1 in lax
    ensures y == 0 ==> lax[0] == 5
    ensures y == 1 ==> lax[1] == 0 || lax[1] == lax[0]
  {
    hide Good, Reaches, InChain, Computed;
    LaxityKeys(g, lax);
    var p := ParentOf(g, lax, y);
    var above := ParentRank(g, p, y);
    var below := ParentRank(g, 0, 1);
  }

  lemma ParentOf(g: Shape, lax: map<int, int>, y: int) returns (p: int)
    requires g.infos == Instant() && Good(g) && LaxityComputed(g, lax) && 0 <= y < 2
    ensures p in Ids(2) && p in lax && y in lax && InChain(g.links, p, y)
    ensures lax[y] == (if p == ROOT_INDEX then 0 else lax[p]) + Instant()[y].runTime
  {
    hide InChain, Computed, Ranked;
    LaxityKeys(g, lax);
    Reached(g, y);
    p := LaxityHandedDown(g.links, Ids(2), g.rank, RunTimes(g.infos), ROOT_INDEX, lax, y);
  }

  lemma ParentRank(g: Shape, p: int, y: int) returns (rank: map<int, nat>)
    requires Good(g) && InChain(g.links, p, y)
    ensures rank == g.rank && p in rank && y in rank && rank[y] < rank[p]
  {
    InChainBelow(g.links, Ids(|g.infos|), g.rank, p, y);
    rank := g.rank;
  }
}
