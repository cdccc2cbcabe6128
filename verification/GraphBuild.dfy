/** `insert_child_node` on pointer structures: when it keeps them acyclic, what it does to chains,
and how attaching the parentless nodes to the root makes every node reachable. */
module GraphBuild {
  import opened NodeLinks
  import opened Options
  import opened Sets

  /** The node whose null pointer `insert_child_node` fills: the parent, or the last of its chain. */
  ghost function LinkSource<N>(g: Links<N>, ns: set<N>, rank: map<N, nat>, p: N): N
    requires Ranked(g, ns, rank) && p in ns
  {
    if p in g.child then
      var c := Chain(g, ns, rank, p);
      c[|c| - 1]
    else p
  }

  ghost function InsertChild<N>(g: Links<N>, ns: set<N>, rank: map<N, nat>, p: N, c: N): Links<N>
    requires Ranked(g, ns, rank) && p in ns
  {
    var src := LinkSource(g, ns, rank, p);
    if p in g.child then g.(next := g.next[src := c]) else g.(child := g.child[p := c])
  }

  lemma LinkSourceFree<N>(g: Links<N>, ns: set<N>, rank: map<N, nat>, p: N)
    requires Ranked(g, ns, rank) && p in ns
    ensures var src := LinkSource(g, ns, rank, p);
            && src in ns
            && Reaches(g, p, src)
            && (if p in g.child then src !in g.next && InChain(g, p, src) else src !in g.child)
  {
    if p in g.child {
      var c := Chain(g, ns, rank, p);
      var src := c[|c| - 1];
      ChainFromStep(g, ns, rank, g.child[p], |c| - 1);
      ChainMembers(g, ns, rank, p, src);
      var w: Walk :| AllAlong(w) && EndOf(g, g.child[p], w) == Some(src);
      assert Reaches(g, g.child[p], src);
      ReachesCases(g, p, src);
    } else {
      ReachesSelf(g, p);
    }
  }

  /** h has all pointers of g. */
  ghost predicate Extends<N>(g: Links<N>, h: Links<N>) {
    && (forall x | x in g.child :: x in h.child && h.child[x] == g.child[x])
    && (forall x | x in g.next :: x in h.next && h.next[x] == g.next[x])
  }

  lemma InsertExtends<N>(g: Links<N>, ns: set<N>, rank: map<N, nat>, p: N, c: N)
    requires Ranked(g, ns, rank) && p in ns
    ensures Extends(g, InsertChild(g, ns, rank, p, c))
  {
    LinkSourceFree(g, ns, rank, p);
  }

  lemma {:induction false} WalkKept<N>(g: Links<N>, h: Links<N>, x: N, w: Walk)
    requires Extends(g, h) && EndOf(g, x, w).Some?
    ensures EndOf(h, x, w) == EndOf(g, x, w)
    decreases |w|
  {
    if w != [] {
      assert Target(h, x, w[0]) == Target(g, x, w[0]);
      WalkKept(g, h, Target(g, x, w[0]).value, w[1..]);
    }
  }

  /** Chains only grow. */
  lemma ChainKept<N>(g: Links<N>, h: Links<N>, x: N, y: N)
    requires Extends(g, h) && InChain(g, x, y)
    ensures InChain(h, x, y)
  {
    var w: Walk :| AllAlong(w) && EndOf(g, g.child[x], w) == Some(y);
    WalkKept(g, h, g.child[x], w);
  }

  /** The child inserted is in its parent's chain. */
  lemma InsertedInChain<N>(g: Links<N>, ns: set<N>, rank: map<N, nat>, p: N, c: N)
    requires Ranked(g, ns, rank) && p in ns
    ensures InChain(InsertChild(g, ns, rank, p, c), p, c)
  {
    var h := InsertChild(g, ns, rank, p, c);
    LinkSourceFree(g, ns, rank, p);
    if p in g.child {
      var src := LinkSource(g, ns, rank, p);
      var w: Walk :| AllAlong(w) && EndOf(g, g.child[p], w) == Some(src);
      WalkKept(g, h, g.child[p], w);
      WalkOn(h, g.child[p], w, [Along]);
      assert EndOf(h, c, [Along][1..]) == Some(c);
      assert EndOf(h, src, [Along]) == Some(c);
      assert AllAlong(w + [Along]);
    } else {
      assert AllAlong([]) && EndOf(h, c, []) == Some(c);
    }
  }

  // ----------------------------------------------------------------- acyclicity

  /** Ranks after a safe insertion: everything that reaches the new pointer is lifted above what
  the pointer leads to. */
  ghost function Rerank<N>(g: Links<N>, ns: set<N>, rank: map<N, nat>, p: N, c: N): map<N, nat>
    requires Ranked(g, ns, rank) && p in ns && c in ns
  {
    map x | x in ns :: rank[x] + if Reaches(g, x, LinkSource(g, ns, rank, p)) then rank[c] + 1 else 0
  }

  lemma SafeInsert<N>(g: Links<N>, ns: set<N>, rank: map<N, nat>, p: N, c: N)
    requires Ranked(g, ns, rank) && p in ns && c in ns
    requires !Reaches(g, c, LinkSource(g, ns, rank, p))
    ensures Ranked(InsertChild(g, ns, rank, p, c), ns, Rerank(g, ns, rank, p, c))
  {
    var src := LinkSource(g, ns, rank, p);
    LinkSourceFree(g, ns, rank, p);
    ReachesSelf(g, src);
    forall x ensures Reaches(g, x, src) <==> src == x || (x in g.child && Reaches(g, g.child[x], src))
                                             || (x in g.next && Reaches(g, g.next[x], src))
    {
      ReachesCases(g, x, src);
    }
  }

  lemma UnsafeInsert<N>(g: Links<N>, ns: set<N>, rank: map<N, nat>, p: N, c: N, rank': map<N, nat>)
    requires Ranked(g, ns, rank) && p in ns && c in ns
    requires Reaches(g, c, LinkSource(g, ns, rank, p))
    ensures !Ranked(InsertChild(g, ns, rank, p, c), ns, rank')
  {
    var h := InsertChild(g, ns, rank, p, c);
    var src := LinkSource(g, ns, rank, p);
    if Ranked(h, ns, rank') {
      InsertExtends(g, ns, rank, p, c);
      LinkSourceFree(g, ns, rank, p);
      var w: Walk :| EndOf(g, c, w) == Some(src);
      WalkKept(g, h, c, w);
      var step := if p in g.child then Along else Down;
      assert Target(h, src, step) == Some(c);
      assert ([step] + w)[1..] == w;
      assert EndOf(h, src, [step] + w) == Some(src);
      WalkStays(h, ns, rank', src, [step] + w);
    }
  }

  /** `insert_child_node` keeps the structure acyclic exactly when the child does not already
  reach the node whose pointer is filled. */
  lemma InsertAcyclicIff<N>(g: Links<N>, ns: set<N>, rank: map<N, nat>, p: N, c: N)
    requires Ranked(g, ns, rank) && p in ns && c in ns
    ensures (exists rank' :: Ranked(InsertChild(g, ns, rank, p, c), ns, rank')) <==>
            !Reaches(g, c, LinkSource(g, ns, rank, p))
  {
    if !Reaches(g, c, LinkSource(g, ns, rank, p)) {
      SafeInsert(g, ns, rank, p, c);
    } else {
      forall rank' ensures !Ranked(InsertChild(g, ns, rank, p, c), ns, rank') {
        UnsafeInsert(g, ns, rank, p, c, rank');
      }
    }
  }

  /** Some walk along `next` leads from x to y. */
  ghost predicate Follows<N>(g: Links<N>, x: N, y: N) {
    exists w: Walk :: AllAlong(w) && EndOf(g, x, w) == Some(y)
  }

  lemma FollowsKept<N>(g: Links<N>, h: Links<N>, x: N, y: N)
    requires Extends(g, h) && Follows(g, x, y)
    ensures Follows(h, x, y)
  {
    var w: Walk :| AllAlong(w) && EndOf(g, x, w) == Some(y);
    WalkKept(g, h, x, w);
  }

  lemma FollowsOn<N>(g: Links<N>, x: N, y: N, z: N)
    requires Follows(g, x, y) && Follows(g, y, z)
    ensures Follows(g, x, z)
  {
    var u: Walk :| AllAlong(u) && EndOf(g, x, u) == Some(y);
    var v: Walk :| AllAlong(v) && EndOf(g, y, v) == Some(z);
    WalkOn(g, x, u, v);
    assert AllAlong(u + v);
  }

  /** Everything in a chain leads along to its last node. */
  lemma {:induction false} LeadsToLast<N>(g: Links<N>, ns: set<N>, rank: map<N, nat>, y: N, x: N)
    requires Ranked(g, ns, rank) && y in ns && x in ChainFrom(g, ns, rank, y)
    ensures var c := ChainFrom(g, ns, rank, y); Follows(g, x, c[|c| - 1])
    decreases rank[y]
  {
    if y in g.next {
      var z := g.next[y];
      LeadsToLast(g, ns, rank, z, if x == y then z else x);
      if x == y {
        assert EndOf(g, z, [Along][1..]) == Some(z);
        assert AllAlong([Along]) && EndOf(g, y, [Along]) == Some(z);
        FollowsOn(g, y, z, ChainFrom(g, ns, rank, z)[|ChainFrom(g, ns, rank, z)| - 1]);
      }
    } else {
      assert AllAlong([]) && EndOf(g, y, []) == Some(y);
    }
  }

  /** From any of its nodes on, a chain has the same end. */
  lemma {:induction false} ChainEnd<N>(g: Links<N>, ns: set<N>, rank: map<N, nat>, y: N, x: N)
    requires Ranked(g, ns, rank) && y in ns && x in ChainFrom(g, ns, rank, y)
    ensures x in ns
    ensures var c, d := ChainFrom(g, ns, rank, y), ChainFrom(g, ns, rank, x); c[|c| - 1] == d[|d| - 1]
    decreases rank[y]
  {
    if x != y {
      ChainEnd(g, ns, rank, g.next[y], x);
    }
  }

  /** Two chains that share a node have the same end. */
  lemma SharedSource<N>(g: Links<N>, ns: set<N>, rank: map<N, nat>, p: N, q: N, x: N)
    requires Ranked(g, ns, rank) && p in ns && q in ns && InChain(g, p, x) && InChain(g, q, x)
    ensures LinkSource(g, ns, rank, p) == LinkSource(g, ns, rank, q)
  {
    ChainMembers(g, ns, rank, p, x);
    ChainMembers(g, ns, rank, q, x);
    ChainEnd(g, ns, rank, g.child[p], x);
    ChainEnd(g, ns, rank, g.child[q], x);
  }

  /** Inserting a node that is in the parent's chain already closes a cycle. */
  lemma RepeatedChildLoops<N>(g: Links<N>, ns: set<N>, rank: map<N, nat>, p: N, c: N)
    requires Ranked(g, ns, rank) && p in ns && InChain(g, p, c)
    ensures Reaches(g, c, LinkSource(g, ns, rank, p))
  {
    ChainMembers(g, ns, rank, p, c);
    LeadsToLast(g, ns, rank, g.child[p], c);
  }

  /** The node inserted follows everything that was in the chain before. */
  lemma InsertedFollows<N>(g: Links<N>, ns: set<N>, rank: map<N, nat>, p: N, c: N, x: N)
    requires Ranked(g, ns, rank) && p in ns && InChain(g, p, x)
    ensures Follows(InsertChild(g, ns, rank, p, c), x, c)
  {
    var h, src := InsertChild(g, ns, rank, p, c), LinkSource(g, ns, rank, p);
    ChainMembers(g, ns, rank, p, x);
    LeadsToLast(g, ns, rank, g.child[p], x);
    InsertExtends(g, ns, rank, p, c);
    FollowsKept(g, h, x, src);
    assert EndOf(h, c, [Along][1..]) == Some(c);
    assert AllAlong([Along]) && EndOf(h, src, [Along]) == Some(c);
    FollowsOn(h, x, src, c);
  }

  // ---------------------------------------------------- first parents and the root

  const ROOT_INDEX: int := -10

  /** first gives the first recorded parent of every node that was inserted as a child. */
  ghost predicate Parented(g: Links<int>, first: map<int, int>) {
    ParentsHold(g, first) && TargetsRecorded(g, first)
  }

  ghost predicate ParentsHold(g: Links<int>, first: map<int, int>) {
    forall x | x in first :: first[x] != ROOT_INDEX && InChain(g, first[x], x)
  }

  ghost predicate TargetsRecorded(g: Links<int>, first: map<int, int>) {
    && (forall x | x in g.child :: x != ROOT_INDEX && g.child[x] in first)
    && (forall x | x in g.next :: x in first && g.next[x] in first)
    && ROOT_INDEX !in first
  }

  lemma InChainTarget(g: Links<int>, x: int, y: int)
    requires InChain(g, x, y)
    ensures y == g.child[x] || exists z :: z in g.next && g.next[z] == y
  {
    var w: Walk :| AllAlong(w) && EndOf(g, g.child[x], w) == Some(y);
    AlongTarget(g, g.child[x], w);
  }

  lemma {:induction false} AlongTarget(g: Links<int>, x: int, w: Walk)
    requires AllAlong(w) && EndOf(g, x, w).Some?
    ensures EndOf(g, x, w).value == x || exists z :: z in g.next && g.next[z] == EndOf(g, x, w).value
    decreases |w|
  {
    if w != [] {
      assert w[0] == Along;
      AlongTarget(g, g.next[x], w[1..]);
    }
  }

  function Record(first: map<int, int>, p: int, c: int): map<int, int> {
    if c in first then first else first[c := p]
  }

  lemma ParentedInsert(g: Links<int>, ns: set<int>, rank: map<int, nat>, first: map<int, int>, p: int, c: int)
    requires Ranked(g, ns, rank) && p in ns && c in ns && Parented(g, first)
    requires p != ROOT_INDEX && c != ROOT_INDEX
    ensures Parented(InsertChild(g, ns, rank, p, c), Record(first, p, c))
  {
    var h, first' := InsertChild(g, ns, rank, p, c), Record(first, p, c);
    assert ParentsHold(h, first') by {
      InsertExtends(g, ns, rank, p, c);
      InsertedInChain(g, ns, rank, p, c);
      forall x | x in first' ensures first'[x] != ROOT_INDEX && InChain(h, first'[x], x) {
        if x in first { ChainKept(g, h, first[x], x); }
      }
    }
    TargetsInsert(g, ns, rank, first, p, c);
  }

  lemma TargetsInsert(g: Links<int>, ns: set<int>, rank: map<int, nat>, first: map<int, int>, p: int, c: int)
    requires Ranked(g, ns, rank) && p in ns && c in ns && TargetsRecorded(g, first)
    requires p != ROOT_INDEX && c != ROOT_INDEX
    ensures TargetsRecorded(InsertChild(g, ns, rank, p, c), Record(first, p, c))
  {
    var src := LinkSource(g, ns, rank, p);
    if p in g.child {
      LinkSourceFree(g, ns, rank, p);
      InChainTarget(g, p, src);
      assert src in first;
    }
  }

  /** While the parentless nodes are attached to the root: the attached ones and the root have
  no pointer from the others, and the rest of the parentless nodes have no pointer at all. */
  ghost predicate Attached(g0: Links<int>, first: map<int, int>, g: Links<int>, done: set<int>) {
    && Extends(g0, g)
    && ROOT_INDEX in done && ROOT_INDEX !in g.next
    && (forall x | x in done && x != ROOT_INDEX :: InChain(g, ROOT_INDEX, x))
    && (ROOT_INDEX in g.child ==> g.child[ROOT_INDEX] in done)
    && (forall x | x in done && x in g.next :: g.next[x] in done)
    && (forall x | x !in done && x in g.child :: g.child[x] !in done)
    && (forall x | x !in done && x in g.next :: g.next[x] !in done)
    && (forall x | x in g.child :: g.child[x] in done || g.child[x] in first)
    && (forall x | x in g.next :: g.next[x] in done || g.next[x] in first)
    && (forall x | x in g.next :: x in done || x in first)
  }

  lemma AttachedStart(g: Links<int>, first: map<int, int>)
    requires Parented(g, first)
    ensures Attached(g, first, g, {ROOT_INDEX})
  {
  }

  lemma {:induction false} WalkOutside(g0: Links<int>, first: map<int, int>, g: Links<int>, done: set<int>, x: int, w: Walk)
    requires Attached(g0, first, g, done) && x !in done && EndOf(g, x, w).Some?
    ensures EndOf(g, x, w).value !in done
    decreases |w|
  {
    if w != [] {
      WalkOutside(g0, first, g, done, Target(g, x, w[0]).value, w[1..]);
    }
  }

  lemma {:induction false} ChainInside(g0: Links<int>, first: map<int, int>, g: Links<int>, done: set<int>, x: int, w: Walk)
    requires Attached(g0, first, g, done) && x in done && AllAlong(w) && EndOf(g, x, w).Some?
    ensures EndOf(g, x, w).value in done
    decreases |w|
  {
    if w != [] {
      assert w[0] == Along;
      ChainInside(g0, first, g, done, Target(g, x, w[0]).value, w[1..]);
    }
  }

  /** What the root's chain ends in is attached. */
  lemma RootSource(g0: Links<int>, first: map<int, int>, g: Links<int>, done: set<int>, ns: set<int>, rank: map<int, nat>)
    requires Attached(g0, first, g, done) && Ranked(g, ns, rank) && ROOT_INDEX in ns
    ensures var src := LinkSource(g, ns, rank, ROOT_INDEX);
      && src in done && (ROOT_INDEX in g.child ==> src != ROOT_INDEX && src !in g.next)
      && (ROOT_INDEX !in g.child ==> src == ROOT_INDEX)
  {
    if ROOT_INDEX in g.child {
      LinkSourceFree(g, ns, rank, ROOT_INDEX);
      var src := LinkSource(g, ns, rank, ROOT_INDEX);
      var w: Walk :| AllAlong(w) && EndOf(g, g.child[ROOT_INDEX], w) == Some(src);
      ChainInside(g0, first, g, done, g.child[ROOT_INDEX], w);
      WalkStays(g, ns, rank, g.child[ROOT_INDEX], w);
    }
  }

  /** Attaching one more parentless node closes no cycle and keeps all of this. */
  lemma AttachStep(g0: Links<int>, first: map<int, int>, g: Links<int>, done: set<int>,
                   ns: set<int>, rank: map<int, nat>, m: int)
    requires Attached(g0, first, g, done) && Ranked(g, ns, rank)
    requires ROOT_INDEX in ns && m in ns && m !in done && m !in first
    ensures !Reaches(g, m, LinkSource(g, ns, rank, ROOT_INDEX))
    ensures Attached(g0, first, InsertChild(g, ns, rank, ROOT_INDEX, m), done + {m})
  {
    hide LinkSource, Ranked, InChain;
    var src := LinkSource(g, ns, rank, ROOT_INDEX);
    var h := InsertChild(g, ns, rank, ROOT_INDEX, m);
    RootSource(g0, first, g, done, ns, rank);
    if Reaches(g, m, src) {
      var w: Walk :| EndOf(g, m, w) == Some(src);
      WalkOutside(g0, first, g, done, m, w);
    }
    InsertExtends(g, ns, rank, ROOT_INDEX, m);
    InsertedInChain(g, ns, rank, ROOT_INDEX, m);
    forall x | x in done + {m} && x != ROOT_INDEX ensures InChain(h, ROOT_INDEX, x) {
      if x != m { ChainKept(g, h, ROOT_INDEX, x); }
    }
  }

  /** Once all parentless nodes are attached, the root reaches every node. */
  lemma {:induction false} RootReaches(g0: Links<int>, first: map<int, int>, g: Links<int>, done: set<int>,
                                       ns: set<int>, rank: map<int, nat>, n: int)
    requires Parented(g0, first) && Attached(g0, first, g, done) && Ranked(g, ns, rank)
    requires n in ns && forall x | x in ns :: x in done || x in first
    ensures Reaches(g, ROOT_INDEX, n)
    decreases |set x | x in ns && rank[n] < rank[x]|
  {
    if n == ROOT_INDEX {
      ReachesSelf(g, n);
    } else if n in done {
      InChainBelow(g, ns, rank, ROOT_INDEX, n);
    } else {
      var p := first[n];
      ChainKept(g0, g, p, n);
      InChainBelow(g, ns, rank, p, n);
      var above, abovePar := set x | x in ns && rank[n] < rank[x], set x | x in ns && rank[p] < rank[x];
      assert p in above && p !in abovePar;
      SubsetSize(abovePar, above - {p});
      RootReaches(g0, first, g, done, ns, rank, p);
      ReachesOn(g, ROOT_INDEX, p, n);
    }
  }
}
