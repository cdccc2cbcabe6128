/** The pointer structure of the node graph as a value: who is whose first child, who is next
in a chain of children.  A node has one `next` pointer, so chains of different parents may
share nodes and merge.

Walks follow the two pointers; a walk's load adds up the run times of the nodes it leaves
through `child`.  The inverse laxity of a node is the largest load of a walk from the root
plus the node's own run time. */
module NodeLinks {

  import opened Options

  /** A node that is not a key has a null pointer. */
  datatype Links<N(==)> = Links(child: map<N, N>, next: map<N, N>)

  datatype Step = Down | Along

  type Walk = seq<Step>

  function Target<N>(g: Links<N>, x: N, s: Step): Option<N> {
    match s
    case Down => if x in g.child then Some(g.child[x]) else None
    case Along => if x in g.next then Some(g.next[x]) else None
  }

  ghost function EndOf<N>(g: Links<N>, x: N, w: Walk): Option<N> {
    if w == [] then Some(x)
    else if Target(g, x, w[0]).None? then None
    else EndOf(g, Target(g, x, w[0]).value, w[1..])
  }

  ghost predicate Reaches<N>(g: Links<N>, x: N, y: N) {
    exists w: Walk :: EndOf(g, x, w) == Some(y)
  }

  /** Pointers stay inside ns and lead to smaller ranks, so there is no cycle. */
  ghost predicate Ranked<N>(g: Links<N>, ns: set<N>, rank: map<N, nat>) {
    && rank.Keys == ns
    && (forall x | x in g.child :: x in ns && g.child[x] in ns && rank[g.child[x]] < rank[x])
    && (forall x | x in g.next :: x in ns && g.next[x] in ns && rank[g.next[x]] < rank[x])
  }

  // ----------------------------------------------------------------------- walks

  lemma {:induction false} WalkStays<N>(g: Links<N>, ns: set<N>, rank: map<N, nat>, x: N, w: Walk)
    requires Ranked(g, ns, rank) && x in ns && EndOf(g, x, w).Some?
    ensures EndOf(g, x, w).value in ns
    ensures rank[EndOf(g, x, w).value] <= rank[x]
    ensures w != [] ==> rank[EndOf(g, x, w).value] < rank[x]
    decreases |w|
  {
    if w != [] {
      WalkStays(g, ns, rank, Target(g, x, w[0]).value, w[1..]);
    }
  }

  lemma {:induction false} WalkOn<N>(g: Links<N>, x: N, u: Walk, v: Walk)
    requires EndOf(g, x, u).Some?
    ensures EndOf(g, x, u + v) == EndOf(g, EndOf(g, x, u).value, v)
    decreases |u|
  {
    if u == [] {
      assert u + v == v;
    } else {
      assert (u + v)[1..] == u[1..] + v;
      WalkOn(g, Target(g, x, u[0]).value, u[1..], v);
    }
  }

  lemma ReachesOn<N>(g: Links<N>, x: N, y: N, z: N)
    requires Reaches(g, x, y) && Reaches(g, y, z)
    ensures Reaches(g, x, z)
  {
    var u: Walk :| EndOf(g, x, u) == Some(y);
    var v: Walk :| EndOf(g, y, v) == Some(z);
    WalkOn(g, x, u, v);
  }

  lemma ReachesStep<N>(g: Links<N>, x: N, s: Step)
    requires Target(g, x, s).Some?
    ensures Reaches(g, x, Target(g, x, s).value)
  {
    assert EndOf(g, Target(g, x, s).value, [s][1..]) == Some(Target(g, x, s).value);
    assert EndOf(g, x, [s]) == Some(Target(g, x, s).value);
  }

  lemma ReachesSelf<N>(g: Links<N>, x: N)
    ensures Reaches(g, x, x)
  {
    assert EndOf(g, x, []) == Some(x);
  }

  /** What x reaches: itself, and what its two pointers reach. */
  lemma ReachesCases<N>(g: Links<N>, x: N, y: N)
    ensures Reaches(g, x, y) <==>
            || x == y
            || (x in g.child && Reaches(g, g.child[x], y))
            || (x in g.next && Reaches(g, g.next[x], y))
  {
    ReachesSelf(g, x);
    if Reaches(g, x, y) {
      var w: Walk :| EndOf(g, x, w) == Some(y);
      if w != [] {
        assert EndOf(g, Target(g, x, w[0]).value, w[1..]) == Some(y);
      }
    }
    if x in g.child && Reaches(g, g.child[x], y) {
      ReachesStep(g, x, Down);
      ReachesOn(g, x, g.child[x], y);
    }
    if x in g.next && Reaches(g, g.next[x], y) {
      ReachesStep(g, x, Along);
      ReachesOn(g, x, g.next[x], y);
    }
  }

  // ---------------------------------------------------------------------- chains

  /** The nodes from y on along `next`. */
  ghost function ChainFrom<N>(g: Links<N>, ns: set<N>, rank: map<N, nat>, y: N): (c: seq<N>)
    requires Ranked(g, ns, rank) && y in ns
    ensures c != [] && c[0] == y
    decreases rank[y]
  {
    [y] + if y in g.next then ChainFrom(g, ns, rank, g.next[y]) else []
  }

  /** The children of x: its first child and everything after it. */
  ghost function Chain<N>(g: Links<N>, ns: set<N>, rank: map<N, nat>, x: N): seq<N>
    requires Ranked(g, ns, rank) && x in ns
  {
    if x in g.child then ChainFrom(g, ns, rank, g.child[x]) else []
  }

  lemma {:induction false} ChainFromStep<N>(g: Links<N>, ns: set<N>, rank: map<N, nat>, y: N, k: nat)
    requires Ranked(g, ns, rank) && y in ns && k < |ChainFrom(g, ns, rank, y)|
    ensures NextInChain(g, ns, ChainFrom(g, ns, rank, y), k)
    decreases k
  {
    if k > 0 {
      ChainFromStep(g, ns, rank, g.next[y], k - 1);
    }
  }

  /** Ranks fall along a chain, so no node is in it twice. */
  lemma {:induction false} ChainFalls<N>(g: Links<N>, ns: set<N>, rank: map<N, nat>, y: N, i: nat, j: nat)
    requires Ranked(g, ns, rank) && y in ns && i < j < |ChainFrom(g, ns, rank, y)|
    ensures var c := ChainFrom(g, ns, rank, y); c[i] in rank && c[j] in rank && rank[c[j]] < rank[c[i]]
    decreases j
  {
    if i > 0 {
      ChainFalls(g, ns, rank, g.next[y], i - 1, j - 1);
    } else if j > 1 {
      ChainFalls(g, ns, rank, g.next[y], 0, j - 1);
    }
  }

  /** In a chain c, each node's next is the following one, and the last has none. */
  ghost predicate NextInChain<N>(g: Links<N>, ns: set<N>, c: seq<N>, k: nat)
    requires k < |c|
  {
    && c[k] in ns
    && if k < |c| - 1 then c[k] in g.next && g.next[c[k]] == c[k + 1] else c[k] !in g.next
  }

  /** Membership in a chain needs no rank: some walk along `next` leads there. */
  ghost predicate AllAlong(w: Walk) { forall k | 0 <= k < |w| :: w[k] == Along }

  ghost predicate InChain<N>(g: Links<N>, x: N, y: N) {
    x in g.child && exists w: Walk :: AllAlong(w) && EndOf(g, g.child[x], w) == Some(y)
  }

  lemma {:induction false} ChainFromMembers<N>(g: Links<N>, ns: set<N>, rank: map<N, nat>, x: N, y: N)
    requires Ranked(g, ns, rank) && x in ns
    ensures y in ChainFrom(g, ns, rank, x) <==> exists w: Walk :: AllAlong(w) && EndOf(g, x, w) == Some(y)
    decreases rank[x]
  {
    var c := ChainFrom(g, ns, rank, x);
    if x == y {
      assert AllAlong([]) && EndOf(g, x, []) == Some(y);
    } else if x in g.next {
      var z := g.next[x];
      ChainFromMembers(g, ns, rank, z, y);
      if w: Walk :| AllAlong(w) && EndOf(g, z, w) == Some(y) {
        var w' := [Along] + w;
        assert w'[1..] == w;
        assert AllAlong(w') && EndOf(g, x, w') == Some(y);
      }
      if w: Walk :| AllAlong(w) && EndOf(g, x, w) == Some(y) {
        assert w != [] && w[0] == Along;
        assert AllAlong(w[1..]) && EndOf(g, z, w[1..]) == Some(y);
      }
    } else {
      forall w: Walk | AllAlong(w) ensures EndOf(g, x, w) != Some(y) {
        if w != [] { assert w[0] == Along; }
      }
    }
  }

  lemma ChainMembers<N>(g: Links<N>, ns: set<N>, rank: map<N, nat>, x: N, y: N)
    requires Ranked(g, ns, rank) && x in ns
    ensures y in Chain(g, ns, rank, x) <==> InChain(g, x, y)
  {
    if x in g.child { ChainFromMembers(g, ns, rank, g.child[x], y); }
  }

  lemma InChainBelow<N>(g: Links<N>, ns: set<N>, rank: map<N, nat>, x: N, y: N)
    requires Ranked(g, ns, rank) && InChain(g, x, y)
    ensures x in ns && y in ns && Reaches(g, x, y) && rank[y] < rank[x]
  {
    var w: Walk :| AllAlong(w) && EndOf(g, g.child[x], w) == Some(y);
    WalkStays(g, ns, rank, g.child[x], w);
    assert Reaches(g, g.child[x], y);
    ReachesCases(g, x, y);
  }

  // --------------------------------------------------------------------- laxity

  function Cost(r: int): int { if r >= 0 then r else 0 }

  /** The accumulator of the depth-first search at the end of a walk that starts with 0. */
  ghost function Load<N>(g: Links<N>, run: map<N, int>, x: N, w: Walk): int {
    if w == [] || Target(g, x, w[0]).None? then 0
    else
      (if w[0] == Down && x in run then Cost(run[x]) else 0) + Load(g, run, Target(g, x, w[0]).value, w[1..])
  }

  lemma {:induction false} LoadOn<N>(g: Links<N>, run: map<N, int>, x: N, u: Walk, v: Walk)
    requires EndOf(g, x, u).Some?
    ensures Load(g, run, x, u + v) == Load(g, run, x, u) + Load(g, run, EndOf(g, x, u).value, v)
    decreases |u|
  {
    if u == [] {
      assert u + v == v;
    } else {
      assert (u + v)[1..] == u[1..] + v;
      LoadOn(g, run, Target(g, x, u[0]).value, u[1..], v);
    }
  }

  /** A walk w from x ends in y with a run time, and y's total along it is v. */
  ghost predicate Totals<N>(g: Links<N>, run: map<N, int>, x: N, sum: int, w: Walk, y: N, v: int) {
    EndOf(g, x, w) == Some(y) && y in run && run[y] >= 0 && v == sum + Load(g, run, x, w) + run[y]
  }

  /** What a depth-first search from x with accumulator sum makes of the laxities: each becomes
  the largest of what it was and its totals over all walks from x. */
  ghost predicate Relaxed<N>(g: Links<N>, run: map<N, int>, x: N, sum: int, lax: map<N, int>, lax': map<N, int>) {
    && lax.Keys == lax'.Keys == run.Keys
    && (forall y | y in lax :: lax[y] <= lax'[y])
    && (forall w: Walk, y | y in lax && EndOf(g, x, w) == Some(y) && run[y] >= 0 ::
          sum + Load(g, run, x, w) + run[y] <= lax'[y])
    && (forall y | y in lax :: lax'[y] == lax[y] || exists w: Walk :: Totals(g, run, x, sum, w, y, lax'[y]))
  }

  /** The depth-first search as a function on laxities: update x, search its child with x's run
  time added, then its next. */
  ghost function Search<N>(g: Links<N>, ns: set<N>, rank: map<N, nat>, run: map<N, int>,
                           x: N, sum: int, lax: map<N, int>): (lax': map<N, int>)
    requires Ranked(g, ns, rank) && x in ns && run.Keys == ns && lax.Keys == ns
    ensures lax'.Keys == ns
    decreases rank[x]
  {
    var lax1 := Update(run, x, sum, lax);
    var lax2 := if x in g.child then Search(g, ns, rank, run, g.child[x], sum + Cost(run[x]), lax1) else lax1;
    if x in g.next then Search(g, ns, rank, run, g.next[x], sum, lax2) else lax2
  }

  /** The three parts of a search, one after the other. */
  lemma SearchSteps<N>(g: Links<N>, ns: set<N>, rank: map<N, nat>, run: map<N, int>, x: N, sum: int,
                       lax: map<N, int>, lax2: map<N, int>, lax3: map<N, int>)
    requires Ranked(g, ns, rank) && x in ns && run.Keys == ns && lax.Keys == lax2.Keys == ns
    requires var lax1 := Update(run, x, sum, lax);
      lax2 == if x in g.child then Search(g, ns, rank, run, g.child[x], sum + Cost(run[x]), lax1) else lax1
    requires lax3 == if x in g.next then Search(g, ns, rank, run, g.next[x], sum, lax2) else lax2
    ensures lax3 == Search(g, ns, rank, run, x, sum, lax)
  {
  }

  ghost function Update<N>(run: map<N, int>, x: N, sum: int, lax: map<N, int>): map<N, int>
    requires x in run && x in lax
  {
    if run[x] + sum > lax[x] && run[x] >= 0 then lax[x := sum + run[x]] else lax
  }

  lemma {:induction false} SearchGrows<N>(g: Links<N>, ns: set<N>, rank: map<N, nat>, run: map<N, int>,
                                          x: N, sum: int, lax: map<N, int>, y: N)
    requires Ranked(g, ns, rank) && x in ns && run.Keys == ns && lax.Keys == ns && y in ns
    ensures lax[y] <= Search(g, ns, rank, run, x, sum, lax)[y]
    decreases rank[x]
  {
    var lax1 := Update(run, x, sum, lax);
    var lax2 := if x in g.child then Search(g, ns, rank, run, g.child[x], sum + Cost(run[x]), lax1) else lax1;
    if x in g.child { SearchGrows(g, ns, rank, run, g.child[x], sum + Cost(run[x]), lax1, y); }
    if x in g.next { SearchGrows(g, ns, rank, run, g.next[x], sum, lax2, y); }
  }

  lemma {:induction false} SearchCovers<N>(g: Links<N>, ns: set<N>, rank: map<N, nat>, run: map<N, int>,
                                           x: N, sum: int, lax: map<N, int>, w: Walk, y: N)
    requires Ranked(g, ns, rank) && x in ns && run.Keys == ns && lax.Keys == ns && y in ns
    requires EndOf(g, x, w) == Some(y) && run[y] >= 0
    ensures sum + Load(g, run, x, w) + run[y] <= Search(g, ns, rank, run, x, sum, lax)[y]
    decreases rank[x]
  {
    var lax1 := Update(run, x, sum, lax);
    var lax2 := if x in g.child then Search(g, ns, rank, run, g.child[x], sum + Cost(run[x]), lax1) else lax1;
    if w == [] || w[0] == Down {
      if w != [] {
        SearchCovers(g, ns, rank, run, g.child[x], sum + Cost(run[x]), lax1, w[1..], y);
      } else if x in g.child {
        SearchGrows(g, ns, rank, run, g.child[x], sum + Cost(run[x]), lax1, y);
      }
      if x in g.next { SearchGrows(g, ns, rank, run, g.next[x], sum, lax2, y); }
    } else {
      SearchCovers(g, ns, rank, run, g.next[x], sum, lax2, w[1..], y);
    }
  }

  lemma {:induction false} SearchAttained<N>(g: Links<N>, ns: set<N>, rank: map<N, nat>, run: map<N, int>,
                                             x: N, sum: int, lax: map<N, int>, y: N)
    returns (w: Walk)
    requires Ranked(g, ns, rank) && x in ns && run.Keys == ns && lax.Keys == ns && y in ns
    ensures var v := Search(g, ns, rank, run, x, sum, lax)[y];
            v == lax[y] || Totals(g, run, x, sum, w, y, v)
    decreases rank[x]
  {
    var lax1 := Update(run, x, sum, lax);
    var lax2 := if x in g.child then Search(g, ns, rank, run, g.child[x], sum + Cost(run[x]), lax1) else lax1;
    var v := Search(g, ns, rank, run, x, sum, lax)[y];
    if v != lax2[y] {
      var w' := SearchAttained(g, ns, rank, run, g.next[x], sum, lax2, y);
      w := [Along] + w';
      assert w[1..] == w';
    } else if lax2[y] != lax1[y] {
      var w' := SearchAttained(g, ns, rank, run, g.child[x], sum + Cost(run[x]), lax1, y);
      w := [Down] + w';
      assert w[1..] == w';
    } else {
      w := [];
    }
  }

  lemma SearchRelaxes<N>(g: Links<N>, ns: set<N>, rank: map<N, nat>, run: map<N, int>,
                         x: N, sum: int, lax: map<N, int>)
    requires Ranked(g, ns, rank) && x in ns && run.Keys == ns && lax.Keys == ns
    ensures Relaxed(g, run, x, sum, lax, Search(g, ns, rank, run, x, sum, lax))
  {
    var lax' := Search(g, ns, rank, run, x, sum, lax);
    forall y | y in lax
      ensures lax[y] <= lax'[y] && (lax'[y] == lax[y] || exists w: Walk :: Totals(g, run, x, sum, w, y, lax'[y]))
    {
      SearchGrows(g, ns, rank, run, x, sum, lax, y);
      var w := SearchAttained(g, ns, rank, run, x, sum, lax, y);
    }
    forall w: Walk, y | y in lax && EndOf(g, x, w) == Some(y) && run[y] >= 0
      ensures sum + Load(g, run, x, w) + run[y] <= lax'[y]
    {
      SearchCovers(g, ns, rank, run, x, sum, lax, w, y);
    }
  }

  /** v is the largest total of y over all walks from root. */
  ghost predicate LongestTotal<N>(g: Links<N>, run: map<N, int>, root: N, y: N, v: int) {
    && (exists w: Walk :: Totals(g, run, root, 0, w, y, v))
    && (forall w: Walk | EndOf(g, root, w) == Some(y) && y in run :: Load(g, run, root, w) + run[y] <= v)
  }

  /** The laxities after a search from root that started with none computed. */
  ghost predicate Computed<N>(g: Links<N>, run: map<N, int>, root: N, lax: map<N, int>) {
    && lax.Keys == run.Keys
    && forall y | y in run ::
         if run[y] >= 0 && Reaches(g, root, y) then LongestTotal(g, run, root, y, lax[y]) else lax[y] == -1
  }

  /** A fresh search computes longest paths. */
  lemma SearchComputes<N>(g: Links<N>, run: map<N, int>, root: N, lax0: map<N, int>, lax: map<N, int>)
    requires Relaxed(g, run, root, 0, lax0, lax)
    requires forall y | y in run :: lax0[y] == -1
    ensures Computed(g, run, root, lax)
  {
    forall y | y in run
      ensures if run[y] >= 0 && Reaches(g, root, y) then LongestTotal(g, run, root, y, lax[y]) else lax[y] == -1
    {
      if run[y] >= 0 && Reaches(g, root, y) {
        var w: Walk :| EndOf(g, root, w) == Some(y);
        LoadNotNegative(g, run, root, w);
        assert lax[y] != lax0[y];
      }
    }
  }

  /** A second search changes nothing. */
  lemma SearchAgain<N>(g: Links<N>, run: map<N, int>, root: N, lax: map<N, int>, lax': map<N, int>)
    requires Computed(g, run, root, lax) && Relaxed(g, run, root, 0, lax, lax')
    ensures lax' == lax
  {
    forall y | y in run ensures lax'[y] == lax[y] {
      if lax'[y] != lax[y] {
        var w: Walk :| Totals(g, run, root, 0, w, y, lax'[y]);
        assert EndOf(g, root, w) == Some(y);
        assert Reaches(g, root, y);
      }
    }
  }

  lemma SearchFromRoot<N>(g: Links<N>, ns: set<N>, rank: map<N, nat>, run: map<N, int>, root: N, lax: map<N, int>)
    requires Ranked(g, ns, rank) && root in ns && run.Keys == ns && lax.Keys == ns
    requires Computed(g, run, root, lax) || forall y | y in ns :: lax[y] == -1
    ensures var lax' := Search(g, ns, rank, run, root, 0, lax);
            Computed(g, run, root, lax') && (Computed(g, run, root, lax) ==> lax' == lax)
  {
    SearchRelaxes(g, ns, rank, run, root, 0, lax);
    var lax' := Search(g, ns, rank, run, root, 0, lax);
    if Computed(g, run, root, lax) {
      SearchAgain(g, run, root, lax, lax');
    } else {
      SearchComputes(g, run, root, lax, lax');
    }
  }

  lemma {:induction false} LoadNotNegative<N>(g: Links<N>, run: map<N, int>, x: N, w: Walk)
    ensures 0 <= Load(g, run, x, w)
    decreases |w|
  {
    if w != [] && Target(g, x, w[0]).Some? {
      LoadNotNegative(g, run, Target(g, x, w[0]).value, w[1..]);
    }
  }

  lemma {:induction false} AlongIsFree<N>(g: Links<N>, run: map<N, int>, x: N, w: Walk)
    requires AllAlong(w)
    ensures Load(g, run, x, w) == 0
    decreases |w|
  {
    if w != [] && Target(g, x, w[0]).Some? {
      assert w[0] == Along;
      AlongIsFree(g, run, Target(g, x, w[0]).value, w[1..]);
    }
  }

  /** A walk to the parent continues to each of its children and gains the parent's run time. */
  lemma ViaParent<N>(g: Links<N>, run: map<N, int>, root: N, u: Walk, p: N, v: Walk, c: N)
    requires EndOf(g, root, u) == Some(p) && p in g.child && p in run
    requires AllAlong(v) && EndOf(g, g.child[p], v) == Some(c)
    ensures EndOf(g, root, u + ([Down] + v)) == Some(c)
    ensures Load(g, run, root, u + ([Down] + v)) == Load(g, run, root, u) + Cost(run[p])
  {
    assert ([Down] + v)[1..] == v;
    WalkOn(g, root, u, [Down] + v);
    LoadOn(g, run, root, u, [Down] + v);
    AlongIsFree(g, run, g.child[p], v);
  }

  /** A child's laxity is at least its parent's plus its own run time. */
  lemma ChildLaxity<N>(g: Links<N>, run: map<N, int>, root: N, lax: map<N, int>, p: N, c: N)
    requires Computed(g, run, root, lax)
    requires p in run && c in run && run[p] >= 0 && run[c] >= 0
    requires Reaches(g, root, p) && InChain(g, p, c)
    ensures lax[c] >= lax[p] + run[c]
  {
    var u: Walk :| Totals(g, run, root, 0, u, p, lax[p]);
    var v: Walk :| AllAlong(v) && EndOf(g, g.child[p], v) == Some(c);
    ViaParent(g, run, root, u, p, v, c);
    var w := u + ([Down] + v);
    assert EndOf(g, root, w) == Some(c);
    assert Reaches(g, root, c);
  }

  /** The last parent on a walk to y. */
  lemma {:induction false} LastParent<N>(g: Links<N>, root: N, w: Walk, y: N) returns (u: Walk, p: N, v: Walk)
    requires EndOf(g, root, w) == Some(y) && exists k :: 0 <= k < |w| && w[k] == Down
    ensures w == u + ([Down] + v) && AllAlong(v)
    ensures EndOf(g, root, u) == Some(p) && p in g.child && EndOf(g, g.child[p], v) == Some(y)
    decreases |w|
  {
    var z := Target(g, root, w[0]).value;
    if exists k :: 0 <= k < |w[1..]| && w[1..][k] == Down {
      u, p, v := LastParent(g, z, w[1..], y);
      u := [w[0]] + u;
      assert u[1..] + ([Down] + v) == w[1..];
    } else {
      u, p, v := [], root, w[1..];
      forall k | 0 <= k < |v| ensures v[k] == Along {
        assert w[1..][k] == v[k];
      }
    }
  }

  /** Every laxity is handed down: a node's laxity is its own run time, or that of some parent
  other than the root plus its own run time. */
  lemma LaxityHandedDown<N>(g: Links<N>, ns: set<N>, rank: map<N, nat>, run: map<N, int>, root: N,
                            lax: map<N, int>, y: N)
    returns (p: N)
    requires Ranked(g, ns, rank) && run.Keys == ns && Computed(g, run, root, lax)
    requires root in ns && root !in g.next && run[root] < 0
    requires forall x | x in ns && x != root :: run[x] >= 0
    requires y in ns && y != root && Reaches(g, root, y)
    ensures p in ns && InChain(g, p, y) && Reaches(g, root, p)
    ensures lax[y] == (if p == root then 0 else lax[p]) + run[y]
  {
    var w: Walk :| Totals(g, run, root, 0, w, y, lax[y]);
    assert w != [] && w[0] == Down;
    var u, v;
    u, p, v := LastParent(g, root, w, y);
    assert InChain(g, p, y);
    assert Reaches(g, root, p);
    WalkStays(g, ns, rank, root, u);
    ViaParent(g, run, root, u, p, v, y);
    if p == root {
      assert u == [];
    } else {
      assert Load(g, run, root, u) + run[p] <= lax[p];
      ChildLaxity(g, run, root, lax, p, y);
    }
  }
}
