/** The search for childless nodes.  It returns early from a leaf it has seen, leaving out that
leaf's chain; on an acyclic structure it finds every reachable leaf all the same. */
module LeafSearch {
  import opened NodeLinks
  import opened Sequences

  ghost predicate Leaf(g: Links<int>, ns: set<int>, x: int) { x in ns && x !in g.child }

  /** `_search_leaf_node` as a function on the list of leaves found. */
  ghost function Leaves(g: Links<int>, ns: set<int>, rank: map<int, nat>, x: int, list: seq<int>): seq<int>
    requires Ranked(g, ns, rank) && x in ns
    decreases rank[x]
  {
    if x in g.child then
      var list' := Leaves(g, ns, rank, g.child[x], list);
      if x in g.next then Leaves(g, ns, rank, g.next[x], list') else list'
    else if x in list then list
    else if x in g.next then Leaves(g, ns, rank, g.next[x], list + [x])
    else list + [x]
  }

  /** Every leaf v reaches is listed. */
  ghost predicate Covers(g: Links<int>, ns: set<int>, list: seq<int>, v: int) {
    forall y | Leaf(g, ns, y) && Reaches(g, v, y) :: y in list
  }

  /** Distinct leaves; those whose chain is not still being searched cover all they reach. */
  ghost predicate Settled(g: Links<int>, ns: set<int>, list: seq<int>, open': set<int>) {
    && Distinct(list)
    && forall v | v in list :: Leaf(g, ns, v) && (v in open' || Covers(g, ns, list, v))
  }

  lemma CoversMore(g: Links<int>, ns: set<int>, list: seq<int>, list': seq<int>, v: int)
    requires Covers(g, ns, list, v) && forall y | y in list :: y in list'
    ensures Covers(g, ns, list', v)
  {
  }

  lemma CoversByPointers(g: Links<int>, ns: set<int>, list: seq<int>, x: int)
    requires x in g.child ==> Covers(g, ns, list, g.child[x])
    requires x in g.next ==> Covers(g, ns, list, g.next[x])
    requires x in g.child || x in list
    ensures Covers(g, ns, list, x)
  {
    forall y | Leaf(g, ns, y) && Reaches(g, x, y) ensures y in list {
      ReachesCases(g, x, y);
    }
  }

  /** What a search from x adds are leaves x reaches. */
  ghost predicate Added(g: Links<int>, x: int, list: seq<int>, list': seq<int>) {
    && |list| <= |list'| && list'[..|list|] == list
    && forall y | y in list' :: y in list || Reaches(g, x, y)
  }

  lemma AddedOn(g: Links<int>, x: int, z: int, list: seq<int>, list1: seq<int>, list2: seq<int>)
    requires Added(g, x, list, list1) && Added(g, z, list1, list2) && Reaches(g, x, z)
    ensures Added(g, x, list, list2)
  {
    assert list2[..|list|] == list1[..|list|];
    forall y | y in list2 ensures y in list || Reaches(g, x, y) {
      if y !in list1 { ReachesOn(g, x, z, y); }
    }
  }

  lemma AddedVia(g: Links<int>, x: int, z: int, list: seq<int>, list': seq<int>)
    requires Added(g, z, list, list') && Reaches(g, x, z)
    ensures Added(g, x, list, list')
  {
    forall y | y in list' ensures y in list || Reaches(g, x, y) {
      if y !in list { ReachesOn(g, x, z, y); }
    }
  }

  lemma AddedMembers(g: Links<int>, x: int, list: seq<int>, list': seq<int>, y: int)
    requires Added(g, x, list, list') && y in list
    ensures y in list'
  {
    var k :| 0 <= k < |list| && list[k] == y;
    assert list'[..|list|][k] == y;
  }

  lemma {:induction false} SearchSettles(g: Links<int>, ns: set<int>, rank: map<int, nat>, x: int, list: seq<int>, open': set<int>)
    requires Ranked(g, ns, rank) && x in ns && Settled(g, ns, list, open')
    requires forall o | o in open' :: o in ns && rank[x] < rank[o]
    ensures Settled(g, ns, Leaves(g, ns, rank, x, list), open')
    ensures Covers(g, ns, Leaves(g, ns, rank, x, list), x)
    ensures Added(g, x, list, Leaves(g, ns, rank, x, list))
    decreases rank[x]
  {
    ReachesSelf(g, x);
    if x in g.child {
      SearchBelowChild(g, ns, rank, x, list, open');
    } else if x !in list {
      SearchNewLeaf(g, ns, rank, x, list, open');
    }
  }

  lemma {:induction false} SearchBelowChild(g: Links<int>, ns: set<int>, rank: map<int, nat>, x: int, list: seq<int>, open': set<int>)
    requires Ranked(g, ns, rank) && x in ns && x in g.child && Settled(g, ns, list, open')
    requires forall o | o in open' :: o in ns && rank[x] < rank[o]
    ensures Settled(g, ns, Leaves(g, ns, rank, x, list), open')
    ensures Covers(g, ns, Leaves(g, ns, rank, x, list), x)
    ensures Added(g, x, list, Leaves(g, ns, rank, x, list))
    decreases rank[x], 0
  {
    var list1 := Leaves(g, ns, rank, g.child[x], list);
    SearchSettles(g, ns, rank, g.child[x], list, open');
    ReachesStep(g, x, Down);
    AddedVia(g, x, g.child[x], list, list1);
    if x in g.next {
      var list2 := Leaves(g, ns, rank, g.next[x], list1);
      SearchSettles(g, ns, rank, g.next[x], list1, open');
      ReachesStep(g, x, Along);
      AddedOn(g, x, g.next[x], list, list1, list2);
      forall y | y in list1 ensures y in list2 { AddedMembers(g, g.next[x], list1, list2, y); }
      CoversMore(g, ns, list1, list2, g.child[x]);
      CoversByPointers(g, ns, list2, x);
    } else {
      CoversByPointers(g, ns, list1, x);
    }
  }

  lemma NewLeafSettles(g: Links<int>, ns: set<int>, list: seq<int>, x: int, open': set<int>)
    requires Leaf(g, ns, x) && x !in list && Settled(g, ns, list, open')
    ensures Settled(g, ns, list + [x], open' + {x})
  {
    forall v | v in list && Covers(g, ns, list, v) ensures Covers(g, ns, list + [x], v) {
      CoversMore(g, ns, list, list + [x], v);
    }
  }

  lemma {:induction false} SearchNewLeaf(g: Links<int>, ns: set<int>, rank: map<int, nat>, x: int, list: seq<int>, open': set<int>)
    requires Ranked(g, ns, rank) && x in ns && x !in g.child && x !in list && Settled(g, ns, list, open')
    requires forall o | o in open' :: o in ns && rank[x] < rank[o]
    ensures Settled(g, ns, Leaves(g, ns, rank, x, list), open')
    ensures Covers(g, ns, Leaves(g, ns, rank, x, list), x)
    ensures Added(g, x, list, Leaves(g, ns, rank, x, list))
    decreases rank[x], 0
  {
    var list1 := list + [x];
    ReachesSelf(g, x);
    assert Added(g, x, list, list1);
    NewLeafSettles(g, ns, list, x, open');
    if x in g.next {
      var list2 := Leaves(g, ns, rank, g.next[x], list1);
      SearchSettles(g, ns, rank, g.next[x], list1, open' + {x});
      ReachesStep(g, x, Along);
      AddedOn(g, x, g.next[x], list, list1, list2);
      AddedMembers(g, g.next[x], list1, list2, x);
      CoversByPointers(g, ns, list2, x);
    } else {
      CoversByPointers(g, ns, list1, x);
    }
  }

  /** list holds the leaves of `was`, and those that c reaches. */
  ghost predicate HasBelow(g: Links<int>, ns: set<int>, was: seq<int>, c: int, list: seq<int>) {
    forall y :: y in list <==> y in was || (Leaf(g, ns, y) && Reaches(g, c, y))
  }

  /** The order of the search: what its child reaches is listed before anything a node finds further along its
  chain, and a leaf that is not listed yet comes next. */
  lemma ChildLeavesFirst(g: Links<int>, ns: set<int>, rank: map<int, nat>, x: int, list: seq<int>, open': set<int>)
    returns (k: nat)
    requires Ranked(g, ns, rank) && x in ns && Settled(g, ns, list, open')
    requires forall o | o in open' :: o in ns && rank[x] < rank[o]
    ensures var found := Leaves(g, ns, rank, x, list);
      && |list| <= k <= |found| && found[..|list|] == list
      && if x in g.child then HasBelow(g, ns, list, g.child[x], found[..k])
         else found[..k] == if x in list then list else list + [x]
  {
    hide Reaches, Settled;
    SearchSettles(g, ns, rank, x, list, open');
    k := if x !in g.child && x !in list then |list| + 1 else |list|;
    if x in g.child {
      var list1 := Leaves(g, ns, rank, g.child[x], list);
      k := |list1|;
      BelowFound(g, ns, rank, g.child[x], list, open');
      if x in g.next {
        SearchSettles(g, ns, rank, g.next[x], list1, open');
      }
    } else if x in g.next && x !in list {
      NewLeafSettles(g, ns, list, x, open');
      SearchSettles(g, ns, rank, g.next[x], list + [x], open' + {x});
    }
  }

  lemma BelowFound(g: Links<int>, ns: set<int>, rank: map<int, nat>, c: int, list: seq<int>, open': set<int>)
    requires Ranked(g, ns, rank) && c in ns && Settled(g, ns, list, open')
    requires forall o | o in open' :: o in ns && rank[c] < rank[o]
    ensures var found := Leaves(g, ns, rank, c, list);
      HasBelow(g, ns, list, c, found) && Settled(g, ns, found, open') && list <= found
  {
    hide Ranked, Reaches, Leaf;
    SearchSettles(g, ns, rank, c, list, open');
    var found := Leaves(g, ns, rank, c, list);
    assert forall y | y in list :: y in found[..|list|];
  }

  /** The search from the root lists exactly the leaves it reaches, each once. */
  lemma AllLeaves(g: Links<int>, ns: set<int>, rank: map<int, nat>, root: int)
    requires Ranked(g, ns, rank) && root in ns
    ensures Distinct(Leaves(g, ns, rank, root, []))
    ensures forall y :: y in Leaves(g, ns, rank, root, []) <==> Leaf(g, ns, y) && Reaches(g, root, y)
  {
    SearchSettles(g, ns, rank, root, [], {});
  }

  lemma {:induction false} LeavesGrow(g: Links<int>, ns: set<int>, rank: map<int, nat>, x: int, list: seq<int>)
    requires Ranked(g, ns, rank) && x in ns
    ensures |list| <= |Leaves(g, ns, rank, x, list)|
    decreases rank[x]
  {
    if x in g.child {
      LeavesGrow(g, ns, rank, g.child[x], list);
      if x in g.next { LeavesGrow(g, ns, rank, g.next[x], Leaves(g, ns, rank, g.child[x], list)); }
    } else if x !in list && x in g.next {
      LeavesGrow(g, ns, rank, g.next[x], list + [x]);
    }
  }
}
