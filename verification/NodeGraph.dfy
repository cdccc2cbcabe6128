/** The analyzer's node graph: heap nodes with a first-child and a next pointer, the insertion of
children, the depth-first laxity computation, the search by index, and the queue the scheduler
works from. */
module NodeGraph {
  import opened GraphBuild
  import opened GraphShape
  import opened LeafSearch
  import opened ListScheduling
  import opened NodeLinks
  import opened Options
  import opened SortKeys
  import opened Timeline
  import opened TopicWiring

  const PARENT_MAX: nat := 6

  class Node {
    const index: int
    const core: int32
    const runTime: int32
    var invLaxity: int
    var parents: seq<Node>
    var child: Node?
    var next: Node?

    /** `node_init` followed by the assignments of `make_node`. */
    constructor (index: int, core: int32, runTime: int32)
      ensures this.index == index && this.core == core && this.runTime == runTime
      ensures invLaxity == -1 && parents == [] && child == null && next == null
    {
      this.index, this.core, this.runTime := index, core, runTime;
      invLaxity, parents, child, next := -1, [], null, null;
    }
  }

  // ------------------------------------------------------- the heap as a value

  /** Nodes by index. */
  type Store = map<int, Node>

  /** Every node is stored under its index, and pointers lead to stored nodes. */
  ghost predicate Closed(store: Store)
    reads store.Values`child, store.Values`next
  {
    forall i | i in store :: store[i].index == i && Stored(store, store[i].child) && Stored(store, store[i].next)
  }

  ghost predicate Stored(store: Store, n: Node?) {
    n != null ==> n.index in store && store[n.index] == n
  }

  ghost function LinksOf(store: Store): Links<int>
    reads store.Values`child, store.Values`next
  {
    Links(map i | i in store && store[i].child != null :: store[i].child.index,
          map i | i in store && store[i].next != null :: store[i].next.index)
  }

  ghost function RunOf(store: Store): map<int, int> {
    map i | i in store :: store[i].runTime
  }

  ghost function LaxityOf(store: Store): map<int, int>
    reads store.Values`invLaxity
  {
    map i | i in store :: store[i].invLaxity
  }

  ghost function FirstParents(store: Store): map<int, int>
    reads store.Values`parents
  {
    map i | i in store && store[i].parents != [] :: store[i].parents[0].index
  }

  // ------------------------------------------------------------------- insertion

  /** The loop of `insert_child_node`: the last node of the parent's chain. */
  method LastChild(parent: Node, ghost store: Store, ghost g: Links<int>, ghost rank: map<int, nat>)
    returns (last: Node)
    requires Closed(store) && g == LinksOf(store) && Ranked(g, store.Keys, rank)
    requires parent.index in store && store[parent.index] == parent && parent.child != null
    ensures last.index in store && store[last.index] == last
    ensures last.index == LinkSource(g, store.Keys, rank, parent.index)
  {
    assert parent.index in g.child;
    last := parent.child;
    ghost var c := Chain(g, store.Keys, rank, parent.index);
    ghost var k := 0;
    while last.next != null
      invariant 0 <= k < |c| && last.index == c[k]
      invariant last.index in store && store[last.index] == last
      decreases |c| - k
    {
      ChainFromStep(g, store.Keys, rank, parent.child.index, k);
      assert last.index in g.next;
      last := last.next;
      k := k + 1;
    }
    ChainFromStep(g, store.Keys, rank, parent.child.index, k);
    assert last.index !in g.next;
  }

  /** `insert_child_node` */
  method InsertChildNode(parent: Node, child: Node, ghost store: Store, ghost rank: map<int, nat>)
    requires Closed(store) && Ranked(LinksOf(store), store.Keys, rank)
    requires parent.index in store && store[parent.index] == parent
    requires child.index in store && store[child.index] == child
    modifies store.Values`child, store.Values`next, child`parents
    ensures child.parents == old(child.parents) + if |old(child.parents)| < 6 then [parent] else []
    ensures Closed(store)
    ensures LinksOf(store) == InsertChild(old(LinksOf(store)), store.Keys, rank, parent.index, child.index)
    ensures FirstParents(store) == Record(old(FirstParents(store)), parent.index, child.index)
  {
    RecordParent(parent, child, store);
    LinkChild(parent, child, store, rank);
  }

  /** The second half of `insert_child_node`. */
  method LinkChild(parent: Node, child: Node, ghost store: Store, ghost rank: map<int, nat>)
    requires Closed(store) && Ranked(LinksOf(store), store.Keys, rank)
    requires parent.index in store && store[parent.index] == parent
    requires child.index in store && store[child.index] == child
    modifies store.Values`child, store.Values`next
    ensures Closed(store)
    ensures LinksOf(store) == InsertChild(old(LinksOf(store)), store.Keys, rank, parent.index, child.index)
  {
    ghost var g := LinksOf(store);
    assert parent.child == null <==> parent.index !in g.child;
    if parent.child == null {
      SetChild(parent, child, store);
    } else {
      var nextChild := LastChild(parent, store, g, rank);
      SetNext(nextChild, child, store);
    }
  }

  method SetChild(p: Node, c: Node, ghost store: Store)
    requires Closed(store)
    requires p.index in store && store[p.index] == p && c.index in store && store[c.index] == c
    modifies p`child
    ensures Closed(store)
    ensures LinksOf(store) == old(LinksOf(store)).(child := old(LinksOf(store)).child[p.index := c.index])
  {
    ghost var g := LinksOf(store);
    p.child := c;
    MapSame(g.next, LinksOf(store).next);
    LinksSetChild(store, g, p, c);
  }

  method SetNext(p: Node, c: Node, ghost store: Store)
    requires Closed(store)
    requires p.index in store && store[p.index] == p && c.index in store && store[c.index] == c
    modifies p`next
    ensures Closed(store)
    ensures LinksOf(store) == old(LinksOf(store)).(next := old(LinksOf(store)).next[p.index := c.index])
  {
    ghost var g := LinksOf(store);
    p.next := c;
    MapSame(g.child, LinksOf(store).child);
    LinksSetNext(store, g, p, c);
  }

  method RecordParent(parent: Node, child: Node, ghost store: Store)
    requires forall i | i in store :: store[i].index == i
    requires child.index in store && store[child.index] == child
    modifies child`parents
    ensures child.parents == old(child.parents) + if |old(child.parents)| < 6 then [parent] else []
    ensures FirstParents(store) == Record(old(FirstParents(store)), parent.index, child.index)
  {
    ghost var first := FirstParents(store);
    if |child.parents| < PARENT_MAX {
      child.parents := child.parents + [parent];
    }
    assert forall i | i in store && i != child.index :: store[i] != child;
    RecordFirst(store, parent, child, first);
  }

  lemma MapSet(m: map<int, int>, k: int, v: int, m': map<int, int>)
    requires k in m' && m'[k] == v
    requires forall i | i != k :: (i in m' <==> i in m) && (i in m ==> m'[i] == m[i])
    ensures m' == m[k := v]
  {
    forall i ensures i in m' <==> i in m[k := v] {}
    forall i | i in m' ensures m'[i] == m[k := v][i] {}
  }

  lemma MapSame(m: map<int, int>, m': map<int, int>)
    requires forall i :: (i in m' <==> i in m) && (i in m ==> m'[i] == m[i])
    ensures m' == m
  {
    forall i ensures i in m' <==> i in m {}
    forall i | i in m' ensures m'[i] == m[i] {}
  }

  lemma RecordFirst(store: Store, parent: Node, child: Node, first: map<int, int>)
    requires child.index in store && store[child.index] == child
    requires forall i | i in store && i != child.index ::
               (i in first <==> store[i].parents != []) && (i in first ==> first[i] == store[i].parents[0].index)
    requires child.parents != []
    requires if child.index in first then child.parents[0].index == first[child.index] else child.parents == [parent]
    requires first.Keys <= store.Keys
    ensures FirstParents(store) == Record(first, parent.index, child.index)
  {
    if child.index in first {
      MapSame(first, FirstParents(store));
    } else {
      MapSet(first, child.index, parent.index, FirstParents(store));
    }
  }

  /** Pointers as they are in the heap, but for one child pointer that was set. */
  lemma LinksSetChild(store: Store, g: Links<int>, p: Node, c: Node)
    requires p.index in store && store[p.index] == p && p.child == c
    requires forall i | i in store && i != p.index ::
               (i in g.child <==> store[i].child != null) && (i in g.child ==> g.child[i] == store[i].child.index)
    requires g.next == LinksOf(store).next && g.child.Keys <= store.Keys
    ensures LinksOf(store) == g.(child := g.child[p.index := c.index])
  {
    MapSet(g.child, p.index, c.index, LinksOf(store).child);
  }

  lemma LinksSetNext(store: Store, g: Links<int>, p: Node, c: Node)
    requires p.index in store && store[p.index] == p && p.next == c
    requires forall i | i in store && i != p.index ::
               (i in g.next <==> store[i].next != null) && (i in g.next ==> g.next[i] == store[i].next.index)
    requires g.child == LinksOf(store).child && g.next.Keys <= store.Keys
    ensures LinksOf(store) == g.(next := g.next[p.index := c.index])
  {
    MapSet(g.next, p.index, c.index, LinksOf(store).next);
  }

  // ---------------------------------------------------------- building the graph

  ghost predicate Stores(store: Store, nodes: seq<Node>) {
    store.Keys == Ids(|nodes|) && forall i | 0 <= i < |nodes| :: store[i] == nodes[i]
  }

  /** "Create Nodes" */
  method MakeNodes(infos: seq<NodeInfo>) returns (nodes: seq<Node>)
    ensures |nodes| == |infos|
    ensures forall i | 0 <= i < |nodes| ::
              fresh(nodes[i]) && nodes[i].index == i && nodes[i].core == infos[i].core &&
              nodes[i].runTime == infos[i].runTime && nodes[i].invLaxity == -1 &&
              nodes[i].parents == [] && nodes[i].child == null && nodes[i].next == null
  {
    nodes := [];
    var index := 0;
    while index < |infos|
      invariant 0 <= index <= |infos| && |nodes| == index
      invariant forall i | 0 <= i < |nodes| ::
                  fresh(nodes[i]) && nodes[i].index == i && nodes[i].core == infos[i].core &&
                  nodes[i].runTime == infos[i].runTime && nodes[i].invLaxity == -1 &&
                  nodes[i].parents == [] && nodes[i].child == null && nodes[i].next == null
    {
      var node := new Node(index, infos[index].core, infos[index].runTime);
      nodes := nodes + [node];
      index := index + 1;
    }
  }

  ghost predicate WiredAs(store: Store, w: Wiring)
    reads store.Values`child, store.Values`next, store.Values`parents
  {
    Closed(store) && LinksOf(store) == w.links && FirstParents(store) == w.first
  }

  /** The heap is wired as at a point of the loops from which they end in `end`. */
  ghost predicate Building(store: Store, infos: seq<NodeInfo>, a: nat, b: nat, i: nat, j: nat, w: Wiring, end: Wiring)
    reads store.Values`child, store.Values`next, store.Values`parents
  {
    && WiredAs(store, w) && Sound(|infos|, w)
    && Within(infos, a, b, i, j) && BuildFrom(infos, a, b, i, j, w) == Some(end)
  }

  /** The body of the innermost loop: an insertion for an equal pair of topics. */
  method WireMatch(nodes: seq<Node>, infos: seq<NodeInfo>, a: nat, b: nat, i: nat, j: nat,
                   ghost store: Store, ghost w: Wiring, ghost end: Wiring)
    returns (ghost w': Wiring)
    requires |nodes| == |infos| && Stores(store, nodes) && a < |nodes| && b < |nodes|
    requires i < |infos[a].subTopics| && j < |infos[b].pubTopics|
    requires Building(store, infos, a, b, i, j, w, end)
    modifies store.Values`child, store.Values`next, store.Values`parents
    ensures Building(store, infos, a, b, i, j + 1, w', end)
  {
    w' := w;
    if infos[a].subTopics[i] == infos[b].pubTopics[j] {
      w' := Insert(|infos|, w, a, b);
      InsertSound(|infos|, w, a, b);
      InsertChildNode(nodes[a], nodes[b], store, w.rank);
    }
  }

  /** The loops over the topics of one subscriber and one publisher. */
  method WirePair(nodes: seq<Node>, infos: seq<NodeInfo>, a: nat, b: nat,
                  ghost store: Store, ghost w: Wiring, ghost end: Wiring)
    returns (ghost w': Wiring)
    requires |nodes| == |infos| && Stores(store, nodes) && a < |nodes| && b < |nodes|
    requires Building(store, infos, a, b, 0, 0, w, end)
    modifies store.Values`child, store.Values`next, store.Values`parents
    ensures Building(store, infos, a, b + 1, 0, 0, w', end)
  {
    hide WiredAs, Sound, CanInsert;
    w' := w;
    var i := 0;
    while i < |infos[a].subTopics|
      invariant 0 <= i <= |infos[a].subTopics| && Building(store, infos, a, b, i, 0, w', end)
    {
      var j := 0;
      while j < |infos[b].pubTopics|
        invariant 0 <= j <= |infos[b].pubTopics| && Building(store, infos, a, b, i, j, w', end)
      {
        w' := WireMatch(nodes, infos, a, b, i, j, store, w', end);
        j := j + 1;
      }
      i := i + 1;
    }
  }

  /** "Create DAG from Node info" */
  method WireTopics(nodes: seq<Node>, infos: seq<NodeInfo>, ghost store: Store, ghost end: Wiring)
    requires |nodes| == |infos| && Stores(store, nodes)
    requires WiredAs(store, Start(|infos|)) && Built(infos) == Some(end)
    modifies store.Values`child, store.Values`next, store.Values`parents
    ensures WiredAs(store, end) && Sound(|infos|, end)
  {
    ghost var w := Start(|infos|);
    StartSound(|infos|);
    var index := 0;
    while index < |nodes|
      invariant 0 <= index <= |nodes| && Building(store, infos, index, 0, 0, 0, w, end)
    {
      var index2 := 0;
      while index2 < |nodes|
        invariant 0 <= index2 <= |nodes| && Building(store, infos, index, index2, 0, 0, w, end)
      {
        w := WirePair(nodes, infos, index, index2, store, w, end);
        index2 := index2 + 1;
      }
      index := index + 1;
    }
  }

  /** "Set to the root node" */
  method AttachToRoot(root: Node, nodes: seq<Node>, ghost store: Store, ghost w: Wiring, ghost end: Wiring)
    requires Stores(store, nodes) && ROOT_INDEX in store && store[ROOT_INDEX] == root
    requires WiredAs(store, w) && AttachFrom(|nodes|, 0, w) == Some(end)
    modifies store.Values`child, store.Values`next, store.Values`parents
    ensures WiredAs(store, end)
  {
    hide WiredAs, Stores, AttachFrom;
    ghost var v := w;
    var index := 0;
    while index < |nodes|
      invariant 0 <= index <= |nodes| && WiredAs(store, v) && AttachFrom(|nodes|, index, v) == Some(end)
    {
      v := AttachNode(root, nodes, index, store, v, end);
      index := index + 1;
    }
    AttachEnds(|nodes|, v);
  }

  method AttachNode(root: Node, nodes: seq<Node>, index: nat, ghost store: Store, ghost v: Wiring, ghost end: Wiring)
    returns (ghost v': Wiring)
    requires Stores(store, nodes) && ROOT_INDEX in store && store[ROOT_INDEX] == root && index < |nodes|
    requires WiredAs(store, v) && AttachFrom(|nodes|, index, v) == Some(end)
    modifies store.Values`child, store.Values`next, store.Values`parents
    ensures WiredAs(store, v') && AttachFrom(|nodes|, index + 1, v') == Some(end)
  {
    hide Ranked, Reaches, InsertChild, Rerank;
    v' := v;
    assert nodes[index].parents == [] <==> index !in FirstParents(store);
    if nodes[index].parents == [] {
      InsertChildNode(root, nodes[index], store, v.rank);
      v' := Insert(|nodes|, v, ROOT_INDEX, index);
    }
  }

  /** The two pointers of a node, in the heap and as a value. */
  lemma PointersAre(store: Store, g: Links<int>, rank: map<int, nat>, node: Node)
    requires Closed(store) && g == LinksOf(store) && Ranked(g, store.Keys, rank)
    requires node.index in store && store[node.index] == node
    ensures node.index in rank
    ensures node.child == null <==> node.index !in g.child
    ensures node.child != null ==>
              && node.child.index == g.child[node.index] && node.child.index in store
              && store[node.child.index] == node.child && node.child.index in rank
              && rank[node.child.index] < rank[node.index]
    ensures node.next == null <==> node.index !in g.next
    ensures node.next != null ==>
              && node.next.index == g.next[node.index] && node.next.index in store
              && store[node.next.index] == node.next && node.next.index in rank
              && rank[node.next.index] < rank[node.index]
  {
  }

  // --------------------------------------------------------------- laxity search

  /** The first statement of `_compute_laxity`. */
  method UpdateLaxity(node: Node, sum: int, ghost store: Store)
    requires Closed(store) && node.index in store && store[node.index] == node
    modifies node`invLaxity
    ensures Closed(store) && LinksOf(store) == old(LinksOf(store))
    ensures LaxityOf(store) == Update(RunOf(store), node.index, sum, old(LaxityOf(store)))
  {
    ghost var before := LaxityOf(store);
    if node.runTime + sum > node.invLaxity {
      if node.runTime >= 0 {
        node.invLaxity := sum + node.runTime;
      }
    }
    forall i | i in store && i != node.index ensures LaxityOf(store)[i] == before[i] {
      assert store[i].index == i;
    }
  }

  /** `_compute_laxity`: the search of NodeLinks on the heap.  The accumulator comes back as it
  went in. */
  method ComputeLaxityFrom(node: Node, sum: int, ghost store: Store, ghost g: Links<int>, ghost rank: map<int, nat>)
    returns (sum': int)
    requires Closed(store) && node.index in store && store[node.index] == node
    requires g == LinksOf(store) && Ranked(g, store.Keys, rank)
    modifies store.Values`invLaxity
    ensures sum' == sum
    ensures Closed(store) && LinksOf(store) == g
    ensures LaxityOf(store) == Search(g, store.Keys, rank, RunOf(store), node.index, sum, old(LaxityOf(store)))
    decreases rank[node.index]
  {
    hide Closed, LinksOf, LaxityOf, Ranked, Update, NodeLinks.Search;
    PointersAre(store, g, rank, node);
    LaxityKeysAre(store);
    ghost var ns, run, x := store.Keys, RunOf(store), node.index;
    sum' := sum;
    UpdateLaxity(node, sum', store);
    LaxityKeysAre(store);
    if node.child != null {
      sum' := sum' + Cost(node.runTime);
      sum' := ComputeLaxityFrom(node.child, sum', store, g, rank);
      sum' := sum' - Cost(node.runTime);
    }
    LaxityKeysAre(store);
    ghost var lax2 := LaxityOf(store);
    if node.next != null {
      sum' := ComputeLaxityFrom(node.next, sum', store, g, rank);
    }
    SearchSteps(g, ns, rank, run, x, sum, old(LaxityOf(store)), lax2, LaxityOf(store));
  }

  lemma LaxityKeysAre(store: Store)
    ensures LaxityOf(store).Keys == store.Keys
  {
  }

  // ---------------------------------------------------------------- node search

  /** `search_node`: a reachable node with the index if there is one. */
  function SearchNode(node: Node?, index: int, ghost store: Store, ghost rank: map<int, nat>): (r: Node?)
    requires Closed(store) && Stored(store, node) && Ranked(LinksOf(store), store.Keys, rank)
    reads store.Values`child, store.Values`next
    ensures Stored(store, r)
    ensures r != null ==> node != null && r.index == index && Reaches(LinksOf(store), node.index, index)
    ensures r == null && node != null && index in store ==> !Reaches(LinksOf(store), node.index, index)
    decreases if node == null then 0 else rank[node.index] + 1
  {
    if node == null then null
    else if node.index == index then
      ReachesSelf(LinksOf(store), index);
      node
    else
      assert node.child != null ==> node.index in LinksOf(store).child;
      assert node.next != null ==> node.index in LinksOf(store).next;
      ReachesCases(LinksOf(store), node.index, index);
      var inChild := if node.child != null then SearchNode(node.child, index, store, rank) else null;
      if inChild != null then inChild
      else if node.next != null then SearchNode(node.next, index, store, rank) else null
  }

  // ---------------------------------------------------------------- leaf search

  /** Size of the static array `search_leaf_node` fills. */
  const MAX_LEAF_LIST: nat := 16

  /** The list starts with the nodes of these indices. */
  ghost predicate Holding(store: Store, list: seq<Node?>, found: seq<int>) {
    |found| <= |list| && forall k | 0 <= k < |found| :: found[k] in store && list[k] == store[found[k]]
  }

  /** `_is_exist_leaf_node` */
  method IsExistLeafNode(node: Node, list: array<Node?>, size: nat) returns (exist: bool)
    requires size <= list.Length
    ensures exist <==> node in list[..size]
  {
    var i := 0;
    while i < size
      invariant 0 <= i <= size && node !in list[..i]
    {
      if list[i] == node {
        return true;
      }
      i := i + 1;
    }
    return false;
  }

  lemma HeldIndices(store: Store, list: seq<Node?>, found: seq<int>, node: Node)
    requires Closed(store) && Holding(store, list, found) && node.index in store && store[node.index] == node
    ensures node in list[..|found|] <==> node.index in found
  {
    if node in list[..|found|] {
      var k :| 0 <= k < |found| && list[..|found|][k] == node;
      assert found[k] == node.index;
    }
    if node.index in found {
      var k :| 0 <= k < |found| && found[k] == node.index;
      assert list[..|found|][k] == node;
    }
  }

  /** `_search_leaf_node`: the search of LeafSearch on the heap. Where the code would write behind the list,
  this stops and says so. */
  method SearchLeafFrom(node: Node, list: array<Node?>, i0: nat, ghost store: Store, ghost g: Links<int>,
                        ghost rank: map<int, nat>, ghost found: seq<int>)
    returns (ok: bool, i: nat)
    requires Closed(store) && node.index in store && store[node.index] == node
    requires g == LinksOf(store) && Ranked(g, store.Keys, rank)
    requires i0 == |found| && Holding(store, list[..], found)
    modifies list
    ensures ok <==> |Leaves(g, store.Keys, rank, node.index, found)| <= list.Length
    ensures ok ==> i == |Leaves(g, store.Keys, rank, node.index, found)|
    ensures ok ==> Holding(store, list[..], Leaves(g, store.Keys, rank, node.index, found))
    decreases rank[node.index]
  {
    hide Closed, LinksOf, Ranked;
    PointersAre(store, g, rank, node);
    ok, i := true, i0;
    ghost var now := found;
    if node.child != null {
      now := Leaves(g, store.Keys, rank, node.child.index, found);
      if node.next != null { LeavesGrow(g, store.Keys, rank, node.next.index, now); }
      ok, i := SearchLeafFrom(node.child, list, i, store, g, rank, found);
    } else {
      HeldIndices(store, list[..], found, node);
      assert list[..][..i] == list[..i];
      var exist := IsExistLeafNode(node, list, i);
      if exist {
        return;
      }
      now := found + [node.index];
      if node.next != null { LeavesGrow(g, store.Keys, rank, node.next.index, now); }
      ok := i < list.Length;
      if ok {
        list[i] := node;
        i := i + 1;
      }
    }
    if ok && node.next != null {
      ok, i := SearchLeafFrom(node.next, list, i, store, g, rank, now);
    }
  }

  // ------------------------------------------------------------- copies of nodes

  function JobOf(n: Node): Job
    reads n`invLaxity
  {
    Job(n.index, n.core, n.runTime, n.invLaxity)
  }

  ghost function IndicesOf(jobs: seq<Job>): seq<int> {
    seq(|jobs|, i requires 0 <= i < |jobs| => jobs[i].index)
  }

  ghost predicate MadeFrom(nodes: seq<Node>, infos: seq<NodeInfo>) {
    && |nodes| == |infos|
    && forall i | 0 <= i < |nodes| :: nodes[i].core == infos[i].core && nodes[i].runTime == infos[i].runTime
  }

  lemma FreshStore(nodes: seq<Node>, root: Node, n: nat) returns (store: Store)
    requires |nodes| == n && root.index == ROOT_INDEX
    requires root.parents == [] && root.child == null && root.next == null
    requires forall i | 0 <= i < n ::
               nodes[i].index == i && nodes[i].parents == [] && nodes[i].child == null && nodes[i].next == null
    ensures Stores(store, nodes) && store[ROOT_INDEX] == root && WiredAs(store, Start(n))
    ensures forall i | i in store :: store[i] == root || store[i] in nodes
  {
    store := (map i | 0 <= i < |nodes| :: nodes[i])[ROOT_INDEX := root];
    assert LinksOf(store) == Start(n).links;
    assert FirstParents(store) == Start(n).first;
  }

  /** The wiring of a new graph: first the shared topics, then the root. */
  method BuildGraph(root: Node, nodes: seq<Node>, infos: seq<NodeInfo>, ghost store: Store) returns (ghost rank: map<int, nat>)
    requires |nodes| == |infos| && Stores(store, nodes) && store[ROOT_INDEX] == root && Buildable(infos)
    requires WiredAs(store, Start(|infos|))
    modifies store.Values`child, store.Values`next, store.Values`parents
    ensures Closed(store) && Connected(LinksOf(store), store.Keys, rank)
    ensures TopicsLinked(infos, LinksOf(store))
  {
    ghost var wired := Built(infos).value;
    WireTopics(nodes, infos, store, wired);
    AttachConnects(|infos|, wired);
    ghost var end := AttachFrom(|infos|, 0, wired).value;
    AttachToRoot(root, nodes, store, wired, end);
    assert AllConnected(|infos|, wired, end);
    rank := end.rank;
    GraphLinked(infos, wired, LinksOf(store));
  }

  ghost predicate Unsearched(store: Store)
    reads store.Values`invLaxity
  {
    forall i | i in store :: store[i].invLaxity == -1
  }

  lemma UnsetLaxity(store: Store)
    requires Unsearched(store)
    ensures forall i | i in LaxityOf(store) :: LaxityOf(store)[i] == -1
  {
  }

  method NewGraph(infos: seq<NodeInfo>)
    returns (root: Node, nodes: seq<Node>, ghost store: Store, ghost g: Links<int>, ghost rank: map<int, nat>)
    requires Buildable(infos)
    ensures MadeFrom(nodes, infos) && Stores(store, nodes)
    ensures store[ROOT_INDEX] == root && root.index == -10 && root.core == 0 && root.runTime == -1
    ensures Closed(store) && LinksOf(store) == g && Unsearched(store)
    ensures Connected(g, store.Keys, rank) && TopicsLinked(infos, g) && store.Keys == Ids(|infos|)
  {
    root := new Node(ROOT_INDEX, 0, -1);
    nodes := MakeNodes(infos);
    store := FreshStore(nodes, root, |infos|);
    rank := BuildGraph(root, nodes, infos, store);
    g := LinksOf(store);
  }

  /** The indices c are those of the nodes met by following `next`. */
  ghost predicate Followed(store: Store, c: seq<int>)
    reads store.Values`next
  {
    forall k | 0 <= k < |c| :: FollowedAt(store, c, k)
  }

  ghost predicate FollowedAt(store: Store, c: seq<int>, k: nat)
    requires k < |c|
    reads store.Values`next
  {
    && c[k] in store && (k + 1 < |c| ==> c[k + 1] in store)
    && store[c[k]].next == (if k + 1 < |c| then store[c[k + 1]] else null)
  }

  /** The list holds the nodes with these indices, then a null. */
  ghost predicate Listed(store: Store, list: seq<Node?>, c: seq<int>) {
    && |c| < |list| && list[|c|] == null
    && forall k | 0 <= k < |c| :: c[k] in store && list[k] == store[c[k]]
  }

  /** The copying part of `search_child_nodes`. */
  method CopyChain(node: Node, list: array<Node?>, ghost store: Store, ghost c: seq<int>) returns (ok: bool)
    requires list.Length >= 1 && Followed(store, c)
    requires if c == [] then node.child == null else c[0] in store && node.child == store[c[0]]
    modifies list
    ensures ok <==> |c| < list.Length
    ensures ok ==> Listed(store, list[..], c)
  {
    list[0] := node.child;
    if node.child == null {
      return true;
    }
    assert FollowedAt(store, c, 0);
    var child := node.child.next;
    var i := 1;
    while i < list.Length
      invariant 1 <= i <= |c| && i <= list.Length
      invariant c[i - 1] in store && child == store[c[i - 1]].next
      invariant forall k | 0 <= k < i :: c[k] in store && list[k] == store[c[k]]
    {
      assert FollowedAt(store, c, i - 1);
      list[i] := child;
      if list[i] == null {
        return true;
      }
      child := child.next;
      i := i + 1;
    }
    return false;
  }

  /** The copying part of `sched_child_list`. */
  method CopyJobs(childList: array<Node?>, ghost store: Store, ghost c: seq<int>) returns (list: seq<Job>)
    requires childList.Length == CHILD_SIZE && Listed(store, childList[..], c)
    requires forall i | i in store :: store[i].index == i
    ensures IndicesOf(list) == c
  {
    list := [];
    var i := 0;
    while i < CHILD_SIZE
      invariant 0 <= i <= |c| && |list| == i
      invariant forall k | 0 <= k < i :: list[k].index == c[k]
    {
      if childList[i] == null {
        break;
      }
      list := list + [JobOf(childList[i])];
      i := i + 1;
    }
    assert childList[..][|c|] == null;
  }

  class GraphAnalyzer {
    const root: Node
    const nodes: seq<Node>
    ghost const store: Store
    ghost const shape: Shape
    ghost var laxity: map<int, int>

    ghost predicate Valid()
      reads this, store.Values`child, store.Values`next, store.Values`invLaxity
    {
      Searched(laxity)
    }

    /** Nodes sit at their index, pointers are acyclic, the root reaches every node, and the
    laxities are lax. */
    ghost predicate Searched(lax: map<int, int>)
      reads store.Values`child, store.Values`next, store.Values`invLaxity
    {
      && Stores(store, nodes) && store[ROOT_INDEX] == root && root.runTime == -1
      && MadeFrom(nodes, shape.infos) && Good(shape)
      && Closed(store) && LinksOf(store) == shape.links && LaxityOf(store) == lax
    }

    /** The graph for a list of nodes whose shared topics can be wired without closing a cycle:
    it is acyclic, the root reaches every node, and every publisher is in the chain of every
    subscriber to one of its topics. */
    constructor (infos: seq<NodeInfo>)
      requires Buildable(infos)
      ensures Valid() && shape.infos == infos && TopicsLinked(infos, shape.links)
      ensures forall i | i in laxity :: laxity[i] == -1
    {
      hide Stores, MadeFrom, Closed, LinksOf, LaxityOf, Connected, TopicsLinked;
      var r, ns;
      ghost var st, g, rk;
      r, ns, st, g, rk := NewGraph(infos);
      UnsetLaxity(st);
      root, nodes, store, shape, laxity := r, ns, st, Shape(infos, g, rk), LaxityOf(st);
    }

    /** `compute_laxity`: on fresh nodes every laxity becomes the longest path from the root, and
    computing again changes nothing. */
    method ComputeLaxity()
      requires Valid()
      requires LaxityComputed(shape, laxity) || forall i | i in laxity :: laxity[i] == -1
      modifies `laxity, store.Values`invLaxity
      ensures Valid() && LaxityComputed(shape, laxity)
      ensures LaxityComputed(shape, old(laxity)) ==> laxity == old(laxity)
    {
      hide LaxityComputed, Good, Closed, LinksOf, MadeFrom, Stores;
      LaxityKeys(laxity);
      LaxityComputes(shape, laxity);
      laxity := SearchRoot(laxity);
    }

    lemma LaxityKeys(lax: map<int, int>)
      requires Searched(lax)
      ensures lax.Keys == Ids(|shape.infos|)
    {
    }

    method SearchRoot(ghost lax: map<int, int>) returns (ghost lax': map<int, int>)
      requires Valid() && lax == laxity
      modifies store.Values`invLaxity
      ensures lax' == LaxityFrom(shape, lax)
      ensures Searched(lax')
    {
      RunTimesAre();
      hide Reaches, LinksOf, LaxityOf;
      var _ := ComputeLaxityFrom(root, 0, store, shape.links, shape.rank);
      lax' := LaxityOf(store);
    }

    lemma RunTimesAre()
      requires Stores(store, nodes) && store[ROOT_INDEX] == root && root.runTime == -1 && MadeFrom(nodes, shape.infos)
      ensures RunOf(store) == RunTimes(shape.infos)
    {
    }

    /** `search_node` from the root. */
    function Search(index: int): (r: Node?)
      requires Valid() && index in store
      reads this, store.Values`child, store.Values`next, store.Values`invLaxity
      ensures r == store[index]
    {
      SearchNode(root, index, store, shape.rank)
    }

    /** The chain of children is what following the pointers visits. */
    lemma ChainFollowed(index: int)
      requires Valid() && index in store
      ensures var c := ChainOf(shape, index);
              && Followed(store, c)
              && (if store[index].child == null then c == []
                  else c != [] && c[0] in store && store[c[0]] == store[index].child)
    {
      var c := ChainOf(shape, index);
      assert store[index].child == null <==> index !in shape.links.child;
      forall k | 0 <= k < |c| ensures FollowedAt(store, c, k) {
        ChainFromStep(shape.links, store.Keys, shape.rank, shape.links.child[index], k);
      }
    }

    /** `search_child_nodes`: writes the chain of children and a null into the list, or fails. */
    method SearchChildNodes(index: int, list: array<Node?>) returns (ok: bool)
      requires Valid() && 0 <= index < |nodes|
      modifies list
      ensures ok <==> |ChainOf(shape, index)| < list.Length
      ensures ok ==> Listed(store, list[..], ChainOf(shape, index))
    {
      if list.Length < 1 {
        return false;
      }
      var node := Search(index);
      ChainFollowed(index);
      ok := CopyChain(node, list, store, ChainOf(shape, index));
    }

    /** `sched_child_list` */
    method SchedChildList(index: int) returns (ok: bool, list: seq<Job>)
      requires Valid() && 0 <= index < |nodes|
      ensures ok <==> |ChainOf(shape, index)| < 16
      ensures IndicesOf(list) == if |ChainOf(shape, index)| < 16 then ChainOf(shape, index) else []
    {
      list := [];
      var childList := new Node?[CHILD_SIZE];
      ok := SearchChildNodes(index, childList);
      if ok {
        list := CopyJobs(childList, store, ChainOf(shape, index));
      }
    }

    /** `search_leaf_node`: the reachable leaves, each once, and a null after them, exactly if there is room for
    them in the list. */
    method SearchLeafNode(list: array<Node?>) returns (ok: bool, ghost leaves: seq<int>)
      requires Valid() && list.Length == MAX_LEAF_LIST
      modifies list
      ensures leaves == LeavesOf(shape) && list.Length == 16
      ensures ok <==> |leaves| < 16
      ensures ok ==> Listed(store, list[..], leaves)
    {
      hide Leaves, Ranked, Reaches;
      leaves := LeavesOf(shape);
      assert root.index == ROOT_INDEX;
      var i;
      ok, i := SearchLeafFrom(root, list, 0, store, shape.links, shape.rank, []);
      ok := ok && i < MAX_LEAF_LIST;
      if ok {
        assert list[..][..|leaves|] == list[..|leaves|];
        list[i] := null;
      }
    }

    /** The sort keys of all nodes: the first loop of `sched_all_node_queue`. */
    method CollectKeys() returns (arr: seq<SortKey>)
      requires Valid()
      ensures |arr| == |nodes|
      ensures forall i | 0 <= i < |arr| :: arr[i] == KeyOf(Jobs(shape.infos, laxity)[i])
    {
      hide Searched, Jobs;
      ghost var jobs := Jobs(shape.infos, laxity);
      JobsCopied();
      arr := [];
      var i := 0;
      while i < |nodes|
        invariant 0 <= i <= |nodes| && |arr| == i
        invariant forall k | 0 <= k < i :: arr[k] == KeyOf(jobs[k])
      {
        assert JobOf(nodes[i]) == jobs[i];
        arr := arr + [SortKey(nodes[i].index, nodes[i].invLaxity, nodes[i].runTime)];
        i := i + 1;
      }
    }

    /** `sched_all_node_queue`: the nodes sorted by inverse laxity. */
    method SchedAllNodeQueue() returns (queue: seq<Job>)
      requires Valid()
      ensures QueueOf(Jobs(shape.infos, laxity), queue) && LaxityOrdered(queue)
    {
      hide Searched, Jobs, QueueOf, LaxityOrdered, Sort, Sorted;
      JobsCopied();
      var arr := CollectKeys();
      var sorted := Sort(arr);
      KeysPermuted(arr, sorted);
      queue := CopySorted(sorted);
      SortedIsQueue(Jobs(shape.infos, laxity), arr, sorted, queue);
    }

    /** The jobs are copies of the nodes. */
    lemma JobsCopied()
      requires Valid()
      ensures |nodes| == |shape.infos|
      ensures forall i | 0 <= i < |nodes| ::
                i in store && store[i] == nodes[i] && JobOf(nodes[i]) == Jobs(shape.infos, laxity)[i]
    {
      forall i | 0 <= i < |nodes| ensures JobOf(nodes[i]) == Jobs(shape.infos, laxity)[i] {
        assert store[i].index == i && laxity[i] == nodes[i].invLaxity;
      }
    }

    /** The second loop of `sched_all_node_queue`. */
    method CopySorted(sorted: seq<SortKey>) returns (queue: seq<Job>)
      requires Valid() && forall k | 0 <= k < |sorted| :: 0 <= sorted[k].index < |nodes|
      ensures |queue| == |sorted|
      ensures forall k | 0 <= k < |sorted| :: queue[k] == Jobs(shape.infos, laxity)[sorted[k].index]
    {
      hide Searched, Jobs;
      ghost var jobs := Jobs(shape.infos, laxity);
      JobsCopied();
      queue := [];
      var i := 0;
      while i < |sorted|
        invariant 0 <= i <= |sorted| && |queue| == i
        invariant forall k | 0 <= k < i :: queue[k] == jobs[sorted[k].index]
      {
        var node := Search(sorted[i].index);
        queue := queue + [JobOf(node)];
        i := i + 1;
      }
    }
  }
}
