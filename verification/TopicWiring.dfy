/** The insertions the analyzer makes for the topics nodes share, in the order of its four nested
loops, as a function on pointer structures. */
module TopicWiring {
  import opened GraphBuild
  import opened NodeLinks
  import opened Options
  import opened Sets
  import opened Timeline

  datatype NodeInfo = NodeInfo(core: int32, runTime: int32, subTopics: seq<string>, pubTopics: seq<string>)

  ghost function Ids(n: nat): set<int> { Range(0, n) + {ROOT_INDEX} }

  /** Pointers, ranks that show them acyclic, and the first recorded parents. */
  datatype Wiring = Wiring(links: Links<int>, rank: map<int, nat>, first: map<int, int>)

  ghost function Start(n: nat): Wiring {
    Wiring(Links(map[], map[]), map i | i in Ids(n) :: 0, map[])
  }

  ghost predicate Sound(n: nat, w: Wiring) {
    Ranked(w.links, Ids(n), w.rank) && Parented(w.links, w.first) && w.first.Keys <= Ids(n)
  }

  /** c can be inserted under p without closing a cycle. */
  ghost predicate CanInsert(n: nat, w: Wiring, p: int, c: int) {
    && p in Ids(n) && c in Ids(n)
    && Ranked(w.links, Ids(n), w.rank)
    && !Reaches(w.links, c, LinkSource(w.links, Ids(n), w.rank, p))
  }

  ghost function Insert(n: nat, w: Wiring, p: int, c: int): Wiring
    requires CanInsert(n, w, p, c)
  {
    Wiring(InsertChild(w.links, Ids(n), w.rank, p, c), Rerank(w.links, Ids(n), w.rank, p, c), Record(w.first, p, c))
  }

  /** A point of the four nested loops: subscriber, publisher, and a topic of each. */
  ghost predicate Within(infos: seq<NodeInfo>, a: nat, b: nat, i: nat, j: nat) {
    && a <= |infos| && b <= |infos|
    && (a < |infos| ==> i <= |infos[a].subTopics|)
    && (b < |infos| ==> j <= |infos[b].pubTopics|)
  }

  /** What the loops make of w from a point on, unless an insertion closes a cycle. */
  ghost function BuildFrom(infos: seq<NodeInfo>, a: nat, b: nat, i: nat, j: nat, w: Wiring): Option<Wiring>
    requires Within(infos, a, b, i, j)
    decreases |infos| - a, |infos| - b, if a < |infos| then |infos[a].subTopics| - i else 0,
              if b < |infos| then |infos[b].pubTopics| - j else 0
  {
    if a == |infos| then Some(w)
    else if b == |infos| then BuildFrom(infos, a + 1, 0, 0, 0, w)
    else if i == |infos[a].subTopics| then BuildFrom(infos, a, b + 1, 0, 0, w)
    else if j == |infos[b].pubTopics| then BuildFrom(infos, a, b, i + 1, 0, w)
    else if infos[a].subTopics[i] != infos[b].pubTopics[j] then BuildFrom(infos, a, b, i, j + 1, w)
    else if CanInsert(|infos|, w, a, b) then BuildFrom(infos, a, b, i, j + 1, Insert(|infos|, w, a, b))
    else None
  }

  ghost function Built(infos: seq<NodeInfo>): Option<Wiring> {
    BuildFrom(infos, 0, 0, 0, 0, Start(|infos|))
  }

  /** No insertion for a shared topic closes a cycle. */
  ghost predicate Buildable(infos: seq<NodeInfo>) {
    Built(infos).Some?
  }

  lemma StartSound(n: nat)
    ensures Sound(n, Start(n))
  {
  }

  lemma InsertSound(n: nat, w: Wiring, p: int, c: int)
    requires Sound(n, w) && CanInsert(n, w, p, c) && p != ROOT_INDEX && c != ROOT_INDEX
    ensures Sound(n, Insert(n, w, p, c))
    ensures Extends(w.links, Insert(n, w, p, c).links) && InChain(Insert(n, w, p, c).links, p, c)
  {
    SafeInsert(w.links, Ids(n), w.rank, p, c);
    ParentedInsert(w.links, Ids(n), w.rank, w.first, p, c);
    InsertExtends(w.links, Ids(n), w.rank, p, c);
    InsertedInChain(w.links, Ids(n), w.rank, p, c);
  }

  lemma ExtendsOn<N>(f: Links<N>, g: Links<N>, h: Links<N>)
    requires Extends(f, g) && Extends(g, h)
    ensures Extends(f, h)
  {
  }

  /** The wiring built is acyclic, records a parent for every inserted node, and keeps all
  pointers there were. */
  lemma {:induction false} BuildSound(infos: seq<NodeInfo>, a: nat, b: nat, i: nat, j: nat, w: Wiring)
    requires Within(infos, a, b, i, j) && Sound(|infos|, w) && BuildFrom(infos, a, b, i, j, w).Some?
    ensures Sound(|infos|, BuildFrom(infos, a, b, i, j, w).value)
    ensures Extends(w.links, BuildFrom(infos, a, b, i, j, w).value.links)
    decreases |infos| - a, |infos| - b, if a < |infos| then |infos[a].subTopics| - i else 0,
              if b < |infos| then |infos[b].pubTopics| - j else 0
  {
    if a == |infos| {
    } else if b == |infos| {
      BuildSound(infos, a + 1, 0, 0, 0, w);
    } else if i == |infos[a].subTopics| {
      BuildSound(infos, a, b + 1, 0, 0, w);
    } else if j == |infos[b].pubTopics| {
      BuildSound(infos, a, b, i + 1, 0, w);
    } else if infos[a].subTopics[i] != infos[b].pubTopics[j] {
      BuildSound(infos, a, b, i, j + 1, w);
    } else {
      var w' := Insert(|infos|, w, a, b);
      InsertSound(|infos|, w, a, b);
      BuildSound(infos, a, b, i, j + 1, w');
      ExtendsOn(w.links, w'.links, BuildFrom(infos, a, b, i, j, w).value.links);
    }
  }

  /** (a, b, i, j) comes no later in the loops than (a', b', i', j'). */
  ghost predicate NotAfter(a: nat, b: nat, i: nat, j: nat, a': nat, b': nat, i': nat, j': nat) {
    a < a' || (a == a' && (b < b' || (b == b' && (i < i' || (i == i' && j <= j')))))
  }

  /** A publisher is in the chain of every subscriber to one of its topics. */
  lemma {:induction false} BuildChains(infos: seq<NodeInfo>, a: nat, b: nat, i: nat, j: nat, w: Wiring,
                                       a': nat, b': nat, i': nat, j': nat)
    requires Within(infos, a, b, i, j) && Sound(|infos|, w) && BuildFrom(infos, a, b, i, j, w).Some?
    requires a' < |infos| && b' < |infos| && i' < |infos[a'].subTopics| && j' < |infos[b'].pubTopics|
    requires infos[a'].subTopics[i'] == infos[b'].pubTopics[j'] && NotAfter(a, b, i, j, a', b', i', j')
    ensures InChain(BuildFrom(infos, a, b, i, j, w).value.links, a', b')
    decreases |infos| - a, |infos| - b, if a < |infos| then |infos[a].subTopics| - i else 0,
              if b < |infos| then |infos[b].pubTopics| - j else 0
  {
    if b == |infos| {
      BuildChains(infos, a + 1, 0, 0, 0, w, a', b', i', j');
    } else if i == |infos[a].subTopics| {
      BuildChains(infos, a, b + 1, 0, 0, w, a', b', i', j');
    } else if j == |infos[b].pubTopics| {
      BuildChains(infos, a, b, i + 1, 0, w, a', b', i', j');
    } else if infos[a].subTopics[i] != infos[b].pubTopics[j] {
      BuildChains(infos, a, b, i, j + 1, w, a', b', i', j');
    } else {
      var w' := Insert(|infos|, w, a, b);
      InsertSound(|infos|, w, a, b);
      if (a, b, i, j) == (a', b', i', j') {
        BuildSound(infos, a, b, i, j + 1, w');
        ChainKept(w'.links, BuildFrom(infos, a, b, i, j, w).value.links, a, b);
      } else {
        BuildChains(infos, a, b, i, j + 1, w', a', b', i', j');
      }
    }
  }

  /** If no insertion closes a cycle, the loops reach every match and insert there. */
  lemma {:induction false} BuildPasses(infos: seq<NodeInfo>, a: nat, b: nat, i: nat, j: nat, w: Wiring,
                                       a': nat, b': nat, i': nat, j': nat) returns (v: Wiring)
    requires Within(infos, a, b, i, j) && Sound(|infos|, w) && BuildFrom(infos, a, b, i, j, w).Some?
    requires a' < |infos| && b' < |infos| && i' < |infos[a'].subTopics| && j' < |infos[b'].pubTopics|
    requires infos[a'].subTopics[i'] == infos[b'].pubTopics[j'] && NotAfter(a, b, i, j, a', b', i', j')
    ensures Sound(|infos|, v) && Extends(w.links, v.links) && CanInsert(|infos|, v, a', b')
    ensures Within(infos, a', b', i', j' + 1) && Sound(|infos|, Insert(|infos|, v, a', b'))
    ensures BuildFrom(infos, a', b', i', j' + 1, Insert(|infos|, v, a', b')) == BuildFrom(infos, a, b, i, j, w)
    decreases |infos| - a, |infos| - b, if a < |infos| then |infos[a].subTopics| - i else 0,
              if b < |infos| then |infos[b].pubTopics| - j else 0
  {
    hide Ranked, Parented, Reaches, Rerank, InsertChild, Record;
    if b == |infos| {
      v := BuildPasses(infos, a + 1, 0, 0, 0, w, a', b', i', j');
    } else if i == |infos[a].subTopics| {
      v := BuildPasses(infos, a, b + 1, 0, 0, w, a', b', i', j');
    } else if j == |infos[b].pubTopics| {
      v := BuildPasses(infos, a, b, i + 1, 0, w, a', b', i', j');
    } else if infos[a].subTopics[i] != infos[b].pubTopics[j] {
      v := BuildPasses(infos, a, b, i, j + 1, w, a', b', i', j');
    } else {
      var w' := Insert(|infos|, w, a, b);
      InsertSound(|infos|, w, a, b);
      if (a, b, i, j) == (a', b', i', j') {
        v := w;
      } else {
        v := BuildPasses(infos, a, b, i, j + 1, w', a', b', i', j');
        ExtendsOn(w.links, w'.links, v.links);
      }
    }
  }

  ghost predicate Matches(infos: seq<NodeInfo>, a: nat, b: nat, i: nat, j: nat) {
    && a < |infos| && b < |infos| && i < |infos[a].subTopics| && j < |infos[b].pubTopics|
    && infos[a].subTopics[i] == infos[b].pubTopics[j]
  }

  // ------------------------------------------------------------------- the root

  /** The parentless nodes before index, and the root. */
  ghost function AttachedTo(first: map<int, int>, index: int): set<int> {
    {ROOT_INDEX} + set i | 0 <= i < index && i !in first
  }

  ghost predicate Attaching(n: nat, w0: Wiring, index: int, w: Wiring) {
    && Ranked(w.links, Ids(n), w.rank)
    && Attached(w0.links, w0.first, w.links, AttachedTo(w0.first, index))
    && (forall i | index <= i < n :: i in w.first <==> i in w0.first)
  }

  lemma AttachNext(n: nat, w0: Wiring, index: nat, w: Wiring)
    requires index < n && Attaching(n, w0, index, w)
    ensures index in w.first ==> Attaching(n, w0, index + 1, w)
    ensures index !in w.first ==>
              CanInsert(n, w, ROOT_INDEX, index) && Attaching(n, w0, index + 1, Insert(n, w, ROOT_INDEX, index))
  {
    var done, i := AttachedTo(w0.first, index), index as int;
    assert AttachedTo(w0.first, index + 1) == if i in w0.first then done else done + {i};
    if i !in w.first {
      AttachStep(w0.links, w0.first, w.links, done, Ids(n), w.rank, i);
      SafeInsert(w.links, Ids(n), w.rank, ROOT_INDEX, i);
    }
  }

  lemma AttachingStarts(n: nat, w0: Wiring)
    requires Sound(n, w0)
    ensures Attaching(n, w0, 0, w0)
  {
    AttachedStart(w0.links, w0.first);
    assert AttachedTo(w0.first, 0) == {ROOT_INDEX};
  }

  /** What the last loop makes of w from node k on: it inserts every node without a recorded parent under the
  root, unless that closes a cycle. */
  ghost function AttachFrom(n: nat, k: nat, w: Wiring): Option<Wiring>
    requires k <= n
    decreases n - k
  {
    if k == n then Some(w)
    else if k in w.first then AttachFrom(n, k + 1, w)
    else if CanInsert(n, w, ROOT_INDEX, k) then AttachFrom(n, k + 1, Insert(n, w, ROOT_INDEX, k))
    else None
  }

  lemma AttachEnds(n: nat, w: Wiring)
    ensures AttachFrom(n, n, w) == Some(w)
  {
  }

  /** g has only those pointers g0 lacks that attach parentless nodes: the root's child, and the next of
  parentless nodes. */
  ghost predicate OnlyAttached(g0: Links<int>, first: map<int, int>, g: Links<int>) {
    && (forall x | x in g.child && x != ROOT_INDEX :: x in g0.child)
    && (forall x | x in g.next && x in first :: x in g0.next)
  }

  lemma AttachOnly(n: nat, w0: Wiring, index: nat, w: Wiring)
    requires index < n && Attaching(n, w0, index, w) && OnlyAttached(w0.links, w0.first, w.links)
    requires CanInsert(n, w, ROOT_INDEX, index)
    ensures OnlyAttached(w0.links, w0.first, Insert(n, w, ROOT_INDEX, index).links)
  {
    hide LinkSource, Ranked, Reaches, Attached;
    RootSource(w0.links, w0.first, w.links, AttachedTo(w0.first, index), Ids(n), w.rank);
  }

  lemma {:induction false} AttachGoesOn(n: nat, w0: Wiring, k: nat, v: Wiring)
    requires k <= n && Attaching(n, w0, k, v) && OnlyAttached(w0.links, w0.first, v.links)
    ensures AttachFrom(n, k, v).Some?
    ensures var w := AttachFrom(n, k, v).value; Attaching(n, w0, n, w) && OnlyAttached(w0.links, w0.first, w.links)
    decreases n - k
  {
    hide Attaching, CanInsert, Ranked, Attached, Insert, OnlyAttached;
    if k < n {
      AttachNext(n, w0, k, v);
      if k !in v.first {
        AttachOnly(n, w0, k, v);
      }
      AttachGoesOn(n, w0, k + 1, if k in v.first then v else Insert(n, v, ROOT_INDEX, k));
    }
  }

  /** The last loop ends; then every node is reachable, the root's chain is the parentless nodes, and there is
  no other new pointer. */
  lemma AttachConnects(n: nat, w0: Wiring)
    requires Sound(n, w0)
    ensures AttachFrom(n, 0, w0).Some?
    ensures var w := AttachFrom(n, 0, w0).value;
      && AllConnected(n, w0, w) && OnlyAttached(w0.links, w0.first, w.links)
      && forall x :: InChain(w.links, ROOT_INDEX, x) <==> 0 <= x < n && x !in w0.first
  {
    hide Sound, Attaching, OnlyAttached, AllConnected, InChain;
    AttachingStarts(n, w0);
    StartsOnly(w0);
    AttachGoesOn(n, w0, 0, w0);
    var w := AttachFrom(n, 0, w0).value;
    AttachedConnects(n, w0, w);
    forall x ensures InChain(w.links, ROOT_INDEX, x) <==> 0 <= x < n && x !in w0.first {
      RootChain(n, w0, w, x);
    }
  }

  /** In the root's chain the parentless nodes stand in the order of the node list. */
  lemma RootsInOrder(n: nat, w0: Wiring, x: nat, y: nat)
    requires Sound(n, w0) && x < y < n && x !in w0.first && y !in w0.first
    ensures AttachFrom(n, 0, w0).Some? && Follows(AttachFrom(n, 0, w0).value.links, x, y)
  {
    hide Sound, Attaching, Follows;
    AttachingStarts(n, w0);
    AttachOrders(n, w0, 0, w0, x, y);
  }

  lemma {:induction false} AttachOrders(n: nat, w0: Wiring, k: nat, v: Wiring, x: nat, y: nat)
    requires k <= n && Attaching(n, w0, k, v) && x < y < n && x !in w0.first && y !in w0.first
    requires k <= y || Follows(v.links, x, y)
    ensures AttachFrom(n, k, v).Some? && Follows(AttachFrom(n, k, v).value.links, x, y)
    decreases n - k
  {
    hide Attaching, CanInsert, Insert, Follows;
    if k < n {
      AttachNext(n, w0, k, v);
      var w := if k in v.first then v else Insert(n, v, ROOT_INDEX, k);
      AttachedFollows(n, w0, k, v, x, y);
      AttachOrders(n, w0, k + 1, w, x, y);
    }
  }

  lemma AttachedFollows(n: nat, w0: Wiring, k: nat, v: Wiring, x: nat, y: nat)
    requires k < n && Attaching(n, w0, k, v) && x < y < n && x !in w0.first && y !in w0.first
    requires k in v.first || CanInsert(n, v, ROOT_INDEX, k)
    requires k <= y || Follows(v.links, x, y)
    ensures k + 1 <= y || Follows((if k in v.first then v else Insert(n, v, ROOT_INDEX, k)).links, x, y)
  {
    hide LinkSource, Ranked, Reaches, Follows, InChain, Extends;
    if k !in v.first {
      if k == y {
        assert x as int in AttachedTo(w0.first, k);
        InsertedFollows(v.links, Ids(n), v.rank, ROOT_INDEX, k, x);
      } else if k > y {
        InsertExtends(v.links, Ids(n), v.rank, ROOT_INDEX, k);
        FollowsKept(v.links, Insert(n, v, ROOT_INDEX, k).links, x, y);
      }
    }
  }

  lemma StartsOnly(w0: Wiring)
    ensures OnlyAttached(w0.links, w0.first, w0.links)
  {
  }

  lemma RootChain(n: nat, w0: Wiring, w: Wiring, x: int)
    requires Sound(n, w0) && Attaching(n, w0, n, w)
    ensures InChain(w.links, ROOT_INDEX, x) <==> 0 <= x < n && x !in w0.first
  {
    hide Ranked;
    var done := AttachedTo(w0.first, n);
    if InChain(w.links, ROOT_INDEX, x) {
      var walk: Walk :| AllAlong(walk) && EndOf(w.links, w.links.child[ROOT_INDEX], walk) == Some(x);
      ChainInside(w0.links, w0.first, w.links, done, w.links.child[ROOT_INDEX], walk);
      NotRoot(n, w, x);
    }
  }

  lemma NotRoot(n: nat, w: Wiring, x: int)
    requires Ranked(w.links, Ids(n), w.rank) && InChain(w.links, ROOT_INDEX, x)
    ensures x != ROOT_INDEX
  {
    InChainBelow(w.links, Ids(n), w.rank, ROOT_INDEX, x);
  }

  ghost predicate AllConnected(n: nat, w0: Wiring, w: Wiring) {
    && Ranked(w.links, Ids(n), w.rank) && Extends(w0.links, w.links) && ROOT_INDEX !in w.links.next
    && forall x | x in Ids(n) :: Reaches(w.links, ROOT_INDEX, x)
  }

  lemma AttachedConnects(n: nat, w0: Wiring, w: Wiring)
    requires Sound(n, w0) && Attaching(n, w0, n, w)
    ensures AllConnected(n, w0, w)
  {
    forall x | x in Ids(n) ensures Reaches(w.links, ROOT_INDEX, x) {
      RootReaches(w0.links, w0.first, w.links, AttachedTo(w0.first, n), Ids(n), w.rank, x);
    }
  }
}
