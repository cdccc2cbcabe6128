/** Topics in which a publisher that several nodes subscribe to is the last one of each of them: exactly when
the graph construction accepts them, and exactly when chains hold nothing but publishers subscribed to. */
module SharedTopics {
  import opened GraphBuild
  import opened NodeLinks
  import opened Options
  import opened TopicShapes
  import opened TopicWiring

  /** Behind a publisher that another node subscribes to as well, a subscriber has no publisher. */
  ghost predicate SharedLast(infos: seq<NodeInfo>) {
    forall m, m', m'' | IsMatch(infos, m) && IsMatch(infos, m') && IsMatch(infos, m'') ::
      m.b == m'.b < m''.b && m'.a == m''.a ==> m.a == m'.a
  }

  /** No subscriber shares two topics with one publisher. */
  ghost predicate Once(infos: seq<NodeInfo>) {
    forall m, m' | IsMatch(infos, m) && IsMatch(infos, m') && m.a == m'.a && m.b == m'.b :: m == m'
  }

  lemma BuildableOnce(infos: seq<NodeInfo>)
    requires Buildable(infos)
    ensures Once(infos)
  {
    hide Buildable;
    forall m, m' | IsMatch(infos, m) && IsMatch(infos, m') && m.a == m'.a && m.b == m'.b ensures m == m' {
      if m.i < m'.i || (m.i == m'.i && m.j < m'.j) {
        TwoTopicsLoop(infos, m.a, m.b, m.i, m.j, m'.i, m'.j);
      } else if m != m' {
        TwoTopicsLoop(infos, m.a, m.b, m'.i, m'.j, m.i, m.j);
      }
    }
  }

  /** p has subscribed to c before this point of the loops. */
  ghost predicate Parent(infos: seq<NodeInfo>, p: int, c: int, a: nat, b: nat, i: nat, j: nat) {
    exists m :: IsMatch(infos, m) && m.a == p && m.b == c && Earlier(m, a, b, i, j)
  }

  /** x and y stand side by side below one parent. */
  ghost predicate Siblings(infos: seq<NodeInfo>, x: int, y: int, a: nat, b: nat, i: nat, j: nat) {
    x < y && exists p :: Parent(infos, p, x, a, b, i, j) && Parent(infos, p, y, a, b, i, j)
  }

  ghost predicate Neat(infos: seq<NodeInfo>, g: Links<int>, a: nat, b: nat, i: nat, j: nat) {
    && (forall x | x in g.child :: Parent(infos, x, g.child[x], a, b, i, j))
    && (forall x | x in g.next :: Siblings(infos, x, g.next[x], a, b, i, j))
  }

  lemma ParentLater(infos: seq<NodeInfo>, p: int, c: int, a: nat, b: nat, i: nat, j: nat,
                    a': nat, b': nat, i': nat, j': nat)
    requires Parent(infos, p, c, a, b, i, j) && NotAfter(a, b, i, j, a', b', i', j')
    ensures Parent(infos, p, c, a', b', i', j')
  {
    var m :| IsMatch(infos, m) && m.a == p && m.b == c && Earlier(m, a, b, i, j);
    assert Earlier(m, a', b', i', j');
  }

  lemma SiblingsLater(infos: seq<NodeInfo>, x: int, y: int, a: nat, b: nat, i: nat, j: nat,
                      a': nat, b': nat, i': nat, j': nat)
    requires Siblings(infos, x, y, a, b, i, j) && NotAfter(a, b, i, j, a', b', i', j')
    ensures Siblings(infos, x, y, a', b', i', j')
  {
    var p :| Parent(infos, p, x, a, b, i, j) && Parent(infos, p, y, a, b, i, j);
    ParentLater(infos, p, x, a, b, i, j, a', b', i', j');
    ParentLater(infos, p, y, a, b, i, j, a', b', i', j');
  }

  lemma NeatLater(infos: seq<NodeInfo>, g: Links<int>, a: nat, b: nat, i: nat, j: nat,
                  a': nat, b': nat, i': nat, j': nat)
    requires Neat(infos, g, a, b, i, j) && NotAfter(a, b, i, j, a', b', i', j')
    ensures Neat(infos, g, a', b', i', j')
  {
    forall x | x in g.child ensures Parent(infos, x, g.child[x], a', b', i', j') {
      ParentLater(infos, x, g.child[x], a, b, i, j, a', b', i', j');
    }
    forall x | x in g.next ensures Siblings(infos, x, g.next[x], a', b', i', j') {
      SiblingsLater(infos, x, g.next[x], a, b, i, j, a', b', i', j');
    }
  }

  /** A publisher with a sibling behind it has one parent. */
  lemma OneParent(infos: seq<NodeInfo>, p: int, q: int, x: int, y: int, a: nat, b: nat, i: nat, j: nat)
    requires SharedLast(infos) && x < y
    requires Parent(infos, p, x, a, b, i, j) && Parent(infos, p, y, a, b, i, j) && Parent(infos, q, x, a, b, i, j)
    ensures p == q
  {
    var m :| IsMatch(infos, m) && m.a == q && m.b == x && Earlier(m, a, b, i, j);
    var m' :| IsMatch(infos, m') && m'.a == p && m'.b == x && Earlier(m', a, b, i, j);
    var m'' :| IsMatch(infos, m'') && m''.a == p && m''.b == y && Earlier(m'', a, b, i, j);
  }

  lemma SiblingParent(infos: seq<NodeInfo>, p: int, x: int, y: int, a: nat, b: nat, i: nat, j: nat)
    requires SharedLast(infos) && Siblings(infos, x, y, a, b, i, j) && Parent(infos, p, x, a, b, i, j)
    ensures Parent(infos, p, y, a, b, i, j)
  {
    hide Parent, SharedLast;
    var q :| Parent(infos, q, x, a, b, i, j) && Parent(infos, q, y, a, b, i, j);
    OneParent(infos, q, p, x, y, a, b, i, j);
  }

  /** What stands in a chain is subscribed to. */
  lemma {:induction false} ParentAlong(infos: seq<NodeInfo>, g: Links<int>, p: int, x: int, w: Walk,
                                       a: nat, b: nat, i: nat, j: nat)
    requires SharedLast(infos) && Neat(infos, g, a, b, i, j) && Parent(infos, p, x, a, b, i, j)
    requires AllAlong(w) && EndOf(g, x, w).Some?
    ensures Parent(infos, p, EndOf(g, x, w).value, a, b, i, j)
    decreases |w|
  {
    hide SharedLast, Parent, Siblings;
    if w != [] {
      assert w[0] == Along;
      SiblingParent(infos, p, x, g.next[x], a, b, i, j);
      ParentAlong(infos, g, p, g.next[x], w[1..], a, b, i, j);
    }
  }

  lemma ParentInChain(infos: seq<NodeInfo>, g: Links<int>, p: int, x: int, a: nat, b: nat, i: nat, j: nat)
    requires SharedLast(infos) && Neat(infos, g, a, b, i, j) && InChain(g, p, x)
    ensures Parent(infos, p, x, a, b, i, j)
  {
    hide SharedLast, Parent, Siblings;
    var w: Walk :| AllAlong(w) && EndOf(g, g.child[p], w) == Some(x);
    ParentAlong(infos, g, p, g.child[p], w, a, b, i, j);
  }

  /** At a match, what the subscriber has subscribed to before comes before the publisher. */
  lemma ParentBefore(infos: seq<NodeInfo>, x: int, a: nat, b: nat, i: nat, j: nat)
    requires Once(infos) && Matches(infos, a, b, i, j) && Parent(infos, a, x, a, b, i, j)
    ensures x < b
  {
    var m :| IsMatch(infos, m) && m.a == a && m.b == x && Earlier(m, a, b, i, j);
    assert IsMatch(infos, Pass(a, b, i, j));
  }

  lemma NowParent(infos: seq<NodeInfo>, a: nat, b: nat, i: nat, j: nat)
    requires Matches(infos, a, b, i, j)
    ensures Parent(infos, a, b, a, b, i, j + 1)
  {
    assert IsMatch(infos, Pass(a, b, i, j)) && Earlier(Pass(a, b, i, j), a, b, i, j + 1);
  }

  /** The end of a subscriber's chain: a publisher of it that comes before. */
  lemma SourceIsChild(infos: seq<NodeInfo>, w: Wiring, a: nat, b: nat, i: nat, j: nat)
    requires SharedLast(infos) && Once(infos) && Matches(infos, a, b, i, j)
    requires Sound(|infos|, w) && Neat(infos, w.links, a, b, i, j) && a in w.links.child
    ensures LinkSource(w.links, Ids(|infos|), w.rank, a) < b
    ensures Parent(infos, a, LinkSource(w.links, Ids(|infos|), w.rank, a), a, b, i, j)
  {
    hide SharedLast, Once, Neat, Parent, LinkSource, InChain, Reaches;
    LinkSourceFree(w.links, Ids(|infos|), w.rank, a);
    ParentInChain(infos, w.links, a, LinkSource(w.links, Ids(|infos|), w.rank, a), a, b, i, j);
    ParentBefore(infos, LinkSource(w.links, Ids(|infos|), w.rank, a), a, b, i, j);
  }

  lemma NeatInsert(infos: seq<NodeInfo>, w: Wiring, a: nat, b: nat, i: nat, j: nat)
    requires SharedLast(infos) && Once(infos) && Matches(infos, a, b, i, j)
    requires Sound(|infos|, w) && Neat(infos, w.links, a, b, i, j) && CanInsert(|infos|, w, a, b)
    ensures Neat(infos, Insert(|infos|, w, a, b).links, a, b, i, j + 1)
  {
    hide SharedLast, Once, Neat, Parent, Siblings, Sound, Ranked, Reaches, LinkSource;
    var g, src := w.links, LinkSource(w.links, Ids(|infos|), w.rank, a);
    NeatLater(infos, g, a, b, i, j, a, b, i, j + 1);
    NowParent(infos, a, b, i, j);
    if a in g.child {
      SourceIsChild(infos, w, a, b, i, j);
      ParentLater(infos, a, src, a, b, i, j, a, b, i, j + 1);
      NeatWithNext(infos, g, a, src, b, a, b, i, j + 1);
    } else {
      NeatWithChild(infos, g, a, b, a, b, i, j + 1);
    }
  }

  lemma NeatWithChild(infos: seq<NodeInfo>, g: Links<int>, p: int, c: int, a: nat, b: nat, i: nat, j: nat)
    requires Neat(infos, g, a, b, i, j) && Parent(infos, p, c, a, b, i, j)
    ensures Neat(infos, g.(child := g.child[p := c]), a, b, i, j)
  {
    hide Parent, Siblings;
  }

  lemma NeatWithNext(infos: seq<NodeInfo>, g: Links<int>, p: int, x: int, y: int, a: nat, b: nat, i: nat, j: nat)
    requires Neat(infos, g, a, b, i, j) && x < y
    requires Parent(infos, p, x, a, b, i, j) && Parent(infos, p, y, a, b, i, j)
    ensures Neat(infos, g.(next := g.next[x := y]), a, b, i, j)
  {
    hide Parent;
  }

  // --------------------------------------------------------------------- levels

  lemma LevelsFall(infos: seq<NodeInfo>, level: seq<nat>, p: int, c: int, a: nat, b: nat, i: nat, j: nat)
    requires Levelled(infos, level) && Parent(infos, p, c, a, b, i, j)
    ensures 0 <= c < |level| && 0 <= p < |level| && level[c] < level[p]
  {
    var m :| IsMatch(infos, m) && m.a == p && m.b == c && Earlier(m, a, b, i, j);
  }

  /** y has a parent no higher than x. */
  ghost predicate Under(infos: seq<NodeInfo>, level: seq<nat>, x: int, y: int, a: nat, b: nat, i: nat, j: nat) {
    0 <= x < |level| && exists p :: 0 <= p < |level| && Parent(infos, p, y, a, b, i, j) && level[p] <= level[x]
  }

  /** So has whatever a node without `next` reaches, other than itself. */
  lemma {:induction false} UnderWalk(infos: seq<NodeInfo>, level: seq<nat>, g: Links<int>, x: int, y: int, w: Walk,
                                     a: nat, b: nat, i: nat, j: nat)
    requires SharedLast(infos) && Levelled(infos, level) && Neat(infos, g, a, b, i, j) && x !in g.next
    requires 0 <= x < |level| && (x == y || Under(infos, level, x, y, a, b, i, j)) && EndOf(g, y, w).Some?
    ensures EndOf(g, y, w).value == x || Under(infos, level, x, EndOf(g, y, w).value, a, b, i, j)
    decreases |w|
  {
    hide SharedLast, Levelled, Neat, Under, Parent;
    if w != [] {
      if w[0] == Down {
        UnderDown(infos, level, g, x, y, a, b, i, j);
      } else {
        UnderAlong(infos, level, g, x, y, a, b, i, j);
      }
      UnderWalk(infos, level, g, x, Target(g, y, w[0]).value, w[1..], a, b, i, j);
    }
  }

  lemma UnderDown(infos: seq<NodeInfo>, level: seq<nat>, g: Links<int>, x: int, y: int,
                  a: nat, b: nat, i: nat, j: nat)
    requires Levelled(infos, level) && Neat(infos, g, a, b, i, j) && 0 <= x < |level| && y in g.child
    requires x == y || Under(infos, level, x, y, a, b, i, j)
    ensures Under(infos, level, x, g.child[y], a, b, i, j)
  {
    hide Levelled, Parent, Siblings;
    LevelsFall(infos, level, y, g.child[y], a, b, i, j);
    if x != y {
      var q :| 0 <= q < |level| && Parent(infos, q, y, a, b, i, j) && level[q] <= level[x];
      LevelsFall(infos, level, q, y, a, b, i, j);
    }
  }

  lemma UnderAlong(infos: seq<NodeInfo>, level: seq<nat>, g: Links<int>, x: int, y: int,
                   a: nat, b: nat, i: nat, j: nat)
    requires SharedLast(infos) && Neat(infos, g, a, b, i, j) && y in g.next
    requires Under(infos, level, x, y, a, b, i, j)
    ensures Under(infos, level, x, g.next[y], a, b, i, j)
  {
    hide SharedLast, Parent, Siblings;
    var q :| 0 <= q < |level| && Parent(infos, q, y, a, b, i, j) && level[q] <= level[x];
    SiblingParent(infos, q, y, g.next[y], a, b, i, j);
  }

  /** A publisher about to be inserted has nothing behind it: that would be a later publisher of the same
  subscriber. */
  lemma NotYetFollowed(infos: seq<NodeInfo>, g: Links<int>, a: nat, b: nat, i: nat, j: nat)
    requires SharedLast(infos) && Once(infos) && Matches(infos, a, b, i, j) && Neat(infos, g, a, b, i, j)
    ensures b !in g.next
  {
    hide SharedLast, Once, Parent, Neat;
    if b in g.next {
      var p := FollowedBy(infos, g, b, a, b, i, j);
      NowParent(infos, a, b, i, j);
      ParentLater(infos, p, b, a, b, i, j, a, b, i, j + 1);
      ParentLater(infos, p, g.next[b], a, b, i, j, a, b, i, j + 1);
      OneParent(infos, p, a, b, g.next[b], a, b, i, j + 1);
      ParentBefore(infos, g.next[b], a, b, i, j);
    }
  }

  lemma FollowedBy(infos: seq<NodeInfo>, g: Links<int>, x: int, a: nat, b: nat, i: nat, j: nat) returns (p: int)
    requires Neat(infos, g, a, b, i, j) && x in g.next
    ensures x < g.next[x] && Parent(infos, p, x, a, b, i, j) && Parent(infos, p, g.next[x], a, b, i, j)
  {
    hide Parent;
    assert Siblings(infos, x, g.next[x], a, b, i, j);
    p :| Parent(infos, p, x, a, b, i, j) && Parent(infos, p, g.next[x], a, b, i, j);
  }

  lemma SourceNotUnder(infos: seq<NodeInfo>, level: seq<nat>, w: Wiring, a: nat, b: nat, i: nat, j: nat)
    requires SharedLast(infos) && Once(infos) && Levelled(infos, level) && Matches(infos, a, b, i, j)
    requires Sound(|infos|, w) && Neat(infos, w.links, a, b, i, j) && a < |level| && b < |level| && level[b] < level[a]
    ensures var src := LinkSource(w.links, Ids(|infos|), w.rank, a);
      src != b && !Under(infos, level, b, src, a, b, i, j)
  {
    hide Neat, Levelled, SharedLast, Once, Parent, Ranked;
    var src := LinkSource(w.links, Ids(|infos|), w.rank, a);
    if a in w.links.child {
      SourceIsChild(infos, w, a, b, i, j);
    }
    if Under(infos, level, b, src, a, b, i, j) {
      var p :| 0 <= p < |level| && Parent(infos, p, src, a, b, i, j) && level[p] <= level[b];
      LevelsFall(infos, level, p, src, a, b, i, j);
      if a in w.links.child {
        NowParent(infos, a, b, i, j);
        ParentLater(infos, a, src, a, b, i, j, a, b, i, j + 1);
        ParentLater(infos, p, src, a, b, i, j, a, b, i, j + 1);
        OneParent(infos, a, p, src, b, a, b, i, j + 1);
      }
    }
  }

  /** At a match of such topics the insertion closes no cycle. */
  lemma LevelledCanInsert(infos: seq<NodeInfo>, level: seq<nat>, w: Wiring, a: nat, b: nat, i: nat, j: nat)
    requires SharedLast(infos) && Once(infos) && Levelled(infos, level) && Matches(infos, a, b, i, j)
    requires Sound(|infos|, w) && Neat(infos, w.links, a, b, i, j)
    ensures CanInsert(|infos|, w, a, b)
  {
    hide SharedLast, Once, Neat, Under, LinkSource;
    var g, src := w.links, LinkSource(w.links, Ids(|infos|), w.rank, a);
    assert level[b] < level[a] by { assert IsMatch(infos, Pass(a, b, i, j)); }
    NotYetFollowed(infos, g, a, b, i, j);
    SourceNotUnder(infos, level, w, a, b, i, j);
    if Reaches(g, b, src) {
      var walk: Walk :| EndOf(g, b, walk) == Some(src);
      UnderWalk(infos, level, g, b, b, walk, a, b, i, j);
    }
  }

  /** While the loops run, pointers lead to publishers subscribed to; with levels they run to the end. */
  lemma {:induction false} SharedBuilds(infos: seq<NodeInfo>, a: nat, b: nat, i: nat, j: nat, w: Wiring,
                                        level: seq<nat>)
    requires SharedLast(infos) && Once(infos)
    requires Within(infos, a, b, i, j) && Sound(|infos|, w) && Neat(infos, w.links, a, b, i, j)
    ensures Levelled(infos, level) ==> BuildFrom(infos, a, b, i, j, w).Some?
    ensures BuildFrom(infos, a, b, i, j, w).Some?
      ==> Neat(infos, BuildFrom(infos, a, b, i, j, w).value.links, |infos|, 0, 0, 0)
    decreases |infos| - a, |infos| - b, if a < |infos| then |infos[a].subTopics| - i else 0,
              if b < |infos| then |infos[b].pubTopics| - j else 0
  {
    hide SharedLast, Once, Levelled, Neat, Sound, CanInsert;
    if a == |infos| {
      AtTheEnd(infos, w.links, a, b, i, j);
    } else if b == |infos| {
      NeatLater(infos, w.links, a, b, i, j, a + 1, 0, 0, 0);
      SharedBuilds(infos, a + 1, 0, 0, 0, w, level);
    } else if i == |infos[a].subTopics| {
      NeatLater(infos, w.links, a, b, i, j, a, b + 1, 0, 0);
      SharedBuilds(infos, a, b + 1, 0, 0, w, level);
    } else if j == |infos[b].pubTopics| {
      NeatLater(infos, w.links, a, b, i, j, a, b, i + 1, 0);
      SharedBuilds(infos, a, b, i + 1, 0, w, level);
    } else if infos[a].subTopics[i] != infos[b].pubTopics[j] {
      NeatLater(infos, w.links, a, b, i, j, a, b, i, j + 1);
      SharedBuilds(infos, a, b, i, j + 1, w, level);
    } else {
      if Levelled(infos, level) {
        LevelledCanInsert(infos, level, w, a, b, i, j);
      }
      if CanInsert(|infos|, w, a, b) {
        InsertSound(|infos|, w, a, b);
        NeatInsert(infos, w, a, b, i, j);
        SharedBuilds(infos, a, b, i, j + 1, Insert(|infos|, w, a, b), level);
      }
    }
  }

  lemma AtTheEnd(infos: seq<NodeInfo>, g: Links<int>, a: nat, b: nat, i: nat, j: nat)
    requires a == |infos| && Neat(infos, g, a, b, i, j)
    ensures Neat(infos, g, |infos|, 0, 0, 0)
  {
    forall p, c | Parent(infos, p, c, a, b, i, j) ensures Parent(infos, p, c, |infos|, 0, 0, 0) {
      var m :| IsMatch(infos, m) && m.a == p && m.b == c && Earlier(m, a, b, i, j);
      assert Earlier(m, |infos|, 0, 0, 0);
    }
    forall x | x in g.next ensures Siblings(infos, x, g.next[x], |infos|, 0, 0, 0) {
      var p := FollowedBy(infos, g, x, a, b, i, j);
    }
  }

  /** Exactly which of these topics are accepted: those with levels on which no pair of nodes is matched
  twice. */
  lemma SharedBuildableIff(infos: seq<NodeInfo>)
    requires SharedLast(infos)
    ensures Buildable(infos) <==> Once(infos) && exists level :: Levelled(infos, level)
  {
    hide SharedLast, Once, Levelled;
    if Buildable(infos) {
      BuildableOnce(infos);
      var level := BuildableLevels(infos);
    }
    if Once(infos) && exists level :: Levelled(infos, level) {
      var level :| Levelled(infos, level);
      StartSound(|infos|);
      SharedBuilds(infos, 0, 0, 0, 0, Start(|infos|), level);
    }
  }

  // ---------------------------------------------------------------- stray children

  /** What a node finds in its chain it has subscribed to. */
  ghost predicate NoStrays(infos: seq<NodeInfo>, g: Links<int>) {
    forall a, x | InChain(g, a, x) :: Hears(infos, a, x)
  }

  /** Exactly when an accepted graph gives no node a child it has not subscribed to. */
  lemma NoStraysIff(infos: seq<NodeInfo>)
    requires Buildable(infos)
    ensures NoStrays(infos, Built(infos).value.links) <==> SharedLast(infos)
  {
    hide SharedLast, BuildFrom, Hears, InChain;
    if SharedLast(infos) {
      SharedHasNoStrays(infos);
    } else {
      var a, c := StrayExists(infos);
    }
  }

  lemma SharedHasNoStrays(infos: seq<NodeInfo>)
    requires Buildable(infos) && SharedLast(infos)
    ensures NoStrays(infos, Built(infos).value.links)
  {
    hide SharedLast, Once, Neat, InChain, Hears, BuildFrom;
    BuildableOnce(infos);
    StartSound(|infos|);
    StartNeat(infos);
    SharedBuilds(infos, 0, 0, 0, 0, Start(|infos|), []);
    var g := Built(infos).value.links;
    forall a, x | InChain(g, a, x) ensures Hears(infos, a, x) {
      ParentInChain(infos, g, a, x, |infos|, 0, 0, 0);
      ParentHears(infos, a, x, |infos|, 0, 0, 0);
    }
  }

  lemma StartNeat(infos: seq<NodeInfo>)
    ensures Neat(infos, Start(|infos|).links, 0, 0, 0, 0)
  {
  }

  lemma ParentHears(infos: seq<NodeInfo>, p: int, c: int, a: nat, b: nat, i: nat, j: nat)
    requires Parent(infos, p, c, a, b, i, j)
    ensures Hears(infos, p, c)
  {
    var m :| IsMatch(infos, m) && m.a == p && m.b == c && Earlier(m, a, b, i, j);
  }

  lemma StrayExists(infos: seq<NodeInfo>) returns (a: int, c: int)
    requires Buildable(infos) && !SharedLast(infos)
    ensures InChain(Built(infos).value.links, a, c) && !Hears(infos, a, c)
  {
    hide BuildFrom, InChain, Buildable;
    var m, m', m'' :| IsMatch(infos, m) && IsMatch(infos, m') && IsMatch(infos, m'') &&
      m.b == m'.b < m''.b && m'.a == m''.a && m.a != m'.a;
    a, c := m.a, m''.b;
    StrayChild(infos, m, m', m'');
    if Hears(infos, a, c) {
      var h :| IsMatch(infos, h) && h.a == a && h.b == c;
      if a < m'.a {
        TwoSharedLoop(infos, a, m'.a, m.b, c, m.i, m.j, h.i, h.j, m'.i, m'.j, m''.i, m''.j);
      } else {
        TwoSharedLoop(infos, m'.a, a, m.b, c, m'.i, m'.j, m''.i, m''.j, m.i, m.j, h.i, h.j);
      }
    }
  }

  /** Of two subscribers to one publisher, each has in its chain what the other has put behind it. */
  lemma StrayChild(infos: seq<NodeInfo>, m: Pass, m': Pass, m'': Pass)
    requires Buildable(infos) && IsMatch(infos, m) && IsMatch(infos, m') && IsMatch(infos, m'')
    requires m.b == m'.b < m''.b && m'.a == m''.a
    ensures InChain(Built(infos).value.links, m.a, m''.b)
  {
    hide Ranked, Extends, Reaches, BuildFrom, Parented, InChain, Follows;
    var n, g, a', b, c := |infos|, Built(infos).value.links, m'.a, m.b, m''.b;
    StartSound(n);
    BuildChains(infos, 0, 0, 0, 0, Start(n), m.a, b, m.i, m.j);
    var v1 := BuildPasses(infos, 0, 0, 0, 0, Start(n), a', b, m'.i, m'.j);
    var w1 := Insert(n, v1, a', b);
    InsertedInChain(v1.links, Ids(n), v1.rank, a', b);
    var v2 := BuildPasses(infos, a', b, m'.i, m'.j + 1, w1, a', c, m''.i, m''.j);
    var w2 := Insert(n, v2, a', c);
    ChainKept(w1.links, v2.links, a', b);
    InsertedFollows(v2.links, Ids(n), v2.rank, a', c, b);
    BuildSound(infos, a', c, m''.i, m''.j + 1, w2);
    FollowsKept(w2.links, g, b, c);
    ChainFollows(g, m.a, b, c);
  }

  lemma ChainFollows<N>(g: Links<N>, p: N, x: N, y: N)
    requires InChain(g, p, x) && Follows(g, x, y)
    ensures InChain(g, p, y)
  {
    FollowsOn(g, g.child[p], x, y);
  }
}
