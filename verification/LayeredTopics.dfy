/** Topics in layers, where a subscriber's publishers are all on one level: exactly when the graph construction
accepts them. */
module LayeredTopics {
  import opened GraphBuild
  import opened NodeLinks
  import opened Options
  import opened SharedTopics
  import opened TopicShapes
  import opened TopicWiring

  ghost predicate Layered(infos: seq<NodeInfo>, level: seq<nat>) {
    && Levelled(infos, level)
    && forall m, m' | IsMatch(infos, m) && IsMatch(infos, m') && m.a == m'.a :: level[m.b] == level[m'.b]
  }

  /** A trail leads from publisher x to publisher y. */
  ghost predicate Tied(infos: seq<NodeInfo>, x: int, y: int, a: nat, b: nat, i: nat, j: nat) {
    exists ms: seq<Pass> :: ms != [] && Trail(infos, ms, a, b, i, j) && ms[0].b == x && ms[|ms| - 1].b == y
  }

  ghost predicate Woven(infos: seq<NodeInfo>, g: Links<int>, a: nat, b: nat, i: nat, j: nat) {
    && (forall x | x in g.child :: Joined(infos, x, g.child[x], a, b, i, j))
    && (forall x | x in g.next :: Tied(infos, x, g.next[x], a, b, i, j))
  }

  // --------------------------------------------------------------------- trails

  lemma TrailLater(infos: seq<NodeInfo>, ms: seq<Pass>, a: nat, b: nat, i: nat, j: nat,
                   a': nat, b': nat, i': nat, j': nat)
    requires Trail(infos, ms, a, b, i, j) && NotAfter(a, b, i, j, a', b', i', j')
    ensures Trail(infos, ms, a', b', i', j')
  {
  }

  lemma WovenLater(infos: seq<NodeInfo>, g: Links<int>, a: nat, b: nat, i: nat, j: nat,
                   a': nat, b': nat, i': nat, j': nat)
    requires Woven(infos, g, a, b, i, j) && NotAfter(a, b, i, j, a', b', i', j')
    ensures Woven(infos, g, a', b', i', j')
  {
    hide Trail;
    forall x | x in g.child ensures Joined(infos, x, g.child[x], a', b', i', j') {
      var ms: seq<Pass> :| ms != [] && Trail(infos, ms, a, b, i, j) && ms[0].a == x && ms[|ms| - 1].b == g.child[x];
      TrailLater(infos, ms, a, b, i, j, a', b', i', j');
    }
    forall x | x in g.next ensures Tied(infos, x, g.next[x], a', b', i', j') {
      var ms: seq<Pass> :| ms != [] && Trail(infos, ms, a, b, i, j) && ms[0].b == x && ms[|ms| - 1].b == g.next[x];
      TrailLater(infos, ms, a, b, i, j, a', b', i', j');
    }
  }

  lemma TrailOn(infos: seq<NodeInfo>, ms: seq<Pass>, ms': seq<Pass>, a: nat, b: nat, i: nat, j: nat)
    requires ms != [] && ms' != [] && Trail(infos, ms, a, b, i, j) && Trail(infos, ms', a, b, i, j)
    requires Touch(ms[|ms| - 1], ms'[0])
    ensures Trail(infos, ms + ms', a, b, i, j)
  {
    hide IsMatch, Earlier, Touch;
    var u := ms + ms';
    forall k | 0 < k < |u| ensures Touch(u[k - 1], u[k]) {
      if k > |ms| {
        assert Touch(ms'[k - 1 - |ms|], ms'[k - |ms|]);
      }
    }
  }

  lemma TrailBack(infos: seq<NodeInfo>, ms: seq<Pass>, a: nat, b: nat, i: nat, j: nat) returns (back: seq<Pass>)
    requires Trail(infos, ms, a, b, i, j)
    ensures |back| == |ms| && Trail(infos, back, a, b, i, j)
    ensures ms != [] ==> back[0] == ms[|ms| - 1] && back[|ms| - 1] == ms[0]
  {
    hide IsMatch, Earlier;
    var n := |ms|;
    back := seq(n, k requires 0 <= k < n => ms[n - 1 - k]);
    forall k | 0 < k < n ensures Touch(back[k - 1], back[k]) {
      assert Touch(ms[n - 1 - k], ms[n - k]);
    }
  }

  lemma TiedBack(infos: seq<NodeInfo>, x: int, y: int, a: nat, b: nat, i: nat, j: nat)
    requires Tied(infos, x, y, a, b, i, j)
    ensures Tied(infos, y, x, a, b, i, j)
  {
    hide Trail;
    var ms: seq<Pass> :| ms != [] && Trail(infos, ms, a, b, i, j) && ms[0].b == x && ms[|ms| - 1].b == y;
    var back := TrailBack(infos, ms, a, b, i, j);
  }

  lemma TiedOn(infos: seq<NodeInfo>, x: int, y: int, z: int, a: nat, b: nat, i: nat, j: nat)
    requires Tied(infos, x, y, a, b, i, j) && Tied(infos, y, z, a, b, i, j)
    ensures Tied(infos, x, z, a, b, i, j)
  {
    hide Trail;
    var u: seq<Pass> :| u != [] && Trail(infos, u, a, b, i, j) && u[0].b == x && u[|u| - 1].b == y;
    var v: seq<Pass> :| v != [] && Trail(infos, v, a, b, i, j) && v[0].b == y && v[|v| - 1].b == z;
    TrailOn(infos, u, v, a, b, i, j);
    assert (u + v)[0] == u[0] && (u + v)[|u + v| - 1] == v[|v| - 1];
  }

  lemma JoinedOn(infos: seq<NodeInfo>, p: int, x: int, y: int, a: nat, b: nat, i: nat, j: nat)
    requires Joined(infos, p, x, a, b, i, j) && Tied(infos, x, y, a, b, i, j)
    ensures Joined(infos, p, y, a, b, i, j)
  {
    hide Trail;
    var u: seq<Pass> :| u != [] && Trail(infos, u, a, b, i, j) && u[0].a == p && u[|u| - 1].b == x;
    var v: seq<Pass> :| v != [] && Trail(infos, v, a, b, i, j) && v[0].b == x && v[|v| - 1].b == y;
    TrailOn(infos, u, v, a, b, i, j);
    assert (u + v)[0] == u[0] && (u + v)[|u + v| - 1] == v[|v| - 1];
  }

  lemma NowTrail(infos: seq<NodeInfo>, a: nat, b: nat, i: nat, j: nat)
    requires Matches(infos, a, b, i, j)
    ensures Trail(infos, [Pass(a, b, i, j)], a, b, i, j + 1)
    ensures Joined(infos, a, b, a, b, i, j + 1)
  {
    var m := Pass(a, b, i, j);
    assert IsMatch(infos, m) && Earlier(m, a, b, i, j + 1);
    assert Trail(infos, [m], a, b, i, j + 1);
  }

  /** What a match's subscriber was joined to is tied to its publisher from then on. */
  lemma NowTied(infos: seq<NodeInfo>, x: int, a: nat, b: nat, i: nat, j: nat)
    requires Matches(infos, a, b, i, j) && Joined(infos, a, x, a, b, i, j)
    ensures Tied(infos, x, b, a, b, i, j + 1)
  {
    hide Trail, Matches;
    var ms: seq<Pass> :| ms != [] && Trail(infos, ms, a, b, i, j) && ms[0].a == a && ms[|ms| - 1].b == x;
    TrailLater(infos, ms, a, b, i, j, a, b, i, j + 1);
    var m := Pass(a, b, i, j);
    NowTrail(infos, a, b, i, j);
    TrailOn(infos, [m], ms, a, b, i, j + 1);
    var u := [m] + ms;
    assert u[0] == m && u[|u| - 1] == ms[|ms| - 1];
    TiedBack(infos, b, x, a, b, i, j + 1);
  }

  // --------------------------------------------------------------------- levels

  /** All publishers along a trail are on one level. */
  lemma {:induction false} TrailLevel(infos: seq<NodeInfo>, level: seq<nat>, ms: seq<Pass>,
                                      a: nat, b: nat, i: nat, j: nat)
    requires Layered(infos, level) && ms != [] && Trail(infos, ms, a, b, i, j)
    ensures ms[0].b < |level| && ms[|ms| - 1].b < |level| && level[ms[0].b] == level[ms[|ms| - 1].b]
    decreases |ms|
  {
    hide Earlier;
    assert IsMatch(infos, ms[0]);
    if |ms| > 1 {
      assert IsMatch(infos, ms[1]) && Touch(ms[0], ms[1]);
      TrailTail(infos, ms, a, b, i, j);
      TrailLevel(infos, level, ms[1..], a, b, i, j);
    }
  }

  lemma TrailTail(infos: seq<NodeInfo>, ms: seq<Pass>, a: nat, b: nat, i: nat, j: nat)
    requires ms != [] && Trail(infos, ms, a, b, i, j)
    ensures Trail(infos, ms[1..], a, b, i, j)
  {
    hide IsMatch, Earlier, Touch;
    forall k | 0 < k < |ms[1..]| ensures Touch(ms[1..][k - 1], ms[1..][k]) {
      assert Touch(ms[k], ms[k + 1]);
    }
  }

  lemma TiedLevel(infos: seq<NodeInfo>, level: seq<nat>, x: int, y: int, a: nat, b: nat, i: nat, j: nat)
    requires Layered(infos, level) && Tied(infos, x, y, a, b, i, j)
    ensures 0 <= x < |level| && 0 <= y < |level| && level[x] == level[y]
  {
    hide Trail, Layered;
    var ms: seq<Pass> :| ms != [] && Trail(infos, ms, a, b, i, j) && ms[0].b == x && ms[|ms| - 1].b == y;
    TrailLevel(infos, level, ms, a, b, i, j);
  }

  lemma JoinedLevel(infos: seq<NodeInfo>, level: seq<nat>, p: int, x: int, a: nat, b: nat, i: nat, j: nat)
    requires Layered(infos, level) && Joined(infos, p, x, a, b, i, j)
    ensures 0 <= p < |level| && 0 <= x < |level| && level[x] < level[p]
  {
    var ms: seq<Pass> :| ms != [] && Trail(infos, ms, a, b, i, j) && ms[0].a == p && ms[|ms| - 1].b == x;
    TrailLevel(infos, level, ms, a, b, i, j);
    assert IsMatch(infos, ms[0]);
  }

  // ----------------------------------------------------------------- the pointers

  /** A walk that ends on the level it starts from goes along tied publishers. */
  lemma {:induction false} WalkLevel(infos: seq<NodeInfo>, level: seq<nat>, g: Links<int>, x: int, w: Walk,
                                     a: nat, b: nat, i: nat, j: nat)
    requires Layered(infos, level) && Woven(infos, g, a, b, i, j) && 0 <= x < |level| && EndOf(g, x, w).Some?
    ensures var y := EndOf(g, x, w).value;
      && 0 <= y < |level| && level[y] <= level[x]
      && (level[y] == level[x] ==> x == y || Tied(infos, x, y, a, b, i, j))
    decreases |w|
  {
    hide Layered, Joined, Tied;
    if w != [] {
      var y, z := Target(g, x, w[0]).value, EndOf(g, x, w).value;
      if w[0] == Down {
        JoinedLevel(infos, level, x, y, a, b, i, j);
      } else {
        TiedLevel(infos, level, x, y, a, b, i, j);
      }
      WalkLevel(infos, level, g, y, w[1..], a, b, i, j);
      if level[z] == level[x] && y != z {
        TiedOn(infos, x, y, z, a, b, i, j);
      }
    }
  }

  lemma {:induction false} JoinedAlong(infos: seq<NodeInfo>, g: Links<int>, p: int, x: int, w: Walk,
                                       a: nat, b: nat, i: nat, j: nat)
    requires Woven(infos, g, a, b, i, j) && Joined(infos, p, x, a, b, i, j)
    requires AllAlong(w) && EndOf(g, x, w).Some?
    ensures Joined(infos, p, EndOf(g, x, w).value, a, b, i, j)
    decreases |w|
  {
    hide Joined, Tied;
    if w != [] {
      assert w[0] == Along;
      JoinedOn(infos, p, x, g.next[x], a, b, i, j);
      JoinedAlong(infos, g, p, g.next[x], w[1..], a, b, i, j);
    }
  }

  /** The end of a subscriber's chain is joined to it. */
  lemma SourceIsJoined(infos: seq<NodeInfo>, w: Wiring, a: nat, b: nat, i: nat, j: nat)
    requires Sound(|infos|, w) && Woven(infos, w.links, a, b, i, j) && a < |infos| && a in w.links.child
    ensures Joined(infos, a, LinkSource(w.links, Ids(|infos|), w.rank, a), a, b, i, j)
  {
    hide Joined, Tied, LinkSource, Reaches;
    var g, src := w.links, LinkSource(w.links, Ids(|infos|), w.rank, a);
    LinkSourceFree(g, Ids(|infos|), w.rank, a);
    var walk: Walk :| AllAlong(walk) && EndOf(g, g.child[a], walk) == Some(src);
    JoinedAlong(infos, g, a, g.child[a], walk, a, b, i, j);
  }

  /** At a match of a layered forest the insertion closes no cycle. */
  lemma LayeredCanInsert(infos: seq<NodeInfo>, level: seq<nat>, w: Wiring, a: nat, b: nat, i: nat, j: nat)
    requires Forest(infos) && Layered(infos, level) && Matches(infos, a, b, i, j)
    requires Sound(|infos|, w) && Woven(infos, w.links, a, b, i, j)
    ensures CanInsert(|infos|, w, a, b)
  {
    hide Joined, Tied, LinkSource, Woven;
    var g, src := w.links, LinkSource(w.links, Ids(|infos|), w.rank, a);
    assert IsMatch(infos, Pass(a, b, i, j));
    if Reaches(g, b, src) {
      var walk: Walk :| EndOf(g, b, walk) == Some(src);
      WalkLevel(infos, level, g, b, walk, a, b, i, j);
      if a in g.child {
        SourceIsJoined(infos, w, a, b, i, j);
        NowTied(infos, src, a, b, i, j);
        TiedLevel(infos, level, src, b, a, b, i, j + 1);
        if b != src {
          TiedBack(infos, b, src, a, b, i, j);
          JoinedOn(infos, a, src, b, a, b, i, j);
        }
      } else {
        NoChildSource(g, Ids(|infos|), w.rank, a);
      }
    }
  }

  lemma NoChildSource<N>(g: Links<N>, ns: set<N>, rank: map<N, nat>, p: N)
    requires Ranked(g, ns, rank) && p in ns && p !in g.child
    ensures LinkSource(g, ns, rank, p) == p
  {
  }

  lemma WovenInsert(infos: seq<NodeInfo>, w: Wiring, a: nat, b: nat, i: nat, j: nat)
    requires Matches(infos, a, b, i, j)
    requires Sound(|infos|, w) && Woven(infos, w.links, a, b, i, j) && CanInsert(|infos|, w, a, b)
    ensures Woven(infos, Insert(|infos|, w, a, b).links, a, b, i, j + 1)
  {
    hide Joined, Tied, LinkSource, Sound, Ranked, Reaches, Woven;
    var g, src := w.links, LinkSource(w.links, Ids(|infos|), w.rank, a);
    WovenLater(infos, g, a, b, i, j, a, b, i, j + 1);
    NowTrail(infos, a, b, i, j);
    if a in g.child {
      SourceIsJoined(infos, w, a, b, i, j);
      NowTied(infos, src, a, b, i, j);
      WovenWithNext(infos, g, src, b, a, b, i, j + 1);
    } else {
      WovenWithChild(infos, g, a, b, a, b, i, j + 1);
    }
  }

  lemma WovenWithChild(infos: seq<NodeInfo>, g: Links<int>, p: int, c: int, a: nat, b: nat, i: nat, j: nat)
    requires Woven(infos, g, a, b, i, j) && Joined(infos, p, c, a, b, i, j)
    ensures Woven(infos, g.(child := g.child[p := c]), a, b, i, j)
  {
    hide Joined, Tied;
  }

  lemma WovenWithNext(infos: seq<NodeInfo>, g: Links<int>, x: int, y: int, a: nat, b: nat, i: nat, j: nat)
    requires Woven(infos, g, a, b, i, j) && Tied(infos, x, y, a, b, i, j)
    ensures Woven(infos, g.(next := g.next[x := y]), a, b, i, j)
  {
    hide Joined, Tied;
  }

  lemma {:induction false} LayeredBuilds(infos: seq<NodeInfo>, level: seq<nat>,
                                         a: nat, b: nat, i: nat, j: nat, w: Wiring)
    requires Forest(infos) && Layered(infos, level)
    requires Within(infos, a, b, i, j) && Sound(|infos|, w) && Woven(infos, w.links, a, b, i, j)
    ensures BuildFrom(infos, a, b, i, j, w).Some?
    decreases |infos| - a, |infos| - b, if a < |infos| then |infos[a].subTopics| - i else 0,
              if b < |infos| then |infos[b].pubTopics| - j else 0
  {
    hide Forest, Layered, Woven, Sound, CanInsert;
    if a == |infos| {
    } else if b == |infos| {
      WovenLater(infos, w.links, a, b, i, j, a + 1, 0, 0, 0);
      LayeredBuilds(infos, level, a + 1, 0, 0, 0, w);
    } else if i == |infos[a].subTopics| {
      WovenLater(infos, w.links, a, b, i, j, a, b + 1, 0, 0);
      LayeredBuilds(infos, level, a, b + 1, 0, 0, w);
    } else if j == |infos[b].pubTopics| {
      WovenLater(infos, w.links, a, b, i, j, a, b, i + 1, 0);
      LayeredBuilds(infos, level, a, b, i + 1, 0, w);
    } else if infos[a].subTopics[i] != infos[b].pubTopics[j] {
      WovenLater(infos, w.links, a, b, i, j, a, b, i, j + 1);
      LayeredBuilds(infos, level, a, b, i, j + 1, w);
    } else {
      LayeredCanInsert(infos, level, w, a, b, i, j);
      InsertSound(|infos|, w, a, b);
      WovenInsert(infos, w, a, b, i, j);
      LayeredBuilds(infos, level, a, b, i, j + 1, Insert(|infos|, w, a, b));
    }
  }

  /** Exactly which layered topics are accepted: those whose matches make up a forest. */
  lemma LayeredBuildableIff(infos: seq<NodeInfo>, level: seq<nat>)
    requires Layered(infos, level)
    ensures Buildable(infos) <==> Forest(infos)
  {
    hide Forest, Layered;
    if Buildable(infos) {
      BuildableForest(infos);
    }
    if Forest(infos) {
      StartSound(|infos|);
      LayeredBuilds(infos, level, 0, 0, 0, 0, Start(|infos|));
    }
  }

  // -------------------------------------------------------------------- a witness

  /** Two subscribers to one publisher, the second with another publisher behind it. */
  function Strayed(): seq<NodeInfo> {
    [NodeInfo(1, 1, ["t"], []), NodeInfo(1, 1, ["t", "u"], []),
     NodeInfo(1, 1, [], ["t"]), NodeInfo(1, 1, [], ["u"])]
  }

  lemma StrayedMatch(m: Pass)
    requires IsMatch(Strayed(), m)
    ensures m in {Pass(0, 2, 0, 0), Pass(1, 2, 0, 0), Pass(1, 3, 1, 0)}
  {
  }

  lemma StrayedIsForest()
    ensures Forest(Strayed())
  {
    hide IsMatch, Strayed;
    var infos := Strayed();
    forall m | IsMatch(infos, m) ensures !Joined(infos, m.a, m.b, m.a, m.b, m.i, m.j) {
      StrayedMatch(m);
      if Joined(infos, m.a, m.b, m.a, m.b, m.i, m.j) {
        var ms: seq<Pass> :| ms != [] && Trail(infos, ms, m.a, m.b, m.i, m.j)
          && ms[0].a == m.a && ms[|ms| - 1].b == m.b;
        StrayedMatch(ms[0]);
        StrayedMatch(ms[|ms| - 1]);
      }
    }
  }

  /** They are accepted, and the first subscriber finds in its chain a node it has not subscribed to. */
  lemma StrayedChild()
    ensures Buildable(Strayed())
    ensures InChain(Built(Strayed()).value.links, 0, 3) && !Hears(Strayed(), 0, 3)
  {
    hide IsMatch, Strayed, BuildFrom, InChain, Layered, Forest;
    StrayedIsForest();
    StrayedLevels();
    LayeredBuildableIff(Strayed(), [1, 1, 0, 0]);
    StrayedMatches();
    StrayChild(Strayed(), Pass(0, 2, 0, 0), Pass(1, 2, 0, 0), Pass(1, 3, 1, 0));
    if Hears(Strayed(), 0, 3) {
      var m :| IsMatch(Strayed(), m) && m.a == 0 && m.b == 3;
      StrayedMatch(m);
    }
  }

  lemma StrayedMatches()
    ensures IsMatch(Strayed(), Pass(0, 2, 0, 0)) && IsMatch(Strayed(), Pass(1, 2, 0, 0))
    ensures IsMatch(Strayed(), Pass(1, 3, 1, 0))
  {
  }

  lemma StrayedLevels()
    ensures Layered(Strayed(), [1, 1, 0, 0])
  {
    hide IsMatch;
    forall m | IsMatch(Strayed(), m) ensures m.a < 2 && 2 <= m.b < 4 {
      StrayedMatch(m);
    }
  }
}
