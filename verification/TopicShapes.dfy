/** Which topic lists the graph construction refuses: what it demands of every list it accepts, and the
lists that do not meet it. */
module TopicShapes {
  import opened GraphBuild
  import opened NodeLinks
  import opened Options
  import opened TopicWiring

  /** A subscriber, a publisher, and a topic of each: one pass of the innermost loop. */
  datatype Pass = Pass(a: nat, b: nat, i: nat, j: nat)

  ghost predicate IsMatch(infos: seq<NodeInfo>, m: Pass) {
    Matches(infos, m.a, m.b, m.i, m.j)
  }

  ghost predicate Earlier(m: Pass, a: nat, b: nat, i: nat, j: nat) {
    NotAfter(m.a, m.b, m.i, m.j, a, b, i, j) && m != Pass(a, b, i, j)
  }

  ghost predicate Hears(infos: seq<NodeInfo>, a: int, b: int) {
    exists m :: IsMatch(infos, m) && m.a == a && m.b == b
  }

  // --------------------------------------------------------------------- levels

  /** Publishers are on lower levels than their subscribers. */
  ghost predicate Levelled(infos: seq<NodeInfo>, level: seq<nat>) {
    |level| == |infos| && forall m | IsMatch(infos, m) :: level[m.b] < level[m.a]
  }

  /** Accepted topics have levels: no node hears itself, directly or by way of others. */
  lemma BuildableLevels(infos: seq<NodeInfo>) returns (level: seq<nat>)
    requires Buildable(infos)
    ensures Levelled(infos, level)
  {
    hide Sound, BuildFrom;
    var n := |infos|;
    StartSound(n);
    BuildSound(infos, 0, 0, 0, 0, Start(n));
    var w := Built(infos).value;
    level := RankLevels(n, w);
    forall m | IsMatch(infos, m) ensures level[m.b] < level[m.a] {
      BuildChains(infos, 0, 0, 0, 0, Start(n), m.a, m.b, m.i, m.j);
      RankFalls(n, w, m.a, m.b);
    }
  }

  ghost function RankLevels(n: nat, w: Wiring): (level: seq<nat>)
    requires Sound(n, w)
    ensures |level| == n && forall x | 0 <= x < n :: x in w.rank && level[x] == w.rank[x]
  {
    seq(n, x requires 0 <= x < n => w.rank[x])
  }

  lemma RankFalls(n: nat, w: Wiring, a: int, b: int)
    requires Sound(n, w) && InChain(w.links, a, b)
    ensures a in w.rank && b in w.rank && w.rank[b] < w.rank[a]
  {
    InChainBelow(w.links, Ids(n), w.rank, a, b);
  }

  /** A node that subscribes to a topic it publishes. */
  lemma SelfLoop(infos: seq<NodeInfo>, a: nat, i: nat, j: nat)
    requires Matches(infos, a, a, i, j)
    ensures !Buildable(infos)
  {
    if Buildable(infos) {
      var level := BuildableLevels(infos);
      assert IsMatch(infos, Pass(a, a, i, j));
    }
  }

  // --------------------------------------------------------------- shared publishers

  /** The two passes have their subscriber or their publisher in common. */
  ghost predicate Touch(m: Pass, m': Pass) {
    m.a == m'.a || m.b == m'.b
  }

  /** Matches the loops make before the given point, each touching the next. */
  ghost predicate Trail(infos: seq<NodeInfo>, ms: seq<Pass>, a: nat, b: nat, i: nat, j: nat) {
    && (forall k | 0 <= k < |ms| :: IsMatch(infos, ms[k]) && Earlier(ms[k], a, b, i, j))
    && (forall k | 0 < k < |ms| :: Touch(ms[k - 1], ms[k]))
  }

  /** Such a trail leads from subscriber p to publisher c. */
  ghost predicate Joined(infos: seq<NodeInfo>, p: int, c: int, a: nat, b: nat, i: nat, j: nat) {
    exists ms: seq<Pass> :: ms != [] && Trail(infos, ms, a, b, i, j) && ms[0].a == p && ms[|ms| - 1].b == c
  }

  /** No match joins what earlier ones have joined: as edges between subscribers and publishers the matches
  make up a forest. */
  ghost predicate Forest(infos: seq<NodeInfo>) {
    forall m | IsMatch(infos, m) :: !Joined(infos, m.a, m.b, m.a, m.b, m.i, m.j)
  }

  /** The state in which the loops come to the match m: the chains have what was matched before. */
  lemma {:induction false} BuildReaches(infos: seq<NodeInfo>, a: nat, b: nat, i: nat, j: nat, w: Wiring, m: Pass)
    returns (v: Wiring)
    requires Within(infos, a, b, i, j) && Sound(|infos|, w) && BuildFrom(infos, a, b, i, j, w).Some?
    requires IsMatch(infos, m) && NotAfter(a, b, i, j, m.a, m.b, m.i, m.j)
    ensures Sound(|infos|, v) && Extends(w.links, v.links) && CanInsert(|infos|, v, m.a, m.b)
    ensures forall x | IsMatch(infos, x) && NotAfter(a, b, i, j, x.a, x.b, x.i, x.j)
                       && Earlier(x, m.a, m.b, m.i, m.j) ::
              InChain(v.links, x.a, x.b)
    decreases |infos| - a, |infos| - b, if a < |infos| then |infos[a].subTopics| - i else 0,
              if b < |infos| then |infos[b].pubTopics| - j else 0
  {
    hide Sound, CanInsert, InChain, Insert;
    if b == |infos| {
      v := BuildReaches(infos, a + 1, 0, 0, 0, w, m);
    } else if i == |infos[a].subTopics| {
      v := BuildReaches(infos, a, b + 1, 0, 0, w, m);
    } else if j == |infos[b].pubTopics| {
      v := BuildReaches(infos, a, b, i + 1, 0, w, m);
    } else if infos[a].subTopics[i] != infos[b].pubTopics[j] {
      v := BuildReaches(infos, a, b, i, j + 1, w, m);
    } else if Pass(a, b, i, j) == m {
      v := w;
    } else {
      var w' := Insert(|infos|, w, a, b);
      InsertSound(|infos|, w, a, b);
      v := BuildReaches(infos, a, b, i, j + 1, w', m);
      ExtendsOn(w.links, w'.links, v.links);
      ChainKept(w'.links, v.links, a, b);
    }
  }

  /** Along a trail all chains have the same end. */
  lemma {:induction false} TrailSource(n: nat, v: Wiring, ms: seq<Pass>)
    requires Sound(n, v) && ms != []
    requires forall k | 0 <= k < |ms| :: ms[k].a in Ids(n) && InChain(v.links, ms[k].a, ms[k].b)
    requires forall k | 0 < k < |ms| :: Touch(ms[k - 1], ms[k])
    ensures LinkSource(v.links, Ids(n), v.rank, ms[0].a) == LinkSource(v.links, Ids(n), v.rank, ms[|ms| - 1].a)
    decreases |ms|
  {
    hide LinkSource, InChain, Ranked, Parented;
    if |ms| > 1 {
      var rest := ms[1..];
      assert Touch(ms[0], ms[1]);
      forall k | 0 < k < |rest| ensures Touch(rest[k - 1], rest[k]) {
        assert Touch(ms[k], ms[k + 1]);
      }
      TrailSource(n, v, rest);
      if ms[0].a != ms[1].a {
        SharedSource(v.links, Ids(n), v.rank, ms[0].a, ms[1].a, ms[0].b);
      }
    }
  }

  /** A match of two nodes that earlier matches have joined closes a cycle: the publisher leads along to the
  end of the subscriber's chain already. */
  lemma SharingLoop(infos: seq<NodeInfo>, m: Pass, ms: seq<Pass>)
    requires IsMatch(infos, m) && Trail(infos, ms, m.a, m.b, m.i, m.j)
    requires ms != [] && ms[0].a == m.a && ms[|ms| - 1].b == m.b
    ensures !Buildable(infos)
  {
    hide LinkSource, InChain, Ranked, Parented, Reaches, BuildFrom;
    if Buildable(infos) {
      var n := |infos|;
      StartSound(n);
      var v := BuildReaches(infos, 0, 0, 0, 0, Start(n), m);
      forall k | 0 <= k < |ms| ensures ms[k].a in Ids(n) && InChain(v.links, ms[k].a, ms[k].b) {
        assert IsMatch(infos, ms[k]);
      }
      TrailSource(n, v, ms);
      var last := ms[|ms| - 1];
      RepeatedChildLoops(v.links, Ids(n), v.rank, last.a, last.b);
    }
  }

  /** Accepted topics make a forest. */
  lemma BuildableForest(infos: seq<NodeInfo>)
    requires Buildable(infos)
    ensures Forest(infos)
  {
    forall m | IsMatch(infos, m) ensures !Joined(infos, m.a, m.b, m.a, m.b, m.i, m.j) {
      if Joined(infos, m.a, m.b, m.a, m.b, m.i, m.j) {
        var ms: seq<Pass> :| ms != [] && Trail(infos, ms, m.a, m.b, m.i, m.j)
          && ms[0].a == m.a && ms[|ms| - 1].b == m.b;
        SharingLoop(infos, m, ms);
      }
    }
  }

  /** A subscriber that shares two topics with one publisher. */
  lemma TwoTopicsLoop(infos: seq<NodeInfo>, a: nat, b: nat, i: nat, j: nat, i': nat, j': nat)
    requires Matches(infos, a, b, i, j) && Matches(infos, a, b, i', j')
    requires i < i' || (i == i' && j < j')
    ensures !Buildable(infos)
  {
    var m := Pass(a, b, i, j);
    assert IsMatch(infos, m);
    SharingLoop(infos, Pass(a, b, i', j'), [m]);
  }

  /** Two subscribers that share two publishers. */
  lemma TwoSharedLoop(infos: seq<NodeInfo>, a: nat, a': nat, b: nat, b': nat,
                      i: nat, j: nat, k: nat, l: nat, i': nat, j': nat, k': nat, l': nat)
    requires a < a' && b < b'
    requires Matches(infos, a, b, i, j) && Matches(infos, a, b', k, l)
    requires Matches(infos, a', b, i', j') && Matches(infos, a', b', k', l')
    ensures !Buildable(infos)
  {
    var m1, m2, m3 := Pass(a', b, i', j'), Pass(a, b, i, j), Pass(a, b', k, l);
    assert IsMatch(infos, m1) && IsMatch(infos, m2) && IsMatch(infos, m3);
    SharingLoop(infos, Pass(a', b', k', l'), [m1, m2, m3]);
  }

  /** Three subscribers each two of which share a publisher of their own. */
  lemma ThreeSharedLoop(infos: seq<NodeInfo>, m: Pass, m1: Pass, m2: Pass, m3: Pass, m4: Pass, m5: Pass)
    requires forall x | x in [m, m1, m2, m3, m4, m5] :: IsMatch(infos, x)
    requires forall x | x in [m1, m2, m3, m4, m5] :: Earlier(x, m.a, m.b, m.i, m.j)
    requires m.a == m1.a && m1.b == m2.b && m2.a == m3.a && m3.b == m4.b && m4.a == m5.a && m5.b == m.b
    ensures !Buildable(infos)
  {
    hide IsMatch, Earlier;
    var ms := [m1, m2, m3, m4, m5];
    assert forall k | 0 <= k < |ms| :: ms[k] in ms;
    SharingLoop(infos, m, ms);
  }

  // ------------------------------------------------------------------ order of the list

  /** A node that subscribes to b and b', when b' itself subscribes to b and comes behind it in the list. */
  lemma TriangleLoop(infos: seq<NodeInfo>, a: nat, b: nat, b': nat,
                     i: nat, j: nat, k: nat, l: nat, i': nat, j': nat)
    requires b < b' && a != b'
    requires Matches(infos, a, b, i, j) && Matches(infos, a, b', k, l) && Matches(infos, b', b, i', j')
    ensures !Buildable(infos)
  {
    if Buildable(infos) {
      if b' < a {
        TriangleFromBelow(infos, a, b, b', i, j, k, l, i', j');
      } else {
        TriangleFromAbove(infos, a, b, b', i, j, k, l, i', j');
      }
    }
  }

  /** The middle node is wired first: its child then is at the end of the chain it is to be put behind. */
  lemma TriangleFromBelow(infos: seq<NodeInfo>, a: nat, b: nat, b': nat,
                          i: nat, j: nat, k: nat, l: nat, i': nat, j': nat)
    requires b < b' < a
    requires Matches(infos, a, b, i, j) && Matches(infos, a, b', k, l) && Matches(infos, b', b, i', j')
    ensures !Buildable(infos)
  {
    hide Ranked, Extends, Reaches, BuildFrom, Parented, InChain;
    if Buildable(infos) {
      var n := |infos|;
      StartSound(n);
      var v1 := BuildPasses(infos, 0, 0, 0, 0, Start(n), b', b, i', j');
      var w1 := Insert(n, v1, b', b);
      InsertedInChain(v1.links, Ids(n), v1.rank, b', b);
      var v2 := BuildPasses(infos, b', b, i', j' + 1, w1, a, b, i, j);
      var w2 := Insert(n, v2, a, b);
      InsertedInChain(v2.links, Ids(n), v2.rank, a, b);
      InsertExtends(v2.links, Ids(n), v2.rank, a, b);
      var v3 := BuildPasses(infos, a, b, i, j + 1, w2, a, b', k, l);
      ExtendsOn(w1.links, v2.links, w2.links);
      ExtendsOn(w1.links, w2.links, v3.links);
      ChainKept(w1.links, v3.links, b', b);
      ChainKept(w2.links, v3.links, a, b);
      InChainBelow(v3.links, Ids(n), v3.rank, b', b);
      RepeatedChildLoops(v3.links, Ids(n), v3.rank, a, b);
      ReachesOn(v3.links, b', b, LinkSource(v3.links, Ids(n), v3.rank, a));
    }
  }

  /** The common subscriber is wired first: the middle node then follows the node to be put below it. */
  lemma TriangleFromAbove(infos: seq<NodeInfo>, a: nat, b: nat, b': nat,
                          i: nat, j: nat, k: nat, l: nat, i': nat, j': nat)
    requires b < b' && a < b'
    requires Matches(infos, a, b, i, j) && Matches(infos, a, b', k, l) && Matches(infos, b', b, i', j')
    ensures !Buildable(infos)
  {
    hide Ranked, Extends, Reaches, BuildFrom, Parented, InChain, Follows;
    if Buildable(infos) {
      var n := |infos|;
      StartSound(n);
      var v1 := BuildPasses(infos, 0, 0, 0, 0, Start(n), a, b, i, j);
      var w1 := Insert(n, v1, a, b);
      InsertedInChain(v1.links, Ids(n), v1.rank, a, b);
      var v2 := BuildPasses(infos, a, b, i, j + 1, w1, a, b', k, l);
      var w2 := Insert(n, v2, a, b');
      ChainKept(w1.links, v2.links, a, b);
      InsertedFollows(v2.links, Ids(n), v2.rank, a, b', b);
      var v3 := BuildPasses(infos, a, b', k, l + 1, w2, b', b, i', j');
      FollowsKept(w2.links, v3.links, b, b');
      FollowsReaches(v3.links, b, b');
      LinkSourceFree(v3.links, Ids(n), v3.rank, b');
      ReachesOn(v3.links, b, b', LinkSource(v3.links, Ids(n), v3.rank, b'));
    }
  }

  lemma FollowsReaches<N>(g: Links<N>, x: N, y: N)
    requires Follows(g, x, y)
    ensures Reaches(g, x, y)
  {
    var w: Walk :| AllAlong(w) && EndOf(g, x, w) == Some(y);
  }

  // ---------------------------------------------------------------------- order

  /** In a subscriber's chain its publishers stand in the order of the node list. */
  lemma ChildrenInOrder(infos: seq<NodeInfo>, m: Pass, m': Pass)
    requires Buildable(infos) && IsMatch(infos, m) && IsMatch(infos, m') && m.a == m'.a && m.b < m'.b
    ensures Follows(Built(infos).value.links, m.b, m'.b)
  {
    hide Ranked, Extends, Reaches, BuildFrom, Parented, InChain, Follows;
    var n := |infos|;
    StartSound(n);
    var v1 := BuildPasses(infos, 0, 0, 0, 0, Start(n), m.a, m.b, m.i, m.j);
    var w1 := Insert(n, v1, m.a, m.b);
    InsertedInChain(v1.links, Ids(n), v1.rank, m.a, m.b);
    var v2 := BuildPasses(infos, m.a, m.b, m.i, m.j + 1, w1, m.a, m'.b, m'.i, m'.j);
    ChainKept(w1.links, v2.links, m.a, m.b);
    InsertedFollows(v2.links, Ids(n), v2.rank, m.a, m'.b, m.b);
    var w2 := Insert(n, v2, m.a, m'.b);
    BuildSound(infos, m.a, m'.b, m'.i, m'.j + 1, w2);
    FollowsKept(w2.links, Built(infos).value.links, m.b, m'.b);
  }
}
