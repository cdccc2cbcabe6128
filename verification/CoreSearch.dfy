/** What the analyzer's searches over cores look for: the best tail to append at, the best empty
slot to fill, and why the earlier of the two is the earliest start on any of the cores. */
module CoreSearch {
  import opened Timeline
  import opened ListScheduling

  type Cpus = seq<seq<Slot>>

  /** Timelines are valid, and a run on a core that may be used ends below INT_MAX. */
  ghost predicate Usable(cpus: Cpus, can: seq<nat>, m: int, run: int) {
    && 0 <= m && 0 < run && m + run < INT_MAX
    && forall c: nat | c < |cpus| ::
         Tiles(cpus[c]) && Tail(cpus[c]) < INT_MAX && (c in can ==> Tail(cpus[c]) + run < INT_MAX)
  }

  ghost predicate CoresOf(cpus: Cpus, can: seq<nat>) {
    can != [] && forall c | c in can :: c < |cpus|
  }

  // ----------------------------------------------------------------------- tails

  datatype TailChoice = TailChoice(start: int32, core: nat, needEmpty: bool)

  /** Every core before bound that may be used ends after m. */
  ghost predicate AllLater(cpus: Cpus, can: seq<nat>, m: int, bound: nat) {
    forall c: nat | c < bound && c < |cpus| && c in can :: m < Tail(cpus[c])
  }

  /** Of the usable cores before bound that end by m, k ends last; the first such core. */
  ghost predicate LatestBy(cpus: Cpus, can: seq<nat>, m: int, bound: nat, k: nat) {
    && k < bound && k < |cpus| && k in can && Tail(cpus[k]) <= m
    && forall c: nat | c < bound && c < |cpus| && c in can && Tail(cpus[c]) <= m ::
         Tail(cpus[c]) < Tail(cpus[k]) || (Tail(cpus[c]) == Tail(cpus[k]) && k <= c)
  }

  /** Of the usable cores before bound, k ends first; the first such core. */
  ghost predicate EarliestEnd(cpus: Cpus, can: seq<nat>, bound: nat, k: nat) {
    && k < bound && k < |cpus| && k in can
    && forall c: nat | c < bound && c < |cpus| && c in can ::
         Tail(cpus[k]) < Tail(cpus[c]) || (Tail(cpus[c]) == Tail(cpus[k]) && k <= c)
  }

  /** The tail to append at from m on: the latest one up to m, else the earliest one. */
  ghost predicate BestTail(cpus: Cpus, can: seq<nat>, m: int, t: TailChoice) {
    if AllLater(cpus, can, m, |cpus|)
    then EarliestEnd(cpus, can, |cpus|, t.core) && t.start == Tail(cpus[t.core]) && !t.needEmpty
    else LatestBy(cpus, can, m, |cpus|, t.core) && t.start == m && t.needEmpty == (Tail(cpus[t.core]) < m)
  }

  // ----------------------------------------------------------------- empty slots

  datatype GapChoice = GapChoice(start: int32, core: nat, emptyIndex: nat, needBefore: bool, needAfter: bool)

  datatype Score = Score(fin: int, rem: int, core: int, index: int)

  /** The empty slot s can hold a run from m on. */
  predicate Fits(s: Slot, m: int, run: int) {
    s.empty && if s.startTime <= m then run <= s.endTime - m else run <= s.runTime
  }

  function ScoreOf(s: Slot, m: int, run: int, core: int, index: int): Score {
    var fin := Max(s.startTime, m) + run;
    Score(fin, s.endTime - fin, core, index)
  }

  /** Finishes earlier, or as early and leaves less of the slot. */
  predicate Better(a: Score, b: Score) {
    a.fin < b.fin || (a.fin == b.fin && a.rem < b.rem)
  }

  ghost predicate Candidate(cpus: Cpus, can: seq<nat>, m: int, run: int, c: nat, l: nat) {
    c < |cpus| && c in can && l < |cpus[c]| && Fits(cpus[c][l], m, run)
  }

  predicate Earlier(c: int, l: int, core: int, index: int) {
    c < core || (c == core && l < index)
  }

  /** best is the best score of the candidates before (core, index), the first such; or there is
  none and its finish is INT_MAX. */
  ghost predicate BestBefore(cpus: Cpus, can: seq<nat>, m: int, run: int, core: nat, index: nat, best: Score) {
    if best.fin == INT_MAX then
      forall c: nat, l: nat | Earlier(c, l, core, index) :: !Candidate(cpus, can, m, run, c, l)
    else
      && 0 <= best.core && 0 <= best.index && Earlier(best.core, best.index, core, index)
      && Candidate(cpus, can, m, run, best.core, best.index)
      && best == ScoreOf(cpus[best.core][best.index], m, run, best.core, best.index)
      && forall c: nat, l: nat | Earlier(c, l, core, index) && Candidate(cpus, can, m, run, c, l) ::
           var s := ScoreOf(cpus[c][l], m, run, c, l);
           Better(best, s) || (!Better(s, best) && !Earlier(c, l, best.core, best.index))
  }

  ghost predicate NoGap(cpus: Cpus, can: seq<nat>, m: int, run: int) {
    forall c: nat, l: nat :: !Candidate(cpus, can, m, run, c, l)
  }

  ghost predicate BestGap(cpus: Cpus, can: seq<nat>, m: int, run: int, g: GapChoice) {
    && Candidate(cpus, can, m, run, g.core, g.emptyIndex)
    && var s := cpus[g.core][g.emptyIndex];
       && g.start == Max(s.startTime, m)
       && g.needBefore == (s.startTime < g.start)
       && g.needAfter == (g.start + run < s.endTime)
       && forall c: nat, l: nat | Candidate(cpus, can, m, run, c, l) ::
            var a, b := ScoreOf(s, m, run, g.core, g.emptyIndex), ScoreOf(cpus[c][l], m, run, c, l);
            Better(a, b) || (!Better(b, a) && !Earlier(c, l, g.core, g.emptyIndex))
  }

  // ---------------------------------------------------------- the earlier of both

  datatype Choice = InGap(gap: GapChoice) | AtTail(tail: TailChoice)

  function StartOf(ch: Choice): int32 { if ch.InGap? then ch.gap.start else ch.tail.start }

  function CoreOf(ch: Choice): nat { if ch.InGap? then ch.gap.core else ch.tail.core }

  /** `ch` can be carried out for a run on these timelines. */
  ghost predicate Placeable(cpus: Cpus, run: int, ch: Choice) {
    && CoreOf(ch) < |cpus|
    && match ch
       case InGap(g) =>
         && g.emptyIndex < |cpus[g.core]|
         && var s := cpus[g.core][g.emptyIndex];
            && Holds(s, g.start, run)
            && g.needBefore == (s.startTime < g.start)
            && g.needAfter == (g.start + run < s.endTime)
       case AtTail(t) =>
         Tail(cpus[t.core]) <= t.start && t.needEmpty == (Tail(cpus[t.core]) < t.start)
  }

  /** No usable core is free for a run at any time from m up to s. */
  ghost predicate NoneFree(cpus: Cpus, can: seq<nat>, m: int, s: int, run: int) {
    forall t, c: nat | m <= t < s && c in can && c < |cpus| :: !Free(cpus[c], t, run)
  }

  /** The choice the analyzer makes at m. */
  ghost predicate Earliest(cpus: Cpus, can: seq<nat>, m: int, run: int, ch: Choice) {
    && Placeable(cpus, run, ch) && CoreOf(ch) in can
    && m <= StartOf(ch) && Free(cpus[CoreOf(ch)], StartOf(ch), run)
    && NoneFree(cpus, can, m, StartOf(ch), run)
  }

  lemma GapHolds(cpus: Cpus, can: seq<nat>, m: int, run: int, g: GapChoice)
    requires Usable(cpus, can, m, run) && BestGap(cpus, can, m, run, g)
    ensures Holds(cpus[g.core][g.emptyIndex], g.start, run) && m <= g.start
    ensures Free(cpus[g.core], g.start, run)
  {
    var s := cpus[g.core][g.emptyIndex];
    assert Tiles(cpus[g.core]) && WellFormed(s);
    FreeIff(cpus[g.core], g.start, run);
  }

  lemma TailFree(cpus: Cpus, can: seq<nat>, m: int, run: int, t: TailChoice)
    requires Usable(cpus, can, m, run) && CoresOf(cpus, can) && BestTail(cpus, can, m, t)
    ensures t.core in can && t.core < |cpus| && Tail(cpus[t.core]) <= t.start && m <= t.start
    ensures t.needEmpty == (Tail(cpus[t.core]) < t.start)
    ensures Free(cpus[t.core], t.start, run)
  {
    assert Tiles(cpus[t.core]);
    FreeIff(cpus[t.core], t.start, run);
  }

  /** No core is free earlier than the best tail and, if there is one, the best empty slot. */
  lemma NothingEarlier(cpus: Cpus, can: seq<nat>, m: int, run: int, t: TailChoice, found: bool, g: GapChoice, s: int)
    requires Usable(cpus, can, m, run) && BestTail(cpus, can, m, t)
    requires if found then BestGap(cpus, can, m, run, g) && s <= g.start else NoGap(cpus, can, m, run)
    requires s <= t.start
    ensures NoneFree(cpus, can, m, s, run)
  {
    forall u, c: nat | m <= u < s && c in can && c < |cpus| ensures !Free(cpus[c], u, run) {
      assert Tiles(cpus[c]);
      FreeIff(cpus[c], u, run);
      assert u < Tail(cpus[c]);
      forall l | 0 <= l < |cpus[c]| ensures !Holds(cpus[c][l], u, run) {
        assert WellFormed(cpus[c][l]);
        if Holds(cpus[c][l], u, run) {
          assert Candidate(cpus, can, m, run, c, l);
        }
      }
    }
  }

  // ------------------------------------------------- which core and place is chosen

  /** A fitting gap is chosen, the best of all, if one starts no later than the best tail; else that tail. */
  ghost predicate Chosen(cpus: Cpus, can: seq<nat>, m: int, run: int, ch: Choice) {
    match ch
    case InGap(g) => BestGap(cpus, can, m, run, g) && forall t | BestTail(cpus, can, m, t) :: g.start <= t.start
    case AtTail(t) =>
      && BestTail(cpus, can, m, t)
      && forall c: nat, l: nat | Candidate(cpus, can, m, run, c, l) :: t.start < Max(cpus[c][l].startTime, m)
  }

  lemma TailUnique(cpus: Cpus, can: seq<nat>, m: int, t: TailChoice, t': TailChoice)
    requires BestTail(cpus, can, m, t) && BestTail(cpus, can, m, t')
    ensures t == t'
  {
    assert t.core < |cpus| && t.core in can && t'.core < |cpus| && t'.core in can;
  }

  lemma GapUnique(cpus: Cpus, can: seq<nat>, m: int, run: int, g: GapChoice, g': GapChoice)
    requires BestGap(cpus, can, m, run, g) && BestGap(cpus, can, m, run, g')
    ensures g == g'
  {
    assert Candidate(cpus, can, m, run, g.core, g.emptyIndex);
    assert Candidate(cpus, can, m, run, g'.core, g'.emptyIndex);
  }

  /** A gap is chosen exactly when one that fits starts no later than the best tail. */
  lemma GapIff(cpus: Cpus, can: seq<nat>, m: int, run: int, ch: Choice, t: TailChoice)
    requires Chosen(cpus, can, m, run, ch) && BestTail(cpus, can, m, t)
    ensures ch.InGap? <==>
      exists c: nat, l: nat :: Candidate(cpus, can, m, run, c, l) && Max(cpus[c][l].startTime, m) <= t.start
    ensures ch.AtTail? ==> ch.tail == t
  {
    if ch.InGap? {
      assert Candidate(cpus, can, m, run, ch.gap.core, ch.gap.emptyIndex);
    } else {
      TailUnique(cpus, can, m, t, ch.tail);
    }
  }

  /** There is one choice. */
  lemma ChosenUnique(cpus: Cpus, can: seq<nat>, m: int, run: int, ch: Choice, ch': Choice)
    requires Chosen(cpus, can, m, run, ch) && Chosen(cpus, can, m, run, ch')
    ensures ch == ch'
  {
    hide BestTail, BestGap;
    match (ch, ch') {
      case (InGap(g), InGap(g')) => GapUnique(cpus, can, m, run, g, g');
      case (AtTail(t), AtTail(t')) => TailUnique(cpus, can, m, t, t');
      case (InGap(g), AtTail(t)) => GapAgainstTail(cpus, can, m, run, g, t);
      case (AtTail(t), InGap(g)) => GapAgainstTail(cpus, can, m, run, g, t);
    }
  }

  lemma GapAgainstTail(cpus: Cpus, can: seq<nat>, m: int, run: int, g: GapChoice, t: TailChoice)
    requires Chosen(cpus, can, m, run, InGap(g))
    ensures !Chosen(cpus, can, m, run, AtTail(t))
  {
    assert Candidate(cpus, can, m, run, g.core, g.emptyIndex);
  }

  /** The choice does not depend on how long before its start the search began. */
  lemma ChosenAtStart(cpus: Cpus, can: seq<nat>, m: int, run: int, ch: Choice)
    requires Usable(cpus, can, m, run) && Chosen(cpus, can, m, run, ch) && m <= StartOf(ch)
    ensures Chosen(cpus, can, StartOf(ch), run, ch)
  {
    hide Usable, BestTail, BestGap;
    match ch
    case InGap(g) =>
      GapAtStart(cpus, can, m, run, g);
      forall t | BestTail(cpus, can, g.start, t) ensures g.start <= t.start {
        TailNotBefore(cpus, can, g.start, t);
      }
    case AtTail(t) =>
      TailAtStart(cpus, can, m, t);
      forall c: nat, l: nat | Candidate(cpus, can, t.start, run, c, l)
        ensures t.start < Max(cpus[c][l].startTime, t.start)
      {
        CandidateBefore(cpus, can, m, t.start, run, c, l);
      }
  }

  lemma TailNotBefore(cpus: Cpus, can: seq<nat>, m: int, t: TailChoice)
    requires BestTail(cpus, can, m, t)
    ensures m <= t.start
  {
    assert t.core < |cpus| && t.core in can;
  }

  lemma TailAtStart(cpus: Cpus, can: seq<nat>, m: int, t: TailChoice)
    requires BestTail(cpus, can, m, t) && m <= t.start
    ensures BestTail(cpus, can, t.start, t)
  {
    if AllLater(cpus, can, m, |cpus|) {
      assert Tail(cpus[t.core]) == t.start;
      assert !AllLater(cpus, can, t.start, |cpus|);
    }
  }

  /** A gap that fits from a later time on fits from an earlier one on, and then starts no later. */
  lemma CandidateBefore(cpus: Cpus, can: seq<nat>, m: int, s: int, run: int, c: nat, l: nat)
    requires Usable(cpus, can, m, run) && m <= s && Candidate(cpus, can, s, run, c, l)
    ensures Candidate(cpus, can, m, run, c, l)
    ensures Max(cpus[c][l].startTime, m) <= Max(cpus[c][l].startTime, s)
    ensures Max(cpus[c][l].startTime, m) < Max(cpus[c][l].startTime, s) || cpus[c][l].startTime >= s || m == s
  {
    assert Tiles(cpus[c]) && WellFormed(cpus[c][l]);
  }

  lemma GapAtStart(cpus: Cpus, can: seq<nat>, m: int, run: int, g: GapChoice)
    requires Usable(cpus, can, m, run) && BestGap(cpus, can, m, run, g) && m <= g.start
    ensures BestGap(cpus, can, g.start, run, g)
  {
    var e, s := cpus[g.core][g.emptyIndex], g.start;
    assert Tiles(cpus[g.core]) && WellFormed(e);
    forall c: nat, l: nat | Candidate(cpus, can, s, run, c, l)
      ensures var a, b := ScoreOf(e, s, run, g.core, g.emptyIndex), ScoreOf(cpus[c][l], s, run, c, l);
        Better(a, b) || (!Better(b, a) && !Earlier(c, l, g.core, g.emptyIndex))
    {
      CandidateBefore(cpus, can, m, s, run, c, l);
    }
  }
}
