/** The offline scheduler itself: its searches over the per-core timelines, the retry loop for
jobs that need several cores at once, and the run over the whole queue. */
module SchedAnalyzer {
  import opened CoreSearch
  import opened GraphShape
  import opened Layout
  import opened ListScheduling
  import opened NodeGraph
  import opened Sequences
  import opened Sets
  import opened Timeline

  // ------------------------------------------------------------- sets of cores

  ghost function SetOf(s: seq<nat>): set<nat> { set c | c in s }

  lemma {:induction false} SetOfDistinct(s: seq<nat>)
    requires Distinct(s)
    ensures |SetOf(s)| == |s|
  {
    if s == [] {
      assert SetOf(s) == {};
    } else {
      var init, x := s[..|s| - 1], s[|s| - 1];
      SetOfDistinct(init);
      assert SetOf(s) == SetOf(init) + {x};
    }
  }

  /** Fewer distinct cores than there are leave one. */
  lemma CoreLeft(n: nat, used: seq<nat>) returns (c: nat)
    requires Distinct(used) && |used| < n
    ensures c < n && c !in used
  {
    SetOfDistinct(used);
    if AllCores(n) <= SetOf(used) {
      SubsetSize(AllCores(n), SetOf(used));
    }
    c :| c in AllCores(n) && c !in SetOf(used);
  }

  /** `get_can_use_core`: the cores not used yet, in order. */
  method GetCanUseCore(n: nat, used: seq<nat>) returns (can: seq<nat>)
    ensures can == CanUse(n, used)
    ensures forall c: nat :: c in can <==> c < n && c !in used
    ensures forall i, j | 0 <= i < j < |can| :: can[i] < can[j]
  {
    can := [];
    var core := 0;
    while core < n
      invariant 0 <= core <= n && can == CanUse(core, used)
    {
      var skip := false;
      var i := 0;
      while i < |used|
        invariant 0 <= i <= |used| && skip == (core in used[..i])
      {
        if used[i] == core {
          skip := true;
        }
        i := i + 1;
      }
      if !skip {
        can := can + [core];
      }
      core := core + 1;
    }
    CanUseRises(n, used);
    forall c: nat ensures c in can <==> c < n && c !in used {
      CanUseMembers(n, used, c);
    }
  }

  // ------------------------------------------------------------------ searches

  /** First loop of `get_sched_node_info`: the smallest wait on a core that has ended by m. */
  method LatestTail(cpus: Cpus, m: int32, can: seq<nat>) returns (score: int32, core: nat)
    requires 0 <= m < INT_MAX && forall c | 0 <= c < |cpus| :: 0 <= Tail(cpus[c]) < INT_MAX
    ensures if score == INT_MAX then AllLater(cpus, can, m, |cpus|)
            else LatestBy(cpus, can, m, |cpus|, core) && score == m - Tail(cpus[core])
  {
    score, core := INT_MAX, 0;
    var c := 0;
    while c < |cpus|
      invariant 0 <= c <= |cpus|
      invariant if score == INT_MAX then AllLater(cpus, can, m, c)
                else LatestBy(cpus, can, m, c, core) && score == m - Tail(cpus[core])
    {
      if c in can {
        var esc := Tail(cpus[c]);
        if score > m - esc && m - esc >= 0 {
          score, core := m - esc, c;
        }
      }
      c := c + 1;
    }
  }

  /** Second loop of `get_sched_node_info`: the shortest distance to a later tail. */
  method EarliestTail(cpus: Cpus, m: int32, can: seq<nat>) returns (core: nat)
    requires 0 <= m && forall c | 0 <= c < |cpus| :: 0 <= Tail(cpus[c]) < INT_MAX
    requires AllLater(cpus, can, m, |cpus|) && exists c: nat :: c < |cpus| && c in can
    ensures EarliestEnd(cpus, can, |cpus|, core)
  {
    var score := INT_MAX;
    core := 0;
    var c := 0;
    while c < |cpus|
      invariant 0 <= c <= |cpus|
      invariant if score == INT_MAX then forall k: nat | k < c :: k !in can
                else EarliestEnd(cpus, can, c, core) && score == Tail(cpus[core]) - m
    {
      if c in can {
        var esc := Tail(cpus[c]);
        if score > esc - m && esc - m >= 0 {
          score, core := esc - m, c;
        }
      }
      c := c + 1;
    }
  }

  /** `get_sched_node_info` and its copy for selected cores. */
  method GetSchedNodeInfo(cpus: Cpus, m: int32, can: seq<nat>) returns (t: TailChoice)
    requires 0 <= m < INT_MAX && forall c | 0 <= c < |cpus| :: 0 <= Tail(cpus[c]) < INT_MAX
    requires exists c: nat :: c < |cpus| && c in can
    ensures BestTail(cpus, can, m, t)
  {
    var score, core := LatestTail(cpus, m, can);
    if score != INT_MAX {
      t := TailChoice(m, core, score != 0);
    } else {
      core := EarliestTail(cpus, m, can);
      t := TailChoice(Tail(cpus[core]), core, false);
    }
  }

  /** The body of the inner loop of `get_sched_vacancy_node_info`. */
  method ScoreSlot(s: Slot, run: int32, m: int32, core: nat, l: nat, best: Score) returns (best': Score)
    requires WellFormed(s)
    ensures best' == if Fits(s, m, run) && Better(ScoreOf(s, m, run, core, l), best)
                     then ScoreOf(s, m, run, core, l) else best
  {
    best' := best;
    if s.empty {
      if s.startTime <= m {
        if run <= s.endTime - m {
          var this' := Score(m + run, s.endTime - (m + run), core, l);
          if this'.fin < best.fin {
            best' := this';
          } else if this'.fin == best.fin && this'.rem < best.rem {
            best' := this';
          }
        }
      } else {
        if run <= s.runTime {
          var this' := Score(s.startTime + run, s.endTime - (s.startTime + run), core, l);
          if this'.fin < best.fin {
            best' := this';
          } else if this'.fin == best.fin && this'.rem < best.rem {
            best' := this';
          }
        }
      }
    }
  }

  lemma BestStep(cpus: Cpus, can: seq<nat>, m: int, run: int, core: nat, l: nat, best: Score, best': Score)
    requires Usable(cpus, can, m, run) && core < |cpus| && core in can && l < |cpus[core]|
    requires BestBefore(cpus, can, m, run, core, l, best)
    requires best.fin == INT_MAX ==> best.rem == INT_MAX
    requires best' == if Fits(cpus[core][l], m, run) && Better(ScoreOf(cpus[core][l], m, run, core, l), best)
                      then ScoreOf(cpus[core][l], m, run, core, l) else best
    ensures BestBefore(cpus, can, m, run, core, l + 1, best')
    ensures best'.fin == INT_MAX ==> best'.rem == INT_MAX
  {
    EndsByTail(cpus[core], l);
    assert WellFormed(cpus[core][l]);
    assert Fits(cpus[core][l], m, run) ==> ScoreOf(cpus[core][l], m, run, core, l).fin < INT_MAX;
  }

  /** Both loops of `get_sched_vacancy_node_info`. */
  method BestVacancy(cpus: Cpus, run: int32, m: int32, can: seq<nat>) returns (best: Score)
    requires Usable(cpus, can, m, run)
    ensures BestBefore(cpus, can, m, run, |cpus|, 0, best)
  {
    hide BestBefore;
    best := Score(INT_MAX, INT_MAX, -1, -1);
    BestStarts(cpus, can, m, run);
    var core := 0;
    while core < |cpus|
      invariant 0 <= core <= |cpus| && BestBefore(cpus, can, m, run, core, 0, best)
      invariant best.fin == INT_MAX ==> best.rem == INT_MAX
    {
      if core in can {
        var l := 0;
        while l < |cpus[core]|
          invariant 0 <= l <= |cpus[core]| && BestBefore(cpus, can, m, run, core, l, best)
          invariant best.fin == INT_MAX ==> best.rem == INT_MAX
        {
          assert WellFormed(cpus[core][l]);
          var best' := ScoreSlot(cpus[core][l], run, m, core, l, best);
          BestStep(cpus, can, m, run, core, l, best, best');
          best := best';
          l := l + 1;
        }
      }
      NextCore(cpus, can, m, run, core, best);
      core := core + 1;
    }
  }

  lemma BestStarts(cpus: Cpus, can: seq<nat>, m: int, run: int)
    ensures BestBefore(cpus, can, m, run, 0, 0, Score(INT_MAX, INT_MAX, -1, -1))
  {
  }

  lemma NextCore(cpus: Cpus, can: seq<nat>, m: int, run: int, core: nat, best: Score)
    requires core < |cpus|
    requires BestBefore(cpus, can, m, run, core, if core in can then |cpus[core]| else 0, best)
    ensures BestBefore(cpus, can, m, run, core + 1, 0, best)
  {
    forall c: nat, l: nat | Earlier(c, l, core + 1, 0) && Candidate(cpus, can, m, run, c, l)
      ensures Earlier(c, l, core, if core in can then |cpus[core]| else 0)
    {
    }
  }

  /** `get_sched_vacancy_node_info` and its copy for selected cores. */
  method GetSchedVacancyNodeInfo(cpus: Cpus, run: int32, m: int32, can: seq<nat>) returns (found: bool, g: GapChoice)
    requires Usable(cpus, can, m, run)
    ensures if found then BestGap(cpus, can, m, run, g) else NoGap(cpus, can, m, run)
  {
    var best := BestVacancy(cpus, run, m, can);
    if best.fin != INT_MAX {
      BestIsBestGap(cpus, can, m, run, best);
      var s := cpus[best.core][best.index];
      var start := best.fin - run;
      g := GapChoice(start, best.core, best.index, s.startTime < start, best.fin < s.endTime);
      found := true;
    } else {
      assert forall c: nat, l: nat | Candidate(cpus, can, m, run, c, l) :: Earlier(c, l, |cpus|, 0);
      g := GapChoice(-1, 0, 0, false, false);
      found := false;
    }
  }

  lemma BestIsBestGap(cpus: Cpus, can: seq<nat>, m: int, run: int, best: Score)
    requires Usable(cpus, can, m, run) && best.fin != INT_MAX && BestBefore(cpus, can, m, run, |cpus|, 0, best)
    ensures 0 <= best.core < |cpus| && 0 <= best.index < |cpus[best.core]|
    ensures best.fin - run == Max(cpus[best.core][best.index].startTime, m) < INT_MAX
    ensures forall g: GapChoice ::
              g.core == best.core && g.emptyIndex == best.index && g.start == best.fin - run &&
              g.needBefore == (cpus[best.core][best.index].startTime < g.start) &&
              g.needAfter == (best.fin < cpus[best.core][best.index].endTime) ==>
              BestGap(cpus, can, m, run, g)
  {
    assert forall c: nat, l: nat | Candidate(cpus, can, m, run, c, l) :: Earlier(c, l, |cpus|, 0);
    EndsByTail(cpus[best.core], best.index);
    assert WellFormed(cpus[best.core][best.index]);
  }

  /** Both searches and the comparison that follows them wherever they are made. */
  method FindStart(cpus: Cpus, run: int32, m: int32, can: seq<nat>) returns (ch: Choice)
    requires Usable(cpus, can, m, run) && CoresOf(cpus, can)
    ensures Earliest(cpus, can, m, run, ch) && Chosen(cpus, can, m, run, ch)
  {
    hide BestTail, BestGap, Usable;
    TailsUsable(cpus, can, m, run);
    assert can[0] in can;
    var t := GetSchedNodeInfo(cpus, m, can);
    var found, g := GetSchedVacancyNodeInfo(cpus, run, m, can);
    TailFree(cpus, can, m, run, t);
    if found && g.start <= t.start {
      GapHolds(cpus, can, m, run, g);
      GapPlaceable(cpus, can, m, run, g);
      NothingEarlier(cpus, can, m, run, t, found, g, g.start);
      forall t' | BestTail(cpus, can, m, t') ensures g.start <= t'.start {
        TailUnique(cpus, can, m, t, t');
      }
      ch := InGap(g);
    } else {
      NothingEarlier(cpus, can, m, run, t, found, g, t.start);
      forall c: nat, l: nat | Candidate(cpus, can, m, run, c, l) ensures t.start < Max(cpus[c][l].startTime, m) {
        GapIsFirst(cpus, can, m, run, g, c, l);
      }
      ch := AtTail(t);
    }
  }

  lemma GapPlaceable(cpus: Cpus, can: seq<nat>, m: int, run: int, g: GapChoice)
    requires Usable(cpus, can, m, run) && BestGap(cpus, can, m, run, g)
    ensures Placeable(cpus, run, InGap(g)) && g.core in can
  {
    GapHolds(cpus, can, m, run, g);
  }

  lemma GapIsFirst(cpus: Cpus, can: seq<nat>, m: int, run: int, g: GapChoice, c: nat, l: nat)
    requires BestGap(cpus, can, m, run, g) && Candidate(cpus, can, m, run, c, l)
    ensures g.start <= Max(cpus[c][l].startTime, m)
  {
  }

  lemma TailsUsable(cpus: Cpus, can: seq<nat>, m: int, run: int)
    requires Usable(cpus, can, m, run)
    ensures 0 <= m < INT_MAX && forall c | 0 <= c < |cpus| :: 0 <= Tail(cpus[c]) < INT_MAX
  {
    forall c | 0 <= c < |cpus| ensures 0 <= Tail(cpus[c]) < INT_MAX { TailNotNegative(cpus[c]); }
  }

  // --------------------------------------------------------------- gang starts

  /** The cores free for a run at t. */
  ghost function FreeOn(cpus: Cpus, t: int, run: int): set<nat> {
    set c: nat | c < |cpus| && Free(cpus[c], t, run)
  }

  /** Fewer than k cores are free together at any time from m up to s. */
  ghost predicate Few(cpus: Cpus, m: int, s: int, run: int, k: int) {
    forall t | m <= t < s :: |FreeOn(cpus, t, run)| < k
  }

  /** s is the least start from m on at which k cores are free together. */
  ghost predicate LeastOn(cpus: Cpus, m: int, s: int, run: int, k: int) {
    m <= s && |FreeOn(cpus, s, run)| >= k && Few(cpus, m, s, run, k)
  }

  ghost predicate Unused(cpus: Cpus, can: seq<nat>, used: seq<nat>) {
    forall c: nat :: c in can <==> c < |cpus| && c !in used
  }

  /** A choice is not later than the minimum start or the latest tail. */
  lemma StartBounded(cpus: Cpus, can: seq<nat>, m: int, run: int, ch: Choice, bound: int)
    requires Usable(cpus, can, m, run) && Earliest(cpus, can, m, run, ch)
    requires m <= bound && forall c | 0 <= c < |cpus| :: Tail(cpus[c]) <= bound
    ensures StartOf(ch) <= bound
  {
    assert Tiles(cpus[CoreOf(ch)]);
    FreeIff(cpus[CoreOf(ch)], bound, run);
  }

  /** Where no unused core is free, only used ones can be. */
  lemma FewUnlessUsed(cpus: Cpus, can: seq<nat>, used: seq<nat>, m: int, s: int, run: int)
    requires Unused(cpus, can, used) && NoneFree(cpus, can, m, s, run)
    ensures Few(cpus, m, s, run, |used| + 1)
  {
    forall t | m <= t < s ensures |FreeOn(cpus, t, run)| < |used| + 1 {
      assert FreeOn(cpus, t, run) <= SetOf(used);
      SubsetSize(FreeOn(cpus, t, run), SetOf(used));
      SetOfSize(used);
    }
  }

  lemma {:induction false} SetOfSize(s: seq<nat>)
    ensures |SetOf(s)| <= |s|
  {
    if s == [] {
      assert SetOf(s) == {};
    } else {
      var init, x := s[..|s| - 1], s[|s| - 1];
      SetOfSize(init);
      assert SetOf(s) == SetOf(init) + {x};
    }
  }

  lemma FewJoin(cpus: Cpus, m: int, u: int, s: int, run: int, k: int)
    requires Few(cpus, m, u, run, k) && Few(cpus, u, s, run, k)
    ensures Few(cpus, m, s, run, k)
  {
  }

  lemma FewMore(cpus: Cpus, m: int, s: int, run: int, j: int, k: int)
    requires Few(cpus, m, s, run, j) && j <= k
    ensures Few(cpus, m, s, run, k)
  {
  }

  /** All cores are free from the latest tail on. */
  lemma AllFree(cpus: Cpus, t: int, run: int)
    requires 0 <= t && 0 < run && forall c | 0 <= c < |cpus| :: Tiles(cpus[c]) && Tail(cpus[c]) <= t
    ensures |FreeOn(cpus, t, run)| == |cpus|
  {
    forall c: nat | c < |cpus| ensures Free(cpus[c], t, run) { FreeIff(cpus[c], t, run); }
    assert FreeOn(cpus, t, run) == AllCores(|cpus|);
  }

  /** What a round of the retry loop knows after finding `used` cores: all free together at s, or
  a later time before which too few are. */
  ghost predicate RoundOk(cpus: Cpus, m: int, s: int, run: int, k: int, used: seq<nat>, success: bool, next: int) {
    if success then
      && (forall u | u in used :: u < |cpus| && Free(cpus[u], s, run))
      && next == (if m < s && |used| >= 2 then s else INT_MAX)
    else m < next < INT_MAX && Few(cpus, m, next, run, k)
  }

  lemma RoundStep(cpus: Cpus, m: int, s: int, run: int, k: int, used: seq<nat>, success: bool, next: int,
                  can: seq<nat>, ch: Choice, success': bool, next': int)
    requires RoundOk(cpus, m, s, run, k, used, success, next) && 1 <= |used| < k
    requires m <= s && Few(cpus, m, s, run, 1)
    requires Unused(cpus, can, used) && Earliest(cpus, can, s, run, ch) && StartOf(ch) < INT_MAX
    requires success' == (success && StartOf(ch) == s)
    requires next' == if m < StartOf(ch) && StartOf(ch) <= next then StartOf(ch) else next
    ensures RoundOk(cpus, m, s, run, k, used + [CoreOf(ch)], success', next')
  {
    if success && !success' {
      FewUnlessUsed(cpus, can, used, s, StartOf(ch), run);
      FewMore(cpus, s, StartOf(ch), run, |used| + 1, k);
      FewMore(cpus, m, s, run, 1, k);
      FewJoin(cpus, m, s, StartOf(ch), run, k);
    }
  }

  /** Nothing planned ends after bound, and a run starting by then ends below INT_MAX. */
  ghost predicate Bounded(cpus: Cpus, m: int, run: int, bound: int) {
    && m <= bound && bound + run < INT_MAX
    && forall c: nat | c < |cpus| :: Tiles(cpus[c]) && Tail(cpus[c]) <= bound
  }

  /** One round of the retry loop: looks for k cores free together from m on.  It either finds
  them at s, the first time any core is free, or gives a later time to try from. */
  method SearchRound(cpus: Cpus, run: int32, m: int32, k: int32, ghost bound: int)
    returns (success: bool, next: int32, ghost s: int)
    requires 0 <= m && 0 < run && 1 < k <= |cpus| && Bounded(cpus, m, run, bound)
    ensures m <= s <= bound && Few(cpus, m, s, run, 1)
    ensures success ==> |FreeOn(cpus, s, run)| >= k
    ensures !success ==> m < next < INT_MAX && Few(cpus, m, next, run, k)
  {
    hide Chosen, CanUse;
    var used: seq<nat> := [];
    var can := GetCanUseCore(|cpus|, used);
    assert 0 in can;
    var first := FindStart(cpus, run, m, can);
    StartBounded(cpus, can, m, run, first, bound);
    s := StartOf(first);
    var start := StartOf(first);
    FewUnlessUsed(cpus, can, used, m, s, run);
    used := used + [CoreOf(first)];
    can := GetCanUseCore(|cpus|, used);
    success, next := true, INT_MAX;
    var nodeCore := 0;
    while nodeCore < k - 1
      invariant 0 <= nodeCore <= k - 1 && |used| == nodeCore + 1 && Distinct(used) && Unused(cpus, can, used)
      invariant RoundOk(cpus, m, s, run, k, used, success, next)
    {
      var c := CoreLeft(|cpus|, used);
      assert c in can;
      var ch := FindStart(cpus, run, start, can);
      StartBounded(cpus, can, start, run, ch, bound);
      ghost var success0, next0 := success, next;
      if m < StartOf(ch) && StartOf(ch) <= next {
        next := StartOf(ch);
      }
      if StartOf(ch) != start {
        success := false;
      }
      RoundStep(cpus, m, s, run, k, used, success0, next0, can, ch, success, next);
      used := used + [CoreOf(ch)];
      can := GetCanUseCore(|cpus|, used);
      nodeCore := nodeCore + 1;
    }
    if success {
      SetOfDistinct(used);
      assert SetOf(used) <= FreeOn(cpus, s, run);
      SubsetSize(SetOf(used), FreeOn(cpus, s, run));
    }
  }

  /** The retry loop: ends, at a time from which the first start on any core is the least one at
  which k cores are free together. */
  method GangStart(cpus: Cpus, run: int32, m0: int32, k: int32, ghost bound: int) returns (m: int32, ghost s: int)
    requires 0 <= m0 && 0 < run && 1 < k <= |cpus| && Bounded(cpus, m0, run, bound)
    ensures m0 <= m <= bound && Few(cpus, m0, m, run, k)
    ensures m <= s <= bound && LeastOn(cpus, m0, s, run, k) && Few(cpus, m, s, run, 1)
  {
    m := m0;
    while true
      invariant m0 <= m <= bound && Few(cpus, m0, m, run, k)
      decreases bound - m
    {
      var success, next;
      success, next, s := SearchRound(cpus, run, m, k, bound);
      if success {
        FewMore(cpus, m, s, run, 1, k);
        FewJoin(cpus, m0, m, s, run, k);
        break;
      }
      if bound < next {
        AllFree(cpus, bound, run);
      }
      FewJoin(cpus, m0, m, next, run, k);
      m := next;
    }
  }

  // ------------------------------------------------------------------ placing

  /** One core got one more busy slot; the other timelines are as they were. */
  ghost predicate PlacedOn(cpus: Cpus, cpus': Cpus, core: nat, slot: Slot) {
    && core < |cpus| && |cpus'| == |cpus| && cpus' == cpus[core := cpus'[core]]
    && Tiles(cpus'[core]) && Busy(cpus'[core]) == Busy(cpus[core]) + multiset{slot}
    && Tail(cpus'[core]) == Max(Tail(cpus[core]), slot.endTime)
  }

  lemma SplicePlaces(cpus: Cpus, g: GapChoice, slot: Slot)
    requires g.core < |cpus| && Tiles(cpus[g.core]) && g.emptyIndex < |cpus[g.core]|
    requires WellFormed(slot) && !slot.empty && Holds(cpus[g.core][g.emptyIndex], slot.startTime, slot.runTime)
    ensures 0 <= cpus[g.core][g.emptyIndex].startTime
    ensures PlacedOn(cpus, cpus[g.core := Splice(cpus[g.core], g.emptyIndex, slot)], g.core, slot)
  {
    var tl, e := cpus[g.core], g.emptyIndex;
    assert WellFormed(tl[e]);
    SpliceBusy(tl, e, slot);
    SpliceKeeps(tl, e, slot);
    EndsByTail(tl, e);
  }

  lemma AppendPlaces(cpus: Cpus, core: nat, slot: Slot)
    requires core < |cpus| && Tiles(cpus[core])
    requires WellFormed(slot) && !slot.empty && Tail(cpus[core]) <= slot.startTime
    ensures 0 <= Tail(cpus[core])
    ensures PlacedOn(cpus, cpus[core := Append(cpus[core], slot)], core, slot)
  {
    TailNotNegative(cpus[core]);
    AppendBusy(cpus[core], slot);
    AppendKeeps(cpus[core], slot);
  }

  /** The cores in used each got the slot; the others are as they were. */
  ghost predicate PlacedOnAll(cpus: Cpus, cpus': Cpus, used: seq<nat>, slot: Slot) {
    && |cpus'| == |cpus| && (forall u | u in used :: u < |cpus|)
    && forall c: nat | c < |cpus| ::
         if c in used then
           Tiles(cpus'[c]) && Busy(cpus'[c]) == Busy(cpus[c]) + multiset{slot} &&
           Tail(cpus'[c]) == Max(Tail(cpus[c]), slot.endTime)
         else cpus'[c] == cpus[c]
  }

  lemma PlacedOneMore(cpus: Cpus, cpus': Cpus, cpus'': Cpus, used: seq<nat>, core: nat, slot: Slot)
    requires PlacedOnAll(cpus, cpus', used, slot) && PlacedOn(cpus', cpus'', core, slot) && core !in used
    ensures PlacedOnAll(cpus, cpus'', used + [core], slot)
  {
    assert cpus'[core] == cpus[core];
  }

  /** The search on the remaining cores of a gang finds its common start again. */
  lemma SameStart(cpus: Cpus, cpus': Cpus, used: seq<nat>, slot: Slot, can: seq<nat>, ch: Choice, m: int, s: int, run: int, k: int)
    requires PlacedOnAll(cpus, cpus', used, slot) && Distinct(used) && |used| < k
    requires m <= s && Few(cpus, m, s, run, 1) && |FreeOn(cpus, s, run)| >= k
    requires Unused(cpus, can, used) && Earliest(cpus', can, m, run, ch)
    ensures StartOf(ch) == s && CoreOf(ch) in FreeOn(cpus, s, run)
  {
    SetOfDistinct(used);
    if FreeOn(cpus, s, run) <= SetOf(used) {
      SubsetSize(FreeOn(cpus, s, run), SetOf(used));
    }
    var c :| c in FreeOn(cpus, s, run) && c !in SetOf(used);
    assert cpus'[c] == cpus[c];
    assert StartOf(ch) <= s;
    var core := CoreOf(ch);
    assert cpus'[core] == cpus[core];
    assert core in FreeOn(cpus, StartOf(ch), run);
  }

  // ------------------------------------------------------- timelines and plans

  ghost predicate PlanOk(plan: seq<Placement>, n: nat) {
    forall i | 0 <= i < |plan| ::
      0 <= plan[i].job.index && 0 < plan[i].job.runTime && 0 <= plan[i].start && End(plan[i]) <= INT_MAX &&
      plan[i].cores != {} && plan[i].cores <= AllCores(n)
  }

  ghost predicate Sized(p: Placement) {
    0 <= p.start && 0 <= p.job.runTime && End(p) <= INT_MAX
  }

  ghost function SlotOf(p: Placement): Slot
    requires Sized(p)
  {
    BusySlot(p.job.index, p.start, p.job.runTime)
  }

  /** The busy slots a plan puts on core c. */
  ghost function PlanBusy(plan: seq<Placement>, c: nat): multiset<Slot>
    requires forall p | p in plan :: Sized(p)
  {
    if plan == [] then multiset{}
    else
      var p := plan[|plan| - 1];
      PlanBusy(plan[..|plan| - 1], c) + if c in p.cores then multiset{SlotOf(p)} else multiset{}
  }

  /** The timelines hold exactly what the plan says. */
  ghost predicate Represents(cpus: Cpus, plan: seq<Placement>) {
    && PlanOk(plan, |cpus|) && (forall p | p in plan :: Sized(p))
    && forall c | 0 <= c < |cpus| :: Tiles(cpus[c]) && Busy(cpus[c]) == PlanBusy(plan, c)
  }

  lemma {:induction false} PlanBusyMember(plan: seq<Placement>, c: nat, s: Slot)
    requires forall p | p in plan :: Sized(p)
    ensures s in PlanBusy(plan, c) <==> exists i :: 0 <= i < |plan| && c in plan[i].cores && s == SlotOf(plan[i])
  {
    if plan != [] {
      var init, k := plan[..|plan| - 1], |plan| - 1;
      PlanBusyMember(init, c, s);
      if i :| 0 <= i < |plan| && c in plan[i].cores && s == SlotOf(plan[i]) {
        if i < k { assert init[i] == plan[i]; }
      }
      if i :| 0 <= i < |init| && c in init[i].cores && s == SlotOf(init[i]) {
        assert plan[i] == init[i];
      }
    }
  }

  lemma FreeIsCoreFree(cpus: Cpus, plan: seq<Placement>, c: nat, t: int, r: int)
    requires Represents(cpus, plan) && c < |cpus|
    ensures Free(cpus[c], t, r) <==> CoreFree(plan, c, t, r)
  {
    FreeByBusy(cpus[c], t, r);
    if CoreFree(plan, c, t, r) {
      forall s | s in Busy(cpus[c]) ensures s.endTime <= t || t + r <= s.startTime {
        PlanBusyMember(plan, c, s);
      }
    }
    if Free(cpus[c], t, r) {
      forall i | 0 <= i < |plan| && c in plan[i].cores ensures End(plan[i]) <= t || t + r <= plan[i].start {
        PlanBusyMember(plan, c, SlotOf(plan[i]));
      }
    }
  }

  lemma FreeOnIsFreeCores(cpus: Cpus, plan: seq<Placement>, t: int, r: int)
    requires Represents(cpus, plan)
    ensures FreeOn(cpus, t, r) == FreeCores(plan, |cpus|, t, r)
  {
    forall c: nat | c < |cpus| ensures Free(cpus[c], t, r) <==> CoreFree(plan, c, t, r) {
      FreeIsCoreFree(cpus, plan, c, t, r);
    }
  }

  /** The least start on timelines is the least start of the plan. */
  lemma LeastOnIsLeastStart(cpus: Cpus, plan: seq<Placement>, job: Job, m: int, s: int)
    requires Represents(cpus, plan) && LeastOn(cpus, m, s, job.runTime, Copies(job))
    ensures LeastStart(plan, |cpus|, job, m, s)
  {
    FreeOnIsFreeCores(cpus, plan, s, job.runTime);
    forall t | m <= t < s ensures |FreeCores(plan, |cpus|, t, job.runTime)| < Copies(job) {
      FreeOnIsFreeCores(cpus, plan, t, job.runTime);
    }
  }

  /** No timeline ends after the makespan, and one that ends at it if anything was placed. */
  lemma TailsByMakespan(cpus: Cpus, plan: seq<Placement>)
    requires Represents(cpus, plan)
    ensures forall c | 0 <= c < |cpus| :: 0 <= Tail(cpus[c]) <= Makespan(plan)
    ensures plan != [] ==> exists c :: 0 <= c < |cpus| && Tail(cpus[c]) == Makespan(plan)
  {
    MakespanIsLargest(plan);
    forall c | 0 <= c < |cpus| ensures 0 <= Tail(cpus[c]) <= Makespan(plan) {
      TailNotNegative(cpus[c]);
      if cpus[c] != [] {
        var s := cpus[c][|cpus[c]| - 1];
        BusyMember(cpus[c], s);
        PlanBusyMember(plan, c, s);
        assert WellFormed(s);
      }
    }
    if plan != [] {
      assert End(plan[0]) > 0;
      var i :| 0 <= i < |plan| && End(plan[i]) == Makespan(plan);
      var c :| c in plan[i].cores;
      PlanBusyMember(plan, c, SlotOf(plan[i]));
      BusyMember(cpus[c], SlotOf(plan[i]));
      var l :| 0 <= l < |cpus[c]| && cpus[c][l] == SlotOf(plan[i]);
      EndsByTail(cpus[c], l);
      assert Tail(cpus[c]) == Makespan(plan);
    }
  }

  /** What `get_min_start_time` computes from slots. */
  ghost predicate MinStart(cpus: Cpus, children: seq<int>, m: int) {
    && 0 <= m
    && (forall c, l | 0 <= c < |cpus| && 0 <= l < |cpus[c]| && cpus[c][l].nodeIndex in children :: cpus[c][l].escTime <= m)
    && (m == 0 || exists c, l :: 0 <= c < |cpus| && 0 <= l < |cpus[c]| && cpus[c][l].nodeIndex in children &&
                                 cpus[c][l].escTime == m)
  }

  lemma MinStartIsReady(cpus: Cpus, plan: seq<Placement>, children: seq<int>, m: int)
    requires Represents(cpus, plan) && MinStart(cpus, children, m) && forall k | k in children :: 0 <= k
    ensures m == Ready(plan, children)
  {
    forall i | 0 <= i < |plan| && plan[i].job.index in children ensures End(plan[i]) <= m {
      var c :| c in plan[i].cores;
      PlanBusyMember(plan, c, SlotOf(plan[i]));
      BusyMember(cpus[c], SlotOf(plan[i]));
      var l :| 0 <= l < |cpus[c]| && cpus[c][l] == SlotOf(plan[i]);
    }
    if m != 0 {
      var c, l :| 0 <= c < |cpus| && 0 <= l < |cpus[c]| && cpus[c][l].nodeIndex in children && cpus[c][l].escTime == m;
      assert WellFormed(cpus[c][l]);
      BusyMember(cpus[c], cpus[c][l]);
      PlanBusyMember(plan, c, cpus[c][l]);
      var i :| 0 <= i < |plan| && c in plan[i].cores && cpus[c][l] == SlotOf(plan[i]);
      assert End(plan[i]) == m;
    }
    ReadyUnique(plan, children, m);
  }

  lemma {:induction false} PlanBusySnoc(plan: seq<Placement>, p: Placement, c: nat)
    requires forall q | q in plan :: Sized(q)
    requires Sized(p)
    ensures PlanBusy(plan + [p], c) == PlanBusy(plan, c) + if c in p.cores then multiset{SlotOf(p)} else multiset{}
  {
    assert (plan + [p])[..|plan|] == plan;
  }

  /** Placing a job on a set of cores extends the plan by it. */
  lemma RepresentsNext(cpus: Cpus, cpus': Cpus, plan: seq<Placement>, used: seq<nat>, p: Placement)
    requires Represents(cpus, plan) && PlanOk([p], |cpus|) && Sized(p) && p.cores == SetOf(used)
    requires PlacedOnAll(cpus, cpus', used, SlotOf(p))
    ensures Represents(cpus', plan + [p])
  {
    assert [p][0] == p;
    forall c: nat | c < |cpus'| ensures Tiles(cpus'[c]) && Busy(cpus'[c]) == PlanBusy(plan + [p], c) {
      PlanBusySnoc(plan, p, c);
      assert c in p.cores <==> c in used;
    }
  }

  // ------------------------------------------------------------- the scheduler

  /** All jobs but the last k of the queue are planned greedily. */
  ghost predicate Planned(queue: seq<Job>, children: Children, n: nat, plan: seq<Placement>, k: nat) {
    k <= |queue| && GreedyPlan(queue[..k], children, n, plan)
  }

  lemma PlannedNext(queue: seq<Job>, children: Children, n: nat, plan: seq<Placement>, k: nat, p: Placement)
    requires Planned(queue, children, n, plan, k) && k < |queue| && p.job == queue[k]
    requires GreedyStep(plan, n, ChildrenOf(children, p.job.index), p)
    ensures Planned(queue, children, n, plan + [p], k + 1)
  {
    var plan' := plan + [p];
    forall i | 0 <= i < |plan'|
      ensures plan'[i].job == queue[..k + 1][i] &&
              GreedyStep(plan'[..i], n, ChildrenOf(children, queue[..k + 1][i].index), plan'[i])
    {
      if i < k {
        assert plan'[..i] == plan[..i] && plan'[i] == plan[i];
        assert queue[..k][i] == queue[i];
      } else {
        assert plan'[..i] == plan;
      }
    }
  }

  class Analyzer {
    const cores: nat
    const graph: GraphAnalyzer
    var tasks: Cpus
    var nodeQueue: seq<Job>
    var makespan: int32
    ghost var plan: seq<Placement>

    constructor (cores: nat, graph: GraphAnalyzer)
      ensures this.cores == cores && this.graph == graph
      ensures Valid() && plan == [] && nodeQueue == [] && makespan == 0
    {
      this.cores, this.graph := cores, graph;
      tasks, nodeQueue, makespan, plan := seq(cores, _ => []), [], 0, [];
      LaidStarts(cores, seq(cores, _ => []));
    }

    ghost predicate Valid()
      reads `tasks, `plan
    {
      |tasks| == cores && Represents(tasks, plan) && Laid(cores, tasks, plan)
    }

    /** The gap is an empty slot that holds the run, and its flags say what remains of the slot. */
    ghost predicate GapFits(g: GapChoice, run: int)
      reads this
    {
      && g.core < |tasks| && g.emptyIndex < |tasks[g.core]|
      && var e := tasks[g.core][g.emptyIndex];
      && 0 <= e.startTime && Holds(e, g.start, run)
      && g.needBefore == (e.startTime < g.start) && g.needAfter == (g.start + run < e.endTime)
    }

    /** `set_sched_vacancy_node`: replaces an empty slot by what is left of it and the node.  Its guard is
    tried first: nothing is asked of a gap that a negative argument keeps from being used. */
    method SetSchedVacancyNode(index: int, run: int32, coreIndex: int, g: GapChoice) returns (ok: int)
      requires index >= 0 && run >= 0 && coreIndex >= 0 ==> coreIndex == g.core && GapFits(g, run)
      modifies `tasks
      ensures ok == if index < 0 || run < 0 || coreIndex < 0 then -1 else 1
      ensures ok == -1 ==> tasks == old(tasks)
      ensures ok == 1 ==>
                tasks == old(tasks)[g.core := Splice(old(tasks)[g.core], g.emptyIndex, BusySlot(index, g.start, run))]
    {
      if index < 0 || run < 0 || coreIndex < 0 {
        return -1;
      }
      var tl, e := tasks[g.core], g.emptyIndex;
      var swap: seq<Slot> := [];
      var i := 0;
      while i != e
        invariant 0 <= i <= e && swap == tl[..i]
        decreases e - i
      {
        assert tl[..i + 1] == tl[..i] + [tl[i]];
        swap := swap + [tl[i]];
        i := i + 1;
      }
      ghost var slot, mid := BusySlot(index, g.start, run), Gap(tl[e].startTime, g.start);
      if g.needBefore {
        swap := swap + [EmptySlot(tl[e].startTime, g.start)];
      }
      assert swap == tl[..e] + mid;
      swap := swap + [BusySlot(index, g.start, run)];
      if g.needAfter {
        swap := swap + [EmptySlot(g.start + run, tl[e].endTime)];
      }
      assert swap == tl[..e] + Filling(tl[e], slot);
      i := e + 1;
      while i != |tl|
        invariant e < i <= |tl| && swap == tl[..e] + Filling(tl[e], slot) + tl[e + 1..i]
        decreases |tl| - i
      {
        assert tl[e + 1..i + 1] == tl[e + 1..i] + [tl[i]];
        swap := swap + [tl[i]];
        i := i + 1;
      }
      assert tl[e + 1..i] == tl[e + 1..];
      tasks := tasks[g.core := swap];
      return 1;
    }

    /** The pushes at the end of a timeline, with an empty slot before the node if one is needed. */
    method PushNode(index: int, run: int32, t: TailChoice)
      requires t.core < |tasks| && 0 <= Tail(tasks[t.core]) <= t.start && 0 <= run && t.start + run <= INT_MAX
      requires t.needEmpty == (Tail(tasks[t.core]) < t.start)
      modifies `tasks
      ensures tasks == old(tasks)[t.core := Append(old(tasks)[t.core], BusySlot(index, t.start, run))]
    {
      if t.needEmpty {
        var emptyStart := if tasks[t.core] == [] then 0 else tasks[t.core][|tasks[t.core]| - 1].escTime;
        tasks := tasks[t.core := tasks[t.core] + [EmptySlot(emptyStart, t.start)]];
      }
      tasks := tasks[t.core := tasks[t.core] + [BusySlot(index, t.start, run)]];
      assert old(tasks)[t.core] + [] == old(tasks)[t.core];
      assert tasks[t.core] == Append(old(tasks)[t.core], BusySlot(index, t.start, run));
    }

    /** Carries out a choice for a job. */
    method Place(job: Job, ch: Choice)
      requires 0 <= job.index && 0 < job.runTime && 0 <= StartOf(ch) && StartOf(ch) + job.runTime <= INT_MAX
      requires Placeable(tasks, job.runTime, ch) && Tiles(tasks[CoreOf(ch)])
      modifies `tasks
      ensures old(Puttable(tasks, job, ch)) && tasks == old(Put(tasks, job, ch))
      ensures PlacedOn(old(tasks), tasks, CoreOf(ch), BusySlot(job.index, StartOf(ch), job.runTime))
    {
      ghost var slot := BusySlot(job.index, StartOf(ch), job.runTime);
      match ch
      case InGap(g) =>
        SplicePlaces(tasks, g, slot);
        var _ := SetSchedVacancyNode(job.index, job.runTime, g.core, g);
      case AtTail(t) =>
        AppendPlaces(tasks, t.core, slot);
        PushNode(job.index, job.runTime, t);
    }

    /** Second pass for a gang: searches again while placing, and puts every copy at the common
    start on its own core. */
    method PlaceCopies(job: Job, m: int32, k: int32, ghost s: int, ghost bound: int)
      returns (ghost used: seq<nat>)
      requires 0 <= job.index && 0 < job.runTime && 1 < k <= |tasks|
      requires 0 <= m <= s <= bound && Bounded(tasks, m, job.runTime, bound)
      requires |FreeOn(tasks, s, job.runTime)| >= k && Few(tasks, m, s, job.runTime, 1)
      modifies `tasks
      ensures |used| == k && Distinct(used)
      ensures SetOf(used) <= FreeOn(old(tasks), s, job.runTime)
      ensures PlacedOnAll(old(tasks), tasks, used, BusySlot(job.index, s, job.runTime))
      ensures PutOn(old(tasks), tasks, job, s, used)
    {
      hide Chosen, CopyPut, PutOn, CanUse, Puttable;
      NoneOn(tasks, job, s);
      ghost var tasks0, slot := tasks, BusySlot(job.index, s, job.runTime);
      var usedCore: seq<nat> := [];
      var nodeCore := 0;
      while nodeCore < k
        invariant 0 <= nodeCore <= k && |usedCore| == nodeCore && Distinct(usedCore)
        invariant SetOf(usedCore) <= FreeOn(tasks0, s, job.runTime)
        invariant PlacedOnAll(tasks0, tasks, usedCore, slot)
        invariant PutOn(tasks0, tasks, job, s, usedCore)
      {
        var can := GetCanUseCore(|tasks|, usedCore);
        ghost var c := CoreLeft(|tasks|, usedCore);
        assert c in can;
        StillUsable(tasks0, tasks, usedCore, slot, can, m, job.runTime, bound);
        var ch := FindStart(tasks, job.runTime, m, can);
        SameStart(tasks0, tasks, usedCore, slot, can, ch, m, s, job.runTime, k);
        ghost var tasks1 := tasks;
        Place(job, ch);
        PlacedOneMore(tasks0, tasks1, tasks, usedCore, CoreOf(ch), slot);
        CopyChosen(tasks1, tasks, job, m, s, usedCore, ch);
        OneMoreOn(tasks0, tasks1, tasks, job, s, usedCore, ch);
        usedCore := usedCore + [CoreOf(ch)];
        nodeCore := nodeCore + 1;
      }
      used := usedCore;
    }

    /** `get_min_start_time`: when the last placed child ends. */
    method GetMinStartTime(index: int) returns (m: int32)
      requires Valid() && graph.Valid() && 0 <= index < |graph.nodes|
      ensures m == Ready(plan, ChildrenOf(SeenChildren(graph.shape), index))
    {
      ghost var seen := ChildrenOf(SeenChildren(graph.shape), index);
      ChildrenAreNodes(graph.shape, index);
      assert forall k | k in seen :: 0 <= k;
      var ok, children := graph.SchedChildList(index);
      assert IndicesOf(children) == seen;
      m := LatestEnd(tasks, children);
      MinStartIsReady(tasks, plan, seen, m);
    }

    /** One job: the least start, at or after the end of its children, at which enough cores are
    free, on that many cores. */
    method Schedule(job: Job)
      requires Valid() && graph.Valid() && 0 <= job.index < |graph.nodes|
      requires 0 < job.runTime && Copies(job) <= cores && Makespan(plan) + job.runTime < INT_MAX
      modifies `tasks, `plan
      ensures Valid() && |plan| == |old(plan)| + 1 && plan[..|old(plan)|] == old(plan)
      ensures plan[|old(plan)|].job == job
      ensures GreedyStep(old(plan), cores, ChildrenOf(SeenChildren(graph.shape), job.index), plan[|old(plan)|])
      ensures JobPut(old(tasks), tasks, plan[|old(plan)|])
    {
      hide Laid, JobPut, Represents, LeastOn, FreeOn, PlacedOnAll, GreedyStep, Bounded, Makespan, SeenChildren,
        ChildrenOf, Ready, Connected, Closed, LinksOf, LaxityOf, MadeFrom, Stores;
      var m := GetMinStartTime(job.index);
      ghost var children := ChildrenOf(SeenChildren(graph.shape), job.index);
      ReadyByMakespan(plan, children);
      BoundedByMakespan(tasks, plan, m, job.runTime);
      ghost var tasks0 := tasks;
      ghost var s, used := PlaceJob(job, m, Makespan(plan));
      ghost var p := Placement(job, s, SetOf(used));
      LaidNext(cores, tasks0, plan, tasks, p);
      StepPlanned(tasks0, tasks, plan, children, p, used);
      plan := plan + [p];
    }

    /** The two branches of the loop body of `run`. */
    method PlaceJob(job: Job, m: int32, ghost bound: int) returns (ghost s: int, ghost used: seq<nat>)
      requires 0 <= job.index && 0 < job.runTime && 0 < |tasks| && Copies(job) <= |tasks|
      requires 0 <= m && Bounded(tasks, m, job.runTime, bound)
      modifies `tasks
      ensures m <= s <= bound && LeastOn(old(tasks), m, s, job.runTime, Copies(job))
      ensures |used| == Copies(job) && Distinct(used) && SetOf(used) <= FreeOn(old(tasks), s, job.runTime)
      ensures PlacedOnAll(old(tasks), tasks, used, BusySlot(job.index, s, job.runTime))
      ensures JobPut(old(tasks), tasks, Placement(job, s, SetOf(used)))
    {
      hide PutOn;
      if job.core > 1 {
        var m';
        m', s := GangStart(tasks, job.runTime, m, job.core, bound);
        used := PlaceCopies(job, m', job.core, s, bound);
      } else {
        s, used := PlaceSingle(job, m, bound);
      }
      JobIsPut(old(tasks), tasks, Placement(job, s, SetOf(used)), used);
    }

    /** `compute_makespan` */
    method ComputeMakespan()
      requires Valid() && makespan == 0
      modifies `makespan
      ensures makespan == Makespan(plan)
    {
      hide Laid, Represents;
      TailsByMakespan(tasks, plan);
      var i := 0;
      while i < |tasks|
        invariant 0 <= i <= |tasks| && 0 <= makespan <= Makespan(plan)
        invariant forall c | 0 <= c < i :: Tail(tasks[c]) <= makespan
      {
        if tasks[i] != [] {
          if makespan < tasks[i][|tasks[i]| - 1].escTime {
            makespan := tasks[i][|tasks[i]| - 1].escTime;
          }
        }
        i := i + 1;
      }
    }

    /** `run` on a new analyzer and a new graph: the queue holds every node in laxity order, and
    the timelines are those of the greedy plan for it. */
    method Run()
      requires Valid() && plan == [] && nodeQueue == [] && makespan == 0
      requires graph.Valid() && Runnable(graph.shape.infos, cores)
      requires forall i | i in graph.laxity :: graph.laxity[i] == -1
      modifies this, graph`laxity, graph.store.Values`invLaxity
      ensures Valid()
      ensures Scheduled(graph.shape, graph.laxity, nodeQueue, cores, plan)
      ensures Laid(cores, tasks, plan) && makespan == Makespan(plan)
    {
      hide Prepared, Scheduled, Good, Represents;
      Prepare();
      ScheduleQueue();
      ComputeMakespan();
    }

    /** The first two statements of `run`. */
    method Prepare()
      requires nodeQueue == [] && graph.Valid()
      requires forall i | i in graph.laxity :: graph.laxity[i] == -1
      modifies `nodeQueue, graph`laxity, graph.store.Values`invLaxity
      ensures graph.Valid() && Prepared(graph.shape, graph.laxity, nodeQueue)
    {
      hide LaxityComputed, Good, LaxityOrdered, QueueOf;
      graph.ComputeLaxity();
      var queue := graph.SchedAllNodeQueue();
      nodeQueue := nodeQueue + queue;
      assert nodeQueue == queue;
    }

    /** The loop of `run`. */
    method ScheduleQueue()
      requires Valid() && plan == [] && graph.Valid() && Runnable(graph.shape.infos, cores)
      requires Prepared(graph.shape, graph.laxity, nodeQueue)
      modifies `tasks, `plan
      ensures Valid() && Scheduled(graph.shape, graph.laxity, nodeQueue, cores, plan)
    {
      hide LaxityComputed, Good, Represents, GreedyStep;
      var i := 0;
      QueueIsSchedulable(graph.shape.infos, graph.laxity, nodeQueue, cores);
      assert plan[..0] == [] && nodeQueue[..0] == [];
      while i < |nodeQueue|
        invariant 0 <= i <= |nodeQueue| && |plan| == i
        invariant Valid() && graph.Valid() && Planned(nodeQueue, SeenChildren(graph.shape), cores, plan, i)
      {
        ScheduleNext(i);
        i := i + 1;
      }
      assert nodeQueue[..i] == nodeQueue;
    }

    /** One pass of that loop. */
    method ScheduleNext(i: nat)
      requires Valid() && graph.Valid() && Schedulable(nodeQueue, cores) && TotalRunTime(nodeQueue) < INT_MAX
      requires i < |nodeQueue| && nodeQueue[i].index < |graph.nodes|
      requires |plan| == i && Planned(nodeQueue, SeenChildren(graph.shape), cores, plan, i)
      modifies `tasks, `plan
      ensures Valid() && graph.Valid()
      ensures |plan| == i + 1 && Planned(nodeQueue, SeenChildren(graph.shape), cores, plan, i + 1)
    {
      hide Laid, Represents, GreedyStep, JobPut, SeenChildren, Schedulable;
      RoomLeft(nodeQueue, SeenChildren(graph.shape), cores, plan, i);
      QueuedFits(nodeQueue, cores, i);
      ghost var plan0 := plan;
      Schedule(nodeQueue[i]);
      PlannedNext(nodeQueue, SeenChildren(graph.shape), cores, plan0, i, plan[i]);
      assert plan == plan0 + [plan[i]];
    }

    /** The single-core branch. */
    method PlaceSingle(job: Job, m: int32, ghost bound: int)
      returns (ghost s: int, ghost used: seq<nat>)
      requires 0 <= job.index && 0 < job.runTime && 0 < |tasks| && 0 <= m && Bounded(tasks, m, job.runTime, bound)
      modifies `tasks
      ensures m <= s <= bound && LeastOn(old(tasks), m, s, job.runTime, 1)
      ensures |used| == 1 && Distinct(used) && SetOf(used) <= FreeOn(old(tasks), s, job.runTime)
      ensures PlacedOnAll(old(tasks), tasks, used, BusySlot(job.index, s, job.runTime))
      ensures PutOn(old(tasks), tasks, job, s, used)
    {
      hide Chosen, PutOn, CanUse, Puttable, LeastOn, FreeOn, PlacedOnAll, NoneFree;
      ghost var tasks0 := tasks;
      var can := GetCanUseCore(|tasks|, []);
      assert 0 in can;
      var ch := FindStart(tasks, job.runTime, m, can);
      StartBounded(tasks, can, m, job.runTime, ch, bound);
      s, used := StartOf(ch), [CoreOf(ch)];
      Place(job, ch);
      SinglePlaced(tasks0, tasks, job, m, ch);
    }
  }

  lemma SinglePlaced(cpus: Cpus, cpus': Cpus, job: Job, m: int, ch: Choice)
    requires Usable(cpus, CanUse(|cpus|, []), m, job.runTime) && 0 <= StartOf(ch)
    requires Earliest(cpus, CanUse(|cpus|, []), m, job.runTime, ch)
    requires Chosen(cpus, CanUse(|cpus|, []), m, job.runTime, ch)
    requires Puttable(cpus, job, ch) && cpus' == Put(cpus, job, ch)
    requires PlacedOn(cpus, cpus', CoreOf(ch), BusySlot(job.index, StartOf(ch), job.runTime))
    ensures LeastOn(cpus, m, StartOf(ch), job.runTime, 1)
    ensures Distinct([CoreOf(ch)]) && SetOf([CoreOf(ch)]) <= FreeOn(cpus, StartOf(ch), job.runTime)
    ensures PlacedOnAll(cpus, cpus', [CoreOf(ch)], BusySlot(job.index, StartOf(ch), job.runTime))
    ensures PutOn(cpus, cpus', job, StartOf(ch), [CoreOf(ch)])
  {
    hide Chosen, Put, Puttable, CopyPut, PutOn, CanUse, Usable;
    var s := StartOf(ch);
    forall c: nat ensures c in CanUse(|cpus|, []) <==> c < |cpus| && c !in [] {
      CanUseMembers(|cpus|, [], c);
    }
    FewUnlessUsed(cpus, CanUse(|cpus|, []), [], m, s, job.runTime);
    FreeOnSome(cpus, CoreOf(ch), s, job.runTime);
    CopyChosen(cpus, cpus', job, m, s, [], ch);
    NoneOn(cpus, job, s);
    OneMoreOn(cpus, cpus, cpus', job, s, [], ch);
    assert [] + [CoreOf(ch)] == [CoreOf(ch)];
  }

  /** What was chosen in a search from m on is the choice at the start itself. */
  lemma CopyChosen(cpus: Cpus, cpus': Cpus, job: Job, m: int, s: int, used: seq<nat>, ch: Choice)
    requires Usable(cpus, CanUse(|cpus|, used), m, job.runTime)
    requires Chosen(cpus, CanUse(|cpus|, used), m, job.runTime, ch) && m <= StartOf(ch) == s
    requires Puttable(cpus, job, ch) && cpus' == Put(cpus, job, ch)
    ensures CopyPut(cpus, cpus', job, s, used, ch)
  {
    hide Usable, Chosen, Puttable;
    ChosenAtStart(cpus, CanUse(|cpus|, used), m, job.runTime, ch);
  }

  lemma JobIsPut(before: Cpus, after: Cpus, p: Placement, used: seq<nat>)
    requires PutOn(before, after, p.job, p.start, used) && |used| == Copies(p.job) && p.cores == SetOf(used)
    ensures JobPut(before, after, p)
  {
    hide PutOn;
  }

  lemma LaidStarts(n: nat, cpus: Cpus)
    requires |cpus| == n && forall c | 0 <= c < n :: cpus[c] == []
    ensures Laid(n, cpus, [])
  {
    assert LaidBy(n, cpus, [], [cpus]);
  }

  lemma QueuedFits(queue: seq<Job>, n: nat, i: nat)
    requires Schedulable(queue, n) && i < |queue|
    ensures 0 <= queue[i].index && 0 < queue[i].runTime && Copies(queue[i]) <= n
  {
  }

  /** The jobs planned so far leave room for the next below INT_MAX. */
  lemma RoomLeft(queue: seq<Job>, children: Children, n: nat, plan: seq<Placement>, k: nat)
    requires Planned(queue, children, n, plan, k) && k < |queue| && Schedulable(queue, n)
    requires TotalRunTime(queue) < INT_MAX
    ensures Makespan(plan) + queue[k].runTime < INT_MAX
  {
    MakespanAtMostTotal(queue[..k], children, n, plan);
    TotalPrefix(queue, k);
  }

  lemma BoundedByMakespan(cpus: Cpus, plan: seq<Placement>, m: int, run: int)
    requires Represents(cpus, plan) && m <= Makespan(plan) && Makespan(plan) + run < INT_MAX
    ensures Bounded(cpus, m, run, Makespan(plan))
  {
    TailsByMakespan(cpus, plan);
  }

  lemma PlacementOk(p: Placement, used: seq<nat>, n: nat)
    requires 0 <= p.job.index && 0 < p.job.runTime && 0 <= p.start && End(p) <= INT_MAX
    requires p.cores == SetOf(used) && used != [] && forall u | u in used :: u < n
    ensures PlanOk([p], n) && Sized(p)
  {
    assert used[0] in p.cores;
  }

  lemma FreeOnSome(cpus: Cpus, c: nat, s: int, run: int)
    requires c < |cpus| && Free(cpus[c], s, run)
    ensures c in FreeOn(cpus, s, run) && |FreeOn(cpus, s, run)| >= 1
  {
    SubsetSize({c}, FreeOn(cpus, s, run));
  }

  /** Placing a job at its least start, on cores that are free then, is a greedy step. */
  lemma StepPlanned(cpus: Cpus, cpus': Cpus, plan: seq<Placement>, children: seq<int>, p: Placement, used: seq<nat>)
    requires Represents(cpus, plan) && Distinct(used) && p.cores == SetOf(used) && |used| == Copies(p.job)
    requires 0 <= p.job.index && 0 < p.job.runTime && 0 <= p.start && End(p) <= INT_MAX
    requires LeastOn(cpus, Ready(plan, children), p.start, p.job.runTime, Copies(p.job))
    requires SetOf(used) <= FreeOn(cpus, p.start, p.job.runTime)
    requires PlacedOnAll(cpus, cpus', used, BusySlot(p.job.index, p.start, p.job.runTime))
    ensures GreedyStep(plan, |cpus|, children, p) && |cpus'| == |cpus| && Represents(cpus', plan + [p])
  {
    hide Represents, LeastOn, FreeOn, PlacedOnAll;
    GreedyByTimelines(cpus, plan, children, p, used);
    UsedFits(cpus, cpus', p, used);
    PlacementOk(p, used, |cpus|);
    RepresentsNext(cpus, cpus', plan, used, p);
  }

  lemma UsedFits(cpus: Cpus, cpus': Cpus, p: Placement, used: seq<nat>)
    requires Sized(p) && PlacedOnAll(cpus, cpus', used, SlotOf(p))
    ensures |cpus'| == |cpus| && forall u | u in used :: u < |cpus|
  {
  }

  lemma GreedyByTimelines(cpus: Cpus, plan: seq<Placement>, children: seq<int>, p: Placement, used: seq<nat>)
    requires Represents(cpus, plan) && Distinct(used) && p.cores == SetOf(used) && |used| == Copies(p.job)
    requires LeastOn(cpus, Ready(plan, children), p.start, p.job.runTime, Copies(p.job))
    requires SetOf(used) <= FreeOn(cpus, p.start, p.job.runTime)
    ensures GreedyStep(plan, |cpus|, children, p)
  {
    LeastOnIsLeastStart(cpus, plan, p.job, Ready(plan, children), p.start);
    FreeOnIsFreeCores(cpus, plan, p.start, p.job.runTime);
    SetOfDistinct(used);
  }

  /** The loops of `get_min_start_time`. */
  method LatestEnd(cpus: Cpus, children: seq<Job>) returns (m: int32)
    ensures MinStart(cpus, IndicesOf(children), m)
  {
    ghost var kids := IndicesOf(children);
    m := 0;
    var core := 0;
    while core < |cpus|
      invariant 0 <= core <= |cpus| && MinStartUpTo(cpus, kids, core, 0, m)
    {
      var l := 0;
      while l < |cpus[core]|
        invariant 0 <= l <= |cpus[core]| && MinStartUpTo(cpus, kids, core, l, m)
      {
        m := LaterEnd(cpus[core][l], children, m);
        l := l + 1;
      }
      core := core + 1;
    }
  }

  /** MinStart for the slots before slot l of a core. */
  ghost predicate MinStartUpTo(cpus: Cpus, children: seq<int>, core: nat, l: nat, m: int) {
    && 0 <= m
    && (forall c, k | 0 <= c < |cpus| && 0 <= k < |cpus[c]| && Earlier(c, k, core, l) && cpus[c][k].nodeIndex in children ::
          cpus[c][k].escTime <= m)
    && (m == 0 || exists c, k :: 0 <= c < |cpus| && 0 <= k < |cpus[c]| && cpus[c][k].nodeIndex in children &&
                                 cpus[c][k].escTime == m)
  }

  /** The innermost loop: a later end counts if the slot's node is among the children. */
  method LaterEnd(s: Slot, children: seq<Job>, m0: int32) returns (m: int32)
    ensures m == if s.nodeIndex in IndicesOf(children) then Max(m0, s.escTime) else m0
  {
    m := m0;
    var j := 0;
    while j < |children|
      invariant 0 <= j <= |children|
      invariant m == if s.nodeIndex in IndicesOf(children)[..j] then Max(m0, s.escTime) else m0
    {
      assert IndicesOf(children)[..j + 1] == IndicesOf(children)[..j] + [children[j].index];
      if children[j].index == s.nodeIndex {
        m := if m < s.escTime then s.escTime else m;
      }
      j := j + 1;
    }
  }

  /** Cores that got the slot are not searched again, and the others are as usable as before. */
  lemma StillUsable(cpus: Cpus, cpus': Cpus, used: seq<nat>, slot: Slot, can: seq<nat>, m: int, run: int, bound: int)
    requires 0 <= m && 0 < run && Bounded(cpus, m, run, bound) && PlacedOnAll(cpus, cpus', used, slot)
    requires Unused(cpus, can, used) && slot.endTime < INT_MAX
    ensures Usable(cpus', can, m, run)
  {
  }
}
