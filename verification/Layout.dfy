/** What the analyzer makes of the timelines, copy by copy: each goes to the core and place its search chooses.
With the starts of a greedy plan this leaves nothing open: there is one result for a queue. */
module Layout {
  import opened CoreSearch
  import opened ListScheduling
  import opened Timeline

  /** The cores below n that are not used, in order. */
  function CanUse(n: nat, used: seq<nat>): seq<nat> {
    if n == 0 then [] else CanUse(n - 1, used) + if n - 1 in used then [] else [n - 1]
  }

  lemma {:induction false} CanUseMembers(n: nat, used: seq<nat>, c: nat)
    ensures c in CanUse(n, used) <==> c < n && c !in used
  {
    if n > 0 {
      CanUseMembers(n - 1, used, c);
    }
  }

  lemma {:induction false} CanUseRises(n: nat, used: seq<nat>)
    ensures forall i, j | 0 <= i < j < |CanUse(n, used)| :: CanUse(n, used)[i] < CanUse(n, used)[j]
  {
    if n > 0 {
      CanUseRises(n - 1, used);
      var rest := CanUse(n - 1, used);
      forall i | 0 <= i < |rest| ensures rest[i] < n - 1 {
        CanUseMembers(n - 1, used, rest[i]);
      }
    }
  }

  /** The choice can be carried out for the job. */
  ghost predicate Puttable(cpus: Cpus, job: Job, ch: Choice) {
    && 0 <= job.runTime && Placeable(cpus, job.runTime, ch)
    && 0 <= StartOf(ch) && StartOf(ch) + job.runTime <= INT_MAX
    && match ch
       case InGap(g) => 0 <= cpus[g.core][g.emptyIndex].startTime
       case AtTail(t) => 0 <= Tail(cpus[t.core])
  }

  ghost function Put(cpus: Cpus, job: Job, ch: Choice): Cpus
    requires Puttable(cpus, job, ch)
  {
    var slot, c := BusySlot(job.index, StartOf(ch), job.runTime), CoreOf(ch);
    cpus[c := if ch.InGap? then Splice(cpus[c], ch.gap.emptyIndex, slot) else Append(cpus[c], slot)]
  }

  /** A copy of the job, from s on, goes where the search on the cores not used yet chooses. */
  ghost predicate CopyPut(cpus: Cpus, cpus': Cpus, job: Job, s: int, used: seq<nat>, ch: Choice) {
    && Chosen(cpus, CanUse(|cpus|, used), s, job.runTime, ch) && StartOf(ch) == s
    && Puttable(cpus, job, ch) && cpus' == Put(cpus, job, ch)
  }

  function CoresIn(chs: seq<Choice>): (cs: seq<nat>)
    ensures |cs| == |chs| && forall i | 0 <= i < |chs| :: cs[i] == CoreOf(chs[i])
  {
    seq(|chs|, i requires 0 <= i < |chs| => CoreOf(chs[i]))
  }

  /** So do all its copies, one after the other. */
  ghost predicate CopiesPut(job: Job, s: int, states: seq<Cpus>, chs: seq<Choice>) {
    && |states| == |chs| + 1
    && forall i | 0 <= i < |chs| :: CopyPut(states[i], states[i + 1], job, s, CoresIn(chs[..i]), chs[i])
  }

  /** Copies on the cores used, in this order. */
  ghost predicate PutOn(before: Cpus, after: Cpus, job: Job, s: int, used: seq<nat>) {
    exists states: seq<Cpus>, chs: seq<Choice> ::
      && CopiesPut(job, s, states, chs) && used == CoresIn(chs)
      && states[0] == before && states[|chs|] == after
  }

  ghost predicate JobPut(before: Cpus, after: Cpus, p: Placement) {
    exists used: seq<nat> ::
      |used| == Copies(p.job) && PutOn(before, after, p.job, p.start, used) && p.cores == set c | c in used
  }

  /** The timelines are those that placing the plan's jobs in turn on n empty ones leaves. */
  ghost predicate Laid(n: nat, cpus: Cpus, plan: seq<Placement>) {
    exists hist: seq<Cpus> :: LaidBy(n, cpus, plan, hist)
  }

  ghost predicate LaidBy(n: nat, cpus: Cpus, plan: seq<Placement>, hist: seq<Cpus>) {
    && |hist| == |plan| + 1 && hist[|plan|] == cpus
    && |hist[0]| == n && (forall c | 0 <= c < n :: hist[0][c] == [])
    && forall i | 0 <= i < |plan| :: JobPut(hist[i], hist[i + 1], plan[i])
  }

  lemma LaidNext(n: nat, cpus: Cpus, plan: seq<Placement>, cpus': Cpus, p: Placement)
    requires Laid(n, cpus, plan) && JobPut(cpus, cpus', p)
    ensures Laid(n, cpus', plan + [p])
  {
    hide JobPut;
    var hist :| LaidBy(n, cpus, plan, hist);
    var hist' := hist + [cpus'];
    forall i | 0 <= i < |plan| + 1 ensures JobPut(hist'[i], hist'[i + 1], (plan + [p])[i]) {
      if i < |plan| {
        assert hist'[i] == hist[i] && hist'[i + 1] == hist[i + 1];
      }
    }
    assert LaidBy(n, cpus', plan + [p], hist');
  }

  lemma CopiesNext(job: Job, s: int, states: seq<Cpus>, chs: seq<Choice>, cpus: Cpus, ch: Choice)
    requires CopiesPut(job, s, states, chs) && CopyPut(states[|chs|], cpus, job, s, CoresIn(chs), ch)
    ensures CopiesPut(job, s, states + [cpus], chs + [ch])
  {
    hide CopyPut;
    var states', chs' := states + [cpus], chs + [ch];
    forall i | 0 <= i < |chs'| ensures CopyPut(states'[i], states'[i + 1], job, s, CoresIn(chs'[..i]), chs'[i]) {
      if i < |chs| {
        assert chs'[..i] == chs[..i];
        assert CopyPut(states[i], states[i + 1], job, s, CoresIn(chs[..i]), chs[i]);
      } else {
        assert chs'[..i] == chs;
      }
    }
  }

  lemma NoneOn(cpus: Cpus, job: Job, s: int)
    ensures PutOn(cpus, cpus, job, s, [])
  {
    assert CopiesPut(job, s, [cpus], []) && CoresIn([]) == [];
  }

  lemma OneMoreOn(before: Cpus, mid: Cpus, after: Cpus, job: Job, s: int, used: seq<nat>, ch: Choice)
    requires PutOn(before, mid, job, s, used) && CopyPut(mid, after, job, s, used, ch)
    ensures PutOn(before, after, job, s, used + [CoreOf(ch)])
  {
    hide CopyPut;
    var states: seq<Cpus>, chs: seq<Choice> :| CopiesPut(job, s, states, chs) && used == CoresIn(chs)
      && states[0] == before && states[|chs|] == mid;
    CopiesNext(job, s, states, chs, after, ch);
    assert CoresIn(chs + [ch]) == used + [CoreOf(ch)];
    assert (states + [after])[0] == before && (states + [after])[|chs + [ch]|] == after;
  }

  // ------------------------------------------------------------------ one result

  lemma CopyUnique(cpus: Cpus, a: Cpus, b: Cpus, job: Job, s: int, used: seq<nat>, ch: Choice, ch': Choice)
    requires CopyPut(cpus, a, job, s, used, ch) && CopyPut(cpus, b, job, s, used, ch')
    ensures ch == ch' && a == b
  {
    hide Chosen, Puttable;
    ChosenUnique(cpus, CanUse(|cpus|, used), s, job.runTime, ch, ch');
  }

  lemma {:induction false} CopiesUnique(job: Job, s: int, states: seq<Cpus>, chs: seq<Choice>,
                                        states': seq<Cpus>, chs': seq<Choice>, k: nat)
    requires CopiesPut(job, s, states, chs) && CopiesPut(job, s, states', chs')
    requires |chs| == |chs'| && states[0] == states'[0] && k <= |chs|
    ensures states[k] == states'[k] && chs[..k] == chs'[..k]
  {
    hide CopyPut;
    if k > 0 {
      var i := k - 1;
      CopiesUnique(job, s, states, chs, states', chs', i);
      CopyUnique(states[i], states[k], states'[k], job, s, CoresIn(chs[..i]), chs[i], chs'[i]);
      assert chs[..k] == chs[..i] + [chs[i]] && chs'[..k] == chs'[..i] + [chs'[i]];
    }
  }

  lemma OnUnique(before: Cpus, after: Cpus, after': Cpus, job: Job, s: int, used: seq<nat>, used': seq<nat>)
    requires PutOn(before, after, job, s, used) && PutOn(before, after', job, s, used') && |used| == |used'|
    ensures after == after' && used == used'
  {
    hide CopyPut;
    var states: seq<Cpus>, chs: seq<Choice> :| CopiesPut(job, s, states, chs) && used == CoresIn(chs)
      && states[0] == before && states[|chs|] == after;
    var states': seq<Cpus>, chs': seq<Choice> :| CopiesPut(job, s, states', chs') && used' == CoresIn(chs')
      && states'[0] == before && states'[|chs'|] == after';
    CopiesUnique(job, s, states, chs, states', chs', |chs|);
    assert chs == chs[..|chs|] && chs' == chs'[..|chs|];
  }

  lemma JobUnique(before: Cpus, after: Cpus, p: Placement, after': Cpus, p': Placement)
    requires JobPut(before, after, p) && JobPut(before, after', p') && p.job == p'.job && p.start == p'.start
    ensures after == after' && p == p'
  {
    hide PutOn;
    var used: seq<nat> :| |used| == Copies(p.job) && PutOn(before, after, p.job, p.start, used)
      && p.cores == set c | c in used;
    var used': seq<nat> :| |used'| == Copies(p.job) && PutOn(before, after', p.job, p.start, used')
      && p'.cores == set c | c in used';
    OnUnique(before, after, after', p.job, p.start, used, used');
  }

  lemma StartUnique(plan: seq<Placement>, n: nat, children: seq<int>, p: Placement, p': Placement)
    requires GreedyStep(plan, n, children, p) && GreedyStep(plan, n, children, p') && p.job == p'.job
    ensures p.start == p'.start
  {
    assert LeastStart(plan, n, p.job, Ready(plan, children), p.start);
    assert LeastStart(plan, n, p.job, Ready(plan, children), p'.start);
  }

  lemma {:induction false} HistoryUnique(queue: seq<Job>, children: Children, n: nat,
                                         plan: seq<Placement>, cpus: Cpus, hist: seq<Cpus>,
                                         plan': seq<Placement>, cpus': Cpus, hist': seq<Cpus>, k: nat)
    requires GreedyPlan(queue, children, n, plan) && GreedyPlan(queue, children, n, plan')
    requires LaidBy(n, cpus, plan, hist) && LaidBy(n, cpus', plan', hist') && k <= |queue|
    ensures plan[..k] == plan'[..k] && hist[k] == hist'[k]
  {
    hide GreedyStep, JobPut;
    if k == 0 {
      assert hist[0] == hist'[0];
    } else {
      var i := k - 1;
      HistoryUnique(queue, children, n, plan, cpus, hist, plan', cpus', hist', i);
      StartUnique(plan[..i], n, ChildrenOf(children, queue[i].index), plan[i], plan'[i]);
      JobUnique(hist[i], hist[k], plan[i], hist'[k], plan'[i]);
      assert plan[..k] == plan[..i] + [plan[i]] && plan'[..k] == plan'[..i] + [plan'[i]];
    }
  }

  /** The queue, the children reported and the number of cores determine the plan and every timeline. */
  lemma RunDetermined(queue: seq<Job>, children: Children, n: nat,
                      plan: seq<Placement>, cpus: Cpus, plan': seq<Placement>, cpus': Cpus)
    requires GreedyPlan(queue, children, n, plan) && Laid(n, cpus, plan)
    requires GreedyPlan(queue, children, n, plan') && Laid(n, cpus', plan')
    ensures plan == plan' && cpus == cpus'
  {
    hide GreedyStep, LaidBy;
    var hist :| LaidBy(n, cpus, plan, hist);
    var hist' :| LaidBy(n, cpus', plan', hist');
    Ends(n, cpus, plan, hist);
    Ends(n, cpus', plan', hist');
    HistoryUnique(queue, children, n, plan, cpus, hist, plan', cpus', hist', |queue|);
    assert plan == plan[..|queue|] && plan' == plan'[..|queue|];
  }

  lemma Ends(n: nat, cpus: Cpus, plan: seq<Placement>, hist: seq<Cpus>)
    requires LaidBy(n, cpus, plan, hist)
    ensures |hist| == |plan| + 1 && hist[|plan|] == cpus
  {
  }
}
