/** What every operation does to every active queue, and where that leaves a task among the others: in its
queue by its class, behind the priorities above its own, and in the background when its reserve is used up. */
module StepQueues {
  import opened ActiveQueue
  import opened Sequences
  import opened TaskSteps
  import opened Reservation
  import opened TaskLookup

  /** q but for r. */
  function Skip(q: seq<nat>, r: nat): seq<nat> {
    if q == [] then [] else (if q[0] == r then [] else [q[0]]) + Skip(q[1..], r)
  }

  /** p is q with r in it: at the end, or under the deadline class before the first task due later. */
  ghost predicate JoinedAt(tasks: seq<Task>, q: seq<nat>, r: nat, p: seq<nat>)
    requires r < |tasks|
  {
    && (forall j | 0 <= j < |q| :: q[j] < |tasks|)
    && if tasks[r].policy == FixedPriority then p == q + [r]
       else exists k: nat :: IsPlace(tasks, q, tasks[r].deadline, k) && p == q[..k] + [r] + q[k..]
  }

  predicate IsPlace(tasks: seq<Task>, q: seq<nat>, deadline: int, k: nat)
    requires forall j | 0 <= j < |q| :: q[j] < |tasks|
  {
    && k <= |q|
    && (forall j | 0 <= j < k :: tasks[q[j]].deadline <= deadline)
    && (k < |q| ==> deadline < tasks[q[k]].deadline)
  }

  /** The step puts task t, which is its own, into a queue. */
  predicate Joins(t: Task, a: Step) {
    match a
    case Start(_) | Resume(_) => true
    case Schedule(_, _, prio, granted) => t.linked && granted && prio != t.prio
    case Move(_, cpu) => t.linked && cpu != t.cpu
    case Spent(_, late, granted) =>
      && t.reserved && t.linked
      && if t.policy == EarliestDeadline then !late || t.prio == 2
         else granted && if late then t.prio == 2 && t.prioSave != 2 else t.prio != 2
    case Refill(_) => t.linked && t.policy == EarliestDeadline && t.prio == 2
    case Complete(_) | Suspend(_, _) | Release(_, _) | ReserveStart(_) | ReserveStop(_) => false
  }

  /** It takes the task out of the queue it is in. */
  predicate Leaves(t: Task, a: Step) {
    t.linked && (Joins(t, a) || a.Complete? || a.Suspend?)
  }

  // --------------------------------------------------------------------- skipping

  lemma {:induction false} SkipNone(q: seq<nat>, r: nat)
    requires r !in q
    ensures Skip(q, r) == q
  {
    if q != [] {
      SkipNone(q[1..], r);
    }
  }

  lemma {:induction false} SkipConcat(q: seq<nat>, p: seq<nat>, r: nat)
    ensures Skip(q + p, r) == Skip(q, r) + Skip(p, r)
    decreases q
  {
    if q == [] {
      assert q + p == p;
    } else {
      assert (q + p)[1..] == q[1..] + p;
      SkipConcat(q[1..], p, r);
    }
  }

  lemma {:induction false} SkipMembers(q: seq<nat>, r: nat)
    ensures forall x :: x in Skip(q, r) <==> x in q && x != r
  {
    if q != [] {
      SkipMembers(q[1..], r);
    }
  }

  lemma SkipTwice(q: seq<nat>, r: nat)
    ensures Skip(Skip(q, r), r) == Skip(q, r)
  {
    SkipMembers(q, r);
    SkipNone(Skip(q, r), r);
  }

  lemma {:induction false} SkipInserted(q: seq<nat>, k: nat, r: nat)
    requires k <= |q|
    ensures Skip(q[..k] + [r] + q[k..], r) == Skip(q, r)
    decreases k
  {
    var p := q[..k] + [r] + q[k..];
    if k == 0 {
      assert p[1..] == q;
    } else {
      assert p[1..] == q[1..][..k - 1] + [r] + q[1..][k - 1..];
      SkipInserted(q[1..], k - 1, r);
    }
  }

  lemma SkipRemoved(q: seq<nat>, r: nat)
    requires Distinct(q) && r in q
    ensures Removed(q, r) == Skip(q, r)
  {
    hide Skip;
    var k, p := IndexOf(q, r), Removed(q, r);
    assert q == p[..k] + [r] + p[k..];
    assert forall j | 0 <= j < |p| :: p[j] == if j < k then q[j] else q[j + 1];
    SkipInserted(p, k, r);
    SkipNone(p, r);
  }

  lemma SkipJoined(tasks: seq<Task>, q: seq<nat>, r: nat, p: seq<nat>)
    requires r < |tasks| && JoinedAt(tasks, q, r, p)
    ensures Skip(p, r) == Skip(q, r)
  {
    hide Skip;
    if tasks[r].policy == FixedPriority {
      SkipInserted(q, |q|, r);
      assert q[..|q|] + [r] + q[|q|..] == q + [r];
    } else {
      var k: nat :| IsPlace(tasks, q, tasks[r].deadline, k) && p == q[..k] + [r] + q[k..];
      SkipInserted(q, k, r);
    }
  }

  lemma JoinedSame(tasks: seq<Task>, tasks': seq<Task>, q: seq<nat>, r: nat, p: seq<nat>)
    requires r < |tasks| == |tasks'| && JoinedAt(tasks, q, r, p) && tasks'[r].policy == tasks[r].policy
    requires forall x | 0 <= x < |tasks| :: tasks'[x].deadline == tasks[x].deadline
    ensures JoinedAt(tasks', q, r, p)
  {
    if tasks[r].policy != FixedPriority {
      var k: nat :| IsPlace(tasks, q, tasks[r].deadline, k) && p == q[..k] + [r] + q[k..];
      assert IsPlace(tasks', q, tasks'[r].deadline, k);
    }
  }

  // ---------------------------------------------------------- joining and leaving

  lemma EnqueueQueue(s: Core, r: nat, prio: int, c: nat, d: nat, i: nat)
    requires Shaped(s) && r < |s.tasks| && c < |s.cpus| && ValidPrio(prio) && d < |s.cpus| && i < PRIO_MAX
    ensures var n, q := Enqueue(s, r, prio, c), s.cpus[d].queue[i];
      && r < |n.tasks| && |n.cpus| == |s.cpus| && |n.cpus[d].queue| == PRIO_MAX
      && if d == c && i == PrioIndex(prio) then JoinedAt(n.tasks, q, r, n.cpus[d].queue[i])
         else n.cpus[d].queue[i] == q
  {
    var n, q := Enqueue(s, r, prio, c), s.cpus[d].queue[i];
    if d == c && i == PrioIndex(prio) {
      if s.tasks[r].policy == FixedPriority {
        assert Inserted(q, |q|, r) == q + [r];
      } else {
        var k := DeadlineSlot(s.tasks, q, s.tasks[r].deadline);
        assert IsPlace(n.tasks, q, n.tasks[r].deadline, k);
      }
    }
  }

  lemma DequeueQueue(s: Core, r: nat, d: nat, i: nat)
    requires Ready(s) && r < |s.tasks| && s.tasks[r].linked && Listed(s, r) && d < |s.cpus| && i < PRIO_MAX
    ensures var n := Dequeue(s, r, s.tasks[r].prio, s.tasks[r].cpu);
      |n.cpus| == |s.cpus| && |n.cpus[d].queue| == PRIO_MAX && n.cpus[d].queue[i] == Skip(s.cpus[d].queue[i], r)
  {
    hide Counted;
    var q := s.cpus[d].queue[i];
    assert QueueOk(s.tasks, s.fed, q, d, i);
    if r in q {
      InOwnQueue(s, r, d, i);
      SkipRemoved(q, r);
    } else {
      SkipNone(q, r);
    }
  }

  lemma MovedQueue(s: Core, r: nat, t: Task, prio: int, d: nat, i: nat)
    requires Ready(s) && r < |s.tasks| && s.tasks[r].linked && Listed(s, r) && d < |s.cpus| && i < PRIO_MAX
    requires ValidPrio(prio) && t.cpu < |s.cpus|
    ensures var n, q := Moved(s, r, s.tasks[r].prio, t, prio, t.cpu), Skip(s.cpus[d].queue[i], r);
      && r < |n.tasks| && |n.cpus| == |s.cpus| && |n.cpus[d].queue| == PRIO_MAX
      && if d == t.cpu && i == PrioIndex(prio) then JoinedAt(n.tasks, q, r, n.cpus[d].queue[i])
         else n.cpus[d].queue[i] == q
  {
    hide Invariant, Counted, Shaped, Enqueue, Dequeue, JoinedAt;
    DequeueQueue(s, r, d, i);
    DequeueShapes(s, r, s.tasks[r].prio, s.tasks[r].cpu);
    DequeueSize(s, r, s.tasks[r].prio, s.tasks[r].cpu);
    var u := Dequeue(s, r, s.tasks[r].prio, s.tasks[r].cpu);
    RetaskShapes(u, r, t);
    EnqueueQueue(Retask(u, r, t), r, prio, t.cpu, d, i);
  }

  /** Where r was and is to be, given whether it left and joined. */
  ghost predicate Settled(s: Core, n: Core, r: nat, leaves: bool, joins: bool, prio: int, d: nat, i: nat)
    requires r < |s.tasks| && d < |s.cpus|
  {
    && |n.tasks| == |s.tasks| && |n.cpus| == |s.cpus| && |s.cpus[d].queue| == |n.cpus[d].queue| == PRIO_MAX
    && i < PRIO_MAX
    && var q := if leaves then Skip(s.cpus[d].queue[i], r) else s.cpus[d].queue[i];
       if joins && d == n.tasks[r].cpu && i == PrioIndex(prio) then JoinedAt(n.tasks, q, r, n.cpus[d].queue[i])
       else n.cpus[d].queue[i] == q
  }

  /** Changing side fields of r before or after changes none of this. */
  lemma SettledBefore(s: Core, n: Core, r: nat, t: Task, leaves: bool, joins: bool, prio: int, d: nat, i: nat)
    requires r < |s.tasks| && d < |s.cpus| && Settled(Retask(s, r, t), n, r, leaves, joins, prio, d, i)
    ensures Settled(s, n, r, leaves, joins, prio, d, i)
  {
  }

  lemma SettledAfter(s: Core, n: Core, r: nat, t: Task, leaves: bool, joins: bool, prio: int, d: nat, i: nat)
    requires r < |s.tasks| && d < |s.cpus| && Settled(s, n, r, leaves, joins, prio, d, i)
    requires t.policy == n.tasks[r].policy && t.deadline == n.tasks[r].deadline && t.cpu == n.tasks[r].cpu
    ensures Settled(s, Retask(n, r, t), r, leaves, joins, prio, d, i)
  {
    hide JoinedAt, Skip;
    if joins && d == n.tasks[r].cpu && i == PrioIndex(prio) {
      var q := if leaves then Skip(s.cpus[d].queue[i], r) else s.cpus[d].queue[i];
      JoinedSame(n.tasks, Retask(n, r, t).tasks, q, r, n.cpus[d].queue[i]);
    }
  }

  lemma MovedSettles(s: Core, r: nat, t: Task, prio: int, d: nat, i: nat)
    requires Ready(s) && r < |s.tasks| && s.tasks[r].linked && Listed(s, r) && d < |s.cpus| && i < PRIO_MAX
    requires ValidPrio(prio) && t.cpu < |s.cpus|
    ensures Settled(s, Moved(s, r, s.tasks[r].prio, t, prio, t.cpu), r, true, true, prio, d, i)
  {
    hide Invariant, Counted, Shaped, Moved, JoinedAt, Skip;
    MovedQueue(s, r, t, prio, d, i);
    MovedTask(s, r, s.tasks[r].prio, t, prio, t.cpu);
    ShapedAt(s, d);
  }

  lemma ShapedAt(s: Core, d: nat)
    requires Shaped(s) && d < |s.cpus|
    ensures |s.cpus[d].queue| == PRIO_MAX
  {
  }

  lemma SameSettles(s: Core, r: nat, t: Task, prio: int, d: nat, i: nat)
    requires Shaped(s) && r < |s.tasks| && d < |s.cpus| && i < PRIO_MAX
    ensures Settled(s, Retask(s, r, t), r, false, false, prio, d, i)
  {
  }

  lemma SetSchedulerSettles(s: Core, r: nat, policy: Policy, prio: int, granted: bool, d: nat, i: nat)
    requires Ready(s) && r < |s.tasks| && (granted ==> ValidPrio(prio)) && (s.tasks[r].linked ==> Listed(s, r))
    requires d < |s.cpus| && i < PRIO_MAX
    ensures var moves := s.tasks[r].linked && granted && prio != s.tasks[r].prio;
      Settled(s, SetScheduler(s, r, policy, prio, granted), r, moves, moves, prio, d, i)
  {
    hide Invariant, Shaped, Moved, Settled;
    var t := s.tasks[r].(policy := policy);
    if t.linked && granted && prio != t.prio {
      MovedSettles(s, r, t.(prio := prio, linked := false), prio, d, i);
    } else {
      SameSettles(s, r, SetScheduler(s, r, policy, prio, granted).tasks[r], prio, d, i);
    }
  }

  lemma MigrateSettles(s: Core, r: nat, cpu: nat, d: nat, i: nat)
    requires Ready(s) && r < |s.tasks| && cpu < |s.cpus| && (s.tasks[r].linked ==> Listed(s, r))
    requires d < |s.cpus| && i < PRIO_MAX
    ensures var moves := s.tasks[r].linked && cpu != s.tasks[r].cpu;
      Settled(s, Migrate(s, r, cpu), r, moves, moves, s.tasks[r].prio, d, i)
  {
    hide Invariant, Shaped, Moved, Settled;
    var t := s.tasks[r];
    if t.linked && t.cpu != cpu {
      MovedSettles(s, r, t.(cpu := cpu, linked := false), t.prio, d, i);
    } else {
      SameSettles(s, r, t.(cpu := cpu), t.prio, d, i);
      assert Retask(s, r, t) == s;
    }
  }

  lemma ReplenishSettles(s: Core, r: nat, d: nat, i: nat)
    requires Ready(s) && r < |s.tasks| && (s.tasks[r].linked ==> Listed(s, r)) && d < |s.cpus| && i < PRIO_MAX
    ensures var t := s.tasks[r];
      var moves := t.linked && t.policy == EarliestDeadline && t.prio == PRIO_BACKGROUND;
      Settled(s, Replenish(s, r), r, moves, moves, PRIO_EDF, d, i)
  {
    hide Invariant, Shaped, Moved, Settled;
    var t := s.tasks[r];
    if t.linked && t.policy == EarliestDeadline && t.prio == PRIO_BACKGROUND {
      MovedSettles(s, r, t.(linked := false), PRIO_EDF, d, i);
    } else {
      SameSettles(s, r, t, PRIO_EDF, d, i);
      assert Retask(s, r, t) == s;
    }
  }

  lemma ExpireSettles(s: Core, r: nat, granted: bool, d: nat, i: nat)
    requires Ready(s) && r < |s.tasks| && (s.tasks[r].linked ==> Listed(s, r)) && d < |s.cpus| && i < PRIO_MAX
    ensures var t := s.tasks[r];
      var moves := t.linked && (t.policy == EarliestDeadline || (granted && t.prio != PRIO_BACKGROUND));
      Settled(s, Expire(s, r, granted), r, moves, moves, PRIO_BACKGROUND, d, i)
  {
    hide Invariant, Shaped, Moved, Settled;
    var t := s.tasks[r];
    if t.policy == FixedPriority {
      SetSchedulerSettles(s, r, t.policy, PRIO_BACKGROUND, granted, d, i);
    } else if t.linked {
      MovedSettles(s, r, t.(linked := false), PRIO_BACKGROUND, d, i);
    } else {
      SameSettles(s, r, t, PRIO_BACKGROUND, d, i);
      assert Retask(s, r, t) == s;
    }
  }

  lemma UnaccountedReady(s: Core, r: nat)
    requires Ready(s) && r < |s.tasks|
    ensures var u := Retask(s, r, Unaccounted(s.tasks[r])); Ready(u) && (u.tasks[r].linked ==> Listed(u, r))
  {
    hide Invariant, Shaped;
    SideChanges(s, r, Unaccounted(s.tasks[r]));
    InvariantShapes(Retask(s, r, Unaccounted(s.tasks[r])));
    LinkedIsListed(Retask(s, r, Unaccounted(s.tasks[r])), r);
  }

  lemma SettledPrio(s: Core, n: Core, r: nat, leaves: bool, joins: bool, prio: int, prio': int, d: nat, i: nat)
    requires r < |s.tasks| && d < |s.cpus| && Settled(s, n, r, leaves, joins, prio, d, i)
    requires joins ==> prio == prio'
    ensures Settled(s, n, r, leaves, joins, prio', d, i)
  {
  }

  lemma EarlyOverrunSettles(s: Core, r: nat, granted: bool, d: nat, i: nat)
    requires Ready(s) && Allowed(s, Spent(r, false, granted)) && (s.tasks[r].linked ==> Listed(s, r))
    requires s.tasks[r].reserved && d < |s.cpus| && i < PRIO_MAX
    ensures var n, moves := Overrun(s, r, false, granted), Joins(s.tasks[r], Spent(r, false, granted));
      r < |n.tasks| && Settled(s, n, r, moves, moves, PRIO_BACKGROUND, d, i)
  {
    hide Invariant, Shaped, Moved, Settled, Expire;
    var t := Unaccounted(s.tasks[r]);
    var u := Retask(s, r, t);
    UnaccountedReady(s, r);
    ExpireSettles(u, r, granted, d, i);
    var moves := Joins(s.tasks[r], Spent(r, false, granted));
    SettledBefore(s, Expire(u, r, granted), r, t, moves, moves, PRIO_BACKGROUND, d, i);
  }

  lemma LateOverrunSettles(s: Core, r: nat, granted: bool, d: nat, i: nat)
    requires Ready(s) && Allowed(s, Spent(r, true, granted)) && (s.tasks[r].linked ==> Listed(s, r))
    requires s.tasks[r].reserved && d < |s.cpus| && i < PRIO_MAX
    ensures var n, moves := Overrun(s, r, true, granted), Joins(s.tasks[r], Spent(r, true, granted));
      var prio := if s.tasks[r].policy == FixedPriority then s.tasks[r].prioSave else PRIO_EDF;
      r < |n.tasks| && Settled(s, n, r, moves, moves, prio, d, i)
  {
    hide Invariant, Shaped, Moved, Settled, SetScheduler, Replenish;
    var t := Unaccounted(s.tasks[r]);
    var u := Retask(s, r, t);
    UnaccountedReady(s, r);
    var moves := Joins(s.tasks[r], Spent(r, true, granted));
    var prio := if t.policy == FixedPriority then t.prioSave else PRIO_EDF;
    var n := if Asks(t) then SetScheduler(u, r, FixedPriority, t.prioSave, granted) else Replenish(u, r);
    if Asks(t) {
      SetSchedulerSettles(u, r, FixedPriority, t.prioSave, granted, d, i);
    } else {
      ReplenishSettles(u, r, d, i);
      SettledPrio(u, n, r, moves, moves, PRIO_EDF, prio, d, i);
    }
    SettledBefore(s, n, r, t, moves, moves, prio, d, i);
    SettledAfter(s, n, r, Accounted(n.tasks[r]), moves, moves, prio, d, i);
  }

  lemma StartSettles(s: Core, r: nat, prio: int, d: nat, i: nat)
    requires Shaped(s) && r < |s.tasks| && s.tasks[r].cpu < |s.cpus| && ValidPrio(prio) && d < |s.cpus| && i < PRIO_MAX
    ensures Settled(s, Enqueue(s, r, prio, s.tasks[r].cpu), r, false, true, prio, d, i)
  {
    hide Shaped, Enqueue, JoinedAt;
    EnqueueQueue(s, r, prio, s.tasks[r].cpu, d, i);
    EnqueueTask(s, r, prio, s.tasks[r].cpu);
    ShapedAt(s, d);
  }

  lemma EnqueueTask(s: Core, r: nat, prio: int, c: nat)
    requires Shaped(s) && r < |s.tasks| && c < |s.cpus| && ValidPrio(prio)
    ensures |Enqueue(s, r, prio, c).tasks| == |s.tasks| && |Enqueue(s, r, prio, c).cpus| == |s.cpus|
    ensures Enqueue(s, r, prio, c).tasks[r].cpu == s.tasks[r].cpu
  {
  }

  lemma LeavingSettles(s: Core, r: nat, d: nat, i: nat)
    requires Ready(s) && r < |s.tasks| && s.tasks[r].linked && Listed(s, r) && d < |s.cpus| && i < PRIO_MAX
    ensures Settled(s, Dequeue(s, r, s.tasks[r].prio, s.tasks[r].cpu), r, true, false, 0, d, i)
  {
    hide Invariant, Shaped, Dequeue, Skip;
    DequeueQueue(s, r, d, i);
    DequeueSize(s, r, s.tasks[r].prio, s.tasks[r].cpu);
    ShapedAt(s, d);
  }

  /** Leaving after a change of queue comes to leaving. */
  lemma SuspendSettles(s: Core, r: nat, granted: bool, d: nat, i: nat)
    requires Ready(s) && Allowed(s, Suspend(r, granted)) && Listed(s, r) && d < |s.cpus| && i < PRIO_MAX
    ensures Settled(s, JobSuspend(s, r, granted), r, true, false, 0, d, i)
  {
    hide Invariant, Shaped, Dequeue, SetScheduler, Skip, JoinedAt;
    var t, u := s.tasks[r], PutBack(s, r, granted);
    PutBackListed(s, r, granted);
    PutBackLinked(s, r, granted);
    if t.prio != t.prioSave {
      SetSchedulerKeeps(s, r, t.policy, t.prioSave, granted);
      SetSchedulerSettles(s, r, t.policy, t.prioSave, granted, d, i);
    } else {
      SameSettles(s, r, t, t.prio, d, i);
      assert Retask(s, r, t) == s;
    }
    LeavingSettles(u, r, d, i);
    var q := s.cpus[d].queue[i];
    SkipTwice(q, r);
    if u.cpus[d].queue[i] != q && u.cpus[d].queue[i] != Skip(q, r) {
      SkipJoined(u.tasks, Skip(q, r), r, u.cpus[d].queue[i]);
    }
  }

  lemma SpentSettles(s: Core, r: nat, late: bool, granted: bool, d: nat, i: nat)
    requires Ready(s) && Allowed(s, Spent(r, late, granted)) && (s.tasks[r].linked ==> Listed(s, r))
    requires d < |s.cpus| && i < PRIO_MAX
    ensures var t, n := s.tasks[r], Overrun(s, r, late, granted);
      var moves := Joins(t, Spent(r, late, granted));
      var prio := if !late then PRIO_BACKGROUND else if t.policy == FixedPriority then t.prioSave else PRIO_EDF;
      Settled(s, n, r, moves, moves, prio, d, i)
  {
    hide Invariant, Shaped, Settled, SetScheduler, Replenish, Expire;
    if !s.tasks[r].reserved {
      SameSettles(s, r, s.tasks[r], 0, d, i);
      assert Retask(s, r, s.tasks[r]) == s;
      SettledPrio(s, s, r, false, false, 0, PRIO_BACKGROUND, d, i);
      SettledPrio(s, s, r, false, false, 0, s.tasks[r].prioSave, d, i);
      SettledPrio(s, s, r, false, false, 0, PRIO_EDF, d, i);
    } else if late {
      LateOverrunSettles(s, r, granted, d, i);
    } else {
      EarlyOverrunSettles(s, r, granted, d, i);
    }
  }

  lemma StepSettles(s: Core, a: Step, d: nat, i: nat) returns (prio: int)
    requires Ready(s) && Allowed(s, a) && d < |s.cpus| && i < PRIO_MAX
    ensures a.r < |Apply(s, a).tasks| && (Joins(s.tasks[a.r], a) ==> prio == Apply(s, a).tasks[a.r].prio)
    ensures Settled(s, Apply(s, a), a.r, Leaves(s.tasks[a.r], a), Joins(s.tasks[a.r], a), prio, d, i)
  {
    hide Invariant, Shaped, Settled, SetScheduler, Migrate, Replenish, JobSuspend, Enqueue, Dequeue, Overrun;
    LinkedIsListed(s, a.r);
    StepChanges(s, a);
    var r, t := a.r, s.tasks[a.r];
    prio := t.prio;
    match a {
      case Start(_) =>
        prio := if t.policy == EarliestDeadline then PRIO_EDF else t.prio;
        StartSettles(s, r, prio, d, i);
        var u := Enqueue(s, r, prio, t.cpu);
        EnqueueTask(s, r, prio, t.cpu);
        SettledAfter(s, u, r, Accounted(u.tasks[r]), false, true, prio, d, i);
      case Resume(_) => StartSettles(s, r, t.prio, d, i);
      case Complete(_) =>
        prio := 0;
        LeavingSettles(s, r, d, i);
        DequeueSize(s, r, t.prio, t.cpu);
        var u := Dequeue(s, r, t.prio, t.cpu);
        DequeueTask(s, r);
        SettledAfter(s, u, r, Apply(s, a).tasks[r], true, false, 0, d, i);
      case Suspend(_, granted) =>
        prio := 0;
        SuspendSettles(s, r, granted, d, i);
      case Schedule(_, policy, p, granted) =>
        prio := p;
        SetSchedulerSettles(s, r, policy, p, granted, d, i);
      case Move(_, cpu) =>
        MigrateSettles(s, r, cpu, d, i);
        MigrateTask(s, r, cpu);
        var u, moves := Migrate(s, r, cpu), Joins(t, a);
        SettledAfter(s, u, r, Restarted(u.tasks[r]), moves, moves, t.prio, d, i);
      case Refill(_) =>
        prio := PRIO_EDF;
        ReplenishSettles(s, r, d, i);
      case Spent(_, late, granted) =>
        prio := if !late then PRIO_BACKGROUND else if t.policy == FixedPriority then t.prioSave else PRIO_EDF;
        SpentSettles(s, r, late, granted, d, i);
      case Release(_, deadline) => SameSettles(s, r, t.(deadline := deadline), prio, d, i);
      case ReserveStart(_) =>
        SameSettles(s, r, Apply(s, a).tasks[r], prio, d, i);
        assert t.reserved ==> Retask(s, r, t) == s;
      case ReserveStop(_) =>
        SameSettles(s, r, Apply(s, a).tasks[r], prio, d, i);
        assert !t.reserved ==> Retask(s, r, t) == s;
    }
  }

  lemma DequeueTask(s: Core, r: nat)
    requires Shaped(s) && r < |s.tasks| && s.tasks[r].linked && Listed(s, r)
    ensures var n := Dequeue(s, r, s.tasks[r].prio, s.tasks[r].cpu);
      r < |n.tasks| && n.tasks[r] == s.tasks[r].(linked := false)
  {
  }

  /** What a step does to a queue: its task leaves, the others keep their order, and it joins the queue of its
  CPU and priority by its class. Queue i is that of priority 98 - i. */
  lemma QueueAfter(s: Core, a: Step, d: nat, i: nat)
    requires Ready(s) && Allowed(s, a) && d < |s.cpus| && i < 98
    ensures var t, n := s.tasks[a.r], Apply(s, a);
      && a.r < |n.tasks| && |n.cpus| == |s.cpus| && |s.cpus[d].queue| == |n.cpus[d].queue| == 98
      && var q := if Leaves(t, a) then Skip(s.cpus[d].queue[i], a.r) else s.cpus[d].queue[i];
         if Joins(t, a) && d == n.tasks[a.r].cpu && i == 98 - n.tasks[a.r].prio
         then JoinedAt(n.tasks, q, a.r, n.cpus[d].queue[i])
         else n.cpus[d].queue[i] == q
  {
    hide Invariant, Shaped, JoinedAt, Skip, Apply, Joins, Leaves;
    var prio := StepSettles(s, a, d, i);
    StepChanges(s, a);
  }

  /** Priorities 1 to 98 are served and no other: a fixed-priority task that is in no queue can start and go on
  with them, at the end of their queue, and the kernel can grant them. */
  lemma PrioritiesServed(s: Core, r: nat, a: Step)
    requires Ready(s) && r < |s.tasks| && !s.tasks[r].linked && s.tasks[r].cpu < |s.cpus|
    requires s.tasks[r].policy == FixedPriority && a in {Start(r), Resume(r)}
    ensures Allowed(s, a) <==> 1 <= s.tasks[r].prio <= 98
    ensures forall policy, p :: Allowed(s, Schedule(r, policy, p, true)) <==> 1 <= p <= 98
    ensures Allowed(s, a) ==>
      var c, i, n := s.tasks[r].cpu, 98 - s.tasks[r].prio, Apply(s, a);
      && c < |n.cpus| && i < |s.cpus[c].queue| == |n.cpus[c].queue|
      && n.cpus[c].queue[i] == s.cpus[c].queue[i] + [r]
  {
    hide Invariant, Shaped, Apply, Skip;
    if Allowed(s, a) {
      QueueAfter(s, a, s.tasks[r].cpu, 98 - s.tasks[r].prio);
      StepChanges(s, a);
    }
  }

  // ---------------------------------------------------------------- who was fed

  ghost predicate FedAs(s: Core, n: Core, r: nat, joins: bool)
    requires r < |n.tasks|
  {
    && (forall x: nat :: x != r ==> (x in n.fed <==> x in s.fed))
    && if joins then r in n.fed <==> n.tasks[r].policy == EarliestDeadline else n.fed == s.fed
  }

  lemma MovedFed(s: Core, r: nat, t: Task, prio: int)
    requires Shaped(s) && r < |s.tasks| && s.tasks[r].linked && Listed(s, r) && ValidPrio(prio) && t.cpu < |s.cpus|
    ensures var n := Moved(s, r, s.tasks[r].prio, t, prio, t.cpu); r < |n.tasks| && FedAs(s, n, r, true)
  {
  }

  /** Of what a step puts into a queue it is recorded whether the deadline class did so; of no other task the
  record changes. */
  lemma FedAfter(s: Core, a: Step)
    requires Ready(s) && Allowed(s, a)
    ensures a.r < |Apply(s, a).tasks|
    ensures !a.Suspend? ==> FedAs(s, Apply(s, a), a.r, Joins(s.tasks[a.r], a))
    ensures forall x: nat :: x != a.r ==> (x in Apply(s, a).fed <==> x in s.fed)
  {
    hide Invariant, Shaped, Moved, Counted;
    LinkedIsListed(s, a.r);
    StepChanges(s, a);
    var r, t := a.r, s.tasks[a.r];
    match a {
      case Schedule(_, policy, prio, granted) => SetSchedulerFed(s, r, policy, prio, granted);
      case Move(_, cpu) =>
        if t.linked && t.cpu != cpu {
          MovedFed(s, r, t.(cpu := cpu, linked := false), t.prio);
        }
      case Refill(_) => ReplenishFed(s, r);
      case Spent(_, late, granted) => OverrunFed(s, r, late, granted);
      case Suspend(_, granted) => SetSchedulerFed(s, r, t.policy, t.prioSave, granted && t.prio != t.prioSave);
      case _ =>
    }
  }

  lemma SetSchedulerFed(s: Core, r: nat, policy: Policy, prio: int, granted: bool)
    requires Shaped(s) && r < |s.tasks| && (granted ==> ValidPrio(prio)) && (s.tasks[r].linked ==> Listed(s, r))
    ensures var n := SetScheduler(s, r, policy, prio, granted);
      FedAs(s, n, r, s.tasks[r].linked && granted && prio != s.tasks[r].prio)
  {
    hide Shaped, Moved;
    var t := s.tasks[r].(policy := policy);
    if granted && t.linked && t.prio != prio {
      MovedFed(s, r, t.(prio := prio, linked := false), prio);
    }
  }

  lemma ReplenishFed(s: Core, r: nat)
    requires Shaped(s) && r < |s.tasks| && (s.tasks[r].linked ==> Listed(s, r))
    ensures FedAs(s, Replenish(s, r), r,
                  s.tasks[r].linked && s.tasks[r].policy == EarliestDeadline && s.tasks[r].prio == PRIO_BACKGROUND)
  {
    hide Shaped, Moved;
    var t := s.tasks[r];
    if Refilled(t) != t {
      MovedFed(s, r, t.(linked := false), PRIO_EDF);
    }
  }

  lemma OverrunFed(s: Core, r: nat, late: bool, granted: bool)
    requires Ready(s) && Allowed(s, Spent(r, late, granted)) && (s.tasks[r].linked ==> Listed(s, r))
    ensures var n := Overrun(s, r, late, granted);
      r < |n.tasks| && FedAs(s, n, r, Joins(s.tasks[r], Spent(r, late, granted)))
  {
    hide Invariant, Shaped, Moved;
    OverrunTask(s, r, late, granted);
    if s.tasks[r].reserved {
      var t := Unaccounted(s.tasks[r]);
      var u := Retask(s, r, t);
      RetaskShapes(s, r, t);
      if late {
        if Asks(t) {
          SetSchedulerFed(u, r, FixedPriority, t.prioSave, granted);
        } else {
          ReplenishFed(u, r);
        }
      } else if t.policy == FixedPriority {
        SetSchedulerFed(u, r, t.policy, PRIO_BACKGROUND, granted);
      } else if t.linked {
        MovedFed(u, r, t.(linked := false), PRIO_BACKGROUND);
      }
    }
  }

  // ------------------------------------------------------------ among the others

  /** Of two active tasks of a CPU the one of the higher priority comes first. */
  lemma HigherFirst(s: Core, x: nat, y: nat)
    requires Ready(s) && x < |s.tasks| && y < |s.tasks| && s.tasks[x].linked && s.tasks[y].linked
    requires s.tasks[x].cpu == s.tasks[y].cpu && s.tasks[x].prio > s.tasks[y].prio
    ensures Place(s, x) < Place(s, y)
  {
    hide Invariant, Shaped, Place, Flatten;
    LinkedIsListed(s, x);
    var c := s.tasks[x].cpu;
    Enumerates(s, x, c, Place(s, x));
    Enumerates(s, y, c, Place(s, y));
    if Place(s, y) < Place(s, x) {
      PrioritiesFall(s, c, Place(s, y), Place(s, x));
    }
  }

  /** A task that has used its reserve up goes down, to priority 2, and behind every task above that. */
  lemma ExpiredGoesDown(s: Core, r: nat, granted: bool) returns (n: Core)
    requires Ready(s) && Allowed(s, Spent(r, false, granted))
    requires s.tasks[r].reserved && s.tasks[r].linked && (s.tasks[r].policy == FixedPriority ==> granted)
    ensures n == Apply(s, Spent(r, false, granted)) && Ready(n) && r < |n.tasks| == |s.tasks|
    ensures n.tasks[r].linked && n.tasks[r].cpu == s.tasks[r].cpu && n.tasks[r].prio == 2
    ensures s.tasks[r].prio >= 2 ==> n.tasks[r].prio <= s.tasks[r].prio
    ensures forall x | 0 <= x < |n.tasks| && n.tasks[x].linked ::
              n.tasks[x].cpu == n.tasks[r].cpu && n.tasks[x].prio > 2 ==> Place(n, x) < Place(n, r)
  {
    hide Invariant, Shaped, Apply, Place;
    StepKeeps(s, Spent(r, false, granted));
    StepChanges(s, Spent(r, false, granted));
    n := Apply(s, Spent(r, false, granted));
    forall x | 0 <= x < |n.tasks| && n.tasks[x].linked && n.tasks[x].cpu == n.tasks[r].cpu && n.tasks[x].prio > 2
      ensures Place(n, x) < Place(n, r)
    {
      HigherFirst(n, x, r);
    }
  }

  /** A deadline-class task at work has priority 3: it comes behind all of priority 4 to 98 and before the
  background, when its job starts and again when its reserve is refilled. */
  lemma DeadlineBand(s: Core, a: Step) returns (n: Core)
    requires Ready(s) && Allowed(s, a) && s.tasks[a.r].policy == EarliestDeadline
    requires a.Start? || (a.Refill? && s.tasks[a.r].linked && s.tasks[a.r].prio == 2)
    ensures n == Apply(s, a) && Ready(n) && a.r < |n.tasks| && n.tasks[a.r].linked && n.tasks[a.r].prio == 3
    ensures forall x | 0 <= x < |n.tasks| && n.tasks[x].linked && n.tasks[x].cpu == n.tasks[a.r].cpu ::
              && 1 <= n.tasks[x].prio <= 98
              && (n.tasks[x].prio >= 4 ==> Place(n, x) < Place(n, a.r))
              && (n.tasks[x].prio <= 2 ==> Place(n, a.r) < Place(n, x))
  {
    hide Invariant, Shaped, Apply, Place;
    StepKeeps(s, a);
    StepChanges(s, a);
    n := Apply(s, a);
    forall x | 0 <= x < |n.tasks| && n.tasks[x].linked && n.tasks[x].cpu == n.tasks[a.r].cpu
      ensures 1 <= n.tasks[x].prio <= 98
      ensures n.tasks[x].prio >= 4 ==> Place(n, x) < Place(n, a.r)
      ensures n.tasks[x].prio <= 2 ==> Place(n, a.r) < Place(n, x)
    {
      LinkedIsListed(n, x);
      if n.tasks[x].prio >= 4 {
        HigherFirst(n, x, a.r);
      } else if n.tasks[x].prio <= 2 {
        HigherFirst(n, a.r, x);
      }
    }
  }

  // -------------------------------------------------------------- field by field

  /** The priority a task has after a step of its own: 3 at the start and end of a deadline-class job and when its
  reserve is refilled, 2 when the reserve is used up, and else what the kernel granted. */
  function PrioAfter(t: Task, a: Step): int {
    var back := t.linked && t.prio == 2;
    if t.policy == EarliestDeadline && (a.Start? || a.Complete?) then 3
    else if t.policy == EarliestDeadline && back && (a.Refill? || (a.Spent? && t.reserved && a.late)) then 3
    else if a.Schedule? && a.granted then a.prio
    else if a.Suspend? && a.granted then t.prioSave
    else if a.Spent? && t.reserved && a.late && a.granted && t.policy == FixedPriority && back then t.prioSave
    else if a.Spent? && t.reserved && !a.late && (if t.policy == FixedPriority then a.granted else t.linked) then 2
    else t.prio
  }

  /** Which steps save the priority. */
  predicate SavesPrio(t: Task, a: Step) {
    && t.policy == FixedPriority
    && match a
       case Start(_) => t.reserved && !t.accounting
       case ReserveStart(_) => !t.reserved && !t.accounting
       case Move(_, _) => t.accounting
       case Spent(_, late, _) => late && t.reserved
       case _ => false
  }

  /** What a step writes, field by field; it writes no field of another task. */
  lemma FieldsAfter(s: Core, a: Step)
    requires Ready(s) && Allowed(s, a)
    ensures a.r < |Apply(s, a).tasks| == |s.tasks|
    ensures var t, u := s.tasks[a.r], Apply(s, a).tasks[a.r];
      && u.prio == PrioAfter(t, a)
      && u.prioSave == (if SavesPrio(t, a) then u.prio else t.prioSave)
      && u.cpu == (if a.Move? then a.cpu else t.cpu)
      && u.deadline == (if a.Release? then a.deadline else t.deadline)
      && u.policy == (if a.Schedule? then a.policy else t.policy)
      && u.linked == (a.Start? || a.Resume? || (t.linked && !a.Complete? && !a.Suspend?))
      && u.reserved == (a.ReserveStart? || (t.reserved && !a.ReserveStop?))
    ensures var t, u := s.tasks[a.r], Apply(s, a).tasks[a.r];
      u.accounting == if a.Start? then t.accounting || t.reserved
                      else if a.ReserveStart? then t.accounting || !t.reserved
                      else if a.Spent? && t.reserved then a.late
                      else t.accounting && !((a.Complete? || a.ReserveStop?) && t.reserved)
    ensures forall x | 0 <= x < |s.tasks| && x != a.r :: Apply(s, a).tasks[x] == s.tasks[x]
  {
    hide Invariant, Shaped, Apply;
    StepChanges(s, a);
  }
}
