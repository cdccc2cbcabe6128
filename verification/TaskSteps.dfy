/** What each scheduler operation does to the active queues, and what every run of them keeps. */
module TaskSteps {
  import opened Bitops
  import opened ActiveQueue
  import opened Sequences

  function Retask(s: Core, r: nat, t: Task): Core
    requires r < |s.tasks|
  {
    s.(tasks := s.tasks[r := t])
  }

  predicate Ready(s: Core) {
    Invariant(s) && Shaped(s)
  }

  /** Leaving the queue of priority `from`, changing as `t` says, and joining that of `prio` on CPU c. */
  function Moved(s: Core, r: nat, from: int, t: Task, prio: int, c: nat): Core
    requires Shaped(s) && r < |s.tasks| && ValidPrio(from) && s.tasks[r].cpu < |s.cpus|
    requires r in s.cpus[s.tasks[r].cpu].queue[PrioIndex(from)]
    requires ValidPrio(prio) && c < |s.cpus|
  {
    DequeueShapes(s, r, from, s.tasks[r].cpu);
    Enqueue(Retask(Dequeue(s, r, from, s.tasks[r].cpu), r, t), r, prio, c)
  }

  lemma DequeueShapes(s: Core, r: nat, prio: int, c: nat)
    requires Shaped(s) && r < |s.tasks| && c < |s.cpus| && ValidPrio(prio)
    requires r in s.cpus[c].queue[PrioIndex(prio)]
    ensures Shaped(Dequeue(s, r, prio, c))
  {
  }

  /** Changing a task before it leaves its queue or after makes no difference. */
  lemma DequeueCommutes(s: Core, r: nat, t: Task, prio: int, c: nat)
    requires Shaped(s) && r < |s.tasks| && c < |s.cpus| && ValidPrio(prio)
    requires r in s.cpus[c].queue[PrioIndex(prio)]
    ensures Dequeue(Retask(s, r, t), r, prio, c) == Retask(Dequeue(s, r, prio, c), r, t.(linked := false))
  {
  }

  lemma RetaskShapes(s: Core, r: nat, t: Task)
    requires Shaped(s) && r < |s.tasks|
    ensures Shaped(Retask(s, r, t))
  {
  }

  /** A change made before the move is overwritten by the one the move makes. */
  lemma ChangedFirst(s: Core, r: nat, from: int, t: Task, u: Task, prio: int)
    requires Shaped(s) && r < |s.tasks| && ValidPrio(from) && t.cpu == s.tasks[r].cpu < |s.cpus|
    requires r in s.cpus[t.cpu].queue[PrioIndex(from)] && ValidPrio(prio)
    ensures Shaped(Retask(s, r, t))
    ensures Moved(Retask(s, r, t), r, from, u, prio, t.cpu) == Moved(s, r, from, u, prio, t.cpu)
  {
    hide Enqueue, Dequeue, Shaped;
    RetaskShapes(s, r, t);
    DequeueCommutes(s, r, t, from, t.cpu);
    DequeueSize(s, r, from, t.cpu);
    DequeueShapes(s, r, from, t.cpu);
    RetaskTwice(Dequeue(s, r, from, t.cpu), r, t.(linked := false), u);
  }

  lemma DequeueSize(s: Core, r: nat, prio: int, c: nat)
    requires Shaped(s) && r < |s.tasks| && c < |s.cpus| && ValidPrio(prio)
    requires r in s.cpus[c].queue[PrioIndex(prio)]
    ensures |Dequeue(s, r, prio, c).tasks| == |s.tasks| && |Dequeue(s, r, prio, c).cpus| == |s.cpus|
  {
  }

  lemma RetaskTwice(s: Core, r: nat, t: Task, u: Task)
    requires r < |s.tasks|
    ensures Retask(Retask(s, r, t), r, u) == Retask(s, r, u)
  {
  }

  /** `start_account`: unless time is charged already, the fixed-priority class saves the priority to come
  back to. */
  function Accounted(t: Task): Task {
    if t.accounting then t
    else t.(accounting := true, prioSave := if t.policy == FixedPriority then t.prio else t.prioSave)
  }

  function Unaccounted(t: Task): Task {
    t.(accounting := false)
  }

  function JobStart(s: Core, r: nat): Core
    requires Shaped(s) && r < |s.tasks| && s.tasks[r].cpu < |s.cpus|
    requires s.tasks[r].policy == FixedPriority ==> ValidPrio(s.tasks[r].prio)
  {
    var t := s.tasks[r];
    var n := Enqueue(s, r, if t.policy == EarliestDeadline then PRIO_EDF else t.prio, t.cpu);
    if t.reserved then Retask(n, r, Accounted(n.tasks[r])) else n
  }

  function JobComplete(s: Core, r: nat): Core
    requires Shaped(s) && r < |s.tasks| && Listed(s, r)
  {
    var t := s.tasks[r];
    var n := Dequeue(s, r, t.prio, t.cpu);
    var u := if t.policy == EarliestDeadline then n.tasks[r].(prio := PRIO_EDF) else n.tasks[r];
    Retask(n, r, if t.reserved then Unaccounted(u) else u)
  }

  /** `granted` is what the kernel answers to the change of priority; it grants no priority out of range. */
  function SetScheduler(s: Core, r: nat, policy: Policy, prio: int, granted: bool): (n: Core)
    requires Shaped(s) && r < |s.tasks| && (granted ==> ValidPrio(prio))
    requires s.tasks[r].linked ==> Listed(s, r)
    ensures |n.tasks| == |s.tasks|
  {
    var t := s.tasks[r].(policy := policy);
    if !granted then Retask(s, r, t)
    else if t.linked && t.prio != prio then
      Moved(s, r, t.prio, t.(prio := prio, linked := false), prio, t.cpu)
    else Retask(s, r, t.(prio := prio))
  }

  lemma SetSchedulerCommutes(s: Core, r: nat, policy: Policy, prio: int, granted: bool)
    requires Shaped(s) && r < |s.tasks| && (granted ==> ValidPrio(prio))
    requires s.tasks[r].linked ==> Listed(s, r)
    ensures var n := Retask(s, r, s.tasks[r].(policy := policy));
      && Shaped(n) && (n.tasks[r].linked ==> Listed(n, r))
      && SetScheduler(n, r, policy, prio, granted) == SetScheduler(s, r, policy, prio, granted)
  {
    hide Enqueue, Dequeue;
    var t := s.tasks[r].(policy := policy);
    RetaskShapes(s, r, t);
    if t.linked && t.prio != prio && granted {
      ChangedFirst(s, r, t.prio, t, t.(prio := prio, linked := false), prio);
    }
  }

  /** `job_suspend`: the task asks for its saved priority and leaves its queue. */
  function JobSuspend(s: Core, r: nat, granted: bool): Core
    requires Shaped(s) && r < |s.tasks| && s.tasks[r].linked && Listed(s, r)
    requires granted && s.tasks[r].prio != s.tasks[r].prioSave ==> ValidPrio(s.tasks[r].prioSave)
  {
    var n := PutBack(s, r, granted);
    PutBackListed(s, r, granted);
    Dequeue(n, r, n.tasks[r].prio, n.tasks[r].cpu)
  }

  function PutBack(s: Core, r: nat, granted: bool): (n: Core)
    requires Shaped(s) && r < |s.tasks| && (s.tasks[r].linked ==> Listed(s, r))
    requires granted && s.tasks[r].prio != s.tasks[r].prioSave ==> ValidPrio(s.tasks[r].prioSave)
    ensures |n.tasks| == |s.tasks|
  {
    var t := s.tasks[r];
    if t.prio != t.prioSave then SetScheduler(s, r, t.policy, t.prioSave, granted) else s
  }

  lemma PutBackListed(s: Core, r: nat, granted: bool)
    requires Shaped(s) && r < |s.tasks| && s.tasks[r].linked && Listed(s, r)
    requires granted && s.tasks[r].prio != s.tasks[r].prioSave ==> ValidPrio(s.tasks[r].prioSave)
    ensures Shaped(PutBack(s, r, granted)) && Listed(PutBack(s, r, granted), r)
  {
    hide Enqueue, Dequeue, Grown;
    var t := s.tasks[r];
    if granted && t.prio != t.prioSave {
      MovedListed(s, r, t.prio, t.(prio := t.prioSave, linked := false), t.prioSave, t.cpu);
    }
  }

  lemma MovedListed(s: Core, r: nat, from: int, t: Task, prio: int, c: nat)
    requires Shaped(s) && r < |s.tasks| && ValidPrio(from) && s.tasks[r].cpu < |s.cpus|
    requires r in s.cpus[s.tasks[r].cpu].queue[PrioIndex(from)]
    requires ValidPrio(prio) && c < |s.cpus| && t.cpu == c && t.prio == prio
    ensures Shaped(Moved(s, r, from, t, prio, c)) && Listed(Moved(s, r, from, t, prio, c), r)
  {
    hide Shaped, Dequeue;
    DequeueShapes(s, r, from, s.tasks[r].cpu);
    DequeueSize(s, r, from, s.tasks[r].cpu);
    var u := Dequeue(s, r, from, s.tasks[r].cpu);
    RetaskShapes(u, r, t);
    EnqueuedShapes(Retask(u, r, t), r, prio, c);
  }

  lemma EnqueuedShapes(s: Core, r: nat, prio: int, c: nat)
    requires Shaped(s) && r < |s.tasks| && c < |s.cpus| && ValidPrio(prio)
    requires s.tasks[r].cpu == c && s.tasks[r].prio == prio
    ensures Shaped(Enqueue(s, r, prio, c)) && Listed(Enqueue(s, r, prio, c), r)
  {
    hide Inserted;
    var q := s.cpus[c].queue[PrioIndex(prio)];
    var edf := s.tasks[r].policy == EarliestDeadline;
    InsertedMembers(q, if edf then DeadlineSlot(s.tasks, q, s.tasks[r].deadline) else |q|, r);
    var n := Enqueue(s, r, prio, c);
    forall d, i, k | 0 <= d < |n.cpus| && 0 <= i < PRIO_MAX && 0 <= k < |n.cpus[d].queue[i]|
      ensures n.cpus[d].queue[i][k] < |n.tasks|
    {
      var x := n.cpus[d].queue[i][k];
      assert x in n.cpus[d].queue[i];
      assert x == r || x in s.cpus[d].queue[i];
    }
  }

  function Migrate(s: Core, r: nat, cpu: nat): (n: Core)
    requires Shaped(s) && r < |s.tasks| && cpu < |s.cpus|
    requires s.tasks[r].linked ==> Listed(s, r)
    ensures |n.tasks| == |s.tasks|
  {
    var t := s.tasks[r];
    if t.cpu == cpu then s
    else if t.linked then Moved(s, r, t.prio, t.(cpu := cpu, linked := false), t.prio, cpu)
    else Retask(s, r, t.(cpu := cpu))
  }

  /** A migration charges time anew on the other CPU, if it was being charged. */
  function Restarted(t: Task): Task {
    if t.accounting && t.policy == FixedPriority then t.(prioSave := t.prio) else t
  }

  /** The budget is used up: down to the background queue. */
  function Expire(s: Core, r: nat, granted: bool): (n: Core)
    requires Shaped(s) && r < |s.tasks|
    requires s.tasks[r].linked ==> Listed(s, r)
    ensures |n.tasks| == |s.tasks|
  {
    var t := s.tasks[r];
    if t.policy == FixedPriority then SetScheduler(s, r, t.policy, PRIO_BACKGROUND, granted)
    else if t.linked then Moved(s, r, t.prio, t.(linked := false), PRIO_BACKGROUND, t.cpu)
    else s
  }

  /** The budget is refilled: back from the background queue. A fixed-priority task only asks for its
  saved priority; `SetScheduler` answers later. */
  function Replenish(s: Core, r: nat): (n: Core)
    requires Shaped(s) && r < |s.tasks|
    requires s.tasks[r].linked ==> Listed(s, r)
    ensures |n.tasks| == |s.tasks|
  {
    var t := s.tasks[r];
    if t.policy == EarliestDeadline && t.prio == PRIO_BACKGROUND && t.linked then
      Moved(s, r, PRIO_BACKGROUND, t.(linked := false), PRIO_EDF, t.cpu)
    else s
  }

  /** Whether a refill asks for the saved priority. */
  predicate Asks(t: Task) {
    t.policy == FixedPriority && t.prio == PRIO_BACKGROUND && t.linked
  }

  /** `api_reserve_expire`: the task has used its reserve up. If the next refill is already due (`late`)
  it comes at once, and the caller sleeps until the priority it asks for is granted or refused. */
  function Overrun(s: Core, r: nat, late: bool, granted: bool): Core
    requires Shaped(s) && r < |s.tasks|
    requires s.tasks[r].linked ==> Listed(s, r)
    requires late && granted && Asks(s.tasks[r]) ==> ValidPrio(s.tasks[r].prioSave)
  {
    if !s.tasks[r].reserved then s else
    var u := Retask(s, r, Unaccounted(s.tasks[r]));
    RetaskShapes(s, r, Unaccounted(s.tasks[r]));
    if !late then Expire(u, r, granted) else
    var n := if Asks(u.tasks[r]) then SetScheduler(u, r, FixedPriority, u.tasks[r].prioSave, granted)
             else Replenish(u, r);
    Retask(n, r, Accounted(n.tasks[r]))
  }

  datatype Step =
    | Start(r: nat)
    | Complete(r: nat)
    | Release(r: nat, deadline: int)
    | ReserveStart(r: nat)
    | ReserveStop(r: nat)
    | Schedule(r: nat, policy: Policy, prio: int, granted: bool)
    | Move(r: nat, cpu: nat)
    | Spent(r: nat, late: bool, granted: bool)
    | Refill(r: nat)
    | Suspend(r: nat, granted: bool)
    | Resume(r: nat)

  /** What the callers see to: a job starts or goes on only when the task is in no queue and completes or is
  suspended only when it is in one, deadlines change between jobs, only a reserve is refilled, and the kernel
  grants no priority out of range. */
  predicate Allowed(s: Core, a: Step) {
    && a.r < |s.tasks|
    && var t := s.tasks[a.r];
    match a
    case Start(_) => !t.linked && t.cpu < |s.cpus| && (t.policy == FixedPriority ==> ValidPrio(t.prio))
    case Complete(_) => t.linked
    case Release(_, _) => !t.linked
    case Schedule(_, _, prio, granted) => granted ==> ValidPrio(prio)
    case Move(_, cpu) => cpu < |s.cpus|
    case Spent(_, late, granted) => late && granted && Asks(t) ==> ValidPrio(t.prioSave)
    case Refill(_) => t.reserved
    case Suspend(_, granted) => t.linked && (granted && t.prio != t.prioSave ==> ValidPrio(t.prioSave))
    case Resume(_) => !t.linked && t.cpu < |s.cpus| && ValidPrio(t.prio)
    case ReserveStart(_) | ReserveStop(_) => true
  }

  lemma LinkedIsListed(s: Core, r: nat)
    requires Invariant(s) && r < |s.tasks|
    ensures s.tasks[r].linked ==> Listed(s, r)
  {
  }

  function Apply(s: Core, a: Step): Core
    requires Ready(s) && Allowed(s, a)
  {
    LinkedIsListed(s, a.r);
    var t := s.tasks[a.r];
    match a
    case Start(r) => JobStart(s, r)
    case Complete(r) => JobComplete(s, r)
    case Release(r, deadline) => Retask(s, r, t.(deadline := deadline))
    case ReserveStart(r) => if t.reserved then s else Retask(s, r, Accounted(t.(reserved := true)))
    case ReserveStop(r) => if t.reserved then Retask(s, r, Unaccounted(t).(reserved := false)) else s
    case Schedule(r, policy, prio, granted) => SetScheduler(s, r, policy, prio, granted)
    case Move(r, cpu) =>
      var n := Migrate(s, r, cpu);
      Retask(n, r, Restarted(n.tasks[r]))
    case Spent(r, late, granted) => Overrun(s, r, late, granted)
    case Refill(r) => Replenish(s, r)
    case Suspend(r, granted) => JobSuspend(s, r, granted)
    case Resume(r) => Enqueue(s, r, t.prio, t.cpu)
  }

  lemma MovedKeeps(s: Core, r: nat, t: Task, prio: int, c: nat)
    requires Ready(s) && r < |s.tasks| && s.tasks[r].linked && Listed(s, r)
    requires !t.linked && t.cpu == c < |s.cpus| && ValidPrio(prio)
    requires t.policy == FixedPriority ==> t.prio == prio
    ensures Invariant(Moved(s, r, s.tasks[r].prio, t, prio, c))
  {
    hide Invariant, Counted, Shaped;
    DequeueKeeps(s, r);
    var n := Dequeue(s, r, s.tasks[r].prio, s.tasks[r].cpu);
    DequeueShapes(s, r, s.tasks[r].prio, s.tasks[r].cpu);
    UnlinkedChanges(n, r, t);
    InvariantShapes(Retask(n, r, t));
    EnqueueKeeps(Retask(n, r, t), r, prio, c);
  }

  /** Only what the queues look at matters to the invariant. */
  lemma SideChanges(s: Core, r: nat, t: Task)
    requires Invariant(s) && r < |s.tasks|
    requires var u := s.tasks[r];
      t.linked == u.linked && t.cpu == u.cpu && t.prio == u.prio && t.deadline == u.deadline
    ensures Invariant(Retask(s, r, t))
  {
    hide Counted;
    InvariantShapes(s);
    var n := Retask(s, r, t);
    forall c, i | 0 <= c < |n.cpus| && 0 <= i < PRIO_MAX
      ensures QueueOk(n.tasks, n.fed, n.cpus[c].queue[i], c, i)
    {
      assert QueueOk(s.tasks, s.fed, s.cpus[c].queue[i], c, i);
    }
    forall x | 0 <= x < |n.tasks| && n.tasks[x].linked ensures Listed(n, x) {
      assert Listed(s, x);
    }
  }

  lemma StepKeeps(s: Core, a: Step)
    requires Ready(s) && Allowed(s, a)
    ensures Ready(Apply(s, a))
  {
    hide Invariant, Counted, Shaped;
    LinkedIsListed(s, a.r);
    var t := s.tasks[a.r];
    match a {
      case Start(r) =>
        EnqueueKeeps(s, r, if t.policy == EarliestDeadline then PRIO_EDF else t.prio, t.cpu);
        var n := Enqueue(s, r, if t.policy == EarliestDeadline then PRIO_EDF else t.prio, t.cpu);
        SideChanges(n, r, Accounted(n.tasks[r]));
      case Complete(r) =>
        DequeueKeeps(s, r);
        UnlinkedChanges(Dequeue(s, r, t.prio, t.cpu), r, Apply(s, a).tasks[r]);
      case Release(r, deadline) =>
        UnlinkedChanges(s, r, t.(deadline := deadline));
      case ReserveStart(r) =>
        SideChanges(s, r, Accounted(t.(reserved := true)));
      case ReserveStop(r) =>
        SideChanges(s, r, Unaccounted(t).(reserved := false));
      case Schedule(r, policy, prio, granted) =>
        SetSchedulerKeeps(s, r, policy, prio, granted);
      case Move(r, cpu) =>
        MigrateKeeps(s, r, cpu);
        SideChanges(Migrate(s, r, cpu), r, Restarted(Migrate(s, r, cpu).tasks[r]));
      case Spent(r, late, granted) =>
        OverrunKeeps(s, r, late, granted);
      case Refill(r) =>
        ReplenishKeeps(s, r);
      case Suspend(r, granted) =>
        SuspendKeeps(s, r, granted);
      case Resume(r) =>
        EnqueueKeeps(s, r, t.prio, t.cpu);
    }
    InvariantShapes(Apply(s, a));
  }

  lemma SetSchedulerKeeps(s: Core, r: nat, policy: Policy, prio: int, granted: bool)
    requires Ready(s) && r < |s.tasks| && (granted ==> ValidPrio(prio))
    requires s.tasks[r].linked ==> Listed(s, r)
    ensures Invariant(SetScheduler(s, r, policy, prio, granted))
  {
    hide Invariant, Counted, Shaped;
    var t := s.tasks[r].(policy := policy);
    if !granted || t.prio == prio {
      SideChanges(s, r, t);
    } else if t.linked {
      MovedKeeps(s, r, t.(prio := prio, linked := false), prio, t.cpu);
    } else {
      UnlinkedChanges(s, r, t.(prio := prio));
    }
  }

  lemma SuspendKeeps(s: Core, r: nat, granted: bool)
    requires Ready(s) && r < |s.tasks| && s.tasks[r].linked && Listed(s, r)
    requires granted && s.tasks[r].prio != s.tasks[r].prioSave ==> ValidPrio(s.tasks[r].prioSave)
    ensures Invariant(JobSuspend(s, r, granted))
  {
    hide Invariant, Counted, Shaped, SetScheduler;
    var t := s.tasks[r];
    PutBackListed(s, r, granted);
    if t.prio != t.prioSave {
      SetSchedulerKeeps(s, r, t.policy, t.prioSave, granted);
    }
    PutBackLinked(s, r, granted);
    DequeueKeeps(PutBack(s, r, granted), r);
  }

  lemma PutBackLinked(s: Core, r: nat, granted: bool)
    requires Shaped(s) && r < |s.tasks| && s.tasks[r].linked && Listed(s, r)
    requires granted && s.tasks[r].prio != s.tasks[r].prioSave ==> ValidPrio(s.tasks[r].prioSave)
    ensures PutBack(s, r, granted).tasks[r].linked
  {
    hide Shaped;
  }

  lemma MigrateKeeps(s: Core, r: nat, cpu: nat)
    requires Ready(s) && r < |s.tasks| && cpu < |s.cpus|
    requires s.tasks[r].linked ==> Listed(s, r)
    ensures Invariant(Migrate(s, r, cpu))
  {
    hide Invariant, Counted, Shaped;
    var t := s.tasks[r];
    if t.linked {
      if t.cpu != cpu {
        MovedKeeps(s, r, t.(cpu := cpu, linked := false), t.prio, cpu);
      }
    } else {
      UnlinkedChanges(s, r, t.(cpu := cpu));
    }
  }

  lemma ExpireKeeps(s: Core, r: nat, granted: bool)
    requires Ready(s) && r < |s.tasks|
    requires s.tasks[r].linked ==> Listed(s, r)
    ensures Invariant(Expire(s, r, granted))
  {
    hide Invariant, Counted, Shaped;
    var t := s.tasks[r];
    if t.policy == FixedPriority {
      SetSchedulerKeeps(s, r, t.policy, PRIO_BACKGROUND, granted);
    } else if t.linked {
      MovedKeeps(s, r, t.(linked := false), PRIO_BACKGROUND, t.cpu);
    }
  }

  lemma ReplenishKeeps(s: Core, r: nat)
    requires Ready(s) && r < |s.tasks|
    requires s.tasks[r].linked ==> Listed(s, r)
    ensures Invariant(Replenish(s, r))
  {
    hide Invariant, Counted, Shaped;
    var t := s.tasks[r];
    if t.policy == EarliestDeadline && t.prio == PRIO_BACKGROUND && t.linked {
      MovedKeeps(s, r, t.(linked := false), PRIO_EDF, t.cpu);
    }
  }

  lemma OverrunKeeps(s: Core, r: nat, late: bool, granted: bool)
    requires Ready(s) && r < |s.tasks|
    requires s.tasks[r].linked ==> Listed(s, r)
    requires late && granted && Asks(s.tasks[r]) ==> ValidPrio(s.tasks[r].prioSave)
    ensures Invariant(Overrun(s, r, late, granted))
  {
    hide Invariant, Counted, Shaped;
    if s.tasks[r].reserved {
      var u := Retask(s, r, Unaccounted(s.tasks[r]));
      SideChanges(s, r, Unaccounted(s.tasks[r]));
      InvariantShapes(u);
      LinkedIsListed(u, r);
      if !late {
        ExpireKeeps(u, r, granted);
      } else if Asks(u.tasks[r]) {
        var n := SetScheduler(u, r, FixedPriority, u.tasks[r].prioSave, granted);
        SetSchedulerKeeps(u, r, FixedPriority, u.tasks[r].prioSave, granted);
        SideChanges(n, r, Accounted(n.tasks[r]));
      } else {
        ReplenishKeeps(u, r);
        SideChanges(Replenish(u, r), r, Accounted(Replenish(u, r).tasks[r]));
      }
    }
  }

  predicate AllowedRun(s: Core, run: seq<Step>)
    requires Ready(s)
    decreases run
  {
    run == [] || (Allowed(s, run[0]) && (StepKeeps(s, run[0]); AllowedRun(Apply(s, run[0]), run[1..])))
  }

  /** Whatever the operations and their order, bitmap, queues, counter and task fields go on agreeing. */
  function After(s: Core, run: seq<Step>): (t: Core)
    requires Ready(s) && AllowedRun(s, run)
    ensures Ready(t)
    decreases run
  {
    if run == [] then s else (StepKeeps(s, run[0]); After(Apply(s, run[0]), run[1..]))
  }

  function EmptyArray(): PrioArray {
    PrioArray([0, 0], seq(PRIO_MAX, _ => []), 0)
  }

  predicate Empty(s: Core) {
    && (forall r :: 0 <= r < |s.tasks| ==> !s.tasks[r].linked)
    && forall c :: 0 <= c < |s.cpus| ==> s.cpus[c] == EmptyArray()
  }

  lemma {:induction false} EmptyTotal(queue: seq<seq<nat>>)
    requires forall i :: 0 <= i < |queue| ==> queue[i] == []
    ensures Total(queue) == 0
  {
    if queue != [] {
      EmptyTotal(queue[1..]);
    }
  }

  lemma EmptyIsReady(s: Core)
    requires Empty(s)
    ensures Ready(s)
  {
    forall c | 0 <= c < |s.cpus| ensures Counted(s.cpus[c]) {
      EmptyTotal(s.cpus[c].queue);
      forall i | 0 <= i < BITMAP_WORDS * BITS_PER_LONG ensures !IsSet(s.cpus[c].bitmap, i) {
        ZeroHasNone(0);
      }
    }
  }

  /** A queue that only the deadline class has fed is sorted by deadline. */
  lemma SortedByDeadline(s: Core, c: nat, i: nat, j: nat, k: nat)
    requires Invariant(s) && Shaped(s) && c < |s.cpus| && i < PRIO_MAX && j < k < |s.cpus[c].queue[i]|
    requires s.cpus[c].queue[i][k] in s.fed
    ensures s.tasks[s.cpus[c].queue[i][j]].deadline <= s.tasks[s.cpus[c].queue[i][k]].deadline
  {
    assert QueueOk(s.tasks, s.fed, s.cpus[c].queue[i], c, i);
  }

  /** Among tasks of the deadline class, the newcomer goes behind exactly those due no later: ties are
  served in order of arrival. */
  lemma GoesBehindEarlier(s: Core, r: nat, prio: int, c: nat, j: nat)
    requires Ready(s) && r < |s.tasks| && c < |s.cpus| && ValidPrio(prio)
    requires !s.tasks[r].linked && s.tasks[r].cpu == c && s.tasks[r].policy == EarliestDeadline
    requires j < |s.cpus[c].queue[PrioIndex(prio)]|
    requires forall x :: x in s.cpus[c].queue[PrioIndex(prio)] ==> x in s.fed
    ensures var q := s.cpus[c].queue[PrioIndex(prio)];
      var p := Enqueue(s, r, prio, c).cpus[c].queue[PrioIndex(prio)];
      var k := DeadlineSlot(s.tasks, q, s.tasks[r].deadline);
      && p == q[..k] + [r] + q[k..]
      && (j < k <==> s.tasks[q[j]].deadline <= s.tasks[r].deadline)
  {
    var q := s.cpus[c].queue[PrioIndex(prio)];
    var k := DeadlineSlot(s.tasks, q, s.tasks[r].deadline);
    if k < j {
      SortedByDeadline(s, c, PrioIndex(prio), k, j);
    }
  }
}
