/** CPU reserves: what a run of operations does to the fields of one task, and exactly when a task that
used its reserve up gets its priority back. */
module Reservation {
  import opened Bitops
  import opened ActiveQueue
  import opened Sequences
  import opened TaskSteps

  /** The fields of the task a step is about, after the step. */
  function NextTask(t: Task, a: Step): Task {
    match a
    case Start(_) =>
      var u := t.(linked := true, prio := if t.policy == EarliestDeadline then PRIO_EDF else t.prio);
      if t.reserved then Accounted(u) else u
    case Complete(_) =>
      var u := t.(linked := false, prio := if t.policy == EarliestDeadline then PRIO_EDF else t.prio);
      if t.reserved then Unaccounted(u) else u
    case Release(_, deadline) => t.(deadline := deadline)
    case ReserveStart(_) => if t.reserved then t else Accounted(t.(reserved := true))
    case ReserveStop(_) => if t.reserved then t.(reserved := false, accounting := false) else t
    case Schedule(_, policy, prio, granted) => Rescheduled(t, policy, prio, granted)
    case Move(_, cpu) => Restarted(t.(cpu := cpu))
    case Spent(_, late, granted) =>
      if !t.reserved then t
      else if !late then Demoted(Unaccounted(t), granted)
      else if Asks(t) then Accounted(Rescheduled(Unaccounted(t), FixedPriority, t.prioSave, granted))
      else Accounted(Refilled(Unaccounted(t)))
    case Refill(_) => Refilled(t)
    case Suspend(_, granted) => t.(prio := if granted then t.prioSave else t.prio, linked := false)
    case Resume(_) => t.(linked := true)
  }

  function Rescheduled(t: Task, policy: Policy, prio: int, granted: bool): Task {
    t.(policy := policy, prio := if granted then prio else t.prio)
  }

  function Demoted(t: Task, granted: bool): Task {
    if (if t.policy == FixedPriority then granted else t.linked) then t.(prio := PRIO_BACKGROUND) else t
  }

  function Refilled(t: Task): Task {
    if t.policy == EarliestDeadline && t.prio == PRIO_BACKGROUND && t.linked then t.(prio := PRIO_EDF) else t
  }

  /** Moving between queues rewrites the moved task and no other. */
  lemma MovedTask(s: Core, r: nat, from: int, t: Task, prio: int, c: nat)
    requires Shaped(s) && r < |s.tasks| && ValidPrio(from) && s.tasks[r].cpu < |s.cpus|
    requires r in s.cpus[s.tasks[r].cpu].queue[PrioIndex(from)]
    requires ValidPrio(prio) && c < |s.cpus|
    ensures Moved(s, r, from, t, prio, c).tasks
         == s.tasks[r := t.(linked := true, prio := if t.policy == EarliestDeadline then prio else t.prio)]
    ensures |Moved(s, r, from, t, prio, c).cpus| == |s.cpus|
  {
  }

  /** A step changes the fields of its own task only. */
  lemma StepChanges(s: Core, a: Step)
    requires Ready(s) && Allowed(s, a)
    ensures Apply(s, a).tasks == s.tasks[a.r := NextTask(s.tasks[a.r], a)]
    ensures |Apply(s, a).cpus| == |s.cpus|
  {
    hide Invariant, Counted, Shaped, Moved;
    LinkedIsListed(s, a.r);
    var r, t := a.r, s.tasks[a.r];
    match a {
      case Start(_) =>
      case Complete(_) =>
      case Release(_, _) =>
      case ReserveStart(_) =>
      case ReserveStop(_) =>
      case Schedule(_, policy, prio, granted) => SetSchedulerTask(s, r, policy, prio, granted);
      case Move(_, cpu) => MigrateTask(s, r, cpu);
      case Spent(_, late, granted) => OverrunTask(s, r, late, granted);
      case Refill(_) => ReplenishTask(s, r);
      case Suspend(_, granted) => SuspendTask(s, r, granted);
      case Resume(_) =>
    }
  }

  lemma SetSchedulerTask(s: Core, r: nat, policy: Policy, prio: int, granted: bool)
    requires Shaped(s) && r < |s.tasks| && (granted ==> ValidPrio(prio))
    requires s.tasks[r].linked ==> Listed(s, r)
    ensures SetScheduler(s, r, policy, prio, granted).tasks
         == s.tasks[r := Rescheduled(s.tasks[r], policy, prio, granted)]
    ensures |SetScheduler(s, r, policy, prio, granted).cpus| == |s.cpus|
  {
    hide Moved, Shaped;
    var t := s.tasks[r].(policy := policy);
    if granted && t.linked && t.prio != prio {
      MovedTask(s, r, t.prio, t.(prio := prio, linked := false), prio, t.cpu);
    }
  }

  lemma MigrateTask(s: Core, r: nat, cpu: nat)
    requires Shaped(s) && r < |s.tasks| && cpu < |s.cpus|
    requires s.tasks[r].linked ==> Listed(s, r)
    ensures Migrate(s, r, cpu).tasks == s.tasks[r := s.tasks[r].(cpu := cpu)]
    ensures |Migrate(s, r, cpu).cpus| == |s.cpus|
  {
    hide Moved, Shaped;
    var t := s.tasks[r];
    if t.linked && t.cpu != cpu {
      MovedTask(s, r, t.prio, t.(cpu := cpu, linked := false), t.prio, cpu);
    }
  }

  lemma SuspendTask(s: Core, r: nat, granted: bool)
    requires Shaped(s) && r < |s.tasks| && s.tasks[r].linked && Listed(s, r)
    requires granted && s.tasks[r].prio != s.tasks[r].prioSave ==> ValidPrio(s.tasks[r].prioSave)
    ensures JobSuspend(s, r, granted).tasks == s.tasks[r := NextTask(s.tasks[r], Suspend(r, granted))]
    ensures |JobSuspend(s, r, granted).cpus| == |s.cpus|
  {
    hide Shaped, SetScheduler, Shrunk;
    var t := s.tasks[r];
    PutBackListed(s, r, granted);
    if t.prio != t.prioSave {
      SetSchedulerTask(s, r, t.policy, t.prioSave, granted);
    }
  }

  lemma ReplenishTask(s: Core, r: nat)
    requires Shaped(s) && r < |s.tasks|
    requires s.tasks[r].linked ==> Listed(s, r)
    ensures Replenish(s, r).tasks == s.tasks[r := Refilled(s.tasks[r])]
    ensures |Replenish(s, r).cpus| == |s.cpus|
  {
    hide Moved, Shaped;
    var t := s.tasks[r];
    if Refilled(t) != t {
      MovedTask(s, r, PRIO_BACKGROUND, t.(linked := false), PRIO_EDF, t.cpu);
    }
  }

  lemma OverrunTask(s: Core, r: nat, late: bool, granted: bool)
    requires Shaped(s) && r < |s.tasks|
    requires s.tasks[r].linked ==> Listed(s, r)
    requires late && granted && Asks(s.tasks[r]) ==> ValidPrio(s.tasks[r].prioSave)
    ensures Overrun(s, r, late, granted).tasks == s.tasks[r := NextTask(s.tasks[r], Spent(r, late, granted))]
    ensures |Overrun(s, r, late, granted).cpus| == |s.cpus|
  {
    hide Moved, Shaped;
    if s.tasks[r].reserved {
      var t := Unaccounted(s.tasks[r]);
      var u := Retask(s, r, t);
      RetaskShapes(s, r, t);
      if late {
        if Asks(t) {
          SetSchedulerTask(u, r, FixedPriority, t.prioSave, granted);
        } else {
          ReplenishTask(u, r);
        }
      } else if t.policy == FixedPriority {
        SetSchedulerTask(u, r, t.policy, PRIO_BACKGROUND, granted);
      } else if t.linked {
        MovedTask(u, r, t.prio, t.(linked := false), PRIO_BACKGROUND, t.cpu);
      }
    }
  }

  /** The priority a refill asks the scheduler thread for; 0 if it asks for none. */
  function Request(t: Task): int {
    if Asks(t) then t.prioSave else 0
  }

  /** A fixed-priority task at work under a reserve. */
  predicate Capped(t: Task) {
    t.policy == FixedPriority && t.linked && t.reserved
  }

  /** One that is being charged and would come back to the priority it has. */
  predicate Charged(t: Task) {
    Capped(t) && t.accounting && t.prioSave == t.prio
  }

  /** So is every such task that has just started a job. */
  lemma StartCharges(s: Core, r: nat)
    requires Ready(s) && Allowed(s, Start(r))
    requires s.tasks[r].policy == FixedPriority && s.tasks[r].reserved && !s.tasks[r].accounting
    ensures Charged(Apply(s, Start(r)).tasks[r])
  {
    StepChanges(s, Start(r));
  }

  // ------------------------------------------------------- while time is charged

  predicate Charging(t: Task) {
    t.policy == FixedPriority && t.reserved && t.accounting
  }

  /** The step makes the saved priority and the present one of task r the same. */
  predicate Saves(a: Step, r: nat) {
    a.r == r && (a.Move? || (a.Suspend? && a.granted))
  }

  /** The step ends the charging of task r, or with `late` starts it anew. */
  predicate Interrupts(a: Step, r: nat) {
    a.r == r && (a.Complete? || a.ReserveStop? || a.Spent? || (a.Schedule? && a.policy == EarliestDeadline))
  }

  lemma SavingStep(t: Task, a: Step, r: nat)
    requires Charging(t) && Saves(a, r)
    ensures Charging(NextTask(t, a)) && NextTask(t, a).prioSave == NextTask(t, a).prio
  {
  }

  /** The priority last granted to task r in a run that started with p. */
  function LastGranted(run: seq<Step>, r: nat, p: int): int {
    if run == [] then p
    else
      var a := run[|run| - 1];
      if a.r == r && a.Schedule? && a.granted then a.prio else LastGranted(run[..|run| - 1], r, p)
  }

  /** From a saving step on, or from the start of the charging, the saved priority is the present one exactly
  until another one is granted. */
  lemma SavedIff(s: Core, r: nat, run: seq<Step>)
    requires Ready(s) && AllowedRun(s, run) && r < |s.tasks|
    requires Charging(s.tasks[r]) && s.tasks[r].prioSave == s.tasks[r].prio
    requires forall a | a in run :: !Saves(a, r) && !Interrupts(a, r)
    ensures r < |After(s, run).tasks| && Charging(After(s, run).tasks[r])
    ensures var t := After(s, run).tasks[r];
      t.prioSave == t.prio <==> LastGranted(run, r, s.tasks[r].prio) == s.tasks[r].prio
  {
    ChargingRun(s, r, run);
  }

  lemma {:induction false} ChargingRun(s: Core, r: nat, run: seq<Step>)
    requires Ready(s) && AllowedRun(s, run) && r < |s.tasks| && Charging(s.tasks[r])
    requires forall a | a in run :: !Saves(a, r) && !Interrupts(a, r)
    ensures r < |After(s, run).tasks|
    ensures var t := After(s, run).tasks[r];
      Charging(t) && t.prioSave == s.tasks[r].prioSave && t.prio == LastGranted(run, r, s.tasks[r].prio)
    decreases run
  {
    hide NextTask, Apply, Ready, Charging, Saves, Interrupts, LastGranted;
    if run == [] {
      NoneGranted(r, s.tasks[r].prio);
    } else {
      var a, rest := run[0], run[1..];
      assert run == [a] + rest;
      StepKeeps(s, a);
      StepChanges(s, a);
      if a.r == r {
        ChargingStep(s.tasks[r], a, r);
      }
      ChargingRun(Apply(s, a), r, rest);
      FirstGranted(a, rest, r, s.tasks[r].prio);
    }
  }

  lemma NoneGranted(r: nat, p: int)
    ensures LastGranted([], r, p) == p
  {
  }

  lemma {:induction false} FirstGranted(a: Step, rest: seq<Step>, r: nat, p: int)
    ensures LastGranted([a] + rest, r, p)
         == LastGranted(rest, r, if a.r == r && a.Schedule? && a.granted then a.prio else p)
  {
    var run := [a] + rest;
    if rest == [] {
      assert run == [a] && run[..0] == [];
    } else {
      assert run[..|run| - 1] == [a] + rest[..|rest| - 1];
      FirstGranted(a, rest[..|rest| - 1], r, p);
    }
  }

  lemma ChargingStep(t: Task, a: Step, r: nat)
    requires a.r == r && Charging(t) && !Saves(a, r) && !Interrupts(a, r)
    ensures Charging(NextTask(t, a)) && NextTask(t, a).prioSave == t.prioSave
    ensures NextTask(t, a).prio == if a.Schedule? && a.granted then a.prio else t.prio
  {
  }

  // ------------------------------------------------------ from expiry to refill

  /** The task waits in the background for its refill, the old priority p saved. */
  predicate Waiting(t: Task, p: int) {
    && t.policy == FixedPriority && t.linked && t.prio == PRIO_BACKGROUND
    && t.prioSave == p && t.reserved && !t.accounting
  }

  /** It is in the background, and either p is no longer saved or it will be overwritten before a refill
  can ask for it. */
  predicate Forgotten(t: Task, p: int) {
    && t.policy == FixedPriority && t.prio == PRIO_BACKGROUND
    && (t.prioSave == p ==> !t.accounting && !(t.linked && t.reserved))
  }

  /** The step gives task r a priority otherwise than by the refill's request: from outside, at once when the
  refill is due, or as the task goes to sleep. */
  predicate Answers(a: Step, r: nat) {
    a.r == r && (a.Schedule? || (a.Spent? && a.late) || a.Suspend? || a.Resume?)
  }

  /** The step ends the job or the reserve of task r. */
  predicate Ends(a: Step, r: nat) {
    a.r == r && (a.Complete? || a.ReserveStop?)
  }

  lemma WaitingStep(t: Task, a: Step, r: nat, p: int)
    requires a.r == r && !Answers(a, r) && (a.Start? ==> !t.linked)
    ensures Waiting(t, p) && !Ends(a, r) ==> Waiting(NextTask(t, a), p)
    ensures p != PRIO_BACKGROUND && Waiting(t, p) && Ends(a, r) ==> Forgotten(NextTask(t, a), p)
    ensures p != PRIO_BACKGROUND && Forgotten(t, p) ==> Forgotten(NextTask(t, a), p)
  {
  }

  /** Along a run the task goes on waiting until a step ends its job or reserve, and is then forgotten. */
  lemma {:induction false} WaitingRun(s: Core, r: nat, p: int, run: seq<Step>)
    requires Ready(s) && AllowedRun(s, run) && r < |s.tasks|
    requires forall a | a in run :: !Answers(a, r)
    ensures r < |After(s, run).tasks|
    ensures Waiting(s.tasks[r], p) && (forall a | a in run :: !Ends(a, r)) ==> Waiting(After(s, run).tasks[r], p)
    ensures p != PRIO_BACKGROUND && Forgotten(s.tasks[r], p) ==> Forgotten(After(s, run).tasks[r], p)
    ensures p != PRIO_BACKGROUND && Waiting(s.tasks[r], p) && (exists a | a in run :: Ends(a, r))
      ==> Forgotten(After(s, run).tasks[r], p)
    decreases run
  {
    hide NextTask, Apply, Ready, Waiting, Forgotten;
    if run != [] {
      var a, rest := run[0], run[1..];
      assert run == [a] + rest;
      StepKeeps(s, a);
      StepChanges(s, a);
      if a.r == r {
        WaitingStep(s.tasks[r], a, r, p);
      }
      WaitingRun(Apply(s, a), r, p, rest);
    }
  }

  lemma ExpiryWaits(s: Core, r: nat)
    requires Ready(s) && r < |s.tasks| && Capped(s.tasks[r])
    ensures Ready(Apply(s, Spent(r, false, true)))
    ensures Apply(s, Spent(r, false, true)).tasks
         == s.tasks[r := s.tasks[r].(prio := PRIO_BACKGROUND, accounting := false)]
  {
    StepKeeps(s, Spent(r, false, true));
    StepChanges(s, Spent(r, false, true));
  }

  /** Exactly when a task that used its reserve up gets its priority back: whatever happens between the
  expiry and the refill, short of an answer from outside, the refill asks for the priority the task had if and
  only if that one was saved and neither the job nor the reserve ended in between. */
  lemma RefillIff(s: Core, r: nat, run: seq<Step>)
    requires Ready(s) && r < |s.tasks| && Capped(s.tasks[r]) && s.tasks[r].prio != PRIO_BACKGROUND
    requires Ready(Apply(s, Spent(r, false, true))) && AllowedRun(Apply(s, Spent(r, false, true)), run)
    requires Allowed(After(Apply(s, Spent(r, false, true)), run), Refill(r))
    requires forall a | a in run :: !Answers(a, r)
    ensures Request(After(Apply(s, Spent(r, false, true)), run).tasks[r]) == s.tasks[r].prio
      <==> s.tasks[r].prioSave == s.tasks[r].prio && forall a | a in run :: !Ends(a, r)
  {
    hide AllowedRun, After, Apply;
    ExpiryWaits(s, r);
    assert Listed(s, r);
    WaitingRun(Apply(s, Spent(r, false, true)), r, s.tasks[r].prio, run);
  }

  /** A priority granted while time is charged is not saved: after the expiry the refill asks for the one
  before it. */
  lemma GrantForgets(s: Core, r: nat, p: int) returns (given: Core, spent: Core)
    requires Ready(s) && r < |s.tasks| && Charged(s.tasks[r])
    requires ValidPrio(p) && p != s.tasks[r].prio && p != PRIO_BACKGROUND
    ensures given == Apply(s, Schedule(r, FixedPriority, p, true)) && Ready(given)
    ensures r < |given.tasks| && given.tasks[r].prio == p && Allowed(given, Spent(r, false, true))
    ensures spent == Apply(given, Spent(r, false, true)) && Ready(spent) && r < |spent.tasks|
    ensures Request(spent.tasks[r]) == s.tasks[r].prio != p
  {
    hide Invariant, Shaped, Counted, Apply;
    StepKeeps(s, Schedule(r, FixedPriority, p, true));
    StepChanges(s, Schedule(r, FixedPriority, p, true));
    given := Apply(s, Schedule(r, FixedPriority, p, true));
    ExpiryWaits(given, r);
    spent := Apply(given, Spent(r, false, true));
  }

  /** A job that completes in the background is dequeued before its refill, which then asks for nothing;
  the next job starts in the background and saves that priority. */
  lemma CompletionForgets(s: Core, r: nat) returns (spent: Core, done: Core, again: Core)
    requires Ready(s) && r < |s.tasks| && Capped(s.tasks[r])
    ensures spent == Apply(s, Spent(r, false, true))
    ensures Ready(spent) && Allowed(spent, Complete(r)) && done == Apply(spent, Complete(r))
    ensures Ready(done) && Allowed(done, Start(r)) && again == Apply(done, Start(r))
    ensures r < |done.tasks| == |again.tasks|
    ensures Request(done.tasks[r]) == 0 && Request(again.tasks[r]) == PRIO_BACKGROUND
  {
    hide Invariant, Shaped, Counted, Apply;
    LinkedIsListed(s, r);
    ExpiryWaits(s, r);
    StepChanges(s, Spent(r, false, true));
    spent := Apply(s, Spent(r, false, true));
    StepKeeps(spent, Complete(r));
    StepChanges(spent, Complete(r));
    done := Apply(spent, Complete(r));
    StepKeeps(done, Start(r));
    StepChanges(done, Start(r));
    again := Apply(done, Start(r));
  }

  /** Changing queue on one CPU: out of the old one, to the end of the new one, all others untouched. */
  lemma MovedQueues(s: Core, r: nat, t: Task, prio: int, d: nat, i: nat)
    requires Ready(s) && r < |s.tasks| && s.tasks[r].linked && Listed(s, r)
    requires t.policy == FixedPriority && ValidPrio(prio) && prio != s.tasks[r].prio && d < |s.cpus| && i < PRIO_MAX
    ensures var c, from := s.tasks[r].cpu, s.tasks[r].prio;
      var n := Moved(s, r, from, t, prio, c);
      && |n.cpus| == |s.cpus| && |n.cpus[d].queue| == PRIO_MAX
      && n.cpus[d].queue[i] ==
         (if d == c && i == PrioIndex(prio) then s.cpus[d].queue[i] + [r]
          else if d == c && i == PrioIndex(from) then Removed(s.cpus[d].queue[i], r)
          else s.cpus[d].queue[i])
  {
    hide Invariant, Counted;
    var q := s.cpus[s.tasks[r].cpu].queue[PrioIndex(prio)];
    assert Inserted(q, |q|, r) == q + [r];
  }

  /** An answer that gives another priority puts the task at the end of that queue. */
  lemma AnswerQueues(s: Core, r: nat, prio: int, d: nat, i: nat)
    requires Ready(s) && r < |s.tasks| && s.tasks[r].linked && s.tasks[r].policy == FixedPriority
    requires ValidPrio(prio) && prio != s.tasks[r].prio && d < |s.cpus| && i < PRIO_MAX
    ensures Listed(s, r)
    ensures var t, n := s.tasks[r], Apply(s, Schedule(r, FixedPriority, prio, true));
      && |n.cpus| == |s.cpus| && |n.cpus[d].queue| == PRIO_MAX
      && n.tasks == s.tasks[r := t.(prio := prio)]
      && n.cpus[d].queue[i] ==
         (if d == t.cpu && i == PrioIndex(prio) then s.cpus[d].queue[i] + [r]
          else if d == t.cpu && i == PrioIndex(t.prio) then Removed(s.cpus[d].queue[i], r)
          else s.cpus[d].queue[i])
  {
    hide Invariant, Counted, Shaped, Moved;
    LinkedIsListed(s, r);
    StepChanges(s, Schedule(r, FixedPriority, prio, true));
    MovedQueues(s, r, s.tasks[r].(prio := prio, linked := false), prio, d, i);
  }

  lemma RemovedLast(q: seq<nat>, r: nat)
    requires r !in q
    ensures Removed(q + [r], r) == q
  {
    assert IndexOf(q + [r], r) == |q|;
  }

  function Without(q: seq<nat>, r: nat): seq<nat> {
    if r in q then Removed(q, r) else q
  }

  /** An answer that gives the priority the task has changes nothing. */
  lemma AnswerSame(s: Core, r: nat)
    requires Ready(s) && r < |s.tasks| && s.tasks[r].linked && s.tasks[r].policy == FixedPriority
    ensures ValidPrio(s.tasks[r].prio) && Apply(s, Schedule(r, FixedPriority, s.tasks[r].prio, true)) == s
  {
    hide Invariant, Shaped, Moved;
    LinkedIsListed(s, r);
  }

  /** A fixed-priority task whose reserve runs out and is refilled at once ends at the end of the queue of its
  saved priority: its own, if that is the one it had. All other queues are as before, but without it. */
  lemma ExpireThenRestore(s: Core, r: nat, d: nat, i: nat) returns (spent: Core, n: Core)
    requires Ready(s) && r < |s.tasks| && Capped(s.tasks[r]) && s.tasks[r].prio != PRIO_BACKGROUND
    requires ValidPrio(s.tasks[r].prioSave) && d < |s.cpus| && i < PRIO_MAX
    ensures spent == Apply(s, Spent(r, false, true)) && r < |spent.tasks|
    ensures Ready(spent) && Request(spent.tasks[r]) == s.tasks[r].prioSave
    ensures n == Apply(spent, Schedule(r, FixedPriority, Request(spent.tasks[r]), true))
    ensures n.tasks == s.tasks[r := s.tasks[r].(prio := s.tasks[r].prioSave, accounting := false)]
    ensures |n.cpus| == |s.cpus| && |s.cpus[d].queue| == |n.cpus[d].queue| == PRIO_MAX
    ensures n.cpus[d].queue[i] == Without(s.cpus[d].queue[i], r)
         + if d == s.tasks[r].cpu && i == PrioIndex(s.tasks[r].prioSave) then [r] else []
  {
    hide Invariant, Counted, Apply, Removed;
    var q := s.tasks[r].prioSave;
    LinkedIsListed(s, r);
    ExpiryWaits(s, r);
    SpentQueues(s, r, d, i);
    spent := Apply(s, Spent(r, false, true));
    n := Apply(spent, Schedule(r, FixedPriority, q, true));
    if q == PRIO_BACKGROUND {
      AnswerSame(spent, r);
    } else {
      AnswerQueues(spent, r, q, d, i);
    }
    if r !in s.cpus[d].queue[i] {
      RemovedLast(s.cpus[d].queue[i], r);
    } else {
      InOwnQueue(s, r, d, i);
    }
  }

  /** With other steps in between: as long as none of them ends the job or the reserve, the answer to the
  refill's request puts the task at the end of the queue of its saved priority, on the CPU it is on then. */
  lemma RefillRestores(s: Core, r: nat, run: seq<Step>) returns (last: Core, n: Core)
    requires Ready(s) && r < |s.tasks| && Capped(s.tasks[r])
    requires ValidPrio(s.tasks[r].prioSave) && s.tasks[r].prioSave != PRIO_BACKGROUND
    requires Ready(Apply(s, Spent(r, false, true))) && AllowedRun(Apply(s, Spent(r, false, true)), run)
    requires forall a | a in run :: !Answers(a, r) && !Ends(a, r)
    ensures last == After(Apply(s, Spent(r, false, true)), run)
    ensures r < |last.tasks| && Request(last.tasks[r]) == s.tasks[r].prioSave
    ensures n == Apply(last, Schedule(r, FixedPriority, Request(last.tasks[r]), true))
    ensures n.tasks == last.tasks[r := last.tasks[r].(prio := s.tasks[r].prioSave)]
    ensures var c, i := last.tasks[r].cpu, PrioIndex(s.tasks[r].prioSave);
      && c < |last.cpus| == |n.cpus| && 0 <= i < |last.cpus[c].queue| == |n.cpus[c].queue|
      && n.cpus[c].queue[i] == last.cpus[c].queue[i] + [r]
  {
    hide AllowedRun, After, Apply, Invariant, Counted;
    LinkedIsListed(s, r);
    ExpiryWaits(s, r);
    var q := s.tasks[r].prioSave;
    WaitingRun(Apply(s, Spent(r, false, true)), r, q, run);
    last := After(Apply(s, Spent(r, false, true)), run);
    LinkedIsListed(last, r);
    AnswerQueues(last, r, q, last.tasks[r].cpu, PrioIndex(q));
    n := Apply(last, Schedule(r, FixedPriority, q, true));
  }

  /** A task that goes to sleep comes back with its saved priority, whatever it had: at the end of the queue of
  that one. */
  lemma SleepPutsBack(s: Core, r: nat) returns (asleep: Core, awake: Core)
    requires Ready(s) && r < |s.tasks| && s.tasks[r].linked && s.tasks[r].policy == FixedPriority
    requires ValidPrio(s.tasks[r].prioSave)
    ensures Allowed(s, Suspend(r, true)) && asleep == Apply(s, Suspend(r, true)) && Ready(asleep)
    ensures Allowed(asleep, Resume(r)) && awake == Apply(asleep, Resume(r)) && Ready(awake)
    ensures awake.tasks == s.tasks[r := s.tasks[r].(prio := s.tasks[r].prioSave)]
    ensures var c, i := s.tasks[r].cpu, PrioIndex(s.tasks[r].prioSave);
      && c < |asleep.cpus| == |awake.cpus| && 0 <= i < |asleep.cpus[c].queue| == |awake.cpus[c].queue|
      && r !in asleep.cpus[c].queue[i] && awake.cpus[c].queue[i] == asleep.cpus[c].queue[i] + [r]
  {
    hide Invariant, Shaped, Counted, Apply;
    LinkedIsListed(s, r);
    StepKeeps(s, Suspend(r, true));
    StepChanges(s, Suspend(r, true));
    asleep := Apply(s, Suspend(r, true));
    StepKeeps(asleep, Resume(r));
    StepChanges(asleep, Resume(r));
    awake := Apply(asleep, Resume(r));
    ResumeQueue(asleep, r);
    UnlinkedNowhere(asleep, r, s.tasks[r].cpu, PrioIndex(s.tasks[r].prioSave));
  }

  lemma ResumeQueue(s: Core, r: nat)
    requires Ready(s) && Allowed(s, Resume(r)) && s.tasks[r].policy == FixedPriority
    ensures var c, i, n := s.tasks[r].cpu, PrioIndex(s.tasks[r].prio), Apply(s, Resume(r));
      && c < |s.cpus| == |n.cpus| && 0 <= i < |s.cpus[c].queue| == |n.cpus[c].queue|
      && n.cpus[c].queue[i] == s.cpus[c].queue[i] + [r]
  {
    hide Invariant, Counted;
    var q := s.cpus[s.tasks[r].cpu].queue[PrioIndex(s.tasks[r].prio)];
    assert Inserted(q, |q|, r) == q + [r];
  }

  lemma SpentQueues(s: Core, r: nat, d: nat, i: nat)
    requires Ready(s) && r < |s.tasks| && Capped(s.tasks[r]) && s.tasks[r].prio != PRIO_BACKGROUND
    requires d < |s.cpus| && i < PRIO_MAX
    ensures Listed(s, r)
    ensures var t, n := s.tasks[r], Apply(s, Spent(r, false, true));
      && |n.cpus| == |s.cpus| && |n.cpus[d].queue| == PRIO_MAX
      && n.cpus[d].queue[i] ==
         (if d == t.cpu && i == PrioIndex(PRIO_BACKGROUND) then s.cpus[d].queue[i] + [r]
          else if d == t.cpu && i == PrioIndex(t.prio) then Removed(s.cpus[d].queue[i], r)
          else s.cpus[d].queue[i])
  {
    hide Invariant, Counted, Shaped, Moved;
    LinkedIsListed(s, r);
    var t := Unaccounted(s.tasks[r]);
    var u := Retask(s, r, t);
    SideChanges(s, r, t);
    InvariantShapes(u);
    LinkedIsListed(u, r);
    MovedQueues(u, r, t.(prio := PRIO_BACKGROUND, linked := false), PRIO_BACKGROUND, d, i);
  }

  lemma InOwnQueue(s: Core, r: nat, c: nat, i: nat)
    requires Invariant(s) && r < |s.tasks| && c < |s.cpus| && i < PRIO_MAX && r in s.cpus[c].queue[i]
    ensures s.tasks[r].linked && s.tasks[r].cpu == c && PrioIndex(s.tasks[r].prio) == i
  {
    assert QueueOk(s.tasks, s.fed, s.cpus[c].queue[i], c, i);
  }
}
