/** The scheduler core as it runs: the task table and the per-CPU priority arrays, updated in place.
Every locked section is one method call; the kernel's answers come in as parameters. */
module ReschCore {
  import opened Bitops
  import opened ActiveQueue
  import opened Reservation
  import opened Sequences
  import opened TaskSteps

  class Scheduler {
    const task: array<Task>
    const lo: array<PrioArray>
    ghost var fed: set<nat>

    /** Tasks that are in no queue yet, and an empty priority array for every CPU. */
    constructor (tasks: seq<Task>, cpus: nat)
      requires forall r | 0 <= r < |tasks| :: !tasks[r].linked
      ensures Ready(View()) && task[..] == tasks && lo.Length == cpus && fresh(task) && fresh(lo)
      ensures forall c | 0 <= c < cpus :: lo[c] == PrioArray([0, 0], seq(98, _ => []), 0)
    {
      var table := new Task[|tasks|](i requires 0 <= i < |tasks| => tasks[i]);
      var arrays := new PrioArray[cpus](_ => EmptyArray());
      task, lo, fed := table, arrays, {};
      new;
      assert task[..] == tasks;
      EmptyIsReady(View());
    }

    ghost function View(): Core
      reads this, task, lo
    {
      Core(task[..], lo[..], fed)
    }

    method FpEnqueueTask(rt: nat, prio: int, cpu: nat)
      requires Shaped(View()) && rt < task.Length && cpu < lo.Length && ValidPrio(prio)
      requires task[rt].policy == FixedPriority
      modifies task, lo, `fed
      ensures View() == old(Enqueue(View(), rt, prio, cpu))
    {
      var idx := PrioIndex(prio);
      var queue := lo[cpu].queue[idx];
      lo[cpu] := lo[cpu].(queue := lo[cpu].queue[idx := queue + [rt]]);
      lo[cpu] := lo[cpu].(bitmap := SetBit(lo[cpu].bitmap, idx));
      lo[cpu] := lo[cpu].(nrTasks := lo[cpu].nrTasks + 1);
      task[rt] := task[rt].(linked := true);
      fed := fed - {rt};
      assert queue + [rt] == Inserted(queue, |queue|, rt);
    }

    method EdfEnqueueTask(rt: nat, prio: int, cpu: nat)
      requires Shaped(View()) && rt < task.Length && cpu < lo.Length && ValidPrio(prio)
      requires task[rt].policy == EarliestDeadline
      modifies task, lo, `fed
      ensures View() == old(Enqueue(View(), rt, prio, cpu))
    {
      var idx := PrioIndex(prio);
      var queue := lo[cpu].queue[idx];
      var at := FindSlot(rt, queue);
      lo[cpu] := lo[cpu].(queue := lo[cpu].queue[idx := queue[..at] + [rt] + queue[at..]]);
      lo[cpu] := lo[cpu].(bitmap := SetBit(lo[cpu].bitmap, idx));
      lo[cpu] := lo[cpu].(nrTasks := lo[cpu].nrTasks + 1);
      task[rt] := task[rt].(linked := true, prio := prio);
      fed := fed + {rt};
    }

    method FindSlot(rt: nat, queue: seq<nat>) returns (at: nat)
      requires rt < task.Length && forall k :: 0 <= k < |queue| ==> queue[k] < task.Length
      ensures at == DeadlineSlot(task[..], queue, task[rt].deadline)
    {
      at := 0;
      while at < |queue|
        invariant at <= |queue|
        invariant DeadlineSlot(task[..], queue, task[rt].deadline)
               == at + DeadlineSlot(task[..], queue[at..], task[rt].deadline)
      {
        if task[rt].deadline < task[queue[at]].deadline {
          return;
        }
        assert queue[at..][1..] == queue[at + 1..];
        at := at + 1;
      }
    }

    method EnqueueTask(rt: nat, prio: int, cpu: nat)
      requires Shaped(View()) && rt < task.Length && cpu < lo.Length && ValidPrio(prio)
      modifies task, lo, `fed
      ensures View() == old(Enqueue(View(), rt, prio, cpu))
    {
      if task[rt].policy == EarliestDeadline {
        EdfEnqueueTask(rt, prio, cpu);
      } else {
        FpEnqueueTask(rt, prio, cpu);
      }
    }

    /** Both classes leave a queue in the same way. */
    method DequeueTask(rt: nat, prio: int, cpu: nat)
      requires Shaped(View()) && rt < task.Length && cpu < lo.Length && ValidPrio(prio)
      requires rt in lo[cpu].queue[PrioIndex(prio)]
      modifies task, lo
      ensures View() == old(Dequeue(View(), rt, prio, cpu))
    {
      var idx := PrioIndex(prio);
      var queue := lo[cpu].queue[idx];
      var k := IndexOf(queue, rt);
      lo[cpu] := lo[cpu].(queue := lo[cpu].queue[idx := queue[..k] + queue[k + 1..]]);
      task[rt] := task[rt].(linked := false);
      if lo[cpu].queue[idx] == [] {
        lo[cpu] := lo[cpu].(bitmap := ClearBit(lo[cpu].bitmap, idx));
      }
      lo[cpu] := lo[cpu].(nrTasks := lo[cpu].nrTasks - 1);
    }

    method RequeueTask(rt: nat, prioOld: int)
      requires Shaped(View()) && rt < task.Length && task[rt].cpu < lo.Length
      requires ValidPrio(prioOld) && ValidPrio(task[rt].prio)
      requires rt in lo[task[rt].cpu].queue[PrioIndex(prioOld)]
      modifies task, lo, `fed
      ensures View() == old(var t := task[rt]; Moved(View(), rt, prioOld, t.(linked := false), t.prio, t.cpu))
    {
      hide Shaped, Enqueue;
      var cpu, prioNew := task[rt].cpu, task[rt].prio;
      ghost var s, t := View(), task[rt];
      DequeueShapes(s, rt, prioOld, cpu);
      DequeueTask(rt, prioOld, cpu);
      assert Retask(View(), rt, t.(linked := false)).tasks == View().tasks;
      EnqueueTask(rt, prioNew, cpu);
    }

    method JobStart(rt: nat)
      requires Ready(View()) && Allowed(View(), Start(rt))
      modifies task, lo, `fed
      ensures View() == old(Apply(View(), Start(rt))) && Ready(View())
    {
      hide Invariant, Shaped, Grown, DeadlineSlot;
      StepKeeps(View(), Start(rt));
      if task[rt].policy == EarliestDeadline {
        EdfEnqueueTask(rt, PRIO_EDF, task[rt].cpu);
      } else {
        FpEnqueueTask(rt, task[rt].prio, task[rt].cpu);
      }
      if task[rt].reserved {
        StartAccount(rt);
      }
    }

    method JobComplete(rt: nat)
      requires Ready(View()) && Allowed(View(), Complete(rt))
      modifies task, lo
      ensures View() == old(Apply(View(), Complete(rt))) && Ready(View())
    {
      hide Invariant, Shaped;
      LinkedIsListed(View(), rt);
      StepKeeps(View(), Complete(rt));
      var cpu, prio := task[rt].cpu, task[rt].prio;
      DequeueTask(rt, prio, cpu);
      if task[rt].policy == EarliestDeadline {
        task[rt] := task[rt].(prio := PRIO_EDF);
      }
      if task[rt].reserved {
        StopAccount(rt);
      }
    }

    method StartAccount(rt: nat)
      requires rt < task.Length
      modifies task
      ensures View() == old(Retask(View(), rt, Accounted(task[rt])))
    {
      if !task[rt].accounting {
        if task[rt].policy == FixedPriority {
          task[rt] := task[rt].(prioSave := task[rt].prio);
        }
        task[rt] := task[rt].(accounting := true);
      } else {
        assert task[..] == old(task[..])[rt := task[rt]];
      }
    }

    method StopAccount(rt: nat)
      requires rt < task.Length
      modifies task
      ensures View() == old(Retask(View(), rt, Unaccounted(task[rt])))
    {
      if task[rt].accounting {
        task[rt] := task[rt].(accounting := false);
      } else {
        assert task[..] == old(task[..])[rt := task[rt]];
      }
    }

    /** `granted` is what the kernel answers. The new priority is in place before the task changes queue. */
    method ApplyPriority(rt: nat, prio: int, granted: bool) returns (ok: bool)
      requires Ready(View()) && rt < task.Length && (granted ==> ValidPrio(prio))
      modifies task, lo, `fed
      ensures ok == granted
      ensures old(task[rt].linked ==> Listed(View(), rt))
      ensures View() == old(SetScheduler(View(), rt, task[rt].policy, prio, granted)) && Ready(View())
    {
      hide Invariant, Shaped, Enqueue;
      LinkedIsListed(View(), rt);
      SetSchedulerKeeps(View(), rt, task[rt].policy, prio, granted);
      InvariantShapes(SetScheduler(View(), rt, task[rt].policy, prio, granted));
      ghost var s, t := View(), task[rt];
      assert Retask(s, rt, t) == s;
      var prioOld := task[rt].prio;
      if !granted {
        return false;
      }
      task[rt] := task[rt].(prio := prio);
      ok := true;
      if prioOld == prio {
        return;
      }
      if task[rt].linked {
        ChangedFirst(s, rt, prioOld, task[rt], task[rt].(linked := false), prio);
        assert View() == Retask(s, rt, task[rt]);
        RequeueTask(rt, prioOld);
      }
    }

    /** The caller may change the priority itself (`capable`); otherwise the request is left to the
    scheduler thread, which calls ApplyPriority later. */
    method SetPolicy(rt: nat, policy: Policy, prio: int, capable: bool, granted: bool) returns (ok: bool)
      requires Ready(View()) && rt < task.Length && (granted ==> ValidPrio(prio))
      modifies task, lo, `fed
      ensures ok == (!capable || granted)
      ensures View() == old(Apply(View(), Schedule(rt, policy, prio, capable && granted))) && Ready(View())
    {
      hide Invariant, Shaped, Enqueue;
      ghost var s := View();
      LinkedIsListed(s, rt);
      SideChanges(s, rt, task[rt].(policy := policy));
      InvariantShapes(Retask(s, rt, task[rt].(policy := policy)));
      if task[rt].policy != policy {
        task[rt] := task[rt].(policy := policy);
      }
      assert View() == Retask(s, rt, task[rt]);
      ok := true;
      if capable {
        SetSchedulerCommutes(s, rt, policy, prio, granted);
        ok := ApplyPriority(rt, prio, granted);
      }
    }

    method MigrateTask(rt: nat, cpuDst: nat)
      requires Ready(View()) && rt < task.Length && cpuDst < lo.Length
      modifies task, lo, `fed
      ensures View() == old(Apply(View(), Move(rt, cpuDst))) && Ready(View())
    {
      hide Invariant, Shaped, Enqueue, Migrate;
      StepKeeps(View(), Move(rt, cpuDst));
      LinkedIsListed(View(), rt);
      MoveToCpu(rt, cpuDst);
      assert task[..] == task[..][rt := task[rt]];
      if task[rt].accounting && task[rt].policy == FixedPriority {
        task[rt] := task[rt].(prioSave := task[rt].prio);
      }
    }

    method MoveToCpu(rt: nat, cpuDst: nat)
      requires Ready(View()) && rt < task.Length && cpuDst < lo.Length
      modifies task, lo, `fed
      ensures old(task[rt].linked ==> Listed(View(), rt))
      ensures View() == old(Migrate(View(), rt, cpuDst)) && Ready(View())
    {
      hide Invariant, Shaped, Enqueue;
      LinkedIsListed(View(), rt);
      MigrateKeeps(View(), rt, cpuDst);
      InvariantShapes(Migrate(View(), rt, cpuDst));
      var cpuSrc := task[rt].cpu;
      if cpuSrc != cpuDst {
        if task[rt].linked {
          DequeueShapes(View(), rt, task[rt].prio, cpuSrc);
          DequeueTask(rt, task[rt].prio, cpuSrc);
          RetaskShapes(View(), rt, task[rt].(cpu := cpuDst));
          assert Retask(View(), rt, task[rt].(cpu := cpuDst)).tasks == task[..][rt := task[rt].(cpu := cpuDst)];
          task[rt] := task[rt].(cpu := cpuDst);
          EnqueueTask(rt, task[rt].prio, cpuDst);
        } else {
          task[rt] := task[rt].(cpu := cpuDst);
        }
      }
    }

    /** The API call of a task that has used its reserve up: what it does depends on whether the next refill
    is already due. */
    method ReserveExpire(rt: nat, late: bool, granted: bool) returns (ok: bool)
      requires Ready(View()) && Allowed(View(), Spent(rt, late, granted))
      modifies task, lo, `fed
      ensures ok == old(task[rt].reserved)
      ensures View() == old(Apply(View(), Spent(rt, late, granted))) && Ready(View())
    {
      hide Invariant, Shaped, Enqueue;
      LinkedIsListed(View(), rt);
      StepKeeps(View(), Spent(rt, late, granted));
      ok := task[rt].reserved;
      if !ok {
        return;
      }
      SideChanges(View(), rt, Unaccounted(task[rt]));
      InvariantShapes(Retask(View(), rt, Unaccounted(task[rt])));
      StopAccount(rt);
      if late {
        var request := ClassReplenish(rt);
        if request != 0 {
          var _ := ApplyPriority(rt, request, granted);
        }
        StartAccount(rt);
      } else {
        ClassExpire(rt, granted);
      }
    }

    method ClassExpire(rt: nat, granted: bool)
      requires Ready(View()) && rt < task.Length
      modifies task, lo, `fed
      ensures old(task[rt].linked ==> Listed(View(), rt))
      ensures View() == old(Expire(View(), rt, granted)) && Ready(View())
    {
      hide Invariant, Shaped, Enqueue;
      LinkedIsListed(View(), rt);
      ExpireKeeps(View(), rt, granted);
      InvariantShapes(Expire(View(), rt, granted));
      if task[rt].policy == FixedPriority {
        var _ := ApplyPriority(rt, PRIO_BACKGROUND, granted);
      } else if task[rt].linked {
        ChangeQueue(rt, PRIO_BACKGROUND);
      }
    }

    /** What the deadline class does under the lock to change a task's queue. */
    method ChangeQueue(rt: nat, prio: int)
      requires Ready(View()) && rt < task.Length && ValidPrio(prio)
      requires task[rt].linked && Listed(View(), rt)
      modifies task, lo, `fed
      ensures View() == old(var t := task[rt]; Moved(View(), rt, t.prio, t.(linked := false), prio, t.cpu))
    {
      hide Invariant, Shaped, Enqueue;
      var cpu, prioOld := task[rt].cpu, task[rt].prio;
      ghost var t := task[rt].(linked := false);
      DequeueShapes(View(), rt, prioOld, cpu);
      DequeueTask(rt, prioOld, cpu);
      assert Retask(View(), rt, t).tasks == View().tasks;
      EnqueueTask(rt, prio, cpu);
    }

    /** For a fixed-priority task the answer is the priority it asks the scheduler thread for. */
    method ClassReplenish(rt: nat) returns (request: int)
      requires Ready(View()) && rt < task.Length
      modifies task, lo, `fed
      ensures old(task[rt].linked ==> Listed(View(), rt))
      ensures View() == old(Replenish(View(), rt)) && Ready(View())
      ensures request == old(Request(task[rt]))
    {
      hide Invariant, Shaped, Enqueue;
      LinkedIsListed(View(), rt);
      ReplenishKeeps(View(), rt);
      InvariantShapes(Replenish(View(), rt));
      request := 0;
      if task[rt].prio == PRIO_BACKGROUND && task[rt].linked {
        if task[rt].policy == FixedPriority {
          request := task[rt].prioSave;
        } else {
          ChangeQueue(rt, PRIO_EDF);
        }
      }
    }

    method ReserveStart(rt: nat) returns (ok: bool)
      requires Ready(View()) && rt < task.Length
      modifies task
      ensures ok == !old(task[rt].reserved)
      ensures View() == old(Apply(View(), TaskSteps.ReserveStart(rt))) && Ready(View())
    {
      hide Invariant, Shaped;
      StepKeeps(View(), TaskSteps.ReserveStart(rt));
      ok := !task[rt].reserved;
      if ok {
        task[rt] := task[rt].(reserved := true);
        StartAccount(rt);
      }
    }

    method ReserveStop(rt: nat) returns (ok: bool)
      requires Ready(View()) && rt < task.Length
      modifies task
      ensures ok == old(task[rt].reserved)
      ensures View() == old(Apply(View(), TaskSteps.ReserveStop(rt))) && Ready(View())
    {
      hide Invariant, Shaped;
      StepKeeps(View(), TaskSteps.ReserveStop(rt));
      ok := task[rt].reserved;
      if ok {
        StopAccount(rt);
        task[rt] := task[rt].(reserved := false);
      }
    }

    method JobSuspend(rt: nat, granted: bool)
      requires Ready(View()) && Allowed(View(), Suspend(rt, granted))
      modifies task, lo, `fed
      ensures View() == old(Apply(View(), Suspend(rt, granted))) && Ready(View())
    {
      hide Invariant, Shaped, Enqueue, Dequeue, SetScheduler;
      LinkedIsListed(View(), rt);
      StepKeeps(View(), Suspend(rt, granted));
      PutBackListed(View(), rt, granted);
      if task[rt].prio != task[rt].prioSave {
        var _ := ApplyPriority(rt, task[rt].prioSave, granted);
      }
      DequeueTask(rt, task[rt].prio, task[rt].cpu);
    }

    method JobResume(rt: nat)
      requires Ready(View()) && Allowed(View(), Resume(rt))
      modifies task, lo, `fed
      ensures View() == old(Apply(View(), Resume(rt))) && Ready(View())
    {
      hide Invariant, Shaped, Enqueue;
      StepKeeps(View(), Resume(rt));
      EnqueueTask(rt, task[rt].prio, task[rt].cpu);
    }

    method JobRelease(rt: nat, deadlineTime: int)
      requires Ready(View()) && Allowed(View(), Release(rt, deadlineTime))
      modifies task
      ensures View() == old(Apply(View(), Release(rt, deadlineTime))) && Ready(View())
    {
      hide Invariant, Shaped;
      StepKeeps(View(), Release(rt, deadlineTime));
      task[rt] := task[rt].(deadline := deadlineTime);
    }
  }
}
