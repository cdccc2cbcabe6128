/** The active queues of the scheduler core as values: one priority array per CPU, the task table that
the queues index, and the steps that move a task in and out. */
module ActiveQueue {
  import opened Bitops
  import opened Sequences

  const PRIO_MAX := 98
  const PRIO_BACKGROUND := 2
  const PRIO_EDF := 3
  const BITMAP_WORDS := 2

  datatype Policy = FixedPriority | EarliestDeadline

  /** `linked` says whether the task's list entry is in a queue, `reserved` whether it has a CPU reserve,
  and `accounting` whether time is being charged to that reserve. */
  datatype Task = Task(prio: int, prioSave: int, cpu: nat, deadline: int, policy: Policy, linked: bool,
                       reserved: bool, accounting: bool)

  datatype PrioArray = PrioArray(bitmap: seq<bv64>, queue: seq<seq<nat>>, nrTasks: int)

  /** `fed` holds the tasks that the deadline class enqueued last. */
  datatype Core = Core(tasks: seq<Task>, cpus: seq<PrioArray>, fed: set<nat>)

  predicate ValidPrio(prio: int) {
    1 <= prio <= PRIO_MAX
  }

  function PrioIndex(prio: int): int {
    PRIO_MAX - prio
  }

  function Total(queue: seq<seq<nat>>): nat {
    if queue == [] then 0 else |queue[0]| + Total(queue[1..])
  }

  /** The bitmap marks the non-empty queues, and the counter is their total length. */
  predicate Counted(a: PrioArray) {
    && |a.bitmap| == BITMAP_WORDS && |a.queue| == PRIO_MAX
    && (forall i :: 0 <= i < BITMAP_WORDS * BITS_PER_LONG ==> (IsSet(a.bitmap, i) <==> i < PRIO_MAX && a.queue[i] != []))
    && a.nrTasks == Total(a.queue)
  }

  predicate Member(tasks: seq<Task>, r: nat, c: nat, i: int) {
    r < |tasks| && tasks[r].linked && tasks[r].cpu == c && PrioIndex(tasks[r].prio) == i
  }

  predicate AllMembers(tasks: seq<Task>, q: seq<nat>, c: nat, i: int) {
    forall k :: 0 <= k < |q| ==> Member(tasks, q[k], c, i)
  }

  /** Nothing in front of a task that the deadline class enqueued is due later than that task. */
  predicate DeadlineOrdered(tasks: seq<Task>, fed: set<nat>, q: seq<nat>)
    requires forall k :: 0 <= k < |q| ==> q[k] < |tasks|
  {
    forall j, k :: 0 <= j < k < |q| && q[k] in fed ==> tasks[q[j]].deadline <= tasks[q[k]].deadline
  }

  predicate QueueOk(tasks: seq<Task>, fed: set<nat>, q: seq<nat>, c: nat, i: int) {
    AllMembers(tasks, q, c, i) && Distinct(q) && DeadlineOrdered(tasks, fed, q)
  }

  predicate Listed(s: Core, r: nat)
    requires r < |s.tasks|
  {
    var t := s.tasks[r];
    && ValidPrio(t.prio) && t.cpu < |s.cpus| && |s.cpus[t.cpu].queue| == PRIO_MAX
    && r in s.cpus[t.cpu].queue[PrioIndex(t.prio)]
  }

  predicate Invariant(s: Core) {
    && (forall c :: 0 <= c < |s.cpus| ==> Counted(s.cpus[c]))
    && (forall c, i :: 0 <= c < |s.cpus| && 0 <= i < PRIO_MAX ==> QueueOk(s.tasks, s.fed, s.cpus[c].queue[i], c, i))
    && (forall r :: 0 <= r < |s.tasks| && s.tasks[r].linked ==> Listed(s, r))
  }

  /** The position the deadline class inserts at: before the first task that is due later. */
  function DeadlineSlot(tasks: seq<Task>, q: seq<nat>, deadline: int): (k: nat)
    requires forall k :: 0 <= k < |q| ==> q[k] < |tasks|
    ensures IsSlot(tasks, q, deadline, k)
  {
    if q == [] || deadline < tasks[q[0]].deadline then 0
    else 1 + DeadlineSlot(tasks, q[1..], deadline)
  }

  predicate IsSlot(tasks: seq<Task>, q: seq<nat>, deadline: int, k: nat)
    requires forall k :: 0 <= k < |q| ==> q[k] < |tasks|
  {
    && k <= |q|
    && (forall j :: 0 <= j < k ==> tasks[q[j]].deadline <= deadline)
    && (k < |q| ==> deadline < tasks[q[k]].deadline)
  }

  function Removed(q: seq<nat>, r: nat): seq<nat>
    requires r in q
  {
    Deleted(q, IndexOf(q, r))
  }

  lemma {:induction false} TotalUpdated(queue: seq<seq<nat>>, i: nat, q: seq<nat>)
    requires i < |queue|
    ensures Total(queue[i := q]) == Total(queue) - |queue[i]| + |q|
  {
    if i > 0 {
      assert queue[i := q][1..] == queue[1..][i - 1 := q];
      TotalUpdated(queue[1..], i - 1, q);
    } else {
      assert queue[i := q][1..] == queue[1..];
    }
  }

  /** A task joins queue i, which becomes `q`; or leaves it. */
  function Grown(a: PrioArray, i: nat, q: seq<nat>): PrioArray
    requires |a.bitmap| == BITMAP_WORDS && i < |a.queue| == PRIO_MAX
  {
    PrioArray(SetBit(a.bitmap, i), a.queue[i := q], a.nrTasks + 1)
  }

  function Shrunk(a: PrioArray, i: nat, q: seq<nat>): PrioArray
    requires |a.bitmap| == BITMAP_WORDS && i < |a.queue| == PRIO_MAX
  {
    PrioArray(if q == [] then ClearBit(a.bitmap, i) else a.bitmap, a.queue[i := q], a.nrTasks - 1)
  }

  lemma GrownCounted(a: PrioArray, i: nat, q: seq<nat>)
    requires Counted(a) && i < PRIO_MAX && |q| == |a.queue[i]| + 1
    ensures Counted(Grown(a, i, q))
  {
    TotalUpdated(a.queue, i, q);
    var b := Grown(a, i, q);
    forall k | 0 <= k < BITMAP_WORDS * BITS_PER_LONG
      ensures IsSet(b.bitmap, k) <==> k < PRIO_MAX && b.queue[k] != []
    {
      BitSwitched(a.bitmap, i, k);
    }
  }

  lemma ShrunkCounted(a: PrioArray, i: nat, q: seq<nat>)
    requires Counted(a) && i < PRIO_MAX && |q| + 1 == |a.queue[i]|
    ensures Counted(Shrunk(a, i, q))
  {
    TotalUpdated(a.queue, i, q);
    var b := Shrunk(a, i, q);
    forall k | 0 <= k < BITMAP_WORDS * BITS_PER_LONG
      ensures IsSet(b.bitmap, k) <==> k < PRIO_MAX && b.queue[k] != []
    {
      BitSwitched(a.bitmap, i, k);
    }
  }

  predicate Shaped(s: Core) {
    && (forall c :: 0 <= c < |s.cpus| ==> |s.cpus[c].bitmap| == BITMAP_WORDS && |s.cpus[c].queue| == PRIO_MAX)
    && (forall c, i, k :: 0 <= c < |s.cpus| && 0 <= i < PRIO_MAX && 0 <= k < |s.cpus[c].queue[i]|
          ==> s.cpus[c].queue[i][k] < |s.tasks|)
  }

  function Enqueue(s: Core, r: nat, prio: int, c: nat): Core
    requires Shaped(s) && r < |s.tasks| && c < |s.cpus| && ValidPrio(prio)
  {
    var t, i := s.tasks[r], PrioIndex(prio);
    var q := s.cpus[c].queue[i];
    var edf := t.policy == EarliestDeadline;
    var k := if edf then DeadlineSlot(s.tasks, q, t.deadline) else |q|;
    Core(s.tasks[r := t.(linked := true, prio := if edf then prio else t.prio)],
         s.cpus[c := Grown(s.cpus[c], i, Inserted(q, k, r))],
         if edf then s.fed + {r} else s.fed - {r})
  }

  function Dequeue(s: Core, r: nat, prio: int, c: nat): Core
    requires Shaped(s) && r < |s.tasks| && c < |s.cpus| && ValidPrio(prio)
    requires r in s.cpus[c].queue[PrioIndex(prio)]
  {
    var i := PrioIndex(prio);
    s.(tasks := s.tasks[r := s.tasks[r].(linked := false)],
       cpus := s.cpus[c := Shrunk(s.cpus[c], i, Removed(s.cpus[c].queue[i], r))])
  }

  /** What a queue not holding r says does not depend on r. */
  lemma QueueStays(tasks: seq<Task>, fed: set<nat>, q: seq<nat>, c: nat, i: int, r: nat, t: Task, fed': set<nat>)
    requires QueueOk(tasks, fed, q, c, i) && r < |tasks| && r !in q
    requires forall x :: x != r ==> (x in fed <==> x in fed')
    ensures QueueOk(tasks[r := t], fed', q, c, i)
  {
    assert forall k :: 0 <= k < |q| ==> q[k] != r;
  }

  lemma MembersJoined(tasks: seq<Task>, q: seq<nat>, c: nat, i: int, r: nat, k: nat)
    requires AllMembers(tasks, q, c, i) && Distinct(q) && r !in q && Member(tasks, r, c, i) && k <= |q|
    ensures AllMembers(tasks, Inserted(q, k, r), c, i) && Distinct(Inserted(q, k, r))
  {
    var p := Inserted(q, k, r);
    forall j | 0 <= j < |p| ensures Member(tasks, p[j], c, i) {
      InsertedAt(q, k, r, j);
    }
    forall j, l | 0 <= j < l < |p| ensures p[j] != p[l] {
      InsertedAt(q, k, r, j);
      InsertedAt(q, k, r, l);
    }
  }

  lemma OrderJoined(tasks: seq<Task>, fed: set<nat>, q: seq<nat>, r: nat, k: nat)
    requires forall j :: 0 <= j < |q| ==> q[j] < |tasks|
    requires DeadlineOrdered(tasks, fed, q) && r < |tasks| && r !in q && k <= |q|
    requires r in fed ==> IsSlot(tasks, q, tasks[r].deadline, k)
    requires r !in fed ==> k == |q|
    requires forall j :: 0 <= j < |Inserted(q, k, r)| ==> Inserted(q, k, r)[j] < |tasks|
    ensures DeadlineOrdered(tasks, fed, Inserted(q, k, r))
  {
    var p: seq<nat> := Inserted(q, k, r);
    forall j, l | 0 <= j < l < |p| && p[l] in fed
      ensures tasks[p[j]].deadline <= tasks[p[l]].deadline
    {
      InsertedAt(q, k, r, 0);
      InsertedAt(q, k, r, j);
      InsertedAt(q, k, r, l);
      if j == k && l - 1 > k {
        assert tasks[q[k]].deadline <= tasks[q[l - 1]].deadline;
      }
    }
  }

  lemma QueueJoined(tasks: seq<Task>, fed: set<nat>, q: seq<nat>, c: nat, i: int, r: nat, k: nat)
    requires QueueOk(tasks, fed, q, c, i) && r !in q && Member(tasks, r, c, i) && k <= |q|
    requires r in fed ==> IsSlot(tasks, q, tasks[r].deadline, k)
    requires r !in fed ==> k == |q|
    ensures QueueOk(tasks, fed, Inserted(q, k, r), c, i)
  {
    hide IsSlot, DeadlineOrdered;
    MembersJoined(tasks, q, c, i, r, k);
    OrderJoined(tasks, fed, q, r, k);
  }

  lemma QueueLeft(tasks: seq<Task>, fed: set<nat>, q: seq<nat>, c: nat, i: int, r: nat)
    requires QueueOk(tasks, fed, q, c, i) && r in q
    ensures QueueOk(tasks, fed, Removed(q, r), c, i) && r !in Removed(q, r)
    ensures forall x :: x in q <==> x == r || x in Removed(q, r)
  {
    var k, p := IndexOf(q, r), Removed(q, r);
    assert forall j :: 0 <= j < |p| ==> p[j] == if j < k then q[j] else q[j + 1];
    forall x | x in q && x != r ensures x in p {
      var j := IndexOf(q, x);
      assert x == if j < k then p[j] else p[j - 1];
    }
  }

  lemma InvariantShapes(s: Core)
    requires Invariant(s)
    ensures Shaped(s)
  {
    forall c, i, k | 0 <= c < |s.cpus| && 0 <= i < PRIO_MAX && 0 <= k < |s.cpus[c].queue[i]|
      ensures s.cpus[c].queue[i][k] < |s.tasks|
    {
      assert QueueOk(s.tasks, s.fed, s.cpus[c].queue[i], c, i);
    }
  }

  lemma UnlinkedNowhere(s: Core, r: nat, c: nat, i: nat)
    requires Invariant(s) && r < |s.tasks| && !s.tasks[r].linked && c < |s.cpus| && i < PRIO_MAX
    ensures r !in s.cpus[c].queue[i]
  {
    assert QueueOk(s.tasks, s.fed, s.cpus[c].queue[i], c, i);
  }

  /** The enqueued task is at its own priority on its own CPU, and all that held before still holds. */
  lemma EnqueueKeeps(s: Core, r: nat, prio: int, c: nat)
    requires Invariant(s) && Shaped(s) && r < |s.tasks| && c < |s.cpus| && ValidPrio(prio)
    requires !s.tasks[r].linked && s.tasks[r].cpu == c
    requires s.tasks[r].policy == FixedPriority ==> s.tasks[r].prio == prio
    ensures Invariant(Enqueue(s, r, prio, c))
  {
    hide Counted, QueueOk;
    var n, at := Enqueue(s, r, prio, c), PrioIndex(prio);
    forall d | 0 <= d < |n.cpus| ensures Counted(n.cpus[d]) {
      if d == c {
        GrownCounted(s.cpus[c], at, n.cpus[c].queue[at]);
      }
    }
    forall d, i | 0 <= d < |n.cpus| && 0 <= i < PRIO_MAX
      ensures QueueOk(n.tasks, n.fed, n.cpus[d].queue[i], d, i)
    {
      EnqueuedQueue(s, r, prio, c, d, i);
    }
    forall x | 0 <= x < |n.tasks| && n.tasks[x].linked ensures Listed(n, x) {
      EnqueuedListed(s, r, prio, c, x);
    }
  }

  lemma EnqueuedQueue(s: Core, r: nat, prio: int, c: nat, d: nat, i: nat)
    requires Invariant(s) && Shaped(s) && r < |s.tasks| && c < |s.cpus| && ValidPrio(prio)
    requires !s.tasks[r].linked && s.tasks[r].cpu == c
    requires s.tasks[r].policy == FixedPriority ==> s.tasks[r].prio == prio
    requires d < |s.cpus| && i < PRIO_MAX
    ensures var n := Enqueue(s, r, prio, c); QueueOk(n.tasks, n.fed, n.cpus[d].queue[i], d, i)
  {
    hide Counted, AllMembers, Distinct, DeadlineOrdered, Listed;
    var n, q := Enqueue(s, r, prio, c), s.cpus[d].queue[i];
    UnlinkedNowhere(s, r, d, i);
    QueueStays(s.tasks, s.fed, q, d, i, r, n.tasks[r], n.fed);
    if d == c && i == PrioIndex(prio) {
      var k := if r in n.fed then DeadlineSlot(s.tasks, q, s.tasks[r].deadline) else |q|;
      QueueJoined(n.tasks, n.fed, q, d, i, r, k);
    }
  }

  lemma EnqueuedListed(s: Core, r: nat, prio: int, c: nat, x: nat)
    requires Invariant(s) && Shaped(s) && r < |s.tasks| && c < |s.cpus| && ValidPrio(prio)
    requires !s.tasks[r].linked && s.tasks[r].cpu == c
    requires s.tasks[r].policy == FixedPriority ==> s.tasks[r].prio == prio
    requires x < |s.tasks| && (x == r || s.tasks[x].linked)
    ensures Listed(Enqueue(s, r, prio, c), x)
  {
    hide Counted, QueueOk, Inserted;
    var q := s.cpus[c].queue[PrioIndex(prio)];
    var edf := s.tasks[r].policy == EarliestDeadline;
    InsertedMembers(q, if edf then DeadlineSlot(s.tasks, q, s.tasks[r].deadline) else |q|, r);
    assert x != r ==> Listed(s, x);
  }

  lemma DequeueKeeps(s: Core, r: nat)
    requires Invariant(s) && Shaped(s) && r < |s.tasks| && s.tasks[r].linked
    ensures Listed(s, r)
    ensures Invariant(Dequeue(s, r, s.tasks[r].prio, s.tasks[r].cpu))
  {
    hide Counted, QueueOk;
    assert Listed(s, r);
    var c, at := s.tasks[r].cpu, PrioIndex(s.tasks[r].prio);
    var n := Dequeue(s, r, s.tasks[r].prio, c);
    assert Counted(s.cpus[c]);
    ShrunkCounted(s.cpus[c], at, n.cpus[c].queue[at]);
    forall d, i | 0 <= d < |n.cpus| && 0 <= i < PRIO_MAX
      ensures QueueOk(n.tasks, n.fed, n.cpus[d].queue[i], d, i)
    {
      DequeuedQueue(s, r, d, i);
    }
    forall x | 0 <= x < |n.tasks| && n.tasks[x].linked ensures Listed(n, x) {
      DequeuedListed(s, r, x);
    }
  }

  lemma DequeuedQueue(s: Core, r: nat, d: nat, i: nat)
    requires Invariant(s) && Shaped(s) && r < |s.tasks| && s.tasks[r].linked && Listed(s, r)
    requires d < |s.cpus| && i < PRIO_MAX
    ensures var n := Dequeue(s, r, s.tasks[r].prio, s.tasks[r].cpu);
      QueueOk(n.tasks, n.fed, n.cpus[d].queue[i], d, i)
  {
    hide Counted, Distinct, DeadlineOrdered;
    var n, q := Dequeue(s, r, s.tasks[r].prio, s.tasks[r].cpu), s.cpus[d].queue[i];
    assert QueueOk(s.tasks, s.fed, q, d, i);
    if r in q {
      QueueLeft(s.tasks, s.fed, q, d, i, r);
      QueueStays(s.tasks, s.fed, Removed(q, r), d, i, r, n.tasks[r], n.fed);
    } else {
      QueueStays(s.tasks, s.fed, q, d, i, r, n.tasks[r], n.fed);
    }
  }

  lemma DequeuedListed(s: Core, r: nat, x: nat)
    requires Invariant(s) && Shaped(s) && r < |s.tasks| && s.tasks[r].linked && Listed(s, r)
    requires x < |s.tasks| && x != r && s.tasks[x].linked
    ensures Listed(Dequeue(s, r, s.tasks[r].prio, s.tasks[r].cpu), x)
  {
    hide Counted, QueueOk, Removed;
    assert Listed(s, x);
    var c, i := s.tasks[r].cpu, PrioIndex(s.tasks[r].prio);
    assert QueueOk(s.tasks, s.fed, s.cpus[c].queue[i], c, i);
    QueueLeft(s.tasks, s.fed, s.cpus[c].queue[i], c, i, r);
  }

  /** A task in no queue may change in any way. */
  lemma UnlinkedChanges(s: Core, r: nat, t: Task)
    requires Invariant(s) && r < |s.tasks| && !s.tasks[r].linked && !t.linked
    ensures Invariant(s.(tasks := s.tasks[r := t]))
  {
    hide Counted, QueueOk;
    InvariantShapes(s);
    var n := s.(tasks := s.tasks[r := t]);
    forall c, i | 0 <= c < |n.cpus| && 0 <= i < PRIO_MAX
      ensures QueueOk(n.tasks, n.fed, n.cpus[c].queue[i], c, i)
    {
      UnlinkedNowhere(s, r, c, i);
      QueueStays(s.tasks, s.fed, s.cpus[c].queue[i], c, i, r, t, s.fed);
    }
    forall x | 0 <= x < |n.tasks| && n.tasks[x].linked ensures Listed(n, x) {
      assert Listed(s, x);
    }
  }

  /** An active task is in exactly one place of all queues of all CPUs; an inactive one in none. */
  lemma OnePlace(s: Core, r: nat, c: nat, i: nat, k: nat)
    requires Invariant(s) && r < |s.tasks| && c < |s.cpus| && i < PRIO_MAX && k < |s.cpus[c].queue[i]|
    ensures s.cpus[c].queue[i][k] == r <==>
      && s.tasks[r].linked && c == s.tasks[r].cpu && i == PrioIndex(s.tasks[r].prio)
      && k == IndexOf(s.cpus[c].queue[i], r)
  {
    assert QueueOk(s.tasks, s.fed, s.cpus[c].queue[i], c, i);
    assert s.tasks[r].linked ==> Listed(s, r);
    if s.cpus[c].queue[i][k] == r {
      assert Member(s.tasks, s.cpus[c].queue[i][k], c, i);
    }
  }
}
