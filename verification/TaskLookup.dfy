/** Looking tasks up in an active queue: the highest, the next, the previous and the n-th. All four
walk the bitmap; the reference they are measured against is the queues laid end to end. */
module TaskLookup {
  import opened Bitops
  import opened ActiveQueue
  import opened Sequences
  import opened Options

  function Flatten(queue: seq<seq<nat>>): seq<nat> {
    if queue == [] then [] else queue[0] + Flatten(queue[1..])
  }

  /** How many tasks are in the queues in front of queue i. */
  function Before(queue: seq<seq<nat>>, i: nat): nat
    requires i <= |queue|
  {
    if i == 0 then 0 else |queue[0]| + Before(queue[1..], i - 1)
  }

  function Nth(queue: seq<seq<nat>>, n: int): Option<nat> {
    if 0 <= n < |Flatten(queue)| then Some(Flatten(queue)[n]) else None
  }

  lemma {:induction false} FlattenAt(queue: seq<seq<nat>>, i: nat, k: nat)
    requires i < |queue| && k < |queue[i]|
    ensures Nth(queue, Before(queue, i) + k) == Some(queue[i][k])
    decreases i
  {
    if i > 0 {
      FlattenAt(queue[1..], i - 1, k);
    }
  }

  lemma {:induction false} BeforeNext(queue: seq<seq<nat>>, i: nat)
    requires i < |queue|
    ensures Before(queue, i + 1) == Before(queue, i) + |queue[i]|
    decreases i
  {
    if i > 0 {
      BeforeNext(queue[1..], i - 1);
    }
  }

  lemma {:induction false} BeforeEnd(queue: seq<seq<nat>>)
    ensures Before(queue, |queue|) == |Flatten(queue)|
  {
    if queue != [] {
      BeforeEnd(queue[1..]);
    }
  }

  lemma {:induction false} BeforeGap(queue: seq<seq<nat>>, i: nat, j: nat)
    requires i <= j <= |queue| && forall m :: i <= m < j ==> queue[m] == []
    ensures Before(queue, i) == Before(queue, j)
    decreases j
  {
    if i < j {
      BeforeNext(queue, j - 1);
      BeforeGap(queue, i, j - 1);
    }
  }

  /** What the searches of the bitmap say about the queues. */
  lemma NextQueue(a: PrioArray, from: nat, r: int)
    requires Counted(a) && from <= PRIO_MAX && IsNext(a.bitmap, from, r)
    ensures r == -1 ==> Before(a.queue, from) == |Flatten(a.queue)|
    ensures r != -1 ==> from <= r < PRIO_MAX && a.queue[r] != [] && Before(a.queue, r) == Before(a.queue, from)
  {
    BeforeGap(a.queue, from, if r == -1 then PRIO_MAX else r);
    BeforeEnd(a.queue);
  }

  lemma PreviousQueue(a: PrioArray, i: nat, r: int)
    requires Counted(a) && i < PRIO_MAX && (if i == 0 then r == -1 else IsPrevious(a.bitmap, i - 1, r))
    ensures r == -1 ==> Before(a.queue, i) == 0
    ensures r != -1 ==> 0 <= r < i && a.queue[r] != [] && Before(a.queue, r) + |a.queue[r]| == Before(a.queue, i)
  {
    BeforeGap(a.queue, r + 1, i);
    if r != -1 {
      BeforeNext(a.queue, r);
    }
  }

  method HighestPrioTask(a: PrioArray) returns (r: Option<nat>)
    requires Counted(a)
    ensures r == Nth(a.queue, 0)
  {
    hide IsSet, IsNext, Flatten;
    var idx := FindFirstSet(a.bitmap);
    NextQueue(a, 0, idx);
    if idx < 0 {
      return None;
    }
    FlattenAt(a.queue, idx, 0);
    r := Some(a.queue[idx][0]);
  }

  /** The queue and the place within it of the n-th task of all. */
  lemma {:induction false} Located(queue: seq<seq<nat>>, n: nat) returns (i: nat, k: nat)
    requires n < |Flatten(queue)|
    ensures i < |queue| && k < |queue[i]| && n == Before(queue, i) + k && Flatten(queue)[n] == queue[i][k]
  {
    if n < |queue[0]| {
      i, k := 0, n;
    } else {
      i, k := Located(queue[1..], n - |queue[0]|);
      i := i + 1;
    }
  }

  /** Where an active task comes in the enumeration of its CPU. */
  function Place(s: Core, r: nat): nat
    requires Invariant(s) && r < |s.tasks| && s.tasks[r].linked
  {
    assert Listed(s, r);
    var queue := s.cpus[s.tasks[r].cpu].queue;
    var i := PrioIndex(s.tasks[r].prio);
    Before(queue, i) + IndexOf(queue[i], r)
  }

  /** The enumeration of a CPU visits its active tasks and no other, each at one place. */
  lemma Enumerates(s: Core, r: nat, c: nat, n: nat)
    requires Invariant(s) && r < |s.tasks| && c < |s.cpus|
    ensures Nth(s.cpus[c].queue, n) == Some(r) <==> s.tasks[r].linked && s.tasks[r].cpu == c && n == Place(s, r)
  {
    var queue := s.cpus[c].queue;
    assert Counted(s.cpus[c]);
    if Nth(queue, n) == Some(r) {
      var i, k := Located(queue, n);
      OnePlace(s, r, c, i, k);
    }
    if s.tasks[r].linked && s.tasks[r].cpu == c {
      assert Listed(s, r);
      var i := PrioIndex(s.tasks[r].prio);
      FlattenAt(queue, i, IndexOf(queue[i], r));
    }
  }

  lemma {:induction false} BeforeRises(queue: seq<seq<nat>>, i: nat, j: nat)
    requires i <= j <= |queue|
    ensures Before(queue, i) <= Before(queue, j)
    decreases j
  {
    if i < j {
      BeforeNext(queue, j - 1);
      BeforeRises(queue, i, j - 1);
    }
  }

  /** It visits them in order of priority. */
  lemma PrioritiesFall(s: Core, c: nat, m: nat, n: nat)
    requires Invariant(s) && Shaped(s) && c < |s.cpus| && m < n < |Flatten(s.cpus[c].queue)|
    ensures var f := Flatten(s.cpus[c].queue);
      f[m] < |s.tasks| && f[n] < |s.tasks| && s.tasks[f[m]].prio >= s.tasks[f[n]].prio
  {
    var queue := s.cpus[c].queue;
    var i, k := Located(queue, m);
    var j, l := Located(queue, n);
    if j < i {
      BeforeNext(queue, j);
      BeforeRises(queue, j + 1, i);
    }
    OnePlace(s, queue[i][k], c, i, k);
    OnePlace(s, queue[j][l], c, j, l);
  }

  /** The task after r has r before it, so stepping forward and back ends where it began. */
  lemma NeighboursInverse(s: Core, r: nat, x: nat)
    requires Invariant(s) && r < |s.tasks| && s.tasks[r].linked && x < |s.tasks|
    requires Nth(s.cpus[s.tasks[r].cpu].queue, Place(s, r) + 1) == Some(x)
    ensures s.tasks[x].linked && s.tasks[x].cpu == s.tasks[r].cpu && Place(s, x) == Place(s, r) + 1
    ensures Nth(s.cpus[s.tasks[x].cpu].queue, Place(s, x) - 1) == Some(r)
  {
    Enumerates(s, x, s.tasks[r].cpu, Place(s, r) + 1);
    Enumerates(s, r, s.tasks[r].cpu, Place(s, r));
  }

  /** The queue of the lowest bit of word 0 that the undefined mask lets through. */
  predicate LeakedQueue(a: PrioArray, wide: bv64, b: int)
    requires Counted(a)
  {
    0 <= b < BITS_PER_LONG && LowestBit(And(a.bitmap[0], wide), b) && a.queue[b] != []
  }

  /** The search for the task behind the last one at bitmap index 63 starts at bit 64. */
  predicate NextWraps(s: Core, r: nat, wide: bv64)
    requires Invariant(s) && r < |s.tasks| && s.tasks[r].linked
  {
    assert Listed(s, r);
    var a, i := s.cpus[s.tasks[r].cpu], PrioIndex(s.tasks[r].prio);
    assert Counted(a);
    i == BITS_PER_LONG - 1 && IndexOf(a.queue[i], r) + 1 == |a.queue[i]| && And(a.bitmap[0], wide) != 0
  }

  method NextPrioTask(s: Core, r: nat, wide: bv64) returns (next: Option<nat>)
    requires Invariant(s) && Shaped(s) && r < |s.tasks| && s.tasks[r].linked
    ensures next == Nth(s.cpus[s.tasks[r].cpu].queue, Place(s, r) + 1) <==> !NextWraps(s, r, wide)
    ensures NextWraps(s, r, wide) ==>
      exists b | LeakedQueue(s.cpus[s.tasks[r].cpu], wide, b) :: next == Some(s.cpus[s.tasks[r].cpu].queue[b][0])
  {
    hide QueueOk, IsSet, IsNext, And, Flatten, Before, Nth, LowestBit;
    assert Listed(s, r);
    var idx := PrioIndex(s.tasks[r].prio);
    var active := s.cpus[s.tasks[r].cpu];
    var k := IndexOf(active.queue[idx], r);
    if k + 1 == |active.queue[idx]| {
      var found := FindNextSet(active.bitmap, idx + 1, wide);
      NextFound(s, r, wide, found);
      if found < 0 {
        return None;
      }
      assert NextWraps(s, r, wide) ==> LeakedQueue(active, wide, found);
      return Some(active.queue[found][0]);
    }
    FlattenAt(active.queue, idx, k + 1);
    next := Some(active.queue[idx][k + 1]);
  }

  lemma NextFound(s: Core, r: nat, wide: bv64, found: int)
    requires Invariant(s) && Shaped(s) && r < |s.tasks| && s.tasks[r].linked && Listed(s, r)
    requires var a, i := s.cpus[s.tasks[r].cpu], PrioIndex(s.tasks[r].prio);
      && IndexOf(a.queue[i], r) + 1 == |a.queue[i]|
      && (IsNext(a.bitmap, i + 1, found) <==> !Leaks(a.bitmap, i + 1, wide))
      && (Leaks(a.bitmap, i + 1, wide) ==> 0 <= found < i + 1 && IsSet(a.bitmap, found))
    ensures found == -1 || (0 <= found < PRIO_MAX && s.cpus[s.tasks[r].cpu].queue[found] != [])
    ensures NextWraps(s, r, wide) ==> Leaks(s.cpus[s.tasks[r].cpu].bitmap, 64, wide) && 0 <= found < 64
    ensures var queue := s.cpus[s.tasks[r].cpu].queue;
      (if found == -1 then None else Some(queue[found][0])) == Nth(queue, Place(s, r) + 1) <==> !NextWraps(s, r, wide)
  {
    hide QueueOk, IsSet, And, Flatten, Before, IsNext, Nth;
    var a, i := s.cpus[s.tasks[r].cpu], PrioIndex(s.tasks[r].prio);
    assert Counted(a);
    BeforeNext(a.queue, i);
    if !Leaks(a.bitmap, i + 1, wide) {
      NextQueue(a, i + 1, found);
      if found != -1 {
        FlattenAt(a.queue, found, 0);
      } else {
        NthPast(a.queue, Place(s, r) + 1);
      }
    } else {
      WrapIsWrong(s, r, found);
    }
  }

  lemma NthPast(queue: seq<seq<nat>>, n: int)
    requires n < 0 || n >= |Flatten(queue)|
    ensures Nth(queue, n) == None
  {
  }

  /** The head of a queue at or before r's own never comes right after r. */
  lemma WrapIsWrong(s: Core, r: nat, found: nat)
    requires Invariant(s) && Shaped(s) && r < |s.tasks| && s.tasks[r].linked && Listed(s, r)
    requires found <= PrioIndex(s.tasks[r].prio) && s.cpus[s.tasks[r].cpu].queue[found] != []
    ensures Nth(s.cpus[s.tasks[r].cpu].queue, Place(s, r) + 1) != Some(s.cpus[s.tasks[r].cpu].queue[found][0])
  {
    hide QueueOk, Counted, Flatten, Before, Nth;
    var queue := s.cpus[s.tasks[r].cpu].queue;
    var x := queue[found][0];
    BeforeRises(queue, found, PrioIndex(s.tasks[r].prio));
    FlattenAt(queue, found, 0);
    Enumerates(s, x, s.tasks[r].cpu, Before(queue, found));
    Enumerates(s, x, s.tasks[r].cpu, Place(s, r) + 1);
  }

  method PrevPrioTask(s: Core, r: nat) returns (previous: Option<nat>)
    requires Invariant(s) && Shaped(s) && r < |s.tasks| && s.tasks[r].linked
    ensures previous == Nth(s.cpus[s.tasks[r].cpu].queue, Place(s, r) - 1)
  {
    hide QueueOk, IsSet, IsPrevious, Flatten, Before, Nth;
    assert Listed(s, r);
    var idx := PrioIndex(s.tasks[r].prio);
    var active := s.cpus[s.tasks[r].cpu];
    var k := IndexOf(active.queue[idx], r);
    if k == 0 {
      var found := FindPreviousSet(active.bitmap, idx - 1);
      PreviousQueue(active, idx, found);
      if found < 0 {
        NthPast(active.queue, Place(s, r) - 1);
        return None;
      }
      var last := |active.queue[found]| - 1;
      FlattenAt(active.queue, found, last);
      return Some(active.queue[found][last]);
    }
    FlattenAt(active.queue, idx, k - 1);
    previous := Some(active.queue[idx][k - 1]);
  }

  /** Counting past a non-empty queue 63 starts a search at bit 64, which may fall back to word 0. */
  predicate CountWraps(a: PrioArray, num: int, wide: bv64)
    requires Counted(a)
  {
    a.queue[BITS_PER_LONG - 1] != [] && num > Before(a.queue, BITS_PER_LONG) && And(a.bitmap[0], wide) != 0
  }

  /** Between two searches on course every queue in front of idx is counted. */
  ghost predicate OnCourse(a: PrioArray, idx: nat, i: nat, num: int, wide: bv64)
    requires Counted(a)
  {
    && idx <= PRIO_MAX && i == Before(a.queue, idx)
    && (idx > 0 ==> a.queue[idx - 1] != [])
    && (idx > BITS_PER_LONG ==> !CountWraps(a, num, wide))
  }

  /** How many tasks are in the queues from b to 63. */
  function RoundLength(queue: seq<seq<nat>>, b: nat): int
    requires b <= |queue| && 64 <= |queue|
  {
    Before(queue, 64) - Before(queue, b)
  }

  /** Fallen back for good: having counted the queues of word 0 once, and m rounds of those from b on, the
  count is in front of queue idx. */
  ghost predicate GoingRound(a: PrioArray, idx: nat, i: nat, b: nat, m: nat)
    requires Counted(a)
  {
    b <= idx <= BITS_PER_LONG &&
    i == Before(a.queue, 64) + m * RoundLength(a.queue, b) + (Before(a.queue, idx) - Before(a.queue, b))
  }

  lemma RoundOver(a: PrioArray, i: nat, b: nat, m: nat)
    requires Counted(a) && GoingRound(a, 64, i, b, m)
    ensures GoingRound(a, b, i, b, m + 1)
  {
    hide Before;
    var l := RoundLength(a.queue, b);
    assert (m + 1) * l == m * l + l;
  }

  lemma RoundStarts(a: PrioArray, i: nat, b: nat)
    requires Counted(a) && b <= BITS_PER_LONG && i == Before(a.queue, 64)
    ensures GoingRound(a, b, i, b, 0)
  {
  }

  /** The place in the enumeration that a count gone round and round ends at. */
  function RoundPlace(queue: seq<seq<nat>>, b: nat, num: int): int
    requires b <= |queue| && 64 <= |queue| && 0 < RoundLength(queue, b)
  {
    Before(queue, b) + (num - 1 - Before(queue, 64)) % RoundLength(queue, b)
  }

  lemma Remainder(x: int, m: nat, l: int, y: int)
    requires 0 <= y < l && x == m * l + y
    ensures x % l == y
  {
    var d := m - x / l;
    assert d * l == m * l - (x / l) * l;
    if d > 0 {
      AtLeast(d, l);
    } else if d < 0 {
      AtLeast(-d, l);
    }
  }

  lemma AtLeast(d: int, l: int)
    requires d >= 1 && l >= 0
    ensures d * l >= l
  {
  }

  lemma SearchFrom(a: PrioArray, idx: nat, i: nat, num: int, wide: bv64, found: int)
    requires Counted(a) && idx <= PRIO_MAX && i < num && OnCourse(a, idx, i, num, wide)
    requires IsNext(a.bitmap, idx, found) <==> !Leaks(a.bitmap, idx, wide)
    requires Leaks(a.bitmap, idx, wide) ==> 0 <= found < idx && IsSet(a.bitmap, found)
    ensures found == -1 || (0 <= found < PRIO_MAX && a.queue[found] != [])
    ensures if !Leaks(a.bitmap, idx, wide)
      then (if found == -1 then i == |Flatten(a.queue)| else i == Before(a.queue, found))
           && (found == -1 || found >= BITS_PER_LONG ==> !CountWraps(a, num, wide))
      else idx == BITS_PER_LONG && 0 <= found < BITS_PER_LONG && CountWraps(a, num, wide)
  {
    hide And, Flatten, Before;
    assert IsSet(a.bitmap, BITS_PER_LONG - 1) <==> a.queue[BITS_PER_LONG - 1] != [];
    if !Leaks(a.bitmap, idx, wide) {
      NextQueue(a, idx, found);
    }
  }

  /** Once fallen back, a search goes on within the round or, at its end, starts it again. */
  lemma SearchRound(a: PrioArray, idx: nat, i: nat, num: int, wide: bv64, b: nat, m: nat, found: int) returns (m': nat)
    requires Counted(a) && CountWraps(a, num, wide) && LeakedQueue(a, wide, b) && GoingRound(a, idx, i, b, m)
    requires IsNext(a.bitmap, idx, found) <==> !Leaks(a.bitmap, idx, wide)
    requires Leaks(a.bitmap, idx, wide) ==> LowestBit(And(a.bitmap[0], wide), found)
    ensures 0 <= found < BITS_PER_LONG && a.queue[found] != [] && GoingRound(a, found, i, b, m')
  {
    hide And, Flatten, Before, Has;
    assert IsSet(a.bitmap, BITS_PER_LONG - 1);
    if Leaks(a.bitmap, idx, wide) {
      m' := m + 1;
      RoundOver(a, i, b, m);
    } else {
      m' := m;
      NextQueue(a, idx, found);
    }
  }

  /** The n-th task, unless the count falls back; then it goes round the queues from the first that the mask
  lets through to queue 63, and ends where that takes it. */
  method NumberTask(s: Core, cpu: nat, num: int, wide: bv64) returns (r: Option<nat>)
    requires Invariant(s) && Shaped(s) && cpu < |s.cpus| && Counted(s.cpus[cpu])
    ensures r == Nth(s.cpus[cpu].queue, num - 1) <==> !CountWraps(s.cpus[cpu], num, wide)
    ensures CountWraps(s.cpus[cpu], num, wide) ==>
      exists b | LeakedQueue(s.cpus[cpu], wide, b) && 0 < RoundLength(s.cpus[cpu].queue, b) ::
        r == Nth(s.cpus[cpu].queue, RoundPlace(s.cpus[cpu].queue, b, num))
  {
    hide Invariant, QueueOk, IsSet, IsNext, And, Flatten, Before, Nth, Leaks, LowestBit, RoundLength;
    var active := s.cpus[cpu];
    var i, idx := 0, 0;
    ghost var fallen, b: nat, m: nat := false, 0, 0;
    StartOnCourse(active, num, wide);
    while i < num
      invariant 0 <= i && 0 <= idx <= PRIO_MAX && (num > 0 ==> i < num)
      invariant !fallen ==> OnCourse(active, idx, i, num, wide)
      invariant fallen ==>
        CountWraps(active, num, wide) && LeakedQueue(active, wide, b) && GoingRound(active, idx, i, b, m)
      decreases num - i
    {
      var found := FindNextSet(active.bitmap, idx, wide);
      if fallen {
        m := SearchRound(active, idx, i, num, wide, b, m, found);
      } else {
        SearchFrom(active, idx, i, num, wide, found);
        if Leaks(active.bitmap, idx, wide) {
          fallen, b, m := true, found, 0;
          RoundStarts(active, i, b);
        }
      }
      if found < 0 {
        NthPast(active.queue, num - 1);
        return None;
      }
      idx := found;
      ghost var start := i;
      for k := 0 to |active.queue[idx]|
        invariant i == start + k && i < num
      {
        i := i + 1;
        if i == num {
          NumberFound(s, cpu, idx, k, fallen, b, m, num, wide);
          return Some(active.queue[idx][k]);
        }
      }
      BeforeNext(active.queue, idx);
      idx := idx + 1;
    }
    NthPast(active.queue, num - 1);
    r := None;
  }

  lemma StartOnCourse(a: PrioArray, num: int, wide: bv64)
    requires Counted(a)
    ensures OnCourse(a, 0, 0, num, wide)
  {
  }

  lemma NumberFound(s: Core, cpu: nat, idx: nat, k: nat, fallen: bool, b: nat, m: nat, num: int, wide: bv64)
    requires Invariant(s) && Shaped(s) && cpu < |s.cpus| && Counted(s.cpus[cpu])
    requires idx < PRIO_MAX && k < |s.cpus[cpu].queue[idx]|
    requires !fallen ==> num - 1 == Before(s.cpus[cpu].queue, idx) + k
                         && (idx >= BITS_PER_LONG ==> !CountWraps(s.cpus[cpu], num, wide))
    requires fallen ==> idx < BITS_PER_LONG && CountWraps(s.cpus[cpu], num, wide)
                        && k < num && GoingRound(s.cpus[cpu], idx, num - 1 - k, b, m)
    ensures fallen <==> CountWraps(s.cpus[cpu], num, wide)
    ensures Some(s.cpus[cpu].queue[idx][k]) == Nth(s.cpus[cpu].queue, num - 1) <==> !CountWraps(s.cpus[cpu], num, wide)
    ensures fallen ==> b <= BITS_PER_LONG && 0 < RoundLength(s.cpus[cpu].queue, b)
    ensures fallen ==>
      Some(s.cpus[cpu].queue[idx][k]) == Nth(s.cpus[cpu].queue, RoundPlace(s.cpus[cpu].queue, b, num))
  {
    hide QueueOk, IsSet, And, Flatten, Before, Nth, RoundLength, Counted;
    var queue := s.cpus[cpu].queue;
    FlattenAt(queue, idx, k);
    BeforeNext(queue, idx);
    if idx < BITS_PER_LONG {
      BeforeRises(queue, idx + 1, BITS_PER_LONG);
    }
    if fallen {
      Enumerates(s, queue[idx][k], cpu, Before(queue, idx) + k);
      Enumerates(s, queue[idx][k], cpu, num - 1);
      RoundEnds(s.cpus[cpu], idx, k, b, m, num);
    }
  }

  /** A count that goes round meets the k-th task of queue idx where the remainder says. */
  lemma RoundEnds(a: PrioArray, idx: nat, k: nat, b: nat, m: nat, num: int)
    requires Counted(a) && idx < BITS_PER_LONG && k < |a.queue[idx]|
    requires num > k && GoingRound(a, idx, num - 1 - k, b, m)
    ensures 0 < RoundLength(a.queue, b) && RoundPlace(a.queue, b, num) == Before(a.queue, idx) + k
  {
    hide Before;
    BeforeRises(a.queue, b, idx);
    BeforeNext(a.queue, idx);
    BeforeRises(a.queue, idx + 1, BITS_PER_LONG);
    var queue, l := a.queue, RoundLength(a.queue, b);
    Remainder(num - 1 - Before(queue, 64), m, l, Before(queue, idx) - Before(queue, b) + k);
  }

  /** On a machine that shifts by 64 as by 0, the wrapped search always goes wrong: word 0 still has
  the bit of the queue just left. */
  lemma WrapsOnOnes(s: Core, r: nat)
    requires Invariant(s) && r < |s.tasks| && s.tasks[r].linked && Listed(s, r)
    ensures !NextWraps(s, r, 0)
    ensures var queue := s.cpus[s.tasks[r].cpu].queue;
      NextWraps(s, r, ONES) <==>
        s.tasks[r].prio == PRIO_MAX - 63 && IndexOf(queue[63], r) + 1 == |queue[63]|
  {
    var a := s.cpus[s.tasks[r].cpu];
    assert Counted(a);
    AllOnes(a.bitmap[0]);
    if s.tasks[r].prio == PRIO_MAX - 63 {
      assert IsSet(a.bitmap, 63);
      ZeroHasNone(a.bitmap[0]);
    }
  }

  lemma AllOnes(x: bv64)
    ensures And(x, ONES) == x && And(x, 0) == 0
  {
  }

  function Active(s: Core, c: nat): set<nat> {
    set r | 0 <= r < |s.tasks| && s.tasks[r].linked && s.tasks[r].cpu == c
  }

  lemma {:induction false} TotalIsLength(queue: seq<seq<nat>>)
    ensures Total(queue) == |Flatten(queue)|
  {
    if queue != [] {
      TotalIsLength(queue[1..]);
    }
  }

  ghost function Elements(f: seq<nat>): (e: set<nat>)
    ensures forall x :: x in e <==> x in f
  {
    if f == [] then {} else {f[0]} + Elements(f[1..])
  }

  lemma {:induction false} DistinctSize(f: seq<nat>)
    requires Distinct(f)
    ensures |Elements(f)| == |f|
  {
    if f != [] {
      assert f[0] !in f[1..];
      DistinctSize(f[1..]);
    }
  }

  /** The counter of a CPU is the number of its active tasks. */
  lemma CountsActive(s: Core, c: nat)
    requires Invariant(s) && c < |s.cpus|
    ensures s.cpus[c].nrTasks == |Active(s, c)|
  {
    var queue := s.cpus[c].queue;
    var f := Flatten(queue);
    assert Counted(s.cpus[c]);
    TotalIsLength(queue);
    forall n | 0 <= n < |f| ensures f[n] < |s.tasks| && s.tasks[f[n]].linked && s.tasks[f[n]].cpu == c && n == Place(s, f[n]) {
      var i, k := Located(queue, n);
      assert QueueOk(s.tasks, s.fed, queue[i], c, i);
      Enumerates(s, f[n], c, n);
    }
    forall r | r in Active(s, c) ensures r in f {
      Enumerates(s, r, c, Place(s, r));
    }
    assert Distinct(f);
    DistinctSize(f);
    assert Active(s, c) == Elements(f);
  }
}
