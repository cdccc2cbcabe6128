/** One core's timeline: a sequence of busy and empty slots, as the analyzer keeps it.

A timeline the analyzer builds tiles the interval from 0 to its tail: slots follow each
other without holes, an empty slot is as large as it can be, and the last slot is busy.
The module says when a core is free on an interval, shows that the empty slots and the
tail are exactly where it is free, and shows that filling an empty slot or appending at the
tail keeps all of this. */
module Timeline {

  const INT_MAX: int := 0x7fff_ffff

  /** The `int` of the source: every value the model stores has to fit. */
  type int32 = x: int | -0x8000_0000 <= x <= 0x7fff_ffff

  datatype Slot = Slot(empty: bool, runTime: int32, nodeIndex: int,
                       escTime: int32, startTime: int32, endTime: int32)

  /** `create_empty_node` */
  function EmptySlot(start: int32, end: int32): Slot
    requires 0 <= start <= end
  {
    Slot(true, end - start, -1, end, start, end)
  }

  /** `create_sched_node` */
  function BusySlot(index: int, start: int32, runTime: int32): Slot
    requires 0 <= start && 0 <= runTime && start + runTime <= INT_MAX
  {
    Slot(false, runTime, index, start + runTime, start, start + runTime)
  }

  ghost predicate WellFormed(s: Slot) {
    && 0 <= s.startTime && 0 < s.runTime
    && s.escTime == s.endTime == s.startTime + s.runTime
    && (if s.empty then s.nodeIndex == -1 else 0 <= s.nodeIndex)
  }

  ghost predicate Meets(a: Slot, b: Slot) {
    a.endTime == b.startTime && !(a.empty && b.empty)
  }

  /** Well-formed slots, each meeting the next. */
  ghost predicate Linked(tl: seq<Slot>) {
    && (forall k | 0 <= k < |tl| :: WellFormed(tl[k]))
    && (forall k | 0 < k < |tl| :: Meets(tl[k - 1], tl[k]))
  }

  /** The timeline invariant. */
  ghost predicate Tiles(tl: seq<Slot>) {
    && Linked(tl)
    && (tl != [] ==> tl[0].startTime == 0 && !tl[|tl| - 1].empty)
  }

  function Tail(tl: seq<Slot>): int32 {
    if tl == [] then 0 else tl[|tl| - 1].escTime
  }

  /** No busy slot meets the interval from t to t + r. */
  ghost predicate Free(tl: seq<Slot>, t: int, r: int) {
    forall k | 0 <= k < |tl| :: !tl[k].empty ==> tl[k].endTime <= t || t + r <= tl[k].startTime
  }

  /** The interval from t to t + r lies inside the empty slot s. */
  ghost predicate Holds(s: Slot, t: int, r: int) {
    s.empty && s.startTime <= t && t + r <= s.endTime
  }

  ghost function Busy(tl: seq<Slot>): multiset<Slot> {
    if tl == [] then multiset{}
    else (if tl[0].empty then multiset{} else multiset{tl[0]}) + Busy(tl[1..])
  }

  // ---------------------------------------------------------------- busy slots

  lemma {:induction false} BusyConcat(a: seq<Slot>, b: seq<Slot>)
    ensures Busy(a + b) == Busy(a) + Busy(b)
  {
    if a == [] {
      assert a + b == b;
    } else {
      assert (a + b)[1..] == a[1..] + b;
      BusyConcat(a[1..], b);
    }
  }

  lemma {:induction false} BusyMember(tl: seq<Slot>, s: Slot)
    ensures s in Busy(tl) <==> s in tl && !s.empty
  {
    if tl != [] {
      BusyMember(tl[1..], s);
      assert tl == [tl[0]] + tl[1..];
    }
  }

  lemma FreeByBusy(tl: seq<Slot>, t: int, r: int)
    ensures Free(tl, t, r) <==> forall s | s in Busy(tl) :: s.endTime <= t || t + r <= s.startTime
  {
    forall s: Slot ensures s in Busy(tl) <==> s in tl && !s.empty { BusyMember(tl, s); }
    if forall s | s in Busy(tl) :: s.endTime <= t || t + r <= s.startTime {
      forall k | 0 <= k < |tl| && !tl[k].empty
        ensures tl[k].endTime <= t || t + r <= tl[k].startTime
      {
        assert tl[k] in Busy(tl);
      }
    }
  }

  // ------------------------------------------------------- order along a timeline

  lemma {:induction false} Ordered(tl: seq<Slot>, j: nat, k: nat)
    requires Tiles(tl) && j < k < |tl|
    ensures tl[j].endTime <= tl[k].startTime
    decreases k
  {
    if j < k - 1 {
      Ordered(tl, j, k - 1);
      assert WellFormed(tl[k - 1]);
    }
    assert Meets(tl[k - 1], tl[k]);
  }

  lemma EndsByTail(tl: seq<Slot>, k: nat)
    requires Tiles(tl) && k < |tl|
    ensures tl[k].endTime <= Tail(tl)
    ensures k == |tl| - 1 || tl[k].endTime < Tail(tl)
  {
    if k < |tl| - 1 {
      Ordered(tl, k, |tl| - 1);
      assert WellFormed(tl[|tl| - 1]);
    }
  }

  /** Every instant before the tail lies in exactly one slot: this finds it. */
  lemma {:induction false} SlotAt(tl: seq<Slot>, t: int, n: nat) returns (k: nat)
    requires Tiles(tl) && 0 < n <= |tl| && 0 <= t < tl[n - 1].endTime
    ensures k < n && tl[k].startTime <= t < tl[k].endTime
    decreases n
  {
    if tl[n - 1].startTime <= t {
      k := n - 1;
    } else {
      assert n > 1;
      assert Meets(tl[n - 2], tl[n - 1]);
      k := SlotAt(tl, t, n - 1);
    }
  }

  /** A core is free on an interval exactly when one empty slot holds the interval or the
  interval starts at the tail or later.  This is what lets the analyzer look at empty slots
  and tails only. */
  lemma FreeIff(tl: seq<Slot>, t: int, r: int)
    requires Tiles(tl) && 0 <= t && 0 < r
    ensures Free(tl, t, r) <==>
            Tail(tl) <= t || exists k :: 0 <= k < |tl| && Holds(tl[k], t, r)
  {
    if Tail(tl) <= t {
      forall k | 0 <= k < |tl| ensures tl[k].endTime <= t { EndsByTail(tl, k); }
    } else {
      assert WellFormed(tl[|tl| - 1]);
      var k := SlotAt(tl, t, |tl|);
      assert WellFormed(tl[k]);
      if Holds(tl[k], t, r) {
        forall j | 0 <= j < |tl| && !tl[j].empty
          ensures tl[j].endTime <= t || t + r <= tl[j].startTime
        {
          if j < k { Ordered(tl, j, k); } else { Ordered(tl, k, j); }
        }
      } else {
        if tl[k].empty {
          assert Meets(tl[k], tl[k + 1]);
          assert WellFormed(tl[k + 1]);
        }
        assert !Free(tl, t, r);
        forall j | 0 <= j < |tl| ensures !Holds(tl[j], t, r) {
          if j < k { Ordered(tl, j, k); }
          if j > k { Ordered(tl, k, j); assert WellFormed(tl[j]); }
        }
      }
    }
  }

  // -------------------------------------------------------------------- placing

  lemma LinkedConcat(a: seq<Slot>, b: seq<Slot>)
    requires Linked(a) && Linked(b)
    requires a != [] && b != [] ==> Meets(a[|a| - 1], b[0])
    ensures Linked(a + b)
  {
    var c := a + b;
    forall k | 0 <= k < |c| ensures WellFormed(c[k]) {
      assert c[k] == if k < |a| then a[k] else b[k - |a|];
    }
    forall k | 0 < k < |c| ensures Meets(c[k - 1], c[k]) {
      if k < |a| { assert c[k - 1] == a[k - 1] && c[k] == a[k]; }
      else if k == |a| { assert c[k - 1] == a[|a| - 1] && c[k] == b[0]; }
      else { assert c[k - 1] == b[k - |a| - 1] && c[k] == b[k - |a|]; }
    }
  }

  /** The empty slot between two instants, if they differ. */
  function Gap(start: int32, end: int32): seq<Slot>
    requires 0 <= start <= end
  {
    if start < end then [EmptySlot(start, end)] else []
  }

  /** What takes the place of an empty slot when s goes into it. */
  function Filling(gap: Slot, s: Slot): seq<Slot>
    requires 0 <= gap.startTime <= s.startTime && 0 <= s.endTime <= gap.endTime
  {
    Gap(gap.startTime, s.startTime) + [s] + Gap(s.endTime, gap.endTime)
  }

  /** What `set_sched_vacancy_node` makes of a timeline. */
  function Splice(tl: seq<Slot>, e: nat, s: Slot): seq<Slot>
    requires e < |tl| && 0 <= tl[e].startTime <= s.startTime && 0 <= s.endTime <= tl[e].endTime
  {
    tl[..e] + Filling(tl[e], s) + tl[e + 1..]
  }

  lemma BusySingle(s: Slot)
    ensures Busy([s]) == if s.empty then multiset{} else multiset{s}
  {
    assert [s][1..] == [];
  }

  lemma BusyGap(start: int32, end: int32)
    requires 0 <= start <= end
    ensures Busy(Gap(start, end)) == multiset{}
  {
    if start < end { BusySingle(EmptySlot(start, end)); }
  }

  lemma BusyAround(a: seq<Slot>, mid: seq<Slot>, b: seq<Slot>)
    ensures Busy(a + mid + b) == Busy(a) + Busy(mid) + Busy(b)
  {
    BusyConcat(a, mid);
    BusyConcat(a + mid, b);
  }

  lemma FillingBusy(gap: Slot, s: Slot)
    requires 0 <= gap.startTime <= s.startTime && 0 <= s.endTime <= gap.endTime && !s.empty
    ensures Busy(Filling(gap, s)) == multiset{s}
  {
    BusyAround(Gap(gap.startTime, s.startTime), [s], Gap(s.endTime, gap.endTime));
    BusyGap(gap.startTime, s.startTime);
    BusyGap(s.endTime, gap.endTime);
    BusySingle(s);
  }

  lemma FillingLinked(gap: Slot, s: Slot)
    requires WellFormed(gap) && WellFormed(s) && !s.empty
    requires gap.startTime <= s.startTime && s.endTime <= gap.endTime
    ensures Linked(Filling(gap, s))
    ensures Filling(gap, s)[0].startTime == gap.startTime
    ensures Filling(gap, s)[|Filling(gap, s)| - 1].endTime == gap.endTime
    ensures !gap.empty || forall p: Slot | !p.empty && Meets(p, gap) :: Meets(p, Filling(gap, s)[0])
  {
    var b, a := Gap(gap.startTime, s.startTime), Gap(s.endTime, gap.endTime);
    LinkedConcat(b, [s]);
    LinkedConcat(b + [s], a);
  }

  lemma BusySkip(tl: seq<Slot>, e: nat)
    requires e < |tl| && tl[e].empty
    ensures Busy(tl) == Busy(tl[..e]) + Busy(tl[e + 1..])
  {
    var l, h := tl[..e], tl[e + 1..];
    assert tl == l + [tl[e]] + h;
    BusyAround(l, [tl[e]], h);
    assert Busy([tl[e]]) == multiset{} by { BusySingle(tl[e]); }
  }

  lemma MultisetSwap<T>(a: multiset<T>, b: multiset<T>, c: multiset<T>)
    ensures a + c + b == a + b + c
  {
  }

  /** Filling (part of) an empty slot adds exactly the new busy slot ... */
  lemma SpliceBusy(tl: seq<Slot>, e: nat, s: Slot)
    requires e < |tl| && tl[e].empty && !s.empty
    requires 0 <= tl[e].startTime <= s.startTime && 0 <= s.endTime <= tl[e].endTime
    ensures Busy(Splice(tl, e, s)) == Busy(tl) + multiset{s}
  {
    var l, h := tl[..e], tl[e + 1..];
    var mid := Filling(tl[e], s);
    assert Busy(mid) == multiset{s} by { FillingBusy(tl[e], s); }
    assert Busy(tl) == Busy(l) + Busy(h) by { BusySkip(tl, e); }
    BusyAround(l, mid, h);
    assert Splice(tl, e, s) == l + mid + h;
    MultisetSwap(Busy(l), Busy(h), multiset{s});
  }

  lemma LinkedReplace(l: seq<Slot>, x: Slot, h: seq<Slot>, mid: seq<Slot>)
    requires Linked(l + [x] + h) && Linked(mid) && mid != [] && x.empty
    requires mid[0].startTime == x.startTime && mid[|mid| - 1].endTime == x.endTime
    ensures Linked(l + mid + h)
  {
    var tl := l + [x] + h;
    assert Linked(l) by { assert forall k | 0 <= k < |l| :: l[k] == tl[k]; }
    assert Linked(h) by { assert forall k | 0 <= k < |h| :: h[k] == tl[|l| + 1 + k]; }
    if l != [] { assert Meets(tl[|l| - 1], tl[|l|]); }
    LinkedConcat(l, mid);
    if h != [] {
      assert Meets(tl[|l|], tl[|l| + 1]);
      assert (l + mid)[|l + mid| - 1] == mid[|mid| - 1];
    }
    LinkedConcat(l + mid, h);
  }

  /** ... and keeps the invariant and the tail. */
  lemma SpliceKeeps(tl: seq<Slot>, e: nat, s: Slot)
    requires Tiles(tl) && e < |tl| && tl[e].empty
    requires !s.empty && WellFormed(s) && tl[e].startTime <= s.startTime && s.endTime <= tl[e].endTime
    ensures Tiles(Splice(tl, e, s))
    ensures Tail(Splice(tl, e, s)) == Tail(tl)
  {
    var l, mid, h := tl[..e], Filling(tl[e], s), tl[e + 1..];
    FillingLinked(tl[e], s);
    assert tl == l + [tl[e]] + h;
    LinkedReplace(l, tl[e], h, mid);
    SpliceEnds(tl, e, s);
  }

  lemma SpliceEnds(tl: seq<Slot>, e: nat, s: Slot)
    requires e < |tl| - 1 && 0 <= tl[e].startTime <= s.startTime && 0 <= s.endTime <= tl[e].endTime
    ensures var new' := Splice(tl, e, s);
            && |new'| > 0 && new'[|new'| - 1] == tl[|tl| - 1]
            && new'[0] == if e > 0 then tl[0] else Filling(tl[e], s)[0]
  {
  }

  /** What appending at the tail makes of a timeline: an empty slot up to the start when the
  tail is earlier, then the busy slot. */
  function Append(tl: seq<Slot>, s: Slot): seq<Slot>
    requires 0 <= Tail(tl) <= s.startTime
  {
    tl + Gap(Tail(tl), s.startTime) + [s]
  }

  lemma TailNotNegative(tl: seq<Slot>)
    requires Tiles(tl)
    ensures 0 <= Tail(tl)
  {
    assert tl != [] ==> WellFormed(tl[|tl| - 1]);
  }

  lemma AppendBusy(tl: seq<Slot>, s: Slot)
    requires !s.empty && 0 <= Tail(tl) <= s.startTime
    ensures Busy(Append(tl, s)) == Busy(tl) + multiset{s}
  {
    var gap := Gap(Tail(tl), s.startTime);
    BusyConcat(tl + gap, [s]);
    BusyConcat(tl, gap);
    BusyGap(Tail(tl), s.startTime);
    BusySingle(s);
  }

  lemma AppendKeeps(tl: seq<Slot>, s: Slot)
    requires Tiles(tl) && !s.empty && WellFormed(s) && 0 <= Tail(tl) <= s.startTime
    ensures Tiles(Append(tl, s))
    ensures Tail(Append(tl, s)) == s.endTime
  {
    var gap := Gap(Tail(tl), s.startTime);
    assert tl != [] ==> WellFormed(tl[|tl| - 1]);
    LinkedConcat(tl, gap);
    LinkedConcat(tl + gap, [s]);
  }
}
