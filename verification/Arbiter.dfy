/** The first-in-first-out arbiter of virtual devices, as values: the device that finished goes to the
end of the list, and the first device with waiting work is next. */
module Arbiter {
  import opened Options
  import opened Sequences

  function Rotated<T(==)>(list: seq<T>, d: T): seq<T>
    requires d in list
  {
    Deleted(list, IndexOf(list, d)) + [d]
  }

  function FirstWaiting<T(==)>(list: seq<T>, waiting: set<T>): (next: Option<T>)
    ensures next.None? ==> forall d :: d in list ==> d !in waiting
    ensures next.Some? ==> next.value in list && next.value in waiting
  {
    if list == [] then None
    else if list[0] in waiting then Some(list[0])
    else FirstWaiting(list[1..], waiting)
  }

  lemma FirstFrom<T>(list: seq<T>, i: nat, waiting: set<T>)
    requires i <= |list|
    ensures FirstWaiting(list[i..], waiting) ==
      if i == |list| then None else if list[i] in waiting then Some(list[i])
      else FirstWaiting(list[i + 1..], waiting)
  {
    if i < |list| {
      assert list[i..][1..] == list[i + 1..];
    }
  }

  /** Rotating keeps the devices, each once, and moves those behind the rotated one up by one. */
  lemma RotatedAt<T>(list: seq<T>, d: T, j: nat)
    requires Distinct(list) && d in list && j < |list|
    ensures var k := IndexOf(list, d);
      |Rotated(list, d)| == |list|
      && Rotated(list, d)[j] == if j < k then list[j] else if j + 1 < |list| then list[j + 1] else d
  {
  }

  lemma RotatedPermutes<T>(list: seq<T>, d: T)
    requires Distinct(list) && d in list
    ensures Distinct(Rotated(list, d)) && |Rotated(list, d)| == |list|
    ensures forall x :: x in Rotated(list, d) <==> x in list
  {
    var k, r := IndexOf(list, d), Rotated(list, d);
    forall x | x in list ensures x in r {
      var j :| 0 <= j < |list| && list[j] == x;
      assert x == r[if j < k then j else if j == k then |list| - 1 else j - 1];
    }
  }

  /** Nothing in front of the chosen device is waiting. */
  lemma {:induction false} FirstIsFirst<T>(list: seq<T>, waiting: set<T>, v: T)
    requires Distinct(list) && v in list && v in waiting
    ensures var next := FirstWaiting(list, waiting);
      next.Some? && IndexOf(list, next.value) <= IndexOf(list, v)
  {
    if list[0] !in waiting {
      assert list[0] != v;
      FirstIsFirst(list[1..], waiting, v);
    }
  }

  /** Where the others are once a device has gone to the end. */
  lemma RotatedPosition<T>(list: seq<T>, d: T, v: T)
    requires Distinct(list) && d in list && v in list && d != v
    ensures v in Rotated(list, d)
    ensures IndexOf(Rotated(list, d), v) ==
      if IndexOf(list, d) < IndexOf(list, v) then IndexOf(list, v) - 1 else IndexOf(list, v)
  {
    var k, p, r := IndexOf(list, d), IndexOf(list, v), Rotated(list, d);
    RotatedPermutes(list, d);
    var q := if k < p then p - 1 else p;
    RotatedAt(list, d, q);
    IndexIs(r, q);
  }

  /** Each call of the arbiter is made for the device the previous one chose; `waits` says who has
  waiting work at each call. The result is who is chosen, until nobody is. */
  function Turns<T(==)>(list: seq<T>, d: T, waits: seq<set<T>>): seq<T>
    requires Distinct(list) && d in list
    decreases waits
  {
    RotatedPermutes(list, d);
    if waits == [] then [] else
    match FirstWaiting(Rotated(list, d), waits[0])
    case None => []
    case Some(next) => [next] + Turns(Rotated(list, d), next, waits[1..])
  }

  lemma {:induction false} SoonBehind<T>(list: seq<T>, d: T, v: T, waits: seq<set<T>>) returns (k: nat)
    requires Distinct(list) && d in list && v in list && IndexOf(list, d) < IndexOf(list, v)
    requires |waits| >= IndexOf(list, v) && forall i :: 0 <= i < |waits| ==> v in waits[i]
    ensures k < IndexOf(list, v) && k < |Turns(list, d, waits)| && Turns(list, d, waits)[k] == v
    decreases |waits|
  {
    hide Rotated, FirstWaiting, IndexOf;
    var r := Rotated(list, d);
    RotatedPermutes(list, d);
    RotatedPosition(list, d, v);
    FirstIsFirst(r, waits[0], v);
    var next := FirstWaiting(r, waits[0]).value;
    if next == v {
      k := 0;
    } else {
      k := SoonBehind(r, next, v, waits[1..]);
      k := k + 1;
    }
  }

  /** Bounded bypass: a device that goes on waiting is chosen within as many calls as there are devices. */
  lemma BoundedBypass<T>(list: seq<T>, d: T, v: T, waits: seq<set<T>>) returns (k: nat)
    requires Distinct(list) && d in list && v in list
    requires |waits| >= |list| && forall i :: 0 <= i < |waits| ==> v in waits[i]
    ensures k < |list| && k < |Turns(list, d, waits)| && Turns(list, d, waits)[k] == v
  {
    hide Rotated, FirstWaiting, IndexOf;
    var r := Rotated(list, d);
    RotatedPermutes(list, d);
    FirstIsFirst(r, waits[0], v);
    var next := FirstWaiting(r, waits[0]).value;
    if next == v {
      k := 0;
    } else {
      k := SoonBehind(r, next, v, waits[1..]);
      k := k + 1;
    }
  }
}
