/** Finite sets of integers and their sizes. */
module Sets {

  ghost function Range(a: int, b: int): (s: set<int>)
    requires a <= b
    ensures forall t :: t in s <==> a <= t < b
    decreases b - a
  {
    if a == b then {} else Range(a, b - 1) + {b - 1}
  }

  lemma {:induction false} SubsetSize<T>(a: set<T>, b: set<T>)
    requires a <= b
    ensures |a| <= |b|
    decreases |a|
  {
    if a != {} {
      var x :| x in a;
      SubsetSize(a - {x}, b - {x});
    }
  }
}
