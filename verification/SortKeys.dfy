/** The order of the scheduling queue. */
module SortKeys {
  import opened Sequences
  import opened Timeline

  datatype SortKey = SortKey(index: int, invLaxity: int, runTime: int32)

  /** `operator<`: larger inverse laxity first, then larger run time. */
  predicate Before(a: SortKey, b: SortKey) {
    if a.invLaxity == b.invLaxity then a.runTime > b.runTime else a.invLaxity > b.invLaxity
  }

  ghost predicate Sorted(s: seq<SortKey>) {
    forall i, j | 0 <= i < j < |s| :: !Before(s[j], s[i])
  }

  function InsertKey(k: SortKey, s: seq<SortKey>): seq<SortKey> {
    if s == [] then [k]
    else if Before(s[0], k) then [s[0]] + InsertKey(k, s[1..])
    else [k] + s
  }

  lemma {:induction false} InsertPermutes(k: SortKey, s: seq<SortKey>)
    ensures multiset(InsertKey(k, s)) == multiset(s) + multiset{k}
  {
    if s != [] {
      assert s == [s[0]] + s[1..];
      if Before(s[0], k) { InsertPermutes(k, s[1..]); }
    }
  }

  lemma {:induction false} InsertMembers(k: SortKey, s: seq<SortKey>, j: nat)
    requires j < |InsertKey(k, s)|
    ensures InsertKey(k, s)[j] == k || InsertKey(k, s)[j] in s
    decreases |s|
  {
    if s != [] && Before(s[0], k) && j > 0 {
      InsertMembers(k, s[1..], j - 1);
    }
  }

  lemma {:induction false} InsertSorts(k: SortKey, s: seq<SortKey>)
    requires Sorted(s)
    ensures Sorted(InsertKey(k, s))
    decreases |s|
  {
    if s != [] && Before(s[0], k) {
      var t := InsertKey(k, s[1..]);
      InsertSorts(k, s[1..]);
      forall j | 0 <= j < |t| ensures !Before(t[j], s[0]) {
        InsertMembers(k, s[1..], j);
      }
      SortedFrom(s[0], t);
    }
  }

  lemma SortedFrom(x: SortKey, t: seq<SortKey>)
    requires Sorted(t) && forall j | 0 <= j < |t| :: !Before(t[j], x)
    ensures Sorted([x] + t)
  {
  }

  /** Stands for `std::sort`: of its result only what the contract says is used. */
  function Sort(s: seq<SortKey>): (r: seq<SortKey>)
    ensures Sorted(r) && multiset(r) == multiset(s)
  {
    if s == [] then []
    else
      assert s == [s[0]] + s[1..];
      var t := Sort(s[1..]);
      InsertSorts(s[0], t);
      InsertPermutes(s[0], t);
      InsertKey(s[0], t)
  }

  lemma {:induction false} DistinctCount<T>(s: seq<T>, x: T)
    requires Distinct(s)
    ensures multiset(s)[x] <= 1
  {
    if s != [] {
      assert s == [s[0]] + s[1..];
      DistinctCount(s[1..], x);
      if x == s[0] { assert x !in s[1..]; }
    }
  }

  lemma RepeatCount<T>(s: seq<T>, i: nat, j: nat)
    requires i < j < |s| && s[i] == s[j]
    ensures multiset(s)[s[i]] >= 2
  {
    assert s == s[..j] + [s[j]] + s[j + 1..];
    assert s[i] in s[..j];
  }

  /** A permutation of a sequence without repetitions has none and the same elements. */
  lemma PermutationDistinct<T>(s: seq<T>, r: seq<T>)
    requires Distinct(s) && multiset(r) == multiset(s)
    ensures Distinct(r)
    ensures forall x :: x in r <==> x in s
  {
    forall i, j | 0 <= i < j < |r| ensures r[i] != r[j] {
      if r[i] == r[j] {
        RepeatCount(r, i, j);
        DistinctCount(s, r[i]);
      }
    }
    forall x ensures x in r <==> x in s {
      assert x in multiset(r) <==> x in r;
      assert x in multiset(s) <==> x in s;
    }
  }

  /** Keys that number their positions stay distinct and complete when permuted. */
  lemma KeysPermuted(arr: seq<SortKey>, sorted: seq<SortKey>)
    requires forall i | 0 <= i < |arr| :: arr[i].index == i
    requires multiset(sorted) == multiset(arr)
    ensures |sorted| == |arr|
    ensures forall k | 0 <= k < |sorted| :: 0 <= sorted[k].index < |arr| && sorted[k] == arr[sorted[k].index]
    ensures forall j, k | 0 <= j < k < |sorted| :: sorted[j].index != sorted[k].index
    ensures forall i | 0 <= i < |arr| :: arr[i] in sorted
  {
    PermutationDistinct(arr, sorted);
    assert |multiset(sorted)| == |multiset(arr)|;
    forall k | 0 <= k < |sorted|
      ensures 0 <= sorted[k].index < |arr| && sorted[k] == arr[sorted[k].index]
    {
      assert sorted[k] in arr;
    }
  }
}
