/** Positions in sequences, and sequences with an element put in or taken out. */
module Sequences {

  predicate Distinct<T(==)>(s: seq<T>) {
    forall i, j | 0 <= i < j < |s| :: s[i] != s[j]
  }

  function IndexOf<T(==)>(s: seq<T>, x: T): (k: nat)
    requires x in s
    ensures k < |s| && s[k] == x
  {
    if s[0] == x then 0 else 1 + IndexOf(s[1..], x)
  }

  lemma IndexIs<T>(s: seq<T>, k: nat)
    requires Distinct(s) && k < |s|
    ensures IndexOf(s, s[k]) == k
  {
  }

  function Inserted<T>(s: seq<T>, k: nat, x: T): seq<T>
    requires k <= |s|
  {
    s[..k] + [x] + s[k..]
  }

  lemma InsertedAt<T>(s: seq<T>, k: nat, x: T, j: nat)
    requires k <= |s| && j <= |s|
    ensures |Inserted(s, k, x)| == |s| + 1
    ensures Inserted(s, k, x)[j] == if j < k then s[j] else if j == k then x else s[j - 1]
  {
  }

  lemma InsertedDistinct<T>(s: seq<T>, k: nat, x: T)
    requires Distinct(s) && k <= |s| && x !in s
    ensures |Inserted(s, k, x)| == |s| + 1 && Distinct(Inserted(s, k, x))
  {
    var p := Inserted(s, k, x);
    forall i, j | 0 <= i < j < |p| ensures p[i] != p[j] {
      InsertedAt(s, k, x, i);
      InsertedAt(s, k, x, j);
    }
  }

  lemma InsertedMembers<T>(s: seq<T>, k: nat, x: T)
    requires k <= |s|
    ensures forall y :: y in Inserted(s, k, x) <==> y == x || y in s
  {
    forall y | y in s ensures y in Inserted(s, k, x) {
      var j :| 0 <= j < |s| && s[j] == y;
      assert Inserted(s, k, x)[if j < k then j else j + 1] == y;
    }
    assert Inserted(s, k, x)[k] == x;
  }

  function Deleted<T>(s: seq<T>, k: nat): seq<T>
    requires k < |s|
  {
    s[..k] + s[k + 1..]
  }

  lemma DeletedAt<T>(s: seq<T>, k: nat, j: nat)
    requires k < |s| && j + 1 < |s|
    ensures |Deleted(s, k)| == |s| - 1
    ensures Deleted(s, k)[j] == if j < k then s[j] else s[j + 1]
  {
  }

  lemma DeletedMembers<T>(s: seq<T>, k: nat)
    requires k < |s|
    ensures forall y :: y in s <==> y == s[k] || y in Deleted(s, k)
  {
    forall y | y in s && y != s[k] ensures y in Deleted(s, k) {
      var j :| 0 <= j < |s| && s[j] == y;
      assert Deleted(s, k)[if j < k then j else j - 1] == y;
    }
  }
}
