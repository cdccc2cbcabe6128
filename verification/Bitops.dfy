/** The word-level bitmap searches of the scheduler core, over an array of 64-bit words. */
module Bitops {
  const BITS_PER_LONG := 64
  const ONES: bv64 := 0xffff_ffff_ffff_ffff

  /** A number up to the word's width, as a shift amount. */
  function At(i: nat): bv7 {
    if i == 0 then 0 else At(i - 1) + 1
  }

  lemma {:induction false} AtSum(i: nat, j: nat)
    ensures At(i + j) == At(i) + At(j)
    decreases j
  {
    if j > 0 {
      AtSum(i, j - 1);
    }
  }

  /** The powers of two up to the word's width, in both types. */
  predicate Power(w: nat, v: bv7) {
    || (w == 1 && v == 1) || (w == 2 && v == 2) || (w == 4 && v == 4) || (w == 8 && v == 8)
    || (w == 16 && v == 16) || (w == 32 && v == 32) || (w == 64 && v == 64)
  }

  lemma {:induction false} AtPower(w: nat, v: bv7)
    requires Power(w, v)
    ensures At(w) == v
    decreases w
  {
    if w > 1 {
      AtPower(w / 2, v / 2);
      AtSum(w / 2, w / 2);
    } else {
      assert At(0) == 0;
    }
  }

  lemma {:induction false} AtBelow(i: nat, w: nat, v: bv7)
    requires Power(w, v) && i < w
    ensures At(i) < v
    decreases w
  {
    if w > 1 {
      var half := w / 2;
      AtBelow(if i < half then i else i - half, half, v / 2);
      if i >= half {
        AtPower(half, v / 2);
        AtSum(half, i - half);
      }
    }
  }

  lemma {:induction false} AtOrder(i: nat, j: nat)
    requires i <= j < BITS_PER_LONG
    ensures At(i) <= At(j) < 64 && (i < j ==> At(i) < At(j))
  {
    AtBelow(j, 64, 64);
    if i < j {
      AtOrder(i, j - 1);
    }
  }

  function And(x: bv64, y: bv64): bv64 {
    x & y
  }

  function Or(x: bv64, y: bv64): bv64 {
    x | y
  }

  function Not(x: bv64): bv64 {
    !x
  }

  /** 1 << p, ~0 << p and ~0 >> (63 - p). */
  function One(p: bv7): bv64 {
    if p < 64 then 1 << p else 0
  }

  function From(p: bv7): bv64 {
    if p < 64 then ONES << p else 0
  }

  function UpTo(p: bv7): bv64 {
    if p < 64 then ONES >> (63 - p) else ONES
  }

  predicate Has(x: bv64, i: nat)
    requires i < BITS_PER_LONG
  {
    And(x, One(At(i))) != 0
  }

  predicate Lone(x: bv64, m: bv64) {
    And(x, m) == 0 || And(x, m) == m
  }

  lemma OneBit(x: bv64, p: bv7)
    requires p < 64
    ensures One(p) != 0 && Lone(x, One(p))
  {
  }

  lemma AndBit(x: bv64, y: bv64, m: bv64)
    requires Lone(x, m) && Lone(y, m)
    ensures And(And(x, y), m) != 0 <==> And(x, m) != 0 && And(y, m) != 0
  {
    AndWord(x, y, m);
  }

  lemma AndWord(x: bv64, y: bv64, m: bv64)
    requires (x & m == 0 || x & m == m) && (y & m == 0 || y & m == m)
    ensures (x & y) & m != 0 <==> x & m != 0 && y & m != 0
  {
  }

  lemma OrBit(x: bv64, y: bv64, m: bv64)
    ensures And(Or(x, y), m) != 0 <==> And(x, m) != 0 || And(y, m) != 0
  {
    hide And, Or;
    Distributes(x, y, m);
    OrWord(And(x, m), And(y, m));
  }

  lemma Distributes(x: bv64, y: bv64, m: bv64)
    ensures And(Or(x, y), m) == Or(And(x, m), And(y, m))
  {
    assert (x | y) & m == (x & m) | (y & m);
  }

  lemma OrWord(x: bv64, y: bv64)
    ensures Or(x, y) != 0 <==> x != 0 || y != 0
  {
  }

  lemma OnesDiffer(p: bv7, n: bv7)
    requires p < 64 && n < 64
    ensures And(One(n), One(p)) != 0 <==> p == n
    ensures And(Not(One(n)), One(p)) != 0 <==> p != n
  {
  }

  lemma FromBit(p: bv7, n: bv7)
    requires p < 64 && n < 64
    ensures And(From(n), One(p)) != 0 <==> p >= n
  {
  }

  lemma UpToBit(p: bv7, n: bv7)
    requires p < 64 && n < 64
    ensures And(UpTo(n), One(p)) != 0 <==> p <= n
  {
  }

  /** Masking with ~0 << n, or with ~0 >> (63 - n), keeps exactly the bits from n on, or up to n. */
  lemma Masked(x: bv64, n: nat, i: nat)
    requires n < BITS_PER_LONG && i < BITS_PER_LONG
    ensures Has(And(x, From(At(n))), i) <==> Has(x, i) && i >= n
    ensures Has(And(x, UpTo(At(n))), i) <==> Has(x, i) && i <= n
  {
    hide At, And, One, From, UpTo;
    if n <= i { AtOrder(n, i); } else { AtOrder(i, n); }
    FromBit(At(i), At(n));
    UpToBit(At(i), At(n));
    OneBit(x, At(i));
    OneBit(From(At(n)), At(i));
    OneBit(UpTo(At(n)), At(i));
    AndBit(x, From(At(n)), One(At(i)));
    AndBit(x, UpTo(At(n)), One(At(i)));
  }

  lemma Switched(x: bv64, n: nat, i: nat)
    requires n < BITS_PER_LONG && i < BITS_PER_LONG
    ensures Has(Or(x, One(At(n))), i) <==> Has(x, i) || i == n
    ensures Has(And(x, Not(One(At(n)))), i) <==> Has(x, i) && i != n
  {
    hide At, And, Or, Not, One;
    if n <= i { AtOrder(n, i); } else { AtOrder(i, n); }
    OneBit(x, At(i));
    OneBit(Not(One(At(n))), At(i));
    OrBit(x, One(At(n)), One(At(i)));
    AndBit(x, Not(One(At(n))), One(At(i)));
    OnesDiffer(At(i), At(n));
  }

  lemma BitOfMasked(x: bv64, y: bv64, i: nat)
    requires i < BITS_PER_LONG && Has(And(x, y), i)
    ensures Has(x, i)
  {
    hide At, And, One;
    AtOrder(i, i);
    OneBit(x, At(i));
    OneBit(y, At(i));
    AndBit(x, y, One(At(i)));
  }

  /** The bits below position p; all of them when p is the word's width. */
  function Below(p: bv7): bv64 {
    if p < 64 then !(ONES << p) else ONES
  }

  lemma BelowNext(p: bv7)
    requires p < 64
    ensures Below(p + 1) == Or(Below(p), One(p))
  {
  }

  lemma BelowEnds(x: bv64)
    ensures And(x, Below(0)) == 0
    ensures And(x, Below(64)) == 0 ==> x == 0
  {
  }

  lemma {:induction false} NoneBelow(x: bv64, n: nat)
    requires n <= BITS_PER_LONG && forall i :: 0 <= i < n ==> !Has(x, i)
    ensures And(x, Below(At(n))) == 0
  {
    hide And, One, Below;
    if n == 0 {
      BelowEnds(x);
    } else {
      assert !Has(x, n - 1);
      NoneBelow(x, n - 1);
      Step(x, n - 1);
    }
  }

  lemma Step(x: bv64, n: nat)
    requires n < BITS_PER_LONG && And(x, Below(At(n))) == 0 && !Has(x, n)
    ensures And(x, Below(At(n + 1))) == 0
  {
    hide And, Or, One, Below;
    AtOrder(n, n);
    BelowNext(At(n));
    Commutes(x, Below(At(n)));
    Commutes(x, One(At(n)));
    Commutes(x, Below(At(n + 1)));
    OrBit(Below(At(n)), One(At(n)), x);
  }

  lemma Commutes(x: bv64, y: bv64)
    ensures And(x, y) == And(y, x)
  {
  }

  lemma ZeroHasNone(x: bv64)
    ensures x == 0 <==> forall i :: 0 <= i < BITS_PER_LONG ==> !Has(x, i)
  {
    hide One, At;
    if forall i :: 0 <= i < BITS_PER_LONG ==> !Has(x, i) {
      NoneBelow(x, BITS_PER_LONG);
      BelowEnds(x);
      AtPower(64, 64);
    }
  }

  /** The kernel's __ffs and __fls: the lowest and the highest set bit of a non-zero word. */
  method FindFirst(word: bv64) returns (i: nat)
    requires word != 0
    ensures i < BITS_PER_LONG && Has(word, i)
    ensures forall k :: 0 <= k < i ==> !Has(word, k)
  {
    hide Has;
    ZeroHasNone(word);
    i := 0;
    while !Has(word, i)
      invariant i < BITS_PER_LONG && forall k :: 0 <= k < i ==> !Has(word, k)
      decreases BITS_PER_LONG - i
    {
      i := i + 1;
    }
  }

  method FindLast(word: bv64) returns (i: nat)
    requires word != 0
    ensures i < BITS_PER_LONG && Has(word, i)
    ensures forall k :: i < k < BITS_PER_LONG ==> !Has(word, k)
  {
    hide Has;
    ZeroHasNone(word);
    i := BITS_PER_LONG - 1;
    while !Has(word, i)
      invariant i < BITS_PER_LONG && forall k :: i < k < BITS_PER_LONG ==> !Has(word, k)
      decreases i
    {
      i := i - 1;
    }
  }

  /** Bit n of a bitmap. */
  predicate IsSet(b: seq<bv64>, n: nat)
    requires n < |b| * BITS_PER_LONG
  {
    Has(b[n / BITS_PER_LONG], n % BITS_PER_LONG)
  }

  /** No bit of [from, to) is set. */
  predicate Clear(b: seq<bv64>, from: int, to: int) {
    forall n :: 0 <= n < |b| * BITS_PER_LONG && from <= n < to ==> !IsSet(b, n)
  }

  /** r is the first set bit from `offset` on, or -1 when there is none. */
  predicate IsNext(b: seq<bv64>, offset: int, r: int) {
    if r == -1 then Clear(b, offset, |b| * BITS_PER_LONG)
    else 0 <= r < |b| * BITS_PER_LONG && offset <= r && IsSet(b, r) && Clear(b, offset, r)
  }

  /** r is the last set bit up to `offset`, or -1 when there is none. */
  predicate IsPrevious(b: seq<bv64>, offset: int, r: int) {
    if r == -1 then Clear(b, 0, offset + 1)
    else 0 <= r < |b| * BITS_PER_LONG && r <= offset && IsSet(b, r) && Clear(b, r + 1, offset + 1)
  }

  lemma WordBits(b: seq<bv64>, i: nat)
    requires i < |b|
    ensures b[i] == 0 <==> Clear(b, i * BITS_PER_LONG, (i + 1) * BITS_PER_LONG)
  {
    hide Has;
    ZeroHasNone(b[i]);
    if Clear(b, i * BITS_PER_LONG, (i + 1) * BITS_PER_LONG) {
      forall k | 0 <= k < BITS_PER_LONG ensures !Has(b[i], k) {
        assert !IsSet(b, i * BITS_PER_LONG + k);
      }
    }
  }

  method FindFirstSet(b: seq<bv64>) returns (r: int)
    ensures IsNext(b, 0, r)
  {
    hide Has;
    for i := 0 to |b|
      invariant Clear(b, 0, i * BITS_PER_LONG)
    {
      WordBits(b, i);
      if b[i] != 0 {
        var bit := FindFirst(b[i]);
        r := bit + i * BITS_PER_LONG;
        return;
      }
    }
    r := -1;
  }

  function SetBit(b: seq<bv64>, n: nat): (c: seq<bv64>)
    requires n < |b| * BITS_PER_LONG
    ensures |c| == |b|
  {
    var w := n / BITS_PER_LONG;
    b[w := Or(b[w], One(At(n % BITS_PER_LONG)))]
  }

  function ClearBit(b: seq<bv64>, n: nat): (c: seq<bv64>)
    requires n < |b| * BITS_PER_LONG
    ensures |c| == |b|
  {
    var w := n / BITS_PER_LONG;
    b[w := And(b[w], Not(One(At(n % BITS_PER_LONG))))]
  }

  /** Setting or clearing bit n changes that bit and no other. */
  lemma BitSwitched(b: seq<bv64>, n: nat, k: nat)
    requires n < |b| * BITS_PER_LONG && k < |b| * BITS_PER_LONG
    ensures IsSet(SetBit(b, n), k) <==> IsSet(b, k) || k == n
    ensures IsSet(ClearBit(b, n), k) <==> IsSet(b, k) && k != n
  {
    hide Has;
    if n / BITS_PER_LONG == k / BITS_PER_LONG {
      Switched(b[n / BITS_PER_LONG], n % BITS_PER_LONG, k % BITS_PER_LONG);
    }
  }

  /** `tmp` shows the bits of word i that lie within [from, to), and nothing else. */
  predicate Shows(b: seq<bv64>, i: nat, tmp: bv64, from: int, to: int)
    requires i < |b|
  {
    forall k :: 0 <= k < BITS_PER_LONG ==>
      (Has(tmp, k) <==> Has(b[i], k) && from <= i * BITS_PER_LONG + k < to)
  }

  lemma ShowsMasked(b: seq<bv64>, i: nat, offset: nat)
    requires i < |b| && i * BITS_PER_LONG <= offset < (i + 1) * BITS_PER_LONG
    ensures Shows(b, i, And(b[i], From(At(offset - i * BITS_PER_LONG))), offset, |b| * BITS_PER_LONG)
    ensures Shows(b, i, And(b[i], UpTo(At(offset - i * BITS_PER_LONG))), 0, offset + 1)
  {
    hide Has, At, And, From, UpTo;
    forall k | 0 <= k < BITS_PER_LONG
      ensures Has(And(b[i], From(At(offset - i * BITS_PER_LONG))), k) <==> Has(b[i], k) && i * BITS_PER_LONG + k >= offset
      ensures Has(And(b[i], UpTo(At(offset - i * BITS_PER_LONG))), k) <==> Has(b[i], k) && i * BITS_PER_LONG + k <= offset
    {
      Masked(b[i], offset - i * BITS_PER_LONG, k);
    }
  }

  lemma NothingShown(b: seq<bv64>, i: nat, tmp: bv64, from: int, to: int)
    requires i < |b| && Shows(b, i, tmp, from, to) && tmp == 0
    ensures forall n :: from <= n < to && i * BITS_PER_LONG <= n < (i + 1) * BITS_PER_LONG ==> !IsSet(b, n)
  {
    hide Has;
    ZeroHasNone(tmp);
    forall n | from <= n < to && i * BITS_PER_LONG <= n < (i + 1) * BITS_PER_LONG ensures !IsSet(b, n) {
      assert !Has(tmp, n - i * BITS_PER_LONG);
    }
  }

  lemma FirstShown(b: seq<bv64>, i: nat, tmp: bv64, from: int, to: int, bit: nat)
    requires i < |b| && Shows(b, i, tmp, from, to) && Clear(b, from, i * BITS_PER_LONG)
    requires bit < BITS_PER_LONG && Has(tmp, bit) && forall k :: 0 <= k < bit ==> !Has(tmp, k)
    requires to == |b| * BITS_PER_LONG
    ensures IsNext(b, from, i * BITS_PER_LONG + bit)
  {
    hide Has;
    var r := i * BITS_PER_LONG + bit;
    forall n | 0 <= n < |b| * BITS_PER_LONG && from <= n < r ensures !IsSet(b, n) {
      if n >= i * BITS_PER_LONG {
        assert !Has(tmp, n - i * BITS_PER_LONG);
      }
    }
  }

  lemma LastShown(b: seq<bv64>, i: nat, tmp: bv64, to: int, bit: nat)
    requires i < |b| && Shows(b, i, tmp, 0, to) && Clear(b, (i + 1) * BITS_PER_LONG, to)
    requires bit < BITS_PER_LONG && Has(tmp, bit) && forall k :: bit < k < BITS_PER_LONG ==> !Has(tmp, k)
    ensures IsPrevious(b, to - 1, i * BITS_PER_LONG + bit)
  {
    hide Has;
    var r := i * BITS_PER_LONG + bit;
    forall n | 0 <= n < |b| * BITS_PER_LONG && r + 1 <= n < to ensures !IsSet(b, n) {
      if n < (i + 1) * BITS_PER_LONG {
        assert !Has(tmp, n - i * BITS_PER_LONG);
      }
    }
  }

  /** What the machine yields for ~0 << 64 lets bits of the word before `offset` through. */
  predicate Leaks(b: seq<bv64>, offset: int, wide: bv64) {
    && 0 < offset <= |b| * BITS_PER_LONG && offset % BITS_PER_LONG == 0
    && And(b[offset / BITS_PER_LONG - 1], wide) != 0
  }

  /** Bit i of the word is set and none below it. */
  predicate LowestBit(word: bv64, i: int) {
    0 <= i < BITS_PER_LONG && Has(word, i) && forall k :: 0 <= k < i ==> !Has(word, k)
  }

  /** C leaves ~0 << 64 undefined; `wide` stands for whatever it is. The search is right exactly when
  that value lets nothing through, and else finds the lowest bit it lets through. */
  method FindNextSet(b: seq<bv64>, offset: int, wide: bv64) returns (r: int)
    ensures offset < 0 ==> r == -1
    ensures offset >= 0 ==> (IsNext(b, offset, r) <==> !Leaks(b, offset, wide))
    ensures Leaks(b, offset, wide) ==> 0 <= offset - 64 <= r < offset && IsSet(b, r)
    ensures Leaks(b, offset, wide) ==> LowestBit(And(b[offset / 64 - 1], wide), r - (offset - 64))
  {
    hide Has, Shows, And, From;
    if (offset + BITS_PER_LONG - 1) / BITS_PER_LONG > |b| || offset < 0 {
      return -1;
    }
    for i := 0 to |b|
      invariant Clear(b, offset, i * BITS_PER_LONG)
      invariant i * BITS_PER_LONG >= offset ==> !Leaks(b, offset, wide)
    {
      var longOffset := i * BITS_PER_LONG;
      if longOffset + BITS_PER_LONG < offset {
        continue;
      }
      var tmp := b[i];
      if longOffset < offset {
        var mask := if offset - longOffset < BITS_PER_LONG then From(At(offset - longOffset)) else wide;
        tmp := And(b[i], mask);
      }
      WordShows(b, i, offset);
      if tmp != 0 {
        var bit := FindFirst(tmp);
        r := bit + longOffset;
        if longOffset + BITS_PER_LONG > offset {
          FirstShown(b, i, tmp, offset, |b| * BITS_PER_LONG, bit);
        } else {
          BitOfMasked(b[i], wide, bit);
        }
        return;
      }
      if longOffset + BITS_PER_LONG > offset {
        NothingShown(b, i, tmp, offset, |b| * BITS_PER_LONG);
      }
    }
    r := -1;
  }

  lemma WordShows(b: seq<bv64>, i: nat, offset: nat)
    requires i < |b|
    ensures offset <= i * BITS_PER_LONG ==> Shows(b, i, b[i], offset, |b| * BITS_PER_LONG)
    ensures i * BITS_PER_LONG <= offset < (i + 1) * BITS_PER_LONG
      ==> Shows(b, i, And(b[i], From(At(offset - i * BITS_PER_LONG))), offset, |b| * BITS_PER_LONG)
    ensures i * BITS_PER_LONG <= offset < (i + 1) * BITS_PER_LONG
      ==> Shows(b, i, And(b[i], UpTo(At(offset - i * BITS_PER_LONG))), 0, offset + 1)
    ensures (i + 1) * BITS_PER_LONG <= offset ==> Shows(b, i, b[i], 0, offset + 1)
  {
    hide Has;
    if i * BITS_PER_LONG <= offset < (i + 1) * BITS_PER_LONG {
      ShowsMasked(b, i, offset);
    }
  }

  method FindPreviousSet(b: seq<bv64>, offset: int) returns (r: int)
    ensures 0 <= offset <= |b| * BITS_PER_LONG ==> IsPrevious(b, offset, r)
    ensures offset < 0 || offset > |b| * BITS_PER_LONG ==> r == -1
  {
    hide Has, Shows, And, UpTo;
    if (offset + BITS_PER_LONG - 1) / BITS_PER_LONG > |b| || offset < 0 {
      return -1;
    }
    for i := |b| downto 0
      invariant Clear(b, i * BITS_PER_LONG, offset + 1)
    {
      var longOffset := i * BITS_PER_LONG;
      if longOffset > offset {
        continue;
      }
      var tmp := b[i];
      if longOffset + BITS_PER_LONG > offset {
        tmp := And(b[i], UpTo(At(offset - longOffset)));
      }
      WordShows(b, i, offset);
      if tmp != 0 {
        var bit := FindLast(tmp);
        r := bit + longOffset;
        LastShown(b, i, tmp, offset + 1, bit);
        return;
      }
      NothingShown(b, i, tmp, 0, offset + 1);
    }
    r := -1;
  }

  /** On a machine whose shift by 64 is a shift by 0, the search from bit 64 finds bit 3. */
  lemma WrongNext()
    ensures var b: seq<bv64> := [8, 1];
      IsNext(b, 64, 64) && Leaks(b, 64, ONES) && !IsNext(b, 64, 3)
  {
    assert At(0) == 0;
  }
}
