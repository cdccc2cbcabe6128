/** The circular, doubly linked list that entries carry in themselves. A list is a ring of links whose
first one is the head; a link alone in its ring is in no list. */
module GdevList {
  import opened Options
  import opened Sequences

  class Link<T> {
    var next: Link<T>
    var prev: Link<T>
    var container: Option<T>

    constructor (container: Option<T>)
      ensures Ring([this]) && this.container == container
    {
      next, prev := this, this;
      this.container := container;
    }
  }

  function Nth<T>(ring: seq<Link<T>>, i: nat): Link<T>
    requires i < |ring|
  {
    ring[i]
  }

  function After(n: nat, i: nat): nat {
    if i + 1 < n then i + 1 else 0
  }

  function Behind(n: nat, i: nat): int {
    if i > 0 then i - 1 else n - 1
  }

  ghost predicate LinkedAt<T>(ring: seq<Link<T>>, i: nat)
    requires i < |ring|
    reads ring
  {
    ring[i].next == ring[After(|ring|, i)] && ring[i].prev == ring[Behind(|ring|, i)]
  }

  ghost predicate Ring<T>(ring: seq<Link<T>>)
    reads ring
  {
    |ring| > 0 && Distinct(ring) && forall i :: 0 <= i < |ring| ==> LinkedAt(ring, i)
  }

  /** In front of `pos`, which is the link at k, or the head when k is the length of the ring. */
  method AddPrev<T>(entry: Link<T>, pos: Link<T>, ghost ring: seq<Link<T>>, ghost k: nat)
    requires Ring(ring) && Ring([entry]) && entry !in ring
    requires 0 < k <= |ring| && pos == ring[if k < |ring| then k else 0]
    modifies entry`next, entry`prev, pos`prev, Nth<T>(ring, k - 1)`next
    ensures Ring(Inserted(ring, k, entry))
  {
    hide Inserted;
    assert LinkedAt(ring, if k < |ring| then k else 0);
    var prev := pos.prev;
    entry.prev := prev;
    prev.next := entry;
    entry.next := pos;
    pos.prev := entry;
    ghost var longer := Inserted(ring, k, entry);
    InsertedDistinct(ring, k, entry);
    forall i | 0 <= i < |longer| ensures LinkedAt(longer, i) {
      InsertedAt(ring, k, entry, i);
      InsertedAt(ring, k, entry, After(|longer|, i));
      InsertedAt(ring, k, entry, Behind(|longer|, i));
      if i < k {
        assert old(LinkedAt(ring, i));
      } else if i > k {
        assert old(LinkedAt(ring, i - 1));
      }
    }
  }

  method Del<T>(entry: Link<T>, ghost ring: seq<Link<T>>, ghost k: nat)
    requires Ring(ring) && 0 < k < |ring| && entry == ring[k]
    modifies entry`next, entry`prev, Nth<T>(ring, k - 1)`next, Nth<T>(ring, After(|ring|, k))`prev
    ensures Ring(Deleted(ring, k)) && Ring([entry])
  {
    assert LinkedAt(ring, k);
    var next, prev := entry.next, entry.prev;
    prev.next := next;
    next.prev := prev;
    entry.next, entry.prev := entry, entry;
    ghost var shorter := Deleted(ring, k);
    assert forall i :: 0 <= i < |shorter| ==> shorter[i] == if i < k then ring[i] else ring[i + 1];
    forall i | 0 <= i < |shorter| ensures LinkedAt(shorter, i) {
      assert old(LinkedAt(ring, if i < k then i else i + 1));
    }
  }

  method IsEmpty<T>(head: Link<T>, ghost ring: seq<Link<T>>) returns (empty: bool)
    requires Ring(ring) && head == ring[0]
    ensures empty <==> |ring| == 1
  {
    assert LinkedAt(ring, 0);
    empty := head.next == head.prev && head.next == head;
  }
}
