/** The driver's object handles: a linked chain of the handles in use, kept in increasing order, from
which a new handle is the first gap. */
module HandleChain {
  import opened Sequences

  const MAX_HANDLE := 0x4000_0000

  predicate Rising(live: seq<int>) {
    && (forall i :: 0 <= i < |live| ==> 1 <= live[i] <= MAX_HANDLE)
    && (forall i, j :: 0 <= i < j < |live| ==> live[i] < live[j])
  }

  /** The least positive number that is not in use. */
  predicate LeastFree(live: seq<int>, h: int) {
    h >= 1 && h !in live && forall g :: 1 <= g < h ==> g in live
  }

  /** The first place that does not hold its own number. */
  predicate IsGap(live: seq<int>, g: nat) {
    && g <= |live| && (forall i :: 0 <= i < g ==> live[i] == i + 1)
    && (g < |live| ==> live[g] != g + 1)
  }

  lemma GapIsAbove(live: seq<int>, g: nat)
    requires Rising(live) && IsGap(live, g)
    ensures forall i :: g <= i < |live| ==> live[i] > g + 1
  {
    if 0 < g < |live| {
      assert live[g - 1] < live[g];
    }
  }

  lemma GapIsLeastFree(live: seq<int>, g: nat)
    requires Rising(live) && IsGap(live, g)
    ensures LeastFree(live, g + 1)
  {
    GapIsAbove(live, g);
    forall h | 1 <= h < g + 1 ensures h in live {
      assert live[h - 1] == h;
    }
  }

  lemma {:induction false} GapExists(live: seq<int>, k: nat) returns (g: nat)
    requires k <= |live| && forall i :: 0 <= i < k ==> live[i] == i + 1
    ensures IsGap(live, g)
    decreases |live| - k
  {
    if k < |live| && live[k] == k + 1 {
      g := GapExists(live, k + 1);
    } else {
      g := k;
    }
  }

  /** The least free handle is at most one more than the number in use. */
  lemma LeastFreeBound(live: seq<int>, h: int)
    requires Rising(live) && LeastFree(live, h)
    ensures h <= |live| + 1
  {
    var g := GapExists(live, 0);
    GapIsLeastFree(live, g);
    assert h < g + 1 ==> h in live;
    assert g + 1 < h ==> g + 1 in live;
  }

  lemma FilledRises(live: seq<int>, g: nat)
    requires Rising(live) && IsGap(live, g) && g < MAX_HANDLE
    ensures Rising(Inserted(live, g, g + 1))
  {
    hide Inserted;
    var p := Inserted(live, g, g + 1);
    InsertedAt(live, g, g + 1, 0);
    GapIsAbove(live, g);
    forall i | 0 <= i < |p| ensures 1 <= p[i] <= MAX_HANDLE {
      InsertedAt(live, g, g + 1, i);
    }
    forall i, j | 0 <= i < j < |p| ensures p[i] < p[j] {
      InsertedAt(live, g, g + 1, i);
      InsertedAt(live, g, g + 1, j);
    }
  }

  lemma DroppedRises(live: seq<int>, k: nat)
    requires Rising(live) && k < |live|
    ensures Rising(Deleted(live, k))
    ensures forall h :: h in Deleted(live, k) <==> h in live && h != live[k]
  {
    var p := Deleted(live, k);
    assert forall i :: 0 <= i < |p| ==> p[i] == if i < k then live[i] else live[i + 1];
    forall h | h in live && h != live[k] ensures h in p {
      var i :| 0 <= i < |live| && live[i] == h;
      assert p[if i < k then i else i - 1] == h;
    }
  }

  /** Freeing the handle just allocated leaves the chain as it was. */
  lemma AllocFreeUndo(live: seq<int>, g: nat)
    requires Rising(live) && IsGap(live, g) && g < MAX_HANDLE
    ensures Inserted(live, g, g + 1)[g] == g + 1 && Deleted(Inserted(live, g, g + 1), g) == live
  {
  }

  class Handle {
    var next: Handle?
    const handle: int

    constructor (handle: int, next: Handle?)
      ensures this.handle == handle && this.next == next
    {
      this.handle, this.next := handle, next;
    }
  }

  ghost function Handles(chain: seq<Handle>): (live: seq<int>)
    ensures |live| == |chain| && forall i :: 0 <= i < |chain| ==> live[i] == chain[i].handle
  {
    seq(|chain|, i requires 0 <= i < |chain| => chain[i].handle)
  }

  datatype Outcome = Handed(handle: int) | Freed | Abort

  function NodeAt(chain: seq<Handle>, i: nat): Handle? {
    if i < |chain| then chain[i] else null
  }

  ghost predicate LinkedAt(chain: seq<Handle>, i: nat)
    requires i < |chain|
    reads chain
  {
    chain[i].next == NodeAt(chain, i + 1)
  }

  ghost predicate Chained(chain: seq<Handle>)
    reads chain
  {
    forall i :: 0 <= i < |chain| ==> LinkedAt(chain, i)
  }

  lemma NodesDiffer(chain: seq<Handle>, i: nat, j: nat)
    requires Rising(Handles(chain)) && i < j < |chain|
    ensures chain[i] != chain[j]
  {
    assert Handles(chain)[i] < Handles(chain)[j];
  }

  class Context {
    var hchain: Handle?
    ghost var chain: seq<Handle>

    ghost predicate Valid()
      reads this, chain
    {
      Rising(Handles(chain)) && hchain == NodeAt(chain, 0) && Chained(chain)
    }

    constructor ()
      ensures Valid() && chain == []
    {
      hchain := null;
      chain := [];
    }

    /** `previous` is the node whose link the walk has a pointer to; null for the head of the chain. */
    method FindGap() returns (previous: Handle?, at: Handle?, expected: nat)
      requires Valid()
      ensures expected >= 1 && IsGap(Handles(chain), expected - 1)
      ensures at == NodeAt(chain, expected - 1)
      ensures previous == if expected == 1 then null else chain[expected - 2]
    {
      previous, at, expected := null, hchain, 1;
      ghost var live := Handles(chain);
      while at != null && at.handle == expected
        invariant 1 <= expected <= |chain| + 1
        invariant at == NodeAt(chain, expected - 1)
        invariant previous == (if expected == 1 then null else chain[expected - 2])
        invariant forall i :: 0 <= i < expected - 1 ==> live[i] == i + 1
        decreases |chain| - expected
      {
        assert LinkedAt(chain, expected - 1);
        previous, at := at, at.next;
        expected := expected + 1;
      }
    }

    /** Linking a new node in behind `previous`, in front of the k-th. */
    method Splice(previous: Handle?, node: Handle, ghost k: nat)
      requires Valid() && k <= |chain| && node !in chain && node.next == NodeAt(chain, k)
      requires previous == if k == 0 then null else chain[k - 1]
      requires Rising(Inserted(Handles(chain), k, node.handle))
      modifies this, previous
      ensures Valid() && chain == old(chain[..k] + [node] + chain[k..])
      ensures Handles(chain) == old(Inserted(Handles(chain), k, node.handle))
    {
      hide Rising;
      ghost var was := chain;
      if previous == null {
        hchain := node;
      } else {
        previous.next := node;
      }
      chain := chain[..k] + [node] + chain[k..];
      forall i | 0 <= i < |chain| ensures LinkedAt(chain, i) {
        if i < k {
          assert old(LinkedAt(was, i));
        } else if i > k {
          assert old(LinkedAt(was, i - 1));
        }
        if 0 < k && i != k && i != k - 1 {
          NodesDiffer(was, if i < k then i else k - 1, if i < k then k - 1 else i - 1);
        }
      }
      assert Handles(chain) == Inserted(Handles(was), k, node.handle);
    }

    /** When all handles up to the largest are in use there is none to hand out. */
    method Alloc() returns (outcome: Outcome)
      requires Valid()
      modifies this, chain
      ensures Valid()
      ensures outcome.Abort? <==> forall h :: 1 <= h <= 0x4000_0000 ==> h in old(Handles(chain))
      ensures outcome.Abort? ==> chain == old(chain)
      ensures !outcome.Abort? ==>
        && outcome.Handed? && LeastFree(old(Handles(chain)), outcome.handle)
        && outcome.handle - 1 <= |old(chain)|
        && Handles(chain) == old(Inserted(Handles(chain), outcome.handle - 1, outcome.handle))
    {
      hide IsGap, Inserted;
      var previous, at, expected := FindGap();
      GapIsLeastFree(Handles(chain), expected - 1);
      if expected > MAX_HANDLE {
        return Abort;
      }
      assert expected !in Handles(chain);
      LeastFreeBound(Handles(chain), expected);
      FilledRises(Handles(chain), expected - 1);
      var node := new Handle(expected, at);
      Splice(previous, node, expected - 1);
      outcome := Handed(expected);
    }

    /** Freeing a handle that is not in use aborts. */
    method Free(handle: int) returns (outcome: Outcome)
      requires Valid()
      modifies this, chain
      ensures Valid()
      ensures outcome == if handle in old(Handles(chain)) then Freed else Abort
      ensures handle !in old(Handles(chain)) ==> chain == old(chain)
      ensures forall h :: h in Handles(chain) <==> h in old(Handles(chain)) && h != handle
    {
      var previous: Handle?, at := null, hchain;
      ghost var k: nat := 0;
      while at != null && at.handle != handle
        invariant k <= |chain| && at == NodeAt(chain, k)
        invariant previous == (if k == 0 then null else chain[k - 1])
        invariant forall i :: 0 <= i < k ==> chain[i].handle != handle
        decreases |chain| - k
      {
        assert LinkedAt(chain, k);
        previous, at := at, at.next;
        k := k + 1;
      }
      if at == null {
        return Abort;
      }
      DroppedRises(Handles(chain), k);
      Unlink(previous, at, k);
      outcome := Freed;
    }

    method Unlink(previous: Handle?, at: Handle, ghost k: nat)
      requires Valid() && k < |chain| && at == chain[k]
      requires previous == if k == 0 then null else chain[k - 1]
      requires Rising(Deleted(Handles(chain), k))
      modifies this, previous
      ensures Valid() && Handles(chain) == old(Deleted(Handles(chain), k))
    {
      ghost var was := chain;
      hide Rising;
      assert LinkedAt(chain, k);
      if previous == null {
        hchain := at.next;
      } else {
        previous.next := at.next;
      }
      chain := chain[..k] + chain[k + 1..];
      forall i | 0 <= i < |chain| ensures LinkedAt(chain, i) {
        assert old(LinkedAt(was, if i < k then i else i + 1));
        if 0 < k && i != k - 1 {
          NodesDiffer(was, if i < k then i else k - 1, if i < k then k - 1 else i + 1);
        }
      }
      assert Handles(chain) == Deleted(Handles(was), k);
    }
  }
}
