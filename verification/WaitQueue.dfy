/** The queue of entities that wait for a virtual device, on the intrusive list: highest priority first,
first come first served within a priority. */
module WaitQueue {
  import opened GdevList
  import opened Options
  import opened Sequences

  class SchedEntity {
    const entry: Link<SchedEntity>
    const prio: int

    constructor (prio: int)
      ensures this.prio == prio && Alone(this) && fresh(entry)
    {
      this.prio := prio;
      entry := new Link<SchedEntity>(None);
      new;
      assert LinkedAt([entry], 0);
      entry.container := Some(this);
      assert LinkedAt([entry], 0);
    }
  }

  /** The entity is in no list. */
  ghost predicate Alone(se: SchedEntity)
    reads se.entry
  {
    Ring([se.entry]) && se.entry.container == Some(se)
  }

  ghost predicate Carries(ring: seq<Link<SchedEntity>>, order: seq<SchedEntity>)
    reads (set l | l in ring)`container
  {
    && |ring| == |order| + 1 && ring[0].container == None
    && forall i :: 0 <= i < |order| ==> ring[i + 1] == order[i].entry && ring[i + 1].container == Some(order[i])
  }

  predicate ByPriority(order: seq<SchedEntity>) {
    forall i, j :: 0 <= i < j < |order| ==> order[i].prio >= order[j].prio
  }

  lemma CarriesInserted(ring: seq<Link<SchedEntity>>, order: seq<SchedEntity>, k: nat, se: SchedEntity)
    requires Carries(ring, order) && k <= |order| && se.entry.container == Some(se)
    ensures Carries(Inserted(ring, k + 1, se.entry), Inserted(order, k, se))
  {
    var longer, order' := Inserted(ring, k + 1, se.entry), Inserted(order, k, se);
    InsertedAt(ring, k + 1, se.entry, 0);
    forall i | 0 <= i < |order'|
      ensures longer[i + 1] == order'[i].entry && longer[i + 1].container == Some(order'[i])
    {
      InsertedAt(ring, k + 1, se.entry, i + 1);
      InsertedAt(order, k, se, i);
    }
  }

  lemma PrioritiesInserted(order: seq<SchedEntity>, k: nat, se: SchedEntity)
    requires ByPriority(order) && k <= |order|
    requires forall i :: 0 <= i < |order| ==> (i < k <==> order[i].prio >= se.prio)
    ensures ByPriority(Inserted(order, k, se))
  {
    var order' := Inserted(order, k, se);
    forall i, j | 0 <= i < j < |order'| ensures order'[i].prio >= order'[j].prio {
      InsertedAt(order, k, se, i);
      InsertedAt(order, k, se, j);
    }
  }

  class Queue {
    const list: Link<SchedEntity>
    ghost var ring: seq<Link<SchedEntity>>
    ghost var order: seq<SchedEntity>

    ghost predicate Valid()
      reads this, ring
    {
      Ring(ring) && Carries(ring, order) && list == ring[0] && ByPriority(order)
    }

    constructor ()
      ensures Valid() && order == [] && fresh(ring)
    {
      list := new Link<SchedEntity>(None);
      order := [];
      new;
      ring := [list];
    }

    /** `__gdev_enqueue_compute`: relinks the entity in front of the first one of lower priority, or in front
    of the head if there is none. */
    method Enqueue(se: SchedEntity) returns (ghost k: nat)
      requires Valid() && Alone(se) && se.entry !in ring
      modifies this, ring, se.entry
      ensures Valid()
      ensures k <= |old(order)| && order == Inserted(old(order), k, se)
      ensures forall i :: 0 <= i < |old(order)| ==> (i < k <==> old(order)[i].prio >= se.prio)
      ensures ring == Inserted(old(ring), k + 1, se.entry)
    {
      var at: Link<SchedEntity>;
      at, k := FindPlace(se);
      CarriesInserted(ring, order, k, se);
      PrioritiesInserted(order, k, se);
      ghost var longer, order' := Inserted(ring, k + 1, se.entry), Inserted(order, k, se);
      InsertedAt(ring, k + 1, se.entry, 0);
      hide Carries;
      AddPrev(se.entry, at, ring, k + 1);
      assert Carries(longer, order');
      ring, order := longer, order';
    }

    /** The walk: the entry of the first entity of lower priority, or the head. */
    method FindPlace(se: SchedEntity) returns (at: Link<SchedEntity>, ghost k: nat)
      requires Valid()
      ensures k <= |order| && at == if k < |order| then ring[k + 1] else ring[0]
      ensures forall i :: 0 <= i < |order| ==> (i < k <==> order[i].prio >= se.prio)
    {
      assert LinkedAt(ring, 0);
      at := list.next;
      k := 0;
      while at.container.Some? && se.prio <= at.container.value.prio
        invariant k <= |order| && at == if k < |order| then ring[k + 1] else ring[0]
        invariant forall i :: 0 <= i < k ==> order[i].prio >= se.prio
        decreases |order| - k
      {
        assert LinkedAt(ring, k + 1);
        at := at.next;
        k := k + 1;
      }
      if k < |order| {
        assert at.container == Some(order[k]);
        forall i | k <= i < |order| ensures order[i].prio < se.prio {
          assert order[k].prio >= order[i].prio;
        }
      }
    }

    /** The arbiter's test whether anything waits, on the pointers of the head. */
    method NothingWaits() returns (nothing: bool)
      requires Valid()
      ensures nothing <==> order == []
    {
      nothing := IsEmpty(list, ring);
    }

    /** `__gdev_dequeue_compute`. */
    method Dequeue(se: SchedEntity, ghost k: nat)
      requires Valid() && k < |order| && order[k] == se
      modifies this, ring
      ensures Valid() && Alone(se)
      ensures order == Deleted(old(order), k) && ring == Deleted(old(ring), k + 1)
    {
      CarriesDeleted(ring, order, k);
      ghost var shorter, order' := Deleted(ring, k + 1), Deleted(order, k);
      Del(se.entry, ring, k + 1);
      ring, order := shorter, order';
    }
  }

  lemma CarriesDeleted(ring: seq<Link<SchedEntity>>, order: seq<SchedEntity>, k: nat)
    requires Carries(ring, order) && ByPriority(order) && k < |order|
    ensures Carries(Deleted(ring, k + 1), Deleted(order, k)) && ByPriority(Deleted(order, k))
    ensures Deleted(ring, k + 1)[0] == ring[0]
  {
    var shorter, order' := Deleted(ring, k + 1), Deleted(order, k);
    DeletedAt(ring, k + 1, 0);
    assert |order'| == |order| - 1 && |shorter| == |order|;
    forall i | 0 <= i < |order'|
      ensures order'[i] == if i < k then order[i] else order[i + 1]
      ensures shorter[i + 1] == order'[i].entry && shorter[i + 1].container == Some(order'[i])
    {
      DeletedAt(ring, k + 1, i + 1);
      DeletedAt(order, k, i);
    }
  }
}
