/** The arbiter of virtual devices over the intrusive list: each device carries its entry in the list of
the physical device, and a queue of entities waiting for it. */
module VirtualGpu {
  import opened Arbiter
  import opened GdevList
  import opened Options
  import opened Sequences
  import WaitQueue

  type SchedEntity = WaitQueue.SchedEntity

  class Device {
    const entry: Link<Device>
    /** The order of the queue of entities waiting for it. */
    var waiting: seq<SchedEntity>

    constructor ()
      ensures Ring([entry]) && fresh(entry) && entry.container == Some(this) && waiting == []
    {
      entry := new Link<Device>(None);
      waiting := [];
      new;
      assert LinkedAt([entry], 0);
      entry.container := Some(this);
      assert LinkedAt([entry], 0);
    }
  }

  /** What waits at each device at the time of a call. */
  type Load = map<Device, seq<SchedEntity>>

  function LoadOf(load: Load, d: Device): seq<SchedEntity> {
    if d in load then load[d] else []
  }

  ghost function Loaded(order: seq<Device>, load: Load): set<Device> {
    set d | d in order && LoadOf(load, d) != []
  }

  ghost function Waits(order: seq<Device>, loads: seq<Load>): (w: seq<set<Device>>)
    ensures |w| == |loads| && forall k | 0 <= k < |loads| :: w[k] == Loaded(order, loads[k])
  {
    seq(|loads|, k requires 0 <= k < |loads| => Loaded(order, loads[k]))
  }

  /** The order of the devices does not matter to what waits. */
  lemma SameWaits(order: seq<Device>, order': seq<Device>, loads: seq<Load>)
    requires (forall d :: d in order <==> d in order') && loads != []
    ensures Loaded(order, loads[0]) == Loaded(order', loads[0])
    ensures Waits(order, loads)[1..] == Waits(order', loads[1..])
  {
    forall k | 0 <= k < |loads| ensures Loaded(order, loads[k]) == Loaded(order', loads[k]) {
    }
  }

  /** A device at which something waits before every call is served within as many calls as there are
  devices. */
  lemma ServedWithin(order: seq<Device>, gdev: Device, v: Device, loads: seq<Load>) returns (k: nat)
    requires Distinct(order) && gdev in order && v in order
    requires |loads| >= |order| && forall load | load in loads :: LoadOf(load, v) != []
    ensures var turns := Turns(order, gdev, Waits(order, loads)); k < |order| && k < |turns| && turns[k] == v
  {
    forall i | 0 <= i < |loads| ensures v in Waits(order, loads)[i] {
      assert loads[i] in loads;
    }
    k := BoundedBypass(order, gdev, v, Waits(order, loads));
  }

  ghost function WaitingOf(order: seq<Device>): set<Device>
    reads order
  {
    set d | d in order && d.waiting != []
  }

  /** The ring of links carries the devices in this order, behind a head that carries none. */
  ghost predicate Carries(ring: seq<Link<Device>>, order: seq<Device>)
    reads (set l | l in ring)`container
  {
    && |ring| == |order| + 1 && ring[0].container == None
    && forall i :: 0 <= i < |order| ==> ring[i + 1] == order[i].entry && ring[i + 1].container == Some(order[i])
  }

  /** Moving the link in front of the head rotates the order. */
  lemma RingRotated(ring: seq<Link<Device>>, order: seq<Device>, d: Device)
    requires Carries(ring, order) && Distinct(order) && d in order
    ensures var k := IndexOf(order, d) + 1;
      Carries(Inserted(Deleted(ring, k), |order|, ring[k]), Rotated(order, d))
  {
    var k := IndexOf(order, d) + 1;
    var turned := Inserted(Deleted(ring, k), |order|, ring[k]);
    forall i | 0 <= i < |turned|
      ensures turned[i] == if i < k then ring[i] else if i + 1 < |ring| then ring[i + 1] else ring[k]
    {
    }
    forall i | 0 <= i < |order|
      ensures |Rotated(order, d)| == |order|
      ensures turned[i + 1] == Rotated(order, d)[i].entry && turned[i + 1].container == Some(Rotated(order, d)[i])
    {
      RotatedAt(order, d, i);
    }
  }

  class Physical {
    const list: Link<Device>
    var current: Option<Device>
    ghost var ring: seq<Link<Device>>
    ghost var order: seq<Device>

    ghost predicate Valid()
      reads this, ring
    {
      Ring(ring) && Carries(ring, order) && Distinct(order) && list == ring[0]
    }

    ghost function Footprint(): set<Link<Device>>
      reads this
    {
      set l | l in ring
    }

    constructor ()
      ensures Valid() && order == [] && current == None && fresh(ring)
    {
      list := new Link<Device>(None);
      current := None;
      order := [];
      new;
      ring := [list];
    }

    method AddDevice(gdev: Device)
      requires Valid() && gdev !in order && gdev.entry !in ring
      requires Ring([gdev.entry]) && gdev.entry.container == Some(gdev)
      modifies this, ring, gdev.entry
      ensures Valid() && order == old(order) + [gdev] && ring == old(ring) + [gdev.entry]
    {
      AddPrev(gdev.entry, list, ring, |ring|);
      assert Inserted(ring, |ring|, gdev.entry) == ring + [gdev.entry];
      ring := ring + [gdev.entry];
      order := order + [gdev];
    }

    method SelectNextCompute(gdev: Device) returns (next: Option<Device>)
      requires Valid() && gdev in order
      modifies this, ring
      ensures Valid()
      ensures order == Rotated(old(order), gdev)
      ensures forall l :: l in ring <==> l in old(ring)
      ensures next == FirstWaiting(order, WaitingOf(order)) == current
      ensures forall d | d in order :: d.waiting == old(d.waiting)
    {
      hide Ring, Carries, Rotated, FirstWaiting;
      MoveToTail(gdev);
      next := FindWaiting();
      current := next;
    }

    lemma Where(gdev: Device)
      requires Valid() && gdev in order
      ensures IndexOf(order, gdev) + 1 < |ring| == |order| + 1
      ensures gdev.entry == ring[IndexOf(order, gdev) + 1]
      ensures var shorter := Deleted(ring, IndexOf(order, gdev) + 1);
        && |shorter| == |order| && shorter[0] == list && gdev.entry !in shorter
        && shorter[|order| - 1] in ring && Inserted(shorter, |order|, gdev.entry)[0] == list
        && forall l :: l in ring <==> l in Inserted(shorter, |order|, gdev.entry)
    {
      var k := IndexOf(order, gdev) + 1;
      var shorter := Deleted(ring, k);
      forall j | 0 <= j < |order| ensures |shorter| == |order| && shorter[j] in ring && shorter[j] != ring[k] {
        DeletedAt(ring, k, j);
      }
      InsertedAt(shorter, |order|, gdev.entry, 0);
      DeletedMembers(ring, k);
      InsertedMembers(shorter, |order|, gdev.entry);
    }

    /** The calls of a run: each is made for the device chosen before it, and in between the queues of all
    virtual devices `vds` have changed to what the next load says. The run ends when nobody is chosen. */
    method Serve(gdev: Device, vds: seq<Device>, loads: seq<Load>) returns (turns: seq<Device>)
      requires Valid() && gdev in order && forall d :: d in order <==> d in vds
      modifies this, Footprint(), vds`waiting
      ensures Valid()
      ensures turns == Turns(old(order), gdev, Waits(old(order), loads))
      decreases |loads|
    {
      hide Ring, Carries, Rotated, FirstWaiting, Waits, Loaded;
      turns := [];
      if loads == [] {
        return;
      }
      ghost var before := order;
      var next := Turn(gdev, vds, loads[0]);
      RotatedPermutes(before, gdev);
      SameWaits(before, order, loads);
      if next.Some? {
        turns := Serve(next.value, vds, loads[1..]);
        turns := [next.value] + turns;
      }
    }

    method Turn(gdev: Device, vds: seq<Device>, load: Load) returns (next: Option<Device>)
      requires Valid() && gdev in order && forall d :: d in order <==> d in vds
      modifies this, Footprint(), vds`waiting
      ensures Valid() && order == Rotated(old(order), gdev)
      ensures Footprint() == old(Footprint())
      ensures next == FirstWaiting(order, Loaded(order, load))
    {
      hide Ring, Carries, Rotated, FirstWaiting;
      ghost var before := order;
      SetLoads(vds, load);
      next := SelectNextCompute(gdev);
      RotatedPermutes(before, gdev);
      assert WaitingOf(order) == Loaded(order, load);
    }

    method SetLoads(vds: seq<Device>, load: Load)
      modifies vds`waiting
      ensures forall d | d in vds :: d.waiting == LoadOf(load, d)
    {
      forall d | d in vds {
        d.waiting := LoadOf(load, d);
      }
    }

    method MoveToTail(gdev: Device)
      requires Valid() && gdev in order
      modifies `ring, `order, ring
      ensures Valid() && order == Rotated(old(order), gdev)
      ensures forall d :: d in order <==> d in old(order)
      ensures forall l :: l in ring <==> l in old(ring)
    {
      hide Carries, Ring, Rotated, Inserted, Deleted;
      Where(gdev);
      ghost var k := IndexOf(order, gdev) + 1;
      ghost var shorter := Deleted(ring, k);
      RingRotated(ring, order, gdev);
      RotatedPermutes(order, gdev);
      ghost var longer, turned := Inserted(shorter, |order|, gdev.entry), Rotated(order, gdev);
      assert Carries(longer, turned);
      Del(gdev.entry, ring, k);
      assert Carries(longer, turned);
      AddPrev(gdev.entry, list, shorter, |order|);
      assert Carries(longer, turned);
      ring, order := longer, turned;
    }

    /** The list walk: from the entry after the head, until an entry has no container: the head. */
    method FindWaiting() returns (p: Option<Device>)
      requires Valid()
      ensures p == FirstWaiting(order, WaitingOf(order))
    {
      hide FirstWaiting;
      var empty := IsEmpty(list, ring);
      if empty {
        FirstFrom(order, 0, WaitingOf(order));
        return None;
      }
      assert LinkedAt(ring, 0);
      p := list.next.container;
      ghost var i, w := 0, WaitingOf(order);
      assert order[0..] == order;
      while p.Some?
        invariant i <= |order| && p == if i < |order| then Some(order[i]) else None
        invariant FirstWaiting(order, w) == FirstWaiting(order[i..], w)
        decreases |order| - i
      {
        FirstFrom(order, i, w);
        if p.value.waiting != [] {
          return;
        }
        p := NextDevice(p.value, i);
        i := i + 1;
      }
    }

    method NextDevice(gdev: Device, ghost i: nat) returns (p: Option<Device>)
      requires Valid() && i < |order| && gdev == order[i]
      ensures p == if i + 1 < |order| then Some(order[i + 1]) else None
    {
      assert ring[i + 1] == gdev.entry;
      assert LinkedAt(ring, i + 1);
      p := gdev.entry.next.container;
    }
  }
}
