/** The delayed queue: one heap by due time. It also serves, max-first, as the ack queue. */
module DelayedQueue {
  import opened Types
  import opened Order
  import opened Heap
  import Q = QueueSpec

  ghost predicate AllDue(items: map<nat, Item>, now: int) {
    forall id :: id in items ==> items[id].priority <= now
  }

  ghost predicate SomeDue(items: map<nat, Item>, now: int) {
    exists id :: id in items && items[id].priority <= now
  }

  class DelayedQueue {
    const queue: PriorityMemoryQueue

    ghost predicate Valid()
      reads queue
    {
      queue.Valid()
    }

    ghost predicate InOrder()
      reads queue
    {
      queue.InOrder()
    }

    ghost function Contents(): map<nat, Item>
      requires Valid()
      reads queue
    {
      queue.Contents()
    }

    constructor (minFirst: bool)
      ensures Valid() && InOrder() && Contents() == map[] && queue.minFirst == minFirst && fresh(queue)
    {
      queue := new PriorityMemoryQueue(minFirst);
    }

    method Enqueue(item: Item)
      requires Valid() && item.id !in Contents()
      modifies queue
      ensures Valid() && Contents() == old(Contents())[item.id := item]
      ensures old(InOrder()) ==> InOrder()
    {
      queue.Push(item);
    }

    /** Hands out the head once it is due. */
    method Dequeue(now: int) returns (x: Option<Item>)
      requires Valid() && InOrder() && queue.minFirst && Keyed(Contents())
      modifies queue
      ensures Valid() && InOrder()
      ensures (x, Contents()) == Q.DelayedDequeue(old(Contents()), now)
    {
      hide Ordered;
      queue.SizeOfContents();
      if queue.Len() == 0 {
        return None;
      }
      queue.HeadIsFirst();
      FirstUnique(Contents(), queue.items[0]);
      if queue.items[0].priority > now {
        return None;
      }
      var head := queue.Pop();
      x := Some(head);
    }

    function Len(): (n: nat)
      requires Valid()
      reads queue
      ensures n == |Contents()|
    {
      queue.Len()
    }

    /** The ids in the queue, and the item of an id. */
    function Ids(): (ids: set<nat>)
      requires Valid()
      reads queue
      ensures ids == Contents().Keys
    {
      assert queue.idToIndex.Keys == Contents().Keys;
      queue.idToIndex.Keys
    }

    function ItemOf(id: nat): (x: Item)
      requires Valid() && id in Contents()
      reads queue
      ensures x == Contents()[id]
    {
      queue.items[queue.idToIndex[id]]
    }

    /** Whether the head is due, and if not, how long that takes. */
    method PeekReady(now: int) returns (ready: bool, nextReadyIn: int)
      requires Valid() && InOrder() && queue.minFirst && Keyed(Contents())
      ensures ready <==> Q.DelayedDequeue(Contents(), now).0.Some?
      ensures if ready || Contents() == map[] then nextReadyIn == 0 else nextReadyIn > 0
      ensures !ready && Contents() != map[] ==> forall later: int ::
        Q.DelayedDequeue(Contents(), later).0.Some? <==> later >= now + nextReadyIn
    {
      hide Ordered;
      queue.SizeOfContents();
      if queue.Len() == 0 {
        return false, 0;
      }
      queue.HeadIsFirst();
      FirstUnique(Contents(), queue.items[0]);
      var head := queue.items[0];
      if head.priority > now {
        return false, head.priority - now;
      }
      return true, 0;
    }

    /**
     * The head, if its time has come. In a min-first queue that is so once some item is due, but in
     * the max-first ack queue only once all are.
     */
    method PeekReadyItem(now: int) returns (x: Option<Item>)
      requires Valid() && InOrder()
      ensures x.Some? ==> x.value.id in Contents() && Contents()[x.value.id] == x.value && x.value.priority <= now
      ensures x.Some? <==> Contents() != map[] && if queue.minFirst then SomeDue(Contents(), now) else AllDue(Contents(), now)
    {
      hide Ordered;
      queue.SizeOfContents();
      if queue.Len() == 0 {
        return None;
      }
      var head := queue.items[0];
      if queue.minFirst { queue.HeadIsFirst(); } else { queue.HeadIsLast(); }
      if head.priority > now {
        return None;
      }
      return Some(head);
    }

    /**
     * The sweep over the ack queue, with a handler that has every timeout applied. It hands over all
     * messages in flight or none: every expired one exactly if none or all have expired.
     */
    method ExpireAcks(now: int) returns (handed: set<nat>)
      requires Valid() && InOrder() && !queue.minFirst
      modifies queue
      ensures Valid() && InOrder()
      ensures var due := AllDue(old(Contents()), now);
        && handed == (if due then old(Contents()).Keys else {})
        && Contents() == (if due then map[] else old(Contents()))
      ensures (forall id :: id in old(Contents()) && old(Contents())[id].priority <= now ==> id in handed)
         <==> !SomeDue(old(Contents()), now) || AllDue(old(Contents()), now)
    {
      handed := {};
      ghost var before := Contents();
      var item := PeekReadyItem(now);
      while item.Some?
        invariant Valid() && InOrder() && handed <= before.Keys && Contents() == before - handed
        invariant item.Some? ==> item.value.id in Contents()
        invariant item.Some? <==> Contents() != map[] && AllDue(Contents(), now)
        invariant handed != {} ==> AllDue(before, now)
        decreases before.Keys - handed
      {
        var removed := Delete(item.value.id);
        handed := handed + {item.value.id};
        item := PeekReadyItem(now);
      }
      assert AllDue(before, now) ==> AllDue(Contents(), now);
      assert forall id :: id in before ==> id in handed || id in Contents();
    }

    /** Writes to an item in place, without restoring the heap order. */
    method SetPriority(id: nat, priority: int)
      requires Valid() && id in Contents()
      modifies queue
      ensures Valid() && Contents() == old(Contents())[id := old(Contents())[id].(priority := priority)]
    {
      queue.SetPriority(id, priority);
    }

    method Get(id: nat) returns (x: Option<Item>)
      requires Valid()
      ensures x == if id in Contents() then Some(Contents()[id]) else None
    {
      x := queue.Get(id);
    }

    method Delete(id: nat) returns (x: Option<Item>)
      requires Valid()
      modifies queue
      ensures Valid() && Contents() == old(Contents()) - {id}
      ensures x == if id in old(Contents()) then Some(old(Contents())[id]) else None
      ensures old(InOrder()) ==> InOrder()
    {
      x := queue.Delete(id);
    }

    method UpdatePriority(id: nat, priority: int)
      requires Valid()
      modifies queue
      ensures Valid()
      ensures Contents() == if id in old(Contents()) then old(Contents())[id := old(Contents())[id].(priority := priority)]
                            else old(Contents())
      ensures old(InOrder()) ==> InOrder()
    {
      queue.UpdatePriority(id, priority);
    }
  }

  /** Of two messages in flight one has expired: the sweep looks at the later deadline and hands over neither. */
  method LateDeadlineHidesExpired(early: int, late: int, now: int) returns (acks: DelayedQueue, handed: set<nat>)
    requires early <= now < late
    ensures acks.Valid() && SomeDue(acks.Contents(), now) && acks.Contents().Keys == {1, 2} && handed == {}
  {
    hide PriorityMemoryQueue.Valid, PriorityMemoryQueue.Contents, PriorityMemoryQueue.InOrder;
    acks := new DelayedQueue(false);
    acks.Enqueue(Item(1, early, "default"));
    acks.Enqueue(Item(2, late, "default"));
    ghost var items := acks.Contents();
    assert items[1].priority == early && items[2].priority == late;
    handed := acks.ExpireAcks(now);
  }
}
