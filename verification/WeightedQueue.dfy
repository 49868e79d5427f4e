/**
 * The fair weighted queue in place: a heap per group, the unacked counters and the weight tree. Each
 * method takes the queue from one state of the specification to the next.
 */
module WeightedQueue {
  import opened Types
  import opened Order
  import opened Heap
  import opened Weights
  import opened AvlNodes
  import opened Counters
  import WQ = WeightedSpec
  import WQP = WeightedProperties

  /** Zero stands for no limit, until an update replaces it by the largest int64. */
  function Effective(maxUnacked: int): (limit: int)
    ensures 0 <= maxUnacked <= MAX_INT64 ==> 0 < limit <= MAX_INT64
  {
    if maxUnacked == 0 then MAX_INT64 else maxUnacked
  }

  class FairWeightedQueue {
    var maxUnacked: int
    const weights: WeightedAVL
    var unackedByGroup: map<string, int>
    var queues: map<string, PriorityMemoryQueue>
    ghost var items: map<nat, Item>
    ghost var unacked: multiset<string>
    ghost var Repr: set<object>

    /** Every object is in the footprint, and no two groups share a heap. */
    ghost predicate Framed()
      reads this, Repr
    {
      && this in Repr && weights in Repr && weights.Repr <= Repr && this !in weights.Repr && weights.Valid()
      && (forall g :: g in queues ==> queues[g] in Repr && queues[g] !in weights.Repr)
      && (forall g, h :: g in queues && h in queues && g != h ==> queues[g] != queues[h])
    }

    ghost predicate HeapOk(g: string)
      requires g in queues
      reads this, queues[g]
    {
      queues[g].Valid() && queues[g].InOrder() && queues[g].minFirst && queues[g].Contents() == WQ.ItemsOf(items, g)
    }

    ghost predicate HeapsOk()
      requires Framed()
      reads this, Repr
    {
      forall g :: g in queues ==> HeapOk(g)
    }

    /** The heaps hold the items, group by group, and the counters count the slots. */
    ghost predicate Stored()
      reads this, Repr
      ensures Stored() ==> this in Repr && weights in Repr && weights.Repr <= Repr && weights.Valid()
      ensures Stored() ==> this !in weights.Repr
      ensures Stored() ==> forall g :: g in queues ==> queues[g] in Repr && queues[g] !in weights.Repr
      ensures Stored() ==> 0 <= maxUnacked <= MAX_INT64 && Keyed(items) && Counts(unackedByGroup, unacked)
    {
      Framed() && HeapsOk() && Keyed(items) && Counts(unackedByGroup, unacked) && 0 <= maxUnacked <= MAX_INT64
    }

    ghost function State(): WQ.State
      requires Stored()
      reads this, Repr
    {
      WQ.State(items, unacked, Effective(maxUnacked), weights.Weights())
    }

    /** The weight tree, the heaps and the counters agree on which groups exist. */
    ghost predicate Valid()
      reads this, Repr
    {
      Stored() && WQ.WellFormed(State()) && queues.Keys == weights.Weights().Keys
    }

    constructor (maxUnacked: uint32)
      ensures Valid() && fresh(Repr) && State() == WQ.New(maxUnacked)
    {
      this.maxUnacked := maxUnacked;
      weights := new WeightedAVL();
      unackedByGroup, queues := map[], map[];
      items, unacked := map[], multiset{};
      new;
      hide WeightedAVL.Valid, WeightedAVL.Weights;
      Repr := {this} + weights.Repr;
      WQP.NewWellFormed(maxUnacked);
    }

    // ---------- One heap, one counter or one weight at a time ----------

    /** Heaps that are left alone keep their items; only that of `group` needs a look. */
    twostate lemma HeapsKept(group: string)
      requires old(Framed()) && old(HeapsOk()) && Framed() && (group in queues ==> HeapOk(group))
      requires forall h :: h in queues && h != group ==>
        h in old(queues) && queues[h] == old(queues)[h] && unchanged(queues[h])
      requires forall h :: h in queues && h != group ==> WQ.ItemsOf(items, h) == WQ.ItemsOf(old(items), h)
      ensures HeapsOk()
    {
      hide PriorityMemoryQueue.Valid, PriorityMemoryQueue.InOrder, PriorityMemoryQueue.Contents;
      hide WeightedAVL.Valid, WQ.ItemsOf;
      forall h | h in queues ensures HeapOk(h) {
        assert h != group ==> old(HeapOk(h));
      }
    }

    function Size(group: string): (n: nat)
      requires Stored() && group in queues
      reads this, Repr
      ensures n == |WQ.ItemsOf(items, group)|
    {
      assert HeapOk(group);
      queues[group].Len()
    }

    /** Creates the group's heap if there is none yet. */
    method EnsureGroup(group: string)
      requires Valid()
      modifies this
      ensures fresh(Repr - old(Repr))
      ensures Stored() && State() == old(State()) && group in queues
      ensures queues.Keys == weights.Weights().Keys + {group}
    {
      hide PriorityMemoryQueue.Valid, PriorityMemoryQueue.InOrder, PriorityMemoryQueue.Contents;
      hide WeightedAVL.Valid, WeightedAVL.Weights, WQ.ItemsOf, WQ.CalculateWeight, WQ.WellFormed, WQ.UpToDate, WQ.Gated;
      if group !in queues {
        InUse(State(), group);
        var heap := new PriorityMemoryQueue(true);
        queues := queues[group := heap];
        Repr := Repr + {heap};
        assert Framed();
        HeapsKept(group);
      }
    }

    method Put(group: string, item: Item)
      requires Stored() && group in queues && item.group == group && item.id !in items
      modifies queues[group], `items
      ensures Stored() && State() == old(State()).(items := old(items)[item.id := item])
    {
      hide PriorityMemoryQueue.Valid, PriorityMemoryQueue.InOrder, PriorityMemoryQueue.Contents;
      hide WeightedAVL.Valid, WeightedAVL.Weights, WQ.ItemsOf, WQ.CalculateWeight, WQ.WellFormed, WQ.UpToDate, WQ.Gated;
      assert HeapOk(group);
      WQP.ItemsAfterAdd(items, item);
      InGroup(items, item.id, group);
      queues[group].Push(item);
      items := items[item.id := item];
      HeapsKept(group);
    }

    method Take(group: string) returns (x: Item)
      requires Stored() && group in queues && WQ.ItemsOf(items, group) != map[]
      modifies queues[group], `items
      ensures Stored() && State() == old(State()).(items := old(items) - {x.id})
      ensures IsFirst(WQ.ItemsOf(old(items), group), x)
    {
      hide PriorityMemoryQueue.Valid, PriorityMemoryQueue.InOrder, PriorityMemoryQueue.Contents;
      hide WeightedAVL.Valid, WeightedAVL.Weights, WQ.ItemsOf, WQ.CalculateWeight, WQ.WellFormed, WQ.UpToDate, WQ.Gated;
      assert HeapOk(group);
      queues[group].SizeOfContents();
      x := queues[group].Pop();
      InGroup(items, x.id, group);
      WQP.ItemsAfterRemove(items, x.id);
      items := items - {x.id};
      HeapsKept(group);
    }

    method Drop(group: string, id: nat) returns (x: Option<Item>)
      requires Stored() && group in queues
      modifies queues[group], `items
      ensures Stored() && x == WQ.Get(old(State()), group, id)
      ensures State() == old(State()).(items := if x.Some? then old(items) - {id} else old(items))
    {
      hide PriorityMemoryQueue.Valid, PriorityMemoryQueue.InOrder, PriorityMemoryQueue.Contents;
      hide WeightedAVL.Valid, WeightedAVL.Weights, WQ.ItemsOf, WQ.CalculateWeight, WQ.WellFormed, WQ.UpToDate, WQ.Gated;
      assert HeapOk(group);
      InGroup(items, id, group);
      x := queues[group].Delete(id);
      if x.Some? {
        WQP.ItemsAfterRemove(items, id);
        items := items - {id};
      }
      HeapsKept(group);
    }

    method Change(group: string, id: nat, priority: int)
      requires Stored() && group in queues
      modifies queues[group], `items
      ensures Stored() && State() == WQ.UpdatePriority(old(State()), group, id, priority)
    {
      hide PriorityMemoryQueue.Valid, PriorityMemoryQueue.InOrder, PriorityMemoryQueue.Contents;
      hide WeightedAVL.Valid, WeightedAVL.Weights, WQ.ItemsOf, WQ.CalculateWeight, WQ.WellFormed, WQ.UpToDate, WQ.Gated;
      assert HeapOk(group);
      InGroup(items, id, group);
      queues[group].UpdatePriority(id, priority);
      if id in WQ.ItemsOf(items, group) {
        ItemsAfterChange(items, group, id, priority);
        items := items[id := items[id].(priority := priority)];
      }
      HeapsKept(group);
    }

    /** Adds `n` to the group's counter. */
    method Count(group: string, n: int)
      requires Stored() && (n == 1 || (n == -1 && group in unacked))
      modifies `unackedByGroup, `unacked
      ensures Stored() && group in unackedByGroup
      ensures State() == old(State()).(unacked :=
        if n == 1 then old(unacked) + multiset{group} else old(unacked) - multiset{group})
    {
      hide PriorityMemoryQueue.Valid, PriorityMemoryQueue.InOrder, PriorityMemoryQueue.Contents;
      hide WeightedAVL.Valid, WeightedAVL.Weights, WQ.ItemsOf, WQ.CalculateWeight, WQ.WellFormed, WQ.UpToDate, WQ.Gated;
      Counted(unackedByGroup, unacked, group);
      unackedByGroup := unackedByGroup[group := Counter(unackedByGroup, group) + n];
      unacked := if n == 1 then unacked + multiset{group} else unacked - multiset{group};
      assert forall g :: g in queues ==> old(HeapOk(g)) ==> HeapOk(g);
    }

    /** Files the weight of a group. */
    method Refile(group: string)
      requires Stored() && group in queues
      modifies weights.Repr, `Repr
      ensures fresh(Repr - old(Repr))
      ensures Stored() && fresh(weights.Repr - old(weights.Repr))
      ensures State() == old(State()).(weights := old(State()).weights[group :=
        WQ.CalculateWeight(old(State()).limit, unacked[group], |WQ.ItemsOf(items, group)|)])
    {
      hide PriorityMemoryQueue.Valid, PriorityMemoryQueue.InOrder, PriorityMemoryQueue.Contents;
      hide WeightedAVL.Valid, WeightedAVL.Weights, WQ.ItemsOf, WQ.CalculateWeight, WQ.WellFormed, WQ.UpToDate, WQ.Gated;
      assert HeapOk(group) && Counter(unackedByGroup, group) == unacked[group];
      var weight := WQ.CalculateWeight(Effective(maxUnacked), Counter(unackedByGroup, group), queues[group].Len());
      weights.Update(group, weight);
      Repr := Repr + weights.Repr;
      assert forall g :: g in queues ==> old(HeapOk(g)) ==> HeapOk(g);
    }

    /** Drops a group that has neither ready nor unacked messages. */
    method Forget(group: string)
      requires Stored() && group in queues && unacked[group] == 0
      modifies this, weights.Repr
      ensures fresh(Repr - old(Repr))
      ensures Stored() && queues.Keys == old(queues.Keys) - {group}
      ensures State() == old(State()).(weights := old(State()).weights - {group})
    {
      hide PriorityMemoryQueue.Valid, PriorityMemoryQueue.InOrder, PriorityMemoryQueue.Contents;
      hide WeightedAVL.Valid, WeightedAVL.Weights, WQ.ItemsOf, WQ.CalculateWeight, WQ.WellFormed, WQ.UpToDate, WQ.Gated;
      Counted(unackedByGroup, unacked, group);
      queues := queues - {group};
      unackedByGroup := unackedByGroup - {group};
      weights.Remove(group);
      Repr := Repr + weights.Repr;
      HeapsKept(group);
    }

    method Refresh(group: string)
      requires Stored() && group in queues && queues.Keys == weights.Weights().Keys + {group}
      modifies this, weights.Repr
      ensures fresh(Repr - old(Repr))
      ensures Stored() && queues.Keys == weights.Weights().Keys
      ensures State() == WQ.Refreshed(old(State()), group)
    {
      hide FairWeightedQueue.Stored, FairWeightedQueue.Size, WeightedAVL.Valid, WeightedAVL.Weights;
      hide WQ.ItemsOf, WQ.CalculateWeight, WQ.WellFormed, WQ.UpToDate, WQ.Gated;
      assert Counter(unackedByGroup, group) == unacked[group];
      if Size(group) == 0 && Counter(unackedByGroup, group) == 0 {
        Forget(group);
      } else {
        Refile(group);
      }
    }

    /** The same, in the order in which a released slot does it. */
    method RefileOrForget(group: string)
      requires Stored() && group in queues && queues.Keys == weights.Weights().Keys && group in unackedByGroup
      modifies this, weights.Repr
      ensures fresh(Repr - old(Repr))
      ensures Stored() && queues.Keys == weights.Weights().Keys
      ensures State() == WQ.Refreshed(old(State()), group)
    {
      hide FairWeightedQueue.Stored, FairWeightedQueue.Size, WeightedAVL.Valid, WeightedAVL.Weights;
      hide WQ.ItemsOf, WQ.CalculateWeight, WQ.WellFormed, WQ.UpToDate, WQ.Gated;
      assert Counter(unackedByGroup, group) == unacked[group];
      Refile(group);
      ghost var filed := State().weights;
      RemovedAsBefore(old(State()).weights, filed, group);
      ghost var objects := Repr;
      assert fresh(objects - old(Repr));
      if Size(group) == 0 && unackedByGroup[group] <= 0 {
        Forget(group);
        assert State().weights == filed - {group};
      }
    }

    // ---------- The interface ----------

    method UpdateMaxUnacked(maxUnacked: uint32)
      requires Valid()
      modifies this
      ensures Valid() && Repr == old(Repr) && State() == WQ.UpdateMaxUnacked(old(State()), maxUnacked)
    {
      hide PriorityMemoryQueue.Valid, PriorityMemoryQueue.InOrder, PriorityMemoryQueue.Contents;
      hide WeightedAVL.Valid, WeightedAVL.Weights, WQ.ItemsOf, WQ.CalculateWeight, WQ.WellFormed, WQ.UpToDate, WQ.Gated;
      this.maxUnacked := Effective(maxUnacked);
      WQP.UpdateMaxUnackedWellFormed(old(State()), maxUnacked);
      assert forall g :: g in queues ==> old(HeapOk(g)) ==> HeapOk(g);
    }

    method Enqueue(group: string, item: Item)
      requires Valid() && item.group == group && item.id !in State().items
      modifies Repr
      ensures fresh(Repr - old(Repr))
      ensures Valid()
      ensures State() == WQ.Enqueue(old(State()), group, item.id, item.priority)
    {
      hide FairWeightedQueue.Stored, FairWeightedQueue.Size, WeightedAVL.Valid, WeightedAVL.Weights;
      hide WQ.ItemsOf, WQ.CalculateWeight, WQ.WellFormed, WQ.UpToDate, WQ.Gated;
      EnsureGroup(group);
      Put(group, item);
      InGroup(items, item.id, group);
      Refile(group);
      WQP.EnqueueWellFormed(old(State()), group, item.id, item.priority);
    }

    method MarkUnacked(group: string)
      requires Valid()
      modifies Repr
      ensures fresh(Repr - old(Repr))
      ensures Valid() && State() == WQ.MarkUnacked(old(State()), group)
    {
      hide FairWeightedQueue.Stored, FairWeightedQueue.Size, WeightedAVL.Valid, WeightedAVL.Weights;
      hide WQ.ItemsOf, WQ.CalculateWeight, WQ.WellFormed, WQ.UpToDate, WQ.Gated;
      EnsureGroup(group);
      Count(group, 1);
      Refile(group);
      WQP.MarkUnackedWellFormed(old(State()), group);
    }

    /** Gives back a slot. A counter that stands at zero must not be lowered: only a held slot is given back. */
    method UpdateWeights(group: string)
      requires Valid() && (group in unackedByGroup ==> group in State().unacked)
      modifies Repr
      ensures fresh(Repr - old(Repr))
      ensures Valid() && State() == WQ.Release(old(State()), group)
    {
      hide FairWeightedQueue.Stored, FairWeightedQueue.Size, WeightedAVL.Valid, WeightedAVL.Weights;
      hide WQ.ItemsOf, WQ.CalculateWeight, WQ.WellFormed, WQ.UpToDate, WQ.Gated;
      assert Counter(unackedByGroup, group) == unacked[group];
      if group !in unackedByGroup {
        return;
      }
      InUse(State(), group);
      Count(group, -1);
      RefileOrForget(group);
      WQP.ReleaseWellFormed(old(State()), group);
    }

    method Dequeue(ack: bool, mixed: nat) returns (x: Option<Item>)
      requires Valid()
      modifies Repr
      ensures fresh(Repr - old(Repr))
      ensures Valid() && (x, State()) == WQ.Dequeue(old(State()), ack, mixed)
    {
      hide FairWeightedQueue.Stored, FairWeightedQueue.Size, WeightedAVL.Valid, WeightedAVL.Weights;
      hide WQ.ItemsOf, WQ.CalculateWeight, WQ.WellFormed, WQ.UpToDate, WQ.Gated;
      var group := Sampled(mixed);
      if group == "" {
        return None;
      }
      WQ.SelectedHasItem(State(), mixed);
      var head := Take(group);
      FirstUnique(WQ.ItemsOf(old(items), group), head);
      if !ack {
        Count(group, 1);
      }
      Refresh(group);
      WQP.DequeueWellFormed(old(State()), ack, mixed);
      x := Some(head);
    }

    method Sampled(mixed: nat) returns (group: string)
      requires Valid()
      ensures group == WQ.Selected(State(), mixed)
      ensures group != "" ==> Total(State().weights) > 0 && group in queues
    {
      hide FairWeightedQueue.Stored, WeightedAVL.Valid, WeightedAVL.Weights, WQ.ItemsOf, WQ.CalculateWeight;
      if |queues| == 0 {
        assert weights.Weights() == map[];
        return "";
      }
      assert forall g :: g in weights.Weights() ==> WQ.GroupOk(State(), g);
      TotalNonNegative(weights.Weights());
      group := weights.Sample(mixed);
      if group != "" {
        WQ.SelectedHasItem(State(), mixed);
      }
    }

    method Get(group: string, id: nat) returns (x: Option<Item>)
      requires Valid()
      ensures x == WQ.Get(State(), group, id)
    {
      hide PriorityMemoryQueue.Valid, PriorityMemoryQueue.InOrder, PriorityMemoryQueue.Contents;
      hide WeightedAVL.Valid, WeightedAVL.Weights, WQ.ItemsOf, WQ.CalculateWeight, WQ.WellFormed, WQ.UpToDate, WQ.Gated;
      InGroup(items, id, group);
      InUse(State(), group);
      if group !in queues {
        return None;
      }
      assert HeapOk(group);
      x := queues[group].Get(id);
    }

    method Delete(group: string, id: nat) returns (x: Option<Item>)
      requires Valid()
      modifies Repr
      ensures fresh(Repr - old(Repr))
      ensures Valid() && State() == WQ.Delete(old(State()), group, id)
      ensures x == WQ.Get(old(State()), group, id)
    {
      hide FairWeightedQueue.Stored, FairWeightedQueue.Size, WeightedAVL.Valid, WeightedAVL.Weights;
      hide WQ.ItemsOf, WQ.CalculateWeight, WQ.WellFormed, WQ.UpToDate, WQ.Gated;
      InGroup(items, id, group);
      InUse(State(), group);
      if group !in queues {
        return None;
      }
      x := Drop(group, id);
      if x.None? {
        return None;
      }
      Refresh(group);
      WQP.RemovedWellFormed(old(State()), id);
    }

    method UpdatePriority(group: string, id: nat, priority: int)
      requires Valid()
      modifies Repr
      ensures Valid() && Repr == old(Repr) && State() == WQ.UpdatePriority(old(State()), group, id, priority)
    {
      hide FairWeightedQueue.Stored, FairWeightedQueue.Size, WeightedAVL.Valid, WeightedAVL.Weights;
      hide WQ.ItemsOf, WQ.CalculateWeight, WQ.WellFormed, WQ.UpToDate, WQ.Gated;
      InGroup(items, id, group);
      InUse(State(), group);
      if group !in queues {
        return;
      }
      Change(group, id, priority);
      WQP.UpdatePriorityWellFormed(old(State()), group, id, priority);
    }

    method Len() returns (total: nat)
      requires Valid()
      ensures total == |State().items|
    {
      hide FairWeightedQueue.Stored, FairWeightedQueue.Size, WeightedAVL.Valid, WeightedAVL.Weights;
      hide WQ.ItemsOf, WQ.WellFormed, IdsOf;
      total := 0;
      var groups := queues.Keys;
      ghost var done: set<string> := {};
      NoneOf(items);
      while groups != {}
        invariant groups + done == queues.Keys && groups !! done && total == |IdsOf(items, done)|
        decreases groups
      {
        var g :| g in groups;
        OneMore(items, done, g);
        total := total + Size(g);
        groups, done := groups - {g}, done + {g};
      }
      AllOf(State(), done);
    }

    method PeekReady() returns (ready: bool)
      requires Valid()
      ensures ready == WQ.PeekReady(State())
    {
      var total := weights.TotalWeight();
      ready := total > 0;
    }
  }

  lemma InGroup(items: map<nat, Item>, id: nat, g: string)
    ensures id in WQ.ItemsOf(items, g) <==> id in items && items[id].group == g
    ensures id in WQ.ItemsOf(items, g) ==> WQ.ItemsOf(items, g)[id] == items[id]
    ensures id in WQ.ItemsOf(items, g) ==> |WQ.ItemsOf(items, g)| > 0
  {
  }

  lemma InUse(s: WQ.State, g: string)
    requires WQ.WellFormed(s)
    ensures g in s.unacked || WQ.ItemsOf(s.items, g) != map[] ==> g in s.weights
  {
    assert WQ.GroupOk(s, g);
  }

  lemma ItemsAfterChange(items: map<nat, Item>, g: string, id: nat, priority: int)
    requires id in WQ.ItemsOf(items, g)
    ensures var changed := items[id := items[id].(priority := priority)];
      && WQ.ItemsOf(changed, g) == WQ.ItemsOf(items, g)[id := items[id].(priority := priority)]
      && forall h :: h != g ==> WQ.ItemsOf(changed, h) == WQ.ItemsOf(items, h)
  {
  }

  /** The queued items of some groups. */
  ghost function IdsOf(items: map<nat, Item>, groups: set<string>): set<nat> {
    set id | id in items && items[id].group in groups
  }

  lemma NoneOf(items: map<nat, Item>)
    ensures IdsOf(items, {}) == {}
  {
  }

  lemma OneMore(items: map<nat, Item>, groups: set<string>, g: string)
    requires g !in groups
    ensures |IdsOf(items, groups + {g})| == |IdsOf(items, groups)| + |WQ.ItemsOf(items, g)|
  {
    assert IdsOf(items, groups + {g}) == IdsOf(items, groups) + WQ.ItemsOf(items, g).Keys;
    assert IdsOf(items, groups) !! WQ.ItemsOf(items, g).Keys;
  }

  lemma AllOf(s: WQ.State, groups: set<string>)
    requires WQ.WellFormed(s) && groups == s.weights.Keys
    ensures |IdsOf(s.items, groups)| == |s.items|
  {
    forall id | id in s.items ensures s.items[id].group in groups {
      InGroup(s.items, id, s.items[id].group);
      InUse(s, s.items[id].group);
    }
    assert IdsOf(s.items, groups) == s.items.Keys;
  }

  lemma RemovedAsBefore(weights: map<string, int>, filed: map<string, int>, group: string)
    requires group in filed && filed == weights[group := filed[group]]
    ensures filed - {group} == weights - {group}
  {
  }
}
