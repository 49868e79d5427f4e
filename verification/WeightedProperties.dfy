/** The weights of the weighted queue agree with its heaps and counters after every operation. */
module WeightedProperties {
  import opened Types
  import opened Order
  import opened WeightedSpec

  /** `t` is `s` with only group `g`'s heap and counter changed. */
  ghost predicate SameElsewhere(s: State, t: State, g: string) {
    && t.limit == s.limit && t.weights == s.weights && Keyed(t.items)
    && forall h :: h != g ==> ItemsOf(t.items, h) == ItemsOf(s.items, h) && t.unacked[h] == s.unacked[h]
  }

  lemma EmptyMap(m: map<nat, Item>)
    ensures |m| == 0 <==> m == map[]
  {
  }

  lemma RefreshedOk(s: State, t: State, g: string)
    requires WellFormed(s) && SameElsewhere(s, t, g)
    ensures WellFormed(Refreshed(t, g))
    ensures UpToDate(s) ==> UpToDate(Refreshed(t, g))
    ensures Gated(s) ==> Gated(Refreshed(t, g))
  {
    hide CalculateWeight, ItemsOf;
    var u := Refreshed(t, g);
    forall h: string ensures GroupOk(u, h) {
      if h != g {
        assert GroupOk(s, h);
      } else {
        EmptyMap(ItemsOf(t.items, g));
      }
    }
  }

  lemma NewWellFormed(maxUnacked: uint32)
    ensures WellFormed(New(maxUnacked)) && UpToDate(New(maxUnacked)) && Gated(New(maxUnacked))
  {
  }

  lemma ItemsAfterAdd(items: map<nat, Item>, x: Item)
    requires x.id !in items
    ensures forall h :: h != x.group ==> ItemsOf(items[x.id := x], h) == ItemsOf(items, h)
    ensures ItemsOf(items[x.id := x], x.group) == ItemsOf(items, x.group)[x.id := x]
  {
  }

  lemma ItemsAfterRemove(items: map<nat, Item>, id: nat)
    requires id in items
    ensures forall h :: h != items[id].group ==> ItemsOf(items - {id}, h) == ItemsOf(items, h)
    ensures ItemsOf(items - {id}, items[id].group) == ItemsOf(items, items[id].group) - {id}
  {
  }

  lemma EnqueueWellFormed(s: State, group: string, id: nat, priority: int)
    requires WellFormed(s) && id !in s.items
    ensures WellFormed(Enqueue(s, group, id, priority))
    ensures UpToDate(s) ==> UpToDate(Enqueue(s, group, id, priority))
    ensures Gated(s) ==> Gated(Enqueue(s, group, id, priority))
  {
    var x := Item(id, priority, group);
    ItemsAfterAdd(s.items, x);
    RefreshedOk(s, s.(items := s.items[id := x]), group);
  }

  lemma RemovedWellFormed(s: State, id: nat)
    requires WellFormed(s) && id in s.items
    ensures WellFormed(Removed(s, id))
    ensures UpToDate(s) ==> UpToDate(Removed(s, id))
    ensures Gated(s) ==> Gated(Removed(s, id))
  {
    ItemsAfterRemove(s.items, id);
    RefreshedOk(s, s.(items := s.items - {id}), s.items[id].group);
  }

  lemma DequeueWellFormed(s: State, ack: bool, mixed: nat)
    requires WellFormed(s)
    ensures WellFormed(Dequeue(s, ack, mixed).1)
    ensures UpToDate(s) ==> UpToDate(Dequeue(s, ack, mixed).1)
    ensures Gated(s) ==> Gated(Dequeue(s, ack, mixed).1)
  {
    var g := Selected(s, mixed);
    if g != "" {
      SelectedHasItem(s, mixed);
      var x := First(ItemsOf(s.items, g));
      ItemsAfterRemove(s.items, x.id);
      var unacked := if ack then s.unacked else s.unacked + multiset{g};
      RefreshedOk(s, s.(items := s.items - {x.id}, unacked := unacked), g);
    }
  }

  lemma UpdatePriorityWellFormed(s: State, group: string, id: nat, priority: int)
    requires WellFormed(s)
    ensures WellFormed(UpdatePriority(s, group, id, priority))
    ensures UpToDate(s) ==> UpToDate(UpdatePriority(s, group, id, priority))
    ensures Gated(s) ==> Gated(UpdatePriority(s, group, id, priority))
  {
    var t := UpdatePriority(s, group, id, priority);
    forall h: string
      ensures ItemsOf(t.items, h).Keys == ItemsOf(s.items, h).Keys
      ensures |ItemsOf(t.items, h)| == |ItemsOf(s.items, h)|
    {
    }
    forall h: string ensures GroupOk(t, h) {
      assert GroupOk(s, h);
    }
  }

  lemma ReleaseWellFormed(s: State, group: string)
    requires WellFormed(s)
    ensures WellFormed(Release(s, group))
    ensures UpToDate(s) ==> UpToDate(Release(s, group))
    ensures Gated(s) ==> Gated(Release(s, group))
  {
    RefreshedOk(s, s.(unacked := s.unacked - multiset{group}), group);
  }

  lemma MarkUnackedWellFormed(s: State, group: string)
    requires WellFormed(s)
    ensures WellFormed(MarkUnacked(s, group))
    ensures UpToDate(s) ==> UpToDate(MarkUnacked(s, group))
    ensures Gated(s) ==> Gated(MarkUnacked(s, group))
  {
    RefreshedOk(s, s.(unacked := s.unacked + multiset{group}), group);
  }

  lemma UpdateMaxUnackedWellFormed(s: State, maxUnacked: uint32)
    requires WellFormed(s)
    ensures WellFormed(UpdateMaxUnacked(s, maxUnacked))
    ensures Gated(s) && s.limit <= Limit(maxUnacked) ==> Gated(UpdateMaxUnacked(s, maxUnacked))
  {
    forall h: string ensures GroupOk(UpdateMaxUnacked(s, maxUnacked), h) {
      assert GroupOk(s, h);
    }
  }

  /**
   * `PeekReady` is exact: it holds just when a dequeue returns an item, and then for every seed. The
   * group with the empty name, which stands for "none", must not be due.
   */
  lemma PeekReadyIffDequeue(s: State, ack: bool, mixed: nat)
    requires WellFormed(s) && ("" in s.weights ==> s.weights[""] == 0)
    ensures PeekReady(s) <==> Dequeue(s, ack, mixed).0.Some?
  {
    if PeekReady(s) {
      SelectedHasItem(s, mixed);
    }
  }

  /** Weights that the current limit gives keep a group at its limit from being picked. */
  lemma UpToDateIsGated(s: State)
    requires UpToDate(s)
    ensures Gated(s)
  {
    hide CalculateWeight;
  }

  /** As long as no group at its limit has a weight, only a group under its limit is ever picked. */
  lemma PickedIsUnderLimit(s: State, ack: bool, mixed: nat)
    requires WellFormed(s) && Gated(s) && Dequeue(s, ack, mixed).0.Some?
    ensures s.unacked[Dequeue(s, ack, mixed).0.value.group] < s.limit
  {
    SelectedHasItem(s, mixed);
  }

  /** Up-to-date weights are determined by the heaps, the counters and the limit. */
  lemma UpToDateIsDetermined(s: State, t: State)
    requires WellFormed(s) && UpToDate(s) && WellFormed(t) && UpToDate(t)
    requires s.items == t.items && s.unacked == t.unacked && s.limit == t.limit
    ensures s == t
  {
    forall g: string ensures g in s.weights <==> g in t.weights {
      assert GroupOk(s, g) && GroupOk(t, g);
    }
  }

  /** The state with every weight recomputed from the current limit. */
  ghost function Renewed(s: State): State {
    s.(weights := map g | g in s.weights :: CalculateWeight(s.limit, s.unacked[g], |ItemsOf(s.items, g)|))
  }

  lemma RenewedOk(s: State)
    requires WellFormed(s)
    ensures WellFormed(Renewed(s)) && UpToDate(Renewed(s)) && Gated(Renewed(s))
    ensures Renewed(s) == s <==> UpToDate(s)
  {
    forall g: string ensures GroupOk(Renewed(s), g) {
      assert GroupOk(s, g);
    }
  }
}
