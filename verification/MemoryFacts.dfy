/** What every kind of ready queue does to its items and unacked counters, in one place. */
module MemoryFacts {
  import opened Types
  import opened GroupPath
  import opened QueueSpec
  import RR = RoundRobin
  import RRP = RoundRobinProperties
  import WQ = WeightedSpec
  import WQP = WeightedProperties

  /** Group names the queue can serve: a round-robin queue needs non-empty segments, a weighted one a name. */
  ghost predicate Accepts(m: Memory, group: string) {
    match m
    case DelayedMemory(_) => group == "default"
    case RoundRobinMemory(_) => ValidGroup(group)
    case WeightedMemory(_) => group != ""
  }

  /** Same kind of memory and same limit. */
  ghost predicate SameKind(a: Memory, b: Memory) {
    match a
    case DelayedMemory(_) => b.DelayedMemory?
    case RoundRobinMemory(s) => b.RoundRobinMemory? && b.rr.limit == s.limit
    case WeightedMemory(s) => b.WeightedMemory? && b.wq.limit == s.limit
  }

  /** The weights of a weighted queue are the ones its current limit gives. */
  ghost predicate WeightsFresh(m: Memory) {
    m.WeightedMemory? ==> WQ.UpToDate(m.wq)
  }

  /** No group of a weighted queue that is at its limit has a weight. */
  ghost predicate WeightsGated(m: Memory) {
    m.WeightedMemory? ==> WQ.Gated(m.wq)
  }

  /** The queue can take the message: a new one, or one that is ready under the same group. */
  ghost predicate Enqueueable(q: Queue, id: nat, group: string) {
    var g := if IsFair(q) then group else "default";
    Accepts(q.ready, g) && (id in Items(q.ready) ==> Items(q.ready)[id].group == g)
  }

  /** `m'` follows `m` with these items and counters, and nothing went stale. */
  ghost predicate Becomes(m: Memory, m': Memory, items: map<nat, Item>, unacked: multiset<string>) {
    && MemoryOk(m') && SameKind(m, m')
    && Items(m') == items && Unacked(m') == unacked
    && (WeightsFresh(m) ==> WeightsFresh(m')) && (WeightsGated(m) ==> WeightsGated(m'))
  }

  lemma NewMemoryFacts(config: Config)
    ensures var m := NewMemory(config);
      MemoryOk(m) && Items(m) == map[] && Unacked(m) == multiset{} && WeightsFresh(m) && WeightsGated(m)
  {
    RRP.NewWellFormed(config.settings.maxUnacked);
    WQP.NewWellFormed(config.settings.maxUnacked);
  }

  lemma ValidGroupNonEmpty(group: string)
    requires ValidGroup(group)
    ensures RR.GroupOrDefault(group) == group
  {
    NoDotSplit("");
    assert Split("")[0] == "";
  }

  lemma EnqueueFacts(m: Memory, group: string, id: nat, priority: int)
    requires MemoryOk(m) && id !in Items(m) && Accepts(m, group)
    ensures Becomes(m, MemoryEnqueue(m, group, id, priority), Items(m)[id := Item(id, priority, group)], Unacked(m))
  {
    hide RR.WellFormed, RR.Grown, RR.Walk, WQ.WellFormed, WQ.UpToDate, WQ.Gated, WQ.CalculateWeight;
    match m
    case DelayedMemory(_) =>
    case RoundRobinMemory(s) =>
      ValidGroupNonEmpty(group);
      RRP.EnqueueWellFormed(s, group, id, priority);
    case WeightedMemory(s) => WQP.EnqueueWellFormed(s, group, id, priority);
  }

  /** `m'` is `m` after handing out `x`. */
  ghost predicate HandsOut(m: Memory, m': Memory, x: Item, ack: bool) {
    && x.id in Items(m) && Items(m)[x.id] == x
    && Becomes(m, m', Items(m) - {x.id},
               if ack || m.DelayedMemory? then Unacked(m) else Unacked(m) + multiset{x.group})
  }

  lemma RoundRobinDequeueFacts(s: RR.State, ack: bool)
    requires RR.WellFormed(s)
    ensures var (x, s') := RR.Dequeue(s, ack);
      if x.None? then s' == s else HandsOut(RoundRobinMemory(s), RoundRobinMemory(s'), x.value, ack)
  {
    hide RR.WellFormed, RR.Dequeue;
    RRP.DequeueWellFormed(s, ack);
    RRP.DequeueEffect(s, ack);
  }

  lemma WeightedDequeueFacts(s: WQ.State, ack: bool, mixed: nat)
    requires WQ.WellFormed(s)
    ensures var (x, s') := WQ.Dequeue(s, ack, mixed);
      if x.None? then s' == s else HandsOut(WeightedMemory(s), WeightedMemory(s'), x.value, ack)
  {
    hide WQ.WellFormed, WQ.UpToDate, WQ.Gated, WQ.CalculateWeight;
    WQP.DequeueWellFormed(s, ack, mixed);
    if WQ.Selected(s, mixed) != "" { WQ.SelectedHasItem(s, mixed); }
  }

  lemma DequeueFacts(m: Memory, ack: bool, mixed: nat, now: int)
    requires MemoryOk(m)
    ensures var (x, m') := MemoryDequeue(m, ack, mixed, now);
      if x.None? then m' == m else HandsOut(m, m', x.value, ack)
  {
    hide RR.WellFormed, RR.Dequeue, WQ.WellFormed, WQ.Dequeue;
    match m
    case DelayedMemory(_) =>
    case RoundRobinMemory(s) => RoundRobinDequeueFacts(s, ack);
    case WeightedMemory(s) => WeightedDequeueFacts(s, ack, mixed);
  }

  lemma DeleteFacts(m: Memory, group: string, id: nat)
    requires MemoryOk(m) && (id in Items(m) ==> Items(m)[id].group == group)
    ensures Becomes(m, MemoryDelete(m, group, id), Items(m) - {id}, Unacked(m))
    ensures id !in Items(m) ==> MemoryDelete(m, group, id) == m
  {
    hide RR.WellFormed, RR.Grown, RR.Walk, WQ.WellFormed, WQ.UpToDate, WQ.Gated, WQ.CalculateWeight;
    assert id !in Items(m) ==> Items(m) - {id} == Items(m);
    match m
    case DelayedMemory(_) =>
    case RoundRobinMemory(s) => RRP.DeleteWellFormed(s, group, id);
    case WeightedMemory(s) => if id in s.items { WQP.RemovedWellFormed(s, id); }
  }

  lemma UpdatePriorityFacts(m: Memory, group: string, id: nat, priority: int)
    requires MemoryOk(m) && (id in Items(m) ==> Items(m)[id].group == group)
    ensures Becomes(m, MemoryUpdatePriority(m, group, id, priority),
                    if id in Items(m) then Items(m)[id := Items(m)[id].(priority := priority)] else Items(m),
                    Unacked(m))
  {
    hide RR.WellFormed, RR.Grown, RR.Walk, WQ.WellFormed, WQ.UpToDate, WQ.Gated, WQ.CalculateWeight;
    match m
    case DelayedMemory(_) =>
    case RoundRobinMemory(s) => RRP.UpdatePriorityWellFormed(s, group, id, priority);
    case WeightedMemory(s) => WQP.UpdatePriorityWellFormed(s, group, id, priority);
  }

  lemma CountersOnly(s: RR.State, unacked: multiset<string>)
    requires RR.WellFormed(s)
    ensures RR.WellFormed(s.(unacked := unacked))
  {
  }

  lemma ReleaseFacts(m: Memory, group: string)
    requires MemoryOk(m)
    ensures Becomes(m, MemoryRelease(m, group), Items(m), Unacked(m) - multiset{group})
  {
    hide RR.WellFormed, RR.Grown, RR.Walk, WQ.WellFormed, WQ.UpToDate, WQ.Gated, WQ.CalculateWeight;
    match m
    case DelayedMemory(_) =>
    case RoundRobinMemory(s) => CountersOnly(s, Unacked(m) - multiset{group});
    case WeightedMemory(s) =>
      WQP.ReleaseWellFormed(s, group);
      if group !in s.unacked { assert s.unacked - multiset{group} == s.unacked; }
  }

  lemma MarkUnackedFacts(m: Memory, group: string)
    requires MemoryOk(m)
    ensures Becomes(m, MemoryMarkUnacked(m, group), Items(m),
                    if m.DelayedMemory? then Unacked(m) else Unacked(m) + multiset{group})
  {
    hide RR.WellFormed, RR.Grown, RR.Walk, WQ.WellFormed, WQ.UpToDate, WQ.Gated, WQ.CalculateWeight;
    match m
    case DelayedMemory(_) =>
    case RoundRobinMemory(s) => CountersOnly(s, Unacked(m) + multiset{group});
    case WeightedMemory(s) => WQP.MarkUnackedWellFormed(s, group);
  }

  lemma UpdateMaxUnackedFacts(m: Memory, maxUnacked: uint32)
    requires MemoryOk(m)
    ensures var m' := MemoryUpdateMaxUnacked(m, maxUnacked);
      && MemoryOk(m') && Items(m') == Items(m) && Unacked(m') == Unacked(m)
      && (WeightsGated(m) && (m.WeightedMemory? ==> m.wq.limit <= Limit(maxUnacked)) ==> WeightsGated(m'))
  {
    if m.WeightedMemory? { WQP.UpdateMaxUnackedWellFormed(m.wq, maxUnacked); }
  }

  lemma GetFacts(m: Memory, group: string, id: nat)
    ensures id !in Items(m) ==> MemoryGet(m, group, id) == None
    ensures id in Items(m) && Items(m)[id].group == group ==> MemoryGet(m, group, id) == Some(Items(m)[id])
  {
  }
}
