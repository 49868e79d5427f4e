/**
 * What the fair weighted queue does, on values: one heap per group, an unacked counter per group and
 * a weight per group, refreshed whenever the group's heap or counter changes.
 */
module WeightedSpec {
  import opened Types
  import opened Order
  import opened Weights
  import opened Shares

  datatype State = State(items: map<nat, Item>, unacked: multiset<string>, limit: SlotLimit, weights: WeightMap)

  ghost function ItemsOf(items: map<nat, Item>, g: string): map<nat, Item> {
    map id | id in items && items[id].group == g :: items[id]
  }

  // ---------- Weights ----------

  /** `maxUnacked + 1` on int64. */
  function Successor(limit: SlotLimit): (d: int)
    ensures d != 0 && (limit < MAX_INT64 ==> d == limit + 1)
  {
    if limit == MAX_INT64 then -MAX_INT64 - 1 else limit + 1
  }

  /** Weight of a group, in the source's double arithmetic. */
  function CalculateWeight(limit: SlotLimit, unacked: nat, queueSize: nat): (w: int)
    ensures w >= 0
    ensures w > 0 ==> queueSize > 0 && unacked < limit
  {
    if queueSize == 0 || unacked >= limit then 0
    else
      NotNegative(unacked, Successor(limit));
      Share(unacked, Successor(limit)).Floor
  }

  /** A limit that a max_unacked setting can give: a uint32, or none at all. */
  predicate Settable(limit: SlotLimit) {
    limit < UINT32_SIZE || limit == MAX_INT64
  }

  /** The weight without rounding: the free tenths of `limit + 1`, one less where the doubles fall short. */
  lemma WeightIs(limit: SlotLimit, unacked: nat, queueSize: nat)
    requires limit < UINT32_SIZE && unacked < limit && queueSize > 0
    ensures CalculateWeight(limit, unacked, queueSize) == Tenths(unacked, limit + 1)
  {
    hide Share, Tenths;
    ShareIs(unacked, limit + 1);
  }

  /** Without a limit every group with a message has weight ten. */
  lemma UnlimitedWeightIs(unacked: nat, queueSize: nat)
    requires unacked <= MANY && queueSize > 0
    ensures CalculateWeight(MAX_INT64, unacked, queueSize) == 10
  {
    hide Share;
    WithoutLimit(unacked);
  }

  /** The number of ready messages does not matter, as long as there is one. */
  lemma SizeDoesNotMatter(limit: SlotLimit, unacked: nat, queueSize: nat, otherSize: nat)
    ensures CalculateWeight(limit, unacked, 0) == 0
    ensures queueSize > 0 && otherSize > 0 ==>
      CalculateWeight(limit, unacked, queueSize) == CalculateWeight(limit, unacked, otherSize)
  {
  }

  /**
   * A weight is positive for as long as less than nine tenths of `limit + 1` are in flight. From there
   * on it is zero although the group is still under its limit. Without a limit there is no such zone.
   */
  lemma WeightPositiveIff(limit: SlotLimit, unacked: nat, queueSize: nat)
    requires Settable(limit)
    ensures CalculateWeight(limit, unacked, queueSize) > 0
       <==> queueSize > 0 && unacked < limit && (limit == MAX_INT64 || 10 * unacked < 9 * (limit + 1))
  {
    hide Share;
    if queueSize > 0 && unacked < limit {
      if limit == MAX_INT64 {
        NotNegative(unacked, Successor(limit));
      } else {
        WeightIs(limit, unacked, queueSize);
        SomeTenths(unacked, limit + 1);
      }
    }
  }

  lemma SomeTenths(u: nat, d: int)
    requires u < d
    ensures Tenths(u, d) > 0 <==> 10 * u < 9 * d
  {
    Multiples(d);
    var free := 10 * (d - u);
    assert 10 * u == 8 * d <==> free == 2 * d;
    assert 10 * u == 9 * d <==> free == d;
    AtLeastOnce(free, d);
  }

  lemma AtLeastOnce(free: int, d: int)
    requires 0 < d && 0 <= free
    ensures free / d >= 1 <==> free >= d
  {
  }

  /** Re-files the weight of `g`, or forgets the group once it has neither ready nor unacked messages. */
  ghost function Refreshed(s: State, g: string): State {
    var size := |ItemsOf(s.items, g)|;
    if size == 0 && s.unacked[g] == 0 then s.(weights := s.weights - {g})
    else s.(weights := s.weights[g := CalculateWeight(s.limit, s.unacked[g], size)])
  }

  // ---------- Operations ----------

  function New(maxUnacked: uint32): State {
    State(map[], multiset{}, Limit(maxUnacked), map[])
  }

  function UpdateMaxUnacked(s: State, maxUnacked: uint32): State {
    s.(limit := Limit(maxUnacked))
  }

  ghost function Enqueue(s: State, group: string, id: nat, priority: int): State {
    Refreshed(s.(items := s.items[id := Item(id, priority, group)]), group)
  }

  ghost function Get(s: State, group: string, id: nat): Option<Item> {
    if id in s.items && s.items[id].group == group then Some(s.items[id]) else None
  }

  ghost function Removed(s: State, id: nat): State
    requires id in s.items
  {
    Refreshed(s.(items := s.items - {id}), s.items[id].group)
  }

  ghost function Delete(s: State, group: string, id: nat): State {
    if Get(s, group, id).Some? then Removed(s, id) else s
  }

  ghost function UpdatePriority(s: State, group: string, id: nat, priority: int): State {
    if Get(s, group, id).Some? then s.(items := s.items[id := s.items[id].(priority := priority)]) else s
  }

  /** `UpdateWeights`: gives back one unacked slot, if the group holds any. */
  ghost function Release(s: State, group: string): State {
    if group in s.unacked then Refreshed(s.(unacked := s.unacked - multiset{group}), group) else s
  }

  ghost function MarkUnacked(s: State, group: string): State {
    Refreshed(s.(unacked := s.unacked + multiset{group}), group)
  }

  /** The group `Sample` picks for an already mixed seed, or "". */
  ghost function Selected(s: State, mixed: nat): string {
    if Total(s.weights) <= 0 then "" else Pick(s.weights, mixed % Total(s.weights))
  }

  ghost function Dequeue(s: State, ack: bool, mixed: nat): (Option<Item>, State)
    requires WellFormed(s)
  {
    var g := Selected(s, mixed);
    if g == "" then (None, s)
    else
      SelectedHasItem(s, mixed);
      var x := First(ItemsOf(s.items, g));
      var unacked := if ack then s.unacked else s.unacked + multiset{g};
      (Some(x), Refreshed(s.(items := s.items - {x.id}, unacked := unacked), g))
  }

  ghost predicate PeekReady(s: State) {
    Total(s.weights) > 0
  }

  // ---------- Invariant ----------

  ghost predicate GroupOk(s: State, g: string) {
    && (g in s.weights <==> ItemsOf(s.items, g) != map[] || g in s.unacked)
    && (g in s.weights ==> s.weights[g] >= 0)
    && (g in s.weights && s.weights[g] > 0 ==> ItemsOf(s.items, g) != map[])
  }

  /** Weights exist for exactly the groups in use, and a positive one means a message to pop. */
  ghost predicate WellFormed(s: State) {
    Keyed(s.items) && forall g: string :: GroupOk(s, g)
  }

  /** Every weight is the one the current limit gives. */
  ghost predicate UpToDate(s: State) {
    forall g :: g in s.weights ==>
      s.weights[g] == CalculateWeight(s.limit, s.unacked[g], |ItemsOf(s.items, g)|)
  }

  /** No group at its limit has a positive weight. */
  ghost predicate Gated(s: State) {
    forall g :: g in s.weights && s.weights[g] > 0 ==> s.unacked[g] < s.limit
  }

  lemma SelectedHasItem(s: State, mixed: nat)
    requires WellFormed(s) && Total(s.weights) > 0
    ensures var g := Selected(s, mixed);
      g in s.weights && s.weights[g] > 0 && ItemsOf(s.items, g) != map[] && Keyed(ItemsOf(s.items, g))
  {
    var g := Selected(s, mixed);
    assert forall h :: h in s.weights ==> GroupOk(s, h);
    PickStretch(s.weights, mixed % Total(s.weights), g);
    assert GroupOk(s, g);
  }
}
