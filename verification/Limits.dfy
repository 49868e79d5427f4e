/** The delivery limit and the unacked limit over whole runs of the log. */
module Limits {
  import opened Types
  import opened Fsm
  import opened FsmInvariant
  import opened QueueInvariant
  import opened Changes
  import opened History
  import Q = QueueSpec
  import MF = MemoryFacts
  import RRP = RoundRobinProperties
  import WQP = WeightedProperties

  // ---------- Delivery limit ----------

  /** With limit `limit`, a ready message has a delivery left and one in flight has used one. */
  ghost predicate WithinLimitAt(v: View, limit: uint32, id: nat) {
    && (id in v.ready ==> id in v.msgs && v.msgs[id].deliveryCount < limit)
    && (id in v.ack ==> id in v.msgs && 1 <= v.msgs[id].deliveryCount <= limit)
  }

  ghost predicate WithinLimit(v: View, limit: uint32) {
    forall id :: WithinLimitAt(v, limit, id)
  }

  lemma ChangeKeepsLimitAt(v: View, c: Change, limit: uint32, id: nat)
    requires Partition(v) && Possible(v, c) && limit > 0
    requires WithinLimitAt(v, limit, id)
    requires c.Arrival? ==> c.msg.deliveryCount == 0
    requires c.Comeback? ==> c.msg.deliveryCount < limit
    ensures WithinLimitAt(After(v, c), limit, id)
  {
    hide Q.Delivered, After;
    assert id in v.msgs <==> id in v.ready || id in v.ack;
    ChangeMovesCount(v, c, id, limit);
    ChangeMovesMessage(v, c, id);
  }

  lemma DeliveredCount(m: Message, limit: uint32)
    requires m.deliveryCount < limit
    ensures Q.Delivered(m).deliveryCount == m.deliveryCount + 1
  {
  }

  lemma ChangeKeepsLimit(v: View, c: Change, limit: uint32)
    requires Consistent(v) && Possible(v, c) && WithinLimit(v, limit) && limit > 0
    requires c.Arrival? ==> c.msg.deliveryCount == 0
    requires c.Comeback? ==> c.msg.deliveryCount < limit
    ensures WithinLimit(After(v, c), limit)
  {
    hide Slots, Mirror, Partition, Possible, After, WithinLimitAt;
    forall id ensures WithinLimitAt(After(v, c), limit, id) {
      ChangeKeepsLimitAt(v, c, limit, id);
    }
  }

  ghost predicate LimitIs(s: State, name: string, limit: uint32) {
    name in s.queues ==>
      s.queues[name].config.settings.deliveryLimit == limit && WithinLimit(ViewIn(s, name), limit)
  }

  /** The entry does not give the queue another delivery limit. */
  predicate FixesLimit(e: Entry, name: string, limit: uint32) {
    (e.cmd.CreateQueue? || e.cmd.UpdateQueue?) && e.cmd.queue == name ==> e.cmd.settings.deliveryLimit == limit
  }

  lemma SettingsStep(default: uint32, s: State, e: Entry, name: string, limit: uint32)
    requires DefaultOk(default) && FsmInv(default, s) && Legal(s, e) && MemoryOk(s) && FixesLimit(e, name, limit)
    requires name in s.queues ==> s.queues[name].config.settings.deliveryLimit == limit
    ensures name in Apply(default, s, e).0.queues ==>
              Apply(default, s, e).0.queues[name].config.settings.deliveryLimit == limit
  {
    hide Inv, MemoryOk, OnQueue, QueueOk, Q.NewMemory, Q.MemoryUpdateMaxUnacked;
    if OnMessages(e.cmd) {
      if e.cmd.queue in s.queues {
        ApplyOnQueue(default, s, e);
        OnQueueInv(QueueOf(s, e.cmd.queue), e);
      } else {
        ApplyNoQueue(default, s, e);
      }
    }
  }

  lemma ChangeCounts(default: uint32, s: State, e: Entry, name: string)
    requires DefaultOk(default) && FsmInv(default, s) && Legal(s, e) && MemoryOk(s) && name in s.queues
    requires s.queues[name].config.settings.deliveryLimit > 0
    ensures var c := ChangeIn(default, s, e, name);
      && (c.Arrival? ==> c.msg.deliveryCount == 0)
      && (c.Comeback? ==> c.msg.deliveryCount < s.queues[name].config.settings.deliveryLimit)
  {
    hide FsmInv, MemoryOk, Legal, Inv;
    if OnMessages(e.cmd) && e.cmd.queue == name { ApplyOnQueue(default, s, e); }
  }

  lemma StepKeepsLimit(default: uint32, s: State, e: Entry, name: string, limit: uint32)
    requires DefaultOk(default) && FsmInv(default, s) && Legal(s, e) && LimitIs(s, name, limit)
    requires FixesLimit(e, name, limit) && limit > 0
    ensures MemoryOk(s) && LimitIs(Apply(default, s, e).0, name, limit)
  {
    hide FsmInv, MemoryOk, Legal, Apply, ChangeIn, ViewIn, Consistent, Possible, After;
    StepView(default, s, e, name);
    SettingsStep(default, s, e, name, limit);
    if name in s.queues && name in Apply(default, s, e).0.queues {
      ChangeCounts(default, s, e, name);
      ViewConsistent(default, s, name);
      ChangeKeepsLimit(ViewIn(s, name), ChangeIn(default, s, e, name), limit);
    }
  }

  ghost predicate FixedLimit(log: seq<Entry>, name: string, limit: uint32) {
    forall i :: 0 <= i < |log| ==> FixesLimit(log[i], name, limit)
  }

  /** In every reachable state of a run with a fixed delivery limit the counts are within it. */
  lemma {:induction false} RunKeepsLimit(
    default: uint32, states: seq<State>, log: seq<Entry>, name: string, limit: uint32, n: nat)
    requires DefaultOk(default) && IsRun(default, states, log) && FsmInv(default, states[0]) && n <= |log|
    requires FixedLimit(log, name, limit) && limit > 0 && LimitIs(states[0], name, limit)
    ensures LimitIs(states[n], name, limit)
    decreases n
  {
    hide FsmInv, MemoryOk, Legal, Apply, LimitIs, FixesLimit;
    if n > 0 {
      RunKeepsLimit(default, states, log, name, limit, n - 1);
      RunKeepsInv(default, states, log, n - 1);
      StepKeepsLimit(default, states[n - 1], log[n - 1], name, limit);
    }
  }

  // ---------- Counting deliveries ----------

  ghost function CountIn(s: State, name: string, id: nat): nat
    requires Stored(s, name, id)
  {
    MsgsOf(s.db, name)[id].deliveryCount
  }

  /** How a change moves the delivery count of one message. */
  lemma ChangeMovesCount(v: View, c: Change, id: nat, limit: uint32)
    requires Partition(v) && Possible(v, c) && WithinLimitAt(v, limit, id) && (c.Arrival? ==> c.msg.deliveryCount == 0)
    ensures var handed := c.Handout? && c.id == id;
      && (handed ==> v.msgs[id].deliveryCount < limit)
      && (id in After(v, c).msgs ==>
            if id in v.msgs then After(v, c).msgs[id].deliveryCount == v.msgs[id].deliveryCount + if handed then 1 else 0
            else c.Arrival? && c.id == id && After(v, c).msgs[id].deliveryCount == 0)
  {
    hide Q.Delivered;
    assert id in v.msgs <==> id in v.ready || id in v.ack;
    if c.Handout? && c.id == id { DeliveredCount(v.msgs[id], limit); }
  }

  /** The stored count moves with the deliveries. */
  lemma CountStep(default: uint32, s: State, e: Entry, name: string, id: nat, limit: uint32)
    requires DefaultOk(default) && FsmInv(default, s) && Legal(s, e) && MemoryOk(s)
    requires LimitIs(s, name, limit) && limit > 0
    ensures var s' := Apply(default, s, e).0;
      && (Delivers(default, s, e, name, id) ==> Stored(s, name, id) && CountIn(s, name, id) < limit)
      && (Stored(s', name, id) ==>
            if Stored(s, name, id) then
              CountIn(s', name, id) == CountIn(s, name, id) + if Delivers(default, s, e, name, id) then 1 else 0
            else Enqueues(e, name, id) && CountIn(s', name, id) == 0)
  {
    hide FsmInv, MemoryOk, Legal, Apply, Inv, ChangeIn, Fails, Delivers, Slots, Mirror, Partition, Possible, After;
    hide WithinLimitAt;
    StepView(default, s, e, name);
    DeliveryIsHandout(default, s, e, name, id);
    if name in s.queues {
      ViewConsistent(default, s, name);
      ComebackIsFailure(default, s, e, name);
      ChangeCounts(default, s, e, name);
      assert WithinLimitAt(ViewIn(s, name), limit, id);
      if name in Apply(default, s, e).0.queues {
        ChangeMovesCount(ViewIn(s, name), ChangeIn(default, s, e, name), id, limit);
        HandoutIsStored(ViewIn(s, name), ChangeIn(default, s, e, name));
      }
    }
  }

  lemma HandoutIsStored(v: View, c: Change)
    requires Possible(v, c)
    ensures c.Handout? ==> c.id in v.msgs
  {
  }

  // ---------- Unacked limit ----------

  ghost function SlotLimitOf(m: Q.Memory): SlotLimit {
    match m
    case DelayedMemory(_) => MAX_INT64
    case RoundRobinMemory(s) => s.limit
    case WeightedMemory(s) => s.limit
  }

  /** No group has more messages in flight than its limit. */
  ghost predicate Capped(q: Q.Queue) {
    Q.IsFair(q) ==> forall g :: |InFlight(q.ack, g)| <= SlotLimitOf(q.ready)
  }

  lemma HandoutHasSlot(q: Q.Queue, e: Entry)
    requires Inv(q) && Enabled(q, e) && MF.WeightsGated(q.ready) && ChangeOf(q, e).Handout? && Q.IsFair(q)
    ensures var c := ChangeOf(q, e); |InFlight(q.ack, c.msg.group)| < SlotLimitOf(q.ready)
  {
    hide Mixing.Mix64;
    MemoryHandoutHasSlot(q.ready, e.cmd.ack, Mixing.Mix64(e.index), e.now);
  }

  lemma MemoryHandoutHasSlot(m: Q.Memory, ack: bool, mixed: nat, now: int)
    requires Q.MemoryOk(m) && MF.WeightsGated(m) && !m.DelayedMemory? && Q.MemoryDequeue(m, ack, mixed, now).0.Some?
    ensures Q.Unacked(m)[Q.MemoryDequeue(m, ack, mixed, now).0.value.group] < SlotLimitOf(m)
  {
    if m.RoundRobinMemory? {
      RRP.DequeueUnderLimit(m.rr, ack);
    } else {
      WQP.PickedIsUnderLimit(m.wq, ack, mixed);
    }
  }

  lemma ChangeKeepsCap(v: View, c: Change, limit: nat)
    requires v.fair && Slots(v) && Consistent(v) && Possible(v, c) && Slots(After(v, c))
    requires forall g :: |InFlight(v.ack, g)| <= limit
    requires c.Handout? ==> |InFlight(v.ack, c.msg.group)| < limit
    ensures forall g :: |InFlight(After(v, c).ack, g)| <= limit
  {
    hide InFlight, Partition, Mirror;
    var v' := After(v, c);
    forall g ensures v'.unacked[g] <= limit {
      assert v.unacked[g] == |InFlight(v.ack, g)|;
    }
  }

  /** The entry does not lower the limit of a group. */
  ghost predicate NeverLowers(s: State, e: Entry) {
    e.cmd.UpdateQueue? && e.cmd.queue in s.queues && !s.queues[e.cmd.queue].ready.DelayedMemory? ==>
      SlotLimitOf(s.queues[e.cmd.queue].ready) <= Limit(e.cmd.settings.maxUnacked)
  }

  /** No group has more messages in flight than its limit, and none at its limit has a weight. */
  ghost predicate Gated(q: Q.Queue) {
    Capped(q) && MF.WeightsGated(q.ready)
  }

  ghost predicate AllGated(s: State) {
    forall name :: name in s.queues ==> Gated(QueueOf(s, name))
  }

  lemma CommandKeepsCap(q: Q.Queue, e: Entry)
    requires Inv(q) && Enabled(q, e) && MF.WeightsGated(q.ready) && Capped(q)
    ensures Capped(OnQueue(q, e).0)
  {
    hide Q.MemoryOk, OnQueue, ChangeOf, After, Possible, InFlight, Q.Items, Q.Unacked, MF.WeightsFresh,
      AllAccepted, Mirror, Partition;
    CommandIsChange(q, e);
    if Q.IsFair(q) {
      var c := ChangeOf(q, e);
      if c.Handout? { HandoutHasSlot(q, e); }
      ChangeKeepsCap(ViewOf(q), c, SlotLimitOf(q.ready));
      SameLimit(q.ready, OnQueue(q, e).0.ready);
    }
  }

  lemma SameLimit(m: Q.Memory, m': Q.Memory)
    requires MF.SameKind(m, m')
    ensures SlotLimitOf(m) == SlotLimitOf(m')
  {
  }

  lemma CommandKeepsGate(q: Q.Queue, e: Entry)
    requires Inv(q) && Enabled(q, e) && Gated(q)
    ensures Q.MemoryOk(q.ready) && Gated(OnQueue(q, e).0)
  {
    hide OnQueue, Enabled, Capped, MF.WeightsGated, Q.MemoryOk, Consistent, AllAccepted, MF.SameKind;
    CommandKeepsCap(q, e);
    OnQueueInv(q, e);
  }

  lemma NewIsGated(config: Config)
    ensures Gated(Q.Queue(config, map[], Q.NewMemory(config), map[]))
  {
    hide Q.NewMemory, MF.WeightsGated;
    assert forall g :: InFlight(map[], g) == {};
    MF.NewMemoryFacts(config);
  }

  lemma RaisedIsGated(q: Q.Queue, settings: Settings)
    requires Inv(q) && Gated(q) && (!q.ready.DelayedMemory? ==> SlotLimitOf(q.ready) <= Limit(settings.maxUnacked))
    ensures Gated(q.(config := q.config.(settings := settings),
                     ready := Q.MemoryUpdateMaxUnacked(q.ready, settings.maxUnacked)))
  {
    hide InFlight, MF.WeightsGated, AllAccepted, Consistent;
    MF.UpdateMaxUnackedFacts(q.ready, settings.maxUnacked);
  }

  lemma CreatedIsGated(default: uint32, s: State, name: string, kind: QueueType, settings: Settings)
    requires FsmInv(default, s) && AllGated(s)
    ensures AllGated(Created(default, s, name, kind, settings).0)
  {
    hide Gated, QueueOk, Q.NewMemory, Validated;
    var s' := Created(default, s, name, kind, settings).0;
    if name !in s.queues && name in s'.queues {
      NewIsGated(s'.queues[name].config);
      forall n | n in s.queues ensures QueueOf(s', n) == QueueOf(s, n) {
      }
    }
  }

  lemma UpdatedIsGated(default: uint32, s: State, name: string, settings: Settings)
    requires FsmInv(default, s) && AllGated(s) && name in s.queues
    requires NeverLowers(s, Entry(0, 0, UpdateQueue(name, settings)))
    ensures AllGated(Updated(default, s, name, settings).0)
  {
    hide Gated, Inv, Q.MemoryUpdateMaxUnacked, Restorable, SlotLimitOf;
    var (s', r) := Updated(default, s, name, settings);
    if r == Done {
      assert QueueOk(default, s, name);
      RaisedIsGated(QueueOf(s, name), s'.queues[name].config.settings);
      forall n | n in s.queues && n != name ensures QueueOf(s', n) == QueueOf(s, n) {
      }
    }
  }

  lemma DroppedIsGated(s: State, name: string)
    requires AllGated(s)
    ensures AllGated(Dropped(s, name).0)
  {
    hide Gated;
    var s' := Dropped(s, name).0;
    forall n | n in s'.queues ensures QueueOf(s', n) == QueueOf(s, n) {
    }
  }

  lemma StepKeepsGate(default: uint32, s: State, e: Entry)
    requires DefaultOk(default) && FsmInv(default, s) && Legal(s, e) && AllGated(s) && NeverLowers(s, e)
    ensures MemoryOk(s) && AllGated(Apply(default, s, e).0)
  {
    hide FsmInv, Inv, MemoryOk, With, QueueOf, OnQueue, Enabled, Gated, Created, Updated, Dropped;
    InvGivesMemoryOk(default, s);
    match e.cmd
    case CreateQueue(name, kind, settings) => CreatedIsGated(default, s, name, kind, settings);
    case UpdateQueue(name, settings) => UpdatedIsGated(default, s, name, settings);
    case DeleteQueue(name) => DroppedIsGated(s, name);
    case _ => MessagesKeepGate(default, s, e);
  }

  lemma MessagesKeepGate(default: uint32, s: State, e: Entry)
    requires FsmInv(default, s) && MemoryOk(s) && Legal(s, e) && AllGated(s) && OnMessages(e.cmd)
    ensures AllGated(Apply(default, s, e).0)
  {
    hide FsmInv, Inv, MemoryOk, Legal, Apply, With, QueueOf, OnQueue, Enabled, Gated;
    if e.cmd.queue !in s.queues {
      ApplyNoQueue(default, s, e);
    } else {
      ApplyOnQueue(default, s, e);
      var q := QueueOf(s, e.cmd.queue);
      CommandKeepsGate(q, e);
      WithQueue(s, e.cmd.queue, OnQueue(q, e).0);
      OnlyAdds(s, e.cmd.queue, OnQueue(q, e).0);
    }
  }

  lemma OnlyAdds(s: State, name: string, q: Q.Queue)
    ensures With(s, name, q).queues.Keys == s.queues.Keys + {name}
  {
  }

  /** No group ever exceeds its limit, in any reachable state of a run that lowers no limit. */
  lemma {:induction false} RunKeepsCap(default: uint32, states: seq<State>, log: seq<Entry>, n: nat)
    requires DefaultOk(default) && IsRun(default, states, log) && states[0] == EMPTY && n <= |log|
    requires forall i :: 0 <= i < |log| ==> NeverLowers(states[i], log[i])
    ensures AllGated(states[n])
    decreases n
  {
    hide FsmInv, MemoryOk, Legal, Apply, AllGated, NeverLowers;
    EmptyInv(default);
    if n == 0 {
      NothingToGate();
    } else {
      RunKeepsCap(default, states, log, n - 1);
      RunKeepsInv(default, states, log, n - 1);
      StepKeepsGate(default, states[n - 1], log[n - 1]);
    }
  }

  lemma NothingToGate()
    ensures AllGated(EMPTY)
  {
  }
}
