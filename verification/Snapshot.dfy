/**
 * Snapshots: what `FSMSnapshot.Persist` writes and `FSM.Restore` reads. Restoring the snapshot of any
 * reachable state, over any other state, gives that state back.
 */
module Snapshot {
  import opened Types
  import opened Scheduling
  import opened Fsm
  import opened FsmInvariant
  import opened QueueInvariant
  import opened QueueSteps
  import Q = QueueSpec
  import MF = MemoryFacts
  import WQ = WeightedSpec
  import WQP = WeightedProperties

  datatype SnapshotItem =
    | LeaderItem
    | QueueItem(name: string, config: Config)
    | UnackedItem(id: nat, deadline: int)
    | MessageItem(id: nat, msg: Message)
    | SchedulingItem(nodes: seq<SchedulingNode>)

  // ---------- Writing ----------

  /** `ids` lists the keys of a map, each once. Store scans are by increasing id; any order will do. */
  ghost predicate Lists(ids: seq<nat>, keys: set<nat>) {
    && (forall id :: id in ids <==> id in keys)
    && (forall i, j :: 0 <= i < j < |ids| ==> ids[i] != ids[j])
  }

  function UnackedItems(ack: map<nat, Item>, ids: seq<nat>): seq<SnapshotItem>
    requires forall id :: id in ids ==> id in ack
  {
    seq(|ids|, i requires 0 <= i < |ids| => UnackedItem(ids[i], ack[ids[i]].priority))
  }

  function MessageItems(msgs: map<nat, Message>, ids: seq<nat>): seq<SnapshotItem>
    requires forall id :: id in ids ==> id in msgs
  {
    seq(|ids|, i requires 0 <= i < |ids| => MessageItem(ids[i], msgs[ids[i]]))
  }

  /** The scheduling part of a queue's block, for queues that have one. */
  ghost predicate IsSchedule(m: Q.Memory, items: seq<SnapshotItem>) {
    if m.RoundRobinMemory? then exists sched :: items == [SchedulingItem(sched)] && Captures(m.rr.nodes, sched)
    else items == []
  }

  /** One queue's part of a snapshot: config, unacked markers, messages, scheduling state, in this order. */
  ghost predicate IsBlock(name: string, q: Q.Queue, items: seq<SnapshotItem>) {
    exists unacked: seq<nat>, ids: seq<nat>, tail: seq<SnapshotItem> ::
      && Lists(unacked, q.ack.Keys) && Lists(ids, q.msgs.Keys) && IsSchedule(q.ready, tail)
      && items == [QueueItem(name, q.config)] + UnackedItems(q.ack, unacked) + MessageItems(q.msgs, ids) + tail
  }

  /** The blocks of the queues `names`, one after the other. */
  ghost predicate AreBlocks(s: State, names: seq<string>, items: seq<SnapshotItem>)
    requires forall n :: n in names ==> n in s.queues
  {
    if names == [] then items == []
    else exists front, block ::
      && items == front + block && AreBlocks(s, names[..|names| - 1], front)
      && IsBlock(names[|names| - 1], QueueOf(s, names[|names| - 1]), block)
  }

  /** A snapshot of `s`: the queue map is walked in any order. */
  ghost predicate IsSnapshot(s: State, items: seq<SnapshotItem>) {
    exists names: seq<string>, blocks ::
      && (forall n :: n in names <==> n in s.queues)
      && (forall i, j :: 0 <= i < j < |names| ==> names[i] != names[j])
      && AreBlocks(s, names, blocks) && items == [LeaderItem] + blocks
  }

  // ---------- Reading ----------

  /** The loop of `Restore`: the state so far, the current queue and its unacked markers. */
  datatype Reader = Reader(s: State, current: Option<string>, unacked: Option<map<nat, int>>)

  ghost function RestoreSchedule(m: Q.Memory, sched: seq<SchedulingNode>): Q.Memory {
    match m
    case RoundRobinMemory(rr) => Q.RoundRobinMemory(rr.(nodes := RestoreNodes(rr.nodes, sched)))
    case _ => m
  }

  ghost function RestoreMessage(q: Q.Queue, unacked: map<nat, int>, id: nat, msg: Message): Q.Queue
    requires Q.MemoryOk(q.ready)
  {
    if id in unacked then Q.RestoreUnacked(q, id, msg, unacked[id]) else Q.EnqueueRestored(q, id, msg)
  }

  /** One item; `None` is a nil dereference. */
  ghost function Read(default: uint32, r: Reader, item: SnapshotItem): Option<Reader>
    requires MemoryOk(r.s)
  {
    match item
    case LeaderItem => Some(r)
    case QueueItem(name, config) =>
      var (s, result) := Created(default, r.s, name, config.kind, config.settings);
      Some(Reader(s, if result.Ok? then Some(name) else None, Some(map[])))
    case UnackedItem(id, deadline) =>
      if r.unacked.None? then None else Some(r.(unacked := Some(r.unacked.value[id := deadline])))
    case SchedulingItem(sched) =>
      if r.current.None? || r.current.value !in r.s.queues then Some(r)
      else
        var q := QueueOf(r.s, r.current.value);
        Some(r.(s := With(r.s, r.current.value, q.(ready := RestoreSchedule(q.ready, sched)))))
    case MessageItem(id, msg) =>
      if r.current.None? || r.unacked.None? || r.current.value !in r.s.queues then None
      else
        var q := QueueOf(r.s, r.current.value);
        Some(r.(s := With(r.s, r.current.value, RestoreMessage(q, r.unacked.value, id, msg))))
  }

  /** A message to be restored as ready is one that the current queue can take. */
  ghost predicate Takes(r: Reader, item: SnapshotItem) {
    item.MessageItem? && r.current.Some? && r.current.value in r.s.queues && r.unacked.Some?
    && item.id !in r.unacked.value ==>
      MF.Enqueueable(QueueOf(r.s, r.current.value), item.id, item.msg.group)
  }

  /**
   * The items in order. `None` is a nil dereference, or a step outside the invariants of the queue
   * structures; no snapshot of a reachable state leads to either.
   */
  ghost function ReadAll(default: uint32, r: Reader, items: seq<SnapshotItem>): (r': Option<Reader>)
    requires MemoryOk(r.s)
    ensures r'.Some? ==> MemoryOk(r'.value.s)
  {
    if items == [] then Some(r)
    else
      match ReadAll(default, r, items[..|items| - 1])
      case None => None
      case Some(r') =>
        var r'' := Read(default, r', items[|items| - 1]);
        if Takes(r', items[|items| - 1]) && r''.Some? && MemoryOk(r''.value.s) then r'' else None
  }

  /** `FSM.Restore`: the old state is cleared first. */
  ghost function Restore(default: uint32, previous: State, items: seq<SnapshotItem>): Option<State> {
    match ReadAll(default, Reader(EMPTY, None, None), items)
    case None => None
    case Some(r) => Some(r.s)
  }

  lemma {:induction false} ReadAllConcat(default: uint32, r: Reader, a: seq<SnapshotItem>, b: seq<SnapshotItem>)
    requires MemoryOk(r.s) && ReadAll(default, r, a).Some?
    ensures ReadAll(default, r, a + b) == ReadAll(default, ReadAll(default, r, a).value, b)
    decreases |b|
  {
    hide MemoryOk, Read, Takes;
    if b == [] {
      assert a + b == a;
    } else {
      var front := b[..|b| - 1];
      assert (a + b)[..|a + b| - 1] == a + front && (a + b)[|a + b| - 1] == b[|b| - 1];
      ReadAllConcat(default, r, a, front);
    }
  }

  lemma ReadLast(default: uint32, r: Reader, items: seq<SnapshotItem>, last: SnapshotItem, r': Reader, r'': Reader)
    requires MemoryOk(r.s) && ReadAll(default, r, items) == Some(r')
    requires Takes(r', last) && Read(default, r', last) == Some(r'') && MemoryOk(r''.s)
    ensures ReadAll(default, r, items + [last]) == Some(r'')
  {
    hide MemoryOk, Read, Takes;
    assert (items + [last])[..|items|] == items;
  }

  // ---------- One queue's messages ----------

  ghost function Restrict<V>(m: map<nat, V>, ids: set<nat>): map<nat, V> {
    map id | id in m && id in ids :: m[id]
  }

  lemma RestrictMore<V>(m: map<nat, V>, ids: set<nat>, id: nat)
    requires id !in ids
    ensures id !in Restrict(m, ids)
    ensures Restrict(m, ids + {id}) == if id in m then Restrict(m, ids)[id := m[id]] else Restrict(m, ids)
  {
  }

  /** `q0` holds the messages `done` of `q`, in the same states. */
  ghost predicate PartOf(q0: Q.Queue, q: Q.Queue, done: set<nat>) {
    && Inv(q0) && MF.WeightsFresh(q0.ready) && q0.config == q.config
    && q0.msgs == Restrict(q.msgs, done) && q0.ack == Restrict(q.ack, done)
    && Q.Items(q0.ready) == Restrict(Q.Items(q.ready), done)
  }

  function Deadlines(ack: map<nat, Item>): map<nat, int> {
    map id | id in ack :: ack[id].priority
  }

  lemma StillAccepted(q0: Q.Queue, q: Q.Queue, id: nat)
    requires Inv(q0) && Inv(q) && q0.config == q.config && id in q.msgs
    ensures MF.Accepts(q0.ready, q.msgs[id].group)
  {
    hide Q.MemoryOk, GroupPath.ValidGroup, Consistent;
    assert MF.Accepts(q.ready, q.msgs[id].group);
  }

  lemma InFlightNotReady(v: View, id: nat)
    requires Consistent(v) && id in v.msgs
    ensures id in v.ack ==> id !in v.ready && v.ack[id] == Item(id, v.ack[id].priority, v.msgs[id].group)
    ensures id !in v.ack ==> id in v.ready && v.ready[id] == ReadyItem(id, v.msgs[id])
  {
  }

  lemma RestoreOne(q: Q.Queue, q0: Q.Queue, done: set<nat>, id: nat)
    requires Inv(q) && PartOf(q0, q, done) && id in q.msgs && id !in done
    ensures Q.MemoryOk(q0.ready)
    ensures PartOf(RestoreMessage(q0, Deadlines(q.ack), id, q.msgs[id]), q, done + {id})
  {
    hide Inv, MF.WeightsFresh, Q.Items, Q.Unacked, Q.RestoreUnacked, Q.EnqueueRestored, Consistent, MF.Accepts;
    hide MF.SameKind;
    hide Restrict;
    InvParts(q);
    InvParts(q0);
    StillAccepted(q0, q, id);
    RestrictMore(q.msgs, done, id);
    RestrictMore(q.ack, done, id);
    RestrictMore(Q.Items(q.ready), done, id);
    InFlightNotReady(ViewOf(q), id);
    if id in q.ack {
      RestoreUnackedStep(q0, id, q.msgs[id], q.ack[id].priority);
    } else {
      EnqueueRestoredStep(q0, id, q.msgs[id]);
    }
  }

  lemma InvParts(q: Q.Queue)
    requires Inv(q)
    ensures Q.MemoryOk(q.ready) && Consistent(ViewOf(q)) && MF.SameKind(Q.NewMemory(q.config), q.ready)
  {
  }

  lemma NoneYet(q: Q.Queue)
    ensures PartOf(Q.Queue(q.config, map[], Q.NewMemory(q.config), map[]), q, {})
  {
    hide Inv;
    NewQueueInv(q.config);
    MF.NewMemoryFacts(q.config);
  }

  // ---------- The restored queue is the original ----------

  lemma SameCounters(v: View, v0: View)
    requires Slots(v) && Slots(v0) && v.fair && v0.fair && v.ack == v0.ack
    ensures v.unacked == v0.unacked
  {
    forall g: string ensures v.unacked[g] == v0.unacked[g] {
    }
  }

  /**
   * Stored messages, the messages in flight and the configuration determine what is ready and every
   * counter, and with up-to-date weights the whole memory but the turn order of the groups.
   */
  lemma MemoryIsDetermined(q: Q.Queue, p: Q.Queue)
    requires Inv(q) && Inv(p) && q.config == p.config && q.msgs == p.msgs && q.ack == p.ack
    ensures MF.SameKind(q.ready, p.ready) && Q.Items(q.ready) == Q.Items(p.ready)
    ensures Q.Unacked(q.ready) == Q.Unacked(p.ready)
    ensures MF.WeightsFresh(q.ready) && MF.WeightsFresh(p.ready) && !q.ready.RoundRobinMemory? ==> q.ready == p.ready
  {
    hide Q.MemoryOk, Inv, Slots;
    InvParts(q);
    InvParts(p);
    SameReady(ViewOf(q), ViewOf(p));
    if Q.IsFair(q) {
      SameCounters(ViewOf(q), ViewOf(p));
    } else {
      NoCounters(q);
      NoCounters(p);
    }
    if q.ready.WeightedMemory? && MF.WeightsFresh(q.ready) && MF.WeightsFresh(p.ready) { SameWeights(q.ready, p.ready); }
  }

  lemma SameReady(v: View, w: View)
    requires Consistent(v) && Consistent(w) && v.msgs == w.msgs && v.ack == w.ack
    ensures v.ready == w.ready
  {
    hide Slots;
    forall id ensures id in v.ready <==> id in w.ready {
      assert id in v.ready <==> id in v.msgs && id !in v.ack;
      assert id in w.ready <==> id in w.msgs && id !in w.ack;
    }
  }

  lemma SameWeights(m: Q.Memory, m0: Q.Memory)
    requires m.WeightedMemory? && m0.WeightedMemory? && Q.MemoryOk(m) && Q.MemoryOk(m0) && m.wq.limit == m0.wq.limit
    requires MF.WeightsFresh(m) && MF.WeightsFresh(m0)
    requires Q.Items(m) == Q.Items(m0) && Q.Unacked(m) == Q.Unacked(m0)
    ensures m == m0
  {
    hide WQ.WellFormed, WQ.UpToDate;
    WQP.UpToDateIsDetermined(m.wq, m0.wq);
  }

  lemma Determined(q: Q.Queue, q0: Q.Queue)
    requires Inv(q) && PartOf(q0, q, q.msgs.Keys)
    ensures q0.msgs == q.msgs && q0.ack == q.ack
    ensures MF.SameKind(q.ready, q0.ready) && Q.Items(q0.ready) == Q.Items(q.ready) && Q.Unacked(q0.ready) == Q.Unacked(q.ready)
  {
    hide Q.MemoryOk, Q.Items, Q.Unacked, AllAccepted, InFlight;
    InvParts(q);
    InvParts(q0);
    SameKindsAgree(q, q0);
    assert q0.ack == q.ack;
    if Q.IsFair(q) {
      SameCounters(ViewOf(q), ViewOf(q0));
    } else {
      NoCounters(q);
      NoCounters(q0);
    }
  }

  lemma SameKindsAgree(q: Q.Queue, q0: Q.Queue)
    requires MF.SameKind(Q.NewMemory(q.config), q.ready) && MF.SameKind(Q.NewMemory(q0.config), q0.ready)
    requires q0.config == q.config
    ensures MF.SameKind(q.ready, q0.ready)
  {
  }

  lemma NoCounters(q: Q.Queue)
    requires !Q.IsFair(q) && MF.SameKind(Q.NewMemory(q.config), q.ready)
    ensures Q.Unacked(q.ready) == multiset{}
  {
  }

  /** What a snapshot keeps of a ready queue: the weights are recomputed when it is restored. */
  ghost function Renewed(m: Q.Memory): Q.Memory {
    match m
    case WeightedMemory(wq) => Q.WeightedMemory(WQP.Renewed(wq))
    case _ => m
  }

  lemma RenewedFacts(m: Q.Memory)
    requires Q.MemoryOk(m)
    ensures MF.Becomes(m, Renewed(m), Q.Items(m), Q.Unacked(m)) && MF.WeightsFresh(Renewed(m))
    ensures Renewed(m) == m <==> MF.WeightsFresh(m)
  {
    hide WQP.Renewed, WQ.WellFormed, WQ.UpToDate, WQ.Gated;
    if m.WeightedMemory? {
      WQP.RenewedOk(m.wq);
      RenewedSame(m.wq);
    }
  }

  lemma RenewedSame(wq: WQ.State)
    ensures WQP.Renewed(wq).items == wq.items && WQP.Renewed(wq).unacked == wq.unacked && WQP.Renewed(wq).limit == wq.limit
  {
  }

  lemma RestoredMemory(m: Q.Memory, m0: Q.Memory, sched: seq<SchedulingNode>)
    requires Q.MemoryOk(m) && Q.MemoryOk(m0) && MF.SameKind(m, m0)
    requires Q.Items(m0) == Q.Items(m) && Q.Unacked(m0) == Q.Unacked(m) && MF.WeightsFresh(m0)
    requires m.RoundRobinMemory? ==> Captures(m.rr.nodes, sched)
    ensures RestoreSchedule(m0, sched) == Renewed(m)
  {
    match m
    case DelayedMemory(_) =>
    case RoundRobinMemory(rr) => RestoresWhatWasCaptured(m0.rr.nodes, rr.nodes, rr.items, sched);
    case WeightedMemory(wq) =>
      WQP.RenewedOk(wq);
      WQP.UpToDateIsDetermined(WQP.Renewed(wq), m0.wq);
  }

  // ---------- One block ----------

  ghost function Elements(ids: seq<nat>): set<nat> {
    set id | id in ids
  }

  function DeadlinesOf(ack: map<nat, Item>, ids: seq<nat>): map<nat, int>
    requires forall id :: id in ids ==> id in ack
  {
    map id | id in ids :: ack[id].priority
  }

  lemma {:induction false} ReadUnacked(default: uint32, r: Reader, ack: map<nat, Item>, ids: seq<nat>)
    requires MemoryOk(r.s) && r.unacked == Some(map[]) && forall id :: id in ids ==> id in ack
    ensures ReadAll(default, r, UnackedItems(ack, ids))
         == Some(r.(unacked := Some(DeadlinesOf(ack, ids))))
    decreases |ids|
  {
    hide MemoryOk;
    if ids == [] {
      assert DeadlinesOf(ack, ids) == map[];
    } else {
      var front, id := ids[..|ids| - 1], ids[|ids| - 1];
      ReadUnacked(default, r, ack, front);
      var m := DeadlinesOf(ack, front);
      assert UnackedItems(ack, ids) == UnackedItems(ack, front) + [UnackedItem(id, ack[id].priority)];
      assert ids == front + [id];
      assert m[id := ack[id].priority] == DeadlinesOf(ack, ids);
      ReadLast(default, r, UnackedItems(ack, front), UnackedItem(id, ack[id].priority),
               r.(unacked := Some(m)), r.(unacked := Some(m[id := ack[id].priority])));
    }
  }

  lemma WithTwice(s: State, name: string, q: Q.Queue, q': Q.Queue)
    ensures With(With(s, name, q), name, q') == With(s, name, q')
  {
  }

  lemma WithSame(default: uint32, s: State, name: string)
    requires FsmInv(default, s) && name in s.queues
    ensures With(s, name, QueueOf(s, name)) == s
  {
    hide Inv;
    assert QueueOk(default, s, name);
  }

  /** The messages restored so far sit in a well-formed state. */
  lemma PartialState(default: uint32, s: State, name: string, q0: Q.Queue, q: Q.Queue, done: set<nat>)
    requires FsmInv(default, s) && name in s.queues && s.queues[name].config == q.config && PartOf(q0, q, done)
    ensures MemoryOk(With(s, name, q0)) && QueueOf(With(s, name, q0), name) == q0
  {
    hide FsmInv, Inv, MemoryOk;
    WithInv(default, s, name, q0);
    WithQueue(s, name, q0);
    InvGivesMemoryOk(default, With(s, name, q0));
  }

  /** One more message of the queue. */
  lemma ReadMessage(default: uint32, s: State, name: string, q: Q.Queue, front: seq<nat>, id: nat, q1: Q.Queue)
    returns (q0: Q.Queue)
    requires FsmInv(default, s) && MemoryOk(s) && name in s.queues && Inv(q) && s.queues[name].config == q.config
    requires (forall j :: j in front ==> j in q.msgs) && id in q.msgs && id !in front
    requires PartOf(q1, q, Elements(front))
    requires var r := Reader(s, Some(name), Some(Deadlines(q.ack)));
      ReadAll(default, r, MessageItems(q.msgs, front)) == Some(r.(s := With(s, name, q1)))
    ensures PartOf(q0, q, Elements(front) + {id})
    ensures var r := Reader(s, Some(name), Some(Deadlines(q.ack)));
      ReadAll(default, r, MessageItems(q.msgs, front) + [MessageItem(id, q.msgs[id])]) == Some(r.(s := With(s, name, q0)))
  {
    hide FsmInv, MemoryOk, Inv, PartOf, RestoreMessage, With, QueueOf, ReadAll, MessageItems;
    var r := Reader(s, Some(name), Some(Deadlines(q.ack)));
    var done := Elements(front);
    RestoreOne(q, q1, done, id);
    q0 := RestoreMessage(q1, Deadlines(q.ack), id, q.msgs[id]);
    PartialState(default, s, name, q1, q, done);
    PartialState(default, s, name, q0, q, done + {id});
    WithTwice(s, name, q1, q0);
    InQueues(s, name, q1);
    TakesNext(q, q1, done, id);
    ReadLast(default, r, MessageItems(q.msgs, front), MessageItem(id, q.msgs[id]),
             r.(s := With(s, name, q1)), r.(s := With(s, name, q0)));
  }

  lemma {:induction false} ReadMessages(default: uint32, s: State, name: string, q: Q.Queue, ids: seq<nat>)
    returns (q0: Q.Queue)
    requires FsmInv(default, s) && MemoryOk(s) && name in s.queues && Inv(q)
    requires QueueOf(s, name) == Q.Queue(q.config, map[], Q.NewMemory(q.config), map[])
    requires (forall id :: id in ids ==> id in q.msgs) && (forall i, j :: 0 <= i < j < |ids| ==> ids[i] != ids[j])
    ensures PartOf(q0, q, Elements(ids))
    ensures var r := Reader(s, Some(name), Some(Deadlines(q.ack)));
      ReadAll(default, r, MessageItems(q.msgs, ids)) == Some(r.(s := With(s, name, q0)))
    decreases |ids|
  {
    hide FsmInv, MemoryOk, Inv, PartOf, RestoreMessage, With, QueueOf;
    NewConfig(s, name, q);
    if ids == [] {
      q0 := Q.Queue(q.config, map[], Q.NewMemory(q.config), map[]);
      NoneYet(q);
      WithSame(default, s, name);
      assert Elements(ids) == {};
    } else {
      var front, id := ids[..|ids| - 1], ids[|ids| - 1];
      var q1 := ReadMessages(default, s, name, q, front);
      q0 := ReadMessage(default, s, name, q, front, id, q1);
      assert ids == front + [id];
      assert Elements(ids) == Elements(front) + {id};
      assert MessageItems(q.msgs, ids) == MessageItems(q.msgs, front) + [MessageItem(id, q.msgs[id])];
    }
  }

  lemma TakesNext(q: Q.Queue, q0: Q.Queue, done: set<nat>, id: nat)
    requires Inv(q) && PartOf(q0, q, done) && id in q.msgs && id !in done
    ensures MF.Enqueueable(q0, id, q.msgs[id].group)
  {
    hide Q.MemoryOk, Consistent;
  }

  lemma NewConfig(s: State, name: string, q: Q.Queue)
    requires name in s.queues && QueueOf(s, name).config == q.config
    ensures s.queues[name].config == q.config
  {
  }

  lemma InQueues(s: State, name: string, q: Q.Queue)
    ensures name in With(s, name, q).queues
  {
  }

  ghost function RenewedQueue(q: Q.Queue): Q.Queue {
    q.(ready := Renewed(q.ready))
  }

  /** The schedule ends the block of a queue whose messages are all restored. */
  lemma ReadSchedule(default: uint32, r: Reader, name: string, q: Q.Queue, q0: Q.Queue, tail: seq<SnapshotItem>)
    requires MemoryOk(r.s) && r.current == Some(name) && name in r.s.queues && QueueOf(r.s, name) == q0
    requires Inv(q) && PartOf(q0, q, q.msgs.Keys) && IsSchedule(q.ready, tail)
    requires MemoryOk(With(r.s, name, RenewedQueue(q))) && With(r.s, name, q0) == r.s
    ensures ReadAll(default, r, tail) == Some(r.(s := With(r.s, name, RenewedQueue(q))))
  {
    hide MemoryOk, Inv, With, QueueOf, Renewed, Captures, Q.Items, Q.Unacked, MF.SameKind, MF.WeightsFresh, Q.MemoryOk;
    InvParts(q);
    InvParts(q0);
    Determined(q, q0);
    KindsAgree(q.ready, q0.ready);
    if q.ready.RoundRobinMemory? {
      var sched :| tail == [SchedulingItem(sched)] && Captures(q.ready.rr.nodes, sched);
      RestoredMemory(q.ready, q0.ready, sched);
      assert q0.(ready := RestoreSchedule(q0.ready, sched)) == RenewedQueue(q);
      assert [] + tail == tail;
      ReadLast(default, r, [], SchedulingItem(sched), r, r.(s := With(r.s, name, RenewedQueue(q))));
    } else {
      RestoredMemory(q.ready, q0.ready, []);
      assert q0 == RenewedQueue(q);
    }
  }

  lemma KindsAgree(m: Q.Memory, m0: Q.Memory)
    requires MF.SameKind(m, m0)
    ensures m.RoundRobinMemory? <==> m0.RoundRobinMemory?
  {
  }

  lemma RenewedInv(q: Q.Queue)
    requires Inv(q)
    ensures Inv(RenewedQueue(q)) && ViewOf(RenewedQueue(q)) == ViewOf(q)
  {
    hide Q.MemoryOk, Q.Items, Q.Unacked, Consistent, Renewed, MF.WeightsFresh;
    InvParts(q);
    RenewedFacts(q.ready);
    assert ViewOf(RenewedQueue(q)) == ViewOf(q);
  }

  /** A queue's block, read where the queue does not exist yet, creates it. */
  lemma ReadBlock(default: uint32, r: Reader, name: string, q: Q.Queue, block: seq<SnapshotItem>) returns (r': Reader)
    requires DefaultOk(default) && FsmInv(default, r.s) && MemoryOk(r.s) && name !in r.s.queues
    requires Inv(q) && Restorable(default, q.config) && IsBlock(name, q, block)
    ensures ReadAll(default, r, block) == Some(r')
    ensures r'.s == With(Created(default, r.s, name, q.config.kind, q.config.settings).0, name, RenewedQueue(q))
  {
    hide MemoryOk, Inv, With, FsmInv, Renewed, PartOf, IsSchedule, UnackedItems, MessageItems, QueueOf, Deadlines;
    hide DeadlinesOf;
    var unacked: seq<nat>, ids: seq<nat>, tail: seq<SnapshotItem> :|
      && Lists(unacked, q.ack.Keys) && Lists(ids, q.msgs.Keys) && IsSchedule(q.ready, tail)
      && block == [QueueItem(name, q.config)] + UnackedItems(q.ack, unacked) + MessageItems(q.msgs, ids) + tail;
    var head := [QueueItem(name, q.config)];
    var s1 := Created(default, r.s, name, q.config.kind, q.config.settings).0;
    CreatedInv(default, r.s, name, q.config.kind, q.config.settings);
    InvGivesMemoryOk(default, s1);
    CreatedQueue(default, r.s, name, q.config);
    var r1 := Reader(s1, Some(name), Some(map[]));
    ReadLast(default, r, [], QueueItem(name, q.config), r, r1);
    assert [] + head == head;
    ReadUnacked(default, r1, q.ack, unacked);
    DeadlinesAll(q.ack, unacked);
    var r2 := r1.(unacked := Some(Deadlines(q.ack)));
    var q0 := ReadMessages(default, s1, name, q, ids);
    assert Elements(ids) == q.msgs.Keys;
    NewConfig(s1, name, q);
    PartialState(default, s1, name, q0, q, q.msgs.Keys);
    InQueues(s1, name, q0);
    WithTwice(s1, name, q0, q0);
    WithTwice(s1, name, q0, RenewedQueue(q));
    RenewedInv(q);
    WithInv(default, s1, name, RenewedQueue(q));
    InvGivesMemoryOk(default, With(s1, name, RenewedQueue(q)));
    var r3 := r2.(s := With(s1, name, q0));
    ReadSchedule(default, r3, name, q, q0, tail);
    ReadAllConcat(default, r, head, UnackedItems(q.ack, unacked));
    ReadAllConcat(default, r, head + UnackedItems(q.ack, unacked), MessageItems(q.msgs, ids));
    ReadAllConcat(default, r, head + UnackedItems(q.ack, unacked) + MessageItems(q.msgs, ids), tail);
    r' := r3.(s := With(s1, name, RenewedQueue(q)));
  }

  lemma CreatedQueue(default: uint32, s: State, name: string, config: Config)
    requires FsmInv(default, s) && name !in s.queues && Restorable(default, config)
    ensures var (s', r) := Created(default, s, name, config.kind, config.settings);
      r == Ok(()) && name in s'.queues && QueueOf(s', name) == Q.Queue(config, map[], Q.NewMemory(config), map[])
  {
    hide QueueOk;
  }

  lemma DeadlinesAll(ack: map<nat, Item>, ids: seq<nat>)
    requires Lists(ids, ack.Keys)
    ensures DeadlinesOf(ack, ids) == Deadlines(ack)
  {
  }

  // ---------- The whole snapshot ----------

  /** The state with the weights of its weighted queues recomputed. */
  ghost function RenewedState(s: State): State {
    s.(queues := map name | name in s.queues :: s.queues[name].(ready := Renewed(s.queues[name].ready)))
  }

  lemma RenewedStateInv(default: uint32, s: State)
    requires FsmInv(default, s)
    ensures FsmInv(default, RenewedState(s))
    ensures forall n :: n in s.queues ==> QueueOf(RenewedState(s), n) == RenewedQueue(QueueOf(s, n))
  {
    hide Inv, Renewed, Restorable;
    var t := RenewedState(s);
    forall n | n in t.queues ensures QueueOk(default, t, n) {
      assert QueueOk(default, s, n);
      RenewedInv(QueueOf(s, n));
      assert QueueOf(t, n) == RenewedQueue(QueueOf(s, n));
    }
  }

  lemma RenewedStateIff(default: uint32, s: State)
    requires FsmInv(default, s)
    ensures RenewedState(s) == s <==> Fresh(s)
  {
    hide Inv, Renewed, MF.WeightsFresh;
    forall n | n in s.queues ensures Renewed(s.queues[n].ready) == s.queues[n].ready <==> MF.WeightsFresh(s.queues[n].ready) {
      assert QueueOk(default, s, n);
      InvParts(QueueOf(s, n));
      RenewedFacts(s.queues[n].ready);
    }
    if RenewedState(s) == s {
      forall n | n in s.queues ensures MF.WeightsFresh(s.queues[n].ready) {
        assert RenewedState(s).queues[n] == s.queues[n];
      }
    }
  }

  ghost function Only<V>(m: map<string, V>, names: set<string>): map<string, V> {
    map n | n in m && n in names :: m[n]
  }

  /** The queues `names` of `s`. */
  ghost function Part(s: State, names: set<string>): State {
    State(Db(Only(s.db.configs, names), Only(s.db.msgs, names)), Only(s.queues, names))
  }

  lemma PartInv(default: uint32, s: State, names: set<string>)
    requires FsmInv(default, s)
    ensures FsmInv(default, Part(s, names))
  {
    hide Inv, Restorable;
    var t := Part(s, names);
    forall n | n in t.queues ensures QueueOk(default, t, n) {
      assert QueueOk(default, s, n);
      assert QueueOf(t, n) == QueueOf(s, n);
    }
  }

  lemma CreatedState(default: uint32, s: State, name: string, config: Config)
    requires name !in s.queues && Restorable(default, config)
    ensures Created(default, s, name, config.kind, config.settings).0
         == State(s.db.(configs := s.db.configs[name := config]),
                  s.queues[name := Loaded(config, Q.NewMemory(config), map[])])
  {
  }

  lemma OnlyGrows<V>(m: map<string, V>, names: set<string>, name: string)
    ensures Only(m, names + {name}) == if name in m then Only(m, names)[name := m[name]] else Only(m, names)
    ensures name !in names ==> Only(m, names) - {name} == Only(m, names)
  {
  }

  /** Adding a queue to a part of `s` gives the next larger part. */
  lemma PartGrows(default: uint32, s: State, names: set<string>, name: string)
    requires FsmInv(default, s) && name in s.queues && name !in names
    ensures var q := QueueOf(s, name);
      With(Created(default, Part(s, names), name, q.config.kind, q.config.settings).0, name, q) == Part(s, names + {name})
  {
    hide Inv, Created, Only, Restorable;
    assert QueueOk(default, s, name);
    OnlyKeys(s.queues, names);
    CreatedState(default, Part(s, names), name, QueueOf(s, name).config);
    OnlyGrows(s.queues, names, name);
    OnlyGrows(s.db.configs, names, name);
    OnlyGrows(s.db.msgs, names, name);
  }

  lemma OnlyKeys<V>(m: map<string, V>, names: set<string>)
    ensures forall n :: n in Only(m, names) <==> n in m && n in names
  {
  }

  ghost function Names(names: seq<string>): set<string> {
    set n | n in names
  }

  lemma {:induction false} ReadBlocks(default: uint32, s: State, names: seq<string>, items: seq<SnapshotItem>)
    returns (r: Reader)
    requires DefaultOk(default) && FsmInv(default, s)
    requires (forall n :: n in names ==> n in s.queues) && (forall i, j :: 0 <= i < j < |names| ==> names[i] != names[j])
    requires AreBlocks(s, names, items)
    ensures ReadAll(default, Reader(EMPTY, None, None), items) == Some(r)
    ensures r.s == Part(RenewedState(s), Names(names))
    decreases |names|
  {
    hide FsmInv, IsBlock, With, Created, Restorable, QueueOf, MemoryOk, RenewedQueue, Inv;
    var start := Reader(EMPTY, None, None);
    var t := RenewedState(s);
    RenewedStateInv(default, s);
    EmptyInv(default);
    InvGivesMemoryOk(default, EMPTY);
    if names == [] {
      r := start;
      assert Part(t, Names(names)) == EMPTY;
    } else {
      var front, name := names[..|names| - 1], names[|names| - 1];
      var items0, block :| items == items0 + block && AreBlocks(s, front, items0) && IsBlock(name, QueueOf(s, name), block);
      var r0 := ReadBlocks(default, s, front, items0);
      PartInv(default, t, Names(front));
      InvGivesMemoryOk(default, r0.s);
      QueueFacts(default, s, name);
      r := ReadBlock(default, r0, name, QueueOf(s, name), block);
      ReadAllConcat(default, start, items0, block);
      PartGrows(default, t, Names(front), name);
      SameConfig(s, name);
      assert names == front + [name];
      assert Names(names) == Names(front) + {name};
    }
  }

  lemma QueueFacts(default: uint32, s: State, name: string)
    requires FsmInv(default, s) && name in s.queues
    ensures Inv(QueueOf(s, name)) && Restorable(default, QueueOf(s, name).config)
  {
    hide Inv;
    assert QueueOk(default, s, name);
  }

  lemma SameConfig(s: State, name: string)
    requires name in s.queues
    ensures QueueOf(RenewedState(s), name).config == QueueOf(s, name).config
  {
  }

  /**
   * Restoring a snapshot of `s` over any state gives `s` with its weights recomputed, whatever the
   * order of the queues in it.
   */
  lemma RestoreGivesRenewed(default: uint32, s: State, previous: State, items: seq<SnapshotItem>)
    requires DefaultOk(default) && FsmInv(default, s) && IsSnapshot(s, items)
    ensures Restore(default, previous, items) == Some(RenewedState(s))
  {
    hide FsmInv, MemoryOk, Read, Renewed;
    var names, blocks :|
      && (forall n :: n in names <==> n in s.queues)
      && (forall i, j :: 0 <= i < j < |names| ==> names[i] != names[j])
      && AreBlocks(s, names, blocks) && items == [LeaderItem] + blocks;
    var start := Reader(EMPTY, None, None);
    EmptyInv(default);
    InvGivesMemoryOk(default, EMPTY);
    var r := ReadBlocks(default, s, names, blocks);
    ReadLeader(default, start);
    ReadAllConcat(default, start, [LeaderItem], blocks);
    RenewedStateInv(default, s);
    WholePart(default, RenewedState(s), Names(names));
  }

  lemma ReadLeader(default: uint32, r: Reader)
    requires MemoryOk(r.s)
    ensures ReadAll(default, r, [LeaderItem]) == Some(r)
  {
    assert [LeaderItem] == [] + [LeaderItem];
    ReadLast(default, r, [], LeaderItem, r, r);
  }

  lemma WholePart(default: uint32, s: State, names: set<string>)
    requires FsmInv(default, s) && forall n :: n in s.queues ==> n in names
    ensures Part(s, names) == s
  {
    hide QueueOk;
  }

  /**
   * A restored replica is the original, exactly when the weights of its weighted queues are the ones
   * their current limits give.
   */
  lemma RestoreIsExactIff(default: uint32, s: State, previous: State, items: seq<SnapshotItem>)
    requires DefaultOk(default) && FsmInv(default, s) && IsSnapshot(s, items)
    ensures Restore(default, previous, items) == Some(s) <==> Fresh(s)
  {
    hide FsmInv, Fresh, RenewedState, IsSnapshot, Restore;
    RestoreGivesRenewed(default, s, previous, items);
    RenewedStateIff(default, s);
  }
}
