/**
 * Properties that one might expect of the queue and that fail for some inputs: for each a concrete
 * failure and the exact condition under which it holds.
 */
module Limitations {
  import opened Types
  import opened GroupPath
  import opened Weights
  import opened Fsm
  import opened FsmInvariant
  import opened Replay
  import F = Fairness
  import MF = MemoryFacts
  import Q = QueueSpec
  import QI = QueueInvariant
  import RR = RoundRobin
  import RRP = RoundRobinProperties
  import Sch = Scheduling
  import Sn = Snapshot
  import WQ = WeightedSpec
  import WQP = WeightedProperties

  // ---------- Turns ----------

  /** A turn order without one of the children. */
  ghost function Without(s: seq<string>, c: string): seq<string>
    requires c in s
  {
    var i := RR.IndexOf(s, c);
    s[..i] + s[i + 1..]
  }

  lemma WithoutAt(s: seq<string>, i: nat)
    requires i < |s| && RR.NoDuplicates(s)
    ensures Without(s, s[i]) == s[..i] + s[i + 1..]
  {
    F.IndexIs(s, i);
  }

  lemma RemovalInTurn(r: RR.Ring)
    requires RR.RingOk(r) && r.names != []
    ensures var c := r.names[r.cursor]; c in RR.Rotation(r)
    ensures var c := r.names[r.cursor];
      RR.Rotation(RR.Dropped(r, c)) == Without(RR.Rotation(r), c) <==> r.cursor == 0 || r.cursor == |r.names| - 1
  {
    var names, k := r.names, r.cursor;
    F.IndexIs(names, k);
    RotationHasNoDuplicates(r);
    var order := RR.Rotation(r);
    assert order[0] == names[k];
    WithoutAt(order, 0);
    assert order[1..] == names[k + 1..] + names[..k];
    var rest := names[..k] + names[k + 1..];
    assert RR.Dropped(r, names[k]) == RR.Ring(rest, 0);
    assert RR.Rotation(RR.Ring(rest, 0)) == rest;
    if 0 < k < |names| - 1 {
      assert rest[0] == names[0] && (names[k + 1..] + names[..k])[0] == names[k + 1];
    } else {
      assert rest == names[k + 1..] + names[..k];
    }
  }

  lemma CutBehind(names: seq<string>, k: nat, i: nat)
    requires k < i < |names|
    ensures var order := names[k..] + names[..k]; var rest := names[..i] + names[i + 1..];
      order[i - k] == names[i] && order[..i - k] + order[i - k + 1..] == rest[k..] + rest[..k]
  {
    var order, rest := names[k..] + names[..k], names[..i] + names[i + 1..];
    assert order[..i - k] == names[k..i] && order[i - k + 1..] == names[i + 1..] + names[..k];
    assert rest[k..] == names[k..i] + names[i + 1..] && rest[..k] == names[..k];
  }

  lemma RemovalBehind(r: RR.Ring, i: nat)
    requires RR.RingOk(r) && r.cursor < i < |r.names|
    ensures r.names[i] in RR.Rotation(r)
    ensures RR.Rotation(RR.Dropped(r, r.names[i])) == Without(RR.Rotation(r), r.names[i])
  {
    hide Without;
    F.IndexIs(r.names, i);
    RotationHasNoDuplicates(r);
    CutBehind(r.names, r.cursor, i);
    WithoutAt(RR.Rotation(r), i - r.cursor);
  }

  lemma CutAhead(names: seq<string>, k: nat, i: nat)
    requires i < k < |names|
    ensures var order := names[k..] + names[..k]; var rest := names[..i] + names[i + 1..]; var j := |names| - k + i;
      order[j] == names[i] && order[..j] + order[j + 1..] == rest[k - 1..] + rest[..k - 1]
  {
    var order, rest, j := names[k..] + names[..k], names[..i] + names[i + 1..], |names| - k + i;
    assert order[..j] == names[k..] + names[..i] && order[j + 1..] == names[i + 1..k];
    assert rest[k - 1..] == names[k..] && rest[..k - 1] == names[..i] + names[i + 1..k];
  }

  lemma RemovalAhead(r: RR.Ring, i: nat)
    requires RR.RingOk(r) && i < r.cursor < |r.names|
    ensures r.names[i] in RR.Rotation(r)
    ensures RR.Rotation(RR.Dropped(r, r.names[i])) == Without(RR.Rotation(r), r.names[i])
  {
    hide Without;
    F.IndexIs(r.names, i);
    RotationHasNoDuplicates(r);
    CutAhead(r.names, r.cursor, i);
    WithoutAt(RR.Rotation(r), |r.names| - r.cursor + i);
  }

  /**
   * Removing a child keeps the turns of the others unless it was that child's turn: then the turn
   * goes back to the head of the list, which is right only from the first and from the last place.
   */
  lemma RemovalKeepsTurnsIff(r: RR.Ring, c: string)
    requires RR.RingOk(r) && c in r.names
    ensures c in RR.Rotation(r)
    ensures RR.Rotation(RR.Dropped(r, c)) == Without(RR.Rotation(r), c) <==> F.KeepsTurns(r, c)
  {
    hide RR.Rotation, RR.Dropped, Without;
    var i := RR.IndexOf(r.names, c);
    if i == r.cursor {
      RemovalInTurn(r);
    } else if i > r.cursor {
      RemovalBehind(r, i);
    } else {
      RemovalAhead(r, i);
    }
  }

  lemma RotationHasNoDuplicates(r: RR.Ring)
    requires RR.RingOk(r)
    ensures RR.NoDuplicates(RR.Rotation(r))
  {
    var n, k := |r.names|, r.cursor;
    var order := RR.Rotation(r);
    forall i, j | 0 <= i < j < n ensures order[i] != order[j] {
      assert order[i] == r.names[if k + i < n then k + i else k + i - n];
      assert order[j] == r.names[if k + j < n then k + j else k + j - n];
    }
  }

  // ---------- Weights ----------

  /** A group under its limit with a message to deliver can have no weight at all. */
  lemma UnderLimitWithoutWeight()
    ensures WQ.CalculateWeight(30, 29, 1) == 0
  {
    hide WQ.CalculateWeight;
    WQ.WeightPositiveIff(30, 29, 1);
  }

  /** The weight is the free tenths of `limit + 1`, rounded down, except where these are exactly one or two. */
  lemma WeightIsExactIff(limit: SlotLimit, unacked: nat, queueSize: nat)
    requires limit < UINT32_SIZE && unacked < limit && queueSize > 0
    ensures WQ.CalculateWeight(limit, unacked, queueSize) == 10 * (limit + 1 - unacked) / (limit + 1)
       <==> 10 * unacked != 8 * (limit + 1) && 10 * unacked != 9 * (limit + 1)
  {
    hide WQ.CalculateWeight;
    WQ.WeightIs(limit, unacked, queueSize);
  }

  /** Doubles fall short of the last tenth at 18 of 19 slots, and of the second last at 8 of 9. */
  lemma LastTenthIsLost()
    ensures WQ.CalculateWeight(19, 18, 1) == 0 && WQ.CalculateWeight(9, 8, 1) == 1
  {
    hide WQ.CalculateWeight;
    WQ.WeightIs(19, 18, 1);
    WQ.WeightIs(9, 8, 1);
  }

  /** Whatever the seed, the group picked is under its limit. */
  ghost predicate PicksUnderLimit(s: WQ.State) {
    Total(s.weights) > 0 ==> forall mixed: nat :: s.unacked[WQ.Selected(s, mixed)] < s.limit
  }

  /** That holds exactly if no group at its limit has kept a weight from before. */
  lemma PicksUnderLimitIff(s: WQ.State)
    requires WQ.WellFormed(s)
    ensures PicksUnderLimit(s) <==>
      forall g :: g in s.weights && s.weights[g] > 0 ==> s.unacked[g] < s.limit
  {
    var m := s.weights;
    assert NonNegative(m) by {
      forall g | g in m ensures m[g] >= 0 { assert WQ.GroupOk(s, g); }
    }
    if PicksUnderLimit(s) {
      forall g | g in m && m[g] > 0 ensures s.unacked[g] < s.limit {
        PickIsProportional(m, g);
        var r :| r in Picking(m, g);
        assert r % Total(m) == r;
        assert WQ.Selected(s, r) == g;
      }
    }
    if (forall g :: g in m && m[g] > 0 ==> s.unacked[g] < s.limit) && Total(m) > 0 {
      forall mixed: nat ensures s.unacked[WQ.Selected(s, mixed)] < s.limit {
        WQ.SelectedHasItem(s, mixed);
      }
    }
  }

  /** A lowered limit leaves the weights alone, so a group at its new limit is still picked. */
  lemma LoweredLimitIsOverrun()
    ensures var s := WQ.State(map[1 := Item(1, 0, "a")], multiset{"a"}, 10, map["a" := 9]);
      && WQ.WellFormed(s) && PicksUnderLimit(s) && !PicksUnderLimit(WQ.UpdateMaxUnacked(s, 1))
  {
    var s := WQ.State(map[1 := Item(1, 0, "a")], multiset{"a"}, 10, map["a" := 9]);
    var t := WQ.UpdateMaxUnacked(s, 1);
    forall g: string ensures WQ.GroupOk(s, g) && WQ.GroupOk(t, g) {
      if g == "a" {
        assert 1 in WQ.ItemsOf(s.items, g);
      } else {
        assert WQ.ItemsOf(s.items, g) == map[];
      }
    }
    PicksUnderLimitIff(s);
    PicksUnderLimitIff(t);
    assert "a" in t.weights && t.weights["a"] > 0 && t.unacked["a"] == 1;
  }

  /** Whatever the seed, `PeekReady` says whether a dequeue returns a message. */
  ghost predicate PeekIsExact(s: WQ.State)
    requires WQ.WellFormed(s)
  {
    forall ack: bool, mixed: nat :: WQ.Dequeue(s, ack, mixed).0.Some? <==> WQ.PeekReady(s)
  }

  /**
   * That holds exactly if the group with the empty name has no weight: its name is also the answer
   * for "no group", so that nothing is dequeued when it is picked.
   */
  lemma PeekIsExactIff(s: WQ.State)
    requires WQ.WellFormed(s)
    ensures PeekIsExact(s) <==> ("" in s.weights ==> s.weights[""] == 0)
  {
    var m := s.weights;
    assert WQ.GroupOk(s, "");
    if "" in m && m[""] > 0 {
      forall g | g in m ensures m[g] >= 0 { assert WQ.GroupOk(s, g); }
      PickIsProportional(m, "");
      var r :| r in Picking(m, "");
      assert r % Total(m) == r;
      assert WQ.Selected(s, r) == "" && WQ.PeekReady(s);
      assert WQ.Dequeue(s, false, r).0.None?;
    } else {
      forall ack: bool, mixed: nat ensures WQ.Dequeue(s, ack, mixed).0.Some? <==> WQ.PeekReady(s) {
        WQP.PeekReadyIffDequeue(s, ack, mixed);
      }
    }
  }

  /** The only message has no group: the queue calls itself ready for ever and serves nothing. */
  lemma UngroupedMessageStarves(ack: bool, mixed: nat)
    ensures var s := WQ.Enqueue(WQ.New(0), "", 1, 0);
      WQ.WellFormed(s) && WQ.PeekReady(s) && WQ.Dequeue(s, ack, mixed) == (None, s)
  {
    var s := WQ.Enqueue(WQ.New(0), "", 1, 0);
    WQP.NewWellFormed(0);
    WQP.EnqueueWellFormed(WQ.New(0), "", 1, 0);
    assert 1 in WQ.ItemsOf(s.items, "");
    WQ.WeightPositiveIff(s.limit, 0, 1);
    assert WQ.ItemsOf(s.items, "") == map[1 := Item(1, 0, "")];
    assert s.weights.Keys == {""} && s.weights[""] > 0;
    OnlyKey(s.weights, "");
    WQ.SelectedHasItem(s, mixed);
  }

  lemma OnlyKey(m: WeightMap, k: string)
    requires m.Keys == {k}
    ensures Total(m) == m[k]
  {
    LeastUnique(m, k);
    assert m - {k} == map[];
  }

  // ---------- Groups ----------

  /** A round-robin queue files a message without group under "default", but stores it without group. */
  lemma EnqueueMirrorsIff(
    q: Q.Queue, id: nat, group: string, priority: int, content: string, metadata: map<string, string>)
    requires QI.Inv(q) && q.ready.RoundRobinMemory? && id !in q.msgs
    ensures QI.Mirror(QI.ViewOf(Q.Enqueue(q, id, group, priority, content, metadata))) <==> group != ""
  {
    hide RR.WellFormed, RR.Grown, QI.Slots, QI.Partition, QI.AllAccepted, QI.Mirror, Q.MemoryOk;
    NoUngrouped(q);
    ReadyIsStored(q, id);
    OneMoreMirrors(QI.ViewOf(q), id, Message(group, priority, content, metadata, 0),
                   Item(id, priority, RR.GroupOrDefault(group)));
  }

  lemma OneMoreMirrors(v: QI.View, id: nat, m: Message, x: Item)
    requires QI.Mirror(v) && id !in v.msgs
    ensures QI.Mirror(v.(msgs := v.msgs[id := m], ready := v.ready[id := x])) <==> x == QI.ReadyItem(id, m)
  {
    var v' := v.(msgs := v.msgs[id := m], ready := v.ready[id := x]);
    assert v'.ready[id] == x && v'.msgs[id] == m;
  }

  /**
   * A message is enqueued, delivered and acked. The counters are back to what they were exactly if it
   * has a group: without one its slot is taken under "default" and given back under "".
   */
  lemma SlotComesBackIff(
    q: Q.Queue, id: nat, group: string, priority: int, content: string, metadata: map<string, string>,
    mixed: nat, now: int)
    requires QI.Inv(q) && q.ready.RoundRobinMemory? && id !in q.msgs && ValidGroup(RR.GroupOrDefault(group))
    ensures var q1 := Q.Enqueue(q, id, group, priority, content, metadata); Q.MemoryOk(q1.ready)
    ensures var q1 := Q.Enqueue(q, id, group, priority, content, metadata);
      var (q2, r) := Q.Dequeue(q1, false, mixed, now);
      r.Ok? && r.value.0 == id ==>
        var (q3, done) := Q.Ack(q2, id);
        done == Ok(()) && (Q.Unacked(q3.ready) == Q.Unacked(q.ready) <==> group != "")
  {
    hide RR.WellFormed, RR.Dequeue, RR.Enqueue, QI.Inv, ValidGroup, Q.Enqueue, Q.Dequeue, Q.Ack, Q.MemoryOk;
    NoUngrouped(q);
    Filed(q, id, group, priority, content, metadata);
    var q1 := Q.Enqueue(q, id, group, priority, content, metadata);
    var (q2, r) := Q.Dequeue(q1, false, mixed, now);
    if r.Ok? && r.value.0 == id {
      SlotTaken(q1, mixed, now, id);
      SlotGivenBack(q2, id);
      SlotBalance(q.ready.rr.unacked, group);
    }
  }

  lemma SlotBalance(unacked: multiset<string>, group: string)
    requires unacked[""] == 0
    ensures unacked + multiset{RR.GroupOrDefault(group)} - multiset{group} == unacked <==> group != ""
  {
    var after := unacked + multiset{RR.GroupOrDefault(group)} - multiset{group};
    if group == "" { assert after["default"] == unacked["default"] + 1; }
  }

  lemma Filed(
    q: Q.Queue, id: nat, group: string, priority: int, content: string, metadata: map<string, string>)
    requires QI.Inv(q) && q.ready.RoundRobinMemory? && id !in q.msgs && ValidGroup(RR.GroupOrDefault(group))
    requires Q.IsFair(q)
    ensures var q1 := Q.Enqueue(q, id, group, priority, content, metadata);
      && q1.ready.RoundRobinMemory? && Q.MemoryOk(q1.ready) && q1.config == q.config && Q.Unacked(q1.ready) == Q.Unacked(q.ready)
      && id in q1.msgs && q1.msgs[id].group == group
      && id in q1.ready.rr.items && q1.ready.rr.items[id].group == RR.GroupOrDefault(group)
  {
    hide RR.WellFormed, RR.Grown, QI.Consistent, QI.AllAccepted, ValidGroup;
    ReadyIsStored(q, id);
    RRP.EnqueueWellFormed(q.ready.rr, group, id, priority);
  }

  lemma SlotTaken(q: Q.Queue, mixed: nat, now: int, id: nat)
    requires q.ready.RoundRobinMemory? && Q.MemoryOk(q.ready)
    requires var r := Q.Dequeue(q, false, mixed, now).1; r.Ok? && r.value.0 == id
    ensures id in q.msgs && id in q.ready.rr.items
    ensures var q2 := Q.Dequeue(q, false, mixed, now).0;
      && q2.ready.RoundRobinMemory? && q2.config == q.config && id in q2.ack
      && id in q2.msgs && q2.msgs[id].group == q.msgs[id].group
      && Q.Unacked(q2.ready) == Q.Unacked(q.ready) + multiset{q.ready.rr.items[id].group}
  {
    hide RR.WellFormed, RR.Dequeue;
    RRP.DequeueEffect(q.ready.rr, false);
  }

  lemma SlotGivenBack(q: Q.Queue, id: nat)
    requires q.ready.RoundRobinMemory? && Q.IsFair(q) && id in q.ack && id in q.msgs
    ensures var (q3, done) := Q.Ack(q, id);
      done == Ok(()) && Q.Unacked(q3.ready) == Q.Unacked(q.ready) - multiset{q.msgs[id].group}
  {
  }

  lemma ReadyIsStored(q: Q.Queue, id: nat)
    requires QI.Inv(q) && q.ready.RoundRobinMemory?
    ensures id in q.ready.rr.items ==> id in q.msgs
  {
    hide RR.WellFormed;
  }

  lemma NoUngrouped(q: Q.Queue)
    requires QI.Inv(q) && q.ready.RoundRobinMemory?
    ensures Q.IsFair(q) && q.ready.rr.unacked[""] == 0
  {
    hide RR.WellFormed;
    var v := QI.ViewOf(q);
    if id :| id in QI.InFlight(q.ack, "") {
      MF.ValidGroupNonEmpty("");
    }
    assert QI.InFlight(q.ack, "") == {};
    assert v.unacked[""] == |QI.InFlight(v.ack, "")|;
  }

  /** An unset cursor comes back from a snapshot as it was unless a child has the empty name. */
  lemma UnsetCursorRestoredIff(r: RR.Ring)
    requires RR.RingOk(r) && r.names != [] && r.cursor == 0
    ensures Sch.Reordered(r, r.names, "") == r <==> "" !in r.names || r.names[0] == ""
  {
    Sch.ListedAll(r.names, r.names, {});
    Sch.UnlistedNone(r.names, r.names);
    assert r.names + [] == r.names;
    if "" in r.names {
      var i := RR.IndexOf(r.names, "");
      assert r.names[i] == "";
    }
  }

  // ---------- Settings ----------

  /** A queue that was created can be created again from its snapshot unless its timeout is too short. */
  lemma CreatedIsRestorableIff(default: uint32, kind: QueueType, settings: Settings)
    requires Validated(default, kind, settings).Ok?
    ensures Restorable(default, Config(kind, Validated(default, kind, settings).value))
       <==> settings.ackTimeout != 0 || DefaultOk(default)
  {
  }

  /** The same for new settings, which are checked less than those of a new queue. */
  lemma UpdatedIsRestorableIff(default: uint32, c: Config, settings: Settings)
    requires Restorable(default, c) && settings.strategy == c.settings.strategy && WithTimeout(default, settings).Ok?
    ensures Restorable(default, c.(settings := WithTimeout(default, settings).value))
       <==> (c.kind == Delayed ==> settings.maxUnacked == 0) && (settings.ackTimeout != 0 || DefaultOk(default))
  {
  }

  /** Of all commands, only new settings for a queue that does not exist dereference nil. */
  lemma CrashesIff(default: uint32, s: State, e: Entry)
    requires FsmInv(default, s)
    ensures MemoryOk(s)
    ensures Apply(default, s, e).1 == Crashed <==> e.cmd.UpdateQueue? && e.cmd.queue !in s.queues
  {
    InvGivesMemoryOk(default, s);
  }

  /** Where it cannot be created again, the first message of its snapshot is put into no queue at all. */
  lemma UnrestorableCrashes(default: uint32, r: Sn.Reader, name: string, c: Config, id: nat, msg: Message)
    requires MemoryOk(r.s) && name !in r.s.queues && Validated(default, c.kind, c.settings).Err?
    ensures var r' := Sn.Read(default, r, Sn.QueueItem(name, c));
      r'.Some? && MemoryOk(r'.value.s) && Sn.Read(default, r'.value, Sn.MessageItem(id, msg)) == None
  {
  }

  // ---------- Message ids ----------

  /** The group under which a queue looks for a message. */
  function FiledUnder(q: Q.Queue, group: string): string {
    if Q.IsFair(q) then group else "default"
  }

  /**
   * A ready message is enqueued again. The queue finds it, and memory and store stay in step, exactly
   * under the same group and priority. Under another group it is not found and filed a second time.
   */
  lemma ReEnqueueReadyIff(
    q: Q.Queue, id: nat, group: string, priority: int, content: string, metadata: map<string, string>)
    requires QI.Inv(q) && id in Q.Items(q.ready)
    ensures id in q.msgs
    ensures Q.MemoryGet(q.ready, FiledUnder(q, group), id).Some? <==> FiledUnder(q, group) == q.msgs[id].group
    ensures Q.MemoryGet(q.ready, FiledUnder(q, group), id).Some?
         && QI.Mirror(QI.ViewOf(Q.Enqueue(q, id, group, priority, content, metadata)))
       <==> FiledUnder(q, group) == q.msgs[id].group && priority == q.msgs[id].priority
  {
    hide Q.MemoryOk, QI.Slots, QI.Partition, QI.Mirror;
    ReadyIsMirrored(q, id);
    FoundIff(q, id, FiledUnder(q, group));
    if FiledUnder(q, group) == q.msgs[id].group {
      AgainInStep(q, id, group, priority, content, metadata);
    }
  }

  lemma ReadyIsMirrored(q: Q.Queue, id: nat)
    requires QI.Inv(q) && id in Q.Items(q.ready)
    ensures id in q.msgs && Q.Items(q.ready)[id] == QI.ReadyItem(id, q.msgs[id])
    ensures QI.Mirror(QI.ViewOf(q)) && MF.Accepts(q.ready, q.msgs[id].group)
    ensures q.ready.DelayedMemory? <==> !Q.IsFair(q)
  {
    hide Q.MemoryOk, QI.Slots, MF.Accepts;
    var v := QI.ViewOf(q);
    assert v.ready[id] == QI.ReadyItem(id, v.msgs[id]);
  }

  lemma FoundIff(q: Q.Queue, id: nat, g: string)
    requires id in Q.Items(q.ready) && id in q.msgs && Q.Items(q.ready)[id] == QI.ReadyItem(id, q.msgs[id])
    requires q.ready.DelayedMemory? ==> g == "default" == q.msgs[id].group
    ensures Q.MemoryGet(q.ready, g, id).Some? <==> g == q.msgs[id].group
  {
  }

  lemma AgainInStep(
    q: Q.Queue, id: nat, group: string, priority: int, content: string, metadata: map<string, string>)
    requires id in Q.Items(q.ready) && id in q.msgs && Q.Items(q.ready)[id] == QI.ReadyItem(id, q.msgs[id])
    requires QI.Mirror(QI.ViewOf(q)) && FiledUnder(q, group) == q.msgs[id].group
    requires Q.MemoryGet(q.ready, FiledUnder(q, group), id).Some?
    ensures QI.Mirror(QI.ViewOf(Q.Enqueue(q, id, group, priority, content, metadata))) <==> priority == q.msgs[id].priority
  {
    hide Q.MemoryGet, Q.Items;
    var q' := Q.Enqueue(q, id, group, priority, content, metadata);
    assert q'.ready == q.ready && q'.msgs == q.msgs[id := Message(q.msgs[id].group, priority, content, metadata, 0)];
  }

  /** Enqueueing a message that is in flight makes it ready and in flight at once. */
  lemma ReEnqueueInFlight(
    q: Q.Queue, id: nat, group: string, priority: int, content: string, metadata: map<string, string>)
    requires QI.Inv(q) && id in q.ack
    ensures !QI.Partition(QI.ViewOf(Q.Enqueue(q, id, group, priority, content, metadata)))
  {
    hide Q.MemoryOk;
    var v := QI.ViewOf(q);
    assert id in v.msgs && id !in v.ready;
    var q' := Q.Enqueue(q, id, group, priority, content, metadata);
    assert id in Q.Items(q'.ready) && id in q'.ack;
  }

  // ---------- Readiness and replay ----------

  /** Freeing a slot can make a queue ready, and `Ack` and `Delete` announce nothing. */
  lemma FreedSlotMakesReady(s: RR.State, p: Path, g: string)
    requires RR.IsLeaf(s, p) && RR.ItemsAt(s.items, p) != map[] && s.unacked[Join(p)] == s.limit
    requires g == Join(p)
    ensures !RR.IsReadyLeaf(s, p) && RR.IsReadyLeaf(RR.Release(s, g), p) && RR.PeekReady(RR.Release(s, g))
  {
    assert RR.IsReadyLeaf(RR.Release(s, g), p);
  }

  // A queue "q", before and after a command that the first run refused.

  ghost function ByTime(default: uint32): Config {
    Config(Delayed, Settings(Unspecified, 0, default, 0))
  }

  ghost function EarlyLog(default: uint32): seq<Entry> {
    [Entry(1, 0, Enqueue("q", 7, "", 0, "", map[])), Entry(2, 0, CreateQueue("q", Delayed, ByTime(default).settings))]
  }

  ghost function Empty(default: uint32): State {
    State(Db(map["q" := ByTime(default)], map[]), map["q" := Loaded(ByTime(default), Q.DelayedMemory(map[]), map[])])
  }

  ghost function Resurrected(default: uint32): State {
    State(Db(map["q" := ByTime(default)], map["q" := map[7 := Message("default", 0, "", map[], 0)]]),
          map["q" := Loaded(ByTime(default), Q.DelayedMemory(map[7 := Item(7, 0, "default")]), map[])])
  }

  lemma FirstRun(default: uint32)
    requires default >= 10
    ensures IsRun(default, [EMPTY, EMPTY, Empty(default)], EarlyLog(default))
  {
    assert MemoryOk(EMPTY);
    assert Apply(default, EMPTY, EarlyLog(default)[0]) == (EMPTY, Failed(QueueNotFound));
    assert Apply(default, EMPTY, EarlyLog(default)[1]).0 == Empty(default);
  }

  lemma SecondRun(default: uint32)
    requires default >= 10
    ensures IsTrace(default, [State(Empty(default).db, map[]), Resurrected(default), Resurrected(default)], EarlyLog(default))
  {
    hide Apply, MemoryOk;
    EarlyEnqueue(default);
    LateCreate(default);
  }

  lemma LateCreate(default: uint32)
    ensures MemoryOk(Resurrected(default))
    ensures Apply(default, Resurrected(default), EarlyLog(default)[1]).0 == Resurrected(default)
  {
  }

  lemma EarlyEnqueue(default: uint32)
    ensures MemoryOk(State(Empty(default).db, map[]))
    ensures Apply(default, State(Empty(default).db, map[]), EarlyLog(default)[0]).0 == Resurrected(default)
  {
  }

  ghost function LookupLog(default: uint32): seq<Entry> {
    [Entry(1, 0, CreateQueue("q", Delayed, ByTime(default).settings)), Entry(2, 0, Get("q", 7)),
     Entry(3, 0, Enqueue("q", 7, "", 0, "", map[]))]
  }

  /** The queue is in memory without the message that the store has. */
  ghost function Reloaded(default: uint32): State {
    State(Resurrected(default).db, Empty(default).queues)
  }

  lemma CreateIt(default: uint32)
    requires default >= 10
    ensures MemoryOk(EMPTY) && Apply(default, EMPTY, LookupLog(default)[0]).0 == Empty(default)
    ensures var t := State(Resurrected(default).db, map[]);
      MemoryOk(t) && Apply(default, t, LookupLog(default)[0]).0 == Reloaded(default)
  {
    var t := State(Resurrected(default).db, map[]);
    assert t.db.configs["q" := ByTime(default)] == t.db.configs;
  }

  lemma LookItUp(default: uint32)
    ensures MemoryOk(Empty(default)) && Apply(default, Empty(default), LookupLog(default)[1])
         == (Empty(default), Failed(MessageNotFound))
    ensures MemoryOk(Reloaded(default))
    ensures Apply(default, Reloaded(default), LookupLog(default)[1]).0 == Reloaded(default)
    ensures Apply(default, Reloaded(default), LookupLog(default)[1]).1.Answered?
  {
    var s := Empty(default);
    assert s.db.msgs - {"q"} == s.db.msgs;
    assert With(s, "q", QueueOf(s, "q")) == s;
    assert 7 in MsgsOf(Reloaded(default).db, "q");
  }

  lemma EnqueueIt(default: uint32)
    ensures MemoryOk(Empty(default)) && Apply(default, Empty(default), LookupLog(default)[2]).0 == Resurrected(default)
    ensures MemoryOk(Reloaded(default))
    ensures Apply(default, Reloaded(default), LookupLog(default)[2]).0 == Resurrected(default)
    ensures Legal(Empty(default), LookupLog(default)[2])
  {
    var msgs := map[7 := Message("default", 0, "", map[], 0)];
    assert msgs[7 := Message("default", 0, "", map[], 0)] == msgs;
  }

  lemma OnlyAt(items: map<nat, Item>, g: string, p: Path)
    requires (forall id :: id in items ==> items[id].group == g) && RR.ItemsAt(items, p) != map[]
    ensures p == Split(g)
  {
    var id :| id in RR.ItemsAt(items, p);
  }

  lemma OnlyLeaf(s: RR.State, g: string)
    requires RR.WellFormed(s) && s.items != map[] && (forall id :: id in s.items ==> s.items[id].group == g)
    ensures RR.IsLeaf(s, Split(g)) && RR.ItemsAt(s.items, Split(g)) != map[]
  {
    hide Split;
    var l := Split(g);
    var id :| id in s.items;
    assert RR.Under(s.items, id, l) && id in RR.ItemsAt(s.items, l);
    forall c ensures c !in s.nodes[l].names {
      assert forall j :: RR.Under(s.items, j, RR.Child(l, c)) ==> |RR.Child(l, c)| <= |l|;
      assert !RR.Holds(s.items, RR.Child(l, c));
    }
    if s.nodes[l].names != [] {
      Sch.HasFirst(s.nodes[l].names);
      assert false;
    }
  }

  /** A node strictly above `l` has used up its slots. */
  ghost predicate BlockedAbove(s: RR.State, l: Path) {
    exists q :: [] < q < l && !RR.UnderLimit(s, q)
  }

  /**
   * The counter of ready leaves and the walk disagree exactly when there are ready leaves and each
   * of them has a blocked node above it.
   */
  lemma PeekReadyMisleadsIff(s: RR.State, ack: bool)
    requires RR.WellFormed(s)
    ensures (RR.PeekReady(s) <==> RR.Dequeue(s, ack).0.Some?) <==>
      ((exists l :: RR.IsReadyLeaf(s, l)) ==> exists l :: RR.IsReadyLeaf(s, l) && !BlockedAbove(s, l))
  {
    hide RR.UnderLimit, Split, RR.Walk, RR.WellFormed, RR.ItemsAt, RR.Dequeue;
    RRP.DequeueIffHasReady(s, ack);
    if RR.Dequeue(s, ack).0.Some? {
      RRP.DequeueImpliesPeekReady(s, ack);
      var l :| RR.Reachable(s, [], l);
      RootIsNoLeaf(s, l);
      assert RR.IsReadyLeaf(s, l) && !BlockedAbove(s, l);
    } else {
      forall l | RR.IsReadyLeaf(s, l) ensures BlockedAbove(s, l) {
        assert !RR.Reachable(s, [], l);
        var q :| [] < q <= l && !RR.UnderLimit(s, q);
        assert q != l;
      }
    }
  }

  lemma RootIsNoLeaf(s: RR.State, l: Path)
    requires RR.WellFormed(s) && RR.ItemsAt(s.items, l) != map[]
    ensures l != []
  {
    var id :| id in RR.ItemsAt(s.items, l);
    assert Split(s.items[id].group) == l;
  }

  /**
   * A group that is a prefix of another and has used up its slots blocks the other. The counter of
   * ready leaves does not see that: the queue calls itself ready and gives nothing.
   */
  lemma BlockedByPrefix(s: RR.State, g: string, q: Path, ack: bool)
    requires RR.WellFormed(s) && s.items != map[] && (forall id :: id in s.items ==> s.items[id].group == g)
    requires [] < q < Split(g) && !RR.UnderLimit(s, q) && RR.UnderLimit(s, Split(g))
    ensures RR.PeekReady(s) && RR.Dequeue(s, ack).0 == None
  {
    hide RR.UnderLimit, Split, RR.Walk, RR.WellFormed, RR.ItemsAt, RR.Dequeue;
    OnlyLeaf(s, g);
    assert RR.IsReadyLeaf(s, Split(g));
    RRP.DequeueIffHasReady(s, ack);
    forall p ensures !RR.Reachable(s, [], p) {
      if RR.Reachable(s, [], p) {
        OnlyAt(s.items, g, p);
        assert false;
      }
    }
  }

  /**
   * A command that reached the log before its queue was created fails the first time. On a replay it
   * finds the queue in the store.
   */
  lemma EarlyCommandReplaysDifferently(default: uint32)
    returns (states: seq<State>, log: seq<Entry>, replay: seq<State>)
    requires default >= 10
    ensures IsRun(default, states, log) && states[0] == EMPTY
    ensures IsTrace(default, replay, log) && replay[0] == State(states[|log|].db, map[])
    ensures replay[|log|] != states[|log|]
  {
    FirstRun(default);
    SecondRun(default);
    states := [EMPTY, EMPTY, Empty(default)];
    log := EarlyLog(default);
    replay := [State(Empty(default).db, map[]), Resurrected(default), Resurrected(default)];
    assert "q" in Resurrected(default).db.msgs && "q" !in Empty(default).db.msgs;
  }

  /** A message is looked up before it is enqueued: not found the first time, found on the replay. */
  lemma LookupReplaysDifferently(default: uint32)
    returns (states: seq<State>, log: seq<Entry>, replay: seq<State>)
    requires default >= 10
    ensures |states| == |log| + 1 && IsReplay(default, states, log, replay, states[|log|].db) && |log| == 3
    ensures NoneEarly(states, log, states[|log|].db, |log|) && !Agrees(default, states, log, replay, 1)
  {
    hide Apply, MemoryOk, Legal;
    states := [EMPTY, Empty(default), Empty(default), Resurrected(default)];
    log := LookupLog(default);
    var last := Resurrected(default).db;
    replay := [State(last, map[]), Reloaded(default), Reloaded(default), Resurrected(default)];
    CreateIt(default);
    LookItUp(default);
    EnqueueIt(default);
    LegalToo(default);
    assert IsRun(default, states, log);
    assert IsTrace(default, replay, log);
    assert 7 in last.msgs["q"];
    forall i | 0 <= i < 3 ensures !EarlyAt(states, log, last, i) {
      if i > 0 { SeenInTheEnd(states, i); }
    }
  }

  lemma LegalToo(default: uint32)
    ensures Legal(EMPTY, LookupLog(default)[0]) && Legal(Empty(default), LookupLog(default)[1])
  {
  }
}
