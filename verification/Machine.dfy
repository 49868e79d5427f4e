/** The replicated state machine in place: the log applied entry by entry, snapshots written and read. */
module Machine {
  import opened Types
  import F = Fsm
  import FI = FsmInvariant
  import M = Manager
  import MF = MemoryFacts
  import Q = QueueSpec
  import QI = QueueInvariant
  import Qu = Queue
  import Sn = Snapshot

  class FSM {
    const queueManager: M.QueueManager

    ghost predicate Valid()
      reads queueManager, queueManager.objects, queueManager.store
    {
      queueManager.Valid()
    }

    ghost function State(): F.State
      requires Valid()
      reads queueManager, queueManager.objects, queueManager.store
    {
      queueManager.Abs()
    }

    constructor (queueManager: M.QueueManager)
      requires queueManager.Valid()
      ensures this.queueManager == queueManager && Valid() && State() == queueManager.Abs()
    {
      this.queueManager := queueManager;
    }

    /** A command on the messages of one queue. */
    method ApplyOnQueue(e: F.Entry) returns (r: F.Response)
      requires Valid() && F.OnMessages(e.cmd) && FI.FsmInv(queueManager.default, State()) && FI.Legal(State(), e)
      modifies queueManager, queueManager.objects, queueManager.store
      ensures Valid() && fresh(queueManager.objects - old(queueManager.objects)) && F.MemoryOk(old(State()))
      ensures (State(), r) == F.Apply(queueManager.default, old(State()), e)
    {
      hide M.QueueManager.Valid, M.QueueManager.Abs, FI.FsmInv, FI.Legal, F.MemoryOk, F.OnQueue, F.With, Qu.Sound;
      hide MF.Enqueueable;
      ghost var s := State();
      var name := e.cmd.queue;
      FI.InvGivesMemoryOk(queueManager.default, s);
      LoadedOnly(queueManager.default, s, name);
      var found := queueManager.GetQueue(name);
      if !found {
        return F.Failed(QueueNotFound);
      }
      Runnable(queueManager.default, s, e, name);
      r := queueManager.RunOn(name, e);
    }

    method Apply(e: F.Entry) returns (r: F.Response)
      requires Valid() && FI.DefaultOk(queueManager.default)
      requires FI.FsmInv(queueManager.default, State()) && FI.Legal(State(), e)
      modifies queueManager, queueManager.objects, queueManager.store
      ensures Valid() && fresh(queueManager.objects - old(queueManager.objects)) && F.MemoryOk(old(State()))
      ensures (State(), r) == F.Apply(queueManager.default, old(State()), e)
      ensures FI.FsmInv(queueManager.default, State())
    {
      hide M.QueueManager.Valid, M.QueueManager.Abs, FI.FsmInv, FI.Legal, F.MemoryOk, F.OnQueue, F.With, F.Created;
      hide F.Updated, F.Dropped;
      FI.ApplyKeepsInv(queueManager.default, State(), e);
      match e.cmd
      case CreateQueue(name, kind, settings) =>
        var x := queueManager.CreateQueue(name, kind, settings);
        r := F.Outcome(x);
      case UpdateQueue(name, settings) => r := queueManager.UpdateQueue(name, settings);
      case DeleteQueue(name) => r := queueManager.DeleteQueue(name);
      case _ => r := ApplyOnQueue(e);
    }

    /** The snapshot of the current state. */
    method Persist() returns (items: seq<Sn.SnapshotItem>)
      requires Valid()
      ensures Sn.IsSnapshot(State(), items)
    {
      hide M.QueueManager.Valid, M.QueueManager.Abs, Sn.AreBlocks;
      var names, blocks := queueManager.PersistSnapshot();
      items := [Sn.LeaderItem] + blocks;
    }

    /** One item of a snapshot, with the current queue and its unacked markers. */
    method ReadItem(item: Sn.SnapshotItem, current: Option<string>, unacked: Option<map<nat, int>>)
      returns (current': Option<string>, unacked': Option<map<nat, int>>)
      requires Valid() && F.MemoryOk(State()) && Sn.Takes(Sn.Reader(State(), current, unacked), item)
      requires Sn.Read(queueManager.default, Sn.Reader(State(), current, unacked), item).Some?
      modifies queueManager, queueManager.objects, queueManager.store
      ensures Valid() && fresh(queueManager.objects - old(queueManager.objects))
      ensures Sn.Read(queueManager.default, Sn.Reader(old(State()), current, unacked), item)
           == Some(Sn.Reader(State(), current', unacked'))
    {
      hide M.QueueManager.Valid, F.MemoryOk, F.With, F.Created, Sn.RestoreMessage, Sn.RestoreSchedule, MF.Enqueueable;
      hide F.QueueOf;
      current', unacked' := current, unacked;
      queueManager.Names();
      match item
      case LeaderItem =>
      case QueueItem(name, config) =>
        var x := queueManager.CreateQueue(name, config.kind, config.settings);
        current', unacked' := if x.Ok? then Some(name) else None, Some(map[]);
      case UnackedItem(id, deadline) => unacked' := Some(unacked.value[id := deadline]);
      case SchedulingItem(sched) =>
        if current.Some? && current.value in queueManager.queues {
          queueManager.RestoreSchedule(current.value, sched);
        }
      case MessageItem(id, msg) => queueManager.RestoreMessage(current.value, unacked.value, id, msg);
    }

    /**
     * The snapshot replaces whatever state there was. One taken from a consistent state gives that
     * state back, up to weights that the current limits no longer give.
     */
    method Restore(items: seq<Sn.SnapshotItem>)
      requires Valid() && Sn.Restore(queueManager.default, State(), items).Some?
      modifies queueManager, queueManager.objects, queueManager.store
      ensures Valid() && fresh(queueManager.objects - old(queueManager.objects))
      ensures Sn.Restore(queueManager.default, old(State()), items) == Some(State())
      ensures forall s :: FI.DefaultOk(queueManager.default) && FI.FsmInv(queueManager.default, s) && Sn.IsSnapshot(s, items) ==>
        State() == Sn.RenewedState(s)
    {
      hide M.QueueManager.Valid, M.QueueManager.Abs, F.MemoryOk, Sn.Read, Sn.Takes, Sn.ReadAll, Sn.IsSnapshot;
      hide FI.FsmInv, Sn.RenewedState;
      ghost var before := State();
      ghost var default, start := queueManager.default, Sn.Reader(F.EMPTY, None, None);
      NothingLoaded();
      queueManager.Reset();
      var current: Option<string>, unacked: Option<map<nat, int>> := None, None;
      NothingRead(default, start);
      for i := 0 to |items|
        invariant Valid() && fresh(queueManager.objects - old(queueManager.objects))
        invariant Sn.ReadAll(default, start, items[..i]) == Some(Sn.Reader(State(), current, unacked))
      {
        ReadNext(default, start, items, i);
        current, unacked := ReadItem(items[i], current, unacked);
      }
      assert items[..|items|] == items;
      forall s | FI.DefaultOk(default) && FI.FsmInv(default, s) && Sn.IsSnapshot(s, items)
        ensures State() == Sn.RenewedState(s)
      {
        Sn.RestoreGivesRenewed(default, s, before, items);
      }
    }
  }

  /**
   * Two replicas in the same state, whatever the shape of their heaps, trees and counters, answer an
   * entry alike and stay in the same state.
   */
  method ApplyToReplicas(a: FSM, b: FSM, e: F.Entry) returns (r: F.Response, r': F.Response)
    requires a.Valid() && b.Valid() && Apart(a, b) && a.State() == b.State()
    requires a.queueManager.default == b.queueManager.default && FI.DefaultOk(a.queueManager.default)
    requires FI.FsmInv(a.queueManager.default, a.State()) && FI.Legal(a.State(), e)
    modifies a.queueManager, a.queueManager.objects, a.queueManager.store
    modifies b.queueManager, b.queueManager.objects, b.queueManager.store
    ensures a.Valid() && b.Valid() && Apart(a, b) && r == r' && a.State() == b.State()
    ensures FI.FsmInv(a.queueManager.default, a.State())
  {
    hide M.QueueManager.Valid, M.QueueManager.Abs, FI.FsmInv, FI.Legal, F.Apply, F.MemoryOk;
    r := a.Apply(e);
    r' := b.Apply(e);
  }

  /** The replicas share no object. */
  ghost predicate Apart(a: FSM, b: FSM)
    reads a.queueManager, b.queueManager
  {
    && a.queueManager != b.queueManager && a.queueManager.store != b.queueManager.store
    && a.queueManager.objects !! b.queueManager.objects
    && a.queueManager !in b.queueManager.objects && b.queueManager !in a.queueManager.objects
    && a.queueManager.store !in b.queueManager.objects && b.queueManager.store !in a.queueManager.objects
  }

  lemma NothingLoaded()
    ensures F.MemoryOk(F.EMPTY)
  {
  }

  lemma NothingRead(default: uint32, r: Sn.Reader)
    requires F.MemoryOk(r.s)
    ensures Sn.ReadAll(default, r, []) == Some(r)
  {
  }

  lemma {:induction false} ReadPrefix(default: uint32, r: Sn.Reader, items: seq<Sn.SnapshotItem>, i: nat)
    requires F.MemoryOk(r.s) && Sn.ReadAll(default, r, items).Some? && i <= |items|
    ensures Sn.ReadAll(default, r, items[..i]).Some?
    decreases |items|
  {
    hide F.MemoryOk, Sn.Read, Sn.Takes;
    if i == |items| {
      assert items[..i] == items;
    } else {
      assert items[..|items| - 1][..i] == items[..i];
      ReadPrefix(default, r, items[..|items| - 1], i);
    }
  }

  /** If the whole snapshot can be read, so can the next item. */
  lemma ReadNext(default: uint32, r: Sn.Reader, items: seq<Sn.SnapshotItem>, i: nat)
    requires F.MemoryOk(r.s) && Sn.ReadAll(default, r, items).Some? && i < |items|
    ensures var r' := Sn.ReadAll(default, r, items[..i]);
      && r'.Some? && F.MemoryOk(r'.value.s) && Sn.Takes(r'.value, items[i])
      && Sn.Read(default, r'.value, items[i]).Some?
      && Sn.Read(default, r'.value, items[i]) == Sn.ReadAll(default, r, items[..i + 1])
  {
    hide F.MemoryOk, Sn.Read, Sn.Takes;
    ReadPrefix(default, r, items, i + 1);
    assert items[..i + 1][..i] == items[..i] && items[..i + 1][i] == items[i];
  }

  /** In a consistent state every stored queue is loaded already. */
  lemma LoadedOnly(default: uint32, s: F.State, name: string)
    requires FI.FsmInv(default, s)
    ensures F.Load(s, name) == if name in s.queues then Some(s) else None
  {
    hide FI.QueueOk;
    assert name in s.db.configs <==> name in s.db.configs.Keys;
  }

  lemma Runnable(default: uint32, s: F.State, e: F.Entry, name: string)
    requires FI.FsmInv(default, s) && FI.Legal(s, e) && F.OnMessages(e.cmd) && name == e.cmd.queue && name in s.queues
    ensures Qu.Sound(F.QueueOf(s, name))
    ensures e.cmd.Enqueue? ==> MF.Enqueueable(F.QueueOf(s, name), e.cmd.id, e.cmd.group)
  {
    hide Q.MemoryOk, Qu.Sound, QI.Inv;
    assert FI.QueueOk(default, s, name);
    Qu.InvIsSound(F.QueueOf(s, name));
    if e.cmd.Enqueue? {
      NewMessage(F.QueueOf(s, name), e.cmd.id, e.cmd.group);
    }
  }

  lemma NewMessage(q: Q.Queue, id: nat, group: string)
    requires QI.Inv(q) && id !in q.msgs && (q.config.kind == Fair ==> MF.Accepts(q.ready, group))
    ensures MF.Enqueueable(q, id, group)
  {
    hide Q.MemoryOk;
  }
}
