/** The named queues over one store, and the state machine that the log and snapshots drive. */
module Manager {
  import opened Types
  import F = Fsm
  import MF = MemoryFacts
  import Q = QueueSpec
  import Qu = Queue
  import Sch = Scheduling
  import Sn = Snapshot
  import St = Store

  class QueueManager {
    const store: St.BadgerStore
    const default: uint32
    var queues: map<string, Qu.Queue>
    ghost var objects: set<object>

    ghost predicate Has(name: string)
      requires name in queues
      reads this, objects
    {
      var q := queues[name];
      q in objects && q.Repr <= objects && q.Intact() && q.store == store && q.name == name
    }

    /** Every queue is in order, and no two share an object. */
    ghost predicate Valid()
      reads this, objects, store
    {
      && store.Valid() && store !in objects && this !in objects
      && (forall name :: name in queues ==> Has(name))
      && (forall m, n :: m in queues && n in queues && m != n ==> queues[m].Repr !! queues[n].Repr)
    }

    ghost function Abs(): F.State
      requires Valid()
      reads this, objects, store
    {
      F.State(store.Db(), map name | name in queues :: assert Has(name); queues[name].InMemory())
    }

    constructor (store: St.BadgerStore, default: uint32)
      requires store.Valid()
      ensures this.store == store && this.default == default && objects == {}
      ensures Valid() && Abs() == F.State(store.Db(), map[])
    {
      this.store, this.default, queues, objects := store, default, map[], {};
    }

    lemma Names()
      requires Valid()
      ensures forall name :: name in queues <==> name in Abs().queues
    {
    }

    /** A queue as the log sees it. */
    lemma QueueIs(name: string)
      requires Valid() && name in queues
      ensures queues[name].Valid() && queues[name].store == store && queues[name].name == name
      ensures queues[name] in objects && queues[name].Repr <= objects
      ensures name in Abs().queues && queues[name].Abs() == F.QueueOf(Abs(), name)
    {
      assert Has(name);
    }

    /** Adds a queue of fresh objects. */
    method Install(name: string, q: Qu.Queue)
      requires Valid() && name !in queues && q.Valid() && q.store == store && q.name == name
      requires q.Repr !! objects && this !in q.Repr
      modifies `queues, `objects
      ensures objects == old(objects) + q.Repr && queues == old(queues)[name := q]
      ensures Valid() && Abs() == old(Abs()).(queues := old(Abs()).queues[name := q.InMemory()])
    {
      hide Qu.Queue.Intact, Qu.Queue.InMemory, St.BadgerStore.Valid, St.BadgerStore.Db;
      queues := queues[name := q];
      objects := objects + q.Repr;
      forall n | n in queues ensures Has(n) {
        assert n != name ==> old(Has(n));
      }
    }

    /** `GetQueue`. */
    method GetQueue(name: string) returns (found: bool)
      requires Valid()
      modifies `queues, `objects
      ensures fresh(objects - old(objects)) && old(objects) <= objects
      ensures Valid() && found == F.Load(old(Abs()), name).Some? && found == (name in queues)
      ensures Abs() == if found then F.Load(old(Abs()), name).value else old(Abs())
    {
      hide Qu.Queue.Intact, Qu.Queue.InMemory, St.BadgerStore.Valid, Q.NewMemory;
      if name in queues {
        return true;
      }
      var config := store.LoadQueue(name);
      if config == None {
        return false;
      }
      var q := Qu.Queue.Init(store, name, config.value);
      Install(name, q);
      found := true;
    }

    /** One command on a queue; the other queues do not notice. */
    method RunOn(name: string, e: F.Entry) returns (r: F.Response)
      requires Valid() && name in queues && F.OnMessages(e.cmd) && Qu.Sound(F.QueueOf(Abs(), name))
      requires e.cmd.Enqueue? ==> MF.Enqueueable(F.QueueOf(Abs(), name), e.cmd.id, e.cmd.group)
      modifies `objects, objects, store
      ensures fresh(objects - old(objects)) && old(objects) <= objects && queues == old(queues)
      ensures Valid() && Q.MemoryOk(F.QueueOf(old(Abs()), name).ready)
      ensures var (q, r') := F.OnQueue(F.QueueOf(old(Abs()), name), e);
        r == r' && Abs() == F.With(old(Abs()), name, q)
    {
      hide Qu.Queue.Intact, Qu.Queue.InMemory, St.BadgerStore.Valid, Q.MemoryOk, F.OnQueue, F.WithMsgs, Qu.Sound;
      hide MF.Enqueueable;
      QueueIs(name);
      var q := queues[name];
      r := q.Run(e);
      objects := objects + q.Repr;
      OthersKept(name);
      QueueIs(name);
    }

    /** After one queue changed, and nothing else but its share of the store. */
    twostate lemma OthersKept(name: string)
      requires old(Valid()) && queues == old(queues) && name in queues
      requires store.Valid() && queues[name].Intact() && fresh(queues[name].Repr - old(queues[name].Repr))
      requires objects == old(objects) + queues[name].Repr
      requires forall n :: n in queues && n != name ==> queues[n].Repr == old(queues[n].Repr)
      requires forall n :: n in queues && n != name ==> queues[n].Intact() && queues[n].InMemory() == old(queues[n].InMemory())
      ensures Valid() && Abs().queues == old(Abs()).queues[name := queues[name].InMemory()]
    {
      hide Qu.Queue.Intact, Qu.Queue.InMemory, St.BadgerStore.Valid, St.BadgerStore.Db;
      assert old(Has(name));
      forall n | n in queues ensures Has(n) {
        assert old(Has(n));
      }
    }

    /** The queues that are left did not change. */
    twostate lemma QueuesKept(gone: set<string>)
      requires old(Valid()) && store.Valid() && queues == old(queues) - gone && objects == old(objects)
      requires forall n :: n in queues ==> queues[n].Repr == old(queues[n].Repr)
      requires forall n :: n in queues ==> queues[n].Intact() && queues[n].InMemory() == old(queues[n].InMemory())
      ensures Valid() && Abs().queues == old(Abs()).queues - gone
    {
      hide Qu.Queue.Intact, Qu.Queue.InMemory, St.BadgerStore.Valid, St.BadgerStore.Db;
      forall n | n in queues ensures Has(n) {
        assert old(Has(n));
      }
    }

    lemma AllHave()
      requires Valid()
      ensures forall n :: n in queues ==> queues[n] in objects && queues[n].Repr <= objects && queues[n].Intact()
    {
      hide Qu.Queue.Intact;
      forall n | n in queues ensures queues[n] in objects && queues[n].Repr <= objects && queues[n].Intact() {
        assert Has(n);
      }
    }

    /** A store write between two steps leaves the queues alone. */
    method SaveConfig(name: string, config: Config)
      requires Valid()
      modifies store
      ensures Valid() && Abs() == old(Abs()).(db := old(Abs()).db.(configs := old(Abs()).db.configs[name := config]))
    {
      hide Qu.Queue.Intact, Qu.Queue.InMemory, St.BadgerStore.Valid;
      AllHave();
      store.SetQueue(name, config);
      QueuesKept({});
    }

    method CreateQueue(name: string, kind: QueueType, settings: Settings) returns (r: Result<()>)
      requires Valid()
      modifies `queues, `objects, store
      ensures fresh(objects - old(objects)) && old(objects) <= objects
      ensures Valid() && (Abs(), r) == F.Created(default, old(Abs()), name, kind, settings)
    {
      hide Qu.Queue.Intact, Qu.Queue.InMemory, St.BadgerStore.Valid, Q.NewMemory, F.Validated;
      if name in queues {
        return Ok(());
      }
      var valid := F.Validated(default, kind, settings);
      if valid.Err? {
        return Err(valid.error);
      }
      var config := Config(kind, valid.value);
      SaveConfig(name, config);
      NewQueue(name, config);
      r := Ok(());
    }

    /** A queue without messages in memory. */
    method NewQueue(name: string, config: Config)
      requires Valid() && name !in queues
      modifies `queues, `objects
      ensures fresh(objects - old(objects)) && old(objects) <= objects && name in queues
      ensures Valid() && Abs() == old(Abs()).(queues := old(Abs()).queues[name :=
        F.Loaded(config, Q.NewMemory(config), map[])])
    {
      hide Qu.Queue.Intact, Qu.Queue.InMemory, St.BadgerStore.Valid, Q.NewMemory;
      var q := Qu.Queue.Init(store, name, config);
      InMemoryIs(q);
      Install(name, q);
    }

    lemma InMemoryIs(q: Qu.Queue)
      requires q.Valid()
      ensures q.InMemory() == F.Loaded(q.Abs().config, q.Abs().ready, q.Abs().ack)
    {
    }

    /** New settings for a loaded queue. */
    method Reconfigure(name: string, settings: Settings) returns (r: F.Response)
      requires Valid() && name in queues
      modifies `objects, objects, store
      ensures fresh(objects - old(objects)) && old(objects) <= objects && queues == old(queues)
      ensures Valid() && (Abs(), r) == F.Updated(default, old(Abs()), name, settings)
    {
      hide Qu.Queue.Intact, Qu.Queue.InMemory, St.BadgerStore.Valid, F.WithTimeout, Q.MemoryUpdateMaxUnacked;
      QueueIs(name);
      var q := queues[name];
      InMemoryIs(q);
      q.ConfigOf();
      var x := q.UpdateQueue(default, settings);
      objects := objects + q.Repr;
      OthersKept(name);
      r := F.Outcome(x);
      if x.Err? {
        Unchanged(name);
      }
    }

    twostate lemma Unchanged(name: string)
      requires old(Valid()) && Valid() && queues == old(queues) && name in queues && Has(name) && old(Has(name))
      requires store.Db() == old(store.Db()) && queues[name].InMemory() == old(queues[name].InMemory())
      requires Abs().queues == old(Abs()).queues[name := queues[name].InMemory()]
      ensures Abs() == old(Abs())
    {
    }

    /** A queue as stored, with new settings, not yet among the queues. */
    method Loaded(name: string, config: Config, settings: Settings) returns (q: Qu.Queue, x: Result<()>)
      requires Valid()
      modifies store
      ensures fresh(q.Repr) && q.Valid() && q.store == store && q.name == name
      ensures Valid() && Abs().queues == old(Abs()).queues
      ensures
        if config.settings.strategy != settings.strategy then
          x == Err(InvalidQueueSettings) && store.Db() == old(store.Db())
        else match F.WithTimeout(default, settings)
          case Err(e) => x == Err(e) && store.Db() == old(store.Db())
          case Ok(settings) =>
            var config' := config.(settings := settings);
            && x == Ok(())
            && store.Db() == old(store.Db()).(configs := old(store.Db()).configs[name := config'])
            && q.InMemory() == F.Loaded(
                 config', Q.MemoryUpdateMaxUnacked(Q.NewMemory(config), settings.maxUnacked), map[])
    {
      hide Qu.Queue.Intact, Qu.Queue.InMemory, St.BadgerStore.Valid, F.WithTimeout, Q.MemoryUpdateMaxUnacked;
      hide Q.NewMemory;
      AllHave();
      q := Qu.Queue.Init(store, name, config);
      InMemoryIs(q);
      q.ConfigOf();
      x := q.UpdateQueue(default, settings);
      QueuesKept({});
    }

    /** New settings for a queue that is only in the store. */
    method LoadAndReconfigure(name: string, settings: Settings) returns (r: F.Response)
      requires Valid() && name !in queues
      modifies `queues, `objects, store
      ensures fresh(objects - old(objects)) && old(objects) <= objects
      ensures Valid() && (Abs(), r) == F.Updated(default, old(Abs()), name, settings)
    {
      hide Qu.Queue.Intact, Qu.Queue.InMemory, St.BadgerStore.Valid, F.WithTimeout, Q.MemoryUpdateMaxUnacked;
      hide Q.NewMemory;
      var config := store.LoadQueue(name);
      if config == None {
        return F.Crashed;
      }
      var q, x := Loaded(name, config.value, settings);
      if x.Err? {
        return F.Failed(x.error);
      }
      Overwritten(old(Abs()).queues, name, F.Loaded(config.value, Q.NewMemory(config.value), map[]), q.InMemory());
      Install(name, q);
      r := F.Done;
    }

    method UpdateQueue(name: string, settings: Settings) returns (r: F.Response)
      requires Valid()
      modifies `queues, `objects, objects, store
      ensures fresh(objects - old(objects)) && old(objects) <= objects
      ensures Valid() && (Abs(), r) == F.Updated(default, old(Abs()), name, settings)
    {
      hide QueueManager.Valid, QueueManager.Abs, F.Updated;
      if name in queues {
        r := Reconfigure(name, settings);
      } else {
        r := LoadAndReconfigure(name, settings);
      }
    }

    method DeleteQueue(name: string) returns (r: F.Response)
      requires Valid()
      modifies `queues, store
      ensures Valid() && (Abs(), r) == F.Dropped(old(Abs()), name)
    {
      hide Qu.Queue.Intact, Qu.Queue.InMemory, St.BadgerStore.Valid;
      AllHave();
      if name !in queues {
        var config := store.LoadQueue(name);
        if config == None {
          return F.Failed(QueueNotFound);
        }
      }
      store.DeleteQueue(name);
      queues := queues - {name};
      QueuesKept({name});
      r := F.Done;
    }

    /** Forgets every queue and message. */
    method Reset()
      requires Valid()
      modifies `queues, store
      ensures Valid() && Abs() == F.EMPTY
    {
      queues := map[];
      store.DeleteAll();
    }

    // ---------- Reading a snapshot ----------

    /** Restores a message into a queue, in flight if it is marked so. */
    method RestoreMessage(name: string, unacked: map<nat, int>, id: nat, msg: Message)
      requires Valid() && name in queues
      requires id !in unacked ==> MF.Enqueueable(F.QueueOf(Abs(), name), id, msg.group)
      modifies `objects, objects, store
      ensures fresh(objects - old(objects)) && old(objects) <= objects && queues == old(queues)
      ensures Valid() && Q.MemoryOk(F.QueueOf(old(Abs()), name).ready)
      ensures Abs() == F.With(old(Abs()), name, Sn.RestoreMessage(F.QueueOf(old(Abs()), name), unacked, id, msg))
    {
      hide Qu.Queue.Intact, Qu.Queue.InMemory, St.BadgerStore.Valid, Q.MemoryOk, F.WithMsgs, Q.RestoreUnacked;
      hide Q.EnqueueRestored;
      hide MF.Enqueueable;
      QueueIs(name);
      var q := queues[name];
      q.Unwritten();
      if id in unacked {
        q.RestoreUnacked(id, msg, unacked[id]);
      } else {
        q.EnqueueRestored(id, msg);
      }
      objects := objects + q.Repr;
      OthersKept(name);
      QueueIs(name);
    }

    method RestoreSchedule(name: string, sched: seq<Sch.SchedulingNode>)
      requires Valid() && name in queues
      modifies `objects, objects
      ensures fresh(objects - old(objects)) && old(objects) <= objects && queues == old(queues)
      ensures var q := F.QueueOf(old(Abs()), name);
        Valid() && Abs() == F.With(old(Abs()), name, q.(ready := Sn.RestoreSchedule(q.ready, sched)))
    {
      hide Qu.Queue.Intact, Qu.Queue.InMemory, St.BadgerStore.Valid, F.WithMsgs, Sn.RestoreSchedule;
      QueueIs(name);
      var q := queues[name];
      q.Unwritten();
      q.RestoreRoundRobinState(sched);
      objects := objects + q.Repr;
      OthersKept(name);
      QueueIs(name);
    }

    method PersistSnapshot() returns (names: seq<string>, items: seq<Sn.SnapshotItem>)
      requires Valid()
      ensures (forall n :: n in names <==> n in Abs().queues)
      ensures (forall i, j :: 0 <= i < j < |names| ==> names[i] != names[j]) && Sn.AreBlocks(Abs(), names, items)
    {
      hide Qu.Queue.Intact, Qu.Queue.InMemory, Qu.Queue.Abs, St.BadgerStore.Valid, Sn.IsBlock, F.QueueOf, Sn.AreBlocks;
      NoBlocks(Abs());
      names, items := [], [];
      var rest := queues.Keys;
      while rest != {}
        invariant rest <= queues.Keys && (forall n :: n in names <==> n in queues && n !in rest)
        invariant (forall i, j :: 0 <= i < j < |names| ==> names[i] != names[j]) && Sn.AreBlocks(Abs(), names, items)
        decreases rest
      {
        var name :| name in rest;
        QueueIs(name);
        var block := queues[name].PersistSnapshot();
        OneBlock(Abs(), names, items, name, block);
        names, items := names + [name], items + block;
        rest := rest - {name};
      }
    }
  }

  lemma Overwritten(m: map<string, F.Loaded>, name: string, a: F.Loaded, b: F.Loaded)
    ensures m[name := a][name := b] == m[name := b]
  {
  }

  lemma NoBlocks(s: F.State)
    ensures Sn.AreBlocks(s, [], [])
  {
  }

  lemma OneBlock(s: F.State, names: seq<string>, items: seq<Sn.SnapshotItem>, name: string, block: seq<Sn.SnapshotItem>)
    requires (forall n :: n in names ==> n in s.queues) && name in s.queues
    requires Sn.AreBlocks(s, names, items) && Sn.IsBlock(name, F.QueueOf(s, name), block)
    ensures Sn.AreBlocks(s, names + [name], items + block)
  {
    hide Sn.IsBlock;
    assert (names + [name])[..|names + [name]| - 1] == names;
  }
}
