/** The invariant of the state machine and its preservation over whole runs of the log. */
module FsmInvariant {
  import opened Types
  import opened Fsm
  import Q = QueueSpec
  import MF = MemoryFacts
  import opened QueueInvariant
  import opened QueueSteps
  import opened Changes

  /** Default ack timeouts for which every stored configuration can be created again. */
  predicate DefaultOk(default: uint32) {
    default == 0 || default >= 10
  }

  /** `CreateQueue` accepts the configuration as it stands, which restoring a snapshot relies on. */
  predicate Restorable(default: uint32, c: Config) {
    Validated(default, c.kind, c.settings) == Ok(c.settings)
  }

  ghost predicate QueueOk(default: uint32, s: State, name: string)
    requires name in s.queues
  {
    && name in s.db.configs && s.queues[name].config == s.db.configs[name]
    && Restorable(default, s.queues[name].config) && Inv(QueueOf(s, name))
  }

  ghost predicate FsmInv(default: uint32, s: State) {
    && s.queues.Keys == s.db.configs.Keys
    && (forall name :: name in s.db.msgs ==> name in s.queues && s.db.msgs[name] != map[])
    && (forall name :: name in s.queues ==> QueueOk(default, s, name))
  }

  ghost predicate Fresh(s: State) {
    forall name :: name in s.queues ==> MF.WeightsFresh(s.queues[name].ready)
  }

  /**
   * Log entries the state machine is built for. Message ids given to Enqueue are not stored already
   * and groups are acceptable to the queue; UpdateQueue names an existing queue and keeps to settings
   * that CreateQueue would accept for its type.
   */
  ghost predicate Legal(s: State, e: Entry) {
    match e.cmd
    case Enqueue(name, id, group, _, _, _) =>
      name in s.queues ==>
        id !in MsgsOf(s.db, name)
        && (s.queues[name].config.kind == Fair ==> MF.Accepts(s.queues[name].ready, group))
    case UpdateQueue(name, settings) =>
      name in s.queues && (s.queues[name].config.kind == Delayed ==> settings.maxUnacked == 0)
    case _ => true
  }

  /** The entry does not change the unacked limit of a weighted queue. */
  ghost predicate KeepsLimit(s: State, e: Entry) {
    e.cmd.UpdateQueue? && e.cmd.queue in s.queues && s.queues[e.cmd.queue].ready.WeightedMemory? ==>
      Limit(e.cmd.settings.maxUnacked) == s.queues[e.cmd.queue].ready.wq.limit
  }

  lemma InvGivesMemoryOk(default: uint32, s: State)
    requires FsmInv(default, s)
    ensures MemoryOk(s)
  {
    forall name | name in s.queues ensures Q.MemoryOk(s.queues[name].ready) {
      assert QueueOk(default, s, name);
    }
  }

  // ---------- One entry ----------

  lemma WithQueue(s: State, name: string, q: Q.Queue)
    ensures QueueOf(With(s, name, q), name) == q
    ensures forall n :: n in s.queues && n != name ==> QueueOf(With(s, name, q), n) == QueueOf(s, n)
  {
  }

  lemma WithInv(default: uint32, s: State, name: string, q: Q.Queue)
    requires FsmInv(default, s) && name in s.queues && q.config == s.queues[name].config && Inv(q)
    ensures FsmInv(default, With(s, name, q))
  {
    hide Inv;
    WithQueue(s, name, q);
    var s' := With(s, name, q);
    forall n | n in s'.queues ensures QueueOk(default, s', n) {
      assert QueueOk(default, s, n);
    }
  }

  /** A command on messages keeps the queue's invariant and configuration. */
  lemma OnQueueInv(q: Q.Queue, e: Entry)
    requires Inv(q) && Enabled(q, e)
    ensures Inv(OnQueue(q, e).0) && OnQueue(q, e).0.config == q.config
    ensures MF.WeightsFresh(q.ready) ==> MF.WeightsFresh(OnQueue(q, e).0.ready)
    ensures MF.WeightsGated(q.ready) ==> MF.WeightsGated(OnQueue(q, e).0.ready)
    ensures OnQueue(q, e).1 != Crashed
  {
    hide Inv, MF.WeightsFresh, MF.WeightsGated, OnQueue, After, ChangeOf;
    CommandIsChange(q, e);
  }

  lemma CreatedInv(default: uint32, s: State, name: string, kind: QueueType, settings: Settings)
    requires DefaultOk(default) && FsmInv(default, s)
    ensures FsmInv(default, Created(default, s, name, kind, settings).0)
    ensures Fresh(s) ==> Fresh(Created(default, s, name, kind, settings).0)
  {
    hide Inv, MF.WeightsFresh, Q.NewMemory;
    var (s', r) := Created(default, s, name, kind, settings);
    if name !in s.queues && r.Ok? {
      var config := s'.queues[name].config;
      NewQueueInv(config);
      assert QueueOf(s', name) == Q.Queue(config, map[], Q.NewMemory(config), map[]);
      forall n | n in s'.queues ensures QueueOk(default, s', n) {
        if n != name {
          assert QueueOk(default, s, n);
          assert QueueOf(s', n) == QueueOf(s, n);
        }
      }
    }
  }

  lemma UpdatedQueueInv(q: Q.Queue, settings: Settings)
    requires Inv(q) && settings.strategy == q.config.settings.strategy
    ensures Inv(q.(config := q.config.(settings := settings),
                   ready := Q.MemoryUpdateMaxUnacked(q.ready, settings.maxUnacked)))
  {
    MF.UpdateMaxUnackedFacts(q.ready, settings.maxUnacked);
  }

  lemma UpdatedInv(default: uint32, s: State, name: string, settings: Settings)
    requires DefaultOk(default) && FsmInv(default, s) && Legal(s, Entry(0, 0, UpdateQueue(name, settings)))
    ensures FsmInv(default, Updated(default, s, name, settings).0)
    ensures Updated(default, s, name, settings).1 != Crashed
    ensures Fresh(s) && KeepsLimit(s, Entry(0, 0, UpdateQueue(name, settings))) ==>
              Fresh(Updated(default, s, name, settings).0)
  {
    hide Inv, Q.NewMemory;
    var (s', r) := Updated(default, s, name, settings);
    if r == Done {
      assert QueueOk(default, s, name);
      var config := s'.queues[name].config;
      UpdatedQueueInv(QueueOf(s, name), config.settings);
      forall n | n in s'.queues ensures QueueOk(default, s', n) {
        assert QueueOk(default, s, n);
        if n != name { assert QueueOf(s', n) == QueueOf(s, n); }
      }
    }
  }

  lemma DroppedInv(default: uint32, s: State, name: string)
    requires FsmInv(default, s)
    ensures FsmInv(default, Dropped(s, name).0) && Dropped(s, name).1 != Crashed
    ensures Fresh(s) ==> Fresh(Dropped(s, name).0)
  {
    hide Inv, Restorable, MF.WeightsFresh;
    var s' := Dropped(s, name).0;
    forall n | n in s'.queues ensures QueueOk(default, s', n) {
      assert QueueOk(default, s, n);
      assert QueueOf(s', n) == QueueOf(s, n);
    }
  }

  /** A command on messages, applied. */
  lemma ApplyOnQueue(default: uint32, s: State, e: Entry)
    requires FsmInv(default, s) && MemoryOk(s) && Legal(s, e) && OnMessages(e.cmd) && e.cmd.queue in s.queues
    ensures Inv(QueueOf(s, e.cmd.queue)) && Enabled(QueueOf(s, e.cmd.queue), e)
    ensures Apply(default, s, e)
         == (With(s, e.cmd.queue, OnQueue(QueueOf(s, e.cmd.queue), e).0), OnQueue(QueueOf(s, e.cmd.queue), e).1)
  {
    hide Inv, OnQueue, MF.Accepts, MemoryOk;
    assert QueueOk(default, s, e.cmd.queue);
  }

  lemma ApplyNoQueue(default: uint32, s: State, e: Entry)
    requires FsmInv(default, s) && MemoryOk(s) && OnMessages(e.cmd) && e.cmd.queue !in s.queues
    ensures Apply(default, s, e) == (s, Failed(QueueNotFound))
  {
    hide OnQueue, QueueOk, MemoryOk;
  }

  lemma WithFresh(s: State, name: string, q: Q.Queue)
    requires name in s.queues && (MF.WeightsFresh(s.queues[name].ready) ==> MF.WeightsFresh(q.ready))
    ensures Fresh(s) ==> Fresh(With(s, name, q))
  {
    hide MF.WeightsFresh;
  }

  /** Applying one legal entry keeps the invariant, and never crashes. */
  lemma ApplyKeepsInv(default: uint32, s: State, e: Entry)
    requires DefaultOk(default) && FsmInv(default, s) && Legal(s, e)
    ensures MemoryOk(s)
    ensures FsmInv(default, Apply(default, s, e).0) && Apply(default, s, e).1 != Crashed
    ensures Fresh(s) && KeepsLimit(s, e) ==> Fresh(Apply(default, s, e).0)
  {
    hide Inv, FsmInv, OnQueue, Fresh, Created, Updated, Dropped, MemoryOk, With;
    InvGivesMemoryOk(default, s);
    match e.cmd
    case CreateQueue(name, kind, settings) => CreatedInv(default, s, name, kind, settings);
    case UpdateQueue(name, settings) => UpdatedInv(default, s, name, settings);
    case DeleteQueue(name) => DroppedInv(default, s, name);
    case _ =>
      if e.cmd.queue in s.queues {
        ApplyOnQueue(default, s, e);
        var q := QueueOf(s, e.cmd.queue);
        OnQueueInv(q, e);
        WithInv(default, s, e.cmd.queue, OnQueue(q, e).0);
        WithFresh(s, e.cmd.queue, OnQueue(q, e).0);
      } else {
        ApplyNoQueue(default, s, e);
      }
  }

  // ---------- Runs ----------

  /** `states[i]` is the state in which `log[i]` is applied. */
  ghost predicate IsRun(default: uint32, states: seq<State>, log: seq<Entry>) {
    && |states| == |log| + 1
    && forall i :: 0 <= i < |log| ==>
         && MemoryOk(states[i]) && Legal(states[i], log[i])
         && states[i + 1] == Apply(default, states[i], log[i]).0
  }

  lemma {:induction false} RunKeepsInv(default: uint32, states: seq<State>, log: seq<Entry>, n: nat)
    requires DefaultOk(default) && IsRun(default, states, log) && FsmInv(default, states[0]) && n <= |log|
    ensures FsmInv(default, states[n])
    ensures Fresh(states[0]) && (forall i :: 0 <= i < n ==> KeepsLimit(states[i], log[i])) ==> Fresh(states[n])
    decreases n
  {
    hide FsmInv, Apply, Legal, Fresh, KeepsLimit, MemoryOk;
    if n > 0 {
      RunKeepsInv(default, states, log, n - 1);
      ApplyKeepsInv(default, states[n - 1], log[n - 1]);
    }
  }

  lemma EmptyInv(default: uint32)
    ensures FsmInv(default, EMPTY) && Fresh(EMPTY)
  {
  }

  /**
   * In every reachable state, for every queue: ready and in-flight messages partition the stored ones
   * and mirror them, and each group's unacked counter is its number of messages in flight.
   */
  lemma ReachableStatesConsistent(default: uint32, states: seq<State>, log: seq<Entry>, n: nat, name: string)
    requires DefaultOk(default) && IsRun(default, states, log) && states[0] == EMPTY
    requires n <= |log| && name in states[n].queues
    ensures var v := ViewOf(QueueOf(states[n], name)); Partition(v) && Mirror(v) && Slots(v)
  {
    hide Q.MemoryOk, MF.SameKind, AllAccepted, Partition, Mirror, Slots, ViewOf, Apply, Legal;
    EmptyInv(default);
    RunKeepsInv(default, states, log, n);
    assert QueueOk(default, states[n], name);
  }
}
