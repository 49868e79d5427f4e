/**
 * What the commands on queues do: exactly which settings are accepted, what of them is stored and in
 * memory afterwards, and that no other queue notices.
 */
module Configurations {
  import opened Types
  import opened Fsm
  import opened FsmInvariant
  import opened QueueInvariant
  import opened Changes
  import Q = QueueSpec
  import Rd = Readiness

  /** What a queue's configuration is, given settings and the default timeout. */
  ghost predicate Configured(config: Config, kind: QueueType, settings: Settings, default: uint32) {
    && config.kind == kind && config.settings.strategy == settings.strategy
    && config.settings.maxUnacked == settings.maxUnacked && config.settings.deliveryLimit == settings.deliveryLimit
    && config.settings.ackTimeout == if settings.ackTimeout == 0 then default else settings.ackTimeout
  }

  predicate TimeoutOk(settings: Settings) {
    settings.ackTimeout == 0 || settings.ackTimeout >= 10
  }

  /** The ready queue is of the kind that kind and strategy ask for, with this limit per group; zero is none. */
  ghost predicate LimitedTo(m: Q.Memory, kind: QueueType, strategy: Strategy, maxUnacked: nat) {
    match m
    case DelayedMemory(_) => kind == Delayed
    case WeightedMemory(s) =>
      kind == Fair && strategy == Weighted && s.limit == if maxUnacked == 0 then MAX_INT64 else maxUnacked
    case RoundRobinMemory(s) =>
      kind == Fair && strategy != Weighted && s.limit == if maxUnacked == 0 then MAX_INT64 else maxUnacked
  }

  /** The other queues do not notice, neither in store nor in memory. */
  ghost predicate OthersStay(s: State, s': State, name: string) {
    && (forall n :: n != name ==> (n in s'.queues <==> n in s.queues) && (n in s'.db.configs <==> n in s.db.configs))
    && (forall n :: n != name && n in s.queues ==> QueueOf(s', n) == QueueOf(s, n))
    && (forall n :: n != name && n in s.db.configs ==> s'.db.configs[n] == s.db.configs[n])
  }

  /**
   * An existing queue is left alone. A new one is accepted exactly if a delayed queue has neither
   * strategy nor limit, a fair one has a strategy, and the timeout is zero or at least ten. It is stored
   * and in memory as asked, and empty.
   */
  lemma CreateQueueEffect(default: uint32, s: State, e: Entry)
    requires FsmInv(default, s) && MemoryOk(s) && e.cmd.CreateQueue?
    ensures var (s', r) := Apply(default, s, e);
      var (name, kind, settings) := (e.cmd.queue, e.cmd.kind, e.cmd.settings);
      if name in s.queues then s' == s && r == Done
      else
        var fits := if kind == Delayed then settings.strategy == Unspecified && settings.maxUnacked == 0
                    else settings.strategy != Unspecified;
        && (r == Done <==> fits && TimeoutOk(settings))
        && (r != Done ==> s' == s && r == Failed(
              if kind == Delayed && settings.strategy != Unspecified then InvalidStrategy
              else if kind == Delayed && settings.maxUnacked != 0 then InvalidMaxUnacked
              else if kind == Fair && settings.strategy == Unspecified then InvalidStrategy
              else InvalidAckTimeout))
        && (r == Done ==>
              && name in s'.queues && name in s'.db.configs && s'.db.configs[name] == s'.queues[name].config
              && Configured(s'.queues[name].config, kind, settings, default)
              && LimitedTo(s'.queues[name].ready, kind, settings.strategy, settings.maxUnacked)
              && MsgsOf(s'.db, name) == map[] && s'.queues[name].ack == map[]
              && Q.Items(s'.queues[name].ready) == map[] && Q.Unacked(s'.queues[name].ready) == multiset{}
              && OthersStay(s, s', name))
  {
    hide QueueOk, MemoryOk, Q.NewMemory, Q.Items, Q.Unacked, LimitedTo, OthersStay;
    var (name, kind) := (e.cmd.queue, e.cmd.kind);
    if name !in s.queues {
      assert name !in s.db.msgs && name !in s.db.configs;
      match Validated(default, kind, e.cmd.settings)
      case Err(_) =>
      case Ok(settings) =>
        NewIsEmpty(Config(kind, settings));
        OthersStayCreated(s, name, Config(kind, settings));
    }
  }

  lemma NewIsEmpty(config: Config)
    requires config.kind == Fair ==> config.settings.strategy != Unspecified
    ensures var m := Q.NewMemory(config);
      && LimitedTo(m, config.kind, config.settings.strategy, config.settings.maxUnacked)
      && Q.Items(m) == map[] && Q.Unacked(m) == multiset{}
  {
  }

  lemma OthersStayCreated(s: State, name: string, config: Config)
    ensures var q := Loaded(config, Q.NewMemory(config), map[]);
      OthersStay(s, State(s.db.(configs := s.db.configs[name := config]), s.queues[name := q]), name)
  {
    hide Q.NewMemory;
  }

  /**
   * New settings are accepted exactly if they keep the strategy and the timeout is zero or at least ten.
   * Then all of them are stored and in memory; kind, messages, deadlines and counters stay.
   */
  lemma UpdateQueueEffect(default: uint32, s: State, e: Entry)
    requires FsmInv(default, s) && MemoryOk(s) && e.cmd.UpdateQueue? && e.cmd.queue in s.queues
    ensures var (s', r) := Apply(default, s, e); var (name, settings) := (e.cmd.queue, e.cmd.settings);
      var old' := s.queues[name];
      && (r == Done <==> settings.strategy == old'.config.settings.strategy && TimeoutOk(settings))
      && (r != Done ==> s' == s && r == Failed(
            if settings.strategy != old'.config.settings.strategy then InvalidQueueSettings else InvalidAckTimeout))
      && (r == Done ==>
            && name in s'.queues && name in s'.db.configs && s'.db.configs[name] == s'.queues[name].config
            && Configured(s'.queues[name].config, old'.config.kind, settings, default)
            && LimitedTo(s'.queues[name].ready, old'.config.kind, settings.strategy, settings.maxUnacked)
            && MsgsOf(s'.db, name) == MsgsOf(s.db, name) && s'.queues[name].ack == old'.ack
            && Q.Items(s'.queues[name].ready) == Q.Items(old'.ready)
            && Q.Unacked(s'.queues[name].ready) == Q.Unacked(old'.ready)
            && OthersStay(s, s', name))
  {
    hide FsmInv, MemoryOk, QueueOk, Q.MemoryUpdateMaxUnacked, LimitedTo, Q.Items, Q.Unacked;
    assert e.cmd.queue in s.db.configs && QueueOk(default, s, e.cmd.queue) by { OfInv(default, s, e.cmd.queue); }
    if e.cmd.settings.strategy == s.queues[e.cmd.queue].config.settings.strategy {
      LimitUpdated(default, s, e.cmd.queue, e.cmd.settings);
    }
  }

  lemma OfInv(default: uint32, s: State, name: string)
    requires FsmInv(default, s) && name in s.queues
    ensures name in s.db.configs && QueueOk(default, s, name)
  {
    hide QueueOk;
  }

  /** A new limit reaches the ready queue and leaves its messages and counters alone. */
  lemma LimitUpdated(default: uint32, s: State, name: string, settings: Settings)
    requires name in s.queues && QueueOk(default, s, name)
    requires settings.strategy == s.queues[name].config.settings.strategy
    ensures var (m, m') := (s.queues[name].ready, Q.MemoryUpdateMaxUnacked(s.queues[name].ready, settings.maxUnacked));
      && Q.Items(m') == Q.Items(m) && Q.Unacked(m') == Q.Unacked(m)
      && LimitedTo(m', s.queues[name].config.kind, settings.strategy, settings.maxUnacked)
  {
    hide Restorable, Consistent, AllAccepted, Q.MemoryOk;
  }

  /** A deleted queue is gone with its messages; one that does not exist is not found. */
  lemma DeleteQueueEffect(default: uint32, s: State, e: Entry)
    requires FsmInv(default, s) && MemoryOk(s) && e.cmd.DeleteQueue?
    ensures var (s', r) := Apply(default, s, e); var name := e.cmd.queue;
      if name !in s.queues then s' == s && r == Failed(QueueNotFound)
      else
        && r == Done && name !in s'.queues && name !in s'.db.configs && MsgsOf(s'.db, name) == map[]
        && OthersStay(s, s', name)
  {
    hide QueueOk, MemoryOk;
  }

  /** A command on messages changes its own queue as above, and no other; without a queue it fails. */
  lemma MessageCommandEffect(default: uint32, s: State, e: Entry)
    requires FsmInv(default, s) && MemoryOk(s) && Legal(s, e) && OnMessages(e.cmd)
    ensures var (s', r) := Apply(default, s, e); var name := e.cmd.queue;
      if name !in s.queues then s' == s && r == Failed(QueueNotFound)
      else
        && Inv(QueueOf(s, name)) && Enabled(QueueOf(s, name), e)
        && name in s'.queues && (QueueOf(s', name), r) == OnQueue(QueueOf(s, name), e) && OthersStay(s, s', name)
  {
    hide FsmInv, MemoryOk, Legal, Inv, OnQueue, Enabled, Apply, OthersStay, With;
    if e.cmd.queue in s.queues {
      ApplyOnQueue(default, s, e);
      Rd.InvGivesOk(QueueOf(s, e.cmd.queue));
      OthersStayWith(s, e.cmd.queue, OnQueue(QueueOf(s, e.cmd.queue), e).0);
    } else {
      ApplyNoQueue(default, s, e);
    }
  }

  lemma OthersStayWith(s: State, name: string, q: Q.Queue)
    requires name in s.queues
    ensures OthersStay(s, With(s, name, q), name)
    ensures name in With(s, name, q).queues && QueueOf(With(s, name, q), name) == q
  {
  }
}
