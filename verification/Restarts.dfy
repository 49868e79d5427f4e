/**
 * Deliveries of a message over histories in which the replica is rebuilt from snapshots any number of
 * times: the delivery limit holds across restores.
 */
module Restarts {
  import opened Types
  import opened Fsm
  import opened FsmInvariant
  import opened QueueInvariant
  import opened History
  import opened Limits
  import opened Snapshot

  /** A log entry is applied, or the replica restores a snapshot of its state over whatever it holds. */
  datatype Event = Applied(e: Entry) | Restored

  ghost predicate Rebuilds(default: uint32, s: State, s': State) {
    exists previous: State, items: seq<SnapshotItem> ::
      IsSnapshot(s, items) && Restore(default, previous, items) == Some(s')
  }

  /** `states[i]` is the state in which `events[i]` happens. */
  ghost predicate IsHistory(default: uint32, states: seq<State>, events: seq<Event>) {
    && |states| == |events| + 1
    && forall i :: 0 <= i < |events| ==> Happens(default, states[i], events[i], states[i + 1])
  }

  ghost predicate Happens(default: uint32, s: State, event: Event, s': State) {
    match event
    case Applied(e) => MemoryOk(s) && Legal(s, e) && s' == Apply(default, s, e).0
    case Restored => Rebuilds(default, s, s')
  }

  ghost predicate Hands(default: uint32, s: State, event: Event, name: string, id: nat) {
    event.Applied? && MemoryOk(s) && Delivers(default, s, event.e, name, id)
  }

  /** How often the first `n` events handed out message `id`. */
  ghost function Deliveries(
    default: uint32, states: seq<State>, events: seq<Event>, n: nat, name: string, id: nat): nat
    requires IsHistory(default, states, events) && n <= |events|
  {
    if n == 0 then 0
    else
      Deliveries(default, states, events, n - 1, name, id)
      + (if Hands(default, states[n - 1], events[n - 1], name, id) then 1 else 0)
  }

  predicate Arrives(event: Event, name: string, id: nat) {
    event.Applied? && Enqueues(event.e, name, id)
  }

  /** How often the first `n` events enqueue message `id`. */
  function Arrivals(events: seq<Event>, n: nat, name: string, id: nat): nat
    requires n <= |events|
  {
    if n == 0 then 0 else Arrivals(events, n - 1, name, id) + if Arrives(events[n - 1], name, id) then 1 else 0
  }

  ghost predicate FixedLimit(events: seq<Event>, name: string, limit: uint32) {
    forall i :: 0 <= i < |events| && events[i].Applied? ==> FixesLimit(events[i].e, name, limit)
  }

  // ---------- What a restore keeps ----------

  lemma RebuildKeeps(default: uint32, s: State, s': State, name: string, limit: uint32)
    requires DefaultOk(default) && FsmInv(default, s) && Rebuilds(default, s, s')
    ensures s' == RenewedState(s) && FsmInv(default, s') && s'.db == s.db
    ensures LimitIs(s, name, limit) ==> LimitIs(s', name, limit)
  {
    hide FsmInv, IsSnapshot, Restore, Inv, Renewed, WithinLimit, ViewOf;
    var previous: State, items: seq<SnapshotItem> :|
      IsSnapshot(s, items) && Restore(default, previous, items) == Some(s');
    RestoreGivesRenewed(default, s, previous, items);
    RenewedStateInv(default, s);
    if name in s.queues {
      QueueIsOk(default, s, name);
      RenewedInv(QueueOf(s, name));
    }
  }

  lemma QueueIsOk(default: uint32, s: State, name: string)
    requires FsmInv(default, s) && name in s.queues
    ensures Inv(QueueOf(s, name))
  {
    hide Inv;
    assert QueueOk(default, s, name);
  }

  // ---------- Whole histories ----------

  /** What holds after `n` events: the count stored with the message counts its deliveries. */
  ghost predicate Counted(
    default: uint32, states: seq<State>, events: seq<Event>, name: string, id: nat, limit: uint32, n: nat)
    requires IsHistory(default, states, events) && n <= |events|
  {
    var handed := Deliveries(default, states, events, n, name, id) + StartCount(states[0], name, id);
    && FsmInv(default, states[n]) && LimitIs(states[n], name, limit) && handed <= limit
    && (Stored(states[n], name, id) ==> handed == CountIn(states[n], name, id))
    && (!Stored(states[0], name, id) && Arrivals(events, n, name, id) == 0 ==>
          handed == 0 && !Stored(states[n], name, id))
  }

  /** The deliveries a message has used up before the history starts. */
  ghost function StartCount(s: State, name: string, id: nat): nat {
    if Stored(s, name, id) then CountIn(s, name, id) else 0
  }

  /** The message is enqueued once, counting the time before the history. */
  ghost predicate EnqueuedOnce(s: State, events: seq<Event>, name: string, id: nat) {
    Arrivals(events, |events|, name, id) + (if Stored(s, name, id) then 1 else 0) <= 1
  }

  lemma StartIsCounted(default: uint32, s: State, name: string, id: nat, limit: uint32)
    requires FsmInv(default, s) && LimitIs(s, name, limit)
    ensures StartCount(s, name, id) <= limit
  {
    if Stored(s, name, id) {
      QueueIsOk(default, s, name);
      assert WithinLimitAt(ViewIn(s, name), limit, id);
    }
  }

  lemma {:induction false} ArrivalsGrow(events: seq<Event>, n: nat, m: nat, name: string, id: nat)
    requires n <= m <= |events|
    ensures Arrivals(events, n, name, id) <= Arrivals(events, m, name, id)
    decreases m
  {
    if n < m { ArrivalsGrow(events, n, m - 1, name, id); }
  }

  lemma {:induction false} HistoryIsCounted(
    default: uint32, states: seq<State>, events: seq<Event>, name: string, id: nat, limit: uint32, n: nat)
    requires DefaultOk(default) && IsHistory(default, states, events) && n <= |events| && limit > 0
    requires FsmInv(default, states[0]) && LimitIs(states[0], name, limit) && FixedLimit(events, name, limit)
    requires EnqueuedOnce(states[0], events, name, id)
    ensures Counted(default, states, events, name, id, limit, n)
    decreases n
  {
    hide FsmInv, MemoryOk, Legal, Apply, LimitIs, FixesLimit, Delivers, Rebuilds, Stored;
    if n == 0 {
      StartIsCounted(default, states[0], name, id, limit);
    } else {
      HistoryIsCounted(default, states, events, name, id, limit, n - 1);
      var s, s' := states[n - 1], states[n];
      ArrivalsGrow(events, n, |events|, name, id);
      match events[n - 1]
      case Applied(e) =>
        ApplyKeepsInv(default, s, e);
        StepKeepsLimit(default, s, e, name, limit);
        CountStep(default, s, e, name, id, limit);
      case Restored =>
        RebuildKeeps(default, s, s', name, limit);
        StoredAlike(s, s', name, id);
    }
  }

  lemma StoredAlike(s: State, s': State, name: string, id: nat)
    requires s' == RenewedState(s)
    ensures Stored(s', name, id) <==> Stored(s, name, id)
    ensures Stored(s, name, id) ==> CountIn(s', name, id) == CountIn(s, name, id)
  {
  }

  /**
   * With a fixed delivery limit, a message that is enqueued once has at most as many deliveries as the
   * limit leaves it at the start, whatever restores there are on the way.
   */
  lemma DeliveredAtMostLimit(
    default: uint32, states: seq<State>, events: seq<Event>, name: string, id: nat, limit: uint32)
    requires DefaultOk(default) && IsHistory(default, states, events) && limit > 0
    requires FsmInv(default, states[0]) && LimitIs(states[0], name, limit) && FixedLimit(events, name, limit)
    requires EnqueuedOnce(states[0], events, name, id)
    ensures StartCount(states[0], name, id) <= limit
    ensures Deliveries(default, states, events, |events|, name, id) <= limit - StartCount(states[0], name, id)
  {
    hide FsmInv, LimitIs, Stored;
    StartIsCounted(default, states[0], name, id, limit);
    HistoryIsCounted(default, states, events, name, id, limit, |events|);
  }
}
