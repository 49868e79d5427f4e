/** Replicas that apply the same log agree, also when one was rebuilt from a snapshot on the way. */
module Replicas {
  import opened Types
  import opened Fsm
  import opened FsmInvariant
  import opened Snapshot
  import opened Replay

  /** The answers of a replica that goes through `states`. */
  ghost function Responses(default: uint32, states: seq<State>, log: seq<Entry>): seq<Response>
    requires IsTrace(default, states, log)
  {
    seq(|log|, i requires 0 <= i < |log| => Apply(default, states[i], log[i]).1)
  }

  lemma {:induction false} SameStates(default: uint32, a: seq<State>, b: seq<State>, log: seq<Entry>, n: nat)
    requires IsTrace(default, a, log) && IsTrace(default, b, log) && a[0] == b[0] && n <= |log|
    ensures a[n] == b[n]
    decreases n
  {
    hide Apply, MemoryOk;
    if n > 0 { SameStates(default, a, b, log, n - 1); }
  }

  lemma RunIsTrace(default: uint32, states: seq<State>, log: seq<Entry>, n: nat)
    requires IsRun(default, states, log) && n <= |log|
    ensures IsTrace(default, states[n..], log[n..])
  {
    hide Apply, MemoryOk, Legal;
  }

  /**
   * Snapshot equivalence: take a snapshot after the first `n` entries, restore it on a replica in any
   * state, and let it apply the rest of the log. It goes through the same states as the replica that
   * applied every entry exactly if all weights were up to date at the snapshot, and then gives the same
   * answers.
   */
  lemma RestoredReplicaAgrees(
    default: uint32, states: seq<State>, log: seq<Entry>, n: nat,
    items: seq<SnapshotItem>, previous: State, restored: seq<State>)
    requires DefaultOk(default) && IsRun(default, states, log) && states[0] == EMPTY && n <= |log|
    requires IsSnapshot(states[n], items)
    requires IsTrace(default, restored, log[n..]) && Restore(default, previous, items) == Some(restored[0])
    ensures restored == states[n..] <==> Fresh(states[n])
    ensures IsTrace(default, states[n..], log[n..])
    ensures Fresh(states[n]) ==> Responses(default, restored, log[n..]) == Responses(default, states[n..], log[n..])
  {
    hide Apply, MemoryOk, Legal, FsmInv, Fresh, KeepsLimit, IsSnapshot, Restore;
    EmptyInv(default);
    RunKeepsInv(default, states, log, n);
    RestoreIsExactIff(default, states[n], previous, items);
    RunIsTrace(default, states, log, n);
    if Fresh(states[n]) {
      forall i | 0 <= i <= |log| - n ensures restored[i] == states[n..][i] {
        SameStates(default, restored, states[n..], log[n..], i);
      }
    } else {
      assert states[n..][0] == states[n];
    }
  }
}
