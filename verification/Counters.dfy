/** The per-group counters of messages in flight that both fair queues keep. */
module Counters {

  /** A missing counter reads as zero. */
  function Counter(counters: map<string, int>, g: string): int {
    if g in counters then counters[g] else 0
  }

  ghost predicate Counts(counters: map<string, int>, unacked: multiset<string>) {
    forall g: string :: unacked[g] == Counter(counters, g)
  }

  lemma Counted(counters: map<string, int>, unacked: multiset<string>, g: string)
    requires Counts(counters, unacked)
    ensures Counts(counters[g := Counter(counters, g) + 1], unacked + multiset{g})
    ensures g in unacked ==> Counts(counters[g := Counter(counters, g) - 1], unacked - multiset{g})
    ensures unacked[g] == 1 ==> Counts(counters - {g}, unacked - multiset{g})
    ensures g !in unacked ==> Counts(counters - {g}, unacked)
  {
  }

  /** Lowering a counter and deleting it at zero gives back one slot, if there was any. */
  lemma Lowered(counters: map<string, int>, unacked: multiset<string>, g: string)
    requires Counts(counters, unacked)
    ensures g !in counters ==> unacked - multiset{g} == unacked
    ensures g in counters ==>
      Counts(if counters[g] <= 1 then counters - {g} else counters[g := counters[g] - 1], unacked - multiset{g})
  {
    assert unacked[g] == Counter(counters, g);
  }
}
