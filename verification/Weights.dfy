/**
 * Weighted sampling over a map from group to weight, with the keys taken in sorted order. This is
 * what `sample` computes on the weight tree, whatever the tree's shape.
 */
module Weights {
  import opened Order

  type WeightMap = map<string, int>

  ghost predicate IsLeast(m: WeightMap, k: string) {
    k in m && forall j :: j in m && j != k ==> LexLess(k, j)
  }

  lemma {:induction false} LeastExists(m: WeightMap)
    requires m != map[]
    ensures exists k :: IsLeast(m, k)
    decreases |m|
  {
    var k :| k in m;
    var rest := m - {k};
    assert m.Keys == rest.Keys + {k};
    if rest == map[] {
      assert IsLeast(m, k);
    } else {
      LeastExists(rest);
      var j :| IsLeast(rest, j);
      LexTotal(j, k);
      if LexLess(k, j) {
        forall i | i in m && i != k ensures LexLess(k, i) {
          if i != j { LexTransitive(k, j, i); }
        }
        assert IsLeast(m, k);
      } else {
        assert IsLeast(m, j);
      }
    }
  }

  ghost function Least(m: WeightMap): (k: string)
    requires m != map[]
    ensures IsLeast(m, k)
  {
    LeastExists(m);
    var k :| IsLeast(m, k);
    k
  }

  lemma LeastUnique(m: WeightMap, k: string)
    requires m != map[] && IsLeast(m, k)
    ensures k == Least(m)
  {
    LexTotal(k, Least(m));
  }

  ghost function Total(m: WeightMap): int
    decreases |m|
  {
    if m == map[] then 0 else m[Least(m)] + Total(m - {Least(m)})
  }

  /** The key whose stretch of the sorted keys' running total contains `r`; "" when there is none. */
  ghost function Pick(m: WeightMap, r: int): string
    decreases |m|
  {
    if m == map[] then ""
    else if r < m[Least(m)] then Least(m)
    else Pick(m - {Least(m)}, r - m[Least(m)])
  }

  ghost predicate NonNegative(m: WeightMap) {
    forall k :: k in m ==> m[k] >= 0
  }

  ghost predicate KeysBelow(lo: WeightMap, hi: WeightMap) {
    forall a, b :: a in lo && b in hi ==> LexLess(a, b)
  }

  lemma LeastOfUnion(lo: WeightMap, hi: WeightMap)
    requires KeysBelow(lo, hi) && lo != map[]
    ensures Least(lo + hi) == Least(lo)
    ensures (lo + hi)[Least(lo)] == lo[Least(lo)]
    ensures (lo + hi) - {Least(lo)} == (lo - {Least(lo)}) + hi
  {
    var k := Least(lo);
    if k in hi {
      LexTotal(k, k);
      assert false;
    }
    LeastUnique(lo + hi, k);
  }

  lemma {:induction false} TotalOfUnion(lo: WeightMap, hi: WeightMap)
    requires KeysBelow(lo, hi)
    ensures Total(lo + hi) == Total(lo) + Total(hi)
    decreases |lo|
  {
    if lo == map[] {
      assert lo + hi == hi;
    } else {
      LeastOfUnion(lo, hi);
      TotalOfUnion(lo - {Least(lo)}, hi);
    }
  }

  lemma {:induction false} TotalNonNegative(m: WeightMap)
    requires NonNegative(m)
    ensures Total(m) >= 0
    ensures Total(m) > 0 <==> exists k :: k in m && m[k] > 0
    decreases |m|
  {
    if m != map[] {
      var rest := m - {Least(m)};
      TotalNonNegative(rest);
      assert forall k :: k in m <==> k == Least(m) || k in rest;
      assert forall k :: k in rest ==> rest[k] == m[k];
    }
  }

  lemma {:induction false} PickOfUnion(lo: WeightMap, hi: WeightMap, r: int)
    requires KeysBelow(lo, hi) && NonNegative(lo) && 0 <= r
    ensures Pick(lo + hi, r) == if r < Total(lo) then Pick(lo, r) else Pick(hi, r - Total(lo))
    decreases |lo|
  {
    if lo == map[] {
      assert lo + hi == hi;
    } else {
      LeastOfUnion(lo, hi);
      TotalNonNegative(lo - {Least(lo)});
      if r >= lo[Least(lo)] {
        PickOfUnion(lo - {Least(lo)}, hi, r - lo[Least(lo)]);
      }
    }
  }

  /** The weights of the keys that sort before `k`. */
  ghost function Below(m: WeightMap, k: string): WeightMap {
    map j | j in m && LexLess(j, k) :: m[j]
  }

  lemma BelowLeast(m: WeightMap)
    requires m != map[]
    ensures Below(m, Least(m)) == map[]
  {
    forall j | j in m ensures !LexLess(j, Least(m)) {
      LexTotal(j, Least(m));
    }
  }

  lemma BelowStep(m: WeightMap, k: string)
    requires k in m && k != Least(m)
    ensures Total(Below(m, k)) == m[Least(m)] + Total(Below(m - {Least(m)}, k))
  {
    var least := Least(m);
    var below := Below(m, k);
    assert least in below;
    LeastUnique(below, least);
    assert below - {least} == Below(m - {least}, k);
  }

  /** `r` picks `k` exactly when it falls into the stretch of length m[k] after the smaller keys. */
  lemma {:induction false} PickStretch(m: WeightMap, r: int, k: string)
    requires NonNegative(m) && 0 <= r < Total(m)
    ensures Pick(m, r) in m
    ensures Pick(m, r) == k <==> k in m && Total(Below(m, k)) <= r < Total(Below(m, k)) + m[k]
    decreases |m|
  {
    var least := Least(m);
    var rest := m - {least};
    BelowLeast(m);
    if k in m && k != least {
      BelowStep(m, k);
      TotalNonNegative(Below(rest, k));
    }
    if r >= m[least] {
      PickStretch(rest, r - m[least], k);
    }
  }

  /** The integers from `a` up to but not including `b`. */
  ghost function Stretch(a: int, b: int): (s: set<int>)
    requires a <= b
    ensures forall r :: r in s <==> a <= r < b
    ensures |s| == b - a
    decreases b - a
  {
    if a == b then {} else Stretch(a, b - 1) + {b - 1}
  }

  /** The values of r that pick `k`. */
  ghost function Picking(m: WeightMap, k: string): set<int> {
    set r | 0 <= r < Total(m) && Pick(m, r) == k
  }

  lemma {:induction false} BelowPlusOwn(m: WeightMap, k: string)
    requires NonNegative(m) && k in m
    ensures 0 <= Total(Below(m, k)) && Total(Below(m, k)) + m[k] <= Total(m)
    decreases |m|
  {
    TotalNonNegative(Below(m, k));
    TotalNonNegative(m - {Least(m)});
    if k == Least(m) {
      BelowLeast(m);
    } else {
      BelowStep(m, k);
      BelowPlusOwn(m - {Least(m)}, k);
    }
  }

  /**
   * Sampling is proportional: of the values r can take, exactly m[k] pick key `k`. In particular a
   * key of weight zero is never picked.
   */
  lemma PickIsProportional(m: WeightMap, k: string)
    requires NonNegative(m) && k in m
    ensures |Picking(m, k)| == m[k]
  {
    var before := Total(Below(m, k));
    BelowPlusOwn(m, k);
    forall r | 0 <= r < Total(m)
      ensures Pick(m, r) == k <==> before <= r < before + m[k]
    {
      PickStretch(m, r, k);
    }
    assert Picking(m, k) == Stretch(before, before + m[k]);
  }
}
