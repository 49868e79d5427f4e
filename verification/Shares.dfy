/**
 * The free share of a group's slots, in tenths, as the weight formula computes it in doubles. Where the
 * share is a whole number of tenths the rounding can fall short of it.
 */
module Shares {
  import opened Doubles

  const MAX_SLOTS: int := 0x1_0000_0000

  /** `maxUnacked + 1` where there is no limit: the sum wraps around. */
  const NO_SLOTS: int := -0x8000_0000_0000_0000

  /** More messages than can be in flight: 2^59. */
  const MANY: nat := 0x800_0000_0000_0000

  /** `(1 - u / d) * 10` in double precision. */
  function Share(u: nat, d: int): real
    requires d != 0
  {
    var slots := RoundedSlots(d);
    var ratio := Rounded(Rounded(u as real) / slots);
    Rounded(Rounded(1.0 - ratio) * 10.0)
  }

  function RoundedSlots(d: int): (r: real)
    requires d != 0
    ensures d > 0 ==> r > 0.0
    ensures d < 0 ==> r < 0.0
  {
    Bounds(if d > 0 then d as real else -(d as real));
    Rounded(d as real)
  }

  /** The exact share, rounded down to whole tenths, and one less where the doubles fall short of it. */
  function Tenths(u: nat, d: int): int
    requires 0 < d
  {
    10 * (d - u) / d - if 10 * u == 8 * d || 10 * u == 9 * d then 1 else 0
  }

  // ---------- Bounds for every number of slots ----------

  lemma NotNegative(u: nat, d: int)
    requires u < d || d < 0
    ensures Share(u, d) >= 0.0
    ensures d < 0 ==> Share(u, d) >= 10.0
  {
    var slots := RoundedSlots(d);
    var q := Rounded(u as real) / slots;
    if u > 0 { Bounds(u as real); }
    Whole(1);
    if d > 0 {
      Monotone(u as real, d as real);
      AtMostOne(Rounded(u as real), slots);
      Monotone(q, 1.0);
    } else {
      NotPositive(Rounded(u as real), slots);
      if q < 0.0 { Bounds(-q); }
    }
    var f := 1.0 - Rounded(q);
    if f > 0.0 {
      Bounds(f);
      Bounds(Rounded(f) * 10.0);
    }
    if d < 0 {
      Monotone(1.0, f);
      Whole(10);
      Monotone(10.0, Rounded(f) * 10.0);
    }
  }

  /** Without a limit the divisor is -2^63, and the share of ten tenths does not shrink. */
  lemma WithoutLimit(u: nat)
    requires u <= MANY
    ensures 10.0 <= Share(u, NO_SLOTS) < 11.0
  {
    NotNegative(u, NO_SLOTS);
    var slots := RoundedSlots(NO_SLOTS);
    Error(-(NO_SLOTS as real));
    if u > 0 { Error(u as real); }
    var q := Rounded(u as real) / slots;
    SmallRatio(Rounded(u as real), slots);
    if q < 0.0 { Error(-q); }
    var f := 1.0 - Rounded(q);
    assert 1.0 <= f <= 1.0 + 1.0 / 14.0;
    Error(f);
    Error(Rounded(f) * 10.0);
  }

  lemma SmallRatio(a: real, b: real)
    requires 0.0 <= a && b < 0.0 && 15.0 * a <= -b
    ensures -1.0 / 15.0 <= a / b <= 0.0
  {
    var q := a / b;
    assert q * b == a;
    assert (15.0 * q + 1.0) * b == 15.0 * a + b <= 0.0;
    assert 15.0 * q + 1.0 >= 0.0;
    NotPositive(a, b);
  }

  lemma AtMostOne(a: real, b: real)
    requires 0.0 <= a <= b && b > 0.0
    ensures 0.0 <= a / b <= 1.0
  {
  }

  lemma NotPositive(a: real, b: real)
    requires 0.0 <= a && b < 0.0
    ensures a / b <= 0.0
  {
  }

  // ---------- Exactly for the numbers of slots that a setting can give ----------

  lemma SlotsAreDoubles(u: nat, d: int)
    requires u < d <= MAX_SLOTS
    ensures Rounded(u as real) == u as real && RoundedSlots(d) == d as real
  {
    Whole(u);
    Whole(d);
  }

  /** Off the whole tenths the rounding error is too small to matter. */
  lemma ShareNear(u: nat, d: int)
    requires u < d <= MAX_SLOTS
    ensures var t := 10.0 * (1.0 - u as real / d as real); t - 32.0 / TWO_53 <= Share(u, d) <= t + 32.0 / TWO_53
  {
    SlotsAreDoubles(u, d);
    var q := u as real / d as real;
    BelowOne(u, d);
    var ratio := Rounded(q);
    if u > 0 { Error(q); }
    assert 0.0 <= ratio < 1.0;
    Error(1.0 - ratio);
    Error(Rounded(1.0 - ratio) * 10.0);
  }

  lemma BelowOne(u: nat, d: int)
    requires u < d <= MAX_SLOTS
    ensures 0.0 <= u as real / d as real <= 1.0 - 1.0 / MAX_SLOTS as real
    ensures u > 0 ==> u as real / d as real > 0.0
  {
    var q := u as real / d as real;
    assert q * d as real == u as real;
    assert (1.0 - q) * d as real == d as real - u as real;
    AtLeast(1.0 - q, d);
  }

  lemma OffTenths(u: nat, d: int)
    requires u < d <= MAX_SLOTS && 10 * (d - u) % d != 0
    ensures Share(u, d).Floor == 10 * (d - u) / d
  {
    hide Share;
    ShareNear(u, d);
    var m := 10 * (d - u) / d;
    Remainder(10 * (d - u), d);
    var t := 10.0 * (1.0 - u as real / d as real);
    Exactly(u, d);
    Between(t, m, d);
  }

  lemma Remainder(n: int, d: int)
    requires d > 0 && n % d != 0
    ensures n / d * d + 1 <= n <= (n / d + 1) * d - 1
  {
    assert n == n / d * d + n % d;
    assert (n / d + 1) * d == n / d * d + d;
  }

  lemma Exactly(u: nat, d: int)
    requires d > 0
    ensures 10.0 * (1.0 - u as real / d as real) * d as real == (10 * (d - u)) as real
  {
    var q := u as real / d as real;
    assert q * d as real == u as real;
    assert 10.0 * (1.0 - q) * d as real == 10.0 * d as real - 10.0 * (q * d as real);
  }

  lemma Between(t: real, m: int, d: int)
    requires 0 < d <= MAX_SLOTS && (m * d + 1) as real <= t * d as real <= ((m + 1) * d - 1) as real
    ensures m as real + 1.0 / MAX_SLOTS as real <= t <= (m + 1) as real - 1.0 / MAX_SLOTS as real
  {
    AtLeast(t - m as real, d);
    AtLeast((m + 1) as real - t, d);
  }

  lemma AtLeast(x: real, d: int)
    requires 0 < d <= MAX_SLOTS && x * d as real >= 1.0
    ensures x >= 1.0 / MAX_SLOTS as real
  {
    if x > 0.0 {
      assert x * MAX_SLOTS as real >= x * d as real;
    }
  }

  /** The three roundings for a ratio of `k` tenths, each given by its leading 53 bits. */
  lemma InBits(k: nat, q: real, i: nat, f: real, j: nat, w: real, n: nat)
    requires k <= 9 && TWO_52 <= q < TWO_53 && TWO_52 <= f < TWO_53 && TWO_52 <= w < TWO_53
    requires k as real / 10.0 * TWO_56 == Shift(q, i)
    requires TWO_56 - Shift(Nearest(q) as real, i) == Shift(f, j)
    requires Shift(Nearest(f) as real, j) * 10.0 == Shift(w, n)
    ensures Rounded(Rounded(1.0 - Rounded(k as real / 10.0)) * 10.0) * TWO_56 == Shift(Nearest(w) as real, n)
  {
    Shifted(q, i);
    var ratio := k as real / 10.0;
    ShiftBy56(ratio);
    Shifted(ratio, 56);
    Leading(ratio * TWO_56, q, i);
    ShiftBy56(Rounded(ratio));
    Shifted(f, j);
    var factor := 1.0 - Rounded(ratio);
    ShiftBy56(factor);
    Shifted(factor, 56);
    Leading(factor * TWO_56, f, j);
    ShiftBy56(Rounded(factor));
    Shifted(w, n);
    var weight := Rounded(factor) * 10.0;
    ShiftBy56(weight);
    Shifted(weight, 56);
    Leading(weight * TWO_56, w, n);
    ShiftBy56(Rounded(weight));
  }

  lemma Bits(k: nat, q: real, i: nat, f: real, j: nat, w: real, n: nat)
    requires 1 <= k <= 9 && TWO_52 <= q < TWO_53 && TWO_52 <= f < TWO_53 && TWO_52 <= w < TWO_53
    requires i <= 8 && j <= 8 && n <= 8
    requires k as real / 10.0 * TWO_56 == q * Scale(i)
    requires TWO_56 - Nearest(q) as real * Scale(i) == f * Scale(j)
    requires Nearest(f) as real * Scale(j) * 10.0 == w * Scale(n)
    ensures Rounded(Rounded(1.0 - Rounded(k as real / 10.0)) * 10.0) * TWO_56 == Nearest(w) as real * Scale(n)
  {
    hide Rounded, Nearest, Shift;
    ScaleIsShift(q, i);
    ScaleIsShift(Nearest(q) as real, i);
    ScaleIsShift(f, j);
    ScaleIsShift(Nearest(f) as real, j);
    ScaleIsShift(w, n);
    ScaleIsShift(Nearest(w) as real, n);
    InBits(k, q, i, f, j, w, n);
  }

  function Scale(n: nat): real
    requires n <= 8
  {
    [1.0, 2.0, 4.0, 8.0, 16.0, 32.0, 64.0, 128.0, 256.0][n]
  }

  lemma ScaleIsShift(x: real, n: nat)
    requires n <= 8
    ensures x * Scale(n) == Shift(x, n)
  {
    ShiftByEight(x);
  }

  /** The weight for a ratio of `k` tenths. */
  function Weighed(k: nat): int {
    Rounded(Rounded(1.0 - Rounded(k as real / 10.0)) * 10.0).Floor
  }

  lemma FewTenths(k: nat)
    requires 1 <= k <= 3
    ensures Weighed(k) == 10 - k
  {
    hide Rounded;
    match k
    case 1 => Bits(1, 7205759403792793.6, 0, 8106479329266892.75, 3, 5066549580791808.125, 7);
    case 2 => Bits(2, 7205759403792793.6, 1, 7205759403792793.5, 3, 4503599627370496.25, 7);
    case 3 => Bits(3, 5404319552844595.2, 2, 6305039478318694.5, 3, 7881299347898367.5, 6);
  }

  lemma HalfTheTenths(k: nat)
    requires 4 <= k <= 6
    ensures Weighed(k) == 10 - k
  {
    hide Rounded;
    match k
    case 4 => Bits(4, 7205759403792793.6, 2, 5404319552844595.0, 3, 6755399441055743.75, 6);
    case 5 => Bits(5, 4503599627370496.0, 3, 4503599627370496.0, 3, 5629499534213120.0, 6);
    case 6 => Bits(6, 5404319552844595.2, 3, 7205759403792794.0, 2, 4503599627370496.25, 6);
  }

  lemma ManyTenths(k: nat)
    requires 7 <= k <= 9
    ensures Weighed(k) == 10 - k - if k >= 8 then 1 else 0
  {
    hide Rounded;
    match k
    case 7 => Bits(7, 6305039478318694.4, 3, 5404319552844596.0, 2, 6755399441055745.0, 5);
    case 8 => Bits(8, 7205759403792793.6, 3, 7205759403792792.0, 1, 9007199254740990.0, 4);
    case 9 => Bits(9, 8106479329266892.8, 3, 7205759403792792.0, 0, 9007199254740990.0, 3);
  }

  /** Of the whole tenths only eight and nine come out short. */
  lemma OnTenths(k: nat)
    requires k <= 9
    ensures Weighed(k) == 10 - k - if k >= 8 then 1 else 0
  {
    hide Weighed;
    if k == 0 {
      NoTenths();
    } else if k <= 3 {
      FewTenths(k);
    } else if k <= 6 {
      HalfTheTenths(k);
    } else {
      ManyTenths(k);
    }
  }

  lemma NoTenths()
    ensures Weighed(0) == 10
  {
    hide Rounded;
    RoundedZero();
    Whole(1);
    Whole(10);
  }

  lemma RoundedZero()
    ensures Rounded(0.0) == 0.0
  {
  }

  /** What the doubles compute, for every number of slots that a setting can give. */
  lemma ShareIs(u: nat, d: int)
    requires u < d <= MAX_SLOTS
    ensures Share(u, d).Floor == Tenths(u, d)
  {
    hide Rounded, Share, Weighed;
    var free := 10 * (d - u);
    assert 10 * u == 8 * d <==> free == 2 * d;
    assert 10 * u == 9 * d <==> free == d;
    if free % d != 0 {
      OffTenths(u, d);
      Multiples(d);
    } else {
      var k := 10 - free / d;
      WholeTenths(u, d, k);
      OnTenths(k);
      ShareOnTenths(u, d, k);
    }
  }

  lemma Multiples(d: int)
    requires d > 0
    ensures d % d == 0 && 2 * d % d == 0 && d / d == 1 && 2 * d / d == 2
  {
  }

  lemma WholeTenths(u: nat, d: int, k: int)
    requires u < d && 10 * (d - u) % d == 0 && k == 10 - 10 * (d - u) / d
    ensures 0 <= k <= 9 && 10 * u == k * d
    ensures (10 * u == 8 * d <==> k == 8) && (10 * u == 9 * d <==> k == 9)
  {
    var m := 10 * (d - u) / d;
    assert m * d == 10 * (d - u);
    assert 1 <= m <= 10;
  }

  lemma ShareOnTenths(u: nat, d: int, k: nat)
    requires u < d <= MAX_SLOTS && 10 * u == k * d
    ensures Share(u, d).Floor == Weighed(k)
  {
    hide Rounded;
    SlotsAreDoubles(u, d);
    assert u as real / d as real == k as real / 10.0 by { SameRatio(u, d, k); }
  }

  lemma SameRatio(u: nat, d: int, k: nat)
    requires 0 < d && 10 * u == k * d
    ensures u as real / d as real == k as real / 10.0
  {
    var q := u as real / d as real;
    assert q * d as real == u as real;
    assert (10 * u) as real == (k * d) as real == k as real * d as real;
    assert (10.0 * q - k as real) * d as real == 0.0;
  }
}
