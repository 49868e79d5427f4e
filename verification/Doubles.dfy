/**
 * Rounding to double precision: 53 significant bits, to nearest, ties to even (section 4.3.1 of
 * IEEE 754). Overflow and subnormal numbers do not occur in the quotients it is used for.
 */
module Doubles {

  const TWO_52: real := 4503599627370496.0
  const TWO_53: real := 9007199254740992.0
  const TWO_56: real := 72057594037927936.0

  /** The nearest integer, the even one of two. */
  function Nearest(x: real): (n: int)
    ensures -0.5 <= n as real - x <= 0.5
  {
    var f := x.Floor;
    var rest := x - f as real;
    if rest < 0.5 || (rest == 0.5 && f % 2 == 0) then f else f + 1
  }

  /** How far a positive number is from the binade in which rounding is to an integer. */
  function Distance(x: real): nat {
    if x >= TWO_53 then x.Floor
    else if 0.0 < x < TWO_52 then TimesTwo(x); (TWO_53 / x).Floor
    else 0
  }

  lemma TimesTwo(x: real)
    requires 0.0 < x < TWO_52
    ensures TWO_53 / x > 2.0 && TWO_53 / (2.0 * x) == TWO_53 / x / 2.0
  {
  }

  function Rounded(x: real): real
    decreases if x < 0.0 then 1 else 0, Distance(x)
  {
    if x < 0.0 then -Rounded(-x)
    else if x == 0.0 then 0.0
    else if x >= TWO_53 then 2.0 * Rounded(x / 2.0)
    else if x < TWO_52 then TimesTwo(x); Rounded(2.0 * x) / 2.0
    else Nearest(x) as real
  }

  /** The relative error is at most half a unit in the last place. */
  lemma {:induction false} Error(x: real)
    requires x > 0.0
    ensures x - x / TWO_53 <= Rounded(x) <= x + x / TWO_53
    decreases Distance(x)
  {
    if x >= TWO_53 {
      Error(x / 2.0);
    } else if x < TWO_52 {
      TimesTwo(x);
      Error(2.0 * x);
    }
  }

  lemma {:induction false} Bounds(x: real)
    requires x > 0.0
    ensures Rounded(x) > 0.0
    ensures x <= TWO_53 ==> Rounded(x) <= TWO_53
    ensures x >= TWO_53 ==> Rounded(x) >= TWO_53
    ensures x <= TWO_52 ==> Rounded(x) <= TWO_52
    ensures x >= TWO_52 ==> Rounded(x) >= TWO_52
    decreases Distance(x)
  {
    if x >= TWO_53 {
      Bounds(x / 2.0);
    } else if x < TWO_52 {
      TimesTwo(x);
      Bounds(2.0 * x);
    }
  }

  lemma NearestMonotone(x: real, y: real)
    requires x <= y
    ensures Nearest(x) <= Nearest(y)
  {
  }

  lemma {:induction false} Monotone(x: real, y: real)
    requires 0.0 <= x <= y
    ensures Rounded(x) <= Rounded(y)
    decreases Distance(x) + Distance(y)
  {
    if x > 0.0 {
      Bounds(x);
      Bounds(y);
      if x >= TWO_53 {
        Monotone(x / 2.0, y / 2.0);
      } else if y < TWO_52 {
        TimesTwo(x);
        TimesTwo(y);
        Monotone(2.0 * x, 2.0 * y);
      } else if TWO_52 <= x && y < TWO_53 {
        NearestMonotone(x, y);
      }
    } else if y > 0.0 {
      Bounds(y);
    }
  }

  /** Small integers are doubles. */
  lemma {:induction false} Whole(n: nat)
    requires n as real <= TWO_53
    ensures Rounded(n as real) == n as real
    decreases Distance(n as real)
  {
    if 0.0 < n as real < TWO_52 {
      TimesTwo(n as real);
      assert 2.0 * n as real == (2 * n) as real;
      Whole(2 * n);
    } else if n as real == TWO_53 {
      assert Rounded(TWO_53 / 2.0) == Nearest(TWO_52) as real;
    }
  }

  /** `x` times 2^n. */
  function Shift(x: real, n: nat): real {
    if n == 0 then x else 2.0 * Shift(x, n - 1)
  }

  /** Rounding does not depend on the exponent. */
  lemma {:induction false} Shifted(x: real, n: nat)
    requires x > 0.0
    ensures Shift(x, n) > 0.0 && Rounded(Shift(x, n)) == Shift(Rounded(x), n)
  {
    if n > 0 {
      Shifted(x, n - 1);
      Twice(Shift(x, n - 1));
    }
  }

  lemma Twice(x: real)
    requires x > 0.0
    ensures Rounded(2.0 * x) == 2.0 * Rounded(x)
  {
  }

  /** The 53 leading bits of a rounded number. */
  lemma Leading(x: real, y: real, n: nat)
    requires TWO_52 <= y < TWO_53 && x == Shift(y, n)
    ensures Rounded(x) == Shift(Nearest(y) as real, n)
  {
    Shifted(y, n);
  }

  lemma ShiftByEight(x: real)
    ensures Shift(x, 0) == x && Shift(x, 1) == 2.0 * x && Shift(x, 2) == 4.0 * x && Shift(x, 3) == 8.0 * x
    ensures Shift(x, 4) == 16.0 * x && Shift(x, 5) == 32.0 * x && Shift(x, 6) == 64.0 * x && Shift(x, 7) == 128.0 * x
    ensures Shift(x, 8) == 256.0 * x
  {
  }

  lemma {:induction false} ShiftTwice(x: real, a: nat, b: nat)
    ensures Shift(x, a + b) == Shift(Shift(x, a), b)
  {
    if b > 0 { ShiftTwice(x, a, b - 1); }
  }

  lemma ShiftBy56(x: real)
    ensures Shift(x, 56) == TWO_56 * x
  {
    ShiftByEight(x);
    ShiftByEight(256.0 * x);
    ShiftTwice(x, 8, 8);
    ShiftTwice(x, 16, 8);
    ShiftByEight(65536.0 * x);
    ShiftTwice(x, 24, 8);
    ShiftByEight(16777216.0 * x);
    ShiftTwice(x, 32, 8);
    ShiftByEight(4294967296.0 * x);
    ShiftTwice(x, 40, 8);
    ShiftByEight(1099511627776.0 * x);
    ShiftTwice(x, 48, 8);
    ShiftByEight(281474976710656.0 * x);
  }
}
