/** Integer arithmetic that the solver needs spelt out: products, quotients, remainders and powers of two. */
module Arithmetic {

  // ---- Products ----

  lemma TimesMonotonic(a: int, b: int, c: nat)
    requires a <= b
    ensures a * c <= b * c
  {
  }

  lemma TimesCancel(a: int, b: int, c: nat)
    requires c > 0 && a * c <= b * c
    ensures a <= b
  {
    if a > b {
      TimesMonotonic(b + 1, a, c);
    }
  }

  lemma TimesAtLeast(e: int, d: nat)
    ensures e >= 1 ==> e * d >= d
  {
  }

  lemma Distribute(a: int, b: int, c: int)
    ensures (a + b) * c == a * c + b * c
  {
  }

  lemma Regroup(c: nat, q: nat, k: nat, r: nat)
    ensures c * (q * k + r) == k * (c * q) + c * r
  {
  }

  /** A number split at a digit in base 256, shifted by one more digit. */
  lemma ShiftDigit(v: nat, q: nat, r: nat, b: nat)
    ensures 256 * (v * q + r) + b == v * (256 * q) + (256 * r + b)
  {
    Regroup(256, q, v, r);
  }

  // ---- Quotients and remainders ----

  lemma QuotientUnique(q: int, r: int, q': int, r': int, d: int)
    requires 0 <= r < d && 0 <= r' < d && q * d + r == q' * d + r'
    ensures q == q' && r == r'
  {
    var e := q - q';
    assert e * d == q * d - q' * d;
    TimesAtLeast(e, d);
    TimesAtLeast(-e, d);
  }

  lemma DivModUnique(x: int, d: int, q: int, r: int)
    requires 0 <= r < d && x == q * d + r
    ensures x / d == q && x % d == r
  {
    QuotientUnique(q, r, x / d, x % d, d);
  }

  lemma ModSmall(x: int, d: int)
    requires 0 <= x < d
    ensures x % d == x
  {
    DivModUnique(x, d, 0, x);
  }

  lemma WrapOnce(v: nat, w: nat)
    requires 0 < w && v <= w
    ensures v % w == if v == w then 0 else v
  {
    if v == w {
      DivModUnique(v, w, 1, 0);
    } else {
      ModSmall(v, w);
    }
  }

  /** The remainder of a number by a multiple of `c` keeps the last digit in base `c`. */
  lemma ModByMultiple(v: nat, b: nat, c: nat, q: nat)
    requires b < c && q > 0
    ensures c * q > 0 && (c * v + b) % (c * q) == c * (v % q) + b
  {
    var k, r := v / q, v % q;
    ScaleRemainder(v, k, r, c, q, b);
    DivModUnique(c * v + b, c * q, k, c * r + b);
  }

  lemma ScaleRemainder(v: nat, k: nat, r: nat, c: nat, q: nat, b: nat)
    requires v == q * k + r && r < q && b < c
    ensures c * v + b == k * (c * q) + (c * r + b) && 0 <= c * r + b < c * q
  {
    Regroup(c, q, k, r);
    TimesMonotonic(r + 1, q, c);
    Regroup(c, 1, 1, r);
  }

  /** Adding a multiple of `d` does not change the remainder. */
  lemma ModDropsMultiples(v: nat, d: nat, b: nat)
    requires d > 0
    ensures (v * d + b) % d == b % d
  {
    assert v * d + b == (v + b / d) * d + b % d;
    DivModUnique(v * d + b, d, v + b / d, b % d);
  }

  lemma ModOfSum(a: nat, b: nat, d: nat)
    requires d > 0
    ensures (a % d + b) % d == (a + b) % d
  {
    ModDropsMultiples(a / d, d, a % d + b);
    assert (a / d) * d + (a % d + b) == a + b;
  }

  lemma QuotientNonNegative(a: nat, b: nat)
    requires b > 0
    ensures a / b >= 0
  {
  }

  lemma FloorMonotonic(a: nat, b: nat, c: nat, d: nat)
    requires b > 0 && d > 0 && a * d <= c * b
    ensures a / b <= c / d
  {
    var p, q := a / b, c / d;
    TimesMonotonic(p * b, a, d);
    assert p * b * d == p * d * b;
    TimesCancel(p * d, c, b);
    if p > q {
      TimesMonotonic(q + 1, p, d);
    }
  }

  // ---- Rounding down ----

  /** `v` rounded down to a multiple of `d`. */
  function RoundDown(v: nat, d: nat): nat
    requires d > 0
  {
    v - v % d
  }

  /** The block a number below `w` blocks falls into is one of them. */
  lemma RoundDownFits(v: nat, d: nat, w: nat)
    requires d > 0 && v < w * d
    ensures RoundDown(v, d) + d <= w * d
  {
    BlockBelow(v, v / d, v % d, d, w);
  }

  lemma BlockBelow(v: nat, k: nat, r: nat, d: nat, w: nat)
    requires v == k * d + r && r < d && v < w * d
    ensures k * d + d <= w * d
  {
    if k >= w {
      TimesMonotonic(w, k, d);
    } else {
      TimesMonotonic(k + 1, w, d);
    }
  }

  /** Rounding down to a divisor of 256 leaves the higher digits alone. */
  lemma RoundLastDigit(v: nat, b: nat, e: nat, d: nat)
    requires d > 0 && e * d == 256
    ensures RoundDown(256 * v + b, d) == 256 * v + RoundDown(b, d)
  {
    assert 256 * v == (v * e) * d;
    ModDropsMultiples(v * e, d, b);
  }

  lemma RoundHigherDigits(v: nat, b: nat, q: nat)
    requires q > 0 && b < 256
    ensures RoundDown(256 * v + b, 256 * q) == 256 * RoundDown(v, q)
  {
    ModByMultiple(v, b, 256, q);
  }

  lemma HalveRound(x: nat, q: nat)
    requires q > 0
    ensures RoundDown(x, 2 * q) == 2 * RoundDown(x / 2, q)
  {
    ModByMultiple(x / 2, x % 2, 2, q);
    assert 2 * (x / 2) + x % 2 == x;
  }

  lemma RoundDownInterval(u: nat, v: nat, d: nat)
    requires d > 0
    ensures RoundDown(RoundDown(u, d), d) == RoundDown(v, d) <==> RoundDown(u, d) <= v < RoundDown(u, d) + d
  {
    var k := u / d;
    assert RoundDown(u, d) == k * d;
    DivModUnique(k * d, d, k, 0);
    if k * d <= v < k * d + d {
      DivModUnique(v, d, k, v - k * d);
    }
  }

  // ---- Powers of two ----

  function Pow2(k: nat): (r: nat)
    ensures r >= 1
  {
    if k == 0 then 1 else 2 * Pow2(k - 1)
  }

  lemma {:induction false} Pow2Add(a: nat, b: nat)
    ensures Pow2(a + b) == Pow2(a) * Pow2(b)
  {
    if a != 0 {
      Pow2Add(a - 1, b);
    }
  }

  lemma Pow2Complement(a: nat, b: nat)
    requires a + b == 8
    ensures Pow2(a) * Pow2(b) == 256
  {
    Pow2Add(a, b);
    assert Pow2(8) == 256;
  }

  lemma {:induction false} Pow2Byte(k: nat)
    ensures Pow2(k + 8) == 256 * Pow2(k)
  {
    assert Pow2(8) == 256;
    Pow2Add(k, 8);
  }

  lemma {:induction false} Pow2Monotonic(a: nat, b: nat)
    requires a <= b
    ensures Pow2(a) <= Pow2(b)
  {
    if a < b {
      Pow2Monotonic(a, b - 1);
    }
  }
}
