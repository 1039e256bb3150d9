/** Powers of two as the buddy system uses them: slot sizes, alignment and rounding. */
module PowersOfTwo {

  /** The power of two with exponent n. */
  function Pow2(n: nat): (p: nat)
    ensures p >= 1
  {
    if n == 0 then 1 else 2 * Pow2(n - 1)
  }

  predicate IsPow2(s: nat) {
    s == 1 || (s > 1 && s % 2 == 0 && IsPow2(s / 2))
  }

  /** The smallest power of two that is at least n (see RoundUpIsLeast). */
  function RoundUp(n: nat): (p: nat)
    ensures IsPow2(p) && n <= p
    ensures n >= 1 ==> p < 2 * n
  {
    if n <= 1 then 1 else 2 * RoundUp((n + 1) / 2)
  }

  /** The largest power of two that is at most n. */
  function RoundDown(n: nat): (p: nat)
    requires n > 0
    ensures IsPow2(p) && p <= n < 2 * p
  {
    if n == 1 then 1 else 2 * RoundDown(n / 2)
  }

  lemma {:induction false} Pow2IsPow2(n: nat)
    ensures IsPow2(Pow2(n))
  {
    if n > 0 {
      Pow2IsPow2(n - 1);
    }
  }

  lemma {:induction false} Pow2Add(a: nat, b: nat)
    ensures Pow2(a + b) == Pow2(a) * Pow2(b)
  {
    if a > 0 {
      Pow2Add(a - 1, b);
      assert Pow2(a) * Pow2(b) == 2 * (Pow2(a - 1) * Pow2(b));
    }
  }

  lemma Pow2Of32() returns (w: nat)
    ensures w == 32 && Pow2(w) == 0x1_0000_0000
  {
    w := 32;
    assert Pow2(8) == 256;
    Pow2Add(8, 8);
    Pow2Add(16, 16);
  }

  /** A smaller power of two divides a larger one. */
  lemma {:induction false} SmallerDivides(a: nat, b: nat)
    requires IsPow2(a) && IsPow2(b) && a <= b
    ensures b % a == 0
  {
    if a == 1 {
      MultipleMod(b, 1);
    } else if a == b {
      MultipleMod(1, a);
    } else {
      SmallerDivides(a / 2, b / 2);
      DoublesDivide(a / 2, b / 2, a, b);
    }
  }

  lemma DoublesDivide(a: nat, b: nat, a2: nat, b2: nat)
    requires a > 0 && b % a == 0 && a2 == 2 * a && b2 == 2 * b
    ensures b2 % a2 == 0
  {
    var q := b / a;
    assert b == q * a;
    assert b2 == q * a2;
    MultipleMod(q, a2);
  }

  lemma MultipleMod(q: int, a: nat)
    requires a > 0
    ensures (q * a) % a == 0
  {
    assert (q * a) / a == q by {
      DivUnique(q * a, a, q, 0);
    }
  }

  lemma QuotientUnique(d: int, q: int, r: int, q': int, r': int)
    requires 0 <= r < d && 0 <= r' < d && q * d + r == q' * d + r'
    ensures q == q' && r == r'
  {
    if q > q' {
      MulAtLeast(q - q', d);
    } else if q < q' {
      MulAtLeast(q' - q, d);
    }
  }

  lemma MulAtLeast(k: int, d: int)
    requires k >= 1 && d >= 0
    ensures k * d >= d
  {
    assert (k - 1) * d >= 0;
  }

  lemma MulMonotone(i: int, k: int, d: int)
    requires i <= k && d >= 0
    ensures i * d <= k * d
  {
    assert (k - i) * d >= 0;
  }

  lemma DivUnique(x: int, d: int, q: int, r: int)
    requires d > 0 && 0 <= r < d && x == q * d + r
    ensures x / d == q && x % d == r
  {
    QuotientUnique(d, q, r, x / d, x % d);
  }

  /** Two powers of two that differ are at least a factor of two apart. */
  lemma {:induction false} Pow2Gap(a: nat, b: nat)
    requires IsPow2(a) && IsPow2(b) && a < b
    ensures 2 * a <= b
  {
    if a > 1 {
      Pow2Gap(a / 2, b / 2);
    }
  }

  /** The slot size n fits into without half of it fitting is unique, and it is RoundUp(n). */
  lemma RoundUpUnique(s: nat, n: nat)
    requires IsPow2(s) && n <= s < 2 * n
    ensures s == RoundUp(n)
  {
    var p := RoundUp(n);
    if s < p {
      Pow2Gap(s, p);
    } else if p < s {
      Pow2Gap(p, s);
    }
  }

  lemma RoundUpIsLeast(s: nat, n: nat)
    requires IsPow2(s) && 1 <= n <= s
    ensures RoundUp(n) <= s
  {
    if s < RoundUp(n) {
      Pow2Gap(s, RoundUp(n));
    }
  }

  /** Adding a multiple of d does not change the remainder. */
  lemma AddMultiple(x: int, m: int, d: nat)
    requires d > 0 && m % d == 0
    ensures (x + m) % d == x % d
  {
    DivUnique(x + m, d, x / d + m / d, x % d);
  }
}
