/** nextLowerPowerOf2 by bit smearing, on unsigned numbers, and when it keeps its promise. */
module MathLib {
  import opened PowersOfTwo

  // ---------------------------------------------------------------- bits of a number

  predicate Bit(x: nat, i: nat) {
    if i == 0 then x % 2 == 1 else Bit(x / 2, i - 1)
  }

  /** The C operator | on unsigned operands. */
  function Or(a: nat, b: nat): nat
    decreases a
  {
    if a == 0 then b
    else 2 * Or(a / 2, b / 2) + if a % 2 == 1 || b % 2 == 1 then 1 else 0
  }

  /** The C operator >> on unsigned operands. */
  function Shr(x: nat, k: nat): nat {
    if k == 0 then x else Shr(x / 2, k - 1)
  }

  /** x | (x >> k) */
  function Fold(x: nat, k: nat): nat {
    Or(x, Shr(x, k))
  }

  function Smear(x: nat): nat {
    Fold(Fold(Fold(Fold(Fold(x, 1), 2), 4), 8), 16)
  }

  function NextLowerPowerOf2(totalMemory: nat): int {
    var x := Smear(totalMemory);
    x - Shr(x, 1)
  }

  /** Every w consecutive bits of x, from any position up to its highest set bit, contain a set bit. */
  ghost predicate CoveredBy(x: nat, w: nat) {
    forall i: nat :: Pow2(i) <= x ==> Shr(x, i) % Pow2(w) != 0
  }

  /** The same for w = 32, as a check one can make: a bit is smeared over 32 places by the five folds. */
  predicate Covered(x: nat) {
    x == 0 || (x % 0x1_0000_0000 != 0 && Covered(x / 2))
  }

  lemma {:induction false} CoveredIsCoveredBy(x: nat, w: nat)
    requires Pow2(w) == 0x1_0000_0000
    ensures Covered(x) <==> CoveredBy(x, w)
  {
    if x > 0 {
      CoveredIsCoveredBy(x / 2, w);
      if CoveredBy(x, w) {
        assert Pow2(0) <= x && Shr(x, 0) == x;
        forall i: nat | Pow2(i) <= x / 2 ensures Shr(x / 2, i) % Pow2(w) != 0 {
          assert Pow2(i + 1) <= x && Shr(x, i + 1) == Shr(x / 2, i);
        }
      }
      if x % 0x1_0000_0000 != 0 && CoveredBy(x / 2, w) {
        forall i: nat | Pow2(i) <= x ensures Shr(x, i) % Pow2(w) != 0 {
          if i > 0 {
            assert Pow2(i - 1) <= x / 2 && Shr(x, i) == Shr(x / 2, i - 1);
          }
        }
      }
    } else {
      forall i: nat ensures Pow2(i) > 0 {
      }
    }
  }

  lemma {:induction false} BitOr(a: nat, b: nat, i: nat)
    ensures Bit(Or(a, b), i) == (Bit(a, i) || Bit(b, i))
  {
    if a == 0 {
      ZeroHasNoBits(i);
    } else if i > 0 {
      BitOr(a / 2, b / 2, i - 1);
    }
  }

  lemma {:induction false} ZeroHasNoBits(i: nat)
    ensures !Bit(0, i)
  {
    if i > 0 {
      ZeroHasNoBits(i - 1);
    }
  }

  lemma {:induction false} BitShr(x: nat, k: nat, i: nat)
    ensures Bit(Shr(x, k), i) == Bit(x, i + k)
  {
    if k > 0 {
      BitShr(x / 2, k - 1, i);
    }
  }

  lemma {:induction false} ShrIsDivision(x: nat, k: nat)
    ensures Shr(x, k) == x / Pow2(k)
  {
    if k > 0 {
      ShrIsDivision(x / 2, k - 1);
      var p := Pow2(k - 1);
      var q, r := x / 2 / p, x / 2 % p;
      assert x == q * (2 * p) + (2 * r + x % 2) by {
        assert x == 2 * (x / 2) + x % 2 && x / 2 == p * q + r;
        assert 2 * (p * q) == q * (2 * p);
      }
      DivUnique(x, 2 * p, q, 2 * r + x % 2);
    }
  }

  // ---------------------------------------------------------------- what smearing does

  /** One of the w bits of x from position i upwards is set. */
  predicate Window(x: nat, i: nat, w: nat)
    decreases w
  {
    w > 0 && (Bit(x, i) || Window(x, i + 1, w - 1))
  }

  lemma {:induction false} WindowSplit(x: nat, i: nat, a: nat, b: nat)
    ensures Window(x, i, a + b) == (Window(x, i, a) || Window(x, i + a, b))
    decreases a
  {
    if a > 0 {
      WindowSplit(x, i + 1, a - 1, b);
    }
  }

  /** y has exactly the bits below which x has a set bit within w places. */
  ghost predicate Smears(x: nat, y: nat, w: nat) {
    forall i: nat :: Bit(y, i) == Window(x, i, w)
  }

  lemma FoldDoubles(x: nat, y: nat, w: nat)
    requires Smears(x, y, w)
    ensures Smears(x, Fold(y, w), 2 * w)
  {
    forall i: nat ensures Bit(Fold(y, w), i) == Window(x, i, 2 * w) {
      BitOr(y, Shr(y, w), i);
      BitShr(y, w, i);
      WindowSplit(x, i, w, w);
    }
  }

  lemma SmearReaches32(x: nat)
    ensures Smears(x, Smear(x), 32)
  {
    var y1 := Fold(x, 1);
    var y2 := Fold(y1, 2);
    var y4 := Fold(y2, 4);
    var y8 := Fold(y4, 8);
    assert Smears(x, x, 1) by {
      forall i: nat ensures Bit(x, i) == Window(x, i, 1) {
        assert !Window(x, i + 1, 0);
      }
    }
    FoldDoubles(x, x, 1);
    FoldDoubles(x, y1, 2);
    FoldDoubles(x, y2, 4);
    FoldDoubles(x, y4, 8);
    FoldDoubles(x, y8, 16);
  }

  // ---------------------------------------------------------------- numbers and their bits

  lemma {:induction false} NoHighBits(x: nat, m: nat, i: nat)
    requires x < Pow2(m) && m <= i
    ensures !Bit(x, i)
  {
    if m == 0 {
      ZeroHasNoBits(i);
    } else {
      NoHighBits(x / 2, m - 1, i - 1);
    }
  }

  lemma {:induction false} HighBitsZero(y: nat, m: nat)
    requires forall i: nat :: m <= i ==> !Bit(y, i)
    ensures y < Pow2(m)
    decreases y
  {
    if y > 0 {
      if m == 0 {
        forall i: nat ensures !Bit(y / 2, i) {
          assert !Bit(y, i + 1);
        }
        HighBitsZero(y / 2, 0);
        assert !Bit(y, 0);
      } else {
        forall i: nat | m - 1 <= i ensures !Bit(y / 2, i) {
          assert !Bit(y, i + 1);
        }
        HighBitsZero(y / 2, m - 1);
      }
    }
  }

  ghost predicate Ones(y: nat, m: nat) {
    forall i: nat :: i < m ==> Bit(y, i)
  }

  lemma OnesStep(y: nat, m: nat)
    requires m > 0
    ensures Ones(y, m) <==> y % 2 == 1 && Ones(y / 2, m - 1)
  {
    if Ones(y, m) {
      assert Bit(y, 0);
      forall i: nat | i < m - 1 ensures Bit(y / 2, i) {
        assert Bit(y, i + 1);
      }
    }
    if y % 2 == 1 && Ones(y / 2, m - 1) {
      forall i: nat | i < m ensures Bit(y, i) {
        if i > 0 {
          assert Bit(y / 2, i - 1);
        }
      }
    }
  }

  lemma {:induction false} AllOnes(y: nat, m: nat)
    requires y < Pow2(m)
    ensures y == Pow2(m) - 1 <==> Ones(y, m)
  {
    if m > 0 {
      AllOnes(y / 2, m - 1);
      OnesStep(y, m);
    }
  }

  lemma {:induction false} NoWindowAbove(x: nat, m: nat, i: nat, w: nat)
    requires x < Pow2(m) && m <= i
    ensures !Window(x, i, w)
    decreases w
  {
    if w > 0 {
      NoHighBits(x, m, i);
      NoWindowAbove(x, m, i + 1, w - 1);
    }
  }

  lemma {:induction false} EvenMod(z: nat, p: nat)
    requires p > 0
    ensures z % (2 * p) == 0 <==> z % 2 == 0 && (z / 2) % p == 0
  {
    var q, r := z / 2 / p, (z / 2) % p;
    assert z == q * (2 * p) + (2 * r + z % 2) by {
      assert z / 2 == p * q + r;
      assert 2 * (p * q) == q * (2 * p);
    }
    DivUnique(z, 2 * p, q, 2 * r + z % 2);
  }

  lemma {:induction false} WindowOfShift(x: nat, i: nat, w: nat)
    ensures Window(x, i, w) == Window(Shr(x, i), 0, w)
    decreases w
  {
    if w > 0 {
      BitShr(x, i, 0);
      WindowOfShift(x, i + 1, w - 1);
      WindowOfShift(Shr(x, i), 1, w - 1);
      ShrShr(x, i, 1);
    }
  }

  lemma {:induction false} ShrShr(x: nat, a: nat, b: nat)
    ensures Shr(Shr(x, a), b) == Shr(x, a + b)
  {
    if a > 0 {
      ShrShr(x / 2, a - 1, b);
    }
  }

  lemma {:induction false} WindowIsRemainder(z: nat, w: nat)
    ensures Window(z, 0, w) <==> z % Pow2(w) != 0
  {
    if w > 0 {
      EvenMod(z, Pow2(w - 1));
      WindowOfShift(z, 1, w - 1);
      assert Shr(z, 1) == z / 2;
      WindowIsRemainder(z / 2, w - 1);
    }
  }

  lemma {:induction false} HighestBit(x: nat) returns (n: nat)
    requires x > 0
    ensures Pow2(n) <= x < Pow2(n + 1)
  {
    if x == 1 {
      n := 0;
    } else {
      n := HighestBit(x / 2);
      n := n + 1;
    }
  }

  lemma {:induction false} Pow2Monotone(a: nat, b: nat)
    requires a <= b
    ensures Pow2(a) <= Pow2(b)
  {
    if a < b {
      Pow2Monotone(a, b - 1);
    }
  }

  lemma RoundDownUnique(r: nat, x: nat)
    requires IsPow2(r) && r <= x < 2 * r
    ensures r == RoundDown(x)
  {
    var s := RoundDown(x);
    if r < s {
      Pow2Gap(r, s);
    } else if s < r {
      Pow2Gap(s, r);
    }
  }

  ghost predicate Windows(x: nat, n: nat, w: nat) {
    forall i: nat :: i < n ==> Window(x, i, w)
  }

  lemma CoveredIsWindows(x: nat, n: nat, w: nat)
    requires Pow2(n) <= x < Pow2(n + 1)
    ensures CoveredBy(x, w) <==> Windows(x, n + 1, w)
  {
    forall i: nat
      ensures Shr(x, i) % Pow2(w) != 0 <==> Window(x, i, w)
      ensures Pow2(i) <= x <==> i < n + 1
    {
      WindowOfShift(x, i, w);
      WindowIsRemainder(Shr(x, i), w);
      if i <= n {
        Pow2Monotone(i, n);
      } else {
        Pow2Monotone(n + 1, i);
      }
    }
    if CoveredBy(x, w) {
      forall i: nat | i < n + 1 ensures Window(x, i, w) {
        assert Pow2(i) <= x;
        assert Shr(x, i) % Pow2(w) != 0;
      }
    }
  }

  /** A smear over w places leaves exactly ones below the highest bit, or a window had none. */
  lemma SmearedToOnes(x: nat, y: nat, n: nat, w: nat)
    requires Pow2(n) <= x < Pow2(n + 1) && Smears(x, y, w)
    ensures y < Pow2(n + 1)
    ensures CoveredBy(x, w) <==> y == Pow2(n + 1) - 1
  {
    forall i: nat | n + 1 <= i ensures !Bit(y, i) {
      NoWindowAbove(x, n + 1, i, w);
    }
    HighBitsZero(y, n + 1);
    AllOnes(y, n + 1);
    CoveredIsWindows(x, n, w);
    OnesAreWindows(x, y, n + 1, w);
  }

  lemma OnesAreWindows(x: nat, y: nat, n: nat, w: nat)
    requires Smears(x, y, w)
    ensures Ones(y, n) <==> Windows(x, n, w)
  {
    if Ones(y, n) {
      forall i: nat | i < n ensures Window(x, i, w) {
        assert Bit(y, i);
      }
    }
    if Windows(x, n, w) {
      forall i: nat | i < n ensures Bit(y, i) {
        assert Window(x, i, w);
      }
    }
  }

  lemma SmearedFloor(x: nat, y: nat, w: nat)
    requires x > 0 && Smears(x, y, w)
    ensures y - Shr(y, 1) == RoundDown(x) <==> CoveredBy(x, w)
  {
    var n := HighestBit(x);
    SmearedToOnes(x, y, n, w);
    assert Shr(y, 1) == y / 2;
    Pow2IsPow2(n);
    RoundDownUnique(Pow2(n), x);
  }

  /** Exactly when nextLowerPowerOf2 returns the largest power of two that is at most its argument. */
  lemma RoundsDownIffCovered(x: nat)
    requires x > 0
    ensures NextLowerPowerOf2(x) == RoundDown(x) <==> Covered(x)
  {
    var w := Pow2Of32();
    SmearReaches32(x);
    SmearedFloor(x, Smear(x), w);
    CoveredIsCoveredBy(x, w);
  }

  /** Whether it is a power of two or not, the result is positive and at most the argument. */
  lemma LowerIsPart(x: nat)
    requires x > 0
    ensures 0 < NextLowerPowerOf2(x) <= x
  {
    var n := HighestBit(x);
    var y := Smear(x);
    SmearReaches32(x);
    SmearedToOnes(x, y, n, 32);
    HalfAtMost(y);
    TopBit(x, n);
    assert Window(x, n, 32);
    if y == 0 {
      ZeroHasNoBits(n);
    }
  }

  lemma {:induction false} TopBit(x: nat, n: nat)
    requires Pow2(n) <= x < Pow2(n + 1)
    ensures Bit(x, n)
  {
    if n > 0 {
      TopBit(x / 2, n - 1);
    }
  }

  /** The size startBuddySystem gives to a region of x > 0 bytes. */
  function Piece(x: nat): (p: nat)
    requires x > 0
    ensures 0 < p <= x
  {
    LowerIsPart(x);
    NextLowerPowerOf2(x)
  }

  lemma PieceIsRoundDownIff(x: nat)
    requires x > 0
    ensures Piece(x) == RoundDown(x) <==> Covered(x)
  {
    RoundsDownIffCovered(x);
  }

  /** The same computation for callers that only need its result; x = 0 gives 0. */
  method LowerPowerOf2(totalMemory: nat) returns (r: nat)
    ensures r == if totalMemory == 0 then 0 else Piece(totalMemory)
  {
    var x := Smear(totalMemory);
    HalfAtMost(x);
    r := x - Shr(x, 1);
  }

  lemma HalfAtMost(x: nat)
    ensures Shr(x, 1) == x / 2 && x - Shr(x, 1) >= 0
  {
    assert Shr(x / 2, 0) == x / 2;
  }

  lemma CoveredBelow(x: nat, w: nat)
    requires 0 < x < Pow2(w)
    ensures CoveredBy(x, w)
  {
    forall i: nat | Pow2(i) <= x ensures Shr(x, i) % Pow2(w) != 0 {
      ShrIsDivision(x, i);
      QuotientPositive(x, Pow2(i));
      DivUnique(Shr(x, i), Pow2(w), 0, Shr(x, i));
    }
  }

  /** Below 2^32 the promise always holds. */
  lemma RoundsDownBelow32(x: nat)
    requires 0 < x < 0x1_0000_0000
    ensures NextLowerPowerOf2(x) == RoundDown(x)
  {
    var w := Pow2Of32();
    CoveredBelow(x, w);
    CoveredIsCoveredBy(x, w);
    RoundsDownIffCovered(x);
  }

  lemma QuotientPositive(x: nat, p: nat)
    requires 0 < p <= x
    ensures 1 <= x / p <= x
  {
    DivMulBound(x, p);
  }

  lemma DivMulBound(x: nat, p: nat)
    requires p > 0
    ensures x / p <= x
    ensures p <= x ==> x / p >= 1
  {
    var q := x / p;
    assert x == q * p + x % p;
    MulMonotone(1, p, q);
    assert q * 1 <= q * p;
    if q <= 0 {
      MulMonotone(q, 0, p);
    }
  }

  /** It fails for every argument whose lowest 32 bits are all zero, such as 2^32. */
  lemma FailsOnZeroLowWord(x: nat)
    requires x > 0 && x % 0x1_0000_0000 == 0
    ensures NextLowerPowerOf2(x) != RoundDown(x)
  {
    RoundsDownIffCovered(x);
  }

  // ---------------------------------------------------------------- what is left after one region

  /** Taking the highest power of two away keeps the number within the reach of the smear. */
  lemma CoveredRest(x: nat)
    requires x > 0 && Covered(x)
    ensures Covered(x - RoundDown(x))
  {
    var n := HighestBit(x);
    Pow2IsPow2(n);
    RoundDownUnique(Pow2(n), x);
    var w := Pow2Of32();
    CoveredIsCoveredBy(x, w);
    RestCoveredBy(x, x - RoundDown(x), n, w);
    CoveredIsCoveredBy(x - RoundDown(x), w);
  }

  lemma RestCoveredBy(x: nat, x': nat, n: nat, w: nat)
    requires CoveredBy(x, w) && x == Pow2(n) + x' && x' < Pow2(n)
    ensures CoveredBy(x', w)
  {
    forall i: nat | Pow2(i) <= x' ensures Shr(x', i) % Pow2(w) != 0 {
      if i < n {
        assert Shr(x, i) % Pow2(w) != 0;
        RestAt(x, x', n, i, w);
      } else {
        Pow2Monotone(n, i);
      }
    }
  }

  lemma ShiftedRest(x: nat, x': nat, n: nat, i: nat)
    requires x == Pow2(n) + x' && i < n && Pow2(i) <= x' < Pow2(n)
    ensures Shr(x, i) == Shr(x', i) + Pow2(n - i)
    ensures 1 <= Shr(x', i) < Pow2(n - i)
  {
    Pow2Add(i, n - i);
    ShrIsDivision(x, i);
    ShrIsDivision(x', i);
    QuotientOfSum(x', Pow2(i), Pow2(n - i));
    QuotientPositive(x', Pow2(i));
  }

  lemma RestAt(x: nat, x': nat, n: nat, i: nat, w: nat)
    requires x == Pow2(n) + x' && i < n && Pow2(i) <= x' < Pow2(n)
    ensures Shr(x, i) % Pow2(w) != 0 ==> Shr(x', i) % Pow2(w) != 0
  {
    ShiftedRest(x, x', n, i);
    if n - i >= w {
      Pow2Multiple(n - i, w);
      AddMultiple(Shr(x', i), Pow2(n - i), Pow2(w));
    } else {
      Pow2Monotone(n - i, w);
      DivUnique(Shr(x', i), Pow2(w), 0, Shr(x', i));
    }
  }

  lemma Pow2Multiple(a: nat, w: nat)
    requires w <= a
    ensures Pow2(a) % Pow2(w) == 0
  {
    Pow2Add(a - w, w);
    MultipleMod(Pow2(a - w), Pow2(w));
  }

  lemma QuotientOfSum(x: nat, p: nat, q: nat)
    requires p > 0
    ensures (p * q + x) / p == x / p + q
    ensures x < p * q ==> x / p < q
  {
    var d, m := x / p, x % p;
    assert x == d * p + m;
    assert p * q + x == (d + q) * p + m;
    DivUnique(p * q + x, p, d + q, m);
    if d >= q {
      MulMonotone(q, d, p);
    }
  }
}
