/** Rounding a natural number to a binary significand of p digits, as the cast from usize to a floating-point
    type does it: round to nearest, ties to even (section 4.3.1 of IEEE 754-2019). */
module Rounding {
  import opened Powers

  /** How many low digits of n do not fit in p significant digits. */
  function Excess(n: nat, p: nat): nat {
    if BitLen(n) <= p then 0 else BitLen(n) - p
  }

  /** The significand kept for n: its p leading digits, rounded up when the digits cut off are more than half a
      unit, or exactly half a unit and the last digit kept is odd. */
  function Kept(n: nat, p: nat): nat {
    var e := Excess(n, p);
    var q, r := Shr(n, e), Low(n, e);
    if 2 * r > Pow2(e) || (2 * r == Pow2(e) && q % 2 == 1) then q + 1 else q
  }

  function RoundTiesToEven(n: nat, p: nat): nat {
    Shl(Kept(n, p), Excess(n, p))
  }

  function Distance(a: nat, b: nat): nat {
    if a <= b then b - a else a - b
  }

  /** The largest odd divisor; zero for zero. */
  function OddPart(n: nat): (o: nat)
    ensures o <= n
  {
    if n == 0 || n % 2 == 1 then n else OddPart(n / 2)
  }

  /** A p-digit significand times a power of two. */
  ghost predicate Representable(n: nat, p: nat) {
    exists k: nat, e: nat :: k < Pow2(p) && n == Shl(k, e)
  }

  lemma {:induction false} OddPartShl(k: nat, e: nat)
    ensures OddPart(Shl(k, e)) == OddPart(k)
  {
    if e == 0 {
    } else {
      OddPartShl(k, e - 1);
    }
  }

  lemma {:induction false} SplitOddPart(n: nat) returns (e: nat)
    ensures n == Shl(OddPart(n), e)
  {
    if n == 0 || n % 2 == 1 {
      e := 0;
    } else {
      var e' := SplitOddPart(n / 2);
      e := e' + 1;
    }
  }

  /** Being representable is a bound on the odd part alone. */
  lemma RepresentableIffOddPart(n: nat, p: nat)
    ensures Representable(n, p) <==> OddPart(n) < Pow2(p)
  {
    if Representable(n, p) {
      var k: nat, e: nat :| k < Pow2(p) && n == Shl(k, e);
      OddPartShl(k, e);
    }
    if OddPart(n) < Pow2(p) {
      var e := SplitOddPart(n);
    }
  }

  /** From the leading digit of n upwards, representable numbers have no digits below the last one kept for n. */
  lemma OnGrid(n: nat, p: nat, m: nat) returns (j: nat)
    requires Representable(m, p) && BitLen(n) > p
    requires m >= Pow2(BitLen(n) - 1)
    ensures m == Shl(j, Excess(n, p))
  {
    var k: nat, e: nat :| k < Pow2(p) && m == Shl(k, e);
    var g := BitLen(n) - p;
    if e < g {
      ShlMonotone(k, Pow2(p), e);
      Pow2Add(p, e);
      Pow2Monotone(p + e, BitLen(n) - 1);
      assert false;
    }
    j := Shl(k, e - g);
    ShlShl(k, e - g, g);
  }

  /** The p leading digits of n as a number, and their scale. */
  lemma LeadingDigits(n: nat, p: nat)
    requires p >= 1 && BitLen(n) > p
    ensures Pow2(p - 1) <= Shr(n, Excess(n, p)) < Pow2(p)
    ensures Shl(Pow2(p - 1), Excess(n, p)) == Pow2(BitLen(n) - 1)
    ensures Shl(Pow2(p), Excess(n, p)) == Pow2(BitLen(n))
  {
    var e := Excess(n, p);
    var q := Shr(n, e);
    ShiftSplit(n, e);
    Pow2Add(p - 1, e);
    Pow2Add(p, e);
    if q < Pow2(p - 1) { ShlMonotone(q, Pow2(p - 1), e); }
    if q >= Pow2(p) { ShlMonotone(Pow2(p), q, e); }
  }

  /** Rounding keeps the binary order of magnitude, up to a carry to the next power of two. */
  lemma RoundBounds(n: nat, p: nat)
    requires p >= 1 && n > 0
    ensures Pow2(BitLen(n) - 1) <= RoundTiesToEven(n, p) <= Pow2(BitLen(n))
  {
    if BitLen(n) > p {
      LeadingDigits(n, p);
      ShlMonotone(Pow2(p - 1), Kept(n, p), Excess(n, p));
      ShlMonotone(Kept(n, p), Pow2(p), Excess(n, p));
    }
  }

  lemma RoundedIsRepresentable(n: nat, p: nat)
    requires p >= 1
    ensures Representable(RoundTiesToEven(n, p), p)
  {
    var k, e := Kept(n, p), Excess(n, p);
    if BitLen(n) <= p {
      Pow2Monotone(BitLen(n), p);
      assert k == n;
    } else {
      LeadingDigits(n, p);
      if k == Pow2(p) {
        Pow2Monotone(1, p);
        Pow2Add(0, BitLen(n));
        assert RoundTiesToEven(n, p) == Shl(1, BitLen(n));
      }
    }
  }

  /** Where n lies between the two multiples of the last place around it, and which of them it is rounded to. */
  lemma RoundedNeighbour(n: nat, p: nat) returns (below: nat, unit: nat)
    ensures below == Shl(Shr(n, Excess(n, p)), Excess(n, p)) && unit == Pow2(Excess(n, p))
    ensures Shl(Shr(n, Excess(n, p)) + 1, Excess(n, p)) == below + unit
    ensures below <= n < below + unit
    ensures 2 * (n - below) < unit ==> RoundTiesToEven(n, p) == below
    ensures 2 * (n - below) > unit ==> RoundTiesToEven(n, p) == below + unit
    ensures 2 * (n - below) == unit ==> Kept(n, p) % 2 == 0
    ensures RoundTiesToEven(n, p) == below || RoundTiesToEven(n, p) == below + unit
  {
    var e := Excess(n, p);
    below, unit := Shl(Shr(n, e), e), Pow2(e);
    ShiftSplit(n, e);
    NextMultiple(Shr(n, e), e);
  }

  lemma NextMultiple(q: nat, e: nat)
    ensures Shl(q + 1, e) == Shl(q, e) + Pow2(e)
  {
    ShlPlus(q, 1, e);
    Pow2Add(0, e);
  }

  /** A representable number is never strictly between the two multiples of the last place around n. */
  lemma NothingBetween(n: nat, p: nat, m: nat)
    requires p >= 1 && Representable(m, p) && BitLen(n) > p
    ensures m <= Shl(Shr(n, Excess(n, p)), Excess(n, p)) || m >= Shl(Shr(n, Excess(n, p)) + 1, Excess(n, p))
  {
    var e := Excess(n, p);
    var q := Shr(n, e);
    LeadingDigits(n, p);
    ShlMonotone(Pow2(p - 1), q, e);
    if m >= Pow2(BitLen(n) - 1) {
      var j := OnGrid(n, p, m);
      if j <= q { ShlMonotone(j, q, e); } else { ShlMonotone(q + 1, j, e); }
    }
  }

  /** No representable number is nearer to n than the rounded one; when another one is equally near, the rounded one
      is the one whose last digit is even. */
  lemma RoundsToNearestTiesToEven(n: nat, p: nat, m: nat)
    requires p >= 1 && Representable(m, p)
    ensures Distance(RoundTiesToEven(n, p), n) <= Distance(m, n)
    ensures Distance(RoundTiesToEven(n, p), n) == Distance(m, n) && m != RoundTiesToEven(n, p) ==> Kept(n, p) % 2 == 0
  {
    var below, unit := RoundedNeighbour(n, p);
    if BitLen(n) > p {
      NothingBetween(n, p, m);
    } else {
      assert Kept(n, p) == n;
    }
  }

  /** A number survives rounding to p digits exactly when its odd part has at most p digits. */
  lemma RoundExactIff(n: nat, p: nat)
    requires p >= 1
    ensures RoundTiesToEven(n, p) == n <==> OddPart(n) < Pow2(p)
  {
    RepresentableIffOddPart(n, p);
    RoundedIsRepresentable(n, p);
    if Representable(n, p) {
      RoundsToNearestTiesToEven(n, p, n);
    }
  }

  lemma ShortIsExact(n: nat, p: nat, k: nat)
    requires k <= p && n < Pow2(k)
    ensures RoundTiesToEven(n, p) == n
  {
    BitLenBounds(n, k);
    assert Kept(n, p) == n;
  }

  lemma RoundKeepsPower(n: nat, p: nat, k: nat)
    requires p >= 1 && n >= Pow2(k)
    ensures RoundTiesToEven(n, p) >= Pow2(k)
  {
    BitLenBounds(n, k);
    RoundBounds(n, p);
    Pow2Monotone(k, BitLen(n) - 1);
  }

  lemma PowerIsRepresentable(k: nat, p: nat)
    requires p >= 1
    ensures OddPart(Pow2(k)) < Pow2(p)
  {
    Pow2Add(0, k);
    OddPartShl(1, k);
    Pow2Monotone(1, p);
  }

  /** The number just below a high power of two rounds up to it. */
  lemma RoundJustBelow(n: nat, p: nat, k: nat)
    requires p >= 1 && k >= p + 2 && n + 1 == Pow2(k)
    ensures RoundTiesToEven(n, p) == n + 1
  {
    PowerIsRepresentable(k, p);
    RepresentableIffOddPart(n + 1, p);
    RoundsToNearestTiesToEven(n, p, n + 1);
    RoundedIsRepresentable(n, p);
    RepresentableIffOddPart(RoundTiesToEven(n, p), p);
    OddPartsBelowPower(n, p, k);
  }

  lemma OddPartsBelowPower(n: nat, p: nat, k: nat)
    requires k >= p + 2 && n + 1 == Pow2(k)
    ensures OddPart(n) >= Pow2(p) && n > 0 && OddPart(n - 1) >= Pow2(p)
  {
    Pow2Monotone(p, k - 2);
    assert Pow2(k) == 2 * Pow2(k - 1) && Pow2(k - 1) == 2 * Pow2(k - 2);
    assert (n - 1) / 2 == Pow2(k - 1) - 1;
  }

  /** Rounding twice, to ever fewer digits, is exact when rounding once to the fewer digits is. */
  lemma RoundTwiceExactIff(n: nat, p: nat, q: nat)
    requires 1 <= p <= q
    ensures RoundTiesToEven(RoundTiesToEven(n, q), p) == n <==> OddPart(n) < Pow2(p)
  {
    Pow2Monotone(p, q);
    RoundExactIff(n, q);
    RoundExactIff(n, p);
    RoundedIsRepresentable(RoundTiesToEven(n, q), p);
    RepresentableIffOddPart(RoundTiesToEven(RoundTiesToEven(n, q), p), p);
  }
}
