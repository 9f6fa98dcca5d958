/** Shifts, powers of two and bit lengths: the arithmetic under the length header.
    Everything is stated through doubling and halving, so that no product of two variables arises. */
module Powers {

  /** k shifted left by e binary places: k times two to the power e. */
  function Shl(k: nat, e: nat): nat {
    if e == 0 then k else 2 * Shl(k, e - 1)
  }

  /** n shifted right by e binary places. */
  function Shr(n: nat, e: nat): nat {
    if e == 0 then n else Shr(n / 2, e - 1)
  }

  /** The e low binary digits of n. */
  function Low(n: nat, e: nat): nat {
    if e == 0 then 0 else n % 2 + 2 * Low(n / 2, e - 1)
  }

  function Pow2(e: nat): (r: nat)
    ensures r >= 1
  {
    if e == 0 then 1 else 2 * Pow2(e - 1)
  }

  /** Number of binary digits of n; zero has none. */
  function BitLen(n: nat): (l: nat)
    ensures n == 0 <==> l == 0
    ensures n < Pow2(l)
    ensures n > 0 ==> Pow2(l - 1) <= n
  {
    if n == 0 then 0 else 1 + BitLen(n / 2)
  }

  function Min(a: int, b: int): int {
    if a <= b then a else b
  }

  lemma {:induction false} ShlShl(k: nat, a: nat, b: nat)
    ensures Shl(Shl(k, a), b) == Shl(k, a + b)
  {
    if b == 0 {
    } else {
      ShlShl(k, a, b - 1);
    }
  }

  lemma {:induction false} ShlPlus(a: nat, b: nat, e: nat)
    ensures Shl(a + b, e) == Shl(a, e) + Shl(b, e)
  {
    if e == 0 {
    } else {
      ShlPlus(a, b, e - 1);
    }
  }

  lemma {:induction false} ShlMonotone(a: nat, b: nat, e: nat)
    requires a <= b
    ensures Shl(a, e) <= Shl(b, e)
    ensures a < b ==> Shl(a, e) + Pow2(e) <= Shl(b, e)
  {
    if e == 0 {
    } else {
      ShlMonotone(a, b, e - 1);
    }
  }

  lemma {:induction false} Pow2Monotone(a: nat, b: nat)
    requires a <= b
    ensures Pow2(a) <= Pow2(b)
    ensures a < b ==> 2 * Pow2(a) <= Pow2(b)
  {
    if a == b {
    } else {
      Pow2Monotone(a, b - 1);
    }
  }

  /** A number is its high digits shifted back plus its low digits. */
  lemma {:induction false} ShiftSplit(n: nat, e: nat)
    ensures n == Shl(Shr(n, e), e) + Low(n, e)
    ensures Low(n, e) < Pow2(e)
  {
    if e == 0 {
    } else {
      ShiftSplit(n / 2, e - 1);
    }
  }

  /** The split into high and low digits is unique. */
  lemma {:induction false} ShiftJoin(h: nat, l: nat, e: nat)
    requires l < Pow2(e)
    ensures Shr(Shl(h, e) + l, e) == h
    ensures Low(Shl(h, e) + l, e) == l
  {
    if e == 0 {
    } else {
      ShiftJoin(h, l / 2, e - 1);
      assert (Shl(h, e) + l) / 2 == Shl(h, e - 1) + l / 2;
    }
  }

  lemma BitLenBounds(n: nat, k: nat)
    ensures n < Pow2(k) ==> BitLen(n) <= k
    ensures n >= Pow2(k) ==> BitLen(n) > k
  {
    var l := BitLen(n);
    if l <= k { Pow2Monotone(l, k); } else { Pow2Monotone(k, l - 1); }
  }

  lemma {:induction false} Pow2Add(a: nat, b: nat)
    ensures Pow2(a + b) == Shl(Pow2(a), b)
  {
    if b == 0 {
    } else {
      Pow2Add(a, b - 1);
    }
  }

  lemma Pow2Plus8(e: nat)
    ensures Pow2(e + 8) == 256 * Pow2(e)
  {
    assert Pow2(e + 2) == 4 * Pow2(e);
    assert Pow2(e + 4) == 4 * Pow2(e + 2);
    assert Pow2(e + 6) == 4 * Pow2(e + 4);
    assert Pow2(e + 8) == 4 * Pow2(e + 6);
  }

  /** Shifting is multiplying by the power of two. */
  lemma {:induction false} ShlMultiplies(k: nat, e: nat)
    ensures Shl(k, e) == k * Pow2(e)
  {
    if e == 0 {
    } else {
      ShlMultiplies(k, e - 1);
    }
  }

  /** The powers that occur as literal bounds of the integer types. */
  lemma Pow2Literals()
    ensures Pow2(7) == 0x80 && Pow2(8) == 0x100
    ensures Pow2(15) == 0x8000 && Pow2(16) == 0x1_0000
    ensures Pow2(31) == 0x8000_0000 && Pow2(32) == 0x1_0000_0000
    ensures Pow2(63) == 0x8000_0000_0000_0000 && Pow2(64) == 0x1_0000_0000_0000_0000
    ensures Pow2(128) == 0x1_0000_0000_0000_0000_0000_0000_0000_0000
  {
    Pow2Plus8(0); Pow2Plus8(8);
    Pow2To64();
    Pow2To128();
    assert Pow2(8) == 2 * Pow2(7) && Pow2(16) == 2 * Pow2(15);
  }

  lemma Pow2To64()
    ensures Pow2(31) == 0x8000_0000 && Pow2(32) == 0x1_0000_0000
    ensures Pow2(63) == 0x8000_0000_0000_0000 && Pow2(64) == 0x1_0000_0000_0000_0000
  {
    Pow2To32();
    Pow2Plus8(32); Pow2Plus8(40); Pow2Plus8(48); Pow2Plus8(56);
    assert Pow2(64) == 2 * Pow2(63);
  }

  lemma Pow2To32()
    ensures Pow2(31) == 0x8000_0000 && Pow2(32) == 0x1_0000_0000
  {
    Pow2Plus8(0); Pow2Plus8(8); Pow2Plus8(16); Pow2Plus8(24);
    assert Pow2(32) == 2 * Pow2(31);
  }

  lemma Pow2To128()
    ensures Pow2(128) == 0x1_0000_0000_0000_0000_0000_0000_0000_0000
  {
    Pow2To64();
    Pow2Plus8(64); Pow2Plus8(72); Pow2Plus8(80); Pow2Plus8(88);
    Pow2Plus8(96); Pow2Plus8(104); Pow2Plus8(112); Pow2Plus8(120);
  }
}
