/** Bit patterns of the binary interchange formats (section 3.4 of IEEE 754-2019), as far as message lengths need
    them: writing a natural number as a pattern, and casting any pattern whatever to usize. */
module FloatBits {
  import opened Powers
  import opened Rounding

  const USIZE_MAX: nat := 0xFFFF_FFFF_FFFF_FFFF

  /** precision counts the implicit leading digit of the significand. */
  datatype Format = Format(precision: nat, exponentBits: nat, bias: nat) {
    ghost predicate Valid() {
      precision >= 2 && exponentBits >= 2 && bias == Pow2(exponentBits - 1) - 1
    }
  }

  const BINARY32 := Format(24, 8, 127)
  const BINARY64 := Format(53, 11, 1023)

  lemma FormatsAreValid()
    ensures BINARY32.Valid() && BINARY64.Valid()
    ensures Pow2(8) == 256 && Pow2(11) == 2048
  {
    Pow2Plus8(0);
    Pow2Plus8(2);
    Pow2Plus8(3);
    assert Pow2(8) == 2 * Pow2(7);
    assert Pow2(3) == 8 && Pow2(2) == 4 && Pow2(1) == 2;
  }

  /** n scaled so that its leading digit stands at the leading place of the significand. */
  function Significand(f: Format, n: nat): nat {
    var l := BitLen(n);
    if l <= f.precision then Shl(n, f.precision - l) else Shr(n, l - f.precision)
  }

  datatype Fields = Fields(negative: bool, exponent: nat, fraction: nat)

  function Unpack(f: Format, bits: nat): Fields
    requires f.precision >= 1
  {
    Fields(Shr(bits, f.precision - 1 + f.exponentBits) != 0,
           Low(Shr(bits, f.precision - 1), f.exponentBits),
           Low(bits, f.precision - 1))
  }

  /** The cast of a float to usize: fractions are truncated, NaN and negative numbers give 0, infinity and numbers
      beyond the range give the largest usize. */
  function Truncated(f: Format, v: Fields): (size: nat)
    requires f.precision >= 1
    ensures size <= USIZE_MAX
  {
    var unit := f.bias + f.precision - 1;
    var significand := Pow2(f.precision - 1) + v.fraction;
    if v.exponent + 1 == Pow2(f.exponentBits) then
      if v.fraction == 0 && !v.negative then USIZE_MAX else 0
    else if v.negative || v.exponent == 0 then 0
    else if v.exponent >= unit then Min(Shl(significand, v.exponent - unit), USIZE_MAX)
    else Min(Shr(significand, unit - v.exponent), USIZE_MAX)
  }

  function BitsToUsize(f: Format, bits: nat): (size: nat)
    requires f.precision >= 1
    ensures size <= USIZE_MAX
  {
    Truncated(f, Unpack(f, bits))
  }

  /** The fields of a number's pattern, as the format prescribes them. */
  function FieldsOf(f: Format, n: nat): Fields
    requires f.precision >= 1
  {
    if n == 0 then Fields(false, 0, 0)
    else Fields(false, BitLen(n) - 1 + f.bias, Low(Significand(f, n), f.precision - 1))
  }

  function BitsOf(f: Format, n: nat): nat
    requires f.precision >= 1
  {
    Shl(FieldsOf(f, n).exponent, f.precision - 1) + FieldsOf(f, n).fraction
  }

  lemma SmallHasNoHighDigits(n: nat, e: nat)
    requires n < Pow2(e)
    ensures Shr(n, e) == 0 && Low(n, e) == n
  {
    ShlZero(e);
    ShiftJoin(0, n, e);
  }

  lemma {:induction false} ShlZero(e: nat)
    ensures Shl(0, e) == 0
  {
    if e == 0 {
    } else {
      ShlZero(e - 1);
    }
  }

  /** A normalized significand starts with a one, and what follows it is its fraction. */
  lemma SignificandIsNormalized(f: Format, n: nat)
    requires f.Valid() && n > 0
    ensures Pow2(f.precision - 1) + Low(Significand(f, n), f.precision - 1) == Significand(f, n)
  {
    SignificandBounds(f, n);
    LeadingOne(Significand(f, n), f.precision - 1);
  }

  lemma LeadingOne(s: nat, e: nat)
    requires Pow2(e) <= s < 2 * Pow2(e)
    ensures Pow2(e) + Low(s, e) == s
  {
    ShiftJoin(1, s - Pow2(e), e);
  }

  lemma SignificandBounds(f: Format, n: nat)
    requires f.Valid() && n > 0
    ensures Pow2(f.precision - 1) <= Significand(f, n) < 2 * Pow2(f.precision - 1)
  {
    if BitLen(n) <= f.precision {
      ShiftedToLeadingPlace(n, BitLen(n), f.precision - BitLen(n));
    } else {
      LeadingDigits(n, f.precision);
    }
  }

  lemma ShiftedToLeadingPlace(n: nat, l: nat, e: nat)
    requires l > 0 && Pow2(l - 1) <= n < Pow2(l)
    ensures Pow2(l + e - 1) <= Shl(n, e) < 2 * Pow2(l + e - 1)
  {
    ShlMonotone(Pow2(l - 1), n, e);
    ShlMonotone(n, Pow2(l), e);
    Pow2Add(l - 1, e);
    Pow2Add(l, e);
  }

  /** The significand of a representable number, put back at its scale, is the number. */
  lemma SignificandRestores(f: Format, n: nat)
    requires f.Valid() && n > 0 && OddPart(n) < Pow2(f.precision)
    ensures BitLen(n) <= f.precision ==> Shr(Significand(f, n), f.precision - BitLen(n)) == n
    ensures BitLen(n) > f.precision ==> Shl(Significand(f, n), BitLen(n) - f.precision) == n
  {
    var p, l := f.precision, BitLen(n);
    if l <= p {
      ShiftJoin(n, 0, p - l);
    } else {
      RepresentableIffOddPart(n, p);
      var j := OnGrid(n, p, n);
      ShiftJoin(j, 0, l - p);
    }
  }

  /** A high field of w digits over a low field of e digits. */
  lemma PackedFields(high: nat, low: nat, e: nat, w: nat)
    requires high < Pow2(w) && low < Pow2(e)
    ensures Low(Shl(high, e) + low, e) == low
    ensures Low(Shr(Shl(high, e) + low, e), w) == high
    ensures Shl(high, e) + low < Pow2(e + w)
    ensures Shr(Shl(high, e) + low, e + w) == 0
  {
    ShiftJoin(high, low, e);
    SmallHasNoHighDigits(high, w);
    ShlMonotone(high, Pow2(w), e);
    Pow2Add(w, e);
    SmallHasNoHighDigits(Shl(high, e) + low, e + w);
  }

  /** The pattern written for a number has exactly the fields the format prescribes, and fits below the sign bit. */
  lemma PatternFields(f: Format, n: nat)
    requires f.Valid() && BitLen(n) + f.bias < Pow2(f.exponentBits)
    ensures Unpack(f, BitsOf(f, n)) == FieldsOf(f, n)
    ensures BitsOf(f, n) < Pow2(f.precision - 1 + f.exponentBits)
  {
    var v := FieldsOf(f, n);
    if n > 0 {
      ShiftSplit(Significand(f, n), f.precision - 1);
    }
    PackedFields(v.exponent, v.fraction, f.precision - 1, f.exponentBits);
  }

  /** Truncating a number written as (leading one + fraction) at the scale given by its length. */
  lemma TruncatedFinite(f: Format, n: nat, l: nat, fraction: nat, significand: nat)
    requires f.precision >= 1 && f.bias >= 1 && l > 0 && l + f.bias < Pow2(f.exponentBits)
    requires significand == Pow2(f.precision - 1) + fraction
    requires l <= f.precision ==> Shr(significand, f.precision - l) == n
    requires l > f.precision ==> Shl(significand, l - f.precision) == n
    ensures Truncated(f, Fields(false, l - 1 + f.bias, fraction)) == Min(n, USIZE_MAX)
  {
  }

  lemma FieldsRoundTrip(f: Format, n: nat)
    requires f.Valid() && OddPart(n) < Pow2(f.precision)
    requires BitLen(n) + f.bias < Pow2(f.exponentBits)
    ensures Truncated(f, FieldsOf(f, n)) == Min(n, USIZE_MAX)
  {
    if n > 0 { FieldsRoundTripPositive(f, n, BitLen(n), Low(Significand(f, n), f.precision - 1)); }
  }

  lemma FieldsRoundTripPositive(f: Format, n: nat, l: nat, fraction: nat)
    requires f.Valid() && n > 0 && OddPart(n) < Pow2(f.precision)
    requires l == BitLen(n) && l + f.bias < Pow2(f.exponentBits)
    requires fraction == Low(Significand(f, n), f.precision - 1)
    ensures Truncated(f, Fields(false, l - 1 + f.bias, fraction)) == Min(n, USIZE_MAX)
  {
    SignificandIsNormalized(f, n);
    SignificandRestores(f, n);
    TruncatedFinite(f, n, l, fraction, Significand(f, n));
  }

  /** Reading back the pattern of a representable number gives the number, or the largest usize beyond the range. */
  lemma PatternRoundTrip(f: Format, n: nat)
    requires f.Valid() && OddPart(n) < Pow2(f.precision)
    requires BitLen(n) + f.bias < Pow2(f.exponentBits)
    ensures BitsToUsize(f, BitsOf(f, n)) == Min(n, USIZE_MAX)
    ensures BitsOf(f, n) < Pow2(f.precision - 1 + f.exponentBits)
  {
    FieldsRoundTrip(f, n);
    PatternFields(f, n);
  }

  // ---------- what a pattern means ----------

  /** The pattern of a representable number is the format's own: the number is one point the fraction, scaled by the
      exponent less the bias. Both sides are multiplied by two to the power of the bias and the fraction's width. */
  lemma PatternMeans(f: Format, n: nat)
    requires f.Valid() && n > 0 && OddPart(n) < Pow2(f.precision)
    ensures var v := FieldsOf(f, n);
      !v.negative && Shl(n, f.bias + f.precision - 1) == Shl(Pow2(f.precision - 1) + v.fraction, v.exponent)
  {
    var p, l := f.precision, BitLen(n);
    SignificandIsNormalized(f, n);
    if l <= p {
      ShlShl(n, p - l, l - 1 + f.bias);
    } else {
      RepresentableIffOddPart(n, p);
      var j := OnGrid(n, p, n);
      ShiftJoin(j, 0, l - p);
      ShlShl(j, l - p, p - 1 + f.bias);
    }
  }

  /** The fields of any 32-bit word as a binary32 number: one sign bit, eight of the exponent, 23 of the fraction. */
  lemma SingleFields(bits: nat)
    requires bits < 0x1_0000_0000
    ensures Unpack(BINARY32, bits) == Fields(bits >= 0x8000_0000, bits / 0x80_0000 % 0x100, bits % 0x80_0000)
  {
    SplitAt23(bits);
    SplitAt8(Shr(bits, 23));
    ShiftSplit(bits, 31);
    Shl31(Shr(bits, 31));
    Pow2To32();
  }

  lemma SignificandPowers()
    ensures Pow2(23) == 0x80_0000 && Pow2(52) == 0x10_0000_0000_0000
  {
    assert Pow2(4) == 4 * Pow2(2) && Pow2(7) == 8 * Pow2(4) && Pow2(2) == 4;
    Pow2Plus8(7); Pow2Plus8(15);
    Pow2Plus8(4); Pow2Plus8(12); Pow2Plus8(20); Pow2Plus8(28); Pow2Plus8(36); Pow2Plus8(44);
  }

  lemma SplitAt23(bits: nat)
    ensures Shr(bits, 23) == bits / 0x80_0000 && Low(bits, 23) == bits % 0x80_0000
  {
    ShiftSplit(bits, 23);
    Shl23(Shr(bits, 23));
    SignificandPowers();
  }

  lemma SplitAt8(n: nat)
    ensures Low(n, 8) == n % 0x100
  {
    ShiftSplit(n, 8);
    Shl8(Shr(n, 8));
  }

  lemma Shl8(k: nat)
    ensures Shl(k, 8) == 0x100 * k && Pow2(8) == 0x100
  {
    ShlMultiplies(k, 8);
    Pow2Plus8(0);
  }

  lemma Shl23(k: nat)
    ensures Shl(k, 23) == 0x80_0000 * k
  {
    ShlMultiplies(k, 23);
    SignificandPowers();
  }

  lemma Shl31(k: nat)
    ensures Shl(k, 31) == 0x8000_0000 * k
  {
    ShlMultiplies(k, 31);
    Pow2To32();
  }

  /** The fields of any 64-bit word as a binary64 number: one sign bit, eleven of the exponent, 52 of the fraction. */
  lemma DoubleFields(bits: nat)
    requires bits < 0x1_0000_0000_0000_0000
    ensures Unpack(BINARY64, bits)
         == Fields(bits >= 0x8000_0000_0000_0000, bits / 0x10_0000_0000_0000 % 0x800, bits % 0x10_0000_0000_0000)
  {
    SplitAt52(bits);
    SplitAt11(Shr(bits, 52));
    ShiftSplit(bits, 63);
    Shl63(Shr(bits, 63));
    Pow2To64();
  }

  lemma SplitAt52(bits: nat)
    ensures Shr(bits, 52) == bits / 0x10_0000_0000_0000 && Low(bits, 52) == bits % 0x10_0000_0000_0000
  {
    ShiftSplit(bits, 52);
    Shl52(Shr(bits, 52));
    SignificandPowers();
  }

  lemma SplitAt11(n: nat)
    ensures Low(n, 11) == n % 0x800
  {
    ShiftSplit(n, 11);
    Shl11(Shr(n, 11));
  }

  lemma Shl11(k: nat)
    ensures Shl(k, 11) == 0x800 * k && Pow2(11) == 0x800
  {
    ShlMultiplies(k, 11);
    Pow2Plus8(3);
    assert Pow2(3) == 2 * Pow2(2) && Pow2(2) == 4;
  }

  lemma Shl52(k: nat)
    ensures Shl(k, 52) == 0x10_0000_0000_0000 * k
  {
    ShlMultiplies(k, 52);
    SignificandPowers();
  }

  lemma Shl63(k: nat)
    ensures Shl(k, 63) == 0x8000_0000_0000_0000 * k
  {
    ShlMultiplies(k, 63);
    Pow2To64();
  }

  /** The cast of any float to usize: the number truncated towards zero and kept within the range. Comparisons are with
      the number and the result both scaled as in PatternMeans. */
  lemma TruncatedMeans(f: Format, v: Fields)
    requires f.Valid() && v.exponent < Pow2(f.exponentBits) && v.fraction < Pow2(f.precision - 1)
    ensures var size := Truncated(f, v);
      var special, unit := v.exponent + 1 == Pow2(f.exponentBits), f.bias + f.precision - 1;
      && (v.negative ==> size == 0)
      && (special && v.fraction != 0 ==> size == 0)
      && (special && v.fraction == 0 && !v.negative ==> size == USIZE_MAX)
      && (!special && v.exponent == 0 ==> size == 0)
      && (!special && !v.negative && v.exponent > 0 ==>
            var number := Shl(Pow2(f.precision - 1) + v.fraction, v.exponent);
            && Shl(size, unit) <= number
            && (number < Shl(size + 1, unit) || size == USIZE_MAX))
  {
    var special, unit := v.exponent + 1 == Pow2(f.exponentBits), f.bias + f.precision - 1;
    if !special && !v.negative && v.exponent > 0 {
      TruncatedNormal(Pow2(f.precision - 1) + v.fraction, v.exponent, unit);
    }
  }

  lemma TruncatedNormal(significand: nat, e: nat, unit: nat)
    ensures var whole := if e >= unit then Shl(significand, e - unit) else Shr(significand, unit - e);
      && Shl(Min(whole, USIZE_MAX), unit) <= Shl(significand, e)
      && (Shl(significand, e) < Shl(Min(whole, USIZE_MAX) + 1, unit) || Min(whole, USIZE_MAX) == USIZE_MAX)
  {
    var whole := if e >= unit then Shl(significand, e - unit) else Shr(significand, unit - e);
    if e >= unit {
      ShlShl(significand, e - unit, unit);
      ShlMonotone(whole, whole + 1, unit);
    } else {
      ShiftSplit(significand, unit - e);
      ShlShl(whole, unit - e, e);
      ShlShl(whole + 1, unit - e, e);
      ShlPlus(whole, 1, unit - e);
      Pow2Add(0, unit - e);
      ShlMonotone(Shl(whole, unit - e), significand, e);
      ShlMonotone(significand, Shl(whole + 1, unit - e), e);
    }
    ShlMonotone(Min(whole, USIZE_MAX), whole, unit);
  }

  lemma PowerLength(k: nat)
    ensures BitLen(Pow2(k)) == k + 1
  {
    BitLenBounds(Pow2(k), k);
    Pow2Monotone(k, k + 1);
    BitLenBounds(Pow2(k), k + 1);
  }

  lemma PowerSignificand(f: Format, n: nat, k: nat)
    requires f.Valid() && n == Pow2(k) && BitLen(n) == k + 1
    ensures Significand(f, n) == Pow2(f.precision - 1)
  {
    PowerShifted(k, f.precision - 1);
  }

  lemma PowerShifted(k: nat, e: nat)
    ensures k <= e ==> Shl(Pow2(k), e - k) == Pow2(e)
    ensures k > e ==> Shr(Pow2(k), k - e) == Pow2(e)
  {
    if k <= e {
      Pow2Add(k, e - k);
    } else {
      Pow2Add(e, k - e);
      ShiftJoin(Pow2(e), 0, k - e);
    }
  }

  lemma PowerHasNoFraction(e: nat)
    ensures Low(Pow2(e), e) == 0
  {
    Pow2Add(0, e);
    ShiftJoin(1, 0, e);
  }

  lemma PowerFields(f: Format, n: nat, k: nat)
    requires f.Valid() && n > 0 && n == Pow2(k) && BitLen(n) == k + 1
    ensures FieldsOf(f, n) == Fields(false, k + f.bias, 0)
  {
    PowerSignificand(f, n, k);
    PowerHasNoFraction(f.precision - 1);
    FieldsFrom(f, n, k + 1, Pow2(f.precision - 1));
  }

  lemma FieldsFrom(f: Format, n: nat, l: nat, significand: nat)
    requires f.precision >= 1 && n > 0 && BitLen(n) == l && Significand(f, n) == significand
    ensures FieldsOf(f, n) == Fields(false, l - 1 + f.bias, Low(significand, f.precision - 1))
  {
  }

  lemma BitsOfFields(f: Format, n: nat, e: nat)
    requires f.precision >= 1 && FieldsOf(f, n) == Fields(false, e, 0)
    ensures BitsOf(f, n) == Shl(e, f.precision - 1)
  {
  }

  /** A power of two has no fraction, and its exponent is its own plus the bias. */
  lemma PowerPattern(f: Format, n: nat, k: nat)
    requires f.Valid() && n == Pow2(k)
    ensures BitsOf(f, n) == Shl(k + f.bias, f.precision - 1)
  {
    PowerLength(k);
    PowerFields(f, n, k);
    BitsOfFields(f, n, k + f.bias);
  }

  /** The same in the numbers of the two formats. */
  lemma PowerPatterns(k: nat)
    ensures BitsOf(BINARY32, Pow2(k)) == (127 + k) * 0x80_0000
    ensures BitsOf(BINARY64, Pow2(k)) == (1023 + k) * 0x10_0000_0000_0000
  {
    SinglePower(Pow2(k), k);
    DoublePower(Pow2(k), k);
  }

  lemma SinglePower(n: nat, k: nat)
    requires n == Pow2(k)
    ensures BitsOf(BINARY32, n) == (127 + k) * 0x80_0000
  {
    FormatsAreValid();
    PowerPattern(BINARY32, n, k);
    Shl23(k + 127);
  }

  lemma DoublePower(n: nat, k: nat)
    requires n == Pow2(k)
    ensures BitsOf(BINARY64, n) == (1023 + k) * 0x10_0000_0000_0000
  {
    FormatsAreValid();
    PowerPattern(BINARY64, n, k);
    Shl52(k + 1023);
  }
}
