/** The length header in front of every message: which number each of the twelve header types carries, how it is
    laid out in bytes, and for which message lengths what is read back is what was meant. */
module LengthHeader {
  import opened Powers
  import opened Rounding
  import opened FloatBits
  import opened Bytes

  const I64_MAX: nat := 0x7FFF_FFFF_FFFF_FFFF
  /** No vector holds more bytes than this; asking for more panics. */
  const ISIZE_MAX: nat := I64_MAX

  const U128_RANGE: nat := 0x1_0000_0000_0000_0000_0000_0000_0000_0000
  const USIZE_RANGE: nat := 0x1_0000_0000_0000_0000

  type usize = n: nat | n <= USIZE_MAX
  type u8 = v: int | 0 <= v < 0x100
  type u16 = v: int | 0 <= v < 0x1_0000
  type u32 = v: int | 0 <= v < 0x1_0000_0000
  type u64 = v: int | 0 <= v < USIZE_RANGE
  type u128 = v: int | 0 <= v < U128_RANGE
  type i8 = v: int | -0x80 <= v < 0x80
  type i16 = v: int | -0x8000 <= v < 0x8000
  type i32 = v: int | -0x8000_0000 <= v < 0x8000_0000
  type i64 = v: int | -0x8000_0000_0000_0000 <= v < 0x8000_0000_0000_0000
  type i128 = v: int | -(U128_RANGE / 2) <= v < U128_RANGE / 2

  const TWO_TO_53: nat := 0x20_0000_0000_0000
  const TWO_TO_24: nat := 0x100_0000

  /** The values of f64 that a length can have: whole numbers with at most 53 significant digits. */
  type WholeDouble = n: nat | n <= USIZE_RANGE && OddPart(n) < TWO_TO_53
    witness 0

  datatype BytesOptions = U8 | U16 | U32 | U64 | U128 | I8 | I16 | I32 | I64 | I128 | F32 | F64

  /** F32 and F64 carry the bit pattern of the float. */
  datatype ReadValue =
    | U8(u8: u8) | U16(u16: u16) | U32(u32: u32) | U64(u64: u64) | U128(u128: u128)
    | I8(i8: i8) | I16(i16: i16) | I32(i32: i32) | I64(i64: i64) | I128(i128: i128)
    | F32(f32: u32) | F64(f64: u64)

  datatype Layout = Layout(bytes: BytesOptions, order: OrderOptions)

  function Width(bytes: BytesOptions): (w: nat)
    ensures w >= 1
  {
    match bytes
    case U8 | I8 => 1
    case U16 | I16 => 2
    case U32 | I32 | F32 => 4
    case U64 | I64 | F64 => 8
    case U128 | I128 => 16
  }

  /** The cast of a usize to f64. */
  function AsDouble(n: usize): WholeDouble {
    var number := RoundTiesToEven(n, 53);
    assert number <= USIZE_RANGE && OddPart(number) < TWO_TO_53 by { DoubleBounds(n); }
    number
  }

  lemma SignificandLiterals()
    ensures Pow2(53) == TWO_TO_53 && Pow2(24) == TWO_TO_24
  {
    Pow2Plus8(0); Pow2Plus8(8); Pow2Plus8(16);
    Pow2Plus8(5); Pow2Plus8(13); Pow2Plus8(21); Pow2Plus8(29); Pow2Plus8(37); Pow2Plus8(45);
    assert Pow2(5) == 32;
  }

  lemma DoubleBounds(n: usize)
    ensures RoundTiesToEven(n, 53) <= USIZE_RANGE
    ensures OddPart(RoundTiesToEven(n, 53)) < TWO_TO_53
  {
    SignificandLiterals();
    RoundedIsRepresentable(n, 53);
    RepresentableIffOddPart(RoundTiesToEven(n, 53), 53);
    Pow2To64();
    if n > 0 {
      RoundBounds(n, 53);
      BitLenBounds(n, 64);
      Pow2Monotone(BitLen(n), 64);
    } else {
      assert Kept(n, 53) == 0;
    }
  }

  /** The length as a float, cast to the header's type: integer casts saturate, and the narrower float rounds again. */
  function ValueFromNumber(number: WholeDouble, bytes: BytesOptions): (value: ReadValue) {
    match bytes
    case U8 => ReadValue.U8(Min(number, 0xFF))
    case U16 => ReadValue.U16(Min(number, 0xFFFF))
    case U32 => ReadValue.U32(Min(number, 0xFFFF_FFFF))
    case U64 => ReadValue.U64(Min(number, USIZE_MAX))
    case U128 => ReadValue.U128(number)
    case I8 => ReadValue.I8(Min(number, 0x7F))
    case I16 => ReadValue.I16(Min(number, 0x7FFF))
    case I32 => ReadValue.I32(Min(number, 0x7FFF_FFFF))
    case I64 => ReadValue.I64(Min(number, I64_MAX))
    case I128 => ReadValue.I128(number)
    case F32 =>
      assert BitsOf(BINARY32, RoundTiesToEven(number, 24)) < 0x1_0000_0000 by { SinglePattern(number); }
      ReadValue.F32(BitsOf(BINARY32, RoundTiesToEven(number, 24)))
    case F64 =>
      assert BitsOf(BINARY64, number) < USIZE_RANGE by { DoublePattern(number); }
      ReadValue.F64(BitsOf(BINARY64, number))
  }

  /** Casts to usize: wider integers lose their high bits, signed ones are sign-extended, floats are truncated. */
  function ReadValueToUsize(value: ReadValue): (size: usize) {
    match value
    case U8(v) => v
    case U16(v) => v
    case U32(v) => v
    case U64(v) => v
    case U128(v) => v % USIZE_RANGE
    case I8(v) => v % USIZE_RANGE
    case I16(v) => v % USIZE_RANGE
    case I32(v) => v % USIZE_RANGE
    case I64(v) => v % USIZE_RANGE
    case I128(v) => v % USIZE_RANGE
    case F32(bits) => BitsToUsize(BINARY32, bits)
    case F64(bits) => BitsToUsize(BINARY64, bits)
  }

  lemma WholeDoubleLength(number: WholeDouble, p: nat)
    requires p >= 1
    ensures BitLen(RoundTiesToEven(number, p)) <= 66
    ensures BitLen(number) <= 65
  {
    Pow2To64();
    assert Pow2(65) == 2 * Pow2(64);
    BitLenBounds(number, 65);
    if number > 0 {
      RoundBounds(number, p);
      Pow2Monotone(BitLen(number), 65);
      BitLenBounds(RoundTiesToEven(number, p), 66);
    } else {
      assert Kept(number, p) == 0;
    }
  }

  /** The pattern of a length as an f32, and what it reads back as. */
  lemma SinglePattern(number: WholeDouble)
    ensures BitsOf(BINARY32, RoundTiesToEven(number, 24)) < 0x1_0000_0000
    ensures BitsToUsize(BINARY32, BitsOf(BINARY32, RoundTiesToEven(number, 24)))
         == Min(RoundTiesToEven(number, 24), USIZE_MAX)
  {
    var single := RoundTiesToEven(number, 24);
    SignificandLiterals();
    FormatsAreValid();
    WholeDoubleLength(number, 24);
    RoundedIsRepresentable(number, 24);
    RepresentableIffOddPart(single, 24);
    PatternRoundTrip(BINARY32, single);
    Pow2To64();
  }

  lemma DoublePattern(number: WholeDouble)
    ensures BitsOf(BINARY64, number) < USIZE_RANGE
    ensures BitsToUsize(BINARY64, BitsOf(BINARY64, number)) == Min(number, USIZE_MAX)
  {
    SignificandLiterals();
    FormatsAreValid();
    WholeDoubleLength(number, 53);
    PatternRoundTrip(BINARY64, number);
    Pow2To64();
  }

  /** The bytes of a value as an unsigned number: two's complement for the signed types. */
  function Raw(value: ReadValue): nat {
    match value
    case U8(v) => v
    case U16(v) => v
    case U32(v) => v
    case U64(v) => v
    case U128(v) => v
    case I8(v) => v % 0x100
    case I16(v) => v % 0x1_0000
    case I32(v) => v % 0x1_0000_0000
    case I64(v) => v % USIZE_RANGE
    case I128(v) => v % U128_RANGE
    case F32(bits) => bits
    case F64(bits) => bits
  }

  function TypeOf(value: ReadValue): BytesOptions {
    match value
    case U8(_) => BytesOptions.U8
    case U16(_) => BytesOptions.U16
    case U32(_) => BytesOptions.U32
    case U64(_) => BytesOptions.U64
    case U128(_) => BytesOptions.U128
    case I8(_) => BytesOptions.I8
    case I16(_) => BytesOptions.I16
    case I32(_) => BytesOptions.I32
    case I64(_) => BytesOptions.I64
    case I128(_) => BytesOptions.I128
    case F32(_) => BytesOptions.F32
    case F64(_) => BytesOptions.F64
  }

  /** raw - range when the top bit is set, raw otherwise. */
  function TwosComplement(raw: nat, range: nat): int {
    if 2 * raw >= range then raw - range else raw
  }

  /** How many bit patterns a header of the given type has. */
  function Range(bytes: BytesOptions): nat {
    match bytes
    case U8 | I8 => 0x100
    case U16 | I16 => 0x1_0000
    case U32 | I32 | F32 => 0x1_0000_0000
    case U64 | I64 | F64 => USIZE_RANGE
    case U128 | I128 => U128_RANGE
  }

  lemma RangeOfWidth(bytes: BytesOptions)
    ensures Range(bytes) == Pow2(8 * Width(bytes))
  {
    Pow2Literals();
  }

  function FromRaw(bytes: BytesOptions, raw: nat): ReadValue
    requires raw < Range(bytes)
  {
    match bytes
    case U8 => ReadValue.U8(raw)
    case U16 => ReadValue.U16(raw)
    case U32 => ReadValue.U32(raw)
    case U64 => ReadValue.U64(raw)
    case U128 => ReadValue.U128(raw)
    case I8 => ReadValue.I8(TwosComplement(raw, 0x100))
    case I16 => ReadValue.I16(TwosComplement(raw, 0x1_0000))
    case I32 => ReadValue.I32(TwosComplement(raw, 0x1_0000_0000))
    case I64 => ReadValue.I64(TwosComplement(raw, USIZE_RANGE))
    case I128 => ReadValue.I128(TwosComplement(raw, U128_RANGE))
    case F32 => ReadValue.F32(raw)
    case F64 => ReadValue.F64(raw)
  }

  function EncodeValue(value: ReadValue, order: OrderOptions): (s: seq<Byte>)
    ensures |s| == Width(TypeOf(value))
  {
    ToBytes(Raw(value), Width(TypeOf(value)), order)
  }

  function DecodeValue(s: seq<Byte>, layout: Layout): ReadValue
    requires |s| == Width(layout.bytes)
  {
    BytesOnto(s, layout.order);
    RangeOfWidth(layout.bytes);
    FromRaw(layout.bytes, FromBytes(s, layout.order))
  }

  lemma RawRoundTrip(value: ReadValue)
    ensures Raw(value) < Range(TypeOf(value))
    ensures FromRaw(TypeOf(value), Raw(value)) == value
  {
  }

  /** Every value of every header type survives being written and read, in both byte orders. */
  lemma ValueRoundTrip(value: ReadValue, order: OrderOptions)
    ensures DecodeValue(EncodeValue(value, order), Layout(TypeOf(value), order)) == value
  {
    RawRoundTrip(value);
    RangeOfWidth(TypeOf(value));
    BytesRoundTrip(Raw(value), Width(TypeOf(value)), order);
  }

  /** Every byte string of the right width is the encoding of the value it decodes to. */
  lemma ValueOnto(s: seq<Byte>, layout: Layout)
    requires |s| == Width(layout.bytes)
    ensures TypeOf(DecodeValue(s, layout)) == layout.bytes
    ensures EncodeValue(DecodeValue(s, layout), layout.order) == s
  {
    BytesOnto(s, layout.order);
    RangeOfWidth(layout.bytes);
    RawOnto(layout.bytes, FromBytes(s, layout.order));
  }

  lemma RawOnto(bytes: BytesOptions, raw: nat)
    requires raw < Range(bytes)
    ensures TypeOf(FromRaw(bytes, raw)) == bytes && Raw(FromRaw(bytes, raw)) == raw
  {
  }

  /** The header written for a message of n bytes. */
  function Header(n: usize, layout: Layout): (s: seq<Byte>)
    ensures |s| == Width(layout.bytes)
  {
    EncodeValue(ValueFromNumber(AsDouble(n), layout.bytes), layout.order)
  }

  /** The message length a header announces. */
  function HeaderSize(s: seq<Byte>, layout: Layout): usize
    requires |s| == Width(layout.bytes)
  {
    ReadValueToUsize(DecodeValue(s, layout))
  }

  /** Which lengths a header type carries faithfully. Above the range of a narrow integer, and above its precision
      for the others, the length is lost; the largest number of a saturating type is a lucky exception. */
  predicate Exact(bytes: BytesOptions, n: usize) {
    match bytes
    case U8 => n <= 0xFF
    case U16 => n <= 0xFFFF
    case U32 => n <= 0xFFFF_FFFF
    case I8 => n <= 0x7F
    case I16 => n <= 0x7FFF
    case I32 => n <= 0x7FFF_FFFF
    case U64 | F64 => OddPart(n) < TWO_TO_53 || n == USIZE_MAX
    case I64 => (OddPart(n) < TWO_TO_53 && n <= I64_MAX) || n == I64_MAX
    case U128 | I128 => OddPart(n) < TWO_TO_53
    case F32 => OddPart(n) < TWO_TO_24 || n == USIZE_MAX
  }

  /** A saturating cast to a narrow integer keeps a length exactly when it is within the type's range. */
  lemma NarrowExact(n: usize, max: nat, k: nat)
    requires k <= 32 && max + 1 == Pow2(k)
    ensures Min(AsDouble(n), max) == n <==> n <= max
  {
    if n <= max {
      ShortIsExact(n, 53, k);
    } else {
      RoundKeepsPower(n, 53, k);
    }
  }

  /** The same for the 64-bit ranges, where the double has already lost digits. */
  lemma WideExact(n: usize, max: nat, k: nat)
    requires 55 <= k && max + 1 == Pow2(k)
    ensures Min(AsDouble(n), max) == n <==> (OddPart(n) < TWO_TO_53 && n <= max) || n == max
  {
    SignificandLiterals();
    RoundExactIff(n, 53);
    if n == max {
      RoundJustBelow(n, 53, k);
    }
  }

  lemma SingleExact(n: usize)
    ensures Min(RoundTiesToEven(AsDouble(n), 24), USIZE_MAX) == n <==> OddPart(n) < TWO_TO_24 || n == USIZE_MAX
  {
    SignificandLiterals();
    RoundTwiceExactIff(n, 24, 53);
    Pow2To64();
    if n == USIZE_MAX {
      RoundJustBelow(n, 53, 64);
      PowerIsRepresentable(64, 24);
      RoundExactIff(USIZE_RANGE, 24);
    }
  }

  /** The number a usize gets back through a header of the given type, in one formula. */
  function Carried(number: nat, bytes: BytesOptions): nat {
    match bytes
    case U8 => Min(number, 0xFF)
    case U16 => Min(number, 0xFFFF)
    case U32 => Min(number, 0xFFFF_FFFF)
    case I8 => Min(number, 0x7F)
    case I16 => Min(number, 0x7FFF)
    case I32 => Min(number, 0x7FFF_FFFF)
    case I64 => Min(number, I64_MAX)
    case U64 | F64 => Min(number, USIZE_MAX)
    case U128 | I128 => number % USIZE_RANGE
    case F32 => Min(RoundTiesToEven(number, 24), USIZE_MAX)
  }

  lemma CarriedNumber(number: WholeDouble, bytes: BytesOptions)
    ensures ReadValueToUsize(ValueFromNumber(number, bytes)) == Carried(number, bytes)
  {
    match bytes
    case U8 | U16 | U32 | I8 | I16 | I32 =>
    case U64 | I64 | U128 | I128 =>
    case F32 => SinglePattern(number);
    case F64 => DoublePattern(number);
  }

  lemma CarriedUnsigned(n: usize, bytes: BytesOptions)
    requires bytes.U8? || bytes.U16? || bytes.U32?
    ensures Carried(AsDouble(n), bytes) == n <==> Exact(bytes, n)
  {
    Pow2Literals();
    match bytes
    case U8 => NarrowExact(n, 0xFF, 8);
    case U16 => NarrowExact(n, 0xFFFF, 16);
    case U32 => NarrowExact(n, 0xFFFF_FFFF, 32);
  }

  lemma CarriedSigned(n: usize, bytes: BytesOptions)
    requires bytes.I8? || bytes.I16? || bytes.I32?
    ensures Carried(AsDouble(n), bytes) == n <==> Exact(bytes, n)
  {
    Pow2Literals();
    match bytes
    case I8 => NarrowExact(n, 0x7F, 7);
    case I16 => NarrowExact(n, 0x7FFF, 15);
    case I32 => NarrowExact(n, 0x7FFF_FFFF, 31);
  }

  lemma CarriedExact(n: usize, bytes: BytesOptions)
    ensures Carried(AsDouble(n), bytes) == n <==> Exact(bytes, n)
  {
    match bytes
    case U8 | U16 | U32 => CarriedUnsigned(n, bytes);
    case I8 | I16 | I32 => CarriedSigned(n, bytes);
    case U64 | F64 | I64 => CarriedWide(n, bytes);
    case U128 | I128 => CarriedLong(n);
    case F32 => SingleExact(n);
  }

  lemma CarriedLong(n: usize)
    ensures AsDouble(n) % USIZE_RANGE == n <==> OddPart(n) < TWO_TO_53
  {
    SignificandLiterals();
    RoundExactIff(n, 53);
    Reduced(AsDouble(n), n);
  }

  lemma Reduced(number: nat, n: usize)
    requires number <= USIZE_RANGE && (OddPart(n) < TWO_TO_53 ==> number == n)
    ensures number % USIZE_RANGE == n <==> number == n
  {
    if n == 0 {
      assert OddPart(n) == 0;
    }
  }

  lemma CarriedWide(n: usize, bytes: BytesOptions)
    requires bytes.U64? || bytes.F64? || bytes.I64?
    ensures Carried(AsDouble(n), bytes) == n <==> Exact(bytes, n)
  {
    Pow2To64();
    if bytes.I64? { WideExact(n, I64_MAX, 63); } else { WideExact(n, USIZE_MAX, 64); }
  }

  lemma HeaderCarries(n: usize, layout: Layout)
    ensures HeaderSize(Header(n, layout), layout) == Carried(AsDouble(n), layout.bytes)
  {
    NumberKeepsType(AsDouble(n), layout.bytes);
    ValueSize(ValueFromNumber(AsDouble(n), layout.bytes), layout.order);
    CarriedNumber(AsDouble(n), layout.bytes);
  }

  lemma NumberKeepsType(number: WholeDouble, bytes: BytesOptions)
    ensures TypeOf(ValueFromNumber(number, bytes)) == bytes
  {
  }

  lemma ValueSize(value: ReadValue, order: OrderOptions)
    ensures HeaderSize(EncodeValue(value, order), Layout(TypeOf(value), order)) == ReadValueToUsize(value)
  {
    ValueRoundTrip(value, order);
  }

  /** For every length a usize can hold, every header type and both byte orders: the length read back is the length
      meant exactly when the type carries it. */
  lemma HeaderExactness(n: usize, layout: Layout)
    ensures HeaderSize(Header(n, layout), layout) == n <==> Exact(layout.bytes, n)
  {
    HeaderCarries(n, layout);
    CarriedExact(n, layout.bytes);
  }

  // ---------- headers no vector can satisfy ----------

  /** The header types with a value that asks for more bytes than a vector can hold: all but the three unsigned types
      below 64 bits. */
  predicate CanBeRefused(bytes: BytesOptions) {
    !bytes.U8? && !bytes.U16? && !bytes.U32?
  }

  /** Such a header: minus one for the signed types up to 64 bits, 2^63 for the others. */
  function RefusedValue(bytes: BytesOptions): (value: ReadValue)
    requires CanBeRefused(bytes)
  {
    match bytes
    case I8 => ReadValue.I8(-1)
    case I16 => ReadValue.I16(-1)
    case I32 => ReadValue.I32(-1)
    case I64 => ReadValue.I64(-1)
    case U64 | U128 | I128 | F32 | F64 => ValueFromNumber(AsDouble(I64_MAX + 1), bytes)
  }

  lemma TwoTo63IsExact()
    ensures OddPart(I64_MAX + 1) == 1
  {
    Pow2To64();
    Pow2Add(0, 63);
    OddPartShl(1, 63);
  }

  lemma TwoTo63IsCarried(bytes: BytesOptions)
    requires CanBeRefused(bytes) && !bytes.I8? && !bytes.I16? && !bytes.I32? && !bytes.I64?
    ensures Carried(AsDouble(I64_MAX + 1), bytes) == I64_MAX + 1
  {
    TwoTo63IsExact();
    CarriedExact(I64_MAX + 1, bytes);
  }

  lemma RefusedValueIsRefused(bytes: BytesOptions)
    requires CanBeRefused(bytes)
    ensures TypeOf(RefusedValue(bytes)) == bytes
    ensures ReadValueToUsize(RefusedValue(bytes)) > ISIZE_MAX
  {
    match bytes
    case I8 | I16 | I32 | I64 =>
    case U64 | U128 | I128 | F32 | F64 =>
      var number := AsDouble(I64_MAX + 1);
      NumberKeepsType(number, bytes);
      CarriedNumber(number, bytes);
      TwoTo63IsCarried(bytes);
  }

  /** In both byte orders there is a header that makes the reader panic if and only if the type is one of these. */
  lemma RefusedHeaderIff(layout: Layout)
    ensures CanBeRefused(layout.bytes)
       <==> exists s: seq<Byte> :: |s| == Width(layout.bytes) && HeaderSize(s, layout) > ISIZE_MAX
  {
    if CanBeRefused(layout.bytes) {
      var value := RefusedValue(layout.bytes);
      RefusedValueIsRefused(layout.bytes);
      ValueRoundTrip(value, layout.order);
      assert HeaderSize(EncodeValue(value, layout.order), layout) > ISIZE_MAX;
    }
  }

  // ---------- what is on the wire ----------

  /** The largest length an integer header can hold. */
  function Largest(bytes: BytesOptions): nat
    requires !bytes.F32? && !bytes.F64?
  {
    match bytes
    case U8 => 0xFF
    case U16 => 0xFFFF
    case U32 => 0xFFFF_FFFF
    case U64 => USIZE_MAX
    case U128 => U128_RANGE - 1
    case I8 => 0x7F
    case I16 => 0x7FFF
    case I32 => 0x7FFF_FFFF
    case I64 => I64_MAX
    case I128 => U128_RANGE / 2 - 1
  }

  lemma RawLength(number: WholeDouble, bytes: BytesOptions)
    requires !bytes.F32? && !bytes.F64?
    ensures Raw(ValueFromNumber(number, bytes)) == Min(number, Largest(bytes))
  {
    match bytes
    case U8 | U16 | U32 | U64 | U128 =>
    case I8 | I16 | I32 | I64 | I128 =>
  }

  lemma BytesOfValue(value: ReadValue, order: OrderOptions)
    ensures FromBytes(EncodeValue(value, order), order) == Raw(value)
  {
    RawRoundTrip(value);
    RangeOfWidth(TypeOf(value));
    BytesRoundTrip(Raw(value), Width(TypeOf(value)), order);
  }

  /** An integer header is the length itself in the chosen byte order, saturated at the largest one of the type. */
  lemma IntegerHeaderBytes(n: usize, layout: Layout)
    requires !layout.bytes.F32? && !layout.bytes.F64?
    ensures FromBytes(Header(n, layout), layout.order) == Min(AsDouble(n), Largest(layout.bytes))
  {
    NumberKeepsType(AsDouble(n), layout.bytes);
    BytesOfValue(ValueFromNumber(AsDouble(n), layout.bytes), layout.order);
    RawLength(AsDouble(n), layout.bytes);
  }

  /** An F32 header is the length, rounded to 24 digits, in the interchange format: with bits / 2^23 the biased exponent
      and bits % 2^23 the fraction, the number is (1 + fraction / 2^23) * 2^(exponent - 127). The sign bit is clear. */
  lemma SingleHeaderBytes(n: usize, order: OrderOptions)
    requires n > 0
    ensures var bits := FromBytes(Header(n, Layout(BytesOptions.F32, order)), order);
      bits < 0x8000_0000
      && Shl(RoundTiesToEven(AsDouble(n), 24), 150) == Shl(0x80_0000 + bits % 0x80_0000, bits / 0x80_0000)
  {
    DoubleIsPositive(n);
    BytesOfValue(ValueFromNumber(AsDouble(n), BytesOptions.F32), order);
    SingleMeans(AsDouble(n));
  }

  /** And an F64 header is the length, rounded to 53 digits, with 52 and 1023 for 23 and 127. */
  lemma DoubleHeaderBytes(n: usize, order: OrderOptions)
    requires n > 0
    ensures var bits := FromBytes(Header(n, Layout(BytesOptions.F64, order)), order);
      && bits < 0x8000_0000_0000_0000
      && Shl(AsDouble(n), 1075) == Shl(0x10_0000_0000_0000 + bits % 0x10_0000_0000_0000, bits / 0x10_0000_0000_0000)
  {
    DoubleIsPositive(n);
    BytesOfValue(ValueFromNumber(AsDouble(n), BytesOptions.F64), order);
    DoubleMeans(AsDouble(n));
  }

  lemma DoubleIsPositive(n: usize)
    requires n > 0
    ensures AsDouble(n) > 0
  {
    RoundBounds(n, 53);
  }

  lemma SingleMeans(number: WholeDouble)
    requires number > 0
    ensures var single := RoundTiesToEven(number, 24); var bits := BitsOf(BINARY32, single);
      bits < 0x8000_0000 && Shl(single, 150) == Shl(0x80_0000 + bits % 0x80_0000, bits / 0x80_0000)
  {
    RoundBounds(number, 24);
    RoundedIsRepresentable(number, 24);
    RepresentableIffOddPart(RoundTiesToEven(number, 24), 24);
    WholeDoubleLength(number, 24);
    SinglePatternMeans(RoundTiesToEven(number, 24));
  }

  lemma SinglePatternMeans(single: nat)
    requires single > 0 && OddPart(single) < Pow2(24) && BitLen(single) <= 66
    ensures var bits := BitsOf(BINARY32, single);
      bits < 0x8000_0000 && Shl(single, 150) == Shl(0x80_0000 + bits % 0x80_0000, bits / 0x80_0000)
  {
    FormatsAreValid();
    PatternFields(BINARY32, single);
    PatternMeans(BINARY32, single);
    Pow2To32();
    SplitAt23(BitsOf(BINARY32, single));
    SignificandPowers();
    ExponentOf(BINARY32, single);
  }

  lemma DoubleMeans(number: WholeDouble)
    requires number > 0
    ensures var bits := BitsOf(BINARY64, number);
      bits < 0x8000_0000_0000_0000
      && Shl(number, 1075) == Shl(0x10_0000_0000_0000 + bits % 0x10_0000_0000_0000, bits / 0x10_0000_0000_0000)
  {
    SignificandLiterals();
    WholeDoubleLength(number, 53);
    FormatsAreValid();
    PatternFields(BINARY64, number);
    PatternMeans(BINARY64, number);
    Pow2To64();
    SplitAt52(BitsOf(BINARY64, number));
    SignificandPowers();
    ExponentOf(BINARY64, number);
  }

  /** Without the sign bit, what stands above the fraction is the exponent. */
  lemma ExponentOf(f: Format, n: nat)
    requires f.Valid() && n > 0
    ensures Shr(BitsOf(f, n), f.precision - 1) == FieldsOf(f, n).exponent
    ensures Low(BitsOf(f, n), f.precision - 1) == FieldsOf(f, n).fraction
  {
    ShiftSplit(Significand(f, n), f.precision - 1);
    ShiftJoin(FieldsOf(f, n).exponent, FieldsOf(f, n).fraction, f.precision - 1);
  }

  /** The empty message has an all-zero header in every type. */
  lemma EmptyHeader(layout: Layout)
    ensures FromBytes(Header(0, layout), layout.order) == 0
  {
    RoundZero(53);
    RawZero(layout.bytes);
    BytesOfValue(ValueFromNumber(0, layout.bytes), layout.order);
  }

  lemma RoundZero(p: nat)
    requires p >= 1
    ensures RoundTiesToEven(0, p) == 0
  {
    assert Kept(0, p) == 0 && Excess(0, p) == 0;
  }

  lemma RawZero(bytes: BytesOptions)
    ensures Raw(ValueFromNumber(0, bytes)) == 0
  {
    if bytes.F32? {
      SingleZeroRaw();
    } else if bytes.F64? {
      DoubleZeroRaw();
    } else {
      IntegerZeroRaw(bytes);
    }
  }

  lemma SingleZeroRaw()
    ensures Raw(ValueFromNumber(0, BytesOptions.F32)) == 0
  {
    SingleZero();
  }

  lemma DoubleZeroRaw()
    ensures Raw(ValueFromNumber(0, BytesOptions.F64)) == 0
  {
    ZeroPattern(BINARY64);
  }

  lemma IntegerZeroRaw(bytes: BytesOptions)
    requires !bytes.F32? && !bytes.F64?
    ensures Raw(ValueFromNumber(0, bytes)) == 0
  {
    RawLength(0, bytes);
  }

  lemma SingleZero()
    ensures BitsOf(BINARY32, RoundTiesToEven(0, 24)) == 0
  {
    RoundZero(24);
    ZeroPattern(BINARY32);
  }

  lemma ZeroPattern(f: Format)
    requires f.precision >= 1
    ensures BitsOf(f, 0) == 0
  {
    ShlZero(f.precision - 1);
  }

  /** The formats fill the words they are written in. */
  lemma FormatsFillWords()
    ensures BINARY32.precision + BINARY32.exponentBits == 8 * Width(BytesOptions.F32) == 32
    ensures BINARY64.precision + BINARY64.exponentBits == 8 * Width(BytesOptions.F64) == 64
  {
  }

  // ---------- what is read ----------

  /** An integer as read and cast: itself where it fits, sign-extended when negative, and only the low 64 digits of a
      longer one. */
  lemma IntegerCasts(value: ReadValue)
    ensures value.I8? ==> ReadValueToUsize(value) == if value.i8 < 0 then value.i8 + USIZE_RANGE else value.i8
    ensures value.I16? ==> ReadValueToUsize(value) == if value.i16 < 0 then value.i16 + USIZE_RANGE else value.i16
    ensures value.I32? ==> ReadValueToUsize(value) == if value.i32 < 0 then value.i32 + USIZE_RANGE else value.i32
    ensures value.I64? ==> ReadValueToUsize(value) == if value.i64 < 0 then value.i64 + USIZE_RANGE else value.i64
    ensures value.U8? || value.U16? || value.U32? || value.U64? ==> ReadValueToUsize(value) == Raw(value)
    ensures value.U128? || value.I128? ==>
      Raw(value) == Raw(value) / USIZE_RANGE * USIZE_RANGE + ReadValueToUsize(value)
  {
    match value
    case I8(v) => SignExtended(v);
    case I16(v) => SignExtended(v);
    case I32(v) => SignExtended(v);
    case I64(v) => SignExtended(v);
    case U128(v) => LowDigits(v);
    case I128(v) => LowDigits(v);
    case _ =>
  }

  lemma SignExtended(v: int)
    requires 0 <= v + USIZE_RANGE && v < USIZE_RANGE
    ensures v % USIZE_RANGE == if v < 0 then v + USIZE_RANGE else v
  {
  }

  lemma LowDigits(v: int)
    requires 0 <= v + U128_RANGE && v < U128_RANGE
    ensures v % U128_RANGE == v % U128_RANGE / USIZE_RANGE * USIZE_RANGE + v % USIZE_RANGE
  {
    assert v % U128_RANGE == if v < 0 then v + U128_RANGE else v;
    assert U128_RANGE == USIZE_RANGE * USIZE_RANGE;
  }

  /** Negative integers are written in two's complement. */
  lemma TwosComplementBytes(value: ReadValue)
    ensures value.I8? ==> Raw(value) == if value.i8 < 0 then value.i8 + 0x100 else value.i8
    ensures value.I16? ==> Raw(value) == if value.i16 < 0 then value.i16 + 0x1_0000 else value.i16
    ensures value.I32? ==> Raw(value) == if value.i32 < 0 then value.i32 + 0x1_0000_0000 else value.i32
    ensures value.I64? ==> Raw(value) == if value.i64 < 0 then value.i64 + USIZE_RANGE else value.i64
    ensures value.I128? ==> Raw(value) == if value.i128 < 0 then value.i128 + U128_RANGE else value.i128
  {
  }

  /** Any pattern of an F32 as read: NaN, negative numbers and fractions below one give 0, infinity the largest usize,
      and the rest is truncated and saturated. */
  lemma SingleCasts(bits: u32)
    ensures var e, fraction, size := bits / 0x80_0000 % 0x100, bits % 0x80_0000, ReadValueToUsize(ReadValue.F32(bits));
      && (bits >= 0x8000_0000 || e == 0 || (e == 0xFF && fraction != 0) ==> size == 0)
      && (bits < 0x8000_0000 && e == 0xFF && fraction == 0 ==> size == USIZE_MAX)
      && (bits < 0x8000_0000 && 0 < e < 0xFF ==>
            && Shl(size, 150) <= Shl(0x80_0000 + fraction, e)
            && (Shl(0x80_0000 + fraction, e) < Shl(size + 1, 150) || size == USIZE_MAX))
  {
    FormatsAreValid();
    SignificandPowers();
    SingleFields(bits);
    TruncatedMeans(BINARY32, Unpack(BINARY32, bits));
  }

  /** The same for an F64. */
  lemma DoubleCasts(bits: u64)
    ensures var e, fraction := bits / 0x10_0000_0000_0000 % 0x800, bits % 0x10_0000_0000_0000;
      var size := ReadValueToUsize(ReadValue.F64(bits));
      && (bits >= 0x8000_0000_0000_0000 || e == 0 || (e == 0x7FF && fraction != 0) ==> size == 0)
      && (bits < 0x8000_0000_0000_0000 && e == 0x7FF && fraction == 0 ==> size == USIZE_MAX)
      && (bits < 0x8000_0000_0000_0000 && 0 < e < 0x7FF ==>
            && Shl(size, 1075) <= Shl(0x10_0000_0000_0000 + fraction, e)
            && (Shl(0x10_0000_0000_0000 + fraction, e) < Shl(size + 1, 1075) || size == USIZE_MAX))
  {
    FormatsAreValid();
    SignificandPowers();
    DoubleFields(bits);
    TruncatedMeans(BINARY64, Unpack(BINARY64, bits));
  }
}
