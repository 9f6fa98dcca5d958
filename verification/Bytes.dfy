/** Fixed-width byte strings of a number, least or most significant byte first. */
module Bytes {
  import opened Powers

  type Byte = b: int | 0 <= b < 0x100

  datatype OrderOptions = LittleEndian | BigEndian

  function ToLittleEndian(v: nat, width: nat): (s: seq<Byte>)
    ensures |s| == width
  {
    if width == 0 then [] else [v % 0x100] + ToLittleEndian(v / 0x100, width - 1)
  }

  function FromLittleEndian(s: seq<Byte>): nat {
    if s == [] then 0 else s[0] + 0x100 * FromLittleEndian(s[1..])
  }

  function Reversed(s: seq<Byte>): (r: seq<Byte>)
    ensures |r| == |s|
  {
    if s == [] then [] else Reversed(s[1..]) + [s[0]]
  }

  function ToBytes(v: nat, width: nat, order: OrderOptions): (s: seq<Byte>)
    ensures |s| == width
  {
    if order.LittleEndian? then ToLittleEndian(v, width) else Reversed(ToLittleEndian(v, width))
  }

  function FromBytes(s: seq<Byte>, order: OrderOptions): nat {
    FromLittleEndian(if order.LittleEndian? then s else Reversed(s))
  }

  lemma {:induction false} ReversedAppend(s: seq<Byte>, b: Byte)
    ensures Reversed(s + [b]) == [b] + Reversed(s)
  {
    if s == [] {
    } else {
      assert (s + [b])[1..] == s[1..] + [b];
      ReversedAppend(s[1..], b);
    }
  }

  lemma {:induction false} ReversedTwice(s: seq<Byte>)
    ensures Reversed(Reversed(s)) == s
  {
    if s == [] {
    } else {
      ReversedAppend(Reversed(s[1..]), s[0]);
      ReversedTwice(s[1..]);
    }
  }

  lemma {:induction false} LittleEndianRoundTrip(v: nat, width: nat)
    requires v < Pow2(8 * width)
    ensures FromLittleEndian(ToLittleEndian(v, width)) == v
  {
    if width == 0 {
    } else {
      Pow2Plus8(8 * (width - 1));
      LittleEndianRoundTrip(v / 0x100, width - 1);
      assert ToLittleEndian(v, width)[1..] == ToLittleEndian(v / 0x100, width - 1);
    }
  }

  lemma {:induction false} LittleEndianOnto(s: seq<Byte>)
    ensures FromLittleEndian(s) < Pow2(8 * |s|)
    ensures ToLittleEndian(FromLittleEndian(s), |s|) == s
  {
    if s == [] {
    } else {
      Pow2Plus8(8 * (|s| - 1));
      LittleEndianOnto(s[1..]);
      assert FromLittleEndian(s) / 0x100 == FromLittleEndian(s[1..]);
      assert s == [s[0]] + s[1..];
    }
  }

  /** In either order, numbers below 2^(8 * width) and byte strings of that width correspond one to one. */
  lemma BytesRoundTrip(v: nat, width: nat, order: OrderOptions)
    requires v < Pow2(8 * width)
    ensures FromBytes(ToBytes(v, width, order), order) == v
  {
    LittleEndianRoundTrip(v, width);
    ReversedTwice(ToLittleEndian(v, width));
  }

  lemma BytesOnto(s: seq<Byte>, order: OrderOptions)
    ensures FromBytes(s, order) < Pow2(8 * |s|)
    ensures ToBytes(FromBytes(s, order), |s|, order) == s
  {
    LittleEndianOnto(if order.LittleEndian? then s else Reversed(s));
    ReversedTwice(s);
  }

  lemma {:induction false} ReversedAt(s: seq<Byte>, i: nat)
    requires i < |s|
    ensures Reversed(s)[i] == s[|s| - 1 - i]
  {
    if i == |s| - 1 {
    } else {
      ReversedAt(s[1..], i);
    }
  }

  lemma {:induction false} LittleEndianAt(v: nat, width: nat, i: nat)
    requires i < width
    ensures ToLittleEndian(v, width)[i] == Shr(v, 8 * i) % 0x100
  {
    if i == 0 {
    } else {
      LittleEndianAt(v / 0x100, width - 1, i - 1);
      ShrPlus8(v, 8 * (i - 1));
    }
  }

  lemma ShrPlus8(v: nat, e: nat)
    ensures Shr(v, e + 8) == Shr(v / 0x100, e)
  {
    assert Shr(v, e + 8) == Shr(v / 2 / 2, e + 6);
    assert Shr(v / 2 / 2, e + 6) == Shr(v / 2 / 2 / 2 / 2, e + 4);
    assert Shr(v / 2 / 2 / 2 / 2, e + 4) == Shr(v / 2 / 2 / 2 / 2 / 2 / 2, e + 2);
    assert v / 2 / 2 / 2 / 2 / 2 / 2 / 2 / 2 == v / 0x100;
  }

  lemma BigEndianAt(v: nat, width: nat, i: nat)
    requires i < width
    ensures Reversed(ToLittleEndian(v, width))[width - 1 - i] == ToLittleEndian(v, width)[i]
  {
    ReversedAt(ToLittleEndian(v, width), width - 1 - i);
  }

  /** Which byte stands where: the i-th digit to the base 256 is the i-th byte from the front in little-endian, and from
      the back in big-endian order. */
  lemma ByteAt(v: nat, width: nat, i: nat, digit: nat)
    requires i < width && digit == Shr(v, 8 * i) % 0x100
    ensures ToBytes(v, width, LittleEndian)[i] == digit
    ensures ToBytes(v, width, BigEndian)[width - 1 - i] == digit
  {
    LittleEndianAt(v, width, i);
    BigEndianAt(v, width, i);
  }
}
