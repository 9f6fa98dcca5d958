/** A byte stream as a sequence of frames: a length header, then that many bytes. */
module FrameStream {
  import opened Basics
  import opened Bytes
  import opened LengthHeader

  type Positive = n: nat | n >= 1 witness 1

  /** How message lengths are written and read: the width of the header and the two conversions. */
  datatype Codec = Codec(width: Positive, encode: usize -> seq<Byte>, decode: seq<Byte> -> usize) {
    ghost predicate Valid() {
      forall n: usize :: |encode(n)| == width
    }

    predicate Carries(n: usize) {
      decode(encode(n)) == n
    }
  }

  /** The codec of a TCP port. */
  function TcpCodec(layout: Layout): Codec {
    Codec(Width(layout.bytes),
          n => Header(n, layout),
          s => if |s| == Width(layout.bytes) then HeaderSize(s, layout) else 0)
  }

  /** The codec announces the same sizes as the headers of the layout. */
  ghost predicate Speaks(codec: Codec, layout: Layout) {
    && codec.width == Width(layout.bytes)
    && forall s: seq<Byte> {:trigger HeaderSize(s, layout)} ::
         |s| == Width(layout.bytes) ==> codec.decode(s) == HeaderSize(s, layout)
  }

  /** A message body; no vector is longer than ISIZE_MAX. */
  type Body = s: seq<Byte> | |s| <= ISIZE_MAX

  /** What one round of the read loop makes of the stream. A header that asks for more bytes than a vector can hold
      makes the allocation panic after the header has been consumed. */
  datatype Item = Frame(body: Body) | Refused

  /** The size announced by the header at the front of s. */
  function FrontSize(s: seq<Byte>, codec: Codec): usize
    requires |s| >= codec.width
  {
    codec.decode(s[..codec.width])
  }

  /** How many bytes the first round consumes, once they are all there. */
  function FrontLength(s: seq<Byte>, codec: Codec): Option<nat> {
    var w := codec.width;
    if |s| < w then None
    else if FrontSize(s, codec) > ISIZE_MAX then Some(w)
    else if |s| < w + FrontSize(s, codec) then None
    else Some(w + FrontSize(s, codec))
  }

  function FrontItem(s: seq<Byte>, codec: Codec): Item
    requires FrontLength(s, codec).Some?
  {
    var w := codec.width;
    if FrontSize(s, codec) > ISIZE_MAX then Refused else Frame(s[w..w + FrontSize(s, codec)])
  }

  /** Everything that can be decoded from s, in order. */
  function Items(s: seq<Byte>, codec: Codec): seq<Item>
    decreases |s|
  {
    match FrontLength(s, codec)
    case None => []
    case Some(n) => [FrontItem(s, codec)] + Items(s[n..], codec)
  }

  /** The bytes left over: the beginning of an item that is not complete yet. */
  function Leftover(s: seq<Byte>, codec: Codec): seq<Byte>
    decreases |s|
  {
    match FrontLength(s, codec)
    case None => s
    case Some(n) => Leftover(s[n..], codec)
  }

  function Bodies(items: seq<Item>): seq<Body> {
    if items == [] then []
    else (if items[0].Frame? then [items[0].body] else []) + Bodies(items[1..])
  }

  function FrameBytes(body: Body, codec: Codec): seq<Byte> {
    codec.encode(|body|) + body
  }

  function Wire(bodies: seq<Body>, codec: Codec): seq<Byte> {
    if bodies == [] then [] else FrameBytes(bodies[0], codec) + Wire(bodies[1..], codec)
  }

  function Frames(bodies: seq<Body>): (items: seq<Item>)
    ensures |items| == |bodies|
  {
    if bodies == [] then [] else [Frame(bodies[0])] + Frames(bodies[1..])
  }

  predicate AllCarried(bodies: seq<Body>, codec: Codec) {
    forall k :: 0 <= k < |bodies| ==> codec.Carries(|bodies[k]|)
  }

  // ---------- decoding piecemeal ----------

  /** More bytes behind a complete item change nothing about it. */
  lemma FrontStable(s: seq<Byte>, t: seq<Byte>, codec: Codec)
    requires FrontLength(s, codec).Some?
    ensures FrontLength(s + t, codec) == FrontLength(s, codec)
    ensures FrontLength(s, codec).value <= |s|
    ensures FrontItem(s + t, codec) == FrontItem(s, codec)
  {
    var w := codec.width;
    assert (s + t)[..w] == s[..w];
    if FrontSize(s, codec) <= ISIZE_MAX {
      assert (s + t)[w..w + FrontSize(s, codec)] == s[w..w + FrontSize(s, codec)];
    }
  }

  /** Decoding can stop anywhere, keep the leftover bytes, and resume when more arrive. */
  lemma {:induction false} DecodeResumes(s: seq<Byte>, t: seq<Byte>, codec: Codec)
    ensures Items(s + t, codec) == Items(s, codec) + Items(Leftover(s, codec) + t, codec)
    ensures Leftover(s + t, codec) == Leftover(Leftover(s, codec) + t, codec)
    decreases |s|
  {
    if FrontLength(s, codec).None? {
    } else {
      var n := FrontLength(s, codec).value;
      FrontStable(s, t, codec);
      assert (s + t)[n..] == s[n..] + t;
      DecodeResumes(s[n..], t, codec);
    }
  }

  /** The leftover really is incomplete, and no byte is invented or reordered. */
  lemma {:induction false} LeftoverIsIncomplete(s: seq<Byte>, codec: Codec)
    ensures FrontLength(Leftover(s, codec), codec).None?
    ensures |Leftover(s, codec)| <= |s| && Leftover(s, codec) == s[|s| - |Leftover(s, codec)|..]
    decreases |s|
  {
    if FrontLength(s, codec).None? {
    } else {
      LeftoverIsIncomplete(s[FrontLength(s, codec).value..], codec);
    }
  }

  /** The decoder with its buffer, fed the stream in arbitrary pieces. */
  function DecodeChunks(buffer: seq<Byte>, chunks: seq<seq<Byte>>, codec: Codec): seq<Item>
    decreases |chunks|
  {
    if chunks == [] then []
    else
      var all := buffer + chunks[0];
      Items(all, codec) + DecodeChunks(Leftover(all, codec), chunks[1..], codec)
  }

  function Concat(chunks: seq<seq<Byte>>): seq<Byte> {
    if chunks == [] then [] else chunks[0] + Concat(chunks[1..])
  }

  lemma DecodeChunk(buffer: seq<Byte>, chunk: seq<Byte>, later: seq<Byte>, codec: Codec)
    ensures Items(buffer + (chunk + later), codec)
         == Items(buffer + chunk, codec) + Items(Leftover(buffer + chunk, codec) + later, codec)
  {
    DecodeResumes(buffer + chunk, later, codec);
    assert buffer + (chunk + later) == buffer + chunk + later;
  }

  /** Where the network cuts the stream, inside headers included, makes no difference to what is decoded. */
  lemma {:induction false} ChunkingIndependence(buffer: seq<Byte>, chunks: seq<seq<Byte>>, codec: Codec)
    requires FrontLength(buffer, codec).None?
    ensures DecodeChunks(buffer, chunks, codec) == Items(buffer + Concat(chunks), codec)
    decreases |chunks|
  {
    if chunks == [] {
      assert buffer + Concat(chunks) == buffer;
    } else {
      LeftoverIsIncomplete(buffer + chunks[0], codec);
      ChunkingIndependence(Leftover(buffer + chunks[0], codec), chunks[1..], codec);
      DecodeChunk(buffer, chunks[0], Concat(chunks[1..]), codec);
    }
  }

  lemma {:induction false} BodiesAppend(a: seq<Item>, b: seq<Item>)
    ensures Bodies(a + b) == Bodies(a) + Bodies(b)
  {
    if a == [] {
      assert a + b == b;
    } else {
      assert (a + b)[1..] == a[1..] + b;
      BodiesAppend(a[1..], b);
    }
  }

  /** What a prefix of the stream decodes to is a prefix of what the stream decodes to. */
  lemma PrefixDecodesToPrefix(s: seq<Byte>, t: seq<Byte>, codec: Codec)
    requires s <= t
    ensures Items(s, codec) <= Items(t, codec)
    ensures Bodies(Items(s, codec)) <= Bodies(Items(t, codec))
  {
    DecodeResumes(s, t[|s|..], codec);
    assert s + t[|s|..] == t;
    BodiesAppend(Items(s, codec), Items(Leftover(s, codec) + t[|s|..], codec));
  }

  /** Decoding a prefix of a stream in two parts, the first of which is consumed exactly. */
  lemma TwoParts(s: seq<Byte>, base: nat, pos: nat, codec: Codec)
    requires base <= pos <= |s| && Leftover(s[..base], codec) == []
    ensures Items(s[..pos], codec) == Items(s[..base], codec) + Items(s[base..pos], codec)
    ensures Leftover(s[..pos], codec) == Leftover(s[base..pos], codec)
  {
    DecodeResumes(s[..base], s[base..pos], codec);
    assert s[..base] + s[base..pos] == s[..pos] && [] + s[base..pos] == s[base..pos];
  }

  lemma OneItem(t: seq<Byte>, codec: Codec)
    requires FrontLength(t, codec) == Some(|t|)
    ensures Items(t, codec) == [FrontItem(t, codec)] && Leftover(t, codec) == []
  {
    assert t[|t|..] == [];
  }

  /** An incomplete item behind an exactly consumed stream adds nothing. */
  lemma DecodeNothingMore(s: seq<Byte>, t: seq<Byte>, codec: Codec)
    requires Leftover(s, codec) == [] && FrontLength(t, codec).None?
    ensures Items(s + t, codec) == Items(s, codec)
  {
    DecodeResumes(s, t, codec);
    assert [] + t == t;
  }

  // ---------- round trip ----------

  /** A frame, with whatever behind it, decodes to its body exactly when the header carries its length. */
  lemma FrameDecodes(body: Body, t: seq<Byte>, codec: Codec)
    requires codec.Valid()
    ensures var s := FrameBytes(body, codec) + t;
      (FrontLength(s, codec).Some? && FrontItem(s, codec) == Frame(body)) <==> codec.Carries(|body|)
    ensures codec.Carries(|body|) ==>
      FrontLength(FrameBytes(body, codec) + t, codec) == Some(|FrameBytes(body, codec)|)
  {
    var w := codec.width;
    var s := FrameBytes(body, codec) + t;
    assert s[..w] == codec.encode(|body|);
    if codec.Carries(|body|) {
      assert s[w..w + |body|] == body;
    } else if FrontLength(s, codec).Some? && FrontItem(s, codec).Frame? {
      assert |FrontItem(s, codec).body| == FrontSize(s, codec);
    }
  }

  /** Decoding the concatenated frames gives back the list of messages if and only if the header carries the length
      of every one of them. */
  lemma {:induction false} FramesRoundTrip(bodies: seq<Body>, codec: Codec)
    requires codec.Valid()
    ensures Items(Wire(bodies, codec), codec) == Frames(bodies) <==> AllCarried(bodies, codec)
    ensures AllCarried(bodies, codec) ==> Leftover(Wire(bodies, codec), codec) == []
  {
    if bodies == [] {
    } else {
      var s := Wire(bodies, codec);
      var rest := Wire(bodies[1..], codec);
      FramesRoundTrip(bodies[1..], codec);
      FrameDecodes(bodies[0], rest, codec);
      AllCarriedTail(bodies, codec);
      if codec.Carries(|bodies[0]|) {
        assert s[FrontLength(s, codec).value..] == rest;
        assert Items(s, codec) == [Frame(bodies[0])] + Items(rest, codec);
        assert Items(s, codec)[1..] == Items(rest, codec);
        assert Frames(bodies)[1..] == Frames(bodies[1..]);
      } else {
        assert Frames(bodies)[0] == Frame(bodies[0]);
      }
    }
  }

  lemma AllCarriedTail(bodies: seq<Body>, codec: Codec)
    requires bodies != []
    ensures AllCarried(bodies, codec) <==> codec.Carries(|bodies[0]|) && AllCarried(bodies[1..], codec)
  {
    assert bodies == [bodies[0]] + bodies[1..];
  }

  lemma TcpCodecCarries(layout: Layout)
    ensures TcpCodec(layout).Valid() && Speaks(TcpCodec(layout), layout)
    ensures forall n: usize :: TcpCodec(layout).Carries(n) <==> Exact(layout.bytes, n)
  {
    forall n: usize
      ensures TcpCodec(layout).Carries(n) <==> Exact(layout.bytes, n)
    {
      HeaderExactness(n, layout);
    }
  }

  /** For every header type and both byte orders: the messages sent come back, all of them and in order, if and only
      if the header type can carry the length of each. */
  lemma StreamRoundTrip(bodies: seq<Body>, layout: Layout)
    ensures Items(Wire(bodies, TcpCodec(layout)), TcpCodec(layout)) == Frames(bodies)
       <==> forall k :: 0 <= k < |bodies| ==> Exact(layout.bytes, |bodies[k]|)
  {
    TcpCodecCarries(layout);
    FramesRoundTrip(bodies, TcpCodec(layout));
  }

  /** One byte is enough: minus one as a signed 8-bit length is refused. */
  lemma MinusOneIsRefused(order: OrderOptions)
    ensures Items([0xFF], TcpCodec(Layout(BytesOptions.I8, order))) == [Refused]
  {
    ValueRoundTrip(ReadValue.I8(-1), order);
    MinusOneEncoded(order);
    RefusedAlone([0xFF], TcpCodec(Layout(BytesOptions.I8, order)));
  }

  lemma MinusOneEncoded(order: OrderOptions)
    ensures EncodeValue(ReadValue.I8(-1), order) == [0xFF]
  {
    assert ToLittleEndian(0xFF, 1) == [0xFF];
  }

  lemma RefusedAlone(s: seq<Byte>, codec: Codec)
    requires |s| == codec.width && codec.decode(s) > ISIZE_MAX
    ensures Items(s, codec) == [Refused]
  {
    assert s[..codec.width] == s;
    OneItem(s, codec);
  }

  lemma {:induction false} BodiesOfFrames(bodies: seq<Body>)
    ensures Bodies(Frames(bodies)) == bodies
  {
    if bodies == [] {
    } else {
      assert Frames(bodies)[1..] == Frames(bodies[1..]);
      BodiesOfFrames(bodies[1..]);
    }
  }

  lemma {:induction false} WireAppend(a: seq<Body>, b: Body, codec: Codec)
    ensures Wire(a + [b], codec) == Wire(a, codec) + FrameBytes(b, codec)
  {
    if a == [] {
      assert a + [b] == [b];
      assert Wire([b], codec) == FrameBytes(b, codec) + [];
    } else {
      assert (a + [b])[1..] == a[1..] + [b];
      WireAppend(a[1..], b, codec);
    }
  }
}
