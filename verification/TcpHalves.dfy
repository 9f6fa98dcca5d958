/** The two halves of a TCP stream as one task uses them: writing a message behind its length, and the loop that
    reads messages until the stream ends. */
module TcpHalves {
  import opened Basics
  import opened Powers
  import opened Bytes
  import opened LengthHeader
  import opened FrameStream

  /** An unbounded channel: what has been sent and not yet received. */
  class Channel<T> {
    var pending: seq<T>

    constructor ()
      ensures pending == []
    {
      pending := [];
    }

    method Send(x: T)
      modifies this
      ensures pending == old(pending) + [x]
    {
      pending := pending + [x];
    }
  }

  /** What a limit leaves of a header and a body behind it. */
  lemma CutFrame(header: seq<Byte>, buf: seq<Byte>, budget: nat)
    ensures budget < |header| ==> (header + buf)[..Min(|header + buf|, budget)] == header[..Min(|header|, budget)]
    ensures budget >= |header| ==>
      && header[..Min(|header|, budget)] == header
      && (header + buf)[..Min(|header + buf|, budget)] == header + buf[..Min(|buf|, budget - |header|)]
  {
  }

  /** wire is what has been handed to the network. The connection breaks for good after budget more bytes. */
  class WriteHalf {
    var wire: seq<Byte>
    var budget: nat

    constructor (budget: nat)
      ensures wire == [] && this.budget == budget
    {
      this.wire, this.budget := [], budget;
    }

    method WriteAll(buf: seq<Byte>) returns (ok: bool)
      modifies this
      ensures wire == old(wire) + buf[..Min(|buf|, old(budget))]
      ensures budget == old(budget) - Min(|buf|, old(budget))
      ensures ok <==> |buf| <= old(budget)
    {
      var n := Min(|buf|, budget);
      wire, budget := wire + buf[..n], budget - n;
      return n == |buf|;
    }

    method WriteFromSettings(value: ReadValue, order: OrderOptions) returns (ok: bool)
      modifies this
      ensures var width := Width(TypeOf(value));
        && wire == old(wire) + EncodeValue(value, order)[..Min(width, old(budget))]
        && budget == old(budget) - Min(width, old(budget))
        && (ok <==> width <= old(budget))
    {
      var raw: nat, width: nat;
      match value {
        case U8(v) => raw, width := v, 1;
        case U16(v) => raw, width := v, 2;
        case U32(v) => raw, width := v, 4;
        case U64(v) => raw, width := v, 8;
        case U128(v) => raw, width := v, 16;
        case I8(v) => raw, width := v % 0x100, 1;
        case I16(v) => raw, width := v % 0x1_0000, 2;
        case I32(v) => raw, width := v % 0x1_0000_0000, 4;
        case I64(v) => raw, width := v % USIZE_RANGE, 8;
        case I128(v) => raw, width := v % U128_RANGE, 16;
        case F32(bits) => raw, width := bits, 4;
        case F64(bits) => raw, width := bits, 8;
      }
      assert raw == Raw(value) && width == Width(TypeOf(value));
      ok := WriteAll(ToBytes(raw, width, order));
    }

    /** The body of a writer task: the length, then the message; a broken connection cuts the frame short. */
    method Write(buf: Body, layout: Layout) returns (ok: bool)
      modifies this
      ensures var frame := FrameBytes(buf, TcpCodec(layout));
        && wire == old(wire) + frame[..Min(|frame|, old(budget))]
        && budget == old(budget) - Min(|frame|, old(budget))
        && (ok <==> |frame| <= old(budget))
    {
      var value := ValueFromNumber(AsDouble(|buf|), layout.bytes);
      ghost var header := EncodeValue(value, layout.order);
      ok := WriteFromSettings(value, layout.order);
      assert FrameBytes(buf, TcpCodec(layout)) == header + buf;
      CutFrame(header, buf, old(budget));
      if !ok { return; }
      ok := WriteAll(buf);
    }
  }

  /** incoming is everything that arrives before the stream ends; pos of it has been consumed. */
  class ReadHalf {
    const incoming: seq<Byte>
    var pos: nat

    ghost predicate Valid()
      reads this
    {
      pos <= |incoming|
    }

    ghost function Rest(): seq<Byte>
      reads this
      requires Valid()
    {
      incoming[pos..]
    }

    constructor (incoming: seq<Byte>)
      ensures Valid() && this.incoming == incoming && Rest() == incoming
    {
      this.incoming, this.pos := incoming, 0;
    }

    /** Reads exactly size bytes; at the end of the stream it consumes what is left and fails. */
    method ReadExact(size: nat) returns (r: Option<seq<Byte>>)
      requires Valid()
      modifies this
      ensures Valid()
      ensures size <= |old(Rest())| ==> r == Some(old(Rest())[..size]) && Rest() == old(Rest())[size..]
      ensures size > |old(Rest())| ==> r == None && Rest() == []
    {
      if size > |incoming| - pos {
        pos := |incoming|;
        assert Rest() == [];
        return None;
      }
      assert old(Rest())[..size] == incoming[pos..pos + size];
      r, pos := Some(incoming[pos..pos + size]), pos + size;
      assert Rest() == old(Rest())[size..];
    }

    method ReadFromSettings(layout: Layout) returns (r: Option<ReadValue>)
      requires Valid()
      modifies this
      ensures Valid()
      ensures var w := Width(layout.bytes);
        && (w <= |old(Rest())| ==> r == Some(DecodeValue(old(Rest())[..w], layout)) && Rest() == old(Rest())[w..])
        && (w > |old(Rest())| ==> r == None && Rest() == [])
    {
      var s := ReadExact(Width(layout.bytes));
      match s
      case None => return None;
      case Some(bytes) => return Some(DecodeValue(bytes, layout));
    }
  }

  /** The messages one read loop gets out of its stream: it does not survive a refused header. */
  function Leading(items: seq<Item>): seq<Body> {
    if items == [] || items[0].Refused? then [] else [items[0].body] + Leading(items[1..])
  }

  /** As long as no header was refused, one read loop gets everything. */
  lemma {:induction false} LeadingIsAll(items: seq<Item>)
    requires !AnyRefused(items)
    ensures Leading(items) == Bodies(items)
  {
    if items == [] {
    } else {
      LeadingIsAll(items[1..]);
    }
  }

  predicate AnyRefused(items: seq<Item>) {
    items != [] && (items[0].Refused? || AnyRefused(items[1..]))
  }

  datatype Round = Message(body: Body) | Panicked | Ended

  /** The size the next header announces. */
  method ReadSize(read: ReadHalf, layout: Layout, ghost codec: Codec) returns (size: Option<usize>)
    requires read.Valid() && Speaks(codec, layout)
    modifies read
    ensures read.Valid()
    ensures var before := old(read.Rest());
      && (codec.width <= |before| ==>
          size == Some(codec.decode(before[..codec.width])) && read.Rest() == before[codec.width..])
      && (codec.width > |before| ==> size == None && read.Rest() == [])
  {
    ghost var before := read.Rest();
    var header := read.ReadFromSettings(layout);
    match header
    case None => return None;
    case Some(value) =>
      assert ReadValueToUsize(value) == HeaderSize(before[..codec.width], layout);
      return Some(ReadValueToUsize(value));
  }

  /** One round of the read loop. */
  method ReadMessage(read: ReadHalf, layout: Layout, ghost codec: Codec) returns (round: Round)
    requires read.Valid() && Speaks(codec, layout)
    modifies read
    ensures read.Valid()
    ensures round.Ended? ==> Items(old(read.Rest()), codec) == []
    ensures round.Panicked? ==>
      var items := Items(old(read.Rest()), codec); items != [] && items[0] == Refused
    ensures round.Message? ==>
      && Items(old(read.Rest()), codec) == [Frame(round.body)] + Items(read.Rest(), codec)
      && |read.Rest()| < |old(read.Rest())|
  {
    ghost var before := read.Rest();
    var size := ReadSize(read, layout, codec);
    if size.None? { return Ended; }
    if size.value > ISIZE_MAX { return Panicked; }
    var buf := read.ReadExact(size.value);
    if buf.None? { return Ended; }
    assert FrontItem(before, codec) == Frame(buf.value);
    assert read.Rest() == before[FrontLength(before, codec).value..];
    return Message(buf.value);
  }

  lemma MessageDelivered(items: seq<Item>, delivered: seq<Body>, todo: seq<Item>, body: Body, rest: seq<Item>)
    requires Leading(items) == delivered + Leading(todo) && todo == [Frame(body)] + rest
    ensures Leading(items) == delivered + [body] + Leading(rest)
    ensures AnyRefused(todo) == AnyRefused(rest)
  {
    assert todo[1..] == rest;
  }

  lemma LastRound(todo: seq<Item>, round: Round)
    requires round.Ended? ==> todo == []
    requires round.Panicked? ==> todo != [] && todo[0] == Refused
    requires !round.Message?
    ensures Leading(todo) == [] && AnyRefused(todo) == round.Panicked?
  {
  }

  /** The client's read loop, from spawning to its end: every complete frame is delivered once and in order, and the
      loop ends with exactly one down signal unless a header was refused, which kills the task without a word. */
  method ReadLoop(read: ReadHalf, layout: Layout, messages: Channel<Body>, downs: Channel<()>,
                  ghost codec: Codec)
    returns (panicked: bool)
    requires read.Valid() && Speaks(codec, layout) && messages as object != downs
    modifies read, messages, downs
    ensures read.Valid()
    ensures var items := Items(old(read.Rest()), codec);
      && messages.pending == old(messages.pending) + Leading(items)
      && panicked == AnyRefused(items)
      && downs.pending == old(downs.pending) + (if panicked then [] else [()])
  {
    ghost var items := Items(read.Rest(), codec);
    ghost var todo, delivered: seq<Body> := items, [];
    panicked := false;
    var listening := true;
    while listening
      invariant read.Valid() && (listening ==> todo == Items(read.Rest(), codec))
      invariant AnyRefused(items) == (panicked || AnyRefused(todo)) && (if listening then !panicked else todo == [])
      invariant Leading(items) == delivered + Leading(todo)
      invariant messages.pending == old(messages.pending) + delivered && downs.pending == old(downs.pending)
      decreases listening, |read.Rest()|
    {
      var round := ReadMessage(read, layout, codec);
      if round.Message? {
        ghost var rest := Items(read.Rest(), codec);
        MessageDelivered(items, delivered, todo, round.body, rest);
        messages.Send(round.body);
        todo, delivered := rest, delivered + [round.body];
      } else {
        LastRound(todo, round);
        listening, panicked, todo := false, round.Panicked?, [];
      }
    }
    if !panicked { downs.Send(()); }
  }
}
