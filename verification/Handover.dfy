/** From the reader that is not authenticated to the one that is: over every run, the frames pushed for a client are
    what one decoder makes of the client's stream. */
module Handover {
  import opened Basics
  import opened Bytes
  import opened LengthHeader
  import opened FrameStream
  import opened ServerClients
  import opened Admission

  function MessagesOf(log: seq<(Uuid, seq<Byte>)>, u: Uuid): seq<seq<Byte>> {
    if log == [] then []
    else MessagesOf(log[..|log| - 1], u) + (if log[|log| - 1].0 == u then [log[|log| - 1].1] else [])
  }

  lemma MessagesOfSnoc(log: seq<(Uuid, seq<Byte>)>, v: Uuid, body: seq<Byte>, u: Uuid)
    ensures MessagesOf(log + [(v, body)], u) == MessagesOf(log, u) + (if v == u then [body] else [])
  {
    assert (log + [(v, body)])[..|log|] == log;
  }

  // ---------- one socket ----------

  ghost predicate InRange(sk: Socket) {
    sk.base <= sk.pos <= |sk.arrived|
  }

  /** What the completed rounds consumed is a whole number of items. */
  ghost predicate OnBoundary(sk: Socket, codec: Codec) {
    InRange(sk) && Leftover(sk.arrived[..sk.base], codec) == []
  }

  /** The stream has ended inside an item, or between two, and all of it was consumed. */
  ghost predicate Exhausted(sk: Socket, codec: Codec)
    requires InRange(sk)
  {
    sk.closed && sk.pos == |sk.arrived| && FrontLength(sk.arrived[sk.base..], codec).None?
  }

  /** How the buffer of the reader that holds the lock stands to the bytes consumed since the last boundary. */
  ghost predicate BufferFits(sk: Socket, r: Reader, codec: Codec)
    requires InRange(sk)
  {
    match r
    case ReadHeader(buf) =>
      || (buf == sk.arrived[sk.base..sk.pos] && |buf| <= codec.width)
      || (buf == [] && Exhausted(sk, codec))
    case ReadBody(size, body) =>
      && sk.pos - sk.base == codec.width + |body|
      && size == codec.decode(sk.arrived[sk.base..sk.base + codec.width])
      && body == sk.arrived[sk.base + codec.width..sk.pos]
      && |body| <= size <= ISIZE_MAX
    case _ => sk.pos == sk.base || Exhausted(sk, codec)
  }

  ghost predicate Aligned(sk: Socket, codec: Codec)
    requires InRange(sk)
  {
    BufferFits(sk, if sk.lock.None? then NotSpawned else sk.Reader(sk.lock.value), codec)
  }

  /** The lock of the read half is held by exactly the reader that is past waiting for it, if any. */
  ghost predicate LockFits(sk: Socket) {
    && (sk.first.Holds() <==> sk.lock == Some(First))
    && (sk.second.Holds() <==> sk.lock == Some(Second))
    && !sk.second.WaitNotices? && !sk.second.Draining?
  }

  ghost predicate EndFits(sk: Socket, codec: Codec)
    requires InRange(sk)
  {
    sk.first == Ended(EndOfStream) || sk.second == Ended(EndOfStream) ==> Exhausted(sk, codec)
  }

  ghost predicate SocketOk(sk: Socket, alive: bool, codec: Codec) {
    && OnBoundary(sk, codec)
    && LockFits(sk)
    && EndFits(sk, codec)
    && (alive ==> Aligned(sk, codec))
  }

  function Decoded(sk: Socket, codec: Codec): seq<seq<Byte>>
    requires sk.base <= |sk.arrived|
  {
    Bodies(Items(sk.arrived[..sk.base], codec))
  }

  /** A completed round moves the boundary by exactly one item. */
  lemma BoundaryMoves(sk: Socket, codec: Codec)
    requires OnBoundary(sk, codec)
    requires FrontLength(sk.arrived[sk.base..sk.pos], codec) == Some(sk.pos - sk.base)
    ensures Leftover(sk.arrived[..sk.pos], codec) == []
    ensures Bodies(Items(sk.arrived[..sk.pos], codec))
         == Decoded(sk, codec) + Bodies([FrontItem(sk.arrived[sk.base..sk.pos], codec)])
  {
    TwoParts(sk.arrived, sk.base, sk.pos, codec);
    OneItem(sk.arrived[sk.base..sk.pos], codec);
    BodiesAppend(Items(sk.arrived[..sk.base], codec), [FrontItem(sk.arrived[sk.base..sk.pos], codec)]);
  }

  /** A reader's step keeps its socket in order, and adds to the decoded messages just what it delivers. */
  lemma ReaderStepOk(sk: Socket, u: Uuid, w: Which, p: Port, codec: Codec)
    requires SocketOk(sk, p.alive, codec)
    ensures var (sk', e) := ReaderStep(sk, u, w, p, codec);
      && SocketOk(sk', p.alive, codec)
      && Decoded(sk', codec) == Decoded(sk, codec) + (if e.Deliver? then [e.body] else [])
  {
    var r := sk.Reader(w);
    if r.ReadHeader? {
      if |r.buf| < codec.width { TakeByteOk(sk, w, p.alive, codec); } else { HeaderComplete(sk, u, w, p, codec); }
    } else if r.ReadBody? {
      if |r.body| < r.size { TakeByteOk(sk, w, p.alive, codec); } else { BodyComplete(sk, u, w, p, codec); }
    } else {
      LockStepOk(sk, u, w, p, codec);
    }
  }

  /** Taking and leaving locks does not touch the stream. */
  lemma LockStepOk(sk: Socket, u: Uuid, w: Which, p: Port, codec: Codec)
    requires SocketOk(sk, p.alive, codec)
    requires !sk.Reader(w).ReadHeader? && !sk.Reader(w).ReadBody?
    ensures var (sk', e) := ReaderStep(sk, u, w, p, codec);
      SocketOk(sk', p.alive, codec) && Decoded(sk', codec) == Decoded(sk, codec) && !e.Deliver?
  {
    var sk' := ReaderStep(sk, u, w, p, codec).0;
    assert sk'.arrived == sk.arrived && sk'.base == sk.base && sk'.pos == sk.pos && sk'.closed == sk.closed;
    assert sk.pos == sk.base ==> sk.arrived[sk.base..sk.pos] == [];
  }

  lemma TakeByteOk(sk: Socket, w: Which, alive: bool, codec: Codec)
    requires SocketOk(sk, alive, codec)
    requires var r := sk.Reader(w);
      (r.ReadHeader? && |r.buf| < codec.width) || (r.ReadBody? && |r.body| < r.size)
    ensures var (sk', e) := TakeByte(sk, w, sk.Reader(w), alive);
      SocketOk(sk', alive, codec) && Decoded(sk', codec) == Decoded(sk, codec) && !e.Deliver?
  {
    if sk.pos < |sk.arrived| {
      GotByte(sk, w, alive, codec);
    } else if sk.closed && alive {
      AtEnd(sk, w, codec);
    }
  }

  lemma GotByte(sk: Socket, w: Which, alive: bool, codec: Codec)
    requires SocketOk(sk, alive, codec) && sk.pos < |sk.arrived|
    requires var r := sk.Reader(w);
      (r.ReadHeader? && |r.buf| < codec.width) || (r.ReadBody? && |r.body| < r.size)
    ensures var sk' := TakeByte(sk, w, sk.Reader(w), alive).0;
      SocketOk(sk', alive, codec) && Decoded(sk', codec) == Decoded(sk, codec)
  {
    var sk' := TakeByte(sk, w, sk.Reader(w), alive).0;
    assert LockFits(sk') && OnBoundary(sk', codec) && EndFits(sk', codec);
    if alive {
      assert sk'.lock == Some(w) && BufferFits(sk, sk.Reader(w), codec);
      BufferGrows(sk, sk', sk.Reader(w), sk'.Reader(w), codec);
    }
  }

  lemma BufferGrows(sk: Socket, sk': Socket, r: Reader, r': Reader, codec: Codec)
    requires InRange(sk) && sk.pos < |sk.arrived| && BufferFits(sk, r, codec)
    requires sk'.arrived == sk.arrived && sk'.base == sk.base && sk'.pos == sk.pos + 1
    requires (r.ReadHeader? && |r.buf| < codec.width && r' == ReadHeader(r.buf + [sk.arrived[sk.pos]]))
          || (r.ReadBody? && |r.body| < r.size && r' == ReadBody(r.size, r.body + [sk.arrived[sk.pos]]))
    ensures BufferFits(sk', r', codec)
  {
    var from := if r.ReadHeader? then sk.base else sk.base + codec.width;
    assert sk.arrived[from..sk.pos + 1] == sk.arrived[from..sk.pos] + [sk.arrived[sk.pos]];
  }

  lemma AtEnd(sk: Socket, w: Which, codec: Codec)
    requires SocketOk(sk, true, codec) && sk.pos == |sk.arrived| && sk.closed
    requires var r := sk.Reader(w);
      (r.ReadHeader? && |r.buf| < codec.width) || (r.ReadBody? && |r.body| < r.size)
    ensures Exhausted(sk, codec)
  {
    var tail := sk.arrived[sk.base..];
    assert BufferFits(sk, sk.Reader(w), codec);
    if sk.Reader(w).ReadBody? {
      SliceOfSlice(sk.arrived, sk.base, |sk.arrived|, codec.width);
      SliceToEnd(sk.arrived, sk.base);
    }
  }

  lemma HeaderComplete(sk: Socket, u: Uuid, w: Which, p: Port, codec: Codec)
    requires SocketOk(sk, p.alive, codec)
    requires sk.Reader(w).ReadHeader? && |sk.Reader(w).buf| >= codec.width
    ensures var (sk', e) := ReaderStep(sk, u, w, p, codec);
      SocketOk(sk', p.alive, codec) && Decoded(sk', codec) == Decoded(sk, codec) && !e.Deliver?
  {
    if p.alive {
      var item := sk.arrived[sk.base..sk.pos];
      assert BufferFits(sk, sk.Reader(w), codec);
      assert item[..codec.width] == item;
      if codec.decode(item) > ISIZE_MAX {
        BoundaryMoves(sk, codec);
        assert Bodies([FrontItem(item, codec)]) == [];
      }
    }
  }

  lemma BodyComplete(sk: Socket, u: Uuid, w: Which, p: Port, codec: Codec)
    requires SocketOk(sk, p.alive, codec)
    requires sk.Reader(w).ReadBody? && |sk.Reader(w).body| >= sk.Reader(w).size
    ensures var (sk', e) := ReaderStep(sk, u, w, p, codec);
      && SocketOk(sk', p.alive, codec)
      && Decoded(sk', codec) == Decoded(sk, codec) + (if e.Deliver? then [e.body] else [])
  {
    if p.alive {
      var item := sk.arrived[sk.base..sk.pos];
      assert BufferFits(sk, sk.Reader(w), codec);
      SliceOfSlice(sk.arrived, sk.base, sk.pos, codec.width);
      assert item[codec.width..codec.width + sk.Reader(w).size] == item[codec.width..];
      BoundaryMoves(sk, codec);
      assert FrontItem(item, codec) == Frame(sk.Reader(w).body);
      assert Bodies([Frame(sk.Reader(w).body)]) == [sk.Reader(w).body];
    }
  }

  // ---------- the whole port ----------

  ghost predicate Streams(p: Port, codec: Codec) {
    && (forall u <- p.sockets :: SocketOk(p.sockets[u], p.alive, codec))
    && (forall u <- p.sockets :: MessagesOf(p.pushed, u) == Decoded(p.sockets[u], codec))
    && (forall u :: u !in p.sockets ==> MessagesOf(p.pushed, u) == [])
  }

  lemma SocketKeepsStreams(p: Port, u: Uuid, w: Which, sk: Socket, e: Effect, codec: Codec)
    requires Streams(p, codec) && u in p.sockets && SocketOk(sk, p.alive, codec)
    requires Decoded(sk, codec) == Decoded(p.sockets[u], codec) + (if e.Deliver? then [e.body] else [])
    ensures Streams(Apply(p, u, w, sk, e), codec)
  {
    ApplyFrame(p, u, w, sk, e);
    if e.Deliver? {
      DeliveryKeepsStreams(p, Apply(p, u, w, sk, e), u, sk, e.body, codec);
    } else {
      NothingPushed(p, u, w, sk, e);
      ReplacedKeepsStreams(p, Apply(p, u, w, sk, e), u, sk, codec);
    }
  }

  lemma NothingPushed(p: Port, u: Uuid, w: Which, sk: Socket, e: Effect)
    requires !e.Deliver?
    ensures Apply(p, u, w, sk, e).pushed == p.pushed
  {
  }

  lemma DeliveryKeepsStreams(p: Port, p': Port, u: Uuid, sk: Socket, body: seq<Byte>, codec: Codec)
    requires Streams(p, codec) && u in p.sockets && SocketOk(sk, p.alive, codec)
    requires Decoded(sk, codec) == Decoded(p.sockets[u], codec) + [body]
    requires p'.sockets == p.sockets[u := sk] && p'.pushed == p.pushed + [(u, body)] && p'.alive == p.alive
    ensures Streams(p', codec)
  {
    forall v
      ensures MessagesOf(p'.pushed, v) == MessagesOf(p.pushed, v) + (if v == u then [body] else [])
    {
      MessagesOfSnoc(p.pushed, u, body, v);
    }
  }

  lemma ReplacedKeepsStreams(p: Port, p': Port, u: Uuid, sk: Socket, codec: Codec)
    requires Streams(p, codec) && u in p.sockets
    requires SocketOk(sk, p.alive, codec) && Decoded(sk, codec) == Decoded(p.sockets[u], codec)
    requires p'.sockets == p.sockets[u := sk] && p'.pushed == p.pushed && p'.alive == p.alive
    ensures Streams(p', codec)
  {
  }

  lemma RunKeepsStreams(p: Port, u: Uuid, w: Which, codec: Codec)
    requires Streams(p, codec)
    ensures Streams(RunReader(p, u, w, codec), codec)
  {
    if u in p.sockets {
      var (sk, e) := ReaderStep(p.sockets[u], u, w, p, codec);
      ReaderStepOk(p.sockets[u], u, w, p, codec);
      SocketKeepsStreams(p, u, w, sk, e, codec);
    }
  }

  lemma ArriveOk(sk: Socket, data: seq<Byte>, alive: bool, codec: Codec)
    requires SocketOk(sk, alive, codec) && !sk.closed
    ensures SocketOk(sk.(arrived := sk.arrived + data), alive, codec)
    ensures Decoded(sk.(arrived := sk.arrived + data), codec) == Decoded(sk, codec)
  {
    var sk' := sk.(arrived := sk.arrived + data);
    assert sk'.arrived[..sk.base] == sk.arrived[..sk.base];
    assert sk'.arrived[sk.base..sk.pos] == sk.arrived[sk.base..sk.pos];
    if sk.base + codec.width <= sk.pos {
      assert sk'.arrived[sk.base..sk.base + codec.width] == sk.arrived[sk.base..sk.base + codec.width];
      assert sk'.arrived[sk.base + codec.width..sk.pos] == sk.arrived[sk.base + codec.width..sk.pos];
    }
  }

  lemma FreshOk(alive: bool, codec: Codec)
    ensures SocketOk(FRESH, alive, codec) && Decoded(FRESH, codec) == []
  {
    assert FRESH.arrived[..0] == [];
  }

  /** Replacing sockets by ones that have decoded the same keeps the streams, as long as nothing is pushed. */
  lemma SameDecodedKeepsStreams(p: Port, p': Port, codec: Codec)
    requires Streams(p, codec) && p'.pushed == p.pushed && p'.sockets.Keys == p.sockets.Keys
    requires forall u <- p.sockets ::
      SocketOk(p'.sockets[u], p'.alive, codec) && Decoded(p'.sockets[u], codec) == Decoded(p.sockets[u], codec)
    ensures Streams(p', codec)
  {
  }

  lemma SpawnOk(sk: Socket, w: Which, alive: bool, codec: Codec)
    requires SocketOk(sk, alive, codec) && sk.Reader(w).NotSpawned?
    ensures SocketOk(sk.Spawn(w), alive, codec) && Decoded(sk.Spawn(w), codec) == Decoded(sk, codec)
  {
  }

  lemma MainKeepsStreams(s: Server, a: Action, cfg: Config)
    requires Accounts(s.port) && Streams(s.port, cfg.codec)
    ensures Streams(MainStep(s, a, cfg).port, cfg.codec)
  {
    match a
    case Register(u) => RegisterKeepsStreams(s.port, u, cfg.codec);
    case ListenWaiting => ListenKeepsStreams(s.port, s.runtime, cfg.codec);
    case Login(granted) =>
      if s.logins != [] { PromoteKeepsStreams(s.port, s.logins[0], s.runtime, cfg.codec); }
    case Reap => ReapKeepsStreams(s.port, cfg.codec);
    case ReadMessages => SameDecodedKeepsStreams(s.port, MainStep(s, a, cfg).port, cfg.codec);
    case DropPort => SameDecodedKeepsStreams(s.port, s.port.(alive := false), cfg.codec);
    case _ => assert MainStep(s, a, cfg).port == s.port;
  }

  lemma RegisterKeepsStreams(p: Port, u: Uuid, codec: Codec)
    requires Streams(p, codec)
    ensures Streams(CheckClientsConnected(p, u), codec)
  {
    FreshOk(p.alive, codec);
  }

  lemma SameStreams(p: Port, p': Port, codec: Codec)
    requires Streams(p, codec) && p'.sockets == p.sockets && p'.pushed == p.pushed && p'.alive == p.alive
    ensures Streams(p', codec)
  {
  }

  lemma ReapKeepsStreams(p: Port, codec: Codec)
    requires Streams(p, codec)
    ensures Streams(CheckClientsDisconnected(p), codec)
  {
    SameStreams(p, CheckClientsDisconnected(p), codec);
  }

  lemma ListenKeepsStreams(p: Port, runtime: bool, codec: Codec)
    requires Accounts(p) && Streams(p, codec)
    ensures Streams(CheckNotAuthenticatedClients(p, runtime), codec)
  {
    var p' := CheckNotAuthenticatedClients(p, runtime);
    forall u <- p.sockets
      ensures SocketOk(p'.sockets[u], p.alive, codec) && Decoded(p'.sockets[u], codec) == Decoded(p.sockets[u], codec)
    {
      if u in p.waiting && !p.waiting[u] { SpawnOk(p.sockets[u], First, p.alive, codec); }
    }
    SameDecodedKeepsStreams(p, p', codec);
  }

  lemma PromoteKeepsStreams(p: Port, u: Uuid, runtime: bool, codec: Codec)
    requires Accounts(p) && Streams(p, codec)
    ensures Streams(Promote(p, u, runtime), codec)
  {
    if u in p.waiting {
      SpawnOk(p.sockets[u], Second, p.alive, codec);
      SameDecodedKeepsStreams(p, Promote(p, u, runtime), codec);
    }
  }

  lemma ArriveKeepsStreams(p: Port, u: Uuid, data: seq<Byte>, codec: Codec)
    requires Streams(p, codec) && u in p.sockets && !p.sockets[u].closed
    ensures Streams(p.(sockets := p.sockets[u := p.sockets[u].(arrived := p.sockets[u].arrived + data)]), codec)
  {
    ArriveOk(p.sockets[u], data, p.alive, codec);
    var sk := p.sockets[u].(arrived := p.sockets[u].arrived + data);
    ReplacedKeepsStreams(p, p.(sockets := p.sockets[u := sk]), u, sk, codec);
  }

  lemma CloseKeepsStreams(p: Port, u: Uuid, codec: Codec)
    requires Streams(p, codec) && u in p.sockets
    ensures Streams(p.(sockets := p.sockets[u := p.sockets[u].(closed := true)]), codec)
  {
    var sk := p.sockets[u].(closed := true);
    ReplacedKeepsStreams(p, p.(sockets := p.sockets[u := sk]), u, sk, codec);
  }

  lemma StepKeepsStreams(s: Server, a: Action, cfg: Config)
    requires Accounts(s.port) && Streams(s.port, cfg.codec)
    ensures Streams(Step(s, a, cfg).port, cfg.codec)
  {
    match a
    case Run(u, w) => RunKeepsStreams(s.port, u, w, cfg.codec);
    case Arrive(u, data) =>
      if u in s.port.sockets && !s.port.sockets[u].closed { ArriveKeepsStreams(s.port, u, data, cfg.codec); }
    case Close(u) =>
      if u in s.port.sockets { CloseKeepsStreams(s.port, u, cfg.codec); }
    case Accept => assert Step(s, a, cfg).port.sockets == s.port.sockets;
    case Notify => assert Step(s, a, cfg).port.sockets == s.port.sockets;
    case _ => MainKeepsStreams(s, a, cfg);
  }

  lemma {:induction false} RunsKeepStreams(run: seq<Action>, cfg: Config)
    ensures Streams(After(run, cfg).port, cfg.codec)
    decreases |run|
  {
    if run == [] {
    } else {
      RunsKeepStreams(run[..|run| - 1], cfg);
      RunsKeepInv(run[..|run| - 1], cfg);
      StepKeepsStreams(After(run[..|run| - 1], cfg), run[|run| - 1], cfg);
    }
  }

  /** At most one item has been consumed and not yet dealt with. */
  lemma AtMostOneBehind(sk: Socket, codec: Codec)
    requires SocketOk(sk, true, codec)
    ensures |Items(sk.arrived[..sk.pos], codec)| <= |Items(sk.arrived[..sk.base], codec)| + 1
  {
    var tail := sk.arrived[sk.base..sk.pos];
    TwoParts(sk.arrived, sk.base, sk.pos, codec);
    if FrontLength(tail, codec).Some? {
      assert sk.pos == |sk.arrived| ==> tail == sk.arrived[sk.base..];
      WholeItem(sk, codec);
      OneItem(tail, codec);
    }
  }

  lemma WholeItem(sk: Socket, codec: Codec)
    requires SocketOk(sk, true, codec) && FrontLength(sk.arrived[sk.base..sk.pos], codec).Some?
    requires sk.pos == |sk.arrived| ==> sk.arrived[sk.base..sk.pos] == sk.arrived[sk.base..]
    ensures FrontLength(sk.arrived[sk.base..sk.pos], codec) == Some(sk.pos - sk.base)
  {
    var r := if sk.lock.None? then NotSpawned else sk.Reader(sk.lock.value);
    assert BufferFits(sk, r, codec);
    if r.ReadBody? {
      SliceOfSlice(sk.arrived, sk.base, sk.pos, codec.width);
    }
  }

  /** In every interleaving: the messages pushed for a client are exactly what one decoder makes of the rounds its
      readers have completed, and so a prefix of what it makes of everything that arrived. They are never more than one
      item behind what has been consumed. */
  lemma HandoverRefinesOneDecoder(run: seq<Action>, cfg: Config, u: Uuid)
    requires u in After(run, cfg).port.sockets
    ensures var p, sk := After(run, cfg).port, After(run, cfg).port.sockets[u];
      && sk.base <= sk.pos <= |sk.arrived|
      && Leftover(sk.arrived[..sk.base], cfg.codec) == []
      && MessagesOf(p.pushed, u) == Bodies(Items(sk.arrived[..sk.base], cfg.codec))
      && MessagesOf(p.pushed, u) <= Bodies(Items(sk.arrived, cfg.codec))
      && (p.alive ==> |Items(sk.arrived[..sk.pos], cfg.codec)| <= |Items(sk.arrived[..sk.base], cfg.codec)| + 1)
  {
    RunsKeepStreams(run, cfg);
    var sk := After(run, cfg).port.sockets[u];
    assert SocketOk(sk, After(run, cfg).port.alive, cfg.codec);
    if After(run, cfg).port.alive { AtMostOneBehind(sk, cfg.codec); }
    PrefixDecodesToPrefix(sk.arrived[..sk.base], sk.arrived, cfg.codec);
  }

  /** When a reader of the client has met the end of the stream, every complete message of it has been pushed. */
  lemma NothingIsLost(run: seq<Action>, cfg: Config, u: Uuid)
    requires var p := After(run, cfg).port;
      && u in p.sockets
      && (p.sockets[u].first == Ended(EndOfStream) || p.sockets[u].second == Ended(EndOfStream))
    ensures MessagesOf(After(run, cfg).port.pushed, u)
         == Bodies(Items(After(run, cfg).port.sockets[u].arrived, cfg.codec))
  {
    RunsKeepStreams(run, cfg);
    var sk := After(run, cfg).port.sockets[u];
    assert SocketOk(sk, After(run, cfg).port.alive, cfg.codec);
    DecodeNothingMore(sk.arrived[..sk.base], sk.arrived[sk.base..], cfg.codec);
    assert sk.arrived[..sk.base] + sk.arrived[sk.base..] == sk.arrived;
  }

  // ---------- the channel to the application ----------

  lemma StepConserves(s: Server, a: Action, cfg: Config)
    requires s.delivered + s.port.inbox == s.port.pushed
    ensures Step(s, a, cfg).delivered + Step(s, a, cfg).port.inbox == Step(s, a, cfg).port.pushed
  {
    match a
    case Run(u, w) =>
      if u in s.port.sockets {
        ApplyConserves(s, u, w, ReaderStep(s.port.sockets[u], u, w, s.port, cfg.codec).0,
                       ReaderStep(s.port.sockets[u], u, w, s.port, cfg.codec).1);
      }
    case _ =>
  }

  lemma ApplyConserves(s: Server, u: Uuid, w: Which, sk: Socket, e: Effect)
    requires s.delivered + s.port.inbox == s.port.pushed
    ensures s.delivered + Apply(s.port, u, w, sk, e).inbox == Apply(s.port, u, w, sk, e).pushed
  {
    if e.Deliver? {
      assert s.delivered + (s.port.inbox + [(u, e.body)]) == s.port.pushed + [(u, e.body)];
    }
  }

  /** All batches the application has taken, then what is still in the channel, are what the readers pushed: many
      clients share the channel and each one's order survives. */
  lemma {:induction false} ReceiveConservation(run: seq<Action>, cfg: Config, u: Uuid)
    ensures var s := After(run, cfg);
      && (s.delivered + s.port.inbox == s.port.pushed)
      && (u in s.port.sockets ==>
            MessagesOf(s.delivered + s.port.inbox, u) <= Bodies(Items(s.port.sockets[u].arrived, cfg.codec)))
    decreases |run|
  {
    if run == [] {
    } else {
      ReceiveConservation(run[..|run| - 1], cfg, u);
      StepConserves(After(run[..|run| - 1], cfg), run[|run| - 1], cfg);
    }
    if u in After(run, cfg).port.sockets {
      HandoverRefinesOneDecoder(run, cfg, u);
    }
  }
}
