/** A sender's writer tasks at one end of a stream, the readers at the other: from a client to the server, and from the
    server to a client. */
module EndToEnd {
  import opened Bytes
  import opened LengthHeader
  import opened FrameStream
  import W = Writers
  import S = ServerClients
  import R = ReaderLocks
  import opened Handover
  import opened MessageGate
  import opened Dispatching
  import opened TcpHalves

  /** Whatever the writer tasks, the readers, the handover and the network do: the messages the application has taken
      for a client, then those still waiting in the channel, are the messages of the sender's tasks in the order in
      which they got the lock, without gap, repetition or change, up to some point. */
  lemma SentIsReceivedInLockOrder(sending: seq<W.Action>, serving: seq<S.Action>, cfg: S.Config, layout: Layout,
                                  u: S.Uuid)
    requires cfg.codec == TcpCodec(layout)
    requires u in S.After(serving, cfg).port.sockets
    requires S.After(serving, cfg).port.sockets[u].arrived <= W.After(sending, cfg.codec).wire
    requires var s := W.After(sending, cfg.codec);
      W.Known(s, s.order) && forall id <- s.order :: Exact(layout.bytes, |s.writers[id].body|)
    ensures var s, t := W.After(sending, cfg.codec), S.After(serving, cfg);
      MessagesOf(t.delivered + t.port.inbox, u) <= W.BodiesOf(s, s.order)
  {
    var s := W.After(sending, cfg.codec);
    TcpCodecCarries(layout);
    OrderCarried(s, s.order, cfg.codec, layout);
    W.ReceivedIsInLockOrder(sending, cfg.codec, S.After(serving, cfg).port.sockets[u].arrived);
    ReceiveConservation(serving, cfg, u);
  }

  lemma {:induction false} OrderCarried(s: W.Stream, ids: seq<W.TaskId>, codec: Codec, layout: Layout)
    requires W.Known(s, ids) && (forall id <- ids :: Exact(layout.bytes, |s.writers[id].body|))
    requires forall n: usize :: codec.Carries(n) <==> Exact(layout.bytes, n)
    ensures AllCarried(W.BodiesOf(s, ids), codec)
  {
    if ids == [] {
    } else {
      assert forall id <- ids[1..] :: id in ids;
      OrderCarried(s, ids[1..], codec, layout);
      AllCarriedTail(W.BodiesOf(s, ids), codec);
    }
  }

  /** The client's stream has been read to its end, or, while it is open, its readers have come to rest and one of them
      is alive. */
  ghost predicate ReadThrough(p: S.Port, u: S.Uuid, codec: Codec)
    requires u in p.sockets
  {
    || p.sockets[u].first == S.Ended(S.EndOfStream) || p.sockets[u].second == S.Ended(S.EndOfStream)
    || (p.alive && R.Rests(p, u, codec) && (R.Live(p.sockets[u].first) || R.Live(p.sockets[u].second)))
  }

  lemma ReadThroughIsPushed(serving: seq<S.Action>, cfg: S.Config, u: S.Uuid)
    requires u in S.After(serving, cfg).port.sockets && ReadThrough(S.After(serving, cfg).port, u, cfg.codec)
    ensures var p := S.After(serving, cfg).port;
      MessagesOf(p.pushed, u) == Bodies(Items(p.sockets[u].arrived, cfg.codec))
  {
    var sk := S.After(serving, cfg).port.sockets[u];
    if sk.first == S.Ended(S.EndOfStream) || sk.second == S.Ended(S.EndOfStream) {
      NothingIsLost(serving, cfg, u);
    } else if R.Live(sk.first) {
      R.AtRestNothingIsMissing(serving, cfg, u, S.First);
    } else {
      R.AtRestNothingIsMissing(serving, cfg, u, S.Second);
    }
  }

  /** When every task is done, the whole wire has arrived and the server has read it through, the server has every
      message exactly once, whether the stream stays open or has ended. */
  lemma EverythingSentIsReceived(sending: seq<W.Action>, serving: seq<S.Action>, cfg: S.Config, layout: Layout,
                                 u: S.Uuid)
    requires cfg.codec == TcpCodec(layout)
    requires var p := S.After(serving, cfg).port;
      && u in p.sockets && p.sockets[u].arrived == W.After(sending, cfg.codec).wire
      && ReadThrough(p, u, cfg.codec)
    requires var s := W.After(sending, cfg.codec);
      W.AllDone(s) && forall id <- s.writers :: Exact(layout.bytes, |s.writers[id].body|)
    ensures var s, t := W.After(sending, cfg.codec), S.After(serving, cfg);
      && W.Known(s, s.order) && W.Known(s, s.spawned)
      && MessagesOf(t.delivered + t.port.inbox, u) == W.BodiesOf(s, s.order)
      && multiset(W.BodiesOf(s, s.order)) == multiset(W.BodiesOf(s, s.spawned))
  {
    var s := W.After(sending, cfg.codec);
    TcpCodecCarries(layout);
    W.AllSentArriveOnce(sending, cfg.codec);
    OrderCarried(s, s.order, cfg.codec, layout);
    ReadThroughIsPushed(serving, cfg, u);
    ReceiveConservation(serving, cfg, u);
    BodiesOfFrames(W.BodiesOf(s, s.order));
  }

  // ---------- up to the application ----------

  /** What the application is given of a client is part of what its tasks sent, in the order in which they got the lock
      and each message at most once, at any moment. */
  lemma SentIsDispatchedInLockOrder(sending: seq<W.Action>, serving: seq<S.Action>, cfg: S.Config, layout: Layout,
                                    u: S.Uuid)
    requires cfg.codec == TcpCodec(layout)
    requires u in S.After(serving, cfg).port.sockets
    requires S.After(serving, cfg).port.sockets[u].arrived <= W.After(sending, cfg.codec).wire
    requires var s := W.After(sending, cfg.codec);
      W.Known(s, s.order) && forall id <- s.order :: Exact(layout.bytes, |s.writers[id].body|)
    ensures var s, t := W.After(sending, cfg.codec), S.After(serving, cfg);
      Subsequence(MessagesOf(Origins(t.dispatched), u), W.BodiesOf(s, s.order))
  {
    var s, t := W.After(sending, cfg.codec), S.After(serving, cfg);
    SentIsReceivedInLockOrder(sending, serving, cfg, layout, u);
    DispatchedInOrder(serving, cfg, u);
    MessagesOfAppend(t.delivered, t.port.inbox, u);
    var out, taken, all := MessagesOf(Origins(t.dispatched), u), MessagesOf(t.delivered, u), W.BodiesOf(s, s.order);
    assert out + [] == out && taken <= all && taken + all[|taken|..] == all;
    SubsequenceJoin(out, taken, [], all[|taken|..]);
  }

  /** When, besides, all that has been received is read and flushed, the application has every message exactly once, if
      and only if every read let every one of them pass. */
  lemma EverythingSentIsDispatchedIff(sending: seq<W.Action>, serving: seq<S.Action>, cfg: S.Config, layout: Layout,
                                      u: S.Uuid)
    requires cfg.codec == TcpCodec(layout)
    requires var p := S.After(serving, cfg).port;
      && u in p.sockets && p.sockets[u].arrived == W.After(sending, cfg.codec).wire
      && ReadThrough(p, u, cfg.codec) && p.inbox == []
    requires S.After(serving, cfg).commands == []
    requires var s := W.After(sending, cfg.codec);
      W.AllDone(s) && forall id <- s.writers :: Exact(layout.bytes, |s.writers[id].body|)
    ensures var s, t := W.After(sending, cfg.codec), S.After(serving, cfg);
      && W.Known(s, s.order) && W.Known(s, s.spawned)
      && multiset(W.BodiesOf(s, s.order)) == multiset(W.BodiesOf(s, s.spawned))
      && (MessagesOf(Origins(t.dispatched), u) == W.BodiesOf(s, s.order) <==> EveryReadPasses(serving, cfg, u))
  {
    var t := S.After(serving, cfg);
    EverythingSentIsReceived(sending, serving, cfg, layout, u);
    AllDispatchedIff(serving, cfg, u);
    assert t.delivered + t.port.inbox == t.delivered && t.dispatched + t.commands == t.dispatched;
  }

  // ---------- from the server to a client ----------

  lemma {:induction false} FramesAreNotRefused(items: seq<Item>, bodies: seq<Body>)
    requires items <= Frames(bodies)
    ensures !AnyRefused(items)
  {
    if items == [] {
    } else {
      assert Frames(bodies)[1..] == Frames(bodies[1..]);
      FramesAreNotRefused(items[1..], bodies[1..]);
    }
  }

  /** A client's read loop delivers the leading messages of its stream and panics on a refused header. On whatever part
      of the server's wire has arrived it never panics, and delivers messages of the server's tasks in the order in
      which they got the lock, without gap, repetition or change. */
  lemma ClientReceivesInLockOrder(sending: seq<W.Action>, received: seq<Byte>, layout: Layout)
    requires received <= W.After(sending, TcpCodec(layout)).wire
    requires var s := W.After(sending, TcpCodec(layout));
      W.Known(s, s.order) && forall id <- s.order :: Exact(layout.bytes, |s.writers[id].body|)
    ensures var s, items := W.After(sending, TcpCodec(layout)), Items(received, TcpCodec(layout));
      !AnyRefused(items) && Leading(items) <= W.BodiesOf(s, s.order)
  {
    var codec := TcpCodec(layout);
    var s := W.After(sending, codec);
    TcpCodecCarries(layout);
    OrderCarried(s, s.order, codec, layout);
    W.ReceivedDecodes(sending, codec, received);
    FramesAreNotRefused(Items(received, codec), W.BodiesOf(s, s.order));
    LeadingIsAll(Items(received, codec));
    W.ReceivedIsInLockOrder(sending, codec, received);
  }

  /** When every task is done and the whole wire has arrived, the client has every message exactly once. */
  lemma ClientReceivesEverything(sending: seq<W.Action>, layout: Layout)
    requires var s := W.After(sending, TcpCodec(layout));
      W.AllDone(s) && forall id <- s.writers :: Exact(layout.bytes, |s.writers[id].body|)
    ensures var s, items := W.After(sending, TcpCodec(layout)),
                            Items(W.After(sending, TcpCodec(layout)).wire, TcpCodec(layout));
      && W.Known(s, s.order) && W.Known(s, s.spawned) && !AnyRefused(items)
      && Leading(items) == W.BodiesOf(s, s.order)
      && multiset(Leading(items)) == multiset(W.BodiesOf(s, s.spawned))
  {
    var codec := TcpCodec(layout);
    var s := W.After(sending, codec);
    TcpCodecCarries(layout);
    W.AllSentArriveOnce(sending, codec);
    OrderCarried(s, s.order, codec, layout);
    FramesAreNotRefused(Items(s.wire, codec), W.BodiesOf(s, s.order));
    LeadingIsAll(Items(s.wire, codec));
    BodiesOfFrames(W.BodiesOf(s, s.order));
  }
}
