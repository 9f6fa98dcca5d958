/** Runs of the server in which a signal gets lost: a notice that another client's reader takes, and a disconnect that
    nobody reports. Two clients have connected, and the first one is listened to. */
module LostSignals {
  import opened Basics
  import opened Bytes
  import opened LengthHeader
  import opened FrameStream
  import opened ServerClients
  import opened Admission
  import opened ReaderLocks
  import opened DisconnectReports

  /** Two clients are accepted, registered and given their first readers. */
  const REGISTERED: seq<Action> := [StartRuntime, Accept, Accept, Register(0), Register(1), ListenWaiting]

  const UNREAD: Socket := FRESH.(first := WaitRead, firsts := 1)

  /** The server with these two clients, whose sockets are first and second. */
  function TwoClients(first: Socket, second: Socket, clock: nat): Server {
    INIT.(runtime := true, clock := clock,
          port := INIT.port.(waiting := map[0 := true, 1 := true], sockets := map[0 := first, 1 := second]))
  }

  lemma TwoRegistered(cfg: Config)
    ensures After(REGISTERED, cfg) == TwoClients(UNREAD, UNREAD, 6)
  {
    var accepted := INIT.(runtime := true, clock := 3, port := INIT.port.(accepted := 2));
    TwoAccepted(cfg);
    var registered := accepted.(clock := 5, port := accepted.port.(
      accepted := 0, waiting := map[0 := false, 1 := false], sockets := map[0 := FRESH, 1 := FRESH]));
    assert REGISTERED[..4] == REGISTERED[..3] + [Register(0)];
    assert REGISTERED[..5] == REGISTERED[..4] + [Register(1)];
    assert REGISTERED == REGISTERED[..5] + [ListenWaiting];
    AfterSnoc(REGISTERED[..3], Register(0), cfg);
    AfterSnoc(REGISTERED[..4], Register(1), cfg);
    AfterSnoc(REGISTERED[..5], ListenWaiting, cfg);
    assert After(REGISTERED[..5], cfg) == registered;
    ListenToBoth(registered, cfg);
  }

  lemma TwoAccepted(cfg: Config)
    ensures After(REGISTERED[..3], cfg) == INIT.(runtime := true, clock := 3, port := INIT.port.(accepted := 2))
  {
    assert REGISTERED[..1] == [] + [StartRuntime];
    assert REGISTERED[..2] == REGISTERED[..1] + [Accept];
    assert REGISTERED[..3] == REGISTERED[..2] + [Accept];
    AfterSnoc([], StartRuntime, cfg);
    AfterSnoc(REGISTERED[..1], Accept, cfg);
    AfterSnoc(REGISTERED[..2], Accept, cfg);
  }

  lemma ListenToBoth(s: Server, cfg: Config)
    requires s == INIT.(runtime := true, clock := 5, port := INIT.port.(
      waiting := map[0 := false, 1 := false], sockets := map[0 := FRESH, 1 := FRESH]))
    ensures Next(s, ListenWaiting, cfg) == TwoClients(UNREAD, UNREAD, 6)
  {
    var p := CheckNotAuthenticatedClients(s.port, true);
    assert p.waiting == map[0 := true, 1 := true];
    assert p.sockets == map[0 := UNREAD, 1 := UNREAD];
  }

  /** The first client's reader has found no notice and waits for a header. */
  const LISTENED: seq<Action> := REGISTERED + [Run(0, First)] + [Run(0, First)] + [Run(0, First)]

  const READING: Socket := UNREAD.(first := ReadHeader([]), lock := Some(First))

  lemma FirstIsListenedTo(cfg: Config)
    ensures After(LISTENED, cfg) == TwoClients(READING, UNREAD, 9)
  {
    TwoRegistered(cfg);
    var locked := UNREAD.(first := WaitNotices, lock := Some(First));
    AfterSnoc(REGISTERED, Run(0, First), cfg);
    AfterSnoc(REGISTERED + [Run(0, First)], Run(0, First), cfg);
    AfterSnoc(REGISTERED + [Run(0, First)] + [Run(0, First)], Run(0, First), cfg);
    var s := TwoClients(UNREAD, UNREAD, 6);
    var t := TwoClients(locked, UNREAD, 7);
    assert s.port.sockets[0 := locked] == t.port.sockets;
    assert Next(s, Run(0, First), cfg) == t;
    DrainsNothing(t, cfg);
  }

  lemma DrainsNothing(s: Server, cfg: Config)
    requires s == TwoClients(UNREAD.(first := WaitNotices, lock := Some(First)), UNREAD, 7)
    ensures Next(Next(s, Run(0, First), cfg), Run(0, First), cfg) == TwoClients(READING, UNREAD, 9)
  {
    var draining := UNREAD.(first := Draining, lock := Some(First));
    assert s.port.sockets[0 := draining] == map[0 := draining, 1 := UNREAD];
    assert s.port.sockets[0 := draining][0 := READING] == map[0 := READING, 1 := UNREAD];
  }

  // ---------- the first client sends something ----------

  const READ: Action := Run(0, First)

  /** n steps of the first client's reader. */
  function Reads(run: seq<Action>, n: nat): seq<Action> {
    if n == 0 then run else Reads(run, n - 1) + [READ]
  }

  /** A run of such steps, given the server after each of them. */
  lemma {:induction false} ReadsInARow(run: seq<Action>, states: seq<Server>, cfg: Config)
    requires states != [] && After(run, cfg) == states[0]
    requires forall i :: 0 <= i < |states| - 1 ==> Next(states[i], READ, cfg) == states[i + 1]
    ensures After(Reads(run, |states| - 1), cfg) == states[|states| - 1]
    decreases |states|
  {
    var n := |states| - 1;
    if n == 0 {
    } else {
      ReadsInARow(run, states[..n], cfg);
      AfterSnoc(Reads(run, n - 1), READ, cfg);
    }
  }

  /** A step of the first client's reader that concerns only its socket. */
  lemma ReadsSilently(cfg: Config, sk: Socket, sk': Socket, clock: nat)
    requires ReaderStep(sk, 0, First, TwoClients(sk, UNREAD, clock).port, cfg.codec) == (sk', Silent)
    ensures Next(TwoClients(sk, UNREAD, clock), READ, cfg) == TwoClients(sk', UNREAD, clock + 1)
  {
    assert TwoClients(sk, UNREAD, clock).port.sockets[0 := sk'] == TwoClients(sk', UNREAD, clock + 1).port.sockets;
  }

  /** The reader with n bytes of the header. */
  function InHeader(data: seq<Byte>, n: nat): Socket
    requires n <= |data|
  {
    READING.(arrived := data, pos := n, first := ReadHeader(data[..n]))
  }

  lemma HeaderByte(data: seq<Byte>, n: nat, p: Port, codec: Codec)
    requires n < |data| && n < codec.width
    ensures ReaderStep(InHeader(data, n), 0, First, p, codec) == (InHeader(data, n + 1), Silent)
  {
    assert data[..n + 1] == data[..n] + [data[n]];
  }

  lemma DataArrives(cfg: Config, data: seq<Byte>)
    ensures After(LISTENED + [Arrive(0, data)], cfg) == TwoClients(InHeader(data, 0), UNREAD, 10)
  {
    FirstIsListenedTo(cfg);
    AfterSnoc(LISTENED, Arrive(0, data), cfg);
    assert [] + data == data && data[..0] == [];
    assert TwoClients(READING, UNREAD, 9).port.sockets[0 := InHeader(data, 0)]
        == TwoClients(InHeader(data, 0), UNREAD, 10).port.sockets;
  }

  lemma HeaderStep(cfg: Config, data: seq<Byte>, n: nat, clock: nat)
    requires n < |data| && n < cfg.codec.width
    ensures Next(TwoClients(InHeader(data, n), UNREAD, clock), READ, cfg)
         == TwoClients(InHeader(data, n + 1), UNREAD, clock + 1)
  {
    HeaderByte(data, n, TwoClients(InHeader(data, n), UNREAD, clock).port, cfg.codec);
    ReadsSilently(cfg, InHeader(data, n), InHeader(data, n + 1), clock);
  }

  lemma HeaderStates(cfg: Config, data: seq<Byte>) returns (states: seq<Server>)
    requires cfg.codec.width <= |data|
    ensures |states| == cfg.codec.width + 1 && states[0] == TwoClients(InHeader(data, 0), UNREAD, 10)
    ensures states[cfg.codec.width] == TwoClients(InHeader(data, cfg.codec.width), UNREAD, 10 + cfg.codec.width)
    ensures forall n :: 0 <= n < |states| - 1 ==> Next(states[n], READ, cfg) == states[n + 1]
  {
    var w := cfg.codec.width;
    states := seq(w + 1, n requires 0 <= n <= w => TwoClients(InHeader(data, n), UNREAD, 10 + n));
    forall n | 0 <= n < w
      ensures Next(states[n], READ, cfg) == states[n + 1]
    {
      HeaderStep(cfg, data, n, 10 + n);
    }
  }

  lemma HeaderIsRead(cfg: Config, data: seq<Byte>)
    requires cfg.codec.width <= |data|
    ensures After(Reads(LISTENED + [Arrive(0, data)], cfg.codec.width), cfg)
         == TwoClients(InHeader(data, cfg.codec.width), UNREAD, 10 + cfg.codec.width)
  {
    var states := HeaderStates(cfg, data);
    DataArrives(cfg, data);
    ReadsInARow(LISTENED + [Arrive(0, data)], states, cfg);
  }

  // ---------- a disconnect nobody reports ----------

  /** The first client sends a header no vector can satisfy, and closes its stream. */
  function GoneUnnoticed(header: seq<Byte>): seq<Action> {
    Reads(LISTENED + [Arrive(0, header)], |header|) + [READ] + [Close(0)]
  }

  lemma RefusedAndClosed(cfg: Config, header: seq<Byte>)
    requires |header| == cfg.codec.width && cfg.codec.decode(header) > ISIZE_MAX
    ensures After(GoneUnnoticed(header), cfg)
         == TwoClients(UNREAD.(arrived := header, pos := |header|, base := |header|, first := Ended(Panicked),
                               closed := true), UNREAD, 12 + |header|)
  {
    var n := |header|;
    var run := Reads(LISTENED + [Arrive(0, header)], n);
    var dead := UNREAD.(arrived := header, pos := n, base := n, first := Ended(Panicked));
    HeaderIsRead(cfg, header);
    assert header[..n] == header;
    ReadsSilently(cfg, InHeader(header, n), dead, 10 + n);
    AfterSnoc(run, READ, cfg);
    AfterSnoc(run + [READ], Close(0), cfg);
    assert TwoClients(dead, UNREAD, 11 + n).port.sockets[0 := dead.(closed := true)]
        == TwoClients(dead.(closed := true), UNREAD, 12 + n).port.sockets;
  }

  /** Its reader is dead, and whatever happens from then on, nobody reports the client and it goes on waiting, until a
      login it sent before is granted. Every header type but the three short unsigned ones has such a header. */
  lemma ClientIsGoneUnnoticed(cfg: Config, layout: Layout, more: seq<Action>) returns (header: seq<Byte>)
    requires cfg.codec == TcpCodec(layout) && CanBeRefused(layout.bytes)
    ensures var s, t := After(GoneUnnoticed(header), cfg), After(GoneUnnoticed(header) + more, cfg);
      && 0 in s.port.sockets && s.port.sockets[0].closed && StatusOf(s, 0) == Unauthenticated
      && s.port.sockets[0].first == Ended(Panicked)
      && (0, First) !in t.port.reported
      && (StatusOf(t, 0) == Unauthenticated || 0 in t.clientsConnected)
  {
    RefusedHeaderIff(layout);
    header :| |header| == Width(layout.bytes) && HeaderSize(header, layout) > ISIZE_MAX;
    RefusedAndClosed(cfg, header);
    UnreportedForever(GoneUnnoticed(header), more, cfg, 0);
    ReportedIffEnded(GoneUnnoticed(header) + more, cfg, 0, First);
  }

  // ---------- a notice another reader takes ----------

  /** The reader with the header and n bytes of the body. */
  function InBody(message: Body, n: nat, codec: Codec): Socket
    requires n <= |message| && codec.Carries(|message|)
  {
    READING.(arrived := FrameBytes(message, codec), pos := codec.width + n, first := ReadBody(|message|, message[..n]))
  }

  /** The first client sends a message, and its reader reads all of it. */
  function BodyRead(message: Body, codec: Codec): seq<Action> {
    Reads(Reads(LISTENED + [Arrive(0, FrameBytes(message, codec))], codec.width) + [READ], |message|)
  }

  lemma SizeKnown(message: Body, p: Port, codec: Codec)
    requires codec.Valid() && codec.Carries(|message|)
    ensures ReaderStep(InHeader(FrameBytes(message, codec), codec.width), 0, First, p, codec)
         == (InBody(message, 0, codec), Silent)
  {
    assert FrameBytes(message, codec)[..codec.width] == codec.encode(|message|) && message[..0] == [];
  }

  lemma BodyByte(message: Body, n: nat, p: Port, codec: Codec)
    requires codec.Valid() && codec.Carries(|message|) && n < |message|
    ensures ReaderStep(InBody(message, n, codec), 0, First, p, codec) == (InBody(message, n + 1, codec), Silent)
  {
    assert FrameBytes(message, codec)[codec.width + n] == message[n];
    assert message[..n + 1] == message[..n] + [message[n]];
  }

  lemma BodyDone(message: Body, p: Port, codec: Codec)
    requires codec.Valid() && codec.Carries(|message|) && p.alive
    ensures ReaderStep(InBody(message, |message|, codec), 0, First, p, codec)
         == (Delivered(message, codec), Deliver(message))
  {
    assert message[..|message|] == message;
  }

  lemma BodyStep(cfg: Config, message: Body, n: nat, clock: nat)
    requires cfg.codec.Valid() && cfg.codec.Carries(|message|) && n < |message|
    ensures Next(TwoClients(InBody(message, n, cfg.codec), UNREAD, clock), READ, cfg)
         == TwoClients(InBody(message, n + 1, cfg.codec), UNREAD, clock + 1)
  {
    BodyByte(message, n, TwoClients(InBody(message, n, cfg.codec), UNREAD, clock).port, cfg.codec);
    ReadsSilently(cfg, InBody(message, n, cfg.codec), InBody(message, n + 1, cfg.codec), clock);
  }

  lemma BodyStates(cfg: Config, message: Body, clock: nat) returns (states: seq<Server>)
    requires cfg.codec.Valid() && cfg.codec.Carries(|message|)
    ensures |states| == |message| + 1 && states[0] == TwoClients(InBody(message, 0, cfg.codec), UNREAD, clock)
    ensures states[|message|] == TwoClients(InBody(message, |message|, cfg.codec), UNREAD, clock + |message|)
    ensures forall n :: 0 <= n < |states| - 1 ==> Next(states[n], READ, cfg) == states[n + 1]
  {
    var w := |message|;
    states := seq(w + 1, n requires 0 <= n <= w => TwoClients(InBody(message, n, cfg.codec), UNREAD, clock + n));
    forall n | 0 <= n < w
      ensures Next(states[n], READ, cfg) == states[n + 1]
    {
      BodyStep(cfg, message, n, clock + n);
    }
  }

  lemma ReadsBody(run: seq<Action>, cfg: Config, message: Body, clock: nat)
    requires cfg.codec.Valid() && cfg.codec.Carries(|message|)
    requires After(run, cfg) == TwoClients(InBody(message, 0, cfg.codec), UNREAD, clock)
    ensures After(Reads(run, |message|), cfg)
         == TwoClients(InBody(message, |message|, cfg.codec), UNREAD, clock + |message|)
  {
    var states := BodyStates(cfg, message, clock);
    ReadsInARow(run, states, cfg);
  }

  lemma BodyIsRead(cfg: Config, message: Body)
    requires cfg.codec.Valid() && cfg.codec.Carries(|message|)
    ensures After(BodyRead(message, cfg.codec), cfg)
         == TwoClients(InBody(message, |message|, cfg.codec), UNREAD, 11 + cfg.codec.width + |message|)
  {
    var w, data := cfg.codec.width, FrameBytes(message, cfg.codec);
    var run := Reads(LISTENED + [Arrive(0, data)], w);
    HeaderIsRead(cfg, data);
    AfterSnoc(run, READ, cfg);
    SizeKnown(message, TwoClients(InHeader(data, w), UNREAD, 10 + w).port, cfg.codec);
    ReadsSilently(cfg, InHeader(data, w), InBody(message, 0, cfg.codec), 10 + w);
    ReadsBody(run + [READ], cfg, message, 11 + w);
  }

  /** The message has been delivered, and its reader asks for the notices again. */
  function Delivered(message: Body, codec: Codec): Socket
    requires codec.Carries(|message|)
  {
    var frame := FrameBytes(message, codec);
    READING.(arrived := frame, pos := codec.width + |message|, base := codec.width + |message|, first := WaitNotices)
  }

  function WithMessage(message: Body, codec: Codec, clock: nat): Server
    requires codec.Carries(|message|)
  {
    var s := TwoClients(Delivered(message, codec), UNREAD, clock);
    s.(port := s.port.(inbox := [(0, message)], pushed := [(0, message)]))
  }

  lemma Delivers(cfg: Config, message: Body)
    requires cfg.codec.Valid() && cfg.codec.Carries(|message|)
    ensures After(BodyRead(message, cfg.codec) + [READ], cfg)
         == WithMessage(message, cfg.codec, 12 + cfg.codec.width + |message|)
  {
    BodyIsRead(cfg, message);
    AfterSnoc(BodyRead(message, cfg.codec), READ, cfg);
    DeliveryStep(cfg, message, 11 + cfg.codec.width + |message|);
  }

  lemma DeliveryStep(cfg: Config, message: Body, clock: nat)
    requires cfg.codec.Valid() && cfg.codec.Carries(|message|)
    ensures Next(TwoClients(InBody(message, |message|, cfg.codec), UNREAD, clock), READ, cfg)
         == WithMessage(message, cfg.codec, clock + 1)
  {
    var sk := InBody(message, |message|, cfg.codec);
    BodyDone(message, TwoClients(sk, UNREAD, clock).port, cfg.codec);
    assert TwoClients(sk, UNREAD, clock).port.sockets[0 := Delivered(message, cfg.codec)]
        == WithMessage(message, cfg.codec, clock + 1).port.sockets;
  }

  /** The message is a login and is granted; the notice for the first client is sent while its reader waits for the
      channel, and the reader of the second client comes first. */
  function LostNotice(message: Body, codec: Codec): seq<Action> {
    Notified(message, codec) + [Run(1, First)] + [Run(1, First)] + [Run(1, First)]
  }

  /** The server once the login is granted and the notice sent. */
  function Admitted(message: Body, codec: Codec, second: Socket, drainer: Option<Uuid>, at: nat, clock: nat): Server
    requires codec.Carries(|message|)
  {
    var command := Command(0, message, at);
    var served := Delivered(message, codec).(second := WaitRead, seconds := 1);
    INIT.(runtime := true, clock := clock, clientsConnected := {0}, dispatched := [command],
          delivered := [(0, message)],
          port := INIT.port.(waiting := map[1 := true], listening := map[0 := true],
                             sockets := map[0 := served, 1 := second], notices := [0], drainer := drainer,
                             pushed := [(0, message)]))
  }

  lemma GrantsLogin(cfg: Config, message: Body, at: nat)
    requires cfg.codec.Carries(|message|) && cfg.kind(message) == Registered(true, true)
    ensures var s := WithMessage(message, cfg.codec, at);
      Next(Next(Next(Next(s, ReadMessages, cfg), Flush, cfg), Login(true), cfg), Notify, cfg)
        == Admitted(message, cfg.codec, UNREAD, None, at, at + 4)
  {
    var s := WithMessage(message, cfg.codec, at);
    var command := Command(0, message, at);
    assert Gate([(0, message)], {}, at, cfg) == [command] + Gate([], {}, at, cfg);
    assert forall m <- s.port.inbox :: m == (0, message);
    assert ReadBatch(s.port.inbox, {}, at, cfg) == [command];
    assert Logins([command], cfg) == [0];
    var read := s.(port := s.port.(inbox := []), delivered := [(0, message)], commands := [command], clock := at + 1);
    assert Next(s, ReadMessages, cfg) == read;
    var flushed := read.(dispatched := [command], logins := [0], commands := [], clock := at + 2);
    assert Next(read, Flush, cfg) == flushed;
    LoginAndNotify(cfg, message, flushed, at);
  }

  lemma FirstIsPromoted(message: Body, p: Port, codec: Codec, at: nat)
    requires codec.Carries(|message|)
    requires p == TwoClients(Delivered(message, codec), UNREAD, 0).port.(pushed := [(0, message)])
    ensures SendNotice(Promote(p, 0, true), 0) == Admitted(message, codec, UNREAD, None, at, 0).port
  {
    var q := Promote(p, 0, true);
    assert q.waiting == map[1 := true];
    assert q.listening == map[0 := true];
    assert q.sockets == Admitted(message, codec, UNREAD, None, at, 0).port.sockets;
  }

  lemma LoginAndNotify(cfg: Config, message: Body, s: Server, at: nat)
    requires cfg.codec.Carries(|message|)
    requires s == TwoClients(Delivered(message, cfg.codec), UNREAD, at + 2).(
      port := TwoClients(Delivered(message, cfg.codec), UNREAD, 0).port.(pushed := [(0, message)]),
      delivered := [(0, message)], dispatched := [Command(0, message, at)], logins := [0])
    ensures Next(Next(s, Login(true), cfg), Notify, cfg) == Admitted(message, cfg.codec, UNREAD, None, at, at + 4)
  {
    FirstIsPromoted(message, s.port, cfg.codec, at);
  }

  const LOCKED: Socket := UNREAD.(first := WaitNotices, lock := Some(First))
  const DRAINING: Socket := LOCKED.(first := Draining)

  lemma SecondDrains(cfg: Config, message: Body, at: nat, clock: nat)
    requires cfg.codec.Carries(|message|)
    ensures Next(Next(Admitted(message, cfg.codec, UNREAD, None, at, clock), Run(1, First), cfg), Run(1, First), cfg)
         == Admitted(message, cfg.codec, DRAINING, Some(1), at, clock + 2)
  {
    var s := Admitted(message, cfg.codec, UNREAD, None, at, clock);
    assert s.port.sockets[1 := LOCKED] == Admitted(message, cfg.codec, LOCKED, None, at, clock).port.sockets;
    assert Next(s, Run(1, First), cfg) == Admitted(message, cfg.codec, LOCKED, None, at, clock + 1);
    assert s.port.sockets[1 := LOCKED][1 := DRAINING]
        == Admitted(message, cfg.codec, DRAINING, Some(1), at, clock).port.sockets;
  }

  /** The run up to the notice. */
  function Notified(message: Body, codec: Codec): seq<Action> {
    UpToNotice(BodyRead(message, codec) + [READ])
  }

  function UpToNotice(run: seq<Action>): seq<Action> {
    run + [ReadMessages] + [Flush] + [Login(true)] + [Notify]
  }

  lemma FourSteps(run: seq<Action>, a: Action, b: Action, c: Action, d: Action, cfg: Config)
    ensures After(run + [a] + [b] + [c] + [d], cfg)
         == Next(Next(Next(Next(After(run, cfg), a, cfg), b, cfg), c, cfg), d, cfg)
  {
    AfterSnoc(run, a, cfg);
    AfterSnoc(run + [a], b, cfg);
    AfterSnoc(run + [a] + [b], c, cfg);
    AfterSnoc(run + [a] + [b] + [c], d, cfg);
  }

  lemma NoticeIsSent(cfg: Config, message: Body, at: nat)
    requires cfg.codec.Valid() && cfg.codec.Carries(|message|) && cfg.kind(message) == Registered(true, true)
    requires at == 12 + cfg.codec.width + |message|
    ensures After(Notified(message, cfg.codec), cfg) == Admitted(message, cfg.codec, UNREAD, None, at, at + 4)
  {
    Delivers(cfg, message);
    NoticeFollows(BodyRead(message, cfg.codec) + [READ], cfg, message, at);
  }

  lemma NoticeFollows(run: seq<Action>, cfg: Config, message: Body, at: nat)
    requires cfg.codec.Carries(|message|) && cfg.kind(message) == Registered(true, true)
    requires After(run, cfg) == WithMessage(message, cfg.codec, at)
    ensures After(UpToNotice(run), cfg) == Admitted(message, cfg.codec, UNREAD, None, at, at + 4)
  {
    FourSteps(run, ReadMessages, Flush, Login(true), Notify, cfg);
    GrantsLogin(cfg, message, at);
  }

  lemma SecondFollows(run: seq<Action>, cfg: Config, message: Body, at: nat, clock: nat)
    requires cfg.codec.Carries(|message|)
    requires After(run, cfg) == Admitted(message, cfg.codec, UNREAD, None, at, clock)
    ensures After(run + [Run(1, First)] + [Run(1, First)], cfg)
         == Admitted(message, cfg.codec, DRAINING, Some(1), at, clock + 2)
  {
    AfterSnoc(run, Run(1, First), cfg);
    AfterSnoc(run + [Run(1, First)], Run(1, First), cfg);
    SecondDrains(cfg, message, at, clock);
  }

  lemma SecondIsDraining(cfg: Config, message: Body, at: nat)
    requires cfg.codec.Valid() && cfg.codec.Carries(|message|) && cfg.kind(message) == Registered(true, true)
    requires at == 12 + cfg.codec.width + |message|
    ensures After(Notified(message, cfg.codec) + [Run(1, First)] + [Run(1, First)], cfg)
         == Admitted(message, cfg.codec, DRAINING, Some(1), at, at + 6)
  {
    NoticeIsSent(cfg, message, at);
    SecondFollows(Notified(message, cfg.codec), cfg, message, at, at + 4);
  }

  /** For every login message that the header carries: the client is admitted, its notice is taken by the reader of the
      other client, and its own first reader is alive and never stopped, while the second one waits for the stream. */
  lemma NoticeIsLost(cfg: Config, message: Body, more: seq<Action>)
    requires cfg.codec.Valid() && cfg.codec.Carries(|message|) && cfg.kind(message) == Registered(true, true)
    ensures var s := After(LostNotice(message, cfg.codec), cfg);
      && StatusOf(s, 0) == Authenticated && NoticeMissed(s, 0)
      && s.port.sockets[0].second == WaitRead && Live(s.port.sockets[0].first)
    ensures NoticeMissed(After(LostNotice(message, cfg.codec) + more, cfg), 0)
  {
    var run := Notified(message, cfg.codec) + [Run(1, First)] + [Run(1, First)];
    SecondIsDraining(cfg, message, 12 + cfg.codec.width + |message|);
    AnotherTakesTheNotice(run, cfg, 0, 1);
    AfterSnoc(run, Run(1, First), cfg);
    ForeignNoticeSkipped(After(run, cfg).port, 0, 1, cfg.codec);
    MissedForever(LostNotice(message, cfg.codec), more, cfg, 0);
  }
}
