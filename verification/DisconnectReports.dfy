/** Which clients are reported when their stream ends. A reader that panics on a refused header reports nobody, so it
    depends on the bytes that the client sends. */
module DisconnectReports {
  import opened Basics
  import opened LengthHeader
  import opened FrameStream
  import opened ServerClients
  import opened Admission
  import opened Handover
  import opened ReaderLocks

  function Refusals(items: seq<Item>): nat {
    if items == [] then 0 else Flag(items[0].Refused?) + Refusals(items[1..])
  }

  lemma {:induction false} RefusalsAppend(a: seq<Item>, b: seq<Item>)
    ensures Refusals(a + b) == Refusals(a) + Refusals(b)
  {
    if a == [] {
      assert a + b == b;
    } else {
      assert (a + b)[1..] == a[1..] + b;
      RefusalsAppend(a[1..], b);
    }
  }

  function Panics(sk: Socket): nat {
    Flag(sk.first == Ended(Panicked)) + Flag(sk.second == Ended(Panicked))
  }

  function RefusedSoFar(sk: Socket, codec: Codec): nat
    requires sk.base <= |sk.arrived|
  {
    Refusals(Items(sk.arrived[..sk.base], codec))
  }

  /** While the port exists, a reader panics on a refused header and on nothing else; it ends otherwise only with its
      stream, and only the first one on a notice. */
  ghost predicate EndingsFit(sk: Socket, codec: Codec) {
    && sk.base <= |sk.arrived|
    && Panics(sk) == RefusedSoFar(sk, codec)
    && sk.first != Ended(Orphaned) && sk.second != Ended(Orphaned) && sk.second != Ended(Notified)
  }

  ghost predicate Endings(p: Port, codec: Codec) {
    p.alive ==> forall u <- p.sockets :: EndingsFit(p.sockets[u], codec)
  }

  // ---------- what every step keeps ----------

  lemma RoundCounts(sk: Socket, codec: Codec)
    requires OnBoundary(sk, codec)
    requires FrontLength(sk.arrived[sk.base..sk.pos], codec) == Some(sk.pos - sk.base)
    ensures Refusals(Items(sk.arrived[..sk.pos], codec))
         == RefusedSoFar(sk, codec) + Flag(FrontItem(sk.arrived[sk.base..sk.pos], codec).Refused?)
  {
    var item := FrontItem(sk.arrived[sk.base..sk.pos], codec);
    TwoParts(sk.arrived, sk.base, sk.pos, codec);
    OneItem(sk.arrived[sk.base..sk.pos], codec);
    RefusalsAppend(Items(sk.arrived[..sk.base], codec), [item]);
    assert [item][1..] == [];
  }

  lemma ReaderStepEndings(sk: Socket, u: Uuid, w: Which, p: Port, codec: Codec)
    requires p.alive && SocketOk(sk, true, codec) && EndingsFit(sk, codec)
    ensures EndingsFit(ReaderStep(sk, u, w, p, codec).0, codec)
  {
    var r := sk.Reader(w);
    if r.ReadHeader? && |r.buf| >= codec.width && codec.decode(r.buf) > ISIZE_MAX {
      HeaderRefused(sk, w, codec);
    } else if r.ReadBody? && |r.body| >= r.size {
      BodyCounts(sk, w, codec);
    } else {
      NoRoundEnds(sk, u, w, p, codec);
    }
  }

  lemma NoRoundEnds(sk: Socket, u: Uuid, w: Which, p: Port, codec: Codec)
    requires p.alive && LockFits(sk) && EndingsFit(sk, codec)
    requires var r := sk.Reader(w);
      && !(r.ReadHeader? && |r.buf| >= codec.width && codec.decode(r.buf) > ISIZE_MAX)
      && !(r.ReadBody? && |r.body| >= r.size)
    ensures EndingsFit(ReaderStep(sk, u, w, p, codec).0, codec)
  {
    var sk' := ReaderStep(sk, u, w, p, codec).0;
    assert sk'.base == sk.base && sk'.arrived == sk.arrived && Panics(sk') == Panics(sk);
  }

  lemma HeaderRefused(sk: Socket, w: Which, codec: Codec)
    requires SocketOk(sk, true, codec) && sk.Reader(w).ReadHeader?
    requires |sk.Reader(w).buf| >= codec.width && codec.decode(sk.Reader(w).buf) > ISIZE_MAX
    ensures Refusals(Items(sk.arrived[..sk.pos], codec)) == RefusedSoFar(sk, codec) + 1
  {
    var item := sk.arrived[sk.base..sk.pos];
    assert BufferFits(sk, sk.Reader(w), codec);
    assert item[..codec.width] == item;
    RoundCounts(sk, codec);
  }

  lemma BodyCounts(sk: Socket, w: Which, codec: Codec)
    requires SocketOk(sk, true, codec) && sk.Reader(w).ReadBody? && |sk.Reader(w).body| >= sk.Reader(w).size
    ensures Refusals(Items(sk.arrived[..sk.pos], codec)) == RefusedSoFar(sk, codec)
  {
    var item := sk.arrived[sk.base..sk.pos];
    assert BufferFits(sk, sk.Reader(w), codec);
    SliceOfSlice(sk.arrived, sk.base, sk.pos, codec.width);
    RoundCounts(sk, codec);
  }

  lemma SocketKeepsEndings(p: Port, u: Uuid, w: Which, sk: Socket, e: Effect, codec: Codec)
    requires Endings(p, codec) && u in p.sockets && (p.alive ==> EndingsFit(sk, codec))
    ensures Endings(Apply(p, u, w, sk, e), codec)
  {
    ApplyFrame(p, u, w, sk, e);
  }

  lemma RunKeepsEndings(p: Port, u: Uuid, w: Which, codec: Codec)
    requires Streams(p, codec) && Endings(p, codec)
    ensures Endings(RunReader(p, u, w, codec), codec)
  {
    if u in p.sockets {
      var (sk, e) := ReaderStep(p.sockets[u], u, w, p, codec);
      if p.alive { ReaderStepEndings(p.sockets[u], u, w, p, codec); }
      SocketKeepsEndings(p, u, w, sk, e, codec);
    }
  }

  /** Sockets that have consumed the same, and in which no reader starts or stops having ended. */
  lemma SameEndingsFit(sk: Socket, sk': Socket, codec: Codec)
    requires EndingsFit(sk, codec) && sk.base == sk'.base && sk.arrived <= sk'.arrived
    requires sk'.first == sk.first || (sk.first.NotSpawned? && sk'.first.WaitRead?)
    requires sk'.second == sk.second || (sk.second.NotSpawned? && sk'.second.WaitRead?)
    ensures EndingsFit(sk', codec)
  {
    assert sk'.arrived[..sk.base] == sk.arrived[..sk.base];
  }

  lemma ListenKeepsEndings(p: Port, runtime: bool, codec: Codec)
    requires Accounts(p) && Endings(p, codec)
    ensures Endings(CheckNotAuthenticatedClients(p, runtime), codec)
  {
    var p' := CheckNotAuthenticatedClients(p, runtime);
    forall u | p.alive && u in p.sockets
      ensures EndingsFit(p'.sockets[u], codec)
    {
      SameEndingsFit(p.sockets[u], p'.sockets[u], codec);
    }
  }

  lemma PromoteKeepsEndings(p: Port, u: Uuid, runtime: bool, codec: Codec)
    requires Accounts(p) && Endings(p, codec)
    ensures Endings(Promote(p, u, runtime), codec)
  {
    if p.alive && u in p.waiting { SameEndingsFit(p.sockets[u], p.sockets[u].Spawn(Second), codec); }
  }

  lemma RegisterKeepsEndings(p: Port, u: Uuid, codec: Codec)
    requires Endings(p, codec)
    ensures Endings(CheckClientsConnected(p, u), codec)
  {
    FreshOk(p.alive, codec);
    assert FRESH.arrived[..0] == [] && Items([], codec) == [];
  }

  lemma SameSocketsEnd(p: Port, p': Port, codec: Codec)
    requires Endings(p, codec) && p'.sockets == p.sockets && (p'.alive ==> p.alive)
    ensures Endings(p', codec)
  {
  }

  lemma MainKeepsEndings(s: Server, a: Action, cfg: Config)
    requires Accounts(s.port) && Endings(s.port, cfg.codec)
    ensures Endings(MainStep(s, a, cfg).port, cfg.codec)
  {
    match a
    case Register(u) => RegisterKeepsEndings(s.port, u, cfg.codec);
    case ListenWaiting => ListenKeepsEndings(s.port, s.runtime, cfg.codec);
    case Login(granted) =>
      if s.logins != [] { PromoteKeepsEndings(s.port, s.logins[0], s.runtime, cfg.codec); }
    case Reap => SameSocketsEnd(s.port, CheckClientsDisconnected(s.port), cfg.codec);
    case ReadMessages => SameSocketsEnd(s.port, MainStep(s, a, cfg).port, cfg.codec);
    case _ =>
  }

  lemma NetworkKeepsEndings(p: Port, u: Uuid, sk: Socket, codec: Codec)
    requires Endings(p, codec) && u in p.sockets && sk.base == p.sockets[u].base && p.sockets[u].arrived <= sk.arrived
    requires sk.first == p.sockets[u].first && sk.second == p.sockets[u].second
    ensures Endings(p.(sockets := p.sockets[u := sk]), codec)
  {
    if p.alive { SameEndingsFit(p.sockets[u], sk, codec); }
  }

  lemma StepKeepsEndings(s: Server, a: Action, cfg: Config)
    requires Accounts(s.port) && Streams(s.port, cfg.codec) && Endings(s.port, cfg.codec)
    ensures Endings(Step(s, a, cfg).port, cfg.codec)
  {
    match a
    case Run(u, w) => RunKeepsEndings(s.port, u, w, cfg.codec);
    case Arrive(u, data) =>
      if u in s.port.sockets && !s.port.sockets[u].closed {
        var sk := s.port.sockets[u];
        NetworkKeepsEndings(s.port, u, sk.(arrived := sk.arrived + data), cfg.codec);
      }
    case Close(u) =>
      if u in s.port.sockets { NetworkKeepsEndings(s.port, u, s.port.sockets[u].(closed := true), cfg.codec); }
    case Accept => assert Step(s, a, cfg).port.sockets == s.port.sockets;
    case Notify => assert Step(s, a, cfg).port.sockets == s.port.sockets;
    case _ => MainKeepsEndings(s, a, cfg);
  }

  lemma {:induction false} RunsKeepEndings(run: seq<Action>, cfg: Config)
    ensures Endings(After(run, cfg).port, cfg.codec)
    decreases |run|
  {
    if run == [] {
    } else {
      RunsKeepEndings(run[..|run| - 1], cfg);
      RunsKeepInv(run[..|run| - 1], cfg);
      RunsKeepStreams(run[..|run| - 1], cfg);
      StepKeepsEndings(After(run[..|run| - 1], cfg), run[|run| - 1], cfg);
    }
  }

  // ---------- results ----------

  /** While the port exists, as many of a client's readers have panicked as there are refused headers in what they have
      consumed. */
  lemma EveryRefusalKillsAReader(run: seq<Action>, cfg: Config, u: Uuid)
    requires After(run, cfg).port.alive && u in After(run, cfg).port.sockets
    ensures var sk := After(run, cfg).port.sockets[u];
      && sk.base <= |sk.arrived|
      && Panics(sk) == Refusals(Items(sk.arrived[..sk.base], cfg.codec))
  {
    RunsKeepEndings(run, cfg);
  }

  /** A client's readers that have come to rest on a stream that has ended have ended too, so the two results on reports
      below speak of every such client. */
  lemma RestMeansEnded(run: seq<Action>, cfg: Config, u: Uuid, w: Which)
    requires var p := After(run, cfg).port;
      && u in p.sockets && p.sockets[u].closed && Rests(p, u, cfg.codec)
      && !p.sockets[u].Reader(w).NotSpawned?
    ensures After(run, cfg).port.sockets[u].Reader(w).Ended?
  {
    if !After(run, cfg).port.sockets[u].Reader(w).Ended? {
      RunsKeepDrainer(run, cfg);
      RunsKeepStreams(run, cfg);
      RestsHasNoWork(After(run, cfg).port, u, w, cfg.codec);
    }
  }

  lemma RefusalsOfWhole(sk: Socket, alive: bool, codec: Codec)
    requires SocketOk(sk, alive, codec)
    ensures RefusedSoFar(sk, codec) <= Refusals(Items(sk.arrived, codec))
    ensures sk.first == Ended(EndOfStream) || sk.second == Ended(EndOfStream) ==>
      RefusedSoFar(sk, codec) == Refusals(Items(sk.arrived, codec))
  {
    DecodeResumes(sk.arrived[..sk.base], sk.arrived[sk.base..], codec);
    assert sk.arrived[..sk.base] + sk.arrived[sk.base..] == sk.arrived;
    assert [] + sk.arrived[sk.base..] == sk.arrived[sk.base..];
    RefusalsAppend(Items(sk.arrived[..sk.base], codec), Items(sk.arrived[sk.base..], codec));
  }

  lemma ReportedIffEnded(run: seq<Action>, cfg: Config, u: Uuid, w: Which)
    requires u in After(run, cfg).port.sockets
    ensures var p := After(run, cfg).port;
      (u, w) in p.reported <==> p.sockets[u].Reader(w) == Ended(EndOfStream)
  {
    RunsKeepInv(run, cfg);
    assert ReportsFit(After(run, cfg).port, u);
    assert (u, w) in multiset(After(run, cfg).port.reported) <==> (u, w) in After(run, cfg).port.reported;
  }

  /** A waiting client whose reader has ended is reported if and only if it has sent no header that was refused. */
  lemma WaitingReportedIff(run: seq<Action>, cfg: Config, u: Uuid)
    requires var p := After(run, cfg).port;
      p.alive && u in p.waiting && u in p.sockets && p.sockets[u].first.Ended?
    ensures var p := After(run, cfg).port;
      (u, First) in p.reported <==> Refusals(Items(p.sockets[u].arrived, cfg.codec)) == 0
  {
    var s := After(run, cfg);
    RunsKeepInv(run, cfg);
    RunsKeepStreams(run, cfg);
    RunsKeepEndings(run, cfg);
    ReportedIffEnded(run, cfg, u, First);
    WaitingUntouched(s, u);
    HowFirstEnded(s.port.sockets[u], cfg.codec);
  }

  lemma WaitingUntouched(s: Server, u: Uuid)
    requires Accounts(s.port) && Rights(s) && u in s.port.waiting && u in s.port.sockets
    ensures s.port.sockets[u].second.NotSpawned? && s.port.sockets[u].first != Ended(Notified)
  {
  }

  lemma HowFirstEnded(sk: Socket, codec: Codec)
    requires SocketOk(sk, true, codec) && EndingsFit(sk, codec)
    requires sk.first.Ended? && sk.first != Ended(Notified) && sk.second.NotSpawned?
    ensures sk.first == Ended(EndOfStream) <==> Refusals(Items(sk.arrived, codec)) == 0
  {
    RefusalsOfWhole(sk, true, codec);
    assert sk.first == Ended(sk.first.how) && (sk.first.how.EndOfStream? || sk.first.how.Panicked?);
  }

  /** The same for an authenticated client and its second reader, which a first refused header spares if it was the
      first reader that consumed it. */
  lemma AuthenticatedReportedIff(run: seq<Action>, cfg: Config, u: Uuid)
    requires var p := After(run, cfg).port; p.alive && u in p.sockets && p.sockets[u].second.Ended?
    ensures var p := After(run, cfg).port; var sk := p.sockets[u];
      (u, Second) in p.reported <==> Refusals(Items(sk.arrived, cfg.codec)) <= Flag(sk.first == Ended(Panicked))
  {
    RunsKeepStreams(run, cfg);
    RunsKeepEndings(run, cfg);
    ReportedIffEnded(run, cfg, u, Second);
    HowSecondEnded(After(run, cfg).port.sockets[u], cfg.codec);
  }

  lemma HowSecondEnded(sk: Socket, codec: Codec)
    requires SocketOk(sk, true, codec) && EndingsFit(sk, codec) && sk.second.Ended?
    ensures sk.second == Ended(EndOfStream)
       <==> Refusals(Items(sk.arrived, codec)) <= Flag(sk.first == Ended(Panicked))
  {
    RefusalsOfWhole(sk, true, codec);
    assert sk.second == Ended(sk.second.how) && (sk.second.how.EndOfStream? || sk.second.how.Panicked?);
  }

  /** The reader whose report would take the client out of its map has panicked. */
  ghost predicate Unreported(s: Server, u: Uuid) {
    && u in s.port.sockets
    && (|| (u in s.port.waiting && s.port.sockets[u].first == Ended(Panicked))
        || (u in s.port.listening && s.port.sockets[u].second == Ended(Panicked)))
  }

  lemma EndedStays(s: Server, a: Action, cfg: Config, u: Uuid, w: Which)
    requires Accounts(s.port) && u in s.port.sockets && s.port.sockets[u].Reader(w).Ended?
    ensures var t := Step(s, a, cfg);
      u in t.port.sockets && t.port.sockets[u].Reader(w) == s.port.sockets[u].Reader(w)
  {
    match a
    case Run(v, x) => if v in s.port.sockets { EndedStaysOnRun(s.port, v, x, cfg.codec, u, w); }
    case Login(_) =>
    case ListenWaiting =>
    case _ =>
  }

  lemma EndedStaysOnRun(p: Port, v: Uuid, x: Which, codec: Codec, u: Uuid, w: Which)
    requires u in p.sockets && p.sockets[u].Reader(w).Ended? && v in p.sockets
    ensures var p' := RunReader(p, v, x, codec);
      u in p'.sockets && p'.sockets[u].Reader(w) == p.sockets[u].Reader(w)
  {
    var (sk, e) := ReaderStep(p.sockets[v], v, x, p, codec);
    ReaderStepFrame(p.sockets[v], v, x, p, codec);
    ApplyFrame(p, v, x, sk, e);
  }

  /** What has ended stays ended, and the client is where it was, or waited then and has logged in since. */
  ghost predicate StillThere(s: Server, t: Server, u: Uuid)
    requires u in s.port.sockets
  {
    && u in t.port.sockets
    && (s.port.sockets[u].first.Ended? ==> t.port.sockets[u].first == s.port.sockets[u].first)
    && (s.port.sockets[u].second.Ended? ==> t.port.sockets[u].second == s.port.sockets[u].second)
    && (StatusOf(s, u) == Authenticated ==> StatusOf(t, u) == Authenticated)
    && (StatusOf(t, u) == Unauthenticated || u in t.clientsConnected)
  }

  /** Such a client stays in its map for ever, whether it is there or not; only a login can still move it from waiting
      to authenticated. */
  lemma {:induction false} UnreportedForever(run: seq<Action>, more: seq<Action>, cfg: Config, u: Uuid)
    requires Unreported(After(run, cfg), u)
    ensures StillThere(After(run, cfg), After(run + more, cfg), u)
    decreases |more|
  {
    RunsKeepInv(run, cfg);
    if more == [] {
      assert run + more == run;
    } else {
      var before, a := run + more[..|more| - 1], more[|more| - 1];
      assert run + more == before + [a];
      UnreportedForever(run, more[..|more| - 1], cfg, u);
      UnreportedStep(After(run, cfg), before, a, cfg, u);
    }
  }

  lemma UnreportedStep(s: Server, before: seq<Action>, a: Action, cfg: Config, u: Uuid)
    requires Inv(s) && Unreported(s, u) && StillThere(s, After(before, cfg), u)
    ensures StillThere(s, After(before + [a], cfg), u)
  {
    var b := After(before, cfg);
    RunsKeepInv(before, cfg);
    RunsKeepInv(before + [a], cfg);
    AfterSnoc(before, a, cfg);
    StepMoves(b, a, cfg, u);
    ReportedIffEnded(before, cfg, u, First);
    ReportedIffEnded(before, cfg, u, Second);
    PendingWasReported(b.port);
    if b.port.sockets[u].first.Ended? { EndedStays(b, a, cfg, u, First); }
    if b.port.sockets[u].second.Ended? { EndedStays(b, a, cfg, u, Second); }
    ConnectedStays(b, a, cfg, u);
  }

  lemma PendingWasReported(p: Port)
    requires Reports(p)
    ensures p.reports != [] ==> p.reports[0] in p.reported
  {
  }

  lemma ConnectedStays(s: Server, a: Action, cfg: Config, u: Uuid)
    ensures u in s.clientsConnected ==> u in Step(s, a, cfg).clientsConnected
  {
  }
}
