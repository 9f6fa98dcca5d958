/** Who is in which map, which reader was spawned, and who may speak: invariants of every run of the server. */
module Admission {
  import opened Basics
  import opened Bytes
  import opened FrameStream
  import opened ServerClients

  // ---------- reader accounting ----------

  /** A reader is spawned at most once, and only while its client is in the state that calls for it. */
  ghost predicate SpawnedFlag(sk: Socket) {
    && sk.firsts == Flag(!sk.first.NotSpawned?)
    && sk.seconds == Flag(!sk.second.NotSpawned?)
  }

  ghost predicate Accounts(p: Port) {
    && p.waiting.Keys !! p.listening.Keys
    && p.waiting.Keys <= p.sockets.Keys
    && p.listening.Keys <= p.sockets.Keys
    && (forall u <- p.sockets :: SpawnedFlag(p.sockets[u]))
    && (forall u <- p.waiting :: !p.waiting[u] ==> p.sockets[u].first.NotSpawned?)
    && (forall u <- p.waiting :: p.sockets[u].second.NotSpawned?)
  }

  /** The socket after the step differs only in its stream position, its lock and how far reader w has come. */
  ghost predicate OnlyReads(sk: Socket, sk': Socket, w: Which) {
    && sk'.arrived == sk.arrived && sk'.closed == sk.closed
    && sk'.firsts == sk.firsts && sk'.seconds == sk.seconds
    && (w.First? ==> sk'.second == sk.second) && (w.Second? ==> sk'.first == sk.first)
    && (sk'.Reader(w).NotSpawned? <==> sk.Reader(w).NotSpawned?)
  }

  lemma ReaderStepFrame(sk: Socket, u: Uuid, w: Which, p: Port, codec: Codec)
    ensures OnlyReads(sk, ReaderStep(sk, u, w, p, codec).0, w)
  {
  }

  lemma ApplyFrame(p: Port, u: Uuid, w: Which, sk: Socket, e: Effect)
    ensures var p' := Apply(p, u, w, sk, e);
      && p'.sockets == p.sockets[u := sk]
      && p'.waiting == p.waiting && p'.listening == p.listening && p'.accepted == p.accepted && p'.alive == p.alive
  {
  }

  lemma SocketKeepsAccounts(p: Port, p': Port, u: Uuid, w: Which, sk: Socket)
    requires Accounts(p) && u in p.sockets && OnlyReads(p.sockets[u], sk, w)
    requires p'.sockets == p.sockets[u := sk] && p'.waiting == p.waiting && p'.listening == p.listening
    ensures Accounts(p')
  {
    assert p'.sockets.Keys == p.sockets.Keys;
  }

  lemma RunKeepsAccounts(p: Port, u: Uuid, w: Which, codec: Codec)
    requires Accounts(p)
    ensures Accounts(RunReader(p, u, w, codec))
  {
    if u in p.sockets {
      var (sk, e) := ReaderStep(p.sockets[u], u, w, p, codec);
      ReaderStepFrame(p.sockets[u], u, w, p, codec);
      ApplyFrame(p, u, w, sk, e);
      SocketKeepsAccounts(p, Apply(p, u, w, sk, e), u, w, sk);
    }
  }

  lemma PromoteKeepsAccounts(p: Port, u: Uuid, runtime: bool)
    requires Accounts(p)
    ensures Accounts(Promote(p, u, runtime))
  {
  }

  lemma RegisterKeepsAccounts(p: Port, u: Uuid)
    requires Accounts(p)
    ensures Accounts(CheckClientsConnected(p, u))
  {
  }

  lemma ListenKeepsAccounts(p: Port, runtime: bool)
    requires Accounts(p)
    ensures Accounts(CheckNotAuthenticatedClients(p, runtime))
  {
  }

  lemma ReapKeepsAccounts(p: Port)
    requires Accounts(p)
    ensures Accounts(CheckClientsDisconnected(p))
  {
  }

  lemma MainKeepsAccounts(s: Server, a: Action, cfg: Config)
    requires Accounts(s.port)
    ensures Accounts(MainStep(s, a, cfg).port)
  {
    match a
    case Register(u) => RegisterKeepsAccounts(s.port, u);
    case ListenWaiting => ListenKeepsAccounts(s.port, s.runtime);
    case Reap => ReapKeepsAccounts(s.port);
    case Login(granted) =>
      if s.logins != [] { PromoteKeepsAccounts(s.port, s.logins[0], s.runtime); }
    case _ =>
  }

  lemma StepKeepsAccounts(s: Server, a: Action, cfg: Config)
    requires Accounts(s.port)
    ensures Accounts(Step(s, a, cfg).port)
  {
    match a
    case Arrive(u, data) =>
    case Close(u) =>
    case Accept =>
    case Run(u, w) => RunKeepsAccounts(s.port, u, w, cfg.codec);
    case Notify =>
    case _ => MainKeepsAccounts(s, a, cfg);
  }

  // ---------- disconnect reports ----------

  ghost predicate ReportsFit(p: Port, u: Uuid) {
    && multiset(p.reported)[(u, First)] == Flag(u in p.sockets && p.sockets[u].first == Ended(EndOfStream))
    && multiset(p.reported)[(u, Second)] == Flag(u in p.sockets && p.sockets[u].second == Ended(EndOfStream))
  }

  /** A reader reports its client once, when a read fails, and never otherwise; what is pending is the latest part of
      what was reported. */
  ghost predicate Reports(p: Port) {
    && (forall u :: ReportsFit(p, u))
    && |p.reports| <= |p.reported|
    && p.reports == p.reported[|p.reported| - |p.reports|..]
  }

  /** A reader's step fails its read exactly when it brings the reader to the end of the stream. */
  lemma FailsWhenEnding(sk: Socket, u: Uuid, w: Which, p: Port, codec: Codec)
    ensures var (sk', e) := ReaderStep(sk, u, w, p, codec);
      Flag(sk'.Reader(w) == Ended(EndOfStream)) == Flag(sk.Reader(w) == Ended(EndOfStream)) + Flag(e.Fail?)
  {
  }

  lemma SocketKeepsReports(p: Port, p': Port, u: Uuid, w: Which, sk: Socket, failed: bool)
    requires Reports(p) && u in p.sockets && OnlyReads(p.sockets[u], sk, w)
    requires p'.sockets == p.sockets[u := sk]
    requires p'.reports == p.reports + (if failed then [(u, w)] else [])
    requires p'.reported == p.reported + (if failed then [(u, w)] else [])
    requires Flag(sk.Reader(w) == Ended(EndOfStream))
          == Flag(p.sockets[u].Reader(w) == Ended(EndOfStream)) + Flag(failed)
    ensures Reports(p')
  {
    forall v
      ensures ReportsFit(p', v)
    {
      assert ReportsFit(p, v);
    }
  }

  lemma RunKeepsReports(p: Port, u: Uuid, w: Which, codec: Codec)
    requires Reports(p)
    ensures Reports(RunReader(p, u, w, codec))
  {
    if u in p.sockets {
      var (sk, e) := ReaderStep(p.sockets[u], u, w, p, codec);
      ReaderStepFrame(p.sockets[u], u, w, p, codec);
      FailsWhenEnding(p.sockets[u], u, w, p, codec);
      SocketKeepsReports(p, Apply(p, u, w, sk, e), u, w, sk, e.Fail?);
    }
  }

  /** Steps that only change sockets in which no reader reaches or leaves the end of its stream. */
  lemma SameEndsKeepReports(p: Port, p': Port)
    requires Reports(p) && p'.reported == p.reported
    requires p'.reports == p.reports || (p.reports != [] && p'.reports == p.reports[1..])
    requires forall u :: (u in p'.sockets && p'.sockets[u].first == Ended(EndOfStream))
                    <==> (u in p.sockets && p.sockets[u].first == Ended(EndOfStream))
    requires forall u :: (u in p'.sockets && p'.sockets[u].second == Ended(EndOfStream))
                    <==> (u in p.sockets && p.sockets[u].second == Ended(EndOfStream))
    ensures Reports(p')
  {
    forall u
      ensures ReportsFit(p', u)
    {
      assert ReportsFit(p, u);
    }
  }

  lemma RegisterKeepsReports(p: Port, u: Uuid)
    requires Reports(p)
    ensures Reports(CheckClientsConnected(p, u))
  {
    SameEndsKeepReports(p, CheckClientsConnected(p, u));
  }

  lemma ListenKeepsReports(p: Port, runtime: bool)
    requires Accounts(p) && Reports(p)
    ensures Reports(CheckNotAuthenticatedClients(p, runtime))
  {
    SameEndsKeepReports(p, CheckNotAuthenticatedClients(p, runtime));
  }

  lemma ReapKeepsReports(p: Port)
    requires Reports(p)
    ensures Reports(CheckClientsDisconnected(p))
  {
    SameEndsKeepReports(p, CheckClientsDisconnected(p));
  }

  lemma PromoteKeepsReports(p: Port, u: Uuid, runtime: bool)
    requires Accounts(p) && Reports(p)
    ensures Reports(Promote(p, u, runtime))
  {
    SameEndsKeepReports(p, Promote(p, u, runtime));
  }

  /** Steps that touch neither sockets nor reports. */
  lemma SameReports(p: Port, p': Port)
    requires Reports(p) && p'.sockets == p.sockets && p'.reports == p.reports && p'.reported == p.reported
    ensures Reports(p')
  {
    SameEndsKeepReports(p, p');
  }

  lemma MainKeepsReports(s: Server, a: Action, cfg: Config)
    requires Accounts(s.port) && Reports(s.port)
    ensures Reports(MainStep(s, a, cfg).port)
  {
    match a
    case Register(u) => RegisterKeepsReports(s.port, u);
    case ListenWaiting => ListenKeepsReports(s.port, s.runtime);
    case Reap => ReapKeepsReports(s.port);
    case Login(granted) =>
      if s.logins != [] { PromoteKeepsReports(s.port, s.logins[0], s.runtime); }
    case ReadMessages => SameReports(s.port, MainStep(s, a, cfg).port);
    case DropPort => SameReports(s.port, s.port.(alive := false));
    case _ => assert MainStep(s, a, cfg).port == s.port;
  }

  lemma NetworkKeepsReports(p: Port, u: Uuid, sk: Socket)
    requires Reports(p) && u in p.sockets && sk.first == p.sockets[u].first && sk.second == p.sockets[u].second
    ensures Reports(p.(sockets := p.sockets[u := sk]))
  {
    SameEndsKeepReports(p, p.(sockets := p.sockets[u := sk]));
  }

  lemma ArriveKeepsReports(p: Port, u: Uuid, data: seq<Byte>)
    requires Reports(p) && u in p.sockets
    ensures Reports(p.(sockets := p.sockets[u := p.sockets[u].(arrived := p.sockets[u].arrived + data)]))
  {
    NetworkKeepsReports(p, u, p.sockets[u].(arrived := p.sockets[u].arrived + data));
  }

  lemma StepKeepsReports(s: Server, a: Action, cfg: Config)
    requires Accounts(s.port) && Reports(s.port)
    ensures Reports(Step(s, a, cfg).port)
  {
    match a
    case Run(u, w) => RunKeepsReports(s.port, u, w, cfg.codec);
    case Arrive(u, data) =>
      if u in s.port.sockets && !s.port.sockets[u].closed { ArriveKeepsReports(s.port, u, data); }
    case Close(u) =>
      if u in s.port.sockets { NetworkKeepsReports(s.port, u, s.port.sockets[u].(closed := true)); }
    case Accept => SameReports(s.port, s.port.(accepted := s.port.accepted + 1));
    case Notify =>
      if s.notifying.Some? { SameReports(s.port, SendNotice(s.port, s.notifying.value)); }
    case _ => MainKeepsReports(s, a, cfg);
  }

  // ---------- rights ----------

  ghost predicate SendersKnown(log: seq<(Uuid, seq<Byte>)>, p: Port) {
    forall x <- log :: x.0 in p.sockets
  }

  ghost predicate CommandersKnown(log: seq<Command>, p: Port) {
    forall c <- log :: c.sender in p.sockets
  }

  ghost predicate Rights(s: Server) {
    && s.port.listening.Keys <= s.clientsConnected
    && s.port.waiting.Keys !! s.clientsConnected
    && s.clientsConnected <= s.port.sockets.Keys
    && SendersKnown(s.port.inbox, s.port)
    && CommandersKnown(s.commands, s.port)
    && (forall u <- s.logins :: u in s.port.sockets)
    && (forall u <- s.port.notices :: u in s.clientsConnected)
    && (s.notifying.Some? ==> s.notifying.value in s.clientsConnected)
    && (forall u <- s.port.sockets :: s.port.sockets[u].first == Ended(Notified) ==> u in s.clientsConnected)
  }

  lemma {:induction false} GateSenders(batch: seq<(Uuid, seq<Byte>)>, connected: set<Uuid>, now: nat, cfg: Config,
                                       p: Port)
    requires SendersKnown(batch, p)
    ensures CommandersKnown(Gate(batch, connected, now, cfg), p)
  {
    if batch == [] {
    } else {
      assert batch[0] in batch;
      assert forall x <- batch[1..] :: x in batch;
      GateSenders(batch[1..], connected, now, cfg, p);
    }
  }

  lemma {:induction false} LoginSenders(commands: seq<Command>, cfg: Config, p: Port)
    requires CommandersKnown(commands, p)
    ensures forall u <- Logins(commands, cfg) :: u in p.sockets
  {
    if commands == [] {
    } else {
      assert commands[0] in commands;
      assert forall x <- commands[1..] :: x in commands;
      LoginSenders(commands[1..], cfg, p);
    }
  }

  /** A reader stops on a notice only if the notice names its client, and then it is the first reader. */
  lemma StopsOnOwnNotice(sk: Socket, u: Uuid, w: Which, p: Port, codec: Codec)
    ensures var (sk', e) := ReaderStep(sk, u, w, p, codec);
      sk'.first == Ended(Notified) ==> sk.first == Ended(Notified) || (p.notices != [] && p.notices[0] == u)
  {
  }

  lemma RunKeepsRights(s: Server, u: Uuid, w: Which, cfg: Config)
    requires Rights(s)
    ensures Rights(s.(port := RunReader(s.port, u, w, cfg.codec)))
  {
    var p := s.port;
    if u in p.sockets {
      var (sk, e) := ReaderStep(p.sockets[u], u, w, p, cfg.codec);
      StopsOnOwnNotice(p.sockets[u], u, w, p, cfg.codec);
      SocketKeepsRights(s, u, w, sk, e);
    }
  }

  lemma AppliedQueues(p: Port, u: Uuid, w: Which, sk: Socket, e: Effect)
    ensures var p' := Apply(p, u, w, sk, e);
      && (forall v <- p'.notices :: v in p.notices)
      && (forall x <- p'.inbox :: x in p.inbox || x.0 == u)
  {
  }

  lemma SocketKeepsRights(s: Server, u: Uuid, w: Which, sk: Socket, e: Effect)
    requires Rights(s) && u in s.port.sockets
    requires sk.first == Ended(Notified) ==>
      s.port.sockets[u].first == Ended(Notified) || (s.port.notices != [] && s.port.notices[0] == u)
    ensures Rights(s.(port := Apply(s.port, u, w, sk, e)))
  {
    var p, p' := s.port, Apply(s.port, u, w, sk, e);
    ApplyFrame(p, u, w, sk, e);
    assert p'.sockets.Keys == p.sockets.Keys;
    AppliedQueues(p, u, w, sk, e);
  }

  lemma LoginKeepsRights(s: Server, u: Uuid)
    requires Accounts(s.port) && Rights(s) && u in s.port.sockets
    ensures Rights(AuthenticateClient(s, u))
  {
  }

  lemma ReadKeepsRights(s: Server, cfg: Config)
    requires Rights(s)
    ensures Rights(MainStep(s, ReadMessages, cfg))
  {
    GateSenders(s.port.inbox, s.clientsConnected, s.clock, cfg, s.port);
  }

  lemma FlushKeepsRights(s: Server, cfg: Config)
    requires Rights(s)
    ensures Rights(MainStep(s, Flush, cfg))
  {
    LoginSenders(s.commands, cfg, s.port);
  }

  lemma RegisterKeepsRights(s: Server, u: Uuid)
    requires Rights(s)
    ensures Rights(s.(port := CheckClientsConnected(s.port, u)))
  {
  }

  lemma ReapKeepsRights(s: Server)
    requires Rights(s)
    ensures Rights(s.(port := CheckClientsDisconnected(s.port)))
  {
  }

  lemma NextLoginKeepsRights(s: Server)
    requires Rights(s) && s.logins != []
    ensures Rights(s.(logins := s.logins[1..])) && s.logins[0] in s.port.sockets
  {
    assert forall v <- s.logins[1..] :: v in s.logins;
  }

  lemma MainKeepsRights(s: Server, a: Action, cfg: Config)
    requires Accounts(s.port) && Rights(s)
    ensures Rights(MainStep(s, a, cfg))
  {
    match a
    case Register(u) => RegisterKeepsRights(s, u);
    case ListenWaiting => ListenKeepsRights(s);
    case Reap => ReapKeepsRights(s);
    case ReadMessages => ReadKeepsRights(s, cfg);
    case Flush => FlushKeepsRights(s, cfg);
    case Login(granted) =>
      if s.logins != [] {
        NextLoginKeepsRights(s);
        if granted { LoginKeepsRights(s.(logins := s.logins[1..]), s.logins[0]); }
      }
    case _ =>
  }

  lemma ListenKeepsRights(s: Server)
    requires Rights(s)
    ensures Rights(s.(port := CheckNotAuthenticatedClients(s.port, s.runtime)))
  {
    var p' := CheckNotAuthenticatedClients(s.port, s.runtime);
    assert p'.sockets.Keys == s.port.sockets.Keys;
    assert p'.waiting.Keys == s.port.waiting.Keys;
  }

  lemma StepKeepsRights(s: Server, a: Action, cfg: Config)
    requires Accounts(s.port) && Rights(s)
    ensures Rights(Step(s, a, cfg))
  {
    match a
    case Run(u, w) => RunKeepsRights(s, u, w, cfg);
    case Arrive(u, data) =>
    case Close(u) =>
    case Accept =>
    case Notify =>
    case _ => MainKeepsRights(s, a, cfg);
  }

  // ---------- every run ----------

  ghost predicate Inv(s: Server) {
    Accounts(s.port) && Reports(s.port) && Rights(s)
  }

  lemma {:induction false} RunsKeepInv(run: seq<Action>, cfg: Config)
    ensures Inv(After(run, cfg))
    decreases |run|
  {
    if run == [] {
    } else {
      var s := After(run[..|run| - 1], cfg);
      RunsKeepInv(run[..|run| - 1], cfg);
      StepKeepsAccounts(s, run[|run| - 1], cfg);
      StepKeepsReports(s, run[|run| - 1], cfg);
      StepKeepsRights(s, run[|run| - 1], cfg);
      ClockIsSilent(Step(s, run[|run| - 1], cfg), s.clock + 1);
    }
  }

  lemma ClockIsSilent(s: Server, now: nat)
    requires Inv(s)
    ensures Inv(s.(clock := now))
  {
  }

  /** Per client id at most one reader of each kind is ever spawned, and each reports at most once, when it has
      ended. */
  lemma ReaderAccounting(run: seq<Action>, cfg: Config, u: Uuid)
    requires u in After(run, cfg).port.sockets
    ensures var p := After(run, cfg).port;
      && p.sockets[u].firsts <= 1 && p.sockets[u].seconds <= 1
      && multiset(p.reported)[(u, First)] == Flag(p.sockets[u].first == Ended(EndOfStream))
      && multiset(p.reported)[(u, Second)] == Flag(p.sockets[u].second == Ended(EndOfStream))
  {
    RunsKeepInv(run, cfg);
    assert ReportsFit(After(run, cfg).port, u);
  }

  /** The maps never overlap, authenticated clients are connected, and connected clients do not wait. */
  lemma MapsAgree(run: seq<Action>, cfg: Config)
    ensures var s := After(run, cfg);
      && s.port.waiting.Keys !! s.port.listening.Keys
      && s.port.listening.Keys <= s.clientsConnected
      && s.port.waiting.Keys !! s.clientsConnected
  {
    RunsKeepInv(run, cfg);
  }

  lemma AfterSnoc(run: seq<Action>, a: Action, cfg: Config)
    ensures After(run + [a], cfg) == Next(After(run, cfg), a, cfg)
  {
    assert (run + [a])[..|run|] == run;
  }

  datatype Status = Fresh | Unauthenticated | Authenticated | Gone

  function StatusOf(s: Server, u: Uuid): Status {
    if u in s.port.waiting then Unauthenticated
    else if u in s.port.listening then Authenticated
    else if u in s.port.sockets then Gone
    else Fresh
  }

  /** How one step can move a client, and what it takes: a granted login to get in, and the report of the reader
      that belongs to the map to get out. */
  ghost predicate Moves(s: Server, a: Action, u: Uuid, from: Status, to: Status) {
    match (from, to)
    case (Fresh, Unauthenticated) => a == Register(u)
    case (Unauthenticated, Authenticated) => a == Login(true) && s.logins != [] && s.logins[0] == u
    case (Unauthenticated, Gone) => a == Reap && s.port.reports != [] && s.port.reports[0] == (u, First)
    case (Authenticated, Gone) => a == Reap && s.port.reports != [] && s.port.reports[0] == (u, Second)
    case _ => from == to
  }

  lemma StepMoves(s: Server, a: Action, cfg: Config, u: Uuid)
    requires Inv(s)
    ensures Moves(s, a, u, StatusOf(s, u), StatusOf(Step(s, a, cfg), u))
  {
    match a
    case Run(v, w) =>
      if v in s.port.sockets {
        var (sk, e) := ReaderStep(s.port.sockets[v], v, w, s.port, cfg.codec);
        ApplyFrame(s.port, v, w, sk, e);
      }
    case Arrive(_, _) =>
    case Close(_) =>
    case Accept =>
    case Notify =>
    case _ => MainMoves(s, a, cfg, u);
  }

  lemma MainMoves(s: Server, a: Action, cfg: Config, u: Uuid)
    requires Inv(s)
    ensures Moves(s, a, u, StatusOf(s, u), StatusOf(MainStep(s, a, cfg), u))
  {
    match a
    case Login(granted) => if s.logins != [] && granted { LoginMoves(s, u); }
    case Register(v) => RegisterMoves(s, v, u);
    case ListenWaiting => ListenMoves(s, u);
    case Reap => ReapMoves(s, u);
    case _ => assert StatusOf(MainStep(s, a, cfg), u) == StatusOf(s, u);
  }

  lemma ListenMoves(s: Server, u: Uuid)
    ensures StatusOf(s.(port := CheckNotAuthenticatedClients(s.port, s.runtime)), u) == StatusOf(s, u)
  {
    assert CheckNotAuthenticatedClients(s.port, s.runtime).waiting.Keys == s.port.waiting.Keys;
  }

  lemma RegisterMoves(s: Server, v: Uuid, u: Uuid)
    requires Inv(s)
    ensures Moves(s, Register(v), u, StatusOf(s, u), StatusOf(s.(port := CheckClientsConnected(s.port, v)), u))
  {
  }

  lemma ReapMoves(s: Server, u: Uuid)
    requires Inv(s)
    ensures Moves(s, Reap, u, StatusOf(s, u), StatusOf(s.(port := CheckClientsDisconnected(s.port)), u))
  {
  }

  lemma LoginMoves(s: Server, u: Uuid)
    requires Inv(s) && s.logins != []
    ensures var t := AuthenticateClient(s.(logins := s.logins[1..]), s.logins[0]);
      Moves(s, Login(true), u, StatusOf(s, u), StatusOf(t, u))
  {
  }

  /** A granted login does admit a waiting client: it changes maps, its second reader is spawned when there is a
      runtime, and the notice for its first reader is the next thing the main thread sends. */
  lemma LoginAdmits(run: seq<Action>, cfg: Config, u: Uuid)
    requires var s := After(run, cfg);
      && s.notifying.None? && s.port.alive && s.logins != [] && s.logins[0] == u && u in s.port.waiting
    ensures var s, t := After(run, cfg), After(run + [Login(true)], cfg);
      && StatusOf(t, u) == Authenticated && u in t.clientsConnected
      && u in t.port.sockets
      && (s.runtime ==> t.port.sockets[u].second == WaitRead && t.port.sockets[u].seconds == 1)
      && Step(t, Notify, cfg).port.notices == s.port.notices + [u]
  {
    RunsKeepInv(run, cfg);
    AfterSnoc(run, Login(true), cfg);
    PromotedSecond(After(run, cfg).port, u, After(run, cfg).runtime);
  }

  /** An accepted stream does get its reader: registered and listened to, the new client waits with its first reader
      spawned. */
  lemma RegisteredIsListenedTo(run: seq<Action>, cfg: Config, u: Uuid)
    requires var s := After(run, cfg);
      && s.notifying.None? && s.port.alive && s.runtime && s.port.accepted > 0 && u !in s.port.sockets
    ensures var t := After(run + [Register(u)] + [ListenWaiting], cfg);
      && StatusOf(t, u) == Unauthenticated
      && u in t.port.sockets && t.port.sockets[u].first == WaitRead && t.port.sockets[u].firsts == 1
  {
    AfterSnoc(run, Register(u), cfg);
    AfterSnoc(run + [Register(u)], ListenWaiting, cfg);
    assert CheckClientsConnected(After(run, cfg).port, u).sockets[u] == FRESH;
  }

  lemma PromotedSecond(p: Port, u: Uuid, runtime: bool)
    requires Accounts(p) && u in p.waiting
    ensures var p' := Promote(p, u, runtime);
      && u in p'.sockets && p'.notices == p.notices && u in p'.listening && u !in p'.waiting
      && (runtime ==> p'.sockets[u].second == WaitRead && p'.sockets[u].seconds == 1)
  {
  }

  /** An authenticated client leaves the map only on the report of its authenticated reader, which has ended. A
      report of the first reader that comes after authentication removes nothing. */
  lemma OnlyOwnReportRemoves(run: seq<Action>, a: Action, cfg: Config, u: Uuid)
    requires var s := After(run, cfg); u in s.port.listening && u !in Step(s, a, cfg).port.listening
    ensures var s := After(run, cfg);
      && a == Reap && s.port.reports != [] && s.port.reports[0] == (u, Second)
      && u in s.port.sockets && s.port.sockets[u].second == Ended(EndOfStream)
  {
    var s := After(run, cfg);
    RunsKeepInv(run, cfg);
    StepMoves(s, a, cfg, u);
    assert StatusOf(s, u) == Authenticated;
    assert (u, Second) in s.port.reports;
    assert (u, Second) in s.port.reported;
    assert ReportsFit(s.port, u);
  }

  ghost predicate Reaches(from: Status, to: Status) {
    match from
    case Fresh => true
    case Unauthenticated => !to.Fresh?
    case Authenticated => to.Authenticated? || to.Gone?
    case Gone => to.Gone?
  }

  /** Over any run a client only goes forward: fresh, waiting, authenticated, gone, or from waiting straight to gone;
      it never comes back. */
  lemma {:induction false} LifecycleIsForward(run: seq<Action>, more: seq<Action>, cfg: Config, u: Uuid)
    ensures Reaches(StatusOf(After(run, cfg), u), StatusOf(After(run + more, cfg), u))
    decreases |more|
  {
    if more == [] {
      assert run + more == run;
    } else {
      var before, a := run + more[..|more| - 1], more[|more| - 1];
      assert run + more == before + [a];
      LifecycleIsForward(run, more[..|more| - 1], cfg, u);
      RunsKeepInv(before, cfg);
      StepMoves(After(before, cfg), a, cfg, u);
      AfterSnoc(before, a, cfg);
    }
  }

  // ---------- exactly these moves ----------

  /** Where a step takes a client: to waiting when it is registered, to authenticated when its login is granted while it
      waits, and out of its map when the report of the reader that belongs to the map is handled; nowhere else. Between
      the parts of authenticate_client and after the port has gone, nothing moves. */
  function NextStatus(s: Server, a: Action, u: Uuid): Status {
    if s.notifying.Some? || !s.port.alive then StatusOf(s, u)
    else
      match StatusOf(s, u)
      case Fresh => if a == Register(u) && s.port.accepted > 0 then Unauthenticated else Fresh
      case Unauthenticated =>
        if a == Login(true) && s.logins != [] && s.logins[0] == u then Authenticated
        else if a == Reap && s.port.reports != [] && s.port.reports[0] == (u, First) then Gone
        else Unauthenticated
      case Authenticated =>
        if a == Reap && s.port.reports != [] && s.port.reports[0] == (u, Second) then Gone else Authenticated
      case Gone => Gone
  }

  lemma StepMovesExactly(run: seq<Action>, a: Action, cfg: Config, u: Uuid)
    ensures StatusOf(After(run + [a], cfg), u) == NextStatus(After(run, cfg), a, u)
  {
    var s := After(run, cfg);
    RunsKeepInv(run, cfg);
    AfterSnoc(run, a, cfg);
    StepMoves(s, a, cfg, u);
    match a
    case Register(_) => RegisterMovesExactly(s, a.u, u, cfg);
    case Login(granted) => LoginMovesExactly(s, granted, u, cfg);
    case Reap => ReapMovesExactly(s, u, cfg);
    case _ =>
  }

  lemma RegisterMovesExactly(s: Server, v: Uuid, u: Uuid, cfg: Config)
    requires Inv(s)
    ensures StatusOf(Step(s, Register(v), cfg), u) == NextStatus(s, Register(v), u)
  {
  }

  lemma LoginMovesExactly(s: Server, granted: bool, u: Uuid, cfg: Config)
    requires Inv(s)
    ensures StatusOf(Step(s, Login(granted), cfg), u) == NextStatus(s, Login(granted), u)
  {
    if granted && s.logins != [] && s.notifying.None? && s.port.alive {
      AdmitsExactly(s.(logins := s.logins[1..]), s.logins[0], u);
    }
  }

  lemma AdmitsExactly(s: Server, v: Uuid, u: Uuid)
    requires Accounts(s.port) && s.port.waiting.Keys !! s.clientsConnected
    ensures StatusOf(AuthenticateClient(s, v), u)
         == if u == v && StatusOf(s, u) == Unauthenticated then Authenticated else StatusOf(s, u)
  {
  }

  lemma ReapMovesExactly(s: Server, u: Uuid, cfg: Config)
    requires Inv(s)
    ensures StatusOf(Step(s, Reap, cfg), u) == NextStatus(s, Reap, u)
  {
  }

  /** A disconnect that is handled takes the client it belongs to out, and no other: each report is used once, the first
      one first. */
  lemma ReapRemoves(run: seq<Action>, cfg: Config)
    requires var s := After(run, cfg); s.notifying.None? && s.port.alive && s.port.reports != []
    ensures var s, t := After(run, cfg), After(run + [Reap], cfg); var (u, w) := s.port.reports[0];
      && t.port.reports == s.port.reports[1..]
      && (w.First? ==> u !in t.port.waiting && (StatusOf(s, u) == Unauthenticated ==> StatusOf(t, u) == Gone))
      && (w.Second? ==> u !in t.port.listening && (StatusOf(s, u) == Authenticated ==> StatusOf(t, u) == Gone))
      && (forall v :: v != u ==> StatusOf(t, v) == StatusOf(s, v))
  {
    AfterSnoc(run, Reap, cfg);
    StepMovesExactly(run, Reap, cfg, After(run, cfg).port.reports[0].0);
    ReapMovesNobodyElse(run, cfg, After(run, cfg).port.reports[0].0);
    ReapTakesOut(After(run, cfg).port);
  }

  lemma ReapMovesNobodyElse(run: seq<Action>, cfg: Config, u: Uuid)
    requires After(run, cfg).port.reports != [] && After(run, cfg).port.reports[0].0 == u
    ensures forall v :: v != u ==> StatusOf(After(run + [Reap], cfg), v) == StatusOf(After(run, cfg), v)
  {
    forall v | v != u
      ensures StatusOf(After(run + [Reap], cfg), v) == StatusOf(After(run, cfg), v)
    {
      StepMovesExactly(run, Reap, cfg, v);
    }
  }

  lemma ReapTakesOut(p: Port)
    requires p.reports != []
    ensures var q := CheckClientsDisconnected(p); var (u, w) := p.reports[0];
      && q.reports == p.reports[1..]
      && (w.First? ==> u !in q.waiting) && (w.Second? ==> u !in q.listening)
  {
  }
}
