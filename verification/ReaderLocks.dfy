/** The two locks a reader takes: the read half of its client, then the notice receiver all first readers share. */
module ReaderLocks {
  import opened Basics
  import opened FrameStream
  import opened ServerClients
  import opened Admission
  import opened Handover
  import opened MessageGate

  // ---------- the shared receiver ----------

  /** The receiver's lock is held by exactly the first reader that is draining, if any. */
  ghost predicate DrainerFits(p: Port) {
    && (p.drainer.Some? ==> p.drainer.value in p.sockets && p.sockets[p.drainer.value].first.Draining?)
    && (forall u <- p.sockets :: p.sockets[u].first.Draining? ==> p.drainer == Some(u))
    && (forall u <- p.sockets :: LockFits(p.sockets[u]))
  }

  lemma ReaderStepLocks(sk: Socket, u: Uuid, w: Which, p: Port, codec: Codec)
    requires LockFits(sk) && (sk.first.Draining? ==> p.drainer == Some(u))
    ensures var (sk', e) := ReaderStep(sk, u, w, p, codec);
      && LockFits(sk')
      && (sk'.first.Draining? <==> (sk.first.Draining? && !e.LeaveNotices? && !e.StopOnNotice?) || e.TakeNotices?)
      && (e.TakeNotices? ==> p.drainer.None?)
      && (e.LeaveNotices? || e.StopOnNotice? ==> sk.first.Draining?)
      && (e.StopOnNotice? ==> p.notices != [])
  {
  }

  lemma SocketKeepsDrainer(p: Port, u: Uuid, w: Which, sk: Socket, e: Effect)
    requires DrainerFits(p) && u in p.sockets && LockFits(sk)
    requires sk.first.Draining? <==>
      (p.sockets[u].first.Draining? && !e.LeaveNotices? && !e.StopOnNotice?) || e.TakeNotices?
    requires e.TakeNotices? ==> p.drainer.None?
    requires e.LeaveNotices? || e.StopOnNotice? ==> p.sockets[u].first.Draining?
    requires e.StopOnNotice? ==> p.notices != []
    ensures DrainerFits(Apply(p, u, w, sk, e))
  {
    ApplyFrame(p, u, w, sk, e);
  }

  /** Sockets in which no reader starts or stops draining, and whose locks are in order. */
  lemma SameDrainersFit(p: Port, p': Port)
    requires DrainerFits(p) && p'.drainer == p.drainer && p.sockets.Keys <= p'.sockets.Keys
    requires forall u <- p'.sockets ::
      LockFits(p'.sockets[u]) && (p'.sockets[u].first.Draining? <==> u in p.sockets && p.sockets[u].first.Draining?)
    ensures DrainerFits(p')
  {
  }

  lemma RegisterKeepsDrainer(p: Port, u: Uuid)
    requires DrainerFits(p)
    ensures DrainerFits(CheckClientsConnected(p, u))
  {
    SameDrainersFit(p, CheckClientsConnected(p, u));
  }

  lemma ListenKeepsDrainer(p: Port, runtime: bool)
    requires Accounts(p) && DrainerFits(p)
    ensures DrainerFits(CheckNotAuthenticatedClients(p, runtime))
  {
    SameDrainersFit(p, CheckNotAuthenticatedClients(p, runtime));
  }

  lemma PromoteKeepsDrainer(p: Port, u: Uuid, runtime: bool)
    requires Accounts(p) && DrainerFits(p)
    ensures DrainerFits(Promote(p, u, runtime))
  {
    SameDrainersFit(p, Promote(p, u, runtime));
  }

  lemma MainKeepsDrainer(s: Server, a: Action, cfg: Config)
    requires Accounts(s.port) && DrainerFits(s.port)
    ensures DrainerFits(MainStep(s, a, cfg).port)
  {
    match a
    case Register(u) => RegisterKeepsDrainer(s.port, u);
    case ListenWaiting => ListenKeepsDrainer(s.port, s.runtime);
    case Reap => ReapKeepsDrainer(s.port);
    case Login(granted) =>
      if s.logins != [] { PromoteKeepsDrainer(s.port, s.logins[0], s.runtime); }
    case _ => assert MainStep(s, a, cfg).port.sockets == s.port.sockets;
  }

  lemma ReapKeepsDrainer(p: Port)
    requires DrainerFits(p)
    ensures DrainerFits(CheckClientsDisconnected(p))
  {
    assert CheckClientsDisconnected(p).sockets == p.sockets;
  }

  lemma RunKeepsDrainer(p: Port, u: Uuid, w: Which, codec: Codec)
    requires DrainerFits(p)
    ensures DrainerFits(RunReader(p, u, w, codec))
  {
    if u in p.sockets {
      var (sk, e) := ReaderStep(p.sockets[u], u, w, p, codec);
      ReaderStepLocks(p.sockets[u], u, w, p, codec);
      SocketKeepsDrainer(p, u, w, sk, e);
    }
  }

  lemma NetworkKeepsDrainer(p: Port, u: Uuid, sk: Socket)
    requires DrainerFits(p) && u in p.sockets && LockFits(sk) && sk.first == p.sockets[u].first
    ensures DrainerFits(p.(sockets := p.sockets[u := sk]))
  {
  }

  lemma StepKeepsDrainer(s: Server, a: Action, cfg: Config)
    requires Accounts(s.port) && DrainerFits(s.port)
    ensures DrainerFits(Step(s, a, cfg).port)
  {
    match a
    case Run(u, w) => RunKeepsDrainer(s.port, u, w, cfg.codec);
    case Arrive(u, data) =>
      if u in s.port.sockets && !s.port.sockets[u].closed {
        NetworkKeepsDrainer(s.port, u, s.port.sockets[u].(arrived := s.port.sockets[u].arrived + data));
      }
    case Close(u) =>
      if u in s.port.sockets { NetworkKeepsDrainer(s.port, u, s.port.sockets[u].(closed := true)); }
    case Accept => assert Step(s, a, cfg).port.sockets == s.port.sockets;
    case Notify => assert Step(s, a, cfg).port.sockets == s.port.sockets;
    case _ => MainKeepsDrainer(s, a, cfg);
  }

  lemma {:induction false} RunsKeepDrainer(run: seq<Action>, cfg: Config)
    ensures DrainerFits(After(run, cfg).port)
    decreases |run|
  {
    if run == [] {
    } else {
      RunsKeepDrainer(run[..|run| - 1], cfg);
      RunsKeepInv(run[..|run| - 1], cfg);
      StepKeepsDrainer(After(run[..|run| - 1], cfg), run[|run| - 1], cfg);
    }
  }

  // ---------- no deadlock ----------

  /** Reader w of u waits for a lock that reader x of v holds. */
  ghost predicate WaitsFor(p: Port, u: Uuid, w: Which, v: Uuid, x: Which) {
    && u in p.sockets && v in p.sockets
    && (|| (p.sockets[u].Reader(w).WaitRead? && v == u && p.sockets[u].lock == Some(x))
        || (p.sockets[u].Reader(w).WaitNotices? && p.drainer == Some(v) && x.First?))
  }

  function Patience(r: Reader): nat {
    if r.WaitRead? then 2 else if r.WaitNotices? then 1 else 0
  }

  /** Along every wait the waiting gets shorter, so no cycle of waits can ever form; whoever is waited for holds a
      lock, and at the end of every chain of waits stands a reader that waits for no lock at all. */
  lemma NoCycleOfWaits(run: seq<Action>, cfg: Config, u: Uuid, w: Which, v: Uuid, x: Which)
    requires WaitsFor(After(run, cfg).port, u, w, v, x)
    ensures var p := After(run, cfg).port;
      && Patience(p.sockets[v].Reader(x)) < Patience(p.sockets[u].Reader(w))
      && p.sockets[v].Reader(x).Holds()
  {
    RunsKeepDrainer(run, cfg);
    assert LockFits(After(run, cfg).port.sockets[v]);
  }

  predicate Live(r: Reader) {
    !r.NotSpawned? && !r.Ended?
  }

  /** The stream has bytes left, or has ended, or a complete frame or a refused header of it has not been dealt with. */
  ghost predicate HasWork(sk: Socket, alive: bool, codec: Codec) {
    || sk.pos < |sk.arrived| || sk.closed
    || (alive && sk.base <= |sk.arrived| && FrontLength(sk.arrived[sk.base..], codec).Some?)
  }

  /** The reader has a byte to take, an end to meet, or a complete header or body in its buffer. */
  ghost predicate CanRead(sk: Socket, r: Reader, codec: Codec) {
    match r
    case ReadHeader(buf) => sk.pos < |sk.arrived| || sk.closed || |buf| >= codec.width
    case ReadBody(size, body) => sk.pos < |sk.arrived| || sk.closed || |body| >= size
    case _ => false
  }

  lemma WorkIsReadable(sk: Socket, w: Which, alive: bool, codec: Codec)
    requires SocketOk(sk, alive, codec) && HasWork(sk, alive, codec)
    requires sk.Reader(w).ReadHeader? || sk.Reader(w).ReadBody?
    ensures CanRead(sk, sk.Reader(w), codec)
  {
    if sk.pos == |sk.arrived| && !sk.closed {
      SliceToEnd(sk.arrived, sk.base);
      assert BufferFits(sk, sk.Reader(w), codec);
      if sk.Reader(w).ReadBody? { SliceOfSlice(sk.arrived, sk.base, sk.pos, codec.width); }
    }
  }

  lemma HolderMoves(p: Port, u: Uuid, w: Which, codec: Codec)
    requires u in p.sockets
    requires var r := p.sockets[u].Reader(w);
      r.Draining? || (r.WaitNotices? && p.drainer.None?) || CanRead(p.sockets[u], r, codec)
    ensures RunReader(p, u, w, codec) != p
  {
    var (sk, e) := ReaderStep(p.sockets[u], u, w, p, codec);
    if e.SkipNotice? {
      assert Apply(p, u, w, sk, e).notices == p.notices[1..];
    } else {
      assert sk.pos != p.sockets[u].pos || sk.Reader(w) != p.sockets[u].Reader(w);
    }
  }

  /** No deadlock: as long as a reader of the client is alive and its stream has any work left, some reader can make a
      step; it is one of the client's own, or the one that drains the shared channel. */
  lemma SomeoneMoves(run: seq<Action>, cfg: Config, u: Uuid, w: Which) returns (v: Uuid, x: Which)
    requires var p := After(run, cfg).port;
      u in p.sockets && Live(p.sockets[u].Reader(w)) && HasWork(p.sockets[u], p.alive, cfg.codec)
    ensures var p := After(run, cfg).port;
      && v in p.sockets && Live(p.sockets[v].Reader(x)) && RunReader(p, v, x, cfg.codec) != p
      && (v == u || p.drainer == Some(v))
  {
    var p := After(run, cfg).port;
    RunsKeepDrainer(run, cfg);
    RunsKeepStreams(run, cfg);
    v, x := MoverOf(p, u, w, cfg.codec);
  }

  lemma MoverOf(p: Port, u: Uuid, w: Which, codec: Codec) returns (v: Uuid, x: Which)
    requires DrainerFits(p) && u in p.sockets && SocketOk(p.sockets[u], p.alive, codec)
    requires Live(p.sockets[u].Reader(w)) && HasWork(p.sockets[u], p.alive, codec)
    ensures v in p.sockets && Live(p.sockets[v].Reader(x)) && RunReader(p, v, x, codec) != p
    ensures v == u || (p.drainer == Some(v) && p.sockets[u].first.WaitNotices?)
  {
    var sk := p.sockets[u];
    if sk.Reader(w).WaitRead? && sk.lock.None? {
      v, x := u, w;
      assert ReaderStep(sk, u, w, p, codec).0.lock != sk.lock;
    } else {
      x := if sk.Reader(w).WaitRead? then sk.lock.value else w;
      if sk.Reader(x).WaitNotices? && p.drainer.Some? {
        v, x := p.drainer.value, First;
        DrainerMoves(p, v, codec);
      } else {
        v := u;
        if !sk.Reader(x).WaitNotices? && !sk.Reader(x).Draining? { WorkIsReadable(sk, x, p.alive, codec); }
        HolderMoves(p, u, x, codec);
      }
    }
  }

  /** The client's own readers can make no step, and none of them is waiting for the notices that another client's
      reader is draining. */
  ghost predicate Rests(p: Port, u: Uuid, codec: Codec)
    requires u in p.sockets
  {
    (forall x :: RunReader(p, u, x, codec) == p) && !p.sockets[u].first.WaitNotices?
  }

  lemma RestsHasNoWork(p: Port, u: Uuid, w: Which, codec: Codec)
    requires DrainerFits(p) && u in p.sockets && SocketOk(p.sockets[u], p.alive, codec)
    requires Live(p.sockets[u].Reader(w)) && Rests(p, u, codec)
    ensures !HasWork(p.sockets[u], p.alive, codec)
  {
    if HasWork(p.sockets[u], p.alive, codec) {
      var v, x := MoverOf(p, u, w, codec);
      assert false;
    }
  }

  /** Whatever other clients are doing, on an open stream too nothing is lost: when the client's own readers have come
      to rest and one of them is alive, every complete message that has arrived has been pushed, and nothing of the
      stream is left unread. */
  lemma AtRestNothingIsMissing(run: seq<Action>, cfg: Config, u: Uuid, w: Which)
    requires var p := After(run, cfg).port;
      p.alive && u in p.sockets && Live(p.sockets[u].Reader(w)) && Rests(p, u, cfg.codec)
    ensures var p, sk := After(run, cfg).port, After(run, cfg).port.sockets[u];
      && MessagesOf(p.pushed, u) == Bodies(Items(sk.arrived, cfg.codec))
      && sk.pos == |sk.arrived| && !sk.closed
  {
    RunsKeepDrainer(run, cfg);
    RunsKeepStreams(run, cfg);
    RestsHasNoWork(After(run, cfg).port, u, w, cfg.codec);
    WholeIsDecoded(After(run, cfg).port.sockets[u], cfg.codec);
  }

  lemma WholeIsDecoded(sk: Socket, codec: Codec)
    requires OnBoundary(sk, codec) && FrontLength(sk.arrived[sk.base..], codec).None?
    ensures Items(sk.arrived[..sk.base], codec) == Items(sk.arrived, codec)
  {
    SliceToEnd(sk.arrived, sk.base);
    DecodeNothingMore(sk.arrived[..sk.base], sk.arrived[sk.base..], codec);
  }

  lemma DrainerMoves(p: Port, u: Uuid, codec: Codec)
    requires u in p.sockets && p.sockets[u].first.Draining? && p.drainer == Some(u)
    ensures RunReader(p, u, First, codec) != p
  {
    var (sk, e) := ReaderStep(p.sockets[u], u, First, p, codec);
    if e.SkipNotice? {
      assert Apply(p, u, First, sk, e).notices == p.notices[1..];
    } else {
      assert Apply(p, u, First, sk, e).drainer.None?;
    }
  }

  /** The holder of the shared receiver can always make a step, and it is one towards giving the lock back. */
  lemma DrainerNeverWaits(run: seq<Action>, cfg: Config, u: Uuid)
    requires After(run, cfg).port.drainer == Some(u)
    ensures var p := After(run, cfg).port; var p' := RunReader(p, u, First, cfg.codec);
      if p.notices == [] then p'.drainer.None?
      else p'.notices == p.notices[1..] && (p'.drainer == Some(u) || (p'.drainer.None? && p.notices[0] == u))
  {
    RunsKeepDrainer(run, cfg);
  }

  function RunTimes(p: Port, u: Uuid, n: nat, codec: Codec): Port
    decreases n
  {
    if n == 0 then p else RunTimes(RunReader(p, u, First, codec), u, n - 1, codec)
  }

  /** For any backlog the drain loop ends: left to itself, it gives the lock back after at most one step per notice
      and one more. It stops its reader exactly when the backlog names the reader's client. */
  lemma {:induction false} DrainTerminates(p: Port, u: Uuid, codec: Codec) returns (n: nat)
    requires u in p.sockets && p.sockets[u].first.Draining? && p.drainer == Some(u) && p.alive
    ensures 1 <= n <= |p.notices| + 1
    ensures RunTimes(p, u, n, codec).drainer.None?
    ensures u in RunTimes(p, u, n, codec).sockets
    ensures RunTimes(p, u, n, codec).sockets[u].first
         == if u in p.notices then Ended(Notified) else ReadHeader([])
    decreases |p.notices|
  {
    var q := RunReader(p, u, First, codec);
    if p.notices == [] || p.notices[0] == u {
      n := 1;
      assert RunTimes(q, u, 0, codec) == q;
    } else {
      var m := DrainTerminates(q, u, codec);
      n := m + 1;
      assert p.notices == [p.notices[0]] + q.notices;
    }
  }

  // ---------- soundness of stopping ----------

  /** A first reader that was stopped by a notice had its client authenticated before. */
  lemma StopsOnlyIfAuthenticated(run: seq<Action>, cfg: Config, u: Uuid) returns (k: nat)
    requires u in After(run, cfg).port.sockets && After(run, cfg).port.sockets[u].first == Ended(Notified)
    ensures Joins(run, k, u, cfg)
  {
    RunsKeepInv(run, cfg);
    k := ConnectedHasJoined(run, cfg, u);
  }

  // ---------- notices that go astray ----------

  /** A client gets at most one notice in its life. */
  ghost predicate OneNotice(s: Server, u: Uuid) {
    multiset(s.port.notices)[u] + Flag(s.notifying == Some(u)) <= Flag(u in s.clientsConnected)
  }

  lemma StepKeepsOneNotice(s: Server, a: Action, cfg: Config, u: Uuid)
    requires OneNotice(s, u)
    ensures OneNotice(Step(s, a, cfg), u)
  {
    match a
    case Run(v, w) => RunKeepsOneNotice(s, v, w, cfg, u);
    case _ =>
  }

  lemma RunKeepsOneNotice(s: Server, v: Uuid, w: Which, cfg: Config, u: Uuid)
    requires OneNotice(s, u)
    ensures OneNotice(s.(port := RunReader(s.port, v, w, cfg.codec)), u)
  {
    NoticesOnlyShrink(s.port, v, w, cfg.codec);
    if s.port.notices != [] {
      assert s.port.notices == [s.port.notices[0]] + s.port.notices[1..];
    }
  }

  lemma NoticesOnlyShrink(p: Port, v: Uuid, w: Which, codec: Codec)
    ensures var p' := RunReader(p, v, w, codec);
      p'.notices == p.notices || (p.notices != [] && p'.notices == p.notices[1..])
  {
  }

  lemma {:induction false} RunsKeepOneNotice(run: seq<Action>, cfg: Config, u: Uuid)
    ensures OneNotice(After(run, cfg), u)
    decreases |run|
  {
    if run == [] {
    } else {
      RunsKeepOneNotice(run[..|run| - 1], cfg, u);
      StepKeepsOneNotice(After(run[..|run| - 1], cfg), run[|run| - 1], cfg, u);
    }
  }

  /** The client has logged in and its notice is gone, but its first reader has not seen it. */
  ghost predicate NoticeMissed(s: Server, u: Uuid) {
    && u in s.clientsConnected && s.notifying != Some(u) && u !in s.port.notices
    && u in s.port.sockets && s.port.sockets[u].first != Ended(Notified)
  }

  /** The first readers share one channel: one that drains it takes the notices of all the others away. */
  lemma AnotherTakesTheNotice(run: seq<Action>, cfg: Config, u: Uuid, v: Uuid)
    requires var p := After(run, cfg).port;
      && u != v && p.drainer == Some(v) && p.notices != [] && p.notices[0] == u
      && u in p.sockets && p.sockets[u].first != Ended(Notified)
    ensures NoticeMissed(After(run + [Run(v, First)], cfg), u)
  {
    RunsKeepDrainer(run, cfg);
    RunsKeepOneNotice(run, cfg, u);
    AfterSnoc(run, Run(v, First), cfg);
    ForeignNoticeSkipped(After(run, cfg).port, u, v, cfg.codec);
    OnlyThisNotice(After(run, cfg), u);
  }

  lemma ForeignNoticeSkipped(p: Port, u: Uuid, v: Uuid, codec: Codec)
    requires u != v && v in p.sockets && p.sockets[v].first.Draining? && p.notices != [] && p.notices[0] == u
    ensures RunReader(p, v, First, codec) == p.(notices := p.notices[1..])
  {
    assert p.sockets[v := p.sockets[v]] == p.sockets;
  }

  lemma OnlyThisNotice(s: Server, u: Uuid)
    requires OneNotice(s, u) && s.port.notices != [] && s.port.notices[0] == u
    ensures u in s.clientsConnected && s.notifying != Some(u) && u !in s.port.notices[1..]
  {
    assert s.port.notices == [u] + s.port.notices[1..];
  }

  /** The steps that make a client's first reader miss its notice. */
  ghost predicate LosesNotice(s: Server, a: Action, u: Uuid)
    requires u in s.port.sockets
  {
    // a reader of another client finds the notice in the channel
    || (&& a.Run? && a.w.First? && a.u != u && s.port.drainer == Some(a.u)
        && s.port.notices != [] && s.port.notices[0] == u && s.port.sockets[u].first != Ended(Notified))
    // the client is admitted after it has gone, and no notice is sent
    || (&& a == Login(true) && s.notifying.None? && s.port.alive
        && s.logins != [] && s.logins[0] == u && StatusOf(s, u) == Gone && u !in s.clientsConnected)
  }

  /** A notice gets lost by exactly these steps. */
  lemma NoticeMissedBy(run: seq<Action>, a: Action, cfg: Config, u: Uuid)
    requires u in After(run, cfg).port.sockets && !NoticeMissed(After(run, cfg), u)
    ensures NoticeMissed(After(run + [a], cfg), u) <==> LosesNotice(After(run, cfg), a, u)
  {
    var s := After(run, cfg);
    RunsKeepDrainer(run, cfg);
    RunsKeepInv(run, cfg);
    RunsKeepOneNotice(run, cfg, u);
    AfterSnoc(run, a, cfg);
    if a.Run? {
      RunLosesNotice(s, a.u, a.w, cfg, u);
    } else if a.Notify? || a.Arrive? || a.Close? || a.Accept? || s.notifying.Some? || !s.port.alive {
      RestLosesNothing(s, a, cfg, u);
    } else {
      MainLosesNotice(s, a, cfg, u);
    }
  }

  lemma RestLosesNothing(s: Server, a: Action, cfg: Config, u: Uuid)
    requires u in s.port.sockets && !NoticeMissed(s, u) && !a.Run?
    requires a.Notify? || a.Arrive? || a.Close? || a.Accept? || s.notifying.Some? || !s.port.alive
    ensures !NoticeMissed(Step(s, a, cfg), u) && !LosesNotice(s, a, u)
  {
    match a
    case Notify =>
    case Arrive(_, _) =>
    case Close(_) =>
    case Accept =>
    case _ =>
  }

  lemma RunLosesNotice(s: Server, v: Uuid, w: Which, cfg: Config, u: Uuid)
    requires Inv(s) && DrainerFits(s.port) && OneNotice(s, u) && u in s.port.sockets && !NoticeMissed(s, u)
    ensures NoticeMissed(s.(port := RunReader(s.port, v, w, cfg.codec)), u) <==> LosesNotice(s, Run(v, w), u)
  {
    var p := s.port;
    if v in p.sockets {
      var (sk, e) := ReaderStep(p.sockets[v], v, w, p, cfg.codec);
      assert LockFits(p.sockets[v]);
      TakesNotice(p.sockets[v], v, w, p, cfg.codec);
      if e.SkipNotice? || e.StopOnNotice? {
        TakingLosesNotice(s, v, sk, e, u);
      } else {
        ApplyFrame(p, v, w, sk, e);
        assert Apply(p, v, w, sk, e).notices == p.notices;
      }
    }
  }

  lemma TakingLosesNotice(s: Server, v: Uuid, sk: Socket, e: Effect, u: Uuid)
    requires OneNotice(s, u) && u in s.port.sockets && !NoticeMissed(s, u) && v in s.port.sockets
    requires s.port.notices != [] && (e.SkipNotice? || e.StopOnNotice?) && s.port.drainer == Some(v)
    requires e.StopOnNotice? <==> s.port.notices[0] == v
    requires sk.first == Ended(Notified) <==> s.port.sockets[v].first == Ended(Notified) || e.StopOnNotice?
    ensures NoticeMissed(s.(port := Apply(s.port, v, First, sk, e)), u) <==> LosesNotice(s, Run(v, First), u)
  {
    assert s.port.notices == [s.port.notices[0]] + s.port.notices[1..];
    if s.port.notices[0] == u { OnlyThisNotice(s, u); }
  }

  /** A step takes a notice exactly when its reader is the first reader that drains and there is a notice to take; it
      stops the reader exactly when the notice is its client's. */
  lemma TakesNotice(sk: Socket, u: Uuid, w: Which, p: Port, codec: Codec)
    requires LockFits(sk)
    ensures var (sk', e) := ReaderStep(sk, u, w, p, codec);
      && (e.SkipNotice? <==> w.First? && sk.first.Draining? && p.notices != [] && p.notices[0] != u)
      && (e.StopOnNotice? <==> w.First? && sk.first.Draining? && p.notices != [] && p.notices[0] == u)
      && (sk'.first == Ended(Notified) <==> sk.first == Ended(Notified) || e.StopOnNotice?)
  {
  }

  lemma MainLosesNotice(s: Server, a: Action, cfg: Config, u: Uuid)
    requires Inv(s) && OneNotice(s, u) && u in s.port.sockets && !NoticeMissed(s, u)
    requires s.notifying.None? && s.port.alive && !a.Run?
    ensures NoticeMissed(MainStep(s, a, cfg), u) <==> LosesNotice(s, a, u)
  {
    match a
    case Login(granted) =>
      if s.logins != [] && granted { LoginLosesNotice(s.(logins := s.logins[1..]), s.logins[0], u); }
    case Register(_) =>
    case ListenWaiting =>
    case Reap =>
    case _ =>
  }

  lemma LoginLosesNotice(s: Server, v: Uuid, u: Uuid)
    requires Accounts(s.port) && s.port.listening.Keys <= s.clientsConnected && u in s.port.sockets
    requires s.notifying.None? && OneNotice(s, u) && !NoticeMissed(s, u)
    requires s.port.sockets[u].first == Ended(Notified) ==> u in s.clientsConnected
    ensures NoticeMissed(AuthenticateClient(s, v), u)
       <==> v == u && StatusOf(s, u) == Gone && u !in s.clientsConnected
  {
  }

  lemma MissedStays(s: Server, a: Action, cfg: Config, u: Uuid)
    requires NoticeMissed(s, u)
    ensures NoticeMissed(Step(s, a, cfg), u)
  {
    match a
    case Run(v, w) => RunKeepsMissed(s, v, w, cfg, u);
    case Notify =>
    case Arrive(_, _) =>
    case Close(_) =>
    case Accept =>
    case _ => MainKeepsMissed(s, a, cfg, u);
  }

  lemma RunKeepsMissed(s: Server, v: Uuid, w: Which, cfg: Config, u: Uuid)
    requires NoticeMissed(s, u)
    ensures NoticeMissed(s.(port := RunReader(s.port, v, w, cfg.codec)), u)
  {
    NoticesOnlyShrink(s.port, v, w, cfg.codec);
    if v in s.port.sockets {
      StopsOnOwnNotice(s.port.sockets[v], v, w, s.port, cfg.codec);
      var (sk, e) := ReaderStep(s.port.sockets[v], v, w, s.port, cfg.codec);
      ApplyFrame(s.port, v, w, sk, e);
    }
  }

  lemma MainKeepsMissed(s: Server, a: Action, cfg: Config, u: Uuid)
    requires NoticeMissed(s, u)
    ensures NoticeMissed(MainStep(s, a, cfg), u)
  {
    match a
    case Login(granted) =>
      if s.logins != [] && granted { LoginKeepsMissed(s.(logins := s.logins[1..]), s.logins[0], u); }
    case _ =>
  }

  lemma LoginKeepsMissed(s: Server, v: Uuid, u: Uuid)
    requires NoticeMissed(s, u)
    ensures NoticeMissed(AuthenticateClient(s, v), u)
  {
  }

  /** No second notice ever comes, so the first reader is never stopped: it keeps the stream until its own end, and the
      client's frames keep coming through it. */
  lemma {:induction false} MissedForever(run: seq<Action>, more: seq<Action>, cfg: Config, u: Uuid)
    requires NoticeMissed(After(run, cfg), u)
    ensures NoticeMissed(After(run + more, cfg), u)
    decreases |more|
  {
    if more == [] {
      assert run + more == run;
    } else {
      var before, a := run + more[..|more| - 1], more[|more| - 1];
      assert run + more == before + [a];
      MissedForever(run, more[..|more| - 1], cfg, u);
      MissedStays(After(before, cfg), a, cfg, u);
      AfterSnoc(before, a, cfg);
    }
  }

  // ---------- readers that outlive their port ----------

  lemma DeadPortStep(s: Server, a: Action, cfg: Config)
    requires !s.port.alive
    ensures var t := Step(s, a, cfg);
      !t.port.alive && t.port.pushed == s.port.pushed && t.port.reported == s.port.reported
  {
    match a
    case Run(u, w) =>
      if u in s.port.sockets {
        var (sk, e) := ReaderStep(s.port.sockets[u], u, w, s.port, cfg.codec);
        assert !e.Deliver? && !e.Fail?;
      }
    case _ =>
  }

  /** Into a port that is gone nothing is pushed and nothing reported, whatever arrives. */
  lemma {:induction false} DeadPortGetsNothing(run: seq<Action>, more: seq<Action>, cfg: Config)
    requires !After(run, cfg).port.alive
    ensures var p, q := After(run, cfg).port, After(run + more, cfg).port;
      !q.alive && q.pushed == p.pushed && q.reported == p.reported
    decreases |more|
  {
    if more == [] {
      assert run + more == run;
    } else {
      var before, a := run + more[..|more| - 1], more[|more| - 1];
      assert run + more == before + [a];
      DeadPortGetsNothing(run, more[..|more| - 1], cfg);
      DeadPortStep(After(before, cfg), a, cfg);
      AfterSnoc(before, a, cfg);
    }
  }

  /** A first reader that looks for notices then ends, stopped by its own notice or because there is nobody left to send
      any; it never goes back to its stream. */
  lemma {:induction false} DeadDrainEnds(p: Port, u: Uuid, codec: Codec) returns (n: nat)
    requires u in p.sockets && p.sockets[u].first.Draining? && p.drainer == Some(u) && !p.alive
    ensures 1 <= n <= |p.notices| + 1
    ensures u in RunTimes(p, u, n, codec).sockets
    ensures RunTimes(p, u, n, codec).sockets[u].first == Ended(if u in p.notices then Notified else Orphaned)
    decreases |p.notices|
  {
    var q := RunReader(p, u, First, codec);
    if p.notices == [] || p.notices[0] == u {
      n := 1;
      assert RunTimes(q, u, 0, codec) == q;
    } else {
      var m := DeadDrainEnds(q, u, codec);
      n := m + 1;
      assert p.notices == [p.notices[0]] + q.notices;
    }
  }
}
