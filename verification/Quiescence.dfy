/** The readers always come to rest: every step that a reader really makes uses up some of a measure, so left to
    themselves the readers of all clients stop after finitely many steps, in whatever order they are scheduled. */
module Quiescence {
  import opened Basics
  import opened FrameStream
  import opened ServerClients
  import opened Admission
  import opened Handover
  import opened ReaderLocks

  /** How far a reader is from the next byte it needs. */
  function Phase(r: Reader): nat {
    match r
    case NotSpawned => 0
    case WaitRead => 4
    case WaitNotices => 3
    case Draining => 2
    case ReadHeader(buf) => 1 + 4 * |buf|
    case ReadBody(_, _) => 4
    case Ended(_) => 0
  }

  /** Each byte that has not been consumed outweighs what its reader can do with it. */
  function SocketWork(sk: Socket): int {
    6 * (|sk.arrived| - sk.pos) + Phase(sk.first) + Phase(sk.second)
  }

  function SocketsWork(p: Port, clients: seq<Uuid>): int {
    if clients == [] then 0
    else (if clients[0] in p.sockets then SocketWork(p.sockets[clients[0]]) else 0) + SocketsWork(p, clients[1..])
  }

  function Work(p: Port, clients: seq<Uuid>): int {
    SocketsWork(p, clients) + |p.notices|
  }

  /** clients lists every client once. */
  ghost predicate Lists(clients: seq<Uuid>, p: Port) {
    && (forall i, j :: 0 <= i < j < |clients| ==> clients[i] != clients[j])
    && (forall u :: u in p.sockets <==> u in clients)
  }

  lemma {:induction false} Enumerate(s: set<Uuid>) returns (list: seq<Uuid>)
    ensures forall i, j :: 0 <= i < j < |list| ==> list[i] != list[j]
    ensures forall u :: u in s <==> u in list
    decreases |s|
  {
    if s == {} {
      list := [];
    } else {
      var u :| u in s;
      var rest := Enumerate(s - {u});
      list := [u] + rest;
      assert forall v :: v in list <==> v == u || v in rest;
    }
  }

  // ---------- every real step uses up work ----------

  /** What the step takes out of the channel of notices. */
  function Taken(e: Effect): nat {
    if e.SkipNotice? || e.StopOnNotice? then 1 else 0
  }

  ghost predicate Idle(sk: Socket, sk': Socket, e: Effect) {
    sk' == sk && e == Silent
  }

  lemma TakeByteWorks(sk: Socket, w: Which, alive: bool)
    requires sk.pos <= |sk.arrived| && (sk.Reader(w).ReadHeader? || sk.Reader(w).ReadBody?)
    ensures var (sk', e) := TakeByte(sk, w, sk.Reader(w), alive);
      Idle(sk, sk', e) || (SocketWork(sk') < SocketWork(sk) && Taken(e) == 0)
  {
  }

  lemma StepWorks(sk: Socket, u: Uuid, w: Which, p: Port, codec: Codec)
    requires sk.pos <= |sk.arrived|
    ensures var (sk', e) := ReaderStep(sk, u, w, p, codec);
      && (Taken(e) > 0 ==> p.notices != [])
      && (Idle(sk, sk', e) || SocketWork(sk') < SocketWork(sk) + Taken(e))
  {
    var r := sk.Reader(w);
    if (r.ReadHeader? && |r.buf| < codec.width) || (r.ReadBody? && |r.body| < r.size) {
      TakeByteWorks(sk, w, p.alive);
    }
  }

  lemma {:induction false} OthersUnchanged(p: Port, p': Port, u: Uuid, clients: seq<Uuid>)
    requires u !in clients && (forall v :: v != u ==> (v in p.sockets <==> v in p'.sockets))
    requires forall v <- p.sockets :: v != u ==> p'.sockets[v] == p.sockets[v]
    ensures SocketsWork(p', clients) == SocketsWork(p, clients)
  {
    if clients == [] {
    } else {
      OthersUnchanged(p, p', u, clients[1..]);
    }
  }

  lemma {:induction false} OneChanges(p: Port, u: Uuid, sk: Socket, p': Port, clients: seq<Uuid>)
    requires u in p.sockets && u in clients && p'.sockets == p.sockets[u := sk]
    requires forall i, j :: 0 <= i < j < |clients| ==> clients[i] != clients[j]
    ensures SocketsWork(p', clients) == SocketsWork(p, clients) - SocketWork(p.sockets[u]) + SocketWork(sk)
  {
    if clients == [] {
    } else if clients[0] == u {
      assert u !in clients[1..];
      OthersUnchanged(p, p', u, clients[1..]);
    } else {
      OneChanges(p, u, sk, p', clients[1..]);
    }
  }

  /** A reader's step changes nothing at all or lowers the work. */
  lemma RunWorks(p: Port, u: Uuid, w: Which, codec: Codec, clients: seq<Uuid>)
    requires Streams(p, codec) && Lists(clients, p)
    ensures Lists(clients, RunReader(p, u, w, codec))
    ensures RunReader(p, u, w, codec) == p || Work(RunReader(p, u, w, codec), clients) < Work(p, clients)
  {
    if u in p.sockets {
      var (sk, e) := ReaderStep(p.sockets[u], u, w, p, codec);
      StepWorks(p.sockets[u], u, w, p, codec);
      ApplyFrame(p, u, w, sk, e);
      if Idle(p.sockets[u], sk, e) {
        assert p.sockets[u := sk] == p.sockets;
      } else {
        OneChanges(p, u, sk, Apply(p, u, w, sk, e), clients);
        NoticesTaken(p, u, w, sk, e);
      }
    }
  }

  lemma NoticesTaken(p: Port, u: Uuid, w: Which, sk: Socket, e: Effect)
    requires Taken(e) > 0 ==> p.notices != []
    ensures |Apply(p, u, w, sk, e).notices| == |p.notices| - Taken(e)
  {
  }

  lemma {:induction false} WorkIsNatural(p: Port, codec: Codec, clients: seq<Uuid>)
    requires Streams(p, codec)
    ensures SocketsWork(p, clients) >= 0
  {
    if clients == [] {
    } else {
      WorkIsNatural(p, codec, clients[1..]);
      if clients[0] in p.sockets { assert SocketOk(p.sockets[clients[0]], p.alive, codec); }
    }
  }

  // ---------- results ----------

  type ReaderAction = a: Action | a.Run? witness Run(0, First)

  function RunAll(p: Port, steps: seq<ReaderAction>, codec: Codec): Port
    decreases |steps|
  {
    if steps == [] then p else RunAll(RunReader(p, steps[0].u, steps[0].w, codec), steps[1..], codec)
  }

  lemma RunStep(run: seq<Action>, a: ReaderAction, cfg: Config)
    ensures After(run + [a], cfg).port == RunReader(After(run, cfg).port, a.u, a.w, cfg.codec)
  {
    AfterSnoc(run, a, cfg);
  }

  lemma {:induction false} RunAllIsARun(run: seq<Action>, steps: seq<ReaderAction>, cfg: Config)
    ensures After(run + steps, cfg).port == RunAll(After(run, cfg).port, steps, cfg.codec)
    decreases |steps|
  {
    if steps == [] {
      assert run + steps == run;
    } else {
      FirstApart(run, steps);
      RunStep(run, steps[0], cfg);
      RunAllIsARun(run + [steps[0]], steps[1..], cfg);
    }
  }

  /** Every step changes something. */
  predicate AllReal(p: Port, steps: seq<ReaderAction>, codec: Codec)
    decreases |steps|
  {
    steps == [] ||
    (&& RunReader(p, steps[0].u, steps[0].w, codec) != p
     && AllReal(RunReader(p, steps[0].u, steps[0].w, codec), steps[1..], codec))
  }

  lemma {:induction false} RealStepsWork(p: Port, steps: seq<ReaderAction>, codec: Codec, clients: seq<Uuid>)
    requires Streams(p, codec) && Lists(clients, p) && AllReal(p, steps, codec)
    ensures 0 <= Work(RunAll(p, steps, codec), clients) <= Work(p, clients) - |steps|
    decreases |steps|
  {
    if steps == [] {
      WorkIsNatural(p, codec, clients);
    } else {
      RunWorks(p, steps[0].u, steps[0].w, codec, clients);
      RunKeepsStreams(p, steps[0].u, steps[0].w, codec);
      RealStepsWork(RunReader(p, steps[0].u, steps[0].w, codec), steps[1..], codec, clients);
    }
  }

  /** No livelock: from any reachable state, in whatever order the readers are scheduled, they make no more real steps
      than the work there is. */
  lemma RealStepsAreBounded(run: seq<Action>, steps: seq<ReaderAction>, cfg: Config, clients: seq<Uuid>)
    requires Lists(clients, After(run, cfg).port) && AllReal(After(run, cfg).port, steps, cfg.codec)
    ensures 0 <= Work(After(run + steps, cfg).port, clients) <= Work(After(run, cfg).port, clients) - |steps|
  {
    RunsKeepStreams(run, cfg);
    RealStepsWork(After(run, cfg).port, steps, cfg.codec, clients);
    RunAllIsARun(run, steps, cfg);
  }

  /** No reader of any client can make a step. */
  ghost predicate AtRest(p: Port, codec: Codec) {
    forall v, x :: RunReader(p, v, x, codec) == p
  }

  /** A step that some reader can make, if there is one. */
  lemma RealStep(p: Port, codec: Codec) returns (a: ReaderAction)
    requires !AtRest(p, codec)
    ensures RunReader(p, a.u, a.w, codec) != p
  {
    var v, x :| RunReader(p, v, x, codec) != p;
    a := Run(v, x);
  }

  lemma {:induction false} RestWithin(p: Port, codec: Codec, clients: seq<Uuid>, n: nat)
    returns (steps: seq<ReaderAction>)
    requires Streams(p, codec) && Lists(clients, p) && Work(p, clients) <= n
    ensures AtRest(RunAll(p, steps, codec), codec) && |steps| <= n
    decreases n
  {
    if AtRest(p, codec) {
      steps := [];
    } else {
      var a := RealStep(p, codec);
      var q := RunReader(p, a.u, a.w, codec);
      RunWorks(p, a.u, a.w, codec, clients);
      RunKeepsStreams(p, a.u, a.w, codec);
      WorkIsNatural(q, codec, clients);
      var rest := RestWithin(q, codec, clients, n - 1);
      steps := [a] + rest;
      assert steps[1..] == rest;
    }
  }

  /** From every reachable state the readers alone come to rest. */
  lemma ReadersComeToRest(run: seq<Action>, cfg: Config) returns (steps: seq<ReaderAction>, clients: seq<Uuid>)
    ensures AtRest(After(run + steps, cfg).port, cfg.codec)
    ensures Lists(clients, After(run, cfg).port) && |steps| <= Work(After(run, cfg).port, clients)
  {
    var p := After(run, cfg).port;
    clients := Enumerate(p.sockets.Keys);
    RunsKeepStreams(run, cfg);
    WorkIsNatural(p, cfg.codec, clients);
    steps := RestWithin(p, cfg.codec, clients, Work(p, clients));
    RunAllIsARun(run, steps, cfg);
  }

  /** Where all readers are at rest, so are those of each client. */
  lemma AtRestRests(run: seq<Action>, cfg: Config, u: Uuid)
    requires u in After(run, cfg).port.sockets && AtRest(After(run, cfg).port, cfg.codec)
    ensures Rests(After(run, cfg).port, u, cfg.codec)
  {
    var p := After(run, cfg).port;
    RunsKeepDrainer(run, cfg);
    if p.sockets[u].first.WaitNotices? {
      if p.drainer.Some? {
        DrainerMoves(p, p.drainer.value, cfg.codec);
        assert false;
      } else {
        HolderMoves(p, u, First, cfg.codec);
        assert false;
      }
    }
  }
}
