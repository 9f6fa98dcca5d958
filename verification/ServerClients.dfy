/** The clients of a TCP server: the two maps of the port, the reader tasks with their locks, the channels, and the
    server connection with its message gate. Every action is one atomic step of the main thread, of a reader task
    or of the network; a run is any list of actions in any order, so it covers every interleaving. */
module ServerClients {
  import opened Basics
  import opened Bytes
  import opened LengthHeader
  import opened FrameStream

  type Uuid = nat

  // ---------- reader tasks ----------

  /** The reader spawned before authentication, and the one spawned on authentication. */
  datatype Which = First | Second

  /** Notified: found its client's notice in the channel. Orphaned: the port is gone. EndOfStream: a read failed.
      Panicked: a header no vector can satisfy, or a send into a port that is gone. */
  datatype Ending = Notified | Orphaned | EndOfStream | Panicked

  datatype Reader =
    | NotSpawned
    | WaitRead                                  // waits for the lock of the read half
    | WaitNotices                               // waits for the lock of the shared notice receiver
    | Draining                                  // takes notices until the channel is empty
    | ReadHeader(buf: seq<Byte>)
    | ReadBody(size: nat, body: seq<Byte>)
    | Ended(how: Ending)
  {
    predicate Holds() {
      WaitNotices? || Draining? || ReadHeader? || ReadBody?
    }
  }

  /** One client's stream and the tasks that read it. arrived[..pos] has been consumed, and the rounds that were
      completed while the port existed consumed arrived[..base]. firsts and seconds count how often each reader was
      spawned. */
  datatype Socket = Socket(arrived: seq<Byte>, closed: bool, pos: nat, base: nat, lock: Option<Which>,
                           first: Reader, second: Reader, firsts: nat, seconds: nat)
  {
    function Reader(w: Which): Reader {
      if w.First? then first else second
    }

    function Set(w: Which, r: Reader): Socket {
      if w.First? then this.(first := r) else this.(second := r)
    }

    /** The task ends and drops its guard of the read half. */
    function End(w: Which, how: Ending): Socket {
      Set(w, Ended(how)).(lock := None)
    }

    function Spawn(w: Which): Socket {
      if w.First? then this.(first := WaitRead, firsts := firsts + 1)
      else this.(second := WaitRead, seconds := seconds + 1)
    }
  }

  const FRESH: Socket := Socket([], false, 0, 0, None, NotSpawned, NotSpawned, 0, 0)

  type Report = (Uuid, Which)

  /** waiting is not_authenticated_listening and listening is listening_clients, both mapping to the listening flag.
      pushed and reported are the histories of the message and disconnect channels. */
  datatype Port = Port(waiting: map<Uuid, bool>, listening: map<Uuid, bool>, accepted: nat,
                       sockets: map<Uuid, Socket>, notices: seq<Uuid>, drainer: Option<Uuid>,
                       inbox: seq<(Uuid, seq<Byte>)>, reports: seq<Report>, alive: bool,
                       pushed: seq<(Uuid, seq<Byte>)>, reported: seq<Report>)

  /** What a reader's step does outside its own socket. */
  datatype Effect = Silent | TakeNotices | LeaveNotices | SkipNotice | StopOnNotice | Deliver(body: seq<Byte>) | Fail

  /** Back to the top of the read loop. */
  function LoopTop(w: Which): Reader {
    if w.First? then WaitNotices else ReadHeader([])
  }

  /** One byte arrives in the reader's buffer, or the read fails at the end of the stream, or the task goes on
      waiting. */
  function TakeByte(sk: Socket, w: Which, r: Reader, alive: bool): (Socket, Effect)
    requires sk.pos < |sk.arrived| ==> (r.ReadHeader? || r.ReadBody?)
  {
    if sk.pos < |sk.arrived| then
      var b := sk.arrived[sk.pos];
      var r' := if r.ReadHeader? then ReadHeader(r.buf + [b]) else ReadBody(r.size, r.body + [b]);
      (sk.Set(w, r').(pos := sk.pos + 1), Silent)
    else if sk.closed then
      if alive then (sk.End(w, EndOfStream), Fail) else (sk.End(w, Panicked), Silent)
    else (sk, Silent)
  }

  /** One atomic step of reader w of client u, if it can make one. */
  function ReaderStep(sk: Socket, u: Uuid, w: Which, p: Port, codec: Codec): (Socket, Effect) {
    var r := sk.Reader(w);
    match r
    case NotSpawned => (sk, Silent)
    case Ended(_) => (sk, Silent)
    case WaitRead =>
      if sk.lock.None? then (sk.Set(w, LoopTop(w)).(lock := Some(w)), Silent) else (sk, Silent)
    case WaitNotices =>
      if p.drainer.None? then (sk.Set(w, Draining), TakeNotices) else (sk, Silent)
    case Draining =>
      if p.notices == [] then
        if p.alive then (sk.Set(w, ReadHeader([])), LeaveNotices) else (sk.End(w, Orphaned), LeaveNotices)
      else if p.notices[0] == u then (sk.End(w, Notified), StopOnNotice)
      else (sk, SkipNotice)
    case ReadHeader(buf) =>
      if |buf| < codec.width then TakeByte(sk, w, r, p.alive)
      else if codec.decode(buf) > ISIZE_MAX then
        (sk.End(w, Panicked).(base := if p.alive then sk.pos else sk.base), Silent)
      else (sk.Set(w, ReadBody(codec.decode(buf), [])), Silent)
    case ReadBody(size, body) =>
      if |body| < size then TakeByte(sk, w, r, p.alive)
      else if p.alive then
        (sk.Set(w, LoopTop(w)).(base := sk.pos), Deliver(body))
      else (sk.End(w, Panicked), Silent)
  }

  function Apply(p: Port, u: Uuid, w: Which, sk: Socket, e: Effect): Port {
    var q := p.(sockets := p.sockets[u := sk]);
    match e
    case Silent => q
    case TakeNotices => q.(drainer := Some(u))
    case LeaveNotices => q.(drainer := None)
    case SkipNotice => if p.notices == [] then q else q.(notices := p.notices[1..])
    case StopOnNotice => if p.notices == [] then q else q.(notices := p.notices[1..], drainer := None)
    case Deliver(body) => q.(inbox := p.inbox + [(u, body)], pushed := p.pushed + [(u, body)])
    case Fail => q.(reports := p.reports + [(u, w)], reported := p.reported + [(u, w)])
  }

  function RunReader(p: Port, u: Uuid, w: Which, codec: Codec): Port {
    if u !in p.sockets then p
    else
      var (sk, e) := ReaderStep(p.sockets[u], u, w, p, codec);
      Apply(p, u, w, sk, e)
  }

  // ---------- operations of the port ----------

  /** check_clients_connected: the next accepted stream gets a fresh id. */
  function CheckClientsConnected(p: Port, u: Uuid): Port {
    if p.accepted == 0 || u in p.sockets then p
    else p.(accepted := p.accepted - 1, sockets := p.sockets[u := FRESH], waiting := p.waiting[u := false])
  }

  /** check_not_authenticated_clients: every waiting client that is not listened to yet gets its first reader. */
  function CheckNotAuthenticatedClients(p: Port, runtime: bool): Port {
    p.(waiting := map u | u in p.waiting :: true,
       sockets := map u | u in p.sockets ::
         if runtime && u in p.waiting && !p.waiting[u] then p.sockets[u].Spawn(First) else p.sockets[u])
  }

  /** The first part of authenticate_client: the client changes maps and gets its second reader. */
  function Promote(p: Port, u: Uuid, runtime: bool): Port {
    if u !in p.waiting then p
    else p.(waiting := p.waiting - {u}, listening := p.listening[u := true],
            sockets := if runtime && u in p.sockets then p.sockets[u := p.sockets[u].Spawn(Second)] else p.sockets)
  }

  /** The second part: the notice that is to stop the first reader. */
  function SendNotice(p: Port, u: Uuid): Port {
    p.(notices := p.notices + [u])
  }

  /** check_clients_diconnected handles one report: it removes the client from the map its reader belongs to. */
  function CheckClientsDisconnected(p: Port): Port {
    if p.reports == [] then p
    else
      var (u, w) := p.reports[0];
      var q := p.(reports := p.reports[1..]);
      if w.First? then q.(waiting := p.waiting - {u}) else q.(listening := p.listening - {u})
  }

  /** check_messages_received takes everything that is in the channel. */
  function CheckMessagesReceived(p: Port): Port {
    p.(inbox := [])
  }

  // ---------- the server ----------

  /** What the registry makes of a message: no envelope, of an unknown id, of a registered type whose payload does not
      decode, or a message of a registered type. authentication is the message's own claim; login says that it is of
      the type the authentication system listens to. */
  datatype Kind = Malformed | Unregistered | Undecodable | Registered(authentication: bool, login: bool)

  datatype Config = Config(codec: Codec, kind: seq<Byte> -> Kind)

  /** A queued dispatch, with the time of the read that queued it. */
  datatype Command = Command(sender: Uuid, body: seq<Byte>, readAt: nat)

  /** notifying: authenticate_client is between its two parts. delivered: history of what was taken from the port. */
  datatype Server = Server(port: Port, runtime: bool, clientsConnected: set<Uuid>, notifying: Option<Uuid>,
                           commands: seq<Command>, logins: seq<Uuid>, dispatched: seq<Command>,
                           delivered: seq<(Uuid, seq<Byte>)>, clock: nat)

  const INIT: Server :=
    Server(Port(map[], map[], 0, map[], [], None, [], [], true, [], []), false, {}, None, [], [], [], [], 0)

  /** The gate: a registered message passes if its sender is connected or the message is for authentication. */
  predicate Passes(sender: Uuid, body: seq<Byte>, connected: set<Uuid>, cfg: Config) {
    cfg.kind(body).Registered? && (sender in connected || cfg.kind(body).authentication)
  }

  function Gate(batch: seq<(Uuid, seq<Byte>)>, connected: set<Uuid>, now: nat, cfg: Config): seq<Command> {
    if batch == [] then []
    else
      var (sender, body) := batch[0];
      (if Passes(sender, body, connected, cfg) then [Command(sender, body, now)] else [])
      + Gate(batch[1..], connected, now, cfg)
  }

  /** A payload that does not decode panics the main thread, whoever sent it: decoding comes before the gate. */
  predicate Crashes(batch: seq<(Uuid, seq<Byte>)>, cfg: Config) {
    exists m <- batch :: cfg.kind(m.1).Undecodable?
  }

  /** The commands that one read queues. */
  function ReadBatch(batch: seq<(Uuid, seq<Byte>)>, connected: set<Uuid>, now: nat, cfg: Config): seq<Command> {
    if Crashes(batch, cfg) then [] else Gate(batch, connected, now, cfg)
  }

  function Logins(commands: seq<Command>, cfg: Config): seq<Uuid> {
    if commands == [] then []
    else
      (if cfg.kind(commands[0].body).Registered? && cfg.kind(commands[0].body).login then [commands[0].sender] else [])
      + Logins(commands[1..], cfg)
  }

  datatype Action =
    // the network and the accept task
    | Arrive(u: Uuid, data: seq<Byte>) | Close(u: Uuid) | Accept
    // the main thread
    | StartRuntime | Register(u: Uuid) | ListenWaiting | Reap | ReadMessages | Flush | Login(granted: bool) | Notify
    | DropPort
    // the runtime schedules a reader task
    | Run(u: Uuid, w: Which)

  /** ServerConnection::authenticate_client for the main port, up to the notice. */
  function AuthenticateClient(s: Server, u: Uuid): Server {
    if u in s.clientsConnected then s
    else s.(clientsConnected := s.clientsConnected + {u},
            port := Promote(s.port, u, s.runtime),
            notifying := if u in s.port.waiting then Some(u) else None)
  }

  function Step(s: Server, a: Action, cfg: Config): Server {
    match a
    case Arrive(u, data) =>
      if u in s.port.sockets && !s.port.sockets[u].closed then
        var sk := s.port.sockets[u];
        s.(port := s.port.(sockets := s.port.sockets[u := sk.(arrived := sk.arrived + data)]))
      else s
    case Close(u) =>
      if u in s.port.sockets then
        s.(port := s.port.(sockets := s.port.sockets[u := s.port.sockets[u].(closed := true)]))
      else s
    case Accept => s.(port := s.port.(accepted := s.port.accepted + 1))
    case Run(u, w) => s.(port := RunReader(s.port, u, w, cfg.codec))
    case Notify =>
      if s.notifying.Some? && s.port.alive then
        s.(port := SendNotice(s.port, s.notifying.value), notifying := None)
      else s
    case _ => if s.notifying.Some? || !s.port.alive then s else MainStep(s, a, cfg)
  }

  /** A step of the main thread between two calls. */
  function MainStep(s: Server, a: Action, cfg: Config): Server {
    match a
    case StartRuntime => s.(runtime := true)
    case Register(u) => s.(port := CheckClientsConnected(s.port, u))
    case ListenWaiting => s.(port := CheckNotAuthenticatedClients(s.port, s.runtime))
    case Reap => s.(port := CheckClientsDisconnected(s.port))
    case ReadMessages =>
      // a panic unwinds the application, and its port goes with it
      var port := CheckMessagesReceived(s.port);
      s.(port := if Crashes(s.port.inbox, cfg) then port.(alive := false) else port,
         delivered := s.delivered + s.port.inbox,
         commands := s.commands + ReadBatch(s.port.inbox, s.clientsConnected, s.clock, cfg))
    case Flush =>
      s.(dispatched := s.dispatched + s.commands, logins := s.logins + Logins(s.commands, cfg), commands := [])
    case Login(granted) =>
      if s.logins == [] then s
      else
        var t := s.(logins := s.logins[1..]);
        if granted then AuthenticateClient(t, s.logins[0]) else t
    case DropPort => s.(port := s.port.(alive := false))
    case _ => s
  }

  function Next(s: Server, a: Action, cfg: Config): Server {
    Step(s, a, cfg).(clock := s.clock + 1)
  }

  /** The state after a run. */
  function After(run: seq<Action>, cfg: Config): Server {
    if run == [] then INIT else Next(After(run[..|run| - 1], cfg), run[|run| - 1], cfg)
  }
}
