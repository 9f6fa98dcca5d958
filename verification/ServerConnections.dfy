/** The server connection: it owns the main port and the set of clients that have logged in, and its systems call the
    port in between frames. */
module ServerConnections {
  import opened Basics
  import opened Bytes
  import C = ServerClients
  import L = ServerLifecycle
  import opened TcpServer

  /** Login and notice in one go, as authenticate_client runs when no other task of the main thread comes between. */
  function Authenticated(s: C.Server, u: Uuid): C.Server {
    var t := C.AuthenticateClient(s, u);
    if t.notifying.Some? then t.(port := C.SendNotice(t.port, u), notifying := None) else t
  }

  function AuthenticateAll(s: C.Server, logins: seq<Uuid>, granted: seq<bool>): C.Server
    requires |logins| == |granted|
  {
    if logins == [] then s
    else
      var n := |logins| - 1;
      var t := AuthenticateAll(s, logins[..n], granted[..n]);
      if granted[n] then Authenticated(t, logins[n]) else t
  }

  /** The replies to granted logins: one to every sender that is authenticated by then, whether by this login or by an
      earlier one. encode is the serialized AuthenticatedUuid. */
  function Replies(s: C.Server, logins: seq<Uuid>, granted: seq<bool>, encode: Uuid -> Option<seq<Byte>>)
    : seq<(Uuid, seq<Byte>)>
    requires |logins| == |granted|
  {
    if logins == [] then []
    else
      var n := |logins| - 1;
      var u := logins[n];
      var t := AuthenticateAll(s, logins, granted);
      Replies(s, logins[..n], granted[..n], encode)
      + (if granted[n] && t.runtime && u in t.port.listening && encode(u).Some? then [(u, encode(u).value)] else [])
  }

  /** The k-th login is granted, and its sender can be reached and the reply be serialized when it is handled. */
  ghost predicate Replied(s: C.Server, logins: seq<Uuid>, granted: seq<bool>, encode: Uuid -> Option<seq<Byte>>, k: nat)
    requires |logins| == |granted| && k < |logins|
  {
    var t := AuthenticateAll(s, logins[..k + 1], granted[..k + 1]);
    granted[k] && t.runtime && logins[k] in t.port.listening && encode(logins[k]).Some?
  }

  /** Exactly these logins are replied to, each to its sender with its own reply. */
  lemma {:induction false} RepliesIff(s: C.Server, logins: seq<Uuid>, granted: seq<bool>,
                                      encode: Uuid -> Option<seq<Byte>>, r: (Uuid, seq<Byte>))
    requires |logins| == |granted|
    ensures r in Replies(s, logins, granted, encode)
       <==> exists k :: 0 <= k < |logins| && Replied(s, logins, granted, encode, k)
                        && r == (logins[k], encode(logins[k]).value)
    decreases |logins|
  {
    if logins == [] {
    } else {
      var n := |logins| - 1;
      RepliesIff(s, logins[..n], granted[..n], encode, r);
      LastReply(s, logins, granted, encode);
      forall k | 0 <= k < n
        ensures Replied(s, logins[..n], granted[..n], encode, k) <==> Replied(s, logins, granted, encode, k)
      {
        RepliedEarlier(s, logins, granted, encode, k);
      }
    }
  }

  lemma LastReply(s: C.Server, logins: seq<Uuid>, granted: seq<bool>, encode: Uuid -> Option<seq<Byte>>)
    requires |logins| == |granted| && logins != []
    ensures var n := |logins| - 1;
      Replies(s, logins, granted, encode)
        == Replies(s, logins[..n], granted[..n], encode)
           + (if Replied(s, logins, granted, encode, n) then [(logins[n], encode(logins[n]).value)] else [])
  {
    assert logins[..|logins|] == logins && granted[..|granted|] == granted;
  }

  lemma RepliedEarlier(s: C.Server, logins: seq<Uuid>, granted: seq<bool>, encode: Uuid -> Option<seq<Byte>>, k: nat)
    requires |logins| == |granted| && k < |logins| - 1
    ensures var n := |logins| - 1;
      Replied(s, logins[..n], granted[..n], encode, k) <==> Replied(s, logins, granted, encode, k)
  {
    var n := |logins| - 1;
    assert logins[..n][..k + 1] == logins[..k + 1] && granted[..n][..k + 1] == granted[..k + 1];
  }

  /** A client that waits stays in one of the two maps while logins are worked off, and once it is authenticated it
      stays so. */
  lemma {:induction false} AuthenticateAllKeeps(s: C.Server, logins: seq<Uuid>, granted: seq<bool>, u: Uuid)
    requires |logins| == |granted| && s.notifying.None?
    requires u in s.port.listening || (u in s.port.waiting && u !in s.clientsConnected)
    ensures var t := AuthenticateAll(s, logins, granted);
      && t.notifying.None? && t.runtime == s.runtime
      && (u in t.port.listening || (u in t.port.waiting && u !in t.clientsConnected))
      && (logins != [] && logins[|logins| - 1] == u && granted[|logins| - 1] ==> u in t.port.listening)
    decreases |logins|
  {
    if logins == [] {
    } else {
      AuthenticateAllKeeps(s, logins[..|logins| - 1], granted[..|logins| - 1], u);
    }
  }

  /** A granted login of a client that waits, or is authenticated already, is replied to. */
  lemma GrantedIsRepliedTo(s: C.Server, logins: seq<Uuid>, granted: seq<bool>, encode: Uuid -> Option<seq<Byte>>,
                           k: nat)
    requires |logins| == |granted| && k < |logins| && s.notifying.None? && s.runtime
    requires granted[k] && encode(logins[k]).Some?
    requires logins[k] in s.port.listening || (logins[k] in s.port.waiting && logins[k] !in s.clientsConnected)
    ensures (logins[k], encode(logins[k]).value) in Replies(s, logins, granted, encode)
  {
    AuthenticateAllKeeps(s, logins[..k + 1], granted[..k + 1], logins[k]);
    assert Replied(s, logins, granted, encode, k);
    RepliesIff(s, logins, granted, encode, (logins[k], encode(logins[k]).value));
  }

  /** Two steps of the server's state machine do the same. */
  lemma AuthenticatedIsTwoSteps(s: C.Server, cfg: C.Config)
    requires s.logins != [] && s.notifying.None? && s.port.alive
    ensures C.Step(C.Step(s, C.Login(true), cfg), C.Notify, cfg)
         == Authenticated(s.(logins := s.logins[1..]), s.logins[0])
  {
  }

  /** The state machine working off logins, one login and one notice at a time. */
  function LoginRun(s: C.Server, granted: seq<bool>, cfg: C.Config): C.Server {
    if granted == [] then s
    else
      var n := |granted| - 1;
      C.Step(C.Step(LoginRun(s, granted[..n], cfg), C.Login(granted[n]), cfg), C.Notify, cfg)
  }

  /** The loop of authentication_message_server is a run of the state machine. */
  lemma {:induction false} LoginsAreSteps(s: C.Server, granted: seq<bool>, cfg: C.Config)
    requires |granted| <= |s.logins| && s.notifying.None? && s.port.alive
    ensures var n := |granted|; var t := LoginRun(s, granted, cfg);
      && t == AuthenticateAll(s, s.logins[..n], granted).(logins := s.logins[n..])
      && t.notifying.None? && t.port.alive
    decreases |granted|
  {
    if granted == [] {
      assert s.logins[..0] == [] && s.logins[0..] == s.logins;
    } else {
      var n := |granted| - 1;
      LoginsAreSteps(s, granted[..n], cfg);
      assert s.logins[..n + 1][..n] == s.logins[..n];
      assert s.logins[n..][1..] == s.logins[n + 1..];
      LoginStep(AuthenticateAll(s, s.logins[..n], granted[..n]), s.logins[n..], granted[n], cfg);
    }
  }

  lemma LoginStep(s: C.Server, logins: seq<Uuid>, granted: bool, cfg: C.Config)
    requires logins != [] && s.notifying.None? && s.port.alive
    ensures C.Step(C.Step(s.(logins := logins), C.Login(granted), cfg), C.Notify, cfg)
         == (if granted then Authenticated(s, logins[0]) else s).(logins := logins[1..])
    ensures Authenticated(s, logins[0]).notifying.None? && Authenticated(s, logins[0]).port.alive
  {
    if granted { AuthenticatedIsTwoSteps(s.(logins := logins), cfg); }
  }

  class ServerConnection {
    var connected: bool
    var runtime: bool
    /** Taken out and put back by the methods below; in place whenever none of them is running. */
    var mainPort: ServerTcp?
    /** From ids to the numbers of the ports the client uses. */
    var clientsConnected: map<Uuid, seq<nat>>

    ghost predicate Valid()
      reads this, mainPort
    {
      mainPort != null && mainPort.Valid()
    }

    ghost function Lifecycle(): L.Server
      requires mainPort != null
      reads this, mainPort
    {
      L.Server(true, connected, runtime, mainPort.Lifecycle())
    }

    /** The server of the state machine: this connection and its port, in a world that holds the queued commands, the
        logins that come up, and the histories. */
    ghost function AsServer(world: C.Server): C.Server
      requires mainPort != null
      reads this, mainPort
    {
      world.(port := mainPort.Clients(), runtime := runtime, clientsConnected := clientsConnected.Keys)
    }

    constructor (autoReconnect: bool)
      ensures Valid() && fresh(mainPort)
      ensures Lifecycle() == L.INIT && AsServer(C.INIT) == C.INIT
    {
      connected, runtime, clientsConnected := false, false, map[];
      mainPort := new ServerTcp(autoReconnect);
    }

    method StartConnection()
      requires Valid()
      modifies this, mainPort
      ensures Valid() && mainPort == old(mainPort)
      ensures Lifecycle() == old(Lifecycle()).(connectionUp := true, runtime := true,
                                               port := L.Connect(old(Lifecycle()).port, true))
      ensures clientsConnected == old(clientsConnected) && mainPort.Clients() == old(mainPort.Clients())
    {
      connected := true;
      if !runtime { runtime := true; }
      var port := mainPort;
      mainPort := null;
      port.Connect(runtime);
      mainPort := port;
    }

    method StartConnections()
      requires Valid()
      modifies this, mainPort
      ensures Valid() && mainPort == old(mainPort)
      ensures Lifecycle() == L.StartConnection(old(Lifecycle()))
    {
      if !connected { StartConnection(); }
    }

    /** disconnect: the caller is to remove the connection. */
    method CheckMainPortDropped() returns (disconnect: bool)
      requires Valid()
      modifies this, mainPort
      ensures Valid() && mainPort == old(mainPort)
      ensures Lifecycle().(present := !disconnect) == L.MainPortDropped(old(Lifecycle()), mainPort.autoReconnect)
    {
      var dropped, reconnect := mainPort.CheckPortDropped();
      if dropped { connected := false; }
      return dropped && !reconnect;
    }

    method StartAcceptingConnectionsMainPort()
      requires Valid()
      modifies this, mainPort
      ensures Valid() && mainPort == old(mainPort)
      ensures Lifecycle() == old(Lifecycle()).(port := L.StartAccepting(old(Lifecycle()).port, runtime))
    {
      var port := mainPort;
      mainPort := null;
      port.StartAcceptingConnections(runtime);
      mainPort := port;
    }

    method AuthenticateClient(uuid: Uuid, portNumber: nat, ghost world: C.Server)
      requires Valid() && world.notifying.None?
      modifies this, mainPort
      ensures Valid() && mainPort == old(mainPort) && Lifecycle() == old(Lifecycle())
      ensures mainPort.writeTasks == old(mainPort.writeTasks)
      ensures portNumber == 0 ==> AsServer(world) == Authenticated(old(AsServer(world)), uuid)
      ensures portNumber != 0 ==>
        AsServer(world) == old(AsServer(world)).(clientsConnected := old(AsServer(world)).clientsConnected + {uuid})
    {
      if uuid !in clientsConnected {
        clientsConnected := clientsConnected[uuid := [0]];
        if portNumber == 0 {
          var port := mainPort;
          mainPort := null;
          port.AuthenticateClient(uuid, runtime);
          mainPort := port;
        }
      }
    }

    /** The reply to a granted login. */
    method Reply(uuid: Uuid, buf: Option<seq<Byte>>)
      requires Valid()
      modifies this, mainPort
      ensures Valid() && mainPort == old(mainPort) && Lifecycle() == old(Lifecycle())
      ensures runtime == old(runtime) && clientsConnected == old(clientsConnected)
      ensures mainPort.Clients() == old(mainPort.Clients())
      ensures mainPort.writeTasks == if runtime && buf.Some? && uuid in mainPort.listeningClients
        then old(mainPort.writeTasks) + [(uuid, buf.value)] else old(mainPort.writeTasks)
    {
      var port := mainPort;
      mainPort := null;
      port.SendMessage(buf, uuid, runtime);
      mainPort := port;
    }

    /** authentication_message_server: logs in the senders of the login messages that are granted, in order, and replies
        to each. */
    method AuthenticationMessageServer(logins: seq<Uuid>, granted: seq<bool>, encode: Uuid -> Option<seq<Byte>>,
                                       ghost world: C.Server)
      requires Valid() && |logins| == |granted| && world.notifying.None?
      modifies this, mainPort
      ensures Valid() && mainPort == old(mainPort) && Lifecycle() == old(Lifecycle())
      ensures AsServer(world) == AuthenticateAll(old(AsServer(world)), logins, granted)
      ensures mainPort.writeTasks
           == old(mainPort.writeTasks) + Replies(old(AsServer(world)), logins, granted, encode)
    {
      for i := 0 to |logins|
        invariant Valid() && mainPort == old(mainPort) && Lifecycle() == old(Lifecycle())
        invariant AsServer(world) == AuthenticateAll(old(AsServer(world)), logins[..i], granted[..i])
        invariant mainPort.writeTasks
               == old(mainPort.writeTasks) + Replies(old(AsServer(world)), logins[..i], granted[..i], encode)
      {
        assert logins[..i + 1][..i] == logins[..i] && granted[..i + 1][..i] == granted[..i];
        if granted[i] {
          AuthenticateClient(logins[i], 0, world);
          Reply(logins[i], encode(logins[i]));
        }
      }
      assert logins[..|logins|] == logins && granted[..|granted|] == granted;
    }

    /** The loop of read_messages_server over one batch: every message is judged by who is connected now, and a payload
        that does not decode panics, so that nothing is queued. */
    method GateBatch(messages: seq<(Uuid, seq<Byte>)>, cfg: C.Config, ghost now: nat)
      returns (commands: seq<(Uuid, seq<Byte>)>, panicked: bool)
      ensures panicked <==> C.Crashes(messages, cfg)
      ensures Stamped(commands, now) == C.ReadBatch(messages, clientsConnected.Keys, now, cfg)
    {
      commands, panicked := [], false;
      for i := 0 to |messages|
        invariant Stamped(commands, now) + C.Gate(messages[i..], clientsConnected.Keys, now, cfg)
               == C.Gate(messages, clientsConnected.Keys, now, cfg)
        invariant !C.Crashes(messages[..i], cfg)
      {
        var (sender, bytes) := messages[i];
        var kind := cfg.kind(bytes);
        CrashesSoFar(messages, i, cfg);
        if kind.Undecodable? { return [], true; }
        GateNext(messages, i, clientsConnected.Keys, now, cfg);
        if kind.Registered? {
          if sender !in clientsConnected && !kind.authentication { continue; }
          StampedAppend(commands, sender, bytes, now);
          commands := commands + [(sender, bytes)];
        }
      }
      assert messages[..|messages|] == messages;
    }

    /** read_messages_server is one step of the state machine, for the port, the connection and the queue together. */
    method ReadMessagesServer(cfg: C.Config, ghost world: C.Server)
      returns (messages: seq<(Uuid, seq<Byte>)>, commands: seq<(Uuid, seq<Byte>)>, panicked: bool)
      requires Valid()
      modifies mainPort
      ensures Valid() && Lifecycle() == old(Lifecycle())
      ensures messages == old(mainPort.messageReceived)
      ensures var t := C.MainStep(old(AsServer(world)), C.ReadMessages, cfg);
        && t.delivered == world.delivered + messages
        && t.commands == world.commands + Stamped(commands, world.clock)
        && t.port.alive == !panicked
        && AsServer(world.(delivered := t.delivered, commands := t.commands)) == t.(port := t.port.(alive := true))
    {
      messages := mainPort.CheckMessagesReceived();
      commands, panicked := GateBatch(messages, cfg, world.clock);
    }
  }

  lemma GateNext(messages: seq<(Uuid, seq<Byte>)>, i: nat, connected: set<Uuid>, now: nat, cfg: C.Config)
    requires i < |messages|
    ensures var (sender, bytes) := messages[i];
      C.Gate(messages[i..], connected, now, cfg)
        == (if C.Passes(sender, bytes, connected, cfg) then [C.Command(sender, bytes, now)] else [])
           + C.Gate(messages[i + 1..], connected, now, cfg)
  {
    assert messages[i..][0] == messages[i] && messages[i..][1..] == messages[i + 1..];
  }

  lemma CrashesSoFar(messages: seq<(Uuid, seq<Byte>)>, i: nat, cfg: C.Config)
    requires i < |messages|
    ensures C.Crashes(messages[..i + 1], cfg) <==> C.Crashes(messages[..i], cfg) || cfg.kind(messages[i].1).Undecodable?
    ensures cfg.kind(messages[i].1).Undecodable? ==> C.Crashes(messages, cfg)
  {
    assert messages[..i + 1] == messages[..i] + [messages[i]];
    assert messages[i] in messages;
  }

  /** The commands as the state machine records them, with the time of the read. */
  ghost function Stamped(commands: seq<(Uuid, seq<Byte>)>, now: nat): seq<C.Command> {
    seq(|commands|, i requires 0 <= i < |commands| => C.Command(commands[i].0, commands[i].1, now))
  }

  lemma StampedAppend(commands: seq<(Uuid, seq<Byte>)>, sender: Uuid, bytes: seq<Byte>, now: nat)
    ensures Stamped(commands + [(sender, bytes)], now) == Stamped(commands, now) + [C.Command(sender, bytes, now)]
  {
  }
}
