/** The TCP server's objects: the port and the connection that owns it, updated in place. Each method does to the
    fields what the corresponding step of the two state machines does to the state. */
module TcpServer {
  import opened Basics
  import opened Bytes
  import C = ServerClients
  import L = ServerLifecycle

  type Uuid = C.Uuid

  class ServerTcp {
    const autoReconnect: bool

    // flags, listener and channels of the lifecycle, with the tasks that send on them
    var connecting: bool
    var connected: bool
    var acceptingConnections: bool
    var tcpListener: Option<nat>
    var portConnected: seq<nat>
    var connectionDown: seq<nat>
    var bindTasks: seq<nat>
    var acceptTasks: seq<nat>
    var attempt: nat

    // the two maps of clients, from ids to the listening flag
    var listeningClients: map<Uuid, bool>
    var notAuthenticatedListening: map<Uuid, bool>

    // channels of the clients, and the streams with the reader tasks on them
    var clientConnected: nat
    var clientAuthenticated: seq<Uuid>
    var clientAuthenticatedLock: Option<Uuid>
    var messageReceived: seq<(Uuid, seq<Byte>)>
    var clientDisconnected: seq<C.Report>
    var sockets: map<Uuid, C.Socket>
    /** The writer tasks that have been spawned, with the client and the message of each. */
    var writeTasks: seq<(Uuid, seq<Byte>)>
    ghost var pushed: seq<(Uuid, seq<Byte>)>
    ghost var reported: seq<C.Report>

    ghost function Clients(): C.Port
      reads `listeningClients, `notAuthenticatedListening, `clientConnected, `clientAuthenticated
      reads `clientAuthenticatedLock, `messageReceived, `clientDisconnected, `sockets, `pushed, `reported
    {
      C.Port(notAuthenticatedListening, listeningClients, clientConnected, sockets, clientAuthenticated,
             clientAuthenticatedLock, messageReceived, clientDisconnected, true, pushed, reported)
    }

    ghost function Lifecycle(): L.Port
      reads `connecting, `connected, `acceptingConnections, `tcpListener, `portConnected, `connectionDown
      reads `bindTasks, `acceptTasks, `attempt
    {
      L.Port(connecting, connected, acceptingConnections, tcpListener, bindTasks, portConnected, acceptTasks,
             connectionDown, attempt)
    }

    /** Every client in a map has a stream. */
    ghost predicate Valid()
      reads `notAuthenticatedListening, `listeningClients, `sockets
    {
      notAuthenticatedListening.Keys <= sockets.Keys && listeningClients.Keys <= sockets.Keys
    }

    constructor (autoReconnect: bool)
      ensures Valid() && this.autoReconnect == autoReconnect
      ensures Clients() == C.INIT.port && Lifecycle() == L.IDLE && writeTasks == []
    {
      this.autoReconnect := autoReconnect;
      connecting, connected, acceptingConnections, tcpListener := false, false, false, None;
      portConnected, connectionDown, bindTasks, acceptTasks, attempt := [], [], [], [], 0;
      listeningClients, notAuthenticatedListening := map[], map[];
      clientConnected, clientAuthenticated, clientAuthenticatedLock := 0, [], None;
      messageReceived, clientDisconnected, sockets, writeTasks := [], [], map[], [];
      pushed, reported := [], [];
    }

    // ---------- lifecycle ----------

    method Connect(runtime: bool)
      modifies `connecting, `attempt, `bindTasks
      ensures Lifecycle() == L.Connect(old(Lifecycle()), runtime)
      ensures Clients() == old(Clients())
    {
      if runtime {
        if connecting { return; }
        connecting := true;
        attempt := attempt + 1;
        bindTasks := bindTasks + [attempt];
      }
    }

    /** Lowers the flags and drops the listener. */
    method Reset()
      modifies `connected, `connecting, `acceptingConnections, `tcpListener
      ensures !connected && !connecting && !acceptingConnections && tcpListener == None
    {
      connected := false;
      connecting := false;
      acceptingConnections := false;
      tcpListener := None;
    }

    method CheckPortDropped() returns (dropped: bool, reconnect: bool)
      modifies `connectionDown, `connected, `connecting, `acceptingConnections, `tcpListener
      ensures Lifecycle() == L.CheckPortDropped(old(Lifecycle()))
      ensures Clients() == old(Clients())
      ensures dropped <==> old(connectionDown) != []
      ensures reconnect <==> dropped && autoReconnect
    {
      if connectionDown == [] { return false, false; }
      connectionDown := connectionDown[1..];
      Reset();
      return true, autoReconnect;
    }

    method CheckPortConnected() returns (now: bool)
      modifies `connected, `tcpListener, `portConnected
      ensures Lifecycle() == L.CheckPortConnected(old(Lifecycle()))
      ensures Clients() == old(Clients())
      ensures now <==> !old(connected) && connected
    {
      if connected { return false; }
      if portConnected == [] { return false; }
      connected := true;
      tcpListener := Some(portConnected[0]);
      portConnected := portConnected[1..];
      return true;
    }

    method StartAcceptingConnections(runtime: bool)
      modifies `acceptingConnections, `acceptTasks
      ensures Lifecycle() == L.StartAccepting(old(Lifecycle()), runtime)
      ensures Clients() == old(Clients())
    {
      if runtime {
        if acceptingConnections || !connected { return; }
        acceptingConnections := true;
        match tcpListener
        case Some(listener) => acceptTasks := acceptTasks + [listener];
        case None => acceptingConnections := false;
      }
    }

    // ---------- clients ----------

    method StartListeningNotAuthenticatedClient(target: Uuid, runtime: bool)
      requires target in notAuthenticatedListening ==> target in sockets
      modifies this`sockets
      ensures sockets == if runtime && target in notAuthenticatedListening
        then old(sockets)[target := old(sockets)[target].Spawn(C.First)] else old(sockets)
    {
      if runtime {
        if target !in notAuthenticatedListening { return; }
        sockets := sockets[target := sockets[target].Spawn(C.First)];
      }
    }

    method StartListeningAuthenticatedClient(target: Uuid, runtime: bool)
      requires target in listeningClients ==> target in sockets
      modifies this`sockets
      ensures sockets == if runtime && target in listeningClients
        then old(sockets)[target := old(sockets)[target].Spawn(C.Second)] else old(sockets)
    {
      if runtime {
        if target !in listeningClients { return; }
        sockets := sockets[target := sockets[target].Spawn(C.Second)];
      }
    }

    /** The first part of authenticate_client, for a client that waits. */
    method MoveToListening(uuid: Uuid, runtime: bool)
      requires Valid() && uuid in notAuthenticatedListening
      modifies `notAuthenticatedListening, `listeningClients, `sockets
      ensures Valid() && Clients() == C.Promote(old(Clients()), uuid, runtime)
    {
      notAuthenticatedListening := notAuthenticatedListening - {uuid};
      listeningClients := listeningClients[uuid := true];
      StartListeningAuthenticatedClient(uuid, runtime);
    }

    method AuthenticateClient(uuid: Uuid, runtime: bool)
      requires Valid()
      modifies `notAuthenticatedListening, `listeningClients, `sockets, `clientAuthenticated
      ensures Valid() && Lifecycle() == old(Lifecycle())
      ensures uuid in old(notAuthenticatedListening) ==>
        Clients() == C.SendNotice(C.Promote(old(Clients()), uuid, runtime), uuid)
      ensures uuid !in old(notAuthenticatedListening) ==> Clients() == old(Clients())
    {
      if uuid in notAuthenticatedListening {
        MoveToListening(uuid, runtime);
        clientAuthenticated := clientAuthenticated + [uuid];
      }
    }

    method CheckMessagesReceived() returns (messages: seq<(Uuid, seq<Byte>)>)
      modifies `messageReceived
      ensures messages == old(messageReceived)
      ensures Clients() == C.CheckMessagesReceived(old(Clients())) && Lifecycle() == old(Lifecycle())
    {
      messages := [];
      while messageReceived != []
        invariant messages + messageReceived == old(messageReceived)
        decreases |messageReceived|
      {
        messages := messages + [messageReceived[0]];
        messageReceived := messageReceived[1..];
      }
    }

    method CheckClientsDisconnected() returns (clients: seq<Uuid>)
      requires Valid()
      modifies `clientDisconnected, `listeningClients, `notAuthenticatedListening
      ensures Valid() && Lifecycle() == old(Lifecycle())
      ensures Clients() == C.CheckClientsDisconnected(old(Clients()))
      ensures clients == if old(clientDisconnected) == [] then [] else [old(clientDisconnected)[0].0]
    {
      clients := [];
      if clientDisconnected != [] {
        var (uuid, which) := clientDisconnected[0];
        clientDisconnected := clientDisconnected[1..];
        if which.Second? {
          if uuid in listeningClients { listeningClients := listeningClients - {uuid}; }
        } else {
          if uuid in notAuthenticatedListening { notAuthenticatedListening := notAuthenticatedListening - {uuid}; }
        }
        clients := [uuid];
      }
      assert Clients() == C.CheckClientsDisconnected(old(Clients()));
    }

    /** newUuid is the id Uuid::new_v4 comes up with. The program does not look whether it is in use: if it is, the new
        stream takes the place of the old one under this id. */
    method CheckClientsConnected(newUuid: Uuid) returns (clients: seq<Uuid>)
      requires Valid()
      modifies `clientConnected, `sockets, `notAuthenticatedListening
      ensures Valid() && Lifecycle() == old(Lifecycle())
      ensures newUuid !in old(sockets) ==> Clients() == C.CheckClientsConnected(old(Clients()), newUuid)
      ensures old(clientConnected) == 0 ==> clients == [] && Clients() == old(Clients())
      ensures old(clientConnected) > 0 ==>
        && clients == [newUuid] && clientConnected == old(clientConnected) - 1
        && sockets == old(sockets)[newUuid := C.FRESH]
        && notAuthenticatedListening == old(notAuthenticatedListening)[newUuid := false]
    {
      clients := [];
      if clientConnected > 0 {
        clientConnected := clientConnected - 1;
        sockets := sockets[newUuid := C.FRESH];
        notAuthenticatedListening := notAuthenticatedListening[newUuid := false];
        clients := [newUuid];
      }
    }

    /** send_message, for a message that is serialized to buf, or cannot be serialized. */
    method SendMessage(buf: Option<seq<Byte>>, target: Uuid, runtime: bool)
      modifies `writeTasks
      ensures writeTasks == if runtime && buf.Some? && target in listeningClients
        then old(writeTasks) + [(target, buf.value)] else old(writeTasks)
    {
      if runtime {
        match buf
        case None => return;
        case Some(bytes) =>
          if target !in listeningClients { return; }
          writeTasks := writeTasks + [(target, bytes)];
      }
    }

    method CheckNotAuthenticatedClients(runtime: bool)
      requires Valid()
      modifies `notAuthenticatedListening, `sockets
      ensures Valid() && Lifecycle() == old(Lifecycle())
      ensures Clients() == C.CheckNotAuthenticatedClients(old(Clients()), runtime)
    {
      var keysToStart := MarkListening();
      StartReaders(keysToStart, runtime);
      assert sockets == C.CheckNotAuthenticatedClients(old(Clients()), runtime).sockets;
    }

    /** The first loop of check_not_authenticated_clients: flags every waiting client, and lists those that were not
        listened to, each once. */
    method MarkListening() returns (keysToStart: seq<Uuid>)
      modifies `notAuthenticatedListening
      ensures notAuthenticatedListening == (map u | u in old(notAuthenticatedListening) :: true)
      ensures forall u ::
        u in keysToStart <==> u in old(notAuthenticatedListening) && !old(notAuthenticatedListening)[u]
      ensures NoRepeats(keysToStart)
    {
      keysToStart := [];
      ghost var before := notAuthenticatedListening;
      var todo := notAuthenticatedListening.Keys;
      while todo != {}
        invariant todo <= notAuthenticatedListening.Keys == before.Keys
        invariant forall u <- before :: notAuthenticatedListening[u] == (u !in todo || before[u])
        invariant forall u :: u in keysToStart <==> u in before && u !in todo && !before[u]
        invariant NoRepeats(keysToStart)
        decreases |todo|
      {
        var key :| key in todo;
        todo := todo - {key};
        if notAuthenticatedListening[key] { continue; }
        notAuthenticatedListening := notAuthenticatedListening[key := true];
        keysToStart := keysToStart + [key];
      }
    }

    /** Its second loop. */
    method StartReaders(keysToStart: seq<Uuid>, runtime: bool)
      requires Valid() && NoRepeats(keysToStart) && forall u <- keysToStart :: u in notAuthenticatedListening
      modifies `sockets
      ensures sockets == map u | u in old(sockets) ::
        if runtime && u in keysToStart then old(sockets)[u].Spawn(C.First) else old(sockets)[u]
    {
      ghost var before := sockets;
      for i := 0 to |keysToStart|
        invariant sockets.Keys == before.Keys
        invariant forall u <- before ::
          sockets[u] == if runtime && u in keysToStart[..i] then before[u].Spawn(C.First) else before[u]
      {
        var key := keysToStart[i];
        assert key in keysToStart && key !in keysToStart[..i];
        assert keysToStart[..i + 1] == keysToStart[..i] + [key];
        StartListeningNotAuthenticatedClient(key, runtime);
      }
      assert keysToStart[..|keysToStart|] == keysToStart;
    }

    static ghost predicate NoRepeats(keys: seq<Uuid>) {
      forall j, k :: 0 <= j < k < |keys| ==> keys[j] != keys[k]
    }
  }
}
