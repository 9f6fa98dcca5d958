/** The client ports, updated in place: the TCP client, and the WASM client with its outgoing queue. */
module Clients {
  import opened Basics
  import opened Bytes
  import C = ClientLifecycle
  import Q = WasmQueue

  class ClientTcp {
    const settings: C.Settings
    var connecting: bool
    var connected: bool
    var listening: bool
    var halves: Option<nat>
    var connectTasks: seq<nat>
    var connectedToServer: seq<nat>
    var readers: seq<nat>
    var connectionDown: seq<C.Down>
    var attempt: nat
    var messageReceived: seq<seq<Byte>>

    /** The lifecycle, with the connection's runtime if there is one. */
    ghost function View(runtime: bool): C.Client
      reads `connecting, `connected, `listening, `halves, `connectTasks, `connectedToServer, `readers
      reads `connectionDown, `attempt
    {
      C.Client(runtime, connecting, connected, listening, halves, connectTasks, connectedToServer, readers,
               connectionDown, attempt)
    }

    constructor (settings: C.Settings)
      ensures View(false) == C.INIT && this.settings == settings && messageReceived == []
    {
      this.settings := settings;
      connecting, connected, listening, halves := false, false, false, None;
      connectTasks, connectedToServer, readers, connectionDown, attempt := [], [], [], [], 0;
      messageReceived := [];
    }

    /** With a runtime, the flag goes up first and down again when the server name is unusable. */
    method Connect(runtime: bool)
      modifies `connecting, `attempt, `connectTasks
      ensures View(runtime) == C.Connecting(old(View(runtime)), settings)
    {
      if runtime {
        if connecting { return; }
        connecting := true;
        if !settings.serverName {
          connecting := false;
          return;
        }
        attempt := attempt + 1;
        connectTasks := connectTasks + [attempt];
      }
    }

    method CheckPortDropped() returns (dropped: bool, reconnect: bool)
      modifies `connectionDown, `connected, `connecting, `listening, `halves
      ensures forall runtime :: View(runtime) == C.PortDropped(old(View(runtime)))
      ensures dropped <==> old(connectionDown) != []
      ensures reconnect <==> dropped && settings.tryReconnect
    {
      if connectionDown == [] { return false, false; }
      connectionDown := connectionDown[1..];
      connected := false;
      connecting := false;
      listening := false;
      halves := None;
      return true, settings.tryReconnect;
    }

    method CheckConnectedToServer() returns (now: bool)
      modifies `connected, `connectedToServer, `halves
      ensures forall runtime :: View(runtime) == C.StreamAttached(old(View(runtime)))
      ensures now <==> !old(connected) && connected
    {
      if connected { return false; }
      if connectedToServer == [] { return false; }
      connected := true;
      halves := Some(connectedToServer[0]);
      connectedToServer := connectedToServer[1..];
      return true;
    }

    method StartListeningToServer(runtime: bool)
      modifies `listening, `readers
      ensures View(runtime) == C.Listening(old(View(runtime)))
    {
      if listening { return; }
      if runtime {
        listening := true;
        match halves
        case Some(read) => readers := readers + [read];
        case None =>
      }
    }

    method CheckMessagesReceived() returns (messages: seq<seq<Byte>>)
      modifies `messageReceived
      ensures messages == old(messageReceived) && messageReceived == []
    {
      messages := [];
      while messageReceived != []
        invariant messages + messageReceived == old(messageReceived)
        decreases |messageReceived|
      {
        messages := messages + [messageReceived[0]];
        messageReceived := messageReceived[1..];
      }
    }
  }

  /** What the main thread can do while the drain task awaits the sink. */
  type MainAction = a: Q.Action | a.SendMessage? || a.Attach? || a.Detach? witness Q.Detach

  /** One message in the hands of the sink: what happens meanwhile, and the sink's answer. */
  datatype Await = Await(meanwhile: seq<MainAction>, ok: bool)

  /** While the drain task awaits the sink, nothing that the main thread does touches the task or its borrow. */
  function Meanwhile(q: Q.Queue, actions: seq<MainAction>): (r: Q.Queue)
    requires Q.Exclusive(q) && |q.drainers| == 1
    ensures Q.Exclusive(r) && r.drainers == q.drainers && r.borrowed == q.borrowed
    ensures q.pending <= r.pending && r.taken == q.taken && r.outcomes == q.outcomes
    decreases |actions|
  {
    if actions == [] then q else Meanwhile(Q.Step(q, actions[0]), actions[1..])
  }

  /** One drain task from the top of its loop: until the queue is empty, the sink fails, or, when there are no more
      answers, with the last message still in the hands of the sink. */
  function RunDrain(q: Q.Queue, awaits: seq<Await>): Q.Queue
    requires Q.Exclusive(q) && |q.drainers| == 1 && q.drainers[0].AtTop?
    decreases |awaits|
  {
    var polled := Q.PollDrainer(q, 0);
    if q.pending == [] || awaits == [] then polled
    else
      var done := Q.CompleteSend(Meanwhile(polled, awaits[0].meanwhile), 0, awaits[0].ok);
      if awaits[0].ok then RunDrain(done, awaits[1..]) else done
  }

  function StepAll(q: Q.Queue, actions: seq<Q.Action>): Q.Queue
    decreases |actions|
  {
    if actions == [] then q else StepAll(Q.Step(q, actions[0]), actions[1..])
  }

  lemma {:induction false} StepAllAppend(q: Q.Queue, a: seq<Q.Action>, b: seq<Q.Action>)
    ensures StepAll(q, a + b) == StepAll(StepAll(q, a), b)
    decreases |a|
  {
    if a == [] {
      assert a + b == b;
    } else {
      assert (a + b)[1..] == a[1..] + b;
      StepAllAppend(Q.Step(q, a[0]), a[1..], b);
    }
  }

  lemma {:induction false} StepAllIsARun(run: seq<Q.Action>, more: seq<Q.Action>)
    ensures StepAll(Q.After(run), more) == Q.After(run + more)
    decreases |more|
  {
    if more == [] {
      assert run + more == run;
    } else {
      assert (run + [more[0]])[..|run|] == run;
      StepAllIsARun(run + [more[0]], more[1..]);
      assert run + more == run + [more[0]] + more[1..];
    }
  }

  lemma {:induction false} MeanwhileSteps(q: Q.Queue, actions: seq<MainAction>)
    requires Q.Exclusive(q) && |q.drainers| == 1
    ensures StepAll(q, actions) == Meanwhile(q, actions)
    decreases |actions|
  {
    if actions == [] {
    } else {
      MeanwhileSteps(Q.Step(q, actions[0]), actions[1..]);
    }
  }

  function OneAwait(await: Await): seq<Q.Action> {
    [Q.Poll(0)] + (await.meanwhile + [Q.Complete(0, await.ok)])
  }

  lemma OneAwaitSteps(q: Q.Queue, await: Await)
    requires Q.Exclusive(q) && |q.drainers| == 1 && q.drainers[0].AtTop? && q.pending != []
    ensures StepAll(q, OneAwait(await))
         == Q.CompleteSend(Meanwhile(Q.PollDrainer(q, 0), await.meanwhile), 0, await.ok)
  {
    var rest := await.meanwhile + [Q.Complete(0, await.ok)];
    assert OneAwait(await)[1..] == rest;
    StepAllAppend(Q.PollDrainer(q, 0), await.meanwhile, [Q.Complete(0, await.ok)]);
    MeanwhileSteps(Q.PollDrainer(q, 0), await.meanwhile);
  }

  lemma {:induction false} DrainSteps(q: Q.Queue, awaits: seq<Await>) returns (more: seq<Q.Action>)
    requires Q.Exclusive(q) && |q.drainers| == 1 && q.drainers[0].AtTop?
    ensures StepAll(q, more) == RunDrain(q, awaits)
    decreases |awaits|
  {
    if q.pending == [] || awaits == [] {
      more := [Q.Poll(0)];
      assert more[1..] == [];
    } else {
      var done := Q.CompleteSend(Meanwhile(Q.PollDrainer(q, 0), awaits[0].meanwhile), 0, awaits[0].ok);
      OneAwaitSteps(q, awaits[0]);
      more := OneAwait(awaits[0]);
      if awaits[0].ok {
        var rest := DrainSteps(done, awaits[1..]);
        StepAllAppend(q, more, rest);
        more := more + rest;
      }
    }
  }

  /** The drain loop, with anything done meanwhile, is a run of the state machine, so all that holds of every run holds
      of it. */
  lemma DrainIsARun(run: seq<Q.Action>, awaits: seq<Await>) returns (more: seq<Q.Action>)
    requires |Q.After(run).drainers| == 1 && Q.After(run).drainers[0].AtTop?
    ensures Q.Exclusive(Q.After(run))
    ensures Q.After(run + more) == RunDrain(Q.After(run), awaits)
  {
    Q.RunsKeepInv(run);
    more := DrainSteps(Q.After(run), awaits);
    StepAllIsARun(run, more);
  }

  class WasmClient {
    var sendingMessages: bool
    var messageQueue: seq<Q.Message>
    var splitSink: Option<Q.SinkId>
    var sinks: nat
    var drainers: seq<Q.Drainer>
    var borrowed: set<Q.SinkId>
    ghost var submitted: seq<Q.Message>
    ghost var taken: seq<Q.Message>
    ghost var outcomes: seq<Q.Outcome>

    ghost function View(): Q.Queue
      reads this
    {
      Q.Queue(sendingMessages, messageQueue, splitSink, sinks, drainers, borrowed, false, submitted, taken, outcomes)
    }

    constructor ()
      ensures View() == Q.INIT
    {
      sendingMessages, messageQueue, splitSink, sinks, drainers, borrowed := false, [], None, 0, [], {};
      submitted, taken, outcomes := [], [], [];
    }

    method SendMessage(buf: Q.Message)
      modifies this
      ensures View() == Q.Submit(old(View()), buf)
    {
      messageQueue := messageQueue + [buf];
      submitted := submitted + [buf];
      match splitSink
      case None =>
      case Some(sink) =>
        if sendingMessages { return; }
        sendingMessages := true;
        drainers := drainers + [Q.AtTop(sink)];
    }

    method AttachSink()
      modifies this
      ensures View() == Q.Step(old(View()), Q.Attach)
    {
      splitSink, sinks := Some(sinks), sinks + 1;
    }

    method DropSink()
      modifies this
      ensures View() == Q.Step(old(View()), Q.Detach)
    {
      splitSink := None;
    }

    /** The main thread's turns while the drain task awaits the sink. */
    method MainThread(actions: seq<MainAction>)
      requires Q.Exclusive(View()) && |drainers| == 1
      modifies this
      ensures View() == Meanwhile(old(View()), actions)
    {
      for i := 0 to |actions|
        invariant Q.Exclusive(View()) && |drainers| == 1
        invariant Meanwhile(View(), actions[i..]) == Meanwhile(old(View()), actions)
      {
        assert actions[i..][0] == actions[i] && actions[i..][1..] == actions[i + 1..];
        match actions[i]
        case SendMessage(message) => SendMessage(message);
        case Attach => AttachSink();
        case Detach => DropSink();
        case _ =>
      }
    }

    /** The drain loop of the one drain task; at each await the main thread takes its turns. */
    method Drain(awaits: seq<Await>)
      requires Q.Exclusive(View()) && |drainers| == 1 && drainers[0].AtTop?
      modifies this
      ensures View() == RunDrain(old(View()), awaits)
    {
      var sink := drainers[0].sink;
      var i := 0;
      while messageQueue != []
        invariant i <= |awaits|
        invariant Q.Exclusive(View()) && drainers == [Q.AtTop(sink)]
        invariant RunDrain(old(View()), awaits) == RunDrain(View(), awaits[i..])
        decreases |awaits| - i
      {
        ghost var top := View();
        var bytes := messageQueue[0];
        messageQueue := messageQueue[1..];
        taken := taken + [bytes];
        borrowed := borrowed + {sink};
        drainers := [Q.Sending(sink, bytes)];
        assert View() == Q.PollDrainer(top, 0);
        if i == |awaits| { return; }
        MainThread(awaits[i].meanwhile);
        ghost var waited := View();
        borrowed := borrowed - {sink};
        outcomes := outcomes + [Q.Outcome(bytes, sink, awaits[i].ok)];
        if !awaits[i].ok {
          drainers := [];
          sendingMessages := false;
          assert View() == Q.CompleteSend(waited, 0, false);
          return;
        }
        drainers := [Q.AtTop(sink)];
        assert View() == Q.CompleteSend(waited, 0, true);
        assert awaits[i..][1..] == awaits[i + 1..];
        i := i + 1;
      }
      drainers := [];
      sendingMessages := false;
    }
  }
}
