/** Connecting, listening and dropping at the client: the flags of the port against the tasks and channel messages
    they guard. The TCP client and the WASM client run the same protocol; the latter has no TLS and needs no runtime. */
module ClientLifecycle {
  import opened Basics

  /** tls: a connector is configured. serverName: the configured name is one TLS can parse. */
  datatype Settings = Settings(tryReconnect: bool, tls: bool, serverName: bool)

  /** A message in the connection_down channel, tagged with the attempt of the task that sent it. */
  datatype Down = ConnectFailed(attempt: nat) | StreamEnded(attempt: nat)

  /** attempt counts the calls of connect that spawned a task. Tasks, queued streams and the attached halves carry the
      number of the attempt they come from; the program does not know these tags. */
  datatype Client = Client(runtime: bool, connecting: bool, connected: bool, listening: bool,
                           halves: Option<nat>, connectTasks: seq<nat>, streams: seq<nat>, readers: seq<nat>,
                           downs: seq<Down>, attempt: nat)

  const INIT: Client := Client(false, false, false, false, None, [], [], [], [], 0)

  datatype Action =
    | StartRuntime | Connect | CheckPortDropped | CheckConnected | StartListening
    // the i-th connect task: gets a stream, fails to connect, fails the TLS handshake, or panics, as it does when the
    // peer is gone before its address is asked for, or in a hook
    | Connects(i: nat) | FailsToConnect(i: nat) | FailsHandshake(i: nat) | ConnectPanics(i: nat)
    // the i-th reader task meets the end of its stream, or panics on a header no vector can satisfy
    | ReaderEnds(i: nat) | ReaderPanics(i: nat)

  function Connecting(c: Client, settings: Settings): Client {
    if !c.runtime || c.connecting || !settings.serverName then c
    else c.(connecting := true, attempt := c.attempt + 1, connectTasks := c.connectTasks + [c.attempt + 1])
  }

  function PortDropped(c: Client): Client {
    if c.downs == [] then c
    else c.(downs := c.downs[1..], connected := false, connecting := false, listening := false, halves := None)
  }

  function StreamAttached(c: Client): Client {
    if c.connected || c.streams == [] then c
    else c.(streams := c.streams[1..], connected := true, halves := Some(c.streams[0]))
  }

  /** The flag is set whether or not there is a stream to listen to. */
  function Listening(c: Client): Client {
    if c.listening || !c.runtime then c
    else c.(listening := true,
            readers := if c.halves.Some? then c.readers + [c.halves.value] else c.readers)
  }

  function Step(c: Client, a: Action, settings: Settings): Client {
    match a
    case StartRuntime => c.(runtime := true)
    case Connect => Connecting(c, settings)
    case CheckPortDropped => PortDropped(c)
    case CheckConnected => StreamAttached(c)
    case StartListening => Listening(c)
    case Connects(i) =>
      if i >= |c.connectTasks| then c
      else c.(connectTasks := Without(c.connectTasks, i), streams := c.streams + [c.connectTasks[i]])
    case FailsToConnect(i) =>
      if i >= |c.connectTasks| || settings.tryReconnect then c
      else c.(connectTasks := Without(c.connectTasks, i), downs := c.downs + [ConnectFailed(c.connectTasks[i])])
    case FailsHandshake(i) =>
      if i >= |c.connectTasks| || !settings.tls then c
      else if settings.tryReconnect then c.(connectTasks := Without(c.connectTasks, i))
      else c.(connectTasks := Without(c.connectTasks, i), downs := c.downs + [ConnectFailed(c.connectTasks[i])])
    case ConnectPanics(i) =>
      if i >= |c.connectTasks| then c else c.(connectTasks := Without(c.connectTasks, i))
    case ReaderEnds(i) =>
      if i >= |c.readers| then c
      else c.(readers := Without(c.readers, i), downs := c.downs + [StreamEnded(c.readers[i])])
    case ReaderPanics(i) =>
      if i >= |c.readers| then c else c.(readers := Without(c.readers, i))
  }

  /** The connect task ends without a stream and without a signal: it panics, or a TLS handshake fails under
      try_reconnect, after which it announces another try and returns. */
  predicate LosesAttempt(c: Client, a: Action, settings: Settings) {
    || (a.ConnectPanics? && a.i < |c.connectTasks|)
    || (a.FailsHandshake? && a.i < |c.connectTasks| && settings.tls && settings.tryReconnect)
  }

  function LostAttempts(run: seq<Action>, settings: Settings): nat {
    if run == [] then 0
    else
      var before := run[..|run| - 1];
      LostAttempts(before, settings) + Flag(LosesAttempt(After(before, settings), run[|run| - 1], settings))
  }

  function After(run: seq<Action>, settings: Settings): Client {
    if run == [] then INIT else Step(After(run[..|run| - 1], settings), run[|run| - 1], settings)
  }

  function ConnectFailures(downs: seq<Down>): nat {
    if downs == [] then 0 else Flag(downs[0].ConnectFailed?) + ConnectFailures(downs[1..])
  }

  function StreamEnds(downs: seq<Down>): nat {
    if downs == [] then 0 else Flag(downs[0].StreamEnded?) + StreamEnds(downs[1..])
  }

  lemma {:induction false} CountsAppend(downs: seq<Down>, d: Down)
    ensures ConnectFailures(downs + [d]) == ConnectFailures(downs) + Flag(d.ConnectFailed?)
    ensures StreamEnds(downs + [d]) == StreamEnds(downs) + Flag(d.StreamEnded?)
  {
    if downs == [] {
      assert downs + [d] == [d];
    } else {
      assert (downs + [d])[1..] == downs[1..] + [d];
      CountsAppend(downs[1..], d);
    }
  }

  lemma {:induction false} CountsTotal(downs: seq<Down>)
    ensures ConnectFailures(downs) + StreamEnds(downs) == |downs|
  {
    if downs == [] {
    } else {
      CountsTotal(downs[1..]);
    }
  }

  /** Everything in flight for the attempt under way. */
  function ConnectTokens(c: Client): nat {
    |c.connectTasks| + |c.streams| + Flag(c.connected) + ConnectFailures(c.downs)
  }

  function ReadTokens(c: Client): nat {
    |c.readers| + StreamEnds(c.downs)
  }

  ghost predicate Tokens(c: Client, settings: Settings) {
    && ConnectTokens(c) <= Flag(c.connecting)
    && ReadTokens(c) <= Flag(c.connected && c.listening)
    && (c.halves.Some? <==> c.connected)
    && (c.connecting ==> c.runtime)
  }

  /** No task, stream or signal of an earlier attempt is around. */
  ghost predicate NothingStale(c: Client) {
    && (forall t <- c.connectTasks :: t == c.attempt)
    && (forall t <- c.streams :: t == c.attempt)
    && (forall t <- c.readers :: t == c.attempt)
    && (forall d <- c.downs :: d.attempt == c.attempt)
    && (c.halves.Some? ==> c.halves.value == c.attempt)
  }

  ghost predicate Inv(c: Client, settings: Settings) {
    Tokens(c, settings) && NothingStale(c)
  }

  lemma StepKeepsTokens(c: Client, a: Action, settings: Settings)
    requires Inv(c, settings)
    ensures Tokens(Step(c, a, settings), settings)
  {
    CountsTotal(c.downs);
    match a
    case FailsToConnect(i) => if i < |c.connectTasks| { CountsAppend(c.downs, ConnectFailed(c.connectTasks[i])); }
    case FailsHandshake(i) => if i < |c.connectTasks| { CountsAppend(c.downs, ConnectFailed(c.connectTasks[i])); }
    case ReaderEnds(i) => if i < |c.readers| { CountsAppend(c.downs, StreamEnded(c.readers[i])); }
    case _ =>
  }

  lemma StepKeepsFresh(c: Client, a: Action, settings: Settings)
    requires Inv(c, settings)
    ensures NothingStale(Step(c, a, settings))
  {
    CountsTotal(c.downs);
    match a
    case Connects(i) => assert i < |c.connectTasks| ==> c.connectTasks[i] in c.connectTasks;
    case FailsToConnect(i) => assert i < |c.connectTasks| ==> c.connectTasks[i] in c.connectTasks;
    case FailsHandshake(i) => assert i < |c.connectTasks| ==> c.connectTasks[i] in c.connectTasks;
    case ReaderEnds(i) => assert i < |c.readers| ==> c.readers[i] in c.readers;
    case CheckConnected => assert c.streams != [] ==> c.streams[0] in c.streams;
    case _ =>
  }

  lemma {:induction false} RunsKeepInv(run: seq<Action>, settings: Settings)
    ensures Inv(After(run, settings), settings)
    decreases |run|
  {
    if run == [] {
    } else {
      var c := After(run[..|run| - 1], settings);
      RunsKeepInv(run[..|run| - 1], settings);
      StepKeepsTokens(c, run[|run| - 1], settings);
      StepKeepsFresh(c, run[|run| - 1], settings);
    }
  }

  lemma StepKeepsBalance(c: Client, a: Action, settings: Settings)
    requires Inv(c, settings)
    ensures var d := Step(c, a, settings);
      ConnectTokens(d) + Flag(c.connecting) + Flag(LosesAttempt(c, a, settings))
        == ConnectTokens(c) + Flag(d.connecting)
  {
    CountsTotal(c.downs);
    match a
    case FailsToConnect(i) => if i < |c.connectTasks| { CountsAppend(c.downs, ConnectFailed(c.connectTasks[i])); }
    case FailsHandshake(i) => if i < |c.connectTasks| { CountsAppend(c.downs, ConnectFailed(c.connectTasks[i])); }
    case ReaderEnds(i) => if i < |c.readers| { CountsAppend(c.downs, StreamEnded(c.readers[i])); }
    case _ =>
  }

  /** In every reachable state: connect tasks, queued streams, the connection and connect failures share the one token
      that connecting stands for, and the attempts lost on the way account exactly for what is missing. Reader tasks
      and their signals share the token of the connection. So at most one down signal is pending, and it belongs to the
      current attempt. */
  lemma {:induction false} EpochConservation(run: seq<Action>, settings: Settings)
    ensures var c := After(run, settings);
      && ConnectTokens(c) + LostAttempts(run, settings) == Flag(c.connecting)
      && ReadTokens(c) <= Flag(c.connected)
      && |c.downs| <= 1
      && (c.downs != [] ==> c.downs[0].attempt == c.attempt)
    decreases |run|
  {
    RunsKeepInv(run, settings);
    CountsTotal(After(run, settings).downs);
    if run == [] {
    } else {
      EpochConservation(run[..|run| - 1], settings);
      RunsKeepInv(run[..|run| - 1], settings);
      StepKeepsBalance(After(run[..|run| - 1], settings), run[|run| - 1], settings);
    }
  }

  /** Nothing is lost, and the tokens balance exactly, when no connect task panics and either TLS or try_reconnect is
      off. */
  lemma {:induction false} NoAttemptIsLost(run: seq<Action>, settings: Settings)
    requires !settings.tls || !settings.tryReconnect
    requires forall a <- run :: !a.ConnectPanics?
    ensures LostAttempts(run, settings) == 0
    ensures ConnectTokens(After(run, settings)) == Flag(After(run, settings).connecting)
    decreases |run|
  {
    EpochConservation(run, settings);
    if run == [] {
    } else {
      assert run[|run| - 1] in run;
      NoAttemptIsLost(run[..|run| - 1], settings);
    }
  }

  /** There is never a second reader, and the one there is reads the stream that is attached; so the borrow of the
      WASM stream, which lasts as long as its reader, never collides with another. */
  lemma OneReaderPerStream(run: seq<Action>, settings: Settings)
    ensures var c := After(run, settings);
      |c.readers| <= 1 && (c.readers != [] ==> c.halves == Some(c.readers[0]))
  {
    RunsKeepInv(run, settings);
    var c := After(run, settings);
    assert c.readers != [] ==> c.readers[0] in c.readers;
  }

  /** Taking a down signal really ends the attempt it belongs to: nothing of it is left that could disturb the next. */
  lemma DropEndsTheAttempt(run: seq<Action>, settings: Settings)
    requires After(run, settings).downs != []
    ensures var c := PortDropped(After(run, settings));
      && c.connectTasks == [] && c.streams == [] && c.readers == [] && c.downs == []
      && !c.connecting && !c.connected && !c.listening && c.halves.None?
  {
    RunsKeepInv(run, settings);
    CountsTotal(After(run, settings).downs);
  }

  // ---------- an attempt without a task ----------

  /** The port believes that it is connecting, and nothing is under way. */
  ghost predicate Abandoned(c: Client) {
    c.connecting && ConnectTokens(c) == 0
  }

  lemma AbandonedStays(c: Client, a: Action, settings: Settings)
    requires Inv(c, settings) && Abandoned(c)
    ensures Abandoned(Step(c, a, settings))
  {
    CountsTotal(c.downs);
  }

  /** An abandoned attempt is never taken up again, whatever is called. */
  lemma {:induction false} AbandonedForever(run: seq<Action>, more: seq<Action>, settings: Settings)
    requires Abandoned(After(run, settings))
    ensures Abandoned(After(run + more, settings))
    decreases |more|
  {
    if more == [] {
      assert run + more == run;
    } else {
      var before, a := run + more[..|more| - 1], more[|more| - 1];
      assert run + more == before + [a];
      AbandonedForever(run, more[..|more| - 1], settings);
      RunsKeepInv(before, settings);
      AbandonedStays(After(before, settings), a, settings);
      AfterSnoc(before, a, settings);
    }
  }

  /** An attempt is abandoned by exactly the steps that lose it. */
  lemma AbandonedBy(run: seq<Action>, a: Action, settings: Settings)
    requires !Abandoned(After(run, settings))
    ensures Abandoned(After(run + [a], settings)) <==> LosesAttempt(After(run, settings), a, settings)
  {
    RunsKeepInv(run, settings);
    AfterSnoc(run, a, settings);
    EpochConservation(run, settings);
    EpochConservation(run + [a], settings);
    assert (run + [a])[..|run|] == run;
  }

  // ---------- a connection without a reader ----------

  /** Connected, marked as listening, and nothing is reading. */
  ghost predicate Deaf(c: Client) {
    c.connected && c.listening && c.readers == [] && c.downs == []
  }

  lemma DeafStaysDeaf(c: Client, a: Action, settings: Settings)
    requires Inv(c, settings) && Deaf(c)
    ensures Deaf(Step(c, a, settings))
  {
    CountsTotal(c.downs);
  }

  /** A deaf connection is deaf for ever: no reader, no down signal, no reconnection, whatever is called. */
  lemma {:induction false} DeafForever(run: seq<Action>, more: seq<Action>, settings: Settings)
    requires Deaf(After(run, settings))
    ensures Deaf(After(run + more, settings))
    decreases |more|
  {
    if more == [] {
      assert run + more == run;
    } else {
      var before, a := run + more[..|more| - 1], more[|more| - 1];
      assert run + more == before + [a];
      DeafForever(run, more[..|more| - 1], settings);
      RunsKeepInv(before, settings);
      DeafStaysDeaf(After(before, settings), a, settings);
      AfterSnoc(before, a, settings);
    }
  }

  /** A connection becomes deaf by exactly two kinds of steps: its stream is attached when start_listening_to_server
      has been called too early, or its reader panics. */
  lemma DeafBy(run: seq<Action>, a: Action, settings: Settings)
    requires !Deaf(After(run, settings))
    ensures var c := After(run, settings);
      (Deaf(After(run + [a], settings))
       <==> || (a.CheckConnected? && !c.connected && c.streams != [] && c.listening)
            || (a.ReaderPanics? && a.i < |c.readers|))
  {
    RunsKeepInv(run, settings);
    CountsTotal(After(run, settings).downs);
    AfterSnoc(run, a, settings);
  }

  /** When its stream is attached, a connection is deaf at once if start_listening_to_server was called in this attempt
      before the stream was there. Otherwise the next call of start_listening_to_server gives it its one reader. */
  lemma HeardUnlessListeningTooEarly(run: seq<Action>, settings: Settings)
    requires var c := After(run, settings); !c.connected && c.streams != [] && c.runtime
    ensures var c := StreamAttached(After(run, settings));
      && c.connected
      && (Deaf(c) <==> After(run, settings).listening)
      && (!After(run, settings).listening ==> Listening(c).readers == [c.attempt])
  {
    RunsKeepInv(run, settings);
    CountsTotal(After(run, settings).downs);
    assert After(run, settings).streams[0] in After(run, settings).streams;
  }

  /** A task is at work, or the next call of one of the systems gets the connection on or takes it down. */
  ghost predicate Live(c: Client) {
    || c.connectTasks != []
    || (c.streams != [] && StreamAttached(c).connected)
    || c.readers != [] || Listening(c).readers != []
    || (c.downs != [] && !PortDropped(c).connecting)
  }

  /** A client that is connecting is stuck exactly when its attempt is abandoned or its connection is deaf; AbandonedBy
      and DeafBy say which steps lead there. */
  lemma StuckIffAbandonedOrDeaf(run: seq<Action>, settings: Settings)
    requires After(run, settings).connecting
    ensures var c := After(run, settings); !Live(c) <==> Abandoned(c) || Deaf(c)
  {
    RunsKeepInv(run, settings);
    CountsTotal(After(run, settings).downs);
  }

  /** The order in which the client's systems run, with a connection that takes longer than one frame. */
  const SLOW_CONNECT: seq<Action> :=
    [CheckPortDropped, StartRuntime, Connect, CheckConnected, StartListening,
     Connects(0),
     CheckPortDropped, CheckConnected, StartListening]

  lemma SlowConnectIsDeaf(settings: Settings)
    requires settings.serverName
    ensures Deaf(After(SLOW_CONNECT, settings))
  {
    var c := INIT.(runtime := true, connecting := true, listening := true, attempt := 1);
    FirstFrame(settings);
    assert SLOW_CONNECT[..6] == SLOW_CONNECT[..5] + [Connects(0)];
    assert SLOW_CONNECT[..7] == SLOW_CONNECT[..6] + [CheckPortDropped];
    assert SLOW_CONNECT[..8] == SLOW_CONNECT[..7] + [CheckConnected];
    assert SLOW_CONNECT == SLOW_CONNECT[..8] + [StartListening];
    AfterSnoc(SLOW_CONNECT[..5], Connects(0), settings);
    AfterSnoc(SLOW_CONNECT[..6], CheckPortDropped, settings);
    AfterSnoc(SLOW_CONNECT[..7], CheckConnected, settings);
    AfterSnoc(SLOW_CONNECT[..8], StartListening, settings);
    assert After(SLOW_CONNECT[..6], settings) == c.(streams := [1]);
    assert After(SLOW_CONNECT[..8], settings) == c.(connected := true, halves := Some(1));
  }

  lemma FirstFrame(settings: Settings)
    requires settings.serverName
    ensures After(SLOW_CONNECT[..5], settings)
         == INIT.(runtime := true, connecting := true, listening := true, attempt := 1, connectTasks := [1])
  {
    assert SLOW_CONNECT[..0] == [];
    assert SLOW_CONNECT[..1] == SLOW_CONNECT[..0] + [CheckPortDropped];
    assert SLOW_CONNECT[..2] == SLOW_CONNECT[..1] + [StartRuntime];
    assert SLOW_CONNECT[..3] == SLOW_CONNECT[..2] + [Connect];
    assert SLOW_CONNECT[..4] == SLOW_CONNECT[..3] + [CheckConnected];
    assert SLOW_CONNECT[..5] == SLOW_CONNECT[..4] + [StartListening];
    AfterSnoc(SLOW_CONNECT[..0], CheckPortDropped, settings);
    AfterSnoc(SLOW_CONNECT[..1], StartRuntime, settings);
    AfterSnoc(SLOW_CONNECT[..2], Connect, settings);
    AfterSnoc(SLOW_CONNECT[..3], CheckConnected, settings);
    AfterSnoc(SLOW_CONNECT[..4], StartListening, settings);
  }

  /** A connection that is heard, until a header arrives that its reader cannot satisfy. */
  const REFUSED_HEADER: seq<Action> :=
    [StartRuntime, Connect, Connects(0), CheckConnected, StartListening, ReaderPanics(0)]

  lemma RefusedHeaderIsDeaf(settings: Settings)
    requires settings.serverName
    ensures !Deaf(After(REFUSED_HEADER[..5], settings)) && After(REFUSED_HEADER[..5], settings).readers != []
    ensures Deaf(After(REFUSED_HEADER, settings))
  {
    Attached(settings);
    assert REFUSED_HEADER[..5] == REFUSED_HEADER[..4] + [StartListening];
    assert REFUSED_HEADER == REFUSED_HEADER[..5] + [ReaderPanics(0)];
    AfterSnoc(REFUSED_HEADER[..4], StartListening, settings);
    AfterSnoc(REFUSED_HEADER[..5], ReaderPanics(0), settings);
  }

  lemma Attached(settings: Settings)
    requires settings.serverName
    ensures After(REFUSED_HEADER[..4], settings)
         == INIT.(runtime := true, connecting := true, connected := true, attempt := 1, halves := Some(1))
  {
    assert REFUSED_HEADER[..1] == [] + [StartRuntime];
    assert REFUSED_HEADER[..2] == REFUSED_HEADER[..1] + [Connect];
    assert REFUSED_HEADER[..3] == REFUSED_HEADER[..2] + [Connects(0)];
    assert REFUSED_HEADER[..4] == REFUSED_HEADER[..3] + [CheckConnected];
    AfterSnoc([], StartRuntime, settings);
    AfterSnoc(REFUSED_HEADER[..1], Connect, settings);
    AfterSnoc(REFUSED_HEADER[..2], Connects(0), settings);
    AfterSnoc(REFUSED_HEADER[..3], CheckConnected, settings);
    assert After(REFUSED_HEADER[..3], settings)
        == INIT.(runtime := true, connecting := true, attempt := 1, streams := [1]);
  }

  /** Neither TLS nor try_reconnect has a part in it: a connect task that panics abandons the first attempt. */
  lemma PanicIsAbandoned(settings: Settings)
    requires settings.serverName
    ensures Abandoned(After([StartRuntime, Connect, ConnectPanics(0)], settings))
  {
    assert [] + [StartRuntime] == [StartRuntime];
    assert [StartRuntime] + [Connect] == [StartRuntime, Connect];
    assert [StartRuntime, Connect] + [ConnectPanics(0)] == [StartRuntime, Connect, ConnectPanics(0)];
    AfterSnoc([], StartRuntime, settings);
    AfterSnoc([StartRuntime], Connect, settings);
    AfterSnoc([StartRuntime, Connect], ConnectPanics(0), settings);
  }

  lemma AfterSnoc(run: seq<Action>, a: Action, settings: Settings)
    ensures After(run + [a], settings) == Step(After(run, settings), a, settings)
  {
    assert (run + [a])[..|run|] == run;
  }

  // ---------- connecting works ----------

  /** Whenever the port is not connecting and could, connect spawns one task for the next attempt, and nothing of an
      earlier one is around then; otherwise it does nothing. */
  lemma ConnectSpawns(run: seq<Action>, settings: Settings)
    ensures Spawned(After(run, settings), After(run + [Connect], settings), settings)
  {
    RunsKeepInv(run, settings);
    AfterSnoc(run, Connect, settings);
    ConnectingSpawns(After(run, settings), settings);
  }

  ghost predicate Spawned(c: Client, d: Client, settings: Settings) {
    if c.runtime && !c.connecting && settings.serverName
    then && d.connecting && d.connectTasks == [c.attempt + 1] && d.attempt == c.attempt + 1
         && d.streams == [] && d.downs == [] && d.readers == [] && d.halves.None? && !d.connected
         && d.listening == c.listening && d.runtime
    else d == c
  }

  lemma ConnectingSpawns(c: Client, settings: Settings)
    requires Inv(c, settings)
    ensures Spawned(c, Connecting(c, settings), settings)
  {
    CountsTotal(c.downs);
  }

  /** The way up: from any state in which the port is not connecting, a connection that succeeds before the stream is
      looked for is attached and gets its reader. */
  lemma ConnectionComesUp(run: seq<Action>, settings: Settings)
    requires var c := After(run, settings); c.runtime && !c.connecting && !c.listening && settings.serverName
    ensures var c := After(run, settings);
      var d := After(run + [Connect] + [Connects(0)] + [CheckConnected] + [StartListening], settings);
      && d.connected && d.listening && d.attempt == c.attempt + 1
      && d.halves == Some(d.attempt) && d.readers == [d.attempt] && d.connectTasks == [] && d.downs == []
  {
    ConnectSpawns(run, settings);
    AfterSnoc(run, Connect, settings);
    AfterSnoc(run + [Connect], Connects(0), settings);
    AfterSnoc(run + [Connect] + [Connects(0)], CheckConnected, settings);
    AfterSnoc(run + [Connect] + [Connects(0)] + [CheckConnected], StartListening, settings);
  }

  lemma FailureSignals(c: Client, a: Action, settings: Settings)
    requires Inv(c, settings) && Fails(c, a, settings)
    ensures var d := Step(c, a, settings);
      && d.downs == [if a.ReaderEnds? then StreamEnded(c.attempt) else ConnectFailed(c.attempt)]
      && d.connectTasks == [] && d.readers == []
  {
    CountsTotal(c.downs);
    if a.ReaderEnds? {
      assert c.readers[a.i] in c.readers;
    } else {
      assert c.connectTasks[a.i] in c.connectTasks;
    }
  }

  /** A failure that the program is to report: a connection or a handshake that fails without try_reconnect, and a
      stream that ends. */
  predicate Fails(c: Client, a: Action, settings: Settings) {
    || (a.FailsToConnect? && a.i < |c.connectTasks| && !settings.tryReconnect)
    || (a.FailsHandshake? && a.i < |c.connectTasks| && !settings.tryReconnect && settings.tls)
    || (a.ReaderEnds? && a.i < |c.readers|)
  }

  /** Each of them is reported. The signal is the only one, of the current attempt, and taking it clears the way. */
  lemma FailureIsReported(run: seq<Action>, a: Action, settings: Settings)
    requires Fails(After(run, settings), a, settings)
    ensures var c, d := After(run, settings), After(run + [a], settings);
      && d.downs == [if a.ReaderEnds? then StreamEnded(c.attempt) else ConnectFailed(c.attempt)]
      && d.connectTasks == [] && d.readers == []
      && !After(run + [a] + [CheckPortDropped], settings).connecting
  {
    RunsKeepInv(run, settings);
    FailureSignals(After(run, settings), a, settings);
    AfterSnoc(run, a, settings);
    AfterSnoc(run + [a], CheckPortDropped, settings);
  }

  /** Under try_reconnect a failed connection attempt is no step at all: the task goes on trying. */
  lemma {:induction false} RetryNeverFails(run: seq<Action>, settings: Settings)
    requires settings.tryReconnect
    ensures forall d <- After(run, settings).downs :: d.StreamEnded?
    decreases |run|
  {
    if run == [] {
    } else {
      RetryNeverFails(run[..|run| - 1], settings);
    }
  }
}
