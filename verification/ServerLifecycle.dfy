/** Binding, accepting and dropping at the server: the flags of the TCP port and of its connection, against the tasks
    and channel messages they guard. */
module ServerLifecycle {
  import opened Basics

  /** The flags, channels and tasks of the port. attempt counts the bind tasks; tasks, listeners and down signals
      carry the number of the attempt they come from, which the program does not know. */
  datatype Port = Port(connecting: bool, connected: bool, accepting: bool, listener: Option<nat>,
                       bindTasks: seq<nat>, listeners: seq<nat>, acceptTasks: seq<nat>, downs: seq<nat>,
                       attempt: nat)

  /** connectionUp and runtime belong to the connection; present until it has been disconnected. */
  datatype Server = Server(present: bool, connectionUp: bool, runtime: bool, port: Port)

  const IDLE: Port := Port(false, false, false, None, [], [], [], [], 0)
  const INIT: Server := Server(true, false, false, IDLE)

  /** What tokio lets a semaphore hold: usize::MAX >> 3. Making a larger one panics. */
  const MAX_PERMITS: nat := 0x1FFF_FFFF_FFFF_FFFF

  /** hook: a hook is configured, which the accept task calls for every stream and which may panic. */
  datatype Settings = Settings(autoReconnect: bool, maxConnections: nat, hook: bool) {
    predicate TooManyPermits() {
      maxConnections > MAX_PERMITS
    }
  }

  datatype Action =
    // the systems of the plugin
    | CheckMainPortDropped | StartConnections | ReceiveMainPortListener | StartAcceptingConnections
    // the i-th bind task binds; the i-th accept task fails to accept, or panics over its semaphore or in the hook
    | Binds(i: nat) | AcceptFails(i: nat) | AcceptPanics(i: nat)

  // ---------- the port ----------

  function Connect(p: Port, runtime: bool): Port {
    if !runtime || p.connecting then p
    else p.(connecting := true, attempt := p.attempt + 1, bindTasks := p.bindTasks + [p.attempt + 1])
  }

  function CheckPortDropped(p: Port): Port {
    if p.downs == [] then p
    else p.(downs := p.downs[1..], connected := false, connecting := false, accepting := false, listener := None)
  }

  function CheckPortConnected(p: Port): Port {
    if p.connected || p.listeners == [] then p
    else p.(listeners := p.listeners[1..], connected := true, listener := Some(p.listeners[0]))
  }

  function StartAccepting(p: Port, runtime: bool): Port {
    if !runtime || p.accepting || !p.connected || p.listener.None? then p
    else p.(accepting := true, acceptTasks := p.acceptTasks + [p.listener.value])
  }

  // ---------- the systems ----------

  /** A dropped port takes its connection down, and for good unless it may reconnect. */
  function MainPortDropped(s: Server, autoReconnect: bool): Server {
    if s.port.downs == [] then s
    else s.(port := CheckPortDropped(s.port), connectionUp := false, present := autoReconnect)
  }

  function StartConnection(s: Server): Server {
    if s.connectionUp then s else s.(connectionUp := true, runtime := true, port := Connect(s.port, true))
  }

  function Step(s: Server, a: Action, settings: Settings): Server {
    if !s.present then s
    else
      match a
      case CheckMainPortDropped => MainPortDropped(s, settings.autoReconnect)
      case StartConnections => StartConnection(s)
      case ReceiveMainPortListener => s.(port := CheckPortConnected(s.port))
      case StartAcceptingConnections => s.(port := StartAccepting(s.port, s.runtime))
      case Binds(i) =>
        var p := s.port;
        if i >= |p.bindTasks| then s
        else s.(port := p.(bindTasks := Without(p.bindTasks, i), listeners := p.listeners + [p.bindTasks[i]]))
      case AcceptFails(i) =>
        var p := s.port;
        if i >= |p.acceptTasks| || settings.TooManyPermits() then s
        else s.(port := p.(acceptTasks := Without(p.acceptTasks, i), downs := p.downs + [p.acceptTasks[i]]))
      case AcceptPanics(i) =>
        if LosesAccept(s, a, settings) then s.(port := s.port.(acceptTasks := Without(s.port.acceptTasks, i))) else s
  }

  /** The accept task ends without a signal. */
  predicate LosesAccept(s: Server, a: Action, settings: Settings) {
    s.present && a.AcceptPanics? && a.i < |s.port.acceptTasks| && (settings.TooManyPermits() || settings.hook)
  }

  function LostAccepts(run: seq<Action>, settings: Settings): nat {
    if run == [] then 0
    else
      var before := run[..|run| - 1];
      LostAccepts(before, settings) + Flag(LosesAccept(After(before, settings), run[|run| - 1], settings))
  }

  function After(run: seq<Action>, settings: Settings): Server {
    if run == [] then INIT else Step(After(run[..|run| - 1], settings), run[|run| - 1], settings)
  }

  // ---------- what every step keeps ----------

  ghost predicate Tokens(s: Server) {
    && Flag(s.port.connecting) == |s.port.bindTasks| + |s.port.listeners| + Flag(s.port.connected)
    && Flag(s.port.accepting) >= |s.port.acceptTasks| + |s.port.downs|
    && (s.port.connected <==> s.port.listener.Some?)
    && (s.port.accepting ==> s.port.connected)
    && s.connectionUp == s.port.connecting
    && (s.connectionUp ==> s.runtime)
  }

  ghost predicate NothingStale(s: Server) {
    && (forall t <- s.port.bindTasks :: t == s.port.attempt)
    && (forall t <- s.port.listeners :: t == s.port.attempt)
    && (forall t <- s.port.acceptTasks :: t == s.port.attempt)
    && (forall t <- s.port.downs :: t == s.port.attempt)
    && (s.port.listener.Some? ==> s.port.listener.value == s.port.attempt)
  }

  lemma StepKeepsTokens(s: Server, a: Action, settings: Settings)
    requires Tokens(s)
    ensures Tokens(Step(s, a, settings))
  {
  }

  lemma StepKeepsFresh(s: Server, a: Action, settings: Settings)
    requires Tokens(s) && NothingStale(s)
    ensures NothingStale(Step(s, a, settings))
  {
    match a
    case Binds(i) => assert i < |s.port.bindTasks| ==> s.port.bindTasks[i] in s.port.bindTasks;
    case AcceptFails(i) => assert i < |s.port.acceptTasks| ==> s.port.acceptTasks[i] in s.port.acceptTasks;
    case ReceiveMainPortListener => assert s.port.listeners != [] ==> s.port.listeners[0] in s.port.listeners;
    case _ =>
  }

  lemma {:induction false} RunsKeepInv(run: seq<Action>, settings: Settings)
    ensures Tokens(After(run, settings)) && NothingStale(After(run, settings))
    decreases |run|
  {
    if run == [] {
    } else {
      RunsKeepInv(run[..|run| - 1], settings);
      StepKeepsTokens(After(run[..|run| - 1], settings), run[|run| - 1], settings);
      StepKeepsFresh(After(run[..|run| - 1], settings), run[|run| - 1], settings);
    }
  }

  lemma StepKeepsBalance(s: Server, a: Action, settings: Settings)
    requires Tokens(s)
    ensures var t := Step(s, a, settings);
      |t.port.acceptTasks| + |t.port.downs| + Flag(s.port.accepting) + Flag(LosesAccept(s, a, settings))
        == |s.port.acceptTasks| + |s.port.downs| + Flag(t.port.accepting)
  {
  }

  /** Across any number of reconnects: bind tasks, queued listeners and the connection share the one token that
      connecting stands for; accept tasks and down signals share the one that accepting stands for, and the accept tasks
      that panicked account exactly for what is missing; and the connection's own flag agrees with the port's. At most
      one down signal is pending, and it belongs to the current listener. */
  lemma {:induction false} EpochConservation(run: seq<Action>, settings: Settings)
    ensures var s := After(run, settings);
      && Flag(s.port.connecting) == |s.port.bindTasks| + |s.port.listeners| + Flag(s.port.connected)
      && Flag(s.port.accepting) == |s.port.acceptTasks| + |s.port.downs| + LostAccepts(run, settings)
      && (s.port.connected <==> s.port.listener.Some?) && (s.port.accepting ==> s.port.connected)
      && s.connectionUp == s.port.connecting
      && |s.port.downs| <= 1
      && (s.port.downs != [] ==> s.port.listener == Some(s.port.downs[0]) && s.port.downs[0] == s.port.attempt)
    decreases |run|
  {
    RunsKeepInv(run, settings);
    var s := After(run, settings);
    assert s.port.downs != [] ==> s.port.downs[0] in s.port.downs;
    if run == [] {
    } else {
      EpochConservation(run[..|run| - 1], settings);
      RunsKeepInv(run[..|run| - 1], settings);
      StepKeepsBalance(After(run[..|run| - 1], settings), run[|run| - 1], settings);
    }
  }

  /** Within the limit of the semaphore, and without a hook, no accept task is ever lost. */
  lemma {:induction false} NoAcceptIsLost(run: seq<Action>, settings: Settings)
    requires settings.maxConnections <= MAX_PERMITS && !settings.hook
    ensures LostAccepts(run, settings) == 0
    decreases |run|
  {
    if run == [] {
    } else {
      NoAcceptIsLost(run[..|run| - 1], settings);
    }
  }

  /** Nothing of an attempt outlives its down signal, and one frame of the systems binds again. */
  lemma DropEndsTheAttempt(run: seq<Action>, settings: Settings)
    requires After(run, settings).present && After(run, settings).port.downs != []
    ensures var s := Step(After(run, settings), CheckMainPortDropped, settings);
      && s.port.bindTasks == [] && s.port.listeners == [] && s.port.acceptTasks == [] && s.port.downs == []
      && !s.port.connecting && !s.port.connected && !s.port.accepting && !s.connectionUp && s.port.listener.None?
      && s.present == settings.autoReconnect
      && (settings.autoReconnect ==> Step(s, StartConnections, settings).port.bindTasks == [s.port.attempt + 1])
  {
    RunsKeepInv(run, settings);
  }

  // ---------- a listener nobody accepts on ----------

  /** The port believes that it is accepting, and neither a task nor a signal is there. */
  ghost predicate Forsaken(s: Server) {
    s.port.accepting && s.port.acceptTasks == [] && s.port.downs == []
  }

  lemma AfterSnoc(run: seq<Action>, a: Action, settings: Settings)
    ensures After(run + [a], settings) == Step(After(run, settings), a, settings)
  {
    assert (run + [a])[..|run|] == run;
  }

  /** A port is forsaken by exactly one kind of step: its accept task panics, for which it takes a max_connections above
      the limit of the semaphore, or a hook. */
  lemma ForsakenBy(run: seq<Action>, a: Action, settings: Settings)
    requires !Forsaken(After(run, settings))
    ensures Forsaken(After(run + [a], settings)) <==> LosesAccept(After(run, settings), a, settings)
  {
    AfterSnoc(run, a, settings);
    EpochConservation(run, settings);
    EpochConservation(run + [a], settings);
    assert (run + [a])[..|run|] == run;
  }

  lemma ForsakenStays(s: Server, a: Action, settings: Settings)
    requires Tokens(s) && Forsaken(s)
    ensures Forsaken(Step(s, a, settings))
  {
  }

  lemma {:induction false} ForsakenForever(run: seq<Action>, more: seq<Action>, settings: Settings)
    requires Forsaken(After(run, settings))
    ensures Forsaken(After(run + more, settings))
    decreases |more|
  {
    if more == [] {
      assert run + more == run;
    } else {
      var before, a := run + more[..|more| - 1], more[|more| - 1];
      assert run + more == before + [a];
      ForsakenForever(run, more[..|more| - 1], settings);
      RunsKeepInv(before, settings);
      ForsakenStays(After(before, settings), a, settings);
      AfterSnoc(before, a, settings);
    }
  }

  /** With a max_connections above the limit, such as usize::MAX for no limit, every start of accepting forsakes the
      port: the task cannot but panic. */
  lemma TooManyPermitsForsake(run: seq<Action>, i: nat, settings: Settings)
    requires settings.TooManyPermits() && After(run, settings).present
    requires i < |After(run, settings).port.acceptTasks|
    ensures Step(After(run, settings), AcceptFails(i), settings) == After(run, settings)
    ensures Forsaken(After(run + [AcceptPanics(i)], settings))
  {
    PanicForsakes(run, i, settings);
  }

  /** And so does a hook that panics, within the limit. */
  lemma PanicForsakes(run: seq<Action>, i: nat, settings: Settings)
    requires settings.maxConnections > MAX_PERMITS || settings.hook
    requires After(run, settings).present && i < |After(run, settings).port.acceptTasks|
    ensures Forsaken(After(run + [AcceptPanics(i)], settings))
  {
    EpochConservation(run, settings);
    AfterSnoc(run, AcceptPanics(i), settings);
  }

  /** A task is at work, or the next call of one of the systems gets the connection on or takes it down. */
  ghost predicate Live(s: Server) {
    || s.port.bindTasks != []
    || (s.port.listeners != [] && CheckPortConnected(s.port).connected)
    || s.port.acceptTasks != []
    || (s.port.connected && StartAccepting(s.port, s.runtime).acceptTasks != [])
    || (s.port.downs != [] && !CheckPortDropped(s.port).connecting)
  }

  /** A connection that is up is stuck exactly when its port is forsaken. */
  lemma StuckIffForsaken(run: seq<Action>, settings: Settings)
    requires After(run, settings).connectionUp
    ensures !Live(After(run, settings)) <==> Forsaken(After(run, settings))
  {
    RunsKeepInv(run, settings);
  }

  // ---------- coming up ----------

  /** A connection that is down binds at its next start, whatever has happened to it before. */
  lemma StartBinds(run: seq<Action>, settings: Settings)
    requires After(run, settings).present && !After(run, settings).connectionUp
    ensures var s, t := After(run, settings), After(run + [StartConnections], settings);
      && t.connectionUp && t.runtime && t.port.connecting && !t.port.connected && !t.port.accepting
      && t.port.attempt == s.port.attempt + 1 && t.port.bindTasks == [t.port.attempt]
      && t.port.listeners == [] && t.port.acceptTasks == [] && t.port.downs == []
  {
    RunsKeepInv(run, settings);
    AfterSnoc(run, StartConnections, settings);
  }

  /** The way up: bound, received and accepted on. */
  lemma ServerComesUp(run: seq<Action>, settings: Settings)
    requires After(run, settings).present && !After(run, settings).connectionUp
    ensures var s := After(run, settings);
      var t := After(run + [StartConnections] + [Binds(0)] + [ReceiveMainPortListener] + [StartAcceptingConnections],
                     settings);
      && t.present && t.port.connected && t.port.accepting && t.port.attempt == s.port.attempt + 1
      && t.port.listener == Some(t.port.attempt) && t.port.acceptTasks == [t.port.attempt]
  {
    var r1 := run + [StartConnections];
    var r2 := r1 + [Binds(0)];
    var r3 := r2 + [ReceiveMainPortListener];
    StartBinds(run, settings);
    AfterSnoc(run, StartConnections, settings);
    AfterSnoc(r1, Binds(0), settings);
    AfterSnoc(r2, ReceiveMainPortListener, settings);
    AfterSnoc(r3, StartAcceptingConnections, settings);
  }

  /** An accept task that fails to accept is reported, within the limit of the semaphore. */
  lemma AcceptFailureIsReported(run: seq<Action>, i: nat, settings: Settings)
    requires After(run, settings).present && settings.maxConnections <= MAX_PERMITS
    requires i < |After(run, settings).port.acceptTasks|
    ensures var s, t := After(run, settings), After(run + [AcceptFails(i)], settings);
      t.port.acceptTasks == [] && t.port.downs == [s.port.attempt]
  {
    RunsKeepInv(run, settings);
    AfterSnoc(run, AcceptFails(i), settings);
    assert After(run, settings).port.acceptTasks[i] in After(run, settings).port.acceptTasks;
  }

  /** Without auto_reconnect a down signal that is taken is the last thing that happens. */
  lemma {:induction false} GoneForGood(run: seq<Action>, more: seq<Action>, settings: Settings)
    requires !After(run, settings).present
    ensures After(run + more, settings) == After(run, settings)
    decreases |more|
  {
    if more == [] {
      assert run + more == run;
    } else {
      var n := |more| - 1;
      assert run + more == run + more[..n] + [more[n]];
      GoneForGood(run, more[..n], settings);
      AfterSnoc(run + more[..n], more[n], settings);
    }
  }
}
