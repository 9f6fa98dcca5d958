/** The client's systems in the order in which they run, frame after frame, with the tasks working in between. In this
    order a connection is heard only if its stream arrives within the very frame that asked for it. */
module ClientFrames {
  import opened Basics
  import opened ClientLifecycle

  /** What the tasks do on their own. */
  type TaskAction = a: Action |
    a.Connects? || a.FailsToConnect? || a.FailsHandshake? || a.ConnectPanics? || a.ReaderEnds? || a.ReaderPanics?
    witness Connects(0)

  /** What the tasks do before each of the four systems of a frame. */
  datatype Frame = Frame(beforeDropped: seq<TaskAction>, beforeStart: seq<TaskAction>, beforeConnected: seq<TaskAction>,
                         beforeListening: seq<TaskAction>)

  /** up is the connection's own flag; present until it has been disconnected. */
  datatype System = System(client: Client, up: bool, present: bool)

  const NEW: System := System(INIT, false, true)

  function Tasks(c: Client, tasks: seq<TaskAction>, settings: Settings): Client
    decreases |tasks|
  {
    if tasks == [] then c else Tasks(TaskStep(c, tasks[0], settings), tasks[1..], settings)
  }

  /** One step of a task leaves the flags, the halves and the number of the attempt alone. */
  function TaskStep(c: Client, a: TaskAction, settings: Settings): (d: Client)
    ensures d.listening == c.listening && d.runtime == c.runtime && d.connected == c.connected
    ensures d.connecting == c.connecting && d.halves == c.halves && d.attempt == c.attempt
  {
    Step(c, a, settings)
  }

  /** check_main_port_dropped. */
  function DroppedSystem(s: System, settings: Settings): System {
    if s.client.downs == [] then s
    else s.(client := PortDropped(s.client), up := false, present := settings.tryReconnect)
  }

  /** start_connections. */
  function StartSystem(s: System, settings: Settings): System {
    if s.up || !s.present then s
    else s.(up := true, client := Connecting(s.client.(runtime := true), settings))
  }

  /** A frame up to its first two systems. */
  function Started(s: System, f: Frame, settings: Settings): System {
    var dropped := DroppedSystem(s.(client := Tasks(s.client, f.beforeDropped, settings)), settings);
    StartSystem(dropped.(client := Tasks(dropped.client, f.beforeStart, settings)), settings)
  }

  /** The client when check_connected_to_main_port runs. */
  function BeforeAttaching(s: System, f: Frame, settings: Settings): Client {
    Tasks(Started(s, f, settings).client, f.beforeConnected, settings)
  }

  function Frames(frames: seq<Frame>, settings: Settings): System {
    if frames == [] then NEW else OneFrame(Frames(frames[..|frames| - 1], settings), frames[|frames| - 1], settings)
  }

  /** A connection that is no longer there is not looked at. */
  function OneFrame(s: System, f: Frame, settings: Settings): System {
    if !s.present then s
    else
      var started := Started(s, f, settings);
      if !started.present then started
      else
        var attached := StreamAttached(BeforeAttaching(s, f, settings));
        started.(client := Listening(Tasks(attached, f.beforeListening, settings)))
  }

  // ---------- frames are runs ----------

  lemma TaskIsARun(run: seq<Action>, a: TaskAction, settings: Settings)
    ensures After(run + [a], settings) == TaskStep(After(run, settings), a, settings)
  {
    AfterSnoc(run, a, settings);
  }

  lemma {:induction false} TasksAreARun(run: seq<Action>, tasks: seq<TaskAction>, settings: Settings)
    ensures After(run + tasks, settings) == Tasks(After(run, settings), tasks, settings)
    decreases |tasks|
  {
    if tasks == [] {
      assert run + tasks == run;
    } else {
      FirstApart(run, tasks);
      TaskIsARun(run, tasks[0], settings);
      TasksAreARun(run + [tasks[0]], tasks[1..], settings);
    }
  }

  /** The actions of a frame up to its first two systems. */
  function StartActions(s: System, f: Frame, settings: Settings): seq<Action> {
    var dropped := DroppedSystem(s.(client := Tasks(s.client, f.beforeDropped, settings)), settings);
    f.beforeDropped + [CheckPortDropped] + f.beforeStart
    + (if dropped.up || !dropped.present then [] else [StartRuntime] + [Connect])
  }

  lemma StartedIsARun(run: seq<Action>, s: System, f: Frame, settings: Settings)
    requires After(run, settings) == s.client
    ensures After(run + StartActions(s, f, settings), settings) == Started(s, f, settings).client
  {
    var dropped := DroppedSystem(s.(client := Tasks(s.client, f.beforeDropped, settings)), settings);
    var r := run + f.beforeDropped + [CheckPortDropped] + f.beforeStart;
    StartActionsApart(run, s, f, settings);
    DroppedIsARun(run, s, f, settings);
    if !dropped.up && dropped.present { ConnectIsARun(r, settings); }
  }

  lemma StartActionsApart(run: seq<Action>, s: System, f: Frame, settings: Settings)
    ensures var dropped := DroppedSystem(s.(client := Tasks(s.client, f.beforeDropped, settings)), settings);
      var r := run + f.beforeDropped + [CheckPortDropped] + f.beforeStart;
      run + StartActions(s, f, settings)
        == if dropped.up || !dropped.present then r else r + [StartRuntime] + [Connect]
  {
  }

  lemma DroppedIsARun(run: seq<Action>, s: System, f: Frame, settings: Settings)
    requires After(run, settings) == s.client
    ensures var dropped := DroppedSystem(s.(client := Tasks(s.client, f.beforeDropped, settings)), settings);
      After(run + f.beforeDropped + [CheckPortDropped] + f.beforeStart, settings)
        == Tasks(dropped.client, f.beforeStart, settings)
  {
    TasksAreARun(run, f.beforeDropped, settings);
    AfterSnoc(run + f.beforeDropped, CheckPortDropped, settings);
    TasksAreARun(run + f.beforeDropped + [CheckPortDropped], f.beforeStart, settings);
  }

  lemma ConnectIsARun(run: seq<Action>, settings: Settings)
    ensures After(run + [StartRuntime] + [Connect], settings)
         == Connecting(After(run, settings).(runtime := true), settings)
  {
    AfterSnoc(run, StartRuntime, settings);
    AfterSnoc(run + [StartRuntime], Connect, settings);
  }

  lemma BeforeAttachingIsARun(run: seq<Action>, s: System, f: Frame, settings: Settings) returns (next: seq<Action>)
    requires After(run, settings) == s.client
    ensures After(next, settings) == BeforeAttaching(s, f, settings) && run <= next
  {
    StartedIsARun(run, s, f, settings);
    TasksAreARun(run + StartActions(s, f, settings), f.beforeConnected, settings);
    next := run + StartActions(s, f, settings) + f.beforeConnected;
  }

  lemma FrameIsARun(run: seq<Action>, s: System, f: Frame, settings: Settings) returns (next: seq<Action>)
    requires After(run, settings) == s.client
    ensures After(next, settings) == OneFrame(s, f, settings).client && run <= next
  {
    if !s.present {
      next := run;
    } else if !Started(s, f, settings).present {
      StartedIsARun(run, s, f, settings);
      next := run + StartActions(s, f, settings);
    } else {
      var attaching := BeforeAttachingIsARun(run, s, f, settings);
      AfterSnoc(attaching, CheckConnected, settings);
      TasksAreARun(attaching + [CheckConnected], f.beforeListening, settings);
      AfterSnoc(attaching + [CheckConnected] + f.beforeListening, StartListening, settings);
      next := attaching + [CheckConnected] + f.beforeListening + [StartListening];
    }
  }

  /** Any number of frames is a run of the client, so all that holds of every run holds after every frame. */
  lemma {:induction false} FramesAreARun(frames: seq<Frame>, settings: Settings) returns (run: seq<Action>)
    ensures After(run, settings) == Frames(frames, settings).client
    decreases |frames|
  {
    if frames == [] {
      run := [];
    } else {
      var before := FramesAreARun(frames[..|frames| - 1], settings);
      run := FrameIsARun(before, Frames(frames[..|frames| - 1], settings), frames[|frames| - 1], settings);
    }
  }

  // ---------- the listening flag ----------

  /** Tasks leave the flags, the halves and the number of the attempt alone. */
  lemma {:induction false} TasksKeepFlags(c: Client, tasks: seq<TaskAction>, settings: Settings)
    ensures var d := Tasks(c, tasks, settings);
      && d.listening == c.listening && d.runtime == c.runtime && d.connected == c.connected
      && d.connecting == c.connecting && d.halves == c.halves && d.attempt == c.attempt
    decreases |tasks|
  {
    if tasks == [] {
    } else {
      TasksKeepFlags(TaskStep(c, tasks[0], settings), tasks[1..], settings);
    }
  }

  /** After a whole frame the client counts as listening, whether or not there is anything to listen to; and the
      connection has never been asked for before the first one. */
  ghost predicate FrameInv(s: System) {
    && (s.present && s.up ==> s.client.runtime && s.client.listening)
    && (s.present && !s.up ==> s == NEW)
  }

  lemma FrameKeepsInv(s: System, f: Frame, settings: Settings)
    requires FrameInv(s)
    ensures FrameInv(OneFrame(s, f, settings))
  {
    if s.present && Started(s, f, settings).present {
      StartKeepsRuntime(s, f, settings);
      TasksKeepFlags(Started(s, f, settings).client, f.beforeConnected, settings);
      TasksKeepFlags(StreamAttached(BeforeAttaching(s, f, settings)), f.beforeListening, settings);
    }
  }

  /** The frame asks for the stream itself, or the flag is up when its stream is looked for. */
  lemma StartKeepsRuntime(s: System, f: Frame, settings: Settings)
    requires FrameInv(s) && s.present && Started(s, f, settings).present
    ensures var t := Started(s, f, settings);
      && t.up && t.client.runtime
      && (t.client.attempt == s.client.attempt && t.client.connecting ==> t.client.listening)
      && (t.client.attempt != s.client.attempt ==> !t.client.listening)
  {
    var tasks := Tasks(s.client, f.beforeDropped, settings);
    TasksKeepFlags(s.client, f.beforeDropped, settings);
    var dropped := DroppedSystem(s.(client := tasks), settings);
    TasksKeepFlags(dropped.client, f.beforeStart, settings);
  }

  lemma {:induction false} FramesKeepInv(frames: seq<Frame>, settings: Settings)
    ensures FrameInv(Frames(frames, settings))
    decreases |frames|
  {
    if frames == [] {
    } else {
      FramesKeepInv(frames[..|frames| - 1], settings);
      FrameKeepsInv(Frames(frames[..|frames| - 1], settings), frames[|frames| - 1], settings);
    }
  }

  // ---------- results ----------

  /** The frame attaches a stream. */
  ghost predicate Attaches(s: System, f: Frame, settings: Settings) {
    && s.present && Started(s, f, settings).present
    && !BeforeAttaching(s, f, settings).connected && BeforeAttaching(s, f, settings).streams != []
  }

  lemma AttachingClient(frames: seq<Frame>, f: Frame, settings: Settings) returns (run: seq<Action>)
    requires Attaches(Frames(frames, settings), f, settings)
    ensures After(run, settings) == BeforeAttaching(Frames(frames, settings), f, settings)
    ensures var c := After(run, settings); var s := Frames(frames, settings);
      && c.connecting && c.runtime && !c.connected && c.streams != []
      && (c.listening <==> c.attempt == s.client.attempt)
  {
    var s := Frames(frames, settings);
    var before := FramesAreARun(frames, settings);
    run := BeforeAttachingIsARun(before, s, f, settings);
    RunsKeepInv(run, settings);
    FramesKeepInv(frames, settings);
    StartKeepsRuntime(s, f, settings);
    TasksKeepFlags(Started(s, f, settings).client, f.beforeConnected, settings);
  }

  /** After any number of frames: the frame that attaches a stream makes its connection deaf unless it is the very frame
      that asked for the stream; in that case the connection has its reader at the end of the frame. */
  lemma HeardOnlyInItsFirstFrame(frames: seq<Frame>, f: Frame, settings: Settings)
    requires Attaches(Frames(frames, settings), f, settings)
    ensures var s, t := Frames(frames, settings), Frames(frames + [f], settings);
      && (Deaf(t.client) <==> t.client.attempt == s.client.attempt)
      && (t.client.attempt != s.client.attempt ==> t.client.readers == [t.client.attempt])
  {
    var s := Frames(frames, settings);
    var run := AttachingClient(frames, f, settings);
    var attached := StreamAttached(After(run, settings));
    assert (frames + [f])[..|frames|] == frames;
    HeardUnlessListeningTooEarly(run, settings);
    RunsKeepInv(run, settings);
    CountsTotal(After(run, settings).downs);
    NothingToDo(attached, f.beforeListening, settings);
  }

  /** A client with a stream just attached has no task that could do anything. */
  lemma {:induction false} NothingToDo(c: Client, tasks: seq<TaskAction>, settings: Settings)
    requires c.connectTasks == [] && c.readers == []
    ensures Tasks(c, tasks, settings) == c
    decreases |tasks|
  {
    if tasks == [] {
    } else {
      NothingToDo(c, tasks[1..], settings);
    }
  }

  /** And a connection that is deaf after a frame is deaf after every later one. */
  lemma {:induction false} DeafEveryFrame(frames: seq<Frame>, more: seq<Frame>, settings: Settings)
    requires Deaf(Frames(frames, settings).client)
    ensures Deaf(Frames(frames + more, settings).client)
    decreases |more|
  {
    if more == [] {
      assert frames + more == frames;
    } else {
      var n := |more| - 1;
      var before := frames + more[..n];
      assert (frames + more)[..|frames + more| - 1] == before;
      DeafEveryFrame(frames, more[..n], settings);
      var run := FramesAreARun(before, settings);
      var next := FrameIsARun(run, Frames(before, settings), more[n], settings);
      assert next == run + next[|run|..];
      DeafForever(run, next[|run|..], settings);
    }
  }

  // ---------- reconnecting ----------

  /** Nothing of the attempt is left when a frame has taken its down signal. */
  lemma DropClears(frames: seq<Frame>, tasks: seq<TaskAction>, settings: Settings)
    requires Tasks(Frames(frames, settings).client, tasks, settings).downs != []
    ensures var c := Frames(frames, settings).client; var d := PortDropped(Tasks(c, tasks, settings));
      && d.connectTasks == [] && d.streams == [] && d.readers == [] && d.downs == [] && d.attempt == c.attempt
      && !d.connecting && !d.connected && !d.listening && d.halves.None?
  {
    var run := FramesAreARun(frames, settings);
    TasksAreARun(run, tasks, settings);
    DropEndsTheAttempt(run + tasks, settings);
    TasksKeepFlags(Frames(frames, settings).client, tasks, settings);
  }

  lemma StartedAfterDrop(s: System, f: Frame, settings: Settings)
    requires s.present && Tasks(s.client, f.beforeDropped, settings).downs != []
    requires PortDropped(Tasks(s.client, f.beforeDropped, settings)).connectTasks == []
    requires PortDropped(Tasks(s.client, f.beforeDropped, settings)).readers == []
    ensures var c, t := PortDropped(Tasks(s.client, f.beforeDropped, settings)), Started(s, f, settings);
      t == if settings.tryReconnect then System(Connecting(c.(runtime := true), settings), true, true)
           else System(c, false, false)
  {
    NothingToDo(PortDropped(Tasks(s.client, f.beforeDropped, settings)), f.beforeStart, settings);
  }

  /** A frame that takes a down signal starts over when it may: after its first two systems the connection is up again,
      with one connect task of the next attempt and nothing left of the last one. Otherwise the connection is gone. */
  lemma DropStartsOver(frames: seq<Frame>, f: Frame, settings: Settings)
    requires Frames(frames, settings).present
    requires Tasks(Frames(frames, settings).client, f.beforeDropped, settings).downs != []
    ensures var s, t := Frames(frames, settings), Started(Frames(frames, settings), f, settings);
      && (settings.tryReconnect && settings.serverName ==>
            && t.present && t.up && t.client.connecting && t.client.attempt == s.client.attempt + 1
            && t.client.connectTasks == [s.client.attempt + 1]
            && !t.client.connected && !t.client.listening && t.client.streams == [] && t.client.downs == [])
      && (!settings.tryReconnect ==> !t.present && !t.client.connecting)
  {
    var s := Frames(frames, settings);
    DropClears(frames, f.beforeDropped, settings);
    StartedAfterDrop(s, f, settings);
    ConnectsAfresh(PortDropped(Tasks(s.client, f.beforeDropped, settings)), settings);
  }

  lemma ConnectsAfresh(c: Client, settings: Settings)
    requires !c.connecting && c.connectTasks == []
    ensures var d := Connecting(c.(runtime := true), settings);
      && (settings.serverName ==> d.connecting && d.attempt == c.attempt + 1 && d.connectTasks == [c.attempt + 1])
      && d.connected == c.connected && d.listening == c.listening && d.streams == c.streams && d.downs == c.downs
  {
  }

  /** Without try_reconnect the first down signal is the last thing that happens to a connection. */
  lemma {:induction false} GoneForGood(frames: seq<Frame>, more: seq<Frame>, settings: Settings)
    requires !Frames(frames, settings).present
    ensures Frames(frames + more, settings) == Frames(frames, settings)
    decreases |more|
  {
    if more == [] {
      assert frames + more == frames;
    } else {
      var n := |more| - 1;
      assert (frames + more)[..|frames + more| - 1] == frames + more[..n];
      GoneForGood(frames, more[..n], settings);
    }
  }

  /** A frame that takes no signal leaves a connection that is up as it is. */
  lemma NoSignalNoDrop(frames: seq<Frame>, f: Frame, settings: Settings)
    requires Frames(frames, settings).present && Frames(frames, settings).up
    requires Tasks(Frames(frames, settings).client, f.beforeDropped, settings).downs == []
    ensures var s, t := Frames(frames, settings), Started(Frames(frames, settings), f, settings);
      && t.present && t.up && t.client.attempt == s.client.attempt
      && t.client.connecting == s.client.connecting && t.client.connected == s.client.connected
      && t.client.listening == s.client.listening
  {
    var s := Frames(frames, settings);
    TasksKeepFlags(s.client, f.beforeDropped, settings);
    TasksKeepFlags(Tasks(s.client, f.beforeDropped, settings), f.beforeStart, settings);
  }

  /** The first frame of a connection asks for its stream. */
  lemma FirstFrameConnects(f: Frame, settings: Settings)
    requires settings.serverName
    ensures var t := Started(NEW, f, settings);
      t.present && t.up && t.client.runtime && t.client.connecting && t.client.connectTasks == [1]
  {
    NothingToDo(INIT, f.beforeDropped, settings);
    NothingToDo(INIT, f.beforeStart, settings);
  }
}
