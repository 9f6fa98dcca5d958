/** The message gate over whole runs: dispatch is deferred and logins are processed later than the batch they came
    in, so nothing but authentication messages is dispatched for a client that had not logged in before the read. */
module MessageGate {
  import opened Basics
  import opened Bytes
  import opened ServerClients

  /** The k-th step of the run is the granted login by which u becomes connected. */
  ghost predicate Joins(run: seq<Action>, k: nat, u: Uuid, cfg: Config) {
    && k < |run| && run[k] == Login(true)
    && After(run[..k], cfg).logins != [] && After(run[..k], cfg).logins[0] == u
    && u !in After(run[..k], cfg).clientsConnected
    && u in After(run[..k + 1], cfg).clientsConnected
  }

  /** The command was queued by the read at its time, which found the message in the channel and let it pass. */
  ghost predicate Traceable(run: seq<Action>, c: Command, cfg: Config) {
    && c.readAt < |run| && run[c.readAt] == ReadMessages
    && (c.sender, c.body) in After(run[..c.readAt], cfg).port.inbox
    && Passes(c.sender, c.body, After(run[..c.readAt], cfg).clientsConnected, cfg)
  }

  lemma {:induction false} ClockCountsSteps(run: seq<Action>, cfg: Config)
    ensures After(run, cfg).clock == |run|
    decreases |run|
  {
    if run == [] {
    } else {
      ClockCountsSteps(run[..|run| - 1], cfg);
      StepKeepsClock(After(run[..|run| - 1], cfg), run[|run| - 1], cfg);
    }
  }

  lemma StepKeepsClock(s: Server, a: Action, cfg: Config)
    ensures Step(s, a, cfg).clock == s.clock
  {
  }

  lemma {:induction false} GatedIff(batch: seq<(Uuid, seq<Byte>)>, connected: set<Uuid>, now: nat, cfg: Config,
                                    c: Command)
    ensures c in Gate(batch, connected, now, cfg)
       <==> c.readAt == now && (c.sender, c.body) in batch && Passes(c.sender, c.body, connected, cfg)
  {
    if batch == [] {
    } else {
      var head := Command(batch[0].0, batch[0].1, now);
      GatedIff(batch[1..], connected, now, cfg, c);
      assert batch == [batch[0]] + batch[1..];
      assert Gate(batch, connected, now, cfg)
          == (if Passes(head.sender, head.body, connected, cfg) then [head] else [])
             + Gate(batch[1..], connected, now, cfg);
      assert c == head <==> c.readAt == now && (c.sender, c.body) == batch[0];
    }
  }

  /** A read queues a message exactly when it is in the batch, is of a registered type, comes from a connected client or
      is for authentication, and nothing in the batch panics the read. */
  lemma GateIff(batch: seq<(Uuid, seq<Byte>)>, connected: set<Uuid>, now: nat, cfg: Config, c: Command)
    ensures c in ReadBatch(batch, connected, now, cfg)
       <==> && c.readAt == now && (c.sender, c.body) in batch
            && cfg.kind(c.body).Registered? && (c.sender in connected || cfg.kind(c.body).authentication)
            && forall m <- batch :: !cfg.kind(m.1).Undecodable?
  {
    GatedIff(batch, connected, now, cfg, c);
  }

  /** Commands come only from a read. */
  lemma NewCommands(s: Server, a: Action, cfg: Config, c: Command)
    requires c in Step(s, a, cfg).commands + Step(s, a, cfg).dispatched
    ensures c in s.commands + s.dispatched
         || (a == ReadMessages && c in ReadBatch(s.port.inbox, s.clientsConnected, s.clock, cfg))
  {
  }

  lemma TraceableLater(run: seq<Action>, a: Action, c: Command, cfg: Config)
    requires Traceable(run, c, cfg)
    ensures Traceable(run + [a], c, cfg)
  {
    assert (run + [a])[..c.readAt] == run[..c.readAt];
  }

  lemma {:induction false} CommandsTraceable(run: seq<Action>, cfg: Config, c: Command)
    requires c in After(run, cfg).commands + After(run, cfg).dispatched
    ensures Traceable(run, c, cfg)
    decreases |run|
  {
    if run == [] {
    } else {
      var before, a := run[..|run| - 1], run[|run| - 1];
      var s := After(before, cfg);
      assert run == before + [a];
      NewCommands(s, a, cfg, c);
      if c in s.commands + s.dispatched {
        CommandsTraceable(before, cfg, c);
        TraceableLater(before, a, c, cfg);
      } else {
        ClockCountsSteps(before, cfg);
        GateIff(s.port.inbox, s.clientsConnected, s.clock, cfg, c);
      }
    }
  }

  lemma JoiningStep(s: Server, a: Action, cfg: Config, u: Uuid)
    requires u !in s.clientsConnected && u in Step(s, a, cfg).clientsConnected
    ensures a == Login(true) && s.logins != [] && s.logins[0] == u
  {
  }

  /** Whoever is connected has logged in at some step. */
  lemma {:induction false} ConnectedHasJoined(run: seq<Action>, cfg: Config, u: Uuid) returns (k: nat)
    requires u in After(run, cfg).clientsConnected
    ensures Joins(run, k, u, cfg)
    decreases |run|
  {
    var before, a := run[..|run| - 1], run[|run| - 1];
    if u in After(before, cfg).clientsConnected {
      k := ConnectedHasJoined(before, cfg, u);
      assert run[..k] == before[..k] && run[..k + 1] == before[..k + 1];
    } else {
      k := |run| - 1;
      JoiningStep(After(before, cfg), a, cfg, u);
      assert run[..k + 1] == run;
    }
  }

  /** Whatever is dispatched that is not an authentication message has a sender whose granted login strictly precedes
      the read that dispatched it. */
  lemma DispatchedAfterLogin(run: seq<Action>, cfg: Config, c: Command) returns (k: nat)
    requires c in After(run, cfg).dispatched
    requires !(cfg.kind(c.body).Registered? && cfg.kind(c.body).authentication)
    ensures k < c.readAt < |run| && run[c.readAt] == ReadMessages && Joins(run, k, c.sender, cfg)
  {
    CommandsTraceable(run, cfg, c);
    k := ConnectedHasJoined(run[..c.readAt], cfg, c.sender);
    assert run[..c.readAt][..k] == run[..k] && run[..c.readAt][..k + 1] == run[..k + 1];
  }

  /** A batch read while its sender is not connected dispatches nothing of that sender's, now or ever, except
      authentication messages; so application messages behind the first login in one batch are lost. */
  lemma SameBatchIsGated(run: seq<Action>, cfg: Config, t: nat, c: Command)
    requires t < |run| && run[t] == ReadMessages
    requires c in After(run, cfg).dispatched && c.readAt == t
    requires c.sender !in After(run[..t], cfg).clientsConnected
    ensures cfg.kind(c.body).Registered? && cfg.kind(c.body).authentication
  {
    CommandsTraceable(run, cfg, c);
  }

  // ---------- order ----------

  /** a without some of its elements: what is left of b, in order. */
  predicate Subsequence<T(==)>(a: seq<T>, b: seq<T>) {
    || a == []
    || (b != [] && ((a[0] == b[0] && Subsequence(a[1..], b[1..])) || Subsequence(a, b[1..])))
  }

  lemma {:induction false} SubsequenceSkips<T>(a: seq<T>, b: seq<T>, c: seq<T>)
    requires Subsequence(a, c)
    ensures Subsequence(a, b + c)
  {
    if b == [] {
      assert b + c == c;
    } else {
      assert (b + c)[1..] == b[1..] + c;
      SubsequenceSkips(a, b[1..], c);
    }
  }

  lemma {:induction false} SubsequenceJoin<T>(a: seq<T>, b: seq<T>, c: seq<T>, d: seq<T>)
    requires Subsequence(a, b) && Subsequence(c, d)
    ensures Subsequence(a + c, b + d)
    decreases |b|
  {
    if a == [] {
      assert a + c == c;
      SubsequenceSkips(c, b, d);
    } else {
      assert (b + d)[1..] == b[1..] + d && (a + c)[1..] == a[1..] + c;
      if a[0] == b[0] && Subsequence(a[1..], b[1..]) {
        SubsequenceJoin(a[1..], b[1..], c, d);
      } else {
        SubsequenceJoin(a, b[1..], c, d);
      }
    }
  }

  function Origins(commands: seq<Command>): seq<(Uuid, seq<Byte>)> {
    if commands == [] then [] else [(commands[0].sender, commands[0].body)] + Origins(commands[1..])
  }

  lemma {:induction false} OriginsAppend(a: seq<Command>, b: seq<Command>)
    ensures Origins(a + b) == Origins(a) + Origins(b)
  {
    if a == [] {
      assert a + b == b;
    } else {
      assert (a + b)[1..] == a[1..] + b;
      OriginsAppend(a[1..], b);
    }
  }

  lemma {:induction false} GatedInOrder(batch: seq<(Uuid, seq<Byte>)>, connected: set<Uuid>, now: nat, cfg: Config)
    ensures Subsequence(Origins(Gate(batch, connected, now, cfg)), batch)
  {
    if batch == [] {
    } else {
      GatedInOrder(batch[1..], connected, now, cfg);
      var (sender, body) := batch[0];
      if Passes(sender, body, connected, cfg) {
        var rest := Gate(batch[1..], connected, now, cfg);
        assert Gate(batch, connected, now, cfg) == [Command(sender, body, now)] + rest;
        assert Origins([Command(sender, body, now)] + rest)[1..] == Origins(rest);
      } else {
        assert Gate(batch, connected, now, cfg) == Gate(batch[1..], connected, now, cfg);
      }
    }
  }

  /** What one read queues is part of its batch, in order and without repetition. */
  lemma GateKeepsOrder(batch: seq<(Uuid, seq<Byte>)>, connected: set<Uuid>, now: nat, cfg: Config)
    ensures Subsequence(Origins(ReadBatch(batch, connected, now, cfg)), batch)
  {
    GatedInOrder(batch, connected, now, cfg);
  }

  lemma {:induction false} GatesAppend(a: seq<(Uuid, seq<Byte>)>, b: seq<(Uuid, seq<Byte>)>, connected: set<Uuid>,
                                       now: nat, cfg: Config)
    ensures Gate(a + b, connected, now, cfg) == Gate(a, connected, now, cfg) + Gate(b, connected, now, cfg)
  {
    if a == [] {
      assert a + b == b;
    } else {
      assert (a + b)[1..] == a[1..] + b;
      GatesAppend(a[1..], b, connected, now, cfg);
    }
  }

  /** A read judges every message on its own, except that one that panics takes the whole batch with it. */
  lemma GateAppend(a: seq<(Uuid, seq<Byte>)>, b: seq<(Uuid, seq<Byte>)>, connected: set<Uuid>, now: nat, cfg: Config)
    ensures Crashes(a + b, cfg) <==> Crashes(a, cfg) || Crashes(b, cfg)
    ensures ReadBatch(a + b, connected, now, cfg)
         == if Crashes(a, cfg) || Crashes(b, cfg) then []
            else ReadBatch(a, connected, now, cfg) + ReadBatch(b, connected, now, cfg)
  {
    GatesAppend(a, b, connected, now, cfg);
  }

  /** The commands queued by all reads of a run, read by read. */
  function AllGated(run: seq<Action>, cfg: Config): seq<Command> {
    if run == [] then []
    else
      var s := After(run[..|run| - 1], cfg);
      AllGated(run[..|run| - 1], cfg)
      + (if run[|run| - 1] == ReadMessages && s.notifying.None? && s.port.alive
         then ReadBatch(s.port.inbox, s.clientsConnected, s.clock, cfg) else [])
  }

  lemma StepQueues(s: Server, a: Action, cfg: Config)
    ensures var t := Step(s, a, cfg);
      if a == ReadMessages && s.notifying.None? && s.port.alive
      then && t.delivered == s.delivered + s.port.inbox
           && t.dispatched + t.commands
           == s.dispatched + s.commands + ReadBatch(s.port.inbox, s.clientsConnected, s.clock, cfg)
      else t.dispatched + t.commands == s.dispatched + s.commands && t.delivered == s.delivered
  {
    match a
    case ReadMessages =>
      var more := ReadBatch(s.port.inbox, s.clientsConnected, s.clock, cfg);
      assert s.dispatched + (s.commands + more) == s.dispatched + s.commands + more;
    case Flush => assert s.dispatched + s.commands + [] == s.dispatched + s.commands;
    case _ =>
  }

  /** Over any run, what is dispatched and then what is still queued is exactly what the reads let pass: nothing that
      passed is dropped, repeated or reordered, and what comes out is part of what the port delivered, in its order. */
  lemma {:induction false} DispatchKeepsOrder(run: seq<Action>, cfg: Config)
    ensures var s := After(run, cfg);
      && s.dispatched + s.commands == AllGated(run, cfg)
      && Subsequence(Origins(s.dispatched + s.commands), s.delivered)
    decreases |run|
  {
    if run == [] {
    } else {
      var s, a := After(run[..|run| - 1], cfg), run[|run| - 1];
      DispatchKeepsOrder(run[..|run| - 1], cfg);
      StepQueues(s, a, cfg);
      var more := ReadBatch(s.port.inbox, s.clientsConnected, s.clock, cfg);
      GateKeepsOrder(s.port.inbox, s.clientsConnected, s.clock, cfg);
      OriginsAppend(s.dispatched + s.commands, more);
      SubsequenceJoin(Origins(s.dispatched + s.commands), s.delivered, Origins(more), s.port.inbox);
    }
  }

  // ---------- a payload that does not decode ----------

  lemma DeadStaysDead(s: Server, a: Action, cfg: Config)
    requires !s.port.alive
    ensures var t := Step(s, a, cfg);
      !t.port.alive && t.dispatched == s.dispatched && t.clientsConnected == s.clientsConnected
  {
  }

  /** A server whose port is gone dispatches nothing and admits nobody, whatever else happens. */
  lemma {:induction false} DeadForever(run: seq<Action>, more: seq<Action>, cfg: Config)
    requires !After(run, cfg).port.alive
    ensures var s, t := After(run, cfg), After(run + more, cfg);
      !t.port.alive && t.dispatched == s.dispatched && t.clientsConnected == s.clientsConnected
    decreases |more|
  {
    if more == [] {
      assert run + more == run;
    } else {
      var before, a := run + more[..|more| - 1], more[|more| - 1];
      assert run + more == before + [a];
      DeadForever(run, more[..|more| - 1], cfg);
      DeadStaysDead(After(before, cfg), a, cfg);
      assert (before + [a])[..|before|] == before;
    }
  }

  /** A read survives exactly the batches in which every payload of a registered type decodes; after any other, nothing
      is ever dispatched again, the commands already queued included. */
  lemma UndecodableEndsTheServer(run: seq<Action>, more: seq<Action>, cfg: Config)
    requires var s := After(run, cfg); s.notifying.None? && s.port.alive
    ensures var s, t := After(run, cfg), After(run + [ReadMessages], cfg);
      && (t.port.alive <==> forall m <- s.port.inbox :: !cfg.kind(m.1).Undecodable?)
      && (!t.port.alive ==> After(run + [ReadMessages] + more, cfg).dispatched == s.dispatched)
  {
    assert (run + [ReadMessages])[..|run|] == run;
    if !After(run + [ReadMessages], cfg).port.alive { DeadForever(run + [ReadMessages], more, cfg); }
  }

  // ---------- logins ----------

  ghost predicate IsLogin(c: Command, u: Uuid, cfg: Config) {
    c.sender == u && cfg.kind(c.body).Registered? && cfg.kind(c.body).login
  }

  /** The senders of the login messages among the commands, and nobody else, come up for authentication. */
  lemma {:induction false} LoginsIff(commands: seq<Command>, cfg: Config, u: Uuid)
    ensures u in Logins(commands, cfg) <==> exists c <- commands :: IsLogin(c, u, cfg)
  {
    if commands == [] {
    } else {
      LoginsIff(commands[1..], cfg, u);
      assert forall c :: c in commands <==> c == commands[0] || c in commands[1..];
      assert IsLogin(commands[0], u, cfg) <==> u in Logins([commands[0]], cfg);
      assert Logins(commands, cfg) == Logins([commands[0]], cfg) + Logins(commands[1..], cfg);
    }
  }

  lemma {:induction false} LoginsAppend(a: seq<Command>, b: seq<Command>, cfg: Config)
    ensures Logins(a + b, cfg) == Logins(a, cfg) + Logins(b, cfg)
  {
    if a == [] {
      assert a + b == b;
    } else {
      assert (a + b)[1..] == a[1..] + b;
      LoginsAppend(a[1..], b, cfg);
    }
  }

  /** Logins come up in the order of the commands: each login message adds its sender at its place, any other message
      nothing. */
  lemma LoginsInOrder(a: seq<Command>, c: Command, b: seq<Command>, cfg: Config)
    ensures Logins(a + [c] + b, cfg)
         == Logins(a, cfg) + (if cfg.kind(c.body).Registered? && cfg.kind(c.body).login then [c.sender] else [])
            + Logins(b, cfg)
  {
    LoginsAppend(a + [c], b, cfg);
    LoginsAppend(a, [c], cfg);
    assert [c][1..] == [];
  }

  // ---------- a message gets through ----------

  lemma AfterTwo(run: seq<Action>, a: Action, b: Action, cfg: Config)
    ensures After(run + [a] + [b], cfg) == Next(Next(After(run, cfg), a, cfg), b, cfg)
  {
    assert (run + [a])[..|run|] == run;
    assert (run + [a] + [b])[..|run| + 1] == run + [a];
  }

  /** One frame of the application's systems, from any reachable state: reading takes everything out of the channel, and
      flushing dispatches everything that is queued. So a message of a registered type that is in the channel is
      dispatched if its sender is connected or it is for authentication, unless some payload panics; and a login comes
      up for authentication. */
  lemma ReadAndFlush(run: seq<Action>, cfg: Config, u: Uuid, body: seq<Byte>)
    requires var s := After(run, cfg);
      && s.notifying.None? && s.port.alive && (u, body) in s.port.inbox
      && forall m <- s.port.inbox :: !cfg.kind(m.1).Undecodable?
    ensures var s, t := After(run, cfg), After(run + [ReadMessages] + [Flush], cfg);
      && t.port.inbox == [] && t.delivered == s.delivered + s.port.inbox
      && t.commands == [] && s.dispatched <= t.dispatched
      && (cfg.kind(body).Registered? && (u in s.clientsConnected || cfg.kind(body).authentication) ==>
            && Command(u, body, |run|) in t.dispatched
            && (cfg.kind(body).login ==> u in t.logins))
  {
    var s := After(run, cfg);
    AfterTwo(run, ReadMessages, Flush, cfg);
    ClockCountsSteps(run, cfg);
    var c := Command(u, body, |run|);
    GateIff(s.port.inbox, s.clientsConnected, s.clock, cfg, c);
    var commands := s.commands + ReadBatch(s.port.inbox, s.clientsConnected, s.clock, cfg);
    LoginsIff(commands, cfg, u);
    assert c in commands && cfg.kind(body).Registered? && cfg.kind(body).login ==> IsLogin(c, u, cfg);
  }

  // ---------- logins are worked off in order ----------

  /** How many logins of a run have been handled. */
  function Handled(run: seq<Action>, cfg: Config): nat {
    if run == [] then 0
    else
      var s := After(run[..|run| - 1], cfg);
      Handled(run[..|run| - 1], cfg)
      + Flag(run[|run| - 1].Login? && s.notifying.None? && s.port.alive && s.logins != [])
  }

  /** What still waits for authentication are the logins dispatched so far without those handled: first in, first out,
      and whether it is granted or not, each is handled once. */
  lemma {:induction false} LoginsFirstInFirstOut(run: seq<Action>, cfg: Config)
    ensures var s := After(run, cfg);
      Handled(run, cfg) <= |Logins(s.dispatched, cfg)| && s.logins == Logins(s.dispatched, cfg)[Handled(run, cfg)..]
    decreases |run|
  {
    if run == [] {
    } else {
      var s, a := After(run[..|run| - 1], cfg), run[|run| - 1];
      LoginsFirstInFirstOut(run[..|run| - 1], cfg);
      LoginsAppend(s.dispatched, s.commands, cfg);
      StepWorksOff(s, a, cfg);
      SuffixGrows(Logins(s.dispatched, cfg), Logins(s.commands, cfg), Handled(run[..|run| - 1], cfg));
    }
  }

  lemma SuffixGrows(all: seq<Uuid>, more: seq<Uuid>, k: nat)
    requires k <= |all|
    ensures all[k..] + more == (all + more)[k..]
    ensures k < |all| ==> all[k..][1..] == all[k + 1..]
  {
  }

  lemma StepWorksOff(s: Server, a: Action, cfg: Config)
    ensures var t := Step(s, a, cfg);
      if s.notifying.None? && s.port.alive && a == Flush
      then t.dispatched == s.dispatched + s.commands && t.logins == s.logins + Logins(s.commands, cfg)
      else && t.dispatched == s.dispatched
           && t.logins == (if s.notifying.None? && s.port.alive && a.Login? && s.logins != [] then s.logins[1..]
                           else s.logins)
  {
  }

  /** Dropping the port between two calls ends the server. */
  lemma DroppedIsDead(run: seq<Action>, more: seq<Action>, cfg: Config)
    requires After(run, cfg).notifying.None?
    ensures var s, t := After(run, cfg), After(run + [DropPort] + more, cfg);
      !t.port.alive && t.dispatched == s.dispatched && t.clientsConnected == s.clientsConnected
  {
    assert (run + [DropPort])[..|run|] == run;
    DeadForever(run + [DropPort], more, cfg);
  }
}
