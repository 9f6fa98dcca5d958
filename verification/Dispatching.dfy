/** From the port's channel to the application: what one client's messages meet at the gate, over whole runs. */
module Dispatching {
  import opened Bytes
  import opened ServerClients
  import opened MessageGate
  import opened Handover

  lemma {:induction false} MessagesOfAppend(a: seq<(Uuid, seq<Byte>)>, b: seq<(Uuid, seq<Byte>)>, u: Uuid)
    ensures MessagesOf(a + b, u) == MessagesOf(a, u) + MessagesOf(b, u)
    decreases |b|
  {
    if b == [] {
      assert a + b == a;
    } else {
      var n := |b| - 1;
      assert (a + b)[..|a + b| - 1] == a + b[..n];
      MessagesOfAppend(a, b[..n], u);
    }
  }

  lemma MessagesOfCons(log: seq<(Uuid, seq<Byte>)>, u: Uuid)
    requires log != []
    ensures MessagesOf(log, u) == (if log[0].0 == u then [log[0].1] else []) + MessagesOf(log[1..], u)
  {
    assert log == [log[0]] + log[1..];
    assert MessagesOf([log[0]], u) == if log[0].0 == u then [log[0].1] else [];
    MessagesOfAppend([log[0]], log[1..], u);
  }

  // ---------- order ----------

  lemma {:induction false} SubsequenceTake<T>(a: seq<T>, n: nat, b: seq<T>)
    requires Subsequence(a, b) && n <= |a|
    ensures Subsequence(a[..n], b)
    decreases |b|
  {
    if n == 0 {
    } else {
      assert a[..n][1..] == a[1..][..n - 1];
      if a[0] == b[0] && Subsequence(a[1..], b[1..]) {
        SubsequenceTake(a[1..], n - 1, b[1..]);
      } else {
        SubsequenceTake(a, n, b[1..]);
      }
    }
  }

  lemma {:induction false} SubsequenceOfMessages(a: seq<(Uuid, seq<Byte>)>, b: seq<(Uuid, seq<Byte>)>, u: Uuid)
    requires Subsequence(a, b)
    ensures Subsequence(MessagesOf(a, u), MessagesOf(b, u))
    decreases |b|
  {
    if a == [] {
    } else {
      MessagesOfCons(a, u);
      MessagesOfCons(b, u);
      var head := if b[0].0 == u then [b[0].1] else [];
      assert MessagesOf(b, u) == head + MessagesOf(b[1..], u);
      if a[0] == b[0] && Subsequence(a[1..], b[1..]) {
        SubsequenceOfMessages(a[1..], b[1..], u);
        SubsequenceJoin(head, head, MessagesOf(a[1..], u), MessagesOf(b[1..], u));
      } else {
        SubsequenceOfMessages(a, b[1..], u);
        SubsequenceSkips(MessagesOf(a, u), head, MessagesOf(b[1..], u));
      }
    }
  }

  /** What is dispatched for a client is part of what the port delivered for it, in order and without repetition. */
  lemma DispatchedInOrder(run: seq<Action>, cfg: Config, u: Uuid)
    ensures var s := After(run, cfg); Subsequence(MessagesOf(Origins(s.dispatched), u), MessagesOf(s.delivered, u))
  {
    var s := After(run, cfg);
    DispatchKeepsOrder(run, cfg);
    OriginsAppend(s.dispatched, s.commands);
    var all := Origins(s.dispatched + s.commands);
    assert all[..|Origins(s.dispatched)|] == Origins(s.dispatched);
    SubsequenceTake(all, |Origins(s.dispatched)|, s.delivered);
    SubsequenceOfMessages(Origins(s.dispatched), s.delivered, u);
  }

  // ---------- completeness ----------

  /** Every message of the client's in the batch is of a registered type, and the client is connected or the message is
      for authentication. */
  ghost predicate Passing(batch: seq<(Uuid, seq<Byte>)>, connected: set<Uuid>, cfg: Config, u: Uuid) {
    forall m <- batch :: m.0 == u ==>
      cfg.kind(m.1).Registered? && (u in connected || cfg.kind(m.1).authentication)
  }

  /** The gate keeps all of a client's messages in a batch exactly when all of them pass. */
  lemma {:induction false} GateKeepsIff(batch: seq<(Uuid, seq<Byte>)>, connected: set<Uuid>, now: nat, cfg: Config,
                                        u: Uuid)
    ensures var kept, all := MessagesOf(Origins(Gate(batch, connected, now, cfg)), u), MessagesOf(batch, u);
      && |kept| <= |all|
      && (|kept| == |all| <==> Passing(batch, connected, cfg, u))
      && (Passing(batch, connected, cfg, u) ==> kept == all)
  {
    if batch == [] {
    } else {
      var (sender, body) := batch[0];
      var rest := Gate(batch[1..], connected, now, cfg);
      GateKeepsIff(batch[1..], connected, now, cfg, u);
      MessagesOfCons(batch, u);
      PassingCons(batch, connected, cfg, u);
      if Passes(sender, body, connected, cfg) {
        var gated := Gate(batch, connected, now, cfg);
        assert gated == [Command(sender, body, now)] + rest && gated[1..] == rest;
        MessagesOfCons(Origins(gated), u);
        assert Origins(gated)[1..] == Origins(rest);
      } else {
        assert Gate(batch, connected, now, cfg) == rest;
      }
    }
  }

  lemma PassingCons(batch: seq<(Uuid, seq<Byte>)>, connected: set<Uuid>, cfg: Config, u: Uuid)
    requires batch != []
    ensures Passing(batch, connected, cfg, u)
       <==> && (batch[0].0 == u ==>
                  cfg.kind(batch[0].1).Registered? && (u in connected || cfg.kind(batch[0].1).authentication))
            && Passing(batch[1..], connected, cfg, u)
  {
    assert forall m :: m in batch <==> m == batch[0] || m in batch[1..];
  }

  /** The read finds no message of the client's that does not pass, and none in a batch that panics it. */
  ghost predicate ReadPasses(s: Server, cfg: Config, u: Uuid) {
    forall m <- s.port.inbox :: m.0 == u ==>
      && cfg.kind(m.1).Registered? && (u in s.clientsConnected || cfg.kind(m.1).authentication)
      && forall other <- s.port.inbox :: !cfg.kind(other.1).Undecodable?
  }

  lemma {:induction false} NoMessagesIff(log: seq<(Uuid, seq<Byte>)>, u: Uuid)
    ensures MessagesOf(log, u) == [] <==> forall m <- log :: m.0 != u
  {
    if log == [] {
    } else {
      MessagesOfCons(log, u);
      NoMessagesIff(log[1..], u);
      assert forall m :: m in log <==> m == log[0] || m in log[1..];
    }
  }

  lemma ReadKeepsIff(s: Server, cfg: Config, u: Uuid)
    ensures var kept := MessagesOf(Origins(ReadBatch(s.port.inbox, s.clientsConnected, s.clock, cfg)), u);
      var all := MessagesOf(s.port.inbox, u);
      && |kept| <= |all|
      && (|kept| == |all| <==> ReadPasses(s, cfg, u))
      && (ReadPasses(s, cfg, u) ==> kept == all)
  {
    if Crashes(s.port.inbox, cfg) {
      NoMessagesIff(s.port.inbox, u);
    } else {
      GateKeepsIff(s.port.inbox, s.clientsConnected, s.clock, cfg, u);
    }
  }

  ghost predicate EveryReadPasses(run: seq<Action>, cfg: Config, u: Uuid)
    decreases |run|
  {
    run == [] ||
    var s := After(run[..|run| - 1], cfg);
    && EveryReadPasses(run[..|run| - 1], cfg, u)
    && (run[|run| - 1] == ReadMessages && s.notifying.None? && s.port.alive ==> ReadPasses(s, cfg, u))
  }

  /** All messages of a client that were taken from the port are dispatched, or queued for it, if and only if every
      read let every one of them pass; and then in the same order. */
  lemma {:induction false} AllDispatchedIff(run: seq<Action>, cfg: Config, u: Uuid)
    ensures var s := After(run, cfg);
      var out, all := MessagesOf(Origins(s.dispatched + s.commands), u), MessagesOf(s.delivered, u);
      && |out| <= |all|
      && (|out| == |all| <==> EveryReadPasses(run, cfg, u))
      && (out == all <==> EveryReadPasses(run, cfg, u))
    decreases |run|
  {
    if run == [] {
    } else {
      var s, a := After(run[..|run| - 1], cfg), run[|run| - 1];
      AllDispatchedIff(run[..|run| - 1], cfg, u);
      StepQueues(s, a, cfg);
      if a == ReadMessages && s.notifying.None? && s.port.alive {
        var more := ReadBatch(s.port.inbox, s.clientsConnected, s.clock, cfg);
        ReadKeepsIff(s, cfg, u);
        OriginsAppend(s.dispatched + s.commands, more);
        MessagesOfAppend(Origins(s.dispatched + s.commands), Origins(more), u);
        MessagesOfAppend(s.delivered, s.port.inbox, u);
      }
    }
  }
}
