/** The outgoing queue of the WASM client. Everything runs on one thread; a drain task gives way only while it awaits
    the sink, and it keeps the sink borrowed meanwhile. */
module WasmQueue {
  import opened Basics
  import opened Bytes

  type Message = seq<Byte>
  type SinkId = nat

  /** A drain task works for the sink that was current when it was spawned. */
  datatype Drainer = AtTop(sink: SinkId) | Sending(sink: SinkId, message: Message)

  datatype Outcome = Outcome(message: Message, sink: SinkId, written: bool)

  /** sending is sending_messages; borrowed holds the sinks mutably borrowed across an await; panicked records a
      borrow that collided. Histories: submitted, taken from the queue, and what became of what was taken. */
  datatype Queue = Queue(sending: bool, pending: seq<Message>, sink: Option<SinkId>, sinks: nat,
                         drainers: seq<Drainer>, borrowed: set<SinkId>, panicked: bool,
                         submitted: seq<Message>, taken: seq<Message>, outcomes: seq<Outcome>)

  const INIT: Queue := Queue(false, [], None, 0, [], {}, false, [], [], [])

  datatype Action =
    | SendMessage(message: Message)
    // check_connected_to_server splits a new socket; check_port_dropped forgets it
    | Attach | Detach
    // the i-th drain task runs to its await, or its await completes
    | Poll(i: nat) | Complete(i: nat, ok: bool)

  function Submit(q: Queue, m: Message): Queue {
    var r := q.(pending := q.pending + [m], submitted := q.submitted + [m]);
    if q.sink.None? || q.sending then r
    else r.(sending := true, drainers := q.drainers + [AtTop(q.sink.value)])
  }

  /** From the top of the drain loop to the await: the task ends on an empty queue. */
  function PollDrainer(q: Queue, i: nat): Queue
    requires i < |q.drainers| && q.drainers[i].AtTop?
  {
    var sink := q.drainers[i].sink;
    if q.pending == [] then q.(drainers := Without(q.drainers, i), sending := false)
    else if sink in q.borrowed then q.(panicked := true, drainers := Without(q.drainers, i))
    else q.(pending := q.pending[1..], taken := q.taken + [q.pending[0]], borrowed := q.borrowed + {sink},
            drainers := q.drainers[i := Sending(sink, q.pending[0])])
  }

  /** The await completes and the borrow ends; an error ends the task. */
  function CompleteSend(q: Queue, i: nat, ok: bool): Queue
    requires i < |q.drainers| && q.drainers[i].Sending?
  {
    var Sending(sink, message) := q.drainers[i];
    var r := q.(borrowed := q.borrowed - {sink}, outcomes := q.outcomes + [Outcome(message, sink, ok)]);
    if ok then r.(drainers := q.drainers[i := AtTop(sink)])
    else r.(drainers := Without(q.drainers, i), sending := false)
  }

  function Step(q: Queue, a: Action): Queue {
    match a
    case SendMessage(m) => Submit(q, m)
    case Attach => q.(sink := Some(q.sinks), sinks := q.sinks + 1)
    case Detach => q.(sink := None)
    case Poll(i) => if i < |q.drainers| && q.drainers[i].AtTop? then PollDrainer(q, i) else q
    case Complete(i, ok) => if i < |q.drainers| && q.drainers[i].Sending? then CompleteSend(q, i, ok) else q
  }

  function After(run: seq<Action>): Queue {
    if run == [] then INIT else Step(After(run[..|run| - 1]), run[|run| - 1])
  }

  // ---------- histories ----------

  function Messages(outcomes: seq<Outcome>): seq<Message> {
    if outcomes == [] then []
    else Messages(outcomes[..|outcomes| - 1]) + [outcomes[|outcomes| - 1].message]
  }

  function Written(outcomes: seq<Outcome>): seq<Message> {
    if outcomes == [] then []
    else
      var last := outcomes[|outcomes| - 1];
      Written(outcomes[..|outcomes| - 1]) + (if last.written then [last.message] else [])
  }

  function Errors(outcomes: seq<Outcome>): nat {
    if outcomes == [] then 0
    else Errors(outcomes[..|outcomes| - 1]) + (if outcomes[|outcomes| - 1].written then 0 else 1)
  }

  /** The message a drain task is waiting for the sink to take. */
  function InFlight(q: Queue): seq<Message> {
    if |q.drainers| == 1 && q.drainers[0].Sending? then [q.drainers[0].message] else []
  }

  // ---------- what every step keeps ----------

  ghost predicate Exclusive(q: Queue) {
    && |q.drainers| <= 1
    && (q.sending <==> |q.drainers| == 1)
    && q.borrowed == (if |q.drainers| == 1 && q.drainers[0].Sending? then {q.drainers[0].sink} else {})
    && !q.panicked
  }

  ghost predicate Conserved(q: Queue) {
    && q.submitted == q.taken + q.pending
    && q.taken == Messages(q.outcomes) + InFlight(q)
  }

  lemma StepKeepsExclusive(q: Queue, a: Action)
    requires Exclusive(q)
    ensures Exclusive(Step(q, a))
  {
  }

  lemma StepKeepsConserved(q: Queue, a: Action)
    requires Exclusive(q) && Conserved(q)
    ensures Conserved(Step(q, a))
  {
    match a
    case SendMessage(m) => assert q.taken + (q.pending + [m]) == q.taken + q.pending + [m];
    case Poll(i) => if i < |q.drainers| && q.drainers[i].AtTop? && q.pending != [] { TakingConserves(q); }
    case Complete(i, ok) => if i < |q.drainers| && q.drainers[i].Sending? { CompletingConserves(q, ok); }
    case _ =>
  }

  lemma TakingConserves(q: Queue)
    requires Exclusive(q) && Conserved(q) && |q.drainers| == 1 && q.drainers[0].AtTop? && q.pending != []
    ensures Conserved(PollDrainer(q, 0))
  {
    assert q.taken + [q.pending[0]] + q.pending[1..] == q.taken + q.pending;
  }

  lemma CompletingConserves(q: Queue, ok: bool)
    requires Exclusive(q) && Conserved(q) && |q.drainers| == 1 && q.drainers[0].Sending?
    ensures Conserved(CompleteSend(q, 0, ok))
  {
    var r := CompleteSend(q, 0, ok);
    assert r.outcomes[..|r.outcomes| - 1] == q.outcomes;
  }

  lemma {:induction false} RunsKeepInv(run: seq<Action>)
    ensures Exclusive(After(run)) && Conserved(After(run))
    decreases |run|
  {
    if run == [] {
    } else {
      RunsKeepInv(run[..|run| - 1]);
      StepKeepsExclusive(After(run[..|run| - 1]), run[|run| - 1]);
      StepKeepsConserved(After(run[..|run| - 1]), run[|run| - 1]);
    }
  }

  // ---------- results ----------

  /** The flag is up exactly while there is a drain task, there is never a second one, and no borrow of a sink ever
      collides, although the borrow lasts across an await. */
  lemma OneDrainer(run: seq<Action>)
    ensures var q := After(run);
      && |q.drainers| <= 1
      && (q.sending <==> |q.drainers| == 1)
      && !q.panicked
      && (forall i :: 0 <= i < |q.drainers| && q.drainers[i].AtTop? ==> q.drainers[i].sink !in q.borrowed)
  {
    RunsKeepInv(run);
  }

  /** Across sinks coming and going: what was submitted is, in order, what the sinks were given, then the one message
      in flight if any, then what is still queued. */
  lemma QueueConservation(run: seq<Action>)
    ensures var q := After(run);
      && q.submitted == Messages(q.outcomes) + InFlight(q) + q.pending
      && q.taken == Messages(q.outcomes) + InFlight(q)
      && |InFlight(q)| <= 1
      && |q.submitted| == |Written(q.outcomes)| + Errors(q.outcomes) + |InFlight(q)| + |q.pending|
      && (Errors(q.outcomes) == 0 ==> q.submitted == Written(q.outcomes) + InFlight(q) + q.pending)
  {
    RunsKeepInv(run);
    EachErrorLosesOne(After(run).outcomes);
  }

  /** Every outcome is a message written or a message lost, and only errors lose any. */
  lemma {:induction false} EachErrorLosesOne(outcomes: seq<Outcome>)
    ensures |Messages(outcomes)| == |Written(outcomes)| + Errors(outcomes)
    ensures Errors(outcomes) == 0 <==> Written(outcomes) == Messages(outcomes)
    decreases |outcomes|
  {
    if outcomes == [] {
    } else {
      EachErrorLosesOne(outcomes[..|outcomes| - 1]);
    }
  }

  /** After an error the rest of the queue waits for the next send_message with a sink; then the oldest message goes
      out first, to the sink that is current. */
  lemma BacklogResumesInOrder(run: seq<Action>, m: Message)
    requires var q := After(run); !q.sending && q.sink.Some?
    ensures var q, r := After(run), Step(Submit(After(run), m), Poll(0));
      && r.drainers == [Sending(q.sink.value, (q.pending + [m])[0])]
      && r.pending == (q.pending + [m])[1..]
      && !r.panicked
  {
    RunsKeepInv(run);
  }

  /** Messages are queued, and no task is there to send them. */
  ghost predicate Stranded(q: Queue) {
    q.pending != [] && !q.sending
  }

  /** The queue gets stranded by exactly two kinds of steps: a message sent without a sink when nothing is being sent,
      and an error of the sink while others are queued. Only a message sent with a sink gets it going again; a new sink
      alone does not. */
  lemma StrandedBy(run: seq<Action>, a: Action)
    ensures var q, r := After(run), After(run + [a]);
      if Stranded(q) then !Stranded(r) <==> a.SendMessage? && q.sink.Some?
      else Stranded(r) <==>
        || (a.SendMessage? && q.sink.None? && !q.sending)
        || (a.Complete? && !a.ok && a.i < |q.drainers| && q.drainers[a.i].Sending? && q.pending != [])
  {
    RunsKeepInv(run);
    assert (run + [a])[..|run|] == run;
  }

  // ---------- what one step does to what was taken ----------

  /** A message that was taken has exactly one outcome, the sink's own answer, at the sink its task was spawned for; a
      task keeps the sink that was current when it was spawned. */
  lemma OutcomesFollowAnswers(run: seq<Action>, a: Action)
    ensures var q, r := After(run), After(run + [a]);
      && r.outcomes == q.outcomes
           + (if a.Complete? && a.i < |q.drainers| && q.drainers[a.i].Sending?
              then [Outcome(q.drainers[a.i].message, q.drainers[a.i].sink, a.ok)] else [])
      && (q.drainers != [] && r.drainers != [] ==> r.drainers[0].sink == q.drainers[0].sink)
      && (q.drainers == [] && r.drainers != [] ==> a.SendMessage? && q.sink == Some(r.drainers[0].sink))
  {
    RunsKeepInv(run);
    assert (run + [a])[..|run|] == run;
  }

  /** How many answers of a run were errors. */
  function ErrorAnswers(run: seq<Action>): nat {
    if run == [] then 0
    else
      var q, a := After(run[..|run| - 1]), run[|run| - 1];
      ErrorAnswers(run[..|run| - 1])
      + Flag(a.Complete? && a.i < |q.drainers| && q.drainers[a.i].Sending? && !a.ok)
  }

  lemma ErrorsAppend(outcomes: seq<Outcome>, o: Outcome)
    ensures Errors(outcomes + [o]) == Errors(outcomes) + Flag(!o.written)
  {
    assert (outcomes + [o])[..|outcomes|] == outcomes;
  }

  lemma LostStep(run: seq<Action>, a: Action)
    ensures var q := After(run);
      Errors(After(run + [a]).outcomes)
        == Errors(q.outcomes) + Flag(a.Complete? && a.i < |q.drainers| && q.drainers[a.i].Sending? && !a.ok)
  {
    var q := After(run);
    OutcomesFollowAnswers(run, a);
    if a.Complete? && a.i < |q.drainers| && q.drainers[a.i].Sending? {
      ErrorsAppend(q.outcomes, Outcome(q.drainers[a.i].message, q.drainers[a.i].sink, a.ok));
    }
  }

  /** The messages lost are as many as the errors that the sinks answered. */
  lemma {:induction false} LostAreErrors(run: seq<Action>)
    ensures Errors(After(run).outcomes) == ErrorAnswers(run)
    decreases |run|
  {
    if run == [] {
    } else {
      LostAreErrors(run[..|run| - 1]);
      LostStep(run[..|run| - 1], run[|run| - 1]);
      LastBack(run);
    }
  }

  lemma LastBack(run: seq<Action>)
    requires run != []
    ensures run[..|run| - 1] + [run[|run| - 1]] == run
  {
  }

  lemma AfterSnoc(run: seq<Action>, a: Action)
    ensures After(run + [a]) == Step(After(run), a)
  {
    assert (run + [a])[..|run|] == run;
  }

  /** One message with a sink that takes it. */
  lemma OneIsWritten(run: seq<Action>, sink: SinkId)
    requires After(run).drainers == [AtTop(sink)] && After(run).pending != []
    ensures var q, r := After(run), After(run + [Poll(0)] + [Complete(0, true)]);
      && r.drainers == [AtTop(sink)] && r.pending == q.pending[1..]
      && r.outcomes == q.outcomes + [Outcome(q.pending[0], sink, true)]
      && Written(r.outcomes) == Written(q.outcomes) + [q.pending[0]]
  {
    RunsKeepInv(run);
    AfterSnoc(run, Poll(0));
    AfterSnoc(run + [Poll(0)], Complete(0, true));
    var q, r := After(run), After(run + [Poll(0)] + [Complete(0, true)]);
    assert r.outcomes[..|r.outcomes| - 1] == q.outcomes;
  }

  /** Everything that was queued has been written to the sink in order, and the task has ended. */
  ghost predicate Drained(q: Queue, r: Queue, sink: SinkId) {
    && r.pending == [] && r.drainers == [] && !r.sending
    && Written(r.outcomes) == Written(q.outcomes) + q.pending
    && q.outcomes <= r.outcomes
    && forall k :: |q.outcomes| <= k < |r.outcomes| ==> r.outcomes[k].sink == sink && r.outcomes[k].written
  }

  lemma OneMoreDrained(q: Queue, mid: Queue, r: Queue, sink: SinkId)
    requires q.pending != [] && mid.pending == q.pending[1..]
    requires mid.outcomes == q.outcomes + [Outcome(q.pending[0], sink, true)]
    requires Written(mid.outcomes) == Written(q.outcomes) + [q.pending[0]]
    requires Drained(mid, r, sink)
    ensures Drained(q, r, sink)
  {
    assert [q.pending[0]] + q.pending[1..] == q.pending;
  }

  /** A drain task whose sink takes everything writes the whole queue in order, to its own sink, and ends. */
  lemma {:induction false} DrainerFinishes(run: seq<Action>, sink: SinkId) returns (end: seq<Action>)
    requires After(run).drainers == [AtTop(sink)]
    ensures run <= end && Drained(After(run), After(end), sink)
    decreases |After(run).pending|
  {
    if After(run).pending == [] {
      end := run + [Poll(0)];
      AfterSnoc(run, Poll(0));
    } else {
      var next := run + [Poll(0)] + [Complete(0, true)];
      OneIsWritten(run, sink);
      end := DrainerFinishes(next, sink);
      OneMoreDrained(After(run), After(next), After(end), sink);
    }
  }

  /** The way out: with a sink and nothing being sent, one more message gets everything queued written, in order, to the
      sink that is current, if the sink takes it. */
  lemma OneSendDrainsAll(run: seq<Action>, m: Message) returns (end: seq<Action>)
    requires After(run).sink.Some? && !After(run).sending
    ensures var q, r := After(run), After(end);
      && run + [SendMessage(m)] <= end
      && r.pending == [] && !r.sending && Written(r.outcomes) == Written(q.outcomes) + q.pending + [m]
      && forall k :: |q.outcomes| <= k < |r.outcomes| ==> r.outcomes[k].sink == q.sink.value
  {
    RunsKeepInv(run);
    AfterSnoc(run, SendMessage(m));
    end := DrainerFinishes(run + [SendMessage(m)], After(run).sink.value);
  }

  // ---------- sinks ----------

  /** Every sink in use has been attached. */
  ghost predicate SinksKnown(q: Queue) {
    && (q.sink.Some? ==> q.sink.value < q.sinks)
    && (forall d <- q.drainers :: d.sink < q.sinks)
    && (forall o <- q.outcomes :: o.sink < q.sinks)
  }

  lemma StepKeepsSinks(q: Queue, a: Action)
    requires Exclusive(q) && SinksKnown(q)
    ensures SinksKnown(Step(q, a))
  {
    assert q.drainers != [] ==> q.drainers[0] in q.drainers;
  }

  lemma {:induction false} RunsKeepSinks(run: seq<Action>)
    ensures SinksKnown(After(run))
    decreases |run|
  {
    if run == [] {
    } else {
      RunsKeepSinks(run[..|run| - 1]);
      RunsKeepInv(run[..|run| - 1]);
      StepKeepsSinks(After(run[..|run| - 1]), run[|run| - 1]);
    }
  }

  /** A socket that is attached has a sink that no task or message has had before, and it is the one that later tasks
      get, until the port is dropped, after which there is none. */
  lemma NewSinkIsCurrent(run: seq<Action>)
    ensures var q, r := After(run), After(run + [Attach]);
      && r.sink.Some? && r.sink != q.sink
      && (forall d <- r.drainers :: d.sink != r.sink.value) && (forall o <- r.outcomes :: o.sink != r.sink.value)
      && r.drainers == q.drainers && r.pending == q.pending
    ensures After(run + [Detach]).sink.None? && After(run + [Detach]).drainers == After(run).drainers
  {
    RunsKeepSinks(run);
    AfterSnoc(run, Attach);
    AfterSnoc(run, Detach);
  }
}
