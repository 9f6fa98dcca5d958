/** Any number of writer tasks on one stream. Each message has its own task; the tasks compete for the lock of the
    write half and hand bytes to the network one at a time. */
module Writers {
  import opened Basics
  import opened Bytes
  import opened FrameStream

  type TaskId = nat

  /** left is what the task still has to write of its frame. */
  datatype Writer = Waiting(body: Body) | Writing(body: Body, left: seq<Byte>) | Done(body: Body) | Failed(body: Body)

  /** broken: the connection is lost for good. Histories: spawned, order (the tasks as they got the lock) and finished
      (the tasks as they completed). */
  datatype Stream = Stream(writers: map<TaskId, Writer>, lock: Option<TaskId>, wire: seq<Byte>, broken: bool,
                           spawned: seq<TaskId>, order: seq<TaskId>, finished: seq<TaskId>)

  const INIT: Stream := Stream(map[], None, [], false, [], [], [])

  datatype Action = Spawn(id: TaskId, body: Body) | Break | Run(id: TaskId)

  function Step(s: Stream, a: Action, codec: Codec): Stream {
    match a
    case Spawn(id, body) =>
      if id in s.writers then s
      else s.(writers := s.writers[id := Waiting(body)], spawned := s.spawned + [id])
    case Break => s.(broken := true)
    case Run(id) => if id in s.writers then RunWriter(s, id, codec) else s
  }

  /** One atomic step of a writer task: taking the lock, handing over one byte, failing on a lost connection, or
      finishing and giving the lock back. */
  function RunWriter(s: Stream, id: TaskId, codec: Codec): Stream
    requires id in s.writers
  {
    match s.writers[id]
    case Waiting(body) =>
      if s.lock.Some? then s
      else s.(lock := Some(id), order := s.order + [id],
              writers := s.writers[id := Writing(body, FrameBytes(body, codec))])
    case Writing(body, left) =>
      if left == [] then
        s.(lock := None, finished := s.finished + [id], writers := s.writers[id := Done(body)])
      else if s.broken then
        s.(lock := None, writers := s.writers[id := Failed(body)])
      else
        s.(wire := s.wire + [left[0]], writers := s.writers[id := Writing(body, left[1..])])
    case Done(_) => s
    case Failed(_) => s
  }

  function After(run: seq<Action>, codec: Codec): Stream {
    if run == [] then INIT else Step(After(run[..|run| - 1], codec), run[|run| - 1], codec)
  }

  // ---------- messages of a list of tasks ----------

  ghost predicate Known(s: Stream, ids: seq<TaskId>) {
    forall id <- ids :: id in s.writers
  }

  function BodiesOf(s: Stream, ids: seq<TaskId>): (bodies: seq<Body>)
    requires Known(s, ids)
    ensures |bodies| == |ids|
  {
    if ids == [] then [] else [s.writers[ids[0]].body] + BodiesOf(s, ids[1..])
  }

  lemma {:induction false} BodiesOfAppend(s: Stream, a: seq<TaskId>, b: seq<TaskId>)
    requires Known(s, a) && Known(s, b)
    ensures Known(s, a + b) && BodiesOf(s, a + b) == BodiesOf(s, a) + BodiesOf(s, b)
  {
    if a == [] {
      assert a + b == b;
    } else {
      assert (a + b)[1..] == a[1..] + b;
      BodiesOfAppend(s, a[1..], b);
    }
  }

  lemma {:induction false} BodiesOfSame(s: Stream, t: Stream, ids: seq<TaskId>)
    requires Known(s, ids) && (forall id <- ids :: id in t.writers && t.writers[id].body == s.writers[id].body)
    ensures Known(t, ids) && BodiesOf(t, ids) == BodiesOf(s, ids)
  {
    if ids == [] {
    } else {
      assert forall id <- ids[1..] :: id in ids;
      BodiesOfSame(s, t, ids[1..]);
    }
  }

  ghost predicate Distinct(ids: seq<TaskId>) {
    forall i, j :: 0 <= i < j < |ids| ==> ids[i] != ids[j]
  }

  lemma BodiesOfCons(s: Stream, id: TaskId, ids: seq<TaskId>)
    requires Known(s, ids) && id in s.writers
    ensures Known(s, [id] + ids) && BodiesOf(s, [id] + ids) == [s.writers[id].body] + BodiesOf(s, ids)
  {
    assert ([id] + ids)[1..] == ids;
  }

  lemma MultisetInsert(a: seq<Body>, x: Body, b: seq<Body>)
    ensures multiset(a + ([x] + b)) == multiset{x} + multiset(a + b)
  {
  }

  lemma WithoutOne(s: Stream, ids: seq<TaskId>, k: nat)
    requires Known(s, ids) && k < |ids|
    ensures Known(s, Without(ids, k))
    ensures multiset(BodiesOf(s, ids)) == multiset{s.writers[ids[k]].body} + multiset(BodiesOf(s, Without(ids, k)))
  {
    var a, b := ids[..k], ids[k + 1..];
    assert ids == a + ([ids[k]] + b);
    BodiesOfAppend(s, a, [ids[k]] + b);
    BodiesOfAppend(s, a, b);
    BodiesOfCons(s, ids[k], b);
    MultisetInsert(BodiesOf(s, a), s.writers[ids[k]].body, BodiesOf(s, b));
  }

  lemma WithoutMembers(ids: seq<TaskId>, k: nat, id: TaskId)
    requires Distinct(ids) && k < |ids|
    ensures id in Without(ids, k) <==> id in ids && id != ids[k]
    ensures Distinct(Without(ids, k))
  {
    if id in ids && id != ids[k] {
      var j :| 0 <= j < |ids| && ids[j] == id;
      assert Without(ids, k)[if j < k then j else j - 1] == id;
    }
  }

  lemma Members(ids: seq<TaskId>)
    ensures ids != [] ==> ids[0] in ids
  {
  }

  lemma NextIsNotBefore(a: seq<TaskId>, b: seq<TaskId>)
    requires a <= b && Distinct(b)
    ensures |a| < |b| ==> b[|a|] in b && b[|a|] !in a
  {
  }

  /** Two lists of the same distinct tasks carry the same messages, each as often. */
  lemma {:induction false} SameTasksSameMessages(s: Stream, a: seq<TaskId>, b: seq<TaskId>)
    requires Known(s, a) && Known(s, b) && Distinct(a) && Distinct(b)
    requires forall id :: id in a <==> id in b
    ensures multiset(BodiesOf(s, a)) == multiset(BodiesOf(s, b))
    decreases |a|
  {
    if a == [] {
      Members(b);
    } else {
      assert a[0] in b;
      var k :| 0 <= k < |b| && b[k] == a[0];
      WithoutOne(s, a, 0);
      WithoutOne(s, b, k);
      forall id
        ensures id in Without(a, 0) <==> id in Without(b, k)
      {
        WithoutMembers(a, 0, id);
        WithoutMembers(b, k, id);
      }
      WithoutMembers(a, 0, a[0]);
      WithoutMembers(b, k, a[0]);
      SameTasksSameMessages(s, Without(a, 0), Without(b, k));
    }
  }

  // ---------- what every step keeps ----------

  /** Who has had the lock, who has it, and who is done. */
  ghost predicate Turns(s: Stream) {
    && Distinct(s.spawned) && Distinct(s.order)
    && (forall id :: id in s.spawned <==> id in s.writers)
    && (forall id :: id in s.order <==> id in s.writers && !s.writers[id].Waiting?)
    && s.finished <= s.order
    && (forall id <- s.writers :: s.writers[id].Done? <==> id in s.finished)
    && (s.lock.Some? ==> |s.order| > |s.finished| && s.order[|s.order| - 1] == s.lock.value)
    && (forall id <- s.writers :: s.writers[id].Writing? <==> s.lock == Some(id))
  }

  /** Some task that had the lock gave it back without finishing. */
  ghost predicate SomeFailed(s: Stream) {
    |s.order| > |s.finished| + (if s.lock.Some? then 1 else 0)
  }

  /** The part of the wire behind the finished frames is the beginning of the frame of the task next in lock order;
      after a failure nothing is added to it. */
  ghost predicate WireFits(s: Stream, partial: seq<Byte>, codec: Codec)
    requires Turns(s)
  {
    && s.wire == Wire(BodiesOf(s, s.finished), codec) + partial
    && (|s.order| == |s.finished| ==> partial == [])
    && (|s.order| > |s.finished| ==> partial <= FrameBytes(s.writers[s.order[|s.finished|]].body, codec))
    && (SomeFailed(s) ==> s.broken)
    && (s.lock.Some? ==>
          var writer := s.writers[s.lock.value];
          if SomeFailed(s) then writer.left == FrameBytes(writer.body, codec)
          else partial + writer.left == FrameBytes(writer.body, codec))
  }

  ghost predicate Inv(s: Stream, codec: Codec) {
    Turns(s) && exists partial :: WireFits(s, partial, codec)
  }

  lemma StepKeepsTurns(s: Stream, a: Action, codec: Codec)
    requires Turns(s)
    requires a.Run? && a.id in s.writers && s.writers[a.id].Writing? && s.writers[a.id].left == [] ==>
      |s.order| == |s.finished| + 1
    ensures Turns(Step(s, a, codec))
  {
    if a.Run? && a.id in s.writers { RunKeepsTurns(s, a.id, codec); }
  }

  lemma RunKeepsTurns(s: Stream, id: TaskId, codec: Codec)
    requires Turns(s) && id in s.writers
    requires s.writers[id].Writing? && s.writers[id].left == [] ==> |s.order| == |s.finished| + 1
    ensures Turns(RunWriter(s, id, codec))
  {
    var writer := s.writers[id];
    if writer.Waiting? {
      AcquireKeepsTurns(s, id, codec);
    } else if writer.Writing? {
      if writer.left == [] { FinishKeepsTurns(s, id, codec); } else { WriteKeepsTurns(s, id, codec); }
    }
  }

  lemma AcquireKeepsTurns(s: Stream, id: TaskId, codec: Codec)
    requires Turns(s) && id in s.writers && s.writers[id].Waiting?
    ensures Turns(RunWriter(s, id, codec))
  {
  }

  lemma FinishKeepsTurns(s: Stream, id: TaskId, codec: Codec)
    requires Turns(s) && id in s.writers && s.writers[id].Writing? && s.writers[id].left == []
    requires |s.order| == |s.finished| + 1
    ensures Turns(RunWriter(s, id, codec))
  {
    assert s.order == s.finished + [id];
  }

  lemma WriteKeepsTurns(s: Stream, id: TaskId, codec: Codec)
    requires Turns(s) && id in s.writers && s.writers[id].Writing? && s.writers[id].left != []
    ensures Turns(RunWriter(s, id, codec))
  {
  }

  /** While a task writes its last byte and gives the lock back, nobody before it has failed. */
  lemma FinisherIsNext(s: Stream, id: TaskId, partial: seq<Byte>, codec: Codec)
    requires codec.Valid() && Turns(s) && WireFits(s, partial, codec)
    requires id in s.writers && s.writers[id].Writing? && s.writers[id].left == []
    ensures |s.order| == |s.finished| + 1
  {
    assert |FrameBytes(s.writers[id].body, codec)| >= 1;
  }

  lemma RunKeepsWire(s: Stream, id: TaskId, partial: seq<Byte>, codec: Codec) returns (partial': seq<Byte>)
    requires codec.Valid() && Turns(s) && WireFits(s, partial, codec) && id in s.writers
    requires Turns(RunWriter(s, id, codec))
    ensures WireFits(RunWriter(s, id, codec), partial', codec)
  {
    var writer := s.writers[id];
    if writer.Writing? && writer.left == [] {
      FinisherIsNext(s, id, partial, codec);
      FinishKeepsWire(s, id, partial, codec);
      partial' := [];
    } else if writer.Writing? && !s.broken {
      ByteKeepsWire(s, id, partial, codec);
      partial' := partial + [writer.left[0]];
    } else {
      NothingWritten(s, id, partial, codec);
      partial' := partial;
    }
  }

  /** Taking the lock, and failing on a lost connection, adds nothing to the wire. */
  lemma NothingWritten(s: Stream, id: TaskId, partial: seq<Byte>, codec: Codec)
    requires codec.Valid() && Turns(s) && WireFits(s, partial, codec) && id in s.writers
    requires s.writers[id].Writing? ==> s.writers[id].left != [] && s.broken
    requires Turns(RunWriter(s, id, codec))
    ensures WireFits(RunWriter(s, id, codec), partial, codec)
  {
    if s.writers[id].Waiting? {
      AcquiringKeepsWire(s, id, partial, codec);
    } else if s.writers[id].Writing? {
      FailingKeepsWire(s, id, partial, codec);
    }
  }

  lemma AcquiringKeepsWire(s: Stream, id: TaskId, partial: seq<Byte>, codec: Codec)
    requires Turns(s) && WireFits(s, partial, codec) && id in s.writers && s.writers[id].Waiting?
    requires Turns(RunWriter(s, id, codec))
    ensures WireFits(RunWriter(s, id, codec), partial, codec)
  {
    BodiesOfSame(s, RunWriter(s, id, codec), s.finished);
  }

  lemma FailingKeepsWire(s: Stream, id: TaskId, partial: seq<Byte>, codec: Codec)
    requires Turns(s) && WireFits(s, partial, codec) && id in s.writers
    requires s.writers[id].Writing? && s.writers[id].left != [] && s.broken && Turns(RunWriter(s, id, codec))
    ensures WireFits(RunWriter(s, id, codec), partial, codec)
  {
    BodiesOfSame(s, RunWriter(s, id, codec), s.finished);
  }

  lemma ByteKeepsWire(s: Stream, id: TaskId, partial: seq<Byte>, codec: Codec)
    requires codec.Valid() && Turns(s) && WireFits(s, partial, codec)
    requires id in s.writers && s.writers[id].Writing? && s.writers[id].left != [] && !s.broken
    requires Turns(RunWriter(s, id, codec))
    ensures WireFits(RunWriter(s, id, codec), partial + [s.writers[id].left[0]], codec)
  {
    BodiesOfSame(s, RunWriter(s, id, codec), s.finished);
    assert partial + [s.writers[id].left[0]] + s.writers[id].left[1..] == partial + s.writers[id].left;
  }

  lemma FinishKeepsWire(s: Stream, id: TaskId, partial: seq<Byte>, codec: Codec)
    requires codec.Valid() && Turns(s) && WireFits(s, partial, codec)
    requires id in s.writers && s.writers[id].Writing? && s.writers[id].left == []
    requires |s.order| == |s.finished| + 1 && Turns(RunWriter(s, id, codec))
    ensures WireFits(RunWriter(s, id, codec), [], codec)
  {
    var t := RunWriter(s, id, codec);
    BodiesOfSame(s, t, s.finished);
    BodiesOfAppend(t, s.finished, [id]);
    WireAppend(BodiesOf(t, s.finished), t.writers[id].body, codec);
    assert BodiesOf(t, [id]) == [t.writers[id].body];
    assert partial == FrameBytes(s.writers[id].body, codec);
  }

  lemma StepKeepsInv(s: Stream, a: Action, codec: Codec)
    requires codec.Valid() && Inv(s, codec)
    ensures Inv(Step(s, a, codec), codec)
  {
    var partial :| WireFits(s, partial, codec);
    if a.Run? && a.id in s.writers {
      RunKeepsInv(s, a.id, partial, codec);
    } else {
      OthersKeepWire(s, a, partial, codec);
    }
  }

  lemma OthersKeepWire(s: Stream, a: Action, partial: seq<Byte>, codec: Codec)
    requires Turns(s) && WireFits(s, partial, codec) && !(a.Run? && a.id in s.writers)
    ensures Turns(Step(s, a, codec)) && WireFits(Step(s, a, codec), partial, codec)
  {
    StepKeepsTurns(s, a, codec);
    BodiesOfSame(s, Step(s, a, codec), s.finished);
  }

  lemma RunKeepsInv(s: Stream, id: TaskId, partial: seq<Byte>, codec: Codec)
    requires codec.Valid() && Turns(s) && WireFits(s, partial, codec) && id in s.writers
    ensures Inv(RunWriter(s, id, codec), codec)
  {
    if s.writers[id].Writing? && s.writers[id].left == [] {
      FinisherIsNext(s, id, partial, codec);
    }
    RunKeepsTurns(s, id, codec);
    var partial' := RunKeepsWire(s, id, partial, codec);
  }

  lemma {:induction false} RunsKeepInv(run: seq<Action>, codec: Codec)
    requires codec.Valid()
    ensures Inv(After(run, codec), codec)
    decreases |run|
  {
    if run == [] {
      assert WireFits(INIT, [], codec);
    } else {
      RunsKeepInv(run[..|run| - 1], codec);
      StepKeepsInv(After(run[..|run| - 1], codec), run[|run| - 1], codec);
    }
  }

  // ---------- results ----------

  /** However the tasks are interleaved, the wire is whole frames in the order in which their tasks got the lock,
      then at most the beginning of the next task's frame. */
  lemma WholeFramesInLockOrder(run: seq<Action>, codec: Codec) returns (partial: seq<Byte>)
    requires codec.Valid()
    ensures var s := After(run, codec);
      && Known(s, s.order) && s.finished <= s.order && Known(s, s.finished)
      && s.wire == Wire(BodiesOf(s, s.finished), codec) + partial
      && (partial != [] ==>
            |s.order| > |s.finished| && partial <= FrameBytes(s.writers[s.order[|s.finished|]].body, codec))
  {
    RunsKeepInv(run, codec);
    partial :| WireFits(After(run, codec), partial, codec);
  }

  ghost predicate AllDone(s: Stream) {
    forall id <- s.writers :: s.writers[id].Done?
  }

  lemma AllFinished(s: Stream)
    requires Turns(s) && AllDone(s)
    ensures s.finished == s.order
    ensures forall id :: id in s.order <==> id in s.spawned
  {
    assert forall id <- s.order :: id in s.writers && s.writers[id].Done?;
    NextIsNotBefore(s.finished, s.order);
  }

  /** Once all tasks are done, what the peer decodes is a permutation of the messages sent, each exactly once, if the
      header carries their lengths. */
  lemma AllSentArriveOnce(run: seq<Action>, codec: Codec)
    requires codec.Valid()
    requires AllDone(After(run, codec))
    ensures var s := After(run, codec);
      && Known(s, s.order) && Known(s, s.spawned)
      && s.wire == Wire(BodiesOf(s, s.order), codec)
      && multiset(BodiesOf(s, s.order)) == multiset(BodiesOf(s, s.spawned))
      && (AllCarried(BodiesOf(s, s.order), codec) ==> Items(s.wire, codec) == Frames(BodiesOf(s, s.order)))
  {
    var s := After(run, codec);
    RunsKeepInv(run, codec);
    var partial :| WireFits(s, partial, codec);
    AllFinished(s);
    assert s.wire == Wire(BodiesOf(s, s.order), codec);
    SameTasksSameMessages(s, s.order, s.spawned);
    FramesRoundTrip(BodiesOf(s, s.order), codec);
  }

  /** At any moment, whatever part of the wire the peer has received decodes to frames of messages in lock order. */
  lemma ReceivedDecodes(run: seq<Action>, codec: Codec, received: seq<Byte>)
    requires codec.Valid() && received <= After(run, codec).wire
    requires var s := After(run, codec); Known(s, s.order) && AllCarried(BodiesOf(s, s.order), codec)
    ensures var s := After(run, codec); Items(received, codec) <= Frames(BodiesOf(s, s.order))
  {
    var s := After(run, codec);
    RunsKeepInv(run, codec);
    var partial :| WireFits(s, partial, codec);
    var bodies := BodiesOf(s, s.order);
    WireIsBeginning(s, partial, codec);
    FramesRoundTrip(bodies, codec);
    PrefixDecodesToPrefix(received, Wire(bodies, codec), codec);
  }

  lemma ReceivedIsInLockOrder(run: seq<Action>, codec: Codec, received: seq<Byte>)
    requires codec.Valid() && received <= After(run, codec).wire
    requires var s := After(run, codec); Known(s, s.order) && AllCarried(BodiesOf(s, s.order), codec)
    ensures var s := After(run, codec); Bodies(Items(received, codec)) <= BodiesOf(s, s.order)
  {
    var bodies := BodiesOf(After(run, codec), After(run, codec).order);
    var items := Items(received, codec);
    ReceivedDecodes(run, codec, received);
    assert Frames(bodies) == items + Frames(bodies)[|items|..];
    BodiesAppend(items, Frames(bodies)[|items|..]);
    BodiesOfFrames(bodies);
  }

  lemma WireIsBeginning(s: Stream, partial: seq<Byte>, codec: Codec)
    requires Turns(s) && WireFits(s, partial, codec) && Known(s, s.order)
    ensures s.wire <= Wire(BodiesOf(s, s.order), codec)
  {
    var k := |s.finished|;
    assert s.order == s.finished + s.order[k..];
    BodiesOfAppend(s, s.finished, s.order[k..]);
    var todo := BodiesOf(s, s.order[k..]);
    WireConcat(BodiesOf(s, s.finished), todo, codec);
    if k < |s.order| {
      assert Wire(todo, codec) == FrameBytes(todo[0], codec) + Wire(todo[1..], codec);
      assert partial <= Wire(todo, codec);
    }
  }

  lemma {:induction false} WireConcat(a: seq<Body>, b: seq<Body>, codec: Codec)
    ensures Wire(a + b, codec) == Wire(a, codec) + Wire(b, codec)
  {
    if a == [] {
      assert a + b == b;
    } else {
      assert (a + b)[1..] == a[1..] + b;
      WireConcat(a[1..], b, codec);
    }
  }
}
