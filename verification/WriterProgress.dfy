/** The writer tasks always come to an end: every task gets its turn, in whatever order they are scheduled, and on a
    connection that is not lost every message spawned is written. */
module WriterProgress {
  import opened Basics
  import opened FrameStream
  import opened Writers

  /** How many steps a task still has to make. */
  function WriterWork(writer: Writer, codec: Codec): nat {
    match writer
    case Waiting(body) => |FrameBytes(body, codec)| + 2
    case Writing(_, left) => |left| + 1
    case Done(_) => 0
    case Failed(_) => 0
  }

  function Work(s: Stream, ids: seq<TaskId>, codec: Codec): nat {
    if ids == [] then 0
    else (if ids[0] in s.writers then WriterWork(s.writers[ids[0]], codec) else 0) + Work(s, ids[1..], codec)
  }

  ghost predicate Ended(s: Stream) {
    forall id <- s.writers :: s.writers[id].Done? || s.writers[id].Failed?
  }

  // ---------- every real step uses up work ----------

  lemma {:induction false} OthersUnchanged(s: Stream, t: Stream, id: TaskId, ids: seq<TaskId>, codec: Codec)
    requires id !in ids && (forall v :: v != id ==> (v in s.writers <==> v in t.writers))
    requires forall v <- s.writers :: v != id ==> t.writers[v] == s.writers[v]
    ensures Work(t, ids, codec) == Work(s, ids, codec)
  {
    if ids == [] {
    } else {
      OthersUnchanged(s, t, id, ids[1..], codec);
    }
  }

  lemma {:induction false} OneChanges(s: Stream, t: Stream, id: TaskId, ids: seq<TaskId>, codec: Codec)
    requires id in s.writers && id in ids && Distinct(ids)
    requires id in t.writers && t.writers == s.writers[id := t.writers[id]]
    requires WriterWork(t.writers[id], codec) < WriterWork(s.writers[id], codec)
    ensures Work(t, ids, codec) < Work(s, ids, codec)
  {
    if ids == [] {
    } else if ids[0] == id {
      assert id !in ids[1..];
      OthersUnchanged(s, t, id, ids[1..], codec);
    } else {
      OneChanges(s, t, id, ids[1..], codec);
    }
  }

  lemma RunWorks(s: Stream, id: TaskId, codec: Codec)
    requires Turns(s)
    ensures var t := Step(s, Run(id), codec);
      && t.spawned == s.spawned && t.broken == s.broken
      && (t == s || Work(t, s.spawned, codec) < Work(s, s.spawned, codec))
  {
    if id in s.writers {
      OneWorks(s, id, codec);
      if RunWriter(s, id, codec) != s { OneChanges(s, RunWriter(s, id, codec), id, s.spawned, codec); }
    }
  }

  lemma OneWorks(s: Stream, id: TaskId, codec: Codec)
    requires id in s.writers
    ensures var t := RunWriter(s, id, codec);
      && id in t.writers && t.writers == s.writers[id := t.writers[id]]
      && (t == s || WriterWork(t.writers[id], codec) < WriterWork(s.writers[id], codec))
  {
    assert s.writers == s.writers[id := s.writers[id]];
  }

  // ---------- somebody can always go on ----------

  /** If the lock is free, a waiting task that is scheduled gets it, with its whole frame to write. */
  lemma LockIsTaken(run: seq<Action>, codec: Codec, id: TaskId)
    requires var s := After(run, codec); s.lock.None? && id in s.writers && s.writers[id].Waiting?
    ensures var s, t := After(run, codec), After(run + [Run(id)], codec);
      && t.lock == Some(id) && t.order == s.order + [id] && id in t.writers
      && t.writers[id] == Writing(s.writers[id].body, FrameBytes(s.writers[id].body, codec))
  {
    AfterSnoc(run, Run(id), codec);
  }

  lemma AfterSnoc(run: seq<Action>, a: Action, codec: Codec)
    ensures After(run + [a], codec) == Step(After(run, codec), a, codec)
  {
    assert (run + [a])[..|run|] == run;
  }

  lemma SomeoneGoesOn(s: Stream, codec: Codec) returns (id: TaskId)
    requires Turns(s) && !Ended(s)
    ensures id in s.writers && RunWriter(s, id, codec) != s
  {
    if s.lock.Some? {
      id := s.lock.value;
      assert id in s.order;
      var t := RunWriter(s, id, codec);
      assert t.writers[id] != s.writers[id] || t.wire != s.wire;
    } else {
      id :| id in s.writers && !s.writers[id].Done? && !s.writers[id].Failed?;
      assert RunWriter(s, id, codec).lock == Some(id);
    }
  }

  // ---------- runs of tasks ----------

  type TaskAction = a: Action | a.Run? witness Run(0)

  function RunAll(s: Stream, steps: seq<TaskAction>, codec: Codec): Stream
    decreases |steps|
  {
    if steps == [] then s else RunAll(Step(s, steps[0], codec), steps[1..], codec)
  }

  lemma {:induction false} RunAllIsARun(run: seq<Action>, steps: seq<TaskAction>, codec: Codec)
    ensures After(run + steps, codec) == RunAll(After(run, codec), steps, codec)
    decreases |steps|
  {
    if steps == [] {
      assert run + steps == run;
    } else {
      FirstApart(run, steps);
      AfterSnoc(run, steps[0], codec);
      RunAllIsARun(run + [steps[0]], steps[1..], codec);
    }
  }

  predicate AllReal(s: Stream, steps: seq<TaskAction>, codec: Codec)
    decreases |steps|
  {
    steps == [] || (Step(s, steps[0], codec) != s && AllReal(Step(s, steps[0], codec), steps[1..], codec))
  }

  lemma {:induction false} RealStepsWork(s: Stream, steps: seq<TaskAction>, codec: Codec)
    requires codec.Valid() && Inv(s, codec) && AllReal(s, steps, codec)
    ensures Work(RunAll(s, steps, codec), s.spawned, codec) + |steps| <= Work(s, s.spawned, codec)
    decreases |steps|
  {
    if steps == [] {
    } else {
      RunWorks(s, steps[0].id, codec);
      StepKeepsInv(s, steps[0], codec);
      RealStepsWork(Step(s, steps[0], codec), steps[1..], codec);
    }
  }

  /** In whatever order the tasks are scheduled, they make no more real steps than there is work. */
  lemma RealStepsAreBounded(run: seq<Action>, steps: seq<TaskAction>, codec: Codec)
    requires codec.Valid() && AllReal(After(run, codec), steps, codec)
    ensures var s := After(run, codec); |steps| <= Work(s, s.spawned, codec)
  {
    RunsKeepInv(run, codec);
    RealStepsWork(After(run, codec), steps, codec);
  }

  lemma OneRealStep(s: Stream, codec: Codec) returns (a: TaskAction)
    requires codec.Valid() && Inv(s, codec) && !Ended(s)
    ensures var t := Step(s, a, codec);
      && Inv(t, codec) && t.spawned == s.spawned && t.broken == s.broken
      && Work(t, t.spawned, codec) < Work(s, s.spawned, codec)
  {
    var id := SomeoneGoesOn(s, codec);
    a := Run(id);
    RunWorks(s, id, codec);
    StepKeepsInv(s, a, codec);
  }

  lemma {:induction false} EndWithin(s: Stream, codec: Codec, n: nat) returns (steps: seq<TaskAction>)
    requires codec.Valid() && Inv(s, codec) && Work(s, s.spawned, codec) <= n
    ensures Ended(RunAll(s, steps, codec)) && |steps| <= n
    ensures RunAll(s, steps, codec).spawned == s.spawned && RunAll(s, steps, codec).broken == s.broken
    decreases n
  {
    if Ended(s) {
      steps := [];
    } else {
      var a := OneRealStep(s, codec);
      var rest := EndWithin(Step(s, a, codec), codec, n - 1);
      steps := [a] + rest;
      assert steps[1..] == rest;
    }
  }

  /** Without a lost connection nobody has failed. */
  lemma NobodyFailed(s: Stream, codec: Codec)
    requires Inv(s, codec) && !s.broken && Ended(s)
    ensures AllDone(s)
  {
    var partial :| WireFits(s, partial, codec);
    forall id <- s.writers
      ensures s.writers[id].Done?
    {
      assert id in s.order;
      assert s.finished == s.order;
    }
  }

  // ---------- messages keep their bodies ----------

  lemma StepKeepsBodies(s: Stream, a: Action, codec: Codec, id: TaskId)
    requires id in s.writers
    ensures id in Step(s, a, codec).writers && Step(s, a, codec).writers[id].body == s.writers[id].body
  {
  }

  lemma {:induction false} RunAllKeepsBodies(s: Stream, steps: seq<TaskAction>, codec: Codec, id: TaskId)
    requires id in s.writers
    ensures id in RunAll(s, steps, codec).writers && RunAll(s, steps, codec).writers[id].body == s.writers[id].body
    decreases |steps|
  {
    if steps == [] {
    } else {
      StepKeepsBodies(s, steps[0], codec, id);
      RunAllKeepsBodies(Step(s, steps[0], codec), steps[1..], codec, id);
    }
  }

  /** From every reachable state the tasks alone come to an end, within the work there is. If the connection is not
      lost, every message spawned so far is then on the wire, whole, exactly once, and nothing else is. */
  lemma EveryTaskEnds(run: seq<Action>, codec: Codec) returns (steps: seq<TaskAction>)
    requires codec.Valid()
    ensures var s, t := After(run, codec), After(run + steps, codec);
      && |steps| <= Work(s, s.spawned, codec) && Ended(t)
      && (!s.broken ==>
            && AllDone(t) && Known(t, t.order) && Known(s, s.spawned)
            && t.wire == Wire(BodiesOf(t, t.order), codec)
            && multiset(BodiesOf(t, t.order)) == multiset(BodiesOf(s, s.spawned)))
  {
    var s := After(run, codec);
    RunsKeepInv(run, codec);
    steps := EndWithin(s, codec, Work(s, s.spawned, codec));
    RunAllIsARun(run, steps, codec);
    if !s.broken {
      RunsKeepInv(run + steps, codec);
      NobodyFailed(After(run + steps, codec), codec);
      AllSentArriveOnce(run + steps, codec);
      forall id <- s.spawned
        ensures id in After(run + steps, codec).writers
        ensures After(run + steps, codec).writers[id].body == s.writers[id].body
      {
        RunAllKeepsBodies(s, steps, codec, id);
      }
      BodiesOfSame(s, After(run + steps, codec), s.spawned);
    }
  }

  /** A new message is added to those the theorem speaks of. */
  lemma SpawnIsAdded(run: seq<Action>, codec: Codec, id: TaskId, body: Body)
    requires codec.Valid() && id !in After(run, codec).writers
    ensures var s, t := After(run, codec), After(run + [Spawn(id, body)], codec);
      && t.spawned == s.spawned + [id] && Known(s, s.spawned) && Known(t, t.spawned)
      && BodiesOf(t, t.spawned) == BodiesOf(s, s.spawned) + [body]
  {
    var s, t := After(run, codec), After(run + [Spawn(id, body)], codec);
    RunsKeepInv(run, codec);
    AfterSnoc(run, Spawn(id, body), codec);
    BodiesOfSame(s, t, s.spawned);
    BodiesOfAppend(t, s.spawned, [id]);
    assert BodiesOf(t, [id]) == [body];
  }

  /** Once the connection is lost, the wire stays as it is. */
  lemma {:induction false} LostWireIsFinal(run: seq<Action>, more: seq<Action>, codec: Codec)
    ensures var s, t := After(run + [Break], codec), After(run + [Break] + more, codec);
      t.broken && t.wire == After(run, codec).wire
    decreases |more|
  {
    AfterSnoc(run, Break, codec);
    if more == [] {
      assert run + [Break] + more == run + [Break];
    } else {
      var n := |more| - 1;
      LostWireIsFinal(run, more[..n], codec);
      AfterSnoc(run + [Break] + more[..n], more[n], codec);
      assert run + [Break] + more == run + [Break] + more[..n] + [more[n]];
    }
  }
}
