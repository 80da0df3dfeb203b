/** Properties of the multiplexer over whole runs: sequences of calls into
    its public surface, with the callbacks of every call collected in order. */
module MultiplexerRuns {
  import opened Frames
  import opened StreamIds
  import opened Multiplexer

  /** One call into the multiplexer. */
  datatype Op =
    | Inbound(frame: Frame)                                   // handle(frame)
    | Create(stream: StreamHandler, handleReady: int -> bool) // createStream(stream, type)
    | Register(handler: StreamHandler)                        // add(handler)
    | Unregister(handler: StreamHandler)                      // remove(handler)
    | Shutdown(cause: Option<string>)                         // close(error?)

  function Apply(m: Mux, op: Op): Step {
    match op
    case Inbound(f) => Handle(m, f)
    case Create(h, ready) => CreateStream(m, h, ready)
    case Register(h) => Step(Add(m, h), [])
    case Unregister(h) => Step(Remove(m, h), [])
    case Shutdown(cause) => Close(m, cause)
  }

  /** The calls in order; the events of each call follow those of the one
      before. */
  function Run(m: Mux, ops: seq<Op>): Step {
    RunWith(Apply, m, ops)
  }

  /** A run driven by any step function. */
  function RunWith(step: (Mux, Op) -> Step, m: Mux, ops: seq<Op>): Step
    decreases |ops|
  {
    if ops == [] then Step(m, [])
    else
      var first := step(m, ops[0]);
      var rest := RunWith(step, first.mux, ops[1..]);
      Step(rest.mux, first.events + rest.events)
  }

  predicate NoCloseOrReady(events: seq<Event>) {
    forall i :: 0 <= i < |events| ==> !events[i].OnClose? && !events[i].OnReady?
  }

  /** Once closed, a multiplexer stays closed, never allocates another
      identifier, never offers one to a ready callback and never notifies a
      stream of the close again, whatever is called afterwards. */
  lemma {:induction false} ClosedStaysQuiet(m: Mux, ops: seq<Op>)
    requires m.done
    ensures Run(m, ops).mux.done
    ensures Run(m, ops).mux.generator == m.generator
    ensures NoCloseOrReady(Run(m, ops).events)
    decreases |ops|
  {
    if ops != [] {
      var first := Apply(m, ops[0]);
      assert first.mux.done && first.mux.generator == m.generator;
      assert NoCloseOrReady(first.events);
      ClosedStaysQuiet(first.mux, ops[1..]);
    }
  }

  /** Close is idempotent over any run: the close notifications of a run
      that starts with a close are exactly those of that first close, one per
      stream registered at that moment; nothing that follows notifies any
      stream of the close again. */
  lemma CloseNotifiesOnce(m: Mux, cause: Option<string>, ops: seq<Op>)
    requires !m.done
    ensures Run(m, [Shutdown(cause)] + ops).events
         == Close(m, cause).events + Run(m.(done := true), ops).events
    ensures NoCloseOrReady(Run(m.(done := true), ops).events)
  {
    var ops' := [Shutdown(cause)] + ops;
    assert ops'[0] == Shutdown(cause) && ops'[1..] == ops;
    ClosedStaysQuiet(m.(done := true), ops);
  }

  /** The generator is ahead of the registry: no identifier of the
      generator's own parity is registered beyond the last one it committed,
      so the next candidate is free. */
  predicate OwnIdsAllocated(m: Mux) {
    forall k :: k in m.registry && k % 2 == m.generator.currentId % 2 ==> k <= m.generator.currentId
  }

  /** While the generator is ahead of the registry, createStream never
      replaces a live stream, and an accepted creation keeps it ahead. */
  lemma CreateStreamFresh(m: Mux, h: StreamHandler, handleReady: int -> bool)
    requires OwnIdsAllocated(m) && !m.done
    ensures Candidate(m.generator) !in m.registry
    ensures handleReady(Candidate(m.generator)) ==> OwnIdsAllocated(CreateStream(m, h, handleReady).mux)
  {
  }

  /** A declined creation leaves its entry behind at an identifier the
      generator will propose again: the next creation replaces it. */
  lemma DeclinedEntryIsReused(m: Mux, a: StreamHandler, readyA: int -> bool,
                              b: StreamHandler, readyB: int -> bool)
    requires !m.done && !readyA(Candidate(m.generator))
    ensures var s1 := CreateStream(m, a, readyA);
      var s2 := CreateStream(s1.mux, b, readyB);
      && s1.mux.registry[Candidate(m.generator)] == a
      && s2.events == [OnReady(b, Candidate(m.generator))]
      && s2.mux.registry[Candidate(m.generator)] == b
  {
  }

  /** The stale entry of a declined creation breaks the invariant until the
      declining stream removes itself, which restores it. */
  lemma DeclinedStreamMustRemoveItself(m: Mux, h: StreamHandler, handleReady: int -> bool)
    requires OwnIdsAllocated(m) && !m.done
    requires !handleReady(Candidate(m.generator))
    requires h.streamId == Candidate(m.generator)
    ensures !OwnIdsAllocated(CreateStream(m, h, handleReady).mux)
    ensures OwnIdsAllocated(Remove(CreateStream(m, h, handleReady).mux, h))
  {
    var id := Candidate(m.generator);
    var r := CreateStream(m, h, handleReady).mux;
    assert id in r.registry && id % 2 == r.generator.currentId % 2;
  }

  /** Calls that keep the generator ahead of the registry: creations whose
      streams always accept, and registrations of peer-assigned identifiers,
      which have the other parity. */
  ghost predicate Orderly(op: Op, parity: int) {
    match op
    case Create(_, ready) => forall id :: ready(id)
    case Register(h) => h.streamId % 2 != parity
    case _ => true
  }

  lemma ApplyKeepsOwnIdsAllocated(m: Mux, op: Op)
    requires OwnIdsAllocated(m) && Orderly(op, m.generator.currentId % 2)
    ensures OwnIdsAllocated(Apply(m, op).mux)
    ensures Apply(m, op).mux.generator.currentId % 2 == m.generator.currentId % 2
  {
    match op
    case Create(h, ready) =>
      if !m.done {
        CreateStreamFresh(m, h, ready);
      }
    case _ =>
  }

  /** Over an orderly run the generator stays ahead of the registry, so no
      creation in the run ever replaces a live stream. */
  lemma {:induction false} OrderlyRunKeepsOwnIdsAllocated(m: Mux, ops: seq<Op>)
    requires OwnIdsAllocated(m)
    requires forall i :: 0 <= i < |ops| ==> Orderly(ops[i], m.generator.currentId % 2)
    ensures OwnIdsAllocated(Run(m, ops).mux)
    ensures Run(m, ops).mux.generator.currentId % 2 == m.generator.currentId % 2
    decreases |ops|
  {
    if ops != [] {
      ApplyKeepsOwnIdsAllocated(m, ops[0]);
      var next := Apply(m, ops[0]).mux;
      forall i | 0 <= i < |ops[1..]| ensures Orderly(ops[1..][i], next.generator.currentId % 2) {
        assert ops[1..][i] == ops[i + 1];
      }
      OrderlyRunKeepsOwnIdsAllocated(next, ops[1..]);
    }
  }

  /** Registering a handler whose identifier was free and then removing it
      gives back the original state. */
  lemma AddRemoveRoundTrip(m: Mux, h: StreamHandler)
    requires h.streamId !in m.registry
    ensures Remove(Add(m, h), h) == m
  {
    assert Remove(Add(m, h), h).registry == m.registry;
  }

  /** Registering the same handler twice is the same as registering it once. */
  lemma AddIdempotent(m: Mux, h: StreamHandler)
    ensures Add(Add(m, h), h) == Add(m, h)
  {
  }

  /** A run of two call sequences is the second run from where the first
      one stopped, with the events of both in order. */
  lemma {:induction false} RunWithAppend(step: (Mux, Op) -> Step, m: Mux, a: seq<Op>, b: seq<Op>)
    ensures RunWith(step, m, a + b).mux == RunWith(step, RunWith(step, m, a).mux, b).mux
    ensures RunWith(step, m, a + b).events
         == RunWith(step, m, a).events + RunWith(step, RunWith(step, m, a).mux, b).events
    decreases |a|
  {
    if a == [] {
      assert a + b == b;
    } else {
      assert (a + b)[0] == a[0] && (a + b)[1..] == a[1..] + b;
      RunWithAppend(step, step(m, a[0]).mux, a[1..], b);
    }
  }

  lemma RunAppend(m: Mux, a: seq<Op>, b: seq<Op>)
    ensures Run(m, a + b).mux == Run(Run(m, a).mux, b).mux
    ensures Run(m, a + b).events == Run(m, a).events + Run(Run(m, a).mux, b).events
  {
    RunWithAppend(Apply, m, a, b);
  }

  lemma ApplyShutdown(m: Mux, cause: Option<string>)
    ensures Apply(m, Shutdown(cause)) == Close(m, cause)
  {
  }

  lemma RunOne(m: Mux, op: Op)
    ensures Run(m, [op]) == Apply(m, op)
  {
    assert [op][0] == op && [op][1..] == [];
    var r := Apply(m, op);
    assert RunWith(Apply, r.mux, []) == Step(r.mux, []);
    assert RunWith(Apply, m, [op]) == Step(r.mux, r.events + []);
    assert r.events + [] == r.events;
  }

  lemma RunTwo(m: Mux, op1: Op, op2: Op)
    ensures Run(m, [op1, op2]).mux == Apply(Apply(m, op1).mux, op2).mux
    ensures Run(m, [op1, op2]).events == Apply(m, op1).events + Apply(Apply(m, op1).mux, op2).events
  {
    assert [op1, op2][1..] == [op2];
    RunOne(Apply(m, op1).mux, op2);
  }

  // The streams of the walk-through below, created or registered at 2, 4, 6.
  const H2: StreamHandler := StreamHandler(1, 2)
  const H4: StreamHandler := StreamHandler(2, 4)
  const H6: StreamHandler := StreamHandler(3, 6)
  const BoomMessage: string := "Closed. Original cause [Error: boom]."

  /** Seed 0: two creations with streams that accept get 2, then 4. */
  lemma ScenarioCreate()
    ensures Run(Open(0), [Create(H2, Answer(true)), Create(H4, Answer(true))])
         == Step(Mux(map[2 := H2, 4 := H4], StreamIdGenerator(4), false),
                 [OnReady(H2, 2), OnReady(H4, 4)])
  {
    RunTwo(Open(0), Create(H2, Answer(true)), Create(H4, Answer(true)));
  }

  /** A new request for 6 goes to the stream-accept handler and registers
      nothing; the accepted stream then registers itself; a payload for 2
      reaches the stream at 2. */
  lemma ScenarioTraffic()
    ensures Run(Mux(map[2 := H2, 4 := H4], StreamIdGenerator(4), false),
                [Inbound(Frame(RequestResponse, 6)), Register(H6), Inbound(Frame(Payload, 2))])
         == Step(Mux(map[2 := H2, 4 := H4, 6 := H6], StreamIdGenerator(4), false),
                 [OnRequest(Frame(RequestResponse, 6)), OnFrame(H2, Frame(Payload, 2))])
  {
    var m := Mux(map[2 := H2, 4 := H4], StreamIdGenerator(4), false);
    var ops := [Inbound(Frame(RequestResponse, 6)), Register(H6), Inbound(Frame(Payload, 2))];
    assert ops == [ops[0]] + [ops[1], ops[2]];
    RunAppend(m, [ops[0]], [ops[1], ops[2]]);
    RunOne(m, ops[0]);
    RunTwo(m, ops[1], ops[2]);
  }

  /** The message a stream receives when the connection closes because of
      an error rendered as "Error: boom". */
  lemma BoomMessageText()
    ensures CloseMessage(Some("Error: boom")) == BoomMessage
  {
    assert ClosedPrefix + CausePrefix == "Closed. Original cause [";
  }

  lemma ScenarioCloseAll(msg: string)
    ensures CloseAll(map[2 := H2, 4 := H4, 6 := H6], [2, 4, 6], msg)
         == [OnClose(2, H2, msg), OnClose(4, H4, msg), OnClose(6, H6, msg)]
  {
    var keys := [2, 4, 6];
    var events := CloseAll(map[2 := H2, 4 := H4, 6 := H6], keys, msg);
    assert events[0] == OnClose(2, H2, msg) by { assert keys[0] == 2; }
    assert events[1] == OnClose(4, H4, msg) by { assert keys[1] == 4; }
    assert events[2] == OnClose(6, H6, msg) by { assert keys[2] == 6; }
  }

  /** Close with a cause notifies 2, 4 and 6 once each, in that order. */
  lemma ScenarioFirstClose()
    ensures Close(Mux(map[2 := H2, 4 := H4, 6 := H6], StreamIdGenerator(4), false), Some("Error: boom"))
         == Step(Mux(map[2 := H2, 4 := H4, 6 := H6], StreamIdGenerator(4), true),
                 [OnClose(2, H2, BoomMessage), OnClose(4, H4, BoomMessage), OnClose(6, H6, BoomMessage)])
  {
    var registry := map[2 := H2, 4 := H4, 6 := H6];
    SortedKeysUnique(registry.Keys, [2, 4, 6]);
    BoomMessageText();
    ScenarioCloseAll(BoomMessage);
  }

  /** ... and a second close notifies nobody. */
  lemma ScenarioClose()
    ensures Run(Mux(map[2 := H2, 4 := H4, 6 := H6], StreamIdGenerator(4), false),
                [Shutdown(Some("Error: boom")), Shutdown(None)])
         == Step(Mux(map[2 := H2, 4 := H4, 6 := H6], StreamIdGenerator(4), true),
                 [OnClose(2, H2, BoomMessage), OnClose(4, H4, BoomMessage), OnClose(6, H6, BoomMessage)])
  {
    var m := Mux(map[2 := H2, 4 := H4, 6 := H6], StreamIdGenerator(4), false);
    RunTwo(m, Shutdown(Some("Error: boom")), Shutdown(None));
    ScenarioFirstClose();
    var first := Close(m, Some("Error: boom"));
    ApplyShutdown(m, Some("Error: boom"));
    ApplyShutdown(first.mux, None);
    assert Close(first.mux, None) == Step(first.mux, []);
  }

  /** Traffic followed by the two closes. */
  lemma ScenarioTrafficThenClose()
    ensures Run(Mux(map[2 := H2, 4 := H4], StreamIdGenerator(4), false),
                [Inbound(Frame(RequestResponse, 6)), Register(H6), Inbound(Frame(Payload, 2))]
                + [Shutdown(Some("Error: boom")), Shutdown(None)]).events
         == [OnRequest(Frame(RequestResponse, 6)), OnFrame(H2, Frame(Payload, 2)),
             OnClose(2, H2, BoomMessage), OnClose(4, H4, BoomMessage), OnClose(6, H6, BoomMessage)]
  {
    ScenarioTraffic();
    ScenarioClose();
    RunAppend(Mux(map[2 := H2, 4 := H4], StreamIdGenerator(4), false),
              [Inbound(Frame(RequestResponse, 6)), Register(H6), Inbound(Frame(Payload, 2))],
              [Shutdown(Some("Error: boom")), Shutdown(None)]);
  }

  /** The walk-through end to end. */
  lemma ClientScenario()
    ensures Run(Open(0), [Create(H2, Answer(true)), Create(H4, Answer(true)),
                          Inbound(Frame(RequestResponse, 6)), Register(H6), Inbound(Frame(Payload, 2)),
                          Shutdown(Some("Error: boom")), Shutdown(None)]).events
         == [OnReady(H2, 2), OnReady(H4, 4), OnRequest(Frame(RequestResponse, 6)),
             OnFrame(H2, Frame(Payload, 2)),
             OnClose(2, H2, BoomMessage), OnClose(4, H4, BoomMessage), OnClose(6, H6, BoomMessage)]
  {
    var a := [Create(H2, Answer(true)), Create(H4, Answer(true))];
    var bc := [Inbound(Frame(RequestResponse, 6)), Register(H6), Inbound(Frame(Payload, 2))]
              + [Shutdown(Some("Error: boom")), Shutdown(None)];
    ScenarioCreate();
    ScenarioTrafficThenClose();
    RunAppend(Open(0), a, bc);
    assert a + bc == [Create(H2, Answer(true)), Create(H4, Answer(true)),
                      Inbound(Frame(RequestResponse, 6)), Register(H6), Inbound(Frame(Payload, 2)),
                      Shutdown(Some("Error: boom")), Shutdown(None)];
  }
}
