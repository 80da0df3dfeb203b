/** The connection-level multiplexer/demultiplexer: a registry from stream
    identifier to stream handler, the requester-side identifier generator,
    and the `done` flag of the connection. Every operation is a pure step
    from one state to the next plus the callbacks it invoked, in order. */
module Multiplexer {
  import opened Frames
  import opened StreamIds

  datatype Option<T> = None | Some(value: T)

  /** A stream handler, known to the multiplexer by its identity `tag` and
      the stream identifier it declares. */
  datatype StreamHandler = StreamHandler(tag: nat, streamId: int)

  /** The callbacks the multiplexer invokes. */
  datatype Event =
    | OnConnectionFrame(frame: Frame)                              // connection-frame handler
    | OnRequest(frame: Frame)                                      // stream-accept handler
    | OnFrame(handler: StreamHandler, frame: Frame)                // handler.handle(frame)
    | OnReady(handler: StreamHandler, streamId: int)               // handler.handleReady(id, this)
    | OnReject(handler: StreamHandler, message: string)            // handler.handleReject(error)
    | OnClose(streamId: int, handler: StreamHandler, message: string)
        // handler.close(error), for the registry entry under streamId

  datatype Mux = Mux(registry: map<int, StreamHandler>, generator: StreamIdGenerator, done: bool)

  /** A new state and the callbacks invoked on the way there. */
  datatype Step = Step(mux: Mux, events: seq<Event>)

  /** A fresh, open multiplexer whose generator starts at `seedId`. */
  function Open(seedId: int): Mux {
    Mux(map[], StreamIdGenerator(seedId), false)
  }

  /** Frames that the first check of `handle` does not drop. */
  predicate NotReserved(f: Frame) {
    !f.kind.Reserved?
  }

  /** Demultiplexes one inbound frame. Handle never checks `done` and never
      changes the state: accepted request streams register themselves with
      Add, if at all. */
  function Handle(m: Mux, f: Frame): (r: Step)
    ensures r.mux == m
    ensures |r.events| <= 1
    ensures !NotReserved(f) ==> r.events == []
    ensures r.events == [OnConnectionFrame(f)] <==> NotReserved(f) && IsConnection(f)
    ensures r.events == [OnRequest(f)] <==>
      NotReserved(f) && !IsConnection(f) && IsRequest(f) && f.streamId !in m.registry
    ensures (|r.events| == 1 && r.events[0].OnFrame?) <==>
      NotReserved(f) && !IsConnection(f) && !IsRequest(f) && f.streamId in m.registry
    ensures |r.events| == 1 && r.events[0].OnFrame? ==>
      r.events[0] == OnFrame(m.registry[f.streamId], f)
    ensures NotReserved(f) && !IsConnection(f) && IsRequest(f) && f.streamId in m.registry ==>
      r.events == []
    ensures NotReserved(f) && !IsConnection(f) && !IsRequest(f) && f.streamId !in m.registry ==>
      r.events == []
  {
    if f.kind.Reserved? then Step(m, [])
    else if IsConnection(f) then Step(m, [OnConnectionFrame(f)])
    else if IsRequest(f) then
      if f.streamId in m.registry then Step(m, [])
      else Step(m, [OnRequest(f)])
    else if f.streamId !in m.registry then Step(m, [])
    else Step(m, [OnFrame(m.registry[f.streamId], f)])
  }

  const AlreadyClosed: string := "Already closed"

  /** Requester-side stream creation. `handleReady` stands for the answer the
      stream's ready callback gives when offered an identifier. The registry
      entry is written before the callback runs and stays whatever it says;
      the generator commits the identifier only if the callback accepts. */
  function CreateStream(m: Mux, stream: StreamHandler, handleReady: int -> bool): (r: Step)
    ensures m.done ==> r.mux == m && r.events == [OnReject(stream, AlreadyClosed)]
    ensures !m.done ==>
      var id := m.generator.currentId + 2;
      && r.events == [OnReady(stream, id)]
      && id in r.mux.registry && r.mux.registry[id] == stream
      && r.mux.registry.Keys == m.registry.Keys + {id}
      && (forall k :: k in m.registry && k != id ==> r.mux.registry[k] == m.registry[k])
      && !r.mux.done
      && (r.mux.generator.currentId == id <==> handleReady(id))
      && (!handleReady(id) ==> r.mux.generator == m.generator)
  {
    if m.done then Step(m, [OnReject(stream, AlreadyClosed)])
    else
      var id := Candidate(m.generator);
      Step(m.(registry := m.registry[id := stream], generator := Next(m.generator, handleReady)),
           [OnReady(stream, id)])
  }

  /** Registers a handler under the identifier it declares, replacing any
      handler already there. */
  function Add(m: Mux, h: StreamHandler): (r: Mux)
    ensures h.streamId in r.registry && r.registry[h.streamId] == h
    ensures r.registry.Keys == m.registry.Keys + {h.streamId}
    ensures forall k :: k in m.registry && k != h.streamId ==> r.registry[k] == m.registry[k]
    ensures r.generator == m.generator && r.done == m.done
  {
    m.(registry := m.registry[h.streamId := h])
  }

  /** Unregisters whatever is registered under the identifier `h` declares. */
  function Remove(m: Mux, h: StreamHandler): (r: Mux)
    ensures r.registry.Keys == m.registry.Keys - {h.streamId}
    ensures forall k :: k in r.registry ==> r.registry[k] == m.registry[k]
    ensures r.generator == m.generator && r.done == m.done
  {
    m.(registry := m.registry - {h.streamId})
  }

  const ClosedPrefix: string := "Closed. "
  const CausePrefix: string := "Original cause ["
  const CauseSuffix: string := "]."

  /** The message of the error every stream receives when the connection
      closes; `cause` is the rendered original error, if one was given. */
  function CloseMessage(cause: Option<string>): (msg: string)
    ensures |msg| >= |ClosedPrefix| && msg[..|ClosedPrefix|] == ClosedPrefix
    ensures cause.None? <==> |msg| == |ClosedPrefix|
    ensures cause.Some? ==>
      && |msg| == |ClosedPrefix| + |CausePrefix| + |cause.value| + |CauseSuffix|
      && msg[|ClosedPrefix|..|ClosedPrefix| + |CausePrefix|] == CausePrefix
      && msg[|ClosedPrefix| + |CausePrefix|..|msg| - |CauseSuffix|] == cause.value
      && msg[|msg| - |CauseSuffix|..] == CauseSuffix
  {
    match cause
    case None => ClosedPrefix
    case Some(e) => ClosedPrefix + CausePrefix + e + CauseSuffix
  }

  /** Recovers the cause from a close message; the inverse of CloseMessage. */
  function ParseCloseMessage(msg: string): Option<Option<string>> {
    var n := |ClosedPrefix| + |CausePrefix|;
    if msg == ClosedPrefix then Some(None)
    else if |msg| >= n + |CauseSuffix| && msg[..n] == ClosedPrefix + CausePrefix
            && msg[|msg| - |CauseSuffix|..] == CauseSuffix
    then Some(Some(msg[n..|msg| - |CauseSuffix|]))
    else None
  }

  lemma CloseMessageRoundTrip(cause: Option<string>)
    ensures ParseCloseMessage(CloseMessage(cause)) == Some(cause)
  {
    var msg := CloseMessage(cause);
    if cause.Some? {
      assert msg[..|ClosedPrefix| + |CausePrefix|] == ClosedPrefix + CausePrefix;
    }
  }

  /** Different causes give different close messages. */
  lemma CloseMessageInjective(c1: Option<string>, c2: Option<string>)
    requires CloseMessage(c1) == CloseMessage(c2)
    ensures c1 == c2
  {
    CloseMessageRoundTrip(c1);
    CloseMessageRoundTrip(c2);
  }

  lemma {:induction false} MinExists(s: set<int>)
    requires s != {}
    ensures exists k :: k in s && forall j :: j in s ==> k <= j
    decreases |s|
  {
    if forall y :: y !in s {
      assert false;
    }
    var x :| x in s;
    if s == {x} {
      assert forall j :: j in s ==> x <= j;
    } else {
      var rest := s - {x};
      MinExists(rest);
      var k :| k in rest && forall j :: j in rest ==> k <= j;
      MinOfInsert(rest, x, k);
      assert rest + {x} == s;
    }
  }

  lemma MinOfInsert(s: set<int>, x: int, k: int)
    requires k in s && forall j :: j in s ==> k <= j
    ensures var m := if x < k then x else k;
      m in s + {x} && forall j :: j in s + {x} ==> m <= j
  {
  }

  function Min(s: set<int>): (k: int)
    requires s != {}
    ensures k in s && forall j :: j in s ==> k <= j
  {
    MinExists(s);
    var k :| k in s && forall j :: j in s ==> k <= j; k
  }

  /** The keys of a registry in the order a `for ... in` loop visits them:
      integer-like keys in ascending order. */
  function SortedKeys(s: set<int>): (r: seq<int>)
    ensures |r| == |s|
    ensures forall i :: 0 <= i < |r| ==> r[i] in s
    ensures forall k :: k in s ==> k in r
    ensures forall i, j :: 0 <= i < j < |r| ==> r[i] < r[j]
    decreases |s|
  {
    if s == {} then []
    else
      var x := Min(s);
      [x] + SortedKeys(s - {x})
  }

  /** A listing of `s`: every element listed is in `s`, every element of
      `s` is listed, in strictly increasing order. */
  ghost predicate ListsInOrder(s: set<int>, xs: seq<int>) {
    && (forall i :: 0 <= i < |xs| ==> xs[i] in s)
    && (forall k :: k in s ==> k in xs)
    && (forall i, j :: 0 <= i < j < |xs| ==> xs[i] < xs[j])
  }

  lemma HeadIsMin(s: set<int>, xs: seq<int>)
    requires ListsInOrder(s, xs) && xs != []
    ensures Min(s) == xs[0]
    ensures ListsInOrder(s - {xs[0]}, xs[1..])
  {
    forall j | j in s ensures xs[0] <= j {
      var i :| 0 <= i < |xs| && xs[i] == j;
    }
    var tail := xs[1..];
    forall k | k in s - {xs[0]} ensures k in tail {
      var i :| 0 <= i < |xs| && xs[i] == k;
      assert tail[i - 1] == k;
    }
  }

  /** The only strictly increasing listing of a set is SortedKeys. */
  lemma {:induction false} SortedKeysUnique(s: set<int>, xs: seq<int>)
    requires ListsInOrder(s, xs)
    ensures SortedKeys(s) == xs
    decreases |xs|
  {
    if xs == [] {
      assert s == {};
    } else {
      HeadIsMin(s, xs);
      SortedKeysUnique(s - {xs[0]}, xs[1..]);
      assert SortedKeys(s) == [xs[0]] + SortedKeys(s - {xs[0]});
    }
  }

  /** Closes the connection. The first call notifies every handler in the
      registry once, in ascending key order, then marks the connection done;
      it does not clear the registry. Later calls notify nobody. */
  function Close(m: Mux, cause: Option<string>): (r: Step)
    ensures r.mux == m.(done := true)
    ensures m.done ==> r.events == []
    ensures !m.done ==> |r.events| == |m.registry|
    ensures !m.done ==> forall i :: 0 <= i < |r.events| ==>
      && r.events[i].OnClose?
      && r.events[i].streamId in m.registry
      && r.events[i].handler == m.registry[r.events[i].streamId]
      && r.events[i].message == CloseMessage(cause)
    ensures forall i, j :: 0 <= i < j < |r.events| ==>
      r.events[i].OnClose? && r.events[j].OnClose? && r.events[i].streamId < r.events[j].streamId
    ensures !m.done ==> forall k :: k in m.registry ==>
      OnClose(k, m.registry[k], CloseMessage(cause)) in r.events
  {
    if m.done then Step(m, [])
    else
      var keys := SortedKeys(m.registry.Keys);
      var events := CloseAll(m.registry, keys, CloseMessage(cause));
      CloseAllCoversKeys(m.registry, keys, CloseMessage(cause));
      Step(m.(done := true), events)
  }

  /** One close notification per listed key, in the order listed. */
  function CloseAll(registry: map<int, StreamHandler>, keys: seq<int>, msg: string): (r: seq<Event>)
    requires forall i :: 0 <= i < |keys| ==> keys[i] in registry
    ensures |r| == |keys|
    ensures forall i :: 0 <= i < |keys| ==> r[i] == OnClose(keys[i], registry[keys[i]], msg)
  {
    if keys == [] then []
    else [OnClose(keys[0], registry[keys[0]], msg)] + CloseAll(registry, keys[1..], msg)
  }

  lemma CloseAllCoversKeys(registry: map<int, StreamHandler>, keys: seq<int>, msg: string)
    requires forall i :: 0 <= i < |keys| ==> keys[i] in registry
    requires forall k :: k in registry ==> k in keys
    ensures forall k :: k in registry ==> OnClose(k, registry[k], msg) in CloseAll(registry, keys, msg)
  {
    forall k | k in registry
      ensures OnClose(k, registry[k], msg) in CloseAll(registry, keys, msg)
    {
      var i := IndexOf(keys, k);
      assert CloseAll(registry, keys, msg)[i] == OnClose(k, registry[k], msg);
    }
  }

  function IndexOf(xs: seq<int>, k: int): (i: nat)
    requires k in xs
    ensures i < |xs| && xs[i] == k
  {
    if xs[0] == k then 0 else 1 + IndexOf(xs[1..], k)
  }
}
