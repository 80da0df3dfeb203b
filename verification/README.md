# RSocket client/server multiplexer–demultiplexer, modelled in Dafny

This project models the connection core of rsocket-js in
`packages/rsocket-core/src/ClientServerMultiplexerDemultiplexer.ts`. It has three parts:

- **The stream identifier generator** (`StreamIdGeneratorImpl.next`). It offers
  `currentId + 2` to a callback and commits that value only if the callback
  accepts it.
- **The demultiplexer** `handle`. It looks at each inbound frame and either
  drops it or routes it to one place: the connection-frame handler, the
  stream-accept handler, or the stream handler registered under the frame's
  stream identifier.
- **The registry and lifecycle operations**: `createStream`, `add`, `remove`
  and `close`. They work on the map from stream identifier to handler, the
  generator's counter and the connection's `done` flag.

The model is functional. A multiplexer is an immutable record `Mux(registry,
generator, done)`. Every operation is a pure function that returns the next
state together with the callbacks it invoked, in order, as `Event`s:

| callback | event |
|---|---|
| connection-frame handler | `OnConnectionFrame` |
| stream-accept handler | `OnRequest` |
| `handler.handle` | `OnFrame` |
| `handleReady` | `OnReady` |
| `handleReject` | `OnReject` |
| `handler.close` | `OnClose` |

A callback's return value is an input to the step. For `handleReady` this is the
function `handleReady: int -> bool`, and for the generator's callback it is
`accept: int -> bool`.

Files:

- `frames.dfy` (`Frames`): frame types and the connection/request classification.
- `stream_ids.dfy` (`StreamIds`): the generator, and what a sequence of its
  calls proposes and commits.
- `multiplexer.dfy` (`Multiplexer`): the state and the operations `Handle`,
  `CreateStream`, `Add`, `Remove` and `Close`.
- `properties.dfy` (`MultiplexerRuns`): runs, which are sequences of calls. It
  holds the lemmas that relate several calls and a client walk-through.

In these respects the code may surprise a reader; the model follows the code:

- The generator does not skip identifiers that are already in use. A refused
  candidate is offered again on the next call (`Next`, `DeclinedEntryIsReused`).
- `handle`, `add` and `remove` never look at `done`. Frames are still routed
  after `close`. Only `createStream` is refused.
- `close` does not clear the registry. It only notifies every entry and sets
  `done`.
- `handle` never registers the stream it offers to the stream-accept handler. In
  the walk-through (`ClientScenario`), the stream accepted for identifier 6
  therefore registers itself with `add` before `close` reaches it.

`Frames.ts` is not part of this model. The model defines the two predicates as
follows:

- `IsConnection`: stream identifier 0, or a frame type that only exists on stream
  0 (SETUP, LEASE, KEEPALIVE, METADATA_PUSH, RESUME, RESUME_OK).
- `IsRequest`: one of the four request types in the union at lines 72–75.

ERROR is left out of the connection-only types because it appears on both
levels. For frames that follow the RSocket protocol, `IsConnection` is the same
as "stream identifier 0".

## Model

| member | source | states |
|---|---|---|
| StreamIds.Next | packages/rsocket-core/src/ClientServerMultiplexerDemultiplexer.ts:37-45 | The counter advances by exactly two iff the callback accepts the candidate `currentId + 2`; otherwise it is unchanged and the same candidate is proposed next time. Parity is preserved. |
| StreamIds.ProposalsCount | packages/rsocket-core/src/ClientServerMultiplexerDemultiplexer.ts:37-45 | Over any sequence of callback answers, the i-th proposal is seed + 2·(acceptances before i + 1), and the final counter is seed + 2·(acceptances): refusals repeat the proposal, acceptances advance it. |
| StreamIds.CommittedSequence | packages/rsocket-core/src/ClientServerMultiplexerDemultiplexer.ts:37-45 | The committed identifiers are exactly seed+2, seed+4, seed+6, …, one per acceptance. |
| StreamIds.CommittedDistinct | packages/rsocket-core/src/ClientServerMultiplexerDemultiplexer.ts:34-46 | No identifier is committed twice (committed ids strictly increase) and all share the seed's parity. |
| Multiplexer.Handle | packages/rsocket-core/src/ClientServerMultiplexerDemultiplexer.ts:83-110 | Handle never changes the state and invokes at most one callback: none for RESERVED; the connection handler iff not RESERVED and connection-scoped; the accept handler iff a request whose id is unregistered; the handler registered under the frame's id, and no other, iff a continuation frame for a registered id; nothing for a duplicate request or an unknown id. |
| Multiplexer.CreateStream | packages/rsocket-core/src/ClientServerMultiplexerDemultiplexer.ts:146-166 | When done: exactly one rejection with "Already closed", state unchanged, no ready call. When open: exactly one `OnReady(stream, currentId + 2)` is emitted, and afterwards the stream is registered at that id whatever the answer (the source writes the entry at line 162 before calling `handleReady` at line 164), other entries are untouched, and the counter advances iff the answer is yes. |
| Multiplexer.Add | packages/rsocket-core/src/ClientServerMultiplexerDemultiplexer.ts:168-170 | The handler ends up registered under its own stream id, replacing any previous entry; every other key, the counter and `done` are unchanged. |
| Multiplexer.Remove | packages/rsocket-core/src/ClientServerMultiplexerDemultiplexer.ts:172-174 | Only the key `h.streamId` is removed; every other entry, the counter and `done` are unchanged. |
| Multiplexer.CloseMessage | packages/rsocket-core/src/ClientServerMultiplexerDemultiplexer.ts:184-186 | The message starts with "Closed. "; it is exactly that iff there is no cause; with a cause it carries "Original cause [", the cause, and "].". |
| Multiplexer.CloseMessageRoundTrip | packages/rsocket-core/src/ClientServerMultiplexerDemultiplexer.ts:185 | The cause (or its absence) can be recovered from the close message by `ParseCloseMessage`. |
| Multiplexer.CloseMessageInjective | packages/rsocket-core/src/ClientServerMultiplexerDemultiplexer.ts:185 | Different causes give different close messages. |
| Multiplexer.SortedKeys | packages/rsocket-core/src/ClientServerMultiplexerDemultiplexer.ts:181 | The keys visited by the `for … in` loop when every key is an array index (0 … 2^32−2): each registry key exactly once, in ascending order. |
| Multiplexer.SortedKeysUnique | packages/rsocket-core/src/ClientServerMultiplexerDemultiplexer.ts:181 | Any strictly increasing listing of a key set is the visiting order. |
| Multiplexer.Close | packages/rsocket-core/src/ClientServerMultiplexerDemultiplexer.ts:176-189 | The first close notifies every registered key exactly once, in ascending key order (the loop's order for array-index keys 0 … 2^32−2), each with its registered handler and the derived message, then sets `done`; a later close notifies nobody. Neither clears the registry or touches the counter. |
| MultiplexerRuns.ClosedStaysQuiet | packages/rsocket-core/src/ClientServerMultiplexerDemultiplexer.ts:146-189 | After close, any sequence of calls keeps `done`, never moves the counter, never calls `handleReady` and never notifies a close again. |
| MultiplexerRuns.CloseNotifiesOnce | packages/rsocket-core/src/ClientServerMultiplexerDemultiplexer.ts:176-189 | In any run that starts with a close, all close notifications are those of that first close; the rest of the run emits none. |
| MultiplexerRuns.CreateStreamFresh | packages/rsocket-core/src/ClientServerMultiplexerDemultiplexer.ts:160-165 | While no own-parity id above the counter is registered, the candidate is free, so createStream does not replace a live stream, and an accepted creation keeps that invariant. |
| MultiplexerRuns.DeclinedEntryIsReused | packages/rsocket-core/src/ClientServerMultiplexerDemultiplexer.ts:160-165 | After a declined creation its entry stays registered at the candidate; the next creation is offered the same id and replaces that entry. |
| MultiplexerRuns.DeclinedStreamMustRemoveItself | packages/rsocket-core/src/ClientServerMultiplexerDemultiplexer.ts:160-174 | A declined creation breaks the freshness invariant; the declining stream removing itself restores it. |
| MultiplexerRuns.OrderlyRunKeepsOwnIdsAllocated | packages/rsocket-core/src/ClientServerMultiplexerDemultiplexer.ts:146-174 | Over any run whose creations are accepted and whose registrations use peer (other-parity) ids, the freshness invariant holds throughout, so no creation replaces a live stream. |
| MultiplexerRuns.AddRemoveRoundTrip | packages/rsocket-core/src/ClientServerMultiplexerDemultiplexer.ts:168-174 | Adding a handler under a free id and removing it restores the state. |
| MultiplexerRuns.AddIdempotent | packages/rsocket-core/src/ClientServerMultiplexerDemultiplexer.ts:168-170 | Adding the same handler twice equals adding it once. |
| MultiplexerRuns.ScenarioCreate | packages/rsocket-core/src/ClientServerMultiplexerDemultiplexer.ts:146-166 | From seed 0, two creations whose streams accept are offered and commit 2, then 4. |
| MultiplexerRuns.ScenarioTraffic | packages/rsocket-core/src/ClientServerMultiplexerDemultiplexer.ts:83-110 | With 2 and 4 registered, a new request for 6 reaches only the accept handler and registers nothing; after the accepted stream adds itself, a payload for 2 reaches only the stream at 2. |
| MultiplexerRuns.ScenarioClose | packages/rsocket-core/src/ClientServerMultiplexerDemultiplexer.ts:176-189 | With 2, 4 and 6 registered, close with cause "Error: boom" notifies 2, 4, 6 in that order with "Closed. Original cause [Error: boom]."; the following close notifies nobody; the registry is kept. |
| MultiplexerRuns.ClientScenario | packages/rsocket-core/src/ClientServerMultiplexerDemultiplexer.ts:83-189 | Seed 0: ready at 2 and 4; a request for 6 is offered to the accept handler; a payload for 2 reaches the stream at 2; close notifies 2, 4, 6 once each with "Closed. Original cause [Error: boom]."; a second close notifies nobody. |

## Left out

- `send` (line 140) and `connectionOutbound` (lines 142–144) are transport
  plumbing. `send` is abstract and the getter returns the multiplexer itself, so
  neither has any state effect.
- `handleConnectionFrames` and `handleStream` (lines 112–138) only store the two
  callbacks. The model assumes both are registered and records their calls as
  `OnConnectionFrame` and `OnRequest`. Calling an unregistered handler would
  throw in the source, and that case is not modelled.
- `handle` ignores the boolean that the stream-accept handler returns. The model
  therefore does not take that boolean as an input.
- The `streamType` argument of `createStream` and the `streams` argument that it
  passes to `next` are never read by the code, so the model drops both.
- The `Deferred` base class is not part of this model. This covers
  `super.close`, its on-close callbacks and how `done` gets set. The model
  assumes only that the first `close` sets `done`.
- Callbacks have no effect on the multiplexer's state. A handler that calls
  `add` or `remove` from inside a callback is modelled as a separate, later call.
  `close` iterates over the keys present when it starts.
- Error objects are modelled by their rendered text. The cause of `close` is
  `Option<string>`, holding what `${error}` prints, for example
  `"Error: boom"`. Only the message of the rejection and close errors is kept.
- Stream identifiers are unbounded integers. JavaScript numbers lose precision
  above 2^53, and the protocol's 2^31−1 maximum is not enforced by this code.
  The model checks neither limit either. Identifiers outside 0 … 2^32−2 do
  change the close order, as the next two lines say.
- Multiplexer.SortedKeys: models the visiting order of `for (const streamId in
  this.registry)` (line 181) as ascending for every integer key. JavaScript
  visits ascending order only for array-index keys (0 … 2^32−2). Other keys,
  negative or at least 2^32−1, come after them in insertion order, which the
  model does not track. Protocol stream identifiers (0 … 2^31−1) are all array
  indices. Other keys can still be registered. This happens with an `add` of
  such an identifier, with a generator seed of 2^32−3 or more (`create` accepts
  any number), or after more than about 2^31 accepted creations.
- Multiplexer.Close: its ascending notification order is the source's order only
  when every registered identifier lies in 0 … 2^32−2. With other keys, the
  source notifies the array-index keys first, ascending, and then the rest in
  insertion order. The model instead notifies everything in ascending order.
- `StreamIdGenerator.create` (lines 30–32) only wraps the seed. `Open(seedId)`
  plays that role.
- The TODO paths at lines 85, 94 and 102 are not implemented in the source, so
  the model does not add them. They would throw on RESERVED, send an error and
  close on a duplicate request, and validate unknown identifiers.
