# A verified model of the proxy's relay, codecs and QUIC transport

The proxy accepts HTTP/1.1 over TCP and HTTP/3 over QUIC, and relays each request to a backend
over either. This project models, in Dafny, the parts whose behaviour is decided by the
proxy's own code, and proves what every run, every byte stream or every packet keeps.

- **Relay and pool.** `RelayModel` is the phase machine of one relay together with the state it
  shares with its siblings: the idle queues, the counters and the backend streams. A worker is
  any number of relays. An event completes one pending operation of one relay with any outcome,
  lets an idle timer expire, or asks for a graceful close. `RelayInvariant`, `RelaySteps`,
  `RelayShared`, `RelayBooks` and `RelaySafety` prove one invariant over all runs;
  `RelayTheorems` reads the results off it, `RelayCounts` and `RelayVerdicts` tie the counters to the
  events of a run and to each request, and `PoolTurns` is about the choice of endpoints;
  `RelayMoves` says of each callback what follows it, and `RelayLoop` when a relay goes back for another
  request; `RelayWitness` has the runs that show where an obvious claim fails. `UpstreamPool` and
  `RelaySession` are the same operations as objects that update their fields, and `WorkerLoop` drives
  them event by event: what it does is a run, so the theorems about runs are about the objects.
- **Relay and bytes.** `RelayBytes` joins the relays to the HTTP/1.1 codec: every backend stream has
  the bytes its backend sent, and what a relay is told of a response is what the codec makes of them.
  `RelayRest`, `RelayBytesProofs`, `RelayBytesRuns`, `RelayBytesTheorems` and `RelayBytesWitness` are
  about the bytes left on streams in the pool.
- **HTTP/1.1 codec.** `Network` is a transport whose fragmentation into reads is an arbitrary
  oracle, and which ends in an end-of-file error, an empty read or another error. `ChunkedModel`,
  `ChunkedProofs`, `ChunkedSizes`, `ChunkedStop` and `ChunkedSource` are the chunked decoder; `Headers`,
  `H1Head`, `H1HeadProofs` and `H1Forms` the header map, the parsers and the printers, and what they make
  of heads that are written out; `H1Body`, `H1BodyProofs`, `H1Leftover`,
  `H1Ends` and `H1Codec` the incremental readers, the body sources and the pump; `H1EndToEnd` follows a
  response from the backend to the client. `H1Witness` and `H1EndWitness` have the inputs on which
  they fall short.
- **QUIC stream write queue.** `WriteQueue`, `WriteQueueProofs`, `QuicStream`; `Reentry` and
  `ReentryProofs` for callbacks that write again while the queue is flushed.
- **Connection ID routing.** `CidRouting` is the demultiplexer's table under concurrent
  registration and retirement, `PacketSteering` the packet format, the demultiplexer object and
  the in-kernel steering rule.
- **HTTP/3 codec.** `Varint`, `LiteralHeaders`, `H3Headers`.
- **QUIC connection pool.** `QuicPool`, `QuicPoolProofs`, `QuicReuse`, `QuicSessions`.

`dafny verify dfyconfig.toml` checks everything.

## What holds, and what does not

Some claims one would expect are not true of the code as it stands. For each the model keeps
the code's behaviour, gives a run or an input where the claim fails, and proves exactly when it
holds.

- The closed phase is described as terminal in `src/proxy/relay_session.h:48`. An operation in
  flight at teardown can still succeed and move the relay on (`ClosedIsLeft`, `ClosedLeftIff`).
- A write that succeeds after teardown dereferences a null backend (`NullBackendHappens`); it
  happens only then (`NullBackendIff`).
- A graceful close sends the client's FIN while the next request may still arrive; the response
  to that request is written after the FIN (`WriteAfterFinHappens`, `WriteAfterFin`).
- A backend stream may go back to the pool with unread bytes of a response on it: when the transfer
  to the client fails (`FailedWriteIsPooled`), and when a chunked response was over-read, even though
  its transfer is reported a success (`OverReadIsPooled`). `PooledUnreadIff` says exactly when, for
  any bytes the backend sends: `ChunkedUnreadIff` for a chunked response in terms of the place where
  the decoder stops, `PooledUnreadAfterWhole` for clients that stop. `IdleStreamsAreEmpty` says in
  which runs it never happens, and `OrderlyPools` is one of them.
- Bytes of a body that were read along with its head are dropped unless they are the whole of a sized
  body: for requests `PrefixIsLost` and `RequestWholeIff`, for responses `SizedCutShort` and
  `ResponseWholeIff`. The transfer of a sized response cut short in this way is reported a success.
- An HTTP/1.1 client does not read back every response. A chunked one arrives decoded under a head that
  still says chunked, and unless part of it was over-read it is never read back
  (`ChunkedNotReadBack`); one delimited by the close runs into the next on a connection that is kept
  (`ClosingNotReadBack`). `EndToEndIff` says exactly when a response is.
- The round-robin index is shared by all groups of backends. Two groups asked for by turns can leave
  an endpoint without a request for ever (`AlternationStarves`, `RoundUnfair`); a round is fair
  exactly when its turns differ modulo the size of the group (`FairIff`).
- When a stream closes, an error callback that writes again is called twice and an empty queue is
  popped (`CloseBreaks`, `CloseOnceIff`). When its write side is reset, such a callback may be called
  twice and another one never (`ResetLoses`, `ResetOnceIff`).
- An empty write never succeeds and may block the writes behind it for ever (`EmptyNeverSucceeds`,
  `EmptyHeadForEver`).
- The routing byte works for at most 256 workers (`RoutingByteIff`, `TooManyWorkers`).
- Kernel and user space may steer a packet differently when its connection ID was chosen by a client or
  is empty (`KernelDiffersOnClientIds`, `KernelDiffersOnEmptyIds`, `KernelAgreesIff`).
- The comment at `src/transport/quic_demux.h:125-126` says that an unknown connection ID is routed
  by source address. The code routes by the ID's first byte or its hash, and so does the model.
- A header value does not survive printing and parsing when it is empty or starts with a blank,
  nor does a path with `://` after its first byte (`OddHeadChanges`, `RoundTripIff`).

The HTTP/1.1 codec would take a body cut short for a complete one on a transport whose end is an empty
read (`EmptyReadEndsBody`, `FalseEndIff`, `LengthCutShort`). It runs on TCP only
(`src/proxy/proxy_core.cpp:61-65`, `src/proxy/relay_session.cpp:161-162`), where the end is an error,
and there a transfer that succeeds is a complete one (`SuccessIsComplete`).

## Model

| member | source | states |
|---|---|---|
| `RelaySafety.RunInv` | src/proxy/relay_session.cpp:29-541 | every state of every run of any number of relays over one pool satisfies the invariant, up to a null dereference |
| `RelaySafety.StepInv` | src/proxy/relay_session.cpp:29-541 | each callback, timer expiry and graceful close keeps it |
| `RelayTheorems.OnePlace` | src/proxy/relay_session.cpp:390-409 | each backend stream ever created is in exactly one place: one relay, one idle slot, or gone; a stream that was shut down is neither held nor idle, a bridged one never idle |
| `RelayTheorems.RelaysApart` | src/proxy/relay_session.cpp:147-172 | no two relays hold the same backend stream and none holds one that is idle |
| `RelayTheorems.QueuesOk` | src/proxy/upstream_pool.cpp:110-125 | an idle queue has at most 8 streams, all distinct, TCP, not shut down, not bridged, and connected to the queue's own server |
| `RelayTheorems.AssignedWhenNull` | src/proxy/relay_session.cpp:308-325 | the backend is null whenever a stream is assigned to it |
| `RelayTheorems.RequestPhaseIsIdle` | src/proxy/relay_session.cpp:448-464 | in the request phase the only pending operation is the parse, there is no backend and the relay is not torn down, so the FIN of a graceful close cuts off no response being written |
| `RelayTheorems.WriteAfterFin` | src/proxy/relay_session.cpp:411-464 | on a live relay, a client write pending after the client's FIN means that the FIN was sent with the request's parse pending |
| `RelayTheorems.DrainsBehindFin` | src/proxy/relay_session.cpp:484-509 | an HTTP/1.1 client is read to its end only after the relay has sent its FIN |
| `RelayTheorems.ClosedIsDone` | src/proxy/relay_session.cpp:532-541 | only a torn-down relay is in the closed phase |
| `RelayTheorems.ClosedLeftIff` | src/proxy/relay_session.cpp:284-304 | the closed phase is left exactly when a pending parse, request write, tunnel or upgrade write still succeeds |
| `RelayTheorems.AtMostOneRetry` | src/proxy/relay_session.cpp:280-325 | a request is written at most twice; the second time only after a failure on a pooled stream, without a body, on a stream created later; with a body only once |
| `RelayTheorems.RetryToSameServer` | src/proxy/relay_session.cpp:308-325 | a retry connects to the endpoint that the failed stream was connected to |
| `RelayTheorems.RoutedToItsGroup` | src/proxy/relay_session.cpp:75-92 | a routed request gets an error answer exactly when it has no route or its group has no endpoint, and otherwise an idle stream of, or a connect to, an endpoint of its group |
| `RelayTheorems.BridgeIsFaithful` | src/proxy/relay_session.cpp:243-278 | in each direction the bytes written are a prefix of the bytes read and at most one operation is pending |
| `RelayTheorems.CountersBalance` | src/proxy/relay_session.cpp:433-444 | requests = answered + undecided + tunnels; answers = backend responses parsed + local errors; every stream created is counted once |
| `RelayVerdicts.OneOutcome` | src/proxy/relay_session.cpp:335-444 | in every reachable state a relay's current request has counted at most one outcome, and none exactly while it is undecided, when it became a tunnel, or when there is no request yet |
| `RelayVerdicts.RunVerdicts` | src/proxy/relay_session.cpp:335-444 | over every run, the outcomes counted, the tunnel and the open verdict of each relay's request add up to one |
| `RelayCounts.StepCounts` | src/proxy/relay_session.cpp:335-353 | each step adds to the counters exactly what it is: a request, a response with or without an error status, a tunnel |
| `RelayCounts.RunCounts` | src/proxy/relay_session.cpp:335-353 | over every run the counters are the numbers of such events, with one latency sample for each backend response |
| `RelayTheorems.NullBackendIff` | src/proxy/relay_session.cpp:284-304 | a null backend is dereferenced exactly when a write is reported successful after teardown took its backend away; never while the relay is live |
| `RelayTheorems.StepForward` | src/proxy/relay_session.cpp:484-541 | the draining and done flags are never cleared and, once one is set, the requests begun plus the parse pending never increase |
| `RelayTheorems.StopsTakingRequests` | src/proxy/relay_session.cpp:411-431 | over every continuation of a run a draining or torn-down relay begins at most the request whose parse was pending |
| `RelayLoop.GoesBackIff` | src/proxy/relay_session.cpp:411-431 | over every run, when an answer has been written: an HTTP/1.1 relay that is neither draining nor torn down waits for the next request exactly when the last request it parsed asked to keep the connection, and otherwise sends its FIN and drains the client; over HTTP/3 it drains without a FIN |
| `RelayLoop.RunRemembers` | src/proxy/relay_session.cpp:35-58 | in every run a relay remembers of keep-alive, upgrade and HEAD what the last request it parsed said |
| `RelayLoop.BridgeReads` | src/proxy/relay_session.cpp:254-265 | what a bridge reads goes into its next write, whole; an end or an error tears it down |
| `RelayLoop.BridgeWrites` | src/proxy/relay_session.cpp:266-276 | a complete write is followed by the next read on the same side, any other by teardown |
| `RelayLoop.DrainReads` | src/proxy/relay_session.cpp:499-508 | a drained client is read on until its stream ends or fails |
| `RelayMoves.AcceptMoves` | src/proxy/relay_session.cpp:10-33 | an accepted client gets a relay of its own, which waits for a request |
| `RelayMoves.DirectMoves` | src/proxy/relay_session.cpp:60-143 | CONNECT and absolute targets are connected to themselves, or answered with an error |
| `RelayMoves.RoutedMoves` | src/proxy/relay_session.cpp:75-92 | a routed request takes the stream that has waited first at the endpoint whose turn it is, or connects there, or is answered with an error |
| `RelayMoves.ConnectedMoves` | src/proxy/relay_session.cpp:211-241 | a new stream to the endpoint is the backend, and the tunnel's answer, the request or the retried request is written |
| `RelayMoves.UnreachedMoves` | src/proxy/relay_session.cpp:147-158 | a connect that fails is answered with an error |
| `RelayMoves.WrittenMoves` | src/proxy/relay_session.cpp:284-325 | a request written is followed by the response; one that failed by a retry at the same endpoint exactly when the stream was pooled, the request has no body and none was made yet |
| `RelayMoves.ResponseMoves` | src/proxy/relay_session.cpp:333-387 | a response is written on as an upgrade exactly when one was asked for and granted, and otherwise with its body unless the request was HEAD |
| `RelayMoves.KeptMoves` | src/proxy/upstream_pool.cpp:110-125 | a kept stream goes to the back of the first queue with its group, host and port if that holds fewer than eight, and is dropped otherwise |
| `RelayMoves.ClosedMoves` | src/proxy/relay_session.cpp:390-409 | a stream that is not kept is shut down |
| `RelayMoves.ErrorMoves` | src/proxy/relay_session.cpp:433-444 | an error answer touches neither backend nor pool |
| `RelayMoves.BridgeMoves` | src/proxy/relay_session.cpp:243-249 | a bridge begins with a read on each side |
| `RelayMoves.EndMoves` | src/proxy/relay_session.cpp:532-541 | a request that cannot be parsed and the idle timer shut both sides down, once |
| `RelayMoves.GracefulMoves` | src/proxy/relay_session.cpp:448-464 | a graceful close marks a live relay, and sends the FIN exactly while it waits for a request |
| `RelayWitness.NullBackendHappens` | src/proxy/relay_session.cpp:300-304 | a run in which an idle timeout during a request write leads to a null dereference |
| `RelayWitness.ClosedIsLeft` | src/proxy/relay_session.cpp:35-45 | a run in which a request parsed after a timeout leaves the closed phase |
| `RelayWitness.WriteAfterFinHappens` | src/proxy/relay_session.cpp:454-460 | a run in which a response is written after the FIN of a graceful close |
| `RelayBytesTheorems.IdleStreamsAreEmpty` | src/proxy/relay_session.cpp:381-402 | over every run with backends that send one response per request, no chunked response over-read and every response whose connection is kept reaching its client: no byte is left on any stream in the pool |
| `RelayBytesTheorems.PooledUnreadIff` | src/proxy/relay_session.cpp:381-402 | in every reachable state, whatever bytes the backend sends, however they arrive and whatever the client accepts: a stream is pooled with unread bytes exactly when the connection is kept, its queue has room, and bytes lie behind the end of the body, or behind the read at which the client stopped |
| `RelayBytesTheorems.ChunkedUnreadIff` | src/codec/h1_codec.cpp:441-445 | for a chunked response and a client that accepts it, exactly when more bytes came behind the head's read than the decoder stops at; those are what is left, and the write is a success exactly when the decoder finds an end |
| `RelayBytesTheorems.PooledUnreadAfterWhole` | src/proxy/relay_session.cpp:381-402 | behind a whole response the last means that the client stopped accepting writes: any of them for a chunked body, one before the last for a sized one, none for a body captured with its head |
| `RelayBytesTheorems.LeftoverIff` | src/codec/http_message.cpp:136-161 | for a whole body with nothing behind it, whether a transfer leaves bytes on the stream depends only on the number of writes accepted |
| `RelayBytesTheorems.CloseDelimitedNeverPooled` | src/codec/h1_codec.cpp:466-473 | a response delimited by the close never returns its stream to the pool |
| `RelayBytesTheorems.AlwaysWired` | src/proxy/relay_session.cpp:327-402 | every backend stream a relay holds has its bytes, so the codec's outcome is the only condition on a byte-level event |
| `RelayBytesRuns.StepBRested` | src/proxy/relay_session.cpp:280-402 | each orderly event keeps streams clean before their response and responses due to be read to their end |
| `RelayBytesProofs.BStepInv` | src/proxy/relay_session.cpp:29-541 | each event with its bytes keeps the invariant of the run and a byte stream for every backend stream |
| `RelayBytesProofs.ToldForm` | src/codec/h1_codec.cpp:435-474 | of a printed response a relay is told its status, whether it has a body, and whether its connection can be kept |
| `RelayBytesWitness.OverReadIsPooled` | src/codec/h1_codec.cpp:441-445 | a run in which the backend sends one given chunked response, its size line is read along with its head, the transfer of the rest is a success, and its stream is pooled with the end of it unread |
| `RelayBytesWitness.FailedWriteIsPooled` | src/proxy/relay_session.cpp:381-386 | a run in which the backend sends one sized response of two bytes, the transfer fails at the first, and its stream is pooled with the second unread |
| `RelayBytesWitness.OrderlyPools` | src/proxy/relay_session.cpp:381-402 | an orderly run that pools a stream, with nothing left on it |
| `UpstreamPool.UpstreamPool.AddBackend` | src/proxy/upstream_pool.cpp:10-28 | a backend is appended with an empty queue, and the QUIC client engine exists exactly if there is a QUIC backend |
| `UpstreamPool.UpstreamPool.CollectCandidates` | src/proxy/upstream_pool.cpp:33-40 | the loop collects exactly the endpoints of the group, in order |
| `UpstreamPool.UpstreamPool.AsyncConnect` | src/proxy/upstream_pool.cpp:31-74 | round-robin choice, front of the idle queue if there is one, otherwise an endpoint to dial; nothing else changes |
| `PoolTurns.FairIff` | src/proxy/upstream_pool.cpp:47-49 | whatever groups are asked for in between and whatever is released: as many requests as a group has endpoints fall on each exactly once if and only if their turns differ modulo that number |
| `PoolTurns.OncePerRound` | src/proxy/upstream_pool.cpp:47-49 | so they do when no other group draws a turn between them and the index does not wrap around |
| `PoolTurns.TurnCounts` | src/proxy/upstream_pool.cpp:47-49 | a turn is the number of requests before it for groups that have an endpoint, in the width of the index |
| `PoolTurns.PickAt` | src/proxy/upstream_pool.cpp:33-49 | a request gets the endpoint of its group at its turn modulo the size of the group |
| `PoolTurns.WorkerPool` | src/proxy/relay_session.cpp:83-402 | the pool of a worker is the one that its relays' requests and returns leave, over every run |
| `PoolTurns.AlternationStarves` | src/proxy/upstream_pool.cpp:47-49 | however long two groups are asked for by turns, the one with two endpoints gets the same one every time |
| `PoolTurns.RoundUnfair` | src/proxy/upstream_pool.cpp:47-49 | a pool and a run in which a round is not fair |
| `UpstreamPool.UpstreamPool.Release` | src/proxy/upstream_pool.cpp:110-125 | the stream goes to the back of the first queue of its server if that has room, and is dropped otherwise |
| `RelaySession.RelaySession.constructor` | src/proxy/relay_session.cpp:10-33 | a new relay waits for its first request |
| `RelaySession.RelaySession.RequestPhase` | src/proxy/relay_session.cpp:29-34 | enters the request phase with a parse pending |
| `RelaySession.RelaySession.OnParsed` | src/proxy/relay_session.cpp:35-93 | begins an exchange, counts it and dispatches it |
| `RelaySession.RelaySession.Dispatch` | src/proxy/relay_session.cpp:60-143 | tunnel, forward-proxy, unroutable and routed requests, with their error answers |
| `RelaySession.RelaySession.PoolConnect` | src/proxy/relay_session.cpp:83-92 | the pool's answer, which may come at once |
| `RelaySession.RelaySession.UseBackend` | src/proxy/relay_session.cpp:147-172 | takes the backend over, keeps the request for a retry and sends it |
| `RelaySession.RelaySession.OnConnected` | src/proxy/relay_session.cpp:211-241 | a fresh stream for a request, a tunnel or a retry |
| `RelaySession.RelaySession.SendBackendRequest` | src/proxy/relay_session.cpp:280-284 | a request write is pending, or a null pointer was dereferenced |
| `RelaySession.RelaySession.OnRequestWritten` | src/proxy/relay_session.cpp:284-325 | on to the response, a retry on a fresh connection, or an error answer |
| `RelaySession.RelaySession.ResponsePhase` | src/proxy/relay_session.cpp:327-332 | a response parse is pending, or a null pointer was dereferenced |
| `RelaySession.RelaySession.OnResponse` | src/proxy/relay_session.cpp:333-387 | counts the response and writes it on, as an upgrade or with its body, none for HEAD |
| `RelaySession.RelaySession.OnUpgradeWritten` | src/proxy/relay_session.cpp:365-379 | bridges with a backend that is no longer pooled, or tears down |
| `RelaySession.RelaySession.OnResponseWritten` | src/proxy/relay_session.cpp:381-386 | returns the backend and goes on with the client whatever the outcome of the write |
| `RelaySession.RelaySession.FinishBackend` | src/proxy/relay_session.cpp:390-402 | the backend is pooled or closed and the request forgotten |
| `RelaySession.RelaySession.CloseBackend` | src/proxy/relay_session.cpp:404-409 | the backend is shut down and cleared |
| `RelaySession.RelaySession.AfterClientResponse` | src/proxy/relay_session.cpp:411-431 | next request, graceful close or drain |
| `RelaySession.RelaySession.WriteErrorResponse` | src/proxy/relay_session.cpp:433-444 | a local error is counted and its write pending |
| `RelaySession.RelaySession.GracefulClose` | src/proxy/relay_session.cpp:448-464 | marks the relay draining and sends the FIN between requests |
| `RelaySession.RelaySession.GracefullyCloseClient` | src/proxy/relay_session.cpp:484-490 | FIN and drain |
| `RelaySession.RelaySession.DrainClient` | src/proxy/relay_session.cpp:492-497 | a read is pending unless the relay is torn down |
| `RelaySession.RelaySession.OnDrainRead` | src/proxy/relay_session.cpp:499-508 | drains on until the end of the stream |
| `RelaySession.RelaySession.BridgeMode` | src/proxy/relay_session.cpp:243-249 | one read pending in each direction |
| `RelaySession.RelaySession.OnPumpRead` | src/proxy/relay_session.cpp:254-265 | what was read is written on, or the relay is torn down |
| `RelaySession.RelaySession.OnPumpWrite` | src/proxy/relay_session.cpp:266-276 | the next read follows a complete write |
| `RelaySession.RelaySession.Teardown` | src/proxy/relay_session.cpp:532-541 | done and closed once, with both sides shut down |
| `RelaySession.RelaySession.OnComplete` | src/proxy/relay_session.cpp:29-541 | each finished operation runs its own callback |
| `RelaySession.RelaySession.Complete` | src/proxy/relay_session.cpp:29-541 | an operation is no longer in flight when its callback runs |
| `RelaySession.RelaySession.OnEvent` | src/proxy/relay_session.cpp:448-541 | a finished operation, the idle timer or a graceful close does to one relay what the run does |
| `WorkerLoop.WorkerLoop.Handle` | src/proxy/proxy_core.cpp:76-87 | the relay objects of a worker, all on one pool, do on every event what the run does, and keep the invariant of every run |
| `WorkerLoop.WorkerLoop.OnAccept` | src/proxy/proxy_core.cpp:76-87 | a new relay is added, started, beside the others as they were |
| `WorkerLoop.WorkerLoop.Reached` | src/proxy/proxy_core.cpp:76-87 | the state of the objects is one that a run reaches, so every theorem about those holds of it |
| `ChunkedProofs.DecodesEveryMessage` | src/codec/h1_codec.cpp:21-168 | for every well-formed chunked message, every fragmentation and every sequence of nonempty buffers: the chunk data exactly and in order, then nothing for ever, with the stream left after the blank line that ends the trailers |
| `ChunkedSizes.DecodesEveryBody` | src/codec/h1_codec.cpp:21-168 | the same for every body as a sender writes it, with sizes in hexadecimal digits of either case, leading zeros, extensions and trailers |
| `ChunkedSizes.ReadsWrittenSize` | src/codec/h1_codec.cpp:38-52 | a size that is written from the tables of digits is read as that number, whatever its zeros, the case of its digits and its extension, and saturates at 2^64 - 1 |
| `ChunkedSizes.NoSize` | src/codec/h1_codec.cpp:48-58 | a line that does not begin with a digit has no size |
| `ChunkedProofs.ReadStep` | src/codec/h1_codec.cpp:21-103 | one read delivers some of what is due, and nothing only at the end |
| `ChunkedProofs.FinishedForEver` | src/codec/h1_codec.cpp:23-26 | a finished decoder delivers nothing and leaves the stream alone |
| `ChunkedProofs.FalseEndIff` | src/codec/h1_codec.cpp:74-101 | an empty read that is not the end of the body happens exactly when the stream ends where chunk data is due and says so by an empty read |
| `ChunkedStop.ReadAgrees` | src/codec/h1_codec.cpp:21-168 | on any bytes, well-formed or not, and at any place in them, a read delivers, ends or fails as a function of the bytes alone foretells, whatever the fragmentation |
| `ChunkedStop.StopsAlike` | src/codec/h1_codec.cpp:21-168 | where the decoder stops in given bytes does not depend on how the stream ends |
| `ChunkedStop.LineAgrees` | src/codec/h1_codec.cpp:108-131 | a line ends at the first LF, or with the stream |
| `ChunkedSource.ChunkedBodySource.ReadSome` | src/codec/h1_codec.cpp:21-31 | the object does what the functional decoder does |
| `ChunkedSource.ChunkedBodySource.ReadSizeLine` | src/codec/h1_codec.cpp:38-72 | size line, extensions, last chunk and errors |
| `ChunkedSource.ChunkedBodySource.ReadChunkPayload` | src/codec/h1_codec.cpp:74-101 | data, and the CRLF behind a finished chunk |
| `ChunkedSource.ChunkedBodySource.OnPayloadRead` | src/codec/h1_codec.cpp:80-101 | an error, an empty read, or data with the rest of its chunk |
| `ChunkedSource.ChunkedBodySource.ReadLine` | src/codec/h1_codec.cpp:108-131 | the bytes up to the next LF without CRs |
| `ChunkedSource.ChunkedBodySource.ReadTrailers` | src/codec/h1_codec.cpp:136-148 | lines up to and including the blank one |
| `ChunkedSource.ChunkedBodySource.ReadExact` | src/codec/h1_codec.cpp:151-168 | skips the given number of bytes however they arrive |
| `Headers.GetIsFirst` | src/codec/http_message.cpp:27-44 | lookup gives the first of all the values for a name, whatever its case |
| `Headers.RemoveHides` | src/codec/http_message.cpp:46-52 | removal hides a name and leaves every other as it was, in order |
| `Headers.SetReplaces` | src/codec/http_message.cpp:22-25 | setting leaves one value for the name and every other name as it was |
| `H1Forms.LowerLetters` | src/codec/http_message.cpp:12-16 | capital letters become small ones and nothing else changes |
| `Headers.HeaderMap.Add` | src/codec/http_message.cpp:18-20 | appends |
| `Headers.HeaderMap.RemoveKey` | src/codec/http_message.cpp:46-52 | the loop keeps the other fields in order |
| `Headers.HeaderMap.Set` | src/codec/http_message.cpp:22-25 | removes and appends |
| `Headers.HeaderMap.Lookup` | src/codec/http_message.cpp:27-34 | the loop finds the first match |
| `H1HeadProofs.ParsePrint` | src/codec/h1_codec.cpp:307-385 | parsing a printed request head gives back method, target, version, host, length and all fields in order, as a reader sees them |
| `H1HeadProofs.RoundTripIff` | src/codec/h1_codec.cpp:333-369 | path and fields come back unchanged exactly when no `://` follows the first byte of the path and every value is nonempty and starts with no blank |
| `H1Forms.AbsoluteForm` | src/codec/h1_codec.cpp:328-350 | a request with the target `scheme://authority` or `scheme://authority/path` is parsed into scheme in small letters, authority and path |
| `H1Forms.OriginForm` | src/codec/h1_codec.cpp:328-383 | any other target is the path as it is, with scheme http and the authority of the first Host field, if there is one |
| `H1Forms.FieldForm` | src/codec/h1_codec.cpp:358-368 | a field is its name and its value without leading blanks, or the blanks when there is nothing else |
| `H1Forms.NoField` | src/codec/h1_codec.cpp:358-360 | a line without a colon is no field |
| `H1Forms.BareLine` | src/codec/h1_codec.cpp:352-354 | a line may end in LF alone |
| `H1Forms.SpacedLine` | src/codec/h1_codec.cpp:320-322 | the words of a request line may have any white space around them |
| `H1Forms.NoRequestForm` | src/codec/h1_codec.cpp:314-326 | without a second word there is no request |
| `H1Forms.LengthForm` | src/codec/h1_codec.cpp:371-374 | a content length is the number its field begins with, saturating at 2^64 - 1 |
| `H1Forms.StatusForm` | src/codec/h1_codec.cpp:490-505 | version, status and reason of a status line, with any white space and a plus before the status, saturating at 2^31 - 1 |
| `H1Forms.WrittenVersion` | src/codec/h1_codec.cpp:208-212 | a version of HTTP/1 is written as it is, any other as HTTP/1.1 |
| `H1Forms.ConnectionForm` | src/codec/h1_codec.cpp:176-203 | the first Connection field decides: close in it closes, otherwise keep-alive in it keeps, otherwise every version but HTTP/1.0 keeps |
| `H1Forms.NoConnectionForm` | src/codec/h1_codec.cpp:180-203 | without one every version but HTTP/1.0 keeps |
| `H1HeadProofs.ParsePrintResponse` | src/codec/h1_codec.cpp:478-525 | the same for a response head, with status and reason |
| `H1HeadProofs.EndOfPrintedHead` | src/codec/h1_codec.cpp:529-536 | the first blank line in a printed head followed by anything is the one that ends it |
| `H1HeadProofs.EndOfPrintedResponse` | src/codec/h1_codec.cpp:551-558 | the same for a response head |
| `H1BodyProofs.BlockExact` | src/codec/h1_codec.cpp:226-262 | for every fragmentation, the block ends at the first blank line and block, over-read bytes and remaining stream are the bytes sent; without a blank line there is no block |
| `H1BodyProofs.ReadsRequest` | src/codec/h1_codec.cpp:226-305 | a printed request followed by anything is read back whole for every fragmentation, and every byte after it is over-read or still on the stream |
| `H1BodyProofs.ForwardsRequest` | src/codec/h1_codec.cpp:271-300 | what of the body is forwarded and where the stream is left, for every fragmentation and every number of writes the destination accepts |
| `H1BodyProofs.RequestWholeIff` | src/codec/h1_codec.cpp:271-297 | body and next message are whole exactly when none of the body was over-read, or all of it and nothing more |
| `H1BodyProofs.StreamAt` | src/codec/h1_codec.cpp:219-305 | on a connection where that holds for each request the stream is at the next message between any two |
| `H1BodyProofs.ServesEach` | src/codec/h1_codec.cpp:219-305 | and each request is read and forwarded as sent, in order |
| `H1BodyProofs.ReadsResponse` | src/codec/h1_codec.cpp:396-475 | a printed response followed by anything is read back whole, never kept alive when delimited by the close |
| `H1BodyProofs.BodyTexts` | src/codec/h1_codec.cpp:435-442 | the statuses without a body are 1xx, 204 and 304 |
| `H1BodyProofs.OneWholeResponse` | src/codec/h1_codec.cpp:435-474 | for a backend that sends one response per request: forwarding without error leaves nothing of the response on the stream, for responses without a body, to HEAD, sized, chunked without over-read, or delimited by the close, and the last are never kept alive |
| `H1BodyProofs.PumpDue` | src/codec/http_message.cpp:136-161 | where a whole body is still to come, the pump writes a prefix of it; success means all of it with the stream left at its end; only the destination makes it fail |
| `H1BodyProofs.LengthCutShort` | src/codec/http_message.cpp:67-86 | a sized body that ends early is reported complete exactly when the transport signals its end by an empty read |
| `H1BodyProofs.SuccessIsComplete` | src/codec/http_message.cpp:136-161 | on a transport whose end is an error, as TCP's is, a transfer that succeeds has read its body to the end: a body cut short is always an error |
| `H1BodyProofs.BrokenIsError` | src/codec/http_message.cpp:116-128 | a body delimited by the close fails when the connection breaks with another error than end of file |
| `H1Ends.PumpEnds` | src/codec/http_message.cpp:136-161 | for every source, any bytes, any fragmentation and any number of writes accepted: a transfer succeeds exactly when the destination accepts as many writes as the body takes and the bytes are a body; it then has sent that body, and leaves what lies behind it |
| `H1Ends.PumpStopped` | src/codec/http_message.cpp:136-161 | a destination that stops a transfer has had one read for each write it was offered |
| `H1Ends.ChunkedPumpStops` | src/codec/h1_codec.cpp:21-168 | the transfer of any bytes as a chunked body leaves what lies behind the place where the decoder stops, and succeeds exactly when it finds an end there |
| `H1EndToEnd.ResponseWholeIff` | src/codec/h1_codec.cpp:435-474 | the client is sent the whole content exactly when nothing of the response was over-read, all of a sized body was, or what is left of a chunked one decodes to the same; a sized response is a success in any case |
| `H1EndToEnd.EndToEndIff` | src/codec/h1_codec.cpp:551-571 | through the relay, in reads of any sizes on both sides, an HTTP/1.1 client reads back status and content and is left at the next message exactly when there is no body, a sized body was over-read not at all or whole, or a body delimited by the close was not over-read and nothing follows it; never for a chunked body that was not over-read |
| `H1EndToEnd.SameFraming` | src/proxy/relay_session.cpp:353-358 | the head as it is written on, with the client's version, announces the same kind of body |
| `H1EndToEnd.LineConsumes` | src/codec/h1_codec.cpp:38-101 | what decodes is longer than what it decodes to |
| `H1Leftover.PumpTurns` | src/codec/http_message.cpp:136-161 | a transfer succeeds exactly when the destination accepts as many writes as the body takes |
| `H1Leftover.LengthLeft` | src/codec/http_message.cpp:67-86 | a sized body is read to its end exactly when at most the last of its writes fails |
| `H1Leftover.ChunksLeft` | src/codec/h1_codec.cpp:21-168 | a chunked body is read to its end exactly when all of it reaches the destination |
| `H1Leftover.BufferLeft` | src/codec/http_message.cpp:97-105 | a body captured with its head leaves the stream alone |
| `H1Witness.PrefixIsLost` | src/codec/h1_codec.cpp:271-297 | an upload whose first byte is read along with the head, and lost |
| `H1Witness.OddHeadChanges` | src/codec/h1_codec.cpp:333-369 | a head whose path and fields come back changed |
| `H1Witness.OverReadChunked` | src/codec/h1_codec.cpp:441-445 | a chunked response, over-read, whose transfer succeeds, delivers nothing and leaves bytes on a connection that is kept |
| `H1Witness.EmptyReadEndsBody` | src/codec/http_message.cpp:67-86 | on a transport that ends in an empty read a missing body passes for a complete one |
| `H1EndWitness.SizedCutShort` | src/codec/h1_codec.cpp:446-464 | a sized response of two bytes of which the second alone is passed on, as a success |
| `H1EndWitness.ChunkedNotReadBack` | src/codec/h1_codec.cpp:551-571 | a chunked response that the client does not read back, whatever follows it |
| `H1EndWitness.ClosingNotReadBack` | src/proxy/relay_session.cpp:381-425 | a response delimited by the close that the client does not read back when another follows on the connection |
| `H1Codec.ParseFieldLines` | src/codec/h1_codec.cpp:352-369 | the loop over header lines |
| `H1Codec.ParseHeaderBlock` | src/codec/h1_codec.cpp:307-385 | the request head of a block, or none without method and path |
| `H1Codec.ParseResponseBlock` | src/codec/h1_codec.cpp:478-525 | the response head of a block, or none without a positive status |
| `H1Codec.ReadHeaderBlock` | src/codec/h1_codec.cpp:226-262 | reads on until the buffer holds a blank line |
| `H1Codec.ParseRequest` | src/codec/h1_codec.cpp:219-305 | head and keep-alive of the next request, and a new source object that stands for its body |
| `H1Codec.ParseReply` | src/codec/h1_codec.cpp:389-476 | head and keep-alive of the next response, and a new source object that stands for its body |
| `H1Codec.BuildSource` | src/codec/h1_codec.cpp:271-297 | the source object of each kind of body, fresh and at its start |
| `H1Codec.StreamBodySource.ReadSome` | src/codec/http_message.cpp:67-86 | never reads past the announced length |
| `H1Codec.BufferBodySource.ReadSome` | src/codec/http_message.cpp:97-105 | hands out the captured bytes in order |
| `H1Codec.StreamEofBodySource.ReadSome` | src/codec/http_message.cpp:116-128 | end of file is the end of the body, any other error is passed on |
| `H1Codec.PumpBodyToStream` | src/codec/http_message.cpp:136-161 | copies until the end of the body or the first error |
| `H1Codec.ToWire` | src/codec/http_message.cpp:54-59 | the loop that prints the fields |
| `H1Codec.WriteRequest` | src/codec/h1_codec.cpp:529-549 | the head in one write, then the body |
| `H1Codec.WriteResponse` | src/codec/h1_codec.cpp:551-571 | the same for a response |
| `WriteQueueProofs.RunInv` | src/transport/quic_transport.cpp:198-297 | every state of every run of writes, write events, resets and closes satisfies the queue's invariant |
| `WriteQueueProofs.StepInv` | src/transport/quic_transport.cpp:198-297 | each event keeps it |
| `WriteQueueProofs.NothingLostOrReordered` | src/transport/quic_transport.cpp:248-297 | while no write has failed, the accepted bytes followed by the queued tails are the buffers written, in order |
| `WriteQueueProofs.AcceptedInOrder` | src/transport/quic_transport.cpp:248-297 | always, the accepted bytes are a prefix of each buffer in turn, the whole of it when its callback reported success |
| `WriteQueueProofs.CallbacksOnceInOrder` | src/transport/quic_transport.cpp:203-226 | callbacks run at most once each and in order, and exactly once each by the close |
| `WriteQueueProofs.ErrorsInOrder` | src/transport/quic_transport.cpp:203-246 | a close fails every queued write with end of file and a reset of the write side with a reset, in order, and offers the library nothing more |
| `WriteQueueProofs.WriteEvent` | src/transport/quic_transport.cpp:248-297 | a write event offers the head once: refused it ends with the error of the refusal, taken to its last byte with success, and otherwise it stays with what was taken behind it |
| `WriteQueueProofs.ReadReset` | src/transport/quic_transport.cpp:228-246 | a reset of the read side leaves the queue as it is |
| `WriteQueueProofs.QueuedIsArmed` | src/transport/quic_transport.cpp:248-297 | whatever is queued is on an open stream with the write event armed |
| `WriteQueueProofs.EmptyNeverSucceeds` | src/transport/quic_transport.cpp:248-297 | over every run no write of an empty buffer is reported a success |
| `WriteQueueProofs.EmptyHeadForEver` | src/transport/quic_transport.cpp:248-297 | a run of any length in which an empty write and the one behind it stay in the queue |
| `ReentryProofs.CloseOnceIff` | src/transport/quic_transport.cpp:203-216 | closing calls every callback exactly once if and only if none of them writes again; if one does, the first is called twice and an empty queue is popped |
| `ReentryProofs.ResetOnceIff` | src/transport/quic_transport.cpp:228-246 | a reset calls every callback exactly once, and those of the writes made meanwhile, if and only if none writes again, a write event is awaited, or the library does not settle the write whose callback does |
| `ReentryProofs.CloseBreaks` | src/transport/quic_transport.cpp:203-216 | a run, one write whose callback writes again and then the close, in which that callback is called twice and an empty queue is popped |
| `ReentryProofs.ResetLoses` | src/transport/quic_transport.cpp:237-243 | a run, three writes, a refusal and then a reset, in which one callback is called twice and another never |
| `ReentryProofs.QuietFlush` | src/transport/quic_transport.cpp:203-257 | with callbacks that do not write, a flush is that of the write queue |
| `ReentryProofs.QuietClose` | src/transport/quic_transport.cpp:203-226 | closing is then the step of the write queue |
| `ReentryProofs.QuietReset` | src/transport/quic_transport.cpp:228-246 | and so is a reset of the write side |
| `ReentryProofs.QuietPump` | src/transport/quic_transport.cpp:248-297 | and so is the pump |
| `QuicStream.QuicTransportStream.AsyncWriteSome` | src/transport/quic_transport.cpp:52-59 | enqueues and pumps |
| `QuicStream.QuicTransportStream.PumpWrite` | src/transport/quic_transport.cpp:248-297 | offers the head to the library, once, and completes, fails or re-arms it |
| `QuicStream.QuicTransportStream.OnWriteable` | src/transport/quic_transport.cpp:198-201 | pumps again |
| `QuicStream.QuicTransportStream.OnClose` | src/transport/quic_transport.cpp:203-226 | every queued callback runs with end of file |
| `QuicStream.QuicTransportStream.OnReset` | src/transport/quic_transport.cpp:228-246 | a reset of the write side fails every queued write |
| `CidRouting.RunAgrees` | src/transport/quic_demux.cpp:131-191 | in every interleaving with at most 256 workers, in which engines register the IDs they generate and others that reach them, each table entry is the worker its key names on its own |
| `CidRouting.TableIsACache` | src/transport/quic_demux.cpp:147-191 | so the table never changes where a packet goes |
| `CidRouting.TableHolds` | src/transport/quic_demux.cpp:131-139 | at any time of any run the table holds just the IDs that are registered and not retired, each with the worker that registered it last |
| `CidRouting.SameCidSameWorker` | src/transport/quic_demux.cpp:147-191 | packets with one destination ID reach one worker at all times, whatever their source address |
| `CidRouting.IssuedReachesIssuer` | src/transport/quic_transport.cpp:697-705 | an ID reaches the worker that generated it before, during and after its registration |
| `CidRouting.RoutingByteIff` | src/transport/quic_transport.cpp:703-704 | the routing byte names every worker exactly when there are at most 256 |
| `CidRouting.TooManyWorkers` | src/transport/quic_transport.cpp:833-841 | with more, a run in which registration moves an ID to another worker |
| `PacketSteering.Dcid` | src/transport/quic_demux.cpp:152-160 | the destination ID of a packet lies within it (section 5 of RFC 8999) |
| `PacketSteering.DcidIff` | src/transport/quic_demux.cpp:152-160 | the ID of a packet is the one it was built around: behind first byte, version and length in a long header, eight bytes behind the first in a short one |
| `PacketSteering.NoDcidIff` | src/transport/quic_demux.cpp:152-159 | exactly the packets built in neither way have none |
| `PacketSteering.PacketReachesIssuer` | src/transport/quic_demux.cpp:147-191 | a packet built around an ID reaches the worker that generated it, whatever the table has been through |
| `PacketSteering.PacketRoutes` | src/transport/quic_demux.cpp:147-191 | a packet goes to the worker its ID is registered for, or else to the one its first byte names, or else by the hash of the whole ID |
| `PacketSteering.QuicPacketDemux.RegisterCid` | src/transport/quic_demux.cpp:131-134 | sets one entry |
| `PacketSteering.QuicPacketDemux.RemoveCid` | src/transport/quic_demux.cpp:136-139 | erases one entry |
| `PacketSteering.QuicPacketDemux.RoutePacket` | src/transport/quic_demux.cpp:147-191 | table, routing byte, hash, or drop |
| `PacketSteering.HashCid` | src/transport/quic_demux.cpp:182-186 | the loop computes FNV-1a in 64-bit arithmetic |
| `PacketSteering.FnvSamples` | src/transport/quic_demux.cpp:182-186 | the hash has the published values of FNV-1a |
| `PacketSteering.GenerateScid` | src/transport/quic_transport.cpp:697-705 | routing byte first, random bytes behind it |
| `PacketSteering.Steer` | ebpf/quic_steer.bpf.c:41-65 | the selected index is always in range |
| `PacketSteering.KernelAgrees` | ebpf/quic_steer.bpf.c:41-65 | kernel and user space hand every packet built around a server-issued ID, with a short header or a long one with a version, to its issuer in every reachable state of the table |
| `PacketSteering.KernelAgreesIff` | ebpf/quic_steer.bpf.c:41-65 | for every packet and every reachable table, exactly when kernel and user space drop it or pick the same worker: from the routing byte, from two hashes that must agree, or from worker 0 where the kernel does not look at the ID |
| `PacketSteering.FnvLow` | src/transport/quic_demux.cpp:182-187 | the low two bits of the hash depend only on the low two bits of the bytes |
| `PacketSteering.KernelDiffersOnClientIds` | ebpf/quic_steer.bpf.c:46-61 | a packet that they steer differently |
| `PacketSteering.KernelDiffersOnEmptyIds` | ebpf/quic_steer.bpf.c:53-61 | every packet with an empty ID goes to worker 0 in the kernel and is dropped in user space |
| `Varint.RoundTrip` | src/codec/h3_codec.cpp:14-83 | decoding an encoded value below 2^62 followed by anything gives the value and its length |
| `Varint.RoundTripIff` | src/codec/h3_codec.cpp:55-83 | a 64-bit value survives exactly when it is below 2^62 |
| `Varint.Samples` | src/codec/h3_codec.cpp:14-43 | the examples of section A.1 of RFC 9000 |
| `Varint.LongSample` | src/codec/h3_codec.cpp:14-43 | and the one of eight bytes |
| `Varint.Shortest` | src/codec/h3_codec.cpp:45-53 | no byte string that decodes to a value is shorter than its encoding |
| `Varint.PrefixFree` | src/codec/h3_codec.cpp:14-83 | no encoding begins another |
| `Varint.Decode` | src/codec/h3_codec.cpp:14-43 | decoding never reads past the end |
| `Varint.DecodeLocal` | src/codec/h3_codec.cpp:14-43 | what follows a number does not change it |
| `Varint.DecodeBound` | src/codec/h3_codec.cpp:14-43 | decoded values are below 2^62 and fit their length |
| `Varint.EncodeInto` | src/codec/h3_codec.cpp:55-83 | the encoding is written and nothing behind it changed |
| `LiteralHeaders.AcceptsIff` | src/codec/h3_codec.cpp:91-136 | a block is accepted with an outcome exactly when it is a concatenation of name and value records, behind varint lengths of any form, with that meaning |
| `LiteralHeaders.ParsesRecords` | src/codec/h3_codec.cpp:97-134 | on every such concatenation the parser computes the fold of the fields' meanings, including the exception for a bad number |
| `LiteralHeaders.RecordsUnique` | src/codec/h3_codec.cpp:97-122 | the records of a block are determined by its bytes |
| `LiteralHeaders.ParsesRequest` | src/codec/h3_codec.cpp:119-133 | a request sent as records is read back: method, path, length, the authority as host, the other fields in order |
| `LiteralHeaders.NamesMean` | src/codec/h3_codec.cpp:119-133 | what each name means: method, path, authority as host, other fields in order, other pseudo-names nothing |
| `LiteralHeaders.LengthMeans` | src/codec/h3_codec.cpp:126-127 | a content length is the number its value begins with, or an exception without digits or from 2^64 on |
| `LiteralHeaders.NeverWraps` | src/codec/h3_codec.cpp:106-108 | the 64-bit sum of position and length never wraps |
| `LiteralHeaders.ReadString` | src/codec/h3_codec.cpp:101-110 | a length and that many bytes, or failure |
| `LiteralHeaders.ParseRequestHeaders` | src/codec/h3_codec.cpp:91-136 | the loop, with its 64-bit bounds checks |
| `H3Headers.RequestSurvives` | src/codec/h3_codec.cpp:274-288 | a request sent as a header list and read at the other end keeps its pseudo-fields and end-to-end fields in order, names in lower case and the authority first as host, unless the block is over 64 KB |
| `H3Headers.LookupSurvives` | src/codec/h3_codec.cpp:140-167 | afterwards no hop-by-hop name is found, host gives the authority first, and every other regular name gives what it gave before |
| `H3Headers.LengthSurvives` | src/codec/h3_codec.cpp:162-166 | the content length is kept |
| `H3Headers.ResponseSurvives` | src/codec/h3_codec.cpp:326-332 | a response keeps its status and its end-to-end fields in order, with lower-case names, unless the block is over 64 KB |
| `H3Headers.SendHeaders` | src/transport/quic_transport.cpp:153-178 | the loops that refuse a large block and lower the names |
| `H3Headers.StripHopByHop` | src/codec/h3_codec.cpp:201-210 | the loop drops exactly the hop-by-hop fields |
| `H3Headers.StripsHopByHop` | src/codec/h3_codec.cpp:201-210 | what is sent has no field named connection, keep-alive, proxy-connection, transfer-encoding or upgrade, in whatever case, and every other field in order |
| `H3Headers.PseudoNames` | src/codec/h3_codec.cpp:271-288 | the names and defaults of the pseudo-fields |
| `H3Headers.RequestListForm` | src/codec/h3_codec.cpp:271-288 | what a request is sent with, and what stands in for what it lacks: GET, http, the first Host field, the root path |
| `H3Headers.AuthorityReplacesHost` | src/codec/h3_codec.cpp:150-156 | when a list is read, an authority is the host from then on, in place of every host field before it |
| `H3Headers.SendIff` | src/transport/quic_transport.cpp:153-160 | a header block is refused exactly over 64 KB |
| `H3Headers.BuildRequestList` | src/codec/h3_codec.cpp:271-288 | the list that is sent, with its defaults |
| `H3Headers.RequestHeadFromHeaders` | src/codec/h3_codec.cpp:140-167 | the loop that reads a request list |
| `H3Headers.ResponseHeadFromHeaders` | src/codec/h3_codec.cpp:169-191 | the loop that reads a response list |
| `QuicPoolProofs.RunInv` | src/proxy/upstream_pool.cpp:137-252 | every state of every run of requests, streams, failures and closes satisfies the pool's invariant |
| `QuicPoolProofs.PooledOnce` | src/proxy/upstream_pool.cpp:203-235 | a session is in the reuse table at most once, only while its connection is up and no stream is requested on it, and no queue is empty |
| `QuicPoolProofs.AnsweredOnce` | src/proxy/upstream_pool.cpp:163-235 | a connect request has had one callback, an error or a stream on a connection to the endpoint asked for; or none, and then exactly one session is opening a stream for it, on a connection to that endpoint that is up |
| `QuicReuse.RequestReuses` | src/proxy/upstream_pool.cpp:137-158 | over every run, a request for an endpoint with a session in the table opens its stream on the front one, which leaves the table, and creates none |
| `QuicReuse.RequestCreates` | src/proxy/upstream_pool.cpp:163-201 | any other request creates a session and opens its stream there, or is answered with an error |
| `QuicReuse.CreatesIff` | src/proxy/upstream_pool.cpp:137-235 | a session is created exactly when one can be made and none waits for the endpoint or reuse is off |
| `QuicReuse.StreamUpPools` | src/proxy/upstream_pool.cpp:212-225 | after its stream has come a session is in the table of its endpoint, last |
| `QuicReuse.WaitsInOrder` | src/proxy/upstream_pool.cpp:137-225 | in every state of every run the sessions of an endpoint are in the order in which they came back, so the front one has waited longest |
| `QuicReuse.StaleRetries` | src/proxy/upstream_pool.cpp:226-231 | a stale session is given up and its request goes to the next that waits, or to a new one when none does |
| `QuicReuse.NewFails` | src/proxy/upstream_pool.cpp:226-233 | a new session without a stream is given up and its request answered with an error |
| `QuicReuse.ClosedLeaves` | src/proxy/upstream_pool.cpp:237-252 | a closed connection leaves the table and all others wait on |
| `QuicReuse.SecondReuses` | src/proxy/upstream_pool.cpp:137-158 | a run in which the second request uses the connection of the first |
| `QuicPoolProofs.RetriesBounded` | src/proxy/upstream_pool.cpp:226-233 | retries never outnumber the sessions discarded, nor those the sessions created |
| `QuicPoolProofs.StepForward` | src/proxy/upstream_pool.cpp:226-252 | a session discarded or closed stays so and is never handed out again |
| `QuicSessions.QuicTable.QuicConnect` | src/proxy/upstream_pool.cpp:137-161 | the front session of the endpoint, or a fresh connection |
| `QuicSessions.QuicTable.QuicConnectFresh` | src/proxy/upstream_pool.cpp:163-181 | a new session with a stream requested, or an error answer; the slot for the pending connect is free before and after |
| `QuicSessions.QuicTable.OnClientConn` | src/proxy/upstream_pool.cpp:183-201 | the new session serves the connect in the slot and frees it; without one it is not used |
| `QuicSessions.QuicTable.OnStream` | src/proxy/upstream_pool.cpp:212-225 | the session goes back and the request is answered |
| `QuicSessions.QuicTable.OnNoStream` | src/proxy/upstream_pool.cpp:226-233 | the session is discarded and the request retried or failed |
| `QuicSessions.QuicTable.OnClosed` | src/transport/quic_transport.cpp:368-382 | a closed connection leaves the table |
| `QuicSessions.QuicTable.RemoveQuicConn` | src/proxy/upstream_pool.cpp:237-252 | erases one session, and its queue when that is left empty |

## Left out

- lsquic, TLS, QPACK and sockets: foreign code. lsquic appears through the calls it makes: it accepts no more of a write than it is offered, answers each stream request once, and reports a connection closed after answering.
- Timers: expiry is an event that may happen at any time; scheduling and cancelling are not modelled, so the runs include timeouts a real timer would not fire.
- Object lifetimes: reference counting and callback captures are not modelled. The byte buffer of the line reader, captured by copy in the source, is modelled as the byte delivered.
- Number parsing: signs (but one plus before a status), white space and `0x` prefixes that the C library accepts before digits are not modelled; saturation and, for the literal parser, its exceptions are.
- A resolver that throws while a connection is made: not modelled; a connect fails or succeeds.
- Router, configuration, statistics rendering, logging, address conversion, dual-stack binding and `send_specs`: easy members.
- Server shutdown beyond what it asks of one relay, the reuseport loader and the example programs.
- The header take of a QUIC stream, which its close does not complete.
- The HTTP/3 writers' final shutdown, which drops a write error.
- H1EndToEnd.EndToEndIff: the client is one that reads as this codec does and takes nothing of the body along with the head; a client that keeps what it over-reads is like one that over-reads nothing.
- Callbacks that write again while a queue is flushed: each makes at most one write per call, as its last act; the read and shutdown callbacks are not modelled.
- Bytes on backend streams: HTTP/3 backends, whose streams are never pooled, have none in the byte-level runs, and what a tunnel carries is modelled by its flows.
- QUIC keys: a host and port pair stands for the string that joins them.
