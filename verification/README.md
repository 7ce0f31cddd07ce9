# A verified model of the reverse HTTP/2 tunnel

A worker dials out to a proxy and then serves requests over that connection: the proxy opens streams,
the worker answers them, and both ends share one HTTP/2 layer (`internal/h2`). This project models the
parts of that system where state, concurrency or arithmetic make correctness hard to see, and proves
what they promise for every input and every interleaving.

| module | models |
|---|---|
| Numbers, FlowControl, SendCredit | 32-bit windows; send credit, its condition variable, SETTINGS |
| Conservation | both ends running that code, joined by two FIFO channels |
| InboundData | credit returned for DATA of any peer, padding included |
| HttpFrames, ChunkLoop, ResponseSpec, ResponseProof, ResponseStory, ResponseWriter | the response writer and the stream goroutine around the handler |
| BodySpec, BodyQueue, BodyPool | the compacting body queue over pooled buffers, and many streams sharing the pool |
| EndToEnd, RequestBody | bodies from one end's writer to the other end's reader, in both directions |
| OpenStream, Drain, Continuation, WriterQueue, Watchdog | stream opening, graceful drain, header-block reassembly, the writer goroutine, PING liveness |
| PoolSlots | the worker's connection slots, reapers, wait groups and Shutdown |
| HeaderNames, HeaderSeeds, HeaderCodec | header names, their caches, encoding and decoding of header maps |

Objects the source updates in place are classes; each method is proved equal to a function on values, and
the theorems are about those functions. Concurrent protocols are state machines whose runs are arbitrary
event sequences. `dafny verify dfyconfig.toml` checks the whole project.

## How the environment is modelled

- A step is one critical section, one frame handler call or one channel operation. Within a step nothing
  else runs. Where the source releases a lock between two actions and that matters (drain, the body
  queue's signals, the writer queue), the actions are separate steps.
- These are single steps: HandleInboundData with the WINDOW_UPDATE frames it queues; taking the list of
  streams and shifting their windows in ApplyPeerSettings; reading the initial window and registering the
  stream; openStream, which runs under the worker's lock.
- Every submit has a completion channel of its own. A stream is not deregistered while a writer is parked
  on it: a handler's goroutine writes and then deregisters, and a forwarder waits for its body loop first
  (`internal/proxy/forward.go`, lines 45-49 and 96-112). It leaves the connection's registry before the
  worker's.
- Time is passed in. The transport is a number of sends that still succeed; flow control is the credit each
  Reserve finds; a body reader is the list of what its Read calls return. Theorems quantify over all of
  these.
- Go's 32- and 64-bit integers wrap, and the model wraps where the source can: windows, the length
  converted to int32 in Write, stream identifiers, the accumulator check, the PING counter.
- HPACK is an ordered list of fields that arrives as it was written. Canonical header names are those of
  Go's CanonicalMIMEHeaderKey. A Content-Length is absent, a number, or text that does not parse.

## What turned out not to hold

Each of these comes with a run in which it fails and the exact condition under which it holds.

- Drain completion can be reported while a stream has been registered all along: RemoveStream loads the
  draining flag after releasing the lock (`Drain.PrematureCompletionHappens`). It can happen exactly when,
  at the moment BeginDrain stores the flag, streams are registered and some RemoveStream that saw an empty
  registry has not loaded the flag yet (`Drain.PrematureIff`).
- The chunk loop of Write ends exactly for slices below 2^31 bytes (`ChunkLoop.ChunkLoopEndsIff`). A longer
  slice comes to a remainder whose int32 conversion is not positive, from where on only empty DATA frames
  go out (`ChunkLoop.BigGetsStuck`, `ChunkLoop.StuckSendsEmptyFrames`); at 2^31 bytes that is so from the
  first turn (`ChunkLoop.StuckAtTwoToThe31`).
- A malformed Content-Length is removed before the headers go out, except on a bodyless response whose
  handler leaves one it set after a Write or Flush (`ResponseProof.UnreadableLengthForwardedIff`,
  `ResponseProof.UnreadableLengthCanBeForwarded`).
- A complete response is not always read to an end: if the request body is still arriving, the worker
  resets the stream with NO_ERROR after END_STREAM, and the proxy's reader may report that instead
  (`EndToEnd.CompleteResponseCanReadAsReset`). It reports the end exactly if nothing is left, END_STREAM
  came, and neither a reset nor a teardown did (`EndToEnd.EofIff`); either way it has been given the whole
  body (`EndToEnd.BodyArrivesIntact`).
- A header key comes back from the wire unchanged exactly when it is a token in canonical form, or no token
  and already lower case (`HeaderNames.KeySurvivesIff`); `etag` comes back as `Etag`
  (`HeaderNames.LowerCaseTokenChanges`).
- A response's status does not survive a map key spelt like `:status` (`HeaderCodec.StatusCanBeReplaced`). It
  does, whatever it is, exactly if no such key has a value (`HeaderCodec.StatusSurvivesIff`); the same goes
  for the method, path and authority of a request (`HeaderCodec.RequestLineSurvivesIff`).
- A failed open does not always leave the registries alone. The framer writes no identifier of 2^31 or more, so
  on one connection opens succeed only for the first 2^30 identifiers (`OpenStream.OpenSucceedsIff`) while
  failed ones go on taking identifiers. After 2^31 of them an identifier that is still registered comes round
  again, and the rollback drops it (`OpenStream.ReusedIdentifier`). The call is all or nothing exactly if it
  is refused or its identifier is not registered (`OpenStream.OpenIsAllOrNothing`).
- A stale PING acknowledgement clears a later PING exactly after whole wraps of the 64-bit counter
  (`Watchdog.StaleAckClearsIff`), which a run of 2^64 + 1 PINGs shows (`Watchdog.StaleAckCanClear`).

## Model

| member | source | states |
|---|---|---|
| `Conservation.CreditIsConserved` | internal/h2/flow.go:48-92 | in every reachable state of two ends running this code, connection window + granted-but-unsent bytes + DATA in flight + credit in flight is exactly 65535 in each direction; per stream the same sum is never above 65535 and exactly 65535 while the receiver has the stream registered (or its HEADERS are on the way) |
| `Conservation.WindowsNeverOverflow` | internal/h2/conn.go:568-602 | in every reachable state windows stay in [0, 65535]; an exhausted connection window has bytes or credit in transit, and so has an exhausted stream window while the other end has the stream registered or its HEADERS are on the way |
| `Conservation.WindowOfADroppedStream` | internal/h2/conn.go:576-581 | a run in which the other end has dropped the stream, its window is exhausted and nothing is in transit |
| `Conservation.MoveKeepsConn` | internal/h2/conn.go:568-602 | every single move of the two-ended system keeps both connection sums |
| `Conservation.MoveKeepsStream` | internal/h2/conn.go:568-602 | every single move keeps the sum of every stream, including streams one end has dropped |
| `Conservation.DataArrivesAccepted` | internal/proxy/worker.go:141-167 | DATA never reaches the worker before the HEADERS that open its stream |
| `FlowControl.StreamLedger` | internal/h2/flow.go:48-111 | after any run of grants, WINDOW_UPDATEs and SETTINGS changes a stream's window is current initial window + increments - bytes granted, reduced to 32 bits; it is that balance exactly if and only if the balance fits in int32 |
| `FlowControl.ConnLedger` | internal/h2/flow.go:48-81 | the connection window is 65535 + connection increments - grants over all streams, with the same exactness condition |
| `FlowControl.NegativeWindowHasCause` | internal/h2/flow.go:94-111 | a window is negative only if the peer lowered the initial window or overflowed it earlier in the run; sending never takes a window below zero |
| `FlowControl.Avail` | internal/h2/flow.go:48-70 | a grant is positive exactly when both windows are, never exceeds request or either window, and is as large as one of the three |
| `FlowControl.NoLostWakeup` | internal/h2/flow.go:39-131 | after every interleaving a writer still parked has no usable credit and the connection is not dead, although the condition variable is created lazily |
| `FlowControl.WakingHasCause` | internal/h2/flow.go:74-131 | a parked writer is woken only by credit for the connection or a registered stream, a changed initial window, or death |
| `FlowControl.CurrentInitialIsTracked` | internal/h2/flow.go:98-120 | the stored initial window is the last one the peer sent |
| `FlowControl.StateIsHistory` | internal/h2/flow.go:124-131 | the connection is dead exactly once marked so, and windows are kept for exactly the streams opened and not removed since |
| `SendCredit.Credits.Reserve` | internal/h2/flow.go:48-70 | grants what Avail allows and takes it from both windows, or parks the caller, or reports a dead connection; asks of zero or less change nothing |
| `SendCredit.Credits.Wake` | internal/h2/flow.go:74-81 | a broadcast wakes every parked writer, and is skipped if no condition variable exists yet |
| `SendCredit.Credits.AddConn` | internal/h2/flow.go:74-81 | the connection window grows with 32-bit wrap and parked writers are woken |
| `SendCredit.Credits.AddStream` | internal/h2/flow.go:85-92 | the stream's own window cell grows with 32-bit wrap and parked writers are woken |
| `SendCredit.Credits.ApplyInitialWindowDelta` | internal/h2/flow.go:98-111 | every listed stream cell moves by the difference of the initial windows, and nothing is woken when there is none |
| `SendCredit.Credits.MarkDead` | internal/h2/flow.go:124-131 | the connection is dead and every parked writer is woken |
| `SendCredit.Conn.constructor` | internal/h2/conn.go:159-183 | a new connection starts with both windows at 65535, frames of at most 16384 bytes, no stream limit and no stream |
| `SendCredit.Conn.OpenStream` | internal/proxy/worker.go:141-167 | a new stream cell holds the peer's current initial window and no other cell changes |
| `SendCredit.Conn.RemoveStream` | internal/h2/conn.go:247-255 | only that stream leaves the registry; windows of the others are untouched |
| `SendCredit.Conn.Reserve` | internal/h2/flow.go:48-70 | through the registry, Reserve is one step of the flow-control machine, and the bytes returned are its grant |
| `SendCredit.Conn.MarkDead` | internal/h2/flow.go:124-131 | teardown is one step of the machine: dead, and every parked writer woken |
| `SendCredit.Conn.HandleWindowUpdate` | internal/h2/conn.go:594-602 | stream 0 moves the connection window, a known stream its own, an unknown one nothing |
| `SendCredit.Conn.ActiveStreams` | internal/h2/conn.go:288-296 | lists every registered stream exactly once |
| `SendCredit.Conn.ApplyInitialWindow` | internal/h2/conn.go:401-406 | shifts all registered windows at once, as one step of the machine |
| `SendCredit.Conn.ApplyPeerSetting` | internal/h2/conn.go:393-421 | accepts a setting exactly if it is legal and then changes only what that setting governs |
| `SendCredit.Conn.ApplyPeerSettings` | internal/h2/conn.go:393-421 | settings take effect in order up to the first illegal one, which fails the frame |
| `SendCredit.SettingsAreARun` | internal/h2/conn.go:393-421 | a SETTINGS frame moves the windows like a run of initial-window events (so the ledgers apply to it), succeeds exactly if every setting is legal, and keeps the frame size in [16384, 16777215] |
| `SendCredit.SettingsTakeEffect` | internal/h2/conn.go:393-421 | a frame, legal or not, leaves the last stream limit and the last frame size before its first illegal setting, or the old ones, and hands over every table size before it in order |
| `SendCredit.LegalRanges` | internal/h2/conn.go:396-418 | the legal values of each setting are those of section 6.5.2 of RFC 9113 |
| `SendCredit.InitialWindowStep` | internal/h2/flow.go:98-111 | the early return on a zero delta is invisible |
| `HttpFrames.PhaseIsGrammar` | stream.go:19-103 | the frame-by-frame phase machine accepts exactly the words of the response grammar: interim headers, final headers, DATA, END_STREAM, resets |
| `ResponseProof.ResponseIsProper` | stream.go:19-103 | for every sequence of handler calls, every ending (return, panic, bad path) and every moment of transport death: the stream's frames are a prefix of a well-formed response, a whole one if the transport lives; DATA never exceeds a declared length and END_STREAM means exactly that many bytes; HEAD, 204 and 304 carry no DATA |
| `ResponseStory.ResponseIsItsStory` | stream.go:19-103 | for every call sequence and ending, on a transport that outlasts it and with credit for every slice, the frames are exactly those told from the calls alone: interim responses in order with the map of their moment, final HEADERS with the chosen status and the map sent, every slice, every flush, and the ending |
| `ResponseStory.CallsTell` | writer.go:48-201 | after any calls, frames and fields are those of the story: the status is the last final code given before the first Write or Flush, 200 if none |
| `ResponseStory.WriteIsRefusedIff` | writer.go:164-176 | a Write is refused as too long exactly if its slice is not empty and takes the body past the length the HEADERS on the wire declare; otherwise, given credit, all of it goes out |
| `ResponseStory.CompletesIff` | stream.go:80-100 | a returning handler's response ends in END_STREAM, with the status it chose, exactly if the body matches the declared length or none is declared, and in an error reset otherwise |
| `ResponseProof.ProperAtEveryMoment` | writer.go:133-223 | the same holds of what the peer has seen at any earlier moment |
| `ResponseProof.CallsTrack` | writer.go:48-201 | after any sequence of calls the writer's fields describe exactly the frames already sent |
| `ResponseProof.WriteTracks` | writer.go:155-201 | on a body-bearing response exactly the prefix reported as written joins the body on the wire, all of it unless the writer failed |
| `ResponseProof.FlushTracks` | writer.go:114-131 | Flush keeps the record straight and adds no body bytes |
| `ResponseProof.WriteHeaderTracks` | writer.go:48-76 | WriteHeader keeps the record straight for interim, final and repeated codes |
| `ResponseProof.EndStreamIsProper` | writer.go:210-223 | endStream completes the response, refuses a body short of its declared length without sending, or reports the dead transport |
| `ResponseProof.AfterReturnIsProper` | stream.go:80-103 | what follows the handler's return ends the stream properly; RST(NO_ERROR) only after END_STREAM |
| `ResponseProof.AfterPanicIsProper` | stream.go:31-51 | a panic ends in an empty 500 if no headers are out, else in an error reset, and the stream stays well formed |
| `ResponseProof.UnreadableLengthForwardedIff` | writer.go:90-107 | over all call sequences, endings and transports: a malformed Content-Length goes out exactly on a bodyless response whose handler returns, with the transport alive, and whose last header map has one set after a Write or Flush |
| `ResponseProof.CallsMoveHeader` | writer.go:90-107 | the response shape is resolved exactly if a Write or Flush is among the calls, and the length left is malformed exactly if set after one |
| `ResponseProof.UnreadableLengthCanBeForwarded` | writer.go:90-107 | a HEAD handler that flushes and then sets one shows that it happens |
| `ChunkLoop.ChunkLoopEndsIff` | writer.go:177-200 | for every frame size: below 2^31 bytes any credits finish the slice after at most one turn per byte; from 2^31 bytes on no number of credits ever does |
| `ChunkLoop.BigIsNeverFinished` | writer.go:177-200 | after any turns with any credits, at least 2^31 bytes of such a slice are left |
| `ChunkLoop.BigGetsStuck` | writer.go:183-186 | within 2^31 turns such a slice reaches a remainder that asks for nothing |
| `ChunkLoop.StuckSendsEmptyFrames` | internal/h2/flow.go:48-51 | from there every turn sends an empty DATA frame and leaves the remainder as it is |
| `ChunkLoop.StuckAtTwoToThe31` | writer.go:177-200 | a slice of 2^31 bytes is there from the first turn on |
| `ChunkLoop.LeftAtIsLeft` | writer.go:177-200 | the remainder the method keeps is the one those theorems are about |
| `ChunkLoop.PieceIsLargest` | writer.go:183-190 | a piece is as large as what is left, the frame size and the credit allow |
| `ResponseWriter.Wire.Submit` | internal/h2/writer.go:248-277 | a frame is on the wire exactly if success is reported, and a dead writer takes no more |
| `ResponseWriter.Response.WriteHeader` | writer.go:48-59 | the method computes the step the theorems are about, for every code and state |
| `ResponseWriter.Response.WriteInformational` | writer.go:64-76 | 101 is dropped; other interim headers go out without Content-Length and without END_STREAM |
| `ResponseWriter.Response.Prepare` | writer.go:90-107 | the response shape is resolved once, from the status, the method and the Content-Length then in the map |
| `ResponseWriter.Response.WriteHeaders` | writer.go:133-144 | final headers go out at most once |
| `ResponseWriter.Response.Flush` | writer.go:114-131 | headers and an empty DATA frame, nothing on a bodyless response |
| `ResponseWriter.Response.SendChunk` | writer.go:177-200 | one turn sends a piece within the frame size, the grant and what is left, non-empty below 2^31 bytes, and leaves the remainder the length theorems give |
| `ResponseWriter.Response.WriteChunks` | writer.go:177-200 | for slices of any length: the pieces concatenate to a prefix of the slice, the whole of it only if nothing failed; each is within its own grant and the frame size; a slice of 2^31 bytes or more keeps at least 2^31 unsent |
| `ResponseWriter.Response.Write` | writer.go:155-201 | the slice is cut into the sent pieces and an unsent rest, with the result and state the specification gives for that cut; a slice of 2^31 bytes or more never succeeds on a response with a body |
| `ResponseWriter.Response.EndStream` | writer.go:210-223 | computes the specification of endStream |
| `ResponseWriter.Response.Recover` | stream.go:31-51 | computes the specification of the panic path |
| `ResponseWriter.Response.CloseOut` | stream.go:80-103 | computes the specification of the return path |
| `ResponseWriter.ServeStream` | stream.go:19-103 | driven by any handler on any transport, the objects put a well-formed, correctly sized response on the wire |
| `BodySpec.Fifo` | internal/h2/stream.go:124-224 | for every interleaving of pushes, partial reads, close and failures: bytes delivered followed by bytes unread are the bytes pushed |
| `BodySpec.DrainedBeforeEnd` | internal/h2/stream.go:181-224 | the end, or the first failure, is reported only after everything pushed was delivered; a read waits only on an empty unfinished body |
| `BodySpec.FlagsTrack` | internal/h2/stream.go:132-156 | the body is finished exactly if it was closed or failed, and the error kept is the first one |
| `BodySpec.ReadTakesPrefix` | internal/h2/stream.go:181-224 | a read takes at most n bytes off the front and loses none |
| `BodySpec.ReadGives` | internal/h2/stream.go:181-224 | a read that finds anything is given as much of the current or oldest chunk as fits; otherwise it waits, ends or fails as the flags say |
| `BodySpec.ReadsDeliverAll` | internal/h2/stream.go:181-224 | in every run, finitely many further reads of any positive sizes deliver everything pushed, and the next one waits, ends or fails |
| `BodySpec.NoLostSignal` | internal/h2/stream.go:124-156 | although signals follow the unlock, a parked reader has an empty unfinished body unless a notifier is still on its way |
| `BodyQueue.Pool.Lend` | internal/h2/pools.go:63-69 | a buffer handed out is fresh or was free, and is lent to nobody else |
| `BodyQueue.Pool.Return` | internal/h2/pools.go:72-76 | only a lent buffer can be given back, so never twice |
| `BodyQueue.Stream.PushData` | internal/h2/stream.go:124-129 | appends to the FIFO and takes ownership of that buffer alone, although the slice's backing array is overwritten in place |
| `BodyQueue.Stream.CloseData` | internal/h2/stream.go:132-137 | finishes the body and touches no byte |
| `BodyQueue.Stream.FailBody` | internal/h2/stream.go:144-156 | finishes the body keeping the first error and touches no byte |
| `BodyQueue.Stream.Pop` | internal/h2/stream.go:204-213 | the oldest chunk comes off; compaction keeps the rest in order, the consumed prefix at most 8 or under half, and total chunks moved within total popped |
| `BodyQueue.Stream.TakeChunk` | internal/h2/stream.go:204-216 | the oldest chunk becomes the reader's current one and no buffer changes owner |
| `BodyQueue.Stream.CopyOut` | internal/h2/stream.go:181-224 | copies a prefix out; the buffer returns to the pool exactly when it is used up |
| `BodyQueue.Stream.Read` | internal/h2/stream.go:181-224 | the compacting queue reads exactly like the byte FIFO, and gives back precisely the buffers it no longer owns; a read of what a closed reader still sees changes neither body nor ownership |
| `BodyQueue.Stream.ReadStale` | internal/h2/stream.go:181-190 | such a read takes its bytes off the stale view only |
| `BodyQueue.Stream.ReturnBuf` | internal/h2/stream.go:226-231 | the current buffer goes back once |
| `BodyQueue.Stream.DropQueue` | internal/h2/stream.go:233-247 | every live slot's buffer goes back once, stale slots' none |
| `BodyQueue.Stream.Close` | internal/h2/stream.go:233-247 | everything the stream owns goes back to the pool, exactly once |
| `BodyQueue.Stream.Release` | internal/h2/stream.go:87-107 | as Close, whatever was done before |
| `BodyQueue.Stream.Reset` | internal/h2/stream.go:70-83 | a reused stream is indistinguishable from a new one |
| `BodyQueue.Stream.Inbound` | internal/h2/conn.go:568-590 | a DATA payload is copied into a buffer nobody else holds and pushed, END_STREAM closes after it, and every buffer already lent stays lent with its bytes |
| `BodyPool.PerformAll` | internal/h2/pools.go:54-76 | for any number of streams on one pool and any sequence of inbound data, reads (after a close too), failures, closes, releases and reuses: the streams' buffers are pairwise disjoint, together exactly what the pool has lent, and each stream's body moved by its own operations only |
| `BodyPool.PooledBodyIsFifo` | internal/h2/stream.go:124-224 | whatever other streams do with the shared buffers, a stream's body is the byte FIFO fed by its own operations |
| `BodyPool.PerformAt` | internal/h2/stream.go:87-247 | one operation on one stream leaves every other stream and the exact, exclusive ownership as they were |
| `BodyPool.Perform` | internal/h2/stream.go:87-247 | the pool lends what the stream gains, gets back what it loses, and no lent buffer's bytes change |
| `BodyPool.ExactStays` | internal/h2/pools.go:63-76 | exclusive and complete ownership survives any trade between one owner and the pool |
| `BodyPool.Open` | internal/h2/stream.go:70-83 | a stream may join at any time, owning nothing |
| `InboundData.CreditCoversPadding` | internal/h2/conn.go:558-580 | whatever any peer sends, connection WINDOW_UPDATEs return exactly the payload bytes that arrived, padding included, and each stream's exactly those that arrived while it was registered |
| `InboundData.ResetIffUnregistered` | internal/h2/conn.go:576-581 | DATA is answered with a reset exactly if its stream is not registered and it has a payload |
| `InboundData.BodyGetsTheData` | internal/h2/conn.go:582-589 | a registered stream's body holds the data of its frames, in order, and none of the padding |
| `InboundData.BodyEndsIff` | internal/h2/conn.go:587-589 | and is finished exactly by END_STREAM |
| `InboundData.HandleInboundData` | internal/h2/conn.go:568-590 | one DATA frame, stream registered or not: the credit or reset owed is queued and the body receives the data |
| `EndToEnd.BodyArrivesIntact` | internal/h2/conn.go:568-590 | over all interleavings of handler, wire, other streams, dispatch, reads and teardown: what the proxy's reader got is a prefix of what the handler's writes accepted, and all of it once the reader sees the end or a failure after END_STREAM |
| `EndToEnd.EverythingArrives` | internal/h2/stream.go:181-224 | nothing is held back: once what was sent is dispatched, finitely many reads give the reader all that the handler's writes accepted |
| `EndToEnd.WireRunsDry` | internal/h2/writer.go:104-143 | every run can be continued, by dispatching alone, until nothing is on the wire |
| `EndToEnd.EofIff` | internal/h2/stream.go:181-203 | in every run a read reports the end exactly if nothing is left to read, END_STREAM was dispatched, and neither a reset nor a teardown came in |
| `EndToEnd.CompleteResponseCanReadAsReset` | stream.go:96-100 | a handler that returns during the request body makes a complete response whose reader is told of a reset |
| `EndToEnd.RunKeepsFlags` | internal/h2/stream.go:132-156 | the body is finished exactly by END_STREAM, reset or teardown, and failed exactly by the last two |
| `EndToEnd.RunKeeps` | internal/h2/writer.go:104-143 | in every run sent frames = dispatched frames + this stream's frames on the wire, and bytes got + unread = payload dispatched |
| `EndToEnd.CallExtends` | writer.go:155-201 | a handler call only adds frames and adds exactly the accepted bytes to the payload |
| `EndToEnd.NothingAfterEnd` | stream.go:80-103 | after END_STREAM a well-formed response carries no further payload |
| `RequestBody.SendBuffer` | internal/proxy/forward.go:197-208 | a filled buffer goes out in order in non-empty pieces, each as large as its grant but the last; whole exactly unless the transport fails or the credits run out |
| `RequestBody.CloseRequest` | internal/proxy/forward.go:209-215 | end of body sends one empty END_STREAM frame, any other read error one reset |
| `RequestBody.StreamRequestBody` | internal/proxy/forward.go:180-217 | the DATA payloads concatenate to what was read, pieces are within the frame size, and the loop closes with exactly one END_STREAM, one RST(CANCEL) or nothing, according to why it ended |
| `RequestBody.RequestArrivesIntact` | internal/proxy/forward.go:96-217 | however dispatch, the handler's reads, teardown and cancelling resets between the DATA frames interleave, the handler gets a prefix of what the proxy read, and sees the end only with all of it |
| `RequestBody.RequestArrivesWhole` | internal/proxy/forward.go:180-217 | once its frames are dispatched, finitely many reads give the handler everything the loop sent |
| `RequestBody.RunKeepsReceived` | internal/h2/conn.go:568-590 | bytes read + bytes queued = payload of the frames dispatched, at every moment |
| `OpenStream.NextIdIsKth` | internal/h2/conn.go:219-226 | the k-th identifier is 2k-1 modulo 2^32 |
| `OpenStream.IdsAreAllocatedInOrder` | internal/h2/conn.go:219-226 | in every run the last identifier is the k-th, k counting allocations |
| `OpenStream.LegalIds` | internal/h2/conn.go:219-226 | identifiers ascend, and are legal exactly for the first 2^30 |
| `OpenStream.IdsRepeat` | internal/h2/conn.go:219-226 | 2^31 allocations later the same identifier is given out |
| `OpenStream.HeadersAscend` | internal/proxy/worker.go:133-167 | in every run, of any length, request HEADERS carry the identifiers 1, 3, 5 and so on with none skipped, so strictly ascending and all legal, and the connection's registry is within the worker's |
| `OpenStream.RunsAreRegular` | internal/proxy/worker.go:141-167 | the invariant behind it: what was sent is what was issued until the writer ends, and at most 2^30 |
| `OpenStream.OpenSucceedsIff` | internal/proxy/worker.go:141-167 | in every reachable state an open is refused exactly while draining or with as many streams registered as the limit allows, and otherwise succeeds exactly if writer and transport are alive and fewer than 2^30 identifiers were issued |
| `OpenStream.FlagsAreHistory` | internal/proxy/worker.go:144-149 | the limit in force is the last one the peer set, and draining is on exactly once told |
| `OpenStream.RegistryIsHistory` | internal/proxy/forward.go:39-43 | until identifiers run out the connection's registry is exactly the streams opened and not removed since |
| `OpenStream.RegistryIsSmall` | internal/proxy/worker.go:147 | no more streams are registered than HEADERS were sent, so the 32-bit length in the limit check is exact |
| `OpenStream.DeadWriterSendsNothing` | internal/h2/writer.go:259-276 | after the writer's end no run sends request HEADERS |
| `OpenStream.OpenIsAllOrNothing` | internal/proxy/worker.go:141-167 | in every reachable state: a success saw room under the limit and adds one new identifier to both registries; the call is all or nothing exactly if it is refused or the next identifier is not registered, as is always so before 2^31 were issued |
| `OpenStream.EveryCountIsReached` | internal/h2/conn.go:219-226 | every number of allocations is reached; on a sound transport the first 2^30 opens succeed, the next is refused by the framer, and none after it succeeds |
| `OpenStream.ReusedIdentifier` | internal/proxy/worker.go:159-165 | a run in which a failed open's rollback drops another stream's registration |
| `OpenStream.Worker.NextStreamID` | internal/h2/conn.go:219-226 | returns 1 first, then 2 more each time with 32-bit wrap |
| `OpenStream.Worker.SendHeaders` | internal/h2/writer.go:127-143 | HEADERS are written exactly on a legal identifier with writer and transport alive, and the first failure ends the writer |
| `OpenStream.Worker.OpenStream` | internal/proxy/worker.go:141-167 | the locked section, refusals and rollback included, is one step of the machine |
| `OpenStream.Worker.EndForward` | internal/proxy/forward.go:39-43 | both registries drop the stream, the connection's first |
| `Drain.DrainCompletionIsNeverMissed` | internal/h2/conn.go:247-347 | in every interleaving at lock granularity: drain begun, all calls returned and registry empty imply completion was reported |
| `Drain.StateIsHistory` | internal/h2/conn.go:231-255 | after any interleaving the registry is exactly the streams added and not removed since, and the drain is on exactly once begun |
| `Drain.PrematureIff` | internal/h2/conn.go:247-255 | completion can be reported with streams registered throughout the drain exactly if, when the flag is stored, streams are registered and some RemoveStream that saw an empty registry has yet to load it |
| `Drain.PromptRemovalIsNeverPremature` | internal/h2/conn.go:308-317 | with count and flag load as one step, completion is reported only after the registry was empty during the drain |
| `Drain.PrematureCompletionHappens` | internal/h2/conn.go:247-255 | a six-step run in which it is reported with a stream still registered |
| `Drain.RunsAreHonest` | internal/h2/conn.go:247-347 | the invariant behind both directions, over all runs |
| `Drain.Registry.AddStream` | internal/h2/conn.go:231-235 | registration as one step of the machine |
| `Drain.Registry.RemoveStream` | internal/h2/conn.go:247-255 | run alone, the call is its three steps in order |
| `Drain.Registry.BeginDrain` | internal/h2/conn.go:308-317 | run alone, the call is its three steps in order |
| `Drain.Registry.FinishDrain` | internal/h2/conn.go:322-327 | completion is recorded, however often it is reported |
| `Continuation.SplittingIsInvisible` | internal/h2/conn.go:449-495 | for every split of every header block of at most 2^20 bytes into HEADERS and CONTINUATION frames, between any other frames, the decoder gets exactly the original blocks with their stream and END_STREAM flag |
| `Continuation.AcceptedRunsAreItems` | handler.go:85-98 | conversely a run without error, and with no block open, consists of whole groups within the limit: every interleaved or oversized frame is an error |
| `Continuation.OpenRunsAreItemsCutShort` | handler.go:85-98 | and one that ends with a block open consists of whole groups and one that lacks its end, with exactly its bytes accumulated |
| `Continuation.ErrorsAre` | handler.go:85-98 | which next frame is an error and which one: none while idle; anything but the open stream's CONTINUATION is interleaved; such a CONTINUATION is too large exactly past 2^20 bytes |
| `Continuation.AccumulatorIsBounded` | internal/h2/conn.go:479-495 | the accumulator never exceeds 2^20 bytes |
| `Continuation.StepBounded` | internal/h2/conn.go:479-495 | the 32-bit sum in the limit check never wraps |
| `Continuation.ContinuationsComplete` | internal/h2/conn.go:479-495 | CONTINUATION frames complete the open block and the loop goes on idle |
| `Continuation.OpenBlockIsCompleted` | handler.go:85-98 | an open block that ends without error was ended by CONTINUATION frames of its own stream |
| `Continuation.Accumulator.StartHeaders` | internal/h2/conn.go:449-460 | decodes at once or opens the accumulator with the frame's fragment, stream and flag |
| `Continuation.Accumulator.ConsumeContinuation` | internal/h2/conn.go:479-495 | appends, decodes on END_HEADERS, and refuses past the limit |
| `Continuation.Accumulator.Handle` | handler.go:85-98 | one frame through the loop is one step of the machine |
| `Continuation.Accumulator.Serve` | handler.go:48-104 | the frame loop over any frames hands over exactly the blocks of the run and its error |
| `WriterQueue.WrittenInEnqueueOrder` | internal/h2/writer.go:104-143 | in every run frames reach the framer in enqueue order, none skipped, none twice |
| `WriterQueue.SubmitTellsTheTruth` | internal/h2/writer.go:248-277 | success means the caller's own frame is already written; failure means it is not and never will be |
| `WriterQueue.SyncIsAnswered` | internal/h2/writer.go:248-288 | a synchronous submitter that returned was told written exactly if its frame is on the wire and failed otherwise; a fire-and-forget one never waits |
| `WriterQueue.NobodyIsStuck` | internal/h2/writer.go:104-143 | after the writer's death every submitter can return, queued before the final drain, after it, or never; before it, a waiting one has its answer or a writer that can move |
| `WriterQueue.StopsIffAsked` | internal/h2/writer.go:126-142 | a writer with no write in hand can leave its loop exactly if a shutdown was asked for somewhere in the run, and is then dead within one step |
| `WriterQueue.RunsKeepFate` | internal/h2/writer.go:248-288 | every intent is at all times in exactly the place its submitter's state says |
| `WriterQueue.RunsAreOrdered` | internal/h2/writer.go:104-143 | enqueued = taken + queued, and written is a prefix of taken, over all runs |
| `Watchdog.SilenceIsBounded` | handler.go:61-77 | from any reachable state, total silence from t on is declared dead by t + (floor(T/I) + 2) * I for interval I and timeout T |
| `Watchdog.SilenceIsDetected` | internal/h2/conn.go:359-374 | with no PING outstanding, the connection is dead at tick k exactly from k = floor(T/I) + 2 on |
| `Watchdog.SilenceAfterPing` | internal/h2/conn.go:359-374 | with one outstanding, it is dead at tick k exactly if that tick is after the deadline, and nothing else changes |
| `Watchdog.DeadIffUnanswered` | internal/h2/conn.go:359-382 | over all runs a tick declares death exactly if some PING was sent more than T ago and its acknowledgement was not handled since |
| `Watchdog.AtMostOneOutstanding` | internal/h2/conn.go:359-382 | at most one PING is unanswered at any time, and it is the one awaited |
| `Watchdog.StaleAckClearsIff` | internal/h2/conn.go:378-382 | an acknowledgement of an earlier PING clears a later one exactly if a multiple of 2^64 PINGs lies between them |
| `Watchdog.StaleAckIsIgnored` | internal/h2/conn.go:378-382 | within the first 2^64 PINGs it changes nothing |
| `Watchdog.EveryCountIsReached` | internal/h2/conn.go:359-374 | every number of PINGs is reached, the last one outstanding |
| `Watchdog.StaleAckCanClear` | internal/h2/conn.go:378-382 | a run of 2^64 + 1 PINGs in which the first acknowledgement, arriving late, clears the last PING |
| `Watchdog.PayloadIsInjective` | internal/h2/conn.go:366-371 | different 64-bit counters have different eight-byte payloads |
| `Watchdog.BigEndianRoundTrips` | internal/h2/conn.go:366-371 | the big-endian payload decodes to the counter |
| `Watchdog.PingsAreNumbered` | internal/h2/conn.go:359-374 | in every run the i-th PING carries i modulo 2^64 and the awaited payload is the last one sent |
| `Watchdog.Pinger.SendOrCheckPing` | internal/h2/conn.go:359-374 | one tick of the machine; an error exactly if the connection is now dead; the PING sent is the one recorded |
| `Watchdog.Pinger.HandlePingAck` | internal/h2/conn.go:378-382 | one acknowledgement step of the machine |
| `PoolSlots.RunsAreSound` | connection.go:61-152 | over all runs of slots, reapers and shutdown: maintainer count = live slots + live reapers, ready count = slots still owing their credit, and every registered connection has exactly one owner |
| `PoolSlots.WaitGroupsAreUsedSafely` | connection.go:138-151 | neither wait group goes negative, and a reaper is added only while the maintainer count is positive |
| `PoolSlots.ZeroMeansGone` | pool.go:54-81 | when Shutdown can return nil every slot has exited, no reaper and no connection is left, and every slot has released its ready credit |
| `PoolSlots.ZeroIsStable` | pool.go:54-81 | and it stays so in every continuation |
| `PoolSlots.ReadyMeansConnected` | connection.go:124-132 | until a shutdown, a slot's ready credit is released only by a completed handshake of that slot |
| `PoolSlots.ReleasedIffConnected` | connection.go:124-132 | before a shutdown a slot has released its ready credit exactly if it completed a handshake |
| `PoolSlots.ReadyGate` | pool.go:45-48 | Ready completing before a shutdown means every slot has been connected |
| `PoolSlots.ShutdownWindsDown` | connection.go:64-81 | once shutdown has begun a slot changes state at most six more times, whatever happens, and starts no new dial |
| `PoolSlots.SlotsFollowEdges` | connection.go:61-152 | a slot only ever moves along the life cycle: dial, handshake, serve, back off, dial again, and leave after a shutdown |
| `PoolSlots.EdgesAreTaken` | connection.go:61-152 | every step of the life cycle can be taken; a handshake registers its connection, and serving or leaving has released the credit |
| `PoolSlots.DrainHandsOver` | connection.go:138-151 | a draining connection stays registered with its reaper while its slot is free to redial |
| `PoolSlots.SlotsStayUntilShutdown` | connection.go:64-81 | no slot leaves before a shutdown |
| `PoolSlots.ShutdownIsHistory` | pool.go:55-56 | a shutdown is seen exactly once begun |
| `PoolSlots.StepKeepsOwned` | pool.go:83-93 | dialing, failing, serving, draining and reaping keep the one-owner property |
| `HeaderNames.ToLower` | internal/h2/pools.go:36-50 | the scan-then-copy fast path lower-cases every ASCII letter and nothing else |
| `HeaderNames.KeySurvivesIff` | internal/h2/conn.go:546-552 | a key is recovered from its wire form exactly if it is a canonical token, or no token and without upper case |
| `HeaderNames.LowerCaseTokenChanges` | internal/h2/conn.go:546-552 | a lower-case token comes back changed |
| `HeaderSeeds.CanonSeedsAgree` | internal/h2/pools.go:88-109 | each entry of the canonical-name table is what canonicalisation computes |
| `HeaderSeeds.LowerSeedsAgree` | internal/h2/pools.go:114-129 | each entry of the lower-case table is what lower-casing computes |
| `HeaderCodec.DecodeGathers` | internal/h2/writer.go:229-243 | for every header map and every visiting order, each name decodes to the values of all permitted keys of that canonical form, in visiting and value order, and no other name appears |
| `HeaderCodec.DecodeOverrides` | internal/h2/conn.go:534-545 | for every header map, visiting order and pseudo-header: the far side holds the last value of the keys spelt like it, or what the pseudo-header field said if there is none |
| `HeaderCodec.StatusSurvivesIff` | internal/h2/writer.go:195-205 | the status a response decodes to, which is the one sent, whatever it is, exactly if no key spelt like it has a value |
| `HeaderCodec.RequestLineSurvivesIff` | internal/h2/writer.go:209-227 | the same for method, path and authority |
| `HeaderCodec.StatusCanBeReplaced` | internal/h2/conn.go:542-543 | a handler's key `:status` replaces the status |
| `HeaderCodec.RoundTrip` | internal/h2/writer.go:229-243 | with canonical token keys, decoding gives back the map minus connection-specific names and empty lists, whatever the visiting order |
| `HeaderCodec.ResponseRoundTrip` | internal/h2/writer.go:195-205 | a response block decodes to its status and the forwarded headers |
| `HeaderCodec.RequestRoundTrip` | internal/h2/writer.go:209-227 | a request block decodes to its method, path, authority and the forwarded headers |
| `HeaderCodec.PseudoHeadersLead` | internal/h2/writer.go:195-227 | pseudo-header fields come first, in order, the scheme being https if none is given |
| `HeaderCodec.Codec.constructor` | internal/h2/conn.go:166-187 | both seeded caches agree with the functions they stand in for |
| `HeaderCodec.Codec.LowerName` | internal/h2/writer.go:231-235 | hit or miss, the answer is the lower-cased name and the cache stays right |
| `HeaderCodec.Codec.EncodeRegularHeaders` | internal/h2/writer.go:229-243 | whatever the cache holds, the fields are the encoding of the map in some order that visits every key once |
| `HeaderCodec.Codec.EmitHeader` | internal/h2/conn.go:534-554 | whatever the cache holds, one field has its specified effect and the cache stays right |
| `HeaderCodec.Codec.DecodeBlock` | internal/h2/conn.go:497-529 | a block is decoded from clean scratch fields, independent of earlier blocks |
| `HeaderCodec.Transfer` | internal/h2/writer.go:195-205 | one end's encoder into the other end's decoder delivers status and forwarded headers for any two valid caches |

## Left out

- The transport below the frames: connecting, TLS and certificate checks.
- The encoding of frames and HPACK's compression, which the HTTP/2 library does; frames are values here, and of the framer only its refusal of illegal stream identifiers is modelled.
- What the program reports or lets a user hook into: log lines, callbacks, the HTTP server in front of the proxy.
- Worker selection, attach and detach: a choice among tunnels, which the properties here hold for whatever it is. Least-in-flight compares counters that other goroutines change meanwhile; round robin is a shared counter modulo the number of workers.
- How a request path is parsed; that it may be refused is modelled.
- How the text of a Content-Length is parsed, and maps with several or with an empty one.
- Trailers, which the worker skips, and delivery of 1xx responses to the proxy's caller.
- Hop-by-hop stripping by Connection-listed names in buildForwardedHeader.
- Deadlock freedom over real sockets, fairness, and scheduling delays.
- Recycling of write intents and header maps in their pools.
- The int64 count of bytes written by one response is unbounded in the model.
- Conservation.CreditIsConserved: both ends keep the initial window of 65535, since neither ever sends another; other peers are covered by FlowControl.StreamLedger. Response HEADERS carry no credit and are not among its frames.
- BodyQueue.Stream.ReadStale: which bytes a read returns after Close gave back a partly read chunk is not described, because the buffer may have been reused.
- SendCredit.Conn.RemoveStream: not while a writer is parked on the stream, which neither caller does; a writer parked on a window that no WINDOW_UPDATE can reach any more is not described.
- Watchdog.SilenceIsBounded: idle ticks are exactly one interval apart.
- PoolSlots.ShutdownWindsDown: bounds a slot's remaining steps; that a blocked read or dial returns is left to the transport.
- RequestBody.StreamRequestBody: describes the loop after any finite number of reads; a body that never ends stays underway.
- HeaderCodec.RoundTrip: canonical token keys; for all other keys HeaderCodec.DecodeGathers and HeaderCodec.DecodeOverrides say what arrives.
