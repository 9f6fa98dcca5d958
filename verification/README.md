# Inator: frames, handover and lifecycles

This project models the networking core of Inator, a Bevy networking crate, and proves what its TCP transport and its
WASM client guarantee.

A message travels as a frame: its length, cast through `f64` to one of twelve header types and laid out in one of two
byte orders, then its bytes. At the server every client is first listened to by a reader task for clients that have
not authenticated; a granted login moves the client to another map and spawns a second reader, which waits for the
lock that the first one holds, while a notice in a channel shared by all first readers tells the first one to stop.
A gate lets nothing but authentication messages of unknown senders through. At both ends, flags guard the tasks that
connect, bind, accept and read; and the WASM client sends through a queue that one cooperative task at a time drains.

How it is modelled:

- Concurrency is interleaving. Each machine (`ServerClients`, `Writers`, `ClientLifecycle`, `ServerLifecycle`,
  `WasmQueue`) has a `Step` function for one atomic step of a task, of the network or of the main thread; `After` folds
  it over an arbitrary list of actions, so a statement about `After(run)` is one about every run and every
  interleaving. Histories (what was pushed, reported, submitted, taken) are part of the state. Network actions carry
  what the network does; a failed read or write is permanent.
- Arithmetic is exact. `Rounding` defines the casts from `usize` to floating point by digits and proves them to be
  round-to-nearest, ties-to-even (section 4.3.1 of IEEE 754-2019); `FloatBits` has the binary32 and binary64 patterns
  (section 3.4) and the saturating cast of any pattern back to `usize`.
- Objects that the program updates in place are classes (`TcpServer`, `ServerConnections`, `Clients`, `TcpHalves`,
  `Registry`). The contract of each method is the matching step of a state machine, applied to the object's old state.
  The loops of the program are shown to be runs: `ServerConnection.ReadMessagesServer` is one step of `ServerClients` for
  port, connection and command queue together, `LoginsAreSteps` and `DrainIsARun` do the same for logins and for the
  WASM drain loop.

Operations are steps that come in any order and not one fixed schedule: the server's schedule calls
`check_clients_diconnected` twice and never `check_clients_connected` (`inator/src/plugins/server.rs:101-116`), so no
client would ever be registered in it.

What the proofs say about the code where its intent and its behaviour differ:

- A length above the range of a narrow header type, or with more significant digits than the float it passes through,
  is not carried. `Exact` is the condition; it includes two lengths that are carried by luck, since saturation undoes
  the rounding (`usize::MAX`, and `i64::MAX` in a signed 64-bit header).
- A header that announces more than `isize::MAX` bytes makes the allocation panic, and the reader task dies without
  a report. Every header type but U8, U16 and U32 has such headers (`LengthHeader.RefusedHeaderIff`); as a signed byte,
  0xFF is one (`FrameStream.MinusOneIsRefused`). At the server, a client whose stream has ended is reported if and only
  if it sent none of them (`DisconnectReports.WaitingReportedIff`, and `AuthenticatedReportedIff` for the second reader,
  which goes on behind the header that killed the first one); one that did stays in its map for ever
  (`DisconnectReports.UnreportedForever`), and `LostSignals.ClientIsGoneUnnoticed` is a run that gets there. At the
  client the connection is deaf from then on.
- A notice can be taken by another client's reader, or not be sent at all when a client is admitted after it has gone.
  These are the only ways to lose one (`ReaderLocks.NoticeMissedBy`), `LostSignals.NoticeIsLost` is a run of two clients
  that does, and the first reader is never stopped after it (`ReaderLocks.MissedForever`). Still no frame is lost,
  repeated or misaligned.
- `start_listening_to_server` sets its flag even when there is no stream yet. In the order in which the client's
  systems run, every stream that is not attached in the very frame that asked for it is then never read from
  (`ClientFrames.HeardOnlyInItsFirstFrame`). This and a refused header are the two ways to become deaf
  (`ClientLifecycle.DeafBy`).
- The client's connect task ends without a stream or a signal when it panics, as it does when the peer is gone before its
  address is asked for (`inator/src/ports/tcp/client.rs:282`) or in a hook, and when a TLS handshake fails under
  `try_reconnect`, although a retry is announced. The client then stays connecting for ever, by these steps and no other
  (`ClientLifecycle.AbandonedBy`). A connecting client is stuck exactly when it is abandoned or deaf
  (`ClientLifecycle.StuckIffAbandonedOrDeaf`).
- With a `max_connections` above what a tokio semaphore holds, `usize::MAX >> 3`, the accept task panics at once, and so
  it does when a hook panics; the server then believes that it is accepting for ever (`ServerLifecycle.ForsakenBy`,
  `TooManyPermitsForsake`). A server that is up is stuck in this case and no other (`ServerLifecycle.StuckIffForsaken`).
- A message of a registered type whose payload does not decode panics the main thread, and decoding comes before the
  gate, so its sender need not have logged in (`MessageGate.UndecodableEndsTheServer`).
- The registry's counter is a `u32`: the release build wraps around and overwrites, from the 2^32-th registration on
  (`Registry.OverwritesIff`); a debug build panics there.

The two halves of the codec exist four times in the source, for plain and TLS streams at client and server, with
the same logic; one model stands for all of them. The WASM client runs the lifecycle of the TCP client, without TLS,
without refused headers and with a runtime that is always there.

## Model

| member | source | states |
|---|---|---|
| `Rounding.RoundsToNearestTiesToEven` | inator/src/ports/tcp/server.rs:339-345 | `message_size as f64` is the nearest number of 53 significant digits, and between two equally near ones the one with the even last digit; for any precision |
| `Rounding.RoundExactIff` | inator/src/ports/tcp/server.rs:339-345 | a length survives the cast exactly when its odd part has at most 53 digits |
| `Rounding.RoundTwiceExactIff` | inator/src/ports/tcp/reader_writer.rs:47-47 | rounding to 53 digits and again to 24 is exact just when rounding to 24 is |
| `FloatBits.PatternFields` | inator/src/ports/tcp/reader_writer.rs:97-104 | the float written has the sign, biased exponent and fraction the interchange format prescribes, and fits below the sign bit |
| `FloatBits.PatternRoundTrip` | inator/src/ports/tcp/reader_writer.rs:24-26 | casting the pattern of a representable number to `usize` gives the number, or the largest `usize` beyond the range |
| `FloatBits.PowerPatterns` | inator/src/ports/tcp/reader_writer.rs:97-104 | two to the power k is written as (127 + k) * 2^23 in binary32 and as (1023 + k) * 2^52 in binary64 |
| `Bytes.BytesRoundTrip` | inator/src/ports/tcp/reader_writer.rs:110-166 | in both byte orders, a number below 256^w written in w bytes is read back |
| `Bytes.BytesOnto` | inator/src/ports/tcp/reader_writer.rs:223-276 | every w bytes are the encoding of the number they decode to |
| `Bytes.ByteAt` | inator/src/ports/tcp/reader_writer.rs:58-107 | the i-th digit to the base 256 is the i-th byte from the front in little-endian and from the back in big-endian order |
| `LengthHeader.SinglePattern` | inator/src/ports/tcp/reader_writer.rs:47-47 | a length cast to `f32` and back comes out rounded to 24 digits, saturated at the largest `usize` |
| `LengthHeader.DoublePattern` | inator/src/ports/tcp/reader_writer.rs:48-48 | a length as `f64` comes back unchanged, saturated at the largest `usize` |
| `LengthHeader.CarriedNumber` | inator/src/ports/tcp/reader_writer.rs:8-50 | for each of the twelve types, which `usize` comes out of `read_value_to_usize` for `value_from_number`: the minimum with the type's maximum, the remainder for 128 bits, the second rounding for F32 |
| `LengthHeader.ValueRoundTrip` | inator/src/ports/tcp/reader_writer.rs:110-166 | every value of every header type, negative ones and all float patterns included, is read back as written, in both byte orders |
| `LengthHeader.ValueOnto` | inator/src/ports/tcp/reader_writer.rs:223-276 | every byte string of the right width decodes to a value of the header's type that is written as these bytes |
| `LengthHeader.HeaderExactness` | inator/src/ports/tcp/reader_writer.rs:8-50 | for every `usize`, every header type and both byte orders: the length read is the length written if and only if `Exact` holds of it |
| `LengthHeader.IntegerHeaderBytes` | inator/src/ports/tcp/reader_writer.rs:30-45 | an integer header is the length in the chosen byte order, saturated at the largest number of its type |
| `LengthHeader.SingleHeaderBytes` | inator/src/ports/tcp/reader_writer.rs:47-47 | an F32 header is the rounded length as binary32: with bits / 2^23 the exponent biased by 127 and bits % 2^23 the fraction behind the leading one |
| `LengthHeader.DoubleHeaderBytes` | inator/src/ports/tcp/reader_writer.rs:48-48 | and an F64 header as binary64, with 52 and 1023 |
| `LengthHeader.EmptyHeader` | inator/src/ports/tcp/reader_writer.rs:30-50 | the empty message has an all-zero header in every type |
| `LengthHeader.FormatsFillWords` | inator/src/ports/tcp/reader_writer.rs:97-104 | the two formats fill the 32 and 64 bits they are written in |
| `LengthHeader.TwosComplementBytes` | inator/src/ports/tcp/reader_writer.rs:78-94 | negative integers are written in two's complement |
| `LengthHeader.IntegerCasts` | inator/src/ports/tcp/reader_writer.rs:10-22 | any integer read is cast to `usize` unchanged, sign-extended when negative, and cut to its low 64 digits when longer |
| `LengthHeader.SingleCasts` | inator/src/ports/tcp/reader_writer.rs:25-25 | any F32 pattern read is truncated towards zero and saturated; NaN, negative numbers and numbers below one give 0, infinity the largest `usize` |
| `LengthHeader.DoubleCasts` | inator/src/ports/tcp/reader_writer.rs:26-26 | the same for any F64 pattern |
| `LengthHeader.RefusedHeaderIff` | inator/src/ports/tcp/reader_writer.rs:8-28 | a header type has a header that asks for more than `isize::MAX` bytes if and only if it is none of U8, U16, U32 |
| `FrameStream.DecodeResumes` | inator/src/ports/tcp/client.rs:87-108 | decoding can stop at any byte and resume with the leftover without changing the result |
| `FrameStream.LeftoverIsIncomplete` | inator/src/ports/tcp/client.rs:87-108 | what is left over is the unchanged end of the stream and holds no complete frame |
| `FrameStream.ChunkingIndependence` | inator/src/ports/tcp/client.rs:87-108 | however the stream is cut, inside headers too, the same frames are decoded |
| `FrameStream.PrefixDecodesToPrefix` | inator/src/ports/tcp/client.rs:87-108 | a prefix of the stream decodes to a prefix of its frames |
| `FrameStream.FrameDecodes` | inator/src/ports/tcp/client.rs:150-169 | a frame with anything behind it decodes to its message if and only if its header carries the length |
| `FrameStream.FramesRoundTrip` | inator/src/ports/tcp/client.rs:146-196 | concatenated frames decode to the list of messages if and only if the codec carries every length |
| `FrameStream.TcpCodecCarries` | inator/src/ports/tcp/reader_writer.rs:8-50 | the codec of a TCP port carries exactly the lengths that are `Exact` for its header type |
| `FrameStream.StreamRoundTrip` | inator/src/ports/tcp/client.rs:78-196 | for every header type, byte order and list of messages: all come back, in order, if and only if every length is `Exact` |
| `FrameStream.MinusOneIsRefused` | inator/src/ports/tcp/client.rs:88-91 | in both byte orders the single byte 0xFF as a signed 8-bit header is such a header, and all that the stream decodes to |
| `TcpHalves.WriteHalf.WriteFromSettings` | inator/src/ports/tcp/reader_writer.rs:110-166 | appends the encoding of the value, cut off where the connection breaks, and fails exactly then |
| `TcpHalves.WriteHalf.Write` | inator/src/ports/tcp/server.rs:335-384 | appends the message's frame, cut off where the connection breaks, and fails exactly then |
| `TcpHalves.ReadHalf.ReadFromSettings` | inator/src/ports/tcp/reader_writer.rs:223-276 | consumes one header and decodes it, or fails at the end of the stream |
| `TcpHalves.ReadMessage` | inator/src/ports/tcp/client.rs:88-107 | one round of the read loop takes exactly the first frame off the stream, or panics on a refused header, or ends because no complete frame is left |
| `TcpHalves.ReadLoop` | inator/src/ports/tcp/client.rs:78-110 | the read task delivers every frame up to the first refused header, once and in order, and then sends one down signal, unless it panicked on such a header |
| `TcpHalves.LeadingIsAll` | inator/src/ports/tcp/client.rs:88-107 | when no header is refused, that is every message of the stream |
| `Admission.RunsKeepInv` | inator/src/ports/tcp/server.rs:386-757 | in every run: disjoint maps, readers spawned once and in the right state, one disconnect report per ended reader, senders known, notices only for connected clients |
| `Admission.ReaderAccounting` | inator/src/ports/tcp/server.rs:224-279 | per client at most one reader of each kind is ever spawned, and each reports exactly once if it has met the end of its stream and never otherwise; for which streams that is, `DisconnectReports` says |
| `Admission.MapsAgree` | inator/src/ports/tcp/server.rs:418-432 | the two maps are disjoint, everyone in `listening_clients` is in `clients_connected`, and nobody in `clients_connected` still waits |
| `Admission.StepMoves` | inator/src/ports/tcp/server.rs:418-692 | which single step moves a client between fresh, waiting, authenticated and gone, with its cause; all other steps leave it where it is |
| `Admission.StepMovesExactly` | inator/src/ports/tcp/server.rs:418-692 | over any run, the status after a step is exactly the one given by the registration, granted login or handled report that concerns the client, and else unchanged |
| `Admission.ReapRemoves` | inator/src/ports/tcp/server.rs:614-637 | handling a report takes the client out of the map its reader belongs to, uses the report up, and moves nobody else |
| `Admission.LoginAdmits` | inator/src/plugins/connection.rs:104-118 | a granted login of a waiting client moves it, spawns its second reader and is followed by its notice |
| `Admission.RegisteredIsListenedTo` | inator/src/ports/tcp/server.rs:639-711 | an accepted stream becomes a waiting client, and the next check spawns its first reader |
| `Admission.OnlyOwnReportRemoves` | inator/src/ports/tcp/server.rs:614-637 | an authenticated client leaves only on the report of its second reader, which has ended; a late report of the first one removes nothing |
| `Admission.LifecycleIsForward` | inator/src/ports/tcp/server.rs:418-692 | over any run a client moves only forward from fresh to waiting to authenticated to gone, or from waiting to gone |
| `MessageGate.GateIff` | inator/src/plugins/messaging.rs:241-269 | a read queues a message exactly if it is in the batch, is of a registered type, is of a connected sender or for authentication, and no payload in the batch fails to decode |
| `MessageGate.CommandsTraceable` | inator/src/plugins/messaging.rs:229-276 | whatever is queued or dispatched was in the channel at the read that queued it and passed the gate there |
| `MessageGate.ConnectedHasJoined` | inator/src/plugins/connection.rs:104-118 | every connected client has a step at which its login was granted |
| `MessageGate.DispatchedAfterLogin` | inator/src/plugins/messaging.rs:229-276 | every message dispatched that is not for authentication has a sender whose granted login strictly precedes the read that dispatched it |
| `MessageGate.SameBatchIsGated` | inator/src/plugins/messaging.rs:251-262 | of a batch read before its sender was connected, nothing but authentication messages is ever dispatched |
| `MessageGate.GateKeepsOrder` | inator/src/plugins/messaging.rs:241-269 | what a read queues is part of its batch, in order and without repetition |
| `MessageGate.GateAppend` | inator/src/plugins/messaging.rs:241-269 | every message of a batch is judged on its own, except that one whose payload does not decode takes the whole batch with it |
| `MessageGate.DispatchKeepsOrder` | inator/src/plugins/messaging.rs:229-276 | over any run, what is dispatched and queued is exactly what the reads let pass, one after the other: nothing is dropped, repeated or reordered |
| `MessageGate.UndecodableEndsTheServer` | inator/src/plugins/messaging.rs:158-162 | a read survives exactly the batches in which every payload of a registered type decodes; after any other, nothing is ever dispatched |
| `MessageGate.DeadForever` | inator/src/plugins/messaging.rs:229-276 | a server that has panicked dispatches nothing and admits nobody over any further run |
| `MessageGate.LoginsIff` | inator/src/plugins/authentication.rs:116-126 | exactly the senders of dispatched login messages come up for authentication |
| `MessageGate.LoginsInOrder` | inator/src/plugins/authentication.rs:116-126 | each login message adds its sender at its place in the order of dispatch, any other message nothing |
| `MessageGate.LoginsFirstInFirstOut` | inator/src/plugins/authentication.rs:116-140 | over any run, the logins that wait are those dispatched without those handled, first in first out, each handled once whether granted or not |
| `MessageGate.ReadAndFlush` | inator/src/plugins/messaging.rs:229-276 | from any reachable state, one read and flush empty the channel and the queue; a registered message of a connected client, or for authentication, is dispatched, and a login comes up, if no payload panics |
| `MessageGate.DroppedIsDead` | inator/src/plugins/connection.rs:185-191 | after its port is dropped a server dispatches nothing and admits nobody |
| `Handover.ReaderStepOk` | inator/src/ports/tcp/server.rs:232-277 | every step of either reader keeps its buffer aligned with the stream, the lock in order, and delivers exactly what it has decoded |
| `Handover.RunsKeepStreams` | inator/src/ports/tcp/server.rs:224-279 | in every interleaving, all sockets are aligned and the messages pushed for each client are the ones decoded from its stream |
| `Handover.HandoverRefinesOneDecoder` | inator/src/ports/tcp/server.rs:224-432 | what two readers, the logins, the shared notices and the network push for a client is what one decoder makes of the consumed stream, at most one frame behind it, and a prefix of what it makes of all that arrived |
| `Handover.NothingIsLost` | inator/src/ports/tcp/server.rs:262-276 | when a reader of the client has met the end of the stream, every complete message of it has been pushed; for open streams see `AtRestNothingIsMissing` |
| `Handover.ReceiveConservation` | inator/src/ports/tcp/server.rs:439-454 | all batches taken, then the pending queue, are the push history; per client that is a prefix of its decoded stream |
| `ReaderLocks.RunsKeepDrainer` | inator/src/ports/tcp/server.rs:236-255 | the shared receiver is locked by exactly the first reader that drains it, and the read half by the reader past waiting for it |
| `ReaderLocks.NoCycleOfWaits` | inator/src/ports/tcp/server.rs:232-255 | along every wait for a lock the holder waits for less, so no cycle of waits is reachable |
| `ReaderLocks.SomeoneMoves` | inator/src/ports/tcp/server.rs:232-277 | no deadlock: while a reader of the client is alive and its stream has bytes left, has ended, or holds a complete frame not dealt with, a reader of that client or the one that drains the notices can step |
| `Quiescence.RealStepsAreBounded` | inator/src/ports/tcp/server.rs:232-277 | no livelock: from any reachable state, in any order of scheduling, the readers of all clients make at most as many steps that change anything as there is work |
| `Quiescence.ReadersComeToRest` | inator/src/ports/tcp/server.rs:232-277 | from any reachable state, reader steps alone lead to one in which no reader can step, within that number |
| `Quiescence.AtRestRests` | inator/src/ports/tcp/server.rs:232-277 | there each client's own readers are at rest, so that the results on clients at rest apply |
| `ReaderLocks.AtRestNothingIsMissing` | inator/src/ports/tcp/server.rs:232-277 | on an open stream, whatever other clients do: when a client's own readers can make no step and one is alive, every complete message that arrived has been pushed and no byte is unread |
| `ReaderLocks.DrainerNeverWaits` | inator/src/ports/tcp/server.rs:237-254 | the holder of the shared receiver can always step, and each step takes a notice or gives the lock back |
| `ReaderLocks.DrainTerminates` | inator/src/ports/tcp/server.rs:239-254 | the drain loop ends within one step per notice and one more, and stops its reader exactly if the backlog names the client |
| `ReaderLocks.StopsOnlyIfAuthenticated` | inator/src/ports/tcp/server.rs:240-245 | a first reader stopped by a notice had its client's login granted before |
| `ReaderLocks.RunsKeepOneNotice` | inator/src/ports/tcp/server.rs:418-432 | a client has at most one notice in its life, sent or about to be |
| `ReaderLocks.AnotherTakesTheNotice` | inator/src/ports/tcp/server.rs:239-245 | a reader of another client that drains the channel takes the notice away for good |
| `ReaderLocks.NoticeMissedBy` | inator/src/ports/tcp/server.rs:239-245 | over any run, a step loses a notice if and only if another client's reader takes it from the channel, or its client is admitted after it has gone |
| `ReaderLocks.MissedForever` | inator/src/ports/tcp/server.rs:418-432 | a first reader whose notice was taken is never stopped by one, over any further run |
| `ReaderLocks.DeadPortGetsNothing` | inator/src/ports/tcp/server.rs:262-276 | into a port that is gone nothing is pushed and nothing reported, over any further run |
| `ReaderLocks.DeadDrainEnds` | inator/src/ports/tcp/server.rs:239-254 | a first reader that drains the notices of a port that is gone ends, and never goes back to its stream |
| `LostSignals.NoticeIsLost` | inator/src/ports/tcp/server.rs:418-432 | two clients and any login message the header carries: a run in which the first one is admitted, its notice is taken by the other's reader, and its first reader is live and never stopped |
| `DisconnectReports.EveryRefusalKillsAReader` | inator/src/ports/tcp/server.rs:257-262 | while the port exists, as many readers of a client have panicked as there are refused headers in what they consumed |
| `DisconnectReports.ReportedIffEnded` | inator/src/ports/tcp/server.rs:266-275 | a reader has reported its client if and only if it has met the end of the stream |
| `DisconnectReports.RestMeansEnded` | inator/src/ports/tcp/server.rs:232-277 | on a stream that has ended, a client's own readers that can make no step have ended |
| `DisconnectReports.WaitingReportedIff` | inator/src/ports/tcp/server.rs:257-275 | a waiting client whose reader has ended is reported if and only if no header it sent was refused |
| `DisconnectReports.AuthenticatedReportedIff` | inator/src/ports/tcp/server.rs:257-275 | a client whose second reader has ended is reported by it if and only if it sent no refused header other than the one that killed the first reader |
| `DisconnectReports.UnreportedForever` | inator/src/ports/tcp/server.rs:614-637 | a client whose reader panicked stays in its map over any further run; only a login can still move it |
| `LostSignals.ClientIsGoneUnnoticed` | inator/src/ports/tcp/server.rs:257-262 | for every header type that has refused headers: a run in which a client sends one, closes, and is never reported |
| `Writers.RunsKeepInv` | inator/src/ports/tcp/server.rs:342-358 | in every interleaving of writer tasks: turns in lock order, and the wire is the finished frames and the beginning of the next |
| `Writers.WholeFramesInLockOrder` | inator/src/ports/tcp/server.rs:335-384 | byte by byte interleaved, the wire is whole frames in the order of the lock and at most one partial frame |
| `Writers.AllSentArriveOnce` | inator/src/ports/tcp/client.rs:146-196 | when all tasks are done, the peer decodes a permutation of the messages sent, each once |
| `WriterProgress.EveryTaskEnds` | inator/src/ports/tcp/server.rs:335-384 | from any reachable state, steps of the tasks alone, no more than the work there is, end every task; unless the connection is lost, every message spawned is then on the wire, whole, once, and nothing else is |
| `WriterProgress.RealStepsAreBounded` | inator/src/ports/tcp/server.rs:342-358 | in any order of scheduling the tasks make no more steps that change anything than that |
| `WriterProgress.LockIsTaken` | inator/src/ports/tcp/server.rs:342-345 | a waiting task that is scheduled while the lock is free gets it, with its whole frame to write |
| `WriterProgress.SpawnIsAdded` | inator/src/ports/tcp/server.rs:336-342 | a new message is added to those spawned |
| `WriterProgress.LostWireIsFinal` | inator/src/ports/tcp/server.rs:347-357 | once the connection is lost, nothing more gets on the wire |
| `Writers.ReceivedDecodes` | inator/src/ports/tcp/client.rs:78-196 | whatever part of the wire has arrived decodes to the frames of the first messages in lock order, none of them refused |
| `Writers.ReceivedIsInLockOrder` | inator/src/ports/tcp/client.rs:78-196 | whatever part of the wire has arrived decodes to the first messages in lock order |
| `EndToEnd.SentIsReceivedInLockOrder` | inator/src/ports/tcp/client.rs:146-196 | through writer tasks, network, both readers and the channel: the application gets a prefix of the messages in lock order |
| `EndToEnd.EverythingSentIsReceived` | inator/src/ports/tcp/server.rs:224-279 | with all tasks done, all bytes arrived and the stream read through, to its end or open with its readers at rest, the server has every message exactly once |
| `EndToEnd.SentIsDispatchedInLockOrder` | inator/src/plugins/messaging.rs:229-276 | from the sender's tasks to the application: what is dispatched for a client is part of what was sent, in lock order and each at most once |
| `EndToEnd.EverythingSentIsDispatchedIff` | inator/src/plugins/messaging.rs:229-276 | with everything received, read and flushed, the application has every message exactly once if and only if every read let every one of them pass |
| `Dispatching.AllDispatchedIff` | inator/src/plugins/messaging.rs:241-269 | over any run, a client's messages taken from the port are all dispatched or queued, in order, if and only if every read let them pass and none panicked |
| `EndToEnd.ClientReceivesInLockOrder` | inator/src/ports/tcp/client.rs:78-110 | in the other direction, on any part of a server's wire the client's read loop does not panic, and delivers a prefix of the messages in lock order |
| `EndToEnd.ClientReceivesEverything` | inator/src/ports/tcp/client.rs:78-110 | with all tasks done and all bytes arrived, the client has every message exactly once |
| `ClientLifecycle.EpochConservation` | inator/src/ports/tcp/client.rs:223-434 | connect tasks, streams, connection and failures share the one token of `connecting`, and the attempts lost account exactly for what is missing; readers and their signals share that of `connected`; at most one down signal, of the current attempt |
| `ClientLifecycle.NoAttemptIsLost` | inator/src/ports/tcp/client.rs:223-320 | without panics, and without TLS or without `try_reconnect`, nothing is missing and the tokens are equal |
| `ClientLifecycle.OneReaderPerStream` | inator/src/ports/websocket_wasm/client.rs:228-268 | there is at most one reader, on the attached stream, so the borrow it keeps across awaits never collides |
| `ClientLifecycle.DropEndsTheAttempt` | inator/src/ports/tcp/client.rs:345-368 | taking a down signal leaves no task, stream, signal or flag of the attempt |
| `ClientLifecycle.ConnectSpawns` | inator/src/ports/tcp/client.rs:223-320 | over any run: with a runtime and a usable name and not connecting, connect spawns exactly one task of the next attempt with nothing stale around; otherwise it does nothing |
| `ClientLifecycle.ConnectionComesUp` | inator/src/ports/tcp/client.rs:223-434 | from any state that is not connecting, a connection that succeeds in time is attached and has its reader |
| `ClientLifecycle.FailureIsReported` | inator/src/ports/tcp/client.rs:288-313 | a failed connection or handshake without `try_reconnect`, and a stream that ends, give exactly one down signal of the current attempt, and taking it clears the way |
| `ClientLifecycle.RetryNeverFails` | inator/src/ports/tcp/client.rs:307-315 | under `try_reconnect` no connect failure is ever signalled |
| `ClientLifecycle.AbandonedBy` | inator/src/ports/tcp/client.rs:266-318 | the steps that leave the port connecting with nothing under way are exactly a panic of the connect task and a failed TLS handshake under `try_reconnect` |
| `ClientLifecycle.PanicIsAbandoned` | inator/src/ports/tcp/client.rs:282-282 | with any settings, a first connect task that panics abandons the attempt |
| `ClientLifecycle.AbandonedForever` | inator/src/ports/tcp/client.rs:223-229 | and no call ever takes such an attempt up again |
| `ClientLifecycle.DeafForever` | inator/src/ports/tcp/client.rs:416-434 | a connection that is marked as listening and has no reader keeps both for ever |
| `ClientLifecycle.DeafBy` | inator/src/ports/tcp/client.rs:78-110 | the steps that make a connection deaf are exactly attaching a stream when listening was started before, and a panic of the reader |
| `ClientLifecycle.HeardUnlessListeningTooEarly` | inator/src/ports/tcp/client.rs:370-434 | attaching a stream makes it deaf at once exactly if listening was started before; otherwise the next start gives it its reader |
| `ClientLifecycle.RefusedHeaderIsDeaf` | inator/src/ports/tcp/client.rs:90-91 | a connection that is heard becomes deaf when its reader panics |
| `ClientLifecycle.StuckIffAbandonedOrDeaf` | inator/src/ports/tcp/client.rs:223-434 | a client that is connecting has a task at work or a system call that gets it on, except exactly when abandoned or deaf |
| `ClientLifecycle.SlowConnectIsDeaf` | inator/src/plugins/client.rs:18-22 | a run of two frames: the systems in their order, with a connection that takes longer than the first, reach a deaf connection |
| `ClientFrames.FramesAreARun` | inator/src/plugins/client.rs:18-92 | any number of frames of the four systems in their order, with tasks at work in between, is a run of the client |
| `ClientFrames.HeardOnlyInItsFirstFrame` | inator/src/plugins/client.rs:18-92 | after any number of frames, the frame that attaches a stream makes it deaf exactly if it is not the one that asked for it; otherwise the stream has its reader at the end of the frame |
| `ClientFrames.DeafEveryFrame` | inator/src/plugins/client.rs:18-92 | a connection that is deaf after a frame is deaf after all later ones |
| `ClientFrames.DropStartsOver` | inator/src/plugins/client.rs:24-63 | a frame that takes a down signal connects again within its first two systems, by one task of the next attempt, when it may reconnect; otherwise the connection is gone |
| `ClientFrames.GoneForGood` | inator/src/plugins/client.rs:51-62 | and stays so over all later frames |
| `ClientFrames.NoSignalNoDrop` | inator/src/plugins/client.rs:34-63 | a frame that takes no signal leaves a connection that is up as it is |
| `ClientFrames.FirstFrameConnects` | inator/src/plugins/client.rs:24-32 | the first frame of a connection asks for its stream |
| `ServerLifecycle.EpochConservation` | inator/src/ports/tcp/server.rs:387-612 | across reconnects: bind tasks, listeners and connection share the token of `connecting`; accept tasks and down signals that of `accepting`, and the accept tasks that panicked account exactly for what is missing; connected means a stored listener; the connection's flag is the port's |
| `ServerLifecycle.NoAcceptIsLost` | inator/src/ports/tcp/server.rs:520-521 | with `max_connections` within the semaphore's limit and no hook, none is missing |
| `ServerLifecycle.DropEndsTheAttempt` | inator/src/plugins/server.rs:53-82 | a down signal leaves nothing of its attempt, removes the connection unless it may reconnect, and the next start binds again |
| `ServerLifecycle.StartBinds` | inator/src/plugins/server.rs:13-21 | over any run, a connection that is down binds at its next start, with nothing stale around |
| `ServerLifecycle.ServerComesUp` | inator/src/ports/tcp/server.rs:387-612 | from any state that is down: bound, received and accepted on, as the next attempt |
| `ServerLifecycle.AcceptFailureIsReported` | inator/src/ports/tcp/server.rs:604-607 | an accept task that fails to accept gives exactly one down signal of its attempt |
| `ServerLifecycle.GoneForGood` | inator/src/plugins/server.rs:79-81 | a connection that has been disconnected stays so |
| `ServerLifecycle.ForsakenBy` | inator/src/ports/tcp/server.rs:520-534 | the steps that leave the port accepting with neither task nor signal are exactly panics of the accept task, for which it takes too many permits or a hook |
| `ServerLifecycle.ForsakenForever` | inator/src/ports/tcp/server.rs:494-500 | and no call ever starts accepting again |
| `ServerLifecycle.TooManyPermitsForsake` | inator/src/ports/tcp/server.rs:521-521 | above the limit the accept task can do nothing but panic |
| `ServerLifecycle.PanicForsakes` | inator/src/ports/tcp/server.rs:520-534 | too many permits or a hook: an accept task that panics forsakes the port |
| `ServerLifecycle.StuckIffForsaken` | inator/src/ports/tcp/server.rs:387-612 | a connection that is up is binding, accepting, reported down, or one system call away from getting on, except exactly when forsaken |
| `WasmQueue.OneDrainer` | inator/src/ports/websocket_wasm/client.rs:281-318 | `sending_messages` is up exactly while one drain task lives, there is never a second, and no borrow of a sink collides |
| `WasmQueue.QueueConservation` | inator/src/ports/websocket_wasm/client.rs:270-320 | across sink replacement: submitted is what the sinks were given, the one in flight and the queue, in order; without errors all that is written, once each |
| `WasmQueue.EachErrorLosesOne` | inator/src/ports/websocket_wasm/client.rs:307-313 | every error loses exactly one message, and nothing else does |
| `WasmQueue.LostAreErrors` | inator/src/ports/websocket_wasm/client.rs:307-313 | over any run, the messages lost are as many as the errors the sinks answered |
| `WasmQueue.OutcomesFollowAnswers` | inator/src/ports/websocket_wasm/client.rs:290-313 | each message taken has one outcome, the sink's own answer, at the sink its task was spawned for, and a task is spawned for the sink current then |
| `WasmQueue.OneSendDrainsAll` | inator/src/ports/websocket_wasm/client.rs:270-317 | with a sink that takes everything, one more message gets the whole queue written in order to the current sink |
| `WasmQueue.NewSinkIsCurrent` | inator/src/ports/websocket_wasm/client.rs:183-226 | an attached socket has a sink no task or message has had, and is current; a dropped port has none |
| `WasmQueue.StrandedBy` | inator/src/ports/websocket_wasm/client.rs:281-318 | messages are left queued without a task exactly after a send without a sink or an error of the sink, and only a send with a sink gets them going again |
| `WasmQueue.BacklogResumesInOrder` | inator/src/ports/websocket_wasm/client.rs:281-305 | after an error, the next send with a sink resumes with the oldest message and the current sink |
| `Registry.IdsAreConsecutive` | inator/src/plugins/messaging.rs:135-148 | fewer than 2^32 registrations get the ids from 1 in order, and each id stands for its type |
| `Registry.CommonPrefixAgrees` | inator/src/plugins/messaging.rs:115-150 | two registries agree on every id of their common registrations, whatever each registers later |
| `Registry.IdsInUse` | inator/src/plugins/messaging.rs:139-143 | exactly which ids are in use after any number of registrations, wrap-around included |
| `Registry.OverwritesIff` | inator/src/plugins/messaging.rs:139-143 | a registration overwrites an earlier one if and only if 2^32 have gone before |
| `Registry.MessagesRegistry.RegisterMessage` | inator/src/plugins/messaging.rs:135-148 | one registration on the object is one step of the fold the four results are about |
| `TcpServer.ServerTcp.constructor` | inator/src/ports/tcp/server.rs:790-826 | a new port is the initial state of both machines |
| `TcpServer.ServerTcp.Connect` | inator/src/ports/tcp/server.rs:387-416 | one bind task per attempt, and nothing without a runtime or while connecting; clients untouched |
| `TcpServer.ServerTcp.CheckPortDropped` | inator/src/ports/tcp/server.rs:456-476 | takes one signal, clears all flags and the listener, and says whether to reconnect |
| `TcpServer.ServerTcp.CheckPortConnected` | inator/src/ports/tcp/server.rs:478-492 | stores the next listener unless connected, and says whether it did |
| `TcpServer.ServerTcp.StartAcceptingConnections` | inator/src/ports/tcp/server.rs:494-612 | one accept task on the stored listener |
| `TcpServer.ServerTcp.StartListeningNotAuthenticatedClient` | inator/src/ports/tcp/server.rs:713-734 | spawns the first reader of a waiting client, and changes nothing for any other |
| `TcpServer.ServerTcp.StartListeningAuthenticatedClient` | inator/src/ports/tcp/server.rs:736-757 | spawns the second reader of a client in `listening_clients` |
| `TcpServer.ServerTcp.MoveToListening` | inator/src/ports/tcp/server.rs:419-425 | the first atomic part of authentication: change of maps, then the second reader |
| `TcpServer.ServerTcp.AuthenticateClient` | inator/src/ports/tcp/server.rs:418-432 | both parts in a row for a waiting client, nothing at all for any other |
| `TcpServer.ServerTcp.CheckMessagesReceived` | inator/src/ports/tcp/server.rs:439-454 | returns the whole channel in order and leaves it empty |
| `TcpServer.ServerTcp.CheckClientsDisconnected` | inator/src/ports/tcp/server.rs:614-637 | handles one report: removes its client from the map its reader belongs to, and returns the id in any case |
| `TcpServer.ServerTcp.CheckClientsConnected` | inator/src/ports/tcp/server.rs:639-692 | one accepted stream becomes a waiting client under the new id, in place of any other under that id |
| `TcpServer.ServerTcp.SendMessage` | inator/src/ports/tcp/server.rs:759-787 | spawns one writer task for a client in `listening_clients`, and nothing for a message that cannot be serialized or any other client |
| `TcpServer.ServerTcp.CheckNotAuthenticatedClients` | inator/src/ports/tcp/server.rs:694-711 | every waiting client without a reader gets one, all are flagged, and no other socket changes |
| `TcpServer.ServerTcp.MarkListening` | inator/src/ports/tcp/server.rs:695-703 | the first loop flags every waiting client and lists each unflagged one once |
| `TcpServer.ServerTcp.StartReaders` | inator/src/ports/tcp/server.rs:705-710 | the second loop spawns one reader for each listed client |
| `ServerConnections.AuthenticatedIsTwoSteps` | inator/src/plugins/connection.rs:104-118 | the method's effect is two steps of the state machine, login and notice |
| `ServerConnections.LoginsAreSteps` | inator/src/plugins/authentication.rs:116-140 | the loop over the logins is a run of the state machine, one login and one notice at a time |
| `ServerConnections.RepliesIff` | inator/src/plugins/authentication.rs:123-134 | exactly the granted logins whose sender is authenticated by then, with a runtime and a reply that can be serialized, are replied to, each with its own reply |
| `ServerConnections.GrantedIsRepliedTo` | inator/src/plugins/authentication.rs:125-134 | a granted login of a waiting or authenticated client is among them |
| `ServerConnections.ServerConnection.constructor` | inator/src/plugins/connection.rs:53-78 | a new connection is the initial state of both machines |
| `ServerConnections.ServerConnection.StartConnection` | inator/src/plugins/connection.rs:80-93 | flag and runtime are up, the port connects, and it is back in its place |
| `ServerConnections.ServerConnection.StartConnections` | inator/src/plugins/server.rs:13-21 | a connection that is down is started, one that is up stays as it is |
| `ServerConnections.ServerConnection.CheckMainPortDropped` | inator/src/plugins/server.rs:53-82 | a dropped port takes the connection down, and asks for its removal unless it may reconnect |
| `ServerConnections.ServerConnection.StartAcceptingConnectionsMainPort` | inator/src/plugins/server.rs:40-51 | the port starts accepting and is back in its place |
| `ServerConnections.ServerConnection.AuthenticateClient` | inator/src/plugins/connection.rs:104-118 | only the first login of an id counts; port 0 passes it on to the main port |
| `ServerConnections.ServerConnection.Reply` | inator/src/plugins/authentication.rs:128-134 | the reply goes to its sender if that is authenticated, and the port is back in its place |
| `ServerConnections.ServerConnection.AuthenticationMessageServer` | inator/src/plugins/authentication.rs:111-141 | for any verdicts, the senders of granted login messages are authenticated and replied to, in order |
| `ServerConnections.ServerConnection.GateBatch` | inator/src/plugins/messaging.rs:241-269 | the loop over a batch queues exactly what the gate lets pass, and panics exactly on a payload that does not decode |
| `ServerConnections.ServerConnection.ReadMessagesServer` | inator/src/plugins/messaging.rs:229-276 | port, connection and command queue together make one reading step of the state machine |
| `Clients.ClientTcp.Connect` | inator/src/ports/tcp/client.rs:223-320 | one connect task per attempt; an unusable server name leaves the port as it was |
| `Clients.ClientTcp.CheckPortDropped` | inator/src/ports/tcp/client.rs:345-368 | takes one signal, clears the flags and the halves, and says whether to reconnect |
| `Clients.ClientTcp.CheckConnectedToServer` | inator/src/ports/tcp/client.rs:370-414 | attaches the next stream unless connected, and says whether it did |
| `Clients.ClientTcp.StartListeningToServer` | inator/src/ports/tcp/client.rs:416-434 | the flag goes up with a runtime, the reader is spawned only with a stream |
| `Clients.ClientTcp.CheckMessagesReceived` | inator/src/ports/tcp/client.rs:328-343 | returns the whole channel in order and leaves it empty |
| `Clients.WasmClient.SendMessage` | inator/src/ports/websocket_wasm/client.rs:270-292 | queues the message, and spawns a drain task when there is a sink and none is running |
| `Clients.WasmClient.AttachSink` | inator/src/ports/websocket_wasm/client.rs:208-226 | a new socket replaces the sink that later drain tasks use |
| `Clients.WasmClient.DropSink` | inator/src/ports/websocket_wasm/client.rs:183-206 | a dropped port forgets its sink; queue and running task stay |
| `Clients.Meanwhile` | inator/src/ports/websocket_wasm/client.rs:270-290 | whatever the main thread sends, attaches or drops while the sink is awaited, the drain task and its borrow stay, and the queue only grows |
| `Clients.DrainIsARun` | inator/src/ports/websocket_wasm/client.rs:292-317 | the drain loop with all that happens meanwhile is a run of the state machine |
| `Clients.WasmClient.MainThread` | inator/src/ports/websocket_wasm/client.rs:270-290 | the main thread's turns on the object are these steps |
| `Clients.WasmClient.Drain` | inator/src/ports/websocket_wasm/client.rs:292-317 | the drain loop does what its task does in the state machine, for any answers of the sink and anything sent, attached or dropped while it awaits |

## Left out

- The two native websocket ports: their framing is in a library, and their reader loops and maps work differently.
- Sockets, TLS handshakes, the tokio runtime, `spawn_local` and the scheduling of Bevy systems: they are steps that may
  happen in any order. Loading certificates, settings builders and logging are not modelled.
- CBOR and the `MessageInfos` envelope: what the registry makes of a message body is a parameter (`Config.kind`), and
  round trips are stated for frames.
- `max_connections` as a bound on clients: the permits of the semaphore are dropped at once, so they bound nothing.
- What hooks do to a stream; that they may panic is modelled. Panics of sends into channels whose port is gone at the
  client, of `Runtime::new`, and of `read_messages_client` on a payload that does not decode are not.
- FIFO order of sends: each send spawns a task of its own, and only the order of the lock is guaranteed.
- That tasks are scheduled at all: which ones are able to step is stated, and that readers and writers cannot go on for
  ever without new input.
- Targets whose `usize` is not 64 bits wide: on a 32-bit one the U64, I64, 128-bit and float headers carry other lengths.
- I/O errors after which a stream is usable again, allocations below `isize::MAX` bytes that fail, and tasks cancelled
  by the shutdown of their runtime. `DropPort` ends the main thread's steps and lets tasks fail on what is gone.
- The channel is drained in one step by `check_messages_received`; the shared notice channel is drained notice by
  notice, and authentication is two steps, since other tasks can run between them.
- Casts of negative, fractional and not-a-number doubles in `value_from_number`: a length is none of these. Casts of
  such values to `usize` when a header is read are modelled.
- Several connections in one `NetworkConnections` map, and ports other than the main port beyond their entry in
  `clients_connected`.
- Ids from `Uuid::new_v4` are assumed to be fresh in the state machine: a registration under an id in use is no step
  there. `TcpServer.ServerTcp.CheckClientsConnected` says what the code does to the maps in that case.
- `authentication_message_client`, and the loss of undelivered Bevy messages in their double buffer.
- Text frames and error values of the browser's websocket: a reader of the WASM client ends or goes on.
- Calls of `start_listening_authenticated_client` and `start_listening_not_authenticated_client` other than those in
  `authenticate_client` and `check_not_authenticated_clients`, which could spawn a third reader.
- ServerConnections.ServerConnection.AuthenticationMessageServer: takes the verdicts of `authenticate` as a parameter,
  because that method belongs to the application.
