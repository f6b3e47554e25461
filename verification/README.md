# SPL multiplexing, parsing and bridge state machines in Dafny

A Dafny 4.11 model of the hard core of the Rust package `spl-rust`: the SPL
stream multiplexer and its byte credit, the two demultiplexers, the listener's
write scheduler, the incremental parsers, and the bridge's long-lived state
machines. `dafny verify dfyconfig.toml` checks everything.

Code that the package writes as objects updated in place is a `class` here, with
the same fields, loops and branches; each of its methods is proved against a
function on values. The properties are proved about those functions, for every
input, every interleaving and every run. Channels are FIFO sequences, `select!`
is an arbitrary choice of an enabled step, and clocks, random draws, UTF-8
decoding, HTTP head parsing and chunk-size parsing are parameters.

| files | what they model |
|---|---|
| `Wire` | frames, the streaming decoder, dialer identifiers |
| `Flow`, `Upload`, `Transfer` | receive windows, one direction of credit, the windowed upload and its way through the listener |
| `Bridge`, `BridgeLedger`, `Duplex`, `DuplexOpens`, `DuplexBytes`, `BridgeOrder`, `DuplexEnds` | the bridge's stream driver against any peer, and driver and listener joined by two channels: opens, credit, bytes, the order of writes, and what a reader has at the end of a stream |
| `Listener`, `MuxAcceptor`, `ListenerGrammar`, `ListenerRuns`, `ListenerLedger` | the listener-side mux: what each frame does, byte-wise decoding, run invariants, its state read off its log |
| `Scheduler`, `SchedulerTurns`, `SchedulerReads`, `SchedulerRuns`, `SchedulerLedger`, `HomeDriver` | the listener's write scheduler and carrier driver |
| `Chunked`, `ChunkedBodies`, `Demux`, `CarrierDemux`, `DemuxIsolation`, `DemuxVerdicts`, `DemuxRuns`, `DemuxCredit`, `DemuxPair`, `ResponseSplits`, `Responses` | chunked decoding, the dialer-side demultiplexer and what becomes of each of its streams, a response stream joined to its sender and to the listener, the one-shot response assembler |
| `ClientHello`, `HelloLimits`, `HelloBody`, `SniParser` | TLS ClientHello reassembly, server name and ALPN (section 5.1 of RFC 8446, section 3 of RFC 6066, section 3.1 of RFC 7301) |
| `Crockford` | Crockford base32 |
| `Nonces`, `NonceCache`, `Lease`, `LeaseOutcomes`, `Jwks`, `JwksAnswers`, `JwksAggregator`, `Registrations`, `Registry` | the bridge's nonce cache, lease supervisor, key-set aggregator and hostname registry |

Where the code does less than its words or a natural reading promise, it is kept
as it is, a failing run is given, and what it does do is stated exactly:

- The peek loop promises any ClientHello of up to 196,608 wire bytes, but once its
  window has grown to that size it refuses any hello that is not yet complete. It
  is faithful on every arrival schedule exactly when the cut message takes at most
  131,072 bytes (`ClientHello.PeekingIsFaithfulIff`); every decodable name of at most
  32,711 bytes has a routable hello that is refused (`HelloBody.LongHelloIsRefused`).
- Retiring a carrier is said to reject later opens before they queue a frame. The
  coordinator loads the flag and then queues, so with several threads a retirement
  may come between. A retired carrier may still queue an OPEN exactly when one is
  past its check, and never a second (`Registrations.OpensAfterRetirement`); one is
  late exactly if a retirement came between (`Registrations.LateOpenIff`, run in
  `Registrations.OneOpenCanBeLate`), and its stream is not handed out
  (`Registrations.NothingHandedOutOnceRetired`). The shipped binary is
  single-threaded (crates/spl-bridge/src/bin/spl-bridge.rs:70) with no suspension
  point between the two, and then none is late (`Registrations.TogetherIsNeverLate`).
- The lease supervisor loads the same flag and then exchanges the journal's expiry.
  With several threads a retired journal's expiry may still change exactly when a
  renewal is past its check, and once (`Lease.RenewalAfterRetirement`, run in
  `Lease.OneRenewalCanBeLate`); with nothing between the two it never does
  (`Lease.UninterruptedIsNotRenewed`).
- Registry generations are called monotonically assigned, but are drawn before
  commit. Those installed for a hostname increase exactly when no commit for it
  comes after that of a later-drawn generation
  (`Registrations.GenerationsIncreaseIff`, run in `Registrations.OlderMayReplaceNewer`).
- Shutdown is said to retire the registered journals, but takes them out of the map
  first; between the two they are neither current nor retired, and no other
  journal is (`Registrations.DisplacedIsRetired`, run in
  `Registrations.DrainedIsNotYetRetired`).
- The bridge driver puts accepted writes on the wire in order exactly when no write
  that fits the credit finds an earlier one deferred (`BridgeOrder.WritesKeepOrderIff`),
  and its half-close is behind all of them exactly when none is deferred at that
  moment (`BridgeOrder.CloseIsLastIff`; runs in `BridgeOrder.WriteOvertakes`). What
  the reader at the other end then has is `DuplexEnds.EndOfStreamIsComplete`.
- Chunks are said to stall when larger than the receive window. A stream with
  nothing left to drain stalls for good exactly when the rest of its chunk exceeds
  the window less the bytes it withholds (`DemuxPair.DownlinkStallsIff`), which also
  happens to a chunk that fits (run in `DemuxPair.FittingChunkStalls`).
- Consuming a drained event can exceed what its stream was debited, which panics,
  exactly after an id was opened again with events of its earlier life undrained
  (`DemuxRuns.OverdrawnIff`, run in `DemuxRuns.ReopeningPanics`).
- A fetched key set of at most 64 keys is cached whole, and its waiters answered, if
  every earlier fetch completed strictly before it (`JwksAnswers.WaitersGetTheirKeys`).
  A larger set loses a key of its own (`JwksAnswers.LargeSetsLoseKeys`), and so may one
  that completes at the same instant as another, when expiries are equal and the cache
  is full (`JwksAnswers.TiesMayEvict`).

## Model

| member | source | states |
|---|---|---|
| Wire.HeaderRoundTrip | crates/spl-core/src/frame.rs:123-139 | The eight header bytes of a frame read back as its stream, flags and length. |
| Wire.ParseEncoded | crates/spl-core/src/frame.rs:123-237 | An encoded frame followed by anything parses to that frame and leaves the rest. |
| Wire.ParseExact | crates/spl-core/src/frame.rs:219-237 | Whatever parses is the encoding of the frame found, then the rest: nothing is invented or lost. |
| Wire.DrainEncoded | crates/spl-core/src/frame.rs:244-250 | Draining any list of encoded frames gives exactly those frames, in order. |
| Wire.DrainExact | crates/spl-core/src/frame.rs:244-250 | Every buffer is the encoding of the frames drained from it followed by what is left. |
| Wire.DrainStops | crates/spl-core/src/frame.rs:219-250 | What is left holds no complete frame, and a reserved flag stays in front of it. |
| Wire.DrainSplit | crates/spl-core/src/frame.rs:209-250 | Cutting the input anywhere changes neither the frames, the leftover nor the failure. |
| Wire.FrameDecoder.NextFrame | crates/spl-core/src/frame.rs:219-237 | The in-place decoder takes one frame off its buffer exactly as the parse function does, with the same two ways to stop. |
| Wire.FrameDecoder.DrainAll | crates/spl-core/src/frame.rs:244-250 | The drain loop returns the drained frames, or drops them with the error when a reserved flag follows. |
| Wire.FrameDialer.Allocate | crates/spl-core/src/frame.rs:268-272 | A dialer that has allocated n times hands out the n-th identifier of its sequence and stands at the next. |
| Wire.DialerIdsRepeatIff | crates/spl-core/src/frame.rs:255-272 | Dialer identifiers are odd and two allocations agree exactly when they are a multiple of 2^31 apart. |
| Flow.RecvWindow.Debit | crates/spl-core/src/mux.rs:97-104 | An overrun is refused and changes nothing; otherwise outstanding bytes grow by the debit. |
| Flow.RecvWindow.Consume | crates/spl-core/src/mux.rs:117-135 | Outstanding bytes shrink by what is consumed, and everything consumed is granted at once at half a window. |
| CreditLink.RunConserves | crates/spl-core/src/mux.rs:76-136 | In every interleaving of one direction, credit, bytes in flight, held bytes, batched bytes and grants in flight add up to one window, and neither a debit nor a grant is ever refused. |
| CreditLink.QuiescentSenderHasCredit | crates/spl-core/src/mux.rs:117-135 | With channels empty and everything consumed the sender holds more than half a window, so a whole chunk. |
| Upload.PollWritesNextBytes | crates/spl-core/src/mux.rs:261-307 | A poll writes the next unsent bytes in order within credit, opens with the first, closes once after the last, and is silent exactly when it must wait. |
| Upload.WindowedUpload.Feed | crates/spl-core/src/mux.rs:212-223 | Body bytes are staged whole or refused without change. |
| Upload.WindowedUpload.BodyCapacity | crates/spl-core/src/mux.rs:197-201 | The capacity is exactly the longest piece a feed accepts. |
| Upload.WindowedUpload.Grant | crates/spl-core/src/mux.rs:237-251 | Credit grows by the grant or, past 2^31 - 1, nothing changes and the violation is reported. |
| Upload.WindowedUpload.PollSend | crates/spl-core/src/mux.rs:261-307 | Returns the wire bytes of the polled frame and never fails to encode. |
| Upload.WindowedUpload.IsBlocked | crates/spl-core/src/mux.rs:317-321 | Blocked exactly when bytes wait and a poll would write nothing. |
| Transfer.UploadArrivesInOrder | crates/spl-core/src/mux.rs:180-307 | For any feeding, grant schedule and byte split, a listener below its cap opens the stream, delivers a prefix of head and body, the whole of it when the one close arrives, and refuses nothing. |
| Transfer.UploadNeverStalls | crates/spl-core/src/mux.rs:261-307 | Once everything written is read, consumed and every reply taken, an upload with bytes waiting can write. |
| Bridge.Driver.OpenStream | crates/spl-bridge/src/frame_dialer.rs:688-705 | Opening refuses a retired carrier and a used identifier before queueing anything. |
| Bridge.Driver.MarkRetired | crates/spl-bridge/src/frame_dialer.rs:276-279 | Retiring refuses later opens and touches no open stream. |
| Bridge.Driver.WriteStream | crates/spl-bridge/src/frame_dialer.rs:707-738 | A write goes out whole within credit, is deferred whole otherwise, and is rejected on a closed stream. |
| Bridge.Driver.DrainPendingWrites | crates/spl-bridge/src/frame_dialer.rs:740-765 | The drain loop sends deferred writes in order while each fits. |
| Bridge.Driver.ConsumeStream | crates/spl-bridge/src/frame_dialer.rs:767-779 | Consuming returns credit in batches and resets a stream that over-consumes. |
| Bridge.Driver.CloseStream | crates/spl-bridge/src/frame_dialer.rs:781-799 | A half-close is sent once and forgets a stream both sides have closed. |
| Bridge.Driver.ReceiveFrame | crates/spl-bridge/src/frame_dialer.rs:811-875 | Each received frame is dispatched as the receive function says, deferred writes included, and every stream stays valid, as for every other call. |
| Bridge.DrainEndsWaiting | crates/spl-bridge/src/frame_dialer.rs:740-765 | After a drain, a deferred write is one its stream's credit does not cover. |
| BridgeLedger.LogTellsDesk | crates/spl-bridge/src/frame_dialer.rs:579-875 | Over every run of calls and frames of any peer: a stream is there exactly if the log of frames heard, deliveries and frames queued says so, with the half-closes in it; 2^20 and the WINDOWs queued are its receive window and the bytes delivered; 2^20 and the WINDOWs heard are its send credit and the bytes sent; stream zero carries the PONGs due to the PINGs heard, in order, and nothing else. |
| BridgeLedger.EveryFrameIsJudged | crates/spl-bridge/src/frame_dialer.rs:811-875 | After every run, any frame on any stream: nothing if the stream is not there; otherwise the one reset due to it, by its flags, payload and those sums, told to the reader and queued with its code; or exactly what it holds handed to the reader. |
| BridgeLedger.OpensAreDecided | crates/spl-bridge/src/frame_dialer.rs:688-705 | After every run an open is refused exactly if the carrier was retired or the next odd identifier is of a stream still there; otherwise its OPEN is queued and both windows are full. |
| BridgeLedger.WritesAreDecided | crates/spl-bridge/src/frame_dialer.rs:707-738 | After every run a write is rejected exactly on a stream not there or closed here, deferred exactly past 2^20 and the credit heard less the bytes sent, queued whole otherwise, and tears the carrier down if too long for a frame. |
| BridgeLedger.QueueIsEncodable | crates/spl-bridge/src/frame_dialer.rs:681-686 | Over every run all that is queued fits a frame. |
| Duplex.FlowControlNeverMisfires | crates/spl-bridge/src/frame_dialer.rs:579-660 | Over every run of a bridge and a listener joined by channels, on any number of streams, neither side ever sends a FLOW_CONTROL reset, counts one or fails. |
| Duplex.CreditIsConserved | crates/spl-home/src/mux.rs:452-523 | In both directions of every stream known to both sides, credit, flight, held, batched and granted bytes add up to 2^20. |
| Duplex.NoCreditDeadlock | crates/spl-bridge/src/frame_dialer.rs:707-765 | A quiescent stream leaves both sides more than half a window and no write of at most 64 KiB waiting. |
| DuplexBytes.BytesArriveInOrder | crates/spl-bridge/src/frame_dialer.rs:811-875 | Over every run, each reader has been handed a prefix of the DATA bytes the other side sent on its stream, and while the stream is live the rest is exactly what is in flight. |
| BridgeOrder.WritesKeepOrderIff | crates/spl-bridge/src/frame_dialer.rs:707-765 | Over every run, by write number: the wire holds the sent writes and the driver the deferred ones, and sent then deferred is the order of acceptance exactly when no write that fitted found another deferred. |
| BridgeOrder.OneOutstandingWriteKeepsOrder | crates/spl-bridge/src/frame_dialer.rs:707-765 | If no write is made while one is deferred, wire and deferred writes together are the accepted ones, in order, on every run. |
| BridgeOrder.CloseIsLastIff | crates/spl-bridge/src/frame_dialer.rs:740-799 | Over every run with a half-close sent: all accepted writes are before it exactly when none was deferred at the close, and then no DATA follows it. |
| BridgeOrder.WriteOvertakes | crates/spl-bridge/src/frame_dialer.rs:707-799 | Runs from the start in which a later write goes out first, and in which a half-close leaves a deferred write behind. |
| BridgeOrder.DeferredAtClose | crates/spl-bridge/src/frame_dialer.rs:740-799 | At a half-close deferred writes are forgotten with a stream the peer has closed, and otherwise the next grant that covers the first sends it behind the CLOSE. |
| DuplexEnds.EndOfStreamIsComplete | crates/spl-bridge/src/frame_dialer.rs:781-875 | Over every run: a bridge reader told of the end has every byte the home sent; a home reader told of the end has the writes sent before the half-close, all accepted ones exactly when none was deferred then, in order when none overtook. |
| DuplexOpens.OpensAreAccepted | crates/spl-home/src/mux.rs:648-695 | Over every run of bridge and listener, an OPEN the listener handles below its cap opens the stream with full windows and nothing is refused; at the cap it is refused for that alone. |
| ListenerGrammar.EveryFrameIsAnswered | crates/spl-home/src/mux.rs:584-837 | Over any frames, the PONGs written carry exactly the PINGs' nonces in order, and what is written about streams is one RESET per refusal, in order, with its stream and class. |
| Listener.ScanSettles | crates/spl-home/src/mux.rs:370-444 | Between reads the undecoded bytes are a proper prefix of one frame and below the decoder ceiling. |
| Acceptor.MuxAcceptor.Feed | crates/spl-home/src/mux.rs:370-444 | The byte-wise loop hears exactly what the frame grammar hears in the whole buffer, keeps its buffered count equal to its two buffers, and can only fail on a stream-zero violation. |
| Acceptor.MuxAcceptor.FeedHeaderByte | crates/spl-home/src/mux.rs:388-432 | A staged header byte keeps the grammar's answer; a reserved flag is refused at its header and its payload skipped. |
| Acceptor.MuxAcceptor.DrainDecoder | crates/spl-home/src/mux.rs:839-851 | The inner decoder yields exactly the one complete frame; its reserved-flag and accounting errors never occur. |
| Acceptor.MuxAcceptor.HandleFrame | crates/spl-home/src/mux.rs:584-626 | Every frame is handled as the listener function says, including each refusal; what that comes to is `ListenerLedger.EveryFrameIsJudged`. |
| Acceptor.MuxAcceptor.Consume | crates/spl-home/src/mux.rs:452-480 | Consuming more than was delivered is refused before the window could panic. |
| Acceptor.MuxAcceptor.TrySendData | crates/spl-home/src/mux.rs:490-523 | A chunk is sent whole, or not at all for lack of credit, a closed stream or an over-long chunk. |
| Acceptor.MuxAcceptor.CloseWrite | crates/spl-home/src/mux.rs:538-555 | A half-close happens once and forgets a stream the peer has closed. |
| ListenerGrammar.ReadBoundariesDoNotMatter | crates/spl-home/src/mux.rs:370-444 | However the carrier's bytes are cut into reads, state and output are those of one read. |
| ListenerGrammar.FramesAreHandledInOrder | crates/spl-home/src/mux.rs:370-444 | Feeding encoded frames, reserved flags on nonzero streams included, handles exactly those frames in order. |
| ListenerGrammar.ScanAppends | crates/spl-home/src/mux.rs:370-444 | A read's output does not depend on what was output before it. |
| ListenerRuns.EveryRunIsOrderly | crates/spl-home/src/mux.rs:584-837 | Over any bytes and local calls: opened ids are odd and increasing, the cap, the memory bound and the credit ceiling hold, each stream's events are Opened Data* ReadClosed* Reset?, and the counters count the refusals. |
| ListenerLedger.LogTellsState | crates/spl-home/src/mux.rs:452-837 | Over any bytes and local calls: a stream is live exactly if it was opened, not reset or refused since and not closed on both sides; its window is 2^20 and what was granted less what was received; the high-water mark is the highest identifier opened or turned away by policy. |
| ListenerLedger.EveryFrameIsJudged | crates/spl-home/src/mux.rs:584-837 | After every run, whether any frame opens, delivers, half-closes, resets, wakes, is ignored or is refused, and as what, is decided by its flags, identifier and payload and by sums over the log. |
| ListenerLedger.CallsAreDecided | crates/spl-home/src/mux.rs:452-582 | After every run each local call is decided by the log: refused as closed on a stream that is not live or, for writes, already half-closed; a send over 64 KiB or an over-consumption as internal; held for lack of credit; else its frame goes out. |
| ListenerLedger.ReasonsRoundTrip | crates/spl-home/src/mux.rs:855-876 | Reset reasons and their wire codes correspond, an unknown code being unspecified. |
| SchedulerReads.ScanTracks | crates/spl-home/src/mux.rs:584-837 | A read never revives or half-closes a known stream, reports every credit it adds, and sends nothing on it. |
| SchedulerRuns.WritesAreSentInOrder | crates/spl-home/src/connection.rs:603-899 | Whenever the driver parks: sent, pending and queued bytes of a live stream are what was accepted, in order; the wire is always a prefix of it; CLOSE comes once, after the last byte, with no DATA behind it; staging is exactly the unsent bytes and at most 1 MiB; the ready queue has no duplicates; a stream the application has ended is gone, closed, waiting to be closed, or its command is still queued. |
| SchedulerRuns.NoLostWakeup | crates/spl-home/src/connection.rs:653-899 | Whenever the driver parks, a stream whose next chunk fits its credit, or with only its CLOSE left, is ready and a wake-up is queued. |
| SchedulerRuns.FlushIsFair | crates/spl-home/src/connection.rs:795-899 | One flush sends exactly one chunk of every ready stream whose chunk fits and nothing of a stream that was not ready. |
| SchedulerLedger.WrittenFramesTellState | crates/spl-home/src/connection.rs:643-731 | Over every run of the driver, for each stream in the mux 2^20 and the credits of the WINDOWs written for it are its window and the bytes of its Data events, and a stream is in the mux exactly if the events and written frames say it is live. |
| SchedulerLedger.CommandsAreObeyed | crates/spl-home/src/connection.rs:664-731 | A reset or cancel takes its stream out and its RESET, with the reason's code, is the next frame; a consumption is taken off what is held and leaves less than half a window ungranted, over-consumption stops the driver, and one for a stream gone changes nothing. |
| SchedulerLedger.ReadsAreDecided | crates/spl-home/src/connection.rs:643-651 | A read with a fatal frame stops the driver and does nothing else; any other is heard whole, its events delivered and its answers written before anything is flushed. |
| HomeDriving.HomeDriver.FlushReady | crates/spl-home/src/connection.rs:795-899 | The round-robin loop takes the modelled turns and queues a wake-up exactly when it made progress and streams are left. |
| HomeDriving.HomeDriver.SendChunk | crates/spl-home/src/connection.rs:853-890 | A chunk taken off the queue is sent, put back byte by byte when credit is short, or dropped with a closed stream; the mux never refuses its length. |
| HomeDriving.HomeDriver.DiscardPendingStream | crates/spl-home/src/connection.rs:770-784 | Discarding releases the staged bytes of the queue it drops and clears every trace of the stream. |
| HomeDriving.HomeDriver.MarkWritableStreams | crates/spl-home/src/connection.rs:758-768 | Streams that gained credit and have bytes pending become ready, once each. |
| HomeDriving.HomeDriver.DeliverOutput | crates/spl-home/src/connection.rs:901-975 | Frames go to the wire in order and each event updates its stream's shared status. |
| HomeDriving.HomeDriver.OnRead | crates/spl-home/src/connection.rs:643-651 | A read is fed, marked, delivered and flushed; a fatal frame stops the driver and its output is dropped. |
| HomeDriving.HomeDriver.Dispatch | crates/spl-home/src/connection.rs:653-731 | Each command has its modelled effect, stated in `SchedulerLedger.CommandsAreObeyed`, and consumption for a stream already gone skips the flush. |
| Chunked.FindIsFirst | crates/spl-core/src/http.rs:300-307 | The search returns the first occurrence, or none exists. |
| Chunked.SplitsDoNotMatter | crates/spl-core/src/http.rs:134-203 | However the input is cut, the decoder ends in the same state, fails exactly when one push would, and otherwise joins to the same output. |
| Chunked.BatchAgreesWithIncremental | crates/spl-core/src/http.rs:389-415 | Batch decoding succeeds exactly when a fresh decoder given everything ends in Trailer or Done, with the same output. |
| ChunkedBodies.AcceptsExactlyChunks | crates/spl-core/src/http.rs:389-415 | Batch decoding accepts a body exactly if it is announced chunks and a line announcing zero, and returns their data. |
| ChunkedBodies.ChunksRoundTrip | crates/spl-core/src/http.rs:134-203 | The incremental decoder gives back the data of any encoded chunks, and is done exactly when the trailer has ended. |
| Chunked.DechunkLoop | crates/spl-core/src/http.rs:389-415 | The index loop computes batch decoding. |
| Chunked.ChunkedDecoder.PushBytes | crates/spl-core/src/http.rs:134-203 | The in-place loop computes a push, failure latching included. |
| Demux.FeedDataAccounts | crates/spl-core/src/mux.rs:602-692 | Every payload byte is consumed at once, paid for by a body event, or pending, across split heads and chunked bodies; clamping never takes effect. |
| CarrierDemuxing.HttpStreamAssembler.Feed | crates/spl-core/src/mux.rs:602-641 | The in-place assembler emits the modelled events and costs. |
| CarrierDemuxing.CarrierDemux.FeedBytes | crates/spl-core/src/mux.rs:775-923 | The frame loop routes a batch as the model does, with the latched fatal error; what it makes of each stream is `DemuxVerdicts.StreamsEndAsFramed`. |
| CarrierDemuxing.CarrierDemux.ConsumeBytes | crates/spl-core/src/mux.rs:742-750 | Consuming a drained event returns credit to its stream, and nothing for a stream gone. |
| CarrierDemuxing.RemoveEmittedWindows | crates/spl-core/src/mux.rs:959-965 | The retain loop drops exactly the queued WINDOW frames of an ending stream. |
| DemuxIsolation.StreamsAreIsolated | crates/spl-core/src/mux.rs:775-965 | For any batch without a stream-zero violation, a stream's state, events, grants, violations and frames are those of a demultiplexer fed only its frames. |
| DemuxVerdicts.StreamsEndAsFramed | crates/spl-core/src/mux.rs:775-965 | For any call, from flags and payloads alone: the frames a live stream lives through are DATA that fits and decodes, delivered in order, and WINDOWs, whose credits are the grants reported, in order; the next one ends it, by CLOSE or by one reset reason exactly as its flags, first byte, the window and the assembler say; the RESET and record due to it and to each stray frame after it are all that is sent and reported. |
| DemuxVerdicts.UnknownStreamsAreRefused | crates/spl-core/src/mux.rs:800-822 | Frames for an unknown stream bring nothing but one PROTOCOL reset and one record for each that is not a CLOSE or RESET. |
| DemuxVerdicts.ControlFramesAreAnswered | crates/spl-core/src/mux.rs:775-799 | On stream zero each eight-byte PING is answered with its nonce and each PONG reported, in order; any other frame there, the first of them, fails the call for good, and nothing else but a reserved flag does. |
| DemuxRuns.EveryRunAccounts | crates/spl-core/src/mux.rs:721-923 | Over every run each stream's events have the shape (Head Body*)? End? in each of its lives; if no open finds its id owed, outstanding bytes of a live stream are its pending plus undrained ones and draining any event never over-consumes. |
| DemuxRuns.OverdrawnIff | crates/spl-core/src/mux.rs:117-135 | Over every run, an undrained event that would panic when consumed is ever present exactly if some open found its id still owed by undrained events. |
| DemuxRuns.ReopeningPanics | crates/spl-core/src/mux.rs:721-750 | A run from an empty carrier, with any unchunked response, after which draining its body would panic. |
| DemuxRuns.ReopeningOverdraws | crates/spl-core/src/mux.rs:721-750 | Opening an id leaves an event that would panic exactly when an event of its earlier life still owes bytes. |
| DemuxCredit.DrainedSenderCredit | crates/spl-core/src/mux.rs:558-692 | Over every run of a stream joined to any sender that keeps to its credit: with nothing on the way or to drain, the sender lacks exactly the unfinished chunk's bytes and the ungranted ones, so it has a 64 KiB chunk's credit exactly when these leave room. |
| DemuxCredit.ChunkStallsIff | crates/spl-core/src/mux.rs:558-692 | A drained stream in mid-chunk delivers again, in some continuation, exactly when the rest of the chunk fits the window less what is withheld. |
| DemuxCredit.FittingChunkStalls | crates/spl-core/src/mux.rs:563-566 | A chunk no larger than the window can stall for good: head and size line are enough. |
| DemuxPair.ApplyFollows | crates/spl-home/src/mux.rs:490-523 | Every send of the listener, routed DATA frame, drained event and handled WINDOW is the matching step of that channel, or nothing for a send over 64 KiB. |
| DemuxPair.OpenIsOpened | crates/spl-home/src/mux.rs:648-695 | A listener that handles a fresh OPEN and a demultiplexer that opens the id are the state these runs start from, whatever other streams either has. |
| DemuxPair.DrainedListenerCredit | crates/spl-core/src/mux.rs:558-692 | Over every run of demultiplexer and listener: with nothing on the way or to drain, the listener lacks exactly the unfinished chunk's bytes and the ungranted ones, and refuses a 64 KiB send exactly when these leave no room. |
| DemuxPair.DownlinkStallsIff | crates/spl-core/src/mux.rs:558-692 | On the same runs, a drained stream in mid-chunk delivers again, in some continuation, exactly when the rest of the chunk fits the window less what is withheld. |
| DemuxPair.FittingChunkStalls | crates/spl-core/src/mux.rs:563-566 | A run of the pair in which a chunk no larger than the window stalls for good. |
| DemuxRuns.EndedStreamsGetNoWindow | crates/spl-core/src/mux.rs:813-965 | A stream that ends in an output is gone and that output holds no WINDOW for it. |
| DemuxRuns.ErrorIsFinal | crates/spl-core/src/mux.rs:775-790 | Once a feed fails, every later feed of any bytes fails and no stream changes. |
| ResponseSplits.CutsDoNotMatter | crates/spl-core/src/mux.rs:602-692 | However a response is cut into DATA payloads, if no cut fails the heads, the body and the state are those of one payload. |
| ResponseSplits.WholeResponse | crates/spl-core/src/mux.rs:602-692 | A whole response delivers one head, parsed from before the blank line, and the bytes after it, dechunked when the head says so. |
| ResponseSplits.AssemblyFailsIff | crates/spl-core/src/mux.rs:602-692 | A payload fails exactly if it takes an unfinished head past 4,194,304 bytes, ends a head that does not parse, or holds chunked bytes the decoder rejects. |
| Responses.PeerNeverStarves | crates/spl-core/src/mux.rs:467-520 | A peer of the one-shot assembler that has taken every grant holds more than half a window, over every run that has not closed or failed. |
| Responses.ResponseIsItsFrames | crates/spl-core/src/mux.rs:467-520 | Over every run that has not failed, the body, the reset and closed marks, the grants and the PONGs are those of the frames fed, read by their flags and stream. |
| Responses.FailuresAreLimits | crates/spl-core/src/mux.rs:480-510 | A frame fails exactly if its DATA exceeds the cap, or the window with a FLOW_CONTROL reset. |
| Responses.EndDropsWindows | crates/spl-core/src/mux.rs:467-520 | The frame that ends a response leaves nothing to emit. |
| Responses.ResponseAssembler.Feed | crates/spl-core/src/mux.rs:467-520 | The in-place loop handles the decoded frames in order, stops at a terminal failure, and leaves everything received consumed; the result is that of `Responses.ResponseIsItsFrames`. |
| ClientHello.AnswersAreFinal | crates/spl-bridge/src/sni.rs:135-209 | A Complete or failed answer on a prefix is the answer on every extension. |
| ClientHello.AnyCutParsesTheSame | crates/spl-bridge/src/sni.rs:40-209 | Any cut of a message of at most 32,768 bytes into nonempty records of at most 16,384 stays inside every limit and answers as the uncut body. |
| ClientHello.PrefixWaits | crates/spl-bridge/src/sni.rs:135-209 | Every proper prefix of a cut message is incomplete. |
| ClientHello.CompleteIsMessage | crates/spl-bridge/src/sni.rs:135-209 | A Complete answer only comes from records that hold a whole ClientHello message with that body. |
| ClientHello.PeekingIsSound | crates/spl-bridge/src/sni.rs:92-118 | The peek loop never gives a routing the whole stream would not. |
| ClientHello.PeekingIsFaithfulIff | crates/spl-bridge/src/sni.rs:92-118 | The peek loop routes a routable cut message on every arrival schedule exactly when it takes at most 131,072 wire bytes. |
| HelloLimits.AbsorbMeans | crates/spl-bridge/src/sni.rs:180-205 | Byte by byte or at once, a payload is bad exactly if the message so far is neither the beginning of a ClientHello of at most 32,768 bytes nor a whole one. |
| HelloLimits.EveryInputIsDecided | crates/spl-bridge/src/sni.rs:135-209 | Any input is records in progress and a rest, and is incomplete, malformed or answered by its message exactly as the rest's header, the number of records, the bytes taken and the message so far decide. |
| HelloBody.LongHelloIsRefused | crates/spl-bridge/src/sni.rs:92-118 | For every decodable name of at most 32,711 bytes there is a routable hello within every parser limit that the peek loop refuses when its first 131,072 bytes come and the rest is late. |
| HelloBody.BodyMeans | crates/spl-bridge/src/sni.rs:211-304 | Parsing the bytes of any structured ClientHello body gives the structure's meaning, the same error included. |
| HelloBody.RoutingMeans | crates/spl-bridge/src/sni.rs:211-304 | A body routes exactly when one server_name extension has a decodable first host_name and at most one ALPN extension is present; the routing is that name and whether acme-tls/1 is listed. |
| HelloBody.RoutesIff | crates/spl-bridge/src/sni.rs:211-304 | Any bytes route to a name exactly when they are the encoding of a well-formed ClientHello that says so: nothing else is ever routed. |
| SniParsing.ParseClientHello | crates/spl-bridge/src/sni.rs:135-209 | The record loop with its counters answers as the reassembly function. |
| SniParsing.AbsorbPayload | crates/spl-bridge/src/sni.rs:180-205 | The byte loop over a payload grows the message with every limit checked where the source checks it. |
| SniParsing.ParseClientHelloBody | crates/spl-bridge/src/sni.rs:211-256 | The cursor over the body reads the fields and extensions as the body function. |
| SniParsing.ParseServerName | crates/spl-bridge/src/sni.rs:258-284 | The name loop keeps the first host_name. |
| SniParsing.ParseAlpnForAcme | crates/spl-bridge/src/sni.rs:286-304 | The protocol loop reports whether acme-tls/1 is listed. |
| SniParsing.Cursor.Take | crates/spl-bridge/src/sni.rs:339-350 | Takes a prefix of what is left, or fails and stays where it is. |
| Crockford.AlphabetMeans | crates/spl-core/src/crockford.rs:10-16 | The alphabet is the digits and then the capitals, passing over I, L, O and U. |
| Crockford.SymbolMeans | crates/spl-core/src/crockford.rs:27-46 | A character has a value exactly if it is a symbol in either case, O for zero, or I or L for one. |
| Crockford.RoundTrip | crates/spl-core/src/crockford.rs:48-91 | Decoding the encoding of any bytes gives them back. |
| Crockford.DecodeIsCanonical | crates/spl-core/src/crockford.rs:27-69 | Exactly which strings decode to given bytes: valid symbols that clean to the encoding, or to it and one zero symbol when fewer than three padding bits were added. |
| Crockford.DecodeLoop | crates/spl-core/src/crockford.rs:48-69 | The loop with its wrapping 32-bit accumulator computes bit-string decoding, both errors included. |
| Crockford.EncodeLoop | crates/spl-core/src/crockford.rs:73-91 | The loop with its wrapping 32-bit accumulator computes bit-string encoding. |
| Nonces.EveryRunIsBounded | crates/spl-bridge/src/pop_auth.rs:905-981 | Over every interleaving and clock, outstanding and spent nonces are disjoint and at most 256 and 4096. |
| Nonces.IssueIsDecided | crates/spl-bridge/src/pop_auth.rs:905-927 | Issuing is refused exactly with 256 unexpired nonces outstanding; otherwise the first of eight draws not in use is issued, a failing source before it or eight collisions are reported, and nothing else changes. |
| Nonces.RedeemIsDecided | crates/spl-bridge/src/pop_auth.rs:929-976 | Redeeming succeeds exactly for an outstanding nonce, given with its own expiry, before that expiry, with room among the spent; it is then spent, and entries past their expiry are gone. |
| Nonces.RedeemedOnce | crates/spl-bridge/src/pop_auth.rs:896-1035 | Between two redemptions of a nonce comes a prune at or past the first one's retention time and then a fresh issue. |
| Nonces.IssuedStaysRedeemable | crates/spl-bridge/src/pop_auth.rs:905-1035 | Over every run an issued nonce stays outstanding until a clock reaches its expiry or its own armed lease is redeemed or dropped; until then its redemption succeeds if the spent set has room. |
| Nonces.SpentIsRetained | crates/spl-bridge/src/pop_auth.rs:905-981 | A spent nonce stays spent, with its retention, over every run whose clocks have not reached it. |
| Nonces.LeaseRedeemsOnce | crates/spl-bridge/src/pop_auth.rs:998-1034 | After a lease redeems or is dropped, on every run no redemption through it succeeds or changes anything. |
| NonceCaching.NonceCache.IssueWith | crates/spl-bridge/src/pop_auth.rs:905-927 | Issuing prunes, respects the capacity, and draws at most eight times for a nonce new to both maps. |
| NonceCaching.NonceCache.RedeemUntil | crates/spl-bridge/src/pop_auth.rs:929-976 | Both redemptions prune, check the issued expiry, respect the capacity and move the nonce once. |
| NonceCaching.NonceLease.RedeemUntil | crates/spl-bridge/src/pop_auth.rs:998-1024 | A lease redeems only while armed and is disarmed exactly by success. |
| NonceCaching.NonceLease.Drop | crates/spl-bridge/src/pop_auth.rs:1028-1034 | Dropping an armed lease gives its nonce back. |
| Lease.DeadlinesAreEarliest | crates/spl-bridge/src/lease.rs:57-89 | After an install and any samples each deadline is the earliest of all candidates, with None as never, and renewal never starts after the lease ends. |
| Lease.DeadlineMeans | crates/spl-bridge/src/lease.rs:306-318 | A deadline is due exactly once the wall clock, going on from its sample, is within the lead of the expiry, and at once without a wall clock. |
| Lease.EverySupervisorRun | crates/spl-bridge/src/lease.rs:110-265 | Over every run, whatever expiries the replies claim, committed expiries strictly increase and equal the journal's, attempts of one lease start at least 15 s apart unless the clock ends first, and the deadlines are the earliest candidates. |
| LeaseOutcomes.LeaseEndsInTime | crates/spl-bridge/src/lease.rs:110-211 | Over every run: stopped only if the journal is retired or gone; waiting only before the lease ends, and for the earliest instant an attempt is allowed; a lease that ends while waiting retires its journal. |
| LeaseOutcomes.SampledEverySecond | crates/spl-bridge/src/lease.rs:119-150 | Over every run clock samples of a lease are at least a second apart, and one is taken, waiting or attempting, once a second has passed. |
| LeaseOutcomes.AttemptsAreCutShort | crates/spl-bridge/src/lease.rs:228-265 | After every run a sample that shows the lease over poisons the attempt and any other only moves deadlines earlier; it times out, poisoned, exactly from ten seconds after its start or the end of the lease. |
| LeaseOutcomes.RepliesAreDecided | crates/spl-bridge/src/lease.rs:172-265 | After every run, a reply is carried to its exchange exactly if it verified, was redeemed, is of the same peer and claims a later expiry and the journal is not retired; a lost stream or a retired journal poisons the lease, any other reply leaves it as it was. |
| LeaseOutcomes.ExchangeCommits | crates/spl-bridge/src/lease.rs:185-199 | After every run, an exchange commits the claimed expiry and starts the new lease from its own sample. |
| LeaseOutcomes.ExpiriesAreClaimed | crates/spl-bridge/src/lease.rs:172-199 | Over every run, each expiry committed after the first was claimed by a verified, redeemed reply of the same peer. |
| Lease.PoisonIsFinal | crates/spl-bridge/src/lease.rs:110-211 | Once poisoned, no attempt starts and no expiry is committed again. |
| Lease.RetiredIsNotRenewed | crates/spl-bridge/src/lease.rs:172-199 | On every run of a retired journal at most the one renewal already past its check commits, and none if there is none. |
| Lease.RenewalAfterRetirement | crates/spl-bridge/src/lease.rs:185-192 | A retired journal's expiry changes in some continuation exactly when a renewal is past its retirement check, and at most once. |
| Lease.OneRenewalCanBeLate | crates/spl-bridge/src/lease.rs:185-192 | A run in which a retirement between check and exchange leaves a retired journal renewed. |
| Lease.UninterruptedIsNotRenewed | crates/spl-bridge/src/lease.rs:185-192 | If no retirement comes between check and exchange, a retired journal is never renewed, on any run. |
| Lease.LeaseSchedule.RatchetEarlier | crates/spl-bridge/src/lease.rs:65-74 | In place, deadlines move only earlier and stay the earliest of all samples. |
| Jwks.EveryRequestAnsweredOnce | crates/spl-bridge/src/pop_auth.rs:753-877 | Over every event sequence: one fetch in flight, starts at least 5 s apart, at most 64 keys, no request answered twice, each answered once by loop exit, and every key handed out unexpired. |
| Jwks.KeysAreFetched | crates/spl-bridge/src/pop_auth.rs:753-877 | Over every event sequence, a key handed out for an identifier is one a completed fetch had for it less than five minutes before. |
| JwksAnswers.WaitersGetTheirKeys | crates/spl-bridge/src/pop_auth.rs:797-877 | After every run whose earlier fetches completed strictly before, each waiter on a completing fetch of at most 64 keys whose identifier is in it is answered, in its turn, with that key. |
| JwksAnswers.FetchedKeysAreHandedOut | crates/spl-bridge/src/pop_auth.rs:753-795 | Over every run whose last fetch completed strictly last, a request for an identifier in it, less than five minutes later, is answered at once with its key. |
| JwksAnswers.RequestsAreDecided | crates/spl-bridge/src/pop_auth.rs:768-795 | After every run, whether a request is answered with a key, joins the fetch, is refused or starts a fetch is decided by the cache, the flight and the time since the last start. |
| JwksAnswers.CompletionsAreDecided | crates/spl-bridge/src/pop_auth.rs:797-821 | After every run, each waiter is refused for the key set exactly if the fetch failed, and otherwise given its key or refused for want of it. |
| JwksAnswers.LargeSetsLoseKeys | crates/spl-bridge/src/pop_auth.rs:854-877 | After every run, a completing fetch of more than 64 keys leaves one of them uncached. |
| JwksAnswers.TiesMayEvict | crates/spl-bridge/src/pop_auth.rs:854-877 | With equal expiries in a full cache, inserting a second key may evict the first key of the same fetch. |
| JwksAggregating.JwksAggregator.Receive | crates/spl-bridge/src/pop_auth.rs:768-795 | A request is answered from the pruned cache, joined, refused as too soon, or starts the fetch, as decided in `JwksAnswers.RequestsAreDecided`. |
| JwksAggregating.JwksAggregator.InsertKeys | crates/spl-bridge/src/pop_auth.rs:854-877 | The insert loop evicts an earliest expiry only for a new key in a full cache. |
| JwksAggregating.JwksAggregator.Complete | crates/spl-bridge/src/pop_auth.rs:797-821 | A completion answers every waiter in order, from the new cache or with the failure, as decided in `JwksAnswers.CompletionsAreDecided`. |
| Registrations.DisplacedIsRetired | crates/spl-bridge/src/registry.rs:112-230 | For every interleaving, shutdown included, an entry is a committed journal of its hostname, and a committed journal neither retired nor gone is its hostname's entry exactly when no shutdown has taken it out. |
| Registrations.RemovalIsExact | crates/spl-bridge/src/registry.rs:186-230 | A delayed removal removes nothing but the registration it was created for. |
| Registrations.EndedIsRemoved | crates/spl-bridge/src/registry.rs:186-230 | Over every run, once a registered journal's carrier has gone or it was retired, its removal leaves no entry that is it, on any continuation. |
| Registrations.OpensAfterRetirement | crates/spl-bridge/src/frame_dialer.rs:688-705 | From any state with the journal retired, some continuation queues another OPEN exactly when one is past its check, and none queues a second. |
| Registrations.LateOpenIff | crates/spl-bridge/src/frame_dialer.rs:688-705 | Over every run, an OPEN is or will be queued after retirement exactly if a retirement came between its check and its queueing. |
| Registrations.TogetherIsNeverLate | crates/spl-bridge/src/frame_dialer.rs:688-705 | With check and queueing as one step no OPEN is late, on any run. |
| Registrations.OneOpenCanBeLate | crates/spl-bridge/src/frame_dialer.rs:688-705 | A run of a registered journal in which a retirement between check and queue lets one OPEN out after it. |
| Registrations.DrainedIsNotYetRetired | crates/spl-bridge/src/registry.rs:207-220 | A run after which a committed journal is up, not retired and not current, until shutdown's task retires it. |
| Registrations.NothingHandedOutOnceRetired | crates/spl-bridge/src/registry.rs:314-328 | Over every run, no second check after retirement hands out a stream, and every queued OPEN is handed out, dropped or awaited. |
| Registrations.LiveOpensAreHandedOut | crates/spl-bridge/src/registry.rs:314-328 | Over every run, if a journal is not retired and no open of it timed out, every OPEN it queued was handed out or still waits. |
| Registrations.ExpiryIsItsExchanges | crates/spl-bridge/src/registry.rs:248-252 | From any point of any run, a journal's expiry is changed by exactly the compare-exchanges that expected it. |
| Registrations.GenerationsIncreaseIff | crates/spl-bridge/src/registry.rs:112-134 | Over every run, the generations installed for a hostname are its committed journals, and increase exactly when no commit for it comes after that of a later-drawn generation. |
| Registrations.OlderMayReplaceNewer | crates/spl-bridge/src/registry.rs:112-134 | A run in which two registrations commit in the opposite order to their generations. |
| RegistryObjects.HostRegistry.CommitCandidate | crates/spl-bridge/src/registry.rs:121-134 | The section under the lock retires what it displaces and takes its place, on the shared journal objects. |
| RegistryObjects.HostRegistry.RemoveIf | crates/spl-bridge/src/registry.rs:222-230 | Removes the entry only if it is of the given generation. |
| RegistryObjects.HostRegistry.RetireUnresponsive | crates/spl-bridge/src/registry.rs:186-198 | Retires the journal, then removes it only if it is still current. |
| RegistryObjects.HostRegistry.TakeAll | crates/spl-bridge/src/registry.rs:207-211 | Shutdown empties the map and hands back exactly the current journals, not yet retired. |
| RegistryObjects.HostRegistry.RetireTaken | crates/spl-bridge/src/registry.rs:212-218 | A journal shutdown took out is retired in its own step. |
| RegistryObjects.RegisteredJournal.ReplaceExpiryIf | crates/spl-bridge/src/registry.rs:248-252 | A compare-exchange: succeeds exactly on the expected expiry and changes nothing otherwise. |

## Left out

- Tokio, sockets, TLS, wakers, timeouts and task cancellation: a channel is a sequence and a timeout an enabled step.
- Cryptography, certificates, JWT, JSON and base64: single-pass checks over foreign libraries; a renewal's reply is a step that says what of it verified and which expiry it claims.
- HTTP head parsing, chunk-size parsing and UTF-8 validity: parameters shared by both sides of each agreement.
- End of carrier (`finish_eof`, `PeerGone`, the `Gone` statuses) and failing writers: a stopped driver is modelled, its teardown is not.
- `reserve_listener_id`, diagnostics counters and logging: nothing depends on them.
- Write replies, flush replies and waiting writers of the bridge stream handle: the driver's decision is modelled, not its delivery.
- Duplex.FlowControlNeverMisfires: stops before the dialer's identifiers wrap after 2^31 - 1 opens, and local callers never choose the FLOW_CONTROL code for a reset.
- DuplexBytes.BytesArriveInOrder: the same two limits, since it runs the same pair.
- BridgeOrder.WritesKeepOrderIff: the same two limits.
- DuplexEnds.EndOfStreamIsComplete: the same two limits.
- DemuxPair.DownlinkStallsIff: the frames of one stream only, which neither side closes or resets meanwhile; that other streams do not matter is `DemuxIsolation.StreamsAreIsolated`.
- ResponseSplits.CutsDoNotMatter: says nothing of cuts that fail; a cut may exceed the head cap where one payload would not.
- Registrations.DisplacedIsRetired: generations never wrap at 2^64; a candidate past its deadline or expiry at commit simply never commits.
- HomeDriving.HomeDriver: a handle's calls are steps of `SchedulerRuns`, not methods of the class.
- Pair links, CA pinning, URL and header rewriting, the client transport and the routing glue: short or string-level facts only.
