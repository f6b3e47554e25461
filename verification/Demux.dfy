/**
 The dialer-side demultiplexer: frames of a persistent carrier are routed to
 per-stream HTTP response assemblers, receive credit is debited on decode and
 consumed as response metadata arrives or as the consumer drains body events.
 Parsing a response head and a chunk size line are parameters.
 */
module Demux {
  import opened Outcomes
  import opened Wire
  import opened Flow
  import C = Chunked

  const MAX_ASSEMBLED_BYTES: nat := 0x40_0000
  const HEAD_END: Bytes := C.CRLF + C.CRLF

  datatype Head = Head(status: nat, headers: seq<(string, string)>)

  /** `headOf` parses a response head, `isChunked` reads its transfer encoding. */
  datatype Parsers = Parsers(headOf: Bytes -> Option<Head>, isChunked: Head -> bool, sizeOf: C.SizeOf)

  datatype ResetReason = ProtocolError | FlowControlError | Unspecified

  datatype StreamEnd = ByClose | ByReset(reason: ResetReason)

  datatype Item = HeadItem(head: Head) | BodyItem(bytes: Bytes) | EndItem(end: StreamEnd)

  /** `cost` is the DATA bytes to consume when the event is drained. */
  datatype StreamEvent = StreamEvent(item: Item, cost: nat)

  // ---------------------------------------------------------------- assembly

  datatype Assembler = Assembler(
    headBuf: Bytes, headEmitted: bool, chunked: bool, decoder: C.Decoder, pendingWire: nat)
  {
    /** Until the head is complete its buffer holds no terminator. */
    predicate Valid() {
      !headEmitted ==> C.Find(headBuf, HEAD_END).None? && pendingWire == 0
    }
  }

  const NEW_ASSEMBLER := Assembler([], false, false, C.NEW_DECODER, 0)

  datatype AssemblyError = BadHttp | CapExceeded

  datatype Assembled = Assembled(next: Assembler, events: seq<StreamEvent>, autoConsumed: nat)

  /** Body bytes; the event that carries them out pays for all that led to it. */
  function FeedBody(p: Parsers, a: Assembler, payload: Bytes): Result<(Assembler, seq<StreamEvent>), AssemblyError> {
    if payload == [] then Ok((a, []))
    else
      var pushed := if a.chunked then C.Push(p.sizeOf, a.decoder, payload) else C.Pushed(a.decoder, Some(payload));
      var wire := a.pendingWire + |payload|;
      match pushed.out
      case None => Err(BadHttp)
      case Some(body) =>
        if body == [] then Ok((a.(decoder := pushed.decoder, pendingWire := wire), []))
        else Ok((a.(decoder := pushed.decoder, pendingWire := 0), [StreamEvent(BodyItem(body), wire)]))
  }

  function FeedData(p: Parsers, a: Assembler, payload: Bytes): Result<Assembled, AssemblyError> {
    if a.headEmitted then
      match FeedBody(p, a, payload)
      case Err(e) => Err(e)
      case Ok((a', events)) => Ok(Assembled(a', events, 0))
    else
      var buf := a.headBuf + payload;
      match C.Find(buf, HEAD_END)
      case None =>
        if |buf| > MAX_ASSEMBLED_BYTES then Err(CapExceeded)
        else Ok(Assembled(a.(headBuf := buf), [], |payload|))
      case Some(split) =>
        C.FindStable(buf, HEAD_END, []);
        match p.headOf(buf[..split])
        case None => Err(BadHttp)
        case Some(head) =>
          var a' := a.(headBuf := [], headEmitted := true, chunked := p.isChunked(head));
          match FeedBody(p, a', buf[split + 4..])
          case Err(e) => Err(e)
          case Ok((a'', events)) =>
            Ok(Assembled(a'', [StreamEvent(HeadItem(head), 0)] + events,
                         Least(Monus(split + 4, |a.headBuf|), |payload|)))
  }

  function Monus(a: nat, b: nat): nat {
    if a < b then 0 else a - b
  }

  function Least(a: nat, b: nat): nat {
    if a < b then a else b
  }

  function Costs(events: seq<StreamEvent>): nat {
    if events == [] then 0 else events[0].cost + Costs(events[1..])
  }

  lemma FeedBodyAccounts(p: Parsers, a: Assembler, payload: Bytes)
    requires FeedBody(p, a, payload).Ok?
    ensures var (a', events) := FeedBody(p, a, payload).value;
            && a'.pendingWire + Costs(events) == a.pendingWire + |payload|
            && a'.headEmitted == a.headEmitted && a'.headBuf == a.headBuf
            && |events| <= 1 && (events != [] ==> events[0].item.BodyItem?)
  {
    hide C.Push;
    var (a', events) := FeedBody(p, a, payload).value;
    if events != [] {
      assert events[1..] == [];
    }
  }

  /**
   Wire-cost attribution is exact: every payload byte is consumed at once, paid
   by a body event of this call, or still pending. The head may have been split
   anywhere; saturation and clamping in the attribution never take effect.
   */
  lemma FeedDataAccounts(p: Parsers, a: Assembler, payload: Bytes)
    requires a.Valid() && FeedData(p, a, payload).Ok?
    ensures var r := FeedData(p, a, payload).value;
            && r.next.Valid()
            && r.autoConsumed <= |payload|
            && r.autoConsumed + Costs(r.events) + r.next.pendingWire == a.pendingWire + |payload|
  {
    hide C.Find, C.Push, FeedBody;
    if a.headEmitted {
      FeedBodyAccounts(p, a, payload);
    } else {
      var buf := a.headBuf + payload;
      var found := C.Find(buf, HEAD_END);
      if found.Some? {
        var split := found.value;
        TerminatorIsNew(a.headBuf, payload, split);
        var head := p.headOf(buf[..split]).value;
        var a' := a.(headBuf := [], headEmitted := true, chunked := p.isChunked(head));
        FeedBodyAccounts(p, a', buf[split + 4..]);
        var events := FeedBody(p, a', buf[split + 4..]).value.1;
        assert ([StreamEvent(HeadItem(head), 0)] + events)[1..] == events;
      }
    }
  }

  /** A terminator found only after a payload is appended ends inside that payload. */
  lemma TerminatorIsNew(headBuf: Bytes, payload: Bytes, split: nat)
    requires C.Find(headBuf, HEAD_END).None? && C.Find(headBuf + payload, HEAD_END) == Some(split)
    ensures |headBuf| < split + 4 <= |headBuf + payload|
  {
    C.FindIsFirst(headBuf, HEAD_END);
    C.FindIsFirst(headBuf + payload, HEAD_END);
    C.FindStable(headBuf + payload, HEAD_END, []);
    OccursInPrefix(headBuf, payload, split);
  }

  lemma OccursInPrefix(b: Bytes, more: Bytes, at: nat)
    ensures at + 4 <= |b| && C.OccursAt(b + more, HEAD_END, at) ==> C.OccursAt(b, HEAD_END, at)
  {
    if at + 4 <= |b| {
      assert (b + more)[at..at + 4] == b[at..at + 4];
    }
  }

  /** A call's events are at most one Head, only while the head is awaited, then bodies. */
  lemma FeedDataShape(p: Parsers, a: Assembler, payload: Bytes)
    requires FeedData(p, a, payload).Ok?
    ensures var r := FeedData(p, a, payload).value;
            var heads := if r.next.headEmitted && !a.headEmitted then 1 else 0;
            && (a.headEmitted ==> r.next.headEmitted)
            && heads <= |r.events| <= heads + 1
            && (heads == 1 ==> r.events[0].item.HeadItem? && r.events[0].cost == 0)
            && (|r.events| > heads ==> r.events[heads].item.BodyItem? && r.next.headEmitted)
  {
    hide C.Find, C.Push, FeedBody;
    if a.headEmitted {
      FeedBodyAccounts(p, a, payload);
    } else {
      var buf := a.headBuf + payload;
      var found := C.Find(buf, HEAD_END);
      if found.Some? {
        C.FindStable(buf, HEAD_END, []);
        var head := p.headOf(buf[..found.value]).value;
        FeedBodyAccounts(p, a.(headBuf := [], headEmitted := true, chunked := p.isChunked(head)),
                         buf[found.value + 4..]);
      }
    }
  }

  // ---------------------------------------------------------------- routing

  datatype CarrierStream = CarrierStream(assembler: Assembler, window: Window) {
    predicate Valid() {
      assembler.Valid() && window.Valid()
    }
  }

  const NEW_STREAM := CarrierStream(NEW_ASSEMBLER, NEW_WINDOW)

  datatype Output = Output(
    pongs: seq<Frame>,
    inboundPongs: seq<Bytes>,
    events: seq<(U32, StreamEvent)>,
    grants: seq<(U32, U32)>,
    emits: seq<Frame>,
    violations: seq<FrameViolation>)

  const NO_OUTPUT := Output([], [], [], [], [], [])

  type Streams = map<U32, CarrierStream>

  datatype Turn = Turn(streams: Streams, out: Output)

  /** Drop WINDOW frames already queued for a stream that is ending. */
  function WithoutWindows(frames: seq<Frame>, id: U32): seq<Frame> {
    if frames == [] then []
    else (if frames[0].streamId != id || !Grants(frames[0].flags) then [frames[0]] else [])
         + WithoutWindows(frames[1..], id)
  }

  function Tag(id: U32, events: seq<StreamEvent>): seq<(U32, StreamEvent)> {
    seq(|events|, i requires 0 <= i < |events| => (id, events[i]))
  }

  /** A stream ends: its queued WINDOWs go, its End event comes, it is forgotten. */
  function Finish(t: Turn, id: U32, end: StreamEnd): Turn {
    Turn(t.streams - {id},
         t.out.(emits := WithoutWindows(t.out.emits, id),
                events := t.out.events + [(id, StreamEvent(EndItem(end), 0))]))
  }

  function Emit(t: Turn, f: Frame): Turn {
    t.(out := t.out.(emits := t.out.emits + [f]))
  }

  /** Answer an invalid frame with a protocol reset, ending its stream if known. */
  function Reject(t: Turn, f: Frame): Turn {
    var id := f.streamId;
    var known := id in t.streams;
    var emits := (if known then WithoutWindows(t.out.emits, id) else t.out.emits)
                 + [ResetFrame(id, RESET_PROTOCOL_ERROR)];
    var events := if known then [(id, StreamEvent(EndItem(ByReset(ProtocolError)), 0))] else [];
    Turn(t.streams - {id},
         t.out.(emits := emits, events := t.out.events + events, violations := t.out.violations + [f.Violation()]))
  }

  function ReasonOf(payload: Bytes): ResetReason {
    if payload == [] then Unspecified
    else if payload[0] == RESET_PROTOCOL_ERROR then ProtocolError
    else if payload[0] == RESET_FLOW_CONTROL_ERROR then FlowControlError
    else Unspecified
  }

  /** DATA for a known stream: debit, assemble, consume metadata, deliver. */
  function RouteData(p: Parsers, t: Turn, f: Frame): Turn
    requires f.streamId in t.streams && t.streams[f.streamId].Valid()
  {
    var id := f.streamId;
    var s := t.streams[id];
    if !s.window.Admits(|f.payload|) then
      var t' := Finish(t, id, ByReset(FlowControlError));
      t'.(out := t'.out.(emits := t'.out.emits + [ResetFrame(id, RESET_FLOW_CONTROL_ERROR)]))
    else match FeedData(p, s.assembler, f.payload)
         case Err(_) => Finish(t, id, ByReset(Unspecified))
         case Ok(r) =>
           FeedDataAccounts(p, s.assembler, f.payload);
           var (window, grant) := s.window.Debit(|f.payload|).Consume(r.autoConsumed);
           var t' := Turn(t.streams[id := CarrierStream(r.next, window)],
                          t.out.(emits := t.out.emits
                                          + match grant case None => [] case Some(g) => [WindowFrame(id, g)],
                                 events := t.out.events + Tag(id, r.events)));
           if Closes(f.flags) then Finish(t', id, ByClose) else t'
  }

  predicate StreamsValid(streams: Streams) {
    forall id :: id in streams ==> streams[id].Valid()
  }

  /** A frame on a nonzero stream. */
  function Route(p: Parsers, t: Turn, f: Frame): Turn
    requires StreamsValid(t.streams)
  {
    var id := f.streamId;
    if !FlagsValid(f.flags) || Opens(f.flags) || f.flags == FLAG_PING || f.flags == FLAG_PONG then Reject(t, f)
    else if id !in t.streams then
      if CarriesData(f.flags) || f.flags == FLAG_WINDOW then Reject(t, f) else t
    else if f.flags == FLAG_RESET then Finish(t, id, ByReset(ReasonOf(f.payload)))
    else if f.flags == FLAG_CLOSE then Finish(t, id, ByClose)
    else if f.flags == FLAG_DATA || f.flags == FLAG_DATA + FLAG_CLOSE then RouteData(p, t, f)
    else match f.WindowCredit()
         case None => Reject(t, f)
         case Some(credit) => t.(out := t.out.(grants := t.out.grants + [(id, credit)]))
  }

  /** A frame on stream zero: None is a violation that ends the tunnel. */
  function RouteControl(t: Turn, f: Frame): Option<Turn> {
    if f.ControlPong().Some? then Some(t.(out := t.out.(pongs := t.out.pongs + [f.ControlPong().value])))
    else if f.ControlPongNonce().Some? then
      Some(t.(out := t.out.(inboundPongs := t.out.inboundPongs + [f.ControlPongNonce().value])))
    else None
  }

  lemma RouteDataValid(p: Parsers, t: Turn, f: Frame)
    requires StreamsValid(t.streams) && f.streamId in t.streams
    ensures StreamsValid(RouteData(p, t, f).streams)
  {
    hide FeedData;
    var s := t.streams[f.streamId];
    if s.window.Admits(|f.payload|) && FeedData(p, s.assembler, f.payload).Ok? {
      FeedDataAccounts(p, s.assembler, f.payload);
    }
  }

  lemma RouteValid(p: Parsers, t: Turn, f: Frame)
    requires StreamsValid(t.streams)
    ensures StreamsValid(Route(p, t, f).streams)
  {
    hide RouteData, Assembler.Valid;
    if f.streamId in t.streams {
      RouteDataValid(p, t, f);
    }
  }

  /** Frames in order; stops with the violation that ends the tunnel. */
  function RouteAll(p: Parsers, t: Turn, frames: seq<Frame>): (Turn, Option<FrameViolation>)
    requires StreamsValid(t.streams)
    decreases |frames|
  {
    if frames == [] then (t, None)
    else if frames[0].streamId != 0 then
      RouteValid(p, t, frames[0]);
      RouteAll(p, Route(p, t, frames[0]), frames[1..])
    else match RouteControl(t, frames[0])
         case None => (t, Some(frames[0].Violation()))
         case Some(t') => RouteAll(p, t', frames[1..])
  }

  // ---------------------------------------------------------------- carrier

  datatype DemuxError = Protocol(violation: FrameViolation) | FrameFailure(error: FrameError)

  datatype Carrier = Carrier(buf: Bytes, streams: Streams, fatal: Option<FrameViolation>)

  function Feed(p: Parsers, c: Carrier, data: Bytes): (Carrier, Result<Output, DemuxError>)
    requires StreamsValid(c.streams)
  {
    if c.fatal.Some? then (c, Err(Protocol(c.fatal.value)))
    else
      var d := Drain(c.buf + data);
      var c' := c.(buf := d.rest);
      if d.bad.Some? then (c', Err(FrameFailure(ReservedFlag(d.bad.value))))
      else
        var (t, fatal) := RouteAll(p, Turn(c.streams, NO_OUTPUT), d.frames);
        var c'' := c'.(streams := t.streams, fatal := fatal);
        (c'', if fatal.Some? then Err(Protocol(fatal.value)) else Ok(t.out))
  }

  /** Consuming a drained body event; streams already gone produce no WINDOW. */
  function Consume(streams: Streams, id: U32, bytes: nat): (Streams, Option<Frame>)
    requires id in streams ==> streams[id].Valid() && bytes <= streams[id].window.Outstanding()
  {
    if id !in streams then (streams, None)
    else
      var (window, grant) := streams[id].window.Consume(bytes);
      (streams[id := streams[id].(window := window)],
       match grant case None => None case Some(g) => Some(WindowFrame(id, g)))
  }
}
