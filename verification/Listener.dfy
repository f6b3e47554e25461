/**
 What the listener-side mux does with each frame and each local call, as a
 function of its state. Output is appended to an accumulator, which may be the
 whole log of a run.
 */
module Listener {
  import opened Outcomes
  import opened Wire
  import opened Flow

  datatype Limits = Limits(maxStreams: nat, decoderBytes: nat) {
    /** A nonzero stream cap, and room for one maximum-size frame. */
    predicate Valid() {
      maxStreams > 0 && decoderBytes >= HEADER_LEN + MAX_PAYLOAD
    }
  }

  datatype Class = Protocol | StreamLimit | FlowControl | Internal

  datatype ResetReason =
    | ProtocolError | FlowControlError | StreamLimitExceeded | InternalError | Cancel | Unspecified

  datatype Refusal = Refusal(kind: Class, violation: Option<FrameViolation>)

  datatype HomeError = Refused(refusal: Refusal) | Closed

  datatype Event =
    | Opened(streamId: U32)
    | Data(streamId: U32, bytes: Bytes)
    | ReadClosed(streamId: U32)
    | WasReset(streamId: U32, reason: ResetReason)

  datatype Output = Output(frames: seq<Frame>, events: seq<Event>, refusals: seq<Refusal>, writable: seq<U32>)

  const NO_OUTPUT := Output([], [], [], [])

  /** Per-stream state; `debited` mirrors the window's outstanding bytes. */
  datatype Stream = Stream(window: Window, debited: nat, sendCredit: nat, peerClosed: bool, localClosed: bool) {
    predicate Valid() {
      && window.Valid()
      && window.unacked < RECEIVE_GRANT_THRESHOLD
      && debited == window.Outstanding()
      && sendCredit <= MAX_SEND_CREDIT
    }
  }

  const COUNTER_MAX: nat := 0xffff_ffff_ffff_ffff

  /** Per-class refusal counters, saturating at 64 bits. */
  datatype Counts = Counts(streamLimit: nat, flowControl: nat, protocol: nat, internal: nat) {
    function Record(c: Class): Counts {
      match c
      case StreamLimit => this.(streamLimit := Bump(streamLimit))
      case FlowControl => this.(flowControl := Bump(flowControl))
      case Protocol => this.(protocol := Bump(protocol))
      case Internal => this.(internal := Bump(internal))
    }

    function Of(c: Class): nat {
      match c
      case StreamLimit => streamLimit
      case FlowControl => flowControl
      case Protocol => protocol
      case Internal => internal
    }
  }

  function Bump(n: nat): nat {
    if n >= COUNTER_MAX then COUNTER_MAX else n + 1
  }

  datatype Mux = Mux(limits: Limits, highWater: Option<U32>, streams: map<U32, Stream>, counts: Counts) {
    predicate Valid() {
      && limits.Valid()
      && forall id :: id in streams ==> streams[id].Valid()
    }
  }

  function NewMux(limits: Limits): Mux {
    Mux(limits, None, map[], Counts(0, 0, 0, 0))
  }

  datatype Turn = Turn(mux: Mux, out: Output)

  function ReasonOf(c: Class): ResetReason {
    match c
    case Protocol => ProtocolError
    case StreamLimit => StreamLimitExceeded
    case FlowControl => FlowControlError
    case Internal => InternalError
  }

  function Code(reason: ResetReason): Byte {
    match reason
    case ProtocolError => RESET_PROTOCOL_ERROR
    case FlowControlError => RESET_FLOW_CONTROL_ERROR
    case StreamLimitExceeded => RESET_STREAM_LIMIT_EXCEEDED
    case InternalError => RESET_INTERNAL_ERROR
    case Cancel => RESET_CANCEL
    case Unspecified => RESET_UNSPECIFIED
  }

  function ReasonFromWire(code: Byte): ResetReason {
    if code == RESET_PROTOCOL_ERROR then ProtocolError
    else if code == RESET_FLOW_CONTROL_ERROR then FlowControlError
    else if code == RESET_STREAM_LIMIT_EXCEEDED then StreamLimitExceeded
    else if code == RESET_INTERNAL_ERROR then InternalError
    else if code == RESET_CANCEL then Cancel
    else Unspecified
  }

  // ------------------------------------------------------------ peer frames

  /** Answer a frame with RESET and drop the stream it names, if it is live. */
  function Refuse(t: Turn, v: FrameViolation, c: Class): Turn {
    var mux := t.mux.(counts := t.mux.counts.Record(c), streams := t.mux.streams - {v.streamId});
    var out := t.out.(frames := t.out.frames + [ResetFrame(v.streamId, Code(ReasonOf(c)))],
                      refusals := t.out.refusals + [Refusal(c, Some(v))]);
    if v.streamId in t.mux.streams
    then Turn(mux, out.(events := out.events + [WasReset(v.streamId, ReasonOf(c))]))
    else Turn(mux, out)
  }

  /** The peer half-closed; a stream closed on both sides is forgotten. */
  function MarkPeerClosed(t: Turn, id: U32): Turn {
    if id !in t.mux.streams then t
    else
      var s := t.mux.streams[id];
      Turn(t.mux.(streams := if s.localClosed then t.mux.streams - {id}
                             else t.mux.streams[id := s.(peerClosed := true)]),
           t.out.(events := t.out.events + [ReadClosed(id)]))
  }

  predicate FreshId(mux: Mux, id: U32) {
    id % 2 == 1 && (mux.highWater.None? || id > mux.highWater.value)
  }

  function HandleOpen(t: Turn, f: Frame): Turn {
    if !FreshId(t.mux, f.streamId) then Refuse(t, f.Violation(), Protocol)
    else
      var t' := t.(mux := t.mux.(highWater := Some(f.streamId)));
      if |t.mux.streams| >= t.mux.limits.maxStreams then Refuse(t', f.Violation(), StreamLimit)
      else if |f.payload| > INITIAL_WINDOW then Refuse(t', f.Violation(), FlowControl)
      else
        var s := Stream(NEW_WINDOW.Debit(|f.payload|), |f.payload|, INITIAL_WINDOW, false, false);
        var events := [Opened(f.streamId)]
          + if f.payload != [] || CarriesData(f.flags) then [Data(f.streamId, f.payload)] else [];
        var t'' := Turn(t'.mux.(streams := t'.mux.streams[f.streamId := s]),
                        t'.out.(events := t'.out.events + events));
        if Closes(f.flags) then MarkPeerClosed(t'', f.streamId) else t''
  }

  function HandleData(t: Turn, f: Frame, closes: bool): Turn
    requires f.streamId in t.mux.streams
  {
    var s := t.mux.streams[f.streamId];
    if s.peerClosed then Refuse(t, f.Violation(), Protocol)
    else if !s.window.Admits(|f.payload|) then Refuse(t, f.Violation(), FlowControl)
    else
      var s' := s.(window := s.window.Debit(|f.payload|), debited := s.debited + |f.payload|);
      var t' := Turn(t.mux.(streams := t.mux.streams[f.streamId := s']),
                     t.out.(events := t.out.events + [Data(f.streamId, f.payload)]));
      if closes then MarkPeerClosed(t', f.streamId) else t'
  }

  function HandleReset(t: Turn, f: Frame): Turn {
    if |f.payload| != 1 then Refuse(t, f.Violation(), Protocol)
    else Turn(t.mux.(streams := t.mux.streams - {f.streamId}),
              t.out.(events := t.out.events + [WasReset(f.streamId, ReasonFromWire(f.payload[0]))]))
  }

  function HandleWindow(t: Turn, f: Frame): Turn
    requires f.streamId in t.mux.streams
  {
    match f.WindowCredit()
    case None => Refuse(t, f.Violation(), Protocol)
    case Some(grant) =>
      var s := t.mux.streams[f.streamId];
      match AddCredit(s.sendCredit, grant)
      case None => Refuse(t, f.Violation(), FlowControl)
      case Some(credit) =>
        Turn(t.mux.(streams := t.mux.streams[f.streamId := s.(sendCredit := credit)]),
             t.out.(writable := t.out.writable + [f.streamId]))
  }

  /** A frame on stream zero: PING is answered, PONG dropped, the rest fatal. */
  function HandleControl(t: Turn, f: Frame): Result<Turn, HomeError> {
    if f.flags == FLAG_PING && |f.payload| == CONTROL_NONCE_LEN
    then Ok(t.(out := t.out.(frames := t.out.frames + [Frame(0, FLAG_PONG, f.payload)])))
    else if f.flags == FLAG_PONG && |f.payload| == CONTROL_NONCE_LEN then Ok(t)
    else Err(Refused(Refusal(Protocol, Some(f.Violation()))))
  }

  /** A frame on any other stream. */
  function HandleStream(t: Turn, f: Frame): Turn {
    if !FlagsValid(f.flags) || f.flags == FLAG_PING || f.flags == FLAG_PONG
    then Refuse(t, f.Violation(), Protocol)
    else if Opens(f.flags) then HandleOpen(t, f)
    else if f.streamId !in t.mux.streams then
      if Closes(f.flags) || Resets(f.flags) then t else Refuse(t, f.Violation(), Protocol)
    else if f.flags == FLAG_DATA then HandleData(t, f, false)
    else if f.flags == FLAG_DATA + FLAG_CLOSE then HandleData(t, f, true)
    else if f.flags == FLAG_CLOSE then
      if f.payload != [] then HandleData(t, f, true) else MarkPeerClosed(t, f.streamId)
    else if f.flags == FLAG_RESET then HandleReset(t, f)
    else HandleWindow(t, f)
  }

  function Handle(t: Turn, f: Frame): Result<Turn, HomeError> {
    if f.streamId == 0 then HandleControl(t, f) else Ok(HandleStream(t, f))
  }

  // ------------------------------------------------------------ local calls

  function Consume(mux: Mux, id: U32, bytes: nat): Result<(Mux, seq<Frame>), HomeError>
    requires mux.Valid()
  {
    if id !in mux.streams then Err(Closed)
    else
      var s := mux.streams[id];
      if bytes > s.debited then Err(Refused(Refusal(Internal, None)))
      else
        var (window, grant) := s.window.Consume(bytes);
        Ok((mux.(streams := mux.streams[id := s.(window := window, debited := s.debited - bytes)]),
            match grant case None => [] case Some(g) => [WindowFrame(id, g)]))
  }

  /** Ok with no frame means the peer's credit does not cover the whole chunk. */
  function TrySend(mux: Mux, id: U32, bytes: Bytes): Result<(Mux, Option<Frame>), HomeError> {
    if |bytes| > RECOMMENDED_CHUNK then Err(Refused(Refusal(Internal, None)))
    else if id !in mux.streams || mux.streams[id].localClosed then Err(Closed)
    else
      var s := mux.streams[id];
      if |bytes| > s.sendCredit then Ok((mux, None))
      else Ok((mux.(streams := mux.streams[id := s.(sendCredit := s.sendCredit - |bytes|)]),
               Some(Frame(id, FLAG_DATA, bytes))))
  }

  function CloseWrite(mux: Mux, id: U32): Result<(Mux, Frame), HomeError> {
    if id !in mux.streams || mux.streams[id].localClosed then Err(Closed)
    else
      var s := mux.streams[id];
      Ok((mux.(streams := if s.peerClosed then mux.streams - {id}
                          else mux.streams[id := s.(localClosed := true)]),
          Frame(id, FLAG_CLOSE, [])))
  }

  function Reset(mux: Mux, id: U32, reason: ResetReason): Result<(Mux, Frame), HomeError> {
    if id !in mux.streams then Err(Closed)
    else Ok((mux.(streams := mux.streams - {id}), ResetFrame(id, Code(reason))))
  }

  // ------------------------------------------------------------ answers

  /** Stream zero carries only eight-byte PINGs, echoed, and PONGs, dropped; the rest is fatal. */
  lemma ControlIsAnswered(t: Turn, f: Frame)
    requires f.streamId == 0
    ensures Handle(t, f).Ok? <==> (f.flags == FLAG_PING || f.flags == FLAG_PONG) && |f.payload| == CONTROL_NONCE_LEN
    ensures Handle(t, f).Ok? ==>
              var out := Handle(t, f).value.out;
              && Handle(t, f).value.mux == t.mux && out == t.out.(frames := out.frames)
              && (f.flags == FLAG_PONG ==> out.frames == t.out.frames)
              && (f.flags == FLAG_PING ==>
                    && |out.frames| == |t.out.frames| + 1 && t.out.frames <= out.frames
                    && out.frames[|t.out.frames|].ControlPongNonce() == Some(f.payload))
    ensures Handle(t, f).Err? ==> Handle(t, f).error == Refused(Refusal(Protocol, Some(f.Violation())))
  {
  }

  /** A refusal tells the peer its class, ends the stream it names and no other, and is counted once. */
  lemma RefusalIsAnswered(t: Turn, v: FrameViolation, c: Class)
    ensures var t' := Refuse(t, v, c);
            && t'.out.frames == t.out.frames + [ResetFrame(v.streamId, Code(ReasonOf(c)))]
            && t'.out.refusals == t.out.refusals + [Refusal(c, Some(v))]
            && ReasonFromWire(Code(ReasonOf(c))) == ReasonOf(c)
            && t'.mux.streams.Keys == t.mux.streams.Keys - {v.streamId}
            && (forall id :: id in t'.mux.streams ==> t'.mux.streams[id] == t.mux.streams[id])
            && (t'.out.events != t.out.events <==> v.streamId in t.mux.streams)
            && (forall k: Class ::
                  t'.mux.counts.Of(k) == if k == c then Bump(t.mux.counts.Of(k)) else t.mux.counts.Of(k))
  {
    var t' := Refuse(t, v, c);
    if v.streamId in t.mux.streams {
      assert |t'.out.events| == |t.out.events| + 1;
    }
  }

  // ------------------------------------------------------------ validity

  lemma RefuseValid(t: Turn, v: FrameViolation, c: Class)
    requires t.mux.Valid()
    ensures Refuse(t, v, c).mux.Valid() && Refuse(t, v, c).mux.limits == t.mux.limits
  {
  }

  lemma MarkPeerClosedValid(t: Turn, id: U32)
    requires t.mux.Valid()
    ensures MarkPeerClosed(t, id).mux.Valid() && MarkPeerClosed(t, id).mux.limits == t.mux.limits
  {
  }

  lemma HandleOpenValid(t: Turn, f: Frame)
    requires t.mux.Valid()
    ensures HandleOpen(t, f).mux.Valid() && HandleOpen(t, f).mux.limits == t.mux.limits
  {
    hide Refuse, MarkPeerClosed;
    forall t: Turn, v, c | t.mux.Valid() { RefuseValid(t, v, c); }
    forall t: Turn, id | t.mux.Valid() { MarkPeerClosedValid(t, id); }
  }

  lemma HandleDataValid(t: Turn, f: Frame, closes: bool)
    requires t.mux.Valid() && f.streamId in t.mux.streams
    ensures HandleData(t, f, closes).mux.Valid() && HandleData(t, f, closes).mux.limits == t.mux.limits
  {
    hide Refuse, MarkPeerClosed;
    forall t: Turn, v, c | t.mux.Valid() { RefuseValid(t, v, c); }
    forall t: Turn, id | t.mux.Valid() { MarkPeerClosedValid(t, id); }
  }

  lemma HandleStreamValid(t: Turn, f: Frame)
    requires t.mux.Valid()
    ensures HandleStream(t, f).mux.Valid()
    ensures HandleStream(t, f).mux.limits == t.mux.limits
  {
    hide Refuse, MarkPeerClosed, HandleOpen, HandleData;
    RefuseValid(t, f.Violation(), Protocol);
    RefuseValid(t, f.Violation(), FlowControl);
    MarkPeerClosedValid(t, f.streamId);
    HandleOpenValid(t, f);
    if f.streamId in t.mux.streams {
      HandleDataValid(t, f, false);
      HandleDataValid(t, f, true);
    }
  }

  // ------------------------------------------------------------ the carrier

  /**
   The listener between reads: its mux, how many payload bytes of a refused
   reserved-flag frame are still to be skipped, and the undecoded bytes.
   */
  datatype Ear = Ear(mux: Mux, skip: nat, staged: Bytes)

  datatype Heard = Heard(ear: Ear, out: Output, error: Option<HomeError>)

  function HeaderViolation(buf: Bytes): FrameViolation
    requires |buf| >= HEADER_LEN
  {
    FrameViolation(HeaderStream(buf), HeaderFlags(buf), HeaderLength(buf))
  }

  /**
   The frame grammar, read off a whole buffer: skip what is left of a refused
   payload, then take headers one after another. A reserved flag is refused at
   its header; anything else is handled once its payload is complete.
   */
  function Scan(mux: Mux, skip: nat, buf: Bytes, out: Output): Heard
    decreases |buf|
  {
    if skip > 0 then
      if |buf| <= skip then Heard(Ear(mux, skip - |buf|, []), out, None)
      else Scan(mux, 0, buf[skip..], out)
    else if |buf| < HEADER_LEN then Heard(Ear(mux, 0, buf), out, None)
    else if Reserved(HeaderFlags(buf)) then
      if HeaderStream(buf) == 0 then
        Heard(Ear(mux, HeaderLength(buf), []), out, Some(Refused(Refusal(Protocol, Some(HeaderViolation(buf))))))
      else
        var t := Refuse(Turn(mux, out), HeaderViolation(buf), Protocol);
        Scan(t.mux, HeaderLength(buf), buf[HEADER_LEN..], t.out)
    else match Parse(buf)
         case Got(frame, rest) =>
           (match Handle(Turn(mux, out), frame)
            case Err(e) => Heard(Ear(mux, 0, []), out, Some(e))
            case Ok(t) => Scan(t.mux, 0, rest, t.out))
         case _ => Heard(Ear(mux, 0, buf), out, None)
  }

  function Listen(ear: Ear, bytes: Bytes, out: Output): Heard {
    Scan(ear.mux, ear.skip, ear.staged + bytes, out)
  }

  /** The undecoded bytes between reads are a proper prefix of one frame. */
  predicate Settled(ear: Ear) {
    && (ear.skip > 0 ==> ear.staged == [])
    && (|ear.staged| >= HEADER_LEN ==>
          !Reserved(HeaderFlags(ear.staged)) && |ear.staged| < HEADER_LEN + HeaderLength(ear.staged))
  }

  lemma {:induction false} ScanSettles(mux: Mux, skip: nat, buf: Bytes, out: Output)
    requires mux.Valid()
    ensures var h := Scan(mux, skip, buf, out);
            && Settled(h.ear) && h.ear.mux.Valid() && h.ear.mux.limits == mux.limits
            && |h.ear.staged| < mux.limits.decoderBytes
    decreases |buf|
  {
    if skip > 0 {
      if |buf| > skip {
        ScanSettles(mux, 0, buf[skip..], out);
      }
    } else if |buf| >= HEADER_LEN {
      if Reserved(HeaderFlags(buf)) {
        if HeaderStream(buf) != 0 {
          var t := Refuse(Turn(mux, out), HeaderViolation(buf), Protocol);
          ScanSettles(t.mux, HeaderLength(buf), buf[HEADER_LEN..], t.out);
        }
      } else if Parse(buf).Got? {
        var frame, rest := Parse(buf).frame, Parse(buf).rest;
        var h := Handle(Turn(mux, out), frame);
        if h.Ok? {
          HandleStreamValid(Turn(mux, out), frame);
          ScanSettles(h.value.mux, 0, rest, h.value.out);
        }
      }
    }
  }

  /** With nothing new to read, nothing happens. */
  lemma SettledScan(mux: Mux, skip: nat, staged: Bytes, out: Output)
    requires Settled(Ear(mux, skip, staged))
    ensures Scan(mux, skip, staged, out) == Heard(Ear(mux, skip, staged), out, None)
  {
  }
}
