/**
 The listener-side mux state machine as it runs: carrier bytes arrive one at a
 time, headers are staged until complete, refused payloads are skipped, and
 complete frames are handled. `Feed` is proved against the whole-buffer frame
 grammar `Listener.Scan`; every other method against the matching function.
 */
module Acceptor {
  import opened Outcomes
  import opened Wire
  import opened Flow
  import L = Listener

  type MuxOutput = L.Output

  class MuxAcceptor {
    const limits: L.Limits
    const decoder: FrameDecoder
    var decoderBuffered: nat
    var headerBuffer: Bytes
    var payloadRemaining: Option<nat>
    var discardedRemaining: Option<nat>
    var peerHighWater: Option<U32>
    var streams: map<U32, L.Stream>
    var refusals: L.Counts

    ghost function Mux(): L.Mux
      reads this
    {
      L.Mux(limits, peerHighWater, streams, refusals)
    }

    ghost function Skip(): nat
      reads this
    {
      if discardedRemaining.Some? then discardedRemaining.value else 0
    }

    ghost function Staged(): Bytes
      reads this, decoder
    {
      decoder.buf + headerBuffer
    }

    ghost function Ear(): L.Ear
      reads this, decoder
    {
      L.Ear(Mux(), Skip(), Staged())
    }

    /**
     At most one of the header buffer, the decoder and the skip counter is in
     use, and the buffered count is exactly what the two buffers hold.
     */
    ghost predicate Valid()
      reads this, decoder
    {
      && Mux().Valid()
      && decoderBuffered == |headerBuffer| + |decoder.buf|
      && |headerBuffer| < HEADER_LEN
      && (discardedRemaining.Some? ==> discardedRemaining.value > 0 && headerBuffer == [] && payloadRemaining.None?)
      && (match payloadRemaining
          case None => decoder.buf == []
          case Some(n) =>
            && n > 0 && headerBuffer == []
            && |decoder.buf| >= HEADER_LEN
            && !Reserved(HeaderFlags(decoder.buf))
            && |decoder.buf| + n == HEADER_LEN + HeaderLength(decoder.buf))
    }

    /** Limits are validated by the caller of the constructor. */
    constructor (limits: L.Limits)
      requires limits.Valid()
      ensures Valid() && fresh(decoder)
      ensures Ear() == L.Ear(L.NewMux(limits), 0, [])
    {
      this.limits := limits;
      decoder := new FrameDecoder();
      decoderBuffered := 0;
      headerBuffer := [];
      payloadRemaining := None;
      discardedRemaining := None;
      peerHighWater := None;
      streams := map[];
      refusals := L.Counts(0, 0, 0, 0);
    }

    // -------------------------------------------------------- carrier input

    /**
     Feed carrier bytes and process every complete frame. The only failures are
     stream-zero violations: the decoder ceiling, the internal accounting
     refusals and the inner decoder's reserved-flag error never occur.
     */
    method Feed(bytes: Bytes) returns (r: Result<MuxOutput, L.HomeError>)
      requires Valid()
      modifies this, decoder
      ensures Valid()
      ensures var h := L.Listen(old(Ear()), bytes, L.NO_OUTPUT);
              && Ear() == h.ear
              && r == match h.error case None => Ok(h.out) case Some(e) => Err(e)
      ensures r.Err? ==> IsStreamZeroRefusal(r.error)
    {
      hide L.Scan;
      var output := L.NO_OUTPUT;
      var i := 0;
      assert bytes[0..] == bytes;
      while i < |bytes|
        invariant 0 <= i <= |bytes|
        invariant Valid()
        invariant L.Listen(old(Ear()), bytes, L.NO_OUTPUT)
               == L.Scan(Mux(), Skip(), Staged() + bytes[i..], output)
      {
        ghost var rest := bytes[i + 1..];
        assert bytes[i..] == [bytes[i]] + rest;
        var error;
        error, output := FeedByte(bytes[i], rest, output);
        i := i + 1;
        if error.Some? {
          return Err(error.value);
        }
      }
      assert Staged() + bytes[i..] == Staged();
      L.SettledScan(Mux(), Skip(), Staged(), output);
      return Ok(output);
    }

    /** One iteration of the byte loop; `rest` is what this read still holds. */
    method FeedByte(byte: Byte, ghost rest: Bytes, output: MuxOutput)
      returns (error: Option<L.HomeError>, out: MuxOutput)
      requires Valid()
      modifies this, decoder
      ensures Valid()
      ensures var before := L.Scan(old(Mux()), old(Skip()), old(Staged()) + ([byte] + rest), output);
              match error
              case None => before == L.Scan(Mux(), Skip(), Staged() + rest, out)
              case Some(e) => before == L.Heard(Ear(), out, Some(e)) && IsStreamZeroRefusal(e)
    {
      if discardedRemaining.Some? {
        var remaining := discardedRemaining.value;
        discardedRemaining := if remaining > 1 then Some(remaining - 1) else None;
        SkipOne(Mux(), remaining, byte, rest, output);
        assert [] + rest == rest && [] + ([byte] + rest) == [byte] + rest;
        return None, output;
      }
      if decoderBuffered >= limits.decoderBytes {
        assert false;
      }
      decoderBuffered := decoderBuffered + 1;
      if payloadRemaining.None? {
        error, out := FeedHeaderByte(byte, rest, output);
      } else {
        error, out := FeedPayloadByte(byte, rest, output);
      }
    }

    /** A byte of a header; a complete header is refused or handed to the decoder. */
    method FeedHeaderByte(byte: Byte, ghost rest: Bytes, output: MuxOutput)
      returns (error: Option<L.HomeError>, out: MuxOutput)
      requires Mux().Valid() && discardedRemaining.None? && payloadRemaining.None? && decoder.buf == []
      requires |headerBuffer| < HEADER_LEN && decoderBuffered == |headerBuffer| + 1
      modifies this, decoder
      ensures Valid()
      ensures var before := L.Scan(old(Mux()), 0, old(Staged()) + ([byte] + rest), output);
              match error
              case None => before == L.Scan(Mux(), Skip(), Staged() + rest, out)
              case Some(e) => before == L.Heard(Ear(), out, Some(e)) && IsStreamZeroRefusal(e)
    {
      hide L.Refuse, L.Handle;
      headerBuffer := headerBuffer + [byte];
      assert old(Staged()) + ([byte] + rest) == headerBuffer + rest;
      if |headerBuffer| != HEADER_LEN {
        assert decoder.buf + headerBuffer == headerBuffer;
        return None, output;
      }
      ghost var header := headerBuffer;
      var streamId := FromBe32(headerBuffer[..4]);
      var flags := headerBuffer[4];
      var length := headerBuffer[5] as int * 0x1_0000 + headerBuffer[6] as int * 0x100 + headerBuffer[7];
      HeaderOfPrefix(header, rest);
      if Reserved(flags) {
        var violation := FrameViolation(streamId, flags, length);
        headerBuffer := [];
        decoderBuffered := decoderBuffered - HEADER_LEN;
        discardedRemaining := if length > 0 then Some(length) else None;
        assert (header + rest)[HEADER_LEN..] == rest;
        assert Staged() == [] && [] + rest == rest;
        if streamId == 0 {
          return Some(L.Refused(L.Refusal(L.Protocol, Some(violation)))), output;
        }
        out := RefuseViolation(violation, L.Protocol, output);
        return None, out;
      }
      decoder.Feed(headerBuffer);
      headerBuffer := [];
      payloadRemaining := if length > 0 then Some(length) else None;
      assert decoder.buf == header;
      error, out := DrainDecoder(rest, output);
    }

    /** A byte of a payload the decoder is waiting for. */
    method FeedPayloadByte(byte: Byte, ghost rest: Bytes, output: MuxOutput)
      returns (error: Option<L.HomeError>, out: MuxOutput)
      requires Mux().Valid() && discardedRemaining.None? && headerBuffer == []
      requires payloadRemaining.Some? && payloadRemaining.value > 0
      requires |decoder.buf| >= HEADER_LEN && !Reserved(HeaderFlags(decoder.buf))
      requires |decoder.buf| + payloadRemaining.value == HEADER_LEN + HeaderLength(decoder.buf)
      requires decoderBuffered == |decoder.buf| + 1
      modifies this, decoder
      ensures Valid()
      ensures var before := L.Scan(old(Mux()), 0, old(Staged()) + ([byte] + rest), output);
              match error
              case None => before == L.Scan(Mux(), Skip(), Staged() + rest, out)
              case Some(e) => before == L.Heard(Ear(), out, Some(e)) && IsStreamZeroRefusal(e)
    {
      ghost var before := decoder.buf;
      HeaderOfPrefix(before, [byte]);
      decoder.Feed([byte]);
      var remaining := payloadRemaining.value;
      payloadRemaining := if remaining > 1 then Some(remaining - 1) else None;
      assert old(Staged()) + ([byte] + rest) == decoder.buf + rest;
      error, out := DrainDecoder(rest, output);
    }

    /**
     Handle every frame the decoder completes. It holds one header and at most
     its payload, so there is at most one.
     */
    method DrainDecoder(ghost rest: Bytes, output: MuxOutput)
      returns (error: Option<L.HomeError>, out: MuxOutput)
      requires Mux().Valid() && discardedRemaining.None? && headerBuffer == []
      requires |decoder.buf| >= HEADER_LEN && !Reserved(HeaderFlags(decoder.buf))
      requires decoderBuffered == |decoder.buf|
      requires |decoder.buf| + (if payloadRemaining.Some? then payloadRemaining.value else 0)
            == HEADER_LEN + HeaderLength(decoder.buf)
      requires payloadRemaining.Some? ==> payloadRemaining.value > 0
      modifies this, decoder
      ensures Valid()
      ensures var before := L.Scan(old(Mux()), 0, old(decoder.buf) + rest, output);
              match error
              case None => before == L.Scan(Mux(), Skip(), Staged() + rest, out)
              case Some(e) => before == L.Heard(Ear(), out, Some(e)) && IsStreamZeroRefusal(e)
    {
      hide L.Handle, L.Scan, Parse, HeaderFlags, HeaderLength, Reserved;
      out := output;
      ghost var held := decoder.buf;
      ghost var mux := Mux();
      if payloadRemaining.None? {
        CompleteFrame(held, rest);
        ScanFrame(mux, held, rest, out);
      } else {
        PartialFrame(held);
      }
      NoFrame();
      var first := true;
      while true
        invariant headerBuffer == [] && discardedRemaining.None?
        invariant Mux().Valid()
        invariant decoderBuffered == |decoder.buf|
        invariant first ==>
                    decoder.buf == held && payloadRemaining == old(payloadRemaining) && Mux() == mux && out == output
        invariant !first ==>
                    && decoder.buf == [] && payloadRemaining.None?
                    && L.Scan(mux, 0, held + rest, output) == L.Scan(Mux(), 0, rest, out)
        decreases |decoder.buf|
      {
        var next := decoder.NextFrame();
        if next.Err? {
          assert false;
        }
        if next.value.None? {
          assert Staged() == if first then held else [];
          assert [] + rest == rest;
          return None, out;
        }
        var frame := next.value.value;
        if decoderBuffered < HEADER_LEN + |frame.payload| {
          assert false;
        }
        decoderBuffered := decoderBuffered - (HEADER_LEN + |frame.payload|);
        var refused;
        refused, out := HandleFrame(frame, out);
        first := false;
        if refused.Some? {
          return refused, out;
        }
      }
    }

    // -------------------------------------------------------- peer frames

    method HandleFrame(frame: Frame, output: MuxOutput) returns (error: Option<L.HomeError>, out: MuxOutput)
      requires Mux().Valid()
      modifies this`streams, this`peerHighWater, this`refusals
      ensures Mux().Valid()
      ensures var h := L.Handle(L.Turn(old(Mux()), output), frame);
              if h.Ok? then error == None && L.Turn(Mux(), out) == h.value
              else error == Some(h.error) && Mux() == old(Mux()) && out == output && IsStreamZeroRefusal(h.error)
    {
      hide L.Refuse, L.HandleOpen, L.HandleData, L.HandleReset, L.HandleWindow, L.MarkPeerClosed, L.HandleControl;
      if frame.streamId == 0 {
        error, out := HandleControl(frame, output);
        return;
      }
      L.HandleStreamValid(L.Turn(Mux(), output), frame);
      error := None;
      if !FlagsValid(frame.flags) {
        out := Refuse(frame, L.Protocol, output);
        return;
      }
      if Pings(frame.flags) || Pongs(frame.flags) {
        out := Refuse(frame, L.Protocol, output);
        return;
      }
      if Opens(frame.flags) {
        out := HandleOpen(frame, output);
        return;
      }
      var known := frame.streamId in streams;
      if !known && (Closes(frame.flags) || Resets(frame.flags)) {
        out := output;
        return;
      }
      if !known {
        out := Refuse(frame, L.Protocol, output);
        return;
      }
      if frame.flags == FLAG_DATA + FLAG_CLOSE {
        out := HandleData(frame, true, output);
      } else if frame.flags == FLAG_DATA {
        out := HandleData(frame, false, output);
      } else if frame.flags == FLAG_CLOSE {
        out := HandleClose(frame, output);
      } else if frame.flags == FLAG_RESET {
        out := HandleReset(frame, output);
      } else {
        out := HandleWindow(frame, output);
      }
    }

    method HandleControl(frame: Frame, output: MuxOutput) returns (error: Option<L.HomeError>, out: MuxOutput)
      requires frame.streamId == 0
      ensures var h := L.HandleControl(L.Turn(Mux(), output), frame);
              if h.Ok? then error == None && L.Turn(Mux(), out) == h.value
              else error == Some(h.error) && out == output && IsStreamZeroRefusal(h.error)
    {
      if frame.flags == FLAG_PING && |frame.payload| == CONTROL_NONCE_LEN {
        var pong := frame.ControlPong();
        if pong.Some? {
          return None, output.(frames := output.frames + [pong.value]);
        }
      }
      if frame.flags == FLAG_PONG && |frame.payload| == CONTROL_NONCE_LEN {
        return None, output;
      }
      return Some(L.Refused(L.Refusal(L.Protocol, Some(frame.Violation())))), output;
    }

    method HandleOpen(frame: Frame, output: MuxOutput) returns (out: MuxOutput)
      modifies this`streams, this`peerHighWater, this`refusals
      ensures L.Turn(Mux(), out) == L.HandleOpen(L.Turn(old(Mux()), output), frame)
    {
      var id := frame.streamId;
      var validId := id % 2 == 1 && (peerHighWater.None? || id > peerHighWater.value);
      if !validId {
        out := Refuse(frame, L.Protocol, output);
        return;
      }
      // The id counts as used even when a local policy refuses the stream.
      peerHighWater := Some(id);
      if |streams| >= limits.maxStreams {
        out := Refuse(frame, L.StreamLimit, output);
        return;
      }
      if |frame.payload| > INITIAL_WINDOW {
        out := Refuse(frame, L.FlowControl, output);
        return;
      }
      streams := streams[id := L.Stream(NEW_WINDOW.Debit(|frame.payload|), |frame.payload|, INITIAL_WINDOW, false,
                                        false)];
      out := output.(events := output.events + [L.Opened(id)]);
      if frame.payload != [] || CarriesData(frame.flags) {
        out := out.(events := out.events + [L.Data(id, frame.payload)]);
        assert out.events == output.events + ([L.Opened(id)] + [L.Data(id, frame.payload)]);
      } else {
        assert out.events == output.events + ([L.Opened(id)] + []);
      }
      if Closes(frame.flags) {
        out := MarkPeerClosed(id, out);
      }
    }

    method HandleData(frame: Frame, closes: bool, output: MuxOutput) returns (out: MuxOutput)
      requires frame.streamId in streams
      modifies this`streams, this`refusals
      ensures L.Turn(Mux(), out) == L.HandleData(L.Turn(old(Mux()), output), frame, closes)
    {
      var id := frame.streamId;
      if streams[id].peerClosed {
        out := Refuse(frame, L.Protocol, output);
        return;
      }
      if !streams[id].window.Admits(|frame.payload|) {
        out := Refuse(frame, L.FlowControl, output);
        return;
      }
      var stream := streams[id];
      stream := stream.(window := stream.window.Debit(|frame.payload|));
      stream := stream.(debited := stream.debited + |frame.payload|);
      streams := streams[id := stream];
      out := output.(events := output.events + [L.Data(id, frame.payload)]);
      if closes {
        out := MarkPeerClosed(id, out);
      }
    }

    /** A CLOSE may carry a last contribution of bytes. */
    method HandleClose(frame: Frame, output: MuxOutput) returns (out: MuxOutput)
      requires frame.streamId in streams
      modifies this`streams, this`refusals
      ensures L.Turn(Mux(), out) ==
              var t := L.Turn(old(Mux()), output);
              if frame.payload != [] then L.HandleData(t, frame, true) else L.MarkPeerClosed(t, frame.streamId)
    {
      if frame.payload != [] {
        out := HandleData(frame, true, output);
        return;
      }
      out := MarkPeerClosed(frame.streamId, output);
    }

    method HandleReset(frame: Frame, output: MuxOutput) returns (out: MuxOutput)
      modifies this`streams, this`refusals
      ensures L.Turn(Mux(), out) == L.HandleReset(L.Turn(old(Mux()), output), frame)
    {
      if |frame.payload| != 1 {
        out := Refuse(frame, L.Protocol, output);
        return;
      }
      var reason := L.ReasonFromWire(frame.payload[0]);
      streams := streams - {frame.streamId};
      out := output.(events := output.events + [L.WasReset(frame.streamId, reason)]);
    }

    method HandleWindow(frame: Frame, output: MuxOutput) returns (out: MuxOutput)
      requires frame.streamId in streams
      modifies this`streams, this`refusals
      ensures L.Turn(Mux(), out) == L.HandleWindow(L.Turn(old(Mux()), output), frame)
    {
      var credit := frame.WindowCredit();
      if credit.None? {
        out := Refuse(frame, L.Protocol, output);
        return;
      }
      var stream := streams[frame.streamId];
      var next := stream.sendCredit + credit.value;
      if next > MAX_SEND_CREDIT {
        out := Refuse(frame, L.FlowControl, output);
        return;
      }
      streams := streams[frame.streamId := stream.(sendCredit := next)];
      out := output.(writable := output.writable + [frame.streamId]);
    }

    method MarkPeerClosed(id: U32, output: MuxOutput) returns (out: MuxOutput)
      modifies this`streams
      ensures L.Turn(Mux(), out) == L.MarkPeerClosed(L.Turn(old(Mux()), output), id)
    {
      if id !in streams {
        return output;
      }
      streams := streams[id := streams[id].(peerClosed := true)];
      var localClosed := streams[id].localClosed;
      out := output.(events := output.events + [L.ReadClosed(id)]);
      if localClosed {
        streams := streams - {id};
        assert streams == old(streams) - {id};
      }
    }

    method Refuse(frame: Frame, kind: L.Class, output: MuxOutput) returns (out: MuxOutput)
      modifies this`streams, this`refusals
      ensures L.Turn(Mux(), out) == L.Refuse(L.Turn(old(Mux()), output), frame.Violation(), kind)
    {
      out := RefuseViolation(frame.Violation(), kind, output);
    }

    method RefuseViolation(violation: FrameViolation, kind: L.Class, output: MuxOutput) returns (out: MuxOutput)
      modifies this`streams, this`refusals
      ensures L.Turn(Mux(), out) == L.Refuse(L.Turn(old(Mux()), output), violation, kind)
      ensures old(Mux()).Valid() ==> Mux().Valid()
    {
      refusals := refusals.Record(kind);
      out := output.(frames := output.frames + [ResetFrame(violation.streamId, L.Code(L.ReasonOf(kind)))],
                     refusals := output.refusals + [L.Refusal(kind, Some(violation))]);
      if violation.streamId in streams {
        streams := streams - {violation.streamId};
        out := out.(events := out.events + [L.WasReset(violation.streamId, L.ReasonOf(kind))]);
      } else {
        assert streams == streams - {violation.streamId};
      }
    }

    // -------------------------------------------------------- local calls

    /** An over-consuming caller is refused before the window could panic. */
    method Consume(id: U32, bytes: nat) returns (r: Result<MuxOutput, L.HomeError>)
      requires Valid()
      modifies this`streams
      ensures Valid()
      ensures match L.Consume(old(Mux()), id, bytes)
              case Ok((mux, frames)) => Mux() == mux && r == Ok(L.NO_OUTPUT.(frames := frames))
              case Err(e) => Mux() == old(Mux()) && r == Err(e)
    {
      if id !in streams {
        return Err(L.Closed);
      }
      var stream := streams[id];
      if bytes > stream.debited {
        return Err(L.Refused(L.Refusal(L.Internal, None)));
      }
      var (window, grant) := stream.window.Consume(bytes);
      stream := stream.(window := window, debited := stream.debited - bytes);
      streams := streams[id := stream];
      var output := L.NO_OUTPUT;
      if grant.Some? {
        output := output.(frames := [WindowFrame(id, grant.value)]);
      }
      return Ok(output);
    }

    /** One DATA frame, whole or not at all. */
    method TrySendData(id: U32, bytes: Bytes) returns (r: Result<Option<MuxOutput>, L.HomeError>)
      requires Valid()
      modifies this`streams
      ensures Valid()
      ensures match L.TrySend(old(Mux()), id, bytes)
              case Ok((mux, None)) => Mux() == mux && r == Ok(None)
              case Ok((mux, Some(frame))) => Mux() == mux && r == Ok(Some(L.NO_OUTPUT.(frames := [frame])))
              case Err(e) => Mux() == old(Mux()) && r == Err(e)
    {
      if |bytes| > RECOMMENDED_CHUNK {
        return Err(L.Refused(L.Refusal(L.Internal, None)));
      }
      if id !in streams || streams[id].localClosed {
        return Err(L.Closed);
      }
      var stream := streams[id];
      if |bytes| > stream.sendCredit {
        return Ok(None);
      }
      streams := streams[id := stream.(sendCredit := stream.sendCredit - |bytes|)];
      return Ok(Some(L.NO_OUTPUT.(frames := [Frame(id, FLAG_DATA, bytes)])));
    }

    method CloseWrite(id: U32) returns (r: Result<MuxOutput, L.HomeError>)
      requires Valid()
      modifies this`streams
      ensures Valid()
      ensures match L.CloseWrite(old(Mux()), id)
              case Ok((mux, frame)) => Mux() == mux && r == Ok(L.NO_OUTPUT.(frames := [frame]))
              case Err(e) => Mux() == old(Mux()) && r == Err(e)
    {
      if id !in streams || streams[id].localClosed {
        return Err(L.Closed);
      }
      var peerClosed := streams[id].peerClosed;
      streams := streams[id := streams[id].(localClosed := true)];
      if peerClosed {
        streams := streams - {id};
        assert streams == old(streams) - {id};
      }
      return Ok(L.NO_OUTPUT.(frames := [Frame(id, FLAG_CLOSE, [])]));
    }

    method ResetStream(id: U32, reason: L.ResetReason) returns (r: Result<MuxOutput, L.HomeError>)
      requires Valid()
      modifies this`streams
      ensures Valid()
      ensures match L.Reset(old(Mux()), id, reason)
              case Ok((mux, frame)) => Mux() == mux && r == Ok(L.NO_OUTPUT.(frames := [frame]))
              case Err(e) => Mux() == old(Mux()) && r == Err(e)
    {
      if id !in streams {
        return Err(L.Closed);
      }
      streams := streams - {id};
      return Ok(L.NO_OUTPUT.(frames := [ResetFrame(id, L.Code(reason))]));
    }
  }

  predicate IsStreamZeroRefusal(e: L.HomeError) {
    e.Refused? && e.refusal.kind == L.Protocol && e.refusal.violation.Some? && e.refusal.violation.value.streamId == 0
  }

  // ---------------------------------------------------------------- grammar

  lemma HeaderOfPrefix(buf: Bytes, more: Bytes)
    requires |buf| >= HEADER_LEN
    ensures HeaderStream(buf + more) == HeaderStream(buf)
    ensures HeaderFlags(buf + more) == HeaderFlags(buf)
    ensures HeaderLength(buf + more) == HeaderLength(buf)
  {
    assert (buf + more)[..4] == buf[..4];
    assert (buf + more)[5..8] == buf[5..8];
  }

  /** A buffer holding exactly one frame parses to it, whatever follows. */
  lemma CompleteFrame(buf: Bytes, rest: Bytes)
    requires |buf| >= HEADER_LEN && !Reserved(HeaderFlags(buf)) && |buf| == HEADER_LEN + HeaderLength(buf)
    ensures Parse(buf).Got? && Parse(buf).rest == [] && |Parse(buf).frame.payload| == HeaderLength(buf)
    ensures Parse(buf + rest) == Got(Parse(buf).frame, rest)
    ensures HeaderFlags(buf + rest) == HeaderFlags(buf)
  {
    ParseStable(buf, rest);
    HeaderOfPrefix(buf, rest);
    assert [] + rest == rest;
  }

  lemma PartialFrame(buf: Bytes)
    requires |buf| >= HEADER_LEN && !Reserved(HeaderFlags(buf)) && |buf| < HEADER_LEN + HeaderLength(buf)
    ensures Parse(buf) == NeedMore
  {
  }

  lemma NoFrame()
    ensures Parse([]) == NeedMore
  {
  }

  lemma ScanFrame(mux: L.Mux, buf: Bytes, rest: Bytes, out: MuxOutput)
    requires |buf| >= HEADER_LEN && !Reserved(HeaderFlags(buf)) && Parse(buf).Got?
    requires Parse(buf + rest) == Got(Parse(buf).frame, rest)
    requires HeaderFlags(buf + rest) == HeaderFlags(buf)
    ensures L.Scan(mux, 0, buf + rest, out) ==
            var h := L.Handle(L.Turn(mux, out), Parse(buf).frame);
            if h.Err? then L.Heard(L.Ear(mux, 0, []), out, Some(h.error))
            else L.Scan(h.value.mux, 0, rest, h.value.out)
  {
    hide Parse, HeaderFlags, Reserved, L.Handle;
  }

  lemma SkipOne(mux: L.Mux, skip: nat, byte: Byte, rest: Bytes, out: MuxOutput)
    requires skip > 0
    ensures L.Scan(mux, skip, [byte] + rest, out) == L.Scan(mux, skip - 1, rest, out)
  {
    var buf := [byte] + rest;
    if |buf| > skip {
      assert buf[skip..] == rest[skip - 1..];
      if skip == 1 {
        assert rest[0..] == rest;
      }
    } else if skip == 1 {
      assert rest == [];
    }
  }
}
