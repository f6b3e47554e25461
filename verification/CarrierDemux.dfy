/** The response assembler and the carrier demultiplexer as they run. */
module CarrierDemuxing {
  import opened Outcomes
  import opened Wire
  import opened Flow
  import opened Demux
  import C = Chunked

  /** Head, body and chunked-transfer state of one response, updated in place. */
  class HttpStreamAssembler {
    const parsers: Parsers
    var headBuf: Bytes
    var headEmitted: bool
    var chunked: bool
    const decoder: C.ChunkedDecoder
    var pendingWire: nat

    ghost function View(): Assembler
      reads this, decoder
    {
      Assembler(headBuf, headEmitted, chunked, decoder.View(), pendingWire)
    }

    ghost predicate Valid()
      reads this
    {
      decoder.sizeOf == parsers.sizeOf
    }

    constructor (parsers: Parsers)
      ensures Valid() && fresh(decoder) && View() == NEW_ASSEMBLER
    {
      this.parsers := parsers;
      headBuf, headEmitted, chunked, pendingWire := [], false, false, 0;
      decoder := new C.ChunkedDecoder(parsers.sizeOf);
    }

    /** One DATA payload. After an error the stream is dropped by the caller. */
    method Feed(payload: Bytes) returns (r: Result<(seq<StreamEvent>, nat), AssemblyError>)
      requires Valid()
      modifies this, decoder
      ensures Valid()
      ensures var f := FeedData(parsers, old(View()), payload);
              if f.Ok? then r == Ok((f.value.events, f.value.autoConsumed)) && View() == f.value.next
              else r == Err(f.error)
    {
      hide C.Find, C.Push;
      if headEmitted {
        var fed := FeedBodyBytes(payload);
        if fed.Err? {
          return Err(fed.error);
        }
        return Ok((fed.value, 0));
      }
      var previousLen := |headBuf|;
      headBuf := headBuf + payload;
      var split := C.Find(headBuf, HEAD_END);
      if split.None? {
        if |headBuf| > MAX_ASSEMBLED_BYTES {
          return Err(CapExceeded);
        }
        return Ok(([], |payload|));
      }
      C.FindStable(headBuf, HEAD_END, []);
      var head := parsers.headOf(headBuf[..split.value]);
      if head.None? {
        return Err(BadHttp);
      }
      chunked := parsers.isChunked(head.value);
      headEmitted := true;
      var bodyStart := split.value + 4;
      var auto := Least(Monus(bodyStart, previousLen), |payload|);
      var body := headBuf[bodyStart..];
      headBuf := [];
      var fed := FeedBodyBytes(body);
      if fed.Err? {
        return Err(fed.error);
      }
      return Ok(([StreamEvent(HeadItem(head.value), 0)] + fed.value, auto));
    }

    method FeedBodyBytes(payload: Bytes) returns (r: Result<seq<StreamEvent>, AssemblyError>)
      requires Valid()
      modifies this, decoder
      ensures Valid()
      ensures var f := FeedBody(parsers, old(View()), payload);
              if f.Ok? then r == Ok(f.value.1) && View() == f.value.0 else r == Err(f.error)
    {
      if payload == [] {
        return Ok([]);
      }
      pendingWire := pendingWire + |payload|;
      var body := Some(payload);
      if chunked {
        body := decoder.PushBytes(payload);
      }
      if body.None? {
        return Err(BadHttp);
      }
      if body.value == [] {
        return Ok([]);
      }
      var cost := pendingWire;
      pendingWire := 0;
      return Ok([StreamEvent(BodyItem(body.value), cost)]);
    }
  }

  /** Central demux state for a persistent carrier. */
  class CarrierDemux {
    const parsers: Parsers
    const decoder: FrameDecoder
    var streams: Streams
    var fatal: Option<FrameViolation>

    ghost function View(): Carrier
      reads this, decoder
    {
      Carrier(decoder.buf, streams, fatal)
    }

    constructor (parsers: Parsers)
      ensures fresh(decoder) && View() == Carrier([], map[], None)
    {
      this.parsers := parsers;
      decoder := new FrameDecoder();
      streams, fatal := map[], None;
    }

    method OpenStream(id: U32)
      modifies this`streams
      ensures streams == old(streams)[id := NEW_STREAM]
    {
      streams := streams[id := NEW_STREAM];
    }

    method RemoveStream(id: U32)
      modifies this`streams
      ensures streams == old(streams) - {id}
    {
      streams := streams - {id};
    }

    /** Over-consuming would panic; see the run invariant for why it cannot happen. */
    method ConsumeBytes(id: U32, bytes: nat) returns (frame: Option<Frame>)
      requires id in streams ==> streams[id].Valid() && bytes <= streams[id].window.Outstanding()
      modifies this`streams
      ensures (streams, frame) == Consume(old(streams), id, bytes)
    {
      if id !in streams {
        return None;
      }
      var (window, grant) := streams[id].window.Consume(bytes);
      streams := streams[id := streams[id].(window := window)];
      if grant.None? {
        return None;
      }
      return Some(WindowFrame(id, grant.value));
    }

    method FeedBytes(data: Bytes) returns (r: Result<Output, DemuxError>)
      requires StreamsValid(streams)
      modifies this, decoder
      ensures (View(), r) == Feed(parsers, old(View()), data)
      ensures StreamsValid(streams)
    {
      hide Drain, Route, RouteControl;
      if fatal.Some? {
        return Err(Protocol(fatal.value));
      }
      decoder.Feed(data);
      var drained := decoder.DrainAll();
      if drained.Err? {
        return Err(FrameFailure(drained.error));
      }
      var frames := drained.value;
      var out := NO_OUTPUT;
      var i := 0;
      ghost var start := Turn(streams, NO_OUTPUT);
      assert frames[0..] == frames;
      while i < |frames|
        invariant 0 <= i <= |frames|
        invariant StreamsValid(streams) && fatal.None?
        invariant decoder.buf == Drain(old(decoder.buf) + data).rest
        invariant RouteAll(parsers, start, frames) == RouteAll(parsers, Turn(streams, out), frames[i..])
      {
        assert frames[i..][0] == frames[i] && frames[i..][1..] == frames[i + 1..];
        var frame := frames[i];
        if frame.streamId == 0 {
          var t := RouteControl(Turn(streams, out), frame);
          if t.None? {
            fatal := Some(frame.Violation());
            return Err(Protocol(frame.Violation()));
          }
          ControlKeepsStreams(Turn(streams, out), frame);
          out := t.value.out;
        } else {
          RouteValid(parsers, Turn(streams, out), frame);
          out := Dispatch(frame, out);
        }
        i := i + 1;
      }
      return Ok(out);
    }

    /** One frame of a nonzero stream, dispatched on its flags. */
    method Dispatch(frame: Frame, output: Output) returns (out: Output)
      requires StreamsValid(streams)
      modifies this`streams
      ensures Turn(streams, out) == Route(parsers, Turn(old(streams), output), frame)
    {
      hide FeedData, Assembler.Valid, RouteData, Reject, Finish;
      var id := frame.streamId;
      if !FlagsValid(frame.flags) {
        out := RejectFrame(frame, output);
        return;
      }
      if Opens(frame.flags) {
        out := RejectFrame(frame, output);
        return;
      }
      if frame.flags == FLAG_PING || frame.flags == FLAG_PONG {
        out := RejectFrame(frame, output);
        return;
      }
      if id !in streams {
        if CarriesData(frame.flags) || frame.flags == FLAG_WINDOW {
          out := RejectFrame(frame, output);
          return;
        }
        return output;
      }
      if frame.flags == FLAG_RESET {
        out := FinishStream(id, ByReset(ReasonOf(frame.payload)), output);
        return;
      }
      if frame.flags == FLAG_CLOSE {
        out := FinishStream(id, ByClose, output);
        return;
      }
      if frame.flags == FLAG_DATA || frame.flags == FLAG_DATA + FLAG_CLOSE {
        out := DispatchData(frame, output);
        return;
      }
      var credit := frame.WindowCredit();
      if credit.None? {
        out := RejectFrame(frame, output);
        return;
      }
      out := output.(grants := output.grants + [(id, credit.value)]);
    }

    method DispatchData(frame: Frame, output: Output) returns (out: Output)
      requires frame.streamId in streams && streams[frame.streamId].Valid()
      modifies this`streams
      ensures Turn(streams, out) == RouteData(parsers, Turn(old(streams), output), frame)
    {
      hide FeedData, Assembler.Valid, WithoutWindows, Finish, Tag, Closes;
      var id := frame.streamId;
      if !streams[id].window.Admits(|frame.payload|) {
        out := FinishStream(id, ByReset(FlowControlError), output);
        out := out.(emits := out.emits + [ResetFrame(id, RESET_FLOW_CONTROL_ERROR)]);
        return;
      }
      var debited := streams[id].window.Debit(|frame.payload|);
      var assembled := FeedData(parsers, streams[id].assembler, frame.payload);
      if assembled.Err? {
        out := FinishStream(id, ByReset(Unspecified), output);
        return;
      }
      FeedDataAccounts(parsers, streams[id].assembler, frame.payload);
      var (window, grant) := debited.Consume(assembled.value.autoConsumed);
      streams := streams[id := CarrierStream(assembled.value.next, window)];
      out := output;
      if grant.Some? {
        out := out.(emits := out.emits + [WindowFrame(id, grant.value)]);
      } else {
        assert out.emits + [] == out.emits;
      }
      out := out.(events := out.events + Tag(id, assembled.value.events));
      if Closes(frame.flags) {
        out := FinishStream(id, ByClose, out);
      }
    }

    method FinishStream(id: U32, end: StreamEnd, output: Output) returns (out: Output)
      modifies this`streams
      ensures Turn(streams, out) == Finish(Turn(old(streams), output), id, end)
    {
      var emits := RemoveEmittedWindows(output.emits, id);
      out := output.(emits := emits, events := output.events + [(id, StreamEvent(EndItem(end), 0))]);
      streams := streams - {id};
    }

    method RejectFrame(frame: Frame, output: Output) returns (out: Output)
      modifies this`streams
      ensures Turn(streams, out) == Reject(Turn(old(streams), output), frame)
    {
      var id := frame.streamId;
      var known := id in streams;
      out := output;
      if known {
        var emits := RemoveEmittedWindows(out.emits, id);
        out := out.(emits := emits);
      }
      out := out.(emits := out.emits + [ResetFrame(id, RESET_PROTOCOL_ERROR)]);
      if known {
        out := out.(events := out.events + [(id, StreamEvent(EndItem(ByReset(ProtocolError)), 0))]);
        streams := streams - {id};
      } else {
        assert streams - {id} == streams;
        assert out.events + [] == out.events;
      }
      out := out.(violations := out.violations + [frame.Violation()]);
    }
  }

  lemma ControlKeepsStreams(t: Turn, f: Frame)
    ensures RouteControl(t, f).Some? ==> RouteControl(t, f).value.streams == t.streams
  {
  }

  lemma WithoutWindowsAt(frames: seq<Frame>, i: nat, id: U32)
    requires i < |frames|
    ensures WithoutWindows(frames[i..], id)
            == (if frames[i].streamId != id || !Grants(frames[i].flags) then [frames[i]] else [])
               + WithoutWindows(frames[i + 1..], id)
  {
    assert frames[i..][1..] == frames[i + 1..];
  }

  lemma WithoutWindowsNone(frames: seq<Frame>, id: U32)
    ensures frames[0..] == frames && WithoutWindows(frames[|frames|..], id) == []
  {
  }

  /** Retain, over the queued frames, all but the WINDOWs of one stream. */
  method RemoveEmittedWindows(frames: seq<Frame>, id: U32) returns (kept: seq<Frame>)
    ensures kept == WithoutWindows(frames, id)
  {
    hide WithoutWindows;
    kept := [];
    var i := 0;
    WithoutWindowsNone(frames, id);
    while i < |frames|
      invariant 0 <= i <= |frames|
      invariant WithoutWindows(frames, id) == kept + WithoutWindows(frames[i..], id)
    {
      WithoutWindowsAt(frames, i, id);
      if frames[i].streamId != id || !Grants(frames[i].flags) {
        kept := kept + [frames[i]];
      }
      i := i + 1;
    }
  }
}
