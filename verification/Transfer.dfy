/**
 A whole upload, end to end: a `WindowedUpload` on one side of a byte carrier, a
 listener on the other, the carrier cut into reads at any byte, and WINDOW
 frames travelling back. Body feeding, polling, reads, consumption, replies and
 grants interleave arbitrarily.
 */
module Transfer {
  import opened Outcomes
  import opened Wire
  import opened Flow
  import opened Upload
  import L = Listener
  import G = ListenerGrammar

  /**
   `back` of the listener's output log is what the dialer has not yet read, so
   the log from `taken` on is the return channel. `body` is every body byte fed
   so far; `refused` is set by any refusal on either side.
   */
  datatype Session = Session(
    up: Sender, wire: Bytes, ear: L.Ear, log: L.Output, taken: nat, body: Bytes, refused: bool)
  {
    function Id(): U32 { up.streamId }
  }

  datatype Step =
    | Feed(bytes: Bytes)      // the caller supplies body bytes
    | Send                    // the transport polls the upload
    | Read(count: nat)        // the listener reads part of what is in flight
    | Consume(count: nat)     // the application consumes delivered bytes
    | Reply(bytes: Bytes)     // the application answers on the same stream
    | CloseReply              // the application half-closes its side
    | TakeBack                // the dialer reads the next returned frame

  function LocalCall(s: Session, mux: L.Mux, frames: seq<Frame>): Session {
    s.(ear := s.ear.(mux := mux), log := s.log.(frames := s.log.frames + frames))
  }

  /** A step that is not enabled, or a local call that fails, changes nothing. */
  function Next(s: Session, step: Step): Session
    requires s.up.Valid() && s.ear.mux.Valid()
  {
    match step
    case Feed(bytes) =>
      (match FeedBody(s.up, bytes)
       case Ok(up) => s.(up := up, body := s.body + bytes)
       case Err(_) => s)
    case Send =>
      var (up, frame) := Poll(s.up);
      s.(up := up, wire := s.wire + if frame.None? || !frame.value.Encodable() then [] else RawBytes(frame.value))
    case Read(count) =>
      if count > |s.wire| then s
      else
        var h := L.Listen(s.ear, s.wire[..count], s.log);
        s.(ear := h.ear, log := h.out, wire := s.wire[count..],
           refused := s.refused || h.error.Some? || h.out.refusals != [])
    case Consume(count) =>
      var r := L.Consume(s.ear.mux, s.Id(), count);
      if r.Err? then s else LocalCall(s, r.value.0, r.value.1)
    case Reply(bytes) =>
      var r := L.TrySend(s.ear.mux, s.Id(), bytes);
      if r.Err? || r.value.1.None? then s else LocalCall(s, r.value.0, [r.value.1.value])
    case CloseReply =>
      var r := L.CloseWrite(s.ear.mux, s.Id());
      if r.Err? then s else LocalCall(s, r.value.0, [r.value.1])
    case TakeBack =>
      if s.taken >= |s.log.frames| then s
      else
        var f := s.log.frames[s.taken];
        var s' := s.(taken := s.taken + 1);
        if f.streamId != s.Id() || f.WindowCredit().None? then s'
        else match AddCredit(s.up.sendCredit, f.WindowCredit().value)
             case Some(credit) => s'.(up := s.up.(sendCredit := credit))
             case None => s'.(refused := true)
  }

  /** A fresh odd id on a listener below its cap, its carrier at a frame boundary. */
  predicate CanStart(id: U32, head: Bytes, mux: L.Mux) {
    && head != []
    && mux.Valid() && id % 2 == 1 && (mux.highWater.Some? ==> mux.highWater.value < id)
    && id !in mux.streams
    && |mux.streams| < mux.limits.maxStreams
  }

  function Start(id: U32, head: Bytes, declaredLen: nat, mux: L.Mux): Session {
    Session(NewSender(id, head, declaredLen), [], L.Ear(mux, 0, []), L.NO_OUTPUT, 0, [], false)
  }

  // ------------------------------------------------------------ observation

  /** Bytes the listener has delivered to the application. */
  function Received(events: seq<L.Event>): Bytes {
    if events == [] then []
    else
      var last := events[|events| - 1];
      Received(events[..|events| - 1]) + if last.Data? then last.bytes else []
  }

  lemma ReceivedAppend(events: seq<L.Event>, e: L.Event)
    ensures Received(events + [e]) == Received(events) + if e.Data? then e.bytes else []
  {
    assert (events + [e])[..|events|] == events;
  }

  datatype Stage = Before | During | After

  function StageOf(events: seq<L.Event>): Stage {
    if events == [] then Before else if events[|events| - 1].ReadClosed? then After else During
  }

  /** Opened, then Data only, then possibly one ReadClosed: nothing else. */
  predicate InOrder(events: seq<L.Event>, id: U32) {
    && (events != [] ==> events[0] == L.Opened(id))
    && (forall i :: 1 <= i < |events| ==>
          || (events[i].Data? && events[i].streamId == id)
          || (i == |events| - 1 && events[i] == L.ReadClosed(id)))
  }

  // ------------------------------------------------------------ in flight

  function Payloads(frames: seq<Frame>): Bytes {
    if frames == [] then [] else frames[0].payload + Payloads(frames[1..])
  }

  lemma {:induction false} PayloadsAppend(frames: seq<Frame>, f: Frame)
    ensures Payloads(frames + [f]) == Payloads(frames) + f.payload
  {
    if frames == [] {
      assert frames + [f] == [f];
      assert f.payload + [] == f.payload;
    } else {
      assert (frames + [f])[1..] == frames[1..] + [f];
      PayloadsAppend(frames[1..], f);
    }
  }

  /** Grants for `id` in a run of returned frames. */
  function Granted(frames: seq<Frame>, id: U32): nat {
    if frames == [] then 0
    else Granted(frames[1..], id)
         + if frames[0].streamId == id && frames[0].WindowCredit().Some? then frames[0].WindowCredit().value else 0
  }

  lemma {:induction false} GrantedAppend(frames: seq<Frame>, f: Frame, id: U32)
    ensures Granted(frames + [f], id) == Granted(frames, id) + Granted([f], id)
  {
    if frames == [] {
      assert frames + [f] == [f];
    } else {
      assert (frames + [f])[1..] == frames[1..] + [f];
      GrantedAppend(frames[1..], f, id);
    }
  }

  /** Frames in flight: an opening one if the listener has none yet, DATA, and the CLOSE last. */
  predicate Chain(frames: seq<Frame>, id: U32, started: bool, closing: bool) {
    if frames == [] then !closing
    else
      && frames[0].streamId == id && frames[0].Encodable()
      && if !started then
           && frames[0].flags == FLAG_OPEN + FLAG_DATA && frames[0].payload != []
           && Chain(frames[1..], id, true, closing)
         else if frames[0].flags == FLAG_DATA then
           frames[0].payload != [] && Chain(frames[1..], id, true, closing)
         else
           frames == [Frame(id, FLAG_CLOSE, [])] && closing
  }

  lemma {:induction false} ChainAppend(frames: seq<Frame>, id: U32, started: bool, f: Frame)
    requires Chain(frames, id, started, false)
    requires f.streamId == id && f.Encodable()
    requires if started || frames != []
             then (f.flags == FLAG_DATA && f.payload != []) || f == Frame(id, FLAG_CLOSE, [])
             else f.flags == FLAG_OPEN + FLAG_DATA && f.payload != []
    ensures Chain(frames + [f], id, started, f.flags == FLAG_CLOSE)
  {
    if frames == [] {
      assert frames + [f] == [f];
    } else {
      assert (frames + [f])[1..] == frames[1..] + [f];
      ChainAppend(frames[1..], id, true, f);
    }
  }

  // ------------------------------------------------------------ invariant

  /** Delivered, in flight and unsent bytes are head ++ body, in that order. */
  predicate BytesInOrder(up: Sender, log: L.Output, body: Bytes, flight: seq<Frame>)
    requires up.Valid()
  {
    && |body| == up.fedLen
    && (Received(log.events) + Payloads(flight)) + up.Unsent() == up.head + body
  }

  predicate FramesInOrder(up: Sender, log: L.Output, flight: seq<Frame>) {
    && InOrder(log.events, up.streamId)
    && Chain(flight, up.streamId, StageOf(log.events) != Before, up.closed && StageOf(log.events) != After)
    && (StageOf(log.events) == Before ==> (up.hasOpened <==> flight != []))
    && (StageOf(log.events) == After ==> up.closed && flight == [])
    && (StageOf(log.events) == During ==> up.hasOpened)
  }

  /** Credit is conserved between the upload, the wire, the window and the way back. */
  predicate CreditConserved(up: Sender, mux: L.Mux, log: L.Output, taken: nat, flight: seq<Frame>)
    requires taken <= |log.frames|
  {
    var coming := Granted(log.frames[taken..], up.streamId);
    if up.streamId in mux.streams then
      mux.streams[up.streamId].window.credit == up.sendCredit + |Payloads(flight)| + coming
    else if StageOf(log.events) == Before then
      up.sendCredit + |Payloads(flight)| == INITIAL_WINDOW && coming == 0
    else
      up.sendCredit + coming <= INITIAL_WINDOW
  }

  predicate ListenerReady(up: Sender, mux: L.Mux, log: L.Output) {
    match StageOf(log.events)
    case Before => CanStart(up.streamId, up.head, mux)
    case During => up.streamId in mux.streams && !mux.streams[up.streamId].peerClosed
    case After =>
      up.streamId in mux.streams ==> mux.streams[up.streamId].peerClosed && !mux.streams[up.streamId].localClosed
  }

  predicate Core(up: Sender, mux: L.Mux, log: L.Output, taken: nat, body: Bytes, flight: seq<Frame>) {
    && up.Valid() && mux.Valid()
    && up.streamId % 2 == 1
    && taken <= |log.frames|
    && log.refusals == []
    && BytesInOrder(up, log, body, flight)
    && FramesInOrder(up, log, flight)
    && CreditConserved(up, mux, log, taken, flight)
    && ListenerReady(up, mux, log)
  }

  /** The bytes staged at the listener and those still in flight are whole frames. */
  predicate Carries(ear: L.Ear, wire: Bytes, flight: seq<Frame>) {
    && ear.skip == 0 && L.Settled(ear)
    && AllEncodable(flight)
    && ear.staged + wire == EncodeAll(flight)
  }

  predicate Inv(s: Session, flight: seq<Frame>) {
    && !s.refused
    && Core(s.up, s.ear.mux, s.log, s.taken, s.body, flight)
    && Carries(s.ear, s.wire, flight)
  }

  // ------------------------------------------------------------ one frame

  lemma OpenArrives(up: Sender, mux: L.Mux, log: L.Output, taken: nat, body: Bytes, flight: seq<Frame>)
    requires Core(up, mux, log, taken, body, flight) && flight != [] && StageOf(log.events) == Before
    ensures var h := L.Handle(L.Turn(mux, log), flight[0]);
            h.Ok? && Core(up, h.value.mux, h.value.out, taken, body, flight[1..])
  {
    hide L.HandleStream, Chain, Granted, Sender.Valid, Received;
    assert (StageOf(log.events) != Before) == false && (up.closed && StageOf(log.events) != After) == up.closed;
    FirstOpens(flight, up.streamId, up.closed);
    var f := flight[0];
    var id := up.streamId;
    assert |Payloads(flight)| == |f.payload| + |Payloads(flight[1..])|;
    OpenIsAccepted(mux, log, f);
    var t := L.HandleStream(L.Turn(mux, log), f);
    assert log.events + [L.Opened(id)] == [L.Opened(id)];
    ReceivedAppend(log.events, L.Opened(id));
    ReceivedAppend([L.Opened(id)], L.Data(id, f.payload));
    assert (Received(log.events) + f.payload) + Payloads(flight[1..]) == Received(log.events) + Payloads(flight);
  }

  lemma OpenIsAccepted(mux: L.Mux, log: L.Output, f: Frame)
    requires mux.Valid() && L.FreshId(mux, f.streamId) && |mux.streams| < mux.limits.maxStreams
    requires f.flags == FLAG_OPEN + FLAG_DATA && |f.payload| <= INITIAL_WINDOW
    ensures var t := L.HandleStream(L.Turn(mux, log), f);
            && t.mux.Valid()
            && t.mux.streams
               == mux.streams[f.streamId := L.Stream(NEW_WINDOW.Debit(|f.payload|), |f.payload|, INITIAL_WINDOW,
                                                     false, false)]
            && t.out == log.(events := (log.events + [L.Opened(f.streamId)]) + [L.Data(f.streamId, f.payload)])
  {
    hide L.Refuse;
    L.HandleStreamValid(L.Turn(mux, log), f);
    assert log.events + ([L.Opened(f.streamId)] + [L.Data(f.streamId, f.payload)])
        == (log.events + [L.Opened(f.streamId)]) + [L.Data(f.streamId, f.payload)];
  }

  lemma FirstOpens(flight: seq<Frame>, id: U32, closing: bool)
    requires Chain(flight, id, false, closing) && flight != []
    ensures flight[0].streamId == id && flight[0].flags == FLAG_OPEN + FLAG_DATA && flight[0].payload != []
    ensures Chain(flight[1..], id, true, closing)
  {
  }

  lemma EmptyChain(id: U32)
    ensures Chain([], id, true, false)
  {
  }

  lemma FirstContinues(flight: seq<Frame>, id: U32, closing: bool)
    requires Chain(flight, id, true, closing) && flight != []
    ensures flight[0].streamId == id
    ensures flight[0].flags == FLAG_DATA ==> flight[0].payload != [] && Chain(flight[1..], id, true, closing)
    ensures flight[0].flags != FLAG_DATA ==> flight == [Frame(id, FLAG_CLOSE, [])] && flight[1..] == [] && closing
  {
  }

  lemma DataArrives(up: Sender, mux: L.Mux, log: L.Output, taken: nat, body: Bytes, flight: seq<Frame>)
    requires Core(up, mux, log, taken, body, flight)
    requires flight != [] && flight[0].flags == FLAG_DATA && StageOf(log.events) == During
    ensures var h := L.Handle(L.Turn(mux, log), flight[0]);
            h.Ok? && Core(up, h.value.mux, h.value.out, taken, body, flight[1..])
  {
    hide L.Refuse, Chain, Granted, Sender.Valid, Received;
    FirstContinues(flight, up.streamId, up.closed);
    var f := flight[0];
    var id := up.streamId;
    assert |Payloads(flight)| == |f.payload| + |Payloads(flight[1..])|;
    var t := L.HandleStream(L.Turn(mux, log), f);
    L.HandleStreamValid(L.Turn(mux, log), f);
    assert t.out.events == log.events + [L.Data(id, f.payload)];
    ReceivedAppend(log.events, L.Data(id, f.payload));
    assert (Received(log.events) + f.payload) + Payloads(flight[1..]) == Received(log.events) + Payloads(flight);
  }

  lemma CloseArrives(up: Sender, mux: L.Mux, log: L.Output, taken: nat, body: Bytes, flight: seq<Frame>)
    requires Core(up, mux, log, taken, body, flight)
    requires flight != [] && flight[0].flags != FLAG_DATA && StageOf(log.events) == During
    ensures var h := L.Handle(L.Turn(mux, log), flight[0]);
            h.Ok? && Core(up, h.value.mux, h.value.out, taken, body, flight[1..])
  {
    hide L.Refuse, Chain, Granted, Sender.Valid, Received;
    FirstContinues(flight, up.streamId, up.closed);
    var id := up.streamId;
    assert Payloads(flight) == [] && Payloads(flight[1..]) == [];
    var t := L.HandleStream(L.Turn(mux, log), flight[0]);
    L.HandleStreamValid(L.Turn(mux, log), flight[0]);
    assert t.out.events == log.events + [L.ReadClosed(id)];
    ReceivedAppend(log.events, L.ReadClosed(id));
    assert Chain([], id, true, false) by { EmptyChain(id); }
    assert Received(t.out.events) + Payloads(flight[1..]) == Received(log.events) + Payloads(flight);
  }

  lemma FrameArrives(up: Sender, mux: L.Mux, log: L.Output, taken: nat, body: Bytes, flight: seq<Frame>)
    requires Core(up, mux, log, taken, body, flight) && flight != []
    ensures var h := L.Handle(L.Turn(mux, log), flight[0]);
            h.Ok? && Core(up, h.value.mux, h.value.out, taken, body, flight[1..])
  {
    hide L.Handle, BytesInOrder, CreditConserved, ListenerReady, Chain;
    if StageOf(log.events) == Before {
      OpenArrives(up, mux, log, taken, body, flight);
    } else if flight[0].flags == FLAG_DATA {
      DataArrives(up, mux, log, taken, body, flight);
    } else {
      CloseArrives(up, mux, log, taken, body, flight);
    }
  }

  // ------------------------------------------------------------ one read

  /** Reading any prefix of what is in flight handles its complete frames in order. */
  lemma {:induction false} BytesArrive(
    up: Sender, mux: L.Mux, log: L.Output, taken: nat, body: Bytes, flight: seq<Frame>, buf: Bytes, rest: Bytes)
    returns (left: seq<Frame>)
    requires Core(up, mux, log, taken, body, flight)
    requires AllEncodable(flight) && buf + rest == EncodeAll(flight)
    ensures var h := L.Scan(mux, 0, buf, log);
            && h.error.None?
            && Core(up, h.ear.mux, h.out, taken, body, left)
            && Carries(h.ear, rest, left)
    decreases |flight|
  {
    hide Core, L.Handle, RawBytes;
    if flight == [] {
      assert buf == [];
      left := flight;
    } else {
      var first := RawBytes(flight[0]);
      var tail := EncodeAll(flight[1..]);
      if |buf| < |first| {
        PartialFrame(mux, log, flight[0], buf, rest, tail);
        left := flight;
      } else {
        var buf' := buf[|first|..];
        CutFront(buf, rest, first, tail);
        G.ScanOne(mux, flight[0], buf', log);
        FrameArrives(up, mux, log, taken, body, flight);
        var h := L.Handle(L.Turn(mux, log), flight[0]);
        left := BytesArrive(up, h.value.mux, h.value.out, taken, body, flight[1..], buf', rest);
      }
    }
  }

  lemma CutFront(buf: Bytes, rest: Bytes, first: Bytes, tail: Bytes)
    requires buf + rest == first + tail && |buf| >= |first|
    ensures buf == first + buf[|first|..]
    ensures buf[|first|..] + rest == tail
  {
    assert (buf + rest)[..|first|] == first;
    assert (buf + rest)[|first|..] == tail;
    assert buf[..|first|] == first;
    assert buf[|first|..] + rest == (buf + rest)[|first|..];
  }

  lemma PartialFrame(mux: L.Mux, log: L.Output, f: Frame, buf: Bytes, rest: Bytes, tail: Bytes)
    requires f.Encodable() && buf + rest == RawBytes(f) + tail && |buf| < |RawBytes(f)|
    ensures L.Scan(mux, 0, buf, log) == L.Heard(L.Ear(mux, 0, buf), log, None)
    ensures L.Settled(L.Ear(mux, 0, buf))
  {
    if |buf| >= HEADER_LEN {
      assert buf == RawBytes(f)[..|buf|] by {
        assert (buf + rest)[..|buf|] == buf;
        assert (RawBytes(f) + tail)[..|buf|] == RawBytes(f)[..|buf|];
      }
      HeaderRoundTrip(f.streamId, f.flags, |f.payload|, f.payload);
      assert buf[..4] == RawBytes(f)[..4];
      assert buf[5..8] == RawBytes(f)[5..8];
    }
    L.SettledScan(mux, 0, buf, log);
  }

  // ------------------------------------------------------------ every step

  /** What a poll writes joins the frames in flight. */
  lemma SentFrameJoins(s: Session, flight: seq<Frame>, f: Frame)
    requires Inv(s, flight) && Poll(s.up).1 == Some(f)
    ensures Core(Poll(s.up).0, s.ear.mux, s.log, s.taken, s.body, flight + [f])
    ensures f.Encodable()
  {
    hide Chain, Granted, Received, Poll, Payloads, ListenerReady;
    var up := Poll(s.up).0;
    PollWritesNextBytes(s.up);
    assert s.up.Unsent() == [] <==> f.flags == FLAG_CLOSE;
    PayloadsAppend(flight, f);
    SentFrameInOrder(s.up, up, s.log, flight, f);
    SentFrameConserves(s, up, flight, f);
    assert (Received(s.log.events) + Payloads(flight)) + (f.payload + up.Unsent())
        == (Received(s.log.events) + (Payloads(flight) + f.payload)) + up.Unsent();
    assert ListenerReady(up, s.ear.mux, s.log) by { ReadyDependsOnId(s.up, up, s.ear.mux, s.log); }
  }

  lemma ReadyDependsOnId(up: Sender, up': Sender, mux: L.Mux, log: L.Output)
    requires ListenerReady(up, mux, log) && up'.streamId == up.streamId && up'.head == up.head
    ensures ListenerReady(up', mux, log)
  {
  }

  lemma SentFrameInOrder(up: Sender, up': Sender, log: L.Output, flight: seq<Frame>, f: Frame)
    requires FramesInOrder(up, log, flight) && f.Encodable()
    requires up'.streamId == up.streamId == f.streamId && !up.closed && up'.hasOpened
    requires if f.flags == FLAG_CLOSE
             then f == Frame(up.streamId, FLAG_CLOSE, []) && up.hasOpened && up'.closed
             else f.flags == (if up.hasOpened then FLAG_DATA else FLAG_OPEN + FLAG_DATA)
                  && f.payload != [] && !up'.closed
    ensures FramesInOrder(up', log, flight + [f])
  {
    ChainAppend(flight, up.streamId, StageOf(log.events) != Before, f);
  }

  lemma SentFrameConserves(s: Session, up: Sender, flight: seq<Frame>, f: Frame)
    requires s.taken <= |s.log.frames|
    requires CreditConserved(s.up, s.ear.mux, s.log, s.taken, flight)
    requires up.streamId == s.up.streamId && up.sendCredit + |f.payload| == s.up.sendCredit
    ensures CreditConserved(up, s.ear.mux, s.log, s.taken, flight + [f])
  {
    hide Granted, Payloads;
    PayloadsAppend(flight, f);
  }

  lemma SendKeeps(s: Session, flight: seq<Frame>) returns (flight': seq<Frame>)
    requires Inv(s, flight)
    ensures Inv(Next(s, Send), flight')
  {
    hide BytesInOrder, FramesInOrder, CreditConserved, ListenerReady, Poll, RawBytes, L.Settled;
    var (up, frame) := Poll(s.up);
    if frame.None? {
      PollWritesNextBytes(s.up);
      assert s.wire + [] == s.wire;
      flight' := flight;
    } else {
      var f := frame.value;
      flight' := flight + [f];
      SentFrameJoins(s, flight, f);
      EncodeAllAppend(flight, [f]);
      assert EncodeAll([f]) == RawBytes(f) by { assert RawBytes(f) + [] == RawBytes(f); }
      assert s.ear.staged + (s.wire + RawBytes(f)) == (s.ear.staged + s.wire) + RawBytes(f);
    }
  }

  lemma FeedKeeps(s: Session, flight: seq<Frame>, bytes: Bytes)
    requires Inv(s, flight)
    ensures Inv(Next(s, Feed(bytes)), flight)
  {
    hide Chain, Granted, Received, Payloads, L.Settled, EncodeAll;
    var r := FeedBody(s.up, bytes);
    if r.Ok? {
      var sent := Received(s.log.events) + Payloads(flight);
      assert sent + (s.up.Unsent() + bytes) == (sent + s.up.Unsent()) + bytes;
      assert (s.up.head + s.body) + bytes == s.up.head + (s.body + bytes);
    }
  }

  lemma ReadKeeps(s: Session, flight: seq<Frame>, count: nat) returns (flight': seq<Frame>)
    requires Inv(s, flight)
    ensures Inv(Next(s, Read(count)), flight')
  {
    hide BytesInOrder, FramesInOrder, CreditConserved, ListenerReady, L.Scan, L.Settled, EncodeAll;
    if count > |s.wire| {
      flight' := flight;
    } else {
      var buf, rest := s.ear.staged + s.wire[..count], s.wire[count..];
      assert buf + rest == s.ear.staged + s.wire by { assert s.wire[..count] + s.wire[count..] == s.wire; }
      flight' := BytesArrive(s.up, s.ear.mux, s.log, s.taken, s.body, flight, buf, rest);
    }
  }

  /** A local call that leaves the receive side alone and returns no grant. */
  lemma LocalCallKeeps(s: Session, flight: seq<Frame>, mux: L.Mux, frames: seq<Frame>)
    requires Inv(s, flight) && s.Id() in s.ear.mux.streams
    requires mux.Valid() && |frames| <= 1
    requires mux.limits == s.ear.mux.limits && mux.highWater == s.ear.mux.highWater
    requires Granted(frames, s.Id()) == 0 || s.Id() in mux.streams
    requires s.Id() in mux.streams ==>
               && mux.streams[s.Id()].window.credit == s.ear.mux.streams[s.Id()].window.credit + Granted(frames, s.Id())
               && mux.streams[s.Id()].peerClosed == s.ear.mux.streams[s.Id()].peerClosed
               && (mux.streams[s.Id()].peerClosed ==> !mux.streams[s.Id()].localClosed)
    requires s.Id() !in mux.streams ==> s.ear.mux.streams[s.Id()].peerClosed
    ensures Inv(LocalCall(s, mux, frames), flight)
  {
    hide Chain, Granted, Received, Payloads, EncodeAll;
    var coming := s.log.frames[s.taken..];
    assert (s.log.frames + frames)[s.taken..] == coming + frames;
    if frames == [] {
      assert coming + frames == coming;
      assert Granted([], s.Id()) == 0 by { NothingGranted(s.Id()); }
    } else {
      assert frames == [frames[0]];
      GrantedAppend(coming, frames[0], s.Id());
    }
    assert StageOf(s.log.events) != Before;
    if s.Id() !in mux.streams {
      assert StageOf(s.log.events) == After;
    }
  }

  lemma NothingGranted(id: U32)
    ensures Granted([], id) == 0
  {
  }

  lemma ConsumeKeeps(s: Session, flight: seq<Frame>, count: nat)
    requires Inv(s, flight)
    ensures Inv(Next(s, Consume(count)), flight)
  {
    hide BytesInOrder, FramesInOrder, CreditConserved, Carries;
    var r := L.Consume(s.ear.mux, s.Id(), count);
    if r.Ok? {
      var grant := s.ear.mux.streams[s.Id()].window.Consume(count).1;
      assert Granted(r.value.1, s.Id()) == Credit(grant) by {
        if grant.Some? {
          assert r.value.1[1..] == [];
        }
      }
      CurrentStream(s, flight);
      LocalCallKeeps(s, flight, r.value.0, r.value.1);
    }
  }

  /** A live stream is never half-closed on both sides. */
  lemma CurrentStream(s: Session, flight: seq<Frame>)
    requires Inv(s, flight) && s.Id() in s.ear.mux.streams
    ensures s.ear.mux.streams[s.Id()].peerClosed ==> !s.ear.mux.streams[s.Id()].localClosed
  {
  }

  lemma ReplyKeeps(s: Session, flight: seq<Frame>, bytes: Bytes)
    requires Inv(s, flight)
    ensures Inv(Next(s, Reply(bytes)), flight)
  {
    hide BytesInOrder, FramesInOrder, CreditConserved, Carries;
    var r := L.TrySend(s.ear.mux, s.Id(), bytes);
    if r.Ok? && r.value.1.Some? {
      var frames := [r.value.1.value];
      assert Granted(frames, s.Id()) == 0 by { assert frames[1..] == []; }
      LocalCallKeeps(s, flight, r.value.0, frames);
    }
  }

  lemma CloseReplyKeeps(s: Session, flight: seq<Frame>)
    requires Inv(s, flight)
    ensures Inv(Next(s, CloseReply), flight)
  {
    hide BytesInOrder, FramesInOrder, CreditConserved, Carries;
    var r := L.CloseWrite(s.ear.mux, s.Id());
    if r.Ok? {
      var frames := [r.value.1];
      assert Granted(frames, s.Id()) == 0 by { assert frames[1..] == []; }
      LocalCallKeeps(s, flight, r.value.0, frames);
    }
  }

  lemma TakeBackKeeps(s: Session, flight: seq<Frame>)
    requires Inv(s, flight)
    ensures Inv(Next(s, TakeBack), flight)
  {
    hide Chain, Received, Payloads, L.Settled, EncodeAll;
    if s.taken < |s.log.frames| {
      var coming := s.log.frames[s.taken..];
      assert coming[0] == s.log.frames[s.taken];
      assert coming[1..] == s.log.frames[s.taken + 1..];
    }
  }

  // ------------------------------------------------------------ every run

  ghost predicate Sound(s: Session) {
    exists flight :: Inv(s, flight)
  }

  /** The request being uploaded never changes. */
  predicate SameRequest(a: Sender, b: Sender) {
    a.streamId == b.streamId && a.head == b.head && a.declaredLen == b.declaredLen
  }

  lemma StepKeepsRequest(s: Session, step: Step)
    requires s.up.Valid() && s.ear.mux.Valid()
    ensures SameRequest(Next(s, step).up, s.up)
  {
    hide Poll;
    PollWritesNextBytes(s.up);
  }

  lemma StepKeeps(s: Session, step: Step)
    requires Sound(s)
    ensures Sound(Next(s, step))
  {
    hide Inv, Next;
    var flight :| Inv(s, flight);
    match step
    case Feed(bytes) => FeedKeeps(s, flight, bytes);
    case Send => var flight' := SendKeeps(s, flight);
    case Read(count) => var flight' := ReadKeeps(s, flight, count);
    case Consume(count) => ConsumeKeeps(s, flight, count);
    case Reply(bytes) => ReplyKeeps(s, flight, bytes);
    case CloseReply => CloseReplyKeeps(s, flight);
    case TakeBack => TakeBackKeeps(s, flight);
  }

  lemma SoundIsValid(s: Session)
    requires Sound(s)
    ensures s.up.Valid() && s.ear.mux.Valid()
  {
  }

  ghost function Run(s: Session, steps: seq<Step>): Session
    requires Sound(s)
    decreases |steps|
  {
    if steps == [] then s
    else
      StepKeeps(s, steps[0]);
      Run(Next(s, steps[0]), steps[1..])
  }

  lemma {:induction false} RunKeeps(s: Session, steps: seq<Step>)
    requires Sound(s)
    ensures Sound(Run(s, steps)) && SameRequest(Run(s, steps).up, s.up)
    decreases |steps|
  {
    hide Inv, Next;
    if steps != [] {
      SoundIsValid(s);
      StepKeepsRequest(s, steps[0]);
      StepKeeps(s, steps[0]);
      RunKeeps(Next(s, steps[0]), steps[1..]);
    }
  }

  lemma StartIsSound(id: U32, head: Bytes, declaredLen: nat, mux: L.Mux)
    requires CanStart(id, head, mux)
    ensures Sound(Start(id, head, declaredLen, mux))
  {
    var s := Start(id, head, declaredLen, mux);
    assert ([] + []) + s.up.Unsent() == head + [] by { assert head[0..] + [] == head; }
    assert s.log.frames[0..] == [];
    assert Inv(s, []);
  }

  /**
   End-to-end transfer. Whatever the interleaving, nothing is ever refused, the
   listener reports Opened, then Data, then at most one ReadClosed, the delivered
   bytes are a prefix of head ++ body, and they are all of it when the CLOSE arrives.
   */
  lemma UploadArrivesInOrder(id: U32, head: Bytes, declaredLen: nat, mux: L.Mux, steps: seq<Step>)
    requires CanStart(id, head, mux)
    ensures Sound(Start(id, head, declaredLen, mux))
    ensures var s := Run(Start(id, head, declaredLen, mux), steps);
            && !s.refused && s.log.refusals == []
            && InOrder(s.log.events, id)
            && Received(s.log.events) <= head + s.body
            && (StageOf(s.log.events) == After ==>
                  Received(s.log.events) == head + s.body && |s.body| == declaredLen)
  {
    hide Next, Chain, Received, Payloads;
    StartIsSound(id, head, declaredLen, mux);
    RunKeeps(Start(id, head, declaredLen, mux), steps);
    var s := Run(Start(id, head, declaredLen, mux), steps);
    var flight :| Inv(s, flight);
    if StageOf(s.log.events) == After {
      assert Payloads(flight) == [] by { NoPayloads(); }
      assert s.up.Unsent() == [];
      assert (Received(s.log.events) + []) + [] == Received(s.log.events);
    }
  }

  lemma NoPayloads()
    ensures Payloads([]) == []
  {
  }

  /**
   The upload cannot stall: once everything written has been read, everything
   delivered consumed and every returned frame taken, more than half a window of
   credit is available, so a poll with bytes waiting writes a frame.
   */
  lemma UploadNeverStalls(id: U32, head: Bytes, declaredLen: nat, mux: L.Mux, steps: seq<Step>)
    requires CanStart(id, head, mux)
    ensures Sound(Start(id, head, declaredLen, mux))
    ensures var s := Run(Start(id, head, declaredLen, mux), steps);
            && s.up.Valid()
            && (&& s.wire == [] && s.ear.staged == [] && s.taken == |s.log.frames|
                && (s.Id() in s.ear.mux.streams ==> s.ear.mux.streams[s.Id()].debited == 0)
                && s.up.Unsent() != [] ==>
                  s.up.sendCredit > RECEIVE_GRANT_THRESHOLD && Poll(s.up).1.Some?)
  {
    hide Next, Chain, Received, L.Settled, Poll;
    StartIsSound(id, head, declaredLen, mux);
    RunKeeps(Start(id, head, declaredLen, mux), steps);
    var s := Run(Start(id, head, declaredLen, mux), steps);
    var flight :| Inv(s, flight);
    PollWritesNextBytes(s.up);
    if s.wire == [] && s.ear.staged == [] {
      if flight != [] {
        EncodedNonempty(flight);
      }
      assert s.log.frames[|s.log.frames|..] == [];
    }
  }

  lemma EncodedNonempty(frames: seq<Frame>)
    requires AllEncodable(frames) && frames != []
    ensures EncodeAll(frames) != []
  {
    assert |RawBytes(frames[0])| >= HEADER_LEN;
  }
}
