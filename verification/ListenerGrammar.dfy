/**
 The listener's byte handling refines the frame grammar: read boundaries do not
 matter, and a carrier made of encoded frames is handled frame by frame.
 */
module ListenerGrammar {
  import opened Outcomes
  import opened Wire
  import opened Listener

  /** Consecutive reads; the connection ends at the first error. */
  function ListenAll(ear: Ear, chunks: seq<Bytes>, out: Output): Heard
    decreases |chunks|
  {
    if chunks == [] then Heard(ear, out, None)
    else
      var h := Listen(ear, chunks[0], out);
      if h.error.Some? then h else ListenAll(h.ear, chunks[1..], h.out)
  }

  /** One scan over two reads is two scans, unless the first already failed. */
  lemma {:induction false} ScanSplit(mux: Mux, skip: nat, a: Bytes, b: Bytes, out: Output)
    ensures var h := Scan(mux, skip, a, out);
            Scan(mux, skip, a + b, out) ==
            if h.error.Some? then h else Scan(h.ear.mux, h.ear.skip, h.ear.staged + b, h.out)
    decreases |a|
  {
    hide Refuse, Handle, Parse;
    if skip > 0 {
      ScanSplitSkip(mux, skip, a, b, out);
      if |a| > skip {
        ScanSplit(mux, 0, a[skip..], b, out);
      }
    } else if |a| >= HEADER_LEN {
      HeaderStable(a, b);
      ParseStable(a, b);
      if Reserved(HeaderFlags(a)) {
        if HeaderStream(a) != 0 {
          var t := Refuse(Turn(mux, out), HeaderViolation(a), Protocol);
          assert (a + b)[HEADER_LEN..] == a[HEADER_LEN..] + b;
          ScanSplit(t.mux, HeaderLength(a), a[HEADER_LEN..], b, t.out);
        }
      } else if Parse(a).Got? {
        var h := Handle(Turn(mux, out), Parse(a).frame);
        if h.Ok? {
          ScanSplit(h.value.mux, 0, Parse(a).rest, b, h.value.out);
        }
      }
    }
  }

  lemma ScanSplitSkip(mux: Mux, skip: nat, a: Bytes, b: Bytes, out: Output)
    requires skip > 0
    ensures |a| <= skip ==> Scan(mux, skip, a + b, out) == Scan(mux, skip - |a|, [] + b, out)
    ensures |a| > skip ==> Scan(mux, skip, a + b, out) == Scan(mux, 0, a[skip..] + b, out)
  {
    if |a| > skip {
      assert (a + b)[skip..] == a[skip..] + b;
    } else {
      assert [] + b == b;
      if |a + b| > skip {
        assert (a + b)[skip..] == b[skip - |a|..];
        if |a| == skip {
          assert b[0..] == b;
        }
      } else if |a| == skip {
        assert b == [];
      }
    }
  }

  lemma HeaderStable(a: Bytes, b: Bytes)
    requires |a| >= HEADER_LEN
    ensures HeaderStream(a + b) == HeaderStream(a)
    ensures HeaderFlags(a + b) == HeaderFlags(a)
    ensures HeaderLength(a + b) == HeaderLength(a)
    ensures HeaderViolation(a + b) == HeaderViolation(a)
  {
    assert (a + b)[..4] == a[..4];
    assert (a + b)[5..8] == a[5..8];
  }

  /**
   However a carrier is cut into chunks, the listener ends in the same state,
   with the same output and the same error.
   */
  lemma {:induction false} ReadBoundariesDoNotMatter(ear: Ear, chunks: seq<Bytes>, out: Output)
    requires Settled(ear)
    ensures ListenAll(ear, chunks, out) == Listen(ear, Flatten(chunks), out)
    decreases |chunks|
  {
    hide Refuse, Handle, Parse;
    if chunks == [] {
      assert ear.staged + [] == ear.staged;
      SettledScan(ear.mux, ear.skip, ear.staged, out);
    } else {
      var first := Listen(ear, chunks[0], out);
      assert ear.staged + (chunks[0] + Flatten(chunks[1..])) == (ear.staged + chunks[0]) + Flatten(chunks[1..]);
      ScanSplit(ear.mux, ear.skip, ear.staged + chunks[0], Flatten(chunks[1..]), out);
      if first.error.None? {
        ScanEndsSettled(ear.mux, ear.skip, ear.staged + chunks[0], out);
        ReadBoundariesDoNotMatter(first.ear, chunks[1..], first.out);
      }
    }
  }

  lemma {:induction false} ScanEndsSettled(mux: Mux, skip: nat, buf: Bytes, out: Output)
    ensures Settled(Scan(mux, skip, buf, out).ear)
    decreases |buf|
  {
    hide Refuse, Handle;
    if skip > 0 {
      if |buf| > skip {
        ScanEndsSettled(mux, 0, buf[skip..], out);
      }
    } else if |buf| >= HEADER_LEN {
      if Reserved(HeaderFlags(buf)) {
        if HeaderStream(buf) != 0 {
          var t := Refuse(Turn(mux, out), HeaderViolation(buf), Protocol);
          ScanEndsSettled(t.mux, HeaderLength(buf), buf[HEADER_LEN..], t.out);
        }
      } else if Parse(buf).Got? {
        var h := Handle(Turn(mux, out), Parse(buf).frame);
        if h.Ok? {
          ScanEndsSettled(h.value.mux, 0, Parse(buf).rest, h.value.out);
        }
      }
    }
  }

  // ---------------------------------------------------------------- frames

  /** A frame as it may appear on the wire, reserved flag included. */
  function HandleRaw(t: Turn, f: Frame): Result<Turn, HomeError> {
    if !Reserved(f.flags) then Handle(t, f)
    else if f.streamId == 0 then Err(Refused(Refusal(Protocol, Some(f.Violation()))))
    else Ok(Refuse(t, f.Violation(), Protocol))
  }

  function HandleAll(t: Turn, frames: seq<Frame>): Result<Turn, HomeError>
    decreases |frames|
  {
    if frames == [] then Ok(t)
    else match HandleRaw(t, frames[0])
         case Err(e) => Err(e)
         case Ok(t') => HandleAll(t', frames[1..])
  }

  predicate Framable(frames: seq<Frame>) {
    forall i :: 0 <= i < |frames| ==> |frames[i].payload| <= MAX_PAYLOAD
  }

  function RawAll(frames: seq<Frame>): Bytes
    requires Framable(frames)
  {
    if frames == [] then [] else RawBytes(frames[0]) + RawAll(frames[1..])
  }

  lemma ScanOne(mux: Mux, f: Frame, rest: Bytes, out: Output)
    requires |f.payload| <= MAX_PAYLOAD
    ensures var h := HandleRaw(Turn(mux, out), f);
            var s := Scan(mux, 0, RawBytes(f) + rest, out);
            if h.Err? then s.error == Some(h.error) && s.out == out && s.ear.mux == mux
            else s == Scan(h.value.mux, 0, rest, h.value.out)
  {
    hide Refuse, Handle, Parse;
    var buf := RawBytes(f) + rest;
    assert buf == Header(f.streamId, f.flags, |f.payload|) + (f.payload + rest);
    HeaderRoundTrip(f.streamId, f.flags, |f.payload|, f.payload + rest);
    if Reserved(f.flags) {
      if f.streamId != 0 {
        var t := Refuse(Turn(mux, out), f.Violation(), Protocol);
        assert buf[HEADER_LEN..] == f.payload + rest;
        SkipPayload(t.mux, f.payload, rest, t.out);
      }
    } else {
      ParseEncoded(f, rest);
    }
  }

  lemma SkipPayload(mux: Mux, payload: Bytes, rest: Bytes, out: Output)
    ensures Scan(mux, |payload|, payload + rest, out) == Scan(mux, 0, rest, out)
  {
    if payload == [] {
      assert payload + rest == rest;
    } else {
      assert (payload + rest)[|payload|..] == rest;
      if rest == [] {
        assert payload + rest == payload;
      }
    }
  }

  /**
   A carrier that holds encoded frames is handled exactly frame by frame, in
   order, with the payloads of refused reserved-flag frames skipped; the
   undecoded tail is left as it would be on its own.
   */
  lemma {:induction false} FramesAreHandledInOrder(mux: Mux, frames: seq<Frame>, tail: Bytes, out: Output)
    requires Framable(frames)
    ensures var h := HandleAll(Turn(mux, out), frames);
            var s := Scan(mux, 0, RawAll(frames) + tail, out);
            if h.Err? then s.error == Some(h.error)
            else s == Scan(h.value.mux, 0, tail, h.value.out)
    decreases |frames|
  {
    hide Scan, HandleRaw, RawBytes;
    if frames == [] {
      assert RawAll(frames) + tail == tail;
    } else {
      assert RawAll(frames) + tail == RawBytes(frames[0]) + (RawAll(frames[1..]) + tail);
      ScanOne(mux, frames[0], RawAll(frames[1..]) + tail, out);
      var h := HandleRaw(Turn(mux, out), frames[0]);
      if h.Ok? {
        FramesAreHandledInOrder(h.value.mux, frames[1..], tail, h.value.out);
      }
    }
  }

  // ---------------------------------------------------------------- answers

  /** The nonces of PINGs, and of PONGs, in order. */
  function Nonces(frames: seq<Frame>, flag: Byte): seq<Bytes> {
    if frames == [] then []
    else
      var last := frames[|frames| - 1];
      Nonces(frames[..|frames| - 1], flag) + if last.streamId == 0 && last.flags == flag then [last.payload] else []
  }

  /** What was written about streams other than zero. */
  function AboutStreams(frames: seq<Frame>): seq<Frame> {
    if frames == [] then []
    else
      var last := frames[|frames| - 1];
      AboutStreams(frames[..|frames| - 1]) + if last.streamId != 0 then [last] else []
  }

  /** The RESET a refusal is answered with. */
  function Answer(r: Refusal): seq<Frame> {
    match r.violation
    case None => []
    case Some(v) => [ResetFrame(v.streamId, Code(ReasonOf(r.kind)))]
  }

  function Answers(refusals: seq<Refusal>): seq<Frame> {
    if refusals == [] then []
    else Answers(refusals[..|refusals| - 1]) + Answer(refusals[|refusals| - 1])
  }

  lemma Written(frames: seq<Frame>, f: Frame, flag: Byte)
    ensures Nonces(frames + [f], flag)
            == Nonces(frames, flag) + if f.streamId == 0 && f.flags == flag then [f.payload] else []
    ensures AboutStreams(frames + [f]) == AboutStreams(frames) + if f.streamId != 0 then [f] else []
  {
    assert (frames + [f])[..|frames|] == frames;
  }

  lemma Answered(refusals: seq<Refusal>, r: Refusal)
    ensures Answers(refusals + [r]) == Answers(refusals) + Answer(r)
  {
    assert (refusals + [r])[..|refusals|] == refusals;
  }

  /** One frame adds a PONG, a refusal with its RESET, or neither. */
  predicate AnswersOne(t: Turn, t': Turn, f: Frame) {
    || (t'.out.frames == t.out.frames && t'.out.refusals == t.out.refusals
        && !(f.streamId == 0 && f.flags == FLAG_PING))
    || (t'.out.frames == t.out.frames + [Frame(0, FLAG_PONG, f.payload)] && t'.out.refusals == t.out.refusals
        && f.streamId == 0 && f.flags == FLAG_PING)
    || (f.streamId != 0 && exists c: Class ::
          && t'.out.refusals == t.out.refusals + [Refusal(c, Some(f.Violation()))]
          && t'.out.frames == t.out.frames + [ResetFrame(f.streamId, Code(ReasonOf(c)))])
  }

  lemma RefuseAnswers(t: Turn, t0: Turn, f: Frame, c: Class)
    requires f.streamId != 0 && t0.out == t.out
    ensures AnswersOne(t, Refuse(t0, f.Violation(), c), f)
  {
    hide Refuse;
    RefusalIsAnswered(t0, f.Violation(), c);
  }

  lemma HandleAnswers(t: Turn, f: Frame)
    requires HandleRaw(t, f).Ok?
    ensures AnswersOne(t, HandleRaw(t, f).value, f)
  {
    hide AnswersOne, Refuse;
    if f.streamId == 0 {
      ControlIsAnswered(t, f);
      ControlAnswers(t, f);
    } else {
      RefuseAnswers(t, t, f, Protocol);
      RefuseAnswers(t, t, f, FlowControl);
      var raised := t.(mux := t.mux.(highWater := Some(f.streamId)));
      RefuseAnswers(t, raised, f, StreamLimit);
      RefuseAnswers(t, raised, f, FlowControl);
      if HandleRaw(t, f).value.out.frames == t.out.frames && HandleRaw(t, f).value.out.refusals == t.out.refusals {
        NothingAnswered(t, HandleRaw(t, f).value, f);
      }
    }
  }

  lemma NothingAnswered(t: Turn, t': Turn, f: Frame)
    requires t'.out.frames == t.out.frames && t'.out.refusals == t.out.refusals && f.streamId != 0
    ensures AnswersOne(t, t', f)
  {
  }

  lemma ControlAnswers(t: Turn, f: Frame)
    requires f.streamId == 0 && HandleRaw(t, f).Ok?
    ensures AnswersOne(t, HandleRaw(t, f).value, f)
  {
  }

  /**
   Over any frames a carrier brings: what the home writes on stream zero are PONGs
   with exactly the PINGs' nonces, in order; what it writes about other streams is
   one RESET for each refusal, in order, with the refused stream and class.
   */
  lemma {:induction false} EveryFrameIsAnswered(t: Turn, frames: seq<Frame>)
    requires AboutStreams(t.out.frames) == Answers(t.out.refusals) && HandleAll(t, frames).Ok?
    ensures var t' := HandleAll(t, frames).value;
            && Nonces(t'.out.frames, FLAG_PONG) == Nonces(t.out.frames, FLAG_PONG) + Nonces(frames, FLAG_PING)
            && AboutStreams(t'.out.frames) == Answers(t'.out.refusals)
    decreases |frames|
  {
    hide HandleRaw, AboutStreams, Answers, Nonces;
    if frames == [] {
      NoNonces();
      assert Nonces(t.out.frames, FLAG_PONG) + [] == Nonces(t.out.frames, FLAG_PONG);
    } else {
      var init, last := frames[..|frames| - 1], frames[|frames| - 1];
      assert frames == init + [last];
      HandleAllSplit(t, init, last);
      EveryFrameIsAnswered(t, init);
      var t1 := HandleAll(t, init).value;
      HandleAnswers(t1, last);
      OneIsAnswered(t1, HandleRaw(t1, last).value, last);
      Written(init, last, FLAG_PING);
    }
  }

  lemma NoNonces()
    ensures Nonces([], FLAG_PING) == []
  {
  }

  lemma OneIsAnswered(t: Turn, t': Turn, f: Frame)
    requires AnswersOne(t, t', f) && AboutStreams(t.out.frames) == Answers(t.out.refusals)
    ensures Nonces(t'.out.frames, FLAG_PONG)
            == Nonces(t.out.frames, FLAG_PONG) + if f.streamId == 0 && f.flags == FLAG_PING then [f.payload] else []
    ensures AboutStreams(t'.out.frames) == Answers(t'.out.refusals)
  {
    hide AboutStreams, Answers, Nonces;
    assert Nonces(t.out.frames, FLAG_PONG) + [] == Nonces(t.out.frames, FLAG_PONG);
    assert AboutStreams(t.out.frames) + [] == AboutStreams(t.out.frames);
    Written(t.out.frames, Frame(0, FLAG_PONG, f.payload), FLAG_PONG);
    forall c: Class ensures
      && Nonces(t.out.frames + [ResetFrame(f.streamId, Code(ReasonOf(c)))], FLAG_PONG)
          == Nonces(t.out.frames, FLAG_PONG)
      && (f.streamId != 0 ==>
            AboutStreams(t.out.frames + [ResetFrame(f.streamId, Code(ReasonOf(c)))])
            == Answers(t.out.refusals + [Refusal(c, Some(f.Violation()))]))
    {
      Written(t.out.frames, ResetFrame(f.streamId, Code(ReasonOf(c))), FLAG_PONG);
      Answered(t.out.refusals, Refusal(c, Some(f.Violation())));
    }
  }

  lemma {:induction false} HandleAllSplit(t: Turn, frames: seq<Frame>, f: Frame)
    ensures var first := HandleAll(t, frames);
            HandleAll(t, frames + [f]) == if first.Err? then first else HandleRaw(first.value, f)
    decreases |frames|
  {
    hide HandleRaw;
    var all := frames + [f];
    if frames == [] {
      assert all == [f] && all[1..] == [];
    } else {
      assert all[1..] == frames[1..] + [f];
      if HandleRaw(t, frames[0]).Ok? {
        HandleAllSplit(HandleRaw(t, frames[0]).value, frames[1..], f);
      }
    }
  }

  // ---------------------------------------------------------------- output

  function Append(a: Output, b: Output): Output {
    Output(a.frames + b.frames, a.events + b.events, a.refusals + b.refusals, a.writable + b.writable)
  }

  function Prefixed(log: Output, t: Turn): Turn {
    Turn(t.mux, Append(log, t.out))
  }

  lemma RefuseAppends(log: Output, t: Turn, v: FrameViolation, c: Class)
    ensures Refuse(Prefixed(log, t), v, c) == Prefixed(log, Refuse(t, v, c))
  {
    assert Refuse(Prefixed(log, t), v, c).out.frames == Prefixed(log, Refuse(t, v, c)).out.frames;
    assert Refuse(Prefixed(log, t), v, c).out.events == Prefixed(log, Refuse(t, v, c)).out.events;
    assert Refuse(Prefixed(log, t), v, c).out.refusals == Prefixed(log, Refuse(t, v, c)).out.refusals;
  }

  lemma MarkPeerClosedAppends(log: Output, t: Turn, id: U32)
    ensures MarkPeerClosed(Prefixed(log, t), id) == Prefixed(log, MarkPeerClosed(t, id))
  {
    assert MarkPeerClosed(Prefixed(log, t), id).out.events == Prefixed(log, MarkPeerClosed(t, id)).out.events;
  }

  lemma HandleOpenAppends(log: Output, t: Turn, f: Frame)
    ensures HandleOpen(Prefixed(log, t), f) == Prefixed(log, HandleOpen(t, f))
  {
    hide Refuse, MarkPeerClosed;
    RefuseAppends(log, t, f.Violation(), Protocol);
    var raised := t.(mux := t.mux.(highWater := Some(f.streamId)));
    RefuseAppends(log, raised, f.Violation(), StreamLimit);
    RefuseAppends(log, raised, f.Violation(), FlowControl);
    forall events: seq<Event> ensures (log.events + t.out.events) + events == log.events + (t.out.events + events) {}
    forall t ensures MarkPeerClosed(Prefixed(log, t), f.streamId) == Prefixed(log, MarkPeerClosed(t, f.streamId)) {
      MarkPeerClosedAppends(log, t, f.streamId);
    }
  }

  lemma HandleDataAppends(log: Output, t: Turn, f: Frame, closes: bool)
    requires f.streamId in t.mux.streams
    ensures HandleData(Prefixed(log, t), f, closes) == Prefixed(log, HandleData(t, f, closes))
  {
    hide Refuse, MarkPeerClosed;
    RefuseAppends(log, t, f.Violation(), Protocol);
    RefuseAppends(log, t, f.Violation(), FlowControl);
    forall events: seq<Event> ensures (log.events + t.out.events) + events == log.events + (t.out.events + events) {}
    forall t ensures MarkPeerClosed(Prefixed(log, t), f.streamId) == Prefixed(log, MarkPeerClosed(t, f.streamId)) {
      MarkPeerClosedAppends(log, t, f.streamId);
    }
  }

  lemma HandleAppends(log: Output, t: Turn, f: Frame)
    ensures var h := Handle(t, f);
            Handle(Prefixed(log, t), f) == if h.Ok? then Ok(Prefixed(log, h.value)) else h
  {
    hide Refuse, MarkPeerClosed, HandleOpen, HandleData;
    RefuseAppends(log, t, f.Violation(), Protocol);
    RefuseAppends(log, t, f.Violation(), FlowControl);
    MarkPeerClosedAppends(log, t, f.streamId);
    HandleOpenAppends(log, t, f);
    if f.streamId in t.mux.streams {
      HandleDataAppends(log, t, f, false);
      HandleDataAppends(log, t, f, true);
    }
    forall events: seq<Event> ensures (log.events + t.out.events) + events == log.events + (t.out.events + events) {}
    forall frames: seq<Frame> ensures (log.frames + t.out.frames) + frames == log.frames + (t.out.frames + frames) {}
    forall ids: seq<U32> ensures (log.writable + t.out.writable) + ids == log.writable + (t.out.writable + ids) {}
  }

  /** A read's output does not depend on what was output before it. */
  lemma {:induction false} ScanAppends(log: Output, mux: Mux, skip: nat, buf: Bytes, out: Output)
    ensures var h := Scan(mux, skip, buf, out);
            Scan(mux, skip, buf, Append(log, out)) == h.(out := Append(log, h.out))
    decreases |buf|
  {
    hide Refuse, Handle, Parse, Append;
    if skip > 0 {
      if |buf| > skip {
        ScanAppends(log, mux, 0, buf[skip..], out);
      }
    } else if |buf| >= HEADER_LEN {
      if Reserved(HeaderFlags(buf)) {
        if HeaderStream(buf) != 0 {
          RefuseAppends(log, Turn(mux, out), HeaderViolation(buf), Protocol);
          var t := Refuse(Turn(mux, out), HeaderViolation(buf), Protocol);
          ScanAppends(log, t.mux, HeaderLength(buf), buf[HEADER_LEN..], t.out);
        }
      } else if Parse(buf).Got? {
        HandleAppends(log, Turn(mux, out), Parse(buf).frame);
        var h := Handle(Turn(mux, out), Parse(buf).frame);
        if h.Ok? {
          ScanAppends(log, h.value.mux, 0, Parse(buf).rest, h.value.out);
        }
      }
    }
  }
}
