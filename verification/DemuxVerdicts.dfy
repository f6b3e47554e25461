/**
 What becomes of a carrier stream is decided by the flags and payloads of its own
 frames: which frames it lives through, which one ends it and how, what is
 delivered, granted, answered and reported for it, and what stream zero answers.
 */
module DemuxVerdicts {
  import opened Outcomes
  import opened Wire
  import opened Flow
  import opened Demux
  import opened DemuxIsolation
  import K = ListenerLedger
  import P = Responses
  import S = ResponseSplits

  // ------------------------------------------------------------ what frames say

  /** Of a well-formed frame on a stream the dialer opened. */
  predicate Proper(f: Frame) {
    || f.flags == FLAG_DATA || f.flags == FLAG_CLOSE || f.flags == FLAG_DATA + FLAG_CLOSE || f.flags == FLAG_RESET
    || (f.flags == FLAG_WINDOW && |f.payload| == 4)
  }

  predicate IsData(f: Frame) {
    f.flags == FLAG_DATA || f.flags == FLAG_DATA + FLAG_CLOSE
  }

  function DataOf(frames: seq<Frame>): seq<Bytes> {
    if frames == [] then [] else (if IsData(frames[0]) then [frames[0].payload] else []) + DataOf(frames[1..])
  }

  /** Credits of the WINDOW frames, in order. */
  function CreditsOf(frames: seq<Frame>): seq<(U32, U32)> {
    if frames == [] then []
    else (if frames[0].flags == FLAG_WINDOW && |frames[0].payload| == 4
          then [(frames[0].streamId, FromBe32(frames[0].payload))] else [])
         + CreditsOf(frames[1..])
  }

  predicate Alone(frames: seq<Frame>, id: U32) {
    id != 0 && forall i :: 0 <= i < |frames| ==> frames[i].streamId == id
  }

  /** The end a frame brings a live stream, from its flags, its payload and what the stream can take. */
  predicate EndFits(p: Parsers, s: CarrierStream, f: Frame, end: StreamEnd) {
    var fits := |f.payload| <= s.window.credit;
    var decodes := FeedData(p, s.assembler, f.payload).Ok?;
    && (end == ByClose <==> f.flags == FLAG_CLOSE || (f.flags == FLAG_DATA + FLAG_CLOSE && fits && decodes))
    && (end == ByReset(ProtocolError) <==>
          !Proper(f) || (f.flags == FLAG_RESET && f.payload != [] && f.payload[0] == RESET_PROTOCOL_ERROR))
    && (end == ByReset(FlowControlError) <==>
          || (IsData(f) && !fits)
          || (f.flags == FLAG_RESET && f.payload != [] && f.payload[0] == RESET_FLOW_CONTROL_ERROR))
    && (end == ByReset(Unspecified) <==>
          || (IsData(f) && fits && !decodes)
          || (f.flags == FLAG_RESET
              && (f.payload == [] || f.payload[0] !in [RESET_PROTOCOL_ERROR, RESET_FLOW_CONTROL_ERROR])))
  }

  /** The code of the RESET that answers the frame that ended a stream, if one is due. */
  function CodesFor(s: CarrierStream, f: Frame): Bytes {
    if !Proper(f) then [RESET_PROTOCOL_ERROR]
    else if IsData(f) && |f.payload| > s.window.credit then [RESET_FLOW_CONTROL_ERROR]
    else []
  }

  /** Frames a stream that is not there refuses: all but a CLOSE or a RESET. */
  function Strays(frames: seq<Frame>): seq<Frame> {
    if frames == [] then []
    else (if frames[0].flags != FLAG_CLOSE && frames[0].flags != FLAG_RESET then [frames[0]] else [])
         + Strays(frames[1..])
  }

  function Violations(frames: seq<Frame>): seq<FrameViolation> {
    seq(|frames|, i requires 0 <= i < |frames| => frames[i].Violation())
  }

  /** One RESET with each code. */
  function ResetsFor(id: U32, codes: Bytes): seq<Frame> {
    seq(|codes|, i requires 0 <= i < |codes| => ResetFrame(id, codes[i]))
  }

  function Refusals(id: U32, frames: seq<Frame>): seq<Frame> {
    seq(|frames|, i requires 0 <= i < |frames| => ResetFrame(id, RESET_PROTOCOL_ERROR))
  }

  // ------------------------------------------------------------ one frame

  /** A frame a stream lives through is DATA that fits and decodes, or a WINDOW. */
  lemma LiveStep(p: Parsers, t: Turn, f: Frame)
    requires StreamsValid(t.streams) && f.streamId in t.streams && f.streamId in Route(p, t, f).streams
    ensures var id, t' := f.streamId, Route(p, t, f);
            var s := t.streams[id];
            && (f.flags == FLAG_DATA || (f.flags == FLAG_WINDOW && |f.payload| == 4))
            && t'.out.grants == t.out.grants + CreditsOf([f])
            && t'.out.violations == t.out.violations
            && (f.flags == FLAG_WINDOW ==> t'.streams == t.streams && t'.out.events == t.out.events)
            && (f.flags == FLAG_DATA ==>
                  && |f.payload| <= s.window.credit && FeedData(p, s.assembler, f.payload).Ok?
                  && t'.streams[id].assembler == FeedData(p, s.assembler, f.payload).value.next
                  && t'.out.events == t.out.events + Tag(id, FeedData(p, s.assembler, f.payload).value.events))
  {
    hide FeedData, Assembler.Valid, WithoutWindows, Tag;
    var id := f.streamId;
    var s := t.streams[id];
    assert CreditsOf([f]) == (if f.flags == FLAG_WINDOW && |f.payload| == 4 then [(id, FromBe32(f.payload))] else []);
    if s.window.Admits(|f.payload|) && FeedData(p, s.assembler, f.payload).Ok? {
      FeedDataAccounts(p, s.assembler, f.payload);
    }
    assert t.out.grants + [] == t.out.grants;
  }

  /** Credit is conserved by a frame the stream lives through, and only WINDOWs are sent for it. */
  lemma LiveCredit(p: Parsers, t: Turn, f: Frame)
    requires StreamsValid(t.streams) && f.streamId in t.streams && f.streamId in Route(p, t, f).streams
    ensures var id, t' := f.streamId, Route(p, t, f);
            && t'.streams[id].window.credit + (if IsData(f) then |f.payload| else 0) + K.Granted(t.out.emits, id)
               == t.streams[id].window.credit + K.Granted(t'.out.emits, id)
            && WithoutWindows(t'.out.emits, id) == WithoutWindows(t.out.emits, id)
  {
    hide FeedData, Assembler.Valid, WithoutWindows, K.Granted, Tag;
    LiveStep(p, t, f);
    if f.flags == FLAG_DATA {
      var id := f.streamId;
      var s := t.streams[id];
      var r := FeedData(p, s.assembler, f.payload).value;
      FeedDataAccounts(p, s.assembler, f.payload);
      var (window, grant) := s.window.Debit(|f.payload|).Consume(r.autoConsumed);
      if grant.Some? {
        Be32RoundTrip(grant.value);
        K.FrameNoted(t.out.emits, WindowFrame(id, grant.value), id);
        WindowDropped(t.out.emits, id, grant.value);
      } else {
        assert t.out.emits + [] == t.out.emits;
      }
    }
  }

  function Kept(f: Frame, id: U32): seq<Frame> {
    if f.streamId != id || !Grants(f.flags) then [f] else []
  }

  lemma WithoutFirst(frames: seq<Frame>, id: U32)
    requires frames != []
    ensures WithoutWindows(frames, id) == Kept(frames[0], id) + WithoutWindows(frames[1..], id)
  {
  }

  lemma WithoutNone(id: U32)
    ensures WithoutWindows([], id) == []
  {
  }

  lemma {:induction false} WithoutAppend(frames: seq<Frame>, more: seq<Frame>, id: U32)
    ensures WithoutWindows(frames + more, id) == WithoutWindows(frames, id) + WithoutWindows(more, id)
    decreases |frames|
  {
    hide WithoutWindows, Kept;
    if frames == [] {
      WithoutNone(id);
      assert frames + more == more;
    } else {
      var all := frames + more;
      assert all[1..] == frames[1..] + more && all[0] == frames[0];
      WithoutAppend(frames[1..], more, id);
      WithoutFirst(frames, id);
      WithoutFirst(all, id);
      var one, a, b := Kept(frames[0], id), WithoutWindows(frames[1..], id), WithoutWindows(more, id);
      assert one + (a + b) == (one + a) + b;
    }
  }

  lemma WindowDropped(frames: seq<Frame>, id: U32, g: U32)
    ensures WithoutWindows(frames + [WindowFrame(id, g)], id) == WithoutWindows(frames, id)
  {
    hide WithoutWindows;
    var one := [WindowFrame(id, g)];
    WithoutAppend(frames, one, id);
    WithoutFirst(one, id);
    WithoutNone(id);
    assert one[1..] == [];
  }

  /** What the last frame of a stream delivers before its End. */
  function LastWords(p: Parsers, s: CarrierStream, f: Frame): seq<StreamEvent> {
    if f.flags == FLAG_DATA + FLAG_CLOSE && |f.payload| <= s.window.credit && FeedData(p, s.assembler, f.payload).Ok?
    then FeedData(p, s.assembler, f.payload).value.events
    else []
  }

  predicate EndsWith(p: Parsers, s: CarrierStream, f: Frame, before: Output, after: Output, end: StreamEnd) {
    var id := f.streamId;
    && EndFits(p, s, f, end)
    && after.events == before.events + Tag(id, LastWords(p, s, f)) + [(id, StreamEvent(EndItem(end), 0))]
    && after.grants == before.grants
    && after.emits == WithoutWindows(before.emits, id) + ResetsFor(id, CodesFor(s, f))
    && after.violations == before.violations + if Proper(f) then [] else [f.Violation()]
  }

  lemma RejectEnds(p: Parsers, t: Turn, f: Frame)
    requires f.streamId in t.streams && !Proper(f)
    ensures EndsWith(p, t.streams[f.streamId], f, t.out, Reject(t, f).out, ByReset(ProtocolError))
  {
    hide FeedData, WithoutWindows;
    assert ResetsFor(f.streamId, [RESET_PROTOCOL_ERROR]) == [ResetFrame(f.streamId, RESET_PROTOCOL_ERROR)];
    assert t.out.events + Tag(f.streamId, []) == t.out.events;
  }

  lemma FinishEnds(p: Parsers, t: Turn, f: Frame, end: StreamEnd)
    requires f.streamId in t.streams && Proper(f)
    requires EndFits(p, t.streams[f.streamId], f, end)
    requires CodesFor(t.streams[f.streamId], f) == [] && LastWords(p, t.streams[f.streamId], f) == []
    ensures EndsWith(p, t.streams[f.streamId], f, t.out, Finish(t, f.streamId, end).out, end)
  {
    hide FeedData, WithoutWindows, EndFits, CodesFor, LastWords;
    assert t.out.events + Tag(f.streamId, []) == t.out.events;
    assert WithoutWindows(t.out.emits, f.streamId) + ResetsFor(f.streamId, [])
           == WithoutWindows(t.out.emits, f.streamId);
    assert t.out.violations + [] == t.out.violations;
  }

  lemma DataEnds(p: Parsers, t: Turn, f: Frame) returns (end: StreamEnd)
    requires StreamsValid(t.streams) && f.streamId in t.streams && f.streamId !in RouteData(p, t, f).streams
    requires IsData(f)
    ensures EndsWith(p, t.streams[f.streamId], f, t.out, RouteData(p, t, f).out, end)
  {
    hide FeedData, Assembler.Valid, WithoutWindows, Tag;
    var id := f.streamId;
    var s := t.streams[id];
    if !s.window.Admits(|f.payload|) {
      end := ByReset(FlowControlError);
      assert ResetsFor(id, [RESET_FLOW_CONTROL_ERROR]) == [ResetFrame(id, RESET_FLOW_CONTROL_ERROR)];
      NothingTagged(id, t.out.events);
      assert t.out.violations + [] == t.out.violations;
    } else if FeedData(p, s.assembler, f.payload).Err? {
      end := ByReset(Unspecified);
      FinishEnds(p, t, f, end);
    } else {
      end := ByClose;
      CloseEnds(p, t, f);
    }
  }

  lemma NothingTagged(id: U32, events: seq<(U32, StreamEvent)>)
    ensures events + Tag(id, []) == events
  {
  }

  lemma CloseEnds(p: Parsers, t: Turn, f: Frame)
    requires StreamsValid(t.streams) && f.streamId in t.streams && f.flags == FLAG_DATA + FLAG_CLOSE
    requires |f.payload| <= t.streams[f.streamId].window.credit
    requires FeedData(p, t.streams[f.streamId].assembler, f.payload).Ok?
    ensures EndsWith(p, t.streams[f.streamId], f, t.out, RouteData(p, t, f).out, ByClose)
  {
    hide FeedData, Assembler.Valid, WithoutWindows, Tag;
    var id := f.streamId;
    var s := t.streams[id];
    var r := FeedData(p, s.assembler, f.payload).value;
    FeedDataAccounts(p, s.assembler, f.payload);
    var (window, grant) := s.window.Debit(|f.payload|).Consume(r.autoConsumed);
    if grant.Some? {
      WindowDropped(t.out.emits, id, grant.value);
    } else {
      assert t.out.emits + [] == t.out.emits;
    }
    assert WithoutWindows(t.out.emits, id) + ResetsFor(id, []) == WithoutWindows(t.out.emits, id);
    assert t.out.violations + [] == t.out.violations;
  }

  /** The frame that ends a stream. */
  lemma EndStep(p: Parsers, t: Turn, f: Frame) returns (end: StreamEnd)
    requires StreamsValid(t.streams) && f.streamId in t.streams && f.streamId !in Route(p, t, f).streams
    ensures EndsWith(p, t.streams[f.streamId], f, t.out, Route(p, t, f).out, end)
  {
    hide FeedData, Assembler.Valid, RouteData, Reject, Finish, EndsWith;
    if !Proper(f) {
      end := ByReset(ProtocolError);
      RejectEnds(p, t, f);
    } else if IsData(f) {
      end := DataEnds(p, t, f);
    } else if f.flags == FLAG_CLOSE {
      end := ByClose;
      FinishEnds(p, t, f, end);
    } else {
      end := ByReset(ReasonOf(f.payload));
      FinishEnds(p, t, f, end);
    }
  }

  // ------------------------------------------------------------ a stream's life

  /** The stream is there before, between and after the frames. */
  predicate LivesThrough(p: Parsers, t: Turn, frames: seq<Frame>, id: U32)
    requires StreamsValid(t.streams)
    decreases |frames|
  {
    && id in t.streams
    && if frames == [] then true
       else
         RouteValid(p, t, frames[0]);
         LivesThrough(p, Route(p, t, frames[0]), frames[1..], id)
  }

  /** What a stream is while it lives: what was fed to its assembler, delivered, and granted. */
  predicate Carried(p: Parsers, before: Turn, frames: seq<Frame>, after: Turn, id: U32) {
    && id in before.streams && id in after.streams
    && (forall i :: 0 <= i < |frames| ==>
          frames[i].flags == FLAG_DATA || (frames[i].flags == FLAG_WINDOW && |frames[i].payload| == 4))
    && var fed := S.FeedAll(p, before.streams[id].assembler, DataOf(frames));
       && fed.Some? && fed.value.0 == after.streams[id].assembler
       && after.out.events == before.out.events + Tag(id, fed.value.1)
       && after.out.grants == before.out.grants + CreditsOf(frames)
       && after.out.violations == before.out.violations
       && WithoutWindows(after.out.emits, id) == WithoutWindows(before.out.emits, id)
       && after.streams[id].window.credit + |Flatten(DataOf(frames))| + K.Granted(before.out.emits, id)
          == before.streams[id].window.credit + K.Granted(after.out.emits, id)
  }

  lemma CarriedNothing(p: Parsers, t: Turn, id: U32)
    requires id in t.streams
    ensures Carried(p, t, [], t, id)
  {
    hide K.Granted, WithoutWindows;
    NothingTagged(id, t.out.events);
    assert t.out.grants + [] == t.out.grants;
  }

  lemma DataOfFirst(frames: seq<Frame>)
    requires frames != []
    ensures DataOf(frames) == (if IsData(frames[0]) then [frames[0].payload] else []) + DataOf(frames[1..])
    ensures IsData(frames[0]) ==> DataOf(frames)[1..] == DataOf(frames[1..])
    ensures |Flatten(DataOf(frames))|
            == (if IsData(frames[0]) then |frames[0].payload| else 0) + |Flatten(DataOf(frames[1..]))|
    ensures CreditsOf(frames) == CreditsOf([frames[0]]) + CreditsOf(frames[1..])
  {
    assert [frames[0]][1..] == [];
    if IsData(frames[0]) {
      assert ([frames[0].payload] + DataOf(frames[1..]))[1..] == DataOf(frames[1..]);
    } else {
      assert [] + DataOf(frames[1..]) == DataOf(frames[1..]);
    }
  }

  lemma TagAppend(id: U32, a: seq<StreamEvent>, b: seq<StreamEvent>)
    ensures Tag(id, a + b) == Tag(id, a) + Tag(id, b)
  {
  }

  lemma CarriedStep(p: Parsers, t: Turn, frames: seq<Frame>, after: Turn, id: U32)
    requires StreamsValid(t.streams) && frames != [] && frames[0].streamId == id && id in t.streams
    requires Carried(p, Route(p, t, frames[0]), frames[1..], after, id)
    ensures Carried(p, t, frames, after, id)
  {
    hide FeedData, Assembler.Valid, Route, WithoutWindows, K.Granted, Tag, DataOf, CreditsOf, Flatten;
    var f, t1 := frames[0], Route(p, t, frames[0]);
    LiveStep(p, t, f);
    LiveCredit(p, t, f);
    DataOfFirst(frames);
    var rest := S.FeedAll(p, t1.streams[id].assembler, DataOf(frames[1..])).value;
    assert forall i :: 1 <= i < |frames| ==> frames[i] == frames[1..][i - 1];
    assert t.out.grants + (CreditsOf([f]) + CreditsOf(frames[1..]))
           == (t.out.grants + CreditsOf([f])) + CreditsOf(frames[1..]);
    if f.flags == FLAG_DATA {
      var r := FeedData(p, t.streams[id].assembler, f.payload).value;
      TagAppend(id, r.events, rest.1);
      assert t.out.events + (Tag(id, r.events) + Tag(id, rest.1))
             == (t.out.events + Tag(id, r.events)) + Tag(id, rest.1);
    } else {
      assert [] + DataOf(frames[1..]) == DataOf(frames[1..]);
    }
  }

  lemma {:induction false} LivedThrough(p: Parsers, t: Turn, frames: seq<Frame>, id: U32)
    requires StreamsValid(t.streams) && Alone(frames, id) && LivesThrough(p, t, frames, id)
    ensures RouteAll(p, t, frames).1.None? && Carried(p, t, frames, RouteAll(p, t, frames).0, id)
    decreases |frames|
  {
    hide Route, StreamsValid, Carried;
    if frames == [] {
      CarriedNothing(p, t, id);
    } else {
      RouteValid(p, t, frames[0]);
      LivedThrough(p, Route(p, t, frames[0]), frames[1..], id);
      CarriedStep(p, t, frames, RouteAll(p, t, frames).0, id);
    }
  }

  /** The frames a stream lives through, up to the one that ends it. */
  lemma {:induction false} LifeEnds(p: Parsers, t: Turn, frames: seq<Frame>, id: U32) returns (k: nat)
    requires StreamsValid(t.streams) && Alone(frames, id) && id in t.streams
    ensures k <= |frames| && LivesThrough(p, t, frames[..k], id)
    ensures var b := RouteAll(p, t, frames[..k]).0;
            && StreamsValid(b.streams) && RouteAll(p, b, frames[k..]) == RouteAll(p, t, frames)
            && (k < |frames| ==> id !in Route(p, b, frames[k]).streams)
    decreases |frames|
  {
    hide Route, StreamsValid;
    if frames == [] {
      k := 0;
    } else {
      RouteValid(p, t, frames[0]);
      var t1 := Route(p, t, frames[0]);
      if id !in t1.streams {
        k := 0;
        assert frames[..0] == [] && frames[0..] == frames;
      } else {
        var k1 := LifeEnds(p, t1, frames[1..], id);
        k := k1 + 1;
        assert frames[..k][1..] == frames[1..][..k1] && frames[..k][0] == frames[0];
        assert frames[k..] == frames[1..][k1..];
      }
    }
  }

  // ------------------------------------------------------------ a stream that is not there

  predicate Refused(before: Output, frames: seq<Frame>, after: Output, id: U32) {
    && after.events == before.events && after.grants == before.grants
    && after.emits == before.emits + Refusals(id, Strays(frames))
    && after.violations == before.violations + Violations(Strays(frames))
  }

  lemma StrayStep(p: Parsers, t: Turn, f: Frame)
    requires StreamsValid(t.streams) && f.streamId !in t.streams
    ensures Route(p, t, f).streams == t.streams && Refused(t.out, [f], Route(p, t, f).out, f.streamId)
  {
    hide RouteData, Finish, Assembler.Valid;
    assert [f][1..] == [];
    assert Strays([f]) == if f.flags != FLAG_CLOSE && f.flags != FLAG_RESET then [f] else [];
    assert Refusals(f.streamId, [f]) == [ResetFrame(f.streamId, RESET_PROTOCOL_ERROR)];
    assert Violations([f]) == [f.Violation()];
    assert t.streams - {f.streamId} == t.streams;
    assert t.out.events + [] == t.out.events;
    assert t.out.emits + [] == t.out.emits && t.out.violations + [] == t.out.violations;
  }

  lemma StraysFirst(id: U32, frames: seq<Frame>)
    requires frames != []
    ensures Refusals(id, Strays(frames)) == Refusals(id, Strays([frames[0]])) + Refusals(id, Strays(frames[1..]))
    ensures Violations(Strays(frames)) == Violations(Strays([frames[0]])) + Violations(Strays(frames[1..]))
  {
    assert [frames[0]][1..] == [];
    assert Strays(frames) == Strays([frames[0]]) + Strays(frames[1..]);
  }

  /** Of a stream that is not there every stray frame is answered and reported, and nothing else happens. */
  lemma {:induction false} StraysAreRefused(p: Parsers, t: Turn, frames: seq<Frame>, id: U32)
    requires StreamsValid(t.streams) && Alone(frames, id) && id !in t.streams
    ensures RouteAll(p, t, frames).1.None? && RouteAll(p, t, frames).0.streams == t.streams
    ensures Refused(t.out, frames, RouteAll(p, t, frames).0.out, id)
    decreases |frames|
  {
    hide Route, StreamsValid, Refusals, Violations;
    if frames == [] {
      NothingRefused(t.out, id);
    } else {
      var t1 := Route(p, t, frames[0]);
      StrayStep(p, t, frames[0]);
      StraysAreRefused(p, t1, frames[1..], id);
      StraysFirst(id, frames);
      var t' := RouteAll(p, t1, frames[1..]).0;
      var f, rest := Refusals(id, Strays([frames[0]])), Refusals(id, Strays(frames[1..]));
      assert t.out.emits + (f + rest) == (t.out.emits + f) + rest;
      var v, more := Violations(Strays([frames[0]])), Violations(Strays(frames[1..]));
      assert t.out.violations + (v + more) == (t.out.violations + v) + more;
    }
  }

  lemma NothingRefused(out: Output, id: U32)
    ensures Refused(out, [], out, id)
  {
    assert out.emits + [] == out.emits && out.violations + [] == out.violations;
  }

  // ------------------------------------------------------------ the verdict

  lemma {:induction false} FilterAlone(frames: seq<Frame>, id: U32)
    requires id != 0
    ensures Alone(Filter(frames, FrameOf(id)), id)
  {
    if frames != [] {
      FilterAlone(frames[1..], id);
    }
  }

  lemma AloneParts(frames: seq<Frame>, k: nat, id: U32)
    requires Alone(frames, id) && k <= |frames|
    ensures Alone(frames[..k], id) && Alone(frames[k..], id)
  {
  }

  /** A carrier that knows only this stream, before anything is said. */
  function Only(c: Carrier, id: U32): Turn {
    Turn(Keep(c.streams, id), NO_OUTPUT)
  }

  lemma FedAlone(p: Parsers, c: Carrier, data: Bytes, id: U32)
    requires StreamsValid(c.streams) && id != 0 && Feed(p, c, data).1.Ok?
    ensures var mine := Filter(Drain(c.buf + data).frames, FrameOf(id));
            && StreamsValid(Only(c, id).streams) && Alone(mine, id)
            && RouteAll(p, Only(c, id), mine)
               == (Turn(Keep(Feed(p, c, data).0.streams, id), Project(Feed(p, c, data).1.value, id)), None)
  {
    hide RouteAll, Filter, Drain, StreamsValid;
    var frames := Drain(c.buf + data).frames;
    FilterAlone(frames, id);
    StreamsAreIsolated(p, Turn(c.streams, NO_OUTPUT), frames, id);
    NothingProjected(id);
  }

  lemma NothingProjected(id: U32)
    ensures Project(NO_OUTPUT, id) == NO_OUTPUT
  {
  }

  /**
   One call's frames for a live stream, judged by their flags and payloads. The first
   `k` are DATA or WINDOW: they fit, decode, and are delivered in order, their credits
   are the grants reported, and the window is paid back by the WINDOWs sent. If there
   is a frame after them it ends the stream with the one end its flags, payload, the
   window and the assembler allow; the RESET and the record it is due, and those of
   each stray frame that follows, are all that is sent and reported for the stream.
   */
  lemma StreamsEndAsFramed(p: Parsers, c: Carrier, data: Bytes, id: U32) returns (k: nat, end: StreamEnd)
    requires StreamsValid(c.streams) && id != 0 && id in c.streams && Feed(p, c, data).1.Ok?
    ensures StreamsValid(Only(c, id).streams)
    ensures var mine := Filter(Drain(c.buf + data).frames, FrameOf(id));
            var after, out := Feed(p, c, data).0.streams, Project(Feed(p, c, data).1.value, id);
            && k <= |mine|
            && var life := RouteAll(p, Only(c, id), mine[..k]).0;
               && Carried(p, Only(c, id), mine[..k], life, id)
               && out.grants == CreditsOf(mine[..k])
               && if k == |mine| then
                    id in after && after[id] == life.streams[id] && out == life.out
                  else
                    var last, f, strays := life.streams[id], mine[k], Strays(mine[k + 1..]);
                    && id !in after && EndFits(p, last, f, end)
                    && out.events == life.out.events + Tag(id, LastWords(p, last, f))
                                     + [(id, StreamEvent(EndItem(end), 0))]
                    && out.emits == ResetsFor(id, CodesFor(last, f)) + Refusals(id, strays)
                    && out.violations == (if Proper(f) then [] else [f.Violation()]) + Violations(strays)
  {
    hide Feed, RouteAll, Route, Filter, Drain, StreamsValid, LivesThrough, K.Granted, Strays, DataOf, CreditsOf;
    var mine := Filter(Drain(c.buf + data).frames, FrameOf(id));
    var t := Only(c, id);
    FedAlone(p, c, data, id);
    k := LifeEnds(p, t, mine, id);
    AloneParts(mine, k, id);
    LivedThrough(p, t, mine[..k], id);
    var life := RouteAll(p, t, mine[..k]).0;
    assert NO_OUTPUT.grants + CreditsOf(mine[..k]) == CreditsOf(mine[..k]);
    if k < |mine| {
      end := EndStep(p, life, mine[k]);
      OneMore(p, life, mine, k, id);
      var last, f := Route(p, life, mine[k]), mine[k];
      assert WithoutWindows(life.out.emits, id) == [];
      assert [] + ResetsFor(id, CodesFor(life.streams[id], f)) == ResetsFor(id, CodesFor(life.streams[id], f));
      assert [] + (if Proper(f) then [] else [f.Violation()]) == (if Proper(f) then [] else [f.Violation()]);
    } else {
      end := ByClose;
      NoneLeft(p, life, mine);
    }
  }

  lemma NoneLeft(p: Parsers, t: Turn, frames: seq<Frame>)
    requires StreamsValid(t.streams)
    ensures RouteAll(p, t, frames[|frames|..]) == (t, None)
  {
  }

  /** The frame that ends the stream and the strays after it. */
  lemma OneMore(p: Parsers, t: Turn, frames: seq<Frame>, k: nat, id: U32)
    requires StreamsValid(t.streams) && Alone(frames, id) && k < |frames| && id !in Route(p, t, frames[k]).streams
    ensures var t1 := Route(p, t, frames[k]);
            && RouteAll(p, t, frames[k..]).0.streams == t1.streams
            && Refused(t1.out, frames[k + 1..], RouteAll(p, t, frames[k..]).0.out, id)
  {
    hide Route, StreamsValid, Refused;
    RouteValid(p, t, frames[k]);
    assert frames[k..][1..] == frames[k + 1..];
    StraysAreRefused(p, Route(p, t, frames[k]), frames[k + 1..], id);
  }

  /** Frames for a stream that is not there: nothing but one RESET and one record for each stray. */
  lemma UnknownStreamsAreRefused(p: Parsers, c: Carrier, data: Bytes, id: U32)
    requires StreamsValid(c.streams) && id != 0 && id !in c.streams && Feed(p, c, data).1.Ok?
    ensures var strays := Strays(Filter(Drain(c.buf + data).frames, FrameOf(id)));
            var out := Project(Feed(p, c, data).1.value, id);
            && id !in Feed(p, c, data).0.streams
            && out.events == [] && out.grants == []
            && out.emits == Refusals(id, strays) && out.violations == Violations(strays)
  {
    hide Feed, RouteAll, Filter, Drain, StreamsValid, Strays;
    var mine := Filter(Drain(c.buf + data).frames, FrameOf(id));
    FedAlone(p, c, data, id);
    StraysAreRefused(p, Only(c, id), mine, id);
    assert id in Keep(Feed(p, c, data).0.streams, id) <==> id in Feed(p, c, data).0.streams;
  }

  // ------------------------------------------------------------ stream zero

  /** The only frames stream zero takes. */
  predicate IsControl(f: Frame, flag: Byte) {
    f.streamId == 0 && f.flags == flag && |f.payload| == 8
  }

  predicate Breaks(f: Frame) {
    f.streamId == 0 && !IsControl(f, FLAG_PING) && !IsControl(f, FLAG_PONG)
  }

  function NoncesOf(frames: seq<Frame>, flag: Byte): seq<Bytes> {
    if frames == [] then []
    else (if IsControl(frames[0], flag) then [frames[0].payload] else []) + NoncesOf(frames[1..], flag)
  }

  predicate Answered(before: Output, frames: seq<Frame>, after: Output) {
    && after.pongs == before.pongs + P.PongsFor(NoncesOf(frames, FLAG_PING))
    && after.inboundPongs == before.inboundPongs + NoncesOf(frames, FLAG_PONG)
  }

  lemma RouteSaysNoPong(p: Parsers, t: Turn, f: Frame)
    requires StreamsValid(t.streams) && f.streamId != 0
    ensures Route(p, t, f).out.pongs == t.out.pongs && Route(p, t, f).out.inboundPongs == t.out.inboundPongs
  {
    hide FeedData, Assembler.Valid, WithoutWindows;
    if f.streamId in t.streams && t.streams[f.streamId].window.Admits(|f.payload|)
       && FeedData(p, t.streams[f.streamId].assembler, f.payload).Ok? {
      FeedDataAccounts(p, t.streams[f.streamId].assembler, f.payload);
    }
  }

  lemma OneNonce(f: Frame, flag: Byte)
    ensures NoncesOf([f], flag) == if IsControl(f, flag) then [f.payload] else []
  {
    assert [f][1..] == [];
  }

  lemma NoncesFirst(frames: seq<Frame>, flag: Byte)
    requires frames != []
    ensures NoncesOf(frames, flag) == NoncesOf([frames[0]], flag) + NoncesOf(frames[1..], flag)
  {
    OneNonce(frames[0], flag);
  }

  lemma AnsweredFirst(before: Output, mid: Output, frames: seq<Frame>, after: Output)
    requires frames != [] && Answered(before, [frames[0]], mid) && Answered(mid, frames[1..], after)
    ensures Answered(before, frames, after)
  {
    hide NoncesOf;
    NoncesFirst(frames, FLAG_PING);
    NoncesFirst(frames, FLAG_PONG);
    var a, b := NoncesOf([frames[0]], FLAG_PING), NoncesOf(frames[1..], FLAG_PING);
    assert P.PongsFor(a + b) == P.PongsFor(a) + P.PongsFor(b);
    assert before.pongs + (P.PongsFor(a) + P.PongsFor(b)) == (before.pongs + P.PongsFor(a)) + P.PongsFor(b);
    var c, d := NoncesOf([frames[0]], FLAG_PONG), NoncesOf(frames[1..], FLAG_PONG);
    assert before.inboundPongs + (c + d) == (before.inboundPongs + c) + d;
  }

  lemma ControlStep(t: Turn, f: Frame)
    requires f.streamId == 0
    ensures RouteControl(t, f).None? <==> Breaks(f)
    ensures RouteControl(t, f).Some? ==>
              RouteControl(t, f).value.streams == t.streams && Answered(t.out, [f], RouteControl(t, f).value.out)
  {
    OneNonce(f, FLAG_PING);
    OneNonce(f, FLAG_PONG);
    assert P.PongsFor([f.payload]) == [Frame(0, FLAG_PONG, f.payload)];
    assert t.out.pongs + [] == t.out.pongs && t.out.inboundPongs + [] == t.out.inboundPongs;
  }

  lemma SilentStep(p: Parsers, t: Turn, f: Frame)
    requires StreamsValid(t.streams) && f.streamId != 0
    ensures Answered(t.out, [f], Route(p, t, f).out)
  {
    hide Route;
    RouteSaysNoPong(p, t, f);
    OneNonce(f, FLAG_PING);
    OneNonce(f, FLAG_PONG);
    assert t.out.pongs + [] == t.out.pongs && t.out.inboundPongs + [] == t.out.inboundPongs;
  }

  /** The violation that ends the tunnel: that of the first frame stream zero does not take. */
  function FirstBreak(frames: seq<Frame>): Option<FrameViolation> {
    if frames == [] then None
    else if Breaks(frames[0]) then Some(frames[0].Violation())
    else FirstBreak(frames[1..])
  }

  lemma {:induction false} ControlIsAnswered(p: Parsers, t: Turn, frames: seq<Frame>)
    requires StreamsValid(t.streams)
    ensures RouteAll(p, t, frames).1 == FirstBreak(frames)
    ensures FirstBreak(frames).None? ==> Answered(t.out, frames, RouteAll(p, t, frames).0.out)
    decreases |frames|
  {
    hide Route, StreamsValid, RouteControl, Answered, Breaks;
    if frames == [] {
      NothingAnswered(t.out);
    } else {
      var f := frames[0];
      if f.streamId != 0 {
        NotControl(f);
        RouteValid(p, t, f);
        SilentStep(p, t, f);
        ControlIsAnswered(p, Route(p, t, f), frames[1..]);
        if FirstBreak(frames).None? {
          AnsweredFirst(t.out, Route(p, t, f).out, frames, RouteAll(p, t, frames).0.out);
        }
      } else {
        ControlStep(t, f);
        if RouteControl(t, f).Some? {
          var t1 := RouteControl(t, f).value;
          ControlIsAnswered(p, t1, frames[1..]);
          if FirstBreak(frames).None? {
            AnsweredFirst(t.out, t1.out, frames, RouteAll(p, t, frames).0.out);
          }
        }
      }
    }
  }

  lemma NotControl(f: Frame)
    requires f.streamId != 0
    ensures !Breaks(f)
  {
  }

  lemma NothingAnswered(out: Output)
    ensures Answered(out, [], out)
  {
    assert out.pongs + [] == out.pongs && out.inboundPongs + [] == out.inboundPongs;
  }

  /**
   Stream zero: each PING with an eight-byte payload is answered by a PONG with the
   same, in order, each PONG's payload is reported, and any other frame on it, and
   nothing else but a reserved flag, fails the call and every later one.
   */
  lemma ControlFramesAreAnswered(p: Parsers, c: Carrier, data: Bytes)
    requires StreamsValid(c.streams) && c.fatal.None?
    ensures var d := Drain(c.buf + data);
            var (c', r) := Feed(p, c, data);
            && (r.Ok? <==> d.bad.None? && FirstBreak(d.frames).None?)
            && (r.Ok? ==>
                  && r.value.pongs == P.PongsFor(NoncesOf(d.frames, FLAG_PING))
                  && r.value.inboundPongs == NoncesOf(d.frames, FLAG_PONG))
            && (d.bad.None? && FirstBreak(d.frames).Some? ==>
                  r == Err(Protocol(FirstBreak(d.frames).value)) && c'.fatal == FirstBreak(d.frames))
            && (d.bad.Some? ==> r == Err(FrameFailure(ReservedFlag(d.bad.value))) && c'.fatal.None?)
  {
    hide RouteAll, Drain, StreamsValid;
    var d := Drain(c.buf + data);
    ControlIsAnswered(p, Turn(c.streams, NO_OUTPUT), d.frames);
    var nonces := NoncesOf(d.frames, FLAG_PING);
    assert [] + P.PongsFor(nonces) == P.PongsFor(nonces);
    assert [] + NoncesOf(d.frames, FLAG_PONG) == NoncesOf(d.frames, FLAG_PONG);
  }
}
