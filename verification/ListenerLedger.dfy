/**
 The listener's state read off its log alone. Over any bytes and local calls: a
 stream is live exactly when the log says so, its window is what was granted less
 what was received, and the high-water mark is the highest identifier ever taken.
 From these, what becomes of each frame is decided by numbers in the log.
 */
module ListenerLedger {
  import opened Outcomes
  import opened Wire
  import opened Flow
  import opened Listener
  import R = ListenerRuns

  // ------------------------------------------------------------ the log

  /** Credit given to the peer on a stream by WINDOW frames written. */
  function Granted(frames: seq<Frame>, id: U32): nat {
    if frames == [] then 0
    else
      var f := frames[|frames| - 1];
      Granted(frames[..|frames| - 1], id)
      + if f.streamId == id && f.flags == FLAG_WINDOW && |f.payload| == 4 then FromBe32(f.payload) else 0
  }

  /** Frames of one kind written for a stream. */
  function Count(frames: seq<Frame>, id: U32, flag: Byte): nat {
    if frames == [] then 0
    else
      var f := frames[|frames| - 1];
      Count(frames[..|frames| - 1], id, flag) + if f.streamId == id && f.flags == flag then 1 else 0
  }

  /** Bytes of a stream handed to the application. */
  function Received(events: seq<Event>, id: U32): nat {
    if events == [] then 0
    else
      var e := events[|events| - 1];
      Received(events[..|events| - 1], id) + if e.Data? && e.streamId == id then |e.bytes| else 0
  }

  function Refusals(refusals: seq<Refusal>, id: U32): nat {
    if refusals == [] then 0
    else
      var v := refusals[|refusals| - 1].violation;
      Refusals(refusals[..|refusals| - 1], id) + if v.Some? && v.value.streamId == id then 1 else 0
  }

  lemma FrameNoted(frames: seq<Frame>, f: Frame, id: U32)
    ensures Granted(frames + [f], id) == Granted(frames, id)
              + if f.streamId == id && f.flags == FLAG_WINDOW && |f.payload| == 4 then FromBe32(f.payload) else 0
    ensures Count(frames + [f], id, FLAG_CLOSE) == Count(frames, id, FLAG_CLOSE)
              + if f.streamId == id && f.flags == FLAG_CLOSE then 1 else 0
    ensures Count(frames + [f], id, FLAG_RESET) == Count(frames, id, FLAG_RESET)
              + if f.streamId == id && f.flags == FLAG_RESET then 1 else 0
  {
    assert (frames + [f])[..|frames|] == frames;
  }

  lemma EventNoted(events: seq<Event>, e: Event, id: U32)
    ensures Received(events + [e], id) == Received(events, id) + if e.Data? && e.streamId == id then |e.bytes| else 0
    ensures R.PhaseOf(events + [e], id)
            == if e.streamId == id then R.Advance(R.PhaseOf(events, id), e) else R.PhaseOf(events, id)
  {
    assert (events + [e])[..|events|] == events;
    R.PhaseAppend(events, e, id);
  }

  lemma RefusalNoted(refusals: seq<Refusal>, c: Class, v: FrameViolation, id: U32)
    ensures Refusals(refusals + [Refusal(c, Some(v))], id) == Refusals(refusals, id) + if v.streamId == id then 1 else 0
  {
    assert (refusals + [Refusal(c, Some(v))])[..|refusals|] == refusals;
  }

  // ------------------------------------------------------------ one stream's account

  datatype Account = Account(
    stream: Option<Stream>, phase: R.Phase, received: nat, granted: nat, closes: nat, resets: nat, refused: nat)

  function AccountOf(t: Turn, id: U32): Account {
    Account(if id in t.mux.streams then Some(t.mux.streams[id]) else None,
            R.PhaseOf(t.out.events, id), Received(t.out.events, id), Granted(t.out.frames, id),
            Count(t.out.frames, id, FLAG_CLOSE), Count(t.out.frames, id, FLAG_RESET), Refusals(t.out.refusals, id))
  }

  /**
   Opened and not reset by the peer or a refusal, not reset here (every RESET written
   answers a refusal), and not closed on both sides.
   */
  predicate Live(a: Account) {
    (a.phase == R.Reading || (a.phase == R.HalfClosed && a.closes == 0)) && a.resets == a.refused
  }

  predicate Adds(a: Account) {
    && (a.stream.Some? <==> Live(a))
    && (a.stream.Some? ==>
          && INITIAL_WINDOW + a.granted == a.stream.value.window.credit + a.received
          && (a.stream.value.localClosed <==> a.closes > 0)
          && (a.stream.value.peerClosed <==> a.phase == R.HalfClosed))
    && (a.phase == R.Unopened ==> a.granted == 0 && a.closes == 0 && a.received == 0 && a.resets == a.refused)
    && a.refused <= a.resets && a.closes <= 1
  }

  // ------------------------------------------------------------ identifiers taken

  function Larger(a: nat, b: nat): nat {
    if a < b then b else a
  }

  /** The highest identifier opened; zero if none. */
  function HighestOpened(events: seq<Event>): nat {
    if events == [] then 0
    else
      var e := events[|events| - 1];
      Larger(HighestOpened(events[..|events| - 1]), if e.Opened? then e.streamId else 0)
  }

  /** An OPEN turned away by policy: for the stream limit or its size. */
  predicate TurnedAway(r: Refusal) {
    r.violation.Some? && r.violation.value.flags % 2 == 1 && (r.kind == StreamLimit || r.kind == FlowControl)
  }

  function HighestTurnedAway(refusals: seq<Refusal>): nat {
    if refusals == [] then 0
    else
      var r := refusals[|refusals| - 1];
      Larger(HighestTurnedAway(refusals[..|refusals| - 1]), if TurnedAway(r) then r.violation.value.streamId else 0)
  }

  function HighestTaken(out: Output): nat {
    Larger(HighestOpened(out.events), HighestTurnedAway(out.refusals))
  }

  predicate HighOk(t: Turn) {
    && HighestTaken(t.out) == (if t.mux.highWater.None? then 0 else t.mux.highWater.value)
    && t.mux.highWater != Some(0)
  }

  lemma HighNoted(events: seq<Event>, e: Event)
    ensures HighestOpened(events + [e]) == Larger(HighestOpened(events), if e.Opened? then e.streamId else 0)
  {
    assert (events + [e])[..|events|] == events;
  }

  lemma TurnedNoted(refusals: seq<Refusal>, r: Refusal)
    ensures HighestTurnedAway(refusals + [r])
            == Larger(HighestTurnedAway(refusals), if TurnedAway(r) then r.violation.value.streamId else 0)
  {
    assert (refusals + [r])[..|refusals|] == refusals;
  }

  /** The mark is the highest: every identifier opened or turned away is at most it. */
  lemma {:induction false} OpenedIsTaken(events: seq<Event>, i: nat)
    requires i < |events| && events[i].Opened?
    ensures events[i].streamId <= HighestOpened(events)
    decreases |events|
  {
    if i < |events| - 1 {
      OpenedIsTaken(events[..|events| - 1], i);
    }
  }

  lemma {:induction false} TurnedIsTaken(refusals: seq<Refusal>, i: nat)
    requires i < |refusals| && TurnedAway(refusals[i])
    ensures refusals[i].violation.value.streamId <= HighestTurnedAway(refusals)
    decreases |refusals|
  {
    if i < |refusals| - 1 {
      TurnedIsTaken(refusals[..|refusals| - 1], i);
    }
  }

  /** The mark is itself such an identifier, or zero. */
  lemma {:induction false} HighestIsOpened(events: seq<Event>)
    ensures HighestOpened(events) > 0 ==>
              exists i :: 0 <= i < |events| && events[i].Opened? && events[i].streamId == HighestOpened(events)
    decreases |events|
  {
    if events != [] {
      var init := events[..|events| - 1];
      HighestIsOpened(init);
      if HighestOpened(events) == HighestOpened(init) > 0 {
        var i :| 0 <= i < |init| && init[i].Opened? && init[i].streamId == HighestOpened(init);
        assert events[i] == init[i];
      }
    }
  }

  lemma {:induction false} HighestIsTurned(refusals: seq<Refusal>)
    ensures HighestTurnedAway(refusals) > 0 ==>
              exists i :: 0 <= i < |refusals| && TurnedAway(refusals[i])
                          && refusals[i].violation.value.streamId == HighestTurnedAway(refusals)
    decreases |refusals|
  {
    if refusals != [] {
      var init := refusals[..|refusals| - 1];
      HighestIsTurned(init);
      if HighestTurnedAway(refusals) == HighestTurnedAway(init) > 0 {
        var i :| 0 <= i < |init| && TurnedAway(init[i])
                 && init[i].violation.value.streamId == HighestTurnedAway(init);
        assert refusals[i] == init[i];
      }
    }
  }

  /** Larger than every identifier the peer has taken so far. */
  predicate Newer(out: Output, id: U32) {
    && (forall i :: 0 <= i < |out.events| && out.events[i].Opened? ==> out.events[i].streamId < id)
    && (forall i :: 0 <= i < |out.refusals| && TurnedAway(out.refusals[i]) ==>
          out.refusals[i].violation.value.streamId < id)
  }

  lemma NewerIff(out: Output, id: U32)
    requires id > 0
    ensures Newer(out, id) <==> id > HighestTaken(out)
  {
    forall i | 0 <= i < |out.events| && out.events[i].Opened? { OpenedIsTaken(out.events, i); }
    forall i | 0 <= i < |out.refusals| && TurnedAway(out.refusals[i]) { TurnedIsTaken(out.refusals, i); }
    HighestIsOpened(out.events);
    HighestIsTurned(out.refusals);
  }

  // ------------------------------------------------------------ what every step keeps

  ghost predicate Ledger(t: Turn) {
    R.Inv(t) && HighOk(t) && forall id: U32 :: Adds(AccountOf(t, id))
  }

  lemma RefuseAdds(t: Turn, v: FrameViolation, c: Class, id: U32)
    requires Adds(AccountOf(t, id))
    ensures Adds(AccountOf(Refuse(t, v, c), id))
  {
    hide Granted, Count, Received, Refusals, R.PhaseOf, FromBe32;
    FrameNoted(t.out.frames, ResetFrame(v.streamId, Code(ReasonOf(c))), id);
    RefusalNoted(t.out.refusals, c, v, id);
    EventNoted(t.out.events, WasReset(v.streamId, ReasonOf(c)), id);
  }

  lemma MarkPeerClosedAdds(t: Turn, k: U32, id: U32)
    requires Adds(AccountOf(t, id))
    ensures Adds(AccountOf(MarkPeerClosed(t, k), id))
  {
    hide Granted, Count, Received, Refusals, R.PhaseOf;
    EventNoted(t.out.events, ReadClosed(k), id);
  }

  lemma OpenedAdds(t: Turn, f: Frame, t1: Turn, id: U32)
    requires Adds(AccountOf(t, id)) && R.PhaseOf(t.out.events, f.streamId) == R.Unopened
    requires |f.payload| <= INITIAL_WINDOW
    requires t1.out == t.out.(events := t.out.events + ([Opened(f.streamId)]
                              + if f.payload != [] || CarriesData(f.flags) then [Data(f.streamId, f.payload)] else []))
    requires var s := Stream(NEW_WINDOW.Debit(|f.payload|), |f.payload|, INITIAL_WINDOW, false, false);
             t1.mux.streams == t.mux.streams[f.streamId := s]
    ensures Adds(AccountOf(t1, id))
  {
    hide Granted, Count, Received, Refusals, R.PhaseOf;
    var k := f.streamId;
    var begun := t.out.events + [Opened(k)];
    EventNoted(t.out.events, Opened(k), id);
    EventNoted(begun, Data(k, f.payload), id);
    if f.payload != [] || CarriesData(f.flags) {
      assert t1.out.events == begun + [Data(k, f.payload)];
    } else {
      assert t1.out.events == begun;
    }
  }

  lemma HandleOpenAdds(t: Turn, f: Frame, id: U32)
    requires R.Inv(t) && Adds(AccountOf(t, id))
    ensures Adds(AccountOf(HandleOpen(t, f), id))
  {
    hide AccountOf, Adds, Refuse, MarkPeerClosed;
    var raised := t.(mux := t.mux.(highWater := Some(f.streamId)));
    SameAccount(t, raised, id);
    RefuseAdds(t, f.Violation(), Protocol, id);
    RefuseAdds(raised, f.Violation(), StreamLimit, id);
    RefuseAdds(raised, f.Violation(), FlowControl, id);
    if FreshId(t.mux, f.streamId) && |t.mux.streams| < t.mux.limits.maxStreams && |f.payload| <= INITIAL_WINDOW {
      var s := Stream(NEW_WINDOW.Debit(|f.payload|), |f.payload|, INITIAL_WINDOW, false, false);
      var events := [Opened(f.streamId)]
        + if f.payload != [] || CarriesData(f.flags) then [Data(f.streamId, f.payload)] else [];
      var t1 := Turn(raised.mux.(streams := raised.mux.streams[f.streamId := s]),
                     t.out.(events := t.out.events + events));
      FreshIsUnopened(t, f.streamId);
      OpenedAdds(t, f, t1, id);
      MarkPeerClosedAdds(t1, f.streamId, id);
    }
  }

  lemma FreshIsUnopened(t: Turn, id: U32)
    requires R.Inv(t) && FreshId(t.mux, id)
    ensures R.PhaseOf(t.out.events, id) == R.Unopened
  {
    assert !R.Used(t.mux, id);
  }

  lemma SameAccount(t: Turn, t': Turn, id: U32)
    requires t'.mux.streams == t.mux.streams && t'.out == t.out
    ensures AccountOf(t', id) == AccountOf(t, id)
  {
  }

  lemma HandleDataAdds(t: Turn, f: Frame, closes: bool, id: U32)
    requires f.streamId in t.mux.streams && Adds(AccountOf(t, id))
    ensures Adds(AccountOf(HandleData(t, f, closes), id))
  {
    hide Granted, Count, Received, Refusals, R.PhaseOf, Refuse, MarkPeerClosed;
    RefuseAdds(t, f.Violation(), Protocol, id);
    RefuseAdds(t, f.Violation(), FlowControl, id);
    var s := t.mux.streams[f.streamId];
    if !s.peerClosed && s.window.Admits(|f.payload|) {
      var s' := s.(window := s.window.Debit(|f.payload|), debited := s.debited + |f.payload|);
      var t' := Turn(t.mux.(streams := t.mux.streams[f.streamId := s']),
                     t.out.(events := t.out.events + [Data(f.streamId, f.payload)]));
      EventNoted(t.out.events, Data(f.streamId, f.payload), id);
      assert Adds(AccountOf(t', id));
      MarkPeerClosedAdds(t', f.streamId, id);
    }
  }

  lemma HandleResetAdds(t: Turn, f: Frame, id: U32)
    requires f.streamId in t.mux.streams && Adds(AccountOf(t, id))
    ensures Adds(AccountOf(HandleReset(t, f), id))
  {
    hide Granted, Count, Received, Refusals, R.PhaseOf, Refuse;
    RefuseAdds(t, f.Violation(), Protocol, id);
    if |f.payload| == 1 {
      EventNoted(t.out.events, WasReset(f.streamId, ReasonFromWire(f.payload[0])), id);
    }
  }

  lemma HandleWindowAdds(t: Turn, f: Frame, id: U32)
    requires f.streamId in t.mux.streams && Adds(AccountOf(t, id))
    ensures Adds(AccountOf(HandleWindow(t, f), id))
  {
    hide Granted, Count, Received, Refusals, R.PhaseOf, Refuse;
    RefuseAdds(t, f.Violation(), Protocol, id);
    RefuseAdds(t, f.Violation(), FlowControl, id);
  }

  lemma PongAdds(t: Turn, payload: Bytes, id: U32)
    requires Adds(AccountOf(t, id))
    ensures Adds(AccountOf(t.(out := t.out.(frames := t.out.frames + [Frame(0, FLAG_PONG, payload)])), id))
  {
    hide Granted, Count, Received, Refusals, R.PhaseOf;
    FrameNoted(t.out.frames, Frame(0, FLAG_PONG, payload), id);
  }

  lemma HandleAdds(t: Turn, f: Frame, id: U32)
    requires R.Inv(t) && Adds(AccountOf(t, id)) && Handle(t, f).Ok?
    ensures Adds(AccountOf(Handle(t, f).value, id))
  {
    hide AccountOf, Adds, Refuse, MarkPeerClosed, HandleOpen, HandleData, HandleReset, HandleWindow;
    RefuseAdds(t, f.Violation(), Protocol, id);
    MarkPeerClosedAdds(t, f.streamId, id);
    HandleOpenAdds(t, f, id);
    PongAdds(t, f.payload, id);
    if f.streamId in t.mux.streams {
      HandleDataAdds(t, f, false, id);
      HandleDataAdds(t, f, true, id);
      HandleResetAdds(t, f, id);
      HandleWindowAdds(t, f, id);
    }
  }

  // ------------------------------------------------------------ the mark

  lemma RefuseHigh(t: Turn, v: FrameViolation, c: Class)
    ensures HighestTaken(Refuse(t, v, c).out)
            == if TurnedAway(Refusal(c, Some(v))) then Larger(HighestTaken(t.out), v.streamId) else HighestTaken(t.out)
    ensures Refuse(t, v, c).mux.highWater == t.mux.highWater
  {
    hide HighestOpened, HighestTurnedAway;
    TurnedNoted(t.out.refusals, Refusal(c, Some(v)));
    HighNoted(t.out.events, WasReset(v.streamId, ReasonOf(c)));
  }

  lemma MarkPeerClosedHigh(t: Turn, id: U32)
    ensures HighestTaken(MarkPeerClosed(t, id).out) == HighestTaken(t.out)
    ensures MarkPeerClosed(t, id).mux.highWater == t.mux.highWater
  {
    hide HighestOpened, HighestTurnedAway;
    HighNoted(t.out.events, ReadClosed(id));
  }

  lemma OpenedHigh(t: Turn, f: Frame)
    ensures var events := [Opened(f.streamId)]
              + if f.payload != [] || CarriesData(f.flags) then [Data(f.streamId, f.payload)] else [];
            HighestTaken(t.out.(events := t.out.events + events)) == Larger(HighestTaken(t.out), f.streamId)
  {
    hide HighestOpened, HighestTurnedAway;
    var k := f.streamId;
    var begun := t.out.events + [Opened(k)];
    HighNoted(t.out.events, Opened(k));
    HighNoted(begun, Data(k, f.payload));
    assert t.out.events + ([Opened(k)] + [Data(k, f.payload)]) == begun + [Data(k, f.payload)];
    assert t.out.events + ([Opened(k)] + []) == begun;
  }

  lemma HandleOpenHigh(t: Turn, f: Frame)
    requires HighOk(t) && Opens(f.flags)
    ensures HighOk(HandleOpen(t, f))
  {
    hide HighestTaken, Refuse, MarkPeerClosed;
    var raised := t.(mux := t.mux.(highWater := Some(f.streamId)));
    RefuseHigh(t, f.Violation(), Protocol);
    RefuseHigh(raised, f.Violation(), StreamLimit);
    RefuseHigh(raised, f.Violation(), FlowControl);
    if FreshId(t.mux, f.streamId) && |t.mux.streams| < t.mux.limits.maxStreams && |f.payload| <= INITIAL_WINDOW {
      var s := Stream(NEW_WINDOW.Debit(|f.payload|), |f.payload|, INITIAL_WINDOW, false, false);
      var events := [Opened(f.streamId)]
        + if f.payload != [] || CarriesData(f.flags) then [Data(f.streamId, f.payload)] else [];
      OpenedHigh(t, f);
      MarkPeerClosedHigh(Turn(raised.mux.(streams := raised.mux.streams[f.streamId := s]),
                              t.out.(events := t.out.events + events)), f.streamId);
    }
  }

  lemma QuietHigh(t: Turn, e: Event)
    requires !e.Opened?
    ensures HighestTaken(t.out.(events := t.out.events + [e])) == HighestTaken(t.out)
  {
    hide HighestOpened, HighestTurnedAway;
    HighNoted(t.out.events, e);
  }

  lemma HandleDataHigh(t: Turn, f: Frame, closes: bool)
    requires f.streamId in t.mux.streams && !Opens(f.flags) && HighOk(t)
    ensures HighOk(HandleData(t, f, closes))
  {
    hide HighestTaken, Refuse, MarkPeerClosed;
    RefuseHigh(t, f.Violation(), Protocol);
    RefuseHigh(t, f.Violation(), FlowControl);
    var s := t.mux.streams[f.streamId];
    if !s.peerClosed && s.window.Admits(|f.payload|) {
      var s' := s.(window := s.window.Debit(|f.payload|), debited := s.debited + |f.payload|);
      QuietHigh(t, Data(f.streamId, f.payload));
      MarkPeerClosedHigh(Turn(t.mux.(streams := t.mux.streams[f.streamId := s']),
                              t.out.(events := t.out.events + [Data(f.streamId, f.payload)])), f.streamId);
    }
  }

  lemma HandleHigh(t: Turn, f: Frame)
    requires HighOk(t) && Handle(t, f).Ok?
    ensures HighOk(Handle(t, f).value)
  {
    hide HighestTaken, Refuse, MarkPeerClosed, HandleOpen, HandleData;
    RefuseHigh(t, f.Violation(), Protocol);
    RefuseHigh(t, f.Violation(), FlowControl);
    MarkPeerClosedHigh(t, f.streamId);
    if Opens(f.flags) {
      HandleOpenHigh(t, f);
    } else if f.streamId in t.mux.streams {
      HandleDataHigh(t, f, false);
      HandleDataHigh(t, f, true);
      if |f.payload| == 1 {
        QuietHigh(t, WasReset(f.streamId, ReasonFromWire(f.payload[0])));
      }
    }
    FramesHigh(t, [Frame(0, FLAG_PONG, f.payload)], f.streamId);
  }

  lemma FramesHigh(t: Turn, frames: seq<Frame>, id: U32)
    ensures HighestTaken(t.out.(frames := t.out.frames + frames)) == HighestTaken(t.out)
    ensures HighestTaken(t.out.(writable := t.out.writable + [id])) == HighestTaken(t.out)
  {
  }

  lemma HandleLedger(t: Turn, f: Frame)
    requires Ledger(t) && Handle(t, f).Ok?
    ensures Ledger(Handle(t, f).value)
  {
    hide R.Inv, HighOk, AccountOf, Adds, Handle;
    R.HandleKeeps(t, f);
    HandleHigh(t, f);
    forall id: U32 { HandleAdds(t, f, id); }
  }

  lemma RefuseLedger(t: Turn, v: FrameViolation)
    requires Ledger(t)
    ensures Ledger(Refuse(t, v, Protocol))
  {
    hide R.Inv, HighestTaken, AccountOf, Adds, Refuse;
    R.RefuseKeeps(t, v, Protocol);
    RefuseHigh(t, v, Protocol);
    forall id: U32 { RefuseAdds(t, v, Protocol, id); }
  }

  lemma {:induction false} ScanLedger(mux: Mux, skip: nat, buf: Bytes, out: Output)
    requires Ledger(Turn(mux, out))
    ensures Ledger(Turn(Scan(mux, skip, buf, out).ear.mux, Scan(mux, skip, buf, out).out))
    decreases |buf|
  {
    hide Ledger, Refuse, Handle, Parse;
    if skip > 0 {
      if |buf| > skip {
        ScanLedger(mux, 0, buf[skip..], out);
      }
    } else if |buf| >= HEADER_LEN {
      if Reserved(HeaderFlags(buf)) {
        if HeaderStream(buf) != 0 {
          RefuseLedger(Turn(mux, out), HeaderViolation(buf));
          var t := Refuse(Turn(mux, out), HeaderViolation(buf), Protocol);
          ScanLedger(t.mux, HeaderLength(buf), buf[HEADER_LEN..], t.out);
        }
      } else if Parse(buf).Got? {
        var h := Handle(Turn(mux, out), Parse(buf).frame);
        if h.Ok? {
          HandleLedger(Turn(mux, out), Parse(buf).frame);
          ScanLedger(h.value.mux, 0, Parse(buf).rest, h.value.out);
        }
      }
    }
  }

  // ------------------------------------------------------------ local calls

  /** A local call that writes one frame for a live stream and updates or drops it. */
  lemma CallAdds(t: Turn, t': Turn, k: U32, s: Option<Stream>, f: Frame, id: U32)
    requires Adds(AccountOf(t, id)) && k in t.mux.streams && f.streamId == k
    requires t'.out == t.out.(frames := t.out.frames + [f])
    requires t'.mux.streams == if s.Some? then t.mux.streams[k := s.value] else t.mux.streams - {k}
    requires s.Some? ==> s.value.peerClosed == t.mux.streams[k].peerClosed
    requires s.Some? ==>
               || (f.flags == FLAG_DATA && s.value.window == t.mux.streams[k].window
                   && s.value.localClosed == t.mux.streams[k].localClosed)
               || (f.flags == FLAG_WINDOW && |f.payload| == 4
                   && s.value.window.credit == t.mux.streams[k].window.credit + FromBe32(f.payload)
                   && s.value.localClosed == t.mux.streams[k].localClosed)
               || (f.flags == FLAG_CLOSE && s.value.window == t.mux.streams[k].window && s.value.localClosed
                   && !t.mux.streams[k].localClosed && !t.mux.streams[k].peerClosed)
    requires s.None? ==>
               || f.flags == FLAG_RESET
               || (f.flags == FLAG_CLOSE && t.mux.streams[k].peerClosed && !t.mux.streams[k].localClosed)
    ensures Adds(AccountOf(t', id))
  {
    hide Granted, Count, Received, Refusals, R.PhaseOf, FromBe32;
    FrameNoted(t.out.frames, f, id);
  }

  /** A local call that writes nothing and changes only accounting inside a stream. */
  lemma SilentAdds(t: Turn, t': Turn, k: U32, s: Stream, id: U32)
    requires Adds(AccountOf(t, id)) && k in t.mux.streams && t'.out == t.out && t'.mux.streams == t.mux.streams[k := s]
    requires s.window.credit == t.mux.streams[k].window.credit && s.localClosed == t.mux.streams[k].localClosed
    requires s.peerClosed == t.mux.streams[k].peerClosed
    ensures Adds(AccountOf(t', id))
  {
  }

  function Wrote(t: Turn, mux: Mux, frames: seq<Frame>): Turn {
    Turn(mux, t.out.(frames := t.out.frames + frames))
  }

  /** The ledger of a call, given that it keeps the run invariant and the mark. */
  ghost predicate Calls(t: Turn, t': Turn) {
    t'.mux.highWater == t.mux.highWater && t'.out == t.out.(frames := t'.out.frames)
    && forall id: U32 :: Adds(AccountOf(t', id))
  }

  lemma ConsumeCalls(t: Turn, k: U32, count: nat)
    requires Ledger(t) && Consume(t.mux, k, count).Ok?
    ensures Calls(t, Wrote(t, Consume(t.mux, k, count).value.0, Consume(t.mux, k, count).value.1))
  {
    hide AccountOf, Adds, FromBe32;
    var (mux, frames) := Consume(t.mux, k, count).value;
    var t' := Wrote(t, mux, frames);
    var grant := t.mux.streams[k].window.Consume(count).1;
    forall id: U32 ensures Adds(AccountOf(t', id)) {
      if grant.Some? {
        Be32RoundTrip(grant.value);
        CallAdds(t, t', k, Some(mux.streams[k]), WindowFrame(k, grant.value), id);
      } else {
        assert t.out.frames + [] == t.out.frames;
        SilentAdds(t, t', k, mux.streams[k], id);
      }
    }
  }

  lemma SendCalls(t: Turn, k: U32, bytes: Bytes)
    requires Ledger(t) && TrySend(t.mux, k, bytes).Ok? && TrySend(t.mux, k, bytes).value.1.Some?
    ensures Calls(t, Wrote(t, TrySend(t.mux, k, bytes).value.0, [TrySend(t.mux, k, bytes).value.1.value]))
  {
    hide AccountOf, Adds;
    var (mux, f) := TrySend(t.mux, k, bytes).value;
    forall id: U32 { CallAdds(t, Wrote(t, mux, [f.value]), k, Some(mux.streams[k]), f.value, id); }
  }

  lemma CloseCalls(t: Turn, k: U32)
    requires Ledger(t) && CloseWrite(t.mux, k).Ok?
    ensures Calls(t, Wrote(t, CloseWrite(t.mux, k).value.0, [CloseWrite(t.mux, k).value.1]))
  {
    hide AccountOf, Adds;
    var (mux, f) := CloseWrite(t.mux, k).value;
    var s := if t.mux.streams[k].peerClosed then None else Some(mux.streams[k]);
    forall id: U32 { CallAdds(t, Wrote(t, mux, [f]), k, s, f, id); }
  }

  lemma ResetCalls(t: Turn, k: U32, reason: ResetReason)
    requires Ledger(t) && Reset(t.mux, k, reason).Ok?
    ensures Calls(t, Wrote(t, Reset(t.mux, k, reason).value.0, [Reset(t.mux, k, reason).value.1]))
  {
    hide AccountOf, Adds;
    var (mux, f) := Reset(t.mux, k, reason).value;
    forall id: U32 { CallAdds(t, Wrote(t, mux, [f]), k, None, f, id); }
  }

  lemma CallsLedger(t: Turn, t': Turn)
    requires Ledger(t) && R.Inv(t') && Calls(t, t')
    ensures Ledger(t')
  {
    hide R.Inv, AccountOf, Adds;
  }

  // ------------------------------------------------------------ runs

  ghost predicate WorldLedger(w: R.World) {
    Ledger(Turn(w.ear.mux, w.log))
  }

  lemma LedgerInv(t: Turn)
    requires Ledger(t)
    ensures R.Inv(t) && t.mux.Valid()
  {
  }

  lemma ActLedger(w: R.World, a: R.Action)
    requires WorldLedger(w)
    ensures R.WorldInv(w) && WorldLedger(R.Act(w, a))
  {
    hide Ledger, R.Inv, Calls, Scan, Consume, TrySend, CloseWrite, Reset;
    var t := Turn(w.ear.mux, w.log);
    LedgerInv(t);
    R.ActKeeps(w, a);
    var w' := R.Act(w, a);
    var t' := Turn(w'.ear.mux, w'.log);
    assert t.out.frames + [] == t.out.frames;
    match a
    case Read(bytes) => ScanLedger(w.ear.mux, w.ear.skip, w.ear.staged + bytes, w.log);
    case Consumed(id, count) =>
      if Consume(w.ear.mux, id, count).Ok? {
        ConsumeCalls(t, id, count);
        CallsLedger(t, t');
      }
    case Sent(id, payload) =>
      if TrySend(w.ear.mux, id, payload).Ok? {
        if TrySend(w.ear.mux, id, payload).value.1.Some? {
          SendCalls(t, id, payload);
          CallsLedger(t, t');
        } else {
          SendNothing(w.ear.mux, id, payload);
        }
      }
    case ClosedWrite(id) =>
      if CloseWrite(w.ear.mux, id).Ok? {
        CloseCalls(t, id);
        CallsLedger(t, t');
      }
    case ResetCall(id, reason) =>
      if Reset(w.ear.mux, id, reason).Ok? {
        ResetCalls(t, id, reason);
        CallsLedger(t, t');
      }
  }

  lemma SendNothing(mux: Mux, id: U32, payload: Bytes)
    requires TrySend(mux, id, payload).Ok? && TrySend(mux, id, payload).value.1.None?
    ensures TrySend(mux, id, payload).value.0 == mux
  {
  }

  lemma {:induction false} RunLedger(w: R.World, actions: seq<R.Action>)
    requires WorldLedger(w)
    ensures R.WorldInv(w) && WorldLedger(R.RunFrom(w, actions))
    decreases |actions|
  {
    hide Ledger, R.Inv, R.Act;
    LedgerInv(Turn(w.ear.mux, w.log));
    if actions != [] {
      ActLedger(w, actions[0]);
      RunLedger(R.Act(w, actions[0]), actions[1..]);
    }
  }

  lemma StartLedger(limits: Limits)
    requires limits.Valid()
    ensures WorldLedger(R.Start(limits))
  {
    R.StartKeeps(limits);
  }

  /**
   The state is what the log says. Over every run: a stream is live exactly if it
   was opened, neither reset nor refused since, and not closed on both sides; its
   window holds 2^20 bytes and what was granted, less what was received; and the
   high-water mark is the highest identifier opened or turned away by policy.
   */
  lemma LogTellsState(limits: Limits, actions: seq<R.Action>, id: U32)
    requires limits.Valid()
    ensures R.WorldInv(R.Start(limits))
    ensures var w := R.RunFrom(R.Start(limits), actions);
            var a := AccountOf(Turn(w.ear.mux, w.log), id);
            && (id in w.ear.mux.streams <==> Live(a))
            && (id in w.ear.mux.streams ==>
                  && w.ear.mux.streams[id].window.credit
                     == INITIAL_WINDOW + Granted(w.log.frames, id) - Received(w.log.events, id)
                  && (w.ear.mux.streams[id].localClosed <==> Count(w.log.frames, id, FLAG_CLOSE) == 1)
                  && (w.ear.mux.streams[id].peerClosed <==> a.phase == R.HalfClosed))
            && HighestTaken(w.log) == (if w.ear.mux.highWater.None? then 0 else w.ear.mux.highWater.value)
  {
    hide R.Inv, Granted, Received, Count, Refusals, R.PhaseOf, R.RunFrom, HighestTaken;
    StartLedger(limits);
    RunLedger(R.Start(limits), actions);
    var w := R.RunFrom(R.Start(limits), actions);
    assert Adds(AccountOf(Turn(w.ear.mux, w.log), id));
  }

  // ------------------------------------------------------------ verdicts

  datatype Verdict = Accept(events: seq<Event>) | Ignore | RefuseAs(kind: Class)

  /** What becomes of an OPEN, by its identifier and size, the log, and the streams open. */
  ghost function JudgeOpen(out: Output, open: nat, cap: nat, f: Frame): Verdict {
    var id := f.streamId;
    if id % 2 == 0 || !Newer(out, id) then RefuseAs(Protocol)
    else if open >= cap then RefuseAs(StreamLimit)
    else if |f.payload| > 0x10_0000 then RefuseAs(FlowControl)
    else Accept([Opened(id)]
                + (if f.payload != [] || f.flags / 2 % 2 == 1 then [Data(id, f.payload)] else [])
                + (if f.flags / 4 % 2 == 1 then [ReadClosed(id)] else []))
  }

  /** What becomes of a frame of a live stream; `room` is what its window has left. */
  function JudgeLive(phase: R.Phase, room: int, sendCredit: nat, f: Frame): Verdict {
    var id := f.streamId;
    if f.flags == FLAG_RESET then
      if |f.payload| == 1 then Accept([WasReset(id, ReasonFromWire(f.payload[0]))]) else RefuseAs(Protocol)
    else if f.flags == FLAG_WINDOW then
      if |f.payload| != 4 then RefuseAs(Protocol)
      else if sendCredit + FromBe32(f.payload) > 0x7fff_ffff then RefuseAs(FlowControl)
      else Accept([])
    else if f.flags == FLAG_CLOSE && f.payload == [] then Accept([ReadClosed(id)])
    else if phase == R.HalfClosed then RefuseAs(Protocol)
    else if |f.payload| > room then RefuseAs(FlowControl)
    else Accept([Data(id, f.payload)] + if f.flags / 4 % 2 == 1 then [ReadClosed(id)] else [])
  }

  ghost function Judge(out: Output, a: Account, open: nat, cap: nat, sendCredit: nat, f: Frame): Verdict {
    if !(1 <= f.flags <= 8 || f.flags == FLAG_WINDOW) then RefuseAs(Protocol)
    else if f.flags < 8 && f.flags % 2 == 1 then JudgeOpen(out, open, cap, f)
    else if !Live(a) then if f.flags == FLAG_DATA || f.flags == FLAG_WINDOW then RefuseAs(Protocol) else Ignore
    else JudgeLive(a.phase, INITIAL_WINDOW + a.granted - a.received, sendCredit, f)
  }

  /** What a verdict does to the output. */
  function Carried(out: Output, v: Verdict, f: Frame, live: bool): Output {
    match v
    case Ignore => out
    case Accept(events) =>
      out.(events := out.events + events,
           writable := out.writable + if f.flags == FLAG_WINDOW then [f.streamId] else [])
    case RefuseAs(c) =>
      out.(frames := out.frames + [Frame(f.streamId, FLAG_RESET, [Code(ReasonOf(c))])],
           refusals := out.refusals + [Refusal(c, Some(f.Violation()))],
           events := out.events + if live then [WasReset(f.streamId, ReasonOf(c))] else [])
  }

  lemma FreshIff(t: Turn, id: U32)
    requires HighOk(t)
    ensures FreshId(t.mux, id) <==> id % 2 == 1 && Newer(t.out, id)
  {
    hide HighestTaken, Newer;
    if id > 0 {
      NewerIff(t.out, id);
    }
  }

  lemma OpenIsJudged(t: Turn, f: Frame)
    requires Ledger(t) && f.streamId != 0 && f.flags < 8 && f.flags % 2 == 1
    ensures var v := JudgeOpen(t.out, |t.mux.streams|, t.mux.limits.maxStreams, f);
            HandleOpen(t, f).out == Carried(t.out, v, f, f.streamId in t.mux.streams)
  {
    hide R.Inv, AccountOf, Adds, Newer, HighestTaken;
    FreshIff(t, f.streamId);
    assert t.out.events + [] == t.out.events && t.out.writable + [] == t.out.writable;
    var id := f.streamId;
    var data := if f.payload != [] || CarriesData(f.flags) then [Data(id, f.payload)] else [];
    assert t.out.events + ([Opened(id)] + data) + [ReadClosed(id)]
           == t.out.events + ([Opened(id)] + data + [ReadClosed(id)]);
    assert t.out.events + ([Opened(id)] + data + []) == t.out.events + ([Opened(id)] + data);
  }

  lemma LiveIsJudged(t: Turn, f: Frame)
    requires f.streamId != 0 && f.streamId in t.mux.streams && Adds(AccountOf(t, f.streamId))
    requires f.flags % 2 == 0 && (2 <= f.flags <= 8 || f.flags == FLAG_WINDOW)
    ensures var a := AccountOf(t, f.streamId);
            var credit := INITIAL_WINDOW + a.granted - a.received;
            var v := JudgeLive(a.phase, credit, t.mux.streams[f.streamId].sendCredit, f);
            HandleStream(t, f).out == Carried(t.out, v, f, true)
  {
    hide Granted, Count, Received, Refusals, R.PhaseOf, FromBe32;
    assert t.out.events + [] == t.out.events && t.out.writable + [] == t.out.writable;
    var id := f.streamId;
    assert t.out.events + [Data(id, f.payload)] + [ReadClosed(id)]
           == t.out.events + ([Data(id, f.payload)] + [ReadClosed(id)]);
    assert [Data(id, f.payload)] + [] == [Data(id, f.payload)];
  }

  lemma InvalidIsJudged(t: Turn, f: Frame)
    requires f.streamId != 0 && !(1 <= f.flags <= 8 || f.flags == FLAG_WINDOW)
    ensures HandleStream(t, f).out == Carried(t.out, RefuseAs(Protocol), f, f.streamId in t.mux.streams)
  {
    assert t.out.events + [] == t.out.events;
  }

  lemma StrayIsJudged(t: Turn, f: Frame)
    requires f.streamId != 0 && f.streamId !in t.mux.streams
    requires f.flags % 2 == 0 && (2 <= f.flags <= 8 || f.flags == FLAG_WINDOW)
    ensures var v := if f.flags == FLAG_DATA || f.flags == FLAG_WINDOW then RefuseAs(Protocol) else Ignore;
            HandleStream(t, f).out == Carried(t.out, v, f, false)
  {
    assert t.out.events + [] == t.out.events;
  }

  lemma OpenIsHandled(t: Turn, f: Frame)
    requires f.streamId != 0 && f.flags < 8 && f.flags % 2 == 1
    ensures HandleStream(t, f) == HandleOpen(t, f)
  {
  }

  lemma FrameIsJudged(t: Turn, f: Frame)
    requires Ledger(t) && f.streamId != 0
    ensures var a := AccountOf(t, f.streamId);
            var credit := if a.stream.Some? then a.stream.value.sendCredit else 0;
            var v := Judge(t.out, a, |t.mux.streams|, t.mux.limits.maxStreams, credit, f);
            && Handle(t, f).Ok?
            && Handle(t, f).value.out == Carried(t.out, v, f, f.streamId in t.mux.streams)
  {
    hide R.Inv, HighOk, AccountOf, HandleStream, HandleOpen, JudgeOpen, JudgeLive, Carried;
    assert Adds(AccountOf(t, f.streamId));
    AccountStream(t, f.streamId);
    if !(1 <= f.flags <= 8 || f.flags == FLAG_WINDOW) {
      InvalidIsJudged(t, f);
    } else if f.flags < 8 && f.flags % 2 == 1 {
      OpenIsJudged(t, f);
      OpenIsHandled(t, f);
    } else if f.streamId in t.mux.streams {
      LiveIsJudged(t, f);
    } else {
      StrayIsJudged(t, f);
    }
  }

  lemma AccountStream(t: Turn, id: U32)
    ensures AccountOf(t, id).stream.Some? <==> id in t.mux.streams
    ensures id in t.mux.streams ==> AccountOf(t, id).stream.value == t.mux.streams[id]
  {
  }

  /**
   Every frame on a stream is judged by numbers: over every run, whether it opens,
   delivers, half-closes, resets or is refused, and as what, is decided by its flags,
   identifier and payload, what the log says of its stream and of identifiers taken,
   how many streams are open, and the send credit.
   */
  lemma EveryFrameIsJudged(limits: Limits, actions: seq<R.Action>, f: Frame)
    requires limits.Valid() && f.streamId != 0
    ensures R.WorldInv(R.Start(limits))
    ensures var w := R.RunFrom(R.Start(limits), actions);
            var t := Turn(w.ear.mux, w.log);
            var a := AccountOf(t, f.streamId);
            var credit := if a.stream.Some? then a.stream.value.sendCredit else 0;
            var v := Judge(w.log, a, |w.ear.mux.streams|, w.ear.mux.limits.maxStreams, credit, f);
            && Handle(t, f).Ok?
            && Handle(t, f).value.out == Carried(w.log, v, f, Live(a))
  {
    hide Ledger, Handle, Judge, Carried, R.RunFrom, AccountOf;
    StartLedger(limits);
    RunLedger(R.Start(limits), actions);
    var w := R.RunFrom(R.Start(limits), actions);
    var t := Turn(w.ear.mux, w.log);
    FrameIsJudged(t, f);
    LedgerAdds(t, f.streamId);
    AccountStream(t, f.streamId);
  }

  lemma LedgerAdds(t: Turn, id: U32)
    requires Ledger(t)
    ensures Adds(AccountOf(t, id))
  {
  }

  /** Reset codes and reasons say the same; an unknown code is unspecified. */
  lemma ReasonsRoundTrip(reason: ResetReason, code: Byte)
    ensures ReasonFromWire(Code(reason)) == reason
    ensures ReasonFromWire(code) == reason && reason != Unspecified ==> Code(reason) == code
  {
  }

  /** What each local call comes to, for a stream with this account. */
  predicate CallsDecided(mux: Mux, a: Account, id: U32, bytes: Bytes, count: nat, reason: ResetReason)
    requires mux.Valid()
  {
    var mayWrite := Live(a) && a.closes == 0;
    var send, close, reset := TrySend(mux, id, bytes), CloseWrite(mux, id), Reset(mux, id, reason);
    && (Live(a) <==> id in mux.streams)
    && (send == Err(Refused(Refusal(Internal, None))) <==> |bytes| > 0x1_0000)
    && (send == Err(Closed) <==> |bytes| <= 0x1_0000 && !mayWrite)
    && (mayWrite && |bytes| <= 0x1_0000 ==>
          if |bytes| > mux.streams[id].sendCredit then send == Ok((mux, None))
          else send.Ok? && send.value.1 == Some(Frame(id, FLAG_DATA, bytes)))
    && (close.Ok? <==> mayWrite) && (close.Ok? ==> close.value.1 == Frame(id, FLAG_CLOSE, []))
    && (reset.Ok? <==> Live(a)) && (reset.Ok? ==> reset.value.1 == Frame(id, FLAG_RESET, [Code(reason)]))
    && (Consume(mux, id, count) == Err(Closed) <==> !Live(a))
    && (Consume(mux, id, count).Ok? <==> Live(a) && count <= mux.streams[id].debited)
  }

  /**
   Local calls are decided by the log too: over every run, a call on a stream that is
   not live is refused as closed, and so are a send and a half-close after a CLOSE was
   written; a send over 64 KiB and a consumption of more than is held are refused as
   internal; a send past the credit waits; anything else goes out as its frame.
   */
  lemma CallsAreDecided(limits: Limits, actions: seq<R.Action>, id: U32, bytes: Bytes, count: nat, reason: ResetReason)
    requires limits.Valid()
    ensures R.WorldInv(R.Start(limits))
    ensures var w := R.RunFrom(R.Start(limits), actions);
            && w.ear.mux.Valid()
            && CallsDecided(w.ear.mux, AccountOf(Turn(w.ear.mux, w.log), id), id, bytes, count, reason)
  {
    hide Ledger, R.RunFrom, AccountOf, CallsDecided;
    StartLedger(limits);
    RunLedger(R.Start(limits), actions);
    var w := R.RunFrom(R.Start(limits), actions);
    var t := Turn(w.ear.mux, w.log);
    LedgerInv(t);
    LedgerAdds(t, id);
    AccountStream(t, id);
    AccountDecides(t.mux, AccountOf(t, id), id, bytes, count, reason);
  }

  lemma AccountDecides(mux: Mux, a: Account, id: U32, bytes: Bytes, count: nat, reason: ResetReason)
    requires mux.Valid() && Adds(a) && (a.stream.Some? <==> id in mux.streams)
    requires id in mux.streams ==> a.stream.value == mux.streams[id]
    ensures CallsDecided(mux, a, id, bytes, count, reason)
  {
  }
}
