/**
 Whole runs of the carrier demultiplexer with a consumer that drains each event
 once: receive-window accounting is exact, consuming never exceeds what was
 debited, every stream's events have the shape (Head Body*)? End?, no WINDOW is
 emitted for a stream that ends in the same output, and an error is final.
 */
module DemuxRuns {
  import opened Outcomes
  import opened Wire
  import opened Flow
  import opened Demux
  import C = Chunked

  type Events = seq<(U32, StreamEvent)>

  // ------------------------------------------------------------ accounting

  /** Wire bytes a stream's events still have to pay for. */
  function Owed(events: Events, id: U32): nat {
    if events == [] then 0 else (if events[0].0 == id then events[0].1.cost else 0) + Owed(events[1..], id)
  }

  lemma {:induction false} OwedAppend(a: Events, b: Events, id: U32)
    ensures Owed(a + b, id) == Owed(a, id) + Owed(b, id)
  {
    if a == [] {
      assert a + b == b;
    } else {
      assert (a + b)[1..] == a[1..] + b;
      OwedAppend(a[1..], b, id);
    }
  }

  lemma {:induction false} OwedWithout(events: Events, i: nat, id: U32)
    requires i < |events|
    ensures Owed(events, id)
            == Owed(events[..i] + events[i + 1..], id) + if events[i].0 == id then events[i].1.cost else 0
  {
    assert events == events[..i] + ([events[i]] + events[i + 1..]);
    OwedAppend(events[..i], [events[i]] + events[i + 1..], id);
    OwedAppend([events[i]], events[i + 1..], id);
    OwedAppend(events[..i], events[i + 1..], id);
    Single(events[i], id);
  }

  lemma Single(e: (U32, StreamEvent), id: U32)
    ensures Owed([e], id) == if e.0 == id then e.1.cost else 0
  {
    var one: Events := [e];
    assert one[1..] == [];
  }

  lemma {:induction false} OwedTagged(k: U32, events: seq<StreamEvent>, id: U32)
    ensures Owed(Tag(k, events), id) == if k == id then Costs(events) else 0
  {
    if events != [] {
      assert Tag(k, events)[1..] == Tag(k, events[1..]);
      OwedTagged(k, events[1..], id);
    }
  }

  /** Debited bytes not yet consumed are pending in the assembler or owed by an event. */
  predicate Settles(s: CarrierStream, owed: nat) {
    s.Valid() && s.window.Outstanding() == s.assembler.pendingWire + owed
  }

  predicate Accounted(t: Turn, before: Events) {
    forall id :: id in t.streams ==> Settles(t.streams[id], Owed(before, id) + Owed(t.out.events, id))
  }

  lemma OneMore(events: Events, k: U32, item: Item, id: U32)
    ensures Owed(events + [(k, StreamEvent(item, 0))], id) == Owed(events, id)
  {
    OwedAppend(events, [(k, StreamEvent(item, 0))], id);
    Single((k, StreamEvent(item, 0)), id);
  }

  lemma FinishAccounts(t: Turn, k: U32, end: StreamEnd, before: Events)
    requires Accounted(t, before)
    ensures Accounted(Finish(t, k, end), before)
  {
    hide Owed, Settles, WithoutWindows;
    forall id { OneMore(t.out.events, k, EndItem(end), id); }
  }

  lemma RejectAccounts(t: Turn, f: Frame, before: Events)
    requires Accounted(t, before)
    ensures Accounted(Reject(t, f), before)
  {
    hide Owed, Settles, WithoutWindows;
    forall id { OneMore(t.out.events, f.streamId, EndItem(ByReset(ProtocolError)), id); }
    assert t.out.events + [] == t.out.events;
  }

  lemma RouteDataAccounts(p: Parsers, t: Turn, f: Frame, before: Events)
    requires Accounted(t, before) && f.streamId in t.streams
    ensures t.streams[f.streamId].Valid()
    ensures Accounted(RouteData(p, t, f), before)
  {
    hide Owed, WithoutWindows, FeedData, Assembler.Valid;
    var id := f.streamId;
    var s := t.streams[id];
    assert Settles(s, Owed(before, id) + Owed(t.out.events, id));
    if !s.window.Admits(|f.payload|) {
      FinishAccounts(t, id, ByReset(FlowControlError), before);
    } else if FeedData(p, s.assembler, f.payload).Err? {
      FinishAccounts(t, id, ByReset(Unspecified), before);
    } else {
      var r := FeedData(p, s.assembler, f.payload).value;
      FeedDataAccounts(p, s.assembler, f.payload);
      var (window, grant) := s.window.Debit(|f.payload|).Consume(r.autoConsumed);
      var emits := t.out.emits + match grant case None => [] case Some(g) => [WindowFrame(id, g)];
      var t' := Turn(t.streams[id := CarrierStream(r.next, window)],
                     t.out.(emits := emits, events := t.out.events + Tag(id, r.events)));
      forall other: U32
        ensures Owed(t'.out.events, other) == Owed(t.out.events, other) + if other == id then Costs(r.events) else 0
      {
        OwedAppend(t.out.events, Tag(id, r.events), other);
        OwedTagged(id, r.events, other);
      }
      assert Accounted(t', before);
      FinishAccounts(t', id, ByClose, before);
    }
  }

  lemma RouteAccounts(p: Parsers, t: Turn, f: Frame, before: Events)
    requires Accounted(t, before)
    ensures StreamsValid(t.streams)
    ensures Accounted(Route(p, t, f), before)
  {
    hide Owed, RouteData, Reject, Finish, Assembler.Valid;
    RejectAccounts(t, f, before);
    FinishAccounts(t, f.streamId, ByClose, before);
    FinishAccounts(t, f.streamId, ByReset(ReasonOf(f.payload)), before);
    if f.streamId in t.streams {
      RouteDataAccounts(p, t, f, before);
    }
  }

  // ------------------------------------------------------------ event shape

  /** Where a stream stands in (Head Body*)? End?. */
  datatype Phase = Unopened | Awaiting | Streaming | Ended | Misplaced

  function Advance(p: Phase, item: Item): Phase {
    match item
    case HeadItem(_) => if p == Awaiting then Streaming else Misplaced
    case BodyItem(_) => if p == Streaming then Streaming else Misplaced
    case EndItem(_) => if p == Awaiting || p == Streaming then Ended else Misplaced
  }

  /** The phase of stream `id` after a list of events that started in phase `p`. */
  function PhaseAfter(p: Phase, events: Events, id: U32): Phase {
    if events == [] then p
    else
      var last := events[|events| - 1];
      var q := PhaseAfter(p, events[..|events| - 1], id);
      if last.0 == id then Advance(q, last.1.item) else q
  }

  lemma PhaseAppend(p: Phase, events: Events, e: (U32, StreamEvent), id: U32)
    ensures PhaseAfter(p, events + [e], id) ==
            if e.0 == id then Advance(PhaseAfter(p, events, id), e.1.item) else PhaseAfter(p, events, id)
  {
    assert (events + [e])[..|events|] == events;
  }

  function PhaseOf(s: CarrierStream): Phase {
    if s.assembler.headEmitted then Streaming else Awaiting
  }

  type Phases = U32 -> Phase

  predicate InShape(t: Turn, start: Phases) {
    && (forall id :: id in t.streams ==> PhaseAfter(start(id), t.out.events, id) == PhaseOf(t.streams[id]))
    && (forall id: U32 :: PhaseAfter(start(id), t.out.events, id) != Misplaced)
  }

  lemma FinishInShape(t: Turn, k: U32, end: StreamEnd, start: Phases)
    requires InShape(t, start) && k in t.streams
    ensures InShape(Finish(t, k, end), start)
  {
    hide PhaseAfter, WithoutWindows;
    forall id: U32 { PhaseAppend(start(id), t.out.events, (k, StreamEvent(EndItem(end), 0)), id); }
  }

  lemma RejectInShape(t: Turn, f: Frame, start: Phases)
    requires InShape(t, start)
    ensures InShape(Reject(t, f), start)
  {
    hide PhaseAfter, WithoutWindows;
    if f.streamId in t.streams {
      forall id: U32 {
        PhaseAppend(start(id), t.out.events, (f.streamId, StreamEvent(EndItem(ByReset(ProtocolError)), 0)), id);
      }
    } else {
      assert t.out.events + [] == t.out.events;
    }
  }

  /** The phase after one call's worth of assembled events. */
  lemma DeliveryPhase(p: Parsers, a: Assembler, payload: Bytes, from: Phase, events: Events, k: U32, id: U32)
    requires FeedData(p, a, payload).Ok?
    requires k == id ==> PhaseAfter(from, events, id) == if a.headEmitted then Streaming else Awaiting
    ensures var r := FeedData(p, a, payload).value;
            PhaseAfter(from, events + Tag(k, r.events), id) ==
            if k != id then PhaseAfter(from, events, id) else if r.next.headEmitted then Streaming else Awaiting
  {
    hide FeedData, PhaseAfter;
    var r := FeedData(p, a, payload).value;
    FeedDataShape(p, a, payload);
    var tagged := Tag(k, r.events);
    if |tagged| == 0 {
      assert events + tagged == events;
    } else if |tagged| == 1 {
      assert events + tagged == events + [tagged[0]];
      PhaseAppend(from, events, tagged[0], id);
    } else {
      assert events + tagged == (events + [tagged[0]]) + [tagged[1]];
      PhaseAppend(from, events, tagged[0], id);
      PhaseAppend(from, events + [tagged[0]], tagged[1], id);
    }
  }

  lemma RouteDataInShape(p: Parsers, t: Turn, f: Frame, start: Phases)
    requires InShape(t, start) && f.streamId in t.streams && t.streams[f.streamId].Valid()
    ensures InShape(RouteData(p, t, f), start)
  {
    hide PhaseAfter, WithoutWindows, FeedData, Assembler.Valid;
    var id := f.streamId;
    var s := t.streams[id];
    if !s.window.Admits(|f.payload|) {
      FinishInShape(t, id, ByReset(FlowControlError), start);
    } else if FeedData(p, s.assembler, f.payload).Err? {
      FinishInShape(t, id, ByReset(Unspecified), start);
    } else {
      var r := FeedData(p, s.assembler, f.payload).value;
      FeedDataAccounts(p, s.assembler, f.payload);
      var (window, grant) := s.window.Debit(|f.payload|).Consume(r.autoConsumed);
      var emits := t.out.emits + match grant case None => [] case Some(g) => [WindowFrame(id, g)];
      var t' := Turn(t.streams[id := CarrierStream(r.next, window)],
                     t.out.(emits := emits, events := t.out.events + Tag(id, r.events)));
      forall other: U32 {
        DeliveryPhase(p, s.assembler, f.payload, start(other), t.out.events, id, other);
      }
      assert InShape(t', start);
      FinishInShape(t', id, ByClose, start);
    }
  }

  lemma RouteInShape(p: Parsers, t: Turn, f: Frame, start: Phases)
    requires InShape(t, start) && StreamsValid(t.streams)
    ensures InShape(Route(p, t, f), start)
  {
    hide PhaseAfter, RouteData, Reject, Finish, Assembler.Valid;
    RejectInShape(t, f, start);
    if f.streamId in t.streams {
      FinishInShape(t, f.streamId, ByClose, start);
      FinishInShape(t, f.streamId, ByReset(ReasonOf(f.payload)), start);
      RouteDataInShape(p, t, f, start);
    }
  }

  // ------------------------------------------------------------ late windows

  predicate EndsIn(events: Events, id: U32) {
    exists i :: 0 <= i < |events| && events[i].0 == id && events[i].1.item.EndItem?
  }

  predicate WindowIn(frames: seq<Frame>, id: U32) {
    exists i :: 0 <= i < |frames| && frames[i].streamId == id && Grants(frames[i].flags)
  }

  /** A stream that has ended in this output is gone and has no WINDOW in it. */
  predicate NoLateWindow(t: Turn) {
    forall id: U32 :: EndsIn(t.out.events, id) ==> id !in t.streams && !WindowIn(t.out.emits, id)
  }

  lemma {:induction false} WithoutWindowsRemoves(frames: seq<Frame>, k: U32, id: U32)
    ensures WindowIn(WithoutWindows(frames, k), id) ==> k != id && WindowIn(frames, id)
  {
    if frames != [] {
      WithoutWindowsRemoves(frames[1..], k, id);
      var kept := WithoutWindows(frames, k);
      var rest := WithoutWindows(frames[1..], k);
      if WindowIn(kept, id) {
        var i :| 0 <= i < |kept| && kept[i].streamId == id && Grants(kept[i].flags);
        if |kept| == |rest| {
          assert kept == rest;
          assert WindowIn(rest, id);
        } else if i == 0 {
          assert kept[0] == frames[0];
        } else {
          assert rest[i - 1] == kept[i];
          assert WindowIn(rest, id);
        }
        if WindowIn(rest, id) {
          var j :| 0 <= j < |frames[1..]| && frames[1..][j].streamId == id && Grants(frames[1..][j].flags);
          assert frames[j + 1] == frames[1..][j];
        }
      }
    }
  }

  lemma EndsAppend(events: Events, more: Events, id: U32)
    ensures EndsIn(events + more, id) <==> EndsIn(events, id) || EndsIn(more, id)
  {
    if EndsIn(events, id) {
      var i :| 0 <= i < |events| && events[i].0 == id && events[i].1.item.EndItem?;
      assert (events + more)[i] == events[i];
    }
    if EndsIn(more, id) {
      var i :| 0 <= i < |more| && more[i].0 == id && more[i].1.item.EndItem?;
      assert (events + more)[|events| + i] == more[i];
    }
  }

  lemma WindowAppend(frames: seq<Frame>, more: seq<Frame>, id: U32)
    ensures WindowIn(frames + more, id) <==> WindowIn(frames, id) || WindowIn(more, id)
  {
    if WindowIn(frames, id) {
      var i :| 0 <= i < |frames| && frames[i].streamId == id && Grants(frames[i].flags);
      assert (frames + more)[i] == frames[i];
    }
    if WindowIn(more, id) {
      var i :| 0 <= i < |more| && more[i].streamId == id && Grants(more[i].flags);
      assert (frames + more)[|frames| + i] == more[i];
    }
  }

  lemma FinishNoLate(t: Turn, k: U32, end: StreamEnd)
    requires NoLateWindow(t)
    ensures NoLateWindow(Finish(t, k, end)) && !WindowIn(Finish(t, k, end).out.emits, k)
  {
    hide EndsIn, WindowIn, WithoutWindows;
    forall id: U32 { WithoutWindowsRemoves(t.out.emits, k, id); }
    forall id: U32 { EndsAppend(t.out.events, [(k, StreamEvent(EndItem(end), 0))], id); }
    assert forall id: U32 :: EndsIn([(k, StreamEvent(EndItem(end), 0))], id) ==> id == k by { OnlyItsOwn(k, end); }
  }

  lemma OnlyItsOwn(k: U32, end: StreamEnd)
    ensures forall id: U32 :: EndsIn([(k, StreamEvent(EndItem(end), 0))], id) ==> id == k
  {
  }

  /** Emitting anything but a WINDOW changes nothing. */
  lemma EmitNoLate(t: Turn, f: Frame)
    requires NoLateWindow(t) && (!Grants(f.flags) || f.streamId in t.streams)
    ensures NoLateWindow(t.(out := t.out.(emits := t.out.emits + [f])))
  {
    hide EndsIn, WindowIn;
    forall id: U32 { WindowAppend(t.out.emits, [f], id); }
    assert forall id: U32 :: WindowIn([f], id) ==> Grants(f.flags) && id == f.streamId by { OneFrame(f); }
  }

  lemma OneFrame(f: Frame)
    ensures forall id: U32 :: WindowIn([f], id) ==> Grants(f.flags) && id == f.streamId
  {
  }

  lemma RejectNoLate(t: Turn, f: Frame)
    requires NoLateWindow(t)
    ensures NoLateWindow(Reject(t, f))
  {
    hide EndsIn, WindowIn, WithoutWindows;
    var reset := ResetFrame(f.streamId, RESET_PROTOCOL_ERROR);
    if f.streamId in t.streams {
      FinishNoLate(t, f.streamId, ByReset(ProtocolError));
      EmitNoLate(Finish(t, f.streamId, ByReset(ProtocolError)), reset);
    } else {
      EmitNoLate(t, reset);
      assert t.out.events + [] == t.out.events;
      assert t.streams - {f.streamId} == t.streams;
    }
  }

  lemma RouteDataNoLate(p: Parsers, t: Turn, f: Frame)
    requires NoLateWindow(t) && f.streamId in t.streams && t.streams[f.streamId].Valid()
    ensures NoLateWindow(RouteData(p, t, f))
  {
    hide EndsIn, WindowIn, WithoutWindows, FeedData, Assembler.Valid;
    var id := f.streamId;
    var s := t.streams[id];
    if !s.window.Admits(|f.payload|) {
      FinishNoLate(t, id, ByReset(FlowControlError));
      EmitNoLate(Finish(t, id, ByReset(FlowControlError)), ResetFrame(id, RESET_FLOW_CONTROL_ERROR));
    } else if FeedData(p, s.assembler, f.payload).Err? {
      FinishNoLate(t, id, ByReset(Unspecified));
    } else {
      var r := FeedData(p, s.assembler, f.payload).value;
      FeedDataAccounts(p, s.assembler, f.payload);
      var (window, grant) := s.window.Debit(|f.payload|).Consume(r.autoConsumed);
      var emits := t.out.emits + match grant case None => [] case Some(g) => [WindowFrame(id, g)];
      if grant.Some? {
        EmitNoLate(t, WindowFrame(id, grant.value));
      } else {
        assert t.out.emits + [] == t.out.emits;
      }
      var t' := Turn(t.streams[id := CarrierStream(r.next, window)],
                     t.out.(emits := emits, events := t.out.events + Tag(id, r.events)));
      forall other: U32 { EndsAppend(t.out.events, Tag(id, r.events), other); }
      assert forall other: U32 :: !EndsIn(Tag(id, r.events), other) by {
        NoEndDelivered(p, s.assembler, f.payload, id);
      }
      assert NoLateWindow(t');
      FinishNoLate(t', id, ByClose);
    }
  }

  lemma NoEndDelivered(p: Parsers, a: Assembler, payload: Bytes, id: U32)
    requires FeedData(p, a, payload).Ok?
    ensures forall other: U32 :: !EndsIn(Tag(id, FeedData(p, a, payload).value.events), other)
  {
    hide FeedData;
    FeedDataShape(p, a, payload);
  }

  lemma RouteNoLate(p: Parsers, t: Turn, f: Frame)
    requires NoLateWindow(t) && StreamsValid(t.streams)
    ensures NoLateWindow(Route(p, t, f))
  {
    hide EndsIn, WindowIn, RouteData, Reject, Finish, Assembler.Valid;
    RejectNoLate(t, f);
    FinishNoLate(t, f.streamId, ByClose);
    FinishNoLate(t, f.streamId, ByReset(ReasonOf(f.payload)));
    if f.streamId in t.streams {
      RouteDataNoLate(p, t, f);
    }
  }

  // ------------------------------------------------------------ one feed

  lemma AccountedValid(t: Turn, before: Events)
    requires Accounted(t, before)
    ensures StreamsValid(t.streams)
  {
    hide Owed, Assembler.Valid;
  }

  lemma ControlKeeps(t: Turn, f: Frame, before: Events, start: Phases)
    requires RouteControl(t, f).Some?
    ensures Accounted(t, before) ==> Accounted(RouteControl(t, f).value, before)
    ensures InShape(t, start) ==> InShape(RouteControl(t, f).value, start)
    ensures RouteControl(t, f).value.streams == t.streams
  {
    hide Owed, Settles, PhaseAfter;
  }

  lemma {:induction false} RouteAllAccounts(p: Parsers, t: Turn, frames: seq<Frame>, before: Events)
    requires Accounted(t, before)
    ensures StreamsValid(t.streams)
    ensures Accounted(RouteAll(p, t, frames).0, before)
    decreases |frames|
  {
    hide Accounted, Route, StreamsValid, RouteControl;
    AccountedValid(t, before);
    if frames != [] {
      var f := frames[0];
      if f.streamId != 0 {
        RouteValid(p, t, f);
        RouteAccounts(p, t, f, before);
        RouteAllAccounts(p, Route(p, t, f), frames[1..], before);
      } else if RouteControl(t, f).Some? {
        ControlKeeps(t, f, before, id => Unopened);
        RouteAllAccounts(p, RouteControl(t, f).value, frames[1..], before);
      }
    }
  }

  lemma {:induction false} RouteAllInShape(p: Parsers, t: Turn, frames: seq<Frame>, start: Phases)
    requires InShape(t, start) && StreamsValid(t.streams)
    ensures InShape(RouteAll(p, t, frames).0, start)
    decreases |frames|
  {
    hide InShape, Route, StreamsValid, RouteControl;
    if frames != [] {
      var f := frames[0];
      if f.streamId != 0 {
        RouteValid(p, t, f);
        RouteInShape(p, t, f, start);
        RouteAllInShape(p, Route(p, t, f), frames[1..], start);
      } else if RouteControl(t, f).Some? {
        ControlKeeps(t, f, [], start);
        RouteAllInShape(p, RouteControl(t, f).value, frames[1..], start);
      }
    }
  }

  /** The carrier can only fail from now on. */
  predicate Failed(c: Carrier) {
    c.fatal.Some? || Drain(c.buf).bad.Some?
  }

  /** An error from Feed is final: every later Feed, of any bytes, fails as well. */
  lemma ErrorIsFinal(p: Parsers, c: Carrier, data: Bytes)
    requires StreamsValid(c.streams)
    ensures Feed(p, c, data).1.Err? ==> Failed(Feed(p, c, data).0)
    ensures Failed(c) ==> Feed(p, c, data).1.Err?
    ensures Failed(c) ==> Feed(p, c, data).0.streams == c.streams
  {
    hide RouteAll, StreamsValid, Parse;
    DrainSplit(c.buf, data);
    var d := Drain(c.buf + data);
    DrainStops(c.buf + data);
  }

  // ------------------------------------------------------------ runs

  datatype Entry = Opening(id: U32) | Happening(event: (U32, StreamEvent))

  /** A carrier, the events its consumer has not drained, and all that was told it. */
  datatype World = World(carrier: Carrier, undrained: Events, log: seq<Entry>)

  const START := World(Carrier([], map[], None), [], [])

  datatype Action =
    | Open(openId: U32)
    | Remove(removeId: U32)
    | Receive(data: Bytes)
    | DrainOne(index: nat)

  /** The phase of a stream since it was last opened; a misplaced event is never forgotten. */
  function PhaseIn(log: seq<Entry>, id: U32): Phase {
    if log == [] then Unopened
    else
      var q := PhaseIn(log[..|log| - 1], id);
      match log[|log| - 1]
      case Opening(k) => if k == id && q != Misplaced then Awaiting else q
      case Happening(e) => if e.0 == id then Advance(q, e.1.item) else q
  }

  function Logged(events: Events): seq<Entry> {
    seq(|events|, i requires 0 <= i < |events| => Happening(events[i]))
  }

  lemma {:induction false} LoggedPhase(log: seq<Entry>, events: Events, id: U32)
    ensures PhaseIn(log + Logged(events), id) == PhaseAfter(PhaseIn(log, id), events, id)
  {
    if events == [] {
      assert log + Logged(events) == log;
    } else {
      var init := events[..|events| - 1];
      LoggedPhase(log, init, id);
      assert (log + Logged(events))[..|log| + |init|] == log + Logged(init);
    }
  }

  /** Every stream's events so far have the shape (Head Body*)? End?, in each of its lives. */
  predicate Shaped(w: World) {
    && (w.carrier.fatal.None? ==> forall id :: id in w.carrier.streams ==>
          PhaseIn(w.log, id) == PhaseOf(w.carrier.streams[id]))
    && (forall id: U32 :: PhaseIn(w.log, id) != Misplaced)
  }

  predicate Inv(w: World) {
    && (forall id :: id in w.carrier.streams ==>
          var s := w.carrier.streams[id];
          && s.Valid()
          && s.assembler.pendingWire + Owed(w.undrained, id) <= s.window.Outstanding())
    && (w.carrier.fatal.None? ==> forall id :: id in w.carrier.streams ==>
          Settles(w.carrier.streams[id], Owed(w.undrained, id)))
  }

  function Opened(w: World, id: U32): World {
    World(w.carrier.(streams := w.carrier.streams[id := NEW_STREAM]), w.undrained, w.log + [Opening(id)])
  }

  /** Consuming this event would be more than its stream was debited: a panic. */
  predicate Overdraws(w: World, i: nat)
    requires StreamsValid(w.carrier.streams) && i < |w.undrained|
  {
    var (id, event) := w.undrained[i];
    id in w.carrier.streams && event.cost > w.carrier.streams[id].window.Outstanding()
  }

  predicate Overdrawn(w: World)
    requires StreamsValid(w.carrier.streams)
  {
    exists i :: 0 <= i < |w.undrained| && Overdraws(w, i)
  }

  lemma {:induction false} RouteAllValid(p: Parsers, t: Turn, frames: seq<Frame>)
    requires StreamsValid(t.streams)
    ensures StreamsValid(RouteAll(p, t, frames).0.streams)
    decreases |frames|
  {
    hide Route, StreamsValid;
    if frames != [] {
      var f := frames[0];
      if f.streamId != 0 {
        RouteValid(p, t, f);
        RouteAllValid(p, Route(p, t, f), frames[1..]);
      } else if RouteControl(t, f).Some? {
        RouteAllValid(p, RouteControl(t, f).value, frames[1..]);
      }
    }
  }

  lemma FeedValid(p: Parsers, c: Carrier, data: Bytes)
    requires StreamsValid(c.streams)
    ensures StreamsValid(Feed(p, c, data).0.streams)
  {
    hide RouteAll, Drain, StreamsValid;
    RouteAllValid(p, Turn(c.streams, NO_OUTPUT), Drain(c.buf + data).frames);
  }

  lemma NewStreamValid()
    ensures NEW_STREAM.Valid()
  {
    assert C.Find([], HEAD_END).None?;
  }

  /** Any action; draining an event that would overdraw does not happen. */
  function Act(p: Parsers, w: World, a: Action): (w': World)
    requires StreamsValid(w.carrier.streams)
    ensures StreamsValid(w'.carrier.streams)
  {
    match a
    case Open(id) => NewStreamValid(); Opened(w, id)
    case Remove(id) => w.(carrier := w.carrier.(streams := w.carrier.streams - {id}))
    case Receive(data) =>
      FeedValid(p, w.carrier, data);
      var (c, r) := Feed(p, w.carrier, data);
      (match r
       case Err(_) => w.(carrier := c)
       case Ok(out) => World(c, w.undrained + out.events, w.log + Logged(out.events)))
    case DrainOne(i) =>
      if i >= |w.undrained| || Overdraws(w, i) then w
      else
        var (id, event) := w.undrained[i];
        World(w.carrier.(streams := Consume(w.carrier.streams, id, event.cost).0),
              w.undrained[..i] + w.undrained[i + 1..], w.log)
  }

  lemma DrainIsCovered(w: World, i: nat)
    requires Inv(w) && i < |w.undrained|
    ensures StreamsValid(w.carrier.streams) && !Overdraws(w, i)
  {
    hide Assembler.Valid;
    InvValid(w);
    OwedWithout(w.undrained, i, w.undrained[i].0);
  }

  lemma InvValid(w: World)
    requires Inv(w)
    ensures StreamsValid(w.carrier.streams)
  {
    hide Owed, Settles, Assembler.Valid;
  }

  /** An id is opened with an event of an earlier life still owed. */
  predicate OpensOwed(w: World, a: Action) {
    a.Open? && Owed(w.undrained, a.openId) > 0
  }

  lemma OpenKeeps(w: World, id: U32)
    requires Inv(w) && Owed(w.undrained, id) == 0
    ensures Inv(Opened(w, id))
  {
    hide Owed, Assembler.Valid;
    NewStreamSettles();
  }

  lemma NewStreamSettles()
    ensures NEW_STREAM.Valid() && Settles(NEW_STREAM, 0)
  {
    assert C.Find([], HEAD_END).None?;
  }

  lemma OpeningPhase(log: seq<Entry>, k: U32, id: U32)
    ensures PhaseIn(log + [Opening(k)], id) ==
            if k == id && PhaseIn(log, id) != Misplaced then Awaiting else PhaseIn(log, id)
  {
    assert (log + [Opening(k)])[..|log|] == log;
  }

  lemma {:induction false} OwedHasEvent(events: Events, id: U32)
    ensures Owed(events, id) > 0 <==> exists i :: 0 <= i < |events| && events[i].0 == id && events[i].1.cost > 0
    decreases |events|
  {
    if events != [] {
      var rest := events[1..];
      OwedHasEvent(rest, id);
      if Owed(rest, id) > 0 {
        var i :| 0 <= i < |rest| && rest[i].0 == id && rest[i].1.cost > 0;
        assert events[i + 1] == rest[i];
      }
      forall i | 0 < i < |events| ensures events[i] == rest[i - 1] {}
    }
  }

  /** Opening an id with anything owed leaves an event that would panic when drained. */
  lemma ReopeningOverdraws(w: World, id: U32)
    requires Inv(w)
    ensures StreamsValid(Opened(w, id).carrier.streams)
    ensures Overdrawn(Opened(w, id)) <==> Owed(w.undrained, id) > 0
  {
    hide Owed, Assembler.Valid;
    InvValid(w);
    NewStreamValid();
    var w' := Opened(w, id);
    OwedHasEvent(w.undrained, id);
    if Owed(w.undrained, id) > 0 {
      var i :| 0 <= i < |w.undrained| && w.undrained[i].0 == id && w.undrained[i].1.cost > 0;
      assert Overdraws(w', i);
    }
    forall i | 0 <= i < |w.undrained| && w.undrained[i].0 != id ensures !Overdraws(w', i) {
      DrainIsCovered(w, i);
    }
  }

  lemma RemoveKeeps(p: Parsers, w: World, id: U32)
    requires Inv(w)
    ensures StreamsValid(w.carrier.streams)
    ensures Inv(Act(p, w, Remove(id)))
  {
    hide Owed, Settles, Assembler.Valid;
    InvValid(w);
  }

  lemma DrainKeeps(p: Parsers, w: World, i: nat)
    requires Inv(w) && i < |w.undrained|
    ensures StreamsValid(w.carrier.streams)
    ensures Inv(Act(p, w, DrainOne(i)))
  {
    hide Owed, Assembler.Valid;
    InvValid(w);
    DrainIsCovered(w, i);
    forall id: U32 { OwedWithout(w.undrained, i, id); }
  }

  /** What a successful Feed leaves, in terms of the turn it took. */
  lemma ReceiveKeeps(p: Parsers, w: World, data: Bytes)
    requires Inv(w)
    ensures StreamsValid(w.carrier.streams)
    ensures Inv(Act(p, w, Receive(data)))
  {
    hide Assembler.Valid, Accounted, RouteAll, Drain, Owed, Settles;
    InvValid(w);
    if w.carrier.fatal.None? {
      var d := Drain(w.carrier.buf + data);
      if d.bad.None? {
        StartAccounts(w);
        RouteAllAccounts(p, Turn(w.carrier.streams, NO_OUTPUT), d.frames, w.undrained);
        var (t, fatal) := RouteAll(p, Turn(w.carrier.streams, NO_OUTPUT), d.frames);
        if fatal.None? {
          OutcomeKeeps(w, t, Act(p, w, Receive(data)));
        } else {
          FatalKeeps(w, t, Act(p, w, Receive(data)));
        }
      }
    }
  }

  lemma StartAccounts(w: World)
    requires Inv(w) && w.carrier.fatal.None?
    ensures Accounted(Turn(w.carrier.streams, NO_OUTPUT), w.undrained)
  {
    hide Assembler.Valid;
  }

  lemma OutcomeKeeps(w: World, t: Turn, w': World)
    requires Accounted(t, w.undrained)
    requires w'.carrier.streams == t.streams && w'.undrained == w.undrained + t.out.events
    ensures Inv(w')
  {
    hide Owed, Assembler.Valid;
    forall id: U32 { OwedAppend(w.undrained, t.out.events, id); }
  }

  /** A fatal violation discards the output, so what was debited for it stays outstanding. */
  lemma FatalKeeps(w: World, t: Turn, w': World)
    requires Accounted(t, w.undrained)
    requires w'.carrier.streams == t.streams && w'.carrier.fatal.Some? && w'.undrained == w.undrained
    ensures Inv(w')
  {
    hide Owed, Assembler.Valid;
  }

  lemma ActKeeps(p: Parsers, w: World, a: Action)
    requires Inv(w) && !OpensOwed(w, a)
    ensures StreamsValid(w.carrier.streams)
    ensures Inv(Act(p, w, a))
  {
    hide Inv, Owed, Feed, Consume;
    InvValid(w);
    match a
    case Open(id) => OpenKeeps(w, id);
    case Remove(id) => RemoveKeeps(p, w, id);
    case Receive(data) => ReceiveKeeps(p, w, data);
    case DrainOne(i) =>
      if i < |w.undrained| {
        DrainKeeps(p, w, i);
      }
  }

  function Run(p: Parsers, w: World, actions: seq<Action>): (w': World)
    requires StreamsValid(w.carrier.streams)
    ensures StreamsValid(w'.carrier.streams)
    decreases |actions|
  {
    if actions == [] then w else Run(p, Act(p, w, actions[0]), actions[1..])
  }

  /** Some open of the run finds its id still owed. */
  predicate EverOpensOwed(p: Parsers, w: World, actions: seq<Action>)
    requires StreamsValid(w.carrier.streams)
    decreases |actions|
  {
    actions != [] && (OpensOwed(w, actions[0]) || EverOpensOwed(p, Act(p, w, actions[0]), actions[1..]))
  }

  /** At some point of the run an event would panic if it were drained. */
  predicate EverOverdrawn(p: Parsers, w: World, actions: seq<Action>)
    requires StreamsValid(w.carrier.streams)
    decreases |actions|
  {
    Overdrawn(w) || (actions != [] && EverOverdrawn(p, Act(p, w, actions[0]), actions[1..]))
  }

  lemma InvIsCovered(w: World)
    requires Inv(w)
    ensures StreamsValid(w.carrier.streams) && !Overdrawn(w)
  {
    hide Inv;
    InvValid(w);
    forall i | 0 <= i < |w.undrained| ensures !Overdraws(w, i) {
      DrainIsCovered(w, i);
    }
  }

  lemma {:induction false} RunKeeps(p: Parsers, w: World, actions: seq<Action>)
    requires Inv(w)
    ensures StreamsValid(w.carrier.streams)
    ensures !EverOpensOwed(p, w, actions) ==> Inv(Run(p, w, actions))
    ensures EverOverdrawn(p, w, actions) <==> EverOpensOwed(p, w, actions)
    decreases |actions|
  {
    hide Inv, Act, Overdrawn, OpensOwed;
    InvIsCovered(w);
    if actions != [] {
      if OpensOwed(w, actions[0]) {
        OwedOpenOverdraws(p, w, actions[0], actions[1..]);
      } else {
        ActKeeps(p, w, actions[0]);
        RunKeeps(p, Act(p, w, actions[0]), actions[1..]);
      }
    }
  }

  lemma OwedOpenOverdraws(p: Parsers, w: World, a: Action, rest: seq<Action>)
    requires Inv(w) && OpensOwed(w, a)
    ensures StreamsValid(w.carrier.streams) && EverOverdrawn(p, Act(p, w, a), rest)
  {
    hide Inv;
    InvValid(w);
    ReopeningOverdraws(w, a.openId);
  }

  // ------------------------------------------------------------ shape over runs

  lemma ReceiveShapes(p: Parsers, w: World, data: Bytes)
    requires Shaped(w) && StreamsValid(w.carrier.streams)
    ensures Shaped(Act(p, w, Receive(data)))
  {
    hide PhaseIn, RouteAll, Drain, PhaseAfter, StreamsValid;
    if w.carrier.fatal.None? {
      var d := Drain(w.carrier.buf + data);
      if d.bad.None? {
        var start: Phases := (id: U32) => PhaseIn(w.log, id);
        assert InShape(Turn(w.carrier.streams, NO_OUTPUT), start) by { NothingHappened(w, start); }
        RouteAllInShape(p, Turn(w.carrier.streams, NO_OUTPUT), d.frames, start);
        var (t, fatal) := RouteAll(p, Turn(w.carrier.streams, NO_OUTPUT), d.frames);
        if fatal.None? {
          OutcomeShapes(w, t, start, Act(p, w, Receive(data)));
        }
      }
    }
  }

  lemma OutcomeShapes(w: World, t: Turn, start: Phases, w': World)
    requires InShape(t, start) && forall id: U32 :: start(id) == PhaseIn(w.log, id)
    requires w'.carrier.streams == t.streams && w'.log == w.log + Logged(t.out.events)
    ensures Shaped(w')
  {
    hide PhaseIn, PhaseAfter, Logged;
    forall id: U32 { LoggedPhase(w.log, t.out.events, id); }
  }

  lemma NothingHappened(w: World, start: Phases)
    requires Shaped(w) && w.carrier.fatal.None? && forall id: U32 :: start(id) == PhaseIn(w.log, id)
    ensures InShape(Turn(w.carrier.streams, NO_OUTPUT), start)
  {
    hide PhaseIn;
  }

  lemma ActShapes(p: Parsers, w: World, a: Action)
    requires Shaped(w) && StreamsValid(w.carrier.streams)
    ensures Shaped(Act(p, w, a))
  {
    hide PhaseIn, Feed, StreamsValid;
    match a
    case Open(id) => forall other: U32 { OpeningPhase(w.log, id, other); }
    case Receive(data) => ReceiveShapes(p, w, data);
    case _ =>
  }

  lemma {:induction false} RunShapes(p: Parsers, w: World, actions: seq<Action>)
    requires Shaped(w) && StreamsValid(w.carrier.streams)
    ensures Shaped(Run(p, w, actions))
    decreases |actions|
  {
    hide Shaped, Act, StreamsValid;
    if actions != [] {
      ActShapes(p, w, actions[0]);
      RunShapes(p, Act(p, w, actions[0]), actions[1..]);
    }
  }

  // ------------------------------------------------------------ the results

  lemma StartIsKept()
    ensures Inv(START) && Shaped(START)
  {
  }

  /**
   Over every run, reopening ids at will: an event that would panic when drained is
   ever present exactly if some open found its id still owed by undrained events.
   */
  lemma OverdrawnIff(p: Parsers, actions: seq<Action>)
    ensures EverOverdrawn(p, START, actions) <==> EverOpensOwed(p, START, actions)
  {
    StartIsKept();
    RunKeeps(p, START, actions);
  }

  /**
   Over every run each stream's events have the shape (Head Body*)? End?; and if no
   open finds its id owed, a live stream's outstanding bytes are exactly its pending
   and undrained ones, so draining any event never consumes more than was debited.
   */
  lemma EveryRunAccounts(p: Parsers, actions: seq<Action>)
    ensures var w := Run(p, START, actions);
            && Shaped(w)
            && (!EverOpensOwed(p, START, actions) ==>
                  && !Overdrawn(w)
                  && (w.carrier.fatal.None? ==> forall id :: id in w.carrier.streams ==>
                        w.carrier.streams[id].window.Outstanding()
                        == w.carrier.streams[id].assembler.pendingWire + Owed(w.undrained, id)))
  {
    hide Owed, Act, EverOpensOwed, Overdrawn, Shaped;
    StartIsKept();
    RunShapes(p, START, actions);
    RunKeeps(p, START, actions);
    if !EverOpensOwed(p, START, actions) {
      InvIsCovered(Run(p, START, actions));
    }
  }

  // ------------------------------------------------------------ a run that panics

  /** A response whose head is not chunked, with a body, within the first window. */
  predicate PlainResponse(p: Parsers, head: Bytes, body: Bytes) {
    && C.Find(head + HEAD_END, HEAD_END) == Some(|head|)
    && p.headOf(head).Some? && !p.isChunked(p.headOf(head).value)
    && body != [] && |head| + 4 + |body| <= INITIAL_WINDOW
  }

  lemma PlainIsFed(p: Parsers, head: Bytes, body: Bytes)
    requires PlainResponse(p, head, body)
    ensures var r := FeedData(p, NEW_ASSEMBLER, head + HEAD_END + body);
            && r.Ok? && r.value.autoConsumed == |head| + 4
            && r.value.events == [StreamEvent(HeadItem(p.headOf(head).value), 0), StreamEvent(BodyItem(body), |body|)]
  {
    hide C.Find;
    var buf := head + HEAD_END + body;
    assert NEW_ASSEMBLER.headBuf + buf == buf;
    C.FindStable(head + HEAD_END, HEAD_END, body);
    assert buf[..|head|] == head && buf[|head| + 4..] == body;
  }

  /** A carrier between frames routes the one frame it is given. */
  lemma OneFrameIsFed(p: Parsers, c: Carrier, f: Frame)
    requires StreamsValid(c.streams) && c.buf == [] && c.fatal.None? && f.Encodable() && f.streamId != 0
    ensures var t := Route(p, Turn(c.streams, NO_OUTPUT), f);
            Feed(p, c, RawBytes(f)) == (c.(streams := t.streams), Ok(t.out))
  {
    hide Route, Parse, RawBytes;
    var t := Turn(c.streams, NO_OUTPUT);
    ParseEncoded(f, []);
    assert c.buf + RawBytes(f) == RawBytes(f) + [];
    DrainGot(RawBytes(f) + [], f, []);
    NothingToDrain();
    RouteValid(p, t, f);
    var frames: seq<Frame> := [f];
    assert [f] + [] == frames && frames[1..] == [];
    assert RouteAll(p, t, frames) == RouteAll(p, Route(p, t, f), []);
  }

  lemma NothingToDrain()
    ensures Drain([]) == Drained([], [], None)
  {
  }

  /** After one response nobody drained, its body is owed. */
  lemma ResponseIsOwed(p: Parsers, id: U32, head: Bytes, body: Bytes)
    requires PlainResponse(p, head, body) && id != 0
    ensures var t := Route(p, Turn(map[id := NEW_STREAM], NO_OUTPUT), Frame(id, FLAG_DATA, head + HEAD_END + body));
            StreamsValid(map[id := NEW_STREAM]) && Owed(t.out.events, id) == |body|
  {
    hide FeedData, PlainResponse, C.Find;
    NewStreamValid();
    PlainIsFed(p, head, body);
    var events := FeedData(p, NEW_ASSEMBLER, head + HEAD_END + body).value.events;
    PlainFits(p, head, body);
    assert [] + Tag(id, events) == Tag(id, events);
    OwedTagged(id, events, id);
    assert events[1..][1..] == [] && events[1..][0] == events[1];
    assert Costs(events) == events[0].cost + Costs(events[1..]);
    var f := Frame(id, FLAG_DATA, head + HEAD_END + body);
    assert FlagsValid(f.flags) && !Opens(f.flags) && !Closes(f.flags);
    var t := Turn(map[id := NEW_STREAM], NO_OUTPUT);
    assert t.streams[id] == NEW_STREAM;
    assert Route(p, t, f) == RouteData(p, t, f);
  }

  lemma PlainFits(p: Parsers, head: Bytes, body: Bytes)
    requires PlainResponse(p, head, body)
    ensures NEW_WINDOW.Admits(|head + HEAD_END + body|) && |head + HEAD_END + body| <= MAX_PAYLOAD && body != []
  {
  }

  lemma RunFirst(p: Parsers, w: World, a: Action, rest: seq<Action>)
    requires StreamsValid(w.carrier.streams)
    ensures Run(p, w, [a] + rest) == Run(p, Act(p, w, a), rest)
    ensures EverOpensOwed(p, w, [a] + rest) <==> OpensOwed(w, a) || EverOpensOwed(p, Act(p, w, a), rest)
    ensures rest == [] ==> Run(p, w, [a] + rest) == Act(p, w, a)
  {
    hide Act, OpensOwed;
    assert ([a] + rest)[1..] == rest;
  }

  /**
   Such a run: a stream is opened, its response received and not drained, and the
   same id opened again. Draining the body event would now panic.
   */
  lemma ReopeningPanics(p: Parsers, id: U32, head: Bytes, body: Bytes)
    requires PlainResponse(p, head, body) && id != 0
    ensures |head + HEAD_END + body| <= MAX_PAYLOAD
    ensures var data := RawBytes(Frame(id, FLAG_DATA, head + HEAD_END + body));
            var actions := [Open(id), Receive(data), Open(id)];
            EverOpensOwed(p, START, actions) && Overdrawn(Run(p, START, actions))
  {
    hide PlainResponse, Route, RawBytes, Feed, Overdrawn, EverOpensOwed, Run, Owed;
    PlainFits(p, head, body);
    var f := Frame(id, FLAG_DATA, head + HEAD_END + body);
    var last := [Open(id)] + [];
    var second := [Receive(RawBytes(f))] + last;
    assert [Open(id), Receive(RawBytes(f)), Open(id)] == [Open(id)] + second;
    StartIsKept();
    NewStreamValid();
    var w1 := Act(p, START, Open(id));
    assert w1.carrier == Carrier([], map[id := NEW_STREAM], None) && w1.undrained == [];
    NothingOwed(id);
    OpenKeeps(START, id);
    RunFirst(p, START, Open(id), second);
    OneFrameIsFed(p, w1.carrier, f);
    ResponseIsOwed(p, id, head, body);
    ReceiveKeeps(p, w1, RawBytes(f));
    RunFirst(p, w1, Receive(RawBytes(f)), last);
    var w2 := Act(p, w1, Receive(RawBytes(f)));
    var t := Route(p, Turn(map[id := NEW_STREAM], NO_OUTPUT), f);
    assert w2.undrained == [] + t.out.events == t.out.events;
    RunFirst(p, w2, Open(id), []);
    ReopeningOverdraws(w2, id);
  }

  lemma NothingOwed(id: U32)
    ensures Owed([], id) == 0
  {
  }

  /** In the output of any successful Feed, an ended stream is gone and gets no WINDOW. */
  lemma EndedStreamsGetNoWindow(p: Parsers, c: Carrier, data: Bytes, id: U32)
    requires StreamsValid(c.streams)
    requires Feed(p, c, data).1.Ok? && EndsIn(Feed(p, c, data).1.value.events, id)
    ensures id !in Feed(p, c, data).0.streams
    ensures !WindowIn(Feed(p, c, data).1.value.emits, id)
  {
    hide RouteAll, EndsIn, WindowIn, Drain;
    var d := Drain(c.buf + data);
    var t := Turn(c.streams, NO_OUTPUT);
    assert NoLateWindow(t) by { NothingEnds(); }
    RouteAllNoLate(p, t, d.frames);
  }

  lemma NothingEnds()
    ensures forall id: U32 :: !EndsIn([], id)
  {
  }

  lemma {:induction false} RouteAllNoLate(p: Parsers, t: Turn, frames: seq<Frame>)
    requires NoLateWindow(t) && StreamsValid(t.streams)
    ensures NoLateWindow(RouteAll(p, t, frames).0)
    decreases |frames|
  {
    hide Route, StreamsValid, EndsIn, WindowIn;
    if frames != [] {
      var f := frames[0];
      if f.streamId != 0 {
        RouteValid(p, t, f);
        RouteNoLate(p, t, f);
        RouteAllNoLate(p, Route(p, t, f), frames[1..]);
      } else if RouteControl(t, f).Some? {
        RouteAllNoLate(p, RouteControl(t, f).value, frames[1..]);
      }
    }
  }
}
