/**
 What a reader has been handed when it is told the stream's other side has closed:
 from the home, every byte it accepted for sending; from the bridge, every byte
 sent before the half-close, which is everything exactly when nothing was deferred
 at that moment.
 */
module DuplexEnds {
  import opened Outcomes
  import opened Wire
  import opened Flow
  import opened Links
  import opened Duplex
  import opened DuplexBytes
  import opened BridgeOrder
  import B = Bridge
  import H = Listener

  // ------------------------------------------------------------ told ends

  /** The home's reader of a stream was told it is closed. */
  predicate ReadEnd(events: seq<H.Event>, id: U32) {
    exists i :: 0 <= i < |events| && events[i] == H.ReadClosed(id)
  }

  /** The bridge's reader of a stream was told it is closed. */
  predicate WriteEnd(inbound: seq<B.Delivery>, id: U32) {
    exists i :: 0 <= i < |inbound| && inbound[i] == B.Ended(id, B.EndClosed)
  }

  lemma ReadEndAppend(events: seq<H.Event>, e: H.Event, id: U32)
    ensures ReadEnd(events + [e], id) <==> ReadEnd(events, id) || e == H.ReadClosed(id)
  {
    var all := events + [e];
    if ReadEnd(events, id) {
      var i :| 0 <= i < |events| && events[i] == H.ReadClosed(id);
      assert all[i] == events[i];
    }
    if e == H.ReadClosed(id) {
      assert all[|events|] == e;
    }
  }

  lemma WriteEndAppend(inbound: seq<B.Delivery>, item: B.Delivery, id: U32)
    ensures WriteEnd(inbound + [item], id) <==> WriteEnd(inbound, id) || item == B.Ended(id, B.EndClosed)
  {
    var all := inbound + [item];
    if WriteEnd(inbound, id) {
      var i :| 0 <= i < |inbound| && inbound[i] == B.Ended(id, B.EndClosed);
      assert all[i] == inbound[i];
    }
    if item == B.Ended(id, B.EndClosed) {
      assert all[|inbound|] == item;
    }
  }

  // ------------------------------------------------------------ the home

  /**
   A CLOSE, and nothing else, half-closes a live stream and tells its reader; DATA
   behind it ends the stream.
   */
  predicate Marks(t: H.Turn, t': H.Turn, f: Frame, id: U32) {
    var closes := f.streamId == id && f.flags == FLAG_CLOSE && id in t.mux.streams;
    && (ReadEnd(t'.out.events, id) <==> ReadEnd(t.out.events, id) || closes)
    && (id in t.mux.streams && t.mux.streams[id].peerClosed && f.streamId == id && f.flags == FLAG_DATA ==>
          id !in t'.mux.streams)
    && (id in t'.mux.streams ==>
          if id in t.mux.streams then
            && t'.mux.streams[id].peerClosed == (t.mux.streams[id].peerClosed || closes)
            && t'.mux.streams[id].localClosed == t.mux.streams[id].localClosed
          else
            f.streamId == id && f.flags == FLAG_OPEN && !t'.mux.streams[id].peerClosed)
  }

  lemma RefuseMarks(t: H.Turn, t0: H.Turn, f: Frame, c: H.Class, id: U32)
    requires t0.mux.streams == t.mux.streams && t0.out == t.out && f.flags != FLAG_CLOSE
    ensures Marks(t, H.Refuse(t0, f.Violation(), c), f, id)
  {
    hide ReadEnd;
    ReadEndAppend(t.out.events, H.WasReset(f.streamId, H.ReasonOf(c)), id);
  }

  lemma OpenMarks(t: H.Turn, f: Frame, id: U32)
    requires f.flags == FLAG_OPEN && f.payload == [] && f.streamId !in t.mux.streams
    ensures Marks(t, H.HandleOpen(t, f), f, id)
  {
    hide ReadEnd, H.Refuse;
    var raised := t.(mux := t.mux.(highWater := Some(f.streamId)));
    RefuseMarks(t, t, f, H.Protocol, id);
    RefuseMarks(t, raised, f, H.StreamLimit, id);
    RefuseMarks(t, raised, f, H.FlowControl, id);
    assert [H.Opened(f.streamId)] + [] == [H.Opened(f.streamId)];
    ReadEndAppend(t.out.events, H.Opened(f.streamId), id);
  }

  lemma LiveMarks(t: H.Turn, f: Frame, id: U32)
    requires Shaped(f) && f.streamId in t.mux.streams && f.flags != FLAG_OPEN && f.streamId != 0
    ensures Marks(t, H.HandleStream(t, f), f, id)
  {
    hide ReadEnd, H.Refuse;
    if f.flags != FLAG_CLOSE {
      RefuseMarks(t, t, f, H.Protocol, id);
      RefuseMarks(t, t, f, H.FlowControl, id);
    }
    ReadEndAppend(t.out.events, H.Data(f.streamId, f.payload), id);
    ReadEndAppend(t.out.events, H.ReadClosed(f.streamId), id);
    if |f.payload| == 1 {
      ReadEndAppend(t.out.events, H.WasReset(f.streamId, H.ReasonFromWire(f.payload[0])), id);
    }
  }

  lemma HandleMarks(t: H.Turn, f: Frame, id: U32)
    requires Shaped(f) && f.streamId != 0 && (f.flags == FLAG_OPEN ==> f.streamId !in t.mux.streams)
    ensures H.Handle(t, f).Ok? && Marks(t, H.Handle(t, f).value, f, id)
  {
    hide Marks, H.Refuse, H.HandleOpen, H.HandleData, H.MarkPeerClosed, H.HandleReset, H.HandleWindow;
    if f.flags == FLAG_OPEN {
      OpenMarks(t, f, id);
    } else if f.streamId in t.mux.streams {
      LiveMarks(t, f, id);
    } else if f.flags == FLAG_CLOSE || f.flags == FLAG_RESET {
      SameMarks(t, f, id);
    } else {
      RefuseMarks(t, t, f, H.Protocol, id);
    }
  }

  lemma SameMarks(t: H.Turn, f: Frame, id: U32)
    requires f.streamId !in t.mux.streams
    ensures Marks(t, t, f, id)
  {
  }

  // ------------------------------------------------------------ the bridge

  /** A received CLOSE, and nothing else, tells the bridge's reader. */
  lemma ReceiveTells(d: B.Desk, f: Frame, taken: bool, id: U32)
    requires Shaped(f) && f.flags != FLAG_OPEN && f.streamId != 0
    ensures WriteEnd(B.Receive(d, f, taken).desk.inbound, id) <==>
            WriteEnd(d.inbound, id) || (f.streamId == id && f.flags == FLAG_CLOSE && id in d.streams)
  {
    hide WriteEnd, B.DrainPending;
    var k := f.streamId;
    WriteEndAppend(d.inbound, B.Ended(k, B.EndReset(B.ReasonOf(f))), id);
    WriteEndAppend(d.inbound, B.Ended(k, B.EndClosed), id);
    WriteEndAppend(d.inbound, B.Arrived(k, f.payload), id);
    WriteEndAppend(d.inbound, B.Ended(k, B.EndReset(RESET_PROTOCOL_ERROR)), id);
    WriteEndAppend(d.inbound, B.Ended(k, B.EndReset(RESET_FLOW_CONTROL_ERROR)), id);
    WriteEndAppend(d.inbound, B.Ended(k, B.EndReset(RESET_CANCEL)), id);
    if f.flags == FLAG_WINDOW && k in d.streams && f.WindowCredit().Some? {
      var s := d.streams[k];
      var next := AddCredit(s.sendCredit, f.WindowCredit().value);
      if next.Some? {
        DrainExtends(d.With(k, s.(sendCredit := next.value, creditFlag := true)), k);
      }
    }
  }

  lemma LocalTells(d: B.Desk, k: U32, bytes: Bytes, count: nat, code: Byte, id: U32)
    requires d.Valid()
    ensures WriteEnd(B.Write(d, k, bytes).0.desk.inbound, id) <==> WriteEnd(d.inbound, id)
    ensures WriteEnd(B.Close(d, k).inbound, id) <==> WriteEnd(d.inbound, id)
    ensures WriteEnd(B.ResetStream(d, k, code).inbound, id) <==> WriteEnd(d.inbound, id)
    ensures WriteEnd(B.Consume(d, k, count).inbound, id) <==> WriteEnd(d.inbound, id)
    ensures WriteEnd(B.Open(d).0.inbound, id) <==> WriteEnd(d.inbound, id)
  {
    hide WriteEnd;
    WriteEndAppend(d.inbound, B.Ended(k, B.EndReset(code)), id);
    WriteEndAppend(d.inbound, B.Ended(k, B.EndReset(RESET_PROTOCOL_ERROR)), id);
  }

  // ------------------------------------------------------------ the invariant

  /** The frames of a stream the home has handled: all but those still queued. */
  function Handled(queue: seq<Frame>, wire: seq<Frame>): seq<Frame> {
    if |queue| <= |wire| then wire[..|wire| - |queue|] else []
  }

  /** What is queued is the end of what was ever put on the wire. */
  predicate Tail(queue: seq<Frame>, wire: seq<Frame>) {
    |queue| <= |wire| && wire == Handled(queue, wire) + queue
  }

  predicate UpEnds(p: Pair, wire: seq<Frame>, id: U32) {
    var queue := Only(p.desk.queue, id);
    && Tail(queue, wire)
    && (id in p.mux.streams && !p.mux.streams[id].peerClosed ==> !Closed(Handled(queue, wire)))
    && (id in p.mux.streams ==> (p.mux.streams[id].peerClosed <==> ReadEnd(p.out.events, id)))
    && (ReadEnd(p.out.events, id) ==>
          Closed(wire) && Readings(p.out.events, id) == Carried(Early(wire)) && !View(p, id).Opening())
  }

  predicate DownEnds(p: Pair, down: Trace, id: U32) {
    WriteEnd(p.desk.inbound, id) ==>
      && Arrivals(p.desk.inbound, id) == down(id)
      && View(p, id).Silent()
      && 0 < id < p.desk.nextId
  }

  /** The traced pair and every stream's story. */
  datatype Joint = Joint(w: World, told: Stories) {
    function Chron(): Chronicle {
      Chronicle(w.p, told)
    }
  }

  ghost predicate Good(j: Joint) {
    && Sound(j.w) && Faithful(j.Chron())
    && (forall id: U32 :: j.w.up(id) == Carried(j.told(id).wire))
    && (forall id: U32 :: UpEnds(j.w.p, j.told(id).wire, id))
    && (forall id: U32 :: DownEnds(j.w.p, j.w.down, id))
  }

  ghost function Advance(j: Joint, step: Step): Joint
    requires Inv(j.w.p)
  {
    Joint(Move(j.w, step), Proceed(j.Chron(), step).told)
  }

  // ------------------------------------------------------------ queueing

  /** Frames queued go to the end of both. */
  lemma TailGrows(queue: seq<Frame>, wire: seq<Frame>, news: seq<Frame>)
    requires Tail(queue, wire)
    ensures Tail(queue + news, wire + news) && Handled(queue + news, wire + news) == Handled(queue, wire)
  {
  }

  lemma TailPops(queue: seq<Frame>, wire: seq<Frame>)
    requires Tail(queue, wire) && queue != []
    ensures Tail(queue[1..], wire) && Handled(queue[1..], wire) == Handled(queue, wire) + [queue[0]]
  {
  }

  /** An OPEN in front of a stream's queue means nothing of it was handled. */
  lemma OpeningIsFirst(queue: seq<Frame>, s: Story)
    requires Tail(queue, s.wire) && BridgeOrder.Opens(s) && queue != [] && queue[0].flags == FLAG_OPEN
    ensures Handled(queue, s.wire) == []
  {
    assert s.wire[|s.wire| - |queue|] == queue[0];
  }

  /** Steps that leave the home's state of a stream alone and queue frames of it. */
  lemma QueuedUpEnds(p: Pair, p': Pair, wire: seq<Frame>, id: U32, news: seq<Frame>)
    requires UpEnds(p, wire, id) && p'.out.events == p.out.events && p'.mux.streams == p.mux.streams
    requires Only(p'.desk.queue, id) == Only(p.desk.queue, id) + news
    requires ReadEnd(p.out.events, id) ==> !View(p', id).Opening()
    ensures UpEnds(p', wire + news, id)
  {
    hide Only, Closed, Early, ReadEnd, Readings, Carried;
    TailGrows(Only(p.desk.queue, id), wire, news);
    ClosedAppend(wire, news);
    EarlyAppend(wire, news);
  }

  /** Home calls: a stream may go or half-close locally. */
  lemma CalledUpEnds(p: Pair, p': Pair, wire: seq<Frame>, id: U32)
    requires UpEnds(p, wire, id) && p'.out.events == p.out.events && p'.desk == p.desk
    requires id in p'.mux.streams ==>
               id in p.mux.streams && p'.mux.streams[id].peerClosed == p.mux.streams[id].peerClosed
    ensures UpEnds(p', wire, id)
  {
    hide Only, Closed, Early, ReadEnd, Readings, Carried;
  }

  lemma {:induction false} CancelTail(a: Bytes, b: Bytes, c: Bytes)
    requires a + c == b + c
    ensures a == b
  {
    assert |a| == |b|;
    assert a == (a + c)[..|a|] && b == (b + c)[..|b|];
  }

  /** What a live stream's reader has is what was handled. */
  lemma ReadIsHandled(p: Pair, up: Trace, s: Story, id: U32)
    requires UpOk(p, up, id) && up(id) == Carried(s.wire) && Tail(Only(p.desk.queue, id), s.wire)
    requires id in p.mux.streams || View(p, id).Opening()
    ensures Readings(p.out.events, id) == Carried(Handled(Only(p.desk.queue, id), s.wire))
  {
    hide Only, Readings, Carried;
    var queue := Only(p.desk.queue, id);
    CarriedAppend(Handled(queue, s.wire), queue);
    CancelTail(Readings(p.out.events, id), Carried(Handled(queue, s.wire)), Carried(queue));
  }

  lemma EarlyAtClose(handled: seq<Frame>, f: Frame, rest: seq<Frame>)
    requires !Closed(handled) && f.flags == FLAG_CLOSE
    ensures Closed(handled + [f] + rest) && Early(handled + [f] + rest) == handled
  {
    hide Closed, Early;
    assert handled + [f] + rest == handled + ([f] + rest);
    ClosedAppend(handled, [f] + rest);
    ClosedAppend([f], rest);
    OneClose(f);
    EarlyAppend(handled, [f] + rest);
    EarlyAppend([f], rest);
    assert handled + [] == handled;
  }

  lemma StillOpen(handled: seq<Frame>, f: Frame)
    requires !Closed(handled) && f.flags != FLAG_CLOSE
    ensures !Closed(handled + [f])
  {
    ClosedAppend(handled, [f]);
  }

  /** The home handles the next frame of the bridge. */
  lemma HandledUpEnds(p: Pair, p': Pair, up: Trace, s: Story, id: U32)
    requires Inv(p) && UpOk(p, up, id) && up(id) == Carried(s.wire) && UpEnds(p, s.wire, id) && BridgeOrder.Opens(s)
    requires p.desk.queue != [] && p'.desk.queue == p.desk.queue[1..]
    requires var t, t' := H.Turn(p.mux, p.out), H.Turn(p'.mux, p'.out);
             Hears(t, t', p.desk.queue[0]) && Marks(t, t', p.desk.queue[0], id)
    ensures UpEnds(p', s.wire, id)
  {
    hide Closed, Early, ReadEnd, Readings, Carried, LinkInv, Extends, Inv, Only;
    var f := p.desk.queue[0];
    var queue, queue' := Only(p.desk.queue, id), Only(p'.desk.queue, id);
    OnlyFirst(p.desk.queue, id);
    StillOpening(p, p', id);
    NextUp(p);
    if f.streamId != id {
      assert Part(f, id) == [];
      assert Readings(p.out.events, id) + [] == Readings(p.out.events, id);
    } else {
      TailPops(queue, s.wire);
      OwnFrame(p, p', up, s, id);
    }
  }

  lemma OwnFrame(p: Pair, p': Pair, up: Trace, s: Story, id: U32)
    requires UpOk(p, up, id) && up(id) == Carried(s.wire) && UpEnds(p, s.wire, id) && BridgeOrder.Opens(s)
    requires p.desk.queue != [] && p.desk.queue[0].streamId == id && Shaped(p.desk.queue[0])
    requires p.desk.queue[0].flags == FLAG_OPEN ==> View(p, id).Opening() && id !in p.mux.streams
    requires !View(p', id).Opening()
    requires var queue, queue' := Only(p.desk.queue, id), Only(p'.desk.queue, id);
             && queue != [] && queue[0] == p.desk.queue[0] && queue' == queue[1..]
             && Tail(queue', s.wire) && Handled(queue', s.wire) == Handled(queue, s.wire) + [queue[0]]
    requires var t, t' := H.Turn(p.mux, p.out), H.Turn(p'.mux, p'.out);
             Hears(t, t', p.desk.queue[0]) && Marks(t, t', p.desk.queue[0], id)
    ensures UpEnds(p', s.wire, id)
  {
    hide Closed, Early, ReadEnd, Readings, Carried, Extends, Only, LinkView.Opening;
    var f := p.desk.queue[0];
    var queue := Only(p.desk.queue, id);
    var handled := Handled(queue, s.wire);
    if !Closed(handled) && f.flags != FLAG_CLOSE {
      StillOpen(handled, f);
    }
    if id in p.mux.streams {
      if f.flags == FLAG_CLOSE && !p.mux.streams[id].peerClosed {
        ReadIsHandled(p, up, s, id);
        EarlyAtClose(handled, f, queue[1..]);
        assert s.wire == handled + [f] + queue[1..];
        assert Readings(p.out.events, id) + [] == Readings(p.out.events, id);
      }
      assert Readings(p.out.events, id) + [] == Readings(p.out.events, id);
    } else if f.flags == FLAG_OPEN {
      FirstIsOpen(p, id);
      OpeningIsFirst(queue, s);
      NothingClosed();
    }
  }

  lemma FirstIsOpen(p: Pair, id: U32)
    requires View(p, id).Opening()
    ensures Only(p.desk.queue, id) != [] && Only(p.desk.queue, id)[0].flags == FLAG_OPEN
  {
  }

  lemma NothingClosed()
    ensures !Closed([])
  {
  }

  // ------------------------------------------------------------ the bridge's reader

  /** Once nothing more can come down, nothing more is sent down. */
  lemma StaysDown(p: Pair, p': Pair, down: Trace, down': Trace, id: U32)
    requires DownEnds(p, down, id) && down'(id) == down(id)
    requires WriteEnd(p'.desk.inbound, id) <==> WriteEnd(p.desk.inbound, id)
    requires WriteEnd(p.desk.inbound, id) ==>
               && Arrivals(p'.desk.inbound, id) == Arrivals(p.desk.inbound, id)
               && View(p', id).Silent() && p'.desk.nextId >= p.desk.nextId
    ensures DownEnds(p', down', id)
  {
    hide Arrivals, WriteEnd, Only;
  }

  // ------------------------------------------------------------ steps, going up

  lemma TellWire(d: B.Desk, d': B.Desk, step: Step, id: U32, s: Story)
    ensures Tell(d, d', step, id, s).wire == s.wire + if step.HomeReceive? then [] else News(d, d', id)
  {
    hide News, B.Write;
  }

  /** A bridge step other than an open, taken or queued. */
  lemma ExtendedUpEnds(p: Pair, p': Pair, wire: seq<Frame>, id: U32)
    requires UpEnds(p, wire, id) && Extends(p.desk.queue, p'.desk.queue)
    requires p'.out.events == p.out.events && p'.mux.streams == p.mux.streams
    ensures UpEnds(p', wire + News(p.desk, p'.desk, id), id)
  {
    hide Only, Closed, Early, ReadEnd, Readings, Carried, Extends;
    ExtendsPrefix(p.desk.queue, p'.desk.queue);
    Behind(p.desk.queue, p'.desk.queue, id);
    if View(p', id).Opening() {
      ExtendsKeepsOpening(p, p', id);
    }
    QueuedUpEnds(p, p', wire, id, News(p.desk, p'.desk, id));
  }

  lemma ExtendsPrefix(a: seq<Frame>, b: seq<Frame>)
    requires Extends(a, b)
    ensures a <= b
  {
  }

  lemma OpenUpEnds(p: Pair, s: Story, id: U32)
    requires Inv(p) && Allowed(p, BridgeOpen) && UpEnds(p, s.wire, id) && Told(p.desk, id, s)
    ensures var p' := Apply(p, BridgeOpen);
            UpEnds(p', s.wire + News(p.desk, p'.desk, id), id)
  {
    hide Only, Early, ReadEnd, Readings, Carried, Inv, LinkInv, Matches, Ordered, Ended;
    var p' := Apply(p, BridgeOpen);
    InvIsValid(p);
    if p.desk.retired {
      NoNews(p.desk, p'.desk, id);
      assert s.wire + [] == s.wire;
    } else {
      OpenShape(p);
      Behind(p.desk.queue, p'.desk.queue, id);
      OpenCarriesNothing(p.desk.queue, p.desk.nextId, id);
      QueuedUpEnds(p, p', s.wire, id, News(p.desk, p'.desk, id));
    }
  }

  lemma HomeCallMarks(p: Pair, step: Step, id: U32)
    requires p.desk.Valid() && p.mux.Valid() && Allowed(p, step)
    requires step.HomeConsume? || step.HomeSend? || step.HomeClose? || step.HomeReset?
    ensures var p' := Next(p, step);
            id in p'.mux.streams ==>
              && id in p.mux.streams && p'.mux.streams[id].peerClosed == p.mux.streams[id].peerClosed
              && (p.mux.streams[id].localClosed ==> p'.mux.streams[id].localClosed)
  {
  }

  lemma HomeCallUpEnds(p: Pair, step: Step, wire: seq<Frame>, id: U32)
    requires Inv(p) && Allowed(p, step) && UpEnds(p, wire, id)
    requires step.HomeConsume? || step.HomeSend? || step.HomeClose? || step.HomeReset?
    ensures var p' := Apply(p, step);
            UpEnds(p', wire + News(p.desk, p'.desk, id), id)
  {
    hide UpEnds, Inv;
    InvIsValid(p);
    var p' := Apply(p, step);
    HomeCallShape(p, step);
    HomeCallMarks(p, step, id);
    NoNews(p.desk, p'.desk, id);
    assert wire + [] == wire;
    CalledUpEnds(p, p', wire, id);
  }

  lemma HomeReceiveUpEnds(p: Pair, up: Trace, s: Story, id: U32)
    requires Inv(p) && p.desk.queue != [] && UpOk(p, up, id) && up(id) == Carried(s.wire)
    requires UpEnds(p, s.wire, id) && Told(p.desk, id, s)
    ensures UpEnds(Apply(p, HomeReceive), s.wire, id)
  {
    hide UpEnds, Inv, H.Handle, UpOk, Matches, Ordered, Ended, Carried, Marks, Hears;
    InvIsValid(p);
    NextUp(p);
    var t := H.Turn(p.mux, p.out);
    HandleHears(t, p.desk.queue[0]);
    HandleMarks(t, p.desk.queue[0], id);
    HandledUpEnds(p, Apply(p, HomeReceive), up, s, id);
  }

  /** Which bridge steps are quiet. */
  lemma BridgeStepShape(p: Pair, step: Step)
    requires Inv(p) && Allowed(p, step)
    requires step.BridgeWrite? || step.BridgeConsume? || step.BridgeClose? || step.BridgeReset? || step.BridgeRetire?
    ensures var p' := Apply(p, step);
            Quiet(p.desk, p'.desk) && p'.mux == p.mux && p'.out == p.out
  {
    hide Quiet, Inv, B.Write, B.Consume, B.Close, B.ResetStream;
    InvIsValid(p);
    match step
    case BridgeWrite(k, bytes) => WriteIsQuiet(p.desk, k, bytes);
    case BridgeConsume(k, count) => ConsumeIsQuiet(p.desk, k, count);
    case BridgeClose(k) => CloseIsQuiet(p.desk, k);
    case BridgeReset(k, code) => ResetIsQuiet(p.desk, k, code);
    case BridgeRetire => RetireIsQuiet(p.desk);
  }

  lemma QuietExtends(d: B.Desk, d': B.Desk, id: U32)
    requires Quiet(d, d')
    ensures Extends(d.queue, d'.queue) && d'.nextId == d.nextId
    ensures Arrivals(d'.inbound, id) == Arrivals(d.inbound, id)
  {
  }

  lemma ReceiveShape(p: Pair, taken: bool)
    requires Inv(p) && p.out.frames != []
    ensures var p' := Apply(p, BridgeReceive(taken)); var f := p.out.frames[0];
            && Delivers(p.desk, p'.desk, f) && p'.mux == p.mux && p'.out == p.out.(frames := p.out.frames[1..])
            && Shaped(f) && f.flags != FLAG_OPEN && f.streamId != 0
            && p'.desk == B.Receive(p.desk, f, taken).desk
  {
    hide Inv, B.Receive, Delivers;
    InvIsValid(p);
    NextDown(p);
    ReceiveDelivers(p.desk, p.out.frames[0], taken);
  }

  lemma StepUpEnds(w: World, step: Step, s: Story, id: U32)
    requires Sound(w) && Allowed(w.p, step) && UpEnds(w.p, s.wire, id) && Told(w.p.desk, id, s)
    requires w.up(id) == Carried(s.wire)
    ensures var p' := Apply(w.p, step);
            UpEnds(p', Tell(w.p.desk, p'.desk, step, id, s).wire, id)
  {
    hide UpEnds, Inv, Told, Apply, Tell, News, Carried, Delivers, Quiet, UpOk, DownOk;
    var p, p' := w.p, Apply(w.p, step);
    TellWire(p.desk, p'.desk, step, id, s);
    if step.BridgeOpen? {
      OpenUpEnds(p, s, id);
    } else if step.BridgeReceive? {
      ReceiveShape(p, step.taken);
      DeliveryExtends(p.desk, p'.desk, p.out.frames[0]);
      ExtendedUpEnds(p, p', s.wire, id);
    } else if step.HomeReceive? {
      HomeReceiveUpEnds(p, w.up, s, id);
      assert s.wire + [] == s.wire;
    } else if step.HomeConsume? || step.HomeSend? || step.HomeClose? || step.HomeReset? {
      HomeCallUpEnds(p, step, s.wire, id);
    } else {
      BridgeStepShape(p, step);
      QuietExtends(p.desk, p'.desk, id);
      ExtendedUpEnds(p, p', s.wire, id);
    }
  }

  // ------------------------------------------------------------ steps, going down

  lemma {:induction false} NoDataCarriesNothing(frames: seq<Frame>, id: U32)
    requires NoData(frames)
    ensures Carried(frames) == [] && Carried(Only(frames, id)) == []
    decreases |frames|
  {
    if frames != [] {
      NoDataCarriesNothing(frames[1..], id);
      OnlyFirst(frames, id);
    }
  }

  /** Handling a frame never sends DATA. */
  lemma HandleSendsNoData(t: H.Turn, f: Frame)
    requires Shaped(f) && f.streamId != 0
    ensures H.Handle(t, f).Ok? && NoData(Added(t.out.frames, H.Handle(t, f).value.out.frames))
  {
  }

  lemma HomeReceiveDownEnds(p: Pair, down: Trace, id: U32)
    requires Inv(p) && p.desk.queue != [] && DownEnds(p, down, id)
    ensures var p' := Apply(p, HomeReceive);
            DownEnds(p', Traced(down, Added(p.out.frames, p'.out.frames)), id)
  {
    hide Inv, H.Handle, Carried, Arrivals, WriteEnd, Only;
    InvIsValid(p);
    NextUp(p);
    var p' := Apply(p, HomeReceive);
    var t := H.Turn(p.mux, p.out);
    HandleSendsNoData(t, p.desk.queue[0]);
    HandleMarks(t, p.desk.queue[0], id);
    NoDataCarriesNothing(Added(p.out.frames, p'.out.frames), id);
    StillOpening(p, p', id);
    assert down(id) + [] == down(id);
    StaysDown(p, p', down, Traced(down, Added(p.out.frames, p'.out.frames)), id);
  }

  /** A home that has closed its side, or knows the stream no more, sends no DATA on it. */
  lemma SilentCall(p: Pair, step: Step, id: U32)
    requires p.desk.Valid() && p.mux.Valid() && Allowed(p, step)
    requires step.HomeConsume? || step.HomeSend? || step.HomeClose? || step.HomeReset?
    requires id in p.mux.streams ==> p.mux.streams[id].localClosed
    ensures Carried(Only(Added(p.out.frames, Next(p, step).out.frames), id)) == []
  {
    hide Only, Carried;
    var news := Added(p.out.frames, Next(p, step).out.frames);
    if step.HomeSend? && step.id != id {
      if news != [] {
        OtherCarriesNothing(news, id);
      } else {
        NoDataCarriesNothing(news, id);
      }
    } else {
      NoDataCarriesNothing(news, id);
    }
  }

  lemma OtherCarriesNothing(frames: seq<Frame>, id: U32)
    requires |frames| == 1 && frames[0].streamId != id
    ensures Carried(Only(frames, id)) == []
  {
    assert frames[1..] == [];
  }

  lemma HomeCallDownEnds(p: Pair, step: Step, down: Trace, id: U32)
    requires Inv(p) && Allowed(p, step) && DownEnds(p, down, id)
    requires step.HomeConsume? || step.HomeSend? || step.HomeClose? || step.HomeReset?
    ensures var p' := Apply(p, step);
            DownEnds(p', Traced(down, Added(p.out.frames, p'.out.frames)), id)
  {
    hide Inv, Arrivals, WriteEnd, Only, Carried, Next;
    InvIsValid(p);
    var p' := Apply(p, step);
    HomeCallShape(p, step);
    HomeCallMarks(p, step, id);
    if WriteEnd(p.desk.inbound, id) {
      SilentCall(p, step, id);
      assert down(id) + [] == down(id);
      StaysDown(p, p', down, Traced(down, Added(p.out.frames, p'.out.frames)), id);
    }
  }

  /** A bridge step leaves the home as silent as it was. */
  lemma SilentExtends(p: Pair, p': Pair, id: U32)
    requires View(p, id).Silent() && p'.mux == p.mux
    requires Extends(p.desk.queue, p'.desk.queue)
    ensures View(p', id).Silent()
  {
    hide Only, Extends;
    if View(p', id).Opening() {
      ExtendsKeepsOpening(p, p', id);
    }
  }

  lemma BridgeStepDownEnds(p: Pair, step: Step, down: Trace, id: U32)
    requires Inv(p) && Allowed(p, step) && DownEnds(p, down, id)
    requires step.BridgeWrite? || step.BridgeConsume? || step.BridgeClose? || step.BridgeReset? || step.BridgeRetire?
    ensures var p' := Apply(p, step);
            DownEnds(p', Traced(down, Added(p.out.frames, p'.out.frames)), id)
  {
    hide Inv, Arrivals, WriteEnd, Only, Carried, LinkView.Silent, Quiet, Traced, Extends,
         B.Write, B.Consume, B.Close, B.ResetStream;
    InvIsValid(p);
    var p' := Apply(p, step);
    BridgeStepShape(p, step);
    QuietExtends(p.desk, p'.desk, id);
    NothingAdded(down, p.out.frames, id);
    if !step.BridgeRetire? {
      LocalTells(p.desk, step.id, if step.BridgeWrite? then step.bytes else [],
                 if step.BridgeConsume? then step.count else 0, if step.BridgeReset? then step.code else 0, id);
    }
    if WriteEnd(p.desk.inbound, id) {
      SilentExtends(p, p', id);
    }
    StaysDown(p, p', down, Traced(down, Added(p.out.frames, p'.out.frames)), id);
  }

  lemma OpenDownEnds(p: Pair, down: Trace, id: U32)
    requires Inv(p) && Allowed(p, BridgeOpen) && DownEnds(p, down, id)
    ensures var p' := Apply(p, BridgeOpen);
            DownEnds(p', Traced(down, Added(p.out.frames, p'.out.frames)), id)
  {
    hide Inv, Arrivals, WriteEnd, Only, Carried, Traced;
    InvIsValid(p);
    var p' := Apply(p, BridgeOpen);
    NothingAdded(down, p.out.frames, id);
    if !p.desk.retired {
      OpenShape(p);
      OpenCarriesNothing(p.desk.queue, p.desk.nextId, id);
    }
    StaysDown(p, p', down, Traced(down, Added(p.out.frames, p'.out.frames)), id);
  }

  lemma PrefixGrows(a: Bytes, part: Bytes, all: Bytes)
    requires a == all && a + part <= all
    ensures a + part == all
  {
  }

  /** The frame that ends the stream finds nothing else of it on the way. */
  lemma CloseEndsAll(p: Pair, down: Trace, id: U32)
    requires Inv(p) && DownOk(p, down, id) && p.out.frames != [] && id in p.desk.streams
    requires p.out.frames[0].streamId == id && p.out.frames[0].flags == FLAG_CLOSE
    ensures Arrivals(p.desk.inbound, id) == down(id) && View(p, id).Silent() && 0 < id < p.desk.nextId
  {
    hide Arrivals, Only, Carried, ShapesOk, BalanceOk, StreamsOk;
    OnlyFirst(p.out.frames, id);
    LiveIsAllocated(p, id);
    var v := View(p, id);
    assert LinkInv(v) && v.down[0].flags == FLAG_CLOSE && v.down[0..] == v.down;
    NoDataCarriesNothing(v.down, id);
    assert Arrivals(p.desk.inbound, id) + [] == Arrivals(p.desk.inbound, id);
  }

  lemma BridgeReceiveDownEnds(p: Pair, taken: bool, down: Trace, id: U32)
    requires Inv(p) && p.out.frames != [] && DownEnds(p, down, id) && DownOk(p, down, id)
    requires DownOk(Apply(p, BridgeReceive(taken)), down, id)
    ensures DownEnds(Apply(p, BridgeReceive(taken)), down, id)
  {
    hide Inv, Arrivals, WriteEnd, Only, Carried, LinkView.Silent, Extends, Apply, B.Receive;
    var p' := Apply(p, BridgeReceive(taken));
    var f := p.out.frames[0];
    ReceiveShape(p, taken);
    ReceiveTells(p.desk, f, taken, id);
    var read := Arrivals(p.desk.inbound, id);
    assert read + [] == read;
    if f.streamId == id && f.flags == FLAG_CLOSE && id in p.desk.streams {
      CloseEndsAll(p, down, id);
      SilentExtends(p, p', id);
    } else if WriteEnd(p.desk.inbound, id) {
      SilentExtends(p, p', id);
      if id in p'.desk.streams {
        PrefixGrows(read, Part(f, id), down(id));
      }
    }
  }

  lemma StepDownEnds(w: World, step: Step, id: U32)
    requires Sound(w) && Allowed(w.p, step) && DownEnds(w.p, w.down, id)
    ensures DownEnds(Move(w, step).p, Move(w, step).down, id)
  {
    hide Inv, DownEnds, Apply, DownOk, UpOk, Traced;
    if step.BridgeOpen? {
      OpenDownEnds(w.p, w.down, id);
    } else if step.BridgeReceive? {
      MoveKeeps(w, step);
      assert DownOk(w.p, w.down, id) && DownOk(Move(w, step).p, Move(w, step).down, id);
      BridgeReceiveDownEnds(w.p, step.taken, w.down, id);
    } else if step.HomeReceive? {
      HomeReceiveDownEnds(w.p, w.down, id);
    } else if step.HomeConsume? || step.HomeSend? || step.HomeClose? || step.HomeReset? {
      HomeCallDownEnds(w.p, step, w.down, id);
    } else {
      BridgeStepDownEnds(w.p, step, w.down, id);
    }
  }

  // ------------------------------------------------------------ runs

  lemma StepWire(w: World, step: Step, s: Story, id: U32)
    requires Inv(w.p) && Allowed(w.p, step) && w.up(id) == Carried(s.wire)
    ensures var w' := Move(w, step);
            w'.up(id) == Carried(Tell(w.p.desk, w'.p.desk, step, id, s).wire)
  {
    hide Inv, Apply, Tell, Carried, Only;
    var w' := Move(w, step);
    TellWire(w.p.desk, w'.p.desk, step, id, s);
    assert s.wire + [] == s.wire;
    CarriedAppend(s.wire, News(w.p.desk, w'.p.desk, id));
  }

  lemma IdleMove(w: World, step: Step, id: U32)
    requires Inv(w.p) && !Allowed(w.p, step)
    ensures var w' := Move(w, step);
            w'.p == w.p && w'.up(id) == w.up(id) && w'.down(id) == w.down(id)
  {
    hide Traced, Inv;
    NothingAdded(w.up, w.p.desk.queue, id);
    NothingAdded(w.down, w.p.out.frames, id);
  }

  lemma AdvanceOne(j: Joint, step: Step, id: U32)
    requires Good(j)
    ensures var j' := Advance(j, step);
            && j'.w.up(id) == Carried(j'.told(id).wire)
            && UpEnds(j'.w.p, j'.told(id).wire, id) && DownEnds(j'.w.p, j'.w.down, id)
  {
    hide Sound, Inv, UpEnds, Told, Carried, Tell, Apply, Move;
    SoundInv(j.w);
    var s := j.told(id);
    assert UpEnds(j.w.p, s.wire, id) && DownEnds(j.w.p, j.w.down, id) && Told(j.w.p.desk, id, s);
    MovesPair(j.w, step);
    if Allowed(j.w.p, step) {
      StepWire(j.w, step, s, id);
      StepUpEnds(j.w, step, s, id);
      StepDownEnds(j.w, step, id);
    } else {
      IdleMove(j.w, step, id);
    }
  }

  lemma MovesPair(w: World, step: Step)
    requires Inv(w.p)
    ensures Move(w, step).p == Apply(w.p, step)
  {
  }

  lemma AdvanceKeeps(j: Joint, step: Step)
    requires Good(j)
    ensures Good(Advance(j, step)) && Advance(j, step).Chron() == Proceed(j.Chron(), step)
  {
    hide Sound, Inv, UpEnds, DownEnds, Faithful, Proceed, Carried, Move;
    SoundInv(j.w);
    MoveKeeps(j.w, step);
    ProceedKeeps(j.Chron(), step);
    MovesPair(j.w, step);
    ProceedsPair(j.Chron(), step);
    forall id: U32 { AdvanceOne(j, step, id); }
  }

  lemma ProceedsPair(c: Chronicle, step: Step)
    requires Inv(c.p)
    ensures Proceed(c, step).p == Apply(c.p, step)
  {
  }

  /** Both accounts of the same run, and what they agree on. */
  lemma {:induction false} RunEnds(j: Joint, steps: seq<Step>)
    requires Good(j)
    ensures Good(Joint(RunTraced(j.w, steps), RunTold(j.Chron(), steps).told))
    ensures RunTold(j.Chron(), steps).p == RunTraced(j.w, steps).p
    decreases |steps|
  {
    hide Sound, Inv, UpEnds, DownEnds, Faithful, Proceed, Carried, Move;
    if steps == [] {
      assert Joint(j.w, j.Chron().told) == j;
    } else {
      SoundInv(j.w);
      AdvanceKeeps(j, steps[0]);
      RunEnds(Advance(j, steps[0]), steps[1..]);
    }
  }

  lemma StartIsGood(limits: H.Limits)
    requires limits.Valid()
    ensures Good(Joint(Beginning(limits), Begin(limits).told))
  {
    hide Sound, Faithful, Inv;
    BeginningIsSound(limits);
    BeginIsFaithful(limits);
  }

  lemma {:induction false} CarriedIsFlat(frames: seq<Frame>)
    ensures Carried(frames) == Flatten(Payloads(frames))
  {
    if frames != [] {
      CarriedIsFlat(frames[1..]);
      if frames[0].flags == FLAG_DATA {
        assert Payloads(frames)[1..] == Payloads(frames[1..]);
      } else {
        assert [] + Carried(frames[1..]) == Carried(frames[1..]) && [] + Payloads(frames[1..]) == Payloads(frames[1..]);
      }
    }
  }

  /**
   What a reader has when it is told of the end, over every run. The bridge's has
   every byte the home sent. The home's has the writes sent before the half-close:
   all the bridge accepted exactly when none was deferred at that moment, and then,
   if none overtook another, exactly the accepted bytes in order.
   */
  lemma EndOfStreamIsComplete(limits: H.Limits, steps: seq<Step>, id: U32)
    requires limits.Valid()
    ensures Sound(Beginning(limits)) && Faithful(Begin(limits))
    ensures var w := RunTraced(Beginning(limits), steps); var c := RunTold(Begin(limits), steps); var s := c.told(id);
            && c.p == w.p
            && (WriteEnd(w.p.desk.inbound, id) ==> Arrivals(w.p.desk.inbound, id) == w.down(id))
            && (ReadEnd(w.p.out.events, id) ==>
                  && Readings(w.p.out.events, id) == Flatten(Payloads(Early(s.wire)))
                  && (|Payloads(Early(s.wire))| == |s.writes| <==> !Ever(ClosesEarly, Begin(limits), steps, id))
                  && (!Ever(ClosesEarly, Begin(limits), steps, id) && !Ever(Overtakes, Begin(limits), steps, id) ==>
                        Readings(w.p.out.events, id) == Flatten(s.writes)))
  {
    hide Sound, Faithful, Inv, RunTraced, RunTold, Ever, Payloads, Early, Closed, Carried, Arrivals, Readings,
         Only, Flatten;
    BeginningIsSound(limits);
    BeginIsFaithful(limits);
    StartIsGood(limits);
    RunEnds(Joint(Beginning(limits), Begin(limits).told), steps);
    var w, c := RunTraced(Beginning(limits), steps), RunTold(Begin(limits), steps);
    var s := c.told(id);
    assert UpEnds(w.p, s.wire, id) && DownEnds(w.p, w.down, id);
    CarriedIsFlat(Early(s.wire));
    WritesKeepOrderIff(limits, steps, id);
    CloseIsLastIff(limits, steps, id);
    if Closed(s.wire) && !Ever(ClosesEarly, Begin(limits), steps, id) && !Ever(Overtakes, Begin(limits), steps, id) {
      AllSent(s);
    }
  }

  lemma AllSent(s: Story)
    requires Numbered(s) && Payloads(s.wire) == Pick(s.writes, s.sent) && |Payloads(s.wire)| == |s.writes|
    requires s.sent + s.deferred == Count(|s.writes|)
    ensures Payloads(s.wire) == s.writes
  {
    assert s.sent + [] == s.sent && s.deferred == [];
    assert Pick(s.writes, Count(|s.writes|)) == s.writes;
  }
}
