/**
 What the joined bridge and home deliver: over every run, on every stream and in
 both directions, the bytes a reader is handed are the DATA bytes the other side
 put on the wire, in order, followed by what is still in flight.
 */
module DuplexBytes {
  import opened Outcomes
  import opened Wire
  import opened Flow
  import opened Links
  import opened Duplex
  import B = Bridge
  import H = Listener

  // ------------------------------------------------------------ projections

  /** The DATA bytes of one stream's frames. */
  function Carried(frames: seq<Frame>): Bytes {
    if frames == [] then []
    else (if frames[0].flags == FLAG_DATA then frames[0].payload else []) + Carried(frames[1..])
  }

  lemma {:induction false} CarriedAppend(a: seq<Frame>, b: seq<Frame>)
    ensures Carried(a + b) == Carried(a) + Carried(b)
  {
    if a == [] {
      assert a + b == b;
    } else {
      assert (a + b)[1..] == a[1..] + b;
      CarriedAppend(a[1..], b);
    }
  }

  lemma {:induction false} OnlyConcat(a: seq<Frame>, b: seq<Frame>, id: U32)
    ensures Only(a + b, id) == Only(a, id) + Only(b, id)
  {
    if a == [] {
      assert a + b == b;
    } else {
      assert (a + b)[1..] == a[1..] + b;
      OnlyConcat(a[1..], b, id);
    }
  }

  /** What the bridge's reader of a stream has been handed. */
  function Arrivals(inbound: seq<B.Delivery>, id: U32): Bytes {
    if inbound == [] then []
    else
      var last := inbound[|inbound| - 1];
      Arrivals(inbound[..|inbound| - 1], id) + if last.Arrived? && last.streamId == id then last.bytes else []
  }

  lemma ArrivalsAppend(inbound: seq<B.Delivery>, item: B.Delivery, id: U32)
    ensures Arrivals(inbound + [item], id) ==
            Arrivals(inbound, id) + if item.Arrived? && item.streamId == id then item.bytes else []
  {
    assert (inbound + [item])[..|inbound|] == inbound;
  }

  /** What the home's reader of a stream has been handed. */
  function Readings(events: seq<H.Event>, id: U32): Bytes {
    if events == [] then []
    else
      var last := events[|events| - 1];
      Readings(events[..|events| - 1], id) + if last.Data? && last.streamId == id then last.bytes else []
  }

  lemma ReadingsAppend(events: seq<H.Event>, e: H.Event, id: U32)
    ensures Readings(events + [e], id) ==
            Readings(events, id) + if e.Data? && e.streamId == id then e.bytes else []
  {
    assert (events + [e])[..|events|] == events;
  }

  // ------------------------------------------------------------ one step's frames

  type Trace = U32 -> Bytes

  /** The pair, with all DATA bytes either side has put on the wire so far. */
  datatype World = World(p: Pair, up: Trace, down: Trace)

  /** More frames at the end of a queue, none of them an OPEN. */
  predicate Extends(a: seq<Frame>, b: seq<Frame>) {
    a <= b && forall i :: |a| <= i < |b| ==> b[i].flags != FLAG_OPEN
  }

  lemma {:induction false} DrainExtends(d: B.Desk, id: U32)
    ensures var d' := B.DrainPending(d, id).desk;
            && Extends(d.queue, d'.queue) && d'.inbound == d.inbound && d'.nextId == d.nextId
            && d'.streams.Keys == d.streams.Keys
    decreases if id in d.streams then |d.streams[id].pending| else 0
  {
    if id in d.streams && d.streams[id].pending != [] {
      var s := d.streams[id];
      var bytes := s.pending[0];
      if |bytes| <= s.sendCredit {
        var d' := d.With(id, s.Debit(|bytes|).(pending := s.pending[1..]));
        DrainExtends(d'.Queue(Frame(id, FLAG_DATA, bytes)), id);
      }
    }
  }

  /** The part of a frame that belongs to a stream's bytes. */
  function Part(f: Frame, id: U32): Bytes {
    if f.streamId == id && f.flags == FLAG_DATA then f.payload else []
  }

  /** A bridge step that delivers no bytes and opens nothing. */
  ghost predicate Quiet(d: B.Desk, d': B.Desk) {
    && Extends(d.queue, d'.queue) && d'.streams.Keys <= d.streams.Keys && d'.nextId == d.nextId
    && forall k: U32 :: Arrivals(d'.inbound, k) == Arrivals(d.inbound, k)
  }

  lemma ResetIsQuiet(d: B.Desk, id: U32, code: Byte)
    ensures Quiet(d, B.ResetStream(d, id, code))
  {
    hide Arrivals;
    if id in d.streams {
      forall k: U32 { ArrivalsAppend(d.inbound, B.Ended(id, B.EndReset(code)), k); }
      assert forall k: U32 :: Arrivals(d.inbound, k) + [] == Arrivals(d.inbound, k);
    }
  }

  lemma WriteIsQuiet(d: B.Desk, id: U32, bytes: Bytes)
    ensures Quiet(d, B.Write(d, id, bytes).0.desk)
  {
    hide Arrivals;
  }

  lemma CloseIsQuiet(d: B.Desk, id: U32)
    ensures Quiet(d, B.Close(d, id))
  {
    hide Arrivals;
  }

  lemma ConsumeIsQuiet(d: B.Desk, id: U32, count: nat)
    requires d.Valid()
    ensures Quiet(d, B.Consume(d, id, count))
  {
    hide Arrivals, B.ResetStream;
    ResetIsQuiet(d, id, RESET_PROTOCOL_ERROR);
  }

  lemma RetireIsQuiet(d: B.Desk)
    ensures Quiet(d, B.Retire(d))
  {
    hide Arrivals;
  }

  /** A received frame: its bytes reach the reader of a stream that stays live. */
  ghost predicate Delivers(d: B.Desk, d': B.Desk, f: Frame) {
    && Extends(d.queue, d'.queue) && d'.streams.Keys <= d.streams.Keys && d'.nextId == d.nextId
    && (forall k: U32 :: k in d'.streams ==> Arrivals(d'.inbound, k) == Arrivals(d.inbound, k) + Part(f, k))
    && (forall k: U32 :: k !in d'.streams ==> Arrivals(d'.inbound, k) == Arrivals(d.inbound, k))
  }

  lemma QuietDelivers(d: B.Desk, d': B.Desk, f: Frame)
    requires Quiet(d, d') && (f.flags != FLAG_DATA || f.streamId !in d'.streams)
    ensures Delivers(d, d', f)
  {
    hide Arrivals;
    assert forall k: U32 :: Arrivals(d.inbound, k) + [] == Arrivals(d.inbound, k);
  }

  lemma DataDelivers(d: B.Desk, f: Frame, taken: bool)
    requires f.flags == FLAG_DATA && f.streamId in d.streams
    ensures Delivers(d, B.ReceiveData(d, f, taken).0, f)
  {
    hide Arrivals, B.ResetStream;
    var s := d.streams[f.streamId];
    if s.peerClosed || !s.window.Admits(|f.payload|) {
      ResetIsQuiet(d, f.streamId, RESET_FLOW_CONTROL_ERROR);
      ResetForgets(d, f.streamId, RESET_FLOW_CONTROL_ERROR);
      QuietDelivers(d, B.ReceiveData(d, f, taken).0, f);
    } else {
      var d' := d.With(f.streamId, s.(window := s.window.Debit(|f.payload|), unconsumed := s.unconsumed + |f.payload|));
      if taken {
        forall k: U32 { ArrivalsAppend(d.inbound, B.Arrived(f.streamId, f.payload), k); }
        assert forall k: U32 :: Arrivals(d.inbound, k) + [] == Arrivals(d.inbound, k);
      } else {
        ResetIsQuiet(d', f.streamId, RESET_CANCEL);
        ResetForgets(d', f.streamId, RESET_CANCEL);
        QuietDelivers(d, B.ReceiveData(d, f, taken).0, f);
      }
    }
  }

  lemma ResetForgets(d: B.Desk, id: U32, code: Byte)
    ensures id !in B.ResetStream(d, id, code).streams
  {
  }

  lemma WindowIsQuiet(d: B.Desk, f: Frame)
    ensures Quiet(d, B.ReceiveWindow(d, f).desk)
  {
    hide Arrivals, B.ResetStream, B.DrainPending;
    ResetIsQuiet(d, f.streamId, RESET_PROTOCOL_ERROR);
    ResetIsQuiet(d, f.streamId, RESET_FLOW_CONTROL_ERROR);
    if f.streamId in d.streams && f.WindowCredit().Some? {
      var s := d.streams[f.streamId];
      var next := AddCredit(s.sendCredit, f.WindowCredit().value);
      if next.Some? {
        DrainExtends(d.With(f.streamId, s.(sendCredit := next.value, creditFlag := true)), f.streamId);
      }
    }
  }

  lemma EndIsQuiet(d: B.Desk, id: U32, end: B.End)
    ensures Quiet(d, d.Without(id).Deliver(B.Ended(id, end)))
    ensures id in d.streams ==> Quiet(d, B.ReceiveClose(d, id))
  {
    hide Arrivals;
    forall k: U32 { ArrivalsAppend(d.inbound, B.Ended(id, end), k); }
    forall k: U32 { ArrivalsAppend(d.inbound, B.Ended(id, B.EndClosed), k); }
    assert forall k: U32 :: Arrivals(d.inbound, k) + [] == Arrivals(d.inbound, k);
  }

  lemma ReceiveDelivers(d: B.Desk, f: Frame, taken: bool)
    requires Shaped(f) && f.flags != FLAG_OPEN && f.streamId != 0
    ensures Delivers(d, B.Receive(d, f, taken).desk, f)
  {
    hide Delivers, Quiet, B.ReceiveData, B.ReceiveWindow, B.ReceiveClose, B.ResetStream;
    var d' := B.Receive(d, f, taken).desk;
    SameIsQuiet(d);
    if f.flags == FLAG_WINDOW {
      WindowIsQuiet(d, f);
      QuietDelivers(d, d', f);
    } else if f.flags == FLAG_RESET {
      EndIsQuiet(d, f.streamId, B.EndReset(B.ReasonOf(f)));
      QuietDelivers(d, d', f);
    } else if f.streamId !in d.streams {
      QuietDelivers(d, d', f);
    } else if f.flags == FLAG_DATA {
      DataDelivers(d, f, taken);
    } else {
      EndIsQuiet(d, f.streamId, B.EndClosed);
      QuietDelivers(d, d', f);
    }
  }

  lemma SameIsQuiet(d: B.Desk)
    ensures Quiet(d, d)
  {
  }

  // ------------------------------------------------------------ the home's side

  /** A handled frame: its bytes reach the reader of a stream that is live afterwards. */
  ghost predicate Hears(t: H.Turn, t': H.Turn, f: Frame) {
    && Extends(t.out.frames, t'.out.frames)
    && (forall k: U32 :: k in t'.mux.streams ==>
          && (k in t.mux.streams || (k == f.streamId && f.flags == FLAG_OPEN))
          && Readings(t'.out.events, k) == Readings(t.out.events, k) + Part(f, k))
    && (forall k: U32 :: k !in t'.mux.streams ==> Readings(t'.out.events, k) == Readings(t.out.events, k))
  }

  lemma RefuseHears(t: H.Turn, t0: H.Turn, f: Frame, c: H.Class)
    requires t0.mux.streams == t.mux.streams && t0.out == t.out
    ensures Hears(t, H.Refuse(t0, f.Violation(), c), f)
  {
    hide Readings;
    var e := H.WasReset(f.streamId, H.ReasonOf(c));
    forall k: U32 { ReadingsAppend(t.out.events, e, k); }
    assert forall k: U32 :: Readings(t.out.events, k) + [] == Readings(t.out.events, k);
  }

  lemma OpenHears(t: H.Turn, f: Frame)
    requires f.flags == FLAG_OPEN && f.payload == []
    ensures Hears(t, H.HandleOpen(t, f), f)
  {
    hide Readings, H.Refuse;
    var raised := t.(mux := t.mux.(highWater := Some(f.streamId)));
    RefuseHears(t, t, f, H.Protocol);
    RefuseHears(t, raised, f, H.StreamLimit);
    RefuseHears(t, raised, f, H.FlowControl);
    assert [H.Opened(f.streamId)] + [] == [H.Opened(f.streamId)];
    forall k: U32 { ReadingsAppend(t.out.events, H.Opened(f.streamId), k); }
    assert forall k: U32 :: Readings(t.out.events, k) + [] == Readings(t.out.events, k);
  }

  lemma DataHears(t: H.Turn, f: Frame)
    requires f.flags == FLAG_DATA && f.streamId in t.mux.streams
    ensures Hears(t, H.HandleData(t, f, false), f)
  {
    hide Readings, H.Refuse;
    RefuseHears(t, t, f, H.Protocol);
    RefuseHears(t, t, f, H.FlowControl);
    forall k: U32 { ReadingsAppend(t.out.events, H.Data(f.streamId, f.payload), k); }
  }

  lemma CloseHears(t: H.Turn, f: Frame)
    requires f.flags == FLAG_CLOSE
    ensures Hears(t, H.MarkPeerClosed(t, f.streamId), f)
  {
    hide Readings;
    forall k: U32 { ReadingsAppend(t.out.events, H.ReadClosed(f.streamId), k); }
    assert forall k: U32 :: Readings(t.out.events, k) + [] == Readings(t.out.events, k);
  }

  lemma ResetHears(t: H.Turn, f: Frame)
    requires f.flags == FLAG_RESET
    ensures Hears(t, H.HandleReset(t, f), f)
  {
    hide Readings, H.Refuse;
    RefuseHears(t, t, f, H.Protocol);
    if |f.payload| == 1 {
      forall k: U32 { ReadingsAppend(t.out.events, H.WasReset(f.streamId, H.ReasonFromWire(f.payload[0])), k); }
    }
    assert forall k: U32 :: Readings(t.out.events, k) + [] == Readings(t.out.events, k);
  }

  lemma WindowHears(t: H.Turn, f: Frame)
    requires f.flags == FLAG_WINDOW && f.streamId in t.mux.streams
    ensures Hears(t, H.HandleWindow(t, f), f)
  {
    hide Readings, H.Refuse;
    RefuseHears(t, t, f, H.Protocol);
    RefuseHears(t, t, f, H.FlowControl);
    assert forall k: U32 :: Readings(t.out.events, k) + [] == Readings(t.out.events, k);
  }

  lemma HandleHears(t: H.Turn, f: Frame)
    requires Shaped(f) && f.streamId != 0
    ensures H.Handle(t, f).Ok? && Hears(t, H.Handle(t, f).value, f)
  {
    hide Hears, H.Refuse, H.HandleOpen, H.HandleData, H.MarkPeerClosed, H.HandleReset, H.HandleWindow;
    RefuseHears(t, t, f, H.Protocol);
    if f.flags == FLAG_OPEN {
      OpenHears(t, f);
    } else if f.streamId !in t.mux.streams {
      NothingHeard(t, f);
    } else if f.flags == FLAG_DATA {
      DataHears(t, f);
    } else if f.flags == FLAG_CLOSE {
      CloseHears(t, f);
    } else if f.flags == FLAG_RESET {
      ResetHears(t, f);
    } else {
      WindowHears(t, f);
    }
  }

  lemma NothingHeard(t: H.Turn, f: Frame)
    requires f.streamId !in t.mux.streams
    ensures Hears(t, t, f)
  {
    hide Readings;
    assert forall k: U32 :: Readings(t.out.events, k) + [] == Readings(t.out.events, k);
  }

  // ------------------------------------------------------------ the invariant

  function Added(a: seq<Frame>, b: seq<Frame>): seq<Frame> {
    if |a| <= |b| then b[|a|..] else []
  }

  /** Traces grow by the DATA bytes of the frames a step adds. */
  function Traced(trace: Trace, frames: seq<Frame>): Trace {
    (id: U32) => trace(id) + Carried(Only(frames, id))
  }

  predicate UpOk(p: Pair, up: Trace, id: U32) {
    var read := Readings(p.out.events, id);
    && (id in p.mux.streams || View(p, id).Opening() ==> read + Carried(Only(p.desk.queue, id)) == up(id))
    && read <= up(id)
    && (id == 0 || id >= p.desk.nextId ==> up(id) == [])
  }

  predicate DownOk(p: Pair, down: Trace, id: U32) {
    var read := Arrivals(p.desk.inbound, id);
    && (id in p.desk.streams ==> read + Carried(Only(p.out.frames, id)) == down(id))
    && read <= down(id)
    && (id == 0 || id >= p.desk.nextId ==> down(id) == [])
  }

  ghost predicate Sound(w: World) {
    && Inv(w.p)
    && (forall id: U32 :: UpOk(w.p, w.up, id))
    && (forall id: U32 :: DownOk(w.p, w.down, id))
  }

  /** Frames queued behind a stream's others carry their bytes behind. */
  lemma Behind(a: seq<Frame>, b: seq<Frame>, id: U32)
    requires a <= b
    ensures Only(b, id) == Only(a, id) + Only(Added(a, b), id)
    ensures Carried(Only(b, id)) == Carried(Only(a, id)) + Carried(Only(Added(a, b), id))
  {
    assert b == a + Added(a, b);
    OnlyConcat(a, Added(a, b), id);
    CarriedAppend(Only(a, id), Only(Added(a, b), id));
  }

  lemma {:induction false} OnlyFlags(frames: seq<Frame>, id: U32)
    requires forall i :: 0 <= i < |frames| ==> frames[i].flags != FLAG_OPEN
    ensures forall i :: 0 <= i < |Only(frames, id)| ==> Only(frames, id)[i].flags != FLAG_OPEN
    decreases |frames|
  {
    if frames != [] {
      OnlyFlags(frames[1..], id);
    }
  }

  /** No step but an open makes a stream's OPEN appear at the front of the queue. */
  lemma ExtendsKeepsOpening(p: Pair, p': Pair, id: U32)
    requires Extends(p.desk.queue, p'.desk.queue) && View(p', id).Opening()
    ensures View(p, id).Opening()
  {
    var a, b := p.desk.queue, p'.desk.queue;
    Behind(a, b, id);
    assert forall i :: 0 <= i < |Added(a, b)| ==> Added(a, b)[i] == b[|a| + i];
    OnlyFlags(Added(a, b), id);
  }

  /** Whatever the bridge queues joins what is in flight. */
  lemma QueuedUp(p: Pair, up: Trace, p': Pair, id: U32)
    requires UpOk(p, up, id) && p'.mux.streams == p.mux.streams && p'.out.events == p.out.events
    requires Extends(p.desk.queue, p'.desk.queue) && p'.desk.nextId == p.desk.nextId
    requires Inv(p')
    ensures UpOk(p', Traced(up, Added(p.desk.queue, p'.desk.queue)), id)
  {
    hide Readings, Carried, LinkInv;
    Behind(p.desk.queue, p'.desk.queue, id);
    if View(p', id).Opening() {
      ExtendsKeepsOpening(p, p', id);
    }
    if id == 0 || id >= p'.desk.nextId {
      assert View(p', id) == EMPTY;
      EmptyCarries(p.desk.queue, p'.desk.queue, id);
    }
  }

  lemma EmptyCarries(a: seq<Frame>, b: seq<Frame>, id: U32)
    requires a <= b && Only(b, id) == []
    ensures Carried(Only(Added(a, b), id)) == []
  {
    Behind(a, b, id);
  }

  lemma QueuedDown(p: Pair, down: Trace, p': Pair, id: U32)
    requires DownOk(p, down, id) && p'.desk.streams == p.desk.streams && p'.desk.inbound == p.desk.inbound
    requires p.out.frames <= p'.out.frames && p'.desk.nextId == p.desk.nextId
    requires Inv(p')
    ensures DownOk(p', Traced(down, Added(p.out.frames, p'.out.frames)), id)
  {
    hide Arrivals, Carried, LinkInv;
    Behind(p.out.frames, p'.out.frames, id);
    if id == 0 || id >= p'.desk.nextId {
      assert View(p', id) == EMPTY;
      EmptyCarries(p.out.frames, p'.out.frames, id);
    }
  }

  // ------------------------------------------------------------ steps

  /** One step, and the DATA bytes it puts on the wire in each direction. */
  ghost function Move(w: World, step: Step): World
    requires Inv(w.p)
  {
    var p' := Apply(w.p, step);
    World(p',
          if step.HomeReceive? then w.up else Traced(w.up, Added(w.p.desk.queue, p'.desk.queue)),
          if step.BridgeReceive? then w.down else Traced(w.down, Added(w.p.out.frames, p'.out.frames)))
  }

  lemma NothingAdded(trace: Trace, frames: seq<Frame>, id: U32)
    ensures Traced(trace, Added(frames, frames))(id) == trace(id)
  {
    assert Added(frames, frames) == [];
    assert trace(id) + [] == trace(id);
  }

  /** A bridge step that delivers nothing and opens nothing. */
  lemma QuietKeeps(w: World, step: Step, d: B.Desk)
    requires Sound(w) && Inv(w.p.(desk := d)) && Quiet(w.p.desk, d)
    requires Apply(w.p, step) == w.p.(desk := d) && !step.HomeReceive? && !step.BridgeReceive?
    ensures Sound(Move(w, step))
  {
    hide Apply, Readings, Arrivals, Carried, Inv, Traced;
    var w' := Move(w, step);
    forall id: U32 ensures UpOk(w'.p, w'.up, id) && DownOk(w'.p, w'.down, id) {
      assert UpOk(w.p, w.up, id) && DownOk(w.p, w.down, id);
      QueuedUp(w.p, w.up, w'.p, id);
      NothingAdded(w.down, w.p.out.frames, id);
    }
  }

  lemma OpenKeeps(w: World)
    requires Sound(w) && Allowed(w.p, BridgeOpen)
    ensures Sound(Move(w, BridgeOpen))
  {
    hide Readings, Arrivals, Carried, LinkInv, Traced;
    var w' := Move(w, BridgeOpen);
    var k := w.p.desk.nextId;
    assert View(w.p, k) == EMPTY;
    forall id: U32 ensures UpOk(w'.p, w'.up, id) && DownOk(w'.p, w'.down, id) {
      assert UpOk(w.p, w.up, id) && DownOk(w.p, w.down, id);
      NothingAdded(w.down, w.p.out.frames, id);
      NothingAdded(w.up, w.p.desk.queue, id);
      if !w.p.desk.retired {
        OpenedUp(w, id);
      }
      if id == k {
        assert Carried(Only(w.p.out.frames, k)) == [] by { NothingCarried(); }
      }
    }
  }

  lemma NothingCarried()
    ensures Carried([]) == []
  {
  }

  lemma OpenShape(p: Pair)
    requires Inv(p) && Allowed(p, BridgeOpen) && !p.desk.retired
    ensures var p' := Apply(p, BridgeOpen);
            && p'.desk.queue == p.desk.queue + [Frame(p.desk.nextId, FLAG_OPEN, [])]
            && p'.mux == p.mux && p'.out == p.out && p'.desk.nextId > p.desk.nextId
            && Only(p.desk.queue, p.desk.nextId) == []
  {
    hide LinkInv;
    assert View(p, p.desk.nextId) == EMPTY;
  }

  /** An OPEN joins only its own stream's frames and carries no bytes. */
  lemma OpenCarriesNothing(queue: seq<Frame>, k: U32, id: U32)
    ensures var f := Frame(k, FLAG_OPEN, []);
            && Only(queue + [f], id) == (if id == k then Only(queue, id) + [f] else Only(queue, id))
            && Carried(Only(queue + [f], id)) == Carried(Only(queue, id))
            && Carried(Only(Added(queue, queue + [f]), id)) == []
  {
    var f := Frame(k, FLAG_OPEN, []);
    OnlyAppend(queue, f, id);
    CarriedAppend(Only(queue, id), [f]);
    assert Carried([f]) == [] + Carried([]) == [];
    assert Carried(Only(queue, id)) + [] == Carried(Only(queue, id));
    assert Added(queue, queue + [f]) == [f];
    assert Only([f], id) == if id == k then [f] else [];
  }

  lemma OpenedUp(w: World, id: U32)
    requires Sound(w) && Allowed(w.p, BridgeOpen) && !w.p.desk.retired
    ensures var w' := Move(w, BridgeOpen); UpOk(w'.p, w'.up, id)
  {
    hide Readings, Carried, Only, Inv, Apply;
    OpenShape(w.p);
    OpenCarriesNothing(w.p.desk.queue, w.p.desk.nextId, id);
    assert UpOk(w.p, w.up, id);
    assert w.up(id) + [] == w.up(id);
    if id == w.p.desk.nextId {
      assert Readings(w.p.out.events, id) == [] && Carried([]) == [] by { NothingCarried(); }
    }
  }

  lemma HomeCallKeeps(w: World, step: Step)
    requires Sound(w) && Allowed(w.p, step)
    requires step.HomeConsume? || step.HomeSend? || step.HomeClose? || step.HomeReset?
    ensures Sound(Move(w, step))
  {
    hide Readings, Arrivals, Carried, Inv, Traced, Only;
    var w' := Move(w, step);
    InvIsValid(w.p);
    HomeCallShape(w.p, step);
    forall id: U32 ensures UpOk(w'.p, w'.up, id) && DownOk(w'.p, w'.down, id) {
      assert UpOk(w.p, w.up, id) && DownOk(w.p, w.down, id);
      QueuedDown(w.p, w.down, w'.p, id);
      NothingAdded(w.up, w.p.desk.queue, id);
    }
  }

  lemma HomeCallShape(p: Pair, step: Step)
    requires p.desk.Valid() && p.mux.Valid() && Allowed(p, step)
    requires step.HomeConsume? || step.HomeSend? || step.HomeClose? || step.HomeReset?
    ensures var p' := Next(p, step);
            && p'.desk == p.desk && p.out.frames <= p'.out.frames && p'.out.events == p.out.events
            && p'.mux.streams.Keys <= p.mux.streams.Keys
  {
  }

  lemma CarriedFirst(frames: seq<Frame>, id: U32)
    requires frames != []
    ensures Carried(Only(frames, id)) == Part(frames[0], id) + Carried(Only(frames[1..], id))
  {
    hide Only;
    OnlyFirst(frames, id);
    if frames[0].streamId != id {
      assert [] + Carried(Only(frames[1..], id)) == Carried(Only(frames[1..], id));
    }
  }

  lemma BridgeReceiveKeeps(w: World, taken: bool)
    requires Sound(w) && w.p.out.frames != []
    ensures Sound(Move(w, BridgeReceive(taken)))
  {
    hide Readings, Arrivals, Carried, Inv, Traced, B.Receive, Only, Delivers;
    var w' := Move(w, BridgeReceive(taken));
    var f := w.p.out.frames[0];
    InvIsValid(w.p);
    NextDown(w.p);
    ReceiveDelivers(w.p.desk, f, taken);
    DeliveryExtends(w.p.desk, w'.p.desk, f);
    forall id: U32 ensures UpOk(w'.p, w'.up, id) && DownOk(w'.p, w'.down, id) {
      assert UpOk(w.p, w.up, id) && DownOk(w.p, w.down, id);
      QueuedUp(w.p, w.up, w'.p, id);
      CarriedFirst(w.p.out.frames, id);
      DeliveredDown(w.p, w.down, w'.p, f, id);
    }
  }

  lemma DeliveryExtends(d: B.Desk, d': B.Desk, f: Frame)
    requires Delivers(d, d', f)
    ensures Extends(d.queue, d'.queue) && d'.streams.Keys <= d.streams.Keys && d'.nextId == d.nextId
  {
  }

  lemma DeliveredDown(p: Pair, down: Trace, p': Pair, f: Frame, id: U32)
    requires DownOk(p, down, id) && Delivers(p.desk, p'.desk, f)
    requires Carried(Only(p.out.frames, id)) == Part(f, id) + Carried(Only(p'.out.frames, id))
    ensures DownOk(p', down, id)
  {
    hide Arrivals, Carried, Only, Extends;
    var read, rest := Arrivals(p.desk.inbound, id), Carried(Only(p'.out.frames, id));
    assert read + (Part(f, id) + rest) == (read + Part(f, id)) + rest;
    if id in p'.desk.streams {
      assert id in p.desk.streams;
    }
  }

  lemma HomeReceiveKeeps(w: World)
    requires Sound(w) && w.p.desk.queue != []
    ensures Sound(Move(w, HomeReceive))
  {
    hide Readings, Arrivals, Carried, Inv, Traced, H.Handle, Only, Hears;
    var w' := Move(w, HomeReceive);
    var f := w.p.desk.queue[0];
    var t := H.Turn(w.p.mux, w.p.out);
    InvIsValid(w.p);
    NextUp(w.p);
    HandleHears(t, f);
    HeardExtends(t, H.Handle(t, f).value, f);
    forall id: U32 ensures UpOk(w'.p, w'.up, id) && DownOk(w'.p, w'.down, id) {
      assert UpOk(w.p, w.up, id) && DownOk(w.p, w.down, id);
      QueuedDown(w.p, w.down, w'.p, id);
      CarriedFirst(w.p.desk.queue, id);
      HeardUp(w.p, w.up, w'.p, f, id);
    }
  }

  lemma HeardExtends(t: H.Turn, t': H.Turn, f: Frame)
    requires Hears(t, t', f)
    ensures Extends(t.out.frames, t'.out.frames)
  {
  }

  lemma HeardUp(p: Pair, up: Trace, p': Pair, f: Frame, id: U32)
    requires Inv(p) && UpOk(p, up, id) && p.desk.queue != [] && f == p.desk.queue[0]
    requires Hears(H.Turn(p.mux, p.out), H.Turn(p'.mux, p'.out), f)
    requires p'.desk.queue == p.desk.queue[1..] && p'.desk.nextId == p.desk.nextId
    requires Carried(Only(p.desk.queue, id)) == Part(f, id) + Carried(Only(p'.desk.queue, id))
    ensures UpOk(p', up, id)
  {
    hide Readings, Carried, LinkInv, Extends, Only;
    var read, rest := Readings(p.out.events, id), Carried(Only(p'.desk.queue, id));
    assert read + (Part(f, id) + rest) == (read + Part(f, id)) + rest;
    NextUp(p);
    StillOpening(p, p', id);
    assert read + [] == read;
  }

  /** An OPEN behind another frame of its stream cannot come to the front. */
  lemma StillOpening(p: Pair, p': Pair, id: U32)
    requires Inv(p) && p.desk.queue != [] && p'.desk.queue == p.desk.queue[1..]
    ensures View(p', id).Opening() ==> View(p, id).Opening() && p.desk.queue[0].streamId != id
  {
    hide Only;
    OnlyFirst(p.desk.queue, id);
    assert LinkInv(View(p, id));
    LinkHasShape(View(p, id));
    hide LinkInv;
    if p.desk.queue[0].streamId == id && Only(p'.desk.queue, id) != [] {
      assert View(p, id).up[1] == Only(p'.desk.queue, id)[0];
    }
  }

  lemma MoveKeeps(w: World, step: Step)
    requires Sound(w)
    ensures Sound(Move(w, step))
  {
    hide Sound, Quiet, B.Open, B.Write, B.Consume, B.Close, B.ResetStream, B.Receive, H.Handle, Inv;
    SoundInv(w);
    InvIsValid(w.p);
    if !Allowed(w.p, step) {
      IdleKeeps(w, step);
    } else {
      var p' := Apply(w.p, step);
      match step
      case BridgeOpen => OpenKeeps(w);
      case BridgeWrite(id, bytes) =>
        WriteIsQuiet(w.p.desk, id, bytes);
        NotFailed(w.p);
        NotFailed(p');
        QuietKeeps(w, step, p'.desk);
      case BridgeConsume(id, count) => ConsumeIsQuiet(w.p.desk, id, count); QuietKeeps(w, step, p'.desk);
      case BridgeClose(id) => CloseIsQuiet(w.p.desk, id); QuietKeeps(w, step, p'.desk);
      case BridgeReset(id, code) => ResetIsQuiet(w.p.desk, id, code); QuietKeeps(w, step, p'.desk);
      case BridgeRetire => RetireIsQuiet(w.p.desk); QuietKeeps(w, step, p'.desk);
      case BridgeReceive(taken) => BridgeReceiveKeeps(w, taken);
      case HomeReceive => HomeReceiveKeeps(w);
      case _ => HomeCallKeeps(w, step);
    }
  }

  lemma SoundInv(w: World)
    requires Sound(w)
    ensures Inv(w.p)
  {
  }

  lemma IdleKeeps(w: World, step: Step)
    requires Sound(w) && !Allowed(w.p, step)
    ensures Sound(Move(w, step))
  {
    hide Readings, Arrivals, Carried, Only, Inv, Traced;
    var w' := Move(w, step);
    forall id: U32 ensures UpOk(w'.p, w'.up, id) && DownOk(w'.p, w'.down, id) {
      assert UpOk(w.p, w.up, id) && DownOk(w.p, w.down, id);
      NothingAdded(w.up, w.p.desk.queue, id);
      NothingAdded(w.down, w.p.out.frames, id);
    }
  }

  ghost function RunTraced(w: World, steps: seq<Step>): World
    requires Sound(w)
    decreases |steps|
  {
    if steps == [] then w
    else
      SoundInv(w);
      MoveKeeps(w, steps[0]);
      RunTraced(Move(w, steps[0]), steps[1..])
  }

  lemma {:induction false} RunTracedKeeps(w: World, steps: seq<Step>)
    requires Sound(w)
    ensures Sound(RunTraced(w, steps))
    decreases |steps|
  {
    hide Sound, Move;
    if steps != [] {
      SoundInv(w);
      MoveKeeps(w, steps[0]);
      RunTracedKeeps(Move(w, steps[0]), steps[1..]);
    }
  }

  function Beginning(limits: H.Limits): World {
    World(Start(limits), (id: U32) => [], (id: U32) => [])
  }

  lemma BeginningIsSound(limits: H.Limits)
    requires limits.Valid()
    ensures Sound(Beginning(limits))
  {
    StartKeeps(limits);
  }

  /**
   Bytes arrive as they were sent. Over every run, what each side's reader of a
   stream has been handed is a prefix of the DATA bytes the other side put on the
   wire for it; while the reader's stream is live, the rest is exactly what is in
   flight. So nothing is lost, repeated, reordered or crossed between streams.
   */
  lemma BytesArriveInOrder(limits: H.Limits, steps: seq<Step>, id: U32)
    requires limits.Valid()
    ensures Sound(Beginning(limits))
    ensures var w := RunTraced(Beginning(limits), steps);
            && Readings(w.p.out.events, id) <= w.up(id)
            && Arrivals(w.p.desk.inbound, id) <= w.down(id)
            && (id in w.p.mux.streams ==> Readings(w.p.out.events, id) + Carried(Only(w.p.desk.queue, id)) == w.up(id))
            && (id in w.p.desk.streams ==>
                  Arrivals(w.p.desk.inbound, id) + Carried(Only(w.p.out.frames, id)) == w.down(id))
  {
    hide Move, Inv, Readings, Arrivals, Carried, Only;
    BeginningIsSound(limits);
    RunTracedKeeps(Beginning(limits), steps);
    var w := RunTraced(Beginning(limits), steps);
    assert UpOk(w.p, w.up, id) && DownOk(w.p, w.down, id);
  }
}
