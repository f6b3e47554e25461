/**
 A bridge driver and a home listener joined by two frame channels. Every local
 call on either side and every frame delivery interleave arbitrarily, on any
 number of streams. The point is that flow control never misfires: neither side
 ever resets a stream for exceeding credit.

 `LinkView` is what concerns one stream; the single-stream steps are in `Links`.
 */
module Links {
  import opened Outcomes
  import opened Wire
  import opened Flow
  import B = Bridge
  import H = Listener

  /** One stream: both endpoints' state for it and its frames in each direction. */
  datatype LinkView = LinkView(
    bridge: Option<B.Stream>, home: Option<H.Stream>, up: seq<Frame>, down: seq<Frame>)
  {
    /** The OPEN has been sent and not yet handled. */
    predicate Opening() {
      up != [] && up[0].flags == FLAG_OPEN
    }

    /** The home will send no more DATA. */
    predicate Silent() {
      !Opening() && (home.Some? ==> home.value.localClosed)
    }

    function BridgeSend(): Option<nat> {
      if bridge.Some? then Some(bridge.value.sendCredit) else None
    }

    function BridgeRecv(): Option<nat> {
      if bridge.Some? then Some(bridge.value.window.credit) else None
    }

    function HomeSend(): Option<nat> {
      if home.Some? then Some(home.value.sendCredit) else if Opening() then Some(INITIAL_WINDOW) else None
    }

    function HomeRecv(): Option<nat> {
      if home.Some? then Some(home.value.window.credit) else if Opening() then Some(INITIAL_WINDOW) else None
    }
  }

  predicate Shaped(f: Frame) {
    || (f.flags == FLAG_OPEN && f.payload == [])
    || f.flags == FLAG_DATA
    || (f.flags == FLAG_CLOSE && f.payload == [])
    || (f.flags == FLAG_WINDOW && f.WindowCredit().Some?)
    || (f.flags == FLAG_RESET && |f.payload| == 1 && f.payload[0] != RESET_FLOW_CONTROL_ERROR)
  }

  function DataIn(frames: seq<Frame>): nat {
    if frames == [] then 0
    else (if frames[0].flags == FLAG_DATA then |frames[0].payload| else 0) + DataIn(frames[1..])
  }

  function GrantsIn(frames: seq<Frame>): nat {
    if frames == [] then 0
    else (if frames[0].flags == FLAG_WINDOW then Credit(frames[0].WindowCredit()) else 0) + GrantsIn(frames[1..])
  }

  lemma {:induction false} SumsAppend(frames: seq<Frame>, f: Frame)
    ensures DataIn(frames + [f]) == DataIn(frames) + DataIn([f])
    ensures GrantsIn(frames + [f]) == GrantsIn(frames) + GrantsIn([f])
  {
    if frames == [] {
      assert frames + [f] == [f];
    } else {
      assert (frames + [f])[1..] == frames[1..] + [f];
      SumsAppend(frames[1..], f);
    }
  }

  /**
   Sender credit, bytes in flight, receiver credit and grants in flight. A side
   that no longer knows the stream contributes nothing to account for.
   */
  predicate Balanced(credit: Option<nat>, flight: nat, window: Option<nat>, grants: nat) {
    match (credit, window)
    case (Some(c), Some(w)) => w == c + flight + grants
    case (None, Some(w)) => flight <= w
    case (Some(c), None) => c + grants <= INITIAL_WINDOW
    case (None, None) => true
  }

  predicate ShapesOk(v: LinkView) {
    && (forall i :: 0 <= i < |v.up| ==> Shaped(v.up[i]))
    && (forall i :: 1 <= i < |v.up| ==> v.up[i].flags != FLAG_OPEN)
    && (forall i :: 0 <= i < |v.down| ==> Shaped(v.down[i]) && v.down[i].flags != FLAG_OPEN)
    && (v.Opening() ==> v.home.None? && v.down == [])
  }

  predicate BalanceOk(v: LinkView) {
    && Balanced(v.BridgeSend(), DataIn(v.up), v.HomeRecv(), GrantsIn(v.down))
    && Balanced(v.HomeSend(), DataIn(v.down), v.BridgeRecv(), GrantsIn(v.up))
  }

  predicate NoData(frames: seq<Frame>) {
    forall i :: 0 <= i < |frames| ==> frames[i].flags != FLAG_DATA
  }

  predicate CloseOk(v: LinkView) {
    && (v.bridge.Some? && v.bridge.value.peerClosed ==> v.Silent() && NoData(v.down))
    && (forall i :: 0 <= i < |v.down| && v.down[i].flags == FLAG_CLOSE ==> v.Silent() && NoData(v.down[i..]))
  }

  predicate StreamsOk(v: LinkView) {
    && (v.bridge.Some? ==> v.bridge.value.Valid())
    && (v.home.Some? ==> v.home.value.Valid())
  }

  predicate LinkInv(v: LinkView) {
    ShapesOk(v) && BalanceOk(v) && CloseOk(v) && StreamsOk(v)
  }

  const EMPTY := LinkView(None, None, [], [])

  // ------------------------------------------------------------ sending up

  /** The bridge queues a frame other than OPEN and updates or drops its stream. */
  lemma BridgeQueues(v: LinkView, s: Option<B.Stream>, f: Frame)
    requires LinkInv(v) && v.bridge.Some?
    requires Shaped(f) && f.flags != FLAG_OPEN
    requires s.Some? ==> s.value.Valid()
    requires s.Some? ==> s.value.sendCredit + DataIn([f]) == v.bridge.value.sendCredit
    requires s.Some? ==> s.value.window.credit == v.bridge.value.window.credit + GrantsIn([f])
    requires s.Some? ==> (s.value.peerClosed <==> v.bridge.value.peerClosed)
    requires s.None? ==> f.flags != FLAG_DATA && f.flags != FLAG_WINDOW
    ensures LinkInv(v.(bridge := s, up := v.up + [f]))
  {
    var v' := v.(bridge := s, up := v.up + [f]);
    assert v'.Opening() == v.Opening();
    SumsAppend(v.up, f);
    if s.None? {
      assert [f][1..] == [];
    }
    BalanceAfterQueue(v, v', f);
  }

  lemma BalanceAfterQueue(v: LinkView, v': LinkView, f: Frame)
    requires BalanceOk(v) && StreamsOk(v) && v.bridge.Some?
    requires v'.home == v.home && v'.down == v.down && v'.Opening() == v.Opening()
    requires DataIn(v'.up) == DataIn(v.up) + DataIn([f]) && GrantsIn(v'.up) == GrantsIn(v.up) + GrantsIn([f])
    requires v'.bridge.Some? ==> v'.bridge.value.sendCredit + DataIn([f]) == v.bridge.value.sendCredit
    requires v'.bridge.Some? ==> v'.bridge.value.window.credit == v.bridge.value.window.credit + GrantsIn([f])
    requires v'.bridge.Some? ==> v'.bridge.value.Valid()
    requires v'.bridge.None? ==> DataIn([f]) == 0 && GrantsIn([f]) == 0
    ensures BalanceOk(v')
  {
    hide DataIn, GrantsIn;
  }

  /** The bridge forgets the stream, or changes nothing the peer accounts for. */
  lemma BridgeForgets(v: LinkView)
    requires LinkInv(v)
    ensures LinkInv(v.(bridge := None))
  {
    hide DataIn, GrantsIn;
  }

  lemma BridgeUnchanged(v: LinkView, s: B.Stream)
    requires LinkInv(v) && v.bridge.Some? && s.Valid()
    requires s.sendCredit == v.bridge.value.sendCredit && s.window.credit == v.bridge.value.window.credit
    requires s.peerClosed == v.bridge.value.peerClosed
    ensures LinkInv(v.(bridge := Some(s)))
  {
    hide DataIn, GrantsIn;
  }

  lemma BridgeOpens(f: Frame)
    requires f.flags == FLAG_OPEN && f.payload == []
    ensures LinkInv(LinkView(Some(B.NEW_STREAM), None, [f], []))
  {
    assert [f][1..] == [];
  }

  // ------------------------------------------------------------ sending down

  lemma HomeQueues(v: LinkView, s: Option<H.Stream>, f: Frame)
    requires LinkInv(v) && !v.Opening()
    requires Shaped(f) && f.flags != FLAG_OPEN
    requires s.Some? ==> v.home.Some? && s.value.Valid()
    requires s.Some? ==> s.value.sendCredit + DataIn([f]) == v.home.value.sendCredit
    requires s.Some? ==> s.value.window.credit == v.home.value.window.credit + GrantsIn([f])
    requires s.Some? && v.home.value.localClosed ==> s.value.localClosed
    requires f.flags == FLAG_CLOSE && s.Some? ==> s.value.localClosed
    requires f.flags == FLAG_DATA ==> s.Some? && !v.home.value.localClosed
    requires s.None? ==> f.flags != FLAG_DATA && f.flags != FLAG_WINDOW
    ensures LinkInv(v.(home := s, down := v.down + [f]))
  {
    var v' := v.(home := s, down := v.down + [f]);
    SumsAppend(v.down, f);
    if s.None? {
      assert [f][1..] == [];
    }
    HomeBalanceAfterQueue(v, v', f);
    HomeClosesAfterQueue(v, v', f);
  }

  lemma HomeBalanceAfterQueue(v: LinkView, v': LinkView, f: Frame)
    requires BalanceOk(v) && StreamsOk(v) && !v.Opening()
    requires v'.bridge == v.bridge && v'.up == v.up
    requires DataIn(v'.down) == DataIn(v.down) + DataIn([f]) && GrantsIn(v'.down) == GrantsIn(v.down) + GrantsIn([f])
    requires v'.home.Some? ==> v.home.Some? && v'.home.value.Valid()
    requires v'.home.Some? ==> v'.home.value.sendCredit + DataIn([f]) == v.home.value.sendCredit
    requires v'.home.Some? ==> v'.home.value.window.credit == v.home.value.window.credit + GrantsIn([f])
    requires v'.home.None? ==> DataIn([f]) == 0 && GrantsIn([f]) == 0
    ensures BalanceOk(v')
  {
    hide DataIn, GrantsIn;
  }

  lemma HomeClosesAfterQueue(v: LinkView, v': LinkView, f: Frame)
    requires CloseOk(v) && !v.Opening()
    requires v'.bridge == v.bridge && v'.up == v.up && v'.down == v.down + [f]
    requires v'.home.Some? && v.home.Some? && v.home.value.localClosed ==> v'.home.value.localClosed
    requires v'.home.Some? ==> v.home.Some?
    requires f.flags == FLAG_CLOSE && v'.home.Some? ==> v'.home.value.localClosed
    requires f.flags == FLAG_DATA ==> v.home.Some? && !v.home.value.localClosed
    ensures CloseOk(v')
  {
    assert v.Silent() ==> v'.Silent() && f.flags != FLAG_DATA;
    forall i | 0 <= i < |v'.down| && v'.down[i].flags == FLAG_CLOSE
      ensures v'.Silent() && NoData(v'.down[i..])
    {
      if i < |v.down| {
        assert v.down[i].flags == FLAG_CLOSE;
        assert v'.down[i..] == v.down[i..] + [f];
      } else {
        assert v'.down[i..] == [f];
      }
    }
  }

  lemma HomeUnchanged(v: LinkView, s: H.Stream)
    requires LinkInv(v) && v.home.Some? && s.Valid()
    requires s.sendCredit == v.home.value.sendCredit && s.window.credit == v.home.value.window.credit
    requires s.localClosed == v.home.value.localClosed
    ensures LinkInv(v.(home := Some(s)))
  {
    hide DataIn, GrantsIn;
  }

  // ------------------------------------------------------------ arriving up

  /** What the head of a channel contributes to its sums. */
  lemma SumsFirst(frames: seq<Frame>)
    requires frames != []
    ensures DataIn(frames) == DataIn([frames[0]]) + DataIn(frames[1..])
    ensures GrantsIn(frames) == GrantsIn([frames[0]]) + GrantsIn(frames[1..])
  {
    assert [frames[0]][1..] == [];
  }

  /** The home takes the next frame and ends with stream `s`. */
  lemma HomeTakes(v: LinkView, s: Option<H.Stream>)
    requires LinkInv(v) && v.up != []
    requires s.Some? ==> s.value.Valid() && v.HomeRecv().Some?
    requires s.Some? ==> s.value.window.credit + DataIn([v.up[0]]) == v.HomeRecv().value
    requires s.Some? ==> s.value.sendCredit == v.HomeSend().value + GrantsIn([v.up[0]])
    requires s.Some? && v.home.Some? && v.home.value.localClosed ==> s.value.localClosed
    ensures LinkInv(v.(home := s, up := v.up[1..]))
  {
    var v' := v.(home := s, up := v.up[1..]);
    assert !v'.Opening();
    SumsFirst(v.up);
    HomeBalanceAfterTake(v, v', v.up[0]);
  }

  lemma HomeBalanceAfterTake(v: LinkView, v': LinkView, f: Frame)
    requires BalanceOk(v) && StreamsOk(v) && !v'.Opening()
    requires v'.bridge == v.bridge && v'.down == v.down
    requires DataIn(v.up) == DataIn([f]) + DataIn(v'.up) && GrantsIn(v.up) == GrantsIn([f]) + GrantsIn(v'.up)
    requires v'.home.Some? ==> v.HomeRecv().Some? && v'.home.value.Valid()
    requires v'.home.Some? ==> v'.home.value.window.credit + DataIn([f]) == v.HomeRecv().value
    requires v'.home.Some? ==> v'.home.value.sendCredit == v.HomeSend().value + GrantsIn([f])
    ensures BalanceOk(v')
  {
    hide DataIn, GrantsIn;
  }

  // ------------------------------------------------------------ arriving down

  /** The bridge takes the next frame and ends with stream `s`. */
  lemma BridgeTakes(v: LinkView, s: Option<B.Stream>)
    requires LinkInv(v) && v.down != []
    requires s.Some? ==> s.value.Valid() && v.bridge.Some?
    requires s.Some? ==> s.value.window.credit + DataIn([v.down[0]]) == v.bridge.value.window.credit
    requires s.Some? ==> s.value.sendCredit == v.bridge.value.sendCredit + GrantsIn([v.down[0]])
    requires s.Some? && s.value.peerClosed ==> v.bridge.value.peerClosed || v.down[0].flags == FLAG_CLOSE
    ensures LinkInv(v.(bridge := s, down := v.down[1..]))
  {
    var v' := v.(bridge := s, down := v.down[1..]);
    SumsFirst(v.down);
    BridgeBalanceAfterTake(v, v', v.down[0]);
    BridgeClosesAfterTake(v, v');
  }

  lemma BridgeBalanceAfterTake(v: LinkView, v': LinkView, f: Frame)
    requires BalanceOk(v) && StreamsOk(v)
    requires v'.home == v.home && v'.up == v.up
    requires DataIn(v.down) == DataIn([f]) + DataIn(v'.down) && GrantsIn(v.down) == GrantsIn([f]) + GrantsIn(v'.down)
    requires v'.bridge.Some? ==> v.bridge.Some? && v'.bridge.value.Valid()
    requires v'.bridge.Some? ==> v'.bridge.value.window.credit + DataIn([f]) == v.bridge.value.window.credit
    requires v'.bridge.Some? ==> v'.bridge.value.sendCredit == v.bridge.value.sendCredit + GrantsIn([f])
    ensures BalanceOk(v')
  {
    hide DataIn, GrantsIn;
  }

  lemma BridgeClosesAfterTake(v: LinkView, v': LinkView)
    requires CloseOk(v) && v.down != []
    requires v'.home == v.home && v'.up == v.up && v'.down == v.down[1..]
    requires v'.bridge.Some? && v'.bridge.value.peerClosed ==>
               (v.bridge.Some? && v.bridge.value.peerClosed) || v.down[0].flags == FLAG_CLOSE
    ensures CloseOk(v')
  {
    assert v'.Silent() == v.Silent();
    assert v.down[0..] == v.down;
    forall i | 0 <= i < |v'.down| && v'.down[i].flags == FLAG_CLOSE
      ensures v'.Silent() && NoData(v'.down[i..])
    {
      assert v.down[i + 1].flags == FLAG_CLOSE;
      assert v'.down[i..] == v.down[i + 1..];
    }
  }
}

module Duplex {
  import opened Outcomes
  import opened Wire
  import opened Flow
  import opened Links
  import B = Bridge
  import H = Listener

  /**
   The bridge, the home, and everything between: `desk.queue` holds what the
   bridge has written and the home not yet handled, `out.frames` the converse.
   `failed` records a carrier-fatal error on either side.
   */
  datatype Pair = Pair(desk: B.Desk, mux: H.Mux, out: H.Output, failed: bool)

  datatype Step =
    | BridgeOpen
    | BridgeWrite(id: U32, bytes: Bytes)
    | BridgeConsume(id: U32, count: nat)
    | BridgeClose(id: U32)
    | BridgeReset(id: U32, code: Byte)
    | BridgeRetire
    | BridgeReceive(taken: bool)
    | HomeConsume(id: U32, count: nat)
    | HomeSend(id: U32, bytes: Bytes)
    | HomeClose(id: U32)
    | HomeReset(id: U32, reason: H.ResetReason)
    | HomeReceive

  /**
   Local resets never claim a flow-control error, and the dialer opens no more
   streams once its odd identifiers are used up.
   */
  predicate Allowed(p: Pair, step: Step) {
    match step
    case BridgeOpen => p.desk.nextId < 0xffff_ffff
    case BridgeReset(_, code) => code != RESET_FLOW_CONTROL_ERROR
    case HomeReset(_, reason) => reason != H.FlowControlError
    case BridgeReceive(_) => p.out.frames != []
    case HomeReceive => p.desk.queue != []
    case _ => true
  }

  function HomeCall(p: Pair, mux: H.Mux, frames: seq<Frame>): Pair {
    p.(mux := mux, out := p.out.(frames := p.out.frames + frames))
  }

  function Next(p: Pair, step: Step): Pair
    requires p.desk.Valid() && p.mux.Valid() && Allowed(p, step)
  {
    match step
    case BridgeOpen => p.(desk := B.Open(p.desk).0)
    case BridgeWrite(id, bytes) =>
      var m := B.Write(p.desk, id, bytes).0; p.(desk := m.desk, failed := p.failed || !m.ok)
    case BridgeConsume(id, count) => p.(desk := B.Consume(p.desk, id, count))
    case BridgeClose(id) => p.(desk := B.Close(p.desk, id))
    case BridgeReset(id, code) => p.(desk := B.ResetStream(p.desk, id, code))
    case BridgeRetire => p.(desk := B.Retire(p.desk))
    case BridgeReceive(taken) =>
      var m := B.Receive(p.desk, p.out.frames[0], taken);
      p.(desk := m.desk, out := p.out.(frames := p.out.frames[1..]), failed := p.failed || !m.ok)
    case HomeConsume(id, count) =>
      var r := H.Consume(p.mux, id, count);
      if r.Err? then p else HomeCall(p, r.value.0, r.value.1)
    case HomeSend(id, bytes) =>
      var r := H.TrySend(p.mux, id, bytes);
      if r.Err? || r.value.1.None? then p else HomeCall(p, r.value.0, [r.value.1.value])
    case HomeClose(id) =>
      var r := H.CloseWrite(p.mux, id);
      if r.Err? then p else HomeCall(p, r.value.0, [r.value.1])
    case HomeReset(id, reason) =>
      var r := H.Reset(p.mux, id, reason);
      if r.Err? then p else HomeCall(p, r.value.0, [r.value.1])
    case HomeReceive =>
      var p' := p.(desk := p.desk.(queue := p.desk.queue[1..]));
      var r := H.Handle(H.Turn(p.mux, p.out), p.desk.queue[0]);
      if r.Err? then p'.(failed := true) else p'.(mux := r.value.mux, out := r.value.out)
  }

  // ------------------------------------------------------------ one stream

  /** The frames of one stream, in order. */
  function Only(frames: seq<Frame>, id: U32): seq<Frame> {
    if frames == [] then []
    else (if frames[0].streamId == id then [frames[0]] else []) + Only(frames[1..], id)
  }

  lemma {:induction false} OnlyAppend(frames: seq<Frame>, f: Frame, id: U32)
    ensures Only(frames + [f], id) == if f.streamId == id then Only(frames, id) + [f] else Only(frames, id)
  {
    if frames == [] {
      assert frames + [f] == [f];
    } else {
      assert (frames + [f])[1..] == frames[1..] + [f];
      OnlyAppend(frames[1..], f, id);
    }
  }

  lemma OnlyFirst(frames: seq<Frame>, id: U32)
    requires frames != []
    ensures frames[0].streamId == id ==>
              && Only(frames, id) != [] && Only(frames, id)[0] == frames[0]
              && Only(frames, id)[1..] == Only(frames[1..], id)
    ensures frames[0].streamId != id ==> Only(frames, id) == Only(frames[1..], id)
  {
  }

  function View(p: Pair, id: U32): LinkView {
    LinkView(
      if id in p.desk.streams then Some(p.desk.streams[id]) else None,
      if id in p.mux.streams then Some(p.mux.streams[id]) else None,
      Only(p.desk.queue, id),
      Only(p.out.frames, id))
  }

  /** Everything about every stream, and identifiers not yet allocated are unused. */
  ghost predicate Inv(p: Pair) {
    && !p.failed
    && p.mux.limits.Valid()
    && p.desk.nextId % 2 == 1
    && (forall id: U32 :: LinkInv(View(p, id)))
    && (forall id: U32 :: id == 0 || id >= p.desk.nextId ==> View(p, id) == EMPTY)
    && p.mux.counts.flowControl == 0
  }

  lemma InvIsValid(p: Pair)
    requires Inv(p)
    ensures p.desk.Valid() && p.mux.Valid()
  {
    forall id | id in p.desk.streams ensures p.desk.streams[id].Valid() { assert LinkInv(View(p, id)); }
    forall id | id in p.mux.streams ensures p.mux.streams[id].Valid() { assert LinkInv(View(p, id)); }
  }

  /** A step on stream `id` reduces to its own view: the rest is as it was. */
  lemma OneStreamChanges(p: Pair, p': Pair, id: U32)
    requires Inv(p)
    requires !p'.failed && p'.mux.limits == p.mux.limits && p'.mux.counts.flowControl == 0
    requires p'.desk.nextId == p.desk.nextId && 0 < id < p.desk.nextId
    requires forall other: U32 :: other != id ==> View(p', other) == View(p, other)
    requires LinkInv(View(p', id))
    ensures Inv(p')
  {
  }

  // ------------------------------------------------------------ bridge steps

  /** `d'` differs from `d` in stream `id` and one frame of it at the end of the queue. */
  lemma QueuedView(p: Pair, d: B.Desk, id: U32, s: Option<B.Stream>, f: Frame)
    requires f.streamId == id
    requires d.queue == p.desk.queue + [f]
    requires d.streams == if s.Some? then p.desk.streams[id := s.value] else p.desk.streams - {id}
    ensures View(p.(desk := d), id) == View(p, id).(bridge := s, up := View(p, id).up + [f])
    ensures forall other: U32 :: other != id ==> View(p.(desk := d), other) == View(p, other)
  {
    forall other: U32 { OnlyAppend(p.desk.queue, f, other); }
  }

  lemma UpdatedView(p: Pair, d: B.Desk, id: U32, s: Option<B.Stream>)
    requires d.queue == p.desk.queue
    requires d.streams == if s.Some? then p.desk.streams[id := s.value] else p.desk.streams - {id}
    ensures View(p.(desk := d), id) == View(p, id).(bridge := s)
    ensures forall other: U32 :: other != id ==> View(p.(desk := d), other) == View(p, other)
  {
  }

  /** The bridge puts one more frame of a live stream on the wire. */
  lemma QueueKeeps(p: Pair, d: B.Desk, id: U32, s: Option<B.Stream>, f: Frame)
    requires Inv(p) && id in p.desk.streams && f.streamId == id
    requires d.nextId == p.desk.nextId && d.queue == p.desk.queue + [f]
    requires d.streams == if s.Some? then p.desk.streams[id := s.value] else p.desk.streams - {id}
    requires Shaped(f) && f.flags != FLAG_OPEN
    requires s.Some? ==> s.value.Valid()
    requires s.Some? ==> s.value.sendCredit + DataIn([f]) == p.desk.streams[id].sendCredit
    requires s.Some? ==> s.value.window.credit == p.desk.streams[id].window.credit + GrantsIn([f])
    requires s.Some? ==> (s.value.peerClosed <==> p.desk.streams[id].peerClosed)
    requires s.None? ==> f.flags != FLAG_DATA && f.flags != FLAG_WINDOW
    ensures Inv(p.(desk := d))
  {
    hide LinkInv, Shaped, DataIn, GrantsIn, B.Stream.Valid;
    LiveIsAllocated(p, id);
    QueuedView(p, d, id, s, f);
    BridgeQueues(View(p, id), s, f);
    OneStreamChanges(p, p.(desk := d), id);
  }

  lemma LiveIsAllocated(p: Pair, id: U32)
    requires Inv(p) && (id in p.desk.streams || id in p.mux.streams || Only(p.desk.queue, id) != []
                        || Only(p.out.frames, id) != [])
    ensures 0 < id < p.desk.nextId
  {
    assert View(p, id) != EMPTY;
  }

  lemma DropKeeps(p: Pair, d: B.Desk, id: U32)
    requires Inv(p) && id in p.desk.streams
    requires d.nextId == p.desk.nextId && d.queue == p.desk.queue && d.streams == p.desk.streams - {id}
    ensures Inv(p.(desk := d))
  {
    hide LinkInv;
    LiveIsAllocated(p, id);
    UpdatedView(p, d, id, None);
    BridgeForgets(View(p, id));
    OneStreamChanges(p, p.(desk := d), id);
  }

  lemma UpdateKeeps(p: Pair, d: B.Desk, id: U32, s: B.Stream)
    requires Inv(p) && id in p.desk.streams && s.Valid()
    requires d.nextId == p.desk.nextId && d.queue == p.desk.queue && d.streams == p.desk.streams[id := s]
    requires s.sendCredit == p.desk.streams[id].sendCredit && s.window.credit == p.desk.streams[id].window.credit
    requires s.peerClosed == p.desk.streams[id].peerClosed
    ensures Inv(p.(desk := d))
  {
    hide LinkInv;
    LiveIsAllocated(p, id);
    UpdatedView(p, d, id, Some(s));
    BridgeUnchanged(View(p, id), s);
    OneStreamChanges(p, p.(desk := d), id);
  }

  /** A frame is worth nothing to the sums unless it is DATA or WINDOW. */
  lemma Worth(f: Frame)
    ensures DataIn([f]) == if f.flags == FLAG_DATA then |f.payload| else 0
    ensures GrantsIn([f]) == if f.flags == FLAG_WINDOW then Credit(f.WindowCredit()) else 0
  {
    assert [f][1..] == [];
  }

  lemma BridgeOpenKeeps(p: Pair)
    requires Inv(p) && Allowed(p, BridgeOpen)
    ensures Inv(p.(desk := B.Open(p.desk).0))
  {
    hide LinkInv;
    if !p.desk.retired {
      var id := p.desk.nextId;
      assert View(p, id) == EMPTY;
      var d := B.Open(p.desk).0;
      var f := Frame(id, FLAG_OPEN, []);
      QueuedView(p, d, id, Some(B.NEW_STREAM), f);
      assert [] + [f] == [f];
      BridgeOpens(f);
    }
  }

  lemma BridgeWriteKeeps(p: Pair, id: U32, bytes: Bytes)
    requires Inv(p)
    ensures B.Write(p.desk, id, bytes).0.ok
    ensures Inv(p.(desk := B.Write(p.desk, id, bytes).0.desk))
  {
    if id in p.desk.streams && !p.desk.streams[id].localClosed {
      hide Inv;
      InvIsValid(p);
      SendCreditBound(p, id);
      var s := p.desk.streams[id];
      var d := B.Write(p.desk, id, bytes).0.desk;
      if |bytes| > s.sendCredit {
        UpdateKeeps(p, d, id, s.(pending := s.pending + [bytes]));
      } else {
        var f := Frame(id, FLAG_DATA, bytes);
        Worth(f);
        QueueKeeps(p, d, id, Some(s.Debit(|bytes|)), f);
      }
    } else {
      assert p.(desk := p.desk) == p;
    }
  }

  lemma SendCreditBound(p: Pair, id: U32)
    requires Inv(p) && id in p.desk.streams
    ensures p.desk.streams[id].sendCredit <= INITIAL_WINDOW
  {
    hide DataIn, GrantsIn;
    assert LinkInv(View(p, id));
  }

  lemma {:induction false} DrainKeeps(p: Pair, id: U32)
    requires Inv(p)
    ensures B.DrainPending(p.desk, id).ok
    ensures Inv(p.(desk := B.DrainPending(p.desk, id).desk))
    decreases if id in p.desk.streams then |p.desk.streams[id].pending| else 0
  {
    if id in p.desk.streams && p.desk.streams[id].pending != []
       && |p.desk.streams[id].pending[0]| <= p.desk.streams[id].sendCredit
    {
      hide Inv;
      InvIsValid(p);
      SendCreditBound(p, id);
      var s := p.desk.streams[id];
      var f := Frame(id, FLAG_DATA, s.pending[0]);
      var s' := s.Debit(|s.pending[0]|).(pending := s.pending[1..]);
      var d := p.desk.With(id, s').Queue(f);
      Worth(f);
      QueueKeeps(p, d, id, Some(s'), f);
      DrainKeeps(p.(desk := d), id);
    } else {
      assert p.(desk := p.desk) == p;
    }
  }

  lemma BridgeResetKeeps(p: Pair, id: U32, code: Byte)
    requires Inv(p) && code != RESET_FLOW_CONTROL_ERROR
    ensures Inv(p.(desk := B.ResetStream(p.desk, id, code)))
  {
    if id in p.desk.streams {
      hide Inv;
      Worth(ResetFrame(id, code));
      QueueKeeps(p, B.ResetStream(p.desk, id, code), id, None, ResetFrame(id, code));
    } else {
      assert p.(desk := p.desk) == p;
    }
  }

  lemma BridgeConsumeKeeps(p: Pair, id: U32, count: nat)
    requires Inv(p) && p.desk.Valid()
    ensures Inv(p.(desk := B.Consume(p.desk, id, count)))
  {
    if id in p.desk.streams {
      hide Inv;
      var s := p.desk.streams[id];
      var d := B.Consume(p.desk, id, count);
      if count > s.unconsumed {
        BridgeResetKeeps(p, id, RESET_PROTOCOL_ERROR);
      } else {
        var (window, grant) := s.window.Consume(count);
        var s' := s.(window := window, unconsumed := s.unconsumed - count);
        if grant.Some? {
          var f := WindowFrame(id, grant.value);
          Worth(f);
          QueueKeeps(p, d, id, Some(s'), f);
        } else {
          UpdateKeeps(p, d, id, s');
        }
      }
    } else {
      assert p.(desk := p.desk) == p;
    }
  }

  lemma BridgeCloseKeeps(p: Pair, id: U32)
    requires Inv(p) && p.desk.Valid()
    ensures Inv(p.(desk := B.Close(p.desk, id)))
  {
    if id in p.desk.streams && !p.desk.streams[id].localClosed {
      hide Inv;
      var s := p.desk.streams[id];
      var f := Frame(id, FLAG_CLOSE, []);
      Worth(f);
      QueueKeeps(p, B.Close(p.desk, id), id, if s.peerClosed then None else Some(s.(localClosed := true)), f);
    } else {
      assert p.(desk := p.desk) == p;
    }
  }

  /** The bridge takes the next frame coming down and ends with stream `s`. */
  lemma TakeDownKeeps(p: Pair, p': Pair, id: U32, s: Option<B.Stream>)
    requires Inv(p) && p.out.frames != [] && p.out.frames[0].streamId == id
    requires p'.desk.nextId == p.desk.nextId && p'.desk.queue == p.desk.queue
    requires p'.desk.streams == if s.Some? then p.desk.streams[id := s.value] else p.desk.streams - {id}
    requires p'.mux == p.mux && !p'.failed && p'.out.frames == p.out.frames[1..]
    requires s.Some? ==> s.value.Valid() && id in p.desk.streams
    requires s.Some? ==> s.value.window.credit + DataIn([p.out.frames[0]]) == p.desk.streams[id].window.credit
    requires s.Some? ==> s.value.sendCredit == p.desk.streams[id].sendCredit + GrantsIn([p.out.frames[0]])
    requires s.Some? && s.value.peerClosed ==> p.desk.streams[id].peerClosed || p.out.frames[0].flags == FLAG_CLOSE
    ensures Inv(p')
  {
    hide LinkInv, DataIn, GrantsIn, B.Stream.Valid;
    forall other: U32 { OnlyFirst(p.out.frames, other); }
    LiveIsAllocated(p, id);
    BridgeTakes(View(p, id), s);
    assert View(p', id) == View(p, id).(bridge := s, down := View(p, id).down[1..]);
    OneStreamChanges(p, p', id);
  }

  /** What the invariant says of the next frame coming down. */
  lemma NextDown(p: Pair)
    requires Inv(p) && p.out.frames != []
    ensures var f := p.out.frames[0];
            && Shaped(f) && f.flags != FLAG_OPEN && f.streamId != 0
            && (f.streamId in p.desk.streams ==>
                  var s := p.desk.streams[f.streamId];
                  && DataIn([f]) <= s.window.credit
                  && s.sendCredit + GrantsIn([f]) <= INITIAL_WINDOW
                  && (f.flags == FLAG_DATA ==> !s.peerClosed))
  {
    var f := p.out.frames[0];
    OnlyFirst(p.out.frames, f.streamId);
    LiveIsAllocated(p, f.streamId);
    var v := View(p, f.streamId);
    assert LinkInv(v);
    assert v.down[0] == f;
    SumsFirst(v.down);
    hide DataIn, GrantsIn, Shaped;
  }

  lemma BridgeReceiveKeeps(p: Pair, taken: bool)
    requires Inv(p) && p.out.frames != []
    ensures B.Receive(p.desk, p.out.frames[0], taken).ok
    ensures Inv(p.(desk := B.Receive(p.desk, p.out.frames[0], taken).desk, out := p.out.(frames := p.out.frames[1..])))
  {
    hide Inv, B.DrainPending;
    var f := p.out.frames[0];
    var id := f.streamId;
    var popped := p.(out := p.out.(frames := p.out.frames[1..]));
    NextDown(p);
    InvIsValid(p);
    NotFailed(p);
    Worth(f);
    var d := B.Receive(p.desk, f, taken).desk;
    if id !in p.desk.streams {
      assert p.desk.streams - {id} == p.desk.streams;
      TakeDownKeeps(p, popped, id, None);
      assert popped == popped.(desk := p.desk);
    } else if f.flags == FLAG_WINDOW {
      var s := p.desk.streams[id];
      var s' := s.(sendCredit := s.sendCredit + f.WindowCredit().value, creditFlag := true);
      var p' := popped.(desk := p.desk.With(id, s'));
      TakeDownKeeps(p, p', id, Some(s'));
      DrainKeeps(p', id);
    } else if f.flags == FLAG_DATA {
      BridgeDataKeeps(p, taken);
    } else if f.flags == FLAG_CLOSE {
      var s := p.desk.streams[id];
      TakeDownKeeps(p, popped.(desk := d), id, if s.localClosed then None else Some(s.(peerClosed := true)));
    } else {
      TakeDownKeeps(p, popped.(desk := d), id, None);
    }
  }

  lemma NotFailed(p: Pair)
    requires Inv(p)
    ensures !p.failed
  {
  }

  lemma BridgeDataKeeps(p: Pair, taken: bool)
    requires Inv(p) && p.out.frames != [] && p.out.frames[0].flags == FLAG_DATA
    requires p.out.frames[0].streamId in p.desk.streams
    ensures Inv(p.(desk := B.Receive(p.desk, p.out.frames[0], taken).desk, out := p.out.(frames := p.out.frames[1..])))
  {
    hide Inv;
    var f := p.out.frames[0];
    var id := f.streamId;
    NextDown(p);
    InvIsValid(p);
    NotFailed(p);
    Worth(f);
    var s := p.desk.streams[id];
    var s' := s.(window := s.window.Debit(|f.payload|), unconsumed := s.unconsumed + |f.payload|);
    var d := p.desk.With(id, s');
    var p' := p.(desk := d, out := p.out.(frames := p.out.frames[1..]));
    TakeDownKeeps(p, p', id, Some(s'));
    if taken {
      SameStreams(p', p'.(desk := d.Deliver(B.Arrived(id, f.payload))));
    } else {
      BridgeResetKeeps(p', id, RESET_CANCEL);
    }
  }

  /** Deliveries, events and retirement do not enter the invariant. */
  lemma SameStreams(p: Pair, p': Pair)
    requires Inv(p) && p'.failed == p.failed
    requires p'.desk.nextId == p.desk.nextId && p'.desk.streams == p.desk.streams && p'.desk.queue == p.desk.queue
    requires p'.mux.limits == p.mux.limits && p'.mux.streams == p.mux.streams
    requires p'.mux.counts.flowControl == p.mux.counts.flowControl
    requires p'.out.frames == p.out.frames
    ensures Inv(p')
  {
    hide LinkInv;
    assert forall id: U32 :: View(p', id) == View(p, id);
  }

  // ------------------------------------------------------------ home steps

  /** The home writes one frame of a stream whose OPEN it has handled. */
  lemma HomeQueueKeeps(p: Pair, p': Pair, id: U32, s: Option<H.Stream>, f: Frame)
    requires Inv(p) && f.streamId == id && 0 < id < p.desk.nextId && !View(p, id).Opening()
    requires p'.desk == p.desk && !p'.failed
    requires p'.mux.limits == p.mux.limits && p'.mux.counts.flowControl == 0
    requires p'.mux.streams == if s.Some? then p.mux.streams[id := s.value] else p.mux.streams - {id}
    requires p'.out.frames == p.out.frames + [f]
    requires Shaped(f) && f.flags != FLAG_OPEN
    requires s.Some? ==> id in p.mux.streams && s.value.Valid()
    requires s.Some? ==> s.value.sendCredit + DataIn([f]) == p.mux.streams[id].sendCredit
    requires s.Some? ==> s.value.window.credit == p.mux.streams[id].window.credit + GrantsIn([f])
    requires s.Some? && p.mux.streams[id].localClosed ==> s.value.localClosed
    requires f.flags == FLAG_CLOSE && s.Some? ==> s.value.localClosed
    requires f.flags == FLAG_DATA ==> s.Some? && !p.mux.streams[id].localClosed
    requires s.None? ==> f.flags != FLAG_DATA && f.flags != FLAG_WINDOW
    ensures Inv(p')
  {
    hide LinkInv, DataIn, GrantsIn, H.Stream.Valid, Shaped;
    forall other: U32 { OnlyAppend(p.out.frames, f, other); }
    HomeQueues(View(p, id), s, f);
    assert View(p', id) == View(p, id).(home := s, down := View(p, id).down + [f]);
    OneStreamChanges(p, p', id);
  }

  lemma LiveIsOpen(p: Pair, id: U32)
    requires Inv(p) && id in p.mux.streams
    ensures 0 < id < p.desk.nextId && !View(p, id).Opening() && p.mux.counts.flowControl == 0
  {
    LiveIsAllocated(p, id);
    assert LinkInv(View(p, id));
  }

  lemma HomeUpdateKeeps(p: Pair, p': Pair, id: U32, s: H.Stream)
    requires Inv(p) && id in p.mux.streams && s.Valid()
    requires p'.desk == p.desk && !p'.failed
    requires p'.mux == p.mux.(streams := p.mux.streams[id := s]) && p'.out.frames == p.out.frames
    requires s.sendCredit == p.mux.streams[id].sendCredit && s.window.credit == p.mux.streams[id].window.credit
    requires s.localClosed == p.mux.streams[id].localClosed
    ensures Inv(p')
  {
    hide LinkInv;
    LiveIsOpen(p, id);
    HomeUnchanged(View(p, id), s);
    assert View(p', id) == View(p, id).(home := Some(s));
    OneStreamChanges(p, p', id);
  }

  lemma HomeConsumeKeeps(p: Pair, id: U32, count: nat)
    requires Inv(p) && p.mux.Valid() && p.desk.Valid()
    ensures Inv(Next(p, HomeConsume(id, count)))
  {
    hide Inv;
    var r := H.Consume(p.mux, id, count);
    if r.Ok? {
      LiveIsOpen(p, id);
      NotFailed(p);
      var s := p.mux.streams[id];
      var (window, grant) := s.window.Consume(count);
      var s' := s.(window := window, debited := s.debited - count);
      var p' := Next(p, HomeConsume(id, count));
      if grant.Some? {
        var f := WindowFrame(id, grant.value);
        Worth(f);
        HomeQueueKeeps(p, p', id, Some(s'), f);
      } else {
        assert p.out.frames + [] == p.out.frames;
        HomeUpdateKeeps(p, p', id, s');
      }
    }
  }

  lemma HomeSendKeeps(p: Pair, id: U32, bytes: Bytes)
    requires Inv(p) && p.mux.Valid() && p.desk.Valid()
    ensures Inv(Next(p, HomeSend(id, bytes)))
  {
    hide Inv;
    var r := H.TrySend(p.mux, id, bytes);
    if r.Ok? && r.value.1.Some? {
      LiveIsOpen(p, id);
      NotFailed(p);
      var s := p.mux.streams[id];
      var f := r.value.1.value;
      Worth(f);
      HomeQueueKeeps(p, Next(p, HomeSend(id, bytes)), id, Some(s.(sendCredit := s.sendCredit - |bytes|)), f);
    }
  }

  lemma HomeCloseKeeps(p: Pair, id: U32)
    requires Inv(p) && p.mux.Valid() && p.desk.Valid()
    ensures Inv(Next(p, HomeClose(id)))
  {
    hide Inv;
    var r := H.CloseWrite(p.mux, id);
    if r.Ok? {
      LiveIsOpen(p, id);
      NotFailed(p);
      var s := p.mux.streams[id];
      var f := r.value.1;
      Worth(f);
      HomeQueueKeeps(p, Next(p, HomeClose(id)), id, if s.peerClosed then None else Some(s.(localClosed := true)), f);
    }
  }

  lemma HomeResetKeeps(p: Pair, id: U32, reason: H.ResetReason)
    requires Inv(p) && p.mux.Valid() && p.desk.Valid() && reason != H.FlowControlError
    ensures Inv(Next(p, HomeReset(id, reason)))
  {
    hide Inv;
    var r := H.Reset(p.mux, id, reason);
    if r.Ok? {
      LiveIsOpen(p, id);
      NotFailed(p);
      Worth(r.value.1);
      HomeQueueKeeps(p, Next(p, HomeReset(id, reason)), id, None, r.value.1);
    }
  }

  /** The home takes the next frame coming up and ends with stream `s`. */
  lemma TakeUpKeeps(p: Pair, p': Pair, id: U32, s: Option<H.Stream>)
    requires Inv(p) && p.desk.queue != [] && p.desk.queue[0].streamId == id
    requires p'.desk == p.desk.(queue := p.desk.queue[1..]) && !p'.failed
    requires p'.mux.limits == p.mux.limits && p'.mux.counts.flowControl == 0
    requires p'.mux.streams == if s.Some? then p.mux.streams[id := s.value] else p.mux.streams - {id}
    requires p'.out.frames == p.out.frames
    requires s.Some? ==> s.value.Valid() && View(p, id).HomeRecv().Some?
    requires s.Some? ==> s.value.window.credit + DataIn([p.desk.queue[0]]) == View(p, id).HomeRecv().value
    requires s.Some? ==> s.value.sendCredit == View(p, id).HomeSend().value + GrantsIn([p.desk.queue[0]])
    requires s.Some? && id in p.mux.streams && p.mux.streams[id].localClosed ==> s.value.localClosed
    ensures Inv(p') && 0 < id < p'.desk.nextId && !View(p', id).Opening()
  {
    hide LinkInv, DataIn, GrantsIn, H.Stream.Valid;
    forall other: U32 { OnlyFirst(p.desk.queue, other); }
    LiveIsAllocated(p, id);
    HomeTakes(View(p, id), s);
    assert View(p', id) == View(p, id).(home := s, up := View(p, id).up[1..]);
    OneStreamChanges(p, p', id);
    assert !View(p', id).Opening() by { assert ShapesOk(View(p, id)) by { LinkHasShape(View(p, id)); } }
  }

  lemma LinkHasShape(v: LinkView)
    requires LinkInv(v)
    ensures ShapesOk(v)
  {
  }

  /** What the invariant says of the next frame going up. */
  lemma NextUp(p: Pair)
    requires Inv(p) && p.desk.queue != []
    ensures var f := p.desk.queue[0]; var v := View(p, f.streamId);
            && Shaped(f) && f.streamId != 0 && p.mux.counts.flowControl == 0
            && (f.flags == FLAG_OPEN <==> v.Opening())
            && (f.flags == FLAG_OPEN ==> f.streamId !in p.mux.streams)
            && (v.home.Some? ==>
                  && DataIn([f]) <= v.home.value.window.credit
                  && v.home.value.sendCredit + GrantsIn([f]) <= INITIAL_WINDOW)
  {
    var f := p.desk.queue[0];
    OnlyFirst(p.desk.queue, f.streamId);
    LiveIsAllocated(p, f.streamId);
    var v := View(p, f.streamId);
    assert LinkInv(v);
    assert v.up[0] == f;
    SumsFirst(v.up);
    hide DataIn, GrantsIn, Shaped;
  }

  /** The frame is refused: the stream is dropped and a RESET goes down. */
  lemma RefusedKeeps(p: Pair, t: H.Turn, c: H.Class)
    requires Inv(p) && p.desk.queue != [] && c != H.FlowControl
    requires t.mux.streams == p.mux.streams && t.mux.limits == p.mux.limits
    requires t.mux.counts == p.mux.counts && t.out == p.out
    ensures var t' := H.Refuse(t, p.desk.queue[0].Violation(), c);
            Inv(p.(desk := p.desk.(queue := p.desk.queue[1..]), mux := t'.mux, out := t'.out))
  {
    hide Inv;
    NotFailed(p);
    NextUp(p);
    var f := p.desk.queue[0];
    var id := f.streamId;
    var t' := H.Refuse(t, f.Violation(), c);
    var popped := p.(desk := p.desk.(queue := p.desk.queue[1..]), mux := p.mux.(streams := p.mux.streams - {id}));
    TakeUpKeeps(p, popped, id, None);
    var reset := ResetFrame(id, H.Code(H.ReasonOf(c)));
    Worth(reset);
    assert popped.mux.streams - {id} == popped.mux.streams;
    HomeQueueKeeps(popped, p.(desk := p.desk.(queue := p.desk.queue[1..]), mux := t'.mux, out := t'.out),
                   id, None, reset);
  }

  lemma HomeReceiveOpenKeeps(p: Pair)
    requires Inv(p) && p.mux.Valid() && p.desk.queue != [] && p.desk.queue[0].flags == FLAG_OPEN
    ensures var t := H.HandleOpen(H.Turn(p.mux, p.out), p.desk.queue[0]);
            Inv(p.(desk := p.desk.(queue := p.desk.queue[1..]), mux := t.mux, out := t.out))
  {
    hide Inv, H.Refuse;
    NotFailed(p);
    NextUp(p);
    var f := p.desk.queue[0];
    var id := f.streamId;
    var raised := H.Turn(p.mux.(highWater := Some(id)), p.out);
    RefusedKeeps(p, H.Turn(p.mux, p.out), H.Protocol);
    RefusedKeeps(p, raised, H.StreamLimit);
    if H.FreshId(p.mux, id) && |p.mux.streams| < p.mux.limits.maxStreams {
      Worth(f);
      var t := H.HandleOpen(H.Turn(p.mux, p.out), f);
      TakeUpKeeps(p, p.(desk := p.desk.(queue := p.desk.queue[1..]), mux := t.mux, out := t.out), id,
                  Some(H.Stream(NEW_WINDOW.Debit(0), 0, INITIAL_WINDOW, false, false)));
    }
  }

  lemma HomeReceiveDataKeeps(p: Pair)
    requires Inv(p) && p.mux.Valid() && p.desk.queue != [] && p.desk.queue[0].flags == FLAG_DATA
    requires p.desk.queue[0].streamId in p.mux.streams
    ensures var t := H.HandleData(H.Turn(p.mux, p.out), p.desk.queue[0], false);
            Inv(p.(desk := p.desk.(queue := p.desk.queue[1..]), mux := t.mux, out := t.out))
  {
    hide Inv, H.Refuse;
    NotFailed(p);
    NextUp(p);
    var f := p.desk.queue[0];
    var id := f.streamId;
    Worth(f);
    var s := p.mux.streams[id];
    RefusedKeeps(p, H.Turn(p.mux, p.out), H.Protocol);
    if !s.peerClosed {
      var s' := s.(window := s.window.Debit(|f.payload|), debited := s.debited + |f.payload|);
      var t := H.HandleData(H.Turn(p.mux, p.out), f, false);
      TakeUpKeeps(p, p.(desk := p.desk.(queue := p.desk.queue[1..]), mux := t.mux, out := t.out), id, Some(s'));
    }
  }

  lemma HomeReceiveWindowKeeps(p: Pair)
    requires Inv(p) && p.mux.Valid() && p.desk.queue != [] && p.desk.queue[0].flags == FLAG_WINDOW
    requires p.desk.queue[0].streamId in p.mux.streams
    ensures var t := H.HandleWindow(H.Turn(p.mux, p.out), p.desk.queue[0]);
            Inv(p.(desk := p.desk.(queue := p.desk.queue[1..]), mux := t.mux, out := t.out))
  {
    hide Inv, H.Refuse;
    NotFailed(p);
    NextUp(p);
    var f := p.desk.queue[0];
    var id := f.streamId;
    Worth(f);
    var s := p.mux.streams[id];
    var s' := s.(sendCredit := s.sendCredit + f.WindowCredit().value);
    var t := H.HandleWindow(H.Turn(p.mux, p.out), f);
    TakeUpKeeps(p, p.(desk := p.desk.(queue := p.desk.queue[1..]), mux := t.mux, out := t.out), id, Some(s'));
  }

  lemma HomeReceiveKeeps(p: Pair)
    requires Inv(p) && p.mux.Valid() && p.desk.Valid() && p.desk.queue != []
    ensures Inv(Next(p, HomeReceive))
  {
    hide Inv, H.Refuse, H.HandleOpen, H.HandleData, H.HandleWindow;
    NotFailed(p);
    NextUp(p);
    var f := p.desk.queue[0];
    var id := f.streamId;
    Worth(f);
    var p' := Next(p, HomeReceive);
    if f.flags == FLAG_OPEN {
      HomeReceiveOpenKeeps(p);
    } else if id !in p.mux.streams {
      RefusedKeeps(p, H.Turn(p.mux, p.out), H.Protocol);
      if f.flags == FLAG_CLOSE || f.flags == FLAG_RESET {
        assert p.mux.streams - {id} == p.mux.streams;
        TakeUpKeeps(p, p', id, None);
      }
    } else if f.flags == FLAG_DATA {
      HomeReceiveDataKeeps(p);
    } else if f.flags == FLAG_WINDOW {
      HomeReceiveWindowKeeps(p);
    } else if f.flags == FLAG_CLOSE {
      var s := p.mux.streams[id];
      TakeUpKeeps(p, p', id, if s.localClosed then None else Some(s.(peerClosed := true)));
    } else {
      TakeUpKeeps(p, p', id, None);
    }
  }

  // ------------------------------------------------------------ every run

  lemma StepKeeps(p: Pair, step: Step)
    requires Inv(p) && Allowed(p, step)
    ensures p.desk.Valid() && p.mux.Valid() && Inv(Next(p, step))
  {
    hide Inv, B.Open, B.Write, B.Consume, B.Close, B.ResetStream, B.Receive;
    InvIsValid(p);
    NotFailed(p);
    match step
    case BridgeOpen => BridgeOpenKeeps(p);
    case BridgeWrite(id, bytes) => BridgeWriteKeeps(p, id, bytes);
    case BridgeConsume(id, count) => BridgeConsumeKeeps(p, id, count);
    case BridgeClose(id) => BridgeCloseKeeps(p, id);
    case BridgeReset(id, code) => BridgeResetKeeps(p, id, code);
    case BridgeRetire => SameStreams(p, Next(p, step));
    case BridgeReceive(taken) => BridgeReceiveKeeps(p, taken);
    case HomeConsume(id, count) => HomeConsumeKeeps(p, id, count);
    case HomeSend(id, bytes) => HomeSendKeeps(p, id, bytes);
    case HomeClose(id) => HomeCloseKeeps(p, id);
    case HomeReset(id, reason) => HomeResetKeeps(p, id, reason);
    case HomeReceive => HomeReceiveKeeps(p);
  }

  function Start(limits: H.Limits): Pair {
    Pair(B.Desk(1, map[], false, [], []), H.NewMux(limits), H.NO_OUTPUT, false)
  }

  lemma StartKeeps(limits: H.Limits)
    requires limits.Valid()
    ensures Inv(Start(limits))
  {
    assert forall id: U32 :: View(Start(limits), id) == EMPTY;
  }

  /** A step that is not allowed in a state does not happen. */
  ghost function Apply(p: Pair, step: Step): (p': Pair)
    requires Inv(p)
    ensures Inv(p')
  {
    if Allowed(p, step) then StepKeeps(p, step); Next(p, step) else p
  }

  ghost function Run(p: Pair, steps: seq<Step>): Pair
    requires Inv(p)
    decreases |steps|
  {
    if steps == [] then p else Run(Apply(p, steps[0]), steps[1..])
  }

  lemma ApplyKeeps(p: Pair, step: Step)
    requires Inv(p) && B.Waiting(p.desk)
    ensures B.Waiting(Apply(p, step).desk)
  {
    hide Inv, H.Handle, B.Waiting, B.Open, B.Write, B.Consume, B.Close, B.ResetStream, B.Receive;
    if Allowed(p, step) {
      StepKeeps(p, step);
      NotFailed(Next(p, step));
      match step
      case BridgeWrite(id, bytes) => B.SendsKeepWaiting(p.desk, id, bytes);
      case BridgeConsume(id, count) => B.ConsumeKeepsWaiting(p.desk, id, count);
      case BridgeClose(id) => B.EndsKeepWaiting(p.desk, id, 0);
      case BridgeReset(id, code) => B.EndsKeepWaiting(p.desk, id, code);
      case BridgeRetire => B.RetireKeepsWaiting(p.desk);
      case BridgeReceive(taken) => B.ReceiveKeepsWaiting(p.desk, p.out.frames[0], taken);
      case BridgeOpen => B.SendsKeepWaiting(p.desk, 0, []);
      case HomeReceive => PoppingKeepsWaiting(p);
      case _ =>
    }
  }

  lemma PoppingKeepsWaiting(p: Pair)
    requires B.Waiting(p.desk) && p.desk.queue != []
    ensures B.Waiting(p.desk.(queue := p.desk.queue[1..]))
  {
  }

  lemma {:induction false} RunKeeps(p: Pair, steps: seq<Step>)
    requires Inv(p) && B.Waiting(p.desk)
    ensures Inv(Run(p, steps)) && B.Waiting(Run(p, steps).desk)
    decreases |steps|
  {
    hide Inv, Apply, B.Waiting;
    if steps != [] {
      ApplyKeeps(p, steps[0]);
      RunKeeps(Apply(p, steps[0]), steps[1..]);
    }
  }

  predicate HasFlowControlReset(frames: seq<Frame>) {
    exists i :: 0 <= i < |frames| && frames[i].flags == FLAG_RESET && frames[i].payload == [RESET_FLOW_CONTROL_ERROR]
  }

  lemma {:induction false} OnlyKeepsMember(frames: seq<Frame>, i: nat)
    requires i < |frames|
    ensures frames[i] in Only(frames, frames[i].streamId)
  {
    if i > 0 {
      OnlyKeepsMember(frames[1..], i - 1);
      assert frames[1..][i - 1] == frames[i];
    }
  }

  lemma ChannelsAreShaped(p: Pair)
    requires Inv(p)
    ensures !HasFlowControlReset(p.desk.queue) && !HasFlowControlReset(p.out.frames)
  {
    forall i | 0 <= i < |p.desk.queue| ensures Shaped(p.desk.queue[i]) {
      OnlyKeepsMember(p.desk.queue, i);
      assert LinkInv(View(p, p.desk.queue[i].streamId));
    }
    forall i | 0 <= i < |p.out.frames| ensures Shaped(p.out.frames[i]) {
      OnlyKeepsMember(p.out.frames, i);
      assert LinkInv(View(p, p.out.frames[i].streamId));
    }
  }

  /**
   Between a bridge and a home no flow-control error ever arises: whatever the
   interleaving, on however many streams, no carrier fails, the home refuses
   nothing for flow control, and no such RESET is ever on either channel.
   */
  lemma FlowControlNeverMisfires(limits: H.Limits, steps: seq<Step>)
    requires limits.Valid()
    ensures Inv(Start(limits))
    ensures var p := Run(Start(limits), steps);
            && !p.failed && p.mux.counts.flowControl == 0
            && !HasFlowControlReset(p.desk.queue) && !HasFlowControlReset(p.out.frames)
  {
    StartKeeps(limits);
    RunKeeps(Start(limits), steps);
    ChannelsAreShaped(Run(Start(limits), steps));
    hide LinkInv;
  }

  /**
   Credit conservation, in both directions of every stream live at both ends:
   send credit, bytes in flight, bytes delivered and not consumed, bytes consumed
   and not granted, and grants in flight add up to the initial window.
   */
  lemma CreditIsConserved(limits: H.Limits, steps: seq<Step>, id: U32)
    requires limits.Valid()
    ensures Inv(Start(limits))
    ensures var p := Run(Start(limits), steps);
            id in p.desk.streams && id in p.mux.streams ==>
              var (b, h) := (p.desk.streams[id], p.mux.streams[id]);
              var (up, down) := (Only(p.desk.queue, id), Only(p.out.frames, id));
              && b.sendCredit + DataIn(up) + h.debited + h.window.unacked + GrantsIn(down) == INITIAL_WINDOW
              && h.sendCredit + DataIn(down) + b.unconsumed + b.window.unacked + GrantsIn(up) == INITIAL_WINDOW
  {
    StartKeeps(limits);
    RunKeeps(Start(limits), steps);
    assert LinkInv(View(Run(Start(limits), steps), id));
    hide DataIn, GrantsIn;
  }

  /**
   No credit deadlock: once a stream's frames have all been handled and its
   delivered bytes consumed, each side has credit for more than half a window,
   and the bridge has no write of at most 64 KiB left waiting.
   */
  lemma NoCreditDeadlock(limits: H.Limits, steps: seq<Step>, id: U32)
    requires limits.Valid()
    ensures Inv(Start(limits))
    ensures var p := Run(Start(limits), steps);
            && id in p.desk.streams && id in p.mux.streams
            && Only(p.desk.queue, id) == [] && Only(p.out.frames, id) == []
            && p.desk.streams[id].unconsumed == 0 && p.mux.streams[id].debited == 0 ==>
              && p.desk.streams[id].sendCredit > RECEIVE_GRANT_THRESHOLD
              && p.mux.streams[id].sendCredit > RECEIVE_GRANT_THRESHOLD
              && (p.desk.streams[id].pending != [] ==> |p.desk.streams[id].pending[0]| > RECOMMENDED_CHUNK)
  {
    StartKeeps(limits);
    RunKeeps(Start(limits), steps);
    var p := Run(Start(limits), steps);
    assert LinkInv(View(p, id));
    CreditIsConserved(limits, steps, id);
  }
}
