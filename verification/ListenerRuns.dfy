/**
 What holds in every state the listener can reach, whatever bytes the peer sends
 and whatever local calls are made: identifier allocation, the stream cap, the
 memory bound, the credit ceiling, refusal counts and each stream's event order.
 */
module ListenerRuns {
  import opened Outcomes
  import opened Wire
  import opened Flow
  import opened Listener

  // ------------------------------------------------------------ event order

  /** Where a stream stands in the order Opened Data* ReadClosed* Reset?. */
  datatype Phase = Unopened | Reading | HalfClosed | Ended | OutOfOrder

  function Advance(p: Phase, e: Event): Phase {
    match e
    case Opened(_) => if p == Unopened then Reading else OutOfOrder
    case Data(_, _) => if p == Reading then Reading else OutOfOrder
    case ReadClosed(_) => if p == Reading || p == HalfClosed then HalfClosed else OutOfOrder
    case WasReset(_, _) => if p == Reading || p == HalfClosed then Ended else OutOfOrder
  }

  /** The phase of stream `id` after a log of events. */
  function PhaseOf(events: seq<Event>, id: U32): Phase {
    if events == [] then Unopened
    else
      var last := events[|events| - 1];
      var p := PhaseOf(events[..|events| - 1], id);
      if last.streamId == id then Advance(p, last) else p
  }

  lemma PhaseAppend(events: seq<Event>, e: Event, id: U32)
    ensures PhaseOf(events + [e], id) ==
            if e.streamId == id then Advance(PhaseOf(events, id), e) else PhaseOf(events, id)
  {
    assert (events + [e])[..|events|] == events;
  }

  /** Identifiers the peer opened, in order. */
  function OpenedIds(events: seq<Event>): seq<U32> {
    if events == [] then []
    else
      var last := events[|events| - 1];
      OpenedIds(events[..|events| - 1]) + if last.Opened? then [last.streamId] else []
  }

  lemma OpenedAppend(events: seq<Event>, e: Event)
    ensures OpenedIds(events + [e]) == OpenedIds(events) + if e.Opened? then [e.streamId] else []
  {
    assert (events + [e])[..|events|] == events;
  }

  predicate OddIncreasing(ids: seq<U32>) {
    && (forall i :: 0 <= i < |ids| ==> ids[i] % 2 == 1)
    && (forall i, j :: 0 <= i < j < |ids| ==> ids[i] < ids[j])
  }

  // ------------------------------------------------------------ refusals

  function CountOf(refusals: seq<Refusal>, c: Class): nat {
    if refusals == [] then 0
    else CountOf(refusals[..|refusals| - 1], c) + if refusals[|refusals| - 1].kind == c then 1 else 0
  }

  lemma CountAppend(refusals: seq<Refusal>, r: Refusal, c: Class)
    ensures CountOf(refusals + [r], c) == CountOf(refusals, c) + if r.kind == c then 1 else 0
  {
    assert (refusals + [r])[..|refusals|] == refusals;
  }

  predicate CountsMatch(counts: Counts, refusals: seq<Refusal>) {
    forall c: Class :: counts.Of(c) == if CountOf(refusals, c) > COUNTER_MAX then COUNTER_MAX else CountOf(refusals, c)
  }

  // ------------------------------------------------------------ invariant

  /** `id` has been used by the peer to open a stream, accepted or not. */
  predicate Used(mux: Mux, id: U32) {
    id % 2 == 1 && mux.highWater.Some? && id <= mux.highWater.value
  }

  predicate StreamsInOrder(t: Turn) {
    && (forall id :: id in t.mux.streams ==> Used(t.mux, id))
    && (forall id :: id in t.mux.streams ==>
          PhaseOf(t.out.events, id) == if t.mux.streams[id].peerClosed then HalfClosed else Reading)
    && (forall id: U32 :: !Used(t.mux, id) ==> PhaseOf(t.out.events, id) == Unopened)
    && (forall id: U32 :: PhaseOf(t.out.events, id) != OutOfOrder)
  }

  predicate IdsInOrder(t: Turn) {
    && OddIncreasing(OpenedIds(t.out.events))
    && (forall i :: 0 <= i < |OpenedIds(t.out.events)| ==> Used(t.mux, OpenedIds(t.out.events)[i]))
  }

  predicate Inv(t: Turn) {
    && t.mux.Valid()
    && |t.mux.streams| <= t.mux.limits.maxStreams
    && StreamsInOrder(t)
    && IdsInOrder(t)
    && CountsMatch(t.mux.counts, t.out.refusals)
  }

  /** Bytes delivered to the application and not yet consumed, over all streams. */
  ghost function Unconsumed(streams: map<U32, Stream>): nat
    decreases |streams|
  {
    if |streams| == 0 then 0
    else
      var id := AnyOf(streams);
      OneFewer(streams, id);
      streams[id].debited + Unconsumed(streams - {id})
  }

  ghost function AnyOf(streams: map<U32, Stream>): (id: U32)
    requires |streams| != 0
    ensures id in streams
  {
    var id :| id in streams;
    id
  }

  lemma OneFewer(streams: map<U32, Stream>, id: U32)
    requires id in streams
    ensures |streams - {id}| == |streams| - 1
  {
    assert (streams - {id}).Keys == streams.Keys - {id};
  }

  lemma UnconsumedFirst(streams: map<U32, Stream>)
    requires |streams| != 0
    ensures var id := AnyOf(streams);
            Unconsumed(streams) == streams[id].debited + Unconsumed(streams - {id})
  {
  }

  lemma {:induction false} UnconsumedBound(streams: map<U32, Stream>)
    requires forall id :: id in streams ==> streams[id].Valid()
    ensures Unconsumed(streams) <= |streams| * INITIAL_WINDOW
    decreases |streams|
  {
    if |streams| != 0 {
      hide Unconsumed;
      var id := AnyOf(streams);
      UnconsumedFirst(streams);
      OneFewer(streams, id);
      UnconsumedBound(streams - {id});
      DebitedBound(streams[id]);
      OneWindowMore(|streams| - 1);
    }
  }

  lemma DebitedBound(s: Stream)
    requires s.Valid()
    ensures s.debited <= INITIAL_WINDOW
  {
  }

  lemma OneWindowMore(n: nat)
    ensures (n + 1) * INITIAL_WINDOW == n * INITIAL_WINDOW + INITIAL_WINDOW
  {
  }

  // ------------------------------------------------------------ primitives

  lemma RemovalShrinks(streams: map<U32, Stream>, id: U32)
    ensures |streams - {id}| <= |streams|
  {
    assert (streams - {id}).Keys <= streams.Keys;
    SubsetSize((streams - {id}).Keys, streams.Keys);
  }

  lemma SubsetSize(a: set<U32>, b: set<U32>)
    requires a <= b
    ensures |a| <= |b|
  {
    assert b == a + (b - a);
  }

  lemma RefuseKeepsOrder(t: Turn, v: FrameViolation, c: Class)
    requires Inv(t)
    ensures StreamsInOrder(Refuse(t, v, c)) && IdsInOrder(Refuse(t, v, c))
  {
    hide PhaseOf, OpenedIds, CountOf, Window.Valid, Limits.Valid;
    if v.streamId in t.mux.streams {
      var e := WasReset(v.streamId, ReasonOf(c));
      forall id: U32 { PhaseAppend(t.out.events, e, id); }
      OpenedAppend(t.out.events, e);
      assert OpenedIds(t.out.events) + [] == OpenedIds(t.out.events);
    }
  }

  lemma RefuseKeeps(t: Turn, v: FrameViolation, c: Class)
    requires Inv(t)
    ensures Inv(Refuse(t, v, c)) && Refuse(t, v, c).mux.limits == t.mux.limits
  {
    hide StreamsInOrder, IdsInOrder, CountsMatch, Mux.Valid;
    RefuseValid(t, v, c);
    RefuseKeepsOrder(t, v, c);
    RemovalShrinks(t.mux.streams, v.streamId);
    RecordKeepsCounts(t.mux.counts, t.out.refusals, Refusal(c, Some(v)));
  }

  lemma RecordKeepsCounts(counts: Counts, refusals: seq<Refusal>, r: Refusal)
    requires CountsMatch(counts, refusals)
    ensures CountsMatch(counts.Record(r.kind), refusals + [r])
  {
    hide CountOf;
    forall c: Class { CountAppend(refusals, r, c); }
  }

  lemma MarkPeerClosedKeeps(t: Turn, id: U32)
    requires Inv(t)
    ensures Inv(MarkPeerClosed(t, id)) && MarkPeerClosed(t, id).mux.limits == t.mux.limits
  {
    hide PhaseOf, OpenedIds, CountOf, Window.Valid, Limits.Valid;
    MarkPeerClosedValid(t, id);
    if id in t.mux.streams {
      RemovalShrinks(t.mux.streams, id);
      assert t.mux.streams[id := t.mux.streams[id].(peerClosed := true)].Keys == t.mux.streams.Keys;
      forall other: U32 { PhaseAppend(t.out.events, ReadClosed(id), other); }
      OpenedAppend(t.out.events, ReadClosed(id));
      assert OpenedIds(t.out.events) + [] == OpenedIds(t.out.events);
    }
  }

  lemma RaiseKeeps(t: Turn, id: U32)
    requires Inv(t) && FreshId(t.mux, id)
    ensures Inv(t.(mux := t.mux.(highWater := Some(id))))
  {
    hide PhaseOf, OpenedIds, CountOf, Window.Valid, Limits.Valid;
  }

  /** Replacing a live stream without touching its order keeps everything. */
  lemma UpdateKeeps(t: Turn, id: U32, s: Stream)
    requires Inv(t) && id in t.mux.streams && s.Valid()
    requires s.peerClosed == t.mux.streams[id].peerClosed
    ensures Inv(t.(mux := t.mux.(streams := t.mux.streams[id := s])))
  {
    hide PhaseOf, OpenedIds, CountOf, Window.Valid, Limits.Valid;
    assert t.mux.streams[id := s].Keys == t.mux.streams.Keys;
  }

  lemma RemoveKeeps(t: Turn, id: U32)
    requires Inv(t)
    ensures Inv(t.(mux := t.mux.(streams := t.mux.streams - {id})))
  {
    hide PhaseOf, OpenedIds, CountOf, Window.Valid, Limits.Valid;
    RemovalShrinks(t.mux.streams, id);
  }

  lemma DataEventKeeps(t: Turn, id: U32, bytes: Bytes)
    requires Inv(t) && id in t.mux.streams && !t.mux.streams[id].peerClosed
    ensures Inv(t.(out := t.out.(events := t.out.events + [Data(id, bytes)])))
  {
    hide PhaseOf, OpenedIds, CountOf, Window.Valid, Limits.Valid;
    forall other: U32 { PhaseAppend(t.out.events, Data(id, bytes), other); }
    OpenedAppend(t.out.events, Data(id, bytes));
    assert OpenedIds(t.out.events) + [] == OpenedIds(t.out.events);
  }

  lemma OpenedEventKeeps(t: Turn, id: U32, s: Stream)
    requires Inv(t) && FreshId(t.mux, id) && |t.mux.streams| < t.mux.limits.maxStreams
    requires s.Valid() && !s.peerClosed
    ensures Inv(Turn(t.mux.(highWater := Some(id), streams := t.mux.streams[id := s]),
                     t.out.(events := t.out.events + [Opened(id)])))
  {
    hide StreamsInOrder, IdsInOrder, CountsMatch, Stream.Valid;
    assert t.mux.streams[id := s].Keys == t.mux.streams.Keys + {id};
    OpenedEventStreams(t, id, s);
    OpenedEventIds(t, id, s);
  }

  lemma OpenedEventStreams(t: Turn, id: U32, s: Stream)
    requires StreamsInOrder(t) && FreshId(t.mux, id) && !s.peerClosed
    ensures StreamsInOrder(Turn(t.mux.(highWater := Some(id), streams := t.mux.streams[id := s]),
                                t.out.(events := t.out.events + [Opened(id)])))
  {
    hide PhaseOf;
    assert !Used(t.mux, id);
    forall other: U32 { PhaseAppend(t.out.events, Opened(id), other); }
  }

  lemma OpenedEventIds(t: Turn, id: U32, s: Stream)
    requires IdsInOrder(t) && FreshId(t.mux, id)
    ensures IdsInOrder(Turn(t.mux.(highWater := Some(id), streams := t.mux.streams[id := s]),
                            t.out.(events := t.out.events + [Opened(id)])))
  {
    hide OpenedIds;
    OpenedAppend(t.out.events, Opened(id));
  }

  // ------------------------------------------------------------ handlers

  lemma HandleOpenKeeps(t: Turn, f: Frame)
    requires Inv(t)
    ensures Inv(HandleOpen(t, f))
  {
    hide Refuse, MarkPeerClosed, Inv;
    if !FreshId(t.mux, f.streamId) {
      RefuseKeeps(t, f.Violation(), Protocol);
    } else {
      var raised := t.(mux := t.mux.(highWater := Some(f.streamId)));
      RaiseKeeps(t, f.streamId);
      RefuseKeeps(raised, f.Violation(), StreamLimit);
      RefuseKeeps(raised, f.Violation(), FlowControl);
      if |t.mux.streams| < t.mux.limits.maxStreams && |f.payload| <= INITIAL_WINDOW {
        HandleFreshOpenKeeps(t, f);
      }
    }
  }

  lemma HandleFreshOpenKeeps(t: Turn, f: Frame)
    requires Inv(t) && FreshId(t.mux, f.streamId)
    requires |t.mux.streams| < t.mux.limits.maxStreams && |f.payload| <= INITIAL_WINDOW
    ensures Inv(HandleOpen(t, f))
  {
    hide Refuse, MarkPeerClosed, Inv;
    var id := f.streamId;
    var s := Stream(NEW_WINDOW.Debit(|f.payload|), |f.payload|, INITIAL_WINDOW, false, false);
    var started := Turn(t.mux.(highWater := Some(id), streams := t.mux.streams[id := s]),
                        t.out.(events := t.out.events + [Opened(id)]));
    OpenedEventKeeps(t, id, s);
    var t' := started;
    if f.payload != [] || CarriesData(f.flags) {
      DataEventKeeps(started, id, f.payload);
      t' := started.(out := started.out.(events := started.out.events + [Data(id, f.payload)]));
      assert t'.out.events == t.out.events + ([Opened(id)] + [Data(id, f.payload)]);
    } else {
      assert t'.out.events == t.out.events + ([Opened(id)] + []);
    }
    MarkPeerClosedKeeps(t', id);
  }

  lemma HandleDataKeeps(t: Turn, f: Frame, closes: bool)
    requires Inv(t) && f.streamId in t.mux.streams
    ensures Inv(HandleData(t, f, closes))
  {
    hide Refuse, MarkPeerClosed, StreamsInOrder, IdsInOrder, CountsMatch;
    RefuseKeeps(t, f.Violation(), Protocol);
    RefuseKeeps(t, f.Violation(), FlowControl);
    var s := t.mux.streams[f.streamId];
    if !s.peerClosed && s.window.Admits(|f.payload|) {
      var s' := s.(window := s.window.Debit(|f.payload|), debited := s.debited + |f.payload|);
      UpdateKeeps(t, f.streamId, s');
      var t' := t.(mux := t.mux.(streams := t.mux.streams[f.streamId := s']));
      DataEventKeeps(t', f.streamId, f.payload);
      MarkPeerClosedKeeps(t'.(out := t'.out.(events := t'.out.events + [Data(f.streamId, f.payload)])), f.streamId);
    }
  }

  lemma HandleResetKeeps(t: Turn, f: Frame)
    requires Inv(t) && f.streamId in t.mux.streams
    ensures Inv(HandleReset(t, f))
  {
    hide PhaseOf, OpenedIds, CountOf, Refuse, Window.Valid, Limits.Valid;
    if |f.payload| != 1 {
      RefuseKeeps(t, f.Violation(), Protocol);
    } else {
      RemovalShrinks(t.mux.streams, f.streamId);
      var e := WasReset(f.streamId, ReasonFromWire(f.payload[0]));
      forall id: U32 { PhaseAppend(t.out.events, e, id); }
      OpenedAppend(t.out.events, e);
      assert OpenedIds(t.out.events) + [] == OpenedIds(t.out.events);
    }
  }

  lemma HandleWindowKeeps(t: Turn, f: Frame)
    requires Inv(t) && f.streamId in t.mux.streams
    ensures Inv(HandleWindow(t, f))
  {
    hide Refuse, StreamsInOrder, IdsInOrder, CountsMatch;
    RefuseKeeps(t, f.Violation(), Protocol);
    RefuseKeeps(t, f.Violation(), FlowControl);
    var credit := f.WindowCredit();
    if credit.Some? {
      var s := t.mux.streams[f.streamId];
      var next := AddCredit(s.sendCredit, credit.value);
      if next.Some? {
        UpdateKeeps(t, f.streamId, s.(sendCredit := next.value));
        SameOrder(t.(mux := t.mux.(streams := t.mux.streams[f.streamId := s.(sendCredit := next.value)])),
                  HandleWindow(t, f));
      }
    }
  }

  /** Frames to write and wake-ups do not enter the invariant. */
  lemma SameOrder(a: Turn, b: Turn)
    requires Inv(a) && a.mux == b.mux
    requires a.out.events == b.out.events && a.out.refusals == b.out.refusals
    ensures Inv(b)
  {
  }

  lemma HandleKeeps(t: Turn, f: Frame)
    requires Inv(t)
    ensures Handle(t, f).Ok? ==> Inv(Handle(t, f).value)
  {
    hide Refuse, MarkPeerClosed, HandleOpen, HandleData, HandleReset, HandleWindow, Inv;
    RefuseKeeps(t, f.Violation(), Protocol);
    MarkPeerClosedKeeps(t, f.streamId);
    HandleOpenKeeps(t, f);
    SameOrder(t, t.(out := t.out.(frames := t.out.frames + [Frame(0, FLAG_PONG, f.payload)])));
    if f.streamId in t.mux.streams {
      HandleDataKeeps(t, f, false);
      HandleDataKeeps(t, f, true);
      HandleResetKeeps(t, f);
      HandleWindowKeeps(t, f);
    }
  }

  lemma {:induction false} ScanKeeps(mux: Mux, skip: nat, buf: Bytes, out: Output)
    requires Inv(Turn(mux, out))
    ensures var h := Scan(mux, skip, buf, out);
            Inv(Turn(h.ear.mux, h.out))
    decreases |buf|
  {
    hide Refuse, Handle, Parse, Inv;
    if skip > 0 {
      if |buf| > skip {
        ScanKeeps(mux, 0, buf[skip..], out);
      }
    } else if |buf| >= HEADER_LEN {
      if Reserved(HeaderFlags(buf)) {
        if HeaderStream(buf) != 0 {
          RefuseKeeps(Turn(mux, out), HeaderViolation(buf), Protocol);
          var t := Refuse(Turn(mux, out), HeaderViolation(buf), Protocol);
          ScanKeeps(t.mux, HeaderLength(buf), buf[HEADER_LEN..], t.out);
        }
      } else if Parse(buf).Got? {
        HandleKeeps(Turn(mux, out), Parse(buf).frame);
        var h := Handle(Turn(mux, out), Parse(buf).frame);
        if h.Ok? {
          ScanKeeps(h.value.mux, 0, Parse(buf).rest, h.value.out);
        }
      }
    }
  }

  // ------------------------------------------------------------ runs

  datatype Action =
    | Read(bytes: Bytes)
    | Consumed(id: U32, count: nat)
    | Sent(id: U32, payload: Bytes)
    | ClosedWrite(id: U32)
    | ResetCall(id: U32, reason: ResetReason)

  /** The listener and the log of everything it has output so far. */
  datatype World = World(ear: Ear, log: Output)

  function Start(limits: Limits): World {
    World(Ear(NewMux(limits), 0, []), NO_OUTPUT)
  }

  function Wrote(w: World, mux: Mux, frames: seq<Frame>): World {
    World(w.ear.(mux := mux), w.log.(frames := w.log.frames + frames))
  }

  /** A failed call changes nothing but what a failed read already handled. */
  function Act(w: World, a: Action): World
    requires w.ear.mux.Valid()
  {
    var mux := w.ear.mux;
    match a
    case Read(bytes) => var h := Listen(w.ear, bytes, w.log); World(h.ear, h.out)
    case Consumed(id, count) =>
      (match Consume(mux, id, count) case Err(_) => w case Ok((m, frames)) => Wrote(w, m, frames))
    case Sent(id, payload) =>
      (match TrySend(mux, id, payload)
       case Err(_) => w
       case Ok((m, None)) => Wrote(w, m, [])
       case Ok((m, Some(frame))) => Wrote(w, m, [frame]))
    case ClosedWrite(id) =>
      (match CloseWrite(mux, id) case Err(_) => w case Ok((m, frame)) => Wrote(w, m, [frame]))
    case ResetCall(id, reason) =>
      (match Reset(mux, id, reason) case Err(_) => w case Ok((m, frame)) => Wrote(w, m, [frame]))
  }

  predicate WorldInv(w: World) {
    Inv(Turn(w.ear.mux, w.log))
  }

  lemma ActKeeps(w: World, a: Action)
    requires WorldInv(w)
    ensures WorldInv(Act(w, a))
  {
    hide StreamsInOrder, IdsInOrder, CountsMatch, Scan;
    var mux := w.ear.mux;
    var t := Turn(mux, w.log);
    match a
    case Read(bytes) => ScanKeeps(mux, w.ear.skip, w.ear.staged + bytes, w.log);
    case Consumed(id, count) =>
      var r := Consume(mux, id, count);
      if r.Ok? {
        UpdateKeeps(t, id, r.value.0.streams[id]);
        SameOrder(t.(mux := r.value.0), Turn(r.value.0, Act(w, a).log));
      }
    case Sent(id, payload) =>
      var r := TrySend(mux, id, payload);
      if r.Ok? && r.value.1.Some? {
        UpdateKeeps(t, id, r.value.0.streams[id]);
        SameOrder(t.(mux := r.value.0), Turn(r.value.0, Act(w, a).log));
      } else if r.Ok? {
        SameOrder(t, Turn(mux, Act(w, a).log));
      }
    case ClosedWrite(id) =>
      var r := CloseWrite(mux, id);
      if r.Ok? {
        if mux.streams[id].peerClosed {
          RemoveKeeps(t, id);
        } else {
          UpdateKeeps(t, id, r.value.0.streams[id]);
        }
        SameOrder(t.(mux := r.value.0), Turn(r.value.0, Act(w, a).log));
      }
    case ResetCall(id, reason) =>
      var r := Reset(mux, id, reason);
      if r.Ok? {
        RemoveKeeps(t, id);
        SameOrder(t.(mux := r.value.0), Turn(r.value.0, Act(w, a).log));
      }
  }

  ghost function RunFrom(w: World, actions: seq<Action>): World
    requires WorldInv(w)
    decreases |actions|
  {
    if actions == [] then w
    else
      ActKeeps(w, actions[0]);
      RunFrom(Act(w, actions[0]), actions[1..])
  }

  lemma {:induction false} RunKeeps(w: World, actions: seq<Action>)
    requires WorldInv(w)
    ensures WorldInv(RunFrom(w, actions))
    decreases |actions|
  {
    hide StreamsInOrder, IdsInOrder, CountsMatch, Act;
    if actions != [] {
      ActKeeps(w, actions[0]);
      RunKeeps(Act(w, actions[0]), actions[1..]);
    }
  }

  lemma StartKeeps(limits: Limits)
    requires limits.Valid()
    ensures WorldInv(Start(limits))
  {
  }

  /**
   The listener's run invariant. Opened identifiers are odd and strictly
   increasing, live streams respect the cap, unconsumed bytes never exceed cap
   windows, send credit never passes 2^31 - 1, every stream's events come in the
   order Opened Data* ReadClosed* Reset?, and the counters count the refusals.
   */
  lemma EveryRunIsOrderly(limits: Limits, actions: seq<Action>)
    requires limits.Valid()
    ensures WorldInv(Start(limits))
    ensures var w := RunFrom(Start(limits), actions);
            && OddIncreasing(OpenedIds(w.log.events))
            && |w.ear.mux.streams| <= w.ear.mux.limits.maxStreams
            && Unconsumed(w.ear.mux.streams) <= w.ear.mux.limits.maxStreams * INITIAL_WINDOW
            && (forall id :: id in w.ear.mux.streams ==> w.ear.mux.streams[id].sendCredit <= MAX_SEND_CREDIT)
            && (forall id: U32 :: PhaseOf(w.log.events, id) != OutOfOrder)
            && CountsMatch(w.ear.mux.counts, w.log.refusals)
  {
    StartKeeps(limits);
    RunKeeps(Start(limits), actions);
    var w := RunFrom(Start(limits), actions);
    UnconsumedBound(w.ear.mux.streams);
    var cap, live := w.ear.mux.limits.maxStreams, |w.ear.mux.streams|;
    assert live * INITIAL_WINDOW <= cap * INITIAL_WINDOW;
  }
}
