/**
 What holds whenever the listener's carrier driver parks, over every run of peer
 bytes and application calls: write order, CLOSE after the last byte, staging
 accounting, and no lost wake-up.
 */
module SchedulerRuns {
  import opened Outcomes
  import opened Wire
  import opened Flow
  import opened Scheduler
  import opened SchedulerTurns
  import opened SchedulerReads
  import L = Listener
  import R = ListenerRuns
  import G = ListenerGrammar

  // ------------------------------------------------------------ consuming

  lemma ConsumeSides(mux: L.Mux, k: U32, count: nat, id: U32)
    requires mux.Valid() && L.Consume(mux, k, count).Ok?
    ensures var (mux', frames) := L.Consume(mux, k, count).value;
            && SideOf(mux', id) == SideOf(mux, id)
            && (frames == [] || exists g: U32 :: frames == [WindowFrame(k, g)])
  {
  }

  lemma ConsumeView(w: World, k: U32, count: nat, id: U32)
    requires w.d.ear.mux.Valid() && L.Consume(w.d.ear.mux, k, count).Ok?
    ensures var (mux, frames) := L.Consume(w.d.ear.mux, k, count).value;
            ViewOf(w.(d := Written(w.d, mux, frames)), id) == ViewOf(w, id)
  {
    hide SentBytes, CloseCount, Late, Queued, Fenced, Orderly, SideOf, L.Consume;
    ConsumeSides(w.d.ear.mux, k, count, id);
    var (mux, frames) := L.Consume(w.d.ear.mux, k, count).value;
    if frames == [] {
      assert w.d.log.frames + [] == w.d.log.frames;
    } else {
      QuietFrame(w.d.log.frames, frames[0], id);
      assert frames == [frames[0]];
    }
  }

  lemma ConsumeCore(w: World, k: U32, count: nat)
    requires Core(w) && w.d.ear.mux.Valid() && L.Consume(w.d.ear.mux, k, count).Ok?
    ensures var (mux, frames) := L.Consume(w.d.ear.mux, k, count).value;
            Core(w.(d := Written(w.d, mux, frames)))
  {
    hide ViewOf, R.WorldInv, Consistent, L.Consume, Sound;
    var (mux, frames) := L.Consume(w.d.ear.mux, k, count).value;
    R.ActKeeps(R.World(w.d.ear, w.d.log), R.Consumed(k, count));
    forall id: U32 ensures Sound(ViewOf(w.(d := Written(w.d, mux, frames)), id)) {
      assert Sound(ViewOf(w, id));
      ConsumeView(w, k, count, id);
    }
  }

  // ------------------------------------------------------------ commands

  lemma ReceivedCore(w: World)
    requires Core(w) && w.d.commands != []
    requires var c := w.d.commands[0]; c.Wake? || c.Consumed? || c.CloseConnection?
    ensures Core(Received(w))
  {
    hide ViewOf, Base, Sound;
    SameBase(w.d, Received(w).d);
    forall id: U32 ensures Sound(ViewOf(Received(w), id)) {
      assert Sound(ViewOf(w, id));
      ReceivedOther(w, id);
    }
  }

  lemma CoreValid(w: World)
    requires Core(w)
    ensures w.d.ear.mux.Valid()
  {
    BaseValid(w.d);
  }

  lemma StoppedCore(w: World)
    requires Core(w)
    ensures Core(w.(d := w.d.(stopped := true)))
  {
    hide ViewOf, Sound, Base;
    var w' := w.(d := w.d.(stopped := true));
    SameBase(w.d, w'.d);
    forall id: U32 ensures Sound(ViewOf(w', id)) {
      assert Sound(ViewOf(w, id));
      StoppedView(w, id);
    }
  }

  lemma StoppedView(w: World, id: U32)
    ensures ViewOf(w.(d := w.d.(stopped := true)), id) == ViewOf(w, id)
  {
  }

  lemma CommandParks(w: World)
    requires Parked(w)
    ensures w.d.ear.mux.Valid()
    ensures Parked(w.(d := OnCommand(w.d)))
  {
    hide Core, L.Consume, Flush, OnReset;
    CoreValid(w);
    if w.d.commands != [] {
      var c := w.d.commands[0];
      var r := Received(w);
      match c
      case Write(k, bytes) => WriteCore(w); FlushParks(Queue(r, k, bytes));
      case Consumed(k, count) =>
        ReceivedCore(w);
        StoppedCore(r);
        var out := L.Consume(r.d.ear.mux, k, count);
        if out.Ok? {
          ConsumeCore(r, k, count);
          FlushParks(r.(d := Written(r.d, out.value.0, out.value.1)));
        }
      case Close(k) => CloseCore(w); FlushParks(Asked(r, k));
      case Cancel(k) => ResetCore(w, L.Cancel); FlushParks(r.(d := OnReset(r.d, k, L.Cancel)));
      case ResetStream(k, reason) => ResetCore(w, reason); FlushParks(r.(d := OnReset(r.d, k, reason)));
      case Wake => ReceivedCore(w); FlushParks(r);
      case CloseConnection => ReceivedCore(w); StoppedCore(r);
    }
  }

  // ------------------------------------------------------------ reads

  lemma {:induction false} MarkMembers(pending: map<U32, Bytes>, ready: seq<U32>, writable: seq<U32>, id: U32)
    ensures id in MarkWritable(pending, ready, writable) <==> id in ready || (id in writable && id in pending)
  {
    if writable != [] {
      MarkMembers(pending, ready, writable[..|writable| - 1], id);
      assert writable == writable[..|writable| - 1] + [writable[|writable| - 1]];
    }
  }

  lemma {:induction false} MarkDistinct(pending: map<U32, Bytes>, ready: seq<U32>, writable: seq<U32>)
    requires NoDuplicates(ready)
    ensures NoDuplicates(MarkWritable(pending, ready, writable))
  {
    if writable != [] {
      MarkDistinct(pending, ready, writable[..|writable| - 1]);
      PushDistinct(MarkWritable(pending, ready, writable[..|writable| - 1]), writable[|writable| - 1]);
    }
  }

  lemma {:induction false} PhasePrefix(a: seq<L.Event>, b: seq<L.Event>, id: U32)
    ensures R.PhaseOf(a, id) == R.OutOfOrder ==> R.PhaseOf(a + b, id) == R.OutOfOrder
  {
    if b == [] {
      assert a + b == a;
    } else {
      PhasePrefix(a, b[..|b| - 1], id);
      assert (a + b)[..|a + b| - 1] == a + b[..|b| - 1];
    }
  }

  /** Delivering a turn's events keeps the statuses in step with the log. */
  lemma {:induction false} DeliverConsistent(streams: Statuses, log: seq<L.Event>, events: seq<L.Event>)
    requires Consistent(streams, log)
    requires forall id: U32 :: R.PhaseOf(log + events, id) != R.OutOfOrder
    ensures Consistent(Deliver(streams, events), log + events)
  {
    if events == [] {
      assert log + events == log;
    } else {
      var init, e := events[..|events| - 1], events[|events| - 1];
      assert log + events == (log + init) + [e];
      forall id: U32 { PhasePrefix(log + init, [e], id); }
      DeliverConsistent(streams, log, init);
      DeliverStep(Deliver(streams, init), log + init, e);
    }
  }

  lemma DeliverStep(streams: Statuses, log: seq<L.Event>, e: L.Event)
    requires Consistent(streams, log)
    requires forall id: U32 :: R.PhaseOf(log + [e], id) != R.OutOfOrder
    ensures Consistent(DeliverOne(streams, e), log + [e])
  {
    hide R.PhaseOf;
    forall id: U32 { R.PhaseAppend(log, e, id); }
  }

  /** Delivery touches no stream's staging except to start it at zero. */
  lemma {:induction false} DeliverStaging(streams: Statuses, log: seq<L.Event>, events: seq<L.Event>, id: U32)
    requires Consistent(streams, log)
    requires forall k: U32 :: R.PhaseOf(log + events, k) != R.OutOfOrder
    ensures id in streams ==>
              id in Deliver(streams, events) && Deliver(streams, events)[id].staged == streams[id].staged
    ensures id !in streams && id in Deliver(streams, events) ==> Deliver(streams, events)[id].staged == 0
  {
    if events != [] {
      var init, e := events[..|events| - 1], events[|events| - 1];
      assert log + events == (log + init) + [e];
      forall k: U32 { PhasePrefix(log + init, [e], k); }
      DeliverStaging(streams, log, init, id);
      DeliverConsistent(streams, log, init);
      R.PhaseAppend(log + init, e, id);
    }
  }

  /** A read's effect on the mux and the log, told from the whole log. */
  lemma HeardOnLog(d: Driver, bytes: Bytes)
    requires Base(d)
    ensures var h := L.Listen(d.ear, bytes, L.NO_OUTPUT);
            var g := L.Scan(d.ear.mux, d.ear.skip, d.ear.staged + bytes, d.log);
            && g.ear == h.ear && g.out.writable == h.out.writable
            && Noted(d.log, h.out) == g.out.(writable := [])
            && g.out.events == d.log.events + h.out.events
  {
    hide R.WorldInv, Consistent, L.Scan;
    G.ScanAppends(d.log, d.ear.mux, d.ear.skip, d.ear.staged + bytes, L.NO_OUTPUT);
    assert G.Append(d.log, L.NO_OUTPUT) == d.log;
  }

  function Heard(d: Driver, h: L.Heard): Driver {
    d.(ear := h.ear, log := Noted(d.log, h.out),
       ready := MarkWritable(d.pending, d.ready, h.out.writable), streams := Deliver(d.streams, h.out.events))
  }

  lemma HeardBase(d: Driver, bytes: Bytes)
    requires Base(d)
    ensures var h := L.Listen(d.ear, bytes, L.NO_OUTPUT);
            && Base(Heard(d, h))
            && (forall id: U32 :: R.PhaseOf(d.log.events + h.out.events, id) != R.OutOfOrder)
  {
    hide R.PhaseOf, L.Scan, Deliver, R.IdsInOrder, R.CountsMatch, MarkWritable;
    var h := L.Listen(d.ear, bytes, L.NO_OUTPUT);
    HeardOnLog(d, bytes);
    var g := L.Scan(d.ear.mux, d.ear.skip, d.ear.staged + bytes, d.log);
    R.ScanKeeps(d.ear.mux, d.ear.skip, d.ear.staged + bytes, d.log);
    R.SameOrder(L.Turn(g.ear.mux, g.out), L.Turn(h.ear.mux, Noted(d.log, h.out)));
    DeliverConsistent(d.streams, d.log.events, h.out.events);
  }

  /** What a read may do to one stream's view. */
  predicate ReadChange(v: View, v': View, grew: bool) {
    && v' == v.(mux := v'.mux, live := v'.live, staged := v'.staged, isReady := v'.isReady)
    && v'.isReady == (v.isReady || (grew && v.pend.Some?))
    && v'.staged == (if v.live.Some? then v.staged else 0)
    && (v'.mux.Some? ==> v'.live == Some(true))
    && (v.live.Some? ==> v'.live.Some?)
    && (v.live == Some(false) ==> v'.live == Some(false))
    && (v.live.Some? && v'.mux.Some? ==>
          && v.mux.Some? && v'.mux.value.localClosed == v.mux.value.localClosed
          && (v'.mux.value.credit == v.mux.value.credit || grew))
    && (v.live.None? && v'.mux.Some? ==> !v'.mux.value.localClosed)
    && (v'.live == Some(true) && v'.mux.None? ==>
          v.live == Some(true) && (v.mux.Some? ==> v.mux.value.localClosed))
  }

  lemma ReadSound(v: View, v': View, grew: bool)
    requires Sound(v) && ReadChange(v, v', grew)
    ensures Sound(v')
  {
  }

  lemma LiveIsPhase(d: Driver, id: U32)
    requires Base(d)
    ensures id in d.streams <==> R.PhaseOf(d.log.events, id) != R.Unopened
    ensures id in d.streams ==> (d.streams[id].live <==> R.PhaseOf(d.log.events, id) != R.Ended)
    ensures id in d.streams ==> R.Used(d.ear.mux, id)
    ensures id in d.ear.mux.streams ==> id in d.streams && d.streams[id].live && R.Used(d.ear.mux, id)
  {
    hide R.PhaseOf, R.IdsInOrder, R.CountsMatch;
  }

  lemma ReadView(w: World, bytes: Bytes, id: U32)
    requires Base(w.d)
    ensures var h := L.Listen(w.d.ear, bytes, L.NO_OUTPUT);
            ReadChange(ViewOf(w, id), ViewOf(w.(d := Heard(w.d, h)), id), id in h.out.writable)
  {
    hide SentBytes, CloseCount, Late, Queued, Fenced, Orderly, Base, R.PhaseOf, R.Used, L.Scan, Deliver, MarkWritable;
    var d := w.d;
    var h := L.Listen(d.ear, bytes, L.NO_OUTPUT);
    var d' := Heard(d, h);
    HeardBase(d, bytes);
    HeardOnLog(d, bytes);
    LiveIsPhase(d, id);
    LiveIsPhase(d', id);
    assert R.Inv(L.Turn(d.ear.mux, d.log)) && Consistent(d.streams, d.log.events) by { BaseParts(d); }
    ScanTracks(d.ear.mux, d.ear.skip, d.ear.staged + bytes, d.log, id);
    MarkMembers(d.pending, d.ready, h.out.writable, id);
    hide Consistent;
    DeliverStaging(d.streams, d.log.events, h.out.events, id);
  }

  lemma BaseParts(d: Driver)
    requires Base(d)
    ensures R.Inv(L.Turn(d.ear.mux, d.log)) && Consistent(d.streams, d.log.events)
  {
  }

  lemma ReadParks(w: World, bytes: Bytes)
    requires Parked(w)
    ensures Parked(w.(d := OnRead(w.d, bytes)))
  {
    hide ViewOf, Sound, Base, Deliver, MarkWritable, L.Listen, ReadChange, Flush;
    var h := L.Listen(w.d.ear, bytes, L.NO_OUTPUT);
    StoppedCore(w);
    if h.error.None? {
      var w' := w.(d := Heard(w.d, h));
      HeardBase(w.d, bytes);
      MarkDistinct(w.d.pending, w.d.ready, h.out.writable);
      forall id: U32 ensures Sound(ViewOf(w', id)) {
        assert Sound(ViewOf(w, id));
        ReadView(w, bytes, id);
        ReadSound(ViewOf(w, id), ViewOf(w', id), id in h.out.writable);
      }
      FlushParks(w');
    }
  }

  // ------------------------------------------------------------ the application

  datatype Step =
    | Read(bytes: Bytes)
    | Recv
    | AppWrite(id: U32, bytes: Bytes)
    | AppShutdown(id: U32)
    | AppDrop(id: U32)
    | AppReset(id: U32, reason: L.ResetReason)
    | AppConsumed(id: U32, count: nat)
    | AppClose

  function Granted(d: Driver, id: U32, requested: nat): nat
    requires id in d.streams
  {
    var available := if MAX_STAGED < d.streams[id].staged then 0 else MAX_STAGED - d.streams[id].staged;
    if requested < available then requested else available
  }

  /** Bytes a write accepts now: none if the stream is not writable or staging is full. */
  function Accepted(w: World, id: U32, bytes: Bytes): Bytes {
    if id !in w.d.streams || !w.d.streams[id].live || id in w.shut then []
    else bytes[..Granted(w.d, id, |bytes|)]
  }

  function AfterWrite(w: World, id: U32, bytes: Bytes): World {
    var b := Accepted(w, id, bytes);
    if b == [] then w
    else World(w.d.(streams := w.d.streams[id := w.d.streams[id].(staged := w.d.streams[id].staged + |b|)],
                    commands := w.d.commands + [Write(id, b)]),
               w.accepted[id := Get(w.accepted, id) + b], w.shut)
  }

  /** A handle sends a fence and writes no more. */
  function AfterFence(w: World, id: U32, c: Command): World {
    World(w.d.(commands := w.d.commands + [c]), w.accepted, w.shut + {id})
  }

  predicate HandleLive(w: World, id: U32) {
    id in w.d.streams && w.d.streams[id].live
  }

  ghost function Next(w: World, s: Step): World
    requires Parked(w)
  {
    CoreValid(w);
    if w.d.stopped then w
    else
      match s
      case Read(bytes) => w.(d := OnRead(w.d, bytes))
      case Recv => w.(d := OnCommand(w.d))
      case AppWrite(id, bytes) => AfterWrite(w, id, bytes)
      case AppShutdown(id) => if HandleLive(w, id) && id !in w.shut then AfterFence(w, id, Close(id)) else w
      case AppDrop(id) => if id in w.d.streams && id !in w.shut then AfterFence(w, id, Cancel(id)) else w
      case AppReset(id, reason) => if HandleLive(w, id) then AfterFence(w, id, ResetStream(id, reason)) else w
      case AppConsumed(id, count) => w.(d := w.d.(commands := w.d.commands + [Consumed(id, count)]))
      case AppClose => w.(d := w.d.(commands := w.d.commands + [CloseConnection]))
  }

  lemma AfterWriteView(w: World, k: U32, bytes: Bytes, id: U32)
    requires Accepted(w, k, bytes) != []
    ensures var b := Accepted(w, k, bytes);
            var v, v' := ViewOf(w, id), ViewOf(AfterWrite(w, k, bytes), id);
            if id == k then
              && v' == v.(staged := v.staged + |b|, queued := v.queued + b, accepted := v.accepted + b,
                          orderly := v'.orderly)
              && v.staged + |b| <= MAX_STAGED && v.live == Some(true) && !v.shut
              && (v.orderly && !v.fenced ==> v'.orderly)
            else v' == v.(orderly := v'.orderly) && (v.orderly ==> v'.orderly)
  {
    hide SentBytes, CloseCount, Late, Queued, Fenced, Orderly, SideOf;
    if id == k {
      CommandAppended(w.d.commands, Write(k, Accepted(w, k, bytes)), id);
    } else {
      QuietCommand(w.d.commands, Write(k, Accepted(w, k, bytes)), id);
    }
  }

  lemma AcceptSound(v: View, b: Bytes, v': View)
    requires Sound(v) && v.live == Some(true) && !v.shut && v'.orderly && v.staged + |b| <= MAX_STAGED
    requires v' == v.(staged := v.staged + |b|, queued := v.queued + b, accepted := v.accepted + b,
                      orderly := v'.orderly)
    ensures Sound(v')
  {
    assert v.mux.Some?;
    assert v.sent + v.Pending() + (v.queued + b) == (v.sent + v.Pending() + v.queued) + b;
  }

  lemma WriteParks(w: World, k: U32, bytes: Bytes)
    requires Parked(w)
    ensures Parked(AfterWrite(w, k, bytes))
  {
    hide ViewOf, Base, AfterWrite, Accepted;
    var w' := AfterWrite(w, k, bytes);
    AfterWriteRest(w, k, bytes);
    if Accepted(w, k, bytes) != [] {
      forall id: U32 ensures Sound(ViewOf(w', id)) {
        assert Sound(ViewOf(w, id));
        AfterWriteView(w, k, bytes, id);
        if id == k {
          AcceptSound(ViewOf(w, id), Accepted(w, k, bytes), ViewOf(w', id));
        }
      }
    }
  }

  lemma AfterWriteRest(w: World, k: U32, bytes: Bytes)
    requires Base(w.d)
    ensures var w' := AfterWrite(w, k, bytes);
            && Base(w'.d) && w'.d.ready == w.d.ready && w.d.commands <= w'.d.commands
            && (Accepted(w, k, bytes) == [] ==> w' == w)
  {
    hide R.WorldInv, R.PhaseOf;
  }

  lemma AfterFenceView(w: World, k: U32, c: Command, id: U32)
    requires Fence(c, k)
    ensures var v, v' := ViewOf(w, id), ViewOf(AfterFence(w, k, c), id);
            && v' == v.(fenced := v.fenced || id == k, shut := v.shut || id == k, orderly := v'.orderly)
            && (v.orderly ==> v'.orderly)
  {
    hide SentBytes, CloseCount, Late, Queued, Fenced, Orderly, SideOf;
    CommandAppended(w.d.commands, c, id);
    assert Queued(w.d.commands, id) + [] == Queued(w.d.commands, id);
  }

  lemma FenceParks(w: World, k: U32, c: Command)
    requires Parked(w) && Fence(c, k) && k in w.d.streams
    ensures Parked(AfterFence(w, k, c))
  {
    hide ViewOf, Base;
    var w' := AfterFence(w, k, c);
    SameBase(w.d, w'.d);
    forall id: U32 ensures Sound(ViewOf(w', id)) {
      assert Sound(ViewOf(w, id));
      AfterFenceView(w, k, c, id);
      Fields(w, id);
    }
  }

  lemma QuietParks(w: World, c: Command)
    requires Parked(w) && (c.Consumed? || c.CloseConnection?)
    ensures Parked(w.(d := w.d.(commands := w.d.commands + [c])))
  {
    hide Core;
    QuietCommandCore(w, c);
  }

  lemma NextParks(w: World, s: Step)
    requires Parked(w)
    ensures Parked(Next(w, s))
  {
    hide Parked, OnRead, OnCommand, AfterWrite, AfterFence;
    match s
    case Read(bytes) => ReadParks(w, bytes);
    case Recv => CommandParks(w);
    case AppWrite(id, bytes) => WriteParks(w, id, bytes);
    case AppShutdown(id) => if HandleLive(w, id) { FenceParks(w, id, Close(id)); }
    case AppDrop(id) => if id in w.d.streams { FenceParks(w, id, Cancel(id)); }
    case AppReset(id, reason) => if HandleLive(w, id) { FenceParks(w, id, ResetStream(id, reason)); }
    case AppConsumed(id, count) => QuietParks(w, Consumed(id, count));
    case AppClose => QuietParks(w, CloseConnection);
  }

  ghost function Run(w: World, steps: seq<Step>): World
    requires Parked(w)
    decreases |steps|
  {
    if steps == [] then w
    else
      NextParks(w, steps[0]);
      Run(Next(w, steps[0]), steps[1..])
  }

  lemma {:induction false} RunParks(w: World, steps: seq<Step>)
    requires Parked(w)
    ensures Parked(Run(w, steps))
    decreases |steps|
  {
    hide Parked, Next;
    if steps != [] {
      NextParks(w, steps[0]);
      RunParks(Next(w, steps[0]), steps[1..]);
    }
  }

  function Start(limits: L.Limits): World {
    World(NewDriver(limits), map[], {})
  }

  lemma StartParks(limits: L.Limits)
    requires limits.Valid()
    ensures Parked(Start(limits))
  {
    R.StartKeeps(limits);
    var w := Start(limits);
    assert Base(w.d);
    forall id: U32 ensures Sound(ViewOf(w, id)) {
    }
  }

  lemma SoundSays(w: World, id: U32)
    requires Sound(ViewOf(w, id))
    ensures var sent := SentBytes(w.d.log.frames, id);
            var unsent := Get(w.d.pending, id) + Queued(w.d.commands, id);
            && sent <= Get(w.accepted, id)
            && (id in w.d.ear.mux.streams ==> sent + unsent == Get(w.accepted, id))
            && CloseCount(w.d.log.frames, id) <= 1
            && (CloseCount(w.d.log.frames, id) == 1 ==> sent == Get(w.accepted, id) && id in w.shut)
            && !Late(w.d.log.frames, id)
            && (id in w.d.streams ==> w.d.streams[id].staged == |unsent| <= MAX_STAGED)
            && (id in w.d.ear.mux.streams && id in w.shut ==>
                  Fenced(w.d.commands, id) || id in w.d.closing || w.d.ear.mux.streams[id].localClosed)
  {
    hide SentBytes, CloseCount, Late, Queued, Fenced, Orderly, Scheduled;
    var v := ViewOf(w, id);
    assert v.sent + (v.Pending() + v.queued) == v.sent + v.Pending() + v.queued;
  }

  /**
   Over every run of the driver, whenever it parks: what the application wrote on
   a stream still in the mux is on the wire, pending or queued, in order and
   without loss; what is on the wire is always a prefix of what was written; a
   CLOSE appears once, after the last byte; staging is exactly what is unsent and
   within its bound; the ready queue has no duplicates; and a stream the application
   has ended is gone, closed, waiting to be closed, or its command is still queued.
   */
  lemma WritesAreSentInOrder(limits: L.Limits, steps: seq<Step>, id: U32)
    requires limits.Valid()
    ensures Parked(Start(limits))
    ensures var w := Run(Start(limits), steps);
            var sent := SentBytes(w.d.log.frames, id);
            var unsent := Get(w.d.pending, id) + Queued(w.d.commands, id);
            && NoDuplicates(w.d.ready)
            && sent <= Get(w.accepted, id)
            && (id in w.d.ear.mux.streams ==> sent + unsent == Get(w.accepted, id))
            && CloseCount(w.d.log.frames, id) <= 1
            && (CloseCount(w.d.log.frames, id) == 1 ==> sent == Get(w.accepted, id) && id in w.shut)
            && !Late(w.d.log.frames, id)
            && (id in w.d.streams ==> w.d.streams[id].staged == |unsent| <= MAX_STAGED)
            && (id in w.d.ear.mux.streams && id in w.shut ==>
                  Fenced(w.d.commands, id) || id in w.d.closing || w.d.ear.mux.streams[id].localClosed)
  {
    hide Next, SentBytes, CloseCount, Late, Queued, Fenced, ViewOf, Sound, Base, Run, Start, NoDuplicates;
    StartParks(limits);
    RunParks(Start(limits), steps);
    var w := Run(Start(limits), steps);
    assert Sound(ViewOf(w, id));
    SoundSays(w, id);
  }

  /**
   No lost wake-up: whenever the driver parks, a stream whose next chunk fits its
   credit, or that only has its CLOSE left to send, is on the ready queue and a
   wake-up is already among the commands.
   */
  lemma NoLostWakeup(limits: L.Limits, steps: seq<Step>, id: U32)
    requires limits.Valid()
    ensures Parked(Start(limits))
    ensures var w := Run(Start(limits), steps);
            id in w.d.ear.mux.streams &&
            ((id in w.d.pending && |Chunk(w.d.pending[id])| <= w.d.ear.mux.streams[id].sendCredit)
             || (id in w.d.closing && id !in w.d.pending))
            ==> id in w.d.ready && Wake in w.d.commands
  {
    hide Next, SentBytes, CloseCount, Late, Queued, Fenced, Orderly, Base, Chunk;
    StartParks(limits);
    RunParks(Start(limits), steps);
    var w := Run(Start(limits), steps);
    assert Sound(ViewOf(w, id));
  }

  // ------------------------------------------------------------ fairness

  lemma {:induction false} NothingWithout(ready: seq<U32>, k: U32)
    requires k !in ready
    ensures Without(ready, k) == ready
  {
    if ready != [] {
      NothingWithout(ready[1..], k);
      assert ready == [ready[0]] + ready[1..];
    }
  }

  /** A turn leaves the queue as it was, or puts the stream back at its end. */
  lemma ServeRequeues(d: Driver, k: U32)
    requires k !in d.ready
    ensures Serve(d, k).0.ready == d.ready || Serve(d, k).0.ready == d.ready + [k]
  {
    hide L.TrySend, L.CloseWrite, Chunk, Without;
    NothingWithout(d.ready, k);
  }

  /** A live stream whose chunk fits its credit sends exactly that chunk in its turn. */
  lemma ServeSends(w: World, k: U32)
    requires SoundButScheduling(ViewOf(w, k)) && k in w.d.ear.mux.streams
    requires k in w.d.pending && |Chunk(w.d.pending[k])| <= w.d.ear.mux.streams[k].sendCredit
    ensures SentBytes(Serve(w.d, k).0.log.frames, k) == SentBytes(w.d.log.frames, k) + Chunk(w.d.pending[k])
  {
    hide ViewOf, L.TrySend, Chunk, Sent, CloseIfAsked, Discard, SentBytes, InOrder;
    Fields(w, k);
    var chunk := Chunk(w.d.pending[k]);
    var rest := w.d.pending[k][|chunk|..];
    TrySides(w.d.ear.mux, k, chunk, k);
    SentView(w, k, chunk, k);
    var (mux, f) := L.TrySend(w.d.ear.mux, k, chunk).value;
    var w' := AfterChunk(w.(d := Written(w.d, mux, [f.value])), k, chunk, rest);
    ViewSent(w, k);
    ViewSent(w', k);
    if rest == [] {
      ViewSent(w'.(d := CloseIfAsked(w'.d, k)), k);
      if k in w'.d.closing {
        CloseView(w', k, k);
      } else {
        NotAsked(w'.d, k);
      }
    }
  }

  lemma ViewSent(w: World, k: U32)
    ensures ViewOf(w, k).sent == SentBytes(w.d.log.frames, k)
  {
  }

  lemma NotAsked(d: Driver, k: U32)
    requires k !in d.closing
    ensures CloseIfAsked(d, k) == d
  {
  }

  /** The world after the front of the ready queue has had its turn. */
  function Turned(w: World): World
    requires w.d.ready != []
  {
    w.(d := Serve(w.d.(ready := w.d.ready[1..]), w.d.ready[0]).0)
  }

  lemma TurnedQueue(w: World, n: nat)
    requires Core(w) && 0 < n <= |w.d.ready|
    ensures Core(Turned(w)) && n - 1 <= |Turned(w).d.ready|
    ensures Turned(w).d.ready[..n - 1] == w.d.ready[1..n]
    ensures w.d.ready[0] !in w.d.ready[1..n]
  {
    hide Serve, Base, AllSound;
    TurnCore(w);
    ServeRequeues(w.d.(ready := w.d.ready[1..]), w.d.ready[0]);
  }

  lemma TurnedOthers(w: World, id: U32)
    requires Core(w) && w.d.ready != [] && id != w.d.ready[0]
    ensures ViewOf(Turned(w), id) == ViewOf(w, id)
  {
    hide ViewOf, Serve, Base;
    var k := w.d.ready[0];
    var popped := w.(d := w.d.(ready := w.d.ready[1..]));
    assert Sound(ViewOf(w, k));
    PopView(w, k);
    PopView(w, id);
    Fields(w, k);
    ServeOthers(popped, k, id);
  }

  /** Streams behind the rounds are not served in them. */
  lemma {:induction false} RoundsLeave(w: World, n: nat, progress: bool, id: U32)
    requires Core(w) && n <= |w.d.ready| && id !in w.d.ready[..n]
    ensures SentBytes(Rounds(w.d, n, progress).0.log.frames, id) == SentBytes(w.d.log.frames, id)
    decreases n
  {
    hide Core, Serve, ViewOf, SentBytes;
    if n > 0 {
      assert w.d.ready[0] in w.d.ready[..n] && w.d.ready[..n] == [w.d.ready[0]] + w.d.ready[1..n];
      TurnedQueue(w, n);
      TurnedOthers(w, id);
      ViewSent(w, id);
      ViewSent(Turned(w), id);
      RoundsLeave(Turned(w), n - 1, progress || Serve(w.d.(ready := w.d.ready[1..]), w.d.ready[0]).1, id);
    }
  }

  /** A stream in the rounds is served once. */
  lemma {:induction false} RoundsServe(w: World, n: nat, progress: bool, id: U32)
    requires Core(w) && n <= |w.d.ready| && id in w.d.ready[..n] && id in w.d.ear.mux.streams
    requires id in w.d.pending && |Chunk(w.d.pending[id])| <= w.d.ear.mux.streams[id].sendCredit
    ensures SentBytes(Rounds(w.d, n, progress).0.log.frames, id)
            == SentBytes(w.d.log.frames, id) + Chunk(w.d.pending[id])
    decreases n
  {
    hide Core, Serve, ViewOf, SentBytes, Chunk;
    var k := w.d.ready[0];
    assert w.d.ready[..n] == [k] + w.d.ready[1..n];
    var sent := Serve(w.d.(ready := w.d.ready[1..]), k).1;
    TurnedQueue(w, n);
    if k == id {
      CorePopped(w);
      ServeSends(w.(d := w.d.(ready := w.d.ready[1..])), k);
      RoundsLeave(Turned(w), n - 1, progress || sent, id);
    } else {
      TurnedOthers(w, id);
      ViewSent(w, id);
      ViewSent(Turned(w), id);
      SameStream(w, Turned(w), id);
      RoundsServe(Turned(w), n - 1, progress || sent, id);
    }
  }

  lemma CorePopped(w: World)
    requires Core(w) && w.d.ready != []
    ensures SoundButScheduling(ViewOf(w.(d := w.d.(ready := w.d.ready[1..])), w.d.ready[0]))
  {
    hide ViewOf, Base;
    assert Sound(ViewOf(w, w.d.ready[0]));
    PopView(w, w.d.ready[0]);
    Fields(w, w.d.ready[0]);
  }

  lemma SameStream(w: World, w': World, id: U32)
    requires ViewOf(w, id) == ViewOf(w', id) && id in w.d.ear.mux.streams && id in w.d.pending
    ensures id in w'.d.ear.mux.streams && w'.d.ear.mux.streams[id].sendCredit == w.d.ear.mux.streams[id].sendCredit
    ensures id in w'.d.pending && w'.d.pending[id] == w.d.pending[id]
  {
    hide SentBytes, CloseCount, Late, Queued, Fenced, Orderly;
    Fields(w, id);
    Fields(w', id);
  }

  /**
   Round robin: in one flush every ready stream whose next chunk fits its credit
   sends exactly that chunk, and a stream that was not ready sends nothing.
   */
  lemma FlushIsFair(w: World, id: U32)
    requires Core(w)
    ensures id !in w.d.ready ==> SentBytes(Flush(w.d).log.frames, id) == SentBytes(w.d.log.frames, id)
    ensures id in w.d.ready && id in w.d.ear.mux.streams && id in w.d.pending
            && |Chunk(w.d.pending[id])| <= w.d.ear.mux.streams[id].sendCredit ==>
              SentBytes(Flush(w.d).log.frames, id) == SentBytes(w.d.log.frames, id) + Chunk(w.d.pending[id])
  {
    hide Core, Rounds, SentBytes, Chunk;
    assert w.d.ready[..|w.d.ready|] == w.d.ready;
    if id !in w.d.ready {
      RoundsLeave(w, |w.d.ready|, false, id);
    } else if id in w.d.ear.mux.streams && id in w.d.pending
              && |Chunk(w.d.pending[id])| <= w.d.ear.mux.streams[id].sendCredit {
      RoundsServe(w, |w.d.ready|, false, id);
    }
  }
}
