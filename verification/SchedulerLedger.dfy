/**
 The carrier driver keeps the listener's ledger: over every run of peer bytes and
 application calls the log of frames and events tells the mux's state, so no credit
 owed to the peer and no RESET goes missing; and each command has its effect.
 */
module SchedulerLedger {
  import opened Outcomes
  import opened Wire
  import opened Flow
  import opened Scheduler
  import opened SchedulerTurns
  import opened SchedulerRuns
  import L = Listener
  import R = ListenerRuns
  import K = ListenerLedger

  ghost predicate Ledgered(d: Driver) {
    K.Ledger(L.Turn(d.ear.mux, d.log))
  }

  // ------------------------------------------------------------ local calls

  /** A call of the mux with its frames written, as a step of the listener's own runs. */
  lemma CallLedger(d: Driver, a: R.Action, mux: L.Mux, frames: seq<Frame>)
    requires Ledgered(d)
    requires R.WorldInv(R.World(d.ear, d.log)) ==>
               R.Act(R.World(d.ear, d.log), a) == R.World(d.ear.(mux := mux), d.log.(frames := d.log.frames + frames))
    ensures Ledgered(Written(d, mux, frames))
  {
    hide K.Ledger, R.Act;
    K.ActLedger(R.World(d.ear, d.log), a);
  }

  lemma CloseLedger(d: Driver, id: U32)
    requires Ledgered(d)
    ensures Ledgered(CloseIfAsked(d, id))
  {
    hide K.Ledger, L.CloseWrite, R.Inv;
    var r := L.CloseWrite(d.ear.mux, id);
    if id in d.closing && r.Ok? {
      CallLedger(d, R.ClosedWrite(id), r.value.0, [r.value.1]);
    }
  }

  lemma SentLedger(d: Driver, id: U32, mux: L.Mux, frame: Frame)
    requires Ledgered(d) && id in d.pending && |frame.payload| <= |d.pending[id]|
    requires L.TrySend(d.ear.mux, id, frame.payload) == Ok((mux, Some(frame)))
    ensures Ledgered(Sent(d, id, mux, frame))
  {
    hide K.Ledger, L.TrySend, R.Inv, CloseIfAsked;
    CallLedger(d, R.Sent(id, frame.payload), mux, [frame]);
    var d' := Written(d, mux, [frame]).(streams := Release(d.streams, id, |frame.payload|));
    CloseLedger(d'.(pending := d.pending - {id}), id);
  }

  lemma ServeLedger(d: Driver, id: U32)
    requires Ledgered(d)
    ensures Ledgered(Serve(d, id).0)
  {
    hide K.Ledger, Sent, CloseIfAsked, Chunk;
    CloseLedger(d, id);
    CloseLedger(d.(pending := d.pending - {id}), id);
    if id in d.pending {
      var chunk := Chunk(d.pending[id]);
      var r := L.TrySend(d.ear.mux, id, chunk);
      if r.Ok? && r.value.1.Some? {
        SentLedger(d, id, r.value.0, r.value.1.value);
      }
    }
  }

  lemma {:induction false} RoundsLedger(d: Driver, n: nat, progress: bool)
    requires Ledgered(d)
    ensures Ledgered(Rounds(d, n, progress).0)
    decreases n
  {
    hide K.Ledger, Serve;
    if n > 0 && d.ready != [] {
      ServeLedger(d.(ready := d.ready[1..]), d.ready[0]);
      var (d', sent) := Serve(d.(ready := d.ready[1..]), d.ready[0]);
      RoundsLedger(d', n - 1, progress || sent);
    }
  }

  lemma FlushLedger(d: Driver)
    requires Ledgered(d)
    ensures Ledgered(Flush(d))
  {
    hide K.Ledger, Rounds;
    RoundsLedger(d, |d.ready|, false);
  }

  lemma ResetLedger(d: Driver, id: U32, reason: L.ResetReason)
    requires Ledgered(d)
    ensures Ledgered(OnReset(d, id, reason))
  {
    hide K.Ledger, L.Reset, R.Inv;
    var d' := Discard(d, id);
    var r := L.Reset(d'.ear.mux, id, reason);
    if r.Ok? {
      CallLedger(d', R.ResetCall(id, reason), r.value.0, [r.value.1]);
    }
  }

  lemma ConsumedLedger(d: Driver, id: U32, count: nat)
    requires Ledgered(d) && d.ear.mux.Valid() && L.Consume(d.ear.mux, id, count).Ok?
    ensures var (mux, frames) := L.Consume(d.ear.mux, id, count).value;
            Ledgered(Written(d, mux, frames))
  {
    hide K.Ledger, L.Consume, R.Inv;
    var (mux, frames) := L.Consume(d.ear.mux, id, count).value;
    CallLedger(d, R.Consumed(id, count), mux, frames);
  }

  lemma CommandLedger(d: Driver)
    requires Ledgered(d) && d.ear.mux.Valid()
    ensures Ledgered(OnCommand(d))
  {
    hide K.Ledger, Flush, OnReset, L.Consume;
    if d.commands != [] {
      var d1 := d.(commands := d.commands[1..]);
      match d.commands[0]
      case Write(id, bytes) =>
        FlushLedger(d1.(pending := d1.pending[id := (if id in d1.pending then d1.pending[id] else []) + bytes],
                        ready := Push(d1.ready, id)));
      case Consumed(id, count) =>
        var r := L.Consume(d1.ear.mux, id, count);
        if r.Ok? {
          ConsumedLedger(d1, id, count);
          FlushLedger(Written(d1, r.value.0, r.value.1));
        }
      case Close(id) => FlushLedger(d1.(closing := d1.closing + {id}, ready := Push(d1.ready, id)));
      case Cancel(id) => ResetLedger(d1, id, L.Cancel); FlushLedger(OnReset(d1, id, L.Cancel));
      case ResetStream(id, reason) => ResetLedger(d1, id, reason); FlushLedger(OnReset(d1, id, reason));
      case Wake => FlushLedger(d1);
      case CloseConnection =>
    }
  }

  // ------------------------------------------------------------ reads and runs

  lemma WritableIsNotLedger(t: L.Turn, writable: seq<U32>)
    requires K.Ledger(t)
    ensures K.Ledger(t.(out := t.out.(writable := writable)))
  {
    hide R.StreamsInOrder, R.IdsInOrder, R.CountsMatch, K.Adds, K.Granted, K.Count, K.Received, K.Refusals;
    var t' := t.(out := t.out.(writable := writable));
    R.SameOrder(t, t');
    forall id: U32 ensures K.Adds(K.AccountOf(t', id)) {
      assert K.AccountOf(t', id) == K.AccountOf(t, id);
    }
  }

  lemma ReadLedger(d: Driver, bytes: Bytes)
    requires Ledgered(d) && Base(d)
    ensures Ledgered(OnRead(d, bytes))
  {
    hide K.Ledger, Flush, Base, L.Scan, Deliver, MarkWritable;
    HeardOnLog(d, bytes);
    K.ScanLedger(d.ear.mux, d.ear.skip, d.ear.staged + bytes, d.log);
    var g := L.Scan(d.ear.mux, d.ear.skip, d.ear.staged + bytes, d.log);
    WritableIsNotLedger(L.Turn(g.ear.mux, g.out), []);
    var h := L.Listen(d.ear, bytes, L.NO_OUTPUT);
    if h.error.None? {
      FlushLedger(Heard(d, h));
    }
  }

  lemma NextLedger(w: World, s: Step)
    requires Parked(w) && Ledgered(w.d)
    ensures Ledgered(Next(w, s).d)
  {
    hide K.Ledger, OnRead, OnCommand, Sound;
    CoreValid(w);
    match s
    case Read(bytes) => ReadLedger(w.d, bytes);
    case Recv => CommandLedger(w.d);
    case _ =>
  }

  lemma {:induction false} RunLedger(w: World, steps: seq<Step>)
    requires Parked(w) && Ledgered(w.d)
    ensures Ledgered(Run(w, steps).d)
    decreases |steps|
  {
    hide Parked, Next, Ledgered;
    if steps != [] {
      NextParks(w, steps[0]);
      NextLedger(w, steps[0]);
      RunLedger(Next(w, steps[0]), steps[1..]);
    }
  }

  lemma StartLedgered(limits: L.Limits)
    requires limits.Valid()
    ensures Ledgered(Start(limits).d)
  {
    K.StartLedger(limits);
  }

  /**
   Over every run of the driver, for each stream in the mux: 2^20 and the credits of
   the WINDOW frames written for it are its window and the bytes of its Data events;
   and a stream is in the mux exactly if the log of events and written frames says
   it is live, so every reset and every half-close is on the wire.
   */
  lemma WrittenFramesTellState(limits: L.Limits, steps: seq<Step>, id: U32)
    requires limits.Valid()
    ensures Parked(Start(limits))
    ensures var w := Run(Start(limits), steps);
            var a := K.AccountOf(L.Turn(w.d.ear.mux, w.d.log), id);
            && (id in w.d.ear.mux.streams <==> K.Live(a))
            && (id in w.d.ear.mux.streams ==>
                  INITIAL_WINDOW + K.Granted(w.d.log.frames, id)
                  == w.d.ear.mux.streams[id].window.credit + K.Received(w.d.log.events, id))
  {
    hide Parked, Run, R.Inv, K.Granted, K.Received, K.Count, K.Refusals, R.PhaseOf;
    StartParks(limits);
    StartLedgered(limits);
    RunLedger(Start(limits), steps);
    var w := Run(Start(limits), steps);
    assert K.Adds(K.AccountOf(L.Turn(w.d.ear.mux, w.d.log), id));
  }

  // ------------------------------------------------------------ commands have their effect

  /** Flushing only adds frames, touches no stream's receive side, and revives none. */
  predicate Onward(d: Driver, d': Driver) {
    && d.log.frames <= d'.log.frames && d'.log.events == d.log.events && d'.stopped == d.stopped
    && (forall id :: id in d'.ear.mux.streams ==>
          && id in d.ear.mux.streams
          && d'.ear.mux.streams[id].window == d.ear.mux.streams[id].window
          && d'.ear.mux.streams[id].debited == d.ear.mux.streams[id].debited)
  }

  lemma OnwardTwice(a: Driver, b: Driver, c: Driver)
    requires Onward(a, b) && Onward(b, c)
    ensures Onward(a, c)
  {
  }

  lemma CloseOnward(d: Driver, id: U32)
    ensures Onward(d, CloseIfAsked(d, id))
  {
  }

  lemma SentOnward(d: Driver, id: U32, mux: L.Mux, f: Frame)
    requires id in d.pending && |f.payload| <= |d.pending[id]|
    requires L.TrySend(d.ear.mux, id, f.payload) == Ok((mux, Some(f)))
    ensures Onward(d, Sent(d, id, mux, f))
  {
    hide CloseIfAsked;
    var d' := Written(d, mux, [f]).(streams := Release(d.streams, id, |f.payload|));
    CloseOnward(d'.(pending := d.pending - {id}), id);
    OnwardTwice(d, d'.(pending := d.pending - {id}), CloseIfAsked(d'.(pending := d.pending - {id}), id));
  }

  lemma ServeOnward(d: Driver, id: U32)
    ensures Onward(d, Serve(d, id).0)
  {
    hide CloseIfAsked, Chunk, Sent;
    CloseOnward(d, id);
    CloseOnward(d.(pending := d.pending - {id}), id);
    if id in d.pending {
      var r := L.TrySend(d.ear.mux, id, Chunk(d.pending[id]));
      if r.Ok? && r.value.1.Some? {
        SentOnward(d, id, r.value.0, r.value.1.value);
      }
    }
  }

  lemma {:induction false} RoundsOnward(d: Driver, n: nat, progress: bool)
    ensures Onward(d, Rounds(d, n, progress).0)
    decreases n
  {
    hide Serve;
    if n > 0 && d.ready != [] {
      ServeOnward(d.(ready := d.ready[1..]), d.ready[0]);
      var (d', sent) := Serve(d.(ready := d.ready[1..]), d.ready[0]);
      RoundsOnward(d', n - 1, progress || sent);
      OnwardTwice(d, d', Rounds(d', n - 1, progress || sent).0);
    }
  }

  lemma FlushOnward(d: Driver)
    ensures Onward(d, Flush(d))
  {
    hide Rounds;
    RoundsOnward(d, |d.ready|, false);
  }

  /**
   A reset or cancel command: the stream is gone from the mux and has nothing left
   to send, and if it was there its RESET, with the reason's code, is the next frame
   written. A consumption: what is held shrinks by that much and what is not granted
   at once stays below half a window; consuming more than is held stops the driver;
   for a stream already gone nothing happens.
   */
  lemma CommandsAreObeyed(d: Driver)
    requires d.ear.mux.Valid() && d.commands != []
    ensures var c, d' := d.commands[0], OnCommand(d);
            && (c.ResetStream? || c.Cancel? ==>
                  var code := L.Code(if c.Cancel? then L.Cancel else c.reason);
                  && c.streamId !in d'.ear.mux.streams
                  && (c.streamId in d.ear.mux.streams ==>
                        d.log.frames + [Frame(c.streamId, FLAG_RESET, [code])] <= d'.log.frames))
            && (c.Consumed? && c.streamId in d.ear.mux.streams ==>
                  if c.count > d.ear.mux.streams[c.streamId].debited then d'.stopped
                  else c.streamId in d'.ear.mux.streams ==>
                    && d'.ear.mux.streams[c.streamId].debited == d.ear.mux.streams[c.streamId].debited - c.count
                    && d'.ear.mux.streams[c.streamId].window.unacked < RECEIVE_GRANT_THRESHOLD)
            && (c.Consumed? && c.streamId !in d.ear.mux.streams ==> d' == d.(commands := d.commands[1..]))
            && (c.CloseConnection? ==> d'.stopped)
  {
    hide Flush;
    var d1 := d.(commands := d.commands[1..]);
    match d.commands[0]
    case Cancel(id) => FlushOnward(OnReset(d1, id, L.Cancel));
    case ResetStream(id, reason) => FlushOnward(OnReset(d1, id, reason));
    case Consumed(id, count) =>
      var r := L.Consume(d1.ear.mux, id, count);
      if r.Ok? {
        FlushOnward(Written(d1, r.value.0, r.value.1));
      }
    case _ =>
  }

  /**
   A read that holds a frame fatal to the connection stops the driver and does nothing
   else; any other is heard whole: its events are delivered and its answers written
   before anything is flushed, and the driver goes on.
   */
  lemma ReadsAreDecided(d: Driver, bytes: Bytes)
    ensures var h, d' := L.Listen(d.ear, bytes, L.NO_OUTPUT), OnRead(d, bytes);
            if h.error.Some? then d' == d.(stopped := true)
            else
              && d'.stopped == d.stopped && d'.log.events == d.log.events + h.out.events
              && d.log.frames + h.out.frames <= d'.log.frames
  {
    hide Flush, L.Scan, Deliver, MarkWritable;
    var h := L.Listen(d.ear, bytes, L.NO_OUTPUT);
    FlushOnward(Heard(d, h));
  }
}
