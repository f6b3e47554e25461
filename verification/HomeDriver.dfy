/**
 The listener's carrier driver as it runs: a mux acceptor, per-stream pending
 bytes, a round-robin ready queue and the set of streams waiting to half-close.
 Each method is proved against the function of the same step in Scheduler.
 */
module HomeDriving {
  import opened Outcomes
  import opened Wire
  import opened Flow
  import opened Acceptor
  import S = Scheduler
  import L = Listener
  import G = ListenerGrammar

  class HomeDriver {
    const acceptor: MuxAcceptor
    var pending: map<U32, Bytes>
    var ready: seq<U32>
    var closing: set<U32>
    var streams: S.Statuses
    var commands: seq<S.Command>
    var wire: seq<Frame>
    var stopped: bool
    ghost var events: seq<L.Event>
    ghost var refusals: seq<L.Refusal>

    ghost function Value(): S.Driver
      reads this, acceptor, acceptor.decoder
    {
      S.Driver(acceptor.Ear(), L.Output(wire, events, refusals, []), pending, ready, closing, streams, commands,
               stopped)
    }

    constructor (limits: L.Limits)
      requires limits.Valid()
      ensures acceptor.Valid() && fresh(acceptor) && fresh(acceptor.decoder)
      ensures Value() == S.NewDriver(limits)
    {
      acceptor := new MuxAcceptor(limits);
      pending := map[];
      ready := [];
      closing := {};
      streams := map[];
      commands := [];
      wire := [];
      stopped := false;
      events := [];
      refusals := [];
    }

    // -------------------------------------------------------- queues

    method ReleaseStaging(id: U32, bytes: nat)
      modifies this`streams
      ensures streams == S.Release(old(streams), id, bytes)
    {
      if id in streams {
        var status := streams[id];
        streams := streams[id := status.(staged := if bytes > status.staged then 0 else status.staged - bytes)];
      }
    }

    method DiscardPendingStream(id: U32)
      modifies this`pending, this`ready, this`closing, this`streams
      ensures Value() == S.Discard(old(Value()), id)
    {
      if id in pending {
        var queue := pending[id];
        ReleaseStaging(id, |queue|);
      }
      pending := pending - {id};
      ready := Retained(ready, id);
      closing := closing - {id};
    }

    method MarkWritableStreams(writable: seq<U32>)
      modifies this`ready
      ensures ready == S.MarkWritable(pending, old(ready), writable)
    {
      var i := 0;
      while i < |writable|
        invariant 0 <= i <= |writable|
        invariant ready == S.MarkWritable(pending, old(ready), writable[..i])
      {
        assert writable[..i + 1][..i] == writable[..i];
        if writable[i] in pending && writable[i] !in ready {
          ready := ready + [writable[i]];
        }
        i := i + 1;
      }
      assert writable[..i] == writable;
    }

    /** Write the frames, then tell each stream what happened to it. */
    method DeliverOutput(output: MuxOutput)
      modifies this`wire, this`streams, this`events, this`refusals
      ensures Value().log == S.Noted(old(Value().log), output)
      ensures streams == S.Deliver(old(streams), output.events)
    {
      var i := 0;
      while i < |output.frames|
        invariant 0 <= i <= |output.frames|
        invariant wire == old(wire) + output.frames[..i]
        invariant streams == old(streams) && events == old(events) && refusals == old(refusals)
      {
        wire := wire + [output.frames[i]];
        i := i + 1;
      }
      assert output.frames[..i] == output.frames;
      i := 0;
      while i < |output.events|
        invariant 0 <= i <= |output.events|
        invariant streams == S.Deliver(old(streams), output.events[..i])
        invariant wire == old(wire) + output.frames && events == old(events) && refusals == old(refusals)
      {
        assert output.events[..i + 1][..i] == output.events[..i];
        var event := output.events[i];
        if event.Opened? {
          streams := streams[event.streamId := S.Status(true, 0)];
        } else if event.WasReset? && event.streamId in streams {
          streams := streams[event.streamId := streams[event.streamId].(live := false)];
        }
        i := i + 1;
      }
      assert output.events[..i] == output.events;
      events := events + output.events;
      refusals := refusals + output.refusals;
    }

    /** Deliver an output that holds nothing but frames. */
    method DeliverFrames(output: MuxOutput, ghost before: S.Driver)
      requires output == L.NO_OUTPUT.(frames := output.frames)
      requires Value() == before.(ear := before.ear.(mux := acceptor.Mux()))
      modifies this`wire, this`streams, this`events, this`refusals
      ensures Value() == S.Written(before, acceptor.Mux(), output.frames)
    {
      DeliverOutput(output);
    }

    // -------------------------------------------------------- flushing

    method CloseIfAsked(id: U32)
      requires acceptor.Valid()
      modifies this, acceptor`streams
      ensures acceptor.Valid()
      ensures Value() == S.CloseIfAsked(old(Value()), id)
    {
      hide L.CloseWrite;
      if id in closing {
        closing := closing - {id};
        ghost var before := Value();
        var closed := acceptor.CloseWrite(id);
        if closed.Ok? {
          DeliverFrames(closed.value, before);
        }
      }
    }

    /** One stream's turn; the mux never refuses a chunk for its length. */
    method ServeOne(id: U32) returns (progress: bool)
      requires acceptor.Valid()
      modifies this, acceptor`streams
      ensures acceptor.Valid()
      ensures (Value(), progress) == S.Serve(old(Value()), id)
    {
      hide L.CloseWrite, S.Discard, S.CloseIfAsked, MuxAcceptor.Valid;
      if id in streams && !streams[id].live {
        DiscardPendingStream(id);
        return false;
      }
      if id !in pending {
        CloseIfAsked(id);
        return false;
      }
      var queue := pending[id];
      var count := if |queue| < RECOMMENDED_CHUNK then |queue| else RECOMMENDED_CHUNK;
      if count == 0 {
        pending := pending - {id};
        CloseIfAsked(id);
        return false;
      }
      progress := SendChunk(id, queue[..count], queue[count..]);
    }

    /** The queue has been cut into a chunk and a rest; send the chunk or put it back. */
    method SendChunk(id: U32, chunk: Bytes, rest: Bytes) returns (progress: bool)
      requires acceptor.Valid()
      requires id in pending && pending[id] == chunk + rest && chunk != [] && chunk == S.Chunk(pending[id])
      requires id in streams ==> streams[id].live
      modifies this, acceptor`streams
      ensures acceptor.Valid()
      ensures (Value(), progress) == S.Serve(old(Value()), id)
    {
      hide L.CloseWrite, L.TrySend, S.Discard, S.CloseIfAsked, S.Chunk, MuxAcceptor.Valid;
      ghost var before := Value();
      assert before.pending[id][|chunk|..] == rest;
      pending := pending[id := rest];
      var sent := acceptor.TrySendData(id, chunk);
      NeverTooLong(before.ear.mux, id, chunk);
      if sent.Err? {
        DiscardPendingStream(id);
        return false;
      }
      if sent.value.None? {
        var queue := PutBack(chunk, rest);
        pending := pending[id := queue];
        assert pending == before.pending;
        return false;
      }
      Sent(id, chunk, rest, sent.value.value, before);
      return true;
    }

    method Sent(id: U32, chunk: Bytes, rest: Bytes, output: MuxOutput, ghost before: S.Driver)
      requires acceptor.Valid()
      requires before.pending.Keys >= {id} && before.pending[id] == chunk + rest
      requires Value() == before.(ear := acceptor.Ear(), pending := before.pending[id := rest])
      requires acceptor.Ear() == before.ear.(mux := acceptor.Mux())
      requires output == L.NO_OUTPUT.(frames := [Frame(id, FLAG_DATA, chunk)])
      modifies this, acceptor`streams
      ensures acceptor.Valid()
      ensures Value() == S.Sent(before, id, old(acceptor.Mux()), Frame(id, FLAG_DATA, chunk))
    {
      hide L.CloseWrite, S.CloseIfAsked, S.Release, MuxAcceptor.Valid;
      assert before.pending[id][|chunk|..] == rest;
      DeliverFrames(output, before.(pending := before.pending[id := rest]));
      ReleaseStaging(id, |chunk|);
      if rest == [] {
        pending := pending - {id};
        assert pending == before.pending - {id};
        assert Value() == S.Written(before, acceptor.Mux(), [Frame(id, FLAG_DATA, chunk)])
                           .(streams := S.Release(before.streams, id, |chunk|), pending := before.pending - {id});
        CloseIfAsked(id);
      } else {
        ready := ready + [id];
      }
    }

    /** One turn for every stream that was ready when the flush began. */
    method FlushReady()
      requires acceptor.Valid()
      modifies this, acceptor`streams
      ensures acceptor.Valid()
      ensures Value() == S.Flush(old(Value()))
    {
      hide S.Serve;
      var rounds := |ready|;
      var madeProgress := false;
      var i := 0;
      while i < rounds && ready != []
        invariant 0 <= i <= rounds
        invariant acceptor.Valid()
        invariant S.Rounds(Value(), rounds - i, madeProgress) == S.Rounds(old(Value()), rounds, false)
        decreases rounds - i
      {
        var id := ready[0];
        ready := ready[1..];
        var sent := ServeOne(id);
        madeProgress := madeProgress || sent;
        i := i + 1;
      }
      if madeProgress && ready != [] {
        commands := commands + [S.Wake];
      }
    }

    // -------------------------------------------------------- the loop

    /** Bytes from the peer. A fatal frame ends the loop and its output is dropped. */
    method OnRead(bytes: Bytes)
      requires acceptor.Valid() && !stopped
      modifies this, acceptor, acceptor.decoder
      ensures acceptor.Valid()
      ensures var d := S.OnRead(old(Value()), bytes);
              Value() == if stopped then d.(ear := acceptor.Ear()) else d
      ensures stopped <==> L.Listen(old(acceptor.Ear()), bytes, L.NO_OUTPUT).error.Some?
    {
      hide L.Listen, S.Flush, S.Deliver, S.MarkWritable;
      var fed := acceptor.Feed(bytes);
      if fed.Err? {
        stopped := true;
      } else {
        MarkWritableStreams(fed.value.writable);
        DeliverOutput(fed.value);
        StillRunning(Value());
        FlushReady();
      }
    }

    method Discarding(id: U32, reason: L.ResetReason)
      requires acceptor.Valid()
      modifies this, acceptor`streams
      ensures acceptor.Valid()
      ensures Value() == S.OnReset(old(Value()), id, reason)
    {
      hide L.Reset, S.Discard, S.Written, MuxAcceptor.Valid;
      DiscardPendingStream(id);
      ghost var before := Value();
      var reset := acceptor.ResetStream(id, reason);
      if reset.Ok? {
        DeliverFrames(reset.value, before);
      }
    }

    /** Consumption for a stream already gone is skipped, without a flush. */
    method Consumed(id: U32, count: nat)
      requires acceptor.Valid() && !stopped
      modifies this, acceptor`streams
      ensures acceptor.Valid()
      ensures Value() == S.Dispatch(old(Value()), S.Consumed(id, count))
    {
      hide L.Consume, S.Flush, S.OnReset, S.Written, MuxAcceptor.Valid;
      ghost var before := Value();
      var consumed := acceptor.Consume(id, count);
      if consumed.Ok? {
        DeliverFrames(consumed.value, before);
        FlushReady();
      } else if consumed.error != L.Closed {
        stopped := true;
      }
    }

    /** One command from an application handle or from the driver to itself. */
    method Dispatch(command: S.Command)
      requires acceptor.Valid() && !stopped
      modifies this, acceptor`streams
      ensures acceptor.Valid()
      ensures Value() == S.Dispatch(old(Value()), command)
    {
      hide L.Consume, S.Flush, S.OnReset, S.Written, MuxAcceptor.Valid;
      match command
      case Write(id, bytes) =>
        pending := pending[id := (if id in pending then pending[id] else []) + bytes];
        if id !in ready { ready := ready + [id]; }
        FlushReady();
      case Consumed(id, count) =>
        Consumed(id, count);
      case Close(id) =>
        closing := closing + {id};
        if id !in ready { ready := ready + [id]; }
        FlushReady();
      case Cancel(id) =>
        Discarding(id, L.Cancel);
        FlushReady();
      case ResetStream(id, reason) =>
        Discarding(id, reason);
        FlushReady();
      case Wake =>
        FlushReady();
      case CloseConnection =>
        stopped := true;
    }
  }

  lemma WithoutAt(ready: seq<U32>, i: nat, id: U32)
    requires i < |ready|
    ensures S.Without(ready[i..], id) == (if ready[i] == id then [] else [ready[i]]) + S.Without(ready[i + 1..], id)
  {
    assert ready[i..][1..] == ready[i + 1..];
  }

  lemma WithoutNone(ready: seq<U32>, id: U32)
    ensures ready[0..] == ready && S.Without(ready[|ready|..], id) == []
  {
  }

  /** Everything but one stream, in order. */
  method Retained(ready: seq<U32>, id: U32) returns (kept: seq<U32>)
    ensures kept == S.Without(ready, id)
  {
    hide S.Without;
    kept := [];
    var i := 0;
    WithoutNone(ready, id);
    while i < |ready|
      invariant 0 <= i <= |ready|
      invariant kept + S.Without(ready[i..], id) == S.Without(ready, id)
    {
      WithoutAt(ready, i, id);
      if ready[i] != id {
        kept := kept + [ready[i]];
      }
      i := i + 1;
    }
  }

  /** Return a blocked chunk to the front of its queue, last byte first. */
  method PutBack(chunk: Bytes, rest: Bytes) returns (queue: Bytes)
    ensures queue == chunk + rest
  {
    queue := rest;
    var i := |chunk|;
    while i > 0
      invariant 0 <= i <= |chunk|
      invariant queue == chunk[i..] + rest
    {
      i := i - 1;
      queue := [chunk[i]] + queue;
    }
    assert chunk[0..] == chunk;
  }

  lemma NeverTooLong(mux: L.Mux, id: U32, chunk: Bytes)
    requires |chunk| <= RECOMMENDED_CHUNK
    ensures L.TrySend(mux, id, chunk).Err? ==> L.TrySend(mux, id, chunk).error == L.Closed
    ensures L.TrySend(mux, id, chunk).Ok? && L.TrySend(mux, id, chunk).value.1.Some? ==>
              L.TrySend(mux, id, chunk).value.1.value == Frame(id, FLAG_DATA, chunk)
    ensures L.TrySend(mux, id, chunk).Ok? && L.TrySend(mux, id, chunk).value.1.None? ==>
              L.TrySend(mux, id, chunk).value.0 == mux
  {
  }

  lemma ServeKeepsRunning(d: S.Driver, id: U32)
    ensures S.Serve(d, id).0.stopped == d.stopped
  {
    hide L.TrySend, L.CloseWrite, S.Chunk, S.Without;
  }

  lemma {:induction false} RoundsKeepRunning(d: S.Driver, n: nat, progress: bool)
    ensures S.Rounds(d, n, progress).0.stopped == d.stopped
    decreases n
  {
    hide S.Serve;
    if n > 0 && d.ready != [] {
      ServeKeepsRunning(d.(ready := d.ready[1..]), d.ready[0]);
      var (d', sent) := S.Serve(d.(ready := d.ready[1..]), d.ready[0]);
      RoundsKeepRunning(d', n - 1, progress || sent);
    }
  }

  /** Flushing never ends the loop. */
  lemma StillRunning(d: S.Driver)
    ensures S.Flush(d).stopped == d.stopped
  {
    hide S.Rounds;
    RoundsKeepRunning(d, |d.ready|, false);
  }
}
