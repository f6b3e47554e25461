/**
 One response stream between the two real endpoints: the listener-side mux sends
 with its own send call and takes grants as it handles WINDOW frames; the
 dialer-side demultiplexer routes the DATA frames and returns credit as events are
 drained. Every step is a step of `DemuxCredit`, so what is proved there holds
 here; the listener sends at most 64 KiB at a time.
 */
module DemuxPair {
  import opened Outcomes
  import opened Wire
  import opened Flow
  import opened Demux
  import D = DemuxCredit
  import H = Listener
  import L = CreditLink

  /** Both endpoints, the frames between them, and the costs of events not yet drained. */
  datatype Pair = Pair(home: H.Mux, down: seq<Frame>, streams: Streams, costs: seq<nat>, up: seq<Frame>)

  function Payloads(frames: seq<Frame>): seq<Bytes> {
    seq(|frames|, i requires 0 <= i < |frames| => frames[i].payload)
  }

  predicate AllWindows(frames: seq<Frame>, id: U32) {
    forall i :: 0 <= i < |frames| ==>
      frames[i].streamId == id && frames[i].flags == FLAG_WINDOW && frames[i].WindowCredit().Some?
  }

  predicate AllData(frames: seq<Frame>, id: U32) {
    forall i :: 0 <= i < |frames| ==> frames[i].streamId == id && frames[i].flags == FLAG_DATA
  }

  function Grants(frames: seq<Frame>, id: U32): seq<U32>
    requires AllWindows(frames, id)
  {
    seq(|frames|, i requires 0 <= i < |frames| => frames[i].WindowCredit().value)
  }

  /** The stream is known to both sides, and the channels carry only its DATA and its grants. */
  predicate Lined(id: U32, x: Pair) {
    && id != 0 && id in x.home.streams && !x.home.streams[id].localClosed
    && id in x.streams && StreamsValid(x.streams)
    && AllData(x.down, id) && AllWindows(x.up, id)
  }

  function Abs(id: U32, x: Pair): D.Channel
    requires Lined(id, x)
  {
    D.Channel(x.home.streams[id].sendCredit, Payloads(x.down), x.streams[id], x.costs, Grants(x.up, id))
  }

  predicate Inv(p: Parsers, id: U32, x: Pair) {
    Lined(id, x) && D.Inv(p, Abs(id, x))
  }

  function EventCosts(events: seq<(U32, StreamEvent)>): seq<nat> {
    seq(|events|, i requires 0 <= i < |events| => events[i].1.cost)
  }

  // ------------------------------------------------------------ steps

  /** A local call or delivery; None when the response is malformed, which ends the stream. */
  ghost function Apply(p: Parsers, id: U32, x: Pair, step: D.Step): Option<Pair>
    requires Inv(p, id, x)
  {
    match step
    case Send(payload) =>
      (match H.TrySend(x.home, id, payload)
       case Err(_) => Some(x)
       case Ok((_, None)) => Some(x)
       case Ok((home, Some(f))) => Some(x.(home := home, down := x.down + [f])))
    case Deliver =>
      if x.down == [] then Some(x)
      else
        var t := Route(p, Turn(x.streams, NO_OUTPUT), x.down[0]);
        if id !in t.streams then None
        else Some(x.(down := x.down[1..], streams := t.streams, costs := x.costs + EventCosts(t.out.events),
                     up := x.up + t.out.emits))
    case DrainEvent(i) =>
      if i >= |x.costs| then Some(x)
      else
        D.SumWithout(x.costs, i);
        var (streams, f) := Consume(x.streams, id, x.costs[i]);
        Some(x.(streams := streams, costs := x.costs[..i] + x.costs[i + 1..],
                up := x.up + match f case None => [] case Some(w) => [w]))
    case TakeGrant =>
      if x.up == [] then Some(x)
      else
        var r := H.Handle(H.Turn(x.home, H.NO_OUTPUT), x.up[0]);
        if r.Err? then None else Some(x.(home := r.value.mux, up := x.up[1..]))
  }

  /** Whether a step is one the channel takes, or nothing at all. */
  ghost predicate Follows(p: Parsers, id: U32, x: Pair, step: D.Step)
    requires Inv(p, id, x)
  {
    match Apply(p, id, x, step)
    case None => D.Apply(p, Abs(id, x), step).None?
    case Some(x') =>
      && Lined(id, x')
      && (if step.Send? && |step.payload| > RECOMMENDED_CHUNK then x' == x
          else D.Apply(p, Abs(id, x), step) == Some(Abs(id, x')))
  }

  lemma SendFollows(p: Parsers, id: U32, x: Pair, payload: Bytes)
    requires Inv(p, id, x)
    ensures Follows(p, id, x, D.Send(payload))
  {
    hide StreamsValid;
    var r := H.TrySend(x.home, id, payload);
    if r.Ok? && r.value.1.Some? {
      assert Payloads(x.down + [r.value.1.value]) == Payloads(x.down) + [payload];
    }
  }

  lemma WindowAppended(frames: seq<Frame>, id: U32, g: U32)
    requires AllWindows(frames, id)
    ensures AllWindows(frames + [WindowFrame(id, g)], id)
    ensures Grants(frames + [WindowFrame(id, g)], id) == Grants(frames, id) + [g]
  {
    Be32RoundTrip(g);
  }

  lemma DrainFollows(p: Parsers, id: U32, x: Pair, i: nat)
    requires Inv(p, id, x)
    ensures Follows(p, id, x, D.DrainEvent(i))
  {
    hide Assembler.Valid;
    if i < |x.costs| {
      D.SumWithout(x.costs, i);
      var grant := x.streams[id].window.Consume(x.costs[i]).1;
      if grant.Some? {
        WindowAppended(x.up, id, grant.value);
      } else {
        assert x.up + [] == x.up && Grants(x.up, id) + [] == Grants(x.up, id);
      }
    }
  }

  lemma GrantFollows(p: Parsers, id: U32, x: Pair)
    requires Inv(p, id, x)
    ensures Follows(p, id, x, D.TakeGrant)
  {
    hide StreamsValid, H.Refuse;
    if x.up != [] {
      var c := Abs(id, x);
      var f := x.up[0];
      assert c.grants[0] == f.WindowCredit().value;
      L.StepConserves(D.LinkOf(c), L.TakeGrant);
      assert FlagsValid(FLAG_WINDOW) && !Opens(FLAG_WINDOW);
      assert H.Handle(H.Turn(x.home, H.NO_OUTPUT), f) == Ok(H.HandleWindow(H.Turn(x.home, H.NO_OUTPUT), f));
      assert Grants(x.up[1..], id) == c.grants[1..];
    }
  }

  /** What routing one DATA frame of the stream does. */
  lemma DataRouted(p: Parsers, id: U32, streams: Streams, payload: Bytes)
    requires id != 0 && id in streams && StreamsValid(streams) && streams[id].window.Admits(|payload|)
    ensures var s := streams[id];
            var t := Route(p, Turn(streams, NO_OUTPUT), Frame(id, FLAG_DATA, payload));
            match FeedData(p, s.assembler, payload)
            case Err(_) => id !in t.streams
            case Ok(r) =>
              && r.autoConsumed <= |payload|
              && var (window, grant) := s.window.Debit(|payload|).Consume(r.autoConsumed);
              && t.streams == streams[id := CarrierStream(r.next, window)] && t.out.events == Tag(id, r.events)
              && t.out.emits == match grant case None => [] case Some(g) => [WindowFrame(id, g)]
  {
    hide FeedData, Assembler.Valid;
    var t := Turn(streams, NO_OUTPUT);
    var f := Frame(id, FLAG_DATA, payload);
    assert FlagsValid(FLAG_DATA) && !Opens(FLAG_DATA) && !Closes(FLAG_DATA);
    assert Route(p, t, f) == RouteData(p, t, f);
    if FeedData(p, streams[id].assembler, payload).Ok? {
      FeedDataAccounts(p, streams[id].assembler, payload);
      var r := FeedData(p, streams[id].assembler, payload).value;
      assert [] + Tag(id, r.events) == Tag(id, r.events);
    }
  }

  lemma DeliverFollows(p: Parsers, id: U32, x: Pair)
    requires Inv(p, id, x)
    ensures Follows(p, id, x, D.Deliver)
  {
    hide FeedData, Assembler.Valid, Route, StreamsValid, D.Inv;
    if x.down != [] {
      var c := Abs(id, x);
      var payload := x.down[0].payload;
      assert x.down[0] == Frame(id, FLAG_DATA, payload) && c.data[0] == payload;
      assert Payloads(x.down[1..]) == c.data[1..];
      D.DataIsAdmitted(p, c);
      DataRouted(p, id, x.streams, payload);
      RouteValid(p, Turn(x.streams, NO_OUTPUT), x.down[0]);
      var fed := FeedData(p, x.streams[id].assembler, payload);
      if fed.Ok? {
        assert EventCosts(Tag(id, fed.value.events)) == D.CostsOf(fed.value.events);
        var grant := x.streams[id].window.Debit(|payload|).Consume(fed.value.autoConsumed).1;
        if grant.Some? {
          WindowAppended(x.up, id, grant.value);
        } else {
          assert x.up + [] == x.up && Grants(x.up, id) + [] == Grants(x.up, id);
        }
      }
    }
  }

  lemma ApplyFollows(p: Parsers, id: U32, x: Pair, step: D.Step)
    requires Inv(p, id, x)
    ensures Follows(p, id, x, step)
    ensures Apply(p, id, x, step).Some? ==> Inv(p, id, Apply(p, id, x, step).value)
  {
    hide Apply, D.Apply, Lined, D.Inv;
    match step {
      case Send(payload) => SendFollows(p, id, x, payload);
      case Deliver => DeliverFollows(p, id, x);
      case DrainEvent(i) => DrainFollows(p, id, x, i);
      case TakeGrant => GrantFollows(p, id, x);
    }
    if D.Apply(p, Abs(id, x), step).Some? {
      D.ApplyKeeps(p, Abs(id, x), step);
    }
  }

  // ------------------------------------------------------------ runs

  ghost function Run(p: Parsers, id: U32, x: Pair, steps: seq<D.Step>): (r: Option<Pair>)
    requires Inv(p, id, x)
    ensures r.Some? ==> Inv(p, id, r.value)
    decreases |steps|
  {
    if steps == [] then Some(x)
    else match Apply(p, id, x, steps[0])
         case None => None
         case Some(x') => ApplyFollows(p, id, x, steps[0]); Run(p, id, x', steps[1..])
  }

  /** Every run of the pair is a run of the channel. */
  lemma {:induction false} RunFollows(p: Parsers, id: U32, x: Pair, steps: seq<D.Step>) returns (taken: seq<D.Step>)
    requires Inv(p, id, x) && Run(p, id, x, steps).Some?
    ensures D.Run(p, Abs(id, x), taken) == Some(Abs(id, Run(p, id, x, steps).value))
    decreases |steps|
  {
    hide Apply, D.Apply, Lined, D.Inv;
    if steps == [] {
      taken := [];
    } else {
      ApplyFollows(p, id, x, steps[0]);
      var x' := Apply(p, id, x, steps[0]).value;
      var rest := RunFollows(p, id, x', steps[1..]);
      if Abs(id, x') == Abs(id, x) {
        taken := rest;
      } else {
        taken := [steps[0]] + rest;
        assert taken[1..] == rest;
      }
    }
  }

  lemma {:induction false} RunJoin(p: Parsers, id: U32, x: Pair, a: seq<D.Step>, b: seq<D.Step>)
    requires Inv(p, id, x) && Run(p, id, x, a).Some?
    ensures Run(p, id, x, a + b) == Run(p, id, Run(p, id, x, a).value, b)
    decreases |a|
  {
    hide Apply, Inv;
    if a == [] {
      assert a + b == b;
    } else {
      assert (a + b)[1..] == a[1..] + b;
      ApplyFollows(p, id, x, a[0]);
      RunJoin(p, id, Apply(p, id, x, a[0]).value, a[1..], b);
    }
  }

  /** The stream as its two sides first know it. */
  predicate Opened(id: U32, x: Pair) {
    && Lined(id, x) && x.home.streams[id].sendCredit == INITIAL_WINDOW && x.streams[id] == NEW_STREAM
    && Drained(x)
  }

  predicate Drained(x: Pair) {
    x.down == [] && x.up == [] && x.costs == []
  }

  lemma OpenedKeeps(p: Parsers, id: U32, x: Pair)
    requires Opened(id, x)
    ensures Inv(p, id, x)
  {
    D.StartKeeps(p);
    assert Abs(id, x) == D.START;
  }

  /** A listener that has just handled the OPEN, and a demultiplexer that has just opened the id. */
  lemma OpenIsOpened(id: U32, home: H.Mux, streams: Streams)
    requires id % 2 == 1 && (home.highWater.Some? ==> home.highWater.value < id)
    requires |home.streams| < home.limits.maxStreams && StreamsValid(streams)
    ensures var t := H.HandleOpen(H.Turn(home, H.NO_OUTPUT), Frame(id, FLAG_OPEN, []));
            Opened(id, Pair(t.mux, [], streams[id := NEW_STREAM], [], []))
  {
    hide H.Refuse, StreamsValid;
    OpenedValid(id, streams);
    var f := Frame(id, FLAG_OPEN, []);
    assert !Closes(FLAG_OPEN) && !CarriesData(FLAG_OPEN) && id % 2 == 1;
    assert H.HandleOpen(H.Turn(home, H.NO_OUTPUT), f).mux.streams
           == home.streams[id := H.Stream(NEW_WINDOW.Debit(0), 0, INITIAL_WINDOW, false, false)];
  }

  lemma OpenedValid(id: U32, streams: Streams)
    requires StreamsValid(streams)
    ensures StreamsValid(streams[id := NEW_STREAM])
  {
    assert NEW_STREAM.Valid() by { D.StartKeeps(Parsers(_ => None, _ => false, _ => None)); }
    hide CarrierStream.Valid;
  }

  // ------------------------------------------------------------ results

  /**
   Over every run: with nothing on the way and nothing to drain, the listener lacks
   exactly the unfinished chunk's bytes and the ungranted ones.
   */
  lemma DrainedListenerCredit(p: Parsers, id: U32, x: Pair, steps: seq<D.Step>)
    requires Opened(id, x)
    ensures Inv(p, id, x)
    ensures var r := Run(p, id, x, steps);
            r.Some? && Drained(r.value) ==>
              var s := r.value.streams[id];
              var withheld := s.assembler.pendingWire + s.window.unacked;
              && r.value.home.streams[id].sendCredit == INITIAL_WINDOW - withheld
              && (H.TrySend(r.value.home, id, D.Zeros(RECOMMENDED_CHUNK)).value.1.None? <==>
                  withheld > INITIAL_WINDOW - RECOMMENDED_CHUNK)
  {
    hide Lined, Apply, Run;
    OpenedKeeps(p, id, x);
    var r := Run(p, id, x, steps);
    if r.Some? && Drained(r.value) {
      DrainedCredit(p, id, r.value);
    }
  }

  lemma DrainedCredit(p: Parsers, id: U32, x: Pair)
    requires Inv(p, id, x) && Drained(x)
    ensures var s := x.streams[id];
            && x.home.streams[id].sendCredit == INITIAL_WINDOW - s.assembler.pendingWire - s.window.unacked
            && H.TrySend(x.home, id, D.Zeros(RECOMMENDED_CHUNK)).Ok?
            && D.Drained(Abs(id, x))
  {
    var c := Abs(id, x);
    assert D.Sizes(c.data) == [] && c.grants == [];
  }

  /** Some continuation delivers another body event. */
  ghost predicate MayDeliver(p: Parsers, id: U32, x: Pair)
    requires Inv(p, id, x)
  {
    exists steps :: Run(p, id, x, steps).Some? && Run(p, id, x, steps).value.costs != []
  }

  /** Chunk by chunk, the rest is sent and delivered. */
  lemma {:induction false} RestIsSent(p: Parsers, id: U32, x: Pair) returns (steps: seq<D.Step>)
    requires Inv(p, id, x) && Drained(x) && D.MidChunk(x.streams[id].assembler)
    requires 0 < D.Missing(x.streams[id].assembler) <= x.home.streams[id].sendCredit
    ensures Run(p, id, x, steps).Some? && Run(p, id, x, steps).value.costs != []
    decreases D.Missing(x.streams[id].assembler)
  {
    hide D.Inv, Apply, FeedData, D.MidChunk, D.Missing, StreamsValid;
    var missing := D.Missing(x.streams[id].assembler);
    var n := if missing < RECOMMENDED_CHUNK then missing else RECOMMENDED_CHUNK;
    var two := [D.Send(D.Zeros(n)), D.Deliver];
    var x2 := ChunkIsSent(p, id, x, n);
    if n == missing {
      steps := two;
    } else {
      var rest := RestIsSent(p, id, x2);
      RunJoin(p, id, x, two, rest);
      steps := two + rest;
    }
  }

  lemma ChunkIsSent(p: Parsers, id: U32, x: Pair, n: nat) returns (x2: Pair)
    requires Inv(p, id, x) && Drained(x) && D.MidChunk(x.streams[id].assembler)
    requires 0 < n <= D.Missing(x.streams[id].assembler) && n <= x.home.streams[id].sendCredit && n <= RECOMMENDED_CHUNK
    ensures Run(p, id, x, [D.Send(D.Zeros(n)), D.Deliver]) == Some(x2) && Inv(p, id, x2)
    ensures n == D.Missing(x.streams[id].assembler) ==> x2.costs != []
    ensures n < D.Missing(x.streams[id].assembler) ==>
              && Drained(x2) && D.MidChunk(x2.streams[id].assembler)
              && D.Missing(x2.streams[id].assembler) == D.Missing(x.streams[id].assembler) - n
              && x2.home.streams[id].sendCredit == x.home.streams[id].sendCredit - n
  {
    hide FeedData, D.MidChunk, D.Missing, Route, D.Inv, StreamsValid;
    var bytes := D.Zeros(n);
    var a := x.streams[id].assembler;
    var x1 := Apply(p, id, x, D.Send(bytes)).value;
    ApplyFollows(p, id, x, D.Send(bytes));
    assert x1.down == [Frame(id, FLAG_DATA, bytes)] && x1.streams == x.streams;
    D.DataIsAdmitted(p, Abs(id, x1));
    DataRouted(p, id, x1.streams, bytes);
    if n == D.Missing(a) {
      D.RestDelivers(p, a, bytes);
    } else {
      D.HeldPayload(p, a, bytes);
      NoGrant(p, id, x1);
    }
    x2 := Apply(p, id, x1, D.Deliver).value;
    ApplyFollows(p, id, x1, D.Deliver);
    var steps := [D.Send(bytes), D.Deliver];
    assert steps[1..][0] == D.Deliver && steps[1..][1..] == [];
    assert Run(p, id, x, steps) == Run(p, id, x1, steps[1..]) == Some(x2);
  }

  lemma NoGrant(p: Parsers, id: U32, x: Pair)
    requires Inv(p, id, x)
    ensures x.streams[id].window.unacked < RECEIVE_GRANT_THRESHOLD
  {
  }

  /**
   Over every run of the pair: a drained stream in the middle of a chunk will
   deliver again, in some continuation, exactly when the rest of the chunk fits in
   what the window leaves besides the unfinished chunk and the ungranted bytes.
   */
  lemma DownlinkStallsIff(p: Parsers, id: U32, x: Pair, steps: seq<D.Step>)
    requires Opened(id, x)
    ensures Inv(p, id, x)
    ensures var r := Run(p, id, x, steps);
            r.Some? && Drained(r.value) && D.MidChunk(r.value.streams[id].assembler) ==>
              var s := r.value.streams[id];
              (MayDeliver(p, id, r.value) <==>
               D.Missing(s.assembler) <= INITIAL_WINDOW - s.assembler.pendingWire - s.window.unacked)
  {
    hide D.Inv, StreamsValid, Apply, Run, D.MidChunk;
    OpenedKeeps(p, id, x);
    var r := Run(p, id, x, steps);
    if r.Some? && Drained(r.value) && D.MidChunk(r.value.streams[id].assembler) {
      StallsIff(p, id, r.value);
    }
  }

  lemma StallsIff(p: Parsers, id: U32, x: Pair)
    requires Inv(p, id, x) && Drained(x) && D.MidChunk(x.streams[id].assembler)
    ensures var s := x.streams[id];
            MayDeliver(p, id, x) <==>
            D.Missing(s.assembler) <= INITIAL_WINDOW - s.assembler.pendingWire - s.window.unacked
  {
    hide Apply, Run, D.Run, D.Inv, D.MidChunk;
    DrainedCredit(p, id, x);
    D.MissingIsPositive(p, Abs(id, x));
    if D.Missing(x.streams[id].assembler) <= x.home.streams[id].sendCredit {
      var steps := RestIsSent(p, id, x);
    } else {
      D.StallsIff(p, Abs(id, x));
      forall steps | Run(p, id, x, steps).Some? ensures Run(p, id, x, steps).value.costs == [] {
        var taken := RunFollows(p, id, x, steps);
      }
    }
  }

  /**
   A chunk no larger than the window stalls for good on the pair, once its head and
   size line were sent in one frame.
   */
  lemma FittingChunkStalls(p: Parsers, id: U32, x: Pair, head: Bytes, line: Bytes, size: nat)
    requires Opened(id, x) && D.Opening(p, head, line, size) && |head| + |line| + 6 <= RECOMMENDED_CHUNK
    requires INITIAL_WINDOW - (|head| + |line| + 6) < size <= INITIAL_WINDOW
    ensures Inv(p, id, x)
    ensures var r := Run(p, id, x, [D.Send(head + HEAD_END + (line + D.C.CRLF)), D.Deliver, D.DrainEvent(0)]);
            r.Some? && Drained(r.value) && !MayDeliver(p, id, r.value)
  {
    hide Apply, D.Apply, D.Opening, FeedData, D.Inv, MayDeliver;
    OpenedKeeps(p, id, x);
    assert Abs(id, x) == D.START;
    D.FittingChunkStates(p, head, line, size);
    var payload := head + HEAD_END + (line + D.C.CRLF);
    var steps := [D.Send(payload), D.Deliver, D.DrainEvent(0)];
    ApplyFollows(p, id, x, steps[0]);
    var x1 := Apply(p, id, x, steps[0]).value;
    ApplyFollows(p, id, x1, D.Deliver);
    var x2 := Apply(p, id, x1, D.Deliver).value;
    ApplyFollows(p, id, x2, D.DrainEvent(0));
    var x3 := Apply(p, id, x2, D.DrainEvent(0)).value;
    assert steps[1..][0] == D.Deliver && steps[1..][1..][0] == D.DrainEvent(0) && steps[1..][1..][1..] == [];
    assert Run(p, id, x, steps) == Run(p, id, x1, steps[1..]) == Run(p, id, x2, steps[1..][1..]) == Some(x3);
    assert |Abs(id, x3).data| == 0 && |Abs(id, x3).grants| == 0;
    DrainedCredit(p, id, x3);
    StallsIff(p, id, x3);
  }
}
