/**
 One response stream end to end: a sender spending credit, DATA in flight, the
 stream's assembler and receive window, a consumer draining body events at any
 pace, and grants in flight. Bytes of an unfinished chunk are paid for only when
 the chunk is delivered, so a stream can be drained and its sender still out of
 credit; this module says exactly when, and when the stall is for good.
 */
module DemuxCredit {
  import opened Outcomes
  import opened Wire
  import opened Flow
  import opened Demux
  import L = CreditLink
  import C = Chunked

  /** `costs` are those of the events not yet drained. */
  datatype Channel = Channel(
    credit: nat, data: seq<Bytes>, stream: CarrierStream, costs: seq<nat>, grants: seq<U32>)

  const START := Channel(INITIAL_WINDOW, [], NEW_STREAM, [], [])

  datatype Step = Send(payload: Bytes) | Deliver | DrainEvent(index: nat) | TakeGrant

  function Granted(grants: seq<U32>, grant: Option<U32>): seq<U32> {
    grants + match grant case None => [] case Some(g) => [g]
  }

  function Sizes(data: seq<Bytes>): seq<nat> {
    seq(|data|, i requires 0 <= i < |data| => |data[i]|)
  }

  function CostsOf(events: seq<StreamEvent>): seq<nat> {
    seq(|events|, i requires 0 <= i < |events| => events[i].cost)
  }

  /** The same channel as credit alone. */
  function LinkOf(c: Channel): L.Link
    requires c.stream.window.Valid()
  {
    L.Link(c.credit, Sizes(c.data), c.stream.window, c.stream.window.Outstanding(), c.grants)
  }

  /** What the assembler withholds and what the consumer has not drained is all that is outstanding. */
  predicate Inv(p: Parsers, c: Channel) {
    && c.stream.Valid()
    && C.Settled(p.sizeOf, c.stream.assembler.decoder)
    && c.stream.window.Outstanding() == c.stream.assembler.pendingWire + L.Sum(c.costs)
    && L.Conserved(LinkOf(c))
  }

  lemma {:induction false} SumWithout(xs: seq<nat>, i: nat)
    requires i < |xs|
    ensures L.Sum(xs) == L.Sum(xs[..i] + xs[i + 1..]) + xs[i]
    decreases |xs|
  {
    if i == 0 {
      assert xs[..0] + xs[1..] == xs[1..];
    } else {
      SumWithout(xs[1..], i - 1);
      var without := xs[..i] + xs[i + 1..];
      assert without[1..] == xs[1..][..i - 1] + xs[1..][i..];
    }
  }

  lemma {:induction false} SumJoin(a: seq<nat>, b: seq<nat>)
    ensures L.Sum(a + b) == L.Sum(a) + L.Sum(b)
  {
    if a == [] {
      assert a + b == b;
    } else {
      assert (a + b)[1..] == a[1..] + b;
      SumJoin(a[1..], b);
    }
  }

  lemma {:induction false} CostsSum(events: seq<StreamEvent>)
    ensures L.Sum(CostsOf(events)) == Costs(events)
  {
    if events != [] {
      CostsSum(events[1..]);
      assert CostsOf(events)[1..] == CostsOf(events[1..]);
    }
  }

  // ------------------------------------------------------------ steps

  /** The stream once DATA is assembled and its metadata consumed. */
  function Assemble(c: Channel, r: Assembled): (Channel)
    requires c.data != [] && c.stream.window.Valid() && c.stream.window.Admits(|c.data[0]|)
    requires r.autoConsumed <= |c.data[0]|
  {
    var (window, grant) := c.stream.window.Debit(|c.data[0]|).Consume(r.autoConsumed);
    c.(data := c.data[1..], stream := CarrierStream(r.next, window), costs := c.costs + CostsOf(r.events),
       grants := Granted(c.grants, grant))
  }

  /** None when the response is malformed, which ends the stream. */
  ghost function Apply(p: Parsers, c: Channel, step: Step): Option<Channel>
    requires Inv(p, c)
  {
    match step
    case Send(payload) =>
      Some(if |payload| > c.credit then c else c.(credit := c.credit - |payload|, data := c.data + [payload]))
    case Deliver =>
      if c.data == [] then Some(c)
      else
        DataIsAdmitted(p, c);
        (match FeedData(p, c.stream.assembler, c.data[0])
         case Err(_) => None
         case Ok(r) => FeedDataAccounts(p, c.stream.assembler, c.data[0]); Some(Assemble(c, r)))
    case DrainEvent(i) =>
      if i >= |c.costs| then Some(c)
      else
        SumWithout(c.costs, i);
        var (window, grant) := c.stream.window.Consume(c.costs[i]);
        Some(c.(stream := c.stream.(window := window), costs := c.costs[..i] + c.costs[i + 1..],
                grants := Granted(c.grants, grant)))
    case TakeGrant =>
      if c.grants == [] then Some(c)
      else
        L.StepConserves(LinkOf(c), L.TakeGrant);
        Some(c.(credit := AddCredit(c.credit, c.grants[0]).value, grants := c.grants[1..]))
  }

  lemma DataIsAdmitted(p: Parsers, c: Channel)
    requires Inv(p, c) && c.data != []
    ensures c.stream.window.Admits(|c.data[0]|)
  {
    L.StepConserves(LinkOf(c), L.Receive);
  }

  lemma SendKeeps(p: Parsers, c: Channel, payload: Bytes)
    requires Inv(p, c)
    ensures Inv(p, Apply(p, c, Send(payload)).value)
  {
    hide Assembler.Valid, C.Settled;
    var c' := Apply(p, c, Send(payload)).value;
    L.StepConserves(LinkOf(c), L.Send(|payload|));
    if |payload| <= c.credit {
      assert Sizes(c'.data) == Sizes(c.data) + [|payload|];
    }
  }

  lemma DrainKeeps(p: Parsers, c: Channel, i: nat)
    requires Inv(p, c)
    ensures Inv(p, Apply(p, c, DrainEvent(i)).value)
  {
    hide Assembler.Valid, C.Settled;
    if i < |c.costs| {
      SumWithout(c.costs, i);
      L.StepConserves(LinkOf(c), L.Consume(c.costs[i]));
    }
  }

  lemma GrantKeeps(p: Parsers, c: Channel)
    requires Inv(p, c)
    ensures Inv(p, Apply(p, c, TakeGrant).value)
  {
    hide Assembler.Valid, C.Settled;
    L.StepConserves(LinkOf(c), L.TakeGrant);
  }

  /** The decoder is stuck between payloads. */
  lemma FeedSettles(p: Parsers, a: Assembler, payload: Bytes)
    requires C.Settled(p.sizeOf, a.decoder) && FeedData(p, a, payload).Ok?
    ensures C.Settled(p.sizeOf, FeedData(p, a, payload).value.next.decoder)
  {
    hide C.Find, FeedBody, C.Settled;
    if a.headEmitted {
      BodySettles(p, a, payload);
    } else {
      var buf := a.headBuf + payload;
      var found := C.Find(buf, HEAD_END);
      if found.Some? {
        C.FindStable(buf, HEAD_END, []);
        var head := p.headOf(buf[..found.value]).value;
        BodySettles(p, a.(headBuf := [], headEmitted := true, chunked := p.isChunked(head)), buf[found.value + 4..]);
      }
    }
  }

  lemma BodySettles(p: Parsers, a: Assembler, payload: Bytes)
    requires C.Settled(p.sizeOf, a.decoder) && FeedBody(p, a, payload).Ok?
    ensures C.Settled(p.sizeOf, FeedBody(p, a, payload).value.0.decoder)
  {
    hide C.Loop, C.Advance;
    var d := a.decoder.(buf := a.decoder.buf + payload);
    if a.decoder.state != C.Done && a.decoder.state != C.Failed {
      C.LoopSettles(p.sizeOf, d);
    }
  }

  lemma DeliverKeeps(p: Parsers, c: Channel)
    requires Inv(p, c) && Apply(p, c, Deliver).Some?
    ensures Inv(p, Apply(p, c, Deliver).value)
  {
    hide Assembler.Valid, C.Settled, FeedData, L.Conserved, L.Sum;
    if c.data != [] {
      var a, payload := c.stream.assembler, c.data[0];
      DataIsAdmitted(p, c);
      FeedDataAccounts(p, a, payload);
      FeedSettles(p, a, payload);
      var r := FeedData(p, a, payload).value;
      CostsSum(r.events);
      SumJoin(c.costs, CostsOf(r.events));
      AssembleConserves(c, r);
    }
  }

  lemma AssembleConserves(c: Channel, r: Assembled)
    requires c.stream.window.Valid() && L.Conserved(LinkOf(c))
    requires c.data != [] && c.stream.window.Admits(|c.data[0]|) && r.autoConsumed <= |c.data[0]|
    ensures var c' := Assemble(c, r);
            && L.Conserved(LinkOf(c'))
            && c'.stream.window.Outstanding() == c.stream.window.Outstanding() + |c.data[0]| - r.autoConsumed
  {
    hide L.Conserved;
    var l := LinkOf(c);
    var n := |c.data[0]|;
    assert l.data[0] == n && l.data[1..] == Sizes(c.data[1..]);
    L.StepConserves(l, L.Receive);
    ConservedWindow(l);
    var l1 := L.Apply(l, L.Receive).link;
    ConservedWindow(l1);
    L.StepConserves(l1, L.Consume(r.autoConsumed));
    assert LinkOf(Assemble(c, r)) == L.Apply(l1, L.Consume(r.autoConsumed)).link;
  }

  lemma ConservedWindow(l: L.Link)
    requires L.Conserved(l)
    ensures l.window.Valid() && l.held == l.window.Outstanding()
  {
  }

  lemma ApplyKeeps(p: Parsers, c: Channel, step: Step)
    requires Inv(p, c) && Apply(p, c, step).Some?
    ensures Inv(p, Apply(p, c, step).value)
  {
    hide Inv, FeedData;
    match step
    case Send(payload) => SendKeeps(p, c, payload);
    case Deliver => DeliverKeeps(p, c);
    case DrainEvent(i) => DrainKeeps(p, c, i);
    case TakeGrant => GrantKeeps(p, c);
  }

  /** None once the stream has ended. */
  ghost function Run(p: Parsers, c: Channel, steps: seq<Step>): (r: Option<Channel>)
    requires Inv(p, c)
    ensures r.Some? ==> Inv(p, r.value)
    decreases |steps|
  {
    if steps == [] then Some(c)
    else match Apply(p, c, steps[0])
         case None => None
         case Some(c') => ApplyKeeps(p, c, steps[0]); Run(p, c', steps[1..])
  }

  lemma StartKeeps(p: Parsers)
    ensures Inv(p, START)
  {
    assert C.Find([], HEAD_END).None? && C.Find([], C.CRLF).None?;
    assert Sizes(START.data) == [];
  }

  // ------------------------------------------------------------ credit

  /** Nothing on the way, nothing to drain. */
  predicate Drained(c: Channel) {
    c.data == [] && c.grants == [] && c.costs == []
  }

  /**
   Over every run: a drained stream's sender is short of exactly the bytes of the
   unfinished chunk and the consumed bytes not yet granted. So it has a chunk's
   credit exactly when these leave room for one, and always while the unfinished
   chunk has taken no more than half the window less that much.
   */
  lemma DrainedSenderCredit(p: Parsers, steps: seq<Step>)
    ensures Inv(p, START)
    ensures var r := Run(p, START, steps);
            r.Some? && Drained(r.value) ==>
              var withheld := r.value.stream.assembler.pendingWire + r.value.stream.window.unacked;
              && r.value.credit == INITIAL_WINDOW - withheld
              && (r.value.credit < RECOMMENDED_CHUNK <==> withheld > INITIAL_WINDOW - RECOMMENDED_CHUNK)
              && (r.value.stream.assembler.pendingWire <= RECEIVE_GRANT_THRESHOLD - RECOMMENDED_CHUNK ==>
                    r.value.credit > RECOMMENDED_CHUNK)
  {
    StartKeeps(p);
    var r := Run(p, START, steps);
    if r.Some? && Drained(r.value) {
      assert Sizes(r.value.data) == [];
    }
  }

  // ------------------------------------------------------------ stalling

  /** In the middle of a chunk. */
  predicate MidChunk(a: Assembler) {
    a.headEmitted && a.chunked && a.decoder.state.Data?
  }

  /** Bytes of the chunk still to come. */
  function Missing(a: Assembler): int
    requires MidChunk(a)
  {
    a.decoder.state.size - |a.decoder.buf|
  }

  /** Some continuation delivers another body event. */
  ghost predicate MayDeliver(p: Parsers, c: Channel)
    requires Inv(p, c)
  {
    exists steps :: Run(p, c, steps).Some? && Run(p, c, steps).value.costs != []
  }

  function Zeros(n: nat): (b: Bytes)
    ensures |b| == n
  {
    seq(n, _ => 0)
  }

  /** A payload that does not complete the chunk is only held. */
  lemma HeldPayload(p: Parsers, a: Assembler, payload: Bytes)
    requires MidChunk(a) && |payload| < Missing(a)
    ensures var r := FeedData(p, a, payload);
            && r.Ok? && r.value.events == [] && r.value.autoConsumed == 0
            && MidChunk(r.value.next) && Missing(r.value.next) == Missing(a) - |payload|
  {
    if payload != [] {
      C.LoopTurn(p.sizeOf, a.decoder.(buf := a.decoder.buf + payload));
    }
  }

  /** The sender cannot reach the end of the chunk, and nothing will give it credit. */
  predicate Stuck(c: Channel) {
    && MidChunk(c.stream.assembler) && c.costs == [] && c.grants == []
    && c.credit + L.Sum(Sizes(c.data)) < Missing(c.stream.assembler)
  }

  lemma StuckStays(p: Parsers, c: Channel, step: Step)
    requires Inv(p, c) && Stuck(c)
    ensures Apply(p, c, step).Some? && Stuck(Apply(p, c, step).value)
  {
    hide Assembler.Valid, C.Settled, FeedData, MidChunk, Missing;
    match step
    case Send(payload) =>
      L.SumAppend(Sizes(c.data), |payload|);
      assert Sizes(c.data + [payload]) == Sizes(c.data) + [|payload|];
    case Deliver =>
      if c.data != [] {
        assert Sizes(c.data)[0] == |c.data[0]| && Sizes(c.data)[1..] == Sizes(c.data[1..]);
        HeldPayload(p, c.stream.assembler, c.data[0]);
        assert [] + CostsOf([]) == [];
      }
    case DrainEvent(i) =>
    case TakeGrant =>
  }

  lemma {:induction false} StuckForGood(p: Parsers, c: Channel, steps: seq<Step>)
    requires Inv(p, c) && Stuck(c)
    ensures Run(p, c, steps).Some? && Stuck(Run(p, c, steps).value)
    decreases |steps|
  {
    hide Inv, Stuck, Apply;
    if steps != [] {
      StuckStays(p, c, steps[0]);
      ApplyKeeps(p, c, steps[0]);
      StuckForGood(p, Apply(p, c, steps[0]).value, steps[1..]);
    }
  }

  /** The rest of a chunk in one payload delivers it. */
  lemma RestDelivers(p: Parsers, a: Assembler, payload: Bytes)
    requires MidChunk(a) && |payload| == Missing(a) > 0
    ensures FeedData(p, a, payload).Ok? && FeedData(p, a, payload).value.events != []
  {
    var d := a.decoder.(buf := a.decoder.buf + payload);
    C.LoopTurn(p.sizeOf, d);
    C.LoopTurn(p.sizeOf, C.Decoder(d.buf[d.state.size..], C.DataCrlf));
  }

  lemma EnoughCreditDelivers(p: Parsers, c: Channel)
    requires Inv(p, c) && Drained(c) && MidChunk(c.stream.assembler)
    requires 0 < Missing(c.stream.assembler) <= c.credit
    ensures MayDeliver(p, c)
  {
    hide Inv, FeedData, MidChunk, Missing;
    var payload := Zeros(Missing(c.stream.assembler));
    var steps := [Send(payload), Deliver];
    var c1 := Apply(p, c, Send(payload)).value;
    ApplyKeeps(p, c, Send(payload));
    assert c1.data == [payload];
    RestDelivers(p, c.stream.assembler, payload);
    InvValid(p, c1);
    var r := Apply(p, c1, Deliver);
    ApplyKeeps(p, c1, Deliver);
    assert steps[1..][0] == Deliver && steps[1..][1..] == [];
    assert Run(p, c, steps) == Run(p, c1, steps[1..]) == r;
  }

  lemma InvValid(p: Parsers, c: Channel)
    requires Inv(p, c)
    ensures c.stream.Valid() && C.Settled(p.sizeOf, c.stream.assembler.decoder)
  {
  }

  /**
   Over every run: a drained stream in the middle of a chunk will deliver again, in
   some continuation, exactly when the rest of the chunk fits in what the window
   leaves besides the unfinished chunk and the ungranted bytes.
   */
  lemma ChunkStallsIff(p: Parsers, steps: seq<Step>)
    ensures Inv(p, START)
    ensures var r := Run(p, START, steps);
            r.Some? && Drained(r.value) && MidChunk(r.value.stream.assembler) ==>
              (MayDeliver(p, r.value) <==>
               Missing(r.value.stream.assembler)
               <= INITIAL_WINDOW - r.value.stream.assembler.pendingWire - r.value.stream.window.unacked)
  {
    hide Inv, Run, Stuck;
    StartKeeps(p);
    DrainedSenderCredit(p, steps);
    var r := Run(p, START, steps);
    if r.Some? && Drained(r.value) && MidChunk(r.value.stream.assembler) {
      StallsIff(p, r.value);
    }
  }

  lemma StallsIff(p: Parsers, c: Channel)
    requires Inv(p, c) && Drained(c) && MidChunk(c.stream.assembler)
    ensures MayDeliver(p, c) <==> Missing(c.stream.assembler) <= c.credit
  {
    hide Inv, Run;
    MissingIsPositive(p, c);
    if Missing(c.stream.assembler) <= c.credit {
      EnoughCreditDelivers(p, c);
    } else {
      assert Sizes(c.data) == [] && Stuck(c);
      forall steps ensures Run(p, c, steps).Some? && Run(p, c, steps).value.costs == [] {
        StuckForGood(p, c, steps);
      }
    }
  }

  lemma MissingIsPositive(p: Parsers, c: Channel)
    requires Inv(p, c) && MidChunk(c.stream.assembler)
    ensures Missing(c.stream.assembler) > 0
  {
  }

  /** A response head and a size line, each ended where its terminator first occurs. */
  predicate Opening(p: Parsers, head: Bytes, line: Bytes, size: nat) {
    && C.Find(head + HEAD_END, HEAD_END) == Some(|head|)
    && p.headOf(head).Some? && p.isChunked(p.headOf(head).value)
    && C.Find(line + C.CRLF, C.CRLF) == Some(|line|)
    && p.sizeOf(line) == Some(size) && size > 0
  }

  lemma LineIsRead(p: Parsers, a: Assembler, line: Bytes, size: nat)
    requires a.chunked && a.decoder == C.NEW_DECODER && a.pendingWire == 0
    requires C.Find(line + C.CRLF, C.CRLF) == Some(|line|) && p.sizeOf(line) == Some(size) && size > 0
    ensures FeedBody(p, a, line + C.CRLF)
            == Ok((a.(decoder := C.Decoder([], C.Data(size)), pendingWire := |line| + 2), []))
  {
    hide C.Find;
    var d := C.Decoder(line + C.CRLF, C.Size);
    assert [] + (line + C.CRLF) == line + C.CRLF;
    assert d.buf[..|line|] == line && d.buf[|line| + 2..] == [];
    C.LoopTurn(p.sizeOf, d);
    C.LoopTurn(p.sizeOf, C.Decoder([], C.Data(size)));
  }

  lemma OpeningIsRead(p: Parsers, head: Bytes, line: Bytes, size: nat)
    requires Opening(p, head, line, size)
    ensures var r := FeedData(p, NEW_ASSEMBLER, head + HEAD_END + (line + C.CRLF));
            && r.Ok? && CostsOf(r.value.events) == [0] && r.value.autoConsumed == |head| + 4
            && r.value.next == Assembler([], true, true, C.Decoder([], C.Data(size)), |line| + 2)
  {
    hide C.Find, FeedBody, C.Push;
    var rest := line + C.CRLF;
    var buf := head + HEAD_END + rest;
    assert NEW_ASSEMBLER.headBuf + buf == buf;
    C.FindStable(head + HEAD_END, HEAD_END, rest);
    assert buf[..|head|] == head && buf[|head| + 4..] == rest;
    LineIsRead(p, Assembler([], true, true, C.NEW_DECODER, 0), line, size);
  }

  /** Where head and size line lead: in mid-chunk, with too little credit left for it. */
  lemma FittingChunkStates(p: Parsers, head: Bytes, line: Bytes, size: nat)
    requires Opening(p, head, line, size) && |head| + |line| + 6 < RECEIVE_GRANT_THRESHOLD
    requires INITIAL_WINDOW - (|head| + |line| + 6) < size <= INITIAL_WINDOW
    ensures Inv(p, START)
    ensures var r1 := Apply(p, START, Send(head + HEAD_END + (line + C.CRLF)));
            && r1.Some? && Inv(p, r1.value)
            && var r2 := Apply(p, r1.value, Deliver);
            && r2.Some? && Inv(p, r2.value)
            && var r3 := Apply(p, r2.value, DrainEvent(0));
            && r3.Some? && Inv(p, r3.value) && Drained(r3.value) && MidChunk(r3.value.stream.assembler)
            && Missing(r3.value.stream.assembler) == size > r3.value.credit
  {
    hide Inv, FeedData, Opening;
    StartKeeps(p);
    var payload := head + HEAD_END + (line + C.CRLF);
    OpeningIsRead(p, head, line, size);
    var c1 := Apply(p, START, Send(payload)).value;
    ApplyKeeps(p, START, Send(payload));
    InvValid(p, c1);
    assert c1.data == [payload] && c1.stream == NEW_STREAM;
    var c2 := Apply(p, c1, Deliver).value;
    ApplyKeeps(p, c1, Deliver);
    assert c2.costs == [0] && c2.data == [];
    ApplyKeeps(p, c2, DrainEvent(0));
  }

  /**
   A chunk need not be larger than the window to stall: the head and the size line
   are enough to keep a first chunk of nearly the whole window from ever arriving.
   */
  lemma FittingChunkStalls(p: Parsers, head: Bytes, line: Bytes, size: nat)
    requires Opening(p, head, line, size) && |head| + |line| + 6 < RECEIVE_GRANT_THRESHOLD
    requires INITIAL_WINDOW - (|head| + |line| + 6) < size <= INITIAL_WINDOW
    ensures Inv(p, START)
    ensures var r := Run(p, START, [Send(head + HEAD_END + (line + C.CRLF)), Deliver, DrainEvent(0)]);
            r.Some? && Drained(r.value) && !MayDeliver(p, r.value)
  {
    hide Inv, FeedData, Opening, MayDeliver, Apply;
    FittingChunkStates(p, head, line, size);
    var steps := [Send(head + HEAD_END + (line + C.CRLF)), Deliver, DrainEvent(0)];
    var c1 := Apply(p, START, steps[0]).value;
    var c2 := Apply(p, c1, Deliver).value;
    var c3 := Apply(p, c2, DrainEvent(0)).value;
    assert steps[1..][0] == Deliver && steps[1..][1..][0] == DrainEvent(0) && steps[1..][1..][1..] == [];
    assert Run(p, START, steps) == Run(p, c1, steps[1..]) == Run(p, c2, steps[1..][1..]) == Some(c3);
    StallsIff(p, c3);
  }
}
