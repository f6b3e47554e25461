/**
 A carrier stream's response does not depend on how its DATA was cut: whatever the
 frame boundaries, the same head and the same body bytes are delivered and the
 assembler ends in the same state, up to which event pays for which wire bytes.
 */
module ResponseSplits {
  import opened Outcomes
  import opened Wire
  import opened Demux
  import C = Chunked

  function Heads(events: seq<StreamEvent>): seq<Head> {
    if events == [] then [] else (if events[0].item.HeadItem? then [events[0].item.head] else []) + Heads(events[1..])
  }

  function BodyOf(events: seq<StreamEvent>): Bytes {
    if events == [] then [] else (if events[0].item.BodyItem? then events[0].item.bytes else []) + BodyOf(events[1..])
  }

  lemma HeadsOfFirst(a: seq<StreamEvent>)
    requires a != []
    ensures Heads(a) == Heads([a[0]]) + Heads(a[1..])
  {
    var one := [a[0]];
    assert one[1..] == [] && Heads(one[1..]) == [];
  }

  lemma BodyOfFirst(a: seq<StreamEvent>)
    requires a != []
    ensures BodyOf(a) == BodyOf([a[0]]) + BodyOf(a[1..])
  {
    var one := [a[0]];
    assert one[1..] == [] && BodyOf(one[1..]) == [];
  }

  lemma {:induction false} HeadsAppend(a: seq<StreamEvent>, b: seq<StreamEvent>)
    ensures Heads(a + b) == Heads(a) + Heads(b)
  {
    hide Heads;
    if a == [] {
      assert a + b == b;
      EmptyContent();
      assert [] + Heads(b) == Heads(b);
    } else {
      var all := a + b;
      assert all[0] == a[0] && all[1..] == a[1..] + b;
      HeadsAppend(a[1..], b);
      var first := Heads([a[0]]);
      HeadsOfFirst(a);
      HeadsOfFirst(all);
      assert first + (Heads(a[1..]) + Heads(b)) == (first + Heads(a[1..])) + Heads(b);
    }
  }

  lemma {:induction false} BodyAppend(a: seq<StreamEvent>, b: seq<StreamEvent>)
    ensures BodyOf(a + b) == BodyOf(a) + BodyOf(b)
  {
    hide BodyOf;
    if a == [] {
      assert a + b == b;
      EmptyContent();
      assert [] + BodyOf(b) == BodyOf(b);
    } else {
      var all := a + b;
      assert all[0] == a[0] && all[1..] == a[1..] + b;
      BodyAppend(a[1..], b);
      var first := BodyOf([a[0]]);
      BodyOfFirst(a);
      BodyOfFirst(all);
      assert first + (BodyOf(a[1..]) + BodyOf(b)) == (first + BodyOf(a[1..])) + BodyOf(b);
    }
  }

  /** Equal but for how wire bytes are attributed. */
  predicate SameButWire(a: Assembler, b: Assembler) {
    a.(pendingWire := 0) == b.(pendingWire := 0)
  }

  predicate Ready(p: Parsers, a: Assembler) {
    a.Valid() && C.Settled(p.sizeOf, a.decoder) && (!a.headEmitted ==> |a.headBuf| <= MAX_ASSEMBLED_BYTES)
  }

  lemma NewIsReady(p: Parsers)
    ensures Ready(p, NEW_ASSEMBLER)
  {
  }

  lemma OneBody(body: Bytes, cost: nat)
    ensures BodyOf([StreamEvent(BodyItem(body), cost)]) == body && Heads([StreamEvent(BodyItem(body), cost)]) == []
  {
    var one: seq<StreamEvent> := [StreamEvent(BodyItem(body), cost)];
    assert one[1..] == [] && body + [] == body;
  }

  /** What body bytes are delivered for a payload, whether or not an event is needed. */
  lemma BodyPushed(p: Parsers, a: Assembler, payload: Bytes)
    requires C.Settled(p.sizeOf, a.decoder)
    ensures var pushed := if a.chunked then C.Push(p.sizeOf, a.decoder, payload)
            else C.Pushed(a.decoder, Some(payload));
            var r := FeedBody(p, a, payload);
            && (payload != [] ==> (r.Ok? <==> pushed.out.Some?))
            && (r.Ok? && pushed.out.Some? ==>
                  && SameButWire(r.value.0, a.(decoder := pushed.decoder))
                  && BodyOf(r.value.1) == pushed.out.value && Heads(r.value.1) == [])
            && (payload == [] ==> r.Ok? && r.value == (a, []) && pushed.decoder == a.decoder)
  {
    hide C.Push, C.Settled;
    C.PushNothing(p.sizeOf, a.decoder);
    var pushed := if a.chunked then C.Push(p.sizeOf, a.decoder, payload) else C.Pushed(a.decoder, Some(payload));
    if payload != [] && pushed.out.Some? && pushed.out.value != [] {
      OneBody(pushed.out.value, a.pendingWire + |payload|);
    }
  }

  /** Two body payloads are one. */
  lemma BodyTwice(p: Parsers, a: Assembler, x: Bytes, y: Bytes)
    requires C.Settled(p.sizeOf, a.decoder) && FeedBody(p, a, x).Ok?
    requires FeedBody(p, FeedBody(p, a, x).value.0, y).Ok?
    ensures var (a1, e1) := FeedBody(p, a, x).value;
            var (a2, e2) := FeedBody(p, a1, y).value;
            var both := FeedBody(p, a, x + y);
            && both.Ok? && SameButWire(both.value.0, a2)
            && BodyOf(both.value.1) == BodyOf(e1) + BodyOf(e2) && Heads(both.value.1) == [] == Heads(e1) == Heads(e2)
            && C.Settled(p.sizeOf, a1.decoder) && C.Settled(p.sizeOf, a2.decoder)
            && a1.headEmitted == a2.headEmitted == a.headEmitted && a1.headBuf == a2.headBuf == a.headBuf
  {
    hide C.Push, C.Settled, FeedBody;
    var (a1, e1) := FeedBody(p, a, x).value;
    FeedBodyAccounts(p, a, x);
    FeedBodyAccounts(p, a1, y);
    BodyPushed(p, a, x);
    if a.chunked {
      C.PushTwice(p.sizeOf, a.decoder, x, y);
      C.PushTwice(p.sizeOf, C.Push(p.sizeOf, a.decoder, x).decoder, y, []);
    }
    if x == [] {
      assert x + y == y && [] + BodyOf(FeedBody(p, a, y).value.1) == BodyOf(FeedBody(p, a, y).value.1);
      BodyPushed(p, a, y);
      EmptyContent();
    } else if y == [] {
      assert x + y == x;
      assert BodyOf(e1) + [] == BodyOf(e1);
      BodyPushed(p, a1, []);
      EmptyContent();
    } else {
      BodyPushed(p, a1, y);
      BodyPushed(p, a, x + y);
      SameDecoder(p, a, a1, x);
    }
  }

  lemma SameDecoder(p: Parsers, a: Assembler, a1: Assembler, x: Bytes)
    requires SameButWire(a1, a.(decoder := (if a.chunked then C.Push(p.sizeOf, a.decoder, x)
                                            else C.Pushed(a.decoder, Some(x))).decoder))
    ensures a1.chunked == a.chunked
    ensures a1.decoder == (if a.chunked then C.Push(p.sizeOf, a.decoder, x) else C.Pushed(a.decoder, Some(x))).decoder
  {
  }

  lemma EmptyContent()
    ensures BodyOf([]) == [] && Heads([]) == []
  {
  }

  lemma OneHead(head: Head, events: seq<StreamEvent>)
    ensures Heads([StreamEvent(HeadItem(head), 0)] + events) == [head] + Heads(events)
    ensures BodyOf([StreamEvent(HeadItem(head), 0)] + events) == BodyOf(events)
  {
    var all := [StreamEvent(HeadItem(head), 0)] + events;
    assert all[1..] == events && [] + BodyOf(events) == BodyOf(events);
  }

  /** The head was completed by the first payload: the rest goes to the body. */
  lemma HeadThenBody(p: Parsers, a: Assembler, x: Bytes, y: Bytes)
    requires Ready(p, a) && !a.headEmitted && C.Find(a.headBuf + x, HEAD_END).Some?
    requires FeedData(p, a, x).Ok? && FeedData(p, FeedData(p, a, x).value.next, y).Ok?
    ensures var r1 := FeedData(p, a, x).value;
            var r2 := FeedData(p, r1.next, y).value;
            var both := FeedData(p, a, x + y);
            && both.Ok? && SameButWire(both.value.next, r2.next)
            && Heads(both.value.events) == Heads(r1.events) + Heads(r2.events)
            && BodyOf(both.value.events) == BodyOf(r1.events) + BodyOf(r2.events)
            && C.Settled(p.sizeOf, r1.next.decoder)
  {
    hide C.Push, C.Settled, FeedBody, C.Find, Heads, BodyOf;
    var buf := a.headBuf + x;
    var split := C.Find(buf, HEAD_END).value;
    assert a.headBuf + (x + y) == buf + y;
    C.FindStable(buf, HEAD_END, y);
    assert (buf + y)[..split] == buf[..split];
    assert (buf + y)[split + 4..] == buf[split + 4..] + y;
    var head := p.headOf(buf[..split]).value;
    var a' := a.(headBuf := [], headEmitted := true, chunked := p.isChunked(head));
    FeedBodyAccounts(p, a', buf[split + 4..]);
    BodyTwice(p, a', buf[split + 4..], y);
    OneHead(head, FeedBody(p, a', buf[split + 4..]).value.1);
    OneHead(head, FeedBody(p, a', buf[split + 4..] + y).value.1);
    assert [head] + [] == [head];
  }

  /** Two payloads are one, wherever the cut falls. */
  lemma FeedTwice(p: Parsers, a: Assembler, x: Bytes, y: Bytes)
    requires Ready(p, a) && FeedData(p, a, x).Ok? && FeedData(p, FeedData(p, a, x).value.next, y).Ok?
    ensures var r1 := FeedData(p, a, x).value;
            var r2 := FeedData(p, r1.next, y).value;
            var both := FeedData(p, a, x + y);
            && both.Ok? && SameButWire(both.value.next, r2.next)
            && Heads(both.value.events) == Heads(r1.events) + Heads(r2.events)
            && BodyOf(both.value.events) == BodyOf(r1.events) + BodyOf(r2.events)
            && Ready(p, r1.next)
  {
    hide C.Push, C.Settled, FeedBody, C.Find, Heads, BodyOf;
    FirstIsReady(p, a, x);
    EmptyContent();
    if a.headEmitted {
      FeedBodyAccounts(p, a, x);
      BodyTwice(p, a, x, y);
    } else if C.Find(a.headBuf + x, HEAD_END).Some? {
      HeadThenBody(p, a, x, y);
    } else {
      var r2 := FeedData(p, FeedData(p, a, x).value.next, y).value;
      assert (a.headBuf + x) + y == a.headBuf + (x + y);
      assert [] + Heads(r2.events) == Heads(r2.events) && [] + BodyOf(r2.events) == BodyOf(r2.events);
    }
  }

  /** Payloads one after another, as long as none fails. */
  function FeedAll(p: Parsers, a: Assembler, payloads: seq<Bytes>): Option<(Assembler, seq<StreamEvent>)>
    decreases |payloads|
  {
    if payloads == [] then Some((a, []))
    else match FeedData(p, a, payloads[0])
         case Err(_) => None
         case Ok(r) =>
           match FeedAll(p, r.next, payloads[1..])
           case None => None
           case Some((a', events)) => Some((a', r.events + events))
  }

  lemma FeedNothing(p: Parsers, a: Assembler)
    requires Ready(p, a)
    ensures FeedData(p, a, []).Ok? && FeedData(p, a, []).value.next == a && FeedData(p, a, []).value.events == []
  {
    hide C.Find, C.Settled;
    assert a.headBuf + [] == a.headBuf;
  }

  /**
   Split invariance of response assembly: however a stream's bytes are cut into
   DATA payloads, if none of the cuts fails then one payload of everything does not
   either, and the delivered heads, the delivered body and the state left behind
   are the same.
   */
  lemma {:induction false} CutsDoNotMatter(p: Parsers, a: Assembler, payloads: seq<Bytes>)
    requires Ready(p, a) && FeedAll(p, a, payloads).Some?
    ensures var (a', events) := FeedAll(p, a, payloads).value;
            var whole := FeedData(p, a, Flatten(payloads));
            && whole.Ok? && SameButWire(whole.value.next, a')
            && Heads(whole.value.events) == Heads(events) && BodyOf(whole.value.events) == BodyOf(events)
    decreases |payloads|
  {
    hide FeedData, Heads, BodyOf, Ready;
    if payloads == [] {
      FeedNothing(p, a);
    } else {
      var r := FeedData(p, a, payloads[0]).value;
      var (a', events) := FeedAll(p, r.next, payloads[1..]).value;
      FirstIsReady(p, a, payloads[0]);
      CutsDoNotMatter(p, r.next, payloads[1..]);
      FeedTwice(p, a, payloads[0], Flatten(payloads[1..]));
      HeadsAppend(r.events, events);
      BodyAppend(r.events, events);
    }
  }

  lemma FirstIsReady(p: Parsers, a: Assembler, payload: Bytes)
    requires Ready(p, a) && FeedData(p, a, payload).Ok?
    ensures Ready(p, FeedData(p, a, payload).value.next)
  {
    hide C.Push, C.Settled, FeedBody, C.Find;
    FeedDataAccounts(p, a, payload);
    if a.headEmitted {
      StaysSettled(p, a, payload);
    } else {
      var buf := a.headBuf + payload;
      if C.Find(buf, HEAD_END).Some? {
        var split := C.Find(buf, HEAD_END).value;
        C.FindStable(buf, HEAD_END, []);
        var head := p.headOf(buf[..split]).value;
        StaysSettled(p, a.(headBuf := [], headEmitted := true, chunked := p.isChunked(head)), buf[split + 4..]);
      }
    }
  }

  lemma StaysSettled(p: Parsers, a: Assembler, payload: Bytes)
    requires C.Settled(p.sizeOf, a.decoder) && FeedBody(p, a, payload).Ok?
    ensures var a' := FeedBody(p, a, payload).value.0;
            C.Settled(p.sizeOf, a'.decoder) && a'.headEmitted == a.headEmitted
  {
    hide C.Push, C.Settled;
    C.PushTwice(p.sizeOf, a.decoder, payload, []);
  }

  /**
   What a response means: with the blank line at `split`, one head parsed from what
   is before it, and the body after it, decoded when the head says it is chunked.
   */
  lemma WholeResponse(p: Parsers, raw: Bytes, split: nat, payloads: seq<Bytes>)
    requires C.Find(raw, HEAD_END) == Some(split) && split + 4 <= |raw|
    requires Flatten(payloads) == raw && FeedAll(p, NEW_ASSEMBLER, payloads).Some?
    ensures p.headOf(raw[..split]).Some?
    ensures var events := FeedAll(p, NEW_ASSEMBLER, payloads).value.1;
            var head := p.headOf(raw[..split]).value;
            var rest := raw[split + 4..];
            && Heads(events) == [head]
            && (rest != [] ==>
                  Some(BodyOf(events))
                  == if p.isChunked(head) then C.Push(p.sizeOf, C.NEW_DECODER, rest).out else Some(rest))
            && (rest == [] ==> BodyOf(events) == [])
  {
    hide C.Push, C.Find, FeedBody, FeedAll, Heads, BodyOf;
    NewIsReady(p);
    CutsDoNotMatter(p, NEW_ASSEMBLER, payloads);
    assert [] + raw == raw;
    var head := p.headOf(raw[..split]).value;
    var a := NEW_ASSEMBLER.(headEmitted := true, chunked := p.isChunked(head));
    BodyPushed(p, a, raw[split + 4..]);
    OneHead(head, FeedBody(p, a, raw[split + 4..]).value.1);
    EmptyContent();
    assert [head] + [] == [head];
  }

  /**
   A payload fails exactly if it brings the head past 4,194,304 bytes without its end, or
   a head that does not parse, or a chunked body the decoder rejects.
   */
  lemma AssemblyFailsIff(p: Parsers, a: Assembler, payload: Bytes)
    requires a.Valid()
    ensures var buf := a.headBuf + payload;
            var end := C.Find(buf, HEAD_END);
            var head := if !a.headEmitted && end.Some? && end.value <= |buf| then p.headOf(buf[..end.value]) else None;
            var body := if a.headEmitted then payload
                        else if end.Some? && end.value + 4 <= |buf| then buf[end.value + 4..] else [];
            var chunked := if a.headEmitted then a.chunked else head.Some? && p.isChunked(head.value);
            var rejected := body != [] && chunked && C.Push(p.sizeOf, a.decoder, body).out.None?;
            && (FeedData(p, a, payload) == Err(CapExceeded) <==>
                  !a.headEmitted && end.None? && |buf| > 4_194_304)
            && (FeedData(p, a, payload) == Err(BadHttp) <==>
                  if a.headEmitted then rejected else end.Some? && (head.None? || rejected))
  {
    hide C.Find, C.Push;
    C.FindStable(a.headBuf + payload, HEAD_END, []);
  }
}
