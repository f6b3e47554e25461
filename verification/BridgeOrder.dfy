/**
 In what order the bridge puts accepted writes and the half-close on the wire. A
 write that fits the credit goes out at once even when earlier writes are deferred,
 and a half-close does not wait for deferred writes; both are stated exactly, over
 every run of the joined bridge and home. Writes are known by their number, so
 order is about writes and not about which bytes they happen to hold.
 */
module BridgeOrder {
  import opened Outcomes
  import opened Wire
  import opened Flow
  import opened Links
  import opened Duplex
  import opened DuplexBytes
  import B = Bridge
  import H = Listener

  // ------------------------------------------------------------ a stream's frames

  /** The DATA payloads of frames, one by one. */
  function Payloads(frames: seq<Frame>): seq<Bytes> {
    if frames == [] then []
    else (if frames[0].flags == FLAG_DATA then [frames[0].payload] else []) + Payloads(frames[1..])
  }

  predicate Closed(frames: seq<Frame>) {
    exists i :: 0 <= i < |frames| && frames[i].flags == FLAG_CLOSE
  }

  /** The frames before the first CLOSE. */
  function Early(frames: seq<Frame>): seq<Frame> {
    if frames == [] || frames[0].flags == FLAG_CLOSE then [] else [frames[0]] + Early(frames[1..])
  }

  lemma {:induction false} PayloadsAppend(a: seq<Frame>, b: seq<Frame>)
    ensures Payloads(a + b) == Payloads(a) + Payloads(b)
  {
    if a == [] {
      assert a + b == b;
    } else {
      assert (a + b)[1..] == a[1..] + b;
      PayloadsAppend(a[1..], b);
    }
  }

  lemma ClosedAppend(a: seq<Frame>, b: seq<Frame>)
    ensures Closed(a + b) <==> Closed(a) || Closed(b)
  {
    var all := a + b;
    if Closed(a) {
      var i :| 0 <= i < |a| && a[i].flags == FLAG_CLOSE;
      assert all[i] == a[i];
    }
    if Closed(b) {
      var i :| 0 <= i < |b| && b[i].flags == FLAG_CLOSE;
      assert all[|a| + i] == b[i];
    }
  }

  lemma {:induction false} EarlyAppend(a: seq<Frame>, b: seq<Frame>)
    ensures Early(a + b) == if Closed(a) then Early(a) else a + Early(b)
    decreases |a|
  {
    if a == [] {
      assert a + b == b;
    } else {
      assert (a + b)[1..] == a[1..] + b && a == [a[0]] + a[1..];
      ClosedAppend([a[0]], a[1..]);
      EarlyAppend(a[1..], b);
      if a[0].flags == FLAG_CLOSE {
        assert Closed([a[0]]);
      } else {
        assert [a[0]] + (a[1..] + Early(b)) == a + Early(b);
      }
    }
  }

  /** Frames that carry no bytes, open nothing and close nothing. */
  predicate Dull(frames: seq<Frame>) {
    forall i :: 0 <= i < |frames| ==>
      frames[i].flags != FLAG_DATA && frames[i].flags != FLAG_CLOSE && frames[i].flags != FLAG_OPEN
  }

  lemma {:induction false} DullCarriesNothing(frames: seq<Frame>)
    requires Dull(frames)
    ensures Payloads(frames) == [] && !Closed(frames) && Early(frames) == frames
    decreases |frames|
  {
    if frames != [] {
      DullCarriesNothing(frames[1..]);
      assert frames == [frames[0]] + frames[1..];
    }
  }

  // ------------------------------------------------------------ what the driver does

  /** The frames of one stream that a bridge step adds. */
  function News(d: B.Desk, d': B.Desk, id: U32): seq<Frame> {
    Only(Added(d.queue, d'.queue), id)
  }

  lemma NewsOne(d: B.Desk, d': B.Desk, f: Frame, id: U32)
    requires d'.queue == d.queue + [f]
    ensures News(d, d', id) == if f.streamId == id then [f] else []
  {
    var one := Added(d.queue, d'.queue);
    assert one == [f] && one[1..] == [] && Only(one[1..], id) == [];
    assert [f] + [] == [f];
  }

  lemma NoNews(d: B.Desk, d': B.Desk, id: U32)
    requires d'.queue == d.queue
    ensures News(d, d', id) == []
  {
    assert Added(d.queue, d'.queue) == [];
  }

  /** A stream's deferred writes and half-close are left alone, or the stream goes. */
  predicate Spares(d: B.Desk, d': B.Desk, id: U32) {
    && Dull(News(d, d', id))
    && (id in d'.streams ==>
          && id in d.streams && d'.streams[id].pending == d.streams[id].pending
          && d'.streams[id].localClosed == d.streams[id].localClosed)
  }

  /** The first `k` deferred writes go out, in order. */
  predicate Releases(d: B.Desk, d': B.Desk, id: U32, k: nat) {
    && id in d.streams && id in d'.streams && k <= |d.streams[id].pending|
    && d'.streams[id].pending == d.streams[id].pending[k..]
    && d'.streams[id].localClosed == d.streams[id].localClosed
    && Payloads(News(d, d', id)) == d.streams[id].pending[..k]
    && forall i :: 0 <= i < |News(d, d', id)| ==> News(d, d', id)[i].flags == FLAG_DATA
  }

  lemma ResetSpares(d: B.Desk, k: U32, code: Byte, id: U32)
    ensures Spares(d, B.ResetStream(d, k, code), id)
  {
    hide Only;
    var d' := B.ResetStream(d, k, code);
    if k in d.streams {
      NewsOne(d, d', ResetFrame(k, code), id);
    } else {
      NoNews(d, d', id);
    }
  }

  lemma ConsumeSpares(d: B.Desk, k: U32, count: nat, id: U32)
    requires d.Valid()
    ensures Spares(d, B.Consume(d, k, count), id)
  {
    hide Only, B.ResetStream;
    var d' := B.Consume(d, k, count);
    ResetSpares(d, k, RESET_PROTOCOL_ERROR, id);
    if k in d.streams && count <= d.streams[k].unconsumed {
      var grant := d.streams[k].window.Consume(count).1;
      if grant.Some? {
        NewsOne(d, d', WindowFrame(k, grant.value), id);
      } else {
        NoNews(d, d', id);
      }
    } else if k !in d.streams {
      NoNews(d, d', id);
    }
  }

  lemma {:induction false} DrainReleases(d: B.Desk, id: U32)
    requires id in d.streams && B.DrainPending(d, id).ok
    ensures var d' := B.DrainPending(d, id).desk;
            && id in d'.streams && |d'.streams[id].pending| <= |d.streams[id].pending|
            && Releases(d, d', id, |d.streams[id].pending| - |d'.streams[id].pending|)
            && d.queue <= d'.queue
    decreases |d.streams[id].pending|
  {
    hide News, Releases;
    var s := d.streams[id];
    NoneReleased(d, id);
    if s.pending != [] && |s.pending[0]| <= s.sendCredit {
      var f := Frame(id, FLAG_DATA, s.pending[0]);
      var d1 := d.With(id, s.Debit(|s.pending[0]|).(pending := s.pending[1..])).Queue(f);
      DrainReleases(d1, id);
      ReleasedFirst(d, d1, B.DrainPending(d1, id).desk, id, f);
    }
  }

  lemma NoneReleased(d: B.Desk, id: U32)
    requires id in d.streams
    ensures Releases(d, d, id, 0)
  {
    NoNews(d, d, id);
    assert d.streams[id].pending[0..] == d.streams[id].pending && d.streams[id].pending[..0] == [];
  }

  /** The first deferred write goes out, then more do. */
  lemma ReleasedFirst(d: B.Desk, d1: B.Desk, d': B.Desk, id: U32, f: Frame)
    requires id in d.streams && d.streams[id].pending != [] && f == Frame(id, FLAG_DATA, d.streams[id].pending[0])
    requires id in d1.streams && d1.streams[id].pending == d.streams[id].pending[1..]
    requires d1.streams[id].localClosed == d.streams[id].localClosed
    requires d1.queue == d.queue + [f] && d1.queue <= d'.queue
    requires id in d'.streams && |d'.streams[id].pending| <= |d1.streams[id].pending|
    requires Releases(d1, d', id, |d1.streams[id].pending| - |d'.streams[id].pending|)
    ensures Releases(d, d', id, |d.streams[id].pending| - |d'.streams[id].pending|)
  {
    hide News;
    var pending := d.streams[id].pending;
    NewsOne(d, d1, f, id);
    NewsJoin(d, d1, d', id);
    PayloadsAppend([f], News(d1, d', id));
    OnePayload(f);
    var k := |d1.streams[id].pending| - |d'.streams[id].pending|;
    assert pending[..k + 1] == [pending[0]] + pending[1..][..k] && pending[k + 1..] == pending[1..][k..];
  }

  lemma OnePayload(f: Frame)
    ensures Payloads([f]) == if f.flags == FLAG_DATA then [f.payload] else []
  {
    var one: seq<Frame> := [f];
    assert one[1..] == [];
  }

  lemma NewsJoin(a: B.Desk, b: B.Desk, c: B.Desk, id: U32)
    requires a.queue <= b.queue <= c.queue
    ensures News(a, c, id) == News(a, b, id) + News(b, c, id)
  {
    assert Added(a.queue, c.queue) == Added(a.queue, b.queue) + Added(b.queue, c.queue);
    OnlyConcat(Added(a.queue, b.queue), Added(b.queue, c.queue), id);
  }

  lemma {:induction false} DrainSparesOthers(d: B.Desk, k: U32, id: U32)
    requires id != k
    ensures Spares(d, B.DrainPending(d, k).desk, id) && d.queue <= B.DrainPending(d, k).desk.queue
    decreases if k in d.streams then |d.streams[k].pending| else 0
  {
    hide Only;
    NoNews(d, d, id);
    if k in d.streams && d.streams[k].pending != [] && |d.streams[k].pending[0]| <= d.streams[k].sendCredit {
      var s := d.streams[k];
      var f := Frame(k, FLAG_DATA, s.pending[0]);
      var bare := d.With(k, s.Debit(|s.pending[0]|).(pending := s.pending[1..]));
      NoNews(d, bare, id);
      if f.Encodable() {
        DrainSparesOthers(bare.Queue(f), k, id);
        NewsOne(d, bare.Queue(f), f, id);
        NewsJoin(d, bare.Queue(f), B.DrainPending(bare.Queue(f), k).desk, id);
      }
    }
  }

  /** What a received frame does to a stream's deferred writes. */
  predicate Drained(d: B.Desk, d': B.Desk, id: U32) {
    || Spares(d, d', id)
    || (id in d.streams && id in d'.streams && |d'.streams[id].pending| <= |d.streams[id].pending|
        && Releases(d, d', id, |d.streams[id].pending| - |d'.streams[id].pending|))
  }

  lemma GrantDrains(d: B.Desk, f: Frame, id: U32)
    requires B.ReceiveWindow(d, f).ok
    ensures Drained(d, B.ReceiveWindow(d, f).desk, id)
  {
    hide Only, B.ResetStream, B.DrainPending;
    ResetSpares(d, f.streamId, RESET_PROTOCOL_ERROR, id);
    ResetSpares(d, f.streamId, RESET_FLOW_CONTROL_ERROR, id);
    NoNews(d, d, id);
    if f.WindowCredit().Some? && f.streamId in d.streams {
      var s := d.streams[f.streamId];
      var next := AddCredit(s.sendCredit, f.WindowCredit().value);
      if next.Some? {
        var granted := d.With(f.streamId, s.(sendCredit := next.value, creditFlag := true));
        if f.streamId == id {
          DrainReleases(granted, id);
        } else {
          DrainSparesOthers(granted, f.streamId, id);
        }
      }
    }
  }

  lemma DataSpares(d: B.Desk, f: Frame, taken: bool, id: U32)
    requires f.streamId in d.streams
    ensures Spares(d, B.ReceiveData(d, f, taken).0, id)
  {
    hide Only, B.ResetStream;
    var s := d.streams[f.streamId];
    ResetSpares(d, f.streamId, RESET_FLOW_CONTROL_ERROR, id);
    if !s.peerClosed && s.window.Admits(|f.payload|) {
      var d1 := d.With(f.streamId, s.(window := s.window.Debit(|f.payload|), unconsumed := s.unconsumed + |f.payload|));
      ResetSpares(d1, f.streamId, RESET_CANCEL, id);
      NoNews(d, d1.Deliver(B.Arrived(f.streamId, f.payload)), id);
    }
  }

  lemma ReceiveDrains(d: B.Desk, f: Frame, taken: bool, id: U32)
    requires Shaped(f) && f.flags != FLAG_OPEN && f.streamId != 0 && B.Receive(d, f, taken).ok
    ensures Drained(d, B.Receive(d, f, taken).desk, id)
  {
    hide Only, B.ResetStream, B.DrainPending, B.ReceiveData, B.ReceiveWindow, Spares, Releases;
    var d' := B.Receive(d, f, taken).desk;
    if f.flags == FLAG_WINDOW {
      GrantDrains(d, f, id);
    } else if f.flags == FLAG_DATA && f.streamId in d.streams {
      DataSpares(d, f, taken, id);
    } else {
      SameQueueSpares(d, d', id);
    }
  }

  lemma SameQueueSpares(d: B.Desk, d': B.Desk, id: U32)
    requires d'.queue == d.queue
    requires id in d'.streams ==> id in d.streams && d'.streams[id].pending == d.streams[id].pending
                                  && d'.streams[id].localClosed == d.streams[id].localClosed
    ensures Spares(d, d', id)
  {
    NoNews(d, d', id);
  }

  // ------------------------------------------------------------ stories

  /**
   One stream's writes in the order they were accepted, the numbers of those sent
   and of those deferred, and all frames the bridge has put on the wire for it.
   */
  datatype Story = Story(
    writes: seq<Bytes>, sent: seq<nat>, deferred: seq<nat>, wire: seq<Frame>, overtaken: bool, closedEarly: bool)

  const UNTOLD := Story([], [], [], [], false, false)

  function Pick(writes: seq<Bytes>, numbers: seq<nat>): seq<Bytes>
    requires forall i :: 0 <= i < |numbers| ==> numbers[i] < |writes|
  {
    seq(|numbers|, i requires 0 <= i < |numbers| => writes[numbers[i]])
  }

  function Count(n: nat): seq<nat> {
    seq(n, i requires 0 <= i < n => i)
  }

  /** Some write stands before an earlier one. */
  predicate Inverted(line: seq<nat>) {
    exists i, j :: 0 <= i < j < |line| && line[i] > line[j]
  }

  /** A write that fits the credit while an earlier one is deferred. */
  predicate Overtakes(d: B.Desk, step: Step, id: U32) {
    && step.BridgeWrite? && step.id == id && id in d.streams && !d.streams[id].localClosed
    && |step.bytes| <= d.streams[id].sendCredit && d.streams[id].pending != []
  }

  /** A half-close while a write is deferred. */
  predicate ClosesEarly(d: B.Desk, step: Step, id: U32) {
    && step.BridgeClose? && step.id == id && id in d.streams && !d.streams[id].localClosed
    && d.streams[id].pending != []
  }

  /** What a step from `d` to `d'` adds to a stream's story. */
  function Tell(d: B.Desk, d': B.Desk, step: Step, id: U32, s: Story): Story {
    var t := s.(overtaken := s.overtaken || Overtakes(d, step, id),
                closedEarly := s.closedEarly || ClosesEarly(d, step, id),
                wire := s.wire + if step.HomeReceive? then [] else News(d, d', id));
    var n := |s.writes|;
    if step.BridgeWrite? && step.id == id then
      match B.Write(d, id, step.bytes).1
      case Accepted => t.(writes := s.writes + [step.bytes], sent := s.sent + [n])
      case Deferred => t.(writes := s.writes + [step.bytes], deferred := s.deferred + [n])
      case Rejected(_) => t
    else if step.BridgeReceive? && id in d.streams && id in d'.streams then
      var before, after := |d.streams[id].pending|, |d'.streams[id].pending|;
      var k := if after <= before && before - after <= |s.deferred| then before - after else 0;
      t.(sent := s.sent + s.deferred[..k], deferred := s.deferred[k..])
    else t
  }

  predicate Numbered(s: Story) {
    && |s.sent| + |s.deferred| == |s.writes|
    && (forall i :: 0 <= i < |s.sent| ==> s.sent[i] < |s.writes|)
    && (forall i :: 0 <= i < |s.deferred| ==> s.deferred[i] < |s.writes|)
  }

  /** The wire holds the sent writes, and the driver the deferred ones, by number. */
  predicate Matches(d: B.Desk, id: U32, s: Story) {
    && Numbered(s)
    && Payloads(s.wire) == Pick(s.writes, s.sent)
    && (id in d.streams ==> d.streams[id].pending == Pick(s.writes, s.deferred))
  }

  /** Order is kept exactly until a write overtakes. */
  predicate Ordered(s: Story) {
    if s.overtaken then Inverted(s.sent + s.deferred) else s.sent + s.deferred == Count(|s.writes|)
  }

  /** Whether the CLOSE has been sent, and what it left behind. */
  predicate Ended(d: B.Desk, id: U32, s: Story) {
    && (id in d.streams ==> (d.streams[id].localClosed <==> Closed(s.wire)))
    && (Closed(s.wire) && !s.closedEarly ==> s.deferred == [] && Payloads(s.wire) == Payloads(Early(s.wire)))
    && (s.closedEarly ==> Closed(s.wire) && |Payloads(Early(s.wire))| < |s.writes|)
  }

  predicate Opens(s: Story) {
    forall i :: 0 < i < |s.wire| ==> s.wire[i].flags != FLAG_OPEN
  }

  predicate Told(d: B.Desk, id: U32, s: Story) {
    && Matches(d, id, s) && Ordered(s) && Ended(d, id, s) && Opens(s)
    && (id == 0 || id >= d.nextId ==> s == UNTOLD)
  }

  // ------------------------------------------------------------ order

  lemma CountIsOrdered(n: nat)
    ensures !Inverted(Count(n))
  {
  }

  lemma PickMore(writes: seq<Bytes>, bytes: Bytes, numbers: seq<nat>)
    requires forall i :: 0 <= i < |numbers| ==> numbers[i] < |writes|
    ensures Pick(writes + [bytes], numbers) == Pick(writes, numbers)
  {
  }

  lemma PickAppend(writes: seq<Bytes>, a: seq<nat>, b: seq<nat>)
    requires forall i :: 0 <= i < |a| ==> a[i] < |writes|
    requires forall i :: 0 <= i < |b| ==> b[i] < |writes|
    ensures forall i :: 0 <= i < |a + b| ==> (a + b)[i] < |writes|
    ensures Pick(writes, a + b) == Pick(writes, a) + Pick(writes, b)
  {
  }

  /** A number inserted before others keeps an inversion, and makes one if it is larger. */
  lemma InsertInverts(a: seq<nat>, n: nat, b: seq<nat>)
    requires Inverted(a + b) || (b != [] && b[0] < n)
    ensures Inverted(a + [n] + b)
  {
    var line, after := a + b, a + [n] + b;
    if Inverted(line) {
      var i, j :| 0 <= i < j < |line| && line[i] > line[j];
      var i', j' := if i < |a| then i else i + 1, if j < |a| then j else j + 1;
      assert after[i'] == line[i] && after[j'] == line[j];
    } else {
      assert after[|a|] == n && after[|a| + 1] == b[0];
    }
  }

  lemma AppendInverts(a: seq<nat>, n: nat)
    requires Inverted(a)
    ensures Inverted(a + [n])
  {
    var i, j :| 0 <= i < j < |a| && a[i] > a[j];
    assert (a + [n])[i] == a[i] && (a + [n])[j] == a[j];
  }

  lemma AcceptOrder(s: Story, bytes: Bytes, t: Story)
    requires Numbered(s) && Ordered(s)
    requires t.writes == s.writes + [bytes] && t.sent == s.sent + [|s.writes|] && t.deferred == s.deferred
    requires t.overtaken == (s.overtaken || s.deferred != [])
    ensures Ordered(t)
  {
    if t.overtaken {
      InsertInverts(s.sent, |s.writes|, s.deferred);
    } else {
      assert s.sent + [] == s.sent && t.sent + [] == t.sent;
      assert t.sent == Count(|t.writes|);
    }
  }

  lemma DeferOrder(s: Story, bytes: Bytes, t: Story)
    requires Numbered(s) && Ordered(s)
    requires t.writes == s.writes + [bytes] && t.sent == s.sent && t.deferred == s.deferred + [|s.writes|]
    requires t.overtaken == s.overtaken
    ensures Ordered(t)
  {
    assert t.sent + t.deferred == (s.sent + s.deferred) + [|s.writes|];
    if s.overtaken {
      AppendInverts(s.sent + s.deferred, |s.writes|);
    } else {
      assert t.sent + t.deferred == Count(|t.writes|);
    }
  }

  // ------------------------------------------------------------ steps

  /** Frames that carry nothing change nothing in a story. */
  lemma DullTold(d: B.Desk, d': B.Desk, id: U32, s: Story, news: seq<Frame>)
    requires Told(d, id, s) && Dull(news) && d'.nextId == d.nextId
    requires id in d'.streams ==> id in d.streams && d'.streams[id].pending == d.streams[id].pending
                                  && d'.streams[id].localClosed == d.streams[id].localClosed
    requires id == 0 || id >= d.nextId ==> news == []
    ensures Told(d', id, s.(wire := s.wire + news))
  {
    hide Payloads, Closed, Early, Pick, Inverted;
    DullCarriesNothing(news);
    PayloadsAppend(s.wire, news);
    ClosedAppend(s.wire, news);
    EarlyAppend(s.wire, news);
    assert Payloads(s.wire) + [] == Payloads(s.wire);
    if !Closed(s.wire) {
      PayloadsAppend(s.wire, news);
    }
    assert s.wire + [] == s.wire;
  }

  /** A stream's fresh frames: none while it is not allocated. */
  lemma NoEarlyNews(p: Pair, p': Pair, id: U32)
    requires Inv(p') && p.desk.queue <= p'.desk.queue && (id == 0 || id >= p'.desk.nextId)
    ensures News(p.desk, p'.desk, id) == []
  {
    hide LinkInv;
    assert View(p', id) == EMPTY;
    Behind(p.desk.queue, p'.desk.queue, id);
  }

  /** Steps that leave a stream's deferred writes and half-close alone. */
  lemma SparedTold(p: Pair, p': Pair, step: Step, id: U32, s: Story)
    requires Told(p.desk, id, s) && Inv(p') && Spares(p.desk, p'.desk, id)
    requires p.desk.queue <= p'.desk.queue && p'.desk.nextId == p.desk.nextId && !step.HomeReceive?
    requires step.BridgeWrite? || step.BridgeClose? ==> step.id != id
    ensures Told(p'.desk, id, Tell(p.desk, p'.desk, step, id, s))
  {
    hide Told, Dull, News, Inv;
    if id == 0 || id >= p.desk.nextId {
      NoEarlyNews(p, p', id);
    }
    DullTold(p.desk, p'.desk, id, s, News(p.desk, p'.desk, id));
    assert s.sent + s.deferred[..0] == s.sent && s.deferred[0..] == s.deferred;
    assert Tell(p.desk, p'.desk, step, id, s) == s.(wire := s.wire + News(p.desk, p'.desk, id));
  }

  lemma {:induction false} AllData(frames: seq<Frame>)
    requires forall i :: 0 <= i < |frames| ==> frames[i].flags == FLAG_DATA
    ensures !Closed(frames) && Early(frames) == frames
    decreases |frames|
  {
    if frames != [] {
      AllData(frames[1..]);
      assert frames == [frames[0]] + frames[1..];
    }
  }

  lemma PickSlices(writes: seq<Bytes>, numbers: seq<nat>, k: nat)
    requires (forall i :: 0 <= i < |numbers| ==> numbers[i] < |writes|) && k <= |numbers|
    ensures Pick(writes, numbers[..k]) == Pick(writes, numbers)[..k]
    ensures Pick(writes, numbers[k..]) == Pick(writes, numbers)[k..]
  {
  }

  /** What is released is still matched by number. */
  lemma ReleasedMatches(d: B.Desk, d': B.Desk, id: U32, s: Story, t: Story, k: nat)
    requires Matches(d, id, s) && Releases(d, d', id, k) && k <= |s.deferred|
    requires t == s.(sent := s.sent + s.deferred[..k], deferred := s.deferred[k..], wire := s.wire + News(d, d', id))
    ensures Matches(d', id, t) && t.sent + t.deferred == s.sent + s.deferred
  {
    hide Payloads, News;
    PickSlices(s.writes, s.deferred, k);
    PickAppend(s.writes, s.sent, s.deferred[..k]);
    PayloadsAppend(s.wire, News(d, d', id));
  }

  /** Releasing closes nothing, and releases nothing behind a timely CLOSE. */
  lemma ReleasedEnds(d: B.Desk, d': B.Desk, id: U32, s: Story, t: Story, news: seq<Frame>)
    requires Ended(d, id, s) && id in d.streams && id in d'.streams
    requires d'.streams[id].localClosed == d.streams[id].localClosed
    requires forall i :: 0 <= i < |news| ==> news[i].flags == FLAG_DATA
    requires s.deferred == [] ==> Payloads(news) == [] && t.deferred == []
    requires t == s.(sent := t.sent, deferred := t.deferred, wire := s.wire + news)
    ensures Ended(d', id, t)
  {
    hide Payloads, Early, Closed;
    PayloadsAppend(s.wire, news);
    AllData(news);
    ClosedAppend(s.wire, news);
    EarlyAppend(s.wire, news);
    assert Payloads(s.wire) + [] == Payloads(s.wire);
  }

  lemma ReleasedOpens(s: Story, t: Story, news: seq<Frame>)
    requires Opens(s) && t.wire == s.wire + news
    requires forall i :: 0 <= i < |news| ==> news[i].flags == FLAG_DATA
    ensures Opens(t)
  {
  }

  /** Deferred writes released by a grant: the line of writes is as it was. */
  lemma ReleasedTold(d: B.Desk, d': B.Desk, step: Step, id: U32, s: Story, k: nat)
    requires Told(d, id, s) && Releases(d, d', id, k) && d'.nextId == d.nextId && step.BridgeReceive?
    requires k == |d.streams[id].pending| - |d'.streams[id].pending| && 0 < id < d.nextId
    ensures Told(d', id, Tell(d, d', step, id, s))
  {
    hide Payloads, Early, Inverted, News, Closed, Ended, Opens, Pick;
    var news := News(d, d', id);
    var t := Tell(d, d', step, id, s);
    assert |d.streams[id].pending| == |s.deferred| by { PickLength(s); }
    assert t == s.(sent := s.sent + s.deferred[..k], deferred := s.deferred[k..], wire := s.wire + news);
    ReleasedMatches(d, d', id, s, t, k);
    if s.deferred == [] {
      assert d.streams[id].pending[..k] == [];
    }
    ReleasedEnds(d, d', id, s, t, news);
    ReleasedOpens(s, t, news);
  }

  lemma PickLength(s: Story)
    requires Numbered(s)
    ensures |Pick(s.writes, s.deferred)| == |s.deferred|
  {
  }

  lemma AcceptTold(d: B.Desk, d': B.Desk, id: U32, bytes: Bytes, s: Story, t: Story)
    requires Told(d, id, s) && 0 < id < d'.nextId && id in d.streams && !d.streams[id].localClosed
    requires id in d'.streams && d'.streams[id].pending == d.streams[id].pending && !d'.streams[id].localClosed
    requires t == s.(writes := s.writes + [bytes], sent := s.sent + [|s.writes|],
                     wire := s.wire + [Frame(id, FLAG_DATA, bytes)],
                     overtaken := s.overtaken || d.streams[id].pending != [])
    ensures Told(d', id, t)
  {
    hide Inverted, Early, Closed, Payloads;
    var f := Frame(id, FLAG_DATA, bytes);
    PickMore(s.writes, bytes, s.sent);
    PickMore(s.writes, bytes, s.deferred);
    PickAppend(t.writes, s.sent, [|s.writes|]);
    PayloadsAppend(s.wire, [f]);
    OnePayload(f);
    AllData([f]);
    ClosedAppend(s.wire, [f]);
    EmptyPick(s);
    AcceptOrder(s, bytes, t);
  }

  lemma DeferTold(d: B.Desk, d': B.Desk, id: U32, bytes: Bytes, s: Story, t: Story)
    requires Told(d, id, s) && 0 < id < d'.nextId && id in d.streams && !d.streams[id].localClosed
    requires id in d'.streams && d'.streams[id].pending == d.streams[id].pending + [bytes]
             && !d'.streams[id].localClosed
    requires t == s.(writes := s.writes + [bytes], deferred := s.deferred + [|s.writes|])
    ensures Told(d', id, t)
  {
    hide Inverted, Early, Closed, Payloads;
    PickMore(s.writes, bytes, s.sent);
    PickMore(s.writes, bytes, s.deferred);
    PickAppend(t.writes, s.deferred, [|s.writes|]);
    DeferOrder(s, bytes, t);
  }

  /** The bridge's decision on a write. */
  lemma WriteTold(d: B.Desk, id: U32, bytes: Bytes, s: Story)
    requires Told(d, id, s) && (id in d.streams ==> 0 < id < d.nextId && d.streams[id].sendCredit <= MAX_PAYLOAD)
    ensures var d' := B.Write(d, id, bytes).0.desk;
            Told(d', id, Tell(d, d', BridgeWrite(id, bytes), id, s))
  {
    hide Told, Only, News;
    var d' := B.Write(d, id, bytes).0.desk;
    var t := Tell(d, d', BridgeWrite(id, bytes), id, s);
    assert s.wire + [] == s.wire;
    if id !in d.streams || d.streams[id].localClosed {
      NoNews(d, d', id);
    } else if |bytes| > d.streams[id].sendCredit {
      NoNews(d, d', id);
      DeferTold(d, d', id, bytes, s, t);
    } else {
      NewsOne(d, d', Frame(id, FLAG_DATA, bytes), id);
      AcceptTold(d, d', id, bytes, s, t);
    }
  }

  lemma EmptyPick(s: Story)
    requires Numbered(s)
    ensures Pick(s.writes, s.deferred) == [] <==> s.deferred == []
  {
    assert |Pick(s.writes, s.deferred)| == |s.deferred|;
  }

  /** A half-close takes its place behind what was sent, deferred writes or not. */
  lemma CloseTold(d: B.Desk, id: U32, s: Story)
    requires Told(d, id, s) && (id in d.streams ==> 0 < id < d.nextId)
    ensures var d' := B.Close(d, id);
            Told(d', id, Tell(d, d', BridgeClose(id), id, s))
  {
    hide Inverted, Only, Closed, Payloads, Early;
    var d' := B.Close(d, id);
    assert s.wire + [] == s.wire;
    if id !in d.streams || d.streams[id].localClosed {
      NoNews(d, d', id);
    } else {
      NewsOne(d, d', Frame(id, FLAG_CLOSE, []), id);
      CloseOnWire(s, Frame(id, FLAG_CLOSE, []));
      EmptyPick(s);
      assert |Payloads(s.wire)| == |s.sent|;
    }
  }

  /** What a story's wire says with a CLOSE behind it. */
  lemma CloseOnWire(s: Story, f: Frame)
    requires f.flags == FLAG_CLOSE
    ensures Payloads(s.wire + [f]) == Payloads(s.wire) && Closed(s.wire + [f])
    ensures Early(s.wire + [f]) == if Closed(s.wire) then Early(s.wire) else s.wire
  {
    hide Closed, Payloads, Early;
    PayloadsAppend(s.wire, [f]);
    OnePayload(f);
    ClosedAppend(s.wire, [f]);
    OneClose(f);
    EarlyAppend(s.wire, [f]);
    assert s.wire + [] == s.wire && Payloads(s.wire) + [] == Payloads(s.wire);
  }

  lemma OneClose(f: Frame)
    requires f.flags == FLAG_CLOSE
    ensures Closed([f]) && Early([f]) == []
  {
    var one: seq<Frame> := [f];
    assert one[0] == f;
  }

  lemma OpenedTold(d: B.Desk, k: U32)
    requires 0 < k < d.nextId && k in d.streams && d.streams[k] == B.NEW_STREAM
    ensures Told(d, k, UNTOLD.(wire := [Frame(k, FLAG_OPEN, [])]))
  {
    var f := Frame(k, FLAG_OPEN, []);
    OnePayload(f);
    assert !Closed([f]);
  }

  lemma UnchangedTold(d: B.Desk, d': B.Desk, id: U32, s: Story)
    requires Told(d, id, s) && d'.nextId >= d.nextId
    requires id in d'.streams <==> id in d.streams
    requires id in d.streams ==> d'.streams[id] == d.streams[id]
    ensures Told(d', id, s)
  {
  }

  lemma OpenTold(p: Pair, id: U32, s: Story)
    requires Inv(p) && Allowed(p, BridgeOpen) && Told(p.desk, id, s)
    ensures var p' := Apply(p, BridgeOpen);
            Told(p'.desk, id, Tell(p.desk, p'.desk, BridgeOpen, id, s))
  {
    hide Told, Only, LinkInv, News;
    var p' := Apply(p, BridgeOpen);
    var k := p.desk.nextId;
    assert View(p, k) == EMPTY;
    assert s.wire + [] == s.wire;
    if p.desk.retired {
      NoNews(p.desk, p'.desk, id);
    } else {
      NewsOne(p.desk, p'.desk, Frame(k, FLAG_OPEN, []), id);
      if id == k {
        FreshIsUntold(p.desk, id, s);
        assert [] + [Frame(k, FLAG_OPEN, [])] == [Frame(k, FLAG_OPEN, [])];
        OpenedTold(p'.desk, k);
      } else {
        UnchangedTold(p.desk, p'.desk, id, s);
      }
    }
  }

  lemma FreshIsUntold(d: B.Desk, id: U32, s: Story)
    requires Told(d, id, s) && id >= d.nextId
    ensures s == UNTOLD
  {
  }

  // ------------------------------------------------------------ runs

  type Stories = U32 -> Story

  /** The joined pair with every stream's story. */
  datatype Chronicle = Chronicle(p: Pair, told: Stories)

  ghost predicate Faithful(c: Chronicle) {
    Inv(c.p) && forall id: U32 :: Told(c.p.desk, id, c.told(id))
  }

  ghost function Proceed(c: Chronicle, step: Step): Chronicle
    requires Inv(c.p)
  {
    var p' := Apply(c.p, step);
    Chronicle(p', if !Allowed(c.p, step) then c.told
                  else (id: U32) => Tell(c.p.desk, p'.desk, step, id, c.told(id)))
  }

  /** Steps of the home, and of the bridge on another stream. */
  lemma ElsewhereTold(p: Pair, step: Step, id: U32, s: Story)
    requires Inv(p) && Allowed(p, step) && Told(p.desk, id, s)
    requires step.HomeConsume? || step.HomeSend? || step.HomeClose? || step.HomeReset?
          || ((step.BridgeWrite? || step.BridgeClose?) && step.id != id)
    ensures var p' := Apply(p, step);
            Told(p'.desk, id, Tell(p.desk, p'.desk, step, id, s))
  {
    hide Told, Only, Inv, News, Spares;
    InvIsValid(p);
    var p' := Apply(p, step);
    if step.BridgeWrite? {
      WriteSparesOthers(p.desk, step.id, step.bytes, id);
    } else if step.BridgeClose? {
      CloseSparesOthers(p.desk, step.id, id);
    } else {
      HomeCallShape(p, step);
      SameQueueSpares(p.desk, p'.desk, id);
    }
    SparedTold(p, p', step, id, s);
  }

  lemma WriteSparesOthers(d: B.Desk, k: U32, bytes: Bytes, id: U32)
    requires id != k
    ensures var d' := B.Write(d, k, bytes).0.desk;
            Spares(d, d', id) && d.queue <= d'.queue && d'.nextId == d.nextId
  {
    hide Only, News;
    var d' := B.Write(d, k, bytes).0.desk;
    if d'.queue == d.queue {
      NoNews(d, d', id);
    } else {
      NewsOne(d, d', Frame(k, FLAG_DATA, bytes), id);
    }
  }

  lemma CloseSparesOthers(d: B.Desk, k: U32, id: U32)
    requires id != k
    ensures var d' := B.Close(d, k);
            Spares(d, d', id) && d.queue <= d'.queue && d'.nextId == d.nextId
  {
    hide Only, News;
    var d' := B.Close(d, k);
    if d'.queue == d.queue {
      NoNews(d, d', id);
    } else {
      NewsOne(d, d', Frame(k, FLAG_CLOSE, []), id);
    }
  }

  lemma ReceiveTold(p: Pair, taken: bool, id: U32, s: Story)
    requires Inv(p) && p.out.frames != [] && Told(p.desk, id, s)
    ensures var p' := Apply(p, BridgeReceive(taken));
            Told(p'.desk, id, Tell(p.desk, p'.desk, BridgeReceive(taken), id, s))
  {
    hide Told, Only, Inv, News, Spares, Releases, B.Receive, Delivers;
    var step := BridgeReceive(taken);
    var p' := Apply(p, step);
    InvIsValid(p);
    NotFailed(p);
    NotFailed(p');
    NextDown(p);
    ReceiveDelivers(p.desk, p.out.frames[0], taken);
    DeliveryExtends(p.desk, p'.desk, p.out.frames[0]);
    ReceiveDrains(p.desk, p.out.frames[0], taken, id);
    if Spares(p.desk, p'.desk, id) {
      SparedTold(p, p', step, id, s);
    } else {
      LiveIsAllocated(p, id);
      ReleasedTold(p.desk, p'.desk, step, id, s, |p.desk.streams[id].pending| - |p'.desk.streams[id].pending|);
    }
  }

  lemma StepTold(p: Pair, step: Step, id: U32, s: Story)
    requires Inv(p) && Allowed(p, step) && Told(p.desk, id, s)
    ensures var p' := Apply(p, step);
            Told(p'.desk, id, Tell(p.desk, p'.desk, step, id, s))
  {
    hide Told, Only, Inv, News, Spares, Tell, B.Open, B.Write, B.Consume, B.Close, B.ResetStream, B.Receive, H.Handle;
    InvIsValid(p);
    match step
    case BridgeOpen => OpenTold(p, id, s);
    case BridgeWrite(k, bytes) =>
      if k == id {
        CreditFits(p, id);
        WriteTold(p.desk, id, bytes, s);
      } else {
        ElsewhereTold(p, step, id, s);
      }
    case BridgeClose(k) =>
      if k == id {
        CreditFits(p, id);
        CloseTold(p.desk, id, s);
      } else {
        ElsewhereTold(p, step, id, s);
      }
    case BridgeConsume(k, count) =>
      ConsumeSpares(p.desk, k, count, id);
      ConsumeIsQuiet(p.desk, k, count);
      QuietShape(p.desk, Apply(p, step).desk);
      SparedTold(p, Apply(p, step), step, id, s);
    case BridgeReset(k, code) =>
      ResetSpares(p.desk, k, code, id);
      ResetIsQuiet(p.desk, k, code);
      QuietShape(p.desk, Apply(p, step).desk);
      SparedTold(p, Apply(p, step), step, id, s);
    case BridgeRetire =>
      SameQueueSpares(p.desk, Apply(p, step).desk, id);
      SparedTold(p, Apply(p, step), step, id, s);
    case BridgeReceive(taken) => ReceiveTold(p, taken, id, s);
    case HomeReceive => HomeReceiveTold(p, id, s);
    case _ => ElsewhereTold(p, step, id, s);
  }

  lemma QuietShape(d: B.Desk, d': B.Desk)
    requires Quiet(d, d')
    ensures d.queue <= d'.queue && d'.nextId == d.nextId
  {
  }

  lemma CreditFits(p: Pair, id: U32)
    requires Inv(p)
    ensures id in p.desk.streams ==> 0 < id < p.desk.nextId && p.desk.streams[id].sendCredit <= MAX_PAYLOAD
  {
    hide LinkInv;
    if id in p.desk.streams {
      LiveIsAllocated(p, id);
      SendCreditBound(p, id);
    }
  }

  lemma HomeReceiveTold(p: Pair, id: U32, s: Story)
    requires Inv(p) && p.desk.queue != [] && Told(p.desk, id, s)
    ensures var p' := Apply(p, HomeReceive);
            Told(p'.desk, id, Tell(p.desk, p'.desk, HomeReceive, id, s))
  {
    hide Told, Inv, H.Handle;
    InvIsValid(p);
    var p' := Apply(p, HomeReceive);
    assert s.wire + [] == s.wire;
    UnchangedTold(p.desk, p'.desk, id, s);
  }

  lemma ProceedKeeps(c: Chronicle, step: Step)
    requires Faithful(c)
    ensures Faithful(Proceed(c, step))
  {
    hide Told, Inv, Tell, Apply;
    if Allowed(c.p, step) {
      forall id: U32 { StepTold(c.p, step, id, c.told(id)); }
    } else {
      IdleApply(c.p, step);
    }
  }

  lemma IdleApply(p: Pair, step: Step)
    requires Inv(p) && !Allowed(p, step)
    ensures Apply(p, step) == p
  {
  }

  lemma FaithfulInv(c: Chronicle)
    requires Faithful(c)
    ensures Inv(c.p)
  {
  }

  ghost function RunTold(c: Chronicle, steps: seq<Step>): Chronicle
    requires Faithful(c)
    decreases |steps|
  {
    if steps == [] then c
    else
      FaithfulInv(c);
      ProceedKeeps(c, steps[0]);
      RunTold(Proceed(c, steps[0]), steps[1..])
  }

  function Begin(limits: H.Limits): Chronicle {
    Chronicle(Start(limits), (id: U32) => UNTOLD)
  }

  lemma BeginIsFaithful(limits: H.Limits)
    requires limits.Valid()
    ensures Faithful(Begin(limits))
  {
    StartKeeps(limits);
    var c := Begin(limits);
    forall id: U32 ensures Told(c.p.desk, id, c.told(id)) {
      assert [] + [] == Count(0);
    }
  }

  /** Some step of the run passes the test for a stream. */
  ghost predicate Ever(test: (B.Desk, Step, U32) -> bool, c: Chronicle, steps: seq<Step>, id: U32)
    requires Faithful(c)
    decreases |steps|
  {
    steps != [] && (
      || test(c.p.desk, steps[0], id)
      || (FaithfulInv(c); ProceedKeeps(c, steps[0]); Ever(test, Proceed(c, steps[0]), steps[1..], id)))
  }

  lemma {:induction false} RunTells(c: Chronicle, steps: seq<Step>, id: U32)
    requires Faithful(c)
    ensures Faithful(RunTold(c, steps))
    ensures RunTold(c, steps).told(id).overtaken == (c.told(id).overtaken || Ever(Overtakes, c, steps, id))
    ensures RunTold(c, steps).told(id).closedEarly == (c.told(id).closedEarly || Ever(ClosesEarly, c, steps, id))
    decreases |steps|
  {
    hide Faithful, Proceed, Overtakes, ClosesEarly;
    if steps != [] {
      FaithfulInv(c);
      ProceedKeeps(c, steps[0]);
      ProceedFlags(c, steps[0], id);
      RunTells(Proceed(c, steps[0]), steps[1..], id);
    }
  }

  lemma ProceedFlags(c: Chronicle, step: Step, id: U32)
    requires Inv(c.p)
    ensures var s, t := c.told(id), Proceed(c, step).told(id);
            && t.overtaken == (s.overtaken || Overtakes(c.p.desk, step, id))
            && t.closedEarly == (s.closedEarly || ClosesEarly(c.p.desk, step, id))
  {
    hide Inv, News, Apply;
  }

  /**
   Write order, over every run of the joined bridge and home. The wire holds the
   sent writes and the driver the deferred ones; sent then deferred is the order in
   which writes were accepted exactly when no write that fitted the credit found an
   earlier one deferred.
   */
  lemma WritesKeepOrderIff(limits: H.Limits, steps: seq<Step>, id: U32)
    requires limits.Valid()
    ensures Faithful(Begin(limits))
    ensures var c := RunTold(Begin(limits), steps);
            var s := c.told(id);
            && Numbered(s) && Payloads(s.wire) == Pick(s.writes, s.sent)
            && (id in c.p.desk.streams ==> c.p.desk.streams[id].pending == Pick(s.writes, s.deferred))
            && (s.sent + s.deferred == Count(|s.writes|) <==> !Ever(Overtakes, Begin(limits), steps, id))
  {
    hide Inv, RunTold, Payloads, Ever, Inverted;
    BeginIsFaithful(limits);
    RunTells(Begin(limits), steps, id);
    var c := RunTold(Begin(limits), steps);
    assert Told(c.p.desk, id, c.told(id));
    CountIsOrdered(|c.told(id).writes|);
  }

  /** A write while another is outstanding. */
  predicate Crowds(d: B.Desk, step: Step, id: U32) {
    step.BridgeWrite? && step.id == id && id in d.streams && d.streams[id].pending != []
  }

  lemma {:induction false} OvertakingCrowds(c: Chronicle, steps: seq<Step>, id: U32)
    requires Faithful(c) && Ever(Overtakes, c, steps, id)
    ensures Ever(Crowds, c, steps, id)
    decreases |steps|
  {
    hide Faithful, Proceed;
    FaithfulInv(c);
    ProceedKeeps(c, steps[0]);
    if !Overtakes(c.p.desk, steps[0], id) {
      OvertakingCrowds(Proceed(c, steps[0]), steps[1..], id);
    }
  }

  /**
   One outstanding write per stream keeps order: if no write is made while another
   is deferred, what is on the wire followed by what is deferred is what was
   accepted, write by write, on every run.
   */
  lemma OneOutstandingWriteKeepsOrder(limits: H.Limits, steps: seq<Step>, id: U32)
    requires limits.Valid()
    ensures Faithful(Begin(limits))
    ensures var c := RunTold(Begin(limits), steps);
            var s := c.told(id);
            !Ever(Crowds, Begin(limits), steps, id) ==>
              && Payloads(s.wire) <= s.writes
              && (id in c.p.desk.streams ==> Payloads(s.wire) + c.p.desk.streams[id].pending == s.writes)
  {
    hide Inv, RunTold, Payloads, Ever;
    WritesKeepOrderIff(limits, steps, id);
    if Ever(Overtakes, Begin(limits), steps, id) {
      OvertakingCrowds(Begin(limits), steps, id);
    } else {
      var s := RunTold(Begin(limits), steps).told(id);
      PickAppend(s.writes, s.sent, s.deferred);
      assert Pick(s.writes, Count(|s.writes|)) == s.writes;
    }
  }

  /**
   The half-close, over every run: once it is on the wire, every accepted write is
   before it exactly when nothing was deferred at the close, and then no DATA ever
   follows it.
   */
  lemma CloseIsLastIff(limits: H.Limits, steps: seq<Step>, id: U32)
    requires limits.Valid()
    ensures Faithful(Begin(limits))
    ensures var s := RunTold(Begin(limits), steps).told(id);
            Closed(s.wire) ==>
              && (|Payloads(Early(s.wire))| == |s.writes| <==> !Ever(ClosesEarly, Begin(limits), steps, id))
              && (!Ever(ClosesEarly, Begin(limits), steps, id) ==> Payloads(s.wire) == Payloads(Early(s.wire)))
  {
    hide Inv, RunTold, Payloads, Ever, Early, Closed;
    BeginIsFaithful(limits);
    RunTells(Begin(limits), steps, id);
    var c := RunTold(Begin(limits), steps);
    assert Told(c.p.desk, id, c.told(id));
  }

  // ------------------------------------------------------------ what goes wrong

  /**
   What becomes of deferred writes at a half-close. If the peer has closed as well
   they are forgotten with the stream; otherwise a grant that covers the first
   releases it behind the CLOSE.
   */
  lemma DeferredAtClose(d: B.Desk, id: U32, grant: U32)
    requires id != 0 && id in d.streams && !d.streams[id].localClosed
    requires d.streams[id].pending != [] && d.streams[id].sendCredit + grant <= MAX_SEND_CREDIT
    requires |d.streams[id].pending[0]| <= d.streams[id].sendCredit + grant && |d.streams[id].pending[0]| <= MAX_PAYLOAD
    ensures var close, late := Frame(id, FLAG_CLOSE, []), Frame(id, FLAG_DATA, d.streams[id].pending[0]);
            var d' := B.Receive(B.Close(d, id), WindowFrame(id, grant), true).desk;
            if d.streams[id].peerClosed then d'.queue == d.queue + [close] && id !in d'.streams
            else d.queue + [close, late] <= d'.queue
  {
    Be32RoundTrip(grant);
    var s := d.streams[id];
    var closed := B.Close(d, id);
    if !s.peerClosed {
      var granted := closed.With(id, closed.streams[id].(sendCredit := s.sendCredit + grant, creditFlag := true));
      var f := Frame(id, FLAG_DATA, s.pending[0]);
      var sent := granted.With(id, granted.streams[id].Debit(|s.pending[0]|).(pending := s.pending[1..])).Queue(f);
      DrainExtends(sent, id);
      assert sent.queue == d.queue + [Frame(id, FLAG_CLOSE, []), f];
    }
  }

  /** Stream 1 is open with this credit, these deferred writes and this story. */
  ghost predicate Stands(c: Chronicle, credit: nat, deferred: seq<Bytes>, count: nat, sent: seq<nat>, later: seq<nat>) {
    && Faithful(c) && 1 in c.p.desk.streams
    && !c.p.desk.streams[1].localClosed && c.p.desk.streams[1].sendCredit == credit
    && c.p.desk.streams[1].pending == deferred
    && |c.told(1).writes| == count && c.told(1).sent == sent && c.told(1).deferred == later
  }

  lemma OpenStands(limits: H.Limits)
    requires limits.Valid()
    ensures Faithful(Begin(limits)) && Stands(Proceed(Begin(limits), BridgeOpen), INITIAL_WINDOW, [], 0, [], [])
  {
    hide Inv, Told, News;
    BeginIsFaithful(limits);
    ProceedKeeps(Begin(limits), BridgeOpen);
  }

  lemma WriteStands(c: Chronicle, bytes: Bytes, credit: nat, deferred: seq<Bytes>, count: nat, sent: seq<nat>,
                    later: seq<nat>)
    requires Stands(c, credit, deferred, count, sent, later) && |bytes| <= MAX_PAYLOAD
    ensures if |bytes| <= credit
            then Stands(Proceed(c, BridgeWrite(1, bytes)), credit - |bytes|, deferred, count + 1, sent + [count], later)
            else Stands(Proceed(c, BridgeWrite(1, bytes)), credit, deferred + [bytes], count + 1, sent, later + [count])
  {
    hide Inv, Told, News;
    ProceedKeeps(c, BridgeWrite(1, bytes));
  }

  lemma RunFirst(c: Chronicle, step: Step, rest: seq<Step>, id: U32)
    requires Faithful(c)
    ensures Faithful(Proceed(c, step)) && RunTold(c, [step] + rest) == RunTold(Proceed(c, step), rest)
    ensures Ever(Overtakes, c, [step] + rest, id)
            == (Overtakes(c.p.desk, step, id) || Ever(Overtakes, Proceed(c, step), rest, id))
    ensures Ever(ClosesEarly, c, [step] + rest, id)
            == (ClosesEarly(c.p.desk, step, id) || Ever(ClosesEarly, Proceed(c, step), rest, id))
  {
    hide Faithful, Proceed, Overtakes, ClosesEarly;
    FaithfulInv(c);
    ProceedKeeps(c, step);
    assert ([step] + rest)[1..] == rest;
  }

  /**
   Both failures are reached: from an open stream, a write of all but one byte of
   the window, a two-byte write that is deferred, and a one-byte write that goes
   out before it; a half-close instead of the last leaves the two bytes behind.
   */
  lemma WriteOvertakes(limits: H.Limits, big: Bytes, late: Bytes, quick: Bytes)
    requires limits.Valid() && |big| + 1 == INITIAL_WINDOW && |late| == 2 && |quick| == 1
    ensures Faithful(Begin(limits))
    ensures var start := [BridgeOpen] + ([BridgeWrite(1, big)] + ([BridgeWrite(1, late)] + [BridgeWrite(1, quick)]));
            var c := RunTold(Begin(limits), start);
            && c.told(1).sent == [0, 2] && c.told(1).deferred == [1] && Ever(Overtakes, Begin(limits), start, 1)
    ensures Ever(ClosesEarly, Begin(limits),
                 [BridgeOpen] + ([BridgeWrite(1, big)] + ([BridgeWrite(1, late)] + [BridgeClose(1)])), 1)
  {
    hide Faithful, Proceed, RunTold, Ever;
    var last, close := [BridgeWrite(1, quick)] + [], [BridgeClose(1)] + [];
    OpenStands(limits);
    var c0 := Begin(limits);
    RunFirst(c0, BridgeOpen, [BridgeWrite(1, big)] + ([BridgeWrite(1, late)] + last), 1);
    RunFirst(c0, BridgeOpen, [BridgeWrite(1, big)] + ([BridgeWrite(1, late)] + close), 1);
    var c1 := Proceed(c0, BridgeOpen);
    WriteStands(c1, big, INITIAL_WINDOW, [], 0, [], []);
    RunFirst(c1, BridgeWrite(1, big), [BridgeWrite(1, late)] + last, 1);
    RunFirst(c1, BridgeWrite(1, big), [BridgeWrite(1, late)] + close, 1);
    FaithfulInv(c1);
    var c2 := Proceed(c1, BridgeWrite(1, big));
    WriteStands(c2, late, 1, [], 1, [0], []);
    RunFirst(c2, BridgeWrite(1, late), last, 1);
    RunFirst(c2, BridgeWrite(1, late), close, 1);
    FaithfulInv(c2);
    var c3 := Proceed(c2, BridgeWrite(1, late));
    FaithfulInv(c3);
    WriteStands(c3, quick, 1, [late], 2, [0], [1]);
    RunFirst(c3, BridgeWrite(1, quick), [], 1);
    RunFirst(c3, BridgeClose(1), [], 1);
    RunNothing(Proceed(c3, BridgeWrite(1, quick)));
    assert last == [BridgeWrite(1, quick)] && close == [BridgeClose(1)];
  }

  lemma RunNothing(c: Chronicle)
    requires Faithful(c)
    ensures RunTold(c, []) == c
  {
  }
}
