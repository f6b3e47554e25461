/**
 The bridge driver's state read off its log, for any peer whatever: every frame it
 hears, every delivery it makes and every frame it queues, over every run of calls
 and frames. What becomes of each frame follows from numbers in the log.
 */
module BridgeLedger {
  import opened Outcomes
  import opened Wire
  import opened Flow
  import opened Bridge
  import opened DemuxIsolation
  import P = Responses
  import V = DemuxVerdicts

  // ------------------------------------------------------------ the log

  datatype Entry = Heard(frame: Frame) | In(item: Delivery) | Out(frame: Frame)

  type Log = seq<Entry>

  /** A stream as its log tells it: closes, and bytes each way with the credit for them. */
  datatype Life = Absent | Present(local: bool, peer: bool, granted: nat, got: nat, allowed: nat, sent: nat)

  function StreamOf(e: Entry): U32 {
    if e.In? then e.item.streamId else e.frame.streamId
  }

  function Advance(l: Life, e: Entry): Life {
    if l == Absent then
      if e.Out? && e.frame.flags == FLAG_OPEN then Present(false, false, 0, 0, 0, 0) else Absent
    else match e
         case Heard(f) =>
           if f.flags == FLAG_WINDOW && |f.payload| == 4 then l.(allowed := l.allowed + FromBe32(f.payload)) else l
         case In(Arrived(_, bytes)) => l.(got := l.got + |bytes|)
         case In(Ended(_, EndReset(_))) => Absent
         case In(Ended(_, EndClosed)) => if l.local then Absent else l.(peer := true)
         case Out(f) =>
           if f.flags == FLAG_DATA then l.(sent := l.sent + |f.payload|)
           else if f.flags == FLAG_WINDOW && |f.payload| == 4 then l.(granted := l.granted + FromBe32(f.payload))
           else if f.flags == FLAG_CLOSE then (if l.peer then Absent else l.(local := true))
           else if f.flags == FLAG_RESET then Absent
           else l
  }

  function LifeOf(log: Log, id: U32): Life {
    if log == [] then Absent
    else
      var e := log[|log| - 1];
      var before := LifeOf(log[..|log| - 1], id);
      if StreamOf(e) == id then Advance(before, e) else before
  }

  lemma Noted(log: Log, e: Entry, id: U32)
    ensures LifeOf(log + [e], id) == if StreamOf(e) == id then Advance(LifeOf(log, id), e) else LifeOf(log, id)
  {
    assert (log + [e])[..|log|] == log;
  }

  /** A live stream's flags and windows are what the log adds up to. */
  predicate Tells(l: Life, d: Desk, id: U32) {
    && (id in d.streams <==> l.Present?)
    && (l.Present? ==>
          var s := d.streams[id];
          && s.localClosed == l.local && s.peerClosed == l.peer
          && INITIAL_WINDOW + l.granted == s.window.credit + l.got
          && INITIAL_WINDOW + l.allowed == s.sendCredit + l.sent)
  }

  ghost predicate Told(log: Log, d: Desk) {
    forall id: U32 :: Tells(LifeOf(log, id), d, id)
  }

  /** What a step delivers and then what it queues. */
  function Ins(items: seq<Delivery>): Log {
    seq(|items|, i requires 0 <= i < |items| => In(items[i]))
  }

  function Outs(frames: seq<Frame>): Log {
    seq(|frames|, i requires 0 <= i < |frames| => Out(frames[i]))
  }

  function Entries(d: Desk, d': Desk): Log {
    Ins(Suffix(d.inbound, d'.inbound)) + Outs(Suffix(d.queue, d'.queue))
  }

  function Suffix<T>(a: seq<T>, b: seq<T>): seq<T> {
    if |a| <= |b| then b[|a|..] else []
  }

  predicate Grows(d: Desk, d': Desk) {
    d.inbound <= d'.inbound && d.queue <= d'.queue
  }

  ghost predicate Follows(log: Log, d: Desk, d': Desk) {
    Grows(d, d') && Told(log + Entries(d, d'), d')
  }

  lemma NoEntries(d: Desk, d': Desk)
    requires d'.inbound == d.inbound && d'.queue == d.queue
    ensures Entries(d, d') == []
  {
  }

  lemma OneIn(d: Desk, d': Desk, item: Delivery)
    requires d'.inbound == d.inbound + [item] && d'.queue == d.queue
    ensures Entries(d, d') == [In(item)]
  {
  }

  lemma OneOut(d: Desk, d': Desk, f: Frame)
    requires d'.inbound == d.inbound && d'.queue == d.queue + [f]
    ensures Entries(d, d') == [Out(f)]
  {
  }

  lemma OneEach(d: Desk, d': Desk, item: Delivery, f: Frame)
    requires d'.inbound == d.inbound + [item] && d'.queue == d.queue + [f]
    ensures Entries(d, d') == [In(item)] + [Out(f)]
  {
  }

  // ------------------------------------------------------------ calls

  /** A step that logs one entry of the stream it changes. */
  lemma FollowsOne(log: Log, d: Desk, d': Desk, e: Entry)
    requires Told(log, d)
    requires Grows(d, d') && Entries(d, d') == [e]
    requires forall k :: k != StreamOf(e) ==> (k in d'.streams <==> k in d.streams)
    requires forall k :: k != StreamOf(e) && k in d.streams ==> d'.streams[k] == d.streams[k]
    requires Tells(Advance(LifeOf(log, StreamOf(e)), e), d', StreamOf(e))
    ensures Follows(log, d, d')
  {
    hide LifeOf, Advance;
    forall id: U32 ensures Tells(LifeOf(log + [e], id), d', id) {
      assert Tells(LifeOf(log, id), d, id);
      Noted(log, e, id);
    }
  }

  lemma FollowsNothing(log: Log, d: Desk, d': Desk)
    requires Told(log, d) && d'.streams == d.streams && d'.inbound == d.inbound && d'.queue == d.queue
    ensures Follows(log, d, d')
  {
    hide LifeOf;
    NoEntries(d, d');
    assert log + [] == log;
    forall id: U32 ensures Tells(LifeOf(log, id), d', id) {
      assert Tells(LifeOf(log, id), d, id);
    }
  }

  lemma OpenFollows(log: Log, d: Desk)
    requires Told(log, d)
    ensures Follows(log, d, Open(d).0)
  {
    hide LifeOf;
    var id, d' := d.nextId, Open(d).0;
    assert Tells(LifeOf(log, id), d, id);
    if d.retired || id == 0 || id in d.streams {
      FollowsNothing(log, d, d');
    } else {
      OneOut(d, d', Frame(id, FLAG_OPEN, []));
      FollowsOne(log, d, d', Out(Frame(id, FLAG_OPEN, [])));
    }
  }

  /** A stream's own record changes without a trace. */
  lemma FollowsQuietly(log: Log, d: Desk, id: U32, s: Stream)
    requires Told(log, d) && id in d.streams
    requires var was := d.streams[id];
             && s.localClosed == was.localClosed && s.peerClosed == was.peerClosed
             && s.window.credit == was.window.credit && s.sendCredit == was.sendCredit
    ensures Follows(log, d, d.With(id, s)) && Told(log, d.With(id, s))
  {
    hide LifeOf;
    NoEntries(d, d.With(id, s));
    assert log + [] == log;
    forall k: U32 ensures Tells(LifeOf(log, k), d.With(id, s), k) {
      assert Tells(LifeOf(log, k), d, k);
    }
  }

  lemma WriteFollows(log: Log, d: Desk, id: U32, bytes: Bytes)
    requires Told(log, d) && Write(d, id, bytes).0.ok
    ensures Follows(log, d, Write(d, id, bytes).0.desk)
  {
    hide LifeOf;
    var d' := Write(d, id, bytes).0.desk;
    assert Tells(LifeOf(log, id), d, id);
    if id !in d.streams || d.streams[id].localClosed {
      FollowsNothing(log, d, d');
    } else if |bytes| > d.streams[id].sendCredit {
      FollowsQuietly(log, d, id, d'.streams[id]);
    } else {
      OneOut(d, d', Frame(id, FLAG_DATA, bytes));
      FollowsOne(log, d, d', Out(Frame(id, FLAG_DATA, bytes)));
    }
  }

  lemma ResetFollows(log: Log, d: Desk, id: U32, reason: Byte)
    requires Told(log, d)
    ensures Follows(log, d, ResetStream(d, id, reason))
  {
    hide LifeOf;
    var d' := ResetStream(d, id, reason);
    assert Tells(LifeOf(log, id), d, id);
    if id !in d.streams {
      FollowsNothing(log, d, d');
    } else {
      var item, f := Ended(id, EndReset(reason)), ResetFrame(id, reason);
      OneEach(d, d', item, f);
      assert log + ([In(item)] + [Out(f)]) == (log + [In(item)]) + [Out(f)];
      forall k: U32 ensures Tells(LifeOf(log + ([In(item)] + [Out(f)]), k), d', k) {
        assert Tells(LifeOf(log, k), d, k);
        Noted(log, In(item), k);
        Noted(log + [In(item)], Out(f), k);
      }
    }
  }

  lemma ConsumeFollows(log: Log, d: Desk, id: U32, count: nat)
    requires Told(log, d) && d.Valid()
    ensures Follows(log, d, Consume(d, id, count))
  {
    hide LifeOf, ResetStream;
    var d' := Consume(d, id, count);
    assert Tells(LifeOf(log, id), d, id);
    if id !in d.streams {
      FollowsNothing(log, d, d');
    } else if count > d.streams[id].unconsumed {
      ResetFollows(log, d, id, RESET_PROTOCOL_ERROR);
    } else {
      var (window, grant) := d.streams[id].window.Consume(count);
      if grant.Some? {
        Be32RoundTrip(grant.value);
        OneOut(d, d', WindowFrame(id, grant.value));
        FollowsOne(log, d, d', Out(WindowFrame(id, grant.value)));
      } else {
        FollowsQuietly(log, d, id, d'.streams[id]);
      }
    }
  }

  lemma CloseFollows(log: Log, d: Desk, id: U32)
    requires Told(log, d)
    ensures Follows(log, d, Close(d, id))
  {
    hide LifeOf;
    var d' := Close(d, id);
    assert Tells(LifeOf(log, id), d, id);
    if id !in d.streams || d.streams[id].localClosed {
      FollowsNothing(log, d, d');
    } else {
      OneOut(d, d', Frame(id, FLAG_CLOSE, []));
      FollowsOne(log, d, d', Out(Frame(id, FLAG_CLOSE, [])));
    }
  }

  // ------------------------------------------------------------ frames

  lemma ReceiveDataFollows(log: Log, d: Desk, f: Frame, taken: bool)
    requires Told(log, d) && f.streamId in d.streams
    ensures Follows(log, d, ReceiveData(d, f, taken).0)
  {
    hide LifeOf, ResetStream;
    var id, s := f.streamId, d.streams[f.streamId];
    var d' := ReceiveData(d, f, taken).0;
    assert Tells(LifeOf(log, id), d, id);
    if s.peerClosed || !s.window.Admits(|f.payload|) {
      ResetFollows(log, d, id, RESET_FLOW_CONTROL_ERROR);
    } else if taken {
      OneIn(d, d', Arrived(id, f.payload));
      FollowsOne(log, d, d', In(Arrived(id, f.payload)));
    } else {
      ResetFollows(log, d, id, RESET_CANCEL);
      SameReset(d, d.With(id, s.(window := s.window.Debit(|f.payload|), unconsumed := s.unconsumed + |f.payload|)),
                id, RESET_CANCEL);
    }
  }

  /** Resetting a stream forgets what else was changed in it. */
  lemma SameReset(d: Desk, d1: Desk, id: U32, reason: Byte)
    requires id in d.streams && id in d1.streams && d1 == d.With(id, d1.streams[id])
    ensures ResetStream(d1, id, reason) == ResetStream(d, id, reason)
  {
    assert d1.streams - {id} == d.streams - {id};
  }

  lemma ReceiveCloseFollows(log: Log, d: Desk, id: U32)
    requires Told(log, d) && id in d.streams
    ensures Follows(log, d, ReceiveClose(d, id))
  {
    hide LifeOf;
    var d' := ReceiveClose(d, id);
    assert Tells(LifeOf(log, id), d, id);
    OneIn(d, d', Ended(id, EndClosed));
    FollowsOne(log, d, d', In(Ended(id, EndClosed)));
  }

  lemma {:induction false} DrainFollows(log: Log, d: Desk, id: U32)
    requires Told(log, d) && DrainPending(d, id).ok
    ensures Follows(log, d, DrainPending(d, id).desk) && DrainPending(d, id).desk.inbound == d.inbound
    decreases if id in d.streams then |d.streams[id].pending| else 0
  {
    hide LifeOf, Told;
    if id !in d.streams || d.streams[id].pending == [] || |d.streams[id].pending[0]| > d.streams[id].sendCredit {
      FollowsNothing(log, d, d);
    } else {
      var s := d.streams[id];
      var bytes := s.pending[0];
      var f := Frame(id, FLAG_DATA, bytes);
      var d1 := d.With(id, s.Debit(|bytes|).(pending := s.pending[1..])).Queue(f);
      OneOut(d, d1, f);
      SentTold(log, d, d1, f);
      DrainFollows(log + [Out(f)], d1, id);
      var d' := DrainPending(d1, id).desk;
      JoinOuts(d, d1, d');
      assert (log + [Out(f)]) + Entries(d1, d') == log + ([Out(f)] + Entries(d1, d'));
    }
  }

  lemma SentTold(log: Log, d: Desk, d1: Desk, f: Frame)
    requires Told(log, d) && f.streamId in d.streams && f.flags == FLAG_DATA
    requires |f.payload| <= d.streams[f.streamId].sendCredit
    requires f.streamId in d1.streams && d1 == d.With(f.streamId, d1.streams[f.streamId]).Queue(f)
    requires var s, was := d1.streams[f.streamId], d.streams[f.streamId];
             && s.localClosed == was.localClosed && s.peerClosed == was.peerClosed
             && s.window.credit == was.window.credit && s.sendCredit == was.sendCredit - |f.payload|
    ensures Told(log + [Out(f)], d1)
  {
    hide LifeOf;
    assert Tells(LifeOf(log, f.streamId), d, f.streamId);
    OneOut(d, d1, f);
    FollowsOne(log, d, d1, Out(f));
  }

  lemma JoinOuts(d: Desk, d1: Desk, d': Desk)
    requires Grows(d, d1) && Grows(d1, d') && d1.inbound == d.inbound && d'.inbound == d.inbound
    ensures Entries(d, d') == Entries(d, d1) + Entries(d1, d')
  {
    assert d'.queue[|d.queue|..] == d1.queue[|d.queue|..] + d'.queue[|d1.queue|..];
  }

  lemma JoinIns(d: Desk, d1: Desk, d': Desk)
    requires Grows(d, d1) && Grows(d1, d') && d1.queue == d.queue && d'.queue == d.queue
    ensures Entries(d, d') == Entries(d, d1) + Entries(d1, d')
  {
    assert d'.inbound[|d.inbound|..] == d1.inbound[|d.inbound|..] + d'.inbound[|d1.inbound|..];
  }

  lemma HeardTold(log: Log, d: Desk, f: Frame)
    requires Told(log, d) && !(f.flags == FLAG_WINDOW && |f.payload| == 4 && f.streamId in d.streams)
    ensures Told(log + [Heard(f)], d)
  {
    hide LifeOf;
    forall id: U32 ensures Tells(LifeOf(log + [Heard(f)], id), d, id) {
      assert Tells(LifeOf(log, id), d, id);
      Noted(log, Heard(f), id);
    }
  }

  lemma GrantTold(log: Log, d: Desk, f: Frame, s: Stream)
    requires Told(log, d) && f.flags == FLAG_WINDOW && |f.payload| == 4 && f.streamId in d.streams
    requires s == d.streams[f.streamId].(sendCredit := d.streams[f.streamId].sendCredit + FromBe32(f.payload),
                                         creditFlag := true)
    ensures Told(log + [Heard(f)], d.With(f.streamId, s))
  {
    hide LifeOf;
    forall id: U32 ensures Tells(LifeOf(log + [Heard(f)], id), d.With(f.streamId, s), id) {
      assert Tells(LifeOf(log, id), d, id);
      Noted(log, Heard(f), id);
    }
  }

  lemma FromMiddle(log: Log, d: Desk, d1: Desk, d': Desk)
    requires d1.inbound == d.inbound && d1.queue == d.queue && Follows(log, d1, d')
    ensures Follows(log, d, d')
  {
  }

  lemma WindowFollows(log: Log, d: Desk, f: Frame)
    requires Told(log, d) && f.flags == FLAG_WINDOW && ReceiveWindow(d, f).ok
    ensures Follows(log + [Heard(f)], d, ReceiveWindow(d, f).desk)
  {
    hide LifeOf, ResetStream, DrainPending, Told, Follows;
    var id := f.streamId;
    if f.WindowCredit().None? {
      HeardTold(log, d, f);
      ResetFollows(log + [Heard(f)], d, id, RESET_PROTOCOL_ERROR);
    } else if id !in d.streams {
      HeardTold(log, d, f);
      FollowsNothing(log + [Heard(f)], d, d);
    } else {
      var s := d.streams[id];
      var more := s.(sendCredit := s.sendCredit + FromBe32(f.payload), creditFlag := true);
      GrantTold(log, d, f, more);
      var d1 := d.With(id, more);
      if AddCredit(s.sendCredit, f.WindowCredit().value).Some? {
        DrainFollows(log + [Heard(f)], d1, id);
        FromMiddle(log + [Heard(f)], d, d1, ReceiveWindow(d, f).desk);
      } else {
        ResetFollows(log + [Heard(f)], d1, id, RESET_FLOW_CONTROL_ERROR);
        SameReset(d, d1, id, RESET_FLOW_CONTROL_ERROR);
        FromMiddle(log + [Heard(f)], d, d1, ReceiveWindow(d, f).desk);
      }
    }
  }

  lemma PeerResetFollows(log: Log, d: Desk, id: U32, reason: Byte)
    requires Told(log, d) && id in d.streams
    ensures Follows(log, d, d.Without(id).Deliver(Ended(id, EndReset(reason))))
  {
    hide LifeOf;
    var d' := d.Without(id).Deliver(Ended(id, EndReset(reason)));
    assert Tells(LifeOf(log, id), d, id);
    OneIn(d, d', Ended(id, EndReset(reason)));
    FollowsOne(log, d, d', In(Ended(id, EndReset(reason))));
  }

  lemma PongFollows(log: Log, d: Desk, pong: Frame)
    requires Told(log, d) && pong.flags == FLAG_PONG
    ensures Follows(log, d, d.Queue(pong))
  {
    hide LifeOf;
    assert Tells(LifeOf(log, pong.streamId), d, pong.streamId);
    OneOut(d, d.Queue(pong), pong);
    FollowsOne(log, d, d.Queue(pong), Out(pong));
  }

  lemma DataThenCloseFollows(log: Log, d: Desk, f: Frame, taken: bool)
    requires Told(log, d) && f.streamId in d.streams && CarriesData(f.flags)
    ensures var (d1, live) := ReceiveData(d, f, taken);
            Follows(log, d, if live && Closes(f.flags) && f.streamId in d1.streams
                            then ReceiveClose(d1, f.streamId) else d1)
  {
    hide LifeOf, Told, ResetStream;
    var (d1, live) := ReceiveData(d, f, taken);
    ReceiveDataFollows(log, d, f, taken);
    if live && Closes(f.flags) && f.streamId in d1.streams {
      ReceiveCloseFollows(log + Entries(d, d1), d1, f.streamId);
      var d2 := ReceiveClose(d1, f.streamId);
      JoinIns(d, d1, d2);
      assert log + (Entries(d, d1) + Entries(d1, d2)) == (log + Entries(d, d1)) + Entries(d1, d2);
    }
  }

  lemma ReceiveFollows(log: Log, d: Desk, f: Frame, taken: bool)
    requires Told(log, d) && Receive(d, f, taken).ok && 0 !in d.streams
    ensures Follows(log + [Heard(f)], d, Receive(d, f, taken).desk)
  {
    hide LifeOf, Told, ResetStream, ReceiveWindow, ReceiveData, ReceiveClose, Follows;
    var id, l := f.streamId, log + [Heard(f)];
    if f.flags == FLAG_WINDOW && id != 0 {
      WindowFollows(log, d, f);
    } else if id == 0 {
      ControlFollows(log, d, f, taken);
    } else {
      HeardTold(log, d, f);
      if !FlagsValid(f.flags) || Opens(f.flags) {
        ResetFollows(l, d, id, RESET_PROTOCOL_ERROR);
      } else if id !in d.streams {
        FollowsNothing(l, d, d);
      } else if Resets(f.flags) {
        PeerResetFollows(l, d, id, ReasonOf(f));
      } else if CarriesData(f.flags) {
        DataThenCloseFollows(l, d, f, taken);
      } else if Closes(f.flags) {
        ReceiveCloseFollows(l, d, id);
      } else {
        FollowsNothing(l, d, d);
      }
    }
  }

  /** Stream zero is never opened. */
  lemma ControlFollows(log: Log, d: Desk, f: Frame, taken: bool)
    requires Told(log, d) && f.streamId == 0 && 0 !in d.streams
    ensures Follows(log + [Heard(f)], d, Receive(d, f, taken).desk)
  {
    hide LifeOf, Told, Follows;
    HeardTold(log, d, f);
    if f.ControlPong().Some? {
      PongFollows(log + [Heard(f)], d, f.ControlPong().value);
    } else {
      FollowsNothing(log + [Heard(f)], d, d);
    }
  }

  // ------------------------------------------------------------ stream zero

  /** No stream appears but under a nonzero identifier, and nothing is queued on stream zero. */
  predicate Nonzero(d: Desk, d': Desk) {
    && 0 !in d'.streams && d.queue <= d'.queue
    && forall i :: |d.queue| <= i < |d'.queue| ==> d'.queue[i].streamId != 0
  }

  lemma CallsNonzero(d: Desk, id: U32, bytes: Bytes, reason: Byte)
    requires 0 !in d.streams
    ensures Nonzero(d, Open(d).0) && Nonzero(d, Write(d, id, bytes).0.desk)
    ensures Nonzero(d, Close(d, id)) && Nonzero(d, ResetStream(d, id, reason))
  {
  }

  lemma ConsumeNonzero(d: Desk, id: U32, count: nat)
    requires 0 !in d.streams && d.Valid()
    ensures Nonzero(d, Consume(d, id, count))
  {
  }

  lemma {:induction false} DrainNonzero(d: Desk, id: U32)
    requires 0 !in d.streams
    ensures Nonzero(d, DrainPending(d, id).desk)
    decreases if id in d.streams then |d.streams[id].pending| else 0
  {
    if id in d.streams && d.streams[id].pending != [] && |d.streams[id].pending[0]| <= d.streams[id].sendCredit {
      var s := d.streams[id];
      var f := Frame(id, FLAG_DATA, s.pending[0]);
      DrainNonzero(d.With(id, s.Debit(|s.pending[0]|).(pending := s.pending[1..])).Queue(f), id);
    }
  }

  lemma WindowNonzero(d: Desk, f: Frame)
    requires 0 !in d.streams
    ensures Nonzero(d, ReceiveWindow(d, f).desk)
  {
    hide DrainPending;
    if f.WindowCredit().Some? && f.streamId in d.streams {
      var s := d.streams[f.streamId];
      var next := AddCredit(s.sendCredit, f.WindowCredit().value);
      if next.Some? {
        DrainNonzero(d.With(f.streamId, s.(sendCredit := next.value, creditFlag := true)), f.streamId);
      }
    }
  }

  lemma DataNonzero(d: Desk, f: Frame, taken: bool)
    requires 0 !in d.streams && f.streamId in d.streams
    ensures Nonzero(d, ReceiveData(d, f, taken).0)
  {
  }

  lemma ReceiveNonzero(d: Desk, f: Frame, taken: bool)
    requires 0 !in d.streams && f.streamId != 0
    ensures Nonzero(d, Receive(d, f, taken).desk)
  {
    hide ReceiveWindow, ReceiveData, ResetStream;
    WindowNonzero(d, f);
    CallsNonzero(d, f.streamId, [], RESET_PROTOCOL_ERROR);
    if f.streamId in d.streams {
      DataNonzero(d, f, taken);
    }
  }

  /** The PONGs queued are those due to the PINGs heard. */
  predicate Answers(queue: seq<Frame>, log: Log) {
    Filter(queue, FrameOf(0)) == P.PongsFor(V.NoncesOf(Heards(log), FLAG_PING))
  }

  function HeardOf(e: Entry): seq<Frame> {
    if e.Heard? then [e.frame] else []
  }

  function Heards(log: Log): seq<Frame> {
    if log == [] then [] else HeardOf(log[0]) + Heards(log[1..])
  }

  lemma HeardsFirst(log: Log)
    requires log != []
    ensures Heards(log) == HeardOf(log[0]) + Heards(log[1..])
  {
  }

  lemma {:induction false} HeardsAppend(a: Log, b: Log)
    ensures Heards(a + b) == Heards(a) + Heards(b)
  {
    if a == [] {
      assert a + b == b;
    } else {
      hide Heards, HeardOf;
      var all := a + b;
      assert all[1..] == a[1..] + b && all[0] == a[0];
      HeardsAppend(a[1..], b);
      HeardsFirst(a);
      HeardsFirst(all);
      assert HeardOf(a[0]) + (Heards(a[1..]) + Heards(b)) == (HeardOf(a[0]) + Heards(a[1..])) + Heards(b);
    }
  }

  lemma {:induction false} HeardsNone(log: Log)
    requires forall i :: 0 <= i < |log| ==> !log[i].Heard?
    ensures Heards(log) == []
  {
    if log != [] {
      HeardsNone(log[1..]);
    }
  }

  lemma HeardsStep(log: Log, heard: Log, d: Desk, d': Desk)
    ensures Heards(log + heard + Entries(d, d')) == Heards(log) + Heards(heard)
  {
    HeardsAppend(log + heard, Entries(d, d'));
    HeardsAppend(log, heard);
    HeardsNone(Entries(d, d'));
  }

  lemma {:induction false} NoncesAppend(a: seq<Frame>, b: seq<Frame>, flag: Byte)
    ensures V.NoncesOf(a + b, flag) == V.NoncesOf(a, flag) + V.NoncesOf(b, flag)
  {
    if a == [] {
      assert a + b == b;
    } else {
      hide V.NoncesOf;
      var all := a + b;
      assert all[1..] == a[1..] + b && all[0] == a[0];
      NoncesAppend(a[1..], b, flag);
      V.NoncesFirst(a, flag);
      V.NoncesFirst(all, flag);
      var one, rest, more := V.NoncesOf([a[0]], flag), V.NoncesOf(a[1..], flag), V.NoncesOf(b, flag);
      assert one + (rest + more) == (one + rest) + more;
    }
  }

  lemma NonzeroFilter(d: Desk, d': Desk)
    requires Nonzero(d, d')
    ensures Filter(d'.queue, FrameOf(0)) == Filter(d.queue, FrameOf(0))
  {
    var more := d'.queue[|d.queue|..];
    assert d'.queue == d.queue + more;
    FilterAppend(d.queue, more, FrameOf(0));
    FilterAll(more, FrameOf(0), false);
  }

  // ------------------------------------------------------------ runs

  datatype Call =
    | DoOpen
    | DoRetire
    | DoWrite(id: U32, bytes: Bytes)
    | DoConsume(id: U32, count: nat)
    | DoClose(id: U32)
    | DoReset(id: U32, reason: Byte)
    | DoReceive(frame: Frame, taken: bool)

  /** Not ok is a carrier being torn down: nothing more happens. */
  datatype World = World(desk: Desk, ok: bool, log: Log)

  const START := World(Desk(1, map[], false, [], []), true, [])

  function Perform(d: Desk, c: Call): Move
    requires d.Valid()
  {
    match c
    case DoOpen => Move(Open(d).0, true)
    case DoRetire => Move(Retire(d), true)
    case DoWrite(id, bytes) => Write(d, id, bytes).0
    case DoConsume(id, count) => Move(Consume(d, id, count), true)
    case DoClose(id) => Move(Close(d, id), true)
    case DoReset(id, reason) => Move(ResetStream(d, id, reason), true)
    case DoReceive(f, taken) => Receive(d, f, taken)
  }

  function HeardIn(c: Call): Log {
    if c.DoReceive? then [Heard(c.frame)] else []
  }

  function Act(w: World, c: Call): World
    requires w.desk.Valid()
  {
    if !w.ok then w
    else
      var m := Perform(w.desk, c);
      World(m.desk, m.ok, w.log + HeardIn(c) + Entries(w.desk, m.desk))
  }

  ghost predicate Inv(w: World) {
    w.desk.Valid() && 0 !in w.desk.streams && (w.ok ==> Told(w.log, w.desk) && Answers(w.desk.queue, w.log))
  }

  lemma PerformValid(d: Desk, c: Call)
    requires d.Valid()
    ensures Perform(d, c).desk.Valid()
  {
    hide Open, Write, Consume, Close, ResetStream, Receive;
    match c
    case DoOpen => OpenValid(d);
    case DoRetire =>
    case DoWrite(id, bytes) => WriteValid(d, id, bytes);
    case DoConsume(id, count) => ConsumeValid(d, id, count);
    case DoClose(id) => EndsValid(d, id, 0);
    case DoReset(id, reason) => EndsValid(d, id, reason);
    case DoReceive(f, taken) => ReceiveValid(d, f, taken);
  }

  lemma PerformFollows(log: Log, d: Desk, c: Call)
    requires d.Valid() && Told(log, d) && 0 !in d.streams && Perform(d, c).ok
    ensures Follows(log + HeardIn(c), d, Perform(d, c).desk)
  {
    hide Open, Write, Consume, Close, ResetStream, Receive, Told, Follows;
    assert log + [] == log;
    match c
    case DoOpen => OpenFollows(log, d);
    case DoRetire => FollowsNothing(log, d, Retire(d));
    case DoWrite(id, bytes) => WriteFollows(log, d, id, bytes);
    case DoConsume(id, count) => ConsumeFollows(log, d, id, count);
    case DoClose(id) => CloseFollows(log, d, id);
    case DoReset(id, reason) => ResetFollows(log, d, id, reason);
    case DoReceive(f, taken) => ReceiveFollows(log, d, f, taken);
  }

  lemma PerformNonzero(d: Desk, c: Call)
    requires d.Valid() && 0 !in d.streams
    ensures 0 !in Perform(d, c).desk.streams
    ensures !(c.DoReceive? && c.frame.streamId == 0) ==> Nonzero(d, Perform(d, c).desk)
  {
    hide Open, Write, Consume, Close, ResetStream;
    match c
    case DoOpen => CallsNonzero(d, 0, [], 0);
    case DoRetire =>
    case DoWrite(id, bytes) => CallsNonzero(d, id, bytes, 0);
    case DoConsume(id, count) => ConsumeNonzero(d, id, count);
    case DoClose(id) => CallsNonzero(d, id, [], 0);
    case DoReset(id, reason) => CallsNonzero(d, id, [], reason);
    case DoReceive(f, taken) =>
      if f.streamId != 0 {
        ReceiveNonzero(d, f, taken);
      }
  }

  lemma PerformAnswers(log: Log, d: Desk, c: Call)
    requires d.Valid() && 0 !in d.streams && Answers(d.queue, log)
    ensures Answers(Perform(d, c).desk.queue, log + HeardIn(c) + Entries(d, Perform(d, c).desk))
  {
    hide Perform, Filter, V.NoncesOf, P.PongsFor, Heards;
    var d' := Perform(d, c).desk;
    HeardsStep(log, HeardIn(c), d, d');
    NoncesAppend(Heards(log), Heards(HeardIn(c)), FLAG_PING);
    PerformNonzero(d, c);
    if c.DoReceive? {
      OneHeard(c.frame);
      V.OneNonce(c.frame, FLAG_PING);
      if c.frame.streamId == 0 {
        PongIsQueued(log, d, c.frame, c.taken);
      } else {
        NonzeroFilter(d, d');
        assert V.NoncesOf(Heards(log), FLAG_PING) + [] == V.NoncesOf(Heards(log), FLAG_PING);
      }
    } else {
      NonzeroFilter(d, d');
      NothingHeard();
      assert V.NoncesOf(Heards(log), FLAG_PING) + [] == V.NoncesOf(Heards(log), FLAG_PING);
    }
  }

  lemma NothingHeard()
    ensures Heards([]) == [] && V.NoncesOf([], FLAG_PING) == []
  {
  }

  lemma OneHeard(f: Frame)
    ensures Heards([Heard(f)]) == [f]
  {
    var one: Log := [Heard(f)];
    assert one[1..] == [];
  }

  lemma PongIsQueued(log: Log, d: Desk, f: Frame, taken: bool)
    requires f.streamId == 0 && Answers(d.queue, log)
    requires d.Valid()
    ensures Filter(Perform(d, DoReceive(f, taken)).desk.queue, FrameOf(0))
            == P.PongsFor(V.NoncesOf(Heards(log), FLAG_PING) + if V.IsControl(f, FLAG_PING) then [f.payload] else [])
  {
    hide Filter, V.NoncesOf, Heards;
    var nonces := V.NoncesOf(Heards(log), FLAG_PING);
    if V.IsControl(f, FLAG_PING) {
      EmitAppended(d.queue, Frame(0, FLAG_PONG, f.payload), 0);
      assert P.PongsFor(nonces + [f.payload]) == P.PongsFor(nonces) + [Frame(0, FLAG_PONG, f.payload)];
    } else {
      assert nonces + [] == nonces;
    }
  }

  lemma ActKeeps(w: World, c: Call)
    requires Inv(w)
    ensures Inv(Act(w, c))
  {
    hide Perform, Told, Answers, Entries;
    if w.ok {
      PerformValid(w.desk, c);
      PerformNonzero(w.desk, c);
      PerformAnswers(w.log, w.desk, c);
      if Perform(w.desk, c).ok {
        PerformFollows(w.log, w.desk, c);
      }
    }
  }

  function Run(w: World, calls: seq<Call>): World
    requires w.desk.Valid()
    decreases |calls|
  {
    if calls == [] then w
    else
      PerformValid(w.desk, calls[0]);
      Run(Act(w, calls[0]), calls[1..])
  }

  lemma {:induction false} RunKeeps(w: World, calls: seq<Call>)
    requires Inv(w)
    ensures Inv(Run(w, calls))
    decreases |calls|
  {
    hide Act, Told, Answers;
    if calls != [] {
      ActKeeps(w, calls[0]);
      RunKeeps(Act(w, calls[0]), calls[1..]);
    }
  }

  lemma StartKeeps()
    ensures Inv(START)
  {
  }

  /**
   Over every run against any peer, while the carrier is up: a stream is there exactly
   if the log says so; its half-closes are those in the log; 2^20 and the WINDOWs
   queued for it are its receive window and the bytes handed to its reader; 2^20 and
   the WINDOWs heard are its send credit and the DATA bytes queued; and the PONGs
   queued are those due to the PINGs heard, in order, with nothing else on stream zero.
   */
  lemma LogTellsDesk(calls: seq<Call>, id: U32)
    ensures var w := Run(START, calls);
            w.ok ==>
              && Tells(LifeOf(w.log, id), w.desk, id)
              && Filter(w.desk.queue, FrameOf(0)) == P.PongsFor(V.NoncesOf(Heards(w.log), FLAG_PING))
  {
    hide LifeOf, Run, Filter, Heards;
    StartKeeps();
    RunKeeps(START, calls);
  }

  // ------------------------------------------------------------ each frame

  /** Frames a peer may send on a stream it did not open; PING and PONG there are ignored. */
  predicate Proper(f: Frame) {
    V.Proper(f) || f.flags == FLAG_PING || f.flags == FLAG_PONG
  }

  /** The reset a frame brings a stream, by what its log adds up to. */
  function ResetDue(l: Life, f: Frame, taken: bool): Option<Byte>
    requires l.Present?
  {
    if !Proper(f) then Some(RESET_PROTOCOL_ERROR)
    else if f.flags == FLAG_WINDOW && INITIAL_WINDOW + l.allowed - l.sent + FromBe32(f.payload) > MAX_SEND_CREDIT
    then Some(RESET_FLOW_CONTROL_ERROR)
    else if V.IsData(f) && (l.peer || |f.payload| > INITIAL_WINDOW + l.granted - l.got)
    then Some(RESET_FLOW_CONTROL_ERROR)
    else if V.IsData(f) && !taken then Some(RESET_CANCEL)
    else None
  }

  /** What a frame that is not refused hands the reader. */
  function Handed(f: Frame): seq<Delivery> {
    var id := f.streamId;
    (if V.IsData(f) then [Arrived(id, f.payload)] else [])
    + (if f.flags == FLAG_CLOSE || f.flags == FLAG_DATA + FLAG_CLOSE then [Ended(id, EndClosed)] else [])
    + (if f.flags == FLAG_RESET
       then [Ended(id, EndReset(if f.payload == [] then RESET_UNSPECIFIED else f.payload[0]))] else [])
  }

  /** What becomes of a frame on a stream with this log. */
  predicate Judged(d: Desk, l: Life, f: Frame, taken: bool, m: Move) {
    if l == Absent then m == Move(d, true)
    else match ResetDue(l, f, taken)
         case Some(code) =>
           && f.streamId !in m.desk.streams
           && m.desk.inbound == d.inbound + [Ended(f.streamId, EndReset(code))]
           && m.desk.queue == d.queue + [ResetFrame(f.streamId, code)]
         case None =>
           && m.desk.inbound == d.inbound + Handed(f)
           && (f.flags != FLAG_WINDOW ==> m.desk.queue == d.queue)
           && (f.flags == FLAG_WINDOW ==>
                 && d.queue <= m.desk.queue
                 && forall i :: |d.queue| <= i < |m.desk.queue| ==>
                      m.desk.queue[i].streamId == f.streamId && m.desk.queue[i].flags == FLAG_DATA)
  }

  /**
   After every run, for any frame on any stream: if the stream is not there nothing
   happens. If a reset is due, the reader is told and the RESET with that code is all
   that is queued. Otherwise the reader is handed what the frame holds, and only a
   WINDOW has anything queued, namely deferred writes.
   */
  lemma EveryFrameIsJudged(calls: seq<Call>, f: Frame, taken: bool)
    requires Run(START, calls).ok && f.streamId != 0
    ensures var w := Run(START, calls);
            Judged(w.desk, LifeOf(w.log, f.streamId), f, taken, Receive(w.desk, f, taken))
  {
    hide LifeOf, Run, Filter, Heards, Receive, Judged;
    LogTellsDesk(calls, f.streamId);
    var w := Run(START, calls);
    FrameIsJudged(w.desk, LifeOf(w.log, f.streamId), f, taken);
  }

  lemma FrameIsJudged(d: Desk, l: Life, f: Frame, taken: bool)
    requires Tells(l, d, f.streamId) && f.streamId != 0
    ensures Judged(d, l, f, taken, Receive(d, f, taken))
  {
    hide Receive, Judged;
    if l == Absent {
      AbsentJudged(d, l, f, taken);
    } else if f.flags == FLAG_WINDOW {
      WindowJudged(d, l, f, taken);
    } else if V.IsData(f) {
      DataJudged(d, l, f, taken);
    } else {
      OtherJudged(d, l, f, taken);
    }
  }

  lemma AbsentJudged(d: Desk, l: Life, f: Frame, taken: bool)
    requires Tells(l, d, f.streamId) && f.streamId != 0 && l == Absent
    ensures Judged(d, l, f, taken, Receive(d, f, taken))
  {
    hide DrainPending;
  }

  lemma OtherJudged(d: Desk, l: Life, f: Frame, taken: bool)
    requires Tells(l, d, f.streamId) && f.streamId != 0 && l.Present? && f.flags != FLAG_WINDOW && !V.IsData(f)
    ensures Judged(d, l, f, taken, Receive(d, f, taken))
  {
    hide DrainPending, ReceiveData;
  }

  lemma DataJudged(d: Desk, l: Life, f: Frame, taken: bool)
    requires Tells(l, d, f.streamId) && f.streamId != 0 && l.Present? && V.IsData(f)
    ensures Judged(d, l, f, taken, Receive(d, f, taken))
  {
    hide DrainPending, ReceiveWindow;
    assert d.inbound + [Arrived(f.streamId, f.payload)] + [Ended(f.streamId, EndClosed)]
           == d.inbound + [Arrived(f.streamId, f.payload), Ended(f.streamId, EndClosed)];
  }

  lemma WindowJudged(d: Desk, l: Life, f: Frame, taken: bool)
    requires Tells(l, d, f.streamId) && f.streamId != 0 && l.Present? && f.flags == FLAG_WINDOW
    ensures Judged(d, l, f, taken, Receive(d, f, taken))
  {
    hide DrainPending, ReceiveData;
    if |f.payload| == 4 {
      var s := d.streams[f.streamId];
      DrainSends(d.With(f.streamId, s.(sendCredit := s.sendCredit + FromBe32(f.payload), creditFlag := true)),
                 f.streamId);
    }
  }

  lemma {:induction false} DrainSends(d: Desk, id: U32)
    ensures var d' := DrainPending(d, id).desk;
            && d'.inbound == d.inbound && d'.nextId == d.nextId && d'.retired == d.retired && d.queue <= d'.queue
            && forall i :: |d.queue| <= i < |d'.queue| ==>
                 d'.queue[i].streamId == id && d'.queue[i].flags == FLAG_DATA
    decreases if id in d.streams then |d.streams[id].pending| else 0
  {
    if id in d.streams && d.streams[id].pending != [] && |d.streams[id].pending[0]| <= d.streams[id].sendCredit {
      var s := d.streams[id];
      var f := Frame(id, FLAG_DATA, s.pending[0]);
      DrainSends(d.With(id, s.Debit(|s.pending[0]|).(pending := s.pending[1..])).Queue(f), id);
    }
  }

  // ------------------------------------------------------------ opening

  /** Identifiers drawn by the calls: one for each open before retirement. */
  function Draws(calls: seq<Call>, retired: bool): nat
    decreases |calls|
  {
    if calls == [] || retired then 0
    else (if calls[0].DoOpen? then 1 else 0) + Draws(calls[1..], calls[0].DoRetire?)
  }

  lemma PerformDraws(d: Desk, c: Call)
    requires d.Valid()
    ensures var d' := Perform(d, c).desk;
            && d'.retired == (d.retired || c.DoRetire?)
            && d'.nextId == if c.DoOpen? && !d.retired then NextId(d.nextId) else d.nextId
  {
    hide DrainPending;
    if c.DoReceive? && c.frame.WindowCredit().Some? && c.frame.streamId in d.streams {
      var s := d.streams[c.frame.streamId];
      var next := AddCredit(s.sendCredit, c.frame.WindowCredit().value);
      if next.Some? {
        DrainSends(d.With(c.frame.streamId, s.(sendCredit := next.value, creditFlag := true)), c.frame.streamId);
      }
    }
  }

  lemma {:induction false} RunDraws(w: World, calls: seq<Call>, n: nat)
    requires w.desk.Valid() && w.desk.nextId == NthId(n) && Run(w, calls).ok
    ensures var d := Run(w, calls).desk;
            && d.retired == (w.desk.retired || DoRetire in calls)
            && d.nextId == NthId(n + Draws(calls, w.desk.retired))
    ensures w.ok
    decreases |calls|
  {
    hide Perform, NthId;
    if calls != [] {
      var c := calls[0];
      PerformValid(w.desk, c);
      PerformDraws(w.desk, c);
      StaysDown(Act(w, c), calls[1..]);
      NextNth(n);
      RunDraws(Act(w, c), calls[1..], if c.DoOpen? && !w.desk.retired then n + 1 else n);
    }
  }

  lemma NextNth(n: nat)
    ensures NthId(n + 1) == NextId(NthId(n))
  {
  }

  lemma {:induction false} StaysDown(w: World, calls: seq<Call>)
    requires w.desk.Valid()
    ensures Run(w, calls).ok ==> w.ok
    decreases |calls|
  {
    hide Perform;
    if calls != [] {
      PerformValid(w.desk, calls[0]);
      StaysDown(Act(w, calls[0]), calls[1..]);
    }
  }

  /**
   After every run an open is refused exactly if the carrier was retired, or if the
   identifier drawn, the next odd one, is that of a stream still there; otherwise its
   OPEN is queued and the stream starts with a full window each way.
   */
  lemma OpensAreDecided(calls: seq<Call>)
    requires Run(START, calls).ok
    ensures var w := Run(START, calls);
            var id := NthId(Draws(calls, false));
            var (d', r) := Open(w.desk);
            && (r == Err(Retired) <==> DoRetire in calls)
            && (DoRetire !in calls ==>
                  if LifeOf(w.log, id).Present? then r == Err(StreamIdExhausted)
                  else r == Ok(id) && d'.queue == w.desk.queue + [Frame(id, FLAG_OPEN, [])]
                       && id in d'.streams && d'.streams[id] == NEW_STREAM)
  {
    hide LifeOf, Run, Filter, Heards, NthId, Draws;
    var id := NthId(Draws(calls, false));
    StartsFirst();
    RunDraws(START, calls, 0);
    LogTellsDesk(calls, id);
    DialerIdsRepeatIff(Draws(calls, false), 0);
  }

  lemma StartsFirst()
    ensures START.desk.nextId == NthId(0)
  {
  }

  // ------------------------------------------------------------ writing

  /**
   After every run a write is rejected exactly if its stream is not there or is closed
   here, deferred exactly if it exceeds 2^20 and the credit heard less the bytes sent,
   and otherwise queued whole; one too long for a frame ends the carrier instead.
   */
  lemma WritesAreDecided(calls: seq<Call>, id: U32, bytes: Bytes)
    requires Run(START, calls).ok
    ensures var w := Run(START, calls);
            var l := LifeOf(w.log, id);
            var (m, reply) := Write(w.desk, id, bytes);
            if l == Absent || l.local then m == Move(w.desk, true) && reply == Rejected(StreamClosed)
            else if |bytes| > INITIAL_WINDOW + l.allowed - l.sent then
              && m.ok && reply == Deferred && m.desk.queue == w.desk.queue
              && m.desk.streams[id] == w.desk.streams[id].(pending := w.desk.streams[id].pending + [bytes])
            else if |bytes| <= 0xff_ffff then
              m.ok && reply == Accepted && m.desk.queue == w.desk.queue + [Frame(id, FLAG_DATA, bytes)]
            else !m.ok && reply == Rejected(ConnectionClosed) && m.desk.queue == w.desk.queue
  {
    hide LifeOf, Run, Filter, Heards;
    LogTellsDesk(calls, id);
  }

  // ------------------------------------------------------------ what is queued can be sent

  lemma {:induction false} DrainEncodes(d: Desk, id: U32)
    requires AllEncodable(d.queue)
    ensures AllEncodable(DrainPending(d, id).desk.queue)
    decreases if id in d.streams then |d.streams[id].pending| else 0
  {
    if id in d.streams && d.streams[id].pending != [] && |d.streams[id].pending[0]| <= d.streams[id].sendCredit {
      var s := d.streams[id];
      var f := Frame(id, FLAG_DATA, s.pending[0]);
      if f.Encodable() {
        DrainEncodes(d.With(id, s.Debit(|s.pending[0]|).(pending := s.pending[1..])).Queue(f), id);
      }
    }
  }

  lemma ReceiveEncodes(d: Desk, f: Frame, taken: bool)
    requires AllEncodable(d.queue)
    ensures AllEncodable(Receive(d, f, taken).desk.queue)
  {
    hide DrainPending;
    if f.streamId in d.streams && f.WindowCredit().Some? {
      var s := d.streams[f.streamId];
      var next := AddCredit(s.sendCredit, f.WindowCredit().value);
      if next.Some? {
        DrainEncodes(d.With(f.streamId, s.(sendCredit := next.value, creditFlag := true)), f.streamId);
      }
    }
  }

  lemma PerformEncodes(d: Desk, c: Call)
    requires d.Valid() && AllEncodable(d.queue)
    ensures AllEncodable(Perform(d, c).desk.queue)
  {
    hide Receive;
    if c.DoReceive? {
      ReceiveEncodes(d, c.frame, c.taken);
    }
  }

  /** Over every run, whatever is queued fits a frame, even as the carrier goes down. */
  lemma {:induction false} QueueIsEncodable(w: World, calls: seq<Call>)
    requires w.desk.Valid() && AllEncodable(w.desk.queue)
    ensures AllEncodable(Run(w, calls).desk.queue)
    decreases |calls|
  {
    hide Perform;
    if calls != [] {
      PerformValid(w.desk, calls[0]);
      PerformEncodes(w.desk, calls[0]);
      QueueIsEncodable(Act(w, calls[0]), calls[1..]);
    }
  }
}
