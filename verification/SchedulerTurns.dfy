/**
 The write scheduler one stream at a time: what each turn, flush and command does
 to a stream's bytes, staging and place on the ready queue, and that every other
 stream is left alone.
 */
module SchedulerTurns {
  import opened Outcomes
  import opened Wire
  import opened Flow
  import opened Scheduler
  import L = Listener
  import R = ListenerRuns
  import G = ListenerGrammar

  // ------------------------------------------------------------ projections

  /** DATA bytes on the wire for one stream. */
  function SentBytes(frames: seq<Frame>, id: U32): Bytes {
    if frames == [] then []
    else
      var f := frames[|frames| - 1];
      SentBytes(frames[..|frames| - 1], id) + if f.streamId == id && f.flags == FLAG_DATA then f.payload else []
  }

  /** CLOSE frames on the wire for one stream. */
  function CloseCount(frames: seq<Frame>, id: U32): nat {
    if frames == [] then 0
    else
      var f := frames[|frames| - 1];
      CloseCount(frames[..|frames| - 1], id) + if f.streamId == id && f.flags == FLAG_CLOSE then 1 else 0
  }

  /** A DATA frame follows a CLOSE of the same stream. */
  predicate Late(frames: seq<Frame>, id: U32) {
    frames != [] &&
    var f := frames[|frames| - 1];
    var init := frames[..|frames| - 1];
    Late(init, id) || (f.streamId == id && f.flags == FLAG_DATA && CloseCount(init, id) > 0)
  }

  lemma FrameAppended(frames: seq<Frame>, f: Frame, id: U32)
    ensures SentBytes(frames + [f], id)
            == SentBytes(frames, id) + if f.streamId == id && f.flags == FLAG_DATA then f.payload else []
    ensures CloseCount(frames + [f], id)
            == CloseCount(frames, id) + if f.streamId == id && f.flags == FLAG_CLOSE then 1 else 0
    ensures Late(frames + [f], id)
            == (Late(frames, id) || (f.streamId == id && f.flags == FLAG_DATA && CloseCount(frames, id) > 0))
  {
    assert (frames + [f])[..|frames|] == frames;
  }

  /** A frame that neither carries data for a stream nor closes it. */
  lemma QuietFrame(frames: seq<Frame>, f: Frame, id: U32)
    requires f.streamId != id || (f.flags != FLAG_DATA && f.flags != FLAG_CLOSE)
    ensures SentBytes(frames + [f], id) == SentBytes(frames, id)
    ensures CloseCount(frames + [f], id) == CloseCount(frames, id)
    ensures Late(frames + [f], id) == Late(frames, id)
  {
    FrameAppended(frames, f, id);
    assert SentBytes(frames, id) + [] == SentBytes(frames, id);
  }

  /** Bytes of one stream in queued write commands. */
  function Queued(commands: seq<Command>, id: U32): Bytes {
    if commands == [] then []
    else (if commands[0].Write? && commands[0].streamId == id then commands[0].bytes else [])
         + Queued(commands[1..], id)
  }

  /** A command after which a stream's handle writes no more. */
  predicate Fence(c: Command, id: U32) {
    (c.Close? || c.Cancel? || c.ResetStream?) && c.streamId == id
  }

  predicate Fenced(commands: seq<Command>, id: U32) {
    commands != [] && (Fence(commands[0], id) || Fenced(commands[1..], id))
  }

  /** Writes are nonempty and never behind a fence. */
  predicate Orderly(commands: seq<Command>, id: U32) {
    commands == [] || (
      && (commands[0].Write? && commands[0].streamId == id ==> commands[0].bytes != [])
      && (Fence(commands[0], id) ==> Queued(commands[1..], id) == [])
      && Orderly(commands[1..], id))
  }

  lemma {:induction false} QueuedAppended(commands: seq<Command>, c: Command, id: U32)
    ensures Queued(commands + [c], id) == Queued(commands, id) + if c.Write? && c.streamId == id then c.bytes else []
    decreases |commands|
  {
    var all := commands + [c];
    if commands == [] {
      assert all == [c] && all[1..] == commands && Queued(all[1..], id) == [];
    } else {
      assert all[0] == commands[0] && all[1..] == commands[1..] + [c];
      QueuedAppended(commands[1..], c, id);
    }
  }

  lemma {:induction false} FencedAppended(commands: seq<Command>, c: Command, id: U32)
    ensures Fenced(commands + [c], id) == (Fenced(commands, id) || Fence(c, id))
    decreases |commands|
  {
    hide Fence;
    var all := commands + [c];
    if commands == [] {
      assert all == [c] && all[1..] == commands;
    } else {
      assert all[0] == commands[0] && all[1..] == commands[1..] + [c];
      FencedAppended(commands[1..], c, id);
    }
  }

  lemma {:induction false} CommandAppended(commands: seq<Command>, c: Command, id: U32)
    ensures Queued(commands + [c], id) == Queued(commands, id) + if c.Write? && c.streamId == id then c.bytes else []
    ensures Fenced(commands + [c], id) == (Fenced(commands, id) || Fence(c, id))
    ensures Orderly(commands, id) && (c.Write? && c.streamId == id ==> c.bytes != [] && !Fenced(commands, id))
            ==> Orderly(commands + [c], id)
    decreases |commands|
  {
    hide Queued, Fence;
    QueuedAppended(commands, c, id);
    FencedAppended(commands, c, id);
    var all := commands + [c];
    if commands == [] {
      assert all == [c] && all[1..] == commands;
      NothingQueued(id);
    } else {
      assert all[0] == commands[0] && all[1..] == commands[1..] + [c];
      CommandAppended(commands[1..], c, id);
    }
  }

  lemma NothingQueued(id: U32)
    ensures Queued([], id) == []
  {
  }

  /** A command that is not a write or a fence of this stream. */
  lemma QuietCommand(commands: seq<Command>, c: Command, id: U32)
    requires c.Write? || c.Close? || c.Cancel? || c.ResetStream? ==> c.streamId != id
    ensures Queued(commands + [c], id) == Queued(commands, id)
    ensures Fenced(commands + [c], id) == Fenced(commands, id)
    ensures Orderly(commands, id) ==> Orderly(commands + [c], id)
  {
    CommandAppended(commands, c, id);
    assert Queued(commands, id) + [] == Queued(commands, id);
  }

  // ------------------------------------------------------------ one stream

  /** The driver, with what the application has been told it wrote and closed. */
  datatype World = World(d: Driver, accepted: map<U32, Bytes>, shut: set<U32>)

  function Get(m: map<U32, Bytes>, id: U32): Bytes {
    if id in m then m[id] else []
  }

  datatype Side = Side(localClosed: bool, credit: nat)

  /** Everything about one stream that scheduling depends on. */
  datatype View = View(
    mux: Option<Side>,
    live: Option<bool>,
    staged: nat,
    sent: Bytes,
    closes: nat,
    late: bool,
    pend: Option<Bytes>,
    isReady: bool,
    closing: bool,
    queued: Bytes,
    fenced: bool,
    orderly: bool,
    accepted: Bytes,
    shut: bool)
  {
    function Pending(): Bytes {
      if pend.Some? then pend.value else []
    }

    /** Bytes staged once the pending queue is dropped. */
    function Freed(): nat {
      if live.None? || pend.None? then staged else if |pend.value| > staged then 0 else staged - |pend.value|
    }
  }

  function SideOf(mux: L.Mux, id: U32): Option<Side> {
    if id in mux.streams then Some(Side(mux.streams[id].localClosed, mux.streams[id].sendCredit)) else None
  }

  function ViewOf(w: World, id: U32): View {
    var d := w.d;
    View(
      SideOf(d.ear.mux, id),
      if id in d.streams then Some(d.streams[id].live) else None,
      if id in d.streams then d.streams[id].staged else 0,
      SentBytes(d.log.frames, id),
      CloseCount(d.log.frames, id),
      Late(d.log.frames, id),
      if id in d.pending then Some(d.pending[id]) else None,
      id in d.ready,
      id in d.closing,
      Queued(d.commands, id),
      Fenced(d.commands, id),
      Orderly(d.commands, id),
      Get(w.accepted, id),
      id in w.shut)
  }

  /** Nothing has happened on this stream. */
  predicate Blank(v: View) {
    && v.mux.None? && v.staged == 0 && v.sent == [] && v.closes == 0 && !v.late
    && v.pend.None? && !v.isReady && !v.closing
    && v.queued == [] && !v.fenced && v.accepted == [] && !v.shut
  }

  /** Order: what was written is sent, pending or queued, in that order. */
  predicate InOrder(v: View) {
    && (v.mux.Some? ==> v.sent + v.Pending() + v.queued == v.accepted)
    && v.sent <= v.accepted
  }

  /** At most one CLOSE, only when every accepted byte has been sent, and no DATA after it. */
  predicate ClosedLast(v: View) {
    && !v.late
    && (v.closes > 0 ==>
          && v.closes == 1 && v.sent == v.accepted && v.shut && v.pend.None? && v.queued == []
          && (v.mux.Some? ==> v.mux.value.localClosed))
    && (v.mux.Some? && v.mux.value.localClosed ==> v.closes == 1)
  }

  /** A stream that could make progress is on the ready queue. */
  predicate Scheduled(v: View) {
    && (v.mux.Some? && v.pend.Some? ==> v.isReady || |Chunk(v.pend.value)| > v.mux.value.credit)
    && (v.mux.Some? && v.closing ==> v.isReady || v.pend.Some?)
  }

  predicate Tidy(v: View) {
    && v.orderly
    && (v.mux.Some? ==> v.live == Some(true))
    && (v.live.None? ==> Blank(v))
    && (v.live == Some(true) && v.mux.None? ==> v.shut && v.pend.None? && v.queued == [])
    && v.staged == |v.Pending()| + |v.queued| <= MAX_STAGED
    && v.pend != Some([])
    && (v.closing ==> v.shut && v.queued == [])
    && (v.fenced ==> v.shut)
    && (v.mux.Some? && v.shut ==> v.fenced || v.closing || v.mux.value.localClosed)
  }

  predicate Sound(v: View) {
    Tidy(v) && InOrder(v) && ClosedLast(v) && Scheduled(v)
  }

  // ------------------------------------------------------------ primitives

  predicate NoDuplicates(ready: seq<U32>) {
    forall i, j :: 0 <= i < j < |ready| ==> ready[i] != ready[j]
  }

  lemma {:induction false} WithoutMembers(ready: seq<U32>, k: U32, id: U32)
    ensures id in Without(ready, k) <==> id in ready && id != k
  {
    if ready != [] {
      WithoutMembers(ready[1..], k, id);
      assert ready == [ready[0]] + ready[1..];
    }
  }

  lemma {:induction false} WithoutKeepsDistinct(ready: seq<U32>, k: U32)
    requires NoDuplicates(ready)
    ensures NoDuplicates(Without(ready, k)) && |Without(ready, k)| <= |ready|
  {
    if ready != [] {
      WithoutKeepsDistinct(ready[1..], k);
      var rest := Without(ready[1..], k);
      forall i | 0 <= i < |rest| ensures rest[i] != ready[0] {
        WithoutMembers(ready[1..], k, rest[i]);
        assert rest[i] in ready[1..];
      }
    }
  }

  lemma DiscardView(w: World, k: U32, id: U32)
    ensures var v := ViewOf(w, id);
            ViewOf(w.(d := Discard(w.d, k)), id) ==
            if id != k then v
            else v.(pend := None, isReady := false, closing := false, staged := v.Freed())
  {
    hide SentBytes, CloseCount, Late, Queued, Fenced, Orderly, Without;
    WithoutMembers(w.d.ready, k, id);
  }

  /** A frame written with a new mux state. */
  lemma WrittenView(w: World, mux: L.Mux, f: Frame, id: U32)
    ensures var v := ViewOf(w, id);
            ViewOf(w.(d := Written(w.d, mux, [f])), id) ==
            v.(mux := SideOf(mux, id),
               sent := v.sent + if f.streamId == id && f.flags == FLAG_DATA then f.payload else [],
               closes := v.closes + if f.streamId == id && f.flags == FLAG_CLOSE then 1 else 0,
               late := v.late || (f.streamId == id && f.flags == FLAG_DATA && v.closes > 0))
  {
    hide SentBytes, CloseCount, Late, Queued, Fenced, Orderly, SideOf;
    FrameAppended(w.d.log.frames, f, id);
  }

  /** A frame that is neither DATA nor CLOSE of this stream. */
  lemma QuietView(w: World, mux: L.Mux, f: Frame, id: U32)
    requires f.streamId != id || (f.flags != FLAG_DATA && f.flags != FLAG_CLOSE)
    ensures ViewOf(w.(d := Written(w.d, mux, [f])), id) == ViewOf(w, id).(mux := SideOf(mux, id))
  {
    hide SentBytes, CloseCount, Late, Queued, Fenced, Orderly, SideOf;
    QuietFrame(w.d.log.frames, f, id);
  }

  lemma CloseFrameView(w: World, mux: L.Mux, id: U32)
    ensures var v := ViewOf(w, id);
            ViewOf(w.(d := Written(w.d, mux, [Frame(id, FLAG_CLOSE, [])])), id)
            == v.(mux := SideOf(mux, id), closes := v.closes + 1)
  {
    hide ViewOf, SideOf;
    WrittenView(w, mux, Frame(id, FLAG_CLOSE, []), id);
    assert ViewOf(w, id).sent + [] == ViewOf(w, id).sent;
  }

  lemma CloseSides(mux: L.Mux, k: U32, id: U32)
    ensures var side := SideOf(mux, k);
            L.CloseWrite(mux, k).Ok? <==> side.Some? && !side.value.localClosed
    ensures L.CloseWrite(mux, k).Ok? ==>
              var (mux', f) := L.CloseWrite(mux, k).value;
              && f == Frame(k, FLAG_CLOSE, [])
              && (id != k ==> SideOf(mux', id) == SideOf(mux, id))
              && (id == k ==>
                    SideOf(mux', id).None? || SideOf(mux', id) == Some(SideOf(mux, id).value.(localClosed := true)))
  {
  }

  function NotClosing(w: World, k: U32): World {
    w.(d := w.d.(closing := w.d.closing - {k}))
  }

  lemma NotClosingView(w: World, k: U32, id: U32)
    ensures ViewOf(NotClosing(w, k), id) == if id == k then ViewOf(w, id).(closing := false) else ViewOf(w, id)
  {
    hide SentBytes, CloseCount, Late, Queued, Fenced, Orderly, SideOf;
  }

  /** Half-closing changes the mux side and puts one CLOSE on the wire. */
  lemma CloseView(w: World, k: U32, id: U32)
    requires k in w.d.closing
    ensures var v := ViewOf(w, id);
            var v' := ViewOf(w.(d := CloseIfAsked(w.d, k)), id);
            if id != k then v' == v
            else if v.mux.Some? && !v.mux.value.localClosed then
              && v'.(mux := None) == v.(closing := false, closes := v.closes + 1, mux := None)
              && (v'.mux.Some? ==> v'.mux.value == v.mux.value.(localClosed := true))
            else v' == v.(closing := false)
  {
    hide ViewOf, SideOf, L.CloseWrite, Written;
    var v := ViewOf(w, id);
    assert v.mux == SideOf(w.d.ear.mux, id) by { MuxOf(w, id); }
    CloseSides(w.d.ear.mux, k, id);
    NotClosingView(w, k, id);
    var closed := L.CloseWrite(w.d.ear.mux, k);
    if closed.Ok? {
      if id == k {
        CloseFrameView(NotClosing(w, k), closed.value.0, id);
      } else {
        QuietView(NotClosing(w, k), closed.value.0, closed.value.1, id);
      }
    }
  }

  lemma MuxOf(w: World, id: U32)
    ensures ViewOf(w, id).mux == SideOf(w.d.ear.mux, id)
  {
  }

  // ------------------------------------------------------------ one turn

  /** All but scheduling, which a stream just taken off the queue is owed. */
  predicate SoundButScheduling(v: View) {
    Tidy(v) && InOrder(v) && ClosedLast(v)
  }

  lemma DiscardOk(w: World, k: U32)
    requires SoundButScheduling(ViewOf(w, k)) && (ViewOf(w, k).live == Some(false) || ViewOf(w, k).mux.None?)
    ensures Sound(ViewOf(w.(d := Discard(w.d, k)), k))
  {
    hide ViewOf, Discard;
    DiscardView(w, k, k);
  }

  lemma CloseOk(w: World, k: U32)
    requires SoundButScheduling(ViewOf(w, k)) && ViewOf(w, k).pend.None?
    ensures Sound(ViewOf(w.(d := CloseIfAsked(w.d, k)), k))
  {
    hide ViewOf;
    var v := ViewOf(w, k);
    if k in w.d.closing {
      CloseView(w, k, k);
      hide CloseIfAsked;
      assert v.closing by { Closing(w, k); }
      if v.mux.Some? {
        assert v.sent + [] + [] == v.accepted;
      }
    } else {
      Closing(w, k);
    }
  }

  lemma Closing(w: World, k: U32)
    ensures ViewOf(w, k).closing == (k in w.d.closing)
  {
  }

  lemma TrySides(mux: L.Mux, k: U32, chunk: Bytes, id: U32)
    requires |chunk| <= RECOMMENDED_CHUNK
    ensures var side := SideOf(mux, k);
            var r := L.TrySend(mux, k, chunk);
            && (r.Ok? <==> side.Some? && !side.value.localClosed)
            && (r.Ok? ==> (r.value.1.Some? <==> |chunk| <= side.value.credit))
            && (r.Ok? && r.value.1.Some? ==>
                  && r.value.1.value == Frame(k, FLAG_DATA, chunk)
                  && (id != k ==> SideOf(r.value.0, id) == SideOf(mux, id))
                  && (id == k ==> SideOf(r.value.0, id) == Some(Side(false, side.value.credit - |chunk|))))
  {
  }

  /** The streams part and the queue part of a chunk leaving. */
  function AfterChunk(w: World, k: U32, chunk: Bytes, rest: Bytes): World {
    w.(d := w.d.(streams := Release(w.d.streams, k, |chunk|),
                 pending := if rest == [] then w.d.pending - {k} else w.d.pending[k := rest],
                 ready := if rest == [] then w.d.ready else w.d.ready + [k]))
  }

  lemma AfterChunkView(w: World, k: U32, chunk: Bytes, rest: Bytes, id: U32)
    requires k in w.d.streams && |chunk| <= w.d.streams[k].staged
    ensures var v := ViewOf(w, id);
            ViewOf(AfterChunk(w, k, chunk, rest), id) ==
            if id != k then v
            else v.(staged := v.staged - |chunk|, pend := if rest == [] then None else Some(rest),
                    isReady := v.isReady || rest != [])
  {
    hide SentBytes, CloseCount, Late, Queued, Fenced, Orderly, SideOf;
  }

  /** A sent chunk: order and accounting move with it. */
  lemma SentView(w: World, k: U32, chunk: Bytes, id: U32)
    requires k in w.d.pending && chunk <= w.d.pending[k] && |chunk| <= RECOMMENDED_CHUNK
    requires k in w.d.streams && |chunk| <= w.d.streams[k].staged
    requires L.TrySend(w.d.ear.mux, k, chunk).Ok? && L.TrySend(w.d.ear.mux, k, chunk).value.1.Some?
    ensures var v := ViewOf(w, id);
            var rest := w.d.pending[k][|chunk|..];
            var (mux, f) := L.TrySend(w.d.ear.mux, k, chunk).value;
            var w' := AfterChunk(w.(d := Written(w.d, mux, [f.value])), k, chunk, rest);
            && f.value == Frame(k, FLAG_DATA, chunk)
            && Sent(w.d, k, mux, f.value) == (if rest == [] then CloseIfAsked(w'.d, k) else w'.d)
            && ViewOf(w', id) ==
               if id != k then v
               else v.(staged := v.staged - |chunk|, pend := if rest == [] then None else Some(rest),
                       isReady := v.isReady || rest != [],
                       mux := Some(Side(false, SideOf(w.d.ear.mux, k).value.credit - |chunk|)),
                       sent := v.sent + chunk, late := v.late || v.closes > 0)
  {
    hide ViewOf, SideOf, L.TrySend;
    TrySides(w.d.ear.mux, k, chunk, id);
    MuxOf(w, id);
    var (mux, f) := L.TrySend(w.d.ear.mux, k, chunk).value;
    WrittenView(w, mux, f.value, id);
    AfterChunkView(w.(d := Written(w.d, mux, [f.value])), k, chunk, w.d.pending[k][|chunk|..], id);
    assert ViewOf(w, id).sent + [] == ViewOf(w, id).sent;
  }

  lemma Fields(w: World, k: U32)
    ensures var v := ViewOf(w, k);
            && v.mux == SideOf(w.d.ear.mux, k)
            && v.pend == (if k in w.d.pending then Some(w.d.pending[k]) else None)
            && v.live == (if k in w.d.streams then Some(w.d.streams[k].live) else None)
            && v.staged == (if k in w.d.streams then w.d.streams[k].staged else 0)
            && v.isReady == (k in w.d.ready)
            && v.closing == (k in w.d.closing)
  {
  }

  lemma SentInOrder(v: View, chunk: Bytes, rest: Bytes, v': View)
    requires SoundButScheduling(v) && v.mux.Some? && v.pend.Some? && v.pend.value == chunk + rest
             && |chunk| <= v.mux.value.credit
    requires v' == v.(staged := v.staged - |chunk|, pend := if rest == [] then None else Some(rest),
                      isReady := v.isReady || rest != [],
                      mux := Some(Side(false, v.mux.value.credit - |chunk|)),
                      sent := v.sent + chunk, late := v.late || v.closes > 0)
    requires !v.mux.value.localClosed
    ensures SoundButScheduling(v') && (rest != [] ==> Sound(v'))
  {
    var after := if rest == [] then [] else rest;
    assert (v.sent + chunk) + after + v.queued == v.sent + (chunk + rest) + v.queued;
    assert v.sent + chunk <= v.accepted;
  }

  lemma SentOk(w: World, k: U32)
    requires SoundButScheduling(ViewOf(w, k)) && ViewOf(w, k).live == Some(true)
    requires k in w.d.pending && w.d.pending[k] != []
    requires L.TrySend(w.d.ear.mux, k, Chunk(w.d.pending[k])).Ok?
    requires L.TrySend(w.d.ear.mux, k, Chunk(w.d.pending[k])).value.1.Some?
    ensures Sound(ViewOf(w.(d := Serve(w.d, k).0), k)) && Serve(w.d, k).1
  {
    hide ViewOf, SideOf, L.TrySend, Chunk, Sent, CloseIfAsked, Discard;
    var chunk := Chunk(w.d.pending[k]);
    var rest := w.d.pending[k][|chunk|..];
    assert w.d.pending[k] == chunk + rest;
    Fields(w, k);
    TrySides(w.d.ear.mux, k, chunk, k);
    SentView(w, k, chunk, k);
    var (mux, f) := L.TrySend(w.d.ear.mux, k, chunk).value;
    var w' := AfterChunk(w.(d := Written(w.d, mux, [f.value])), k, chunk, rest);
    SentInOrder(ViewOf(w, k), chunk, rest, ViewOf(w', k));
    if rest == [] {
      CloseOk(w', k);
    }
  }

  // ------------------------------------------------------------ the mux underneath

  /** A status exists for every opened stream and is live until its reset. */
  predicate Consistent(streams: Statuses, events: seq<L.Event>) {
    forall id: U32 ::
      && (id in streams <==> R.PhaseOf(events, id) != R.Unopened)
      && (id in streams ==> (streams[id].live <==> R.PhaseOf(events, id) != R.Ended))
  }

  predicate Base(d: Driver) {
    && R.WorldInv(R.World(d.ear, d.log))
    && d.log.writable == []
    && Consistent(d.streams, d.log.events)
  }

  lemma ReleaseBase(d: Driver, d': Driver, k: U32, n: nat)
    requires Base(d) && d'.ear == d.ear && d'.log == d.log && d'.streams == Release(d.streams, k, n)
    ensures Base(d')
  {
    hide R.WorldInv, R.PhaseOf;
  }

  lemma DiscardBase(d: Driver, k: U32)
    requires Base(d)
    ensures Base(Discard(d, k))
  {
    hide Base;
    if k in d.pending {
      ReleaseBase(d, Discard(d, k), k, |d.pending[k]|);
    } else {
      SameBase(d, Discard(d, k));
    }
  }

  lemma SameBase(d: Driver, d': Driver)
    requires Base(d) && d'.ear == d.ear && d'.log == d.log && d'.streams == d.streams
    ensures Base(d')
  {
  }

  lemma BaseValid(d: Driver)
    requires Base(d)
    ensures d.ear.mux.Valid()
  {
  }

  lemma CloseBase(d: Driver, k: U32)
    requires Base(d)
    ensures Base(CloseIfAsked(d, k))
  {
    hide R.WorldInv, Consistent, L.CloseWrite;
    BaseValid(d);
    R.ActKeeps(R.World(d.ear, d.log), R.ClosedWrite(k));
  }

  lemma SendBase(d: Driver, k: U32, chunk: Bytes)
    requires Base(d) && L.TrySend(d.ear.mux, k, chunk).Ok? && L.TrySend(d.ear.mux, k, chunk).value.1.Some?
    ensures var (mux, f) := L.TrySend(d.ear.mux, k, chunk).value;
            Base(Written(d, mux, [f.value]))
  {
    hide R.WorldInv, Consistent, L.TrySend;
    BaseValid(d);
    R.ActKeeps(R.World(d.ear, d.log), R.Sent(k, chunk));
  }

  lemma ServeBase(d: Driver, k: U32)
    requires Base(d)
    ensures Base(Serve(d, k).0)
  {
    hide Base, L.TrySend, CloseIfAsked, Discard, Chunk;
    DiscardBase(d, k);
    CloseBase(d, k);
    if k in d.pending {
      var chunk := Chunk(d.pending[k]);
      var trimmed := d.(pending := d.pending[k := d.pending[k][|chunk|..]]);
      SameBase(d, trimmed);
      DiscardBase(trimmed, k);
      SameBase(d, d.(pending := d.pending - {k}));
      CloseBase(d.(pending := d.pending - {k}), k);
      var r := L.TrySend(d.ear.mux, k, chunk);
      if r.Ok? && r.value.1.Some? {
        SendBase(d, k, chunk);
        TrySides(d.ear.mux, k, chunk, k);
        var d' := Written(d, r.value.0, [r.value.1.value]);
        var rest := d.pending[k][|chunk|..];
        var d'' := d'.(streams := Release(d.streams, k, |chunk|));
        ReleaseBase(d', d'', k, |chunk|);
        SameBase(d'', d''.(pending := d.pending - {k}));
        CloseBase(d''.(pending := d.pending - {k}), k);
        SameBase(d'', d''.(pending := d.pending[k := rest], ready := d.ready + [k]));
      }
    }
  }

  // ------------------------------------------------------------ serving

  predicate AllSound(w: World) {
    forall id: U32 :: Sound(ViewOf(w, id))
  }

  /** A turn taken by one stream leaves every other stream as it was. */
  lemma ServeOthers(w: World, k: U32, id: U32)
    requires id != k && SoundButScheduling(ViewOf(w, k))
    ensures ViewOf(w.(d := Serve(w.d, k).0), id) == ViewOf(w, id)
  {
    hide ViewOf, SideOf, L.TrySend, Chunk, Sent, CloseIfAsked, Discard, InOrder, ClosedLast;
    Fields(w, k);
    DiscardView(w, k, id);
    CloseOthers(w, k, id);
    if k in w.d.pending {
      var chunk := Chunk(w.d.pending[k]);
      var rest := w.d.pending[k][|chunk|..];
      var trimmed := w.(d := w.d.(pending := w.d.pending[k := rest]));
      QueueOthers(w, k, trimmed, id);
      DiscardView(trimmed, k, id);
      TrySides(w.d.ear.mux, k, chunk, id);
      var r := L.TrySend(w.d.ear.mux, k, chunk);
      if w.d.streams[k].live && r.Ok? && r.value.1.Some? {
        SentView(w, k, chunk, id);
        CloseOthers(AfterChunk(w.(d := Written(w.d, r.value.0, [r.value.1.value])), k, chunk, rest), k, id);
      }
    }
  }

  lemma CloseOthers(w: World, k: U32, id: U32)
    requires id != k
    ensures ViewOf(w.(d := CloseIfAsked(w.d, k)), id) == ViewOf(w, id)
  {
    hide ViewOf;
    if k in w.d.closing {
      CloseView(w, k, id);
    }
  }

  lemma QueueOthers(w: World, k: U32, w': World, id: U32)
    requires id != k && k in w.d.pending && w' == w.(d := w.d.(pending := w'.d.pending))
    requires w'.d.pending - {k} == w.d.pending - {k}
    ensures ViewOf(w', id) == ViewOf(w, id)
  {
    hide SentBytes, CloseCount, Late, Queued, Fenced, Orderly, SideOf;
    assert id in w'.d.pending <==> id in w'.d.pending - {k};
    assert id in w.d.pending <==> id in w.d.pending - {k};
    assert id in w.d.pending ==> w.d.pending[id] == (w.d.pending - {k})[id];
    assert id in w'.d.pending ==> w'.d.pending[id] == (w'.d.pending - {k})[id];
  }

  lemma ServeOk(w: World, k: U32)
    requires SoundButScheduling(ViewOf(w, k))
    ensures Sound(ViewOf(w.(d := Serve(w.d, k).0), k))
  {
    hide ViewOf, SideOf, L.TrySend, Sent, CloseIfAsked, Discard, InOrder, ClosedLast;
    Fields(w, k);
    var v := ViewOf(w, k);
    if k in w.d.streams && !w.d.streams[k].live {
      DiscardOk(w, k);
    } else if k !in w.d.pending {
      CloseOk(w, k);
    } else {
      var chunk := Chunk(w.d.pending[k]);
      TrySides(w.d.ear.mux, k, chunk, k);
      var r := L.TrySend(w.d.ear.mux, k, chunk);
      if r.Ok? && r.value.1.Some? {
        SentOk(w, k);
      } else {
        BlockedOk(v);
      }
    }
  }

  /** A stream with bytes pending can be sent to, so only credit can stop it. */
  lemma BlockedOk(v: View)
    requires SoundButScheduling(v) && v.pend.Some? && v.live == Some(true)
    requires v.mux.Some? && !v.mux.value.localClosed ==> |Chunk(v.pend.value)| > v.mux.value.credit
    ensures v.mux.Some? && !v.mux.value.localClosed && Sound(v)
  {
  }

  // ------------------------------------------------------------ flushing

  lemma PopView(w: World, id: U32)
    requires w.d.ready != [] && NoDuplicates(w.d.ready)
    ensures ViewOf(w.(d := w.d.(ready := w.d.ready[1..])), id) ==
            if id == w.d.ready[0] then ViewOf(w, id).(isReady := false) else ViewOf(w, id)
  {
    hide SentBytes, CloseCount, Late, Queued, Fenced, Orderly, SideOf;
    assert w.d.ready == [w.d.ready[0]] + w.d.ready[1..];
  }

  lemma ServeReady(d: Driver, k: U32)
    requires NoDuplicates(d.ready) && k !in d.ready
    ensures var (d', sent) := Serve(d, k);
            && NoDuplicates(d'.ready)
            && |d'.ready| <= |d.ready| + (if sent then 1 else 0)
            && d'.commands == d.commands && d'.stopped == d.stopped
  {
    hide L.TrySend, L.CloseWrite, Chunk;
    WithoutKeepsDistinct(d.ready, k);
  }

  predicate Core(w: World) {
    Base(w.d) && NoDuplicates(w.d.ready) && AllSound(w)
  }

  lemma TurnCore(w: World)
    requires Core(w) && w.d.ready != []
    ensures var (d', sent) := Serve(w.d.(ready := w.d.ready[1..]), w.d.ready[0]);
            && Core(w.(d := d'))
            && |d'.ready| <= |w.d.ready| - (if sent then 0 else 1)
            && d'.commands == w.d.commands && d'.stopped == w.d.stopped
  {
    hide ViewOf, Serve, Base;
    var k := w.d.ready[0];
    var popped := w.(d := w.d.(ready := w.d.ready[1..]));
    SameBase(w.d, popped.d);
    ServeBase(popped.d, k);
    ServeReady(popped.d, k);
    PopView(w, k);
    Fields(w, k);
    assert Sound(ViewOf(w, k));
    ServeOk(popped, k);
    forall id: U32 | id != k ensures Sound(ViewOf(popped.(d := Serve(popped.d, k).0), id)) {
      PopView(w, id);
      ServeOthers(popped, k, id);
      assert Sound(ViewOf(w, id));
    }
  }

  lemma {:induction false} RoundsCore(w: World, n: nat, progress: bool)
    requires Core(w) && (!progress ==> |w.d.ready| <= n)
    ensures var (d', p) := Rounds(w.d, n, progress);
            && Core(w.(d := d')) && (!p ==> d'.ready == [])
            && d'.commands == w.d.commands && d'.stopped == w.d.stopped
    decreases n
  {
    hide Core, Serve;
    if n > 0 && w.d.ready != [] {
      TurnCore(w);
      var (d', sent) := Serve(w.d.(ready := w.d.ready[1..]), w.d.ready[0]);
      RoundsCore(w.(d := d'), n - 1, progress || sent);
    }
  }

  /** At a park, work left on the ready queue has a wake-up in the command queue. */
  predicate Parked(w: World) {
    && Core(w)
    && (w.d.ready != [] ==> Wake in w.d.commands)
  }

  lemma QuietCommandView(w: World, c: Command, id: U32)
    requires c.Wake? || c.Consumed? || c.CloseConnection?
    ensures var v' := ViewOf(w.(d := w.d.(commands := w.d.commands + [c])), id);
            var v := ViewOf(w, id);
            v' == v.(orderly := v'.orderly) && (v.orderly ==> v'.orderly)
  {
    hide SentBytes, CloseCount, Late, Queued, Fenced, Orderly, SideOf;
    QuietCommand(w.d.commands, c, id);
  }

  lemma QuietCommandCore(w: World, c: Command)
    requires Core(w) && (c.Wake? || c.Consumed? || c.CloseConnection?)
    ensures Core(w.(d := w.d.(commands := w.d.commands + [c])))
  {
    hide ViewOf, Base;
    SameBase(w.d, w.d.(commands := w.d.commands + [c]));
    forall id: U32 ensures Sound(ViewOf(w.(d := w.d.(commands := w.d.commands + [c])), id)) {
      assert Sound(ViewOf(w, id));
      QuietCommandView(w, c, id);
    }
  }

  lemma FlushParks(w: World)
    requires Core(w)
    ensures Parked(w.(d := Flush(w.d)))
  {
    hide Core, Rounds;
    RoundsCore(w, |w.d.ready|, false);
    var (d', p) := Rounds(w.d, |w.d.ready|, false);
    if p && d'.ready != [] {
      QuietCommandCore(w.(d := d'), Wake);
    }
  }

  // ------------------------------------------------------------ commands

  /** The world once the front command has been received. */
  function Received(w: World): World
    requires w.d.commands != []
  {
    w.(d := w.d.(commands := w.d.commands[1..]))
  }

  lemma ReceivedView(w: World, id: U32)
    requires w.d.commands != []
    ensures var c := w.d.commands[0];
            var v, v' := ViewOf(w, id), ViewOf(Received(w), id);
            && v' == v.(queued := v'.queued, fenced := v'.fenced, orderly := v'.orderly)
            && v.queued == (if c.Write? && c.streamId == id then c.bytes else []) + v'.queued
            && (v.fenced <==> Fence(c, id) || v'.fenced)
            && (v.orderly ==> v'.orderly && (Fence(c, id) ==> v'.queued == [])
                              && (c.Write? && c.streamId == id ==> c.bytes != []))
  {
    hide SentBytes, CloseCount, Late, SideOf;
  }

  /** Receiving a command that is not this stream's leaves it alone. */
  lemma ReceivedOther(w: World, id: U32)
    requires w.d.commands != [] && Sound(ViewOf(w, id))
    requires var c := w.d.commands[0]; c.Write? || c.Close? || c.Cancel? || c.ResetStream? ==> c.streamId != id
    ensures Sound(ViewOf(Received(w), id))
  {
    hide ViewOf;
    ReceivedView(w, id);
    assert ViewOf(Received(w), id).queued == ViewOf(w, id).queued;
  }

  function Queue(w: World, k: U32, bytes: Bytes): World {
    w.(d := w.d.(pending := w.d.pending[k := (if k in w.d.pending then w.d.pending[k] else []) + bytes],
                 ready := Push(w.d.ready, k)))
  }

  lemma QueueView(w: World, k: U32, bytes: Bytes, id: U32)
    ensures var v := ViewOf(w, id);
            ViewOf(Queue(w, k, bytes), id) ==
            if id == k then v.(pend := Some(v.Pending() + bytes), isReady := true) else v
  {
    hide SentBytes, CloseCount, Late, Queued, Fenced, Orderly, SideOf;
  }

  lemma PushDistinct(ready: seq<U32>, k: U32)
    requires NoDuplicates(ready)
    ensures NoDuplicates(Push(ready, k))
  {
  }

  lemma WriteOk(v: View, bytes: Bytes, v': View)
    requires Sound(v) && v'.orderly && bytes != [] && v.queued == bytes + v'.queued && v'.fenced == v.fenced
    requires v' == v.(queued := v'.queued, fenced := v'.fenced, orderly := v'.orderly)
    ensures Sound(v'.(pend := Some(v'.Pending() + bytes), isReady := true))
  {
    assert v.sent + v.Pending() + (bytes + v'.queued) == v.sent + (v.Pending() + bytes) + v'.queued;
  }

  lemma WriteCore(w: World)
    requires Core(w) && w.d.commands != [] && w.d.commands[0].Write?
    ensures var c := w.d.commands[0];
            Core(Queue(Received(w), c.streamId, c.bytes))
  {
    hide ViewOf, Base, Sound;
    var c := w.d.commands[0];
    var w' := Queue(Received(w), c.streamId, c.bytes);
    SameBase(w.d, w'.d);
    PushDistinct(w.d.ready, c.streamId);
    forall id: U32 ensures Sound(ViewOf(w', id)) {
      assert Sound(ViewOf(w, id));
      QueueView(Received(w), c.streamId, c.bytes, id);
      if id == c.streamId {
        SoundOrderly(ViewOf(w, id));
        ReceivedView(w, id);
        WriteOk(ViewOf(w, id), c.bytes, ViewOf(Received(w), id));
      } else {
        ReceivedOther(w, id);
      }
    }
  }

  lemma SoundOrderly(v: View)
    requires Sound(v)
    ensures v.orderly
  {
  }

  function Asked(w: World, k: U32): World {
    w.(d := w.d.(closing := w.d.closing + {k}, ready := Push(w.d.ready, k)))
  }

  lemma AskedView(w: World, k: U32, id: U32)
    ensures var v := ViewOf(w, id);
            ViewOf(Asked(w, k), id) == if id == k then v.(closing := true, isReady := true) else v
  {
    hide SentBytes, CloseCount, Late, Queued, Fenced, Orderly, SideOf;
  }

  lemma CloseCore(w: World)
    requires Core(w) && w.d.commands != [] && w.d.commands[0].Close?
    ensures Core(Asked(Received(w), w.d.commands[0].streamId))
  {
    hide ViewOf, Base;
    var k := w.d.commands[0].streamId;
    var w' := Asked(Received(w), k);
    SameBase(w.d, w'.d);
    PushDistinct(w.d.ready, k);
    forall id: U32 ensures Sound(ViewOf(w', id)) {
      assert Sound(ViewOf(w, id));
      AskedView(Received(w), k, id);
      if id == k {
        ReceivedView(w, id);
        assert [] + ViewOf(Received(w), id).queued == ViewOf(Received(w), id).queued;
      } else {
        ReceivedOther(w, id);
      }
    }
  }

  lemma ResetSides(mux: L.Mux, k: U32, reason: L.ResetReason, id: U32)
    ensures L.Reset(mux, k, reason).Ok? <==> SideOf(mux, k).Some?
    ensures L.Reset(mux, k, reason).Ok? ==>
              && L.Reset(mux, k, reason).value.1 == ResetFrame(k, L.Code(reason))
              && SideOf(L.Reset(mux, k, reason).value.0, id) == if id == k then None else SideOf(mux, id)
  {
  }

  lemma ResetView(w: World, k: U32, reason: L.ResetReason, id: U32)
    ensures var v := ViewOf(w.(d := Discard(w.d, k)), id);
            ViewOf(w.(d := OnReset(w.d, k, reason)), id) == if id == k then v.(mux := None) else v
  {
    hide ViewOf, Discard, L.Reset, SideOf, Written, L.Code, View.Freed;
    var w' := w.(d := Discard(w.d, k));
    assert w'.d.ear == w.d.ear by { DiscardEar(w.d, k); }
    ResetSides(w.d.ear.mux, k, reason, id);
    MuxOf(w', id);
    var r := L.Reset(w.d.ear.mux, k, reason);
    if r.Ok? {
      QuietView(w', r.value.0, r.value.1, id);
    }
  }

  lemma DiscardEar(d: Driver, k: U32)
    ensures Discard(d, k).ear == d.ear && Discard(d, k).log == d.log
  {
  }

  lemma ResetOk(v: View, v': View)
    requires Sound(v) && v.fenced && v'.orderly && v'.queued == [] && (v'.fenced ==> v.fenced)
    requires v' == v.(queued := v'.queued, fenced := v'.fenced, orderly := v'.orderly) && v.queued == []
    ensures Sound(v'.(mux := None, pend := None, isReady := false, closing := false, staged := v'.Freed()))
  {
  }

  lemma ResetBase(d: Driver, k: U32, reason: L.ResetReason)
    requires Base(d)
    ensures Base(OnReset(d, k, reason))
  {
    hide R.WorldInv, Consistent, L.Reset, Discard;
    DiscardBase(d, k);
    BaseValid(Discard(d, k));
    R.ActKeeps(R.World(Discard(d, k).ear, Discard(d, k).log), R.ResetCall(k, reason));
  }

  lemma ResetCore(w: World, reason: L.ResetReason)
    requires Core(w) && w.d.commands != [] && (w.d.commands[0].Cancel? || w.d.commands[0].ResetStream?)
    ensures var w' := Received(w);
            Core(w'.(d := OnReset(w'.d, w.d.commands[0].streamId, reason)))
  {
    hide ViewOf, Base, Sound, OnReset, Discard;
    var k := w.d.commands[0].streamId;
    var r := Received(w);
    var w' := r.(d := OnReset(r.d, k, reason));
    SameBase(w.d, r.d);
    ResetBase(r.d, k, reason);
    ResetReady(r.d, k, reason);
    forall id: U32 ensures Sound(ViewOf(w', id)) {
      assert Sound(ViewOf(w, id));
      ResetView(r, k, reason, id);
      DiscardView(r, k, id);
      if id == k {
        SoundOrderly(ViewOf(w, id));
        ReceivedView(w, id);
        assert [] + ViewOf(r, id).queued == ViewOf(r, id).queued;
        ResetOk(ViewOf(w, id), ViewOf(r, id));
      } else {
        ReceivedOther(w, id);
      }
    }
  }

  lemma ResetReady(d: Driver, k: U32, reason: L.ResetReason)
    requires NoDuplicates(d.ready)
    ensures NoDuplicates(OnReset(d, k, reason).ready)
  {
    WithoutKeepsDistinct(d.ready, k);
  }
}
