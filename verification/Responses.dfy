/**
 The one-shot response assembler: DATA of one stream accrues into a body and is
 consumed at decode, so its receive window is never more than half spent and the
 peer is never short of credit for a chunk. What the body, the end and the outputs
 are is stated from the frames alone.
 */
module Responses {
  import opened Outcomes
  import opened Wire
  import opened Flow

  datatype Response = Response(
    streamId: U32, cap: nat, body: Bytes, window: Window, closed: bool, wasReset: bool, failed: bool)

  function NewResponse(streamId: U32, cap: nat): Response {
    Response(streamId, cap, [], NEW_WINDOW, false, false, false)
  }

  /** PONGs to write, upload credit granted, and frames originated. */
  datatype FeedOutput = FeedOutput(pongs: seq<Frame>, grants: seq<U32>, emits: seq<Frame>, terminal: bool)

  const NO_OUTPUT := FeedOutput([], [], [], false)

  datatype MuxError = CapExceeded | FlowControl | FrameFailure(flags: Byte)

  datatype Turn = Turn(r: Response, out: FeedOutput)

  /** DATA within the cap and the window extends the body and is consumed at once. */
  function TakeData(t: Turn, f: Frame): Result<Turn, MuxError>
    requires t.r.window.Valid()
  {
    var r := t.r;
    var n := |f.payload|;
    if |r.body| + n > r.cap then Err(CapExceeded)
    else if !r.window.Admits(n) then
      Ok(Turn(r.(closed := true, failed := true),
              t.out.(emits := t.out.emits + [ResetFrame(r.streamId, RESET_FLOW_CONTROL_ERROR)], terminal := true)))
    else
      var (window, grant) := r.window.Debit(n).Consume(n);
      Ok(Turn(r.(body := r.body + f.payload, window := window),
              t.out.(emits := t.out.emits + match grant case None => [] case Some(g) => [WindowFrame(r.streamId, g)])))
  }

  function Handle(t: Turn, f: Frame): Result<Turn, MuxError>
    requires t.r.window.Valid()
  {
    if f.ControlPong().Some? then Ok(t.(out := t.out.(pongs := t.out.pongs + [f.ControlPong().value])))
    else if f.streamId != t.r.streamId then Ok(t)
    else if f.WindowCredit().Some? then Ok(t.(out := t.out.(grants := t.out.grants + [f.WindowCredit().value])))
    else if Resets(f.flags) then Ok(Turn(t.r.(wasReset := true, closed := true), t.out.(emits := [])))
    else
      match if CarriesData(f.flags) then TakeData(t, f) else Ok(t)
      case Err(e) => Err(e)
      case Ok(t') =>
        Ok(if !t'.out.terminal && Closes(f.flags) then Turn(t'.r.(closed := true), t'.out.(emits := [])) else t')
  }

  /** Everything debited is consumed, so at most half a window is not granted back. */
  predicate Settled(r: Response) {
    r.window.Valid() && r.window.Outstanding() == 0 && r.window.unacked < RECEIVE_GRANT_THRESHOLD
  }

  lemma HandleSettles(t: Turn, f: Frame)
    requires Settled(t.r)
    ensures Handle(t, f).Ok? ==> Settled(Handle(t, f).value.r)
  {
  }

  /** Frames in order, stopping at an error or a terminal flow-control failure. */
  function HandleAll(t: Turn, frames: seq<Frame>): Result<Turn, MuxError>
    requires Settled(t.r)
    decreases |frames|
  {
    if frames == [] || t.out.terminal then Ok(t)
    else
      HandleSettles(t, frames[0]);
      match Handle(t, frames[0])
      case Err(e) => Err(e)
      case Ok(t') => HandleAll(t', frames[1..])
  }

  /** Credit given back on a stream by frames to write. */
  function GrantsIn(frames: seq<Frame>, id: U32): nat {
    if frames == [] then 0
    else
      var f := frames[|frames| - 1];
      GrantsIn(frames[..|frames| - 1], id)
      + if f.streamId == id && f.WindowCredit().Some? then f.WindowCredit().value else 0
  }

  lemma GrantAppended(frames: seq<Frame>, f: Frame, id: U32)
    ensures GrantsIn(frames + [f], id)
            == GrantsIn(frames, id) + if f.streamId == id && f.WindowCredit().Some? then f.WindowCredit().value else 0
  {
    assert (frames + [f])[..|frames|] == frames;
  }

  lemma WindowFrameCredits(id: U32, grant: U32)
    ensures WindowFrame(id, grant).WindowCredit() == Some(grant) && WindowFrame(id, grant).streamId == id
  {
    Be32RoundTrip(grant);
  }

  /** While the stream is open, what was received is granted back but for the batch. */
  predicate Balanced(r: Response, granted: nat) {
    Settled(r) && (!r.closed ==> granted + r.window.unacked == |r.body|)
  }

  lemma TakeDataBalances(t: Turn, f: Frame, before: nat)
    requires Balanced(t.r, before + GrantsIn(t.out.emits, t.r.streamId))
    ensures TakeData(t, f).Ok? ==>
              var t' := TakeData(t, f).value;
              Balanced(t'.r, before + GrantsIn(t'.out.emits, t.r.streamId)) && t'.r.streamId == t.r.streamId
  {
    hide GrantsIn, Frame.WindowCredit;
    var n := |f.payload|;
    if t.r.window.Admits(n) {
      var (window, grant) := t.r.window.Debit(n).Consume(n);
      if grant.Some? {
        WindowFrameCredits(t.r.streamId, grant.value);
        GrantAppended(t.out.emits, WindowFrame(t.r.streamId, grant.value), t.r.streamId);
      } else {
        assert t.out.emits + [] == t.out.emits;
      }
    }
  }

  lemma HandleBalances(t: Turn, f: Frame, before: nat)
    requires Balanced(t.r, before + GrantsIn(t.out.emits, t.r.streamId))
    ensures Handle(t, f).Ok? ==>
              var t' := Handle(t, f).value;
              Balanced(t'.r, before + GrantsIn(t'.out.emits, t.r.streamId)) && t'.r.streamId == t.r.streamId
  {
    hide GrantsIn, TakeData, Frame.WindowCredit, Frame.ControlPong;
    TakeDataBalances(t, f, before);
  }

  lemma {:induction false} HandleAllBalances(t: Turn, frames: seq<Frame>, before: nat)
    requires Balanced(t.r, before + GrantsIn(t.out.emits, t.r.streamId))
    ensures HandleAll(t, frames).Ok? ==>
              var t' := HandleAll(t, frames).value;
              Balanced(t'.r, before + GrantsIn(t'.out.emits, t.r.streamId)) && t'.r.streamId == t.r.streamId
    decreases |frames|
  {
    hide Handle, GrantsIn;
    if frames != [] && !t.out.terminal {
      HandleBalances(t, frames[0], before);
      HandleSettles(t, frames[0]);
      if Handle(t, frames[0]).Ok? {
        HandleAllBalances(Handle(t, frames[0]).value, frames[1..], before);
      }
    }
  }

  // ------------------------------------------------------------ runs

  /** The assembler, the credit it has granted, and its other outputs over all reads so far. */
  datatype World = World(r: Response, granted: nat, grants: seq<U32>, pongs: seq<Frame>)

  function Start(streamId: U32, cap: nat): World {
    World(NewResponse(streamId, cap), 0, [], [])
  }

  function After(w: World, t: Turn): World {
    World(t.r, w.granted + GrantsIn(t.out.emits, w.r.streamId), w.grants + t.out.grants, w.pongs + t.out.pongs)
  }

  /** Reads of decoded frames, as long as none fails; after a flow-control failure every read does. */
  ghost function Run(w: World, feeds: seq<seq<Frame>>): Option<World>
    requires Balanced(w.r, w.granted)
    decreases |feeds|
  {
    if feeds == [] then Some(w)
    else if w.r.failed then None
    else
      EmptyTurn(w);
      HandleAllBalances(Turn(w.r, NO_OUTPUT), feeds[0], w.granted);
      match HandleAll(Turn(w.r, NO_OUTPUT), feeds[0])
      case Err(_) => None
      case Ok(t) => Run(After(w, t), feeds[1..])
  }

  lemma EmptyTurn(w: World)
    requires Balanced(w.r, w.granted)
    ensures Balanced(w.r, w.granted + GrantsIn(NO_OUTPUT.emits, w.r.streamId))
  {
  }

  lemma {:induction false} RunBalances(w: World, feeds: seq<seq<Frame>>)
    requires Balanced(w.r, w.granted)
    ensures Run(w, feeds).Some? ==> Balanced(Run(w, feeds).value.r, Run(w, feeds).value.granted)
    decreases |feeds|
  {
    hide HandleAll, GrantsIn;
    if feeds != [] && !w.r.failed {
      EmptyTurn(w);
      HandleAllBalances(Turn(w.r, NO_OUTPUT), feeds[0], w.granted);
      var h := HandleAll(Turn(w.r, NO_OUTPUT), feeds[0]);
      if h.Ok? {
        RunBalances(After(w, h.value), feeds[1..]);
      }
    }
  }

  /**
   A peer sending to a response assembler is never short of credit: over every run
   that has not failed or closed, once its DATA has arrived and it has taken every
   grant, it holds more than half a window, hence a whole 64 KiB chunk.
   */
  lemma PeerNeverStarves(streamId: U32, cap: nat, feeds: seq<seq<Frame>>)
    ensures Balanced(NewResponse(streamId, cap), 0)
    ensures var w := Run(Start(streamId, cap), feeds);
            w.Some? && !w.value.r.closed ==>
              && w.value.granted <= |w.value.r.body|
              && INITIAL_WINDOW - |w.value.r.body| + w.value.granted > RECEIVE_GRANT_THRESHOLD >= RECOMMENDED_CHUNK
  {
    RunBalances(Start(streamId, cap), feeds);
  }

  // ------------------------------------------------------------ content

  /** What a frame is to the assembler of a stream, by its header and length alone. */
  datatype Role = Ping | Foreign | Credit | Abort | Ordinary

  function RoleOf(f: Frame, id: U32): Role {
    if f.streamId == 0 && f.flags == FLAG_PING && |f.payload| == CONTROL_NONCE_LEN then Ping
    else if f.streamId != id then Foreign
    else if f.flags / 16 % 2 == 1 && |f.payload| == 4 then Credit
    else if f.flags / 8 % 2 == 1 then Abort
    else Ordinary
  }

  /** What a read or a whole run of frames amounts to. */
  datatype Digest = Digest(body: Bytes, aborted: bool, ended: bool, credits: seq<U32>, pings: seq<Bytes>)

  const NOTHING := Digest([], false, false, [], [])

  function Absorb(d: Digest, f: Frame, id: U32): Digest {
    match RoleOf(f, id)
    case Ping => d.(pings := d.pings + [f.payload])
    case Foreign => d
    case Credit => d.(credits := d.credits + [FromBe32(f.payload)])
    case Abort => d.(aborted := true, ended := true)
    case Ordinary =>
      d.(body := d.body + (if f.flags / 2 % 2 == 1 then f.payload else []), ended := d.ended || f.flags / 4 % 2 == 1)
  }

  function Digested(d: Digest, frames: seq<Frame>, id: U32): Digest
    decreases |frames|
  {
    if frames == [] then d else Digested(Absorb(d, frames[0], id), frames[1..], id)
  }

  function DigestedAll(d: Digest, feeds: seq<seq<Frame>>, id: U32): Digest
    decreases |feeds|
  {
    if feeds == [] then d else DigestedAll(Digested(d, feeds[0], id), feeds[1..], id)
  }

  function Pong(nonce: Bytes): Frame {
    Frame(0, FLAG_PONG, nonce)
  }

  function PongsFor(nonces: seq<Bytes>): seq<Frame> {
    seq(|nonces|, i requires 0 <= i < |nonces| => Pong(nonces[i]))
  }

  /** The assembler and its outputs say what the digest says. */
  predicate Says(r: Response, grants: seq<U32>, pongs: seq<Frame>, d: Digest) {
    && r.body == d.body && r.wasReset == d.aborted && r.closed == d.ended
    && grants == d.credits && pongs == PongsFor(d.pings)
  }

  lemma HandleSays(t: Turn, f: Frame, before: World, d: Digest)
    requires t.r.window.Valid() && !t.out.terminal
    requires Says(t.r, before.grants + t.out.grants, before.pongs + t.out.pongs, d)
    ensures Handle(t, f).Ok? && !Handle(t, f).value.r.failed ==>
              var t' := Handle(t, f).value;
              && Says(t'.r, before.grants + t'.out.grants, before.pongs + t'.out.pongs, Absorb(d, f, t.r.streamId))
              && t'.r.streamId == t.r.streamId && !t'.out.terminal
  {
    hide FromBe32;
    assert d.body + [] == d.body;
    var role := RoleOf(f, t.r.streamId);
    if role.Ping? {
      assert PongsFor(d.pings + [f.payload]) == PongsFor(d.pings) + [Pong(f.payload)];
      assert before.pongs + (t.out.pongs + [Pong(f.payload)]) == (before.pongs + t.out.pongs) + [Pong(f.payload)];
    } else if role.Credit? {
      var g := FromBe32(f.payload);
      assert before.grants + (t.out.grants + [g]) == (before.grants + t.out.grants) + [g];
    }
  }

  lemma FailedStays(t: Turn, f: Frame)
    requires t.r.window.Valid() && t.r.failed
    ensures Handle(t, f).Ok? ==> Handle(t, f).value.r.failed
  {
  }

  lemma {:induction false} FailedStaysAll(t: Turn, frames: seq<Frame>)
    requires Settled(t.r) && t.r.failed
    ensures HandleAll(t, frames).Ok? ==> HandleAll(t, frames).value.r.failed
    decreases |frames|
  {
    hide Handle;
    if frames != [] && !t.out.terminal {
      HandleSettles(t, frames[0]);
      FailedStays(t, frames[0]);
      if Handle(t, frames[0]).Ok? {
        FailedStaysAll(Handle(t, frames[0]).value, frames[1..]);
      }
    }
  }

  lemma {:induction false} HandleAllSays(t: Turn, frames: seq<Frame>, before: World, d: Digest)
    requires Settled(t.r) && !t.out.terminal
    requires Says(t.r, before.grants + t.out.grants, before.pongs + t.out.pongs, d)
    ensures HandleAll(t, frames).Ok? && !HandleAll(t, frames).value.r.failed ==>
              var t' := HandleAll(t, frames).value;
              && Says(t'.r, before.grants + t'.out.grants, before.pongs + t'.out.pongs,
                      Digested(d, frames, t.r.streamId))
              && t'.r.streamId == t.r.streamId
    decreases |frames|
  {
    hide Handle, Says, Absorb;
    if frames != [] {
      HandleSettles(t, frames[0]);
      HandleSays(t, frames[0], before, d);
      if Handle(t, frames[0]).Ok? {
        var t1 := Handle(t, frames[0]).value;
        if t1.r.failed {
          FailedStaysAll(t1, frames[1..]);
        } else {
          HandleAllSays(t1, frames[1..], before, Absorb(d, frames[0], t.r.streamId));
        }
      }
    }
  }

  lemma {:induction false} RunSays(w: World, feeds: seq<seq<Frame>>, d: Digest)
    requires Balanced(w.r, w.granted) && Says(w.r, w.grants, w.pongs, d) && !w.r.failed
    ensures Run(w, feeds).Some? && !Run(w, feeds).value.r.failed ==>
              var w' := Run(w, feeds).value;
              Says(w'.r, w'.grants, w'.pongs, DigestedAll(d, feeds, w.r.streamId))
    decreases |feeds|
  {
    hide HandleAll, GrantsIn, Says, Digested;
    if feeds != [] {
      EmptyTurn(w);
      var t := Turn(w.r, NO_OUTPUT);
      HandleAllBalances(t, feeds[0], w.granted);
      assert w.grants + [] == w.grants && w.pongs + [] == w.pongs;
      HandleAllSays(t, feeds[0], w, d);
      var h := HandleAll(t, feeds[0]);
      if h.Ok? && !h.value.r.failed {
        RunSays(After(w, h.value), feeds[1..], Digested(d, feeds[0], w.r.streamId));
      } else if h.Ok? {
        FailedEnds(After(w, h.value), feeds[1..]);
      }
    }
  }

  lemma FailedEnds(w: World, feeds: seq<seq<Frame>>)
    requires Balanced(w.r, w.granted) && w.r.failed
    ensures Run(w, feeds) == if feeds == [] then Some(w) else None
  {
  }

  /**
   What a response is: over every run that has not failed, the body is the joined
   payloads of this stream's DATA frames in order, it was reset exactly if a RESET of
   this stream came, it is closed exactly if a RESET or CLOSE did, and the grants and
   PONGs are the credits of its WINDOW frames and the nonces of the PINGs, in order.
   */
  lemma ResponseIsItsFrames(streamId: U32, cap: nat, feeds: seq<seq<Frame>>)
    ensures Balanced(NewResponse(streamId, cap), 0)
    ensures var w := Run(Start(streamId, cap), feeds);
            w.Some? && !w.value.r.failed ==>
              Says(w.value.r, w.value.grants, w.value.pongs, DigestedAll(NOTHING, feeds, streamId))
  {
    RunSays(Start(streamId, cap), feeds, NOTHING);
  }

  /**
   A read fails exactly when the body would pass the cap, and ends the stream for
   flow control exactly when a payload passes what the window has left.
   */
  lemma FailuresAreLimits(t: Turn, f: Frame)
    requires Settled(t.r) && !t.r.failed
    ensures var taken := RoleOf(f, t.r.streamId).Ordinary? && f.flags / 2 % 2 == 1;
            var over := |t.r.body| + |f.payload| > t.r.cap;
            && (Handle(t, f).Err? <==> taken && over)
            && (Handle(t, f).Err? ==> Handle(t, f).error == CapExceeded)
            && (Handle(t, f).Ok? && Handle(t, f).value.r.failed <==>
                  taken && !over && |f.payload| > INITIAL_WINDOW - t.r.window.unacked)
            && (Handle(t, f).Ok? && Handle(t, f).value.r.failed ==>
                  && Handle(t, f).value.out.terminal && Handle(t, f).value.r.closed
                  && Handle(t, f).value.out.emits
                     == t.out.emits + [Frame(t.r.streamId, FLAG_RESET, [RESET_FLOW_CONTROL_ERROR])])
  {
  }

  /** Once the stream has ended in a read, no WINDOW written earlier in that read is left. */
  lemma EndDropsWindows(t: Turn, f: Frame)
    requires Settled(t.r) && Handle(t, f).Ok? && !Handle(t, f).value.r.failed && !t.out.terminal
    requires RoleOf(f, t.r.streamId).Abort? || (RoleOf(f, t.r.streamId).Ordinary? && f.flags / 4 % 2 == 1)
    ensures Handle(t, f).value.out.emits == []
  {
  }

  // ------------------------------------------------------------ in place

  class ResponseAssembler {
    const streamId: U32
    const cap: nat
    const decoder: FrameDecoder
    const recvWindow: RecvWindow
    var body: Bytes
    var closed: bool
    var wasReset: bool
    var flowControlFailed: bool

    ghost function Value(): Response
      reads this, recvWindow
    {
      Response(streamId, cap, body, recvWindow.View(), closed, wasReset, flowControlFailed)
    }

    constructor (streamId: U32, cap: nat)
      ensures Value() == NewResponse(streamId, cap) && decoder.buf == []
      ensures fresh(decoder) && fresh(recvWindow)
    {
      this.streamId := streamId;
      this.cap := cap;
      decoder := new FrameDecoder();
      recvWindow := new RecvWindow();
      body := [];
      closed := false;
      wasReset := false;
      flowControlFailed := false;
    }

    /** Bytes off the transport; frames before a reserved flag are dropped with the error. */
    method Feed(data: Bytes) returns (r: Result<FeedOutput, MuxError>)
      requires Settled(Value())
      modifies this, decoder, recvWindow
      ensures Settled(Value()) || r.Err?
      ensures old(flowControlFailed) ==> r == Err(FlowControl) && Value() == old(Value())
      ensures !old(flowControlFailed) ==>
                var d := Drain(old(decoder.buf) + data);
                && decoder.buf == d.rest
                && (d.bad.Some? ==> r == Err(FrameFailure(d.bad.value)) && Value() == old(Value()))
                && (d.bad.None? ==>
                      var h := HandleAll(Turn(old(Value()), NO_OUTPUT), d.frames);
                      if h.Ok? then Value() == h.value.r && r == Ok(h.value.out) else r == Err(h.error))
    {
      hide Handle, Parse;
      if flowControlFailed {
        return Err(FlowControl);
      }
      decoder.Feed(data);
      var drained := decoder.DrainAll();
      if drained.Err? {
        return Err(FrameFailure(drained.error.flags));
      }
      var frames := drained.value;
      var out := NO_OUTPUT;
      var i := 0;
      assert frames[0..] == frames;
      while i < |frames| && !out.terminal
        invariant 0 <= i <= |frames| && Settled(Value())
        invariant HandleAll(Turn(old(Value()), NO_OUTPUT), frames) == HandleAll(Turn(Value(), out), frames[i..])
        invariant decoder.buf == Drain(old(decoder.buf) + data).rest
      {
        assert frames[i..][1..] == frames[i + 1..] && frames[i..][0] == frames[i];
        HandleSettles(Turn(Value(), out), frames[i]);
        var error;
        error, out := HandleFrame(frames[i], out);
        if error.Some? {
          return Err(error.value);
        }
        i := i + 1;
      }
      r := Ok(out);
    }

    method HandleFrame(f: Frame, output: FeedOutput) returns (error: Option<MuxError>, out: FeedOutput)
      requires Settled(Value()) && !output.terminal
      modifies this, recvWindow
      ensures var h := Handle(Turn(old(Value()), output), f);
              if h.Ok? then error == None && Turn(Value(), out) == h.value else error == Some(h.error)
    {
      hide Frame.WindowCredit, Frame.ControlPong;
      error, out := None, output;
      var pong := f.ControlPong();
      if pong.Some? {
        out := out.(pongs := out.pongs + [pong.value]);
        return;
      }
      if f.streamId != streamId {
        return;
      }
      var credit := f.WindowCredit();
      if credit.Some? {
        out := out.(grants := out.grants + [credit.value]);
        return;
      }
      if Resets(f.flags) {
        wasReset := true;
        closed := true;
        out := out.(emits := []);
        return;
      }
      if CarriesData(f.flags) {
        error, out := TakePayload(f, out);
        if error.Some? || out.terminal {
          return;
        }
      }
      if Closes(f.flags) {
        closed := true;
        out := out.(emits := []);
      }
    }

    method TakePayload(f: Frame, output: FeedOutput) returns (error: Option<MuxError>, out: FeedOutput)
      requires Settled(Value())
      modifies this, recvWindow
      ensures var h := TakeData(Turn(old(Value()), output), f);
              if h.Ok? then error == None && Turn(Value(), out) == h.value
              else error == Some(h.error) && out.terminal == output.terminal
    {
      error, out := None, output;
      if |body| + |f.payload| > cap {
        error := Some(CapExceeded);
        return;
      }
      var ok := recvWindow.Debit(|f.payload|);
      if !ok {
        closed := true;
        flowControlFailed := true;
        out := out.(emits := out.emits + [ResetFrame(streamId, RESET_FLOW_CONTROL_ERROR)], terminal := true);
        return;
      }
      body := body + f.payload;
      var grant := recvWindow.Consume(|f.payload|);
      if grant.Some? {
        out := out.(emits := out.emits + [WindowFrame(streamId, grant.value)]);
      }
    }
  }
}
