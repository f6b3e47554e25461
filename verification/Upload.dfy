/**
 Send-side flow control for one dialer stream: a request head and an
 incrementally fed body leave as OPEN|DATA, DATA... and one half-closing CLOSE,
 never more un-granted payload than the peer's window.
 */
module Upload {
  import opened Outcomes
  import opened Wire
  import opened Flow

  const UPLOAD_BODY_STAGE_CAPACITY: nat := 0x4_0000

  datatype UploadBodyError = DeclaredLengthExceeded | StageCapacityExceeded

  datatype Sender = Sender(
    streamId: U32,
    head: Bytes,
    headOffset: nat,
    body: Bytes,
    declaredLen: nat,
    fedLen: nat,
    emittedLen: nat,
    sendCredit: nat,
    hasOpened: bool,
    closed: bool)
  {
    predicate Valid() {
      && head != []
      && headOffset <= |head|
      && (hasOpened <==> headOffset > 0)
      && |body| <= UPLOAD_BODY_STAGE_CAPACITY
      && fedLen <= declaredLen
      && emittedLen + |body| == fedLen
      && (emittedLen > 0 ==> headOffset == |head|)
      && (closed ==> headOffset == |head| && body == [] && fedLen == declaredLen)
    }

    /** Bytes accepted and not yet put in a frame. */
    function Unsent(): Bytes
      requires headOffset <= |head|
    {
      head[headOffset..] + body
    }

    /** The next run of bytes a frame may be cut from: head first, then body. */
    function Available(): Bytes
      requires headOffset <= |head|
    {
      if headOffset < |head| then head[headOffset..] else body
    }

    function ChunkLen(): nat
      requires headOffset <= |head|
    {
      Least(Least(|Available()|, RECOMMENDED_CHUNK), sendCredit)
    }

    predicate Finished() {
      headOffset == |head| && body == [] && fedLen == declaredLen && emittedLen == declaredLen
    }
  }

  function Least(a: nat, b: nat): nat {
    if a < b then a else b
  }

  /** Take the next chunk off the head or, once that is gone, off the body. */
  function Cut(s: Sender): (r: (Sender, Bytes))
    requires s.Valid() && s.Available() != [] && s.sendCredit > 0
    ensures r.0.Valid() && r.0.hasOpened && r.0.closed == s.closed && r.0.streamId == s.streamId
    ensures r.0.head == s.head && r.0.fedLen == s.fedLen && r.0.declaredLen == s.declaredLen
    ensures 0 < |r.1| <= RECOMMENDED_CHUNK
    ensures r.0.sendCredit + |r.1| == s.sendCredit
  {
    var n := s.ChunkLen();
    var spent := s.(sendCredit := s.sendCredit - n, hasOpened := true);
    if s.headOffset < |s.head|
    then (spent.(headOffset := s.headOffset + n), s.head[s.headOffset..s.headOffset + n])
    else (spent.(body := s.body[n..], emittedLen := s.emittedLen + n), s.body[..n])
  }

  lemma CutTakesNextBytes(s: Sender)
    requires s.Valid() && s.Available() != [] && s.sendCredit > 0
    ensures s.Unsent() == Cut(s).1 + Cut(s).0.Unsent()
  {
    var n := s.ChunkLen();
    if s.headOffset < |s.head| {
      TakeFrom(s.head, s.headOffset, n, s.body);
    } else {
      TakeFrom(s.body, 0, n, []);
      assert s.body[0..] + [] == s.body && s.body[n..] + [] == s.body[n..];
      assert forall b: Bytes :: s.head[|s.head|..] + b == b;
    }
  }

  lemma TakeFrom(xs: Bytes, from: nat, n: nat, tail: Bytes)
    requires from + n <= |xs|
    ensures xs[from..] + tail == xs[from..from + n] + (xs[from + n..] + tail)
  {
    assert xs[from..] == xs[from..from + n] + xs[from + n..];
  }

  /** The upload after one poll, and the frame it put on the wire, if any. */
  function Poll(s: Sender): (r: (Sender, Option<Frame>))
    requires s.Valid()
    ensures r.0.Valid()
  {
    if s.Available() != [] then
      if s.sendCredit == 0 then (s, None)
      else
        var (s', chunk) := Cut(s);
        (s', Some(Frame(s.streamId, if s.hasOpened then FLAG_DATA else FLAG_OPEN + FLAG_DATA, chunk)))
    else if !s.closed && s.Finished() then (s.(closed := true), Some(Frame(s.streamId, FLAG_CLOSE, [])))
    else (s, None)
  }

  /**
   A poll writes nothing exactly when it is out of credit, waiting for body
   bytes, or done. Otherwise it writes the next unsent bytes, paid for in
   credit, the first frame opening the stream, or the one empty CLOSE after the
   last byte.
   */
  lemma PollWritesNextBytes(s: Sender)
    requires s.Valid()
    ensures var (s', frame) := Poll(s);
            && s'.streamId == s.streamId && s'.head == s.head
            && s'.fedLen == s.fedLen && s'.declaredLen == s.declaredLen
            && (frame.None? <==> if s.Unsent() != [] then s.sendCredit == 0 else s.closed || s.fedLen < s.declaredLen)
            && (frame.None? ==> s' == s)
            && (frame.Some? ==>
                  && frame.value.Encodable()
                  && s.Unsent() == frame.value.payload + s'.Unsent()
                  && s'.sendCredit + |frame.value.payload| == s.sendCredit)
            && (frame.Some? && s.Unsent() != [] ==>
                  && frame.value.payload != [] && s'.hasOpened && !s'.closed
                  && frame.value == Frame(s.streamId, if s.hasOpened then FLAG_DATA else FLAG_OPEN + FLAG_DATA,
                                          frame.value.payload))
            && (frame.Some? && s.Unsent() == [] ==>
                  && frame.value == Frame(s.streamId, FLAG_CLOSE, [])
                  && s.hasOpened && !s.closed && s' == s.(closed := true))
  {
    hide Cut;
    if s.Available() != [] && s.sendCredit > 0 {
      CutTakesNextBytes(s);
    }
    assert s.Unsent() != [] <==> s.Available() != [];
  }

  function FeedBody(s: Sender, bytes: Bytes): (r: Result<Sender, UploadBodyError>)
    requires s.Valid()
    ensures r.Ok? ==> r.value.Valid() && r.value.Unsent() == s.Unsent() + bytes
    ensures r.Ok? <==> |bytes| <= s.declaredLen - s.fedLen && |bytes| <= UPLOAD_BODY_STAGE_CAPACITY - |s.body|
  {
    if |bytes| > s.declaredLen - s.fedLen then Err(DeclaredLengthExceeded)
    else if |bytes| > UPLOAD_BODY_STAGE_CAPACITY - |s.body| then Err(StageCapacityExceeded)
    else
      assert s.head[s.headOffset..] + (s.body + bytes) == s.head[s.headOffset..] + s.body + bytes;
      Ok(s.(body := s.body + bytes, fedLen := s.fedLen + |bytes|))
  }

  function NewSender(streamId: U32, head: Bytes, declaredLen: nat): Sender {
    Sender(streamId, head, 0, [], declaredLen, 0, 0, INITIAL_WINDOW, false, false)
  }

  class WindowedUpload {
    const streamId: U32
    const head: Bytes
    const declaredLen: nat
    var headOffset: nat
    var body: Bytes
    var fedLen: nat
    var emittedLen: nat
    var sendCredit: nat
    var hasOpened: bool
    var closed: bool

    ghost function View(): Sender
      reads this
    {
      Sender(streamId, head, headOffset, body, declaredLen, fedLen, emittedLen, sendCredit, hasOpened, closed)
    }

    /** The request head is nonempty. */
    constructor (streamId: U32, head: Bytes, declaredLen: nat)
      requires head != []
      ensures View() == NewSender(streamId, head, declaredLen) && View().Valid()
    {
      this.streamId, this.head, this.declaredLen := streamId, head, declaredLen;
      headOffset, body, fedLen, emittedLen := 0, [], 0, 0;
      sendCredit := INITIAL_WINDOW;
      hasOpened, closed := false, false;
    }

    /** Exactly the longest run of bytes `FeedBody` would accept now. */
    method BodyCapacity() returns (n: nat)
      requires View().Valid()
      ensures forall bytes: Bytes :: FeedBody(View(), bytes).Ok? <==> |bytes| <= n
    {
      n := Least(UPLOAD_BODY_STAGE_CAPACITY - |body|, declaredLen - fedLen);
    }

    /** Either error leaves the upload unchanged. */
    method Feed(bytes: Bytes) returns (r: Result<(), UploadBodyError>)
      requires View().Valid()
      modifies this
      ensures var fed := FeedBody(old(View()), bytes);
              if fed.Ok? then r.Ok? && View() == fed.value
              else r == Err(fed.error) && View() == old(View())
    {
      if |bytes| > declaredLen - fedLen {
        return Err(DeclaredLengthExceeded);
      }
      if |bytes| > UPLOAD_BODY_STAGE_CAPACITY - |body| {
        return Err(StageCapacityExceeded);
      }
      body := body + bytes;
      fedLen := fedLen + |bytes|;
      return Ok(());
    }

    method Grant(credit: U32) returns (violation: Option<FrameViolation>)
      modifies this
      ensures var next := AddCredit(old(sendCredit), credit);
              if next.Some? then violation == None && View() == old(View()).(sendCredit := next.value)
              else violation == Some(FrameViolation(streamId, FLAG_WINDOW, 4)) && View() == old(View())
    {
      var next := sendCredit + credit;
      if next > MAX_SEND_CREDIT {
        return Some(FrameViolation(streamId, FLAG_WINDOW, 4));
      }
      sendCredit := next;
      return None;
    }

    /** The next encoded frame; encoding never fails. */
    method PollSend() returns (r: Result<Option<Bytes>, FrameError>)
      requires View().Valid()
      modifies this
      ensures var p := Poll(old(View()));
              View() == p.0 && r == Ok(if p.1.None? then None else Some(RawBytes(p.1.value)))
    {
      var headRemaining := |head| - headOffset;
      var available := if headRemaining > 0 then headRemaining else |body|;
      if available > 0 {
        if sendCredit == 0 {
          return Ok(None);
        }
        var n := Least(Least(Least(available, RECOMMENDED_CHUNK), MAX_PAYLOAD), sendCredit);
        assert n == View().ChunkLen();
        var chunk: Bytes;
        if headRemaining > 0 {
          chunk := head[headOffset..headOffset + n];
          headOffset := headOffset + n;
        } else {
          chunk := body[..n];
          body := body[n..];
          emittedLen := emittedLen + n;
        }
        var flags := if hasOpened then FLAG_DATA else FLAG_OPEN + FLAG_DATA;
        hasOpened := true;
        sendCredit := sendCredit - n;
        var encoded := Encode(Frame(streamId, flags, chunk));
        return Ok(Some(encoded.value));
      }
      if !closed && fedLen == declaredLen && emittedLen == declaredLen {
        closed := true;
        var encoded := Encode(Frame(streamId, FLAG_CLOSE, []));
        return Ok(Some(encoded.value));
      }
      return Ok(None);
    }

    /** Blocked exactly when a poll writes nothing although bytes are waiting. */
    method IsBlocked() returns (blocked: bool)
      requires View().Valid()
      ensures blocked <==> View().Unsent() != [] && Poll(View()).1.None?
    {
      blocked := !closed && sendCredit == 0 && (headOffset < |head| || body != []);
    }
  }
}
