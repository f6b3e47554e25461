/**
 The SPL mux wire format: an eight-byte big-endian header (stream id, flags,
 three-byte length) followed by the payload, and the streaming decoder that
 re-frames a byte stream across arbitrary read boundaries.
 */
module Wire {
  import opened Outcomes

  type Byte = x: int | 0 <= x < 0x100
  type U32 = x: int | 0 <= x < 0x1_0000_0000
  type Bytes = seq<Byte>

  /** Pieces of a byte string, joined. */
  function Flatten(pieces: seq<Bytes>): Bytes {
    if pieces == [] then [] else pieces[0] + Flatten(pieces[1..])
  }

  const FLAG_OPEN: Byte := 0x01
  const FLAG_DATA: Byte := 0x02
  const FLAG_CLOSE: Byte := 0x04
  const FLAG_RESET: Byte := 0x08
  const FLAG_WINDOW: Byte := 0x10
  const FLAG_PING: Byte := 0x20
  const FLAG_PONG: Byte := 0x40

  const RESET_PROTOCOL_ERROR: Byte := 0x01
  const RESET_FLOW_CONTROL_ERROR: Byte := 0x02
  const RESET_STREAM_LIMIT_EXCEEDED: Byte := 0x03
  const RESET_INTERNAL_ERROR: Byte := 0x04
  const RESET_CANCEL: Byte := 0x05
  const RESET_UNSPECIFIED: Byte := 0xff

  const HEADER_LEN: nat := 8
  const MAX_PAYLOAD: nat := 0xff_ffff
  const RECOMMENDED_CHUNK: nat := 0x1_0000
  const CONTROL_NONCE_LEN: nat := 8

  // Bit tests on the flag byte.
  predicate Opens(flags: Byte) { flags % 2 == 1 }
  predicate CarriesData(flags: Byte) { flags / 2 % 2 == 1 }
  predicate Closes(flags: Byte) { flags / 4 % 2 == 1 }
  predicate Resets(flags: Byte) { flags / 8 % 2 == 1 }
  predicate Grants(flags: Byte) { flags / 16 % 2 == 1 }
  predicate Pings(flags: Byte) { flags / 32 % 2 == 1 }
  predicate Pongs(flags: Byte) { flags / 64 % 2 == 1 }
  predicate Reserved(flags: Byte) { flags / 128 % 2 == 1 }

  /** The exact flag combinations the framing contract permits. */
  predicate FlagsValid(flags: Byte) {
    1 <= flags <= 8 || flags == FLAG_WINDOW || flags == FLAG_PING || flags == FLAG_PONG
  }

  datatype FrameViolation = FrameViolation(streamId: U32, flags: Byte, length: nat)

  datatype FrameError = PayloadTooLarge(length: nat) | ReservedFlag(flags: Byte)

  datatype Frame = Frame(streamId: U32, flags: Byte, payload: Bytes) {
    predicate Encodable() {
      |payload| <= MAX_PAYLOAD && !Reserved(flags)
    }

    function Violation(): FrameViolation {
      FrameViolation(streamId, flags, |payload|)
    }

    /** The bytes a WINDOW frame grants. */
    function WindowCredit(): Option<U32> {
      if Grants(flags) && |payload| == 4 then Some(FromBe32(payload)) else None
    }

    /** The PONG a control PING must be answered with. */
    function ControlPong(): Option<Frame> {
      if streamId == 0 && flags == FLAG_PING && |payload| == CONTROL_NONCE_LEN
      then Some(Frame(0, FLAG_PONG, payload))
      else None
    }

    /** The nonce of a control PONG. */
    function ControlPongNonce(): Option<Bytes> {
      if streamId == 0 && flags == FLAG_PONG && |payload| == CONTROL_NONCE_LEN
      then Some(payload)
      else None
    }
  }

  function WindowFrame(streamId: U32, credit: U32): (frame: Frame)
    ensures frame.WindowCredit() == Some(credit)
    ensures frame.Encodable()
  {
    Be32RoundTrip(credit);
    Frame(streamId, FLAG_WINDOW, Be32(credit))
  }

  function ResetFrame(streamId: U32, reason: Byte): (frame: Frame)
    ensures frame.Encodable()
  {
    Frame(streamId, FLAG_RESET, [reason])
  }

  // ---------------------------------------------------------------- integers

  function Be32(x: U32): (b: Bytes)
    ensures |b| == 4
  {
    [x / 0x100_0000, x / 0x1_0000 % 0x100, x / 0x100 % 0x100, x % 0x100]
  }

  function FromBe32(b: Bytes): U32
    requires |b| >= 4
  {
    b[0] as int * 0x100_0000 + b[1] as int * 0x1_0000 + b[2] as int * 0x100 + b[3]
  }

  function Be24(x: nat): (b: Bytes)
    requires x <= MAX_PAYLOAD
    ensures |b| == 3
  {
    [x / 0x1_0000, x / 0x100 % 0x100, x % 0x100]
  }

  function FromBe24(b: Bytes): (x: nat)
    requires |b| >= 3
    ensures x <= MAX_PAYLOAD
  {
    b[0] as int * 0x1_0000 + b[1] as int * 0x100 + b[2]
  }

  lemma Be32RoundTrip(x: U32)
    ensures FromBe32(Be32(x)) == x
  {
    assert x == x / 0x100 * 0x100 + x % 0x100;
    assert x / 0x100 == x / 0x1_0000 * 0x100 + x / 0x100 % 0x100;
    assert x / 0x1_0000 == x / 0x100_0000 * 0x100 + x / 0x1_0000 % 0x100;
  }

  lemma Be24RoundTrip(x: nat)
    requires x <= MAX_PAYLOAD
    ensures FromBe24(Be24(x)) == x
  {
    assert x == x / 0x100 * 0x100 + x % 0x100;
    assert x / 0x100 == x / 0x1_0000 * 0x100 + x / 0x100 % 0x100;
  }

  // ---------------------------------------------------------------- encoding

  /** The eight header bytes of a frame whose payload has `length` bytes. */
  function Header(streamId: U32, flags: Byte, length: nat): (h: Bytes)
    requires length <= MAX_PAYLOAD
    ensures |h| == HEADER_LEN
  {
    Be32(streamId) + [flags] + Be24(length)
  }

  // Header fields as read back from the front of a buffer.
  function HeaderStream(buf: Bytes): U32
    requires |buf| >= HEADER_LEN
  {
    FromBe32(buf[..4])
  }

  function HeaderFlags(buf: Bytes): Byte
    requires |buf| >= HEADER_LEN
  {
    buf[4]
  }

  function HeaderLength(buf: Bytes): (n: nat)
    requires |buf| >= HEADER_LEN
    ensures n <= MAX_PAYLOAD
  {
    FromBe24(buf[5..8])
  }

  lemma HeaderRoundTrip(streamId: U32, flags: Byte, length: nat, rest: Bytes)
    requires length <= MAX_PAYLOAD
    ensures var buf := Header(streamId, flags, length) + rest;
            HeaderStream(buf) == streamId && HeaderFlags(buf) == flags && HeaderLength(buf) == length
  {
    var buf := Header(streamId, flags, length) + rest;
    assert buf[..4] == Be32(streamId);
    assert buf[5..8] == Be24(length);
    Be32RoundTrip(streamId);
    Be24RoundTrip(length);
  }

  /** Raw bytes of a frame, reserved flag or not. */
  function RawBytes(frame: Frame): Bytes
    requires |frame.payload| <= MAX_PAYLOAD
  {
    Header(frame.streamId, frame.flags, |frame.payload|) + frame.payload
  }

  function Encode(frame: Frame): (r: Result<Bytes, FrameError>)
    ensures r.Ok? <==> frame.Encodable()
  {
    if |frame.payload| > MAX_PAYLOAD then Err(PayloadTooLarge(|frame.payload|))
    else if Reserved(frame.flags) then Err(ReservedFlag(frame.flags))
    else Ok(RawBytes(frame))
  }

  predicate AllEncodable(frames: seq<Frame>) {
    forall i :: 0 <= i < |frames| ==> frames[i].Encodable()
  }

  function EncodeAll(frames: seq<Frame>): Bytes
    requires AllEncodable(frames)
  {
    if frames == [] then [] else RawBytes(frames[0]) + EncodeAll(frames[1..])
  }

  lemma {:induction false} EncodeAllAppend(a: seq<Frame>, b: seq<Frame>)
    requires AllEncodable(a) && AllEncodable(b)
    ensures EncodeAll(a + b) == EncodeAll(a) + EncodeAll(b)
  {
    if a == [] {
      assert a + b == b;
    } else {
      assert (a + b)[1..] == a[1..] + b;
      EncodeAllAppend(a[1..], b);
    }
  }

  // ---------------------------------------------------------------- decoding

  datatype Parsed = NeedMore | BadFlag(flags: Byte) | Got(frame: Frame, rest: Bytes)

  /** What the front of a buffer holds. */
  function Parse(buf: Bytes): (p: Parsed)
    ensures p.Got? ==> |p.rest| + HEADER_LEN + |p.frame.payload| == |buf|
    ensures p.Got? ==> p.frame.Encodable()
  {
    if |buf| < HEADER_LEN then NeedMore
    else if Reserved(HeaderFlags(buf)) then BadFlag(HeaderFlags(buf))
    else
      var end := HEADER_LEN + HeaderLength(buf);
      if |buf| < end then NeedMore
      else Got(Frame(HeaderStream(buf), HeaderFlags(buf), buf[HEADER_LEN..end]), buf[end..])
  }

  /** Everything a buffer holds: complete frames, then an undecoded tail. */
  datatype Drained = Drained(frames: seq<Frame>, rest: Bytes, bad: Option<Byte>)

  function Drain(buf: Bytes): (d: Drained)
    ensures AllEncodable(d.frames)
    decreases |buf|
  {
    match Parse(buf)
    case NeedMore => Drained([], buf, None)
    case BadFlag(flags) => Drained([], buf, Some(flags))
    case Got(frame, rest) =>
      var d := Drain(rest);
      Drained([frame] + d.frames, d.rest, d.bad)
  }

  lemma DrainGot(buf: Bytes, frame: Frame, rest: Bytes)
    requires Parse(buf) == Got(frame, rest)
    ensures Drain(buf).frames == [frame] + Drain(rest).frames
    ensures Drain(buf).rest == Drain(rest).rest && Drain(buf).bad == Drain(rest).bad
  {
  }

  /** What is left holds no complete frame, and a reserved flag stays in front. */
  lemma {:induction false} DrainStops(buf: Bytes)
    ensures var d := Drain(buf);
            Parse(d.rest) == match d.bad case None => NeedMore case Some(flags) => BadFlag(flags)
    decreases |buf|
  {
    if Parse(buf).Got? {
      DrainStops(Parse(buf).rest);
    }
  }

  /** Decoding the front of a buffer undoes encoding. */
  lemma ParseEncoded(frame: Frame, rest: Bytes)
    requires frame.Encodable()
    ensures Parse(RawBytes(frame) + rest) == Got(frame, rest)
  {
    var buf := RawBytes(frame) + rest;
    assert buf == Header(frame.streamId, frame.flags, |frame.payload|) + (frame.payload + rest);
    HeaderRoundTrip(frame.streamId, frame.flags, |frame.payload|, frame.payload + rest);
    assert buf[HEADER_LEN..HEADER_LEN + |frame.payload|] == frame.payload;
    assert buf[HEADER_LEN + |frame.payload|..] == rest;
  }

  /** An answer about a prefix is not changed by the bytes that follow. */
  lemma ParseStable(buf: Bytes, more: Bytes)
    ensures Parse(buf).Got? ==>
              Parse(buf + more) == Got(Parse(buf).frame, Parse(buf).rest + more)
    ensures Parse(buf).BadFlag? ==> Parse(buf + more) == Parse(buf)
  {
    if |buf| >= HEADER_LEN {
      assert (buf + more)[..4] == buf[..4];
      assert (buf + more)[5..8] == buf[5..8];
      var end := HEADER_LEN + HeaderLength(buf);
      if |buf| >= end {
        assert (buf + more)[HEADER_LEN..end] == buf[HEADER_LEN..end];
        assert (buf + more)[end..] == buf[end..] + more;
      }
    }
  }

  /** A decoded frame is exactly the bytes taken off the buffer. */
  lemma ParseExact(buf: Bytes)
    requires Parse(buf).Got?
    ensures buf == RawBytes(Parse(buf).frame) + Parse(buf).rest
  {
    var end := HEADER_LEN + HeaderLength(buf);
    var frame := Parse(buf).frame;
    assert buf == buf[..HEADER_LEN] + buf[HEADER_LEN..end] + buf[end..];
    FromBe32Inverse(buf[..4]);
    FromBe24Inverse(buf[5..8]);
    assert Header(frame.streamId, frame.flags, |frame.payload|) == buf[..HEADER_LEN];
  }

  lemma FromBe32Inverse(b: Bytes)
    requires |b| == 4
    ensures Be32(FromBe32(b)) == b
  {
    var x := FromBe32(b);
    assert x / 0x100 == b[0] as int * 0x1_0000 + b[1] as int * 0x100 + b[2];
    assert x / 0x1_0000 == b[0] as int * 0x100 + b[1];
    assert x / 0x100_0000 == b[0];
  }

  lemma FromBe24Inverse(b: Bytes)
    requires |b| == 3
    ensures Be24(FromBe24(b)) == b
  {
    var x := FromBe24(b);
    assert x / 0x100 == b[0] as int * 0x100 + b[1];
    assert x / 0x1_0000 == b[0];
  }

  /** Encode then decode, for any list of frames and any undecoded tail. */
  lemma {:induction false} DrainEncoded(frames: seq<Frame>, tail: Bytes)
    requires AllEncodable(frames)
    ensures var d := Drain(EncodeAll(frames) + tail);
            && d.frames == frames + Drain(tail).frames
            && d.rest == Drain(tail).rest
            && d.bad == Drain(tail).bad
  {
    hide Parse, Drain, RawBytes;
    if frames == [] {
      assert EncodeAll(frames) + tail == tail;
    } else {
      var first := RawBytes(frames[0]);
      var rest := EncodeAll(frames[1..]) + tail;
      assert EncodeAll(frames) + tail == first + rest;
      ParseEncoded(frames[0], rest);
      DrainGot(first + rest, frames[0], rest);
      DrainEncoded(frames[1..], tail);
      assert [frames[0]] + (frames[1..] + Drain(tail).frames) == frames + Drain(tail).frames;
    }
  }

  /** Decode then encode: the frames and the tail are the whole buffer. */
  lemma {:induction false} DrainExact(buf: Bytes)
    ensures buf == EncodeAll(Drain(buf).frames) + Drain(buf).rest
    decreases |buf|
  {
    if Parse(buf).Got? {
      ParseExact(buf);
      var rest := Parse(buf).rest;
      DrainExact(rest);
      var d := Drain(rest);
      assert Drain(buf).frames[1..] == d.frames;
      assert RawBytes(Parse(buf).frame) + (EncodeAll(d.frames) + d.rest)
          == RawBytes(Parse(buf).frame) + EncodeAll(d.frames) + d.rest;
    }
  }

  /**
   Read boundaries do not matter: draining after each of two reads yields the
   frames of one drain over both, unless the first already stopped on a
   reserved flag, in which case it stays stopped whatever arrives.
   */
  lemma {:induction false} DrainSplit(a: Bytes, b: Bytes)
    ensures Drain(a).bad.None? ==>
              var d := Drain(Drain(a).rest + b);
              && Drain(a + b).frames == Drain(a).frames + d.frames
              && Drain(a + b).rest == d.rest
              && Drain(a + b).bad == d.bad
    ensures Drain(a).bad.Some? ==>
              && Drain(a + b).frames == Drain(a).frames
              && Drain(a + b).rest == Drain(a).rest + b
              && Drain(a + b).bad == Drain(a).bad
    decreases |a|
  {
    ParseStable(a, b);
    hide Parse;
    match Parse(a)
    case NeedMore =>
    case BadFlag(_) =>
    case Got(frame, rest) =>
      DrainGot(a, frame, rest);
      DrainGot(a + b, frame, rest + b);
      DrainSplit(rest, b);
      if Drain(rest).bad.None? {
        var d := Drain(Drain(rest).rest + b);
        assert [frame] + (Drain(rest).frames + d.frames) == ([frame] + Drain(rest).frames) + d.frames;
      }
  }

  /** The `n`-th identifier a dialer hands out. */
  function NthId(n: nat): U32 {
    if n == 0 then 1 else NextId(NthId(n - 1))
  }

  const ID_CYCLE: nat := 0x8000_0000

  lemma {:induction false} NthIdClosedForm(n: nat)
    ensures NthId(n) == 1 + 2 * (n % ID_CYCLE)
  {
    if n > 0 {
      NthIdClosedForm(n - 1);
      var r := (n - 1) % ID_CYCLE;
      assert n % ID_CYCLE == if r == ID_CYCLE - 1 then 0 else r + 1;
    }
  }

  /** Dialer identifiers are odd, and repeat exactly every 2^31 allocations. */
  lemma DialerIdsRepeatIff(i: nat, j: nat)
    ensures NthId(i) % 2 == 1
    ensures NthId(i) == NthId(j) <==> i % ID_CYCLE == j % ID_CYCLE
  {
    NthIdClosedForm(i);
    NthIdClosedForm(j);
  }

  /** Streaming frame decoder: feed transport bytes, pull complete frames. */
  class FrameDecoder {
    var buf: Bytes

    constructor ()
      ensures buf == []
    {
      buf := [];
    }

    method Feed(data: Bytes)
      modifies this
      ensures buf == old(buf) + data
    {
      buf := buf + data;
    }

    method NextFrame() returns (r: Result<Option<Frame>, FrameError>)
      modifies this
      ensures match Parse(old(buf))
              case NeedMore => r == Ok(None) && buf == old(buf)
              case BadFlag(flags) => r == Err(ReservedFlag(flags)) && buf == old(buf)
              case Got(frame, rest) => r == Ok(Some(frame)) && buf == rest
    {
      if |buf| < HEADER_LEN {
        return Ok(None);
      }
      var streamId := FromBe32(buf[..4]);
      var flags := buf[4];
      if Reserved(flags) {
        return Err(ReservedFlag(flags));
      }
      var len := buf[5] as int * 0x1_0000 + buf[6] as int * 0x100 + buf[7];
      var end := HEADER_LEN + len;
      if |buf| < end {
        return Ok(None);
      }
      var payload := buf[HEADER_LEN..end];
      buf := buf[end..];
      return Ok(Some(Frame(streamId, flags, payload)));
    }

    /** Frames found before a reserved flag are dropped with the error. */
    method DrainAll() returns (r: Result<seq<Frame>, FrameError>)
      modifies this
      ensures buf == Drain(old(buf)).rest
      ensures match Drain(old(buf)).bad
              case None => r == Ok(Drain(old(buf)).frames)
              case Some(flags) => r == Err(ReservedFlag(flags))
    {
      var out: seq<Frame> := [];
      while true
        invariant var d := Drain(buf);
                  Drain(old(buf)) == Drained(out + d.frames, d.rest, d.bad)
        decreases |buf|
      {
        ghost var before := buf;
        var next := NextFrame();
        match next
        case Err(e) =>
          return Err(e);
        case Ok(None) =>
          assert out + [] == out;
          return Ok(out);
        case Ok(Some(frame)) =>
          assert Drain(before).frames == [frame] + Drain(buf).frames;
          assert out + ([frame] + Drain(buf).frames) == (out + [frame]) + Drain(buf).frames;
          out := out + [frame];
      }
    }
  }

  /** Dialer stream-id allocator: odd identifiers, wrapping in 32 bits. */
  class FrameDialer {
    var next: U32

    constructor ()
      ensures next == 1
    {
      next := 1;
    }

    method Allocate() returns (id: U32)
      modifies this
      ensures id == old(next)
      ensures next == NextId(id)
      ensures forall n: nat :: old(next) == NthId(n) ==> id == NthId(n) && next == NthId(n + 1)
    {
      id := next;
      next := (next + 2) % 0x1_0000_0000;
    }
  }

  function NextId(id: U32): U32 {
    (id + 2) % 0x1_0000_0000
  }
}
