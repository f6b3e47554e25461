/**
 Routing metadata from a TLS ClientHello: record reassembly (section 5.1 of RFC
 8446), the server_name extension (section 3 of RFC 6066) and ALPN (section 3.1
 of RFC 7301), as functions of the bytes. UTF-8 decoding is a parameter.
 */
module ClientHello {
  import opened Outcomes
  import opened Wire

  const TLS_HANDSHAKE: Byte := 0x16
  const CLIENT_HELLO: Byte := 0x01
  const SERVER_NAME_EXTENSION: nat := 0
  const ALPN_EXTENSION: nat := 16
  const HOST_NAME: Byte := 0
  const ACME: Bytes := [0x61, 0x63, 0x6d, 0x65, 0x2d, 0x74, 0x6c, 0x73, 0x2f, 0x31]

  const RECORD_HEADER: nat := 5
  const MAX_HANDSHAKE: nat := 32_768
  const MAX_RECORD_PAYLOAD: nat := 16_384
  const MAX_RECORDS: nat := 32_768
  const MAX_WIRE: nat := 196_608

  type Utf8 = Bytes -> Option<string>

  datatype Routing = Routing(hostname: string, acmeTlsAlpn: bool)

  datatype SniError = Malformed | NoServerName

  datatype Outcome = Complete(routing: Routing) | Incomplete

  // ------------------------------------------------------------ length-prefixed fields

  function U16(hi: Byte, lo: Byte): nat {
    hi as int * 0x100 + lo as int
  }

  /** The first `n` bytes and the rest. */
  function Take(b: Bytes, n: nat): Option<(Bytes, Bytes)> {
    if n <= |b| then Some((b[..n], b[n..])) else None
  }

  /** A field preceded by its one-byte length. */
  function Take8(b: Bytes): Option<(Bytes, Bytes)> {
    if b == [] then None else Take(b[1..], b[0])
  }

  /** A field preceded by its two-byte length. */
  function Take16(b: Bytes): Option<(Bytes, Bytes)> {
    if |b| < 2 then None else Take(b[2..], U16(b[0], b[1]))
  }

  // ------------------------------------------------------------ extensions

  /** server_name entries: the first host_name counts and must be nonempty UTF-8. */
  function Names(u: Utf8, b: Bytes, host: Option<string>): Result<Option<string>, SniError>
    decreases |b|
  {
    if b == [] then Ok(host)
    else match Take16(b[1..])
         case None => Err(Malformed)
         case Some((name, rest)) =>
           if b[0] != HOST_NAME || host.Some? then Names(u, rest, host)
           else if name == [] || u(name).None? then Err(Malformed)
           else Names(u, rest, u(name))
  }

  function ServerName(u: Utf8, data: Bytes): Result<string, SniError> {
    match Take16(data)
    case None => Err(Malformed)
    case Some((names, rest)) =>
      if rest != [] then Err(Malformed)
      else match Names(u, names, None)
           case Err(e) => Err(e)
           case Ok(None) => Err(NoServerName)
           case Ok(Some(host)) => Ok(host)
  }

  function Protocols(b: Bytes, found: bool): Result<bool, SniError>
    decreases |b|
  {
    if b == [] then Ok(found)
    else match Take8(b)
         case None => Err(Malformed)
         case Some((proto, rest)) => Protocols(rest, found || proto == ACME)
  }

  function Alpn(data: Bytes): Result<bool, SniError> {
    match Take16(data)
    case None => Err(Malformed)
    case Some((protocols, rest)) => if rest != [] then Err(Malformed) else Protocols(protocols, false)
  }

  /** What the extensions read so far have given: a hostname, and ALPN's answer. */
  datatype Seen = Seen(hostname: Option<string>, alpn: Option<bool>)

  /** One extension; a second server_name or ALPN extension is malformed. */
  function Extension(u: Utf8, kind: nat, data: Bytes, seen: Seen): Result<Seen, SniError> {
    if kind == SERVER_NAME_EXTENSION then
      if seen.hostname.Some? then Err(Malformed)
      else match ServerName(u, data)
           case Err(e) => Err(e)
           case Ok(host) => Ok(seen.(hostname := Some(host)))
    else if kind == ALPN_EXTENSION then
      if seen.alpn.Some? then Err(Malformed)
      else match Alpn(data)
           case Err(e) => Err(e)
           case Ok(acme) => Ok(seen.(alpn := Some(acme)))
    else Ok(seen)
  }

  function Extensions(u: Utf8, b: Bytes, seen: Seen): Result<Seen, SniError>
    decreases |b|
  {
    if b == [] then Ok(seen)
    else if |b| < 2 then Err(Malformed)
    else match Take16(b[2..])
         case None => Err(Malformed)
         case Some((data, rest)) =>
           match Extension(u, U16(b[0], b[1]), data, seen)
           case Err(e) => Err(e)
           case Ok(seen') => Extensions(u, rest, seen')
  }

  function RoutingOf(seen: Seen): Result<Routing, SniError> {
    if seen.hostname.None? then Err(NoServerName)
    else Ok(Routing(seen.hostname.value, seen.alpn == Some(true)))
  }

  /** What follows version, random, session id, cipher suites and compression methods. */
  function Fields(body: Bytes): Option<Bytes> {
    match Take(body, 34)
    case None => None
    case Some((_, afterRandom)) =>
      match Take8(afterRandom)
      case None => None
      case Some((_, afterSession)) =>
        match Take16(afterSession)
        case None => None
        case Some((_, afterCiphers)) =>
          match Take8(afterCiphers)
          case None => None
          case Some((_, afterCompression)) => Some(afterCompression)
  }

  /** The extensions block of a ClientHello body, or nothing if it is malformed. */
  function ExtensionBlock(body: Bytes): Option<Bytes> {
    match Fields(body)
    case None => None
    case Some(afterCompression) =>
      match Take16(afterCompression)
      case None => None
      case Some((extensions, rest)) => if rest == [] then Some(extensions) else None
  }

  function Body(u: Utf8, body: Bytes): Result<Routing, SniError> {
    match ExtensionBlock(body)
    case None => Err(Malformed)
    case Some(extensions) =>
      match Extensions(u, extensions, Seen(None, None))
      case Err(e) => Err(e)
      case Ok(seen) => RoutingOf(seen)
  }

  // ------------------------------------------------------------ reassembly

  /** Declared length of a handshake message with its four-byte header. */
  function Total(handshake: Bytes): nat
    requires |handshake| >= 4
  {
    4 + handshake[1] as int * 0x1_0000 + handshake[2] as int * 0x100 + handshake[3] as int
  }

  datatype Absorbed = Bad | More(handshake: Bytes) | Whole(handshake: Bytes)

  /** One record payload, byte by byte; the message must end where its record ends. */
  function Absorb(handshake: Bytes, payload: Bytes): Absorbed
    decreases |payload|
  {
    if payload == [] then More(handshake)
    else if |handshake| == MAX_HANDSHAKE then Bad
    else
      var h := handshake + [payload[0]];
      if |h| == 1 && h[0] != CLIENT_HELLO then Bad
      else if |h| == 4 && Total(h) > MAX_HANDSHAKE then Bad
      else if |h| >= 4 && |h| == Total(h) then if |payload| == 1 then Whole(h) else Bad
      else Absorb(h, payload[1..])
  }

  function Finish(u: Utf8, handshake: Bytes): Result<Outcome, SniError>
    requires |handshake| >= 4
  {
    match Body(u, handshake[4..])
    case Err(e) => Err(e)
    case Ok(routing) => Ok(Complete(routing))
  }

  lemma WholeIsMessage(handshake: Bytes, payload: Bytes)
    ensures Absorb(handshake, payload).Whole? ==>
              var h := Absorb(handshake, payload).handshake;
              h == handshake + payload && 4 <= |h| == Total(h)
    ensures Absorb(handshake, payload).More? ==> Absorb(handshake, payload).handshake == handshake + payload
    decreases |payload|
  {
    if payload == [] {
      assert handshake + payload == handshake;
    } else if |handshake| != MAX_HANDSHAKE {
      var h := handshake + [payload[0]];
      assert h + payload[1..] == handshake + payload;
      WholeIsMessage(h, payload[1..]);
    }
  }

  /** Records from the front of `input`, after `count` records of `wire` bytes gave `handshake`. */
  function Records(u: Utf8, input: Bytes, count: nat, wire: nat, handshake: Bytes): Result<Outcome, SniError>
    decreases |input|
  {
    if input == [] then Ok(Incomplete)
    else if count == MAX_RECORDS then Err(Malformed)
    else if |input| < RECORD_HEADER then Ok(Incomplete)
    else if input[0] != TLS_HANDSHAKE then Err(Malformed)
    else
      var n := U16(input[3], input[4]);
      if n > MAX_RECORD_PAYLOAD || wire + RECORD_HEADER + n > MAX_WIRE then Err(Malformed)
      else if |input| < RECORD_HEADER + n then Ok(Incomplete)
      else
        WholeIsMessage(handshake, input[RECORD_HEADER..RECORD_HEADER + n]);
        match Absorb(handshake, input[RECORD_HEADER..RECORD_HEADER + n])
        case Bad => Err(Malformed)
        case Whole(h) => Finish(u, h)
        case More(h) => Records(u, input[RECORD_HEADER + n..], count + 1, wire + RECORD_HEADER + n, h)
  }

  function Parse(u: Utf8, input: Bytes): Result<Outcome, SniError> {
    Records(u, input, 0, 0, [])
  }

  // ------------------------------------------------------------ stability

  /** An answer on a prefix is the answer on every extension of it. */
  lemma {:induction false} RecordsStable(u: Utf8, input: Bytes, count: nat, wire: nat, handshake: Bytes, more: Bytes)
    requires Records(u, input, count, wire, handshake) != Ok(Incomplete)
    ensures Records(u, input + more, count, wire, handshake) == Records(u, input, count, wire, handshake)
    decreases |input|
  {
    hide Absorb, Body;
    var all := input + more;
    if count != MAX_RECORDS && input[0] == TLS_HANDSHAKE {
      var n := U16(input[3], input[4]);
      if n <= MAX_RECORD_PAYLOAD && wire + RECORD_HEADER + n <= MAX_WIRE {
        assert all[RECORD_HEADER..RECORD_HEADER + n] == input[RECORD_HEADER..RECORD_HEADER + n];
        var a := Absorb(handshake, input[RECORD_HEADER..RECORD_HEADER + n]);
        if a.More? {
          assert all[RECORD_HEADER + n..] == input[RECORD_HEADER + n..] + more;
          RecordsStable(u, input[RECORD_HEADER + n..], count + 1, wire + RECORD_HEADER + n, a.handshake, more);
        }
      }
    }
  }

  /** Re-peeking from byte zero is sound: more bytes never change an answer. */
  lemma AnswersAreFinal(u: Utf8, input: Bytes, more: Bytes)
    requires Parse(u, input) != Ok(Incomplete)
    ensures Parse(u, input + more) == Parse(u, input)
  {
    RecordsStable(u, input, 0, 0, [], more);
  }

  // ------------------------------------------------------------ fragmentation

  datatype Record = Record(major: Byte, minor: Byte, payload: Bytes)

  predicate AllFit(records: seq<Record>) {
    forall i :: 0 <= i < |records| ==> |records[i].payload| <= MAX_RECORD_PAYLOAD
  }

  predicate AllNonempty(records: seq<Record>) {
    forall i :: 0 <= i < |records| ==> records[i].payload != []
  }

  function EncodeRecord(r: Record): Bytes
    requires |r.payload| <= MAX_RECORD_PAYLOAD
  {
    [TLS_HANDSHAKE, r.major, r.minor, |r.payload| / 0x100, |r.payload| % 0x100] + r.payload
  }

  function EncodeRecords(records: seq<Record>): Bytes
    requires AllFit(records)
  {
    if records == [] then [] else EncodeRecord(records[0]) + EncodeRecords(records[1..])
  }

  function Payload(records: seq<Record>): Bytes {
    if records == [] then [] else records[0].payload + Payload(records[1..])
  }

  /** A whole ClientHello handshake message within the size limit. */
  predicate Message(handshake: Bytes) {
    4 <= |handshake| <= MAX_HANDSHAKE && handshake[0] == CLIENT_HELLO && |handshake| == Total(handshake)
  }

  /** Absorbing the next piece of a message, whatever came before and comes after. */
  lemma {:induction false} AbsorbPiece(before: Bytes, piece: Bytes, after: Bytes)
    requires Message(before + piece + after) && (piece + after != [])
    ensures Absorb(before, piece) == if after == [] then Whole(before + piece) else More(before + piece)
    decreases |piece|
  {
    var m := before + piece + after;
    if piece == [] {
      assert before + piece == before;
    } else {
      var h := before + [piece[0]];
      assert h + piece[1..] + after == m;
      assert h + piece[1..] == before + piece;
      assert |h| >= 4 ==> Total(h) == Total(m);
      assert h[0] == m[0];
      if |h| == |m| {
        assert after == [] && |piece| == 1;
        assert h == before + piece;
      } else {
        AbsorbPiece(h, piece[1..], after);
      }
    }
  }

  lemma RecordHeader(r: Record, rest: Bytes)
    requires |r.payload| <= MAX_RECORD_PAYLOAD
    ensures var b := EncodeRecord(r) + rest;
            var n := |r.payload|;
            && |b| >= RECORD_HEADER + n && b[0] == TLS_HANDSHAKE && U16(b[3], b[4]) == n
            && b[RECORD_HEADER..RECORD_HEADER + n] == r.payload
            && b[RECORD_HEADER + n..] == rest
  {
  }

  /** Nonempty records keep every count below its limit until the message is whole. */
  lemma {:induction false} RecordsReassemble(u: Utf8, records: seq<Record>, count: nat, wire: nat, before: Bytes,
                                             rest: Bytes)
    requires records != [] && AllFit(records) && AllNonempty(records)
    requires Message(before + Payload(records))
    requires count <= |before| && wire == RECORD_HEADER * count + |before|
    ensures Records(u, EncodeRecords(records) + rest, count, wire, before) == Finish(u, before + Payload(records))
    decreases |records|
  {
    hide Absorb, Finish, EncodeRecord, Total;
    var r := records[0];
    var tail := EncodeRecords(records[1..]) + rest;
    var n := |r.payload|;
    var after := Payload(records[1..]);
    assert EncodeRecords(records) + rest == EncodeRecord(r) + tail;
    RecordHeader(r, tail);
    assert before + Payload(records) == before + r.payload + after;
    assert r.payload + after != [];
    AbsorbPiece(before, r.payload, after);
    if records[1..] == [] {
      assert before + r.payload == before + Payload(records);
    } else {
      assert records[1..][0].payload != [] && after != [];
      RecordsReassemble(u, records[1..], count + 1, wire + RECORD_HEADER + n, before + r.payload, rest);
    }
  }

  /**
   However a ClientHello message is cut into nonempty records, and whatever
   follows, no limit is reached and the answer is that of the uncut body.
   */
  lemma AnyCutParsesTheSame(u: Utf8, handshake: Bytes, records: seq<Record>, rest: Bytes)
    requires Message(handshake)
    requires AllFit(records) && AllNonempty(records) && Payload(records) == handshake
    ensures Parse(u, EncodeRecords(records) + rest) == Finish(u, handshake)
  {
    hide Message, Finish, Records;
    if records == [] {
      assert Payload(records) == [];
      assert false by { assert !Message([]) by { EmptyIsNoMessage(); } }
    }
    assert [] + Payload(records) == handshake;
    RecordsReassemble(u, records, 0, 0, [], rest);
  }

  lemma EmptyIsNoMessage()
    ensures !Message([])
  {
  }

  /** Until its last byte is there, a cut message is incomplete. */
  lemma {:induction false} PrefixWaits(u: Utf8, records: seq<Record>, count: nat, wire: nat, before: Bytes, k: nat)
    requires records != [] && AllFit(records) && AllNonempty(records)
    requires Message(before + Payload(records))
    requires count <= |before| && wire == RECORD_HEADER * count + |before|
    requires k < |EncodeRecords(records)|
    ensures Records(u, EncodeRecords(records)[..k], count, wire, before) == Ok(Incomplete)
    decreases |records|
  {
    hide Absorb, Finish, EncodeRecord, Total;
    var r := records[0];
    var tail := EncodeRecords(records[1..]);
    var n := |r.payload|;
    var after := Payload(records[1..]);
    assert r.payload != [];
    assert EncodeRecords(records) == EncodeRecord(r) + tail;
    RecordHeader(r, tail);
    assert before + Payload(records) == before + r.payload + after;
    var input := EncodeRecords(records)[..k];
    if k >= RECORD_HEADER + n {
      assert |tail| > 0 && records[1..] != [];
      assert records[1..][0].payload != [] && after != [];
      AbsorbPiece(before, r.payload, after);
      assert input[RECORD_HEADER..RECORD_HEADER + n] == r.payload;
      assert input[RECORD_HEADER + n..] == tail[..k - RECORD_HEADER - n];
      PrefixWaits(u, records[1..], count + 1, wire + RECORD_HEADER + n, before + r.payload, k - RECORD_HEADER - n);
    }
  }

  predicate Begun(handshake: Bytes) {
    |handshake| <= MAX_HANDSHAKE && (handshake != [] ==> handshake[0] == CLIENT_HELLO)
  }

  lemma {:induction false} AbsorbBegun(handshake: Bytes, payload: Bytes)
    requires Begun(handshake)
    ensures Absorb(handshake, payload) != Bad ==> Begun(Absorb(handshake, payload).handshake)
    decreases |payload|
  {
    if payload != [] && |handshake| != MAX_HANDSHAKE {
      var h := handshake + [payload[0]];
      if |h| != 1 || h[0] == CLIENT_HELLO {
        AbsorbBegun(h, payload[1..]);
      }
    }
  }

  function FirstRecord(input: Bytes): Record
    requires |input| >= RECORD_HEADER && |input| >= RECORD_HEADER + U16(input[3], input[4])
  {
    Record(input[1], input[2], input[RECORD_HEADER..RECORD_HEADER + U16(input[3], input[4])])
  }

  lemma FirstRecordExact(input: Bytes)
    requires |input| >= RECORD_HEADER && |input| >= RECORD_HEADER + U16(input[3], input[4])
    requires input[0] == TLS_HANDSHAKE && U16(input[3], input[4]) <= MAX_RECORD_PAYLOAD
    ensures input == EncodeRecord(FirstRecord(input)) + input[RECORD_HEADER + U16(input[3], input[4])..]
  {
    var n := |FirstRecord(input).payload|;
    assert n / 0x100 == input[3] && n % 0x100 == input[4];
  }

  /** A first record in front of others. */
  lemma RecordInFront(r: Record, more: seq<Record>)
    requires |r.payload| <= MAX_RECORD_PAYLOAD && AllFit(more)
    ensures AllFit([r] + more)
    ensures EncodeRecords([r] + more) == EncodeRecord(r) + EncodeRecords(more)
    ensures Payload([r] + more) == r.payload + Payload(more)
  {
    hide EncodeRecord;
    assert ([r] + more)[1..] == more;
  }

  /** What one record contributes to a Complete answer. */
  lemma CompleteStep(u: Utf8, input: Bytes, count: nat, wire: nat, before: Bytes, routing: Routing)
    requires Begun(before) && Records(u, input, count, wire, before) == Ok(Complete(routing))
    ensures |input| >= RECORD_HEADER && |input| >= RECORD_HEADER + U16(input[3], input[4])
    ensures var n := U16(input[3], input[4]);
            var r, tail := FirstRecord(input), input[RECORD_HEADER + n..];
            var h := before + r.payload;
            && n <= MAX_RECORD_PAYLOAD && input == EncodeRecord(r) + tail && Begun(h)
            && (if Absorb(before, r.payload).Whole? then Message(h) && Body(u, h[4..]) == Ok(routing)
                else Records(u, tail, count + 1, wire + RECORD_HEADER + n, h) == Ok(Complete(routing)))
  {
    hide Absorb, Body, Total, EncodeRecord;
    FirstRecordExact(input);
    WholeIsMessage(before, FirstRecord(input).payload);
    AbsorbBegun(before, FirstRecord(input).payload);
  }

  /** A Complete answer comes from a whole message in records, and from nothing else. */
  lemma {:induction false} CompleteIsMessage(u: Utf8, input: Bytes, count: nat, wire: nat, before: Bytes,
                                             routing: Routing)
    returns (records: seq<Record>, rest: Bytes)
    requires Begun(before) && Records(u, input, count, wire, before) == Ok(Complete(routing))
    ensures AllFit(records) && input == EncodeRecords(records) + rest
    ensures var h := before + Payload(records);
            Message(h) && Body(u, h[4..]) == Ok(routing)
    decreases |input|
  {
    hide Absorb, Body, Total, EncodeRecord, Records, EncodeRecords, Payload, AllFit, Begun;
    CompleteStep(u, input, count, wire, before, routing);
    var n := U16(input[3], input[4]);
    var r, tail := FirstRecord(input), input[RECORD_HEADER + n..];
    if Absorb(before, r.payload).Whole? {
      NoRecords();
      RecordInFront(r, []);
      records, rest := [r] + [], tail;
      assert before + Payload(records) == before + r.payload;
      assert EncodeRecord(r) + [] + tail == EncodeRecord(r) + tail;
    } else {
      var more;
      more, rest := CompleteIsMessage(u, tail, count + 1, wire + RECORD_HEADER + n, before + r.payload, routing);
      RecordInFront(r, more);
      records := [r] + more;
      assert EncodeRecord(r) + (EncodeRecords(more) + rest) == (EncodeRecord(r) + EncodeRecords(more)) + rest;
      assert before + (r.payload + Payload(more)) == (before + r.payload) + Payload(more);
    }
  }

  lemma NoRecords()
    ensures AllFit([]) && EncodeRecords([]) == [] && Payload([]) == []
  {
  }

  // ------------------------------------------------------------ peeking

  const INITIAL_PEEK: nat := 4096

  /**
   The peek loop over the bytes the client will ever send: each arrival is how many
   are available at that peek. None while more peeks are needed.
   */
  function Extract(u: Utf8, stream: Bytes, capacity: nat, arrivals: seq<nat>): Option<Result<Routing, SniError>>
    requires forall i :: 0 <= i < |arrivals| ==> arrivals[i] <= |stream|
    decreases |arrivals|
  {
    if arrivals == [] then None
    else
      var received := if arrivals[0] < capacity then arrivals[0] else capacity;
      if received == 0 then Some(Err(Malformed))
      else match Parse(u, stream[..received])
           case Err(e) => Some(Err(e))
           case Ok(Complete(routing)) => Some(Ok(routing))
           case Ok(Incomplete) =>
             if capacity == MAX_WIRE then Some(Err(Malformed))
             else if received == capacity then
               Extract(u, stream, if capacity * 2 < MAX_WIRE then capacity * 2 else MAX_WIRE, arrivals[1..])
             else Extract(u, stream, capacity, arrivals[1..])
  }

  /** Peeking never gives a routing that the whole stream would not. */
  lemma {:induction false} PeekingIsSound(u: Utf8, stream: Bytes, capacity: nat, arrivals: seq<nat>)
    requires forall i :: 0 <= i < |arrivals| ==> arrivals[i] <= |stream|
    ensures Extract(u, stream, capacity, arrivals).Some? && Extract(u, stream, capacity, arrivals).value.Ok? ==>
              Parse(u, stream) == Ok(Complete(Extract(u, stream, capacity, arrivals).value.value))
    decreases |arrivals|
  {
    hide Parse;
    if arrivals != [] {
      var received := if arrivals[0] < capacity then arrivals[0] else capacity;
      assert stream == stream[..received] + stream[received..];
      if Parse(u, stream[..received]) == Ok(Incomplete) {
        PeekingIsSound(u, stream, if capacity * 2 < MAX_WIRE then capacity * 2 else MAX_WIRE, arrivals[1..]);
        PeekingIsSound(u, stream, capacity, arrivals[1..]);
      } else {
        AnswersAreFinal(u, stream[..received], stream[received..]);
      }
    }
  }

  /** What one peek of a cut message finds. */
  lemma PeekFinds(u: Utf8, handshake: Bytes, records: seq<Record>, rest: Bytes, received: nat)
    requires Message(handshake) && AllFit(records) && AllNonempty(records) && Payload(records) == handshake
    requires received <= |EncodeRecords(records) + rest|
    ensures Parse(u, (EncodeRecords(records) + rest)[..received]) ==
            if received < |EncodeRecords(records)| then Ok(Incomplete) else Finish(u, handshake)
  {
    hide Records, Message, Finish;
    var wire := EncodeRecords(records);
    assert [] + Payload(records) == handshake;
    if records == [] {
      EmptyIsNoMessage();
    } else if received < |wire| {
      PrefixWaits(u, records, 0, 0, [], received);
      assert (wire + rest)[..received] == wire[..received];
    } else {
      AnyCutParsesTheSame(u, handshake, records, rest[..received - |wire|]);
      assert (wire + rest)[..received] == wire + rest[..received - |wire|];
    }
  }

  /** Capacities before the last growth step. */
  predicate Growing(capacity: nat) {
    capacity == 0x1000 || capacity == 0x2000 || capacity == 0x4000 || capacity == 0x8000 || capacity == 0x1_0000
    || capacity == LAST_DOUBLING
  }

  const LAST_DOUBLING: nat := 0x2_0000

  /** The answer the uncut body deserves. */
  function Deserved(u: Utf8, handshake: Bytes): Result<Routing, SniError>
    requires |handshake| >= 4
  {
    Body(u, handshake[4..])
  }

  /** A message of at most 131,072 wire bytes is never refused for arriving slowly. */
  lemma {:induction false} ShortHelloIsSafe(u: Utf8, handshake: Bytes, records: seq<Record>, rest: Bytes,
                                            capacity: nat, arrivals: seq<nat>)
    requires Message(handshake) && AllFit(records) && AllNonempty(records) && Payload(records) == handshake
    requires forall i :: 0 <= i < |arrivals| ==> 0 < arrivals[i] <= |EncodeRecords(records) + rest|
    requires |EncodeRecords(records)| <= LAST_DOUBLING && Growing(capacity)
    ensures var answer := Extract(u, EncodeRecords(records) + rest, capacity, arrivals);
            answer.None? || answer == Some(Deserved(u, handshake))
    decreases |arrivals|
  {
    hide Parse, Body, EncodeRecords, Total;
    if arrivals != [] {
      var stream := EncodeRecords(records) + rest;
      var received := if arrivals[0] < capacity then arrivals[0] else capacity;
      PeekFinds(u, handshake, records, rest, received);
      if received < |EncodeRecords(records)| {
        ShortHelloIsSafe(u, handshake, records, rest, capacity, arrivals[1..]);
        if received == capacity {
          ShortHelloIsSafe(u, handshake, records, rest, capacity * 2, arrivals[1..]);
        }
      }
    }
  }

  /** Peeks that each find the same first 131,072 bytes. */
  function Stall(n: nat): (arrivals: seq<nat>)
    ensures |arrivals| == n && forall i :: 0 <= i < n ==> arrivals[i] == LAST_DOUBLING
  {
    if n == 0 then [] else [LAST_DOUBLING] + Stall(n - 1)
  }

  /** The loop refuses a stalled longer message once its window is at its limit. */
  lemma {:induction false} StalledHelloIsRefused(u: Utf8, handshake: Bytes, records: seq<Record>, rest: Bytes,
                                                 capacity: nat, n: nat)
    requires Message(handshake) && AllFit(records) && AllNonempty(records) && Payload(records) == handshake
    requires |EncodeRecords(records)| > LAST_DOUBLING
    requires (capacity == MAX_WIRE && n == 1) || (capacity == LAST_DOUBLING && n == 2)
             || (capacity == 0x1_0000 && n == 3)
          || (capacity == 0x8000 && n == 4) || (capacity == 0x4000 && n == 5) || (capacity == 0x2000 && n == 6)
          || (capacity == 0x1000 && n == 7)
    ensures Extract(u, EncodeRecords(records) + rest, capacity, Stall(n)) == Some(Err(Malformed))
    decreases n
  {
    hide Parse, Body, EncodeRecords, Total;
    var received := if LAST_DOUBLING < capacity then LAST_DOUBLING else capacity;
    PeekFinds(u, handshake, records, rest, received);
    assert Stall(n)[1..] == Stall(n - 1);
    if n > 1 {
      var grown := if capacity * 2 < MAX_WIRE then capacity * 2 else MAX_WIRE;
      StalledHelloIsRefused(u, handshake, records, rest, grown, n - 1);
    }
  }

  predicate Schedule(arrivals: seq<nat>, length: nat) {
    forall i :: 0 <= i < |arrivals| ==> 0 < arrivals[i] <= length
  }

  /**
   The peek loop gives a routable message its routing on every arrival schedule
   exactly when the cut message takes at most 131,072 wire bytes, although the
   wire limit is 196,608.
   */
  lemma PeekingIsFaithfulIff(u: Utf8, handshake: Bytes, records: seq<Record>, rest: Bytes)
    requires Message(handshake) && AllFit(records) && AllNonempty(records) && Payload(records) == handshake
    requires Deserved(u, handshake).Ok?
    ensures var stream := EncodeRecords(records) + rest;
            (forall arrivals: seq<nat> :: Schedule(arrivals, |stream|) ==>
               var answer := Extract(u, stream, INITIAL_PEEK, arrivals);
               answer.None? || answer == Some(Deserved(u, handshake)))
            <==> |EncodeRecords(records)| <= LAST_DOUBLING
  {
    hide Extract, EncodeRecords, Deserved, Total;
    var stream := EncodeRecords(records) + rest;
    if |EncodeRecords(records)| <= LAST_DOUBLING {
      forall arrivals: seq<nat> | Schedule(arrivals, |stream|)
        ensures var answer := Extract(u, stream, INITIAL_PEEK, arrivals);
                answer.None? || answer == Some(Deserved(u, handshake))
      {
        ShortHelloIsSafe(u, handshake, records, rest, INITIAL_PEEK, arrivals);
      }
    } else {
      StalledHelloIsRefused(u, handshake, records, rest, INITIAL_PEEK, 7);
      assert Schedule(Stall(7), |stream|);
    }
  }
}
