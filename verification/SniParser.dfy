/**
 The ClientHello parser as it runs: a cursor over borrowed bytes and loops over
 records, extensions, names and protocols, each proved against the functions of
 ClientHello.
 */
module SniParsing {
  import opened Outcomes
  import opened Wire
  import H = ClientHello

  class Cursor {
    const bytes: Bytes
    var position: nat

    ghost predicate Valid()
      reads this
    {
      position <= |bytes|
    }

    /** What is still to be read. */
    ghost function Rest(): Bytes
      requires Valid()
      reads this
    {
      bytes[position..]
    }

    constructor (bytes: Bytes)
      ensures Valid() && Rest() == bytes && this.bytes == bytes
    {
      this.bytes := bytes;
      position := 0;
    }

    method IsEmpty() returns (r: bool)
      requires Valid()
      ensures r <==> Rest() == []
    {
      r := position == |bytes|;
    }

    method Take(length: nat) returns (r: Option<Bytes>)
      requires Valid()
      modifies this
      ensures Valid()
      ensures if length <= |old(Rest())| then r == Some(old(Rest())[..length]) && Rest() == old(Rest())[length..]
              else r == None && Rest() == old(Rest())
    {
      var end := position + length;
      if end > |bytes| {
        return None;
      }
      assert Rest()[..length] == bytes[position..end];
      r := Some(bytes[position..end]);
      position := end;
    }

    method U8() returns (r: Option<Byte>)
      requires Valid()
      modifies this
      ensures Valid()
      ensures if |old(Rest())| >= 1 then r == Some(old(Rest())[0]) && Rest() == old(Rest())[1..]
              else r == None
    {
      var taken := Take(1);
      r := if taken.Some? then Some(taken.value[0]) else None;
    }

    method U16() returns (r: Option<nat>)
      requires Valid()
      modifies this
      ensures Valid()
      ensures if |old(Rest())| >= 2 then r == Some(H.U16(old(Rest())[0], old(Rest())[1])) && Rest() == old(Rest())[2..]
              else r == None
    {
      var taken := Take(2);
      r := if taken.Some? then Some(H.U16(taken.value[0], taken.value[1])) else None;
    }

    /** A field preceded by its one-byte length. */
    method Field8() returns (r: Option<Bytes>)
      requires Valid()
      modifies this
      ensures Valid()
      ensures match H.Take8(old(Rest()))
              case None => r == None
              case Some((field, rest)) => r == Some(field) && Rest() == rest
    {
      var length := U8();
      if length.None? {
        return None;
      }
      r := Take(length.value);
    }

    /** A field preceded by its two-byte length. */
    method Field16() returns (r: Option<Bytes>)
      requires Valid()
      modifies this
      ensures Valid()
      ensures match H.Take16(old(Rest()))
              case None => r == None
              case Some((field, rest)) => r == Some(field) && Rest() == rest
    {
      var length := U16();
      if length.None? {
        return None;
      }
      r := Take(length.value);
    }
  }

  /** A two-byte list length that must cover everything. */
  method OnlyList(data: Bytes) returns (r: Option<Bytes>)
    ensures r == match H.Take16(data)
                 case None => None
                 case Some((list, rest)) => if rest == [] then Some(list) else None
  {
    var cursor := new Cursor(data);
    r := cursor.Field16();
    var empty := cursor.IsEmpty();
    if !empty {
      r := None;
    }
  }

  method ParseServerName(u: H.Utf8, data: Bytes) returns (r: Result<string, H.SniError>)
    ensures r == H.ServerName(u, data)
  {
    hide H.Take16;
    var list := OnlyList(data);
    if list.None? {
      return Err(H.Malformed);
    }
    var names := new Cursor(list.value);
    var hostname: Option<string> := None;
    var done := names.IsEmpty();
    while !done
      invariant names.Valid() && fresh(names)
      invariant done <==> names.Rest() == []
      invariant H.Names(u, list.value, None) == H.Names(u, names.Rest(), hostname)
      decreases |names.Rest()|, !done
    {
      ghost var before := names.Rest();
      var kind := names.U8();
      var name := names.Field16();
      if name.None? {
        return Err(H.Malformed);
      }
      if kind == Some(H.HOST_NAME) && hostname.None? {
        if name.value == [] {
          return Err(H.Malformed);
        }
        hostname := u(name.value);
        if hostname.None? {
          return Err(H.Malformed);
        }
      }
      Shorter(before[1..]);
      done := names.IsEmpty();
    }
    r := if hostname.Some? then Ok(hostname.value) else Err(H.NoServerName);
  }

  /** The protocol list is its first entry and then the rest. */
  lemma ProtocolsFirst(b: Bytes, found: bool)
    requires b != []
    ensures match H.Take8(b)
            case None => H.Protocols(b, found) == Err(H.Malformed)
            case Some((proto, rest)) =>
              |rest| < |b| && H.Protocols(b, found) == H.Protocols(rest, found || proto == H.ACME)
  {
  }

  lemma ProtocolsEnd(found: bool)
    ensures H.Protocols([], found) == Ok(found)
  {
  }

  method ParseAlpnForAcme(data: Bytes) returns (r: Result<bool, H.SniError>)
    ensures r == H.Alpn(data)
  {
    hide H.Protocols, H.Take8;
    var list := OnlyList(data);
    if list.None? {
      return Err(H.Malformed);
    }
    var protocols := new Cursor(list.value);
    var hasAcme := false;
    var done := protocols.IsEmpty();
    while !done
      invariant protocols.Valid() && fresh(protocols)
      invariant done <==> protocols.Rest() == []
      invariant H.Protocols(list.value, false) == H.Protocols(protocols.Rest(), hasAcme)
      decreases |protocols.Rest()|, !done
    {
      ProtocolsFirst(protocols.Rest(), hasAcme);
      var proto := protocols.Field8();
      if proto.None? {
        return Err(H.Malformed);
      }
      if proto.value == H.ACME {
        hasAcme := true;
      }
      done := protocols.IsEmpty();
    }
    ProtocolsEnd(hasAcme);
    r := Ok(hasAcme);
  }

  method ParseExtension(u: H.Utf8, kind: nat, data: Bytes, seen: H.Seen) returns (r: Result<H.Seen, H.SniError>)
    ensures r == H.Extension(u, kind, data, seen)
  {
    hide H.ServerName, H.Alpn;
    r := Ok(seen);
    if kind == H.SERVER_NAME_EXTENSION {
      if seen.hostname.Some? {
        return Err(H.Malformed);
      }
      var host := ParseServerName(u, data);
      r := if host.Ok? then Ok(seen.(hostname := Some(host.value))) else Err(host.error);
    } else if kind == H.ALPN_EXTENSION {
      if seen.alpn.Some? {
        return Err(H.Malformed);
      }
      var acme := ParseAlpnForAcme(data);
      r := if acme.Ok? then Ok(seen.(alpn := Some(acme.value))) else Err(acme.error);
    }
  }

  method ParseExtensions(u: H.Utf8, block: Bytes) returns (r: Result<H.Seen, H.SniError>)
    ensures r == H.Extensions(u, block, H.Seen(None, None))
  {
    hide H.Take16, H.Extension;
    var extensions := new Cursor(block);
    var seen := H.Seen(None, None);
    var done := extensions.IsEmpty();
    while !done
      invariant extensions.Valid() && fresh(extensions)
      invariant done <==> extensions.Rest() == []
      invariant H.Extensions(u, block, H.Seen(None, None)) == H.Extensions(u, extensions.Rest(), seen)
      decreases |extensions.Rest()|, !done
    {
      ghost var before := extensions.Rest();
      var kind := extensions.U16();
      if kind.None? {
        return Err(H.Malformed);
      }
      var data := extensions.Field16();
      if data.None? {
        return Err(H.Malformed);
      }
      Shorter(before[2..]);
      var next := ParseExtension(u, kind.value, data.value, seen);
      if next.Err? {
        return Err(next.error);
      }
      seen := next.value;
      done := extensions.IsEmpty();
    }
    r := Ok(seen);
  }

  /** Version, random, session id, cipher suites and compression methods are skipped. */
  method SkipFields(cursor: Cursor) returns (ok: bool)
    requires cursor.Valid()
    modifies cursor
    ensures cursor.Valid()
    ensures match H.Fields(old(cursor.Rest()))
            case None => !ok
            case Some(rest) => ok && cursor.Rest() == rest
  {
    hide H.Take8, H.Take16;
    var fixed := cursor.Take(34);
    if fixed.None? {
      return false;
    }
    var session := cursor.Field8();
    if session.None? {
      return false;
    }
    var ciphers := cursor.Field16();
    if ciphers.None? {
      return false;
    }
    var compression := cursor.Field8();
    return compression.Some?;
  }

  method ParseBlock(body: Bytes) returns (r: Option<Bytes>)
    ensures r == H.ExtensionBlock(body)
  {
    hide H.Take16, H.Fields;
    var cursor := new Cursor(body);
    var ok := SkipFields(cursor);
    if !ok {
      return None;
    }
    r := cursor.Field16();
    var empty := cursor.IsEmpty();
    if !empty {
      r := None;
    }
  }

  method ParseClientHelloBody(u: H.Utf8, body: Bytes) returns (r: Result<H.Routing, H.SniError>)
    ensures r == H.Body(u, body)
  {
    hide H.ExtensionBlock, H.Extensions;
    var block := ParseBlock(body);
    if block.None? {
      return Err(H.Malformed);
    }
    var seen := ParseExtensions(u, block.value);
    r := if seen.Ok? then H.RoutingOf(seen.value) else Err(seen.error);
  }

  /** One record's payload, a byte at a time. */
  method AbsorbPayload(handshake: Bytes, payload: Bytes) returns (r: H.Absorbed)
    ensures r == H.Absorb(handshake, payload)
  {
    var h := handshake;
    var i := 0;
    while i < |payload|
      invariant 0 <= i <= |payload|
      invariant H.Absorb(handshake, payload) == H.Absorb(h, payload[i..])
    {
      if |h| == H.MAX_HANDSHAKE {
        return H.Bad;
      }
      h := h + [payload[i]];
      assert payload[i..][1..] == payload[i + 1..];
      if |h| == 1 && h[0] != H.CLIENT_HELLO {
        return H.Bad;
      }
      if |h| == 4 && H.Total(h) > H.MAX_HANDSHAKE {
        return H.Bad;
      }
      if |h| >= 4 && |h| == H.Total(h) {
        if i + 1 != |payload| {
          return H.Bad;
        }
        return H.Whole(h);
      }
      i := i + 1;
    }
    r := H.More(h);
  }

  /** Parse complete records from a freshly peeked prefix. */
  method ParseClientHello(u: H.Utf8, input: Bytes) returns (r: Result<H.Outcome, H.SniError>)
    ensures r == H.Parse(u, input)
  {
    hide H.Absorb, H.Body;
    var cursor: nat, count: nat, wire: nat := 0, 0, 0;
    var handshake: Bytes := [];
    assert input[0..] == input;
    while true
      invariant 0 <= cursor <= |input|
      invariant H.Parse(u, input) == H.Records(u, input[cursor..], count, wire, handshake)
      decreases |input| - cursor
    {
      if cursor == |input| {
        return Ok(H.Incomplete);
      }
      if count == H.MAX_RECORDS {
        return Err(H.Malformed);
      }
      if cursor + H.RECORD_HEADER > |input| {
        return Ok(H.Incomplete);
      }
      if input[cursor] != H.TLS_HANDSHAKE {
        return Err(H.Malformed);
      }
      var n := H.U16(input[cursor + 3], input[cursor + 4]);
      var end := cursor + H.RECORD_HEADER + n;
      if n > H.MAX_RECORD_PAYLOAD || wire + H.RECORD_HEADER + n > H.MAX_WIRE {
        return Err(H.Malformed);
      }
      if end > |input| {
        return Ok(H.Incomplete);
      }
      var payload := input[cursor + H.RECORD_HEADER..end];
      ghost var rest := input[cursor..];
      assert rest[H.RECORD_HEADER..H.RECORD_HEADER + n] == payload;
      assert rest[H.RECORD_HEADER + n..] == input[end..];
      var absorbed := AbsorbPayload(handshake, payload);
      if absorbed == H.Bad {
        return Err(H.Malformed);
      }
      if absorbed.Whole? {
        H.WholeIsMessage(handshake, payload);
        var routing := ParseClientHelloBody(u, absorbed.handshake[4..]);
        return if routing.Ok? then Ok(H.Complete(routing.value)) else Err(routing.error);
      }
      handshake := absorbed.handshake;
      cursor, count, wire := end, count + 1, wire + H.RECORD_HEADER + n;
    }
  }

  lemma Shorter(b: Bytes)
    ensures H.Take16(b).Some? ==> |H.Take16(b).value.1| < |b|
  {
  }
}
