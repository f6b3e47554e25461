/**
 The ClientHello body as a structure: what its bytes are, what routing it means,
 that parsing the bytes gives exactly that meaning, errors included, and that only
 such bytes are routed.
 */
module HelloBody {
  import opened Outcomes
  import opened Wire
  import opened ClientHello

  datatype Name = Name(kind: Byte, bytes: Bytes)

  datatype Ext = Sni(names: seq<Name>) | AlpnList(protocols: seq<Bytes>) | Other(kind: nat, data: Bytes)

  /** Protocol version and random, three length-prefixed fields, and extensions. */
  datatype Hello = Hello(fixed: Bytes, session: Bytes, ciphers: Bytes, compression: Bytes, extensions: seq<Ext>)

  // ------------------------------------------------------------ bytes

  const MAX8: nat := 0xff
  const MAX16: nat := 0xffff

  function Be16(n: nat): Bytes
    requires n <= MAX16
  {
    [n / 0x100, n % 0x100]
  }

  function Field8(b: Bytes): Bytes
    requires |b| <= MAX8
  {
    [|b|] + b
  }

  function Field16(b: Bytes): Bytes
    requires |b| <= MAX16
  {
    Be16(|b|) + b
  }

  predicate NamesFit(names: seq<Name>) {
    forall i :: 0 <= i < |names| ==> |names[i].bytes| <= MAX16
  }

  function EncodeNames(names: seq<Name>): Bytes
    requires NamesFit(names)
  {
    if names == [] then [] else [names[0].kind] + Field16(names[0].bytes) + EncodeNames(names[1..])
  }

  predicate ProtocolsFit(protocols: seq<Bytes>) {
    forall i :: 0 <= i < |protocols| ==> |protocols[i]| <= MAX8
  }

  function EncodeProtocols(protocols: seq<Bytes>): Bytes
    requires ProtocolsFit(protocols)
  {
    if protocols == [] then [] else Field8(protocols[0]) + EncodeProtocols(protocols[1..])
  }

  /** Every length fits its field; an extension's own list length takes two bytes. */
  predicate ExtFits(e: Ext) {
    match e
    case Sni(names) => NamesFit(names) && |EncodeNames(names)| <= MAX16 - 2
    case AlpnList(protocols) => ProtocolsFit(protocols) && |EncodeProtocols(protocols)| <= MAX16 - 2
    case Other(kind, data) =>
      kind <= MAX16 && kind != SERVER_NAME_EXTENSION && kind != ALPN_EXTENSION && |data| <= MAX16
  }

  function KindOf(e: Ext): nat {
    match e
    case Sni(_) => SERVER_NAME_EXTENSION
    case AlpnList(_) => ALPN_EXTENSION
    case Other(kind, _) => kind
  }

  function DataOf(e: Ext): (data: Bytes)
    requires ExtFits(e)
    ensures |data| <= MAX16
  {
    match e
    case Sni(names) => Field16(EncodeNames(names))
    case AlpnList(protocols) => Field16(EncodeProtocols(protocols))
    case Other(_, data) => data
  }

  predicate ExtsFit(exts: seq<Ext>) {
    forall i :: 0 <= i < |exts| ==> ExtFits(exts[i])
  }

  function EncodeExts(exts: seq<Ext>): Bytes
    requires ExtsFit(exts)
  {
    if exts == [] then []
    else Be16(KindOf(exts[0])) + Field16(DataOf(exts[0])) + EncodeExts(exts[1..])
  }

  predicate Fits(h: Hello) {
    && |h.fixed| == 34 && |h.session| <= MAX8 && |h.ciphers| <= MAX16 && |h.compression| <= MAX8
    && ExtsFit(h.extensions) && |EncodeExts(h.extensions)| <= MAX16
  }

  function EncodeBody(h: Hello): Bytes
    requires Fits(h)
  {
    h.fixed + (Field8(h.session) + (Field16(h.ciphers) + (Field8(h.compression) + Field16(EncodeExts(h.extensions)))))
  }

  lemma Take8Field(b: Bytes, rest: Bytes)
    requires |b| <= MAX8
    ensures Take8(Field8(b) + rest) == Some((b, rest))
  {
    assert (Field8(b) + rest)[1..] == b + rest;
    assert (b + rest)[..|b|] == b && (b + rest)[|b|..] == rest;
  }

  lemma Take16Field(b: Bytes, rest: Bytes)
    requires |b| <= MAX16
    ensures Take16(Field16(b) + rest) == Some((b, rest))
  {
    assert (Field16(b) + rest)[2..] == b + rest;
    assert (b + rest)[..|b|] == b && (b + rest)[|b|..] == rest;
  }

  // ------------------------------------------------------------ meaning

  /** The first host_name of a server_name list; None if it is empty or not UTF-8. */
  function FirstHost(u: Utf8, names: seq<Name>): Result<string, SniError> {
    if names == [] then Err(NoServerName)
    else if names[0].kind != HOST_NAME then FirstHost(u, names[1..])
    else if names[0].bytes == [] || u(names[0].bytes).None? then Err(Malformed)
    else Ok(u(names[0].bytes).value)
  }

  function Step(u: Utf8, e: Ext, seen: Seen): Result<Seen, SniError> {
    match e
    case Other(_, _) => Ok(seen)
    case Sni(names) =>
      if seen.hostname.Some? then Err(Malformed)
      else (match FirstHost(u, names)
            case Err(e) => Err(e)
            case Ok(host) => Ok(seen.(hostname := Some(host))))
    case AlpnList(protocols) =>
      if seen.alpn.Some? then Err(Malformed) else Ok(seen.(alpn := Some(ACME in protocols)))
  }

  /** Extensions in order, stopping at the first error. */
  function Steps(u: Utf8, exts: seq<Ext>, seen: Seen): Result<Seen, SniError>
    decreases |exts|
  {
    if exts == [] then Ok(seen)
    else match Step(u, exts[0], seen)
         case Err(e) => Err(e)
         case Ok(seen') => Steps(u, exts[1..], seen')
  }

  function Meaning(u: Utf8, h: Hello): Result<Routing, SniError> {
    match Steps(u, h.extensions, Seen(None, None))
    case Err(e) => Err(e)
    case Ok(seen) => RoutingOf(seen)
  }

  // ------------------------------------------------------------ parsing gives the meaning

  lemma {:induction false} NamesAfterHost(u: Utf8, names: seq<Name>, host: string)
    requires NamesFit(names)
    ensures Names(u, EncodeNames(names), Some(host)) == Ok(Some(host))
    decreases |names|
  {
    if names != [] {
      var rest := EncodeNames(names[1..]);
      var b := EncodeNames(names);
      assert b[1..] == Field16(names[0].bytes) + rest;
      Take16Field(names[0].bytes, rest);
      NamesAfterHost(u, names[1..], host);
    }
  }

  lemma {:induction false} NamesMean(u: Utf8, names: seq<Name>)
    requires NamesFit(names)
    ensures Names(u, EncodeNames(names), None) ==
            match FirstHost(u, names)
            case Ok(host) => Ok(Some(host))
            case Err(NoServerName) => Ok(None)
            case Err(Malformed) => Err(Malformed)
    decreases |names|
  {
    if names != [] {
      var rest := EncodeNames(names[1..]);
      var b := EncodeNames(names);
      assert b[1..] == Field16(names[0].bytes) + rest && b[0] == names[0].kind;
      Take16Field(names[0].bytes, rest);
      if names[0].kind != HOST_NAME {
        NamesMean(u, names[1..]);
      } else if names[0].bytes != [] && u(names[0].bytes).Some? {
        NamesAfterHost(u, names[1..], u(names[0].bytes).value);
      }
    }
  }

  lemma {:induction false} ProtocolsMean(protocols: seq<Bytes>, found: bool)
    requires ProtocolsFit(protocols)
    ensures Protocols(EncodeProtocols(protocols), found) == Ok(found || ACME in protocols)
    decreases |protocols|
  {
    if protocols != [] {
      Take8Field(protocols[0], EncodeProtocols(protocols[1..]));
      ProtocolsMean(protocols[1..], found || protocols[0] == ACME);
      assert protocols == [protocols[0]] + protocols[1..];
    }
  }

  lemma ExtensionMeans(u: Utf8, e: Ext, seen: Seen)
    requires ExtFits(e)
    ensures Extension(u, KindOf(e), DataOf(e), seen) == Step(u, e, seen)
  {
    hide Take16, Field16, EncodeNames, EncodeProtocols, Names, Protocols, FirstHost;
    match e
    case Other(_, _) =>
    case Sni(names) =>
      assert Field16(EncodeNames(names)) + [] == DataOf(e);
      Take16Field(EncodeNames(names), []);
      NamesMean(u, names);
    case AlpnList(protocols) =>
      assert Field16(EncodeProtocols(protocols)) + [] == DataOf(e);
      Take16Field(EncodeProtocols(protocols), []);
      ProtocolsMean(protocols, false);
  }

  lemma {:induction false} ExtensionsMean(u: Utf8, exts: seq<Ext>, seen: Seen)
    requires ExtsFit(exts)
    ensures Extensions(u, EncodeExts(exts), seen) == Steps(u, exts, seen)
    decreases |exts|
  {
    hide Extension, Step, DataOf, Take16, Field16;
    if exts != [] {
      var rest := EncodeExts(exts[1..]);
      var b := EncodeExts(exts);
      var kind := KindOf(exts[0]);
      assert b[2..] == Field16(DataOf(exts[0])) + rest;
      assert U16(b[0], b[1]) == kind;
      Take16Field(DataOf(exts[0]), rest);
      ExtensionMeans(u, exts[0], seen);
      if Step(u, exts[0], seen).Ok? {
        ExtensionsMean(u, exts[1..], Step(u, exts[0], seen).value);
      }
    }
  }

  lemma BlockOfBody(h: Hello)
    requires Fits(h)
    ensures ExtensionBlock(EncodeBody(h)) == Some(EncodeExts(h.extensions))
  {
    hide Field8, Field16, Take8, Take16, EncodeExts;
    var exts := EncodeExts(h.extensions);
    var last := Field16(exts);
    var third := Field8(h.compression) + last;
    var second := Field16(h.ciphers) + third;
    var first := Field8(h.session) + second;
    assert EncodeBody(h)[34..] == first;
    Take8Field(h.session, second);
    Take16Field(h.ciphers, third);
    Take8Field(h.compression, last);
    assert last + [] == last;
    Take16Field(exts, []);
  }

  /** Parsing the bytes of any ClientHello body gives its meaning. */
  lemma BodyMeans(u: Utf8, h: Hello)
    requires Fits(h)
    ensures Body(u, EncodeBody(h)) == Meaning(u, h)
  {
    hide ExtensionBlock, Extensions, Steps, EncodeBody;
    BlockOfBody(h);
    ExtensionsMean(u, h.extensions, Seen(None, None));
  }

  // ------------------------------------------------------------ what a routing says

  function SniLists(exts: seq<Ext>): seq<seq<Name>> {
    if exts == [] then [] else (if exts[0].Sni? then [exts[0].names] else []) + SniLists(exts[1..])
  }

  function AlpnLists(exts: seq<Ext>): seq<seq<Bytes>> {
    if exts == [] then [] else (if exts[0].AlpnList? then [exts[0].protocols] else []) + AlpnLists(exts[1..])
  }

  /** What extensions add to what was seen, said without order. */
  predicate Adds(u: Utf8, exts: seq<Ext>, seen: Seen, after: Seen) {
    var snis, alpns := SniLists(exts), AlpnLists(exts);
    && |snis| <= (if seen.hostname.Some? then 0 else 1)
    && |alpns| <= (if seen.alpn.Some? then 0 else 1)
    && (if snis == [] then after.hostname == seen.hostname
        else FirstHost(u, snis[0]).Ok? && after.hostname == Some(FirstHost(u, snis[0]).value))
    && after.alpn == (if alpns == [] then seen.alpn else Some(ACME in alpns[0]))
  }

  lemma {:induction false} StepsAdd(u: Utf8, exts: seq<Ext>, seen: Seen, after: Seen)
    ensures Steps(u, exts, seen) == Ok(after) <==> Adds(u, exts, seen, after)
    decreases |exts|
  {
    hide FirstHost;
    if exts != [] {
      var step := Step(u, exts[0], seen);
      if step.Ok? {
        StepsAdd(u, exts[1..], step.value, after);
      }
    }
  }

  /** One server_name list whose first host_name decodes, and at most one ALPN list. */
  predicate RoutesTo(u: Utf8, h: Hello, r: Routing) {
    var snis, alpns := SniLists(h.extensions), AlpnLists(h.extensions);
    && |snis| == 1 && |alpns| <= 1
    && FirstHost(u, snis[0]) == Ok(r.hostname)
    && r.acmeTlsAlpn == (alpns != [] && ACME in alpns[0])
  }

  /**
   A body routes exactly when it has one server_name extension whose first
   host_name decodes and at most one ALPN extension; the routing is that name and
   whether acme-tls/1 is listed. The order of extensions does not matter.
   */
  lemma RoutingMeans(u: Utf8, h: Hello, r: Routing)
    requires Fits(h)
    ensures Body(u, EncodeBody(h)) == Ok(r) <==> RoutesTo(u, h, r)
  {
    hide Steps, SniLists, AlpnLists, FirstHost, Body, EncodeBody, Fits;
    BodyMeans(u, h);
    var snis, alpns := SniLists(h.extensions), AlpnLists(h.extensions);
    var start := Seen(None, None);
    var steps := Steps(u, h.extensions, start);
    if steps.Ok? {
      StepsAdd(u, h.extensions, start, steps.value);
    } else if |snis| == 1 && |alpns| <= 1 && FirstHost(u, snis[0]).Ok? {
      StepsAdd(u, h.extensions, start,
               Seen(Some(FirstHost(u, snis[0]).value), if alpns == [] then None else Some(ACME in alpns[0])));
    }
  }

  // ------------------------------------------------------------ only encodings route

  lemma Took8(b: Bytes)
    requires Take8(b).Some?
    ensures var (field, rest) := Take8(b).value;
            |field| <= MAX8 && b == Field8(field) + rest && |rest| < |b|
  {
  }

  lemma Took16(b: Bytes)
    requires Take16(b).Some?
    ensures var (field, rest) := Take16(b).value;
            |field| <= MAX16 && b == Field16(field) + rest && |rest| < |b|
  {
    var (field, rest) := Take16(b).value;
    assert Be16(|field|) == b[..2];
  }

  lemma {:induction false} NamesEncoded(u: Utf8, b: Bytes, host: Option<string>) returns (names: seq<Name>)
    requires Names(u, b, host).Ok?
    ensures NamesFit(names) && EncodeNames(names) == b
    decreases |b|
  {
    hide Take16, Field16;
    if b == [] {
      names := [];
    } else {
      Took16(b[1..]);
      var (name, rest) := Take16(b[1..]).value;
      var more := NamesEncoded(u, rest, if b[0] != HOST_NAME || host.Some? then host else u(name));
      names := [Name(b[0], name)] + more;
      assert names[1..] == more;
      assert b == [b[0]] + (Field16(name) + rest) == [b[0]] + Field16(name) + rest;
    }
  }

  lemma {:induction false} ProtocolsEncoded(b: Bytes, found: bool) returns (protocols: seq<Bytes>)
    requires Protocols(b, found).Ok?
    ensures ProtocolsFit(protocols) && EncodeProtocols(protocols) == b
    decreases |b|
  {
    hide Take8, Field8;
    if b == [] {
      protocols := [];
    } else {
      Took8(b);
      var (protocol, rest) := Take8(b).value;
      var more := ProtocolsEncoded(rest, found || protocol == ACME);
      protocols := [protocol] + more;
      assert protocols[1..] == more;
    }
  }

  lemma ExtensionEncoded(u: Utf8, kind: nat, data: Bytes, seen: Seen) returns (e: Ext)
    requires kind <= MAX16 && |data| <= MAX16 && Extension(u, kind, data, seen).Ok?
    ensures ExtFits(e) && KindOf(e) == kind && DataOf(e) == data
  {
    hide Take16, Names, Protocols, EncodeNames, EncodeProtocols;
    if kind == SERVER_NAME_EXTENSION {
      Took16(data);
      var list := Take16(data).value.0;
      var names := NamesEncoded(u, list, None);
      e := Sni(names);
      assert Field16(list) + [] == Field16(list);
    } else if kind == ALPN_EXTENSION {
      Took16(data);
      var list := Take16(data).value.0;
      var protocols := ProtocolsEncoded(list, false);
      e := AlpnList(protocols);
      assert Field16(list) + [] == Field16(list);
    } else {
      e := Other(kind, data);
    }
  }

  lemma {:induction false} ExtensionsEncoded(u: Utf8, b: Bytes, seen: Seen) returns (exts: seq<Ext>)
    requires Extensions(u, b, seen).Ok?
    ensures ExtsFit(exts) && EncodeExts(exts) == b
    decreases |b|
  {
    hide Take16, Field16, Extension, ExtFits, DataOf, KindOf;
    if b == [] {
      exts := [];
    } else {
      Took16(b[2..]);
      var (data, rest) := Take16(b[2..]).value;
      var kind := U16(b[0], b[1]);
      var e := ExtensionEncoded(u, kind, data, seen);
      var more := ExtensionsEncoded(u, rest, Extension(u, kind, data, seen).value);
      exts := [e] + more;
      assert exts[1..] == more;
      assert Be16(kind) == b[..2];
      assert b == b[..2] + (Field16(data) + rest) == b[..2] + Field16(data) + rest;
    }
  }

  lemma BodyEncoded(u: Utf8, body: Bytes) returns (h: Hello)
    requires Body(u, body).Ok?
    ensures Fits(h) && EncodeBody(h) == body
  {
    hide Take8, Take16, Field8, Field16, Extensions, EncodeExts, ExtsFit;
    var first := body[34..];
    Took8(first);
    var (session, second) := Take8(first).value;
    Took16(second);
    var (ciphers, third) := Take16(second).value;
    Took8(third);
    var (compression, last) := Take8(third).value;
    Took16(last);
    var block := Take16(last).value.0;
    var exts := ExtensionsEncoded(u, block, Seen(None, None));
    h := Hello(body[..34], session, ciphers, compression, exts);
    assert Field16(block) + [] == Field16(block);
    assert body == body[..34] + first;
  }

  /** Bytes route exactly when they are those of a well-formed ClientHello that says so. */
  lemma RoutesIff(u: Utf8, body: Bytes, r: Routing)
    ensures Body(u, body) == Ok(r) <==> exists h :: Fits(h) && EncodeBody(h) == body && RoutesTo(u, h, r)
  {
    hide Body, EncodeBody, Fits, SniLists, AlpnLists, FirstHost;
    if Body(u, body) == Ok(r) {
      var h := BodyEncoded(u, body);
      RoutingMeans(u, h, r);
      assert RoutesTo(u, h, r);
    }
    forall h | Fits(h) && EncodeBody(h) == body && RoutesTo(u, h, r) ensures Body(u, body) == Ok(r) {
      RoutingMeans(u, h, r);
    }
  }

  // ------------------------------------------------------------ a hello that is too long to peek

  const PADDING_EXTENSION: nat := 21
  /** What a message leaves for a name and its padding. */
  const LONGEST_NAME: nat := MAX_HANDSHAKE - 57

  function Zeros(n: nat): (b: Bytes)
    ensures |b| == n
  {
    seq(n, _ => 0)
  }

  /** The handshake message around a body. */
  function HandshakeOf(body: Bytes): Bytes
    requires |body| <= MAX_HANDSHAKE - 4
  {
    [CLIENT_HELLO, 0, |body| / 0x100, |body| % 0x100] + body
  }

  /** One record for every byte. */
  function OneByteRecords(b: Bytes): seq<Record> {
    if b == [] then [] else [Record(3, 1, [b[0]])] + OneByteRecords(b[1..])
  }

  lemma {:induction false} OneByteCut(b: Bytes)
    ensures var records := OneByteRecords(b);
            && AllFit(records) && AllNonempty(records) && Payload(records) == b
            && |EncodeRecords(records)| == (RECORD_HEADER + 1) * |b|
    decreases |b|
  {
    if b != [] {
      OneByteCut(b[1..]);
      var r := Record(3, 1, [b[0]]);
      RecordInFront(r, OneByteRecords(b[1..]));
      assert [b[0]] + b[1..] == b;
    }
  }

  /** A hello naming one host, padded. */
  function Padded(name: Bytes, padding: nat): Hello {
    Hello(Zeros(34), [], [], [], [Sni([Name(HOST_NAME, name)]), Other(PADDING_EXTENSION, Zeros(padding))])
  }

  lemma PaddedFits(name: Bytes, padding: nat)
    requires |name| + padding <= LONGEST_NAME
    ensures Fits(Padded(name, padding)) && |EncodeBody(Padded(name, padding))| == 53 + |name| + padding
  {
    var names := [Name(HOST_NAME, name)];
    assert names[1..] == [];
    assert |EncodeNames(names)| == 3 + |name|;
    var exts := Padded(name, padding).extensions;
    assert exts[1..][1..] == [] && exts[1..][0] == exts[1];
    assert |EncodeExts(exts[1..])| == 4 + padding;
  }

  /** The lists of the two extensions of a padded hello. */
  lemma PaddedLists(name: Bytes, padding: nat)
    ensures SniLists(Padded(name, padding).extensions) == [[Name(HOST_NAME, name)]]
    ensures AlpnLists(Padded(name, padding).extensions) == []
  {
    var exts := Padded(name, padding).extensions;
    var last := exts[1..];
    assert |last| == 1 && last[0].Other? && exts[0] == Sni([Name(HOST_NAME, name)]);
    assert last[1..] == [];
    assert |SniLists(last)| == 0 && |AlpnLists(last)| == 0;
    assert |SniLists(exts)| == 1 && |AlpnLists(exts)| == 0;
    assert SniLists(exts)[0] == exts[0].names;
  }

  lemma PaddedRoutes(u: Utf8, name: Bytes, padding: nat)
    requires name != [] && u(name).Some? && |name| + padding <= LONGEST_NAME
    ensures Fits(Padded(name, padding))
    ensures Body(u, EncodeBody(Padded(name, padding))) == Ok(Routing(u(name).value, false))
  {
    hide Body, EncodeBody, Fits, Padded, SniLists, AlpnLists;
    PaddedFits(name, padding);
    PaddedLists(name, padding);
    RoutingMeans(u, Padded(name, padding), Routing(u(name).value, false));
  }

  /**
   For every name that decodes and fits a message there is a routable ClientHello,
   within every limit of the parser, that the peek loop refuses if its first 131,072
   bytes come and the rest is late.
   */
  lemma LongHelloIsRefused(u: Utf8, name: Bytes) returns (handshake: Bytes, records: seq<Record>)
    requires name != [] && |name| <= LONGEST_NAME && u(name).Some?
    ensures Message(handshake) && AllFit(records) && AllNonempty(records) && Payload(records) == handshake
    ensures LAST_DOUBLING < |EncodeRecords(records)| <= MAX_WIRE
    ensures ClientHello.Parse(u, EncodeRecords(records)) == Ok(Complete(Routing(u(name).value, false)))
    ensures Schedule(Stall(7), |EncodeRecords(records)|)
    ensures Extract(u, EncodeRecords(records), INITIAL_PEEK, Stall(7)) == Some(Err(Malformed))
  {
    hide Body, EncodeBody, Fits, Padded, Extract, EncodeRecords, Payload, AllFit, AllNonempty,
         ClientHello.Parse, OneByteRecords;
    var padding := if |name| < 21_800 then 21_800 - |name| else 0;
    var h := Padded(name, padding);
    PaddedFits(name, padding);
    PaddedRoutes(u, name, padding);
    handshake := HandshakeOf(EncodeBody(h));
    assert handshake[4..] == EncodeBody(h);
    records := OneByteRecords(handshake);
    OneByteCut(handshake);
    AnyCutParsesTheSame(u, handshake, records, []);
    StalledHelloIsRefused(u, handshake, records, [], INITIAL_PEEK, 7);
    assert EncodeRecords(records) + [] == EncodeRecords(records);
  }
}
