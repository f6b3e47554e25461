/**
 Crockford base32 as used by pair links. The reference reads bytes and symbols as
 bit strings; the loops with a wrapping 32-bit accumulator are proved to compute
 it, and the reference is proved to round-trip and to be canonical up to one
 trailing zero symbol.
 */
module Crockford {
  import opened Outcomes
  import opened Wire

  const ALPHABET: string := "0123456789ABCDEFGHJKMNPQRSTVWXYZ"

  datatype CrockfordError = InvalidSymbol(symbol: char) | NonZeroPadding

  // ------------------------------------------------------------ symbols

  function Normalise(c: char): char {
    var upper := if 'a' <= c <= 'z' then (c as int - 32) as char else c;
    if upper == 'I' || upper == 'L' then '1' else if upper == 'O' then '0' else upper
  }

  function Position(c: char, from: nat): Option<nat>
    requires from <= |ALPHABET|
    decreases |ALPHABET| - from
  {
    if from == |ALPHABET| then None
    else if ALPHABET[from] == c then Some(from)
    else Position(c, from + 1)
  }

  function SymbolValue(c: char): Option<nat> {
    Position(Normalise(c), 0)
  }

  lemma PositionFinds(c: char, from: nat)
    requires from <= |ALPHABET|
    ensures var p := Position(c, from);
            p.Some? ==> from <= p.value < |ALPHABET| && ALPHABET[p.value] == c
    decreases |ALPHABET| - from
  {
  }

  lemma AlphabetIncreases(i: nat)
    requires i + 1 < |ALPHABET|
    ensures ALPHABET[i] < ALPHABET[i + 1]
  {
  }

  lemma {:induction false} AlphabetOrdered(i: nat, j: nat)
    requires i < j < |ALPHABET|
    ensures ALPHABET[i] < ALPHABET[j]
    decreases j - i
  {
    if i + 1 < j {
      AlphabetOrdered(i, j - 1);
    }
    AlphabetIncreases(j - 1);
  }

  lemma {:induction false} PositionOf(v: nat, from: nat)
    requires from <= v < |ALPHABET|
    ensures Position(ALPHABET[v], from) == Some(v)
    decreases |ALPHABET| - from
  {
    if from < v {
      AlphabetOrdered(from, v);
      PositionOf(v, from + 1);
    }
  }

  /** Alphabet symbols are already normalised and none is the separator. */
  lemma AlphabetIsNormal(v: nat)
    requires v < |ALPHABET|
    ensures Normalise(ALPHABET[v]) == ALPHABET[v] && ALPHABET[v] != '-'
  {
  }

  lemma SymbolOfValue(v: nat)
    requires v < |ALPHABET|
    ensures SymbolValue(ALPHABET[v]) == Some(v)
  {
    AlphabetIsNormal(v);
    PositionOf(v, 0);
  }

  /** The alphabet is the digits and then the capitals, passing over I, L, O and U. */
  lemma AlphabetMeans(v: nat)
    requires v < |ALPHABET|
    ensures |ALPHABET| == 32
    ensures ALPHABET[v] as int ==
            if v < 10 then '0' as int + v
            else 'A' as int + (v - 10) + (if v < 18 then 0 else if v < 20 then 1 else if v < 22 then 2
                                          else if v < 27 then 3 else 4)
  {
  }

  /** Symbols are read in either case, O as zero, I and L as one, and nothing else has a value. */
  lemma SymbolMeans(c: char, v: nat)
    ensures SymbolValue(c) == Some(v) <==>
            v < 32 && (|| c == ALPHABET[v] || ('a' <= c <= 'z' && c as int == ALPHABET[v] as int + 32)
                       || (v == 0 && c in "Oo") || (v == 1 && c in "IiLl"))
  {
    PositionFinds(Normalise(c), 0);
    if v < 32 {
      PositionOf(v, 0);
      AlphabetIsNormal(v);
    }
  }

  // ------------------------------------------------------------ bits

  type Bits = seq<bool>

  function Pow2(n: nat): (p: nat)
    ensures p > 0
  {
    if n == 0 then 1 else 2 * Pow2(n - 1)
  }

  /** The low `n` bits of `v`, most significant first. */
  function ToBits(v: nat, n: nat): (b: Bits)
    ensures |b| == n
  {
    if n == 0 then [] else ToBits(v / 2, n - 1) + [v % 2 == 1]
  }

  function FromBits(b: Bits): nat {
    if b == [] then 0 else 2 * FromBits(b[..|b| - 1]) + if b[|b| - 1] then 1 else 0
  }

  function Zeros(n: nat): (b: Bits)
    ensures |b| == n
  {
    seq(n, _ => false)
  }

  lemma {:induction false} FromToBits(v: nat, n: nat)
    requires v < Pow2(n)
    ensures FromBits(ToBits(v, n)) == v
    decreases n
  {
    if n > 0 {
      FromToBits(v / 2, n - 1);
      assert ToBits(v, n)[..n - 1] == ToBits(v / 2, n - 1);
    }
  }

  lemma {:induction false} ToFromBits(b: Bits)
    ensures FromBits(b) < Pow2(|b|) && ToBits(FromBits(b), |b|) == b
    decreases |b|
  {
    if b != [] {
      ToFromBits(b[..|b| - 1]);
    }
  }

  /** Shifting in `k` bits appends them. */
  lemma {:induction false} ShiftIn(v: nat, w: nat, n: nat, k: nat)
    requires w < Pow2(k)
    ensures ToBits(v * Pow2(k) + w, n + k) == ToBits(v, n) + ToBits(w, k)
    decreases k
  {
    if k == 0 {
      assert ToBits(v, n) + [] == ToBits(v, n);
    } else {
      var p := Pow2(k - 1);
      var x := v * Pow2(k) + w;
      assert v * (2 * p) == 2 * (v * p);
      assert x / 2 == v * p + w / 2 && x % 2 == w % 2;
      ShiftIn(v, w / 2, n, k - 1);
    }
  }

  /** A right shift. */
  function Shr(x: nat, n: nat): nat {
    if n == 0 then x else Shr(x / 2, n - 1)
  }

  /** Shifting out keeps the bits above. */
  lemma {:induction false} ShiftOut(x: nat, a: nat, b: nat)
    ensures ToBits(x, a + b) == ToBits(Shr(x, b), a) + ToBits(x, b)
    decreases b
  {
    if b == 0 {
      assert ToBits(x, a) + [] == ToBits(x, a);
    } else {
      ShiftOut(x / 2, a, b - 1);
    }
  }

  lemma Multiples(e: int, d: nat)
    requires d > 0
    ensures e > 0 ==> e * d >= d
    ensures e < 0 ==> e * d <= -(d as int)
  {
  }

  lemma Quotient(x: nat, d: nat, q: nat, r: nat)
    requires d > 0 && r < d && x == q * d + r
    ensures x / d == q && x % d == r
  {
    var e := x / d - q;
    assert x == (x / d) * d + x % d;
    assert e * d == r - x % d;
    Multiples(e, d);
  }

  /** Bits above the `m`-th do not matter to the low ones. */
  lemma {:induction false} Wraps(x: nat, m: nat, n: nat)
    requires n <= m
    ensures ToBits(x % Pow2(m), n) == ToBits(x, n)
    decreases n
  {
    if n > 0 {
      var p := Pow2(m - 1);
      var q, r := x / 2 / p, x / 2 % p;
      assert x / 2 == q * p + r;
      assert x == q * (2 * p) + (2 * r + x % 2);
      Quotient(x, 2 * p, q, 2 * r + x % 2);
      assert (x % (2 * p)) / 2 == r && (x % (2 * p)) % 2 == x % 2;
      Wraps(x / 2, m - 1, n - 1);
    }
  }

  // ------------------------------------------------------------ fixed-width groups

  predicate Within(values: seq<nat>, width: nat) {
    forall i :: 0 <= i < |values| ==> values[i] < Pow2(width)
  }

  /** Values written one after another, `width` bits each. */
  function Expand(values: seq<nat>, width: nat): Bits {
    if values == [] then [] else ToBits(values[0], width) + Expand(values[1..], width)
  }

  /** Whole groups of `width` bits, as values. */
  function Group(b: Bits, width: nat): seq<nat>
    requires width > 0
    decreases |b|
  {
    if |b| < width then [] else [FromBits(b[..width])] + Group(b[width..], width)
  }

  /** The bits after the last whole group. */
  function Rest(b: Bits, width: nat): (r: Bits)
    requires width > 0
    ensures |r| < width
    decreases |b|
  {
    if |b| < width then b else Rest(b[width..], width)
  }

  lemma {:induction false} ExpandAppend(values: seq<nat>, more: seq<nat>, width: nat)
    ensures Expand(values + more, width) == Expand(values, width) + Expand(more, width)
    decreases |values|
  {
    if values == [] {
      assert values + more == more;
    } else {
      assert (values + more)[1..] == values[1..] + more;
      ExpandAppend(values[1..], more, width);
    }
  }

  lemma ExpandOne(v: nat, width: nat)
    ensures Expand([v], width) == ToBits(v, width)
  {
    assert Expand([v], width) == ToBits(v, width) + Expand([], width);
  }

  lemma ExpandCons(v: nat, values: seq<nat>, width: nat)
    ensures Expand([v] + values, width) == ToBits(v, width) + Expand(values, width)
  {
    assert ([v] + values)[1..] == values;
  }

  lemma GroupStep(first: Bits, b: Bits, width: nat)
    requires width > 0 && |first| == width
    ensures Group(first + b, width) == [FromBits(first)] + Group(b, width)
    ensures Rest(first + b, width) == Rest(b, width)
  {
    assert (first + b)[..width] == first && (first + b)[width..] == b;
  }

  lemma NoGroup(b: Bits, width: nat)
    requires |b| < width
    ensures Group(b, width) == [] && Rest(b, width) == b && Within([], width) && Expand([], width) == []
  {
  }

  lemma WithinCons(v: nat, values: seq<nat>, width: nat)
    ensures Within([v] + values, width) <==> v < Pow2(width) && Within(values, width)
  {
    var all := [v] + values;
    assert all[0] == v && forall i :: 0 <= i < |values| ==> all[i + 1] == values[i];
  }

  /** Grouping loses nothing. */
  lemma {:induction false} GroupsAndRest(b: Bits, width: nat)
    requires width > 0
    ensures Within(Group(b, width), width) && b == Expand(Group(b, width), width) + Rest(b, width)
    decreases |b|
  {
    hide ToBits, FromBits, Pow2, Group, Rest, Expand, Within;
    if |b| < width {
      NoGroup(b, width);
    } else {
      var first, after := b[..width], b[width..];
      assert b == first + after;
      GroupStep(first, after, width);
      GroupsAndRest(after, width);
      ToFromBits(first);
      ExpandCons(FromBits(first), Group(after, width), width);
      WithinCons(FromBits(first), Group(after, width), width);
      assert first + (Expand(Group(after, width), width) + Rest(after, width))
          == (first + Expand(Group(after, width), width)) + Rest(after, width);
    }
  }

  /** Values in front come back as they were, whatever follows them. */
  lemma {:induction false} GroupsInFront(values: seq<nat>, width: nat, b: Bits)
    requires width > 0 && Within(values, width)
    ensures Group(Expand(values, width) + b, width) == values + Group(b, width)
    ensures Rest(Expand(values, width) + b, width) == Rest(b, width)
    decreases |values|
  {
    hide ToBits, FromBits, Pow2, Group, Rest, Expand, Within;
    if values == [] {
      NoGroup([], width);
      assert [] + b == b;
      assert [] + Group(b, width) == Group(b, width);
    } else {
      var v, more := values[0], values[1..];
      assert values == [v] + more;
      WithinCons(v, more, width);
      ExpandCons(v, more, width);
      var first, after := ToBits(v, width), Expand(more, width) + b;
      assert Expand(values, width) + b == first + after;
      GroupStep(first, after, width);
      FromToBits(v, width);
      GroupsInFront(more, width, b);
      assert [v] + (more + Group(b, width)) == values + Group(b, width);
    }
  }

  // ------------------------------------------------------------ reference

  /** The values of all symbols, hyphens skipped, or the first bad symbol. */
  function Values(s: string): Result<seq<nat>, CrockfordError> {
    if s == [] then Ok([])
    else if s[0] == '-' then Values(s[1..])
    else match SymbolValue(s[0])
         case None => Err(InvalidSymbol(s[0]))
         case Some(v) =>
           match Values(s[1..])
           case Err(e) => Err(e)
           case Ok(vs) => Ok([v] + vs)
  }

  /** Whole bytes of the symbols' bits; the bits left over must be zero. */
  function Decode(s: string): Result<seq<nat>, CrockfordError> {
    match Values(s)
    case Err(e) => Err(e)
    case Ok(vs) =>
      var b := Expand(vs, 5);
      if Rest(b, 8) == Zeros(|Rest(b, 8)|) then Ok(Group(b, 8)) else Err(NonZeroPadding)
  }

  /** Symbol values of a bit string, the last one padded with zero bits. */
  function Pack(b: Bits): seq<nat> {
    var r := Rest(b, 5);
    Group(b, 5) + if r == [] then [] else [FromBits(r + Zeros(5 - |r|))]
  }

  function Symbols(vs: seq<nat>): string
    requires Within(vs, 5)
  {
    Pow2Is32();
    seq(|vs|, i requires 0 <= i < |vs| => ALPHABET[vs[i]])
  }

  lemma Pow2Is32()
    ensures Pow2(5) == 32 && Pow2(8) == 256 && Pow2(32) == 0x1_0000_0000
  {
    assert Pow2(4) == 16;
    assert Pow2(8) == 256;
    assert Pow2(12) == 0x1000;
    assert Pow2(16) == 0x1_0000;
    assert Pow2(20) == 0x10_0000;
    assert Pow2(24) == 0x100_0000;
    assert Pow2(28) == 0x1000_0000;
  }

  lemma PackWithin(b: Bits)
    ensures Within(Pack(b), 5)
  {
    GroupsAndRest(b, 5);
    var r := Rest(b, 5);
    ToFromBits(r + Zeros(5 - |r|));
  }

  function Encode(bytes: seq<nat>): string {
    PackWithin(Expand(bytes, 8));
    Symbols(Pack(Expand(bytes, 8)))
  }

  // ------------------------------------------------------------ round trip

  /** How many zero bits packing adds. */
  function Padding(b: Bits): (n: nat)
    ensures n < 5
  {
    if Rest(b, 5) == [] then 0 else 5 - |Rest(b, 5)|
  }

  lemma PackPads(b: Bits)
    ensures Expand(Pack(b), 5) == b + Zeros(Padding(b))
  {
    hide ToBits, FromBits, Pow2, Group, Rest;
    var g, r := Group(b, 5), Rest(b, 5);
    GroupsAndRest(b, 5);
    if r == [] {
      assert Pack(b) == g && b + Zeros(0) == b;
    } else {
      var padded := r + Zeros(5 - |r|);
      ExpandAppend(g, [FromBits(padded)], 5);
      ExpandOne(FromBits(padded), 5);
      ToFromBits(padded);
      assert Expand(g, 5) + (r + Zeros(5 - |r|)) == (Expand(g, 5) + r) + Zeros(5 - |r|);
    }
  }

  lemma {:induction false} ValuesOfSymbols(vs: seq<nat>)
    requires Within(vs, 5)
    ensures Values(Symbols(vs)) == Ok(vs)
    decreases |vs|
  {
    hide SymbolValue, Pow2, Normalise;
    if vs != [] {
      Pow2Is32();
      SymbolOfValue(vs[0]);
      AlphabetIsNormal(vs[0]);
      assert Symbols(vs)[1..] == Symbols(vs[1..]) && Symbols(vs)[0] == ALPHABET[vs[0]];
      assert vs == [vs[0]] + vs[1..];
      ValuesOfSymbols(vs[1..]);
    }
  }

  /** Decoding an encoding gives the bytes back. */
  lemma RoundTrip(bytes: seq<nat>)
    requires Within(bytes, 8)
    ensures Decode(Encode(bytes)) == Ok(bytes)
  {
    hide ToBits, FromBits, Pow2, Values, Pack;
    var b := Expand(bytes, 8);
    PackWithin(b);
    ValuesOfSymbols(Pack(b));
    PackPads(b);
    GroupsInFront(bytes, 8, Zeros(Padding(b)));
    assert bytes + [] == bytes;
  }

  /** A string without hyphens, upper-cased, confusable symbols folded. */
  function Clean(s: string): string {
    if s == [] then [] else (if s[0] == '-' then [] else [Normalise(s[0])]) + Clean(s[1..])
  }

  lemma {:induction false} ValuesAreClean(s: string)
    requires Values(s).Ok?
    ensures Within(Values(s).value, 5) && Symbols(Values(s).value) == Clean(s)
    decreases |s|
  {
    Pow2Is32();
    if s != [] {
      ValuesAreClean(s[1..]);
      if s[0] != '-' {
        PositionFinds(Normalise(s[0]), 0);
      }
    }
  }

  /** Zero bits after the last whole byte fit at most one symbol beyond the packing. */
  lemma PackOrOneMore(vs: seq<nat>, b: Bits, k: nat)
    requires Within(vs, 5) && Expand(vs, 5) == b + Zeros(k) && k < 8
    ensures vs == Pack(b) || (vs == Pack(b) + [0] && Padding(b) < 3)
  {
    hide ToBits, FromBits, Pow2, Group, Rest, Zeros, Within, Expand;
    var g, t := Group(b, 5), Rest(b, 5);
    GroupsAndRest(b, 5);
    var tail := t + Zeros(k);
    assert Expand(vs, 5) == Expand(g, 5) + tail;
    GroupsInFront(g, 5, tail);
    assert Expand(vs, 5) + [] == Expand(vs, 5);
    GroupsInFront(vs, 5, []);
    assert Group([], 5) == [] && Rest([], 5) == [] by { NoGroups(); }
    assert vs + [] == vs;
    TailGroups(t, k);
  }

  lemma NoGroups()
    ensures Group([], 5) == [] && Rest([], 5) == []
  {
  }

  /** A partial group, then zero bits up to a group boundary. */
  lemma TailGroups(t: Bits, k: nat)
    requires |t| < 5 && k < 8 && Rest(t + Zeros(k), 5) == []
    ensures var first := if t == [] then [] else [FromBits(t + Zeros(5 - |t|))];
            Group(t + Zeros(k), 5) == first || (Group(t + Zeros(k), 5) == first + [0] && (t == [] || |t| > 2))
  {
    hide FromBits, Group, Rest;
    var tail := t + Zeros(k);
    TailLength(tail);
    ZerosAreZero(5);
    NoGroups();
    if |tail| == 5 {
      assert tail + [] == tail;
      GroupStep(tail, [], 5);
      assert t != [] ==> tail == t + Zeros(5 - |t|);
      assert t == [] ==> tail == Zeros(5);
    } else if |tail| == 10 {
      var front := t + Zeros(5 - |t|);
      assert tail == front + (Zeros(5) + []);
      GroupStep(front, Zeros(5) + [], 5);
      GroupStep(Zeros(5), [], 5);
    } else {
      assert tail == [];
    }
  }

  lemma TailLength(tail: Bits)
    requires |tail| < 12 && Rest(tail, 5) == []
    ensures |tail| == 0 || |tail| == 5 || |tail| == 10
  {
  }

  lemma {:induction false} ZerosAreZero(n: nat)
    ensures FromBits(Zeros(n)) == 0
  {
    if n > 0 {
      ZerosAreZero(n - 1);
      assert Zeros(n)[..n - 1] == Zeros(n - 1);
    }
  }

  lemma DecodedForm(s: string, bytes: seq<nat>)
    requires Decode(s) == Ok(bytes)
    ensures Within(bytes, 8)
    ensures var vs, b := Values(s).value, Expand(bytes, 8);
            vs == Pack(b) || (vs == Pack(b) + [0] && Padding(b) < 3)
  {
    hide ToBits, FromBits, Pow2, Group, Rest, Values, Pack, Clean, Expand;
    var vs := Values(s).value;
    ValuesAreClean(s);
    var b := Expand(vs, 5);
    GroupsAndRest(b, 8);
    PackOrOneMore(vs, Expand(bytes, 8), |Rest(b, 8)|);
  }

  lemma FormDecodes(s: string, bytes: seq<nat>)
    requires Within(bytes, 8) && Values(s).Ok?
    requires var vs, b := Values(s).value, Expand(bytes, 8);
             vs == Pack(b) || (vs == Pack(b) + [0] && Padding(b) < 3)
    ensures Decode(s) == Ok(bytes)
  {
    hide ToBits, FromBits, Pow2, Group, Rest, Values, Pack, Clean, Expand, Padding;
    var vs, b := Values(s).value, Expand(bytes, 8);
    PackPads(b);
    var k := Padding(b);
    if vs != Pack(b) {
      ExpandAppend(Pack(b), [0], 5);
      ExpandOne(0, 5);
      ZeroBits(5);
      assert b + Zeros(k) + Zeros(5) == b + Zeros(k + 5);
      k := k + 5;
    }
    GroupsInFront(bytes, 8, Zeros(k));
    NoGroup(Zeros(k), 8);
    assert bytes + [] == bytes;
  }

  lemma {:induction false} ZeroBits(n: nat)
    ensures ToBits(0, n) == Zeros(n)
  {
    if n > 0 {
      ZeroBits(n - 1);
    }
  }

  lemma SymbolsDistinguish(a: seq<nat>, b: seq<nat>)
    requires Within(a, 5) && Within(b, 5) && Symbols(a) == Symbols(b)
    ensures a == b
  {
    ValuesOfSymbols(a);
    ValuesOfSymbols(b);
  }

  /**
   Exactly what decodes to given bytes: valid symbols that, once cleaned, are the
   bytes' encoding, or that encoding and one zero symbol when it is padded by
   fewer than three bits.
   */
  lemma DecodeIsCanonical(s: string, bytes: seq<nat>)
    requires Within(bytes, 8)
    ensures Decode(s) == Ok(bytes) <==>
            && Values(s).Ok?
            && (Clean(s) == Encode(bytes) || (Clean(s) == Encode(bytes) + ['0'] && Padding(Expand(bytes, 8)) < 3))
  {
    hide ToBits, FromBits, Pow2, Group, Rest, Values, Pack, Clean, Expand, Padding;
    var b := Expand(bytes, 8);
    PackWithin(b);
    var more := Pack(b) + [0];
    Pow2Is32();
    assert Within(more, 5);
    assert Symbols(more) == Encode(bytes) + ['0'];
    if Decode(s) == Ok(bytes) {
      DecodedForm(s, bytes);
    }
    if Values(s).Ok? {
      ValuesAreClean(s);
      if Symbols(Values(s).value) == Symbols(Pack(b)) {
        SymbolsDistinguish(Values(s).value, Pack(b));
        FormDecodes(s, bytes);
      }
      if Symbols(Values(s).value) == Symbols(more) && Padding(b) < 3 {
        SymbolsDistinguish(Values(s).value, more);
        FormDecodes(s, bytes);
      }
    }
  }

  // ------------------------------------------------------------ the loops

  const WORD: nat := 0x1_0000_0000

  /** A 32-bit left shift with `w` in the freed bits. */
  function ShlOr(x: nat, k: nat, w: nat): nat {
    (x * Pow2(k) + w) % WORD
  }

  lemma ShiftInWraps(x: nat, w: nat, n: nat, k: nat)
    requires w < Pow2(k) && n + k <= 32
    ensures ToBits(ShlOr(x, k, w), n + k) == ToBits(x, n) + ToBits(w, k)
  {
    hide ToBits, Pow2;
    Pow2Is32();
    Wraps(x * Pow2(k) + w, 32, n + k);
    ShiftIn(x, w, n, k);
  }

  lemma LowBits(x: nat, n: nat)
    ensures x % Pow2(n) == FromBits(ToBits(x, n))
  {
    hide ToBits, FromBits;
    Wraps(x, n, n);
    FromToBits(x % Pow2(n), n);
  }

  lemma {:induction false} ValuesSplit(a: string, b: string)
    requires Values(a).Ok?
    ensures Values(a + b) == match Values(b) case Err(e) => Err(e) case Ok(vs) => Ok(Values(a).value + vs)
    decreases |a|
  {
    hide SymbolValue;
    if a == [] {
      assert a + b == b;
      if Values(b).Ok? {
        assert [] + Values(b).value == Values(b).value;
      }
    } else {
      assert (a + b)[1..] == a[1..] + b;
      ValuesSplit(a[1..], b);
      if a[0] != '-' && Values(b).Ok? {
        var v, init, vs := SymbolValue(a[0]).value, Values(a[1..]).value, Values(b).value;
        assert [v] + (init + vs) == ([v] + init) + vs;
      }
    }
  }

  /** One more decoded symbol: a byte leaves once eight bits are there. */
  lemma DecodeStep(vs: seq<nat>, v: nat, out: seq<nat>, buffer: nat, bits: nat)
    requires v < 32 && bits < 8 && Expand(vs, 5) == Expand(out, 8) + ToBits(buffer, bits)
    ensures var next := ShlOr(buffer, 5, v);
            if bits + 5 >= 8 then
              Expand(vs + [v], 5) == Expand(out + [Shr(next, bits - 3) % 0x100], 8) + ToBits(next, bits - 3)
            else Expand(vs + [v], 5) == Expand(out, 8) + ToBits(next, bits + 5)
  {
    hide ToBits, Pow2, Expand, Shr;
    var next := ShlOr(buffer, 5, v);
    Pow2Is32();
    ExpandAppend(vs, [v], 5);
    ExpandOne(v, 5);
    ShiftInWraps(buffer, v, bits, 5);
    assert Expand(vs + [v], 5) == Expand(out, 8) + ToBits(next, bits + 5);
    if bits + 5 >= 8 {
      var byte := Shr(next, bits - 3) % 0x100;
      ShiftOut(next, 8, bits - 3);
      Wraps(Shr(next, bits - 3), 8, 8);
      ExpandAppend(out, [byte], 8);
      ExpandOne(byte, 8);
    }
  }

  method DecodeLoop(input: string) returns (r: Result<seq<nat>, CrockfordError>)
    ensures r == Decode(input)
  {
    hide ToBits, FromBits, Pow2, Expand, Group, Rest, SymbolValue, ShlOr, Shr;
    var out: seq<nat> := [];
    var buffer: nat, bits: nat := 0, 0;
    var i := 0;
    ghost var vs: seq<nat> := [];
    assert input[..0] == [];
    NoGroup([], 5);
    NoGroup([], 8);
    while i < |input|
      invariant 0 <= i <= |input| && bits < 8
      invariant Values(input[..i]) == Ok(vs)
      invariant Within(out, 8)
      invariant Expand(vs, 5) == Expand(out, 8) + ToBits(buffer, bits)
    {
      var c := input[i];
      Peel(input, i);
      if c == '-' {
        i := i + 1;
        continue;
      }
      var value := SymbolValue(c);
      if value.None? {
        return Err(InvalidSymbol(c));
      }
      SymbolIsSmall(c);
      DecodeStep(vs, value.value, out, buffer, bits);
      vs := vs + [value.value];
      buffer := ShlOr(buffer, 5, value.value);
      bits := bits + 5;
      if bits >= 8 {
        bits := bits - 8;
        out := out + [Shr(buffer, bits) % 0x100];
        Pow2Is32();
      }
      i := i + 1;
    }
    assert input[..i] == input;
    GroupsInFront(out, 8, ToBits(buffer, bits));
    NoGroup(ToBits(buffer, bits), 8);
    assert out + [] == out;
    LowBits(buffer, bits);
    LowZero(buffer, bits);
    if bits > 0 && buffer % Pow2(bits) != 0 {
      return Err(NonZeroPadding);
    }
    r := Ok(out);
  }

  lemma LowZero(x: nat, n: nat)
    ensures FromBits(ToBits(x, n)) == 0 <==> ToBits(x, n) == Zeros(n)
  {
    hide ToBits;
    ToFromBits(ToBits(x, n));
    ZerosAreZero(n);
    ZeroBits(n);
  }

  lemma SymbolIsSmall(c: char)
    ensures SymbolValue(c).Some? ==> SymbolValue(c).value < 32
  {
    PositionFinds(Normalise(c), 0);
  }

  /** What the next character contributes to the whole string's values. */
  lemma Peel(input: string, i: nat)
    requires i < |input| && Values(input[..i]).Ok?
    ensures var c, vs := input[i], Values(input[..i]).value;
            if c == '-' then Values(input[..i + 1]) == Ok(vs)
            else match SymbolValue(c)
                 case None => Values(input) == Err(InvalidSymbol(c))
                 case Some(v) => Values(input[..i + 1]) == Ok(vs + [v])
  {
    hide SymbolValue;
    var c := input[i];
    assert input[..i + 1] == input[..i] + [c];
    ValuesSplit(input[..i], [c]);
    assert Values([c]) == if c == '-' then Ok([]) else
           match SymbolValue(c) case None => Err(InvalidSymbol(c)) case Some(v) => Ok([v]) by { ValuesOfOne(c); }
    assert input == input[..i] + input[i..];
    ValuesSplit(input[..i], input[i..]);
    assert input[i..][0] == c;
    assert Values(input[..i]).value + [] == Values(input[..i]).value;
  }

  lemma ValuesOfOne(c: char)
    ensures Values([c]) == if c == '-' then Ok([]) else
            match SymbolValue(c) case None => Err(InvalidSymbol(c)) case Some(v) => Ok([v])
  {
    hide SymbolValue;
    var one: string := [c];
    assert one[1..] == [];
    if SymbolValue(c).Some? {
      assert [SymbolValue(c).value] + [] == [SymbolValue(c).value];
    }
  }

  /** Symbols leave while five bits are there. */
  lemma EncodeStep(done: seq<nat>, out: seq<nat>, buffer: nat, bits: nat)
    requires bits >= 5 && Expand(done, 8) == Expand(out, 5) + ToBits(buffer, bits)
    ensures Expand(done, 8) == Expand(out + [Shr(buffer, bits - 5) % 32], 5) + ToBits(buffer, bits - 5)
  {
    hide ToBits, Pow2, Expand, Shr;
    var index := Shr(buffer, bits - 5) % 32;
    Pow2Is32();
    ShiftOut(buffer, 5, bits - 5);
    Wraps(Shr(buffer, bits - 5), 5, 5);
    ExpandAppend(out, [index], 5);
    ExpandOne(index, 5);
  }

  /** The last partial group is shifted up, which pads it with zero bits. */
  lemma LastSymbol(buffer: nat, bits: nat)
    requires 0 < bits < 5
    ensures ShlOr(buffer, 5 - bits, 0) % 32 == FromBits(ToBits(buffer, bits) + Zeros(5 - bits))
  {
    hide ToBits, FromBits, Pow2, ShlOr;
    var x := ShlOr(buffer, 5 - bits, 0);
    ShiftInWraps(buffer, 0, bits, 5 - bits);
    ZeroBits(5 - bits);
    LowBits(x, 5);
    Pow2Is32();
  }

  lemma NextByte(done: seq<nat>, b: nat, out: seq<nat>, buffer: nat, bits: nat)
    requires b < 256 && bits < 5 && Expand(done, 8) == Expand(out, 5) + ToBits(buffer, bits)
    ensures Expand(done + [b], 8) == Expand(out, 5) + ToBits(ShlOr(buffer, 8, b), bits + 8)
  {
    hide ToBits, Pow2, Expand, ShlOr;
    Pow2Is32();
    ExpandAppend(done, [b], 8);
    ExpandOne(b, 8);
    ShiftInWraps(buffer, b, bits, 8);
  }

  method EncodeLoop(bytes: seq<nat>) returns (s: string)
    requires Within(bytes, 8)
    ensures s == Encode(bytes)
  {
    hide ToBits, FromBits, Pow2, Expand, Group, Rest, ShlOr, Shr, Zeros;
    var out: seq<nat> := [];
    var buffer: nat, bits: nat := 0, 0;
    var i := 0;
    Pow2Is32();
    NoGroup([], 5);
    NoGroup([], 8);
    assert bytes[..0] == [];
    while i < |bytes|
      invariant 0 <= i <= |bytes| && bits < 5
      invariant Within(out, 5)
      invariant Expand(bytes[..i], 8) == Expand(out, 5) + ToBits(buffer, bits)
    {
      NextByte(bytes[..i], bytes[i], out, buffer, bits);
      assert bytes[..i + 1] == bytes[..i] + [bytes[i]];
      buffer := ShlOr(buffer, 8, bytes[i]);
      bits := bits + 8;
      while bits >= 5
        invariant Within(out, 5)
        invariant Expand(bytes[..i + 1], 8) == Expand(out, 5) + ToBits(buffer, bits)
      {
        EncodeStep(bytes[..i + 1], out, buffer, bits);
        bits := bits - 5;
        out := out + [Shr(buffer, bits) % 32];
      }
      i := i + 1;
    }
    assert bytes[..i] == bytes;
    GroupsInFront(out, 5, ToBits(buffer, bits));
    NoGroup(ToBits(buffer, bits), 5);
    assert out + [] == out;
    PackWithin(Expand(bytes, 8));
    if bits > 0 {
      LastSymbol(buffer, bits);
      out := out + [ShlOr(buffer, 5 - bits, 0) % 32];
    }
    assert out == Pack(Expand(bytes, 8));
    s := Symbols(out);
  }
}
