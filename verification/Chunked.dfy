/**
 `Transfer-Encoding: chunked` (section 7.1 of RFC 9112): the incremental decoder
 and the batch decoder. Parsing the text of a size line is a parameter, the same
 for both.
 */
module Chunked {
  import opened Outcomes
  import opened Wire

  const CRLF: Bytes := [13, 10]

  /** The size a line announces; None when it is malformed or too large. */
  type SizeOf = Bytes -> Option<nat>

  // ---------------------------------------------------------------- searching

  function Find(haystack: Bytes, needle: Bytes): Option<nat> {
    if needle == [] || |haystack| < |needle| then None
    else if haystack[..|needle|] == needle then Some(0)
    else match Find(haystack[1..], needle)
         case None => None
         case Some(i) => Some(i + 1)
  }

  predicate OccursAt(haystack: Bytes, needle: Bytes, i: nat) {
    i + |needle| <= |haystack| && haystack[i..i + |needle|] == needle
  }

  /** The first occurrence, or none at all. */
  lemma {:induction false} FindIsFirst(haystack: Bytes, needle: Bytes)
    requires needle != []
    ensures match Find(haystack, needle)
            case None => forall i: nat :: !OccursAt(haystack, needle, i)
            case Some(i) => OccursAt(haystack, needle, i) && forall j: nat :: j < i ==> !OccursAt(haystack, needle, j)
    decreases |haystack|
  {
    if |haystack| >= |needle| {
      assert haystack[0..|needle|] == haystack[..|needle|];
      if haystack[..|needle|] != needle {
        FindIsFirst(haystack[1..], needle);
        forall i: nat ensures OccursAt(haystack, needle, i) <==> i > 0 && OccursAt(haystack[1..], needle, i - 1) {
          if i > 0 && i + |needle| <= |haystack| {
            assert haystack[1..][i - 1..i - 1 + |needle|] == haystack[i..i + |needle|];
          }
        }
      }
    }
  }

  /** A first occurrence stays the first when bytes are appended. */
  lemma {:induction false} FindStable(haystack: Bytes, needle: Bytes, more: Bytes)
    ensures Find(haystack, needle).Some? ==>
              && Find(haystack + more, needle) == Find(haystack, needle)
              && Find(haystack, needle).value + |needle| <= |haystack|
    decreases |haystack|
  {
    if needle != [] && |haystack| >= |needle| {
      assert (haystack + more)[..|needle|] == haystack[..|needle|];
      if haystack[..|needle|] != needle {
        assert (haystack + more)[1..] == haystack[1..] + more;
        FindStable(haystack[1..], needle, more);
      }
    }
  }

  // ---------------------------------------------------------------- decoding

  datatype ChunkState = Size | Data(size: nat) | DataCrlf | Trailer | Done | Failed

  datatype Decoder = Decoder(buf: Bytes, state: ChunkState)

  const NEW_DECODER := Decoder([], Size)
  const FAILED := Decoder([], Failed)

  /** One turn of the decoding loop. */
  datatype Progress = Stuck | Malformed | Step(next: Decoder, out: Bytes)

  function Advance(sizeOf: SizeOf, d: Decoder): Progress {
    match d.state
    case Size =>
      (match Find(d.buf, CRLF)
       case None => Stuck
       case Some(end) =>
         FindStable(d.buf, CRLF, []);
         match sizeOf(d.buf[..end])
         case None => Malformed
         case Some(size) => Step(Decoder(d.buf[end + 2..], if size == 0 then Trailer else Data(size)), []))
    case Data(size) =>
      if |d.buf| < size then Stuck else Step(Decoder(d.buf[size..], DataCrlf), d.buf[..size])
    case DataCrlf =>
      if |d.buf| < 2 then Stuck
      else if d.buf[..2] != CRLF then Malformed
      else Step(Decoder(d.buf[2..], Size), [])
    case Trailer =>
      if |d.buf| >= 2 && d.buf[..2] == CRLF then Step(Decoder([], Done), [])
      else if Find(d.buf, CRLF + CRLF).Some? then Step(Decoder([], Done), [])
      else Stuck
    case Done => Stuck
    case Failed => Stuck
  }

  function Rank(s: ChunkState): nat {
    match s
    case Data(_) => 2
    case Done => 0
    case Failed => 0
    case _ => 1
  }

  lemma AdvanceShrinks(sizeOf: SizeOf, d: Decoder)
    requires Advance(sizeOf, d).Step?
    ensures var n := Advance(sizeOf, d).next;
            |n.buf| < |d.buf| || (|n.buf| <= |d.buf| && Rank(n.state) < Rank(d.state))
  {
    FindStable(d.buf, CRLF, []);
  }

  datatype Pushed = Pushed(decoder: Decoder, out: Option<Bytes>)

  /** Run the loop until it is stuck; a failure loses the output of the call. */
  function Loop(sizeOf: SizeOf, d: Decoder): Pushed
    decreases |d.buf|, Rank(d.state)
  {
    match Advance(sizeOf, d)
    case Stuck => Pushed(d, Some([]))
    case Malformed => Pushed(FAILED, None)
    case Step(next, out) =>
      AdvanceShrinks(sizeOf, d);
      var p := Loop(sizeOf, next);
      if p.out.None? then p else Pushed(p.decoder, Some(out + p.out.value))
  }

  function Push(sizeOf: SizeOf, d: Decoder, bytes: Bytes): Pushed {
    if d.state == Done then Pushed(d, Some([]))
    else if d.state == Failed then Pushed(d, None)
    else Loop(sizeOf, d.(buf := d.buf + bytes))
  }

  /** Between calls a decoder is stuck, and a finished one keeps no bytes. */
  predicate Settled(sizeOf: SizeOf, d: Decoder) {
    Advance(sizeOf, d).Stuck? && (d.state == Done || d.state == Failed ==> d.buf == [])
  }

  // ---------------------------------------------------------------- splits

  function Extend(d: Decoder, more: Bytes): Decoder {
    if d.state == Done || d.state == Failed then d else d.(buf := d.buf + more)
  }

  /** What a turn does is not changed by bytes that arrive later. */
  lemma AdvanceStable(sizeOf: SizeOf, d: Decoder, more: Bytes)
    ensures Advance(sizeOf, d).Malformed? ==> Advance(sizeOf, Extend(d, more)).Malformed?
    ensures Advance(sizeOf, d).Step? ==>
              Advance(sizeOf, Extend(d, more)) == Step(Extend(Advance(sizeOf, d).next, more), Advance(sizeOf, d).out)
  {
    hide Find;
    FindStable(d.buf, CRLF, more);
    FindStable(d.buf, CRLF + CRLF, more);
    var wide := d.buf + more;
    match d.state
    case Size =>
      if Find(d.buf, CRLF).Some? {
        var end := Find(d.buf, CRLF).value;
        assert wide[..end] == d.buf[..end];
        assert wide[end + 2..] == d.buf[end + 2..] + more;
      }
    case Data(size) =>
      if |d.buf| >= size {
        assert wide[..size] == d.buf[..size];
        assert wide[size..] == d.buf[size..] + more;
      }
    case DataCrlf =>
      if |d.buf| >= 2 {
        assert wide[..2] == d.buf[..2];
        assert wide[2..] == d.buf[2..] + more;
      }
    case Trailer =>
      if |d.buf| >= 2 {
        assert wide[..2] == d.buf[..2];
      }
    case _ =>
  }

  /** Running on, after bytes arrive, is running over everything at once. */
  lemma {:induction false} LoopSplit(sizeOf: SizeOf, d: Decoder, more: Bytes)
    ensures var first := Loop(sizeOf, d);
            var all := Loop(sizeOf, Extend(d, more));
            && (first.out.None? ==> all == Pushed(FAILED, None))
            && (first.out.Some? ==>
                  var second := Loop(sizeOf, Extend(first.decoder, more));
                  && all.decoder == second.decoder
                  && all.out == if second.out.None? then None else Some(first.out.value + second.out.value))
    decreases |d.buf|, Rank(d.state)
  {
    hide Advance, Loop;
    AdvanceStable(sizeOf, d, more);
    LoopTurn(sizeOf, d);
    LoopTurn(sizeOf, Extend(d, more));
    match Advance(sizeOf, d)
    case Stuck =>
      var second := Loop(sizeOf, Extend(d, more));
      if second.out.Some? {
        assert [] + second.out.value == second.out.value;
      }
    case Malformed =>
    case Step(next, out) =>
      AdvanceShrinks(sizeOf, d);
      LoopSplit(sizeOf, next, more);
      var first := Loop(sizeOf, next);
      if first.out.Some? {
        var second := Loop(sizeOf, Extend(first.decoder, more));
        if second.out.Some? {
          assert out + (first.out.value + second.out.value) == (out + first.out.value) + second.out.value;
        }
      }
  }

  lemma {:induction false} LoopSettles(sizeOf: SizeOf, d: Decoder)
    requires d.state == Done || d.state == Failed ==> d.buf == []
    ensures Settled(sizeOf, Loop(sizeOf, d).decoder)
    ensures Loop(sizeOf, d).out.None? ==> Loop(sizeOf, d).decoder == FAILED
    ensures Loop(sizeOf, d).decoder.state == Failed ==> Loop(sizeOf, d).out.None? || d.state == Failed
    decreases |d.buf|, Rank(d.state)
  {
    if Advance(sizeOf, d).Step? {
      AdvanceShrinks(sizeOf, d);
      LoopSettles(sizeOf, Advance(sizeOf, d).next);
    }
  }

  /** The decoder after a series of pushes, and their joined output unless one failed. */
  function PushAll(sizeOf: SizeOf, d: Decoder, chunks: seq<Bytes>): Pushed
    decreases |chunks|
  {
    if chunks == [] then Pushed(d, Some([]))
    else
      var first := Push(sizeOf, d, chunks[0]);
      var rest := PushAll(sizeOf, first.decoder, chunks[1..]);
      if first.out.None? || rest.out.None? then Pushed(rest.decoder, None)
      else Pushed(rest.decoder, Some(first.out.value + rest.out.value))
  }

  /** Two pushes are one, with the output joined when neither fails. */
  lemma PushTwice(sizeOf: SizeOf, d: Decoder, a: Bytes, b: Bytes)
    requires Settled(sizeOf, d)
    ensures var first := Push(sizeOf, d, a);
            var second := Push(sizeOf, first.decoder, b);
            var all := Push(sizeOf, d, a + b);
            && Settled(sizeOf, first.decoder)
            && (first.out.None? <==> first.decoder.state == Failed)
            && all.decoder == second.decoder
            && (all.out.None? <==> second.out.None?)
            && (first.out.None? ==> second.out.None?)
            && (all.out.Some? ==> all.out.value == first.out.value + second.out.value)
  {
    hide Advance, Loop;
    if d.state != Done && d.state != Failed {
      assert d.buf + (a + b) == (d.buf + a) + b;
      LoopSplit(sizeOf, d.(buf := d.buf + a), b);
      LoopSettles(sizeOf, d.(buf := d.buf + a));
      var first := Push(sizeOf, d, a);
      if first.decoder.state == Done || first.decoder.state == Failed {
        FinishedLoop(sizeOf, first.decoder);
      }
    }
  }

  lemma FinishedLoop(sizeOf: SizeOf, d: Decoder)
    requires d.state == Done || d.state == Failed
    ensures Loop(sizeOf, d) == Pushed(d, Some([]))
  {
  }

  /**
   Split invariance: however the input is cut into pushes, the decoder ends in
   the same state, some push fails exactly when one push of everything would,
   and otherwise the joined output is the same.
   */
  lemma {:induction false} SplitsDoNotMatter(sizeOf: SizeOf, d: Decoder, chunks: seq<Bytes>)
    requires Settled(sizeOf, d)
    ensures var all := Push(sizeOf, d, Flatten(chunks));
            var split := PushAll(sizeOf, d, chunks);
            && split.decoder == all.decoder
            && (chunks != [] ==> split.out == all.out)
    decreases |chunks|
  {
    hide Push, Settled;
    if chunks == [] {
      PushNothing(sizeOf, d);
    } else {
      var first := Push(sizeOf, d, chunks[0]);
      PushTwice(sizeOf, d, chunks[0], Flatten(chunks[1..]));
      SplitsDoNotMatter(sizeOf, first.decoder, chunks[1..]);
      if chunks[1..] == [] {
        PushNothing(sizeOf, first.decoder);
        var second := Push(sizeOf, first.decoder, []);
        if first.out.Some? {
          assert first.out.value + [] == first.out.value;
        }
      }
    }
  }

  lemma PushNothing(sizeOf: SizeOf, d: Decoder)
    requires Settled(sizeOf, d)
    ensures Push(sizeOf, d, []).decoder == d
    ensures Push(sizeOf, d, []).out == if d.state == Failed then None else Some([])
  {
    assert d.buf + [] == d.buf;
  }

  // ---------------------------------------------------------------- batch

  /** Decode a complete body starting in front of a size line. */
  function Dechunk(sizeOf: SizeOf, raw: Bytes): Option<Bytes>
    decreases |raw|
  {
    match Find(raw, CRLF)
    case None => None
    case Some(end) =>
      FindStable(raw, CRLF, []);
      match sizeOf(raw[..end])
      case None => None
      case Some(size) =>
        var rest := raw[end + 2..];
        if size == 0 then Some([])
        else if |rest| < size + 2 || rest[size..size + 2] != CRLF then None
        else match Dechunk(sizeOf, rest[size + 2..])
             case None => None
             case Some(out) => Some(rest[..size] + out)
  }

  /** A whole chunk in front of the rest of a body. */
  lemma DechunkNext(sizeOf: SizeOf, out: Bytes, rest: Bytes, end: nat, size: nat)
    requires Find(rest, CRLF) == Some(end) && end + 2 + size + 2 <= |rest|
    requires sizeOf(rest[..end]) == Some(size) && size > 0
    requires rest[end + 2 + size..end + 2 + size + 2] == CRLF
    ensures Prepend(out, Dechunk(sizeOf, rest))
         == Prepend(out + rest[end + 2..end + 2 + size], Dechunk(sizeOf, rest[end + 2 + size + 2..]))
  {
    hide Find;
    var data := rest[end + 2..];
    assert data[size..size + 2] == rest[end + 2 + size..end + 2 + size + 2];
    assert data[..size] == rest[end + 2..end + 2 + size];
    assert data[size + 2..] == rest[end + 2 + size + 2..];
    var tail := Dechunk(sizeOf, data[size + 2..]);
    if tail.Some? {
      assert out + (data[..size] + tail.value) == (out + data[..size]) + tail.value;
    }
  }

  /** A body that is malformed or ends at its size line. */
  lemma DechunkAtLine(sizeOf: SizeOf, rest: Bytes)
    ensures Find(rest, CRLF).None? ==> Dechunk(sizeOf, rest) == None
    ensures Find(rest, CRLF).Some? ==> Find(rest, CRLF).value + 2 <= |rest|
    ensures Find(rest, CRLF).Some? && sizeOf(rest[..Find(rest, CRLF).value]) == None ==> Dechunk(sizeOf, rest) == None
    ensures Find(rest, CRLF).Some? && sizeOf(rest[..Find(rest, CRLF).value]) == Some(0)
            ==> Dechunk(sizeOf, rest) == Some([])
  {
    hide Find;
    FindStable(rest, CRLF, []);
  }

  /** A chunk that is cut short or not followed by its terminator. */
  lemma DechunkTruncated(sizeOf: SizeOf, rest: Bytes, end: nat, size: nat)
    requires Find(rest, CRLF) == Some(end) && end + 2 <= |rest| && sizeOf(rest[..end]) == Some(size) && size > 0
    requires end + 2 + size + 2 <= |rest| ==> rest[end + 2 + size..end + 2 + size + 2] != CRLF
    ensures Dechunk(sizeOf, rest) == None
  {
    hide Find;
    var data := rest[end + 2..];
    if size + 2 <= |data| {
      assert data[size..size + 2] == rest[end + 2 + size..end + 2 + size + 2];
    }
  }

  /** The batch decoder's own loop over an index into the body. */
  method DechunkLoop(sizeOf: SizeOf, raw: Bytes) returns (r: Option<Bytes>)
    ensures r == Dechunk(sizeOf, raw)
  {
    hide Dechunk, Find;
    var out: Bytes := [];
    var index := 0;
    assert raw[0..] == raw;
    PrependNothing(Dechunk(sizeOf, raw));
    while index < |raw|
      invariant 0 <= index <= |raw|
      invariant Dechunk(sizeOf, raw) == Prepend(out, Dechunk(sizeOf, raw[index..]))
      decreases |raw| - index
    {
      ghost var from := index;
      ghost var rest := raw[from..];
      DechunkAtLine(sizeOf, rest);
      var found := Find(raw[index..], CRLF);
      if found.None? {
        return None;
      }
      var lineEnd := index + found.value;
      SliceOfSuffix(raw, from, from, lineEnd);
      var size := sizeOf(raw[index..lineEnd]);
      if size.None? {
        return None;
      }
      index := lineEnd + 2;
      if size.value == 0 {
        assert out + [] == out;
        return Some(out);
      }
      var dataEnd := index + size.value;
      if dataEnd > |raw| {
        DechunkTruncated(sizeOf, rest, found.value, size.value);
        return None;
      }
      if |raw| - dataEnd >= 2 {
        SliceOfSuffix(raw, from, dataEnd, dataEnd + 2);
      }
      if |raw| - dataEnd < 2 || raw[dataEnd..dataEnd + 2] != CRLF {
        DechunkTruncated(sizeOf, rest, found.value, size.value);
        return None;
      }
      DechunkNext(sizeOf, out, rest, found.value, size.value);
      SliceOfSuffix(raw, from, index, dataEnd);
      assert raw[dataEnd + 2..] == rest[dataEnd + 2 - from..];
      out := out + raw[index..dataEnd];
      index := dataEnd + 2;
    }
    assert raw[index..] == [];
    DechunkAtLine(sizeOf, []);
    assert Find([], CRLF) == None by { NothingToFind(); }
    return None;
  }

  lemma SliceOfSuffix(raw: Bytes, from: nat, lo: nat, hi: nat)
    requires from <= lo <= hi <= |raw|
    ensures raw[from..][lo - from..hi - from] == raw[lo..hi]
    ensures from == lo ==> raw[from..][..hi - from] == raw[lo..hi]
  {
  }

  lemma NothingToFind()
    ensures Find([], CRLF) == None
  {
  }

  lemma PrependNothing(rest: Option<Bytes>)
    ensures Prepend([], rest) == rest
  {
    if rest.Some? {
      assert [] + rest.value == rest.value;
    }
  }

  function Prepend(out: Bytes, rest: Option<Bytes>): Option<Bytes> {
    if rest.None? then None else Some(out + rest.value)
  }

  /** Chunk data and its line ending, from the decoder's data state. */
  lemma LoopData(sizeOf: SizeOf, rest: Bytes, size: nat)
    requires size > 0
    ensures if |rest| < size + 2 || rest[size..size + 2] != CRLF
            then Loop(sizeOf, Decoder(rest, Data(size))).decoder.state !in {Trailer, Done}
            else var p := Loop(sizeOf, Decoder(rest[size + 2..], Size));
                 Loop(sizeOf, Decoder(rest, Data(size))) == Pushed(p.decoder, Prepend(rest[..size], p.out))
  {
    if |rest| >= size {
      var after := rest[size..];
      LoopStep(sizeOf, Decoder(rest, Data(size)), Decoder(after, DataCrlf), rest[..size]);
      if |after| >= 2 {
        assert rest[size..size + 2] == after[..2];
        if after[..2] == CRLF {
          assert after[2..] == rest[size + 2..];
          LoopStep(sizeOf, Decoder(after, DataCrlf), Decoder(after[2..], Size), []);
          var p := Loop(sizeOf, Decoder(after[2..], Size));
          if p.out.Some? {
            assert [] + p.out.value == p.out.value;
          }
        }
      }
    }
  }

  /** A complete chunk takes the decoder from one size line to the next. */
  lemma LoopChunk(sizeOf: SizeOf, raw: Bytes, end: nat, size: nat)
    requires Find(raw, CRLF) == Some(end) && end + 2 <= |raw| && sizeOf(raw[..end]) == Some(size) && size > 0
    ensures var rest := raw[end + 2..];
            if |rest| < size + 2 || rest[size..size + 2] != CRLF
            then Loop(sizeOf, Decoder(raw, Size)).decoder.state !in {Trailer, Done}
            else var p := Loop(sizeOf, Decoder(rest[size + 2..], Size));
                 Loop(sizeOf, Decoder(raw, Size)) == Pushed(p.decoder, Prepend(rest[..size], p.out))
  {
    hide Loop, Find;
    var rest := raw[end + 2..];
    LoopStep(sizeOf, Decoder(raw, Size), Decoder(rest, Data(size)), []);
    LoopData(sizeOf, rest, size);
    var p := Loop(sizeOf, Decoder(rest, Data(size)));
    if p.out.Some? {
      assert [] + p.out.value == p.out.value;
    }
  }

  lemma LoopStep(sizeOf: SizeOf, d: Decoder, next: Decoder, out: Bytes)
    requires Advance(sizeOf, d) == Step(next, out)
    ensures var p := Loop(sizeOf, next);
            Loop(sizeOf, d) == Pushed(p.decoder, if p.out.None? then None else Some(out + p.out.value))
  {
    hide Advance;
    LoopSettlesOnFailure(sizeOf, next);
  }

  lemma {:induction false} LoopSettlesOnFailure(sizeOf: SizeOf, d: Decoder)
    ensures Loop(sizeOf, d).out.None? ==> Loop(sizeOf, d).decoder == FAILED
    decreases |d.buf|, Rank(d.state)
  {
    if Advance(sizeOf, d).Step? {
      AdvanceShrinks(sizeOf, d);
      LoopSettlesOnFailure(sizeOf, Advance(sizeOf, d).next);
    }
  }

  /** The terminal chunk moves the decoder to its trailer, where nothing can fail. */
  lemma LoopTerminal(sizeOf: SizeOf, raw: Bytes, end: nat)
    requires Find(raw, CRLF) == Some(end) && end + 2 <= |raw| && sizeOf(raw[..end]) == Some(0)
    ensures var p := Loop(sizeOf, Decoder(raw, Size));
            p.decoder.state in {Trailer, Done} && p.out == Some([])
  {
    hide Find;
    var d := Decoder(raw[end + 2..], Trailer);
    LoopStep(sizeOf, Decoder(raw, Size), d, []);
    if Advance(sizeOf, d).Step? {
      LoopStep(sizeOf, d, Decoder([], Done), []);
    }
  }

  /**
   The two decoders agree: the batch decoder returns `o` exactly when a fresh
   incremental decoder given the same bytes returns `o` and has reached its
   trailer or its end.
   */
  lemma {:induction false} BatchAgreesWithIncremental(sizeOf: SizeOf, raw: Bytes)
    ensures var p := Push(sizeOf, NEW_DECODER, raw);
            Dechunk(sizeOf, raw) == if p.decoder.state in {Trailer, Done} then p.out else None
    decreases |raw|
  {
    assert [] + raw == raw;
    BatchAgreesWithLoop(sizeOf, raw);
  }

  lemma {:induction false} BatchAgreesWithLoop(sizeOf: SizeOf, raw: Bytes)
    ensures var p := Loop(sizeOf, Decoder(raw, Size));
            Dechunk(sizeOf, raw) == if p.decoder.state in {Trailer, Done} then p.out else None
    decreases |raw|
  {
    hide Find;
    var found := Find(raw, CRLF);
    if found.Some? {
      FindStable(raw, CRLF, []);
      var end := found.value;
      var size := sizeOf(raw[..end]);
      if size.Some? {
        if size.value == 0 {
          LoopTerminal(sizeOf, raw, end);
        } else {
          LoopChunk(sizeOf, raw, end, size.value);
          var rest := raw[end + 2..];
          if |rest| >= size.value + 2 && rest[size.value..size.value + 2] == CRLF {
            BatchAgreesWithLoop(sizeOf, rest[size.value + 2..]);
          }
        }
      }
    }
  }

  // ---------------------------------------------------------------- in place

  /** The incremental decoder as it runs. */
  class ChunkedDecoder {
    const sizeOf: SizeOf
    var buf: Bytes
    var state: ChunkState

    ghost function View(): Decoder
      reads this
    {
      Decoder(buf, state)
    }

    constructor (sizeOf: SizeOf)
      ensures this.sizeOf == sizeOf
      ensures View() == NEW_DECODER && Settled(sizeOf, View())
    {
      this.sizeOf := sizeOf;
      buf, state := [], Size;
    }

    /** Once failed, always failed; once done, further bytes are ignored. */
    method PushBytes(bytes: Bytes) returns (r: Option<Bytes>)
      modifies this
      ensures Pushed(View(), r) == Push(sizeOf, old(View()), bytes)
    {
      hide Loop, Advance;
      if state == Done {
        return Some([]);
      }
      if state == Failed {
        return None;
      }
      buf := buf + bytes;
      ghost var start := View();
      var out: Bytes := [];
      PrependNothing(Loop(sizeOf, start).out);
      while true
        invariant var p := Loop(sizeOf, View());
                  Loop(sizeOf, start) == Pushed(p.decoder, Prepend(out, p.out))
        decreases |buf|, Rank(state)
      {
        ghost var before := View();
        LoopTurn(sizeOf, before);
        var turn := Turn();
        match turn
        case Stuck =>
          assert out + [] == out;
          return Some(out);
        case Malformed =>
          return None;
        case Step(next, more) =>
          AdvanceShrinks(sizeOf, before);
          ghost var p := Loop(sizeOf, next);
          if p.out.Some? {
            assert out + (more + p.out.value) == (out + more) + p.out.value;
          }
          out := out + more;
      }
    }

    /** One turn of the loop, in place. */
    method Turn() returns (turn: Progress)
      modifies this
      ensures turn == Advance(sizeOf, old(View()))
      ensures View() == match turn case Stuck => old(View()) case Malformed => FAILED case Step(next, _) => next
    {
      hide Find;
      match state
      case Size =>
        var lineEnd := Find(buf, CRLF);
        if lineEnd.None? {
          return Stuck;
        }
        FindStable(buf, CRLF, []);
        var size := sizeOf(buf[..lineEnd.value]);
        if size.None? {
          state, buf := Failed, [];
          return Malformed;
        }
        buf := buf[lineEnd.value + 2..];
        state := if size.value == 0 then Trailer else Data(size.value);
        return Step(Decoder(buf, state), []);
      case Data(size) =>
        if |buf| < size {
          return Stuck;
        }
        var out := buf[..size];
        buf := buf[size..];
        state := DataCrlf;
        return Step(Decoder(buf, state), out);
      case DataCrlf =>
        if |buf| < 2 {
          return Stuck;
        }
        if buf[..2] != CRLF {
          state, buf := Failed, [];
          return Malformed;
        }
        buf := buf[2..];
        state := Size;
        return Step(Decoder(buf, state), []);
      case Trailer =>
        if |buf| >= 2 && buf[..2] == CRLF {
          buf, state := [], Done;
          return Step(Decoder([], Done), []);
        }
        var trailerEnd := Find(buf, CRLF + CRLF);
        if trailerEnd.None? {
          return Stuck;
        }
        buf, state := [], Done;
        return Step(Decoder([], Done), []);
      case Done => return Stuck;
      case Failed => return Stuck;
    }
  }

  /** The loop is its first turn and then the loop. */
  lemma LoopTurn(sizeOf: SizeOf, d: Decoder)
    ensures match Advance(sizeOf, d)
            case Stuck => Loop(sizeOf, d) == Pushed(d, Some([]))
            case Malformed => Loop(sizeOf, d) == Pushed(FAILED, None)
            case Step(next, out) =>
              var p := Loop(sizeOf, next);
              Loop(sizeOf, d) == Pushed(p.decoder, Prepend(out, p.out))
  {
    hide Advance;
    if Advance(sizeOf, d).Step? {
      LoopStep(sizeOf, d, Advance(sizeOf, d).next, Advance(sizeOf, d).out);
    }
  }
}
