/**
 Which bodies the chunked decoders accept and what they mean: exactly the sequences
 of announced chunks followed by a line announcing zero, and the data is theirs.
 */
module ChunkedBodies {
  import opened Outcomes
  import opened Wire
  import opened Chunked

  datatype Chunk = Chunk(line: Bytes, data: Bytes)

  /** A line holds no line ending of its own and announces a size. */
  predicate Announces(sizeOf: SizeOf, line: Bytes, size: nat) {
    Find(line + CRLF, CRLF) == Some(|line|) && sizeOf(line) == Some(size)
  }

  predicate Announced(sizeOf: SizeOf, chunks: seq<Chunk>) {
    forall i :: 0 <= i < |chunks| ==> chunks[i].data != [] && Announces(sizeOf, chunks[i].line, |chunks[i].data|)
  }

  /** The chunks in front of the rest of a body. */
  function Encoded(chunks: seq<Chunk>, rest: Bytes): Bytes {
    if chunks == [] then rest
    else chunks[0].line + CRLF + chunks[0].data + CRLF + Encoded(chunks[1..], rest)
  }

  function DataOf(chunks: seq<Chunk>): Bytes {
    if chunks == [] then [] else chunks[0].data + DataOf(chunks[1..])
  }

  /** The line that ends a body, and whatever follows it. */
  function Ending(last: Bytes, trailer: Bytes): Bytes {
    last + CRLF + trailer
  }

  /** An empty trailer section, or trailer fields up to a blank line. */
  predicate TrailerEnds(trailer: Bytes) {
    (|trailer| >= 2 && trailer[..2] == CRLF) || Find(trailer, CRLF + CRLF).Some?
  }

  lemma LineIsFound(line: Bytes, more: Bytes)
    requires Find(line + CRLF, CRLF) == Some(|line|)
    ensures Find(line + CRLF + more, CRLF) == Some(|line|)
    ensures (line + CRLF + more)[..|line|] == line && (line + CRLF + more)[|line| + 2..] == more
  {
    FindStable(line + CRLF, CRLF, more);
  }

  lemma ChunkIsFirst(c: Chunk, rest: Bytes)
    requires Find(c.line + CRLF, CRLF) == Some(|c.line|)
    ensures var raw := c.line + CRLF + c.data + CRLF + rest;
            var after := raw[|c.line| + 2..];
            && Find(raw, CRLF) == Some(|c.line|) && raw[..|c.line|] == c.line
            && |after| >= |c.data| + 2 && after[..|c.data|] == c.data
            && after[|c.data|..|c.data| + 2] == CRLF && after[|c.data| + 2..] == rest
  {
    var more := c.data + CRLF + rest;
    LineIsFound(c.line, more);
    assert c.line + CRLF + c.data + CRLF + rest == c.line + CRLF + more;
  }

  lemma EndingIsRead(sizeOf: SizeOf, last: Bytes, trailer: Bytes)
    requires Announces(sizeOf, last, 0)
    ensures var p := Loop(sizeOf, Decoder(Ending(last, trailer), Size));
            p.out == Some([]) && p.decoder.state == if TrailerEnds(trailer) then Done else Trailer
  {
    hide Find;
    LineIsFound(last, trailer);
    var d := Decoder(trailer, Trailer);
    LoopStep(sizeOf, Decoder(Ending(last, trailer), Size), d, []);
    if Advance(sizeOf, d).Step? {
      LoopStep(sizeOf, d, Decoder([], Done), []);
    }
  }

  lemma {:induction false} ChunksAreRead(sizeOf: SizeOf, chunks: seq<Chunk>, last: Bytes, trailer: Bytes)
    requires Announced(sizeOf, chunks) && Announces(sizeOf, last, 0)
    ensures var p := Loop(sizeOf, Decoder(Encoded(chunks, Ending(last, trailer)), Size));
            p.out == Some(DataOf(chunks)) && p.decoder.state == if TrailerEnds(trailer) then Done else Trailer
    decreases |chunks|
  {
    hide Find, Loop;
    if chunks == [] {
      EndingIsRead(sizeOf, last, trailer);
    } else {
      var c, rest := chunks[0], Encoded(chunks[1..], Ending(last, trailer));
      ChunkIsFirst(c, rest);
      ChunksAreRead(sizeOf, chunks[1..], last, trailer);
      LoopChunk(sizeOf, c.line + CRLF + c.data + CRLF + rest, |c.line|, |c.data|);
    }
  }

  /** A body that decodes is chunks and an ending. */
  lemma {:induction false} DecodedIsChunks(sizeOf: SizeOf, raw: Bytes)
    returns (chunks: seq<Chunk>, last: Bytes, trailer: Bytes)
    requires Dechunk(sizeOf, raw).Some?
    ensures Announced(sizeOf, chunks) && Announces(sizeOf, last, 0)
    ensures raw == Encoded(chunks, Ending(last, trailer)) && Dechunk(sizeOf, raw) == Some(DataOf(chunks))
    decreases |raw|
  {
    hide Find;
    var end := Find(raw, CRLF).value;
    var line, rest := LineOf(raw);
    var size := sizeOf(line).value;
    if size == 0 {
      chunks, last, trailer := [], line, rest;
    } else {
      var more, last', trailer' := DecodedIsChunks(sizeOf, rest[size + 2..]);
      last, trailer := last', trailer';
      var c := Chunk(line, rest[..size]);
      chunks := [c] + more;
      assert chunks[1..] == more;
      assert rest == c.data + CRLF + rest[size + 2..];
      assert raw == c.line + CRLF + c.data + CRLF + Encoded(more, Ending(last, trailer));
    }
  }

  lemma LineOf(raw: Bytes) returns (line: Bytes, rest: Bytes)
    requires Find(raw, CRLF).Some?
    ensures var end := Find(raw, CRLF).value;
            end + 2 <= |raw| && line == raw[..end] && rest == raw[end + 2..]
    ensures raw == line + CRLF + rest && Find(line + CRLF, CRLF) == Some(|line|)
  {
    var end := Find(raw, CRLF).value;
    FindStable(raw, CRLF, []);
    FindIsFirst(raw, CRLF);
    line, rest := raw[..end], raw[end + 2..];
    assert raw[end..end + 2] == CRLF;
    var whole := line + CRLF;
    assert whole == raw[..end + 2];
    FindIsFirst(whole, CRLF);
    assert whole[end..end + 2] == CRLF;
    assert OccursAt(whole, CRLF, end);
    var at := Find(whole, CRLF).value;
    assert raw[at..at + 2] == whole[at..at + 2];
    assert OccursAt(raw, CRLF, at);
  }

  /**
   The batch decoder accepts a body exactly if it is announced chunks and an ending,
   and returns their data.
   */
  lemma AcceptsExactlyChunks(sizeOf: SizeOf, raw: Bytes, out: Bytes)
    ensures Dechunk(sizeOf, raw) == Some(out) <==>
            exists chunks, last, trailer ::
              && Announced(sizeOf, chunks) && Announces(sizeOf, last, 0)
              && raw == Encoded(chunks, Ending(last, trailer)) && out == DataOf(chunks)
  {
    hide Find, Dechunk, Loop, Announces;
    forall chunks, last, trailer |
      Announced(sizeOf, chunks) && Announces(sizeOf, last, 0) && raw == Encoded(chunks, Ending(last, trailer))
      ensures Dechunk(sizeOf, raw) == Some(DataOf(chunks))
    {
      ChunksAreRead(sizeOf, chunks, last, trailer);
      BatchAgreesWithLoop(sizeOf, raw);
    }
    if Dechunk(sizeOf, raw).Some? {
      var chunks, last, trailer := DecodedIsChunks(sizeOf, raw);
    }
  }

  /** Round trip: the incremental decoder gives back the data of any chunks, and is done when the trailer is. */
  lemma ChunksRoundTrip(sizeOf: SizeOf, chunks: seq<Chunk>, last: Bytes, trailer: Bytes)
    requires Announced(sizeOf, chunks) && Announces(sizeOf, last, 0)
    ensures var p := Push(sizeOf, NEW_DECODER, Encoded(chunks, Ending(last, trailer)));
            p.out == Some(DataOf(chunks)) && (p.decoder.state == Done <==> TrailerEnds(trailer))
  {
    hide Loop;
    var raw := Encoded(chunks, Ending(last, trailer));
    assert [] + raw == raw;
    ChunksAreRead(sizeOf, chunks, last, trailer);
  }
}
