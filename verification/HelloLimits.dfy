/**
 What the record parser refuses and when: every input is records in progress and a
 rest, and the answer is decided by the rest, by how many records there were, how
 many bytes they took, and the message they hold so far.
 */
module HelloLimits {
  import opened Outcomes
  import opened Wire
  import opened ClientHello

  /** The first bytes of a ClientHello message that fits, and not all of it. */
  predicate Partial(h: Bytes) {
    && (h != [] ==> h[0] == 1)
    && (|h| >= 4 ==> |h| < Total(h) <= 32_768)
  }

  lemma SameTotal(h: Bytes, more: Bytes)
    requires |h| >= 4
    ensures Total(h + more) == Total(h)
  {
  }

  /** Byte by byte or at once: a payload is bad exactly if it makes neither part of a message nor a whole one. */
  lemma {:induction false} AbsorbMeans(before: Bytes, payload: Bytes)
    requires Partial(before)
    ensures var h := before + payload;
            Absorb(before, payload) == if Partial(h) then More(h) else if Message(h) then Whole(h) else Bad
    decreases |payload|
  {
    if payload == [] {
      assert before + payload == before;
    } else {
      var h, all := before + [payload[0]], before + payload;
      assert h + payload[1..] == all && h[0] == all[0];
      if |h| >= 4 {
        SameTotal(h, payload[1..]);
      }
      if |payload| == 1 {
        assert h == all && payload[1..] == [];
      }
      if Partial(h) {
        AbsorbMeans(h, payload[1..]);
      }
    }
  }

  /** Records that are within every limit and hold part of a message. */
  predicate InProgress(records: seq<Record>) {
    && AllFit(records) && |records| <= 32_768 && |EncodeRecords(records)| <= 196_608
    && Partial(Payload(records))
  }

  lemma {:induction false} Joined(a: seq<Record>, b: seq<Record>)
    requires AllFit(a) && AllFit(b)
    ensures AllFit(a + b)
    ensures EncodeRecords(a + b) == EncodeRecords(a) + EncodeRecords(b) && Payload(a + b) == Payload(a) + Payload(b)
    decreases |a|
  {
    hide EncodeRecord;
    if a == [] {
      assert a + b == b;
    } else {
      assert (a + b)[1..] == a[1..] + b && AllFit(a[1..]);
      Joined(a[1..], b);
      assert EncodeRecord(a[0]) + (EncodeRecords(a[1..]) + EncodeRecords(b))
             == (EncodeRecord(a[0]) + EncodeRecords(a[1..])) + EncodeRecords(b);
      assert a[0].payload + (Payload(a[1..]) + Payload(b)) == (a[0].payload + Payload(a[1..])) + Payload(b);
    }
  }

  lemma OneRecord(r: Record)
    requires |r.payload| <= MAX_RECORD_PAYLOAD
    ensures AllFit([r]) && EncodeRecords([r]) == EncodeRecord(r) && Payload([r]) == r.payload
  {
    hide EncodeRecord;
    assert [r][1..] == [];
    assert EncodeRecord(r) + [] == EncodeRecord(r) && r.payload + [] == r.payload;
  }

  lemma PartOfPartial(h: Bytes, more: Bytes)
    requires Partial(h + more)
    ensures Partial(h)
  {
    if h != [] {
      assert (h + more)[0] == h[0];
    }
    if |h| >= 4 {
      SameTotal(h, more);
    }
  }

  /** Records in progress are read, and the parser goes on with what follows them. */
  lemma {:induction false} Reaches(u: Utf8, done: seq<Record>, records: seq<Record>, rest: Bytes)
    requires AllFit(done) && InProgress(done + records)
    ensures AllFit(records)
    ensures Records(u, EncodeRecords(records) + rest, |done|, |EncodeRecords(done)|, Payload(done))
            == Records(u, rest, |done + records|, |EncodeRecords(done + records)|, Payload(done + records))
    decreases |records|
  {
    hide EncodeRecord, Records, Partial, AllFit, Payload;
    PartsFit(done, records);
    if records == [] {
      assert done + records == done && [] + rest == rest;
    } else {
      var r := records[0];
      assert [r] + records[1..] == records && (done + [r]) + records[1..] == done + records;
      PartsFit([r], records[1..]);
      PartsFit(done + [r], records[1..]);
      FitsAlone(r);
      Reaches(u, done + [r], records[1..], rest);
      ReadsOne(u, done, r, EncodeRecords(records[1..]) + rest, records[1..]);
      assert EncodeRecord(r) + EncodeRecords(records[1..]) + rest
             == EncodeRecord(r) + (EncodeRecords(records[1..]) + rest);
    }
  }

  lemma FitsAlone(r: Record)
    ensures AllFit([r]) <==> |r.payload| <= MAX_RECORD_PAYLOAD
  {
    assert [r][0] == r;
  }

  lemma PartsFit(a: seq<Record>, b: seq<Record>)
    requires AllFit(a + b)
    ensures AllFit(a) && AllFit(b)
  {
    forall i | 0 <= i < |a| ensures |a[i].payload| <= MAX_RECORD_PAYLOAD {
      assert (a + b)[i] == a[i];
    }
    forall i | 0 <= i < |b| ensures |b[i].payload| <= MAX_RECORD_PAYLOAD {
      assert (a + b)[|a| + i] == b[i];
    }
  }

  lemma ReadsOne(u: Utf8, done: seq<Record>, r: Record, rest: Bytes, more: seq<Record>)
    requires AllFit(done) && |r.payload| <= MAX_RECORD_PAYLOAD && AllFit(more) && InProgress(done + [r] + more)
    ensures AllFit(done + [r])
    ensures Records(u, EncodeRecord(r) + rest, |done|, |EncodeRecords(done)|, Payload(done))
            == Records(u, rest, |done| + 1, |EncodeRecords(done + [r])|, Payload(done + [r]))
  {
    hide Absorb, Finish, Partial, Payload, EncodeRecords, AllFit, EncodeRecord;
    OneRecord(r);
    Joined(done, [r]);
    Joined(done + [r], more);
    RecordHeader(r, rest);
    HeaderLength5(r);
    PartOfPartial(Payload(done + [r]), Payload(more));
    PartOfPartial(Payload(done), r.payload);
    AbsorbMeans(Payload(done), r.payload);
  }

  lemma HeaderLength5(r: Record)
    requires |r.payload| <= MAX_RECORD_PAYLOAD
    ensures |EncodeRecord(r)| == 5 + |r.payload|
  {
  }

  /** The rest starts with a whole record that leaves the message in progress. */
  predicate GoesOn(records: seq<Record>, rest: Bytes)
    requires InProgress(records)
  {
    && |records| < 32_768 && |rest| >= 5 && rest[0] == 0x16
    && var n := U16(rest[3], rest[4]);
       && n <= 16_384 && |EncodeRecords(records)| + 5 + n <= 196_608 && |rest| >= 5 + n
       && Partial(Payload(records) + rest[5..5 + n])
  }

  /** The answer, once the rest does not go on. */
  function Verdict(u: Utf8, records: seq<Record>, rest: Bytes): Result<Outcome, SniError>
    requires InProgress(records)
  {
    if rest == [] then Ok(Incomplete)
    else if |records| == 32_768 then Err(Malformed)
    else if |rest| < 5 then Ok(Incomplete)
    else
      var n := U16(rest[3], rest[4]);
      if rest[0] != 0x16 || n > 16_384 || |EncodeRecords(records)| + 5 + n > 196_608 then Err(Malformed)
      else if |rest| < 5 + n then Ok(Incomplete)
      else if Message(Payload(records) + rest[5..5 + n])
      then Finish(u, Payload(records) + rest[5..5 + n])
      else Err(Malformed)
  }

  lemma Stops(u: Utf8, records: seq<Record>, rest: Bytes)
    requires InProgress(records) && !GoesOn(records, rest)
    ensures Records(u, rest, |records|, |EncodeRecords(records)|, Payload(records)) == Verdict(u, records, rest)
  {
    hide Absorb, Body, Partial, Message, Payload, EncodeRecords, AllFit, Total;
    if |rest| >= 5 && |rest| >= 5 + U16(rest[3], rest[4]) {
      AbsorbMeans(Payload(records), rest[5..5 + U16(rest[3], rest[4])]);
    }
  }

  lemma {:induction false} DecideFrom(u: Utf8, records: seq<Record>, rest: Bytes)
    returns (more: seq<Record>, tail: Bytes)
    requires InProgress(records)
    ensures AllFit(more) && InProgress(records + more)
    ensures rest == EncodeRecords(more) + tail && !GoesOn(records + more, tail)
    decreases |rest|
  {
    hide Partial, Payload, EncodeRecords, EncodeRecord, AllFit;
    if GoesOn(records, rest) {
      var n := U16(rest[3], rest[4]);
      var r := FirstRecord(rest);
      FirstRecordExact(rest);
      OneRecord(r);
      Joined(records, [r]);
      HeaderLength5(r);
      var others;
      others, tail := DecideFrom(u, records + [r], rest[5 + n..]);
      more := [r] + others;
      assert (records + [r]) + others == records + more;
      PartsFit(records + [r], others);
      RecordInFront(r, others);
      assert EncodeRecord(r) + (EncodeRecords(others) + tail) == (EncodeRecord(r) + EncodeRecords(others)) + tail;
    } else {
      more, tail := [], rest;
      NoRecords();
      assert records + [] == records && [] + rest == rest;
    }
  }

  /**
   Every input is decided: it is records in progress and a rest that does not go on.
   The answer is Incomplete exactly if the rest is empty, or fewer than 32,768 records
   came and it is a piece of a record that could still be taken; Malformed if the rest
   is one record or byte too many, of another type, longer than 16,384 bytes, past
   196,608 bytes in all, or makes no message; and else the message's own answer.
   */
  lemma EveryInputIsDecided(u: Utf8, input: Bytes) returns (records: seq<Record>, rest: Bytes)
    ensures InProgress(records) && input == EncodeRecords(records) + rest && !GoesOn(records, rest)
    ensures ClientHello.Parse(u, input) == Verdict(u, records, rest)
  {
    hide Partial, Payload, EncodeRecords, AllFit, Records, GoesOn, Verdict;
    NothingYet();
    records, rest := DecideFrom(u, [], input);
    assert [] + records == records;
    Reaches(u, [], records, rest);
    Stops(u, records, rest);
  }

  lemma NothingYet()
    ensures InProgress([]) && Payload([]) == [] && |EncodeRecords([])| == 0
  {
  }
}
