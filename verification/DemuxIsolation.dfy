/**
 Streams on one carrier do not affect each other: what the demultiplexer does
 with stream `id` is what it would do with that stream's frames alone.
 */
module DemuxIsolation {
  import opened Outcomes
  import opened Wire
  import opened Flow
  import opened Demux

  function Filter<T>(xs: seq<T>, keep: T -> bool): seq<T> {
    if xs == [] then [] else (if keep(xs[0]) then [xs[0]] else []) + Filter(xs[1..], keep)
  }

  lemma {:induction false} FilterAppend<T>(xs: seq<T>, ys: seq<T>, keep: T -> bool)
    ensures Filter(xs + ys, keep) == Filter(xs, keep) + Filter(ys, keep)
  {
    if xs == [] {
      assert xs + ys == ys;
    } else {
      assert (xs + ys)[1..] == xs[1..] + ys;
      FilterAppend(xs[1..], ys, keep);
    }
  }

  lemma FilterOne<T>(x: T, keep: T -> bool)
    ensures Filter([x], keep) == if keep(x) then [x] else []
  {
    assert [x][1..] == [];
  }

  lemma {:induction false} FilterAll<T>(xs: seq<T>, keep: T -> bool, yes: bool)
    requires forall i :: 0 <= i < |xs| ==> keep(xs[i]) == yes
    ensures Filter(xs, keep) == if yes then xs else []
  {
    if xs != [] {
      FilterAll(xs[1..], keep, yes);
    }
  }

  function EventOf(id: U32): ((U32, StreamEvent)) -> bool { (e: (U32, StreamEvent)) => e.0 == id }
  function GrantOf(id: U32): ((U32, U32)) -> bool { (g: (U32, U32)) => g.0 == id }
  function FrameOf(id: U32): Frame -> bool { (f: Frame) => f.streamId == id }
  function ViolationOf(id: U32): FrameViolation -> bool { (v: FrameViolation) => v.streamId == id }

  /** What an output says about one stream. */
  function Project(out: Output, id: U32): Output {
    Output([], [],
           Filter(out.events, EventOf(id)),
           Filter(out.grants, GrantOf(id)),
           Filter(out.emits, FrameOf(id)),
           Filter(out.violations, ViolationOf(id)))
  }

  function Keep(streams: Streams, id: U32): Streams {
    map k | k in streams && k == id :: streams[k]
  }

  /** The turn as stream `id` sees it. */
  function Narrow(t: Turn, id: U32): Turn {
    Turn(Keep(t.streams, id), Project(t.out, id))
  }

  lemma {:induction false} WithoutWindowsNarrows(frames: seq<Frame>, k: U32, id: U32)
    ensures Filter(WithoutWindows(frames, k), FrameOf(id)) ==
            if k == id then WithoutWindows(Filter(frames, FrameOf(id)), id) else Filter(frames, FrameOf(id))
  {
    if frames != [] {
      var f, rest := frames[0], frames[1..];
      var mine := Filter(rest, FrameOf(id));
      WithoutWindowsNarrows(rest, k, id);
      assert Filter(frames, FrameOf(id)) == (if f.streamId == id then [f] else []) + mine;
      if f.streamId != k || !Grants(f.flags) {
        FilterAppend([f], WithoutWindows(rest, k), FrameOf(id));
        FilterOne(f, FrameOf(id));
      } else {
        assert [] + WithoutWindows(rest, k) == WithoutWindows(rest, k);
      }
      if f.streamId == id {
        assert ([f] + mine)[1..] == mine;
      } else {
        assert [] + mine == mine;
      }
    }
  }

  /** Appending one record to an output, as seen by a stream. */
  lemma EventAppended(events: seq<(U32, StreamEvent)>, e: (U32, StreamEvent), id: U32)
    ensures Filter(events + [e], EventOf(id)) == Filter(events, EventOf(id)) + if e.0 == id then [e] else []
  {
    FilterAppend(events, [e], EventOf(id));
    FilterOne(e, EventOf(id));
  }

  lemma EmitAppended(frames: seq<Frame>, f: Frame, id: U32)
    ensures Filter(frames + [f], FrameOf(id)) == Filter(frames, FrameOf(id)) + if f.streamId == id then [f] else []
  {
    FilterAppend(frames, [f], FrameOf(id));
    FilterOne(f, FrameOf(id));
  }

  lemma FinishNarrows(t: Turn, k: U32, end: StreamEnd, id: U32)
    ensures Narrow(Finish(t, k, end), id) == if k == id then Finish(Narrow(t, id), id, end) else Narrow(t, id)
  {
    hide Filter, WithoutWindows;
    WithoutWindowsNarrows(t.out.emits, k, id);
    EventAppended(t.out.events, (k, StreamEvent(EndItem(end), 0)), id);
    assert Keep(t.streams - {k}, id) == if k == id then Keep(t.streams, id) - {id} else Keep(t.streams, id);
  }

  lemma EmitNarrows(t: Turn, f: Frame, id: U32)
    ensures Narrow(Emit(t, f), id) == if f.streamId == id then Emit(Narrow(t, id), f) else Narrow(t, id)
  {
    hide Filter;
    EmitAppended(t.out.emits, f, id);
  }

  lemma RejectNarrows(t: Turn, f: Frame, id: U32)
    ensures Narrow(Reject(t, f), id) == if f.streamId == id then Reject(Narrow(t, id), f) else Narrow(t, id)
  {
    hide Filter, WithoutWindows;
    var k := f.streamId;
    var reset := ResetFrame(k, RESET_PROTOCOL_ERROR);
    WithoutWindowsNarrows(t.out.emits, k, id);
    EmitAppended(t.out.emits, reset, id);
    EmitAppended(WithoutWindows(t.out.emits, k), reset, id);
    EventAppended(t.out.events, (k, StreamEvent(EndItem(ByReset(ProtocolError)), 0)), id);
    FilterAppend(t.out.violations, [f.Violation()], ViolationOf(id));
    FilterOne(f.Violation(), ViolationOf(id));
    assert Keep(t.streams - {k}, id) == if k == id then Keep(t.streams, id) - {id} else Keep(t.streams, id);
    assert id in Keep(t.streams, id) <==> id in t.streams;
    assert t.out.events + [] == t.out.events;
  }

  /** What DATA does to its stream before it may close. */
  function Delivered(p: Parsers, t: Turn, f: Frame): Turn
    requires f.streamId in t.streams && t.streams[f.streamId].Valid()
    requires t.streams[f.streamId].window.Admits(|f.payload|)
    requires FeedData(p, t.streams[f.streamId].assembler, f.payload).Ok?
  {
    var id := f.streamId;
    var s := t.streams[id];
    var r := FeedData(p, s.assembler, f.payload).value;
    FeedDataAccounts(p, s.assembler, f.payload);
    var (window, grant) := s.window.Debit(|f.payload|).Consume(r.autoConsumed);
    Turn(t.streams[id := CarrierStream(r.next, window)],
         t.out.(emits := t.out.emits + match grant case None => [] case Some(g) => [WindowFrame(id, g)],
                events := t.out.events + Tag(id, r.events)))
  }

  lemma DeliveredNarrows(p: Parsers, t: Turn, f: Frame, id: U32)
    requires f.streamId in t.streams && t.streams[f.streamId].Valid()
    requires t.streams[f.streamId].window.Admits(|f.payload|)
    requires FeedData(p, t.streams[f.streamId].assembler, f.payload).Ok?
    ensures f.streamId == id ==> id in Narrow(t, id).streams && Narrow(t, id).streams[id] == t.streams[id]
    ensures Narrow(Delivered(p, t, f), id) == if f.streamId == id then Delivered(p, Narrow(t, id), f) else Narrow(t, id)
  {
    hide Filter, FeedData, Assembler.Valid;
    var k := f.streamId;
    var s := t.streams[k];
    var r := FeedData(p, s.assembler, f.payload).value;
    FeedDataAccounts(p, s.assembler, f.payload);
    var (window, grant) := s.window.Debit(|f.payload|).Consume(r.autoConsumed);
    var tagged := Tag(k, r.events);
    FilterAppend(t.out.events, tagged, EventOf(id));
    FilterAll(tagged, EventOf(id), k == id);
    if grant.Some? {
      EmitAppended(t.out.emits, WindowFrame(k, grant.value), id);
    } else {
      assert t.out.emits + [] == t.out.emits;
      assert Filter(t.out.emits, FrameOf(id)) + [] == Filter(t.out.emits, FrameOf(id));
    }
    assert Filter(t.out.events, EventOf(id)) + [] == Filter(t.out.events, EventOf(id));
    var next := CarrierStream(r.next, window);
    assert Keep(t.streams[k := next], id) == if k == id then Keep(t.streams, id)[id := next] else Keep(t.streams, id);
  }

  lemma RouteDataNarrows(p: Parsers, t: Turn, f: Frame, id: U32)
    requires f.streamId in t.streams && t.streams[f.streamId].Valid()
    ensures f.streamId == id ==> id in Narrow(t, id).streams && Narrow(t, id).streams[id] == t.streams[id]
    ensures Narrow(RouteData(p, t, f), id) == if f.streamId == id then RouteData(p, Narrow(t, id), f) else Narrow(t, id)
  {
    hide FeedData, Assembler.Valid, Finish, Project;
    var k := f.streamId;
    var s := t.streams[k];
    if !s.window.Admits(|f.payload|) {
      FinishNarrows(t, k, ByReset(FlowControlError), id);
      EmitNarrows(Finish(t, k, ByReset(FlowControlError)), ResetFrame(k, RESET_FLOW_CONTROL_ERROR), id);
    } else if FeedData(p, s.assembler, f.payload).Err? {
      FinishNarrows(t, k, ByReset(Unspecified), id);
    } else {
      DeliveredNarrows(p, t, f, id);
      FinishNarrows(Delivered(p, t, f), k, ByClose, id);
    }
  }

  lemma GrantNarrows(t: Turn, k: U32, credit: U32, id: U32)
    ensures Narrow(t.(out := t.out.(grants := t.out.grants + [(k, credit)])), id) ==
            if k == id
            then Narrow(t, id).(out := Narrow(t, id).out.(grants := Narrow(t, id).out.grants + [(k, credit)]))
            else Narrow(t, id)
  {
    hide Filter;
    FilterAppend(t.out.grants, [(k, credit)], GrantOf(id));
    FilterOne((k, credit), GrantOf(id));
  }

  /** One frame: its own stream sees it as if alone, the others do not see it. */
  lemma RouteNarrows(p: Parsers, t: Turn, f: Frame, id: U32)
    requires StreamsValid(t.streams)
    ensures StreamsValid(Narrow(t, id).streams)
    ensures Narrow(Route(p, t, f), id) == if f.streamId == id then Route(p, Narrow(t, id), f) else Narrow(t, id)
  {
    hide RouteData, Reject, Finish, Project, Assembler.Valid;
    var k := f.streamId;
    assert k == id ==> (k in Narrow(t, id).streams <==> k in t.streams);
    RejectNarrows(t, f, id);
    FinishNarrows(t, k, ByClose, id);
    FinishNarrows(t, k, ByReset(ReasonOf(f.payload)), id);
    if k in t.streams {
      RouteDataNarrows(p, t, f, id);
    }
    if f.WindowCredit().Some? {
      GrantNarrows(t, k, f.WindowCredit().value, id);
    }
  }

  lemma ControlNarrows(t: Turn, f: Frame, id: U32)
    requires RouteControl(t, f).Some?
    ensures Narrow(RouteControl(t, f).value, id) == Narrow(t, id)
  {
  }

  /**
   Stream isolation. For any batch without a stream-zero violation, a stream's
   final state and everything the output says about it are exactly those of a
   demultiplexer that knows only this stream and is fed only its frames.
   */
  lemma {:induction false} StreamsAreIsolated(p: Parsers, t: Turn, frames: seq<Frame>, id: U32)
    requires StreamsValid(t.streams) && id != 0
    requires RouteAll(p, t, frames).1.None?
    ensures StreamsValid(Narrow(t, id).streams)
    ensures RouteAll(p, Narrow(t, id), Filter(frames, FrameOf(id))) == (Narrow(RouteAll(p, t, frames).0, id), None)
    decreases |frames|
  {
    hide Route, RouteControl, Narrow, StreamsValid;
    if frames == [] {
      KeepValid(t, id);
    } else {
      var f := frames[0];
      KeepValid(t, id);
      if f.streamId != 0 {
        RouteNarrows(p, t, f, id);
        RouteValid(p, t, f);
        StreamsAreIsolated(p, Route(p, t, f), frames[1..], id);
      } else {
        ControlNarrows(t, f, id);
        ControlValid(t, f);
        StreamsAreIsolated(p, RouteControl(t, f).value, frames[1..], id);
      }
      if f.streamId == id {
        assert Filter(frames, FrameOf(id)) == [f] + Filter(frames[1..], FrameOf(id));
        assert ([f] + Filter(frames[1..], FrameOf(id)))[1..] == Filter(frames[1..], FrameOf(id));
      } else {
        assert Filter(frames, FrameOf(id)) == Filter(frames[1..], FrameOf(id));
      }
    }
  }

  lemma KeepValid(t: Turn, id: U32)
    requires StreamsValid(t.streams)
    ensures StreamsValid(Narrow(t, id).streams)
  {
  }

  lemma ControlValid(t: Turn, f: Frame)
    requires StreamsValid(t.streams) && RouteControl(t, f).Some?
    ensures StreamsValid(RouteControl(t, f).value.streams)
  {
  }
}
