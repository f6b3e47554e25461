/**
 What bytes from the peer can do to a stream as the write scheduler sees it: it
 may gain credit, which is reported, lose its mux side, or be opened; nothing is
 sent on it and it is never half-closed or revived.
 */
module SchedulerReads {
  import opened Outcomes
  import opened Wire
  import opened Flow
  import opened Listener
  import R = ListenerRuns
  import opened SchedulerTurns

  /** Opened, never reset, and yet no longer in the mux. */
  predicate Orphan(t: Turn, id: U32) {
    id !in t.mux.streams && R.PhaseOf(t.out.events, id) != R.Unopened && R.PhaseOf(t.out.events, id) != R.Ended
  }

  predicate Tracks(t: Turn, t': Turn, id: U32) {
    && (R.Used(t.mux, id) ==> R.Used(t'.mux, id))
    && (R.Used(t.mux, id) && id in t'.mux.streams ==>
          && id in t.mux.streams
          && t'.mux.streams[id].localClosed == t.mux.streams[id].localClosed
          && (t'.mux.streams[id].sendCredit == t.mux.streams[id].sendCredit || id in t'.out.writable))
    && (Orphan(t', id) ==> Orphan(t, id) || (id in t.mux.streams && t.mux.streams[id].localClosed))
    && (!R.Used(t.mux, id) && id in t'.mux.streams ==> !t'.mux.streams[id].localClosed)
    && (R.PhaseOf(t.out.events, id) == R.Ended ==> R.PhaseOf(t'.out.events, id) == R.Ended)
    && (R.PhaseOf(t.out.events, id) != R.Unopened ==> R.PhaseOf(t'.out.events, id) != R.Unopened)
    && (id in t.out.writable ==> id in t'.out.writable)
    && SentBytes(t'.out.frames, id) == SentBytes(t.out.frames, id)
    && CloseCount(t'.out.frames, id) == CloseCount(t.out.frames, id)
    && Late(t'.out.frames, id) == Late(t.out.frames, id)
  }

  lemma TracksThrough(t: Turn, t': Turn, t'': Turn, id: U32)
    requires Tracks(t, t', id) && Tracks(t', t'', id)
    ensures Tracks(t, t'', id)
  {
    hide SentBytes, CloseCount, Late, R.PhaseOf, R.Used;
  }

  lemma RefuseTracks(t: Turn, v: FrameViolation, c: Class, id: U32)
    requires R.Inv(t)
    ensures Tracks(t, Refuse(t, v, c), id)
  {
    hide SentBytes, CloseCount, Late, R.PhaseOf, R.OpenedIds, R.CountOf, Window.Valid, Limits.Valid, Code, ReasonOf,
         Counts.Record, Stream.Valid;
    QuietFrame(t.out.frames, ResetFrame(v.streamId, Code(ReasonOf(c))), id);
    if v.streamId in t.mux.streams {
      R.PhaseAppend(t.out.events, WasReset(v.streamId, ReasonOf(c)), id);
    }
  }

  lemma MarkPeerClosedTracks(t: Turn, k: U32, id: U32)
    requires R.Inv(t)
    ensures Tracks(t, MarkPeerClosed(t, k), id)
  {
    hide SentBytes, CloseCount, Late, R.PhaseOf, R.OpenedIds, R.CountOf, Window.Valid, Limits.Valid;
    R.PhaseAppend(t.out.events, ReadClosed(k), id);
  }

  lemma RaiseTracks(t: Turn, k: U32, id: U32)
    requires R.Inv(t) && FreshId(t.mux, k)
    ensures Tracks(t, t.(mux := t.mux.(highWater := Some(k))), id)
  {
    hide SentBytes, CloseCount, Late, R.PhaseOf, R.OpenedIds, R.CountOf, Window.Valid, Limits.Valid;
  }

  /** Changing only a live stream's receive side. */
  lemma DataTracks(t: Turn, k: U32, s: Stream, bytes: Bytes, id: U32)
    requires R.Inv(t) && k in t.mux.streams && !t.mux.streams[k].peerClosed
    requires s.localClosed == t.mux.streams[k].localClosed && s.sendCredit == t.mux.streams[k].sendCredit
    ensures Tracks(t, Turn(t.mux.(streams := t.mux.streams[k := s]),
                           t.out.(events := t.out.events + [Data(k, bytes)])), id)
  {
    hide SentBytes, CloseCount, Late, R.PhaseOf, R.OpenedIds, R.CountOf, Window.Valid, Limits.Valid;
    R.PhaseAppend(t.out.events, Data(k, bytes), id);
  }

  lemma OpenedTracks(t: Turn, k: U32, s: Stream, id: U32)
    requires R.Inv(t) && FreshId(t.mux, k) && !s.localClosed
    ensures Tracks(t, Turn(t.mux.(highWater := Some(k), streams := t.mux.streams[k := s]),
                           t.out.(events := t.out.events + [Opened(k)])), id)
  {
    hide SentBytes, CloseCount, Late, R.PhaseOf, R.OpenedIds, R.CountOf, Window.Valid, Limits.Valid;
    R.PhaseAppend(t.out.events, Opened(k), id);
  }

  lemma HandleOpenTracks(t: Turn, f: Frame, id: U32)
    requires R.Inv(t)
    ensures Tracks(t, HandleOpen(t, f), id)
  {
    hide Refuse, MarkPeerClosed, R.Inv, Tracks;
    if !FreshId(t.mux, f.streamId) {
      RefuseTracks(t, f.Violation(), Protocol, id);
    } else {
      var raised := t.(mux := t.mux.(highWater := Some(f.streamId)));
      R.RaiseKeeps(t, f.streamId);
      RaiseTracks(t, f.streamId, id);
      RefuseTracks(raised, f.Violation(), StreamLimit, id);
      RefuseTracks(raised, f.Violation(), FlowControl, id);
      if |t.mux.streams| >= t.mux.limits.maxStreams {
        TracksThrough(t, raised, Refuse(raised, f.Violation(), StreamLimit), id);
      } else if |f.payload| > INITIAL_WINDOW {
        TracksThrough(t, raised, Refuse(raised, f.Violation(), FlowControl), id);
      } else {
        FreshOpenTracks(t, f, id);
      }
    }
  }

  lemma FreshOpenTracks(t: Turn, f: Frame, id: U32)
    requires R.Inv(t) && FreshId(t.mux, f.streamId)
    requires |t.mux.streams| < t.mux.limits.maxStreams && |f.payload| <= INITIAL_WINDOW
    ensures Tracks(t, HandleOpen(t, f), id)
  {
    hide Refuse, MarkPeerClosed, R.Inv, Tracks;
    var k := f.streamId;
    var s := Stream(NEW_WINDOW.Debit(|f.payload|), |f.payload|, INITIAL_WINDOW, false, false);
    var started := Turn(t.mux.(highWater := Some(k), streams := t.mux.streams[k := s]),
                        t.out.(events := t.out.events + [Opened(k)]));
    R.OpenedEventKeeps(t, k, s);
    OpenedTracks(t, k, s, id);
    var t' := started;
    if f.payload != [] || CarriesData(f.flags) {
      R.DataEventKeeps(started, k, f.payload);
      t' := started.(out := started.out.(events := started.out.events + [Data(k, f.payload)]));
      assert started.mux.streams[k := s] == started.mux.streams;
      DataTracks(started, k, s, f.payload, id);
      TracksThrough(t, started, t', id);
      assert t'.out.events == t.out.events + ([Opened(k)] + [Data(k, f.payload)]);
    } else {
      assert t'.out.events == t.out.events + ([Opened(k)] + []);
    }
    MarkPeerClosedTracks(t', k, id);
    TracksThrough(t, t', MarkPeerClosed(t', k), id);
  }

  lemma HandleDataTracks(t: Turn, f: Frame, closes: bool, id: U32)
    requires R.Inv(t) && f.streamId in t.mux.streams
    ensures Tracks(t, HandleData(t, f, closes), id)
  {
    hide Refuse, MarkPeerClosed, R.StreamsInOrder, R.IdsInOrder, R.CountsMatch, Tracks;
    RefuseTracks(t, f.Violation(), Protocol, id);
    RefuseTracks(t, f.Violation(), FlowControl, id);
    var s := t.mux.streams[f.streamId];
    if !s.peerClosed && s.window.Admits(|f.payload|) {
      var s' := s.(window := s.window.Debit(|f.payload|), debited := s.debited + |f.payload|);
      R.UpdateKeeps(t, f.streamId, s');
      var t' := t.(mux := t.mux.(streams := t.mux.streams[f.streamId := s']));
      R.DataEventKeeps(t', f.streamId, f.payload);
      DataTracks(t, f.streamId, s', f.payload, id);
      var t'' := t'.(out := t'.out.(events := t'.out.events + [Data(f.streamId, f.payload)]));
      MarkPeerClosedTracks(t'', f.streamId, id);
      TracksThrough(t, t'', MarkPeerClosed(t'', f.streamId), id);
    }
  }

  lemma HandleResetTracks(t: Turn, f: Frame, id: U32)
    requires R.Inv(t) && f.streamId in t.mux.streams
    ensures Tracks(t, HandleReset(t, f), id)
  {
    hide SentBytes, CloseCount, Late, R.PhaseOf, R.OpenedIds, R.CountOf, Refuse, Window.Valid, Limits.Valid;
    if |f.payload| != 1 {
      RefuseTracks(t, f.Violation(), Protocol, id);
    } else {
      R.PhaseAppend(t.out.events, WasReset(f.streamId, ReasonFromWire(f.payload[0])), id);
    }
  }

  lemma HandleWindowTracks(t: Turn, f: Frame, id: U32)
    requires R.Inv(t) && f.streamId in t.mux.streams
    ensures Tracks(t, HandleWindow(t, f), id)
  {
    hide SentBytes, CloseCount, Late, R.PhaseOf, R.OpenedIds, R.CountOf, Refuse, Window.Valid, Limits.Valid;
    RefuseTracks(t, f.Violation(), Protocol, id);
    RefuseTracks(t, f.Violation(), FlowControl, id);
  }

  lemma TracksSelf(t: Turn, id: U32)
    requires R.Inv(t)
    ensures Tracks(t, t, id)
  {
  }

  lemma PongTracks(t: Turn, payload: Bytes, id: U32)
    requires R.Inv(t)
    ensures Tracks(t, t.(out := t.out.(frames := t.out.frames + [Frame(0, FLAG_PONG, payload)])), id)
  {
    QuietFrame(t.out.frames, Frame(0, FLAG_PONG, payload), id);
  }

  lemma HandleTracks(t: Turn, f: Frame, id: U32)
    requires R.Inv(t)
    ensures Handle(t, f).Ok? ==> Tracks(t, Handle(t, f).value, id)
  {
    hide Refuse, MarkPeerClosed, HandleOpen, HandleData, HandleReset, HandleWindow, R.Inv, Tracks;
    RefuseTracks(t, f.Violation(), Protocol, id);
    MarkPeerClosedTracks(t, f.streamId, id);
    HandleOpenTracks(t, f, id);
    PongTracks(t, f.payload, id);
    TracksSelf(t, id);
    if f.streamId in t.mux.streams {
      HandleDataTracks(t, f, false, id);
      HandleDataTracks(t, f, true, id);
      HandleResetTracks(t, f, id);
      HandleWindowTracks(t, f, id);
    }
  }

  /** Every stream is tracked through a whole read. */
  lemma {:induction false} ScanTracks(mux: Mux, skip: nat, buf: Bytes, out: Output, id: U32)
    requires R.Inv(Turn(mux, out))
    ensures var h := Scan(mux, skip, buf, out);
            Tracks(Turn(mux, out), Turn(h.ear.mux, h.out), id)
    decreases |buf|
  {
    hide Refuse, Handle, Parse, R.Inv, Tracks;
    var t := Turn(mux, out);
    TracksSelf(t, id);
    if skip > 0 {
      if |buf| > skip {
        ScanTracks(mux, 0, buf[skip..], out, id);
      }
    } else if |buf| >= HEADER_LEN {
      if Reserved(HeaderFlags(buf)) {
        if HeaderStream(buf) != 0 {
          R.RefuseKeeps(t, HeaderViolation(buf), Protocol);
          RefuseTracks(t, HeaderViolation(buf), Protocol, id);
          var t' := Refuse(t, HeaderViolation(buf), Protocol);
          ScanTracks(t'.mux, HeaderLength(buf), buf[HEADER_LEN..], t'.out, id);
          var h := Scan(t'.mux, HeaderLength(buf), buf[HEADER_LEN..], t'.out);
          TracksThrough(t, t', Turn(h.ear.mux, h.out), id);
        }
      } else if Parse(buf).Got? {
        R.HandleKeeps(t, Parse(buf).frame);
        HandleTracks(t, Parse(buf).frame, id);
        var r := Handle(t, Parse(buf).frame);
        if r.Ok? {
          ScanTracks(r.value.mux, 0, Parse(buf).rest, r.value.out, id);
          var h := Scan(r.value.mux, 0, Parse(buf).rest, r.value.out);
          TracksThrough(t, r.value, Turn(h.ear.mux, h.out), id);
        }
      }
    }
  }
}
