/**
 The bridge's dialer-side stream driver: opening, credit-gated writes with
 deferred ones queued per stream, receive accounting, half-close, reset and
 frame dispatch. Functions first, then the driver that runs them in place.
 */
module Bridge {
  import opened Outcomes
  import opened Wire
  import opened Flow

  datatype End = EndClosed | EndReset(reason: Byte)

  /** What a stream's reader is handed. */
  datatype Delivery = Arrived(streamId: U32, bytes: Bytes) | Ended(streamId: U32, end: End)

  /** `creditFlag` is what a waiting writer watches. */
  datatype Stream = Stream(
    sendCredit: nat,
    creditFlag: bool,
    window: Window,
    unconsumed: nat,
    pending: seq<Bytes>,
    peerClosed: bool,
    localClosed: bool)
  {
    predicate Valid() {
      && window.Valid()
      && window.unacked < RECEIVE_GRANT_THRESHOLD
      && unconsumed == window.Outstanding()
      && sendCredit <= MAX_SEND_CREDIT
      && (!creditFlag ==> sendCredit == 0)
    }

    function Debit(n: nat): Stream
      requires n <= sendCredit
    {
      this.(sendCredit := sendCredit - n, creditFlag := sendCredit - n != 0)
    }
  }

  const NEW_STREAM := Stream(INITIAL_WINDOW, true, NEW_WINDOW, 0, [], false, false)

  /** The driver's state, the frames queued to its writer and its deliveries. */
  datatype Desk = Desk(
    nextId: U32, streams: map<U32, Stream>, retired: bool, queue: seq<Frame>, inbound: seq<Delivery>)
  {
    predicate Valid() {
      forall id :: id in streams ==> streams[id].Valid()
    }

    function With(id: U32, s: Stream): Desk {
      this.(streams := streams[id := s])
    }

    function Without(id: U32): Desk {
      this.(streams := streams - {id})
    }

    function Queue(f: Frame): Desk {
      this.(queue := queue + [f])
    }

    function Deliver(item: Delivery): Desk {
      this.(inbound := inbound + [item])
    }
  }

  datatype DialerError = Retired | StreamIdExhausted | StreamClosed | ConnectionClosed

  /** A finished call; not ok means the carrier is to be torn down. */
  datatype Move = Move(desk: Desk, ok: bool)

  function Open(d: Desk): (Desk, Result<U32, DialerError>) {
    if d.retired then (d, Err(Retired))
    else
      var id := d.nextId;
      var d' := d.(nextId := NextId(id));
      if id == 0 || id in d.streams then (d', Err(StreamIdExhausted))
      else (d'.Queue(Frame(id, FLAG_OPEN, [])).With(id, NEW_STREAM), Ok(id))
  }

  /** From now on opens are refused; streams already open go on. */
  function Retire(d: Desk): Desk {
    d.(retired := true)
  }

  /** What a writer is told; a deferred write is answered when credit arrives. */
  datatype Written = Accepted | Deferred | Rejected(error: DialerError)

  function Write(d: Desk, id: U32, bytes: Bytes): (Move, Written) {
    if id !in d.streams || d.streams[id].localClosed then (Move(d, true), Rejected(StreamClosed))
    else
      var s := d.streams[id];
      if |bytes| > s.sendCredit then (Move(d.With(id, s.(pending := s.pending + [bytes])), true), Deferred)
      else
        var d' := d.With(id, s.Debit(|bytes|));
        var f := Frame(id, FLAG_DATA, bytes);
        if f.Encodable() then (Move(d'.Queue(f), true), Accepted) else (Move(d', false), Rejected(ConnectionClosed))
  }

  /** Send deferred writes in order while credit covers each whole. */
  function DrainPending(d: Desk, id: U32): Move
    decreases if id in d.streams then |d.streams[id].pending| else 0
  {
    if id !in d.streams || d.streams[id].pending == [] then Move(d, true)
    else
      var s := d.streams[id];
      var bytes := s.pending[0];
      if |bytes| > s.sendCredit then Move(d, true)
      else
        var d' := d.With(id, s.Debit(|bytes|).(pending := s.pending[1..]));
        var f := Frame(id, FLAG_DATA, bytes);
        if f.Encodable() then DrainPending(d'.Queue(f), id) else Move(d', false)
  }

  function ResetStream(d: Desk, id: U32, reason: Byte): Desk {
    if id !in d.streams then d
    else d.Without(id).Deliver(Ended(id, EndReset(reason))).Queue(ResetFrame(id, reason))
  }

  function Consume(d: Desk, id: U32, count: nat): Desk
    requires d.Valid()
  {
    if id !in d.streams then d
    else
      var s := d.streams[id];
      if count > s.unconsumed then ResetStream(d, id, RESET_PROTOCOL_ERROR)
      else
        var (window, grant) := s.window.Consume(count);
        var d' := d.With(id, s.(window := window, unconsumed := s.unconsumed - count));
        if grant.Some? then d'.Queue(WindowFrame(id, grant.value)) else d'
  }

  function Close(d: Desk, id: U32): Desk {
    if id !in d.streams || d.streams[id].localClosed then d
    else
      var s := d.streams[id];
      var d' := d.Queue(Frame(id, FLAG_CLOSE, []));
      if s.peerClosed then d'.Without(id) else d'.With(id, s.(localClosed := true))
  }

  /** DATA for a live stream; `taken` says whether its reader still exists. */
  function ReceiveData(d: Desk, f: Frame, taken: bool): (Desk, bool)
    requires f.streamId in d.streams
  {
    var s := d.streams[f.streamId];
    if s.peerClosed || !s.window.Admits(|f.payload|)
    then (ResetStream(d, f.streamId, RESET_FLOW_CONTROL_ERROR), false)
    else
      var d' := d.With(f.streamId, s.(window := s.window.Debit(|f.payload|), unconsumed := s.unconsumed + |f.payload|));
      if taken then (d'.Deliver(Arrived(f.streamId, f.payload)), true)
      else (ResetStream(d', f.streamId, RESET_CANCEL), false)
  }

  function ReceiveClose(d: Desk, id: U32): Desk
    requires id in d.streams
  {
    var s := d.streams[id];
    var d' := d.Deliver(Ended(id, EndClosed));
    if s.localClosed then d'.Without(id) else d'.With(id, s.(peerClosed := true))
  }

  function ReceiveWindow(d: Desk, f: Frame): Move {
    match f.WindowCredit()
    case None => Move(ResetStream(d, f.streamId, RESET_PROTOCOL_ERROR), true)
    case Some(grant) =>
      if f.streamId !in d.streams then Move(d, true)
      else
        var s := d.streams[f.streamId];
        match AddCredit(s.sendCredit, grant)
        case None => Move(ResetStream(d, f.streamId, RESET_FLOW_CONTROL_ERROR), true)
        case Some(credit) => DrainPending(d.With(f.streamId, s.(sendCredit := credit, creditFlag := true)), f.streamId)
  }

  function ReasonOf(f: Frame): Byte {
    if f.payload == [] then RESET_UNSPECIFIED else f.payload[0]
  }

  function Receive(d: Desk, f: Frame, taken: bool): Move {
    var id := f.streamId;
    if id == 0 then
      match f.ControlPong()
      case Some(pong) => Move(d.Queue(pong), true)
      case None => Move(d, true)
    else if !FlagsValid(f.flags) || Opens(f.flags) then Move(ResetStream(d, id, RESET_PROTOCOL_ERROR), true)
    else if f.flags == FLAG_WINDOW then ReceiveWindow(d, f)
    else if Resets(f.flags) then
      Move(if id in d.streams then d.Without(id).Deliver(Ended(id, EndReset(ReasonOf(f)))) else d, true)
    else if id !in d.streams then Move(d, true)
    else
      var (d', live) := if CarriesData(f.flags) then ReceiveData(d, f, taken) else (d, true);
      if live && Closes(f.flags) && id in d'.streams then Move(ReceiveClose(d', id), true) else Move(d', true)
  }

  // ------------------------------------------------------------ validity

  lemma {:induction false} DrainPendingValid(d: Desk, id: U32)
    requires d.Valid()
    ensures DrainPending(d, id).desk.Valid()
    decreases if id in d.streams then |d.streams[id].pending| else 0
  {
    if id in d.streams && d.streams[id].pending != [] {
      var s := d.streams[id];
      var bytes := s.pending[0];
      if |bytes| <= s.sendCredit {
        var d' := d.With(id, s.Debit(|bytes|).(pending := s.pending[1..]));
        DrainPendingValid(d'.Queue(Frame(id, FLAG_DATA, bytes)), id);
      }
    }
  }

  lemma OpenValid(d: Desk)
    requires d.Valid()
    ensures Open(d).0.Valid()
  {
  }

  lemma WriteValid(d: Desk, id: U32, bytes: Bytes)
    requires d.Valid()
    ensures Write(d, id, bytes).0.desk.Valid()
  {
  }

  lemma ConsumeValid(d: Desk, id: U32, count: nat)
    requires d.Valid()
    ensures Consume(d, id, count).Valid()
  {
  }

  lemma EndsValid(d: Desk, id: U32, reason: Byte)
    requires d.Valid()
    ensures Close(d, id).Valid() && ResetStream(d, id, reason).Valid()
    ensures id in d.streams ==> ReceiveClose(d, id).Valid()
  {
  }

  lemma ReceiveDataValid(d: Desk, f: Frame, taken: bool)
    requires d.Valid() && f.streamId in d.streams
    ensures ReceiveData(d, f, taken).0.Valid()
    ensures ReceiveData(d, f, taken).1 ==> f.streamId in ReceiveData(d, f, taken).0.streams
  {
  }

  lemma ReceiveWindowValid(d: Desk, f: Frame)
    requires d.Valid()
    ensures ReceiveWindow(d, f).desk.Valid()
  {
    hide DrainPending;
    if f.WindowCredit().Some? && f.streamId in d.streams {
      var s := d.streams[f.streamId];
      var next := AddCredit(s.sendCredit, f.WindowCredit().value);
      if next.Some? {
        DrainPendingValid(d.With(f.streamId, s.(sendCredit := next.value, creditFlag := true)), f.streamId);
      }
    }
  }

  lemma ReceiveValid(d: Desk, f: Frame, taken: bool)
    requires d.Valid()
    ensures Receive(d, f, taken).desk.Valid()
  {
    hide ReceiveData, ReceiveWindow;
    ReceiveWindowValid(d, f);
    if f.streamId in d.streams {
      ReceiveDataValid(d, f, taken);
    }
  }

  // ------------------------------------------------------------ deferral

  /** A write is only ever left waiting for credit it does not have. */
  predicate Waiting(d: Desk) {
    forall id :: id in d.streams && d.streams[id].pending != [] ==>
      |d.streams[id].pending[0]| > d.streams[id].sendCredit
  }

  /** Waiting, except possibly for one stream that has just been granted credit. */
  predicate WaitingBut(d: Desk, granted: U32) {
    forall id :: id in d.streams && id != granted && d.streams[id].pending != [] ==>
      |d.streams[id].pending[0]| > d.streams[id].sendCredit
  }

  lemma {:induction false} DrainEndsWaiting(d: Desk, id: U32)
    requires WaitingBut(d, id) && DrainPending(d, id).ok
    ensures Waiting(DrainPending(d, id).desk)
    decreases if id in d.streams then |d.streams[id].pending| else 0
  {
    if id in d.streams && d.streams[id].pending != [] {
      var s := d.streams[id];
      var bytes := s.pending[0];
      if |bytes| <= s.sendCredit {
        var d' := d.With(id, s.Debit(|bytes|).(pending := s.pending[1..]));
        DrainEndsWaiting(d'.Queue(Frame(id, FLAG_DATA, bytes)), id);
      }
    }
  }

  lemma SendsKeepWaiting(d: Desk, id: U32, bytes: Bytes)
    requires Waiting(d)
    ensures Waiting(Open(d).0) && Waiting(Write(d, id, bytes).0.desk)
  {
  }

  lemma RetireKeepsWaiting(d: Desk)
    requires Waiting(d)
    ensures Waiting(Retire(d))
  {
  }

  lemma EndsKeepWaiting(d: Desk, id: U32, code: Byte)
    requires Waiting(d)
    ensures Waiting(Close(d, id)) && Waiting(ResetStream(d, id, code))
  {
  }

  lemma ConsumeKeepsWaiting(d: Desk, id: U32, count: nat)
    requires d.Valid() && Waiting(d)
    ensures Waiting(Consume(d, id, count))
  {
    EndsKeepWaiting(d, id, RESET_PROTOCOL_ERROR);
  }

  lemma ReceiveKeepsWaiting(d: Desk, f: Frame, taken: bool)
    requires Waiting(d) && Receive(d, f, taken).ok
    ensures Waiting(Receive(d, f, taken).desk)
  {
    hide DrainPending;
    if f.flags == FLAG_WINDOW && f.streamId != 0 && f.WindowCredit().Some? && f.streamId in d.streams {
      var s := d.streams[f.streamId];
      var next := AddCredit(s.sendCredit, f.WindowCredit().value);
      if next.Some? {
        DrainEndsWaiting(d.With(f.streamId, s.(sendCredit := next.value, creditFlag := true)), f.streamId);
      }
    }
  }

  /** The driver as it runs: one map of streams, updated in place. */
  class Driver {
    const ids: FrameDialer
    var streams: map<U32, Stream>
    var retired: bool
    var queue: seq<Frame>
    var inbound: seq<Delivery>

    ghost function View(): Desk
      reads this, ids
    {
      Desk(ids.next, streams, retired, queue, inbound)
    }

    constructor ()
      ensures fresh(ids) && View() == Desk(1, map[], false, [], []) && View().Valid()
    {
      ids := new FrameDialer();
      streams, retired, queue, inbound := map[], false, [], [];
    }

    method QueueFrame(frame: Frame) returns (ok: bool)
      modifies this`queue
      ensures ok == frame.Encodable()
      ensures queue == if ok then old(queue) + [frame] else old(queue)
    {
      var encoded := Encode(frame);
      ok := encoded.Ok?;
      if ok {
        queue := queue + [frame];
      }
    }

    method OpenStream() returns (r: Result<U32, DialerError>)
      requires View().Valid()
      modifies this, ids
      ensures (View(), r) == Open(old(View())) && View().Valid()
    {
      OpenValid(View());
      if retired {
        return Err(Retired);
      }
      var id := ids.Allocate();
      if id == 0 || id in streams {
        return Err(StreamIdExhausted);
      }
      var queued := QueueFrame(Frame(id, FLAG_OPEN, []));
      streams := streams[id := NEW_STREAM];
      return Ok(id);
    }

    method MarkRetired()
      requires View().Valid()
      modifies this`retired
      ensures View() == Retire(old(View())) && View().Valid()
    {
      retired := true;
    }

    method WriteStream(id: U32, bytes: Bytes) returns (ok: bool, reply: Written)
      requires View().Valid()
      modifies this`streams, this`queue
      ensures (Move(View(), ok), reply) == Write(old(View()), id, bytes) && View().Valid()
    {
      WriteValid(View(), id, bytes);
      if id !in streams {
        return true, Rejected(StreamClosed);
      }
      if streams[id].localClosed {
        return true, Rejected(StreamClosed);
      }
      var stream := streams[id];
      if |bytes| > stream.sendCredit {
        streams := streams[id := stream.(pending := stream.pending + [bytes])];
        return true, Deferred;
      }
      streams := streams[id := stream.Debit(|bytes|)];
      ok := QueueFrame(Frame(id, FLAG_DATA, bytes));
      reply := if ok then Accepted else Rejected(ConnectionClosed);
    }

    method DrainPendingWrites(id: U32) returns (ok: bool)
      requires View().Valid()
      modifies this`streams, this`queue
      ensures Move(View(), ok) == DrainPending(old(View()), id) && View().Valid()
    {
      DrainPendingValid(View(), id);
      while true
        invariant DrainPending(View(), id) == DrainPending(old(View()), id)
        decreases if id in streams then |streams[id].pending| else 0
      {
        if id !in streams || streams[id].pending == [] {
          return true;
        }
        var stream := streams[id];
        var bytes := stream.pending[0];
        if |bytes| > stream.sendCredit {
          return true;
        }
        streams := streams[id := stream.Debit(|bytes|).(pending := stream.pending[1..])];
        var queued := QueueFrame(Frame(id, FLAG_DATA, bytes));
        if !queued {
          return false;
        }
      }
    }

    method ConsumeStream(id: U32, count: nat)
      requires View().Valid()
      modifies this
      ensures View() == Consume(old(View()), id, count) && View().Valid()
    {
      ConsumeValid(View(), id, count);
      if id !in streams {
        return;
      }
      var stream := streams[id];
      if count > stream.unconsumed {
        ResetStreamLocally(id, RESET_PROTOCOL_ERROR);
        return;
      }
      var (window, grant) := stream.window.Consume(count);
      streams := streams[id := stream.(window := window, unconsumed := stream.unconsumed - count)];
      if grant.Some? {
        var queued := QueueFrame(WindowFrame(id, grant.value));
      }
    }

    method CloseStream(id: U32)
      requires View().Valid()
      modifies this
      ensures View() == Close(old(View()), id) && View().Valid()
    {
      EndsValid(View(), id, 0);
      if id !in streams || streams[id].localClosed {
        return;
      }
      var remove := streams[id].peerClosed;
      streams := streams[id := streams[id].(localClosed := true)];
      var queued := QueueFrame(Frame(id, FLAG_CLOSE, []));
      if remove {
        streams := streams - {id};
        assert streams == old(streams) - {id};
      }
    }

    method ResetStreamLocally(id: U32, reason: Byte)
      requires View().Valid()
      modifies this
      ensures View() == ResetStream(old(View()), id, reason) && View().Valid()
    {
      EndsValid(View(), id, reason);
      if id !in streams {
        return;
      }
      streams := streams - {id};
      inbound := inbound + [Ended(id, EndReset(reason))];
      var queued := QueueFrame(ResetFrame(id, reason));
    }

    /** Route one decoded frame; `taken` says whether the stream's reader exists. */
    method ReceiveFrame(frame: Frame, taken: bool) returns (ok: bool)
      requires View().Valid()
      modifies this
      ensures Move(View(), ok) == Receive(old(View()), frame, taken) && View().Valid()
    {
      hide DrainPending;
      ReceiveValid(View(), frame, taken);
      var id := frame.streamId;
      if id == 0 {
        var pong := frame.ControlPong();
        if pong.Some? {
          ok := QueueFrame(pong.value);
          return;
        }
        return true;
      }
      if !FlagsValid(frame.flags) || Opens(frame.flags) {
        ResetStreamLocally(id, RESET_PROTOCOL_ERROR);
        return true;
      }
      if frame.flags == FLAG_WINDOW {
        ok := ReceiveGrant(frame);
        return;
      }
      if Resets(frame.flags) {
        if id in streams {
          streams := streams - {id};
          inbound := inbound + [Ended(id, EndReset(ReasonOf(frame)))];
        }
        return true;
      }
      if CarriesData(frame.flags) {
        if id !in streams {
          ResetStreamLocally(id, RESET_PROTOCOL_ERROR);
          return true;
        }
        var live := TakeData(frame, taken);
        if !live {
          return true;
        }
      }
      if Closes(frame.flags) {
        ClosePeer(id);
      }
      return true;
    }

    /** DATA for a live stream; not live means the stream was reset. */
    method TakeData(frame: Frame, taken: bool) returns (live: bool)
      requires View().Valid() && frame.streamId in streams
      modifies this
      ensures (View(), live) == ReceiveData(old(View()), frame, taken) && View().Valid()
    {
      ReceiveDataValid(View(), frame, taken);
      var id := frame.streamId;
      var stream := streams[id];
      if stream.peerClosed || !stream.window.Admits(|frame.payload|) {
        ResetStreamLocally(id, RESET_FLOW_CONTROL_ERROR);
        return false;
      }
      streams := streams[id := stream.(window := stream.window.Debit(|frame.payload|),
                                       unconsumed := stream.unconsumed + |frame.payload|)];
      if !taken {
        ResetStreamLocally(id, RESET_CANCEL);
        return false;
      }
      inbound := inbound + [Arrived(id, frame.payload)];
      return true;
    }

    method ReceiveGrant(frame: Frame) returns (ok: bool)
      requires View().Valid()
      modifies this
      ensures Move(View(), ok) == ReceiveWindow(old(View()), frame) && View().Valid()
    {
      ReceiveWindowValid(View(), frame);
      var id := frame.streamId;
      var credit := frame.WindowCredit();
      if credit.None? {
        ResetStreamLocally(id, RESET_PROTOCOL_ERROR);
        return true;
      }
      if id in streams {
        var next := streams[id].sendCredit + credit.value;
        if next > MAX_SEND_CREDIT {
          ResetStreamLocally(id, RESET_FLOW_CONTROL_ERROR);
          return true;
        }
        streams := streams[id := streams[id].(sendCredit := next, creditFlag := true)];
      }
      ok := DrainPendingWrites(id);
    }

    method ClosePeer(id: U32)
      requires View().Valid()
      modifies this
      ensures View() == if id in old(View()).streams then ReceiveClose(old(View()), id) else old(View())
      ensures View().Valid()
    {
      EndsValid(View(), id, 0);
      if id !in streams {
        ResetStreamLocally(id, RESET_PROTOCOL_ERROR);
        return;
      }
      streams := streams[id := streams[id].(peerClosed := true)];
      inbound := inbound + [Ended(id, EndClosed)];
      if streams[id].localClosed {
        streams := streams - {id};
        assert streams == old(streams) - {id};
      }
    }
  }
}
