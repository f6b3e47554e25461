/**
 The listener's carrier driver: application writes and half-closes are queued as
 commands, staged per stream, and sent round-robin in whole chunks as the peer's
 credit allows. What the driver does with each read and each command is given
 as a function of its state; the wire is the log of frames written.
 */
module Scheduler {
  import opened Outcomes
  import opened Wire
  import opened Flow
  import L = Listener
  import G = ListenerGrammar

  const MAX_STAGED: nat := INITIAL_WINDOW

  datatype Command =
    | Write(streamId: U32, bytes: Bytes)
    | Consumed(streamId: U32, count: nat)
    | Close(streamId: U32)
    | Cancel(streamId: U32)
    | ResetStream(streamId: U32, reason: L.ResetReason)
    | Wake
    | CloseConnection

  /** What the driver and a stream's handle share: whether it is live, and staged bytes. */
  datatype Status = Status(live: bool, staged: nat)

  type Statuses = map<U32, Status>

  datatype Driver = Driver(
    ear: L.Ear,
    log: L.Output,
    pending: map<U32, Bytes>,
    ready: seq<U32>,
    closing: set<U32>,
    streams: Statuses,
    commands: seq<Command>,
    stopped: bool)

  function NewDriver(limits: L.Limits): Driver {
    Driver(L.Ear(L.NewMux(limits), 0, []), L.NO_OUTPUT, map[], [], {}, map[], [], false)
  }

  // ------------------------------------------------------------ shared status

  function Release(streams: Statuses, id: U32, bytes: nat): Statuses {
    if id !in streams then streams
    else streams[id := streams[id].(staged := if bytes > streams[id].staged then 0 else streams[id].staged - bytes)]
  }

  function DeliverOne(streams: Statuses, e: L.Event): Statuses {
    match e
    case Opened(id) => streams[id := Status(true, 0)]
    case WasReset(id, _) => if id in streams then streams[id := streams[id].(live := false)] else streams
    case _ => streams
  }

  /** The statuses after a turn's events have been delivered in order. */
  function Deliver(streams: Statuses, events: seq<L.Event>): Statuses {
    if events == [] then streams
    else DeliverOne(Deliver(streams, events[..|events| - 1]), events[|events| - 1])
  }

  // ------------------------------------------------------------ queues

  function Push(ready: seq<U32>, id: U32): seq<U32> {
    if id in ready then ready else ready + [id]
  }

  /** Streams whose credit grew are ready again if they have bytes pending. */
  function MarkWritable(pending: map<U32, Bytes>, ready: seq<U32>, writable: seq<U32>): seq<U32> {
    if writable == [] then ready
    else
      var r := MarkWritable(pending, ready, writable[..|writable| - 1]);
      var id := writable[|writable| - 1];
      if id in pending then Push(r, id) else r
  }

  function Without(ready: seq<U32>, id: U32): seq<U32> {
    if ready == [] then []
    else (if ready[0] == id then [] else [ready[0]]) + Without(ready[1..], id)
  }

  function Discard(d: Driver, id: U32): Driver {
    d.(pending := d.pending - {id},
       ready := Without(d.ready, id),
       closing := d.closing - {id},
       streams := if id in d.pending then Release(d.streams, id, |d.pending[id]|) else d.streams)
  }

  function Written(d: Driver, mux: L.Mux, frames: seq<Frame>): Driver {
    d.(ear := d.ear.(mux := mux), log := d.log.(frames := d.log.frames + frames))
  }

  // ------------------------------------------------------------ flushing

  /** Half-close a stream that asked for it and has nothing pending. */
  function CloseIfAsked(d: Driver, id: U32): Driver {
    if id !in d.closing then d
    else
      var d' := d.(closing := d.closing - {id});
      match L.CloseWrite(d.ear.mux, id)
      case Err(_) => d'
      case Ok((mux, frame)) => Written(d', mux, [frame])
  }

  function Chunk(queue: Bytes): (chunk: Bytes)
    ensures chunk <= queue && |chunk| <= RECOMMENDED_CHUNK
    ensures chunk == [] <==> queue == []
  {
    if |queue| <= RECOMMENDED_CHUNK then queue else queue[..RECOMMENDED_CHUNK]
  }

  /**
   One stream's turn, after it was taken off the ready queue. A chunk is never too
   long for the mux, so the only refusal to send is that the stream is closed.
   */
  function Serve(d: Driver, id: U32): (Driver, bool) {
    if id in d.streams && !d.streams[id].live then (Discard(d, id), false)
    else if id !in d.pending then (CloseIfAsked(d, id), false)
    else
      var chunk := Chunk(d.pending[id]);
      if chunk == [] then (CloseIfAsked(d.(pending := d.pending - {id}), id), false)
      else match L.TrySend(d.ear.mux, id, chunk)
           case Err(_) => (Discard(d.(pending := d.pending[id := d.pending[id][|chunk|..]]), id), false)
           case Ok((_, None)) => (d, false)
           case Ok((mux, Some(frame))) => (Sent(d, id, mux, frame), true)
  }

  /** A chunk went out: its bytes leave the queue, and the rest waits its next turn. */
  function Sent(d: Driver, id: U32, mux: L.Mux, frame: Frame): Driver
    requires id in d.pending && |frame.payload| <= |d.pending[id]|
  {
    var rest := d.pending[id][|frame.payload|..];
    var d' := Written(d, mux, [frame]).(streams := Release(d.streams, id, |frame.payload|));
    if rest == [] then CloseIfAsked(d'.(pending := d.pending - {id}), id)
    else d'.(pending := d.pending[id := rest], ready := d.ready + [id])
  }

  function Rounds(d: Driver, n: nat, progress: bool): (Driver, bool)
    decreases n
  {
    if n == 0 || d.ready == [] then (d, progress)
    else
      var (d', sent) := Serve(d.(ready := d.ready[1..]), d.ready[0]);
      Rounds(d', n - 1, progress || sent)
  }

  /** One turn for every stream that was ready, then a wake-up if more can be sent. */
  function Flush(d: Driver): Driver {
    var (d', progress) := Rounds(d, |d.ready|, false);
    if progress && d'.ready != [] then d'.(commands := d'.commands + [Wake]) else d'
  }

  // ------------------------------------------------------------ the loop

  /** The log keeps what was output; wake-ups are acted on at once. */
  function Noted(log: L.Output, out: L.Output): L.Output {
    G.Append(log, out).(writable := [])
  }

  /** Bytes from the peer; a fatal frame stops the driver. */
  function OnRead(d: Driver, bytes: Bytes): Driver {
    var h := L.Listen(d.ear, bytes, L.NO_OUTPUT);
    if h.error.Some? then d.(stopped := true)
    else Flush(d.(ear := h.ear,
                  log := Noted(d.log, h.out),
                  ready := MarkWritable(d.pending, d.ready, h.out.writable),
                  streams := Deliver(d.streams, h.out.events)))
  }

  function OnReset(d: Driver, id: U32, reason: L.ResetReason): Driver {
    var d' := Discard(d, id);
    match L.Reset(d'.ear.mux, id, reason)
    case Err(_) => d'
    case Ok((mux, frame)) => Written(d', mux, [frame])
  }

  function Dispatch(d: Driver, c: Command): Driver
    requires d.ear.mux.Valid()
  {
    match c
    case Write(id, bytes) =>
      Flush(d.(pending := d.pending[id := (if id in d.pending then d.pending[id] else []) + bytes],
               ready := Push(d.ready, id)))
    case Consumed(id, count) =>
      (match L.Consume(d.ear.mux, id, count)
       case Err(Closed) => d
       case Err(Refused(_)) => d.(stopped := true)
       case Ok((mux, frames)) => Flush(Written(d, mux, frames)))
    case Close(id) => Flush(d.(closing := d.closing + {id}, ready := Push(d.ready, id)))
    case Cancel(id) => Flush(OnReset(d, id, L.Cancel))
    case ResetStream(id, reason) => Flush(OnReset(d, id, reason))
    case Wake => Flush(d)
    case CloseConnection => d.(stopped := true)
  }

  /** The next command, if there is one. */
  function OnCommand(d: Driver): Driver
    requires d.ear.mux.Valid()
  {
    if d.commands == [] then d else Dispatch(d.(commands := d.commands[1..]), d.commands[0])
  }
}
