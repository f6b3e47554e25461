/**
 The bridge's opens arrive in order: on every run of the joined bridge and home, an
 OPEN the home handles below its stream cap opens its stream.
 */
module DuplexOpens {
  import opened Outcomes
  import opened Wire
  import opened Flow
  import opened Links
  import opened Duplex
  import opened DuplexBytes
  import E = DuplexEnds
  import B = Bridge
  import H = Listener

  /** The OPENs on the way: odd, above the home's mark, below the bridge's next, and increasing. */
  predicate InLine(queue: seq<Frame>, mark: Option<U32>, next: U32) {
    && (mark.Some? ==> mark.value < next)
    && (forall i :: 0 <= i < |queue| && queue[i].flags == FLAG_OPEN ==>
          && queue[i].streamId % 2 == 1 && queue[i].streamId < next
          && (mark.Some? ==> mark.value < queue[i].streamId))
    && (forall i, j :: 0 <= i < j < |queue| && queue[i].flags == FLAG_OPEN && queue[j].flags == FLAG_OPEN ==>
          queue[i].streamId < queue[j].streamId)
  }

  predicate Lined(p: Pair) {
    InLine(p.desk.queue, p.mux.highWater, p.desk.nextId)
  }

  lemma ExtendedLine(p: Pair, p': Pair)
    requires Lined(p) && Extends(p.desk.queue, p'.desk.queue)
    requires p'.desk.nextId == p.desk.nextId && p'.mux.highWater == p.mux.highWater
    ensures Lined(p')
  {
    forall i | 0 <= i < |p'.desk.queue| && p'.desk.queue[i].flags == FLAG_OPEN
      ensures i < |p.desk.queue| && p'.desk.queue[i] == p.desk.queue[i]
    {
    }
  }

  lemma OpenLine(p: Pair)
    requires Inv(p) && Lined(p) && Allowed(p, BridgeOpen)
    ensures Lined(Apply(p, BridgeOpen))
  {
    hide LinkInv;
    if !p.desk.retired {
      OpenShape(p);
      assert p.desk.nextId % 2 == 1;
    }
  }

  /** Handling a frame raises the mark only to an OPEN's identifier above it. */
  lemma HandleMark(t: H.Turn, f: Frame)
    requires Shaped(f) && f.streamId != 0
    ensures H.Handle(t, f).Ok?
    ensures H.Handle(t, f).value.mux.highWater
            == if f.flags == FLAG_OPEN && f.streamId % 2 == 1
                  && (t.mux.highWater.None? || t.mux.highWater.value < f.streamId)
               then Some(f.streamId) else t.mux.highWater
  {
  }

  lemma HomeReceiveLine(p: Pair)
    requires Inv(p) && Lined(p) && p.desk.queue != []
    ensures Lined(Apply(p, HomeReceive))
  {
    hide Inv, H.Handle;
    InvIsValid(p);
    NextUp(p);
    HandleMark(H.Turn(p.mux, p.out), p.desk.queue[0]);
    var p' := Apply(p, HomeReceive);
    forall i | 0 <= i < |p'.desk.queue| ensures p'.desk.queue[i] == p.desk.queue[i + 1] {}
  }

  lemma HomeCallMark(p: Pair, step: Step)
    requires p.desk.Valid() && p.mux.Valid() && Allowed(p, step)
    requires step.HomeConsume? || step.HomeSend? || step.HomeClose? || step.HomeReset?
    ensures Next(p, step).desk == p.desk && Next(p, step).mux.highWater == p.mux.highWater
  {
  }

  lemma StepLine(p: Pair, step: Step)
    requires Inv(p) && Lined(p) && Allowed(p, step)
    ensures Lined(Apply(p, step))
  {
    hide Inv, Lined, Quiet, Delivers, Extends, Apply;
    var p' := Apply(p, step);
    if step.BridgeOpen? {
      OpenLine(p);
    } else if step.HomeReceive? {
      HomeReceiveLine(p);
    } else if step.BridgeReceive? {
      E.ReceiveShape(p, step.taken);
      DeliveryExtends(p.desk, p'.desk, p.out.frames[0]);
      ExtendedLine(p, p');
    } else if step.HomeConsume? || step.HomeSend? || step.HomeClose? || step.HomeReset? {
      HomeLine(p, step);
    } else {
      E.BridgeStepShape(p, step);
      E.QuietExtends(p.desk, p'.desk, 0);
      ExtendedLine(p, p');
    }
  }

  lemma HomeLine(p: Pair, step: Step)
    requires Inv(p) && Lined(p) && Allowed(p, step)
    requires step.HomeConsume? || step.HomeSend? || step.HomeClose? || step.HomeReset?
    ensures Lined(Apply(p, step))
  {
    hide Inv, Next;
    InvIsValid(p);
    HomeCallMark(p, step);
  }

  lemma {:induction false} RunLine(p: Pair, steps: seq<Step>)
    requires Inv(p) && Lined(p)
    ensures Inv(Run(p, steps)) && Lined(Run(p, steps))
    decreases |steps|
  {
    hide Inv, Lined;
    if steps != [] {
      if Allowed(p, steps[0]) {
        StepLine(p, steps[0]);
      }
      RunLine(Apply(p, steps[0]), steps[1..]);
    }
  }

  /**
   On every run, when the home handles an OPEN and has fewer streams than its cap,
   the stream is opened and nothing is refused; at the cap it is refused for that.
   */
  lemma OpensAreAccepted(limits: H.Limits, steps: seq<Step>)
    requires limits.Valid()
    ensures Inv(Start(limits)) && Inv(Run(Start(limits), steps))
    ensures var p := Run(Start(limits), steps);
            p.desk.queue != [] && p.desk.queue[0].flags == FLAG_OPEN ==>
              var id := p.desk.queue[0].streamId;
              var p' := Apply(p, HomeReceive);
              if |p.mux.streams| < p.mux.limits.maxStreams then
                && p'.out == p.out.(events := p.out.events + [H.Opened(id)]) && id in p'.mux.streams
                && p'.mux.streams[id].sendCredit == INITIAL_WINDOW && p'.mux.streams[id].window.credit == INITIAL_WINDOW
              else
                p'.out.refusals == p.out.refusals + [H.Refusal(H.StreamLimit, Some(p.desk.queue[0].Violation()))]
  {
    hide LinkInv, Run;
    StartKeeps(limits);
    RunLine(Start(limits), steps);
    var p := Run(Start(limits), steps);
    if p.desk.queue != [] && p.desk.queue[0].flags == FLAG_OPEN {
      NextUp(p);
      InvIsValid(p);
      OpenHandled(H.Turn(p.mux, p.out), p.desk.queue[0]);
    }
  }

  lemma OpenHandled(t: H.Turn, f: Frame)
    requires f.flags == FLAG_OPEN && f.payload == [] && f.streamId % 2 == 1
    requires t.mux.highWater.Some? ==> t.mux.highWater.value < f.streamId
    ensures var h := H.Handle(t, f);
            && h.Ok?
            && (|t.mux.streams| < t.mux.limits.maxStreams ==>
                  && h.value.out == t.out.(events := t.out.events + [H.Opened(f.streamId)])
                  && h.value.mux.streams
                     == t.mux.streams[f.streamId := H.Stream(NEW_WINDOW.Debit(0), 0, INITIAL_WINDOW, false, false)])
            && (|t.mux.streams| >= t.mux.limits.maxStreams ==>
                  h.value.out.refusals == t.out.refusals + [H.Refusal(H.StreamLimit, Some(f.Violation()))])
  {
    assert [H.Opened(f.streamId)] + [] == [H.Opened(f.streamId)];
  }
}
