/**
 Per-stream byte credit. `Window` is the receive side: inbound DATA is debited
 on decode, consumed bytes are batched, and everything consumed is granted back
 at half a window. `CreditLink` is one stream direction end to end.
 */
module Flow {
  import opened Outcomes
  import opened Wire

  const INITIAL_WINDOW: nat := 0x10_0000
  const RECEIVE_GRANT_THRESHOLD: nat := INITIAL_WINDOW / 2
  /** Send credit may never exceed 2^31 - 1 bytes. */
  const MAX_SEND_CREDIT: nat := 0x7fff_ffff

  function Credit(grant: Option<U32>): nat {
    if grant.Some? then grant.value else 0
  }

  datatype Window = Window(credit: nat, unacked: nat) {
    predicate Valid() {
      credit + unacked <= INITIAL_WINDOW
    }

    /** Bytes debited and not yet consumed. */
    function Outstanding(): nat
      requires Valid()
    {
      INITIAL_WINDOW - credit - unacked
    }

    predicate Admits(wireLen: nat) {
      wireLen <= credit
    }

    function Debit(wireLen: nat): (w: Window)
      requires Admits(wireLen)
      ensures Valid() ==> w.Valid() && w.Outstanding() == Outstanding() + wireLen
    {
      Window(credit - wireLen, unacked)
    }

    /** The window after consuming, and the grant to announce, if any. */
    function Consume(bytes: nat): (r: (Window, Option<U32>))
      requires Valid() && bytes <= Outstanding()
      ensures r.0.Valid() && r.0.Outstanding() == Outstanding() - bytes
      ensures r.0.credit == credit + Credit(r.1)
      ensures r.0.unacked < RECEIVE_GRANT_THRESHOLD
      ensures r.1.Some? ==> RECEIVE_GRANT_THRESHOLD <= r.1.value <= INITIAL_WINDOW
    {
      var total := unacked + bytes;
      if total < RECEIVE_GRANT_THRESHOLD
      then (Window(credit, total), None)
      else (Window(credit + total, 0), Some(total))
    }
  }

  const NEW_WINDOW := Window(INITIAL_WINDOW, 0)

  /** The send credit after a WINDOW grant; None when it would pass the cap. */
  function AddCredit(credit: nat, grant: U32): (next: Option<nat>)
    ensures next.Some? <==> credit + grant <= MAX_SEND_CREDIT
    ensures next.Some? ==> next.value == credit + grant
  {
    if credit + grant > MAX_SEND_CREDIT then None else Some(credit + grant)
  }

  /** The window as two counters changed in place. */
  class RecvWindow {
    var credit: nat
    var unacked: nat

    ghost function View(): Window
      reads this
    {
      Window(credit, unacked)
    }

    constructor ()
      ensures View() == NEW_WINDOW
    {
      credit, unacked := INITIAL_WINDOW, 0;
    }

    /** An overrun is reported and leaves the window as it was. */
    method Debit(wireLen: nat) returns (ok: bool)
      modifies this
      ensures ok == old(View()).Admits(wireLen)
      ensures View() == if ok then old(View()).Debit(wireLen) else old(View())
    {
      if wireLen > credit {
        return false;
      }
      credit := credit - wireLen;
      return true;
    }

    /** Consuming more than was debited is a local accounting bug and panics. */
    method Consume(bytes: nat) returns (grant: Option<U32>)
      requires View().Valid() && bytes <= View().Outstanding()
      modifies this
      ensures (View(), grant) == old(View()).Consume(bytes)
    {
      unacked := unacked + bytes;
      if unacked < RECEIVE_GRANT_THRESHOLD {
        return None;
      }
      var total := unacked;
      credit := credit + unacked;
      unacked := 0;
      return Some(total);
    }
  }
}

/**
 One stream direction: a sender spending credit, a FIFO of DATA payload sizes,
 a receive window whose owner consumes at any pace, and a FIFO of grants. Steps
 interleave arbitrarily.
 */
module CreditLink {
  import opened Outcomes
  import opened Wire
  import opened Flow

  /** `held` is what the receiver has debited but its consumer has not taken. */
  datatype Link = Link(credit: nat, data: seq<nat>, window: Window, held: nat, grants: seq<U32>)

  datatype Step =
    | Send(bytes: nat)
    | Receive
    | Consume(bytes: nat)
    | TakeGrant

  /** What a step leads to; the two refusals are the FLOW_CONTROL resets. */
  datatype Outcome = Next(link: Link) | DebitRefused | GrantRefused | Disabled

  const INITIAL := Link(INITIAL_WINDOW, [], NEW_WINDOW, 0, [])

  function Sum(xs: seq<nat>): nat {
    if xs == [] then 0 else xs[0] + Sum(xs[1..])
  }

  lemma {:induction false} SumAppend(xs: seq<nat>, x: nat)
    ensures Sum(xs + [x]) == Sum(xs) + x
  {
    if xs == [] {
      assert xs + [x] == [x];
    } else {
      assert (xs + [x])[1..] == xs[1..] + [x];
      SumAppend(xs[1..], x);
    }
  }

  /** A receiver only consumes bytes it holds; a sender only spends its credit. */
  function Apply(l: Link, step: Step): Outcome
    requires l.window.Valid() && l.held == l.window.Outstanding()
  {
    match step
    case Send(bytes) =>
      if bytes > l.credit then Disabled
      else Next(l.(credit := l.credit - bytes, data := l.data + [bytes]))
    case Receive =>
      if l.data == [] then Disabled
      else if !l.window.Admits(l.data[0]) then DebitRefused
      else Next(l.(data := l.data[1..], window := l.window.Debit(l.data[0]), held := l.held + l.data[0]))
    case Consume(bytes) =>
      if bytes > l.held then Disabled
      else
        var (window, grant) := l.window.Consume(bytes);
        Next(l.(window := window, held := l.held - bytes,
                grants := l.grants + match grant case None => [] case Some(g) => [g]))
    case TakeGrant =>
      if l.grants == [] then Disabled
      else match AddCredit(l.credit, l.grants[0])
           case None => GrantRefused
           case Some(credit) => Next(l.(credit := credit, grants := l.grants[1..]))
  }

  /** Every byte of the initial window is in exactly one of five places. */
  predicate Conserved(l: Link) {
    && l.window.Valid()
    && l.held == l.window.Outstanding()
    && l.window.unacked < RECEIVE_GRANT_THRESHOLD
    && l.credit + Sum(l.data) + l.held + l.window.unacked + Sum(l.grants) == INITIAL_WINDOW
  }

  lemma StepConserves(l: Link, step: Step)
    requires Conserved(l)
    ensures Apply(l, step).Next? || Apply(l, step).Disabled?
    ensures Apply(l, step).Next? ==> Conserved(Apply(l, step).link)
  {
    match step
    case Send(bytes) => SumAppend(l.data, bytes);
    case Receive =>
    case Consume(bytes) =>
      if bytes <= l.held {
        var (window, grant) := l.window.Consume(bytes);
        match grant
        case None => assert l.grants + [] == l.grants;
        case Some(g) => SumAppend(l.grants, g);
      }
    case TakeGrant =>
  }

  ghost function Run(l: Link, steps: seq<Step>): Outcome
    requires Conserved(l)
    decreases |steps|
  {
    StepConserves(l, if steps == [] then TakeGrant else steps[0]);
    if steps == [] then Next(l)
    else match Apply(l, steps[0])
         case Next(l') => Run(l', steps[1..])
         case outcome => outcome
  }

  /** No interleaving ever reaches a flow-control refusal, and credit is conserved. */
  lemma {:induction false} RunConserves(l: Link, steps: seq<Step>)
    requires Conserved(l)
    ensures Run(l, steps).Next? || Run(l, steps).Disabled?
    ensures Run(l, steps).Next? ==> Conserved(Run(l, steps).link)
    decreases |steps|
  {
    if steps != [] {
      StepConserves(l, steps[0]);
      if Apply(l, steps[0]).Next? {
        RunConserves(Apply(l, steps[0]).link, steps[1..]);
      }
    }
  }

  /**
   No credit deadlock: once both channels are empty and everything delivered has
   been consumed, the sender holds more than half a window, so a whole 64 KiB
   chunk can always be sent.
   */
  lemma QuiescentSenderHasCredit(steps: seq<Step>)
    requires Run(INITIAL, steps).Next?
    ensures var l := Run(INITIAL, steps).link;
            l.data == [] && l.held == 0 && l.grants == [] ==>
              l.credit > RECEIVE_GRANT_THRESHOLD >= RECOMMENDED_CHUNK
  {
    RunConserves(INITIAL, steps);
  }
}
