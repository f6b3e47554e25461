/**
 Hostname registrations of journal carriers. Generations are drawn before commit;
 a commit retires the entry it displaces; removals are delayed and name the
 generation they were created for. Shutdown empties the map and retires what was
 in it afterwards. A carrier's coordinator checks retirement before it queues an
 OPEN, and the opener checks again before it hands the stream out; other tasks may
 come between any two of these.
 */
module Registrations {
  import opened Outcomes

  type Hostname = string

  /**
   `draining` holds from the shutdown that took the journal out of the map until its
   retirement, `checking` while an open is past its retirement check and not yet
   queued. A queued open waits for its opener, which hands the stream out or drops it.
   */
  datatype Journal = Journal(
    hostname: Hostname,
    committed: bool,
    retired: bool,
    gone: bool,
    draining: bool,
    expiry: nat,
    checking: bool,
    opens: nat,
    lateOpens: nat,
    waiting: nat,
    handed: nat,
    dropped: nat)

  /**
   Journals by generation, the current generation of each hostname, and all
   generations ever installed, in that order.
   */
  datatype Registry = Registry(journals: seq<Journal>, entries: map<Hostname, nat>, installs: seq<nat>)

  const EMPTY := Registry([], map[], [])

  function Candidate(hostname: Hostname, expiry: nat): Journal {
    Journal(hostname, false, false, false, false, expiry, false, 0, 0, 0, 0, 0)
  }

  datatype Step =
    | Draw(hostname: Hostname, expiry: nat)
    | Commit(generation: nat)
    | CarrierGone(generation: nat)
    | Retire(generation: nat)
    | RemoveIfCurrent(hostname: Hostname, generation: nat)
    | ReplaceExpiry(generation: nat, expected: nat, replacement: nat)
    | ShutdownAll
    | RetireDrained(generation: nat)
    | CheckOpen(generation: nat)
    | QueueOpen(generation: nat)
    | HandOut(generation: nat)
    | OpenTimesOut(generation: nat)

  function Update(r: Registry, g: nat, j: Journal): Registry
    requires g < |r.journals|
  {
    r.(journals := r.journals[g := j])
  }

  function RetireOne(r: Registry, g: nat): Registry {
    if g < |r.journals| then Update(r, g, r.journals[g].(retired := true)) else r
  }

  /** The atomic section of a registration: retire what it displaces, then take its place. */
  function CommitOne(r: Registry, g: nat): Registry {
    if g >= |r.journals| || r.journals[g].committed then r
    else
      var host := r.journals[g].hostname;
      var r' := if host in r.entries then RetireOne(r, r.entries[host]) else r;
      Registry(r'.journals[g := r'.journals[g].(committed := true)], r.entries[host := g], r.installs + [g])
  }

  predicate Current(r: Registry, g: nat)
    requires g < |r.journals|
  {
    r.journals[g].hostname in r.entries && r.entries[r.journals[g].hostname] == g
  }

  /** Shutdown takes every journal out of the map; retiring them comes later. */
  function DrainAll(r: Registry): Registry {
    var drained := seq(|r.journals|, g requires 0 <= g < |r.journals| =>
                       if Current(r, g) then r.journals[g].(draining := true) else r.journals[g]);
    r.(journals := drained, entries := map[])
  }

  function RemoveOne(r: Registry, host: Hostname, g: nat): Registry {
    if host in r.entries && r.entries[host] == g then r.(entries := r.entries - {host}) else r
  }

  function Next(r: Registry, s: Step): Registry {
    match s
    case Draw(host, expiry) =>
      r.(journals := r.journals + [Candidate(host, expiry)])
    case Commit(g) => CommitOne(r, g)
    case CarrierGone(g) => if g < |r.journals| then Update(r, g, r.journals[g].(gone := true)) else r
    case Retire(g) => RetireOne(r, g)
    case RemoveIfCurrent(host, g) =>
      // Created by the journal's watcher once its carrier is gone, or after it was retired.
      if g < |r.journals| && (r.journals[g].gone || r.journals[g].retired) then RemoveOne(r, host, g) else r
    case ReplaceExpiry(g, expected, replacement) =>
      if g < |r.journals| && r.journals[g].expiry == expected
      then Update(r, g, r.journals[g].(expiry := replacement)) else r
    case CheckOpen(g) =>
      if g < |r.journals| && !r.journals[g].checking && !r.journals[g].retired
      then Update(r, g, r.journals[g].(checking := true)) else r
    case QueueOpen(g) =>
      if g < |r.journals| && r.journals[g].checking
      then
        var j := r.journals[g];
        var late := if j.retired then 1 else 0;
        Update(r, g, j.(checking := false, opens := j.opens + 1, lateOpens := j.lateOpens + late,
                        waiting := j.waiting + 1))
      else r
    case ShutdownAll => DrainAll(r)
    case RetireDrained(g) =>
      if g < |r.journals| && r.journals[g].draining
      then Update(r, g, r.journals[g].(draining := false, retired := true)) else r
    case HandOut(g) =>
      if g < |r.journals| && r.journals[g].waiting > 0
      then
        var j := r.journals[g].(waiting := r.journals[g].waiting - 1);
        Update(r, g, if j.retired then j.(dropped := j.dropped + 1) else j.(handed := j.handed + 1))
      else r
    case OpenTimesOut(g) =>
      if g < |r.journals| && r.journals[g].waiting > 0
      then Update(r, g, r.journals[g].(waiting := r.journals[g].waiting - 1, dropped := r.journals[g].dropped + 1))
      else r
  }

  // ------------------------------------------------------------ replacement

  /** Entries are committed journals of their own hostname. */
  predicate EntriesSound(r: Registry) {
    forall host :: host in r.entries ==>
      && r.entries[host] < |r.journals|
      && r.journals[r.entries[host]].committed
      && r.journals[r.entries[host]].hostname == host
  }

  /**
   A committed journal whose carrier is up and which is not retired is its
   hostname's entry, unless a shutdown has taken it out and not yet retired it.
   */
  predicate Replaced(r: Registry) {
    forall g :: 0 <= g < |r.journals| ==>
      && (r.journals[g].draining ==> r.journals[g].committed && !Current(r, g))
      && (r.journals[g].committed && !r.journals[g].retired && !r.journals[g].gone ==>
            (Current(r, g) <==> !r.journals[g].draining))
  }

  /** Every queued OPEN is accounted for; at most one is late, if its check came before retirement. */
  predicate OpensSound(j: Journal) {
    && j.opens == j.waiting + j.handed + j.dropped
    && j.lateOpens <= (if j.retired && !j.checking then 1 else 0)
  }

  predicate Inv(r: Registry) {
    && EntriesSound(r)
    && Replaced(r)
    && forall g :: 0 <= g < |r.journals| ==> OpensSound(r.journals[g])
  }

  lemma CommitKeeps(r: Registry, g: nat)
    requires Inv(r)
    ensures Inv(CommitOne(r, g))
  {
    if g < |r.journals| && !r.journals[g].committed {
      var r' := CommitOne(r, g);
      forall i | 0 <= i < |r'.journals|
        ensures r'.journals[i].draining ==> r'.journals[i].committed && !Current(r', i)
        ensures r'.journals[i].committed && !r'.journals[i].retired && !r'.journals[i].gone ==>
                  (Current(r', i) <==> !r'.journals[i].draining)
        ensures OpensSound(r'.journals[i])
      {
        assert OpensSound(r.journals[i]);
        assert r.journals[i].draining ==> r.journals[i].committed && !Current(r, i);
      }
    }
  }

  lemma NextKeeps(r: Registry, s: Step)
    requires Inv(r)
    ensures Inv(Next(r, s))
  {
    match s
    case Draw(host, expiry) =>
      var r' := Next(r, s);
      forall g | 0 <= g < |r.journals| ensures Current(r', g) == Current(r, g) && r'.journals[g] == r.journals[g] {}
    case Commit(g) => CommitKeeps(r, g);
    case RemoveIfCurrent(host, g) =>
      var r' := Next(r, s);
      forall i | 0 <= i < |r'.journals| && i != g ensures Current(r', i) == Current(r, i) {}
    case ShutdownAll => DrainKeeps(r);
    case _ => FlagKeeps(r, s);
  }

  lemma DrainKeeps(r: Registry)
    requires Inv(r)
    ensures Inv(DrainAll(r))
  {
    var r' := DrainAll(r);
    forall g | 0 <= g < |r.journals|
      ensures OpensSound(r'.journals[g]) && !Current(r', g)
      ensures r'.journals[g].draining == (r.journals[g].draining || Current(r, g))
      ensures r'.journals[g].draining ==> r'.journals[g].committed
    {
      assert OpensSound(r.journals[g]);
    }
  }

  /** One journal changes, and only in ways that keep what is known of it. */
  predicate Develops(j: Journal, j': Journal) {
    && j'.hostname == j.hostname && j'.committed == j.committed
    && (j.retired || j.gone ==> j'.retired || j'.gone)
    && (j'.draining == j.draining || (j.draining && !j'.draining && j'.retired))
    && (OpensSound(j) ==> OpensSound(j'))
  }

  lemma UpdateKeeps(r: Registry, g: nat, j: Journal)
    requires Inv(r) && g < |r.journals| && Develops(r.journals[g], j)
    ensures Inv(Update(r, g, j))
  {
    hide OpensSound;
    var r' := Update(r, g, j);
    forall i | 0 <= i < |r.journals| ensures Current(r', i) == Current(r, i) {}
  }

  /** Steps that touch one journal, or nothing. */
  lemma FlagKeeps(r: Registry, s: Step)
    requires Inv(r) && !s.Draw? && !s.Commit? && !s.RemoveIfCurrent? && !s.ShutdownAll?
    ensures Inv(Next(r, s))
  {
    hide Inv;
    var r' := Next(r, s);
    if s.generation < |r.journals| {
      assert r' == r || r' == Update(r, s.generation, r'.journals[s.generation]);
      if r' != r {
        UpdateKeeps(r, s.generation, r'.journals[s.generation]);
      }
    }
  }

  function Run(r: Registry, steps: seq<Step>): Registry
    decreases |steps|
  {
    if steps == [] then r else Run(Next(r, steps[0]), steps[1..])
  }

  lemma {:induction false} RunKeeps(r: Registry, steps: seq<Step>)
    requires Inv(r)
    ensures Inv(Run(r, steps))
    decreases |steps|
  {
    hide Inv, Next;
    if steps != [] {
      NextKeeps(r, steps[0]);
      RunKeeps(Next(r, steps[0]), steps[1..]);
    }
  }

  /**
   For every interleaving of draws, commits, removals, retirements, shutdowns and
   carrier losses: a hostname's entry is a committed journal of that hostname, and
   a committed journal neither retired nor gone is its hostname's entry exactly
   when no shutdown has taken it out.
   */
  lemma DisplacedIsRetired(steps: seq<Step>)
    ensures EntriesSound(Run(EMPTY, steps)) && Replaced(Run(EMPTY, steps))
  {
    RunKeeps(EMPTY, steps);
  }

  /** A delayed removal removes nothing but the registration it was created for. */
  lemma RemovalIsExact(steps: seq<Step>, host: Hostname, g: nat)
    ensures var r := Run(EMPTY, steps);
            var r' := Next(r, RemoveIfCurrent(host, g));
            && r'.journals == r.journals
            && (forall h :: h in r'.entries ==> h in r.entries && r'.entries[h] == r.entries[h])
            && (forall h :: h in r.entries && h !in r'.entries ==>
                  g < |r.journals| && r.entries[h] == g && r.journals[g].hostname == h)
  {
    RunKeeps(EMPTY, steps);
  }

  /** No hostname's entry is this generation. */
  predicate NotHeld(r: Registry, g: nat) {
    g < |r.journals| && r.journals[g].committed && forall host :: host in r.entries ==> r.entries[host] != g
  }

  lemma NotHeldStep(r: Registry, s: Step, g: nat)
    requires NotHeld(r, g)
    ensures NotHeld(Next(r, s), g)
  {
  }

  lemma {:induction false} NotHeldRun(r: Registry, steps: seq<Step>, g: nat)
    requires NotHeld(r, g)
    ensures NotHeld(Run(r, steps), g)
    decreases |steps|
  {
    hide Next, NotHeld;
    if steps != [] {
      NotHeldStep(r, steps[0], g);
      NotHeldRun(Next(r, steps[0]), steps[1..], g);
    }
  }

  lemma EndedStays(r: Registry, s: Step, g: nat)
    requires g < |r.journals| && r.journals[g].committed
    ensures var r' := Next(r, s);
            && g < |r'.journals| && r'.journals[g].committed && r'.journals[g].hostname == r.journals[g].hostname
            && (r.journals[g].gone || s == CarrierGone(g) ==> r'.journals[g].gone)
            && (r.journals[g].retired || s == Retire(g) ==> r'.journals[g].retired)
  {
  }

  lemma {:induction false} EndedRun(r: Registry, steps: seq<Step>, g: nat)
    requires g < |r.journals| && r.journals[g].committed
    ensures var r' := Run(r, steps);
            && g < |r'.journals| && r'.journals[g].committed && r'.journals[g].hostname == r.journals[g].hostname
            && (r.journals[g].gone || CarrierGone(g) in steps ==> r'.journals[g].gone)
            && (r.journals[g].retired || Retire(g) in steps ==> r'.journals[g].retired)
    decreases |steps|
  {
    hide Next;
    if steps != [] {
      EndedStays(r, steps[0], g);
      EndedRun(Next(r, steps[0]), steps[1..], g);
    }
  }

  /**
   A journal whose carrier goes, or that is retired, at any time after it registered
   leaves the map with its removal, for good.
   */
  lemma EndedIsRemoved(steps: seq<Step>, middle: seq<Step>, more: seq<Step>, g: nat)
    requires var r := Run(EMPTY, steps); g < |r.journals| && r.journals[g].committed
    requires CarrierGone(g) in middle || Retire(g) in middle
    ensures var r := Run(EMPTY, steps);
            NotHeld(Run(Next(Run(r, middle), RemoveIfCurrent(r.journals[g].hostname, g)), more), g)
  {
    hide Next;
    var r := Run(EMPTY, steps);
    RunKeeps(EMPTY, steps);
    RunKeeps(r, middle);
    EndedRun(r, middle, g);
    RemovalTakesOut(Run(r, middle), g);
    NotHeldRun(Next(Run(r, middle), RemoveIfCurrent(r.journals[g].hostname, g)), more, g);
  }

  lemma RemovalTakesOut(r: Registry, g: nat)
    requires EntriesSound(r)
    requires g < |r.journals| && r.journals[g].committed && (r.journals[g].gone || r.journals[g].retired)
    ensures NotHeld(Next(r, RemoveIfCurrent(r.journals[g].hostname, g)), g)
  {
  }

  // ------------------------------------------------------------ retirement

  lemma RetiredStep(r: Registry, s: Step, g: nat)
    requires g < |r.journals| && r.journals[g].retired
    ensures var r' := Next(r, s);
            && g < |r'.journals| && r'.journals[g].retired && r'.journals[g].handed == r.journals[g].handed
            && r'.journals[g].opens + (if r'.journals[g].checking then 1 else 0)
               <= r.journals[g].opens + (if r.journals[g].checking then 1 else 0)
  {
  }

  lemma {:induction false} RetirementIsFinal(r: Registry, steps: seq<Step>, g: nat)
    requires g < |r.journals| && r.journals[g].retired
    ensures var r' := Run(r, steps);
            && g < |r'.journals| && r'.journals[g].retired && r'.journals[g].handed == r.journals[g].handed
            && r'.journals[g].opens <= r.journals[g].opens + (if r.journals[g].checking then 1 else 0)
    decreases |steps|
  {
    hide Next;
    if steps != [] {
      RetiredStep(r, steps[0], g);
      RetirementIsFinal(Next(r, steps[0]), steps[1..], g);
    }
  }

  /** Some continuation queues another OPEN on the journal's carrier. */
  ghost predicate MayStillOpen(r: Registry, g: nat)
    requires g < |r.journals|
  {
    exists more :: g < |Run(r, more).journals| && Run(r, more).journals[g].opens > r.journals[g].opens
  }

  /**
   A retired carrier may still queue an OPEN exactly when one is past its check,
   and never more than that one. Every open checked after retirement is rejected.
   */
  lemma OpensAfterRetirement(r: Registry, g: nat)
    requires g < |r.journals| && r.journals[g].retired
    ensures r.journals[g].checking <==> MayStillOpen(r, g)
    ensures forall more :: g < |Run(r, more).journals| ==> Run(r, more).journals[g].opens <= r.journals[g].opens + 1
  {
    forall more ensures g < |Run(r, more).journals| {
      RetirementIsFinal(r, more, g);
    }
    if r.journals[g].checking {
      var more := [QueueOpen(g)];
      assert more[1..] == [] && Run(r, more) == Run(Next(r, more[0]), more[1..]) == Next(r, QueueOpen(g));
      assert MayStillOpen(r, g);
    }
    forall more
      ensures Run(r, more).journals[g].opens <= r.journals[g].opens + (if r.journals[g].checking then 1 else 0)
    {
      RetirementIsFinal(r, more, g);
    }
  }

  /**
   Over every run and from any point of it: once a journal is retired no further
   stream of it is handed out, at most one OPEN in all is queued late, and every
   queued OPEN is handed out, dropped or still waiting for its opener.
   */
  lemma NothingHandedOutOnceRetired(steps: seq<Step>, more: seq<Step>, g: nat)
    requires g < |Run(EMPTY, steps).journals| && Run(EMPTY, steps).journals[g].retired
    ensures var r' := Run(Run(EMPTY, steps), more);
            && g < |r'.journals| && r'.journals[g].handed == Run(EMPTY, steps).journals[g].handed
            && r'.journals[g].lateOpens <= 1
            && r'.journals[g].opens == r'.journals[g].waiting + r'.journals[g].handed + r'.journals[g].dropped
  {
    var r := Run(EMPTY, steps);
    RunKeeps(EMPTY, steps);
    RunKeeps(r, more);
    RetirementIsFinal(r, more, g);
    assert OpensSound(Run(r, more).journals[g]);
  }

  /** Opens of a journal are dropped only by a time-out, or once it is retired. */
  predicate DropsOwed(r: Registry, g: nat, timedOut: bool) {
    g < |r.journals| && r.journals[g].dropped > 0 ==> r.journals[g].retired || timedOut
  }

  lemma DropStep(r: Registry, s: Step, g: nat, timedOut: bool)
    requires DropsOwed(r, g, timedOut)
    ensures DropsOwed(Next(r, s), g, timedOut || s == OpenTimesOut(g))
  {
  }

  lemma {:induction false} DropRun(r: Registry, steps: seq<Step>, g: nat, timedOut: bool)
    requires DropsOwed(r, g, timedOut)
    ensures DropsOwed(Run(r, steps), g, timedOut || OpenTimesOut(g) in steps)
    decreases |steps|
  {
    hide Next, DropsOwed;
    if steps != [] {
      DropStep(r, steps[0], g, timedOut);
      DropRun(Next(r, steps[0]), steps[1..], g, timedOut || steps[0] == OpenTimesOut(g));
    }
  }

  /**
   Streams are handed out: over every run, unless a journal is retired or an open of it
   timed out, every OPEN it queued was handed out or waits for its opener.
   */
  lemma LiveOpensAreHandedOut(steps: seq<Step>, g: nat)
    requires var r := Run(EMPTY, steps); g < |r.journals| && !r.journals[g].retired
    requires OpenTimesOut(g) !in steps
    ensures var j := Run(EMPTY, steps).journals[g]; j.opens == j.handed + j.waiting
  {
    hide Next;
    RunKeeps(EMPTY, steps);
    DropRun(EMPTY, steps, g, false);
    assert OpensSound(Run(EMPTY, steps).journals[g]);
  }

  // ------------------------------------------------------------ expiries

  /** A journal's expiry, read off the steps: its own to begin with, then each exchange that expected it. */
  function ExpiryIn(expiry: nat, steps: seq<Step>, g: nat): nat
    decreases |steps|
  {
    if steps == [] then expiry
    else
      var s := steps[0];
      ExpiryIn(if s.ReplaceExpiry? && s.generation == g && s.expected == expiry then s.replacement else expiry,
               steps[1..], g)
  }

  lemma ExpiryStep(r: Registry, s: Step, g: nat)
    requires g < |r.journals|
    ensures g < |Next(r, s).journals|
    ensures Next(r, s).journals[g].expiry == ExpiryIn(r.journals[g].expiry, [s], g)
  {
    assert [s][1..] == [];
  }

  /** From any point of any run a journal's expiry changes by the compare-exchanges that expected it, and only so. */
  lemma {:induction false} ExpiryIsItsExchanges(r: Registry, steps: seq<Step>, g: nat)
    requires g < |r.journals|
    ensures g < |Run(r, steps).journals|
    ensures Run(r, steps).journals[g].expiry == ExpiryIn(r.journals[g].expiry, steps, g)
    decreases |steps|
  {
    hide Next;
    if steps != [] {
      ExpiryStep(r, steps[0], g);
      assert [steps[0]][1..] == [];
      ExpiryIsItsExchanges(Next(r, steps[0]), steps[1..], g);
    }
  }

  /** A retirement between check and queue lets one OPEN out after it. */
  lemma OneOpenCanBeLate(host: Hostname)
    ensures var r := Run(EMPTY, [Draw(host, 1), Commit(0), CheckOpen(0), Retire(0), QueueOpen(0)]);
            |r.journals| == 1 && r.journals[0].lateOpens == 1
  {
    hide Run, Next;
    var last := [QueueOpen(0)] + [];
    var fourth := [Retire(0)] + last;
    var third := [CheckOpen(0)] + fourth;
    var second := [Commit(0)] + third;
    assert [Draw(host, 1), Commit(0), CheckOpen(0), Retire(0), QueueOpen(0)] == [Draw(host, 1)] + second;
    LateStates(host);
    var r1 := Next(EMPTY, Draw(host, 1));
    var r2 := Next(r1, Commit(0));
    var r3 := Next(r2, CheckOpen(0));
    RunFirst(EMPTY, Draw(host, 1), second);
    RunFirst(r1, Commit(0), third);
    RunFirst(r2, CheckOpen(0), fourth);
    RunFirst(r3, Retire(0), last);
    RunFirst(Next(r3, Retire(0)), QueueOpen(0), []);
  }

  lemma LateStates(host: Hostname)
    ensures var r3 := Next(Next(Next(EMPTY, Draw(host, 1)), Commit(0)), CheckOpen(0));
            var r := Next(Next(r3, Retire(0)), QueueOpen(0));
            |r.journals| == 1 && r.journals[0].lateOpens == 1
  {
    var r1 := Next(EMPTY, Draw(host, 1));
    assert r1.journals == [Candidate(host, 1)];
    var r2 := Next(r1, Commit(0));
    assert r2.journals == [Candidate(host, 1).(committed := true)];
    var r3 := Next(Next(r2, CheckOpen(0)), Retire(0));
    assert r3.journals == [Candidate(host, 1).(committed := true, checking := true, retired := true)];
  }

  lemma RunFirst(r: Registry, s: Step, rest: seq<Step>)
    ensures Run(r, [s] + rest) == Run(Next(r, s), rest)
    ensures rest == [] ==> Run(r, [s] + rest) == Next(r, s)
  {
    assert ([s] + rest)[1..] == rest;
  }

  /** The journal is retired while an open is past its check. */
  predicate Interrupts(r: Registry, s: Step, g: nat) {
    && g < |r.journals| && r.journals[g].checking && !r.journals[g].retired
    && g < |Next(r, s).journals| && Next(r, s).journals[g].retired
  }

  predicate EverInterrupts(r: Registry, steps: seq<Step>, g: nat)
    decreases |steps|
  {
    steps != [] && (Interrupts(r, steps[0], g) || EverInterrupts(Next(r, steps[0]), steps[1..], g))
  }

  /** An OPEN was queued after retirement, or is about to be. */
  predicate Late(r: Registry, g: nat) {
    g < |r.journals| && (r.journals[g].lateOpens > 0 || (r.journals[g].retired && r.journals[g].checking))
  }

  lemma LateStep(r: Registry, s: Step, g: nat)
    ensures Late(Next(r, s), g) <==> Late(r, g) || Interrupts(r, s, g)
  {
  }

  lemma {:induction false} LateRun(r: Registry, steps: seq<Step>, g: nat)
    ensures Late(Run(r, steps), g) <==> Late(r, g) || EverInterrupts(r, steps, g)
    decreases |steps|
  {
    hide Next, Late, Interrupts;
    if steps != [] {
      LateStep(r, steps[0], g);
      LateRun(Next(r, steps[0]), steps[1..], g);
    }
  }

  /** Over every run, an OPEN is or will be late exactly if a retirement came between check and queue. */
  lemma LateOpenIff(steps: seq<Step>, g: nat)
    ensures Late(Run(EMPTY, steps), g) <==> EverInterrupts(EMPTY, steps, g)
  {
    LateRun(EMPTY, steps, g);
  }

  /** Every check is followed by its queueing before anything else happens. */
  predicate Together(steps: seq<Step>) {
    forall i :: 0 <= i < |steps| && steps[i].CheckOpen? ==>
      i + 1 < |steps| && steps[i + 1] == QueueOpen(steps[i].generation)
  }

  predicate NoneChecking(r: Registry) {
    forall g :: 0 <= g < |r.journals| ==> !r.journals[g].checking && r.journals[g].lateOpens == 0
  }

  lemma OpenTogether(r: Registry, g: nat)
    requires NoneChecking(r)
    ensures NoneChecking(Next(Next(r, CheckOpen(g)), QueueOpen(g)))
  {
  }

  lemma OtherTogether(r: Registry, s: Step)
    requires NoneChecking(r) && !s.CheckOpen?
    ensures NoneChecking(Next(r, s))
  {
  }

  lemma {:induction false} RunTogether(r: Registry, steps: seq<Step>)
    requires NoneChecking(r) && Together(steps)
    ensures NoneChecking(Run(r, steps))
    decreases |steps|
  {
    hide Next, NoneChecking;
    if steps != [] {
      if steps[0].CheckOpen? {
        var g := steps[0].generation;
        OpenTogether(r, g);
        assert steps[1..][0] == QueueOpen(g) && steps[1..][1..] == steps[2..];
        assert Run(r, steps) == Run(Next(r, steps[0]), steps[1..]);
        assert Run(r, steps) == Run(Next(Next(r, steps[0]), QueueOpen(g)), steps[2..]);
        RunTogether(Next(Next(r, steps[0]), QueueOpen(g)), steps[2..]);
      } else {
        OtherTogether(r, steps[0]);
        RunTogether(Next(r, steps[0]), steps[1..]);
      }
    }
  }

  /**
   On a single-threaded runtime nothing comes between check and queue, and then no
   OPEN is ever late.
   */
  lemma TogetherIsNeverLate(steps: seq<Step>, g: nat)
    requires Together(steps)
    ensures !Late(Run(EMPTY, steps), g)
  {
    RunTogether(EMPTY, steps);
  }

  /**
   Between a shutdown and its retirement a registered journal is neither current
   nor retired; its retirement ends that.
   */
  lemma DrainedIsNotYetRetired(host: Hostname)
    ensures var r := Run(EMPTY, [Draw(host, 1), Commit(0), ShutdownAll]);
            && |r.journals| == 1 && r.journals[0].committed && !r.journals[0].retired && !r.journals[0].gone
            && !Current(r, 0)
            && Next(r, RetireDrained(0)).journals[0].retired && !Next(r, RetireDrained(0)).journals[0].draining
  {
    var steps := [Draw(host, 1), Commit(0), ShutdownAll];
    RunFirst(EMPTY, steps[0], steps[1..]);
    var r1 := Next(EMPTY, steps[0]);
    RunFirst(r1, Commit(0), steps[2..]);
    RunFirst(Next(r1, Commit(0)), ShutdownAll, []);
    assert steps[2..] == [ShutdownAll] + [] && steps[1..] == [Commit(0)] + steps[2..];
    assert steps == [steps[0]] + steps[1..];
  }

  // ------------------------------------------------------------ generations

  /** The generations installed for a hostname, in that order. */
  function Installed(r: Registry, installs: seq<nat>, host: Hostname): seq<nat> {
    if installs == [] then []
    else
      var g := installs[|installs| - 1];
      var before := Installed(r, installs[..|installs| - 1], host);
      if g < |r.journals| && r.journals[g].hostname == host then before + [g] else before
  }

  predicate Increasing(line: seq<nat>) {
    forall i, j :: 0 <= i < j < |line| ==> line[i] < line[j]
  }

  /** A commit for a hostname that already had a later-drawn generation installed. */
  predicate Regresses(r: Registry, s: Step, host: Hostname) {
    && s.Commit? && s.generation < |r.journals|
    && !r.journals[s.generation].committed && r.journals[s.generation].hostname == host
    && exists later :: s.generation < later < |r.journals|
                       && r.journals[later].committed && r.journals[later].hostname == host
  }

  predicate EverRegresses(r: Registry, steps: seq<Step>, host: Hostname)
    decreases |steps|
  {
    steps != [] && (Regresses(r, steps[0], host) || EverRegresses(Next(r, steps[0]), steps[1..], host))
  }

  /** What was installed for a hostname is its committed journals. */
  predicate LogSound(r: Registry, host: Hostname) {
    var line := Installed(r, r.installs, host);
    && (forall i :: 0 <= i < |line| ==>
          line[i] < |r.journals| && r.journals[line[i]].committed && r.journals[line[i]].hostname == host)
    && (forall g :: 0 <= g < |r.journals| && r.journals[g].committed && r.journals[g].hostname == host ==> g in line)
  }

  lemma {:induction false} SameInstalled(r: Registry, r': Registry, installs: seq<nat>, host: Hostname)
    requires |r.journals| <= |r'.journals|
    requires forall g :: 0 <= g < |r.journals| ==> r'.journals[g].hostname == r.journals[g].hostname
    requires forall i :: 0 <= i < |installs| ==> installs[i] < |r.journals|
    ensures Installed(r', installs, host) == Installed(r, installs, host)
    decreases |installs|
  {
    if installs != [] {
      SameInstalled(r, r', installs[..|installs| - 1], host);
    }
  }

  /** Only a commit installs; every step leaves hostnames and earlier commits as they are. */
  lemma StepInstalls(r: Registry, s: Step)
    requires forall i :: 0 <= i < |r.installs| ==> r.installs[i] < |r.journals|
    ensures var r' := Next(r, s);
            var takes := s.Commit? && s.generation < |r.journals| && !r.journals[s.generation].committed;
            && |r.journals| <= |r'.journals|
            && (forall g :: 0 <= g < |r.journals| ==>
                  && r'.journals[g].hostname == r.journals[g].hostname
                  && r'.journals[g].committed == (r.journals[g].committed || (takes && g == s.generation)))
            && (forall g :: |r.journals| <= g < |r'.journals| ==> !r'.journals[g].committed)
            && r'.installs == (if takes then r.installs + [s.generation] else r.installs)
            && forall i :: 0 <= i < |r'.installs| ==> r'.installs[i] < |r'.journals|
  {
  }

  lemma IncreasingAppend(line: seq<nat>, g: nat)
    ensures Increasing(line + [g]) <==> Increasing(line) && forall i :: 0 <= i < |line| ==> line[i] < g
  {
    var longer := line + [g];
    if Increasing(longer) {
      forall i, j | 0 <= i < j < |line| ensures line[i] < line[j] {
        assert longer[i] == line[i] && longer[j] == line[j];
      }
      forall i | 0 <= i < |line| ensures line[i] < g {
        assert longer[i] == line[i] && longer[|line|] == g;
      }
    }
  }

  lemma StepKeepsLog(r: Registry, s: Step, host: Hostname)
    requires LogSound(r, host) && forall i :: 0 <= i < |r.installs| ==> r.installs[i] < |r.journals|
    ensures var r' := Next(r, s);
            && LogSound(r', host)
            && (Increasing(Installed(r', r'.installs, host)) <==>
                  Increasing(Installed(r, r.installs, host)) && !Regresses(r, s, host))
  {
    hide Next, Increasing, Installed;
    var r' := Next(r, s);
    StepInstalls(r, s);
    var line := Installed(r, r.installs, host);
    SameInstalled(r, r', r.installs, host);
    if r'.installs != r.installs {
      InstalledAppend(r', r.installs, s.generation, host);
      IncreasingAppend(line, s.generation);
      if r.journals[s.generation].hostname == host {
        assert (forall i :: 0 <= i < |line| ==> line[i] < s.generation) <==> !Regresses(r, s, host);
      }
    }
  }

  lemma InstalledAppend(r: Registry, installs: seq<nat>, g: nat, host: Hostname)
    requires g < |r.journals|
    ensures Installed(r, installs + [g], host) ==
            if r.journals[g].hostname == host then Installed(r, installs, host) + [g] else Installed(r, installs, host)
  {
    assert (installs + [g])[..|installs|] == installs;
  }

  lemma {:induction false} RunKeepsLog(r: Registry, steps: seq<Step>, host: Hostname)
    requires LogSound(r, host) && forall i :: 0 <= i < |r.installs| ==> r.installs[i] < |r.journals|
    ensures var r' := Run(r, steps);
            && LogSound(r', host)
            && (Increasing(Installed(r', r'.installs, host)) <==>
                  Increasing(Installed(r, r.installs, host)) && !EverRegresses(r, steps, host))
    decreases |steps|
  {
    hide Next, Increasing, Installed, Regresses, LogSound;
    if steps != [] {
      StepInstalls(r, steps[0]);
      StepKeepsLog(r, steps[0], host);
      RunKeepsLog(Next(r, steps[0]), steps[1..], host);
    }
  }

  /**
   Generations are drawn before commit. Over every run, the generations installed
   for a hostname are its committed journals, and they increase exactly when no
   commit for it comes after that of a later-drawn generation.
   */
  lemma GenerationsIncreaseIff(steps: seq<Step>, host: Hostname)
    ensures var r := Run(EMPTY, steps);
            && LogSound(r, host)
            && (Increasing(Installed(r, r.installs, host)) <==> !EverRegresses(EMPTY, steps, host))
  {
    RunKeepsLog(EMPTY, steps, host);
  }

  /** An older generation may so replace a newer one. */
  lemma OlderMayReplaceNewer(host: Hostname)
    ensures var r := Run(EMPTY, [Draw(host, 1), Draw(host, 2), Commit(1), Commit(0)]);
            && r.entries == map[host := 0] && |r.journals| == 2 && r.journals[1].retired
            && r.installs == [1, 0] && EverRegresses(EMPTY, [Draw(host, 1), Draw(host, 2), Commit(1), Commit(0)], host)
  {
    var steps := [Draw(host, 1), Draw(host, 2), Commit(1), Commit(0)];
    var r1 := Next(EMPTY, steps[0]);
    var r2 := Next(r1, steps[1]);
    var r3 := Next(r2, steps[2]);
    var r4 := Next(r3, steps[3]);
    assert steps[1..][1..][1..][1..] == [];
    assert steps[1..][0] == Draw(host, 2) && steps[1..][1..][0] == Commit(1) && steps[1..][1..][1..][0] == Commit(0);
    assert Run(EMPTY, steps) == Run(r1, steps[1..]) == Run(r2, steps[1..][1..]) == Run(r3, steps[1..][1..][1..]) == r4;
    assert Regresses(r3, Commit(0), host) && EverRegresses(r3, steps[1..][1..][1..], host);
    assert EverRegresses(r2, steps[1..][1..], host) && EverRegresses(r1, steps[1..], host);
  }
}
