/**
 Journal lease renewal: deadlines taken from wall-clock samples and only ever
 moved earlier, and the supervisor that renews, retires or gives up. Times are
 nanoseconds; a wall clock before the epoch is None; the monotonic clock ends at
 HORIZON, past which no instant exists.
 */
module Lease {
  import opened Outcomes

  const SECOND: nat := 1_000_000_000
  const RENEWAL_WINDOW: nat := 120
  const ATTEMPT_TIMEOUT: nat := 10 * SECOND
  const ATTEMPT_FLOOR: nat := 15 * SECOND
  const RECONCILIATION_INTERVAL: nat := SECOND
  const HORIZON: nat := 0x7fff_ffff_ffff_ffff * SECOND

  type Deadline = Option<nat>

  /** A wall-clock reading and the monotonic instant it was taken at. */
  datatype Sample = Sample(wall: Option<nat>, at: nat)

  function Monus(a: nat, b: nat): nat {
    if a < b then 0 else a - b
  }

  function CheckedAdd(a: nat, b: nat): Deadline {
    if a + b <= HORIZON then Some(a + b) else None
  }

  /** When the wall clock will reach `lead` seconds before an expiry. */
  function FromWall(expiresAt: nat, lead: nat, s: Sample): Deadline {
    if s.wall.None? then Some(s.at)
    else CheckedAdd(s.at, Monus(Monus(expiresAt, lead) * SECOND, s.wall.value))
  }

  function Ratchet(installed: Deadline, candidate: Deadline): Deadline {
    if candidate.None? then installed
    else if installed.None? || candidate.value < installed.value then candidate
    else installed
  }

  function Earlier(a: Deadline, b: Deadline): Deadline {
    if a.Some? && b.Some? then Some(if a.value < b.value then a.value else b.value)
    else if a.Some? then a else b
  }

  predicate Due(d: Deadline, now: nat) {
    d.Some? && d.value <= now
  }

  datatype Schedule = Schedule(renewalStart: Deadline, maxDeadline: Deadline) {
    /** When the next attempt may start, judged at `now`. */
    function NextAttemptAt(last: Deadline, now: nat): Deadline {
      if renewalStart.None? then None
      else if renewalStart.value > now then renewalStart
      else
        var floor := if last.Some? then CheckedAdd(last.value, ATTEMPT_FLOOR) else None;
        if floor.Some? && floor.value > now then floor else Some(now)
    }
  }

  function Install(expiresAt: nat, s: Sample): Schedule {
    Schedule(FromWall(expiresAt, RENEWAL_WINDOW, s), FromWall(expiresAt, 0, s))
  }

  function RatchetEarlier(sch: Schedule, expiresAt: nat, s: Sample): Schedule {
    Schedule(Ratchet(sch.renewalStart, FromWall(expiresAt, RENEWAL_WINDOW, s)),
             Ratchet(sch.maxDeadline, FromWall(expiresAt, 0, s)))
  }

  // ------------------------------------------------------------ deadlines are minima

  /** None is later than every instant. */
  predicate NotAfter(a: Deadline, b: Deadline) {
    b.None? || (a.Some? && a.value <= b.value)
  }

  /** The schedule after an install and any further samples. */
  function Scheduled(expiresAt: nat, samples: seq<Sample>): Schedule
    requires samples != []
  {
    if |samples| == 1 then Install(expiresAt, samples[0])
    else RatchetEarlier(Scheduled(expiresAt, samples[..|samples| - 1]), expiresAt, samples[|samples| - 1])
  }

  /** `d` is one of the candidates of the samples, and none is earlier. */
  predicate IsEarliest(d: Deadline, expiresAt: nat, lead: nat, samples: seq<Sample>) {
    && (exists i :: 0 <= i < |samples| && d == FromWall(expiresAt, lead, samples[i]))
    && (forall i :: 0 <= i < |samples| ==> NotAfter(d, FromWall(expiresAt, lead, samples[i])))
  }

  lemma RatchetIsEarliest(d: Deadline, expiresAt: nat, lead: nat, samples: seq<Sample>, s: Sample)
    requires IsEarliest(d, expiresAt, lead, samples)
    ensures IsEarliest(Ratchet(d, FromWall(expiresAt, lead, s)), expiresAt, lead, samples + [s])
  {
    hide FromWall;
    var all := samples + [s];
    var d' := Ratchet(d, FromWall(expiresAt, lead, s));
    var i :| 0 <= i < |samples| && d == FromWall(expiresAt, lead, samples[i]);
    assert all[i] == samples[i] && all[|samples|] == s;
    assert d' == FromWall(expiresAt, lead, all[i]) || d' == FromWall(expiresAt, lead, all[|samples|]);
    forall j | 0 <= j < |all| ensures NotAfter(d', FromWall(expiresAt, lead, all[j])) {
      if j < |samples| {
        assert NotAfter(d, FromWall(expiresAt, lead, samples[j]));
      }
    }
  }

  /** The renewal window opens no later than the lease ends, at every sample. */
  lemma LeadIsEarlier(expiresAt: nat, s: Sample)
    ensures NotAfter(FromWall(expiresAt, RENEWAL_WINDOW, s), FromWall(expiresAt, 0, s))
  {
    assert Monus(expiresAt, RENEWAL_WINDOW) * SECOND <= Monus(expiresAt, 0) * SECOND;
  }

  /**
   After an install and any samples, each deadline is the earliest of all its
   candidates, and renewal never starts after the lease deadline.
   */
  lemma {:induction false} DeadlinesAreEarliest(expiresAt: nat, samples: seq<Sample>)
    requires samples != []
    ensures var sch := Scheduled(expiresAt, samples);
            && IsEarliest(sch.renewalStart, expiresAt, RENEWAL_WINDOW, samples)
            && IsEarliest(sch.maxDeadline, expiresAt, 0, samples)
            && NotAfter(sch.renewalStart, sch.maxDeadline)
    decreases |samples|
  {
    hide FromWall;
    if |samples| == 1 {
      LeadIsEarlier(expiresAt, samples[0]);
    } else {
      hide IsEarliest, NotAfter, Ratchet;
      var init, s := samples[..|samples| - 1], samples[|samples| - 1];
      assert samples == init + [s];
      DeadlinesAreEarliest(expiresAt, init);
      LeadIsEarlier(expiresAt, s);
      var sch := Scheduled(expiresAt, init);
      RatchetIsEarliest(sch.renewalStart, expiresAt, RENEWAL_WINDOW, init, s);
      RatchetIsEarliest(sch.maxDeadline, expiresAt, 0, init, s);
      RatchetsInOrder(sch.renewalStart, sch.maxDeadline, FromWall(expiresAt, RENEWAL_WINDOW, s),
                      FromWall(expiresAt, 0, s));
    }
  }

  lemma RatchetsInOrder(a: Deadline, b: Deadline, c: Deadline, d: Deadline)
    requires NotAfter(a, b) && NotAfter(c, d)
    ensures NotAfter(Ratchet(a, c), Ratchet(b, d))
  {
  }

  /**
   A deadline taken from a sample is due exactly once the wall clock, going on from the
   sample, is within `lead` of the expiry; with no wall clock it is due at once.
   */
  lemma DeadlineMeans(expiresAt: nat, lead: nat, s: Sample, t: nat)
    requires s.at <= t <= HORIZON
    ensures Due(FromWall(expiresAt, lead, s), t) <==>
            s.wall.None? || s.wall.value + (t - s.at) >= (expiresAt - lead) * SECOND
  {
    if expiresAt < lead {
      assert (expiresAt - lead) * SECOND <= 0;
    }
  }

  // ------------------------------------------------------------ the supervisor

  /**
   In its select with an attempt time, in an attempt, past the retirement check of
   a renewal but not yet at its exchange, or returned.
   */
  datatype Phase = Idle(attemptAt: Deadline) | Attempting(started: nat) | Committing(successor: nat) | Stopped

  datatype Attempt = Attempt(lease: nat, started: nat)

  /**
   `journalExpiry` is the journal's own atomic; `committed` lists every expiry in
   force so far; `samples` are those taken since the current lease was installed.
   */
  datatype Supervisor = Supervisor(
    schedule: Schedule,
    expiry: nat,
    hasStream: bool,
    nextReconciliation: nat,
    lastAttempt: Deadline,
    poisoned: bool,
    phase: Phase,
    journalExpiry: nat,
    retired: bool,
    clock: nat,
    committed: seq<nat>,
    samples: seq<Sample>,
    attempts: seq<Attempt>)

  function NextReconciliation(at: nat): nat {
    if CheckedAdd(at, RECONCILIATION_INTERVAL).Some? then at + RECONCILIATION_INTERVAL else at
  }

  /** The top of the loop at `now`: retire an expired lease, or wait with an attempt time. */
  function Top(s: Supervisor, now: nat): Supervisor {
    if Due(s.schedule.maxDeadline, now) then s.(retired := true, phase := Stopped, clock := now)
    else s.(phase := Idle(if s.poisoned then None else s.schedule.NextAttemptAt(s.lastAttempt, now)), clock := now)
  }

  function Begin(expiresAt: nat, sample: Sample, now: nat): Supervisor {
    Top(Supervisor(Install(expiresAt, sample), expiresAt, true, NextReconciliation(sample.at), None, false, Stopped,
                   expiresAt, false, sample.at, [expiresAt], [sample], []), now)
  }

  datatype Outcome = Renewed(successor: nat) | Retryable | Terminal

  /**
   What comes back on the control stream: a response whose token and proof verify,
   with whether its nonce could be redeemed, whether its hostname, instance and key
   are this journal's, and the expiry it claims; one that does not verify; or none.
   */
  datatype Reply = Verified(redeemed: bool, samePeer: bool, claimed: nat) | Unusable | Lost

  /** How a renewal ends, for the expiry it was started with. */
  function Renew(reply: Reply, current: nat): Outcome {
    match reply
    case Lost => Terminal
    case Unusable => Retryable
    case Verified(redeemed, samePeer, claimed) =>
      if !redeemed then Retryable
      else if !samePeer then Retryable
      else if claimed <= current then Retryable
      else Renewed(claimed)
  }

  /** Each step says when it happens and when the loop is next at its top. */
  datatype Step =
    | Gone
    | RetiredElsewhere
    | Reconcile(sample: Sample, top: nat)
    | Expire(now: nat)
    | StartAttempt(now: nat)
    | ReconcileInAttempt(sample: Sample, top: nat)
    | EndAttempt(reply: Reply, now: nat)
    | Exchange(sample: Sample, top: nat)
    | TimeOut(now: nat, top: nat)

  predicate Enabled(s: Supervisor, step: Step) {
    match step
    case Gone => s.phase.Idle?
    case RetiredElsewhere => true
    case Reconcile(sample, top) =>
      s.phase.Idle? && s.clock <= sample.at <= top <= HORIZON && s.nextReconciliation <= sample.at
    case Expire(now) => s.phase.Idle? && s.clock <= now <= HORIZON && Due(s.schedule.maxDeadline, now)
    case StartAttempt(now) => s.phase.Idle? && !s.poisoned && s.clock <= now <= HORIZON && Due(s.phase.attemptAt, now)
    case ReconcileInAttempt(sample, top) =>
      s.phase.Attempting? && s.clock <= sample.at <= top <= HORIZON && s.nextReconciliation <= sample.at
    case EndAttempt(_, now) => s.phase.Attempting? && s.clock <= now <= HORIZON
    case Exchange(sample, top) => s.phase.Committing? && s.clock <= sample.at <= top <= HORIZON
    case TimeOut(now, top) =>
      && s.phase.Attempting? && s.clock <= now <= top <= HORIZON
      && Due(Earlier(CheckedAdd(s.phase.started, ATTEMPT_TIMEOUT), s.schedule.maxDeadline), now)
  }

  function Resample(s: Supervisor, sample: Sample): Supervisor {
    s.(schedule := RatchetEarlier(s.schedule, s.expiry, sample), nextReconciliation := NextReconciliation(sample.at),
       clock := sample.at, samples := s.samples + [sample])
  }

  function Poison(s: Supervisor): Supervisor {
    s.(hasStream := false, poisoned := true)
  }

  /** A renewal commits by compare-exchange on the journal's expiry, then installs a new lease. */
  function Commit(s: Supervisor, successor: nat, sample: Sample): Supervisor {
    if s.journalExpiry != s.expiry then Poison(s)
    else s.(expiry := successor, journalExpiry := successor, schedule := Install(successor, sample),
            nextReconciliation := NextReconciliation(sample.at), clock := sample.at,
            committed := s.committed + [successor], samples := [sample])
  }

  function Next(s: Supervisor, step: Step): Supervisor {
    if !Enabled(s, step) then s
    else
      match step
      case Gone => s.(phase := Stopped)
      case RetiredElsewhere => s.(retired := true)
      case Reconcile(sample, top) => Top(Resample(s, sample), top)
      case Expire(now) => s.(retired := true, phase := Stopped, clock := now)
      case StartAttempt(now) =>
        var s' := s.(lastAttempt := Some(now), clock := now);
        if !s.hasStream then Top(s'.(poisoned := true), now)
        else s'.(phase := Attempting(now), attempts := s.attempts + [Attempt(|s.committed|, now)])
      case ReconcileInAttempt(sample, top) =>
        var s' := Resample(s, sample);
        if Due(s'.schedule.maxDeadline, sample.at) then Top(Poison(s'), top) else s'
      case EndAttempt(reply, now) =>
        (match Renew(reply, s.expiry)
         case Renewed(successor) =>
           if s.retired then Top(Poison(s), now) else s.(phase := Committing(successor), clock := now)
         case Retryable => Top(s, now)
         case Terminal => Top(Poison(s), now))
      case Exchange(sample, top) => Top(Commit(s, s.phase.successor, sample), top)
      case TimeOut(now, top) => Top(Poison(s), top)
  }

  // ------------------------------------------------------------ run invariants

  /** Two attempts of one lease are apart, unless the clock ends before they could be. */
  predicate Apart(a: Attempt, b: Attempt) {
    a.lease == b.lease ==> a.started + ATTEMPT_FLOOR <= b.started || a.started + ATTEMPT_FLOOR > HORIZON
  }

  predicate Spaced(attempts: seq<Attempt>) {
    forall i, j :: 0 <= i < j < |attempts| ==> Apart(attempts[i], attempts[j])
  }

  /** The start of the current lease's last attempt, if it has one. */
  function LeaseAttempt(s: Supervisor): Deadline {
    if s.attempts != [] && s.attempts[|s.attempts| - 1].lease == |s.committed|
    then Some(s.attempts[|s.attempts| - 1].started) else None
  }

  predicate Increasing(expiries: seq<nat>) {
    forall i, j :: 0 <= i < j < |expiries| ==> expiries[i] < expiries[j]
  }

  predicate Committed(s: Supervisor) {
    && s.committed != [] && s.committed[|s.committed| - 1] == s.expiry
    && Increasing(s.committed)
    && s.journalExpiry == s.expiry
    && s.hasStream == !s.poisoned
    && s.samples != [] && s.schedule == Scheduled(s.expiry, s.samples)
  }

  predicate AttemptsInOrder(s: Supervisor) {
    && Spaced(s.attempts)
    && (forall i :: 0 <= i < |s.attempts| ==> s.attempts[i].lease <= |s.committed| && s.attempts[i].started <= s.clock)
    && (forall i, j :: 0 <= i < j < |s.attempts| ==>
          s.attempts[i].lease <= s.attempts[j].lease && s.attempts[i].started <= s.attempts[j].started)
  }

  /** A lease that has been attempted is past its renewal start. */
  predicate Begun(s: Supervisor) {
    var last := LeaseAttempt(s);
    last.Some? ==> s.lastAttempt == last && NotAfter(s.schedule.renewalStart, last)
  }

  /** The time the select waits for keeps the floor. */
  predicate Waiting(s: Supervisor) {
    var last := LeaseAttempt(s);
    && (s.phase.Idle? && s.phase.attemptAt.Some? ==>
          && NotAfter(s.schedule.renewalStart, s.phase.attemptAt)
          && (last.Some? && last.value + ATTEMPT_FLOOR <= HORIZON ==>
                last.value + ATTEMPT_FLOOR <= s.phase.attemptAt.value))
  }

  predicate Inv(s: Supervisor) {
    && Committed(s) && AttemptsInOrder(s) && Begun(s) && Waiting(s) && s.clock <= HORIZON
    && (s.phase.Committing? ==> s.phase.successor > s.expiry)
    && (s.poisoned ==> s.phase.Idle? || s.phase.Stopped?)
  }

  lemma TopKeeps(s: Supervisor, now: nat)
    requires Committed(s) && AttemptsInOrder(s) && s.clock <= now <= HORIZON
    requires Begun(s)
    ensures Inv(Top(s, now))
  {
    hide Scheduled, Increasing, Spaced;
    var s' := Top(s, now);
    assert LeaseAttempt(s') == LeaseAttempt(s);
    assert LeaseAttempt(s).Some? ==> LeaseAttempt(s).value <= s.clock;
  }

  lemma ResampleKeeps(s: Supervisor, sample: Sample)
    requires Inv(s) && s.clock <= sample.at <= HORIZON
    ensures var s' := Resample(s, sample);
            && Committed(s') && AttemptsInOrder(s') && s'.clock <= HORIZON
            && Begun(s') && LeaseAttempt(s') == LeaseAttempt(s)
            && s'.clock == sample.at && s'.phase == s.phase && s'.poisoned == s.poisoned
  {
    hide Increasing, Spaced, FromWall;
    assert (s.samples + [sample])[..|s.samples|] == s.samples;
  }

  lemma StartKeeps(s: Supervisor, now: nat)
    requires Inv(s) && Enabled(s, StartAttempt(now))
    ensures Inv(Next(s, StartAttempt(now)))
  {
    hide Scheduled, Increasing;
    var s' := Next(s, StartAttempt(now));
    var a := Attempt(|s.committed|, now);
    forall i | 0 <= i < |s.attempts| ensures Apart(s.attempts[i], a) {
      var last := s.attempts[|s.attempts| - 1];
      if s.attempts[i].lease == a.lease {
        assert last.lease == a.lease && LeaseAttempt(s) == Some(last.started);
        if i < |s.attempts| - 1 {
          assert Apart(s.attempts[i], last);
        }
      }
    }
    assert s'.attempts == s.attempts + [a];
    assert s'.attempts[|s'.attempts| - 1] == a;
  }

  lemma CommitKeeps(s: Supervisor, successor: nat, sample: Sample)
    requires Inv(s) && successor > s.expiry && s.clock <= sample.at <= HORIZON
    ensures var s' := Commit(s, successor, sample);
            && Committed(s') && AttemptsInOrder(s') && s'.clock <= sample.at
            && Begun(s')
  {
    hide Spaced, FromWall;
    var s' := Commit(s, successor, sample);
    assert s'.schedule == Scheduled(successor, [sample]);
    assert LeaseAttempt(s').None?;
  }

  lemma PoisonKeeps(s: Supervisor)
    requires Committed(s) && AttemptsInOrder(s) && Begun(s)
    ensures Committed(Poison(s)) && AttemptsInOrder(Poison(s)) && Begun(Poison(s))
  {
  }

  /** Leaving the select, being retired and letting time pass keep everything. */
  lemma QuietKeeps(s: Supervisor, s': Supervisor)
    requires Inv(s) && s.clock <= s'.clock <= HORIZON && (s'.phase == s.phase || !s'.phase.Idle?)
    requires s' == s.(phase := s'.phase, retired := s'.retired, clock := s'.clock)
    requires s'.phase.Committing? ==> s'.phase.successor > s.expiry && !s.poisoned
    requires s'.phase == s.phase || s'.phase.Committing? || s'.phase.Stopped?
    ensures Inv(s')
  {
  }

  lemma NextKeeps(s: Supervisor, step: Step)
    requires Inv(s)
    ensures Inv(Next(s, step))
  {
    hide Committed, AttemptsInOrder, Begun, Waiting, Top, Resample, Commit, Install, Poison;
    if Enabled(s, step) {
      match step
      case Gone => QuietKeeps(s, Next(s, step));
      case RetiredElsewhere => QuietKeeps(s, Next(s, step));
      case Reconcile(sample, top) => ResampleKeeps(s, sample); TopKeeps(Resample(s, sample), top);
      case Expire(now) => QuietKeeps(s, Next(s, step));
      case StartAttempt(now) => StartKeeps(s, now);
      case ReconcileInAttempt(sample, top) =>
        ResampleKeeps(s, sample);
        InAttemptKeeps(Resample(s, sample));
        PoisonKeeps(Resample(s, sample));
        PoisonClock(Resample(s, sample));
        TopKeeps(Poison(Resample(s, sample)), top);
      case EndAttempt(reply, now) =>
        PoisonKeeps(s);
        PoisonClock(s);
        TopKeeps(s, now);
        TopKeeps(Poison(s), now);
        if Renew(reply, s.expiry).Renewed? {
          QuietKeeps(s, s.(phase := Committing(Renew(reply, s.expiry).successor), clock := now));
        }
      case Exchange(sample, top) =>
        CommitKeeps(s, s.phase.successor, sample);
        TopKeeps(Commit(s, s.phase.successor, sample), top);
      case TimeOut(now, top) => PoisonKeeps(s); PoisonClock(s); TopKeeps(Poison(s), top);
    }
  }

  lemma PoisonClock(s: Supervisor)
    ensures Poison(s).clock == s.clock
  {
  }

  /** In an attempt nothing waits for an attempt time. */
  lemma InAttemptKeeps(s: Supervisor)
    requires Committed(s) && AttemptsInOrder(s) && Begun(s) && s.clock <= HORIZON && s.phase.Attempting? && !s.poisoned
    ensures Inv(s)
  {
  }

  function Run(s: Supervisor, steps: seq<Step>): Supervisor
    decreases |steps|
  {
    if steps == [] then s else Run(Next(s, steps[0]), steps[1..])
  }

  lemma {:induction false} RunKeeps(s: Supervisor, steps: seq<Step>)
    requires Inv(s)
    ensures Inv(Run(s, steps))
    decreases |steps|
  {
    hide Inv, Next;
    if steps != [] {
      NextKeeps(s, steps[0]);
      RunKeeps(Next(s, steps[0]), steps[1..]);
    }
  }

  lemma BeginKeeps(expiresAt: nat, sample: Sample, now: nat)
    requires sample.at <= now <= HORIZON
    ensures Inv(Begin(expiresAt, sample, now))
  {
    hide FromWall;
    var s := Supervisor(Install(expiresAt, sample), expiresAt, true, NextReconciliation(sample.at), None, false,
                        Stopped, expiresAt, false, sample.at, [expiresAt], [sample], []);
    assert Scheduled(expiresAt, [sample]) == Install(expiresAt, sample);
    TopKeeps(s, now);
  }

  /**
   Over every supervisor run: committed expiries strictly increase and the journal
   holds the last one; attempts of one lease start at least fifteen seconds apart
   (unless the clock ends first); and both deadlines are the earliest candidates of
   all samples since the lease was installed, renewal first.
   */
  lemma EverySupervisorRun(expiresAt: nat, sample: Sample, now: nat, steps: seq<Step>)
    requires sample.at <= now <= HORIZON
    ensures var s := Run(Begin(expiresAt, sample, now), steps);
            && s.committed != [] && Increasing(s.committed)
            && s.journalExpiry == s.expiry == s.committed[|s.committed| - 1]
            && Spaced(s.attempts)
            && s.samples != []
            && IsEarliest(s.schedule.renewalStart, s.expiry, RENEWAL_WINDOW, s.samples)
            && IsEarliest(s.schedule.maxDeadline, s.expiry, 0, s.samples)
            && NotAfter(s.schedule.renewalStart, s.schedule.maxDeadline)
  {
    hide Begin, Next, Increasing, Spaced, IsEarliest, Scheduled;
    BeginKeeps(expiresAt, sample, now);
    RunKeeps(Begin(expiresAt, sample, now), steps);
    var s := Run(Begin(expiresAt, sample, now), steps);
    DeadlinesAreEarliest(s.expiry, s.samples);
  }

  lemma PoisonedStep(s: Supervisor, step: Step)
    requires Inv(s) && s.poisoned
    ensures var s' := Next(s, step);
            s'.poisoned && s'.attempts == s.attempts && s'.committed == s.committed && (s.retired ==> s'.retired)
  {
    hide Committed, AttemptsInOrder, Begun, Waiting, Install, RatchetEarlier, NextReconciliation;
  }

  /** Once poisoned, the lease is never attempted or renewed again; only its end is left. */
  lemma {:induction false} PoisonIsFinal(s: Supervisor, steps: seq<Step>)
    requires Inv(s) && s.poisoned
    ensures var s' := Run(s, steps);
            s'.poisoned && s'.attempts == s.attempts && s'.committed == s.committed && (s.retired ==> s'.retired)
    decreases |steps|
  {
    hide Inv, Next;
    if steps != [] {
      PoisonedStep(s, steps[0]);
      NextKeeps(s, steps[0]);
      PoisonIsFinal(Next(s, steps[0]), steps[1..]);
    }
  }

  // ------------------------------------------------------------ renewal and retirement

  /** Coming back to the top of the loop settles nothing about the lease. */
  lemma TopShape(s: Supervisor, now: nat)
    ensures var s' := Top(s, now);
            && s'.committed == s.committed && s'.journalExpiry == s.journalExpiry && (s.retired ==> s'.retired)
            && (s'.phase.Idle? || s'.phase.Stopped?)
  {
  }

  /** What a step does to a retired journal's lease. */
  lemma RetiredStep(s: Supervisor, step: Step)
    requires s.retired
    ensures var s' := Next(s, step);
            && s'.retired
            && (if s'.committed == s.committed
                then s'.journalExpiry == s.journalExpiry && (s'.phase.Committing? ==> s.phase.Committing?)
                else s.phase.Committing? && !s'.phase.Committing? && |s'.committed| == |s.committed| + 1)
  {
    hide Top, Install, RatchetEarlier, NextReconciliation;
    forall t: Supervisor, now: nat { TopShape(t, now); }
  }

  /** A retired journal gets at most the one lease whose renewal is past its check. */
  lemma {:induction false} RetiredIsNotRenewed(s: Supervisor, steps: seq<Step>)
    requires s.retired
    ensures var s' := Run(s, steps);
            && s'.retired && |s'.committed| <= |s.committed| + (if s.phase.Committing? then 1 else 0)
            && (!s.phase.Committing? ==> s'.committed == s.committed && s'.journalExpiry == s.journalExpiry)
    decreases |steps|
  {
    hide Next;
    if steps != [] {
      RetiredStep(s, steps[0]);
      RetiredIsNotRenewed(Next(s, steps[0]), steps[1..]);
    }
  }

  /** Some continuation changes the journal's expiry. */
  ghost predicate MayStillRenew(s: Supervisor) {
    exists steps :: Run(s, steps).journalExpiry != s.journalExpiry
  }

  lemma ExchangeRenews(s: Supervisor)
    requires Inv(s) && s.phase.Committing?
    ensures Next(s, Exchange(Sample(None, s.clock), s.clock)).journalExpiry == s.phase.successor > s.journalExpiry
  {
    hide FromWall, Scheduled, Increasing, Spaced;
  }

  /**
   A retired journal's expiry changes in some continuation exactly when a renewal
   is past its retirement check, and by at most that one.
   */
  lemma RenewalAfterRetirement(s: Supervisor)
    requires Inv(s) && s.retired
    ensures s.phase.Committing? <==> MayStillRenew(s)
    ensures forall steps :: |Run(s, steps).committed| <= |s.committed| + 1
  {
    hide Inv, Next;
    forall steps
      ensures |Run(s, steps).committed| <= |s.committed| + 1
      ensures !s.phase.Committing? ==> Run(s, steps).journalExpiry == s.journalExpiry
    {
      RetiredIsNotRenewed(s, steps);
    }
    if s.phase.Committing? {
      ExchangeRenews(s);
      var steps := [Exchange(Sample(None, s.clock), s.clock)];
      assert steps[1..] == [] && Run(s, steps) == Run(Next(s, steps[0]), steps[1..]) == Next(s, steps[0]);
    }
  }

  /** The journal is retired between a renewal's check and its exchange. */
  predicate Interrupts(s: Supervisor, step: Step) {
    step.RetiredElsewhere? && s.phase.Committing? && !s.retired
  }

  predicate EverInterrupted(s: Supervisor, steps: seq<Step>)
    decreases |steps|
  {
    steps != [] && (Interrupts(s, steps[0]) || EverInterrupted(Next(s, steps[0]), steps[1..]))
  }

  lemma UninterruptedStep(s: Supervisor, step: Step)
    requires !(s.retired && s.phase.Committing?) && !Interrupts(s, step)
    ensures var s' := Next(s, step);
            && !(s'.retired && s'.phase.Committing?)
            && (s.retired ==> s'.retired && s'.committed == s.committed)
  {
    hide Top, Install, RatchetEarlier, NextReconciliation;
    forall t: Supervisor, now: nat { TopShape(t, now); }
  }

  /**
   With nothing between check and exchange, as on a single-threaded runtime, a
   retired journal is never renewed, on any run.
   */
  lemma {:induction false} UninterruptedIsNotRenewed(s: Supervisor, steps: seq<Step>)
    requires !(s.retired && s.phase.Committing?) && !EverInterrupted(s, steps)
    ensures var s' := Run(s, steps);
            !(s'.retired && s'.phase.Committing?) && (s.retired ==> s'.retired && s'.committed == s.committed)
    decreases |steps|
  {
    hide Next, Interrupts;
    if steps != [] {
      UninterruptedStep(s, steps[0]);
      UninterruptedIsNotRenewed(Next(s, steps[0]), steps[1..]);
    }
  }

  lemma RunFirst(s: Supervisor, step: Step, rest: seq<Step>)
    ensures Run(s, [step] + rest) == Run(Next(s, step), rest)
    ensures rest == [] ==> Run(s, [step] + rest) == Next(s, step)
  {
    assert ([step] + rest)[1..] == rest;
  }

  /** A supervisor whose lease of ten seconds has just begun, and its renewal to twenty. */
  lemma LateRenewalStates()
    ensures var sample := Sample(Some(0), 0);
            var s1 := Next(Begin(10, sample, 0), StartAttempt(0));
            var s2 := Next(s1, EndAttempt(Verified(true, true, 20), 0));
            var s3 := Next(s2, RetiredElsewhere);
            var s4 := Next(s3, Exchange(sample, 0));
            && Interrupts(s2, RetiredElsewhere)
            && s3.retired && s3.journalExpiry == 10 && s4.retired && s4.journalExpiry == 20
  {
    var sample := Sample(Some(0), 0);
    var s := Begin(10, sample, 0);
    assert s.schedule == Schedule(Some(0), Some(10 * SECOND));
    assert s.phase == Idle(Some(0)) && !s.poisoned && s.hasStream;
    var s1 := Next(s, StartAttempt(0));
    assert s1.phase == Attempting(0) && s1.expiry == 10 && s1.journalExpiry == 10 && s1.clock == 0;
    RetiredExchange(Next(s1, EndAttempt(Verified(true, true, 20), 0)), sample);
  }

  lemma RetiredExchange(s: Supervisor, sample: Sample)
    requires s.phase.Committing? && s.journalExpiry == s.expiry && s.clock <= sample.at <= HORIZON
    ensures var s' := Next(s, RetiredElsewhere);
            && s' == s.(retired := true)
            && Next(s', Exchange(sample, sample.at)).retired
            && Next(s', Exchange(sample, sample.at)).journalExpiry == s.phase.successor
  {
    hide Install, NextReconciliation;
  }

  /** A retirement between check and exchange leaves a retired journal renewed. */
  lemma OneRenewalCanBeLate()
    ensures var sample := Sample(Some(0), 0);
            var end := EndAttempt(Verified(true, true, 20), 0);
            var s := Run(Begin(10, sample, 0), [StartAttempt(0), end, RetiredElsewhere, Exchange(sample, 0)]);
            s.retired && s.journalExpiry == 20
  {
    hide Run, Next, Begin;
    var sample := Sample(Some(0), 0);
    LateRenewalStates();
    var end := EndAttempt(Verified(true, true, 20), 0);
    var last := [Exchange(sample, 0)] + [];
    var third := [RetiredElsewhere] + last;
    var second := [end] + third;
    assert [StartAttempt(0), end, RetiredElsewhere, Exchange(sample, 0)] == [StartAttempt(0)] + second;
    var s := Begin(10, sample, 0);
    var s1 := Next(s, StartAttempt(0));
    var s2 := Next(s1, end);
    RunFirst(s, StartAttempt(0), second);
    RunFirst(s1, end, third);
    RunFirst(s2, RetiredElsewhere, last);
    RunFirst(Next(s2, RetiredElsewhere), Exchange(sample, 0), []);
  }

  // ------------------------------------------------------------ the schedule in place

  class LeaseSchedule {
    var renewalStart: Deadline
    var maxDeadline: Deadline

    ghost function Value(): Schedule
      reads this
    {
      Schedule(renewalStart, maxDeadline)
    }

    constructor (expiresAt: nat, s: Sample)
      ensures Value() == Scheduled(expiresAt, [s])
    {
      renewalStart := FromWall(expiresAt, RENEWAL_WINDOW, s);
      maxDeadline := FromWall(expiresAt, 0, s);
    }

    /** Deadlines only move earlier. */
    method RatchetEarlier(expiresAt: nat, s: Sample, ghost samples: seq<Sample>)
      requires samples != [] && Value() == Scheduled(expiresAt, samples)
      modifies this
      ensures Value() == Scheduled(expiresAt, samples + [s])
      ensures NotAfter(renewalStart, old(renewalStart)) && NotAfter(maxDeadline, old(maxDeadline))
    {
      hide FromWall;
      assert (samples + [s])[..|samples|] == samples;
      var start := FromWall(expiresAt, RENEWAL_WINDOW, s);
      if start.Some? && (renewalStart.None? || start.value < renewalStart.value) {
        renewalStart := start;
      }
      var end := FromWall(expiresAt, 0, s);
      if end.Some? && (maxDeadline.None? || end.value < maxDeadline.value) {
        maxDeadline := end;
      }
    }
  }
}
