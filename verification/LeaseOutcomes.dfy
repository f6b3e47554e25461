/**
 What the lease supervisor owes its journal, over every run: it stops only for a
 journal that is gone or retired, it is never idle past its deadline, it waits for
 the earliest instant an attempt is allowed, and it commits exactly what a verified
 reply claims.
 */
module LeaseOutcomes {
  import opened Outcomes
  import opened Lease

  // ------------------------------------------------------------ waiting

  /** An attempt is allowed once renewal has started and, if it had by `now`, the floor has passed. */
  predicate Allowed(s: Supervisor, now: nat, t: nat) {
    && now <= t && s.schedule.renewalStart.Some? && s.schedule.renewalStart.value <= t
    && (s.schedule.renewalStart.value <= now && s.lastAttempt.Some? ==>
          var floor := s.lastAttempt.value + ATTEMPT_FLOOR;
          floor <= HORIZON ==> floor <= t)
  }

  predicate IsFirstAllowed(s: Supervisor, now: nat, at: Deadline) {
    && (at.None? <==> s.poisoned || s.schedule.renewalStart.None?)
    && (at.Some? ==> Allowed(s, now, at.value) && forall t: nat :: Allowed(s, now, t) ==> at.value <= t)
  }

  predicate Timely(s: Supervisor, gone: bool) {
    && (s.phase.Idle? ==>
          !Due(s.schedule.maxDeadline, s.clock) && IsFirstAllowed(s, s.clock, s.phase.attemptAt))
    && (s.phase.Stopped? ==> s.retired || gone)
  }

  lemma TopIsTimely(s: Supervisor, now: nat, gone: bool)
    ensures Timely(Top(s, now), gone)
  {
    var s' := Top(s, now);
    if s'.phase.Idle? && s'.phase.attemptAt.Some? {
      assert Allowed(s', now, s'.phase.attemptAt.value);
    }
  }

  lemma StepIsTimely(s: Supervisor, step: Step, gone: bool)
    requires Timely(s, gone)
    ensures Timely(Next(s, step), gone || step == Gone)
  {
    hide Top, Install, RatchetEarlier, NextReconciliation, IsFirstAllowed;
    if Enabled(s, step) {
      match step
      case Gone =>
      case RetiredElsewhere => SameWait(s, s.(retired := true));
      case Reconcile(sample, top) => TopIsTimely(Resample(s, sample), top, gone);
      case Expire(now) =>
      case StartAttempt(now) => TopIsTimely(s.(lastAttempt := Some(now), clock := now, poisoned := true), now, gone);
      case ReconcileInAttempt(sample, top) => TopIsTimely(Poison(Resample(s, sample)), top, gone);
      case EndAttempt(reply, now) => TopIsTimely(s, now, gone); TopIsTimely(Poison(s), now, gone);
      case Exchange(sample, top) => TopIsTimely(Commit(s, s.phase.successor, sample), top, gone);
      case TimeOut(now, top) => TopIsTimely(Poison(s), top, gone);
    }
  }

  lemma SameWait(s: Supervisor, s': Supervisor)
    requires s' == s.(retired := true)
    ensures s.phase.Idle? ==>
              (IsFirstAllowed(s', s.clock, s.phase.attemptAt) <==> IsFirstAllowed(s, s.clock, s.phase.attemptAt))
  {
    assert forall t: nat :: Allowed(s', s.clock, t) <==> Allowed(s, s.clock, t);
  }

  lemma {:induction false} RunIsTimely(s: Supervisor, steps: seq<Step>, gone: bool)
    requires Timely(s, gone)
    ensures Timely(Run(s, steps), gone || Gone in steps)
    decreases |steps|
  {
    hide Next, Timely;
    if steps != [] {
      StepIsTimely(s, steps[0], gone);
      RunIsTimely(Next(s, steps[0]), steps[1..], gone || steps[0] == Gone);
    }
  }

  /**
   Over every run: a supervisor has stopped only if its journal is retired or its
   carrier was gone; while it waits its lease has not ended; and it waits for the
   earliest instant at which an attempt is allowed, for none exactly if the lease is
   poisoned or renewal never starts. If the lease ends while it waits, the journal is
   retired.
   */
  lemma LeaseEndsInTime(expiresAt: nat, sample: Sample, now: nat, steps: seq<Step>, later: nat)
    ensures var s := Run(Begin(expiresAt, sample, now), steps);
            && (s.phase.Stopped? ==> s.retired || Gone in steps)
            && (s.phase.Idle? ==>
                  && !Due(s.schedule.maxDeadline, s.clock)
                  && IsFirstAllowed(s, s.clock, s.phase.attemptAt)
                  && (s.clock <= later <= HORIZON && Due(s.schedule.maxDeadline, later) ==>
                        Next(s, Expire(later)).retired && Next(s, Expire(later)).phase == Stopped))
  {
    hide Run, Top, IsFirstAllowed;
    var start := Supervisor(Install(expiresAt, sample), expiresAt, true, NextReconciliation(sample.at), None, false,
                            Stopped, expiresAt, false, sample.at, [expiresAt], [sample], []);
    TopIsTimely(start, now, false);
    RunIsTimely(Begin(expiresAt, sample, now), steps, false);
  }

  // ------------------------------------------------------------ what replies do

  /** A reply a renewal may be committed on. */
  predicate Renews(reply: Reply, current: nat) {
    reply.Verified? && reply.redeemed && reply.samePeer && reply.claimed > current
  }

  /**
   After every run, for any reply to an attempt: a verified, redeemed reply of the
   same peer that claims a later expiry is carried to its exchange, and a journal
   retired by then poisons the lease instead; a lost stream poisons it too; any other
   reply leaves the lease to be attempted again, with its schedule and stream.
   */
  lemma RepliesAreDecided(expiresAt: nat, sample: Sample, now: nat, steps: seq<Step>, reply: Reply, at: nat)
    requires sample.at <= now <= HORIZON
    requires var s := Run(Begin(expiresAt, sample, now), steps); s.phase.Attempting? && s.clock <= at <= HORIZON
    ensures var s := Run(Begin(expiresAt, sample, now), steps);
            var s' := Next(s, EndAttempt(reply, at));
            && (s'.phase.Committing? <==> Renews(reply, s.expiry) && !s.retired)
            && (s'.phase.Committing? ==> s'.phase.successor == reply.claimed)
            && (s'.poisoned <==> reply.Lost? || (Renews(reply, s.expiry) && s.retired))
            && s'.hasStream == !s'.poisoned
            && s'.schedule == s.schedule && s'.committed == s.committed && s'.journalExpiry == s.journalExpiry
  {
    hide Run, Begin;
    BeginKeeps(expiresAt, sample, now);
    RunKeeps(Begin(expiresAt, sample, now), steps);
  }

  /** An exchange commits what was claimed, and starts the new lease from its sample. */
  lemma ExchangeCommits(expiresAt: nat, sample: Sample, now: nat, steps: seq<Step>, again: Sample, top: nat)
    requires sample.at <= now <= HORIZON
    requires var s := Run(Begin(expiresAt, sample, now), steps);
             s.phase.Committing? && s.clock <= again.at <= top <= HORIZON
    ensures var s := Run(Begin(expiresAt, sample, now), steps);
            var s' := Next(s, Exchange(again, top));
            && s'.expiry == s'.journalExpiry == s.phase.successor && s'.committed == s.committed + [s.phase.successor]
            && s'.samples == [again] && !s'.poisoned
  {
    hide Run, Begin;
    BeginKeeps(expiresAt, sample, now);
    RunKeeps(Begin(expiresAt, sample, now), steps);
  }

  // ------------------------------------------------------------ where expiries come from

  predicate Claims(step: Step, expiry: nat) {
    step.EndAttempt? && step.reply.Verified? && step.reply.redeemed && step.reply.samePeer
    && step.reply.claimed == expiry
  }

  predicate Claimed(steps: seq<Step>, expiry: nat) {
    exists i :: 0 <= i < |steps| && Claims(steps[i], expiry)
  }

  /** All that was committed after the first, and what is about to be. */
  predicate Sourced(s: Supervisor, steps: seq<Step>) {
    && s.committed != []
    && (forall i :: 0 < i < |s.committed| ==> Claimed(steps, s.committed[i]))
    && (s.phase.Committing? ==> Claimed(steps, s.phase.successor))
  }

  lemma ClaimedMore(steps: seq<Step>, step: Step, expiry: nat)
    ensures Claimed(steps, expiry) || Claims(step, expiry) ==> Claimed(steps + [step], expiry)
  {
    var all := steps + [step];
    if Claimed(steps, expiry) {
      var i :| 0 <= i < |steps| && Claims(steps[i], expiry);
      assert Claims(all[i], expiry);
    }
    if Claims(step, expiry) {
      assert Claims(all[|steps|], expiry);
    }
  }

  lemma SourcedStep(s: Supervisor, steps: seq<Step>, step: Step)
    requires Sourced(s, steps)
    ensures Sourced(Next(s, step), steps + [step])
  {
    hide Top, Install, RatchetEarlier, NextReconciliation, Claimed;
    forall e: nat { ClaimedMore(steps, step, e); }
    forall t: Supervisor, now: nat { TopShape(t, now); }
  }

  lemma {:induction false} RunSourced(s: Supervisor, before: seq<Step>, steps: seq<Step>)
    requires Sourced(s, before)
    ensures Sourced(Run(s, steps), before + steps)
    decreases |steps|
  {
    hide Next, Sourced;
    if steps == [] {
      assert before + steps == before;
    } else {
      SourcedStep(s, before, steps[0]);
      RunSourced(Next(s, steps[0]), before + [steps[0]], steps[1..]);
      assert before + [steps[0]] + steps[1..] == before + steps;
    }
  }

  /** Over every run, every expiry committed after the first was claimed by a verified reply of this peer. */
  lemma ExpiriesAreClaimed(expiresAt: nat, sample: Sample, now: nat, steps: seq<Step>, i: nat)
    ensures var s := Run(Begin(expiresAt, sample, now), steps);
            && s.committed != [] && s.committed[0] == expiresAt
            && (0 < i < |s.committed| ==> Claimed(steps, s.committed[i]))
  {
    hide Next, Install, NextReconciliation;
    var s := Begin(expiresAt, sample, now);
    RunSourced(s, [], steps);
    assert [] + steps == steps;
    FirstStays(s, steps);
  }

  lemma {:induction false} FirstStays(s: Supervisor, steps: seq<Step>)
    requires s.committed != []
    ensures var s' := Run(s, steps);
            s'.committed != [] && s'.committed[0] == s.committed[0]
    decreases |steps|
  {
    hide Next;
    if steps != [] {
      FirstStep(s, steps[0]);
      FirstStays(Next(s, steps[0]), steps[1..]);
    }
  }

  lemma FirstStep(s: Supervisor, step: Step)
    requires s.committed != []
    ensures var s' := Next(s, step);
            s'.committed != [] && s'.committed[0] == s.committed[0]
  {
    hide Top, Install, RatchetEarlier, NextReconciliation;
    forall t: Supervisor, now: nat { TopShape(t, now); }
  }

  // ------------------------------------------------------------ samples and timeouts

  /** The next sample is due a second after the last, unless the clock ends first. */
  predicate Paced(s: Supervisor) {
    && s.samples != []
    && (var last := s.samples[|s.samples| - 1].at;
        s.nextReconciliation == (if last + SECOND <= HORIZON then last + SECOND else last))
    && forall i :: 0 <= i < |s.samples| - 1 ==>
         s.samples[i].at + SECOND <= s.samples[i + 1].at || s.samples[i].at + SECOND > HORIZON
  }

  /** Only samples and when the next is due matter. */
  lemma SamePace(s: Supervisor, s': Supervisor)
    requires Paced(s) && s'.samples == s.samples && s'.nextReconciliation == s.nextReconciliation
    ensures Paced(s')
  {
  }

  lemma ResamplePaced(s: Supervisor, sample: Sample)
    requires Paced(s) && s.nextReconciliation <= sample.at
    ensures Paced(Resample(s, sample))
  {
    hide RatchetEarlier;
    var all := s.samples + [sample];
    forall i | 0 <= i < |all| - 1 ensures all[i].at + SECOND <= all[i + 1].at || all[i].at + SECOND > HORIZON {
      assert all[i] == s.samples[i];
    }
  }

  lemma CommitPaced(s: Supervisor, successor: nat, sample: Sample)
    requires Paced(s)
    ensures Paced(Commit(s, successor, sample))
  {
    hide Install;
  }

  lemma TopSamples(s: Supervisor, now: nat)
    ensures Top(s, now).samples == s.samples && Top(s, now).nextReconciliation == s.nextReconciliation
  {
  }

  lemma PacedStep(s: Supervisor, step: Step)
    requires Paced(s)
    ensures Paced(Next(s, step))
  {
    hide Paced, Top, Resample, Commit;
    if Enabled(s, step) {
      match step
      case Reconcile(sample, top) =>
        ResamplePaced(s, sample);
        TopSamples(Resample(s, sample), top);
        SamePace(Resample(s, sample), Next(s, step));
      case ReconcileInAttempt(sample, top) =>
        ResamplePaced(s, sample);
        TopSamples(Poison(Resample(s, sample)), top);
        SamePace(Resample(s, sample), Next(s, step));
      case Exchange(sample, top) =>
        CommitPaced(s, s.phase.successor, sample);
        TopSamples(Commit(s, s.phase.successor, sample), top);
        SamePace(Commit(s, s.phase.successor, sample), Next(s, step));
      case StartAttempt(now) =>
        TopSamples(s.(lastAttempt := Some(now), clock := now, poisoned := true), now);
        SamePace(s, Next(s, step));
      case EndAttempt(reply, now) =>
        TopSamples(s, now);
        TopSamples(Poison(s), now);
        SamePace(s, Next(s, step));
      case TimeOut(now, top) =>
        TopSamples(Poison(s), top);
        SamePace(s, Next(s, step));
      case _ => SamePace(s, Next(s, step));
    }
  }

  lemma {:induction false} RunPaced(s: Supervisor, steps: seq<Step>)
    requires Paced(s)
    ensures Paced(Run(s, steps))
    decreases |steps|
  {
    hide Next, Paced;
    if steps != [] {
      PacedStep(s, steps[0]);
      RunPaced(Next(s, steps[0]), steps[1..]);
    }
  }

  /**
   Over every run the clocks are sampled at least a second apart, and during a wait or
   an attempt a sample is taken as soon as a second has passed: never earlier.
   */
  lemma SampledEverySecond(expiresAt: nat, sample: Sample, now: nat, steps: seq<Step>, next: Sample, top: nat)
    requires sample.at <= now <= HORIZON
    ensures var s := Run(Begin(expiresAt, sample, now), steps);
            var due := s.samples != [] && s.clock <= next.at <= top <= HORIZON
                       && s.samples[|s.samples| - 1].at + SECOND <= next.at;
            && Paced(s)
            && (s.phase.Idle? && due ==> Next(s, Reconcile(next, top)).samples == s.samples + [next])
            && (s.phase.Attempting? && due ==> Next(s, ReconcileInAttempt(next, top)).samples == s.samples + [next])
  {
    hide Run, Install, RatchetEarlier;
    RunPaced(Begin(expiresAt, sample, now), steps);
  }

  /**
   How an attempt is cut short, after every run: a sample that shows the lease over
   poisons it, any other only moves the deadlines earlier; and it times out, poisoned,
   exactly from ten seconds after its start or the end of the lease.
   */
  lemma AttemptsAreCutShort(expiresAt: nat, sample: Sample, now: nat, steps: seq<Step>, next: Sample, at: nat, top: nat)
    requires sample.at <= now <= HORIZON
    requires var s := Run(Begin(expiresAt, sample, now), steps);
             s.phase.Attempting? && s.clock <= at <= top <= HORIZON
             && next.at == at && s.nextReconciliation <= at
    ensures var s := Run(Begin(expiresAt, sample, now), steps);
            var over := Due(RatchetEarlier(s.schedule, s.expiry, next).maxDeadline, at);
            var s1, s2 := Next(s, ReconcileInAttempt(next, top)), Next(s, TimeOut(at, top));
            && (s1.poisoned <==> over) && (s1.phase == s.phase <==> !over)
            && s1.schedule == RatchetEarlier(s.schedule, s.expiry, next)
            && (s2.poisoned <==> s.phase.started + 10 * SECOND <= at || Due(s.schedule.maxDeadline, at))
            && (s2 == s <==> !s2.poisoned)
  {
    hide Run, Begin, RatchetEarlier;
    BeginKeeps(expiresAt, sample, now);
    RunKeeps(Begin(expiresAt, sample, now), steps);
  }
}
