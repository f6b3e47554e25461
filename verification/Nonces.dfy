/**
 The proof-of-possession nonce cache. A nonce is issued once, redeemed at most
 once per issue, and not issued again while its redemption is retained. Clocks
 and random draws are parameters and may be anything.
 */
module Nonces {
  import opened Outcomes
  import opened Wire

  const OUTSTANDING_LIMIT: nat := 256
  const SPENT_LIMIT: nat := 4096
  const ATTEMPTS: nat := 8

  type Nonce = Bytes

  datatype PopError = OutstandingCapacity | SpentCapacity | CollisionExhausted | Randomness | Replay

  /** Expiry by nonce, for nonces awaiting redemption and for redeemed ones. */
  datatype Cache = Cache(outstanding: map<Nonce, nat>, spent: map<Nonce, nat>)

  /** The `k`-th random draw; None is a failing random source. */
  type Draws = nat -> Option<Nonce>

  function Unexpired(m: map<Nonce, nat>, now: nat): map<Nonce, nat> {
    map n | n in m && m[n] > now :: m[n]
  }

  function Prune(c: Cache, now: nat): Cache {
    Cache(Unexpired(c.outstanding, now), Unexpired(c.spent, now))
  }

  /** The first draw not already in use, within the attempts allowed. */
  function Pick(c: Cache, next: Draws, k: nat): Result<Nonce, PopError>
    requires k <= ATTEMPTS
    decreases ATTEMPTS - k
  {
    if k == ATTEMPTS then Err(CollisionExhausted)
    else match next(k)
         case None => Err(Randomness)
         case Some(n) => if n in c.outstanding || n in c.spent then Pick(c, next, k + 1) else Ok(n)
  }

  function Issue(c: Cache, now: nat, expiresAt: nat, next: Draws): (Cache, Result<Nonce, PopError>) {
    var p := Prune(c, now);
    if |p.outstanding| >= OUTSTANDING_LIMIT then (p, Err(OutstandingCapacity))
    else match Pick(p, next, 0)
         case Err(e) => (p, Err(e))
         case Ok(n) => (p.(outstanding := p.outstanding[n := expiresAt]), Ok(n))
  }

  /** Redemption with a check on the expiry it was issued with, retained until `retain`. */
  function Redeem(c: Cache, n: Nonce, check: nat, retain: nat, now: nat): (Cache, Option<PopError>) {
    var p := Prune(c, now);
    if n !in p.outstanding || p.outstanding[n] != check then (p, Some(Replay))
    else if |p.spent| >= SPENT_LIMIT then (p, Some(SpentCapacity))
    else (Cache(p.outstanding - {n}, p.spent[n := retain]), None)
  }

  function Forget(c: Cache, n: Nonce): Cache {
    c.(outstanding := c.outstanding - {n})
  }

  predicate Valid(c: Cache) {
    && |c.outstanding| <= OUTSTANDING_LIMIT
    && |c.spent| <= SPENT_LIMIT
    && c.outstanding.Keys !! c.spent.Keys
  }

  // ------------------------------------------------------------ sizes

  lemma SubmapSize(a: map<Nonce, nat>, b: map<Nonce, nat>)
    requires a.Keys <= b.Keys
    ensures |a| <= |b|
  {
    assert b.Keys == a.Keys + (b.Keys - a.Keys);
    assert |a| == |a.Keys| && |b| == |b.Keys|;
  }

  lemma InsertSize(m: map<Nonce, nat>, n: Nonce, v: nat)
    ensures |m[n := v]| <= |m| + 1
  {
    var m' := m[n := v];
    assert m'.Keys == m.Keys + {n};
    assert |m'| == |m'.Keys| && |m| == |m.Keys|;
  }

  lemma PruneValid(c: Cache, now: nat)
    requires Valid(c)
    ensures Valid(Prune(c, now))
  {
    SubmapSize(Unexpired(c.outstanding, now), c.outstanding);
    SubmapSize(Unexpired(c.spent, now), c.spent);
  }

  lemma {:induction false} PickIsFresh(c: Cache, next: Draws, k: nat)
    requires k <= ATTEMPTS
    ensures Pick(c, next, k).Ok? ==> Pick(c, next, k).value !in c.outstanding && Pick(c, next, k).value !in c.spent
    decreases ATTEMPTS - k
  {
    if k < ATTEMPTS {
      PickIsFresh(c, next, k + 1);
    }
  }

  lemma IssueValid(c: Cache, now: nat, expiresAt: nat, next: Draws)
    requires Valid(c)
    ensures Valid(Issue(c, now, expiresAt, next).0)
  {
    PruneValid(c, now);
    var p := Prune(c, now);
    PickIsFresh(p, next, 0);
    if Pick(p, next, 0).Ok? {
      InsertSize(p.outstanding, Pick(p, next, 0).value, expiresAt);
    }
  }

  lemma RedeemValid(c: Cache, n: Nonce, check: nat, retain: nat, now: nat)
    requires Valid(c)
    ensures Valid(Redeem(c, n, check, retain, now).0)
  {
    PruneValid(c, now);
    var p := Prune(c, now);
    InsertSize(p.spent, n, retain);
    SubmapSize(p.outstanding - {n}, p.outstanding);
  }

  // ------------------------------------------------------------ outcomes

  predicate InUse(c: Cache, n: Option<Nonce>) {
    n.Some? && (n.value in c.outstanding || n.value in c.spent)
  }

  /** The first of eight draws that is not a nonce in use. */
  predicate FirstFree(c: Cache, next: Draws, k: nat) {
    k < ATTEMPTS && !InUse(c, next(k)) && forall j :: 0 <= j < k ==> InUse(c, next(j))
  }

  lemma {:induction false} PickIsFirst(c: Cache, next: Draws, k: nat) returns (i: nat)
    requires k <= ATTEMPTS && forall j :: 0 <= j < k ==> InUse(c, next(j))
    ensures k <= i <= ATTEMPTS
    ensures i < ATTEMPTS ==>
              && FirstFree(c, next, i)
              && Pick(c, next, k) == if next(i).Some? then Ok(next(i).value) else Err(Randomness)
    ensures i == ATTEMPTS ==>
              Pick(c, next, k) == Err(CollisionExhausted) && forall j :: 0 <= j < ATTEMPTS ==> InUse(c, next(j))
    decreases ATTEMPTS - k
  {
    if k == ATTEMPTS || !InUse(c, next(k)) {
      i := k;
    } else {
      i := PickIsFirst(c, next, k + 1);
    }
  }

  /**
   Issuing is decided: with 256 unexpired nonces outstanding it is refused; else the
   first of eight draws that is not in use is issued with its expiry, a failing source
   before that is reported, and so are eight collisions. Nothing else changes.
   */
  lemma IssueIsDecided(c: Cache, now: nat, expiresAt: nat, next: Draws) returns (i: nat)
    ensures var p := Prune(c, now);
            var (c', r) := Issue(c, now, expiresAt, next);
            && (r == Err(OutstandingCapacity) <==> |p.outstanding| >= 256)
            && (|p.outstanding| < 256 ==>
                  if i == 8 then r == Err(CollisionExhausted) && forall j :: 0 <= j < 8 ==> InUse(p, next(j))
                  else FirstFree(p, next, i) && r == if next(i).Some? then Ok(next(i).value) else Err(Randomness))
            && c' == if r.Ok? then Cache(p.outstanding[r.value := expiresAt], p.spent) else p
  {
    i := PickIsFirst(Prune(c, now), next, 0);
  }

  /**
   Redemption is decided: it succeeds exactly for an outstanding nonce given with the
   expiry it was issued with, before that expiry, with room among the spent; only
   room makes the other refusal. A nonce redeemed is spent, and no longer outstanding.
   */
  lemma RedeemIsDecided(c: Cache, n: Nonce, check: nat, retain: nat, now: nat)
    ensures var live := n in c.outstanding && c.outstanding[n] == check && now < check;
            var full := |Prune(c, now).spent| >= 4096;
            var (c', error) := Redeem(c, n, check, retain, now);
            && (error.None? <==> live && !full)
            && (error == Some(SpentCapacity) <==> live && full)
            && (error == Some(Replay) <==> !live)
            && (error.None? ==> n !in c'.outstanding && n in c'.spent && c'.spent[n] == retain)
            && (forall k :: k in c'.outstanding <==>
                  k in c.outstanding && now < c.outstanding[k] && !(k == n && error.None?))
  {
    var p := Prune(c, now);
    assert n in p.outstanding <==> n in c.outstanding && now < c.outstanding[n];
  }

  // ------------------------------------------------------------ leases and runs

  /** A lease on an issued nonce, until it is redeemed or dropped. */
  datatype Lease = Lease(nonce: Nonce, armed: bool, held: bool)

  datatype Event =
    | Pruned(now: nat)
    | Issued(nonce: Nonce)
    | Redeemed(nonce: Nonce, retain: nat)
    | Dropped(nonce: Nonce)

  datatype World = World(cache: Cache, leases: seq<Lease>, log: seq<Event>)

  const START := World(Cache(map[], map[]), [], [])

  datatype Action =
    | DoIssue(now: nat, expiresAt: nat, next: Draws)
    | DoRedeem(lease: nat, check: nat, now: nat)
    | DoRenew(lease: nat, check: nat, retain: nat, now: nat)
    | DoDrop(lease: nat)
    | DoPrune(now: nat)

  /** Redemption through a lease, which is disarmed by success. */
  function LeaseRedeem(w: World, i: nat, check: nat, retain: nat, now: nat): World {
    if i >= |w.leases| || !w.leases[i].held || !w.leases[i].armed then w
    else
      var n := w.leases[i].nonce;
      var (c, error) := Redeem(w.cache, n, check, retain, now);
      if error.Some? then World(c, w.leases, w.log + [Pruned(now)])
      else World(c, w.leases[i := w.leases[i].(armed := false)], w.log + [Pruned(now), Redeemed(n, retain)])
  }

  function Next(w: World, a: Action): World {
    match a
    case DoIssue(now, expiresAt, next) =>
      (var (c, r) := Issue(w.cache, now, expiresAt, next);
       match r
       case Err(_) => World(c, w.leases, w.log + [Pruned(now)])
       case Ok(n) => World(c, w.leases + [Lease(n, true, true)], w.log + [Pruned(now), Issued(n)]))
    case DoRedeem(i, check, now) => LeaseRedeem(w, i, check, check, now)
    case DoRenew(i, check, retain, now) => LeaseRedeem(w, i, check, retain, now)
    case DoDrop(i) =>
      if i >= |w.leases| || !w.leases[i].held then w
      else
        var lease := w.leases[i];
        var leases := w.leases[i := lease.(held := false)];
        if lease.armed then World(Forget(w.cache, lease.nonce), leases, w.log + [Dropped(lease.nonce)])
        else w.(leases := leases)
    case DoPrune(now) => World(Prune(w.cache, now), w.leases, w.log + [Pruned(now)])
  }

  // ------------------------------------------------------------ the log tells the cache

  /** What the log retains of a nonce's last redemption. */
  function Retained(log: seq<Event>, n: Nonce): Option<nat> {
    if log == [] then None
    else
      var before := Retained(log[..|log| - 1], n);
      match log[|log| - 1]
      case Redeemed(k, retain) => if k == n then Some(retain) else before
      case Pruned(now) => if before.Some? && before.value <= now then None else before
      case _ => before
  }

  /** The log issues a nonce and has neither redeemed nor dropped it since. */
  predicate Open(log: seq<Event>, n: Nonce) {
    log != [] &&
    match log[|log| - 1]
    case Issued(k) => k == n || Open(log[..|log| - 1], n)
    case Redeemed(k, _) => k != n && Open(log[..|log| - 1], n)
    case Dropped(k) => k != n && Open(log[..|log| - 1], n)
    case Pruned(_) => Open(log[..|log| - 1], n)
  }

  lemma Told(log: seq<Event>, e: Event, n: Nonce)
    ensures Retained(log + [e], n) ==
            var before := Retained(log, n);
            match e
            case Redeemed(k, retain) => if k == n then Some(retain) else before
            case Pruned(now) => if before.Some? && before.value <= now then None else before
            case _ => before
    ensures Open(log + [e], n) <==>
            match e
            case Issued(k) => k == n || Open(log, n)
            case Redeemed(k, _) => k != n && Open(log, n)
            case Dropped(k) => k != n && Open(log, n)
            case Pruned(_) => Open(log, n)
  {
    assert (log + [e])[..|log|] == log;
  }

  /** Redemptions in the log come while open, issues while nothing is retained. */
  predicate Lawful(log: seq<Event>) {
    log == [] || (
      && Lawful(log[..|log| - 1])
      && match log[|log| - 1]
         case Redeemed(n, _) => Open(log[..|log| - 1], n) && Retained(log[..|log| - 1], n).None?
         case Issued(n) => Retained(log[..|log| - 1], n).None?
         case _ => true)
  }

  lemma LawfulAppend(log: seq<Event>, e: Event)
    requires Lawful(log)
    requires e.Redeemed? ==> Open(log, e.nonce) && Retained(log, e.nonce).None?
    requires e.Issued? ==> Retained(log, e.nonce).None?
    ensures Lawful(log + [e])
  {
    assert (log + [e])[..|log|] == log;
  }

  predicate Tells(c: Cache, log: seq<Event>, n: Nonce) {
    && (n in c.spent <==> Retained(log, n).Some?)
    && (n in c.spent ==> Retained(log, n) == Some(c.spent[n]))
    && (n in c.outstanding ==> Open(log, n))
  }

  ghost predicate Inv(w: World) {
    && Valid(w.cache)
    && Lawful(w.log)
    && forall n: Nonce :: Tells(w.cache, w.log, n)
  }

  lemma PruneKeeps(w: World, now: nat)
    requires Inv(w)
    ensures Inv(World(Prune(w.cache, now), w.leases, w.log + [Pruned(now)]))
  {
    hide Retained, Open, Lawful;
    PruneValid(w.cache, now);
    LawfulAppend(w.log, Pruned(now));
    forall n: Nonce ensures Tells(Prune(w.cache, now), w.log + [Pruned(now)], n) {
      assert Tells(w.cache, w.log, n);
      Told(w.log, Pruned(now), n);
    }
  }

  lemma IssueKeeps(w: World, now: nat, expiresAt: nat, next: Draws)
    requires Inv(w)
    ensures Inv(Next(w, DoIssue(now, expiresAt, next)))
  {
    hide Retained, Open, Lawful, Valid, Pick, Prune;
    PruneKeeps(w, now);
    IssueValid(w.cache, now, expiresAt, next);
    var p := Prune(w.cache, now);
    var log := w.log + [Pruned(now)];
    var (c, r) := Issue(w.cache, now, expiresAt, next);
    if r.Ok? {
      var n := r.value;
      PickIsFresh(p, next, 0);
      assert Tells(p, log, n);
      LawfulAppend(log, Issued(n));
      assert w.log + [Pruned(now), Issued(n)] == log + [Issued(n)];
      forall k: Nonce ensures Tells(c, log + [Issued(n)], k) {
        assert Tells(p, log, k);
        Told(log, Issued(n), k);
      }
    }
  }

  lemma Disjoint(c: Cache, n: Nonce)
    requires Valid(c) && n in c.outstanding
    ensures n !in c.spent
  {
    assert n in c.outstanding.Keys;
  }

  lemma RedeemKeeps(w: World, i: nat, check: nat, retain: nat, now: nat)
    requires Inv(w)
    ensures Inv(LeaseRedeem(w, i, check, retain, now))
  {
    hide Retained, Open, Lawful, Valid, Prune;
    if i < |w.leases| && w.leases[i].held && w.leases[i].armed {
      var n := w.leases[i].nonce;
      PruneKeeps(w, now);
      RedeemValid(w.cache, n, check, retain, now);
      var p := Prune(w.cache, now);
      var log := w.log + [Pruned(now)];
      var (c, error) := Redeem(w.cache, n, check, retain, now);
      if error.None? {
        assert Tells(p, log, n);
        Disjoint(p, n);
        LawfulAppend(log, Redeemed(n, retain));
        assert w.log + [Pruned(now), Redeemed(n, retain)] == log + [Redeemed(n, retain)];
        forall k: Nonce ensures Tells(c, log + [Redeemed(n, retain)], k) {
          assert Tells(p, log, k);
          Told(log, Redeemed(n, retain), k);
        }
      }
    }
  }

  lemma ForgetValid(c: Cache, n: Nonce)
    requires Valid(c)
    ensures Valid(Forget(c, n))
  {
    SubmapSize(c.outstanding - {n}, c.outstanding);
  }

  lemma DropKeeps(w: World, i: nat)
    requires Inv(w)
    ensures Inv(Next(w, DoDrop(i)))
  {
    hide Retained, Open, Lawful, Valid;
    if i < |w.leases| && w.leases[i].held && w.leases[i].armed {
      var n := w.leases[i].nonce;
      ForgetValid(w.cache, n);
      LawfulAppend(w.log, Dropped(n));
      forall k: Nonce ensures Tells(Forget(w.cache, n), w.log + [Dropped(n)], k) {
        assert Tells(w.cache, w.log, k);
        Told(w.log, Dropped(n), k);
      }
    }
  }

  lemma NextKeeps(w: World, a: Action)
    requires Inv(w)
    ensures Inv(Next(w, a))
  {
    hide Inv, Issue, LeaseRedeem, Prune;
    match a
    case DoIssue(now, expiresAt, next) => IssueKeeps(w, now, expiresAt, next);
    case DoRedeem(i, check, now) => RedeemKeeps(w, i, check, check, now);
    case DoRenew(i, check, retain, now) => RedeemKeeps(w, i, check, retain, now);
    case DoDrop(i) => DropKeeps(w, i);
    case DoPrune(now) => PruneKeeps(w, now);
  }

  function Run(w: World, actions: seq<Action>): World
    decreases |actions|
  {
    if actions == [] then w else Run(Next(w, actions[0]), actions[1..])
  }

  lemma {:induction false} RunKeeps(w: World, actions: seq<Action>)
    requires Inv(w)
    ensures Inv(Run(w, actions))
    decreases |actions|
  {
    hide Inv, Next;
    if actions != [] {
      NextKeeps(w, actions[0]);
      RunKeeps(Next(w, actions[0]), actions[1..]);
    }
  }

  // ------------------------------------------------------------ single use

  /** An open nonce was issued after every redemption of it. */
  lemma {:induction false} OpenWasIssued(log: seq<Event>, n: Nonce, i: nat) returns (k: nat)
    requires Open(log, n) && i < |log| && log[i].Redeemed? && log[i].nonce == n
    ensures i < k < |log| && log[k] == Issued(n)
    decreases |log|
  {
    var init, e := log[..|log| - 1], log[|log| - 1];
    if e == Issued(n) {
      k := |log| - 1;
    } else {
      k := OpenWasIssued(init, n, i);
    }
  }

  /** A redemption is retained until a prune at or past its retention time. */
  lemma {:induction false} ForgottenWasPruned(log: seq<Event>, n: Nonce, i: nat) returns (m: nat)
    requires Lawful(log) && Retained(log, n).None? && i < |log| && log[i].Redeemed? && log[i].nonce == n
    ensures i < m < |log| && log[m].Pruned? && log[m].now >= log[i].retain
    decreases |log|
  {
    m := PrunedOrKept(log, n, i);
    if m == |log| {
      assert false;
    }
  }

  /** Either some prune passed its retention time, or the log still retains it. */
  lemma {:induction false} PrunedOrKept(log: seq<Event>, n: Nonce, i: nat) returns (m: nat)
    requires Lawful(log) && i < |log| && log[i].Redeemed? && log[i].nonce == n
    ensures i < m <= |log|
    ensures if m < |log| then log[m].Pruned? && log[m].now >= log[i].retain else Retained(log, n) == Some(log[i].retain)
    decreases |log|
  {
    var init, e := log[..|log| - 1], log[|log| - 1];
    if i == |log| - 1 {
      m := |log|;
    } else {
      m := PrunedOrKept(init, n, i);
      if m == |init| && !(e.Pruned? && e.now >= log[i].retain) {
        m := |log|;
      }
    }
  }

  lemma {:induction false} LawfulPrefix(log: seq<Event>, j: nat)
    requires Lawful(log) && j < |log|
    ensures Lawful(log[..j])
    ensures log[j].Redeemed? ==> Open(log[..j], log[j].nonce)
    ensures log[j].Issued? ==> Retained(log[..j], log[j].nonce).None?
    decreases |log|
  {
    if j < |log| - 1 {
      LawfulPrefix(log[..|log| - 1], j);
      assert log[..|log| - 1][..j] == log[..j];
    }
  }

  /**
   Single use: between two successful redemptions of one nonce, the nonce is issued
   again, and before that issue a prune happens at or past the retention time of
   the first redemption.
   */
  lemma RedeemedOnce(actions: seq<Action>, i: nat, j: nat) returns (m: nat, k: nat)
    requires var log := Run(START, actions).log;
             && i < j < |log| && log[i].Redeemed? && log[j].Redeemed? && log[i].nonce == log[j].nonce
    ensures var log := Run(START, actions).log;
            && i < m < k < j
            && log[m].Pruned? && log[m].now >= log[i].retain
            && log[k] == Issued(log[i].nonce)
  {
    var log := Run(START, actions).log;
    var n := log[i].nonce;
    RunKeeps(START, actions);
    LawfulPrefix(log, j);
    k := OpenWasIssued(log[..j], n, i);
    LawfulPrefix(log, k);
    m := ForgottenWasPruned(log[..k], n, i);
  }

  /** Over every run the sets stay disjoint and within their limits. */
  lemma EveryRunIsBounded(actions: seq<Action>)
    ensures Valid(Run(START, actions).cache)
  {
    RunKeeps(START, actions);
  }

  /** An action that may end an outstanding nonce: its expiry, or its own armed lease. */
  predicate Touches(w: World, a: Action, n: Nonce) {
    n in w.cache.outstanding && (
      || (!a.DoDrop? && w.cache.outstanding[n] <= a.now)
      || ((a.DoDrop? || a.DoRedeem? || a.DoRenew?) && a.lease < |w.leases| && w.leases[a.lease].nonce == n
          && w.leases[a.lease].held && w.leases[a.lease].armed))
  }

  predicate EverTouches(w: World, actions: seq<Action>, n: Nonce)
    decreases |actions|
  {
    actions != [] && (Touches(w, actions[0], n) || EverTouches(Next(w, actions[0]), actions[1..], n))
  }

  /** Entries leave only by redemption, lease drop or expiry. */
  lemma EntriesLeave(w: World, a: Action, n: Nonce)
    requires n in w.cache.outstanding && !Touches(w, a, n)
    ensures n in Next(w, a).cache.outstanding && Next(w, a).cache.outstanding[n] == w.cache.outstanding[n]
  {
    hide Pick;
    if a.DoIssue? {
      PickIsFresh(Prune(w.cache, a.now), a.next, 0);
    }
  }

  /**
   Over every run: an issued nonce stays outstanding, with the expiry it was issued
   with, until a clock reaches that expiry or its own armed lease is redeemed or
   dropped. Then its redemption succeeds if the spent set has room.
   */
  lemma {:induction false} IssuedStaysRedeemable(w: World, actions: seq<Action>, n: Nonce, retain: nat, now: nat)
    requires n in w.cache.outstanding && !EverTouches(w, actions, n)
    ensures var c := Run(w, actions).cache;
            && n in c.outstanding && c.outstanding[n] == w.cache.outstanding[n]
            && (now < c.outstanding[n] && |Prune(c, now).spent| < SPENT_LIMIT ==>
                  Redeem(c, n, w.cache.outstanding[n], retain, now).1.None?)
    decreases |actions|
  {
    hide Next, Touches;
    if actions != [] {
      EntriesLeave(w, actions[0], n);
      IssuedStaysRedeemable(Next(w, actions[0]), actions[1..], n, retain, now);
    }
  }

  /** A spent nonce that has not expired survives a prune and cannot be redeemed. */
  lemma SpentSurvives(c: Cache, n: Nonce, k: Nonce, check: nat, retain: nat, now: nat)
    requires n in c.spent && n !in c.outstanding && now < c.spent[n]
    ensures n in Prune(c, now).spent && Prune(c, now).spent[n] == c.spent[n]
    ensures n in Redeem(c, k, check, retain, now).0.spent && Redeem(c, k, check, retain, now).0.spent[n] == c.spent[n]
  {
  }

  lemma IssueSpends(c: Cache, now: nat, expiresAt: nat, next: Draws)
    ensures Issue(c, now, expiresAt, next).0.spent == Prune(c, now).spent
  {
  }

  lemma SpentStep(w: World, a: Action, n: Nonce)
    requires n in w.cache.spent && n !in w.cache.outstanding && (a.DoDrop? || a.now < w.cache.spent[n])
    ensures n in Next(w, a).cache.spent && Next(w, a).cache.spent[n] == w.cache.spent[n]
  {
    hide Issue, Redeem, Prune;
    match a
    case DoIssue(now, expiresAt, next) =>
      IssueSpends(w.cache, now, expiresAt, next);
      SpentSurvives(w.cache, n, [], 0, 0, now);
    case DoRedeem(i, check, now) => SpentSurvives(w.cache, n, NonceOf(w, i), check, check, now);
    case DoRenew(i, check, retain, now) => SpentSurvives(w.cache, n, NonceOf(w, i), check, retain, now);
    case DoDrop(i) =>
    case DoPrune(now) => SpentSurvives(w.cache, n, [], 0, 0, now);
  }

  function NonceOf(w: World, i: nat): Nonce {
    if i < |w.leases| then w.leases[i].nonce else []
  }

  /**
   Over every run: a redeemed nonce is remembered, with the retention it was redeemed
   with, however long the run goes on with clocks that have not reached it.
   */
  lemma {:induction false} SpentIsRetained(w: World, actions: seq<Action>, n: Nonce)
    requires Inv(w) && n in w.cache.spent
    requires forall i :: 0 <= i < |actions| ==> actions[i].DoDrop? || actions[i].now < w.cache.spent[n]
    ensures n in Run(w, actions).cache.spent && Run(w, actions).cache.spent[n] == w.cache.spent[n]
    decreases |actions|
  {
    hide Next;
    if actions != [] {
      SpentStep(w, actions[0], n);
      NextKeeps(w, actions[0]);
      forall i | 0 <= i < |actions[1..]| ensures actions[1..][i] == actions[i + 1] {}
      SpentIsRetained(Next(w, actions[0]), actions[1..], n);
    }
  }

  /** A lease that was redeemed or dropped. */
  predicate Finished(w: World, i: nat) {
    i < |w.leases| && !(w.leases[i].armed && w.leases[i].held)
  }

  lemma FinishedStep(w: World, a: Action, i: nat)
    requires Finished(w, i)
    ensures Finished(Next(w, a), i)
    ensures (a.DoRedeem? || a.DoRenew?) && a.lease == i ==> Next(w, a) == w
  {
    hide Issue, Redeem;
  }

  /** Whether redeeming through a lease succeeds. */
  predicate Redeems(w: World, a: Action, i: nat) {
    && (a.DoRedeem? || a.DoRenew?) && a.lease == i && i < |w.leases| && w.leases[i].held && w.leases[i].armed
    && Redeem(w.cache, w.leases[i].nonce, a.check, if a.DoRenew? then a.retain else a.check, a.now).1.None?
  }

  /**
   A lease redeems at most once: after a success it is finished, whatever happens
   next, and every later redemption through it changes nothing.
   */
  lemma {:induction false} LeaseRedeemsOnce(w: World, a: Action, i: nat, actions: seq<Action>, again: Action)
    requires Redeems(w, a, i) || Finished(w, i)
    ensures Finished(Next(w, a), i)
    ensures var w' := Run(Next(w, a), actions);
            && Finished(w', i) && !Redeems(w', again, i)
            && ((again.DoRedeem? || again.DoRenew?) && again.lease == i ==> Next(w', again) == w')
    decreases |actions|
  {
    hide Issue, Redeem;
    if Finished(w, i) {
      FinishedStep(w, a, i);
    }
    var w1 := Next(w, a);
    if actions == [] {
      FinishedStep(w1, again, i);
    } else {
      LeaseRedeemsOnce(w1, actions[0], i, actions[1..], again);
    }
  }
}
