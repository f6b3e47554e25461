/**
 The nonce cache and its leases as they run, proved against the functions of
 Nonces. A lease shares the cache and gives its nonce back when dropped armed.
 */
module NonceCaching {
  import opened Outcomes
  import opened Nonces

  class NonceCache {
    var outstanding: map<Nonce, nat>
    var spent: map<Nonce, nat>

    ghost function Value(): Cache
      reads this
    {
      Cache(outstanding, spent)
    }

    constructor ()
      ensures Value() == START.cache && Valid(Value())
    {
      outstanding := map[];
      spent := map[];
    }

    method Sweep(now: nat)
      modifies this
      ensures Value() == Prune(old(Value()), now)
    {
      outstanding := map n | n in outstanding && outstanding[n] > now :: outstanding[n];
      spent := map n | n in spent && spent[n] > now :: spent[n];
    }

    method IssueWith(now: nat, expiresAt: nat, next: Draws) returns (r: Result<Nonce, PopError>)
      requires Valid(Value())
      modifies this
      ensures Valid(Value())
      ensures (Value(), r) == Issue(old(Value()), now, expiresAt, next)
    {
      hide Valid, Pick, Prune;
      IssueValid(Value(), now, expiresAt, next);
      Sweep(now);
      if |outstanding| >= OUTSTANDING_LIMIT {
        return Err(OutstandingCapacity);
      }
      r := Draw(next);
      if r.Ok? {
        outstanding := outstanding[r.value := expiresAt];
      }
    }

    /** Draw until a nonce is new to the cache, at most eight times. */
    method Draw(next: Draws) returns (r: Result<Nonce, PopError>)
      ensures r == Pick(Value(), next, 0)
    {
      hide Pick;
      var k := 0;
      while k < ATTEMPTS
        invariant 0 <= k <= ATTEMPTS
        invariant Pick(Value(), next, 0) == Pick(Value(), next, k)
      {
        PickStep(Value(), next, k);
        var nonce := next(k);
        if nonce.None? {
          return Err(Randomness);
        }
        if nonce.value !in outstanding && nonce.value !in spent {
          return Ok(nonce.value);
        }
        k := k + 1;
      }
      PickEnds(Value(), next);
      return Err(CollisionExhausted);
    }

    /** A renewal is retained until the renewed expiry, a first redemption until its own. */
    method RedeemUntil(nonce: Nonce, check: nat, retain: nat, now: nat) returns (error: Option<PopError>)
      requires Valid(Value())
      modifies this
      ensures Valid(Value())
      ensures (Value(), error) == Redeem(old(Value()), nonce, check, retain, now)
    {
      RedeemValid(Value(), nonce, check, retain, now);
      Sweep(now);
      if nonce !in outstanding || outstanding[nonce] != check {
        return Some(Replay);
      }
      if |spent| >= SPENT_LIMIT {
        return Some(SpentCapacity);
      }
      outstanding := outstanding - {nonce};
      spent := spent[nonce := retain];
      return None;
    }
  }

  lemma PickStep(c: Cache, next: Draws, k: nat)
    requires k < ATTEMPTS
    ensures Pick(c, next, k) ==
            match next(k)
            case None => Err(Randomness)
            case Some(n) => if n in c.outstanding || n in c.spent then Pick(c, next, k + 1) else Ok(n)
  {
  }

  lemma PickEnds(c: Cache, next: Draws)
    ensures Pick(c, next, ATTEMPTS) == Err(CollisionExhausted)
  {
  }

  class NonceLease {
    const cache: NonceCache
    const nonce: Nonce
    var armed: bool

    constructor (cache: NonceCache, nonce: Nonce)
      ensures this.cache == cache && this.nonce == nonce && armed
    {
      this.cache := cache;
      this.nonce := nonce;
      armed := true;
    }

    /** The world seen through one lease. */
    ghost function Alone(): World
      reads this, cache
    {
      World(cache.Value(), [Lease(nonce, armed, true)], [])
    }

    method RedeemUntil(check: nat, retain: nat, now: nat) returns (error: Option<PopError>)
      requires Valid(cache.Value())
      modifies this, cache
      ensures Valid(cache.Value())
      ensures Alone().(log := []) == LeaseRedeem(old(Alone()), 0, check, retain, now).(log := [])
      ensures error.None? <==> old(armed) && !armed
    {
      if !armed {
        return Some(Replay);
      }
      error := cache.RedeemUntil(nonce, check, retain, now);
      if error.None? {
        armed := false;
      }
    }

    /** What dropping the lease does. */
    method Drop()
      modifies cache
      ensures cache.Value() == if armed then Forget(old(cache.Value()), nonce) else old(cache.Value())
    {
      if armed {
        cache.outstanding := cache.outstanding - {nonce};
      }
    }
  }
}
