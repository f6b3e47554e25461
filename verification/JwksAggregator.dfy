/**
 The key-set aggregator as it runs, proved against the functions of Jwks.
 */
module JwksAggregating {
  import opened Outcomes
  import opened Jwks

  class JwksAggregator<Key> {
    const choose: Chooser<Key>
    var cache: Cache<Key>
    var waiters: Option<seq<Request>>
    var lastStart: Option<nat>
    var closed: bool

    ghost function Value(): Aggregator<Key>
      reads this
    {
      Aggregator(cache, waiters, lastStart, closed)
    }

    constructor (choose: Chooser<Key>)
      ensures Value() == Start<Key>().a && this.choose == choose
    {
      this.choose := choose;
      cache := map[];
      waiters := None;
      lastStart := None;
      closed := false;
    }

    /** One request: answered from the cache, joined, refused, or the start of a fetch. */
    method Receive(r: Request, now: nat) returns (reply: Option<Reply<Key>>)
      modifies this
      ensures (Value(), reply) == OnRequest(old(Value()), r, now)
    {
      cache := map k | k in cache && cache[k].expiresAt > now :: cache[k];
      reply := None;
      if r.kid in cache {
        reply := Some(Reply(r.id, Ok(cache[r.kid]), now));
      } else if waiters.Some? {
        waiters := Some(waiters.value + [r]);
      } else if lastStart.Some? && now >= lastStart.value && now - lastStart.value < FETCH_GAP {
        reply := Some(Reply(r.id, Err(KeyUnavailable), now));
      } else {
        lastStart := Some(now);
        waiters := Some([r]);
      }
    }

    /** Keys are inserted one by one, each making room by evicting an earliest expiry. */
    method InsertKeys(keys: seq<(Kid, Key)>, expiresAt: nat)
      modifies this`cache
      ensures cache == Insert(choose, old(cache), keys, expiresAt)
    {
      var i := 0;
      while i < |keys|
        invariant 0 <= i <= |keys|
        invariant cache == Insert(choose, old(cache), keys[..i], expiresAt)
      {
        assert keys[..i + 1][..i] == keys[..i];
        var (kid, key) := keys[i];
        if kid !in cache && |cache| >= CACHE_LIMIT {
          cache := cache - {choose(cache)};
        }
        cache := cache[kid := Entry(key, expiresAt)];
        i := i + 1;
      }
      assert keys[..i] == keys;
    }

    /** The fetch in flight completes and every waiter is answered, in order. */
    method Complete(fetched: Option<seq<(Kid, Key)>>, now: nat) returns (replies: seq<Reply<Key>>)
      requires waiters.Some?
      modifies this
      ensures (Value(), replies) == OnFetch(choose, old(Value()), fetched, now)
    {
      hide Insert;
      var waiting := waiters.value;
      waiters := None;
      if fetched.Some? {
        cache := map k | k in cache && cache[k].expiresAt > now :: cache[k];
        assert cache == Prune(old(cache), now);
        InsertKeys(fetched.value, now + TTL);
      }
      replies := [];
      var i := 0;
      while i < |waiting|
        invariant 0 <= i <= |waiting|
        invariant replies == (if fetched.Some? then Answers(cache, waiting[..i], now) else Failures(waiting[..i], now))
      {
        var r := waiting[i];
        if fetched.Some? {
          replies := replies + [Lookup(cache, r, now)];
        } else {
          replies := replies + [Reply(r.id, Err(KeySetUnavailable), now)];
        }
        i := i + 1;
      }
      assert waiting[..i] == waiting;
    }
  }
}
