/**
 What the key-set aggregator answers: a fetched key is handed to everyone who waits
 for it and to everyone who asks within its lifetime, and a refusal is given only
 when there is no key and no fetch to wait for.
 */
module JwksAnswers {
  import opened Outcomes
  import opened Jwks

  // ------------------------------------------------------------ the cache keeps what was fetched

  /** A fetched set: no identifier twice, and it fits the cache. */
  predicate Distinct<Key>(keys: seq<(Kid, Key)>) {
    |keys| <= CACHE_LIMIT && forall i, j :: 0 <= i < j < |keys| ==> keys[i].0 != keys[j].0
  }

  function Kids<Key>(keys: seq<(Kid, Key)>): set<Kid> {
    set i | 0 <= i < |keys| :: keys[i].0
  }

  lemma {:induction false} KidsSize<Key>(keys: seq<(Kid, Key)>)
    ensures |Kids(keys)| <= |keys|
    decreases |keys|
  {
    if keys == [] {
      assert Kids(keys) == {};
    } else {
      var init := keys[..|keys| - 1];
      KidsSize(init);
      assert Kids(keys) == Kids(init) + {keys[|keys| - 1].0};
    }
  }

  /** Every key of the first `n` is cached until `e`, and nothing else lasts that long. */
  predicate Retains<Key(==)>(cache: Cache<Key>, keys: seq<(Kid, Key)>, n: nat, e: nat)
    requires n <= |keys|
  {
    && |cache| <= CACHE_LIMIT
    && (forall i :: 0 <= i < n ==> keys[i].0 in cache && cache[keys[i].0] == Entry(keys[i].1, e))
    && (forall k :: k in cache && k !in Kids(keys[..n]) ==> cache[k].expiresAt < e)
  }

  lemma SubsetSize(a: set<Kid>, b: set<Kid>)
    ensures a <= b ==> |a| <= |b|
  {
    if a <= b {
      assert b == a + (b - a);
    }
  }

  /** A full cache holds something older than the set being inserted. */
  lemma SomethingOlder<Key(!new)>(cache: Cache<Key>, keys: seq<(Kid, Key)>, n: nat, e: nat) returns (k: Kid)
    requires n < |keys| <= CACHE_LIMIT <= |cache| && Retains(cache, keys, n, e)
    ensures k in cache && k !in Kids(keys[..n])
  {
    KidsSize(keys[..n]);
    SubsetSize(cache.Keys, Kids(keys[..n]));
    assert |cache.Keys| == |cache|;
    k :| k in cache.Keys && k !in Kids(keys[..n]);
  }

  /** Making room never throws out a key of the set being inserted. */
  lemma RoomRetains<Key(!new)>(choose: Chooser<Key>, cache: Cache<Key>, keys: seq<(Kid, Key)>, n: nat, e: nat)
    requires Chooses(choose) && n < |keys| <= CACHE_LIMIT <= |cache| && Retains(cache, keys, n, e)
    ensures var room := cache - {choose(cache)};
            |room| < CACHE_LIMIT && Retains(room, keys, n, e)
  {
    hide Kids;
    var older := SomethingOlder(cache, keys, n, e);
    var room := cache - {choose(cache)};
    assert cache[choose(cache)].expiresAt <= cache[older].expiresAt < e;
    assert room.Keys == cache.Keys - {choose(cache)} && |cache| == |cache.Keys| && |room| == |room.Keys|;
  }

  lemma InsertOneRetains<Key(!new)>(choose: Chooser<Key>, cache: Cache<Key>, keys: seq<(Kid, Key)>, n: nat, e: nat)
    requires Chooses(choose) && Distinct(keys) && n < |keys| && Retains(cache, keys, n, e)
    ensures Retains(InsertOne(choose, cache, keys[n].0, keys[n].1, e), keys, n + 1, e)
  {
    hide Kids, Chooses, Retains;
    var full := keys[n].0 !in cache && |cache| >= CACHE_LIMIT;
    RetainsSize(cache, keys, n, e);
    if full {
      RoomRetains(choose, cache, keys, n, e);
    }
    AddedRetains(if full then cache - {choose(cache)} else cache, keys, n, e);
  }

  lemma RetainsSize<Key(!new)>(cache: Cache<Key>, keys: seq<(Kid, Key)>, n: nat, e: nat)
    requires n <= |keys| && Retains(cache, keys, n, e)
    ensures |cache| <= CACHE_LIMIT
  {
  }

  lemma AddedRetains<Key(!new)>(room: Cache<Key>, keys: seq<(Kid, Key)>, n: nat, e: nat)
    requires Distinct(keys) && n < |keys| && Retains(room, keys, n, e)
    requires keys[n].0 in room || |room| < CACHE_LIMIT
    ensures Retains(room[keys[n].0 := Entry(keys[n].1, e)], keys, n + 1, e)
  {
    hide Kids;
    var (kid, key) := keys[n];
    var c := room[kid := Entry(key, e)];
    assert c.Keys == room.Keys + {kid} && |c| == |c.Keys| && |room| == |room.Keys|;
    KidsAppend(keys, n);
    forall i | 0 <= i < n ensures keys[i].0 in c && c[keys[i].0] == Entry(keys[i].1, e) {
      assert keys[i].0 != kid;
    }
  }

  lemma KidsAppend<Key>(keys: seq<(Kid, Key)>, n: nat)
    requires n < |keys|
    ensures Kids(keys[..n + 1]) == Kids(keys[..n]) + {keys[n].0}
  {
    var more := keys[..n + 1];
    forall k | k in Kids(keys[..n]) ensures k in Kids(more) {
      var i :| 0 <= i < n && keys[..n][i].0 == k;
      assert more[i] == keys[..n][i];
    }
    assert more[n] == keys[n];
    forall k | k in Kids(more) ensures k in Kids(keys[..n]) + {keys[n].0} {
      var i :| 0 <= i < n + 1 && more[i].0 == k;
      if i < n {
        assert keys[..n][i] == more[i];
      }
    }
  }

  lemma {:induction false} InsertRetains<Key(!new)>(
    choose: Chooser<Key>, cache: Cache<Key>, keys: seq<(Kid, Key)>, n: nat, e: nat)
    requires Chooses(choose) && Distinct(keys) && n <= |keys| && |cache| <= CACHE_LIMIT
    requires forall k :: k in cache ==> cache[k].expiresAt < e
    ensures Retains(Insert(choose, cache, keys[..n], e), keys, n, e)
    decreases n
  {
    hide Chooses, InsertOne;
    if n > 0 {
      InsertRetains(choose, cache, keys, n - 1, e);
      assert keys[..n][..n - 1] == keys[..n - 1] && keys[..n][n - 1] == keys[n - 1];
      InsertOneRetains(choose, Insert(choose, cache, keys[..n - 1], e), keys, n - 1, e);
    }
  }

  /**
   With an entry of the same expiry in a full cache the order of eviction decides: a
   chooser that prefers the key just inserted throws it out for the next one.
   */
  lemma TiesMayEvict<Key(!new)>(choose: Chooser<Key>, cache: Cache<Key>, a: (Kid, Key), b: (Kid, Key), e: nat)
    requires Chooses(choose) && |cache| == CACHE_LIMIT && a.0 !in cache && b.0 !in cache && a.0 != b.0
    requires forall k :: k in cache ==> cache[k].expiresAt == e
    requires choose((cache - {choose(cache)})[a.0 := Entry(a.1, e)]) == a.0
    ensures a.0 !in Insert(choose, cache, [a, b], e)
  {
    var keys: seq<(Kid, Key)> := [a, b];
    assert keys[..1] == [a] && [a][..0] == [];
    var one := InsertOne(choose, cache, a.0, a.1, e);
    assert Insert(choose, cache, [a], e) == InsertOne(choose, Insert(choose, cache, [], e), a.0, a.1, e) == one;
    var room := cache - {choose(cache)};
    assert room.Keys == cache.Keys - {choose(cache)} && one.Keys == room.Keys + {a.0};
    assert |one| == |one.Keys| && |cache| == |cache.Keys|;
  }

  // ------------------------------------------------------------ over runs

  /** The last completed fetch is decisive: its set is distinct, and every earlier one came before it. */
  predicate Decisive<Key>(fetches: seq<Fetch<Key>>) {
    fetches != [] &&
    var last := fetches[|fetches| - 1];
    && Distinct(last.keys)
    && forall i :: 0 <= i < |fetches| - 1 ==> fetches[i].at < last.at
  }

  /** Until the last set expires, all of it is cached. */
  ghost predicate Holds<Key>(w: World<Key>) {
    Decisive(w.fetches) ==>
      var last := w.fetches[|w.fetches| - 1];
      forall j :: 0 <= j < |last.keys| && w.clock < last.at + TTL ==>
        last.keys[j].0 in w.a.cache && w.a.cache[last.keys[j].0] == Entry(last.keys[j].1, last.at + TTL)
  }

  ghost predicate Good<Key>(w: World<Key>) {
    Inv(w) && Sourced(w) && Holds(w) && forall i :: 0 <= i < |w.fetches| ==> w.fetches[i].at <= w.clock
  }

  /** What earlier fetches left expires before a later set does. */
  lemma OlderExpires<Key(!new)>(w: World<Key>, now: nat)
    requires Sourced(w) && now >= w.clock && forall i :: 0 <= i < |w.fetches| ==> w.fetches[i].at < now
    ensures forall k :: k in Prune(w.a.cache, now) ==> Prune(w.a.cache, now)[k].expiresAt < now + TTL
  {
    forall k | k in w.a.cache ensures w.a.cache[k].expiresAt < now + TTL {
      assert From(w.fetches, k, w.a.cache[k], w.clock);
    }
  }

  /** A completed fetch caches its whole set. */
  lemma FetchRetains<Key(!new)>(choose: Chooser<Key>, w: World<Key>, keys: seq<(Kid, Key)>, now: nat)
    requires Chooses(choose) && Inv(w) && Sourced(w) && w.a.waiters.Some? && now >= w.clock && Distinct(keys)
    requires forall i :: 0 <= i < |w.fetches| ==> w.fetches[i].at < now
    ensures Retains(Next(choose, w, Fetched(Some(keys), now)).a.cache, keys, |keys|, now + TTL)
  {
    hide Chooses, Insert, Sourced, Retains;
    OlderExpires(w, now);
    PruneKeeps(w.a.cache, now);
    InsertRetains(choose, Prune(w.a.cache, now), keys, |keys|, now + TTL);
    assert keys[..|keys|] == keys;
  }

  lemma NextGood<Key(!new)>(choose: Chooser<Key>, w: World<Key>, s: Step<Key>)
    requires Chooses(choose) && Good(w)
    ensures Good(Next(choose, w, s))
  {
    hide Chooses, Inv, Sourced, Insert;
    NextKeeps(choose, w, s);
    NextSourced(choose, w, s);
    var w' := Next(choose, w, s);
    if Enabled(w, s) && s.Fetched? && s.keys.Some? {
      assert w'.fetches == w.fetches + [Fetch(s.keys.value, s.now)];
      if Decisive(w'.fetches) {
        forall i | 0 <= i < |w.fetches| ensures w.fetches[i].at < s.now {
          assert w'.fetches[i] == w.fetches[i];
        }
        FetchRetains(choose, w, s.keys.value, s.now);
      }
    } else {
      assert w'.fetches == w.fetches + [] == w.fetches;
    }
  }

  lemma {:induction false} RunGood<Key(!new)>(choose: Chooser<Key>, w: World<Key>, steps: seq<Step<Key>>)
    requires Chooses(choose) && Good(w)
    ensures Good(Run(choose, w, steps))
    decreases |steps|
  {
    hide Chooses, Good, Next;
    if steps != [] {
      NextGood(choose, w, steps[0]);
      RunGood(choose, Next(choose, w, steps[0]), steps[1..]);
    }
  }

  lemma StartGood<Key(!new)>()
    ensures Good(Start<Key>())
  {
    StartKeeps<Key>();
  }

  /**
   A waiter gets its key: over every run, when the fetch in flight completes later
   than every earlier one with a set that fits the cache, each waiter whose
   identifier is in it is answered, in its turn, with that key.
   */
  lemma WaitersGetTheirKeys<Key(!new)>(
    choose: Chooser<Key>, steps: seq<Step<Key>>, keys: seq<(Kid, Key)>, now: nat, i: nat, j: nat)
    requires Chooses(choose) && Distinct(keys)
    requires var w := Run(choose, Start(), steps);
             && w.a.waiters.Some? && now >= w.clock && i < |w.a.waiters.value| && j < |keys|
             && w.a.waiters.value[i].kid == keys[j].0
             && forall f :: 0 <= f < |w.fetches| ==> w.fetches[f].at < now
    ensures var w := Run(choose, Start(), steps);
            var w' := Next(choose, w, Fetched(Some(keys), now));
            && |w'.replies| == |w.replies| + |w.a.waiters.value|
            && w'.replies[|w.replies| + i] == Reply(w.a.waiters.value[i].id, Ok(Entry(keys[j].1, now + TTL)), now)
  {
    hide Chooses, Inv, Sourced, Insert, Run;
    StartGood<Key>();
    RunGood(choose, Start(), steps);
    FetchRetains(choose, Run(choose, Start(), steps), keys, now);
  }

  lemma {:induction false} KidsExact<Key>(keys: seq<(Kid, Key)>)
    requires forall i, j :: 0 <= i < j < |keys| ==> keys[i].0 != keys[j].0
    ensures |Kids(keys)| == |keys|
    decreases |keys|
  {
    if keys == [] {
      assert Kids(keys) == {};
    } else {
      var init := keys[..|keys| - 1];
      KidsExact(init);
      assert keys[..|keys|] == keys;
      KidsAppend(keys, |keys| - 1);
    }
  }

  /** A set of more than 64 keys loses one: over every run, some key of it is not cached when it completes. */
  lemma LargeSetsLoseKeys<Key(!new)>(choose: Chooser<Key>, steps: seq<Step<Key>>, keys: seq<(Kid, Key)>, now: nat)
    returns (j: nat)
    requires Chooses(choose) && |keys| > CACHE_LIMIT
    requires forall i, j :: 0 <= i < j < |keys| ==> keys[i].0 != keys[j].0
    requires var w := Run(choose, Start(), steps); w.a.waiters.Some? && now >= w.clock
    ensures j < |keys| && keys[j].0 !in Next(choose, Run(choose, Start(), steps), Fetched(Some(keys), now)).a.cache
  {
    hide Chooses, Sourced, Insert, Run, Next;
    StartGood<Key>();
    RunGood(choose, Start(), steps);
    var w := Run(choose, Start(), steps);
    NextGood(choose, w, Fetched(Some(keys), now));
    var cache := Next(choose, w, Fetched(Some(keys), now)).a.cache;
    KidsExact(keys);
    SubsetSize(Kids(keys), cache.Keys);
    assert |cache.Keys| == |cache|;
    var k :| k in Kids(keys) && k !in cache.Keys;
    j :| 0 <= j < |keys| && keys[j].0 == k;
  }

  /** The reply to a request made now, if there is one at once. */
  function Asked<Key>(choose: Chooser<Key>, w: World<Key>, kid: Kid, now: nat): Option<Result<Entry<Key>, Refusal>>
  {
    var w' := Next(choose, w, Ask(kid, now));
    if |w'.replies| > |w.replies| then Some(w'.replies[|w.replies|].answer) else None
  }

  /**
   A key is handed out for its whole lifetime: over every run, a request for an
   identifier of the last completed set, less than five minutes after it, is
   answered at once with that key.
   */
  lemma FetchedKeysAreHandedOut<Key(!new)>(choose: Chooser<Key>, steps: seq<Step<Key>>, j: nat, now: nat)
    requires Chooses(choose)
    requires var w := Run(choose, Start(), steps);
             && Decisive(w.fetches) && !w.a.closed && now >= w.clock
             && var last := w.fetches[|w.fetches| - 1]; j < |last.keys| && now < last.at + TTL
    ensures var w := Run(choose, Start(), steps);
            var last := w.fetches[|w.fetches| - 1];
            Asked(choose, w, last.keys[j].0, now) == Some(Ok(Entry(last.keys[j].1, last.at + TTL)))
  {
    hide Chooses, Inv, Sourced, Run;
    StartGood<Key>();
    RunGood(choose, Start(), steps);
  }

  /**
   What a request is told, over every run, by what is cached, in flight and recent:
   the key exactly if an unexpired entry has it; otherwise nothing yet while a fetch
   is in flight or is started by it, which it is unless the last start is less than
   five seconds ago; and only then is it refused.
   */
  lemma RequestsAreDecided<Key(!new)>(choose: Chooser<Key>, steps: seq<Step<Key>>, kid: Kid, now: nat)
    requires Chooses(choose)
    requires !Run(choose, Start(), steps).a.closed && now >= Run(choose, Start(), steps).clock
    ensures var w := Run(choose, Start(), steps);
            var w' := Next(choose, w, Ask(kid, now));
            var unexpired := kid in w.a.cache && w.a.cache[kid].expiresAt > now;
            var inFlight := |w.starts| > w.completions;
            var recent := w.starts != [] && now < w.starts[|w.starts| - 1] + FETCH_GAP;
            && w'.asked == w.asked + [Request(|w.asked|, kid)]
            && (unexpired ==> Asked(choose, w, kid, now) == Some(Ok(w.a.cache[kid])) && w'.starts == w.starts)
            && (!unexpired && (inFlight || !recent) ==>
                  && Asked(choose, w, kid, now) == None
                  && w'.a.waiters == Some(Waiting(w.a) + [Request(|w.asked|, kid)])
                  && w'.starts == w.starts + if inFlight then [] else [now])
            && (!unexpired && !inFlight && recent ==>
                  Asked(choose, w, kid, now) == Some(Err(KeyUnavailable)) && w'.starts == w.starts)
  {
    hide Chooses, Accounted, Spaced, Fresh, Sourced, Run;
    StartGood<Key>();
    RunGood(choose, Start(), steps);
    var w := Run(choose, Start(), steps);
    assert w.starts + [] == w.starts && w.replies + [] == w.replies;
    if w.a.waiters.None? {
      assert Waiting(w.a) == [] && [] + [Request(|w.asked|, kid)] == [Request(|w.asked|, kid)];
    }
  }

  /**
   What a completed fetch tells its waiters, over every run: that the set could not
   be had exactly if it failed, and that a key is unavailable only if the fetch
   succeeded and no entry has it.
   */
  lemma CompletionsAreDecided<Key(!new)>(
    choose: Chooser<Key>, steps: seq<Step<Key>>, fetched: Option<seq<(Kid, Key)>>, now: nat, i: nat)
    requires Chooses(choose)
    requires var w := Run(choose, Start(), steps);
             w.a.waiters.Some? && now >= w.clock && i < |w.a.waiters.value|
    ensures var w := Run(choose, Start(), steps);
            var w' := Next(choose, w, Fetched(fetched, now));
            && |w'.replies| == |w.replies| + |w.a.waiters.value| && w'.a.waiters == None
            && var reply := w'.replies[|w.replies| + i];
            && reply.id == w.a.waiters.value[i].id
            && (reply.answer == Err(KeySetUnavailable) <==> fetched.None?)
            && (reply.answer == Err(KeyUnavailable) <==> fetched.Some? && w.a.waiters.value[i].kid !in w'.a.cache)
            && (fetched.None? ==> w'.a.cache == w.a.cache)
  {
    hide Chooses, Insert, Run;
  }
}
