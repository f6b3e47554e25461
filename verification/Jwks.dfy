/**
 The single-flight key-set aggregator: requests are answered from a bounded cache,
 joined to the one fetch in flight, refused while the last fetch is recent, or
 start a fetch. Keys are abstract; the order in which equal expiries are evicted
 is a parameter, since a hash map's iteration order is unspecified.
 */
module Jwks {
  import opened Outcomes

  /** Times are nanoseconds of a monotonic clock. */
  const SECOND: nat := 1_000_000_000
  const TTL: nat := 300 * SECOND
  const FETCH_GAP: nat := 5 * SECOND
  const CACHE_LIMIT: nat := 64

  type Kid = string

  datatype Entry<Key> = Entry(key: Key, expiresAt: nat)

  type Cache<Key> = map<Kid, Entry<Key>>

  /** Which of the entries with the earliest expiry is evicted. */
  type Chooser<!Key> = Cache<Key> -> Kid

  ghost predicate Chooses<Key(!new)>(choose: Chooser<Key>) {
    forall c: Cache<Key> :: c != map[] ==>
      choose(c) in c && forall k :: k in c ==> c[choose(c)].expiresAt <= c[k].expiresAt
  }

  datatype Refusal = KeyUnavailable | KeySetUnavailable

  datatype Request = Request(id: nat, kid: Kid)

  /** An answer and, for a key, when its cache entry expires. */
  datatype Reply<Key> = Reply(id: nat, answer: Result<Entry<Key>, Refusal>, at: nat)

  function Prune<Key>(cache: Cache<Key>, now: nat): Cache<Key> {
    map k | k in cache && cache[k].expiresAt > now :: cache[k]
  }

  function InsertOne<Key>(choose: Chooser<Key>, cache: Cache<Key>, kid: Kid, key: Key, expiresAt: nat): Cache<Key> {
    var room := if kid !in cache && |cache| >= CACHE_LIMIT then cache - {choose(cache)} else cache;
    room[kid := Entry(key, expiresAt)]
  }

  function Insert<Key>(choose: Chooser<Key>, cache: Cache<Key>, keys: seq<(Kid, Key)>, expiresAt: nat): Cache<Key> {
    if keys == [] then cache
    else InsertOne(choose, Insert(choose, cache, keys[..|keys| - 1], expiresAt),
                   keys[|keys| - 1].0, keys[|keys| - 1].1, expiresAt)
  }

  /** Waiters on the fetch in flight are None when there is none. */
  datatype Aggregator<Key> = Aggregator(
    cache: Cache<Key>,
    waiters: Option<seq<Request>>,
    lastStart: Option<nat>,
    closed: bool)

  predicate Recent(lastStart: Option<nat>, now: nat) {
    lastStart.Some? && now >= lastStart.value && now - lastStart.value < FETCH_GAP
  }

  function Lookup<Key>(cache: Cache<Key>, r: Request, now: nat): Reply<Key> {
    Reply(r.id, if r.kid in cache then Ok(cache[r.kid]) else Err(KeyUnavailable), now)
  }

  /** A request: the new state and its reply, if it is answered at once. */
  function OnRequest<Key>(a: Aggregator<Key>, r: Request, now: nat): (Aggregator<Key>, Option<Reply<Key>>) {
    var cache := Prune(a.cache, now);
    var a' := a.(cache := cache);
    if r.kid in cache then (a', Some(Lookup(cache, r, now)))
    else if a.waiters.Some? then (a'.(waiters := Some(a.waiters.value + [r])), None)
    else if Recent(a.lastStart, now) then (a', Some(Reply(r.id, Err(KeyUnavailable), now)))
    else (a'.(lastStart := Some(now), waiters := Some([r])), None)
  }

  function Answers<Key>(cache: Cache<Key>, waiters: seq<Request>, now: nat): seq<Reply<Key>> {
    seq(|waiters|, i requires 0 <= i < |waiters| => Lookup(cache, waiters[i], now))
  }

  function Failures<Key>(waiters: seq<Request>, now: nat): seq<Reply<Key>> {
    seq(|waiters|, i requires 0 <= i < |waiters| => Reply(waiters[i].id, Err(KeySetUnavailable), now))
  }

  /** The fetch completes with keys, in some order, or fails. */
  function OnFetch<Key>(choose: Chooser<Key>, a: Aggregator<Key>, fetched: Option<seq<(Kid, Key)>>, now: nat)
    : (Aggregator<Key>, seq<Reply<Key>>)
    requires a.waiters.Some?
  {
    var a' := a.(waiters := None);
    match fetched
    case None => (a', Failures(a.waiters.value, now))
    case Some(keys) =>
      var cache := Insert(choose, Prune(a.cache, now), keys, now + TTL);
      (a'.(cache := cache), Answers(cache, a.waiters.value, now))
  }

  // ------------------------------------------------------------ runs

  datatype Step<Key> =
    | Ask(kid: Kid, now: nat)
    | Hangup
    | Fetched(keys: Option<seq<(Kid, Key)>>, now: nat)

  /** A key set that was fetched, and when. */
  datatype Fetch<Key> = Fetch(keys: seq<(Kid, Key)>, at: nat)

  /** The aggregator, its clock, and everything asked, answered, started and fetched. */
  datatype World<Key> = World(
    a: Aggregator<Key>,
    clock: nat,
    asked: seq<Request>,
    replies: seq<Reply<Key>>,
    starts: seq<nat>,
    completions: nat,
    fetches: seq<Fetch<Key>>)

  function Start<Key>(): World<Key> {
    World(Aggregator(map[], None, None, false), 0, [], [], [], 0, [])
  }

  /** The loop has ended once requests are closed and no fetch is in flight. */
  predicate Exited<Key>(w: World<Key>) {
    w.a.closed && w.a.waiters.None?
  }

  predicate Enabled<Key>(w: World<Key>, s: Step<Key>) {
    match s
    case Ask(_, now) => !w.a.closed && now >= w.clock
    case Hangup => !w.a.closed
    case Fetched(_, now) => w.a.waiters.Some? && now >= w.clock
  }

  function Next<Key>(choose: Chooser<Key>, w: World<Key>, s: Step<Key>): World<Key> {
    if !Enabled(w, s) then w
    else
      match s
      case Ask(kid, now) =>
        var r := Request(|w.asked|, kid);
        var (a, reply) := OnRequest(w.a, r, now);
        World(a, now, w.asked + [r], w.replies + (match reply case None => [] case Some(p) => [p]),
              w.starts + (if w.a.waiters.None? && a.waiters.Some? then [now] else []), w.completions, w.fetches)
      case Hangup => w.(a := w.a.(closed := true))
      case Fetched(keys, now) =>
        var (a, replies) := OnFetch(choose, w.a, keys, now);
        World(a, now, w.asked, w.replies + replies, w.starts, w.completions + 1,
              w.fetches + match keys case None => [] case Some(found) => [Fetch(found, now)])
  }

  // ------------------------------------------------------------ the cache

  lemma SubmapSize<Key>(a: Cache<Key>, b: Cache<Key>)
    requires a.Keys <= b.Keys
    ensures |a| <= |b|
  {
    assert b.Keys == a.Keys + (b.Keys - a.Keys);
    assert |a| == |a.Keys| && |b| == |b.Keys|;
  }

  predicate AllAfter<Key>(cache: Cache<Key>, now: nat) {
    forall k :: k in cache ==> cache[k].expiresAt > now
  }

  lemma InsertOneKeeps<Key(!new)>(choose: Chooser<Key>, cache: Cache<Key>, kid: Kid, key: Key, expiresAt: nat, now: nat)
    requires Chooses(choose) && |cache| <= CACHE_LIMIT && AllAfter(cache, now) && expiresAt > now
    ensures var c := InsertOne(choose, cache, kid, key, expiresAt);
            |c| <= CACHE_LIMIT && AllAfter(c, now)
  {
    var c := InsertOne(choose, cache, kid, key, expiresAt);
    var room := if kid !in cache && |cache| >= CACHE_LIMIT then cache - {choose(cache)} else cache;
    assert |cache| == |cache.Keys| && |room| == |room.Keys| && |c| == |c.Keys|;
    if kid !in cache && |cache| >= CACHE_LIMIT {
      assert choose(cache) in cache;
      assert room.Keys == cache.Keys - {choose(cache)};
    }
    assert c.Keys == room.Keys + {kid};
  }

  lemma {:induction false} InsertKeeps<Key(!new)>(choose: Chooser<Key>, cache: Cache<Key>, keys: seq<(Kid, Key)>,
                                                  expiresAt: nat, now: nat)
    requires Chooses(choose) && |cache| <= CACHE_LIMIT && AllAfter(cache, now) && expiresAt > now
    ensures var c := Insert(choose, cache, keys, expiresAt);
            |c| <= CACHE_LIMIT && AllAfter(c, now)
    decreases |keys|
  {
    if keys != [] {
      var init, last := keys[..|keys| - 1], keys[|keys| - 1];
      InsertKeeps(choose, cache, init, expiresAt, now);
      InsertOneKeeps(choose, Insert(choose, cache, init, expiresAt), last.0, last.1, expiresAt, now);
    }
  }

  // ------------------------------------------------------------ the invariant

  function Ids(requests: seq<Request>): seq<nat> {
    seq(|requests|, i requires 0 <= i < |requests| => requests[i].id)
  }

  function Replied<Key>(replies: seq<Reply<Key>>): seq<nat> {
    seq(|replies|, i requires 0 <= i < |replies| => replies[i].id)
  }

  function Waiting<Key>(a: Aggregator<Key>): seq<Request> {
    if a.waiters.Some? then a.waiters.value else []
  }

  /** Every request asked is answered or waiting, exactly once. */
  predicate Accounted<Key>(w: World<Key>) {
    && multiset(Replied(w.replies)) + multiset(Ids(Waiting(w.a))) == multiset(Ids(w.asked))
    && (forall i :: 0 <= i < |w.asked| ==> w.asked[i].id == i)
  }

  predicate Spaced(starts: seq<nat>) {
    forall i, j :: 0 <= i < j < |starts| ==> starts[i] + FETCH_GAP <= starts[j]
  }

  predicate Flights<Key>(w: World<Key>) {
    && Spaced(w.starts)
    && (forall i :: 0 <= i < |w.starts| ==> w.starts[i] <= w.clock)
    && w.a.lastStart == (if w.starts == [] then None else Some(w.starts[|w.starts| - 1]))
    && |w.starts| == w.completions + if w.a.waiters.Some? then 1 else 0
  }

  /** A key is handed out only while its entry is unexpired. */
  predicate Fresh<Key>(replies: seq<Reply<Key>>) {
    forall i :: 0 <= i < |replies| && replies[i].answer.Ok? ==> replies[i].answer.value.expiresAt > replies[i].at
  }

  predicate Inv<Key>(w: World<Key>) {
    |w.a.cache| <= CACHE_LIMIT && Accounted(w) && Flights(w) && Fresh(w.replies)
  }

  lemma IdsAppend(requests: seq<Request>, r: Request)
    ensures Ids(requests + [r]) == Ids(requests) + [r.id]
  {
  }

  lemma RepliedAppend<Key>(a: seq<Reply<Key>>, b: seq<Reply<Key>>)
    ensures Replied(a + b) == Replied(a) + Replied(b)
  {
  }

  lemma AskAccounts<Key>(w: World<Key>, kid: Kid, now: nat)
    requires Inv(w) && !w.a.closed && now >= w.clock
    ensures var r := Request(|w.asked|, kid);
            var (a, reply) := OnRequest(w.a, r, now);
            var replies := w.replies + match reply case None => [] case Some(p) => [p];
            && |a.cache| <= CACHE_LIMIT && Fresh(replies)
            && multiset(Replied(replies)) + multiset(Ids(Waiting(a))) == multiset(Ids(w.asked + [r]))
  {
    var r := Request(|w.asked|, kid);
    var (a, reply) := OnRequest(w.a, r, now);
    SubmapSize(Prune(w.a.cache, now), w.a.cache);
    IdsAppend(w.asked, r);
    if reply.Some? {
      RepliedAppend(w.replies, [reply.value]);
      assert Replied([reply.value]) == [r.id];
      assert Waiting(a) == Waiting(w.a);
    } else {
      assert w.replies + [] == w.replies;
      assert Waiting(a) == Waiting(w.a) + [r];
      IdsAppend(Waiting(w.a), r);
    }
  }

  lemma AskKeeps<Key>(choose: Chooser<Key>, w: World<Key>, kid: Kid, now: nat)
    requires Inv(w) && !w.a.closed && now >= w.clock
    ensures Inv(Next(choose, w, Ask(kid, now)))
  {
    hide Fresh, Ids, Replied, Prune;
    AskAccounts(w, kid, now);
    assert w.starts + [] == w.starts;
  }

  /** A completion answers every waiter once, from a bounded cache of unexpired keys. */
  lemma FetchAnswers<Key(!new)>(choose: Chooser<Key>, a: Aggregator<Key>, keys: Option<seq<(Kid, Key)>>, now: nat)
    requires Chooses(choose) && |a.cache| <= CACHE_LIMIT && a.waiters.Some?
    ensures var (a', replies) := OnFetch(choose, a, keys, now);
            && |a'.cache| <= CACHE_LIMIT && Fresh(replies) && Replied(replies) == Ids(a.waiters.value)
            && a' == a.(waiters := None, cache := a'.cache)
  {
    hide Insert, Prune, Chooses;
    PruneKeeps(a.cache, now);
    if keys.Some? {
      InsertKeeps(choose, Prune(a.cache, now), keys.value, now + TTL, now);
    }
  }

  lemma FreshAppend<Key>(a: seq<Reply<Key>>, b: seq<Reply<Key>>)
    requires Fresh(a) && Fresh(b)
    ensures Fresh(a + b)
  {
  }

  lemma FetchedKeeps<Key(!new)>(choose: Chooser<Key>, w: World<Key>, keys: Option<seq<(Kid, Key)>>, now: nat)
    requires Chooses(choose) && Inv(w) && w.a.waiters.Some? && now >= w.clock
    ensures Inv(Next(choose, w, Fetched(keys, now)))
  {
    hide OnFetch, Chooses, Fresh, Ids, Replied, Spaced;
    var waiters := w.a.waiters.value;
    var (a, replies) := OnFetch(choose, w.a, keys, now);
    FetchAnswers(choose, w.a, keys, now);
    FreshAppend(w.replies, replies);
    RepliedAppend(w.replies, replies);
    NoneWaiting(a);
    assert multiset(Replied(w.replies) + Ids(waiters)) == multiset(Replied(w.replies)) + multiset(Ids(waiters));
  }

  lemma PruneKeeps<Key>(cache: Cache<Key>, now: nat)
    ensures |Prune(cache, now)| <= |cache| && AllAfter(Prune(cache, now), now)
  {
    SubmapSize(Prune(cache, now), cache);
  }

  lemma NextKeeps<Key(!new)>(choose: Chooser<Key>, w: World<Key>, s: Step<Key>)
    requires Chooses(choose) && Inv(w)
    ensures Inv(Next(choose, w, s))
  {
    hide Chooses, OnRequest, OnFetch, Fresh, Spaced, Ids, Replied;
    if Enabled(w, s) {
      match s
      case Ask(kid, now) => AskKeeps(choose, w, kid, now);
      case Hangup =>
      case Fetched(keys, now) => FetchedKeeps(choose, w, keys, now);
    }
  }

  function Run<Key>(choose: Chooser<Key>, w: World<Key>, steps: seq<Step<Key>>): World<Key>
    decreases |steps|
  {
    if steps == [] then w else Run(choose, Next(choose, w, steps[0]), steps[1..])
  }

  lemma {:induction false} RunKeeps<Key(!new)>(choose: Chooser<Key>, w: World<Key>, steps: seq<Step<Key>>)
    requires Chooses(choose) && Inv(w)
    ensures Inv(Run(choose, w, steps))
    decreases |steps|
  {
    hide Inv, Next, Chooses;
    if steps != [] {
      NextKeeps(choose, w, steps[0]);
      RunKeeps(choose, Next(choose, w, steps[0]), steps[1..]);
    }
  }

  lemma {:induction false} CountOfIndex(requests: seq<Request>, n: nat)
    requires forall i :: 0 <= i < |requests| ==> requests[i].id == i
    ensures multiset(Ids(requests))[n] == if n < |requests| then 1 else 0
    decreases |requests|
  {
    if requests != [] {
      var init, last := requests[..|requests| - 1], requests[|requests| - 1];
      assert requests == init + [last];
      IdsAppend(init, last);
      CountOfIndex(init, n);
      assert multiset(Ids(init) + [last.id]) == multiset(Ids(init)) + multiset{last.id};
    }
  }

  /** How many replies a request has had. */
  function RepliesTo<Key>(replies: seq<Reply<Key>>, id: nat): nat {
    multiset(Replied(replies))[id]
  }

  /**
   Over every event sequence: at most one fetch is in flight, fetch starts are at
   least five seconds apart, the cache holds at most 64 keys, no request is ever
   answered twice, every request has exactly one answer once the loop has exited,
   and every key handed out was unexpired at that instant.
   */
  lemma EveryRequestAnsweredOnce<Key(!new)>(choose: Chooser<Key>, steps: seq<Step<Key>>, id: nat)
    requires Chooses(choose)
    ensures var w := Run(choose, Start(), steps);
            && w.completions <= |w.starts| <= w.completions + 1
            && Spaced(w.starts)
            && |w.a.cache| <= CACHE_LIMIT
            && Fresh(w.replies)
            && RepliesTo(w.replies, id) <= (if id < |w.asked| then 1 else 0)
            && (Exited(w) && id < |w.asked| ==> RepliesTo(w.replies, id) == 1)
  {
    hide Next, Chooses, Spaced, Fresh, Ids, Replied;
    StartKeeps<Key>();
    RunKeeps(choose, Start(), steps);
    var w := Run(choose, Start(), steps);
    CountOfIndex(w.asked, id);
    var total := multiset(Replied(w.replies)) + multiset(Ids(Waiting(w.a)));
    assert total[id] == multiset(Replied(w.replies))[id] + multiset(Ids(Waiting(w.a)))[id];
    if Exited(w) {
      NoneWaiting(w.a);
    }
  }

  lemma NoneWaiting<Key>(a: Aggregator<Key>)
    requires a.waiters.None?
    ensures Ids(Waiting(a)) == []
  {
  }

  lemma StartKeeps<Key>()
    ensures Inv(Start<Key>())
  {
    var w := Start<Key>();
    assert Replied(w.replies) == [] && Ids(Waiting(w.a)) == [] && Ids(w.asked) == [];
  }

  // ------------------------------------------------------------ where keys come from

  /** Some key set fetched by then had this key for this identifier, and the entry expires with it. */
  ghost predicate From<Key>(fetches: seq<Fetch<Key>>, kid: Kid, e: Entry<Key>, until: nat) {
    exists i, j ::
      && 0 <= i < |fetches| && 0 <= j < |fetches[i].keys| && fetches[i].keys[j] == (kid, e.key)
      && e.expiresAt == fetches[i].at + TTL && fetches[i].at <= until
  }

  ghost predicate CacheSourced<Key>(fetches: seq<Fetch<Key>>, cache: Cache<Key>, until: nat) {
    forall k :: k in cache ==> From(fetches, k, cache[k], until)
  }

  ghost predicate ReplySourced<Key>(fetches: seq<Fetch<Key>>, asked: seq<Request>, reply: Reply<Key>) {
    reply.answer.Ok? ==> reply.id < |asked| && From(fetches, asked[reply.id].kid, reply.answer.value, reply.at)
  }

  ghost predicate RepliesSourced<Key>(fetches: seq<Fetch<Key>>, asked: seq<Request>, replies: seq<Reply<Key>>) {
    forall i :: 0 <= i < |replies| ==> ReplySourced(fetches, asked, replies[i])
  }

  predicate WaitersKnown(waiters: seq<Request>, asked: seq<Request>) {
    forall i :: 0 <= i < |waiters| ==> waiters[i].id < |asked| && asked[waiters[i].id] == waiters[i]
  }

  ghost predicate Sourced<Key>(w: World<Key>) {
    && CacheSourced(w.fetches, w.a.cache, w.clock)
    && RepliesSourced(w.fetches, w.asked, w.replies)
    && WaitersKnown(Waiting(w.a), w.asked)
  }

  lemma FromMore<Key>(fetches: seq<Fetch<Key>>, more: seq<Fetch<Key>>, kid: Kid, e: Entry<Key>, until: nat, later: nat)
    requires From(fetches, kid, e, until) && until <= later
    ensures From(fetches + more, kid, e, later)
  {
    var i, j :|
      && 0 <= i < |fetches| && 0 <= j < |fetches[i].keys| && fetches[i].keys[j] == (kid, e.key)
      && e.expiresAt == fetches[i].at + TTL && fetches[i].at <= until;
    assert (fetches + more)[i] == fetches[i];
  }

  lemma CacheMore<Key>(fetches: seq<Fetch<Key>>, more: seq<Fetch<Key>>, cache: Cache<Key>, until: nat, later: nat)
    requires CacheSourced(fetches, cache, until) && until <= later
    ensures CacheSourced(fetches + more, cache, later) && CacheSourced(fetches + more, Prune(cache, later), later)
  {
    hide From;
    forall k | k in cache ensures From(fetches + more, k, cache[k], later) {
      FromMore(fetches, more, k, cache[k], until, later);
    }
  }

  /** Inserting a fetched set leaves only entries of that set or of earlier ones. */
  lemma {:induction false} InsertSourced<Key>(choose: Chooser<Key>, cache: Cache<Key>, n: nat,
                                              fetches: seq<Fetch<Key>>, f: Fetch<Key>)
    requires n <= |f.keys| && CacheSourced(fetches + [f], cache, f.at)
    ensures CacheSourced(fetches + [f], Insert(choose, cache, f.keys[..n], f.at + TTL), f.at)
    decreases n
  {
    if n > 0 {
      InsertSourced(choose, cache, n - 1, fetches, f);
      assert f.keys[..n][..n - 1] == f.keys[..n - 1] && f.keys[..n][n - 1] == f.keys[n - 1];
      assert (fetches + [f])[|fetches|] == f;
      assert From(fetches + [f], f.keys[n - 1].0, Entry(f.keys[n - 1].1, f.at + TTL), f.at);
      hide From;
    }
  }

  lemma RepliesMore<Key>(fetches: seq<Fetch<Key>>, more: seq<Fetch<Key>>, asked: seq<Request>, later: seq<Request>,
                         replies: seq<Reply<Key>>)
    requires RepliesSourced(fetches, asked, replies) && asked <= later
    ensures RepliesSourced(fetches + more, later, replies)
  {
    hide From;
    forall i | 0 <= i < |replies| && replies[i].answer.Ok? ensures ReplySourced(fetches + more, later, replies[i]) {
      assert ReplySourced(fetches, asked, replies[i]);
      FromMore(fetches, more, asked[replies[i].id].kid, replies[i].answer.value, replies[i].at, replies[i].at);
    }
  }

  /** What is answered from a sourced cache is sourced. */
  lemma LookupSourced<Key>(fetches: seq<Fetch<Key>>, asked: seq<Request>, cache: Cache<Key>, r: Request, now: nat)
    requires CacheSourced(fetches, cache, now) && r.id < |asked| && asked[r.id] == r
    ensures ReplySourced(fetches, asked, Lookup(cache, r, now))
  {
    hide From;
  }

  lemma AskSourced<Key>(choose: Chooser<Key>, w: World<Key>, kid: Kid, now: nat)
    requires Sourced(w) && Enabled(w, Ask(kid, now))
    ensures Sourced(Next(choose, w, Ask(kid, now)))
  {
    hide From, Prune, Recent, CacheSourced, ReplySourced;
    var r := Request(|w.asked|, kid);
    var asked := w.asked + [r];
    CacheMore(w.fetches, [], w.a.cache, w.clock, now);
    RepliesMore(w.fetches, [], w.asked, asked, w.replies);
    assert w.fetches + [] == w.fetches;
    LookupSourced(w.fetches, asked, Prune(w.a.cache, now), r, now);
    RefusalSourced(w.fetches, asked, Reply(r.id, Err(KeyUnavailable), now));
  }

  lemma RefusalSourced<Key>(fetches: seq<Fetch<Key>>, asked: seq<Request>, reply: Reply<Key>)
    requires reply.answer.Err?
    ensures ReplySourced(fetches, asked, reply)
  {
  }

  lemma FetchedSourced<Key>(choose: Chooser<Key>, w: World<Key>, keys: Option<seq<(Kid, Key)>>, now: nat)
    requires Sourced(w) && Enabled(w, Fetched(keys, now))
    ensures Sourced(Next(choose, w, Fetched(keys, now)))
  {
    hide From, Prune, Insert, CacheSourced, ReplySourced;
    var more := match keys case None => [] case Some(found) => [Fetch(found, now)];
    var waiters := w.a.waiters.value;
    CacheMore(w.fetches, more, w.a.cache, w.clock, now);
    RepliesMore(w.fetches, more, w.asked, w.asked, w.replies);
    var cache := Next(choose, w, Fetched(keys, now)).a.cache;
    if keys.Some? {
      InsertSourced(choose, Prune(w.a.cache, now), |keys.value|, w.fetches, Fetch(keys.value, now));
      assert keys.value[..|keys.value|] == keys.value;
      forall i | 0 <= i < |waiters| ensures ReplySourced(w.fetches + more, w.asked, Answers(cache, waiters, now)[i]) {
        LookupSourced(w.fetches + more, w.asked, cache, waiters[i], now);
      }
    } else {
      forall i | 0 <= i < |waiters| ensures ReplySourced(w.fetches + more, w.asked, Failures<Key>(waiters, now)[i]) {
        RefusalSourced(w.fetches + more, w.asked, Failures<Key>(waiters, now)[i]);
      }
    }
  }

  lemma NextSourced<Key>(choose: Chooser<Key>, w: World<Key>, s: Step<Key>)
    requires Sourced(w)
    ensures Sourced(Next(choose, w, s))
  {
    hide From, OnRequest, OnFetch;
    if Enabled(w, s) {
      match s
      case Ask(kid, now) => AskSourced(choose, w, kid, now);
      case Fetched(keys, now) => FetchedSourced(choose, w, keys, now);
      case Hangup => HangupSourced(choose, w);
    }
  }

  lemma {:induction false} RunSourced<Key>(choose: Chooser<Key>, w: World<Key>, steps: seq<Step<Key>>)
    requires Sourced(w)
    ensures Sourced(Run(choose, w, steps))
    decreases |steps|
  {
    hide Sourced, Next;
    if steps != [] {
      NextSourced(choose, w, steps[0]);
      RunSourced(choose, Next(choose, w, steps[0]), steps[1..]);
    }
  }

  lemma HangupSourced<Key>(choose: Chooser<Key>, w: World<Key>)
    requires Sourced(w) && Enabled(w, Hangup)
    ensures Sourced(Next(choose, w, Hangup))
  {
    hide From;
  }

  /**
   Over every event sequence, a key handed out for an identifier is one that a
   completed fetch, less than five minutes earlier, had for that identifier.
   */
  lemma KeysAreFetched<Key(!new)>(choose: Chooser<Key>, steps: seq<Step<Key>>, i: nat)
    requires Chooses(choose) && i < |Run(choose, Start(), steps).replies|
    requires Run(choose, Start(), steps).replies[i].answer.Ok?
    ensures var w := Run(choose, Start(), steps);
            var reply := w.replies[i];
            && reply.id < |w.asked|
            && exists f, j :: 0 <= f < |w.fetches| && 0 <= j < |w.fetches[f].keys|
                 && w.fetches[f].keys[j] == (w.asked[reply.id].kid, reply.answer.value.key)
                 && w.fetches[f].at <= reply.at < w.fetches[f].at + TTL
  {
    hide Next, Chooses;
    StartKeeps<Key>();
    RunKeeps(choose, Start(), steps);
    RunSourced(choose, Start(), steps);
    var w := Run(choose, Start(), steps);
    assert ReplySourced(w.fetches, w.asked, w.replies[i]);
  }
}
