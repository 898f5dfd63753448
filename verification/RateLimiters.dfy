/**
 The two keyed limiters on top of the token bucket.  The Redis limiter lets a
 key expire some seconds after its last call; the memory limiter sweeps out
 buckets that were idle for long.  Both are measured against a limiter that
 never forgets a bucket.
 */
module RateLimiters {
  import opened Wrappers
  import opened TokenBucket
  import Int64

  datatype Key = Key(text: string)

  type Buckets = map<Key, Bucket>

  /** Calls without a key share the key "_". */
  function NormalKey(key: Key): (r: Key)
    ensures r.text != "" && (key.text != "" ==> r == key)
    ensures key.text == "" ==> r.text == "_"
  {
    if key.text == "" then Key("_") else key
  }

  function BucketOf(m: Buckets, key: Key): Option<Bucket> {
    if key in m then Some(m[key]) else None
  }

  datatype Event = Allow(key: Key, now: real) | Reset(key: Key) | Sweep(now: real)

  /** Calls and sweeps come in the order of a clock that does not step back. */
  predicate Ordered(from: real, events: seq<Event>)
    decreases events
  {
    events == []
    || (events[0].Reset? && Ordered(from, events[1..]))
    || (!events[0].Reset? && from <= events[0].now && Ordered(events[0].now, events[1..]))
  }

  // ----- the limiter that forgets nothing -----------------------------------------

  function RefNext(l: Limits, m: Buckets, e: Event): Buckets {
    match e
    case Allow(key, now) => m[key := Take(l, BucketOf(m, key), now)]
    case Reset(key) => m - {key}
    case Sweep(_) => m
  }

  /** The answer of a call; the other events have none and count as false. */
  predicate RefAnswer(l: Limits, m: Buckets, e: Event) {
    e.Allow? && Allows(l, BucketOf(m, e.key), e.now)
  }

  function RefAnswers(l: Limits, m: Buckets, events: seq<Event>): (r: seq<bool>)
    ensures |r| == |events|
    decreases events
  {
    if events == [] then []
    else [RefAnswer(l, m, events[0])] + RefAnswers(l, RefNext(l, m, events[0]), events[1..])
  }

  // ----- Redis ----------------------------------------------------------------------

  datatype Stored = Stored(bucket: Bucket, expiry: real)

  type Hashes = map<Key, Stored>

  /** What HMGET finds: an expired key is gone. */
  function Found(m: Hashes, key: Key, now: real): Option<Bucket> {
    if key in m && now < m[key].expiry then Some(m[key].bucket) else None
  }

  function RedisNext(l: Limits, ttl: int, m: Hashes, e: Event): Hashes {
    match e
    case Allow(key, now) => m[key := Stored(Take(l, Found(m, key, now), now), now + ttl as real)]
    case Reset(key) => m - {key}
    case Sweep(_) => m
  }

  predicate RedisAnswer(l: Limits, m: Hashes, e: Event) {
    e.Allow? && Allows(l, Found(m, e.key, e.now), e.now)
  }

  function RedisAnswers(l: Limits, ttl: int, m: Hashes, events: seq<Event>): (r: seq<bool>)
    ensures |r| == |events|
    decreases events
  {
    if events == [] then []
    else [RedisAnswer(l, m, events[0])] + RedisAnswers(l, ttl, RedisNext(l, ttl, m, events[0]), events[1..])
  }

  const NANOSECONDS: int := 1_000_000_000

  /** Whole seconds in which a burst is refilled. */
  function RefillSeconds(l: Limits): int
    requires ValidLimits(l)
  {
    (l.burst as real / l.rate).Floor
  }

  /** Seconds until a key expires: a configured TTL in whole seconds, or by
      default one second more than the time to refill, at least two.  The default
      is computed in int64 nanoseconds. */
  function TtlSeconds(l: Limits, ttl: int): int
    requires ValidLimits(l)
  {
    if ttl > 0 then ttl / NANOSECONDS
    else
      var d := Int64.Wrap(Int64.Wrap(RefillSeconds(l) * NANOSECONDS) + NANOSECONDS);
      if d < 2 * NANOSECONDS then 2 else d / NANOSECONDS
  }

  /** The Redis limiter; the script runs atomically on the server. */
  class RedisLimiter {
    const limits: Limits
    const ttl: int
    var hashes: Hashes

    constructor (rate: real, burst: int, ttl: int)
      ensures limits == WithDefaults(rate, burst) && this.ttl == TtlSeconds(limits, ttl) && hashes == map[]
    {
      limits := WithDefaults(rate, burst);
      this.ttl := TtlSeconds(WithDefaults(rate, burst), ttl);
      hashes := map[];
    }

    method Allow(key: Key, now: real) returns (allowed: bool)
      modifies this
      ensures allowed == RedisAnswer(limits, old(hashes), Event.Allow(NormalKey(key), now))
      ensures hashes == RedisNext(limits, ttl, old(hashes), Event.Allow(NormalKey(key), now))
    {
      var k := NormalKey(key);
      var capacity := limits.burst as real;
      var tokens := capacity;
      if k in hashes && now < hashes[k].expiry {
        var b := hashes[k].bucket;
        var delta := if now - b.last > 0.0 then now - b.last else 0.0;
        assert delta == Max(0.0, now - b.last);
        tokens := b.tokens + delta * limits.rate;
        if capacity <= tokens {
          tokens := capacity;
        }
      }
      assert tokens == Refill(limits, Found(hashes, k, now), now);
      hide Refill;
      allowed := false;
      if tokens >= 1.0 {
        tokens := tokens - 1.0;
        allowed := true;
      }
      hashes := hashes[k := Stored(Bucket(tokens, now), now + ttl as real)];
    }

    method Reset(key: Key)
      modifies this
      ensures hashes == RedisNext(limits, ttl, old(hashes), Event.Reset(NormalKey(key)))
    {
      hashes := hashes - {NormalKey(key)};
    }
  }

  // ----- memory ---------------------------------------------------------------------

  function MemoryNext(l: Limits, idle: real, m: Buckets, e: Event): Buckets {
    match e
    case Allow(_, _) => RefNext(l, m, e)
    case Reset(_) => RefNext(l, m, e)
    case Sweep(now) => map key | key in m && !(m[key].last < now - idle) :: m[key]
  }

  function MemoryAnswers(l: Limits, idle: real, m: Buckets, events: seq<Event>): (r: seq<bool>)
    ensures |r| == |events|
    decreases events
  {
    if events == [] then []
    else [RefAnswer(l, m, events[0])] + MemoryAnswers(l, idle, MemoryNext(l, idle, m, events[0]), events[1..])
  }

  const IDLE_SECONDS: real := 600.0

  /** The memory limiter.  A bucket is last seen when it was last refilled. */
  class MemoryLimiter {
    const limits: Limits
    const idle: real
    var buckets: Buckets

    constructor (rate: real, burst: int, idle: real)
      ensures limits == WithDefaults(rate, burst) && this.idle == (if idle <= 0.0 then IDLE_SECONDS else idle)
      ensures buckets == map[]
    {
      limits := WithDefaults(rate, burst);
      this.idle := if idle <= 0.0 then IDLE_SECONDS else idle;
      buckets := map[];
    }

    /** The clock is monotonic, so no bucket was used after now. */
    method Allow(key: Key, now: real) returns (allowed: bool)
      requires ValidLimits(limits)
      requires forall k :: k in buckets ==> buckets[k].last <= now
      modifies this
      ensures allowed == RefAnswer(limits, old(buckets), Event.Allow(NormalKey(key), now))
      ensures buckets == RefNext(limits, old(buckets), Event.Allow(NormalKey(key), now))
    {
      var k := NormalKey(key);
      var burst := limits.burst as real;
      var tokens := burst;
      if k in buckets {
        var elapsed := now - buckets[k].last;
        assert elapsed == Max(0.0, now - buckets[k].last);
        tokens := buckets[k].tokens + elapsed * limits.rate;
        if burst <= tokens {
          tokens := burst;
        }
      }
      assert tokens == Refill(limits, BucketOf(buckets, k), now);
      hide Refill;
      if tokens < 1.0 {
        buckets := buckets[k := Bucket(tokens, now)];
        return false;
      }
      buckets := buckets[k := Bucket(tokens - 1.0, now)];
      return true;
    }

    method Reset(key: Key)
      modifies this
      ensures buckets == RefNext(limits, old(buckets), Event.Reset(NormalKey(key)))
    {
      buckets := buckets - {NormalKey(key)};
    }

    /** evictIdle, as one round under no concurrent call; the order of keys is arbitrary. */
    method EvictIdle(now: real)
      modifies this
      ensures buckets == MemoryNext(limits, idle, old(buckets), Sweep(now))
      ensures forall k :: k in buckets <==> k in old(buckets) && now - idle <= old(buckets)[k].last
      ensures forall k :: k in buckets ==> buckets[k] == old(buckets)[k]
    {
      var cutoff := now - idle;
      var keys := buckets.Keys;
      while keys != {}
        invariant keys <= old(buckets).Keys
        invariant forall k :: k in buckets <==> k in old(buckets) && (k in keys || !(old(buckets)[k].last < cutoff))
        invariant forall k :: k in buckets ==> buckets[k] == old(buckets)[k]
        decreases keys
      {
        var k :| k in keys;
        if buckets[k].last < cutoff {
          buckets := buckets - {k};
        }
        keys := keys - {k};
      }
    }
  }

  // ----- forgetting is not observable -------------------------------------------------

  /** After a pause that refills a whole burst, a bucket is as good as none. */
  lemma FullAgain(l: Limits, b: Bucket, pause: real, now: real)
    requires ValidLimits(l) && InBounds(l, Some(b))
    requires pause * l.rate >= l.burst as real && now - b.last >= pause
    ensures Refill(l, Some(b), now) == l.burst as real
  {
    assert (now - b.last) * l.rate >= pause * l.rate by {
      ProductGrows(l.rate, pause, now - b.last);
    }
  }

  /** The longest time in whole seconds that int64 nanoseconds can hold. */
  const MOST_SECONDS: int := Int64.MAX / NANOSECONDS

  /** The default TTL outlasts the refill of a whole burst exactly when that takes
      less than about 292 years; above, the nanoseconds overflow. */
  lemma DefaultTtlCoversRefillIff(l: Limits)
    requires ValidLimits(l)
    ensures TtlSeconds(l, 0) as real * l.rate >= l.burst as real <==> RefillSeconds(l) < MOST_SECONDS
  {
    var q, n := l.burst as real / l.rate, RefillSeconds(l);
    var ttl := TtlSeconds(l, 0) as real;
    assert n as real <= q < n as real + 1.0;
    DefaultSeconds(l);
    hide TtlSeconds, RefillSeconds;
    LongerThan(l.burst as real, l.rate, q, ttl);
  }

  lemma LongerThan(amount: real, rate: real, q: real, ttl: real)
    requires rate > 0.0 && q == amount / rate
    ensures ttl * rate >= amount <==> ttl >= q
  {
    assert q * rate == amount;
    if ttl >= q {
      ProductGrows(rate, q, ttl);
    } else {
      ProductGrowsStrictly(rate, ttl, q);
    }
  }

  lemma DefaultSeconds(l: Limits)
    requires ValidLimits(l)
    ensures var n, ttl := RefillSeconds(l), TtlSeconds(l, 0);
            && n >= 0
            && (n < MOST_SECONDS ==> ttl == if n == 0 then 2 else n + 1)
            && (n >= MOST_SECONDS ==> ttl < n)
  {
    var n := RefillSeconds(l);
    assert l.burst as real / l.rate >= 0.0;
    Int64.WrapSum(n * NANOSECONDS, NANOSECONDS);
    if n == MOST_SECONDS {
      Int64.WrapAbove((n + 1) * NANOSECONDS);
    }
    hide RefillSeconds, Int64.Wrap;
  }

  /** The hashes hold the reference buckets, to expire ttl after their last call. */
  ghost predicate SameBuckets(l: Limits, ttl: int, m: Hashes, ref: Buckets, now: real) {
    && (forall k :: k in m <==> k in ref)
    && (forall k :: k in m ==>
          && m[k] == Stored(ref[k], ref[k].last + ttl as real)
          && ref[k].last <= now && InBounds(l, Some(ref[k])))
  }

  lemma ExpiredIsFull(l: Limits, ttl: int, m: Hashes, ref: Buckets, from: real, key: Key, now: real)
    requires ValidLimits(l) && ttl as real * l.rate >= l.burst as real
    requires SameBuckets(l, ttl, m, ref, from) && from <= now
    ensures Refill(l, Found(m, key, now), now) == Refill(l, BucketOf(ref, key), now)
    ensures InBounds(l, BucketOf(ref, key))
  {
    if key in ref && Found(m, key, now).None? {
      FullAgain(l, ref[key], ttl as real, now);
    }
  }

  lemma {:induction false} ExpiryHidesNothing(l: Limits, ttl: int, m: Hashes, ref: Buckets,
                                              from: real, events: seq<Event>)
    requires ValidLimits(l) && ttl as real * l.rate >= l.burst as real
    requires SameBuckets(l, ttl, m, ref, from) && Ordered(from, events)
    ensures RedisAnswers(l, ttl, m, events) == RefAnswers(l, ref, events)
    decreases events
  {
    hide Refill;
    if events != [] {
      var e := events[0];
      var m', ref' := RedisNext(l, ttl, m, e), RefNext(l, ref, e);
      var at := if e.Reset? then from else e.now;
      if e.Allow? {
        ExpiredIsFull(l, ttl, m, ref, from, e.key, e.now);
        TokensStayInBounds(l, BucketOf(ref, e.key), e.now);
        assert Take(l, Found(m, e.key, e.now), e.now) == Take(l, BucketOf(ref, e.key), e.now);
        hide Take;
      }
      ExpiryHidesNothing(l, ttl, m', ref', at, events[1..]);
    }
  }

  /** Expiry is unobservable: from the start, every run of calls and resets on
      any keys is answered as by a limiter whose keys never expire. */
  lemma ExpiryIsUnobservable(l: Limits, ttl: int, events: seq<Event>, from: real)
    requires ValidLimits(l) && ttl as real * l.rate >= l.burst as real
    requires Ordered(from, events)
    ensures RedisAnswers(l, ttl, map[], events) == RefAnswers(l, map[], events)
  {
    ExpiryHidesNothing(l, ttl, map[], map[], from, events);
  }

  /** The memory limiter knows a part of the reference buckets; those it swept
      out are full again. */
  ghost predicate PartOfBuckets(l: Limits, m: Buckets, ref: Buckets, now: real) {
    && (forall k :: k in m ==> k in ref && m[k] == ref[k])
    && (forall k :: k in ref ==> ref[k].last <= now && InBounds(l, Some(ref[k])))
    && (forall k :: k in ref && k !in m ==> FullSince(l, ref[k], now))
  }

  /** Full for every later call. */
  predicate FullSince(l: Limits, b: Bucket, now: real) {
    (now - b.last) * l.rate >= l.burst as real
  }

  lemma StaysFull(l: Limits, b: Bucket, now: real, later: real)
    requires ValidLimits(l) && InBounds(l, Some(b)) && FullSince(l, b, now) && now <= later
    ensures FullSince(l, b, later)
    ensures Refill(l, Some(b), later) == l.burst as real
  {
    ProductGrows(l.rate, now - b.last, later - b.last);
    FullAgain(l, b, now - b.last, later);
  }

  lemma TimePasses(l: Limits, m: Buckets, ref: Buckets, now: real, later: real)
    requires ValidLimits(l) && PartOfBuckets(l, m, ref, now) && now <= later
    ensures PartOfBuckets(l, m, ref, later)
  {
    forall k | k in ref && k !in m ensures FullSince(l, ref[k], later) {
      StaysFull(l, ref[k], now, later);
    }
  }

  lemma SweepKeepsPart(l: Limits, idle: real, m: Buckets, ref: Buckets, now: real)
    requires ValidLimits(l) && idle * l.rate >= l.burst as real && PartOfBuckets(l, m, ref, now)
    ensures PartOfBuckets(l, MemoryNext(l, idle, m, Sweep(now)), ref, now)
  {
    forall k | k in m && m[k].last < now - idle ensures FullSince(l, ref[k], now) {
      ProductGrows(l.rate, idle, now - m[k].last);
    }
  }

  lemma CallKeepsPart(l: Limits, m: Buckets, ref: Buckets, key: Key, now: real)
    requires ValidLimits(l) && PartOfBuckets(l, m, ref, now)
    ensures Refill(l, BucketOf(m, key), now) == Refill(l, BucketOf(ref, key), now)
    ensures PartOfBuckets(l, RefNext(l, m, Allow(key, now)), RefNext(l, ref, Allow(key, now)), now)
  {
    if key in ref && key !in m {
      StaysFull(l, ref[key], now, now);
    }
    TokensStayInBounds(l, BucketOf(ref, key), now);
    hide Refill, FullSince;
  }

  lemma {:induction false} EvictionHidesNothing(l: Limits, idle: real, m: Buckets, ref: Buckets,
                                                from: real, events: seq<Event>)
    requires ValidLimits(l) && idle * l.rate >= l.burst as real
    requires PartOfBuckets(l, m, ref, from) && Ordered(from, events)
    ensures MemoryAnswers(l, idle, m, events) == RefAnswers(l, ref, events)
    decreases events
  {
    hide Refill, FullSince;
    if events != [] {
      var e := events[0];
      var m', ref' := MemoryNext(l, idle, m, e), RefNext(l, ref, e);
      var at := if e.Reset? then from else e.now;
      TimePasses(l, m, ref, from, at);
      match e {
        case Allow(key, now) => CallKeepsPart(l, m, ref, key, now);
        case Reset(key) =>
        case Sweep(now) => SweepKeepsPart(l, idle, m, ref, now);
      }
      EvictionHidesNothing(l, idle, m', ref', at, events[1..]);
    }
  }

  /** Idle eviction is unobservable, with sweeps anywhere in the run. */
  lemma EvictionIsUnobservable(l: Limits, idle: real, events: seq<Event>, from: real)
    requires ValidLimits(l) && idle * l.rate >= l.burst as real
    requires Ordered(from, events)
    ensures MemoryAnswers(l, idle, map[], events) == RefAnswers(l, map[], events)
  {
    EvictionHidesNothing(l, idle, map[], map[], from, events);
  }

  // ----- the rate bound of whole runs -----------------------------------------------

  /** Times of the calls for one key. */
  function KeyTimes(events: seq<Event>, key: Key): seq<real> {
    if events == [] then []
    else (if events[0].Allow? && events[0].key == key then [events[0].now] else []) + KeyTimes(events[1..], key)
  }

  /** Of the answers to all events, those to the calls for one key. */
  function AnswersFor(events: seq<Event>, answers: seq<bool>, key: Key): seq<bool>
    requires |answers| == |events|
  {
    if events == [] then []
    else (if events[0].Allow? && events[0].key == key then [answers[0]] else [])
         + AnswersFor(events[1..], answers[1..], key)
  }

  predicate NeverReset(events: seq<Event>, key: Key) {
    forall e :: e in events && e.Reset? ==> e.key != key
  }

  /** Calls for one key are answered as by a bucket of its own. */
  lemma {:induction false} KeysAreIndependent(l: Limits, m: Buckets, events: seq<Event>, key: Key)
    requires NeverReset(events, key)
    ensures AnswersFor(events, RefAnswers(l, m, events), key) == Answers(l, BucketOf(m, key), KeyTimes(events, key))
    decreases events
  {
    hide Take, Allows;
    if events != [] {
      var e, m' := events[0], RefNext(l, m, events[0]);
      assert e in events;
      KeysAreIndependent(l, m', events[1..], key);
      assert RefAnswers(l, m, events)[1..] == RefAnswers(l, m', events[1..]);
      if e.Allow? && e.key == key {
        assert KeyTimes(events, key) == [e.now] + KeyTimes(events[1..], key);
        assert KeyTimes(events, key)[1..] == KeyTimes(events[1..], key);
      } else {
        assert BucketOf(m', key) == BucketOf(m, key);
        assert KeyTimes(events, key) == KeyTimes(events[1..], key);
      }
    }
  }

  ghost predicate AllInBounds(l: Limits, m: Buckets) {
    forall k :: k in m ==> InBounds(l, Some(m[k]))
  }

  /** A window of a run is answered from the buckets that the run before it left. */
  lemma {:induction false} WindowOfRun(l: Limits, m: Buckets, before: seq<Event>, window: seq<Event>)
    returns (mid: Buckets)
    requires ValidLimits(l) && AllInBounds(l, m)
    ensures AllInBounds(l, mid)
    ensures RefAnswers(l, m, before + window)[|before|..] == RefAnswers(l, mid, window)
    decreases before
  {
    if before == [] {
      assert before + window == window;
      mid := m;
    } else {
      var e, all := before[0], before + window;
      var m' := RefNext(l, m, e);
      if e.Allow? {
        TokensStayInBounds(l, BucketOf(m, e.key), e.now);
      }
      hide Take, Allows;
      assert all[0] == e && all[1..] == before[1..] + window;
      mid := WindowOfRun(l, m', before[1..], window);
      assert RefAnswers(l, m, all) == [RefAnswer(l, m, e)] + RefAnswers(l, m', all[1..]);
    }
  }

  lemma {:induction false} OrderedSuffix(from: real, before: seq<Event>, window: seq<Event>) returns (at: real)
    requires Ordered(from, before + window)
    ensures from <= at && Ordered(at, window)
    decreases before
  {
    if before == [] {
      assert before + window == window;
      at := from;
    } else {
      assert (before + window)[1..] == before[1..] + window;
      at := OrderedSuffix(if before[0].Reset? then from else before[0].now, before[1..], window);
    }
  }

  lemma {:induction false} KeyTimesOrdered(from: real, events: seq<Event>, key: Key)
    requires Ordered(from, events)
    ensures NonDecreasing(KeyTimes(events, key))
    ensures forall i :: 0 <= i < |KeyTimes(events, key)| ==> from <= KeyTimes(events, key)[i]
    decreases events
  {
    if events != [] {
      var rest := KeyTimes(events[1..], key);
      KeyTimesOrdered(if events[0].Reset? then from else events[0].now, events[1..], key);
      assert KeyTimes(events, key) == rest || KeyTimes(events, key) == [events[0].now] + rest;
      hide KeyTimes;
    }
  }

  predicate CallsWithin(events: seq<Event>, key: Key, s: real, t: real) {
    forall i :: 0 <= i < |KeyTimes(events, key)| ==> s <= KeyTimes(events, key)[i] <= t
  }

  /** A window [s, t] of a run for a key: whatever happened before, and with other
      keys used or reset in between. */
  ghost predicate KeyWindow(from: real, before: seq<Event>, window: seq<Event>, key: Key, s: real, t: real) {
    && Ordered(from, before + window) && s <= t
    && NeverReset(window, key) && CallsWithin(window, key, s, t)
  }

  /** The answers allow the key at most burst + rate * (t - s) calls in the window. */
  predicate Obeys(l: Limits, answers: seq<bool>, before: seq<Event>, window: seq<Event>, key: Key, s: real, t: real)
    requires |answers| == |before + window|
  {
    CountTrue(AnswersFor(window, answers[|before|..], key)) as real <= l.burst as real + l.rate * (t - s)
  }

  lemma ReferenceRateBound(l: Limits, from: real, before: seq<Event>, window: seq<Event>, key: Key, s: real, t: real)
    requires ValidLimits(l) && KeyWindow(from, before, window, key, s, t)
    ensures Obeys(l, RefAnswers(l, map[], before + window), before, window, key, s, t)
  {
    hide RefAnswers, CountTrue, Answers, AnswersFor, KeyTimes, Ordered, NeverReset;
    var mid := WindowOfRun(l, map[], before, window);
    var at := OrderedSuffix(from, before, window);
    KeyTimesOrdered(at, window, key);
    KeysAreIndependent(l, mid, window, key);
    RateBoundInWindow(l, BucketOf(mid, key), KeyTimes(window, key), s, t);
  }

  /** In any window of any run the Redis limiter keeps a key to its rate. */
  lemma RedisRateBound(
    l: Limits, ttl: int, from: real, before: seq<Event>, window: seq<Event>, key: Key, s: real, t: real)
    requires ValidLimits(l) && ttl as real * l.rate >= l.burst as real
    requires KeyWindow(from, before, window, key, s, t)
    ensures Obeys(l, RedisAnswers(l, ttl, map[], before + window), before, window, key, s, t)
  {
    ExpiryIsUnobservable(l, ttl, before + window, from);
    ReferenceRateBound(l, from, before, window, key, s, t);
    hide *;
  }

  /** The same bound for the memory limiter, sweeps included. */
  lemma MemoryRateBound(
    l: Limits, idle: real, from: real, before: seq<Event>, window: seq<Event>, key: Key, s: real, t: real)
    requires ValidLimits(l) && idle * l.rate >= l.burst as real
    requires KeyWindow(from, before, window, key, s, t)
    ensures Obeys(l, MemoryAnswers(l, idle, map[], before + window), before, window, key, s, t)
  {
    EvictionIsUnobservable(l, idle, before + window, from);
    ReferenceRateBound(l, from, before, window, key, s, t);
    hide *;
  }

  // ----- a shorter memory exceeds the rate --------------------------------------------

  function CallsAt(key: Key, t: real, n: nat): (r: seq<Event>)
    ensures |r| == n
  {
    if n == 0 then [] else [Allow(key, t)] + CallsAt(key, t, n - 1)
  }

  function Trues(n: nat): seq<bool> {
    if n == 0 then [] else [true] + Trues(n - 1)
  }

  lemma CallsFirst(key: Key, t: real, n: nat, rest: seq<Event>)
    requires n > 0
    ensures CallsAt(key, t, n) + rest == [Allow(key, t)] + (CallsAt(key, t, n - 1) + rest)
  {
  }

  lemma TruesFirst(n: nat, rest: seq<bool>)
    requires n > 0
    ensures Trues(n) + rest == [true] + (Trues(n - 1) + rest)
  {
  }

  /** Redis serves n calls at one instant while the tokens it finds last. */
  lemma {:induction false} RedisServes(l: Limits, ttl: int, m: Hashes, key: Key, t: real, n: nat, rest: seq<Event>)
    returns (m': Hashes)
    requires ValidLimits(l) && ttl >= 0 && InBounds(l, Found(m, key, t)) && n as real <= Refill(l, Found(m, key, t), t)
    ensures RedisAnswers(l, ttl, m, CallsAt(key, t, n) + rest) == Trues(n) + RedisAnswers(l, ttl, m', rest)
    ensures if n == 0 then m' == m else key in m' && m'[key].expiry == t + ttl as real
    decreases n
  {
    if n == 0 {
      m' := m;
      assert CallsAt(key, t, n) + rest == rest;
    } else {
      var next := CallsAt(key, t, n - 1) + rest;
      CallsFirst(key, t, n, rest);
      FoundAfterCall(l, ttl, m, key, t);
      RedisFirst(l, ttl, m, Allow(key, t), next);
      hide Refill, InBounds, RedisNext, RedisAnswer, Found, RedisAnswers;
      m' := RedisServes(l, ttl, RedisNext(l, ttl, m, Allow(key, t)), key, t, n - 1, rest);
      TruesFirst(n, RedisAnswers(l, ttl, m', rest));
      hide Trues, CallsAt;
    }
  }

  lemma RedisFirst(l: Limits, ttl: int, m: Hashes, e: Event, rest: seq<Event>)
    ensures RedisAnswers(l, ttl, m, [e] + rest) ==
              [RedisAnswer(l, m, e)] + RedisAnswers(l, ttl, RedisNext(l, ttl, m, e), rest)
  {
    assert ([e] + rest)[1..] == rest;
  }

  lemma FoundAfterCall(l: Limits, ttl: int, m: Hashes, key: Key, t: real)
    requires ValidLimits(l) && ttl >= 0 && InBounds(l, Found(m, key, t)) && Refill(l, Found(m, key, t), t) >= 1.0
    ensures RedisAnswer(l, m, Allow(key, t))
    ensures var m' := RedisNext(l, ttl, m, Allow(key, t)); key in m' && m'[key].expiry == t + ttl as real
    ensures var found := Found(RedisNext(l, ttl, m, Allow(key, t)), key, t);
            InBounds(l, found) && Refill(l, found, t) >= Refill(l, Found(m, key, t), t) - 1.0
  {
  }

  /** A reset gives the key its whole burst back, at any time and whatever was
      stored for it, and leaves the other keys alone. */
  lemma ResetRestoresTheBurst(l: Limits, ttl: int, m: Hashes, key: Key, t: real)
    requires ValidLimits(l) && ttl >= 0
    ensures RedisAnswers(l, ttl, RedisNext(l, ttl, m, Reset(key)), CallsAt(key, t, l.burst)) == Trues(l.burst)
    ensures forall other, now :: other != key ==>
              Found(RedisNext(l, ttl, m, Reset(key)), other, now) == Found(m, other, now)
  {
    var m' := RedisServes(l, ttl, RedisNext(l, ttl, m, Reset(key)), key, t, l.burst, []);
    NoAnswers(l, ttl, m');
    assert CallsAt(key, t, l.burst) + [] == CallsAt(key, t, l.burst) && Trues(l.burst) + [] == Trues(l.burst);
  }

  lemma MemoryResetRestoresTheBurst(l: Limits, idle: real, m: Buckets, key: Key, t: real)
    requires ValidLimits(l)
    ensures MemoryAnswers(l, idle, MemoryNext(l, idle, m, Reset(key)), CallsAt(key, t, l.burst)) == Trues(l.burst)
    ensures forall other :: other != key ==>
              BucketOf(MemoryNext(l, idle, m, Reset(key)), other) == BucketOf(m, other)
  {
    var _ := MemoryServes(l, idle, MemoryNext(l, idle, m, Reset(key)), key, t, l.burst, []);
    assert CallsAt(key, t, l.burst) + [] == CallsAt(key, t, l.burst) && Trues(l.burst) + [] == Trues(l.burst);
  }

  /** Two bursts of calls for one key, possibly with a sweep between them. */
  function Bursts(key: Key, n: nat, gap: seq<Event>, t: real): seq<Event> {
    CallsAt(key, 0.0, n) + (gap + CallsAt(key, t, n))
  }

  /** A TTL that expires before the burst is refilled exceeds the rate: two
      bursts pass, the second when the key has just expired. */
  lemma ShortTtlExceedsTheRate(l: Limits, ttl: int, key: Key) returns (window: seq<Event>, t: real)
    requires ValidLimits(l) && ttl >= 0 && ttl as real * l.rate < l.burst as real
    ensures KeyWindow(0.0, [], window, key, 0.0, t)
    ensures !Obeys(l, RedisAnswers(l, ttl, map[], [] + window), [], window, key, 0.0, t)
  {
    hide RedisAnswers, CallsAt, Trues, KeyWindow, Obeys;
    t := ttl as real;
    var n := l.burst as nat;
    window := Bursts(key, n, [], t);
    var second := [] + CallsAt(key, t, n);
    assert second == CallsAt(key, t, n) + [];
    var m := RedisServes(l, ttl, map[], key, 0.0, n, second);
    var m' := RedisServes(l, ttl, m, key, t, n, []);
    NoAnswers(l, ttl, m');
    assert Trues(n) + [] == [] + Trues(n);
    BurstsExceed(l, key, [], t, []);
    assert [] + window == window;
  }

  lemma NoAnswers(l: Limits, ttl: int, m: Hashes)
    ensures RedisAnswers(l, ttl, m, []) == []
  {
  }

  /** So it shows: the limiter that forgets nothing obeys the rate. */
  lemma ShortTtlIsObservable(l: Limits, ttl: int, key: Key) returns (events: seq<Event>)
    requires ValidLimits(l) && ttl >= 0 && ttl as real * l.rate < l.burst as real
    ensures Ordered(0.0, events)
    ensures RedisAnswers(l, ttl, map[], events) != RefAnswers(l, map[], events)
  {
    hide RedisAnswers, RefAnswers, Ordered, Obeys;
    var t;
    events, t := ShortTtlExceedsTheRate(l, ttl, key);
    ReferenceRateBound(l, 0.0, [], events, key, 0.0, t);
    assert [] + events == events;
  }

  /** The Redis limiter keeps every key to its rate in every window of every run. */
  ghost predicate RedisObeysRate(l: Limits, ttl: int) {
    forall from, before, window, key, s, t :: KeyWindow(from, before, window, key, s, t) ==>
      Obeys(l, RedisAnswers(l, ttl, map[], before + window), before, window, key, s, t)
  }

  /** The rate bound holds exactly when the TTL covers the refill of a burst. */
  lemma RedisRateBoundIff(l: Limits, ttl: int)
    requires ValidLimits(l) && ttl >= 0
    ensures RedisObeysRate(l, ttl) <==> ttl as real * l.rate >= l.burst as real
  {
    hide RedisAnswers, KeyWindow, Obeys;
    if ttl as real * l.rate >= l.burst as real {
      forall from, before, window, key, s, t | KeyWindow(from, before, window, key, s, t)
        ensures Obeys(l, RedisAnswers(l, ttl, map[], before + window), before, window, key, s, t)
      {
        RedisRateBound(l, ttl, from, before, window, key, s, t);
      }
    } else {
      var window, t := ShortTtlExceedsTheRate(l, ttl, Key("k"));
    }
  }

  /** Expiry is unobservable exactly when the TTL covers the refill of a burst. */
  lemma ExpiryUnobservableIffTtlCovers(l: Limits, ttl: int)
    requires ValidLimits(l) && ttl >= 0
    ensures (forall events, from :: Ordered(from, events) ==>
               RedisAnswers(l, ttl, map[], events) == RefAnswers(l, map[], events))
       <==> ttl as real * l.rate >= l.burst as real
  {
    hide RedisAnswers, RefAnswers, Ordered;
    if ttl as real * l.rate >= l.burst as real {
      forall events, from | Ordered(from, events)
        ensures RedisAnswers(l, ttl, map[], events) == RefAnswers(l, map[], events)
      {
        ExpiryIsUnobservable(l, ttl, events, from);
      }
    } else {
      var events := ShortTtlIsObservable(l, ttl, Key("k"));
      assert Ordered(0.0, events);
    }
  }

  /** The memory limiter serves n calls at one instant while the tokens it finds last. */
  lemma {:induction false} MemoryServes(l: Limits, idle: real, m: Buckets, key: Key, t: real, n: nat, rest: seq<Event>)
    returns (m': Buckets)
    requires ValidLimits(l) && InBounds(l, BucketOf(m, key)) && n as real <= Refill(l, BucketOf(m, key), t)
    ensures MemoryAnswers(l, idle, m, CallsAt(key, t, n) + rest) == Trues(n) + MemoryAnswers(l, idle, m', rest)
    ensures if n == 0 then m' == m else key in m' && m'[key].last == t
    decreases n
  {
    if n == 0 {
      m' := m;
      assert CallsAt(key, t, n) + rest == rest;
    } else {
      var next := CallsAt(key, t, n - 1) + rest;
      CallsFirst(key, t, n, rest);
      BucketAfterCall(l, idle, m, key, t);
      MemoryFirst(l, idle, m, Allow(key, t), next);
      hide Refill, InBounds, MemoryNext, RefAnswer, BucketOf, MemoryAnswers;
      m' := MemoryServes(l, idle, MemoryNext(l, idle, m, Allow(key, t)), key, t, n - 1, rest);
      TruesFirst(n, MemoryAnswers(l, idle, m', rest));
      hide Trues, CallsAt;
    }
  }

  lemma MemoryFirst(l: Limits, idle: real, m: Buckets, e: Event, rest: seq<Event>)
    ensures MemoryAnswers(l, idle, m, [e] + rest) ==
              [RefAnswer(l, m, e)] + MemoryAnswers(l, idle, MemoryNext(l, idle, m, e), rest)
  {
    assert ([e] + rest)[1..] == rest;
  }

  lemma BucketAfterCall(l: Limits, idle: real, m: Buckets, key: Key, t: real)
    requires ValidLimits(l) && InBounds(l, BucketOf(m, key)) && Refill(l, BucketOf(m, key), t) >= 1.0
    ensures RefAnswer(l, m, Allow(key, t))
    ensures var m' := MemoryNext(l, idle, m, Allow(key, t));
            && key in m' && m'[key].last == t && InBounds(l, BucketOf(m', key))
            && Refill(l, BucketOf(m', key), t) == Refill(l, BucketOf(m, key), t) - 1.0
  {
  }

  /** A sweep that evicts before the burst is refilled exceeds the rate as well. */
  lemma ShortIdleExceedsTheRate(l: Limits, idle: real, key: Key) returns (window: seq<Event>, t: real)
    requires ValidLimits(l) && idle > 0.0 && idle * l.rate < l.burst as real
    ensures KeyWindow(0.0, [], window, key, 0.0, t)
    ensures !Obeys(l, MemoryAnswers(l, idle, map[], [] + window), [], window, key, 0.0, t)
  {
    hide KeyWindow, Obeys;
    var n := l.burst as nat;
    t := BetweenIdleAndRefill(l, idle);
    var sweep := Sweep(t);
    window := Bursts(key, n, [sweep], t);
    var second := [sweep] + CallsAt(key, t, n);
    var m := MemoryServes(l, idle, map[], key, 0.0, n, second);
    var m' := MemoryNext(l, idle, m, sweep);
    assert second[1..] == CallsAt(key, t, n) + [];
    var _ := MemoryServes(l, idle, m', key, t, n, []);
    assert MemoryAnswers(l, idle, m, second) == [false] + (Trues(n) + []);
    assert Trues(n) + [] == Trues(n);
    BurstsExceed(l, key, [sweep], t, [false]);
    assert [] + window == window;
  }

  lemma ShortIdleIsObservable(l: Limits, idle: real, key: Key) returns (events: seq<Event>)
    requires ValidLimits(l) && idle > 0.0 && idle * l.rate < l.burst as real
    ensures Ordered(0.0, events)
    ensures MemoryAnswers(l, idle, map[], events) != RefAnswers(l, map[], events)
  {
    hide MemoryAnswers, RefAnswers, Ordered, Obeys;
    var t;
    events, t := ShortIdleExceedsTheRate(l, idle, key);
    ReferenceRateBound(l, 0.0, [], events, key, 0.0, t);
    assert [] + events == events;
  }

  ghost predicate MemoryObeysRate(l: Limits, idle: real) {
    forall from, before, window, key, s, t :: KeyWindow(from, before, window, key, s, t) ==>
      Obeys(l, MemoryAnswers(l, idle, map[], before + window), before, window, key, s, t)
  }

  /** The rate bound holds exactly when the idle time covers the refill of a burst. */
  lemma MemoryRateBoundIff(l: Limits, idle: real)
    requires ValidLimits(l) && idle > 0.0
    ensures MemoryObeysRate(l, idle) <==> idle * l.rate >= l.burst as real
  {
    hide MemoryAnswers, KeyWindow, Obeys;
    if idle * l.rate >= l.burst as real {
      forall from, before, window, key, s, t | KeyWindow(from, before, window, key, s, t)
        ensures Obeys(l, MemoryAnswers(l, idle, map[], before + window), before, window, key, s, t)
      {
        MemoryRateBound(l, idle, from, before, window, key, s, t);
      }
    } else {
      var window, t := ShortIdleExceedsTheRate(l, idle, Key("k"));
    }
  }

  lemma BetweenIdleAndRefill(l: Limits, idle: real) returns (t: real)
    requires ValidLimits(l) && idle > 0.0 && idle * l.rate < l.burst as real
    ensures idle < t && t * l.rate < l.burst as real
  {
    var q := l.burst as real / l.rate;
    assert q * l.rate == l.burst as real;
    assert idle < q by {
      if q <= idle {
        ProductGrows(l.rate, q, idle);
      }
    }
    t := (idle + q) / 2.0;
    if t * l.rate >= l.burst as real {
      ProductGrowsStrictly(l.rate, t, q);
    }
  }

  /** Idle eviction is unobservable exactly when the idle time covers the refill of a burst. */
  lemma EvictionUnobservableIffIdleCovers(l: Limits, idle: real)
    requires ValidLimits(l) && idle > 0.0
    ensures (forall events, from :: Ordered(from, events) ==>
               MemoryAnswers(l, idle, map[], events) == RefAnswers(l, map[], events))
       <==> idle * l.rate >= l.burst as real
  {
    hide MemoryAnswers, RefAnswers, Ordered;
    if idle * l.rate >= l.burst as real {
      forall events, from | Ordered(from, events)
        ensures MemoryAnswers(l, idle, map[], events) == RefAnswers(l, map[], events)
      {
        EvictionIsUnobservable(l, idle, events, from);
      }
    } else {
      var events := ShortIdleIsObservable(l, idle, Key("k"));
      assert Ordered(0.0, events);
    }
  }

  lemma {:induction false} CallsOrdered(key: Key, from: real, t: real, n: nat, rest: seq<Event>)
    requires from <= t && Ordered(t, rest) && (n == 0 ==> Ordered(from, rest))
    ensures Ordered(from, CallsAt(key, t, n) + rest)
    decreases n
  {
    if n == 0 {
      assert CallsAt(key, t, n) + rest == rest;
    } else {
      assert (CallsAt(key, t, n) + rest)[1..] == CallsAt(key, t, n - 1) + rest;
      CallsOrdered(key, t, t, n - 1, rest);
    }
  }

  lemma BurstsOrdered(key: Key, n: nat, gap: seq<Event>, t: real)
    requires n > 0 && t >= 0.0 && (gap == [] || gap == [Sweep(t)])
    ensures Ordered(0.0, Bursts(key, n, gap, t))
  {
    var calls := CallsAt(key, t, n);
    assert calls + [] == calls;
    CallsOrdered(key, t, t, n, []);
    CallsOrdered(key, 0.0, t, n, []);
    assert gap == [] ==> gap + calls == calls;
    assert gap != [] ==> (gap + calls)[1..] == calls;
    CallsOrdered(key, 0.0, 0.0, n, gap + calls);
  }

  lemma {:induction false} CallsOfKey(key: Key, t: real, n: nat, rest: seq<Event>, answers: seq<bool>)
    requires |answers| == |rest|
    ensures |Trues(n)| == n
    ensures AnswersFor(CallsAt(key, t, n) + rest, Trues(n) + answers, key) == Trues(n) + AnswersFor(rest, answers, key)
    decreases n
  {
    var all, given := CallsAt(key, t, n) + rest, Trues(n) + answers;
    if n == 0 {
      assert all == rest && given == answers;
    } else {
      assert all[1..] == CallsAt(key, t, n - 1) + rest;
      assert given[1..] == Trues(n - 1) + answers;
      CallsOfKey(key, t, n - 1, rest, answers);
    }
  }

  lemma {:induction false} TimesOfCalls(key: Key, t: real, n: nat, rest: seq<Event>, s: real, u: real)
    requires s <= t <= u && CallsWithin(rest, key, s, u) && NeverReset(rest, key)
    ensures CallsWithin(CallsAt(key, t, n) + rest, key, s, u) && NeverReset(CallsAt(key, t, n) + rest, key)
    decreases n
  {
    var all := CallsAt(key, t, n) + rest;
    if n == 0 {
      assert all == rest;
    } else {
      assert all[1..] == CallsAt(key, t, n - 1) + rest;
      TimesOfCalls(key, t, n - 1, rest, s, u);
      assert KeyTimes(all, key) == [t] + KeyTimes(all[1..], key);
      assert all == [Allow(key, t)] + all[1..];
    }
  }

  lemma {:induction false} CountOfTrues(n: nat, rest: seq<bool>)
    ensures CountTrue(Trues(n) + rest) == n + CountTrue(rest)
  {
    if n == 0 {
      assert Trues(n) + rest == rest;
    } else {
      assert (Trues(n) + rest)[1..] == Trues(n - 1) + rest;
      CountOfTrues(n - 1, rest);
    }
  }

  /** Two bursts that follow each other in less than the time to refill, both
      served, exceed the rate. */
  lemma BurstsExceed(l: Limits, key: Key, gap: seq<Event>, t: real, between: seq<bool>)
    requires ValidLimits(l) && t >= 0.0 && t * l.rate < l.burst as real
    requires (gap == [] || gap == [Sweep(t)]) && |between| == |gap|
    ensures var n := l.burst as nat;
            var window, served := Bursts(key, n, gap, t), Trues(n) + (between + Trues(n));
            && |served| == |[] + window|
            && KeyWindow(0.0, [], window, key, 0.0, t) && !Obeys(l, served, [], window, key, 0.0, t)
  {
    hide Bursts, Trues, CountTrue, AnswersFor, Ordered, NeverReset, CallsWithin;
    var n := l.burst as nat;
    var window, served := Bursts(key, n, gap, t), Trues(n) + (between + Trues(n));
    BurstsOrdered(key, n, gap, t);
    BurstsAreCalls(key, n, gap, t);
    BurstsCount(key, n, gap, t, between);
    assert [] + window == window && served[0..] == served;
    TwiceTheBurst(l, t);
  }

  lemma TwiceTheBurst(l: Limits, t: real)
    requires ValidLimits(l) && t * l.rate < l.burst as real
    ensures (2 * l.burst) as real > l.burst as real + l.rate * (t - 0.0)
  {
    assert l.rate * (t - 0.0) == t * l.rate;
  }

  lemma BurstsAreCalls(key: Key, n: nat, gap: seq<Event>, t: real)
    requires t >= 0.0 && (gap == [] || gap == [Sweep(t)])
    ensures CallsWithin(Bursts(key, n, gap, t), key, 0.0, t) && NeverReset(Bursts(key, n, gap, t), key)
  {
    var calls := CallsAt(key, t, n);
    assert calls + [] == calls;
    TimesOfCalls(key, t, n, [], 0.0, t);
    var rest := gap + calls;
    assert gap == [] ==> rest == calls;
    assert gap != [] ==> rest[1..] == calls;
    assert KeyTimes(rest, key) == KeyTimes(calls, key);
    TimesOfCalls(key, 0.0, n, rest, 0.0, t);
  }

  lemma BurstsCount(key: Key, n: nat, gap: seq<Event>, t: real, between: seq<bool>)
    requires (gap == [] || gap == [Sweep(t)]) && |between| == |gap|
    ensures var served := Trues(n) + (between + Trues(n));
            && |served| == |Bursts(key, n, gap, t)|
            && CountTrue(AnswersFor(Bursts(key, n, gap, t), served, key)) == 2 * n
  {
    var calls, rest := CallsAt(key, t, n), gap + CallsAt(key, t, n);
    assert calls + [] == calls && Trues(n) + [] == Trues(n);
    CallsOfKey(key, t, n, [], []);
    CountOfTrues(n, []);
    assert gap == [] ==> rest == calls && between + Trues(n) == Trues(n);
    assert gap != [] ==> rest[1..] == calls && (between + Trues(n))[1..] == Trues(n);
    assert AnswersFor(rest, between + Trues(n), key) == Trues(n);
    CallsOfKey(key, 0.0, n, rest, between + Trues(n));
    CountOfTrues(n, Trues(n));
  }
}
