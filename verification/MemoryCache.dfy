/**
 The memory cache: a map under prefixed keys whose entries expire lazily, on
 access, or by a sweep.  It is measured against a plain timed map that never
 removes an expired entry and only ignores it.  Times are nanoseconds of a
 monotonic clock.
 */
module MemoryCache {
  import opened Wrappers
  import Decimal
  import Int64

  datatype Bytes = Bytes(text: string)

  /** A key as the caller names it, and as it is stored. */
  datatype Key = Key(text: string)
  datatype StoredKey = StoredKey(text: string)

  datatype Expiry = Never | At(time: int)

  datatype Entry = Entry(value: Bytes, expiresAt: Expiry)

  type Items = map<StoredKey, Entry>
  type TimedMap = map<Key, Entry>

  predicate Expired(e: Entry, now: int) {
    e.expiresAt.At? && e.expiresAt.time <= now
  }

  function NewEntry(value: Bytes, ttl: int, now: int): Entry {
    Entry(value, if ttl > 0 then At(now + ttl) else Never)
  }

  function Full(prefix: string, key: Key): StoredKey {
    StoredKey(prefix + key.text)
  }

  predicate HasPrefix(prefix: string, key: StoredKey) {
    prefix <= key.text
  }

  /** A sweep works with the time of its ticker, which may lie in the past. */
  datatype Op =
    | Get(key: Key)
    | Put(key: Key, value: Bytes, ttl: int)
    | Add(key: Key, value: Bytes, ttl: int)
    | Has(key: Key)
    | Forget(key: Key)
    | Flush
    | Adjust(key: Key, delta: int)
    | Sweep(tick: int)

  datatype Result = Done | Miss | Hit(value: Bytes) | Answer(ok: bool) | Counter(n: int) | NotInteger

  datatype Found = Absent | Present(entry: Entry)

  /** The counter to adjust: that of a live entry, which must be a decimal
      number, or zero without expiry. */
  function Count(found: Found): Option<int> {
    match found
    case Absent => Some(0)
    case Present(e) => Decimal.Parse(e.value.text)
  }

  function Adjusted(found: Found, n: int): Entry {
    Entry(Bytes(Decimal.Format(n)), if found.Present? then found.entry.expiresAt else Never)
  }

  /** What an operation on a key answers, given the live entry there. */
  function Reply(op: Op, found: Found): Result {
    match op
    case Get(_) => if found.Present? then Hit(found.entry.value) else Miss
    case Put(_, _, _) => Done
    case Add(_, _, _) => Answer(found.Absent?)
    case Has(_) => Answer(found.Present?)
    case Forget(_) => Done
    case Flush => Done
    case Sweep(_) => Done
    case Adjust(_, delta) =>
      match Count(found)
      case None => NotInteger
      case Some(n) => Counter(Int64.Wrap(n + delta))
  }

  // ----- the plain timed map ---------------------------------------------------------------

  function FindTimed(m: TimedMap, key: Key, now: int): Found {
    if key in m && !Expired(m[key], now) then Present(m[key]) else Absent
  }

  function TimedResult(m: TimedMap, now: int, op: Op): Result {
    if op.Flush? || op.Sweep? then Done else Reply(op, FindTimed(m, op.key, now))
  }

  function TimedNext(m: TimedMap, now: int, op: Op): TimedMap {
    match op
    case Get(_) => m
    case Put(key, value, ttl) => m[key := NewEntry(value, ttl, now)]
    case Add(key, value, ttl) =>
      if FindTimed(m, key, now).Present? then m else m[key := NewEntry(value, ttl, now)]
    case Has(_) => m
    case Forget(key) => m - {key}
    case Flush => map[]
    case Sweep(_) => m
    case Adjust(key, delta) =>
      var found := FindTimed(m, key, now);
      match Count(found)
      case None => m
      case Some(n) => m[key := Adjusted(found, Int64.Wrap(n + delta))]
  }

  // ----- the cache ----------------------------------------------------------------------------

  function Find(items: Items, key: StoredKey, now: int): Found {
    if key in items && !Expired(items[key], now) then Present(items[key]) else Absent
  }

  /** A read of an expired entry removes it. */
  function DropExpired(items: Items, key: StoredKey, now: int): Items {
    if key in items && Expired(items[key], now) then items - {key} else items
  }

  function CacheResult(prefix: string, items: Items, now: int, op: Op): Result {
    if op.Flush? || op.Sweep? then Done else Reply(op, Find(items, Full(prefix, op.key), now))
  }

  function CacheNext(prefix: string, items: Items, now: int, op: Op): Items {
    match op
    case Get(key) => DropExpired(items, Full(prefix, key), now)
    case Put(key, value, ttl) => items[Full(prefix, key) := NewEntry(value, ttl, now)]
    case Add(key, value, ttl) =>
      if Find(items, Full(prefix, key), now).Present? then items
      else items[Full(prefix, key) := NewEntry(value, ttl, now)]
    case Has(key) => DropExpired(items, Full(prefix, key), now)
    case Forget(key) => items - {Full(prefix, key)}
    case Flush => map k | k in items && !HasPrefix(prefix, k) :: items[k]
    case Sweep(tick) => map k | k in items && !Expired(items[k], tick) :: items[k]
    case Adjust(key, delta) =>
      var found := Find(items, Full(prefix, key), now);
      match Count(found)
      case None => items
      case Some(n) => items[Full(prefix, key) := Adjusted(found, Int64.Wrap(n + delta))]
  }

  /** The cache object, before Shutdown. */
  class Cache {
    const prefix: string
    var items: Items

    constructor (prefix: string)
      ensures this.prefix == prefix && items == map[]
    {
      this.prefix := prefix;
      items := map[];
    }

    method Get(key: Key, now: int) returns (r: Result)
      modifies this
      ensures r == CacheResult(prefix, old(items), now, Op.Get(key))
      ensures items == CacheNext(prefix, old(items), now, Op.Get(key))
    {
      var k := Full(prefix, key);
      if k !in items {
        return Miss;
      }
      if Expired(items[k], now) {
        items := items - {k};
        return Miss;
      }
      return Hit(items[k].value);
    }

    method Put(key: Key, value: Bytes, ttl: int, now: int)
      modifies this
      ensures items == CacheNext(prefix, old(items), now, Op.Put(key, value, ttl))
    {
      items := items[Full(prefix, key) := NewEntry(value, ttl, now)];
    }

    method Add(key: Key, value: Bytes, ttl: int, now: int) returns (r: Result)
      modifies this
      ensures r == CacheResult(prefix, old(items), now, Op.Add(key, value, ttl))
      ensures items == CacheNext(prefix, old(items), now, Op.Add(key, value, ttl))
    {
      var k := Full(prefix, key);
      if k in items && !Expired(items[k], now) {
        return Answer(false);
      }
      items := items[k := NewEntry(value, ttl, now)];
      return Answer(true);
    }

    method Has(key: Key, now: int) returns (r: Result)
      modifies this
      ensures r == CacheResult(prefix, old(items), now, Op.Has(key))
      ensures items == CacheNext(prefix, old(items), now, Op.Has(key))
    {
      var k := Full(prefix, key);
      if k !in items {
        return Answer(false);
      }
      if Expired(items[k], now) {
        items := items - {k};
        return Answer(false);
      }
      return Answer(true);
    }

    method Forget(key: Key, now: int)
      modifies this
      ensures items == CacheNext(prefix, old(items), now, Op.Forget(key))
    {
      items := items - {Full(prefix, key)};
    }

    /** Without a prefix the map is replaced; otherwise the keys with the
        prefix are deleted one by one. */
    method Flush(now: int)
      modifies this
      ensures items == CacheNext(prefix, old(items), now, Op.Flush)
    {
      if prefix == "" {
        items := map[];
        return;
      }
      var keys := items.Keys;
      while keys != {}
        invariant keys <= old(items).Keys
        invariant forall k :: k in items <==> k in old(items) && (k in keys || !HasPrefix(prefix, k))
        invariant forall k :: k in items ==> items[k] == old(items)[k]
        decreases keys
      {
        var k :| k in keys;
        if HasPrefix(prefix, k) {
          items := items - {k};
        }
        keys := keys - {k};
      }
    }

    method Adjust(key: Key, delta: int, now: int) returns (r: Result)
      modifies this
      ensures r == CacheResult(prefix, old(items), now, Op.Adjust(key, delta))
      ensures items == CacheNext(prefix, old(items), now, Op.Adjust(key, delta))
    {
      var k := Full(prefix, key);
      var current := 0;
      var expiresAt := Never;
      if k in items && !Expired(items[k], now) {
        var parsed := Decimal.Parse(items[k].value.text);
        if parsed.None? {
          return NotInteger;
        }
        current := parsed.value;
        expiresAt := items[k].expiresAt;
      }
      current := Int64.Wrap(current + delta);
      items := items[k := Entry(Bytes(Decimal.Format(current)), expiresAt)];
      return Counter(current);
    }

    method SweepOnce(tick: int, now: int)
      modifies this
      ensures items == CacheNext(prefix, old(items), now, Sweep(tick))
      ensures forall k :: k in items <==>
                k in old(items) && !(old(items)[k].expiresAt.At? && old(items)[k].expiresAt.time <= tick)
      ensures forall k :: k in items ==> items[k] == old(items)[k]
    {
      var keys := items.Keys;
      while keys != {}
        invariant keys <= old(items).Keys
        invariant forall k :: k in items <==> k in old(items) && (k in keys || !Expired(old(items)[k], tick))
        invariant forall k :: k in items ==> items[k] == old(items)[k]
        decreases keys
      {
        var k :| k in keys;
        if Expired(items[k], tick) {
          items := items - {k};
        }
        keys := keys - {k};
      }
    }
  }

  // ----- the cache is a timed map ----------------------------------------------------------------

  /** All stored keys carry the prefix. */
  ghost predicate Prefixed(prefix: string, items: Items) {
    forall k :: k in items ==> HasPrefix(prefix, k)
  }

  /** The cache holds a part of the timed map; what it lacks has expired. */
  ghost predicate Represents(prefix: string, items: Items, m: TimedMap, now: int) {
    && (forall key :: Full(prefix, key) in items ==> key in m && items[Full(prefix, key)] == m[key])
    && (forall key :: key in m && Full(prefix, key) !in items ==> Expired(m[key], now))
  }

  lemma FullIsInjective(prefix: string, a: Key, b: Key)
    requires Full(prefix, a) == Full(prefix, b)
    ensures a == b
  {
    assert (prefix + a.text)[|prefix|..] == a.text && (prefix + b.text)[|prefix|..] == b.text;
  }

  lemma FullHasPrefix(prefix: string, key: Key)
    ensures HasPrefix(prefix, Full(prefix, key))
  {
  }

  lemma SameFound(prefix: string, items: Items, m: TimedMap, from: int, now: int, key: Key)
    requires Represents(prefix, items, m, from) && from <= now
    ensures Find(items, Full(prefix, key), now) == FindTimed(m, key, now)
  {
  }

  /** Writing or removing one key on both sides. */
  lemma WriteRepresents(prefix: string, items: Items, m: TimedMap, now: int, key: Key, entry: Entry)
    requires Represents(prefix, items, m, now)
    ensures Represents(prefix, items[Full(prefix, key) := entry], m[key := entry], now)
    ensures Represents(prefix, items - {Full(prefix, key)}, m - {key}, now)
  {
    forall other | Full(prefix, other) == Full(prefix, key) ensures other == key {
      FullIsInjective(prefix, other, key);
    }
    hide Full;
  }

  lemma DropRepresents(prefix: string, items: Items, m: TimedMap, now: int, key: Key)
    requires Represents(prefix, items, m, now)
    ensures Represents(prefix, DropExpired(items, Full(prefix, key), now), m, now)
  {
  }

  lemma SweepRepresents(prefix: string, items: Items, m: TimedMap, now: int, tick: int)
    requires Represents(prefix, items, m, now) && tick <= now
    ensures Represents(prefix, CacheNext(prefix, items, now, Sweep(tick)), m, now)
  {
  }

  lemma FlushRepresents(prefix: string, items: Items, m: TimedMap, now: int)
    requires Prefixed(prefix, items)
    ensures CacheNext(prefix, items, now, Flush) == map[]
    ensures Represents(prefix, CacheNext(prefix, items, now, Flush), map[], now)
  {
  }

  lemma StepRepresents(prefix: string, items: Items, m: TimedMap, now: int, op: Op)
    requires Represents(prefix, items, m, now) && Prefixed(prefix, items)
    requires op.Sweep? ==> op.tick <= now
    ensures Represents(prefix, CacheNext(prefix, items, now, op), TimedNext(m, now, op), now)
    ensures Prefixed(prefix, CacheNext(prefix, items, now, op))
  {
    hide Represents, HasPrefix, Adjusted, Count;
    if op.Flush? {
      FlushRepresents(prefix, items, m, now);
    } else if op.Sweep? {
      SweepRepresents(prefix, items, m, now, op.tick);
    } else {
      var key := op.key;
      SameFound(prefix, items, m, now, now, key);
      FullHasPrefix(prefix, key);
      DropRepresents(prefix, items, m, now, key);
      var found := FindTimed(m, key, now);
      var entry := match op
        case Put(_, value, ttl) => NewEntry(value, ttl, now)
        case Add(_, value, ttl) => NewEntry(value, ttl, now)
        case Adjust(_, delta) =>
          Adjusted(found, if Count(found).Some? then Int64.Wrap(Count(found).value + delta) else 0)
        case _ => Adjusted(found, 0);
      WriteRepresents(prefix, items, m, now, key, entry);
      hide Find, FindTimed, Full;
    }
  }

  datatype Event = Event(now: int, op: Op)

  /** Operations and sweeps in the order of the clock. */
  predicate Ordered(from: int, events: seq<Event>)
    decreases events
  {
    events == []
    || (from <= events[0].now && (events[0].op.Sweep? ==> events[0].op.tick <= events[0].now)
        && Ordered(events[0].now, events[1..]))
  }

  function CacheResults(prefix: string, items: Items, events: seq<Event>): seq<Result>
    decreases events
  {
    if events == [] then []
    else
      var e := events[0];
      [CacheResult(prefix, items, e.now, e.op)]
      + CacheResults(prefix, CacheNext(prefix, items, e.now, e.op), events[1..])
  }

  function TimedResults(m: TimedMap, events: seq<Event>): seq<Result>
    decreases events
  {
    if events == [] then []
    else
      var e := events[0];
      [TimedResult(m, e.now, e.op)] + TimedResults(TimedNext(m, e.now, e.op), events[1..])
  }

  lemma TimePasses(prefix: string, items: Items, m: TimedMap, now: int, later: int)
    requires Represents(prefix, items, m, now) && now <= later
    ensures Represents(prefix, items, m, later)
  {
  }

  lemma {:induction false} CacheSimulatesTimedMap(
    prefix: string, items: Items, m: TimedMap, from: int, events: seq<Event>)
    requires Represents(prefix, items, m, from) && Prefixed(prefix, items) && Ordered(from, events)
    ensures CacheResults(prefix, items, events) == TimedResults(m, events)
    decreases events
  {
    hide Represents, Prefixed, CacheNext, TimedNext, Find, FindTimed, Reply, Full;
    if events != [] {
      var e := events[0];
      TimePasses(prefix, items, m, from, e.now);
      StepRepresents(prefix, items, m, e.now, e.op);
      if !e.op.Flush? && !e.op.Sweep? {
        SameFound(prefix, items, m, e.now, e.now, e.op.key);
      }
      var items', m' := CacheNext(prefix, items, e.now, e.op), TimedNext(m, e.now, e.op);
      CacheSimulatesTimedMap(prefix, items', m', e.now, events[1..]);
    }
  }

  /** Every run of operations, with sweeps anywhere, gets from the cache the
      results of a plain timed map without prefix, removal or sweeps. */
  lemma CacheIsATimedMap(prefix: string, from: int, events: seq<Event>)
    requires Ordered(from, events)
    ensures CacheResults(prefix, map[], events) == TimedResults(map[], events)
  {
    CacheSimulatesTimedMap(prefix, map[], map[], from, events);
  }

  /** A counter written by an adjustment reads back as the answered number, and
      keeps the expiry of the entry it replaced. */
  lemma AdjustedReadsBack(m: TimedMap, now: int, key: Key, delta: int)
    ensures match TimedResult(m, now, Adjust(key, delta))
            case Counter(n) =>
              var m' := TimedNext(m, now, Adjust(key, delta));
              && key in m' && Count(Present(m'[key])) == Some(n)
              && m'[key].expiresAt == (if FindTimed(m, key, now).Present? then m[key].expiresAt else Never)
              && FindTimed(m', key, now).Present?
            case r => r == NotInteger && TimedNext(m, now, Adjust(key, delta)) == m
  {
    hide Count, Adjusted, Int64.Wrap;
    if Count(FindTimed(m, key, now)).Some? {
      AdjustedCounts(FindTimed(m, key, now), delta, now);
    }
  }

  lemma AdjustedCounts(found: Found, delta: int, now: int)
    requires Count(found).Some? && (found.Present? ==> !Expired(found.entry, now))
    ensures var n := Int64.Wrap(Count(found).value + delta);
            var e := Adjusted(found, n);
            && Count(Present(e)) == Some(n) && !Expired(e, now)
            && e.expiresAt == if found.Present? then found.entry.expiresAt else Never
  {
    Decimal.ParseUndoesFormat(Int64.Wrap(Count(found).value + delta));
    hide Decimal.Parse, Decimal.Format, Int64.Wrap;
  }
}
