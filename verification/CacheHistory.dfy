/**
 The memory cache by its history: what a key holds at a moment is read off the
 operations so far, with neither map, entries nor expiry fields in between.
 */
module CacheHistory {
  import opened Wrappers
  import opened MemoryCache
  import Decimal
  import Int64

  /** What was stored at `since` with this TTL is there at `now`. */
  predicate Fresh(since: int, ttl: int, now: int) {
    ttl <= 0 || now < since + ttl
  }

  /** What the key holds at a moment after these operations, newest last. */
  function ValueAt(h: seq<Event>, key: Key, now: int): Option<Bytes>
    decreases |h|
  {
    if h == [] then None
    else
      var before, e := h[..|h| - 1], h[|h| - 1];
      match e.op
      case Flush => None
      case Forget(k) => if k == key then None else ValueAt(before, key, now)
      case Put(k, v, ttl) =>
        if k != key then ValueAt(before, key, now)
        else if Fresh(e.now, ttl, now) then Some(v) else None
      case Add(k, v, ttl) =>
        if k != key || ValueAt(before, key, e.now).Some? then ValueAt(before, key, now)
        else if Fresh(e.now, ttl, now) then Some(v) else None
      case Adjust(k, delta) =>
        if k != key then ValueAt(before, key, now)
        else
          (match ValueAt(before, key, e.now)
           case None => Some(Bytes(Decimal.Format(Int64.Wrap(delta))))
           case Some(v) =>
             // The new text lives as long as the old one would have.
             if Decimal.Parse(v.text).Some? && ValueAt(before, key, now).Some?
             then Some(Bytes(Decimal.Format(Int64.Wrap(Decimal.Parse(v.text).value + delta))))
             else ValueAt(before, key, now))
      case _ => ValueAt(before, key, now)
  }

  /** The result of an operation, by what its key held. */
  function ResultAt(h: seq<Event>, e: Event): Result {
    match e.op
    case Get(k) => (match ValueAt(h, k, e.now) case Some(v) => Hit(v) case None => Miss)
    case Has(k) => Answer(ValueAt(h, k, e.now).Some?)
    case Add(k, _, _) => Answer(ValueAt(h, k, e.now).None?)
    case Adjust(k, delta) =>
      (match ValueAt(h, k, e.now)
       case None => Counter(Int64.Wrap(delta))
       case Some(v) =>
         if Decimal.Parse(v.text).Some? then Counter(Int64.Wrap(Decimal.Parse(v.text).value + delta)) else NotInteger)
    case _ => Done
  }

  function TimedAfter(h: seq<Event>): TimedMap {
    if h == [] then map[]
    else TimedNext(TimedAfter(h[..|h| - 1]), h[|h| - 1].now, h[|h| - 1].op)
  }

  function ValueIn(m: TimedMap, key: Key, now: int): Option<Bytes> {
    match FindTimed(m, key, now)
    case Absent => None
    case Present(e) => Some(e.value)
  }

  /** No operation of the history is later. */
  ghost predicate Until(h: seq<Event>, now: int) {
    forall i :: 0 <= i < |h| ==> h[i].now <= now
  }

  /** The history is in the order of the clock. */
  ghost predicate InOrder(h: seq<Event>) {
    forall i, j :: 0 <= i <= j < |h| ==> h[i].now <= h[j].now
  }

  /** The timed map holds what the history says. */
  lemma {:induction false} MapIsHistory(h: seq<Event>, key: Key, now: int)
    requires InOrder(h) && Until(h, now)
    ensures ValueIn(TimedAfter(h), key, now) == ValueAt(h, key, now)
    decreases |h|
  {
    if h != [] {
      var before, e := h[..|h| - 1], h[|h| - 1];
      MapIsHistory(before, key, now);
      MapIsHistory(before, key, e.now);
      hide Decimal.Parse, Decimal.Format, Int64.Wrap;
      StepIsHistory(TimedAfter(before), e, key, now);
    }
  }

  /** One operation on the timed map, in terms of what the key held. */
  lemma StepIsHistory(m: TimedMap, e: Event, key: Key, now: int)
    requires e.now <= now
    ensures ValueIn(TimedNext(m, e.now, e.op), key, now) ==
            match e.op
            case Flush => None
            case Forget(k) => if k == key then None else ValueIn(m, key, now)
            case Put(k, v, ttl) =>
              if k != key then ValueIn(m, key, now) else if Fresh(e.now, ttl, now) then Some(v) else None
            case Add(k, v, ttl) =>
              if k != key || ValueIn(m, key, e.now).Some? then ValueIn(m, key, now)
              else if Fresh(e.now, ttl, now) then Some(v) else None
            case Adjust(k, delta) =>
              if k != key then ValueIn(m, key, now)
              else
                (match ValueIn(m, key, e.now)
                 case None => Some(Bytes(Decimal.Format(Int64.Wrap(delta))))
                 case Some(v) =>
                   if Decimal.Parse(v.text).Some? && ValueIn(m, key, now).Some?
                   then Some(Bytes(Decimal.Format(Int64.Wrap(Decimal.Parse(v.text).value + delta))))
                   else ValueIn(m, key, now))
            case _ => ValueIn(m, key, now)
  {
    hide Decimal.Parse, Decimal.Format, Int64.Wrap;
  }

  lemma {:induction false} ResultsOfRun(h: seq<Event>, rest: seq<Event>, j: nat)
    requires j < |rest|
    ensures |TimedResults(TimedAfter(h), rest)| == |rest|
    ensures TimedResults(TimedAfter(h), rest)[j] == TimedResult(TimedAfter(h + rest[..j]), rest[j].now, rest[j].op)
    decreases |rest|
  {
    var h' := h + [rest[0]];
    assert h'[..|h'| - 1] == h;
    if |rest| > 1 {
      ResultsOfRun(h', rest[1..], if j > 0 then j - 1 else 0);
    }
    if j == 0 {
      assert h + rest[..0] == h;
    } else {
      assert h' + rest[1..][..j - 1] == h + rest[..j];
    }
  }

  lemma {:induction false} OrderedMeans(from: int, events: seq<Event>, i: nat, j: nat)
    requires Ordered(from, events) && i <= j < |events|
    ensures from <= events[i].now <= events[j].now
    decreases |events|
  {
    if i > 0 {
      OrderedMeans(events[0].now, events[1..], i - 1, j - 1);
    } else if j > 0 {
      OrderedMeans(events[0].now, events[1..], 0, j - 1);
    }
  }

  lemma ResultIsHistory(h: seq<Event>, e: Event)
    requires InOrder(h) && Until(h, e.now)
    ensures TimedResult(TimedAfter(h), e.now, e.op) == ResultAt(h, e)
  {
    if !e.op.Flush? && !e.op.Sweep? {
      MapIsHistory(h, e.op.key, e.now);
    }
    hide Decimal.Parse, Int64.Wrap, TimedAfter, ValueAt;
  }

  /** Every result of every run of the cache, with any prefix and sweeps anywhere,
      is the one its history of operations determines. */
  lemma CacheMeansItsHistory(prefix: string, from: int, events: seq<Event>, i: nat)
    requires Ordered(from, events) && i < |events|
    ensures |CacheResults(prefix, map[], events)| == |events|
    ensures CacheResults(prefix, map[], events)[i] == ResultAt(events[..i], events[i])
  {
    CacheIsATimedMap(prefix, from, events);
    ResultsOfRun([], events, i);
    assert [] + events[..i] == events[..i];
    forall j, k | 0 <= j <= k <= i
      ensures events[j].now <= events[k].now
    {
      OrderedMeans(from, events, j, k);
    }
    ResultIsHistory(events[..i], events[i]);
    hide CacheResults, TimedResults, TimedResult, ResultAt;
  }
}
