/**
 One token bucket, as the Redis script and the memory limiter compute it.
 Times are seconds and, like tokens and rates, real numbers.
 */
module TokenBucket {
  import opened Wrappers

  datatype Limits = Limits(rate: real, burst: int)

  datatype Bucket = Bucket(tokens: real, last: real)

  predicate ValidLimits(l: Limits) {
    l.rate > 0.0 && l.burst >= 1
  }

  /** Non-positive settings select ten calls a second and bursts of twenty. */
  function WithDefaults(rate: real, burst: int): (l: Limits)
    ensures ValidLimits(l)
    ensures l.rate == (if rate > 0.0 then rate else 10.0) && l.burst == if burst > 0 then burst else 20
  {
    Limits(if rate <= 0.0 then 10.0 else rate, if burst <= 0 then 20 else burst)
  }

  function Max(a: real, b: real): real {
    if a < b then b else a
  }

  function Min(a: real, b: real): real {
    if a < b then a else b
  }

  /** Tokens that flow in between two instants; none if the clock stepped back. */
  function Inflow(l: Limits, from: real, to: real): real {
    Max(0.0, to - from) * l.rate
  }

  /** Tokens at hand when a call arrives: a missing bucket is full, the others
      are refilled for the time since their last call, up to the burst. */
  function Refill(l: Limits, b: Option<Bucket>, now: real): real {
    match b
    case None => l.burst as real
    case Some(b) => Min(l.burst as real, b.tokens + Inflow(l, b.last, now))
  }

  predicate Allows(l: Limits, b: Option<Bucket>, now: real) {
    Refill(l, b, now) >= 1.0
  }

  /** The bucket after a call, which takes a token if there is a whole one. */
  function Take(l: Limits, b: Option<Bucket>, now: real): Bucket {
    Bucket(Refill(l, b, now) - if Allows(l, b, now) then 1.0 else 0.0, now)
  }

  predicate InBounds(l: Limits, b: Option<Bucket>) {
    b.Some? ==> 0.0 <= b.value.tokens <= l.burst as real
  }

  /** Answers to calls at the given times. */
  function Answers(l: Limits, b: Option<Bucket>, times: seq<real>): (r: seq<bool>)
    ensures |r| == |times|
    decreases times
  {
    if times == [] then []
    else [Allows(l, b, times[0])] + Answers(l, Some(Take(l, b, times[0])), times[1..])
  }

  function After(l: Limits, b: Option<Bucket>, times: seq<real>): Option<Bucket>
    decreases times
  {
    if times == [] then b else After(l, Some(Take(l, b, times[0])), times[1..])
  }

  function CountTrue(answers: seq<bool>): nat {
    if answers == [] then 0 else (if answers[0] then 1 else 0) + CountTrue(answers[1..])
  }

  /** The time by which the clock advanced, counting advances only. */
  function Climb(from: real, times: seq<real>): (r: real)
    ensures r >= 0.0
    decreases times
  {
    if times == [] then 0.0 else Max(0.0, times[0] - from) + Climb(times[0], times[1..])
  }

  lemma TokensStayInBounds(l: Limits, b: Option<Bucket>, now: real)
    requires ValidLimits(l) && InBounds(l, b)
    ensures InBounds(l, Some(Take(l, b, now)))
    ensures 0.0 <= Refill(l, b, now) <= l.burst as real
  {
  }

  lemma {:induction false} TokensAlwaysInBounds(l: Limits, b: Option<Bucket>, times: seq<real>)
    requires ValidLimits(l) && InBounds(l, b)
    ensures InBounds(l, After(l, b, times))
    decreases times
  {
    if times != [] {
      TokensStayInBounds(l, b, times[0]);
      TokensAlwaysInBounds(l, Some(Take(l, b, times[0])), times[1..]);
    }
  }

  /** Tokens that the refills of a sequence of calls add at most. */
  function Earned(l: Limits, from: real, times: seq<real>): real
    decreases times
  {
    if times == [] then 0.0 else Inflow(l, from, times[0]) + Earned(l, times[0], times[1..])
  }

  lemma Distribute(x: real, a: real, b: real)
    ensures x * (a + b) == a * x + x * b
  {
  }

  lemma {:induction false} EarnedIsRateTimesClimb(l: Limits, from: real, times: seq<real>)
    ensures Earned(l, from, times) == l.rate * Climb(from, times)
    decreases times
  {
    if times != [] {
      EarnedIsRateTimesClimb(l, times[0], times[1..]);
      Distribute(l.rate, Max(0.0, times[0] - from), Climb(times[0], times[1..]));
    }
  }

  /** What a bucket hands out is what it holds plus what it is refilled with. */
  lemma {:induction false} SpentFromBucket(l: Limits, b: Bucket, times: seq<real>)
    requires ValidLimits(l) && InBounds(l, Some(b))
    ensures CountTrue(Answers(l, Some(b), times)) as real <= b.tokens + Earned(l, b.last, times)
    decreases times
  {
    hide Inflow;
    if times != [] {
      var b' := Take(l, Some(b), times[0]);
      TokensStayInBounds(l, Some(b), times[0]);
      SpentFromBucket(l, b', times[1..]);
      FirstAnswer(l, Some(b), times);
    }
  }

  lemma FirstAnswer(l: Limits, b: Option<Bucket>, times: seq<real>)
    requires times != []
    ensures CountTrue(Answers(l, b, times)) == (if Allows(l, b, times[0]) then 1 else 0)
                                               + CountTrue(Answers(l, Some(Take(l, b, times[0])), times[1..]))
  {
  }

  lemma ClimbFromFirst(times: seq<real>)
    requires times != []
    ensures Climb(times[0], times) == Climb(times[0], times[1..])
  {
  }

  /** Rate bound on any clock: the calls that a window allows, whatever happened
      before it, are at most the burst plus the rate times the clock's advance. */
  lemma RateBound(l: Limits, b: Option<Bucket>, times: seq<real>)
    requires ValidLimits(l) && InBounds(l, b) && times != []
    ensures CountTrue(Answers(l, b, times)) as real <= l.burst as real + l.rate * Climb(times[0], times)
  {
    hide *;
    WindowSpends(l, b, times);
    EarnedIsRateTimesClimb(l, times[0], times[1..]);
    ClimbFromFirst(times);
  }

  lemma WindowSpends(l: Limits, b: Option<Bucket>, times: seq<real>)
    requires ValidLimits(l) && InBounds(l, b) && times != []
    ensures CountTrue(Answers(l, b, times)) as real <= l.burst as real + Earned(l, times[0], times[1..])
  {
    hide Inflow, Answers, CountTrue, Earned;
    TokensStayInBounds(l, b, times[0]);
    SpentFromBucket(l, Take(l, b, times[0]), times[1..]);
    FirstAnswer(l, b, times);
  }

  predicate NonDecreasing(times: seq<real>) {
    forall i, j :: 0 <= i <= j < |times| ==> times[i] <= times[j]
  }

  lemma {:induction false} ClimbOfSteadyClock(from: real, times: seq<real>)
    requires NonDecreasing(times) && (times != [] ==> from <= times[0])
    ensures Climb(from, times) == if times == [] then 0.0 else times[|times| - 1] - from
    decreases times
  {
    if times != [] {
      assert forall i :: 0 <= i < |times| - 1 ==> times[1..][i] == times[i + 1];
      ClimbOfSteadyClock(times[0], times[1..]);
    }
  }

  /** Rate bound on a clock that does not step back: in every window [s, t]. */
  lemma RateBoundInWindow(l: Limits, b: Option<Bucket>, times: seq<real>, s: real, t: real)
    requires ValidLimits(l) && InBounds(l, b) && NonDecreasing(times) && s <= t
    requires forall i :: 0 <= i < |times| ==> s <= times[i] <= t
    ensures CountTrue(Answers(l, b, times)) as real <= l.burst as real + l.rate * (t - s)
  {
    hide Answers, CountTrue, Climb;
    ProductGrows(l.rate, 0.0, t - s);
    if times == [] {
      NothingAllowed(l, b);
    } else {
      RateBound(l, b, times);
      ClimbOfSteadyClock(times[0], times);
      ProductGrows(l.rate, times[|times| - 1] - times[0], t - s);
    }
  }

  lemma NothingAllowed(l: Limits, b: Option<Bucket>)
    ensures CountTrue(Answers(l, b, [])) == 0
  {
  }

  lemma ProductGrows(x: real, a: real, b: real)
    requires x > 0.0 && a <= b
    ensures x * a <= x * b
  {
  }

  lemma ProductGrowsStrictly(x: real, a: real, b: real)
    requires x > 0.0 && a < b
    ensures x * a < x * b
  {
  }

  // ----- traffic that is never refused ----------------------------------------------------

  lemma {:induction false} AnswersOfWindow(l: Limits, b: Option<Bucket>, before: seq<real>, window: seq<real>)
    ensures Answers(l, b, before + window) == Answers(l, b, before) + Answers(l, After(l, b, before), window)
    decreases before
  {
    if before == [] {
      assert before + window == window;
    } else {
      assert (before + window)[1..] == before[1..] + window;
      AnswersOfWindow(l, Some(Take(l, b, before[0])), before[1..], window);
    }
  }

  lemma {:induction false} AfterMore(l: Limits, b: Option<Bucket>, times: seq<real>, t: real)
    ensures After(l, b, times + [t]) == Some(Take(l, After(l, b, times), t))
    decreases times
  {
    if times == [] {
      assert times + [t] == [t];
    } else {
      assert (times + [t])[1..] == times[1..] + [t];
      AfterMore(l, Some(Take(l, b, times[0])), times[1..], t);
    }
  }

  /** Call number k is answered from the bucket that the calls before it left. */
  lemma AnswerAt(l: Limits, times: seq<real>, k: nat)
    requires k < |times|
    ensures Answers(l, None, times)[k] == Allows(l, After(l, None, times[..k]), times[k])
  {
    assert times == times[..k] + times[k..];
    AnswersOfWindow(l, None, times[..k], times[k..]);
  }

  predicate AllPass(l: Limits, times: seq<real>) {
    AllTrue(Answers(l, None, times))
  }

  /** What passes between call i and call j is within the rate. */
  predicate Within(l: Limits, times: seq<real>, i: nat, j: nat)
    requires i <= j < |times|
  {
    (j - i + 1) as real <= l.burst as real + l.rate * (times[j] - times[i])
  }

  /** The calls themselves keep to the rate, in every window between two of them. */
  predicate Conforming(l: Limits, times: seq<real>) {
    forall i, j :: 0 <= i <= j < |times| ==> Within(l, times, i, j)
  }

  /** The bucket after call k - 1 is what is left of a burst taken up at call i. */
  predicate IsLeft(l: Limits, times: seq<real>, b: Bucket, i: nat, k: nat)
    requires i < k <= |times|
  {
    b.last == times[k - 1] && b.tokens == l.burst as real + l.rate * (times[k - 1] - times[i]) - (k - i) as real
  }

  /** As long as all calls passed, the bucket holds what is left of a burst since the
      last call that found it full. */
  lemma {:induction false} LeftSinceFull(l: Limits, times: seq<real>, k: nat) returns (i: nat)
    requires ValidLimits(l) && NonDecreasing(times) && 0 < k <= |times|
    requires forall j :: 0 <= j < k ==> Answers(l, None, times)[j]
    ensures i < k && After(l, None, times[..k]).Some?
    ensures IsLeft(l, times, After(l, None, times[..k]).value, i, k)
  {
    var t := times[k - 1];
    assert times[..k] == times[..k - 1] + [t];
    AfterMore(l, None, times[..k - 1], t);
    AnswerAt(l, times, k - 1);
    if k == 1 {
      assert times[..0] == [];
      i := 0;
    } else {
      i := LeftSinceFull(l, times, k - 1);
      var b := After(l, None, times[..k - 1]).value;
      Grown(l, b, t);
      hide Refill;
      if Refill(l, Some(b), t) == l.burst as real {
        i := k - 1;
      } else {
        MoreTime(l.rate, times[i], times[k - 2], t);
      }
    }
  }

  lemma MoreTime(rate: real, a: real, b: real, c: real)
    ensures rate * (b - a) + rate * (c - b) == rate * (c - a)
  {
  }

  /** A bucket grows by the rate until it is full. */
  lemma Grown(l: Limits, b: Bucket, t: real)
    requires b.last <= t
    ensures Refill(l, Some(b), t) == Min(l.burst as real, b.tokens + l.rate * (t - b.last))
  {
    assert Max(0.0, t - b.last) * l.rate == l.rate * (t - b.last);
  }

  lemma EnoughLeft(l: Limits, times: seq<real>, b: Bucket, i: nat, j: nat)
    requires ValidLimits(l) && NonDecreasing(times) && i < j < |times| && Within(l, times, i, j)
    requires IsLeft(l, times, b, i, j)
    ensures Refill(l, Some(b), times[j]) >= 1.0
  {
    Grown(l, b, times[j]);
    MoreTime(l.rate, times[i], times[j - 1], times[j]);
    hide Refill;
  }

  lemma {:induction false} ConformingPasses(l: Limits, times: seq<real>, k: nat)
    requires ValidLimits(l) && NonDecreasing(times) && Conforming(l, times) && k <= |times|
    ensures forall j :: 0 <= j < k ==> Answers(l, None, times)[j]
  {
    if k > 0 {
      ConformingPasses(l, times, k - 1);
      AnswerAt(l, times, k - 1);
      if k == 1 {
        assert times[..0] == [];
      } else {
        hide Refill, After, Answers, IsLeft, Within;
        var i := LeftSinceFull(l, times, k - 1);
        assert Within(l, times, i, k - 1);
        EnoughLeft(l, times, After(l, None, times[..k - 1]).value, i, k - 1);
      }
    }
  }

  predicate AllTrue(answers: seq<bool>) {
    forall k :: 0 <= k < |answers| ==> answers[k]
  }

  lemma {:induction false} AllTrueCount(answers: seq<bool>)
    requires AllTrue(answers)
    ensures CountTrue(answers) == |answers|
  {
    if answers != [] {
      AllTrueCount(answers[1..]);
    }
  }

  /** Exactly the traffic that keeps to the rate is never refused: on a clock that
      does not step back all calls pass if and only if between any two of them, both
      counted, there are at most burst + rate * (the time between them). */
  lemma AllPassIffConforming(l: Limits, times: seq<real>)
    requires ValidLimits(l) && NonDecreasing(times)
    ensures AllPass(l, times) <==> Conforming(l, times)
  {
    if Conforming(l, times) {
      ConformingPasses(l, times, |times|);
    }
    if AllPass(l, times) {
      forall i, j | 0 <= i <= j < |times|
        ensures Within(l, times, i, j)
      {
        PassingIsWithin(l, times, i, j);
      }
    }
  }

  lemma PassingIsWithin(l: Limits, times: seq<real>, i: nat, j: nat)
    requires ValidLimits(l) && NonDecreasing(times) && AllPass(l, times) && i <= j < |times|
    ensures Within(l, times, i, j)
  {
    hide Answers, CountTrue, After;
    var before, window := times[..i], times[i..j + 1];
    WindowPasses(l, times, i, j);
    AllTrueCount(Answers(l, After(l, None, before), window));
    TokensAlwaysInBounds(l, None, before);
    RateBoundInWindow(l, After(l, None, before), window, times[i], times[j]);
  }

  lemma WindowPasses(l: Limits, times: seq<real>, i: nat, j: nat)
    requires AllPass(l, times) && i <= j < |times|
    ensures AllTrue(Answers(l, After(l, None, times[..i]), times[i..j + 1]))
  {
    hide Answers, After;
    var before, window, rest := times[..i], times[i..j + 1], times[j + 1..];
    assert times == before + (window + rest);
    AnswersOfWindow(l, None, before, window + rest);
    AnswersOfWindow(l, After(l, None, before), window, rest);
    var answers := Answers(l, After(l, None, before), window);
    assert forall k :: 0 <= k < |answers| ==> answers[k] == Answers(l, None, times)[i + k];
  }

  // ----- clocks that step back ----------------------------------------------------------

  /** The clock never lies more than d behind a time it has shown before. */
  predicate SkewAtMost(times: seq<real>, d: real) {
    forall i, j :: 0 <= i <= j < |times| ==> times[i] - times[j] <= d
  }

  /** A window of a run on such a clock. */
  ghost predicate SkewedWindow(before: seq<real>, window: seq<real>, d: real, s: real, t: real) {
    && SkewAtMost(before + window, d) && s <= t
    && forall i :: 0 <= i < |window| ==> s <= window[i] <= t
  }

  /** Every window of every run with such a clock obeys the rate. */
  ghost predicate BoundedUnderSkew(l: Limits, d: real) {
    forall before, window, s, t :: SkewedWindow(before, window, d, s, t) ==>
      CountTrue(Answers(l, None, before + window)[|before|..]) as real <= l.burst as real + l.rate * (t - s)
  }

  function Repeat(t: real, n: nat): (r: seq<real>)
    ensures |r| == n && forall i :: 0 <= i < n ==> r[i] == t
  {
    if n == 0 then [] else [t] + Repeat(t, n - 1)
  }

  /** A clock that swings k times up to h and back to zero, as between skewed replicas. */
  function Swings(h: real, k: nat): (r: seq<real>)
    requires h >= 0.0
    ensures forall i :: 0 <= i < |r| ==> 0.0 <= r[i] <= h
  {
    if k == 0 then [] else [h, 0.0] + Swings(h, k - 1)
  }

  function Rounds(h: real, k: nat, n: nat): (r: seq<real>)
    requires h >= 0.0
    ensures forall i :: 0 <= i < |r| ==> 0.0 <= r[i] <= h
  {
    if n == 0 then [] else Swings(h, k) + Rounds(h, k, n - 1)
  }

  /** One swing earns u tokens; together with what was there they may make a whole one. */
  lemma OneSwing(l: Limits, h: real, u: real, x: real, rest: seq<real>)
    requires ValidLimits(l) && h >= 0.0 && h * l.rate == u && 0.0 <= x && x + u <= 1.0
    ensures var passes := x + u == 1.0;
            CountTrue(Answers(l, Some(Bucket(x, 0.0)), [h, 0.0] + rest)) ==
            (if passes then 1 else 0)
            + CountTrue(Answers(l, Some(Bucket(if passes then 0.0 else x + u, 0.0)), rest))
  {
    var times := [h, 0.0] + rest;
    assert times[0] == h && times[1..] == [0.0] + rest && times[1..][1..] == rest;
    var b, b1 := Some(Bucket(x, 0.0)), Some(Take(l, Some(Bucket(x, 0.0)), h));
    assert Inflow(l, 0.0, h) == u && Refill(l, b, h) == x + u;
    FirstAnswer(l, b, times);
    assert Inflow(l, h, 0.0) == 0.0 && Refill(l, b1, 0.0) == b1.value.tokens < 1.0;
    FirstAnswer(l, b1, times[1..]);
    hide Answers, CountTrue, Refill;
  }

  /** The swings that are missing to a whole token let one call pass. */
  lemma {:induction false} SwingsPassOne(l: Limits, h: real, u: real, x: real, k: nat, rest: seq<real>)
    requires ValidLimits(l) && h >= 0.0 && h * l.rate == u && u > 0.0
    requires k > 0 && 0.0 <= x && x + k as real * u == 1.0
    ensures CountTrue(Answers(l, Some(Bucket(x, 0.0)), Swings(h, k) + rest)) ==
            1 + CountTrue(Answers(l, Some(Bucket(0.0, 0.0)), rest))
    decreases k
  {
    var more := Swings(h, k - 1) + rest;
    assert Swings(h, k) + rest == [h, 0.0] + more;
    assert k as real * u == (k - 1) as real * u + u;
    OneMoreThan(k - 1, u);
    OneSwing(l, h, u, x, more);
    hide Answers, CountTrue;
    if k == 1 {
      assert more == rest;
    } else {
      SwingsPassOne(l, h, u, x + u, k - 1, rest);
    }
  }

  lemma OneMoreThan(n: nat, u: real)
    requires u > 0.0
    ensures n as real * u >= 0.0 && (n == 0 <==> n as real * u == 0.0)
  {
  }

  lemma {:induction false} RoundsPass(l: Limits, h: real, u: real, k: nat, n: nat)
    requires ValidLimits(l) && h >= 0.0 && h * l.rate == u && u > 0.0 && k > 0 && k as real * u == 1.0
    ensures CountTrue(Answers(l, Some(Bucket(0.0, 0.0)), Rounds(h, k, n))) == n
    decreases n
  {
    hide Answers, CountTrue;
    if n == 0 {
      NothingAllowed(l, Some(Bucket(0.0, 0.0)));
    } else {
      SwingsPassOne(l, h, u, 0.0, k, Rounds(h, k, n - 1));
      RoundsPass(l, h, u, k, n - 1);
    }
  }

  /** Calls at one instant pass while the tokens last. */
  lemma {:induction false} BurstPasses(l: Limits, b: Option<Bucket>, n: nat, rest: seq<real>)
    requires ValidLimits(l) && n > 0 && Refill(l, b, 0.0) == n as real
    ensures CountTrue(Answers(l, b, Repeat(0.0, n) + rest)) ==
            n + CountTrue(Answers(l, Some(Bucket(0.0, 0.0)), rest))
    decreases n
  {
    var more := Repeat(0.0, n - 1) + rest;
    assert Repeat(0.0, n) + rest == [0.0] + more;
    assert ([0.0] + more)[1..] == more;
    FirstAnswer(l, b, [0.0] + more);
    var b' := Take(l, b, 0.0);
    assert b' == Bucket((n - 1) as real, 0.0);
    hide Answers, CountTrue;
    if n == 1 {
      assert more == rest;
    } else {
      assert n as real <= l.burst as real;
      BurstPasses(l, Some(b'), n - 1, rest);
    }
  }

  /** A swing no higher than d that earns the k-th part of a token. */
  lemma SmallSwing(l: Limits, d: real) returns (h: real, u: real, k: nat)
    requires ValidLimits(l) && d > 0.0
    ensures 0.0 <= h <= d && h * l.rate == u && u > 0.0 && k > 0 && k as real * u == 1.0
  {
    var earned := d * l.rate;
    assert earned > 0.0;
    k := (1.0 / earned).Floor as nat + 1;
    u := 1.0 / k as real;
    h := u / l.rate;
    SmallerThan(earned, k as real, u);
    if h > d {
      ProductGrows(l.rate, d, h);
    }
  }

  lemma SmallerThan(x: real, k: real, u: real)
    requires x > 0.0 && k > 1.0 / x && u == 1.0 / k
    ensures 0.0 < u < x && k * u == 1.0
  {
    ProductGrowsStrictly(x, 1.0 / x, k);
    assert x * (1.0 / x) == 1.0 && k * u == 1.0;
    if u >= x {
      ProductGrows(k, x, u);
    }
  }

  /** On a clock that steps back, however little, the window bound fails without
      limit: for all limits, every skew d > 0 and every n, a run that stays
      between 0 and d lets the burst and n more calls pass. */
  lemma SkewedClockBreaksWindow(l: Limits, d: real, n: nat) returns (times: seq<real>)
    requires ValidLimits(l) && d > 0.0
    ensures SkewAtMost(times, d) && forall i :: 0 <= i < |times| ==> 0.0 <= times[i] <= d
    ensures CountTrue(Answers(l, None, times)) == l.burst + n
  {
    var h, u, k := SmallSwing(l, d);
    times := Repeat(0.0, l.burst) + Rounds(h, k, n);
    RoundsPass(l, h, u, k, n);
    BurstPasses(l, None, l.burst, Rounds(h, k, n));
    hide Answers, CountTrue;
  }

  /** The exact condition: for all limits, every window of every run whose clock
      steps back by at most d obeys the rate exactly when d is zero. */
  lemma BoundedUnderSkewIff(l: Limits, d: real)
    requires ValidLimits(l) && d >= 0.0
    ensures BoundedUnderSkew(l, d) <==> d == 0.0
  {
    hide Answers, CountTrue;
    if d == 0.0 {
      forall before, window, s, t | SkewedWindow(before, window, d, s, t)
        ensures CountTrue(Answers(l, None, before + window)[|before|..]) as real
             <= l.burst as real + l.rate * (t - s)
      {
        assert forall i :: 0 <= i < |window| ==> window[i] == (before + window)[|before| + i];
        TokensAlwaysInBounds(l, None, before);
        AnswersOfWindow(l, None, before, window);
        RateBoundInWindow(l, After(l, None, before), window, s, t);
      }
    } else {
      var n := (l.rate * d).Floor as nat + 1;
      var times := SkewedClockBreaksWindow(l, d, n);
      assert [] + times == times && Answers(l, None, times)[0..] == Answers(l, None, times);
      assert SkewedWindow([], times, d, 0.0, d);
    }
  }
}
