/**
 Retry policy and waiting times of the queue.  Durations are int64 nanoseconds
 in the program, so products and sums wrap around; here they are integers and
 the wrap-around is written out.
 */
module Retry {
  import opened Wrappers
  import Int64

  const MILLISECOND: int := 1_000_000
  const SECOND: int := 1_000_000_000
  const MINUTE: int := 60_000_000_000

  function Min(a: int, b: int): int {
    if a < b then a else b
  }

  function Pow2(k: nat): (r: int)
    ensures r >= 1
  {
    if k == 0 then 1 else 2 * Pow2(k - 1)
  }

  datatype RetryPolicy = RetryPolicy(maxAttempts: int, base: Int64.Number, max: Int64.Number, dlqSuffix: string)

  function WithDefaults(p: RetryPolicy): (r: RetryPolicy)
    ensures r.maxAttempts > 0 && r.base > 0 && r.max > 0 && r.dlqSuffix != ""
    ensures p.maxAttempts > 0 && p.base > 0 && p.max > 0 && p.dlqSuffix != "" ==> r == p
    ensures var none := RetryPolicy(0, 0, 0, "");
            p == none ==> r == RetryPolicy(3, 1_000_000_000, 300_000_000_000, "-dlq")
  {
    RetryPolicy(if p.maxAttempts <= 0 then 3 else p.maxAttempts,
                if p.base <= 0 then SECOND else p.base,
                if p.max <= 0 then 5 * MINUTE else p.max,
                if p.dlqSuffix == "" then "-dlq" else p.dlqSuffix)
  }

  function Exponent(attempt: int): nat {
    var a := if attempt <= 0 then 1 else attempt;
    if a - 1 < 10 then a - 1 else 10
  }

  /** The delay before a retry, or None where the program panics: the jitter
      is drawn from an empty range.  `random` is any random integer. */
  function ComputeBackoff(policy: RetryPolicy, attempt: int, random: nat): Option<int> {
    var p := WithDefaults(policy);
    var product := Int64.Wrap(p.base * Pow2(Exponent(attempt)));
    var d := if product > p.max then p.max else product;
    var range := Int64.Quotient(d, 10);
    if range <= 0 then None else Some(Int64.Wrap(d + random % range))
  }

  /** The exponential delay before it is capped, as an unbounded integer. */
  function Product(policy: RetryPolicy, attempt: int): int {
    WithDefaults(policy).base * Pow2(Exponent(attempt))
  }

  /** The delay aimed at: exponential up to the tenth doubling, then capped. */
  function Target(policy: RetryPolicy, attempt: int): int {
    Min(Product(policy, attempt), WithDefaults(policy).max)
  }

  lemma {:induction false} Pow2Monotone(j: nat, k: nat)
    requires j <= k
    ensures Pow2(j) <= Pow2(k)
  {
    if j < k {
      Pow2Monotone(j, k - 1);
    }
  }

  lemma ScaleGrows(x: int, a: int, b: int)
    requires x > 0 && a <= b
    ensures x * a <= x * b
  {
  }

  /** The delay is at least the target and less than a tenth above it. */
  predicate WithinATenth(policy: RetryPolicy, attempt: int, random: nat) {
    var c, delay := Target(policy, attempt), ComputeBackoff(policy, attempt, random);
    delay.Some? && c <= delay.value < c + c / 10
  }

  /** The product fits, or wraps to something that the cap covers all the same. */
  predicate ReachesTarget(policy: RetryPolicy, attempt: int) {
    Product(policy, attempt) <= Int64.MAX || Int64.Wrap(Product(policy, attempt)) >= WithDefaults(policy).max
  }

  /** The delay before jitter is the target exactly when the product fits or its
      wrapped value reaches the cap; otherwise it is less. */
  lemma CapHidesSomeOverflows(policy: RetryPolicy, attempt: int)
    ensures var d := Min(Int64.Wrap(Product(policy, attempt)), WithDefaults(policy).max);
            if ReachesTarget(policy, attempt) then d == Target(policy, attempt) else d < Target(policy, attempt)
  {
    ScaleGrows(WithDefaults(policy).base, 1, Pow2(Exponent(attempt)));
  }

  /** For every policy and attempt: the delay stays within a tenth above its
      target, whatever the random number, exactly when the target is at least ten
      nanoseconds, the doubling does not overflow unseen, and neither does the jitter. */
  lemma BackoffWithinATenthIff(policy: RetryPolicy, attempt: int)
    ensures (forall random: nat :: WithinATenth(policy, attempt, random)) <==>
            var c := Target(policy, attempt);
            10 <= c && ReachesTarget(policy, attempt) && c + c / 10 - 1 <= Int64.MAX
  {
    CapHidesSomeOverflows(policy, attempt);
    var c := Target(policy, attempt);
    var d := Min(Int64.Wrap(Product(policy, attempt)), WithDefaults(policy).max);
    hide Product, ReachesTarget, Target, ComputeBackoff, Int64.Wrap;
    if d >= 10 {
      forall random: nat
        ensures ComputeBackoff(policy, attempt, random) == Some(Int64.Wrap(d + random % (d / 10)))
        ensures 0 <= random % (d / 10) < d / 10
      {
        DelayOf(policy, attempt, random);
      }
      SmallModulus(d / 10);
      if d == c && c + c / 10 - 1 > Int64.MAX {
        Int64.WrapAbove(c + c / 10 - 1);
        assert !WithinATenth(policy, attempt, c / 10 - 1);
      } else if d < c {
        assert !WithinATenth(policy, attempt, 0);
      }
    } else {
      DelayOf(policy, attempt, 0);
      assert !WithinATenth(policy, attempt, 0);
    }
  }

  lemma SmallModulus(n: int)
    requires n > 0
    ensures 0 % n == 0 && (n - 1) % n == n - 1
  {
  }

  /** What the call computes from the wrapped and capped product: it panics exactly
      if that is below ten nanoseconds. */
  lemma DelayOf(policy: RetryPolicy, attempt: int, random: nat)
    ensures var d := Min(Int64.Wrap(Product(policy, attempt)), WithDefaults(policy).max);
            && (ComputeBackoff(policy, attempt, random).None? <==> d < 10)
            && (d >= 10 ==> ComputeBackoff(policy, attempt, random) == Some(Int64.Wrap(d + random % (d / 10))))
  {
  }

  /** No attempt panics exactly when the cap and every wrapped doubling are at
      least ten nanoseconds; without overflow that is the cap and the base. */
  lemma NeverPanicsIff(policy: RetryPolicy, random: nat)
    ensures (forall attempt :: ComputeBackoff(policy, attempt, random).Some?) <==>
            WithDefaults(policy).max >= 10 && AllDoublingsFrom10(WithDefaults(policy).base)
    ensures var base := WithDefaults(policy).base;
            base * 1024 <= Int64.MAX ==> (AllDoublingsFrom10(base) <==> base >= 10)
  {
    var base := WithDefaults(policy).base;
    forall attempt
      ensures ComputeBackoff(policy, attempt, random).Some? <==>
              Int64.Wrap(base * Pow2(Exponent(attempt))) >= 10 && WithDefaults(policy).max >= 10
    {
      DelayOf(policy, attempt, random);
    }
    hide ComputeBackoff;
    if forall attempt :: ComputeBackoff(policy, attempt, random).Some? {
      assert ComputeBackoff(policy, 1, random).Some?;
      forall e | 0 <= e <= 10
        ensures Int64.Wrap(base * Pow2(e)) >= 10
      {
        assert Exponent(e + 1) == e && ComputeBackoff(policy, e + 1, random).Some?;
      }
    }
    if base * 1024 <= Int64.MAX {
      SmallDoublings(base);
    }
  }

  predicate AllDoublingsFrom10(base: int) {
    forall e: nat :: e <= 10 ==> Int64.Wrap(base * Pow2(e)) >= 10
  }

  lemma SmallDoublings(base: int)
    requires 0 < base && base * 1024 <= Int64.MAX
    ensures AllDoublingsFrom10(base) <==> base >= 10
  {
    forall e: nat | e <= 10
      ensures base <= base * Pow2(e) <= Int64.MAX
    {
      Pow2Monotone(e, 10);
      assert Pow2(10) == 1024;
      ScaleGrows(base, 1, Pow2(e));
      ScaleGrows(base, Pow2(e), 1024);
    }
    assert Int64.Wrap(base * Pow2(0)) == base;
  }

  /** With a base above half the int64 range, attempt 2 panics. */
  lemma OverflowPanics(policy: RetryPolicy, random: nat)
    requires policy.base > Int64.MAX / 2
    ensures ComputeBackoff(policy, 2, random).None?
  {
    assert Pow2(Exponent(2)) == 2;
    Int64.WrapAbove(policy.base * 2);
    DelayOf(policy, 2, random);
    hide ComputeBackoff, Int64.Wrap;
  }

  /** A later overflow need not panic: a base of 2^54 + 1, more than half a year,
      waits about a microsecond before the eleventh attempt instead of the cap. */
  lemma OverflowShortensTheDelay(suffix: string, random: nat)
    ensures var policy := RetryPolicy(20, 0x40_0000_0000_0001, 0, suffix);
            var delay := ComputeBackoff(policy, 11, random);
            && Target(policy, 11) == 5 * MINUTE
            && delay.Some? && 1024 <= delay.value < 1126
  {
    var policy := RetryPolicy(20, 0x40_0000_0000_0001, 0, suffix);
    assert Pow2(10) == 1024;
    assert Product(policy, 11) == 0x40_0000_0000_0001 * 1024;
    assert Int64.Wrap(Product(policy, 11)) == 1024;
    DelayOf(policy, 11, random);
    hide ComputeBackoff, Product, Pow2, Int64.Wrap;
    assert 0 <= random % 102 < 102;
  }

  /** The delays double from the base, ten times at most, and are capped. */
  lemma TargetsDouble(policy: RetryPolicy, attempt: int)
    ensures var p := WithDefaults(policy);
            && Target(policy, 1) == Min(p.base, p.max)
            && (attempt <= 1 ==> Target(policy, attempt) == Target(policy, 1))
            && (1 <= attempt <= 10 ==> Target(policy, attempt + 1) == Min(2 * Target(policy, attempt), p.max))
            && (attempt >= 11 ==> Target(policy, attempt) == Target(policy, 11))
  {
    var p := WithDefaults(policy);
    assert Pow2(0) == 1;
    if 1 <= attempt <= 10 {
      assert Pow2(Exponent(attempt + 1)) == 2 * Pow2(Exponent(attempt));
      DoubleProduct(p.base, Pow2(Exponent(attempt)));
    }
  }

  lemma DoubleProduct(x: int, y: int)
    ensures x * (2 * y) == 2 * (x * y)
  {
  }

  /** The targets grow with the attempts. */
  lemma TargetsGrow(policy: RetryPolicy, a: int, b: int)
    requires a <= b
    ensures Target(policy, a) <= Target(policy, b)
  {
    Pow2Monotone(Exponent(a), Exponent(b));
    ScaleGrows(WithDefaults(policy).base, Pow2(Exponent(a)), Pow2(Exponent(b)));
  }

  // ----- waits of a worker loop ------------------------------------------------

  const WAIT_BASE: int := 100 * MILLISECOND
  const WAIT_MAX: int := 5 * SECOND

  /** How many of the outcomes just before i were backend errors. */
  function Streak(errors: seq<bool>, i: nat): nat
    requires i <= |errors|
  {
    if i == 0 || !errors[i - 1] then 0 else 1 + Streak(errors, i - 1)
  }

  function WaitAfter(k: nat): int {
    Min(WAIT_BASE * Pow2(k), WAIT_MAX)
  }

  lemma WaitDoubles(k: nat)
    ensures WaitAfter(0) == WAIT_BASE == 100_000_000
    ensures WaitAfter(k + 1) == Min(2 * WaitAfter(k), 5_000_000_000)
    ensures WaitAfter(k) <= WAIT_MAX
  {
  }

  /** The worker loop of Run: given the outcome of every cycle, the time slept
      after it.  An error that follows k errors in a row waits 100ms * 2^k, at
      most five seconds; any other outcome does not wait and ends the row. */
  method WorkerWaits(errors: seq<bool>) returns (slept: seq<int>)
    ensures |slept| == |errors|
    ensures forall i :: 0 <= i < |errors| ==>
              slept[i] == if errors[i] then WaitAfter(Streak(errors, i)) else 0
  {
    hide WaitAfter;
    WaitDoubles(0);
    slept := [];
    var backoff := WAIT_BASE;
    for i := 0 to |errors|
      invariant |slept| == i
      invariant backoff == WaitAfter(Streak(errors, i))
      invariant forall j :: 0 <= j < i ==>
                  slept[j] == if errors[j] then WaitAfter(Streak(errors, j)) else 0
    {
      WaitDoubles(Streak(errors, i));
      if errors[i] {
        slept := slept + [backoff];
        if backoff < WAIT_MAX {
          backoff := backoff * 2;
          if backoff > WAIT_MAX {
            backoff := WAIT_MAX;
          }
        }
      } else {
        slept := slept + [0];
        backoff := WAIT_BASE;
      }
    }
  }
}
