/**
 The circuit breaker: a counter, a deadline and a state that stand for the whole
 history of calls.  Times are nanoseconds of a monotonic clock.
 */
module CircuitBreaker {

  datatype State = Closed | Open | HalfOpen

  datatype Transition = Transition(from: State, to: State)

  datatype Config = Config(maxFailures: int, resetTimeout: int)

  const SECOND: int := 1_000_000_000

  /** Five failures and thirty seconds by default. */
  function WithDefaults(c: Config): (r: Config)
    ensures r.maxFailures > 0 && r.resetTimeout > 0
    ensures r.maxFailures == (if c.maxFailures > 0 then c.maxFailures else 5)
    ensures r.resetTimeout == if c.resetTimeout > 0 then c.resetTimeout else 30_000_000_000
  {
    Config(if c.maxFailures <= 0 then 5 else c.maxFailures,
           if c.resetTimeout <= 0 then 30 * SECOND else c.resetTimeout)
  }

  /** The fields, and the transitions notified so far in lock order. */
  datatype Breaker = Breaker(failures: nat, openUntil: int, state: State, notified: seq<Transition>)

  const INITIAL: Breaker := Breaker(0, 0, Closed, [])

  datatype Call = Allow(now: int) | ReadState(now: int) | Success(now: int) | Failure(now: int)

  function Notify(b: Breaker, from: State): Breaker {
    if from == b.state then b else b.(notified := b.notified + [Transition(from, b.state)])
  }

  function Refresh(b: Breaker, now: int): Breaker {
    if b.state == Open && b.openUntil <= now then Notify(b.(state := HalfOpen), Open) else b
  }

  function Next(c: Config, b: Breaker, call: Call): Breaker {
    match call
    case Allow(now) => Refresh(b, now)
    case ReadState(now) => Refresh(b, now)
    case Success(_) => Notify(b.(failures := 0, openUntil := 0, state := Closed), b.state)
    case Failure(now) =>
      var counted := b.(failures := b.failures + 1);
      if counted.failures >= c.maxFailures
      then Notify(counted.(openUntil := now + c.resetTimeout, state := Open), b.state)
      else counted
  }

  /** The breaker object. */
  class CircuitBreaker {
    const config: Config
    var failures: nat
    var openUntil: int
    var state: State
    var notified: seq<Transition>

    ghost function View(): Breaker
      reads this
    {
      Breaker(failures, openUntil, state, notified)
    }

    constructor (c: Config)
      ensures config == WithDefaults(c) && View() == INITIAL
    {
      config := WithDefaults(c);
      failures, openUntil, state, notified := 0, 0, Closed, [];
    }

    method NotifyChange(from: State, to: State)
      modifies this`notified
      ensures notified == old(notified) + if from == to then [] else [Transition(from, to)]
    {
      if from != to {
        notified := notified + [Transition(from, to)];
      }
    }

    method RefreshLocked(now: int) returns (from: State, to: State)
      modifies this`state
      ensures from == old(state) && to == state
      ensures state == Refresh(old(View()), now).state
    {
      from := state;
      if state == Open && !(now < openUntil) {
        state := HalfOpen;
      }
      to := state;
    }

    method Allow(now: int) returns (rejected: bool)
      modifies this
      ensures View() == Next(config, old(View()), Call.Allow(now))
      ensures rejected <==> View().state == Open
    {
      var from, to := RefreshLocked(now);
      rejected := state == Open;
      NotifyChange(from, to);
    }

    method ReadState(now: int) returns (s: State)
      modifies this
      ensures View() == Next(config, old(View()), Call.ReadState(now))
      ensures s == View().state
    {
      var from, to := RefreshLocked(now);
      NotifyChange(from, to);
      s := to;
    }

    method Success(now: int)
      modifies this
      ensures View() == Next(config, old(View()), Call.Success(now))
    {
      var from := state;
      failures, openUntil, state := 0, 0, Closed;
      NotifyChange(from, state);
    }

    method Failure(now: int)
      modifies this
      ensures View() == Next(config, old(View()), Call.Failure(now))
    {
      var from := state;
      failures := failures + 1;
      if failures >= config.maxFailures {
        openUntil, state := now + config.resetTimeout, Open;
      }
      NotifyChange(from, state);
    }
  }

  // ----- the history -----------------------------------------------------------------

  function Run(c: Config, calls: seq<Call>): Breaker {
    if calls == [] then INITIAL else Next(c, Run(c, calls[..|calls| - 1]), calls[|calls| - 1])
  }

  predicate InOrder(calls: seq<Call>) {
    forall i, j :: 0 <= i <= j < |calls| ==> calls[i].now <= calls[j].now
  }

  /** Failures after the last success. */
  function FailuresInARow(calls: seq<Call>): nat {
    if calls == [] || calls[|calls| - 1].Success? then 0
    else FailuresInARow(calls[..|calls| - 1]) + if calls[|calls| - 1].Failure? then 1 else 0
  }

  /** Time of the last failure; meaningless in a history without one. */
  function LastFailure(calls: seq<Call>): int {
    if calls == [] then 0
    else if calls[|calls| - 1].Failure? then calls[|calls| - 1].now
    else LastFailure(calls[..|calls| - 1])
  }

  /** What an observer at time t should see, by the history alone. */
  function StateByHistory(c: Config, calls: seq<Call>, t: int): State {
    if FailuresInARow(calls) < c.maxFailures then Closed
    else if t < LastFailure(calls) + c.resetTimeout then Open
    else HalfOpen
  }

  /** The fields mean the history, as seen no earlier than its last call. */
  predicate Means(c: Config, b: Breaker, calls: seq<Call>) {
    && b.failures == FailuresInARow(calls)
    && (b.failures < c.maxFailures ==> b.state == Closed)
    && (b.failures >= c.maxFailures ==>
          && calls != [] && b.openUntil == LastFailure(calls) + c.resetTimeout
          && (b.state == Open || (b.state == HalfOpen && b.openUntil <= calls[|calls| - 1].now)))
  }

  lemma {:induction false} RunMeansHistory(c: Config, calls: seq<Call>)
    requires c.maxFailures > 0 && InOrder(calls)
    ensures Means(c, Run(c, calls), calls)
  {
    if calls != [] {
      RunMeansHistory(c, calls[..|calls| - 1]);
    }
  }

  /** The breaker refines its history: after any calls in order, what Allow and
      State observe at t depends on the failures since the last success and the
      time of the last failure only. */
  lemma BreakerRefinesHistory(c: Config, calls: seq<Call>, call: Call)
    requires c.maxFailures > 0 && InOrder(calls + [call]) && (call.Allow? || call.ReadState?)
    ensures Run(c, calls + [call]).state == StateByHistory(c, calls, call.now)
  {
    var all := calls + [call];
    assert all[..|all| - 1] == calls;
    assert InOrder(calls) by {
      assert forall i :: 0 <= i < |calls| ==> all[i] == calls[i];
    }
    RunMeansHistory(c, calls);
    if calls != [] {
      assert all[|calls| - 1].now <= all[|calls|].now;
    }
  }

  /** Allow rejects exactly when at least maxFailures failures followed the last
      success and the reset timeout has not passed since the last of them. */
  lemma AllowRejectsByHistory(c: Config, calls: seq<Call>, now: int)
    requires c.maxFailures > 0 && InOrder(calls + [Allow(now)])
    ensures Run(c, calls + [Allow(now)]).state == Open
       <==> (FailuresInARow(calls) >= c.maxFailures && now < LastFailure(calls) + c.resetTimeout)
  {
    BreakerRefinesHistory(c, calls, Allow(now));
  }

  /** The documentation speaks of a single probe while half-open; the code admits
      every call: once the reset timeout has passed since the failure that opened
      the breaker, Allow admits after any number of probes before it. */
  lemma {:induction false} HalfOpenAdmitsEveryProbe(c: Config, calls: seq<Call>, probes: seq<Call>, now: int)
    requires c.maxFailures > 0 && InOrder(calls + probes + [Allow(now)])
    requires forall i :: 0 <= i < |probes| ==> probes[i].Allow?
    requires FailuresInARow(calls) >= c.maxFailures && LastFailure(calls) + c.resetTimeout <= now
    ensures Run(c, calls + probes + [Allow(now)]).state == HalfOpen
  {
    BreakerRefinesHistory(c, calls + probes, Allow(now));
    ProbesLeaveHistory(calls, probes);
  }

  lemma {:induction false} ProbesLeaveHistory(calls: seq<Call>, probes: seq<Call>)
    requires forall i :: 0 <= i < |probes| ==> probes[i].Allow?
    ensures FailuresInARow(calls + probes) == FailuresInARow(calls)
    ensures LastFailure(calls + probes) == LastFailure(calls)
  {
    if probes == [] {
      assert calls + probes == calls;
    } else {
      var init := probes[..|probes| - 1];
      assert (calls + probes)[..|calls + probes| - 1] == calls + init;
      ProbesLeaveHistory(calls, init);
    }
  }

  // ----- notifications ----------------------------------------------------------------

  /** Each transition starts where the one before it ended, none stays put. */
  predicate IsPath(start: State, notified: seq<Transition>, end: State)
    decreases notified
  {
    if notified == [] then start == end
    else
      var last := notified[|notified| - 1];
      last.to == end && last.from != last.to && IsPath(start, notified[..|notified| - 1], last.from)
  }

  lemma NotifyExtendsPath(b: Breaker, from: State)
    requires IsPath(Closed, b.notified, from)
    ensures IsPath(Closed, Notify(b, from).notified, b.state)
  {
  }

  /** On every history, in any order of times, the notified transitions form a
      path from closed to the present state without self-loops. */
  lemma {:induction false} NotificationsFormAPath(c: Config, calls: seq<Call>)
    ensures var b := Run(c, calls); IsPath(Closed, b.notified, b.state)
  {
    if calls != [] {
      var init, call := calls[..|calls| - 1], calls[|calls| - 1];
      var b := Run(c, init);
      NotificationsFormAPath(c, init);
      match call
      case Allow(now) => NotifyExtendsPath(b.(state := HalfOpen), b.state);
      case ReadState(now) => NotifyExtendsPath(b.(state := HalfOpen), b.state);
      case Success(now) => NotifyExtendsPath(b.(failures := 0, openUntil := 0, state := Closed), b.state);
      case Failure(now) =>
        NotifyExtendsPath(b.(failures := b.failures + 1, openUntil := now + c.resetTimeout, state := Open), b.state);
    }
  }
}
