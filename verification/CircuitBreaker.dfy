/**
 The circuit breaker in front of Redis. Calls overlap: a call is a start, and later a completion, and
 starts and completions of different calls interleave freely.
 */
module CircuitBreakers {
  type Millis = nat

  datatype State = Closed | Open | HalfOpen

  datatype Breaker = Breaker(state: State, failures: nat, openedAt: Millis)

  const FRESH := Breaker(Closed, 0, 0)

  datatype Event = Start(now: Millis) | Success | Failure(now: Millis)

  datatype Config = Config(threshold: int, cooldownMs: Millis)

  /** The state after one event. */
  function Next(c: Config, b: Breaker, e: Event): Breaker {
    match e
    case Start(now) =>
      if b.state == Open && now - b.openedAt >= c.cooldownMs then b.(state := HalfOpen) else b
    case Success => b.(failures := 0, state := Closed)
    case Failure(now) =>
      if b.failures + 1 >= c.threshold then Breaker(Open, b.failures + 1, now)
      else b.(failures := b.failures + 1)
  }

  /** A call that starts at `now` is let through. */
  predicate Admits(c: Config, b: Breaker, now: Millis) {
    Next(c, b, Start(now)).state != Open
  }

  class CircuitBreaker {
    const c: Config
    var state: State
    var failures: nat
    var openedAt: Millis

    function View(): Breaker
      reads this
    {
      Breaker(state, failures, openedAt)
    }

    constructor (threshold: int, cooldownMs: Millis)
      ensures c == Config(threshold, cooldownMs) && View() == FRESH
    {
      c := Config(threshold, cooldownMs);
      state, failures, openedAt := Closed, 0, 0;
    }

    /** `run` up to the call of `fn`; not admitted means CircuitOpenError. */
    method Begin(now: Millis) returns (admitted: bool)
      modifies this
      ensures View() == Next(c, old(View()), Start(now)) && admitted == Admits(c, old(View()), now)
    {
      if state == Open {
        if now - openedAt >= c.cooldownMs {
          state := HalfOpen;
        } else {
          return false;
        }
      }
      admitted := true;
    }

    method OnSuccess()
      modifies this
      ensures View() == Next(c, old(View()), Success)
    {
      failures := 0;
      state := Closed;
    }

    method OnFailure(now: Millis)
      modifies this
      ensures View() == Next(c, old(View()), Failure(now))
    {
      failures := failures + 1;
      if failures >= c.threshold {
        state := Open;
        openedAt := now;
      }
    }
  }

  // ---------------------------------------------------------------- the trace law

  function After(c: Config, events: seq<Event>): Breaker {
    if events == [] then FRESH else Next(c, After(c, events[..|events| - 1]), events[|events| - 1])
  }

  /** The number of failures since the last success, in order of completion. */
  function TrailingFailures(events: seq<Event>): nat {
    if events == [] then 0
    else
      match events[|events| - 1]
      case Start(_) => TrailingFailures(events[..|events| - 1])
      case Success => 0
      case Failure(_) => TrailingFailures(events[..|events| - 1]) + 1
  }

  ghost predicate TraceLaw(c: Config, events: seq<Event>) {
    After(c, events).state != Closed <==> TrailingFailures(events) >= c.threshold
  }

  /** Under any overlap of calls the breaker is not closed exactly when the completions end in at
      least `threshold` failures in a row. */
  lemma {:induction false} BreakerFollowsTrace(c: Config, events: seq<Event>)
    requires c.threshold >= 1
    ensures After(c, events).failures == TrailingFailures(events) && TraceLaw(c, events)
  {
    if events != [] {
      BreakerFollowsTrace(c, events[..|events| - 1]);
    }
  }

  /** The law holds on all traces exactly for the thresholds that ask for at least one failure. */
  lemma {:induction false} LawNeedsThreshold(c: Config)
    ensures (forall events :: TraceLaw(c, events)) <==> c.threshold >= 1
  {
    if c.threshold >= 1 {
      forall events ensures TraceLaw(c, events) {
        BreakerFollowsTrace(c, events);
      }
    } else {
      assert !TraceLaw(c, []);
    }
  }

  // ---------------------------------------------------------------- admission, from the trace alone

  /** Event `i` is the last failure of the trace. */
  ghost predicate IsLastFailure(events: seq<Event>, i: nat) {
    i < |events| && events[i].Failure? && forall j :: i < j < |events| ==> !events[j].Failure?
  }

  /** Some call has started since the failure `i`, a cooldown or more after it. */
  ghost predicate ProbedSince(c: Config, events: seq<Event>, i: nat)
    requires i < |events| && events[i].Failure?
  {
    exists j :: i < j < |events| && events[j].Start? && events[j].now - events[i].now >= c.cooldownMs
  }

  /** A breaker that is not closed was opened by the last failure of the trace, at the time of that
      failure, and it is half-open exactly when a call has started a cooldown after it. */
  ghost predicate OpenedByLast(c: Config, events: seq<Event>, i: nat)
    requires i < |events| && events[i].Failure?
  {
    var b := After(c, events);
    b.openedAt == events[i].now && b.state == if ProbedSince(c, events, i) then HalfOpen else Open
  }

  lemma {:induction false} OpenedAtLastFailure(c: Config, events: seq<Event>) returns (i: nat)
    requires c.threshold >= 1 && TrailingFailures(events) >= c.threshold
    ensures IsLastFailure(events, i) && OpenedByLast(c, events, i)
  {
    var before, e := events[..|events| - 1], events[|events| - 1];
    BreakerFollowsTrace(c, before);
    if e.Failure? {
      i := |events| - 1;
    } else {
      i := OpenedAtLastFailure(c, before);
      if ProbedSince(c, before, i) {
        var j :| i < j < |before| && before[j].Start? && before[j].now - before[i].now >= c.cooldownMs;
        assert events[j] == before[j];
      }
      if ProbedSince(c, events, i) {
        var j :| i < j < |events| && events[j].Start? && events[j].now - events[i].now >= c.cooldownMs;
        assert j < |before| ==> before[j] == events[j];
      }
    }
  }

  lemma OneLastFailure(events: seq<Event>, i: nat, k: nat)
    requires IsLastFailure(events, i) && IsLastFailure(events, k)
    ensures i == k
  {
  }

  /** The admission law: a call is let through if and only if the completions so far do not end in
      `threshold` failures, or some call since the last failure, this one included, starts at least a
      cooldown after it. */
  lemma AdmissionLaw(c: Config, events: seq<Event>, now: Millis)
    requires c.threshold >= 1
    ensures Admits(c, After(c, events), now) <==>
            || TrailingFailures(events) < c.threshold
            || exists i: nat :: IsLastFailure(events, i) && (ProbedSince(c, events, i) || now - events[i].now >= c.cooldownMs)
  {
    BreakerFollowsTrace(c, events);
    if TrailingFailures(events) >= c.threshold {
      var i := OpenedAtLastFailure(c, events);
      forall k: nat | IsLastFailure(events, k) ensures k == i {
        OneLastFailure(events, i, k);
      }
    }
  }

  // ---------------------------------------------------------------- how many probes go through

  /** The cooldown of an open breaker is over at `now`. */
  predicate Late(c: Config, b: Breaker, now: Millis) {
    now - b.openedAt >= c.cooldownMs
  }

  ghost predicate InOrder(starts: seq<Millis>) {
    forall i, j :: 0 <= i <= j < |starts| ==> starts[i] <= starts[j]
  }

  /** Calls start at these instants and none completes meanwhile. */
  function AfterStarts(c: Config, b: Breaker, starts: seq<Millis>): Breaker {
    if starts == [] then b
    else Next(c, AfterStarts(c, b, starts[..|starts| - 1]), Start(starts[|starts| - 1]))
  }

  /** How many of them are let through. */
  function Admitted(c: Config, b: Breaker, starts: seq<Millis>): nat {
    if starts == [] then 0
    else
      var before, last := starts[..|starts| - 1], starts[|starts| - 1];
      Admitted(c, b, before) + if Admits(c, AfterStarts(c, b, before), last) then 1 else 0
  }

  function LateCount(c: Config, b: Breaker, starts: seq<Millis>): nat {
    if starts == [] then 0
    else LateCount(c, b, starts[..|starts| - 1]) + if Late(c, b, starts[|starts| - 1]) then 1 else 0
  }

  /** An open breaker lets through exactly the calls that start after its cooldown: the first one makes
      it half-open, and until a call completes a half-open breaker stops nobody. */
  lemma {:induction false} OpenAdmitsLate(c: Config, b: Breaker, starts: seq<Millis>)
    requires b.state == Open && InOrder(starts)
    ensures AfterStarts(c, b, starts)
            == if starts != [] && Late(c, b, starts[|starts| - 1]) then b.(state := HalfOpen) else b
    ensures Admitted(c, b, starts) == LateCount(c, b, starts)
  {
    if starts != [] {
      OpenAdmitsLate(c, b, starts[..|starts| - 1]);
    }
  }

  lemma {:induction false} NoneLate(c: Config, b: Breaker, starts: seq<Millis>)
    requires InOrder(starts) && (starts == [] || !Late(c, b, starts[|starts| - 1]))
    ensures LateCount(c, b, starts) == 0
  {
    if starts != [] {
      NoneLate(c, b, starts[..|starts| - 1]);
    }
  }

  /** At most one probe goes through exactly when at most the last of the calls comes after the cooldown. */
  lemma SingleProbe(c: Config, b: Breaker, starts: seq<Millis>)
    requires b.state == Open && InOrder(starts)
    ensures Admitted(c, b, starts) <= 1 <==> |starts| < 2 || !Late(c, b, starts[|starts| - 2])
  {
    OpenAdmitsLate(c, b, starts);
    if |starts| > 0 {
      var before := starts[..|starts| - 1];
      if before == [] || !Late(c, b, before[|before| - 1]) {
        NoneLate(c, b, before);
      } else {
        assert Late(c, b, starts[|starts| - 1]);
      }
    }
  }

  /** `n` calls one after the other, all failing at once. */
  function Failing(n: nat): seq<Event> {
    if n == 0 then [] else Failing(n - 1) + [Start(0), Failure(0)]
  }

  lemma AfterTwo(c: Config, events: seq<Event>, d: Event, e: Event)
    ensures After(c, events + [d, e]) == Next(c, Next(c, After(c, events), d), e)
    ensures After(c, events + [d]) == Next(c, After(c, events), d)
  {
    assert (events + [d, e])[..|events| + 1] == events + [d];
    assert (events + [d])[..|events|] == events;
  }

  lemma {:induction false} FailingTrips(c: Config, n: nat)
    requires n <= c.threshold && c.threshold >= 1
    ensures After(c, Failing(n)) == Breaker(if n < c.threshold then Closed else Open, n, 0)
  {
    if n > 0 {
      FailingTrips(c, n - 1);
      AfterTwo(c, Failing(n - 1), Start(0), Failure(0));
    }
  }

  /** From the fresh breaker: after a trip and a cooldown two calls start and both go through. */
  lemma TwoProbes(c: Config) returns (events: seq<Event>)
    requires c.threshold >= 1
    ensures |events| >= 2 && events[|events| - 2..] == [Start(c.cooldownMs), Start(c.cooldownMs)]
    ensures After(c, events[..|events| - 2]).state == Open
    ensures Admits(c, After(c, events[..|events| - 2]), c.cooldownMs)
    ensures Admits(c, After(c, events[..|events| - 1]), c.cooldownMs)
    ensures After(c, events).state == HalfOpen
  {
    var start := Start(c.cooldownMs);
    events := Failing(c.threshold) + [start, start];
    FailingTrips(c, c.threshold);
    AfterTwo(c, Failing(c.threshold), start, start);
    assert events[..|events| - 2] == Failing(c.threshold);
    assert events[..|events| - 1] == Failing(c.threshold) + [start];
  }

  // ---------------------------------------------------------------- failing calls one after another

  /** A call that fails, if it is let through. */
  datatype Call = Call(begin: Millis, end: Millis)

  /** One call at a time, in clock order. */
  ghost predicate OneByOne(calls: seq<Call>) {
    && (forall i :: 0 <= i < |calls| ==> calls[i].begin <= calls[i].end)
    && (forall i :: 0 < i < |calls| ==> calls[i - 1].end <= calls[i].begin)
  }

  function Attempt(c: Config, b: Breaker, call: Call): Breaker {
    if Admits(c, b, call.begin) then Next(c, Next(c, b, Start(call.begin)), Failure(call.end))
    else Next(c, b, Start(call.begin))
  }

  function AfterCalls(c: Config, calls: seq<Call>, n: nat): Breaker
    requires n <= |calls|
  {
    if n == 0 then FRESH else Attempt(c, AfterCalls(c, calls, n - 1), calls[n - 1])
  }

  /** How many of the first `n` calls reached Redis. */
  function Invocations(c: Config, calls: seq<Call>, n: nat): nat
    requires n <= |calls|
  {
    if n == 0 then 0
    else Invocations(c, calls, n - 1) + if Admits(c, AfterCalls(c, calls, n - 1), calls[n - 1].begin) then 1 else 0
  }

  /** Until the trip every call goes through; the `threshold`-th failure trips the breaker. */
  lemma {:induction false} BeforeTrip(c: Config, calls: seq<Call>, n: nat)
    requires c.threshold >= 1 && n <= |calls| && n <= c.threshold
    ensures Invocations(c, calls, n) == n && AfterCalls(c, calls, n).failures == n
    ensures AfterCalls(c, calls, n).state == if n < c.threshold then Closed else Open
    ensures n == c.threshold ==> AfterCalls(c, calls, n).openedAt == calls[n - 1].end
  {
    if n > 0 {
      BeforeTrip(c, calls, n - 1);
    }
  }

  /** The opening time owed to the invocations after the trip. */
  function Owed(c: Config, trip: Millis, invocations: int): int {
    trip + (invocations - c.threshold) * c.cooldownMs
  }

  /** One more failing call: if it is let through, a cooldown has passed and the breaker opens anew. */
  lemma TripStep(c: Config, b: Breaker, call: Call, trip: Millis, invocations: nat)
    requires b.state == Open && b.failures >= c.threshold && call.begin <= call.end
    requires invocations >= c.threshold && b.openedAt >= Owed(c, trip, invocations)
    ensures var b' := Attempt(c, b, call);
            && b'.state == Open && b'.failures >= c.threshold
            && b'.openedAt >= Owed(c, trip, invocations + if Admits(c, b, call.begin) then 1 else 0)
  {
    var k := invocations - c.threshold;
    assert (k + 1) * c.cooldownMs == k * c.cooldownMs + c.cooldownMs;
  }

  /** After the trip each further invocation costs a cooldown. */
  lemma {:induction false} AfterTrip(c: Config, calls: seq<Call>, n: nat)
    requires c.threshold >= 1 && OneByOne(calls) && c.threshold <= n <= |calls|
    ensures AfterCalls(c, calls, n).state == Open && Invocations(c, calls, n) >= c.threshold
    ensures AfterCalls(c, calls, n).failures >= c.threshold
    ensures AfterCalls(c, calls, n).openedAt >= Owed(c, calls[c.threshold - 1].end, Invocations(c, calls, n))
    decreases n
  {
    if n == c.threshold {
      BeforeTrip(c, calls, n);
    } else {
      AfterTrip(c, calls, n - 1);
      TripStep(c, AfterCalls(c, calls, n - 1), calls[n - 1], calls[c.threshold - 1].end, Invocations(c, calls, n - 1));
    }
  }

  /** The k+1-st probe after the trip comes k+1 cooldowns after it. */
  lemma ProbeBound(k: nat, cooldown: nat, trip: Millis, openedAt: Millis, begin: Millis, T: Millis, most: nat)
    requires openedAt >= trip + k * cooldown && begin - openedAt >= cooldown && begin <= trip + T
    requires T < (most + 1) * cooldown
    ensures k + 1 <= most
  {
    assert (k + 1) * cooldown == k * cooldown + cooldown;
    if most < k + 1 {
      Scaled(most + 1, k + 1, cooldown);
    }
  }

  lemma Scaled(a: nat, b: nat, d: nat)
    requires a <= b
    ensures a * d <= b * d
  {
  }

  /** A call let through after the trip is late enough for the bound. */
  lemma {:induction false} LateProbe(c: Config, calls: seq<Call>, n: nat, T: Millis, most: nat)
    requires c.threshold >= 1 && OneByOne(calls) && c.threshold <= n < |calls| && T < (most + 1) * c.cooldownMs
    requires Admits(c, AfterCalls(c, calls, n), calls[n].begin) && calls[n].begin <= calls[c.threshold - 1].end + T
    ensures Invocations(c, calls, n) + 1 <= c.threshold + most
  {
    AfterTrip(c, calls, n);
    ProbeBound(Invocations(c, calls, n) - c.threshold, c.cooldownMs, calls[c.threshold - 1].end,
               AfterCalls(c, calls, n).openedAt, calls[n].begin, T, most);
  }

  lemma {:induction false} InvocationsAtMost(c: Config, calls: seq<Call>, n: nat, T: Millis, most: nat)
    requires c.threshold >= 1 && OneByOne(calls) && c.threshold <= n <= |calls| && T < (most + 1) * c.cooldownMs
    requires n == c.threshold || calls[n - 1].begin <= calls[c.threshold - 1].end + T
    ensures Invocations(c, calls, n) <= c.threshold + most
    decreases n
  {
    if n == c.threshold {
      BeforeTrip(c, calls, n);
    } else if Admits(c, AfterCalls(c, calls, n - 1), calls[n - 1].begin) {
      LateProbe(c, calls, n - 1, T, most);
    } else {
      assert calls[n - 2].begin <= calls[n - 2].end <= calls[n - 1].begin;
      InvocationsAtMost(c, calls, n - 1, T, most);
    }
  }

  /** Of non-overlapping calls that all fail, at most threshold + floor(T / cooldown) reach Redis by
      time T after the first trip. */
  lemma InvocationBound(c: Config, calls: seq<Call>, n: nat, T: Millis)
    requires c.threshold >= 1 && c.cooldownMs > 0 && OneByOne(calls) && c.threshold <= n <= |calls|
    requires n == c.threshold || calls[n - 1].begin <= calls[c.threshold - 1].end + T
    ensures Invocations(c, calls, n) <= c.threshold + T / c.cooldownMs
  {
    InvocationsAtMost(c, calls, n, T, T / c.cooldownMs);
  }
}
