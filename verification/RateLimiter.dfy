/**
 The sliding-window rate limiter. The script keeps one sorted set per scope, evicts what has left
 the window and lets the key expire; it must decide as if it counted the whole history of admissions.
 */
module RateLimiter {
  import opened RedisModel
  import opened SortedSet

  datatype Outcome = Outcome(allowed: bool, remaining: int, retryAfterMs: int)

  /** What the script may answer, and the key it then leaves. */
  ghost predicate ScriptStep(
      k: ZKey, now: Millis, window: Millis, limit: int, member: Member, k': ZKey, out: Outcome)
  {
    var live := Evicted(k, now, window);
    if |live.scores| < limit then
      k' == Admitted(live, now, window, member) && out == Outcome(true, limit - |live.scores| - 1, 0)
    else
      && k' == live && !out.allowed && out.remaining == 0
      && (live.scores == map[] ==> out.retryAfterMs == if window < 1 then 1 else window)
      && (live.scores != map[] ==>
            exists oldest: Millis :: IsOldest(live.scores, oldest)
              && out.retryAfterMs == if oldest + window - now < 1 then 1 else oldest + window - now)
  }

  /** The whole check: a non-positive limit is refused without asking Redis. */
  ghost predicate CheckStep(
      k: ZKey, now: Millis, window: Millis, limit: int, member: Member, k': ZKey, out: Outcome)
  {
    if limit <= 0 then k' == k && out == Outcome(false, 0, window)
    else ScriptStep(k, now, window, limit, member, k', out)
  }

  /** One scope of the limiter and the Redis key behind it. */
  class SlidingWindowRateLimiter {
    var scores: Scores
    var expiresAt: Option<Millis>

    function Key(): ZKey
      reads this
    {
      ZKey(scores, expiresAt)
    }

    constructor ()
      ensures Key() == NO_KEY
    {
      scores, expiresAt := map[], None;
    }

    method Check(now: Millis, windowMs: Millis, limit: int, member: Member) returns (out: Outcome)
      modifies this
      ensures CheckStep(old(Key()), now, windowMs, limit, member, Key(), out)
    {
      if limit <= 0 {
        return Outcome(false, 0, windowMs);
      }
      EvictExpired(now, windowMs);
      var count := |scores|;
      if count < limit {
        scores := scores[member := now];
        expiresAt := Some(now + windowMs);
        return Outcome(true, limit - count - 1, 0);
      }
      var oldest := Oldest(scores);
      var retry: int := windowMs;
      if oldest.Some? {
        retry := oldest.value + windowMs - now;
      }
      if retry < 1 {
        retry := 1;
      }
      out := Outcome(false, 0, retry);
    }

    /** Expiry of the key, then ZREMRANGEBYSCORE. */
    method EvictExpired(now: Millis, windowMs: Millis)
      modifies this
      ensures Key() == Evicted(old(Key()), now, windowMs)
    {
      if expiresAt.Some? && expiresAt.value < now {
        scores, expiresAt := map[], None;
      }
      scores := Above(scores, now - windowMs);
      if scores == map[] {
        expiresAt := None;
      }
    }
  }

  // ---------------------------------------------------------------- refinement

  datatype Request = Request(member: Member, time: Millis)

  /** The reference: admit when fewer than `limit` admissions of the full history are in the window. */
  predicate Admits(hist: seq<Admission>, now: Millis, window: Millis, limit: int) {
    CountAfter(hist, now - window) < limit
  }

  function Remember(hist: seq<Admission>, req: Request, window: Millis, limit: int): seq<Admission> {
    if Admits(hist, req.time, window, limit) then hist + [Admission(req.member, req.time)] else hist
  }

  /** One step: the limiter's verdict is the reference's. */
  lemma StepDecides(
      k: ZKey, hist: seq<Admission>, now: Millis, window: Millis, limit: int, req: Request, k': ZKey, out: Outcome)
    requires Tracks(k, hist, now, window) && now <= req.time
    requires CheckStep(k, req.time, window, limit, req.member, k', out)
    ensures out.allowed <==> Admits(hist, req.time, window, limit)
    ensures out.remaining == if out.allowed then limit - CountAfter(hist, req.time - window) - 1 else 0
  {
    TracksHolds(k, hist, now, window, req.time);
    HoldsCount(Evicted(k, req.time, window).scores, hist, req.time - window);
  }

  /** One step: the key goes on tracking the history. */
  lemma StepTracks(
      k: ZKey, hist: seq<Admission>, now: Millis, window: Millis, limit: int, req: Request, k': ZKey, out: Outcome)
    requires Tracks(k, hist, now, window) && now <= req.time && Fresh(hist, req.member)
    requires CheckStep(k, req.time, window, limit, req.member, k', out)
    ensures Tracks(k', Remember(hist, req, window, limit), req.time, window)
  {
    StepDecides(k, hist, now, window, limit, req, k', out);
    if limit <= 0 {
      TracksLater(k, hist, now, window, req.time);
    } else {
      TracksHolds(k, hist, now, window, req.time);
      if out.allowed {
        TracksAdmit(Evicted(k, req.time, window), hist, req.time, window, req.member);
      }
    }
  }

  /** A trace of checks: `keys[i]` is the key before request `i`. */
  ghost predicate Trace(
      window: Millis, limit: int, reqs: seq<Request>, keys: seq<ZKey>, outs: seq<Outcome>)
  {
    && |keys| == |reqs| + 1 && |outs| == |reqs|
    && (forall i :: 0 <= i < |reqs| ==> CheckAt(window, limit, reqs, keys, outs, i))
  }

  ghost predicate CheckAt(
      window: Millis, limit: int, reqs: seq<Request>, keys: seq<ZKey>, outs: seq<Outcome>, i: nat)
    requires i < |reqs| == |outs| && |keys| == |reqs| + 1
  {
    CheckStep(keys[i], reqs[i].time, window, limit, reqs[i].member, keys[i + 1], outs[i])
  }

  /** The clock does not go back and no two requests share a member. */
  ghost predicate WellTimed(reqs: seq<Request>) {
    && (forall i, j :: 0 <= i <= j < |reqs| ==> reqs[i].time <= reqs[j].time)
    && (forall i, j :: 0 <= i < j < |reqs| ==> reqs[i].member != reqs[j].member)
  }

  /** The history the reference keeps for the first `n` requests. */
  function History(reqs: seq<Request>, n: nat, window: Millis, limit: int): seq<Admission>
    requires n <= |reqs|
  {
    if n == 0 then [] else Remember(History(reqs, n - 1, window, limit), reqs[n - 1], window, limit)
  }

  /** The instant of the request before request `n`. */
  function Before(reqs: seq<Request>, n: nat): Millis
    requires n <= |reqs|
  {
    if n == 0 then 0 else reqs[n - 1].time
  }

  lemma {:induction false} HistoryFresh(reqs: seq<Request>, n: nat, window: Millis, limit: int, member: Member)
    requires n <= |reqs| && forall j :: 0 <= j < n ==> reqs[j].member != member
    ensures Fresh(History(reqs, n, window, limit), member)
  {
    if n > 0 {
      HistoryFresh(reqs, n - 1, window, limit, member);
    }
  }

  lemma {:induction false} TraceTracks(
      window: Millis, limit: int, reqs: seq<Request>, keys: seq<ZKey>, outs: seq<Outcome>, n: nat)
    requires Trace(window, limit, reqs, keys, outs) && WellTimed(reqs) && keys[0] == NO_KEY && n <= |reqs|
    ensures Tracks(keys[n], History(reqs, n, window, limit), Before(reqs, n), window)
    ensures n < |reqs| ==> Fresh(History(reqs, n, window, limit), reqs[n].member)
  {
    if n > 0 {
      TraceTracks(window, limit, reqs, keys, outs, n - 1);
      assert CheckAt(window, limit, reqs, keys, outs, n - 1);
      StepTracks(keys[n - 1], History(reqs, n - 1, window, limit), Before(reqs, n - 1),
                  window, limit, reqs[n - 1], keys[n], outs[n - 1]);
    }
    if n < |reqs| {
      HistoryFresh(reqs, n, window, limit, reqs[n].member);
    }
  }

  /** Limiter refinement: on every trace the evicting, expiring sorted set decides exactly as counting
      the admissions of the full history in the trailing window, and reports what that count leaves. */
  lemma {:induction false} LimiterRefines(
      window: Millis, limit: int, reqs: seq<Request>, keys: seq<ZKey>, outs: seq<Outcome>, i: nat)
    requires Trace(window, limit, reqs, keys, outs) && WellTimed(reqs) && keys[0] == NO_KEY && i < |reqs|
    ensures var hist := History(reqs, i, window, limit);
            && (outs[i].allowed <==> Admits(hist, reqs[i].time, window, limit))
            && outs[i].remaining == if outs[i].allowed then limit - CountAfter(hist, reqs[i].time - window) - 1 else 0
  {
    TraceTracks(window, limit, reqs, keys, outs, i);
    InOrder(reqs, i);
    DecidesAt(window, limit, reqs, keys, outs, i, History(reqs, i, window, limit), Before(reqs, i));
  }

  lemma InOrder(reqs: seq<Request>, i: nat)
    requires WellTimed(reqs) && i < |reqs|
    ensures Before(reqs, i) <= reqs[i].time
  {
  }

  lemma {:induction false} DecidesAt(
      window: Millis, limit: int, reqs: seq<Request>, keys: seq<ZKey>, outs: seq<Outcome>, i: nat,
      hist: seq<Admission>, before: Millis)
    requires Trace(window, limit, reqs, keys, outs) && i < |reqs|
    requires Tracks(keys[i], hist, before, window) && before <= reqs[i].time
    ensures outs[i].allowed <==> Admits(hist, reqs[i].time, window, limit)
    ensures outs[i].remaining == if outs[i].allowed then limit - CountAfter(hist, reqs[i].time - window) - 1 else 0
  {
    assert CheckAt(window, limit, reqs, keys, outs, i);
    StepDecides(keys[i], hist, before, window, limit, reqs[i], keys[i + 1], outs[i]);
  }

  // ---------------------------------------------------------------- the bound

  /** Admissions in the half-open interval [from, from + window). */
  function CountIn(hist: seq<Admission>, from: int, window: Millis): int {
    CountAfter(hist, from - 1) - CountAfter(hist, from + window - 1)
  }

  lemma {:induction false} CountInSnoc(hist: seq<Admission>, a: Admission, from: int, window: Millis)
    ensures CountIn(hist + [a], from, window) == CountIn(hist, from, window) + if from <= a.time < from + window then 1 else 0
    ensures CountIn(hist, from, window) <= CountAfter(hist, from - 1)
  {
    assert (hist + [a])[..|hist|] == hist;
  }

  /** No window of the history, wherever it starts, holds more than `limit` admissions. */
  lemma {:induction false} HistoryBounded(reqs: seq<Request>, n: nat, window: Millis, limit: int, from: int)
    requires WellTimed(reqs) && n <= |reqs| && limit >= 0
    ensures CountIn(History(reqs, n, window, limit), from, window) <= limit
  {
    if n > 0 {
      HistoryBounded(reqs, n - 1, window, limit, from);
      var hist, req := History(reqs, n - 1, window, limit), reqs[n - 1];
      CountInSnoc(hist, Admission(req.member, req.time), from, window);
      if from <= req.time < from + window {
        CountAfterFalls(hist, req.time - window, from - 1);
      }
    }
  }

  /** How many of the first `n` requests were allowed at an instant in [from, from + window). */
  function AllowedIn(reqs: seq<Request>, outs: seq<Outcome>, n: nat, from: int, window: Millis): nat
    requires n <= |reqs| == |outs|
  {
    if n == 0 then 0
    else AllowedIn(reqs, outs, n - 1, from, window)
         + if outs[n - 1].allowed && from <= reqs[n - 1].time < from + window then 1 else 0
  }

  ghost predicate DecidedAs(reqs: seq<Request>, outs: seq<Outcome>, i: nat, window: Millis, limit: int)
    requires i < |reqs| == |outs|
  {
    outs[i].allowed <==> Admits(History(reqs, i, window, limit), reqs[i].time, window, limit)
  }

  lemma {:induction false} AllowedIsHistory(
      window: Millis, limit: int, reqs: seq<Request>, outs: seq<Outcome>, n: nat, from: int)
    requires n <= |reqs| == |outs| && forall i :: 0 <= i < n ==> DecidedAs(reqs, outs, i, window, limit)
    ensures AllowedIn(reqs, outs, n, from, window) == CountIn(History(reqs, n, window, limit), from, window)
  {
    if n > 0 {
      AllowedIsHistory(window, limit, reqs, outs, n - 1, from);
      assert DecidedAs(reqs, outs, n - 1, window, limit);
      CountInSnoc(History(reqs, n - 1, window, limit), Admission(reqs[n - 1].member, reqs[n - 1].time), from, window);
    }
  }

  /** In every trace, every half-open interval of length `window` sees at most `limit` admissions. */
  lemma {:induction false} WindowBound(
      window: Millis, limit: int, reqs: seq<Request>, keys: seq<ZKey>, outs: seq<Outcome>, from: int)
    requires Trace(window, limit, reqs, keys, outs) && WellTimed(reqs) && keys[0] == NO_KEY && limit >= 0
    ensures AllowedIn(reqs, outs, |reqs|, from, window) <= limit
  {
    forall i | 0 <= i < |reqs| ensures DecidedAs(reqs, outs, i, window, limit) {
      LimiterRefines(window, limit, reqs, keys, outs, i);
    }
    AllowedIsHistory(window, limit, reqs, outs, |reqs|, from);
    HistoryBounded(reqs, |reqs|, window, limit, from);
  }

  // ---------------------------------------------------------------- retryAfterMs and remaining

  /** While the oldest counted admission stays in the window nothing is admitted, and once it has
      left, something is. */
  lemma {:induction false} OldestDecides(
      live: Scores, hist: seq<Admission>, oldest: Millis, now: Millis, window: Millis, limit: int, at: Millis)
    requires Holds(live, hist, now - window) && IsOldest(live, oldest) && now <= at
    requires CountAfter(hist, now - window) == limit
    ensures Admits(hist, at, window, limit) <==> at >= oldest + window
  {
    var m :| m in live && live[m] == oldest;
    assert Admission(m, oldest) in hist;
    var j :| 0 <= j < |hist| && hist[j] == Admission(m, oldest);
    CountAfterFalls(hist, now - window, at - window);
    if at >= oldest + window {
      assert now - window < hist[j].time <= at - window;
    } else {
      forall i | 0 <= i < |hist| ensures !(now - window < hist[i].time <= at - window) {
        assert hist[i].time > now - window ==> hist[i].member in live;
      }
    }
  }

  /** A refusal's retry time, in terms of the history: before it everything is refused, from it on a
      request is admitted. */
  lemma {:induction false} RetryInHistory(
      k: ZKey, hist: seq<Admission>, before: Millis, now: Millis, window: Millis, limit: int, member: Member,
      k': ZKey, out: Outcome, at: Millis)
    requires Tracks(k, hist, before, window) && before <= now <= at && limit > 0
    requires CountAfter(hist, now - window) <= limit
    requires CheckStep(k, now, window, limit, member, k', out) && !out.allowed
    ensures 1 <= out.retryAfterMs <= window
    ensures Admits(hist, at, window, limit) <==> at >= now + out.retryAfterMs
  {
    TracksHolds(k, hist, before, window, now);
    var live := Evicted(k, now, window).scores;
    HoldsCount(live, hist, now - window);
    assert live != map[];
    var oldest: Millis :| IsOldest(live, oldest)
      && out.retryAfterMs == if oldest + window - now < 1 then 1 else oldest + window - now;
    OldestDecides(live, hist, oldest, now, window, limit, at);
    var m :| m in live && live[m] == oldest;
    assert Admission(m, oldest) in hist;
  }

  lemma {:induction false} HistoryUpTo(reqs: seq<Request>, n: nat, window: Millis, limit: int, now: Millis)
    requires n <= |reqs| && forall i :: 0 <= i < n ==> reqs[i].time <= now
    ensures UpTo(History(reqs, n, window, limit), now)
  {
    if n > 0 {
      HistoryUpTo(reqs, n - 1, window, limit, now);
    }
  }

  /** The current window never counts more than `limit`. */
  lemma {:induction false} WithinLimit(reqs: seq<Request>, i: nat, window: Millis, limit: int)
    requires WellTimed(reqs) && i < |reqs| && limit >= 0
    ensures CountAfter(History(reqs, i, window, limit), reqs[i].time - window) <= limit
  {
    var hist, now := History(reqs, i, window, limit), reqs[i].time;
    HistoryUpTo(reqs, i, window, limit, now);
    CountAfterNone(hist, now);
    HistoryBounded(reqs, i, window, limit, now - window + 1);
  }

  /** What a refusal at request `i` says about the instants after it. */
  lemma {:induction false} RefusalMeans(
      window: Millis, limit: int, reqs: seq<Request>, keys: seq<ZKey>, outs: seq<Outcome>, i: nat, at: Millis)
    requires Trace(window, limit, reqs, keys, outs) && WellTimed(reqs) && keys[0] == NO_KEY && limit > 0
    requires i < |reqs| && !outs[i].allowed && reqs[i].time <= at
    ensures 1 <= outs[i].retryAfterMs <= window
    ensures Admits(History(reqs, i, window, limit), at, window, limit) <==> at >= reqs[i].time + outs[i].retryAfterMs
  {
    TraceTracks(window, limit, reqs, keys, outs, i);
    WithinLimit(reqs, i, window, limit);
    InOrder(reqs, i);
    RetryAt(window, limit, reqs, keys, outs, i, at, History(reqs, i, window, limit), Before(reqs, i));
  }

  lemma {:induction false} RetryAt(
      window: Millis, limit: int, reqs: seq<Request>, keys: seq<ZKey>, outs: seq<Outcome>, i: nat, at: Millis,
      hist: seq<Admission>, before: Millis)
    requires Trace(window, limit, reqs, keys, outs) && limit > 0
    requires i < |reqs| && !outs[i].allowed && before <= reqs[i].time <= at
    requires Tracks(keys[i], hist, before, window) && CountAfter(hist, reqs[i].time - window) <= limit
    ensures 1 <= outs[i].retryAfterMs <= window
    ensures Admits(hist, at, window, limit) <==> at >= reqs[i].time + outs[i].retryAfterMs
  {
    assert CheckAt(window, limit, reqs, keys, outs, i);
    RetryInHistory(keys[i], hist, before, reqs[i].time, window, limit, reqs[i].member, keys[i + 1], outs[i], at);
  }

  /** Nothing is remembered until the retry time of a refusal has come. */
  lemma {:induction false} RefusedMeanwhile(
      window: Millis, limit: int, reqs: seq<Request>, keys: seq<ZKey>, outs: seq<Outcome>, i: nat, j: nat)
    requires Trace(window, limit, reqs, keys, outs) && WellTimed(reqs) && keys[0] == NO_KEY && limit > 0
    requires i < j <= |reqs| && !outs[i].allowed
    requires forall m :: i < m < j ==> reqs[m].time < reqs[i].time + outs[i].retryAfterMs
    ensures History(reqs, j, window, limit) == History(reqs, i, window, limit)
    decreases j
  {
    if i + 1 < j {
      RefusedMeanwhile(window, limit, reqs, keys, outs, i, j - 1);
      RefusalMeans(window, limit, reqs, keys, outs, i, reqs[j - 1].time);
    } else {
      LimiterRefines(window, limit, reqs, keys, outs, i);
    }
  }

  /** Exact retry: after a refusal at request `i`, every request before the announced instant is
      refused, however many are tried, and the first one from that instant on is admitted. */
  lemma {:induction false} RetryExact(
      window: Millis, limit: int, reqs: seq<Request>, keys: seq<ZKey>, outs: seq<Outcome>, i: nat, j: nat)
    requires Trace(window, limit, reqs, keys, outs) && WellTimed(reqs) && keys[0] == NO_KEY && limit > 0
    requires i < j < |reqs| && !outs[i].allowed
    requires forall m :: i < m < j ==> reqs[m].time < reqs[i].time + outs[i].retryAfterMs
    ensures outs[j].allowed <==> reqs[j].time >= reqs[i].time + outs[i].retryAfterMs
  {
    RefusedMeanwhile(window, limit, reqs, keys, outs, i, j);
    RefusalMeans(window, limit, reqs, keys, outs, i, reqs[j].time);
    LimiterRefines(window, limit, reqs, keys, outs, j);
  }

  /** Without a positive limit the announced time is the whole window, and nothing is ever admitted. */
  lemma {:induction false} RetryNeverComes(
      window: Millis, limit: int, reqs: seq<Request>, keys: seq<ZKey>, outs: seq<Outcome>, i: nat)
    requires Trace(window, limit, reqs, keys, outs) && i < |reqs|
    requires limit <= 0
    ensures !outs[i].allowed && outs[i].remaining == 0 && outs[i].retryAfterMs == window
    ensures keys[i + 1] == keys[i]
  {
    assert CheckAt(window, limit, reqs, keys, outs, i);
  }

  /** A window of no length counts nothing: every request is admitted, whatever `remaining` said. */
  lemma {:induction false} EmptyWindowAdmitsAll(
      limit: int, reqs: seq<Request>, keys: seq<ZKey>, outs: seq<Outcome>, i: nat)
    requires Trace(0, limit, reqs, keys, outs) && WellTimed(reqs) && keys[0] == NO_KEY && i < |reqs|
    ensures outs[i].allowed <==> limit > 0
    ensures outs[i].allowed ==> outs[i].remaining == limit - 1
  {
    LimiterRefines(0, limit, reqs, keys, outs, i);
    HistoryUpTo(reqs, i, 0, limit, reqs[i].time);
    CountAfterNone(History(reqs, i, 0, limit), reqs[i].time);
  }

  /** A request that is admitted counts in its own window. */
  lemma RememberCounts(hist: seq<Admission>, req: Request, window: Millis, limit: int)
    requires window > 0
    ensures CountAfter(Remember(hist, req, window, limit), req.time - window)
            == CountAfter(hist, req.time - window) + if Admits(hist, req.time, window, limit) then 1 else 0
  {
    assert (hist + [Admission(req.member, req.time)])[..|hist|] == hist;
  }

  function AtMost(limit: int, count: int): int {
    if count < limit then count else limit
  }

  /** Requests `i` to `j` come at the given instant. */
  ghost predicate AllAt(reqs: seq<Request>, i: nat, j: nat, time: Millis)
    requires i <= j <= |reqs|
  {
    forall m :: i <= m < j ==> reqs[m].time == time
  }

  /** Requests at one instant are counted one by one until the limit is reached. */
  lemma {:induction false} SameInstant(
      reqs: seq<Request>, i: nat, j: nat, time: Millis, window: Millis, limit: int, count: nat)
    requires i <= j <= |reqs| && window > 0 && AllAt(reqs, i, j, time)
    requires CountAfter(History(reqs, i, window, limit), time - window) == count <= limit
    ensures CountAfter(History(reqs, j, window, limit), time - window) == AtMost(limit, count + (j - i))
    decreases j
  {
    if i < j {
      SameInstant(reqs, i, j - 1, time, window, limit, count);
      RememberCounts(History(reqs, j - 1, window, limit), reqs[j - 1], window, limit);
    }
  }

  /** Exact remaining: if request `i` is told that r remain, then of the following requests at the
      same instant exactly the first r are admitted. */
  lemma {:induction false} RemainingExact(
      window: Millis, limit: int, reqs: seq<Request>, keys: seq<ZKey>, outs: seq<Outcome>, i: nat, j: nat)
    requires Trace(window, limit, reqs, keys, outs) && WellTimed(reqs) && keys[0] == NO_KEY && window > 0
    requires i < j < |reqs| && outs[i].allowed && forall m :: i <= m <= j ==> reqs[m].time == reqs[i].time
    ensures outs[j].allowed <==> j - i <= outs[i].remaining
  {
    LimiterRefines(window, limit, reqs, keys, outs, i);
    LimiterRefines(window, limit, reqs, keys, outs, j);
    WithinLimit(reqs, i, window, limit);
    SameInstant(reqs, i, j, reqs[i].time, window, limit, CountAfter(History(reqs, i, window, limit), reqs[i].time - window));
  }
}
