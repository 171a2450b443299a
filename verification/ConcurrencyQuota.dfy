/**
 The per-user concurrency quota: a sorted set of slots, acquired by the API's script, released by
 the API and by the workers in any order and any number of times, and expiring on their own.
 */
module ConcurrencyQuota {
  import opened RedisModel
  import opened SortedSet

  /** What `acquireSlot` and the two releases see and do, for one user. */
  datatype Event = Acquire(job: JobId, time: Millis) | Release(job: JobId, time: Millis)

  /** The effect of one event on the user's key; `granted` is the script's answer. */
  predicate SlotStep(k: ZKey, e: Event, ttl: Millis, limit: int, k': ZKey, granted: bool) {
    match e
    case Acquire(job, now) =>
      var live := Evicted(k, now, ttl);
      && granted == (|live.scores| < limit)
      && k' == if granted then Admitted(live, now, ttl, job) else live
    case Release(job, now) =>
      !granted && k' == Freed(k, now, job)
  }

  /** ZREM of one member. */
  function Freed(k: ZKey, now: Millis, job: JobId): ZKey {
    Normal(Purge(k, now).(scores := Purge(k, now).scores - {job}))
  }

  class UserSlots {
    var scores: Scores
    var expiresAt: Option<Millis>

    function Key(): ZKey
      reads this
    {
      ZKey(scores, expiresAt)
    }

    constructor ()
      ensures Key() == NO_KEY
    {
      scores, expiresAt := map[], None;
    }

    method AcquireSlot(job: JobId, now: Millis, ttl: Millis, limit: int) returns (granted: bool)
      modifies this
      ensures SlotStep(old(Key()), Acquire(job, now), ttl, limit, Key(), granted)
    {
      ExpireKey(now);
      scores := Above(scores, now - ttl);
      if scores == map[] {
        expiresAt := None;
      }
      granted := |scores| < limit;
      if granted {
        scores := scores[job := now];
        expiresAt := Some(now + ttl);
      }
    }

    method ReleaseSlot(job: JobId, now: Millis)
      modifies this
      ensures Key() == Freed(old(Key()), now, job)
    {
      ExpireKey(now);
      scores := scores - {job};
      if scores == map[] {
        expiresAt := None;
      }
    }

    method ExpireKey(now: Millis)
      modifies this
      ensures Key() == Purge(old(Key()), now)
    {
      if expiresAt.Some? && expiresAt.value < now {
        scores, expiresAt := map[], None;
      }
    }
  }

  // ---------------------------------------------------------------- traces

  ghost predicate SlotAt(ttl: Millis, limit: int, es: seq<Event>, keys: seq<ZKey>, granted: seq<bool>, i: nat)
    requires i < |es| == |granted| && |keys| == |es| + 1
  {
    SlotStep(keys[i], es[i], ttl, limit, keys[i + 1], granted[i])
  }

  /** Events in clock order from an empty key, each job acquiring at most once. */
  ghost predicate Trace(ttl: Millis, limit: int, es: seq<Event>, keys: seq<ZKey>, granted: seq<bool>) {
    && |keys| == |es| + 1 && |granted| == |es| && keys[0] == NO_KEY
    && (forall i, j :: 0 <= i <= j < |es| ==> es[i].time <= es[j].time)
    && (forall i, j :: 0 <= i < j < |es| && es[i].Acquire? && es[j].Acquire? ==> es[i].job != es[j].job)
    && (forall i :: 0 <= i < |es| ==> SlotAt(ttl, limit, es, keys, granted, i))
  }

  /** Slot of event `i` is still held before event `n`: granted, and not released since. */
  ghost predicate HeldFrom(es: seq<Event>, granted: seq<bool>, i: nat, n: nat)
    requires i < n <= |es| == |granted|
  {
    es[i].Acquire? && granted[i] && forall m :: i < m < n ==> !(es[m].Release? && es[m].job == es[i].job)
  }

  /** The reference: the job ids granted, unreleased and unexpired at instant `at`. */
  ghost function LiveSlots(es: seq<Event>, granted: seq<bool>, n: nat, ttl: Millis, at: Millis): set<JobId>
    requires n <= |es| == |granted|
  {
    set i | 0 <= i < n && HeldFrom(es, granted, i, n) && at < es[i].time + ttl :: es[i].job
  }

  /** The held slots in the order they were granted. */
  function Held(es: seq<Event>, granted: seq<bool>, n: nat): seq<Admission>
    requires n <= |es| == |granted|
  {
    if n == 0 then [] else HeldAfter(Held(es, granted, n - 1), es[n - 1], granted[n - 1])
  }

  /** The held list after one more event. */
  function HeldAfter(held: seq<Admission>, e: Event, granted: bool): seq<Admission> {
    match e
    case Acquire(job, time) => if granted then held + [Admission(job, time)] else held
    case Release(job, _) => Without(held, job)
  }

  function Without(hist: seq<Admission>, job: JobId): seq<Admission> {
    if hist == [] then []
    else
      var rest, last := Without(hist[..|hist| - 1], job), hist[|hist| - 1];
      if last.member == job then rest else rest + [last]
  }

  lemma {:induction false} WithoutMembers(hist: seq<Admission>, job: JobId, a: Admission)
    ensures a in Without(hist, job) <==> a in hist && a.member != job
  {
    if hist != [] {
      WithoutMembers(hist[..|hist| - 1], job, a);
      assert hist == hist[..|hist| - 1] + [hist[|hist| - 1]];
    }
  }

  lemma {:induction false} WithoutDistinct(hist: seq<Admission>, job: JobId)
    requires DistinctMembers(hist)
    ensures DistinctMembers(Without(hist, job))
  {
    if hist != [] {
      var init, last := hist[..|hist| - 1], hist[|hist| - 1];
      WithoutDistinct(init, job);
      forall i | 0 <= i < |Without(init, job)| ensures Without(init, job)[i].member != last.member {
        WithoutMembers(init, job, Without(init, job)[i]);
      }
    }
  }

  lemma {:induction false} WithoutCount(hist: seq<Admission>, job: JobId, bound: int)
    ensures CountAfter(Without(hist, job), bound) <= CountAfter(hist, bound)
  {
    if hist != [] {
      WithoutCount(hist[..|hist| - 1], job, bound);
      var rest, last := Without(hist[..|hist| - 1], job), hist[|hist| - 1];
      assert (rest + [last])[..|rest|] == rest;
    }
  }

  /** Releasing one job leaves the key tracking all the others. */
  lemma {:induction false} TracksRelease(k: ZKey, hist: seq<Admission>, now: Millis, ttl: Millis, job: JobId)
    requires Tracks(k, hist, now, ttl)
    ensures Tracks(Freed(k, now, job), Without(hist, job), now, ttl)
  {
    var hist' := Without(hist, job);
    WithoutDistinct(hist, job);
    forall i | 0 <= i < |hist'| ensures hist'[i] in hist && hist'[i].member != job {
      WithoutMembers(hist, job, hist'[i]);
    }
    forall a | a in hist && a.member != job ensures a in hist' {
      WithoutMembers(hist, job, a);
    }
  }

  // ---------------------------------------------------------------- conservation

  function Before(es: seq<Event>, n: nat): Millis
    requires n <= |es|
  {
    if n == 0 then 0 else es[n - 1].time
  }

  /** The held list is what the quantified reference says. */
  lemma {:induction false} HeldMeans(es: seq<Event>, granted: seq<bool>, n: nat, a: Admission)
    requires n <= |es| == |granted|
    ensures a in Held(es, granted, n) <==>
              exists i :: 0 <= i < n && HeldFrom(es, granted, i, n) && es[i] == Acquire(a.member, a.time)
  {
    if n > 0 {
      HeldMeans(es, granted, n - 1, a);
      var e := es[n - 1];
      WithoutMembers(Held(es, granted, n - 1), e.job, a);
      if a in Held(es, granted, n) {
        if a in Held(es, granted, n - 1) && !(e.Release? && e.job == a.member) {
          var i :| 0 <= i < n - 1 && HeldFrom(es, granted, i, n - 1) && es[i] == Acquire(a.member, a.time);
          assert HeldFrom(es, granted, i, n);
        } else {
          assert HeldFrom(es, granted, n - 1, n);
        }
      }
      forall i | 0 <= i < n && HeldFrom(es, granted, i, n) && es[i] == Acquire(a.member, a.time)
        ensures a in Held(es, granted, n)
      {
        if i < n - 1 {
          assert HeldFrom(es, granted, i, n - 1);
        }
      }
    }
  }

  /** A job that has not acquired yet holds nothing. */
  lemma {:induction false} HeldFresh(es: seq<Event>, granted: seq<bool>, n: nat, job: JobId)
    requires n <= |es| == |granted| && forall i :: 0 <= i < n && es[i].Acquire? ==> es[i].job != job
    ensures Fresh(Held(es, granted, n), job)
  {
    var held := Held(es, granted, n);
    forall i | 0 <= i < |held| ensures held[i].member != job {
      HeldMeans(es, granted, n, held[i]);
    }
  }

  lemma AcquireTracks(
      k: ZKey, held: seq<Admission>, now: Millis, ttl: Millis, limit: int, job: JobId, time: Millis, k': ZKey, granted: bool)
    requires Tracks(k, held, now, ttl) && now <= time && Fresh(held, job)
    requires SlotStep(k, Acquire(job, time), ttl, limit, k', granted)
    ensures Tracks(k', HeldAfter(held, Acquire(job, time), granted), time, ttl)
  {
    TracksHolds(k, held, now, ttl, time);
    if granted {
      TracksAdmit(Evicted(k, time, ttl), held, time, ttl, job);
    }
  }

  lemma AcquireDecides(
      k: ZKey, held: seq<Admission>, now: Millis, ttl: Millis, limit: int, job: JobId, time: Millis, k': ZKey, granted: bool)
    requires Tracks(k, held, now, ttl) && now <= time
    requires SlotStep(k, Acquire(job, time), ttl, limit, k', granted)
    ensures granted <==> CountAfter(held, time - ttl) < limit
  {
    TracksHolds(k, held, now, ttl, time);
    HoldsCount(Evicted(k, time, ttl).scores, held, time - ttl);
  }

  lemma StepTracks(k: ZKey, held: seq<Admission>, now: Millis, ttl: Millis, limit: int, e: Event, k': ZKey, granted: bool)
    requires Tracks(k, held, now, ttl) && now <= e.time && SlotStep(k, e, ttl, limit, k', granted)
    requires e.Acquire? ==> Fresh(held, e.job)
    ensures Tracks(k', HeldAfter(held, e, granted), e.time, ttl)
  {
    match e
    case Acquire(job, time) => AcquireTracks(k, held, now, ttl, limit, job, time, k', granted);
    case Release(job, time) =>
      TracksLater(k, held, now, ttl, time);
      TracksRelease(k, held, time, ttl, job);
  }

  /** Granting only below the limit, the held count never passes it. */
  lemma {:induction false} StepBounded(held: seq<Admission>, now: Millis, ttl: Millis, limit: int, e: Event, granted: bool)
    requires now <= e.time && CountAfter(held, now - ttl) <= limit
    requires e.Acquire? && granted ==> CountAfter(held, e.time - ttl) < limit
    ensures CountAfter(HeldAfter(held, e, granted), e.time - ttl) <= limit
  {
    CountAfterFalls(held, now - ttl, e.time - ttl);
    match e
    case Acquire(job, time) => assert (held + [Admission(job, time)])[..|held|] == held;
    case Release(job, time) => WithoutCount(held, job, time - ttl);
  }

  /** What a trace says about its event `n`. */
  ghost predicate EventOk(ttl: Millis, limit: int, es: seq<Event>, keys: seq<ZKey>, granted: seq<bool>, n: nat)
    requires n < |es| == |granted| && |keys| == |es| + 1
  {
    && SlotAt(ttl, limit, es, keys, granted, n) && Before(es, n) <= es[n].time
    && (es[n].Acquire? ==> Fresh(Held(es, granted, n), es[n].job))
  }

  lemma EventAt(ttl: Millis, limit: int, es: seq<Event>, keys: seq<ZKey>, granted: seq<bool>, n: nat)
    requires Trace(ttl, limit, es, keys, granted) && n < |es|
    ensures EventOk(ttl, limit, es, keys, granted, n)
  {
    if es[n].Acquire? {
      HeldFresh(es, granted, n, es[n].job);
    }
  }

  lemma {:induction false} NextTracks(
      ttl: Millis, limit: int, es: seq<Event>, keys: seq<ZKey>, granted: seq<bool>, n: nat)
    requires n < |es| == |granted| && |keys| == |es| + 1 && EventOk(ttl, limit, es, keys, granted, n)
    requires Tracks(keys[n], Held(es, granted, n), Before(es, n), ttl)
    ensures Tracks(keys[n + 1], Held(es, granted, n + 1), Before(es, n + 1), ttl)
  {
    StepTracks(keys[n], Held(es, granted, n), Before(es, n), ttl, limit, es[n], keys[n + 1], granted[n]);
  }

  lemma {:induction false} TraceTracks(
      ttl: Millis, limit: int, es: seq<Event>, keys: seq<ZKey>, granted: seq<bool>, n: nat)
    requires Trace(ttl, limit, es, keys, granted) && n <= |es|
    ensures Tracks(keys[n], Held(es, granted, n), Before(es, n), ttl)
  {
    if n > 0 {
      EventAt(ttl, limit, es, keys, granted, n - 1);
      TraceTracks(ttl, limit, es, keys, granted, n - 1);
      NextTracks(ttl, limit, es, keys, granted, n - 1);
    }
  }

  /** Event `i` comes in clock order, and is a grant only below the limit. */
  ghost predicate GrantOk(es: seq<Event>, granted: seq<bool>, ttl: Millis, limit: int, i: nat)
    requires i < |es| == |granted|
  {
    && Before(es, i) <= es[i].time
    && (es[i].Acquire? && granted[i] ==> CountAfter(Held(es, granted, i), es[i].time - ttl) < limit)
  }

  lemma {:induction false} GrantedBelow(
      ttl: Millis, limit: int, es: seq<Event>, keys: seq<ZKey>, granted: seq<bool>, n: nat)
    requires Trace(ttl, limit, es, keys, granted) && n < |es|
    ensures GrantOk(es, granted, ttl, limit, n)
  {
    EventAt(ttl, limit, es, keys, granted, n);
    if es[n].Acquire? {
      TraceTracks(ttl, limit, es, keys, granted, n);
      AcquireDecides(keys[n], Held(es, granted, n), Before(es, n), ttl, limit, es[n].job, es[n].time, keys[n + 1], granted[n]);
    }
  }

  lemma {:induction false} HeldBounded(es: seq<Event>, granted: seq<bool>, ttl: Millis, limit: int, n: nat)
    requires n <= |es| == |granted| && limit >= 0
    requires forall i :: 0 <= i < n ==> GrantOk(es, granted, ttl, limit, i)
    ensures CountAfter(Held(es, granted, n), Before(es, n) - ttl) <= limit
  {
    if n > 0 {
      HeldBounded(es, granted, ttl, limit, n - 1);
      assert GrantOk(es, granted, ttl, limit, n - 1);
      StepBounded(Held(es, granted, n - 1), Before(es, n - 1), ttl, limit, es[n - 1], granted[n - 1]);
    }
  }

  lemma {:induction false} LiveMeans(
      es: seq<Event>, granted: seq<bool>, n: nat, ttl: Millis, at: Millis, live: Scores)
    requires n <= |es| == |granted| && Holds(live, Held(es, granted, n), at - ttl)
    ensures live.Keys == LiveSlots(es, granted, n, ttl, at)
  {
    var held := Held(es, granted, n);
    forall job | job in live ensures job in LiveSlots(es, granted, n, ttl, at) {
      HeldMeans(es, granted, n, Admission(job, live[job]));
    }
    forall job | job in LiveSlots(es, granted, n, ttl, at) ensures job in live {
      var i :| 0 <= i < n && HeldFrom(es, granted, i, n) && at < es[i].time + ttl && es[i].job == job;
      HeldMeans(es, granted, n, Admission(job, es[i].time));
      var j :| 0 <= j < |held| && held[j] == Admission(job, es[i].time);
    }
  }

  /** Slot conservation: at every instant the slots in Redis are exactly the job ids granted,
      unreleased and unexpired, and there are never more of them than the limit. */
  lemma {:induction false} SlotConservation(
      ttl: Millis, limit: int, es: seq<Event>, keys: seq<ZKey>, granted: seq<bool>, n: nat, at: Millis)
    requires Trace(ttl, limit, es, keys, granted) && n <= |es| && Before(es, n) <= at && limit >= 0
    ensures Evicted(keys[n], at, ttl).scores.Keys == LiveSlots(es, granted, n, ttl, at)
    ensures |LiveSlots(es, granted, n, ttl, at)| <= limit
  {
    TraceTracks(ttl, limit, es, keys, granted, n);
    forall i | 0 <= i < n ensures GrantOk(es, granted, ttl, limit, i) {
      GrantedBelow(ttl, limit, es, keys, granted, i);
    }
    HeldBounded(es, granted, ttl, limit, n);
    LiveBounded(keys[n], Held(es, granted, n), Before(es, n), ttl, limit, at);
    LiveMeans(es, granted, n, ttl, at, Evicted(keys[n], at, ttl).scores);
  }

  /** A slot is granted if and only if the user holds fewer live slots than the limit at that moment. */
  lemma {:induction false} GrantExact(
      ttl: Millis, limit: int, es: seq<Event>, keys: seq<ZKey>, granted: seq<bool>, n: nat)
    requires Trace(ttl, limit, es, keys, granted) && n < |es| && es[n].Acquire?
    ensures granted[n] <==> |LiveSlots(es, granted, n, ttl, es[n].time)| < limit
  {
    EventAt(ttl, limit, es, keys, granted, n);
    TraceTracks(ttl, limit, es, keys, granted, n);
    GrantAt(ttl, limit, es, keys, granted, n, Held(es, granted, n), Before(es, n));
    LiveMeans(es, granted, n, ttl, es[n].time, Evicted(keys[n], es[n].time, ttl).scores);
  }

  lemma GrantAt(
      ttl: Millis, limit: int, es: seq<Event>, keys: seq<ZKey>, granted: seq<bool>, n: nat,
      held: seq<Admission>, before: Millis)
    requires n < |es| == |granted| && |keys| == |es| + 1 && es[n].Acquire? && SlotAt(ttl, limit, es, keys, granted, n)
    requires Tracks(keys[n], held, before, ttl) && before <= es[n].time
    ensures Holds(Evicted(keys[n], es[n].time, ttl).scores, held, es[n].time - ttl)
    ensures granted[n] <==> |Evicted(keys[n], es[n].time, ttl).scores.Keys| < limit
  {
    TracksHolds(keys[n], held, before, ttl, es[n].time);
  }

  lemma LiveBounded(k: ZKey, held: seq<Admission>, now: Millis, ttl: Millis, limit: int, at: Millis)
    requires Tracks(k, held, now, ttl) && CountAfter(held, now - ttl) <= limit && now <= at
    ensures Holds(Evicted(k, at, ttl).scores, held, at - ttl)
    ensures |Evicted(k, at, ttl).scores.Keys| <= limit
  {
    TracksHolds(k, held, now, ttl, at);
    HoldsCount(Evicted(k, at, ttl).scores, held, at - ttl);
    CountAfterFalls(held, now - ttl, at - ttl);
  }

  /** A release, repeated or late, by the API or by a worker, takes away its own job's slot and no
      other's. */
  lemma ReleaseIsLocal(k: ZKey, now: Millis, ttl: Millis, job: JobId, at: Millis)
    requires now <= at
    ensures Evicted(Freed(k, now, job), at, ttl).scores == Evicted(k, at, ttl).scores - {job}
    ensures Freed(Freed(k, now, job), now, job) == Freed(k, now, job)
  {
  }
}
