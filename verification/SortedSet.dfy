/**
 A Redis sorted set under one key, with the key's expiry. Both admission scripts keep their state in
 one of these: members are request or job ids and scores are the instants they were admitted.
 */
module SortedSet {
  import opened RedisModel

  type Member = string
  type Scores = map<Member, Millis>

  datatype ZKey = ZKey(scores: Scores, expiresAt: Option<Millis>)

  const NO_KEY := ZKey(map[], None)

  /** A key past its expiry is gone. */
  function Purge(k: ZKey, now: Millis): ZKey {
    if k.expiresAt.Some? && k.expiresAt.value < now then NO_KEY else k
  }

  /** What ZREMRANGEBYSCORE key 0 `bound` leaves. Scores are never negative. */
  function Above(scores: Scores, bound: int): Scores {
    map m | m in scores && scores[m] > bound :: scores[m]
  }

  /** An emptied set takes its key, and so its expiry, with it. */
  function Normal(k: ZKey): ZKey {
    if k.scores == map[] then NO_KEY else k
  }

  /** The key as an acquire script at `now` finds it after its own eviction. */
  function Evicted(k: ZKey, now: Millis, span: Millis): ZKey {
    Normal(Purge(k, now).(scores := Above(Purge(k, now).scores, now - span)))
  }

  /** ZADD and PEXPIRE. */
  function Admitted(k: ZKey, now: Millis, span: Millis, member: Member): ZKey {
    ZKey(k.scores[member := now], Some(now + span))
  }

  ghost predicate IsOldest(scores: Scores, score: Millis) {
    && (exists m :: m in scores && scores[m] == score)
    && (forall m :: m in scores ==> score <= scores[m])
  }

  /** ZRANGE key 0 0 WITHSCORES. */
  method Oldest(scores: Scores) returns (score: Option<Millis>)
    ensures score.None? <==> scores == map[]
    ensures score.Some? ==> IsOldest(scores, score.value)
  {
    score := None;
    var rest := scores.Keys;
    while rest != {}
      invariant rest <= scores.Keys
      invariant score.None? ==> rest == scores.Keys
      invariant score.Some? ==> exists m :: m in scores && scores[m] == score.value
      invariant score.Some? ==> forall m :: m in scores && m !in rest ==> score.value <= scores[m]
      decreases rest
    {
      var m :| m in rest;
      rest := rest - {m};
      if score.None? || scores[m] < score.value {
        score := Some(scores[m]);
      }
    }
    if score.None? {
      assert scores.Keys == {};
    }
  }

  // ---------------------------------------------------------------- the full history

  /** One admission: who and when. */
  datatype Admission = Admission(member: Member, time: Millis)

  /** How many admissions of the history are later than `bound`. */
  function CountAfter(hist: seq<Admission>, bound: int): nat {
    if hist == [] then 0
    else CountAfter(hist[..|hist| - 1], bound) + if hist[|hist| - 1].time > bound then 1 else 0
  }

  ghost predicate DistinctMembers(hist: seq<Admission>) {
    forall i, j :: 0 <= i < j < |hist| ==> hist[i].member != hist[j].member
  }

  ghost predicate Fresh(hist: seq<Admission>, member: Member) {
    forall i :: 0 <= i < |hist| ==> hist[i].member != member
  }

  ghost predicate UpTo(hist: seq<Admission>, now: Millis) {
    forall i :: 0 <= i < |hist| ==> hist[i].time <= now
  }

  /** `scores` holds exactly the admissions of the history later than `bound`. */
  ghost predicate Holds(scores: Scores, hist: seq<Admission>, bound: int) {
    && (forall i :: 0 <= i < |hist| && hist[i].time > bound ==>
          hist[i].member in scores && scores[hist[i].member] == hist[i].time)
    && (forall m :: m in scores ==> scores[m] > bound && Admission(m, scores[m]) in hist)
  }

  lemma HoldsInit(scores: Scores, hist: seq<Admission>, bound: int)
    requires hist != [] && DistinctMembers(hist) && Holds(scores, hist, bound)
    ensures var init, last := hist[..|hist| - 1], hist[|hist| - 1];
            Holds(if last.time > bound then scores - {last.member} else scores, init, bound)
  {
    var init, last := hist[..|hist| - 1], hist[|hist| - 1];
    var smaller := if last.time > bound then scores - {last.member} else scores;
    assert hist == init + [last];
    forall m | m in smaller ensures Admission(m, smaller[m]) in init {
      assert Admission(m, scores[m]) in hist;
    }
  }

  /** Counting the sorted set is counting the history. */
  lemma {:induction false} HoldsCount(scores: Scores, hist: seq<Admission>, bound: int)
    requires DistinctMembers(hist) && Holds(scores, hist, bound)
    ensures |scores| == CountAfter(hist, bound)
  {
    if hist == [] {
      assert scores.Keys == {};
    } else {
      var init, last := hist[..|hist| - 1], hist[|hist| - 1];
      HoldsInit(scores, hist, bound);
      if last.time > bound {
        HoldsCount(scores - {last.member}, init, bound);
        assert scores.Keys == (scores - {last.member}).Keys + {last.member};
      } else {
        HoldsCount(scores, init, bound);
      }
    }
  }

  lemma {:induction false} CountAfterNone(hist: seq<Admission>, bound: int)
    requires forall i :: 0 <= i < |hist| ==> hist[i].time <= bound
    ensures CountAfter(hist, bound) == 0
  {
    if hist != [] {
      CountAfterNone(hist[..|hist| - 1], bound);
    }
  }

  /** Raising the bound past at least one admission lowers the count. */
  lemma {:induction false} CountAfterFalls(hist: seq<Admission>, low: int, high: int)
    requires low <= high
    ensures CountAfter(hist, high) <= CountAfter(hist, low)
    ensures (exists i :: 0 <= i < |hist| && low < hist[i].time <= high) ==> CountAfter(hist, high) < CountAfter(hist, low)
    ensures (forall i :: 0 <= i < |hist| ==> !(low < hist[i].time <= high)) ==> CountAfter(hist, high) == CountAfter(hist, low)
  {
    if hist != [] {
      CountAfterFalls(hist[..|hist| - 1], low, high);
      assert forall i :: 0 <= i < |hist| - 1 ==> hist[..|hist| - 1][i] == hist[i];
      if exists i :: 0 <= i < |hist| && low < hist[i].time <= high {
        var i :| 0 <= i < |hist| && low < hist[i].time <= high;
        assert i < |hist| - 1 ==> hist[..|hist| - 1][i] == hist[i];
      }
    }
  }

  // ---------------------------------------------------------------- the key tracks the history

  /** The key, evicted and expired as it is, still knows every admission of the last `span`. */
  ghost predicate Tracks(k: ZKey, hist: seq<Admission>, now: Millis, span: Millis) {
    && DistinctMembers(hist) && UpTo(hist, now)
    && (forall i :: 0 <= i < |hist| && hist[i].time > now - span ==>
          hist[i].member in k.scores && k.scores[hist[i].member] == hist[i].time)
    && (forall m :: m in k.scores ==> Admission(m, k.scores[m]) in hist)
    && (k.expiresAt.Some? ==> forall i :: 0 <= i < |hist| ==> hist[i].time + span <= k.expiresAt.value)
    && (k.expiresAt.None? ==> k.scores == map[])
  }

  /** Neither the eviction nor the key's expiry loses an admission that still counts. */
  lemma TracksHolds(k: ZKey, hist: seq<Admission>, now: Millis, span: Millis, later: Millis)
    requires Tracks(k, hist, now, span) && now <= later
    ensures Holds(Evicted(k, later, span).scores, hist, later - span)
    ensures Tracks(Evicted(k, later, span), hist, later, span)
  {
  }

  lemma TracksAdmit(k: ZKey, hist: seq<Admission>, now: Millis, span: Millis, member: Member)
    requires Tracks(k, hist, now, span) && Fresh(hist, member)
    ensures Tracks(Admitted(k, now, span, member), hist + [Admission(member, now)], now, span)
  {
  }

  lemma TracksLater(k: ZKey, hist: seq<Admission>, now: Millis, span: Millis, later: Millis)
    requires Tracks(k, hist, now, span) && now <= later
    ensures Tracks(k, hist, later, span)
  {
  }
}
