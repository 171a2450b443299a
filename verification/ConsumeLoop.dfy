/**
 * The worker's pool: WorkerDaemon._consume_loop and _dispatch of worker/worker.py.  The loop is
 * one coroutine; whenever it is suspended, the done-callbacks of finished tasks run.  Each task
 * has two of them, discard from the in-flight set and release of the semaphore, and other code
 * may run between the two.
 */
module ConsumeLoop {
  import opened RedisModel

  type Message = string

  // What can happen to the pool while the loop is suspended.  An event that does not apply in the
  // current state (a task not in flight, no release queued) does not happen.
  datatype Event = Discard(task: nat) | Release

  // One suspension on a Redis call: the events meanwhile, and the reply (None: a RedisError).
  datatype Call<T> = Call(events: seq<Event>, reply: Option<T>)

  // Everything one iteration may wait for.  Redis has some number of stale entries and some unread
  // messages, and returns at most as many as asked for; claims[k] is the k-th XCLAIM, whose reply
  // may be empty.  Acquires[k] are the events while the k-th dispatch waits for a permit.
  datatype Round = Round(
    idle: seq<Event>,
    depth: Call<nat>,
    stale: Call<nat>, claims: seq<Call<Option<Message>>>, staleAcquires: seq<seq<Event>>,
    unread: Call<seq<Message>>, unreadAcquires: seq<seq<Event>>,
    backoff: seq<Event>
  )

  datatype Limits = Limits(concurrency: nat, readCount: nat)

  function UpTo(count: nat, ready: seq<Message>): (reply: seq<Message>)
    ensures reply <= ready && |reply| == Min(count, |ready|)
  {
    if count < |ready| then ready[..count] else ready
  }

  function Min(a: nat, b: nat): nat {
    if a <= b then a else b
  }

  function First<T>(items: seq<T>, none: T): T {
    if items == [] then none else items[0]
  }

  function Rest<T>(items: seq<T>): seq<T> {
    if items == [] then [] else items[1..]
  }

  // ---- the pool as a value ---------------------------------------------------------------------

  // Task k runs started[k].  `releasing` counts tasks discarded whose release has not run; the
  // messages in `fetched` have been returned by Redis and not been dispatched.
  datatype State = State(inflight: set<nat>, releasing: nat, fetched: seq<Message>, started: seq<Message>)

  // The semaphore permits taken.
  function Held(s: State): nat {
    |s.inflight| + s.releasing
  }

  // How many more tasks the pool may hold.
  function Room(l: Limits, s: State): nat {
    if |s.inflight| < l.concurrency then l.concurrency - |s.inflight| else 0
  }

  function OnEvent(s: State, e: Event): (s': State)
    ensures s'.fetched == s.fetched && s'.started == s.started
  {
    match e
    case Discard(task) =>
      if task in s.inflight then s.(inflight := s.inflight - {task}, releasing := s.releasing + 1) else s
    case Release => if s.releasing > 0 then s.(releasing := s.releasing - 1) else s
  }

  function OnEvents(s: State, events: seq<Event>): (s': State)
    ensures s'.fetched == s.fetched && s'.started == s.started
  {
    if events == [] then s else OnEvent(OnEvents(s, events[..|events| - 1]), events[|events| - 1])
  }

  // The oldest fetched message becomes a task.
  function Begun(s: State): State
    requires s.fetched != []
  {
    s.(inflight := s.inflight + {|s.started|}, started := s.started + [s.fetched[0]], fetched := s.fetched[1..])
  }

  // _dispatch: wait for a permit if none is free, and start the message once there is one.
  function AfterDispatch(l: Limits, s: State, events: seq<Event>): State
    requires s.fetched != []
  {
    var s1 := if Held(s) == l.concurrency then OnEvents(s, events) else s;
    if Held(s1) < l.concurrency then Begun(s1) else s1
  }

  // All fetched messages dispatched in order, as far as permits came free.
  function AfterDispatches(l: Limits, s: State, acquires: seq<seq<Event>>): State
    decreases |s.fetched|
  {
    if s.fetched == [] then s
    else
      var s1 := AfterDispatch(l, s, First(acquires, []));
      if |s1.fetched| < |s.fetched| then AfterDispatches(l, s1, Rest(acquires)) else s1
  }

  datatype Claimed = Claimed(state: State, replied: bool)

  const NO_CLAIM: Call<Option<Message>> := Call([], Some(None))

  // The message a claim returned, if it did.
  function Reply(claim: Call<Option<Message>>): seq<Message> {
    if claim.reply.Some? && claim.reply.value.Some? then [claim.reply.value.value] else []
  }

  // One XCLAIM.  What a pass had claimed when a call of it fails never reaches the loop.
  function AfterClaim(before: Claimed, claim: Call<Option<Message>>): Claimed {
    if !before.replied then before
    else
      var s1 := OnEvents(before.state, claim.events);
      if claim.reply.None? then Claimed(s1.(fetched := []), false)
      else Claimed(s1.(fetched := s1.fetched + Reply(claim)), true)
  }

  // The first `count` XCLAIMs of one pass.
  function AfterClaims(s: State, claims: seq<Call<Option<Message>>>, count: nat): Claimed {
    if count == 0 then Claimed(s, true) else AfterClaim(AfterClaims(s, claims, count - 1), Nth(claims, count - 1))
  }

  function Nth(claims: seq<Call<Option<Message>>>, k: nat): Call<Option<Message>> {
    if k < |claims| then claims[k] else NO_CLAIM
  }

  function AfterClaimStale(s: State, count: nat, listed: Call<nat>, claims: seq<Call<Option<Message>>>): Claimed {
    var s1 := OnEvents(s, listed.events);
    if listed.reply.None? then Claimed(s1, false) else AfterClaims(s1, claims, Min(count, listed.reply.value))
  }

  // The first half of an iteration, up to the second look at the room: does it go on to read?
  datatype Half = Half(state: State, goesOn: bool)

  function AfterFirstHalf(l: Limits, s: State, r: Round): Half {
    if Room(l, s) == 0 then Half(OnEvents(s, r.idle), false)
    else
      var s1 := OnEvents(s, r.depth.events);
      if r.depth.reply.None? then Half(OnEvents(s1, r.backoff), false)
      else
        var claimed := AfterClaimStale(s1, Min(l.readCount, Room(l, s)), r.stale, r.claims);
        if !claimed.replied then Half(OnEvents(claimed.state, r.backoff), false)
        else
          var s2 := AfterDispatches(l, claimed.state, r.staleAcquires);
          Half(s2, s2.fetched == [] && Room(l, s2) > 0)
  }

  function AfterSecondHalf(l: Limits, s: State, r: Round): State {
    var s1 := OnEvents(s, r.unread.events);
    if r.unread.reply.None? then OnEvents(s1, r.backoff)
    else
      var messages := UpTo(Min(l.readCount, Room(l, s)), r.unread.reply.value);
      AfterDispatches(l, s1.(fetched := s1.fetched + messages), r.unreadAcquires)
  }

  function AfterRound(l: Limits, s: State, r: Round): State {
    var half := AfterFirstHalf(l, s, r);
    if half.goesOn then AfterSecondHalf(l, half.state, r) else half.state
  }

  // The loop goes on to the next round unless it is still suspended in a dispatch.
  function Next(l: Limits, s: State, r: Round): State {
    if s.fetched == [] then AfterRound(l, s, r) else s
  }

  // ---- nothing Redis returns is lost or made up ------------------------------------------------

  // The messages among the replies of the first `count` claims.
  function Replies(claims: seq<Call<Option<Message>>>, count: nat): seq<Message> {
    if count == 0 then [] else Replies(claims, count - 1) + Reply(Nth(claims, count - 1))
  }

  predicate AllReply(claims: seq<Call<Option<Message>>>, count: nat) {
    forall k :: 0 <= k < |claims| && k < count ==> claims[k].reply.Some?
  }

  // Everything the loop has taken on, in order.
  function Taken(s: State): seq<Message> {
    s.started + s.fetched
  }

  lemma Regroup(a: seq<Message>, b: seq<Message>, c: seq<Message>)
    ensures (a + b) + c == a + (b + c)
  {
  }

  lemma DispatchTakes(l: Limits, s: State, events: seq<Event>)
    requires s.fetched != []
    ensures Taken(AfterDispatch(l, s, events)) == Taken(s)
  {
    assert s.started + [s.fetched[0]] + s.fetched[1..] == s.started + s.fetched;
  }

  lemma {:induction false} DispatchesTake(l: Limits, s: State, acquires: seq<seq<Event>>)
    ensures Taken(AfterDispatches(l, s, acquires)) == Taken(s)
    decreases |s.fetched|
  {
    if s.fetched != [] {
      DispatchTakes(l, s, First(acquires, []));
      var s1 := AfterDispatch(l, s, First(acquires, []));
      if |s1.fetched| < |s.fetched| {
        DispatchesTake(l, s1, Rest(acquires));
      }
    }
  }

  lemma {:induction false} ClaimsTake(s: State, claims: seq<Call<Option<Message>>>, count: nat)
    ensures var c := AfterClaims(s, claims, count);
            && (c.replied <==> AllReply(claims, count))
            && c.state.started == s.started
            && c.state.fetched == if c.replied then s.fetched + Replies(claims, count) else []
  {
    if count > 0 {
      ClaimsTake(s, claims, count - 1);
      ClaimTakes(AfterClaims(s, claims, count - 1), Nth(claims, count - 1), s.fetched, Replies(claims, count - 1));
      AllReplyNext(claims, count);
    }
  }

  lemma ClaimTakes(before: Claimed, claim: Call<Option<Message>>, held: seq<Message>, got: seq<Message>)
    requires before.state.fetched == if before.replied then held + got else []
    ensures var c := AfterClaim(before, claim);
            && (c.replied <==> before.replied && claim.reply.Some?)
            && c.state.started == before.state.started
            && c.state.fetched == if c.replied then held + (got + Reply(claim)) else []
  {
    Regroup(held, got, Reply(claim));
  }

  lemma AllReplyNext(claims: seq<Call<Option<Message>>>, count: nat)
    requires count > 0
    ensures AllReply(claims, count) <==> AllReply(claims, count - 1) && Nth(claims, count - 1).reply.Some?
  {
  }

  // A pass that has failed claims no more.
  lemma {:induction false} ClaimsOver(s: State, claims: seq<Call<Option<Message>>>, k: nat, count: nat)
    requires k <= count && !AfterClaims(s, claims, k).replied
    ensures AfterClaims(s, claims, count) == AfterClaims(s, claims, k)
    decreases count
  {
    if k < count {
      ClaimsOver(s, claims, k, count - 1);
    }
  }

  // What the first half of a round takes on: nothing without room or after a failing call, else the
  // replies of as many claims as there are listed entries, at most the batch.
  function FirstGain(l: Limits, s: State, r: Round): seq<Message> {
    if Room(l, s) == 0 || r.depth.reply.None? || r.stale.reply.None? then []
    else
      var count := Min(Min(l.readCount, Room(l, s)), r.stale.reply.value);
      if AllReply(r.claims, count) then Replies(r.claims, count) else []
  }

  // No call of the first half fails, and there was room to begin with.
  predicate FirstCallsReply(l: Limits, s: State, r: Round) {
    && Room(l, s) > 0 && r.depth.reply.Some? && r.stale.reply.Some?
    && AllReply(r.claims, Min(Min(l.readCount, Room(l, s)), r.stale.reply.value))
  }

  lemma FirstHalfTakes(l: Limits, s: State, r: Round)
    requires s.fetched == []
    ensures var half := AfterFirstHalf(l, s, r);
            && Taken(half.state) == s.started + FirstGain(l, s, r)
            && (half.goesOn <==> FirstCallsReply(l, s, r) && half.state.fetched == [] && Room(l, half.state) > 0)
            && (!FirstCallsReply(l, s, r) ==> half.state.fetched == [])
  {
    if Room(l, s) > 0 && r.depth.reply.Some? {
      var s1, count := OnEvents(s, r.depth.events), Min(l.readCount, Room(l, s));
      ClaimStaleTakes(s1, count, r.stale, r.claims);
      DispatchesTake(l, AfterClaimStale(s1, count, r.stale, r.claims).state, r.staleAcquires);
    }
  }

  lemma ClaimStaleTakes(s: State, count: nat, listed: Call<nat>, claims: seq<Call<Option<Message>>>)
    requires s.fetched == []
    ensures var c := AfterClaimStale(s, count, listed, claims);
            && (c.replied <==> listed.reply.Some? && AllReply(claims, Min(count, listed.reply.value)))
            && c.state.started == s.started
            && c.state.fetched == if c.replied then Replies(claims, Min(count, listed.reply.value)) else []
  {
    if listed.reply.Some? {
      ClaimsTake(OnEvents(s, listed.events), claims, Min(count, listed.reply.value));
    }
  }

  // What a whole round takes on: the first half's gain and then, if that is all dispatched and there
  // is room, as many of the unread messages as there is room for, at most the read count.
  function Gain(l: Limits, s: State, r: Round): seq<Message> {
    var half := AfterFirstHalf(l, s, r).state;
    FirstGain(l, s, r)
    + if FirstCallsReply(l, s, r) && half.fetched == [] && r.unread.reply.Some?
      then UpTo(Min(l.readCount, Room(l, half)), r.unread.reply.value) else []
  }

  lemma SecondHalfTakes(l: Limits, s: State, r: Round)
    requires s.fetched == []
    ensures Taken(AfterSecondHalf(l, s, r))
            == s.started + if r.unread.reply.Some? then UpTo(Min(l.readCount, Room(l, s)), r.unread.reply.value) else []
  {
    if r.unread.reply.Some? {
      var s1 := OnEvents(s, r.unread.events);
      var messages := UpTo(Min(l.readCount, Room(l, s)), r.unread.reply.value);
      DispatchesTake(l, s1.(fetched := s1.fetched + messages), r.unreadAcquires);
    }
  }

  // The loop takes on exactly what Redis returns to it, in order.
  lemma RoundTakes(l: Limits, s: State, r: Round)
    requires s.fetched == []
    ensures Taken(AfterRound(l, s, r)) == s.started + Gain(l, s, r)
  {
    FirstHalfTakes(l, s, r);
    var half := AfterFirstHalf(l, s, r);
    if half.goesOn {
      SecondHalfTakes(l, half.state, r);
      if r.unread.reply.Some? {
        Regroup(s.started, FirstGain(l, s, r), UpTo(Min(l.readCount, Room(l, half.state)), r.unread.reply.value));
      }
    }
  }

  function NextGain(l: Limits, s: State, r: Round): seq<Message> {
    if s.fetched == [] then Gain(l, s, r) else []
  }

  lemma NextTakes(l: Limits, s: State, r: Round)
    ensures Taken(Next(l, s, r)) == Taken(s) + NextGain(l, s, r)
  {
    if s.fetched == [] {
      RoundTakes(l, s, r);
      assert Taken(s) == s.started;
    }
  }

  // A run of the loop: views[k] is the pool before round k.
  ghost predicate IsRun(l: Limits, views: seq<State>, rounds: seq<Round>) {
    |views| == |rounds| + 1 && forall k :: 0 <= k < |rounds| ==> RoundAt(l, views, rounds, k)
  }

  ghost predicate RoundAt(l: Limits, views: seq<State>, rounds: seq<Round>, k: nat)
    requires k < |rounds| && |rounds| < |views|
  {
    views[k + 1] == Next(l, views[k], rounds[k])
  }

  lemma RunGrows(l: Limits, views: seq<State>, rounds: seq<Round>, r: Round, s: State)
    requires IsRun(l, views, rounds) && s == Next(l, views[|rounds|], r)
    ensures IsRun(l, views + [s], rounds + [r])
  {
    var views', rounds' := views + [s], rounds + [r];
    forall k | 0 <= k < |rounds'| ensures RoundAt(l, views', rounds', k) {
      if k < |rounds| {
        assert RoundAt(l, views, rounds, k);
      }
    }
  }

  // What the first n rounds took on.
  function Gains(l: Limits, views: seq<State>, rounds: seq<Round>, n: nat): seq<Message>
    requires n <= |rounds| <= |views|
  {
    if n == 0 then [] else Gains(l, views, rounds, n - 1) + NextGain(l, views[n - 1], rounds[n - 1])
  }

  // Over any run, what the loop has started and still holds is what Redis returned, in order.
  lemma {:induction false} RunTakes(l: Limits, views: seq<State>, rounds: seq<Round>, n: nat)
    requires IsRun(l, views, rounds) && n <= |rounds|
    ensures Taken(views[n]) == Taken(views[0]) + Gains(l, views, rounds, n)
  {
    if n > 0 {
      RunTakes(l, views, rounds, n - 1);
      assert RoundAt(l, views, rounds, n - 1);
      NextTakes(l, views[n - 1], rounds[n - 1]);
      Regroup(Taken(views[0]), Gains(l, views, rounds, n - 1), NextGain(l, views[n - 1], rounds[n - 1]));
    }
  }

  lemma AllTaken(l: Limits, views: seq<State>, rounds: seq<Round>, first: State, last: State)
    requires IsRun(l, views, rounds) && views[0] == first && views[|rounds|] == last && first.fetched == []
    ensures last.started + last.fetched == first.started + Gains(l, views, rounds, |rounds|)
  {
    RunTakes(l, views, rounds, |rounds|);
    assert Taken(first) == first.started;
  }

  // ---- everything taken on is started ----------------------------------------------------------

  // Task numbers of the future are not in flight.
  ghost predicate Numbered(s: State) {
    forall t :: t in s.inflight ==> t < |s.started|
  }

  lemma BegunCounts(s: State)
    requires Numbered(s) && s.fetched != []
    ensures var s1 := Begun(s);
            |s1.inflight| == |s.inflight| + 1 && Numbered(s1) && s1.started + s1.fetched == s.started + s.fetched
  {
  }

  // When the permits suffice, dispatching waits for nothing and starts everything.
  lemma {:induction false} PermitsSuffice(l: Limits, s: State, acquires: seq<seq<Event>>)
    requires Numbered(s) && Held(s) + |s.fetched| <= l.concurrency
    ensures var s' := AfterDispatches(l, s, acquires);
            && s'.fetched == [] && s'.started == s.started + s.fetched && s'.releasing == s.releasing
            && |s'.inflight| == |s.inflight| + |s.fetched| && Numbered(s')
    decreases |s.fetched|
  {
    if s.fetched != [] {
      var s1 := Begun(s);
      BegunCounts(s);
      assert AfterDispatch(l, s, First(acquires, [])) == s1;
      PermitsSuffice(l, s1, Rest(acquires));
    }
  }

  lemma {:induction false} RepliesAtMost(claims: seq<Call<Option<Message>>>, count: nat)
    ensures |Replies(claims, count)| <= count
  {
    if count > 0 {
      RepliesAtMost(claims, count - 1);
    }
  }

  // No callback runs during the claims.
  predicate NoClaimEvents(claims: seq<Call<Option<Message>>>) {
    forall k :: 0 <= k < |claims| ==> claims[k].events == []
  }

  lemma {:induction false} QuietClaims(s: State, claims: seq<Call<Option<Message>>>, count: nat)
    requires NoClaimEvents(claims)
    ensures var c := AfterClaims(s, claims, count);
            c.state.inflight == s.inflight && c.state.releasing == s.releasing
  {
    if count > 0 {
      QuietClaims(s, claims, count - 1);
    }
  }

  // A round in which every call replies and no callback runs, entered with no release outstanding.
  ghost predicate QuietRound(l: Limits, s: State, r: Round) {
    && s.fetched == [] && s.releasing == 0 && Numbered(s) && |s.inflight| < l.concurrency
    && r.depth.events == [] && r.stale.events == [] && NoClaimEvents(r.claims) && r.unread.events == []
    && r.depth.reply.Some? && r.stale.reply.Some? && r.unread.reply.Some?
    && AllReply(r.claims, Min(Min(l.readCount, l.concurrency - |s.inflight|), r.stale.reply.value))
  }

  lemma QuietFirstHalf(l: Limits, s: State, r: Round, claimed: seq<Message>)
    requires QuietRound(l, s, r)
    requires claimed == Replies(r.claims, Min(Min(l.readCount, l.concurrency - |s.inflight|), r.stale.reply.value))
    ensures var h := AfterFirstHalf(l, s, r).state;
            && h.fetched == [] && h.started == s.started + claimed && h.releasing == 0 && Numbered(h)
            && |h.inflight| == |s.inflight| + |claimed| <= l.concurrency
            && AfterFirstHalf(l, s, r).goesOn == (|h.inflight| < l.concurrency)
  {
    var batch := Min(l.readCount, l.concurrency - |s.inflight|);
    var count := Min(batch, r.stale.reply.value);
    ClaimStaleTakes(s, batch, r.stale, r.claims);
    QuietClaims(s, r.claims, count);
    RepliesAtMost(r.claims, count);
    PermitsSuffice(l, AfterClaimStale(s, batch, r.stale, r.claims).state, r.staleAcquires);
  }

  // Such a round starts, at once and in order, the messages of the first min(batch, listed) claims and
  // then as many of the unread ones as there is room left for, and leaves none waiting.
  lemma QuietRoundStarts(l: Limits, s: State, r: Round)
    requires QuietRound(l, s, r)
    ensures var room := l.concurrency - |s.inflight|;
            var claimed := Replies(r.claims, Min(Min(l.readCount, room), r.stale.reply.value));
            var s' := AfterRound(l, s, r);
            && |claimed| <= room && s'.fetched == []
            && s'.started == s.started + claimed + UpTo(Min(l.readCount, room - |claimed|), r.unread.reply.value)
  {
    var room := l.concurrency - |s.inflight|;
    var claimed := Replies(r.claims, Min(Min(l.readCount, room), r.stale.reply.value));
    QuietFirstHalf(l, s, r, claimed);
    var half := AfterFirstHalf(l, s, r);
    if half.goesOn {
      QuietSecondHalf(l, half.state, r);
    } else {
      assert UpTo(Min(l.readCount, room - |claimed|), r.unread.reply.value) == [];
    }
  }

  lemma QuietSecondHalf(l: Limits, s: State, r: Round)
    requires s.fetched == [] && s.releasing == 0 && Numbered(s) && |s.inflight| < l.concurrency
    requires r.unread.events == [] && r.unread.reply.Some?
    ensures var s' := AfterSecondHalf(l, s, r);
            && s'.fetched == []
            && s'.started == s.started + UpTo(Min(l.readCount, l.concurrency - |s.inflight|), r.unread.reply.value)
  {
    var messages := UpTo(Min(l.readCount, l.concurrency - |s.inflight|), r.unread.reply.value);
    PermitsSuffice(l, s.(fetched := s.fetched + messages), r.unreadAcquires);
  }

  // ---- the pool as an object -------------------------------------------------------------------

  datatype Snapshot = Snapshot(inflight: nat, held: nat, fetched: nat)

  ghost predicate InBounds(concurrency: nat, s: Snapshot) {
    s.inflight + s.fetched <= concurrency && s.inflight <= s.held <= concurrency
  }

  class Pool {
    const limits: Limits

    var inflight: set<nat>
    var releasing: nat
    var held: nat
    var fetched: seq<Message>
    var started: seq<Message>
    ghost var log: seq<Snapshot>

    ghost function View(): State
      reads this
    {
      State(inflight, releasing, fetched, started)
    }

    ghost function Now(): Snapshot
      reads this
    {
      Snapshot(|inflight|, held, |fetched|)
    }

    // Permits are conserved, and the pool is bounded now and was in every state so far.
    ghost predicate Valid()
      reads this
    {
      && limits.readCount >= 1
      && held == Held(View()) && Numbered(View())
      && InBounds(limits.concurrency, Now())
      && (forall i :: 0 <= i < |log| ==> InBounds(limits.concurrency, log[i]))
      && log != [] && log[|log| - 1] == Now()
    }

    constructor (limits: Limits)
      requires limits.readCount >= 1
      ensures Valid() && this.limits == limits && View() == State({}, 0, [], [])
      ensures log == [Snapshot(0, 0, 0)]
    {
      this.limits := limits;
      inflight, releasing, held, fetched, started := {}, 0, 0, [], [];
      log := [Snapshot(0, 0, 0)];
    }

    // The callbacks that run during one suspension.  Tasks only leave, so room computed before it
    // is still there after it.
    method Suspend(events: seq<Event>)
      requires Valid()
      modifies this`inflight, this`releasing, this`held, this`log
      ensures Valid() && old(log) <= log
      ensures View() == OnEvents(old(View()), events)
      ensures inflight <= old(inflight) && |inflight| <= old(|inflight|)
    {
      for k := 0 to |events|
        invariant Valid() && old(log) <= log
        invariant View() == OnEvents(old(View()), events[..k])
        invariant inflight <= old(inflight) && |inflight| <= old(|inflight|)
      {
        assert events[..k + 1][..k] == events[..k];
        Happen(events[k]);
      }
      assert events[..|events|] == events;
    }

    // One done-callback.
    method Happen(e: Event)
      requires Valid()
      modifies this`inflight, this`releasing, this`held, this`log
      ensures Valid() && old(log) <= log
      ensures View() == OnEvent(old(View()), e)
      ensures inflight <= old(inflight) && |inflight| <= old(|inflight|)
    {
      match e {
        case Discard(task) =>
          if task in inflight {
            inflight, releasing := inflight - {task}, releasing + 1;
            log := log + [Now()];
          }
        case Release =>
          if releasing > 0 {
            releasing, held := releasing - 1, held - 1;
            log := log + [Now()];
          }
      }
    }

    // A permit is free: take it, then create the task.
    method Schedule()
      requires Valid() && fetched != [] && held < limits.concurrency
      modifies this`inflight, this`held, this`fetched, this`started, this`log
      ensures Valid() && old(log) <= log
      ensures View() == Begun(old(View()))
    {
      held := held + 1;
      log := log + [Now()];
      inflight := inflight + {|started|};
      started, fetched := started + [fetched[0]], fetched[1..];
      log := log + [Now()];
    }

    // Waits for a permit, then schedules the oldest fetched message.  When the events given end
    // before a permit is free the loop is still suspended, and then only on a release callback that
    // is already queued: the pool never waits for a running job here.
    method Dispatch(events: seq<Event>) returns (scheduled: bool)
      requires Valid() && fetched != []
      modifies this`inflight, this`releasing, this`held, this`fetched, this`started, this`log
      ensures Valid() && old(log) <= log
      ensures View() == AfterDispatch(limits, old(View()), events)
      ensures scheduled == (|fetched| < old(|fetched|))
      ensures !scheduled ==> held == limits.concurrency && releasing > 0
    {
      if held == limits.concurrency {
        Suspend(events);
      }
      scheduled := held < limits.concurrency;
      if scheduled {
        Schedule();
      }
    }

    // Dispatches everything fetched.
    method DispatchAll(acquires: seq<seq<Event>>) returns (scheduled: bool)
      requires Valid()
      modifies this`inflight, this`releasing, this`held, this`fetched, this`started, this`log
      ensures Valid() && old(log) <= log
      ensures View() == AfterDispatches(limits, old(View()), acquires)
      ensures scheduled == (fetched == [])
      ensures !scheduled ==> held == limits.concurrency && releasing > 0
    {
      var rest := acquires;
      while fetched != []
        invariant Valid() && old(log) <= log
        invariant AfterDispatches(limits, View(), rest) == AfterDispatches(limits, old(View()), acquires)
        decreases |fetched|
      {
        scheduled := Dispatch(First(rest, []));
        if !scheduled {
          return false;
        }
        rest := Rest(rest);
      }
      scheduled := true;
    }

    // Messages returned by a Redis call become the loop's, if there is room for them.
    method Receive(messages: seq<Message>)
      requires Valid() && |inflight| + |fetched| + |messages| <= limits.concurrency
      modifies this`fetched, this`log
      ensures Valid() && old(log) <= log
      ensures View() == old(View()).(fetched := old(fetched) + messages)
    {
      fetched := fetched + messages;
      log := log + [Now()];
    }

    // QueueConsumer.claim_stale: one XPENDING, then one XCLAIM per listed entry.
    method ClaimStale(count: nat, listed: Call<nat>, claims: seq<Call<Option<Message>>>) returns (replied: bool)
      requires Valid() && fetched == [] && |inflight| + count <= limits.concurrency
      modifies this`inflight, this`releasing, this`held, this`fetched, this`log
      ensures Valid() && old(log) <= log
      ensures Claimed(View(), replied) == AfterClaimStale(old(View()), count, listed, claims)
    {
      Suspend(listed.events);
      if listed.reply.None? {
        return false;
      }
      replied := Claim(Min(count, listed.reply.value), claims);
    }

    // The loop over the listed entries.
    method Claim(n: nat, claims: seq<Call<Option<Message>>>) returns (replied: bool)
      requires Valid() && fetched == [] && |inflight| + n <= limits.concurrency
      modifies this`inflight, this`releasing, this`held, this`fetched, this`log
      ensures Valid() && old(log) <= log
      ensures Claimed(View(), replied) == AfterClaims(old(View()), claims, n)
    {
      ghost var first := View();
      for k := 0 to n
        invariant Valid() && old(log) <= log
        invariant |fetched| <= k && |inflight| + n <= limits.concurrency
        invariant Claimed(View(), true) == AfterClaims(first, claims, k)
      {
        replied := ClaimOne(if k < |claims| then claims[k] else NO_CLAIM);
        assert Claimed(View(), replied) == AfterClaims(first, claims, k + 1);
        if !replied {
          ClaimsOver(first, claims, k + 1, n);
          return;
        }
      }
      replied := true;
    }

    method ClaimOne(claim: Call<Option<Message>>) returns (replied: bool)
      requires Valid() && |inflight| + |fetched| < limits.concurrency
      modifies this`inflight, this`releasing, this`held, this`fetched, this`log
      ensures Valid() && old(log) <= log && |inflight| <= old(|inflight|)
      ensures replied == claim.reply.Some? && (replied ==> |fetched| <= old(|fetched|) + 1)
      ensures Claimed(View(), replied) == AfterClaim(Claimed(old(View()), true), claim)
    {
      Suspend(claim.events);
      replied := claim.reply.Some?;
      if replied {
        Receive(Reply(claim));
      } else {
        fetched := [];
        log := log + [Now()];
      }
    }

    // The first half of an iteration.
    method ClaimAndDispatch(r: Round) returns (goesOn: bool)
      requires Valid() && fetched == []
      modifies this
      ensures Valid() && old(log) <= log
      ensures Half(View(), goesOn) == AfterFirstHalf(limits, old(View()), r)
      ensures fetched != [] ==> held == limits.concurrency && releasing > 0
    {
      var capacity := limits.concurrency - |inflight|;
      if capacity <= 0 {
        Suspend(r.idle);
        return false;
      }
      Suspend(r.depth.events);
      if r.depth.reply.None? {
        Suspend(r.backoff);
        return false;
      }
      var replied := ClaimStale(Min(limits.readCount, capacity), r.stale, r.claims);
      if !replied {
        ClaimStaleTakes(OnEvents(old(View()), r.depth.events), Min(limits.readCount, capacity), r.stale, r.claims);
        Suspend(r.backoff);
        return false;
      }
      var scheduled := DispatchAll(r.staleAcquires);
      goesOn := scheduled && limits.concurrency - |inflight| > 0;
    }

    // The second half: read as many new messages as there is room for, and dispatch them.
    method ReadAndDispatch(r: Round)
      requires Valid() && fetched == [] && |inflight| < limits.concurrency
      modifies this
      ensures Valid() && old(log) <= log
      ensures View() == AfterSecondHalf(limits, old(View()), r)
      ensures fetched != [] ==> held == limits.concurrency && releasing > 0
    {
      var capacity := limits.concurrency - |inflight|;
      Suspend(r.unread.events);
      if r.unread.reply.None? {
        Suspend(r.backoff);
        return;
      }
      Receive(UpTo(Min(limits.readCount, capacity), r.unread.reply.value));
      var _ := DispatchAll(r.unreadAcquires);
    }

    // One iteration of the loop.  With messages left in `fetched` it is still suspended in a dispatch.
    method Iterate(r: Round)
      requires Valid() && fetched == []
      modifies this
      ensures Valid() && old(log) <= log
      ensures View() == AfterRound(limits, old(View()), r)
      ensures fetched != [] ==> held == limits.concurrency && releasing > 0
    {
      var goesOn := ClaimAndDispatch(r);
      if goesOn {
        ReadAndDispatch(r);
      }
    }

    // The next iteration, unless the loop is still suspended.
    method GoOn(r: Round)
      requires Valid() && (fetched != [] ==> held == limits.concurrency && releasing > 0)
      modifies this
      ensures Valid() && old(log) <= log
      ensures View() == Next(limits, old(View()), r)
      ensures fetched != [] ==> held == limits.concurrency && releasing > 0
    {
      if fetched == [] {
        Iterate(r);
      }
    }

    // Any run of the loop, for as many iterations as it makes before it is told to stop: in every
    // state it went through, tasks in flight and messages fetched but not dispatched fit the pool;
    // what it started and still holds is exactly what Redis returned, in order; and it is only ever
    // left suspended on a release callback already queued.
    method Run(rounds: seq<Round>) returns (ghost views: seq<State>)
      requires Valid() && fetched == []
      modifies this
      ensures old(log) <= log
      ensures forall i :: 0 <= i < |log| ==> InBounds(limits.concurrency, log[i])
      ensures held == Held(View()) && InBounds(limits.concurrency, Now())
      ensures IsRun(limits, views, rounds) && views[0] == old(View()) && views[|rounds|] == View()
      ensures started + fetched == old(started) + Gains(limits, views, rounds, |rounds|)
      ensures fetched != [] ==> held == limits.concurrency && releasing > 0
    {
      views := Iterations(rounds);
      AllTaken(limits, views, rounds, views[0], View());
    }

    method Iterations(rounds: seq<Round>) returns (ghost views: seq<State>)
      requires Valid() && fetched == []
      modifies this
      ensures Valid() && old(log) <= log
      ensures IsRun(limits, views, rounds) && views[0] == old(View()) && views[|rounds|] == View()
      ensures fetched != [] ==> held == limits.concurrency && releasing > 0
    {
      views := [View()];
      var k := 0;
      while k < |rounds|
        invariant 0 <= k <= |rounds|
        invariant Valid() && old(log) <= log
        invariant IsRun(limits, views, rounds[..k]) && views[0] == old(View()) && views[k] == View()
        invariant fetched != [] ==> held == limits.concurrency && releasing > 0
      {
        GoOn(rounds[k]);
        RunGrows(limits, views, rounds[..k], rounds[k], View());
        assert rounds[..k + 1] == rounds[..k] + [rounds[k]];
        views, k := views + [View()], k + 1;
      }
      assert rounds[..k] == rounds;
    }
  }
}
