/**
 The idle-time lease. An entry may be reclaimed once it has been idle for `minIdle`; if every
 processing reaches its acknowledgement (or dies) sooner than that, no two of them ever overlap on
 one entry, however many workers claim at once.
 */
module LeaseSafety {
  import opened RedisModel
  import opened JobProtocol
  import opened JobSafety

  /** Every live processing whose entry is not yet acknowledged is younger than the lease. */
  ghost predicate LeaseBounded(c: Config, s: System) {
    forall t :: t in s.tasks && s.tasks[t].entry in s.redis.pending ==>
      s.redis.now - s.tasks[t].deliveredAt < c.minIdle
  }

  /** No entry is processed twice at the same time. */
  ghost predicate Exclusive(s: System) {
    forall t, u :: t in s.tasks && u in s.tasks && t != u ==> s.tasks[t].entry != s.tasks[u].entry
  }

  /** The pending list's delivery time is that of the live processing. */
  ghost predicate Stamped(s: System) {
    forall t :: t in s.tasks && s.tasks[t].entry in s.redis.pending ==>
      s.redis.pending[s.tasks[t].entry].deliveredAt == s.tasks[t].deliveredAt
  }

  lemma ReadExclusive(s: System, w: WorkerId, t: TaskId)
    requires Inv(s) && Exclusive(s) && Stamped(s) && t !in s.tasks && s.redis.cursor in s.redis.stream
    ensures Exclusive(StepRead(s, w, t)) && Stamped(StepRead(s, w, t))
  {
    forall u | u in s.tasks ensures s.tasks[u].entry < s.redis.cursor {
      assert TaskOk(s, s.tasks[u]);
    }
  }

  /** A claimable entry has outlived every lease, so no processing of it is alive. */
  lemma ClaimExclusive(c: Config, s: System, w: WorkerId, t: TaskId)
    requires Exclusive(s) && Stamped(s) && LeaseBounded(c, s)
    requires t !in s.tasks && w in s.passes && s.passes[w].todo != []
    ensures Exclusive(StepClaim(c, s, w, t)) && Stamped(StepClaim(c, s, w, t))
  {
    var id := s.passes[w].todo[0].0;
    if Claimable(c, s.redis, id) {
      assert forall u :: u in s.tasks ==> s.tasks[u].entry != id;
    }
  }

  lemma MovedExclusive(s: System, s': System, t: TaskId)
    requires Exclusive(s) && Stamped(s) && Moved(s, s', t)
    ensures Exclusive(s') && Stamped(s')
  {
    assert forall u :: u in s'.tasks ==> u in s.tasks && s'.tasks[u].entry == s.tasks[u].entry
                                         && s'.tasks[u].deliveredAt == s.tasks[u].deliveredAt;
  }

  lemma ExclusiveKept(c: Config, s: System, a: Action, s': System)
    requires Inv(s) && Step(c, s, a, s') && Exclusive(s) && Stamped(s) && LeaseBounded(c, s)
    ensures Exclusive(s') && Stamped(s')
  {
    if Moves(a) {
      MoveKept(c, s, a, s');
      MovedExclusive(s, s', a.task);
    } else if a.Read? {
      ReadExclusive(s, a.worker, a.task);
    } else if a.Claim? {
      ClaimExclusive(c, s, a.worker, a.task);
    } else {
      OthersExclusive(c, s, a, s');
    }
  }

  lemma OthersExclusive(c: Config, s: System, a: Action, s': System)
    requires Step(c, s, a, s') && !Moves(a) && !a.Read? && !a.Claim? && Exclusive(s) && Stamped(s)
    ensures Exclusive(s') && Stamped(s')
  {
    assert forall u :: u in s'.tasks ==> u in s.tasks && s'.tasks[u].entry == s.tasks[u].entry
                                         && s'.tasks[u].deliveredAt == s.tasks[u].deliveredAt;
    assert forall id :: id in s'.redis.pending ==> id in s.redis.pending && s'.redis.pending[id] == s.redis.pending[id];
  }

  ghost predicate LeaseRun(c: Config, states: seq<System>, actions: seq<Action>) {
    IsRun(c, states, actions) && forall i :: 0 <= i < |states| ==> LeaseBounded(c, states[i])
  }

  /** Lease safety over whole runs. */
  lemma {:induction false} NoDuplicateProcessing(c: Config, states: seq<System>, actions: seq<Action>, i: nat)
    requires LeaseRun(c, states, actions) && i < |states|
    ensures Exclusive(states[i]) && Stamped(states[i])
  {
    if i > 0 {
      NoDuplicateProcessing(c, states, actions, i - 1);
      RunInv(c, states, actions, i - 1);
      assert StepAt(c, states, actions, i - 1);
      ExclusiveKept(c, states[i - 1], actions[i - 1], states[i]);
    }
  }
}
