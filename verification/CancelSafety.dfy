/**
 Cancellation before pickup. A DELETE that commits before a worker looks at the cancel flag, within
 the flag's 120 seconds, keeps that delivery from ever running the job.
 */
module CancelSafety {
  import opened RedisModel
  import opened JobProtocol
  import opened RecordLifecycle

  // ---------------------------------------------------------------- the flag

  /** The job's cancel flag is up and lasts until `until` at least. */
  ghost predicate FlaggedUntil(r: Redis, job: JobId, until: Millis) {
    job in r.cancels && r.cancels[job] >= until && r.now + CANCEL_TTL_MS >= until
  }

  lemma FlagStep(c: Config, s: System, a: Action, s': System, job: JobId, until: Millis)
    requires Step(c, s, a, s') && FlaggedUntil(s.redis, job, until)
    ensures FlaggedUntil(s'.redis, job, until)
  {
  }

  /** From the DELETE transaction on, the flag is readable for CANCEL_TTL_MS. */
  lemma {:induction false} FlagLives(c: Config, states: seq<System>, actions: seq<Action>, a: nat, k: nat)
    requires IsRun(c, states, actions) && a < k < |states| && actions[a].DeleteCommit?
    requires actions[a].req in states[a].deletes
    ensures FlaggedUntil(states[k].redis, states[a].deletes[actions[a].req].job, states[a].redis.now + CANCEL_TTL_MS)
    decreases k
  {
    var job, until := states[a].deletes[actions[a].req].job, states[a].redis.now + CANCEL_TTL_MS;
    assert StepAt(c, states, actions, k - 1);
    if a + 1 < k {
      FlagLives(c, states, actions, a, k - 1);
      FlagStep(c, states[k - 1], actions[k - 1], states[k], job, until);
    }
  }

  lemma FlagChange(c: Config, s: System, a: Action, s': System, job: JobId)
    requires Step(c, s, a, s') && job in s'.redis.cancels
    ensures || (job in s.redis.cancels && s'.redis.cancels[job] == s.redis.cancels[job])
            || (Deletes(s, a, job) && s'.redis.cancels[job] == s.redis.now + CANCEL_TTL_MS)
  {
  }

  /** A flag, expired or not, goes back to a DELETE of the job. */
  lemma {:induction false} FlagOrigin(c: Config, states: seq<System>, actions: seq<Action>, i: nat, job: JobId)
    returns (a: nat)
    requires IsRun(c, states, actions) && i < |states| && job in states[i].redis.cancels
    ensures a < i && Deletes(states[a], actions[a], job)
    ensures states[i].redis.cancels[job] == states[a].redis.now + CANCEL_TTL_MS
  {
    assert i > 0;
    assert StepAt(c, states, actions, i - 1);
    FlagChange(c, states[i - 1], actions[i - 1], states[i], job);
    if job in states[i - 1].redis.cancels && states[i].redis.cancels[job] == states[i - 1].redis.cancels[job] {
      a := FlagOrigin(c, states, actions, i - 1, job);
    } else {
      a := i - 1;
    }
  }

  /** In every run a job counts as cancelled if and only if a DELETE of it committed at most 120 s ago. */
  lemma FlagExact(c: Config, states: seq<System>, actions: seq<Action>, i: nat, job: JobId)
    requires IsRun(c, states, actions) && i < |states|
    ensures Cancelled(states[i].redis, job) <==>
            exists a :: 0 <= a < i && Deletes(states[a], actions[a], job)
                        && states[i].redis.now <= states[a].redis.now + 120_000
  {
    if Cancelled(states[i].redis, job) {
      var a := FlagOrigin(c, states, actions, i, job);
      assert Deletes(states[a], actions[a], job);
    }
    if a :| 0 <= a < i && Deletes(states[a], actions[a], job) && states[i].redis.now <= states[a].redis.now + 120_000 {
      FlagLives(c, states, actions, a, i);
    }
  }

  // ---------------------------------------------------------------- the task

  /** On the cancelled branch of `_process`, which ends in the acknowledgement and runs nothing. */
  predicate OnCancelledBranch(pc: Pc) {
    Finalising(pc) && pc.cause == CancelledAtPickup && pc.result == CANCELLED_RESULT
  }

  lemma BranchStep(c: Config, s: System, a: Action, s': System, t: TaskId)
    requires Step(c, s, a, s') && t in s.tasks && t in s'.tasks && OnCancelledBranch(s.tasks[t].pc)
    ensures OnCancelledBranch(s'.tasks[t].pc) && s'.tasks[t].payload == s.tasks[t].payload
    ensures s.tasks[t].pc.Storing? && Stored(s'.tasks[t].pc) ==> StoredKilled(s'.redis, s.tasks[t].payload.jobId)
    ensures !s.tasks[t].pc.Storing? ==> !s'.tasks[t].pc.Storing?
  {
  }

  predicate StoredKilled(r: Redis, job: JobId) {
    job in r.results && r.results[job].value.status == KILLED
  }

  ghost predicate LivesThrough(states: seq<System>, t: TaskId, i: nat, k: nat)
    requires k < |states|
  {
    forall m {:trigger states[m]} :: i <= m <= k ==> t in states[m].tasks
  }

  /** Some state after `b` and up to `k` holds the KILLED result. */
  ghost predicate KilledBetween(states: seq<System>, job: JobId, b: nat, k: nat)
    requires k < |states|
  {
    exists m :: b < m <= k && StoredKilled(states[m].redis, job)
  }

  lemma {:induction false} BranchRun(
      c: Config, states: seq<System>, actions: seq<Action>, t: TaskId, b: nat, k: nat)
    requires IsRun(c, states, actions) && b <= k < |states| && LivesThrough(states, t, b, k)
    requires states[b].tasks[t].pc == Storing(CancelledAtPickup, CANCELLED_RESULT)
    ensures OnCancelledBranch(states[k].tasks[t].pc) && states[k].tasks[t].payload == states[b].tasks[t].payload
    ensures Stored(states[k].tasks[t].pc) ==> KilledBetween(states, states[b].tasks[t].payload.jobId, b, k)
    decreases k
  {
    if b < k {
      BranchRun(c, states, actions, t, b, k - 1);
      assert StepAt(c, states, actions, k - 1);
      assert t in states[k - 1].tasks && t in states[k].tasks;
      BranchStep(c, states[k - 1], actions[k - 1], states[k], t);
      var job := states[b].tasks[t].payload.jobId;
      if Stored(states[k - 1].tasks[t].pc) {
        var m :| b < m <= k - 1 && StoredKilled(states[m].redis, job);
      }
    }
  }

  /** If a DELETE of the job commits at step `a`, and the worker's EXISTS of task `t` comes later (at
      step `b`) and within 120 s, then for as long as the task lives it is on the cancelled branch:
      it never runs the job, and by the time it may acknowledge it has stored KILLED. */
  lemma CancelBeforePickup(
      c: Config, states: seq<System>, actions: seq<Action>, a: nat, b: nat, t: TaskId, k: nat)
    requires IsRun(c, states, actions) && a < b < k < |states|
    requires actions[a].DeleteCommit? && actions[a].req in states[a].deletes
    requires actions[b] == Check(t) && t in states[b].tasks
    requires states[b].tasks[t].payload.jobId == states[a].deletes[actions[a].req].job
    requires states[b].redis.now <= states[a].redis.now + CANCEL_TTL_MS
    requires LivesThrough(states, t, b, k)
    ensures var job := states[b].tasks[t].payload.jobId;
            && OnCancelledBranch(states[k].tasks[t].pc)
            && (states[k].tasks[t].pc.Acking? || Acked(states[k].tasks[t].pc) ==> KilledBetween(states, job, b + 1, k))
  {
    FlagLives(c, states, actions, a, b);
    assert StepAt(c, states, actions, b);
    BranchRun(c, states, actions, t, b + 1, k);
  }
}
