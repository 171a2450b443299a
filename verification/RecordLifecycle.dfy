/**
 The life of a job's record. In every run a job is PENDING only at the start, and a terminal record is
 rewritten in three ways exactly. An entry that is never processed twice at once, whose task meets no
 exception after its XACK and whose job no DELETE hits after the record was finalised is settled once
 it is acknowledged: its record agrees with its result and neither changes again.
 */
module RecordLifecycle {
  import opened RedisModel
  import opened JobProtocol
  import opened JobSafety

  // ---------------------------------------------------------------- PENDING comes first

  /** Records and open DELETE handlers belong to submitted jobs. */
  ghost predicate KnownJobs(s: System) {
    && s.redis.records.Keys <= JobsOf(s.hist.enqueued)
    && forall req :: req in s.deletes ==> s.deletes[req].job in s.redis.records
  }

  function JobsOf(enqueued: map<EntryId, Payload>): set<JobId> {
    set id | id in enqueued :: enqueued[id].jobId
  }

  lemma JobsOfExtended(enqueued: map<EntryId, Payload>, id: EntryId, payload: Payload)
    requires id !in enqueued
    ensures JobsOf(enqueued[id := payload]) == JobsOf(enqueued) + {payload.jobId}
  {
    var after := enqueued[id := payload];
    assert after[id].jobId == payload.jobId;
    forall job | job in JobsOf(enqueued) ensures job in JobsOf(after) {
      var i :| i in enqueued && enqueued[i].jobId == job;
      assert i in after && after[i].jobId == job;
    }
  }

  /** The job's record has been written again since it was created. */
  ghost predicate LeftPending(s: System, job: JobId) {
    job in s.redis.records && s.redis.records[job].value.status != PENDING
  }

  /** What a task step can do to the records: nothing, or give its own job another status. */
  lemma MoveRecords(c: Config, s: System, a: Action, task: Task, s': System)
    requires Moves(a) && a.task in s.tasks && s.tasks[a.task] == task && TaskStep(c, s, a, task, s')
    requires Finalising(task.pc) ==> Terminal(task.pc.result.status)
    ensures s'.hist.enqueued == s.hist.enqueued && s'.deletes == s.deletes
    ensures s'.redis.records == s.redis.records
            || (LeftPending(s', task.payload.jobId)
                && s'.redis.records == s.redis.records[task.payload.jobId := s'.redis.records[task.payload.jobId]])
  {
  }

  lemma OwnRecords(c: Config, s: System, a: Action, s': System, job: JobId)
    requires KnownJobs(s) && Moves(a) && a.task in s.tasks && TaskOk(s, s.tasks[a.task])
    requires TaskStep(c, s, a, s.tasks[a.task], s')
    ensures KnownJobs(s')
    ensures LeftPending(s, job) ==> LeftPending(s', job)
  {
    MoveRecords(c, s, a, s.tasks[a.task], s');
    assert s.tasks[a.task].payload.jobId in JobsOf(s.hist.enqueued);
  }

  lemma OtherRecords(c: Config, s: System, a: Action, s': System, job: JobId)
    requires StreamOk(s) && KnownJobs(s) && Step(c, s, a, s') && !Moves(a)
    ensures KnownJobs(s')
    ensures LeftPending(s, job) ==> LeftPending(s', job)
  {
    if a.Submit? || a.Foreign? {
      JobsOfExtended(s.hist.enqueued, s.redis.nextId, s'.hist.enqueued[s.redis.nextId]);
    } else {
      assert s'.hist.enqueued == s.hist.enqueued;
    }
  }

  lemma PendingStep(c: Config, s: System, a: Action, s': System, job: JobId)
    requires StreamOk(s) && TasksOk(s) && KnownJobs(s) && Step(c, s, a, s')
    ensures KnownJobs(s') && (LeftPending(s, job) ==> LeftPending(s', job))
  {
    if !Moves(a) {
      OtherRecords(c, s, a, s', job);
      return;
    }
    assert TaskOk(s, s.tasks[a.task]);
    OwnRecords(c, s, a, s', job);
  }

  lemma {:induction false} RunKnownJobs(c: Config, states: seq<System>, actions: seq<Action>, i: nat)
    requires IsRun(c, states, actions) && i < |states|
    ensures KnownJobs(states[i])
  {
    if i > 0 {
      RunKnownJobs(c, states, actions, i - 1);
      RunInv(c, states, actions, i - 1);
      assert StepAt(c, states, actions, i - 1);
      PendingStep(c, states[i - 1], actions[i - 1], states[i], "");
    }
  }

  /** A job's first record is PENDING, written together with its entry, which nobody has read yet. */
  lemma FirstIsPending(c: Config, states: seq<System>, actions: seq<Action>, i: nat)
    requires IsRun(c, states, actions) && i < |actions| && actions[i].Submit?
    ensures var job, r, r' := actions[i].job, states[i].redis, states[i + 1].redis;
            && job !in r.records && GetRecord(r', job) == Some(Record(PENDING, None))
            && r'.records[job].expiresAt == Some(r.now + 7_200_000)
            && Undelivered(r') == Undelivered(r) + {r.nextId} && r'.stream[r.nextId].jobId == job
  {
    RunKnownJobs(c, states, actions, i);
    RunInv(c, states, actions, i);
    assert StepAt(c, states, actions, i);
  }

  /** In every run, a job that has left PENDING never shows PENDING again. */
  lemma {:induction false} PendingOnlyFirst(
      c: Config, states: seq<System>, actions: seq<Action>, i: nat, k: nat, job: JobId)
    requires IsRun(c, states, actions) && i <= k < |states| && LeftPending(states[i], job)
    ensures LeftPending(states[k], job)
    decreases k
  {
    if i < k {
      PendingOnlyFirst(c, states, actions, i, k - 1, job);
      RunInv(c, states, actions, k - 1);
      RunKnownJobs(c, states, actions, k - 1);
      assert StepAt(c, states, actions, k - 1);
      PendingStep(c, states[k - 1], actions[k - 1], states[k], job);
    }
  }

  /** No step changes the expiry of a record that is still there: every rewrite keeps it. */
  lemma ExpiryKept(c: Config, s: System, a: Action, s': System, job: JobId)
    requires KnownJobs(s) && Step(c, s, a, s') && GetRecord(s.redis, job).Some?
    ensures job in s'.redis.records && s'.redis.records[job].expiresAt == s.redis.records[job].expiresAt
  {
    if a.Submit? {
      assert job in JobsOf(s.hist.enqueued);
    }
  }

  /** A record expires two hours after the submission of its job, whatever is written to it meanwhile. */
  lemma {:induction false} RecordLifetime(
      c: Config, states: seq<System>, actions: seq<Action>, i: nat, k: nat, job: JobId)
    requires IsRun(c, states, actions) && i < k < |states| && actions[i].Submit? && actions[i].job == job
    requires forall m :: i < m < k ==> GetRecord(states[m].redis, job).Some?
    ensures job in states[k].redis.records
    ensures states[k].redis.records[job].expiresAt == Some(states[i].redis.now + 7_200_000)
    decreases k
  {
    if i + 1 == k {
      FirstIsPending(c, states, actions, i);
    } else {
      RecordLifetime(c, states, actions, i, k - 1, job);
      RunKnownJobs(c, states, actions, k - 1);
      assert StepAt(c, states, actions, k - 1);
      ExpiryKept(c, states[k - 1], actions[k - 1], states[k], job);
    }
  }

  lemma Unfinished(status: Status)
    ensures !Terminal(status) <==> status in {PENDING, RUNNING}
  {
    match status
    case PENDING =>
    case RUNNING =>
    case COMPLETED =>
    case FAILED =>
    case TIMEOUT =>
    case KILLED =>
  }

  /** A DELETE handler goes on to its transaction if and only if it reads a record that is not terminal. */
  lemma DeleteAccepted(c: Config, s: System, req: nat, job: JobId)
    requires req !in s.deletes
    ensures (exists s' :: Step(c, s, DeleteRead(req, job), s')) <==>
            GetRecord(s.redis, job).Some? && GetRecord(s.redis, job).value.status in {PENDING, RUNNING}
  {
    if GetRecord(s.redis, job).Some? {
      Unfinished(GetRecord(s.redis, job).value.status);
    }
    if GetRecord(s.redis, job).Some? && GetRecord(s.redis, job).value.status in {PENDING, RUNNING} {
      var s' := s.(deletes := s.deletes[req := OpenDelete(job, GetRecord(s.redis, job).value)]);
      assert Step(c, s, DeleteRead(req, job), s');
    }
  }

  /** The DELETE transaction raises the flag for 120 s and marks the record it read KILLED. */
  lemma DeleteMarksKilled(c: Config, s: System, req: nat, s': System)
    requires Step(c, s, DeleteCommit(req), s')
    ensures var job := s.deletes[req].job;
            && GetRecord(s'.redis, job) == Some(s.deletes[req].snapshot.(status := KILLED))
            && job in s'.redis.cancels && s'.redis.cancels[job] == s.redis.now + 120_000
    ensures s'.redis.stream == s.redis.stream && s'.redis.pending == s.redis.pending && s'.redis.results == s.redis.results
  {
  }

  // ---------------------------------------------------------------- who rewrites a terminal record

  /** `a` writes something else over `record`: a second delivery marks the job RUNNING, a finalisation
      or a DELETE writes from what it read before. */
  predicate Rewrites(s: System, a: Action, job: JobId, record: Record) {
    || (a.SetRunning? && a.task in s.tasks && s.tasks[a.task].pc.Marking? && WritesFor(s.tasks[a.task], job))
    || (a.SetTerminal? && a.task in s.tasks && s.tasks[a.task].pc.Writing? && WritesFor(s.tasks[a.task], job)
        && record != Record(s.tasks[a.task].pc.result.status, Some(s.tasks[a.task].pc.result)))
    || (a.DeleteCommit? && a.req in s.deletes && s.deletes[a.req].job == job
        && record != s.deletes[a.req].snapshot.(status := KILLED))
  }

  /** The task is about to write the record of `job`, having found one when it read. */
  predicate WritesFor(task: Task, job: JobId) {
    task.payload.jobId == job && (task.pc.Marking? || task.pc.Writing?) && task.pc.snapshot.Some?
  }

  /** A terminal record that outlives a step is changed by it exactly when the step rewrites it. */
  lemma TerminalRewriteStep(c: Config, s: System, a: Action, s': System, job: JobId)
    requires KnownJobs(s) && Step(c, s, a, s')
    requires GetRecord(s.redis, job).Some? && Terminal(GetRecord(s.redis, job).value.status)
    requires GetRecord(s'.redis, job).Some?
    ensures GetRecord(s'.redis, job) != GetRecord(s.redis, job) <==> Rewrites(s, a, job, GetRecord(s.redis, job).value)
  {
    if a.Submit? {
      assert job in JobsOf(s.hist.enqueued);
    }
  }

  lemma TerminalRewrite(c: Config, states: seq<System>, actions: seq<Action>, i: nat, job: JobId)
    requires IsRun(c, states, actions) && i < |actions|
    requires GetRecord(states[i].redis, job).Some? && Terminal(GetRecord(states[i].redis, job).value.status)
    requires GetRecord(states[i + 1].redis, job).Some?
    ensures GetRecord(states[i + 1].redis, job) != GetRecord(states[i].redis, job) <==>
            Rewrites(states[i], actions[i], job, GetRecord(states[i].redis, job).value)
  {
    RunKnownJobs(c, states, actions, i);
    assert StepAt(c, states, actions, i);
    TerminalRewriteStep(c, states[i], actions[i], states[i + 1], job);
  }

  ghost predicate RecordIs(s: System, job: JobId, record: Record) {
    GetRecord(s.redis, job) == Some(record)
  }

  /** While it does not expire, a terminal record stays what it is exactly as long as nothing rewrites it. */
  lemma {:induction false} TerminalStays(
      c: Config, states: seq<System>, actions: seq<Action>, i: nat, k: nat, job: JobId, record: Record)
    requires IsRun(c, states, actions) && i <= k < |states|
    requires RecordIs(states[i], job, record) && Terminal(record.status)
    requires forall m :: i <= m <= k ==> GetRecord(states[m].redis, job).Some?
    ensures (forall m :: i <= m <= k ==> RecordIs(states[m], job, record)) <==>
            (forall m :: i <= m < k ==> !Rewrites(states[m], actions[m], job, record))
    decreases k
  {
    if i < k {
      TerminalStays(c, states, actions, i, k - 1, job, record);
      if RecordIs(states[k - 1], job, record) {
        TerminalRewrite(c, states, actions, k - 1, job);
      }
    }
  }

  // ---------------------------------------------------------------- quiescence

  /** At most one live task works on the entry. */
  ghost predicate Alone(s: System, id: EntryId) {
    forall t, u :: t in s.tasks && u in s.tasks && s.tasks[t].entry == id && s.tasks[u].entry == id ==> t == u
  }

  /** An exception that reaches a task on the entry after its XACK. */
  predicate RaisesAfterAck(s: System, a: Action, id: EntryId) {
    a.Raise? && a.task in s.tasks && s.tasks[a.task].entry == id && Acked(s.tasks[a.task].pc)
  }

  predicate Deletes(s: System, a: Action, job: JobId) {
    a.DeleteCommit? && a.req in s.deletes && s.deletes[a.req].job == job
  }

  /** Nothing will overwrite what a DELETE writes now: the record has been finalised, or the task will
      not write it because it found none. */
  ghost predicate RecordDone(s: System, id: EntryId) {
    Departed(s, id) || exists t :: t in s.tasks && s.tasks[t].entry == id && RecordPassed(s.tasks[t].pc)
  }

  predicate RecordPassed(pc: Pc) {
    Published(pc) || (pc.Writing? && pc.snapshot.None?)
  }

  ghost predicate LateDelete(s: System, a: Action, id: EntryId) {
    id in s.hist.enqueued && Deletes(s, a, s.hist.enqueued[id].jobId) && RecordDone(s, id)
  }

  /** In this run the entry is never processed twice at once, no exception follows its XACK, and no
      DELETE of its job commits after the record has been finalised. Other entries are free. */
  ghost predicate OrderlyRun(c: Config, states: seq<System>, actions: seq<Action>, id: EntryId) {
    && IsRun(c, states, actions)
    && (forall i :: 0 <= i < |states| ==> Alone(states[i], id))
    && (forall i :: 0 <= i < |actions| ==> !RaisesAfterAck(states[i], actions[i], id) && !LateDelete(states[i], actions[i], id))
  }

  /** The stored result is terminal and the record, while it lives, says the same. */
  ghost predicate Settled(r: Redis, job: JobId) {
    && job in r.results && Terminal(r.results[job].value.status)
    && Matches(r, job, r.results[job].value)
  }

  ghost predicate Matches(r: Redis, job: JobId, result: Result) {
    GetRecord(r, job).Some? ==> GetRecord(r, job).value == Record(result.status, Some(result))
  }

  /** What a task has written so far is what Redis holds. */
  ghost predicate Undisturbed(r: Redis, task: Task) {
    var job := task.payload.jobId;
    && (!Acked(task.pc) ==> task.entry in r.pending)
    && (job != "" && Stored(task.pc) ==> job in r.results && r.results[job].value == task.pc.result)
    && (job != "" && task.pc.Writing? && task.pc.snapshot.None? ==> GetRecord(r, job).None?)
    && (job != "" && Published(task.pc) ==> Matches(r, job, task.pc.result))
  }

  ghost predicate Unattended(s: System, id: EntryId) {
    Departed(s, id) && forall t :: t in s.tasks ==> s.tasks[t].entry != id
  }

  /** The entry, submitted by the API, is in order: its task's writes stand, and without a task it is settled. */
  ghost predicate Orderly(s: System, id: EntryId, job: JobId) {
    && (forall t :: t in s.tasks && s.tasks[t].entry == id ==> Undisturbed(s.redis, s.tasks[t]))
    && (Unattended(s, id) ==> Settled(s.redis, job))
  }

  predicate Carries(s: System, id: EntryId, job: JobId) {
    job != "" && id in s.hist.enqueued && s.hist.enqueued[id].jobId == job
  }

  /** The keys of `job` are untouched and the clock has not gone back. */
  predicate SameKeys(r: Redis, r': Redis, job: JobId) {
    && r.now <= r'.now
    && (job in r.records <==> job in r'.records) && (job in r.records ==> r'.records[job] == r.records[job])
    && (job in r.results <==> job in r'.results) && (job in r.results ==> r'.results[job] == r.results[job])
  }

  lemma SameKeysKeep(r: Redis, r': Redis, job: JobId, result: Result)
    requires SameKeys(r, r', job)
    ensures GetRecord(r, job).None? ==> GetRecord(r', job).None?
    ensures Matches(r, job, result) ==> Matches(r', job, result)
    ensures Settled(r, job) ==> Settled(r', job)
  {
  }

  /** A step of task `t` leaves the keys of every other job alone. */
  lemma MoveSameKeys(c: Config, s: System, a: Action, task: Task, s': System, job: JobId)
    requires Moves(a) && a.task in s.tasks && s.tasks[a.task] == task && TaskStep(c, s, a, task, s')
    requires job != task.payload.jobId
    ensures SameKeys(s.redis, s'.redis, job)
  {
  }

  /** The stepping task keeps its own account. */
  lemma MoveUndisturbed(c: Config, s: System, a: Action, task: Task, s': System)
    requires Moves(a) && a.task in s.tasks && s.tasks[a.task] == task && TaskStep(c, s, a, task, s')
    requires Undisturbed(s.redis, task) && !RaisesAfterAck(s, a, task.entry)
    ensures a.task in s'.tasks && Undisturbed(s'.redis, s'.tasks[a.task])
  {
    if Silent(a) {
      SilentUndisturbed(c, s, a, task, s');
    } else {
      WriterUndisturbed(c, s, a, task, s');
    }
  }

  lemma SilentUndisturbed(c: Config, s: System, a: Action, task: Task, s': System)
    requires Silent(a) && a.task in s.tasks && s.tasks[a.task] == task && TaskStep(c, s, a, task, s')
    requires Undisturbed(s.redis, task) && !RaisesAfterAck(s, a, task.entry)
    ensures a.task in s'.tasks && Undisturbed(s'.redis, s'.tasks[a.task])
  {
  }

  lemma WriterUndisturbed(c: Config, s: System, a: Action, task: Task, s': System)
    requires WritesKeys(a) && a.task in s.tasks && s.tasks[a.task] == task && TaskStep(c, s, a, task, s')
    requires Undisturbed(s.redis, task)
    ensures a.task in s'.tasks && Undisturbed(s'.redis, s'.tasks[a.task])
  {
  }

  /** Tasks on different entries serve different jobs. */
  lemma DifferentJobs(s: System, id: EntryId, job: JobId, t: TaskId)
    requires TasksOk(s) && DistinctJobs(s) && t in s.tasks && s.tasks[t].entry != id && Carries(s, id, job)
    ensures s.tasks[t].payload.jobId != job
  {
    assert TaskOk(s, s.tasks[t]);
  }

  lemma OtherUndisturbed(r: Redis, r': Redis, task: Task)
    requires Undisturbed(r, task) && SameKeys(r, r', task.payload.jobId)
    requires task.entry in r.pending ==> task.entry in r'.pending
    ensures Undisturbed(r', task)
  {
  }

  /** A step that leaves the job's keys, the group and the tasks on the entry alone. */
  lemma UntouchedOrderly(s: System, s': System, id: EntryId, job: JobId)
    requires TasksOk(s) && Carries(s, id, job) && Orderly(s, id, job) && SameKeys(s.redis, s'.redis, job)
    requires forall t :: t in s'.tasks && s'.tasks[t].entry == id ==> t in s.tasks && s'.tasks[t] == s.tasks[t]
    requires forall t :: t in s.tasks && s.tasks[t].entry == id ==> t in s'.tasks && s'.tasks[t] == s.tasks[t]
    requires Departed(s', id) <==> Departed(s, id)
    requires id in s.redis.pending <==> id in s'.redis.pending
    ensures Orderly(s', id, job)
  {
    forall t | t in s'.tasks && s'.tasks[t].entry == id ensures Undisturbed(s'.redis, s'.tasks[t]) {
      assert TaskOk(s, s.tasks[t]);
      OtherUndisturbed(s.redis, s'.redis, s.tasks[t]);
    }
    if Unattended(s', id) {
      assert Unattended(s, id);
      SameKeysKeep(s.redis, s'.redis, job, s.redis.results[job].value);
    }
  }

  /** A step of a task on another entry. */
  lemma OtherMoveOrderly(c: Config, s: System, a: Action, s': System, id: EntryId, job: JobId)
    requires TasksOk(s) && DistinctJobs(s) && Carries(s, id, job) && Orderly(s, id, job)
    requires Moves(a) && a.task in s.tasks && TaskStep(c, s, a, s.tasks[a.task], s') && Moved(s, s', a.task)
    requires s.tasks[a.task].entry != id
    ensures Orderly(s', id, job)
  {
    DifferentJobs(s, id, job, a.task);
    MoveSameKeys(c, s, a, s.tasks[a.task], s', job);
    UntouchedOrderly(s, s', id, job);
  }

  /** A step of the task on the entry. */
  lemma OwnMoveOrderly(c: Config, s: System, a: Action, s': System, id: EntryId, job: JobId)
    requires Orderly(s, id, job) && Alone(s, id) && !RaisesAfterAck(s, a, id)
    requires Moves(a) && a.task in s.tasks && TaskStep(c, s, a, s.tasks[a.task], s') && Moved(s, s', a.task)
    requires s.tasks[a.task].entry == id
    ensures Orderly(s', id, job)
  {
    MoveUndisturbed(c, s, a, s.tasks[a.task], s');
    forall t | t in s'.tasks && s'.tasks[t].entry == id ensures t == a.task {
      assert t in s.tasks && s.tasks[t].entry == id;
    }
    assert s'.tasks[a.task].entry == id;
  }

  /** A DELETE before the record is finalised does no harm: the task will overwrite it. */
  lemma EarlyDeleteOrderly(s: System, req: nat, s': System, id: EntryId, job: JobId)
    requires Orderly(s, id, job) && !RecordDone(s, id) && req in s.deletes
    requires s' == s.(redis := CommitDelete(s.redis, s.deletes[req].job, s.deletes[req].snapshot), deletes := s.deletes - {req})
    ensures Orderly(s', id, job)
  {
  }

  /** Steps outside the tasks, other than a DELETE of the job, leave its keys alone. */
  lemma OtherSameKeys(c: Config, s: System, a: Action, s': System, id: EntryId, job: JobId)
    requires Step(c, s, a, s') && !Moves(a) && Carries(s, id, job) && !Deletes(s, a, job)
    ensures SameKeys(s.redis, s'.redis, job)
  {
  }

  /** Steps outside the tasks that neither deliver nor acknowledge the entry, nor end its task. */
  predicate Passing(s: System, a: Action, id: EntryId) {
    || !(a.Read? || a.Claim? || a.Ack? || a.Del? || a.Return? || a.Abandon?)
    || ((a.Ack? || a.Del? || a.Return? || a.Abandon?) && a.task in s.tasks && s.tasks[a.task].entry != id)
  }

  lemma PassingOrderly(c: Config, s: System, a: Action, s': System, id: EntryId, job: JobId)
    requires StreamOk(s) && TasksOk(s) && Carries(s, id, job) && Orderly(s, id, job)
    requires Step(c, s, a, s') && !Moves(a) && Passing(s, a, id) && SameKeys(s.redis, s'.redis, job)
    ensures Orderly(s', id, job)
  {
    PassingLeaves(c, s, a, s', id);
    UntouchedOrderly(s, s', id, job);
  }

  lemma PassingLeaves(c: Config, s: System, a: Action, s': System, id: EntryId)
    requires Step(c, s, a, s') && !Moves(a) && Passing(s, a, id)
    ensures forall t :: t in s'.tasks && s'.tasks[t].entry == id ==> t in s.tasks && s'.tasks[t] == s.tasks[t]
    ensures forall t :: t in s.tasks && s.tasks[t].entry == id ==> t in s'.tasks && s'.tasks[t] == s.tasks[t]
    ensures s'.redis.cursor == s.redis.cursor && (id in s.redis.pending <==> id in s'.redis.pending)
  {
  }

  /** A delivery: the new task has written nothing yet, and the rest is as before. */
  lemma DeliveryOrderly(s: System, s': System, t: TaskId, id: EntryId, job: JobId)
    requires Orderly(s, id, job) && t !in s.tasks && t in s'.tasks && s'.tasks == s.tasks[t := s'.tasks[t]]
    requires s'.redis == s.redis.(cursor := s'.redis.cursor, pending := s'.redis.pending)
    requires s'.tasks[t].pc.Fetched? && s'.tasks[t].entry in s'.redis.pending
    requires forall e :: e in s.redis.pending ==> e in s'.redis.pending
    requires Departed(s', id) ==> Departed(s, id)
    ensures Orderly(s', id, job)
  {
    forall u | u in s'.tasks && s'.tasks[u].entry == id ensures Undisturbed(s'.redis, s'.tasks[u]) {
      if u != t {
        OtherUndisturbed(s.redis, s'.redis, s.tasks[u]);
      }
    }
    if Unattended(s', id) {
      forall u | u in s.tasks ensures s.tasks[u].entry != id {
        assert s'.tasks[u] == s.tasks[u];
      }
    }
  }

  lemma ReadOrderly(s: System, w: WorkerId, t: TaskId, id: EntryId, job: JobId)
    requires Orderly(s, id, job) && t !in s.tasks && s.redis.cursor in s.redis.stream
    ensures Orderly(StepRead(s, w, t), id, job)
  {
    DeliveryOrderly(s, StepRead(s, w, t), t, id, job);
  }

  lemma ClaimOrderly(c: Config, s: System, w: WorkerId, t: TaskId, id: EntryId, job: JobId)
    requires Orderly(s, id, job) && t !in s.tasks && w in s.passes && s.passes[w].todo != []
    ensures Orderly(StepClaim(c, s, w, t), id, job)
  {
    if Claimable(c, s.redis, s.passes[w].todo[0].0) {
      DeliveryOrderly(s, StepClaim(c, s, w, t), t, id, job);
    }
  }

  lemma AckOrderly(s: System, t: TaskId, id: EntryId, job: JobId)
    requires Orderly(s, id, job) && Alone(s, id) && t in s.tasks && s.tasks[t].pc.Acking? && s.tasks[t].entry == id
    ensures Orderly(StepAck(s, t), id, job)
  {
    var s' := StepAck(s, t);
    assert Undisturbed(s'.redis, s'.tasks[t]);
    assert s'.tasks[t].entry == id;
  }

  lemma DelOrderly(s: System, t: TaskId, id: EntryId, job: JobId)
    requires Orderly(s, id, job) && Alone(s, id) && t in s.tasks && s.tasks[t].pc.Deleting? && s.tasks[t].entry == id
    ensures Orderly(StepDel(s, t), id, job)
  {
    var s' := StepDel(s, t);
    assert Undisturbed(s'.redis, s'.tasks[t]);
    assert s'.tasks[t].entry == id;
  }

  /** The entry becomes unattended only when its task ends, and then that task has settled it. */
  lemma DropOrderly(s: System, t: TaskId, id: EntryId, job: JobId)
    requires TasksOk(s) && Carries(s, id, job) && Orderly(s, id, job) && t in s.tasks && s.tasks[t].entry == id
    ensures Orderly(Drop(s, t), id, job)
  {
    assert TaskOk(s, s.tasks[t]);
    assert Undisturbed(s.redis, s.tasks[t]);
  }

  /** Steps that deliver, or that acknowledge, delete or end the entry's task. */
  lemma AttendedOrderly(c: Config, s: System, a: Action, s': System, id: EntryId, job: JobId)
    requires TasksOk(s) && Carries(s, id, job) && Orderly(s, id, job) && Alone(s, id)
    requires Step(c, s, a, s') && !Moves(a) && !Passing(s, a, id)
    ensures Orderly(s', id, job)
  {
    if a.Read? {
      ReadOrderly(s, a.worker, a.task, id, job);
    } else if a.Claim? {
      ClaimOrderly(c, s, a.worker, a.task, id, job);
    } else if a.Ack? {
      AckOrderly(s, a.task, id, job);
    } else if a.Del? {
      DelOrderly(s, a.task, id, job);
    } else {
      DropOrderly(s, a.task, id, job);
    }
  }

  lemma OutsideOrderly(c: Config, s: System, a: Action, s': System, id: EntryId, job: JobId)
    requires StreamOk(s) && TasksOk(s) && Carries(s, id, job) && Orderly(s, id, job) && Alone(s, id)
    requires Step(c, s, a, s') && !Moves(a) && !LateDelete(s, a, id)
    ensures Orderly(s', id, job)
  {
    if Deletes(s, a, job) {
      EarlyDeleteOrderly(s, a.req, s', id, job);
    } else if Passing(s, a, id) {
      OtherSameKeys(c, s, a, s', id, job);
      PassingOrderly(c, s, a, s', id, job);
    } else {
      AttendedOrderly(c, s, a, s', id, job);
    }
  }

  lemma InsideOrderly(c: Config, s: System, a: Action, s': System, id: EntryId, job: JobId)
    requires Inv(s) && Carries(s, id, job) && Orderly(s, id, job) && Alone(s, id)
    requires Step(c, s, a, s') && Moves(a) && !RaisesAfterAck(s, a, id)
    ensures Orderly(s', id, job)
  {
    MoveKept(c, s, a, s');
    if s.tasks[a.task].entry == id {
      OwnMoveOrderly(c, s, a, s', id, job);
    } else {
      OtherMoveOrderly(c, s, a, s', id, job);
    }
  }

  /** A freshly submitted entry is in order: nobody has read it. */
  lemma NewEntryOrderly(s: System, id: EntryId, job: JobId)
    requires StreamOk(s) && TasksOk(s) && s.redis.cursor <= id
    ensures Orderly(s, id, job)
  {
    forall t | t in s.tasks ensures s.tasks[t].entry != id {
      assert TaskOk(s, s.tasks[t]);
    }
  }

  /** History only grows: an id keeps the payload it was enqueued with, and comes in undelivered. */
  lemma SamePayload(c: Config, s: System, a: Action, s': System, id: EntryId)
    requires StreamOk(s) && Step(c, s, a, s') && id in s'.hist.enqueued
    ensures id in s.hist.enqueued ==> s'.hist.enqueued[id] == s.hist.enqueued[id]
    ensures id !in s.hist.enqueued ==> s'.redis.cursor <= id
  {
  }

  lemma OrderlyStep(c: Config, s: System, a: Action, s': System, id: EntryId, job: JobId)
    requires Inv(s) && Carries(s, id, job) && Orderly(s, id, job) && Alone(s, id)
    requires Step(c, s, a, s') && !RaisesAfterAck(s, a, id) && !LateDelete(s, a, id)
    ensures Orderly(s', id, job)
  {
    if Moves(a) {
      InsideOrderly(c, s, a, s', id, job);
    } else {
      OutsideOrderly(c, s, a, s', id, job);
    }
  }

  lemma {:induction false} RunOrderly(
      c: Config, states: seq<System>, actions: seq<Action>, i: nat, id: EntryId, job: JobId)
    requires OrderlyRun(c, states, actions, id) && i < |states| && Carries(states[i], id, job)
    ensures Orderly(states[i], id, job)
  {
    if states[i].redis.cursor <= id {
      RunInv(c, states, actions, i);
      NewEntryOrderly(states[i], id, job);
    } else {
      RunCarries(c, states, actions, i, id, job);
      RunOrderly(c, states, actions, i - 1, id, job);
      OrderlyStepAt(c, states, actions, i, id, job);
    }
  }

  lemma OrderlyStepAt(c: Config, states: seq<System>, actions: seq<Action>, i: nat, id: EntryId, job: JobId)
    requires OrderlyRun(c, states, actions, id) && 0 < i < |states|
    requires Carries(states[i - 1], id, job) && Orderly(states[i - 1], id, job)
    ensures Orderly(states[i], id, job)
  {
    RunInv(c, states, actions, i - 1);
    assert StepAt(c, states, actions, i - 1);
    OrderlyStep(c, states[i - 1], actions[i - 1], states[i], id, job);
  }

  lemma RunCarries(c: Config, states: seq<System>, actions: seq<Action>, i: nat, id: EntryId, job: JobId)
    requires IsRun(c, states, actions) && i < |states| && Carries(states[i], id, job) && id < states[i].redis.cursor
    ensures i > 0 && Carries(states[i - 1], id, job)
  {
    if i > 0 {
      RunStreamOk(c, states, actions, i - 1);
      assert StepAt(c, states, actions, i - 1);
      SamePayload(c, states[i - 1], actions[i - 1], states[i], id);
    }
  }

  lemma RunStreamOk(c: Config, states: seq<System>, actions: seq<Action>, i: nat)
    requires IsRun(c, states, actions) && i < |states|
    ensures StreamOk(states[i])
  {
    RunInv(c, states, actions, i);
  }

  lemma DepartedIsSettled(s: System, id: EntryId, job: JobId)
    requires TasksOk(s) && Orderly(s, id, job) && Carries(s, id, job) && Departed(s, id)
    ensures Settled(s.redis, job)
  {
    if !Unattended(s, id) {
      var t :| t in s.tasks && s.tasks[t].entry == id;
      assert TaskOk(s, s.tasks[t]);
      assert Undisturbed(s.redis, s.tasks[t]);
    }
  }

  /** A task whose entry has been acknowledged has no step left that writes keys. */
  lemma DepartedUnmoved(c: Config, s: System, a: Action, task: Task, s': System)
    requires Moves(a) && a.task in s.tasks && s.tasks[a.task] == task && TaskStep(c, s, a, task, s')
    requires Undisturbed(s.redis, task) && !RaisesAfterAck(s, a, task.entry)
    ensures !Departed(s, task.entry)
  {
  }

  /** A task serves another job than `job`, or its writes stand. */
  ghost predicate Harmless(s: System, t: TaskId, id: EntryId, job: JobId) {
    t in s.tasks ==>
      if s.tasks[t].entry == id then Undisturbed(s.redis, s.tasks[t]) else s.tasks[t].payload.jobId != job
  }

  lemma AllHarmless(s: System, t: TaskId, id: EntryId, job: JobId)
    requires TasksOk(s) && DistinctJobs(s) && Carries(s, id, job) && Orderly(s, id, job)
    ensures Harmless(s, t, id, job)
  {
    if t in s.tasks && s.tasks[t].entry != id {
      DifferentJobs(s, id, job, t);
    }
  }

  /** Nothing writes the keys of an acknowledged job. */
  lemma DepartedStep(c: Config, s: System, a: Action, s': System, id: EntryId, job: JobId)
    requires Carries(s, id, job) && Departed(s, id) && (ByTask(a) ==> Harmless(s, a.task, id, job))
    requires Step(c, s, a, s') && !RaisesAfterAck(s, a, id) && !Deletes(s, a, job)
    ensures SameKeys(s.redis, s'.redis, job)
  {
    if !Moves(a) {
      OtherSameKeys(c, s, a, s', id, job);
    } else if s.tasks[a.task].entry == id {
      DepartedUnmoved(c, s, a, s.tasks[a.task], s');
    } else {
      MoveSameKeys(c, s, a, s.tasks[a.task], s', job);
    }
  }

  lemma StaysDeparted(c: Config, s: System, a: Action, s': System, id: EntryId, job: JobId)
    requires StreamOk(s) && Step(c, s, a, s') && Departed(s, id) && Carries(s, id, job)
    ensures Departed(s', id) && Carries(s', id, job)
  {
  }

  /** An acknowledged entry stays acknowledged, under the same job. */
  lemma {:induction false} RunStaysDeparted(
      c: Config, states: seq<System>, actions: seq<Action>, i: nat, k: nat, id: EntryId, job: JobId)
    requires IsRun(c, states, actions) && i <= k < |states|
    requires Carries(states[i], id, job) && Departed(states[i], id)
    ensures Carries(states[k], id, job) && Departed(states[k], id)
    decreases k
  {
    if i < k {
      RunStaysDeparted(c, states, actions, i, k - 1, id, job);
      RunInv(c, states, actions, k - 1);
      assert StepAt(c, states, actions, k - 1);
      StaysDeparted(c, states[k - 1], actions[k - 1], states[k], id, job);
    }
  }

  lemma LastStepUntouched(c: Config, states: seq<System>, actions: seq<Action>, k: nat, id: EntryId, job: JobId)
    requires OrderlyRun(c, states, actions, id) && k < |actions| && Carries(states[k], id, job) && Departed(states[k], id)
    ensures SameKeys(states[k].redis, states[k + 1].redis, job)
  {
    RunInv(c, states, actions, k);
    RunOrderly(c, states, actions, k, id, job);
    assert StepAt(c, states, actions, k);
    assert !RaisesAfterAck(states[k], actions[k], id) && !Deletes(states[k], actions[k], job);
    if ByTask(actions[k]) {
      AllHarmless(states[k], actions[k].task, id, job);
    }
    DepartedStep(c, states[k], actions[k], states[k + 1], id, job);
  }

  lemma {:induction false} KeysFrozen(
      c: Config, states: seq<System>, actions: seq<Action>, i: nat, k: nat, id: EntryId, job: JobId)
    requires OrderlyRun(c, states, actions, id) && i <= k < |states|
    requires Carries(states[i], id, job) && Departed(states[i], id)
    ensures SameKeys(states[i].redis, states[k].redis, job)
    decreases k
  {
    if i < k {
      KeysFrozen(c, states, actions, i, k - 1, id, job);
      RunStaysDeparted(c, states, actions, i, k - 1, id, job);
      LastStepUntouched(c, states, actions, k - 1, id, job);
    }
  }

  /** Quiescence: once an API job's entry has been acknowledged, then and for the rest of the run its
      result is terminal, its record (while unexpired) says the same, and neither key changes. */
  lemma QuiescentAfterAck(
      c: Config, states: seq<System>, actions: seq<Action>, i: nat, k: nat, id: EntryId, job: JobId)
    requires OrderlyRun(c, states, actions, id) && i <= k < |states|
    requires Carries(states[i], id, job) && Departed(states[i], id)
    ensures Settled(states[k].redis, job)
    ensures SameKeys(states[i].redis, states[k].redis, job)
  {
    RunStaysDeparted(c, states, actions, i, k, id, job);
    KeysFrozen(c, states, actions, i, k, id, job);
    RunInv(c, states, actions, k);
    RunOrderly(c, states, actions, k, id, job);
    DepartedIsSettled(states[k], id, job);
  }
}
