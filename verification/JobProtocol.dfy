/**
 The at-least-once job protocol as a transition system.

 A task is one delivered message together with the coroutine that processes it. Its program counter
 names the next await of `WorkerDaemon._process`; every Redis command is one step, and between any
 two steps anything else in the system may happen. A task can be abandoned at every await (a crash,
 a cancellation, or a failure the code leaves for reclaim), and inside the `try` every await can
 also raise. There is no bound on the number of workers, tasks, jobs or steps.
 */
module JobProtocol {
  import opened RedisModel

  type TaskId = nat

  datatype Config = Config(minIdle: Millis, maxRetries: int)

  /** Why a task is finalising: which branch of `_process` it took. */
  datatype Cause = Poison | Malformed | CancelledAtPickup | Ran | Raised

  datatype Pc =
    | Fetched
    | Checking
    | Starting
    | Marking(snapshot: Option<Record>)
    | Executing
    | Storing(cause: Cause, result: Result)
    | Reading(cause: Cause, result: Result)
    | Writing(cause: Cause, result: Result, snapshot: Option<Record>)
    | Publishing(cause: Cause, result: Result)
    | Parking(cause: Cause, result: Result)
    | Acking(cause: Cause, result: Result)
    | Deleting(cause: Cause, result: Result)
    | Leaving(cause: Cause, result: Result)

  /** `seen` is the delivery count the worker was told; `ordinal` is which delivery of the entry
      this really is (1 for the first). */
  datatype Task = Task(
    entry: EntryId, payload: Payload, seen: nat, ordinal: nat, deliveredAt: Millis, pc: Pc)

  /** A claim pass of one worker: the (id, times_delivered) pairs XPENDING listed and when. */
  datatype Pass = Pass(listedAt: Millis, todo: seq<(EntryId, nat)>)

  /** A DELETE handler between its read of the record and its transaction. */
  datatype OpenDelete = OpenDelete(job: JobId, snapshot: Record)

  /** What has happened so far; no step reads it. */
  datatype History = History(
    enqueued: map<EntryId, Payload>,
    runs: multiset<EntryId>,
    ran: set<(EntryId, nat)>,
    halfAcked: map<EntryId, TaskId>,
    orphans: set<EntryId>)

  datatype System = System(
    redis: Redis,
    tasks: map<TaskId, Task>,
    passes: map<WorkerId, Pass>,
    deletes: map<nat, OpenDelete>,
    hist: History)

  const INITIAL := System(EMPTY, map[], map[], map[], History(map[], multiset{}, {}, map[], {}))

  datatype Action =
    | Tick(d: Millis)
    | Submit(job: JobId, user: string, wellFormed: bool)
    | Foreign
    | DeleteRead(req: nat, job: JobId)
    | DeleteCommit(req: nat)
    | Read(worker: WorkerId, task: TaskId)
    | List(worker: WorkerId, todo: seq<(EntryId, nat)>)
    | Claim(worker: WorkerId, task: TaskId)
    | EndPass(worker: WorkerId)
    | Begin(task: TaskId)
    | Check(task: TaskId)
    | GetForRunning(task: TaskId)
    | SetRunning(task: TaskId)
    | Finish(task: TaskId, result: Result)
    | StoreResult(task: TaskId)
    | GetForTerminal(task: TaskId)
    | SetTerminal(task: TaskId)
    | Publish(task: TaskId)
    | Park(task: TaskId)
    | Ack(task: TaskId)
    | Del(task: TaskId)
    | Return(task: TaskId)
    | Raise(task: TaskId, detail: string)
    | Abandon(task: TaskId)

  // ---------------------------------------------------------------- tasks

  const POISON_RESULT := Result(FAILED, "job abandoned after repeated delivery failures")
  const MALFORMED_RESULT := Result(FAILED, "sandbox failure")
  const CANCELLED_RESULT := Result(KILLED, "")

  function NewTask(r: Redis, id: EntryId, seen: nat, ordinal: nat): Task
    requires id in r.stream
  {
    Task(id, r.stream[id], seen, ordinal, r.now, Fetched)
  }

  function Move(s: System, t: TaskId, pc: Pc): System
    requires t in s.tasks
  {
    s.(tasks := s.tasks[t := s.tasks[t].(pc := pc)])
  }

  /** The branches at the top of `_process`, before its first await. */
  function FirstPc(c: Config, task: Task): Pc {
    if task.seen > c.maxRetries then Storing(Poison, POISON_RESULT)
    else if !task.payload.wellFormed then
      if task.payload.jobId != "" then Storing(Malformed, MALFORMED_RESULT)
      else Parking(Malformed, MALFORMED_RESULT)
    else Checking
  }

  /** The awaits covered by the `try` of `_process`: an exception here reaches its handler. */
  predicate InTry(pc: Pc) {
    pc.Starting? || pc.Marking? || pc.Executing? || (Finalising(pc) && pc.cause == Ran)
  }

  predicate Finalising(pc: Pc) {
    pc.Storing? || Stored(pc)
  }

  /** A result has been stored since this finalisation began (or none is owed: see `FirstPc`). */
  predicate Stored(pc: Pc) {
    pc.Reading? || pc.Writing? || Published(pc)
  }

  /** The record has been finalised too. */
  predicate Published(pc: Pc) {
    pc.Publishing? || pc.Parking? || pc.Acking? || Acked(pc)
  }

  /** XACK has been executed. */
  predicate Acked(pc: Pc) {
    pc.Deleting? || pc.Leaving?
  }

  function AfterPublish(cause: Cause, result: Result): Pc {
    if cause == Poison || cause == Malformed then Parking(cause, result) else Acking(cause, result)
  }

  // ---------------------------------------------------------------- steps

  /** XPENDING IDLE reports entries that are idle for long enough, each with its true count. */
  predicate Listed(c: Config, r: Redis, todo: seq<(EntryId, nat)>) {
    forall i :: 0 <= i < |todo| ==>
      Idle(r, todo[i].0, c.minIdle) && todo[i].1 == r.pending[todo[i].0].count
  }

  function StepSubmit(s: System, payload: Payload, withRecord: bool): System {
    s.(redis := if withRecord then Enqueue(s.redis, payload) else Xadd(s.redis, payload),
       hist := s.hist.(enqueued := s.hist.enqueued[s.redis.nextId := payload]))
  }

  function StepRead(s: System, w: WorkerId, t: TaskId): System
    requires s.redis.cursor in s.redis.stream
  {
    s.(redis := Deliver(s.redis, w),
       tasks := s.tasks[t := NewTask(s.redis, s.redis.cursor, 1, 1)])
  }

  /** XCLAIM re-checks the idle time, and skips an entry that the stream no longer holds. */
  predicate Claimable(c: Config, r: Redis, id: EntryId) {
    Idle(r, id, c.minIdle) && id in r.stream
  }

  /** One iteration of the loop in `claim_stale`: the count handed on is the one XPENDING reported. */
  function StepClaim(c: Config, s: System, w: WorkerId, t: TaskId): System
    requires w in s.passes && s.passes[w].todo != []
  {
    var (id, listed) := s.passes[w].todo[0];
    var s' := s.(passes := s.passes[w := s.passes[w].(todo := s.passes[w].todo[1..])]);
    if Claimable(c, s.redis, id) then
      s'.(redis := Xclaim(s.redis, id, w),
          tasks := s.tasks[t := NewTask(s.redis, id, listed, s.redis.pending[id].count + 1)])
    else s'
  }

  /** `patch_record`: nothing is written when the read found no record. */
  function Patch(r: Redis, job: JobId, snapshot: Option<Record>, status: Status, result: Option<Result>): Redis {
    if snapshot.None? then r
    else SetRecordKeepTtl(r, job,
           Record(status, if result.Some? then result else snapshot.value.result))
  }

  function StepRun(s: System, t: TaskId): System
    requires t in s.tasks && s.tasks[t].pc.Marking?
  {
    var task := s.tasks[t];
    Move(s, t, Executing).(
      redis := Patch(s.redis, task.payload.jobId, task.pc.snapshot, RUNNING, None),
      hist := s.hist.(runs := s.hist.runs + multiset{task.entry},
                      ran := s.hist.ran + {(task.entry, task.ordinal)}))
  }

  function StepAck(s: System, t: TaskId): System
    requires t in s.tasks && s.tasks[t].pc.Acking?
  {
    var task := s.tasks[t];
    Move(s, t, Deleting(task.pc.cause, task.pc.result)).(
      redis := Xack(s.redis, task.entry),
      hist := if task.entry in s.redis.pending
              then s.hist.(halfAcked := s.hist.halfAcked[task.entry := t]) else s.hist)
  }

  function StepDel(s: System, t: TaskId): System
    requires t in s.tasks && s.tasks[t].pc.Deleting?
  {
    var task := s.tasks[t];
    Move(s, t, Leaving(task.pc.cause, task.pc.result)).(
      redis := Xdel(s.redis, task.entry),
      hist := s.hist.(halfAcked := s.hist.halfAcked - {task.entry}))
  }

  /** A task that ends; if it was the one to delete an acknowledged entry, the entry is orphaned. */
  function Drop(s: System, t: TaskId): System
    requires t in s.tasks
  {
    var e := s.tasks[t].entry;
    s.(tasks := s.tasks - {t},
       hist := if e in s.hist.halfAcked && s.hist.halfAcked[e] == t
               then s.hist.(orphans := s.hist.orphans + {e}) else s.hist)
  }

  /** One step of the system. */
  predicate Step(c: Config, s: System, a: Action, s': System) {
    match a
    case Tick(d) => s' == s.(redis := s.redis.(now := s.redis.now + d))
    case Submit(job, user, wellFormed) =>
      FreshJob(s, job) && s' == StepSubmit(s, Payload(job, user, wellFormed), true)
    case Foreign => s' == StepSubmit(s, Payload("", "", false), false)
    case DeleteRead(req, job) =>
      && req !in s.deletes
      && GetRecord(s.redis, job).Some? && !Terminal(GetRecord(s.redis, job).value.status)
      && s' == s.(deletes := s.deletes[req := OpenDelete(job, GetRecord(s.redis, job).value)])
    case DeleteCommit(req) =>
      && req in s.deletes
      && s' == s.(redis := CommitDelete(s.redis, s.deletes[req].job, s.deletes[req].snapshot),
                  deletes := s.deletes - {req})
    case Read(w, t) =>
      t !in s.tasks && s.redis.cursor in s.redis.stream && s' == StepRead(s, w, t)
    case List(w, todo) =>
      w !in s.passes && Listed(c, s.redis, todo) && s' == s.(passes := s.passes[w := Pass(s.redis.now, todo)])
    case Claim(w, t) =>
      t !in s.tasks && w in s.passes && s.passes[w].todo != [] && s' == StepClaim(c, s, w, t)
    case EndPass(w) => s' == s.(passes := s.passes - {w})
    case Return(t) => t in s.tasks && s.tasks[t].pc.Leaving? && s' == Drop(s, t)
    case Abandon(t) => t in s.tasks && s' == Drop(s, t)
    case _ => a.task in s.tasks && TaskStep(c, s, a, s.tasks[a.task], s')
  }

  /** The awaits of `_process`, in program order. */
  predicate TaskStep(c: Config, s: System, a: Action, task: Task, s': System)
    requires ByTask(a) && a.task in s.tasks && s.tasks[a.task] == task
  {
    var t, pc, job := a.task, task.pc, task.payload.jobId;
    match a
    case Begin(_) => pc.Fetched? && s' == Move(s, t, FirstPc(c, task))
    case Check(_) =>
      pc.Checking? && s' == Move(s, t, if Cancelled(s.redis, job)
                                       then Storing(CancelledAtPickup, CANCELLED_RESULT) else Starting)
    case GetForRunning(_) => pc.Starting? && s' == Move(s, t, Marking(GetRecord(s.redis, job)))
    case SetRunning(_) => pc.Marking? && s' == StepRun(s, t)
    case Finish(_, result) =>
      pc.Executing? && Terminal(result.status) && s' == Move(s, t, Storing(Ran, result))
    case StoreResult(_) =>
      pc.Storing? && s' == Move(s, t, Reading(pc.cause, pc.result)).(redis := SetResult(s.redis, job, pc.result))
    case GetForTerminal(_) =>
      pc.Reading? && s' == Move(s, t, Writing(pc.cause, pc.result, GetRecord(s.redis, job)))
    case SetTerminal(_) =>
      pc.Writing? && s' == Move(s, t, Publishing(pc.cause, pc.result)).(
        redis := Patch(s.redis, job, pc.snapshot, pc.result.status, Some(pc.result)))
    case Publish(_) => pc.Publishing? && s' == Move(s, t, AfterPublish(pc.cause, pc.result))
    case Park(_) =>
      pc.Parking? && s' == Move(s, t, Acking(pc.cause, pc.result)).(
        redis := s.redis.(dead := s.redis.dead + [task.payload]))
    case Ack(_) => pc.Acking? && s' == StepAck(s, t)
    case Del(_) => pc.Deleting? && s' == StepDel(s, t)
    case Raise(_, detail) => InTry(pc) && s' == Move(s, t, Storing(Raised, Result(FAILED, detail)))
  }

  predicate ByTask(a: Action) {
    Moves(a) || a.Ack? || a.Del?
  }

  /** The task steps that leave the stream and the consumer group alone. */
  predicate Moves(a: Action) {
    Silent(a) || WritesKeys(a)
  }

  /** Task steps that change nothing in Redis. */
  predicate Silent(a: Action) {
    a.Begin? || a.Check? || a.GetForRunning? || a.Finish? || a.GetForTerminal? || a.Publish? || a.Raise?
  }

  predicate WritesKeys(a: Action) {
    a.SetRunning? || a.StoreResult? || a.SetTerminal? || a.Park?
  }

  /** Job ids are ULIDs minted by the API: non-empty and never used twice. */
  predicate FreshJob(s: System, job: JobId) {
    job != "" && forall id :: id in s.hist.enqueued ==> s.hist.enqueued[id].jobId != job
  }

  // ---------------------------------------------------------------- runs

  /** `states` is the run that takes `actions` from the initial state. */
  ghost predicate IsRun(c: Config, states: seq<System>, actions: seq<Action>) {
    |states| == |actions| + 1 && states[0] == INITIAL
    && forall i :: 0 <= i < |actions| ==> StepAt(c, states, actions, i)
  }

  ghost predicate StepAt(c: Config, states: seq<System>, actions: seq<Action>, i: nat)
    requires |states| == |actions| + 1 && i < |actions|
  {
    Step(c, states[i], actions[i], states[i + 1])
  }

  lemma RunExtends(c: Config, states: seq<System>, actions: seq<Action>, a: Action, s': System)
    requires IsRun(c, states, actions) && Step(c, states[|actions|], a, s')
    ensures IsRun(c, states + [s'], actions + [a])
  {
    var states', actions' := states + [s'], actions + [a];
    forall i | 0 <= i < |actions'| ensures StepAt(c, states', actions', i) {
      if i < |actions| {
        assert StepAt(c, states, actions, i);
      }
    }
  }
}
