/**
 * `WorkerDaemon._process` of worker/worker.py as the program it is, with the helpers it calls.  The
 * program keeps its own data (the message, the result, the record it read) in variables and works
 * on a shared Redis with Redis commands.  Before each command any number of steps of the rest of
 * the system happen, and the command may fail, or succeed and lose its reply.
 *
 * `world` is the observer's view of the system: each command of the program is matched with the
 * step of the job protocol it is supposed to be, and the proof obligation is that this step is
 * possible there and leaves the very Redis that the program's command left.  So the program and its
 * surroundings together make a run of the protocol, and what is proved of all runs holds of it.
 */
module WorkerProcess {
  import opened RedisModel
  import opened JobProtocol
  import opened JobSafety
  import opened BoundedRetries
  import opened RecordLifecycle

  // ---- the program's data ----------------------------------------------------------------------

  datatype Message = Message(entry: EntryId, payload: Payload, seen: nat)

  // The exceptions that `_finalize_failed` tells apart.
  datatype Error = UnknownLanguage | MaxRetries | SandboxFailure | Unexpected

  function Detail(error: Error): string {
    match error
    case UnknownLanguage => "unsupported language"
    case MaxRetries => "job abandoned after repeated delivery failures"
    case SandboxFailure => "sandbox failure"
    case Unexpected => "internal execution error"
  }

  type Outcome = r: Result | Terminal(r.status) witness Result(KILLED, "")

  // How one await of the program ends: with a reply, with an exception before or after the command
  // took effect, with Docker unavailable (only the executor says so), or never.
  datatype Fate = Replies | Throws(error: Error) | LosesReply(error: Error) | DockerDown | Dies

  // What the others do while the program waits, each action with the state it leads to.
  datatype Moment = Moment(others: seq<(Action, System)>, fate: Fate)

  // Gone: the worker died, or the schedule ends here with the program still suspended.
  datatype Flow = Done | Thrown(error: Error) | Unavailable | Gone

  // ---- one task among others -------------------------------------------------------------------

  predicate Own(a: Action, t: TaskId) {
    (ByTask(a) || a.Return? || a.Abandon?) && a.task == t
  }

  lemma OthersKeepTask(c: Config, s: System, a: Action, s': System, t: TaskId)
    requires Step(c, s, a, s') && t in s.tasks && !Own(a, t)
    ensures t in s'.tasks && s'.tasks[t] == s.tasks[t]
  {
    if ByTask(a) {
      OtherTaskMoves(c, s, a, s', t);
    }
  }

  lemma OtherTaskMoves(c: Config, s: System, a: Action, s': System, t: TaskId)
    requires ByTask(a) && a.task in s.tasks && TaskStep(c, s, a, s.tasks[a.task], s') && t in s.tasks && a.task != t
    ensures t in s'.tasks && s'.tasks[t] == s.tasks[t]
  {}

  // What a run shows of one task since it began: the last result it stored and for which job, how
  // often it acknowledged, and what its cancel check found.
  datatype Note = Note(stored: Option<(JobId, Result)>, acks: nat, answer: Option<bool>)

  const BLANK := Note(None, 0, None)

  function NoteOf(notes: map<TaskId, Note>, t: TaskId): Note {
    if t in notes then notes[t] else BLANK
  }

  // The notes after the step `a` taken in state `s`.
  function Noted(notes: map<TaskId, Note>, s: System, a: Action): map<TaskId, Note> {
    if !ByTask(a) || a.task !in s.tasks then notes
    else
      var t, task, note := a.task, s.tasks[a.task], NoteOf(notes, a.task);
      if a.Begin? then notes[t := BLANK]
      else if a.StoreResult? && task.pc.Storing? then
        notes[t := note.(stored := Some((task.payload.jobId, task.pc.result)))]
      else if a.Ack? then notes[t := note.(acks := note.acks + 1)]
      else if a.Check? then notes[t := note.(answer := Some(Cancelled(s.redis, task.payload.jobId)))]
      else notes
  }

  function NotesOf(states: seq<System>, actions: seq<Action>): map<TaskId, Note>
    requires |states| == |actions| + 1
  {
    if actions == [] then map[]
    else
      var k := |actions| - 1;
      Noted(NotesOf(states[..k + 1], actions[..k]), states[k], actions[k])
  }

  lemma NotesGrow(states: seq<System>, actions: seq<Action>, a: Action, s': System)
    requires |states| == |actions| + 1
    ensures NotesOf(states + [s'], actions + [a]) == Noted(NotesOf(states, actions), states[|actions|], a)
  {
    assert (states + [s'])[..|actions| + 1] == states;
    assert (actions + [a])[..|actions|] == actions;
  }

  function Ending(fate: Fate, executing: bool): Flow {
    match fate
    case Replies => Done
    case Throws(error) => Thrown(error)
    case LosesReply(error) => Thrown(error)
    case DockerDown => if executing then Unavailable else Done
    case Dies => Gone
  }

  // An await that did not end with a reply: where the task stood, and how it ended.
  datatype Break = Break(at: Pc, how: Flow)

  predicate EndedBy(breaks: seq<Break>, flow: Flow) {
    if flow.Done? then breaks == [] else |breaks| == 1 && breaks[0].how == flow
  }

  // How the try statement may end: its awaits all reply and the executor's outcome is stored; or one of
  // them ends it without throwing; or one of them throws, and then the handler stores that failure, or
  // is ended itself.
  predicate TryAccount(breaks: seq<Break>, flow: Flow, outcome: Result, result: Result) {
    || (!flow.Thrown? && EndedBy(breaks, flow) && (flow.Done? ==> result == outcome))
    || (|breaks| > 0 && breaks[0].how.Thrown? && InTry(breaks[0].at) && EndedBy(breaks[1..], flow)
        && !flow.Unavailable? && (flow.Done? ==> result == Result(FAILED, Detail(breaks[0].how.error))))
  }

  // How _process may end, by what the message is and what the cancel check found.
  predicate Account(
    c: Config, msg: Message, answer: Option<bool>, breaks: seq<Break>, flow: Flow, outcome: Result, result: Result)
  {
    if msg.seen > c.maxRetries then
      EndedBy(breaks, flow) && (flow.Done? ==> result == Result(FAILED, "job abandoned after repeated delivery failures"))
    else if !msg.payload.wellFormed then
      EndedBy(breaks, flow) && (flow.Done? ==> result == Result(FAILED, "sandbox failure"))
    else if breaks != [] && breaks[0].at.Checking? then EndedBy(breaks, flow)
    else if answer == Some(true) then EndedBy(breaks, flow) && (flow.Done? ==> result == Result(KILLED, ""))
    else answer == Some(false) && TryAccount(breaks, flow, outcome, result)
  }

  predicate Parks(c: Config, msg: Message) {
    msg.seen > c.maxRetries || !msg.payload.wellFormed
  }

  // ---- the program -----------------------------------------------------------------------------

  class Cluster {
    const c: Config
    var redis: Redis
    var world: System
    var schedule: seq<Moment>
    var published: seq<(JobId, Result)>         // what publisher.done has announced
    var releaseCalls: set<(string, JobId)>      // the slots whose release has been asked for
    ghost var breaks: seq<Break>                // the awaits that did not end with a reply, unless swallowed
    ghost var states: seq<System>
    ghost var actions: seq<Action>
    ghost var notes: map<TaskId, Note>

    ghost predicate Traced()
      reads this
    {
      IsRun(c, states, actions) && states[|actions|] == world && notes == NotesOf(states, actions)
    }

    ghost predicate Valid()
      reads this
    {
      Traced() && world.redis == redis
    }

    constructor (c: Config, schedule: seq<Moment>)
      ensures Valid() && this.c == c && this.schedule == schedule && world == INITIAL && actions == []
    {
      this.c, this.schedule, redis, world := c, schedule, EMPTY, INITIAL;
      published, releaseCalls, breaks := [], {}, [];
      states, actions, notes := [INITIAL], [], map[];
    }

    // In the observer's view, task t handles the message and is about to perform `pc`.
    ghost predicate Stands(t: TaskId, msg: Message, pc: Pc)
      reads this
    {
      && t in world.tasks && world.tasks[t].pc == pc
      && world.tasks[t].entry == msg.entry && world.tasks[t].payload == msg.payload && world.tasks[t].seen == msg.seen
    }

    ghost predicate Finalises(t: TaskId, msg: Message, cause: Cause)
      reads this
    {
      t in world.tasks && Stands(t, msg, world.tasks[t].pc)
      && Finalising(world.tasks[t].pc) && world.tasks[t].pc.cause == cause
    }

    ghost predicate Trying(t: TaskId, msg: Message)
      reads this
    {
      t in world.tasks && Stands(t, msg, world.tasks[t].pc) && InTry(world.tasks[t].pc)
    }

    // What the run shows of task t.
    ghost function Seen(t: TaskId): Note
      reads this
    {
      NoteOf(notes, t)
    }

    // A sequence of awaits ended with `flow`: none of them broke but the one that ended the sequence.
    ghost predicate Ends(before: seq<Break>, flow: Flow)
      reads this
    {
      if flow.Done? then breaks == before
      else |breaks| == |before| + 1 && before <= breaks && breaks[|before|].how == flow
    }

    // The same, and the task stood in its finalisation for `cause` then.
    ghost predicate EndsFinalising(before: seq<Break>, flow: Flow, cause: Cause)
      reads this
    {
      Ends(before, flow)
      && (!flow.Done? ==> Finalising(breaks[|before|].at) && breaks[|before|].at.cause == cause)
    }

    // The same, inside the try.
    ghost predicate EndsTrying(before: seq<Break>, flow: Flow)
      reads this
    {
      Ends(before, flow) && (!flow.Done? ==> InTry(breaks[|before|].at))
    }

    // The run so far goes on from the one given.
    ghost predicate Continues(states0: seq<System>, actions0: seq<Action>)
      reads this
    {
      Valid() && states0 <= states && actions0 <= actions
    }

    // The program's last command, seen as the protocol's step `a` to `world'`.
    method Log(a: Action, world': System)
      requires Traced() && Step(c, world, a, world') && world'.redis == redis
      modifies this`world, this`states, this`actions, this`notes
      ensures Valid() && world == world' && notes == Noted(old(notes), old(world), a)
      ensures actions == old(actions) + [a] && states == old(states) + [world']
    {
      RunExtends(c, states, actions, a, world');
      NotesGrow(states, actions, a, world');
      notes := Noted(notes, world, a);
      states, actions, world := states + [world'], actions + [a], world';
    }

    // The rest of the system, while task t waits.  What cannot happen does not.
    method Others(t: TaskId, others: seq<(Action, System)>)
      requires Valid() && t in world.tasks
      modifies this`redis, this`world, this`states, this`actions, this`notes
      ensures Continues(old(states), old(actions))
      ensures t in world.tasks && world.tasks[t] == old(world.tasks[t])
      ensures Seen(t) == old(Seen(t))
    {
      for k := 0 to |others|
        invariant Continues(old(states), old(actions))
        invariant t in world.tasks && world.tasks[t] == old(world.tasks[t])
        invariant Seen(t) == old(Seen(t))
      {
        var (a, world') := others[k];
        if !Own(a, t) && Step(c, world, a, world') {
          OthersKeepTask(c, world, a, world', t);
          redis := world'.redis;
          Log(a, world');
        }
      }
    }

    // An await of the program: the others act, then it is decided whether the command takes effect
    // and how the await ends.
    method Pause(t: TaskId, executing: bool) returns (effective: bool, flow: Flow)
      requires Valid() && t in world.tasks
      modifies this`redis, this`world, this`schedule, this`states, this`actions, this`notes, this`breaks
      ensures Continues(old(states), old(actions)) && Ends(old(breaks), flow)
      ensures !flow.Done? ==> breaks[|old(breaks)|].at == old(world.tasks[t].pc)
      ensures effective ==> flow.Done? || flow.Thrown?
      ensures flow.Done? ==> effective
      ensures flow.Unavailable? ==> executing
      ensures !flow.Gone? ==> t in world.tasks && world.tasks[t] == old(world.tasks[t])
      ensures Seen(t) == old(Seen(t))
    {
      if schedule == [] {
        breaks := breaks + [Break(world.tasks[t].pc, Gone)];
        return false, Gone;
      }
      var now := schedule[0];
      schedule := schedule[1..];
      Others(t, now.others);
      flow := Ending(now.fate, executing);
      effective := flow.Done? || now.fate.LosesReply?;
      if !flow.Done? {
        breaks := breaks + [Break(world.tasks[t].pc, flow)];
      }
      if flow.Gone? {
        Log(Abandon(t), Drop(world, t));
      }
    }

    // ---- ResultStore -----------------------------------------------------------------------------

    // SET of the result key.
    method PutResult(t: TaskId, msg: Message, cause: Cause, result: Result) returns (flow: Flow)
      requires Valid() && Stands(t, msg, Storing(cause, result))
      modifies this`redis, this`world, this`schedule, this`states, this`actions, this`notes, this`breaks
      ensures Continues(old(states), old(actions)) && EndsFinalising(old(breaks), flow, cause) && !flow.Unavailable?
      ensures Seen(t).acks == old(Seen(t).acks) && Seen(t).answer == old(Seen(t).answer)
      ensures flow.Done? ==> Stands(t, msg, Reading(cause, result))
      ensures flow.Done? ==> msg.payload.jobId in redis.results
      ensures flow.Done? ==> redis.results[msg.payload.jobId] == Expiring(result, Some(redis.now + 3_600_000))
      ensures flow.Done? ==> Seen(t).stored == Some((msg.payload.jobId, result))
      ensures flow.Thrown? ==> Finalises(t, msg, cause)
    {
      var effective;
      effective, flow := Pause(t, false);
      if effective {
        redis := SetResult(redis, msg.payload.jobId, result);
        Log(StoreResult(t), Move(world, t, Reading(cause, result)).(redis := redis));
      }
    }

    // GET of the record of a finished job.
    method ReadForTerminal(t: TaskId, msg: Message, cause: Cause, result: Result)
      returns (flow: Flow, record: Option<Record>)
      requires Valid() && Stands(t, msg, Reading(cause, result))
      modifies this`redis, this`world, this`schedule, this`states, this`actions, this`notes, this`breaks
      ensures Continues(old(states), old(actions)) && EndsFinalising(old(breaks), flow, cause) && !flow.Unavailable?
      ensures Seen(t) == old(Seen(t))
      ensures flow.Done? ==> Stands(t, msg, Writing(cause, result, record)) && record == GetRecord(redis, msg.payload.jobId)
      ensures flow.Thrown? ==> Finalises(t, msg, cause)
    {
      record := None;
      var effective;
      effective, flow := Pause(t, false);
      if effective {
        record := GetRecord(redis, msg.payload.jobId);
        Log(GetForTerminal(t), Move(world, t, Writing(cause, result, record)));
      }
    }

    // SET of the record read, with the status and the result changed.
    method WriteTerminal(t: TaskId, msg: Message, cause: Cause, result: Result, record: Record) returns (flow: Flow)
      requires Valid() && Stands(t, msg, Writing(cause, result, Some(record)))
      modifies this`redis, this`world, this`schedule, this`states, this`actions, this`notes, this`breaks
      ensures Continues(old(states), old(actions)) && EndsFinalising(old(breaks), flow, cause) && !flow.Unavailable?
      ensures Seen(t) == old(Seen(t))
      ensures flow.Done? ==> Stands(t, msg, Publishing(cause, result)) && Matches(redis, msg.payload.jobId, result)
      ensures flow.Thrown? ==> Finalises(t, msg, cause)
    {
      var effective;
      effective, flow := Pause(t, false);
      if effective {
        redis := SetRecordKeepTtl(redis, msg.payload.jobId, record.(status := result.status, result := Some(result)));
        Log(SetTerminal(t), Move(world, t, Publishing(cause, result)).(redis := redis));
      }
    }

    // patch_record for a finished job: without a record there is nothing to write.
    method PatchTerminal(t: TaskId, msg: Message, cause: Cause, result: Result) returns (flow: Flow)
      requires Valid() && Stands(t, msg, Reading(cause, result))
      modifies this`redis, this`world, this`schedule, this`states, this`actions, this`notes, this`breaks
      ensures Continues(old(states), old(actions)) && EndsFinalising(old(breaks), flow, cause) && !flow.Unavailable?
      ensures Seen(t) == old(Seen(t))
      ensures flow.Done? ==> Stands(t, msg, Publishing(cause, result)) && Matches(redis, msg.payload.jobId, result)
      ensures flow.Thrown? ==> Finalises(t, msg, cause)
    {
      var record;
      flow, record := ReadForTerminal(t, msg, cause, result);
      if flow.Done? {
        if record.Some? {
          flow := WriteTerminal(t, msg, cause, result, record.value);
        } else {
          Log(SetTerminal(t), Move(world, t, Publishing(cause, result)));
        }
      }
    }

    // store_terminal: the result key first, then the record.  When it completes, the result has been
    // stored, the job has a result, and the record, if there is one, says the same.
    method StoreTerminal(t: TaskId, msg: Message, cause: Cause, result: Result) returns (flow: Flow)
      requires Valid() && Stands(t, msg, Storing(cause, result)) && (cause == Malformed ==> msg.payload.jobId != "")
      modifies this`redis, this`world, this`schedule, this`states, this`actions, this`notes, this`breaks
      ensures Continues(old(states), old(actions)) && EndsFinalising(old(breaks), flow, cause) && !flow.Unavailable?
      ensures Seen(t).acks == old(Seen(t).acks) && Seen(t).answer == old(Seen(t).answer)
      ensures flow.Done? ==> Stands(t, msg, Publishing(cause, result))
      ensures flow.Done? ==> Seen(t).stored == Some((msg.payload.jobId, result))
      ensures flow.Done? ==> msg.payload.jobId in redis.results && Matches(redis, msg.payload.jobId, result)
      ensures flow.Thrown? ==> Finalises(t, msg, cause)
    {
      flow := PutResult(t, msg, cause, result);
      if flow.Done? {
        flow := PatchTerminal(t, msg, cause, result);
        if flow.Done? {
          HasResult(t);
        }
      }
    }

    // A task past its SET of the result key finds the key there, whatever the others did.
    lemma HasResult(t: TaskId)
      requires Traced() && t in world.tasks && Stored(world.tasks[t].pc)
      ensures world.tasks[t].payload.jobId in world.redis.results
              || (world.tasks[t].pc.cause == Malformed && world.tasks[t].payload.jobId == "")
    {
      RunInv(c, states, actions, |actions|);
      assert TaskOk(world, world.tasks[t]);
    }

    // GET of the record of a job about to run.
    method ReadForRunning(t: TaskId, msg: Message) returns (flow: Flow, record: Option<Record>)
      requires Valid() && Stands(t, msg, Starting)
      modifies this`redis, this`world, this`schedule, this`states, this`actions, this`notes, this`breaks
      ensures Continues(old(states), old(actions)) && EndsTrying(old(breaks), flow) && !flow.Unavailable?
      ensures Seen(t) == old(Seen(t))
      ensures flow.Done? ==> Stands(t, msg, Marking(record)) && record == GetRecord(redis, msg.payload.jobId)
      ensures flow.Thrown? ==> Trying(t, msg)
    {
      record := None;
      var effective;
      effective, flow := Pause(t, false);
      if effective {
        record := GetRecord(redis, msg.payload.jobId);
        Log(GetForRunning(t), Move(world, t, Marking(record)));
      }
    }

    method WriteRunning(t: TaskId, msg: Message, record: Record) returns (flow: Flow)
      requires Valid() && Stands(t, msg, Marking(Some(record)))
      modifies this`redis, this`world, this`schedule, this`states, this`actions, this`notes, this`breaks
      ensures Continues(old(states), old(actions)) && EndsTrying(old(breaks), flow) && !flow.Unavailable?
      ensures Seen(t) == old(Seen(t))
      ensures flow.Done? ==> Stands(t, msg, Executing)
      ensures flow.Done? ==> GetRecord(redis, msg.payload.jobId) == Some(record.(status := RUNNING))
      ensures flow.Thrown? ==> Trying(t, msg)
    {
      var effective;
      effective, flow := Pause(t, false);
      if effective {
        redis := SetRecordKeepTtl(redis, msg.payload.jobId, record.(status := RUNNING));
        Log(SetRunning(t), StepRun(world, t));
      }
    }

    // set_running: the same read-modify-write with status RUNNING; the execution starts after it.
    method SetRunningRecord(t: TaskId, msg: Message) returns (flow: Flow)
      requires Valid() && Stands(t, msg, Starting)
      modifies this`redis, this`world, this`schedule, this`states, this`actions, this`notes, this`breaks
      ensures Continues(old(states), old(actions)) && EndsTrying(old(breaks), flow) && !flow.Unavailable?
      ensures Seen(t) == old(Seen(t))
      ensures flow.Done? ==> Stands(t, msg, Executing)
      ensures flow.Done? && GetRecord(redis, msg.payload.jobId).Some? ==>
                GetRecord(redis, msg.payload.jobId).value.status == RUNNING
      ensures flow.Thrown? ==> Trying(t, msg)
    {
      var record;
      flow, record := ReadForRunning(t, msg);
      if flow.Done? {
        if record.Some? {
          flow := WriteRunning(t, msg, record.value);
        } else {
          Log(SetRunning(t), StepRun(world, t));
        }
      }
    }

    // EXISTS of the cancel flag.
    method IsCancelled(t: TaskId, msg: Message) returns (flow: Flow, cancelled: bool)
      requires Valid() && Stands(t, msg, Checking)
      modifies this`redis, this`world, this`schedule, this`states, this`actions, this`notes, this`breaks
      ensures Continues(old(states), old(actions)) && Ends(old(breaks), flow) && !flow.Unavailable?
      ensures !flow.Done? ==> breaks[|old(breaks)|].at.Checking?
      ensures Seen(t).acks == old(Seen(t).acks) && (flow.Gone? ==> Seen(t) == old(Seen(t)))
      ensures flow.Done? ==> Seen(t).answer == Some(cancelled)
      ensures flow.Done? ==> Stands(t, msg, if cancelled then Storing(CancelledAtPickup, CANCELLED_RESULT) else Starting)
      ensures flow.Thrown? ==> t in world.tasks
    {
      var effective;
      effective, flow := Pause(t, false);
      cancelled := false;
      if effective {
        cancelled := Cancelled(redis, msg.payload.jobId);
        Log(Check(t), Move(world, t, if cancelled then Storing(CancelledAtPickup, CANCELLED_RESULT) else Starting));
      }
    }

    // release_slot swallows every exception, and touches nothing of this model.
    method ReleaseSlot(t: TaskId, msg: Message) returns (flow: Flow)
      requires Valid() && t in world.tasks
      modifies this`redis, this`world, this`schedule, this`states, this`actions, this`notes, this`breaks, this`releaseCalls
      ensures Continues(old(states), old(actions)) && Ends(old(breaks), flow)
      ensures !flow.Done? ==> breaks[|old(breaks)|].at == old(world.tasks[t].pc)
      ensures Seen(t) == old(Seen(t))
      ensures flow.Done? || flow.Gone?
      ensures flow.Done? ==> t in world.tasks && world.tasks[t] == old(world.tasks[t])
      ensures msg.payload.userId != "" ==> (msg.payload.userId, msg.payload.jobId) in releaseCalls
    {
      flow := Done;
      if msg.payload.userId != "" {
        releaseCalls := releaseCalls + {(msg.payload.userId, msg.payload.jobId)};
        var effective;
        effective, flow := Pause(t, false);
        if flow.Thrown? {
          flow := Done;
          breaks := old(breaks);
        }
      }
    }

    // ---- QueueConsumer ---------------------------------------------------------------------------

    method XackEntry(t: TaskId, msg: Message, cause: Cause, result: Result) returns (flow: Flow)
      requires Valid() && Stands(t, msg, Acking(cause, result))
      modifies this`redis, this`world, this`schedule, this`states, this`actions, this`notes, this`breaks
      ensures Continues(old(states), old(actions)) && EndsFinalising(old(breaks), flow, cause) && !flow.Unavailable?
      ensures Seen(t).stored == old(Seen(t).stored) && Seen(t).answer == old(Seen(t).answer)
      ensures flow.Done? ==> Stands(t, msg, Deleting(cause, result)) && msg.entry !in redis.pending
      ensures flow.Done? ==> Seen(t).acks == old(Seen(t).acks) + 1
      ensures flow.Thrown? ==> Finalises(t, msg, cause)
    {
      var effective;
      effective, flow := Pause(t, false);
      if effective {
        redis := Xack(redis, msg.entry);
        Log(Ack(t), StepAck(world, t));
      }
    }

    method XdelEntry(t: TaskId, msg: Message, cause: Cause, result: Result) returns (flow: Flow)
      requires Valid() && Stands(t, msg, Deleting(cause, result))
      modifies this`redis, this`world, this`schedule, this`states, this`actions, this`notes, this`breaks
      ensures Continues(old(states), old(actions)) && EndsFinalising(old(breaks), flow, cause) && !flow.Unavailable?
      ensures Seen(t).stored == old(Seen(t).stored) && Seen(t).answer == old(Seen(t).answer)
      ensures flow.Done? ==> Stands(t, msg, Leaving(cause, result)) && msg.entry !in redis.stream
      ensures flow.Thrown? ==> Finalises(t, msg, cause)
    {
      var effective;
      effective, flow := Pause(t, false);
      if effective {
        redis := Xdel(redis, msg.entry);
        Log(Del(t), StepDel(world, t));
      }
    }

    // ack: XACK, then XDEL.  When it completes, the entry is off the pending list and the stream.
    method AckEntry(t: TaskId, msg: Message, cause: Cause, result: Result) returns (flow: Flow)
      requires Valid() && Stands(t, msg, Acking(cause, result))
      modifies this`redis, this`world, this`schedule, this`states, this`actions, this`notes, this`breaks
      ensures Continues(old(states), old(actions)) && EndsFinalising(old(breaks), flow, cause) && !flow.Unavailable?
      ensures Seen(t).stored == old(Seen(t).stored) && Seen(t).answer == old(Seen(t).answer)
      ensures flow.Done? ==> Stands(t, msg, Leaving(cause, result))
      ensures flow.Done? ==> msg.entry !in redis.stream && msg.entry !in redis.pending
      ensures flow.Thrown? ==> Finalises(t, msg, cause)
    {
      flow := XackEntry(t, msg, cause, result);
      if flow.Done? {
        flow := XdelEntry(t, msg, cause, result);
      }
      if flow.Done? {
        OffPending(t);
      }
    }

    lemma OffPending(t: TaskId)
      requires Traced() && t in world.tasks && Acked(world.tasks[t].pc)
      ensures world.tasks[t].entry !in world.redis.pending
    {
      RunInv(c, states, actions, |actions|);
      assert TaskOk(world, world.tasks[t]);
    }

    // XADD to the dead-letter stream.
    method ParkPayload(t: TaskId, msg: Message, cause: Cause, result: Result) returns (flow: Flow)
      requires Valid() && Stands(t, msg, Parking(cause, result))
      modifies this`redis, this`world, this`schedule, this`states, this`actions, this`notes, this`breaks
      ensures Continues(old(states), old(actions)) && EndsFinalising(old(breaks), flow, cause) && !flow.Unavailable?
      ensures Seen(t) == old(Seen(t))
      ensures flow.Done? ==> Stands(t, msg, Acking(cause, result))
      ensures flow.Thrown? ==> Finalises(t, msg, cause)
    {
      var effective;
      effective, flow := Pause(t, false);
      if effective {
        redis := redis.(dead := redis.dead + [msg.payload]);
        Log(Park(t), Move(world, t, Acking(cause, result)).(redis := redis));
      }
    }

    // What was parked stays parked.
    lemma StaysParked(t: TaskId)
      requires Traced() && t in world.tasks && PastParking(world.tasks[t].pc)
      ensures world.tasks[t].payload in world.redis.dead
    {
      RunParked(c, states, actions, |actions|);
      assert Parked(world.redis, world.tasks[t]);
    }

    // dead_letter: XADD to the dead-letter stream, then ack.
    method DeadLetter(t: TaskId, msg: Message, cause: Cause, result: Result) returns (flow: Flow)
      requires Valid() && Stands(t, msg, Parking(cause, result)) && (cause == Poison || cause == Malformed)
      modifies this`redis, this`world, this`schedule, this`states, this`actions, this`notes, this`breaks
      ensures Continues(old(states), old(actions)) && EndsFinalising(old(breaks), flow, cause) && !flow.Unavailable?
      ensures Seen(t).stored == old(Seen(t).stored) && Seen(t).answer == old(Seen(t).answer)
      ensures flow.Done? ==> Stands(t, msg, Leaving(cause, result))
      ensures flow.Done? ==> msg.entry !in redis.stream && msg.entry !in redis.pending && msg.payload in redis.dead
      ensures flow.Thrown? ==> Finalises(t, msg, cause)
    {
      flow := ParkPayload(t, msg, cause, result);
      if flow.Done? {
        flow := AckEntry(t, msg, cause, result);
      }
      if flow.Done? {
        StaysParked(t);
      }
    }

    // ---- WorkerDaemon ----------------------------------------------------------------------------

    // publisher.done: no key is touched.
    method PublishDone(t: TaskId, msg: Message, cause: Cause, result: Result) returns (flow: Flow)
      requires Valid() && Stands(t, msg, Publishing(cause, result))
      modifies this`redis, this`world, this`schedule, this`states, this`actions, this`notes, this`breaks, this`published
      ensures Continues(old(states), old(actions)) && EndsFinalising(old(breaks), flow, cause) && !flow.Unavailable?
      ensures Seen(t) == old(Seen(t))
      ensures flow.Done? ==> Stands(t, msg, AfterPublish(cause, result))
      ensures flow.Done? ==> published == old(published) + [(msg.payload.jobId, result)]
      ensures flow.Thrown? ==> Finalises(t, msg, cause)
    {
      var effective;
      effective, flow := Pause(t, false);
      if effective {
        published := published + [(msg.payload.jobId, result)];
        Log(Publish(t), Move(world, t, AfterPublish(cause, result)));
      }
    }

    // Store and publish: the common tail of _run_job, _finalize_failed and _finalize_cancelled.
    method Finalize(t: TaskId, msg: Message, cause: Cause, result: Result) returns (flow: Flow)
      requires Valid() && Stands(t, msg, Storing(cause, result)) && (cause == Malformed ==> msg.payload.jobId != "")
      modifies this`redis, this`world, this`schedule, this`states, this`actions, this`notes, this`breaks, this`published
      ensures Continues(old(states), old(actions)) && EndsFinalising(old(breaks), flow, cause) && !flow.Unavailable?
      ensures Seen(t).acks == old(Seen(t).acks) && Seen(t).answer == old(Seen(t).answer)
      ensures flow.Done? ==> Stands(t, msg, AfterPublish(cause, result))
      ensures flow.Done? ==> Seen(t).stored == Some((msg.payload.jobId, result)) && msg.payload.jobId in redis.results
      ensures flow.Done? ==> (msg.payload.jobId, result) in published
      ensures flow.Thrown? ==> Finalises(t, msg, cause)
    {
      flow := StoreTerminal(t, msg, cause, result);
      if flow.Done? {
        flow := PublishDone(t, msg, cause, result);
        if flow.Done? {
          HasResult(t);
        }
      }
    }

    // _run_job: mark the record, execute, store and publish what the executor returned.
    method RunJob(t: TaskId, msg: Message, outcome: Outcome) returns (flow: Flow)
      requires Valid() && Stands(t, msg, Starting)
      modifies this`redis, this`world, this`schedule, this`states, this`actions, this`notes, this`breaks, this`published
      ensures Continues(old(states), old(actions)) && EndsTrying(old(breaks), flow)
      ensures Seen(t).acks == old(Seen(t).acks) && Seen(t).answer == old(Seen(t).answer)
      ensures flow.Done? ==> Stands(t, msg, Acking(Ran, outcome))
      ensures flow.Done? ==> Seen(t).stored == Some((msg.payload.jobId, outcome)) && msg.payload.jobId in redis.results
      ensures flow.Done? ==> (msg.payload.jobId, outcome) in published
      ensures flow.Thrown? || flow.Unavailable? ==> Trying(t, msg)
    {
      flow := MarkAndExecute(t, msg, outcome);
      if flow.Done? {
        flow := Finalize(t, msg, Ran, outcome);
      }
    }

    method MarkAndExecute(t: TaskId, msg: Message, outcome: Outcome) returns (flow: Flow)
      requires Valid() && Stands(t, msg, Starting)
      modifies this`redis, this`world, this`schedule, this`states, this`actions, this`notes, this`breaks
      ensures Continues(old(states), old(actions)) && EndsTrying(old(breaks), flow)
      ensures Seen(t) == old(Seen(t))
      ensures flow.Done? ==> Stands(t, msg, Storing(Ran, outcome))
      ensures flow.Thrown? || flow.Unavailable? ==> Trying(t, msg)
    {
      flow := SetRunningRecord(t, msg);
      if flow.Done? {
        flow := Execute(t, msg, outcome);
      }
    }

    // publisher.status, then the executor.
    method Execute(t: TaskId, msg: Message, outcome: Outcome) returns (flow: Flow)
      requires Valid() && Stands(t, msg, Executing)
      modifies this`redis, this`world, this`schedule, this`states, this`actions, this`notes, this`breaks
      ensures Continues(old(states), old(actions)) && EndsTrying(old(breaks), flow)
      ensures Seen(t) == old(Seen(t))
      ensures flow.Done? ==> Stands(t, msg, Storing(Ran, outcome))
      ensures flow.Thrown? || flow.Unavailable? ==> Trying(t, msg)
    {
      var effective;
      effective, flow := Pause(t, false);
      if !flow.Done? {
        return;
      }
      effective, flow := Pause(t, true);
      if effective {
        Log(Finish(t, outcome), Move(world, t, Storing(Ran, outcome)));
      }
    }

    // How the body of _process can end for task t: at its return, with everything done; or where it
    // stood when it was left, and with Docker unavailable certainly before any acknowledgement.
    ghost predicate Ended(t: TaskId, msg: Message, flow: Flow, result: Result)
      reads this
    {
      && (!flow.Gone? ==> t in world.tasks)
      && (flow.Done? ==> world.tasks[t].pc.Leaving? && Cleared(t, msg, result))
      && (flow.Unavailable? ==> Seen(t).acks == 0)
    }

    // The entry is gone, the job has a result, the last result this task stored is the given one and
    // has been published, the release of the slot has been asked for, and the payload is parked if it
    // has to be.
    ghost predicate Cleared(t: TaskId, msg: Message, result: Result)
      reads this
    {
      && msg.entry !in redis.stream && msg.entry !in redis.pending
      && (msg.payload.jobId != "" ==> msg.payload.jobId in redis.results)
      && (msg.payload.jobId != "" ==> Recorded(t, msg, result))
      && (msg.payload.userId != "" ==> (msg.payload.userId, msg.payload.jobId) in releaseCalls)
      && (Parks(c, msg) ==> msg.payload in redis.dead)
    }

    ghost predicate Recorded(t: TaskId, msg: Message, result: Result)
      reads this
    {
      Seen(t).stored == Some((msg.payload.jobId, result)) && (msg.payload.jobId, result) in published
    }

    // Finalise, release the slot, acknowledge.
    method FinalizeAndAck(t: TaskId, msg: Message, cause: Cause, result: Result) returns (flow: Flow)
      requires Valid() && Stands(t, msg, Storing(cause, result))
      requires (cause == CancelledAtPickup || cause == Raised) && !Parks(c, msg)
      modifies this
      ensures Continues(old(states), old(actions)) && EndsFinalising(old(breaks), flow, cause) && !flow.Unavailable?
      ensures Ended(t, msg, flow, result) && Seen(t).answer == old(Seen(t).answer)
    {
      flow := Finalize(t, msg, cause, result);
      if flow.Done? {
        flow := ReleaseAndAck(t, msg, cause, result);
      }
    }

    method ReleaseAndAck(t: TaskId, msg: Message, cause: Cause, result: Result) returns (flow: Flow)
      requires Valid() && Stands(t, msg, Acking(cause, result)) && cause != Poison && cause != Malformed && !Parks(c, msg)
      requires Recorded(t, msg, result)
      modifies this`redis, this`world, this`schedule, this`states, this`actions, this`notes, this`breaks, this`releaseCalls
      ensures Continues(old(states), old(actions)) && EndsFinalising(old(breaks), flow, cause) && !flow.Unavailable?
      ensures flow.Done? ==> Stands(t, msg, Leaving(cause, result)) && Cleared(t, msg, result)
      ensures flow.Thrown? ==> Finalises(t, msg, cause)
      ensures Seen(t).answer == old(Seen(t).answer)
    {
      flow := ReleaseSlot(t, msg);
      if flow.Done? {
        flow := AckEntry(t, msg, cause, result);
      }
      if flow.Done? {
        HasResult(t);
      }
    }

    method ReleaseAndPark(t: TaskId, msg: Message, cause: Cause, result: Result) returns (flow: Flow)
      requires Valid() && Stands(t, msg, Parking(cause, result)) && (cause == Poison || cause == Malformed)
      requires msg.payload.jobId != "" ==> Recorded(t, msg, result)
      modifies this`redis, this`world, this`schedule, this`states, this`actions, this`notes, this`breaks, this`releaseCalls
      ensures Continues(old(states), old(actions)) && EndsFinalising(old(breaks), flow, cause) && !flow.Unavailable?
      ensures Ended(t, msg, flow, result)
    {
      flow := ReleaseSlot(t, msg);
      if flow.Done? {
        flow := DeadLetter(t, msg, cause, result);
      }
      if flow.Done? {
        HasResult(t);
      }
    }

    // The two dead-letter branches: finalise the job unless a malformed one has no id, release, park.
    method GiveUp(t: TaskId, msg: Message, cause: Cause, result: Result) returns (flow: Flow)
      requires Valid() && Stands(t, msg, if cause == Malformed && msg.payload.jobId == "" then Parking(cause, result)
                                         else Storing(cause, result))
      requires cause == Poison || cause == Malformed
      modifies this
      ensures Continues(old(states), old(actions)) && EndsFinalising(old(breaks), flow, cause) && !flow.Unavailable?
      ensures Ended(t, msg, flow, result)
    {
      flow := Done;
      if cause == Poison || msg.payload.jobId != "" {
        flow := Finalize(t, msg, cause, result);
      }
      if flow.Done? {
        flow := ReleaseAndPark(t, msg, cause, result);
      }
    }

    // The try statement: run and acknowledge; leave the entry pending when Docker is unavailable;
    // record any other exception as a failure, over whatever was stored, and acknowledge.
    method TryJob(t: TaskId, msg: Message, outcome: Outcome) returns (flow: Flow, result: Result)
      requires Valid() && Stands(t, msg, Starting) && !Parks(c, msg) && Seen(t).acks == 0
      modifies this
      ensures Continues(old(states), old(actions)) && Ended(t, msg, flow, result)
      ensures Seen(t).answer == old(Seen(t).answer)
      ensures old(breaks) <= breaks && TryAccount(breaks[|old(breaks)|..], flow, outcome, result)
    {
      result := outcome;
      flow := RunAndAck(t, msg, outcome);
      ghost var first := flow;
      if flow.Thrown? {
        flow, result := HandleError(t, msg, flow.error);
      }
      if first.Thrown? {
        assert breaks[|old(breaks)|..][1..] == breaks[|old(breaks)| + 1..];
      }
    }

    // The body of the try.
    method RunAndAck(t: TaskId, msg: Message, outcome: Outcome) returns (flow: Flow)
      requires Valid() && Stands(t, msg, Starting) && !Parks(c, msg) && Seen(t).acks == 0
      modifies this
      ensures Continues(old(states), old(actions)) && EndsTrying(old(breaks), flow)
      ensures !flow.Thrown? ==> Ended(t, msg, flow, outcome)
      ensures flow.Thrown? ==> Trying(t, msg)
      ensures Seen(t).answer == old(Seen(t).answer)
    {
      flow := RunJob(t, msg, outcome);
      if flow.Done? {
        flow := ReleaseAndAck(t, msg, Ran, outcome);
      }
    }

    // The handler of the try: whatever the task was about to do, it now records a failure.
    method HandleError(t: TaskId, msg: Message, error: Error) returns (flow: Flow, result: Result)
      requires Valid() && Trying(t, msg) && !Parks(c, msg)
      modifies this
      ensures Continues(old(states), old(actions)) && !flow.Unavailable? && Ended(t, msg, flow, result)
      ensures Seen(t).answer == old(Seen(t).answer)
      ensures EndsFinalising(old(breaks), flow, Raised) && result == Result(FAILED, Detail(error))
    {
      result := Result(FAILED, Detail(error));
      Log(Raise(t, Detail(error)), Move(world, t, Storing(Raised, result)));
      flow := FinalizeAndAck(t, msg, Raised, result);
    }

    // Too many deliveries: a terminal FAILED result, then the dead-letter stream.
    method AbandonPoison(t: TaskId, msg: Message) returns (flow: Flow, result: Result)
      requires Valid() && Stands(t, msg, Fetched) && msg.seen > c.maxRetries
      modifies this
      ensures Continues(old(states), old(actions)) && Ended(t, msg, flow, result)
      ensures Ends(old(breaks), flow) && !flow.Unavailable? && result == POISON_RESULT
    {
      result := Result(FAILED, Detail(MaxRetries));
      Log(Begin(t), Move(world, t, Storing(Poison, result)));
      flow := GiveUp(t, msg, Poison, result);
    }

    method AbandonMalformed(t: TaskId, msg: Message) returns (flow: Flow, result: Result)
      requires Valid() && Stands(t, msg, Fetched) && msg.seen <= c.maxRetries && !msg.payload.wellFormed
      modifies this
      ensures Continues(old(states), old(actions)) && Ended(t, msg, flow, result)
      ensures Ends(old(breaks), flow) && !flow.Unavailable? && result == MALFORMED_RESULT
    {
      result := Result(FAILED, Detail(SandboxFailure));
      Log(Begin(t), Move(world, t, if msg.payload.jobId != "" then Storing(Malformed, result) else Parking(Malformed, result)));
      flow := GiveUp(t, msg, Malformed, result);
    }

    // A request that decodes: skip it if it was cancelled, else run it.
    method CheckAndRun(t: TaskId, msg: Message, outcome: Outcome) returns (flow: Flow, result: Result)
      requires Valid() && Stands(t, msg, Fetched) && !Parks(c, msg)
      modifies this
      ensures Continues(old(states), old(actions)) && Ended(t, msg, flow, result)
      ensures old(breaks) <= breaks
      ensures Account(c, msg, Seen(t).answer, breaks[|old(breaks)|..], flow, outcome, result)
    {
      Log(Begin(t), Move(world, t, Checking));
      var cancelled;
      flow, cancelled := IsCancelled(t, msg);
      result := Result(KILLED, "");
      if flow.Done? {
        flow, result := RunUnless(cancelled, t, msg, outcome);
      }
    }

    // The branches after the cancel check.
    method RunUnless(cancelled: bool, t: TaskId, msg: Message, outcome: Outcome) returns (flow: Flow, result: Result)
      requires Valid() && !Parks(c, msg) && Seen(t).acks == 0 && Seen(t).answer == Some(cancelled)
      requires Stands(t, msg, if cancelled then Storing(CancelledAtPickup, CANCELLED_RESULT) else Starting)
      modifies this
      ensures Continues(old(states), old(actions)) && Ended(t, msg, flow, result)
      ensures Seen(t).answer == Some(cancelled) && old(breaks) <= breaks
      ensures Account(c, msg, Some(cancelled), breaks[|old(breaks)|..], flow, outcome, result)
    {
      if cancelled {
        result := Result(KILLED, "");
        flow := FinalizeAndAck(t, msg, CancelledAtPickup, result);
      } else {
        flow, result := TryJob(t, msg, outcome);
      }
    }

    // The body of _process: its branches in order.
    method Attempt(t: TaskId, msg: Message, outcome: Outcome) returns (flow: Flow, result: Result)
      requires Valid() && Stands(t, msg, Fetched)
      modifies this
      ensures Continues(old(states), old(actions)) && Ended(t, msg, flow, result)
      ensures old(breaks) <= breaks
      ensures Account(c, msg, Seen(t).answer, breaks[|old(breaks)|..], flow, outcome, result)
    {
      if msg.seen > c.maxRetries {
        flow, result := AbandonPoison(t, msg);
      } else if !msg.payload.wellFormed {
        flow, result := AbandonMalformed(t, msg);
      } else {
        flow, result := CheckAndRun(t, msg, outcome);
      }
    }

    // _process.  Whatever the schedule, what happens is a run of the protocol.  When it returns
    // normally the entry is off the stream and the pending list, the slot's release has been asked
    // for, a poison or malformed payload is in the dead-letter stream, and the last result this task
    // stored under the job id, and published, is the one `Account` calls for.  When it does not, some
    // await ended it; when Docker was unavailable the task ends without ever having acknowledged.
    method Process(t: TaskId, msg: Message, outcome: Outcome) returns (flow: Flow, result: Result)
      requires Valid() && Stands(t, msg, Fetched)
      modifies this
      ensures Continues(old(states), old(actions))
      ensures flow.Gone? || t !in world.tasks
      ensures flow.Done? ==> Cleared(t, msg, result)
      ensures old(breaks) <= breaks
      ensures Account(c, msg, Seen(t).answer, breaks[|old(breaks)|..], flow, outcome, result)
      ensures flow.Unavailable? ==> Seen(t).acks == 0
    {
      flow, result := Attempt(t, msg, outcome);
      if !flow.Gone? {
        Leave(t, flow);
      }
    }

    // The coroutine ends: with a return, or with an exception nobody catches.
    method Leave(t: TaskId, flow: Flow)
      requires Valid() && t in world.tasks && (flow.Done? ==> world.tasks[t].pc.Leaving?)
      modifies this`world, this`states, this`actions, this`notes
      ensures Continues(old(states), old(actions)) && t !in world.tasks && notes == old(notes)
    {
      Log(if flow.Done? then Return(t) else Abandon(t), Drop(world, t));
    }
  }
}
