/**
 What every step of the protocol keeps, and what follows for whole runs: no job is lost, results are
 stored before entries are acknowledged, and the stream holds exactly the unfinished work apart from
 half-done acknowledgements.
 */
module JobSafety {
  import opened RedisModel
  import opened JobProtocol

  // ---------------------------------------------------------------- the invariant

  /** The stream, the group's cursor and the pending list fit together. */
  ghost predicate StreamOk(s: System) {
    var r := s.redis;
    && r.cursor <= r.nextId
    && (forall id: EntryId :: id in s.hist.enqueued <==> id < r.nextId)
    && (forall id: EntryId :: r.cursor <= id < r.nextId ==> id in r.stream)
    && (forall id :: id in r.stream ==> id in s.hist.enqueued && r.stream[id] == s.hist.enqueued[id])
    && (forall id :: id in r.pending ==> id in r.stream && id < r.cursor)
  }

  /** Every entry of the stream is undelivered, pending, or acknowledged and not yet deleted. */
  ghost predicate Accounted(s: System) {
    var r := s.redis;
    && (forall id :: id in r.stream ==> id >= r.cursor || id in r.pending || id in s.hist.halfAcked)
    && (forall id :: id in s.hist.halfAcked ==> id in r.stream && id < r.cursor && id !in r.pending)
    && (forall id :: id in s.hist.halfAcked ==> id in s.hist.orphans || Holds(s, s.hist.halfAcked[id], id))
  }

  /** `t` still has the XDEL of `id` ahead of it. */
  ghost predicate Holds(s: System, t: TaskId, id: EntryId) {
    t in s.tasks && s.tasks[t].entry == id && Holding(s.tasks[t].pc)
  }

  /** Between XACK and XDEL, or in the exception handler on the way back there. */
  predicate Holding(pc: Pc) {
    pc.Deleting? || (Finalising(pc) && pc.cause == Raised && !pc.Leaving?)
  }

  /** What a task's program counter promises about the keys and the pending list. */
  ghost predicate PcOk(s: System, task: Task) {
    && (Finalising(task.pc) ==> Terminal(task.pc.result.status))
    && (Stored(task.pc) ==>
          task.payload.jobId in s.redis.results || (task.pc.cause == Malformed && task.payload.jobId == ""))
    && (Acked(task.pc) ==> task.entry !in s.redis.pending)
  }

  ghost predicate TaskOk(s: System, task: Task) {
    && task.entry < s.redis.cursor
    && task.entry in s.hist.enqueued && task.payload == s.hist.enqueued[task.entry]
    && PcOk(s, task)
  }

  ghost predicate TasksOk(s: System) {
    forall t :: t in s.tasks ==> TaskOk(s, s.tasks[t])
  }

  predicate Departed(s: System, id: EntryId) {
    id < s.redis.cursor && id !in s.redis.pending
  }

  /** Whatever left the pending list has a result under its job id. */
  ghost predicate ResultBeforeAck(s: System) {
    forall id :: id in s.hist.enqueued && Departed(s, id) && s.hist.enqueued[id].jobId != ""
      ==> s.hist.enqueued[id].jobId in s.redis.results
  }

  ghost predicate ResultsTerminal(s: System) {
    forall job :: job in s.redis.results ==> Terminal(s.redis.results[job].value.status)
  }

  ghost predicate DistinctJobs(s: System) {
    forall i, j :: i in s.hist.enqueued && j in s.hist.enqueued && i != j ==>
      s.hist.enqueued[i].jobId != s.hist.enqueued[j].jobId || s.hist.enqueued[i].jobId == ""
  }

  ghost predicate Inv(s: System) {
    && StreamOk(s) && Accounted(s) && TasksOk(s)
    && ResultBeforeAck(s) && ResultsTerminal(s) && DistinctJobs(s)
  }

  // ---------------------------------------------------------------- preservation

  /** A command that touches neither the stream nor the group, and only adds terminal results. */
  ghost predicate KeysOnly(r: Redis, r': Redis) {
    && r'.nextId == r.nextId && r'.stream == r.stream && r'.cursor == r.cursor && r'.pending == r.pending
    && (forall job :: job in r.results ==> job in r'.results)
    && (forall job :: job in r'.results ==>
          Terminal(r'.results[job].value.status) || (job in r.results && r'.results[job] == r.results[job]))
  }

  /** The program counter of `t` and some keys may have changed, the stream and the group have not. */
  ghost predicate Moved(s: System, s': System, t: TaskId) {
    && KeysOnly(s.redis, s'.redis)
    && s'.hist.(runs := s.hist.runs, ran := s.hist.ran) == s.hist
    && s'.tasks.Keys == s.tasks.Keys
    && (forall u :: u in s.tasks && u != t ==> s'.tasks[u] == s.tasks[u])
    && (t in s.tasks ==>
          && s'.tasks[t] == s.tasks[t].(pc := s'.tasks[t].pc) && TaskOk(s', s'.tasks[t])
          && (Holding(s.tasks[t].pc) ==> Holding(s'.tasks[t].pc)))
  }

  lemma MovedKept(s: System, s': System, t: TaskId)
    requires Inv(s) && Moved(s, s', t)
    ensures Inv(s')
  {
    forall u | u in s'.tasks ensures TaskOk(s', s'.tasks[u]) {
      assert TaskOk(s, s.tasks[u]);
    }
    forall id | id in s'.hist.halfAcked
      ensures id in s'.hist.orphans || Holds(s', s'.hist.halfAcked[id], id)
    {
      assert id in s.hist.orphans || Holds(s, s.hist.halfAcked[id], id);
    }
  }

  lemma SilentPcOk(c: Config, s: System, a: Action, s': System)
    requires Silent(a) && a.task in s.tasks && TaskStep(c, s, a, s.tasks[a.task], s') && PcOk(s, s.tasks[a.task])
    ensures a.task in s'.tasks && PcOk(s', s'.tasks[a.task])
    ensures Holding(s.tasks[a.task].pc) ==> Holding(s'.tasks[a.task].pc)
  {
  }

  lemma WriterPcOk(c: Config, s: System, a: Action, s': System)
    requires WritesKeys(a) && a.task in s.tasks && TaskStep(c, s, a, s.tasks[a.task], s') && PcOk(s, s.tasks[a.task])
    ensures a.task in s'.tasks && PcOk(s', s'.tasks[a.task])
    ensures Holding(s.tasks[a.task].pc) ==> Holding(s'.tasks[a.task].pc)
  {
  }

  lemma SilentMoved(c: Config, s: System, a: Action, s': System)
    requires Silent(a) && Step(c, s, a, s') && TaskOk(s, s.tasks[a.task])
    ensures Moved(s, s', a.task)
  {
    SilentPcOk(c, s, a, s');
  }

  lemma WriterMoved(c: Config, s: System, a: Action, s': System)
    requires WritesKeys(a) && Step(c, s, a, s') && TaskOk(s, s.tasks[a.task])
    ensures Moved(s, s', a.task)
  {
    WriterPcOk(c, s, a, s');
  }

  lemma MoveKept(c: Config, s: System, a: Action, s': System)
    requires Inv(s) && Moves(a) && Step(c, s, a, s')
    ensures Moved(s, s', a.task) && Inv(s')
  {
    if Silent(a) {
      SilentMoved(c, s, a, s');
    } else {
      WriterMoved(c, s, a, s');
    }
    MovedKept(s, s', a.task);
  }

  /** Steps of the API, the clock and the claim passes that touch neither stream nor tasks. */
  predicate Outside(a: Action) {
    a.Tick? || a.DeleteRead? || a.DeleteCommit? || a.List? || a.EndPass?
  }

  lemma OutsideKept(c: Config, s: System, a: Action, s': System)
    requires Inv(s) && Outside(a) && Step(c, s, a, s')
    ensures Inv(s')
  {
    QuietKept(s, s');
  }

  lemma QuietKept(s: System, s': System)
    requires Inv(s) && KeysOnly(s.redis, s'.redis) && s'.tasks == s.tasks && s'.hist == s.hist
    ensures Inv(s')
  {
    assert 0 in s.tasks ==> TaskOk(s, s.tasks[0]);
    MovedKept(s, s', 0);
  }

  lemma SubmitKept(s: System, payload: Payload, withRecord: bool)
    requires Inv(s)
    requires payload.jobId == "" || forall id :: id in s.hist.enqueued ==> s.hist.enqueued[id].jobId != payload.jobId
    ensures Inv(StepSubmit(s, payload, withRecord))
  {
    var s' := StepSubmit(s, payload, withRecord);
    SubmitTasks(s, payload, withRecord);
    SubmitAccounted(s, payload, withRecord);
  }

  lemma SubmitTasks(s: System, payload: Payload, withRecord: bool)
    requires StreamOk(s) && TasksOk(s)
    ensures TasksOk(StepSubmit(s, payload, withRecord))
  {
    var s' := StepSubmit(s, payload, withRecord);
    forall t | t in s'.tasks ensures TaskOk(s', s'.tasks[t]) {
      assert TaskOk(s, s.tasks[t]);
    }
  }

  lemma SubmitAccounted(s: System, payload: Payload, withRecord: bool)
    requires StreamOk(s) && Accounted(s)
    ensures StreamOk(StepSubmit(s, payload, withRecord)) && Accounted(StepSubmit(s, payload, withRecord))
  {
    var s' := StepSubmit(s, payload, withRecord);
    forall id | id in s'.hist.halfAcked ensures id in s'.hist.orphans || Holds(s', s'.hist.halfAcked[id], id) {
      assert id in s.hist.orphans || Holds(s, s.hist.halfAcked[id], id);
    }
  }

  /** A delivery, first or repeated: the entry is pending and a task has been made for it. */
  ghost predicate Delivery(s: System, s': System, id: EntryId, t: TaskId) {
    && id in s.redis.stream && t !in s.tasks
    && (id == s.redis.cursor || id in s.redis.pending)
    && s'.redis.cursor == (if id == s.redis.cursor then id + 1 else s.redis.cursor)
    && s'.redis.pending.Keys == s.redis.pending.Keys + {id}
    && s'.redis.nextId == s.redis.nextId && s'.redis.stream == s.redis.stream
    && s'.redis.results == s.redis.results && s'.hist == s.hist
    && t in s'.tasks && s'.tasks == s.tasks[t := s'.tasks[t]]
    && s'.tasks[t].pc.Fetched? && s'.tasks[t].entry == id && s'.tasks[t].payload == s.redis.stream[id]
  }

  lemma DeliveryTasksOk(s: System, s': System, id: EntryId, t: TaskId)
    requires StreamOk(s) && TasksOk(s) && Delivery(s, s', id, t)
    ensures TasksOk(s')
  {
    forall u | u in s'.tasks ensures TaskOk(s', s'.tasks[u]) {
      assert u != t ==> TaskOk(s, s.tasks[u]);
    }
  }

  lemma DeliveryAccounted(s: System, s': System, id: EntryId, t: TaskId)
    requires StreamOk(s) && Accounted(s) && Delivery(s, s', id, t)
    ensures StreamOk(s') && Accounted(s')
  {
    forall i | i in s'.hist.halfAcked
      ensures i in s'.hist.orphans || Holds(s', s'.hist.halfAcked[i], i)
    {
      assert i in s.hist.orphans || Holds(s, s.hist.halfAcked[i], i);
    }
  }

  lemma DeliveryKept(s: System, s': System, id: EntryId, t: TaskId)
    requires Inv(s) && Delivery(s, s', id, t)
    ensures Inv(s')
  {
    DeliveryTasksOk(s, s', id, t);
    DeliveryAccounted(s, s', id, t);
  }

  lemma ClaimKept(c: Config, s: System, w: WorkerId, t: TaskId)
    requires Inv(s) && t !in s.tasks && w in s.passes && s.passes[w].todo != []
    ensures Inv(StepClaim(c, s, w, t))
  {
    var id, s' := s.passes[w].todo[0].0, StepClaim(c, s, w, t);
    if Claimable(c, s.redis, id) {
      DeliveryKept(s, s', id, t);
    } else {
      QuietKept(s, s');
    }
  }

  lemma AckTasksOk(s: System, t: TaskId)
    requires TasksOk(s) && t in s.tasks && s.tasks[t].pc.Acking?
    ensures TasksOk(StepAck(s, t))
  {
    var s' := StepAck(s, t);
    forall u | u in s'.tasks ensures TaskOk(s', s'.tasks[u]) {
      assert TaskOk(s, s.tasks[u]);
    }
  }

  lemma AckAccounted(s: System, t: TaskId)
    requires StreamOk(s) && Accounted(s) && t in s.tasks && s.tasks[t].pc.Acking?
    ensures Accounted(StepAck(s, t))
  {
    var s' := StepAck(s, t);
    forall id | id in s'.hist.halfAcked
      ensures id in s'.hist.orphans || Holds(s', s'.hist.halfAcked[id], id)
    {
      assert id in s.hist.halfAcked ==> id in s.hist.orphans || Holds(s, s.hist.halfAcked[id], id);
    }
  }

  /** Acknowledging is safe because the task has already stored a result. */
  lemma AckStored(s: System, t: TaskId)
    requires TasksOk(s) && ResultBeforeAck(s) && t in s.tasks && s.tasks[t].pc.Acking?
    ensures ResultBeforeAck(StepAck(s, t))
  {
    var s' := StepAck(s, t);
    assert TaskOk(s, s.tasks[t]);
    forall id | id in s.hist.enqueued && Departed(s', id) && s.hist.enqueued[id].jobId != ""
      ensures s.hist.enqueued[id].jobId in s'.redis.results
    {
      assert id == s.tasks[t].entry || Departed(s, id);
    }
  }

  lemma AckKept(s: System, t: TaskId)
    requires Inv(s) && t in s.tasks && s.tasks[t].pc.Acking?
    ensures Inv(StepAck(s, t))
  {
    AckTasksOk(s, t);
    AckAccounted(s, t);
    AckStored(s, t);
  }

  lemma DelTasksOk(s: System, t: TaskId)
    requires TasksOk(s) && t in s.tasks && s.tasks[t].pc.Deleting?
    ensures TasksOk(StepDel(s, t))
  {
    var s' := StepDel(s, t);
    forall u | u in s'.tasks ensures TaskOk(s', s'.tasks[u]) {
      assert TaskOk(s, s.tasks[u]);
    }
  }

  lemma DelAccounted(s: System, t: TaskId)
    requires StreamOk(s) && Accounted(s) && t in s.tasks && TaskOk(s, s.tasks[t]) && s.tasks[t].pc.Deleting?
    ensures StreamOk(StepDel(s, t)) && Accounted(StepDel(s, t))
  {
    var s' := StepDel(s, t);
    forall id | id in s'.hist.halfAcked
      ensures id in s'.hist.orphans || Holds(s', s'.hist.halfAcked[id], id)
    {
      assert id in s.hist.orphans || Holds(s, s.hist.halfAcked[id], id);
    }
  }

  lemma DelKept(s: System, t: TaskId)
    requires Inv(s) && t in s.tasks && s.tasks[t].pc.Deleting?
    ensures Inv(StepDel(s, t))
  {
    DelTasksOk(s, t);
    DelAccounted(s, t);
  }

  lemma DropKept(s: System, t: TaskId)
    requires Inv(s) && t in s.tasks
    ensures Inv(Drop(s, t))
  {
    var s' := Drop(s, t);
    forall u | u in s'.tasks ensures TaskOk(s', s'.tasks[u]) {
      assert TaskOk(s, s.tasks[u]);
    }
    forall id | id in s'.hist.halfAcked
      ensures id in s'.hist.orphans || Holds(s', s'.hist.halfAcked[id], id)
    {
      assert id in s.hist.orphans || Holds(s, s.hist.halfAcked[id], id);
    }
  }

  lemma ReadKept(s: System, w: WorkerId, t: TaskId)
    requires Inv(s) && t !in s.tasks && s.redis.cursor in s.redis.stream
    ensures Inv(StepRead(s, w, t))
  {
    DeliveryKept(s, StepRead(s, w, t), s.redis.cursor, t);
  }

  lemma StreamStepKept(c: Config, s: System, a: Action, s': System)
    requires Inv(s) && Step(c, s, a, s')
    requires !Moves(a) && !Outside(a)
    ensures Inv(s')
  {
    match a
    case Submit(job, user, wellFormed) => SubmitKept(s, Payload(job, user, wellFormed), true);
    case Foreign => SubmitKept(s, Payload("", "", false), false);
    case Read(w, t) => ReadKept(s, w, t);
    case Claim(w, t) => ClaimKept(c, s, w, t);
    case Ack(t) => AckKept(s, t);
    case Del(t) => DelKept(s, t);
    case Return(t) => DropKept(s, t);
    case Abandon(t) => DropKept(s, t);
  }

  /** Every step keeps the invariant. */
  lemma InvKept(c: Config, s: System, a: Action, s': System)
    requires Inv(s) && Step(c, s, a, s')
    ensures Inv(s')
  {
    if Moves(a) {
      MoveKept(c, s, a, s');
    } else if Outside(a) {
      OutsideKept(c, s, a, s');
    } else {
      StreamStepKept(c, s, a, s');
    }
  }

  lemma {:induction false} RunInv(c: Config, states: seq<System>, actions: seq<Action>, i: nat)
    requires IsRun(c, states, actions) && i < |states|
    ensures Inv(states[i])
  {
    if i == 0 {
      InitialInv(c, states, actions);
    } else {
      RunInv(c, states, actions, i - 1);
      InvKeptAt(c, states, actions, i);
    }
  }

  lemma InitialInv(c: Config, states: seq<System>, actions: seq<Action>)
    requires IsRun(c, states, actions)
    ensures Inv(states[0])
  {
  }

  lemma InvKeptAt(c: Config, states: seq<System>, actions: seq<Action>, i: nat)
    requires IsRun(c, states, actions) && 0 < i < |states| && Inv(states[i - 1])
    ensures Inv(states[i])
  {
    assert StepAt(c, states, actions, i - 1);
    InvKept(c, states[i - 1], actions[i - 1], states[i]);
  }

  // ---------------------------------------------------------------- results

  /** No job is lost: at every moment of every run each job the API enqueued is waiting, or pending,
      or has a terminal result stored under its id. */
  lemma NoJobLost(c: Config, states: seq<System>, actions: seq<Action>, i: nat, id: EntryId)
    requires IsRun(c, states, actions) && i < |states|
    requires id in states[i].hist.enqueued && states[i].hist.enqueued[id].jobId != ""
    ensures var r, job := states[i].redis, states[i].hist.enqueued[id].jobId;
            || (r.cursor <= id && id in r.stream)
            || id in r.pending
            || (job in r.results && Terminal(r.results[job].value.status))
  {
    RunInv(c, states, actions, i);
  }

  /** The queue-depth reading: XLEN counts the waiting and the pending entries and, besides them,
      only entries between the XACK and the XDEL of their acknowledgement. Such an entry still has a
      task on its way to the XDEL, unless that task was lost. */
  lemma StreamAccounting(c: Config, states: seq<System>, actions: seq<Action>, i: nat)
    requires IsRun(c, states, actions) && i < |states|
    ensures StreamBalance(states[i])
  {
    RunInv(c, states, actions, i);
    Balance(states[i]);
  }

  ghost predicate StreamBalance(s: System) {
    && s.redis.stream.Keys == Undelivered(s.redis) + s.redis.pending.Keys + s.hist.halfAcked.Keys
    && |s.redis.stream| == (s.redis.nextId - s.redis.cursor) + |s.redis.pending| + |s.hist.halfAcked|
    && forall id :: id in s.hist.halfAcked ==> id in s.hist.orphans || exists t :: Holds(s, t, id)
  }

  lemma Balance(s: System)
    requires Inv(s)
    ensures StreamBalance(s)
  {
    StreamParts(s);
    RangeSize(s.redis.cursor, s.redis.nextId, Undelivered(s.redis));
    UnionSize(Undelivered(s.redis), s.redis.pending.Keys, s.hist.halfAcked.Keys);
  }

  lemma StreamParts(s: System)
    requires StreamOk(s) && Accounted(s)
    ensures s.redis.stream.Keys == Undelivered(s.redis) + s.redis.pending.Keys + s.hist.halfAcked.Keys
    ensures Undelivered(s.redis) !! s.redis.pending.Keys !! s.hist.halfAcked.Keys
    ensures forall id :: id in s.hist.halfAcked ==> id in s.hist.orphans || exists t :: Holds(s, t, id)
  {
  }

  lemma UnionSize<T>(a: set<T>, b: set<T>, c: set<T>)
    requires a !! b !! c
    ensures |a + b + c| == |a| + |b| + |c|
  {
    assert |a + b| == |a| + |b|;
  }

  /** XLEN is exactly waiting plus pending if and only if no entry stands between its XACK and its
      XDEL, that is, every entry of the stream below the cursor is pending. */
  lemma QuietStreamLength(c: Config, states: seq<System>, actions: seq<Action>, i: nat)
    requires IsRun(c, states, actions) && i < |states|
    ensures var s := states[i];
            |s.redis.stream| == (s.redis.nextId - s.redis.cursor) + |s.redis.pending| <==>
            forall id :: id in s.redis.stream ==> !Departed(s, id)
  {
    StreamAccounting(c, states, actions, i);
    RunInv(c, states, actions, i);
    QuietMeans(states[i]);
  }

  lemma QuietMeans(s: System)
    requires StreamOk(s) && Accounted(s)
    ensures |s.hist.halfAcked| == 0 <==> forall id :: id in s.redis.stream ==> !Departed(s, id)
  {
    if s.hist.halfAcked != map[] {
      var id :| id in s.hist.halfAcked;
      assert id in s.redis.stream && Departed(s, id);
      assert s.hist.halfAcked.Keys != {};
    }
  }

  lemma {:induction false} RangeSize(lo: nat, hi: nat, ids: set<nat>)
    requires lo <= hi && forall id: nat :: id in ids <==> lo <= id < hi
    ensures |ids| == hi - lo
    decreases hi - lo
  {
    if lo < hi {
      RangeSize(lo + 1, hi, ids - {lo});
    } else {
      assert ids == {};
    }
  }

  /** An entry that is acknowledged, not deleted, and without a task: nothing will remove it. */
  ghost predicate Leaked(s: System, id: EntryId) {
    && id in s.redis.stream && Departed(s, id)
    && forall t :: t in s.tasks ==> s.tasks[t].entry != id
  }

  lemma LeakStep(c: Config, s: System, a: Action, s': System, id: EntryId)
    requires Inv(s) && Leaked(s, id) && Step(c, s, a, s')
    ensures Leaked(s', id)
  {
    if Moves(a) {
      MoveKept(c, s, a, s');
      LeakOutlivesMoves(s, s', a.task, id);
    } else {
      LeakOutlivesOthers(c, s, a, s', id);
    }
  }

  lemma LeakOutlivesMoves(s: System, s': System, t: TaskId, id: EntryId)
    requires Leaked(s, id) && Moved(s, s', t)
    ensures Leaked(s', id)
  {
    assert forall u :: u in s'.tasks ==> u in s.tasks && s'.tasks[u].entry == s.tasks[u].entry;
  }

  lemma LeakOutlivesOthers(c: Config, s: System, a: Action, s': System, id: EntryId)
    requires StreamOk(s) && Leaked(s, id) && Step(c, s, a, s') && !Moves(a)
    ensures Leaked(s', id)
  {
  }

  lemma {:induction false} LeakStays(
      c: Config, states: seq<System>, actions: seq<Action>, i: nat, k: nat, id: EntryId)
    requires IsRun(c, states, actions) && i <= k < |states| && Leaked(states[i], id)
    ensures Leaked(states[k], id)
    decreases k
  {
    if i < k {
      LeakStays(c, states, actions, i, k - 1, id);
      RunInv(c, states, actions, k - 1);
      assert StepAt(c, states, actions, k - 1);
      LeakStep(c, states[k - 1], actions[k - 1], states[k], id);
    }
  }

  /** A crash between XACK and XDEL leaves an entry in the stream for good: it is never delivered,
      claimed or deleted again, so from then on XLEN exceeds waiting plus pending. */
  lemma LeakIsPermanent(c: Config, states: seq<System>, actions: seq<Action>, i: nat, k: nat, id: EntryId)
    requires IsRun(c, states, actions) && i <= k < |states| && Leaked(states[i], id)
    ensures Leaked(states[k], id)
    ensures |states[k].redis.stream| > (states[k].redis.nextId - states[k].redis.cursor) + |states[k].redis.pending|
  {
    LeakStays(c, states, actions, i, k, id);
    StreamAccounting(c, states, actions, k);
    assert id in states[k].hist.halfAcked.Keys;
  }
}
