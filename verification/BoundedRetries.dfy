/**
 Delivery counts and the retry bound. A claim pass hands on the count XPENDING reported, not the one
 XCLAIM produced. If the pass claims each entry less than `minIdle` after listing it, that count is
 still the true number of earlier deliveries, and poison messages stop being run.
 */
module BoundedRetries {
  import opened RedisModel
  import opened JobProtocol
  import opened JobSafety

  /** No claim pass lets `minIdle` go by between its XPENDING and its XCLAIMs. */
  ghost predicate GapBounded(c: Config, s: System) {
    forall w :: w in s.passes && s.passes[w].todo != [] ==> s.redis.now - s.passes[w].listedAt < c.minIdle
  }

  /** The delivery count a worker should be told for the given delivery: 1 for the first, and the
      number of earlier deliveries for a reclaim. */
  function TrueCount(ordinal: nat): int {
    if ordinal == 1 then 1 else ordinal - 1
  }

  predicate BeforeRun(pc: Pc) {
    pc.Fetched? || pc.Checking? || pc.Starting? || pc.Marking?
  }

  function OrdinalsOf(ran: set<(EntryId, nat)>, e: EntryId): set<nat> {
    set p | p in ran && p.0 == e :: p.1
  }

  // ---------------------------------------------------------------- invariant

  type Tasks = map<TaskId, Task>
  type Runs = set<(EntryId, nat)>

  /** Deliveries of one entry are numbered apart, and none beyond the pending list's count. */
  ghost predicate Numbered(r: Redis, tasks: Tasks) {
    && (forall id :: id in r.pending ==> r.pending[id].count >= 1)
    && (forall t :: t in tasks ==>
          tasks[t].ordinal >= 1
          && (tasks[t].entry in r.pending ==> tasks[t].ordinal <= r.pending[tasks[t].entry].count))
    && (forall t, u :: t in tasks && u in tasks && t != u && tasks[t].entry == tasks[u].entry ==>
          tasks[t].ordinal != tasks[u].ordinal)
  }

  /** Executions belong to past deliveries, and a task that has not run yet is not among them. */
  ghost predicate RunsNumbered(r: Redis, tasks: Tasks, ran: Runs) {
    && (forall p :: p in ran ==> p.0 < r.cursor && (p.0 in r.pending ==> p.1 <= r.pending[p.0].count))
    && (forall t :: t in tasks && BeforeRun(tasks[t].pc) ==> (tasks[t].entry, tasks[t].ordinal) !in ran)
  }

  /** Each execution belongs to a delivery of its own. */
  ghost predicate RunsCounted(hist: History) {
    forall e :: hist.runs[e] == |OrdinalsOf(hist.ran, e)|
  }

  /** What a pass listed is still true of the entry, or the entry has been delivered again since. */
  ghost predicate Listings(r: Redis, passes: map<WorkerId, Pass>) {
    forall w :: w in passes ==>
      passes[w].listedAt <= r.now
      && forall i :: 0 <= i < |passes[w].todo| ==> ListingOk(r, passes[w].listedAt, passes[w].todo[i])
  }

  ghost predicate ListingOk(r: Redis, listedAt: Millis, item: (EntryId, nat)) {
    item.0 in r.pending ==> r.pending[item.0].count == item.1 || r.pending[item.0].deliveredAt >= listedAt
  }

  /** Workers are told the true count, and over the limit means on the way to the dead-letter stream. */
  ghost predicate Gated(c: Config, tasks: Tasks, ran: Runs) {
    && (forall t :: t in tasks ==> tasks[t].seen == TrueCount(tasks[t].ordinal))
    && (forall t :: t in tasks && tasks[t].seen > c.maxRetries ==> OnlyParked(tasks[t].pc))
    && (forall p :: p in ran ==> p.1 >= 1 && TrueCount(p.1) <= c.maxRetries)
  }

  predicate OnlyParked(pc: Pc) {
    pc.Fetched? || (Finalising(pc) && pc.cause == Poison)
  }

  ghost predicate RetryInv(c: Config, s: System) {
    && Numbered(s.redis, s.tasks) && RunsNumbered(s.redis, s.tasks, s.hist.ran) && RunsCounted(s.hist)
    && Listings(s.redis, s.passes) && Gated(c, s.tasks, s.hist.ran)
  }

  // ---------------------------------------------------------------- preservation

  /** A new delivery of `id`. */
  ghost predicate NewDelivery(s: System, s': System, id: EntryId, t: TaskId) {
    && t !in s.tasks && t in s'.tasks && s'.tasks == s.tasks[t := s'.tasks[t]]
    && s'.tasks[t].entry == id && s'.tasks[t].pc.Fetched?
    && id in s'.redis.pending && s'.tasks[t].ordinal == s'.redis.pending[id].count
    && s'.redis.pending[id].deliveredAt == s.redis.now
    && s'.redis.pending == s.redis.pending[id := s'.redis.pending[id]]
    && s'.redis.pending[id].count == (if id in s.redis.pending then s.redis.pending[id].count + 1 else 1)
    && s.redis.cursor <= s'.redis.cursor && s'.redis.now == s.redis.now && s'.hist == s.hist
    && (id in s.redis.pending || id >= s.redis.cursor)
  }

  /** Passes only ever shorten their lists. */
  ghost predicate PassesShrink(s: System, s': System) {
    forall w :: w in s'.passes ==>
      && w in s.passes && s'.passes[w].listedAt == s.passes[w].listedAt
      && (s'.passes[w].todo == s.passes[w].todo || (s.passes[w].todo != [] && s'.passes[w].todo == s.passes[w].todo[1..]))
  }

  lemma DeliveryNumbered(s: System, s': System, id: EntryId, t: TaskId)
    requires TasksOk(s) && Numbered(s.redis, s.tasks) && NewDelivery(s, s', id, t)
    ensures Numbered(s'.redis, s'.tasks)
  {
    forall u | u in s.tasks ensures s.tasks[u].entry < s.redis.cursor {
      assert TaskOk(s, s.tasks[u]);
    }
  }

  lemma DeliveryRunsNumbered(s: System, s': System, id: EntryId, t: TaskId)
    requires RunsNumbered(s.redis, s.tasks, s.hist.ran) && NewDelivery(s, s', id, t)
    ensures RunsNumbered(s'.redis, s'.tasks, s'.hist.ran)
  {
  }

  lemma ShrunkListings(s: System, s': System)
    requires Listings(s.redis, s.passes) && PassesShrink(s, s') && s.redis.now <= s'.redis.now
    requires forall id :: id in s'.redis.pending ==>
               (id in s.redis.pending && s'.redis.pending[id] == s.redis.pending[id])
               || s'.redis.pending[id].deliveredAt >= s.redis.now
    ensures Listings(s'.redis, s'.passes)
  {
    forall w, i | w in s'.passes && 0 <= i < |s'.passes[w].todo|
      ensures ListingOk(s'.redis, s'.passes[w].listedAt, s'.passes[w].todo[i])
    {
      var k := if s'.passes[w].todo == s.passes[w].todo then i else i + 1;
      assert ListingOk(s.redis, s.passes[w].listedAt, s.passes[w].todo[k]);
    }
  }

  lemma DeliveryRetry(c: Config, s: System, s': System, id: EntryId, t: TaskId)
    requires TasksOk(s) && RetryInv(c, s) && NewDelivery(s, s', id, t) && PassesShrink(s, s')
    requires s'.tasks[t].seen == TrueCount(s'.tasks[t].ordinal)
    ensures RetryInv(c, s')
  {
    DeliveryNumbered(s, s', id, t);
    DeliveryRunsNumbered(s, s', id, t);
    ShrunkListings(s, s');
  }

  lemma ReadRetry(c: Config, s: System, w: WorkerId, t: TaskId)
    requires TasksOk(s) && RetryInv(c, s) && t !in s.tasks && s.redis.cursor in s.redis.stream
    requires s.redis.cursor !in s.redis.pending
    ensures RetryInv(c, StepRead(s, w, t))
  {
    DeliveryRetry(c, s, StepRead(s, w, t), s.redis.cursor, t);
  }

  /** The heart of the bound: an entry that passes XCLAIM's idle check was not delivered since the
      pass listed it, so the listed count is the number of earlier deliveries. */
  lemma ListedCountIsTrue(c: Config, s: System, w: WorkerId)
    requires Listings(s.redis, s.passes) && GapBounded(c, s) && w in s.passes && s.passes[w].todo != []
    requires Claimable(c, s.redis, s.passes[w].todo[0].0)
    ensures s.redis.pending[s.passes[w].todo[0].0].count == s.passes[w].todo[0].1
  {
    assert ListingOk(s.redis, s.passes[w].listedAt, s.passes[w].todo[0]);
  }

  lemma ClaimDelivers(c: Config, s: System, w: WorkerId, t: TaskId)
    requires t !in s.tasks && w in s.passes && s.passes[w].todo != []
    ensures var s', id := StepClaim(c, s, w, t), s.passes[w].todo[0].0;
            && PassesShrink(s, s')
            && (Claimable(c, s.redis, id) ==> NewDelivery(s, s', id, t) && s'.tasks[t].seen == s.passes[w].todo[0].1)
            && (!Claimable(c, s.redis, id) ==> Shrinks(c, s, s'))
  {
  }

  lemma ClaimRetry(c: Config, s: System, s': System, w: WorkerId, t: TaskId)
    requires TasksOk(s) && RetryInv(c, s) && GapBounded(c, s)
    requires t !in s.tasks && w in s.passes && s.passes[w].todo != [] && s' == StepClaim(c, s, w, t)
    ensures RetryInv(c, s')
  {
    ClaimDelivers(c, s, w, t);
    var id := s.passes[w].todo[0].0;
    if Claimable(c, s.redis, id) {
      ListedCountIsTrue(c, s, w);
      assert s.redis.pending[id].count >= 1;
      DeliveryRetry(c, s, s', id, t);
    } else {
      ShrinkRetry(c, s, s');
    }
  }

  /** Steps that deliver nothing and run nothing. */
  ghost predicate Shrinks(c: Config, s: System, s': System) {
    && s.redis.cursor <= s'.redis.cursor && s.redis.now <= s'.redis.now
    && s'.hist.runs == s.hist.runs && s'.hist.ran == s.hist.ran
    && (forall id :: id in s'.redis.pending ==> id in s.redis.pending && s'.redis.pending[id] == s.redis.pending[id])
    && (forall t :: t in s'.tasks ==> t in s.tasks && TaskShrinks(c, s.tasks[t], s'.tasks[t]))
  }

  ghost predicate TaskShrinks(c: Config, task: Task, task': Task) {
    && task' == task.(pc := task'.pc)
    && (BeforeRun(task'.pc) ==> BeforeRun(task.pc))
    && (task.seen > c.maxRetries && OnlyParked(task.pc) ==> OnlyParked(task'.pc))
  }

  lemma ShrinkRetry(c: Config, s: System, s': System)
    requires RetryInv(c, s) && Shrinks(c, s, s') && PassesShrink(s, s')
    ensures RetryInv(c, s')
  {
    ShrunkListings(s, s');
  }

  lemma ListRetry(c: Config, s: System, w: WorkerId, todo: seq<(EntryId, nat)>)
    requires Listings(s.redis, s.passes) && Listed(c, s.redis, todo)
    ensures Listings(s.redis, s.passes[w := Pass(s.redis.now, todo)])
  {
    var passes := s.passes[w := Pass(s.redis.now, todo)];
    forall v, i | v in passes && 0 <= i < |passes[v].todo|
      ensures ListingOk(s.redis, passes[v].listedAt, passes[v].todo[i])
    {
      assert v != w ==> ListingOk(s.redis, s.passes[v].listedAt, s.passes[v].todo[i]);
    }
  }

  lemma RunCounted(s: System, t: TaskId)
    requires RunsNumbered(s.redis, s.tasks, s.hist.ran) && RunsCounted(s.hist) && t in s.tasks && s.tasks[t].pc.Marking?
    ensures RunsCounted(StepRun(s, t).hist)
  {
    var hist', e, o := StepRun(s, t).hist, s.tasks[t].entry, s.tasks[t].ordinal;
    forall x ensures hist'.runs[x] == |OrdinalsOf(hist'.ran, x)| {
      var before, after := OrdinalsOf(s.hist.ran, x), OrdinalsOf(hist'.ran, x);
      assert (e, o) !in s.hist.ran;
      assert after == if x == e then before + {o} else before;
    }
  }

  lemma RunNumbered(s: System, t: TaskId)
    requires t in s.tasks && TaskOk(s, s.tasks[t]) && s.tasks[t].pc.Marking?
    requires Numbered(s.redis, s.tasks) && RunsNumbered(s.redis, s.tasks, s.hist.ran)
    ensures Numbered(StepRun(s, t).redis, StepRun(s, t).tasks)
    ensures RunsNumbered(StepRun(s, t).redis, StepRun(s, t).tasks, StepRun(s, t).hist.ran)
  {
  }

  lemma RunRetry(c: Config, s: System, t: TaskId)
    requires TasksOk(s) && RetryInv(c, s) && t in s.tasks && s.tasks[t].pc.Marking?
    ensures RetryInv(c, StepRun(s, t))
  {
    assert TaskOk(s, s.tasks[t]);
    RunCounted(s, t);
    RunNumbered(s, t);
    RunGated(c, s, t);
    ShrunkListings(s, StepRun(s, t));
  }

  lemma RunGated(c: Config, s: System, t: TaskId)
    requires Gated(c, s.tasks, s.hist.ran) && Numbered(s.redis, s.tasks) && t in s.tasks && s.tasks[t].pc.Marking?
    ensures Gated(c, StepRun(s, t).tasks, StepRun(s, t).hist.ran)
  {
  }

  /** The other steps of a task never bring it closer to a run than it was. */
  lemma StepShrinks(c: Config, s: System, a: Action, task: Task, s': System)
    requires Moves(a) && !a.SetRunning? && a.task in s.tasks && s.tasks[a.task] == task && TaskStep(c, s, a, task, s')
    ensures a.task in s'.tasks && TaskShrinks(c, task, s'.tasks[a.task])
    ensures s'.tasks == s.tasks[a.task := s'.tasks[a.task]]
    ensures s'.hist == s.hist && s'.passes == s.passes
    ensures s'.redis.pending == s.redis.pending && s'.redis.now == s.redis.now && s'.redis.cursor == s.redis.cursor
  {
  }

  lemma MoveShrinks(c: Config, s: System, a: Action, s': System)
    requires Step(c, s, a, s') && Moves(a) && !a.SetRunning?
    ensures Shrinks(c, s, s') && PassesShrink(s, s')
  {
    StepShrinks(c, s, a, s.tasks[a.task], s');
    assert forall t :: t in s.tasks && t != a.task ==> TaskShrinks(c, s.tasks[t], s'.tasks[t]);
  }

  lemma OtherShrinks(c: Config, s: System, a: Action, s': System)
    requires Step(c, s, a, s') && !Moves(a) && !a.Read? && !a.Claim? && !a.List?
    ensures Shrinks(c, s, s') && PassesShrink(s, s')
  {
  }

  /** What the preservation proof needs of the general invariant. */
  ghost predicate ReadyForRetry(s: System) {
    TasksOk(s) && s.redis.cursor !in s.redis.pending
  }

  lemma RunReady(c: Config, states: seq<System>, actions: seq<Action>, i: nat)
    requires IsRun(c, states, actions) && i < |states|
    ensures ReadyForRetry(states[i])
  {
    RunInv(c, states, actions, i);
  }

  lemma RetryKept(c: Config, s: System, a: Action, s': System)
    requires ReadyForRetry(s) && RetryInv(c, s) && GapBounded(c, s) && Step(c, s, a, s')
    ensures RetryInv(c, s')
  {
    if a.Read? {
      ReadRetry(c, s, a.worker, a.task);
    } else if a.Claim? {
      ClaimRetry(c, s, s', a.worker, a.task);
    } else if a.List? {
      ListRetry(c, s, a.worker, a.todo);
    } else if a.SetRunning? {
      RunRetry(c, s, a.task);
    } else {
      if Moves(a) {
        MoveShrinks(c, s, a, s');
      } else {
        OtherShrinks(c, s, a, s');
      }
      ShrinkRetry(c, s, s');
    }
  }

  ghost predicate GapRun(c: Config, states: seq<System>, actions: seq<Action>) {
    IsRun(c, states, actions) && forall i :: 0 <= i < |states| ==> GapBoundedAt(c, states, i)
  }

  ghost predicate GapBoundedAt(c: Config, states: seq<System>, i: nat)
    requires i < |states|
  {
    GapBounded(c, states[i])
  }

  lemma {:induction false} RunRetryInv(c: Config, states: seq<System>, actions: seq<Action>, i: nat)
    requires GapRun(c, states, actions) && i < |states|
    ensures RetryInv(c, states[i])
  {
    if i == 0 {
      InitialRetry(c, states, actions);
    } else {
      RunRetryInv(c, states, actions, i - 1);
      RetryKeptAt(c, states, actions, i);
    }
  }

  lemma InitialRetry(c: Config, states: seq<System>, actions: seq<Action>)
    requires IsRun(c, states, actions)
    ensures RetryInv(c, states[0])
  {
    var s := states[0];
    forall e ensures s.hist.runs[e] == |OrdinalsOf(s.hist.ran, e)| {
      assert OrdinalsOf(s.hist.ran, e) == {};
    }
  }

  lemma RetryKeptAt(c: Config, states: seq<System>, actions: seq<Action>, i: nat)
    requires GapRun(c, states, actions) && 0 < i < |states| && RetryInv(c, states[i - 1])
    ensures RetryInv(c, states[i])
  {
    assert GapBoundedAt(c, states, i - 1);
    RunReady(c, states, actions, i - 1);
    assert StepAt(c, states, actions, i - 1);
    RetryKept(c, states[i - 1], actions[i - 1], states[i]);
  }

  // ---------------------------------------------------------------- deliveries counted in the run

  /** The step hands the entry to a worker. */
  predicate Delivers(c: Config, s: System, a: Action, id: EntryId) {
    || (a.Read? && s.redis.cursor == id)
    || (a.Claim? && a.worker in s.passes && s.passes[a.worker].todo != [] && s.passes[a.worker].todo[0].0 == id
        && Claimable(c, s.redis, id))
  }

  /** How many of the first `i` steps delivered the entry. */
  function Deliveries(c: Config, states: seq<System>, actions: seq<Action>, i: nat, id: EntryId): nat
    requires i <= |actions| <= |states|
  {
    if i == 0 then 0
    else Deliveries(c, states, actions, i - 1, id) + if Delivers(c, states[i - 1], actions[i - 1], id) then 1 else 0
  }

  /** Redis's own counter says how often the entry has been delivered. */
  predicate Counted(r: Redis, id: EntryId, n: nat) {
    && (r.cursor <= id ==> n == 0)
    && (id in r.pending ==> r.pending[id].count == n)
  }

  lemma CountedStep(c: Config, s: System, a: Action, s': System, id: EntryId, n: nat)
    requires (id in s.redis.pending ==> id < s.redis.cursor) && Step(c, s, a, s') && Counted(s.redis, id, n)
    ensures Counted(s'.redis, id, n + if Delivers(c, s, a, id) then 1 else 0)
    ensures Delivers(c, s, a, id) ==>
              a.task in s'.tasks && s'.tasks[a.task].entry == id && s'.tasks[a.task].ordinal == n + 1
  {
  }

  lemma RunPendingBelow(c: Config, states: seq<System>, actions: seq<Action>, i: nat, id: EntryId)
    requires IsRun(c, states, actions) && i < |states|
    ensures id in states[i].redis.pending ==> id < states[i].redis.cursor
  {
    RunInv(c, states, actions, i);
  }

  lemma {:induction false} RunDeliveries(c: Config, states: seq<System>, actions: seq<Action>, i: nat, id: EntryId)
    requires IsRun(c, states, actions) && i < |states|
    ensures Counted(states[i].redis, id, Deliveries(c, states, actions, i, id))
  {
    if i > 0 {
      RunDeliveries(c, states, actions, i - 1, id);
      RunPendingBelow(c, states, actions, i - 1, id);
      assert StepAt(c, states, actions, i - 1);
      CountedStep(c, states[i - 1], actions[i - 1], states[i], id, Deliveries(c, states, actions, i - 1, id));
    }
  }

  /** A task is there because a step delivered its entry to it, or it was there before, unchanged but
      for its program counter. */
  lemma TaskOrigin(c: Config, s: System, a: Action, s': System, t: TaskId)
    requires Step(c, s, a, s') && t in s'.tasks
    ensures || ((a.Read? || a.Claim?) && a.task == t && Delivers(c, s, a, s'.tasks[t].entry))
            || (t in s.tasks && s'.tasks[t] == s.tasks[t].(pc := s'.tasks[t].pc))
  {
  }

  /** Step `k` delivered the entry to task `t`. */
  ghost predicate DeliveredBy(c: Config, states: seq<System>, actions: seq<Action>, k: nat, t: TaskId, id: EntryId)
    requires k < |actions| <= |states|
  {
    (actions[k].Read? || actions[k].Claim?) && actions[k].task == t && Delivers(c, states[k], actions[k], id)
  }

  /** A task's ordinal is one plus the number of deliveries of its entry before its own. */
  lemma {:induction false} OrdinalCounts(c: Config, states: seq<System>, actions: seq<Action>, i: nat, t: TaskId)
    returns (k: nat)
    requires IsRun(c, states, actions) && i < |states| && t in states[i].tasks
    ensures k < i && DeliveredBy(c, states, actions, k, t, states[i].tasks[t].entry)
    ensures states[i].tasks[t].ordinal == Deliveries(c, states, actions, k, states[i].tasks[t].entry) + 1
  {
    assert i > 0;
    k := i - 1;
    assert StepAt(c, states, actions, k);
    TaskOrigin(c, states[k], actions[k], states[i], t);
    var id := states[i].tasks[t].entry;
    if DeliveredBy(c, states, actions, k, t, id) {
      RunDeliveries(c, states, actions, k, id);
      RunPendingBelow(c, states, actions, k, id);
      CountedStep(c, states[k], actions[k], states[i], id, Deliveries(c, states, actions, k, id));
    } else {
      k := OrdinalCounts(c, states, actions, i - 1, t);
    }
  }

  // ---------------------------------------------------------------- results

  /** A worker is told 1 on the first delivery and the number of earlier deliveries, counted over the
      run, on a reclaim; a task told more than the limit never runs its job. */
  lemma TrueDeliveryCount(c: Config, states: seq<System>, actions: seq<Action>, i: nat, t: TaskId)
    returns (k: nat)
    requires GapRun(c, states, actions) && i < |states| && t in states[i].tasks
    ensures k < i && DeliveredBy(c, states, actions, k, t, states[i].tasks[t].entry)
    ensures var task := states[i].tasks[t];
            var earlier := Deliveries(c, states, actions, k, task.entry);
            && task.ordinal == earlier + 1
            && task.seen == (if earlier == 0 then 1 else earlier)
            && (task.seen > c.maxRetries ==> OnlyParked(task.pc) && (task.entry, task.ordinal) !in states[i].hist.ran)
  {
    RunRetryInv(c, states, actions, i);
    k := OrdinalCounts(c, states, actions, i, t);
  }

  /** Bounded retries: no entry is executed more than `maxRetries + 1` times, and none at all when
      the limit is below one. */
  lemma BoundedExecutions(c: Config, states: seq<System>, actions: seq<Action>, i: nat, e: EntryId)
    requires GapRun(c, states, actions) && i < |states|
    ensures states[i].hist.runs[e] <= if c.maxRetries < 1 then 0 else c.maxRetries + 1
  {
    RunRetryInv(c, states, actions, i);
    var os := OrdinalsOf(states[i].hist.ran, e);
    assert forall o :: o in os ==> (e, o) in states[i].hist.ran;
    SmallSet(os, if c.maxRetries < 1 then 0 else c.maxRetries + 1);
  }

  // ---------------------------------------------------------------- the dead-letter stream

  /** On a dead-letter branch and past its XADD. */
  predicate PastParking(pc: Pc) {
    (pc.Acking? || Acked(pc)) && (pc.cause == Poison || pc.cause == Malformed)
  }

  ghost predicate AllParked(s: System) {
    forall t :: t in s.tasks ==> Parked(s.redis, s.tasks[t])
  }

  /** Its payload is in the dead-letter stream if it must be. */
  predicate Parked(r: Redis, task: Task) {
    PastParking(task.pc) ==> task.payload in r.dead
  }

  lemma OwnParked(c: Config, s: System, a: Action, task: Task, s': System)
    requires ByTask(a) && a.task in s.tasks && s.tasks[a.task] == task && TaskStep(c, s, a, task, s')
    requires Parked(s.redis, task)
    ensures a.task in s'.tasks && s'.tasks == s.tasks[a.task := s'.tasks[a.task]]
    ensures Parked(s'.redis, s'.tasks[a.task])
    ensures s.redis.dead <= s'.redis.dead
  {
  }

  lemma OthersParked(c: Config, s: System, a: Action, s': System)
    requires Step(c, s, a, s') && !ByTask(a)
    ensures NoneParks(s, s')
  {
  }

  /** Tasks come, go or stay, and the dead-letter stream is left alone. */
  ghost predicate NoneParks(s: System, s': System) {
    && s'.redis.dead == s.redis.dead
    && forall t :: t in s'.tasks ==> s'.tasks[t].pc.Fetched? || (t in s.tasks && s'.tasks[t] == s.tasks[t])
  }

  lemma QuietParked(s: System, s': System)
    requires NoneParks(s, s') && AllParked(s)
    ensures AllParked(s')
  {
  }

  lemma DeadGrows(r: Redis, r': Redis, task: Task)
    requires r.dead <= r'.dead && Parked(r, task)
    ensures Parked(r', task)
  {
  }

  lemma MoveParked(c: Config, s: System, a: Action, s': System)
    requires ByTask(a) && a.task in s.tasks && TaskStep(c, s, a, s.tasks[a.task], s') && AllParked(s)
    ensures AllParked(s')
  {
    OwnParked(c, s, a, s.tasks[a.task], s');
    forall t | t in s'.tasks && t != a.task ensures Parked(s'.redis, s'.tasks[t]) {
      DeadGrows(s.redis, s'.redis, s.tasks[t]);
    }
  }

  lemma ParkedKept(c: Config, s: System, a: Action, s': System)
    requires Step(c, s, a, s') && AllParked(s)
    ensures AllParked(s')
  {
    if ByTask(a) {
      MoveParked(c, s, a, s');
    } else {
      OthersParked(c, s, a, s');
      QuietParked(s, s');
    }
  }

  lemma {:induction false} RunParked(c: Config, states: seq<System>, actions: seq<Action>, i: nat)
    requires IsRun(c, states, actions) && i < |states|
    ensures AllParked(states[i])
  {
    if i > 0 {
      RunParked(c, states, actions, i - 1);
      assert StepAt(c, states, actions, i - 1);
      ParkedKept(c, states[i - 1], actions[i - 1], states[i]);
    }
  }

  /** A delivery beyond the last permitted one is dead-lettered: by the time it may acknowledge, its
      payload is in the dead-letter stream. */
  lemma LateDeliveryParked(c: Config, states: seq<System>, actions: seq<Action>, i: nat, t: TaskId)
    requires GapRun(c, states, actions) && i < |states| && t in states[i].tasks
    requires TrueCount(states[i].tasks[t].ordinal) > c.maxRetries
    requires states[i].tasks[t].pc.Acking? || Acked(states[i].tasks[t].pc)
    ensures states[i].tasks[t].payload in states[i].redis.dead
  {
    var _ := TrueDeliveryCount(c, states, actions, i, t);
    RunParked(c, states, actions, i);
  }

  lemma {:induction false} SmallSet(os: set<nat>, n: nat)
    requires forall o :: o in os ==> 1 <= o <= n
    ensures |os| <= n
  {
    if n > 0 {
      SmallSet(os - {n}, n - 1);
      assert os <= (os - {n}) + {n};
    } else {
      assert os == {};
    }
  }
}
