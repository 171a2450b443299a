/**
 Concrete runs that mark the edges of the results: the three ways a terminal record is rewritten, how
 an acknowledged entry leaks, and that the lease and gap bounds are tight.
 */
module Scenarios {
  import opened RedisModel
  import opened JobProtocol
  import opened JobSafety
  import opened LeaseSafety
  import opened BoundedRetries
  import opened RecordLifecycle

  // ---------------------------------------------------------------- building runs

  lemma Then(c: Config, states: seq<System>, actions: seq<Action>, a: Action, s': System)
    returns (states': seq<System>, actions': seq<Action>)
    requires IsRun(c, states, actions) && Step(c, states[|states| - 1], a, s')
    ensures states' == states + [s'] && actions' == actions + [a] && IsRun(c, states', actions')
    ensures GapsAtMost(c, states) && GapAtMost(c, s') ==> GapsAtMost(c, states')
  {
    states', actions' := states + [s'], actions + [a];
    RunExtends(c, states, actions, a, s');
  }

  /** No claim pass is older than `minIdle`. */
  ghost predicate GapAtMost(c: Config, s: System) {
    forall w :: w in s.passes ==> s.redis.now - s.passes[w].listedAt <= c.minIdle
  }

  ghost predicate GapsAtMost(c: Config, states: seq<System>) {
    forall i :: 0 <= i < |states| ==> GapAtMost(c, states[i])
  }

  const JOB := "01HZX"
  const ENTRY := Payload(JOB, "u", true)
  const DONE := Result(COMPLETED, "")
  const EXPIRY: Option<Millis> := Some(RECORD_TTL_MS)

  /** One job, delivered once at time 0 to task 0, at the given point of `_process`. */
  function Stage(pc: Pc, record: Record, results: map<JobId, Expiring<Result>>, ran: bool): System {
    System(
      Redis(0, 1, map[0 := ENTRY], 1, map[0 := Pending(7, 0, 1)], results,
            map[JOB := Expiring(record, EXPIRY)], map[], []),
      map[0 := Task(0, ENTRY, 1, 1, 0, pc)], map[], map[],
      History(map[0 := ENTRY], if ran then multiset{0} else multiset{}, if ran then {(0, 1)} else {}, map[], {}))
  }

  const PENDING_RECORD := Record(PENDING, None)
  const RUNNING_RECORD := Record(RUNNING, None)
  const DONE_RECORD := Record(COMPLETED, Some(DONE))
  const STORED: map<JobId, Expiring<Result>> := map[JOB := Expiring(DONE, Some(RESULT_TTL_MS))]

  lemma Delivered(c: Config) returns (states: seq<System>, actions: seq<Action>)
    ensures IsRun(c, states, actions) && states[|states| - 1] == Stage(Fetched, PENDING_RECORD, map[], false)
    ensures GapsAtMost(c, states)
  {
    states, actions := [INITIAL], [];
    var s := StepSubmit(INITIAL, ENTRY, true);
    states, actions := Then(c, states, actions, Submit(JOB, "u", true), s);
    states, actions := Then(c, states, actions, Read(7, 0), Stage(Fetched, PENDING_RECORD, map[], false));
  }

  lemma RunToStart(c: Config) returns (states: seq<System>, actions: seq<Action>)
    requires c.maxRetries >= 1
    ensures IsRun(c, states, actions) && states[|states| - 1] == Stage(Starting, PENDING_RECORD, map[], false)
  {
    states, actions := Delivered(c);
    states, actions := Then(c, states, actions, Begin(0), Stage(Checking, PENDING_RECORD, map[], false));
    states, actions := Then(c, states, actions, Check(0), Stage(Starting, PENDING_RECORD, map[], false));
  }

  lemma RunToMark(c: Config) returns (states: seq<System>, actions: seq<Action>)
    requires c.maxRetries >= 1
    ensures IsRun(c, states, actions)
    ensures states[|states| - 1] == Stage(Marking(Some(PENDING_RECORD)), PENDING_RECORD, map[], false)
  {
    states, actions := RunToStart(c);
    states, actions := Then(c, states, actions, GetForRunning(0),
                            Stage(Marking(Some(PENDING_RECORD)), PENDING_RECORD, map[], false));
  }

  lemma RunToExecute(c: Config) returns (states: seq<System>, actions: seq<Action>)
    requires c.maxRetries >= 1
    ensures IsRun(c, states, actions) && states[|states| - 1] == Stage(Executing, RUNNING_RECORD, map[], true)
  {
    states, actions := RunToMark(c);
    states, actions := Then(c, states, actions, SetRunning(0), Stage(Executing, RUNNING_RECORD, map[], true));
  }

  lemma RunToStore(c: Config) returns (states: seq<System>, actions: seq<Action>)
    requires c.maxRetries >= 1
    ensures IsRun(c, states, actions) && states[|states| - 1] == Stage(Storing(Ran, DONE), RUNNING_RECORD, map[], true)
  {
    states, actions := RunToExecute(c);
    states, actions := Then(c, states, actions, Finish(0, DONE), Stage(Storing(Ran, DONE), RUNNING_RECORD, map[], true));
  }

  lemma RunToRead(c: Config) returns (states: seq<System>, actions: seq<Action>)
    requires c.maxRetries >= 1
    ensures IsRun(c, states, actions) && states[|states| - 1] == Stage(Reading(Ran, DONE), RUNNING_RECORD, STORED, true)
  {
    states, actions := RunToStore(c);
    states, actions := Then(c, states, actions, StoreResult(0), Stage(Reading(Ran, DONE), RUNNING_RECORD, STORED, true));
  }

  lemma RunToWrite(c: Config) returns (states: seq<System>, actions: seq<Action>)
    requires c.maxRetries >= 1
    ensures IsRun(c, states, actions)
    ensures states[|states| - 1] == Stage(Writing(Ran, DONE, Some(RUNNING_RECORD)), RUNNING_RECORD, STORED, true)
  {
    states, actions := RunToRead(c);
    states, actions := Then(c, states, actions, GetForTerminal(0),
                            Stage(Writing(Ran, DONE, Some(RUNNING_RECORD)), RUNNING_RECORD, STORED, true));
  }

  lemma RunToPublish(c: Config) returns (states: seq<System>, actions: seq<Action>)
    requires c.maxRetries >= 1
    ensures IsRun(c, states, actions) && states[|states| - 1] == Stage(Publishing(Ran, DONE), DONE_RECORD, STORED, true)
  {
    states, actions := RunToWrite(c);
    states, actions := Then(c, states, actions, SetTerminal(0), Stage(Publishing(Ran, DONE), DONE_RECORD, STORED, true));
  }

  /** The task runs its job and reaches its XACK. */
  lemma RunToAck(c: Config) returns (states: seq<System>, actions: seq<Action>)
    requires c.maxRetries >= 1
    ensures IsRun(c, states, actions) && states[|states| - 1] == Stage(Acking(Ran, DONE), DONE_RECORD, STORED, true)
  {
    states, actions := RunToPublish(c);
    states, actions := Then(c, states, actions, Publish(0), Stage(Acking(Ran, DONE), DONE_RECORD, STORED, true));
  }

  // ---------------------------------------------------------------- after the acknowledgement

  /** The state after the XACK of `RunToAck`. */
  function AckedStage(): System {
    StepAck(Stage(Acking(Ran, DONE), DONE_RECORD, STORED, true), 0)
  }

  lemma RunPastAck(c: Config) returns (states: seq<System>, actions: seq<Action>)
    requires c.maxRetries >= 1
    ensures IsRun(c, states, actions) && states[|states| - 1] == AckedStage()
    ensures AckedStage().redis.pending == map[] && AckedStage().tasks[0].pc == Deleting(Ran, DONE)
  {
    states, actions := RunToAck(c);
    states, actions := Then(c, states, actions, Ack(0), AckedStage());
  }

  /** A crash right after the XACK leaks the entry; `LeakIsPermanent` says for how long. */
  lemma CrashAfterAckLeaks(c: Config) returns (states: seq<System>, actions: seq<Action>)
    requires c.maxRetries >= 1
    ensures IsRun(c, states, actions) && Leaked(states[|states| - 1], 0)
    ensures states[|states| - 1].redis.pending == map[] && |states[|states| - 1].redis.stream| == 1
  {
    states, actions := RunPastAck(c);
    states, actions := Then(c, states, actions, Abandon(0), Drop(AckedStage(), 0));
  }

  // ---------------------------------------------------------------- terminal records rewritten

  /** The last step of the run writes `after` over the COMPLETED record of the job. */
  ghost predicate LastRewrites(states: seq<System>, actions: seq<Action>, after: Record)
    requires |states| == |actions| + 1 && |actions| > 0
  {
    var i := |actions| - 1;
    && GetRecord(states[i].redis, JOB) == Some(DONE_RECORD) && Rewrites(states[i], actions[i], JOB, DONE_RECORD)
    && GetRecord(states[i + 1].redis, JOB) == Some(after)
  }

  const LOST := "internal execution error"
  const FAILURE := Result(FAILED, LOST)

  function RaisedStage(pc: Pc): System {
    Move(AckedStage(), 0, pc)
  }

  function FailedStage(pc: Pc): System {
    RaisedStage(pc).(redis := SetResult(AckedStage().redis, JOB, FAILURE))
  }

  lemma RunToHandler(c: Config) returns (states: seq<System>, actions: seq<Action>)
    requires c.maxRetries >= 1
    ensures IsRun(c, states, actions) && |states| > 1 && states[|states| - 2] == AckedStage()
    ensures states[|states| - 1] == RaisedStage(Storing(Raised, FAILURE))
  {
    states, actions := RunPastAck(c);
    states, actions := Then(c, states, actions, Raise(0, LOST), RaisedStage(Storing(Raised, FAILURE)));
  }

  lemma RunToFailure(c: Config) returns (states: seq<System>, actions: seq<Action>, i: nat)
    requires c.maxRetries >= 1
    ensures IsRun(c, states, actions) && i < |states| && states[i] == AckedStage()
    ensures states[|states| - 1] == FailedStage(Reading(Raised, FAILURE))
  {
    states, actions := RunToHandler(c);
    i := |states| - 2;
    states, actions := Then(c, states, actions, StoreResult(0), FailedStage(Reading(Raised, FAILURE)));
  }

  lemma RunToRewrite(c: Config) returns (states: seq<System>, actions: seq<Action>, i: nat)
    requires c.maxRetries >= 1
    ensures IsRun(c, states, actions) && i < |states| && states[i] == AckedStage()
    ensures states[|states| - 1] == FailedStage(Writing(Raised, FAILURE, Some(DONE_RECORD)))
  {
    states, actions, i := RunToFailure(c);
    states, actions := Then(c, states, actions, GetForTerminal(0),
                            FailedStage(Writing(Raised, FAILURE, Some(DONE_RECORD))));
  }

  /** An exception after the XACK (a lost reply, say) sends a COMPLETED, acknowledged and settled job
      through the handler, which writes FAILED into its result and its record. */
  lemma RaiseAfterAckRewrites(c: Config) returns (states: seq<System>, actions: seq<Action>, i: nat)
    requires c.maxRetries >= 1
    ensures IsRun(c, states, actions) && i < |actions|
    ensures Departed(states[i], 0) && Settled(states[i].redis, JOB)
    ensures GetRecord(states[i].redis, JOB) == Some(Record(COMPLETED, Some(DONE)))
    ensures LastRewrites(states, actions, Record(FAILED, Some(FAILURE)))
    ensures GetResult(states[|actions|].redis, JOB) == Some(FAILURE)
  {
    states, actions, i := RunToRewrite(c);
    var s := states[|states| - 1];
    states, actions := Then(c, states, actions, SetTerminal(0),
                            Move(s, 0, Publishing(Raised, FAILURE)).(
                              redis := Patch(s.redis, JOB, Some(DONE_RECORD), FAILED, Some(FAILURE))));
  }

  /** The job of `RunToAck`, its worker dead, reclaimed by worker 8 after `minIdle`. */
  function Reclaimed(c: Config, pc: Pc): System {
    var s := Stage(Acking(Ran, DONE), DONE_RECORD, STORED, true);
    System(
      s.redis.(now := c.minIdle, pending := map[0 := Pending(8, c.minIdle, 2)]),
      map[1 := Task(0, ENTRY, 1, 2, c.minIdle, pc)], map[8 := Pass(c.minIdle, [])], map[], s.hist)
  }

  lemma RunToCrash(c: Config) returns (states: seq<System>, actions: seq<Action>)
    requires c.maxRetries >= 1
    ensures IsRun(c, states, actions)
    ensures states[|states| - 1] == Stage(Acking(Ran, DONE), DONE_RECORD, STORED, true).(tasks := map[])
  {
    states, actions := RunToAck(c);
    states, actions := Then(c, states, actions, Abandon(0), Drop(Stage(Acking(Ran, DONE), DONE_RECORD, STORED, true), 0));
  }

  /** The reclaim itself: what `StepClaim` makes of the listed, idle entry. */
  lemma ReclaimStep(c: Config, s: System)
    requires s == Reclaimed(c, Fetched).(tasks := map[], passes := map[8 := Pass1(c)],
                    redis := Reclaimed(c, Fetched).redis.(pending := map[0 := Pending(7, 0, 1)]))
    ensures StepClaim(c, s, 8, 1) == Reclaimed(c, Fetched)
  {
    assert s.passes[8].todo[1..] == [];
    assert s.passes[8 := Pass(c.minIdle, [])] == map[8 := Pass(c.minIdle, [])];
    assert s.redis.pending[0 := Pending(8, c.minIdle, 2)] == map[0 := Pending(8, c.minIdle, 2)];
    assert s.tasks[1 := Task(0, ENTRY, 1, 2, c.minIdle, Fetched)] == map[1 := Task(0, ENTRY, 1, 2, c.minIdle, Fetched)];
  }

  lemma RunToReclaim(c: Config) returns (states: seq<System>, actions: seq<Action>)
    requires c.maxRetries >= 1
    ensures IsRun(c, states, actions) && states[|states| - 1] == Reclaimed(c, Fetched)
  {
    states, actions := RunToCrash(c);
    var s := states[|states| - 1];
    s := s.(redis := s.redis.(now := c.minIdle));
    states, actions := Then(c, states, actions, Tick(c.minIdle), s);
    s := s.(passes := map[8 := Pass1(c)]);
    states, actions := Then(c, states, actions, List(8, [(0, 1)]), s);
    ReclaimStep(c, s);
    states, actions := Then(c, states, actions, Claim(8, 1), Reclaimed(c, Fetched));
  }

  lemma RunToSecondStart(c: Config) returns (states: seq<System>, actions: seq<Action>)
    requires c.maxRetries >= 1
    ensures IsRun(c, states, actions) && states[|states| - 1] == Reclaimed(c, Starting)
  {
    states, actions := RunToReclaim(c);
    states, actions := Then(c, states, actions, Begin(1), Reclaimed(c, Checking));
    states, actions := Then(c, states, actions, Check(1), Reclaimed(c, Starting));
  }

  /** A crash after the result was stored: the second delivery marks the COMPLETED job RUNNING. */
  lemma RedeliveryRewrites(c: Config) returns (states: seq<System>, actions: seq<Action>)
    requires c.maxRetries >= 1 && c.minIdle <= RECORD_TTL_MS
    ensures IsRun(c, states, actions) && |actions| > 0
    ensures LastRewrites(states, actions, Record(RUNNING, Some(DONE)))
  {
    states, actions := RunToSecondStart(c);
    states, actions := Then(c, states, actions, GetForRunning(1), Reclaimed(c, Marking(Some(DONE_RECORD))));
    states, actions := Then(c, states, actions, SetRunning(1), StepRun(Reclaimed(c, Marking(Some(DONE_RECORD))), 1));
  }

  /** A DELETE that read the record while the job ran. */
  function Deleting0(pc: Pc, record: Record): System {
    Stage(pc, record, STORED, true).(deletes := map[0 := OpenDelete(JOB, RUNNING_RECORD)])
  }

  lemma RunToStaleDelete(c: Config) returns (states: seq<System>, actions: seq<Action>)
    requires c.maxRetries >= 1
    ensures IsRun(c, states, actions) && states[|states| - 1] == Deleting0(Publishing(Ran, DONE), DONE_RECORD)
  {
    states, actions := RunToWrite(c);
    states, actions := Then(c, states, actions, DeleteRead(0, JOB),
                            Deleting0(Writing(Ran, DONE, Some(RUNNING_RECORD)), RUNNING_RECORD));
    states, actions := Then(c, states, actions, SetTerminal(0), Deleting0(Publishing(Ran, DONE), DONE_RECORD));
  }

  /** A DELETE that read RUNNING and commits after the job completed writes KILLED over COMPLETED. */
  lemma StaleDeleteRewrites(c: Config) returns (states: seq<System>, actions: seq<Action>)
    requires c.maxRetries >= 1
    ensures IsRun(c, states, actions) && |actions| > 0
    ensures LastRewrites(states, actions, Record(KILLED, None))
  {
    states, actions := RunToStaleDelete(c);
    var s := Deleting0(Publishing(Ran, DONE), DONE_RECORD);
    states, actions := Then(c, states, actions, DeleteCommit(0),
                            s.(redis := CommitDelete(s.redis, JOB, RUNNING_RECORD), deletes := map[]));
  }

  // ---------------------------------------------------------------- tightness of the timing bounds

  /** The delivered job after `minIdle` has passed, with one claim pass listed per given worker. */
  function Stale(c: Config, passes: map<WorkerId, Pass>): System {
    Stage(Fetched, PENDING_RECORD, map[], false).(
      redis := Stage(Fetched, PENDING_RECORD, map[], false).redis.(now := c.minIdle), passes := passes)
  }

  function Pass1(c: Config): Pass {
    Pass(c.minIdle, [(0, 1)])
  }

  lemma RunToStale(c: Config) returns (states: seq<System>, actions: seq<Action>)
    ensures IsRun(c, states, actions) && states[|states| - 1] == Stale(c, map[8 := Pass1(c)])
    ensures GapsAtMost(c, states)
  {
    states, actions := Delivered(c);
    states, actions := Then(c, states, actions, Tick(c.minIdle), Stale(c, map[]));
    states, actions := Then(c, states, actions, List(8, [(0, 1)]), Stale(c, map[8 := Pass1(c)]));
  }

  /** A processing that lasts exactly `minIdle` can already be duplicated, so the strict bound of
      `NoDuplicateProcessing` cannot be relaxed. */
  lemma LeaseIsTight(c: Config) returns (states: seq<System>, actions: seq<Action>)
    ensures IsRun(c, states, actions)
    ensures forall i, t :: 0 <= i < |states| && t in states[i].tasks ==>
              states[i].redis.now - states[i].tasks[t].deliveredAt <= c.minIdle
    ensures !Exclusive(states[|states| - 1])
  {
    states, actions := RunToStale(c);
    var s := Stale(c, map[8 := Pass1(c)]);
    var s' := StepClaim(c, s, 8, 1);
    states, actions := Then(c, states, actions, Claim(8, 1), s');
    assert s'.tasks[0].entry == s'.tasks[1].entry;
    forall i, t | 0 <= i < |states| && t in states[i].tasks
      ensures states[i].redis.now - states[i].tasks[t].deliveredAt <= c.minIdle
    {
      ClockBound(c, states, actions, i, |states| - 1);
    }
  }

  /** The clock never goes back. */
  lemma {:induction false} ClockBound(c: Config, states: seq<System>, actions: seq<Action>, i: nat, k: nat)
    requires IsRun(c, states, actions) && i <= k < |states|
    ensures states[i].redis.now <= states[k].redis.now
    decreases k
  {
    if i < k {
      ClockBound(c, states, actions, i, k - 1);
      assert StepAt(c, states, actions, k - 1);
      ClockStep(c, states[k - 1], actions[k - 1], states[k]);
    }
  }

  lemma ClockStep(c: Config, s: System, a: Action, s': System)
    requires Step(c, s, a, s')
    ensures s.redis.now <= s'.redis.now
  {
  }

  /** Both workers 8 and 9 listed the entry; worker 9 has claimed it. */
  function BothListed(c: Config): System {
    Stale(c, map[8 := Pass1(c), 9 := Pass1(c)])
  }

  lemma RunToSecondClaim(c: Config) returns (states: seq<System>, actions: seq<Action>)
    ensures IsRun(c, states, actions) && GapsAtMost(c, states)
    ensures states[|states| - 1] == StepClaim(c, BothListed(c), 9, 1)
  {
    states, actions := RunToStale(c);
    states, actions := Then(c, states, actions, List(9, [(0, 1)]), BothListed(c));
    states, actions := Then(c, states, actions, Claim(9, 1), StepClaim(c, BothListed(c), 9, 1));
  }

  /** With a gap of exactly `minIdle` between XPENDING and XCLAIM, another worker's delivery goes
      uncounted: the third delivery is told that only one has gone before it. */
  lemma GapIsTight(c: Config) returns (states: seq<System>, actions: seq<Action>)
    ensures IsRun(c, states, actions)
    ensures forall i, w :: 0 <= i < |states| && w in states[i].passes ==>
              states[i].redis.now - states[i].passes[w].listedAt <= c.minIdle
    ensures 2 in states[|states| - 1].tasks
    ensures states[|states| - 1].tasks[2].ordinal == 3 && states[|states| - 1].tasks[2].seen == 1
    ensures states[|states| - 1].tasks[2].seen != TrueCount(states[|states| - 1].tasks[2].ordinal)
  {
    states, actions := RunToSecondClaim(c);
    var s := StepClaim(c, BothListed(c), 9, 1);
    s := s.(redis := s.redis.(now := s.redis.now + c.minIdle));
    states, actions := Then(c, states, actions, Tick(c.minIdle), s);
    states, actions := Then(c, states, actions, Claim(8, 2), StepClaim(c, s, 8, 2));
    forall i, w | 0 <= i < |states| && w in states[i].passes
      ensures states[i].redis.now - states[i].passes[w].listedAt <= c.minIdle
    {
      assert GapAtMost(c, states[i]);
    }
  }
}
