/**
 The timeout and cancellation ladder around one container, and the result it is turned into. Docker
 commands are only recorded; what the container does is a parameter.
 */
module KillLadder {
  import opened RedisModel

  const MAX_TIMEOUT_SECONDS := 60
  const KILL_WAIT_SECONDS := 5
  const SIGKILL_EXIT := 137

  // ---------------------------------------------------------------- the timeout

  function Ceiling(timeoutSeconds: int): int {
    if timeoutSeconds < MAX_TIMEOUT_SECONDS then timeoutSeconds else MAX_TIMEOUT_SECONDS
  }

  /** `ResourceConfig.clamp_timeout`. */
  function ClampTimeout(timeoutSeconds: int, requested: Option<int>): int {
    var ceiling := Ceiling(timeoutSeconds);
    if requested.None? || requested.value <= 0 then ceiling
    else
      var least := if requested.value < ceiling then requested.value else ceiling;
      if least < 1 then 1 else least
  }

  /** The documented range holds for every request exactly when the configured timeout is positive. */
  lemma ClampRange(timeoutSeconds: int)
    ensures (forall requested :: 1 <= ClampTimeout(timeoutSeconds, requested) <= Ceiling(timeoutSeconds))
            <==> timeoutSeconds >= 1
  {
    if timeoutSeconds < 1 {
      assert ClampTimeout(timeoutSeconds, None) < 1;
    }
  }

  /** A timeout the configuration, the global maximum and the request allow; a request that is absent or
      not positive asks for nothing. */
  predicate Permitted(timeoutSeconds: int, requested: Option<int>, seconds: int) {
    1 <= seconds <= 60 && seconds <= timeoutSeconds
    && (requested.Some? && requested.value > 0 ==> seconds <= requested.value)
  }

  /** For every positive configuration the clamped timeout is the greatest permitted one. */
  lemma ClampGreatest(timeoutSeconds: int, requested: Option<int>, seconds: int)
    requires timeoutSeconds >= 1
    ensures Permitted(timeoutSeconds, requested, ClampTimeout(timeoutSeconds, requested))
    ensures Permitted(timeoutSeconds, requested, seconds) ==> seconds <= ClampTimeout(timeoutSeconds, requested)
    ensures TimeoutMs(timeoutSeconds, requested) == 1000 * ClampTimeout(timeoutSeconds, requested)
  {
  }

  /** A request inside the range is honoured as it is; without one, or above it, the ceiling holds. */
  lemma ClampHonours(timeoutSeconds: int, requested: Option<int>)
    requires timeoutSeconds >= 1
    ensures var ceiling := if timeoutSeconds < 60 then timeoutSeconds else 60;
            ClampTimeout(timeoutSeconds, requested)
            == if requested.Some? && 1 <= requested.value <= ceiling then requested.value else ceiling
  {
  }

  /** The first timed wait: a timeout that is not positive expires at once. */
  function TimeoutMs(timeoutSeconds: int, requested: Option<int>): Millis {
    var t := ClampTimeout(timeoutSeconds, requested);
    if t < 0 then 0 else t * 1000
  }

  /** The timeout of each configured language, in seconds. */
  const LANGUAGE_TIMEOUTS: map<string, int> := map[
    "python" := 10, "javascript" := 10, "typescript" := 15, "java" := 20,
    "go" := 20, "ruby" := 10, "rust" := 25, "bash" := 10]

  // ---------------------------------------------------------------- the ladder

  datatype Outcome = Completed | TimedOut | Cancelled

  datatype Command = SigTerm | SigKill | ForceRemove | KillClient

  /** When things happen, in milliseconds: the container's own exit and the cancellation, counted from
      the start of the wait, and the reaction to each signal, counted from the signal. */
  datatype World = World(
    exitAt: Option<Millis>, cancelAt: Option<Millis>, termDelay: Option<Millis>, killDelay: Option<Millis>)

  predicate By(when: Option<Millis>, limit: Millis) {
    when.Some? && when.value <= limit
  }

  /** How long a wait for `when` with the given timeout lasts. */
  function Waited(when: Option<Millis>, limit: Millis): Millis {
    if By(when, limit) then when.value else limit
  }

  function Sum(waits: seq<Millis>): Millis {
    if waits == [] then 0 else waits[0] + Sum(waits[1..])
  }

  /** The container is done first: before the timeout and no later than the cancellation. */
  predicate ExitsFirst(w: World, timeoutMs: Millis) {
    By(w.exitAt, timeoutMs) && (w.cancelAt.None? || w.exitAt.value <= w.cancelAt.value)
  }

  /** How long the ladder takes: until the process ends, at most the grace period and five seconds. */
  function LadderTime(w: World, graceSeconds: nat): Millis {
    if By(w.termDelay, graceSeconds * 1000) then w.termDelay.value
    else graceSeconds * 1000 + Waited(w.killDelay, 5 * 1000)
  }

  /** `_terminate`: SIGTERM, the grace period, SIGKILL, five more seconds, and then removal by force. */
  method Terminate(w: World, graceSeconds: nat) returns (waits: seq<Millis>, commands: seq<Command>)
    ensures Sum(waits) <= (graceSeconds + 5) * 1000
    ensures Sum(waits) == LadderTime(w, graceSeconds)
    ensures commands != [] && commands[0] == SigTerm
    ensures SigKill in commands <==> !By(w.termDelay, graceSeconds * 1000)
    ensures ForceRemove in commands <==> SigKill in commands && !By(w.killDelay, 5 * 1000)
    ensures KillClient in commands <==> ForceRemove in commands
    ensures commands <= [SigTerm, SigKill, ForceRemove, KillClient]
  {
    commands := [SigTerm];
    waits := [Waited(w.termDelay, graceSeconds * 1000)];
    assert Sum(waits) == waits[0] + Sum(waits[1..]);
    if !By(w.termDelay, graceSeconds * 1000) {
      commands := commands + [SigKill];
      waits := waits + [Waited(w.killDelay, KILL_WAIT_SECONDS * 1000)];
      assert waits[1..] == [waits[1]] && Sum([waits[1]]) == waits[1] + Sum([waits[1]][1..]);
      if !By(w.killDelay, KILL_WAIT_SECONDS * 1000) {
        commands := commands + [ForceRemove, KillClient];
      }
    }
  }

  /** The wait for the process: until its exit, the cancellation or the timeout, whichever is first. */
  function FirstWait(w: World, timeoutMs: Millis): Millis {
    if ExitsFirst(w, timeoutMs) then w.exitAt.value
    else if By(w.cancelAt, timeoutMs) then w.cancelAt.value
    else timeoutMs
  }

  /** `_await_completion`. */
  method AwaitCompletion(w: World, timeoutMs: Millis, graceSeconds: nat)
    returns (outcome: Outcome, waits: seq<Millis>, commands: seq<Command>)
    ensures outcome == Completed <==> ExitsFirst(w, timeoutMs)
    ensures outcome == Cancelled <==> !ExitsFirst(w, timeoutMs) && By(w.cancelAt, timeoutMs)
    ensures commands == [] <==> outcome == Completed
    ensures Sum(waits) == FirstWait(w, timeoutMs) + if outcome == Completed then 0 else LadderTime(w, graceSeconds)
    ensures FirstWait(w, timeoutMs) <= timeoutMs && LadderTime(w, graceSeconds) <= (graceSeconds + 5) * 1000
  {
    var cancelled := By(w.cancelAt, timeoutMs);
    var limit := if cancelled then w.cancelAt.value else timeoutMs;
    var first := Waited(w.exitAt, limit);
    waits, commands := [first], [];
    assert Sum(waits) == first + Sum(waits[1..]);
    if By(w.exitAt, limit) {
      return Completed, waits, commands;
    }
    var more, sent := Terminate(w, graceSeconds);
    waits, commands := [first] + more, sent;
    assert waits[1..] == more;
    outcome := if cancelled then Cancelled else TimedOut;
  }

  // ---------------------------------------------------------------- the result

  datatype Report = Report(status: Status, exitCode: Option<int>, oomKilled: bool, timedOut: bool)

  /** `_build_result`. */
  function BuildReport(outcome: Outcome, returnCode: Option<int>): Report {
    match outcome
    case Completed =>
      if returnCode == Some(SIGKILL_EXIT) then Report(FAILED, returnCode, true, false)
      else Report(COMPLETED, returnCode, false, false)
    case TimedOut => Report(TIMEOUT, None, false, true)
    case Cancelled => Report(KILLED, None, false, false)
  }

  /** One execution, from the requested timeout to the report: its timed waits fit into the clamped
      timeout plus the ladder, and an out-of-memory kill is reported only for a container that exited
      with 137 before the worker sent it anything. */
  method Execute(w: World, timeoutSeconds: int, requested: Option<int>, graceSeconds: nat, returnCode: Option<int>)
    returns (report: Report, waits: seq<Millis>, commands: seq<Command>)
    ensures Sum(waits) <= TimeoutMs(timeoutSeconds, requested) + (graceSeconds + 5) * 1000
    ensures report.oomKilled <==> commands == [] && returnCode == Some(137)
    ensures var timeout := TimeoutMs(timeoutSeconds, requested);
            && (report.status == TIMEOUT <==> !ExitsFirst(w, timeout) && !By(w.cancelAt, timeout))
            && (report.status == KILLED <==> !ExitsFirst(w, timeout) && By(w.cancelAt, timeout))
            && (report.status == COMPLETED <==> ExitsFirst(w, timeout) && returnCode != Some(137))
    ensures report.status == FAILED <==> report.oomKilled
    ensures report.timedOut <==> report.status == TIMEOUT
    ensures commands == [] <==> report.status == COMPLETED || report.status == FAILED
    ensures report.exitCode == if commands == [] then returnCode else None
    ensures Terminal(report.status)
  {
    var outcome;
    outcome, waits, commands := AwaitCompletion(w, TimeoutMs(timeoutSeconds, requested), graceSeconds);
    report := BuildReport(outcome, returnCode);
  }

  /** With the default configuration no execution waits longer than 32 s, which leaves the 60 s lease
      of the claim protocol unbroken by the ladder. */
  lemma DefaultsFitLease(language: string, requested: Option<int>)
    requires language in LANGUAGE_TIMEOUTS
    ensures TimeoutMs(LANGUAGE_TIMEOUTS[language], requested) + (2 + KILL_WAIT_SECONDS) * 1000 <= 32_000 < 60_000
  {
  }
}
