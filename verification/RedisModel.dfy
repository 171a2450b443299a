/**
 The part of Redis that the API and the workers share: one stream with one consumer group, and the
 per-job keys. Each function below is the effect of one command, which Redis runs atomically.

 A key written with an expiry stays in its map after it has expired; a read looks at the expiry, so
 an expired key and a missing key cannot be told apart.
 */
module RedisModel {
  type JobId = string
  type EntryId = nat
  type WorkerId = nat
  type Millis = nat

  const RESULT_TTL_MS: Millis := 3_600_000
  const RECORD_TTL_MS: Millis := 7_200_000
  const CANCEL_TTL_MS: Millis := 120_000

  datatype Option<+T> = None | Some(value: T)

  datatype Status = PENDING | RUNNING | COMPLETED | FAILED | TIMEOUT | KILLED

  predicate Terminal(status: Status) {
    status in {COMPLETED, FAILED, TIMEOUT, KILLED}
  }

  datatype Result = Result(status: Status, stderr: string)

  datatype Record = Record(status: Status, result: Option<Result>)

  /** A key's value with the instant it expires, if any. */
  datatype Expiring<+T> = Expiring(value: T, expiresAt: Option<Millis>)

  /** What a stream entry carries. The API always writes a non-empty job id; `wellFormed` says
      whether the embedded request decodes. */
  datatype Payload = Payload(jobId: JobId, userId: string, wellFormed: bool)

  datatype Pending = Pending(owner: WorkerId, deliveredAt: Millis, count: nat)

  /** `cursor` is the group's last-delivered id plus one: exactly the ids below it were handed out. */
  datatype Redis = Redis(
    now: Millis,
    nextId: EntryId,
    stream: map<EntryId, Payload>,
    cursor: EntryId,
    pending: map<EntryId, Pending>,
    results: map<JobId, Expiring<Result>>,
    records: map<JobId, Expiring<Record>>,
    cancels: map<JobId, Millis>,
    dead: seq<Payload>)

  const EMPTY := Redis(0, 0, map[], 0, map[], map[], map[], map[], [])

  predicate Live<T>(key: Expiring<T>, now: Millis) {
    key.expiresAt.None? || now <= key.expiresAt.value
  }

  /** GET of a job's record. */
  function GetRecord(r: Redis, job: JobId): Option<Record> {
    if job in r.records && Live(r.records[job], r.now) then Some(r.records[job].value) else None
  }

  /** GET of a job's result. */
  function GetResult(r: Redis, job: JobId): Option<Result> {
    if job in r.results && Live(r.results[job], r.now) then Some(r.results[job].value) else None
  }

  /** SET … KEEPTTL: an existing key keeps its expiry, a missing one is created without any. */
  function SetRecordKeepTtl(r: Redis, job: JobId, record: Record): Redis {
    var expiry := if GetRecord(r, job).Some? then r.records[job].expiresAt else None;
    r.(records := r.records[job := Expiring(record, expiry)])
  }

  function SetResult(r: Redis, job: JobId, result: Result): Redis {
    r.(results := r.results[job := Expiring(result, Some(r.now + RESULT_TTL_MS))])
  }

  predicate Cancelled(r: Redis, job: JobId) {
    job in r.cancels && r.now <= r.cancels[job]
  }

  function Xadd(r: Redis, payload: Payload): Redis {
    r.(nextId := r.nextId + 1, stream := r.stream[r.nextId := payload])
  }

  /** MULTI / XADD / SET … EX / EXEC of the producer. */
  function Enqueue(r: Redis, payload: Payload): Redis {
    Xadd(r, payload).(records := r.records[payload.jobId :=
      Expiring(Record(PENDING, None), Some(r.now + RECORD_TTL_MS))])
  }

  /** MULTI / SET cancel EX 120 / SET record KEEPTTL / EXEC of the DELETE handler. */
  function CommitDelete(r: Redis, job: JobId, snapshot: Record): Redis {
    SetRecordKeepTtl(r.(cancels := r.cancels[job := r.now + CANCEL_TTL_MS]), job,
                     snapshot.(status := KILLED))
  }

  /** XREADGROUP … > of one entry: delivered once, with delivery count 1. */
  function Deliver(r: Redis, worker: WorkerId): Redis {
    r.(cursor := r.cursor + 1, pending := r.pending[r.cursor := Pending(worker, r.now, 1)])
  }

  /** Idle for at least `minIdle`: the filter of XPENDING IDLE and the guard of XCLAIM. */
  predicate Idle(r: Redis, id: EntryId, minIdle: Millis) {
    id in r.pending && r.now - r.pending[id].deliveredAt >= minIdle
  }

  /** XCLAIM of an entry that passed the idle guard. */
  function Xclaim(r: Redis, id: EntryId, worker: WorkerId): Redis
    requires id in r.pending
  {
    r.(pending := r.pending[id := Pending(worker, r.now, r.pending[id].count + 1)])
  }

  function Xack(r: Redis, id: EntryId): Redis {
    r.(pending := r.pending - {id})
  }

  function Xdel(r: Redis, id: EntryId): Redis {
    r.(stream := r.stream - {id})
  }

  /** The ids that no XREADGROUP has handed out yet. */
  function Undelivered(r: Redis): set<EntryId> {
    set id | id in r.stream && r.cursor <= id
  }
}
