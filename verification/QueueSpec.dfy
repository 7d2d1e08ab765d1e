/** The durable job queue (apps/daemon/graite/jobs/queue.py) over its table
    (apps/daemon/graite/index/schema.sql:97-118).

    The table's partial unique index on `key` is part of the model: no statement can leave two
    pending or running jobs with one key. A statement that would is refused and rolled back. */
module QueueSpec {
  import opened Common

  const SECOND := 1_000_000

  datatype Status = Pending | Running | Done | Failed | Cancelled

  /** `key` none is SQL's NULL. Times are microseconds. */
  datatype Job = Job(
    kind: string, key: Option<string>, payload: string, page: Option<string>, priority: int,
    status: Status, runAt: int, attempts: nat, maxAttempts: int, lockedAt: Option<int>)

  datatype Request = Request(
    kind: string, payload: string, key: Option<string>, page: Option<string>, priority: int,
    runAt: Option<int>, maxAttempts: int)

  datatype Refused = UniqueViolation

  type Jobs = map<nat, Job>

  predicate Active(job: Job) {
    job.status.Pending? || job.status.Running?
  }

  predicate Terminal(status: Status) {
    status.Done? || status.Failed? || status.Cancelled?
  }

  // ----- keys -----

  const NEXT := ":next"

  /** `key.endswith(":next")`. */
  predicate IsFollowUp(key: string) {
    |key| >= |NEXT| && key[|key| - |NEXT|..] == NEXT
  }

  /** `key[: -len(":next")]` of a follow-up key, other keys as they are. */
  function BaseKey(key: string): string {
    if IsFollowUp(key) then key[..|key| - |NEXT|] else key
  }

  /** The active jobs holding `key`; the unique index keeps this to one. */
  function Holders(jobs: Jobs, key: string): set<nat> {
    set id | id in jobs && Active(jobs[id]) && jobs[id].key == Some(key)
  }

  /** What the unique index promises of every committed table. */
  predicate UniqueKeys(jobs: Jobs) {
    forall i, j :: i in jobs && j in jobs && i != j && Active(jobs[i]) && Active(jobs[j]) && jobs[i].key.Some?
      ==> jobs[i].key != jobs[j].key
  }

  /** No other active job holds the key this row would hold. */
  predicate Admits(jobs: Jobs, id: nat, job: Job) {
    Active(job) && job.key.Some? ==> Holders(jobs, job.key.value) <= {id}
  }

  function Put(jobs: Jobs, id: nat, job: Job): Result<Jobs, Refused> {
    if Admits(jobs, id, job) then Ok(jobs[id := job]) else Err(UniqueViolation)
  }

  /** An admitted row keeps the index's promise. */
  lemma AdmittedKeepsUnique(jobs: Jobs, id: nat, job: Job)
    requires UniqueKeys(jobs) && Admits(jobs, id, job)
    ensures UniqueKeys(jobs[id := job])
  {
    if Active(job) && job.key.Some? {
      forall j | j in jobs && j != id && Active(jobs[j])
        ensures jobs[j].key != job.key
      {
        assert j !in Holders(jobs, job.key.value);
      }
    }
  }

  // ----- enqueue -----

  function NewJob(request: Request, key: Option<string>, now: int): Job {
    Job(request.kind, key, request.payload, request.page, request.priority, Pending,
        if request.runAt.Some? then request.runAt.value else now, 0, request.maxAttempts, None)
  }

  function Min(a: int, b: int): int {
    if a < b then a else b
  }

  /** A pending job takes the new payload, the better priority and the earlier start. */
  function Fold(job: Job, request: Request, now: int): Job {
    job.(priority := Min(job.priority, request.priority), payload := request.payload,
         runAt := Min(job.runAt, if request.runAt.Some? then request.runAt.value else now))
  }

  function PendingHolders(jobs: Jobs, key: string): set<nat> {
    set id | id in Holders(jobs, key) && jobs[id].status.Pending?
  }

  /** `enqueue`: `found` and `follow` are the rows its two queries fetched. */
  function Enqueue(jobs: Jobs, nextId: nat, request: Request, now: int, found: Option<nat>, follow: Option<nat>)
    : Result<(Jobs, nat), Refused>
    requires found.Some? ==> found.value in jobs
  {
    if request.key.None? || request.key.value == "" || found.None? then
      var put := Put(jobs, nextId, NewJob(request, request.key, now));
      if put.Ok? then Ok((put.value, nextId)) else Err(put.error)
    else if jobs[found.value].status.Pending? then
      Ok((jobs[found.value := Fold(jobs[found.value], request, now)], found.value))
    else if follow.Some? then Ok((jobs, follow.value))
    else
      var put := Put(jobs, nextId, NewJob(request, Some(request.key.value + NEXT), now));
      if put.Ok? then Ok((put.value, nextId)) else Err(put.error)
  }

  predicate Fetches(jobs: Jobs, ids: set<nat>, row: Option<nat>) {
    if row.Some? then row.value in ids else ids == {}
  }

  // ----- claim -----

  predicate Ready(jobs: Jobs, kinds: set<string>, now: int, id: nat) {
    id in jobs && jobs[id].status.Pending? && jobs[id].runAt <= now && jobs[id].kind in kinds
  }

  /** `ORDER BY priority, run_at`. */
  predicate NotAfter(a: Job, b: Job) {
    a.priority < b.priority || (a.priority == b.priority && a.runAt <= b.runAt)
  }

  /** A row `LIMIT 1` may return: ties are the database's choice. */
  predicate First(jobs: Jobs, kinds: set<string>, now: int, id: nat) {
    Ready(jobs, kinds, now, id) && forall other :: other in jobs && Ready(jobs, kinds, now, other) ==>
      NotAfter(jobs[id], jobs[other])
  }

  function Claimed(job: Job, now: int): Job {
    job.(status := Running, attempts := job.attempts + 1, lockedAt := Some(now),
         key := if job.key.Some? then Some(BaseKey(job.key.value)) else None)
  }

  /** The update of `claim`. A promoted follow-up needs its base key to be free. */
  function Claim(jobs: Jobs, id: nat, now: int): Result<Jobs, Refused>
    requires id in jobs
  {
    Put(jobs, id, Claimed(jobs[id], now))
  }

  // ----- the other statements -----

  function Progress(jobs: Jobs, id: nat, now: int): Jobs {
    if id in jobs then jobs[id := jobs[id].(lockedAt := Some(now))] else jobs
  }

  function Complete(jobs: Jobs, id: nat): Jobs {
    if id in jobs then jobs[id := jobs[id].(status := Done)] else jobs
  }

  predicate Retries(job: Job, retry: bool) {
    retry && job.attempts < job.maxAttempts
  }

  function Fail(jobs: Jobs, id: nat, retry: bool, now: int): Result<Jobs, Refused> {
    if id !in jobs then Ok(jobs)
    else if Retries(jobs[id], retry) then
      Put(jobs, id, jobs[id].(status := Pending, runAt := now + 30 * Pow2(jobs[id].attempts) * SECOND))
    else Ok(jobs[id := jobs[id].(status := Failed)])
  }

  function Cancel(jobs: Jobs, id: nat): Jobs {
    if id in jobs && jobs[id].status.Pending? then jobs[id := jobs[id].(status := Cancelled)] else jobs
  }

  function MarkCancelled(jobs: Jobs, id: nat): Jobs {
    if id in jobs then jobs[id := jobs[id].(status := Cancelled)] else jobs
  }

  predicate Stale(job: Job, cutoff: int) {
    job.status.Running? && job.lockedAt.Some? && job.lockedAt.value < cutoff
  }

  function Reap(jobs: Jobs, cutoff: int): Jobs {
    map id | id in jobs :: if Stale(jobs[id], cutoff) then jobs[id].(status := Pending) else jobs[id]
  }

  function Recover(jobs: Jobs): Jobs {
    map id | id in jobs :: if jobs[id].status.Running? then jobs[id].(status := Pending) else jobs[id]
  }

  /** The worker's own statement when its lane is shut down. */
  function Release(jobs: Jobs, id: nat): Result<Jobs, Refused> {
    if id in jobs then Put(jobs, id, jobs[id].(status := Pending)) else Ok(jobs)
  }
}
