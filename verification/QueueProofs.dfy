/** What one statement of the queue keeps and promises. */
module QueueProofs {
  import opened Common
  import opened QueueSpec

  // ----- keys -----

  lemma FollowUpOf(key: string)
    ensures IsFollowUp(key + NEXT) && BaseKey(key + NEXT) == key
  {
    assert (key + NEXT)[|key|..] == NEXT;
    assert (key + NEXT)[..|key|] == key;
  }

  lemma FollowUpSplit(key: string)
    requires IsFollowUp(key)
    ensures key == BaseKey(key) + NEXT
  {}

  /** A key as callers pass it: not itself a follow-up key. */
  predicate Plain(request: Request) {
    request.key.Some? ==> !IsFollowUp(request.key.value)
  }

  /** Stored keys are a caller's key or its follow-up; a running job holds a caller's key. */
  predicate KeyShape(job: Job) {
    job.key.Some? ==>
      !IsFollowUp(BaseKey(job.key.value)) && (job.status.Running? ==> !IsFollowUp(job.key.value))
  }

  ghost predicate Inv(jobs: Jobs, nextId: nat) {
    && UniqueKeys(jobs)
    && (forall id :: id in jobs ==> id < nextId && KeyShape(jobs[id]))
  }

  lemma PutKeeps(jobs: Jobs, nextId: nat, id: nat, job: Job)
    requires Inv(jobs, nextId) && id < nextId && Admits(jobs, id, job) && KeyShape(job)
    ensures Inv(jobs[id := job], nextId)
  {
    AdmittedKeepsUnique(jobs, id, job);
  }

  /** Rewriting an active row under its own key is always admitted. */
  lemma OwnKeyAdmitted(jobs: Jobs, id: nat, job: Job)
    requires UniqueKeys(jobs) && id in jobs && Active(jobs[id]) && job.key == jobs[id].key
    ensures Admits(jobs, id, job)
  {}

  // ----- enqueue -----

  /** The key is empty and in use, or it is executing and so is its follow-up key. */
  ghost predicate KeyTaken(jobs: Jobs, request: Request) {
    request.key.Some? &&
    var key := request.key.value;
    if key == "" then Holders(jobs, key) != {}
    else Executes(jobs, key) && Executes(jobs, key + NEXT)
  }

  ghost predicate Executes(jobs: Jobs, key: string) {
    exists id :: id in Holders(jobs, key) && jobs[id].status.Running?
  }

  /** The keys of active jobs are unique, and no id from `nextId` on is taken. */
  ghost predicate FreeFrom(jobs: Jobs, nextId: nat) {
    UniqueKeys(jobs) && forall id :: id in jobs ==> id < nextId
  }

  /** `enqueue`, for every key, is refused exactly when the key is taken. Otherwise it returns a job
      that is pending under the key or its follow-up and carries the request's payload, except
      when the request folds into a follow-up that was already waiting: then nothing changes.
      No other row is touched. */
  lemma EnqueueGivesPending(jobs: Jobs, nextId: nat, request: Request, now: int, found: Option<nat>,
      follow: Option<nat>)
    requires FreeFrom(jobs, nextId)
    requires var key := if request.key.Some? then request.key.value else "";
      Fetches(jobs, Holders(jobs, key), found) && Fetches(jobs, PendingHolders(jobs, key + NEXT), follow)
    ensures var r := Enqueue(jobs, nextId, request, now, found, follow);
      && (r.Err? <==> KeyTaken(jobs, request))
      && (r.Ok? ==> FreeFrom(r.value.0, nextId + 1) && Accepted(jobs, nextId, request, now, r.value.0, r.value.1))
  {
    var key := if request.key.Some? then request.key.value else "";
    if request.key.None? || key == "" || found.None? {
      assert nextId !in Holders(jobs, key);
      var row := NewJob(request, request.key, now);
      if Admits(jobs, nextId, row) { AdmittedKeepsUnique(jobs, nextId, row); }
    } else if jobs[found.value].status.Pending? {
      var row := Fold(jobs[found.value], request, now);
      OwnKeyAdmitted(jobs, found.value, row);
      AdmittedKeepsUnique(jobs, found.value, row);
    } else {
      EnqueueBehind(jobs, nextId, request, now, found.value, follow);
    }
  }

  /** The key is executing: the request goes to the follow-up. */
  lemma EnqueueBehind(jobs: Jobs, nextId: nat, request: Request, now: int, found: nat, follow: Option<nat>)
    requires FreeFrom(jobs, nextId) && request.key.Some? && request.key.value != ""
    requires found in Holders(jobs, request.key.value) && jobs[found].status.Running?
    requires Fetches(jobs, PendingHolders(jobs, request.key.value + NEXT), follow)
    ensures var r := Enqueue(jobs, nextId, request, now, Some(found), follow);
      && (r.Err? <==> KeyTaken(jobs, request))
      && (r.Ok? ==> FreeFrom(r.value.0, nextId + 1) && Accepted(jobs, nextId, request, now, r.value.0, r.value.1))
  {
    var next := request.key.value + NEXT;
    FollowUpOf(request.key.value);
    if follow.Some? {
      forall id | id in Holders(jobs, next) ensures id == follow.value {}
    } else {
      var row := NewJob(request, Some(next), now);
      forall id | id in Holders(jobs, next) ensures jobs[id].status.Running? && id != nextId {
        assert id !in PendingHolders(jobs, next);
      }
      if id :| id in Holders(jobs, next) {
        assert !Admits(jobs, nextId, row);
      } else {
        AdmittedKeepsUnique(jobs, nextId, row);
      }
    }
  }

  /** Behind callers that never use a follow-up key themselves only an empty key is ever taken, and
      the keys keep their shape. */
  lemma EnqueueKeeps(jobs: Jobs, nextId: nat, request: Request, now: int, found: Option<nat>, follow: Option<nat>)
    requires Inv(jobs, nextId) && Plain(request)
    requires var key := if request.key.Some? then request.key.value else "";
      Fetches(jobs, Holders(jobs, key), found) && Fetches(jobs, PendingHolders(jobs, key + NEXT), follow)
    ensures KeyTaken(jobs, request) <==> request.key == Some("") && Holders(jobs, "") != {}
    ensures var r := Enqueue(jobs, nextId, request, now, found, follow);
      r.Ok? ==> Inv(r.value.0, nextId + 1)
  {
    EnqueueGivesPending(jobs, nextId, request, now, found, follow);
    if request.key.Some? { FollowUpOf(request.key.value); }
  }

  /** When the request wants to run. */
  function Wanted(request: Request, now: int): int {
    if request.runAt.Some? then request.runAt.value else now
  }

  predicate LesserOf(least: int, a: int, b: int) {
    least <= a && least <= b && (least == a || least == b)
  }

  /** A waiting row that took the request in: its payload, the better priority, the earlier start. */
  predicate TookIn(was: Job, request: Request, now: int, job: Job) {
    && job.payload == request.payload
    && LesserOf(job.priority, was.priority, request.priority) && LesserOf(job.runAt, was.runAt, Wanted(request, now))
    && job.kind == was.kind && job.key == was.key && job.page == was.page && job.status == was.status
    && job.attempts == was.attempts && job.maxAttempts == was.maxAttempts && job.lockedAt == was.lockedAt
  }

  /** A row of its own for the request, never tried yet. */
  predicate MadeFor(request: Request, now: int, job: Job) {
    && job.kind == request.kind && job.payload == request.payload && job.page == request.page
    && job.priority == request.priority && job.runAt == Wanted(request, now) && job.maxAttempts == request.maxAttempts
    && job.attempts == 0 && job.lockedAt.None?
  }

  ghost predicate Accepted(jobs: Jobs, nextId: nat, request: Request, now: int, after: Jobs, id: nat) {
    && (id in jobs || id == nextId)
    && id in after && after[id].status.Pending?
    && (if request.key.Some? then after[id].key == request.key || after[id].key == Some(request.key.value + NEXT)
        else after[id].key.None?)
    && (forall other :: other in jobs && other != id ==> other in after && after[other] == jobs[other])
    && (forall other :: other in after && other != id ==> other in jobs)
    && (id !in jobs ==> MadeFor(request, now, after[id]))
    && (id in jobs ==> jobs[id].status.Pending?)
    && (id in jobs && jobs[id].key == request.key ==> TookIn(jobs[id], request, now, after[id]))
    && (id in jobs && jobs[id].key != request.key ==> after == jobs && IsFollowUp(jobs[id].key.value))
  }

  // ----- bounds from the index -----

  function Group(jobs: Jobs, base: string): set<nat> {
    set id | id in jobs && Active(jobs[id]) && jobs[id].key.Some? && BaseKey(jobs[id].key.value) == base
  }

  /** Coalescing bound: under one key at most one job runs, at most one follow-up waits, and no
      three jobs are active. */
  lemma AtMostTwoActive(jobs: Jobs, nextId: nat, base: string)
    requires Inv(jobs, nextId)
    ensures |Group(jobs, base)| <= 2
    ensures forall a, b | a in Group(jobs, base) && b in Group(jobs, base) && jobs[a].status.Running?
      && jobs[b].status.Running?
      :: a == b
    ensures forall a, b | a in Group(jobs, base) && b in Group(jobs, base) && IsFollowUp(jobs[a].key.value)
      && IsFollowUp(jobs[b].key.value)
      :: a == b && jobs[a].status.Pending?
  {
    var own, next := Holders(jobs, base), Holders(jobs, base + NEXT);
    forall id | id in Group(jobs, base)
      ensures if IsFollowUp(jobs[id].key.value) then id in next else id in own
    {
      if IsFollowUp(jobs[id].key.value) { FollowUpSplit(jobs[id].key.value); }
    }
    AtMostOne(own, jobs, base);
    AtMostOne(next, jobs, base + NEXT);
    assert Group(jobs, base) <= own + next;
    SubsetSize(Group(jobs, base), own + next);
  }

  lemma SubsetSize(a: set<nat>, b: set<nat>)
    requires a <= b
    ensures |a| <= |b|
  {
    assert b == a + (b - a);
  }

  lemma AtMostOne(ids: set<nat>, jobs: Jobs, key: string)
    requires UniqueKeys(jobs) && ids == Holders(jobs, key)
    ensures |ids| <= 1
  {
    if ids != {} {
      var id :| id in ids;
      assert ids == {id};
    }
  }

  // ----- claim -----

  /** A claim is refused exactly when it would promote a follow-up whose base key is still active. */
  lemma ClaimRefusedExactly(jobs: Jobs, nextId: nat, id: nat, now: int)
    requires Inv(jobs, nextId) && id in jobs && jobs[id].status.Pending?
    ensures Claim(jobs, id, now).Err? <==>
      jobs[id].key.Some? && IsFollowUp(jobs[id].key.value) && Holders(jobs, BaseKey(jobs[id].key.value)) != {}
  {
    if jobs[id].key.Some? {
      var base := BaseKey(jobs[id].key.value);
      if IsFollowUp(jobs[id].key.value) {
        assert id !in Holders(jobs, base);
      } else {
        OwnKeyAdmitted(jobs, id, Claimed(jobs[id], now));
      }
    }
  }

  lemma ClaimKeeps(jobs: Jobs, nextId: nat, id: nat, now: int)
    requires Inv(jobs, nextId) && id in jobs && Claim(jobs, id, now).Ok?
    ensures Inv(Claim(jobs, id, now).value, nextId)
  {
    var job := Claimed(jobs[id], now);
    if job.key.Some? { assert BaseKey(job.key.value) == job.key.value; }
    PutKeeps(jobs, nextId, id, job);
  }

  // ----- the blocked lane -----

  /** `follow` waits for a key that `base` holds. */
  predicate Blocks(jobs: Jobs, base: nat, follow: nat) {
    && base in jobs && Active(jobs[base]) && jobs[base].key.Some?
    && follow in jobs && jobs[follow].status.Pending? && jobs[follow].key == Some(jobs[base].key.value + NEXT)
  }

  /** Every other pending job of the lane comes strictly after `follow`. */
  predicate Heads(jobs: Jobs, kinds: set<string>, follow: nat) {
    && follow in jobs && jobs[follow].status.Pending? && jobs[follow].kind in kinds
    && forall id :: id in jobs && id != follow && jobs[id].status.Pending? && jobs[id].kind in kinds ==>
      !NotAfter(jobs[id], jobs[follow])
  }

  /** A lane whose first job is a blocked follow-up claims nothing, however long it waits. */
  lemma BlockedLaneClaimsNothing(jobs: Jobs, nextId: nat, kinds: set<string>, base: nat, follow: nat)
    requires Inv(jobs, nextId) && Blocks(jobs, base, follow) && Heads(jobs, kinds, follow)
    ensures forall now, id :: now >= jobs[follow].runAt && First(jobs, kinds, now, id) ==>
      id == follow && Claim(jobs, id, now).Err?
  {
    forall now, id | now >= jobs[follow].runAt && First(jobs, kinds, now, id)
      ensures id == follow && Claim(jobs, id, now).Err?
    {
      assert Ready(jobs, kinds, now, follow);
      FollowUpOf(jobs[base].key.value);
      ClaimRefusedExactly(jobs, nextId, follow, now);
      assert base in Holders(jobs, jobs[base].key.value);
    }
  }

  /** A retry of a job whose follow-up waits blocks the lane from then on: the retried job keeps
      the key and runs later than the follow-up. */
  lemma RetryBlocksLane(jobs: Jobs, nextId: nat, kinds: set<string>, base: nat, follow: nat, now: int)
    requires Inv(jobs, nextId) && Blocks(jobs, base, follow) && jobs[base].status.Running? && Retries(jobs[base], true)
    requires Heads(jobs, kinds, follow) && jobs[follow].priority <= jobs[base].priority && jobs[follow].runAt <= now
    ensures var r := Fail(jobs, base, true, now);
      && r.Ok? && Inv(r.value, nextId) && Blocks(r.value, base, follow) && Heads(r.value, kinds, follow)
      && forall later, id :: later >= now && First(r.value, kinds, later, id) ==> Claim(r.value, id, later).Err?
  {
    var row := jobs[base].(status := Pending, runAt := now + 30 * Pow2(jobs[base].attempts) * SECOND);
    FollowUpOf(jobs[base].key.value);
    OwnKeyAdmitted(jobs, base, row);
    PutKeeps(jobs, nextId, base, row);
    DelayPositive(jobs[base].attempts);
    BlockedLaneClaimsNothing(jobs[base := row], nextId, kinds, base, follow);
  }

  lemma {:induction false} DelayPositive(n: nat)
    ensures Pow2(n) >= 1 && 30 * Pow2(n) * SECOND > 0
  {
    if n > 0 { DelayPositive(n - 1); }
  }

  /** Asking for the key again, later and no more urgently, does not unblock the lane. */
  lemma AskingAgainKeepsBlocked(jobs: Jobs, nextId: nat, kinds: set<string>, base: nat, follow: nat,
                                request: Request, now: int, other: Option<nat>)
    requires Inv(jobs, nextId) && Blocks(jobs, base, follow) && Heads(jobs, kinds, follow) && jobs[base].status.Pending?
    requires request.key == jobs[base].key && request.key != Some("") && request.runAt.None?
    requires request.priority >= jobs[follow].priority && now > jobs[follow].runAt
      && jobs[base].runAt > jobs[follow].runAt
    ensures var r := Enqueue(jobs, nextId, request, now, Some(base), other);
      r.Ok? && r.value.1 == base && Blocks(r.value.0, base, follow) && Heads(r.value.0, kinds, follow)
  {
    FollowUpOf(jobs[base].key.value);
    assert base != follow;
  }

  /** Four ordinary steps from the empty table reach a blocked lane: a request, its claim, a
      second request meanwhile, and a failure that is retried. */
  lemma BlockedLaneReachable(request: Request, t0: int, t1: int, t2: int, t3: int)
    requires Plain(request) && request.key.Some? && request.key != Some("") && request.runAt.None?
    requires request.maxAttempts >= 2 && t0 <= t1 <= t2 <= t3
    ensures var enqueued := Enqueue(map[], 0, request, t0, None, None);
      && enqueued.Ok?
      && First(enqueued.value.0, {request.kind}, t1, 0)
      && var claimed := Claim(enqueued.value.0, 0, t1);
      && claimed.Ok?
      && var again := Enqueue(claimed.value, 1, request, t2, Some(0), None);
      && again.Ok? && again.value.1 == 1
      && var failed := Fail(again.value.0, 0, true, t3);
      && failed.Ok?
      && (exists id :: First(failed.value, {request.kind}, t3, id))
      && forall later, id :: later >= t3 && First(failed.value, {request.kind}, later, id) ==>
        Claim(failed.value, id, later).Err?
  {
    var row, next := NewJob(request, request.key, t0), NewJob(request, Some(request.key.value + NEXT), t2);
    var running := Claimed(row, t1);
    assert Enqueue(map[], 0, request, t0, None, None) == Ok((map[0 := row], 0));
    assert map[0 := row][0 := running] == map[0 := running];
    assert Claim(map[0 := row], 0, t1) == Ok(map[0 := running]);
    FollowUpOf(request.key.value);
    var both: Jobs := map[0 := running, 1 := next];
    assert map[0 := running][1 := next] == both;
    assert Enqueue(map[0 := running], 1, request, t2, Some(0), None) == Ok((both, 1));
    assert Inv(both, 2);
    RetryBlocksLane(both, 2, {request.kind}, 0, 1, t3);
    DelayPositive(1);
    assert First(Fail(both, 0, true, t3).value, {request.kind}, t3, 1);
  }

  // ----- the other statements -----

  lemma FailKeeps(jobs: Jobs, nextId: nat, id: nat, retry: bool, now: int)
    requires Inv(jobs, nextId) && id in jobs && Active(jobs[id])
    ensures var r := Fail(jobs, id, retry, now); r.Ok? && Inv(r.value, nextId)
  {
    if Retries(jobs[id], retry) {
      var row := jobs[id].(status := Pending, runAt := now + 30 * Pow2(jobs[id].attempts) * SECOND);
      OwnKeyAdmitted(jobs, id, row);
      PutKeeps(jobs, nextId, id, row);
    }
  }

  lemma ReleaseKeeps(jobs: Jobs, nextId: nat, id: nat)
    requires Inv(jobs, nextId) && id in jobs && Active(jobs[id])
    ensures var r := Release(jobs, id); r.Ok? && Inv(r.value, nextId)
  {
    OwnKeyAdmitted(jobs, id, jobs[id].(status := Pending));
    PutKeeps(jobs, nextId, id, jobs[id].(status := Pending));
  }

  lemma OthersKeep(jobs: Jobs, nextId: nat, id: nat, cutoff: int, now: int)
    requires Inv(jobs, nextId)
    ensures Inv(Reap(jobs, cutoff), nextId) && Inv(Recover(jobs), nextId)
    ensures Inv(Complete(jobs, id), nextId) && Inv(Cancel(jobs, id), nextId) && Inv(MarkCancelled(jobs, id), nextId)
    ensures Inv(Progress(jobs, id, now), nextId)
  {}

  /** Only the row `id` differs. */
  predicate OnlyRow(jobs: Jobs, after: Jobs, id: nat) {
    after.Keys == jobs.Keys && forall other :: other in jobs && other != id ==> after[other] == jobs[other]
  }

  /** Two rows that agree on what a request asked for. */
  predicate SameAsk(a: Job, b: Job) {
    a.kind == b.kind && a.payload == b.payload && a.page == b.page && a.priority == b.priority &&
    a.maxAttempts == b.maxAttempts
  }

  /** What an accepted claim writes: the row runs, is tried once more and holds a caller's key. */
  lemma ClaimWrites(jobs: Jobs, id: nat, now: int)
    requires id in jobs && Claim(jobs, id, now).Ok?
    ensures var after := Claim(jobs, id, now).value;
      && OnlyRow(jobs, after, id) && SameAsk(jobs[id], after[id]) && after[id].runAt == jobs[id].runAt
      && after[id].status.Running? && after[id].attempts == jobs[id].attempts + 1 && after[id].lockedAt == Some(now)
      && (jobs[id].key.None? <==> after[id].key.None?)
      && (jobs[id].key.Some? ==>
            (after[id].key == jobs[id].key && !IsFollowUp(jobs[id].key.value)) ||
            jobs[id].key.value == after[id].key.value + NEXT)
  {
    if jobs[id].key.Some? && IsFollowUp(jobs[id].key.value) { FollowUpSplit(jobs[id].key.value); }
  }

  /** What a failure writes: another try later, twice as late with each try, or the end. */
  lemma FailWrites(jobs: Jobs, id: nat, retry: bool, now: int)
    requires UniqueKeys(jobs) && id in jobs && Active(jobs[id])
    ensures var r := Fail(jobs, id, retry, now);
      && r.Ok? && OnlyRow(jobs, r.value, id) && SameAsk(jobs[id], r.value[id])
      && r.value[id].key == jobs[id].key && r.value[id].attempts == jobs[id].attempts
      && (if retry && jobs[id].attempts < jobs[id].maxAttempts
          then r.value[id].status.Pending? && r.value[id].runAt - now == 30_000_000 * Pow2(jobs[id].attempts)
          else r.value[id].status.Failed? && r.value[id].runAt == jobs[id].runAt)
  {
    if Retries(jobs[id], retry) {
      OwnKeyAdmitted(jobs, id, jobs[id].(status := Pending, runAt := now + 30 * Pow2(jobs[id].attempts) * SECOND));
    }
  }

  /** What the sweeps write: exactly the running rows that are meant wait again, as they were asked for. */
  lemma SweepsWrite(jobs: Jobs, cutoff: int, id: nat)
    requires id in jobs
    ensures Reap(jobs, cutoff).Keys == jobs.Keys == Recover(jobs).Keys
    ensures Reap(jobs, cutoff)[id] ==
      if jobs[id].status == Running && jobs[id].lockedAt.Some? && jobs[id].lockedAt.value < cutoff
      then jobs[id].(status := Pending) else jobs[id]
    ensures Recover(jobs)[id] == if jobs[id].status == Running then jobs[id].(status := Pending) else jobs[id]
  {}

  /** What the statements on one row write: its status, or its lock time, and nothing else. */
  lemma RowsWritten(jobs: Jobs, id: nat, now: int)
    requires id in jobs
    ensures OnlyRow(jobs, Complete(jobs, id), id) && Complete(jobs, id)[id] == jobs[id].(status := Done)
    ensures OnlyRow(jobs, MarkCancelled(jobs, id), id) && MarkCancelled(jobs, id)[id] == jobs[id].(status := Cancelled)
    ensures OnlyRow(jobs, Cancel(jobs, id), id)
    ensures Cancel(jobs, id)[id] == if jobs[id].status == Pending then jobs[id].(status := Cancelled) else jobs[id]
    ensures OnlyRow(jobs, Progress(jobs, id, now), id)
      && Progress(jobs, id, now)[id] == jobs[id].(lockedAt := Some(now))
  {}

  // ----- a request that is lost -----

  /** A job that is reaped while it still executes takes a second request in, and the first
      execution then completes the row: the second request never starts. */
  lemma ReapLosesRequest(first: Request, second: Request, t0: int, t1: int, t2: int, cutoff: int)
    requires Plain(first) && first.key.Some? && first.key != Some("") && second.key == first.key
    requires cutoff > t1
    ensures var enqueued := Enqueue(map[], 0, first, t0, None, None);
      && enqueued.Ok? && enqueued.value.1 == 0
      && var claimed := Claim(enqueued.value.0, 0, t1);
      && claimed.Ok?
      && var reaped := Reap(claimed.value, cutoff);
      && var again := Enqueue(reaped, 1, second, t2, Some(0), None);
      && again.Ok? && again.value.1 == 0 && again.value.0[0].status.Pending?
        && again.value.0[0].payload == second.payload
      && var done := Complete(again.value.0, 0);
      && done[0].status.Done? && done[0].attempts == 1 && done.Keys == {0}
  {
    var row := NewJob(first, first.key, t0);
    assert Admits(map[], 0, row);
    var jobs: Jobs := map[0 := row];
    assert Enqueue(map[], 0, first, t0, None, None) == Ok((jobs, 0));
    var running := Claimed(row, t1);
    assert Holders(jobs, first.key.value) <= {0};
    assert jobs[0 := running] == map[0 := running];
    assert Claim(jobs, 0, t1) == Ok(map[0 := running]);
  }
}
