/** The schedule object. */
module Cron {
  import opened Common
  import opened PythonText
  import opened CronSpec
  import CronProofs
  import When
  import WhenProofs
  import QueueSpec
  import Queue
  import QueueProofs

  const PRIORITY_SUMMARY := 8

  function Key(id: string): string {
    "cron:" + id
  }

  function FireRequest(row: Row, id: string): QueueSpec.Request {
    QueueSpec.Request(row.kind, row.payload, Some(Key(id)), row.page, PRIORITY_SUMMARY, None, 1)
  }

  /** The job a firing schedule waits with: a new one of its kind, payload and page, due now and tried
      once; or the one that waited already, which takes the payload in unless it is a follow-up. */
  predicate JobOf(row: Row, id: string, now: int, before: QueueSpec.Jobs, jobs: QueueSpec.Jobs, job: nat) {
    job in jobs && jobs[job].key.Some? &&
    (jobs[job].key.value == "cron:" + id || jobs[job].key.value == "cron:" + id + ":next") &&
    if job !in before then
      && jobs[job].kind == row.kind && jobs[job].payload == row.payload && jobs[job].page == row.page
      && jobs[job].priority == PRIORITY_SUMMARY && jobs[job].runAt == now
      && jobs[job].attempts == 0 && jobs[job].maxAttempts == 1
    else if jobs[job].key.value == "cron:" + id then
      jobs[job].payload == row.payload && jobs[job].runAt <= now && jobs[job].priority <= PRIORITY_SUMMARY
    else jobs == before
  }

  /** Some pending job waits under the schedule's key or its follow-up. */
  predicate Waiting(jobs: QueueSpec.Jobs, id: string) {
    exists job :: job in jobs && jobs[job].status.Pending? && jobs[job].key.Some?
      && QueueSpec.BaseKey(jobs[job].key.value) == Key(id)
  }

  /** Whoever had a waiting job still has one. */
  ghost predicate StillWaiting(jobs: QueueSpec.Jobs, later: QueueSpec.Jobs) {
    forall id :: Waiting(jobs, id) ==> Waiting(later, id)
  }

  function DueIds(rows: map<string, Row>, at: int): set<string> {
    set id | id in rows && Due(rows[id], at)
  }

  /** Every live schedule that was due has a waiting job. */
  ghost predicate DueQueued(rows: map<string, Row>, at: int, jobs: QueueSpec.Jobs) {
    forall id :: id in rows && Due(rows[id], at) && rows[id].kind != RETIRED ==> Waiting(jobs, id)
  }

  /** No live schedule is due. */
  predicate NoneDue(rows: map<string, Row>, at: int) {
    forall id :: id in rows && rows[id].kind != RETIRED ==> !Due(rows[id], at)
  }

  function FiredIds(rows: map<string, Row>, done: set<string>): set<string> {
    set id | id in done && id in rows && rows[id].kind != RETIRED
  }

  /** Every stored rule has a next run. */
  ghost predicate RulesValid(rows: map<string, Row>) {
    forall id :: id in rows ==> ValidRule(rows[id].rule) && !rows[id].rule.Unreadable?
  }

  /** How far a tick got: the rows in `done` are dealt with, the others are as before. */
  ghost predicate Ticked(before: map<string, Row>, at: int, done: set<string>, rows: map<string, Row>,
      fired: set<string>,
                         jobs: QueueSpec.Jobs)
  {
    && RulesValid(before) && done <= DueIds(before, at) && rows.Keys == before.Keys
    && (forall id :: id in before ==> rows[id] == if id in done then TickRow(before[id], at) else before[id])
    && fired == FiredIds(before, done)
    && (forall id :: id in done && before[id].kind != RETIRED ==> Waiting(jobs, id))
  }

  lemma TickedMore(
    before: map<string, Row>, at: int, done: set<string>, rows: map<string, Row>, fired: set<string>,
    jobs: QueueSpec.Jobs, id: string, next: map<string, Row>, more: set<string>, later: QueueSpec.Jobs)
    requires Ticked(before, at, done, rows, fired, jobs) && id in DueIds(before, at) && id !in done
    requires next == rows[id := TickRow(before[id], at)]
    requires more == fired + if before[id].kind != RETIRED then {id} else {}
    requires before[id].kind != RETIRED ==> Waiting(later, id)
    requires StillWaiting(jobs, later)
    ensures Ticked(before, at, done + {id}, next, more, later)
  {}

  lemma TickedAll(before: map<string, Row>, at: int, rows: map<string, Row>, fired: set<string>, jobs: QueueSpec.Jobs)
    requires Ticked(before, at, DueIds(before, at), rows, fired, jobs)
    ensures RulesValid(before) && rows == map id | id in before :: TickRow(before[id], at)
    ensures DueQueued(before, at, jobs)
    ensures NoneDue(rows, at)
  {
    forall id | id in before && before[id].kind != RETIRED ensures !Due(TickRow(before[id], at), at) {
      CronProofs.TickSettles(before[id], at);
    }
    forall id | id in before && id !in DueIds(before, at) ensures TickRow(before[id], at) == before[id] {}
    forall id | id in before && Due(before[id], at) && before[id].kind != RETIRED
      ensures Waiting(jobs, id)
    {
      assert id in DueIds(before, at);
    }
  }

  datatype Failure = NoSuchRow | Retired | BadExpression

  /** Names are cut to 120 characters. */
  function Cut(name: string): (cut: string)
    ensures cut <= name && |cut| <= 120 && (|cut| == 120 || cut == name)
  {
    if |name| > 120 then name[..120] else name
  }

  /** A blank name keeps the old one. */
  function NewName(row: Row, name: Option<string>): string {
    if name.Some? && Strip(name.value, IsSpace) != "" then Cut(Strip(name.value, IsSpace)) else row.name
  }

  function NewRule(row: Row, rule: Option<Rule>): Rule {
    if rule.Some? then rule.value else row.rule
  }

  /** A new expression, or a row switched on again, is timed from now. */
  predicate LooksAhead(row: Row, rule: Option<Rule>, enabled: Option<bool>) {
    rule.Some? || (enabled == Some(true) && !row.enabled)
  }

  class Schedules {
    var rows: map<string, Row>
    const queue: Queue.JobQueue

    ghost predicate Valid()
      reads this, queue
    {
      && queue.Valid() && QueueProofs.Inv(queue.jobs, queue.nextId)
      && RulesValid(rows) && forall id :: id in rows ==> !QueueSpec.IsFollowUp(Key(id))
    }

    constructor (queue: Queue.JobQueue)
      requires queue.Valid() && QueueProofs.Inv(queue.jobs, queue.nextId)
      ensures Valid() && rows == map[] && this.queue == queue
    {
      rows := map[];
      this.queue := queue;
    }

    /** `create`: a replaced row keeps its history; an expression without a next run is refused. */
    method Create(id: string, name: string, rule: Rule, kind: string, payload: string, page: Option<string>,
                  enabled: bool, now: int) returns (r: Result<Row, Failure>)
      requires Valid() && ValidRule(rule) && !QueueSpec.IsFollowUp(Key(id))
      modifies this
      ensures Valid()
      ensures NextOf(rule, now).None? ==> r == Err(BadExpression) && rows == old(rows)
      ensures NextOf(rule, now).Some? ==>
        var was := if id in old(rows) then Some(old(rows)[id]) else None;
        var row := Row(Cut(name), rule, kind, payload, page, enabled,
                       if was.Some? then was.value.lastRunAt else None, NextOf(rule, now),
                       if was.Some? then was.value.lastStatus else None, if was.Some? then was.value.failures else 0);
        r == Ok(row) && rows == old(rows)[id := row] && row.nextRunAt.value > now
    {
      ReadableHasNext(rule, now);
      var next := NextOf(rule, now);
      if next.None? { return Err(BadExpression); }
      var was := if id in rows then Some(rows[id]) else None;
      var row := Row(Cut(name), rule, kind, payload, page, enabled,
                     if was.Some? then was.value.lastRunAt else None, next,
                     if was.Some? then was.value.lastStatus else None, if was.Some? then was.value.failures else 0);
      rows := rows[id := row];
      r := Ok(row);
    }

    /** `update`: a new expression restarts the count of failures; re-enabling looks ahead from now. */
    method Update(id: string, name: Option<string>, rule: Option<Rule>, enabled: Option<bool>, now: int)
        returns (r: Result<Row, Failure>)
      requires Valid() && (rule.Some? ==> ValidRule(rule.value))
      modifies this
      ensures Valid()
      ensures r == Err(NoSuchRow) <==> id !in old(rows)
      ensures id in old(rows) ==> (r.Ok? <==>
        (LooksAhead(old(rows)[id], rule, enabled) ==> NextOf(NewRule(old(rows)[id], rule), now).Some?))
      ensures r.Err? ==> rows == old(rows)
      ensures r.Ok? ==> rows == old(rows)[id := r.value] && r.value == old(rows)[id].(
        name := NewName(old(rows)[id], name), rule := NewRule(old(rows)[id], rule),
        enabled := if enabled.Some? then enabled.value else old(rows)[id].enabled,
        nextRunAt := if LooksAhead(old(rows)[id], rule, enabled)
          then NextOf(NewRule(old(rows)[id], rule), now) else old(rows)[id].nextRunAt,
        failures := if rule.Some? then 0 else old(rows)[id].failures)
    {
      if id !in rows { return Err(NoSuchRow); }
      var row := rows[id];
      if name.Some? && Strip(name.value, IsSpace) != "" {
        row := row.(name := Cut(Strip(name.value, IsSpace)));
      }
      if rule.Some? {
        var next := NextOf(rule.value, now);
        if next.None? { return Err(BadExpression); }
        row := row.(rule := rule.value, nextRunAt := next, failures := 0);
      }
      if enabled.Some? {
        row := row.(enabled := enabled.value);
        if enabled.value && !rows[id].enabled {
          var next := NextOf(row.rule, now);
          if next.None? { return Err(BadExpression); }
          row := row.(nextRunAt := next);
        }
      }
      rows := rows[id := row];
      r := Ok(row);
    }

    /** `fire`: afterwards a job waits for the schedule, and every job that waited still does. */
    method Fire(id: string, now: int) returns (r: Result<nat, Failure>)
      requires Valid()
      modifies queue
      ensures Valid()
      ensures r == Err(NoSuchRow) <==> id !in rows
      ensures r == Err(Retired) <==> id in rows && rows[id].kind == RETIRED
      ensures r.Err? ==> queue.jobs == old(queue.jobs) && (id !in rows || rows[id].kind == RETIRED)
      ensures r.Ok? ==> r.value in queue.jobs && queue.jobs[r.value].status.Pending? && Waiting(queue.jobs, id)
      ensures r.Ok? ==> JobOf(rows[id], id, now, old(queue.jobs), queue.jobs, r.value)
      ensures StillWaiting(old(queue.jobs), queue.jobs)
    {
      if id !in rows { return Err(NoSuchRow); }
      if rows[id].kind == RETIRED { return Err(Retired); }
      var request := FireRequest(rows[id], id);
      ghost var before, nextId := queue.jobs, queue.nextId;
      var enqueued := queue.Enqueue(request, now);
      ghost var found, follow :|
        && QueueSpec.Fetches(before, QueueSpec.Holders(before, Key(id)), found)
        && QueueSpec.Fetches(before, QueueSpec.PendingHolders(before, Key(id) + QueueSpec.NEXT), follow)
        && var spec := QueueSpec.Enqueue(before, nextId, request, now, found, follow);
           if spec.Ok? then queue.jobs == spec.value.0 && enqueued == Ok(spec.value.1)
           else queue.jobs == before && enqueued == Err(spec.error);
      QueueProofs.EnqueueGivesPending(before, nextId, request, now, found, follow);
      QueueProofs.EnqueueKeeps(before, nextId, request, now, found, follow);
      AcceptedKeepsWaiting(before, nextId, request, queue.jobs, now, enqueued.value, id);
      AcceptedIsJobOf(rows[id], before, nextId, queue.jobs, now, enqueued.value, id);
      assert Waiting(queue.jobs, id);
      r := Ok(enqueued.value);
    }

    /** One turn of the loop of `tick`, for a due row. */
    method TickOne(id: string, at: int) returns (fired: bool)
      requires Valid() && id in rows && Due(rows[id], at)
      modifies this, queue
      ensures Valid()
      ensures rows == old(rows)[id := TickRow(old(rows)[id], at)]
      ensures fired == (old(rows)[id].kind != RETIRED)
      ensures old(rows)[id].kind != RETIRED ==> Waiting(queue.jobs, id)
      ensures StillWaiting(old(queue.jobs), queue.jobs)
    {
      var row := rows[id];
      var job := Fire(id, at);
      fired := false;
      if job.Ok? {
        ReadableHasNext(row.rule, at);
        var next := NextOf(row.rule, at);
        if next.Some? {
          rows := rows[id := row.(nextRunAt := next)];
          fired := true;
        }
      }
    }

    /** `tick`: every due, live row gets a waiting job and moves on, so that none stays due. */
    method Tick(at: int) returns (fired: set<string>)
      requires Valid()
      modifies this, queue
      ensures Valid() && RulesValid(old(rows))
      ensures rows == map id | id in old(rows) :: TickRow(old(rows)[id], at)
      ensures fired == FiredIds(old(rows), DueIds(old(rows), at))
      ensures DueQueued(old(rows), at, queue.jobs)
      ensures NoneDue(rows, at)
    {
      ghost var before := rows;
      var due := set id | id in rows && Due(rows[id], at);
      ghost var done: set<string> := {};
      fired := {};
      while due != {}
        invariant Valid()
        invariant due !! done && due + done == DueIds(before, at)
        invariant Ticked(before, at, done, rows, fired, queue.jobs)
        decreases due
      {
        var id :| id in due;
        assert id in DueIds(before, at) && rows[id] == before[id];
        ghost var rows0, fired0, jobs0 := rows, fired, queue.jobs;
        var ok := TickOne(id, at);
        if ok { fired := fired + {id}; }
        TickedMore(before, at, done, rows0, fired0, jobs0, id, rows, fired, queue.jobs);
        due, done := due - {id}, done + {id};
      }
      TickedAll(before, at, rows, fired, queue.jobs);
    }

    /** `on_job_finished`: a cancelled run is only noted; a success is the new last run, clears the
        failures and plans the first run after now; a failure counts and waits. */
    method OnJobFinished(id: string, finish: Finish, at: int)
      requires Valid()
      modifies this
      ensures Valid()
      ensures rows == if id in old(rows) then old(rows)[id := FinishRow(old(rows)[id], finish, at)] else old(rows)
      ensures id in old(rows) ==> Finished(old(rows)[id], finish, at, rows[id])
    {
      if id !in rows { return; }
      var row := rows[id];
      ghost var was := row;
      match finish {
        case Succeeded =>
          row := row.(lastRunAt := Some(at), lastStatus := Some("succeeded"), failures := 0,
                      nextRunAt := NextOf(row.rule, at));
        case Cancelled =>
          row := row.(lastStatus := Some("cancelled"));
        case FailedWith(error) =>
          var failures := row.failures + 1;
          var wait := Wait(row.rule, at, failures);
          row := row.(lastStatus := Some(FailedStatus(error)), failures := failures, nextRunAt := Some(at + wait));
      }
      FinishMeans(was, finish, at, row);
      rows := rows[id := row];
    }
  }

  /** What the end of a job means for its schedule. */
  ghost predicate Finished(row: Row, finish: Finish, at: int, after: Row) {
    && ValidRule(row.rule) && !row.rule.Unreadable?
    && after.name == row.name && after.rule == row.rule && after.kind == row.kind && after.payload == row.payload
    && after.page == row.page && after.enabled == row.enabled
    && match finish
       case Cancelled =>
         after.lastStatus == Some("cancelled") && after.lastRunAt == row.lastRunAt &&
         after.nextRunAt == row.nextRunAt && after.failures == row.failures
       case Succeeded =>
         after.lastStatus == Some("succeeded") && after.lastRunAt == Some(at) && after.failures == 0 &&
         after.nextRunAt.Some? && FirstRunAfter(row.rule, at, after.nextRunAt.value)
       case FailedWith(error) =>
         && after.lastStatus == Some(FailedStatus(error)) && after.lastRunAt == row.lastRunAt
         && after.failures == row.failures + 1 && after.nextRunAt.Some?
         && var wait := after.nextRunAt.value - at;
            && 2 * When.MINUTE <= wait <= DAY_BACKOFF
            && (wait < DAY_BACKOFF ==> wait == Gap(row.rule, at) * Pow2(after.failures))
            && (wait == DAY_BACKOFF ==> Gap(row.rule, at) * Pow2(after.failures) >= DAY_BACKOFF)
  }

  lemma FinishMeans(row: Row, finish: Finish, at: int, after: Row)
    requires ValidRule(row.rule) && !row.rule.Unreadable? && after == FinishRow(row, finish, at)
    ensures Finished(row, finish, at, after)
  {
    CronProofs.FinishLooksAhead(row, finish, at);
    CronProofs.WaitBounds(row.rule, at, row.failures + 1);
    ReadableHasNext(row.rule, at);
  }

  lemma AcceptedIsJobOf(row: Row, jobs: QueueSpec.Jobs, nextId: nat, after: QueueSpec.Jobs, now: int, job: nat,
      id: string)
    requires QueueProofs.Accepted(jobs, nextId, FireRequest(row, id), now, after, job)
    ensures JobOf(row, id, now, jobs, after, job)
  {
    QueueProofs.FollowUpOf(Key(id));
  }

  lemma AcceptedKeepsWaiting(jobs: QueueSpec.Jobs, nextId: nat, request: QueueSpec.Request, after: QueueSpec.Jobs,
                             now: int, job: nat, id: string)
    requires QueueProofs.Accepted(jobs, nextId, request, now, after, job) && request.key == Some(Key(id))
    requires !QueueSpec.IsFollowUp(Key(id))
    ensures Waiting(after, id)
    ensures StillWaiting(jobs, after)
  {
    QueueProofs.FollowUpOf(Key(id));
    forall other | Waiting(jobs, other)
      ensures Waiting(after, other)
    {
      var one :| one in jobs && jobs[one].status.Pending? && jobs[one].key.Some?
        && QueueSpec.BaseKey(jobs[one].key.value) == Key(other);
      assert one in after && after[one].status.Pending?;
    }
  }
}
