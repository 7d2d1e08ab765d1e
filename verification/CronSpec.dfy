/** Schedules over the queue (apps/daemon/graite/jobs/cron.py). An expression is an `@every` rule, a
    five-field cron expression, or a text that `next_run` refuses. Which instants a five-field
    expression matches is left to the cron library. */
module CronSpec {
  import opened Common
  import When
  import WhenProofs

  /** `next` gives the first match later than an instant. */
  datatype Rule = Every(interval: When.Interval) | Fields(next: int -> int) | Unreadable

  datatype Row = Row(
    name: string, rule: Rule, kind: string, payload: string, page: Option<string>, enabled: bool,
    lastRunAt: Option<int>, nextRunAt: Option<int>, lastStatus: Option<string>, failures: nat)

  const DAY_BACKOFF := 24 * When.HOUR
  const RETIRED := "workflow_run"
  const ERROR_LENGTH := 200

  /** What the library promises: the match is strictly later, and there is none before it. */
  ghost predicate FirstMatch(next: int -> int) {
    forall t, u :: next(t) > t && (t <= u < next(t) ==> next(u) == next(t))
  }

  ghost predicate ValidRule(rule: Rule) {
    match rule
    case Every(interval) => When.Valid(interval)
    case Fields(next) => FirstMatch(next)
    case Unreadable => true
  }

  /** `next_run`, none where it raises. */
  function NextOf(rule: Rule, at: int): Option<int>
    requires ValidRule(rule)
  {
    match rule
    case Every(interval) => When.NextRun(interval, at)
    case Fields(next) => Some(next(at))
    case Unreadable => None
  }

  /** A text that can be read has a next run at every instant, strictly later, and the same one
      until then. */
  lemma ReadableHasNext(rule: Rule, at: int)
    requires ValidRule(rule)
    ensures NextOf(rule, at).Some? <==> !rule.Unreadable?
    ensures NextOf(rule, at).Some? ==> NextOf(rule, at).value > at
    ensures forall late :: NextOf(rule, at).Some? && at <= late < NextOf(rule, at).value ==>
      NextOf(rule, late) == NextOf(rule, at)
  {
    if rule.Every? {
      WhenProofs.NextRunIsLeast(rule.interval, at);
      forall late | at <= late < NextOf(rule, at).value ensures NextOf(rule, late) == NextOf(rule, at) {
        SameNext(rule.interval, at, late);
      }
    }
  }

  lemma SameNext(iv: When.Interval, at: int, late: int)
    requires When.Valid(iv) && When.NextRun(iv, at).Some? && at <= late < When.NextRun(iv, at).value
    ensures When.NextRun(iv, late) == When.NextRun(iv, at)
  {
    WhenProofs.NextRunIsLeast(iv, at);
    WhenProofs.LeastUnique(iv, late, When.NextRun(iv, at).value);
  }

  /** Nothing recurs between `at` and the run `t`. */
  ghost predicate FirstRunAfter(rule: Rule, at: int, t: int)
    requires ValidRule(rule) && !rule.Unreadable?
  {
    && t > at
    && match rule
       case Every(interval) => WhenProofs.IsNext(interval, at, t)
       case Fields(next) => forall u :: at <= u < t ==> next(u) == t
  }

  /** `interval_seconds`, in microseconds: the gap after the next run, at least a minute. */
  function Gap(rule: Rule, at: int): (gap: int)
    requires ValidRule(rule) && !rule.Unreadable?
    ensures gap >= When.MINUTE
  {
    ReadableHasNext(rule, at);
    var first := NextOf(rule, at).value;
    ReadableHasNext(rule, first);
    var second := NextOf(rule, first).value;
    if second - first < When.MINUTE then When.MINUTE else second - first
  }

  predicate Due(row: Row, at: int) {
    row.enabled && row.nextRunAt.Some? && row.nextRunAt.value <= at
  }

  /** The row after a tick: a due row moves on once its job is queued. */
  function TickRow(row: Row, at: int): Row
    requires ValidRule(row.rule)
  {
    if Due(row, at) && row.kind != RETIRED && NextOf(row.rule, at).Some? then row.(nextRunAt := NextOf(row.rule, at))
    else row
  }

  /** The wait after `failures` failures in a row: the gap doubled each time, up to a day. */
  function Wait(rule: Rule, at: int, failures: nat): int
    requires ValidRule(rule) && !rule.Unreadable?
  {
    var doubled := Gap(rule, at) * Pow2(failures);
    if doubled < DAY_BACKOFF then doubled else DAY_BACKOFF
  }

  datatype Finish = Succeeded | Cancelled | FailedWith(error: string)

  function FailedStatus(error: string): string {
    "failed: " + if |error| > ERROR_LENGTH then error[..ERROR_LENGTH] else error
  }

  /** The row after one of its jobs ended; unchanged where the source raises. */
  function FinishRow(row: Row, finish: Finish, at: int): Row
    requires ValidRule(row.rule)
  {
    if finish.Cancelled? then row.(lastStatus := Some("cancelled"))
    else if row.rule.Unreadable? then row
    else if finish.Succeeded? then
      row.(lastRunAt := Some(at), lastStatus := Some("succeeded"), failures := 0, nextRunAt := NextOf(row.rule, at))
    else
      row.(lastStatus := Some(FailedStatus(finish.error)), failures := row.failures + 1,
           nextRunAt := Some(at + Wait(row.rule, at, row.failures + 1)))
  }
}
