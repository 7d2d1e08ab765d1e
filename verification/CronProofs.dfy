/** What schedules keep: waits and gaps, ticks that settle, finishes that look ahead. */
module CronProofs {
  import opened Common
  import opened CronSpec
  import When
  import WhenProofs

  lemma Pow2Grows(n: nat)
    ensures Pow2(n) >= 1 && Pow2(n + 1) == 2 * Pow2(n)
  {
    if n > 0 { Pow2Grows(n - 1); }
  }

  // ----- the gap between runs -----

  /** Between neighbouring runs of a minute, hour or day rule lie exactly that many minutes, hours or
      days. */
  lemma FixedGap(iv: When.Interval, at: int)
    requires When.Valid(iv) && !iv.unit.Weeks?
    ensures Gap(Every(iv), at) == When.Period(iv)
    ensures Gap(Every(iv), at) == iv.every *
      if iv.unit.Minutes? then 60_000_000 else if iv.unit.Hours? then 3_600_000_000 else 86_400_000_000
  {
    WhenProofs.NextRunIsLeast(iv, at);
    var first := When.NextRun(iv, at).value;
    WhenProofs.FullCycle(iv, first);
    WhenProofs.NextRunIsLeast(iv, first);
    var next := t => WhenProofs.Next(iv, t);
    assert WhenProofs.Stops(iv) == [0];
    assert WhenProofs.Iterate(next, first, 1) == WhenProofs.Iterate(next, next(first), 0);
    WhenProofs.PeriodPositive(iv);
  }

  /** Runs of a weekly rule lie whole days apart. */
  lemma WeeklyGap(iv: When.Interval, at: int)
    requires When.Valid(iv) && iv.unit.Weeks?
    ensures Gap(Every(iv), at) >= When.DAY
  {
    WhenProofs.NextRunIsLeast(iv, at);
    var first := When.NextRun(iv, at).value;
    WhenProofs.NextRunIsLeast(iv, first);
    var second := When.NextRun(iv, first).value;
    var c1, s1 := WhenProofs.RecursIsInstant(iv, first);
    var c2, s2 := WhenProofs.RecursIsInstant(iv, second);
    WholeDays(iv, c1, s1);
    WholeDays(iv, c2, s2);
    DaysApart(When.Base(iv), c1 * iv.every * 7 + s1, c2 * iv.every * 7 + s2);
  }

  lemma DaysApart(base: int, x: int, y: int)
    requires base + x * When.DAY < base + y * When.DAY
    ensures base + y * When.DAY - (base + x * When.DAY) >= When.DAY
  {}

  lemma WholeDays(iv: When.Interval, cycle: int, slot: int)
    requires When.Valid(iv) && iv.unit.Weeks?
    ensures WhenProofs.Instant(iv, cycle, slot) == When.Base(iv) + (cycle * iv.every * 7 + slot) * When.DAY
  {}

  lemma Doubling(gap: int, n: nat)
    requires gap >= 0
    ensures gap * Pow2(n + 1) == 2 * (gap * Pow2(n)) && gap * Pow2(n) >= gap
  {
    Pow2Grows(n);
    assert gap * (2 * Pow2(n)) == 2 * (gap * Pow2(n));
    assert gap * (Pow2(n) - 1) >= 0;
  }

  lemma {:induction false} DoubledGap(gap: int, failures: nat)
    requires gap >= When.MINUTE && failures >= 1
    ensures gap * Pow2(failures) >= 2 * When.MINUTE && gap * Pow2(failures) >= gap
  {
    Doubling(gap, failures - 1);
  }

  /** Between two minutes and a day; a day as soon as the doubled gap reaches it. */
  lemma {:induction false} WaitBounds(rule: Rule, at: int, failures: nat)
    requires ValidRule(rule) && !rule.Unreadable? && failures >= 1
    ensures 2 * When.MINUTE <= Wait(rule, at, failures) <= DAY_BACKOFF
    ensures Wait(rule, at, failures) == DAY_BACKOFF <==> Gap(rule, at) * Pow2(failures) >= DAY_BACKOFF
  {
    DoubledGap(Gap(rule, at), failures);
  }

  lemma Scaled(a: int, b: int, p: nat)
    requires p >= 1
    ensures a * p < b * p <==> a < b
  {
    if a < b { assert (b - a) * p >= 1; } else { assert (a - b) * p >= 0; }
  }

  /** One more failure shortens the wait exactly when the gap has more than halved meanwhile and the
      doubled gap is still under a day. */
  lemma {:induction false} WaitShrinksExactly(rule: Rule, earlier: int, later: int, failures: nat)
    requires ValidRule(rule) && !rule.Unreadable?
    ensures Wait(rule, later, failures + 1) < Wait(rule, earlier, failures) <==>
      2 * Gap(rule, later) < Gap(rule, earlier) && Gap(rule, later) * Pow2(failures + 1) < DAY_BACKOFF
  {
    var before, after, power := Gap(rule, earlier), Gap(rule, later), Pow2(failures);
    Pow2Grows(failures);
    DoubledLess(before, after, power);
    Doubling(after, failures);
  }

  lemma DoubledLess(before: int, after: int, power: nat)
    requires power >= 1
    ensures 2 * (after * power) < before * power <==> 2 * after < before
  {
    Scaled(2 * after, before, power);
    assert 2 * (after * power) == (2 * after) * power;
  }

  /** Every day at midnight and at one: `0 0,1 * * *`. */
  function MidnightAndOne(t: int): int {
    var day := t / When.DAY * When.DAY;
    if t < day + When.HOUR then day + When.HOUR else day + When.DAY
  }

  lemma MidnightAndOneMatches()
    ensures FirstMatch(MidnightAndOne)
  {
    forall t, u ensures MidnightAndOne(t) > t
      && (t <= u < MidnightAndOne(t) ==> MidnightAndOne(u) == MidnightAndOne(t)) {
      if t <= u < MidnightAndOne(t) { SameDay(t, u); }
    }
  }

  lemma SameDay(t: int, u: int)
    requires t <= u < t / When.DAY * When.DAY + When.DAY
    ensures u / When.DAY == t / When.DAY
  {}

  lemma MidnightAndOneAt()
    ensures MidnightAndOne(0) == When.HOUR && MidnightAndOne(When.HOUR) == When.DAY
    ensures MidnightAndOne(When.DAY) == When.DAY + When.HOUR
  {}

  lemma GapIs(rule: Rule, at: int, first: int, second: int)
    requires ValidRule(rule) && NextOf(rule, at) == Some(first) && NextOf(rule, first) == Some(second)
    requires second - first >= When.MINUTE
    ensures !rule.Unreadable? && Gap(rule, at) == second - first
  {}

  lemma {:induction false} WaitIs(rule: Rule, at: int, failures: nat, power: nat)
    requires ValidRule(rule) && !rule.Unreadable? && Pow2(failures) == power
    ensures Wait(rule, at, failures) == if Gap(rule, at) * power < DAY_BACKOFF
      then Gap(rule, at) * power else DAY_BACKOFF
  {}

  /** The second failure of such a rule, an hour after the first, waits four hours where the first
      waited a day. */
  lemma {:induction false} UnevenWaitShrinks()
    ensures var rule := Fields(MidnightAndOne);
      && ValidRule(rule)
      && Wait(rule, 0, 1) == DAY_BACKOFF && Wait(rule, When.HOUR, 2) == 4 * When.HOUR
  {
    var rule := Fields(MidnightAndOne);
    MidnightAndOneMatches();
    MidnightAndOneAt();
    GapIs(rule, 0, When.HOUR, When.DAY);
    GapIs(rule, When.HOUR, When.DAY, When.DAY + When.HOUR);
    Pow2Grows(0);
    Pow2Grows(1);
    WaitIs(rule, 0, 1, 2);
    WaitIs(rule, When.HOUR, 2, 4);
  }

  /** The gaps of an `@every` rule are all alike, or at least a day. */
  lemma GapsAlike(iv: When.Interval, earlier: int, later: int)
    requires When.Valid(iv)
    ensures Gap(Every(iv), later) >= DAY_BACKOFF || Gap(Every(iv), later) == Gap(Every(iv), earlier)
  {
    if iv.unit.Weeks? {
      WeeklyGap(iv, later);
    } else {
      FixedGap(iv, earlier);
      FixedGap(iv, later);
    }
  }

  lemma NoShrinking(before: int, after: int, doubled: int)
    requires after >= DAY_BACKOFF || after == before
    requires before >= 0 && doubled >= after
    ensures !(2 * after < before && doubled < DAY_BACKOFF)
  {}

  /** Consecutive failures of an `@every` rule never shorten the wait, whenever they happen. */
  lemma {:induction false} WaitNeverShrinks(iv: When.Interval, earlier: int, later: int, failures: nat)
    requires When.Valid(iv) && failures >= 1
    ensures Wait(Every(iv), earlier, failures) <= Wait(Every(iv), later, failures + 1)
  {
    var rule := Every(iv);
    var before, after, doubled := Gap(rule, earlier), Gap(rule, later), Gap(rule, later) * Pow2(failures + 1);
    GapsAlike(iv, earlier, later);
    DoubledGap(after, failures + 1);
    NoShrinking(before, after, doubled);
    WaitShrinksExactly(rule, earlier, later, failures);
  }

  // ----- rows -----

  /** After a run that succeeded or failed the next one lies strictly ahead; a cancelled run
      moves nothing. */
  lemma FinishLooksAhead(row: Row, finish: Finish, at: int)
    requires ValidRule(row.rule) && !row.rule.Unreadable?
    ensures var after := FinishRow(row, finish, at);
      if finish.Cancelled? then after.nextRunAt == row.nextRunAt && after.failures == row.failures
      else
        && after.nextRunAt.Some? && after.nextRunAt.value > at
        && after.failures == (if finish.Succeeded? then 0 else row.failures + 1)
        && (finish.Succeeded? && row.rule.Every? ==>
              WhenProofs.IsNext(row.rule.interval, at, after.nextRunAt.value))
        && (finish.FailedWith? ==> at + 2 * When.MINUTE <= after.nextRunAt.value <= at + DAY_BACKOFF)
  {
    ReadableHasNext(row.rule, at);
    if row.rule.Every? { WhenProofs.NextRunIsLeast(row.rule.interval, at); }
    WaitBounds(row.rule, at, row.failures + 1);
  }

  /** A tick moves a due, live row that can be read on to its first run after now and changes nothing
      else of it, leaves other rows alone, and a second tick at the same instant changes nothing. */
  lemma TickSettles(row: Row, at: int)
    requires ValidRule(row.rule)
    ensures var after := TickRow(row, at);
      if Due(row, at) && row.kind != RETIRED && !row.rule.Unreadable? then
        && after.nextRunAt.Some? && after == row.(nextRunAt := after.nextRunAt)
        && FirstRunAfter(row.rule, at, after.nextRunAt.value)
      else after == row
    ensures !row.rule.Unreadable? && row.kind != RETIRED ==> !Due(TickRow(row, at), at)
    ensures TickRow(TickRow(row, at), at) == TickRow(row, at)
  {
    ReadableHasNext(row.rule, at);
    if row.rule.Every? { WhenProofs.NextRunIsLeast(row.rule.interval, at); }
  }

  /** Ticks keep the rhythm: however late the tick, the next run is the one an on-time tick gives. */
  lemma LateTickSameNext(row: Row, run: int, late: int)
    requires ValidRule(row.rule) && !row.rule.Unreadable? && row.kind != RETIRED && row.enabled
    requires row.nextRunAt == Some(run) && NextOf(row.rule, run).Some? && run <= late < NextOf(row.rule, run).value
    ensures TickRow(row, late) == TickRow(row, run)
  {
    ReadableHasNext(row.rule, run);
  }
}
