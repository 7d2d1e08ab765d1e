/** Recurring intervals (apps/daemon/graite/jobs/when.py). Times are microseconds since
    1970-01-01T00:00:00Z, the resolution of the source's datetimes. The regular expression that
    splits an `@every` text is taken as given: `Groups` is what it captures. */
module When {
  import opened Common

  const MINUTE := 60_000_000
  const HOUR := 60 * MINUTE
  const DAY := 24 * HOUR
  const WEEK := 7 * DAY

  datatype Unit = Minutes | Hours | Days | Weeks

  /** A captured time: one number, or hour and minute around a colon. */
  datatype Clock = Bare(number: nat) | HourMinute(h: nat, m: nat)

  /** A captured start date: a day number since 1970-01-01, or digits that are no date. */
  datatype StartDate = Date(day: int) | NoSuchDate

  /** Weekday as cron counts it, Sunday 0. */
  type CronDay = d: nat | d < 7

  datatype Groups =
    Groups(amount: nat, unit: Unit, days: seq<CronDay>, time: Option<Clock>, start: Option<StartDate>)

  datatype Interval = Interval(every: nat, unit: Unit, days: seq<CronDay>, hour: nat, minute: nat, anchor: int)

  datatype Refusal = BadAmount | BadShape | BadDate

  function Limit(unit: Unit): nat {
    match unit
    case Minutes => 60
    case Hours => 24
    case Days => 7
    case Weeks => 7
  }

  /** Days since Monday. 1970-01-01 was a Thursday. */
  function Weekday(day: int): (w: int)
    ensures 0 <= w < 7
  {
    (day + 3) % 7
  }

  /** `parse_interval`. */
  function ParseInterval(g: Groups): (r: Result<Interval, Refusal>)
    ensures r.Ok? ==> Valid(r.value)
  {
    if !(1 <= g.amount <= Limit(g.unit)) then Err(BadAmount)
    else
      match g.unit
      case Minutes =>
        if g.time.None? && g.start.None? && g.days == [] then Ok(Interval(g.amount, Minutes, [], 0, 0, 0))
        else Err(BadShape)
      case Hours =>
        if g.time.Some? && g.time.value.Bare? && g.start.None? && g.days == [] && g.time.value.number <= 59
        then Ok(Interval(g.amount, Hours, [], 0, g.time.value.number, 0)) else Err(BadShape)
      case _ =>
        if !(g.time.Some? && g.time.value.HourMinute? && g.start.Some? && ((g.days != []) == g.unit.Weeks?))
        then Err(BadShape)
        else if g.start.value.NoSuchDate? then Err(BadDate)
        else if g.time.value.h > 23 || g.time.value.m > 59 then Err(BadShape)
        else
          var day := g.start.value.day;
          var monday := if g.unit.Weeks? then day - Weekday(day) else day;
          Ok(Interval(g.amount, g.unit, g.days, g.time.value.h, g.time.value.m, monday * DAY))
  }

  /** `monday` is the Monday of the week that `day` lies in. */
  predicate StartsWeek(monday: int, day: int) {
    Weekday(monday) == 0 && monday <= day < monday + 7
  }

  /** The captures of a text that spells `iv`: minutes alone, hours with a minute, days with a time and
      a date, weeks with days, a time and a date in the week the anchor starts. */
  predicate Spells(g: Groups, iv: Interval) {
    && g.amount == iv.every && g.unit == iv.unit && g.days == iv.days
    && match iv.unit
       case Minutes => g.time.None? && g.start.None? && iv.minute == iv.hour == iv.anchor == 0
       case Hours => g.time == Some(Bare(iv.minute)) && g.start.None? && iv.hour == iv.anchor == 0
       case _ => g.time == Some(HourMinute(iv.hour, iv.minute)) && g.start.Some? && g.start.value.Date?
                 && iv.anchor % DAY == 0
                 && var day, first := g.start.value.day, iv.anchor / DAY;
                    if iv.unit.Weeks? then StartsWeek(first, day) else first == day
  }

  lemma OneMonday(monday: int, day: int)
    ensures StartsWeek(monday, day) <==> monday == day - Weekday(day)
  {}

  lemma WholeDay(anchor: int, day: int)
    ensures anchor % DAY == 0 && anchor / DAY == day <==> anchor == day * DAY
  {}

  /** Exactly the texts that spell a valid interval are accepted, as that interval. */
  lemma ParseExactly(g: Groups, iv: Interval)
    ensures ParseInterval(g) == Ok(iv) <==> Valid(iv) && Spells(g, iv)
  {
    if g.start.Some? && g.start.value.Date? {
      var day := g.start.value.day;
      OneMonday(iv.anchor / DAY, day);
      WholeDay(iv.anchor, if g.unit.Weeks? then day - Weekday(day) else day);
    }
  }

  /** The intervals the parser lets through. */
  predicate Valid(iv: Interval) {
    && 1 <= iv.every <= Limit(iv.unit) && iv.hour <= 23 && iv.minute <= 59
    && (iv.unit.Weeks? <==> iv.days != [])
  }

  function Length(unit: Unit): (us: int)
    ensures us > 0
  {
    match unit
    case Minutes => MINUTE
    case Hours => HOUR
    case Days => DAY
    case Weeks => WEEK
  }

  function Period(iv: Interval): int {
    iv.every * Length(iv.unit)
  }

  function Base(iv: Interval): int {
    iv.anchor + iv.hour * HOUR + iv.minute * MINUTE
  }

  /** Days since Monday of a cron day. */
  function SlotOf(day: CronDay): (slot: int)
    ensures 0 <= slot < 7
  {
    var sunday0: int := day;
    (sunday0 + 6) % 7
  }

  predicate Picked(days: seq<CronDay>, slot: int) {
    exists i :: 0 <= i < |days| && SlotOf(days[i]) == slot
  }

  /** `sorted({(day + 6) % 7 for day in days})` from `slot` on: days of a week that starts on Monday. */
  function SlotsFrom(days: seq<CronDay>, slot: nat): seq<int>
    decreases 7 - slot
  {
    if slot >= 7 then [] else (if Picked(days, slot) then [slot] else []) + SlotsFrom(days, slot + 1)
  }

  function Slots(days: seq<CronDay>): seq<int> {
    SlotsFrom(days, 0)
  }

  /** The first candidate of one cycle that is later than `after`. */
  function FirstAfter(start: int, slots: seq<int>, after: int): Option<int> {
    if slots == [] then None
    else if start + slots[0] * DAY > after then Some(start + slots[0] * DAY)
    else FirstAfter(start, slots[1..], after)
  }

  function Cycle(iv: Interval, after: int): nat
    requires Valid(iv)
  {
    var whole := (after - Base(iv)) / Period(iv);
    if whole < 0 then 0 else whole
  }

  function CycleStart(iv: Interval, cycle: int): int {
    Base(iv) + cycle * Period(iv)
  }

  /** The weekly search: the computed cycle, then the one after it. */
  function SearchWeeks(iv: Interval, cycle: nat, after: int): Option<int> {
    var current := FirstAfter(CycleStart(iv, cycle), Slots(iv.days), after);
    if current.Some? then current else FirstAfter(CycleStart(iv, cycle + 1), Slots(iv.days), after)
  }

  /** `next_run` on an `@every` expression; none where the source raises. */
  function NextRun(iv: Interval, after: int): Option<int>
    requires Valid(iv)
  {
    var cycle := Cycle(iv, after);
    if iv.unit.Weeks? then SearchWeeks(iv, cycle, after)
    else
      var candidate := CycleStart(iv, cycle);
      Some(if candidate > after then candidate else candidate + Period(iv))
  }
}
