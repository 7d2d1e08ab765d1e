/** `NextRun` is the least recurrence after an instant, and schedules neither drift nor repeat. */
module WhenProofs {
  import opened Common
  import opened When

  // ----- the recurrence, by its meaning -----

  predicate InCycle(iv: Interval, rest: int) {
    if iv.unit.Weeks? then rest % DAY == 0 && Picked(iv.days, rest / DAY) else rest == 0
  }

  /** `t` lies on the lattice of cycles from the base, on a picked day of its cycle. */
  predicate Recurs(iv: Interval, t: int)
    requires Valid(iv)
  {
    t >= Base(iv) && InCycle(iv, (t - Base(iv)) % Period(iv))
  }

  // ----- arithmetic -----

  lemma PeriodPositive(iv: Interval)
    requires Valid(iv)
    ensures Period(iv) >= Length(iv.unit) >= MINUTE
  {
    assert iv.every * Length(iv.unit) >= 1 * Length(iv.unit);
  }

  lemma MultipleSize(d: int, p: int)
    requires p > 0
    ensures d >= 1 ==> d * p >= p
    ensures d <= -1 ==> d * p <= -p
  {}

  lemma QuotientUnique(x: int, p: int, q: int, r: int)
    requires p > 0 && x == q * p + r && 0 <= r < p
    ensures x / p == q && x % p == r
  {
    var d := x / p - q;
    assert x == (x / p) * p + x % p;
    assert d * p == r - x % p;
    MultipleSize(d, p);
  }

  lemma CyclesApart(a: int, b: int, p: int)
    requires p > 0 && a < b
    ensures a * p + p <= b * p
  {
    MultipleSize(b - a, p);
    assert (b - a) * p == b * p - a * p;
  }

  lemma ProductNonNegative(a: int, p: int)
    requires a >= 0 && p > 0
    ensures a * p >= 0
  {}

  /** The instant of a slot in a cycle. */
  function Instant(iv: Interval, cycle: int, slot: int): int {
    CycleStart(iv, cycle) + slot * DAY
  }

  predicate IsSlot(iv: Interval, slot: int) {
    if iv.unit.Weeks? then 0 <= slot < 7 && Picked(iv.days, slot) else slot == 0
  }

  lemma SlotFits(iv: Interval, slot: int)
    requires Valid(iv) && IsSlot(iv, slot)
    ensures 0 <= slot * DAY < Period(iv)
  {
    PeriodPositive(iv);
    if iv.unit.Weeks? { assert slot * DAY <= 6 * DAY; }
  }

  lemma InstantRecurs(iv: Interval, cycle: nat, slot: int)
    requires Valid(iv) && IsSlot(iv, slot)
    ensures Recurs(iv, Instant(iv, cycle, slot))
  {
    SlotFits(iv, slot);
    ProductNonNegative(cycle, Period(iv));
    QuotientUnique(cycle * Period(iv) + slot * DAY, Period(iv), cycle, slot * DAY);
    QuotientUnique(slot * DAY, DAY, slot, 0);
  }

  lemma RecursIsInstant(iv: Interval, t: int) returns (cycle: nat, slot: int)
    requires Valid(iv) && Recurs(iv, t)
    ensures IsSlot(iv, slot) && t == Instant(iv, cycle, slot)
  {
    PeriodPositive(iv);
    var x := t - Base(iv);
    var c := x / Period(iv);
    var rest := x % Period(iv);
    assert x == c * Period(iv) + rest;
    if c < 0 { CyclesApart(c, 0, Period(iv)); }
    cycle := c;
    if iv.unit.Weeks? {
      slot := rest / DAY;
      assert rest == slot * DAY + rest % DAY;
      assert Picked(iv.days, slot);
    } else {
      slot := 0;
    }
  }

  // ----- the slots -----

  /** `s` lists the picked days from `slot` on, each once, in order. */
  predicate ListsFrom(days: seq<CronDay>, slot: nat, s: seq<int>) {
    && (forall i :: 0 <= i < |s| ==> slot <= s[i] < 7 && Picked(days, s[i]))
    && (forall i, j :: 0 <= i < j < |s| ==> s[i] < s[j])
    && (forall d :: slot <= d < 7 && Picked(days, d) ==> d in s)
  }

  lemma {:induction false} SlotsFromExact(days: seq<CronDay>, slot: nat)
    ensures ListsFrom(days, slot, SlotsFrom(days, slot))
    decreases 7 - slot
  {
    if slot < 7 {
      SlotsFromExact(days, slot + 1);
      FirstSlot(days, slot, SlotsFrom(days, slot + 1));
    }
  }

  lemma FirstSlot(days: seq<CronDay>, slot: nat, rest: seq<int>)
    requires slot < 7 && ListsFrom(days, slot + 1, rest)
    ensures ListsFrom(days, slot, (if Picked(days, slot) then [slot] else []) + rest)
  {
    var s := (if Picked(days, slot) then [slot] else []) + rest;
    forall d | slot <= d < 7 && Picked(days, d) ensures d in s {
      if d > slot { assert d in rest; } else { assert s[0] == d; }
    }
  }

  /** `slots` lists the stops of one cycle, each once, in order. */
  ghost predicate Lists(iv: Interval, slots: seq<int>) {
    && slots != []
    && (forall i :: 0 <= i < |slots| ==> IsSlot(iv, slots[i]))
    && (forall i, j :: 0 <= i < j < |slots| ==> slots[i] < slots[j])
    && (forall d :: IsSlot(iv, d) ==> d in slots)
  }

  lemma FirstDayListed(days: seq<CronDay>, slots: seq<int>)
    requires days != [] && forall d :: 0 <= d < 7 && Picked(days, d) ==> d in slots
    ensures slots != []
  {
    var d := SlotOf(days[0]);
    assert 0 <= d < 7 && Picked(days, d);
    assert d in slots;
  }

  /** The slots are the picked days, each once, in order; a weekly rule has at least one. */
  lemma SlotsExact(iv: Interval)
    requires Valid(iv) && iv.unit.Weeks?
    ensures Lists(iv, Slots(iv.days))
  {
    SlotsFromExact(iv.days, 0);
    FirstDayListed(iv.days, Slots(iv.days));
  }

  predicate FirstAt(start: int, slots: seq<int>, after: int, k: int) {
    && 0 <= k < |slots| && start + slots[k] * DAY > after
    && forall i :: 0 <= i < k ==> start + slots[i] * DAY <= after
  }

  lemma {:induction false} FirstAfterExact(start: int, slots: seq<int>, after: int)
    requires forall i, j :: 0 <= i < j < |slots| ==> slots[i] < slots[j]
    ensures var first := FirstAfter(start, slots, after);
      if first.None? then forall i :: 0 <= i < |slots| ==> start + slots[i] * DAY <= after
      else exists k :: FirstAt(start, slots, after, k) && first.value == start + slots[k] * DAY
    decreases |slots|
  {
    if slots != [] {
      if start + slots[0] * DAY > after {
        assert FirstAt(start, slots, after, 0);
      } else {
        FirstAfterExact(start, slots[1..], after);
        var first := FirstAfter(start, slots[1..], after);
        forall i | 0 < i < |slots| ensures slots[i] == slots[1..][i - 1] {}
        if first.Some? {
          var k :| FirstAt(start, slots[1..], after, k) && first.value == start + slots[1..][k] * DAY;
          assert FirstAt(start, slots, after, k + 1);
        }
      }
    }
  }

  // ----- the next run -----

  /** Where `after` falls: before the base, or inside the cycle the code computes. */
  lemma CycleBrackets(iv: Interval, after: int)
    requires Valid(iv)
    ensures var c := Cycle(iv, after);
      && after < CycleStart(iv, c + 1)
      && (c > 0 ==> CycleStart(iv, c) <= after)
  {
    PeriodPositive(iv);
    var x, p := after - Base(iv), Period(iv);
    assert x == (x / p) * p + x % p;
    NextCycle(iv, Cycle(iv, after));
    if x / p < 0 { CyclesApart(x / p, 0, p); }
  }

  lemma NextCycle(iv: Interval, cycle: int)
    ensures CycleStart(iv, cycle + 1) == CycleStart(iv, cycle) + Period(iv)
  {
    assert (cycle + 1) * Period(iv) == cycle * Period(iv) + Period(iv);
  }

  /** `slot` of `cycle` is later than `after`; what comes before it on the lattice is not. */
  ghost predicate Place(iv: Interval, after: int, cycle: nat, slot: int) {
    && IsSlot(iv, slot)
    && Instant(iv, cycle, slot) > after
    && (forall d :: IsSlot(iv, d) && d < slot ==> Instant(iv, cycle, d) <= after)
    && (cycle > 0 ==> forall d :: IsSlot(iv, d) ==> Instant(iv, cycle - 1, d) <= after)
  }

  /** Every slot of a cycle is past once the next cycle has begun. */
  lemma EarlierCyclePast(iv: Interval, after: int, cycle: nat)
    requires Valid(iv) && cycle > 0 && CycleStart(iv, cycle) <= after
    ensures forall d :: IsSlot(iv, d) ==> Instant(iv, cycle - 1, d) <= after
  {
    NextCycle(iv, cycle - 1);
    forall d | IsSlot(iv, d)
      ensures Instant(iv, cycle - 1, d) <= after
    {
      SlotFits(iv, d);
    }
  }

  lemma FixedPlace(iv: Interval, after: int) returns (cycle: nat)
    requires Valid(iv) && !iv.unit.Weeks?
    ensures Place(iv, after, cycle, 0) && NextRun(iv, after) == Some(Instant(iv, cycle, 0))
  {
    CycleBrackets(iv, after);
    cycle := Cycle(iv, after);
    NextCycle(iv, cycle);
    if cycle > 0 { EarlierCyclePast(iv, after, cycle); }
    if CycleStart(iv, cycle) <= after {
      assert Instant(iv, cycle, 0) <= after;
      cycle := cycle + 1;
    }
  }

  lemma WeeklyPlace(iv: Interval, after: int) returns (cycle: nat, slot: int)
    requires Valid(iv) && iv.unit.Weeks?
    ensures Place(iv, after, cycle, slot) && NextRun(iv, after) == Some(Instant(iv, cycle, slot))
  {
    CycleBrackets(iv, after);
    var c := Cycle(iv, after);
    if c > 0 { EarlierCyclePast(iv, after, c); }
    cycle, slot := SearchPlace(iv, after, c);
  }

  lemma SearchPlace(iv: Interval, after: int, c: nat) returns (cycle: nat, slot: int)
    requires Valid(iv) && iv.unit.Weeks? && after < CycleStart(iv, c + 1)
    requires c > 0 ==> forall d :: IsSlot(iv, d) ==> Instant(iv, c - 1, d) <= after
    ensures Place(iv, after, cycle, slot) && SearchWeeks(iv, c, after) == Some(Instant(iv, cycle, slot))
  {
    SlotsExact(iv);
    cycle, slot := SlotsPlace(iv, after, c, Slots(iv.days), FirstAfter(CycleStart(iv, c), Slots(iv.days), after));
  }

  /** The stop found in the cycle of `after`, or else the first one of the next cycle. */
  lemma SlotsPlace(iv: Interval, after: int, c: nat, slots: seq<int>, first: Option<int>)
      returns (cycle: nat, slot: int)
    requires Valid(iv) && Lists(iv, slots) && after < CycleStart(iv, c + 1)
    requires first == FirstAfter(CycleStart(iv, c), slots, after)
    requires c > 0 ==> forall d :: IsSlot(iv, d) ==> Instant(iv, c - 1, d) <= after
    ensures Place(iv, after, cycle, slot)
    ensures (if first.Some? then first else FirstAfter(CycleStart(iv, c + 1), slots, after))
      == Some(Instant(iv, cycle, slot))
  {
    FirstAfterExact(CycleStart(iv, c), slots, after);
    if first.Some? {
      var k :| FirstAt(CycleStart(iv, c), slots, after, k) && first.value == CycleStart(iv, c) + slots[k] * DAY;
      cycle, slot := c, slots[k];
      ThisCyclePlace(iv, after, c, slots, k);
    } else {
      cycle, slot := c + 1, slots[0];
      NextCyclePlace(iv, after, c, slots);
    }
  }

  lemma ThisCyclePlace(iv: Interval, after: int, c: nat, slots: seq<int>, k: nat)
    requires Valid(iv) && Lists(iv, slots) && FirstAt(CycleStart(iv, c), slots, after, k)
    requires c > 0 ==> forall d :: IsSlot(iv, d) ==> Instant(iv, c - 1, d) <= after
    ensures Place(iv, after, c, slots[k])
  {
    forall d | IsSlot(iv, d) && d < slots[k]
      ensures Instant(iv, c, d) <= after
    {
      var i :| 0 <= i < |slots| && slots[i] == d;
      assert i < k;
    }
  }

  lemma NextCyclePlace(iv: Interval, after: int, c: nat, slots: seq<int>)
    requires Valid(iv) && Lists(iv, slots)
    requires after < CycleStart(iv, c + 1)
    requires forall i :: 0 <= i < |slots| ==> CycleStart(iv, c) + slots[i] * DAY <= after
    ensures Place(iv, after, c + 1, slots[0])
    ensures FirstAfter(CycleStart(iv, c + 1), slots, after) == Some(Instant(iv, c + 1, slots[0]))
  {
    SlotFits(iv, slots[0]);
    forall d | IsSlot(iv, d)
      ensures Instant(iv, c, d) <= after && slots[0] <= d
    {
      var i :| 0 <= i < |slots| && slots[i] == d;
    }
  }

  lemma NextRunPlace(iv: Interval, after: int) returns (cycle: nat, slot: int)
    requires Valid(iv)
    ensures Place(iv, after, cycle, slot) && NextRun(iv, after) == Some(Instant(iv, cycle, slot))
  {
    if iv.unit.Weeks? {
      cycle, slot := WeeklyPlace(iv, after);
    } else {
      slot := 0;
      cycle := FixedPlace(iv, after);
    }
  }

  /** `t` is the least recurrence strictly later than `after`. */
  ghost predicate IsNext(iv: Interval, after: int, t: int)
    requires Valid(iv)
  {
    Recurs(iv, t) && t > after && forall u :: Recurs(iv, u) && u > after ==> t <= u
  }

  lemma PlaceIsNext(iv: Interval, after: int, cycle: nat, slot: int)
    requires Valid(iv) && Place(iv, after, cycle, slot)
    ensures IsNext(iv, after, Instant(iv, cycle, slot))
  {
    InstantRecurs(iv, cycle, slot);
    forall u | Recurs(iv, u) && u > after
      ensures Instant(iv, cycle, slot) <= u
    {
      var c, d := RecursIsInstant(iv, u);
      NoEarlierInstant(iv, after, cycle, slot, c, d);
    }
  }

  /** The weekly search never fails, and what `NextRun` returns is the least recurrence that is
      strictly later than `after`: nothing is skipped. */
  lemma NextRunIsLeast(iv: Interval, after: int)
    requires Valid(iv)
    ensures NextRun(iv, after).Some? && IsNext(iv, after, NextRun(iv, after).value)
  {
    var cycle, slot := NextRunPlace(iv, after);
    PlaceIsNext(iv, after, cycle, slot);
  }

  lemma NoEarlierInstant(iv: Interval, after: int, cycle: nat, slot: int, c: nat, d: int)
    requires Valid(iv) && Place(iv, after, cycle, slot) && IsSlot(iv, d)
    requires Instant(iv, c, d) > after
    ensures Instant(iv, cycle, slot) <= Instant(iv, c, d)
  {
    SlotFits(iv, slot);
    SlotFits(iv, d);
    if c > cycle { CyclesApart(cycle, c, Period(iv)); }
    if c < cycle - 1 { CyclesApart(c, cycle - 1, Period(iv)); }
  }

  lemma LeastUnique(iv: Interval, after: int, t: int)
    requires Valid(iv) && IsNext(iv, after, t)
    ensures NextRun(iv, after) == Some(t)
  {
    NextRunIsLeast(iv, after);
  }

  /** A tick that comes late, any time before the second run, still yields the second run. */
  lemma LateTickKeepsRhythm(iv: Interval, t: int, late: int)
    requires Valid(iv) && NextRun(iv, t).Some? && t <= late < NextRun(iv, t).value
    ensures NextRun(iv, late) == NextRun(iv, t)
  {
    NextRunIsLeast(iv, t);
    LeastUnique(iv, late, NextRun(iv, t).value);
  }

  // ----- iteration -----

  /** `step` applied `n` times. */
  function Iterate(step: int -> int, t: int, n: nat): int
    decreases n
  {
    if n == 0 then t else Iterate(step, step(t), n - 1)
  }

  lemma {:induction false} IterateAlong(step: int -> int, times: seq<int>, n: nat)
    requires n < |times| && forall i :: 0 <= i < n ==> step(times[i]) == times[i + 1]
    ensures Iterate(step, times[0], n) == times[n]
    decreases n
  {
    if n > 0 { IterateAlong(step, times[1..], n - 1); }
  }

  function Next(iv: Interval, t: int): int
    requires Valid(iv)
  {
    NextRunIsLeast(iv, t);
    NextRun(iv, t).value
  }

  function Stops(iv: Interval): seq<int> {
    if iv.unit.Weeks? then Slots(iv.days) else [0]
  }

  lemma StopsExact(iv: Interval)
    requires Valid(iv)
    ensures Lists(iv, Stops(iv))
  {
    if iv.unit.Weeks? { SlotsExact(iv); }
  }

  lemma OrderedStops(iv: Interval, s: seq<int>, k: nat)
    requires Valid(iv) && Lists(iv, s) && k < |s|
    ensures forall d :: IsSlot(iv, d) ==> 0 <= d * DAY < Period(iv)
    ensures k + 1 < |s| ==> forall d :: IsSlot(iv, d) && d < s[k + 1] ==> d <= s[k]
    ensures k + 1 == |s| ==> forall d :: IsSlot(iv, d) ==> s[0] <= d <= s[k]
  {
    forall d | IsSlot(iv, d)
      ensures 0 <= d * DAY < Period(iv)
      ensures k + 1 < |s| && d < s[k + 1] ==> d <= s[k]
      ensures k + 1 == |s| ==> s[0] <= d <= s[k]
    {
      SlotFits(iv, d);
      var j :| 0 <= j < |s| && s[j] == d;
    }
  }

  /** From one slot to the next one of the same cycle. */
  lemma BetweenStops(iv: Interval, cycle: nat, a: int, b: int)
    requires Valid(iv) && IsSlot(iv, a) && IsSlot(iv, b) && a < b
    requires forall d :: IsSlot(iv, d) && d < b ==> d <= a
    ensures Place(iv, Instant(iv, cycle, a), cycle, b)
  {
    if cycle > 0 {
      SlotFits(iv, a);
      NextCycle(iv, cycle - 1);
      EarlierCyclePast(iv, Instant(iv, cycle, a), cycle);
    }
  }

  lemma NextStopPlace(iv: Interval, cycle: nat, s: seq<int>, k: nat)
    requires Valid(iv) && Lists(iv, s) && k + 1 < |s|
    ensures Place(iv, Instant(iv, cycle, s[k]), cycle, s[k + 1])
  {
    OrderedStops(iv, s, k);
    BetweenStops(iv, cycle, s[k], s[k + 1]);
  }

  lemma LastStopPlace(iv: Interval, cycle: nat, s: seq<int>)
    requires Valid(iv) && Lists(iv, s)
    ensures Place(iv, Instant(iv, cycle, s[|s| - 1]), cycle + 1, s[0])
  {
    OrderedStops(iv, s, |s| - 1);
    NextCycle(iv, cycle);
  }

  /** Stop `i` counted from the first stop of `cycle`, for the stops of two cycles. */
  function StopAt(iv: Interval, cycle: nat, s: seq<int>, i: nat): int
    requires i < 2 * |s|
  {
    if i < |s| then Instant(iv, cycle, s[i]) else Instant(iv, cycle + 1, s[i - |s|])
  }

  /** From one stop the next run is the next stop. */
  lemma StepToNextStop(iv: Interval, cycle: nat, s: seq<int>, i: nat)
    requires Valid(iv) && Lists(iv, s) && i + 1 < 2 * |s|
    ensures IsNext(iv, StopAt(iv, cycle, s, i), StopAt(iv, cycle, s, i + 1))
  {
    var c, k := if i < |s| then cycle else cycle + 1, if i < |s| then i else i - |s|;
    if k + 1 < |s| {
      NextStopPlace(iv, c, s, k);
      PlaceIsNext(iv, Instant(iv, c, s[k]), c, s[k + 1]);
    } else {
      LastStopPlace(iv, c, s);
      PlaceIsNext(iv, Instant(iv, c, s[k]), c + 1, s[0]);
    }
  }

  lemma NextStop(iv: Interval, cycle: nat, s: seq<int>, i: nat)
    requires Valid(iv) && Lists(iv, s) && i + 1 < 2 * |s|
    ensures Next(iv, StopAt(iv, cycle, s, i)) == StopAt(iv, cycle, s, i + 1)
  {
    StepToNextStop(iv, cycle, s, i);
    LeastUnique(iv, StopAt(iv, cycle, s, i), StopAt(iv, cycle, s, i + 1));
  }

  lemma TimesStep(iv: Interval, cycle: nat, s: seq<int>, k: nat, i: nat, times: seq<int>)
    requires Valid(iv) && Lists(iv, s) && k < |s| && i < |s| && times == StopTimes(iv, cycle, s, k)
    ensures Next(iv, times[i]) == times[i + 1]
  {
    NextStop(iv, cycle, s, k + i);
    TimesAt(iv, cycle, s, k, i, k + i);
    TimesAt(iv, cycle, s, k, i + 1, k + i + 1);
  }

  lemma TimesAt(iv: Interval, cycle: nat, s: seq<int>, k: nat, i: nat, j: nat)
    requires k < |s| && i <= |s| && j == k + i
    ensures j < 2 * |s| && StopTimes(iv, cycle, s, k)[i] == StopAt(iv, cycle, s, j)
  {}

  lemma {:induction false} StepsAroundCycle(iv: Interval, cycle: nat, s: seq<int>, k: nat)
    requires Valid(iv) && Lists(iv, s) && k < |s|
    ensures Iterate(t => Next(iv, t), StopAt(iv, cycle, s, k), |s|) == StopAt(iv, cycle, s, k + |s|)
  {
    var times := StopTimes(iv, cycle, s, k);
    IterateTimes(iv, cycle, s, k, times);
    assert times[0] == StopAt(iv, cycle, s, k + 0);
  }

  lemma {:induction false} IterateTimes(iv: Interval, cycle: nat, s: seq<int>, k: nat, times: seq<int>)
    requires Valid(iv) && Lists(iv, s) && k < |s| && times == StopTimes(iv, cycle, s, k)
    ensures Iterate(t => Next(iv, t), times[0], |s|) == times[|s|]
  {
    var step := t => Next(iv, t);
    forall i | 0 <= i < |s| ensures step(times[i]) == times[i + 1] {
      TimesStep(iv, cycle, s, k, i, times);
    }
    IterateAlong(step, times, |s|);
  }

  function StopTimes(iv: Interval, cycle: nat, s: seq<int>, k: nat): (times: seq<int>)
    requires k < |s|
    ensures |times| == |s| + 1
    ensures forall i :: 0 <= i <= |s| ==> times[i] == StopAt(iv, cycle, s, k + i)
  {
    seq(|s| + 1, i requires 0 <= i <= |s| => StopAt(iv, cycle, s, k + i))
  }

  /** As many runs as there are distinct days take a schedule exactly one period further. */
  lemma {:induction false} FullCycle(iv: Interval, t: int)
    requires Valid(iv) && Recurs(iv, t)
    ensures Iterate(u => Next(iv, u), t, |Stops(iv)|) == t + Period(iv)
  {
    StopsExact(iv);
    var cycle, slot := RecursIsInstant(iv, t);
    var k :| 0 <= k < |Stops(iv)| && Stops(iv)[k] == slot;
    StepsAroundCycle(iv, cycle, Stops(iv), k);
    NextCycle(iv, cycle);
  }

  // ----- the calendar -----

  /** Every run of a daily or weekly rule is at its hour and minute; a weekly rule's runs are on
      its days. */
  lemma RunsOnItsDays(g: Groups, t: int)
    requires ParseInterval(g).Ok? && (g.unit.Days? || g.unit.Weeks?)
    requires Recurs(ParseInterval(g).value, t)
    ensures t % DAY == g.time.value.h * HOUR + g.time.value.m * MINUTE
    ensures g.unit.Weeks? ==> exists i :: 0 <= i < |g.days| && Weekday(t / DAY) == SlotOf(g.days[i])
  {
    var iv := ParseInterval(g).value;
    var cycle, slot := RecursIsInstant(iv, t);
    var time := iv.hour * HOUR + iv.minute * MINUTE;
    if g.unit.Weeks? {
      WeeklyRunDay(g.start.value.day, cycle, iv.every, slot, time, t);
      var i :| 0 <= i < |iv.days| && SlotOf(iv.days[i]) == slot;
    } else {
      CycleDays(cycle, iv.every, 1);
      QuotientUnique(t, DAY, g.start.value.day + cycle * iv.every, time);
    }
  }

  lemma WeeklyRunDay(day: int, cycle: int, every: int, slot: int, time: int, t: int)
    requires 0 <= slot < 7 && 0 <= time < DAY
    requires t == (day - Weekday(day)) * DAY + time + cycle * (every * (7 * DAY)) + slot * DAY
    ensures t % DAY == time && Weekday(t / DAY) == slot
  {
    var monday, weeks := day - Weekday(day), cycle * every;
    CycleDays(cycle, every, 7);
    QuotientUnique(t, DAY, monday + 7 * weeks + slot, time);
    MondayPlus(monday, weeks, slot);
  }

  lemma CycleDays(cycle: int, every: int, length: int)
    ensures cycle * (every * (length * DAY)) == (length * (cycle * every)) * DAY
  {}

  lemma MondayPlus(monday: int, weeks: int, slot: int)
    requires Weekday(monday) == 0 && 0 <= slot < 7
    ensures Weekday(monday + 7 * weeks + slot) == slot
  {}

  /** A day of the first week runs, and not before the start date if it comes no earlier. */
  lemma FirstWeek(g: Groups, i: nat)
    requires ParseInterval(g).Ok? && g.unit.Weeks? && i < |g.days|
    ensures var iv, slot, day := ParseInterval(g).value, SlotOf(g.days[i]), g.start.value.day;
      && IsSlot(iv, slot) && Recurs(iv, Instant(iv, 0, slot))
      && (Instant(iv, 0, slot) >= day * DAY <==> slot >= Weekday(day))
  {
    var iv, slot, day := ParseInterval(g).value, SlotOf(g.days[i]), g.start.value.day;
    assert Picked(iv.days, slot);
    InstantRecurs(iv, 0, slot);
    FirstWeekInstant(iv, slot, day);
  }

  lemma FirstWeekInstant(iv: Interval, slot: int, day: int)
    requires Valid(iv) && iv.unit.Weeks? && Base(iv) == (day - Weekday(day)) * DAY + iv.hour * HOUR + iv.minute * MINUTE
    ensures Instant(iv, 0, slot) >= day * DAY <==> slot >= Weekday(day)
  {
    var time := iv.hour * HOUR + iv.minute * MINUTE;
    var ahead := slot - Weekday(day);
    assert Instant(iv, 0, slot) - day * DAY == ahead * DAY + time;
  }

  lemma LaterWeeks(iv: Interval, t: int) returns (slot: int)
    requires Valid(iv) && iv.unit.Weeks? && Recurs(iv, t)
    ensures IsSlot(iv, slot) && Instant(iv, 0, slot) <= t
  {
    var cycle;
    cycle, slot := RecursIsInstant(iv, t);
    PeriodPositive(iv);
    ProductNonNegative(cycle, Period(iv));
  }

  /** A weekly rule starts on the Monday of its start date's week: it keeps off the days before
      the start date exactly when none of its days falls in that week before the date. */
  lemma StartDateKept(g: Groups)
    requires ParseInterval(g).Ok? && g.unit.Weeks?
    ensures (forall t :: Recurs(ParseInterval(g).value, t) ==> t >= g.start.value.day * DAY)
      <==> (forall i :: 0 <= i < |g.days| ==> SlotOf(g.days[i]) >= Weekday(g.start.value.day))
  {
    var iv := ParseInterval(g).value;
    var day := g.start.value.day;
    forall i: nat | i < |g.days|
      ensures Recurs(iv, Instant(iv, 0, SlotOf(g.days[i])))
      ensures Instant(iv, 0, SlotOf(g.days[i])) >= day * DAY <==> SlotOf(g.days[i]) >= Weekday(day)
    {
      FirstWeek(g, i);
    }
    if forall i :: 0 <= i < |g.days| ==> SlotOf(g.days[i]) >= Weekday(day) {
      forall t | Recurs(iv, t) ensures t >= day * DAY {
        var slot := LaterWeeks(iv, t);
        var i :| 0 <= i < |g.days| && SlotOf(g.days[i]) == slot;
        assert Instant(iv, 0, SlotOf(g.days[i])) >= day * DAY;
      }
    }
  }
}
