// When a bank's agent runs next, which month a bank's money counts in, and which calendar period a
// platform agent has run in. A bank's time zone is any map between its local days and hours and
// the instants (microseconds of UTC) that satisfies `Admissible`.

module Schedule {
  import opened Options
  import opened Calendar

  // `at(day, hour)` is the instant a local day's wall hour names; `date(t)` is the local day of `t`.
  datatype Zone = Zone(at: (nat, nat) -> int, date: int -> nat)

  ghost predicate Admissible(zone: Zone) {
    && (forall t :: 1 <= zone.date(t))
    && (forall day, hour :: 1 <= day && hour < 24 ==> zone.date(zone.at(day, hour)) == day)
    && (forall t, u :: t <= u ==> zone.date(t) <= zone.date(u))
  }

  // Midnight names the first instant of its day. The month ranges need it; the schedule does not.
  ghost predicate DaysStartAtMidnight(zone: Zone) {
    forall day, t :: 1 <= day <= zone.date(t) ==> zone.at(day, 0) <= t
  }

  datatype Cadence = Daily | Weekly | Monthly | Manual

  // ---------------------------------------------------------------------------------------
  // Slots
  // ---------------------------------------------------------------------------------------

  // The days a cadence names: every day, the run weekday, the first run weekday of a month.
  ghost predicate SlotDay(cadence: Cadence, weekday: nat, day: nat) {
    && 1 <= day
    && match cadence
       case Daily => true
       case Weekly => IsoWeekday(day) == weekday
       case Monthly => IsoWeekday(day) == weekday && forall e :: FirstOfMonth(day) <= e < day ==>
         IsoWeekday(e) != weekday
       case Manual => false
  }

  ghost predicate Slot(zone: Zone, cadence: Cadence, weekday: nat, hour: nat, t: int) {
    exists day :: SlotDay(cadence, weekday, day) && zone.at(day, hour) == t
  }

  // `t` is the first slot after `now`.
  ghost predicate NextSlot(zone: Zone, cadence: Cadence, weekday: nat, hour: nat, now: int, t: int) {
    && now < t
    && Slot(zone, cadence, weekday, hour, t)
    && forall u :: now < u < t ==> !Slot(zone, cadence, weekday, hour, u)
  }

  // The first `weekday` at or after `first`.
  function OnOrAfter(first: nat, weekday: nat): (day: nat)
    ensures first <= day < first + 7
  {
    first + (weekday - IsoWeekday(first)) % 7
  }

  // A slot's settings as the row keeps them; a missing day reads as Monday, a missing hour as the
  // app's own.
  const MONDAY := 1

  function Weekday(runWeekday: Option<nat>): nat {
    if runWeekday.Some? && runWeekday.value != 0 then runWeekday.value else MONDAY
  }

  function Hour(runHour: Option<nat>, defaultHour: nat): nat {
    if runHour.Some? then runHour.value else defaultHour
  }

  // The instant after `now` an agent of this cadence runs at.
  function Upcoming(zone: Zone, cadence: Cadence, weekday: nat, hour: nat, now: int): int
    requires cadence != Manual
  {
    var today := zone.date(now);
    match cadence
    case Daily => if zone.at(today, hour) > now then zone.at(today, hour) else zone.at(today + 1, hour)
    case Weekly =>
      var day := OnOrAfter(today, weekday);
      if zone.at(day, hour) > now then zone.at(day, hour) else zone.at(day + 7, hour)
    case Monthly =>
      if today == 0 then 0 else
      var first := OnOrAfter(FirstOfMonth(today), weekday);
      if zone.at(first, hour) > now then zone.at(first, hour)
      else zone.at(OnOrAfter(FirstOfMonth(FirstOfMonth(today) + 32), weekday), hour)
  }

  lemma LaterDay(zone: Zone, a: nat, b: nat, hour: nat)
    requires Admissible(zone) && 1 <= a && 1 <= b && hour < 24
    ensures a < b <==> zone.at(a, hour) < zone.at(b, hour)
    ensures a <= b <==> zone.at(a, hour) <= zone.at(b, hour)
  {
    assert zone.date(zone.at(a, hour)) == a && zone.date(zone.at(b, hour)) == b;
  }

  // What lies after now lies today or later; what lies on a later day lies after now.
  lemma AfterNow(zone: Zone, day: nat, hour: nat, now: int)
    requires Admissible(zone) && 1 <= day && hour < 24
    ensures zone.at(day, hour) > now ==> zone.date(now) <= day
    ensures zone.date(now) < day ==> zone.at(day, hour) > now
  {
    assert zone.date(zone.at(day, hour)) == day;
  }

  lemma OnOrAfterIsFirst(first: nat, weekday: nat)
    requires 1 <= weekday <= 7
    ensures IsoWeekday(OnOrAfter(first, weekday)) == weekday
    ensures forall e :: first <= e < OnOrAfter(first, weekday) ==> IsoWeekday(e) != weekday
  {
    var day := OnOrAfter(first, weekday);
    DaysOn(first, day - first);
    forall e | first <= e < day
      ensures IsoWeekday(e) != weekday
    {
      DaysOn(first, e - first);
    }
  }

  lemma DaysOn(first: nat, days: nat)
    requires days < 7
    ensures (first + days) % 7 == if first % 7 + days < 7 then first % 7 + days else first % 7 + days - 7
  {
    assert first == 7 * (first / 7) + first % 7;
  }

  // The slot days of a monthly cadence are exactly one a month: the first such weekday.
  lemma MonthlySlotDay(month: nat, weekday: nat, day: nat)
    requires 1 <= weekday <= 7 && 1 <= day && MonthOf(day) == month
    ensures SlotDay(Monthly, weekday, day) <==> day == OnOrAfter(MonthStart(month), weekday)
  {
    OnOrAfterIsFirst(MonthStart(month), weekday);
  }

  lemma MonthlySlotOfMonth(month: nat, weekday: nat)
    requires 1 <= weekday <= 7
    ensures var day := OnOrAfter(MonthStart(month), weekday);
            1 <= day && MonthOf(day) == month && SlotDay(Monthly, weekday, day)
  {
    var day := OnOrAfter(MonthStart(month), weekday);
    MonthOfIsUnique(day, month);
    MonthlySlotDay(month, weekday, day);
  }

  // The least slot day after `now`, once it is known to be one: nothing is between.
  lemma LeastDay(zone: Zone, cadence: Cadence, weekday: nat, hour: nat, now: int, day: nat)
    requires Admissible(zone) && hour < 24 && 1 <= day
    requires SlotDay(cadence, weekday, day) && zone.at(day, hour) > now
    requires forall e: nat :: SlotDay(cadence, weekday, e) && zone.date(now) <= e < day ==> zone.at(e, hour) <= now
    ensures NextSlot(zone, cadence, weekday, hour, now, zone.at(day, hour))
  {
    forall u | now < u < zone.at(day, hour)
      ensures !Slot(zone, cadence, weekday, hour, u)
    {
      if Slot(zone, cadence, weekday, hour, u) {
        var e :| SlotDay(cadence, weekday, e) && zone.at(e, hour) == u;
        AfterNow(zone, e, hour, now);
        LaterDay(zone, e, day, hour);
      }
    }
  }

  lemma UpcomingDaily(zone: Zone, weekday: nat, hour: nat, now: int)
    requires Admissible(zone) && hour < 24
    ensures NextSlot(zone, Daily, weekday, hour, now, Upcoming(zone, Daily, weekday, hour, now))
  {
    var today := zone.date(now);
    AfterNow(zone, today + 1, hour, now);
    LeastDay(zone, Daily, weekday, hour, now, if zone.at(today, hour) > now then today else today + 1);
  }

  lemma OnceAWeek(day: nat, weekday: nat)
    requires IsoWeekday(day) == weekday
    ensures IsoWeekday(day + 7) == weekday && forall e :: day < e < day + 7 ==> IsoWeekday(e) != weekday
  {
  }

  lemma UpcomingWeekly(zone: Zone, weekday: nat, hour: nat, now: int)
    requires Admissible(zone) && hour < 24 && 1 <= weekday <= 7
    ensures NextSlot(zone, Weekly, weekday, hour, now, Upcoming(zone, Weekly, weekday, hour, now))
  {
    var today := zone.date(now);
    var day := OnOrAfter(today, weekday);
    OnOrAfterIsFirst(today, weekday);
    AfterNow(zone, day + 7, hour, now);
    OnceAWeek(day, weekday);
    LeastDay(zone, Weekly, weekday, hour, now, if zone.at(day, hour) > now then day else day + 7);
  }

  // Between a day and next month's slot day there is at most this month's.
  lemma OnlyThisMonth(weekday: nat, today: nat, e: nat)
    requires 1 <= weekday <= 7 && 1 <= today <= e && SlotDay(Monthly, weekday, e)
    ensures e == OnOrAfter(MonthStart(MonthOf(today)), weekday) ||
            OnOrAfter(MonthStart(MonthOf(today) + 1), weekday) <= e
  {
    MonthOfMonotone(today, e);
    MonthlySlotDay(MonthOf(e), weekday, e);
    MonthlySlotOfMonth(MonthOf(today) + 1, weekday);
    if MonthOf(today) + 1 < MonthOf(e) {
      MonthStartsOrdered(MonthOf(today) + 2, MonthOf(e));
    }
  }

  lemma MonthlyNext(zone: Zone, weekday: nat, hour: nat, now: int, first: nat, next: nat)
    requires Admissible(zone) && hour < 24 && 1 <= weekday <= 7
    requires var month := MonthOf(zone.date(now));
             first == OnOrAfter(MonthStart(month), weekday) && next == OnOrAfter(MonthStart(month + 1), weekday)
    ensures zone.at(next, hour) > now
    ensures NextSlot(zone, Monthly, weekday, hour, now,
            zone.at(if zone.at(first, hour) > now then first else next, hour))
  {
    var today := zone.date(now);
    MonthlySlotOfMonth(MonthOf(today), weekday);
    MonthlySlotOfMonth(MonthOf(today) + 1, weekday);
    AfterNow(zone, next, hour, now);
    AfterNow(zone, first, hour, now);
    forall e: nat | SlotDay(Monthly, weekday, e) && today <= e < next
      ensures e == first
    {
      OnlyThisMonth(weekday, today, e);
    }
    LeastDay(zone, Monthly, weekday, hour, now, if zone.at(first, hour) > now then first else next);
  }

  lemma UpcomingMonthly(zone: Zone, weekday: nat, hour: nat, now: int)
    requires Admissible(zone) && hour < 24 && 1 <= weekday <= 7
    ensures NextSlot(zone, Monthly, weekday, hour, now, Upcoming(zone, Monthly, weekday, hour, now))
    ensures zone.at(OnOrAfter(FirstOfMonth(FirstOfMonth(zone.date(now)) + 32), weekday), hour) > now
  {
    var today := zone.date(now);
    var month := MonthOf(today);
    FirstOfFirst(today);
    MonthlyNext(zone, weekday, hour, now, OnOrAfter(MonthStart(month), weekday),
      OnOrAfter(MonthStart(month + 1), weekday));
  }

  // For every cadence that runs, zone, weekday, hour and instant, the upcoming run is the least slot after now.
  lemma UpcomingIsNextSlot(zone: Zone, cadence: Cadence, weekday: nat, hour: nat, now: int)
    requires Admissible(zone) && hour < 24 && 1 <= weekday <= 7 && cadence != Manual
    ensures NextSlot(zone, cadence, weekday, hour, now, Upcoming(zone, cadence, weekday, hour, now))
  {
    match cadence
    case Daily => UpcomingDaily(zone, weekday, hour, now);
    case Weekly => UpcomingWeekly(zone, weekday, hour, now);
    case Monthly => UpcomingMonthly(zone, weekday, hour, now);
  }

  // The day a row's own fields name: the run weekday it holds, or Monday where it names none.
  predicate OnNamedDay(cadence: Cadence, runWeekday: Option<nat>, day: nat)
    requires 1 <= day
  {
    match cadence
    case Daily => true
    case Weekly => IsoWeekday(day) == if runWeekday.Some? then runWeekday.value else 1
    case Monthly => IsoWeekday(day) == (if runWeekday.Some? then runWeekday.value else 1) && day < FirstOfMonth(day) + 7
    case Manual => false
  }

  // The upcoming run is at the row's own hour, or the app's where it names none, of such a day.
  lemma UpcomingIsNamed(zone: Zone, cadence: Cadence, runWeekday: Option<nat>, runHour: Option<nat>, defaultHour: nat,
                        now: int)
    requires Admissible(zone) && cadence != Manual && defaultHour < 24
    requires (runWeekday.Some? ==> 1 <= runWeekday.value <= 7) && (runHour.Some? ==> runHour.value < 24)
    ensures var next := Upcoming(zone, cadence, Weekday(runWeekday), Hour(runHour, defaultHour), now);
            && OnNamedDay(cadence, runWeekday, zone.date(next))
            && next == zone.at(zone.date(next), if runHour.Some? then runHour.value else defaultHour)
  {
    var weekday, hour := Weekday(runWeekday), Hour(runHour, defaultHour);
    var next := Upcoming(zone, cadence, weekday, hour, now);
    UpcomingIsNextSlot(zone, cadence, weekday, hour, now);
    var day :| SlotDay(cadence, weekday, day) && zone.at(day, hour) == next;
    assert zone.date(zone.at(day, hour)) == day;
    if cadence == Monthly {
      MonthlySlotDay(MonthOf(day), weekday, day);
    }
  }

  // The value `next_run_at` computes for a row, and the loop that computes it.
  function NextRun(zone: Zone, runs: bool, cadence: Cadence, weekday: nat, hour: nat, now: int): Option<int> {
    if !runs || cadence == Manual then None else Some(Upcoming(zone, cadence, weekday, hour, now))
  }

  method NextRunAt(zone: Zone, enabled: bool, paused: bool, cadence: Cadence, runWeekday: Option<nat>,
                   runHour: Option<nat>,
                   defaultHour: nat, now: int)
    returns (next: Option<int>)
    requires Admissible(zone) && Hour(runHour, defaultHour) < 24 && 1 <= Weekday(runWeekday) <= 7
    ensures next == NextRun(zone, enabled && !paused, cadence, Weekday(runWeekday), Hour(runHour, defaultHour), now)
    ensures next.None? <==> !enabled || paused || cadence == Manual
    ensures next.Some? ==> NextSlot(zone, cadence, Weekday(runWeekday), Hour(runHour, defaultHour), now, next.value)
    ensures next.Some? && (runWeekday.Some? ==> 1 <= runWeekday.value <= 7) && defaultHour < 24 ==>
              && OnNamedDay(cadence, runWeekday, zone.date(next.value))
              && next.value == zone.at(zone.date(next.value), if runHour.Some? then runHour.value else defaultHour)
  {
    if !enabled || paused || cadence == Manual {
      return None;
    }
    var today := zone.date(now);
    var hour, weekday := Hour(runHour, defaultHour), Weekday(runWeekday);
    UpcomingIsNextSlot(zone, cadence, weekday, hour, now);
    if (runWeekday.Some? ==> 1 <= runWeekday.value <= 7) && defaultHour < 24 {
      UpcomingIsNamed(zone, cadence, runWeekday, runHour, defaultHour, now);
    }
    if cadence == Daily {
      if zone.at(today, hour) > now {
        return Some(zone.at(today, hour));
      }
      return Some(zone.at(today + 1, hour));
    }
    if cadence == Weekly {
      var day := OnOrAfter(today, weekday);
      if zone.at(day, hour) > now {
        return Some(zone.at(day, hour));
      }
      return Some(zone.at(day + 7, hour));
    }
    var monthly := NextMonthly(zone, weekday, hour, now);
    return Some(monthly);
  }

  // The monthly loop: this month's first run weekday, then next month's, which is always ahead.
  method NextMonthly(zone: Zone, weekday: nat, hour: nat, now: int) returns (next: int)
    requires Admissible(zone) && hour < 24 && 1 <= weekday <= 7
    ensures next == Upcoming(zone, Monthly, weekday, hour, now)
  {
    var today := zone.date(now);
    var month := FirstOfMonth(today);
    UpcomingMonthly(zone, weekday, hour, now);
    for i := 0 to 2
      invariant 1 <= month && i < 2
      invariant month == if i == 0 then FirstOfMonth(today) else FirstOfMonth(FirstOfMonth(today) + 32)
      invariant i == 1 ==> zone.at(OnOrAfter(FirstOfMonth(today), weekday), hour) <= now
    {
      var first := OnOrAfter(month, weekday);
      if zone.at(first, hour) > now {
        return zone.at(first, hour);
      }
      month := FirstOfMonth(month + 32);
    }
    assert false;
  }

  // ---------------------------------------------------------------------------------------
  // The month the money counts in
  // ---------------------------------------------------------------------------------------

  datatype Range = Range(start: int, end: int)

  predicate Within(range: Range, t: int) {
    range.start <= t < range.end
  }

  // `budget.month`: from midnight on the first of this month to midnight on the first of the next.
  function MonthRange(zone: Zone, now: int): Range
    requires 1 <= zone.date(now)
  {
    var first := FirstOfMonth(zone.date(now));
    var following := FirstOfMonth(first + 32);
    Range(zone.at(first, 0), zone.at(following, 0))
  }

  function RangeOf(zone: Zone, month: nat): Range {
    Range(zone.at(MonthStart(month), 0), zone.at(MonthStart(month + 1), 0))
  }

  // An instant is within a month's range exactly when its local day is in that month.
  lemma WithinItsMonth(zone: Zone, month: nat, t: int)
    requires Admissible(zone) && DaysStartAtMidnight(zone)
    ensures Within(RangeOf(zone, month), t) <==> MonthOf(zone.date(t)) == month
  {
    var day := zone.date(t);
    var start, end := MonthStart(month), MonthStart(month + 1);
    assert zone.date(zone.at(start, 0)) == start && zone.date(zone.at(end, 0)) == end;
    if MonthStart(month) <= day < MonthStart(month + 1) {
      MonthOfIsUnique(day, month);
    }
  }

  // Two instants have one range exactly when their local days are in one month.
  lemma RangesDiffer(zone: Zone, a: nat, b: nat)
    requires Admissible(zone) && RangeOf(zone, a) == RangeOf(zone, b)
    ensures a == b
  {
    assert zone.date(zone.at(MonthStart(a), 0)) == MonthStart(a);
    assert zone.date(zone.at(MonthStart(b), 0)) == MonthStart(b);
    MonthOfIsUnique(MonthStart(a), a);
    MonthOfIsUnique(MonthStart(b), b);
  }

  lemma NextRange(zone: Zone, month: nat)
    requires Admissible(zone)
    ensures MonthRange(zone, RangeOf(zone, month).end) == RangeOf(zone, month + 1)
  {
    var end := RangeOf(zone, month).end;
    assert zone.date(end) == MonthStart(month + 1);
    RangeIsOfMonth(zone, end);
    MonthOfIsUnique(MonthStart(month + 1), month + 1);
  }

  // The ranges are half-open, contain their own now, never overlap and leave no gap.
  lemma MonthsPartition(zone: Zone, now: int, t: int)
    requires Admissible(zone) && DaysStartAtMidnight(zone)
    ensures Within(MonthRange(zone, now), now)
    ensures Within(MonthRange(zone, now), t) <==> MonthRange(zone, t) == MonthRange(zone, now)
    ensures MonthRange(zone, MonthRange(zone, now).end).start == MonthRange(zone, now).end
  {
    var month, other := MonthOf(zone.date(now)), MonthOf(zone.date(t));
    RangeIsOfMonth(zone, now);
    RangeIsOfMonth(zone, t);
    WithinItsMonth(zone, month, now);
    WithinItsMonth(zone, month, t);
    NextRange(zone, month);
    if RangeOf(zone, other) == RangeOf(zone, month) {
      RangesDiffer(zone, month, other);
    }
  }

  lemma RangeIsOfMonth(zone: Zone, now: int)
    requires Admissible(zone)
    ensures MonthRange(zone, now) == RangeOf(zone, MonthOf(zone.date(now)))
  {
    FirstOfFirst(zone.date(now));
  }

  // A run as the month's sum reads it: when it started and what it has cost, in 1/10000 EUR.
  datatype Charge = Charge(startedAt: int, cost: nat)

  function MonthCost(zone: Zone, charges: seq<Charge>, month: nat): nat {
    if charges == [] then 0 else
    var last := charges[|charges| - 1];
    MonthCost(zone, charges[..|charges| - 1], month) + if Within(RangeOf(zone, month), last.startedAt) then last.cost
      else 0
  }

  function AllCost(charges: seq<Charge>): nat {
    if charges == [] then 0 else AllCost(charges[..|charges| - 1]) + charges[|charges| - 1].cost
  }

  function MonthsCost(zone: Zone, charges: seq<Charge>, months: nat): nat {
    if months == 0 then 0 else MonthsCost(zone, charges, months - 1) + MonthCost(zone, charges, months - 1)
  }

  lemma OneMoreInMonth(zone: Zone, charges: seq<Charge>, month: nat)
    requires Admissible(zone) && DaysStartAtMidnight(zone) && charges != []
    ensures var last := charges[|charges| - 1];
            MonthCost(zone, charges, month) ==
            MonthCost(zone, charges[..|charges| - 1], month) + if MonthOf(zone.date(last.startedAt)) == month
              then last.cost else 0
  {
    WithinItsMonth(zone, month, charges[|charges| - 1].startedAt);
  }

  lemma {:induction false} OneMoreCharge(zone: Zone, charges: seq<Charge>, months: nat)
    requires Admissible(zone) && DaysStartAtMidnight(zone) && charges != []
    ensures var last := charges[|charges| - 1];
            MonthsCost(zone, charges, months) ==
            MonthsCost(zone, charges[..|charges| - 1], months) + if MonthOf(zone.date(last.startedAt)) < months
              then last.cost else 0
  {
    if 0 < months {
      OneMoreCharge(zone, charges, months - 1);
      OneMoreInMonth(zone, charges, months - 1);
    }
  }

  // Summed over all months, each run's exact cost counts exactly once.
  lemma {:induction false} EachCostOnce(zone: Zone, charges: seq<Charge>, months: nat)
    requires Admissible(zone) && DaysStartAtMidnight(zone)
    requires forall i :: 0 <= i < |charges| ==> MonthOf(zone.date(charges[i].startedAt)) < months
    ensures MonthsCost(zone, charges, months) == AllCost(charges)
  {
    if charges == [] {
      NothingCharged(zone, months);
    } else {
      EachCostOnce(zone, charges[..|charges| - 1], months);
      OneMoreCharge(zone, charges, months);
    }
  }

  lemma {:induction false} NothingCharged(zone: Zone, months: nat)
    ensures MonthsCost(zone, [], months) == 0
  {
    if 0 < months {
      NothingCharged(zone, months - 1);
    }
  }

  // ---------------------------------------------------------------------------------------
  // The calendar period of a platform agent
  // ---------------------------------------------------------------------------------------

  // The first UTC day of the period a cadence runs once in: the day, the week from Monday, the month.
  function PeriodStart(cadence: Cadence, day: nat): (first: nat)
    requires 1 <= day && cadence != Manual
    ensures 1 <= first <= day
  {
    match cadence
    case Daily => day
    case Weekly => day - (IsoWeekday(day) - 1)
    case Monthly => FirstOfMonth(day)
  }

  // Two days are in one period of a cadence: one day, one week from Monday, one month.
  predicate InOnePeriod(cadence: Cadence, a: nat, b: nat)
    requires 1 <= a && 1 <= b
  {
    match cadence
    case Daily => a == b
    case Weekly => (a - 1) / 7 == (b - 1) / 7
    case Monthly => MonthOf(a) == MonthOf(b)
    case Manual => false
  }

  // A period's start is its first day, and two days have one start exactly when they are in one period.
  lemma PeriodsAre(cadence: Cadence, a: nat, b: nat)
    requires 1 <= a && 1 <= b && cadence != Manual
    ensures PeriodStart(cadence, a) == PeriodStart(cadence, b) <==> InOnePeriod(cadence, a, b)
    ensures InOnePeriod(cadence, PeriodStart(cadence, a), a)
    ensures forall day :: 1 <= day < PeriodStart(cadence, a) ==> !InOnePeriod(cadence, day, a)
    ensures cadence == Weekly ==> IsoWeekday(PeriodStart(cadence, a)) == 1
    ensures cadence == Monthly ==> PeriodStart(cadence, a) == MonthStart(MonthOf(a))
  {
    match cadence
    case Daily =>
    case Weekly =>
      WeekStarts(a);
      WeekStarts(b);
    case Monthly =>
      MonthsHaveStarts(MonthOf(a), MonthOf(b));
      FirstOfFirst(a);
      MonthOfIsUnique(MonthStart(MonthOf(a)), MonthOf(a));
      forall day | 1 <= day < MonthStart(MonthOf(a))
        ensures MonthOf(day) != MonthOf(a)
      {
      }
  }

  lemma WeekStarts(day: nat)
    requires 1 <= day
    ensures day - (IsoWeekday(day) - 1) == 7 * ((day - 1) / 7) + 1
  {
    assert day - 1 == 7 * ((day - 1) / 7) + (day - 1) % 7;
    if (day - 1) % 7 == 6 {
      assert day == 7 * ((day - 1) / 7 + 1);
    } else {
      assert day == 7 * ((day - 1) / 7) + ((day - 1) % 7 + 1);
    }
  }

  lemma MonthsHaveStarts(a: nat, b: nat)
    ensures MonthStart(a) == MonthStart(b) <==> a == b
  {
    if a < b {
      MonthStartsOrdered(a + 1, b);
    } else if b < a {
      MonthStartsOrdered(b + 1, a);
    }
  }

  // A later day's period starts no earlier, and a period starts where its first day's does.
  lemma PeriodsInOrder(cadence: Cadence, a: nat, b: nat)
    requires 1 <= a <= b && cadence != Manual
    ensures PeriodStart(cadence, a) <= PeriodStart(cadence, b)
    ensures PeriodStart(cadence, PeriodStart(cadence, a)) == PeriodStart(cadence, a)
    ensures PeriodStart(cadence, b) <= a ==> PeriodStart(cadence, a) == PeriodStart(cadence, b)
  {
    match cadence
    case Daily =>
    case Weekly =>
    case Monthly =>
      FirstOfFirst(a);
      MonthOfMonotone(a, b);
      if FirstOfMonth(b) <= a {
        MonthOfIsUnique(a, MonthOf(b));
      }
  }
}
