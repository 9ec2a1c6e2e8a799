// The Gregorian calendar on day numbers, as Python's `date.toordinal` counts them: day 1 is
// Monday, 1 January of year 1. Months are numbered from 0, January of year 1. It is what the next run
// of an agent, a bank's months and a platform agent's periods are computed on; counting month by
// month agrees with the closed form of the calendar.

module Calendar {
  predicate Leap(year: nat) {
    year % 4 == 0 && (year % 100 != 0 || year % 400 == 0)
  }

  function YearOf(month: nat): nat {
    month / 12 + 1
  }

  function MonthLength(month: nat): (days: nat)
    ensures 28 <= days <= 31
  {
    match month % 12
    case 1 => if Leap(YearOf(month)) then 29 else 28
    case 3 => 30
    case 5 => 30
    case 8 => 30
    case 10 => 30
    case _ => 31
  }

  // The first day of a month.
  function MonthStart(month: nat): (day: nat)
    ensures 1 <= day
  {
    if month == 0 then 1 else MonthStart(month - 1) + MonthLength(month - 1)
  }

  function MonthFrom(day: nat, month: nat): (found: nat)
    requires MonthStart(month) <= day
    ensures month <= found && MonthStart(found) <= day < MonthStart(found + 1)
    decreases day - MonthStart(month)
  {
    if day < MonthStart(month + 1) then month else MonthFrom(day, month + 1)
  }

  // The month a day is in.
  function MonthOf(day: nat): (month: nat)
    requires 1 <= day
    ensures MonthStart(month) <= day < MonthStart(month + 1)
  {
    MonthFrom(day, 0)
  }

  // `day.replace(day=1)`.
  function FirstOfMonth(day: nat): (first: nat)
    requires 1 <= day
    ensures 1 <= first <= day < first + 31
  {
    MonthStart(MonthOf(day))
  }

  // 1 for Monday to 7 for Sunday.
  function IsoWeekday(day: nat): (weekday: nat)
    ensures 1 <= weekday <= 7
  {
    if day % 7 == 0 then 7 else day % 7
  }

  // 1 January of year 1 is a Monday, and the weekdays go round.
  lemma WeekdaysGoRound(day: nat)
    ensures IsoWeekday(1) == 1
    ensures IsoWeekday(day + 1) == if IsoWeekday(day) == 7 then 1 else IsoWeekday(day) + 1
  {
    if day % 7 == 6 {
      assert day + 1 == 7 * (day / 7 + 1);
    } else {
      assert day + 1 == 7 * (day / 7) + (day % 7 + 1);
    }
  }

  lemma {:induction false} MonthStartsOrdered(a: nat, b: nat)
    requires a <= b
    ensures MonthStart(a) <= MonthStart(b)
  {
    if a < b {
      MonthStartsOrdered(a, b - 1);
    }
  }

  // A day is in one month only.
  lemma MonthOfIsUnique(day: nat, month: nat)
    requires MonthStart(month) <= day < MonthStart(month + 1)
    ensures 1 <= day && MonthOf(day) == month
  {
    var found := MonthOf(day);
    MonthStartsOrdered(if found < month then found + 1 else month + 1, if found < month then month
      else if found == month then month + 1 else found);
  }

  lemma MonthOfMonotone(a: nat, b: nat)
    requires 1 <= a <= b
    ensures MonthOf(a) <= MonthOf(b)
    ensures FirstOfMonth(a) <= FirstOfMonth(b)
  {
    var early, late := MonthOf(a), MonthOf(b);
    if late < early {
      MonthStartsOrdered(late + 1, early);
    } else {
      MonthStartsOrdered(early, late);
    }
  }

  // The step to the next month: 32 days past a first day, then back to the first.
  lemma NextFirst(month: nat)
    ensures FirstOfMonth(MonthStart(month) + 32) == MonthStart(month + 1)
    ensures MonthOf(MonthStart(month) + 32) == month + 1
  {
    MonthOfIsUnique(MonthStart(month) + 32, month + 1);
  }

  lemma FirstOfFirst(day: nat)
    requires 1 <= day
    ensures FirstOfMonth(FirstOfMonth(day)) == FirstOfMonth(day)
    ensures FirstOfMonth(FirstOfMonth(day) + 32) == MonthStart(MonthOf(day) + 1)
  {
    MonthOfIsUnique(FirstOfMonth(day), MonthOf(day));
    NextFirst(MonthOf(day));
  }

  // ---------------------------------------------------------------------------------------
  // The closed form of the calendar
  // ---------------------------------------------------------------------------------------

  // The days before a year: 365 of each, one more every 4, none every 100, one every 400.
  function DaysBeforeYear(year: nat): nat
    requires 1 <= year
  {
    var y := year - 1;
    365 * y + (y / 4 - y / 100) + y / 400
  }

  lemma LeapStep(year: nat)
    requires 1 <= year
    ensures DaysBeforeYear(year + 1) == DaysBeforeYear(year) + 365 + (if Leap(year) then 1 else 0)
  {
    DivStep(year, 4);
    DivStep(year, 100);
    DivStep(year, 400);
    DivStep400(year);
  }

  lemma DivStep(n: nat, k: nat)
    requires 1 <= n && (k == 4 || k == 100 || k == 400)
    ensures n / k == (n - 1) / k + (if n % k == 0 then 1 else 0)
  {
  }

  lemma DivStep400(n: nat)
    ensures n % 400 == 0 ==> n % 100 == 0
    ensures n % 100 == 0 ==> n % 4 == 0
  {
    if n % 400 == 0 {
      assert n == 100 * (4 * (n / 400));
    }
    if n % 100 == 0 {
      assert n == 4 * (25 * (n / 100));
    }
  }

  lemma MonthLengths(year: nat, month: nat)
    requires 1 <= year && month < 12
    ensures MonthLength(12 * (year - 1) + month) ==
            if month == 1 then (if Leap(year) then 29 else 28)
            else if month == 3 || month == 5 || month == 8 || month == 10 then 30 else 31
  {
    var m := 12 * (year - 1) + month;
    assert m / 12 == year - 1 && m % 12 == month;
  }

  // The days of the first `months` months of a year.
  function DaysBeforeMonth(leap: bool, months: nat): nat
    requires months <= 12
  {
    if months == 0 then 0 else
    DaysBeforeMonth(leap, months - 1) +
      var last := months - 1;
      if last == 1 then (if leap then 29 else 28)
      else if last == 3 || last == 5 || last == 8 || last == 10 then 30 else 31
  }

  lemma {:induction false} MonthsOfYear(year: nat, months: nat)
    requires 1 <= year && months <= 12
    ensures MonthStart(12 * (year - 1) + months) == MonthStart(12 * (year - 1)) + DaysBeforeMonth(Leap(year), months)
  {
    if 0 < months {
      MonthsOfYear(year, months - 1);
      MonthLengths(year, months - 1);
    }
  }

  lemma YearDays(leap: bool)
    ensures DaysBeforeMonth(leap, 12) == 365 + (if leap then 1 else 0)
  {
    var extra := if leap then 1 else 0;
    assert DaysBeforeMonth(leap, 1) == 31;
    assert DaysBeforeMonth(leap, 2) == 59 + extra;
    assert DaysBeforeMonth(leap, 3) == 90 + extra;
    assert DaysBeforeMonth(leap, 4) == 120 + extra;
    assert DaysBeforeMonth(leap, 5) == 151 + extra;
    assert DaysBeforeMonth(leap, 6) == 181 + extra;
    assert DaysBeforeMonth(leap, 7) == 212 + extra;
    assert DaysBeforeMonth(leap, 8) == 243 + extra;
    assert DaysBeforeMonth(leap, 9) == 273 + extra;
    assert DaysBeforeMonth(leap, 10) == 304 + extra;
    assert DaysBeforeMonth(leap, 11) == 334 + extra;
  }

  lemma YearSpan(year: nat)
    requires 1 <= year
    ensures MonthStart(12 * year) == MonthStart(12 * (year - 1)) + 365 + (if Leap(year) then 1 else 0)
  {
    MonthsOfYear(year, 12);
    YearDays(Leap(year));
    assert 12 * (year - 1) + 12 == 12 * year;
  }

  // Counting month by month agrees with the closed form at every new year.
  lemma {:induction false} NewYearIsClosedForm(year: nat)
    requires 1 <= year
    ensures MonthStart(12 * (year - 1)) == DaysBeforeYear(year) + 1
  {
    if 1 < year {
      NewYearIsClosedForm(year - 1);
      YearSpan(year - 1);
      LeapStep(year - 1);
    }
  }
}
