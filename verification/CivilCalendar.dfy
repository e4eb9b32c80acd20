/** Day numbers of proleptic Gregorian dates. */
module CivilCalendar {

  datatype Date = Date(year: int, month: int, day: int)

  predicate Leap(year: int) {
    year % 4 == 0 && (year % 100 != 0 || year % 400 == 0)
  }

  function DaysInMonth(year: int, month: int): int {
    if month == 2 then if Leap(year) then 29 else 28
    else if month == 4 || month == 6 || month == 9 || month == 11 then 30
    else 31
  }

  predicate IsDate(d: Date) {
    1 <= d.month <= 12 && 1 <= d.day <= DaysInMonth(d.year, d.month)
  }

  /** Division as Rust does it: toward zero. */
  function Truncated(a: int, b: int): int
    requires b > 0
  {
    if a >= 0 then a / b else -(-a / b)
  }

  /** `days_from_civil`. */
  function DaysFromCivil(d: Date): int {
    var year := d.year - if d.month <= 2 then 1 else 0;
    var era := Truncated(if year >= 0 then year else year - 399, 400);
    var yearOfEra := year - era * 400;
    var dayOfYear := Truncated(153 * (d.month + if d.month > 2 then -3 else 9) + 2, 5) + d.day - 1;
    var dayOfEra := yearOfEra * 365 + Truncated(yearOfEra, 4) - Truncated(yearOfEra, 100) + dayOfYear;
    era * 146097 + dayOfEra
  }

  /** Days before 1 March of `year`, counted from 1 March of year 0, with rounding toward minus infinity. */
  function MarchStart(year: int): int {
    365 * year + year / 4 - year / 100 + year / 400
  }

  /** Days from 1 March to the first of `month`. */
  function MonthStart(month: int): int {
    (153 * (month + if month > 2 then -3 else 9) + 2) / 5
  }

  /** The closed form, without eras. */
  lemma DaysFromCivilIs(d: Date)
    requires IsDate(d)
    ensures DaysFromCivil(d) == MarchStart(if d.month <= 2 then d.year - 1 else d.year) + MonthStart(d.month)
        + d.day - 1
  {
    var year := d.year - if d.month <= 2 then 1 else 0;
    EraIsFloor(year);
    var era := year / 400;
    var yoe := year - era * 400;
    assert 0 <= yoe < 400;
    Quarter(era, yoe);
  }

  lemma EraIsFloor(year: int)
    ensures Truncated(if year >= 0 then year else year - 399, 400) == year / 400
  {
  }

  lemma Quarter(era: int, yoe: int)
    requires 0 <= yoe < 400
    ensures (400 * era + yoe) / 4 == 100 * era + yoe / 4
    ensures (400 * era + yoe) / 100 == 4 * era + yoe / 100
    ensures (400 * era + yoe) / 400 == era
  {
  }

  /** A year from March to March holds 366 days when it ends in a leap February. */
  lemma MarchYear(year: int)
    ensures MarchStart(year) - MarchStart(year - 1) == if Leap(year) then 366 else 365
  {
    FourthStep(year);
    HundredthStep(year);
    FourHundredthStep(year);
    Multiples(year);
    LeapCount(year, year / 4 - (year - 1) / 4, year / 100 - (year - 1) / 100, year / 400 - (year - 1) / 400);
  }

  lemma FourthStep(year: int)
    ensures year / 4 - (year - 1) / 4 == if year % 4 == 0 then 1 else 0
  {
  }

  lemma HundredthStep(year: int)
    ensures year / 100 - (year - 1) / 100 == if year % 100 == 0 then 1 else 0
  {
  }

  lemma FourHundredthStep(year: int)
    ensures year / 400 - (year - 1) / 400 == if year % 400 == 0 then 1 else 0
  {
  }

  lemma Multiples(year: int)
    ensures year % 100 == 0 ==> year % 4 == 0
    ensures year % 400 == 0 ==> year % 100 == 0
  {
  }

  lemma LeapCount(year: int, fourth: int, hundredth: int, fourHundredth: int)
    requires year % 100 == 0 ==> year % 4 == 0
    requires year % 400 == 0 ==> year % 100 == 0
    requires fourth == (if year % 4 == 0 then 1 else 0) && hundredth == (if year % 100 == 0 then 1 else 0)
    requires fourHundredth == if year % 400 == 0 then 1 else 0
    ensures 365 + fourth - hundredth + fourHundredth == if Leap(year) then 366 else 365
  {
  }

  function NextDay(d: Date): Date {
    if d.day < DaysInMonth(d.year, d.month) then Date(d.year, d.month, d.day + 1)
    else if d.month < 12 then Date(d.year, d.month + 1, 1)
    else Date(d.year + 1, 1, 1)
  }

  /** The months from March on have the lengths the closed form gives them, whatever the year. */
  lemma MonthStep(year: int, month: int)
    requires 1 <= month <= 12 && month != 2
    ensures MonthStart(if month == 12 then 1 else month + 1) == MonthStart(month) + DaysInMonth(year, month)
    ensures MonthStart(2) == 337 && MonthStart(3) == 0 && MonthStart(1) == 306
  {
    assert month == 1 || month == 3 || month == 4 || month == 5 || month == 6 || month == 7 || month == 8 || month == 9
        || month == 10 || month == 11 || month == 12;
  }

  /** The first of the next month has the next day number after the last of the month. */
  lemma NextMonth(year: int, month: int)
    requires 1 <= month <= 12
    ensures
      var next := if month == 12 then Date(year + 1, 1, 1) else Date(year, month + 1, 1);
      DaysFromCivil(next) == DaysFromCivil(Date(year, month, 1)) + DaysInMonth(year, month)
  {
    DaysFromCivilIs(Date(year, month, 1));
    DaysFromCivilIs(if month == 12 then Date(year + 1, 1, 1) else Date(year, month + 1, 1));
    if month == 2 {
      MarchYear(year);
      MonthStep(year, 1);
    } else {
      MonthStep(year, month);
    }
  }

  lemma WithinMonth(d: Date)
    requires IsDate(d)
    ensures DaysFromCivil(d) == DaysFromCivil(Date(d.year, d.month, 1)) + d.day - 1
  {
    DaysFromCivilIs(d);
    DaysFromCivilIs(Date(d.year, d.month, 1));
  }

  /** The next calendar day has the next day number, in every year. */
  lemma NextDayIsOneMore(d: Date)
    requires IsDate(d)
    ensures IsDate(NextDay(d)) && DaysFromCivil(NextDay(d)) == DaysFromCivil(d) + 1
  {
    WithinMonth(d);
    if d.day < DaysInMonth(d.year, d.month) {
      WithinMonth(NextDay(d));
    } else {
      NextMonth(d.year, d.month);
    }
  }

  predicate Earlier(a: Date, b: Date) {
    a.year < b.year || (a.year == b.year && (a.month < b.month || (a.month == b.month && a.day < b.day)))
  }

  /** Days in the months before `month`. */
  function DaysBeforeMonth(year: int, month: int): int
    requires 1 <= month <= 13
    decreases month
  {
    if month == 1 then 0 else DaysBeforeMonth(year, month - 1) + DaysInMonth(year, month - 1)
  }

  function YearLength(year: int): int {
    if Leap(year) then 366 else 365
  }

  /** Days of the years from `first` up to but not including `last`. */
  function DaysOfYears(first: int, last: int): int
    requires first <= last
    decreases last - first
  {
    if first == last then 0 else DaysOfYears(first, last - 1) + YearLength(last - 1)
  }

  lemma {:induction false} MonthsBefore(year: int, month: int)
    requires 1 <= month <= 12
    ensures DaysFromCivil(Date(year, month, 1)) == DaysFromCivil(Date(year, 1, 1)) + DaysBeforeMonth(year, month)
    decreases month
  {
    if month > 1 {
      MonthsBefore(year, month - 1);
      NextMonth(year, month - 1);
    }
  }

  lemma {:induction false} YearsBetween(first: int, last: int)
    requires first <= last
    ensures DaysFromCivil(Date(last, 1, 1)) == DaysFromCivil(Date(first, 1, 1)) + DaysOfYears(first, last)
    decreases last - first
  {
    if first < last {
      YearsBetween(first, last - 1);
      NextYear(last - 1);
    }
  }

  lemma NextYear(year: int)
    ensures DaysFromCivil(Date(year + 1, 1, 1)) == DaysFromCivil(Date(year, 1, 1)) + YearLength(year)
  {
    MonthsBefore(year, 12);
    NextMonth(year, 12);
    TwelveMonths(year);
  }

  lemma TwelveMonths(year: int)
    ensures DaysBeforeMonth(year, 12) + 31 == YearLength(year)
  {
    assert DaysBeforeMonth(year, 4) == DaysInMonth(year, 2) + 62;
    assert DaysBeforeMonth(year, 7) == DaysBeforeMonth(year, 4) + 91;
    assert DaysBeforeMonth(year, 10) == DaysBeforeMonth(year, 7) + 92;
  }

  /** Differences of day numbers count the days of the years and months between. */
  lemma DifferencesCountDays(a: Date, b: Date)
    requires IsDate(a) && IsDate(b) && a.year <= b.year
    ensures DaysFromCivil(b) - DaysFromCivil(a) ==
            DaysOfYears(a.year, b.year)
            + (DaysBeforeMonth(b.year, b.month) + b.day) - (DaysBeforeMonth(a.year, a.month) + a.day)
  {
    WithinMonth(a);
    WithinMonth(b);
    MonthsBefore(a.year, a.month);
    MonthsBefore(b.year, b.month);
    YearsBetween(a.year, b.year);
  }

  lemma {:induction false} MonthsAdvance(year: int, early: int, late: int)
    requires 1 <= early <= late <= 12
    ensures DaysBeforeMonth(year, early) + (late - early) * 28 <= DaysBeforeMonth(year, late)
    ensures early < late ==> DaysBeforeMonth(year, early) + DaysInMonth(year, early) <= DaysBeforeMonth(year, late)
    decreases late
  {
    if early < late {
      MonthsAdvance(year, early, late - 1);
    }
  }

  lemma {:induction false} YearsAdvance(first: int, last: int)
    requires first < last
    ensures YearLength(first) <= DaysOfYears(first, last)
    decreases last - first
  {
    if first < last - 1 {
      YearsAdvance(first, last - 1);
    }
  }

  /** A day number orders its date: strictly increasing, hence injective. */
  lemma EarlierIsSmaller(a: Date, b: Date)
    requires IsDate(a) && IsDate(b)
    ensures Earlier(a, b) <==> DaysFromCivil(a) < DaysFromCivil(b)
    ensures a == b <==> DaysFromCivil(a) == DaysFromCivil(b)
  {
    if Earlier(a, b) { EarlierImpliesSmaller(a, b); }
    if Earlier(b, a) { EarlierImpliesSmaller(b, a); }
  }

  lemma EarlierImpliesSmaller(a: Date, b: Date)
    requires IsDate(a) && IsDate(b) && Earlier(a, b)
    ensures DaysFromCivil(a) < DaysFromCivil(b)
  {
    DifferencesCountDays(a, b);
    if a.year == b.year {
      MonthsAdvance(a.year, a.month, b.month);
    } else {
      YearsAdvance(a.year, b.year);
      MonthsAdvance(a.year, a.month, 12);
      MonthsAdvance(b.year, 1, b.month);
      TwelveMonths(a.year);
    }
  }
}
