/** Capture dates in submission commands (app/crm/commands.py:201-225, 243-255); Gregorian years 1 to 9999. */
module CalendarDates {
  import opened Common

  datatype Date = Date(year: int, month: nat, day: nat)

  const FIRST_YEAR := 1
  const LAST_YEAR := 9999

  predicate IsLeap(year: int) {
    year % 4 == 0 && (year % 100 != 0 || year % 400 == 0)
  }

  function DaysIn(year: int, month: nat): nat {
    if month == 2 then (if IsLeap(year) then 29 else 28)
    else if month in {4, 6, 9, 11} then 30
    else 31
  }

  /** `_valid_calendar_date`: the constructor `date(year, month, day)` accepts the triple. */
  predicate IsDate(d: Date) {
    FIRST_YEAR <= d.year <= LAST_YEAR && 1 <= d.month <= 12 && 1 <= d.day <= DaysIn(d.year, d.month)
  }

  predicate DayBefore(month: nat, day: nat, month': nat, day': nat) {
    month < month' || (month == month' && day < day')
  }

  predicate NotAfter(a: Date, b: Date) {
    a.year < b.year || (a.year == b.year && !DayBefore(b.month, b.day, a.month, a.day))
  }

  /** The most recent date with the given month and day, up to `today`. */
  ghost predicate IsLatest(found: Date, month: nat, day: nat, today: Date) {
    && IsDate(found) && found.month == month && found.day == day && NotAfter(found, today)
    && forall year :: IsDate(Date(year, month, day)) && NotAfter(Date(year, month, day), today) ==> year <= found.year
  }

  /** A day that some year has. */
  predicate IsCalendarDay(month: nat, day: nat) {
    1 <= month <= 12 && 1 <= day <= DaysIn(4, month)
  }

  lemma CalendarDayMeansSomeYear(month: nat, day: nat)
    ensures IsCalendarDay(month, day) <==> exists year :: IsDate(Date(year, month, day))
  {
    if IsCalendarDay(month, day) {
      assert IsDate(Date(4, month, day));
    }
  }

  /** Any eight consecutive years from year 1 on hold a year with a given calendar day, across every century. */
  lemma EightYearsAreEnough(last: int, month: nat, day: nat)
    requires FIRST_YEAR + 7 <= last <= LAST_YEAR && IsCalendarDay(month, day)
    ensures exists year :: last - 8 < year <= last && IsDate(Date(year, month, day))
  {
    if month == 2 && day == 29 {
      // One of the last two multiples of four is a leap year: the other may be a century.
      var near := last - last % 4;
      assert near % 4 == 0 && (near - 4) % 4 == 0;
      if near % 100 == 0 {
        assert (near - 4) % 100 == 96;
        assert IsDate(Date(near - 4, month, day));
      } else {
        assert IsDate(Date(near, month, day));
      }
    } else {
      assert IsDate(Date(last, month, day));
    }
  }

  /** Seven years are not enough: no year from 1897 to 1903 has a 29 February. */
  lemma SevenYearsAreNotEnough()
    ensures forall year :: 1897 <= year <= 1903 ==> !IsDate(Date(year, 2, 29))
    ensures IsDate(Date(1896, 2, 29)) && IsDate(Date(1904, 2, 29))
  {
    forall year | 1897 <= year <= 1903
      ensures !IsLeap(year)
    {
      assert year in {1897, 1898, 1899, 1900, 1901, 1902, 1903};
    }
  }

  /** The answer to a day without a year: the latest such date, or none when there is none up to today. */
  ghost predicate IsResolved(found: Option<Date>, month: nat, day: nat, today: Date) {
    && (found.Some? ==> IsLatest(found.value, month, day, today))
    && (found.None? ==> forall year :: IsDate(Date(year, month, day)) ==> !NotAfter(Date(year, month, day), today))
  }

  /**
    The backward search for a day without a year: the generator over nine years, newest first. It finds the latest
    date not after today, and fails only when there is none at all.
  */
  method ResolveShortDate(month: nat, day: nat, today: Date) returns (found: Option<Date>)
    requires IsDate(today)
    ensures IsResolved(found, month, day, today)
  {
    var firstYear;
    if DayBefore(today.month, today.day, month, day) {
      firstYear := today.year - 1;
    } else {
      firstYear := today.year;
    }
    var year := firstYear;
    while year > firstYear - 9
      invariant firstYear - 9 <= year <= firstYear
      invariant forall later :: year < later <= firstYear ==> !IsDate(Date(later, month, day))
    {
      if IsDate(Date(year, month, day)) {
        return Some(Date(year, month, day));
      }
      year := year - 1;
    }
    NothingOlder(firstYear, month, day);
    found := None;
  }

  /** Nine years without the day leave no earlier year with it. */
  lemma NothingOlder(firstYear: int, month: nat, day: nat)
    requires firstYear <= LAST_YEAR
    requires forall later :: firstYear - 9 < later <= firstYear ==> !IsDate(Date(later, month, day))
    ensures forall year :: year <= firstYear ==> !IsDate(Date(year, month, day))
  {
    forall year | year <= firstYear
      ensures !IsDate(Date(year, month, day))
    {
      if IsDate(Date(year, month, day)) && firstYear >= FIRST_YEAR + 7 {
        CalendarDayOf(Date(year, month, day));
        EightYearsAreEnough(firstYear, month, day);
      }
    }
  }

  lemma CalendarDayOf(d: Date)
    requires IsDate(d)
    ensures IsCalendarDay(d.month, d.day)
  {
  }

  /**
    The search fails exactly when no year has the day, or today lies before the day's first occurrence in the
    calendar. From 29 February of the year 4 on, only the first can happen.
  */
  lemma FailsExactlyWhenDayNeverCame(found: Option<Date>, month: nat, day: nat, today: Date)
    requires IsDate(today) && IsResolved(found, month, day, today)
    ensures found.None? <==>
              (forall year :: !IsDate(Date(year, month, day))) ||
              !NotAfter(Date(if month == 2 && day == 29 then 4 else 1, month, day), today)
    ensures NotAfter(Date(4, 2, 29), today) ==>
              (found.None? <==> forall year :: !IsDate(Date(year, month, day)))
  {
    CalendarDayMeansSomeYear(month, day);
    var first := Date(if month == 2 && day == 29 then 4 else 1, month, day);
    if IsCalendarDay(month, day) {
      assert IsDate(first);
      if found.Some? {
        assert first.year <= found.value.year;
      }
    }
  }

  /** There is only one answer. */
  lemma ResolutionIsUnique(a: Option<Date>, b: Option<Date>, month: nat, day: nat, today: Date)
    requires IsResolved(a, month, day, today) && IsResolved(b, month, day, today)
    ensures a == b
  {
  }

  // ---------- the dated request ----------

  datatype DatedRequest = DatedRequest(owner: string, captureDate: Date)

  /** The dated branch of `parse_cross_owner_submission_request`, given the groups of the match; `owner` is stripped. */
  method ResolveDatedRequest(owner: string, year: Option<nat>, month: nat, day: nat, today: Date)
    returns (request: Option<DatedRequest>)
    requires IsDate(today)
    ensures request.Some? ==> owner != "" && request.value.owner == owner
    ensures owner == "" ==> request.None?
    ensures owner != "" && year.Some? ==>
              request == if IsDate(Date(year.value, month, day))
                         then Some(DatedRequest(owner, Date(year.value, month, day))) else None
    ensures owner != "" && year.None? ==>
              IsResolved(if request.Some? then Some(request.value.captureDate) else None, month, day, today)
  {
    if owner == "" {
      return None;
    }
    var captureDate: Option<Date>;
    if year.Some? {
      captureDate := if IsDate(Date(year.value, month, day)) then Some(Date(year.value, month, day)) else None;
    } else {
      captureDate := ResolveShortDate(month, day, today);
    }
    request := if captureDate.Some? then Some(DatedRequest(owner, captureDate.value)) else None;
  }

  // ---------- the calendar itself ----------

  /** How many of the years 1 to n are leap years. */
  function LeapYears(n: nat): nat {
    if n == 0 then 0 else LeapYears(n - 1) + if IsLeap(n) then 1 else 0
  }

  /** The closed form of the Gregorian rule; 97 leap years in four centuries. */
  lemma {:induction false} LeapYearsClosedForm(n: nat)
    ensures LeapYears(n) == n / 4 - n / 100 + n / 400
  {
    if n > 0 {
      LeapYearsClosedForm(n - 1);
      MultiplesStep(n, 4);
      MultiplesStep(n, 100);
      MultiplesStep(n, 400);
      MultiplesNest(n);
    }
  }

  lemma MultiplesStep(n: nat, d: nat)
    requires n > 0 && d in {4, 100, 400}
    ensures n / d == (n - 1) / d + if n % d == 0 then 1 else 0
  {
    if d == 4 {
      assert n / 4 == (n - 1) / 4 + if n % 4 == 0 then 1 else 0;
    } else if d == 100 {
      assert n / 100 == (n - 1) / 100 + if n % 100 == 0 then 1 else 0;
    } else {
      assert n / 400 == (n - 1) / 400 + if n % 400 == 0 then 1 else 0;
    }
  }

  lemma MultiplesNest(n: nat)
    ensures (n % 400 == 0 ==> n % 100 == 0) && (n % 100 == 0 ==> n % 4 == 0)
  {
    if n % 400 == 0 { FactorDivides(n, 4 * (n / 400), 100); }
    if n % 100 == 0 { FactorDivides(n, 25 * (n / 100), 4); }
  }

  lemma FactorDivides(n: nat, q: nat, d: nat)
    requires d in {4, 100} && n == q * d
    ensures n % d == 0
  {
    if d == 4 {
      assert n == 4 * q;
    } else {
      assert n == 100 * q;
    }
  }

  function DaysBefore(year: int, month: nat): nat
    requires 1 <= month <= 13
  {
    if month == 1 then 0 else DaysBefore(year, month - 1) + DaysIn(year, month - 1)
  }

  /** The twelve months make 365 days, or 366 in a leap year. */
  lemma YearLength(year: int)
    ensures DaysBefore(year, 13) == if IsLeap(year) then 366 else 365
  {
    assert DaysBefore(year, 2) == 31;
    assert DaysBefore(year, 3) == 31 + DaysIn(year, 2);
    assert DaysBefore(year, 5) == DaysBefore(year, 3) + 61;
    assert DaysBefore(year, 7) == DaysBefore(year, 5) + 61;
    assert DaysBefore(year, 9) == DaysBefore(year, 7) + 62;
    assert DaysBefore(year, 11) == DaysBefore(year, 9) + 61;
  }

  /** From March on the month lengths follow 31, 30, 31, 30, 31, repeating: five months make 153 days. */
  lemma MonthsFromMarch(year: int, month: nat)
    requires 3 <= month <= 13
    ensures DaysBefore(year, month) == DaysBefore(year, 3) + (153 * (month - 3) + 2) / 5
    ensures DaysBefore(year, 3) == 31 + if IsLeap(year) then 29 else 28
  {
    assert DaysBefore(year, 2) == 31;
    if month > 3 {
      MonthsFromMarch(year, month - 1);
    }
  }

  /** The calendar runs from the first day of the year 1 to the last day of the year 9999. */
  lemma CalendarEnds(d: Date)
    requires IsDate(d)
    ensures NotAfter(Date(1, 1, 1), d) && NotAfter(d, Date(9999, 12, 31))
    ensures IsDate(Date(1, 1, 1)) && IsDate(Date(9999, 12, 31))
  {
  }
}
