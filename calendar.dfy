/**
 * Gregorian dates as Python's datetime.date and pandas step through them one day at a time, and
 * the 365-day calendar without 29 February that every annual cube of the pipeline uses.
 */
module Calendar {
  import opened Wrappers
  import opened Text

  datatype Date = Date(year: int, month: int, day: int)

  predicate IsLeapYear(y: int) { y % 4 == 0 && (y % 100 != 0 || y % 400 == 0) }

  function DaysInMonth(y: int, m: int): (n: int)
    requires 1 <= m <= 12
    ensures 28 <= n <= 31
  {
    if m == 2 then (if IsLeapYear(y) then 29 else 28)
    else if m == 4 || m == 6 || m == 9 || m == 11 then 30
    else 31
  }

  predicate ValidDate(d: Date) { 1 <= d.month <= 12 && 1 <= d.day <= DaysInMonth(d.year, d.month) }

  /** The date one day later: date + timedelta(days=1), and the step of pandas' daily date_range. */
  function NextDate(d: Date): (n: Date)
    requires ValidDate(d)
    ensures ValidDate(n)
  {
    if d.day < DaysInMonth(d.year, d.month) then Date(d.year, d.month, d.day + 1)
    else if d.month < 12 then Date(d.year, d.month + 1, 1)
    else Date(d.year + 1, 1, 1)
  }

  /** How far d is from the end of year, in a measure that every step to the next date lowers. */
  function DatesLeft(d: Date, year: int): int
  {
    if d.year == year then (13 - d.month) * 32 - d.day else 0
  }

  /** A walk that steps from date to date while the year stays the same comes to an end. */
  lemma NextDateDatesLeft(d: Date)
    requires ValidDate(d)
    ensures 0 <= DatesLeft(NextDate(d), d.year) < DatesLeft(d, d.year)
  {
  }

  predicate IsLeapDay(d: Date) { d.month == 2 && d.day == 29 }

  predicate IsLastDayOfYear(d: Date) { d.month == 12 && d.day == 31 }

  /** Days of the year before the first of each month, in a year without 29 February. */
  const CumulativeDays: seq<int> := [0, 31, 59, 90, 120, 151, 181, 212, 243, 273, 304, 334]

  const DaysPerNoLeapYear: int := 365

  /** Month lengths of a year without 29 February. */
  function NoLeapMonthLength(m: int): (n: int)
    requires 1 <= m <= 12
    ensures 28 <= n <= 31
  {
    if m == 2 then 28 else if m == 4 || m == 6 || m == 9 || m == 11 then 30 else 31
  }

  /** The table holds the running sums of the month lengths, ending at 365. */
  lemma CumulativeDaysAreSums(m: int)
    requires 1 <= m <= 12
    ensures CumulativeDays[m - 1] + NoLeapMonthLength(m)
            == (if m == 12 then DaysPerNoLeapYear else CumulativeDays[m])
  {
  }

  /**
   * The day counter of the merge loops for date d: how many dates of d's year other than
   * 29 February come before d.
   */
  function DaysBefore(d: Date): int
    requires 1 <= d.month <= 12
  {
    CumulativeDays[d.month - 1] + d.day - 1
  }

  /**
   * Stepping to the next date advances the counter by one, except when stepping off 29 February,
   * which leaves it where it was: no gap is left for the skipped day.
   */
  lemma DaysBeforeStep(d: Date)
    requires ValidDate(d) && !IsLastDayOfYear(d)
    ensures NextDate(d).year == d.year
    ensures DaysBefore(NextDate(d)) == DaysBefore(d) + (if IsLeapDay(d) then 0 else 1)
  {
    if d.day == DaysInMonth(d.year, d.month) {
      CumulativeDaysAreSums(d.month);
    }
  }

  lemma DaysBeforeBounds(d: Date)
    requires ValidDate(d)
    ensures 0 <= DaysBefore(d) < DaysPerNoLeapYear
    ensures IsLastDayOfYear(d) ==> DaysBefore(d) == DaysPerNoLeapYear - 1
  {
  }

  /**
   * Reference definition of the jd-th day of a year without 29 February (jd counted from 1):
   * walk through the months subtracting their lengths. Days past the end stay in December.
   */
  function WalkMonths(jd: int, m: int): (r: (int, int))
    requires 1 <= m <= 12
    decreases 12 - m
  {
    if m == 12 || jd <= NoLeapMonthLength(m) then (m, jd)
    else WalkMonths(jd - NoLeapMonthLength(m), m + 1)
  }

  function NoLeapMonthDay(jd: int): (int, int)
  {
    WalkMonths(jd, 1)
  }

  lemma {:induction false} WalkMonthsLands(jd: int, m: int)
    requires 1 <= m <= 12
    requires 1 <= jd <= DaysPerNoLeapYear - CumulativeDays[m - 1]
    ensures var (m', d') := WalkMonths(jd, m);
            m <= m' <= 12 && 1 <= d' <= NoLeapMonthLength(m')
            && CumulativeDays[m' - 1] + d' == CumulativeDays[m - 1] + jd
    decreases 12 - m
  {
    if m == 12 || jd <= NoLeapMonthLength(m) {
    } else {
      CumulativeDaysAreSums(m);
      WalkMonthsLands(jd - NoLeapMonthLength(m), m + 1);
    }
  }

  /** A position in the year falls in exactly one month. */
  lemma MonthOfPositionUnique(a: int, da: int, b: int, db: int)
    requires 1 <= a <= 12 && 1 <= da <= NoLeapMonthLength(a)
    requires 1 <= b <= 12 && 1 <= db <= NoLeapMonthLength(b)
    requires CumulativeDays[a - 1] + da == CumulativeDays[b - 1] + db
    ensures a == b && da == db
  {
  }

  /** The jd-th day of the year is a real day of a real month, jd days into the year. */
  lemma NoLeapMonthDayValid(jd: int)
    requires 1 <= jd <= DaysPerNoLeapYear
    ensures var (m, d) := NoLeapMonthDay(jd);
            1 <= m <= 12 && 1 <= d <= NoLeapMonthLength(m) && CumulativeDays[m - 1] + d == jd
  {
    WalkMonthsLands(jd, 1);
  }

  /** The date on which the merge loops write day slot k (0-based), for k < 365. */
  function NoLeapDate(year: int, k: int): Date
  {
    var (m, d) := NoLeapMonthDay(k + 1);
    Date(year, m, d)
  }

  /** The date of day slot k is a valid date other than 29 February whose counter is k. */
  lemma NoLeapDateOfSlot(year: int, k: int)
    requires 0 <= k < DaysPerNoLeapYear
    ensures ValidDate(NoLeapDate(year, k)) && !IsLeapDay(NoLeapDate(year, k))
    ensures DaysBefore(NoLeapDate(year, k)) == k
  {
    NoLeapMonthDayValid(k + 1);
  }

  /** Every date of the year other than 29 February is the date of the slot its counter names. */
  lemma SlotOfNoLeapDate(date: Date)
    requires ValidDate(date) && !IsLeapDay(date)
    ensures 0 <= DaysBefore(date) < DaysPerNoLeapYear
    ensures NoLeapDate(date.year, DaysBefore(date)) == date
  {
    var j := DaysBefore(date) + 1;
    NoLeapMonthDayValid(j);
    var (m, d) := NoLeapMonthDay(j);
    MonthOfPositionUnique(m, d, date.month, date.day);
  }

  /** Day slot k and the date written there determine each other. */
  lemma NoLeapDateRoundTrip(year: int, k: int, date: Date)
    requires 0 <= k < DaysPerNoLeapYear
    ensures ValidDate(NoLeapDate(year, k)) && !IsLeapDay(NoLeapDate(year, k))
    ensures DaysBefore(NoLeapDate(year, k)) == k
    ensures ValidDate(date) && !IsLeapDay(date) && date.year == year ==>
              NoLeapDate(year, DaysBefore(date)) == date
  {
    NoLeapDateOfSlot(year, k);
    if ValidDate(date) && !IsLeapDay(date) && date.year == year {
      SlotOfNoLeapDate(date);
    }
  }

  /**
   * One step of the date loops that fill day slots: a date other than 29 February is the date of its day
   * slot, and after stepping to the next date the counter is again the slot of the date, or 365
   * once the year is over.
   */
  lemma CalendarStep(date: Date, day: int)
    requires ValidDate(date) && day == DaysBefore(date)
    ensures 0 <= day < DaysPerNoLeapYear
    ensures !IsLeapDay(date) ==> NoLeapDate(date.year, day) == date
    ensures var next, day' := NextDate(date), if IsLeapDay(date) then day else day + 1;
            && (next.year == date.year ==> day' == DaysBefore(next))
            && (next.year != date.year ==> day' == DaysPerNoLeapYear)
  {
    DaysBeforeBounds(date);
    NoLeapDateRoundTrip(date.year, day, date);
    if !IsLastDayOfYear(date) {
      DaysBeforeStep(date);
    }
  }

  /**
   * datetime.strptime(s, '%Y%m%d').date() on four year digits and four more digits; None where
   * it raises ValueError. %m and %d each take two digits here, so the date is valid exactly when
   * the month is 01 to 12 and the day exists in that month.
   */
  function ParseYmd(s: string): (r: Option<Date>)
    requires |s| == 8 && AllDigits(s)
    ensures r.Some? ==> ValidDate(r.value) && 1 <= r.value.year
  {
    AllDigitsSlice(s, 0, 4);
    AllDigitsSlice(s, 4, 6);
    AllDigitsSlice(s, 6, 8);
    var y := DigitsValue(s[..4]);
    var m := DigitsValue(s[4..6]);
    var d := DigitsValue(s[6..]);
    if 1 <= y && 1 <= m <= 12 && 1 <= d <= DaysInMonth(y, m) then Some(Date(y, m, d)) else None
  }

  /** date.strftime('%Y%m%d') for a four-digit year. */
  function FormatYmd(d: Date): (s: string)
    requires ValidDate(d) && 1000 <= d.year <= 9999
    ensures |s| == 8 && AllDigits(s)
  {
    FourDigitYear(d.year);
    IntToString(d.year) + TwoDigits(d.month) + TwoDigits(d.day)
  }

  /** strptime with '%Y%m%d' reads back what strftime wrote. */
  lemma ParseFormatYmd(d: Date)
    requires ValidDate(d) && 1000 <= d.year <= 9999
    ensures ParseYmd(FormatYmd(d)) == Some(d)
  {
    var s := FormatYmd(d);
    FourDigitYear(d.year);
    assert s[..4] == IntToString(d.year);
    assert s[4..6] == TwoDigits(d.month);
    assert s[6..] == TwoDigits(d.day);
    NatToStringRoundTrip(d.year);
  }
}
