/**
 * Dates in UTC, computed as in section 21.4.1 of ECMA-262: a time is a number of milliseconds,
 * a day is a number of whole days, both counted from 1 January 1970. Months are numbered from 0, dates from 1.
 */
module Calendar {

  const MS_PER_DAY := 86400000

  function Day(t: int): int {
    t / MS_PER_DAY
  }

  function TimeWithinDay(t: int): int {
    t % MS_PER_DAY
  }

  function MakeDate(day: int, time: int): int {
    day * MS_PER_DAY + time
  }

  // ---------- Years ----------

  predicate LeapYear(y: int) {
    y % 4 == 0 && (y % 100 != 0 || y % 400 == 0)
  }

  function DaysInYear(y: int): int {
    if LeapYear(y) then 366 else 365
  }

  /** The leap days between the end of 1969 and the start of year `y`, by the three parts of the leap year rule. */
  function FourthYears(y: int): int {
    (y - 1969) / 4
  }

  function Centuries(y: int): int {
    (y - 1901) / 100
  }

  function FourthCenturies(y: int): int {
    (y - 1601) / 400
  }

  /** The first day of year `y`. */
  function DayFromYear(y: int): int {
    365 * (y - 1970) + FourthYears(y) - Centuries(y) + FourthCenturies(y)
  }

  lemma EveryFourthYear(y: int)
    ensures FourthYears(y + 1) == FourthYears(y) + if y % 4 == 0 then 1 else 0
  {}

  lemma EveryCentury(y: int)
    ensures Centuries(y + 1) == Centuries(y) + if y % 100 == 0 then 1 else 0
  {}

  lemma EveryFourthCentury(y: int)
    ensures FourthCenturies(y + 1) == FourthCenturies(y) + if y % 400 == 0 then 1 else 0
  {}

  lemma LeapYearByParts(y: int)
    ensures (if LeapYear(y) then 1 else 0) ==
      (if y % 4 == 0 then 1 else 0) - (if y % 100 == 0 then 1 else 0) + (if y % 400 == 0 then 1 else 0)
  {
    if y % 400 == 0 { FourthCenturyIsCentury(y); }
    if y % 100 == 0 { CenturyIsFourthYear(y); }
  }

  lemma FourthCenturyIsCentury(y: int)
    requires y % 400 == 0
    ensures y % 100 == 0
  {
    assert y == 100 * (4 * (y / 400));
  }

  lemma CenturyIsFourthYear(y: int)
    requires y % 100 == 0
    ensures y % 4 == 0
  {
    assert y == 4 * (25 * (y / 100));
  }

  lemma YearLength(y: int)
    ensures DayFromYear(y + 1) == DayFromYear(y) + DaysInYear(y)
  {
    hide FourthYears, Centuries, FourthCenturies, LeapYear;
    EveryFourthYear(y);
    EveryCentury(y);
    EveryFourthCentury(y);
    LeapYearByParts(y);
  }

  lemma {:induction false} YearsAscend(a: int, b: int)
    requires a <= b
    ensures DayFromYear(a) + 365 * (b - a) <= DayFromYear(b)
    decreases b - a
  {
    if a < b {
      YearsAscend(a, b - 1);
      YearLength(b - 1);
    }
  }

  /** The last year from `y` on that has begun by `day`. */
  function YearFrom(day: int, y: int): (r: int)
    requires DayFromYear(y) <= day
    ensures DayFromYear(r) <= day < DayFromYear(r + 1)
    decreases day - DayFromYear(y)
  {
    YearLength(y);
    if DayFromYear(y + 1) <= day then YearFrom(day, y + 1) else y
  }

  function Year(day: int): (y: int)
    ensures DayFromYear(y) <= day < DayFromYear(y + 1)
  {
    if day >= 0 then YearFrom(day, 1970)
    else YearsAscend(1970 + day, 1970); YearFrom(day, 1970 + day)
  }

  lemma YearIsUnique(day: int, y: int)
    requires DayFromYear(y) <= day < DayFromYear(y + 1)
    ensures Year(day) == y
  {
    hide DayFromYear;
    var z := Year(day);
    if z < y { YearsAscend(z + 1, y); }
    if y < z { YearsAscend(y + 1, z); }
  }

  // ---------- Months ----------

  function DaysInMonth(y: int, m: int): (r: int)
    requires 0 <= m < 12
    ensures 28 <= r <= 31
  {
    if m == 1 then (if LeapYear(y) then 29 else 28)
    else if m == 3 || m == 5 || m == 8 || m == 10 then 30
    else 31
  }

  function DaysBeforeMonth(y: int, m: int): (r: int)
    requires 0 <= m <= 12
    ensures 28 * m <= r <= 31 * m
  {
    if m == 0 then 0 else DaysBeforeMonth(y, m - 1) + DaysInMonth(y, m - 1)
  }

  lemma TwelveMonths(y: int)
    ensures DaysBeforeMonth(y, 12) == DaysInYear(y)
  {
    assert DaysBeforeMonth(y, 2) == if LeapYear(y) then 60 else 59;
    assert DaysBeforeMonth(y, 4) == DaysBeforeMonth(y, 2) + 61;
    assert DaysBeforeMonth(y, 6) == DaysBeforeMonth(y, 4) + 61;
    assert DaysBeforeMonth(y, 8) == DaysBeforeMonth(y, 6) + 62;
    assert DaysBeforeMonth(y, 10) == DaysBeforeMonth(y, 8) + 61;
    assert DaysBeforeMonth(y, 12) == DaysBeforeMonth(y, 10) + 61;
  }

  lemma {:induction false} MonthsAscend(y: int, a: int, b: int)
    requires 0 <= a <= b <= 12
    ensures DaysBeforeMonth(y, a) <= DaysBeforeMonth(y, b)
    decreases b
  {
    if a < b { MonthsAscend(y, a, b - 1); }
  }

  /** The last month from `m` on that has begun by the `d`th day of year `y`. */
  function MonthFrom(y: int, d: int, m: int): (r: int)
    requires 0 <= m < 12 && DaysBeforeMonth(y, m) <= d < DaysBeforeMonth(y, 12)
    ensures 0 <= r < 12 && DaysBeforeMonth(y, r) <= d < DaysBeforeMonth(y, r + 1)
    decreases 12 - m
  {
    if m < 11 && DaysBeforeMonth(y, m + 1) <= d then MonthFrom(y, d, m + 1) else m
  }

  function DayWithinYear(day: int): (d: int)
    ensures 0 <= d < DaysInYear(Year(day))
  {
    YearLength(Year(day));
    day - DayFromYear(Year(day))
  }

  function Month(day: int): (m: int)
    ensures 0 <= m < 12
    ensures DaysBeforeMonth(Year(day), m) <= DayWithinYear(day) < DaysBeforeMonth(Year(day), m + 1)
  {
    TwelveMonths(Year(day));
    MonthFrom(Year(day), DayWithinYear(day), 0)
  }

  function Date(day: int): (d: int)
    ensures 1 <= d <= DaysInMonth(Year(day), Month(day))
  {
    DayWithinYear(day) - DaysBeforeMonth(Year(day), Month(day)) + 1
  }

  // ---------- Making days ----------

  function MakeDay(year: int, month: int, date: int): int {
    DayFromYear(year + month / 12) + DaysBeforeMonth(year + month / 12, month % 12) + date - 1
  }

  /** Splitting a day into its fields and making a day of them gives the day back. */
  lemma MakeDayOfFields(day: int)
    ensures MakeDay(Year(day), Month(day), Date(day)) == day
  {
    hide Year, Month, DayFromYear, DaysBeforeMonth, DaysInMonth;
    assert Month(day) / 12 == 0 && Month(day) % 12 == Month(day);
  }

  /** Making a day of fields that exist in the calendar and splitting it gives the fields back. */
  lemma FieldsOfMakeDay(y: int, m: int, date: int)
    requires 1 <= date <= DaysInMonth(y + m / 12, m % 12)
    ensures Year(MakeDay(y, m, date)) == y + m / 12
    ensures Month(MakeDay(y, m, date)) == m % 12
    ensures Date(MakeDay(y, m, date)) == date
  {
    hide DayFromYear, DaysBeforeMonth, DaysInMonth, Year, Month;
    var yy, mm, day := y + m / 12, m % 12, MakeDay(y, m, date);
    NextMonthBegins(yy, mm);
    MonthsAscend(yy, mm + 1, 12);
    TwelveMonths(yy);
    YearLength(yy);
    YearIsUnique(day, yy);
    MonthIsUnique(day, mm);
  }

  lemma NextMonthBegins(y: int, m: int)
    requires 0 <= m < 12
    ensures DaysBeforeMonth(y, m + 1) == DaysBeforeMonth(y, m) + DaysInMonth(y, m)
  {}

  lemma MonthIsUnique(day: int, m: int)
    requires 0 <= m < 12
    requires DaysBeforeMonth(Year(day), m) <= DayWithinYear(day) < DaysBeforeMonth(Year(day), m + 1)
    ensures Month(day) == m
  {
    hide Year, Month, DayWithinYear, DaysBeforeMonth, DaysInMonth;
    var z := Month(day);
    if z < m { MonthsAscend(Year(day), z + 1, m); }
    if m < z { MonthsAscend(Year(day), m + 1, z); }
  }

  /** The first of the next month is one month's length later, in December too. */
  lemma NextMonthStarts(y: int, m: int, date: int)
    ensures MakeDay(y, m + 1, date) == MakeDay(y, m, date) + DaysInMonth(y + m / 12, m % 12)
  {
    var yy, mm := y + m / 12, m % 12;
    if mm == 11 {
      assert (m + 1) % 12 == 0 && (m + 1) / 12 == m / 12 + 1;
      YearLength(yy);
      TwelveMonths(yy);
    } else {
      assert (m + 1) % 12 == mm + 1 && (m + 1) / 12 == m / 12;
    }
  }

  // ---------- The Date setters ----------

  /** `date.setDate(d)` */
  function SetDate(t: int, d: int): int {
    MakeDate(MakeDay(Year(Day(t)), Month(Day(t)), d), TimeWithinDay(t))
  }

  /** `date.setMonth(m)` keeps the date, which may then lie past the end of month `m`. */
  function SetMonth(t: int, m: int): int {
    MakeDate(MakeDay(Year(Day(t)), m, Date(Day(t))), TimeWithinDay(t))
  }

  /** A time is its day and the time within that day. */
  lemma DayAndTime(t: int, n: int)
    ensures MakeDate(Day(t) + n, TimeWithinDay(t)) == t + n * MS_PER_DAY
  {
    assert Day(t) * MS_PER_DAY + TimeWithinDay(t) == t;
  }

  lemma DateMoves(t: int, n: int)
    ensures SetDate(t, Date(Day(t)) + n) == t + n * MS_PER_DAY
  {
    hide Year, Month, Date, DayFromYear, DaysBeforeMonth, Day, TimeWithinDay, MakeDate;
    MakeDayOfFields(Day(t));
    assert MakeDay(Year(Day(t)), Month(Day(t)), Date(Day(t)) + n) == Day(t) + n;
    DayAndTime(t, n);
  }
}
