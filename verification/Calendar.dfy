/**
 Calendar arithmetic on `YYYY-MM-DD` dates, in the proleptic Gregorian calendar.

 `AddDays` steps from day to day; `DayFromYear`, `AddDaysNumber` and `DayNumberOrder` together
 say that it is ECMAScript's arithmetic on day numbers.
 */
module Calendar {
  import opened Text

  datatype Ymd = Ymd(year: int, month: int, day: int)

  predicate Leap(year: int) {
    year % 4 == 0 && (year % 100 != 0 || year % 400 == 0)
  }

  function DaysInMonth(year: int, month: int): (n: int)
    ensures 28 <= n <= 31
  {
    if month == 2 then if Leap(year) then 29 else 28
    else if month == 4 || month == 6 || month == 9 || month == 11 then 30
    else 31
  }

  predicate Valid(d: Ymd) {
    1 <= d.month <= 12 && 1 <= d.day <= DaysInMonth(d.year, d.month)
  }

  type Date = d: Ymd | Valid(d) witness Ymd(1970, 1, 1)

  /** Date order. `FormatOrder` is why the program may compare the texts instead. */
  predicate Earlier(a: Ymd, b: Ymd) {
    || a.year < b.year
    || (a.year == b.year && a.month < b.month)
    || (a.year == b.year && a.month == b.month && a.day < b.day)
  }

  predicate NotAfter(a: Ymd, b: Ymd) {
    !Earlier(b, a)
  }

  // Day numbers

  /** Days from 1970-01-01 to the first day of a year. */
  function DaysBeforeYear(year: int): int
    decreases if year < 1970 then 1970 - year else year - 1970
  {
    if year == 1970 then 0
    else if year > 1970 then DaysBeforeYear(year - 1) + YearDays(year - 1)
    else DaysBeforeYear(year + 1) - YearDays(year)
  }

  function YearDays(year: int): int {
    if Leap(year) then 366 else 365
  }

  function DaysBeforeMonth(year: int, month: int): int
    requires 1 <= month <= 13
  {
    if month == 1 then 0 else DaysBeforeMonth(year, month - 1) + DaysInMonth(year, month - 1)
  }

  function DayNumber(d: Date): int {
    DaysBeforeYear(d.year) + DaysBeforeMonth(d.year, d.month) + d.day - 1
  }

  lemma YearLength(year: int)
    ensures DaysBeforeYear(year + 1) == DaysBeforeYear(year) + YearDays(year)
  {
  }

  /** Counting year by year agrees with ECMAScript's `DayFromYear`. */
  lemma {:induction false} DayFromYear(year: int)
    ensures DaysBeforeYear(year) == 365 * (year - 1970) + (year - 1969) / 4 - (year - 1901) / 100 + (year - 1601) / 400
    decreases if year < 1970 then 1970 - year else year - 1970
  {
    if year > 1970 {
      DayFromYear(year - 1);
      LeapDaysStep(year - 1);
    } else if year < 1970 {
      DayFromYear(year + 1);
      LeapDaysStep(year);
    }
  }

  lemma LeapDaysStep(year: int)
    ensures (year - 1969 + 1) / 4 - (year - 1901 + 1) / 100 + (year - 1601 + 1) / 400
            == (year - 1969) / 4 - (year - 1901) / 100 + (year - 1601) / 400 + YearDays(year) - 365
  {
    FourthYear(year);
    HundredthYear(year);
    FourHundredthYear(year);
  }

  lemma FourthYear(year: int)
    ensures (year - 1969 + 1) / 4 - (year - 1969) / 4 == if year % 4 == 0 then 1 else 0
  {
  }

  lemma HundredthYear(year: int)
    ensures (year - 1901 + 1) / 100 - (year - 1901) / 100 == if year % 100 == 0 then 1 else 0
    ensures year % 100 == 0 ==> year % 4 == 0
  {
    var q, r := year / 100, year % 100;
    InCentury(year - 1900, q - 19, r);
    if r == 0 {
      InCentury(year - 1901, q - 20, 99);
      InFour(year, 25 * q, 0);
    } else {
      InCentury(year - 1901, q - 19, r - 1);
    }
  }

  lemma FourHundredthYear(year: int)
    ensures (year - 1601 + 1) / 400 - (year - 1601) / 400 == if year % 400 == 0 then 1 else 0
    ensures year % 400 == 0 ==> year % 100 == 0
  {
    var q, r := year / 400, year % 400;
    InCycle(year - 1600, q - 4, r);
    if r == 0 {
      InCycle(year - 1601, q - 5, 399);
      InCentury(year, 4 * q, 0);
    } else {
      InCycle(year - 1601, q - 4, r - 1);
    }
  }

  lemma InFour(years: int, four: int, year: int)
    requires years == 4 * four + year && 0 <= year < 4
    ensures years / 4 == four && years % 4 == year
  {
  }

  lemma InCentury(years: int, century: int, year: int)
    requires years == 100 * century + year && 0 <= year < 100
    ensures years / 100 == century && years % 100 == year
  {
  }

  lemma InCycle(years: int, cycle: int, year: int)
    requires years == 400 * cycle + year && 0 <= year < 400
    ensures years / 400 == cycle && years % 400 == year
  {
  }

  /** The day within the year on which each month begins, as ECMAScript's `MonthFromTime` has them. */
  const MONTH_STARTS: seq<int> := [0, 31, 59, 90, 120, 151, 181, 212, 243, 273, 304, 334, 365]

  /** Adding up month lengths gives the table, one day later from March on in a leap year. */
  lemma MonthsStart(year: int, month: int)
    requires 1 <= month <= 13
    ensures DaysBeforeMonth(year, month) == MONTH_STARTS[month - 1] + if month > 2 && Leap(year) then 1 else 0
  {
    if month > 1 { MonthsStart(year, month - 1); }
  }

  lemma MonthsFillYear(year: int)
    ensures DaysBeforeMonth(year, 13) == YearDays(year)
  {
    MonthsStart(year, 13);
  }

  /** The closed form of a day number: ECMAScript's `DayFromYear`, the month's start and the day. */
  lemma DayNumberIsUtc(d: Date)
    ensures DayNumber(d) ==
            365 * (d.year - 1970) + (d.year - 1969) / 4 - (d.year - 1901) / 100 + (d.year - 1601) / 400
            + [0, 31, 59, 90, 120, 151, 181, 212, 243, 273, 304, 334][d.month - 1]
            + (if d.month > 2 && d.year % 4 == 0 && (d.year % 100 != 0 || d.year % 400 == 0) then 1 else 0)
            + d.day - 1
  {
    DayFromYear(d.year);
    MonthsStart(d.year, d.month);
  }

  lemma {:induction false} YearsApart(a: int, b: int)
    requires a < b
    ensures DaysBeforeYear(a + 1) <= DaysBeforeYear(b)
    decreases b - a
  {
    if a + 1 < b {
      YearsApart(a, b - 1);
      YearLength(b - 1);
    }
  }

  lemma {:induction false} MonthsApart(year: int, a: int, b: int)
    requires 1 <= a < b <= 13
    ensures DaysBeforeMonth(year, a) + DaysInMonth(year, a) <= DaysBeforeMonth(year, b)
    decreases b - a
  {
    if a + 1 < b {
      MonthsApart(year, a, b - 1);
    }
  }

  /** A date's day number lies inside its year, and inside its month of that year. */
  lemma DayNumberBounds(d: Date)
    ensures DaysBeforeYear(d.year) <= DayNumber(d) < DaysBeforeYear(d.year + 1)
  {
    MonthsApart(d.year, d.month, 13);
    MonthsFillYear(d.year);
    YearLength(d.year);
    if d.month > 1 { MonthsApart(d.year, 1, d.month); }
  }

  lemma EarlierHasSmallerNumber(a: Date, b: Date)
    requires Earlier(a, b)
    ensures DayNumber(a) < DayNumber(b)
  {
    DayNumberBounds(a);
    DayNumberBounds(b);
    if a.year < b.year {
      YearsApart(a.year, b.year);
    } else if a.month < b.month {
      MonthsApart(a.year, a.month, b.month);
    }
  }

  /** Dates and day numbers have the same order, so day numbers identify dates. */
  lemma DayNumberOrder(a: Date, b: Date)
    ensures Earlier(a, b) <==> DayNumber(a) < DayNumber(b)
    ensures a == b <==> DayNumber(a) == DayNumber(b)
  {
    if Earlier(a, b) {
      EarlierHasSmallerNumber(a, b);
    } else if a != b {
      EarlierHasSmallerNumber(b, a);
    }
  }

  function Excess(n: int): nat {
    if n < 0 then 0 else n
  }

  // Arithmetic

  function NextDay(d: Date): Date {
    if d.day < DaysInMonth(d.year, d.month) then Ymd(d.year, d.month, d.day + 1)
    else if d.month < 12 then Ymd(d.year, d.month + 1, 1)
    else Ymd(d.year + 1, 1, 1)
  }

  function DayBefore(d: Date): Date {
    if d.day > 1 then Ymd(d.year, d.month, d.day - 1)
    else if d.month > 1 then Ymd(d.year, d.month - 1, DaysInMonth(d.year, d.month - 1))
    else Ymd(d.year - 1, 12, 31)
  }

  /** The date so many days later, or earlier. */
  function AddDays(date: Date, days: int): Date
    decreases if days < 0 then -days else days
  {
    if days == 0 then date
    else if days > 0 then AddDays(NextDay(date), days - 1)
    else AddDays(DayBefore(date), days + 1)
  }

  lemma NextDayNumber(d: Date)
    ensures DayNumber(NextDay(d)) == DayNumber(d) + 1
    ensures DayNumber(DayBefore(d)) == DayNumber(d) - 1
  {
    YearLength(d.year);
    YearLength(d.year - 1);
    MonthsFillYear(d.year);
    MonthsFillYear(d.year - 1);
  }

  /**
   Its day number is the one `Date.UTC(year, month - 1, day + days)` computes; by `DayNumberOrder`
   no other date has it.
   */
  lemma {:induction false} AddDaysNumber(date: Date, days: int)
    ensures DayNumber(AddDays(date, days)) == DayNumber(date) + days
    decreases if days < 0 then -days else days
  {
    hide DayNumber, NextDay, DayBefore;
    NextDayNumber(date);
    if days > 0 {
      AddDaysNumber(NextDay(date), days - 1);
    } else if days < 0 {
      AddDaysNumber(DayBefore(date), days + 1);
    }
  }

  function DaysBetween(from: Date, to: Date): int {
    DayNumber(to) - DayNumber(from)
  }

  /** `AddDays` is an action of the integers on dates: identity, composition, monotonicity. */
  lemma AddDaysIsAnAction(d: Date, m: int, n: int)
    ensures AddDays(d, 0) == d
    ensures AddDays(AddDays(d, m), n) == AddDays(d, m + n)
    ensures m < n <==> Earlier(AddDays(d, m), AddDays(d, n))
    ensures DaysBetween(d, AddDays(d, n)) == n
  {
    hide DayNumber, AddDays;
    AddDaysNumber(d, 0);
    AddDaysNumber(d, m);
    AddDaysNumber(d, n);
    AddDaysNumber(d, m + n);
    AddDaysNumber(AddDays(d, m), n);
    DayNumberOrder(AddDays(d, 0), d);
    DayNumberOrder(AddDays(AddDays(d, m), n), AddDays(d, m + n));
    DayNumberOrder(AddDays(d, m), AddDays(d, n));
  }

  /** Every date is reached from every other by the number of days between them. */
  lemma AddDaysReaches(d: Date, e: Date)
    ensures AddDays(d, DaysBetween(d, e)) == e
  {
    hide DayNumber, AddDays;
    AddDaysNumber(d, DaysBetween(d, e));
    DayNumberOrder(AddDays(d, DaysBetween(d, e)), e);
  }

  /** The day before a month's first day is the last day of the month before: what
      `new Date(year, month, 0).getDate()` reads off as the length of a month. */
  lemma DayBeforeNextMonth(year: int, month: int)
    requires 1 <= month <= 12
    ensures var next: Date := if month == 12 then Ymd(year + 1, 1, 1) else Ymd(year, month + 1, 1);
            AddDays(next, -1) == Ymd(year, month, DaysInMonth(year, month))
  {
    var next: Date := if month == 12 then Ymd(year + 1, 1, 1) else Ymd(year, month + 1, 1);
    assert AddDays(DayBefore(next), 0) == DayBefore(next);
  }

  function Min(a: int, b: int): int {
    if a < b then a else b
  }

  /** Months counted from year 0: what orders two dates of different months. */
  function MonthIndex(d: Ymd): int {
    d.year * 12 + d.month - 1
  }

  /** Shift by whole months, clamping to the length of the target month. */
  function AddMonths(date: Date, months: int): Date {
    var absolute := date.year * 12 + (date.month - 1) + months;
    var year := absolute / 12;
    var month := absolute % 12 + 1;
    Ymd(year, month, Min(date.day, DaysInMonth(year, month)))
  }

  lemma EarlierMonth(a: Date, b: Date)
    ensures MonthIndex(a) < MonthIndex(b) ==> Earlier(a, b)
    ensures Earlier(a, b) ==> MonthIndex(a) <= MonthIndex(b)
    ensures MonthIndex(a) == MonthIndex(b) ==> a.year == b.year && a.month == b.month
  {
  }

  /**
   `AddMonths` lands in the exact target month, on the same day or, where that month is shorter, on
   its last; it rises with the month count.
   */
  lemma AddMonthsLands(d: Date, m: int, n: int)
    ensures MonthIndex(AddMonths(d, n)) == MonthIndex(d) + n
    ensures SameDayOf(AddMonths(d, n), d.day)
    ensures AddMonths(d, 0) == d
    ensures m < n <==> Earlier(AddMonths(d, m), AddMonths(d, n))
  {
    var k, l := AddMonths(d, m), AddMonths(d, n);
    assert MonthIndex(k) == MonthIndex(d) + m && MonthIndex(l) == MonthIndex(d) + n;
    EarlierMonth(k, l);
    EarlierMonth(l, k);
  }

  /** The date is on this day of its month, or on the last if the month has no such day. */
  predicate SameDayOf(d: Date, day: int) {
    d.day == day || (d.day < day && d.day == DaysInMonth(d.year, d.month))
  }

  ghost predicate DatesAscend(dates: seq<Date>) {
    forall i, j :: 0 <= i < j < |dates| ==> Earlier(dates[i], dates[j])
  }

  // Text form

  predicate FourDigitYear(d: Ymd) {
    0 <= d.year <= 9999
  }

  function FormatDate(d: Date): string
    requires FourDigitYear(d)
  {
    Field(10, d.year, 4) + "-" + Field(10, d.month, 2) + "-" + Field(10, d.day, 2)
  }

  predicate DateShaped(s: string) {
    && |s| == 10 && s[4] == '-' && s[7] == '-'
    && AllDigits(10, s[..4]) && AllDigits(10, s[5..7]) && AllDigits(10, s[8..])
  }

  datatype ParsedDate = NotADate | ADate(date: Ymd)

  /** `/^(\d{4})-(\d{2})-(\d{2})$/`: shape only, so 2024-02-31 parses. */
  function ParseDate(s: string): ParsedDate {
    if DateShaped(s) then ADate(Ymd(Value(10, s[..4]), Value(10, s[5..7]), Value(10, s[8..]))) else NotADate
  }

  lemma DateFieldsFit(d: Date)
    requires FourDigitYear(d)
    ensures d.year < Power(10, 4) && d.month < Power(10, 2) && d.day < Power(10, 2)
  {
    assert Power(10, 4) == 10 * Power(10, 3);
    assert Power(10, 2) == 10 * Power(10, 1);
  }

  /** Parsing inverts formatting. */
  lemma ParseFormat(d: Date)
    requires FourDigitYear(d)
    ensures DateShaped(FormatDate(d))
    ensures ParseDate(FormatDate(d)) == ADate(d)
  {
    DateFieldsFit(d);
    FieldFaithful(10, d.year, 4);
    FieldFaithful(10, d.month, 2);
    FieldFaithful(10, d.day, 2);
    var s := FormatDate(d);
    assert s[..4] == Field(10, d.year, 4) && s[5..7] == Field(10, d.month, 2) && s[8..] == Field(10, d.day, 2);
  }

  /** Comparing formatted dates as text is comparing dates. */
  lemma FormatOrder(a: Date, b: Date)
    requires FourDigitYear(a) && FourDigitYear(b)
    ensures Less(FormatDate(a), FormatDate(b)) <==> Earlier(a, b)
    ensures FormatDate(a) == FormatDate(b) <==> a == b
  {
    DateFieldsFit(a);
    DateFieldsFit(b);
    var y1, m1, d1 := Field(10, a.year, 4), Field(10, a.month, 2), Field(10, a.day, 2);
    var y2, m2, d2 := Field(10, b.year, 4), Field(10, b.month, 2), Field(10, b.day, 2);
    assert |y1| == |y2| && |m1| == |m2| by {
      FieldFaithful(10, a.year, 4);
      FieldFaithful(10, b.year, 4);
      FieldFaithful(10, a.month, 2);
      FieldFaithful(10, b.month, 2);
    }
    FieldOrder(10, a.year, b.year, 4);
    FieldOrder(10, a.month, b.month, 2);
    FieldOrder(10, a.day, b.day, 2);
    DashedOrder(y1, m1, d1, y2, m2, d2);
    if FormatDate(a) == FormatDate(b) {
      ParseFormat(a);
      ParseFormat(b);
    }
  }
}
