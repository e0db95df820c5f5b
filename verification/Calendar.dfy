/** Seconds since the epoch in closed form (mktimegm). */
module Calendar {

  datatype Date = Date(year: int, month: int, day: int)

  datatype Time = Time(date: Date, hour: int, minute: int, second: int)

  predicate IsLeap(y: int) {
    y % 4 == 0 && (y % 100 != 0 || y % 400 == 0)
  }

  function DaysInMonth(y: int, m: int): int {
    if m == 2 then (if IsLeap(y) then 29 else 28)
    else if m == 4 || m == 6 || m == 9 || m == 11 then 30
    else 31
  }

  predicate ValidDate(t: Date) {
    t.year >= 1 && 1 <= t.month <= 12 && 1 <= t.day <= DaysInMonth(t.year, t.month)
  }

  predicate ValidTime(t: Time) {
    ValidDate(t.date) && 0 <= t.hour < 24 && 0 <= t.minute < 60 && 0 <= t.second < 60
  }

  // ---------------------------------------------------------------- counting days

  function DaysBeforeYear(y: int): int
    requires y >= 1
  {
    if y == 1 then 0 else DaysBeforeYear(y - 1) + if IsLeap(y - 1) then 366 else 365
  }

  function DaysBeforeMonth(y: int, m: int): int
    requires m >= 1
  {
    if m == 1 then 0 else DaysBeforeMonth(y, m - 1) + DaysInMonth(y, m - 1)
  }

  /** Days from 1 January 1970, counting years and months one by one. */
  function DayNumber(t: Date): int
    requires ValidDate(t)
  {
    DaysBeforeYear(t.year) + DaysBeforeMonth(t.year, t.month) + (t.day - 1) - DaysBeforeYear(1970)
  }

  function NextDay(t: Date): (n: Date)
    requires ValidDate(t)
    ensures ValidDate(n)
  {
    if t.day < DaysInMonth(t.year, t.month) then t.(day := t.day + 1)
    else if t.month < 12 then Date(t.year, t.month + 1, 1)
    else Date(t.year + 1, 1, 1)
  }

  predicate Before(a: Date, b: Date) {
    a.year < b.year || (a.year == b.year && (a.month < b.month || (a.month == b.month && a.day < b.day)))
  }

  // ---------------------------------------------------------------- the closed form

  /** March is month 3 and February month 14 of the year before. */
  function ShiftedYear(t: Date): int {
    if t.month < 3 then t.year - 1 else t.year
  }

  function ShiftedMonth(t: Date): int {
    if t.month < 3 then t.month + 12 else t.month
  }

  function ClosedDays(t: Date): int {
    var y, m := ShiftedYear(t), ShiftedMonth(t);
    t.day + (153 * m - 457) / 5 + 365 * y + y / 4 - y / 100 + y / 400 - 719469
  }

  /** mktimegm without any limit on the size of an integer. */
  function Mktimegm(t: Time): int {
    86400 * ClosedDays(t.date) + 3600 * t.hour + 60 * t.minute + t.second
  }

  lemma YearQuotients(y: int)
    requires y >= 1
    ensures y / 4 - y / 100 + y / 400 == (y - 1) / 4 - (y - 1) / 100 + (y - 1) / 400 + if IsLeap(y) then 1 else 0
  {
    hide IsLeap;
    Quotient(y, 4);
    Quotient(y, 100);
    Quotient(y, 400);
    LeapParts(y);
  }

  lemma LeapParts(y: int)
    ensures (if y % 4 == 0 then 1 else 0) - (if y % 100 == 0 then 1 else 0) + (if y % 400 == 0 then 1 else 0)
            == if IsLeap(y) then 1 else 0
  {
  }

  lemma Quotient(y: int, n: int)
    requires y >= 1 && (n == 4 || n == 100 || n == 400)
    ensures y / n == (y - 1) / n + if y % n == 0 then 1 else 0
  {
  }

  lemma {:induction false} YearsInClosedForm(y: int)
    requires y >= 1
    ensures DaysBeforeYear(y) == 365 * (y - 1) + (y - 1) / 4 - (y - 1) / 100 + (y - 1) / 400
  {
    if y > 1 {
      YearsInClosedForm(y - 1);
      YearQuotients(y - 1);
    }
  }

  /** The months from March on, in closed form. */
  lemma MonthsInClosedForm(t: Date)
    requires ValidDate(t)
    ensures (153 * ShiftedMonth(t) - 457) / 5 ==
            if t.month < 3 then DaysBeforeMonth(t.year, t.month) + 306
            else DaysBeforeMonth(t.year, t.month) - 59 - if IsLeap(t.year) then 1 else 0
  {
    var y := t.year;
    assert DaysBeforeMonth(y, 2) == 31;
    assert DaysBeforeMonth(y, 3) == DaysBeforeMonth(y, 2) + DaysInMonth(y, 2);
    assert DaysBeforeMonth(y, 4) == DaysBeforeMonth(y, 3) + 31;
    assert DaysBeforeMonth(y, 5) == DaysBeforeMonth(y, 4) + 30;
    assert DaysBeforeMonth(y, 6) == DaysBeforeMonth(y, 5) + 31;
    assert DaysBeforeMonth(y, 7) == DaysBeforeMonth(y, 6) + 30;
    assert DaysBeforeMonth(y, 8) == DaysBeforeMonth(y, 7) + 31;
    assert DaysBeforeMonth(y, 9) == DaysBeforeMonth(y, 8) + 31;
    assert DaysBeforeMonth(y, 10) == DaysBeforeMonth(y, 9) + 30;
    assert DaysBeforeMonth(y, 11) == DaysBeforeMonth(y, 10) + 31;
    assert DaysBeforeMonth(y, 12) == DaysBeforeMonth(y, 11) + 30;
  }

  /** The closed form counts the days from the epoch, for every Gregorian date. */
  lemma ClosedFormCountsDays(t: Date)
    requires ValidDate(t)
    ensures ClosedDays(t) == DayNumber(t)
  {
    hide DaysBeforeYear, DaysBeforeMonth, IsLeap;
    MonthsInClosedForm(t);
    YearsInClosedForm(1970);
    YearsInClosedForm(t.year);
    YearQuotients(t.year);
  }

  /** Consecutive days are one apart. */
  lemma NextDayIsOneMore(t: Date)
    requires ValidDate(t)
    ensures DayNumber(NextDay(t)) == DayNumber(t) + 1
  {
    if t.day == DaysInMonth(t.year, t.month) && t.month == 12 {
      MonthsInClosedForm(t);
    }
  }

  /** Each day takes 86400 seconds. */
  lemma ConsecutiveDays(t: Time)
    requires ValidTime(t)
    ensures Mktimegm(t.(date := NextDay(t.date))) == Mktimegm(t) + 86400
  {
    hide DayNumber, ClosedDays;
    ClosedFormCountsDays(t.date);
    ClosedFormCountsDays(NextDay(t.date));
    NextDayIsOneMore(t.date);
  }

  /** The next second. */
  function NextSecond(t: Time): Time
    requires ValidTime(t)
  {
    if t.second < 59 then t.(second := t.second + 1)
    else if t.minute < 59 then t.(minute := t.minute + 1, second := 0)
    else if t.hour < 23 then t.(hour := t.hour + 1, minute := 0, second := 0)
    else Time(NextDay(t.date), 0, 0, 0)
  }

  /** The seconds are counted one by one from the epoch, which is zero. */
  lemma ConsecutiveSeconds(t: Time)
    requires ValidTime(t)
    ensures ValidTime(NextSecond(t)) && Mktimegm(NextSecond(t)) == Mktimegm(t) + 1
    ensures Mktimegm(Time(Date(1970, 1, 1), 0, 0, 0)) == 0
  {
    ConsecutiveDays(t);
    hide ClosedDays, ValidDate, NextDay;
    EpochIsZero();
  }

  lemma EpochIsZero()
    ensures ClosedDays(Date(1970, 1, 1)) == 0
  {
  }

  /** The calendar that is counted: the months with their days, February by the rule of 4, 100 and 400 years. */
  lemma MonthLengths(y: int)
    ensures DaysInMonth(y, 1) == DaysInMonth(y, 3) == DaysInMonth(y, 5) == DaysInMonth(y, 7) == 31
    ensures DaysInMonth(y, 8) == DaysInMonth(y, 10) == DaysInMonth(y, 12) == 31
    ensures DaysInMonth(y, 4) == DaysInMonth(y, 6) == DaysInMonth(y, 9) == DaysInMonth(y, 11) == 30
    ensures DaysInMonth(y, 2) == if y % 400 == 0 then 29 else if y % 100 == 0 then 28 else if y % 4 == 0 then 29 else 28
  {
    hide IsLeap;
    February(y);
  }

  lemma February(y: int)
    ensures IsLeap(y) <==> if y % 400 == 0 then true else if y % 100 == 0 then false else y % 4 == 0
  {
    if y % 400 == 0 {
      Fourfold(100 * (y / 400));
      assert y == 4 * (100 * (y / 400));
    }
  }

  lemma Fourfold(n: int)
    ensures (4 * n) % 4 == 0
  {
  }

  /** The leap day of 2000, and the day after 28 February 2100, which has none. */
  lemma KnownDates()
    ensures Mktimegm(Time(Date(2000, 2, 29), 12, 34, 56)) == 951827696
    ensures Mktimegm(Time(Date(2100, 3, 1), 0, 0, 0)) == 4107542400
    ensures NextDay(Date(2100, 2, 28)) == Date(2100, 3, 1)
  {
    hide ClosedDays;
    LeapDayOf2000();
    FirstOfMarch2100();
  }

  lemma LeapDayOf2000()
    ensures ClosedDays(Date(2000, 2, 29)) == 11016
  {
  }

  lemma FirstOfMarch2100()
    ensures ClosedDays(Date(2100, 3, 1)) == 47541
  {
  }

  lemma {:induction false} LaterYear(a: int, b: int)
    requires 1 <= a <= b
    ensures DaysBeforeYear(a) + 365 * (b - a) <= DaysBeforeYear(b)
    decreases b - a
  {
    if a < b {
      LaterYear(a, b - 1);
    }
  }

  lemma {:induction false} LaterMonth(y: int, a: int, b: int)
    requires 1 <= a <= b
    ensures DaysBeforeMonth(y, a) <= DaysBeforeMonth(y, b)
    ensures a < b ==> DaysBeforeMonth(y, a) + DaysInMonth(y, a) <= DaysBeforeMonth(y, b)
    decreases b - a
  {
    if a < b {
      LaterMonth(y, a, b - 1);
    }
  }

  /** The last day of a year lies before the first of the next. */
  lemma InsideYear(t: Date)
    requires ValidDate(t)
    ensures 0 <= DaysBeforeMonth(t.year, t.month) + t.day - 1 < DaysBeforeYear(t.year + 1) - DaysBeforeYear(t.year)
  {
    LaterMonth(t.year, 1, t.month);
    LaterMonth(t.year, t.month, 12);
    MonthsInClosedForm(Date(t.year, 12, 1));
  }

  /** Later dates have larger day numbers. */
  lemma DayNumberIncreases(a: Date, b: Date)
    requires ValidDate(a) && ValidDate(b) && Before(a, b)
    ensures DayNumber(a) < DayNumber(b)
  {
    hide DaysBeforeYear, DaysBeforeMonth;
    InsideYear(a);
    InsideYear(b);
    if a.year < b.year {
      LaterYear(a.year + 1, b.year);
    } else if a.month < b.month {
      LaterMonth(a.year, a.month, b.month);
    }
  }

  predicate Earlier(a: Time, b: Time) {
    Before(a.date, b.date) ||
    (a.date == b.date && 3600 * a.hour + 60 * a.minute + a.second < 3600 * b.hour + 60 * b.minute + b.second)
  }

  /** The order of the results is the order of the times. */
  lemma MktimegmKeepsOrder(a: Time, b: Time)
    requires ValidTime(a) && ValidTime(b)
    ensures Mktimegm(a) < Mktimegm(b) <==> Earlier(a, b)
  {
    hide DayNumber, ClosedDays, DaysInMonth;
    ClosedFormCountsDays(a.date);
    ClosedFormCountsDays(b.date);
    if Before(a.date, b.date) {
      DayNumberIncreases(a.date, b.date);
    } else if Before(b.date, a.date) {
      DayNumberIncreases(b.date, a.date);
    }
  }

  // ---------------------------------------------------------------- 32-bit arithmetic

  /** The value of a 32-bit two's complement integer congruent to `x`. */
  function Wrap32(x: int): int {
    (x + 0x8000_0000) % 0x1_0000_0000 - 0x8000_0000
  }

  /** mktimegm as computed: the product with the number of days is an `int`. */
  function MktimegmInt(t: Time): int {
    Wrap32(86400 * ClosedDays(t.date)) + 3600 * t.hour + 60 * t.minute + t.second
  }

  /** It differs by a multiple of 2^32, the one that brings the product into the range of an `int`. */
  lemma IntProductWraps(t: Time) returns (k: int)
    ensures MktimegmInt(t) == Mktimegm(t) + k * 0x1_0000_0000
    ensures -0x8000_0000 <= MktimegmInt(t) - 3600 * t.hour - 60 * t.minute - t.second < 0x8000_0000
  {
    hide ClosedDays;
    k := -((86400 * ClosedDays(t.date) + 0x8000_0000) / 0x1_0000_0000);
  }

  function FirstDate(): Date {
    Date(1901, 12, 14)
  }

  function LastDate(): Date {
    Date(2038, 1, 19)
  }

  lemma LimitsOfInt()
    ensures DayNumber(FirstDate()) == -24855 && DayNumber(LastDate()) == 24855
  {
    hide DayNumber, DaysBeforeYear, DaysBeforeMonth;
    ClosedFormCountsDays(FirstDate());
    ClosedFormCountsDays(LastDate());
  }

  lemma WrapsOutside(days: int)
    ensures Wrap32(86400 * days) == 86400 * days <==> -24855 <= days <= 24855
  {
  }

  /** With 32-bit products the result is right exactly from 14 December 1901 to 19 January 2038. */
  lemma IntProductIff(t: Time)
    requires ValidTime(t)
    ensures MktimegmInt(t) == Mktimegm(t) <==> !Before(t.date, FirstDate()) && !Before(LastDate(), t.date)
  {
    hide DayNumber, ClosedDays, Wrap32;
    ClosedFormCountsDays(t.date);
    WrapsOutside(ClosedDays(t.date));
    LimitsOfInt();
    Ordered(t.date, FirstDate());
    Ordered(t.date, LastDate());
  }

  lemma Ordered(a: Date, b: Date)
    requires ValidDate(a) && ValidDate(b)
    ensures DayNumber(a) < DayNumber(b) <==> Before(a, b)
    ensures DayNumber(b) < DayNumber(a) <==> Before(b, a)
  {
    if Before(a, b) {
      DayNumberIncreases(a, b);
    } else if Before(b, a) {
      DayNumberIncreases(b, a);
    }
  }
}
