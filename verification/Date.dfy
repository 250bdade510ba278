/** Julian day numbers (muduo/base/Date.cc).  The source computes with C++ integers, whose division
    truncates toward zero. */
module Dates {
  function Quot(a: int, b: int): int
    requires b > 0
  {
    if a >= 0 then a / b else -(-a / b)
  }

  function Rem(a: int, b: int): int
    requires b > 0
  {
    a - b * Quot(a, b)
  }

  datatype YearMonthDay = YearMonthDay(year: int, month: int, day: int)

  function JulianDayNumber(year: int, month: int, day: int): int {
    var a := Quot(14 - month, 12);
    var y := year + 4800 - a;
    var m := month + 12 * a - 3;
    day + Quot(153 * m + 2, 5) + y * 365 + Quot(y, 4) - Quot(y, 100) + Quot(y, 400) - 32045
  }

  function Number(date: YearMonthDay): int { JulianDayNumber(date.year, date.month, date.day) }

  function DateOf(julianDayNumber: int): YearMonthDay {
    var a := julianDayNumber + 32044;
    var b := Quot(4 * a + 3, 146097);
    var c := a - Quot(b * 146097, 4);
    var d := Quot(4 * c + 3, 1461);
    var e := c - Quot(1461 * d, 4);
    var m := Quot(5 * e + 2, 153);
    YearMonthDay(b * 100 + d - 4800 + Quot(m, 10), m + 3 - 12 * Quot(m, 10), e - Quot(153 * m + 2, 5) + 1)
  }

  // ---------------------------------------------------------------------------------------------
  // The Gregorian calendar, independently
  // ---------------------------------------------------------------------------------------------

  predicate IsLeap(year: int) { year % 4 == 0 && (year % 100 != 0 || year % 400 == 0) }

  function DaysInMonth(year: int, month: int): int {
    if month == 2 then if IsLeap(year) then 29 else 28
    else if month == 4 || month == 6 || month == 9 || month == 11 then 30
    else 31
  }

  predicate IsDate(date: YearMonthDay) {
    1 <= date.month <= 12 && 1 <= date.day <= DaysInMonth(date.year, date.month)
  }

  function NextDay(date: YearMonthDay): (next: YearMonthDay)
    requires IsDate(date)
    ensures IsDate(next)
  {
    if date.day < DaysInMonth(date.year, date.month) then date.(day := date.day + 1)
    else if date.month < 12 then YearMonthDay(date.year, date.month + 1, 1)
    else YearMonthDay(date.year + 1, 1, 1)
  }

  // The first day the truncating divisions get right is 1 March of the year -4800.
  const kFirstDay := -32044

  predicate InEra(date: YearMonthDay) { date.year >= -4799 || (date.year == -4800 && date.month >= 3) }

  // ---------------------------------------------------------------------------------------------
  // Days counted from 1 March -4800: centuries, years of a century, days of a year from March
  // ---------------------------------------------------------------------------------------------

  function DaysOfCenturies(b: int): int { 36524 * b + b / 4 }

  function DaysOfYears(d: int): int { 365 * d + d / 4 }

  function DaysOfMonths(m: int): int { (153 * m + 2) / 5 }

  // The year from March on that a date is in, counted from -4800, and the month of that year.
  function MarchYear(date: YearMonthDay): int { date.year + 4800 - if date.month <= 2 then 1 else 0 }

  function MarchMonth(date: YearMonthDay): int { if date.month <= 2 then date.month + 9 else date.month - 3 }

  function DayOfYear(date: YearMonthDay): int { DaysOfMonths(MarchMonth(date)) + date.day - 1 }

  lemma NumberByParts(date: YearMonthDay)
    requires IsDate(date) && InEra(date)
    ensures var y := MarchYear(date);
            && y >= 0
            && Number(date) - kFirstDay == DaysOfCenturies(y / 100) + DaysOfYears(y % 100) + DayOfYear(date)
  {
    var y := MarchYear(date);
    YearsByCentury(y);
    assert Quot(14 - date.month, 12) == if date.month <= 2 then 1 else 0;
    assert Quot(y, 4) == y / 4 && Quot(y, 100) == y / 100 && Quot(y, 400) == y / 400;
    assert Quot(153 * MarchMonth(date) + 2, 5) == DaysOfMonths(MarchMonth(date));
  }

  lemma YearsByCentury(y: int)
    requires y >= 0
    ensures 365 * y + y / 4 - y / 100 + y / 400 == DaysOfCenturies(y / 100) + DaysOfYears(y % 100)
  {
    var b, d := y / 100, y % 100;
    assert y == 100 * b + d;
    assert y / 4 == 25 * b + d / 4;
    assert y / 400 == b / 4;
  }

  // The leap day is the last day of a year from March on.
  lemma DayOfYearIsSmall(date: YearMonthDay)
    requires IsDate(date)
    ensures 0 <= DayOfYear(date) <= 365
    ensures DayOfYear(date) == 365 ==> date.month == 2 && date.day == 29 && IsLeap(date.year)
    ensures DaysOfMonths(MarchMonth(date)) <= DayOfYear(date) < DaysOfMonths(MarchMonth(date) + 1)
  {
  }

  lemma CenturyFound(a: int, b: int)
    requires b >= 0 && DaysOfCenturies(b) <= a < DaysOfCenturies(b + 1)
    ensures Quot(4 * a + 3, 146097) == b && Quot(b * 146097, 4) == DaysOfCenturies(b)
  {
    assert b * 146097 == 4 * (36524 * b) + b;
  }

  lemma YearFound(c: int, d: int)
    requires d >= 0 && DaysOfYears(d) <= c < DaysOfYears(d + 1)
    ensures Quot(4 * c + 3, 1461) == d && Quot(1461 * d, 4) == DaysOfYears(d)
  {
    assert 1461 * d == 4 * (365 * d) + d;
  }

  lemma MonthFound(e: int, m: int)
    requires 0 <= m <= 11 && DaysOfMonths(m) <= e < DaysOfMonths(m + 1) && e <= 365
    ensures Quot(5 * e + 2, 153) == m && Quot(153 * m + 2, 5) == DaysOfMonths(m)
  {
  }

  // A leap day makes both its year and, in a year divisible by 400, its century one day longer.
  lemma LeapDayFits(b: int, d: int)
    requires b >= 0 && 0 <= d <= 99 && IsLeap(b * 100 + d + 1 - 4800)
    ensures d % 4 == 3 && (d == 99 ==> b % 4 == 3)
  {
    var year := b * 100 + d + 1 - 4800;
    assert year == 4 * (25 * b - 1200) + (d + 1);
    if d == 99 {
      assert year == 100 * (b - 47);
      assert year % 100 == 0 && year % 400 == 0;
      assert b % 4 == 3 by { assert (b + 1 - 48) % 4 == 0; }
    }
  }

  lemma PartsFit(b: int, d: int, e: int)
    requires b >= 0 && 0 <= d <= 99 && e <= 365 && (e == 365 ==> IsLeap(b * 100 + d + 1 - 4800))
    ensures DaysOfCenturies(b) + DaysOfYears(d) + e < DaysOfCenturies(b + 1)
    ensures DaysOfYears(d) + e < DaysOfYears(d + 1)
  {
    if e == 365 { LeapDayFits(b, d); }
    hide IsLeap;
  }

  function OfParts(b: int, d: int, m: int, e: int): YearMonthDay {
    YearMonthDay(b * 100 + d - 4800 + m / 10, m + 3 - 12 * (m / 10), e - DaysOfMonths(m) + 1)
  }

  // What DateOf makes of a day given by its century b, its year d in it, its month m and its day e of the year.
  lemma DateOfParts(n: int, b: int, d: int, m: int, e: int)
    requires b >= 0 && d >= 0 && 0 <= m <= 11 && DaysOfMonths(m) <= e < DaysOfMonths(m + 1) && e <= 365
    requires n - kFirstDay == DaysOfCenturies(b) + DaysOfYears(d) + e
    requires DaysOfCenturies(b) + DaysOfYears(d) + e < DaysOfCenturies(b + 1)
    requires DaysOfYears(d) + e < DaysOfYears(d + 1)
    ensures DateOf(n) == OfParts(b, d, m, e)
  {
    YearsNonNegative(d);
    Tens(m);
    hide *;
    CenturyFound(n - kFirstDay, b);
    YearFound(DaysOfYears(d) + e, d);
    MonthFound(e, m);
    DateOfUnfolds(n, n - kFirstDay, b, DaysOfYears(d) + e, d, e, m);
    OfPartsUnfolds(b, d, m, e);
  }

  lemma YearsNonNegative(d: int)
    requires d >= 0
    ensures DaysOfYears(d) >= 0
  {
  }

  lemma Tens(m: int)
    requires m >= 0
    ensures Quot(m, 10) == m / 10
  {
  }

  lemma DateOfUnfolds(n: int, a: int, b: int, c: int, d: int, e: int, m: int)
    requires a == n + 32044 && b == Quot(4 * a + 3, 146097) && c == a - Quot(b * 146097, 4)
    requires d == Quot(4 * c + 3, 1461) && e == c - Quot(1461 * d, 4) && m == Quot(5 * e + 2, 153)
    ensures DateOf(n) ==
            YearMonthDay(b * 100 + d - 4800 + Quot(m, 10), m + 3 - 12 * Quot(m, 10), e - Quot(153 * m + 2, 5) + 1)
  {
    hide Quot;
  }

  lemma OfPartsUnfolds(b: int, d: int, m: int, e: int)
    ensures OfParts(b, d, m, e) ==
            YearMonthDay(b * 100 + d - 4800 + m / 10, m + 3 - 12 * (m / 10), e - DaysOfMonths(m) + 1)
  {
    hide DaysOfMonths;
  }

  /** A date in the era is found again from its number. */
  lemma DateOfNumber(date: YearMonthDay)
    requires IsDate(date) && InEra(date)
    ensures Number(date) >= kFirstDay && DateOf(Number(date)) == date
  {
    var y, m, e := MarchYear(date), MarchMonth(date), DayOfYear(date);
    var b, d := y / 100, y % 100;
    NumberByParts(date);
    DayOfYearIsSmall(date);
    DatesParts(date);
    hide *;
    assert y == b * 100 + d;
    PartsFit(b, d, e);
    DateOfParts(Number(date), b, d, m, e);
  }

  lemma DatesParts(date: YearMonthDay)
    requires IsDate(date) && InEra(date)
    ensures var y, e := MarchYear(date), DayOfYear(date);
            && y >= 0 && e <= 365 && (e == 365 ==> IsLeap(y + 1 - 4800)) && 0 <= MarchMonth(date) <= 11
            && OfParts(y / 100, y % 100, MarchMonth(date), e) == date
            && DaysOfCenturies(y / 100) >= 0 && DaysOfYears(y % 100) >= 0 && e >= 0
  {
    DayOfYearIsSmall(date);
    var y := MarchYear(date);
    assert y == y / 100 * 100 + y % 100;
    hide IsLeap, DaysOfMonths;
  }

  lemma CenturyOf(a: int) returns (b: int)
    requires a >= 0
    ensures b >= 0 && DaysOfCenturies(b) <= a < DaysOfCenturies(b + 1) && a - DaysOfCenturies(b) <= 36524
  {
    b := (4 * a + 3) / 146097;
  }

  lemma YearOf(c: int) returns (d: int)
    requires 0 <= c <= 36524
    ensures 0 <= d <= 99 && DaysOfYears(d) <= c < DaysOfYears(d + 1) && c - DaysOfYears(d) <= 365
  {
    d := (4 * c + 3) / 1461;
  }

  lemma MonthOf(e: int) returns (m: int)
    requires 0 <= e <= 365
    ensures 0 <= m <= 11 && DaysOfMonths(m) <= e < DaysOfMonths(m + 1)
  {
    m := (5 * e + 2) / 153;
  }

  lemma LeapDay(b: int, d: int, e: int)
    requires b >= 0 && 0 <= d <= 99 && e == 365
    requires DaysOfCenturies(b) + DaysOfYears(d) + e < DaysOfCenturies(b + 1) && DaysOfYears(d) + e < DaysOfYears(d + 1)
    ensures IsLeap(b * 100 + d + 1 - 4800)
  {
    Step4(d);
    Step4(b);
    assert (d + 1) % 4 == 0 && (d == 99 ==> (b + 1) % 4 == 0);
    hide DaysOfCenturies, DaysOfYears;
    LeapParts(b, d);
  }

  lemma LeapParts(b: int, d: int)
    requires 0 <= d <= 99 && (d + 1) % 4 == 0 && (d == 99 ==> (b + 1) % 4 == 0)
    ensures IsLeap(b * 100 + d + 1 - 4800)
  {
    var year := b * 100 + d + 1 - 4800;
    assert year == 4 * (25 * b + (d + 1) / 4 - 1200);
    if d == 99 {
      assert year == 400 * ((b + 1) / 4 - 12);
    } else {
      assert year == 100 * (b - 48) + (d + 1);
    }
  }

  lemma Step4(y: int)
    ensures (y + 1) / 4 - y / 4 == if (y + 1) % 4 == 0 then 1 else 0
  {
  }

  lemma Step100(y: int)
    ensures (y + 1) / 100 - y / 100 == if (y + 1) % 100 == 0 then 1 else 0
  {
  }

  lemma Step400(y: int)
    ensures (y + 1) / 400 - y / 400 == if (y + 1) % 400 == 0 then 1 else 0
  {
  }

  // A year divisible by 400 is divisible by 100, and one divisible by 100 by 4.
  lemma Divisible(y: int)
    ensures y % 400 == 0 ==> y % 100 == 0
    ensures y % 100 == 0 ==> y % 4 == 0
  {
    Multiples(y / 400, y / 100);
  }

  lemma Multiples(q: int, r: int)
    ensures 400 * q % 100 == 0 && 100 * r % 4 == 0
  {
  }

  lemma Shift4800(y: int)
    ensures (y - 4800) % 4 == y % 4 && (y - 4800) % 100 == y % 100 && (y - 4800) % 400 == y % 400
  {
    ShiftBy(y, 4);
    ShiftBy(y, 100);
    ShiftBy(y, 400);
  }

  lemma ShiftBy(y: int, k: int)
    requires k == 4 || k == 100 || k == 400
    ensures (y - 4800) % k == y % k
  {
    var q, r := y / k, y % k;
    if k == 4 { assert y - 4800 == 4 * (q - 1200) + r; }
    else if k == 100 { assert y - 4800 == 100 * (q - 48) + r; }
    else { assert y - 4800 == 400 * (q - 12) + r; }
  }

  lemma PartsOfDate(b: int, d: int, m: int, e: int)
    requires b >= 0 && 0 <= d <= 99 && 0 <= m <= 11 && DaysOfMonths(m) <= e < DaysOfMonths(m + 1)
    requires e <= 365 && (e == 365 ==> IsLeap(b * 100 + d + 1 - 4800))
    ensures var date := OfParts(b, d, m, e);
            && IsDate(date) && InEra(date)
            && MarchYear(date) == b * 100 + d && MarchMonth(date) == m && DayOfYear(date) == e
  {
  }

  /** Every number from the first day on is that of the date it stands for. */
  lemma NumberOfDate(n: int)
    requires n >= kFirstDay
    ensures var date := DateOf(n); IsDate(date) && InEra(date) && Number(date) == n
  {
    hide *;
    var b := CenturyOf(n - kFirstDay);
    var c := n - kFirstDay - DaysOfCenturies(b);
    var d := YearOf(c);
    var e := c - DaysOfYears(d);
    var m := MonthOf(e);
    if e == 365 { LeapDay(b, d, e); }
    DateOfParts(n, b, d, m, e);
    PartsOfDate(b, d, m, e);
    NumberByParts(DateOf(n));
    Split100(b, d);
  }

  lemma Split100(b: int, d: int)
    requires 0 <= d <= 99
    ensures (b * 100 + d) / 100 == b && (b * 100 + d) % 100 == d
  {
  }

  // Before 1 March of the March-year y.
  function DaysBefore(y: int): int { 365 * y + y / 4 - y / 100 + y / 400 }

  lemma NumberByYear(date: YearMonthDay)
    requires IsDate(date) && InEra(date)
    ensures Number(date) - kFirstDay == DaysBefore(MarchYear(date)) + DayOfYear(date)
  {
    NumberByParts(date);
    YearsByCentury(MarchYear(date));
    hide DaysOfCenturies, DaysOfYears, DayOfYear, Number;
  }

  lemma NextDayInYear(date: YearMonthDay)
    requires IsDate(date)
    ensures var next := NextDay(date);
            if date.month == 2 && next.month == 3 then
              && MarchYear(next) == MarchYear(date) + 1 && DayOfYear(next) == 0
              && DayOfYear(date) == (if IsLeap(date.year) then 365 else 364) && date.year == MarchYear(date) + 1 - 4800
            else MarchYear(next) == MarchYear(date) && DayOfYear(next) == DayOfYear(date) + 1
  {
    hide IsLeap;
  }

  /** The next calendar day has the next number. */
  lemma NextDayIsNextNumber(date: YearMonthDay)
    requires IsDate(date) && InEra(date)
    ensures InEra(NextDay(date)) && Number(NextDay(date)) == Number(date) + 1
  {
    NumberByYear(date);
    NumberByYear(NextDay(date));
    NextDayInYear(date);
    YearLength(MarchYear(date));
    hide Number, DaysBefore, DayOfYear, NextDay;
  }

  lemma LeapByRemainders(year: int, r4: int, r100: int, r400: int)
    requires year % 4 == r4 && year % 100 == r100 && year % 400 == r400
    ensures IsLeap(year) <==> r4 == 0 && (r100 != 0 || r400 == 0)
  {
  }

  lemma YearLength(y: int)
    ensures DaysBefore(y + 1) - DaysBefore(y) == if IsLeap(y + 1 - 4800) then 366 else 365
  {
    Step4(y);
    Step100(y);
    Step400(y);
    Divisible(y + 1);
    Shift4800(y + 1);
    LeapByRemainders(y + 1 - 4800, (y + 1) % 4, (y + 1) % 100, (y + 1) % 400);
    hide IsLeap;
  }

  // ---------------------------------------------------------------------------------------------
  // Where truncation goes wrong
  // ---------------------------------------------------------------------------------------------

  lemma BeforeFirstDay(n: int)
    requires n < kFirstDay
    ensures DateOf(n).day <= 0
  {
    var a := n - kFirstDay;
    var b := Quot(4 * a + 3, 146097);
    var c := a - Quot(b * 146097, 4);
    assert c < 0 by { TruncatedRemainder(a, 146097, 4); }
    var d := Quot(4 * c + 3, 1461);
    var e := c - Quot(1461 * d, 4);
    assert e < 0 by { TruncatedRemainder(c, 1461, 4); }
    var m := Quot(5 * e + 2, 153);
    assert e - Quot(153 * m + 2, 5) < 0 by { TruncatedMonth(e); }
  }

  lemma TruncatedRemainder(x: int, k: int, f: int)
    requires x < 0 && f == 4 && (k == 146097 || k == 1461)
    ensures x - Quot(Quot(f * x + 3, k) * k, f) < 0
  {
  }

  lemma TruncatedMonth(e: int)
    requires e < 0
    ensures e - Quot(153 * Quot(5 * e + 2, 153) + 2, 5) < 0
  {
  }

  /** DateOf gives a date exactly from 1 March -4800 on. */
  lemma IsDateIffFromFirstDay(n: int)
    ensures IsDate(DateOf(n)) <==> n >= kFirstDay
  {
    if n >= kFirstDay { NumberOfDate(n); } else { BeforeFirstDay(n); }
  }

  /** Both functions are inverse to each other exactly there. */
  lemma RoundTripIffInEra(date: YearMonthDay)
    requires IsDate(date)
    ensures DateOf(Number(date)) == date <==> InEra(date)
  {
    hide Number, DateOf;
    if InEra(date) {
      DateOfNumber(date);
    } else if DateOf(Number(date)) == date {
      IsDateIffFromFirstDay(Number(date));
      NumberOfDate(Number(date));
    }
  }

  // ---------------------------------------------------------------------------------------------
  // 32-bit integers
  // ---------------------------------------------------------------------------------------------

  predicate Fits32(x: int) { -0x8000_0000 <= x < 0x8000_0000 }

  // 4 * a + 3 is the largest number either function computes.
  const kLastDay := 536870911 - 32044

  /** From the first day to the year 1465102 no intermediate result of DateOf leaves an int. */
  lemma DateOfFitsInt(n: int)
    requires kFirstDay <= n <= kLastDay
    ensures var a := n + 32044;
            var b := Quot(4 * a + 3, 146097);
            var c := a - Quot(b * 146097, 4);
            var d := Quot(4 * c + 3, 1461);
            var e := c - Quot(1461 * d, 4);
            var m := Quot(5 * e + 2, 153);
            && Fits32(4 * a + 3) && Fits32(b * 146097) && Fits32(4 * c + 3) && Fits32(1461 * d)
            && Fits32(5 * e + 2) && Fits32(153 * m + 2) && Fits32(b * 100 + d)
  {
    var b := CenturyOf(n - kFirstDay);
    CenturyFound(n - kFirstDay, b);
    var c := n - kFirstDay - DaysOfCenturies(b);
    var d := YearOf(c);
    YearFound(c, d);
    var e := c - DaysOfYears(d);
    var m := MonthOf(e);
    MonthFound(e, m);
  }
}
