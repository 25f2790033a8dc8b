/** The hand-rolled Gregorian calendar against a closed-form day count. */
module Calendar {
  import opened Digits

  datatype Fields = Fields(year: int, month: int, day: int, hour: int, minute: int)

  predicate IsLeap(y: int) {
    y % 4 == 0 && (y % 100 != 0 || y % 400 == 0)
  }

  function DaysInYear(y: int): int { if IsLeap(y) then 366 else 365 }

  function MonthDays(y: int): (days: seq<int>)
    ensures |days| == 12
  {
    if IsLeap(y) then [31, 29, 31, 30, 31, 30, 31, 31, 30, 31, 30, 31]
    else [31, 28, 31, 30, 31, 30, 31, 31, 30, 31, 30, 31]
  }

  // ----- the reference: closed-form day numbers, counted from 1970-01-01

  function YearStart(y: int): int {
    365 * (y - 1970) + (y - 1) / 4 - (y - 1) / 100 + (y - 1) / 400 - 477
  }

  /** Days of year `y` before month `m`; month 13 stands for the end of the year. */
  function MonthStart(y: int, m: int): int {
    (367 * m - 362) / 12 - if m <= 2 then 0 else if IsLeap(y) then 1 else 2
  }

  function DayNumber(f: Fields): int {
    YearStart(f.year) + MonthStart(f.year, f.month) + f.day - 1
  }

  predicate IsDate(f: Fields) {
    1 <= f.month <= 12 && 1 <= f.day <= MonthStart(f.year, f.month + 1) - MonthStart(f.year, f.month)
  }

  predicate IsTime(f: Fields) {
    0 <= f.hour < 24 && 0 <= f.minute < 60
  }

  function MinuteNumber(f: Fields): int {
    1440 * DayNumber(f) + 60 * f.hour + f.minute
  }

  /** The fields are a date and time, and `ts` falls in that very minute. */
  predicate Denotes(f: Fields, ts: int) {
    IsDate(f) && IsTime(f) && 60 * MinuteNumber(f) <= ts < 60 * MinuteNumber(f) + 60
  }

  lemma DivStep(y: int, k: int)
    requires k == 4 || k == 100 || k == 400
    ensures y / k == (y - 1) / k + if y % k == 0 then 1 else 0
  {
  }

  lemma YearStep(y: int)
    ensures YearStart(y + 1) == YearStart(y) + DaysInYear(y)
  {
    DivStep(y, 4);
    DivStep(y, 100);
    DivStep(y, 400);
    Divisors(y);
  }

  lemma Divisors(y: int)
    ensures y % 400 == 0 ==> y % 100 == 0
    ensures y % 100 == 0 ==> y % 4 == 0
  {
  }

  lemma MonthStep(y: int, i: int)
    requires 0 <= i < 12
    ensures MonthStart(y, 1) == 0 && MonthStart(y, 13) == DaysInYear(y)
    ensures MonthStart(y, i + 2) == MonthStart(y, i + 1) + MonthDays(y)[i]
  {
  }

  // ----- the source's loops; division truncates toward zero

  function TruncDiv(a: int, b: int): int
    requires b > 0
  {
    if a >= 0 then a / b else -(-a / b)
  }

  function TruncMod(a: int, b: int): int
    requires b > 0
  {
    a - b * TruncDiv(a, b)
  }

  /** The year and the days left over in it. */
  method SplitYear(days: int) returns (y: int, rest: int)
    ensures days >= 0 ==> YearStart(y) + rest == days && 0 <= rest < DaysInYear(y)
    ensures days < 0 ==> y == 1970 && rest == days
  {
    y, rest := 1970, days;
    while true
      invariant days >= 0 ==> YearStart(y) + rest == days && 0 <= rest
      invariant days < 0 ==> y == 1970 && rest == days
      decreases if rest < 0 then 0 else rest
    {
      var daysInYear := if y % 4 == 0 && (y % 100 != 0 || y % 400 == 0) then 366 else 365;
      if rest < daysInYear {
        break;
      }
      YearStep(y);
      rest := rest - daysInYear;
      y := y + 1;
    }
  }

  /** The zero-based month and the days left over in it; the loop always breaks. */
  method SplitMonth(y: int, days: int) returns (m: int, rest: int)
    requires days < DaysInYear(y)
    ensures 0 <= m < 12
    ensures days >= 0 ==> MonthStart(y, m + 1) + rest == days && 0 <= rest < MonthDays(y)[m]
    ensures days < 0 ==> m == 0 && rest == days
  {
    m, rest := 0, days;
    MonthStep(y, 0);
    var i := 0;
    while i < 12
      invariant 0 <= i <= 12 && m == 0
      invariant days >= 0 ==> MonthStart(y, i + 1) + rest == days && 0 <= rest
      invariant days < 0 ==> i == 0 && rest == days
    {
      var d := MonthDays(y)[i];
      if rest < d {
        m := i;
        return;
      }
      MonthStep(y, i);
      rest := rest - d;
      i := i + 1;
    }
    assert false;
  }

  lemma ClockDigits(ts: int)
    requires ts >= 0
    ensures var t := ts % 86400;
            && 0 <= t / 3600 < 24 && 0 <= t % 3600 / 60 < 60
            && 86400 * (ts / 86400) + 3600 * (t / 3600) + 60 * (t % 3600 / 60) <= ts
            && ts < 86400 * (ts / 86400) + 3600 * (t / 3600) + 60 * (t % 3600 / 60) + 60
  {
  }

  /** The fields computed denote the timestamp's minute exactly for non-negative timestamps. */
  method TimestampFields(ts: int) returns (f: Fields)
    ensures Denotes(f, ts) <==> ts >= 0
    ensures ts < 0 ==> f.year == 1970 && f.month == 1
  {
    var days := TruncDiv(ts, 86400);
    var timeOfDay := TruncMod(ts, 86400);
    var hours := TruncDiv(timeOfDay, 3600);
    var minutes := TruncDiv(TruncMod(timeOfDay, 3600), 60);
    var y, dayOfYear := SplitYear(days);
    var m, dayOfMonth := SplitMonth(y, dayOfYear);
    f := Fields(y, m + 1, dayOfMonth + 1, hours, minutes);
    MonthStep(y, m);
    if ts >= 0 {
      ClockDigits(ts);
      assert timeOfDay == ts % 86400 && TruncMod(timeOfDay, 3600) == timeOfDay % 3600;
      assert DayNumber(f) == days;
    } else {
      BeforeEpoch(f, ts);
    }
  }

  /** Fields in 1970 denote no timestamp before 1970. */
  lemma BeforeEpoch(f: Fields, ts: int)
    requires ts < 0 && f.year == 1970 && f.month == 1
    ensures !Denotes(f, ts)
  {
  }

  // ----- the reference determines the fields

  predicate Before(f: Fields, g: Fields) {
    || f.year < g.year
    || (f.year == g.year && (f.month < g.month || (f.month == g.month && f.day < g.day)))
  }

  lemma {:induction false} YearsGrow(y: int, z: int)
    requires y < z
    ensures YearStart(y) + DaysInYear(y) <= YearStart(z)
    decreases z - y
  {
    if y + 1 < z {
      YearsGrow(y, z - 1);
      YearStep(z - 1);
    } else {
      YearStep(y);
    }
  }

  lemma MonthsGrow(y: int, m: int, n: int)
    requires 1 <= m < n <= 13
    ensures MonthStart(y, m + 1) <= MonthStart(y, n)
  {
  }

  lemma DayOfYearBounds(f: Fields)
    requires IsDate(f)
    ensures YearStart(f.year) <= DayNumber(f) < YearStart(f.year) + DaysInYear(f.year)
  {
  }

  /** Later dates have larger day numbers. */
  lemma DatesGrow(f: Fields, g: Fields)
    requires IsDate(f) && IsDate(g) && Before(f, g)
    ensures DayNumber(f) < DayNumber(g)
  {
    if f.year < g.year {
      DayOfYearBounds(f);
      DayOfYearBounds(g);
      YearsGrow(f.year, g.year);
    } else if f.month < g.month {
      MonthsGrow(f.year, f.month, g.month);
    }
  }

  predicate AtOrBefore(f: Fields, g: Fields) {
    || Before(f, g)
    || (f.year == g.year && f.month == g.month && f.day == g.day
        && (f.hour < g.hour || (f.hour == g.hour && f.minute <= g.minute)))
  }

  /** Fields are monotone in time, so each timestamp has exactly one set of fields. */
  lemma FieldsMonotone(f: Fields, g: Fields, s: int, t: int)
    requires Denotes(f, s) && Denotes(g, t) && s <= t
    ensures AtOrBefore(f, g)
    ensures s == t ==> f == g
  {
    if Before(g, f) {
      DatesGrow(g, f);
    }
    if Before(f, g) {
      DatesGrow(f, g);
    }
  }

  // ----- the printed text

  /** A zero-padded integer; a minus sign takes one place of the width. */
  function Number(n: int, width: nat): string
    requires width > 0
  {
    if n >= 0 then Padded(n, width) else ['-'] + Padded(-n, width - 1)
  }

  function Printed(f: Fields): string {
    Number(f.year, 4) + ['-'] + (Number(f.month, 2) + ['-'] + (Number(f.day, 2) + [' ']
      + (Number(f.hour, 2) + [':'] + Number(f.minute, 2))))
  }

  function ReadPrinted(s: string): Fields {
    var (year, s) := Split(s, '-');
    var (month, s) := Split(s, '-');
    var (day, s) := Split(s, ' ');
    var (hour, minute) := Split(s, ':');
    Fields(ReadDigits(year), ReadDigits(month), ReadDigits(day), ReadDigits(hour), ReadDigits(minute))
  }

  lemma NumberReads(n: nat, width: nat, c: char)
    requires width > 0 && !IsDigit(c)
    ensures c !in Number(n, width) && ReadDigits(Number(n, width)) == n
  {
    ReadPadded(n, width);
    DigitsHold(Padded(n, width), c);
  }

  /** The text of fields without negative parts reads back as those fields. */
  lemma PrintedReadsBack(f: Fields)
    requires f.year >= 0 && f.month >= 0 && f.day >= 0 && f.hour >= 0 && f.minute >= 0
    ensures ReadPrinted(Printed(f)) == f
  {
    NumberReads(f.year, 4, '-');
    NumberReads(f.month, 2, '-');
    NumberReads(f.day, 2, ' ');
    NumberReads(f.hour, 2, ':');
    NumberReads(f.minute, 2, ':');
    var time := Number(f.hour, 2) + [':'] + Number(f.minute, 2);
    var dayOn := Number(f.day, 2) + [' '] + time;
    var monthOn := Number(f.month, 2) + ['-'] + dayOn;
    SplitAt(Number(f.year, 4), '-', monthOn);
    SplitAt(Number(f.month, 2), '-', dayOn);
    SplitAt(Number(f.day, 2), ' ', time);
    SplitAt(Number(f.hour, 2), ':', Number(f.minute, 2));
  }

  lemma TwoDigits(n: nat)
    requires n < 100
    ensures |Number(n, 2)| == 2 && AllDigits(Number(n, 2))
  {
    ReadPadded(n, 2);
    assert |Decimal(n / 10)| == 1;
  }

  lemma FourDigits(n: nat)
    requires n < 10000
    ensures |Number(n, 4)| == 4 && AllDigits(Number(n, 4))
  {
    ReadPadded(n, 4);
    assert |Decimal(n / 100)| <= 2;
    assert |Decimal(n)| <= 4;
  }

  /** Sixteen characters: digits, with separators after the year, the month, the day and the hour. */
  predicate LaidOut(text: string) {
    && |text| == 16
    && text[4] == '-' && text[7] == '-' && text[10] == ' ' && text[13] == ':'
    && forall i :: 0 <= i < 16 && i !in {4, 7, 10, 13} ==> IsDigit(text[i])
  }

  lemma PartsLaidOut(y: string, mo: string, d: string, h: string, mi: string)
    requires |y| == 4 && |mo| == 2 && |d| == 2 && |h| == 2 && |mi| == 2
    requires AllDigits(y) && AllDigits(mo) && AllDigits(d) && AllDigits(h) && AllDigits(mi)
    ensures LaidOut(y + ['-'] + (mo + ['-'] + (d + [' '] + (h + [':'] + mi))))
  {
  }

  /** Up to the year 9999 every part has its full width. */
  lemma PrintedLayout(f: Fields)
    requires 0 <= f.year < 10000 && 0 <= f.month < 100 && 0 <= f.day < 100
    requires 0 <= f.hour < 100 && 0 <= f.minute < 100
    ensures LaidOut(Printed(f))
  {
    FourDigits(f.year);
    TwoDigits(f.month);
    TwoDigits(f.day);
    TwoDigits(f.hour);
    TwoDigits(f.minute);
    PartsLaidOut(Number(f.year, 4), Number(f.month, 2), Number(f.day, 2), Number(f.hour, 2), Number(f.minute, 2));
  }

  /** No date before 1970 denotes a non-negative timestamp. */
  lemma NotBeforeEpoch(f: Fields, ts: int)
    requires Denotes(f, ts) && ts >= 0
    ensures f.year >= 1970
  {
    if f.year < 1970 {
      YearsGrow(f.year, 1970);
      DayOfYearBounds(f);
    }
  }

  /** Whatever follows them, the year and the month read back. */
  lemma YearAndMonthReadBack(f: Fields)
    requires f.year >= 0 && f.month >= 0
    ensures ReadPrinted(Printed(f)).year == f.year && ReadPrinted(Printed(f)).month == f.month
  {
    NumberReads(f.year, 4, '-');
    NumberReads(f.month, 2, '-');
    var dayOn := Number(f.day, 2) + [' '] + (Number(f.hour, 2) + [':'] + Number(f.minute, 2));
    SplitAt(Number(f.year, 4), '-', Number(f.month, 2) + ['-'] + dayOn);
    SplitAt(Number(f.month, 2), '-', dayOn);
  }

  /** The text printed reads back as the timestamp's minute exactly for non-negative timestamps. */
  method FormatTimestamp(ts: int) returns (text: string)
    ensures Denotes(ReadPrinted(text), ts) <==> ts >= 0
    ensures ts >= 0 && ReadPrinted(text).year < 10000 ==> LaidOut(text)
  {
    var f := TimestampFields(ts);
    text := Printed(f);
    if ts >= 0 {
      NotBeforeEpoch(f, ts);
      PrintedReadsBack(f);
      if f.year < 10000 {
        PrintedLayout(f);
      }
    } else {
      YearAndMonthReadBack(f);
      BeforeEpoch(ReadPrinted(text), ts);
    }
  }
}
