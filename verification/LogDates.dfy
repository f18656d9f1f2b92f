/** Calendar dates, their text, and the names of the daily log files (helper/session/keylog.go). */
module LogDates {
  import opened Prelude

  // ---- The calendar ----

  datatype CivilDate = CivilDate(year: nat, month: nat, day: nat)

  predicate IsLeap(year: nat)
  {
    year % 4 == 0 && (year % 100 != 0 || year % 400 == 0)
  }

  function DaysIn(year: nat, month: nat): nat
  {
    if month == 2 then (if IsLeap(year) then 29 else 28)
    else if month in {4, 6, 9, 11} then 30
    else 31
  }

  predicate OnCalendar(d: CivilDate)
  {
    1 <= d.month <= 12 && 1 <= d.day <= DaysIn(d.year, d.month)
  }

  /** A calendar date of a year with four digits. */
  predicate ValidDate(d: CivilDate)
  {
    d.year <= 9999 && OnCalendar(d)
  }

  type Date = d: CivilDate | ValidDate(d) witness CivilDate(2000, 1, 1)

  function YearStart(year: nat): nat
  {
    if year == 0 then 0 else YearStart(year - 1) + if IsLeap(year - 1) then 366 else 365
  }

  function MonthStart(year: nat, month: nat): nat
    requires 1 <= month
  {
    if month == 1 then 0 else MonthStart(year, month - 1) + DaysIn(year, month - 1)
  }

  /** Days since the first day of year 0. */
  function DayNumber(d: CivilDate): nat
    requires OnCalendar(d)
  {
    YearStart(d.year) + MonthStart(d.year, d.month) + d.day - 1
  }

  predicate Earlier(a: CivilDate, b: CivilDate)
  {
    || a.year < b.year
    || (a.year == b.year && a.month < b.month)
    || (a.year == b.year && a.month == b.month && a.day < b.day)
  }

  lemma {:induction false} YearsGrow(a: nat, b: nat)
    requires a < b
    ensures YearStart(a + 1) <= YearStart(b)
  {
    if a + 1 < b { YearsGrow(a, b - 1); }
  }

  lemma {:induction false} MonthsGrow(year: nat, a: nat, b: nat)
    requires 1 <= a < b
    ensures MonthStart(year, a) + DaysIn(year, a) <= MonthStart(year, b)
  {
    if a + 1 < b { MonthsGrow(year, a, b - 1); }
  }

  lemma YearLength(year: nat)
    ensures MonthStart(year, 13) == if IsLeap(year) then 366 else 365
  {
    var february := DaysIn(year, 2);
    assert MonthStart(year, 2) == 31;
    assert MonthStart(year, 3) == 31 + february;
    assert MonthStart(year, 5) == 92 + february;
    assert MonthStart(year, 7) == 153 + february;
    assert MonthStart(year, 9) == 215 + february;
    assert MonthStart(year, 11) == 276 + february;
  }

  /** Day numbers follow the calendar, so a day number names one date. */
  lemma DayNumbersFollow(a: CivilDate, b: CivilDate)
    requires OnCalendar(a) && OnCalendar(b)
    ensures Earlier(a, b) <==> DayNumber(a) < DayNumber(b)
    ensures DayNumber(a) == DayNumber(b) ==> a == b
  {
    if Earlier(a, b) { EarlierIsLess(a, b); }
    if Earlier(b, a) { EarlierIsLess(b, a); }
  }

  lemma EarlierIsLess(a: CivilDate, b: CivilDate)
    requires OnCalendar(a) && OnCalendar(b) && Earlier(a, b)
    ensures DayNumber(a) < DayNumber(b)
  {
    if a.year < b.year {
      YearLength(a.year);
      MonthsGrow(a.year, a.month, 13);
      YearsGrow(a.year, b.year);
      assert YearStart(a.year + 1) == YearStart(a.year) + if IsLeap(a.year) then 366 else 365;
    } else if a.month < b.month {
      MonthsGrow(a.year, a.month, b.month);
    }
  }

  // ---- Day numbers count days ----

  /** The next day of the month, else the first of the next month, else the first of January. */
  function Next(d: CivilDate): (e: CivilDate)
    requires OnCalendar(d)
    ensures OnCalendar(e) && Earlier(d, e)
  {
    if d.day < DaysIn(d.year, d.month) then CivilDate(d.year, d.month, d.day + 1)
    else if d.month < 12 then CivilDate(d.year, d.month + 1, 1)
    else CivilDate(d.year + 1, 1, 1)
  }

  /** The date `n` days later. */
  function After(d: CivilDate, n: nat): (e: CivilDate)
    requires OnCalendar(d)
    ensures OnCalendar(e)
  {
    if n == 0 then d else Next(After(d, n - 1))
  }

  lemma NextDayNumber(d: CivilDate)
    requires OnCalendar(d)
    ensures DayNumber(Next(d)) == DayNumber(d) + 1
  {
    if d.day == DaysIn(d.year, d.month) {
      if d.month == 12 {
        YearLength(d.year);
        assert MonthStart(d.year, 13) == MonthStart(d.year, 12) + 31;
        assert YearStart(d.year + 1) == YearStart(d.year) + if IsLeap(d.year) then 366 else 365;
      } else {
        assert MonthStart(d.year, d.month + 1) == MonthStart(d.year, d.month) + DaysIn(d.year, d.month);
      }
    }
  }

  /** Going `n` days on in the calendar adds `n` to the day number. */
  lemma {:induction false} DayNumberAfter(d: CivilDate, n: nat)
    requires OnCalendar(d)
    ensures DayNumber(After(d, n)) == DayNumber(d) + n
  {
    if n > 0 {
      DayNumberAfter(d, n - 1);
      NextDayNumber(After(d, n - 1));
    }
  }

  /** Every date that is not earlier is reached that way. */
  lemma Reaches(a: CivilDate, b: CivilDate) returns (n: nat)
    requires OnCalendar(a) && OnCalendar(b) && !Earlier(b, a)
    ensures b == After(a, n)
  {
    DayNumbersFollow(b, a);
    n := DayNumber(b) - DayNumber(a);
    DayNumberAfter(a, n);
    DayNumbersFollow(After(a, n), b);
  }

  // ---- The Gregorian calendar in closed form ----

  /** The years before `year`, leap days included, without recursion. */
  lemma {:induction false} YearStartClosed(year: nat)
    ensures YearStart(year) == 365 * year + (year + 3) / 4 - (year + 99) / 100 + (year + 399) / 400
  {
    if year > 0 {
      YearStartClosed(year - 1);
      LeapDays(year - 1);
    }
  }

  lemma Fours(year: nat)
    ensures (year + 4) / 4 - (year + 3) / 4 == if year % 4 == 0 then 1 else 0
  {
  }

  lemma Hundreds(year: nat)
    ensures (year + 100) / 100 - (year + 99) / 100 == if year % 100 == 0 then 1 else 0
  {
  }

  lemma FourHundreds(year: nat)
    ensures (year + 400) / 400 - (year + 399) / 400 == if year % 400 == 0 then 1 else 0
  {
  }

  lemma Divides(year: nat)
    ensures year % 400 == 0 ==> year % 100 == 0
    ensures year % 100 == 0 ==> year % 4 == 0
  {
    if year % 400 == 0 { assert year == 100 * (4 * (year / 400)); }
    if year % 100 == 0 { assert year == 4 * (25 * (year / 100)); }
  }

  /** The count of leap years grows by one exactly over a leap year. */
  lemma LeapDays(year: nat)
    ensures (year + 4) / 4 - (year + 100) / 100 + (year + 400) / 400 ==
            (year + 3) / 4 - (year + 99) / 100 + (year + 399) / 400 + if IsLeap(year) then 1 else 0
  {
    Fours(year);
    Hundreds(year);
    FourHundreds(year);
    Divides(year);
  }

  lemma MonthStartClosed(year: nat, month: nat)
    requires 1 <= month <= 12
    ensures month <= 2 ==> MonthStart(year, month) == 31 * (month - 1)
    ensures 3 <= month ==>
              MonthStart(year, month) == (153 * (month - 3) + 2) / 5 + if IsLeap(year) then 60 else 59
  {
    var february := DaysIn(year, 2);
    assert MonthStart(year, 2) == 31 && MonthStart(year, 3) == 31 + february;
    assert MonthStart(year, 4) == 62 + february && MonthStart(year, 5) == 92 + february;
    assert MonthStart(year, 6) == 123 + february && MonthStart(year, 7) == 153 + february;
    assert MonthStart(year, 8) == 184 + february && MonthStart(year, 9) == 215 + february;
    assert MonthStart(year, 10) == 245 + february && MonthStart(year, 11) == 276 + february;
    assert MonthStart(year, 12) == 306 + february;
  }

  /** The same count seen from the year before, and through the end of the year. */
  lemma LeapDaysFrom(year: nat)
    ensures (year - 1) / 4 == (year + 3) / 4 - 1
    ensures (year - 1) / 100 == (year + 99) / 100 - 1
    ensures (year - 1) / 400 == (year + 399) / 400 - 1
    ensures year / 4 - year / 100 + year / 400 + 1 ==
            (year + 3) / 4 - (year + 99) / 100 + (year + 399) / 400 + if IsLeap(year) then 1 else 0
  {
    LeapDays(year);
    assert (year + 4) / 4 == year / 4 + 1;
    assert (year + 100) / 100 == year / 100 + 1;
    assert (year + 400) / 400 == year / 400 + 1;
  }

  /**
   * The well-known closed form, which counts months from March: day numbers agree with it on every date, so
   * they are those of the Gregorian calendar.
   */
  lemma DayNumberClosed(d: CivilDate)
    requires OnCalendar(d)
    ensures d.month <= 2 ==>
              DayNumber(d) == 365 * (d.year - 1) + (d.year - 1) / 4 - (d.year - 1) / 100 + (d.year - 1) / 400
                              + (153 * (d.month + 9) + 2) / 5 + d.day + 59
    ensures 3 <= d.month ==>
              DayNumber(d) == 365 * d.year + d.year / 4 - d.year / 100 + d.year / 400
                              + (153 * (d.month - 3) + 2) / 5 + d.day + 59
  {
    YearStartClosed(d.year);
    MonthStartClosed(d.year, d.month);
    LeapDaysFrom(d.year);
    assert d.month == 1 ==> (153 * (d.month + 9) + 2) / 5 == 306;
    assert d.month == 2 ==> (153 * (d.month + 9) + 2) / 5 == 337;
  }

  // ---- "2006-01-02" ----

  predicate IsDigit(c: char) { '0' <= c <= '9' }

  function Digit(n: nat): char requires n < 10 { ('0' as int + n) as char }

  function Value(c: char): nat requires IsDigit(c) { c as int - '0' as int }

  function Format(d: Date): (s: string)
    ensures |s| == 10
  {
    [ Digit(d.year / 1000), Digit(d.year / 100 % 10), Digit(d.year / 10 % 10), Digit(d.year % 10), '-',
      Digit(d.month / 10), Digit(d.month % 10), '-', Digit(d.day / 10), Digit(d.day % 10) ]
  }

  /** The number a text of decimal digits stands for. */
  function Decimal(s: string): nat
    requires forall i :: 0 <= i < |s| ==> '0' <= s[i] <= '9'
  {
    if s == "" then 0 else 10 * Decimal(s[..|s| - 1]) + (s[|s| - 1] as int - '0' as int)
  }

  lemma TwoDecimals(s: string)
    requires |s| == 2 && forall i :: 0 <= i < |s| ==> '0' <= s[i] <= '9'
    ensures Decimal(s) == (s[0] as int - '0' as int) * 10 + (s[1] as int - '0' as int)
  {
    assert Decimal(s[..1]) == 10 * Decimal(s[..1][..0]) + (s[0] as int - '0' as int);
  }

  lemma FourDecimals(s: string)
    requires |s| == 4 && forall i :: 0 <= i < |s| ==> '0' <= s[i] <= '9'
    ensures Decimal(s) == 100 * Decimal(s[..2]) + Decimal(s[2..])
  {
    TwoDecimals(s[2..]);
    assert s[..3][..2] == s[..2];
  }

  lemma YearReads(n: nat, y: string)
    requires n <= 9999
    requires y == [Digit(n / 1000), Digit(n / 100 % 10), Digit(n / 10 % 10), Digit(n % 10)]
    ensures (forall i :: 0 <= i < 4 ==> '0' <= y[i] <= '9') && Decimal(y) == n
  {
    FourDigits(n);
    FourDecimals(y);
    TwoDecimals(y[..2]);
    TwoDecimals(y[2..]);
    assert Decimal(y[..2]) == n / 1000 * 10 + n / 100 % 10;
    assert Decimal(y[2..]) == n / 10 % 10 * 10 + n % 10;
  }

  /** A date's text is its year, month and day as decimal numbers of four, two and two digits. */
  lemma FormatReads(d: Date)
    ensures var s := Format(d);
            && (forall i :: 0 <= i < 10 && i != 4 && i != 7 ==> '0' <= s[i] <= '9') && s[4] == s[7] == '-'
            && Decimal(s[..4]) == d.year && Decimal(s[5..7]) == d.month && Decimal(s[8..]) == d.day
  {
    var s := Format(d);
    YearReads(d.year, s[..4]);
    TwoDecimals(s[5..7]);
    TwoDecimals(s[8..]);
  }

  predicate Shaped(s: string)
  {
    && |s| == 10 && s[4] == '-' && s[7] == '-'
    && IsDigit(s[0]) && IsDigit(s[1]) && IsDigit(s[2]) && IsDigit(s[3])
    && IsDigit(s[5]) && IsDigit(s[6]) && IsDigit(s[8]) && IsDigit(s[9])
  }

  function Parse(s: string): Option<Date>
  {
    if !Shaped(s) then None
    else
      var d := CivilDate(Value(s[0]) * 1000 + Value(s[1]) * 100 + Value(s[2]) * 10 + Value(s[3]),
                         Value(s[5]) * 10 + Value(s[6]), Value(s[8]) * 10 + Value(s[9]));
      if ValidDate(d) then Some(d) else None
  }

  /** Every date parses back from its text. */
  lemma ParseFormat(d: Date)
    ensures Parse(Format(d)) == Some(d)
  {
    var s := Format(d);
    assert Shaped(s);
    FourDigits(d.year);
    assert Value(s[5]) * 10 + Value(s[6]) == d.month;
    assert Value(s[8]) * 10 + Value(s[9]) == d.day;
  }

  lemma FourDigits(n: nat)
    requires n <= 9999
    ensures n / 1000 < 10 && n / 1000 * 1000 + n / 100 % 10 * 100 + n / 10 % 10 * 10 + n % 10 == n
  {
    var tens, hundreds := n / 10, n / 100;
    assert n == tens * 10 + n % 10;
    assert tens / 10 == hundreds && tens == hundreds * 10 + tens % 10;
    assert hundreds / 10 == n / 1000 && hundreds == n / 1000 * 10 + hundreds % 10;
  }

  lemma DigitsOf(a: nat, b: nat, c: nat, d: nat)
    requires a < 10 && b < 10 && c < 10 && d < 10
    ensures var n := a * 1000 + b * 100 + c * 10 + d;
            n / 1000 == a && n / 100 % 10 == b && n / 10 % 10 == c && n % 10 == d
  {
    var n := a * 1000 + b * 100 + c * 10 + d;
    assert n / 100 == a * 10 + b;
    assert n / 10 == a * 100 + b * 10 + c;
  }

  lemma TwoDigitsOf(a: nat, b: nat)
    requires a < 10 && b < 10
    ensures (a * 10 + b) / 10 == a && (a * 10 + b) % 10 == b
  {
  }

  /** Only a date's own text parses to it. */
  lemma FormatParse(s: string)
    requires Parse(s).Some?
    ensures Format(Parse(s).value) == s
  {
    DigitsOf(Value(s[0]), Value(s[1]), Value(s[2]), Value(s[3]));
    TwoDigitsOf(Value(s[5]), Value(s[6]));
    TwoDigitsOf(Value(s[8]), Value(s[9]));
    var t := Format(Parse(s).value);
    assert t[0] == s[0] && t[1] == s[1] && t[2] == s[2] && t[3] == s[3] && t[4] == s[4];
    assert t[5] == s[5] && t[6] == s[6] && t[7] == s[7] && t[8] == s[8] && t[9] == s[9];
  }

  // ---- File names ----

  const PREFIX := "phone-key-"
  const SUFFIX := ".log"

  function LogName(d: Date): string
  {
    PREFIX + Format(d) + SUFFIX
  }

  predicate HasSuffix(s: string, suffix: string)
  {
    |suffix| <= |s| && s[|s| - |suffix|..] == suffix
  }

  function TrimPrefix(s: string, prefix: string): string
  {
    if prefix <= s then s[|prefix|..] else s
  }

  function TrimSuffix(s: string, suffix: string): string
  {
    if HasSuffix(s, suffix) then s[..|s| - |suffix|] else s
  }

  /** The date of a log file by its name; nothing for any other name. */
  function DateOf(name: string): Option<Date>
  {
    if !(PREFIX <= name) || !HasSuffix(name, SUFFIX) then None
    else Parse(TrimSuffix(TrimPrefix(name, PREFIX), SUFFIX))
  }

  /** A name has a date exactly if it is the name the logger gives that date's file. */
  lemma DateOfIff(name: string, d: Date)
    ensures DateOf(name) == Some(d) <==> name == LogName(d)
    ensures LogName(d) == "phone-key-" + Format(d) + ".log"
  {
    ParseFormat(d);
    if name == LogName(d) {
      assert TrimPrefix(name, PREFIX) == Format(d) + SUFFIX;
      assert TrimSuffix(Format(d) + SUFFIX, SUFFIX) == Format(d);
    }
    if DateOf(name) == Some(d) {
      var rest := TrimPrefix(name, PREFIX);
      var day := TrimSuffix(rest, SUFFIX);
      FormatParse(day);
      assert name == PREFIX + rest;
      assert |day| == 10;
      assert rest[|rest| - 4..] == name[|name| - 4..];
      assert rest == day + SUFFIX;
    }
  }
}
