/** Day counts by adding up calendar lengths, and the printed RFC 3339 instant. */
module Timestamp {
  import opened Calendar
  import opened Numerals

  // ----- an independent day count -----

  function DaysInYear(y: int): int {
    if IsLeap(y) then 366 else 365
  }

  /** Days from 1970-01-01 to January 1st of y, adding up year lengths. */
  function YearStart(y: int): int
    decreases if y >= 1970 then y - 1970 else 1970 - y
  {
    if y == 1970 then 0
    else if y > 1970 then YearStart(y - 1) + DaysInYear(y - 1)
    else YearStart(y + 1) - DaysInYear(y)
  }

  function MonthStart(y: int, m: int): int {
    if m <= 1 then 0 else MonthStart(y, m - 1) + DaysInMonth(y, m - 1)
  }

  function EpochDay(d: Date): int {
    YearStart(d.year) + MonthStart(d.year, d.month) + d.day - 1
  }

  lemma MonthsFillYear(y: int)
    ensures MonthStart(y, 13) == DaysInYear(y)
  {
    assert MonthStart(y, 2) == 31;
    assert MonthStart(y, 3) == 59 + if IsLeap(y) then 1 else 0;
    assert MonthStart(y, 4) == MonthStart(y, 3) + 31;
    assert MonthStart(y, 6) == MonthStart(y, 4) + 61;
    assert MonthStart(y, 8) == MonthStart(y, 6) + 61;
    assert MonthStart(y, 10) == MonthStart(y, 8) + 61;
    assert MonthStart(y, 12) == MonthStart(y, 10) + 61;
  }

  lemma EpochDayNext(d: Date, next: Date)
    requires ValidDate(d) && next == NextDay(d)
    ensures EpochDay(next) == EpochDay(d) + 1
  {
    if d.day == DaysInMonth(d.year, d.month) && d.month == 12 { MonthsFillYear(d.year); }
  }

  lemma CivilCounts(days: int, next: int)
    requires next == days + 1
    ensures EpochDay(CivilFromDays(next)) == EpochDay(CivilFromDays(days)) + 1
  {
    CivilIsValid(days);
    CivilSuccessor(days, next);
    EpochDayNext(CivilFromDays(days), CivilFromDays(next));
  }

  lemma {:induction false} CountsUp(days: nat)
    ensures EpochDay(CivilFromDays(days)) == days
  {
    if days == 0 {
      EpochIsDayZero();
    } else {
      var before := days - 1;
      CountsUp(before);
      CivilCounts(before, days);
    }
  }

  lemma {:induction false} CountsDown(days: int)
    requires days <= 0
    ensures EpochDay(CivilFromDays(days)) == days
    decreases -days
  {
    if days == 0 {
      EpochIsDayZero();
    } else {
      var after := days + 1;
      CountsDown(after);
      CivilCounts(days, after);
    }
  }

  /** The conversion inverts the day count, for every integer day. */
  lemma EpochDayOfCivil(days: int)
    ensures EpochDay(CivilFromDays(days)) == days
  {
    if days >= 0 { CountsUp(days); } else { CountsDown(days); }
  }

  lemma {:induction false} YearStartsIncrease(y: int, z: int)
    requires y < z
    ensures YearStart(y) + DaysInYear(y) <= YearStart(z)
    decreases z - y
  {
    if y + 1 >= z {
    } else {
      YearStartsIncrease(y + 1, z);
    }
  }

  lemma {:induction false} MonthStartsIncrease(y: int, m: int, n: int)
    requires 1 <= m < n
    ensures MonthStart(y, m) + DaysInMonth(y, m) <= MonthStart(y, n)
    decreases n - m
  {
    if m + 1 >= n {
    } else {
      MonthStartsIncrease(y, m, n - 1);
    }
  }

  lemma {:induction false} MonthStartNonNegative(y: int, m: int)
    ensures MonthStart(y, m) >= 0
  {
    if m <= 1 {
    } else {
      MonthStartNonNegative(y, m - 1);
    }
  }

  lemma WithinYear(d: Date)
    requires ValidDate(d)
    ensures 0 <= MonthStart(d.year, d.month) + d.day - 1 < DaysInYear(d.year)
  {
    MonthStartNonNegative(d.year, d.month);
    MonthStartsIncrease(d.year, d.month, 13);
    MonthsFillYear(d.year);
  }

  lemma EpochDayInjective(a: Date, b: Date)
    requires ValidDate(a) && ValidDate(b) && EpochDay(a) == EpochDay(b)
    ensures a == b
  {
    WithinYear(a);
    WithinYear(b);
    if a.year < b.year { YearStartsIncrease(a.year, b.year); }
    if b.year < a.year { YearStartsIncrease(b.year, a.year); }
    if a.month < b.month { MonthStartsIncrease(a.year, a.month, b.month); }
    if b.month < a.month { MonthStartsIncrease(a.year, b.month, a.month); }
  }

  /** ... and every valid date is the conversion of its own day count: a bijection. */
  lemma CivilOfEpochDay(d: Date)
    requires ValidDate(d)
    ensures CivilFromDays(EpochDay(d)) == d
  {
    EpochDayOfCivil(EpochDay(d));
    CivilIsValid(EpochDay(d));
    EpochDayInjective(CivilFromDays(EpochDay(d)), d);
  }

  // ----- printing -----

  /** Zero-padded to a width, the sign counted in it; longer numbers print in full. */
  function Pad(n: int, width: nat): string {
    if n >= 0 then PadNat(n, width)
    else "-" + PadNat(-n, if width > 0 then width - 1 else 0)
  }

  function DatePart(d: Date): string {
    Pad(d.year, 4) + "-" + Pad(d.month, 2) + "-" + Pad(d.day, 2)
  }

  function Clock(h: int, m: int, s: int): string {
    Pad(h, 2) + ":" + Pad(m, 2) + ":" + Pad(s, 2)
  }

  function TimePart(sod: int): string {
    Clock(sod / 3600, sod % 3600 / 60, sod % 60)
  }

  function FormatRfc3339(secs: int): string {
    DatePart(CivilFromDays(secs / 86_400)) + "T" + TimePart(secs % 86_400) + "Z"
  }

  // ----- reading the timestamp back -----

  lemma PadReads(n: nat, width: nat)
    requires width > 0 && n < Pow10(width)
    ensures |Pad(n, width)| == width && Value(Pad(n, width)) == n
  {
    PadNatReads(n, width);
  }

  /** The instant a YYYY-MM-DDTHH:MM:SSZ string names, by adding up calendar lengths. */
  function Instant(s: string): int
    requires |s| == 20
  {
    86_400 * EpochDay(Date(Value(s[..4]), Value(s[5..7]), Value(s[8..10])))
    + 3600 * Value(s[11..13]) + 60 * Value(s[14..16]) + Value(s[17..19])
  }

  ghost predicate Shaped(s: string) {
    |s| == 20 && s[4] == '-' && s[7] == '-' && s[10] == 'T' && s[13] == ':' && s[16] == ':' && s[19] == 'Z'
  }

  lemma DatePartReads(d: Date)
    requires ValidDate(d) && 0 <= d.year <= 9999
    ensures |DatePart(d)| == 10 && DatePart(d)[4] == '-' && DatePart(d)[7] == '-'
    ensures Value(DatePart(d)[..4]) == d.year && Value(DatePart(d)[5..7]) == d.month &&
        Value(DatePart(d)[8..10]) == d.day
  {
    assert Pow10(2) == 100 && Pow10(4) == 10_000;
    PadReads(d.year, 4);
    PadReads(d.month, 2);
    PadReads(d.day, 2);
    var s := DatePart(d);
    assert s[..4] == Pad(d.year, 4) && s[5..7] == Pad(d.month, 2) && s[8..10] == Pad(d.day, 2);
  }

  lemma ClockReads(h: nat, m: nat, s: nat)
    requires h < 100 && m < 100 && s < 100
    ensures |Clock(h, m, s)| == 8 && Clock(h, m, s)[2] == ':' && Clock(h, m, s)[5] == ':'
    ensures Value(Clock(h, m, s)[..2]) == h && Value(Clock(h, m, s)[3..5]) == m && Value(Clock(h, m, s)[6..8]) == s
  {
    assert Pow10(2) == 100;
    PadReads(h, 2);
    PadReads(m, 2);
    PadReads(s, 2);
    var t := Clock(h, m, s);
    assert t[..2] == Pad(h, 2) && t[3..5] == Pad(m, 2) && t[6..8] == Pad(s, 2);
  }

  lemma TimeFields(sod: int, h: int, m: int, s: int)
    requires 0 <= sod < 86_400 && h == sod / 3600 && m == sod % 3600 / 60 && s == sod % 60
    ensures 0 <= h < 24 && 0 <= m < 60 && 0 <= s < 60 && 3600 * h + 60 * m + s == sod
  {
    assert sod % 3600 % 60 == s;
  }

  lemma TimePartReads(sod: int)
    requires 0 <= sod < 86_400
    ensures |TimePart(sod)| == 8 && TimePart(sod)[2] == ':' && TimePart(sod)[5] == ':'
    ensures 3600 * Value(TimePart(sod)[..2]) + 60 * Value(TimePart(sod)[3..5]) + Value(TimePart(sod)[6..8]) == sod
  {
    var h, m, s := sod / 3600, sod % 3600 / 60, sod % 60;
    TimeFields(sod, h, m, s);
    ClockReads(h, m, s);
  }

  /** For years 0000 to 9999 the printed string has the RFC 3339 shape and names
      exactly the instant it was printed from. */
  lemma FormatNamesInstant(secs: int)
    requires 0 <= CivilFromDays(secs / 86_400).year <= 9999
    ensures Shaped(FormatRfc3339(secs)) && Instant(FormatRfc3339(secs)) == secs
  {
    var d, sod := CivilFromDays(secs / 86_400), secs % 86_400;
    CivilIsValid(secs / 86_400);
    EpochDayOfCivil(secs / 86_400);
    PrintedInstant(d, sod);
  }

  lemma DateFields(a: string, rest: string, s: string)
    requires |a| == 10 && s == a + rest
    ensures s[..4] == a[..4] && s[5..7] == a[5..7] && s[8..10] == a[8..10] && s[4] == a[4] && s[7] == a[7]
  {
  }

  lemma ClockFields(front: string, b: string, rest: string, s: string)
    requires |front| == 11 && |b| == 8 && s == front + b + rest
    ensures s[11..13] == b[..2] && s[14..16] == b[3..5] && s[17..19] == b[6..8] && s[13] == b[2] && s[16] == b[5]
  {
  }

  lemma PrintedInstant(d: Date, sod: int)
    requires ValidDate(d) && 0 <= d.year <= 9999 && 0 <= sod < 86_400
    ensures var s := DatePart(d) + "T" + TimePart(sod) + "Z";
            Shaped(s) && Instant(s) == 86_400 * EpochDay(d) + sod
  {
    DatePartReads(d);
    TimePartReads(sod);
    var a, b := DatePart(d), TimePart(sod);
    var s := a + "T" + b + "Z";
    DateFields(a, "T" + b + "Z", s);
    ClockFields(a + "T", b, "Z", s);
  }
}
