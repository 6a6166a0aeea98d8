/** Day number to Gregorian date, and the RFC 3339 timestamp printed from it. */
module Calendar {
  import opened Num

  datatype Date = Date(year: int, month: int, day: int)

  // ----- the proleptic Gregorian calendar -----

  predicate IsLeap(y: int) {
    y % 4 == 0 && (y % 100 != 0 || y % 400 == 0)
  }

  function DaysInMonth(y: int, m: int): int {
    if m == 2 then (if IsLeap(y) then 29 else 28)
    else if m == 4 || m == 6 || m == 9 || m == 11 then 30
    else 31
  }

  predicate ValidDate(d: Date) {
    1 <= d.month <= 12 && 1 <= d.day <= DaysInMonth(d.year, d.month)
  }

  function NextDay(d: Date): Date {
    if d.day < DaysInMonth(d.year, d.month) then Date(d.year, d.month, d.day + 1)
    else if d.month < 12 then Date(d.year, d.month + 1, 1)
    else Date(d.year + 1, 1, 1)
  }

  // ----- the conversion -----

  function YearOfEra(doe: int): int {
    (doe - doe / 1460 + doe / 36_524 - doe / 146_096) / 365
  }

  /** Days of an era before its March-based year y. */
  function YearStartInEra(y: int): int {
    365 * y + y / 4 - y / 100
  }

  function CivilFromDays(days: int): Date {
    CivilOfEra(EraOf(days + 719_468), days + 719_468 - EraOf(days + 719_468) * 146_097)
  }

  function EraOf(shifted: int): int {
    TruncDiv(if shifted >= 0 then shifted else shifted - 146_096, 146_097)
  }

  function CivilOfEra(era: int, doe: int): Date {
    var yoe := YearOfEra(doe);
    var doy := doe - YearStartInEra(yoe);
    MonthDay(yoe + era * 400, doy)
  }

  /** Month and day of a March-based day of year. */
  function MonthDay(year: int, doy: int): Date {
    var mp := (5 * doy + 2) / 153;
    var day := doy - (153 * mp + 2) / 5 + 1;
    var month := if mp < 10 then mp + 3 else mp - 9;
    Date(if month <= 2 then year + 1 else year, month, day)
  }

  // ----- the era decomposition -----

  /** Length of March-based year y: 366 when the February it ends with is leap. */
  function YearLength(y: int): int {
    if IsLeap(y + 1) then 366 else 365
  }

  /** The biased truncating division is the floor. */
  lemma EraIsFloor(shifted: int, era: int, doe: int)
    requires 0 <= doe < 146_097 && shifted == 146_097 * era + doe
    ensures EraOf(shifted) == era
  {
  }

  /** Centuries, four-year cycles, years and days of an era. */
  ghost predicate EraParts(doe: int, c: int, q: int, t: int, u: int) {
    && 0 <= c < 4 && 0 <= q < 25 && 0 <= t < 4 && 0 <= u
    && u < (if t == 3 && (q < 24 || c == 3) then 366 else 365)
    && doe == 36_524 * c + 1_461 * q + 365 * t + u
  }

  lemma EraPartsExist(doe: int) returns (c: int, q: int, t: int, u: int)
    requires 0 <= doe < 146_097
    ensures EraParts(doe, c, q, t, u)
  {
    c := Min(doe / 36_524, 3);
    var r := doe - 36_524 * c;
    q := r / 1_461;
    t := Min((r - 1_461 * q) / 365, 3);
    u := r - 1_461 * q - 365 * t;
  }

  lemma CenturiesSoFar(doe: int, c: int, q: int, t: int, u: int)
    requires EraParts(doe, c, q, t, u)
    ensures doe / 36_524 - doe / 146_096 == c
  {
  }

  lemma CyclesSoFar(doe: int, c: int, q: int, t: int, u: int)
    requires EraParts(doe, c, q, t, u)
    ensures doe / 1_460 == 25 * c + q + if 24 * c + q + 365 * t + u >= 1_460 then 1 else 0
  {
  }

  lemma YearOfEraIs(doe: int, c: int, q: int, t: int, u: int)
    requires EraParts(doe, c, q, t, u)
    ensures YearOfEra(doe) == 100 * c + 4 * q + t
  {
    CenturiesSoFar(doe, c, q, t, u);
    CyclesSoFar(doe, c, q, t, u);
    var k := if 24 * c + q + 365 * t + u >= 1_460 then 1 else 0;
    assert 0 <= u - k < 365;
    assert doe - doe / 1_460 + doe / 36_524 - doe / 146_096 == 365 * (100 * c + 4 * q + t) + (u - k);
  }

  lemma YearStartIs(c: int, q: int, t: int)
    requires 0 <= c < 4 && 0 <= q < 25 && 0 <= t < 4
    ensures YearStartInEra(100 * c + 4 * q + t) == 36_524 * c + 1_461 * q + 365 * t
    ensures YearLength(100 * c + 4 * q + t) == if t == 3 && (q < 24 || c == 3) then 366 else 365
  {
    var y := 100 * c + 4 * q + t;
    assert y / 4 == 25 * c + q && y / 100 == c;
  }

  /** The conversion's year of era is in range and its day of year fits that year. */
  lemma YearOfEraFits(doe: int)
    requires 0 <= doe < 146_097
    ensures 0 <= YearOfEra(doe) < 400
    ensures 0 <= doe - YearStartInEra(YearOfEra(doe)) < YearLength(YearOfEra(doe))
  {
    var c, q, t, u := EraPartsExist(doe);
    YearOfEraIs(doe, c, q, t, u);
    YearStartIs(c, q, t);
  }

  /** Where one March-based year ends the next begins; an era is 400 of them. */
  lemma YearsAbut(y: int)
    requires 0 <= y < 400
    ensures y < 399 ==> YearStartInEra(y + 1) == YearStartInEra(y) + YearLength(y)
    ensures y == 399 ==> YearStartInEra(y) + YearLength(y) == 146_097
  {
  }

  lemma {:induction false} YearStartsRise(y: int, z: int)
    requires 0 <= y < z < 400
    ensures YearStartInEra(y) + YearLength(y) <= YearStartInEra(z)
    decreases z - y
  {
    YearsAbut(y);
    if y + 1 >= z {
    } else {
      YearStartsRise(y + 1, z);
    }
  }

  /** The year of era is the only one whose span holds the day. */
  lemma YearOfEraUnique(doe: int, y: int)
    requires 0 <= doe < 146_097 && 0 <= y < 400
    requires YearStartInEra(y) <= doe < YearStartInEra(y) + YearLength(y)
    ensures YearOfEra(doe) == y
  {
    YearOfEraFits(doe);
    var z := YearOfEra(doe);
    if z < y { YearStartsRise(z, y); }
    if y < z { YearStartsRise(y, z); }
  }

  lemma SpanInEra(yoe: int)
    requires 0 <= yoe < 400
    ensures 0 <= YearStartInEra(yoe) && YearStartInEra(yoe) + YearLength(yoe) <= 146_097
    ensures YearStartInEra(yoe) + YearLength(yoe) == 146_097 ==> yoe == 399
  {
    YearsAbut(yoe);
    YearsAbut(399);
    if yoe < 399 { YearStartsRise(yoe, 399); }
    if 0 < yoe { YearStartsRise(0, yoe); }
  }

  /** Day doe of an era is day doy of its March-based year. */
  ghost predicate Placed(era: int, doe: int, year: int, yoe: int, doy: int) {
    0 <= yoe < 400 && 0 <= doy < YearLength(yoe) && doe == YearStartInEra(yoe) + doy && year == yoe + era * 400
  }

  lemma CivilOfPlaced(era: int, doe: int, year: int, yoe: int, doy: int)
    requires Placed(era, doe, year, yoe, doy)
    ensures CivilOfEra(era, doe) == MonthDay(year, doy)
  {
    SpanInEra(yoe);
    YearOfEraUnique(doe, yoe);
  }

  lemma PlacedExists(era: int, doe: int) returns (year: int, yoe: int, doy: int)
    requires 0 <= doe < 146_097
    ensures Placed(era, doe, year, yoe, doy)
  {
    YearOfEraFits(doe);
    yoe := YearOfEra(doe);
    doy := doe - YearStartInEra(yoe);
    year := yoe + era * 400;
  }

  lemma SameDay(era: int, doe: int, e: int, d: int)
    requires e == era && d == doe
    ensures CivilOfEra(e, d) == CivilOfEra(era, doe)
  {
  }

  ghost predicate Shifted(days: int, era: int, doe: int) {
    0 <= doe < 146_097 && days + 719_468 == 146_097 * era + doe
  }

  lemma ShiftedExists(days: int) returns (era: int, doe: int)
    ensures Shifted(days, era, doe)
  {
    era, doe := (days + 719_468) / 146_097, (days + 719_468) % 146_097;
  }

  lemma CivilSplits(days: int, era: int, doe: int)
    requires Shifted(days, era, doe)
    ensures CivilFromDays(days) == CivilOfEra(era, doe)
  {
    EraIsFloor(days + 719_468, era, doe);
    SameDay(era, doe, EraOf(days + 719_468), days + 719_468 - EraOf(days + 719_468) * 146_097);
  }

  // ----- months -----

  lemma SameModulo4(y: int, era: int)
    ensures (y + era * 400) % 4 == y % 4
  {
    assert y + era * 400 == y + 4 * (100 * era);
  }

  lemma SameModulo100(y: int, era: int)
    ensures (y + era * 400) % 100 == y % 100
  {
    assert y + era * 400 == y + 100 * (4 * era);
  }

  lemma SameModulo400(y: int, era: int)
    ensures (y + era * 400) % 400 == y % 400
  {
  }

  lemma YearLengthOfEra(yoe: int, era: int)
    ensures YearLength(yoe + era * 400) == YearLength(yoe)
  {
    SameModulo4(yoe + 1, era);
    SameModulo100(yoe + 1, era);
    SameModulo400(yoe + 1, era);
  }

  lemma MonthDayValid(year: int, doy: int)
    requires 0 <= doy < YearLength(year)
    ensures ValidDate(MonthDay(year, doy))
  {
  }

  lemma WithinMonth(year: int, doy: int)
    requires 0 <= doy && doy + 1 < YearLength(year) && (5 * doy + 7) / 153 == (5 * doy + 2) / 153
    ensures MonthDay(year, doy + 1) == NextDay(MonthDay(year, doy))
  {
  }

  lemma AcrossMonths(year: int, doy: int)
    requires 0 <= doy && doy + 1 < YearLength(year) && (5 * doy + 7) / 153 != (5 * doy + 2) / 153
    ensures MonthDay(year, doy + 1) == NextDay(MonthDay(year, doy))
  {
  }

  /** Inside a March-based year the next day of year is the next date. */
  lemma MonthDayNext(year: int, doy: int, next: int)
    requires 0 <= doy && next == doy + 1 < YearLength(year)
    ensures MonthDay(year, next) == NextDay(MonthDay(year, doy))
  {
    if (5 * doy + 7) / 153 == (5 * doy + 2) / 153 {
      WithinMonth(year, doy);
    } else {
      AcrossMonths(year, doy);
    }
  }

  /** After the last day of February comes March 1st. */
  lemma MonthDayWraps(year: int, next: int, last: int)
    requires next == year + 1 && last == YearLength(year) - 1
    ensures MonthDay(next, 0) == NextDay(MonthDay(year, last))
  {
  }

  // ----- the theorems -----

  lemma EpochIsDayZero()
    ensures CivilFromDays(0) == Date(1970, 1, 1)
  {
  }

  lemma NextInYear(era: int, doe: int, next: int, year: int, yoe: int, doy: int, doyNext: int)
    requires Placed(era, doe, year, yoe, doy) && Placed(era, next, year, yoe, doyNext) && doyNext == doy + 1
    ensures CivilOfEra(era, next) == NextDay(CivilOfEra(era, doe))
  {
    CivilOfPlaced(era, doe, year, yoe, doy);
    CivilOfPlaced(era, next, year, yoe, doyNext);
    YearLengthOfEra(yoe, era);
    MonthDayNext(year, doy, doyNext);
  }

  lemma NextYear(era: int, doe: int, eraNext: int, next: int, year: int, yearNext: int, yoe: int, yoeNext: int,
                 last: int)
    requires Placed(era, doe, year, yoe, last) && last == YearLength(yoe) - 1
    requires Placed(eraNext, next, yearNext, yoeNext, 0) && yearNext == year + 1
    ensures CivilOfEra(eraNext, next) == NextDay(CivilOfEra(era, doe))
  {
    CivilOfPlaced(era, doe, year, yoe, last);
    CivilOfPlaced(eraNext, next, yearNext, yoeNext, 0);
    YearLengthOfEra(yoe, era);
    MonthDayWraps(year, yearNext, last);
  }

  lemma NextInEra(era: int, doe: int, next: int)
    requires 0 <= doe < 146_096 && next == doe + 1
    ensures CivilOfEra(era, next) == NextDay(CivilOfEra(era, doe))
  {
    var year, yoe, doy := PlacedExists(era, doe);
    SpanInEra(yoe);
    YearsAbut(yoe);
    if doy + 1 < YearLength(yoe) {
      NextInYear(era, doe, next, year, yoe, doy, doy + 1);
    } else {
      NextYear(era, doe, era, next, year, year + 1, yoe, yoe + 1, doy);
    }
  }

  lemma NextEra(era: int, eraNext: int)
    requires eraNext == era + 1
    ensures CivilOfEra(eraNext, 0) == NextDay(CivilOfEra(era, 146_096))
  {
    YearsAbut(399);
    NextYear(era, 146_096, eraNext, 0, 399 + era * 400, eraNext * 400, 399, 0, 365);
  }

  /** Every day number converts to a valid date. */
  lemma CivilIsValid(days: int)
    ensures ValidDate(CivilFromDays(days))
  {
    var era, doe := ShiftedExists(days);
    CivilSplits(days, era, doe);
    var year, yoe, doy := PlacedExists(era, doe);
    CivilOfPlaced(era, doe, year, yoe, doy);
    YearLengthOfEra(yoe, era);
    MonthDayValid(year, doy);
  }

  lemma SuccessorInEra(days: int, next: int, era: int, doe: int, doeNext: int)
    requires Shifted(days, era, doe) && Shifted(next, era, doeNext) && doeNext == doe + 1
    ensures CivilFromDays(next) == NextDay(CivilFromDays(days))
  {
    CivilSplits(days, era, doe);
    CivilSplits(next, era, doeNext);
    NextInEra(era, doe, doeNext);
  }

  lemma SuccessorAcrossEras(days: int, next: int, era: int, eraNext: int)
    requires Shifted(days, era, 146_096) && Shifted(next, eraNext, 0) && eraNext == era + 1
    ensures CivilFromDays(next) == NextDay(CivilFromDays(days))
  {
    CivilSplits(days, era, 146_096);
    CivilSplits(next, eraNext, 0);
    NextEra(era, eraNext);
  }

  /** Consecutive day numbers are consecutive calendar days. */
  lemma CivilSuccessor(days: int, next: int)
    requires next == days + 1
    ensures CivilFromDays(next) == NextDay(CivilFromDays(days))
  {
    var era, doe := ShiftedExists(days);
    if doe < 146_096 {
      SuccessorInEra(days, next, era, doe, doe + 1);
    } else {
      SuccessorAcrossEras(days, next, era, era + 1);
    }
  }
}
