/**
 * Days since 1970-01-01 as Gregorian dates: the `civil_from_days` the service carries in three
 * places, against a day count defined from the calendar rules alone.
 */
module Calendar {

  /** Division that truncates toward zero, as on signed machine integers. */
  function TruncDiv(a: int, b: int): int
    requires b > 0
  {
    if a >= 0 then a / b else -((-a) / b)
  }

  datatype Date = Date(year: int, month: int, day: int)

  /** The unsigned intermediate values of the algorithm, before year and month are adjusted. */
  function DayOfEra(days: int): int {
    var z := days + 719_468;
    var era := TruncDiv(if z >= 0 then z else z - 146_096, 146_097);
    z - era * 146_097
  }

  function YearOfEra(doe: int): int {
    (doe - doe / 1460 + doe / 36_524 - doe / 146_096) / 365
  }

  function DayOfYear(doe: int): int {
    var yoe := YearOfEra(doe);
    doe - (365 * yoe + yoe / 4 - yoe / 100)
  }

  /** `civil_from_days`. */
  function CivilFromDays(days: int): Date {
    var z := days + 719_468;
    var era := TruncDiv(if z >= 0 then z else z - 146_096, 146_097);
    var doe := z - era * 146_097;
    var yoe := YearOfEra(doe);
    var year := yoe + era * 400;
    var doy := DayOfYear(doe);
    var mp := (5 * doy + 2) / 153;
    var day := doy - (153 * mp + 2) / 5 + 1;
    var month := if mp < 10 then mp + 3 else mp - 9;
    Date(if month <= 2 then year + 1 else year, month, day)
  }

  // ----- the calendar -----

  predicate IsLeap(year: int) {
    year % 4 == 0 && (year % 100 != 0 || year % 400 == 0)
  }

  function DaysInMonth(year: int, month: int): int
    requires 1 <= month <= 12
  {
    if month == 2 then (if IsLeap(year) then 29 else 28)
    else if month == 4 || month == 6 || month == 9 || month == 11 then 30 else 31
  }

  predicate ValidDate(d: Date) {
    1 <= d.month <= 12 && 1 <= d.day <= DaysInMonth(d.year, d.month)
  }

  /** Days from 1 January of year 1 to 1 January of `year`; negative before year 1. */
  function DaysBeforeYear(year: int): int {
    var y := year - 1;
    365 * y + y / 4 - y / 100 + y / 400
  }

  function DaysBeforeMonth(year: int, month: int): int
    requires 1 <= month <= 12
    decreases month
  {
    if month == 1 then 0 else DaysBeforeMonth(year, month - 1) + DaysInMonth(year, month - 1)
  }

  const EPOCH_DAY := 719_162

  /** The number of the day `d`, counted from 1970-01-01. */
  function DaysFromCivil(d: Date): int
    requires ValidDate(d)
  {
    DaysBeforeYear(d.year) + DaysBeforeMonth(d.year, d.month) + d.day - 1 - EPOCH_DAY
  }

  function Successor(d: Date): Date
    requires ValidDate(d)
  {
    if d.day < DaysInMonth(d.year, d.month) then Date(d.year, d.month, d.day + 1)
    else if d.month < 12 then Date(d.year, d.month + 1, 1)
    else Date(d.year + 1, 1, 1)
  }

  // ----- the era: centuries, four-year groups, years, days -----

  /** A day of the 400-year era: `doe == 36524 k + 1461 g + 365 j + doy`. */
  datatype EraDay = EraDay(k: int, g: int, j: int, doy: int)

  predicate IsEraDay(e: EraDay, doe: int) {
    && 0 <= e.k <= 3 && 0 <= e.g <= 24 && 0 <= e.j <= 3 && 0 <= e.doy <= 365
    && (e.doy == 365 ==> e.j == 3 && (e.g == 24 ==> e.k == 3))
    && doe == 36_524 * e.k + 1461 * e.g + 365 * e.j + e.doy
  }

  lemma SplitEra(doe: int) returns (e: EraDay)
    requires 0 <= doe < 146_097
    ensures IsEraDay(e, doe)
  {
    var k := if doe == 146_096 then 3 else doe / 36_524;
    var r := doe - 36_524 * k;
    var g, t := r / 1461, r % 1461;
    var j := if t == 1460 then 3 else t / 365;
    e := EraDay(k, g, j, t - 365 * j);
  }

  /** The three corrections of the year formula, on the parts of the day. */
  lemma Corrections(e: EraDay, doe: int)
    requires IsEraDay(e, doe)
    ensures doe == 146_096 ==>
              doe / 1460 == 100 && doe / 36_524 == 4 && doe / 146_096 == 1 && e == EraDay(3, 24, 3, 365)
    ensures doe < 146_096 ==> doe / 36_524 == e.k && doe / 146_096 == 0
    ensures doe < 146_096 ==>
      var t := 365 * e.j + e.doy;
      doe / 1460 == 25 * e.k + e.g + if t + e.g + 24 * e.k >= 1460 then 1 else 0
  {
  }

  /** The year formula and the day of the year, in terms of the parts. */
  lemma YearOfParts(e: EraDay, doe: int)
    requires IsEraDay(e, doe)
    ensures YearOfEra(doe) == 100 * e.k + 4 * e.g + e.j && DayOfYear(doe) == e.doy
  {
    Corrections(e, doe);
    var t := 365 * e.j + e.doy;
    var late := if doe < 146_096 && t + e.g + 24 * e.k >= 1460 then 1 else 0;
    var n := doe - doe / 1460 + doe / 36_524 - doe / 146_096;
    if doe < 146_096 {
      assert n == 365 * (100 * e.k + 4 * e.g + e.j) + e.doy - late;
      assert late == 1 ==> e.j == 3 && e.doy >= 1;
    }
    var y := 100 * e.k + 4 * e.g + e.j;
    assert y / 4 == 25 * e.k + e.g && y / 100 == e.k;
  }

  lemma EraOfDay(days: int)
    ensures 0 <= DayOfEra(days) < 146_097 && (days + 719_468 - DayOfEra(days)) % 146_097 == 0
  {
  }

  /**
   * None of the unsigned subtractions goes below zero, and the years and days stay in range,
   * for every day number.
   */
  lemma NoUnderflow(days: int)
    ensures
      var doe := DayOfEra(days);
      && 0 <= doe && doe / 1460 <= doe && doe / 146_096 <= doe - doe / 1460 + doe / 36_524
      && 0 <= YearOfEra(doe) < 400 && 0 <= DayOfYear(doe) <= 365
      && var mp := (5 * DayOfYear(doe) + 2) / 153;
      && 0 <= mp < 12 && (153 * mp + 2) / 5 <= DayOfYear(doe) && 1 <= (if mp < 10 then mp + 3 else mp - 9) <= 12
  {
    EraOfDay(days);
    var doe := DayOfEra(days);
    var e := SplitEra(doe);
    YearOfParts(e, doe);
    MonthOfDay(e.doy);
  }

  // ----- months -----

  function MarchMonthLength(mp: int): int {
    if mp == 11 then 29 else if mp == 1 || mp == 3 || mp == 6 || mp == 8 then 30 else 31
  }

  /** Month and day from the day of a year that begins in March. */
  lemma MonthOfDay(doy: int)
    requires 0 <= doy <= 365
    ensures
      var mp := (5 * doy + 2) / 153;
      var day := doy - (153 * mp + 2) / 5 + 1;
      && 0 <= mp < 12 && 1 <= day <= MarchMonthLength(mp) && (mp == 11 && day == 29 ==> doy == 365)
  {
  }

  lemma {:induction false} DaysBeforeMonthIs(year: int, month: int)
    requires 1 <= month <= 12
    ensures DaysBeforeMonth(year, month) ==
      if month == 1 then 0 else if month == 2 then 31
      else 59 + (153 * (month - 3) + 2) / 5 + if IsLeap(year) then 1 else 0
    decreases month
  {
    if month > 1 {
      DaysBeforeMonthIs(year, month - 1);
    }
  }

  lemma QuotientSteps(y: int)
    ensures (y - 1) / 4 == y / 4 - (if y % 4 == 0 then 1 else 0)
    ensures (y - 1) / 100 == y / 100 - (if y % 100 == 0 then 1 else 0)
    ensures (y - 1) / 400 == y / 400 - (if y % 400 == 0 then 1 else 0)
  {
  }

  lemma CenturyDivides(y: int)
    ensures (y % 400 == 0 ==> y % 100 == 0) && (y % 100 == 0 ==> y % 4 == 0)
  {
    assert y % 100 == 0 ==> y == 4 * (25 * (y / 100));
    assert y % 400 == 0 ==> y == 100 * (4 * (y / 400));
  }

  /** Days before the year that starts in March of year `y`, from 1 March of year 0. */
  function MarchYears(y: int): int {
    365 * y + y / 4 - y / 100 + y / 400
  }

  /** Counting years from March puts the leap day last. */
  lemma DaysBeforeYearIs(y: int)
    ensures DaysBeforeYear(y + 1) == MarchYears(y)
    ensures DaysBeforeYear(y) + (if IsLeap(y) then 1 else 0) == MarchYears(y) - 365
  {
    QuotientSteps(y);
    CenturyDivides(y);
  }

  lemma YearsOfEras(era: int, e: EraDay, doe: int)
    requires IsEraDay(e, doe)
    ensures
      var y := 100 * e.k + 4 * e.g + e.j + 400 * era;
      && MarchYears(y) == 146_097 * era + doe - e.doy
      && (e.doy == 365 ==> IsLeap(y + 1))
  {
    var y := 100 * e.k + 4 * e.g + e.j + 400 * era;
    hide MarchYears, IsLeap;
    QuotientsOfParts(25 * e.k + e.g + 100 * era, e.j, e.k + 4 * era, 4 * e.g + e.j, era, 100 * e.k + 4 * e.g + e.j);
    MarchYearsOf(y, 25 * e.k + e.g + 100 * era, e.k + 4 * era, era);
    if e.doy == 365 {
      LastDayIsLeap(y, e);
    }
  }

  lemma MarchYearsOf(y: int, q4: int, q100: int, q400: int)
    requires y / 4 == q4 && y / 100 == q100 && y / 400 == q400
    ensures MarchYears(y) == 365 * y + q4 - q100 + q400
  {
  }

  lemma LastDayIsLeap(y: int, e: EraDay)
    requires y % 4 == e.j && y % 100 == 4 * e.g + e.j && y % 400 == 100 * e.k + 4 * e.g + e.j
    requires e.j == 3 && 0 <= e.g <= 24 && 0 <= e.k <= 3 && (e.g == 24 ==> e.k == 3)
    ensures IsLeap(y + 1)
  {
    NextModulo(y, 4);
    NextModulo(y, 100);
    NextModulo(y, 400);
  }

  lemma NextModulo(y: int, m: int)
    requires m == 4 || m == 100 || m == 400
    ensures (y + 1) % m == if y % m == m - 1 then 0 else y % m + 1
  {
  }

  lemma QuotientsOfParts(q4: int, r4: int, q100: int, r100: int, q400: int, r400: int)
    requires 0 <= r4 < 4 && 0 <= r100 < 100 && 0 <= r400 < 400
    requires 4 * q4 + r4 == 100 * q100 + r100 == 400 * q400 + r400
    ensures
      var y := 4 * q4 + r4;
      y / 4 == q4 && y / 100 == q100 && y / 400 == q400 && y % 4 == r4 && y % 100 == r100 && y % 400 == r400
  {
  }

  /** Day `doy` of the year that starts in March of year `y`, as a date. */
  function MarchDate(y: int, doy: int): Date {
    var mp := (5 * doy + 2) / 153;
    var month := if mp < 10 then mp + 3 else mp - 9;
    Date(if month <= 2 then y + 1 else y, month, doy - (153 * mp + 2) / 5 + 1)
  }

  lemma MarchDateIsRight(y: int, doy: int)
    requires 0 <= doy <= 365 && (doy == 365 ==> IsLeap(y + 1))
    ensures ValidDate(MarchDate(y, doy)) && DaysFromCivil(MarchDate(y, doy)) == MarchYears(y) + doy - 719_468
  {
    MonthOfDay(doy);
    var d := MarchDate(y, doy);
    hide IsLeap;
    assert ValidDate(d);
    DaysBeforeYearIs(y);
    DaysBeforeMonthIs(d.year, d.month);
    hide MarchYears, DaysBeforeYear, DaysBeforeMonth, DaysInMonth;
  }

  function EraOf(days: int): int {
    var z := days + 719_468;
    TruncDiv(if z >= 0 then z else z - 146_096, 146_097)
  }

  lemma DayOfEraIs(days: int)
    ensures days + 719_468 == 146_097 * EraOf(days) + DayOfEra(days) && 0 <= DayOfEra(days) < 146_097
  {
  }

  /** The algorithm, on the parts of the day. */
  lemma CivilIsMarchDate(days: int)
    ensures
      var doe := DayOfEra(days);
      CivilFromDays(days) == MarchDate(YearOfEra(doe) + EraOf(days) * 400, DayOfYear(doe))
  {
    hide YearOfEra, DayOfYear, TruncDiv;
  }

  /** The date of a day is a date of the Gregorian calendar, and its number is that day. */
  lemma CivilIsRight(days: int)
    ensures ValidDate(CivilFromDays(days)) && DaysFromCivil(CivilFromDays(days)) == days
  {
    hide CivilFromDays, MarchDate, MarchYears, DaysFromCivil, ValidDate, YearOfEra, DayOfYear, IsLeap, EraOf, DayOfEra;
    var era, doe := EraOf(days), DayOfEra(days);
    DayOfEraIs(days);
    var e := SplitEra(doe);
    YearOfParts(e, doe);
    YearsOfEras(era, e, doe);
    CivilIsMarchDate(days);
    MarchDateIsRight(100 * e.k + 4 * e.g + e.j + 400 * era, e.doy);
  }

  // ----- the count is one-to-one -----

  predicate EarlierDate(a: Date, b: Date) {
    || a.year < b.year
    || (a.year == b.year && a.month < b.month)
    || (a.year == b.year && a.month == b.month && a.day < b.day)
  }

  lemma {:induction false} MonthsGrow(year: int, m1: int, m2: int)
    requires 1 <= m1 < m2 <= 12
    ensures DaysBeforeMonth(year, m1) + DaysInMonth(year, m1) <= DaysBeforeMonth(year, m2)
    decreases m2
  {
    if m1 < m2 - 1 {
      MonthsGrow(year, m1, m2 - 1);
    }
  }

  lemma YearsGrow(y1: int, y2: int)
    requires y1 < y2
    ensures DaysBeforeYear(y1 + 1) <= DaysBeforeYear(y2)
  {
  }

  lemma YearLength(year: int)
    ensures DaysBeforeYear(year + 1) == DaysBeforeYear(year) + DaysBeforeMonth(year, 12) + 31
  {
    DaysBeforeMonthIs(year, 12);
    DaysBeforeYearIs(year);
  }

  lemma InsideYear(d: Date)
    requires ValidDate(d)
    ensures 0 <= DaysBeforeMonth(d.year, d.month)
    ensures DaysBeforeMonth(d.year, d.month) + d.day <= DaysBeforeMonth(d.year, 12) + 31
  {
    DaysBeforeMonthIs(d.year, d.month);
    if d.month < 12 {
      MonthsGrow(d.year, d.month, 12);
    }
  }

  /** Later dates have larger numbers. */
  lemma CountGrows(a: Date, b: Date)
    requires ValidDate(a) && ValidDate(b) && EarlierDate(a, b)
    ensures DaysFromCivil(a) < DaysFromCivil(b)
  {
    InsideYear(a);
    InsideYear(b);
    if a.year < b.year {
      YearLength(a.year);
      YearsGrow(a.year, b.year);
    } else if a.month < b.month {
      MonthsGrow(a.year, a.month, b.month);
    }
  }

  /** `civil_from_days` undoes the day count on every date, of any year. */
  lemma CivilOfCount(d: Date)
    requires ValidDate(d)
    ensures CivilFromDays(DaysFromCivil(d)) == d
  {
    var c := CivilFromDays(DaysFromCivil(d));
    CivilIsRight(DaysFromCivil(d));
    hide CivilFromDays, DaysFromCivil;
    if EarlierDate(c, d) {
      CountGrows(c, d);
    } else if EarlierDate(d, c) {
      CountGrows(d, c);
    }
  }

  /** The next day is the next date, across months, leap days, centuries and eras. */
  lemma NextDayIsNextDate(days: int)
    ensures ValidDate(CivilFromDays(days)) && ValidDate(Successor(CivilFromDays(days)))
    ensures CivilFromDays(days + 1) == Successor(CivilFromDays(days))
  {
    CivilIsRight(days);
    var d := CivilFromDays(days);
    hide CivilFromDays;
    if d.month == 12 {
      YearLength(d.year);
    }
    CivilOfCount(Successor(d));
  }

  lemma EpochIsDayZero()
    ensures CivilFromDays(0) == Date(1970, 1, 1)
  {
    CivilOfCount(Date(1970, 1, 1));
    assert DaysFromCivil(Date(1970, 1, 1)) == 0;
  }

  /** Day 0 is 1 January 1970, and dates grow with days. */
  lemma CivilGrows(a: int, b: int)
    requires a < b
    ensures EarlierDate(CivilFromDays(a), CivilFromDays(b)) && CivilFromDays(0) == Date(1970, 1, 1)
  {
    EpochIsDayZero();
    CivilIsRight(a);
    CivilIsRight(b);
    hide CivilFromDays, DaysFromCivil, ValidDate;
    var c, d := CivilFromDays(a), CivilFromDays(b);
    if EarlierDate(d, c) {
      CountGrows(d, c);
    }
  }
}
