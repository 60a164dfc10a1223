// Calendar arithmetic of the desktop shell: `civil_from_days` turns a day number into a date by a
// closed formula. It agrees with the Gregorian calendar on every day, before and after 1970.
module Calendar {

  datatype Date = Date(year: int, month: int, day: int)

  // ---------------------------------------------------------------- the Gregorian calendar

  predicate IsLeap(y: int) {
    y % 4 == 0 && (y % 100 != 0 || y % 400 == 0)
  }

  function DaysInMonth(y: int, m: int): int {
    if m == 2 then (if IsLeap(y) then 29 else 28)
    else if m == 4 || m == 6 || m == 9 || m == 11 then 30
    else 31
  }

  predicate ValidDate(d: Date) {
    1 <= d.month <= 12 && 1 <= d.day <= DaysInMonth(d.year, d.month)
  }

  function NextDate(d: Date): Date {
    if d.day < DaysInMonth(d.year, d.month) then d.(day := d.day + 1)
    else if d.month < 12 then Date(d.year, d.month + 1, 1)
    else Date(d.year + 1, 1, 1)
  }

  /** Days from 0001-01-01 to the first day of year `y`, negative before it. */
  function DaysBeforeYear(y: int): int {
    365 * (y - 1) + (y - 1) / 4 - (y - 1) / 100 + (y - 1) / 400
  }

  function DaysBeforeMonth(y: int, m: int): int
    requires 1 <= m <= 12
  {
    if m == 1 then 0 else DaysBeforeMonth(y, m - 1) + DaysInMonth(y, m - 1)
  }

  const EPOCH := Date(1970, 1, 1)

  /** Days since 1970-01-01, by counting years, months and days. */
  function DaysFromCivil(d: Date): int
    requires ValidDate(d)
  {
    DaysBeforeYear(d.year) + DaysBeforeMonth(d.year, d.month) + d.day - 1 - DaysBeforeYear(1970)
  }

  /** The year count is the calendar's: a leap year has 366 days, any other 365. */
  lemma YearLength(y: int)
    ensures DaysBeforeYear(y + 1) - DaysBeforeYear(y) == if IsLeap(y) then 366 else 365
  {
    assert y / 4 - (y - 1) / 4 == if y % 4 == 0 then 1 else 0;
    assert y / 100 - (y - 1) / 100 == if y % 100 == 0 then 1 else 0;
    assert y / 400 - (y - 1) / 400 == if y % 400 == 0 then 1 else 0;
    HundredsAndFours(y);
  }

  lemma HundredsAndFours(y: int)
    ensures y % 100 == 0 ==> y % 4 == 0
    ensures y % 400 == 0 ==> y % 100 == 0
  {
    if y % 100 == 0 {
      Multiple(4, y, 25 * (y / 100));
    }
    if y % 400 == 0 {
      Multiple(100, y, 4 * (y / 400));
    }
  }

  lemma Multiple(d: int, y: int, k: int)
    requires (d == 4 || d == 100) && y == d * k
    ensures y % d == 0
  {
  }

  lemma MonthTable(y: int)
    ensures var leap := if IsLeap(y) then 1 else 0;
      && DaysBeforeMonth(y, 1) == 0 && DaysBeforeMonth(y, 2) == 31
      && DaysBeforeMonth(y, 3) == 59 + leap && DaysBeforeMonth(y, 4) == 90 + leap
      && DaysBeforeMonth(y, 5) == 120 + leap && DaysBeforeMonth(y, 6) == 151 + leap
      && DaysBeforeMonth(y, 7) == 181 + leap && DaysBeforeMonth(y, 8) == 212 + leap
      && DaysBeforeMonth(y, 9) == 243 + leap && DaysBeforeMonth(y, 10) == 273 + leap
      && DaysBeforeMonth(y, 11) == 304 + leap && DaysBeforeMonth(y, 12) == 334 + leap
  {
    assert DaysBeforeMonth(y, 2) == 31;
    assert DaysBeforeMonth(y, 4) == DaysBeforeMonth(y, 3) + 31;
    assert DaysBeforeMonth(y, 6) == DaysBeforeMonth(y, 5) + 31;
    assert DaysBeforeMonth(y, 8) == DaysBeforeMonth(y, 7) + 31;
    assert DaysBeforeMonth(y, 10) == DaysBeforeMonth(y, 9) + 30;
  }

  // ---------------------------------------------------------------- the closed formula

  /** Division of the machine integers: the quotient is rounded toward zero. */
  function TruncatedDiv(a: int, b: int): int
    requires b > 0
  {
    if a >= 0 then a / b else -(-a / b)
  }

  /** The era of 400 years a shifted day number falls into. The division applies to the whole `if`. */
  function Era(z: int): int {
    TruncatedDiv(if z >= 0 then z else z - 146_096, 146_097)
  }

  function YearOfEra(doe: int): int {
    (doe - doe / 1460 + doe / 36524 - doe / 146_096) / 365
  }

  /** The date of a day of a year that starts on the first of March. */
  function MonthAndDay(y: int, doy: int): Date {
    var mp := (5 * doy + 2) / 153;
    var d := doy - (153 * mp + 2) / 5 + 1;
    var m := if mp < 10 then mp + 3 else mp - 9;
    Date(if m <= 2 then y + 1 else y, m, d)
  }

  /** The date of day `doe` of era `era`, eras starting on the first of March. */
  function DateInEra(era: int, doe: int): Date {
    var yoe := YearOfEra(doe);
    var y := yoe + era * 400;
    var doy := doe - (365 * yoe + yoe / 4 - yoe / 100);
    MonthAndDay(y, doy)
  }

  function CivilFromDays(days: int): Date {
    var z := days + 719_468;
    var era := Era(z);
    DateInEra(era, z - era * 146_097)
  }

  lemma EraFloors(z: int)
    ensures Era(z) == z / 146_097
    ensures 0 <= z - Era(z) * 146_097 <= 146_096
  {
  }

  /** Days of an era before its year `yoe`, years starting in March. */
  function DaysBeforeYearOfEra(yoe: int): int {
    365 * yoe + yoe / 4 - yoe / 100
  }

  /** The February that ends year `yoe` of an era has 29 days. */
  predicate EndsInLeapFebruary(yoe: int) {
    IsLeap(yoe + 1)
  }

  /** A year of an era by centuries, four-year cycles and years, and a day in it. */
  predicate InCycle(c: int, q: int, r: int, doy: int) {
    && 0 <= c <= 3 && 0 <= q <= 24 && 0 <= r <= 3
    && 0 <= doy <= 365
    && (doy == 365 ==> r == 3 && (q != 24 || c == 3))
  }

  function DayInCycle(c: int, q: int, r: int, doy: int): int {
    36_524 * c + 1461 * q + 365 * r + doy
  }

  lemma EveryDayIsInACycle(doe: int) returns (c: int, q: int, r: int, doy: int)
    requires 0 <= doe <= 146_096
    ensures InCycle(c, q, r, doy) && doe == DayInCycle(c, q, r, doy)
  {
    c := if doe < 36_524 then 0 else if doe < 73_048 then 1 else if doe < 109_572 then 2 else 3;
    var rem := doe - 36_524 * c;
    q := rem / 1461;
    var rest := rem - 1461 * q;
    r := if rest < 365 then 0 else if rest < 730 then 1 else if rest < 1095 then 2 else 3;
    doy := rest - 365 * r;
  }

  /** The three corrections of the formula: whole centuries, and leap days up to the last year's. */
  lemma Corrections(c: int, q: int, r: int, doy: int)
    requires InCycle(c, q, r, doy)
    ensures var doe := DayInCycle(c, q, r, doy);
      && doe / 36_524 - doe / 146_096 == c
      && doe / 1460 == 25 * c + q + if 365 * r + doy + q + 24 * c >= 1460 then 1 else 0
  {
    var doe := DayInCycle(c, q, r, doy);
    var late := if 365 * r + doy + q + 24 * c >= 1460 then 1 else 0;
    assert doe == 1460 * (25 * c + q + late) + (365 * r + doy + q + 24 * c - 1460 * late);
  }

  lemma CyclesOfEra(c: int, q: int, r: int, doy: int)
    requires InCycle(c, q, r, doy)
    ensures var doe, y := DayInCycle(c, q, r, doy), 100 * c + 4 * q + r;
      && YearOfEra(doe) == y && 0 <= y <= 399
      && DaysBeforeYearOfEra(y) + doy == doe
  {
    var doe, y := DayInCycle(c, q, r, doy), 100 * c + 4 * q + r;
    var late := if 365 * r + doy + q + 24 * c >= 1460 then 1 else 0;
    Corrections(c, q, r, doy);
    assert YearOfEra(doe) == (365 * y + doy - late) / 365;
    assert y / 4 == 25 * c + q && y / 100 == c;
  }

  lemma LastDayIsLeap(c: int, q: int, r: int)
    requires InCycle(c, q, r, 365)
    ensures EndsInLeapFebruary(100 * c + 4 * q + r)
  {
    var y := 100 * c + 4 * q + r;
    assert y + 1 == 100 * c + 4 * (q + 1);
    assert q != 24 ==> (y + 1) % 100 == 4 * (q + 1);
  }

  lemma YearOfEraIsRight(doe: int)
    requires 0 <= doe <= 146_096
    ensures 0 <= YearOfEra(doe) <= 399
    ensures 0 <= doe - DaysBeforeYearOfEra(YearOfEra(doe)) <= if EndsInLeapFebruary(YearOfEra(doe)) then 365 else 364
  {
    var c, q, r, doy := EveryDayIsInACycle(doe);
    CyclesOfEra(c, q, r, doy);
    if doy == 365 {
      LastDayIsLeap(c, q, r);
    }
  }

  // ---------------------------------------------------------------- agreement with the calendar

  /** The date of a day of a March year is valid and at the right distance from the year's start. */
  lemma MonthAndDayIsRight(y: int, doy: int)
    requires 0 <= doy <= if IsLeap(y + 1) then 365 else 364
    ensures ValidDate(MonthAndDay(y, doy))
    ensures DaysFromCivil(MonthAndDay(y, doy)) == DaysFromCivil(Date(y, 3, 1)) + doy
  {
    MonthTable(y);
    MonthTable(y + 1);
    YearLength(y);
  }

  /** The first of March of a year, counted in eras. */
  lemma FirstOfMarch(era: int, yoe: int)
    requires 0 <= yoe <= 399
    ensures DaysFromCivil(Date(era * 400 + yoe, 3, 1)) == era * 146_097 + DaysBeforeYearOfEra(yoe) - 719_468
  {
    var y := era * 400 + yoe;
    MonthTable(y);
    YearLength(y);
    assert y / 4 == 100 * era + yoe / 4 && y / 100 == 4 * era + yoe / 100 && y / 400 == era;
  }

  lemma LeapRepeats(y: int, era: int)
    ensures IsLeap(y + era * 400) == IsLeap(y)
  {
    RemaindersRepeat(y, era);
  }

  lemma RemaindersRepeat(y: int, era: int)
    ensures (y + era * 400) % 4 == y % 4
    ensures (y + era * 400) % 100 == y % 100
    ensures (y + era * 400) % 400 == y % 400
  {
    var a, b, c := y / 4, y / 100, y / 400;
    assert (y + era * 400) / 4 == a + 100 * era by {
      assert y + era * 400 == 4 * (a + 100 * era) + y % 4;
    }
    assert (y + era * 400) / 100 == b + 4 * era by {
      assert y + era * 400 == 100 * (b + 4 * era) + y % 100;
    }
    assert (y + era * 400) / 400 == c + era by {
      assert y + era * 400 == 400 * (c + era) + y % 400;
    }
  }

  lemma MarchYearIsRight(era: int, yoe: int, doy: int)
    requires 0 <= yoe <= 399 && 0 <= doy <= if EndsInLeapFebruary(yoe) then 365 else 364
    ensures var date := MonthAndDay(yoe + era * 400, doy);
      && ValidDate(date)
      && DaysFromCivil(date) == era * 146_097 + DaysBeforeYearOfEra(yoe) + doy - 719_468
  {
    LeapRepeats(yoe + 1, era);
    assert yoe + 1 + era * 400 == yoe + era * 400 + 1;
    FirstOfMarch(era, yoe);
    MonthAndDayIsRight(yoe + era * 400, doy);
  }

  lemma DateInMarchYear(era: int, doe: int, yoe: int, d: Date)
    requires 0 <= yoe <= 399
    requires 0 <= doe - DaysBeforeYearOfEra(yoe) <= if EndsInLeapFebruary(yoe) then 365 else 364
    requires d == MonthAndDay(yoe + era * 400, doe - DaysBeforeYearOfEra(yoe))
    ensures ValidDate(d) && DaysFromCivil(d) == era * 146_097 + doe - 719_468
  {
    MarchYearIsRight(era, yoe, doe - DaysBeforeYearOfEra(yoe));
  }

  lemma DateInEraIsRight(era: int, doe: int)
    requires 0 <= doe <= 146_096
    ensures ValidDate(DateInEra(era, doe))
    ensures DaysFromCivil(DateInEra(era, doe)) == era * 146_097 + doe - 719_468
  {
    YearOfEraIsRight(doe);
    DateInMarchYear(era, doe, YearOfEra(doe), DateInEra(era, doe));
  }

  /** The formula is right on every day: its date is valid and counting days leads back. */
  lemma CivilFromDaysIsRight(days: int)
    ensures ValidDate(CivilFromDays(days))
    ensures DaysFromCivil(CivilFromDays(days)) == days
  {
    var z := days + 719_468;
    EraFloors(z);
    DateInEraIsRight(Era(z), z - Era(z) * 146_097);
  }

  // ---------------------------------------------------------------- counting is one to one

  lemma {:induction false} YearsApart(y: int, y': int)
    requires y < y'
    ensures DaysBeforeYear(y) + (if IsLeap(y) then 366 else 365) <= DaysBeforeYear(y')
    decreases y' - y
  {
    YearLength(y);
    if y + 1 < y' {
      YearsApart(y + 1, y');
    }
  }

  lemma DayInYear(d: Date)
    requires ValidDate(d)
    ensures DaysBeforeMonth(d.year, d.month) >= 0
    ensures DaysBeforeMonth(d.year, d.month) + d.day <= if IsLeap(d.year) then 366 else 365
    ensures d.month < 12 ==> DaysBeforeMonth(d.year, d.month) + d.day <= DaysBeforeMonth(d.year, d.month + 1)
  {
    MonthTable(d.year);
  }

  /** Dates in calendar order. */
  predicate Before(a: Date, b: Date) {
    a.year < b.year || (a.year == b.year && (a.month < b.month || (a.month == b.month && a.day < b.day)))
  }

  /** Later dates have larger day numbers. */
  lemma DaysFromCivilIsMonotonic(a: Date, b: Date)
    requires ValidDate(a) && ValidDate(b) && Before(a, b)
    ensures DaysFromCivil(a) < DaysFromCivil(b)
  {
    DayInYear(a);
    DayInYear(b);
    if a.year < b.year {
      YearsApart(a.year, b.year);
    } else if a.month < b.month {
      MonthTable(a.year);
    }
  }

  /** The formula inverts counting, so it is a bijection between day numbers and valid dates. */
  lemma CivilFromDaysInvertsCounting(d: Date)
    requires ValidDate(d)
    ensures CivilFromDays(DaysFromCivil(d)) == d
  {
    var e := CivilFromDays(DaysFromCivil(d));
    CivilFromDaysIsRight(DaysFromCivil(d));
    if Before(d, e) {
      DaysFromCivilIsMonotonic(d, e);
    } else if Before(e, d) {
      DaysFromCivilIsMonotonic(e, d);
    }
  }

  lemma NextDateIsOneDayLater(d: Date)
    requires ValidDate(d)
    ensures ValidDate(NextDate(d)) && DaysFromCivil(NextDate(d)) == DaysFromCivil(d) + 1
  {
    MonthTable(d.year);
    MonthTable(d.year + 1);
    YearLength(d.year);
  }

  /** `f` inverts counting days. */
  ghost predicate InvertsCounting(f: int -> Date) {
    && (forall days :: ValidDate(f(days)) && DaysFromCivil(f(days)) == days)
    && (forall d :: ValidDate(d) ==> f(DaysFromCivil(d)) == d)
  }

  /** Whatever inverts counting days follows the calendar. */
  lemma InverseFollowsTheCalendar(f: int -> Date, days: int)
    requires InvertsCounting(f)
    ensures f(days + 1) == NextDate(f(days))
  {
    NextDateIsOneDayLater(f(days));
    assert f(DaysFromCivil(NextDate(f(days)))) == NextDate(f(days));
  }

  lemma CivilFromDaysIsInverse()
    ensures InvertsCounting(CivilFromDays)
  {
    forall days
      ensures ValidDate(CivilFromDays(days)) && DaysFromCivil(CivilFromDays(days)) == days
    {
      CivilFromDaysIsRight(days);
    }
    forall d | ValidDate(d)
      ensures CivilFromDays(DaysFromCivil(d)) == d
    {
      CivilFromDaysInvertsCounting(d);
    }
  }

  /** Each day number gives the day after the one before. */
  lemma CivilFromDaysFollowsTheCalendar(days: int)
    ensures CivilFromDays(days + 1) == NextDate(CivilFromDays(days))
  {
    CivilFromDaysIsInverse();
    InverseFollowsTheCalendar(CivilFromDays, days);
  }

  lemma DayZeroIsTheEpoch()
    ensures CivilFromDays(0) == EPOCH
  {
    CivilFromDaysInvertsCounting(EPOCH);
  }

  // ---------------------------------------------------------------- machine integers

  predicate InI32(n: int) {
    -0x8000_0000 <= n < 0x8000_0000
  }

  predicate InI64(n: int) {
    -0x8000_0000_0000_0000 <= n < 0x8000_0000_0000_0000
  }

  predicate InU32(n: int) {
    0 <= n < 0x1_0000_0000
  }

  /** Within an era: the intermediates kept in 32 unsigned bits. */
  predicate EraFits(doe: int) {
    var yoe := YearOfEra(doe);
    && CorrectionsFit(doe, doe / 1460, doe / 36524, doe / 146_096)
    && YearFits(yoe, yoe / 4, yoe / 100)
    && DayFits(doe - DaysBeforeYearOfEra(yoe))
  }

  predicate CorrectionsFit(doe: int, leaps: int, centuries: int, last: int) {
    InU32(doe) && InU32(doe - leaps) && InU32(doe - leaps + centuries) && InU32(doe - leaps + centuries - last)
  }

  predicate YearFits(yoe: int, leaps: int, centuries: int) {
    InU32(yoe) && InU32(365 * yoe) && InU32(365 * yoe + leaps) && InU32(365 * yoe + leaps - centuries)
  }

  predicate DayFits(doy: int) {
    var mp := (5 * doy + 2) / 153;
    && InU32(doy) && InU32(5 * doy + 2) && InU32(153 * mp + 2) && InU32(doy - (153 * mp + 2) / 5)
    && (mp >= 10 ==> InU32(mp - 9))
  }

  /** No intermediate of the formula leaves the machine integer it is kept in. */
  predicate Fits(days: int) {
    var z := days + 719_468;
    var era := Era(z);
    var doe := z - era * 146_097;
    EraFits(doe) && SignedFit(z, era, YearOfEra(doe), CivilFromDays(days).year)
  }

  /** The other intermediates: the day number and its shifts in 64 bits, the years in 32. */
  predicate SignedFit(z: int, era: int, yoe: int, year: int) {
    && InI64(z - 719_468) && InI64(z) && (z < 0 ==> InI64(z - 146_096)) && InI64(era * 146_097)
    && InI32(era) && InI32(era * 400) && InI32(yoe + era * 400) && InI32(year)
  }

  lemma EveryEraFits(doe: int)
    requires 0 <= doe <= 146_096
    ensures EraFits(doe)
  {
    YearOfEraIsRight(doe);
    EveryDayFits(doe - DaysBeforeYearOfEra(YearOfEra(doe)));
    EveryYearFits(YearOfEra(doe));
    CorrectionsAreSmall(doe, doe / 1460, doe / 36524, doe / 146_096);
  }

  lemma EveryDayFits(doy: int)
    requires 0 <= doy <= 365
    ensures DayFits(doy)
  {
  }

  lemma EveryYearFits(yoe: int)
    requires 0 <= yoe <= 399
    ensures YearFits(yoe, yoe / 4, yoe / 100)
  {
  }

  lemma CorrectionsAreSmall(doe: int, leaps: int, centuries: int, last: int)
    requires 0 <= doe <= 146_096
    requires 0 <= leaps <= doe && 0 <= last <= centuries <= doe
    ensures CorrectionsFit(doe, leaps, centuries, last)
  {
  }

  const FIRST_DATE := Date(-2_147_483_600, 3, 1)
  const LAST_DATE := Date(2_147_483_647, 12, 31)

  lemma FirstDay()
    ensures ValidDate(FIRST_DATE) && DaysFromCivil(FIRST_DATE) == -5_368_709 * 146_097 - 719_468
  {
    FirstOfMarch(-5_368_709, 0);
  }

  /** A day is up to the last date iff its year is up to that year. */
  lemma UpToLastDate(days: int)
    ensures ValidDate(LAST_DATE)
    ensures days <= DaysFromCivil(LAST_DATE) <==> CivilFromDays(days).year <= LAST_DATE.year
  {
    var d := CivilFromDays(days);
    CivilFromDaysIsRight(days);
    if Before(d, LAST_DATE) {
      DaysFromCivilIsMonotonic(d, LAST_DATE);
    } else if Before(LAST_DATE, d) {
      DaysFromCivilIsMonotonic(LAST_DATE, d);
    }
  }

  lemma YearInEra(days: int)
    ensures var era := Era(days + 719_468);
      && var yoe := YearOfEra(days + 719_468 - era * 146_097);
      && 0 <= yoe <= 399
      && yoe + era * 400 <= CivilFromDays(days).year <= yoe + era * 400 + 1
  {
    EraFloors(days + 719_468);
    YearOfEraIsRight(days + 719_468 - Era(days + 719_468) * 146_097);
  }

  /** Only the first era and the last year matter. */
  lemma SignedRange(z: int, era: int, yoe: int, year: int)
    requires 0 <= z - era * 146_097 <= 146_096 && 0 <= yoe <= 399
    requires yoe + era * 400 <= year <= yoe + era * 400 + 1
    ensures SignedFit(z, era, yoe, year) <==> era >= -5_368_709 && year <= LAST_DATE.year
  {
  }

  /**
   * Every intermediate of the formula stays in its machine integer iff the day is neither before the
   * first of March that starts the first era whose years fit nor behind the last year that fits.
   */
  lemma FitsIff(days: int)
    ensures ValidDate(FIRST_DATE) && ValidDate(LAST_DATE)
    ensures Fits(days) <==> DaysFromCivil(FIRST_DATE) <= days <= DaysFromCivil(LAST_DATE)
  {
    FirstDay();
    UpToLastDate(days);
    FitsByEraAndYear(days);
    EraFloors(days + 719_468);
    FromFirstEra(days + 719_468, Era(days + 719_468));
  }

  lemma FitsByEraAndYear(days: int)
    ensures Fits(days) <==> Era(days + 719_468) >= -5_368_709 && CivilFromDays(days).year <= LAST_DATE.year
  {
    var z := days + 719_468;
    var era, year := Era(z), CivilFromDays(days).year;
    var doe := z - era * 146_097;
    EraFloors(z);
    EveryEraFits(doe);
    YearInEra(days);
    SignedRange(z, era, YearOfEra(doe), year);
  }

  lemma FromFirstEra(z: int, era: int)
    requires 0 <= z - era * 146_097 <= 146_096
    ensures z >= -5_368_709 * 146_097 <==> era >= -5_368_709
  {
  }
}
