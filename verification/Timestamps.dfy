// `unix_secs_to_iso8601`: seconds since 1970 as a fixed-width UTC timestamp. Up to the end of year
// 9999 the string can be read back, and later times give larger strings.
module Timestamps {
  import opened Text
  import opened Calendar

  const SECONDS_PER_DAY := 86_400

  /** The first second of year 10000. */
  const YEAR_10000 := 253_402_300_800

  /** `n` in decimal, padded on the left with zeros to at least `width` characters. */
  function Padded(n: nat, width: nat): string {
    var digits := Decimal(n);
    if |digits| >= width then digits else seq(width - |digits|, _ => '0') + digits
  }

  function Render(date: Date, hour: nat, minute: nat, second: nat): string
    requires date.year >= 0 && date.month >= 0 && date.day >= 0
  {
    Padded(date.year, 4) + "-" + Padded(date.month, 2) + "-" + Padded(date.day, 2) + "T"
    + Padded(hour, 2) + ":" + Padded(minute, 2) + ":" + Padded(second, 2) + "Z"
  }

  /** Times before 1970 count as 1970-01-01T00:00:00Z. */
  function UnixSecsToIso8601(time: int): string {
    var secs: nat := if time >= 0 then time else 0;
    var date := CivilFromDays(secs / SECONDS_PER_DAY);
    NonNegativeDate(secs / SECONDS_PER_DAY);
    var timeOfDay := secs % SECONDS_PER_DAY;
    Render(date, timeOfDay / 3600, timeOfDay % 3600 / 60, timeOfDay % 60)
  }

  lemma NonNegativeDate(days: nat)
    ensures var date := CivilFromDays(days); date.year >= 1970 && date.month >= 0 && date.day >= 0
  {
    CivilFromDaysIsRight(days);
    var date := CivilFromDays(days);
    if Before(date, EPOCH) {
      DaysFromCivilIsMonotonic(date, EPOCH);
    }
  }

  // ---------------------------------------------------------------- fixed width digits

  /** The last `width` decimal digits of `n`. */
  function Fixed(n: nat, width: nat): (s: string)
    ensures |s| == width
  {
    if width == 0 then "" else Fixed(n / 10, width - 1) + [DigitChar(n % 10)]
  }

  function Power10(k: nat): nat {
    if k == 0 then 1 else 10 * Power10(k - 1)
  }

  lemma {:induction false} FixedIsDigits(n: nat, width: nat)
    requires n < Power10(width)
    ensures forall k :: 0 <= k < width ==> '0' <= Fixed(n, width)[k] <= '9'
    ensures DecimalValue(Fixed(n, width)) == n
  {
    if width > 0 {
      FixedIsDigits(n / 10, width - 1);
      assert Fixed(n, width)[..width - 1] == Fixed(n / 10, width - 1);
    }
  }

  lemma {:induction false} DecimalIsFixed(n: nat)
    ensures Decimal(n) == Fixed(n, |Decimal(n)|)
  {
    if n >= 10 {
      DecimalIsFixed(n / 10);
    } else {
      assert Fixed(n / 10, 0) == "";
    }
  }

  lemma {:induction false} FixedZero(width: nat)
    ensures Fixed(0, width) == seq(width, _ => '0')
  {
    if width > 0 {
      FixedZero(width - 1);
    }
  }

  lemma {:induction false} PaddedZeros(n: nat, zeros: nat)
    ensures seq(zeros, _ => '0') + Decimal(n) == Fixed(n, zeros + |Decimal(n)|)
  {
    if n >= 10 {
      PaddedZeros(n / 10, zeros);
      assert Decimal(n) == Decimal(n / 10) + [DigitChar(n % 10)];
      assert seq(zeros, _ => '0') + Decimal(n)
        == (seq(zeros, _ => '0') + Decimal(n / 10)) + [DigitChar(n % 10)];
    } else {
      FixedZero(zeros);
    }
  }

  lemma {:induction false} DecimalLength(n: nat, width: nat)
    requires n < Power10(width) && width > 0
    ensures 1 <= |Decimal(n)| <= width
  {
    if n >= 10 {
      DecimalLength(n / 10, width - 1);
    }
  }

  lemma PaddedIsFixed(n: nat, width: nat)
    requires n < Power10(width) && width > 0
    ensures Padded(n, width) == Fixed(n, width)
  {
    DecimalLength(n, width);
    PaddedZeros(n, width - |Decimal(n)|);
    DecimalIsFixed(n);
  }

  // ---------------------------------------------------------------- order

  /** Lexicographic order of strings of the same length. */
  ghost predicate LexLess(a: string, b: string)
    requires |a| == |b|
  {
    exists k :: 0 <= k < |a| && a[..k] == b[..k] && a[k] < b[k]
  }

  lemma LexLessLeft(a: string, b: string, x: string, y: string)
    requires |a| == |b| && |x| == |y| && LexLess(a, b)
    ensures LexLess(a + x, b + y)
  {
    var k :| 0 <= k < |a| && a[..k] == b[..k] && a[k] < b[k];
    assert (a + x)[..k] == a[..k] && (b + y)[..k] == b[..k];
    assert (a + x)[k] < (b + y)[k];
  }

  lemma LexLessRight(p: string, a: string, b: string)
    requires |a| == |b| && LexLess(a, b)
    ensures LexLess(p + a, p + b)
  {
    var k :| 0 <= k < |a| && a[..k] == b[..k] && a[k] < b[k];
    var j := |p| + k;
    assert (p + a)[..j] == p + a[..k] && (p + b)[..j] == p + b[..k];
    assert (p + a)[j] < (p + b)[j];
  }

  lemma DigitLess(c: nat, d: nat)
    requires c < d < 10
    ensures LexLess([DigitChar(c)], [DigitChar(d)])
  {
    var a, b := [DigitChar(c)], [DigitChar(d)];
    assert a[..0] == b[..0] && a[0] < b[0];
  }

  lemma {:induction false} FixedIsMonotonic(m: nat, n: nat, width: nat)
    requires m < n < Power10(width)
    ensures LexLess(Fixed(m, width), Fixed(n, width))
  {
    var a, b := [DigitChar(m % 10)], [DigitChar(n % 10)];
    if m / 10 < n / 10 {
      FixedIsMonotonic(m / 10, n / 10, width - 1);
      LexLessLeft(Fixed(m / 10, width - 1), Fixed(n / 10, width - 1), a, b);
    } else {
      DigitLess(m % 10, n % 10);
      LexLessRight(Fixed(m / 10, width - 1), a, b);
    }
  }

  // ---------------------------------------------------------------- the fields of a timestamp

  datatype Moment = Moment(date: Date, hour: nat, minute: nat, second: nat)

  predicate ValidMoment(m: Moment) {
    && ValidDate(m.date) && 0 <= m.date.year <= 9999
    && m.hour < 24 && m.minute < 60 && m.second < 60
  }

  function MomentAt(secs: nat): Moment {
    var timeOfDay := secs % SECONDS_PER_DAY;
    Moment(CivilFromDays(secs / SECONDS_PER_DAY), timeOfDay / 3600, timeOfDay % 3600 / 60, timeOfDay % 60)
  }

  function SecondsOf(m: Moment): int
    requires ValidMoment(m)
  {
    DaysFromCivil(m.date) * SECONDS_PER_DAY + m.hour * 3600 + m.minute * 60 + m.second
  }

  lemma FirstDayOf10000()
    ensures DaysFromCivil(Date(10_000, 1, 1)) == 2_932_897
  {
  }

  lemma YearIsShort(d: Date)
    requires ValidDate(d) && DaysFromCivil(d) < 2_932_897
    ensures d.year <= 9999
  {
    FirstDayOf10000();
    if d == Date(10_000, 1, 1) {
    } else if Before(Date(10_000, 1, 1), d) {
      DaysFromCivilIsMonotonic(Date(10_000, 1, 1), d);
    }
  }

  lemma TimeOfDayParts(timeOfDay: nat)
    requires timeOfDay < SECONDS_PER_DAY
    ensures timeOfDay / 3600 < 24 && timeOfDay % 3600 / 60 < 60 && timeOfDay % 60 < 60
    ensures timeOfDay / 3600 * 3600 + timeOfDay % 3600 / 60 * 60 + timeOfDay % 60 == timeOfDay
  {
  }

  lemma MomentIsRight(secs: nat)
    requires secs < YEAR_10000
    ensures ValidMoment(MomentAt(secs)) && SecondsOf(MomentAt(secs)) == secs
  {
    var days := secs / SECONDS_PER_DAY;
    CivilFromDaysIsRight(days);
    NonNegativeDate(days);
    YearIsShort(CivilFromDays(days));
    TimeOfDayParts(secs % SECONDS_PER_DAY);
  }

  function FixedRender(m: Moment): (s: string)
    requires ValidMoment(m)
    ensures |s| == 20
  {
    Fixed(m.date.year, 4) + "-" + Fixed(m.date.month, 2) + "-" + Fixed(m.date.day, 2) + "T"
    + Fixed(m.hour, 2) + ":" + Fixed(m.minute, 2) + ":" + Fixed(m.second, 2) + "Z"
  }

  lemma RenderIsFixed(m: Moment)
    requires ValidMoment(m)
    ensures Render(m.date, m.hour, m.minute, m.second) == FixedRender(m)
  {
    assert Power10(4) == 10_000 && Power10(2) == 100;
    PaddedIsFixed(m.date.year, 4);
    PaddedIsFixed(m.date.month, 2);
    PaddedIsFixed(m.date.day, 2);
    PaddedIsFixed(m.hour, 2);
    PaddedIsFixed(m.minute, 2);
    PaddedIsFixed(m.second, 2);
  }

  // ---------------------------------------------------------------- reading a timestamp back

  predicate AllDigits(s: string) {
    forall k :: 0 <= k < |s| ==> '0' <= s[k] <= '9'
  }

  function ReadNumber(s: string): Option<nat> {
    if AllDigits(s) then Some(DecimalValue(s)) else None
  }

  /** Reads the profile `YYYY-MM-DDTHH:MM:SSZ` of RFC 3339, section 5.6. */
  function ParseIso8601(s: string): Option<int> {
    if |s| != 20 || s[4] != '-' || s[7] != '-' || s[10] != 'T' || s[13] != ':' || s[16] != ':' || s[19] != 'Z'
    then None
    else match (ReadNumber(s[..4]), ReadNumber(s[5..7]), ReadNumber(s[8..10]),
                ReadNumber(s[11..13]), ReadNumber(s[14..16]), ReadNumber(s[17..19]))
      case (Some(year), Some(month), Some(day), Some(hour), Some(minute), Some(second)) =>
        var m := Moment(Date(year, month, day), hour, minute, second);
        if ValidMoment(m) then Some(SecondsOf(m)) else None
      case _ => None
  }

  lemma FieldsOfRender(m: Moment)
    requires ValidMoment(m)
    ensures var s := FixedRender(m);
      && s[..4] == Fixed(m.date.year, 4) && s[5..7] == Fixed(m.date.month, 2) && s[8..10] == Fixed(m.date.day, 2)
      && s[11..13] == Fixed(m.hour, 2) && s[14..16] == Fixed(m.minute, 2) && s[17..19] == Fixed(m.second, 2)
      && s[4] == '-' && s[7] == '-' && s[10] == 'T' && s[13] == ':' && s[16] == ':' && s[19] == 'Z'
  {
  }

  lemma FixedReads(n: nat, width: nat)
    requires n < Power10(width)
    ensures ReadNumber(Fixed(n, width)) == Some(n)
  {
    FixedIsDigits(n, width);
  }

  lemma ParseOfRender(m: Moment)
    requires ValidMoment(m)
    ensures ParseIso8601(FixedRender(m)) == Some(SecondsOf(m))
  {
    assert Power10(4) == 10_000 && Power10(2) == 100;
    FieldsOfRender(m);
    FixedReads(m.date.year, 4);
    FixedReads(m.date.month, 2);
    FixedReads(m.date.day, 2);
    FixedReads(m.hour, 2);
    FixedReads(m.minute, 2);
    FixedReads(m.second, 2);
  }

  /** Times before 1970 read as its first second. */
  lemma BeforeEpochIsEpoch(time: int)
    requires time <= 0
    ensures ParseIso8601(UnixSecsToIso8601(time)) == Some(0)
  {
    TimestampRoundTrips(0);
    assert UnixSecsToIso8601(time) == UnixSecsToIso8601(0);
  }

  /** Up to the end of year 9999 the timestamp has 20 characters and denotes the second it was made from. */
  lemma TimestampRoundTrips(secs: nat)
    requires secs < YEAR_10000
    ensures |UnixSecsToIso8601(secs)| == 20
    ensures ParseIso8601(UnixSecsToIso8601(secs)) == Some(secs)
  {
    var m := MomentAt(secs);
    MomentIsRight(secs);
    RenderIsFixed(m);
    ParseOfRender(m);
  }

  // ---------------------------------------------------------------- order of timestamps

  /** The six fields of a moment, most significant first. */
  predicate Earlier(a: Moment, b: Moment) {
    || Before(a.date, b.date)
    || (a.date == b.date && (a.hour < b.hour || (a.hour == b.hour
         && (a.minute < b.minute || (a.minute == b.minute && a.second < b.second)))))
  }

  lemma LaterIsLaterMoment(s: nat, t: nat)
    requires s < t < YEAR_10000
    ensures Earlier(MomentAt(s), MomentAt(t))
  {
    var a, b := MomentAt(s), MomentAt(t);
    MomentIsRight(s);
    MomentIsRight(t);
    if Before(b.date, a.date) {
      DaysFromCivilIsMonotonic(b.date, a.date);
    }
  }

  /** A timestamp as six fields of fixed width joined by separators. */
  function DateText(d: Date): (s: string)
    requires ValidDate(d) && 0 <= d.year <= 9999
    ensures |s| == 10
  {
    Fixed(d.year, 4) + ("-" + (Fixed(d.month, 2) + ("-" + Fixed(d.day, 2))))
  }

  function TimeText(m: Moment): (s: string)
    ensures |s| == 9
  {
    Fixed(m.hour, 2) + (":" + (Fixed(m.minute, 2) + (":" + (Fixed(m.second, 2) + "Z"))))
  }

  lemma RenderByParts(m: Moment)
    requires ValidMoment(m)
    ensures FixedRender(m) == DateText(m.date) + ("T" + TimeText(m))
  {
  }

  lemma DateTextIsMonotonic(a: Date, b: Date)
    requires ValidDate(a) && ValidDate(b) && 0 <= a.year <= 9999 && 0 <= b.year <= 9999 && Before(a, b)
    ensures LexLess(DateText(a), DateText(b))
  {
    assert Power10(4) == 10_000 && Power10(2) == 100;
    var monthA, monthB := Fixed(a.month, 2), Fixed(b.month, 2);
    var dayA, dayB := Fixed(a.day, 2), Fixed(b.day, 2);
    if a.year < b.year {
      FixedIsMonotonic(a.year, b.year, 4);
      LexLessLeft(Fixed(a.year, 4), Fixed(b.year, 4), "-" + (monthA + ("-" + dayA)), "-" + (monthB + ("-" + dayB)));
    } else {
      if a.month < b.month {
        FixedIsMonotonic(a.month, b.month, 2);
        LexLessLeft(monthA, monthB, "-" + dayA, "-" + dayB);
      } else {
        FixedIsMonotonic(a.day, b.day, 2);
        LexLessRight("-", dayA, dayB);
        LexLessRight(monthA, "-" + dayA, "-" + dayB);
      }
      LexLessRight("-", monthA + ("-" + dayA), monthB + ("-" + dayB));
      LexLessRight(Fixed(a.year, 4), "-" + (monthA + ("-" + dayA)), "-" + (monthB + ("-" + dayB)));
    }
  }

  lemma TimeTextIsMonotonic(a: Moment, b: Moment)
    requires ValidMoment(a) && ValidMoment(b) && a.date == b.date && Earlier(a, b)
    ensures LexLess(TimeText(a), TimeText(b))
  {
    assert Power10(2) == 100;
    var minuteA, minuteB := Fixed(a.minute, 2), Fixed(b.minute, 2);
    var secondA, secondB := Fixed(a.second, 2) + "Z", Fixed(b.second, 2) + "Z";
    if a.hour < b.hour {
      FixedIsMonotonic(a.hour, b.hour, 2);
      LexLessLeft(Fixed(a.hour, 2), Fixed(b.hour, 2),
        ":" + (minuteA + (":" + secondA)), ":" + (minuteB + (":" + secondB)));
    } else {
      if a.minute < b.minute {
        FixedIsMonotonic(a.minute, b.minute, 2);
        LexLessLeft(minuteA, minuteB, ":" + secondA, ":" + secondB);
      } else {
        FixedIsMonotonic(a.second, b.second, 2);
        LexLessLeft(Fixed(a.second, 2), Fixed(b.second, 2), "Z", "Z");
        LexLessRight(":", secondA, secondB);
        LexLessRight(minuteA, ":" + secondA, ":" + secondB);
      }
      LexLessRight(":", minuteA + (":" + secondA), minuteB + (":" + secondB));
      LexLessRight(Fixed(a.hour, 2), ":" + (minuteA + (":" + secondA)), ":" + (minuteB + (":" + secondB)));
    }
  }

  /** Up to the end of year 9999 timestamps sort like the times they stand for. */
  lemma TimestampsSortByTime(s: nat, t: nat)
    requires s < t < YEAR_10000
    ensures |UnixSecsToIso8601(s)| == |UnixSecsToIso8601(t)|
    ensures LexLess(UnixSecsToIso8601(s), UnixSecsToIso8601(t))
  {
    var a, b := MomentAt(s), MomentAt(t);
    MomentIsRight(s);
    MomentIsRight(t);
    LaterIsLaterMoment(s, t);
    RenderIsFixed(a);
    RenderIsFixed(b);
    RenderByParts(a);
    RenderByParts(b);
    if a.date == b.date {
      TimeTextIsMonotonic(a, b);
      LexLessRight("T", TimeText(a), TimeText(b));
      LexLessRight(DateText(a.date), "T" + TimeText(a), "T" + TimeText(b));
    } else {
      DateTextIsMonotonic(a.date, b.date);
      LexLessLeft(DateText(a.date), DateText(b.date), "T" + TimeText(a), "T" + TimeText(b));
    }
  }
}
