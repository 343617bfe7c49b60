/**
 * Python's `datetime.date` and `datetime.datetime` on the proleptic Gregorian
 * calendar, years 1 to 9999: day ordinals, weekdays, day arithmetic with its
 * overflow at either end, and the ISO text forms the database stores.
 */
module Calendar {
  import opened Wrappers
  import opened Text

  const MinYear := 1
  const MaxYear := 9999
  /** Ordinal of 9999-12-31 (Python's `date.max.toordinal()`). */
  const MaxOrdinal := 3652059

  datatype Date = Date(year: int, month: int, day: int)

  predicate IsLeapYear(y: int) {
    y % 4 == 0 && (y % 100 != 0 || y % 400 == 0)
  }

  function DaysInMonth(y: int, m: int): int
    requires 1 <= m <= 12
  {
    if m == 2 then (if IsLeapYear(y) then 29 else 28)
    else if m == 4 || m == 6 || m == 9 || m == 11 then 30
    else 31
  }

  function DaysInYear(y: int): int {
    if IsLeapYear(y) then 366 else 365
  }

  predicate ValidDate(d: Date) {
    && MinYear <= d.year <= MaxYear
    && 1 <= d.month <= 12
    && 1 <= d.day <= DaysInMonth(d.year, d.month)
  }

  /** Days in the years before year y. */
  function DaysBeforeYear(y: int): int
    requires y >= 1
  {
    var p := y - 1;
    p * 365 + p / 4 - p / 100 + p / 400
  }

  /** Days in year y before the first of month m. */
  function DaysBeforeMonth(y: int, m: int): int
    requires 1 <= m <= 12
  {
    [0, 31, 59, 90, 120, 151, 181, 212, 243, 273, 304, 334][m - 1]
      + (if m > 2 && IsLeapYear(y) then 1 else 0)
  }

  /** `date.toordinal()`: 0001-01-01 is day 1. */
  function Ordinal(d: Date): int
    requires ValidDate(d)
  {
    DaysBeforeYear(d.year) + DaysBeforeMonth(d.year, d.month) + d.day
  }

  /** `date.weekday()`: Monday is 0 and Sunday is 6. */
  function Weekday(d: Date): (w: int)
    requires ValidDate(d)
    ensures 0 <= w <= 6
    ensures (Ordinal(d) - w) % 7 == 1
  {
    (Ordinal(d) + 6) % 7
  }

  /** Sundays are the dates whose ordinal is a multiple of 7 (0001-01-07 is the first). */
  lemma SundayOrdinal(d: Date)
    requires ValidDate(d)
    ensures Weekday(d) == 6 <==> Ordinal(d) % 7 == 0
  {
    SundayResidue(Ordinal(d));
  }

  lemma SundayResidue(o: int)
    ensures (o + 6) % 7 == 6 <==> o % 7 == 0
  {
    assert o + 6 == 7 * (o / 7) + o % 7 + 6;
  }

  /** Chronological order of valid dates: by year, then month, then day. */
  predicate DateLess(a: Date, b: Date) {
    || a.year < b.year
    || (a.year == b.year && (a.month < b.month || (a.month == b.month && a.day < b.day)))
  }

  lemma DaysBeforeYearStep(y: int)
    requires y >= 1
    ensures DaysBeforeYear(y + 1) == DaysBeforeYear(y) + DaysInYear(y)
  {
    var p := y - 1;
    assert y / 4 - p / 4 == (if y % 4 == 0 then 1 else 0);
    assert y / 100 - p / 100 == (if y % 100 == 0 then 1 else 0);
    assert y / 400 - p / 400 == (if y % 400 == 0 then 1 else 0);
  }

  lemma {:induction false} DaysBeforeYearGrows(a: int, b: int)
    requires 1 <= a <= b
    ensures DaysBeforeYear(a) + 365 * (b - a) <= DaysBeforeYear(b)
    decreases b - a
  {
    if a < b {
      DaysBeforeYearGrows(a, b - 1);
      DaysBeforeYearStep(b - 1);
    }
  }

  lemma MonthStep(y: int, m: int)
    requires 1 <= m <= 12
    ensures m < 12 ==> DaysBeforeMonth(y, m + 1) == DaysBeforeMonth(y, m) + DaysInMonth(y, m)
    ensures m == 12 ==> DaysBeforeMonth(y, m) + DaysInMonth(y, m) == DaysInYear(y)
  {
  }

  lemma {:induction false} MonthsGrow(y: int, m1: int, m2: int)
    requires 1 <= m1 < m2 <= 12
    ensures DaysBeforeMonth(y, m1) + DaysInMonth(y, m1) <= DaysBeforeMonth(y, m2)
    decreases m2 - m1
  {
    MonthStep(y, m1);
    if m1 + 1 < m2 {
      MonthsGrow(y, m1 + 1, m2);
    }
  }

  lemma OrdinalInYear(d: Date)
    requires ValidDate(d)
    ensures DaysBeforeYear(d.year) < Ordinal(d) <= DaysBeforeYear(d.year) + DaysInYear(d.year)
  {
    if d.month < 12 {
      MonthsGrow(d.year, d.month, 12);
    }
    MonthStep(d.year, 12);
  }

  /** Every valid date has an ordinal between 1 and that of 9999-12-31. */
  lemma OrdinalRange(d: Date)
    requires ValidDate(d)
    ensures 1 <= Ordinal(d) <= MaxOrdinal
  {
    OrdinalInYear(d);
    DaysBeforeYearStep(d.year);
    DaysBeforeYearGrows(d.year + 1, MaxYear + 1);
  }

  /** The ordinal numbers valid dates in chronological order. */
  lemma OrdinalMonotone(a: Date, b: Date)
    requires ValidDate(a) && ValidDate(b) && DateLess(a, b)
    ensures Ordinal(a) < Ordinal(b)
  {
    if a.year < b.year {
      OrdinalInYear(a);
      OrdinalInYear(b);
      DaysBeforeYearStep(a.year);
      DaysBeforeYearGrows(a.year + 1, b.year);
    } else if a.month < b.month {
      MonthsGrow(a.year, a.month, b.month);
    }
  }

  /** Ordinals order dates chronologically and tell different dates apart. */
  lemma OrdinalOrder(a: Date, b: Date)
    requires ValidDate(a) && ValidDate(b)
    ensures DateLess(a, b) <==> Ordinal(a) < Ordinal(b)
    ensures a == b <==> Ordinal(a) == Ordinal(b)
  {
    if DateLess(a, b) {
      OrdinalMonotone(a, b);
    } else if DateLess(b, a) {
      OrdinalMonotone(b, a);
    }
  }

  /** The day after d; None after 9999-12-31, where Python raises OverflowError. */
  function NextDay(d: Date): (r: Option<Date>)
    requires ValidDate(d)
    ensures r.Some? ==> ValidDate(r.value) && Ordinal(r.value) == Ordinal(d) + 1
    ensures r.None? <==> Ordinal(d) == MaxOrdinal
  {
    OrdinalRange(d);
    if d.day < DaysInMonth(d.year, d.month) then
      OrdinalRange(Date(d.year, d.month, d.day + 1));
      Some(Date(d.year, d.month, d.day + 1))
    else if d.month < 12 then
      MonthStep(d.year, d.month);
      OrdinalRange(Date(d.year, d.month + 1, 1));
      Some(Date(d.year, d.month + 1, 1))
    else if d.year < MaxYear then
      MonthStep(d.year, 12);
      DaysBeforeYearStep(d.year);
      OrdinalRange(Date(d.year + 1, 1, 1));
      Some(Date(d.year + 1, 1, 1))
    else
      None
  }

  /** The day before d; None before 0001-01-01, where Python raises OverflowError. */
  function PrevDay(d: Date): (r: Option<Date>)
    requires ValidDate(d)
    ensures r.Some? ==> ValidDate(r.value) && Ordinal(r.value) + 1 == Ordinal(d)
    ensures r.None? <==> Ordinal(d) == 1
  {
    OrdinalRange(d);
    if d.day > 1 then
      OrdinalRange(Date(d.year, d.month, d.day - 1));
      Some(Date(d.year, d.month, d.day - 1))
    else if d.month > 1 then
      MonthStep(d.year, d.month - 1);
      var p := Date(d.year, d.month - 1, DaysInMonth(d.year, d.month - 1));
      OrdinalRange(p);
      Some(p)
    else if d.year > MinYear then
      MonthStep(d.year - 1, 12);
      DaysBeforeYearStep(d.year - 1);
      OrdinalRange(Date(d.year - 1, 12, 31));
      Some(Date(d.year - 1, 12, 31))
    else
      None
  }

  /** `d + timedelta(days=k)`; None when that passes 9999-12-31 (OverflowError). */
  function AddDays(d: Date, k: nat): (r: Option<Date>)
    requires ValidDate(d)
    ensures r.Some? <==> Ordinal(d) + k <= MaxOrdinal
    ensures r.Some? ==> ValidDate(r.value) && Ordinal(r.value) == Ordinal(d) + k
    decreases k
  {
    OrdinalRange(d);
    if k == 0 then Some(d)
    else match NextDay(d)
      case None => None
      case Some(n) => AddDays(n, k - 1)
  }

  /** `d - timedelta(days=k)`; None when that precedes 0001-01-01 (OverflowError). */
  function SubDays(d: Date, k: nat): (r: Option<Date>)
    requires ValidDate(d)
    ensures r.Some? <==> Ordinal(d) - k >= 1
    ensures r.Some? ==> ValidDate(r.value) && Ordinal(r.value) == Ordinal(d) - k
    decreases k
  {
    OrdinalRange(d);
    if k == 0 then Some(d)
    else match PrevDay(d)
      case None => None
      case Some(p) => SubDays(p, k - 1)
  }

  /** `date.isoformat()`: YYYY-MM-DD. */
  function IsoDate(d: Date): (s: string)
    requires ValidDate(d)
    ensures |s| == 10 && s[4] == '-' && s[7] == '-'
  {
    Digits(d.year, 4) + "-" + Digits(d.month, 2) + "-" + Digits(d.day, 2)
  }

  /** A fixed-width field followed by a dash compares by the field, then by what follows. */
  lemma DashStep(a: string, ra: string, b: string, rb: string)
    requires |a| == |b|
    ensures LexLess(a + "-" + ra, b + "-" + rb) <==> LexLess(a, b) || (a == b && LexLess(ra, rb))
  {
    assert a + "-" + ra == a + ("-" + ra) && b + "-" + rb == b + ("-" + rb);
    LexLessConcat(a, "-" + ra, b, "-" + rb);
    LexLessConcat("-", ra, "-", rb);
    assert !LexLess("-", "-");
  }

  /** Text of the shape a-b-c with fixed-width fields compares field by field. */
  lemma DashedOrder(s: string, t: string, a1: string, a2: string, a3: string, b1: string, b2: string, b3: string)
    requires |a1| == |b1| && |a2| == |b2| && |a3| == |b3|
    requires s == a1 + "-" + a2 + "-" + a3 && t == b1 + "-" + b2 + "-" + b3
    ensures LexLess(s, t) <==> LexLess(a1, b1) || (a1 == b1 && (LexLess(a2, b2) || (a2 == b2 && LexLess(a3, b3))))
  {
    var ra, rb := a2 + "-" + a3, b2 + "-" + b3;
    assert s == a1 + "-" + ra;
    assert t == b1 + "-" + rb;
    DashStep(a1, ra, b1, rb);
    DashStep(a2, a3, b2, b3);
  }

  /** Text of the shape a-b-c with fixed-width fields is equal exactly when the fields are. */
  lemma DashedEqual(s: string, t: string, a1: string, a2: string, a3: string, b1: string, b2: string, b3: string)
    requires |a1| == |b1| && |a2| == |b2| && |a3| == |b3|
    requires s == a1 + "-" + a2 + "-" + a3 && t == b1 + "-" + b2 + "-" + b3
    ensures s == t <==> a1 == b1 && a2 == b2 && a3 == b3
  {
    if s == t {
      var i, j := |a1|, |a1| + 1 + |a2|;
      assert s[..i] == a1 && t[..i] == b1;
      assert s[i + 1..j] == a2 && t[i + 1..j] == b2;
      assert s[j + 1..] == a3 && t[j + 1..] == b3;
    }
  }

  /**
   * ISO dates compare as text exactly as the dates compare in time, and
   * different dates have different ISO forms.
   */
  lemma IsoDateOrder(a: Date, b: Date)
    requires ValidDate(a) && ValidDate(b)
    ensures LexLess(IsoDate(a), IsoDate(b)) <==> DateLess(a, b)
    ensures IsoDate(a) == IsoDate(b) <==> a == b
  {
    assert Pow10(4) == 10000 && Pow10(2) == 100;
    DigitsOrder(a.year, b.year, 4);
    DigitsOrder(a.month, b.month, 2);
    DigitsOrder(a.day, b.day, 2);
    DashedOrder(IsoDate(a), IsoDate(b), Digits(a.year, 4), Digits(a.month, 2), Digits(a.day, 2),
                Digits(b.year, 4), Digits(b.month, 2), Digits(b.day, 2));
    DashedEqual(IsoDate(a), IsoDate(b), Digits(a.year, 4), Digits(a.month, 2), Digits(a.day, 2),
                Digits(b.year, 4), Digits(b.month, 2), Digits(b.day, 2));
  }

  /** A naive `datetime.datetime` value. */
  datatype DateTime = DateTime(date: Date, hour: int, minute: int, second: int, microsecond: int)

  predicate ValidDateTime(t: DateTime) {
    && ValidDate(t.date)
    && 0 <= t.hour < 24 && 0 <= t.minute < 60 && 0 <= t.second < 60
    && 0 <= t.microsecond < 1000000
  }

  /** Microseconds from 0001-01-01 00:00:00 to t: what `datetime` subtraction measures. */
  function Micros(t: DateTime): int
    requires ValidDateTime(t)
  {
    (((Ordinal(t.date) * 24 + t.hour) * 60 + t.minute) * 60 + t.second) * 1000000 + t.microsecond
  }

  /**
   * `t.isoformat(" ")`, the text sqlite3's default adapter stores for a
   * `datetime`: "YYYY-MM-DD HH:MM:SS", followed by ".ffffff" when the
   * microsecond is not zero. Characters 1-10 are the date and 12-13 the hour.
   */
  function IsoFormat(t: DateTime): (s: string)
    requires ValidDateTime(t)
    ensures |s| == if t.microsecond == 0 then 19 else 26
    ensures Substr(s, 1, 10) == IsoDate(t.date)
    ensures Substr(s, 12, 2) == Digits(t.hour, 2)
  {
    var s := IsoDate(t.date) + " " + Digits(t.hour, 2) + ":" + Digits(t.minute, 2) + ":" + Digits(t.second, 2)
             + (if t.microsecond != 0 then "." + Digits(t.microsecond, 6) else "");
    assert s[..10] == IsoDate(t.date);
    assert s[11..13] == Digits(t.hour, 2);
    s
  }
}
