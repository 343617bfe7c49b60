/**
 * The read-only queries of data_queries.py over the rows of `screen_time_log`:
 * the date and hour fields taken out of `start_time` with `substr`, the
 * `GROUP BY`/`SUM(duration)` tables, the seven-day and 24-hour bucket lists
 * and the per-app usage lists, and `get_last_sunday`.
 */
module DataQueries {
  import opened Wrappers
  import opened Text
  import opened Calendar
  import opened Database
  import opened Grouping

  /** `substr(start_time, 1, 10)`: the date part of a stored start time. */
  function DatePrefix(r: Row): (p: string)
    ensures p <= r.startTime
    ensures |p| == if |r.startTime| < 10 then |r.startTime| else 10
  {
    Substr(r.startTime, 1, 10)
  }

  /** `substr(start_time, 12, 2)`: the hour part of a stored start time. */
  function HourField(r: Row): (h: string)
    ensures |r.startTime| >= 13 ==> h == r.startTime[11..13]
    ensures |r.startTime| == 12 ==> h == r.startTime[11..]
    ensures |r.startTime| <= 11 ==> h == ""
  {
    Substr(r.startTime, 12, 2)
  }

  /** The two `WHERE` clauses: `substr(start_time, 1, 10) = ?` and `... >= ?`. */
  datatype Filter = OnDate(day: string) | SinceDate(first: string)

  /** Whether a row passes the `WHERE` clause; `>=` is SQLite's text comparison. */
  predicate Keep(r: Row, f: Filter): (b: bool)
    ensures f.OnDate? ==> (b <==> DatePrefix(r) == f.day)
    ensures f.SinceDate? ==> (b <==> DatePrefix(r) == f.first || LexLess(f.first, DatePrefix(r)))
  {
    match f
    case OnDate(day) => DatePrefix(r) == day
    case SinceDate(first) =>
      LexTotal(DatePrefix(r), first);
      !LexLess(DatePrefix(r), first)
  }

  /** The three `GROUP BY` columns: the date part, the hour part and `process_name`. */
  datatype Column = DateColumn | HourColumn | NameColumn

  function Project(r: Row, c: Column): string {
    match c
    case DateColumn => DatePrefix(r)
    case HourColumn => HourField(r)
    case NameColumn => r.processName
  }

  /** The (grouping text, duration) pairs of the rows the filter keeps, in table order. */
  function Select(rows: seq<Row>, f: Filter, c: Column): (ps: seq<Pair>)
    ensures |ps| <= |rows|
  {
    if rows == [] then []
    else (if Keep(rows[0], f) then [(Project(rows[0], c), rows[0].duration)] else []) + Select(rows[1..], f, c)
  }

  /** Specification: the seconds of the rows the filter keeps. */
  function KeptSeconds(rows: seq<Row>, f: Filter): int {
    if rows == [] then 0
    else (if Keep(rows[0], f) then rows[0].duration else 0) + KeptSeconds(rows[1..], f)
  }

  /** Specification: the seconds of the rows the filter keeps and whose column c reads k. */
  function Seconds(rows: seq<Row>, f: Filter, c: Column, k: string): int {
    if rows == [] then 0
    else (if Keep(rows[0], f) && Project(rows[0], c) == k then rows[0].duration else 0) + Seconds(rows[1..], f, c, k)
  }

  /** Specification: the `process_name`s of the rows the filter keeps. */
  function KeptNames(rows: seq<Row>, f: Filter): set<string> {
    if rows == [] then {}
    else (if Keep(rows[0], f) then {rows[0].processName} else {}) + KeptNames(rows[1..], f)
  }

  /** Summing a selection per key adds up exactly the durations of the kept rows with that key. */
  lemma {:induction false} SelectSeconds(rows: seq<Row>, f: Filter, c: Column, k: string)
    ensures KeySum(Select(rows, f, c), k) == Seconds(rows, f, c, k)
  {
    if rows != [] {
      var head := if Keep(rows[0], f) then [(Project(rows[0], c), rows[0].duration)] else [];
      SelectSeconds(rows[1..], f, c, k);
      KeySumConcat(head, Select(rows[1..], f, c), k);
    }
  }

  /** The whole selection carries the durations of the kept rows. */
  lemma {:induction false} SelectTotal(rows: seq<Row>, f: Filter, c: Column)
    ensures Total(Select(rows, f, c)) == KeptSeconds(rows, f)
  {
    if rows != [] {
      var head := if Keep(rows[0], f) then [(Project(rows[0], c), rows[0].duration)] else [];
      SelectTotal(rows[1..], f, c);
      TotalConcat(head, Select(rows[1..], f, c));
    }
  }

  /** The names a selection by `process_name` groups are the names of the kept rows. */
  lemma {:induction false} SelectNames(rows: seq<Row>, f: Filter)
    ensures KeySet(Select(rows, f, NameColumn)) == KeptNames(rows, f)
  {
    if rows != [] {
      var head := if Keep(rows[0], f) then [(rows[0].processName, rows[0].duration)] else [];
      SelectNames(rows[1..], f);
      KeySetConcat(head, Select(rows[1..], f, NameColumn));
    }
  }

  /**
   * `dict(cursor.fetchall())` over (key, seconds) pairs: every key maps to the
   * seconds of its last pair. The queries divide by 60.0 or 3600.0 in SQL; here
   * the dictionary keeps the integer sums and the division is applied on lookup.
   */
  function ToDict(ps: seq<Pair>): (m: map<string, int>)
    ensures m.Keys == KeySet(ps)
    ensures DistinctKeys(ps) ==> forall k :: k in m ==> m[k] == KeySum(ps, k)
  {
    if ps == [] then map[]
    else
      var rest := ToDict(ps[1..]);
      if ps[0].0 in rest then rest
      else
        KeySumAbsent(ps[1..], ps[0].0);
        rest[ps[0].0 := ps[0].1]
  }

  /** `data.get(key, 0)`. */
  function Get(data: map<string, int>, key: string): (v: int)
    ensures key in data ==> v == data[key]
    ensures key !in data ==> v == 0
  {
    if key in data then data[key] else 0
  }

  /**
   * `dict(cursor.fetchall())` of `SELECT <c>, SUM(duration) ... WHERE <f> GROUP BY <c>`:
   * looking up any key gives the seconds of the kept rows whose column reads that key, or 0.
   */
  function GroupedTable(rows: seq<Row>, f: Filter, c: Column): (data: map<string, int>)
    ensures forall k :: Get(data, k) == Seconds(rows, f, c, k)
  {
    var data := ToDict(GroupBy(Select(rows, f, c)));
    assert forall k :: Get(data, k) == Seconds(rows, f, c, k) by {
      forall k ensures Get(data, k) == Seconds(rows, f, c, k) {
        GroupedLookup(rows, f, c, k);
      }
    }
    data
  }

  /** Looking a key up in the grouped table yields the seconds of the kept rows with that key, or 0. */
  lemma GroupedLookup(rows: seq<Row>, f: Filter, c: Column, k: string)
    ensures Get(ToDict(GroupBy(Select(rows, f, c))), k) == Seconds(rows, f, c, k)
  {
    var ps := Select(rows, f, c);
    SelectSeconds(rows, f, c, k);
    if k !in KeySet(GroupBy(ps)) {
      KeySumAbsent(GroupBy(ps), k);
    }
  }

  /** Seconds to `SUM(duration)/3600.0`. */
  function Hours(secs: int): real {
    secs as real / 3600.0
  }

  /** Seconds to `SUM(duration)/60.0`. */
  function Minutes(secs: int): real {
    secs as real / 60.0
  }

  /**
   * `get_last_sunday()` for `today`: today when it is a Sunday, else
   * `today - timedelta(days=today.weekday() + 1)`; None where Python raises
   * OverflowError, which happens only before the first Sunday of year 1.
   */
  function GetLastSunday(today: Date): (r: Option<Date>)
    requires ValidDate(today)
    ensures r.Some? ==> ValidDate(r.value) && Weekday(r.value) == 6
    ensures r.Some? ==> 0 <= Ordinal(today) - Ordinal(r.value) <= 6
    ensures r.None? <==> Ordinal(today) < 7
  {
    var wd := Weekday(today);
    OrdinalRange(today);
    WeekArithmetic(Ordinal(today), wd);
    if wd == 6 then
      SundayOrdinal(today);
      Some(today)
    else
      var r := SubDays(today, wd + 1);
      assert r.Some? ==> Weekday(r.value) == 6 by {
        if r.Some? {
          SundayOrdinal(r.value);
        }
      }
      r
  }

  /** The day counting behind `get_last_sunday`, given `(ordinal - weekday) % 7 == 1`. */
  lemma WeekArithmetic(o: int, w: int)
    requires 1 <= o && 0 <= w <= 6 && (o - w) % 7 == 1
    ensures w == 6 ==> o % 7 == 0 && o >= 7
    ensures w != 6 ==> (o - (w + 1)) % 7 == 0 && (o - (w + 1) >= 1 <==> o >= 7)
  {
    var q := (o - w) / 7;
    assert o - w == 7 * q + 1;
  }

  /** No Sunday lies after `get_last_sunday()` and on or before today. */
  lemma LastSundayIsLatest(today: Date, sunday: Date)
    requires ValidDate(today) && ValidDate(sunday) && GetLastSunday(today).Some?
    requires Weekday(sunday) == 6 && Ordinal(sunday) <= Ordinal(today)
    ensures Ordinal(sunday) <= Ordinal(GetLastSunday(today).value)
  {
    var last := GetLastSunday(today).value;
    SundayOrdinal(last);
    SundayOrdinal(sunday);
    SevenApart(Ordinal(last), Ordinal(sunday), Ordinal(today));
  }

  /** Of two multiples of 7 at most the later lies within the 7 days up to t. */
  lemma SevenApart(last: int, other: int, t: int)
    requires last % 7 == 0 && other % 7 == 0
    requires last <= t <= last + 6 && other <= t
    ensures other <= last
  {
    var ql, qo := last / 7, other / 7;
    assert last == 7 * ql && other == 7 * qo;
  }

  /** Under the lower-bound filter, the rows of a day on or after the bound are exactly the rows of that day. */
  lemma {:induction false} SinceDateDay(rows: seq<Row>, first: string, day: string)
    requires !LexLess(day, first)
    ensures Seconds(rows, SinceDate(first), DateColumn, day) == KeptSeconds(rows, OnDate(day))
  {
    if rows != [] {
      SinceDateDay(rows[1..], first, day);
    }
  }

  /** The weekly table's entry for a day from the Sunday on holds that day's seconds. */
  lemma WeekDayLookup(rows: seq<Row>, sunday: Date, d: Date)
    requires ValidDate(sunday) && ValidDate(d) && Ordinal(sunday) <= Ordinal(d)
    ensures Seconds(rows, SinceDate(IsoDate(sunday)), DateColumn, IsoDate(d)) == KeptSeconds(rows, OnDate(IsoDate(d)))
  {
    IsoDateOrder(d, sunday);
    OrdinalOrder(d, sunday);
    SinceDateDay(rows, IsoDate(sunday), IsoDate(d));
  }

  /** What `get_weekly_data()` returns: the ISO dates of the week and the hours of each. */
  datatype Week = Week(days: seq<string>, hours: seq<real>)

  /**
   * `get_weekly_data()` with `today` for `date.today()`: the seven dates from the
   * last Sunday on, each with the hours of the rows dated that day (0 when there
   * are none). None where Python raises OverflowError: no last Sunday, or a
   * week running past 9999-12-31.
   */
  method GetWeeklyData(rows: seq<Row>, today: Date) returns (week: Option<Week>)
    requires ValidDate(today)
    ensures week.None? <==> GetLastSunday(today).None? || AddDays(GetLastSunday(today).value, 6).None?
    ensures week.Some? ==> IsWeekFrom(rows, GetLastSunday(today).value, week.value)
  {
    var last := GetLastSunday(today);
    if last.None? {
      return None;
    }
    week := WeekFrom(rows, last.value);
  }

  /** The seven days from `sunday` on as ISO dates, each with the hours of the rows dated that day. */
  ghost predicate IsWeekFrom(rows: seq<Row>, sunday: Date, week: Week)
    requires ValidDate(sunday)
  {
    |week.days| == 7 && DaysFrom(rows, sunday, week.days, week.hours)
  }

  /** Day j from `sunday` on as an ISO date, with the hours of the rows dated that day; None past 9999-12-31. */
  ghost function DayOf(rows: seq<Row>, sunday: Date, j: nat): Option<(string, real)>
    requires ValidDate(sunday)
  {
    match AddDays(sunday, j)
    case None => None
    case Some(d) => Some((IsoDate(d), Hours(KeptSeconds(rows, OnDate(IsoDate(d))))))
  }

  /** Day j from `sunday` on is `day` as an ISO date, and `hour` is the hours of the rows dated that day. */
  ghost predicate DayEntry(rows: seq<Row>, sunday: Date, j: nat, day: string, hour: real)
    requires ValidDate(sunday)
  {
    DayOf(rows, sunday, j) == Some((day, hour))
  }

  /** The first |days| days from `sunday` on as ISO dates, each with the hours of the rows dated that day. */
  ghost predicate DaysFrom(rows: seq<Row>, sunday: Date, days: seq<string>, hours: seq<real>)
    requires ValidDate(sunday)
  {
    |days| == |hours| && forall j :: 0 <= j < |days| ==> DayEntry(rows, sunday, j, days[j], hours[j])
  }

  /** One more turn of the loop in `get_weekly_data()`: the next date and its hours extend both lists. */
  lemma {:induction false} DaysFromExtend(rows: seq<Row>, sunday: Date, days: seq<string>, hours: seq<real>, date: Date)
    requires ValidDate(sunday) && DaysFrom(rows, sunday, days, hours)
    requires AddDays(sunday, |days|) == Some(date)
    ensures DaysFrom(rows, sunday, days + [IsoDate(date)], hours + [Hours(KeptSeconds(rows, OnDate(IsoDate(date))))])
  {
    var days', hours' := days + [IsoDate(date)], hours + [Hours(KeptSeconds(rows, OnDate(IsoDate(date))))];
    forall j | 0 <= j < |days'| ensures DayEntry(rows, sunday, j, days'[j], hours'[j]) {
      if j < |days| {
        assert days'[j] == days[j] && hours'[j] == hours[j];
        assert DayEntry(rows, sunday, j, days[j], hours[j]);
      } else {
        assert j == |days|;
        assert days'[j] == IsoDate(date) && hours'[j] == Hours(KeptSeconds(rows, OnDate(IsoDate(date))));
      }
    }
    assert |days'| == |hours'|;
  }

  /** The query and the loop of `get_weekly_data()` once the last Sunday is known. */
  method WeekFrom(rows: seq<Row>, sunday: Date) returns (week: Option<Week>)
    requires ValidDate(sunday)
    ensures week.None? <==> AddDays(sunday, 6).None?
    ensures week.Some? ==> IsWeekFrom(rows, sunday, week.value)
  {
    var data := GroupedTable(rows, SinceDate(IsoDate(sunday)), DateColumn);
    var days, hours := [], [];
    for i := 0 to 7
      invariant |days| == i
      invariant DaysFrom(rows, sunday, days, hours)
    {
      var date := AddDays(sunday, i);
      if date.None? {
        return None;
      }
      var day := IsoDate(date.value);
      WeekDayLookup(rows, sunday, date.value);
      DaysFromExtend(rows, sunday, days, hours, date.value);
      days, hours := days + [day], hours + [Hours(Get(data, day))];
    }
    assert DayEntry(rows, sunday, 6, days[6], hours[6]);
    return Some(Week(days, hours));
  }

  /** The hour texts `f"{i:02d}"` for i from 0 to 23, in order. */
  function HourNames(): (hs: seq<string>)
    ensures |hs| == 24
  {
    seq(24, h requires 0 <= h < 24 => Digits(h, 2))
  }

  /**
   * `get_daily_data(selected_date)`: the hours 0 to 23 and, for each, the
   * minutes of the rows dated `selectedDate` whose hour field is that hour
   * written in two digits (0 when there are none).
   */
  method GetDailyData(rows: seq<Row>, selectedDate: string) returns (hours: seq<int>, minutes: seq<real>)
    ensures |hours| == 24 && forall h :: 0 <= h < 24 ==> hours[h] == h
    ensures |minutes| == 24
    ensures forall h :: 0 <= h < 24 ==>
              minutes[h] == Minutes(Seconds(rows, OnDate(selectedDate), HourColumn, HourNames()[h]))
  {
    var data := GroupedTable(rows, OnDate(selectedDate), HourColumn);
    hours, minutes := [], [];
    for i := 0 to 24
      invariant |hours| == i && forall h :: 0 <= h < i ==> hours[h] == h
      invariant |minutes| == i
      invariant forall h :: 0 <= h < i ==>
                  minutes[h] == Minutes(Seconds(rows, OnDate(selectedDate), HourColumn, HourNames()[h]))
    {
      hours := hours + [i];
      minutes := minutes + [Minutes(Get(data, Digits(i, 2)))];
    }
  }

  /** (name, minutes) entries from (name, seconds) groups. */
  function ToMinutes(gs: seq<Pair>): (es: seq<(string, real)>)
    ensures |es| == |gs|
    ensures forall i :: 0 <= i < |gs| ==> es[i].0 == gs[i].0 && es[i].1 == Minutes(gs[i].1)
  {
    seq(|gs|, i requires 0 <= i < |gs| => (gs[i].0, Minutes(gs[i].1)))
  }

  /**
   * `SELECT process_name, SUM(duration)/60.0 AS minutes ... WHERE <f> GROUP BY
   * process_name ORDER BY minutes DESC`: every name among the kept rows once,
   * with the minutes of its kept rows, most minutes first. SQL leaves the order
   * of ties open; this is one of the permitted orders.
   */
  function AppUsage(rows: seq<Row>, f: Filter): (usage: seq<(string, real)>)
    ensures forall i, j :: 0 <= i < j < |usage| ==> usage[i].0 != usage[j].0
    ensures forall i, j :: 0 <= i < j < |usage| ==> usage[i].1 >= usage[j].1
    ensures forall i :: 0 <= i < |usage| ==> usage[i].1 == Minutes(Seconds(rows, f, NameColumn, usage[i].0))
    ensures forall n :: n in KeptNames(rows, f) <==> exists i :: 0 <= i < |usage| && usage[i].0 == n
  {
    var gs := SortDesc(GroupBy(Select(rows, f, NameColumn)));
    UsageGroups(rows, f);
    KeySetMembers(gs);
    MinutesSorted(gs);
    ToMinutes(gs)
  }

  /** Converting to minutes keeps the order of a list sorted by non-increasing seconds. */
  lemma MinutesSorted(gs: seq<Pair>)
    requires SortedDesc(gs)
    ensures forall i, j :: 0 <= i < j < |gs| ==> ToMinutes(gs)[i].1 >= ToMinutes(gs)[j].1
  {
    var es := ToMinutes(gs);
    forall i, j | 0 <= i < j < |gs| ensures es[i].1 >= es[j].1 {
      assert gs[i].1 >= gs[j].1;
    }
  }

  /** The sorted groups of a usage query: distinct names, most seconds first, each with its kept rows' seconds. */
  lemma UsageGroups(rows: seq<Row>, f: Filter)
    ensures var gs := SortDesc(GroupBy(Select(rows, f, NameColumn)));
            && (forall i, j :: 0 <= i < j < |gs| ==> gs[i].0 != gs[j].0)
            && SortedDesc(gs)
            && (forall i :: 0 <= i < |gs| ==> gs[i].1 == Seconds(rows, f, NameColumn, gs[i].0))
            && KeySet(gs) == KeptNames(rows, f)
  {
    var ps := Select(rows, f, NameColumn);
    var grouped := GroupBy(ps);
    var gs := SortDesc(grouped);
    DistinctAt(gs);
    SelectNames(rows, f);
    forall i | 0 <= i < |gs| ensures gs[i].1 == Seconds(rows, f, NameColumn, gs[i].0) {
      assert gs[i] in multiset(grouped);
      var j :| 0 <= j < |grouped| && grouped[j] == gs[i];
      EntryIsKeySum(grouped, j);
      SelectSeconds(rows, f, NameColumn, gs[i].0);
    }
  }

  /** `get_daily_app_usage(selected_date)`. */
  function GetDailyAppUsage(rows: seq<Row>, selectedDate: string): (usage: seq<(string, real)>)
    ensures usage == AppUsage(rows, OnDate(selectedDate))
  {
    AppUsage(rows, OnDate(selectedDate))
  }

  /**
   * `get_weekly_app_usage()` with `today` for `date.today()`: the usage of the
   * rows dated on or after the last Sunday, compared as text; None where
   * `get_last_sunday` raises OverflowError.
   */
  function GetWeeklyAppUsage(rows: seq<Row>, today: Date): (usage: Option<seq<(string, real)>>)
    requires ValidDate(today)
    ensures usage.None? <==> GetLastSunday(today).None?
    ensures usage.Some? ==> usage.value == AppUsage(rows, SinceDate(IsoDate(GetLastSunday(today).value)))
  {
    match GetLastSunday(today)
    case None => None
    case Some(sunday) => Some(AppUsage(rows, SinceDate(IsoDate(sunday))))
  }

  /**
   * The weekly usage filter is only a lower bound: a row dated any day from the
   * last Sunday on, including days after the following Saturday, is counted.
   */
  lemma WeeklyUsageCountsLaterDays(r: Row, today: Date, d: Date)
    requires ValidDate(today) && ValidDate(d) && GetLastSunday(today).Some?
    requires DatePrefix(r) == IsoDate(d)
    ensures Keep(r, SinceDate(IsoDate(GetLastSunday(today).value))) <==>
            Ordinal(GetLastSunday(today).value) <= Ordinal(d)
  {
    var sunday := GetLastSunday(today).value;
    IsoDateOrder(d, sunday);
    OrdinalOrder(d, sunday);
  }

  /** A filter that keeps no row gives zero seconds for every key and no names. */
  lemma {:induction false} NothingKept(rows: seq<Row>, f: Filter, c: Column, k: string)
    requires forall j :: 0 <= j < |rows| ==> !Keep(rows[j], f)
    ensures KeptSeconds(rows, f) == 0 && Seconds(rows, f, c, k) == 0 && KeptNames(rows, f) == {}
  {
    if rows != [] {
      assert forall j :: 0 <= j < |rows[1..]| ==> rows[1..][j] == rows[j + 1];
      NothingKept(rows[1..], f, c, k);
    }
  }

  /** With no row dated `selectedDate` the app list is empty, and with one it is not. */
  lemma DailyUsageEmpty(rows: seq<Row>, selectedDate: string)
    ensures GetDailyAppUsage(rows, selectedDate) == [] <==>
            forall j :: 0 <= j < |rows| ==> DatePrefix(rows[j]) != selectedDate
  {
    var usage := GetDailyAppUsage(rows, selectedDate);
    if forall j :: 0 <= j < |rows| ==> DatePrefix(rows[j]) != selectedDate {
      NothingKept(rows, OnDate(selectedDate), NameColumn, "");
    } else {
      var j :| 0 <= j < |rows| && DatePrefix(rows[j]) == selectedDate;
      KeptNameAt(rows, OnDate(selectedDate), j);
    }
  }

  lemma {:induction false} KeptNameAt(rows: seq<Row>, f: Filter, j: int)
    requires 0 <= j < |rows| && Keep(rows[j], f)
    ensures rows[j].processName in KeptNames(rows, f)
  {
    if j > 0 {
      KeptNameAt(rows[1..], f, j - 1);
    }
  }

  function IntSum(xs: seq<int>): int {
    if xs == [] then 0 else xs[0] + IntSum(xs[1..])
  }

  function RealSum(xs: seq<real>): real {
    if xs == [] then 0.0 else xs[0] + RealSum(xs[1..])
  }

  /** The minutes of a list of second counts add up to the minutes of their sum. */
  lemma {:induction false} RealSumMinutes(xs: seq<int>, ys: seq<real>)
    requires |xs| == |ys| && forall i :: 0 <= i < |xs| ==> ys[i] == Minutes(xs[i])
    ensures RealSum(ys) == Minutes(IntSum(xs))
  {
    if xs != [] {
      RealSumMinutes(xs[1..], ys[1..]);
    }
  }

  /** The seconds of the rows dated `day` whose hour field is one of hs. */
  function InBuckets(rows: seq<Row>, day: string, hs: seq<string>): int {
    if rows == [] then 0
    else (if DatePrefix(rows[0]) == day && HourField(rows[0]) in hs then rows[0].duration else 0)
         + InBuckets(rows[1..], day, hs)
  }

  function BucketSeconds(rows: seq<Row>, day: string, hs: seq<string>): (xs: seq<int>)
    ensures |xs| == |hs|
    ensures forall i :: 0 <= i < |hs| ==> xs[i] == Seconds(rows, OnDate(day), HourColumn, hs[i])
  {
    seq(|hs|, i requires 0 <= i < |hs| => Seconds(rows, OnDate(day), HourColumn, hs[i]))
  }

  lemma {:induction false} BucketsSplit(rows: seq<Row>, day: string, h: string, hs: seq<string>)
    requires h !in hs
    ensures InBuckets(rows, day, [h] + hs) == Seconds(rows, OnDate(day), HourColumn, h) + InBuckets(rows, day, hs)
  {
    if rows != [] {
      BucketsSplit(rows[1..], day, h, hs);
    }
  }

  /** Summing the hour buckets of distinct hour texts adds up the rows in any of them. */
  lemma {:induction false} BucketsSum(rows: seq<Row>, day: string, hs: seq<string>)
    requires forall i, j :: 0 <= i < j < |hs| ==> hs[i] != hs[j]
    ensures IntSum(BucketSeconds(rows, day, hs)) == InBuckets(rows, day, hs)
  {
    if hs == [] {
      EmptyBuckets(rows, day);
    } else {
      assert BucketSeconds(rows, day, hs)[1..] == BucketSeconds(rows, day, hs[1..]);
      BucketsSum(rows, day, hs[1..]);
      assert hs == [hs[0]] + hs[1..];
      BucketsSplit(rows, day, hs[0], hs[1..]);
    }
  }

  lemma {:induction false} EmptyBuckets(rows: seq<Row>, day: string)
    ensures InBuckets(rows, day, []) == 0
  {
    if rows != [] {
      EmptyBuckets(rows[1..], day);
    }
  }

  /** When every row dated `day` has an hour field among hs, the buckets hold all of that day's seconds. */
  lemma {:induction false} AllInBuckets(rows: seq<Row>, day: string, hs: seq<string>)
    requires forall j :: 0 <= j < |rows| && DatePrefix(rows[j]) == day ==> HourField(rows[j]) in hs
    ensures InBuckets(rows, day, hs) == KeptSeconds(rows, OnDate(day))
  {
    if rows != [] {
      assert forall j :: 0 <= j < |rows[1..]| ==> rows[1..][j] == rows[j + 1];
      AllInBuckets(rows[1..], day, hs);
    }
  }

  /** The 24 hour texts differ from one another. */
  lemma HourNamesDistinct()
    ensures forall i, j :: 0 <= i < j < 24 ==> HourNames()[i] != HourNames()[j]
  {
    assert Pow10(2) == 100;
    forall i, j | 0 <= i < j < 24 ensures HourNames()[i] != HourNames()[j] {
      DigitsOrder(i, j, 2);
    }
  }

  /** A start time the tracker stores has one of the 24 hour texts as its hour field. */
  lemma StoredHourField(t: DateTime)
    requires ValidDateTime(t)
    ensures Substr(IsoFormat(t), 12, 2) in HourNames()
  {
    assert HourNames()[t.hour] == Digits(t.hour, 2);
  }

  lemma {:induction false} GroupValues(gs: seq<Pair>, ys: seq<real>)
    requires |ys| == |gs| && forall i :: 0 <= i < |gs| ==> ys[i] == Minutes(gs[i].1)
    ensures RealSum(ys) == Minutes(Total(gs))
  {
    if gs != [] {
      GroupValues(gs[1..], ys[1..]);
    }
  }

  /**
   * For a date whose rows all have an hour field "00" to "23", the 24 minute
   * figures of `get_daily_data` add up to the same total as the minutes of
   * `get_daily_app_usage`.
   */
  lemma DailyTotalsAgree(rows: seq<Row>, selectedDate: string, minutes: seq<real>)
    requires forall j :: 0 <= j < |rows| && DatePrefix(rows[j]) == selectedDate ==> HourField(rows[j]) in HourNames()
    requires |minutes| == 24
    requires forall h :: 0 <= h < 24 ==>
               minutes[h] == Minutes(Seconds(rows, OnDate(selectedDate), HourColumn, HourNames()[h]))
    ensures RealSum(minutes) == RealSum(Figures(GetDailyAppUsage(rows, selectedDate)))
  {
    var xs := BucketSeconds(rows, selectedDate, HourNames());
    RealSumMinutes(xs, minutes);
    HourNamesDistinct();
    BucketsSum(rows, selectedDate, HourNames());
    AllInBuckets(rows, selectedDate, HourNames());
    var ps := Select(rows, OnDate(selectedDate), NameColumn);
    var gs := SortDesc(GroupBy(ps));
    SelectTotal(rows, OnDate(selectedDate), NameColumn);
    GroupValues(gs, Figures(ToMinutes(gs)));
  }

  /** The minute figures of a usage list, in order. */
  function Figures(usage: seq<(string, real)>): (ys: seq<real>)
    ensures |ys| == |usage| && forall i :: 0 <= i < |usage| ==> ys[i] == usage[i].1
  {
    seq(|usage|, i requires 0 <= i < |usage| => usage[i].1)
  }
}
