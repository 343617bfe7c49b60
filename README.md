# Screen-time tracker, modelled in Dafny

The screen-time tracker is a Windows desktop program. Once a second it samples
which application is in the foreground. Whenever that application changes, it
writes the stretch just ended to a SQLite table `screen_time_log`. The stretch
carries the application's name, its start and end timestamps and its whole
seconds. A set of queries then reads that table back for the charts:

- hours per day for the current week, starting on the last Sunday;
- minutes per hour for one day;
- minutes per application for one day, and for the current week.

This project models that core:

- `tracker.dfy` (module `ActivityTracker`): the `Tracker` object. A class keeps
  the fields `_running`, `_current_app` and `_start_time`, and holds the
  database it writes to. Its methods are proved against pure step functions
  (`PollNext`, `StopNext`, `Step`, `Run`). Lemmas about those functions state
  the tracking policy. They also state that the sessions written under a clock
  that never goes back are well formed and in order.
- `foreground.dfy` (module `Foreground`): the `get_foreground_app` policy. It
  works over an abstract `Probe`, which holds what each Windows and process
  call returned, or `Failed` where the call raised. It models the
  `StringFileInfo\xxxxyyyy\FileDescription` key, with its `%04x` formatting
  and hex round trip.
- `database.dfy` (module `Database`): the `screen_time_log` table as a class.
  `initialize_database` is `CREATE TABLE IF NOT EXISTS`, and `log_session` is
  an append with an AUTOINCREMENT id.
- `data_queries.dfy` (module `DataQueries`): the four queries and
  `get_last_sunday`, over the table's rows. The two `for` loops are methods
  with loop invariants. The SQL is modelled step by step:
  - `substr` is 1-based (module `Text`);
  - `WHERE` filters on the date prefix, and `>=` compares by code point;
  - `GROUP BY` with `SUM`, and `ORDER BY ... DESC`, in module `Grouping`;
  - `dict(fetchall())` followed by `.get(key, 0)`.
- `calendar.dfy` (module `Calendar`): the proleptic Gregorian calendar of
  Python's `datetime`. It covers:
  - ordinals, `weekday()` with Monday as 0;
  - adding and subtracting days, where leaving years 1..9999 is an
    `OverflowError` and is modelled as `None`;
  - `date.isoformat()` and `datetime.isoformat()`, and the fact that ISO dates
    compare as strings exactly as the dates compare.
- `text.dfy` (module `Text`) and `wrappers.dfy` (module `Wrappers`):
  zero-padded decimal digits, code-point string order, SQLite `substr`, and
  `Option`.

Each query takes the table's rows as a parameter, where the source opens
its own connection. `date.today()` and `datetime.now()` become parameters
too: `today` for the queries, and clock readings for the tracker.

Three behaviours of the code are easy to miss:

- Switching to no foreground window (`None`) still stamps a new start time.
  Nothing is logged for the idle stretch, because `None` is falsy at
  `tracker.py:24` (`IdleStretchNotLogged`).
- `stop_tracking` only clears `_running`, so calling it again writes the same
  stretch a second time (`StopBehaviour`).
- The weekly app-usage query filters only on `>=` the last Sunday. It also
  counts rows dated after the following Saturday
  (`WeeklyUsageCountsLaterDays`).

## Model

| member | source | states |
|---|---|---|
| Foreground.Hex4RoundTrip | tracker.py:47 | the four lower-case hex digits `%04x` prints for a 16-bit word read back to that word, so distinct words give distinct digit strings |
| Foreground.DescriptionKey | tracker.py:47 | the file-description key is `StringFileInfo\` + the language and codepage in 4 hex digits each + `\FileDescription`, 39 characters long |
| Foreground.DescriptionKeyInjective | tracker.py:47 | two translation entries give the same key if and only if they are the same entry |
| Foreground.FileDescription | tracker.py:45-48 | the description is found exactly when the translation table was read, is non-empty and its first entry's key is in the version strings, and it is then that entry's value |
| Foreground.ForegroundApp | tracker.py:35-54 | no window, or a failed pid or exe lookup, gives None; otherwise the file description, falling back to the process name when the description lookup fails, and None when the name lookup fails too |
| Foreground.ForegroundAppPolicy | tracker.py:35-54 | an app name is returned if and only if there is a window, its pid and exe are found, and the description or the process name is found; the name is the description when there is one, and the process name otherwise |
| ActivityTracker.WholeSeconds | tracker.py:58 | `int()` of a span truncates toward zero: for a non-negative span the largest whole second not above it, for a negative one the smallest not below it |
| ActivityTracker.Duration | tracker.py:58 | the logged duration is the whole seconds of end minus start, truncated toward zero: for a non-negative span the largest whole second not above it, for a negative span the smallest not below it |
| ActivityTracker.EmptyAppLikeNone | tracker.py:24 | `Truthy` is Python truthiness: with None or the empty name tracked, neither a change of app nor `stop_tracking` (tracker.py:64) writes a session, whatever the start time |
| ActivityTracker.Flush | tracker.py:24-25 | closing the open stretch writes at most one session, and only a valid one |
| ActivityTracker.PollNext | tracker.py:20-28 | one loop iteration keeps the tracker state valid and writes only valid sessions |
| ActivityTracker.PollBehaviour | tracker.py:20-28 | an unchanged app changes nothing and writes nothing; a changed app (None included) restarts the clock on it, and writes exactly one session for the old app, from its start to now, when the old app is truthy and a start is set |
| ActivityTracker.IdleStretchNotLogged | tracker.py:23-28 | after switching to None, the start time stays set; further None samples write nothing, and the next sample, whatever app it names, writes nothing for the idle stretch |
| ActivityTracker.StopNext | tracker.py:62-65 | `stop_tracking` keeps the state valid and writes only valid sessions |
| ActivityTracker.StopBehaviour | tracker.py:62-65 | stopping clears only `running` and writes one session exactly when the app is truthy and a start is set; a second stop writes the same stretch again, ending at the later clock |
| ActivityTracker.Step | tracker.py:19-33 | a sample polls and an exception stops; either way the state stays valid |
| ActivityTracker.Run | tracker.py:19-33 | the loop over a finite script of events keeps the state valid and writes only valid sessions |
| ActivityTracker.FlushChained | tracker.py:56-59 | closing the open stretch at a clock no earlier than its start writes one well-formed session from that start to that clock |
| ActivityTracker.RunChained | tracker.py:19-33 | under a clock that never goes back, the written sessions have non-empty names and durations between zero and their length, and each ends no later than the next one starts |
| ActivityTracker.ChainedConcat | tracker.py:19-33 | two ordered runs of sessions, the second starting after the first ends, are one ordered run |
| ActivityTracker.JoinChained | tracker.py:19-33 | ordered runs within consecutive time windows concatenate to one ordered run that starts in the first window |
| ActivityTracker.ChainedOrdered | tracker.py:56-59 | in an ordered run, every session ends no later than any later session starts |
| ActivityTracker.ChainedWellFormed | tracker.py:56-59 | every session of an ordered run is well formed |
| ActivityTracker.RunUnfold | tracker.py:19-20 | while running with events left, the loop is one step followed by the loop over the rest |
| ActivityTracker.RecordsConcat | database.py:21-28 | rows written for two runs of sessions are the rows of the first followed by those of the second |
| ActivityTracker.Tracker.constructor | tracker.py:10-14 | construction initialises the database without touching its rows, and starts stopped with no app and no start time |
| ActivityTracker.Tracker.LogTime | tracker.py:56-59 | `log_time` appends one row: the current app, its start, the end clock, and the whole seconds between them; earlier rows stay unchanged |
| ActivityTracker.Tracker.Poll | tracker.py:20-28 | one iteration changes the fields as `PollNext` does, and appends exactly the rows of the sessions it writes |
| ActivityTracker.Tracker.StopTracking | tracker.py:62-65 | `stop_tracking` changes the fields as `StopNext` does, and appends exactly the rows of the sessions it writes |
| ActivityTracker.Tracker.Handle | tracker.py:19-33 | the loop body or the exception handler, as `Step` says |
| ActivityTracker.Tracker.StartTracking | tracker.py:16-33 | the loop leaves the fields and the written sessions as `Run` from the running state says; earlier rows stay, and the new rows are exactly those sessions |
| Database.AppendedTrans | database.py:21-28 | appending rows twice is appending both batches, in order |
| Database.ScreenTimeLog.constructor | database.py:3-5 | a fresh database file has no table and no rows |
| Database.ScreenTimeLog.Initialize | database.py:7-19 | `CREATE TABLE IF NOT EXISTS` leaves the table existing, with its rows and id counter unchanged |
| Database.ScreenTimeLog.LogSession | database.py:21-28 | an insert appends one row with the four values and the next AUTOINCREMENT id, larger than every earlier id; without the table, nothing changes |
| Text.Digits | data_queries.py:50 | `f"{i:02d}"` and the fixed-width fields of isoformat are zero-padded decimal digits of the given width |
| Text.DigitsOrder | data_queries.py:15 | zero-padded numbers of one width compare as strings exactly as the numbers compare |
| Text.LexLessConcat | data_queries.py:15 | code-point order on equal-length prefixes decides before the rest |
| Text.LexTotal | data_queries.py:15 | code-point order is total: a text is not below another exactly when it equals it or lies above it |
| Text.Substr | data_queries.py:13 | SQLite `substr(s, start, n)` with start counted from 1: the characters from that position, cut at the end of the string |
| Calendar.Weekday | data_queries.py:89 | `weekday()` is between 0 and 6, and moves with the ordinal day number, Monday being 0 |
| Calendar.SundayOrdinal | data_queries.py:89 | a date is a Sunday if and only if its ordinal is a multiple of 7 |
| Calendar.OrdinalOrder | data_queries.py:92 | dates compare as their ordinals do; equal dates have equal ordinals |
| Calendar.NextDay | data_queries.py:24 | the next day has the next ordinal, and there is none after 9999-12-31 |
| Calendar.PrevDay | data_queries.py:92 | the previous day has the previous ordinal, and there is none before 0001-01-01 |
| Calendar.AddDays | data_queries.py:24 | date + timedelta(days=k) is the date k ordinals later, and an OverflowError (None) past year 9999 |
| Calendar.SubDays | data_queries.py:92 | date - timedelta(days=k) is the date k ordinals earlier, and an OverflowError (None) before year 1 |
| Calendar.IsoDate | data_queries.py:18 | `date.isoformat()` is `YYYY-MM-DD`, 10 characters |
| Calendar.IsoDateOrder | data_queries.py:15 | ISO dates compare as strings in code-point order exactly as the dates compare, and are equal only for equal dates |
| Calendar.IsoFormat | database.py:24-27 | a stored timestamp is `YYYY-MM-DD HH:MM:SS[.ffffff]`, with a space between date and time as sqlite3 stores a `datetime`; its first 10 characters are the ISO date, and characters 12-13 are the two-digit hour |
| Grouping.AddTo | data_queries.py:16 | adding one row to the groups adds its seconds to its key's group only, and keeps keys distinct |
| Grouping.GroupBy | data_queries.py:16 | `GROUP BY` with `SUM`: one entry per distinct key, carrying the sum of that key's seconds, with the same total |
| Grouping.Insert | data_queries.py:64 | insertion adds exactly one entry to the multiset |
| Grouping.InsertSorted | data_queries.py:64 | insertion into a list sorted by descending seconds keeps it sorted |
| Grouping.SortDesc | data_queries.py:64 | `ORDER BY minutes DESC` yields a permutation with non-increasing seconds, the same keys and the same total |
| Grouping.EntryIsKeySum | data_queries.py:59-64 | with distinct keys, each entry's value is the whole sum of its key |
| Grouping.KeySetMembers | data_queries.py:63 | a key is in the key set exactly when some entry carries it |
| Grouping.KeySumConcat | data_queries.py:16 | per-key sums over two row lists add up |
| DataQueries.Select | data_queries.py:12-15 | the `WHERE` step keeps at most every row |
| DataQueries.DatePrefix | data_queries.py:13 | `substr(start_time, 1, 10)` is the first 10 characters of the start time, or all of it when shorter |
| DataQueries.HourField | data_queries.py:38 | `substr(start_time, 12, 2)` is characters 12-13 of the start time, cut short or empty when the text ends first |
| DataQueries.Keep | data_queries.py:15 | `= ?` keeps a row exactly when its date prefix equals the day; `>= ?` keeps it exactly when the prefix equals the bound or is above it in code-point order (also data_queries.py:40, 62, 79) |
| DataQueries.SelectSeconds | data_queries.py:12-16 | the selected pairs sum, per key, to the seconds of the kept rows whose column equals that key |
| DataQueries.SelectTotal | data_queries.py:12-15 | the selected pairs sum to the seconds of all kept rows |
| DataQueries.SelectNames | data_queries.py:59-63 | the selected names are exactly the names of the kept rows |
| DataQueries.ToDict | data_queries.py:19 | `dict(fetchall())` has exactly the result's keys, each mapped to its value when keys are distinct |
| DataQueries.GroupedTable | data_queries.py:12-19 | `data.get(k, 0)` (modelled by `Get`, as used at data_queries.py:26 and 50) after the grouped query is the sum of the seconds of the kept rows whose column is k, and 0 for any other k |
| DataQueries.GroupedLookup | data_queries.py:12-26 | the lookup through select, group and dict agrees with the per-key sum |
| DataQueries.GetLastSunday | data_queries.py:87-92 | the result is a Sunday 0 to 6 days before today, today itself when today is a Sunday; it is an OverflowError (None) exactly when today's ordinal is below 7 |
| DataQueries.LastSundayIsLatest | data_queries.py:87-92 | no Sunday on or before today is later than the returned one |
| DataQueries.SinceDateDay | data_queries.py:15 | for a day not before the first day, the grouped `>=` query's value for that day is all of that day's seconds |
| DataQueries.WeekDayLookup | data_queries.py:12-26 | every day from the last Sunday on finds its full total in the weekly dict |
| DataQueries.DaysFromExtend | data_queries.py:23-26 | one more loop turn extends the days with the next ISO date and the hours with that date's total hours |
| DataQueries.WeekFrom | data_queries.py:21-28 | the loop yields 7 days: day j is the ISO date j days after Sunday and its hours are that date's seconds over 3600; it fails exactly when Sunday + 6 days overflows |
| DataQueries.GetWeeklyData | data_queries.py:7-28 | `get_weekly_data` fails exactly when `get_last_sunday` or a day of its week overflows; otherwise it returns the 7 days from the last Sunday with each day's hours |
| DataQueries.HourNames | data_queries.py:48-50 | the 24 hour keys `f"{i:02d}"` |
| DataQueries.HourNamesDistinct | data_queries.py:48-50 | the 24 hour keys are distinct |
| DataQueries.GetDailyData | data_queries.py:34-52 | `get_daily_data` yields hours 0..23, and for each hour the minutes of that date's rows whose start hour is that hour, 0 when there are none |
| DataQueries.AppUsage | data_queries.py:59-66 | the usage list names each kept app exactly once, and no other app; each app's minutes are its seconds over 60; minutes never increase along the list |
| DataQueries.MinutesSorted | data_queries.py:64 | dividing by 60 keeps the descending order |
| DataQueries.UsageGroups | data_queries.py:59-64 | the sorted groups have distinct names, exactly the kept names, each with its full sum |
| DataQueries.GetDailyAppUsage | data_queries.py:56-67 | `get_daily_app_usage` is the usage list over the rows dated the selected date |
| DataQueries.GetWeeklyAppUsage | data_queries.py:71-84 | `get_weekly_app_usage` fails exactly when `get_last_sunday` does; otherwise it is the usage list over the rows dated on or after the last Sunday |
| DataQueries.WeeklyUsageCountsLaterDays | data_queries.py:79 | a row is counted in the weekly usage if and only if its date is on or after the last Sunday, with no upper bound |
| DataQueries.NothingKept | data_queries.py:26 | a filter that keeps no row gives 0 for every key, 0 in total, and no names |
| DataQueries.DailyUsageEmpty | data_queries.py:56-67 | the daily app list is empty if and only if no row is dated the selected date |
| DataQueries.KeptNameAt | data_queries.py:59-63 | the name of any kept row appears in the result |
| DataQueries.StoredHourField | data_queries.py:38 | characters 12-13 of any stored timestamp are one of the 24 hour keys, so no stored row misses a bucket |
| DataQueries.BucketsSplit | data_queries.py:37-42 | the rows in a set of hour buckets split into the first bucket and the rest |
| DataQueries.BucketsSum | data_queries.py:37-50 | over distinct hour keys, the buckets' seconds add up to the seconds of the rows in any of them |
| DataQueries.AllInBuckets | data_queries.py:37-42 | when every row of the date has its hour among the buckets, the buckets hold all of that date's seconds |
| DataQueries.RealSumMinutes | data_queries.py:38 | summing minutes is the minutes of the summed seconds |
| DataQueries.GroupValues | data_queries.py:60 | the minutes of the groups add up to the minutes of their total |
| DataQueries.DailyTotalsAgree | data_queries.py:34-67 | for a date whose rows all carry an hour field, the 24 hourly minutes of `get_daily_data` add up to the minutes of `get_daily_app_usage` |

## Left out

- `win32gui`, `win32process`, `win32api` and `psutil` are foreign calls. Their
  results, or the exception each raises, are the fields of `Foreground.Probe`.
- Foreground.FileDescription: the version resource is a map of string keys.
  A key that is not in it counts as the call raising, which falls back to the
  process name. Other shapes the call can return are not modelled.
- `datetime.now()` and `date.today()` are clock reads. They are parameters:
  clock readings carried by events, and `today`.
- `time.sleep`, `print(e)` and the thread `main.py` runs the tracker on are
  left out. So is any concurrency between the tracker and the queries.
- ActivityTracker.Tracker.StartTracking: the endless `while self._running`
  loop is modelled over a finite script of events. An exception raised by the
  loop is one `Interrupt` event, which the handler answers with
  `stop_tracking`.
- Database.ScreenTimeLog.LogSession: storage errors (disk full, a locked
  file) are not modelled. The `with get_connection()` commit and rollback are
  modelled as one atomic append.
- The queries read a row sequence, not a connection. The "no such table"
  error of querying before `initialize_database` is therefore not modelled;
  the tracker creates the table in its constructor.
- ActivityTracker.WholeSeconds: it truncates the exact microsecond span. The
  floating-point rounding of `total_seconds()` matters only for spans of
  centuries, and is not modelled.
- DataQueries.GetWeeklyData, DataQueries.GetDailyData, DataQueries.AppUsage:
  `/3600.0` and `/60.0` are exact real divisions. The floating-point
  rounding, and SQLite's REAL affinity of the `duration` column, are not
  modelled.
- Grouping.SortDesc: SQL leaves the order of equal totals unspecified. The
  model picks one order and promises only non-increasing seconds and a
  permutation.
- `main.py` and `mpl_canvas.py` (the Qt window and the charts) are not part of
  this model.
