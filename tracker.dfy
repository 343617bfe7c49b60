/**
 * The foreground-activity tracker of tracker.py. The polling loop's state
 * transitions are first given as functions on a `State` value (`PollNext`,
 * `StopNext`, `Run`); the `Tracker` class, whose fields the loop updates in
 * place, is proved against them.
 */
module ActivityTracker {
  import opened Wrappers
  import opened Calendar
  import opened Database

  /** One completed session, as `log_time` passes it to `log_session`. */
  datatype Session = Session(app: string, start: DateTime, end: DateTime, duration: int)

  predicate ValidSession(s: Session) {
    ValidDateTime(s.start) && ValidDateTime(s.end)
  }

  /** `int(micros / 10**6)`: whole seconds, rounded toward zero as Python's `int()` does. */
  function WholeSeconds(micros: int): (secs: int)
    ensures micros >= 0 ==> 0 <= secs && secs * 1000000 <= micros < (secs + 1) * 1000000
    ensures micros < 0 ==> secs <= 0 && (secs - 1) * 1000000 < micros <= secs * 1000000
  {
    if micros >= 0 then micros / 1000000 else -((-micros) / 1000000)
  }

  /** `int((end_time - start_time).total_seconds())`. */
  function Duration(start: DateTime, end: DateTime): (d: int)
    requires ValidDateTime(start) && ValidDateTime(end)
    ensures Micros(start) <= Micros(end) ==>
              0 <= d && d * 1000000 <= Micros(end) - Micros(start) < (d + 1) * 1000000
    ensures Micros(end) < Micros(start) ==>
              d <= 0 && (d - 1) * 1000000 < Micros(end) - Micros(start) <= d * 1000000
  {
    WholeSeconds(Micros(end) - Micros(start))
  }

  /** The row `log_session` receives for a session: timestamps as sqlite3 stores a `datetime`. */
  function Record(s: Session): Entry
    requires ValidSession(s)
  {
    Entry(s.app, IsoFormat(s.start), IsoFormat(s.end), s.duration)
  }

  function Records(ss: seq<Session>): (es: seq<Entry>)
    requires forall s | s in ss :: ValidSession(s)
    ensures |es| == |ss|
    ensures forall i :: 0 <= i < |ss| ==> es[i] == Record(ss[i])
  {
    seq(|ss|, i requires 0 <= i < |ss| => Record(ss[i]))
  }

  /** Python truthiness of the tracked app: both None and "" are false. */
  predicate Truthy(app: Option<string>): (b: bool)
    ensures b <==> app != None && app != Some("")
  {
    app.Some? && app.value != ""
  }

  /** The tracker's fields `_running`, `_current_app` and `_start_time`. */
  datatype State = State(running: bool, currentApp: Option<string>, startTime: Option<DateTime>)

  predicate ValidState(s: State) {
    s.startTime.Some? ==> ValidDateTime(s.startTime.value)
  }

  /**
   * The sessions written when the open stretch is closed at `clock`: one
   * exactly when `self._current_app and self._start_time` holds (tracker.py
   * lines 24 and 64), none otherwise.
   */
  function Flush(s: State, clock: DateTime): (out: seq<Session>)
    requires ValidState(s) && ValidDateTime(clock)
    ensures |out| <= 1 && forall x | x in out :: ValidSession(x)
  {
    if Truthy(s.currentApp) && s.startTime.Some? then
      [Session(s.currentApp.value, s.startTime.value, clock, Duration(s.startTime.value, clock))]
    else
      []
  }

  /**
   * One iteration of the `while self._running` loop, after `get_foreground_app`
   * returned `observed`. `logClock` is the `now()` read by `log_time`,
   * `startClock` the one read on line 27.
   */
  function PollNext(s: State, observed: Option<string>, logClock: DateTime, startClock: DateTime): (r: (State, seq<Session>))
    requires ValidState(s) && ValidDateTime(logClock) && ValidDateTime(startClock)
    ensures ValidState(r.0) && forall x | x in r.1 :: ValidSession(x)
  {
    if observed == s.currentApp then (s, [])
    else (State(s.running, observed, Some(startClock)), Flush(s, logClock))
  }

  /** `stop_tracking`: clear `_running` and flush, keeping `_current_app` and `_start_time`. */
  function StopNext(s: State, clock: DateTime): (r: (State, seq<Session>))
    requires ValidState(s) && ValidDateTime(clock)
    ensures ValidState(r.0) && forall x | x in r.1 :: ValidSession(x)
  {
    (s.(running := false), Flush(s, clock))
  }

  /**
   * One loop iteration, case by case: an unchanged app changes nothing and
   * writes nothing; a changed one restarts the clock on the new app (None
   * included) and writes exactly one session, for the old app from its start
   * to `logClock`, when the old app is truthy and a start time is set.
   */
  lemma PollBehaviour(s: State, observed: Option<string>, logClock: DateTime, startClock: DateTime)
    requires ValidState(s) && ValidDateTime(logClock) && ValidDateTime(startClock)
    ensures var (s', out) := PollNext(s, observed, logClock, startClock);
            && (observed == s.currentApp ==> s' == s && out == [])
            && (observed != s.currentApp ==>
                  && s'.running == s.running && s'.currentApp == observed && s'.startTime == Some(startClock)
                  && |out| == (if Truthy(s.currentApp) && s.startTime.Some? then 1 else 0)
                  && forall x | x in out :: x == Session(s.currentApp.value, s.startTime.value, logClock,
                                                         Duration(s.startTime.value, logClock)))
  {
  }

  /** Switching to no app keeps a start time and writes nothing for the idle stretch that follows. */
  lemma IdleStretchNotLogged(s: State, logClock: DateTime, startClock: DateTime, next: Option<string>, c1: DateTime, c2: DateTime)
    requires ValidState(s) && s.currentApp.Some?
    requires ValidDateTime(logClock) && ValidDateTime(startClock) && ValidDateTime(c1) && ValidDateTime(c2)
    ensures var idle := PollNext(s, None, logClock, startClock).0;
            && idle.startTime == Some(startClock)
            && PollNext(idle, None, c1, c2) == (idle, [])
            && PollNext(idle, next, c1, c2).1 == []
  {
  }

  /**
   * An empty app name is falsy like None: with it tracked, neither a change of
   * app nor `stop_tracking` writes a session, whatever the start time.
   */
  lemma EmptyAppLikeNone(s: State, observed: Option<string>, c1: DateTime, c2: DateTime)
    requires ValidState(s) && (s.currentApp == None || s.currentApp == Some(""))
    requires ValidDateTime(c1) && ValidDateTime(c2)
    ensures PollNext(s, observed, c1, c2).1 == [] && StopNext(s, c1).1 == []
  {
  }

  /**
   * `stop_tracking` clears `_running` only and writes one session exactly when
   * the app is truthy and a start time is set; as nothing else is cleared, a
   * second call writes the same stretch again, up to the later clock.
   */
  lemma StopBehaviour(s: State, c1: DateTime, c2: DateTime)
    requires ValidState(s) && ValidDateTime(c1) && ValidDateTime(c2)
    ensures var (s', out) := StopNext(s, c1);
            && !s'.running && s'.currentApp == s.currentApp && s'.startTime == s.startTime
            && |out| == (if Truthy(s.currentApp) && s.startTime.Some? then 1 else 0)
            && |StopNext(s', c2).1| == |out|
            && (out != [] ==> StopNext(s', c2).1[0].start == out[0].start && StopNext(s', c2).1[0].end == c2)
  {
  }

  /**
   * What the loop sees next: a sample of the foreground app together with the
   * clock readings of that iteration, or an exception (KeyboardInterrupt)
   * raised while the loop sleeps, which the handler answers with
   * `stop_tracking`.
   */
  datatype Event =
    | Poll(observed: Option<string>, logClock: DateTime, startClock: DateTime)
    | Interrupt(clock: DateTime)

  predicate ValidEvent(e: Event) {
    match e
    case Poll(_, c1, c2) => ValidDateTime(c1) && ValidDateTime(c2)
    case Interrupt(c) => ValidDateTime(c)
  }

  function Step(s: State, e: Event): (r: (State, seq<Session>))
    requires ValidState(s) && ValidEvent(e)
    ensures ValidState(r.0) && forall x | x in r.1 :: ValidSession(x)
  {
    match e
    case Poll(observed, c1, c2) => PollNext(s, observed, c1, c2)
    case Interrupt(c) => StopNext(s, c)
  }

  /** The loop over a finite script of events: it runs while `running` holds and events remain. */
  function Run(s: State, script: seq<Event>): (r: (State, seq<Session>))
    requires ValidState(s) && forall e | e in script :: ValidEvent(e)
    ensures ValidState(r.0) && forall x | x in r.1 :: ValidSession(x)
    decreases |script|
  {
    if !s.running || script == [] then (s, [])
    else
      var (s1, out1) := Step(s, script[0]);
      var (s2, out2) := Run(s1, script[1..]);
      (s2, out1 + out2)
  }

  /** The first and the last clock reading of an event. */
  function FirstClock(e: Event): int
    requires ValidEvent(e)
  {
    match e
    case Poll(_, c1, _) => Micros(c1)
    case Interrupt(c) => Micros(c)
  }

  function LastClock(e: Event): int
    requires ValidEvent(e)
  {
    match e
    case Poll(_, _, c2) => Micros(c2)
    case Interrupt(c) => Micros(c)
  }

  /** A clock that never goes back: readings are non-decreasing within and across events. */
  predicate Chronological(script: seq<Event>) {
    && (forall e | e in script :: ValidEvent(e))
    && (forall i :: 0 <= i < |script| ==> FirstClock(script[i]) <= LastClock(script[i]))
    && (forall i :: 0 < i < |script| ==> LastClock(script[i - 1]) <= FirstClock(script[i]))
  }

  /** One written session: valid timestamps, a non-empty app, and a whole-second duration between 0 and its length. */
  predicate WellFormed(x: Session) {
    && ValidSession(x)
    && x.app != ""
    && Micros(x.start) <= Micros(x.end)
    && 0 <= x.duration && x.duration * 1000000 <= Micros(x.end) - Micros(x.start)
  }

  /** x ends no later than y starts. */
  predicate Before(x: Session, y: Session) {
    ValidSession(x) && ValidSession(y) && Micros(x.end) <= Micros(y.start)
  }

  /** Sessions in order: each well formed, and each ending no later than the next one starts. */
  predicate Chained(ss: seq<Session>)
    decreases |ss|
  {
    ss == [] || (WellFormed(ss[0]) && (|ss| > 1 ==> Before(ss[0], ss[1])) && Chained(ss[1..]))
  }

  lemma {:induction false} ChainedConcat(a: seq<Session>, b: seq<Session>)
    requires Chained(a) && Chained(b)
    requires a != [] && b != [] ==> Before(a[|a| - 1], b[0])
    ensures Chained(a + b)
    decreases |a|
  {
    var c := a + b;
    if a == [] {
      assert c == b;
    } else {
      TailOfConcat(a, b);
      if |a| > 1 {
        assert a[1..][|a[1..]| - 1] == a[|a| - 1];
        assert c[1] == a[1];
      } else if b != [] {
        assert c[1] == b[0];
      }
      ChainedConcat(a[1..], b);
    }
  }

  lemma TailOfConcat<T>(a: seq<T>, b: seq<T>)
    requires a != []
    ensures (a + b)[0] == a[0] && (a + b)[1..] == a[1..] + b
  {
  }

  /** Every session of a chained list is well formed. */
  lemma {:induction false} ChainedWellFormed(ss: seq<Session>, i: int)
    requires Chained(ss) && 0 <= i < |ss|
    ensures WellFormed(ss[i])
    decreases i
  {
    if i > 0 {
      ChainedWellFormed(ss[1..], i - 1);
      assert ss[1..][i - 1] == ss[i];
    }
  }

  /**
   * In a chained list every session ends no later than any later one starts:
   * the sessions are in order and do not overlap.
   */
  lemma {:induction false} ChainedOrdered(ss: seq<Session>, i: int, j: int)
    requires Chained(ss) && 0 <= i < j < |ss|
    ensures Before(ss[i], ss[j])
    decreases j, j - i
  {
    if i > 0 {
      ChainedOrdered(ss[1..], i - 1, j - 1);
      assert ss[1..][i - 1] == ss[i] && ss[1..][j - 1] == ss[j];
    } else if j > 1 {
      ChainedOrdered(ss, 1, j);
      ChainedWellFormed(ss, 1);
    }
  }

  lemma ChronologicalTail(script: seq<Event>)
    requires Chronological(script) && script != []
    ensures ValidEvent(script[0]) && FirstClock(script[0]) <= LastClock(script[0])
    ensures Chronological(script[1..])
    ensures |script| > 1 ==> LastClock(script[0]) <= FirstClock(script[1..][0])
  {
    assert script[0] in script;
    var rest := script[1..];
    forall e | e in rest ensures ValidEvent(e) {
      assert e in script;
    }
    forall i | 0 <= i < |rest| ensures FirstClock(rest[i]) <= LastClock(rest[i]) {
      assert rest[i] == script[i + 1];
    }
    forall i | 0 < i < |rest| ensures LastClock(rest[i - 1]) <= FirstClock(rest[i]) {
      assert rest[i - 1] == script[i] && rest[i] == script[i + 1];
    }
  }

  /** Closing the open stretch at a clock no earlier than its start writes an ordered session from that start to the clock. */
  lemma FlushChained(s: State, clock: DateTime)
    requires ValidState(s) && ValidDateTime(clock)
    requires s.startTime.Some? ==> Micros(s.startTime.value) <= Micros(clock)
    ensures Chained(Flush(s, clock))
    ensures forall x | x in Flush(s, clock) :: x.start == s.startTime.value && x.end == clock
  {
  }

  /**
   * With a clock that never goes back, the sessions one run of the loop writes
   * are in order and do not overlap, every duration lies between 0 and the
   * session's length, and none names an empty app. `lo` is any instant no later
   * than the open session's start and the first clock reading; no session
   * starts before it.
   */
  lemma {:induction false} RunChained(s: State, script: seq<Event>, lo: int)
    requires ValidState(s) && Chronological(script)
    requires s.startTime.Some? ==> lo <= Micros(s.startTime.value)
    requires script != [] ==> lo <= FirstClock(script[0])
    requires s.startTime.Some? && script != [] ==> Micros(s.startTime.value) <= FirstClock(script[0])
    ensures Chained(Run(s, script).1)
    ensures forall x | x in Run(s, script).1 :: lo <= Micros(x.start)
    decreases |script|
  {
    if s.running && script != [] {
      var e, rest := script[0], script[1..];
      ChronologicalTail(script);
      var (s1, out1) := Step(s, e);
      var out2 := Run(s1, rest).1;
      assert Run(s, script).1 == out1 + out2;
      match e
      case Poll(observed, c1, c2) =>
        if observed == s.currentApp {
          RunChained(s1, rest, lo);
          assert out1 + out2 == out2;
        } else {
          FlushChained(s, c1);
          RunChained(s1, rest, Micros(c2));
          JoinChained(out1, out2, lo, Micros(c1));
        }
      case Interrupt(c) =>
        FlushChained(s, c);
        assert out2 == [];
        assert out1 + out2 == out1;
    }
  }

  /** Two ordered runs of sessions, the second starting after the first has ended, form one. */
  lemma JoinChained(a: seq<Session>, b: seq<Session>, lo: int, mid: int)
    requires Chained(a) && Chained(b) && lo <= mid
    requires forall x | x in a :: ValidSession(x) && lo <= Micros(x.start) && Micros(x.end) <= mid
    requires forall x | x in b :: ValidSession(x) && mid <= Micros(x.start)
    ensures Chained(a + b)
    ensures forall x | x in a + b :: ValidSession(x) && lo <= Micros(x.start)
  {
    if a != [] && b != [] {
      assert a[|a| - 1] in a && b[0] in b;
    }
    ChainedConcat(a, b);
  }

  /** One more turn of the loop, when it is running and events remain. */
  lemma RunUnfold(s: State, script: seq<Event>, i: int)
    requires ValidState(s) && (forall e | e in script :: ValidEvent(e)) && s.running && 0 <= i < |script|
    ensures script[i] in script
    ensures Run(s, script[i..]).0 == Run(Step(s, script[i]).0, script[i + 1..]).0
    ensures Run(s, script[i..]).1 == Step(s, script[i]).1 + Run(Step(s, script[i]).0, script[i + 1..]).1
  {
    assert script[i] in script;
    assert script[i..][0] == script[i] && script[i..][1..] == script[i + 1..];
  }

  /** One more turn of the loop, when it is running and events remain: what is left of the run after `done`. */
  lemma RunProgress(start: State, script: seq<Event>, i: int, before: State, done: seq<Session>)
    requires ValidState(start) && ValidState(before) && forall e | e in script :: ValidEvent(e)
    requires before.running && 0 <= i < |script|
    requires Run(start, script).0 == Run(before, script[i..]).0
    requires Run(start, script).1 == done + Run(before, script[i..]).1
    ensures script[i] in script
    ensures Run(start, script).0 == Run(Step(before, script[i]).0, script[i + 1..]).0
    ensures Run(start, script).1 == (done + Step(before, script[i]).1) + Run(Step(before, script[i]).0, script[i + 1..]).1
  {
    RunUnfold(before, script, i);
    var (s1, out1) := Step(before, script[i]);
    var rest := Run(s1, script[i + 1..]).1;
    ConcatAssoc(done, out1, rest);
  }

  lemma ConcatAssoc(a: seq<Session>, b: seq<Session>, c: seq<Session>)
    ensures a + (b + c) == (a + b) + c
  {
  }

  lemma RecordsConcat(a: seq<Session>, b: seq<Session>)
    requires forall s | s in a :: ValidSession(s)
    requires forall s | s in b :: ValidSession(s)
    ensures Records(a + b) == Records(a) + Records(b)
  {
  }

  lemma AppendAfter(log0: seq<Session>, log: seq<Session>, out: seq<Session>)
    requires |log| >= |log0| && log[..|log0|] == log0
    ensures |log + out| >= |log0| && (log + out)[..|log0|] == log0
    ensures (log + out)[|log0|..] == log[|log0|..] + out
  {
  }

  /** The tracker object: the fields of tracker.py's `Tracker`, and the database it writes to. */
  class Tracker {
    /** The database `log_session` writes to. */
    const db: ScreenTimeLog
    var running: bool
    var currentApp: Option<string>
    var startTime: Option<DateTime>
    /** Every session this tracker has written, oldest first. */
    ghost var log: seq<Session>

    ghost predicate Valid()
      reads this, db
    {
      && db.Valid() && db.tableExists
      && ValidState(Snapshot())
      && forall x | x in log :: ValidSession(x)
    }

    function Snapshot(): State
      reads this
    {
      State(running, currentApp, startTime)
    }

    /** `Tracker()`: initialise the database, then start out stopped with nothing tracked. */
    constructor (db: ScreenTimeLog)
      requires db.Valid()
      modifies db
      ensures Valid() && this.db == db
      ensures !running && currentApp == None && startTime == None && log == []
      ensures db.rows == old(db.rows) && db.lastId == old(db.lastId)
    {
      db.Initialize();
      this.db := db;
      running := false;
      currentApp := None;
      startTime := None;
      log := [];
    }

    /** `log_time`: write the open session, ending at `clock`. */
    method LogTime(clock: DateTime)
      requires Valid() && ValidDateTime(clock)
      requires currentApp.Some? && startTime.Some?
      modifies db, this`log
      ensures Valid()
      ensures log == old(log) + [Session(currentApp.value, startTime.value, clock, Duration(startTime.value, clock))]
      ensures Appended(old(db.rows), db.rows, Records(log[|old(log)|..]))
    {
      var endTime := clock;
      var duration := Duration(startTime.value, endTime);
      var ok := db.LogSession(currentApp.value, IsoFormat(startTime.value), IsoFormat(endTime), duration);
      assert ok;
      var written := Session(currentApp.value, startTime.value, endTime, duration);
      log := log + [written];
      assert log[|old(log)|..] == [written];
      assert db.rows[|old(db.rows)|..] == [db.rows[|db.rows| - 1]];
    }

    /** One iteration of the `start_tracking` loop, having observed `observed` in the foreground. */
    method Poll(observed: Option<string>, logClock: DateTime, startClock: DateTime)
      requires Valid() && ValidDateTime(logClock) && ValidDateTime(startClock)
      modifies this, db
      ensures Valid()
      ensures Snapshot() == PollNext(old(Snapshot()), observed, logClock, startClock).0
      ensures log == old(log) + PollNext(old(Snapshot()), observed, logClock, startClock).1
      ensures Appended(old(db.rows), db.rows, Records(PollNext(old(Snapshot()), observed, logClock, startClock).1))
    {
      if observed != currentApp {
        if Truthy(currentApp) && startTime.Some? {
          LogTime(logClock);
        } else {
          AppendedNothing(db.rows);
        }
        startTime := Some(startClock);
        currentApp := observed;
      } else {
        AppendedNothing(db.rows);
      }
    }

    /** `stop_tracking`. */
    method StopTracking(clock: DateTime)
      requires Valid() && ValidDateTime(clock)
      modifies this, db
      ensures Valid()
      ensures Snapshot() == StopNext(old(Snapshot()), clock).0
      ensures log == old(log) + StopNext(old(Snapshot()), clock).1
      ensures Appended(old(db.rows), db.rows, Records(StopNext(old(Snapshot()), clock).1))
    {
      running := false;
      if Truthy(currentApp) && startTime.Some? {
        LogTime(clock);
      } else {
        AppendedNothing(db.rows);
      }
    }

    /** What the loop does with the next event: poll on a sample, `stop_tracking` on an exception. */
    method Handle(e: Event)
      requires Valid() && ValidEvent(e)
      modifies this, db
      ensures Valid()
      ensures Snapshot() == Step(old(Snapshot()), e).0
      ensures log == old(log) + Step(old(Snapshot()), e).1
      ensures Appended(old(db.rows), db.rows, Records(Step(old(Snapshot()), e).1))
    {
      match e
      case Poll(observed, c1, c2) =>
        Poll(observed, c1, c2);
      case Interrupt(c) =>
        StopTracking(c);
    }

    /**
     * `start_tracking`, fed a finite script of events: set `_running`, then loop
     * while it holds and events remain.
     */
    method StartTracking(script: seq<Event>)
      requires Valid() && forall e | e in script :: ValidEvent(e)
      modifies this, db
      ensures Valid()
      ensures |log| >= |old(log)| && log[..|old(log)|] == old(log)
      ensures (Snapshot(), log[|old(log)|..]) == Run(old(Snapshot()).(running := true), script)
      ensures Appended(old(db.rows), db.rows, Records(log[|old(log)|..]))
    {
      running := true;
      ghost var start, log0, rows0 := Snapshot(), log, db.rows;
      AppendedNothing(db.rows);
      assert script[0..] == script && log[|log0|..] == [];
      var i := 0;
      while running && i < |script|
        invariant 0 <= i <= |script|
        invariant Valid()
        invariant |log| >= |log0| && log[..|log0|] == log0
        invariant Run(start, script).0 == Run(Snapshot(), script[i..]).0
        invariant Run(start, script).1 == log[|log0|..] + Run(Snapshot(), script[i..]).1
        invariant Appended(rows0, db.rows, Records(log[|log0|..]))
        decreases |script| - i
      {
        ghost var before, logBefore, rowsBefore := Snapshot(), log, db.rows;
        assert script[i] in script;
        RunProgress(start, script, i, before, log[|log0|..]);
        Handle(script[i]);
        AppendAfter(log0, logBefore, Step(before, script[i]).1);
        AppendedTrans(rows0, rowsBefore, db.rows, Records(logBefore[|log0|..]), Records(Step(before, script[i]).1));
        RecordsConcat(logBefore[|log0|..], Step(before, script[i]).1);
        i := i + 1;
      }
      assert Run(Snapshot(), script[i..]) == (Snapshot(), []);
      assert log[|log0|..] + [] == log[|log0|..];
    }
  }
}
