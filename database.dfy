/**
 * The `screen_time_log` table of database.py: an append-only log of completed
 * sessions, created on first use, whose ids come from AUTOINCREMENT.
 */
module Database {

  /** One row of `screen_time_log (id, process_name, start_time, end_time, duration)`. */
  datatype Row = Row(id: int, processName: string, startTime: string, endTime: string, duration: int)

  /** The four values `log_session` inserts; the table chooses the id. */
  datatype Entry = Entry(processName: string, startTime: string, endTime: string, duration: int)

  function EntryOf(r: Row): Entry {
    Entry(r.processName, r.startTime, r.endTime, r.duration)
  }

  /** The rows with their ids dropped. */
  function Entries(rows: seq<Row>): (es: seq<Entry>)
    ensures |es| == |rows|
    ensures forall i :: 0 <= i < |rows| ==> es[i] == EntryOf(rows[i])
  {
    seq(|rows|, i requires 0 <= i < |rows| => EntryOf(rows[i]))
  }

  /** `after` is `before` with rows carrying the entries `added` appended: nothing earlier changed. */
  ghost predicate Appended(before: seq<Row>, after: seq<Row>, added: seq<Entry>) {
    |before| <= |after| && after[..|before|] == before && Entries(after[|before|..]) == added
  }

  lemma AppendedNothing(rows: seq<Row>)
    ensures Appended(rows, rows, [])
  {
  }

  lemma AppendedTrans(a: seq<Row>, b: seq<Row>, c: seq<Row>, x: seq<Entry>, y: seq<Entry>)
    requires Appended(a, b, x) && Appended(b, c, y)
    ensures Appended(a, c, x + y)
  {
    assert c[..|a|] == b[..|a|];
    assert c[|a|..] == b[|a|..] + c[|b|..];
  }

  /** Ids grow strictly along the table. */
  predicate IdsIncreasing(rows: seq<Row>) {
    forall i, j :: 0 <= i < j < |rows| ==> rows[i].id < rows[j].id
  }

  /** The database file and its one table. */
  class ScreenTimeLog {
    /** Whether `screen_time_log` has been created. */
    var tableExists: bool
    /** The table's rows, oldest first. */
    var rows: seq<Row>
    /** The largest id AUTOINCREMENT has handed out (the table's `sqlite_sequence` entry); 0 before the first insert. */
    var lastId: int

    ghost predicate Valid()
      reads this
    {
      && 0 <= lastId
      && IdsIncreasing(rows)
      && (forall r :: r in rows ==> 0 < r.id <= lastId)
      && (!tableExists ==> rows == [] && lastId == 0)
    }

    /** A connection to a database file that does not exist yet. */
    constructor ()
      ensures Valid() && !tableExists && rows == [] && lastId == 0
    {
      tableExists := false;
      rows := [];
      lastId := 0;
    }

    /** `initialize_database`: CREATE TABLE IF NOT EXISTS, so existing rows stay as they are. */
    method Initialize()
      requires Valid()
      modifies this
      ensures Valid() && tableExists
      ensures rows == old(rows) && lastId == old(lastId)
    {
      if !tableExists {
        tableExists := true;
      }
    }

    /**
     * `log_session`: INSERT one row with the four given values and a fresh
     * AUTOINCREMENT id. Without the table SQLite raises "no such table" and
     * nothing is written (`ok` is false).
     */
    method LogSession(processName: string, startTime: string, endTime: string, duration: int) returns (ok: bool)
      requires Valid()
      modifies this
      ensures Valid() && tableExists == old(tableExists)
      ensures ok == old(tableExists)
      ensures ok ==> rows == old(rows) + [Row(old(lastId) + 1, processName, startTime, endTime, duration)]
      ensures ok ==> lastId == old(lastId) + 1
      ensures ok ==> forall r :: r in old(rows) ==> r.id < rows[|rows| - 1].id
      ensures !ok ==> rows == old(rows) && lastId == old(lastId)
    {
      ok := tableExists;
      if ok {
        lastId := lastId + 1;
        rows := rows + [Row(lastId, processName, startTime, endTime, duration)];
      }
    }
  }
}
