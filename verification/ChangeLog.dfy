/** The append-only change log: row triggers record every insert, update and
    delete on the sensitive tables, and the log itself refuses to be changed. */
module ChangeLog {
  import opened Common

  type Key = int
  type Name = string

  /** A row as `to_jsonb` captures it: its key is one of its columns. */
  datatype Row = Row(key: Key, data: string)

  type Rows = map<Key, Row>
  type Database = map<Name, Rows>

  datatype Kind = Insertion | Updating | Deletion

  /** A row of `db_change_log`. */
  datatype Entry = Entry(submission: Option<string>, table: Name, op: Kind, oldData: Option<Row>, newData: Option<Row>)

  datatype State = State(db: Database, log: seq<Entry>)

  /** The six tables the record trigger is attached to. */
  const SENSITIVE: set<Name> := {
    "user_cab_balance", "cabecoin_transactions", "cashback_transactions", "cashback_withdrawals",
    "subscriptions", "scans"
  }

  /** Row-level statements, on the tables and on the log; `setting` is the
      session's `app.submission_id`. */
  datatype Op =
    | Insert(table: Name, row: Row, setting: Option<string>)
    | Update(table: Name, key: Key, row: Row, setting: Option<string>)
    | Delete(table: Name, key: Key, setting: Option<string>)
    | UpdateLog(at: nat, entry: Entry)
    | DeleteLog(at: nat)

  function Table(db: Database, name: Name): Rows {
    if name in db then db[name] else map[]
  }

  function Put(db: Database, name: Name, rows: Rows): Database {
    db[name := rows]
  }

  /** An unset or empty session setting is logged as NULL. */
  function Submission(setting: Option<string>): Option<string> {
    if setting == Some("") then None else setting
  }

  function Logged(log: seq<Entry>, e: Entry): seq<Entry> {
    if e.table in SENSITIVE then log + [e] else log
  }

  /** A statement that raises (duplicate key, log guard) or touches no row
      changes nothing. */
  function Apply(s: State, op: Op): State {
    match op
    case Insert(name, row, setting) =>
      var rows := Table(s.db, name);
      if row.key in rows then s
      else State(Put(s.db, name, rows[row.key := row]),
                 Logged(s.log, Entry(Submission(setting), name, Insertion, None, Some(row))))
    case Update(name, key, row, setting) =>
      var rows := Table(s.db, name);
      if key !in rows || (row.key != key && row.key in rows) then s
      else State(Put(s.db, name, (rows - {key})[row.key := row]),
                 Logged(s.log, Entry(Submission(setting), name, Updating, Some(rows[key]), Some(row))))
    case Delete(name, key, setting) =>
      var rows := Table(s.db, name);
      if key !in rows then s
      else State(Put(s.db, name, rows - {key}),
                 Logged(s.log, Entry(Submission(setting), name, Deletion, Some(rows[key]), None)))
    case UpdateLog(_, _) => s
    case DeleteLog(_) => s
  }

  function ApplyAll(s: State, ops: seq<Op>): State {
    if ops == [] then s else Apply(ApplyAll(s, ops[..|ops| - 1]), ops[|ops| - 1])
  }

  // ── Reading the log forwards and backwards ─────────────────────────────────

  function Without(rows: Rows, row: Option<Row>): Rows {
    if row.Some? then rows - {row.value.key} else rows
  }

  function With(rows: Rows, row: Option<Row>): Rows {
    if row.Some? then rows[row.value.key := row.value] else rows
  }

  /** An entry of the table is applied: out with the old row, in with the new. */
  function Redo(rows: Rows, e: Entry, name: Name): Rows {
    if e.table == name then With(Without(rows, e.oldData), e.newData) else rows
  }

  /** An entry of the table is undone: out with the new row, in with the old. */
  function Undo(rows: Rows, e: Entry, name: Name): Rows {
    if e.table == name then With(Without(rows, e.newData), e.oldData) else rows
  }

  /** The log applied to a table, oldest entry first. */
  function Replay(rows: Rows, log: seq<Entry>, name: Name): Rows {
    if log == [] then rows else Redo(Replay(rows, log[..|log| - 1], name), log[|log| - 1], name)
  }

  /** The log undone on a table, newest entry first. */
  function Rewind(rows: Rows, log: seq<Entry>, name: Name): Rows
    decreases |log|
  {
    if log == [] then rows else Rewind(Undo(rows, log[|log| - 1], name), log[..|log| - 1], name)
  }

  /** Rows sit under their own key. */
  ghost predicate Keyed(db: Database) {
    forall name, key :: name in db && key in db[name] ==> db[name][key].key == key
  }

  lemma ReplayAppend(rows: Rows, log: seq<Entry>, e: Entry, name: Name)
    ensures Replay(rows, log + [e], name) == Redo(Replay(rows, log, name), e, name)
  {
    assert (log + [e])[..|log|] == log;
  }

  lemma RewindAppend(rows: Rows, log: seq<Entry>, e: Entry, name: Name)
    ensures Rewind(rows, log + [e], name) == Rewind(Undo(rows, e, name), log, name)
  {
    assert (log + [e])[..|log|] == log;
  }

  /** The entry takes the table from `before` to `after`, and back. */
  predicate Links(e: Entry, name: Name, before: Rows, after: Rows) {
    after == Redo(before, e, name) && before == Undo(after, e, name)
  }

  /** One statement: the log only grows, and by at most one entry, which carries
      the table forward to its new rows and back to its old ones. */
  lemma StepIsLogged(s: State, op: Op, name: Name)
    requires Keyed(s.db) && name in SENSITIVE
    ensures Keyed(Apply(s, op).db) && s.log <= Apply(s, op).log
    ensures var s' := Apply(s, op);
      if s'.log == s.log then Table(s'.db, name) == Table(s.db, name)
      else exists e :: s'.log == s.log + [e] && Links(e, name, Table(s.db, name), Table(s'.db, name))
  {
    var s' := Apply(s, op);
    if s'.log != s.log {
      var e := s'.log[|s.log|];
      assert s'.log == s.log + [e];
      assert Links(e, name, Table(s.db, name), Table(s'.db, name));
    }
  }

  lemma {:induction false} KeyedThroughout(s: State, ops: seq<Op>, name: Name)
    requires Keyed(s.db) && name in SENSITIVE
    ensures Keyed(ApplyAll(s, ops).db)
  {
    if ops != [] {
      var n := |ops| - 1;
      KeyedThroughout(s, ops[..n], name);
      StepIsLogged(ApplyAll(s, ops[..n]), ops[n], name);
    }
  }

  /** An entry at the end of a stretch of log extends replay and rewind alike. */
  lemma StretchExtends(before: Rows, middle: Rows, after: Rows, log: seq<Entry>, e: Entry, name: Name)
    requires Replay(before, log, name) == middle && Rewind(middle, log, name) == before
    requires Links(e, name, middle, after)
    ensures Replay(before, log + [e], name) == after && Rewind(after, log + [e], name) == before
  {
    ReplayAppend(before, log, e, name);
    RewindAppend(after, log, e, name);
  }

  /** The entries written from a to b carry the table from a to b, and back. */
  ghost predicate Stretch(a: State, b: State, name: Name) {
    && a.log <= b.log
    && Replay(Table(a.db, name), b.log[|a.log|..], name) == Table(b.db, name)
    && Rewind(Table(b.db, name), b.log[|a.log|..], name) == Table(a.db, name)
  }

  lemma StretchStep(a: State, m: State, op: Op, name: Name)
    requires Stretch(a, m, name) && Keyed(m.db) && name in SENSITIVE
    ensures Stretch(a, Apply(m, op), name)
  {
    var b := Apply(m, op);
    StepIsLogged(m, op, name);
    if b.log != m.log {
      var e :| b.log == m.log + [e] && Links(e, name, Table(m.db, name), Table(b.db, name));
      assert b.log[|a.log|..] == m.log[|a.log|..] + [e];
      StretchExtends(Table(a.db, name), Table(m.db, name), Table(b.db, name), m.log[|a.log|..], e, name);
    }
  }

  /** For every run of statements and any two points of it: replaying the entries
      written between them carries each sensitive table from its rows at the
      first point to its rows at the second, rewinding them carries it back, and
      no entry already written is altered. */
  lemma {:induction false} LogReplaysAndRewinds(s: State, ops: seq<Op>, i: nat, j: nat, name: Name)
    requires Keyed(s.db) && name in SENSITIVE && i <= j <= |ops|
    ensures Stretch(ApplyAll(s, ops[..i]), ApplyAll(s, ops[..j]), name)
    decreases j
  {
    if i < j {
      LogReplaysAndRewinds(s, ops, i, j - 1, name);
      assert ops[..j][..j - 1] == ops[..j - 1];
      KeyedThroughout(s, ops[..j - 1], name);
      StretchStep(ApplyAll(s, ops[..i]), ApplyAll(s, ops[..j - 1]), ops[j - 1], name);
    }
  }

  // ── What each statement does and writes ────────────────────────────────────

  /** The tables that are logged. */
  lemma LoggedTables(name: Name)
    ensures name in SENSITIVE <==>
      || name == "user_cab_balance" || name == "cabecoin_transactions" || name == "cashback_transactions"
      || name == "cashback_withdrawals" || name == "subscriptions" || name == "scans"
  {
  }

  /** The entry a statement leaves: it names the session's submission unless that
      is empty, the table, the kind of statement and both images of the row. */
  ghost predicate Describes(e: Entry, op: Op, was: Option<Row>) {
    && (op.Insert? || op.Update? || op.Delete?)
    && e.table == op.table
    && e.submission == (if op.setting == Some("") then None else op.setting)
    && e.oldData == was
    && match op
       case Insert(_, row, _) => e.op == Insertion && e.newData == Some(row)
       case Update(_, _, row, _) => e.op == Updating && e.newData == Some(row)
       case Delete(_, _, _) => e.op == Deletion && e.newData == None
       case _ => false
  }

  /** What a statement does to the rows: an insert adds its row under a free key,
      an update moves its row to a free or its own key, a delete removes its
      row, and each is logged exactly if the table is one of the logged ones;
      otherwise, and for every other table and key, nothing changes. */
  lemma StatementWrites(s: State, op: Op, name: Name, key: Key)
    ensures var s' := Apply(s, op);
      var rows, rows' := Table(s.db, name), Table(s'.db, name);
      match op
      case Insert(table, row, _) =>
        if row.key in Table(s.db, table) then s' == s
        else
          && (key in rows' <==> key in rows || (name == table && key == row.key))
          && (key in rows' ==> rows'[key] == if name == table && key == row.key then row else rows[key])
          && WritesEntry(s, s', op, None)
      case Update(table, k, row, _) =>
        if k !in Table(s.db, table) || (row.key != k && row.key in Table(s.db, table)) then s' == s
        else
          && (key in rows' <==>
                if name == table then key == row.key || (key in rows && key != k) else key in rows)
          && (key in rows' ==> rows'[key] == if name == table && key == row.key then row else rows[key])
          && WritesEntry(s, s', op, Some(Table(s.db, table)[k]))
      case Delete(table, k, _) =>
        if k !in Table(s.db, table) then s' == s
        else
          && (key in rows' <==> key in rows && !(name == table && key == k))
          && (key in rows' ==> rows'[key] == rows[key])
          && WritesEntry(s, s', op, Some(Table(s.db, table)[k]))
      case UpdateLog(_, _) => s' == s
      case DeleteLog(_) => s' == s
  {
    var s' := Apply(s, op);
    if |s'.log| == |s.log| + 1 {
      assert s'.log == s.log + [s'.log[|s.log|]];
    }
  }

  /** One entry, describing the statement, exactly for the logged tables. */
  ghost predicate WritesEntry(s: State, s': State, op: Op, was: Option<Row>) {
    if (op.Insert? || op.Update? || op.Delete?) && op.table in SENSITIVE
    then |s'.log| == |s.log| + 1 && s'.log == s.log + [s'.log[|s.log|]] && Describes(s'.log[|s.log|], op, was)
    else s'.log == s.log
  }

  // ── The database as statements update it ───────────────────────────────────

  class Recorder {
    var db: Database
    var log: seq<Entry>

    constructor (snapshot: Database)
      ensures db == snapshot && log == []
    {
      db, log := snapshot, [];
    }

    /** The AFTER row trigger: whoever replays or rewinds the log afterwards
        meets this change exactly once, after all earlier ones, if the table is
        sensitive, and otherwise reads the log as before. */
    method Record(setting: Option<string>, name: Name, op: Kind, oldData: Option<Row>, newData: Option<Row>)
      modifies this`log
      ensures var e := Entry(Submission(setting), name, op, oldData, newData);
        && log == Logged(old(log), e) && old(log) <= log
        && (name !in SENSITIVE ==> log == old(log))
        && (name in SENSITIVE ==> forall rows, other ::
              && Replay(rows, log, other) == Redo(Replay(rows, old(log), other), e, other)
              && Rewind(rows, log, other) == Rewind(Undo(rows, e, other), old(log), other))
    {
      ghost var e := Entry(Submission(setting), name, op, oldData, newData);
      forall rows, other
        ensures Replay(rows, log + [e], other) == Redo(Replay(rows, log, other), e, other)
        ensures Rewind(rows, log + [e], other) == Rewind(Undo(rows, e, other), log, other)
      {
        ReplayAppend(rows, log, e, other);
        RewindAppend(rows, log, e, other);
      }
      if name in SENSITIVE {
        var submission := if setting == Some("") then None else setting;
        log := log + [Entry(submission, name, op, oldData, newData)];
      }
    }

    method InsertRow(name: Name, row: Row, setting: Option<string>) returns (ok: bool)
      modifies this
      ensures State(db, log) == Apply(State(old(db), old(log)), Insert(name, row, setting))
      ensures ok <==> row.key !in Table(old(db), name)
    {
      var rows := Table(db, name);
      ok := row.key !in rows;
      if ok {
        db := db[name := rows[row.key := row]];
        Record(setting, name, Insertion, None, Some(row));
      }
    }

    method UpdateRow(name: Name, key: Key, row: Row, setting: Option<string>) returns (ok: bool)
      modifies this
      ensures State(db, log) == Apply(State(old(db), old(log)), Update(name, key, row, setting))
      ensures ok <==> row.key == key || row.key !in Table(old(db), name) || key !in Table(old(db), name)
    {
      var rows := Table(db, name);
      ok := row.key == key || row.key !in rows || key !in rows;
      if ok && key in rows {
        db := db[name := (rows - {key})[row.key := row]];
        Record(setting, name, Updating, Some(rows[key]), Some(row));
      }
    }

    method DeleteRow(name: Name, key: Key, setting: Option<string>)
      modifies this
      ensures State(db, log) == Apply(State(old(db), old(log)), Delete(name, key, setting))
    {
      var rows := Table(db, name);
      if key in rows {
        db := db[name := rows - {key}];
        Record(setting, name, Deletion, Some(rows[key]), None);
      }
    }
  }
}
