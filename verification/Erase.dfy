/** erase/erase.go: removing an account's rows in one transaction, and the PIDs it asks coregraph for. */
module Erase {
  import opened Basics

  /** A row: the PIDs in its columns (none where NULL), and everything else it holds. */
  datatype Row = Row(people: map<string, u32>, rest: string)

  type Tables = map<string, seq<Row>>

  datatype Statement = Delete(table: string, columns: set<string>)

  /** The delete statements, in order. */
  const STATEMENTS: seq<Statement> := [
    Delete("wiiu.user_data", {"pid"}),
    Delete("wiiu.network_account_info", {"pid"}),
    Delete("wiiu.principal_basic_info", {"pid"}),
    Delete("wiiu.mii", {"pid"}),
    Delete("wiiu.friendships", {"user1_pid", "user2_pid"}),
    Delete("wiiu.blocks", {"blocker_pid", "blocked_pid"}),
    Delete("wiiu.friend_requests", {"sender_pid", "recipient_pid"}),
    Delete("3ds.user_data", {"pid"}),
    Delete("3ds.friendships", {"user1_pid", "user2_pid"})]

  /** The tables that hold people, and the columns that name them, as the server creates them. */
  const PERSON_COLUMNS: map<string, set<string>> := map[
    "3ds.friendships" := {"user1_pid", "user2_pid"},
    "3ds.user_data" := {"pid"},
    "wiiu.blocks" := {"blocker_pid", "blocked_pid"},
    "wiiu.friend_requests" := {"sender_pid", "recipient_pid"},
    "wiiu.friendships" := {"user1_pid", "user2_pid"},
    "wiiu.mii" := {"pid"},
    "wiiu.network_account_info" := {"pid"},
    "wiiu.principal_basic_info" := {"pid"},
    "wiiu.user_data" := {"pid"}]

  predicate Mentions(row: Row, columns: set<string>, ids: seq<u32>) {
    exists c :: c in columns && c in row.people && row.people[c] in ids
  }

  /** What a delete leaves of a table. */
  function Left(rows: seq<Row>, columns: set<string>, ids: seq<u32>): (left: seq<Row>)
    ensures |left| <= |rows|
  {
    if rows == [] then []
    else
      var row := rows[|rows| - 1];
      Left(rows[..|rows| - 1], columns, ids) + if Mentions(row, columns, ids) then [] else [row]
  }

  lemma CountSnoc(rows: seq<Row>, last: Row, row: Row)
    ensures multiset(rows + [last])[row] == multiset(rows)[row] + if last == row then 1 else 0
  {
  }

  /** A delete takes the rows that mention somebody of `ids`, all of them, and no other. */
  lemma {:induction false} LeftExactly(rows: seq<Row>, columns: set<string>, ids: seq<u32>, row: Row)
    ensures multiset(Left(rows, columns, ids))[row] == if Mentions(row, columns, ids) then 0 else multiset(rows)[row]
    ensures Mentions(row, columns, ids) <==> exists c :: c in columns && c in row.people && row.people[c] in ids
  {
    if rows != [] {
      hide Mentions;
      var before, last := rows[..|rows| - 1], rows[|rows| - 1];
      LeftExactly(before, columns, ids, row);
      assert rows == before + [last];
      CountSnoc(before, last, row);
      if Mentions(last, columns, ids) {
        assert Left(rows, columns, ids) == Left(before, columns, ids) + [] == Left(before, columns, ids);
      } else {
        CountSnoc(Left(before, columns, ids), last, row);
      }
    }
  }

  lemma {:induction false} LeftAgain(rows: seq<Row>, columns: set<string>, ids: seq<u32>)
    ensures Left(Left(rows, columns, ids), columns, ids) == Left(rows, columns, ids)
  {
    if rows != [] {
      var before := Left(rows[..|rows| - 1], columns, ids);
      LeftAgain(rows[..|rows| - 1], columns, ids);
      var row := rows[|rows| - 1];
      if !Mentions(row, columns, ids) {
        assert (before + [row])[..|before|] == before;
      } else {
        assert before + [] == before;
      }
    }
  }

  ghost predicate Complete(db: Tables) {
    forall t :: t in PERSON_COLUMNS ==> t in db
  }

  /** The tables of the first `n` statements. */
  ghost function DoneTables(n: nat): (done: set<string>)
    requires n <= |STATEMENTS|
    ensures done <= PERSON_COLUMNS.Keys
  {
    set i | 0 <= i < n :: STATEMENTS[i].table
  }

  /** The people `ids` are gone from `tables`, and nothing else has changed. */
  ghost predicate Purged(tables: set<string>, db: Tables, after: Tables, ids: seq<u32>)
    requires tables <= PERSON_COLUMNS.Keys
  {
    && after.Keys == db.Keys
    && forall t :: t in db ==> after[t] == if t in tables then Left(db[t], PERSON_COLUMNS[t], ids) else db[t]
  }

  /** Every table that holds people has its one statement, which looks at every column that names somebody. */
  lemma StatementsCoverSchema()
    ensures forall i :: 0 <= i < |STATEMENTS| ==> PERSON_COLUMNS[STATEMENTS[i].table] == STATEMENTS[i].columns
    ensures forall i, j :: 0 <= i < j < |STATEMENTS| ==> STATEMENTS[i].table != STATEMENTS[j].table
    ensures DoneTables(|STATEMENTS|) == PERSON_COLUMNS.Keys
  {
    forall t | t in PERSON_COLUMNS ensures t in DoneTables(|STATEMENTS|) {
      var s := STATEMENTS;
      assert t in {s[0].table, s[1].table, s[2].table, s[3].table, s[4].table, s[5].table, s[6].table, s[7].table, s[8].table};
    }
  }

  /** How many rows there are in the tables of the first `n` statements. */
  ghost function Rows(db: Tables, n: nat): nat
    requires n <= |STATEMENTS| && Complete(db)
  {
    if n == 0 then 0 else Rows(db, n - 1) + |db[STATEMENTS[n - 1].table]|
  }

  /** A statement does not touch the tables of the statements before it. */
  lemma {:induction false} RowsElsewhere(db: Tables, table: string, rows: seq<Row>, n: nat)
    requires n <= |STATEMENTS| && Complete(db)
    requires forall i :: 0 <= i < n ==> STATEMENTS[i].table != table
    ensures Rows(db[table := rows], n) == Rows(db, n)
  {
    if n > 0 { RowsElsewhere(db, table, rows, n - 1); }
  }

  /** One statement more. */
  lemma EraseStep(n: nat, db: Tables, now: Tables, ids: seq<u32>)
    requires n < |STATEMENTS| && Complete(db) && Purged(DoneTables(n), db, now, ids)
    ensures Complete(now) && STATEMENTS[n].table in now
    ensures
      var s := STATEMENTS[n];
      var left := Left(now[s.table], s.columns, ids);
      var next := now[s.table := left];
      && Complete(next) && Purged(DoneTables(n + 1), db, next, ids)
      && Rows(db, n + 1) - Rows(next, n + 1) == Rows(db, n) - Rows(now, n) + |now[s.table]| - |left|
  {
    NewTable(n);
    var s := STATEMENTS[n];
    PurgedOn(DoneTables(n), db, now, ids, s);
    RowsElsewhere(now, s.table, Left(now[s.table], s.columns, ids), n);
  }

  lemma NewTable(n: nat)
    requires n < |STATEMENTS|
    ensures
      var s := STATEMENTS[n];
      && s.table in PERSON_COLUMNS && PERSON_COLUMNS[s.table] == s.columns && s.table !in DoneTables(n)
      && DoneTables(n + 1) == DoneTables(n) + {s.table}
      && forall i :: 0 <= i < n ==> STATEMENTS[i].table != s.table
  {
    StatementsCoverSchema();
  }

  lemma PurgedOn(tables: set<string>, db: Tables, now: Tables, ids: seq<u32>, s: Statement)
    requires tables <= PERSON_COLUMNS.Keys && Complete(db) && Purged(tables, db, now, ids)
    requires s.table in PERSON_COLUMNS && PERSON_COLUMNS[s.table] == s.columns && s.table !in tables
    ensures Complete(now) && now[s.table] == db[s.table]
    ensures
      var next := now[s.table := Left(now[s.table], s.columns, ids)];
      Complete(next) && Purged(tables + {s.table}, db, next, ids)
  {
  }

  /** Purging twice is purging once, and leaves nobody to mention. */
  lemma PurgedAgain(db: Tables, once: Tables, twice: Tables, ids: seq<u32>)
    requires Purged(PERSON_COLUMNS.Keys, db, once, ids) && Purged(PERSON_COLUMNS.Keys, once, twice, ids)
    ensures twice == once
  {
    forall t | t in db ensures twice[t] == once[t] {
      if t in PERSON_COLUMNS { LeftAgain(db[t], PERSON_COLUMNS[t], ids); }
    }
  }

  /** A row stays exactly when none of the columns that name people in its table names one of `ids`. */
  lemma NobodyLeft(db: Tables, after: Tables, ids: seq<u32>, t: string, row: Row)
    requires Purged(PERSON_COLUMNS.Keys, db, after, ids) && t in PERSON_COLUMNS && t in db
    ensures row in after[t] <==>
      row in db[t] && forall c :: c in PERSON_COLUMNS[t] && c in row.people ==> row.people[c] !in ids
  {
    LeftExactly(db[t], PERSON_COLUMNS[t], ids, row);
    assert row in after[t] <==> multiset(after[t])[row] > 0;
    assert row in db[t] <==> multiset(db[t])[row] > 0;
  }

  /**
    The database, with a transaction's own copy of the tables kept by its caller. `failures` counts the calls that
    failed without effect, and `lostCommits` the commits whose answer did not come back, done or not.
   */
  class Database {
    var rows: Tables
    ghost var failures: nat
    ghost var lostCommits: nat

    constructor (rows: Tables)
      ensures this.rows == rows && failures == 0 && lostCommits == 0
    {
      this.rows, failures, lostCommits := rows, 0, 0;
    }

    method BeginTx() returns (ok: bool, tx: Tables)
      modifies this`failures
      ensures tx == rows && failures == old(failures) + if ok then 0 else 1
    {
      ok, tx := *, rows;
      if !ok { failures := failures + 1; }
    }

    /** One delete statement; the number of rows it affected is part of the answer. */
    method Exec(tx: Tables, s: Statement, ids: seq<u32>) returns (ok: bool, after: Tables, affected: nat)
      requires s.table in tx
      modifies this`failures
      ensures failures == old(failures) + if ok then 0 else 1
      ensures ok ==> after == tx[s.table := Left(tx[s.table], s.columns, ids)] && affected == |tx[s.table]| - |after[s.table]|
    {
      ok, after, affected := *, tx, 0;
      if !ok {
        failures := failures + 1;
        return;
      }
      after := tx[s.table := Left(tx[s.table], s.columns, ids)];
      affected := |tx[s.table]| - |after[s.table]|;
    }

    method Commit(tx: Tables) returns (ok: bool)
      modifies this
      ensures ok ==> rows == tx && failures == old(failures) && lostCommits == old(lostCommits)
      ensures !ok ==>
        || (rows == old(rows) && failures == old(failures) + 1 && lostCommits == old(lostCommits))
        || ((rows == old(rows) || rows == tx) && failures == old(failures) && lostCommits == old(lostCommits) + 1)
    {
      var fails, landed := *, *;
      ok := *;
      if ok {
        rows := tx;
      } else if fails {
        failures := failures + 1;
      } else {
        lostCommits := lostCommits + 1;
        if landed { rows := tx; }
      }
    }
  }

  class Eraser {
    const db: Database

    constructor (db: Database)
      ensures this.db == db
    {
      this.db := db;
    }

    /**
      Erase, given what the PID lookup answered. All or nothing: an error leaves every row as it was, unless it is the
      answer to the commit that went missing, which only happens once every statement has succeeded, and even then the
      erasure is complete if it happened.
     */
    method Erase(found: Option<seq<u32>>) returns (r: Option<nat>)
      requires Complete(db.rows)
      modifies db
      ensures Complete(db.rows)
      ensures found == None ==> r == None && db.rows == old(db.rows)
      ensures found == Some([]) ==> r == Some(0) && db.rows == old(db.rows)
      ensures r == None <==> found == None || old(db.failures) < db.failures || old(db.lostCommits) < db.lostCommits
      ensures db.failures - old(db.failures) + db.lostCommits - old(db.lostCommits) <= 1
      ensures old(db.failures) <= db.failures && old(db.lostCommits) <= db.lostCommits
      ensures r == None && db.lostCommits == old(db.lostCommits) ==> db.rows == old(db.rows)
      ensures r == None && found.Some? ==>
                db.rows == old(db.rows) || Purged(PERSON_COLUMNS.Keys, old(db.rows), db.rows, found.value)
      ensures r.Some? ==>
                && Purged(PERSON_COLUMNS.Keys, old(db.rows), db.rows, found.value)
                && r.value == Rows(old(db.rows), |STATEMENTS|) - Rows(db.rows, |STATEMENTS|)
    {
      hide Complete, Purged, Left, Rows, DoneTables;
      if found == None { return None; }
      var ids := found.value;
      Untouched(db.rows, ids);
      if ids == [] { return Some(0); }
      ghost var before := db.rows;
      var begun, tx := db.BeginTx();
      if !begun { return None; }
      var total: nat := 0;
      for i := 0 to |STATEMENTS|
        invariant db.rows == before && db.failures == old(db.failures) && db.lostCommits == old(db.lostCommits)
        invariant Complete(before) && Complete(tx)
        invariant Purged(DoneTables(i), before, tx, ids) && total == Rows(before, i) - Rows(tx, i)
      {
        EraseStep(i, before, tx, ids);
        var ok, after, affected := db.Exec(tx, STATEMENTS[i], ids);
        if !ok { return None; }
        total, tx := total + affected, after;
      }
      StatementsCoverSchema();
      var committed := db.Commit(tx);
      return if committed then Some(total) else None;
    }
  }

  lemma Untouched(db: Tables, ids: seq<u32>)
    ensures Purged(DoneTables(0), db, db, ids) && Purged(PERSON_COLUMNS.Keys, db, db, [])
    ensures Complete(db) ==> Rows(db, 0) == 0
  {
    forall t | t in db && t in PERSON_COLUMNS ensures Left(db[t], PERSON_COLUMNS[t], []) == db[t] {
      LeftOfNobody(db[t], PERSON_COLUMNS[t]);
    }
  }

  lemma {:induction false} LeftOfNobody(rows: seq<Row>, columns: set<string>)
    ensures Left(rows, columns, []) == rows
  {
    if rows != [] { LeftOfNobody(rows[..|rows| - 1], columns); }
  }

  // --- coregraph.PIDsOfAccount ---

  /** A link of the account in the core, and the PID its subject reads as, if it reads as one. */
  datatype Link = Link(namespace: string, subject: Option<u32>)

  datatype Lookup = Found(pid: u32) | NotFound | Failed

  predicate IsConsole(namespace: string) {
    namespace == "wiiu" || namespace == "3ds"
  }

  ghost predicate Linked(links: seq<Link>, p: u32) {
    exists l :: l in links && IsConsole(l.namespace) && l.subject == Some(p)
  }

  lemma LinkedNext(links: seq<Link>, l: Link, p: u32)
    ensures Linked(links + [l], p) <==> Linked(links, p) || (IsConsole(l.namespace) && l.subject == Some(p))
  {
    if Linked(links, p) {
      var m :| m in links && IsConsole(m.namespace) && m.subject == Some(p);
      assert m in links + [l];
    }
    if IsConsole(l.namespace) && l.subject == Some(p) {
      assert l in links + [l];
    }
  }

  method Add(out: seq<u32>, seen: set<u32>, p: u32) returns (out': seq<u32>, seen': set<u32>)
    requires NoDup(out) && forall q :: q in seen <==> q in out
    ensures NoDup(out') && forall q :: q in seen' <==> q in out'
    ensures forall q :: q in out' <==> q in out || (q == p && p != 0)
  {
    if p != 0 && p !in seen {
      return out + [p], seen + {p};
    }
    return out, seen;
  }

  /** Every console PID of the account, each once; None when it could not find out. */
  method PIDsOfAccount(links: Option<seq<Link>>, wiiu: Lookup, ds: Lookup) returns (r: Option<seq<u32>>)
    ensures r == None <==> links == None || wiiu.Failed? || ds.Failed?
    ensures r.Some? ==>
              && NoDup(r.value)
              && forall p :: p in r.value <==> p != 0 && (Linked(links.value, p) || wiiu == Found(p) || ds == Found(p))
  {
    if links == None { return None; }
    var out, seen := [], {};
    for i := 0 to |links.value|
      invariant NoDup(out) && forall q :: q in seen <==> q in out
      invariant forall p :: p in out <==> p != 0 && Linked(links.value[..i], p)
    {
      var l := links.value[i];
      assert links.value[..i + 1] == links.value[..i] + [l];
      forall p: u32 ensures Linked(links.value[..i + 1], p) <==>
                       Linked(links.value[..i], p) || (IsConsole(l.namespace) && l.subject == Some(p)) {
        LinkedNext(links.value[..i], l, p);
      }
      if !IsConsole(l.namespace) { continue; }
      if l.subject.Some? { out, seen := Add(out, seen, l.subject.value); }
    }
    assert links.value[..|links.value|] == links.value;
    if wiiu.Failed? { return None; }
    if wiiu.Found? { out, seen := Add(out, seen, wiiu.pid); }
    if ds.Failed? { return None; }
    if ds.Found? { out, seen := Add(out, seen, ds.pid); }
    return Some(out);
  }
}
