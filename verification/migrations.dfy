/**
 * The schema migration runner: it creates the `schema_migrations` table, then
 * runs the listed migrations in order. A migration whose version is already
 * recorded is skipped; otherwise its schema change and its version record
 * are committed together in one transaction. The run stops at the first
 * failure. Which database step fails is a parameter.
 */
module Migrations {
  import opened Wrappers

  /** The schema change a migration makes. */
  datatype Change = CreateSessionsTable | DropTimestampColumns

  datatype Migration = Migration(version: nat, description: string, change: Change)

  /** A row of `schema_migrations`. */
  datatype Record = Record(version: nat, description: string)

  /** The database as the runner sees it: whether `schema_migrations` exists, its rows, and the changes applied so far. */
  datatype Db = Db(hasMigrationsTable: bool, recorded: seq<Record>, applied: seq<Change>)

  /** A database step that may fail. */
  datatype Op =
    | CreateMigrationsTable
    | CheckApplied(version: nat)
    | Begin(version: nat)
    | ExecSql(version: nat)
    | RecordVersion(version: nat)
    | Commit(version: nat)

  /** The database afterwards, and the error, if any. */
  datatype Outcome = Outcome(db: Db, err: Option<string>)

  const AllMigrations: seq<Migration> := [
    Migration(1, "Create sessions table", CreateSessionsTable),
    Migration(2, "Drop created_at and updated_at columns", DropTimestampColumns)]

  /** The version has a row in `schema_migrations` (its COUNT(*) is positive). */
  predicate Recorded(db: Db, version: nat) {
    exists i :: 0 <= i < |db.recorded| && db.recorded[i].version == version
  }

  predicate DistinctVersions(ms: seq<Migration>) {
    forall i, j :: 0 <= i < j < |ms| ==> ms[i].version != ms[j].version
  }

  /** `%d` of a natural number. */
  function Decimal(n: nat): (r: string)
    ensures r != []
  {
    if n < 10 then ["0123456789"[n]] else Decimal(n / 10) + ["0123456789"[n % 10]]
  }

  /** runMigration: check, then (unless recorded) begin, execute, record, commit. */
  function RunMigration(db: Db, m: Migration, fault: Op -> Option<string>): (r: Outcome)
    ensures r.err.Some? ==> r.db == db
    ensures Recorded(db, m.version) && fault(CheckApplied(m.version)).None? ==> r == Outcome(db, None)
    ensures r.db.hasMigrationsTable == db.hasMigrationsTable
    ensures r.db == db || (r.db.recorded == db.recorded + [Record(m.version, m.description)]
                            && r.db.applied == db.applied + [m.change])
    ensures r.err.None? ==> Recorded(r.db, m.version)
    ensures r.err.None? <==>
              fault(CheckApplied(m.version)).None?
              && (!Recorded(db, m.version) ==>
                    fault(Begin(m.version)).None? && fault(ExecSql(m.version)).None?
                    && fault(RecordVersion(m.version)).None? && fault(Commit(m.version)).None?)
  {
    var v := m.version;
    if fault(CheckApplied(v)).Some? then Outcome(db, Some("failed to check migration status: " + fault(CheckApplied(v)).value))
    else if Recorded(db, v) then Outcome(db, None)
    else if fault(Begin(v)).Some? then Outcome(db, Some("failed to begin transaction: " + fault(Begin(v)).value))
    else if fault(ExecSql(v)).Some? then Outcome(db, Some("failed to execute migration SQL: " + fault(ExecSql(v)).value))
    else if fault(RecordVersion(v)).Some? then Outcome(db, Some("failed to record migration: " + fault(RecordVersion(v)).value))
    else if fault(Commit(v)).Some? then Outcome(db, Some("failed to commit migration: " + fault(Commit(v)).value))
    else
      var recorded := db.recorded + [Record(v, m.description)];
      assert recorded[|db.recorded|].version == v;
      Outcome(Db(db.hasMigrationsTable, recorded, db.applied + [m.change]), None)
  }

  /** The migrations in order, stopping at the first failure, whose error names the migration's version. */
  function RunAll(db: Db, ms: seq<Migration>, fault: Op -> Option<string>): (r: Outcome)
    ensures r.db.hasMigrationsTable == db.hasMigrationsTable
    ensures db.recorded <= r.db.recorded && db.applied <= r.db.applied
    ensures |r.db.recorded| - |db.recorded| == |r.db.applied| - |db.applied|
    ensures r.err.None? ==> forall i :: 0 <= i < |ms| ==> Recorded(r.db, ms[i].version)
    decreases |ms|
  {
    if ms == [] then Outcome(db, None)
    else
      var first := RunMigration(db, ms[0], fault);
      if first.err.Some? then
        Outcome(db, Some("failed to run migration " + Decimal(ms[0].version) + ": " + first.err.value))
      else
        var rest := RunAll(first.db, ms[1..], fault);
        KeepsRecorded(first.db, rest.db, ms[0].version);
        RecordedThroughout(rest, ms);
        rest
  }

  lemma RecordedThroughout(r: Outcome, ms: seq<Migration>)
    requires ms != [] && Recorded(r.db, ms[0].version)
    requires r.err.None? ==> forall i :: 0 <= i < |ms[1..]| ==> Recorded(r.db, ms[1..][i].version)
    ensures r.err.None? ==> forall i :: 0 <= i < |ms| ==> Recorded(r.db, ms[i].version)
  {
    if r.err.None? {
      forall i | 1 <= i < |ms|
        ensures Recorded(r.db, ms[i].version)
      {
        assert ms[i] == ms[1..][i - 1];
      }
    }
  }

  /** Records are only ever appended, so a recorded version stays recorded. */
  lemma KeepsRecorded(a: Db, b: Db, version: nat)
    requires a.recorded <= b.recorded && Recorded(a, version)
    ensures Recorded(b, version)
  {
    var i :| 0 <= i < |a.recorded| && a.recorded[i].version == version;
    assert b.recorded[i] == a.recorded[i];
  }

  /** InitializeDatabase: create `schema_migrations` if needed, then run every migration. */
  function InitializeDatabase(db: Db, fault: Op -> Option<string>): (r: Outcome)
    ensures fault(CreateMigrationsTable).Some? ==> r.db == db && r.err.Some?
    ensures r.err.None? ==> r.db.hasMigrationsTable && Recorded(r.db, 1) && Recorded(r.db, 2)
  {
    match fault(CreateMigrationsTable)
    case Some(e) => Outcome(db, Some("failed to create migrations table: " + e))
    case None =>
      var r := RunAll(db.(hasMigrationsTable := true), AllMigrations, fault);
      assert AllMigrations[0].version == 1 && AllMigrations[1].version == 2;
      r
  }

  /** An environment in which no database step fails. */
  function NoFault(op: Op): Option<string> {
    None
  }

  /** With every version already recorded and the checks answering, a run changes nothing. */
  lemma {:induction false} RunAllSkipsRecorded(db: Db, ms: seq<Migration>, fault: Op -> Option<string>)
    requires forall i :: 0 <= i < |ms| ==> Recorded(db, ms[i].version) && fault(CheckApplied(ms[i].version)).None?
    ensures RunAll(db, ms, fault) == Outcome(db, None)
    decreases |ms|
  {
    if ms != [] {
      assert RunMigration(db, ms[0], fault) == Outcome(db, None);
      assert forall i :: 0 <= i < |ms[1..]| ==> ms[1..][i] == ms[i + 1];
      RunAllSkipsRecorded(db, ms[1..], fault);
    }
  }

  /**
   * Running the migrations again after a successful run changes nothing and
   * executes no SQL, whatever fails in the transactions, as long as the table
   * creation and the checks answer.
   */
  lemma InitializeIdempotent(db: Db, fault: Op -> Option<string>, again: Op -> Option<string>)
    requires InitializeDatabase(db, fault).err.None?
    requires again(CreateMigrationsTable).None? && again(CheckApplied(1)).None? && again(CheckApplied(2)).None?
    ensures InitializeDatabase(InitializeDatabase(db, fault).db, again) == Outcome(InitializeDatabase(db, fault).db, None)
  {
    var once := InitializeDatabase(db, fault).db;
    assert once.(hasMigrationsTable := true) == once;
    assert AllMigrations[0].version == 1 && AllMigrations[1].version == 2;
    RunAllSkipsRecorded(once, AllMigrations, again);
  }

  /** The changes a run applies when nothing fails: those of the unrecorded migrations, in list order. */
  function Pending(db: Db, ms: seq<Migration>): seq<Change>
    decreases |ms|
  {
    if ms == [] then [] else (if Recorded(db, ms[0].version) then [] else [ms[0].change]) + Pending(db, ms[1..])
  }

  /** Recording a version no migration in `ms` carries leaves their pending changes alone. */
  lemma {:induction false} PendingAfterRecord(db: Db, rec: Record, change: Change, ms: seq<Migration>)
    requires forall i :: 0 <= i < |ms| ==> ms[i].version != rec.version
    ensures Pending(Db(db.hasMigrationsTable, db.recorded + [rec], db.applied + [change]), ms) == Pending(db, ms)
    decreases |ms|
  {
    if ms != [] {
      var db2 := Db(db.hasMigrationsTable, db.recorded + [rec], db.applied + [change]);
      assert Recorded(db2, ms[0].version) == Recorded(db, ms[0].version) by {
        if Recorded(db2, ms[0].version) {
          var i :| 0 <= i < |db2.recorded| && db2.recorded[i].version == ms[0].version;
          assert i < |db.recorded| && db.recorded[i] == db2.recorded[i];
        }
        if Recorded(db, ms[0].version) {
          var i :| 0 <= i < |db.recorded| && db.recorded[i].version == ms[0].version;
          assert db2.recorded[i] == db.recorded[i];
        }
      }
      PendingAfterRecord(db, rec, change, ms[1..]);
    }
  }

  lemma DistinctTail(ms: seq<Migration>)
    requires ms != [] && DistinctVersions(ms)
    ensures DistinctVersions(ms[1..])
    ensures forall i :: 0 <= i < |ms[1..]| ==> ms[1..][i].version != ms[0].version
  {
    forall i, j | 0 <= i < j < |ms[1..]| ensures ms[1..][i].version != ms[1..][j].version {
      assert ms[1..][i] == ms[i + 1] && ms[1..][j] == ms[j + 1];
    }
    forall i | 0 <= i < |ms[1..]| ensures ms[1..][i].version != ms[0].version {
      assert ms[1..][i] == ms[i + 1];
    }
  }

  /** One migration's step keeps "applied so far plus still pending" fixed. */
  lemma FirstStep(db: Db, ms: seq<Migration>)
    requires ms != [] && DistinctVersions(ms)
    ensures var first := RunMigration(db, ms[0], NoFault);
            && first.err.None?
            && first.db.applied + Pending(first.db, ms[1..]) == db.applied + Pending(db, ms)
  {
    var first := RunMigration(db, ms[0], NoFault);
    DistinctTail(ms);
    var tail := Pending(db, ms[1..]);
    if !Recorded(db, ms[0].version) {
      PendingAfterRecord(db, Record(ms[0].version, ms[0].description), ms[0].change, ms[1..]);
      assert first.db == Db(db.hasMigrationsTable, db.recorded + [Record(ms[0].version, ms[0].description)], db.applied + [ms[0].change]);
      assert Pending(db, ms) == [ms[0].change] + tail;
      assert (db.applied + [ms[0].change]) + tail == db.applied + ([ms[0].change] + tail);
    } else {
      assert first.db == db;
      assert Pending(db, ms) == [] + tail;
    }
  }

  /** With distinct versions and no failure, the applied changes grow by exactly the pending ones, in order. */
  lemma {:induction false} RunAllAppliesInOrder(db: Db, ms: seq<Migration>)
    requires DistinctVersions(ms)
    ensures RunAll(db, ms, NoFault).err.None?
    ensures RunAll(db, ms, NoFault).db.applied == db.applied + Pending(db, ms)
    decreases |ms|
  {
    if ms == [] {
      assert db.applied + [] == db.applied;
    } else {
      var first := RunMigration(db, ms[0], NoFault);
      FirstStep(db, ms);
      DistinctTail(ms);
      RunAllAppliesInOrder(first.db, ms[1..]);
      assert RunAll(db, ms, NoFault) == RunAll(first.db, ms[1..], NoFault);
    }
  }

  /** A fresh database gets the sessions table and then the column drop, and records versions 1 and 2. */
  lemma FreshDatabase()
    ensures InitializeDatabase(Db(false, [], []), NoFault) ==
              Outcome(Db(true, [Record(1, AllMigrations[0].description), Record(2, AllMigrations[1].description)],
                         [CreateSessionsTable, DropTimestampColumns]), None)
  {
    var db := Db(true, [], []);
    var m1, m2 := AllMigrations[0], AllMigrations[1];
    assert !Recorded(db, 1);
    var db1 := RunMigration(db, m1, NoFault).db;
    assert db1 == Db(true, [Record(1, m1.description)], [CreateSessionsTable]);
    assert !Recorded(db1, 2);
    var db2 := RunMigration(db1, m2, NoFault).db;
    assert db2 == Db(true, [Record(1, m1.description), Record(2, m2.description)], [CreateSessionsTable, DropTimestampColumns]);
    assert AllMigrations[1..] == [m2] && [m2][1..] == [];
  }

  /**
   * The run stops at the first migration that fails: the database is as the
   * earlier migrations left it, and the error names the failing version.
   */
  lemma {:induction false} StopsAtFirstFailure(db: Db, ms: seq<Migration>, fault: Op -> Option<string>, k: nat)
    requires k < |ms|
    requires RunAll(db, ms[..k], fault).err.None?
    requires RunMigration(RunAll(db, ms[..k], fault).db, ms[k], fault).err.Some?
    ensures RunAll(db, ms, fault) ==
              Outcome(RunAll(db, ms[..k], fault).db,
                      Some("failed to run migration " + Decimal(ms[k].version) + ": "
                           + RunMigration(RunAll(db, ms[..k], fault).db, ms[k], fault).err.value))
    decreases k
  {
    if k > 0 {
      var first := RunMigration(db, ms[0], fault);
      assert ms[..k][0] == ms[0] && ms[..k][1..] == ms[1..][..k - 1];
      assert first.err.None?;
      assert ms[1..][k - 1] == ms[k];
      StopsAtFirstFailure(first.db, ms[1..], fault, k - 1);
    } else {
      assert ms[..0] == [];
    }
  }
}
