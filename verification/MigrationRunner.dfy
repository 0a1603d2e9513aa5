/** The migration runner of scripts/init-postgres.ts over an arbitrary database engine.  The
    engine is a function from a schema and a statement to an outcome, so every theorem holds
    for every engine, every set of migration files and every starting schema. */
module MigrationRunner {
  import opened Prelude

  /** What executing one statement reports. */
  datatype ExecResult<+D> = Done(schema: D) | AlreadyExists | Failed

  type Engine<!D, !S> = (D, S) -> ExecResult<D>

  /** A row of the bookkeeping table, keyed by migration name. */
  datatype Row = Row(checksum: string, total: nat, applied: nat, skipped: nat)

  datatype Database<+D> = Database(schema: D, rows: map<string, Row>)

  datatype Migration<+S> = Migration(name: string, checksum: string, statements: seq<S>)

  // ----- one migration file

  datatype Applied<+D> = AppliedAll(schema: D, applied: nat, skipped: nat) | Broken

  /** All statements in order, those that find their object in place contributing nothing. */
  function ApplyAll<D, S>(engine: Engine<D, S>, schema: D, statements: seq<S>): (r: Applied<D>)
    ensures r.AppliedAll? ==> r.applied + r.skipped == |statements|
  {
    if statements == [] then AppliedAll(schema, 0, 0)
    else
      var n := |statements| - 1;
      match ApplyAll(engine, schema, statements[..n])
      case Broken => Broken
      case AppliedAll(d, applied, skipped) =>
        match engine(d, statements[n])
        case Done(d') => AppliedAll(d', applied + 1, skipped)
        case AlreadyExists => AppliedAll(d, applied, skipped + 1)
        case Failed => Broken
  }

  /** The database after a migration, or None when the migration fails. */
  function Apply<D, S>(engine: Engine<D, S>, db: Database<D>, m: Migration<S>): Option<Database<D>> {
    if m.statements == [] then None
    else match ApplyAll(engine, db.schema, m.statements)
      case Broken => None
      case AppliedAll(d, applied, skipped) =>
        Some(Database(d, db.rows[m.name := Row(m.checksum, |m.statements|, applied, skipped)]))
  }

  lemma {:induction false} BrokenPrefix<D, S>(engine: Engine<D, S>, schema: D, statements: seq<S>, n: nat)
    requires n <= |statements| && ApplyAll(engine, schema, statements[..n]).Broken?
    ensures ApplyAll(engine, schema, statements).Broken?
    decreases |statements|
  {
    if n == |statements| {
      assert statements[..n] == statements;
    } else {
      assert statements[..|statements| - 1][..n] == statements[..n];
      BrokenPrefix(engine, schema, statements[..|statements| - 1], n);
    }
  }

  // ----- what a migration must do, told by the schemas it passes through

  /** The schemas before, between and after the statements. */
  ghost predicate IsTrace<D, S>(engine: Engine<D, S>, start: D, statements: seq<S>, schemas: seq<D>) {
    && |schemas| == |statements| + 1
    && schemas[0] == start
    && forall i :: 0 <= i < |statements| ==> IsTransition(engine, schemas[i], statements[i], schemas[i + 1])
  }

  /** A statement that runs leads to its schema, one that finds its object in place changes
      nothing, and one that fails leads nowhere. */
  ghost predicate IsTransition<D, S>(engine: Engine<D, S>, before: D, statement: S, after: D) {
    match engine(before, statement)
    case Done(d) => after == d
    case AlreadyExists => after == before
    case Failed => false
  }

  /** How many statements the engine answered with Done. */
  ghost function DoneCount<D, S>(engine: Engine<D, S>, statements: seq<S>, schemas: seq<D>): nat
    requires |schemas| > |statements|
  {
    if statements == [] then 0
    else
      var n := |statements| - 1;
      DoneCount(engine, statements[..n], schemas) + if engine(schemas[n], statements[n]).Done? then 1 else 0
  }

  lemma {:induction false} DoneCountPrefix<D, S>(engine: Engine<D, S>, statements: seq<S>, schemas: seq<D>, m: nat)
    requires |statements| < m <= |schemas|
    ensures DoneCount(engine, statements, schemas[..m]) == DoneCount(engine, statements, schemas)
    decreases |statements|
  {
    if statements != [] {
      DoneCountPrefix(engine, statements[..|statements| - 1], schemas, m);
    }
  }

  lemma {:induction false} TraceIsApplied<D, S>(engine: Engine<D, S>, start: D, statements: seq<S>, schemas: seq<D>)
    requires IsTrace(engine, start, statements, schemas)
    ensures var done := DoneCount(engine, statements, schemas);
            done <= |statements| &&
            ApplyAll(engine, start, statements) == AppliedAll(schemas[|statements|], done, |statements| - done)
    decreases |statements|
  {
    if statements != [] {
      var n := |statements| - 1;
      assert IsTransition(engine, schemas[n], statements[n], schemas[n + 1]);
      assert IsTrace(engine, start, statements[..n], schemas[..n + 1]) by {
        forall i | 0 <= i < n
          ensures IsTransition(engine, schemas[..n + 1][i], statements[..n][i], schemas[..n + 1][i + 1])
        {
          assert IsTransition(engine, schemas[i], statements[i], schemas[i + 1]);
        }
      }
      TraceIsApplied(engine, start, statements[..n], schemas[..n + 1]);
      DoneCountPrefix(engine, statements[..n], schemas, n + 1);
    }
  }

  lemma {:induction false} AppliedHasTrace<D, S>(engine: Engine<D, S>, start: D, statements: seq<S>)
    returns (schemas: seq<D>)
    requires ApplyAll(engine, start, statements).AppliedAll?
    ensures IsTrace(engine, start, statements, schemas)
    decreases |statements|
  {
    if statements == [] {
      schemas := [start];
    } else {
      var n := |statements| - 1;
      var before := AppliedHasTrace(engine, start, statements[..n]);
      TraceIsApplied(engine, start, statements[..n], before);
      schemas := before + [ApplyAll(engine, start, statements).schema];
      forall i | 0 <= i < |statements|
        ensures IsTransition(engine, schemas[i], statements[i], schemas[i + 1])
      {
        assert i < n ==> IsTransition(engine, before[i], statements[..n][i], before[i + 1]);
      }
    }
  }

  /** A migration runs exactly when it has statements and none of them fails. */
  ghost predicate Runs<D(!new), S>(engine: Engine<D, S>, db: Database<D>, m: Migration<S>) {
    m.statements != [] && exists schemas :: IsTrace(engine, db.schema, m.statements, schemas)
  }

  /** The database that a run of the migration along these schemas must commit. */
  ghost predicate IsCommitted<D, S>(engine: Engine<D, S>, db: Database<D>, m: Migration<S>, schemas: seq<D>,
                                    after: Database<D>)
    requires IsTrace(engine, db.schema, m.statements, schemas)
  {
    var done := DoneCount(engine, m.statements, schemas);
    && after.schema == schemas[|m.statements|]
    && m.name in after.rows
    && after.rows[m.name].checksum == m.checksum
    && after.rows[m.name].total == |m.statements|
    && after.rows[m.name].applied == done
    && after.rows[m.name].skipped == |m.statements| - done
    && after.rows - {m.name} == db.rows - {m.name}
  }

  /** Applying a migration succeeds exactly when it runs, and then commits the last schema and
      one row that counts the statements answered with Done. */
  lemma ApplyFollowsTrace<D(!new), S>(engine: Engine<D, S>, db: Database<D>, m: Migration<S>)
    ensures Apply(engine, db, m).Some? <==> Runs(engine, db, m)
    ensures forall schemas :: Runs(engine, db, m) && IsTrace(engine, db.schema, m.statements, schemas) ==>
              IsCommitted(engine, db, m, schemas, Apply(engine, db, m).value)
  {
    if m.statements != [] && ApplyAll(engine, db.schema, m.statements).AppliedAll? {
      var schemas := AppliedHasTrace(engine, db.schema, m.statements);
    }
    forall schemas | Runs(engine, db, m) && IsTrace(engine, db.schema, m.statements, schemas)
      ensures Apply(engine, db, m).Some? && IsCommitted(engine, db, m, schemas, Apply(engine, db, m).value)
    {
      TraceIsApplied(engine, db.schema, m.statements, schemas);
      var row := Apply(engine, db, m).value.rows[m.name];
      assert db.rows[m.name := row] - {m.name} == db.rows - {m.name};
    }
  }

  /** A database session: the committed database, and inside a transaction the working copy,
      the error flag and the savepoint stack. */
  class Connection<D(!new), S> {
    const engine: Engine<D, S>
    var db: Database<D>
    var work: Database<D>
    var inTransaction: bool
    var aborted: bool
    var savepoints: seq<(nat, Database<D>)>

    constructor (engine: Engine<D, S>, db: Database<D>)
      ensures AtRest() && this.engine == engine && this.db == db
    {
      this.engine, this.db, work := engine, db, db;
      inTransaction, aborted, savepoints := false, false, [];
    }

    predicate AtRest()
      reads this
    {
      !inTransaction && !aborted && savepoints == []
    }

    predicate Usable()
      reads this
    {
      inTransaction && !aborted
    }

    method Begin()
      requires AtRest()
      modifies this
      ensures Usable() && savepoints == [] && db == old(db) && work == db
    {
      inTransaction, work := true, db;
    }

    method Savepoint(name: nat)
      requires Usable()
      modifies this
      ensures Usable() && savepoints == old(savepoints) + [(name, work)] && db == old(db) && work == old(work)
    {
      savepoints := savepoints + [(name, work)];
    }

    /** An error leaves the transaction aborted: nothing but a rollback is accepted next. */
    method Execute(statement: S) returns (r: ExecResult<D>)
      requires Usable()
      modifies this
      ensures inTransaction && savepoints == old(savepoints) && db == old(db)
      ensures r == engine(old(work).schema, statement)
      ensures r.Done? ==> !aborted && work == Database(r.schema, old(work).rows)
      ensures !r.Done? ==> aborted
    {
      r := engine(work.schema, statement);
      if r.Done? {
        work := Database(r.schema, work.rows);
      } else {
        aborted := true;
      }
    }

    method RollbackTo(name: nat)
      requires inTransaction && savepoints != [] && savepoints[|savepoints| - 1].0 == name
      modifies this
      ensures Usable() && savepoints == old(savepoints) && db == old(db)
      ensures work == savepoints[|savepoints| - 1].1
    {
      work, aborted := savepoints[|savepoints| - 1].1, false;
    }

    method Release(name: nat)
      requires Usable() && savepoints != [] && savepoints[|savepoints| - 1].0 == name
      modifies this
      ensures Usable() && savepoints == old(savepoints)[..|old(savepoints)| - 1] && db == old(db) && work == old(work)
    {
      savepoints := savepoints[..|savepoints| - 1];
    }

    method Upsert(name: string, row: Row)
      requires Usable()
      modifies this
      ensures Usable() && savepoints == old(savepoints) && db == old(db)
      ensures work == Database(old(work).schema, old(work).rows[name := row])
    {
      work := Database(work.schema, work.rows[name := row]);
    }

    method Commit()
      requires Usable()
      modifies this
      ensures AtRest() && db == old(work)
    {
      db, inTransaction, savepoints := work, false, [];
    }

    method Rollback()
      requires inTransaction
      modifies this
      ensures AtRest() && db == old(db)
    {
      inTransaction, aborted, savepoints := false, false, [];
    }

    /** applyMigration: the committed database is either exactly the prior one, or that of the
        statements run in order, already-existing ones contributing nothing, plus one row. */
    method ApplyMigration(m: Migration<S>) returns (ok: bool, applied: nat, skipped: nat)
      requires AtRest()
      modifies this
      ensures AtRest()
      ensures ok <==> Apply(engine, old(db), m).Some?
      ensures db == if ok then Apply(engine, old(db), m).value else old(db)
      ensures ok <==> Runs(engine, old(db), m)
      ensures ok ==> applied + skipped == |m.statements|
      ensures forall schemas :: ok && IsTrace(engine, old(db).schema, m.statements, schemas) ==>
                applied == DoneCount(engine, m.statements, schemas) && IsCommitted(engine, old(db), m, schemas, db)
    {
      ApplyFollowsTrace(engine, db, m);
      hide Runs, IsTrace, Apply, ApplyAll;
      ok, applied, skipped := ApplyInTransaction(m);
    }

    /** One transaction, one savepoint per statement. */
    method ApplyInTransaction(m: Migration<S>) returns (ok: bool, applied: nat, skipped: nat)
      requires AtRest()
      modifies this
      ensures AtRest()
      ensures ok <==> Apply(engine, old(db), m).Some?
      ensures db == if ok then Apply(engine, old(db), m).value else old(db)
      ensures ok ==> applied + skipped == |m.statements| && m.name in db.rows
                     && db.rows[m.name] == Row(m.checksum, |m.statements|, applied, skipped)
    {
      applied, skipped := 0, 0;
      if m.statements == [] {
        return false, 0, 0;
      }
      Begin();
      for index := 0 to |m.statements|
        invariant Usable() && savepoints == [] && db == old(db) && work.rows == db.rows
        invariant ApplyAll(engine, db.schema, m.statements[..index]) == AppliedAll(work.schema, applied, skipped)
      {
        assert m.statements[..index + 1][..index] == m.statements[..index];
        var result := RunStatement(index, m.statements[index]);
        match result
        case Done(_) => applied := applied + 1;
        case AlreadyExists => skipped := skipped + 1;
        case Failed =>
          BrokenPrefix(engine, db.schema, m.statements, index + 1);
          Rollback();
          return false, 0, 0;
      }
      assert m.statements[..|m.statements|] == m.statements;
      Upsert(m.name, Row(m.checksum, |m.statements|, applied, skipped));
      Commit();
      ok := true;
    }

    /** One statement inside its own savepoint: an error undoes this statement only. */
    method RunStatement(index: nat, statement: S) returns (r: ExecResult<D>)
      requires Usable() && savepoints == []
      modifies this
      ensures Usable() && savepoints == [] && db == old(db)
      ensures r == engine(old(work).schema, statement)
      ensures work == if r.Done? then Database(r.schema, old(work).rows) else old(work)
    {
      Savepoint(index);
      r := Execute(statement);
      if !r.Done? {
        RollbackTo(index);
      }
      Release(index);
    }

    /** The loop of main: read the recorded migrations once, then skip, refuse or apply. */
    method RunMigrations(migrations: seq<Migration<S>>) returns (outcome: Outcome)
      requires AtRest()
      modifies this
      ensures AtRest()
      ensures RunResult(db, outcome) == Run(engine, old(db), migrations)
      ensures IsRun(engine, old(db), migrations, db, outcome)
    {
      RunMeetsSpec(engine, db, migrations);
      hide IsRun, Apply;
      var recorded := db.rows;
      var appliedCount := 0;
      for i := 0 to |migrations|
        invariant AtRest()
        invariant RunFrom(engine, db, recorded, migrations, i, appliedCount) == Run(engine, old(db), migrations)
      {
        var m := migrations[i];
        if m.name in recorded && recorded[m.name].checksum == m.checksum {
          continue;
        }
        if m.name in recorded {
          return Edited(i);
        }
        var ok, _, _ := ApplyMigration(m);
        if !ok {
          return Broke(i);
        }
        appliedCount := appliedCount + 1;
      }
      outcome := Completed(appliedCount);
    }
  }

  // ----- a whole run

  datatype Outcome = Completed(appliedCount: nat) | Edited(index: nat) | Broke(index: nat)

  datatype RunResult<+D> = RunResult(db: Database<D>, outcome: Outcome)

  /** The run from the i-th migration on; `recorded` is what was read at the start. */
  function RunFrom<D, S>(engine: Engine<D, S>, db: Database<D>, recorded: map<string, Row>,
                         migrations: seq<Migration<S>>, i: nat, count: nat): RunResult<D>
    requires i <= |migrations|
    decreases |migrations| - i
  {
    if i == |migrations| then RunResult(db, Completed(count))
    else
      var m := migrations[i];
      if m.name in recorded then
        if recorded[m.name].checksum == m.checksum then RunFrom(engine, db, recorded, migrations, i + 1, count)
        else RunResult(db, Edited(i))
      else match Apply(engine, db, m)
        case None => RunResult(db, Broke(i))
        case Some(db') => RunFrom(engine, db', recorded, migrations, i + 1, count + 1)
  }

  function Run<D, S>(engine: Engine<D, S>, db: Database<D>, migrations: seq<Migration<S>>): RunResult<D> {
    RunFrom(engine, db, db.rows, migrations, 0, 0)
  }

  // ----- what a run must do, told by its migrations

  /** The migrations that were not recorded at the start, in order. */
  function Unrecorded<S>(migrations: seq<Migration<S>>, recorded: map<string, Row>): seq<Migration<S>> {
    if migrations == [] then []
    else
      var m := migrations[|migrations| - 1];
      Unrecorded(migrations[..|migrations| - 1], recorded) + if m.name in recorded then [] else [m]
  }

  /** How far the run got. */
  function StoppedAt(outcome: Outcome, n: nat): nat {
    match outcome
    case Completed(_) => n
    case Edited(i) => i
    case Broke(i) => i
  }

  /** Recorded as it stands on disk, or not recorded. */
  predicate Consistent<S>(m: Migration<S>, recorded: map<string, Row>) {
    m.name in recorded ==> recorded[m.name].checksum == m.checksum
  }

  /** The run applied exactly the unrecorded migrations up to where it stopped, one after the
      other, and it stopped at the end, at the first edited one, or at one that cannot run. */
  ghost predicate IsRun<D(!new), S>(engine: Engine<D, S>, db: Database<D>, migrations: seq<Migration<S>>,
                                    after: Database<D>, outcome: Outcome) {
    var k := StoppedAt(outcome, |migrations|);
    && k <= |migrations|
    && Sequential(engine, db, Unrecorded(migrations[..k], db.rows)) == Some(after)
    && (forall j :: 0 <= j < k ==> Consistent(migrations[j], db.rows))
    && match outcome
       case Completed(count) => count == |Unrecorded(migrations, db.rows)|
       case Edited(i) => i < |migrations| && !Consistent(migrations[i], db.rows)
       case Broke(i) => i < |migrations| && migrations[i].name !in db.rows && !Runs(engine, after, migrations[i])
  }

  lemma UnrecordedNext<S>(migrations: seq<Migration<S>>, recorded: map<string, Row>, i: nat)
    requires i < |migrations|
    ensures var before := Unrecorded(migrations[..i], recorded);
            Unrecorded(migrations[..i + 1], recorded)
            == if migrations[i].name in recorded then before else before + [migrations[i]]
  {
    assert migrations[..i + 1][..i] == migrations[..i];
  }

  lemma SequentialNext<D, S>(engine: Engine<D, S>, db: Database<D>, before: seq<Migration<S>>, m: Migration<S>)
    requires Sequential(engine, db, before).Some?
    ensures Sequential(engine, db, before + [m]) == Apply(engine, Sequential(engine, db, before).value, m)
  {
    assert (before + [m])[..|before|] == before;
  }

  lemma {:induction false} RunFromMeetsSpec<D(!new), S>(engine: Engine<D, S>, start: Database<D>, db: Database<D>,
                                                        migrations: seq<Migration<S>>, i: nat, count: nat)
    requires i <= |migrations| && count == |Unrecorded(migrations[..i], start.rows)|
    requires Sequential(engine, start, Unrecorded(migrations[..i], start.rows)) == Some(db)
    requires forall j :: 0 <= j < i ==> Consistent(migrations[j], start.rows)
    ensures var r := RunFrom(engine, db, start.rows, migrations, i, count);
            IsRun(engine, start, migrations, r.db, r.outcome)
    decreases |migrations| - i
  {
    hide Apply, Runs, Unrecorded, Sequential;
    if i == |migrations| {
      assert migrations[..i] == migrations;
    } else {
      var m := migrations[i];
      ApplyFollowsTrace(engine, db, m);
      UnrecordedNext(migrations, start.rows, i);
      SequentialNext(engine, start, Unrecorded(migrations[..i], start.rows), m);
      if m.name in start.rows {
        if start.rows[m.name].checksum == m.checksum {
          RunFromMeetsSpec(engine, start, db, migrations, i + 1, count);
        }
      } else if Apply(engine, db, m).Some? {
        RunFromMeetsSpec(engine, start, Apply(engine, db, m).value, migrations, i + 1, count + 1);
      }
    }
  }

  lemma RunMeetsSpec<D(!new), S>(engine: Engine<D, S>, db: Database<D>, migrations: seq<Migration<S>>)
    ensures var r := Run(engine, db, migrations); IsRun(engine, db, migrations, r.db, r.outcome)
  {
    assert migrations[..0] == [];
    RunFromMeetsSpec(engine, db, db, migrations, 0, 0);
  }

  // ----- discipline over repeated runs

  /** Migration directories have distinct names. */
  ghost predicate DistinctNames<S>(migrations: seq<Migration<S>>) {
    forall i, j :: 0 <= i < j < |migrations| ==> migrations[i].name != migrations[j].name
  }

  /** The rows read at the start are still there, and the migrations from i on that were not
      among them are still unrecorded. */
  ghost predicate Current<D, S>(db: Database<D>, recorded: map<string, Row>, migrations: seq<Migration<S>>, i: nat) {
    && (forall name :: name in recorded ==> name in db.rows && db.rows[name] == recorded[name])
    && (forall j :: i <= j < |migrations| && migrations[j].name !in recorded ==> migrations[j].name !in db.rows)
  }

  /** A run only adds rows; when it completes, every migration is recorded as it stands on disk. */
  lemma {:induction false} RunRecords<D, S>(engine: Engine<D, S>, db: Database<D>, recorded: map<string, Row>,
                                            migrations: seq<Migration<S>>, i: nat, count: nat)
    requires i <= |migrations| && DistinctNames(migrations) && Current(db, recorded, migrations, i)
    ensures var r := RunFrom(engine, db, recorded, migrations, i, count);
            && (forall name :: name in db.rows ==> name in r.db.rows && r.db.rows[name] == db.rows[name])
            && (r.outcome.Completed? ==> forall j :: i <= j < |migrations| ==>
                  migrations[j].name in r.db.rows && r.db.rows[migrations[j].name].checksum == migrations[j].checksum)
    decreases |migrations| - i
  {
    if i < |migrations| {
      var m := migrations[i];
      if m.name in recorded {
        if recorded[m.name].checksum == m.checksum {
          RunRecords(engine, db, recorded, migrations, i + 1, count);
        }
      } else if Apply(engine, db, m).Some? {
        RunRecords(engine, Apply(engine, db, m).value, recorded, migrations, i + 1, count + 1);
      }
    }
  }

  lemma {:induction false} AllRecordedIsNoop<D, S>(engine: Engine<D, S>, db: Database<D>,
                                                   migrations: seq<Migration<S>>, i: nat)
    requires i <= |migrations|
    requires forall j :: i <= j < |migrations| ==>
               migrations[j].name in db.rows && db.rows[migrations[j].name].checksum == migrations[j].checksum
    ensures RunFrom(engine, db, db.rows, migrations, i, 0) == RunResult(db, Completed(0))
    decreases |migrations| - i
  {
    if i < |migrations| {
      AllRecordedIsNoop(engine, db, migrations, i + 1);
    }
  }

  /** After a completed run, a run over the same files changes nothing whatever the engine
      would answer, so it executes no statement. */
  lemma RepeatedRunIsNoop<D, S>(engine: Engine<D, S>, later: Engine<D, S>, db: Database<D>,
                                migrations: seq<Migration<S>>)
    requires DistinctNames(migrations) && Run(engine, db, migrations).outcome.Completed?
    ensures var after := Run(engine, db, migrations).db;
            Run(later, after, migrations) == RunResult(after, Completed(0))
  {
    RunRecords(engine, db, db.rows, migrations, 0, 0);
    AllRecordedIsNoop(later, Run(engine, db, migrations).db, migrations, 0);
  }

  lemma {:induction false} RunPrefix<D, S>(engine: Engine<D, S>, db: Database<D>, recorded: map<string, Row>,
                                           migrations: seq<Migration<S>>, n: nat, i: nat, count: nat)
    requires i <= n <= |migrations|
    ensures var a := RunFrom(engine, db, recorded, migrations[..n], i, count);
            RunFrom(engine, db, recorded, migrations, i, count) ==
              if a.outcome.Completed? then RunFrom(engine, a.db, recorded, migrations, n, a.outcome.appliedCount) else a
    decreases n - i
  {
    if i < n {
      var m := migrations[i];
      assert migrations[..n][i] == m;
      if m.name in recorded {
        if recorded[m.name].checksum == m.checksum {
          RunPrefix(engine, db, recorded, migrations, n, i + 1, count);
        }
      } else if Apply(engine, db, m).Some? {
        RunPrefix(engine, Apply(engine, db, m).value, recorded, migrations, n, i + 1, count + 1);
      }
    }
  }

  /** An edited migration blocks the run: it ends exactly as the run over the migrations before
      it, it does not complete, and no recorded row changes. */
  lemma EditBlocksTheRun<D, S>(engine: Engine<D, S>, db: Database<D>, migrations: seq<Migration<S>>, i: nat)
    requires DistinctNames(migrations) && i < |migrations|
    requires migrations[i].name in db.rows && db.rows[migrations[i].name].checksum != migrations[i].checksum
    ensures var r := Run(engine, db, migrations);
            && !r.outcome.Completed?
            && r.db == Run(engine, db, migrations[..i]).db
            && forall name :: name in db.rows ==> name in r.db.rows && r.db.rows[name] == db.rows[name]
  {
    RunRecords(engine, db, db.rows, migrations, 0, 0);
    RunPrefix(engine, db, db.rows, migrations, i, 0, 0);
  }

  // ----- healing

  /** Statements that each create one named object. */
  function CreateObject(objects: set<string>, name: string): ExecResult<set<string>> {
    if name in objects then AlreadyExists else Done(objects + {name})
  }

  function Declared(statements: seq<string>): (names: set<string>)
    ensures forall name :: name in names <==> name in statements
  {
    if statements == [] then {}
    else Declared(statements[..|statements| - 1]) + {statements[|statements| - 1]}
  }

  /** From any partly migrated schema the outcome is the declared objects on top of what was
      there, and the statements counted as applied are exactly the objects that were missing. */
  lemma {:induction false} CreateStatementsHeal(objects: set<string>, statements: seq<string>)
    ensures var r := ApplyAll(CreateObject, objects, statements);
            r.AppliedAll? && r.schema == objects + Declared(statements) && |r.schema| == |objects| + r.applied
    decreases |statements|
  {
    if statements == [] {
      assert objects + {} == objects;
    } else {
      var n := |statements| - 1;
      CreateStatementsHeal(objects, statements[..n]);
      var before, name := ApplyAll(CreateObject, objects, statements[..n]).schema, statements[n];
      assert objects + (Declared(statements[..n]) + {name}) == before + {name};
      if name in before {
        assert before + {name} == before;
      }
    }
  }

  /** So the row of such a migration counts as applied exactly the objects it added. */
  lemma CreateMigrationRow(db: Database<set<string>>, m: Migration<string>)
    requires m.statements != []
    ensures var after := Apply(CreateObject, db, m);
            && after.Some? && after.value.schema == db.schema + Declared(m.statements)
            && m.name in after.value.rows
            && after.value.rows[m.name].applied == |after.value.schema| - |db.schema|
            && after.value.rows[m.name].skipped == |m.statements| - (|after.value.schema| - |db.schema|)
  {
    CreateStatementsHeal(db.schema, m.statements);
  }

  // ----- one runner after another

  /** The database after applying the given migrations in order. */
  function Sequential<D, S>(engine: Engine<D, S>, db: Database<D>, migrations: seq<Migration<S>>): Option<Database<D>> {
    if migrations == [] then Some(db)
    else match Sequential(engine, db, migrations[..|migrations| - 1])
      case None => None
      case Some(d) => Apply(engine, d, migrations[|migrations| - 1])
  }
}
