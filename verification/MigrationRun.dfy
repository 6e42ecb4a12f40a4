/** Runs of the migration runner: what is committed, what a failing run leaves behind, and that runs repeat. */
module MigrationRun {
  import opened Wrappers
  import opened Migrations

  /**
   The database: schema is everything but schema_migrations, whose rows are applied; executed logs the
   versions whose script was committed.
   */
  datatype Database<S> = Database(schema: S, applied: map<int, string>, executed: seq<int>)

  /** What a script does to the schema; None where SQLite rejects it. */
  type Scripts<!S> = (S, string) -> Option<S>

  /** The statement of ApplyMigration that throws, if any. */
  datatype Fault = NoFault | OnRead | OnBegin | OnCheck | OnExecute | OnRecord | OnCommit

  // ----- one migration -----

  /** The database after ApplyMigration; None if it throws. */
  function Applied<S>(run: Scripts<S>, db: Database<S>, m: Migration, fault: Fault): Option<Database<S>> {
    if fault in {OnRead, OnBegin, OnCheck} then None
    else if m.version in db.applied then if fault == OnCommit then None else Some(db)
    else
      var schema := run(db.schema, m.sql);
      if schema.None? || fault != NoFault then None
      else Some(Database(schema.value, db.applied[m.version := m.name], db.executed + [m.version]))
  }

  /** What a run reached, and how many migrations it went through before it threw or ended. */
  datatype Outcome<S> = Outcome(db: Database<S>, done: nat, finished: bool)

  /** The loop of Run; a fault for every migration that is reached. */
  function RunAll<S>(run: Scripts<S>, db: Database<S>, ms: seq<Migration>, fault: nat -> Fault): (r: Outcome<S>)
    ensures r.done <= |ms| && (r.finished <==> r.done == |ms|)
  {
    if ms == [] then Outcome(db, 0, true)
    else
      var before := RunAll(run, db, ms[..|ms| - 1], fault);
      if !before.finished then before
      else
        var next := Applied(run, before.db, ms[|ms| - 1], fault(|ms| - 1));
        if next.None? then Outcome(before.db, |ms| - 1, false) else Outcome(next.value, |ms|, true)
  }

  /** Run: creating the table may fail, and so may loading the files; neither changes anything. */
  function RunOnce<S>(run: Scripts<S>, db: Database<S>, files: seq<File>, starts: bool, fault: nat -> Fault):
    Database<S>
  {
    var ms := Load(files);
    if !starts || ms.Err? then db else RunAll(run, db, ms.value, fault).db
  }

  // ----- what every run keeps -----

  ghost predicate Consistent<S>(db: Database<S>) {
    && (forall i, j :: 0 <= i < j < |db.executed| ==> db.executed[i] != db.executed[j])
    && (forall v :: v in db.applied <==> v in db.executed)
  }

  lemma AppliedConsistent<S>(run: Scripts<S>, db: Database<S>, m: Migration, fault: Fault)
    requires Consistent(db)
    ensures var r := Applied(run, db, m, fault);
      r.Some? ==> && Consistent(r.value) && m.version in r.value.applied && db.executed <= r.value.executed
                  && (forall v :: v in r.value.applied <==> v in db.applied || v == m.version)
  {}

  lemma {:induction false} RunConsistent<S>(run: Scripts<S>, db: Database<S>, ms: seq<Migration>, fault: nat -> Fault)
    requires Consistent(db)
    ensures var r := RunAll(run, db, ms, fault);
      Consistent(r.db) && db.executed <= r.db.executed
    decreases |ms|
  {
    if ms != [] {
      RunConsistent(run, db, ms[..|ms| - 1], fault);
      AppliedConsistent(run, RunAll(run, db, ms[..|ms| - 1], fault).db, ms[|ms| - 1], fault(|ms| - 1));
      hide Applied, Consistent;
    }
  }

  /** One attempt to run: the files it finds, whether the table can be created, and the faults. */
  datatype Attempt = Attempt(files: seq<File>, starts: bool, fault: nat -> Fault)

  function RunAttempts<S>(run: Scripts<S>, db: Database<S>, attempts: seq<Attempt>): Database<S>
    decreases |attempts|
  {
    if attempts == [] then db
    else RunAttempts(run, RunOnce(run, db, attempts[0].files, attempts[0].starts, attempts[0].fault), attempts[1..])
  }

  /** Over any attempts, failing or not, with any files: every version is committed at most once, and never undone. */
  lemma {:induction false} CommittedAtMostOnce<S>(run: Scripts<S>, db: Database<S>, attempts: seq<Attempt>)
    requires Consistent(db)
    ensures var db' := RunAttempts(run, db, attempts);
      Consistent(db') && db.executed <= db'.executed
    decreases |attempts|
  {
    if attempts != [] {
      var a := attempts[0];
      var db1 := RunOnce(run, db, a.files, a.starts, a.fault);
      var ms := Load(a.files);
      if ms.Ok? {
        RunConsistent(run, db, ms.value, a.fault);
      }
      hide Consistent, Load, RunAll;
      CommittedAtMostOnce(run, db1, attempts[1..]);
    }
  }

  // ----- what a failing run leaves -----

  lemma {:induction false} RunIsItsPrefix<S>(run: Scripts<S>, db: Database<S>, ms: seq<Migration>, fault: nat -> Fault)
    ensures var r := RunAll(run, db, ms, fault); r.db == RunAll(run, db, ms[..r.done], fault).db
    decreases |ms|
  {
    if ms != [] {
      var n := |ms| - 1;
      RunIsItsPrefix(run, db, ms[..n], fault);
      var before := RunAll(run, db, ms[..n], fault);
      assert ms[..n][..before.done] == ms[..before.done];
      assert ms[..n][..n] == ms[..n] && ms[..|ms|] == ms;
      hide Applied;
    }
  }

  /** A run from db has recorded the migrations it is done with, and no others. */
  ghost predicate Recorded<S>(db: Database<S>, r: Outcome<S>, ms: seq<Migration>) {
    && r.done <= |ms|
    && (forall i :: 0 <= i < r.done ==> ms[i].version in r.db.applied)
    && (forall v :: v in r.db.applied ==> v in db.applied || exists i :: 0 <= i < r.done && ms[i].version == v)
  }

  lemma RecordedMore<S>(db: Database<S>, r: Outcome<S>, ms: seq<Migration>, m: Migration, after: Outcome<S>)
    requires Recorded(db, r, ms)
    requires after == r
          || (r.done == |ms| && after.done == |ms| && after.db == r.db)
          || (r.done == |ms| && after.done == |ms| + 1
              && forall v :: v in after.db.applied <==> v in r.db.applied || v == m.version)
    ensures Recorded(db, after, ms + [m])
  {
    var all := ms + [m];
    forall v | v in after.db.applied && v !in db.applied
      ensures exists i :: 0 <= i < after.done && all[i].version == v
    {
      if i: nat :| i < r.done && ms[i].version == v {
        assert all[i] == ms[i];
      } else {
        assert all[|ms|] == m;
      }
    }
  }

  /** What the last migration of a run adds to what the ones before it have done. */
  lemma LastOfRun<S>(run: Scripts<S>, db: Database<S>, ms: seq<Migration>, fault: nat -> Fault)
    requires ms != [] && Consistent(RunAll(run, db, ms[..|ms| - 1], fault).db)
    ensures var n := |ms| - 1;
      var r, after := RunAll(run, db, ms[..n], fault), RunAll(run, db, ms, fault);
      || after == r
      || (r.done == n && after.done == n && after.db == r.db)
      || (r.done == n && after.done == n + 1
          && forall v :: v in after.db.applied <==> v in r.db.applied || v == ms[n].version)
  {
    var n := |ms| - 1;
    AppliedConsistent(run, RunAll(run, db, ms[..n], fault).db, ms[n], fault(n));
    hide Applied, Consistent;
  }

  lemma {:induction false} RunApplies<S>(run: Scripts<S>, db: Database<S>, ms: seq<Migration>, fault: nat -> Fault)
    requires Consistent(db)
    ensures Recorded(db, RunAll(run, db, ms, fault), ms)
    decreases |ms|
  {
    if ms != [] {
      var n := |ms| - 1;
      hide *;
      RunApplies(run, db, ms[..n], fault);
      RunConsistent(run, db, ms[..n], fault);
      LastOfRun(run, db, ms, fault);
      RecordedMore(db, RunAll(run, db, ms[..n], fault), ms[..n], ms[n], RunAll(run, db, ms, fault));
      assert ms[..n] + [ms[n]] == ms;
    }
  }

  lemma RunReaches<S>(run: Scripts<S>, db: Database<S>, ms: seq<Migration>, fault: nat -> Fault)
    requires Consistent(db)
    ensures var r := RunAll(run, db, ms, fault);
      && (forall i :: 0 <= i < r.done ==> ms[i].version in r.db.applied)
      && (forall v :: v in r.db.applied ==> v in db.applied || exists i :: 0 <= i < r.done && ms[i].version == v)
      && r.db == RunAll(run, db, ms[..r.done], fault).db
  {
    RunIsItsPrefix(run, db, ms, fault);
    RunApplies(run, db, ms, fault);
    hide RunAll;
  }

  /**
   A run that fails at a version leaves every smaller version of the directory applied, the database as it
   was before the failing migration, and that version unrecorded unless it was applied before the run.
   */
  lemma FailureLeavesPrefix<S>(run: Scripts<S>, db: Database<S>, files: seq<File>, fault: nat -> Fault)
    requires Consistent(db) && Load(files).Ok? && !RunAll(run, db, Load(files).value, fault).finished
    ensures var ms := Load(files).value;
      var r := RunAll(run, db, ms, fault);
      var failed := ms[r.done].version;
      && (forall i :: 0 <= i < |ms| && ms[i].version < failed ==> ms[i].version in r.db.applied)
      && r.db == RunAll(run, db, ms[..r.done], fault).db
      && (failed !in db.applied ==> failed !in r.db.applied)
  {
    var ms := Load(files).value;
    LoadedStrictly(files);
    RunReaches(run, db, ms, fault);
    hide Load, RunAll, Consistent;
  }

  lemma LoadedStrictly(files: seq<File>)
    requires Load(files).Ok?
    ensures StrictlyAscending(Load(files).value)
  {
    DuplicatesFound(Listed(files).value);
    hide Listed, Sorted;
  }

  // ----- what a finished run is -----

  /** The scripts in the order of their versions; None if one is rejected. */
  function Fold<S>(run: Scripts<S>, schema: S, ms: seq<Migration>): Option<S> {
    if ms == [] then Some(schema)
    else
      var before := Fold(run, schema, ms[..|ms| - 1]);
      if before.None? then None else run(before.value, ms[|ms| - 1].sql)
  }

  function Empty<S>(schema: S): Database<S> {
    Database(schema, map[], [])
  }

  /** On an empty database, the last of ascending versions is new when it is reached. */
  lemma LastIsNew<S>(run: Scripts<S>, schema: S, ms: seq<Migration>, fault: nat -> Fault)
    requires ms != [] && StrictlyAscending(ms)
    ensures ms[|ms| - 1].version !in RunAll(run, Empty(schema), ms[..|ms| - 1], fault).db.applied
  {
    var n := |ms| - 1;
    assert Consistent(Empty(schema));
    RunApplies(run, Empty(schema), ms[..n], fault);
    assert forall i :: 0 <= i < n ==> ms[..n][i].version != ms[n].version;
    hide RunAll;
  }

  /** A finished run on an empty database is the fold of the scripts in ascending order of versions. */
  lemma {:induction false} FinishedIsFold<S>(run: Scripts<S>, schema: S, ms: seq<Migration>, fault: nat -> Fault)
    requires StrictlyAscending(ms) && RunAll(run, Empty(schema), ms, fault).finished
    ensures var r := RunAll(run, Empty(schema), ms, fault);
      && Some(r.db.schema) == Fold(run, schema, ms)
      && r.db.executed == seq(|ms|, i requires 0 <= i < |ms| => ms[i].version)
    decreases |ms|
  {
    if ms != [] {
      var n := |ms| - 1;
      LastIsNew(run, schema, ms, fault);
      FinishedIsFold(run, schema, ms[..n], fault);
      hide StrictlyAscending, Empty;
    }
  }

  lemma {:induction false} SecondRunChangesNothing<S>(run: Scripts<S>, db: Database<S>, ms: seq<Migration>,
                                                      fault: nat -> Fault)
    requires forall i :: 0 <= i < |ms| ==> ms[i].version in db.applied
    ensures RunAll(run, db, ms, fault).db == db
    ensures (forall i :: fault(i) == NoFault) ==> RunAll(run, db, ms, fault).finished
    decreases |ms|
  {
    if ms != [] {
      SecondRunChangesNothing(run, db, ms[..|ms| - 1], fault);
    }
  }

  /** A run that follows a finished one on the same files changes nothing, whatever fails. */
  lemma RunsRepeat<S>(run: Scripts<S>, db: Database<S>, ms: seq<Migration>, fault: nat -> Fault,
                      again: nat -> Fault)
    requires Consistent(db) && RunAll(run, db, ms, fault).finished
    ensures var r := RunAll(run, db, ms, fault);
      RunAll(run, r.db, ms, again).db == r.db
  {
    RunReaches(run, db, ms, fault);
    SecondRunChangesNothing(run, RunAll(run, db, ms, fault).db, ms, again);
    hide RunAll;
  }

  /** A run on an empty database that finishes is the fold over the directory, in ascending order of versions. */
  lemma FreshRunIsFold<S>(run: Scripts<S>, schema: S, files: seq<File>, fault: nat -> Fault)
    requires Load(files).Ok? && RunAll(run, Empty(schema), Load(files).value, fault).finished
    ensures StrictlyAscending(Load(files).value)
    ensures Some(RunAll(run, Empty(schema), Load(files).value, fault).db.schema)
         == Fold(run, schema, Load(files).value)
  {
    LoadedStrictly(files);
    FinishedIsFold(run, schema, Load(files).value, fault);
    hide Load, RunAll, Fold;
  }

  // ----- the runner as an object -----

  class MigrationRunner<S(!new)> {
    const run: Scripts<S>
    const files: seq<File>
    var schema: S
    var applied: map<int, string>
    var saved: Option<(S, map<int, string>)>
    ghost var executed: seq<int>

    constructor (run: Scripts<S>, files: seq<File>, schema: S)
      ensures this.run == run && this.files == files && State() == Empty(schema) && saved == None
    {
      this.run, this.files, this.schema := run, files, schema;
      applied, saved, executed := map[], None, [];
    }

    ghost function State(): Database<S>
      reads this
    {
      Database(schema, applied, executed)
    }

    method Rollback()
      modifies this`schema, this`applied, this`saved
      ensures saved == None && executed == old(executed)
      ensures old(saved).Some? ==> schema == old(saved).value.0 && applied == old(saved).value.1
      ensures old(saved).None? ==> schema == old(schema) && applied == old(applied)
    {
      if saved.Some? {
        schema, applied := saved.value.0, saved.value.1;
      }
      saved := None;
    }

    /** The try block up to COMMIT: whether it threw, and whether the script was executed. */
    method Execute(m: Migration, fault: Fault) returns (ok: bool, ran: bool)
      requires fault !in {OnRead, OnBegin}
      modifies this`schema, this`applied
      ensures executed == old(executed) && saved == old(saved)
      ensures ok && ran <==> Applied(run, old(State()), m, if fault == OnCommit then NoFault else fault).Some?
                             && m.version !in old(applied)
      ensures ok && ran ==> run(old(schema), m.sql) == Some(schema) && applied == old(applied)[m.version := m.name]
      ensures ok && !ran <==> m.version in old(applied) && fault != OnCheck
      ensures ok && !ran ==> schema == old(schema) && applied == old(applied)
    {
      if fault == OnCheck {
        return false, false;
      }
      if m.version in applied {
        return true, false;
      }
      if fault == OnExecute {
        return false, false;
      }
      var next := run(schema, m.sql);
      if next.None? {
        return false, false;
      }
      schema := next.value;
      if fault == OnRecord {
        return false, true;
      }
      applied := applied[m.version := m.name];
      return true, true;
    }

    /** One transaction; an exception rolls it back. */
    method ApplyMigration(m: Migration, fault: Fault) returns (ok: bool)
      requires saved.None?
      modifies this
      ensures saved.None?
      ensures var r := Applied(run, old(State()), m, fault);
        ok == r.Some? && State() == if r.Some? then r.value else old(State())
    {
      if fault == OnRead || fault == OnBegin {
        return false;
      }
      saved := Some((schema, applied));
      var ran;
      ok, ran := Execute(m, fault);
      if !ok || fault == OnCommit {
        Rollback();
        return false;
      }
      saved := None;
      if ran {
        executed := executed + [m.version];
      }
    }

    method Run(starts: bool, fault: nat -> Fault) returns (ok: bool)
      requires saved.None?
      modifies this
      ensures saved.None? && State() == RunOnce(run, old(State()), files, starts, fault)
      ensures ok <==> starts && Load(files).Ok? && RunAll(run, old(State()), Load(files).value, fault).finished
    {
      hide Applied;
      if !starts {
        return false;
      }
      var loaded := LoadMigrations(files);
      if loaded.Err? {
        return false;
      }
      var ms := loaded.value;
      var i := 0;
      assert ms[..0] == [];
      while i < |ms|
        invariant 0 <= i <= |ms| && saved.None?
        invariant RunAll(run, old(State()), ms[..i], fault) == Outcome(State(), i, true)
      {
        ghost var before := State();
        var applied := ApplyMigration(ms[i], fault(i));
        OneMore(run, old(State()), ms, i, fault, before);
        if !applied {
          StopsAt(run, old(State()), ms, i + 1, fault);
          return false;
        }
        i := i + 1;
      }
      assert ms[..i] == ms;
      return true;
    }
  }

  lemma OneMore<S>(run: Scripts<S>, db: Database<S>, ms: seq<Migration>, i: nat, fault: nat -> Fault,
                   before: Database<S>)
    requires i < |ms| && RunAll(run, db, ms[..i], fault) == Outcome(before, i, true)
    ensures var next := Applied(run, before, ms[i], fault(i));
      RunAll(run, db, ms[..i + 1], fault)
      == if next.None? then Outcome(before, i, false) else Outcome(next.value, i + 1, true)
  {
    assert ms[..i + 1][..i] == ms[..i];
    hide Applied;
  }

  lemma {:induction false} StopsAt<S>(run: Scripts<S>, db: Database<S>, ms: seq<Migration>, n: nat, fault: nat -> Fault)
    requires n <= |ms| && !RunAll(run, db, ms[..n], fault).finished
    ensures RunAll(run, db, ms, fault) == RunAll(run, db, ms[..n], fault)
    decreases |ms| - n
  {
    if n == |ms| {
      assert ms[..n] == ms;
    } else {
      assert ms[..n + 1][..n] == ms[..n];
      StopsAt(run, db, ms, n + 1, fault);
    }
  }
}
