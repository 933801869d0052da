/** Migrations can be interrupted: stopping after any number of files and running again ends exactly where
    one full run ends. */
module Migrations {
  import opened Options
  import SqlSplit

  /** A migration file; the version is None when parseMigrationName refuses the file's name. */
  datatype File = File(version: Option<int>, content: string)

  /** The schema as the database engine sees it, and the rows of schema_migrations. */
  datatype Db<+S> = Db(schema: S, applied: set<int>)

  /** What Exec does with a statement: a new schema, or an error. */
  type Engine<!S> = (S, string) -> Option<S>

  function ExecAll<S>(exec: Engine<S>, schema: S, stmts: seq<string>): Option<S> {
    if stmts == [] then Some(schema)
    else
      match exec(schema, stmts[0])
      case None => None
      case Some(next) => ExecAll(exec, next, stmts[1..])
  }

  /** One migration transaction: all statements, and the version row, which must be new; or nothing. */
  function Apply<S>(exec: Engine<S>, db: Db<S>, version: int, content: string): Option<Db<S>> {
    match ExecAll(exec, db.schema, SqlSplit.Split(content))
    case None => None
    case Some(schema) => if version in db.applied then None else Some(Db(schema, db.applied + {version}))
  }

  datatype Outcome<+S> = Outcome(db: Db<S>, ok: bool)

  /** Migrate's loop over the sorted files; `known` is the set of versions read before the loop. */
  function RunFiles<S>(exec: Engine<S>, db: Db<S>, known: set<int>, files: seq<File>): Outcome<S>
    decreases |files|
  {
    if files == [] then Outcome(db, true)
    else
      match files[0].version
      case None => Outcome(db, false)
      case Some(v) =>
        if v in known then RunFiles(exec, db, known, files[1..])
        else
          match Apply(exec, db, v, files[0].content)
          case None => Outcome(db, false)
          case Some(next) => RunFiles(exec, next, known, files[1..])
  }

  /** No version that is not recorded in `known` occurs twice among the files. */
  ghost predicate PendingDistinct(files: seq<File>, known: set<int>) {
    forall i, j :: 0 <= i < j < |files| && files[i].version.Some? && files[i].version == files[j].version ==>
      files[i].version.value in known
  }

  /** The versions read before the loop are right about the files that are still to come. */
  ghost predicate Informed(known: set<int>, applied: set<int>, files: seq<File>) {
    forall i :: 0 <= i < |files| && files[i].version.Some? ==>
      (files[i].version.value in known <==> files[i].version.value in applied)
  }

  lemma {:induction false} AppliedGrows<S>(exec: Engine<S>, db: Db<S>, known: set<int>, files: seq<File>)
    ensures db.applied <= RunFiles(exec, db, known, files).db.applied
    decreases |files|
  {
    if files != [] && files[0].version.Some? {
      var v := files[0].version.value;
      if v in known {
        AppliedGrows(exec, db, known, files[1..]);
      } else if Apply(exec, db, v, files[0].content).Some? {
        AppliedGrows(exec, Apply(exec, db, v, files[0].content).value, known, files[1..]);
      }
    }
  }

  /** Two runs that know the same about the files at hand do the same. */
  lemma {:induction false} KnownEnough<S>(exec: Engine<S>, db: Db<S>, a: set<int>, b: set<int>, files: seq<File>)
    requires forall i :: 0 <= i < |files| && files[i].version.Some? ==>
      (files[i].version.value in a <==> files[i].version.value in b)
    ensures RunFiles(exec, db, a, files) == RunFiles(exec, db, b, files)
    decreases |files|
  {
    if files != [] && files[0].version.Some? {
      var v := files[0].version.value;
      if v in a {
        KnownEnough(exec, db, a, b, files[1..]);
      } else if Apply(exec, db, v, files[0].content).Some? {
        KnownEnough(exec, Apply(exec, db, v, files[0].content).value, a, b, files[1..]);
      }
    }
  }

  lemma {:induction false} ResumeFrom<S>(exec: Engine<S>, db: Db<S>, known: set<int>, files: seq<File>, k: nat)
    requires k <= |files| && PendingDistinct(files, known) && Informed(known, db.applied, files)
    ensures var stopped := RunFiles(exec, db, known, files[..k]).db;
            RunFiles(exec, stopped, stopped.applied, files) == RunFiles(exec, db, known, files)
    decreases |files|
  {
    var prefix := files[..k];
    var stopped := RunFiles(exec, db, known, prefix).db;
    if k == 0 || files[0].version.None? {
      KnownEnough(exec, db, known, db.applied, files);
    } else {
      var v, tail := files[0].version.value, files[1..];
      assert prefix[1..] == tail[..k - 1] && prefix[0] == files[0];
      if v in known {
        ResumeFrom(exec, db, known, tail, k - 1);
        AppliedGrows(exec, db, known, prefix);
      } else if Apply(exec, db, v, files[0].content).None? {
        KnownEnough(exec, db, known, db.applied, files);
      } else {
        var next := Apply(exec, db, v, files[0].content).value;
        ResumeFrom(exec, next, known, tail, k - 1);
        AppliedGrows(exec, next, known, tail[..k - 1]);
      }
    }
  }

  /** Whatever the engine does with the statements, and as long as no version that is still to be applied occurs
      twice: a Migrate that was interrupted after any number of files, or stopped at one that fails, and is
      then run again reaches the same applied set and schema, and the same success or failure, as one full run. */
  lemma MigrateResumes<S>(exec: Engine<S>, db: Db<S>, files: seq<File>, k: nat)
    requires k <= |files| && PendingDistinct(files, db.applied)
    ensures var stopped := RunFiles(exec, db, db.applied, files[..k]).db;
            RunFiles(exec, stopped, stopped.applied, files) == RunFiles(exec, db, db.applied, files)
  {
    ResumeFrom(exec, db, db.applied, files, k);
  }

  /** Running Migrate a second time changes nothing. */
  lemma MigrateTwice<S>(exec: Engine<S>, db: Db<S>, files: seq<File>)
    requires PendingDistinct(files, db.applied)
    ensures var once := RunFiles(exec, db, db.applied, files);
            RunFiles(exec, once.db, once.db.applied, files) == once
  {
    MigrateResumes(exec, db, files, |files|);
    assert files[..|files|] == files;
  }

  // ----- Exactly when Migrate is safe to call again -----

  /** Every file has a version, and the scripts execute one after another from this schema: those whose versions
      are recorded are left out, and of those with the same version only the first is taken. */
  predicate RunsThrough<S>(exec: Engine<S>, schema: S, recorded: set<int>, files: seq<File>)
    decreases |files|
  {
    files == [] ||
    (files[0].version.Some? &&
     var v := files[0].version.value;
     if v in recorded then RunsThrough(exec, schema, recorded, files[1..])
     else
       match ExecAll(exec, schema, SqlSplit.Split(files[0].content))
       case None => false
       case Some(next) => RunsThrough(exec, next, recorded + {v}, files[1..]))
  }

  /** A run fails if it meets a version that was recorded after it had read the recorded ones. */
  lemma {:induction false} RepeatFails<S>(exec: Engine<S>, db: Db<S>, known: set<int>, files: seq<File>, i: nat)
    requires i < |files| && files[i].version.Some?
    requires files[i].version.value in db.applied && files[i].version.value !in known
    ensures !RunFiles(exec, db, known, files).ok
    decreases |files|
  {
    if i > 0 && files[0].version.Some? {
      var v := files[0].version.value;
      if v in known {
        RepeatFails(exec, db, known, files[1..], i - 1);
      } else if Apply(exec, db, v, files[0].content).Some? {
        RepeatFails(exec, Apply(exec, db, v, files[0].content).value, known, files[1..], i - 1);
      }
    }
  }

  /** With nothing else in the way, a run succeeds exactly if no version that is still to be applied occurs
      twice, and one that does not succeed has made progress. */
  lemma {:induction false} SucceedsExactly<S>(exec: Engine<S>, db: Db<S>, known: set<int>, files: seq<File>)
    requires RunsThrough(exec, db.schema, db.applied, files) && Informed(known, db.applied, files)
    ensures RunFiles(exec, db, known, files).ok <==> PendingDistinct(files, known)
    ensures !RunFiles(exec, db, known, files).ok ==> db.applied < RunFiles(exec, db, known, files).db.applied
    decreases |files|
  {
    if files != [] {
      var v, tail := files[0].version.value, files[1..];
      if v in known {
        SucceedsExactly(exec, db, known, tail);
        TailDistinct(files, known);
      } else {
        var next := Apply(exec, db, v, files[0].content).value;
        AppliedGrows(exec, next, known, tail);
        if i :| 0 <= i < |tail| && tail[i].version == Some(v) {
          RepeatFails(exec, next, known, tail, i);
          assert files[0].version == files[i + 1].version;
        } else {
          SucceedsExactly(exec, next, known, tail);
          TailDistinct(files, known);
        }
      }
    }
  }

  /** Wherever a run stops, the scripts still run through from there. */
  lemma {:induction false} StillRunsThrough<S>(exec: Engine<S>, db: Db<S>, known: set<int>, files: seq<File>)
    requires RunsThrough(exec, db.schema, db.applied, files) && known <= db.applied
    ensures var stopped := RunFiles(exec, db, known, files).db;
            RunsThrough(exec, stopped.schema, stopped.applied, files)
    decreases |files|
  {
    if files != [] {
      var v, tail := files[0].version.value, files[1..];
      if v in known {
        StillRunsThrough(exec, db, known, tail);
        AppliedGrows(exec, db, known, tail);
      } else if v !in db.applied {
        var next := Apply(exec, db, v, files[0].content).value;
        StillRunsThrough(exec, next, known, tail);
        AppliedGrows(exec, next, known, tail);
      }
    }
  }

  /** Files that were migrated successfully once do run through, from where that run began. */
  lemma {:induction false} SuccessRunsThrough<S>(exec: Engine<S>, db: Db<S>, known: set<int>, files: seq<File>)
    requires known <= db.applied && RunFiles(exec, db, known, files).ok
    ensures RunsThrough(exec, db.schema, db.applied, files)
    decreases |files|
  {
    if files != [] {
      var v := files[0].version.value;
      if v in known {
        SuccessRunsThrough(exec, db, known, files[1..]);
      } else {
        SuccessRunsThrough(exec, Apply(exec, db, v, files[0].content).value, known, files[1..]);
      }
    }
  }

  lemma TailDistinct(files: seq<File>, known: set<int>)
    requires files != [] && files[0].version.Some?
    requires files[0].version.value in known || forall i :: 1 <= i < |files| ==> files[i].version != files[0].version
    ensures PendingDistinct(files, known) <==> PendingDistinct(files[1..], known)
  {
    var tail := files[1..];
    if PendingDistinct(files, known) {
      forall i, j | 0 <= i < j < |tail| && tail[i].version.Some? && tail[i].version == tail[j].version
        ensures tail[i].version.value in known
      {
        assert files[i + 1].version == files[j + 1].version;
      }
    }
    if PendingDistinct(tail, known) {
      forall i, j | 0 <= i < j < |files| && files[i].version.Some? && files[i].version == files[j].version
        ensures files[i].version.value in known
      {
        if i > 0 {
          assert tail[i - 1].version == tail[j - 1].version;
        }
      }
    }
  }

  /** For scripts that run through, Migrate is safe to call again exactly if no version occurs twice among the
      files that are still to be applied: then, and only then, a second run changes nothing, and a run stopped
      after any number of files and made again ends where one full run ends. */
  lemma SafeToRepeatExactly<S>(exec: Engine<S>, db: Db<S>, files: seq<File>)
    requires RunsThrough(exec, db.schema, db.applied, files)
    ensures var once := RunFiles(exec, db, db.applied, files);
            RunFiles(exec, once.db, once.db.applied, files) == once <==> PendingDistinct(files, db.applied)
    ensures (forall k: nat :: k <= |files| ==> Resumes(exec, db, files, k)) <==> PendingDistinct(files, db.applied)
  {
    var once := RunFiles(exec, db, db.applied, files);
    SucceedsExactly(exec, db, db.applied, files);
    StillRunsThrough(exec, db, db.applied, files);
    SucceedsExactly(exec, once.db, once.db.applied, files);
    assert files[..|files|] == files;
    if PendingDistinct(files, db.applied) {
      forall k: nat | k <= |files| ensures Resumes(exec, db, files, k) {
        MigrateResumes(exec, db, files, k);
      }
      MigrateTwice(exec, db, files);
    } else {
      assert !Resumes(exec, db, files, |files|);
    }
  }

  ghost predicate Resumes<S>(exec: Engine<S>, db: Db<S>, files: seq<File>, k: nat)
    requires k <= |files|
  {
    var stopped := RunFiles(exec, db, db.applied, files[..k]).db;
    RunFiles(exec, stopped, stopped.applied, files) == RunFiles(exec, db, db.applied, files)
  }

  /** The smallest case: of two files with one version the second is tried in the first run, and fails there,
      but is skipped, as known, in the next. */
  lemma SameVersionTwiceDoesNotResume<S>(exec: Engine<S>, schema: S)
    ensures var files := [File(Some(1), ""), File(Some(1), "")];
            var once := RunFiles(exec, Db(schema, {}), {}, files);
            !once.ok && RunFiles(exec, once.db, once.db.applied, files).ok
  {
    var files := [File(Some(1), ""), File(Some(1), "")];
    EmptyScript();
    var none: set<int> := {};
    assert none + {1} == {1};
    assert ExecAll(exec, schema, SqlSplit.Split("")) == Some(schema);
    assert files[1..] == [files[1]];
    assert Apply(exec, Db(schema, {}), 1, "") == Some(Db(schema, {1}));
    assert Apply(exec, Db(schema, {1}), 1, "") == None;
  }

  lemma EmptyScript()
    ensures SqlSplit.Split("") == []
  {
    assert SqlSplit.Lines("") == [""];
    assert SqlSplit.Clean("") == "";
    assert SqlSplit.CleanAll([""]) == SqlSplit.CleanAll([""][1..]);
  }

  // ----- What a successful run has done -----

  /** The schemas that the statements lead through, one after another. */
  ghost predicate Chain<S>(exec: Engine<S>, schemas: seq<S>, stmts: seq<string>) {
    |schemas| == |stmts| + 1 && forall i :: 0 <= i < |stmts| ==> exec(schemas[i], stmts[i]) == Some(schemas[i + 1])
  }

  /** Executing all statements succeeds exactly if each of them does on the schema that the one before it left. */
  lemma {:induction false} ChainExecutes<S>(exec: Engine<S>, schemas: seq<S>, stmts: seq<string>)
    requires Chain(exec, schemas, stmts)
    ensures ExecAll(exec, schemas[0], stmts) == Some(schemas[|stmts|])
  {
    if stmts != [] {
      assert Chain(exec, schemas[1..], stmts[1..]);
      ChainExecutes(exec, schemas[1..], stmts[1..]);
    }
  }

  lemma {:induction false} ExecutesInChain<S>(exec: Engine<S>, schema: S, stmts: seq<string>) returns (schemas: seq<S>)
    requires ExecAll(exec, schema, stmts).Some?
    ensures Chain(exec, schemas, stmts) && schemas[0] == schema
    ensures ExecAll(exec, schema, stmts) == Some(schemas[|stmts|])
  {
    schemas := [schema];
    if stmts != [] {
      var rest := ExecutesInChain(exec, exec(schema, stmts[0]).value, stmts[1..]);
      schemas := [schema] + rest;
    }
  }

  lemma {:induction false} ExecConcat<S>(exec: Engine<S>, schema: S, first: seq<string>, second: seq<string>)
    ensures var mid := ExecAll(exec, schema, first);
            ExecAll(exec, schema, first + second) == if mid.None? then None else ExecAll(exec, mid.value, second)
  {
    if first == [] {
      assert first + second == second;
    } else {
      assert (first + second)[1..] == first[1..] + second;
      if exec(schema, first[0]).Some? {
        ExecConcat(exec, exec(schema, first[0]).value, first[1..], second);
      }
    }
  }

  /** The statements of the files whose versions are not known, in order. */
  function Pending(files: seq<File>, known: set<int>): seq<string> {
    if files == [] then []
    else
      (if files[0].version.Some? && files[0].version.value in known then [] else SqlSplit.Split(files[0].content))
      + Pending(files[1..], known)
  }

  function Versions(files: seq<File>): set<int> {
    set i | 0 <= i < |files| && files[i].version.Some? :: files[i].version.value
  }

  /** A run that succeeds has executed the statements of exactly the files it did not know, one after another
      from the schema it met, and every file's version is recorded, beside those that were. */
  lemma {:induction false} SuccessMeans<S>(exec: Engine<S>, db: Db<S>, known: set<int>, files: seq<File>)
    requires known <= db.applied && RunFiles(exec, db, known, files).ok
    ensures var after := RunFiles(exec, db, known, files).db;
            && ExecAll(exec, db.schema, Pending(files, known)) == Some(after.schema)
            && (forall i :: 0 <= i < |files| ==> files[i].version.Some?)
            && after.applied == db.applied + Versions(files)
    decreases |files|
  {
    var after := RunFiles(exec, db, known, files).db;
    if files == [] {
      assert db.applied + Versions([]) == db.applied;
    } else {
      var v, tail := files[0].version.value, files[1..];
      var next := if v in known then db else Apply(exec, db, v, files[0].content).value;
      SuccessMeans(exec, next, known, tail);
      if v in known {
        assert [] + Pending(tail, known) == Pending(tail, known);
      } else {
        ExecConcat(exec, db.schema, SqlSplit.Split(files[0].content), Pending(tail, known));
      }
      VersionsTail(files);
      assert after.applied == db.applied + ({v} + Versions(tail));
    }
  }

  lemma VersionsTail(files: seq<File>)
    requires files != [] && files[0].version.Some?
    ensures Versions(files) == {files[0].version.value} + Versions(files[1..])
  {
    forall v | v in Versions(files) ensures v in {files[0].version.value} + Versions(files[1..]) {
      var i :| 0 <= i < |files| && files[i].version == Some(v);
      if i > 0 {
        assert files[1..][i - 1].version == Some(v);
      }
    }
    forall v | v in {files[0].version.value} + Versions(files[1..]) ensures v in Versions(files) {
      if v in Versions(files[1..]) {
        var i :| 0 <= i < |files[1..]| && files[1..][i].version == Some(v);
        assert files[i + 1].version == Some(v);
      } else {
        assert files[0].version == Some(v);
      }
    }
  }

  // ----- The loops -----

  /** The database handle: its schema and version rows change only by committed migrations. */
  class Handle<S(==)> {
    const exec: Engine<S>
    var db: Db<S>

    constructor (exec: Engine<S>, db: Db<S>)
      ensures this.exec == exec && this.db == db
    {
      this.exec := exec;
      this.db := db;
    }

    /** All or nothing: an error in any statement, or a version that is recorded already, rolls back. */
    method ApplyMigration(version: int, content: string) returns (ok: bool)
      modifies this
      ensures ok <==> Apply(exec, old(db), version, content).Some?
      ensures db == if ok then Apply(exec, old(db), version, content).value else old(db)
      ensures ok ==>
        && ExecAll(exec, old(db).schema, SqlSplit.Split(content)) == Some(db.schema)
        && version !in old(db).applied && db.applied == old(db).applied + {version}
    {
      var stmts := SqlSplit.SplitSQL(content);
      var schema := db.schema;
      assert stmts[0..] == stmts;
      for i := 0 to |stmts|
        invariant ExecAll(exec, schema, stmts[i..]) == ExecAll(exec, db.schema, stmts) && db == old(db)
      {
        assert stmts[i..][1..] == stmts[i + 1..];
        var next := exec(schema, stmts[i]);
        if next.None? {
          return false;
        }
        schema := next.value;
      }
      if version in db.applied {
        return false;
      }
      db := Db(schema, db.applied + {version});
      return true;
    }

    method Migrate(files: seq<File>) returns (ok: bool)
      modifies this
      ensures Outcome(db, ok) == RunFiles(exec, old(db), old(db).applied, files)
      ensures ok ==> ExecAll(exec, old(db).schema, Pending(files, old(db).applied)) == Some(db.schema)
      ensures ok ==> db.applied == old(db).applied + Versions(files)
    {
      if RunFiles(exec, db, db.applied, files).ok {
        SuccessMeans(exec, db, db.applied, files);
      }
      var applied := db.applied;
      assert files[0..] == files;
      for i := 0 to |files|
        invariant RunFiles(exec, db, applied, files[i..]) == RunFiles(exec, old(db), old(db).applied, files)
      {
        assert files[i..][1..] == files[i + 1..];
        match files[i].version {
          case None => return false;
          case Some(version) =>
            if version in applied {
              continue;
            }
            var done := ApplyMigration(version, files[i].content);
            if !done {
              return false;
            }
        }
      }
      return true;
    }
  }
}
