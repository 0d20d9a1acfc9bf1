/** Schema migrations: the ".sql" files of a directory are loaded one by one, in listing
    order, inside a single transaction that TxHandler commits or rolls back; a schema can be
    dropped by name. */
module Migrate {
  import opened Base
  import Text
  import opened Transaction

  const ErrNoMigrations := Text("no migrations found")
  const ErrSchemaNameEmpty := Text("schema name empty")

  /** An entry of a directory listing. */
  datatype FileInfo = FileInfo(name: string, isDir: bool)

  /** filepath.Ext: the suffix from the last "." of the last path element, "" without one. */
  function Ext(path: string): (ext: string)
    ensures ext == "" || (ext[0] == '.' && Text.HasSuffix(path, ext))
    decreases |path|
  {
    if path == [] then ""
    else
      var c := path[|path| - 1];
      if c == '/' then ""
      else if c == '.' then "."
      else
        var e := Ext(path[..|path| - 1]);
        if e == "" then "" else e + [c]
  }

  /** A name ending in ".sql" has extension ".sql". */
  lemma ExtOfSqlName(stem: string)
    ensures Ext(stem + ".sql") == ".sql"
  {
    var s := stem + ".sql";
    assert s[..|s| - 1] == stem + ".sq";
    assert (stem + ".sq")[..|s| - 2] == stem + ".s";
    assert (stem + ".s")[..|s| - 3] == stem + ".";
    assert Ext(stem + ".") == ".";
    assert Ext(stem + ".s") == ".s";
    assert Ext(stem + ".sq") == ".sq";
  }

  /** The extension test is a suffix test: a name has extension ".sql" exactly when it ends
      in ".sql". */
  lemma SqlExtensionIffSuffix(name: string)
    ensures Ext(name) == ".sql" <==> Text.HasSuffix(name, ".sql")
  {
    if Text.HasSuffix(name, ".sql") {
      var stem := name[..|name| - 4];
      assert name == stem + ".sql";
      ExtOfSqlName(stem);
    }
  }

  /** The entries findMigrationFiles keeps: not a directory, extension ".sql". */
  predicate IsMigration(fi: FileInfo)
  {
    !fi.isDir && Ext(fi.name) == ".sql"
  }

  /** The migration entries of a listing, in listing order. */
  function Migrations(files: seq<FileInfo>): (kept: seq<FileInfo>)
    ensures forall i :: 0 <= i < |kept| ==> kept[i] in files && IsMigration(kept[i])
    ensures forall fi :: fi in files && IsMigration(fi) ==> fi in kept
    ensures |kept| <= |files|
    decreases |files|
  {
    if files == [] then []
    else
      var last := files[|files| - 1];
      Migrations(files[..|files| - 1]) + (if IsMigration(last) then [last] else [])
  }

  /** findMigrationFiles over the directory's listing (or the error reading it): the
      migration entries, "no migrations found" when there are none. */
  method FindMigrationFiles(listing: Result<seq<FileInfo>>) returns (r: Result<seq<FileInfo>>)
    ensures listing.Failure? ==> r == Failure(Wrapped(listing.error, "read migrations directory"))
    ensures listing.Success? && Migrations(listing.value) == [] ==> r == Failure(ErrNoMigrations)
    ensures listing.Success? && Migrations(listing.value) != [] ==> r == Success(Migrations(listing.value))
  {
    if listing.Failure? {
      return Failure(Wrapped(listing.error, "read migrations directory"));
    }
    var files := listing.value;
    var migrationFiles: seq<FileInfo> := [];
    for i := 0 to |files|
      invariant migrationFiles == Migrations(files[..i])
    {
      assert files[..i + 1][..i] == files[..i];
      if files[i].isDir || Ext(files[i].name) != ".sql" {
        continue;
      }
      migrationFiles := migrationFiles + [files[i]];
    }
    assert files[..|files|] == files;
    if |migrationFiles| == 0 {
      return Failure(ErrNoMigrations);
    }
    return Success(migrationFiles);
  }

  /** The names of some entries. */
  function Names(files: seq<FileInfo>): (names: seq<string>)
    ensures |names| == |files| && forall i :: 0 <= i < |files| ==> names[i] == files[i].name
  {
    seq(|files|, i requires 0 <= i < |files| => files[i].name)
  }

  /** How many of the files load before the first one that fails (all of them if none fails). */
  function LoadedBeforeFailure(files: seq<FileInfo>, failing: map<string, Error>): (k: nat)
    ensures k <= |files|
    ensures forall i :: 0 <= i < k ==> files[i].name !in failing
    ensures k < |files| ==> files[k].name in failing
    decreases |files|
  {
    if files == [] then 0
    else if files[0].name in failing then 0
    else 1 + LoadedBeforeFailure(files[1..], failing)
  }

  /** The error the loop over the files stops with: the first failing file's, wrapped. */
  function LoadFailure(files: seq<FileInfo>, failing: map<string, Error>): (e: Option<Error>)
    ensures e.Some? <==> exists i :: 0 <= i < |files| && files[i].name in failing
  {
    var k := LoadedBeforeFailure(files, failing);
    if k < |files| then Some(Wrapped(failing[files[k].name], "execute migration")) else None
  }

  /** The body Migrate runs inside the transaction: loads the files in order and stops at
      the first one that fails. */
  method LoadAll(files: seq<FileInfo>, tx: Tx) returns (failure: Option<Error>)
    modifies tx`executed
    ensures tx.executed == old(tx.executed) + Names(files[..LoadedBeforeFailure(files, tx.failingFiles)])
    ensures failure == LoadFailure(files, tx.failingFiles)
  {
    var i := 0;
    while i < |files|
      invariant 0 <= i <= LoadedBeforeFailure(files, tx.failingFiles)
      invariant tx.executed == old(tx.executed) + Names(files[..i])
      decreases |files| - i
    {
      LoadedPrefix(files, tx.failingFiles, i);
      var e := tx.LoadFile(files[i].name);
      match e {
        case Some(loadErr) => return Some(Wrapped(loadErr, "execute migration"));
        case None =>
      }
      assert Names(files[..i + 1]) == Names(files[..i]) + [files[i].name];
      i := i + 1;
    }
    return None;
  }

  /** Migrate: fails without a transaction when the files cannot be found or the transaction
      cannot begin; otherwise loads the files in order inside the transaction, stops at the
      first that fails, and ends the transaction through TxHandler: a rollback after a
      failing file, a commit otherwise. */
  method Migrate(listing: Result<seq<FileInfo>>, begin: Option<Error>, tx: Tx) returns (err: Option<Error>)
    requires tx.open
    modifies tx`open, tx`calls, tx`executed
    ensures listing.Failure? || Migrations(listing.value) == [] || begin.Some? ==> unchanged(tx)
    ensures listing.Failure? ==> err == Some(Wrapped(Wrapped(listing.error, "read migrations directory"), "find migrations"))
    ensures listing.Success? && Migrations(listing.value) == [] ==> err == Some(Wrapped(ErrNoMigrations, "find migrations"))
    ensures listing.Success? && Migrations(listing.value) != [] && begin.Some? ==> err == Some(Wrapped(begin.value, "begin tx"))
    ensures listing.Success? && Migrations(listing.value) != [] && begin.None? ==>
      var files := Migrations(listing.value);
      var failure := LoadFailure(files, tx.failingFiles);
      && tx.executed == old(tx.executed) + Names(files[..LoadedBeforeFailure(files, tx.failingFiles)])
      && (failure.Some? ==>
            && tx.calls == old(tx.calls) + [RollbackCall]
            && err == (if tx.rollbackFailure.Some? then Some(Wrapped(failure.value, Message(tx.rollbackFailure.value))) else failure))
      && (failure.None? ==>
            && tx.calls == old(tx.calls) + [CommitCall]
            && err == (if tx.commitFailure.Some? then Some(Wrapped(tx.commitFailure.value, CommitContext)) else None))
  {
    var found := FindMigrationFiles(listing);
    if found.Failure? {
      return Some(Wrapped(found.error, "find migrations"));
    }
    match begin {
      case Some(e) => return Some(Wrapped(e, "begin tx"));
      case None =>
    }
    var failure := LoadAll(found.value, tx);
    err := TxHandler(tx, failure, NoPanic);
  }

  /** Before the first failing file, file i fails exactly when i is that file. */
  lemma LoadedPrefix(files: seq<FileInfo>, failing: map<string, Error>, i: nat)
    requires i <= LoadedBeforeFailure(files, failing) && i < |files|
    ensures files[i].name in failing <==> i == LoadedBeforeFailure(files, failing)
  {
  }

  /** The database outside any transaction, as far as DropSchema uses it: the statements it
      has executed, and the statements that fail with the error the driver reports. */
  class Connection {
    var executed: seq<string>
    const failing: map<string, Error>

    constructor (failing: map<string, Error>)
      ensures executed == [] && this.failing == failing
    {
      executed := [];
      this.failing := failing;
    }

    /** DB.Exec of one statement. */
    method Exec(statement: string) returns (err: Option<Error>)
      modifies this`executed
      ensures statement in failing ==> err == Some(failing[statement]) && executed == old(executed)
      ensures statement !in failing ==> err.None? && executed == old(executed) + [statement]
    {
      if statement in failing {
        return Some(failing[statement]);
      }
      executed := executed + [statement];
      err := None;
    }
  }

  /** DropSchema: refuses an empty name before executing anything; otherwise executes
      DROP SCHEMA IF EXISTS for the name, wrapping a failure with "drop schema". */
  method DropSchema(name: string, db: Connection) returns (err: Option<Error>)
    modifies db`executed
    ensures name == "" ==> err == Some(ErrSchemaNameEmpty) && unchanged(db)
    ensures name != "" ==>
      var statement := "DROP SCHEMA IF EXISTS " + name + " CASCADE";
      && (statement in db.failing ==> err == Some(Wrapped(db.failing[statement], "drop schema")) && unchanged(db))
      && (statement !in db.failing ==> err.None? && db.executed == old(db.executed) + [statement])
  {
    if name == "" {
      return Some(ErrSchemaNameEmpty);
    }
    var e := db.Exec("DROP SCHEMA IF EXISTS " + name + " CASCADE");
    match e {
      case Some(failure) => return Some(Wrapped(failure, "drop schema"));
      case None => return None;
    }
  }
}
