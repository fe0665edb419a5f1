/** Model of internal/db/migrations.go: choosing the pending schema
    migrations from the embedded sql/migrations directory and applying them
    in version order, stopping at the first failure.

    The SQLite connection is a `Database` object holding the `user_version`
    pragma and the list of migrations committed so far (the model's stand-in
    for the schema the SQL builds). What the engine does with a query is an
    oracle fixed with the connection: whether reading `user_version` fails,
    and whether the transaction of a given migration fails. */
module Migrations {
  import opened Wrappers
  import opened GoStrings

  /** One entry of the embedded directory: its name, whether it is itself a
      directory, and what reading the file yields (its text or a read error). */
  datatype MigrationFile = MigrationFile(name: string, isDir: bool, contents: Result<string, string>)

  /** migration: a parsed, readable migration file. */
  datatype Migration = Migration(version: int, name: string, sql: string)

  class Database {
    var userVersion: int
    var applied: seq<Migration>
    const versionQueryError: Option<string>
    const txError: Migration -> Option<string>

    constructor (version: int, queryError: Option<string>, failure: Migration -> Option<string>)
      ensures userVersion == version && applied == []
      ensures versionQueryError == queryError && txError == failure
    {
      userVersion, applied := version, [];
      versionQueryError, txError := queryError, failure;
    }
  }

  /** CurrentUserVersion (internal/db/db.go): `PRAGMA user_version`, or the query's error. */
  method CurrentUserVersion(db: Database) returns (r: Result<int, string>)
    ensures db.versionQueryError.Some? ==> r == Failure(db.versionQueryError.value)
    ensures db.versionQueryError.None? ==> r == Success(db.userVersion)
  {
    if db.versionQueryError.Some? {
      return Failure(db.versionQueryError.value);
    }
    return Success(db.userVersion);
  }

  /** The version a file name carries: the integer parse of the text before
      the first '_', with a trailing ".sql" cut off ("0002_fts.sql" is 2). */
  function VersionOf(name: string): (v: Option<int>)
    ensures v.Some? ==> MinInt64 <= v.value <= MaxInt64
    ensures v.Some? ==> name != [] && (IsDigit(name[0]) || name[0] == '+' || name[0] == '-')
  {
    var vstr := BeforeFirst(name, '_');
    TrimmedHead(name, '_', ".sql");
    TrimmedHead(vstr, '_', ".sql");
    Atoi(TrimSuffix(vstr, ".sql"))
  }

  /** A name that starts with a number and '_' has that number as version. */
  lemma VersionOfNumbered(d: string, rest: string)
    requires d != [] && AllDigits(d) && DigitsValue(d) <= MaxInt64
    ensures VersionOf(d + "_" + rest) == Some(DigitsValue(d))
  {
    assert '_' !in d by {
      forall k | 0 <= k < |d| ensures d[k] != '_' { assert IsDigit(d[k]); }
    }
    BeforeFirstUpTo(d, '_', rest);
    assert IsDigit(d[|d| - 1]);
    assert |d| >= 4 ==> d[|d| - 4..][3] == d[|d| - 1];
    assert !HasSuffix(d, ".sql");
    AtoiDigits(d);
  }

  /** A name that is a number followed by ".sql" has that number as version. */
  lemma VersionOfBareNumber(d: string)
    requires d != [] && AllDigits(d) && DigitsValue(d) <= MaxInt64
    ensures VersionOf(d + ".sql") == Some(DigitsValue(d))
  {
    var name := d + ".sql";
    assert '_' !in name by {
      forall k | 0 <= k < |name| ensures name[k] != '_' {
        if k < |d| { assert name[k] == d[k] && IsDigit(d[k]); }
      }
    }
    assert BeforeFirst(name, '_') == name;
    assert HasSuffix(name, ".sql") && name[..|d|] == d;
    AtoiDigits(d);
  }

  /** A name that starts with neither a digit nor a sign has no version. */
  lemma VersionOfUnnumbered(name: string)
    requires name != [] && !IsDigit(name[0]) && name[0] != '+' && name[0] != '-'
    ensures VersionOf(name) == None
  {
    var b := BeforeFirst(name, '_');
    TrimmedHead(name, '_', ".sql");
    TrimmedHead(b, '_', ".sql");
    var t := TrimSuffix(b, ".sql");
    AtoiNeedsNumber(t);
  }

  /** The version under which an entry is kept, or None when RunMigrations
      skips it: a directory, a name without a version, or a version that is
      not newer than the database's. */
  function Admit(e: MigrationFile, curr: int): (v: Option<int>)
    ensures v.Some? <==> !e.isDir && VersionOf(e.name).Some? && VersionOf(e.name).value > curr
    ensures v.Some? ==> v == VersionOf(e.name)
  {
    if e.isDir then None
    else match VersionOf(e.name)
      case None => None
      case Some(v) => if v <= curr then None else Some(v)
  }

  /** Admit as the rule Select applies to each entry. */
  function KeepRule(curr: int): MigrationFile -> Option<int> {
    e => Admit(e, curr)
  }

  /** One turn of RunMigrations's first loop under the rule `keep`: a
      failure so far stands; a skipped entry adds nothing; a kept entry adds
      its migration, or ends the selection with its read error. */
  function SelectStep(prefix: Result<seq<Migration>, string>, e: MigrationFile, keep: MigrationFile -> Option<int>)
    : Result<seq<Migration>, string>
  {
    if prefix.Failure? then prefix
    else match keep(e)
      case None => prefix
      case Some(v) =>
        if e.contents.Failure? then Failure(e.contents.error)
        else Success(prefix.value + [Migration(v, e.name, e.contents.value)])
  }

  /** The loop's turns over a run of entries, under the rule `keep`. The
      lemmas below hold for any rule, so their proofs never look inside
      the version parse. */
  function SelectWith(entries: seq<MigrationFile>, keep: MigrationFile -> Option<int>): Result<seq<Migration>, string>
    decreases |entries|
  {
    if entries == [] then Success([])
    else SelectStep(SelectWith(entries[..|entries| - 1], keep), entries[|entries| - 1], keep)
  }

  /** The list RunMigrations's first loop builds, in directory order, or the
      first read error of a kept file (returned unwrapped). */
  function Select(entries: seq<MigrationFile>, curr: int): Result<seq<Migration>, string> {
    SelectWith(entries, KeepRule(curr))
  }

  /** Selecting one more entry of the directory is one more loop turn. */
  lemma SelectPrefix(entries: seq<MigrationFile>, n: nat, keep: MigrationFile -> Option<int>)
    requires n < |entries|
    ensures SelectWith(entries[..n + 1], keep) == SelectStep(SelectWith(entries[..n], keep), entries[n], keep)
  {
    assert entries[..n + 1][..n] == entries[..n];
  }

  /** Migration `m` is the one entry `e` yields under the rule `keep`. */
  predicate BuiltFrom(m: Migration, e: MigrationFile, keep: MigrationFile -> Option<int>) {
    keep(e) == Some(m.version) && m.name == e.name && e.contents == Success(m.sql)
  }

  /** A migration built from entry `e`, kept with its version. */
  predicate FromEntry(m: Migration, e: MigrationFile, curr: int) {
    Admit(e, curr) == Some(m.version) && m.name == e.name && e.contents == Success(m.sql)
  }

  /** The last entry's contribution to a successful selection. */
  lemma SelectLast(entries: seq<MigrationFile>, keep: MigrationFile -> Option<int>)
    requires entries != [] && SelectWith(entries, keep).Success?
    ensures var front := entries[..|entries| - 1];
      var e := entries[|entries| - 1];
      && SelectWith(front, keep).Success?
      && (keep(e).None? ==> SelectWith(entries, keep) == SelectWith(front, keep))
      && (keep(e).Some? ==>
            && e.contents.Success?
            && SelectWith(entries, keep).value
               == SelectWith(front, keep).value + [Migration(keep(e).value, e.name, e.contents.value)])
  {
  }

  /** The entry a selected migration comes from. */
  lemma {:induction false} SelectedFrom(entries: seq<MigrationFile>, keep: MigrationFile -> Option<int>, j: nat)
    returns (i: nat)
    requires SelectWith(entries, keep).Success? && j < |SelectWith(entries, keep).value|
    ensures i < |entries| && BuiltFrom(SelectWith(entries, keep).value[j], entries[i], keep)
    decreases |entries|
  {
    var front := entries[..|entries| - 1];
    SelectLast(entries, keep);
    var prefix := SelectWith(front, keep).value;
    var list := SelectWith(entries, keep).value;
    if j < |prefix| {
      assert list[j] == prefix[j];
      i := SelectedFrom(front, keep, j);
      assert entries[i] == front[i];
    } else {
      i := |entries| - 1;
    }
  }

  /** Where a kept entry's migration sits in the selection. */
  lemma {:induction false} KeptAt(entries: seq<MigrationFile>, keep: MigrationFile -> Option<int>, i: nat)
    returns (j: nat)
    requires SelectWith(entries, keep).Success? && i < |entries| && keep(entries[i]).Some?
    ensures j < |SelectWith(entries, keep).value| && BuiltFrom(SelectWith(entries, keep).value[j], entries[i], keep)
    decreases |entries|
  {
    var front := entries[..|entries| - 1];
    SelectLast(entries, keep);
    var prefix := SelectWith(front, keep).value;
    var list := SelectWith(entries, keep).value;
    if i == |entries| - 1 {
      j := |list| - 1;
    } else {
      assert entries[i] == front[i];
      j := KeptAt(front, keep, i);
      assert list[j] == prefix[j];
    }
  }

  /** Everything Select keeps comes from a kept entry of the directory. */
  lemma SelectOnlyKept(entries: seq<MigrationFile>, curr: int)
    requires Select(entries, curr).Success?
    ensures var list := Select(entries, curr).value;
      forall j :: 0 <= j < |list| ==> exists i :: 0 <= i < |entries| && FromEntry(list[j], entries[i], curr)
  {
    var list := Select(entries, curr).value;
    forall j | 0 <= j < |list|
      ensures exists i :: 0 <= i < |entries| && FromEntry(list[j], entries[i], curr)
    {
      var i := SelectedFrom(entries, KeepRule(curr), j);
      assert FromEntry(list[j], entries[i], curr);
    }
  }

  /** Every kept entry of the directory is in Select's list. */
  lemma SelectKeepsAll(entries: seq<MigrationFile>, curr: int)
    requires Select(entries, curr).Success?
    ensures var list := Select(entries, curr).value;
      forall i :: 0 <= i < |entries| && Admit(entries[i], curr).Some? ==>
        exists j :: 0 <= j < |list| && FromEntry(list[j], entries[i], curr)
  {
    var list := Select(entries, curr).value;
    forall i | 0 <= i < |entries| && Admit(entries[i], curr).Some?
      ensures exists j :: 0 <= j < |list| && FromEntry(list[j], entries[i], curr)
    {
      assert KeepRule(curr)(entries[i]).Some?;
      var j := KeptAt(entries, KeepRule(curr), i);
      assert FromEntry(list[j], entries[i], curr);
    }
  }

  /** Under any rule, the selection fails only with the read error of a kept entry. */
  lemma {:induction false} SelectWithFailureCause(entries: seq<MigrationFile>, keep: MigrationFile -> Option<int>)
    returns (i: nat)
    requires SelectWith(entries, keep).Failure?
    ensures i < |entries| && keep(entries[i]).Some? && entries[i].contents == Failure(SelectWith(entries, keep).error)
    decreases |entries|
  {
    var front := entries[..|entries| - 1];
    var prefix := SelectWith(front, keep);
    if prefix.Failure? {
      i := SelectWithFailureCause(front, keep);
      assert entries[i] == front[i];
    } else {
      i := |entries| - 1;
    }
  }

  /** Select fails only with the read error of a kept entry. */
  lemma SelectFailureCause(entries: seq<MigrationFile>, curr: int)
    requires Select(entries, curr).Failure?
    ensures exists i :: 0 <= i < |entries| && Admit(entries[i], curr).Some?
                        && entries[i].contents == Failure(Select(entries, curr).error)
  {
    var i := SelectWithFailureCause(entries, KeepRule(curr));
    assert Admit(entries[i], curr).Some?;
  }

  predicate SortedByVersion(list: seq<Migration>) {
    forall i, j :: 0 <= i < j < |list| ==> list[i].version <= list[j].version
  }

  /** No migration in the list has a version above `v`. */
  predicate AllAtMost(list: seq<Migration>, v: int) {
    forall i :: 0 <= i < |list| ==> list[i].version <= v
  }

  /** A sorted list stays sorted when a migration no older than all of it is appended. */
  lemma SortedSnoc(list: seq<Migration>, last: Migration)
    requires SortedByVersion(list) && AllAtMost(list, last.version)
    ensures SortedByVersion(list + [last])
  {
  }

  /** Insert `m` into a sorted list after every migration whose version is not larger. */
  function Insert(list: seq<Migration>, m: Migration): (r: seq<Migration>)
    requires SortedByVersion(list)
    ensures SortedByVersion(r)
    ensures multiset(r) == multiset(list) + multiset{m}
    ensures |r| == |list| + 1
    ensures forall v :: AllAtMost(list, v) && m.version <= v ==> AllAtMost(r, v)
    decreases |list|
  {
    if list == [] || list[|list| - 1].version <= m.version then
      var r := list + [m];
      SortedSnoc(list, m);
      assert forall v :: AllAtMost(list, v) && m.version <= v ==> AllAtMost(r, v);
      r
    else
      var front := list[..|list| - 1];
      var last := list[|list| - 1];
      assert list == front + [last];
      var inner := Insert(front, m);
      assert AllAtMost(front, last.version);
      SortedSnoc(inner, last);
      var r := inner + [last];
      assert forall v :: AllAtMost(list, v) ==> AllAtMost(front, v) && last.version <= v;
      assert forall v :: AllAtMost(inner, v) && last.version <= v ==> AllAtMost(r, v);
      r
  }

  /** sort.Slice by ascending version: a sorted permutation of the list. */
  function SortByVersion(list: seq<Migration>): (r: seq<Migration>)
    ensures SortedByVersion(r)
    ensures multiset(r) == multiset(list)
    ensures |r| == |list|
    decreases |list|
  {
    if list == [] then []
    else
      assert list == list[..|list| - 1] + [list[|list| - 1]];
      Insert(SortByVersion(list[..|list| - 1]), list[|list| - 1])
  }

  /** The prefixes RunMigrations puts on a version-query and a directory error. */
  const VersionQueryFailed := "get current user version: "
  const ReadDirFailed := "read migrations dir: "

  /** The migrations RunMigrations applies, in application order, or the
      error it returns before applying any. */
  function Pending(curr: int, queryError: Option<string>, dir: Result<seq<MigrationFile>, string>)
    : (r: Result<seq<Migration>, string>)
    ensures queryError.Some? || dir.Failure? ==> r.Failure?
    ensures r.Success? ==>
      && dir.Success? && Select(dir.value, curr).Success?
      && SortedByVersion(r.value) && multiset(r.value) == multiset(Select(dir.value, curr).value)
  {
    if queryError.Some? then Failure(VersionQueryFailed + queryError.value)
    else if dir.Failure? then Failure(ReadDirFailed + dir.error)
    else match Select(dir.value, curr)
      case Failure(e) => Failure(e)
      case Success(list) => Success(SortByVersion(list))
  }

  /** Sorting neither adds nor drops a migration. */
  lemma SortKeepsMembers(list: seq<Migration>)
    ensures forall m :: m in SortByVersion(list) <==> m in list
  {
    var sorted := SortByVersion(list);
    forall m ensures m in sorted <==> m in list {
      assert m in sorted <==> m in multiset(sorted);
      assert m in list <==> m in multiset(list);
    }
  }

  /** Whatever RunMigrations goes on to apply is in ascending version order,
      strictly newer than the database's version, and exactly the kept files. */
  lemma PendingIsOrderedSelection(curr: int, dir: seq<MigrationFile>, sel: seq<Migration>)
    requires Select(dir, curr) == Success(sel)
    ensures Pending(curr, None, Success(dir)) == Success(SortByVersion(sel))
    ensures SortedByVersion(SortByVersion(sel))
    ensures forall m :: m in SortByVersion(sel) ==> m.version > curr
    ensures forall m :: m in SortByVersion(sel) ==> exists i :: 0 <= i < |dir| && FromEntry(m, dir[i], curr)
    ensures forall i :: 0 <= i < |dir| && Admit(dir[i], curr).Some? ==>
              exists m :: m in SortByVersion(sel) && FromEntry(m, dir[i], curr)
  {
    SortKeepsMembers(sel);
    forall m | m in SortByVersion(sel)
      ensures m.version > curr && exists i :: 0 <= i < |dir| && FromEntry(m, dir[i], curr)
    {
      var k :| 0 <= k < |sel| && sel[k] == m;
      var i := SelectedFrom(dir, KeepRule(curr), k);
      assert FromEntry(m, dir[i], curr);
    }
    forall i | 0 <= i < |dir| && Admit(dir[i], curr).Some?
      ensures exists m :: m in SortByVersion(sel) && FromEntry(m, dir[i], curr)
    {
      assert KeepRule(curr)(dir[i]).Some?;
      var k := KeptAt(dir, KeepRule(curr), i);
      assert FromEntry(sel[k], dir[i], curr);
      assert sel[k] in SortByVersion(sel);
    }
  }

  /** Index of the first migration whose transaction fails, or |list| when none does. */
  function FirstFailure(list: seq<Migration>, tx: Migration -> Option<string>): (k: nat)
    ensures k <= |list|
    ensures forall j :: 0 <= j < k ==> tx(list[j]).None?
    ensures k < |list| ==> tx(list[k]).Some?
    decreases |list|
  {
    if list == [] then 0
    else if tx(list[0]).Some? then 0
    else
      var k := FirstFailure(list[1..], tx);
      assert forall j :: 1 <= j < k + 1 ==> list[j] == list[1..][j - 1];
      1 + k
  }

  /** The error RunMigrations returns for a failed migration. */
  function MigrationFailed(name: string, cause: string): string {
    "migration " + name + " failed: " + cause
  }

  /** applyOne: one transaction that runs the migration's SQL and sets
      `user_version` to its version; on any failure the deferred rollback
      leaves the database as it was. */
  method ApplyOne(db: Database, m: Migration) returns (err: Option<string>)
    modifies db`userVersion, db`applied
    ensures err == db.txError(m)
    ensures err.None? ==> db.userVersion == m.version && db.applied == old(db.applied) + [m]
    ensures err.Some? ==> db.userVersion == old(db.userVersion) && db.applied == old(db.applied)
  {
    err := db.txError(m);
    if err.None? {
      db.applied := db.applied + [m];
      db.userVersion := m.version;
    }
  }

  /** RunMigrations's first loop: walk the directory entries in order,
      skipping directories, names without a version and versions that are not
      newer than `curr`, and collect the rest; a read error ends the loop. */
  method CollectPending(entries: seq<MigrationFile>, curr: int) returns (r: Result<seq<Migration>, string>)
    ensures r == Select(entries, curr)
  {
    var list: seq<Migration> := [];
    var i := 0;
    while i < |entries|
      invariant 0 <= i <= |entries|
      invariant Select(entries[..i], curr) == Success(list)
    {
      var e := entries[i];
      SelectPrefix(entries, i, KeepRule(curr));
      if e.isDir {
        i := i + 1;
        continue;
      }
      var base := e.name;
      var v := VersionOf(base);
      if v.None? {
        i := i + 1;
        continue;
      }
      if v.value <= curr {
        i := i + 1;
        continue;
      }
      if e.contents.Failure? {
        SelectFailureSticks(entries, i + 1, KeepRule(curr));
        return Failure(e.contents.error);
      }
      list := list + [Migration(v.value, base, e.contents.value)];
      i := i + 1;
    }
    assert entries[..i] == entries;
    return Success(list);
  }

  /** RunMigrations's second loop: apply the migrations in order and stop at
      the first that fails, naming it in the error. */
  method ApplyInOrder(db: Database, list: seq<Migration>) returns (err: Option<string>)
    modifies db`userVersion, db`applied
    ensures var k := FirstFailure(list, db.txError);
      && db.applied == old(db.applied) + list[..k]
      && db.userVersion == (if k == 0 then old(db.userVersion) else list[k - 1].version)
      && err == (if k == |list| then None else Some(MigrationFailed(list[k].name, db.txError(list[k]).value)))
  {
    var j := 0;
    while j < |list|
      invariant 0 <= j <= |list|
      invariant forall t :: 0 <= t < j ==> db.txError(list[t]).None?
      invariant db.applied == old(db.applied) + list[..j]
      invariant db.userVersion == (if j == 0 then old(db.userVersion) else list[j - 1].version)
    {
      var m := list[j];
      var failure := ApplyOne(db, m);
      if failure.Some? {
        FirstFailureAt(list, db.txError, j);
        return Some(MigrationFailed(m.name, failure.value));
      }
      assert list[..j + 1] == list[..j] + [m];
      j := j + 1;
    }
    FirstFailureAt(list, db.txError, j);
    assert list[..j] == list;
    return None;
  }

  /** RunMigrations: read the current version, select and sort the pending
      migrations, and apply them one by one until one fails. */
  method RunMigrations(db: Database, dir: Result<seq<MigrationFile>, string>) returns (err: Option<string>)
    modifies db`userVersion, db`applied
    ensures var pending := Pending(old(db.userVersion), db.versionQueryError, dir);
      pending.Failure? ==>
        err == Some(pending.error) && db.userVersion == old(db.userVersion) && db.applied == old(db.applied)
    ensures var pending := Pending(old(db.userVersion), db.versionQueryError, dir);
      pending.Success? ==>
        var list := pending.value;
        var k := FirstFailure(list, db.txError);
        && db.applied == old(db.applied) + list[..k]
        && db.userVersion == (if k == 0 then old(db.userVersion) else list[k - 1].version)
        && err == (if k == |list| then None else Some(MigrationFailed(list[k].name, db.txError(list[k]).value)))
  {
    var currResult := CurrentUserVersion(db);
    if currResult.Failure? {
      return Some(VersionQueryFailed + currResult.error);
    }
    var curr := currResult.value;
    if dir.Failure? {
      return Some(ReadDirFailed + dir.error);
    }
    var selected := CollectPending(dir.value, curr);
    if selected.Failure? {
      return Some(selected.error);
    }
    var sorted := SortByVersion(selected.value);
    err := ApplyInOrder(db, sorted);
  }

  /** Once a prefix of the directory fails to select, the whole directory does, with that error. */
  lemma {:induction false} SelectFailureSticks(entries: seq<MigrationFile>, n: nat, keep: MigrationFile -> Option<int>)
    requires n <= |entries|
    requires SelectWith(entries[..n], keep).Failure?
    ensures SelectWith(entries, keep) == SelectWith(entries[..n], keep)
    decreases |entries| - n
  {
    if n < |entries| {
      SelectPrefix(entries, n, keep);
      SelectFailureSticks(entries, n + 1, keep);
    } else {
      assert entries[..n] == entries;
    }
  }

  /** FirstFailure is the index where the application loop stops. */
  lemma {:induction false} FirstFailureAt(list: seq<Migration>, tx: Migration -> Option<string>, k: nat)
    requires k <= |list|
    requires forall t :: 0 <= t < k ==> tx(list[t]).None?
    requires k < |list| ==> tx(list[k]).Some?
    ensures FirstFailure(list, tx) == k
    decreases k
  {
    if k > 0 {
      assert tx(list[0]).None?;
      var rest := list[1..];
      assert forall t :: 0 <= t < k - 1 ==> rest[t] == list[t + 1];
      FirstFailureAt(rest, tx, k - 1);
    }
  }
}
