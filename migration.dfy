/** `MigrationService`: at startup it lists the migration files, deletes the
    stored records of files that no longer exist, refuses to start while a
    stored migration has failed, and runs the migrations without a record in
    name order, stopping at the first failure. The directory listing, the
    database table and each module's outcome are inputs; the clock is `now`. */
module Migration {
  import opened Wrappers
  import opened Js

  // ---------------------------------------------------------------------------
  // getMigrationFiles

  /** Code-unit order on strings, standing in for `localeCompare`. */
  predicate Lte(a: string, b: string) {
    a == [] || (b != [] && (a[0] < b[0] || (a[0] == b[0] && Lte(a[1..], b[1..]))))
  }

  lemma {:induction false} LteTotal(a: string, b: string)
    ensures Lte(a, b) || Lte(b, a)
  {
    if a != [] && b != [] && a[0] == b[0] {
      LteTotal(a[1..], b[1..]);
    }
  }

  predicate Sorted(s: seq<string>) {
    forall i :: 0 < i < |s| ==> Lte(s[i - 1], s[i])
  }

  /** Inserts `x` after the last element not above it (a stable sort). */
  function Insert(x: string, s: seq<string>): (r: seq<string>)
    ensures |r| == |s| + 1
    ensures r[|r| - 1] == x || (s != [] && r[|r| - 1] == s[|s| - 1])
  {
    if s == [] || Lte(s[|s| - 1], x) then s + [x]
    else Insert(x, s[..|s| - 1]) + [s[|s| - 1]]
  }

  function Sort(s: seq<string>): seq<string> {
    if s == [] then [] else Insert(s[|s| - 1], Sort(s[..|s| - 1]))
  }

  lemma {:induction false} InsertSpec(x: string, s: seq<string>)
    requires Sorted(s)
    ensures Sorted(Insert(x, s)) && multiset(Insert(x, s)) == multiset(s) + multiset{x}
  {
    InsertSorted(x, s);
    InsertPerm(x, s);
  }

  lemma {:induction false} InsertPerm(x: string, s: seq<string>)
    ensures multiset(Insert(x, s)) == multiset(s) + multiset{x}
  {
    if !(s == [] || Lte(s[|s| - 1], x)) {
      InsertPerm(x, s[..|s| - 1]);
      assert s == s[..|s| - 1] + [s[|s| - 1]];
    }
  }

  lemma {:induction false} InsertSorted(x: string, s: seq<string>)
    requires Sorted(s)
    ensures Sorted(Insert(x, s))
  {
    if !(s == [] || Lte(s[|s| - 1], x)) {
      var init := s[..|s| - 1];
      var last := s[|s| - 1];
      InsertSorted(x, init);
      LteTotal(last, x);
      var r := Insert(x, init);
      if init != [] {
        assert Lte(init[|init| - 1], last);
      }
      assert Lte(r[|r| - 1], last);
      var res := r + [last];
      forall i | 0 < i < |res|
        ensures Lte(res[i - 1], res[i])
      {
        if i < |r| {
          assert res[i - 1] == r[i - 1] && res[i] == r[i];
        }
      }
    }
  }

  /** The sort orders the names and keeps each of them. */
  lemma {:induction false} SortSpec(s: seq<string>)
    ensures Sorted(Sort(s)) && multiset(Sort(s)) == multiset(s)
  {
    if s != [] {
      SortSpec(s[..|s| - 1]);
      InsertSpec(s[|s| - 1], Sort(s[..|s| - 1]));
      assert s == s[..|s| - 1] + [s[|s| - 1]];
    }
  }

  predicate Distinct(s: seq<string>) {
    forall i, j :: 0 <= i < j < |s| ==> s[i] != s[j]
  }

  /** `Array.from(new Set(s))`: the first occurrence of each name, in order. */
  function Dedupe(s: seq<string>): (r: seq<string>)
    ensures Distinct(r)
    ensures forall x :: x in r <==> x in s
  {
    if s == [] then []
    else
      var d := Dedupe(s[..|s| - 1]);
      assert forall x :: x in s <==> x in s[..|s| - 1] || x == s[|s| - 1];
      if s[|s| - 1] in d then d else d + [s[|s| - 1]]
  }

  /** The position of the first occurrence of `x`. */
  function FirstIndex(s: seq<string>, x: string): (i: nat)
    requires x in s
    ensures i < |s| && s[i] == x && x !in s[..i]
  {
    if s[0] == x then 0 else 1 + FirstIndex(s[1..], x)
  }

  lemma {:induction false} FirstIndexPrefix(s: seq<string>, k: nat, x: string)
    requires k <= |s| && x in s[..k]
    ensures FirstIndex(s[..k], x) == FirstIndex(s, x)
  {
    if s[0] != x {
      assert s[1..][..k - 1] == s[..k][1..];
      FirstIndexPrefix(s[1..], k - 1, x);
    }
  }

  /** The names come in the order of their first occurrences. */
  lemma {:induction false} DedupeOrder(s: seq<string>)
    ensures var r := Dedupe(s);
      forall i, j :: 0 <= i < j < |r| ==> FirstIndex(s, r[i]) < FirstIndex(s, r[j])
  {
    if s != [] {
      var init := s[..|s| - 1];
      DedupeOrder(init);
      forall x | x in init
        ensures FirstIndex(init, x) == FirstIndex(s, x)
      {
        FirstIndexPrefix(s, |s| - 1, x);
      }
      DedupeOrderStep(s, init, Dedupe(init));
    }
  }

  lemma DedupeOrderStep(s: seq<string>, init: seq<string>, d: seq<string>)
    requires s != [] && init == s[..|s| - 1] && d == Dedupe(init)
    requires forall i, j :: 0 <= i < j < |d| ==> FirstIndex(init, d[i]) < FirstIndex(init, d[j])
    requires forall x :: x in init ==> FirstIndex(init, x) == FirstIndex(s, x)
    ensures var r := Dedupe(s);
      forall i, j :: 0 <= i < j < |r| ==> FirstIndex(s, r[i]) < FirstIndex(s, r[j])
  {
    var last := s[|s| - 1];
    var r := Dedupe(s);
    forall i, j | 0 <= i < j < |r|
      ensures FirstIndex(s, r[i]) < FirstIndex(s, r[j])
    {
      assert r[i] == d[i] && d[i] in init;
      if j < |d| {
        assert r[j] == d[j] && d[j] in init;
        assert FirstIndex(init, d[i]) < FirstIndex(init, d[j]);
      } else {
        assert r[j] == last && last !in init;
        assert FirstIndex(s, last) == |s| - 1;
      }
    }
  }

  /** The names of the migration files: the listing sorted, each name cut at
      its first dot, duplicates dropped. */
  function MigrationFiles(raw: seq<string>): (files: seq<string>)
    ensures Distinct(files)
    ensures forall x :: x in files <==> exists f :: f in raw && x == StripFromFirstDot(f)
  {
    SortMembers(raw);
    Dedupe(StripAll(Sort(raw)))
  }

  lemma SortMembers(s: seq<string>)
    ensures forall f :: f in Sort(s) <==> f in s
  {
    SortSpec(s);
    forall f
      ensures f in Sort(s) <==> f in s
    {
      assert f in Sort(s) <==> f in multiset(Sort(s));
    }
  }

  /** `map(s => s.replace(/\..*$/, ''))`. */
  function StripAll(s: seq<string>): (r: seq<string>)
    ensures |r| == |s| && forall i :: 0 <= i < |s| ==> r[i] == StripFromFirstDot(s[i])
    ensures forall x :: x in r <==> exists f :: f in s && x == StripFromFirstDot(f)
  {
    if s == [] then []
    else
      var r := [StripFromFirstDot(s[0])] + StripAll(s[1..]);
      assert forall f :: f in s <==> f == s[0] || f in s[1..];
      r
  }

  // ---------------------------------------------------------------------------
  // Stored records

  datatype MigrationRecord = MigrationRecord(name: string, finishedAt: Option<int>, error: bool)

  /** The first stored record of `name`. */
  function Get(db: seq<MigrationRecord>, name: string): (r: Option<MigrationRecord>)
    ensures r.Some? ==> r.value in db && r.value.name == name
    ensures r.None? ==> forall rec :: rec in db ==> rec.name != name
  {
    if db == [] then None else if db[0].name == name then Some(db[0]) else Get(db[1..], name)
  }

  /** `clearMigrations`: the records whose name is among the files. */
  function Cleared(db: seq<MigrationRecord>, files: seq<string>): (r: seq<MigrationRecord>)
    ensures forall rec :: rec in r <==> rec in db && rec.name in files
  {
    if db == [] then []
    else
      var rest := Cleared(db[1..], files);
      assert forall rec :: rec in db <==> rec == db[0] || rec in db[1..];
      if db[0].name in files then [db[0]] + rest else rest
  }

  /** The name `find(m => m.error)` reports, if any. */
  function FirstError(db: seq<MigrationRecord>): (r: Option<string>)
    ensures r.Some? <==> exists rec :: rec in db && rec.error
    ensures r.Some? ==> Get(db, r.value).Some?
  {
    if db == [] then None
    else if db[0].error then Some(db[0].name)
    else
      var r := FirstError(db[1..]);
      assert forall rec :: rec in db <==> rec == db[0] || rec in db[1..];
      r
  }

  predicate Stored(db: seq<MigrationRecord>, name: string) {
    exists rec :: rec in db && rec.name == name
  }

  /** The files without a stored record, in file order. */
  function Waiting(files: seq<string>, db: seq<MigrationRecord>): (w: seq<string>)
    ensures forall n :: n in w <==> n in files && !Stored(db, n)
    ensures Distinct(files) ==> Distinct(w)
  {
    if files == [] then []
    else
      var rest := Waiting(files[1..], db);
      assert forall n :: n in files <==> n == files[0] || n in files[1..];
      if Stored(db, files[0]) then rest
      else
        assert Distinct(files) ==> files[0] !in files[1..];
        [files[0]] + rest
  }

  /** What the upsert writes: `finishedAt` after a run, `error` after a
      failure. */
  datatype Mark = Finished(at: int) | Failed

  function Marked(rec: MigrationRecord, mark: Mark): MigrationRecord {
    match mark
    case Finished(at) => rec.(finishedAt := Some(at))
    case Failed => rec.(error := true)
  }

  /** `migrationCustom.upsert({ where: { name } , ... })`. */
  function Upsert(db: seq<MigrationRecord>, name: string, mark: Mark): (r: seq<MigrationRecord>)
    ensures Get(r, name) == Some(Marked(if Get(db, name).Some? then Get(db, name).value else MigrationRecord(name, None, false), mark))
    ensures forall n :: n != name ==> Get(r, n) == Get(db, n)
  {
    if db == [] then [Marked(MigrationRecord(name, None, false), mark)]
    else if db[0].name == name then [Marked(db[0], mark)] + db[1..]
    else [db[0]] + Upsert(db[1..], name, mark)
  }

  // ---------------------------------------------------------------------------
  // execMigrations

  /** What importing and running a migration module does. */
  datatype Outcome =
    | NoExec     // the module exports no `exec`
    | Completes  // `exec` resolves
    | Throws     // the import or `exec` throws

  datatype ExecStatus = AllDone | Aborted(name: string)

  /** The loop over the waiting migrations from position `i`. */
  function ExecFrom(db: seq<MigrationRecord>, waiting: seq<string>, outcome: string -> Outcome, now: int, i: nat)
    : (seq<MigrationRecord>, ExecStatus)
    requires i <= |waiting|
    decreases |waiting| - i
  {
    if i == |waiting| then (db, AllDone)
    else
      match outcome(waiting[i])
      case NoExec => ExecFrom(db, waiting, outcome, now, i + 1)
      case Completes => ExecFrom(Upsert(db, waiting[i], Finished(now)), waiting, outcome, now, i + 1)
      case Throws => (Upsert(db, waiting[i], Failed), Aborted(waiting[i]))
  }

  /** The run stopped at position `j`: the migration there threw and is
      marked failed, none before it threw, and none after it was touched. */
  predicate AbortedAt(db: seq<MigrationRecord>, r: seq<MigrationRecord>, waiting: seq<string>,
                      outcome: string -> Outcome, i: nat, j: nat)
    requires i <= j < |waiting|
  {
    && outcome(waiting[j]) == Throws
    && Get(r, waiting[j]).Some? && Get(r, waiting[j]).value.error
    && (forall k :: i <= k < j ==> outcome(waiting[k]) != Throws)
    && (forall k :: j < k < |waiting| ==> Get(r, waiting[k]) == Get(db, waiting[k]))
  }

  lemma {:induction false} ExecFromSpec(db: seq<MigrationRecord>, waiting: seq<string>, outcome: string -> Outcome, now: int, i: nat)
    requires i <= |waiting| && Distinct(waiting)
    ensures var (r, status) := ExecFrom(db, waiting, outcome, now, i);
      && (status == AllDone ==> forall k :: i <= k < |waiting| ==> outcome(waiting[k]) != Throws)
      && (status.Aborted? ==> exists j :: i <= j < |waiting| && waiting[j] == status.name && AbortedAt(db, r, waiting, outcome, i, j))
      && (forall n :: Get(r, n) != Get(db, n) ==> n in waiting[i..] && outcome(n) != NoExec)
      && (forall k :: i <= k < |waiting| && status == AllDone && outcome(waiting[k]) == Completes ==>
            Get(r, waiting[k]).Some? && Get(r, waiting[k]).value.finishedAt == Some(now))
    decreases |waiting| - i
  {
    if i < |waiting| {
      var w := waiting[i];
      assert forall k :: i < k < |waiting| ==> waiting[k] != w;
      assert forall n :: n in waiting[i + 1..] ==> n in waiting[i..];
      match outcome(w)
      case NoExec =>
        ExecFromSpec(db, waiting, outcome, now, i + 1);
      case Completes =>
        var db1 := Upsert(db, w, Finished(now));
        ExecFromSpec(db1, waiting, outcome, now, i + 1);
        var (r, status) := ExecFrom(db1, waiting, outcome, now, i + 1);
        if status.Aborted? {
          var j :| i + 1 <= j < |waiting| && waiting[j] == status.name && AbortedAt(db1, r, waiting, outcome, i + 1, j);
          assert AbortedAt(db, r, waiting, outcome, i, j);
        }
        assert w !in waiting[i + 1..];
      case Throws =>
        var r := Upsert(db, w, Failed);
        assert AbortedAt(db, r, waiting, outcome, i, i);
    }
  }

  // ---------------------------------------------------------------------------
  // onModuleInit

  datatype InitResult =
    | Exited(failed: string)   // `process.exit(1)` over a stored failure
    | Ran(status: ExecStatus)

  /** The whole startup: the files, the cleared table, the error gate, and
      the run. */
  function Init(raw: seq<string>, db: seq<MigrationRecord>, outcome: string -> Outcome, now: int)
    : (seq<MigrationRecord>, InitResult)
  {
    var files := MigrationFiles(raw);
    var cleared := Cleared(db, files);
    match FirstError(cleared)
    case Some(name) => (cleared, Exited(name))
    case None =>
      var run := ExecFrom(cleared, Waiting(files, cleared), outcome, now, 0);
      (run.0, Ran(run.1))
  }

  /** Startup exits, with nothing run, exactly when a record kept by the
      cleanup has failed; otherwise only waiting migrations change records. */
  lemma InitSpec(raw: seq<string>, db: seq<MigrationRecord>, outcome: string -> Outcome, now: int)
    ensures var (r, result) := Init(raw, db, outcome, now);
      var files := MigrationFiles(raw);
      && (result.Exited? <==> exists rec :: rec in db && rec.name in files && rec.error)
      && (result.Exited? ==> r == Cleared(db, files))
      && (forall rec :: rec in db && rec.name !in files ==> rec !in r || Get(r, rec.name).None?)
      && (result.Ran? ==> forall n :: Get(r, n) != Get(Cleared(db, files), n) ==>
            n in files && !Stored(Cleared(db, files), n) && outcome(n) != NoExec)
  {
    var files := MigrationFiles(raw);
    var cleared := Cleared(db, files);
    if FirstError(cleared).None? {
      var waiting := Waiting(files, cleared);
      ExecFromSpec(cleared, waiting, outcome, now, 0);
      var r := ExecFrom(cleared, waiting, outcome, now, 0).0;
      forall rec | rec in db && rec.name !in files && rec in r
        ensures Get(r, rec.name).None?
      {
        assert Get(cleared, rec.name).None?;
        assert rec.name !in waiting;
      }
    }
  }

  // ---------------------------------------------------------------------------
  // The service

  class MigrationService {
    var migrations: seq<MigrationRecord>
    var migrationFiles: seq<string>

    constructor()
      ensures migrations == [] && migrationFiles == []
    {
      migrations := [];
      migrationFiles := [];
    }

    method GetMigrationFiles(raw: seq<string>)
      modifies this
      ensures migrationFiles == MigrationFiles(raw) && migrations == old(migrations)
    {
      migrationFiles := MigrationFiles(raw);
    }

    method ClearMigrations(db: seq<MigrationRecord>) returns (r: seq<MigrationRecord>)
      ensures r == Cleared(db, migrationFiles)
    {
      r := Cleared(db, migrationFiles);
    }

    /** The loop of `execMigrations`; a throw ends it after the failure is
        recorded. */
    method ExecMigrations(db: seq<MigrationRecord>, outcome: string -> Outcome, now: int)
      returns (r: seq<MigrationRecord>, status: ExecStatus)
      ensures (r, status) == ExecFrom(db, Waiting(migrationFiles, migrations), outcome, now, 0)
    {
      var waiting := Waiting(migrationFiles, migrations);
      ghost var goal := ExecFrom(db, waiting, outcome, now, 0);
      r := db;
      for i := 0 to |waiting|
        invariant goal == ExecFrom(r, waiting, outcome, now, i)
      {
        var name := waiting[i];
        match outcome(name)
        case NoExec =>
        case Completes =>
          r := Upsert(r, name, Finished(now));
        case Throws =>
          r := Upsert(r, name, Failed);
          return r, Aborted(name);
      }
      status := AllDone;
    }

    method OnModuleInit(raw: seq<string>, db: seq<MigrationRecord>, outcome: string -> Outcome, now: int)
      returns (r: seq<MigrationRecord>, result: InitResult)
      modifies this
      ensures (r, result) == Init(raw, db, outcome, now)
    {
      GetMigrationFiles(raw);
      var cleared := ClearMigrations(db);
      migrations := cleared;
      var failed := FirstError(migrations);
      if failed.Some? {
        return cleared, Exited(failed.value);
      }
      var status;
      r, status := ExecMigrations(cleared, outcome, now);
      result := Ran(status);
    }
  }
}
