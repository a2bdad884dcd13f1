/** The migration runner: a directory of SQL files, a table of applied names, and runs that may fail,
    tolerate an error or die at any point between two statements. */
module Migrations {
  import opened SqlText

  datatype Entry = Entry(name: string, isDir: bool, content: string)

  datatype File = File(name: string, content: string)

  /** How a file's turn begins: the check of its name, and the reading of the file. */
  datatype Start = Proceeds | CheckFails | ReadFails | DiesFirst

  /** How its SQL ends. SQL that committed but was reported as failing, or whose run died before the
      answer, is one that `Applies` in a run that then `Dies`. */
  datatype SqlEnd = Applies | Tolerated | Fatal | DiesDuring

  /** What comes after its SQL: the access table, then the record. */
  datatype Rest = Records | EnsureFails | RecordFails | Dies

  datatype Turnout = Turnout(start: Start, sql: SqlEnd, rest: Rest)

  /** One execution of a migration; a tolerated error leaves its SQL unapplied. */
  datatype Attempt = Attempt(name: string, applied: bool)

  /** `recorded` is the applied-names table; `attempts` lists executions and `interrupted` those after
      which the run stopped before recording. */
  datatype Db = Db(recorded: set<string>, attempts: seq<Attempt>, interrupted: seq<string>)

  datatype Result = Result(db: Db, ok: bool)

  const BLANK := Db({}, [], [])
  const FIRST_ENSURED := "040_performance_rls_refactor.sql"

  // ---------- The files in order ----------

  predicate Less(a: string, b: string) {
    b != "" && (a == "" || a[0] < b[0] || (a[0] == b[0] && Less(a[1..], b[1..])))
  }

  lemma {:induction false} LessIsTotal(a: string, b: string)
    ensures Less(a, b) || Less(b, a) || a == b
    ensures !(Less(a, b) && Less(b, a)) && !Less(a, a)
  {
    if a != "" && b != "" {
      LessIsTotal(a[1..], b[1..]);
      assert a == [a[0]] + a[1..] && b == [b[0]] + b[1..];
      if a[0] == b[0] && a[1..] == b[1..] {
        assert a == b;
      }
    }
    if a != "" {
      LessIsIrreflexive(a);
    }
  }

  lemma {:induction false} LessIsIrreflexive(a: string)
    ensures !Less(a, a)
  {
    if a != "" {
      LessIsIrreflexive(a[1..]);
    }
  }

  lemma {:induction false} LessIsTransitive(a: string, b: string, c: string)
    requires Less(a, b) && Less(b, c)
    ensures Less(a, c)
  {
    if a != "" && a[0] == b[0] && b[0] == c[0] {
      LessIsTransitive(a[1..], b[1..], c[1..]);
    }
  }

  /** The names agree up to `n`, where the first one ends or has the smaller character. */
  ghost predicate FirstDifferAt(a: string, b: string, n: nat) {
    n <= |a| && n < |b| && a[..n] == b[..n] && (n < |a| ==> a[n] < b[n])
  }

  ghost predicate IsBefore(a: string, b: string) {
    exists n: nat :: FirstDifferAt(a, b, n)
  }

  /** One name is before another when, at the first place where they differ, it has the smaller character
      or has ended. */
  lemma {:induction false} LessMeaning(a: string, b: string)
    ensures Less(a, b) <==> IsBefore(a, b)
  {
    if b == "" {
    } else if a == "" || a[0] < b[0] {
      assert FirstDifferAt(a, b, 0);
    } else {
      if a[0] == b[0] {
        LessMeaning(a[1..], b[1..]);
        assert a == [a[0]] + a[1..] && b == [b[0]] + b[1..];
        if n: nat :| FirstDifferAt(a[1..], b[1..], n) {
          assert a[..n + 1] == [a[0]] + a[1..][..n] && b[..n + 1] == [b[0]] + b[1..][..n];
          assert FirstDifferAt(a, b, n + 1);
        }
      }
      forall n: nat | FirstDifferAt(a, b, n)
        ensures n > 0 && a[0] == b[0] && FirstDifferAt(a[1..], b[1..], n - 1)
      {
        assert n > 0;
        assert a[..n][0] == a[0] && b[..n][0] == b[0];
        assert a[1..][..n - 1] == a[..n][1..] && b[1..][..n - 1] == b[..n][1..];
      }
    }
  }

  ghost predicate Sorted(files: seq<File>) {
    forall i, j :: 0 <= i < j < |files| ==> Less(files[i].name, files[j].name)
  }

  function Insert(f: File, files: seq<File>): seq<File> {
    if files == [] || Less(f.name, files[0].name) then [f] + files else [files[0]] + Insert(f, files[1..])
  }

  function SortByName(files: seq<File>): seq<File> {
    if files == [] then [] else Insert(files[0], SortByName(files[1..]))
  }

  function EndsWith(s: string, suffix: string): bool {
    |suffix| <= |s| && s[|s| - |suffix|..] == suffix
  }

  function SqlFilesOf(dir: seq<Entry>): seq<File> {
    if dir == [] then []
    else
      var last := dir[|dir| - 1];
      SqlFilesOf(dir[..|dir| - 1]) +
      if !last.isDir && EndsWith(last.name, ".sql") then [File(last.name, last.content)] else []
  }

  lemma EndsWithMeaning(s: string, suffix: string)
    ensures EndsWith(s, suffix) <==> exists stem :: s == stem + suffix
  {
    if EndsWith(s, suffix) {
      assert s == s[..|s| - |suffix|] + suffix;
    }
  }

  ghost predicate DistinctNames(files: seq<File>) {
    forall i, j :: 0 <= i < j < |files| ==> files[i].name != files[j].name
  }

  lemma {:induction false} InsertKeepsElements(f: File, files: seq<File>)
    ensures multiset(Insert(f, files)) == multiset(files) + multiset{f}
  {
    if files != [] {
      assert files == [files[0]] + files[1..];
      if !Less(f.name, files[0].name) {
        InsertKeepsElements(f, files[1..]);
      }
    }
  }

  lemma {:induction false} InsertKeepsSorted(f: File, files: seq<File>)
    requires Sorted(files) && forall i :: 0 <= i < |files| ==> files[i].name != f.name
    ensures Sorted(Insert(f, files))
  {
    if files == [] {
    } else if Less(f.name, files[0].name) {
      var r := [f] + files;
      forall j | 1 <= j < |r| ensures Less(f.name, r[j].name) {
        if j > 1 {
          LessIsTransitive(f.name, files[0].name, files[j - 1].name);
        }
      }
    } else {
      InsertKeepsSorted(f, files[1..]);
      InsertKeepsElements(f, files[1..]);
      LessIsTotal(f.name, files[0].name);
      var rest := Insert(f, files[1..]);
      forall j | 0 <= j < |rest| ensures Less(files[0].name, rest[j].name) {
        assert rest[j] in multiset(files[1..]) + multiset{f};
      }
    }
  }

  lemma {:induction false} SortSorts(files: seq<File>)
    requires DistinctNames(files)
    ensures Sorted(SortByName(files)) && multiset(SortByName(files)) == multiset(files)
  {
    if files != [] {
      var rest := SortByName(files[1..]);
      SortSorts(files[1..]);
      assert files == [files[0]] + files[1..];
      forall i | 0 <= i < |rest| ensures rest[i].name != files[0].name {
        assert rest[i] in multiset(files[1..]);
      }
      InsertKeepsSorted(files[0], rest);
      InsertKeepsElements(files[0], rest);
    }
  }

  lemma FirstIsLeast(a: seq<File>, f: File)
    requires Sorted(a) && a != [] && f in a
    ensures f == a[0] || Less(a[0].name, f.name)
  {
    var i :| 0 <= i < |a| && a[i] == f;
    assert i > 0 ==> Less(a[0].name, a[i].name);
  }

  lemma TailIsSorted(a: seq<File>)
    requires Sorted(a) && a != []
    ensures a == [a[0]] + a[1..] && Sorted(a[1..]) && multiset(a[1..]) == multiset(a) - multiset{a[0]}
  {
    assert a == [a[0]] + a[1..];
  }

  lemma {:induction false} SortedIsUnique(a: seq<File>, b: seq<File>)
    requires Sorted(a) && Sorted(b) && multiset(a) == multiset(b)
    ensures a == b
  {
    assert |multiset(a)| == |a| && |multiset(b)| == |b|;
    if a != [] {
      assert a[0] == b[0] by {
        assert a[0] in multiset(b) && b[0] in multiset(a);
        FirstIsLeast(a, b[0]);
        FirstIsLeast(b, a[0]);
        LessIsTotal(a[0].name, b[0].name);
      }
      TailIsSorted(a);
      TailIsSorted(b);
      SortedIsUnique(a[1..], b[1..]);
    }
  }

  /** Names in one directory are distinct. */
  ghost predicate DistinctEntries(dir: seq<Entry>) {
    forall i, j :: 0 <= i < j < |dir| ==> dir[i].name != dir[j].name
  }

  /** The files selected are exactly the `.sql` entries that are not directories, each once. */
  lemma {:induction false} SelectsSqlFiles(dir: seq<Entry>, f: File)
    ensures multiset(SqlFilesOf(dir))[f]
            == if EndsWith(f.name, ".sql") then multiset(dir)[Entry(f.name, false, f.content)] else 0
  {
    if dir != [] {
      var n := |dir| - 1;
      assert dir == dir[..n] + [dir[n]];
      SelectsSqlFiles(dir[..n], f);
    }
  }

  lemma {:induction false} SelectedAreDistinct(dir: seq<Entry>)
    requires DistinctEntries(dir)
    ensures DistinctNames(SqlFilesOf(dir))
  {
    if dir != [] {
      var n := |dir| - 1;
      var front := SqlFilesOf(dir[..n]);
      SelectedAreDistinct(dir[..n]);
      forall i | 0 <= i < |front| ensures front[i].name != dir[n].name {
        SelectsSqlFiles(dir[..n], front[i]);
        assert front[i] in multiset(front);
        assert Entry(front[i].name, false, front[i].content) in multiset(dir[..n]);
      }
    }
  }

  /** The order of migrations depends on the directory only, not on the order it is listed in. */
  lemma {:induction false} OrderIsFixed(listing: seq<Entry>, other: seq<Entry>)
    requires multiset(listing) == multiset(other) && DistinctEntries(listing) && DistinctEntries(other)
    ensures SortByName(SqlFilesOf(listing)) == SortByName(SqlFilesOf(other))
    ensures Sorted(SortByName(SqlFilesOf(listing)))
  {
    var a, b := SqlFilesOf(listing), SqlFilesOf(other);
    forall f: File ensures multiset(a)[f] == multiset(b)[f] {
      SelectsSqlFiles(listing, f);
      SelectsSqlFiles(other, f);
    }
    SelectedAreDistinct(listing);
    SelectedAreDistinct(other);
    SortSorts(a);
    SortSorts(b);
    SortedIsUnique(SortByName(a), SortByName(b));
  }

  // ---------- One run ----------

  function TurnoutAt(turnouts: seq<Turnout>, n: nat): Turnout {
    if n < |turnouts| then turnouts[n] else Turnout(Proceeds, Applies, Records)
  }

  predicate IsBlank(f: File) {
    TrimSpace(f.content) == ""
  }

  predicate HasSql(f: File) {
    Prepare(TrimSpace(f.content)).sql != ""
  }

  /** One file's turn: skip it, or execute it, ensure the access table and record it. */
  function Turn(f: File, turnout: Turnout, db: Db): Result {
    Proceed(f.name, IsBlank(f), HasSql(f), turnout, db)
  }

  /** Whether a turn whose SQL ran goes on to record the file. */
  predicate GoesOn(name: string, rest: Rest) {
    rest == Records || (rest == EnsureFails && Less(name, FIRST_ENSURED))
  }

  function Proceed(name: string, blank: bool, hasSql: bool, turnout: Turnout, db: Db): Result {
    if turnout.start == CheckFails then Result(db, false)
    else if name in db.recorded then Result(db, true)
    else if turnout.start != Proceeds then Result(db, false)
    else if blank then Result(db, true)
    else if hasSql && (turnout.sql == Fatal || turnout.sql == DiesDuring) then Result(db, false)
    else
      var tried := db.(attempts := db.attempts + [Attempt(name, !(hasSql && turnout.sql == Tolerated))]);
      if GoesOn(name, turnout.rest) then Result(tried.(recorded := db.recorded + {name}), true)
      else Result(tried.(interrupted := db.interrupted + [name]), false)
  }

  function RunFrom(files: seq<File>, n: nat, turnouts: seq<Turnout>, db: Db): Result
    requires n <= |files|
    decreases |files| - n
  {
    if n == |files| then Result(db, true)
    else
      var turn := Turn(files[n], TurnoutAt(turnouts, n), db);
      if turn.ok then RunFrom(files, n + 1, turnouts, turn.db) else turn
  }

  /** A sequence of runs, each with its own turns. */
  function History(files: seq<File>, runs: seq<seq<Turnout>>): Db {
    if runs == [] then BLANK else RunFrom(files, 0, runs[|runs| - 1], History(files, runs[..|runs| - 1])).db
  }

  lemma HistorySnoc(files: seq<File>, runs: seq<seq<Turnout>>, last: seq<Turnout>)
    ensures History(files, runs + [last]) == RunFrom(files, 0, last, History(files, runs)).db
  {
    assert (runs + [last])[..|runs + [last]| - 1] == runs;
  }

  class MigrationRunner {
    var recorded: set<string>
    var attempts: seq<Attempt>
    var interrupted: seq<string>

    constructor ()
      ensures State() == BLANK
    {
      recorded, attempts, interrupted := {}, [], [];
    }

    ghost function State(): Db
      reads this
    {
      Db(recorded, attempts, interrupted)
    }

    /** The body of the loop over the files: `ok` says whether the loop goes on. */
    method RunMigration(f: File, turnout: Turnout) returns (ok: bool)
      modifies this
      ensures Result(State(), ok) == Turn(f, turnout, old(State()))
    {
      if turnout.start == CheckFails {
        return false;
      }
      if f.name in recorded {
        return true;
      }
      if turnout.start != Proceeds {
        return false;
      }
      var sql := TrimSpace(f.content);
      if sql == "" {
        return true;
      }
      var prepared := PreprocessMigrationSQL(sql);
      var applied := true;
      if prepared.sql != "" {
        if turnout.sql == Fatal || turnout.sql == DiesDuring {
          return false;
        }
        applied := turnout.sql != Tolerated;
      }
      attempts := attempts + [Attempt(f.name, applied)];
      if !GoesOn(f.name, turnout.rest) {
        interrupted := interrupted + [f.name];
        return false;
      }
      recorded := recorded + {f.name};
      return true;
    }

    /** `tableCreated` and `dirRead` say whether the two steps before the loop succeed. */
    method RunMigrations(tableCreated: bool, dirRead: bool, dir: seq<Entry>, turnouts: seq<Turnout>) returns (ok: bool)
      modifies this
      ensures Result(State(), ok) ==
        if tableCreated && dirRead then RunFrom(SortByName(SqlFilesOf(dir)), 0, turnouts, old(State()))
        else Result(old(State()), false)
      ensures DistinctEntries(dir) ==> ExecutedInOrder(old(attempts), attempts)
    {
      if DistinctEntries(dir) {
        RunsInOrder(dir, turnouts, State());
      }
      if !tableCreated {
        return false;
      }
      if !dirRead {
        return false;
      }
      var sqlFiles: seq<File> := [];
      for i := 0 to |dir|
        invariant sqlFiles == SqlFilesOf(dir[..i])
        invariant State() == old(State())
      {
        assert dir[..i + 1][..i] == dir[..i];
        if !dir[i].isDir && EndsWith(dir[i].name, ".sql") {
          sqlFiles := sqlFiles + [File(dir[i].name, dir[i].content)];
        }
      }
      assert dir[..|dir|] == dir;
      var files := SortByName(sqlFiles);
      for n := 0 to |files|
        invariant RunFrom(files, n, turnouts, State()) == RunFrom(files, 0, turnouts, old(State()))
      {
        var done := RunMigration(files[n], TurnoutAt(turnouts, n));
        if !done {
          return false;
        }
      }
      return true;
    }
  }

  // ---------- The order of execution ----------

  /** Of the attempts made since, one at a name before another's came before it. */
  ghost predicate ExecutedInOrder(before: seq<Attempt>, after: seq<Attempt>) {
    && before <= after
    && forall i, j | |before| <= i < |after| && |before| <= j < |after| ::
         IsBefore(after[i].name, after[j].name) ==> i < j
  }

  ghost predicate IsNameFrom(files: seq<File>, n: nat, name: string) {
    exists k :: n <= k < |files| && files[k].name == name
  }

  ghost predicate AreOfFiles(files: seq<File>, n: nat, attempts: seq<Attempt>, from: nat) {
    forall i :: from <= i < |attempts| ==> IsNameFrom(files, n, attempts[i].name)
  }

  ghost predicate InOrder(attempts: seq<Attempt>, from: nat) {
    forall i, j :: from <= i < j < |attempts| ==> Less(attempts[i].name, attempts[j].name)
  }

  /** A turn makes no attempt, or one. */
  lemma TurnAttempts(f: File, turnout: Turnout, db: Db)
    ensures var after := Turn(f, turnout, db).db.attempts;
      after == db.attempts || exists applied :: after == db.attempts + [Attempt(f.name, applied)]
  {
    SkipsOrExecutes(f.name, IsBlank(f), HasSql(f), turnout, db);
  }

  lemma FirstThenOthers(files: seq<File>, n: nat, before: seq<Attempt>, mid: seq<Attempt>, after: seq<Attempt>)
    requires Sorted(files) && n < |files| && before <= mid <= after
    requires mid == before || exists applied :: mid == before + [Attempt(files[n].name, applied)]
    requires AreOfFiles(files, n + 1, after, |mid|) && InOrder(after, |mid|)
    ensures AreOfFiles(files, n, after, |before|) && InOrder(after, |before|)
  {
    assert forall name :: IsNameFrom(files, n + 1, name) ==> IsNameFrom(files, n, name);
    if mid != before {
      assert files[n].name == files[n].name;
      assert after[|before|].name == mid[|before|].name == files[n].name;
      forall j | |mid| <= j < |after| ensures Less(files[n].name, after[j].name) {
        assert IsNameFrom(files, n + 1, after[j].name);
      }
    }
  }

  lemma {:induction false} RunFollowsFiles(files: seq<File>, n: nat, turnouts: seq<Turnout>, db: Db)
    requires n <= |files| && Sorted(files)
    ensures var after := RunFrom(files, n, turnouts, db).db.attempts;
      db.attempts <= after && AreOfFiles(files, n, after, |db.attempts|) && InOrder(after, |db.attempts|)
    decreases |files| - n
  {
    if n < |files| {
      var turn := Turn(files[n], TurnoutAt(turnouts, n), db);
      TurnAttempts(files[n], TurnoutAt(turnouts, n), db);
      if turn.ok {
        RunFollowsFiles(files, n + 1, turnouts, turn.db);
        FirstThenOthers(
          files, n, db.attempts, turn.db.attempts, RunFrom(files, n + 1, turnouts, turn.db).db.attempts);
      }
    }
  }

  lemma NeverBothBefore(a: string, b: string)
    requires IsBefore(a, b)
    ensures a != b && !Less(b, a)
  {
    LessMeaning(a, b);
    LessIsTotal(a, b);
  }

  lemma OrderIsOfNames(before: seq<Attempt>, after: seq<Attempt>)
    requires before <= after && InOrder(after, |before|)
    ensures ExecutedInOrder(before, after)
  {
    forall i, j | |before| <= i < |after| && |before| <= j < |after| && IsBefore(after[i].name, after[j].name)
      ensures i < j
    {
      NeverBothBefore(after[i].name, after[j].name);
    }
  }

  /** However its turns go, a run executes the files it executes in the order of their names. */
  lemma RunsInOrder(dir: seq<Entry>, turnouts: seq<Turnout>, db: Db)
    requires DistinctEntries(dir)
    ensures ExecutedInOrder(db.attempts, RunFrom(SortByName(SqlFilesOf(dir)), 0, turnouts, db).db.attempts)
  {
    var files := SortByName(SqlFilesOf(dir));
    SelectedAreDistinct(dir);
    SortSorts(SqlFilesOf(dir));
    RunFollowsFiles(files, 0, turnouts, db);
    OrderIsOfNames(db.attempts, RunFrom(files, 0, turnouts, db).db.attempts);
  }

  /** A file counts as blank exactly when it has only white space. */
  lemma BlankMeaning(f: File)
    ensures IsBlank(f) <==> AllSpace(f.content)
  {
    NothingLeft(f.content);
  }

  /** A file has SQL to execute exactly when one of its lines is neither blank nor a VACUUM line. */
  lemma SqlMeaning(f: File)
    ensures HasSql(f) <==>
      exists line :: line in Split(TrimSpace(f.content)) && !SpellsVacuum(TrimSpace(line)) && !AllSpace(line)
  {
    var sql := TrimSpace(f.content);
    SomethingToExecute(sql);
    forall line ensures IsVacuum(line) <==> SpellsVacuum(TrimSpace(line)) {
      VacuumLinesSpellIt(line);
    }
  }

  /** When the access table cannot be ensured, an executed file is recorded all the same if and only if its
      name is before that of migration 040. */
  lemma EnsuringGuardsLaterFiles(f: File, turnout: Turnout, db: Db)
    requires !IsBlank(f) && f.name !in db.recorded && turnout.start == Proceeds && turnout.rest == EnsureFails
    requires turnout.sql == Applies || turnout.sql == Tolerated
    ensures f.name in Turn(f, turnout, db).db.recorded
            <==> IsBefore(f.name, "040_performance_rls_refactor.sql")
  {
    LessMeaning(f.name, FIRST_ENSURED);
  }

  // ---------- What any sequence of runs leaves behind ----------

  /** The position of the first file that is neither blank nor recorded. */
  function FirstOpen(files: seq<File>, recorded: set<string>): (k: nat)
    ensures k <= |files|
    ensures forall i :: 0 <= i < k ==> IsBlank(files[i]) || files[i].name in recorded
    ensures k < |files| ==> !IsBlank(files[k]) && files[k].name !in recorded
  {
    if files == [] then 0
    else if IsBlank(files[0]) || files[0].name in recorded then
      var k := FirstOpen(files[1..], recorded);
      assert forall i :: 0 < i < k + 1 ==> files[i] == files[1..][i - 1];
      k + 1
    else 0
  }

  function NamesUpTo(files: seq<File>, k: nat): set<string>
    requires k <= |files|
  {
    set i | 0 <= i < k && !IsBlank(files[i]) :: files[i].name
  }

  /** Executed migrations are recorded, or are the one at position `k`. */
  ghost predicate AttemptsUpTo(files: seq<File>, k: nat, attempts: seq<Attempt>, recorded: set<string>) {
    forall a :: a in attempts ==> a.name in recorded || (k < |files| && a.name == files[k].name)
  }

  ghost predicate OnTrack(files: seq<File>, db: Db) {
    var k := FirstOpen(files, db.recorded);
    db.recorded == NamesUpTo(files, k) && AttemptsUpTo(files, k, db.attempts, db.recorded)
  }

  /** Recording the first open file moves the open position past it and over the blanks that follow. */
  lemma RecordingTheFirstOpen(files: seq<File>, recorded: set<string>, k: nat)
    requires DistinctNames(files) && k == FirstOpen(files, recorded) < |files|
    requires recorded == NamesUpTo(files, k)
    ensures var recorded' := recorded + {files[k].name};
      FirstOpen(files, recorded') > k && recorded' == NamesUpTo(files, FirstOpen(files, recorded'))
  {
    var recorded' := recorded + {files[k].name};
    var k' := FirstOpen(files, recorded');
    assert k' > k by {
      assert forall i :: 0 <= i <= k ==> IsBlank(files[i]) || files[i].name in recorded';
    }
    forall i | k < i < k' ensures IsBlank(files[i]) {
      assert files[i].name !in NamesUpTo(files, k);
      assert files[i].name != files[k].name;
    }
    assert NamesUpTo(files, k') == NamesUpTo(files, k) + {files[k].name};
  }

  ghost predicate Skips(name: string, blank: bool, db: Db, r: Result) {
    r.db == db && (r.ok ==> blank || name in db.recorded)
  }

  ghost predicate Executes(name: string, blank: bool, db: Db, r: Result) {
    && !blank && name !in db.recorded
    && (exists applied :: r.db.attempts == db.attempts + [Attempt(name, applied)])
    && r.db.recorded == db.recorded + if r.ok then {name} else {}
  }

  lemma SkipsOrExecutes(name: string, blank: bool, hasSql: bool, turnout: Turnout, db: Db)
    ensures var r := Proceed(name, blank, hasSql, turnout, db);
      Skips(name, blank, db, r) || Executes(name, blank, db, r)
  {
    var r := Proceed(name, blank, hasSql, turnout, db);
    if !Skips(name, blank, db, r) {
      assert r.db.attempts == db.attempts + [Attempt(name, !(hasSql && turnout.sql == Tolerated))];
    }
  }

  lemma ResultStaysOnTrack(files: seq<File>, n: nat, db: Db, r: Result)
    requires DistinctNames(files) && OnTrack(files, db) && n < |files| && n <= FirstOpen(files, db.recorded)
    requires Skips(files[n].name, IsBlank(files[n]), db, r) || Executes(files[n].name, IsBlank(files[n]), db, r)
    ensures OnTrack(files, r.db) && (r.ok ==> n < FirstOpen(files, r.db.recorded))
  {
    if Executes(files[n].name, IsBlank(files[n]), db, r) {
      assert n == FirstOpen(files, db.recorded);
      if r.ok {
        RecordingTheFirstOpen(files, db.recorded, n);
      } else {
        assert r.db.recorded == db.recorded;
      }
    }
  }

  lemma {:induction false} RunStaysOnTrack(files: seq<File>, n: nat, turnouts: seq<Turnout>, db: Db)
    requires DistinctNames(files) && OnTrack(files, db) && n <= FirstOpen(files, db.recorded)
    ensures var r := RunFrom(files, n, turnouts, db);
      OnTrack(files, r.db) && (r.ok ==> FirstOpen(files, r.db.recorded) == |files|)
    decreases |files| - n
  {
    if n < |files| {
      var turn := Turn(files[n], TurnoutAt(turnouts, n), db);
      SkipsOrExecutes(files[n].name, IsBlank(files[n]), HasSql(files[n]), TurnoutAt(turnouts, n), db);
      ResultStaysOnTrack(files, n, db, turn);
      if turn.ok {
        RunStaysOnTrack(files, n + 1, turnouts, turn.db);
      }
    }
  }

  lemma {:induction false} HistoryStaysOnTrack(files: seq<File>, runs: seq<seq<Turnout>>)
    requires DistinctNames(files)
    ensures OnTrack(files, History(files, runs))
  {
    if runs == [] {
      var k := FirstOpen(files, {});
      assert NamesUpTo(files, k) == {};
    } else {
      HistoryStaysOnTrack(files, runs[..|runs| - 1]);
      RunStaysOnTrack(files, 0, runs[|runs| - 1], History(files, runs[..|runs| - 1]));
    }
  }

  /** After any sequence of crashed, failed and completed runs, the recorded names are exactly those of
      the non-blank files in a prefix of the order, and a migration executed but not recorded can only
      be the first non-blank file after that prefix. */
  lemma RecordedIsPrefix(files: seq<File>, runs: seq<seq<Turnout>>) returns (k: nat)
    requires DistinctNames(files)
    ensures k <= |files| && History(files, runs).recorded == NamesUpTo(files, k)
    ensures forall a :: a in History(files, runs).attempts ==>
      a.name in NamesUpTo(files, k) || (k < |files| && !IsBlank(files[k]) && a.name == files[k].name)
  {
    HistoryStaysOnTrack(files, runs);
    k := FirstOpen(files, History(files, runs).recorded);
  }

  lemma {:induction false} NothingOpen(files: seq<File>, n: nat, turnouts: seq<Turnout>, db: Db)
    requires n <= |files| && FirstOpen(files, db.recorded) == |files|
    ensures RunFrom(files, n, turnouts, db).db == db
    decreases |files| - n
  {
    if n < |files| {
      SkipsOrExecutes(files[n].name, IsBlank(files[n]), HasSql(files[n]), TurnoutAt(turnouts, n), db);
      assert Turn(files[n], TurnoutAt(turnouts, n), db).db == db;
      NothingOpen(files, n + 1, turnouts, db);
    }
  }

  /** Once a run has completed, every non-blank file is recorded and no later run, whatever befalls it,
      executes or records anything. */
  lemma {:induction false} CompletedMeansDone(
    files: seq<File>, runs: seq<seq<Turnout>>, last: seq<Turnout>, next: seq<Turnout>)
    requires DistinctNames(files)
    ensures var done := RunFrom(files, 0, last, History(files, runs));
      done.ok ==> done.db.recorded == NamesUpTo(files, |files|) && RunFrom(files, 0, next, done.db).db == done.db
  {
    var done := RunFrom(files, 0, last, History(files, runs));
    HistoryStaysOnTrack(files, runs);
    RunStaysOnTrack(files, 0, last, History(files, runs));
    if done.ok {
      NothingOpen(files, 0, next, done.db);
    }
  }

  // ---------- How often a migration runs ----------

  function Executions(attempts: seq<Attempt>, name: string): nat {
    if attempts == [] then 0
    else Executions(attempts[..|attempts| - 1], name) + if attempts[|attempts| - 1].name == name then 1 else 0
  }

  function Occurrences(names: seq<string>, name: string): nat {
    if names == [] then 0
    else Occurrences(names[..|names| - 1], name) + if names[|names| - 1] == name then 1 else 0
  }

  ghost predicate Balanced(db: Db, name: string) {
    Executions(db.attempts, name) == Occurrences(db.interrupted, name) + if name in db.recorded then 1 else 0
  }

  lemma CountingSnoc(attempts: seq<Attempt>, a: Attempt, names: seq<string>, n: string, name: string)
    ensures Executions(attempts + [a], name) == Executions(attempts, name) + if a.name == name then 1 else 0
    ensures Occurrences(names + [n], name) == Occurrences(names, name) + if n == name then 1 else 0
  {
    assert (attempts + [a])[..|attempts + [a]| - 1] == attempts;
    assert (names + [n])[..|names + [n]| - 1] == names;
  }

  /** What one turn does to the lists, if it does anything. */
  lemma TurnAdds(name: string, blank: bool, hasSql: bool, turnout: Turnout, db: Db)
    ensures var after := Proceed(name, blank, hasSql, turnout, db).db;
      after == db ||
      (&& name !in db.recorded && (exists a: Attempt :: a.name == name && after.attempts == db.attempts + [a])
       && ((after.recorded == db.recorded + {name} && after.interrupted == db.interrupted)
           || (after.recorded == db.recorded && after.interrupted == db.interrupted + [name])))
  {
    var after := Proceed(name, blank, hasSql, turnout, db).db;
    if after != db {
      var a := Attempt(name, !(hasSql && turnout.sql == Tolerated));
      assert a.name == name && after.attempts == db.attempts + [a];
    }
  }

  /** One turn adds one execution, and with it a record or an interruption, or none of these. */
  lemma TurnStaysBalanced(
    name: string, blank: bool, hasSql: bool, turnout: Turnout, db: Db, other: string)
    requires Balanced(db, other)
    ensures Balanced(Proceed(name, blank, hasSql, turnout, db).db, other)
  {
    var after := Proceed(name, blank, hasSql, turnout, db).db;
    TurnAdds(name, blank, hasSql, turnout, db);
    if after != db {
      var a: Attempt :| a.name == name && after.attempts == db.attempts + [a];
      CountingSnoc(db.attempts, a, db.interrupted, name, other);
    }
  }

  lemma {:induction false} RunStaysBalanced(files: seq<File>, n: nat, turnouts: seq<Turnout>, db: Db, name: string)
    requires n <= |files| && Balanced(db, name)
    ensures Balanced(RunFrom(files, n, turnouts, db).db, name)
    decreases |files| - n
  {
    if n < |files| {
      var turn := Turn(files[n], TurnoutAt(turnouts, n), db);
      TurnStaysBalanced(
        files[n].name, IsBlank(files[n]), HasSql(files[n]), TurnoutAt(turnouts, n), db, name);
      if turn.ok {
        RunStaysBalanced(files, n + 1, turnouts, turn.db, name);
      }
    }
  }

  /** A migration has been executed once for each run that stopped between executing and recording it,
      and once more if it is recorded: it runs twice exactly when some run stopped there. */
  lemma {:induction false} ExecutionsAreAccountedFor(files: seq<File>, runs: seq<seq<Turnout>>, name: string)
    ensures Balanced(History(files, runs), name)
  {
    if runs != [] {
      ExecutionsAreAccountedFor(files, runs[..|runs| - 1], name);
      RunStaysBalanced(files, 0, runs[|runs| - 1], History(files, runs[..|runs| - 1]), name);
    }
  }

  // ---------- Which recorded migrations took effect ----------

  /** Whether a turn gets as far as executing the file. */
  predicate Executed(name: string, blank: bool, hasSql: bool, turnout: Turnout, db: Db) {
    && name !in db.recorded && !blank && turnout.start == Proceeds
    && (hasSql ==> turnout.sql == Applies || turnout.sql == Tolerated)
  }

  /** Whether a run that has come to file `n` executes file `k`. */
  predicate ExecutesAt(files: seq<File>, n: nat, turnouts: seq<Turnout>, db: Db, k: nat)
    requires n <= k < |files|
    decreases k - n
  {
    var f, turnout := files[n], TurnoutAt(turnouts, n);
    if n == k then Executed(f.name, IsBlank(f), HasSql(f), turnout, db)
    else Turn(f, turnout, db).ok && ExecutesAt(files, n + 1, turnouts, Turn(f, turnout, db).db, k)
  }

  /** Whether run `r` of a history executes file `k`. */
  predicate ExecutesIn(files: seq<File>, runs: seq<seq<Turnout>>, r: nat, k: nat)
    requires k < |files|
  {
    r < |runs| && ExecutesAt(files, 0, runs[r], History(files, runs[..r]), k)
  }

  /** What one turn does to the executions and records of a name. */
  lemma TurnApplies(name: string, blank: bool, hasSql: bool, turnout: Turnout, db: Db, other: string)
    ensures var r := Proceed(name, blank, hasSql, turnout, db);
      var executed := other == name && Executed(name, blank, hasSql, turnout, db);
      && (Attempt(other, true) in r.db.attempts
          <==> Attempt(other, true) in db.attempts || (executed && !(hasSql && turnout.sql == Tolerated)))
      && (other in r.db.recorded ==> other in db.recorded || executed)
  {
  }

  /** Neither an execution that took effect nor a record of `name` is new. */
  ghost predicate LeavesAlone(before: Db, after: Db, name: string) {
    && (Attempt(name, true) in after.attempts <==> Attempt(name, true) in before.attempts)
    && (name in after.recorded ==> name in before.recorded)
  }

  lemma TurnLeavesOthers(f: File, turnout: Turnout, db: Db, name: string)
    requires f.name != name
    ensures LeavesAlone(db, Turn(f, turnout, db).db, name)
  {
    TurnApplies(f.name, IsBlank(f), HasSql(f), turnout, db, name);
  }

  lemma {:induction false} LaterFilesLeave(files: seq<File>, n: nat, turnouts: seq<Turnout>, db: Db, name: string)
    requires n <= |files| && forall i :: n <= i < |files| ==> files[i].name != name
    ensures LeavesAlone(db, RunFrom(files, n, turnouts, db).db, name)
    decreases |files| - n
  {
    if n < |files| {
      var turn := Turn(files[n], TurnoutAt(turnouts, n), db);
      TurnLeavesOthers(files[n], TurnoutAt(turnouts, n), db, name);
      if turn.ok {
        LaterFilesLeave(files, n + 1, turnouts, turn.db, name);
      }
    }
  }

  lemma {:induction false} RunApplies(files: seq<File>, n: nat, turnouts: seq<Turnout>, db: Db, k: nat)
    requires DistinctNames(files) && n <= k < |files|
    ensures var end, name := RunFrom(files, n, turnouts, db).db, files[k].name;
      var executes := ExecutesAt(files, n, turnouts, db, k);
      && (Attempt(name, true) in end.attempts
          <==> Attempt(name, true) in db.attempts
               || (executes && !(HasSql(files[k]) && TurnoutAt(turnouts, k).sql == Tolerated)))
      && (name in end.recorded ==> name in db.recorded || executes)
    decreases k - n
  {
    var f := files[n];
    var turn := Turn(f, TurnoutAt(turnouts, n), db);
    TurnApplies(f.name, IsBlank(f), HasSql(f), TurnoutAt(turnouts, n), db, files[k].name);
    if turn.ok {
      if n < k {
        RunApplies(files, n + 1, turnouts, turn.db, k);
      } else {
        LaterFilesLeave(files, n + 1, turnouts, turn.db, files[k].name);
      }
    }
  }

  ghost predicate AppliesIn(files: seq<File>, runs: seq<seq<Turnout>>, r: nat, k: nat)
    requires k < |files|
  {
    ExecutesIn(files, runs, r, k) && TurnoutAt(runs[r], k).sql != Tolerated
  }

  /** Some run executes file `k`. */
  ghost predicate IsExecuted(files: seq<File>, runs: seq<seq<Turnout>>, k: nat)
    requires k < |files|
  {
    exists r :: ExecutesIn(files, runs, r, k)
  }

  /** Some run executes file `k` without meeting a tolerated error. */
  ghost predicate IsApplied(files: seq<File>, runs: seq<seq<Turnout>>, k: nat)
    requires k < |files|
  {
    exists r :: AppliesIn(files, runs, r, k)
  }

  lemma OneMoreRun(files: seq<File>, runs: seq<seq<Turnout>>, turnouts: seq<Turnout>, k: nat)
    requires k < |files|
    ensures var executes := ExecutesAt(files, 0, turnouts, History(files, runs), k);
      && (IsExecuted(files, runs + [turnouts], k) <==> IsExecuted(files, runs, k) || executes)
      && (IsApplied(files, runs + [turnouts], k)
          <==> IsApplied(files, runs, k) || (executes && TurnoutAt(turnouts, k).sql != Tolerated))
  {
    var longer := runs + [turnouts];
    forall r: nat | r < |runs| ensures longer[..r] == runs[..r] && longer[r] == runs[r] {
    }
    assert longer[..|runs|] == runs && longer[|runs|] == turnouts;
    forall r: nat | r < |runs|
      ensures ExecutesIn(files, longer, r, k) <==> ExecutesIn(files, runs, r, k)
      ensures AppliesIn(files, longer, r, k) <==> AppliesIn(files, runs, r, k)
    {
    }
    assert ExecutesIn(files, longer, |runs|, k) <==> ExecutesAt(files, 0, turnouts, History(files, runs), k);
    assert AppliesIn(files, longer, |runs|, k) <==>
      ExecutesAt(files, 0, turnouts, History(files, runs), k) && TurnoutAt(turnouts, k).sql != Tolerated;
    if IsExecuted(files, runs, k) {
      var r: nat :| ExecutesIn(files, runs, r, k);
      assert ExecutesIn(files, longer, r, k);
    }
    if IsApplied(files, runs, k) {
      var r: nat :| AppliesIn(files, runs, r, k);
      assert AppliesIn(files, longer, r, k);
    }
  }

  /** The executions and records of file `k` in a database are those of a history. */
  ghost predicate Reflects(files: seq<File>, runs: seq<seq<Turnout>>, db: Db, k: nat)
    requires k < |files|
  {
    && (Attempt(files[k].name, true) in db.attempts <==> IsApplied(files, runs, k))
    && (files[k].name in db.recorded ==> IsExecuted(files, runs, k))
  }

  lemma RunStaysReflected(files: seq<File>, runs: seq<seq<Turnout>>, turnouts: seq<Turnout>, k: nat)
    requires DistinctNames(files) && k < |files| && HasSql(files[k])
    requires Reflects(files, runs, History(files, runs), k)
    ensures Reflects(files, runs + [turnouts], RunFrom(files, 0, turnouts, History(files, runs)).db, k)
  {
    RunApplies(files, 0, turnouts, History(files, runs), k);
    OneMoreRun(files, runs, turnouts, k);
  }

  lemma NothingIsReflected(files: seq<File>, k: nat)
    requires k < |files|
    ensures Reflects(files, [], BLANK, k)
  {
    assert forall r: nat :: !ExecutesIn(files, [], r, k);
  }

  lemma {:induction false} HistoryIsReflected(files: seq<File>, runs: seq<seq<Turnout>>, k: nat)
    requires DistinctNames(files) && k < |files| && HasSql(files[k])
    ensures Reflects(files, runs, History(files, runs), k)
  {
    if runs == [] {
      NothingIsReflected(files, k);
    } else {
      var before, last := runs[..|runs| - 1], runs[|runs| - 1];
      HistoryIsReflected(files, before, k);
      RunStaysReflected(files, before, last, k);
      HistorySnoc(files, before, last);
      assert runs == before + [last];
    }
  }

  /** The SQL of a migration has taken effect if and only if some run executed it without meeting a
      tolerated error; and a recorded migration was executed by some run. */
  lemma {:induction false} AppliedUnlessTolerated(files: seq<File>, runs: seq<seq<Turnout>>, k: nat)
    requires DistinctNames(files) && k < |files| && HasSql(files[k])
    ensures Attempt(files[k].name, true) in History(files, runs).attempts <==> IsApplied(files, runs, k)
    ensures files[k].name in History(files, runs).recorded ==> IsExecuted(files, runs, k)
  {
    HistoryIsReflected(files, runs, k);
  }

  /** Every run that executes file `k` meets a tolerated error. */
  ghost predicate AlwaysTolerated(files: seq<File>, runs: seq<seq<Turnout>>, k: nat)
    requires k < |files|
  {
    forall r: nat :: ExecutesIn(files, runs, r, k) ==> TurnoutAt(runs[r], k).sql == Tolerated
  }

  lemma UnappliedMeansTolerated(files: seq<File>, runs: seq<seq<Turnout>>, k: nat)
    requires k < |files|
    ensures AlwaysTolerated(files, runs, k) <==> !IsApplied(files, runs, k)
  {
    if r: nat :| ExecutesIn(files, runs, r, k) && TurnoutAt(runs[r], k).sql != Tolerated {
      assert AppliesIn(files, runs, r, k);
    }
  }

  /** So a recorded migration is without effect exactly when every run that executed it, and there is
      one, met a tolerated error. */
  lemma {:induction false} RecordedWithoutEffect(files: seq<File>, runs: seq<seq<Turnout>>, k: nat)
    requires DistinctNames(files) && k < |files| && HasSql(files[k])
    ensures Attempt(files[k].name, true) !in History(files, runs).attempts <==> AlwaysTolerated(files, runs, k)
    ensures files[k].name in History(files, runs).recorded ==> IsExecuted(files, runs, k)
  {
    AppliedUnlessTolerated(files, runs, k);
    UnappliedMeansTolerated(files, runs, k);
  }

  lemma ToleratedTurn(name: string, hasSql: bool, rest: Rest, db: Db)
    requires name !in db.recorded && (rest == RecordFails || rest == Records)
    ensures Proceed(name, false, hasSql, Turnout(Proceeds, Tolerated, rest), db)
            == if rest == Records
               then Result(Db(db.recorded + {name}, db.attempts + [Attempt(name, !hasSql)], db.interrupted), true)
               else Result(Db(db.recorded, db.attempts + [Attempt(name, !hasSql)], db.interrupted + [name]), false)
  {
  }

  lemma OneStoppedRun(f: File, db: Db)
    requires !IsBlank(f) && f.name !in db.recorded
    ensures RunFrom([f], 0, [Turnout(Proceeds, Tolerated, RecordFails)], db).db
            == Db(db.recorded, db.attempts + [Attempt(f.name, !HasSql(f))], db.interrupted + [f.name])
  {
    ToleratedTurn(f.name, HasSql(f), RecordFails, db);
  }

  lemma OneRecordingRun(f: File, db: Db)
    requires !IsBlank(f) && f.name !in db.recorded
    ensures RunFrom([f], 0, [Turnout(Proceeds, Tolerated, Records)], db).db
            == Db(db.recorded + {f.name}, db.attempts + [Attempt(f.name, !HasSql(f))], db.interrupted)
  {
    ToleratedTurn(f.name, HasSql(f), Records, db);
    var last := [Turnout(Proceeds, Tolerated, Records)];
    var turn := Turn(f, last[0], db);
    assert RunFrom([f], 0, last, db) == RunFrom([f], 1, last, turn.db) == Result(turn.db, true);
  }

  function Repeat<T>(x: T, n: nat): (s: seq<T>)
    ensures |s| == n && forall i :: 0 <= i < n ==> s[i] == x
  {
    if n == 0 then [] else Repeat(x, n - 1) + [x]
  }

  /** What `n` runs leave, in each of which the SQL meets a tolerated error and the run stops before
      recording. */
  lemma {:induction false} ToleratedInEveryRun(f: File, n: nat)
    requires !IsBlank(f)
    ensures var stopped := [Turnout(Proceeds, Tolerated, RecordFails)];
      History([f], Repeat(stopped, n)) == Db({}, Repeat(Attempt(f.name, !HasSql(f)), n), Repeat(f.name, n))
  {
    var stopped := [Turnout(Proceeds, Tolerated, RecordFails)];
    if n > 0 {
      ToleratedInEveryRun(f, n - 1);
      OneStoppedRun(f, History([f], Repeat(stopped, n - 1)));
      HistorySnoc([f], Repeat(stopped, n - 1), stopped);
    }
  }

  /** A tolerated error can come up in any number of runs, and the migration is then recorded with none
      of its SQL in effect. */
  lemma ToleratedIsRecorded(f: File, n: nat)
    requires !IsBlank(f)
    ensures var stopped := [Turnout(Proceeds, Tolerated, RecordFails)];
      var db := History([f], Repeat(stopped, n) + [[Turnout(Proceeds, Tolerated, Records)]]);
      && db.recorded == {f.name} && |db.attempts| == n + 1
      && (HasSql(f) <==> forall i :: 0 <= i < |db.attempts| ==> !db.attempts[i].applied)
  {
    var stopped, last := [Turnout(Proceeds, Tolerated, RecordFails)], [Turnout(Proceeds, Tolerated, Records)];
    ToleratedInEveryRun(f, n);
    HistorySnoc([f], Repeat(stopped, n), last);
    OneRecordingRun(f, History([f], Repeat(stopped, n)));
    assert (Repeat(Attempt(f.name, !HasSql(f)), n) + [Attempt(f.name, !HasSql(f))])[n].applied == !HasSql(f);
  }
}
