/**
 * The migration runner of backend/db/migrate.js.
 *
 * The directory listing is an input sequence of names; the SQL of a
 * migration is opaque, and whether a statement throws is a `Fault` supplied
 * per file. The `migrations` table is a map from its SERIAL id to the
 * recorded name, read back ordered by id.
 */
module Migrate {
  import opened Transactions
  import opened NameOrder

  /** `name.endsWith('.sql')`. */
  predicate IsSqlFile(name: string)
  {
    |name| >= 4 && name[|name| - 4..] == ".sql"
  }

  /** `IsSqlFile` is `endsWith('.sql')`: the name is some stem followed by ".sql". */
  lemma SqlFileSuffix(name: string)
    ensures IsSqlFile(name) <==> exists stem :: name == stem + ".sql"
  {
    if IsSqlFile(name) {
      assert name == name[..|name| - 4] + ".sql";
    }
    if exists stem :: name == stem + ".sql" {
      var stem :| name == stem + ".sql";
      assert name[|name| - 4..] == ".sql";
    }
  }

  /** `s.filter(keep)`: the names `keep` accepts, in their order, repeats included. */
  function Filter(s: seq<string>, keep: string -> bool): (r: seq<string>)
    ensures forall x :: x in r <==> x in s && keep(x)
  {
    if s == [] then []
    else
      assert s == [s[0]] + s[1..];
      (if keep(s[0]) then [s[0]] else []) + Filter(s[1..], keep)
  }

  /** Filtering keeps every copy of what it keeps and no copy of the rest. */
  lemma {:induction false} FilterMultiset(s: seq<string>, keep: string -> bool)
    ensures forall x :: multiset(Filter(s, keep))[x] == if keep(x) then multiset(s)[x] else 0
  {
    if s != [] {
      assert s == [s[0]] + s[1..];
      FilterMultiset(s[1..], keep);
    }
  }

  lemma {:induction false} FilterConcat(a: seq<string>, b: seq<string>, keep: string -> bool)
    ensures Filter(a + b, keep) == Filter(a, keep) + Filter(b, keep)
  {
    if a == [] {
      assert a + b == b;
    } else {
      assert (a + b)[1..] == a[1..] + b;
      FilterConcat(a[1..], b, keep);
    }
  }

  /** Filtering keeps the order of what it keeps. */
  lemma {:induction false} FilterSorted(s: seq<string>, keep: string -> bool)
    requires Sorted(s)
    ensures Sorted(Filter(s, keep))
  {
    if s != [] {
      SortedTail(s);
      FilterSorted(s[1..], keep);
      var rest := Filter(s[1..], keep);
      if keep(s[0]) {
        forall y | y in rest
          ensures NameLe(s[0], y)
        {
          var j :| 0 <= j < |s[1..]| && s[1..][j] == y;
          assert s[j + 1] == y;
        }
        PrependSorted(s[0], rest);
      }
    }
  }

  /** The migration files of a directory listing, in the order they run (backend/db/migrate.js:77-79). */
  function MigrationFiles(entries: seq<string>): (r: seq<string>)
    ensures Sorted(r)
    ensures forall f :: f in r <==> f in entries && IsSqlFile(f)
    ensures forall f :: multiset(r)[f] == if IsSqlFile(f) then multiset(entries)[f] else 0
  {
    var sqlFiles := Filter(entries, IsSqlFile);
    FilterMultiset(entries, IsSqlFile);
    assert forall f :: f in SortNames(sqlFiles) <==> f in multiset(sqlFiles);
    SortNames(sqlFiles)
  }

  /** The test `!executedMigrations.includes(file)`. */
  function NotIn(executed: seq<string>): string -> bool
  {
    f => f !in executed
  }

  /**
   * The files the loop hands to `executeMigration`, in order: the migration
   * files not in the record read before the loop started.
   */
  function Plan(entries: seq<string>, executed: seq<string>): (r: seq<string>)
    ensures Sorted(r)
    ensures forall f :: f in r <==> f in entries && IsSqlFile(f) && f !in executed
  {
    FilterSorted(MigrationFiles(entries), NotIn(executed));
    Filter(MigrationFiles(entries), NotIn(executed))
  }

  /** The plan holds every copy of each pending migration file in the listing, and nothing else. */
  lemma PlanMultiset(entries: seq<string>, executed: seq<string>)
    ensures forall f :: multiset(Plan(entries, executed))[f]
                        == if IsSqlFile(f) && f !in executed then multiset(entries)[f] else 0
  {
    FilterMultiset(MigrationFiles(entries), NotIn(executed));
  }

  /** The longest prefix of `plan` that contains no failing file. */
  function SucceedingPrefix(plan: seq<string>, failing: set<string>): (done: seq<string>)
    ensures done <= plan
    ensures forall f :: f in done ==> f !in failing
    ensures |done| < |plan| ==> plan[|done|] in failing
  {
    if plan == [] || plan[0] in failing then []
    else [plan[0]] + SucceedingPrefix(plan[1..], failing)
  }

  /** The three properties above determine the prefix. */
  lemma {:induction false} SucceedingPrefixUnique(plan: seq<string>, failing: set<string>, p: seq<string>)
    requires p <= plan
    requires forall f :: f in p ==> f !in failing
    requires |p| < |plan| ==> plan[|p|] in failing
    ensures SucceedingPrefix(plan, failing) == p
  {
    if plan != [] {
      if plan[0] !in failing {
        assert p != [] && p[0] == plan[0];
        assert forall f :: f in p[1..] ==> f in p;
        SucceedingPrefixUnique(plan[1..], failing, p[1..]);
      }
    }
  }

  /** Names of the `migrations` rows with id below `n`, ordered by id. */
  function NamesBelow(table: map<nat, string>, n: nat): (r: seq<string>)
  {
    if n == 0 then []
    else NamesBelow(table, n - 1) + (if n - 1 in table then [table[n - 1]] else [])
  }

  /** The names below `n` are those of the rows with an id below `n`. */
  lemma {:induction false} NamesBelowMembers(table: map<nat, string>, n: nat)
    ensures forall name :: name in NamesBelow(table, n) <==>
              exists id :: id < n && id in table && table[id] == name
  {
    if n > 0 {
      NamesBelowMembers(table, n - 1);
    }
  }

  /** Rows with an id of `n` or more do not show below `n`. */
  lemma {:induction false} NamesBelowIgnoresAbove(table: map<nat, string>, n: nat, id: nat, name: string)
    requires n <= id
    ensures NamesBelow(table[id := name], n) == NamesBelow(table, n)
  {
    if n > 0 {
      NamesBelowIgnoresAbove(table, n - 1, id, name);
    }
  }

  /** A row inserted with the next id is read back last: the record is in insertion order. */
  lemma RecordAppend(table: map<nat, string>, n: nat, name: string)
    ensures NamesBelow(table[n := name], n + 1) == NamesBelow(table, n) + [name]
  {
    NamesBelowIgnoresAbove(table, n, n, name);
  }

  /** No name occurs twice. */
  ghost predicate NoDuplicates(s: seq<string>)
  {
    forall x :: multiset(s)[x] <= 1
  }

  /**
   * With a duplicate-free record and directory listing, the record stays
   * duplicate-free: a recorded file is never executed again.
   */
  lemma RecordStaysDuplicateFree(entries: seq<string>, executed: seq<string>, failing: set<string>)
    requires NoDuplicates(entries) && NoDuplicates(executed)
    ensures NoDuplicates(executed + SucceedingPrefix(Plan(entries, executed), failing))
  {
    var plan := Plan(entries, executed);
    var done := SucceedingPrefix(plan, failing);
    PrefixMultiset(done, plan);
    PlanMultiset(entries, executed);
    forall x
      ensures multiset(executed + done)[x] <= 1
    {
      if x in executed {
        assert multiset(plan)[x] == 0;
      } else {
        assert multiset(executed)[x] == 0;
      }
    }
  }

  lemma PrefixMultiset(p: seq<string>, s: seq<string>)
    requires p <= s
    ensures forall x :: multiset(p)[x] <= multiset(s)[x]
  {
    assert s == p + s[|p|..];
  }

  /** After a run that did not fail, a second run over the same listing executes nothing. */
  lemma SecondRunPlansNothing(entries: seq<string>, executed: seq<string>)
    ensures forall f :: f in entries && IsSqlFile(f) ==> f in executed + Plan(entries, executed)
    ensures Plan(entries, executed + Plan(entries, executed)) == []
  {
    var again := Plan(entries, executed + Plan(entries, executed));
    if again != [] {
      assert again[0] in again;
    }
  }

  /** One more file seen by the loop: it is planned exactly when it is not in the record. */
  lemma PendingStep(files: seq<string>, i: nat, executed: seq<string>)
    requires i < |files|
    ensures Filter(files[..i + 1], NotIn(executed))
            == Filter(files[..i], NotIn(executed)) + (if files[i] !in executed then [files[i]] else [])
  {
    assert files[..i + 1] == files[..i] + [files[i]];
    FilterConcat(files[..i], [files[i]], NotIn(executed));
  }

  /**
   * When the loop meets the first failing file at position `i`, what it has
   * executed so far is the succeeding prefix of the whole plan, and the
   * failing file comes right after it.
   */
  lemma FailureEndsPrefix(files: seq<string>, i: nat, executed: seq<string>, failing: set<string>)
    requires i < |files| && files[i] !in executed && files[i] in failing
    requires forall f :: f in Filter(files[..i], NotIn(executed)) ==> f !in failing
    ensures var plan := Filter(files, NotIn(executed));
            var done := Filter(files[..i], NotIn(executed));
            && SucceedingPrefix(plan, failing) == done
            && |done| < |plan| && plan[|done|] == files[i]
  {
    var keep := NotIn(executed);
    var done := Filter(files[..i], keep);
    var later := Filter(files[i + 1..], keep);
    var plan := Filter(files, keep);
    assert files == files[..i + 1] + files[i + 1..];
    FilterConcat(files[..i + 1], files[i + 1..], keep);
    PendingStep(files, i, executed);
    assert plan == done + [files[i]] + later;
    assert done <= plan && plan[|done|] == files[i];
    SucceedingPrefixUnique(plan, failing, done);
  }

  /** A run in which no planned file fails executes the whole plan and records every migration file. */
  lemma CompletedRunRecordsAll(entries: seq<string>, executed: seq<string>, failing: set<string>)
    requires forall f :: f in Plan(entries, executed) ==> f !in failing
    ensures SucceedingPrefix(Plan(entries, executed), failing) == Plan(entries, executed)
    ensures forall f :: f in entries && IsSqlFile(f) ==> f in executed + Plan(entries, executed)
  {
    SucceedingPrefixUnique(Plan(entries, executed), failing, Plan(entries, executed));
  }

  /** How a run ended: every pending file applied, or the first file that failed. */
  datatype RunOutcome = Completed | Failed(file: string)

  /** The fault that hits `file`'s migration in this run. */
  function FaultOf(faults: map<string, Fault>, file: string): Fault
  {
    if file in faults then faults[file] else NoFault
  }

  /** The files whose migration throws in this run (it issues five statements). */
  function FailingFiles(faults: map<string, Fault>): set<string>
  {
    set f | f in faults && Aborts(faults[f], 5)
  }

  /** The database as the runner sees it. */
  class MigrationStore {
    /** The `migrations` table: id to name. */
    var table: map<nat, string>
    /** The next value of the SERIAL id; a rolled-back insert does not give it back. */
    var nextId: nat
    /** The migrations whose SQL has taken effect on the schema, in order. */
    var schema: seq<string>

    /** Ids come from the sequence, and a migration's SQL is in effect exactly when it is recorded. */
    ghost predicate Valid()
      reads this
    {
      && (forall id :: id in table ==> id < nextId)
      && schema == NamesBelow(table, nextId)
    }

    /** getExecutedMigrations: the recorded names, ordered by id. */
    function ExecutedMigrations(): (names: seq<string>)
      reads this
      ensures forall name :: name in names <==>
                exists id :: id < nextId && id in table && table[id] == name
      ensures Valid() ==> names == schema
    {
      NamesBelowMembers(table, nextId);
      NamesBelow(table, nextId)
    }

    /** A database whose `migrations` table has just been created. */
    constructor ()
      ensures Valid() && ExecutedMigrations() == [] && schema == []
    {
      table, nextId, schema := map[], 0, [];
    }

    /**
     * executeMigration. Statements: 0 reading the file, 1 BEGIN, 2 the
     * migration's SQL, 3 the insert into `migrations`, 4 COMMIT. When one
     * throws, the transaction is rolled back and the error is passed on.
     */
    method ExecuteMigration(filename: string, fault: Fault) returns (ok: bool)
      requires Valid()
      modifies this
      ensures Valid()
      ensures ok == !Aborts(fault, 5)
      ensures ok ==> ExecutedMigrations() == old(ExecutedMigrations()) + [filename]
      ensures ok ==> schema == old(schema) + [filename]
      ensures !ok ==> table == old(table) && schema == old(schema)
      ensures !ok ==> ExecutedMigrations() == old(ExecutedMigrations())
    {
      if Throws(fault, 0) {
        return false;
      }
      var savedTable, savedSchema := table, schema;
      if Throws(fault, 1) || Throws(fault, 2) {
        return false;
      }
      schema := schema + [filename];
      if Throws(fault, 3) {
        schema := savedSchema;
        return false;
      }
      RecordAppend(table, nextId, filename);
      table := table[nextId := filename];
      nextId := nextId + 1;
      if Throws(fault, 4) {
        table, schema := savedTable, savedSchema;
        assert nextId - 1 !in table;
        return false;
      }
      ok := true;
    }

    /**
     * The `for` loop of runMigrations: each file of `files` that is not in
     * `executed` is executed in turn, until the first one that fails.
     */
    method ExecutePending(files: seq<string>, executed: seq<string>, faults: map<string, Fault>)
      returns (outcome: RunOutcome)
      requires Valid() && ExecutedMigrations() == executed
      modifies this
      ensures Valid()
      ensures var pending := Filter(files, NotIn(executed));
              var done := SucceedingPrefix(pending, FailingFiles(faults));
              && ExecutedMigrations() == executed + done
              && (outcome == Completed <==> done == pending)
              && (outcome.Failed? ==> |done| < |pending| && outcome.file == pending[|done|])
    {
      ghost var failing := FailingFiles(faults);
      ghost var done: seq<string> := [];
      var i := 0;
      while i < |files|
        invariant 0 <= i <= |files|
        invariant Valid()
        invariant done == Filter(files[..i], NotIn(executed))
        invariant ExecutedMigrations() == executed + done
        invariant forall f :: f in done ==> f !in failing
      {
        var file := files[i];
        PendingStep(files, i, executed);
        if file !in executed {
          var ok := ExecuteMigration(file, FaultOf(faults, file));
          if !ok {
            FailureEndsPrefix(files, i, executed, failing);
            return Failed(file);
          }
          assert (executed + done) + [file] == executed + (done + [file]);
          done := done + [file];
        }
        i := i + 1;
      }
      assert files[..i] == files;
      SucceedingPrefixUnique(done, failing, done);
      outcome := Completed;
    }

    /**
     * runMigrations, from the read of the record to the end of the loop:
     * the files of `Plan` are executed in order until the first one fails.
     * Since `Valid()` holds after the run, the schema has taken exactly the
     * same migrations as the record.
     */
    method RunMigrations(entries: seq<string>, faults: map<string, Fault>) returns (outcome: RunOutcome)
      requires Valid()
      modifies this
      ensures Valid()
      ensures var plan := Plan(entries, old(ExecutedMigrations()));
              var done := SucceedingPrefix(plan, FailingFiles(faults));
              && ExecutedMigrations() == old(ExecutedMigrations()) + done
              && (outcome == Completed <==> done == plan)
              && (outcome.Failed? ==> |done| < |plan| && outcome.file == plan[|done|])
      ensures outcome == Completed ==>
                forall f :: f in entries && IsSqlFile(f) ==> f in ExecutedMigrations()
    {
      var executed := ExecutedMigrations();
      var files := MigrationFiles(entries);
      outcome := ExecutePending(files, executed, faults);
      if outcome == Completed {
        CompletedRunRecordsAll(entries, executed, FailingFiles(faults));
      }
    }
  }
}
