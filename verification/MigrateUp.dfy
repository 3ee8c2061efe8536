/**
 Bringing a database up to date (server/src/migrate.rs:103-175): over any number of
 runs that fail or are killed, each pending migration that runs in a transaction
 takes effect once.
 */
module MigrateUp {
  import opened Outcomes
  import opened Migrate

  /** A row of goose's table. A version may have several; the last one added counts. */
  datatype Row = Row(version: int, isApplied: bool)

  /** The latest row of the version says it is applied. */
  predicate IsApplied(rows: seq<Row>, version: int) {
    rows != [] && var last := rows[|rows| - 1];
    if last.version == version then last.isApplied && version > 0 else IsApplied(rows[..|rows| - 1], version)
  }

  lemma OneMoreRow(rows: seq<Row>, row: Row, version: int)
    ensures IsApplied(rows + [row], version)
            <==> if row.version == version then row.isApplied && version > 0 else IsApplied(rows, version)
  {
    assert (rows + [row])[..|rows|] == rows;
  }

  /** The applied versions among the rows. */
  function AppliedVersions(rows: seq<Row>): set<int> {
    set row | row in rows && IsApplied(rows, row.version) :: row.version
  }

  lemma {:induction false} AppliedHasRow(rows: seq<Row>, version: int)
    requires IsApplied(rows, version)
    ensures version in AppliedVersions(rows)
  {
    var row := LatestRow(rows, version);
    assert row in rows && row.version == version;
  }

  function LatestRow(rows: seq<Row>, version: int): (row: Row)
    requires IsApplied(rows, version)
    ensures row in rows && row.version == version
  {
    if rows[|rows| - 1].version == version then rows[|rows| - 1] else LatestRow(rows[..|rows| - 1], version)
  }

  /**
   The database: goose's rows, and in `executed` the versions whose statements took
   effect. A transaction takes effect whole or not at all.
   */
  class Database {
    var rows: seq<Row>
    ghost var executed: seq<int>
    ghost var disturbances: nat

    method Fate() returns (r: Outcome<()>)
      modifies this`disturbances
      ensures r.Ok? <==> disturbances == old(disturbances)
      ensures disturbances >= old(disturbances)
    {
      var dice: int := *;
      r := if dice == 0 then Err else if dice == 1 then Killed else Ok(());
      disturbances := if r.Ok? then disturbances else disturbances + 1;
    }

    /** Statements that fail, or are cut short, may have taken effect in part. */
    method RunSql(migration: Migration) returns (r: Outcome<()>)
      modifies this`executed, this`disturbances
      ensures r.Ok? <==> disturbances == old(disturbances)
      ensures disturbances >= old(disturbances)
      ensures executed == old(executed) + [migration.version] || (!r.Ok? && executed == old(executed))
    {
      r := Fate();
      var tookEffect: bool := *;
      executed := if r.Ok? || tookEffect then executed + [migration.version] else executed;
    }

    method Insert(row: Row) returns (r: Outcome<()>)
      modifies this`rows, this`disturbances
      ensures r.Ok? <==> disturbances == old(disturbances)
      ensures disturbances >= old(disturbances)
      ensures rows == old(rows) + [row] || (!r.Ok? && rows == old(rows))
    {
      r := Fate();
      var inserted: bool := *;
      rows := if r.Ok? || (r.Killed? && inserted) then rows + [row] else rows;
    }

    method Apply(migration: Migration) returns (r: Outcome<()>)
      modifies this
      ensures r.Ok? <==> disturbances == old(disturbances)
      ensures disturbances >= old(disturbances)
      ensures r.Ok? ==>
                rows == old(rows) + [Row(migration.version, true)] && executed == old(executed) + [migration.version]
      ensures !r.Ok? ==>
                || (rows == old(rows) && executed in {old(executed), old(executed) + [migration.version]})
                || (rows == old(rows) + [Row(migration.version, true)]
                    && executed == old(executed) + [migration.version])
    {
      var _ :- RunSql(migration);
      r := Insert(Row(migration.version, true));
    }

    /** The migration and its row, both or neither. */
    method ApplyInTransaction(migration: Migration) returns (r: Outcome<()>)
      modifies this
      ensures r.Ok? <==> disturbances == old(disturbances)
      ensures disturbances >= old(disturbances)
      ensures r.Ok? ==> executed != old(executed)
      ensures (rows == old(rows) && executed == old(executed))
              || (rows == old(rows) + [Row(migration.version, true)] && executed == old(executed) + [migration.version])
    {
      var _ :- Fate();
      var before := rows;
      ghost var executedBefore := executed;
      r := Apply(migration);
      var committed := r.Ok?;
      if r.Ok? {
        r := Fate();
        // A commit that does not answer may have happened.
        var happened: bool := *;
        committed := r.Ok? || happened;
      }
      if !committed {
        rows, executed := before, executedBefore;
      }
    }

    method ReadApplied() returns (r: Outcome<set<int>>)
      modifies this`disturbances
      ensures r.Ok? <==> disturbances == old(disturbances)
      ensures disturbances >= old(disturbances)
      ensures r.Ok? ==> forall version :: version in r.value <==> IsApplied(rows, version)
    {
      var _ :- Fate();
      forall version | IsApplied(rows, version)
        ensures version in AppliedVersions(rows)
      {
        AppliedHasRow(rows, version);
      }
      r := Ok(AppliedVersions(rows));
    }

    /** The table, and goose's own first row. */
    method Prepare() returns (r: Outcome<()>)
      modifies this
      ensures r.Ok? <==> disturbances == old(disturbances)
      ensures disturbances >= old(disturbances)
      ensures executed == old(executed)
      ensures forall version :: IsApplied(rows, version) <==> IsApplied(old(rows), version)
      ensures rows in {old(rows), old(rows) + [Row(0, true)]}
      ensures (exists row :: row in old(rows) && row.version == 0) ==> rows == old(rows)
      ensures r.Ok? ==> exists row :: row in rows && row.version == 0
    {
      var _ :- Fate();
      var _ :- Fate();
      r := Ok(());
      if forall row :: row in rows ==> row.version != 0 {
        forall version: int
          ensures IsApplied(rows + [Row(0, true)], version) <==> IsApplied(rows, version)
        {
          OneMoreRow(rows, Row(0, true), version);
          NoRowNotApplied(rows, version);
        }
        r := Insert(Row(0, true));
      }
    }
  }

  lemma NoRowNotApplied(rows: seq<Row>, version: int)
    ensures version <= 0 ==> !IsApplied(rows, version)
  {
  }

  predicate AllPositive(migrations: seq<Migration>) {
    forall i :: 0 <= i < |migrations| ==> migrations[i].version > 0
  }

  /** The versions of migrations that are not applied, in order. */
  function Pending(migrations: seq<Migration>, rows: seq<Row>): seq<int> {
    if migrations == [] then []
    else
      var last := migrations[|migrations| - 1];
      Pending(migrations[..|migrations| - 1], rows) + if IsApplied(rows, last.version) then [] else [last.version]
  }

  /** Once everything positive is applied, nothing is pending exactly when every version is positive. */
  lemma {:induction false} NothingPending(migrations: seq<Migration>, rows: seq<Row>)
    requires forall i :: 0 <= i < |migrations| && migrations[i].version > 0 ==> IsApplied(rows, migrations[i].version)
    ensures Pending(migrations, rows) == [] <==> AllPositive(migrations)
  {
    if migrations != [] {
      var front, last := migrations[..|migrations| - 1], migrations[|migrations| - 1];
      assert forall i :: 0 <= i < |front| ==> front[i] == migrations[i];
      NothingPending(front, rows);
      NoRowNotApplied(rows, last.version);
      assert AllPositive(migrations) <==> AllPositive(front) && last.version > 0;
    }
  }

  ghost predicate IsVersion(migrations: seq<Migration>, version: int) {
    exists i :: 0 <= i < |migrations| && migrations[i].version == version
  }

  ghost predicate IsTransactional(migrations: seq<Migration>, version: int) {
    exists i :: 0 <= i < |migrations| && migrations[i].version == version && migrations[i].inTransaction
  }

  /** What was executed since the database had the rows `start`. */
  ghost predicate History(migrations: seq<Migration>, start: seq<Row>, rows: seq<Row>, executed: seq<int>) {
    && (forall version :: IsApplied(start, version) ==> IsApplied(rows, version))
    && (forall version :: IsApplied(rows, version) ==> IsApplied(start, version) || version in executed)
    && (forall version :: version in executed ==> !IsApplied(start, version) && IsVersion(migrations, version))
    && (forall version :: version in executed && IsTransactional(migrations, version) ==> IsApplied(rows, version))
    && InOrder(migrations, executed)
    && (executed != [] ==> AppliedBelow(migrations, rows, executed[|executed| - 1]))
  }

  /** Ascending; only a migration outside a transaction may be executed again. */
  ghost predicate InOrder(migrations: seq<Migration>, executed: seq<int>) {
    forall i, j :: 0 <= i < j < |executed| ==>
      executed[i] < executed[j] || (executed[i] == executed[j] && !IsTransactional(migrations, executed[i]))
  }

  ghost predicate AppliedBelow(migrations: seq<Migration>, rows: seq<Row>, version: int) {
    forall i :: 0 <= i < |migrations| && migrations[i].version < version ==> IsApplied(rows, migrations[i].version)
  }

  lemma InOrderNext(migrations: seq<Migration>, rows: seq<Row>, executed: seq<int>, version: int)
    requires InOrder(migrations, executed) && IsVersion(migrations, version) && !IsApplied(rows, version)
    requires executed != [] ==> AppliedBelow(migrations, rows, executed[|executed| - 1])
    requires version in executed && IsTransactional(migrations, version) ==> IsApplied(rows, version)
    ensures InOrder(migrations, executed + [version])
  {
    hide IsApplied, IsTransactional;
    if executed != [] {
      var last := executed[|executed| - 1];
      assert version >= last;
      assert version == last ==> version in executed;
    }
  }

  /** One pending migration, executed after everything below it, with its row or without. */
  lemma HistoryNext(migrations: seq<Migration>, start: seq<Row>, rows: seq<Row>, executed: seq<int>, version: int,
          recorded: seq<Row>)
    requires History(migrations, start, rows, executed) && version > 0
    requires IsVersion(migrations, version) && !IsApplied(rows, version) && AppliedBelow(migrations, rows, version)
    requires recorded == rows + [Row(version, true)] || (recorded == rows && !IsTransactional(migrations, version))
    ensures History(migrations, start, recorded, executed + [version])
  {
    hide IsApplied, IsTransactional, IsVersion, InOrder;
    forall other: int
      ensures IsApplied(recorded, other) <==> IsApplied(rows, other) || (other == version && recorded != rows)
    {
      if recorded != rows {
        RecordedApplied(rows, version, other);
      }
    }
    InOrderNext(migrations, rows, executed, version);
    var more := executed + [version];
    assert forall other :: other in more <==> other in executed || other == version;
  }

  lemma RecordedApplied(rows: seq<Row>, version: int, other: int)
    requires version > 0
    ensures IsApplied(rows + [Row(version, true)], other) <==> IsApplied(rows, other) || other == version
  {
    OneMoreRow(rows, Row(version, true), other);
  }

  /** The rows apply what they did before, and these versions. */
  ghost predicate AppliedWith(before: seq<Row>, more: seq<int>, rows: seq<Row>) {
    forall version :: IsApplied(rows, version) <==> IsApplied(before, version) || version in more
  }

  lemma {:induction false} PendingAreVersions(migrations: seq<Migration>, rows: seq<Row>, n: nat)
    requires n <= |migrations|
    ensures forall version :: version in Pending(migrations[..n], rows) ==>
              exists i :: 0 <= i < n && migrations[i].version == version
  {
    if n > 0 {
      assert migrations[..n][..n - 1] == migrations[..n - 1];
      PendingAreVersions(migrations, rows, n - 1);
      assert migrations[n - 1].version == migrations[..n][n - 1].version;
    }
  }

  lemma NextPending(migrations: seq<Migration>, rows: seq<Row>, i: nat)
    requires i < |migrations|
    ensures Pending(migrations[..i + 1], rows)
            == Pending(migrations[..i], rows) + if IsApplied(rows, migrations[i].version) then []
                else [migrations[i].version]
  {
    assert migrations[..i + 1][..i] == migrations[..i];
  }

  /** What the loop of `up` knows before the migration at `i`. */
  ghost predicate Reached(migrations: seq<Migration>, before: seq<Row>, rows: seq<Row>, i: nat)
    requires i <= |migrations|
  {
    && AppliedWith(before, Pending(migrations[..i], before), rows)
    && forall j :: 0 <= j < i ==> IsApplied(rows, migrations[j].version)
  }

  /** The migration at `i` is pending still if it was, and all below it are applied. */
  lemma ReachedPending(migrations: seq<Migration>, before: seq<Row>, rows: seq<Row>, i: nat)
    requires i < |migrations| && Ascending(migrations) && Reached(migrations, before, rows, i)
    ensures IsApplied(rows, migrations[i].version) <==> IsApplied(before, migrations[i].version)
    ensures AppliedBelow(migrations, rows, migrations[i].version) && IsVersion(migrations, migrations[i].version)
    ensures IsTransactional(migrations, migrations[i].version) <==> migrations[i].inTransaction
  {
    hide IsApplied, Pending;
    PendingAreVersions(migrations, before, i);
  }

  lemma ReachedNext(migrations: seq<Migration>, before: seq<Row>, rows: seq<Row>, i: nat, recorded: seq<Row>)
    requires i < |migrations| && Reached(migrations, before, rows, i) && migrations[i].version > 0
    requires recorded == if IsApplied(before, migrations[i].version) then rows
               else rows + [Row(migrations[i].version, true)]
    ensures Reached(migrations, before, recorded, i + 1)
  {
    hide IsApplied, Pending;
    NextPending(migrations, before, i);
    var version := migrations[i].version;
    forall other: int
      ensures IsApplied(recorded, other) <==> IsApplied(rows, other) || other == version
    {
      if recorded != rows {
        RecordedApplied(rows, version, other);
      }
    }
  }

  /** Applies what is pending, in ascending order, and answers its versions. */
  method Up(db: Database, migrations: seq<Migration>, ghost start: seq<Row>) returns (r: Outcome<seq<int>>)
    requires Ascending(migrations) && AllPositive(migrations) && History(migrations, start, db.rows, db.executed)
    modifies db
    ensures History(migrations, start, db.rows, db.executed)
    ensures r.Ok? ==>
              && r.value == Pending(migrations, old(db.rows)) && db.executed == old(db.executed) + r.value
              && AppliedWith(old(db.rows), r.value, db.rows)
              && (forall i :: 0 <= i < |migrations| ==> IsApplied(db.rows, migrations[i].version))
    ensures db.disturbances >= old(db.disturbances) && (db.disturbances == old(db.disturbances) ==> r.Ok?)
  {
    hide IsApplied, Pending, History;
    ghost var before := db.rows;
    var prepared := db.Prepare();
    PreparedHistory(migrations, start, before, db.rows, db.executed);
    if !prepared.Ok? {
      return prepared.PropagateFailure();
    }
    var applied :- db.ReadApplied();
    var newlyApplied := [];
    NothingReached(migrations, before, db.rows);
    for i := 0 to |migrations|
      invariant History(migrations, start, db.rows, db.executed) && Reached(migrations, before, db.rows, i)
      invariant newlyApplied == Pending(migrations[..i], before) && db.executed == old(db.executed) + newlyApplied
      invariant db.disturbances == old(db.disturbances)
    {
      var version := migrations[i].version;
      ghost var rows := db.rows;
      ReachedPending(migrations, before, rows, i);
      NextPending(migrations, before, i);
      if version !in applied {
        var done := ApplyOne(db, migrations, start, migrations[i]);
        if !done.Ok? {
          return done.PropagateFailure();
        }
        newlyApplied := newlyApplied + [version];
      }
      ReachedNext(migrations, before, rows, i, db.rows);
    }
    assert migrations[..|migrations|] == migrations;
    r := Ok(newlyApplied);
  }

  method ApplyOne(db: Database, migrations: seq<Migration>, ghost start: seq<Row>, migration: Migration)
          returns (r: Outcome<()>)
    requires History(migrations, start, db.rows, db.executed) && migration.version > 0
    requires IsVersion(migrations, migration.version) && !IsApplied(db.rows, migration.version)
    requires AppliedBelow(migrations, db.rows, migration.version)
    requires IsTransactional(migrations, migration.version) <==> migration.inTransaction
    modifies db
    ensures History(migrations, start, db.rows, db.executed)
    ensures db.disturbances >= old(db.disturbances) && (r.Ok? <==> db.disturbances == old(db.disturbances))
    ensures r.Ok? ==>
              db.rows == old(db.rows) + [Row(migration.version, true)]
              && db.executed == old(db.executed) + [migration.version]
  {
    hide IsApplied, History, IsVersion, IsTransactional, AppliedBelow;
    ghost var rows, executed := db.rows, db.executed;
    if migration.inTransaction {
      r := db.ApplyInTransaction(migration);
    } else {
      r := db.Apply(migration);
    }
    if db.executed != executed {
      HistoryNext(migrations, start, rows, executed, migration.version, db.rows);
    }
  }

  lemma PreparedHistory(migrations: seq<Migration>, start: seq<Row>, before: seq<Row>, rows: seq<Row>,
          executed: seq<int>)
    requires History(migrations, start, before, executed)
    requires forall version :: IsApplied(rows, version) <==> IsApplied(before, version)
    ensures History(migrations, start, rows, executed)
  {
    hide IsApplied, IsTransactional, IsVersion, InOrder;
  }

  lemma NothingReached(migrations: seq<Migration>, before: seq<Row>, rows: seq<Row>)
    requires forall version :: IsApplied(rows, version) <==> IsApplied(before, version)
    ensures Pending(migrations[..0], before) == [] && Reached(migrations, before, rows, 0)
  {
    hide IsApplied;
    assert migrations[..0] == [];
  }

  /** Executed once and only once. */
  ghost predicate Once(executed: seq<int>, version: int) {
    exists i ::
      && 0 <= i < |executed| && executed[i] == version
      && forall j :: 0 <= j < |executed| && executed[j] == version ==> j == i
  }

  /**
   However many runs fail or are killed before one succeeds: every version is applied
   then, nothing but these was added to what was applied, each migration that was
   pending and runs in a transaction took effect exactly once, all in ascending
   order, and one more run applies nothing.
   */
  method Run(db: Database, migrations: seq<Migration>, attempts: nat) returns (succeeded: bool)
    requires Ascending(migrations) && AllPositive(migrations) && db.executed == []
    modifies db
    ensures attempts > 0 && db.disturbances == old(db.disturbances) ==> succeeded
    ensures InOrder(migrations, db.executed)
    ensures forall version :: IsApplied(db.rows, version) ==>
              IsApplied(old(db.rows), version) || IsVersion(migrations, version)
    ensures forall version :: IsApplied(old(db.rows), version) ==>
              IsApplied(db.rows, version) && version !in db.executed
    ensures succeeded ==>
              && (forall version :: IsVersion(migrations, version) ==> IsApplied(db.rows, version))
              && (forall version :: IsTransactional(migrations, version) && !IsApplied(old(db.rows), version) ==>
                  Once(db.executed, version))
              && Pending(migrations, db.rows) == []
  {
    hide IsApplied, Pending;
    ghost var start := db.rows;
    succeeded := false;
    for i := 0 to attempts
      invariant History(migrations, start, db.rows, db.executed)
      invariant db.disturbances >= old(db.disturbances)
      invariant i > 0 && db.disturbances == old(db.disturbances) ==> succeeded
      invariant succeeded ==> forall j :: 0 <= j < |migrations| ==> IsApplied(db.rows, migrations[j].version)
    {
      if !succeeded {
        var r := Up(db, migrations, start);
        succeeded := r.Ok?;
      }
    }
    if succeeded {
      NothingPending(migrations, db.rows);
      forall version | IsTransactional(migrations, version) && !IsApplied(start, version)
        ensures Once(db.executed, version)
      {
        TransactionalOnce(migrations, start, db.rows, db.executed, version);
      }
    }
  }

  lemma TransactionalOnce(migrations: seq<Migration>, start: seq<Row>, rows: seq<Row>, executed: seq<int>, version: int)
    requires History(migrations, start, rows, executed) && IsTransactional(migrations, version)
               && !IsApplied(start, version)
    requires IsApplied(rows, version)
    ensures Once(executed, version)
  {
    hide IsApplied, IsTransactional;
    assert version in executed;
    var i :| 0 <= i < |executed| && executed[i] == version;
    forall j | 0 <= j < |executed| && executed[j] == version
      ensures j == i
    {
      assert InOrder(migrations, executed);
    }
  }
}
