/** The migrations that replace one index by another while the table stays in use. */
module IndexSwap {
  import opened Basics

  datatype Index = Index(valid: bool, columns: set<string>)

  datatype Db = Db(indexes: map<string, Index>, columns: set<string>)

  /** One migration: the index it introduces, the one it retires, and the column it adds. */
  datatype Migration = Migration(oldIndex: string, newIndex: string, column: string, oldColumns: set<string>, newColumns: set<string>)

  const BASE_COLUMNS: set<string> := {"workspace_id", "cluster_id", "collected_at", "created_at", "snapshot_id", "status", "summary"}

  const OBSERVED_AT := Migration(
    "ix_inventory_snapshots_timeline_coverage",
    "ix_inventory_snapshots_timeline_capture_observed",
    "event_capture_observed_at",
    BASE_COLUMNS,
    BASE_COLUMNS + {"event_capture_observed_at"})

  const PROJECTION := Migration(
    "ix_inventory_snapshots_timeline_capture_observed",
    "ix_inventory_snapshots_timeline_capture_projection",
    "event_capture",
    BASE_COLUMNS + {"event_capture_observed_at"},
    BASE_COLUMNS + {"event_capture_observed_at", "event_capture"})

  predicate WellPosed(m: Migration) {
    m.oldIndex != m.newIndex && m.column !in m.oldColumns
  }

  lemma {:induction false} BothWellPosed()
    ensures WellPosed(OBSERVED_AT) && WellPosed(PROJECTION)
  {
    assert |OBSERVED_AT.oldIndex| == 40 && |OBSERVED_AT.newIndex| == 48 && |PROJECTION.newIndex| == 50;
  }

  predicate IsValid(db: Db, name: string) {
    name in db.indexes && db.indexes[name].valid
  }

  /** Queries of this migration have an index to use. */
  predicate Served(db: Db, m: Migration) {
    IsValid(db, m.oldIndex) || IsValid(db, m.newIndex)
  }

  /** The retired index was there before the column was. */
  predicate OldIndependent(db: Db, m: Migration) {
    m.oldIndex in db.indexes ==> m.column !in db.indexes[m.oldIndex].columns
  }

  datatype Outcome = Done | LockTimeout | Failed

  // ---- what one statement may do ----

  /** `CREATE INDEX CONCURRENTLY IF NOT EXISTS`: whatever has the name is left as it is, valid or not; a build that
      fails may leave an invalid index behind. */
  predicate Creates(a: Db, b: Db, name: string, columns: set<string>, outcome: Outcome) {
    if name in a.indexes then b == a
    else if outcome.Done? then b == a.(indexes := a.indexes[name := Index(true, columns)])
    else b == a || b == a.(indexes := a.indexes[name := Index(false, columns)])
  }

  /** `DROP INDEX CONCURRENTLY IF EXISTS`: when it fails the index may be gone, untouched, or left invalid. */
  predicate Drops(a: Db, b: Db, name: string, outcome: Outcome) {
    var gone := a.(indexes := a.indexes - {name});
    if name !in a.indexes then b == a
    else if outcome.Done? then b == gone
    else b == a || b == gone || b == a.(indexes := a.indexes[name := a.indexes[name].(valid := false)])
  }

  function WithoutColumn(db: Db, column: string): Db {
    Db(map name | name in db.indexes && column !in db.indexes[name].columns :: db.indexes[name], db.columns - {column})
  }

  /** Only this index differs. */
  ghost predicate OnlyIndex(a: Db, b: Db, name: string) {
    && b.columns == a.columns
    && forall other :: other != name ==>
         (other in a.indexes <==> other in b.indexes) && (other in a.indexes ==> b.indexes[other] == a.indexes[other])
  }

  const MAX_BUILDS: nat := 4

  /** Locks held too long are waited for three times over; the run gives up at the fourth, or at the first failure of any
      other kind, and for no other reason. */
  predicate Persists(failures: int, timeouts: int, ok: bool) {
    && 0 <= timeouts <= 4 && timeouts <= failures <= timeouts + 1
    && if ok then failures == timeouts < 4 else timeouts == 4 || failures == timeouts + 1
  }

  /** The migration is the only writer of these indexes; every state the database passes through is recorded. */
  class Database {
    var db: Db
    var builds: nat
    var failures: nat
    var timeouts: nat  // those of the failures that were builds waiting too long for a lock
    ghost var history: seq<Db>

    ghost predicate Valid()
      reads this
    {
      history != [] && history[|history| - 1] == db
    }

    constructor (db: Db)
      ensures Valid() && this.db == db && history == [db] && builds == 0 && failures == 0 && timeouts == 0
    {
      this.db, history, builds, failures, timeouts := db, [db], 0, 0, 0;
    }

    method CreateIndex(name: string, columns: set<string>) returns (outcome: Outcome)
      requires Valid()
      modifies this
      ensures Valid() && history == old(history) + [db] && builds == old(builds) + 1
      ensures Creates(old(db), db, name, columns, outcome)
      ensures failures == old(failures) + (if outcome.Done? then 0 else 1)
      ensures timeouts == old(timeouts) + (if outcome.LockTimeout? then 1 else 0)
    {
      outcome := *;
      var remnant: bool := *;
      builds := builds + 1;
      failures := if outcome.Done? then failures else failures + 1;
      timeouts := if outcome.LockTimeout? then timeouts + 1 else timeouts;
      if name !in db.indexes {
        if outcome.Done? {
          db := db.(indexes := db.indexes[name := Index(true, columns)]);
        } else if remnant {
          db := db.(indexes := db.indexes[name := Index(false, columns)]);
        }
      }
      history := history + [db];
    }

    method DropIndex(name: string) returns (outcome: Outcome)
      requires Valid()
      modifies this
      ensures Valid() && history == old(history) + [db] && builds == old(builds) && timeouts == old(timeouts)
      ensures Drops(old(db), db, name, outcome)
      ensures failures == old(failures) + (if outcome.Done? then 0 else 1)
    {
      outcome := *;
      var invalidated: bool, dropped: bool := *, *;
      failures := if outcome.Done? then failures else failures + 1;
      if name in db.indexes {
        if outcome.Done? || dropped {
          db := db.(indexes := db.indexes - {name});
        } else if invalidated {
          db := db.(indexes := db.indexes[name := db.indexes[name].(valid := false)]);
        }
      }
      history := history + [db];
    }

    /** Adding and filling the column: no index changes. */
    method AddColumn(column: string) returns (ok: bool)
      requires Valid()
      modifies this
      ensures Valid() && history == old(history) + [db] && builds == old(builds) && timeouts == old(timeouts)
      ensures db == old(db) || db == old(db).(columns := old(db).columns + {column})
      ensures ok ==> column in db.columns
      ensures failures == old(failures) + (if ok then 0 else 1)
    {
      ok := *;
      failures := if ok then failures else failures + 1;
      if ok {
        db := db.(columns := db.columns + {column});
      }
      history := history + [db];
    }

    /** Dropping a column drops the indexes that use it. */
    method DropColumn(column: string) returns (ok: bool)
      requires Valid()
      modifies this
      ensures Valid() && history == old(history) + [db] && builds == old(builds) && timeouts == old(timeouts)
      ensures db == if ok then WithoutColumn(old(db), column) else old(db)
      ensures failures == old(failures) + (if ok then 0 else 1)
    {
      ok := *;
      failures := if ok then failures else failures + 1;
      if ok {
        db := WithoutColumn(db, column);
      }
      history := history + [db];
    }

    /** `_drop_invalid_index`: reads the catalog and drops the named index only if it is an invalid remnant. */
    method DropInvalid(name: string) returns (ok: bool)
      requires Valid()
      modifies this
      ensures Valid() && old(history) <= history && builds == old(builds) && timeouts == old(timeouts)
      ensures old(IsValid(db, name)) || name !in old(db).indexes ==> ok && db == old(db) && history == old(history)
      ensures OnlyIndex(old(db), db, name) && |history| <= |old(history)| + 1
      ensures ok ==> (name in db.indexes ==> IsValid(db, name))
      ensures name in db.indexes ==> name in old(db).indexes && db.indexes[name].columns == old(db).indexes[name].columns
      ensures IsValid(db, name) ==> old(IsValid(db, name))
      ensures failures == old(failures) + (if ok then 0 else 1)
    {
      if name in db.indexes && !db.indexes[name].valid {
        var outcome := DropIndex(name);
        return outcome.Done?;
      }
      return true;
    }

    /** One attempt: clear a remnant, then build. */
    method TryBuild(name: string, columns: set<string>) returns (cleared: bool, outcome: Outcome)
      requires Valid()
      modifies this
      ensures Valid() && old(history) <= history && builds == old(builds) + (if cleared then 1 else 0)
      ensures OnlyAbout(old(history), history, name, old(IsValid(db, name)))
      ensures cleared && outcome.Done? ==> IsValid(db, name)
      ensures failures == old(failures) + (if cleared && outcome.Done? then 0 else 1)
      ensures timeouts == old(timeouts) + (if cleared && outcome.LockTimeout? then 1 else 0)
      ensures cleared && outcome.Done? && !old(IsValid(db, name)) ==> db.indexes[name].columns == columns
      ensures UsesOnly(old(db), db, name, columns)
    {
      outcome := Failed;
      cleared := DropInvalid(name);
      if cleared {
        outcome := CreateIndex(name, columns);
      }
    }

    /** `_create_index_with_bounded_retry`. */
    method CreateWithBoundedRetry(name: string, columns: set<string>) returns (ok: bool)
      requires Valid()
      modifies this
      ensures Valid() && old(history) <= history
      ensures builds <= old(builds) + 4
      ensures OnlyAbout(old(history), history, name, old(IsValid(db, name)))
      ensures ok ==> IsValid(db, name)
      ensures Persists(failures - old(failures), timeouts - old(timeouts), ok)
      ensures ok ==> builds - old(builds) == timeouts - old(timeouts) + 1
      ensures UsesOnly(old(db), db, name, columns)
    {
      ghost var start, first := history, db;
      for attempt := 0 to MAX_BUILDS
        invariant Valid() && start <= history
        invariant OnlyAbout(start, history, name, IsValid(first, name))
        invariant failures - old(failures) == timeouts - old(timeouts) == builds - old(builds) == attempt
        invariant UsesOnly(first, db, name, columns)
      {
        ghost var before := history;
        var cleared, outcome := TryBuild(name, columns);
        OnlyAboutTransitive(start, before, history, name, IsValid(first, name));
        if cleared && outcome.Done? {
          return true;
        }
        if !cleared || !outcome.LockTimeout? || attempt == MAX_BUILDS - 1 {
          return false;
        }
      }
      return false;
    }
  }

  // ---- upgrade and downgrade ----

  ghost predicate AllServed(history: seq<Db>, n: nat, m: Migration) {
    forall k :: n <= k < |history| ==> Served(history[k], m)
  }

  /** What both directions do: build one index, and only then drop the other. */
  method Swap(d: Database, m: Migration, create: string, columns: set<string>, retire: string) returns (ok: bool)
    requires d.Valid() && WellPosed(m) && Served(d.db, m) && OldIndependent(d.db, m)
    requires (create == m.newIndex && retire == m.oldIndex) || (create == m.oldIndex && retire == m.newIndex && columns == m.oldColumns)
    modifies d
    ensures d.Valid() && old(d.history) <= d.history && AllServed(d.history, |old(d.history)|, m) && OldIndependent(d.db, m)
    ensures Served(d.db, m)
    ensures d.builds <= old(d.builds) + 4
    ensures ok ==> IsValid(d.db, create) && retire !in d.db.indexes
    ensures Persists(d.failures - old(d.failures), d.timeouts - old(d.timeouts), ok)
    ensures d.db.columns == old(d.db.columns)
    ensures forall other :: other != create && other != retire ==>
              (other in d.db.indexes <==> other in old(d.db.indexes)) && (other in d.db.indexes ==> d.db.indexes[other] == old(d.db.indexes)[other])
  {
    ghost var n := |d.history|;
    var built := d.CreateWithBoundedRetry(create, columns);
    if !built {
      return false;
    }
    var outcome := d.DropIndex(retire);
    return outcome.Done?;
  }

  /** `upgrade`: however statements fail, and wherever the run stops, one of the two indexes is valid throughout. */
  method Upgrade(d: Database, m: Migration) returns (ok: bool)
    requires d.Valid() && WellPosed(m) && Served(d.db, m) && OldIndependent(d.db, m)
    modifies d
    ensures d.Valid() && old(d.history) <= d.history && AllServed(d.history, |old(d.history)|, m)
    ensures Served(d.db, m) && OldIndependent(d.db, m)
    ensures d.builds <= old(d.builds) + 4
    ensures ok ==> IsValid(d.db, m.newIndex) && m.oldIndex !in d.db.indexes && m.column in d.db.columns
    ensures Persists(d.failures - old(d.failures), d.timeouts - old(d.timeouts), ok)
    ensures forall other :: other != m.newIndex && other != m.oldIndex ==>
              (other in d.db.indexes <==> other in old(d.db.indexes)) && (other in d.db.indexes ==> d.db.indexes[other] == old(d.db.indexes)[other])
  {
    var added := d.AddColumn(m.column);
    if !added {
      return false;
    }
    ok := Swap(d, m, m.newIndex, m.newColumns, m.oldIndex);
  }

  /** `downgrade`: likewise, to the very end, where dropping the column takes every index that uses it along. */
  method Downgrade(d: Database, m: Migration) returns (ok: bool)
    requires d.Valid() && WellPosed(m) && Served(d.db, m) && OldIndependent(d.db, m)
    modifies d
    ensures d.Valid() && old(d.history) <= d.history && AllServed(d.history, |old(d.history)|, m)
    ensures Served(d.db, m) && OldIndependent(d.db, m)
    ensures d.builds <= old(d.builds) + 4
    ensures ok ==> IsValid(d.db, m.oldIndex) && m.newIndex !in d.db.indexes && m.column !in d.db.columns
    ensures Persists(d.failures - old(d.failures), d.timeouts - old(d.timeouts), ok)
    ensures forall other :: other != m.newIndex && other != m.oldIndex && other in d.db.indexes ==>
              other in old(d.db.indexes) && d.db.indexes[other] == old(d.db.indexes)[other]
    ensures forall other :: other != m.newIndex && other != m.oldIndex && other in old(d.db.indexes) ==>
              m.column !in old(d.db.indexes)[other].columns ==> other in d.db.indexes
  {
    ok := Swap(d, m, m.oldIndex, m.oldColumns, m.newIndex);
    if ok {
      ok := d.DropColumn(m.column);
    }
  }

  /** Any number of runs in either direction, each possibly cut short. */
  method RunMigrations(d: Database, m: Migration, directions: seq<bool>)
    requires d.Valid() && WellPosed(m) && Served(d.db, m) && OldIndependent(d.db, m)
    modifies d
    ensures d.Valid() && old(d.history) <= d.history && AllServed(d.history, |old(d.history)|, m)
    ensures d.builds <= old(d.builds) + 4 * |directions|
  {
    for i := 0 to |directions|
      invariant d.Valid() && old(d.history) <= d.history && AllServed(d.history, |old(d.history)|, m)
      invariant Served(d.db, m) && OldIndependent(d.db, m)
      invariant d.builds <= old(d.builds) + 4 * i
    {
      ghost var before := d.history;
      if directions[i] {
        var ok := Upgrade(d, m);
      } else {
        var ok := Downgrade(d, m);
      }
      assert forall k :: 0 <= k < |before| ==> d.history[k] == before[k];
    }
  }

  /** An index built here uses the given columns; one that was there keeps its own. */
  predicate UsesOnly(a: Db, b: Db, name: string, columns: set<string>) {
    name in b.indexes ==> b.indexes[name].columns == columns || (name in a.indexes && b.indexes[name].columns == a.indexes[name].columns)
  }

  /** Since then only this index has changed, and if it was valid it still was at every point. */
  ghost predicate OnlyAbout(before: seq<Db>, after: seq<Db>, name: string, wasValid: bool) {
    && before != [] && before <= after
    && forall k :: |before| <= k < |after| ==>
         OnlyIndex(before[|before| - 1], after[k], name) && (wasValid ==> IsValid(after[k], name))
  }

  lemma {:induction false} OnlyAboutTransitive(a: seq<Db>, b: seq<Db>, c: seq<Db>, name: string, wasValid: bool)
    requires OnlyAbout(a, b, name, wasValid) && (wasValid ==> IsValid(a[|a| - 1], name))
    requires OnlyAbout(b, c, name, IsValid(b[|b| - 1], name))
    ensures OnlyAbout(a, c, name, wasValid)
  {
    forall k | |a| <= k < |c|
      ensures OnlyIndex(a[|a| - 1], c[k], name) && (wasValid ==> IsValid(c[k], name))
    {
      if k < |b| {
        assert c[k] == b[k];
      } else if |b| == |a| {
        assert b == a;
      }
    }
  }
}
