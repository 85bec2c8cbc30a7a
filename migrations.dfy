/**
 * The schema migrations of `database/migrations.py`: the `schema_version`
 * table, the version-gated migration loop, and the migrations that add a
 * column and tolerate finding it already there.
 *
 * A database is seen through its schema: the columns of each table, the
 * rows of `schema_version` in insertion order, and the named indexes.
 */
module Migrations {
  import opened Wrappers

  /** The schema of one SQLite database file. */
  datatype Db = Db(tables: map<string, set<string>>, versions: seq<int>, indexes: set<string>)

  /** The `OperationalError` or `IntegrityError` a failing statement raises. */
  datatype SqlError = NoSuchTable(table: string) | DuplicateColumn(column: string) | DuplicateVersion(version: int)

  /** The schema after a step, and what the step raised, if anything. */
  datatype Outcome = Outcome(db: Db, raised: Option<SqlError>)

  const VersionTable := "schema_version"
  const VersionColumns: set<string> := {"version", "applied_at"}
  const ThumbnailsTable := "thumbnails"
  const ExtraData := "extra_data"
  const EntitiesTable := "entities"
  const LastAccessed := "last_accessed"
  const MetadataTable := "metadata"
  const Category := "category"
  const CategoryIndex := "idx_metadata_category"

  /** The version `check_schema_version` records on a database without a version table. */
  const WrittenInitialVersion := 1

  /** The version that lets every migration run on such a database. */
  const InitialVersion := 0

  /** The keys of `migrations`, in `sorted` order. */
  const MigrationKeys: seq<int> := [1, 2]

  /** `version` is the primary key: no two rows share one. */
  predicate DistinctRows(rows: seq<int>)
  {
    forall i, j :: 0 <= i < j < |rows| ==> rows[i] != rows[j]
  }

  /** Version rows exist only in an existing version table, and never repeat. */
  predicate Consistent(db: Db)
  {
    && (VersionTable !in db.tables ==> db.versions == [])
    && DistinctRows(db.versions)
  }

  predicate Increasing(keys: seq<int>)
  {
    forall i, j :: 0 <= i < j < |keys| ==> keys[i] < keys[j]
  }

  // ------------------------------------------------------ schema version

  /** `MAX(version)` over a non-empty table. */
  function Highest(rows: seq<int>): (r: int)
    requires rows != []
    ensures r in rows
    ensures forall v :: v in rows ==> v <= r
  {
    if |rows| == 1 then rows[0]
    else
      var rest := Highest(rows[1..]);
      assert rows == [rows[0]] + rows[1..];
      if rows[0] >= rest then rows[0] else rest
  }

  /** `result.scalar() or 0`: the largest recorded version, 0 for an empty table. */
  function CurrentVersion(rows: seq<int>): (r: int)
    ensures rows == [] ==> r == 0
    ensures rows != [] ==> r in rows && forall v :: v in rows ==> v <= r
  {
    if rows == [] then 0 else Highest(rows)
  }

  /**
   * `check_schema_version`: a database without a version table gets one
   * holding `initial`, which is returned; otherwise the current version is.
   */
  function SchemaVersion(db: Db, initial: int): (r: (Db, int))
    requires Consistent(db)
    ensures Consistent(r.0) && VersionTable in r.0.tables
    ensures r.1 == CurrentVersion(r.0.versions)
    ensures VersionTable in db.tables ==> r.0 == db
    ensures VersionTable !in db.tables ==> r.0.versions == [initial] && r.1 == initial
    ensures forall t :: t in db.tables ==> t in r.0.tables && r.0.tables[t] == db.tables[t]
    ensures r.0.indexes == db.indexes
  {
    if VersionTable !in db.tables then
      (Db(db.tables[VersionTable := VersionColumns], [initial], db.indexes), initial)
    else
      (db, CurrentVersion(db.versions))
  }

  /** Asking twice gives the same answer and changes nothing more. */
  lemma SchemaVersionStable(db: Db, initial: int)
    requires Consistent(db)
    ensures var (d, v) := SchemaVersion(db, initial);
            SchemaVersion(d, initial) == (d, v)
  {
  }

  // ------------------------------------------------------ adding columns

  /** `ALTER TABLE table ADD COLUMN column` as SQLite answers it. */
  function AddColumn(db: Db, table: string, column: string): (r: Outcome)
    ensures r.raised == None <==> table in db.tables && column !in db.tables[table]
    ensures r.raised.Some? ==> r.db == db
    ensures r.raised == None ==> r.db.tables == db.tables[table := db.tables[table] + {column}]
    ensures r.db.versions == db.versions && r.db.indexes == db.indexes
  {
    if table !in db.tables then Outcome(db, Some(NoSuchTable(table)))
    else if column in db.tables[table] then Outcome(db, Some(DuplicateColumn(column)))
    else Outcome(db.(tables := db.tables[table := db.tables[table] + {column}]), None)
  }

  /** `"duplicate column name" in str(e).lower()`: the error a migration swallows. */
  predicate Tolerated(e: SqlError)
  {
    e.DuplicateColumn?
  }

  /** A column-adding statement inside `try`, with the duplicate-column error swallowed. */
  function Tolerant(o: Outcome): Outcome
  {
    if o.raised.Some? && Tolerated(o.raised.value) then Outcome(o.db, None) else o
  }

  /**
   * Adding a column the tolerant way fails only when the table is missing;
   * otherwise the column is there afterwards, whether or not it was before,
   * and nothing else changes.
   */
  lemma TolerantAdd(db: Db, table: string, column: string)
    ensures var r := Tolerant(AddColumn(db, table, column));
            && (r.raised.Some? <==> table !in db.tables)
            && (r.raised.Some? ==> r.db == db && r.raised == Some(NoSuchTable(table)))
            && (r.raised.None? ==> column in r.db.tables[table])
            && (r.raised.None? && column in db.tables[table] ==> r.db == db)
            && r.db.tables.Keys == db.tables.Keys
            && (forall t :: t in db.tables && t != table ==> r.db.tables[t] == db.tables[t])
            && r.db.versions == db.versions && r.db.indexes == db.indexes
  {
  }

  /** `migrate_v1_to_v2`: add `thumbnails.extra_data`; the table must exist. */
  function V1ToV2(db: Db): Outcome
  {
    Tolerant(AddColumn(db, ThumbnailsTable, ExtraData))
  }

  /** The `metadata.category` part of `migrate_v2_to_v3`, with its index. */
  function AddCategory(db: Db): Outcome
  {
    var o := AddColumn(db, MetadataTable, Category);
    if o.raised.None? then Outcome(o.db.(indexes := o.db.indexes + {CategoryIndex}), None)
    else Tolerant(o)
  }

  /**
   * `migrate_v2_to_v3`: add `entities.last_accessed` and `metadata.category`
   * (with its index), each only when its table exists and lacks the column.
   */
  function V2ToV3(db: Db): Outcome
  {
    var afterEntities :=
      if EntitiesTable in db.tables && LastAccessed !in db.tables[EntitiesTable]
      then Tolerant(AddColumn(db, EntitiesTable, LastAccessed))
      else Outcome(db, None);
    if afterEntities.raised.Some? then afterEntities
    else if MetadataTable in db.tables && Category !in afterEntities.db.tables[MetadataTable]
    then AddCategory(afterEntities.db)
    else afterEntities
  }

  /**
   * `migrate_v2_to_v3` never raises; afterwards every one of its two tables
   * that exists has its column, and the category index exists whenever it
   * added the category column.
   */
  lemma V2ToV3Adds(db: Db)
    ensures var r := V2ToV3(db);
            && r.raised.None?
            && r.db.tables.Keys == db.tables.Keys
            && (EntitiesTable in db.tables ==> LastAccessed in r.db.tables[EntitiesTable])
            && (MetadataTable in db.tables ==> Category in r.db.tables[MetadataTable])
            && (MetadataTable in db.tables && Category !in db.tables[MetadataTable] ==> CategoryIndex in r.db.indexes)
            && (forall t :: t in db.tables && t != EntitiesTable && t != MetadataTable ==> r.db.tables[t] == db.tables[t])
            && r.db.versions == db.versions
  {
  }

  /**
   * `migrate_database`: add `thumbnails.extra_data` when the table exists
   * and lacks it.  It never raises.
   */
  function MigratedDatabase(db: Db): (r: Outcome)
    ensures r.raised.None?
    ensures r.db.tables.Keys == db.tables.Keys
    ensures ThumbnailsTable in db.tables ==> ExtraData in r.db.tables[ThumbnailsTable]
    ensures forall t :: t in db.tables && t != ThumbnailsTable ==> r.db.tables[t] == db.tables[t]
    ensures r.db.versions == db.versions && r.db.indexes == db.indexes
  {
    if ThumbnailsTable in db.tables && ExtraData !in db.tables[ThumbnailsTable]
    then Tolerant(AddColumn(db, ThumbnailsTable, ExtraData))
    else Outcome(db, None)
  }

  // ------------------------------------------------------ the migration loop

  /** The migration stored under `key`. */
  function Migration(db: Db, key: int): (r: Outcome)
    requires key in MigrationKeys
    ensures r.db.versions == db.versions
    ensures r.raised.Some? ==> r.raised.value.NoSuchTable?
    ensures VersionTable in db.tables ==> VersionTable in r.db.tables
  {
    if key == 1 then V1ToV2(db) else (V2ToV3Adds(db); V2ToV3(db))
  }

  /** `INSERT INTO schema_version (version) VALUES (key)`. */
  function Record(db: Db, key: int): (r: Outcome)
    ensures r.raised.Some? <==> key in db.versions
    ensures r.raised.None? ==> r.db == db.(versions := db.versions + [key])
    ensures r.raised.Some? ==> r.db == db
  {
    if key in db.versions then Outcome(db, Some(DuplicateVersion(key)))
    else Outcome(db.(versions := db.versions + [key]), None)
  }

  /** One turn of the loop: a key above `current` runs its migration and is recorded. */
  function Step(db: Db, key: int, current: int): Outcome
    requires key in MigrationKeys
  {
    if key <= current then Outcome(db, None)
    else
      var migrated := Migration(db, key);
      if migrated.raised.Some? then migrated else Record(migrated.db, key)
  }

  /** The loop over `keys`, in order, stopping at the first exception. */
  function RunKeys(db: Db, keys: seq<int>, current: int): Outcome
    requires forall k :: k in keys ==> k in MigrationKeys
  {
    if keys == [] then Outcome(db, None)
    else
      var before := RunKeys(db, keys[..|keys| - 1], current);
      if before.raised.Some? then before else Step(before.db, keys[|keys| - 1], current)
  }

  /** The keys above `current`, in order. */
  function Pending(keys: seq<int>, current: int): (r: seq<int>)
    ensures forall k :: k in r <==> k in keys && k > current
  {
    if keys == [] then []
    else
      var last := keys[|keys| - 1];
      assert keys == keys[..|keys| - 1] + [last];
      Pending(keys[..|keys| - 1], current) + (if last > current then [last] else [])
  }

  /** `apply_migrations`, with `initial` as the version a new version table starts at. */
  function Applied(db: Db, initial: int): Outcome
    requires Consistent(db)
  {
    var (checked, current) := SchemaVersion(db, initial);
    RunKeys(checked, MigrationKeys, current)
  }

  /**
   * Running increasing keys from a table whose rows are all below every
   * pending key: nothing but a missing table can stop the loop, the rows
   * recorded are exactly the pending keys in order, and they stay distinct.
   */
  lemma {:induction false} RunKeysRecords(db: Db, keys: seq<int>, current: int)
    requires forall k :: k in keys ==> k in MigrationKeys
    requires Increasing(keys) && DistinctRows(db.versions)
    requires forall v, k :: v in db.versions && k in keys && k > current ==> v < k
    ensures var r := RunKeys(db, keys, current);
            && (r.raised.Some? ==> r.raised.value.NoSuchTable?)
            && (r.raised.None? ==> r.db.versions == db.versions + Pending(keys, current))
            && DistinctRows(r.db.versions)
            && (VersionTable in db.tables ==> VersionTable in r.db.tables)
  {
    if keys != [] {
      var prefix := keys[..|keys| - 1];
      var last := keys[|keys| - 1];
      assert keys == prefix + [last];
      assert forall k :: k in prefix ==> k in keys && k < last;
      RunKeysRecords(db, prefix, current);
      var before := RunKeys(db, prefix, current);
      if before.raised.None? && last > current {
        var migrated := Migration(before.db, last);
        if migrated.raised.None? {
          var rows := migrated.db.versions;
          assert rows == db.versions + Pending(prefix, current);
          forall v | v in rows
            ensures v < last
          {
            if v !in db.versions {
              assert v in Pending(prefix, current);
            }
          }
          assert last !in rows;
          var recorded := rows + [last];
          forall i, j | 0 <= i < j < |recorded|
            ensures recorded[i] != recorded[j]
          {
            if j == |rows| {
              assert recorded[i] in rows;
            } else {
              assert recorded[i] == rows[i] && recorded[j] == rows[j];
            }
          }
        }
      }
    }
  }

  /**
   * What `apply_migrations` does to a consistent database: unless a
   * migration meets a missing table, every key above the checked version
   * runs once, in ascending order, and is appended to `schema_version`,
   * which stays consistent.
   */
  lemma AppliedRecordsPending(db: Db, initial: int)
    requires Consistent(db)
    ensures var (checked, current) := SchemaVersion(db, initial);
            var r := Applied(db, initial);
            && (r.raised.Some? ==> r.raised.value.NoSuchTable?)
            && (r.raised.None? ==> r.db.versions == checked.versions + Pending(MigrationKeys, current))
            && Consistent(r.db)
  {
    var (checked, current) := SchemaVersion(db, initial);
    RunKeysRecords(checked, MigrationKeys, current);
  }

  /** After a successful run no migration is pending: running again changes nothing. */
  lemma AppliedTwice(db: Db, initial: int)
    requires Consistent(db)
    requires Applied(db, initial).raised.None?
    ensures var d := Applied(db, initial).db;
            Consistent(d) && Applied(d, initial) == Outcome(d, None)
  {
    var (checked, current) := SchemaVersion(db, initial);
    AppliedRecordsPending(db, initial);
    var d := Applied(db, initial).db;
    var now := CurrentVersion(d.versions);
    assert VersionTable in d.tables by {
      RunKeysRecords(checked, MigrationKeys, current);
    }
    if current < 2 {
      assert 2 in Pending(MigrationKeys, current);
      assert 2 in d.versions;
    } else {
      assert current in checked.versions;
      assert current in d.versions;
    }
    assert now >= 2;
    assert MigrationKeys[..1] == [1];
    assert RunKeys(d, MigrationKeys[..1], now) == Outcome(d, None);
  }

  // ------------------------------------------------------ a fresh database

  /** A database built before versions were tracked: tables exist, `schema_version` does not. */
  predicate Untracked(db: Db)
  {
    && VersionTable !in db.tables && db.versions == []
    && ThumbnailsTable in db.tables && ExtraData !in db.tables[ThumbnailsTable]
  }

  /**
   * As written, such a database is recorded at version 1, so the migration
   * keyed 1 is skipped: `thumbnails.extra_data` is still missing afterwards,
   * while `schema_version` claims both migrations.
   */
  lemma UntrackedSkipsFirstMigration(db: Db)
    requires Untracked(db)
    ensures var r := Applied(db, WrittenInitialVersion);
            && r.raised.None?
            && ThumbnailsTable in r.db.tables && ExtraData !in r.db.tables[ThumbnailsTable]
            && r.db.versions == [1, 2]
  {
    var (checked, current) := SchemaVersion(db, WrittenInitialVersion);
    assert current == 1;
    assert MigrationKeys[..1] == [1];
    assert RunKeys(checked, MigrationKeys[..1], current) == Outcome(checked, None);
    V2ToV3Adds(checked);
  }

  /**
   * Starting a new version table at 0 runs both migrations on such a
   * database: `thumbnails.extra_data` exists afterwards.
   */
  lemma UntrackedRunsEveryMigration(db: Db)
    requires Untracked(db)
    ensures var r := Applied(db, InitialVersion);
            && r.raised.None?
            && ThumbnailsTable in r.db.tables && ExtraData in r.db.tables[ThumbnailsTable]
            && r.db.versions == [0, 1, 2]
  {
    var (checked, current) := SchemaVersion(db, InitialVersion);
    assert current == 0 && checked.versions == [0];
    assert MigrationKeys[..1] == [1] && MigrationKeys[..1][..0] == [];
    TolerantAdd(checked, ThumbnailsTable, ExtraData);
    var added := V1ToV2(checked);
    assert added.raised.None? && ExtraData in added.db.tables[ThumbnailsTable];
    assert RunKeys(checked, [], current) == Outcome(checked, None);
    assert Step(checked, 1, current) == Record(added.db, 1);
    var first := RunKeys(checked, MigrationKeys[..1], current);
    assert first == Record(added.db, 1);
    assert first.db.versions == [0, 1];
    V2ToV3Adds(first.db);
  }

  // ------------------------------------------------------ the engine

  /** A database engine: the schema of its file, changed statement by statement. */
  class Engine {
    var tables: map<string, set<string>>
    var versions: seq<int>
    var indexes: set<string>

    function State(): Db
      reads this
    {
      Db(tables, versions, indexes)
    }

    constructor (db: Db)
      ensures State() == db
    {
      tables := db.tables;
      versions := db.versions;
      indexes := db.indexes;
    }

    /** `ALTER TABLE table ADD COLUMN column`. */
    method AlterAddColumn(table: string, column: string) returns (raised: Option<SqlError>)
      modifies this`tables
      ensures Outcome(State(), raised) == AddColumn(old(State()), table, column)
    {
      if table !in tables {
        return Some(NoSuchTable(table));
      }
      if column in tables[table] {
        return Some(DuplicateColumn(column));
      }
      tables := tables[table := tables[table] + {column}];
      return None;
    }

    /** `migrate_v1_to_v2`. */
    method MigrateV1ToV2() returns (raised: Option<SqlError>)
      modifies this`tables
      ensures Outcome(State(), raised) == V1ToV2(old(State()))
    {
      raised := AlterAddColumn(ThumbnailsTable, ExtraData);
      if raised.Some? && Tolerated(raised.value) {
        raised := None;
      }
    }

    /** `migrate_v2_to_v3`: the table names are read once, before either change. */
    method MigrateV2ToV3() returns (raised: Option<SqlError>)
      modifies this`tables, this`indexes
      ensures Outcome(State(), raised) == V2ToV3(old(State()))
    {
      var names := tables.Keys;
      if EntitiesTable in names && LastAccessed !in tables[EntitiesTable] {
        // The column is known to be absent, so the duplicate-column handler is never reached.
        var e := AlterAddColumn(EntitiesTable, LastAccessed);
        assert e.None?;
      }
      if MetadataTable in names && Category !in tables[MetadataTable] {
        var e := AlterAddColumn(MetadataTable, Category);
        assert e.None?;
        indexes := indexes + {CategoryIndex};
      }
      return None;
    }

    /** `migrate_database`. */
    method MigrateDatabase() returns (raised: Option<SqlError>)
      modifies this`tables
      ensures Outcome(State(), raised) == MigratedDatabase(old(State()))
    {
      raised := None;
      if ThumbnailsTable in tables && ExtraData !in tables[ThumbnailsTable] {
        // The column is known to be absent, so the duplicate-column handler is never reached.
        raised := AlterAddColumn(ThumbnailsTable, ExtraData);
        assert raised.None?;
      }
    }

    /** `check_schema_version`, a new version table starting at `InitialVersion`. */
    method CheckSchemaVersion() returns (version: int)
      requires Consistent(State())
      modifies this`tables, this`versions
      ensures (State(), version) == SchemaVersion(old(State()), InitialVersion)
    {
      if VersionTable !in tables {
        assert versions == [];
        tables := tables[VersionTable := VersionColumns];
        versions := versions + [InitialVersion];
        assert versions == [InitialVersion];
        return InitialVersion;
      }
      return CurrentVersion(versions);
    }

    /** `INSERT INTO schema_version (version) VALUES (key)`. */
    method RecordVersion(key: int) returns (raised: Option<SqlError>)
      modifies this`versions
      ensures Outcome(State(), raised) == Record(old(State()), key)
    {
      if key in versions {
        return Some(DuplicateVersion(key));
      }
      versions := versions + [key];
      return None;
    }

    /** `apply_migrations`. */
    method ApplyMigrations() returns (raised: Option<SqlError>)
      requires Consistent(State())
      modifies this
      ensures Outcome(State(), raised) == Applied(old(State()), InitialVersion)
      ensures Consistent(State())
    {
      AppliedRecordsPending(State(), InitialVersion);
      var current := CheckSchemaVersion();
      ghost var checked := State();
      var i := 0;
      while i < |MigrationKeys|
        invariant 0 <= i <= |MigrationKeys|
        invariant RunKeys(checked, MigrationKeys[..i], current) == Outcome(State(), None)
      {
        var key := MigrationKeys[i];
        assert MigrationKeys[..i + 1][..i] == MigrationKeys[..i];
        if key > current {
          KeyUnrecorded(checked, current, i);
          if key == 1 {
            raised := MigrateV1ToV2();
          } else {
            raised := MigrateV2ToV3();
          }
          if raised.Some? {
            assert RunKeys(checked, MigrationKeys[..i + 1], current) == Outcome(State(), raised);
            RunKeysStops(checked, MigrationKeys, current, i + 1);
            return;
          }
          // Every recorded row is below the key, so the insert never violates the primary key.
          raised := RecordVersion(key);
          assert raised.None?;
        }
        i := i + 1;
      }
      assert MigrationKeys[..i] == MigrationKeys;
      raised := None;
    }
  }

  /** A key the loop reaches above `current` has not been recorded yet. */
  lemma KeyUnrecorded(db: Db, current: int, i: nat)
    requires Consistent(db) && current == CurrentVersion(db.versions)
    requires i < |MigrationKeys| && MigrationKeys[i] > current
    requires RunKeys(db, MigrationKeys[..i], current).raised.None?
    ensures MigrationKeys[i] !in RunKeys(db, MigrationKeys[..i], current).db.versions
  {
    assert forall k :: k in MigrationKeys[..i] ==> k < MigrationKeys[i];
    RunKeysRecords(db, MigrationKeys[..i], current);
  }

  /** Once the loop has raised, the remaining keys change nothing. */
  lemma {:induction false} RunKeysStops(db: Db, keys: seq<int>, current: int, n: nat)
    requires forall k :: k in keys ==> k in MigrationKeys
    requires n <= |keys| && RunKeys(db, keys[..n], current).raised.Some?
    ensures RunKeys(db, keys, current) == RunKeys(db, keys[..n], current)
    decreases |keys| - n
  {
    if n < |keys| {
      assert keys[..n + 1][..n] == keys[..n];
      RunKeysStops(db, keys, current, n + 1);
    } else {
      assert keys[..n] == keys;
    }
  }
}
