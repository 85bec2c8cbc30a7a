/**
 * The registry of per-context databases.  Each storage context (GENERAL,
 * USER, PROJECT) gets its own database file `<dir>/stockshot.db`, where
 * `<dir>` is the context's database directory from the `paths`
 * configuration section.  A legacy layout, in which `<dir>` itself was the
 * database file, is converted on start-up.  Look-ups fall back to GENERAL.
 *
 * The disk is a map from pathlib paths to what sits there; whether a
 * database manager can be opened on a file is a parameter (`Opener`), as are
 * the outcomes of connection tests.
 */
module MultiDatabase {
  import opened Wrappers
  import opened Json
  import Paths
  import PathContext

  type ContextType = PathContext.ContextType

  /** The three contexts, in the order start-up initialises them. */
  const AllContexts: seq<ContextType> := [PathContext.General, PathContext.User, PathContext.Project]

  // ------------------------------------------------------------------ disk

  /** What sits at a path on disk. */
  datatype Node = FileNode | DirNode

  /** A path as pathlib compares paths: its anchor and its components. */
  datatype PathKey = PathKey(absolute: bool, parts: seq<string>)

  function KeyOf(p: string): PathKey
  {
    PathKey(Paths.IsAbsolute(p), Paths.Components(p))
  }

  type Disk = map<PathKey, Node>

  /** Whether `DatabaseManager(file).initialize_database()` succeeds. */
  type Opener = string -> bool

  const DbFileName: string := "stockshot.db"

  /** `str(Path(dir) / "stockshot.db")`. */
  function DbFile(dir: string): string
  {
    Paths.Slash(dir, DbFileName)
  }

  /** `key / name`. */
  function Child(k: PathKey, name: string): PathKey
  {
    PathKey(k.absolute, k.parts + [name])
  }

  /** `old.parent / f"{old.name}.old"`: the name the legacy file is parked under. */
  function TempKey(k: PathKey): PathKey
  {
    if k.parts == [] then PathKey(k.absolute, [".old"])
    else PathKey(k.absolute, k.parts[..|k.parts| - 1] + [k.parts[|k.parts| - 1] + ".old"])
  }

  /** The database file of a directory is the directory's `stockshot.db` child. */
  lemma DbFileIsChild(dir: string)
    ensures KeyOf(DbFile(dir)) == Child(KeyOf(dir), DbFileName)
    ensures Paths.Name(DbFile(dir)) == DbFileName
  {
    Paths.SlashParts(dir, DbFileName);
  }

  /** The three names the layout step touches are three different paths. */
  lemma LayoutNamesDiffer(k: PathKey)
    ensures TempKey(k) != k && Child(k, DbFileName) != k && Child(k, DbFileName) != TempKey(k)
  {
    var t := TempKey(k);
    assert |Child(k, DbFileName).parts| == |k.parts| + 1;
    if k.parts != [] {
      var n := |k.parts|;
      assert |t.parts| == n && t.parts[n - 1] == k.parts[n - 1] + ".old";
      assert |t.parts[n - 1]| == |k.parts[n - 1]| + 4;
    } else {
      assert t.parts[0] != DbFileName;
    }
  }

  /**
   * The layout step for one database directory.  When `dir` is a file (the
   * legacy layout) it is renamed to its temporary name, `dir` is created and
   * the file is moved to `dir/stockshot.db`; renaming onto an existing
   * directory fails.  Otherwise `dir` is created when missing.
   */
  function Layout(k: PathKey, disk: Disk): (r: Option<Disk>)
    ensures r.None? <==> k in disk && disk[k] == FileNode && TempKey(k) in disk && disk[TempKey(k)] == DirNode
    ensures r.Some? ==> k in r.value && r.value[k] == DirNode
    ensures r.Some? && k in disk && disk[k] == FileNode ==>
              Child(k, DbFileName) in r.value && r.value[Child(k, DbFileName)] == FileNode
              && TempKey(k) !in r.value
              && forall q :: q in disk && q != k && q != TempKey(k) && q != Child(k, DbFileName) ==>
                   q in r.value && r.value[q] == disk[q]
    ensures !(k in disk && disk[k] == FileNode) ==> r == Some(disk[k := DirNode])
  {
    LayoutNamesDiffer(k);
    var temp := TempKey(k);
    if k in disk && disk[k] == FileNode then
      if temp in disk && disk[temp] == DirNode then None
      else
        var parked := (disk - {k})[temp := FileNode];
        var made := parked[k := DirNode];
        Some((made - {temp})[Child(k, DbFileName) := FileNode])
    else Some(disk[k := DirNode])
  }

  /**
   * One context at start-up: a falsy directory is skipped, a non-string one
   * makes `Path()` raise (skipped), a failing layout step or database
   * initialisation skips the context.  On success the database file exists
   * and the context is registered with it.
   */
  function InitOne(dbPath: Json, disk: Disk, opens: Opener): (r: (Option<string>, Disk))
    ensures r.0.Some? ==> dbPath.JStr? && r.0.value == DbFile(dbPath.s) && opens(r.0.value)
    ensures r.0.None? ==> r.1 == disk || (dbPath.JStr? && Layout(KeyOf(dbPath.s), disk) == Some(r.1))
  {
    if !Truthy(dbPath) || !dbPath.JStr? then (None, disk)
    else
      var k := KeyOf(dbPath.s);
      match Layout(k, disk)
      case None => (None, disk)
      case Some(d) =>
        var file := DbFile(dbPath.s);
        if opens(file) then (Some(file), d[Child(k, DbFileName) := FileNode]) else (None, d)
  }

  /** The configured database directory of a context (`paths` is a dict here). */
  function DbPathOf(c: ContextType, paths: map<string, Json>): Json
  {
    PathContext.DatabasePath(c, JObj(paths)).value
  }

  /** The contexts of `ctxs` initialised one after the other, the disk threaded through. */
  function InitAll(ctxs: seq<ContextType>, paths: map<string, Json>, disk: Disk, opens: Opener,
                   managers: map<ContextType, string>): (r: (map<ContextType, string>, Disk))
  {
    if ctxs == [] then (managers, disk)
    else
      var c := ctxs[|ctxs| - 1];
      var before := InitAll(ctxs[..|ctxs| - 1], paths, disk, opens, managers);
      var one := InitOne(DbPathOf(c, paths), before.1, opens);
      (if one.0.Some? then before.0[c := one.0.value] else before.0, one.1)
  }

  lemma InitAllSnoc(ctxs: seq<ContextType>, c: ContextType, paths: map<string, Json>, disk: Disk,
                    opens: Opener, managers: map<ContextType, string>)
    ensures var before := InitAll(ctxs, paths, disk, opens, managers);
            var one := InitOne(DbPathOf(c, paths), before.1, opens);
            InitAll(ctxs + [c], paths, disk, opens, managers)
              == (if one.0.Some? then before.0[c := one.0.value] else before.0, one.1)
  {
    assert (ctxs + [c])[..|ctxs|] == ctxs;
  }

  /**
   * Start-up registers a context only with its own directory's database file,
   * and never touches a context it does not list.
   */
  lemma {:induction false} InitRegistersDbFiles(ctxs: seq<ContextType>, paths: map<string, Json>, disk: Disk,
                                                opens: Opener, managers: map<ContextType, string>)
    ensures var m := InitAll(ctxs, paths, disk, opens, managers).0;
            forall c :: c in m ==>
              (c in managers && m[c] == managers[c])
              || (c in ctxs && DbPathOf(c, paths).JStr? && m[c] == DbFile(DbPathOf(c, paths).s) && opens(m[c]))
    ensures forall c :: c in managers ==> c in InitAll(ctxs, paths, disk, opens, managers).0
  {
    if ctxs != [] {
      var init := ctxs[..|ctxs| - 1];
      InitRegistersDbFiles(init, paths, disk, opens, managers);
      assert forall c :: c in init ==> c in ctxs;
    }
  }

  /** A context whose own key is missing shares the GENERAL database file. */
  lemma FallbackSharesGeneralFile(ctxs: seq<ContextType>, paths: map<string, Json>, disk: Disk, opens: Opener)
    requires "user_db_path" !in paths
    ensures var m := InitAll(ctxs, paths, disk, opens, map[]).0;
            PathContext.General in m && PathContext.User in m ==> m[PathContext.User] == m[PathContext.General]
  {
    InitRegistersDbFiles(ctxs, paths, disk, opens, map[]);
    assert DbPathOf(PathContext.User, paths) == DbPathOf(PathContext.General, paths);
  }

  /** A context whose directory is not configured is never registered at start-up. */
  lemma {:induction false} UnconfiguredSkipped(ctxs: seq<ContextType>, c: ContextType, paths: map<string, Json>,
                                               disk: Disk, opens: Opener, managers: map<ContextType, string>)
    requires !Truthy(DbPathOf(c, paths)) && c !in managers
    ensures c !in InitAll(ctxs, paths, disk, opens, managers).0
  {
    if ctxs != [] {
      UnconfiguredSkipped(ctxs[..|ctxs| - 1], c, paths, disk, opens, managers);
    }
  }

  /**
   * A context added by a configuration reload: its directory is created
   * (a file in the way makes `mkdir` raise) and its database opened; no
   * legacy conversion happens here.
   */
  function ReloadOne(dbPath: Json, disk: Disk, opens: Opener): (r: (Option<string>, Disk))
    ensures r.0.Some? ==> dbPath.JStr? && r.0.value == DbFile(dbPath.s) && opens(r.0.value)
  {
    if !Truthy(dbPath) || !dbPath.JStr? then (None, disk)
    else
      var k := KeyOf(dbPath.s);
      if k in disk && disk[k] == FileNode then (None, disk)
      else
        var d := disk[k := DirNode];
        var file := DbFile(dbPath.s);
        if opens(file) then (Some(file), d[Child(k, DbFileName) := FileNode]) else (None, d)
  }

  /** `reload_configuration`'s loop: only contexts missing from the registry are tried. */
  function ReloadAll(ctxs: seq<ContextType>, paths: map<string, Json>, disk: Disk, opens: Opener,
                     managers: map<ContextType, string>): (r: (map<ContextType, string>, Disk))
  {
    if ctxs == [] then (managers, disk)
    else
      var c := ctxs[|ctxs| - 1];
      var before := ReloadAll(ctxs[..|ctxs| - 1], paths, disk, opens, managers);
      if c in before.0 then before
      else
        var one := ReloadOne(DbPathOf(c, paths), before.1, opens);
        (if one.0.Some? then before.0[c := one.0.value] else before.0, one.1)
  }

  lemma ReloadAllSnoc(ctxs: seq<ContextType>, c: ContextType, paths: map<string, Json>, disk: Disk,
                      opens: Opener, managers: map<ContextType, string>)
    ensures var before := ReloadAll(ctxs, paths, disk, opens, managers);
            var one := ReloadOne(DbPathOf(c, paths), before.1, opens);
            ReloadAll(ctxs + [c], paths, disk, opens, managers)
              == if c in before.0 then before
                 else (if one.0.Some? then before.0[c := one.0.value] else before.0, one.1)
  {
    assert (ctxs + [c])[..|ctxs|] == ctxs;
  }

  /** A reload never replaces or drops a registered database. */
  lemma {:induction false} ReloadKeepsRegistered(ctxs: seq<ContextType>, paths: map<string, Json>, disk: Disk,
                                                 opens: Opener, managers: map<ContextType, string>)
    ensures var m := ReloadAll(ctxs, paths, disk, opens, managers).0;
            forall c :: c in managers ==> c in m && m[c] == managers[c]
    ensures var m := ReloadAll(ctxs, paths, disk, opens, managers).0;
            forall c :: c in m && c !in managers ==>
              c in ctxs && DbPathOf(c, paths).JStr? && m[c] == DbFile(DbPathOf(c, paths).s)
  {
    if ctxs != [] {
      var init := ctxs[..|ctxs| - 1];
      var c := ctxs[|ctxs| - 1];
      ReloadKeepsRegistered(init, paths, disk, opens, managers);
      var before := ReloadAll(init, paths, disk, opens, managers);
      if c !in before.0 {
        var one := ReloadOne(DbPathOf(c, paths), before.1, opens);
        assert one.0.Some? ==> DbPathOf(c, paths).JStr? && one.0.value == DbFile(DbPathOf(c, paths).s);
      }
      assert forall x :: x in init ==> x in ctxs;
    }
  }

  // ---------------------------------------------------------------- backups

  /** The name part of `backup_base`, as a plain component. */
  lemma NamePartsArePlain(name: string)
    requires '/' !in name
    ensures '/' !in Paths.Stem(name) && '/' !in Paths.Suffix(name)
  {
    var i := Paths.RFind(name, '.');
    if 0 < i < |name| - 1 {
      assert forall j :: 0 <= j < i ==> name[..i][j] == name[j];
      assert forall j :: 0 <= j < |name| - i ==> name[i..][j] == name[i + j];
    }
  }

  /** `backup_base.parent / f"{backup_base.stem}_{ctx}{backup_base.suffix}"`. */
  function BackupPathFor(backupPath: string, c: ContextType): string
  {
    var name := Paths.Name(backupPath);
    Paths.Slash(Paths.Parent(backupPath), Paths.Stem(name) + "_" + c.Value() + Paths.Suffix(name))
  }

  /** Backing up every context to one requested path gives each context its own file name. */
  lemma BackupPathsDistinct(backupPath: string, c1: ContextType, c2: ContextType)
    requires c1 != c2
    ensures Paths.Name(BackupPathFor(backupPath, c1)) != Paths.Name(BackupPathFor(backupPath, c2))
  {
    var name := Paths.Name(backupPath);
    var stem, suffix := Paths.Stem(name), Paths.Suffix(name);
    NamePartsArePlain(name);
    var dir := Paths.Parent(backupPath);
    TaggedName(stem, c1.Value(), suffix);
    TaggedName(stem, c2.Value(), suffix);
    Paths.SlashName(dir, stem + "_" + c1.Value() + suffix);
    Paths.SlashName(dir, stem + "_" + c2.Value() + suffix);
    TaggedNamesDiffer(stem, c1.Value(), c2.Value(), suffix);
  }

  /** `stem_tag.suffix` built from plain parts is a plain component. */
  lemma TaggedName(stem: string, tag: string, suffix: string)
    requires '/' !in stem && '/' !in suffix && '/' !in tag
    ensures var n := stem + "_" + tag + suffix; n != "" && n != "." && '/' !in n
  {
    var n := stem + "_" + tag + suffix;
    assert n[|stem|] == '_';
  }

  /** Tags with different first letters give different names. */
  lemma TaggedNamesDiffer(stem: string, tag1: string, tag2: string, suffix: string)
    requires tag1 != "" && tag2 != "" && tag1[0] != tag2[0]
    ensures stem + "_" + tag1 + suffix != stem + "_" + tag2 + suffix
  {
    assert (stem + "_" + tag1 + suffix)[|stem| + 1] == tag1[0];
    assert (stem + "_" + tag2 + suffix)[|stem| + 1] == tag2[0];
  }

  /**
   * What a `with get_session(...)` block works on: the database the manager
   * selected, unless the connection layer raises while the block runs (the
   * pool stays exhausted past its timeout, the database stays locked after
   * the retries, or the commit keeps failing).  A raising block is rolled
   * back, so its caller sees only the error.
   */
  function SessionOutcome(selected: Result<string>, raised: Option<string>): (r: Result<string>)
    ensures raised.Some? ==> r == Err(raised.value)
    ensures raised.None? ==> r == selected
  {
    if raised.Some? then Err(raised.value) else selected
  }

  // ---------------------------------------------------------------- registry

  class MultiDatabaseManager {
    const contexts: PathContext.PathContextManager
    /** The registered database managers, each named by the database file it opened. */
    var managers: map<ContextType, string>
    var currentContext: ContextType
    var currentPath: Option<string>

    constructor (contexts: PathContext.PathContextManager)
      ensures this.contexts == contexts
      ensures managers == map[] && currentContext == PathContext.General && currentPath == None
    {
      this.contexts := contexts;
      managers := map[];
      currentContext := PathContext.General;
      currentPath := None;
    }

    /**
     * `initialize_databases`: GENERAL, USER and PROJECT in that order; a
     * `paths` value that is not a dict raises before any change, and the run
     * fails when no GENERAL database is registered afterwards.
     */
    method InitializeDatabases(paths: Json, disk: Disk, opens: Opener) returns (disk': Disk, error: Option<string>)
      modifies this`managers
      ensures !paths.JObj? ==> error.Some? && managers == old(managers) && disk' == disk
      ensures paths.JObj? ==> (managers, disk') == InitAll(AllContexts, paths.m, disk, opens, old(managers))
      ensures error.None? <==> paths.JObj? && PathContext.General in managers
    {
      if !paths.JObj? {
        return disk, Some("AttributeError: 'get'");
      }
      disk' := disk;
      var i := 0;
      while i < |AllContexts|
        invariant 0 <= i <= |AllContexts|
        invariant (managers, disk') == InitAll(AllContexts[..i], paths.m, disk, opens, old(managers))
      {
        var c := AllContexts[i];
        InitAllSnoc(AllContexts[..i], c, paths.m, disk, opens, old(managers));
        assert AllContexts[..i + 1] == AllContexts[..i] + [c];
        var dir := PathContext.DatabasePath(c, paths).value;
        if Truthy(dir) && dir.JStr? {
          var k := KeyOf(dir.s);
          var laid := Layout(k, disk');
          if laid.Some? {
            var file := DbFile(dir.s);
            if opens(file) {
              disk' := laid.value[Child(k, DbFileName) := FileNode];
              managers := managers[c := file];
            } else {
              disk' := laid.value;
            }
          }
        }
        i := i + 1;
      }
      assert AllContexts[..i] == AllContexts;
      if PathContext.General !in managers {
        error := Some("RuntimeError: Failed to initialize general database - cannot proceed");
      } else {
        error := None;
      }
    }

    /** `set_current_path`: the context is recomputed only for a different path. */
    method SetCurrentPath(path: string)
      modifies this`currentPath, this`currentContext, contexts`contextCache
      ensures old(currentPath) == Some(path) ==>
                currentPath == old(currentPath) && currentContext == old(currentContext)
                && contexts.contextCache == old(contexts.contextCache)
      ensures currentPath == Some(path)
      ensures old(currentPath) != Some(path) ==> currentContext == old(contexts.Answer(path))
      ensures forall q :: contexts.Answer(q) == old(contexts.Answer(q))
      ensures old(contexts.Valid()) ==> contexts.Valid()
      ensures old(currentPath) != Some(path) && old(contexts.Valid()) ==>
                currentContext == PathContext.ContextOf(path, contexts.userPaths, contexts.projectPaths, contexts.resolve)
    {
      if Some(path) != currentPath {
        currentPath := Some(path);
        currentContext := contexts.GetContextForPath(path);
      }
    }

    /** `get_database_manager`: the requested (or current) context, else GENERAL, else an error. */
    function GetDatabaseManager(context: Option<ContextType>): (r: Result<string>)
      reads this
      ensures var target := context.GetOr(currentContext);
              && (target in managers ==> r == Ok(managers[target]))
              && (target !in managers && PathContext.General in managers ==> r == Ok(managers[PathContext.General]))
              && (r.Err? <==> target !in managers && PathContext.General !in managers)
    {
      var target := context.GetOr(currentContext);
      if target in managers then Ok(managers[target])
      else if PathContext.General in managers then Ok(managers[PathContext.General])
      else Err("RuntimeError: No database contexts available")
    }

    /** A registry holding GENERAL always answers. */
    lemma GeneralAlwaysAnswers(context: Option<ContextType>)
      requires PathContext.General in managers
      ensures GetDatabaseManager(context).Ok?
      ensures GetDatabaseManager(context).value in managers.Values
    {
    }

    /**
     * `get_session`: a non-empty `path` decides the context, overriding
     * `context`; otherwise the given or current context is used.
     */
    method GetSession(context: Option<ContextType>, path: Option<string>) returns (r: Result<string>)
      modifies contexts`contextCache
      ensures path.Some? && path.value != "" ==> r == GetDatabaseManager(Some(old(contexts.Answer(path.value))))
      ensures forall q :: contexts.Answer(q) == old(contexts.Answer(q))
      ensures old(contexts.Valid()) ==> contexts.Valid()
      ensures old(contexts.Valid()) && path.Some? && path.value != "" ==>
                r == GetDatabaseManager(Some(PathContext.ContextOf(path.value, contexts.userPaths,
                                                                    contexts.projectPaths, contexts.resolve)))
      ensures path.None? || path.value == "" ==>
                r == GetDatabaseManager(context) && contexts.contextCache == old(contexts.contextCache)
    {
      var target: ContextType;
      if path.Some? && path.value != "" {
        target := contexts.GetContextForPath(path.value);
      } else {
        target := context.GetOr(currentContext);
      }
      r := GetDatabaseManager(Some(target));
    }

    /** `get_session_for_path`: the path's context, with the usual fall-back. */
    method GetSessionForPath(path: string) returns (r: Result<string>)
      modifies contexts`contextCache
      ensures r == GetDatabaseManager(Some(old(contexts.Answer(path))))
      ensures forall q :: contexts.Answer(q) == old(contexts.Answer(q))
      ensures old(contexts.Valid()) ==> contexts.Valid()
      ensures old(contexts.Valid()) ==>
                r == GetDatabaseManager(Some(PathContext.ContextOf(path, contexts.userPaths,
                                                                    contexts.projectPaths, contexts.resolve)))
    {
      var c := contexts.GetContextForPath(path);
      r := GetDatabaseManager(Some(c));
    }

    /** `test_connection`: one context's test, or, for all, the GENERAL result alone. */
    function TestConnection(context: Option<ContextType>, works: string -> bool): (r: bool)
      reads this
      ensures context.Some? ==> (r <==> context.value in managers && works(managers[context.value]))
      ensures context.None? ==> (r <==> PathContext.General in managers && works(managers[PathContext.General]))
    {
      var c := context.GetOr(PathContext.General);
      c in managers && works(managers[c])
    }

    /**
     * The target path `create_backup` hands to each context's manager: the
     * given path for a single context, a per-context name when backing up
     * all, and the default when no (or an empty) path is given.
     */
    function BackupTargets(context: Option<ContextType>, backupPath: Option<string>): (r: map<ContextType, Option<string>>)
      reads this
      ensures r.Keys <= managers.Keys
      ensures context.Some? ==> r.Keys == (if context.value in managers then {context.value} else {})
      ensures context.Some? && context.value in managers ==> r[context.value] == backupPath
      ensures context.None? ==> r.Keys == managers.Keys
      ensures context.None? && backupPath.Some? && backupPath.value != "" ==>
                forall c :: c in r ==> r[c] == Some(BackupPathFor(backupPath.value, c))
    {
      if context.Some? then
        (if context.value in managers then map[context.value := backupPath] else map[])
      else
        map c | c in managers ::
          if backupPath.Some? && backupPath.value != "" then Some(BackupPathFor(backupPath.value, c)) else None
    }

    /** `close`: every manager is closed and the registry emptied. */
    method Close()
      modifies this`managers
      ensures managers == map[]
    {
      managers := map[];
    }

    /**
     * `reload_configuration`: the path roots are re-read, then each context
     * still missing from the registry is tried.  A `paths` value that is not
     * a dict raises when some context is missing.
     */
    method ReloadConfiguration(userConfig: Json, projectConfig: Json, paths: Json, disk: Disk, opens: Opener)
      returns (disk': Disk, error: Option<string>)
      modifies this`managers, contexts
      ensures if PathContext.ReloadSucceeds(userConfig, projectConfig) then
                contexts.userPaths == PathContext.ConfiguredPaths(userConfig).value
                && contexts.projectPaths == PathContext.ConfiguredPaths(projectConfig).value
                && contexts.contextCache == map[]
              else
                contexts.userPaths == JArr([]) && contexts.projectPaths == JArr([])
                && contexts.contextCache == old(contexts.contextCache)
      ensures paths.JObj? ==> error.None? && (managers, disk') == ReloadAll(AllContexts, paths.m, disk, opens, old(managers))
      ensures !paths.JObj? ==> managers == old(managers) && disk' == disk
      ensures !paths.JObj? ==> (error.Some? <==> exists c :: c in AllContexts && c !in old(managers))
    {
      contexts.ReloadConfiguredPaths(userConfig, projectConfig);
      disk', error := disk, None;
      if !paths.JObj? {
        if exists c :: c in AllContexts && c !in managers {
          error := Some("AttributeError: 'get'");
        }
      } else {
        disk' := ReloadMissing(paths, disk, opens);
      }
    }

    /** The loop of `reload_configuration` over the contexts, `paths` being a dict. */
    method ReloadMissing(paths: Json, disk: Disk, opens: Opener) returns (disk': Disk)
      requires paths.JObj?
      modifies this`managers
      ensures (managers, disk') == ReloadAll(AllContexts, paths.m, disk, opens, old(managers))
    {
      disk' := disk;
      var i := 0;
      while i < |AllContexts|
        invariant 0 <= i <= |AllContexts|
        invariant (managers, disk') == ReloadAll(AllContexts[..i], paths.m, disk, opens, old(managers))
      {
        var c := AllContexts[i];
        ReloadAllSnoc(AllContexts[..i], c, paths.m, disk, opens, old(managers));
        assert AllContexts[..i + 1] == AllContexts[..i] + [c];
        if c !in managers {
          var one := ReloadOne(PathContext.DatabasePath(c, paths).value, disk', opens);
          disk' := one.1;
          if one.0.Some? {
            managers := managers[c := one.0.value];
          }
        }
        i := i + 1;
      }
      assert AllContexts[..i] == AllContexts;
    }
  }
}
