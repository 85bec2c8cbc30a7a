/**
 * Routing of a path to a storage context.  A path under one of the user's
 * configured directories belongs to the USER context, else one under a
 * project directory to PROJECT, else to GENERAL.  Each context has its own
 * database and thumbnail directory, read from the `paths` configuration
 * section with a fall-back to the general entries.
 *
 * `Path.resolve()` depends on the file system (symbolic links, the working
 * directory) and is a parameter: `None` stands for a resolution that raises.
 */
module PathContext {
  import opened Wrappers
  import opened Json
  import Paths
  import Text

  datatype ContextType = General | User | Project
  {
    /** The enum's `.value`. */
    function Value(): string
    {
      match this
      case General => "general"
      case User => "user"
      case Project => "project"
    }
  }

  type Resolver = string -> Option<string>

  /** One configured root contains `path`: it is a string, it resolves, and `relative_to` succeeds. */
  predicate RootContains(root: Json, path: string, resolve: Resolver)
  {
    root.JStr? && resolve(root.s).Some? && Paths.IsUnder(path, resolve(root.s).value)
  }

  /**
   * Some root among the configured value contains `path`.  The value is
   * iterated as Python iterates it; entries that are not strings or do not
   * resolve are skipped.
   */
  predicate UnderAny(path: string, roots: Json, resolve: Resolver)
  {
    match roots
    case JArr(a) => exists i :: 0 <= i < |a| && RootContains(a[i], path, resolve)
    case JObj(m) => exists k :: k in m && RootContains(JStr(k), path, resolve)
    case JStr(s) => exists i :: 0 <= i < |s| && RootContains(JStr([s[i]]), path, resolve)
    case _ => false
  }

  /** `_determine_context` on a resolved path: user roots first, then project roots. */
  function DetermineContext(path: string, userPaths: Json, projectPaths: Json, resolve: Resolver): ContextType
  {
    if UnderAny(path, userPaths, resolve) then User
    else if UnderAny(path, projectPaths, resolve) then Project
    else General
  }

  /** A path below a user root is USER even when a project root also contains it. */
  lemma UserBeforeProject(path: string, userRoot: string, projectRoot: string,
                          userPaths: Json, projectPaths: Json, resolve: Resolver)
    requires Visits(userPaths, JStr(userRoot)) && Visits(projectPaths, JStr(projectRoot))
    requires resolve(userRoot).Some? && Paths.IsUnder(path, resolve(userRoot).value)
    ensures DetermineContext(path, userPaths, projectPaths, resolve) == User
  {
    VisitedRootCounts(userPaths, JStr(userRoot), path, resolve);
  }

  /** A configured root is in its own context (`relative_to` accepts equality). */
  lemma RootIsInItsContext(userRoot: string, userPaths: Json, projectPaths: Json, resolve: Resolver)
    requires Visits(userPaths, JStr(userRoot)) && resolve(userRoot).Some?
    ensures DetermineContext(resolve(userRoot).value, userPaths, projectPaths, resolve) == User
  {
    Paths.UnderReflexive(resolve(userRoot).value);
    VisitedRootCounts(userPaths, JStr(userRoot), resolve(userRoot).value, resolve);
  }

  /** Any visited entry that contains the path makes `UnderAny` hold. */
  lemma VisitedRootCounts(roots: Json, x: Json, path: string, resolve: Resolver)
    requires Visits(roots, x) && RootContains(x, path, resolve)
    ensures UnderAny(path, roots, resolve)
  {
    match roots
    case JArr(a) =>
      var i :| 0 <= i < |a| && a[i] == x;
    case JObj(m) =>
      assert x.s in m;
    case JStr(s) =>
      var i :| 0 <= i < |s| && s[i] == x.s[0];
      assert JStr([s[i]]) == x;
  }

  /** With no usable root at all, every path is GENERAL. */
  lemma NoRootsGeneral(path: string, userPaths: Json, projectPaths: Json, resolve: Resolver)
    requires !HasLen(userPaths) || userPaths == JArr([])
    requires !HasLen(projectPaths) || projectPaths == JArr([])
    ensures DetermineContext(path, userPaths, projectPaths, resolve) == General
  {
  }

  /** `get_context_for_path` without the cache: "" and unresolvable paths are GENERAL. */
  function ContextOf(path: string, userPaths: Json, projectPaths: Json, resolve: Resolver): (c: ContextType)
    ensures path == "" ==> c == General
    ensures path != "" && resolve(path).None? ==> c == General
    ensures c == User ==> path != "" && resolve(path).Some? && UnderAny(resolve(path).value, userPaths, resolve)
    ensures c == Project ==>
              (path != "" && resolve(path).Some?
               && !UnderAny(resolve(path).value, userPaths, resolve)
               && UnderAny(resolve(path).value, projectPaths, resolve))
  {
    if path == "" then General
    else match resolve(path)
      case None => General
      case Some(p) => DetermineContext(p, userPaths, projectPaths, resolve)
  }

  /** The value under `key` of a `paths` section, `d.get(key, default)`; a non-dict raises. */
  function PathsGet(paths: Json, key: string, default: Json): (r: Result<Json>)
    ensures r.Ok? <==> paths.JObj?
    ensures paths.JObj? && key in paths.m ==> r == Ok(paths.m[key])
    ensures paths.JObj? && key !in paths.m ==> r == Ok(default)
  {
    if paths.JObj? then Ok(DictGet(paths, key, default)) else Err("AttributeError: 'get'")
  }

  /** `get_database_path`: the context's own key, else `gen_db_directory`, else "". */
  function DatabasePath(context: ContextType, paths: Json): (r: Result<Json>)
    ensures r.Ok? <==> paths.JObj?
    ensures paths.JObj? ==>
              var m := paths.m;
              var general := if "gen_db_directory" in m then m["gen_db_directory"] else JStr("");
              match context
              case General => r.value == general
              case User => r.value == if "user_db_path" in m then m["user_db_path"] else general
              case Project => r.value == if "project_db_path" in m then m["project_db_path"] else general
  {
    var general := PathsGet(paths, "gen_db_directory", JStr(""));
    if general.Err? then general
    else match context
      case User => PathsGet(paths, "user_db_path", general.value)
      case Project => PathsGet(paths, "project_db_path", general.value)
      case General => general
  }

  /** `get_thumbnail_path`: the context's own key, else `gen_thumbnail_directory`, else "". */
  function ThumbnailPath(context: ContextType, paths: Json): (r: Result<Json>)
    ensures r.Ok? <==> paths.JObj?
    ensures paths.JObj? ==>
              var m := paths.m;
              var general := if "gen_thumbnail_directory" in m then m["gen_thumbnail_directory"] else JStr("");
              match context
              case General => r.value == general
              case User => r.value == if "user_thumbnail_path" in m then m["user_thumbnail_path"] else general
              case Project => r.value == if "project_thumbnail_path" in m then m["project_thumbnail_path"] else general
  {
    var general := PathsGet(paths, "gen_thumbnail_directory", JStr(""));
    if general.Err? then general
    else match context
      case User => PathsGet(paths, "user_thumbnail_path", general.value)
      case Project => PathsGet(paths, "project_thumbnail_path", general.value)
      case General => general
  }

  /** A context without its own database entry shares the general database directory. */
  lemma MissingKeyFallsBack(context: ContextType, m: map<string, Json>)
    requires context != General
    requires "user_db_path" !in m && "project_db_path" !in m
    ensures DatabasePath(context, JObj(m)) == DatabasePath(General, JObj(m))
  {
  }

  datatype DatabaseConfig = DatabaseConfig(contextType: string, databasePath: string, databaseFile: string)

  /** The database file of a context: `<dir>/stockshot.db`; a directory that is not a string raises. */
  function DatabaseConfigFor(context: ContextType, paths: Json): (r: Result<DatabaseConfig>)
    ensures r.Ok? <==> DatabasePath(context, paths).Ok? && DatabasePath(context, paths).value.JStr?
    ensures r.Ok? ==> r.value.contextType == context.Value()
                      && r.value.databasePath == DatabasePath(context, paths).value.s
                      && r.value.databaseFile == Paths.Slash(r.value.databasePath, "stockshot.db")
                      && Paths.Name(r.value.databaseFile) == "stockshot.db"
  {
    DatabaseConfigIn(context, DatabasePath(context, paths))
  }

  /** The database configuration for a looked-up directory: a string directory gets `<dir>/stockshot.db`. */
  function DatabaseConfigIn(context: ContextType, dir: Result<Json>): (r: Result<DatabaseConfig>)
    ensures r.Ok? <==> dir.Ok? && dir.value.JStr?
    ensures r.Ok? ==> r.value.contextType == context.Value()
                      && r.value.databasePath == dir.value.s
                      && r.value.databaseFile == Paths.Slash(r.value.databasePath, "stockshot.db")
                      && Paths.Name(r.value.databaseFile) == "stockshot.db"
  {
    if dir.Err? then Err(dir.error)
    else if !dir.value.JStr? then Err("TypeError: expected str")
    else
      var file := Paths.Slash(dir.value.s, "stockshot.db");
      Paths.SlashName(dir.value.s, "stockshot.db");
      Ok(DatabaseConfig(context.Value(), dir.value.s, file))
  }

  datatype ThumbnailConfig = ThumbnailConfig(contextType: string, thumbnailDirectory: Json)

  /** The thumbnail directory of a context, as configured (it is not wrapped in a `Path`). */
  function ThumbnailConfigFor(context: ContextType, paths: Json): (r: Result<ThumbnailConfig>)
    ensures r.Ok? <==> paths.JObj?
    ensures r.Ok? ==> r.value.contextType == context.Value() && r.value.thumbnailDirectory == ThumbnailPath(context, paths).value
  {
    var dir := ThumbnailPath(context, paths);
    if dir.Err? then Err(dir.error)
    else Ok(ThumbnailConfig(context.Value(), dir.value))
  }

  /** `get_context_info`: the context and both of its configurations. */
  datatype ContextInfo = ContextInfo(contextType: string, database: DatabaseConfig, thumbnails: ThumbnailConfig)

  /** `_reload_configured_paths`' reading of one configuration layer: `directory_tree.configured_paths`. */
  function ConfiguredPaths(config: Json): Option<Json>
  {
    if !config.JObj? then None
    else
      var tree := DictGet(config, "directory_tree", JObj(map[]));
      if !tree.JObj? then None
      else Some(DictGet(tree, "configured_paths", JArr([])))
  }

  predicate ReloadSucceeds(userConfig: Json, projectConfig: Json)
  {
    var u, p := ConfiguredPaths(userConfig), ConfiguredPaths(projectConfig);
    u.Some? && p.Some? && HasLen(u.value) && HasLen(p.value)
  }

  class PathContextManager {
    var contextCache: map<string, ContextType>
    var userPaths: Json
    var projectPaths: Json
    const resolve: Resolver

    /** Every cached context is the one the current roots give. */
    predicate Valid()
      reads this
    {
      forall p :: p in contextCache ==> contextCache[p] == ContextOf(p, userPaths, projectPaths, resolve)
    }

    /**
     * What `get_context_for_path` answers in the current state: the cached
     * context of a cached non-empty path, otherwise the context the roots give.
     */
    function Answer(path: string): ContextType
      reads this`contextCache, this`userPaths, this`projectPaths
    {
      if path != "" && path in contextCache then contextCache[path]
      else ContextOf(path, userPaths, projectPaths, resolve)
    }

    constructor (resolve: Resolver, userConfig: Json, projectConfig: Json)
      ensures this.resolve == resolve
      ensures Valid()
    {
      this.resolve := resolve;
      contextCache := map[];
      userPaths := JArr([]);
      projectPaths := JArr([]);
      new;
      ReloadConfiguredPaths(userConfig, projectConfig);
    }

    /**
     * `_reload_configured_paths`: on success both root lists are replaced and
     * the cache is cleared; on any failure both lists become empty and the
     * cache is kept.
     */
    method ReloadConfiguredPaths(userConfig: Json, projectConfig: Json)
      modifies this
      ensures if ReloadSucceeds(userConfig, projectConfig) then
                userPaths == ConfiguredPaths(userConfig).value
                && projectPaths == ConfiguredPaths(projectConfig).value && contextCache == map[]
              else
                userPaths == JArr([]) && projectPaths == JArr([]) && contextCache == old(contextCache)
      ensures ReloadSucceeds(userConfig, projectConfig) || old(contextCache) == map[] ==> Valid()
    {
      var u := ConfiguredPaths(userConfig);
      if u.None? {
        userPaths, projectPaths := JArr([]), JArr([]);
        return;
      }
      userPaths := u.value;
      var p := ConfiguredPaths(projectConfig);
      if p.None? {
        userPaths, projectPaths := JArr([]), JArr([]);
        return;
      }
      projectPaths := p.value;
      if !HasLen(userPaths) || !HasLen(projectPaths) {
        userPaths, projectPaths := JArr([]), JArr([]);
        return;
      }
      contextCache := map[];
    }

    /** `get_context_for_path`: "" is GENERAL, a cached path answers from the cache, a resolved one is cached. */
    method GetContextForPath(path: string) returns (c: ContextType)
      modifies this`contextCache
      ensures path == "" ==> c == General && contextCache == old(contextCache)
      ensures path != "" && path in old(contextCache) ==> c == old(contextCache)[path] && contextCache == old(contextCache)
      ensures path != "" && path !in old(contextCache) && resolve(path).None? ==>
                c == General && contextCache == old(contextCache)
      ensures path != "" && path !in old(contextCache) && resolve(path).Some? ==>
                c == DetermineContext(resolve(path).value, userPaths, projectPaths, resolve)
                && contextCache == old(contextCache)[path := c]
      ensures old(Valid()) ==> Valid() && c == ContextOf(path, userPaths, projectPaths, resolve)
      ensures c == old(Answer(path))
      ensures forall q :: Answer(q) == old(Answer(q))
    {
      if path == "" {
        return General;
      }
      if path in contextCache {
        return contextCache[path];
      }
      match resolve(path)
      case None =>
        c := General;
      case Some(p) =>
        c := DetermineContext(p, userPaths, projectPaths, resolve);
        contextCache := contextCache[path := c];
    }

    /** `get_database_config`: the context of the path and the database file of that context. */
    method GetDatabaseConfig(path: string, paths: Json) returns (r: Result<DatabaseConfig>)
      modifies this`contextCache
      ensures old(Valid()) ==>
                (Valid() && r == DatabaseConfigFor(ContextOf(path, userPaths, projectPaths, resolve), paths))
      ensures r == DatabaseConfigFor(old(Answer(path)), paths)
      ensures forall q :: Answer(q) == old(Answer(q))
    {
      var context := GetContextForPath(path);
      r := DatabaseConfigFor(context, paths);
    }

    /** `get_thumbnail_config`: the context of the path and the thumbnail directory of that context. */
    method GetThumbnailConfig(path: string, paths: Json) returns (r: Result<ThumbnailConfig>)
      modifies this`contextCache
      ensures old(Valid()) ==>
                (Valid() && r == ThumbnailConfigFor(ContextOf(path, userPaths, projectPaths, resolve), paths))
      ensures r == ThumbnailConfigFor(old(Answer(path)), paths)
      ensures forall q :: Answer(q) == old(Answer(q))
    {
      var context := GetContextForPath(path);
      r := ThumbnailConfigFor(context, paths);
    }

    /**
     * `get_context_info`: the three lookups agree on the context, because a
     * lookup never changes what the manager answers for any path, even when
     * a failed reload has left a cache that no longer fits the roots; with a
     * consistent cache that context is the one the roots give.  The
     * thumbnail lookup cannot fail once the database lookup has succeeded.
     */
    method GetContextInfo(path: string, paths: Json) returns (r: Result<ContextInfo>)
      modifies this`contextCache
      ensures var c := old(Answer(path));
              var db, th := DatabaseConfigFor(c, paths), ThumbnailConfigFor(c, paths);
              r == if db.Err? then Err(db.error) else Ok(ContextInfo(c.Value(), db.value, th.value))
      ensures old(Valid()) ==> Valid() && old(Answer(path)) == ContextOf(path, userPaths, projectPaths, resolve)
    {
      var context := GetContextForPath(path);
      var db := GetDatabaseConfig(path, paths);
      if db.Err? {
        return Err(db.error);
      }
      var th := GetThumbnailConfig(path, paths);
      r := Ok(ContextInfo(context.Value(), db.value, th.value));
    }
  }
}
