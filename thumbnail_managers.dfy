// The two thumbnail managers: the multi-context one, which keeps a cache
// directory per context and stores into the database of the path's
// context, and the original single-database one with one cache directory.
// Workers run elsewhere; queueing returns the jobs it would start, and a
// worker's result comes back through `OnThumbnailGenerated`.

module ThumbnailManagers {
  import opened Wrappers
  import opened Json
  import PathContext
  import MultiDatabase
  import Entities
  import Records
  import Thumbnails
  import Paths

  type ContextType = PathContext.ContextType
  type MediaEntity = Entities.MediaEntity
  type Fs = Thumbnails.Fs
  type Job = Thumbnails.Job
  type Completion = Thumbnails.Completion

  // ------------------------------------------------------ cache directories

  /** The thumbnail directory configured for a context (its own key, else the general one, else ""). */
  function ConfiguredDir(c: ContextType, paths: Json): Json
    requires paths.JObj?
  {
    PathContext.ThumbnailPath(c, paths).value
  }

  /**
   * `_initialize_cache_directories`: every context whose configured
   * directory is non-empty gets it.  A `paths` value that is not a dict,
   * or a non-empty directory that is not a string, makes it raise.
   */
  function CacheDirectories(paths: Json): (r: Result<map<ContextType, string>>)
    ensures r.Ok? <==> paths.JObj? && forall c :: Truthy(ConfiguredDir(c, paths)) ==> ConfiguredDir(c, paths).JStr?
    ensures r.Ok? ==> forall c :: c in r.value <==> Truthy(ConfiguredDir(c, paths))
    ensures r.Ok? ==> forall c :: c in r.value ==> r.value[c] == ConfiguredDir(c, paths).s
  {
    if !paths.JObj? then Err("AttributeError: 'get'")
    else if exists c :: Truthy(ConfiguredDir(c, paths)) && !ConfiguredDir(c, paths).JStr? then
      Err("TypeError: expected str")
    else
      var g := ConfiguredDir(PathContext.General, paths);
      var u := ConfiguredDir(PathContext.User, paths);
      var p := ConfiguredDir(PathContext.Project, paths);
      var m0: map<ContextType, string> := if Truthy(g) then map[PathContext.General := g.s] else map[];
      var m1 := if Truthy(u) then m0[PathContext.User := u.s] else m0;
      Ok(if Truthy(p) then m1[PathContext.Project := p.s] else m1)
  }

  /** `get_cache_directory_for_context`: the context's directory, else GENERAL's, else ".thumbnails". */
  function CacheDirectoryFor(dirs: map<ContextType, string>, c: ContextType): (r: string)
    ensures r in dirs.Values || r == Thumbnails.DefaultCacheDirectory
    ensures c in dirs ==> r == dirs[c]
    ensures r == Thumbnails.DefaultCacheDirectory && r !in dirs.Values ==> c !in dirs && PathContext.General !in dirs
  {
    if c in dirs then dirs[c]
    else if PathContext.General in dirs then dirs[PathContext.General]
    else Thumbnails.DefaultCacheDirectory
  }

  /**
   * From configuration to directory: a context uses its own key when that
   * is non-empty, otherwise the general directory when that is non-empty,
   * otherwise ".thumbnails" — also when its own key holds "".
   */
  lemma EffectiveCacheDirectory(paths: Json, c: ContextType)
    requires CacheDirectories(paths).Ok?
    ensures var m := paths.m;
            var general := if "gen_thumbnail_directory" in m then m["gen_thumbnail_directory"] else JStr("");
            var own := ConfiguredDir(c, paths);
            CacheDirectoryFor(CacheDirectories(paths).value, c) ==
              if Truthy(own) then own.s else if Truthy(general) then general.s else Thumbnails.DefaultCacheDirectory
  {
    assert ConfiguredDir(PathContext.General, paths) ==
             if "gen_thumbnail_directory" in paths.m then paths.m["gen_thumbnail_directory"] else JStr("");
  }

  /** The path whose context a queue uses: the given path, else the current one, else the first entity's. */
  function TargetPath(entityPath: Option<string>, currentPath: Option<string>, first: string): string
  {
    if entityPath.Some? && entityPath.value != "" then entityPath.value
    else if currentPath.Some? && currentPath.value != "" then currentPath.value
    else first
  }

  // -------------------------------------------------------------- queueing

  /** The filtering loop shared by both managers. */
  method FilterPending(entities: seq<MediaEntity>, needs: MediaEntity -> Result<bool>)
    returns (r: Result<seq<MediaEntity>>)
    ensures r == Thumbnails.Pending(entities, needs)
  {
    var kept: seq<MediaEntity> := [];
    var i := 0;
    while i < |entities|
      invariant 0 <= i <= |entities|
      invariant Thumbnails.Pending(entities[..i], needs) == Ok(kept)
    {
      var x := entities[i];
      Thumbnails.PendingSnoc(entities[..i], x, needs);
      assert entities[..i + 1] == entities[..i] + [x];
      var needed := needs(x);
      if needed.Err? {
        Thumbnails.PendingErrSticks(entities, i + 1, needs);
        return Thumbnails.Pending(entities[..i + 1], needs);
      }
      if needed.value {
        kept := kept + [x];
      }
      i := i + 1;
    }
    assert entities[..i] == entities;
    r := Ok(kept);
  }

  /** The filter and the jobs of one queueing, as the loop computes them. */
  method QueueJobs(entities: seq<MediaEntity>, dir: string, resolution: int, fs: Fs, animatedEnabled: bool,
                   entityPath: Option<string>) returns (r: Result<seq<Job>>)
    ensures r == QueuedJobs(entities, dir, resolution, fs, animatedEnabled, entityPath)
  {
    var pending := FilterPending(entities, Thumbnails.NeedsIn(dir, resolution, fs));
    if pending.Err? {
      return Err(pending.error);
    }
    Thumbnails.PendingAreNamed(entities, dir, resolution, fs);
    r := Ok(Thumbnails.Jobs(pending.value, dir, resolution, fs, animatedEnabled, entityPath));
  }

  /**
   * What queueing yields for one cache directory: the jobs for the
   * entities needing a thumbnail, or the error that aborted the filter.
   */
  function QueuedJobs(entities: seq<MediaEntity>, dir: string, resolution: int, fs: Fs, animatedEnabled: bool,
                      entityPath: Option<string>): (r: Result<seq<Job>>)
    ensures r.Err? <==> exists i :: 0 <= i < |entities| && Thumbnails.Unnameable(entities[i], fs)
    ensures r.Ok? ==> forall x :: x in Thumbnails.JobEntities(r.value) <==>
                        x in entities && Thumbnails.NeedsThumbnailIn(dir, x, resolution, fs) == Ok(true)
    ensures r.Ok? ==> Ok(Thumbnails.JobEntities(r.value)) == Thumbnails.Pending(entities, Thumbnails.NeedsIn(dir, resolution, fs))
  {
    var needs := Thumbnails.NeedsIn(dir, resolution, fs);
    Thumbnails.QueueFailsOnUnnameable(entities, dir, resolution, fs);
    match Thumbnails.Pending(entities, needs)
    case Err(msg) => Err(msg)
    case Ok(p) =>
      Thumbnails.PendingAreNamed(entities, dir, resolution, fs);
      Thumbnails.PendingHas(entities, needs);
      Thumbnails.JobsFollowPending(p, dir, resolution, fs, animatedEnabled, entityPath);
      Ok(Thumbnails.Jobs(p, dir, resolution, fs, animatedEnabled, entityPath))
  }

  // ----------------------------------------------------------- storing info

  function TablesIn(files: map<string, Records.Tables>, file: string): (t: Records.Tables)
    requires forall f :: f in files ==> Records.WellFormed(files[f])
    ensures Records.WellFormed(t)
  {
    if file in files then files[file] else Records.EmptyTables
  }

  /**
   * The database files after `_store_thumbnail_info`: the session's file
   * gets the stored row when storing succeeds; a failed session or a failed
   * store changes nothing, since the handler swallows every error.
   */
  function AfterStore(files: map<string, Records.Tables>, session: Result<string>, e: MediaEntity, path: string,
                      resolution: int, generationTime: real, sourceFrame: Option<real>, fileSize: Option<nat>,
                      animatedPath: Option<string>): (r: map<string, Records.Tables>)
    requires forall f :: f in files ==> Records.WellFormed(files[f])
    ensures forall f :: f in r ==> Records.WellFormed(r[f])
    ensures session.Err? ==> r == files
    ensures session.Ok? ==> forall f :: f in files && f != session.value ==> f in r && r[f] == files[f]
  {
    if session.Err? then files
    else Committed(files, session.value, Thumbnails.StoreThumbnailRow(TablesIn(files, session.value), e, path,
                                                                      resolution, generationTime, sourceFrame,
                                                                      fileSize, animatedPath))
  }

  /** A session on `file` commits its tables when it succeeded and rolls back otherwise. */
  function Committed(files: map<string, Records.Tables>, file: string, stored: Result<Records.Tables>)
    : (r: map<string, Records.Tables>)
    requires forall f :: f in files ==> Records.WellFormed(files[f])
    requires stored.Ok? ==> Records.WellFormed(stored.value)
    ensures forall f :: f in r ==> Records.WellFormed(r[f])
    ensures forall f :: f in files && f != file ==> f in r && r[f] == files[f]
  {
    if stored.Ok? then files[file := stored.value] else files
  }

  /**
   * One store into the database the session opened, as both managers run
   * it: the row is written in a session that commits only if it succeeded.
   */
  method StoreInSession(store: Records.Store, session: Result<string>, e: MediaEntity, path: string, resolution: int,
                        generationTime: real, sourceFrame: Option<real>, fileSize: Option<nat>,
                        animatedPath: Option<string>)
    requires store.Valid()
    modifies store
    ensures store.Valid()
    ensures store.files == AfterStore(old(store.files), session, e, path, resolution, generationTime, sourceFrame,
                                      fileSize, animatedPath)
  {
    if session.Err? {
      return;
    }
    var t := TablesIn(store.files, session.value);
    var stored := Thumbnails.StoreThumbnailRow(t, e, path, resolution, generationTime, sourceFrame, fileSize,
                                               animatedPath);
    if stored.Ok? {
      store.Commit(session.value, stored.value);
    }
  }

  /** A repeated completion for the same entity leaves the databases as one did. */
  lemma AfterStoreTwiceIsOnce(files: map<string, Records.Tables>, session: Result<string>, e: MediaEntity,
                              path: string, resolution: int, generationTime: real, sourceFrame: Option<real>,
                              fileSize: Option<nat>, animatedPath: Option<string>)
    requires forall f :: f in files ==> Records.WellFormed(files[f])
    ensures var once := AfterStore(files, session, e, path, resolution, generationTime, sourceFrame, fileSize, animatedPath);
            AfterStore(once, session, e, path, resolution, generationTime, sourceFrame, fileSize, animatedPath) == once
  {
    if session.Ok? {
      var t := TablesIn(files, session.value);
      var r := Thumbnails.StoreThumbnailRow(t, e, path, resolution, generationTime, sourceFrame, fileSize, animatedPath);
      if r.Ok? {
        Thumbnails.StoreTwiceIsOnce(t, e, path, resolution, generationTime, sourceFrame, fileSize, animatedPath, r.value);
        StoredAgain(files, session.value, r.value, e, path, resolution, generationTime, sourceFrame, fileSize, animatedPath);
      }
    }
  }

  /** The second store meets the tables the first one committed. */
  lemma StoredAgain(files: map<string, Records.Tables>, file: string, once: Records.Tables, e: MediaEntity,
                    path: string, resolution: int, generationTime: real, sourceFrame: Option<real>,
                    fileSize: Option<nat>, animatedPath: Option<string>)
    requires forall f :: f in files ==> Records.WellFormed(files[f])
    requires Records.WellFormed(once)
    requires Thumbnails.StoreThumbnailRow(once, e, path, resolution, generationTime, sourceFrame, fileSize, animatedPath) == Ok(once)
    ensures AfterStore(files[file := once], Ok(file), e, path, resolution, generationTime, sourceFrame, fileSize, animatedPath)
            == files[file := once]
  {
    assert TablesIn(files[file := once], file) == once;
    UpdateTwice(files, file, once);
  }

  lemma UpdateTwice(m: map<string, Records.Tables>, k: string, v: Records.Tables)
    ensures m[k := v][k := v] == m[k := v]
  {
  }

  /** A completion is stored only when it carries no error text and has its info. */
  predicate ShouldStore(c: Completion)
  {
    !ReportsFailure(c) && c.info.Some?
  }

  /** A truthy error: the completion is reported as a failure. */
  predicate ReportsFailure(c: Completion)
  {
    c.error.Some? && c.error.value != ""
  }

  /** The signals the completion callback emits. */
  datatype Signal =
    | ThumbnailGenerated(entity: MediaEntity, path: string)
    | ThumbnailGenerationFailed(entity: MediaEntity, error: string)
    | GenerationProgress(current: int, total: int)

  /**
   * The signals of one completion, in order: the failure for a truthy
   * error, else the generated signal with the static path when there is
   * info; progress always comes last.
   */
  function Reported(e: MediaEntity, c: Completion, completed: int, total: int): (r: seq<Signal>)
    ensures |r| >= 1 && r[|r| - 1] == GenerationProgress(completed, total)
    ensures ReportsFailure(c) ==> |r| == 2 && r[0] == ThumbnailGenerationFailed(e, c.error.value)
    ensures ShouldStore(c) ==> |r| == 2 && r[0] == ThumbnailGenerated(e, c.info.value.staticPath)
    ensures !ReportsFailure(c) && !ShouldStore(c) ==> |r| == 1
  {
    var progress := [GenerationProgress(completed, total)];
    if ReportsFailure(c) then [ThumbnailGenerationFailed(e, c.error.value)] + progress
    else if c.info.Some? then [ThumbnailGenerated(e, c.info.value.staticPath)] + progress
    else progress
  }

  /**
   * `_get_animated_path_from_session`: the `animated_path` recorded with the
   * entity's thumbnail row at this resolution, when it is a non-empty
   * string naming a file that exists.
   */
  function StoredAnimatedPath(t: Records.Tables, e: MediaEntity, resolution: int, fs: Fs): (r: Option<string>)
    ensures r.Some? ==> r.value != "" && fs.present(r.value)
    ensures r.Some? ==> Records.FindEntity(t.entities, e.path, e.entityType.Value()).Some?
  {
    match Records.FindEntity(t.entities, e.path, e.entityType.Value())
    case None => None
    case Some(i) =>
      var key := (i + 1, resolution);
      if key !in t.thumbnails then None
      else
        var p := Records.GetAnimatedPath(t.thumbnails[key].extraData);
        if p.JStr? && p.s != "" && fs.present(p.s) then Some(p.s) else None
  }

  /** A row recording an existing animated file is answered with that file. */
  lemma RecordedAnimationFound(r: Records.Tables, e: MediaEntity, resolution: int, animated: string, fs: Fs)
    requires Records.FindEntity(r.entities, e.path, e.entityType.Value()).Some?
    requires var key := (Records.FindEntity(r.entities, e.path, e.entityType.Value()).value + 1, resolution);
             key in r.thumbnails && r.thumbnails[key].extraData == Thumbnails.AnimatedData(animated)
    requires animated != "" && fs.present(animated)
    ensures StoredAnimatedPath(r, e, resolution, fs) == Some(animated)
  {
  }

  /** The GIF beside the thumbnail can be named but does not exist, so the database is asked. */
  predicate AnimatedPending(dir: string, e: MediaEntity, resolution: int, fs: Fs)
  {
    var gif := Thumbnails.AnimatedPathIn(dir, e, resolution, fs);
    gif.Ok? && !fs.present(gif.value)
  }

  /** Otherwise the database's answer does not matter. */
  lemma AnimatedLookupIgnoresStored(dir: string, e: MediaEntity, resolution: int, fs: Fs, s1: Option<string>,
                                    s2: Option<string>)
    requires !((e.entityType == Entities.Video || |e.files| > 1) && AnimatedPending(dir, e, resolution, fs))
    ensures AnimatedLookup(dir, e, resolution, fs, s1) == AnimatedLookup(dir, e, resolution, fs, s2)
  {
  }

  /**
   * Storing and looking up agree: after a completion stores a non-empty
   * animated path whose file exists, the database lookup answers it.
   */
  lemma StoredAnimatedPathFound(t: Records.Tables, e: MediaEntity, path: string, resolution: int, generationTime: real,
                                sourceFrame: Option<real>, fileSize: Option<nat>, animatedPath: Option<string>, fs: Fs,
                                r: Records.Tables)
    requires Records.WellFormed(t)
    requires Thumbnails.StoreThumbnailRow(t, e, path, resolution, generationTime, sourceFrame, fileSize, animatedPath) == Ok(r)
    requires animatedPath.Some? && animatedPath.value != "" && fs.present(animatedPath.value)
    ensures StoredAnimatedPath(r, e, resolution, fs) == animatedPath
  {
    Thumbnails.StoreWritesRow(t, e, path, resolution, generationTime, sourceFrame, fileSize, animatedPath, r);
    RecordedAnimationFound(r, e, resolution, animatedPath.value, fs);
  }

  // ------------------------------------------------------------ cache sizes

  function Rank(c: ContextType): nat
  {
    match c
    case General => 0
    case User => 1
    case Project => 2
  }

  /**
   * `_check_cache_sizes` / `_check_cache_size`: the contexts, in
   * GENERAL-USER-PROJECT order, whose cache is over the megabyte limit;
   * each is then cleaned with `CleanupOldThumbnails`.
   */
  method ContextsOverLimit(dirs: map<ContextType, string>, sizeOf: string -> nat, maxCacheSizeMb: int)
    returns (over: seq<ContextType>)
    ensures forall c :: c in over <==> c in dirs && Thumbnails.OverLimit(sizeOf(dirs[c]), maxCacheSizeMb)
    ensures forall i, j :: 0 <= i < j < |over| ==> Rank(over[i]) < Rank(over[j])
  {
    over := [];
    var i := 0;
    while i < |MultiDatabase.AllContexts|
      invariant 0 <= i <= |MultiDatabase.AllContexts|
      invariant forall c :: c in over <==>
                  Rank(c) < i && c in dirs && Thumbnails.OverLimit(sizeOf(dirs[c]), maxCacheSizeMb)
      invariant forall k :: 0 <= k < |over| ==> Rank(over[k]) < i
      invariant forall k, l :: 0 <= k < l < |over| ==> Rank(over[k]) < Rank(over[l])
    {
      var c := MultiDatabase.AllContexts[i];
      assert Rank(c) == i;
      if c in dirs {
        Thumbnails.OverLimitInBytes(sizeOf(dirs[c]), maxCacheSizeMb);
        if sizeOf(dirs[c]) > maxCacheSizeMb * 1048576 {
          over := over + [c];
        }
      }
      i := i + 1;
    }
  }

  // ------------------------------------------------------------ the classes

  class MultiThumbnailManager {
    const contexts: PathContext.PathContextManager
    const databases: MultiDatabase.MultiDatabaseManager
    /** The tables of every database file. */
    const store: Records.Store
    const defaultResolution: int
    const maxCacheSizeMb: int
    const ffmpegAvailable: bool
    /** `thumbnails.animated.enabled`. */
    const animatedEnabled: bool
    var cacheDirectories: map<ContextType, string>
    var processing: seq<MediaEntity>
    var completedCount: int
    var currentContext: ContextType
    var currentPath: Option<string>

    predicate Valid()
      reads this, contexts, databases, store
    {
      databases.contexts == contexts && store.Valid()
    }

    constructor (contexts: PathContext.PathContextManager, databases: MultiDatabase.MultiDatabaseManager,
                 store: Records.Store, paths: Json, defaultResolution: int, maxCacheSizeMb: int,
                 ffmpegAvailable: bool, animatedEnabled: bool)
      requires CacheDirectories(paths).Ok?
      ensures this.contexts == contexts && this.databases == databases && this.store == store
      ensures this.defaultResolution == defaultResolution && this.maxCacheSizeMb == maxCacheSizeMb
      ensures this.ffmpegAvailable == ffmpegAvailable && this.animatedEnabled == animatedEnabled
      ensures cacheDirectories == CacheDirectories(paths).value
      ensures processing == [] && completedCount == 0
      ensures currentContext == PathContext.General && currentPath == None
    {
      this.contexts := contexts;
      this.databases := databases;
      this.store := store;
      this.defaultResolution := defaultResolution;
      this.maxCacheSizeMb := maxCacheSizeMb;
      this.ffmpegAvailable := ffmpegAvailable;
      this.animatedEnabled := animatedEnabled;
      cacheDirectories := CacheDirectories(paths).value;
      processing := [];
      completedCount := 0;
      currentContext := PathContext.General;
      currentPath := None;
    }

    /** What the path-context manager answers for a path now. */
    function ContextOf(path: string): ContextType
      reads contexts`contextCache, contexts`userPaths, contexts`projectPaths
    {
      contexts.Answer(path)
    }

    /** `set_current_path`: the context is recomputed only for a different path. */
    method SetCurrentPath(path: string)
      requires Valid()
      modifies this`currentPath, this`currentContext, contexts`contextCache
      ensures Valid()
      ensures currentPath == Some(path)
      ensures old(currentPath) == Some(path) ==> currentContext == old(currentContext)
      ensures old(currentPath) != Some(path) ==> currentContext == ContextOf(path)
    {
      if Some(path) != currentPath {
        currentPath := Some(path);
        currentContext := contexts.GetContextForPath(path);
      }
    }

    /**
     * `queue_thumbnail_generation`: nothing for an empty list or without
     * ffmpeg; otherwise the target path's context picks the cache
     * directory, the entities needing a thumbnail are kept, and when any
     * are left they become the processing list and the count restarts.
     */
    method QueueThumbnailGeneration(entities: seq<MediaEntity>, entityPath: Option<string>, fs: Fs)
      returns (r: Result<seq<Job>>)
      requires Valid()
      modifies this`processing, this`completedCount, contexts`contextCache
      ensures Valid()
      ensures entities == [] || !ffmpegAvailable ==>
                r == Ok([]) && processing == old(processing) && completedCount == old(completedCount)
      ensures entities != [] && ffmpegAvailable ==>
                var target := TargetPath(entityPath, currentPath, entities[0].path);
                r == QueuedJobs(entities, CacheDirectoryFor(cacheDirectories, ContextOf(target)),
                                defaultResolution, fs, animatedEnabled, Some(target))
      ensures r.Ok? && r.value != [] ==> completedCount == 0 && processing == Thumbnails.JobEntities(r.value)
      ensures !(r.Ok? && r.value != []) ==> processing == old(processing) && completedCount == old(completedCount)
    {
      if entities == [] || !ffmpegAvailable {
        return Ok([]);
      }
      var target := TargetPath(entityPath, currentPath, entities[0].path);
      var context := contexts.GetContextForPath(target);
      r := QueueJobs(entities, CacheDirectoryFor(cacheDirectories, context), defaultResolution, fs, animatedEnabled,
                     Some(target));
      StartProcessing(r);
    }

    /** The processing list and the count restart only when there is something to process. */
    method StartProcessing(r: Result<seq<Job>>)
      modifies this`processing, this`completedCount
      ensures r.Ok? && r.value != [] ==> completedCount == 0 && processing == Thumbnails.JobEntities(r.value)
      ensures !(r.Ok? && r.value != []) ==> processing == old(processing) && completedCount == old(completedCount)
    {
      if r.Ok? && r.value != [] {
        processing := Thumbnails.JobEntities(r.value);
        completedCount := 0;
      }
    }

    /** The database file the store goes to: the path's context when a path is given, else the current one. */
    function SessionFor(entityPath: Option<string>): Result<string>
      reads this, databases, contexts`contextCache, contexts`userPaths, contexts`projectPaths
    {
      if entityPath.Some? && entityPath.value != "" then databases.GetDatabaseManager(Some(ContextOf(entityPath.value)))
      else databases.GetDatabaseManager(None)
    }

    /**
     * `_store_thumbnail_info` with `_store_in_session`; every error is logged
     * and dropped.  `raised` is the error the connection layer raises inside
     * the session, if any: nothing is written then.
     */
    method StoreThumbnailInfo(e: MediaEntity, path: string, generationTime: real, sourceFrame: Option<real>,
                              fileSize: Option<nat>, animatedPath: Option<string>, entityPath: Option<string>,
                              raised: Option<string>)
      requires Valid()
      modifies store, contexts`contextCache
      ensures Valid()
      ensures store.files == AfterStore(old(store.files), MultiDatabase.SessionOutcome(old(SessionFor(entityPath)), raised),
                                        e, path, defaultResolution, generationTime, sourceFrame, fileSize, animatedPath)
      ensures raised.Some? ==> store.files == old(store.files)
    {
      var session: Result<string>;
      if entityPath.Some? && entityPath.value != "" {
        session := databases.GetSessionForPath(entityPath.value);
      } else {
        session := databases.GetSession(None, None);
      }
      StoreInSession(store, MultiDatabase.SessionOutcome(session, raised), e, path, defaultResolution, generationTime,
                     sourceFrame, fileSize, animatedPath);
    }

    /**
     * `_on_thumbnail_generated`: every completion counts once; a success is
     * stored; the cache-size check is due on every tenth completion.
     */
    method OnThumbnailGenerated(e: MediaEntity, c: Completion, raised: Option<string>)
      returns (signals: seq<Signal>, checkCache: bool)
      requires Valid()
      modifies this`completedCount, store, contexts`contextCache
      ensures Valid()
      ensures completedCount == old(completedCount) + 1
      ensures signals == Reported(e, c, completedCount, |processing|)
      ensures checkCache <==> completedCount % 10 == 0
      ensures !ShouldStore(c) || raised.Some? ==> store.files == old(store.files)
      ensures ShouldStore(c) ==>
                var info := c.info.value;
                store.files == AfterStore(old(store.files),
                                          MultiDatabase.SessionOutcome(old(SessionFor(info.entityPath)), raised), e,
                                          info.staticPath, defaultResolution, c.generationTime, c.sourceFrame,
                                          c.fileSize, info.animatedPath)
    {
      completedCount := completedCount + 1;
      if ShouldStore(c) {
        var info := c.info.value;
        StoreThumbnailInfo(e, info.staticPath, c.generationTime, c.sourceFrame, c.fileSize, info.animatedPath,
                           info.entityPath, raised);
      }
      signals := Reported(e, c, completedCount, |processing|);
      checkCache := completedCount % 10 == 0;
    }

    /** The context a lookup uses: the given path's, else the current one. */
    function LookupContext(entityPath: Option<string>): ContextType
      reads this, contexts`contextCache, contexts`userPaths, contexts`projectPaths
    {
      if entityPath.Some? && entityPath.value != "" then ContextOf(entityPath.value) else currentContext
    }

    /**
     * The animated path recorded in the database the lookup's session opens,
     * if any; a session that cannot be selected or that raises answers None.
     */
    function StoredFor(e: MediaEntity, entityPath: Option<string>, fs: Fs, raised: Option<string>): Option<string>
      reads this, databases, contexts`contextCache, contexts`userPaths, contexts`projectPaths, store
      requires store.Valid()
    {
      var session := MultiDatabase.SessionOutcome(SessionFor(entityPath), raised);
      if session.Err? then None else StoredAnimatedPath(store.TablesOf(session.value), e, defaultResolution, fs)
    }

    /** `get_thumbnail_path` for the given path's (or the current) context. */
    method GetThumbnailPath(e: MediaEntity, entityPath: Option<string>, fs: Fs) returns (r: Result<Option<string>>)
      requires Valid()
      modifies contexts`contextCache
      ensures Valid()
      ensures r == CachedThumbnail(CacheDirectoryFor(cacheDirectories, LookupContext(entityPath)), e,
                                   defaultResolution, fs)
    {
      var context := currentContext;
      if entityPath.Some? && entityPath.value != "" {
        context := contexts.GetContextForPath(entityPath.value);
      }
      r := CachedThumbnail(CacheDirectoryFor(cacheDirectories, context), e, defaultResolution, fs);
    }

    /**
     * `get_animated_thumbnail_path`: the GIF beside the cached thumbnail of
     * the lookup's context, else the path recorded in that path's database;
     * a session that cannot be selected or that raises (`raised`) is logged
     * and gives None.
     */
    method GetAnimatedThumbnailPath(e: MediaEntity, entityPath: Option<string>, fs: Fs, raised: Option<string>)
      returns (r: Result<Option<string>>)
      requires Valid()
      modifies contexts`contextCache
      ensures Valid()
      ensures r == AnimatedLookup(CacheDirectoryFor(cacheDirectories, old(LookupContext(entityPath))), e,
                                  defaultResolution, fs, StoredFor(e, entityPath, fs, raised))
    {
      var context := currentContext;
      if entityPath.Some? && entityPath.value != "" {
        context := contexts.GetContextForPath(entityPath.value);
      }
      assert context == old(LookupContext(entityPath));
      r := AnimatedIn(CacheDirectoryFor(cacheDirectories, context), e, entityPath, fs, raised);
    }

    /** The lookup in one cache directory, asking the database only when the GIF is missing. */
    method AnimatedIn(dir: string, e: MediaEntity, entityPath: Option<string>, fs: Fs, raised: Option<string>)
      returns (r: Result<Option<string>>)
      requires Valid()
      modifies contexts`contextCache
      ensures Valid()
      ensures r == AnimatedLookup(dir, e, defaultResolution, fs, StoredFor(e, entityPath, fs, raised))
    {
      var stored: Option<string> := None;
      if (e.entityType == Entities.Video || |e.files| > 1) && AnimatedPending(dir, e, defaultResolution, fs) {
        stored := LookupStored(e, entityPath, fs, raised);
      } else {
        AnimatedLookupIgnoresStored(dir, e, defaultResolution, fs, stored, StoredFor(e, entityPath, fs, raised));
      }
      r := AnimatedLookup(dir, e, defaultResolution, fs, stored);
    }

    /**
     * The database half of the lookup: None when no database can be
     * selected or the session raises, else the path that database records.
     */
    method LookupStored(e: MediaEntity, entityPath: Option<string>, fs: Fs, raised: Option<string>)
      returns (stored: Option<string>)
      requires Valid()
      modifies contexts`contextCache
      ensures Valid()
      ensures stored == StoredFor(e, entityPath, fs, raised)
      ensures raised.Some? ==> stored.None?
    {
      var session: Result<string>;
      if entityPath.Some? && entityPath.value != "" {
        session := databases.GetSessionForPath(entityPath.value);
      } else {
        session := databases.GetSession(None, None);
      }
      session := MultiDatabase.SessionOutcome(session, raised);
      if session.Err? {
        stored := None;
      } else {
        stored := StoredAnimatedPath(store.TablesOf(session.value), e, defaultResolution, fs);
      }
    }

    /** `_check_cache_sizes`: the contexts whose cache directory is over the limit, in dict order. */
    method CheckCacheSizes(sizeOf: string -> nat) returns (over: seq<ContextType>)
      ensures forall c :: c in over <==>
                c in cacheDirectories && Thumbnails.OverLimit(sizeOf(cacheDirectories[c]), maxCacheSizeMb)
      ensures forall i, j :: 0 <= i < j < |over| ==> Rank(over[i]) < Rank(over[j])
    {
      over := ContextsOverLimit(cacheDirectories, sizeOf, maxCacheSizeMb);
    }
  }

  // ---------------------------------------------------------------- lookups

  /** `get_thumbnail_path` for one cache directory: the thumbnail's path when that file exists. */
  function CachedThumbnail(dir: string, e: MediaEntity, resolution: int, fs: Fs): (r: Result<Option<string>>)
    ensures r.Err? <==> Thumbnails.Unnameable(e, fs)
    ensures r.Ok? && r.value.Some? ==>
              fs.present(r.value.value)
              && Paths.Components(r.value.value)
                 == Paths.Components(dir) + [Thumbnails.ThumbnailName(Thumbnails.Identifier(e, fs).value, resolution)]
    ensures r.Ok? && r.value.None? ==> !fs.present(Thumbnails.ThumbnailPathIn(dir, e, resolution, fs).value)
  {
    match Thumbnails.ThumbnailPathIn(dir, e, resolution, fs)
    case Err(msg) => Err(msg)
    case Ok(p) => Ok(if fs.present(p) then Some(p) else None)
  }

  /** An entity the filter leaves out has its thumbnail found by the lookup. */
  lemma UpToDateIsCached(dir: string, e: MediaEntity, resolution: int, fs: Fs)
    requires Thumbnails.NeedsThumbnailIn(dir, e, resolution, fs) == Ok(false)
    ensures CachedThumbnail(dir, e, resolution, fs) == Ok(Some(Thumbnails.ThumbnailPathIn(dir, e, resolution, fs).value))
  {
  }

  /**
   * `get_animated_thumbnail_path` for one cache directory, given what the
   * database lookup answers: nothing for a single image, the GIF beside
   * the static thumbnail when it exists, otherwise the recorded path.
   */
  function AnimatedLookup(dir: string, e: MediaEntity, resolution: int, fs: Fs, stored: Option<string>)
    : (r: Result<Option<string>>)
    ensures !(e.entityType == Entities.Video || |e.files| > 1) ==> r == Ok(None)
    ensures (e.entityType == Entities.Video || |e.files| > 1) ==> (r.Err? <==> Thumbnails.Unnameable(e, fs))
    ensures r.Ok? && r.value.Some? && r.value != stored ==>
              fs.present(r.value.value) && Paths.Suffix(Paths.Name(r.value.value)) == ".gif"
    ensures r.Ok? && r.value != stored && (e.entityType == Entities.Video || |e.files| > 1) ==>
              fs.present(Thumbnails.AnimatedPathIn(dir, e, resolution, fs).value)
  {
    if !(e.entityType == Entities.Video || |e.files| > 1) then Ok(None)
    else
      match Thumbnails.AnimatedPathIn(dir, e, resolution, fs)
      case Err(msg) => Err(msg)
      case Ok(gif) => if fs.present(gif) then Ok(Some(gif)) else Ok(stored)
  }

  /**
   * The original single-database manager: one configured cache directory
   * and one database file; its operations are those of the multi-context
   * manager with the context choice removed.
   */
  class ThumbnailManager {
    const store: Records.Store
    /** The database file of its database manager. */
    const dbFile: string
    /** `thumbnails.cache_directory`, ".thumbnails" by default. */
    const cacheDirectory: string
    const defaultResolution: int
    const maxCacheSizeMb: int
    const ffmpegAvailable: bool
    const animatedEnabled: bool
    var processing: seq<MediaEntity>
    var completedCount: int

    predicate Valid()
      reads this, store
    {
      store.Valid()
    }

    constructor (store: Records.Store, dbFile: string, cacheDirectory: string, defaultResolution: int,
                 maxCacheSizeMb: int, ffmpegAvailable: bool, animatedEnabled: bool)
      ensures this.store == store && this.dbFile == dbFile && this.cacheDirectory == cacheDirectory
      ensures this.defaultResolution == defaultResolution && this.maxCacheSizeMb == maxCacheSizeMb
      ensures this.ffmpegAvailable == ffmpegAvailable && this.animatedEnabled == animatedEnabled
      ensures processing == [] && completedCount == 0
    {
      this.store := store;
      this.dbFile := dbFile;
      this.cacheDirectory := cacheDirectory;
      this.defaultResolution := defaultResolution;
      this.maxCacheSizeMb := maxCacheSizeMb;
      this.ffmpegAvailable := ffmpegAvailable;
      this.animatedEnabled := animatedEnabled;
      processing := [];
      completedCount := 0;
    }

    /** `queue_thumbnail_generation`: as in the multi-context manager, with the one cache directory. */
    method QueueThumbnailGeneration(entities: seq<MediaEntity>, fs: Fs) returns (r: Result<seq<Job>>)
      modifies this`processing, this`completedCount
      ensures entities == [] || !ffmpegAvailable ==>
                r == Ok([]) && processing == old(processing) && completedCount == old(completedCount)
      ensures entities != [] && ffmpegAvailable ==>
                r == QueuedJobs(entities, cacheDirectory, defaultResolution, fs, animatedEnabled, None)
      ensures r.Ok? && r.value != [] ==> completedCount == 0 && processing == Thumbnails.JobEntities(r.value)
      ensures !(r.Ok? && r.value != []) ==> processing == old(processing) && completedCount == old(completedCount)
    {
      if entities == [] || !ffmpegAvailable {
        r := Ok([]);
      } else {
        r := QueueJobs(entities, cacheDirectory, defaultResolution, fs, animatedEnabled, None);
        if r.Ok? && r.value != [] {
          processing := Thumbnails.JobEntities(r.value);
          completedCount := 0;
        }
      }
    }

    /**
     * `_store_thumbnail_info`: one session on its database; every error is
     * logged and dropped, so a session that raises (`raised`) writes nothing.
     */
    method StoreThumbnailInfo(e: MediaEntity, path: string, generationTime: real, sourceFrame: Option<real>,
                              fileSize: Option<nat>, animatedPath: Option<string>, raised: Option<string>)
      requires Valid()
      modifies store
      ensures Valid()
      ensures store.files == AfterStore(old(store.files), MultiDatabase.SessionOutcome(Ok(dbFile), raised), e, path,
                                        defaultResolution, generationTime, sourceFrame, fileSize, animatedPath)
      ensures raised.Some? ==> store.files == old(store.files)
    {
      StoreInSession(store, MultiDatabase.SessionOutcome(Ok(dbFile), raised), e, path, defaultResolution,
                     generationTime, sourceFrame, fileSize, animatedPath);
    }

    /** `_on_thumbnail_generated`: count, store a success, check the cache every tenth time. */
    method OnThumbnailGenerated(e: MediaEntity, c: Completion, raised: Option<string>)
      returns (signals: seq<Signal>, checkCache: bool)
      requires Valid()
      modifies this`completedCount, store
      ensures Valid()
      ensures completedCount == old(completedCount) + 1
      ensures signals == Reported(e, c, completedCount, |processing|)
      ensures checkCache <==> completedCount % 10 == 0
      ensures !ShouldStore(c) || raised.Some? ==> store.files == old(store.files)
      ensures ShouldStore(c) ==>
                store.files == AfterStore(old(store.files), MultiDatabase.SessionOutcome(Ok(dbFile), raised), e,
                                          c.info.value.staticPath, defaultResolution, c.generationTime, c.sourceFrame,
                                          c.fileSize, c.info.value.animatedPath)
    {
      completedCount := completedCount + 1;
      if ShouldStore(c) {
        var info := c.info.value;
        StoreThumbnailInfo(e, info.staticPath, c.generationTime, c.sourceFrame, c.fileSize, info.animatedPath, raised);
      }
      signals := Reported(e, c, completedCount, |processing|);
      checkCache := completedCount % 10 == 0;
    }

    /**
     * `get_animated_thumbnail_path`: the GIF beside the thumbnail, else the
     * path its database records; a session that raises records nothing.
     */
    function GetAnimatedThumbnailPath(e: MediaEntity, fs: Fs, raised: Option<string>): (r: Result<Option<string>>)
      reads this, store
      requires Valid()
      ensures r.Ok? && r.value.Some? ==> fs.present(r.value.value)
      ensures !(e.entityType == Entities.Video || |e.files| > 1) ==> r == Ok(None)
      ensures raised.Some? && r.Ok? && r.value.Some? ==>
                Thumbnails.AnimatedPathIn(cacheDirectory, e, defaultResolution, fs) == Ok(r.value.value)
    {
      AnimatedLookup(cacheDirectory, e, defaultResolution, fs,
                     if raised.Some? then None else StoredAnimatedPath(store.TablesOf(dbFile), e, defaultResolution, fs))
    }
  }
}
