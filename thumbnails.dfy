// Thumbnail cache rules shared by the single-database and the multi-context
// thumbnail managers: cache file names, the staleness test, what a
// generation worker reports, how a finished thumbnail is recorded in the
// database tables, and which files an oversized cache evicts.
//
// The file system is an input: whether a path exists and what `stat`
// answers.  Modification times are integers ordered as the floating-point
// `st_mtime` values are; `mtimeText` is how such a value prints.

module Thumbnails {
  import opened Wrappers
  import opened Text
  import opened Json
  import Paths
  import FileUtils
  import Sorting
  import Entities
  import Records

  type MediaEntity = Entities.MediaEntity

  datatype FileStat = FileStat(mtime: int, mtimeText: string, size: nat)

  /** What the file system answers about paths. */
  datatype Fs = Fs(present: string -> bool, stat: string -> Option<FileStat>)

  const DefaultCacheDirectory: string := ".thumbnails"

  // ------------------------------------------------------------ cache names

  /**
   * The identifier a cache file is named after: a video's file stem and
   * mtime, whose `stat` may fail; anything else's name and file count,
   * followed by the first file's mtime when that file can be stat'ed.
   */
  function Identifier(e: MediaEntity, fs: Fs): (r: Result<string>)
    ensures r.Err? <==> e.entityType == Entities.Video && fs.stat(e.path).None?
  {
    if e.entityType == Entities.Video then
      match fs.stat(e.path)
      case None => Err("OSError: cannot stat " + e.path)
      case Some(st) => Ok(Paths.Stem(Paths.Name(e.path)) + "_" + st.mtimeText)
    else
      var base := e.name + "_" + IntToString(|e.files|);
      if e.files != [] && fs.stat(e.files[0]).Some? then Ok(base + "_" + fs.stat(e.files[0]).value.mtimeText)
      else Ok(base)
  }

  /** The cache name without its extension: sanitised identifier and resolution. */
  function CacheBase(identifier: string, resolution: int): string
  {
    FileUtils.SafeName(identifier) + "_" + IntToString(resolution)
  }

  function ThumbnailName(identifier: string, resolution: int): string
  {
    CacheBase(identifier, resolution) + ".jpg"
  }

  /** `with_suffix('.gif')` applied to the thumbnail's name. */
  function AnimatedName(identifier: string, resolution: int): string
  {
    CacheBase(identifier, resolution) + ".gif"
  }

  lemma IntToStringIsPlain(i: int)
    ensures forall c :: c in IntToString(i) ==> IsDigit(c) || c == '-'
  {
    var d := NatToString(if i < 0 then -i else i);
    assert forall k :: 0 <= k < |d| ==> IsDigit(d[k]);
  }

  /** The base is never empty and contains no slash. */
  lemma CacheBaseIsPlain(identifier: string, resolution: int)
    ensures CacheBase(identifier, resolution) != []
    ensures '/' !in CacheBase(identifier, resolution)
  {
    var safe := FileUtils.SafeName(identifier);
    assert '/' !in safe by {
      FileUtils.SafeNameHasNoInvalidChar(identifier);
      assert '/' in FileUtils.InvalidChars();
    }
    assert '/' !in IntToString(resolution) by {
      IntToStringIsPlain(resolution);
    }
    assert CacheBase(identifier, resolution) == safe + "_" + IntToString(resolution);
  }

  /**
   * `base + suffix`, for a plain base and a suffix that is one dot followed
   * by dot-free text, is a single component with that suffix and that stem.
   */
  lemma DottedName(base: string, suffix: string)
    requires base != [] && '/' !in base
    requires |suffix| >= 2 && suffix[0] == '.' && '.' !in suffix[1..] && '/' !in suffix
    ensures var n := base + suffix;
            n != "" && n != "." && '/' !in n && Paths.Suffix(n) == suffix && Paths.Stem(n) == base
  {
    var n := base + suffix;
    assert n[|base|] == '.';
    assert n[|base| + 1..] == suffix[1..];
    var r := Paths.RFind(n, '.');
    assert r == |base|;
    assert n[|base|..] == suffix;
    assert n[..|base|] == base;
  }

  lemma ExtensionsArePlain()
    ensures ".jpg"[0] == '.' && '.' !in ".jpg"[1..] && '/' !in ".jpg"
    ensures ".gif"[0] == '.' && '.' !in ".gif"[1..] && '/' !in ".gif"
  {
    assert ".jpg"[1..] == "jpg";
    assert ".gif"[1..] == "gif";
  }

  /**
   * The cache names are single path components: not empty, not ".", no
   * slash.  Their suffixes are ".jpg" and ".gif" and they share the stem,
   * so the animated name is the thumbnail's name with its suffix replaced.
   */
  lemma CacheNamesArePlain(identifier: string, resolution: int)
    ensures var n := ThumbnailName(identifier, resolution);
            n != "" && n != "." && '/' !in n && Paths.Suffix(n) == ".jpg"
    ensures var a := AnimatedName(identifier, resolution);
            a != "" && a != "." && '/' !in a && Paths.Suffix(a) == ".gif"
    ensures Paths.Stem(ThumbnailName(identifier, resolution)) + ".gif" == AnimatedName(identifier, resolution)
  {
    var base := CacheBase(identifier, resolution);
    CacheBaseIsPlain(identifier, resolution);
    ExtensionsArePlain();
    DottedName(base, ".jpg");
    DottedName(base, ".gif");
  }

  /** `cache_directory / thumbnail_name`, or the identifier's error. */
  function ThumbnailPathIn(dir: string, e: MediaEntity, resolution: int, fs: Fs): (r: Result<string>)
    ensures r.Err? <==> Identifier(e, fs).Err?
    ensures r.Ok? ==> Paths.Components(r.value) == Paths.Components(dir) + [ThumbnailName(Identifier(e, fs).value, resolution)]
    ensures r.Ok? ==> Paths.Name(r.value) == ThumbnailName(Identifier(e, fs).value, resolution)
    ensures r.Ok? ==> Paths.Suffix(Paths.Name(r.value)) == ".jpg"
  {
    match Identifier(e, fs)
    case Err(msg) => Err(msg)
    case Ok(id) =>
      CacheNamesArePlain(id, resolution);
      Paths.SlashParts(dir, ThumbnailName(id, resolution));
      Paths.SlashName(dir, ThumbnailName(id, resolution));
      Ok(Paths.Slash(dir, ThumbnailName(id, resolution)))
  }

  /** Where the animated version of the same thumbnail lives. */
  function AnimatedPathIn(dir: string, e: MediaEntity, resolution: int, fs: Fs): (r: Result<string>)
    ensures r.Err? <==> Identifier(e, fs).Err?
    ensures r.Ok? ==> Paths.Components(r.value) == Paths.Components(dir) + [AnimatedName(Identifier(e, fs).value, resolution)]
    ensures r.Ok? ==> Paths.Suffix(Paths.Name(r.value)) == ".gif"
  {
    match Identifier(e, fs)
    case Err(msg) => Err(msg)
    case Ok(id) =>
      CacheNamesArePlain(id, resolution);
      Paths.SlashParts(dir, AnimatedName(id, resolution));
      Paths.SlashName(dir, AnimatedName(id, resolution));
      Ok(Paths.Slash(dir, AnimatedName(id, resolution)))
  }

  /** The static and the animated thumbnail sit side by side, differing only in suffix. */
  lemma AnimatedBesideStatic(dir: string, e: MediaEntity, resolution: int, fs: Fs)
    requires Identifier(e, fs).Ok?
    ensures var s := ThumbnailPathIn(dir, e, resolution, fs).value;
            var a := AnimatedPathIn(dir, e, resolution, fs).value;
            Paths.Components(s)[..|Paths.Components(s)| - 1] == Paths.Components(a)[..|Paths.Components(a)| - 1]
            && Paths.Stem(Paths.Name(s)) + ".gif" == Paths.Name(a)
  {
    var id := Identifier(e, fs).value;
    CacheNamesArePlain(id, resolution);
    Paths.SlashName(dir, AnimatedName(id, resolution));
    var s := ThumbnailPathIn(dir, e, resolution, fs).value;
    var a := AnimatedPathIn(dir, e, resolution, fs).value;
    assert Paths.Components(s)[..|Paths.Components(s)| - 1] == Paths.Components(dir);
    assert Paths.Components(a)[..|Paths.Components(a)| - 1] == Paths.Components(dir);
  }

  // ------------------------------------------------------------- staleness

  /** The files a thumbnail is generated from: all files of a sequence, else the entity's path. */
  function Sources(e: MediaEntity): (r: seq<string>)
    ensures r != []
  {
    if |e.files| > 1 then e.files else [e.path]
  }

  /** The newest modification time among `srcs`, or None when one cannot be stat'ed. */
  function NewestMtime(srcs: seq<string>, fs: Fs): (r: Option<int>)
    requires srcs != []
    ensures r.Some? <==> forall i :: 0 <= i < |srcs| ==> fs.stat(srcs[i]).Some?
    ensures r.Some? ==> forall i :: 0 <= i < |srcs| ==> fs.stat(srcs[i]).value.mtime <= r.value
    ensures r.Some? ==> exists i :: 0 <= i < |srcs| && fs.stat(srcs[i]).value.mtime == r.value
    decreases |srcs|
  {
    match fs.stat(srcs[0])
    case None => None
    case Some(st) =>
      if |srcs| == 1 then Some(st.mtime)
      else match NewestMtime(srcs[1..], fs)
        case None => None
        case Some(m) =>
          assert forall i :: 1 <= i < |srcs| ==> srcs[i] == srcs[1..][i - 1];
          Some(if st.mtime > m then st.mtime else m)
  }

  /**
   * `_needs_thumbnail` once the thumbnail's path is known: false only when
   * the thumbnail exists and is strictly newer than the newest source; any
   * failed `stat` means it is needed.
   */
  predicate NeedsThumbnail(thumb: string, e: MediaEntity, fs: Fs)
  {
    var newest := NewestMtime(Sources(e), fs);
    !(fs.present(thumb) && fs.stat(thumb).Some? && newest.Some? && fs.stat(thumb).value.mtime > newest.value)
  }

  /** A thumbnail is kept exactly when it exists and is strictly newer than every source. */
  lemma NeedsThumbnailIff(thumb: string, e: MediaEntity, fs: Fs)
    ensures !NeedsThumbnail(thumb, e, fs) <==>
              fs.present(thumb) && fs.stat(thumb).Some?
              && forall i :: 0 <= i < |Sources(e)| ==>
                   fs.stat(Sources(e)[i]).Some? && fs.stat(Sources(e)[i]).value.mtime < fs.stat(thumb).value.mtime
  {
    var srcs := Sources(e);
    var newest := NewestMtime(srcs, fs);
    if fs.present(thumb) && fs.stat(thumb).Some? && newest.Some? {
      var k :| 0 <= k < |srcs| && fs.stat(srcs[k]).value.mtime == newest.value;
    }
  }

  /** The same thumbnail is needed again once any source is touched after it. */
  lemma TouchedSourceNeedsThumbnail(thumb: string, e: MediaEntity, fs: Fs, i: nat)
    requires i < |Sources(e)| && fs.stat(thumb).Some? && fs.stat(Sources(e)[i]).Some?
    requires fs.stat(Sources(e)[i]).value.mtime >= fs.stat(thumb).value.mtime
    ensures NeedsThumbnail(thumb, e, fs)
  {
    NeedsThumbnailIff(thumb, e, fs);
  }

  /** `_needs_thumbnail` with the path computed from the cache directory; the path's error propagates. */
  function NeedsThumbnailIn(dir: string, e: MediaEntity, resolution: int, fs: Fs): (r: Result<bool>)
    ensures r.Err? <==> Identifier(e, fs).Err?
    ensures r.Ok? ==> r.value == NeedsThumbnail(ThumbnailPathIn(dir, e, resolution, fs).value, e, fs)
  {
    match ThumbnailPathIn(dir, e, resolution, fs)
    case Err(msg) => Err(msg)
    case Ok(p) => Ok(NeedsThumbnail(p, e, fs))
  }

  /** The staleness test for one cache directory, as the filter applies it. */
  function NeedsIn(dir: string, resolution: int, fs: Fs): MediaEntity -> Result<bool>
  {
    e => NeedsThumbnailIn(dir, e, resolution, fs)
  }

  /**
   * The filtering loop of `queue_thumbnail_generation`, as the entities
   * seen so far: those the test keeps, in order, or the test's first error.
   */
  function Pending(xs: seq<MediaEntity>, needs: MediaEntity -> Result<bool>): (r: Result<seq<MediaEntity>>)
    ensures r.Ok? ==> |r.value| <= |xs|
  {
    if xs == [] then Ok([])
    else match Pending(xs[..|xs| - 1], needs)
      case Err(msg) => Err(msg)
      case Ok(p) =>
        var x := xs[|xs| - 1];
        match needs(x)
        case Err(msg) => Err(msg)
        case Ok(needed) => Ok(if needed then p + [x] else p)
  }

  lemma PendingSnoc(xs: seq<MediaEntity>, x: MediaEntity, needs: MediaEntity -> Result<bool>)
    ensures Pending(xs + [x], needs) ==
              match Pending(xs, needs)
              case Err(msg) => Err(msg)
              case Ok(p) =>
                match needs(x)
                case Err(msg) => Err(msg)
                case Ok(needed) => Ok(if needed then p + [x] else p)
  {
    assert (xs + [x])[..|xs + [x]| - 1] == xs;
  }

  /** Once the filter has failed, every longer run fails with the same error. */
  lemma {:induction false} PendingErrSticks(xs: seq<MediaEntity>, i: nat, needs: MediaEntity -> Result<bool>)
    requires i <= |xs| && Pending(xs[..i], needs).Err?
    ensures Pending(xs, needs) == Pending(xs[..i], needs)
    decreases |xs| - i
  {
    if i < |xs| {
      PendingSnoc(xs[..i], xs[i], needs);
      assert xs[..i + 1] == xs[..i] + [xs[i]];
      PendingErrSticks(xs, i + 1, needs);
    } else {
      assert xs[..i] == xs;
    }
  }

  /** The filter fails exactly when the test fails on some entity. */
  lemma {:induction false} PendingErrIff(xs: seq<MediaEntity>, needs: MediaEntity -> Result<bool>)
    ensures Pending(xs, needs).Err? <==> exists i :: 0 <= i < |xs| && needs(xs[i]).Err?
  {
    if xs != [] {
      var init := xs[..|xs| - 1];
      PendingErrIff(init, needs);
      if Pending(init, needs).Err? {
        var i :| 0 <= i < |init| && needs(init[i]).Err?;
        assert init[i] == xs[i];
      } else if exists i :: 0 <= i < |xs| && needs(xs[i]).Err? {
        var i :| 0 <= i < |xs| && needs(xs[i]).Err?;
        if i < |init| {
          assert init[i] == xs[i];
        }
      }
    }
  }

  /** Otherwise it keeps exactly the entities the test accepts. */
  lemma {:induction false} PendingHas(xs: seq<MediaEntity>, needs: MediaEntity -> Result<bool>)
    requires Pending(xs, needs).Ok?
    ensures forall x :: x in Pending(xs, needs).value <==> x in xs && needs(x) == Ok(true)
  {
    if xs != [] {
      var init := xs[..|xs| - 1];
      PendingHas(init, needs);
      assert forall x :: x in xs <==> x in init || x == xs[|xs| - 1];
    }
  }

  /** A video whose file cannot be stat'ed has no cache name. */
  predicate Unnameable(e: MediaEntity, fs: Fs)
  {
    e.entityType == Entities.Video && fs.stat(e.path).None?
  }

  /** Queueing fails exactly when it meets such a video. */
  lemma QueueFailsOnUnnameable(xs: seq<MediaEntity>, dir: string, resolution: int, fs: Fs)
    ensures Pending(xs, NeedsIn(dir, resolution, fs)).Err? <==> exists i :: 0 <= i < |xs| && Unnameable(xs[i], fs)
  {
    PendingErrIff(xs, NeedsIn(dir, resolution, fs));
    assert forall e :: NeedsIn(dir, resolution, fs)(e).Err? <==> Unnameable(e, fs);
  }

  // ---------------------------------------------------------------- worker

  /**
   * What the ffmpeg-based generator answers for one entity: the outcome of
   * each call the worker may make, the probed duration, the size of the
   * written thumbnail and whether the GIF exists afterwards.
   */
  datatype Generator = Generator(
    animatedVideo: bool, animatedSequence: bool, duration: Option<real>, extractFrame: bool,
    extractImage: string -> bool, outputSize: Option<nat>, animatedExists: bool)

  /** The `thumbnail_info` dict a successful worker hands back. */
  datatype ThumbnailInfo = ThumbnailInfo(staticPath: string, animatedPath: Option<string>, entityPath: Option<string>)

  /** The arguments of the completion callback. */
  datatype Completion = Completion(
    info: Option<ThumbnailInfo>, generationTime: real, sourceFrame: Option<real>, fileSize: Option<nat>,
    error: Option<string>)

  const GenerationFailed: string := "Thumbnail generation failed"

  predicate IsSequence(e: MediaEntity) { |e.files| > 1 }

  predicate IsActualVideo(e: MediaEntity) { |e.files| == 1 && e.frameCount != Some(1) }

  /** The still image's time: a tenth of a known non-zero duration, else one second. */
  function SeekTime(duration: Option<real>): (r: real)
    ensures duration.Some? && duration.value > 0.0 ==> 0.0 < r < duration.value
    ensures duration.None? || duration.value == 0.0 ==> r == 1.0
  {
    if duration.Some? && duration.value != 0.0 then duration.value * 0.1 else 1.0
  }

  /** The file a single image's thumbnail is made from. */
  function SingleImageSource(e: MediaEntity): string
  {
    if e.files != [] then e.files[0] else e.path
  }

  /**
   * `ContextAwareThumbnailWorker.run` and `ThumbnailGenerationWorker.run`:
   * an actual video tries the animated GIF first and falls back to a still
   * frame; a sequence tries the GIF and always extracts its middle frame;
   * anything else extracts one image.  `animated` is the job's flag and
   * `animatedEnabled` the configuration switch; `elapsed` is the measured
   * generation time.
   */
  method RunWorker(e: MediaEntity, output: string, animatedOutput: string, animated: bool, animatedEnabled: bool,
                   gen: Generator, entityPath: Option<string>, elapsed: real) returns (c: Completion)
    ensures IsActualVideo(e) ==>
              (c.error.None? <==> (animated && animatedEnabled && gen.animatedVideo) || gen.extractFrame)
    ensures IsSequence(e) ==>
              (c.error.None? <==>
                 (animated && animatedEnabled && gen.animatedSequence) || gen.extractImage(e.files[|e.files| / 2]))
    ensures !IsActualVideo(e) && !IsSequence(e) ==> (c.error.None? <==> gen.extractImage(SingleImageSource(e)))
    ensures c.sourceFrame == if IsActualVideo(e) then Some(SeekTime(gen.duration)) else None
    ensures c.generationTime == elapsed
    ensures c.error.None? ==>
              c.fileSize == gen.outputSize
              && c.info == Some(ThumbnailInfo(output,
                                  if animated && animatedEnabled && (IsActualVideo(e) || IsSequence(e)) && gen.animatedExists
                                  then Some(animatedOutput) else None,
                                  entityPath))
    ensures c.error.Some? ==> c.error == Some(GenerationFailed) && c.info.None? && c.fileSize.None?
  {
    var success := false;
    var sourceFrame: Option<real> := None;
    var animatedPath: Option<string> := None;
    if IsActualVideo(e) {
      if animated && animatedEnabled {
        animatedPath := Some(animatedOutput);
        success := gen.animatedVideo;
        if success {
          // the still frame is written as a fallback; its outcome is ignored
          sourceFrame := Some(SeekTime(gen.duration));
        }
      }
      if !success {
        sourceFrame := Some(SeekTime(gen.duration));
        success := gen.extractFrame;
      }
    } else if IsSequence(e) {
      if animated && animatedEnabled {
        animatedPath := Some(animatedOutput);
        success := gen.animatedSequence;
      }
      var staticSuccess := gen.extractImage(e.files[|e.files| / 2]);
      if !success {
        success := staticSuccess;
      }
    } else {
      success := gen.extractImage(SingleImageSource(e));
    }
    if success {
      var shown := if animatedPath.Some? && gen.animatedExists then animatedPath else None;
      c := Completion(Some(ThumbnailInfo(output, shown, entityPath)), elapsed, sourceFrame, gen.outputSize, None);
    } else {
      c := Completion(None, elapsed, sourceFrame, None, Some(GenerationFailed));
    }
  }

  /** The job a queued entity becomes. */
  datatype Job = Job(entity: MediaEntity, output: string, animatedOutput: string, animated: bool,
                     entityPath: Option<string>)

  /** Animation is asked for videos and sequences, when the configuration enables it. */
  predicate WantsAnimation(e: MediaEntity, animatedEnabled: bool)
  {
    (e.entityType == Entities.Video || |e.files| > 1) && animatedEnabled
  }

  /** The jobs started for the entities left after filtering. */
  function Jobs(pending: seq<MediaEntity>, dir: string, resolution: int, fs: Fs, animatedEnabled: bool,
                entityPath: Option<string>): (r: seq<Job>)
    requires forall i :: 0 <= i < |pending| ==> Identifier(pending[i], fs).Ok?
    ensures |r| == |pending|
    ensures forall i :: 0 <= i < |r| ==>
              r[i].entity == pending[i] && r[i].entityPath == entityPath
              && r[i].output == ThumbnailPathIn(dir, pending[i], resolution, fs).value
              && r[i].animatedOutput == AnimatedPathIn(dir, pending[i], resolution, fs).value
              && r[i].animated == WantsAnimation(pending[i], animatedEnabled)
  {
    seq(|pending|, i requires 0 <= i < |pending| =>
      Job(pending[i], ThumbnailPathIn(dir, pending[i], resolution, fs).value,
          AnimatedPathIn(dir, pending[i], resolution, fs).value,
          WantsAnimation(pending[i], animatedEnabled), entityPath))
  }

  /** The entities the jobs are for, in order. */
  function JobEntities(jobs: seq<Job>): (r: seq<MediaEntity>)
    ensures |r| == |jobs| && forall i :: 0 <= i < |jobs| ==> r[i] == jobs[i].entity
  {
    seq(|jobs|, i requires 0 <= i < |jobs| => jobs[i].entity)
  }

  /** One job per pending entity, in the same order. */
  lemma JobsFollowPending(pending: seq<MediaEntity>, dir: string, resolution: int, fs: Fs, animatedEnabled: bool,
                          entityPath: Option<string>)
    requires forall i :: 0 <= i < |pending| ==> Identifier(pending[i], fs).Ok?
    ensures JobEntities(Jobs(pending, dir, resolution, fs, animatedEnabled, entityPath)) == pending
  {
  }

  /** Every entity the filter keeps could be named, so its job can be built. */
  lemma PendingAreNamed(xs: seq<MediaEntity>, dir: string, resolution: int, fs: Fs)
    requires Pending(xs, NeedsIn(dir, resolution, fs)).Ok?
    ensures var p := Pending(xs, NeedsIn(dir, resolution, fs)).value;
            forall i :: 0 <= i < |p| ==> Identifier(p[i], fs).Ok?
  {
    var p := Pending(xs, NeedsIn(dir, resolution, fs)).value;
    PendingHas(xs, NeedsIn(dir, resolution, fs));
    forall i | 0 <= i < |p| ensures Identifier(p[i], fs).Ok? {
      assert p[i] in p;
    }
  }

  // ---------------------------------------------------------- storing a row

  /** `float(x) if x else None`. */
  function NonZero(x: real): Option<real>
  {
    if x != 0.0 then Some(x) else None
  }

  /** `float(x) if x else None` for an optional value. */
  function NonZeroOpt(x: Option<real>): (r: Option<real>)
    ensures r.Some? <==> x.Some? && x.value != 0.0
    ensures r.Some? ==> r == x
  {
    if x.Some? then NonZero(x.value) else None
  }

  /** `int(x) if x else None` for a size. */
  function PositiveOpt(x: Option<nat>): Option<int>
  {
    if x.Some? && x.value != 0 then Some(x.value) else None
  }

  /** A non-empty animated path, if any. */
  function Present(x: Option<string>): (r: Option<string>)
    ensures r.Some? <==> x.Some? && x.value != ""
    ensures r.Some? ==> r == x
  {
    if x.Some? && x.value != "" then x else None
  }

  function AnimatedData(path: string): Json
  {
    JObj(map["animated_path" := JStr(path)])
  }

  /** The thumbnail row after an update, or the new one. */
  function ThumbnailRowFor(existing: Option<Records.ThumbnailRow>, entityId: nat, path: string, resolution: int,
                           generationTime: real, sourceFrame: Option<real>, fileSize: Option<nat>,
                           animatedPath: Option<string>): (r: Result<Records.ThumbnailRow>)
    ensures existing.None? ==> (r.Ok? <==> Records.ValidateResolution(resolution).Ok?)
    ensures existing.Some? ==> r.Ok?
    ensures r.Ok? ==>
              r.value.entityId == entityId && r.value.resolution == resolution && r.value.path == path
              && r.value.generationTime == NonZero(generationTime) && r.value.sourceFrame == NonZeroOpt(sourceFrame)
              && r.value.fileSize == PositiveOpt(fileSize) && r.value.isValid
    ensures r.Ok? ==>
              r.value.extraData == if Present(animatedPath).Some? then AnimatedData(animatedPath.value)
                                   else if existing.Some? then existing.value.extraData else JNull
  {
    var extra := Present(animatedPath);
    match existing
    case Some(row) =>
      Ok(Records.ThumbnailRow(entityId, path, resolution, NonZero(generationTime), NonZeroOpt(sourceFrame),
                              PositiveOpt(fileSize), true,
                              if extra.Some? then AnimatedData(extra.value) else row.extraData))
    case None =>
      if Records.ValidateResolution(resolution).Err? then Err(Records.ValidateResolution(resolution).error)
      else Ok(Records.ThumbnailRow(entityId, path, resolution, NonZero(generationTime), NonZeroOpt(sourceFrame),
                                   PositiveOpt(fileSize), true,
                                   if extra.Some? then AnimatedData(extra.value) else JNull))
  }

  /** The lookup-or-create step for the entity being stored. */
  function EntityFor(t: Records.Tables, e: MediaEntity): (r: Result<(Records.Tables, nat)>)
    requires Records.WellFormed(t)
    ensures r.Ok? ==> Records.WellFormed(r.value.0) && r.value.1 < |r.value.0.entities|
  {
    Records.FindOrAddEntity(t, e.path, e.entityType.Value(), e.name, PositiveOpt(e.fileSize), |e.files|, false, true)
  }

  /** Writes `row` under `key` and marks entity `i` as having a thumbnail. */
  function PutThumbnail(t: Records.Tables, i: nat, key: (nat, int), row: Records.ThumbnailRow): (r: Records.Tables)
    requires Records.WellFormed(t) && i < |t.entities| && key.0 == i + 1
    requires row.entityId == key.0 && row.resolution == key.1
    ensures Records.WellFormed(r) && r.metadata == t.metadata && r.thumbnails == t.thumbnails[key := row]
    ensures r.entities == t.entities[i := t.entities[i].(thumbnailGenerated := true)]
  {
    var t2 := Records.Tables(t.entities, t.metadata, t.thumbnails[key := row]);
    Records.SetEntity(t2, i, t.entities[i].(thumbnailGenerated := true))
  }

  /**
   * `_store_in_session` (and the body of the single manager's
   * `_store_thumbnail_info`): find or create the entity, update its
   * (entity, resolution) thumbnail row or add one, and mark the entity as
   * having a thumbnail.  An error leaves the transaction uncommitted.
   */
  function StoreThumbnailRow(t: Records.Tables, e: MediaEntity, path: string, resolution: int, generationTime: real,
                             sourceFrame: Option<real>, fileSize: Option<nat>, animatedPath: Option<string>)
    : (r: Result<Records.Tables>)
    requires Records.WellFormed(t)
    ensures r.Ok? ==> Records.WellFormed(r.value) && r.value.metadata == t.metadata
  {
    var found := EntityFor(t, e);
    if found.Err? then Err(found.error)
    else
      var t1, i := found.value.0, found.value.1;
      var key := (i + 1, resolution);
      var existing := if key in t1.thumbnails then Some(t1.thumbnails[key]) else None;
      var row := ThumbnailRowFor(existing, i + 1, path, resolution, generationTime, sourceFrame, fileSize, animatedPath);
      if row.Err? then Err(row.error)
      else Ok(PutThumbnail(t1, i, key, row.value))
  }

  /** Storing finds (or adds) the entity and marks it; no other entity changes. */
  lemma StoreMarksEntity(t: Records.Tables, e: MediaEntity, path: string, resolution: int, generationTime: real,
                         sourceFrame: Option<real>, fileSize: Option<nat>, animatedPath: Option<string>,
                         r: Records.Tables)
    requires Records.WellFormed(t)
    requires StoreThumbnailRow(t, e, path, resolution, generationTime, sourceFrame, fileSize, animatedPath) == Ok(r)
    ensures var f := Records.FindEntity(r.entities, e.path, e.entityType.Value());
            && f.Some? && r.entities[f.value].thumbnailGenerated
            && |t.entities| <= |r.entities|
            && (forall j :: 0 <= j < |t.entities| && j != f.value ==> r.entities[j] == t.entities[j])
  {
    var t1, i := EntityFor(t, e).value.0, EntityFor(t, e).value.1;
    var marked := t1.entities[i].(thumbnailGenerated := true);
    assert r.entities == t1.entities[i := marked];
    Records.FindEntityAfterSet(t1.entities, i, marked, e.path, e.entityType.Value());
    assert forall j :: 0 <= j < |t.entities| ==> t1.entities[j] == t1.entities[..|t.entities|][j];
  }

  /**
   * The row for the stored entity and the resolution carries the new
   * values; every other row is kept.
   */
  lemma StoreWritesRow(t: Records.Tables, e: MediaEntity, path: string, resolution: int, generationTime: real,
                       sourceFrame: Option<real>, fileSize: Option<nat>, animatedPath: Option<string>,
                       r: Records.Tables)
    requires Records.WellFormed(t)
    requires StoreThumbnailRow(t, e, path, resolution, generationTime, sourceFrame, fileSize, animatedPath) == Ok(r)
    ensures Records.FindEntity(r.entities, e.path, e.entityType.Value()).Some?
    ensures var key := (Records.FindEntity(r.entities, e.path, e.entityType.Value()).value + 1, resolution);
            && key in r.thumbnails
            && r.thumbnails[key] == r.thumbnails[key].(path := path, generationTime := NonZero(generationTime),
                                                        sourceFrame := NonZeroOpt(sourceFrame),
                                                        fileSize := PositiveOpt(fileSize), isValid := true)
            && (Present(animatedPath).Some? ==> r.thumbnails[key].extraData == AnimatedData(animatedPath.value))
            && r.thumbnails.Keys == t.thumbnails.Keys + {key}
            && (forall k :: k in t.thumbnails && k != key ==> r.thumbnails[k] == t.thumbnails[k])
  {
    var t1, i := EntityFor(t, e).value.0, EntityFor(t, e).value.1;
    var marked := t1.entities[i].(thumbnailGenerated := true);
    assert r.entities == t1.entities[i := marked];
    Records.FindEntityAfterSet(t1.entities, i, marked, e.path, e.entityType.Value());
  }

  /** Storing into tables that already hold exactly the stored values changes nothing. */
  lemma StoreUnchanged(t: Records.Tables, e: MediaEntity, path: string, resolution: int, generationTime: real,
                       sourceFrame: Option<real>, fileSize: Option<nat>, animatedPath: Option<string>)
    requires Records.WellFormed(t)
    requires var f := Records.FindEntity(t.entities, e.path, e.entityType.Value());
             && f.Some? && t.entities[f.value].thumbnailGenerated
             && var key := (f.value + 1, resolution);
             && key in t.thumbnails
             && t.thumbnails[key] == t.thumbnails[key].(path := path, generationTime := NonZero(generationTime),
                                                        sourceFrame := NonZeroOpt(sourceFrame),
                                                        fileSize := PositiveOpt(fileSize), isValid := true)
             && (Present(animatedPath).Some? ==> t.thumbnails[key].extraData == AnimatedData(animatedPath.value))
    ensures StoreThumbnailRow(t, e, path, resolution, generationTime, sourceFrame, fileSize, animatedPath) == Ok(t)
  {
    var f := Records.FindEntity(t.entities, e.path, e.entityType.Value()).value;
    var key := (f + 1, resolution);
    var row := t.thumbnails[key];
    assert EntityFor(t, e) == Ok((t, f));
    assert ThumbnailRowFor(Some(row), f + 1, path, resolution, generationTime, sourceFrame, fileSize, animatedPath)
           == Ok(row);
    assert PutThumbnail(t, f, key, row) == t by {
      assert t.thumbnails[key := row] == t.thumbnails;
      assert t.entities[f := t.entities[f].(thumbnailGenerated := true)] == t.entities;
    }
  }

  /** The entity and resolution only decide which row is written; storing it twice is storing it once. */
  lemma StoreTwiceIsOnce(t: Records.Tables, e: MediaEntity, path: string, resolution: int, generationTime: real,
                         sourceFrame: Option<real>, fileSize: Option<nat>, animatedPath: Option<string>,
                         once: Records.Tables)
    requires Records.WellFormed(t)
    requires StoreThumbnailRow(t, e, path, resolution, generationTime, sourceFrame, fileSize, animatedPath) == Ok(once)
    ensures StoreThumbnailRow(once, e, path, resolution, generationTime, sourceFrame, fileSize, animatedPath) == Ok(once)
  {
    StoreMarksEntity(t, e, path, resolution, generationTime, sourceFrame, fileSize, animatedPath, once);
    StoreWritesRow(t, e, path, resolution, generationTime, sourceFrame, fileSize, animatedPath, once);
    StoreUnchanged(once, e, path, resolution, generationTime, sourceFrame, fileSize, animatedPath);
  }

  /** A valid name and an allowed resolution are all storing needs. */
  lemma StoreSucceeds(t: Records.Tables, e: MediaEntity, path: string, resolution: int, generationTime: real,
                      sourceFrame: Option<real>, fileSize: Option<nat>, animatedPath: Option<string>)
    requires Records.WellFormed(t)
    requires Records.ValidateName(e.name).Ok? && Records.MinResolution <= resolution <= Records.MaxResolution
    ensures StoreThumbnailRow(t, e, path, resolution, generationTime, sourceFrame, fileSize, animatedPath).Ok?
  {
    assert Records.ValidateEntityType(e.entityType.Value()).Ok?;
  }

  // --------------------------------------------------------------- eviction

  /** The sort key: a file's mtime (only used once every file could be stat'ed). */
  function Mtime(fs: Fs, f: string): int
  {
    if fs.stat(f).Some? then fs.stat(f).value.mtime else 0
  }

  /** The members of `xs` whose unlink succeeds, in order. */
  function Unlinked(xs: seq<string>, unlinks: string -> bool): (r: seq<string>)
    ensures forall f :: f in r <==> f in xs && unlinks(f)
  {
    if xs == [] then []
    else
      var init := Unlinked(xs[..|xs| - 1], unlinks);
      var x := xs[|xs| - 1];
      assert forall f :: f in xs <==> f in xs[..|xs| - 1] || f == x;
      if unlinks(x) then init + [x] else init
  }

  /** A prefix of a sorted arrangement holds every element older than one of its own. */
  lemma OldestPrefix(sorted: seq<string>, files: seq<string>, n: nat, key: string -> int)
    requires Sorting.SortedByInt(sorted, key) && multiset(sorted) == multiset(files) && n <= |sorted|
    ensures multiset(sorted[..n]) <= multiset(files)
    ensures forall a, b :: a in sorted[..n] && b in files && key(b) < key(a) ==> b in sorted[..n]
  {
    assert sorted == sorted[..n] + sorted[n..];
    forall a, b | a in sorted[..n] && b in files && key(b) < key(a) ensures b in sorted[..n] {
      var x :| 0 <= x < n && sorted[x] == a;
      assert b in multiset(sorted);
      var y :| 0 <= y < |sorted| && sorted[y] == b;
      assert y < x;
    }
  }

  /**
   * `_cleanup_old_thumbnails` and `_cleanup_old_thumbnails_in_context`: the
   * cache's .jpg files sorted by mtime; the oldest quarter are the
   * candidates, and those whose unlink succeeds are removed.  A file whose
   * `stat` fails while sorting aborts the clean-up before anything is
   * removed.
   */
  method CleanupOldThumbnails(files: seq<string>, fs: Fs, unlinks: string -> bool)
    returns (candidates: seq<string>, removed: seq<string>)
    ensures (exists i :: 0 <= i < |files| && fs.stat(files[i]).None?) ==> candidates == [] && removed == []
    ensures (forall i :: 0 <= i < |files| ==> fs.stat(files[i]).Some?) ==>
              |candidates| == |files| / 4 && multiset(candidates) <= multiset(files)
              && forall a, b :: a in candidates && b in files && Mtime(fs, b) < Mtime(fs, a) ==> b in candidates
    ensures forall f :: f in removed <==> f in candidates && unlinks(f)
  {
    if exists i :: 0 <= i < |files| && fs.stat(files[i]).None? {
      return [], [];
    }
    var sorted := Sorting.SortByInt(files, f => Mtime(fs, f));
    candidates := sorted[..|files| / 4];
    OldestPrefix(sorted, files, |files| / 4, f => Mtime(fs, f));
    removed := UnlinkEach(candidates, unlinks);
  }

  /** The deletion loop: each candidate is unlinked in turn, and the ones that go are collected. */
  method UnlinkEach(candidates: seq<string>, unlinks: string -> bool) returns (removed: seq<string>)
    ensures removed == Unlinked(candidates, unlinks)
  {
    removed := [];
    var i := 0;
    while i < |candidates|
      invariant 0 <= i <= |candidates|
      invariant removed == Unlinked(candidates[..i], unlinks)
    {
      assert candidates[..i + 1][..i] == candidates[..i];
      if unlinks(candidates[i]) {
        removed := removed + [candidates[i]];
      }
      i := i + 1;
    }
    assert candidates[..i] == candidates;
  }

  /** `cache_size_mb > max_cache_size_mb`, with the megabyte division done on exact values. */
  predicate OverLimit(sizeBytes: nat, maxCacheSizeMb: int)
  {
    (sizeBytes as real) / 1048576.0 > maxCacheSizeMb as real
  }

  lemma OverLimitInBytes(sizeBytes: nat, maxCacheSizeMb: int)
    ensures OverLimit(sizeBytes, maxCacheSizeMb) <==> sizeBytes > maxCacheSizeMb * 1048576
  {
    var x := sizeBytes as real;
    var m := maxCacheSizeMb as real;
    assert x / 1048576.0 > m <==> x > m * 1048576.0;
    assert (maxCacheSizeMb * 1048576) as real == m * 1048576.0;
  }
}
