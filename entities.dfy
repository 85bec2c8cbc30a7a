/**
 * The entity managers: how a directory listing becomes media entities.  A
 * directory that holds only images (and ignorable files) is one
 * folder-sequence entity; otherwise its qualifying subfolders, its videos,
 * its detected image sequences and its remaining single images each become
 * entities.  The recursive scan walks every visible directory that is not
 * itself a sequence folder.  The multi-context manager adds the current path
 * and its storage context.
 *
 * The file system is an input: `Disk.listing` is `iterdir()` (None when the
 * path is not a readable directory) and `Disk.size` is `stat().st_size`
 * (None when `stat` raises).
 */
module Entities {
  import opened Wrappers
  import opened Text
  import Paths
  import Sorting
  import FileUtils
  import SequenceDetector
  import PathContext

  type DirEntry = FileUtils.DirEntry
  type SequenceInfo = SequenceDetector.SequenceInfo

  datatype EntityType = Video | Sequence
  {
    function Value(): string
    {
      match this
      case Video => "video"
      case Sequence => "sequence"
    }
  }

  datatype MediaEntity = MediaEntity(
    path: string, entityType: EntityType, name: string, files: seq<string>,
    frameRange: Option<(int, int)>, fileSize: Option<nat>, frameCount: Option<int>)

  type Listing = string -> Option<seq<DirEntry>>
  type Stat = string -> Option<nat>

  /** What the file system answers: directory listings and file sizes. */
  datatype Disk = Disk(listing: Listing, size: Stat)

  /**
   * The manager's settings as read from the configuration: video and image
   * extensions as configured, ignored extensions and names lower-cased.
   */
  datatype ScanSettings = ScanSettings(
    videoExts: set<string>, imageExts: set<string>, showHidden: bool,
    folderSequenceEnabled: bool, ignoredExts: set<string>, ignoredNames: set<string>)

  // ------------------------------------------------------- listing filters

  /** The listing without hidden entries, unless hidden entries are shown. */
  function Visible(items: seq<DirEntry>, showHidden: bool): (r: seq<DirEntry>)
    ensures |r| <= |items|
  {
    if items == [] then []
    else
      (if showHidden || !FileUtils.IsHidden(items[0].name) then [items[0]] else [])
      + Visible(items[1..], showHidden)
  }

  lemma {:induction false} VisibleHas(items: seq<DirEntry>, showHidden: bool, x: DirEntry)
    ensures x in Visible(items, showHidden) <==> x in items && (showHidden || !FileUtils.IsHidden(x.name))
  {
    if items != [] {
      VisibleHas(items[1..], showHidden, x);
    }
  }

  function DirsOf(items: seq<DirEntry>): (r: seq<DirEntry>)
    ensures |r| <= |items|
  {
    if items == [] then []
    else (if items[0].isDir then [items[0]] else []) + DirsOf(items[1..])
  }

  lemma {:induction false} DirsOfHas(items: seq<DirEntry>, x: DirEntry)
    ensures x in DirsOf(items) <==> x in items && x.isDir
  {
    if items != [] {
      DirsOfHas(items[1..], x);
    }
  }

  function FilesOf(items: seq<DirEntry>): (r: seq<DirEntry>)
    ensures |r| <= |items|
  {
    if items == [] then []
    else (if items[0].isFile then [items[0]] else []) + FilesOf(items[1..])
  }

  lemma {:induction false} FilesOfHas(items: seq<DirEntry>, x: DirEntry)
    ensures x in FilesOf(items) <==> x in items && x.isFile
  {
    if items != [] {
      FilesOfHas(items[1..], x);
    }
  }

  function PathsOf(xs: seq<DirEntry>): (r: seq<string>)
    ensures |r| == |xs| && forall i :: 0 <= i < |xs| ==> r[i] == xs[i].path
  {
    if xs == [] then [] else [xs[0].path] + PathsOf(xs[1..])
  }

  predicate Distinct(xs: seq<string>)
  {
    forall i, j :: 0 <= i < j < |xs| ==> xs[i] != xs[j]
  }

  // ------------------------------------------------- folder-sequence test

  datatype Category = Ignored | Image | VideoFile | Other

  /** Ignored (by suffix or lower-cased name) is checked first, then image, then video. */
  function CategoryOf(f: DirEntry, s: ScanSettings): Category
  {
    var ext := f.Ext();
    if ext in s.ignoredExts || Lower(f.name) in s.ignoredNames then Ignored
    else if ext in s.imageExts then Image
    else if ext in s.videoExts then VideoFile
    else Other
  }

  /** The files of one category, in listing order. */
  function WithCategory(files: seq<DirEntry>, c: Category, s: ScanSettings): (r: seq<DirEntry>)
    ensures |r| <= |files|
  {
    if files == [] then []
    else
      var n := |files|;
      assert files == files[..n - 1] + [files[n - 1]];
      WithCategory(files[..n - 1], c, s) + (if CategoryOf(files[n - 1], s) == c then [files[n - 1]] else [])
  }

  lemma {:induction false} WithCategoryHas(files: seq<DirEntry>, c: Category, s: ScanSettings, x: DirEntry)
    ensures x in WithCategory(files, c, s) <==> x in files && CategoryOf(x, s) == c
  {
    if files != [] {
      var n := |files|;
      assert files == files[..n - 1] + [files[n - 1]];
      WithCategoryHas(files[..n - 1], c, s, x);
    }
  }

  lemma WithCategorySnoc(files: seq<DirEntry>, f: DirEntry, c: Category, s: ScanSettings)
    ensures WithCategory(files + [f], c, s) == WithCategory(files, c, s) + (if CategoryOf(f, s) == c then [f] else [])
  {
    assert (files + [f])[..|files|] == files;
  }

  /** The category lists of `files[..i + 1]` are those of `files[..i]`, `files[i]` added to its own. */
  lemma WithCategoryAt(files: seq<DirEntry>, i: nat, c: Category, s: ScanSettings)
    requires i < |files|
    ensures WithCategory(files[..i + 1], c, s) == WithCategory(files[..i], c, s) + (if CategoryOf(files[i], s) == c then [files[i]] else [])
  {
    assert files[..i + 1] == files[..i] + [files[i]];
    WithCategorySnoc(files[..i], files[i], c, s);
  }

  /** The visible entries of a listed directory. */
  function VisibleItems(s: ScanSettings, disk: Disk, path: string): seq<DirEntry>
    requires disk.listing(path).Some?
  {
    Visible(disk.listing(path).value, s.showHidden)
  }

  /** `_is_folder_sequence`, as the source decides it. */
  predicate FolderQualifies(s: ScanSettings, disk: Disk, path: string)
  {
    s.folderSequenceEnabled && disk.listing(path).Some?
    && var items := VisibleItems(s, disk, path);
       var files := FilesOf(items);
       DirsOf(items) == [] && files != []
       && WithCategory(files, VideoFile, s) == [] && WithCategory(files, Other, s) == []
       && |WithCategory(files, Image, s)| >= 2
  }

  /**
   * The same test stated entry by entry: detection is on, the path lists,
   * no visible entry is a directory, some visible entry is a file, every
   * visible file is ignored or an image, and at least two are images.
   */
  lemma FolderQualifiesIff(s: ScanSettings, disk: Disk, path: string)
    ensures FolderQualifies(s, disk, path) <==>
              s.folderSequenceEnabled && disk.listing(path).Some?
              && (var items := VisibleItems(s, disk, path);
                  (forall x :: x in items ==> !x.isDir)
                  && (exists x :: x in items && x.isFile)
                  && (forall x :: x in items && x.isFile ==> CategoryOf(x, s) in {Ignored, Image})
                  && |WithCategory(FilesOf(items), Image, s)| >= 2)
  {
    if s.folderSequenceEnabled && disk.listing(path).Some? {
      var items := VisibleItems(s, disk, path);
      var files := FilesOf(items);
      if DirsOf(items) != [] {
        DirsOfHas(items, DirsOf(items)[0]);
      } else {
        forall x | x in items ensures !x.isDir {
          DirsOfHas(items, x);
        }
      }
      if files != [] {
        FilesOfHas(items, files[0]);
      } else {
        forall x | x in items ensures !x.isFile {
          FilesOfHas(items, x);
        }
      }
      var videos, others := WithCategory(files, VideoFile, s), WithCategory(files, Other, s);
      if videos != [] {
        WithCategoryHas(files, VideoFile, s, videos[0]);
        FilesOfHas(items, videos[0]);
      } else if others != [] {
        WithCategoryHas(files, Other, s, others[0]);
        FilesOfHas(items, others[0]);
      } else {
        forall x | x in items && x.isFile ensures CategoryOf(x, s) in {Ignored, Image} {
          FilesOfHas(items, x);
          WithCategoryHas(files, VideoFile, s, x);
          WithCategoryHas(files, Other, s, x);
        }
      }
    }
  }

  // ---------------------------------------------- folder-sequence entity

  /** The sum of the sizes `stat` reports; files it cannot stat add nothing. */
  function TotalSize(paths: seq<string>, size: Stat): nat
  {
    if paths == [] then 0
    else
      var n := |paths|;
      TotalSize(paths[..n - 1], size) + (match size(paths[n - 1]) case Some(b) => b case None => 0)
  }

  lemma TotalSizeSnoc(paths: seq<string>, p: string, size: Stat)
    ensures TotalSize(paths + [p], size) == TotalSize(paths, size) + (match size(p) case Some(b) => b case None => 0)
  {
    assert (paths + [p])[..|paths|] == paths;
  }

  /** The size loop: adds each size `stat` reports and skips the files it fails on. */
  method TotalSizeOf(paths: seq<string>, size: Stat) returns (total: nat)
    ensures total == TotalSize(paths, size)
  {
    total := 0;
    var j := 0;
    while j < |paths|
      invariant 0 <= j <= |paths|
      invariant total == TotalSize(paths[..j], size)
    {
      assert paths[..j + 1] == paths[..j] + [paths[j]];
      TotalSizeSnoc(paths[..j], paths[j], size);
      match size(paths[j]) {
        case Some(b) => total := total + b;
        case None =>
      }
      j := j + 1;
    }
    assert paths[..j] == paths;
  }

  /** `max(seqs, key=len(files))`: the first sequence with the most files. */
  function FirstLargest(seqs: seq<SequenceInfo>): (r: SequenceInfo)
    requires seqs != []
    ensures r in seqs && forall t :: t in seqs ==> |t.files| <= |r.files|
    ensures exists k :: 0 <= k < |seqs| && seqs[k] == r && forall j :: 0 <= j < k ==> |seqs[j].files| < |r.files|
  {
    var n := |seqs|;
    if n == 1 then seqs[0]
    else
      var m := FirstLargest(seqs[..n - 1]);
      assert seqs == seqs[..n - 1] + [seqs[n - 1]];
      if |seqs[n - 1].files| > |m.files| then seqs[n - 1] else m
  }

  /** The image files of a folder, sorted (all share the folder, so by name). */
  function FolderImagePaths(s: ScanSettings, disk: Disk, path: string): (r: seq<string>)
  {
    match disk.listing(path)
    case None => []
    case Some(items) => Sorting.SortStrings(PathsOf(WithCategory(FilesOf(Visible(items, s.showHidden)), Image, s)))
  }

  /** The frame range of a folder's images: that of the first largest detected sequence, or (1, n). */
  function FolderRange(images: seq<string>, det: SequenceDetector.Detector, matcher: SequenceDetector.Matcher): (int, int)
    reads det
  {
    var seqs := det.Detect(images, matcher);
    if seqs == [] then (1, |images|) else (FirstLargest(seqs).firstFrame, FirstLargest(seqs).lastFrame)
  }

  /** `total if total > 0 else None`. */
  function PositiveSize(total: nat): (r: Option<nat>)
  {
    if total > 0 then Some(total) else None
  }

  /**
   * `_create_folder_sequence_entity`: the folder itself, with its image files
   * sorted, its frame count, the frame range of its images and their total
   * size.  Without images it is the fallback entity.
   */
  function FolderEntityOf(s: ScanSettings, det: SequenceDetector.Detector, disk: Disk,
                          matcher: SequenceDetector.Matcher, path: string): (e: MediaEntity)
    reads det
  {
    var images := FolderImagePaths(s, disk, path);
    if images == [] then
      MediaEntity(path, Video, Paths.Name(path), [], Some((1, 1)), None, Some(0))
    else
      MediaEntity(path, Video, Paths.Name(path), images, Some(FolderRange(images, det, matcher)),
                  PositiveSize(TotalSize(images, disk.size)), Some(|images|))
  }

  /**
   * The folder entity is the folder, named after it; its files are the
   * visible image files, sorted, and its frame count is their number; with
   * images its range is the largest sequence's range, or (1, n) when no
   * sequence is found, and its size is positive when present; without
   * images it has range (1, 1) and no size.
   */
  lemma FolderEntityFacts(s: ScanSettings, det: SequenceDetector.Detector, disk: Disk,
                          matcher: SequenceDetector.Matcher, path: string)
    ensures var e := FolderEntityOf(s, det, disk, matcher, path);
      && e.path == path && e.entityType == Video && e.name == Paths.Name(path)
      && e.frameCount == Some(|e.files|)
      && (forall i, j :: 0 <= i < j < |e.files| ==> Sorting.StrLe(e.files[i], e.files[j]))
      && (disk.listing(path).Some? ==>
            multiset(e.files) == multiset(PathsOf(WithCategory(FilesOf(VisibleItems(s, disk, path)), Image, s))))
      && (e.files == [] ==> e.frameRange == Some((1, 1)) && e.fileSize == None)
      && (e.files != [] ==>
            var seqs := det.Detect(e.files, matcher);
            e.frameRange == Some(if seqs == [] then (1, |e.files|)
                                 else (FirstLargest(seqs).firstFrame, FirstLargest(seqs).lastFrame)))
      && (e.fileSize.Some? ==> e.fileSize.value > 0)
  {
  }

  // ------------------------------------------------------ entity builders

  /** `_create_video_entity`: named by the file's stem, its size when `stat` succeeds. */
  function VideoEntity(f: DirEntry, size: Stat): MediaEntity
  {
    MediaEntity(f.path, Video, Paths.Stem(f.name), [f.path], None, size(f.path), None)
  }

  /** `_create_individual_image_entity`: a one-frame entity named by the file's stem. */
  function ImageEntity(f: DirEntry, size: Stat): MediaEntity
  {
    MediaEntity(f.path, Video, Paths.Stem(f.name), [f.path], Some((1, 1)), size(f.path), Some(1))
  }

  /** `_create_sequence_entity`: the detector's files, range and count, and the total size when positive. */
  function SequenceEntity(info: SequenceInfo, size: Stat): MediaEntity
  {
    MediaEntity(info.basePath, Video, info.name, info.files, Some((info.firstFrame, info.lastFrame)),
                PositiveSize(TotalSize(info.files, size)), Some(info.frameCount))
  }

  function VideoEntities(videos: seq<DirEntry>, size: Stat): (r: seq<MediaEntity>)
    ensures |r| == |videos| && forall k :: 0 <= k < |r| ==> r[k] == VideoEntity(videos[k], size)
  {
    if videos == [] then []
    else VideoEntities(videos[..|videos| - 1], size) + [VideoEntity(videos[|videos| - 1], size)]
  }

  function ImageEntities(images: seq<DirEntry>, size: Stat): (r: seq<MediaEntity>)
    ensures |r| == |images| && forall k :: 0 <= k < |r| ==> r[k] == ImageEntity(images[k], size)
  {
    if images == [] then []
    else ImageEntities(images[..|images| - 1], size) + [ImageEntity(images[|images| - 1], size)]
  }

  function SequenceEntities(seqs: seq<SequenceInfo>, size: Stat): (r: seq<MediaEntity>)
    ensures |r| == |seqs| && forall k :: 0 <= k < |r| ==> r[k] == SequenceEntity(seqs[k], size)
  {
    if seqs == [] then []
    else SequenceEntities(seqs[..|seqs| - 1], size) + [SequenceEntity(seqs[|seqs| - 1], size)]
  }

  lemma VideoEntitiesSnoc(videos: seq<DirEntry>, f: DirEntry, size: Stat)
    ensures VideoEntities(videos + [f], size) == VideoEntities(videos, size) + [VideoEntity(f, size)]
  {
    assert (videos + [f])[..|videos|] == videos;
  }

  lemma ImageEntitiesSnoc(images: seq<DirEntry>, f: DirEntry, size: Stat)
    ensures ImageEntities(images + [f], size) == ImageEntities(images, size) + [ImageEntity(f, size)]
  {
    assert (images + [f])[..|images|] == images;
  }

  lemma SequenceEntitiesSnoc(seqs: seq<SequenceInfo>, t: SequenceInfo, size: Stat)
    ensures SequenceEntities(seqs + [t], size) == SequenceEntities(seqs, size) + [SequenceEntity(t, size)]
  {
    assert (seqs + [t])[..|seqs|] == seqs;
  }

  /** One more detected sequence adds its entity and its files. */
  lemma SequencesAt(seqs: seq<SequenceInfo>, k: nat, size: Stat)
    requires k < |seqs|
    ensures SequenceEntities(seqs[..k + 1], size) == SequenceEntities(seqs[..k], size) + [SequenceEntity(seqs[k], size)]
    ensures AllFiles(seqs[..k + 1]) == AllFiles(seqs[..k]) + Elements(seqs[k].files)
  {
    assert seqs[..k + 1] == seqs[..k] + [seqs[k]];
    SequenceEntitiesSnoc(seqs[..k], seqs[k], size);
    AllFilesSnoc(seqs[..k], seqs[k]);
  }

  /** The elements of a sequence, as a set. */
  function Elements(xs: seq<string>): (r: set<string>)
    ensures forall p :: p in r <==> p in xs
  {
    set i | 0 <= i < |xs| :: xs[i]
  }

  /** Every file of some detected sequence (`processed_files`). */
  function AllFiles(seqs: seq<SequenceInfo>): (r: set<string>)
    ensures forall p :: p in r <==> exists k :: 0 <= k < |seqs| && p in seqs[k].files
  {
    if seqs == [] then {}
    else
      var n := |seqs|;
      assert forall k :: 0 <= k < n - 1 ==> seqs[..n - 1][k] == seqs[k];
      AllFiles(seqs[..n - 1]) + Elements(seqs[n - 1].files)
  }

  lemma AllFilesSnoc(seqs: seq<SequenceInfo>, t: SequenceInfo)
    ensures AllFiles(seqs + [t]) == AllFiles(seqs) + Elements(t.files)
  {
    assert (seqs + [t])[..|seqs|] == seqs;
  }

  /** The images no detected sequence took, in listing order. */
  function Unmatched(images: seq<DirEntry>, taken: set<string>): (r: seq<DirEntry>)
    ensures forall x :: x in r <==> x in images && x.path !in taken
  {
    if images == [] then []
    else
      var n := |images|;
      assert images == images[..n - 1] + [images[n - 1]];
      Unmatched(images[..n - 1], taken) + (if images[n - 1].path !in taken then [images[n - 1]] else [])
  }

  // ---------------------------------------------------- one directory scan

  /** Step two: each visible subdirectory that is a sequence folder, as a folder entity. */
  function SubfolderEntities(s: ScanSettings, det: SequenceDetector.Detector, disk: Disk,
                             matcher: SequenceDetector.Matcher, dirs: seq<DirEntry>): (r: seq<MediaEntity>)
    reads det
    ensures |r| <= |dirs|
  {
    if dirs == [] then []
    else
      var n := |dirs|;
      var d := dirs[n - 1];
      SubfolderEntities(s, det, disk, matcher, dirs[..n - 1])
      + (if FolderQualifies(s, disk, d.path) then [FolderEntityOf(s, det, disk, matcher, d.path)] else [])
  }

  lemma SubfolderEntitiesSnoc(s: ScanSettings, det: SequenceDetector.Detector, disk: Disk,
                              matcher: SequenceDetector.Matcher, dirs: seq<DirEntry>, d: DirEntry)
    ensures SubfolderEntities(s, det, disk, matcher, dirs + [d])
         == SubfolderEntities(s, det, disk, matcher, dirs)
            + (if FolderQualifies(s, disk, d.path) then [FolderEntityOf(s, det, disk, matcher, d.path)] else [])
  {
    assert (dirs + [d])[..|dirs|] == dirs;
  }

  /**
   * Step three, from the video and image lists: one entity per video; then,
   * if a video is present, one entity per image; otherwise the detected
   * sequences and one entity per image no sequence took.
   */
  function MediaEntitiesFor(det: SequenceDetector.Detector, disk: Disk, matcher: SequenceDetector.Matcher,
                            videos: seq<DirEntry>, images: seq<DirEntry>): (r: seq<MediaEntity>)
    reads det
  {
    VideoEntities(videos, disk.size)
    + if images == [] then []
      else if videos != [] then ImageEntities(images, disk.size)
      else
        var seqs := det.Detect(PathsOf(images), matcher);
        SequenceEntities(seqs, disk.size) + ImageEntities(Unmatched(images, AllFiles(seqs)), disk.size)
  }

  /** Step three for a listing: its visible files split into videos and images. */
  function MediaOf(s: ScanSettings, det: SequenceDetector.Detector, disk: Disk,
                   matcher: SequenceDetector.Matcher, items: seq<DirEntry>): (r: seq<MediaEntity>)
    reads det
  {
    var files := FilesOf(Visible(items, s.showHidden));
    MediaEntitiesFor(det, disk, matcher, FileUtils.Videos(files, s.videoExts),
                     FileUtils.Images(files, s.videoExts, s.imageExts))
  }

  /** `_scan_single_directory`. */
  function SingleScan(s: ScanSettings, det: SequenceDetector.Detector, disk: Disk,
                      matcher: SequenceDetector.Matcher, dir: string): (r: seq<MediaEntity>)
    reads det
  {
    match disk.listing(dir)
    case None => []
    case Some(items) =>
      if FolderQualifies(s, disk, dir) then [FolderEntityOf(s, det, disk, matcher, dir)]
      else SubfolderEntities(s, det, disk, matcher, DirsOf(Visible(items, s.showHidden)))
           + MediaOf(s, det, disk, matcher, items)
  }

  /**
   * A sequence folder scans to exactly one entity: the folder itself,
   * holding every visible image file of it, at least two.
   */
  lemma SequenceFolderIsOneEntity(s: ScanSettings, det: SequenceDetector.Detector, disk: Disk,
                                  matcher: SequenceDetector.Matcher, dir: string)
    requires FolderQualifies(s, disk, dir)
    ensures var r := SingleScan(s, det, disk, matcher, dir);
      && |r| == 1 && r[0].path == dir && |r[0].files| >= 2
      && multiset(r[0].files) == multiset(PathsOf(WithCategory(FilesOf(VisibleItems(s, disk, dir)), Image, s)))
  {
    FolderEntityFacts(s, det, disk, matcher, dir);
    var e := FolderEntityOf(s, det, disk, matcher, dir);
    assert |multiset(e.files)| == |e.files|;
  }

  /** A directory that does not list scans to nothing. */
  lemma UnlistedScansToNothing(s: ScanSettings, det: SequenceDetector.Detector, disk: Disk,
                               matcher: SequenceDetector.Matcher, dir: string)
    requires disk.listing(dir).None?
    ensures SingleScan(s, det, disk, matcher, dir) == []
  {
  }

  // ------------------------------------------------ properties of a scan

  /** `p` is a file of at most one of the entities. */
  predicate AtMostOnce(es: seq<MediaEntity>, p: string)
  {
    forall k1, k2 :: 0 <= k1 < k2 < |es| && p in es[k1].files ==> p !in es[k2].files
  }

  ghost predicate Somewhere(es: seq<MediaEntity>, p: string)
  {
    exists k :: 0 <= k < |es| && p in es[k].files
  }

  lemma AtMostOnceConcat(a: seq<MediaEntity>, b: seq<MediaEntity>, p: string)
    requires AtMostOnce(a, p) && AtMostOnce(b, p)
    requires !Somewhere(a, p) || !Somewhere(b, p)
    ensures AtMostOnce(a + b, p)
    ensures Somewhere(a + b, p) <==> Somewhere(a, p) || Somewhere(b, p)
  {
    var ab := a + b;
    forall k1, k2 | 0 <= k1 < k2 < |ab| && p in ab[k1].files ensures p !in ab[k2].files {
      if k2 < |a| {
        assert ab[k1] == a[k1] && ab[k2] == a[k2];
      } else if k1 >= |a| {
        assert ab[k1] == b[k1 - |a|] && ab[k2] == b[k2 - |a|];
      } else {
        assert ab[k1] == a[k1] && ab[k2] == b[k2 - |a|];
      }
    }
    if Somewhere(a, p) {
      var k :| 0 <= k < |a| && p in a[k].files;
      assert ab[k] == a[k];
    }
    if Somewhere(b, p) {
      var k :| 0 <= k < |b| && p in b[k].files;
      assert ab[|a| + k] == b[k];
    }
    if Somewhere(ab, p) {
      var k :| 0 <= k < |ab| && p in ab[k].files;
      if k < |a| { assert ab[k] == a[k]; } else { assert ab[k] == b[k - |a|]; }
    }
  }

  /** No two entries of the list share a path. */
  predicate PathsDistinct(xs: seq<DirEntry>)
  {
    forall i, j :: 0 <= i < j < |xs| ==> xs[i].path != xs[j].path
  }

  /** The images of a listing whose paths are distinct have distinct paths. */
  lemma {:induction false} ImagesDistinct(files: seq<DirEntry>, videoExts: set<string>, imageExts: set<string>)
    requires PathsDistinct(files)
    ensures PathsDistinct(FileUtils.Images(files, videoExts, imageExts))
  {
    if files != [] {
      var rest := files[1..];
      assert PathsDistinct(rest) by {
        forall i, j | 0 <= i < j < |rest| ensures rest[i].path != rest[j].path {
          assert rest[i] == files[i + 1] && rest[j] == files[j + 1];
        }
      }
      ImagesDistinct(rest, videoExts, imageExts);
      var tail := FileUtils.Images(rest, videoExts, imageExts);
      if FileUtils.IsImageFile(files[0], videoExts, imageExts) {
        forall x | x in tail ensures x.path != files[0].path {
          var m :| 0 <= m < |rest| && rest[m] == x;
          assert files[m + 1] == x;
        }
        var r := [files[0]] + tail;
        assert r == FileUtils.Images(files, videoExts, imageExts);
        forall i, j | 0 <= i < j < |r| ensures r[i].path != r[j].path {
          assert r[j] == tail[j - 1];
          if i == 0 {
            assert r[j] in tail;
          } else {
            assert r[i] == tail[i - 1];
          }
        }
      }
    }
  }

  lemma {:induction false} UnmatchedDistinct(images: seq<DirEntry>, taken: set<string>)
    requires PathsDistinct(images)
    ensures PathsDistinct(Unmatched(images, taken))
  {
    if images != [] {
      var n := |images|;
      var init := images[..n - 1];
      var last := images[n - 1];
      assert PathsDistinct(init);
      UnmatchedDistinct(init, taken);
      var u := Unmatched(init, taken);
      if last.path !in taken {
        forall x | x in u ensures x.path != last.path {
          var m :| 0 <= m < |init| && init[m] == x;
          assert images[m] == x;
        }
        var r := u + [last];
        forall i, j | 0 <= i < j < |r| ensures r[i].path != r[j].path {
          assert r[i] == u[i];
          if j < |u| {
            assert r[j] == u[j];
          } else {
            assert r[i] in u;
          }
        }
      }
    }
  }

  /** A path listed at most once is the file of exactly as many single-image entities as it has entries. */
  lemma OneImageEntity(images: seq<DirEntry>, size: Stat, p: string)
    requires PathsDistinct(images)
    ensures AtMostOnce(ImageEntities(images, size), p)
    ensures Somewhere(ImageEntities(images, size), p) <==> exists x :: x in images && x.path == p
  {
    var es := ImageEntities(images, size);
    if x :| x in images && x.path == p {
      var k :| 0 <= k < |images| && images[k] == x;
      assert p in es[k].files;
    }
    if Somewhere(es, p) {
      var k :| 0 <= k < |es| && p in es[k].files;
      assert es[k].files == [images[k].path];
      assert images[k] in images;
    }
  }

  /** Sequence entities carry their sequences' files, so path-disjoint sequences make disjoint entities. */
  lemma OneSequenceEntity(seqs: seq<SequenceInfo>, size: Stat, p: string)
    requires SequenceDetector.SequencesApart(seqs)
    ensures AtMostOnce(SequenceEntities(seqs, size), p)
    ensures Somewhere(SequenceEntities(seqs, size), p) <==> p in AllFiles(seqs)
  {
    var es := SequenceEntities(seqs, size);
    if p in AllFiles(seqs) {
      var k :| 0 <= k < |seqs| && p in seqs[k].files;
      assert es[k].files == seqs[k].files;
    }
    if Somewhere(es, p) {
      var k :| 0 <= k < |es| && p in es[k].files;
      assert es[k].files == seqs[k].files;
    }
  }

  /** No image path is the file of a video entity. */
  lemma NoVideoEntityHasImage(files: seq<DirEntry>, s: ScanSettings, size: Stat, img: DirEntry)
    requires PathsDistinct(files)
    requires img in FileUtils.Images(files, s.videoExts, s.imageExts)
    ensures !Somewhere(VideoEntities(FileUtils.Videos(files, s.videoExts), size), img.path)
    ensures AtMostOnce(VideoEntities(FileUtils.Videos(files, s.videoExts), size), img.path)
  {
    var videos := FileUtils.Videos(files, s.videoExts);
    var es := VideoEntities(videos, size);
    forall k | 0 <= k < |es| ensures img.path !in es[k].files {
      assert videos[k] in videos;
      var a :| 0 <= a < |files| && files[a] == img;
      var b :| 0 <= b < |files| && files[b] == videos[k];
      assert a != b;
    }
  }

  /**
   * In a directory that is not a sequence folder, every visible image file
   * lands in exactly one of the entities of step three: in its sequence if
   * the detector put it in one, otherwise in its own single-image entity.
   */
  lemma ImageInExactlyOneEntity(s: ScanSettings, det: SequenceDetector.Detector, disk: Disk,
                                matcher: SequenceDetector.Matcher, items: seq<DirEntry>, img: DirEntry)
    requires PathsDistinct(FilesOf(Visible(items, s.showHidden)))
    requires img in FileUtils.Images(FilesOf(Visible(items, s.showHidden)), s.videoExts, s.imageExts)
    ensures Somewhere(MediaOf(s, det, disk, matcher, items), img.path)
    ensures AtMostOnce(MediaOf(s, det, disk, matcher, items), img.path)
  {
    var files := FilesOf(Visible(items, s.showHidden));
    var videos := FileUtils.Videos(files, s.videoExts);
    var images := FileUtils.Images(files, s.videoExts, s.imageExts);
    var p := img.path;
    var ve := VideoEntities(videos, disk.size);
    NoVideoEntityHasImage(files, s, disk.size, img);
    ImagesDistinct(files, s.videoExts, s.imageExts);
    if videos != [] {
      OneImageEntity(images, disk.size, p);
      AtMostOnceConcat(ve, ImageEntities(images, disk.size), p);
    } else {
      var seqs := det.Detect(PathsOf(images), matcher);
      det.DetectedFilesAreInputs(PathsOf(images), matcher);
      var taken := AllFiles(seqs);
      var unmatched := Unmatched(images, taken);
      var se := SequenceEntities(seqs, disk.size);
      var ie := ImageEntities(unmatched, disk.size);
      UnmatchedDistinct(images, taken);
      OneSequenceEntity(seqs, disk.size, p);
      OneImageEntity(unmatched, disk.size, p);
      if p !in taken {
        assert img in unmatched;
      }
      AtMostOnceConcat(se, ie, p);
      AtMostOnceConcat(ve, se + ie, p);
    }
  }

  /** With a video in the directory, every image becomes a single-image entity of its own. */
  lemma VideosMakeSingleImages(s: ScanSettings, det: SequenceDetector.Detector, disk: Disk,
                               matcher: SequenceDetector.Matcher, items: seq<DirEntry>, img: DirEntry)
    requires var files := FilesOf(Visible(items, s.showHidden));
             img in FileUtils.Images(files, s.videoExts, s.imageExts) && FileUtils.Videos(files, s.videoExts) != []
    ensures ImageEntity(img, disk.size) in MediaOf(s, det, disk, matcher, items)
  {
    var files := FilesOf(Visible(items, s.showHidden));
    var images := FileUtils.Images(files, s.videoExts, s.imageExts);
    var k :| 0 <= k < |images| && images[k] == img;
    var rest := ImageEntities(images, disk.size);
    assert rest[k] == ImageEntity(img, disk.size);
    assert rest[k] in VideoEntities(FileUtils.Videos(files, s.videoExts), disk.size) + rest;
  }

  /** What every entity a scan builds satisfies: the VIDEO type, and a frame count, when present, equal to its number of files. */
  predicate Consistent(e: MediaEntity)
  {
    e.entityType == Video && (e.frameCount.Some? ==> e.frameCount.value == |e.files|)
  }

  lemma {:induction false} SubfoldersConsistent(s: ScanSettings, det: SequenceDetector.Detector, disk: Disk,
                                                matcher: SequenceDetector.Matcher, dirs: seq<DirEntry>)
    ensures forall e :: e in SubfolderEntities(s, det, disk, matcher, dirs) ==> Consistent(e)
  {
    if dirs != [] {
      var n := |dirs|;
      var path := dirs[n - 1].path;
      var last := if FolderQualifies(s, disk, path) then [FolderEntityOf(s, det, disk, matcher, path)] else [];
      assert SubfolderEntities(s, det, disk, matcher, dirs) == SubfolderEntities(s, det, disk, matcher, dirs[..n - 1]) + last;
      SubfoldersConsistent(s, det, disk, matcher, dirs[..n - 1]);
      FolderConsistent(s, det, disk, matcher, path);
    }
  }

  lemma FolderConsistent(s: ScanSettings, det: SequenceDetector.Detector, disk: Disk,
                         matcher: SequenceDetector.Matcher, path: string)
    ensures Consistent(FolderEntityOf(s, det, disk, matcher, path))
  {
    FolderEntityFacts(s, det, disk, matcher, path);
  }

  lemma MediaConsistent(det: SequenceDetector.Detector, disk: Disk, matcher: SequenceDetector.Matcher,
                        videos: seq<DirEntry>, images: seq<DirEntry>)
    ensures forall e :: e in MediaEntitiesFor(det, disk, matcher, videos, images) ==> Consistent(e)
  {
    var ve := VideoEntities(videos, disk.size);
    assert forall e :: e in ve ==> Consistent(e);
    if images != [] {
      if videos != [] {
        var ie := ImageEntities(images, disk.size);
        assert forall e :: e in ie ==> Consistent(e);
      } else {
        var seqs := det.Detect(PathsOf(images), matcher);
        var se := SequenceEntities(seqs, disk.size);
        var ie := ImageEntities(Unmatched(images, AllFiles(seqs)), disk.size);
        forall e | e in se ensures Consistent(e) {
          var k :| 0 <= k < |se| && se[k] == e;
          assert seqs[k] in seqs;
        }
        assert forall e :: e in ie ==> Consistent(e);
      }
    }
  }

  /** Every entity a scan builds is of the VIDEO type, and its frame count, when present, is its number of files. */
  lemma ScanIsConsistent(s: ScanSettings, det: SequenceDetector.Detector, disk: Disk,
                         matcher: SequenceDetector.Matcher, dir: string)
    ensures forall e :: e in SingleScan(s, det, disk, matcher, dir) ==> Consistent(e)
  {
    match disk.listing(dir)
    case None =>
    case Some(items) =>
      if FolderQualifies(s, disk, dir) {
        FolderEntityFacts(s, det, disk, matcher, dir);
      } else {
        var files := FilesOf(Visible(items, s.showHidden));
        SubfoldersConsistent(s, det, disk, matcher, DirsOf(Visible(items, s.showHidden)));
        MediaConsistent(det, disk, matcher, FileUtils.Videos(files, s.videoExts),
                        FileUtils.Images(files, s.videoExts, s.imageExts));
      }
  }

  // ------------------------------------------------------ entity info

  /** The fields of `get_entity_info` other than the formatted size text. */
  datatype EntityInfo = EntityInfo(
    name: string, typeName: string, path: string, fileCount: nat,
    sizeBytes: Option<nat>, frameRange: Option<string>, frameCount: Option<int>,
    sequenceInfo: Option<(string, string)>)

  /**
   * `get_entity_info`: size only for a truthy size; range text and a frame
   * count (the entity's, or the file count when that is 0 or absent) only
   * with a frame range; first and last file only for SEQUENCE with several files.
   */
  function GetEntityInfo(e: MediaEntity): (r: EntityInfo)
    ensures r.fileCount == |e.files| && r.typeName == e.entityType.Value()
    ensures r.sizeBytes.Some? <==> e.fileSize.Some? && e.fileSize.value != 0
    ensures r.frameCount.Some? <==> e.frameRange.Some?
  {
    EntityInfo(
      e.name, e.entityType.Value(), e.path, |e.files|,
      if e.fileSize.Some? && e.fileSize.value != 0 then e.fileSize else None,
      if e.frameRange.Some? then Some(IntToString(e.frameRange.value.0) + "-" + IntToString(e.frameRange.value.1)) else None,
      if e.frameRange.Some? then Some(if e.frameCount.Some? && e.frameCount.value != 0 then e.frameCount.value else |e.files|)
      else None,
      if e.entityType == Sequence && |e.files| > 1 then Some((e.files[0], e.files[|e.files| - 1])) else None)
  }

  /** For every entity a scan builds, a reported frame count equals the number of files. */
  lemma ScanFrameCountsAreFileCounts(s: ScanSettings, det: SequenceDetector.Detector, disk: Disk,
                                     matcher: SequenceDetector.Matcher, dir: string)
    ensures forall e :: e in SingleScan(s, det, disk, matcher, dir) ==>
              GetEntityInfo(e).frameCount.Some? ==> GetEntityInfo(e).frameCount.value == |e.files|
  {
    ScanIsConsistent(s, det, disk, matcher, dir);
  }

  // ------------------------------------------------------ recursive scan

  /** A directory of the walk that the scan considers: a directory, and visible unless hidden ones are shown. */
  predicate VisibleDir(s: ScanSettings, d: DirEntry)
  {
    d.isDir && (s.showHidden || !FileUtils.IsHidden(d.name))
  }

  /** The visible directories of the walk that are sequence folders (`processed_sequence_folders`). */
  function SequenceFolders(s: ScanSettings, disk: Disk, walk: seq<DirEntry>): (r: set<string>)
  {
    if walk == [] then {}
    else
      var n := |walk|;
      var d := walk[n - 1];
      SequenceFolders(s, disk, walk[..n - 1]) + (if VisibleDir(s, d) && FolderQualifies(s, disk, d.path) then {d.path} else {})
  }

  /** `directories_to_scan`: the root, then every other visible directory of the walk, in walk order. */
  function DirsToScan(s: ScanSettings, disk: Disk, root: string, walk: seq<DirEntry>): (r: seq<string>)
    ensures |r| >= 1
  {
    if walk == [] then [root]
    else
      var n := |walk|;
      var d := walk[n - 1];
      DirsToScan(s, disk, root, walk[..n - 1])
      + (if VisibleDir(s, d) && !FolderQualifies(s, disk, d.path) then [d.path] else [])
  }

  lemma SequenceFoldersSnoc(s: ScanSettings, disk: Disk, walk: seq<DirEntry>, d: DirEntry)
    ensures SequenceFolders(s, disk, walk + [d])
         == SequenceFolders(s, disk, walk) + (if VisibleDir(s, d) && FolderQualifies(s, disk, d.path) then {d.path} else {})
  {
    assert (walk + [d])[..|walk|] == walk;
  }

  lemma DirsToScanSnoc(s: ScanSettings, disk: Disk, root: string, walk: seq<DirEntry>, d: DirEntry)
    ensures DirsToScan(s, disk, root, walk + [d])
         == DirsToScan(s, disk, root, walk) + (if VisibleDir(s, d) && !FolderQualifies(s, disk, d.path) then [d.path] else [])
  {
    assert (walk + [d])[..|walk|] == walk;
  }

  /**
   * The walk splits in two: every visible directory of it is either a
   * sequence folder, recorded to be skipped, or listed to be scanned after
   * the root; nothing else is listed or recorded.
   */
  lemma {:induction false} WalkSplits(s: ScanSettings, disk: Disk, root: string, walk: seq<DirEntry>, p: string)
    ensures var dirs := DirsToScan(s, disk, root, walk);
      && dirs[0] == root
      && (p in SequenceFolders(s, disk, walk) <==>
            exists d :: d in walk && VisibleDir(s, d) && d.path == p && FolderQualifies(s, disk, p))
      && (p in dirs[1..] <==>
            exists d :: d in walk && VisibleDir(s, d) && d.path == p && !FolderQualifies(s, disk, p))
  {
    if walk != [] {
      var n := |walk|;
      var init := walk[..n - 1];
      var d := walk[n - 1];
      WalkSplits(s, disk, root, init, p);
      assert walk == init + [d];
      DirsToScanSnoc(s, disk, root, init, d);
      SequenceFoldersSnoc(s, disk, init, d);
      var before := DirsToScan(s, disk, root, init);
      var dirs := DirsToScan(s, disk, root, walk);
      assert dirs[1..] == before[1..] + (if VisibleDir(s, d) && !FolderQualifies(s, disk, d.path) then [d.path] else []);
    }
  }

  /** The directories actually scanned: those not recorded as sequence folders. */
  function Scanned(dirs: seq<string>, skip: set<string>): (r: seq<string>)
  {
    if dirs == [] then []
    else
      var n := |dirs|;
      Scanned(dirs[..n - 1], skip) + (if dirs[n - 1] !in skip then [dirs[n - 1]] else [])
  }

  /** The last of `s`, or `d` when `s` is empty. */
  function LastOr(s: seq<string>, d: Option<string>): (r: Option<string>)
    ensures s != [] ==> r == Some(s[|s| - 1])
    ensures s == [] ==> r == d
  {
    if s == [] then d else Some(s[|s| - 1])
  }

  lemma {:induction false} ScannedHas(dirs: seq<string>, skip: set<string>, p: string)
    ensures p in Scanned(dirs, skip) <==> p in dirs && p !in skip
  {
    if dirs != [] {
      var n := |dirs|;
      ScannedHas(dirs[..n - 1], skip, p);
      assert dirs == dirs[..n - 1] + [dirs[n - 1]];
    }
  }

  lemma ScannedSnoc(dirs: seq<string>, d: string, skip: set<string>)
    ensures Scanned(dirs + [d], skip) == Scanned(dirs, skip) + (if d !in skip then [d] else [])
  {
    assert (dirs + [d])[..|dirs|] == dirs;
  }

  lemma ScannedAt(dirs: seq<string>, i: nat, skip: set<string>)
    requires i < |dirs|
    ensures Scanned(dirs[..i + 1], skip) == Scanned(dirs[..i], skip) + (if dirs[i] !in skip then [dirs[i]] else [])
  {
    assert dirs[..i + 1] == dirs[..i] + [dirs[i]];
    ScannedSnoc(dirs[..i], dirs[i], skip);
  }

  lemma ScannedAll(dirs: seq<string>, skip: set<string>)
    ensures Scanned(dirs[..|dirs|], skip) == Scanned(dirs, skip)
  {
    assert dirs[..|dirs|] == dirs;
  }

  /**
   * The recursive scan visits the root, unless it was recorded as a
   * sequence folder, and exactly the visible directories of the walk that
   * are not sequence folders; no sequence folder below the root is visited.
   */
  lemma RecursiveScanVisits(s: ScanSettings, disk: Disk, root: string, walk: seq<DirEntry>, p: string)
    requires p != root
    ensures p in Scanned(DirsToScan(s, disk, root, walk), SequenceFolders(s, disk, walk)) <==>
              exists d :: d in walk && VisibleDir(s, d) && d.path == p && !FolderQualifies(s, disk, p)
  {
    var dirs := DirsToScan(s, disk, root, walk);
    var skip := SequenceFolders(s, disk, walk);
    WalkSplits(s, disk, root, walk, p);
    ScannedHas(dirs, skip, p);
    assert dirs == [dirs[0]] + dirs[1..];
  }

  /** The entities of several single-directory scans, one after the other. */
  function ScanAll(s: ScanSettings, det: SequenceDetector.Detector, disk: Disk,
                   matcher: SequenceDetector.Matcher, dirs: seq<string>): (r: seq<MediaEntity>)
    reads det
  {
    if dirs == [] then []
    else
      var n := |dirs|;
      ScanAll(s, det, disk, matcher, dirs[..n - 1]) + SingleScan(s, det, disk, matcher, dirs[n - 1])
  }

  lemma ScanAllSnoc(s: ScanSettings, det: SequenceDetector.Detector, disk: Disk,
                    matcher: SequenceDetector.Matcher, dirs: seq<string>, d: string)
    ensures ScanAll(s, det, disk, matcher, dirs + [d]) == ScanAll(s, det, disk, matcher, dirs) + SingleScan(s, det, disk, matcher, d)
  {
    assert (dirs + [d])[..|dirs|] == dirs;
  }

  /** `scan_directory_recursive`: nothing for a path that does not list, else every scanned directory's entities. */
  function RecursiveScan(s: ScanSettings, det: SequenceDetector.Detector, disk: Disk,
                         matcher: SequenceDetector.Matcher, root: string, walk: seq<DirEntry>): (r: seq<MediaEntity>)
    reads det
  {
    if disk.listing(root).None? then []
    else ScanAll(s, det, disk, matcher, Scanned(DirsToScan(s, disk, root, walk), SequenceFolders(s, disk, walk)))
  }

  // ---------------------------------------------------------- the managers

  /** The single-database `EntityManager`; the scanning core the multi-context manager shares. */
  class EntityManager {
    const settings: ScanSettings
    const detector: SequenceDetector.Detector

    /** Ignored extensions and names are lower-cased, as the constructor does. */
    constructor (videoExts: set<string>, imageExts: set<string>, showHidden: bool, folderSequenceEnabled: bool,
                 ignoredExts: set<string>, ignoredNames: set<string>, detector: SequenceDetector.Detector)
      ensures settings == ScanSettings(videoExts, imageExts, showHidden, folderSequenceEnabled,
                                       set e | e in ignoredExts :: Lower(e), set n | n in ignoredNames :: Lower(n))
      ensures this.detector == detector
    {
      settings := ScanSettings(videoExts, imageExts, showHidden, folderSequenceEnabled,
                               set e | e in ignoredExts :: Lower(e), set n | n in ignoredNames :: Lower(n));
      this.detector := detector;
    }

    /** `_is_folder_sequence`: sorts the visible files into the four categories, then applies the rules. */
    method IsFolderSequence(disk: Disk, path: string) returns (r: bool)
      ensures r == FolderQualifies(settings, disk, path)
    {
      if !settings.folderSequenceEnabled || disk.listing(path).None? {
        return false;
      }
      var items := Visible(disk.listing(path).value, settings.showHidden);
      if DirsOf(items) != [] {
        return false;
      }
      var files := FilesOf(items);
      if files == [] {
        return false;
      }
      var images, videos, ignored, others := Categorize(files);
      r := videos == [] && others == [] && |images| >= 2;
    }

    /** The category loop: each file goes to the first list whose test it passes. */
    method Categorize(files: seq<DirEntry>) returns (images: seq<DirEntry>, videos: seq<DirEntry>,
                                                     ignored: seq<DirEntry>, others: seq<DirEntry>)
      ensures images == WithCategory(files, Image, settings)
      ensures videos == WithCategory(files, VideoFile, settings)
      ensures ignored == WithCategory(files, Ignored, settings)
      ensures others == WithCategory(files, Other, settings)
    {
      images, videos, ignored, others := [], [], [], [];
      var i := 0;
      while i < |files|
        invariant 0 <= i <= |files|
        invariant images == WithCategory(files[..i], Image, settings)
        invariant videos == WithCategory(files[..i], VideoFile, settings)
        invariant ignored == WithCategory(files[..i], Ignored, settings)
        invariant others == WithCategory(files[..i], Other, settings)
      {
        var f := files[i];
        WithCategoryAt(files, i, Image, settings);
        WithCategoryAt(files, i, VideoFile, settings);
        WithCategoryAt(files, i, Ignored, settings);
        WithCategoryAt(files, i, Other, settings);
        match CategoryOf(f, settings) {
          case Ignored => ignored := ignored + [f];
          case Image => images := images + [f];
          case VideoFile => videos := videos + [f];
          case Other => others := others + [f];
        }
        i := i + 1;
      }
      assert files[..i] == files;
    }

    /** `_create_folder_sequence_entity`. */
    method CreateFolderSequenceEntity(disk: Disk, matcher: SequenceDetector.Matcher, path: string)
      returns (e: MediaEntity)
      ensures e == FolderEntityOf(settings, detector, disk, matcher, path)
    {
      if disk.listing(path).None? {
        return MediaEntity(path, Video, Paths.Name(path), [], Some((1, 1)), None, Some(0));
      }
      var files := FilesOf(Visible(disk.listing(path).value, settings.showHidden));
      var images := ImageFilesOf(files);
      if images == [] {
        return MediaEntity(path, Video, Paths.Name(path), [], Some((1, 1)), None, Some(0));
      }
      var sorted := Sorting.SortStrings(PathsOf(images));
      var total := TotalSizeOf(sorted, disk.size);
      var range := (1, |sorted|);
      var seqs := detector.DetectSequences(sorted, matcher);
      if seqs != [] {
        var primary := FirstLargest(seqs);
        range := (primary.firstFrame, primary.lastFrame);
      }
      e := MediaEntity(path, Video, Paths.Name(path), sorted, Some(range),
                       if total > 0 then Some(total) else None, Some(|sorted|));
    }

    /** The files of the image category, in listing order. */
    method ImageFilesOf(files: seq<DirEntry>) returns (images: seq<DirEntry>)
      ensures images == WithCategory(files, Image, settings)
    {
      images := [];
      var i := 0;
      while i < |files|
        invariant 0 <= i <= |files|
        invariant images == WithCategory(files[..i], Image, settings)
      {
        var f := files[i];
        WithCategoryAt(files, i, Image, settings);
        if CategoryOf(f, settings) == Image {
          images := images + [f];
        }
        i := i + 1;
      }
      assert files[..i] == files;
    }

    /** Step two of the scan: the sequence subfolders, checked one by one. */
    method SubfolderSequences(disk: Disk, matcher: SequenceDetector.Matcher, dirs: seq<DirEntry>)
      returns (entities: seq<MediaEntity>)
      ensures entities == SubfolderEntities(settings, detector, disk, matcher, dirs)
    {
      entities := [];
      var i := 0;
      while i < |dirs|
        invariant 0 <= i <= |dirs|
        invariant entities == SubfolderEntities(settings, detector, disk, matcher, dirs[..i])
      {
        assert dirs[..i + 1] == dirs[..i] + [dirs[i]];
        SubfolderEntitiesSnoc(settings, detector, disk, matcher, dirs[..i], dirs[i]);
        var qualifies := IsFolderSequence(disk, dirs[i].path);
        if qualifies {
          var e := CreateFolderSequenceEntity(disk, matcher, dirs[i].path);
          entities := entities + [e];
        }
        i := i + 1;
      }
      assert dirs[..i] == dirs;
    }

    /**
     * `_scan_single_directory`: a sequence folder is one entity; otherwise
     * the sequence subfolders, the videos, and the images as sequences or
     * single images.
     */
    method ScanSingleDirectory(disk: Disk, matcher: SequenceDetector.Matcher, dir: string)
      returns (entities: seq<MediaEntity>)
      ensures entities == SingleScan(settings, detector, disk, matcher, dir)
    {
      if disk.listing(dir).None? {
        return [];
      }
      var items := disk.listing(dir).value;
      if settings.folderSequenceEnabled {
        var qualifies := IsFolderSequence(disk, dir);
        if qualifies {
          var e := CreateFolderSequenceEntity(disk, matcher, dir);
          return [e];
        }
      }
      entities := SubfolderSequences(disk, matcher, DirsOf(Visible(items, settings.showHidden)));
      var files := FilesOf(Visible(items, settings.showHidden));
      var videos, images := FileUtils.FilterMediaFiles(files, settings.videoExts, settings.imageExts);
      var media := MediaEntitiesOf(disk, matcher, videos, images);
      entities := entities + media;
    }

    /** Step three: video entities, then the images as single entities or through detection. */
    method MediaEntitiesOf(disk: Disk, matcher: SequenceDetector.Matcher, videos: seq<DirEntry>, images: seq<DirEntry>)
      returns (entities: seq<MediaEntity>)
      ensures entities == MediaEntitiesFor(detector, disk, matcher, videos, images)
    {
      entities := VideoEntitiesOf(disk, videos);
      if images == [] {
        return;
      }
      if videos != [] {
        var singles := SingleImages(disk, images);
        entities := entities + singles;
        return;
      }
      var seqs := detector.DetectSequences(PathsOf(images), matcher);
      var found, taken := SequenceEntitiesOf(disk, seqs);
      var singles := SingleImages(disk, Unmatched(images, taken));
      entities := entities + (found + singles);
    }

    /** One video entity per video file, in order. */
    method VideoEntitiesOf(disk: Disk, videos: seq<DirEntry>) returns (entities: seq<MediaEntity>)
      ensures entities == VideoEntities(videos, disk.size)
    {
      entities := [];
      var i := 0;
      while i < |videos|
        invariant 0 <= i <= |videos|
        invariant entities == VideoEntities(videos[..i], disk.size)
      {
        assert videos[..i + 1] == videos[..i] + [videos[i]];
        VideoEntitiesSnoc(videos[..i], videos[i], disk.size);
        entities := entities + [VideoEntity(videos[i], disk.size)];
        i := i + 1;
      }
      assert videos[..i] == videos;
    }

    /** One entity per detected sequence, collecting the files the sequences took. */
    method SequenceEntitiesOf(disk: Disk, seqs: seq<SequenceInfo>) returns (found: seq<MediaEntity>, taken: set<string>)
      ensures found == SequenceEntities(seqs, disk.size)
      ensures taken == AllFiles(seqs)
    {
      found, taken := [], {};
      var k := 0;
      while k < |seqs|
        invariant 0 <= k <= |seqs|
        invariant found == SequenceEntities(seqs[..k], disk.size)
        invariant taken == AllFiles(seqs[..k])
      {
        SequencesAt(seqs, k, disk.size);
        found := found + [SequenceEntity(seqs[k], disk.size)];
        taken := taken + Elements(seqs[k].files);
        k := k + 1;
      }
      assert seqs[..k] == seqs;
    }

    /** One single-image entity per image, in order. */
    method SingleImages(disk: Disk, images: seq<DirEntry>) returns (entities: seq<MediaEntity>)
      ensures entities == ImageEntities(images, disk.size)
    {
      entities := [];
      var i := 0;
      while i < |images|
        invariant 0 <= i <= |images|
        invariant entities == ImageEntities(images[..i], disk.size)
      {
        assert images[..i + 1] == images[..i] + [images[i]];
        ImageEntitiesSnoc(images[..i], images[i], disk.size);
        entities := entities + [ImageEntity(images[i], disk.size)];
        i := i + 1;
      }
      assert images[..i] == images;
    }

    /** The first pass of `scan_directory_recursive`: the directories to scan and the sequence folders. */
    method CollectDirectories(disk: Disk, root: string, walk: seq<DirEntry>)
      returns (dirs: seq<string>, skip: set<string>)
      ensures dirs == DirsToScan(settings, disk, root, walk)
      ensures skip == SequenceFolders(settings, disk, walk)
    {
      dirs := [root];
      skip := {};
      var i := 0;
      while i < |walk|
        invariant 0 <= i <= |walk|
        invariant dirs == DirsToScan(settings, disk, root, walk[..i])
        invariant skip == SequenceFolders(settings, disk, walk[..i])
      {
        var d := walk[i];
        assert walk[..i + 1] == walk[..i] + [d];
        DirsToScanSnoc(settings, disk, root, walk[..i], d);
        SequenceFoldersSnoc(settings, disk, walk[..i], d);
        if d.isDir && (settings.showHidden || !FileUtils.IsHidden(d.name)) {
          var qualifies := false;
          if settings.folderSequenceEnabled {
            qualifies := IsFolderSequence(disk, d.path);
          }
          if qualifies {
            skip := skip + {d.path};
          } else {
            dirs := dirs + [d.path];
          }
        }
        i := i + 1;
      }
      assert walk[..i] == walk;
    }

    /** `scan_directory_recursive`; `walk` is what `rglob('*')` yields under the root. */
    method ScanDirectoryRecursive(disk: Disk, matcher: SequenceDetector.Matcher, root: string, walk: seq<DirEntry>)
      returns (entities: seq<MediaEntity>)
      ensures entities == RecursiveScan(settings, detector, disk, matcher, root, walk)
    {
      if disk.listing(root).None? {
        return [];
      }
      var dirs, skip := CollectDirectories(disk, root, walk);
      entities := ScanEach(disk, matcher, dirs, skip);
    }

    /** The second pass of `scan_directory_recursive`: every listed directory not recorded as a sequence folder. */
    method ScanEach(disk: Disk, matcher: SequenceDetector.Matcher, dirs: seq<string>, skip: set<string>)
      returns (entities: seq<MediaEntity>)
      ensures entities == ScanAll(settings, detector, disk, matcher, Scanned(dirs, skip))
    {
      entities := [];
      ghost var done: seq<string> := [];
      var i := 0;
      while i < |dirs|
        invariant 0 <= i <= |dirs|
        invariant done == Scanned(dirs[..i], skip)
        invariant entities == ScanAll(settings, detector, disk, matcher, done)
      {
        ScannedAt(dirs, i, skip);
        if dirs[i] !in skip {
          entities := ScanAppend(disk, matcher, done, dirs[i], entities);
          done := done + [dirs[i]];
        }
        i := i + 1;
      }
      ScannedAll(dirs, skip);
    }

    /** One step of the scan loop: the entities of one more directory, appended. */
    method ScanAppend(disk: Disk, matcher: SequenceDetector.Matcher, ghost done: seq<string>, d: string, entities: seq<MediaEntity>)
      returns (r: seq<MediaEntity>)
      requires entities == ScanAll(settings, detector, disk, matcher, done)
      ensures r == ScanAll(settings, detector, disk, matcher, done + [d])
    {
      var found := ScanSingleDirectory(disk, matcher, d);
      ScanAllSnoc(settings, detector, disk, matcher, done, d);
      r := entities + found;
    }

    /** `scan_directory`: the recursive or the single-directory scan, by the flag. */
    method ScanDirectory(disk: Disk, matcher: SequenceDetector.Matcher, dir: string, recursive: bool, walk: seq<DirEntry>)
      returns (entities: seq<MediaEntity>)
      ensures recursive ==> entities == RecursiveScan(settings, detector, disk, matcher, dir, walk)
      ensures !recursive ==> entities == SingleScan(settings, detector, disk, matcher, dir)
    {
      if recursive {
        entities := ScanDirectoryRecursive(disk, matcher, dir, walk);
      } else {
        entities := ScanSingleDirectory(disk, matcher, dir);
      }
    }
  }

  /**
   * `MultiEntityManager`: the same scanning, plus the current path and its
   * storage context, switched whenever a scan starts on a new path.
   */
  class MultiEntityManager {
    const core: EntityManager
    const contexts: PathContext.PathContextManager
    var currentPath: Option<string>
    var currentContext: PathContext.ContextType

    /**
     * The current context is the one the path-context manager answers for the
     * current path.  A reload of the roots elsewhere can break this; the
     * methods below run regardless and keep it when it held.
     */
    predicate Valid()
      reads this, contexts`contextCache, contexts`userPaths, contexts`projectPaths
    {
      currentPath.Some? ==> currentContext == contexts.Answer(currentPath.value)
    }

    constructor (core: EntityManager, contexts: PathContext.PathContextManager)
      ensures this.core == core && this.contexts == contexts
      ensures currentPath == None && currentContext == PathContext.General
      ensures Valid()
    {
      this.core := core;
      this.contexts := contexts;
      currentPath := None;
      currentContext := PathContext.General;
    }

    /** `set_current_path`: a new path is stored with its context; the same path changes nothing. */
    method SetCurrentPath(path: string)
      modifies this, contexts`contextCache
      ensures currentPath == Some(path)
      ensures old(currentPath) == Some(path) ==>
                currentContext == old(currentContext) && contexts.contextCache == old(contexts.contextCache)
      ensures old(currentPath) != Some(path) ==> currentContext == old(contexts.Answer(path))
      ensures forall q :: contexts.Answer(q) == old(contexts.Answer(q))
      ensures old(Valid()) ==> Valid()
      ensures old(Valid() && contexts.Valid()) ==>
                contexts.Valid()
                && currentContext == PathContext.ContextOf(path, contexts.userPaths, contexts.projectPaths, contexts.resolve)
    {
      if currentPath != Some(path) {
        currentPath := Some(path);
        currentContext := contexts.GetContextForPath(path);
      }
    }

    /** `scan_directory_recursive` with the context switched to each directory before it is scanned. */
    method ScanDirectoryRecursive(disk: Disk, matcher: SequenceDetector.Matcher, root: string, walk: seq<DirEntry>)
      returns (entities: seq<MediaEntity>)
      modifies this, contexts`contextCache
      ensures old(Valid()) ==> Valid()
      ensures entities == RecursiveScan(core.settings, core.detector, disk, matcher, root, walk)
      ensures disk.listing(root).Some? ==>
                var scanned := Scanned(DirsToScan(core.settings, disk, root, walk), SequenceFolders(core.settings, disk, walk));
                currentPath == if scanned == [] then old(currentPath) else Some(scanned[|scanned| - 1])
      ensures disk.listing(root).None? ==> currentPath == old(currentPath)
    {
      if disk.listing(root).None? {
        return [];
      }
      var dirs, skip := core.CollectDirectories(disk, root, walk);
      entities := ScanEach(disk, matcher, dirs, skip, Valid());
    }

    /** The second pass, switching the current path to each directory scanned. */
    method ScanEach(disk: Disk, matcher: SequenceDetector.Matcher, dirs: seq<string>, skip: set<string>,
                    ghost valid: bool)
      returns (entities: seq<MediaEntity>)
      requires valid ==> Valid()
      modifies this, contexts`contextCache
      ensures valid ==> Valid()
      ensures entities == ScanAll(core.settings, core.detector, disk, matcher, Scanned(dirs, skip))
      ensures currentPath == LastOr(Scanned(dirs, skip), old(currentPath))
    {
      entities := [];
      var i := 0;
      while i < |dirs|
        invariant 0 <= i <= |dirs|
        invariant valid ==> Valid()
        invariant entities == ScanAll(core.settings, core.detector, disk, matcher, Scanned(dirs[..i], skip))
        invariant currentPath == LastOr(Scanned(dirs[..i], skip), old(currentPath))
      {
        entities := ScanStep(disk, matcher, dirs, i, skip, entities, old(currentPath), valid);
        i := i + 1;
      }
      ScannedAll(dirs, skip);
    }

    /** One directory of the second pass: scanned in its context unless it is a sequence folder. */
    method ScanStep(disk: Disk, matcher: SequenceDetector.Matcher, dirs: seq<string>, i: nat, skip: set<string>,
                    entities: seq<MediaEntity>, ghost start: Option<string>, ghost valid: bool)
      returns (r: seq<MediaEntity>)
      requires i < |dirs| && (valid ==> Valid())
      requires entities == ScanAll(core.settings, core.detector, disk, matcher, Scanned(dirs[..i], skip))
      requires currentPath == LastOr(Scanned(dirs[..i], skip), start)
      modifies this, contexts`contextCache
      ensures valid ==> Valid()
      ensures r == ScanAll(core.settings, core.detector, disk, matcher, Scanned(dirs[..i + 1], skip))
      ensures currentPath == LastOr(Scanned(dirs[..i + 1], skip), start)
    {
      ghost var done, next := Scanned(dirs[..i], skip), Scanned(dirs[..i + 1], skip);
      ScannedAt(dirs, i, skip);
      r := entities;
      if dirs[i] !in skip {
        assert next == done + [dirs[i]];
        r := ScanInContext(disk, matcher, done, dirs[i], entities);
      } else {
        assert next == done;
      }
    }

    /** One step of the second pass: switch to the directory, then append its entities. */
    method ScanInContext(disk: Disk, matcher: SequenceDetector.Matcher, ghost done: seq<string>, d: string,
                         entities: seq<MediaEntity>) returns (r: seq<MediaEntity>)
      requires entities == ScanAll(core.settings, core.detector, disk, matcher, done)
      modifies this, contexts`contextCache
      ensures old(Valid()) ==> Valid()
      ensures r == ScanAll(core.settings, core.detector, disk, matcher, done + [d])
      ensures currentPath == Some(d)
    {
      SetCurrentPath(d);
      r := core.ScanAppend(disk, matcher, done, d, entities);
    }

    /** `scan_directory`: the context follows the scanned path, then the scan runs by the flag. */
    method ScanDirectory(disk: Disk, matcher: SequenceDetector.Matcher, dir: string, recursive: bool, walk: seq<DirEntry>)
      returns (entities: seq<MediaEntity>)
      modifies this, contexts`contextCache
      ensures old(Valid()) ==> Valid()
      ensures recursive ==> entities == RecursiveScan(core.settings, core.detector, disk, matcher, dir, walk)
      ensures !recursive ==> entities == SingleScan(core.settings, core.detector, disk, matcher, dir)
      ensures !recursive ==> currentPath == Some(dir) && (old(Valid()) ==> currentContext == contexts.Answer(dir))
    {
      SetCurrentPath(dir);
      if recursive {
        entities := ScanDirectoryRecursive(disk, matcher, dir, walk);
      } else {
        entities := core.ScanSingleDirectory(disk, matcher, dir);
      }
    }
  }
}
