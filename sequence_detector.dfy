/**
 * Image-sequence detection: file names are matched against an ordered list
 * of patterns, grouped by (base name, extension, frame-digit width,
 * pattern), and each large-enough group without an over-long gap becomes a
 * sequence with its frame range, its missing frames and a `base.####.ext`
 * name.
 *
 * The regular-expression engine is abstract: a `Matcher` maps a pattern and
 * a file name to the groups of a case-insensitive match at the start of the
 * name, or `None`; an invalid pattern behaves like a pattern that matches
 * nothing.  A `PatternCheck` says whether `re.compile` accepts a pattern.
 */
module SequenceDetector {
  import opened Wrappers
  import opened Text
  import Paths
  import Sorting

  type Matcher = (string, string) -> Option<seq<string>>
  type PatternCheck = string -> bool

  /** One matched file: what the pattern's first three groups said about it. */
  datatype FrameFile = FrameFile(
    path: string, base: string, frame: int, frameStr: string,
    ext: string, padding: nat, pattern: string)

  /** What two files must share to belong to one sequence. */
  datatype GroupKey = GroupKey(base: string, ext: string, padding: nat, pattern: string)

  datatype SequenceInfo = SequenceInfo(
    name: string, basePath: string, files: seq<string>,
    firstFrame: int, lastFrame: int, frameCount: nat, missingFrames: seq<int>,
    pattern: string, base: string, ext: string, padding: nat)

  function KeyOf(f: FrameFile): GroupKey
  {
    GroupKey(f.base, f.ext, f.padding, f.pattern)
  }

  function FrameOf(f: FrameFile): int { f.frame }

  // ------------------------------------------------------------- matching

  /** One pattern tried on one file: a match with at least three groups whose second is an integer. */
  function TryPattern(path: string, pattern: string, matcher: Matcher): (r: Option<FrameFile>)
    ensures r.Some? ==> r.value.path == path && r.value.pattern == pattern
    ensures r.Some? ==> ParseInt(r.value.frameStr) == Some(r.value.frame)
                        && r.value.padding == |r.value.frameStr|
  {
    match matcher(pattern, Paths.Name(path))
    case None => None
    case Some(groups) =>
      if |groups| < 3 then None
      else match ParseInt(groups[1])
        case None => None
        case Some(n) => Some(FrameFile(path, groups[0], n, groups[1], groups[2], |groups[1]|, pattern))
  }

  /** The first pattern, in list order, that yields a frame for `path`. */
  function FirstMatch(path: string, patterns: seq<string>, matcher: Matcher): (r: Option<FrameFile>)
    ensures r.None? ==> forall k :: 0 <= k < |patterns| ==> TryPattern(path, patterns[k], matcher).None?
    ensures r.Some? ==> r.value.path == path && r.value.pattern in patterns
  {
    if patterns == [] then None
    else
      var here := TryPattern(path, patterns[0], matcher);
      if here.Some? then here else FirstMatch(path, patterns[1..], matcher)
  }

  /** Every pattern before position `k` fails on `path`. */
  predicate FailsBefore(path: string, patterns: seq<string>, matcher: Matcher, k: nat)
    requires k <= |patterns|
  {
    forall j :: 0 <= j < k ==> TryPattern(path, patterns[j], matcher).None?
  }

  lemma FailsBeforeCons(path: string, patterns: seq<string>, matcher: Matcher, k: nat)
    requires k < |patterns| && TryPattern(path, patterns[0], matcher).None?
    requires FailsBefore(path, patterns[1..], matcher, k)
    ensures FailsBefore(path, patterns, matcher, k + 1)
  {
    assert forall j :: 1 <= j < k + 1 ==> patterns[j] == patterns[1..][j - 1];
  }

  /** The pattern that wins is the first one that yields a frame; every earlier one fails. */
  lemma {:induction false} FirstMatchIsFirst(path: string, patterns: seq<string>, matcher: Matcher)
    requires FirstMatch(path, patterns, matcher).Some?
    ensures exists k :: 0 <= k < |patterns| && TryPattern(path, patterns[k], matcher) == FirstMatch(path, patterns, matcher)
              && FailsBefore(path, patterns, matcher, k)
  {
    if TryPattern(path, patterns[0], matcher).Some? {
      assert TryPattern(path, patterns[0], matcher) == FirstMatch(path, patterns, matcher);
      assert FailsBefore(path, patterns, matcher, 0);
    } else {
      var rest := patterns[1..];
      assert FirstMatch(path, patterns, matcher) == FirstMatch(path, rest, matcher);
      FirstMatchIsFirst(path, rest, matcher);
      var k :| 0 <= k < |rest| && TryPattern(path, rest[k], matcher) == FirstMatch(path, rest, matcher)
               && FailsBefore(path, rest, matcher, k);
      FailsBeforeCons(path, patterns, matcher, k);
      assert patterns[k + 1] == rest[k];
    }
  }

  /** The matched files of a listing, in listing order. */
  function Matched(files: seq<string>, patterns: seq<string>, matcher: Matcher): (r: seq<FrameFile>)
    ensures |r| <= |files|
  {
    if files == [] then []
    else
      var m := FirstMatch(files[|files| - 1], patterns, matcher);
      Matched(files[..|files| - 1], patterns, matcher) + (if m.Some? then [m.value] else [])
  }

  // ------------------------------------------------------------- grouping

  /** Groups in first-seen order, each with its members in listing order. */
  type Groups = seq<(GroupKey, seq<FrameFile>)>

  function IndexOfKey(groups: Groups, k: GroupKey): (r: int)
    ensures -1 <= r < |groups|
    ensures r >= 0 ==> groups[r].0 == k
    ensures r == -1 ==> forall i :: 0 <= i < |groups| ==> groups[i].0 != k
  {
    if groups == [] then -1
    else if groups[|groups| - 1].0 == k then |groups| - 1
    else IndexOfKey(groups[..|groups| - 1], k)
  }

  /** `sequence_groups[key].append(info)` on an insertion-ordered dictionary. */
  function AddToGroups(groups: Groups, f: FrameFile): Groups
  {
    var i := IndexOfKey(groups, KeyOf(f));
    if i < 0 then groups + [(KeyOf(f), [f])]
    else groups[i := (KeyOf(f), groups[i].1 + [f])]
  }

  function GroupAll(fs: seq<FrameFile>): Groups
  {
    if fs == [] then [] else AddToGroups(GroupAll(fs[..|fs| - 1]), fs[|fs| - 1])
  }

  /** The members of `fs` carrying key `k`, in order. */
  function WithKey(fs: seq<FrameFile>, k: GroupKey): (r: seq<FrameFile>)
    ensures forall f :: f in r <==> f in fs && KeyOf(f) == k
  {
    if fs == [] then []
    else WithKey(fs[..|fs| - 1], k) + (if KeyOf(fs[|fs| - 1]) == k then [fs[|fs| - 1]] else [])
  }

  predicate KeysDistinct(groups: Groups)
  {
    forall i, j :: 0 <= i < j < |groups| ==> groups[i].0 != groups[j].0
  }

  /**
   * A grouping of `fs` is right when its keys are distinct, each group holds
   * exactly the members of `fs` with its key, in order, and every member of
   * `fs` has a group.
   */
  predicate GroupsOf(groups: Groups, fs: seq<FrameFile>)
  {
    KeysDistinct(groups)
    && (forall i :: 0 <= i < |groups| ==> groups[i].1 == WithKey(fs, groups[i].0) && groups[i].1 != [])
    && (forall f :: f in fs ==> exists i :: 0 <= i < |groups| && groups[i].0 == KeyOf(f))
  }

  lemma WithKeySnoc(fs: seq<FrameFile>, f: FrameFile, k: GroupKey)
    ensures WithKey(fs + [f], k) == WithKey(fs, k) + (if KeyOf(f) == k then [f] else [])
  {
    assert (fs + [f])[..|fs|] == fs;
  }

  lemma WithKeyNone(fs: seq<FrameFile>, k: GroupKey)
    requires forall f :: f in fs ==> KeyOf(f) != k
    ensures WithKey(fs, k) == []
  {
    if WithKey(fs, k) != [] {
      assert WithKey(fs, k)[0] in WithKey(fs, k);
    }
  }

  /** Adding one member keeps a grouping right. */
  lemma AddToGroupsCorrect(g: Groups, fs: seq<FrameFile>, f: FrameFile)
    requires GroupsOf(g, fs)
    ensures GroupsOf(AddToGroups(g, f), fs + [f])
  {
    AddToGroupsMembers(g, fs, f);
    var g' := AddToGroups(g, f);
    var i := IndexOfKey(g, KeyOf(f));
    forall x | x in fs + [f] ensures exists j :: 0 <= j < |g'| && g'[j].0 == KeyOf(x) {
      if x in fs {
        var j :| 0 <= j < |g| && g[j].0 == KeyOf(x);
        assert g'[j].0 == KeyOf(x);
      } else if i < 0 {
        assert g'[|g|].0 == KeyOf(x);
      } else {
        assert g'[i].0 == KeyOf(x);
      }
    }
  }

  /** Adding one member leaves every group holding exactly the members with its key. */
  lemma AddToGroupsMembers(g: Groups, fs: seq<FrameFile>, f: FrameFile)
    requires GroupsOf(g, fs)
    ensures KeysDistinct(AddToGroups(g, f))
    ensures var g' := AddToGroups(g, f);
            forall j :: 0 <= j < |g'| ==> g'[j].1 == WithKey(fs + [f], g'[j].0) && g'[j].1 != []
  {
    var g' := AddToGroups(g, f);
    var i := IndexOfKey(g, KeyOf(f));
    forall j | 0 <= j < |g'| ensures g'[j].1 == WithKey(fs + [f], g'[j].0) && g'[j].1 != [] {
      WithKeySnoc(fs, f, g'[j].0);
      if i < 0 && j == |g| {
        WithKeyNone(fs, KeyOf(f));
      }
    }
  }

  lemma {:induction false} GroupAllCorrect(fs: seq<FrameFile>)
    ensures GroupsOf(GroupAll(fs), fs)
  {
    if fs != [] {
      var init := fs[..|fs| - 1];
      assert fs == init + [fs[|fs| - 1]];
      GroupAllCorrect(init);
      AddToGroupsCorrect(GroupAll(init), init, fs[|fs| - 1]);
    }
  }

  /** No file is in two groups: group membership is decided by the key alone. */
  lemma FileInOneGroup(fs: seq<FrameFile>, f: FrameFile)
    requires f in fs
    ensures exists i :: 0 <= i < |GroupAll(fs)| && f in GroupAll(fs)[i].1
    ensures forall i, j :: 0 <= i < j < |GroupAll(fs)| ==> !(f in GroupAll(fs)[i].1 && f in GroupAll(fs)[j].1)
  {
    GroupAllCorrect(fs);
    var g := GroupAll(fs);
    var i :| 0 <= i < |g| && g[i].0 == KeyOf(f);
    assert f in g[i].1;
    forall j | 0 <= j < |g| && f in g[j].1 ensures g[j].0 == KeyOf(f) {
    }
  }

  // -------------------------------------------------- the group's sequence

  function Frames(fs: seq<FrameFile>): (r: seq<int>)
    ensures |r| == |fs| && forall i :: 0 <= i < |fs| ==> r[i] == fs[i].frame
  {
    if fs == [] then [] else [fs[0].frame] + Frames(fs[1..])
  }

  function PathsOf(fs: seq<FrameFile>): (r: seq<string>)
    ensures |r| == |fs| && forall i :: 0 <= i < |fs| ==> r[i] == fs[i].path
  {
    if fs == [] then [] else [fs[0].path] + PathsOf(fs[1..])
  }

  function SeqMin(s: seq<int>): (r: int)
    requires s != []
    ensures r in s && forall x :: x in s ==> r <= x
  {
    if |s| == 1 then s[0]
    else
      var m := SeqMin(s[1..]);
      assert forall x :: x in s ==> x == s[0] || x in s[1..];
      if s[0] <= m then s[0] else m
  }

  function SeqMax(s: seq<int>): (r: int)
    requires s != []
    ensures r in s && forall x :: x in s ==> x <= r
  {
    if |s| == 1 then s[0]
    else
      var m := SeqMax(s[1..]);
      assert forall x :: x in s ==> x == s[0] || x in s[1..];
      if s[0] >= m then s[0] else m
  }

  /** `sorted(set(range(lo, hi + 1)) - set(frames))`. */
  function MissingFrames(lo: int, hi: int, frames: seq<int>): (r: seq<int>)
    ensures forall x :: x in r <==> lo <= x <= hi && x !in frames
    ensures forall i, j :: 0 <= i < j < |r| ==> r[i] < r[j]
    decreases hi - lo + 1
  {
    if lo > hi then []
    else
      var rest := MissingFrames(lo + 1, hi, frames);
      assert forall k :: 0 <= k < |rest| ==> rest[k] in rest && lo < rest[k];
      (if lo in frames then [] else [lo]) + rest
  }

  /** The largest `next - prev - 1` between neighbours, or 0. */
  function MaxGap(frames: seq<int>): (r: int)
    ensures r >= 0
  {
    if |frames| < 2 then 0
    else
      var n := |frames|;
      var m := MaxGap(frames[..n - 1]);
      var gap := frames[n - 1] - frames[n - 2] - 1;
      if gap > m then gap else m
  }

  /** `MaxGap` bounds every gap and is either 0 or one of the gaps. */
  lemma {:induction false} MaxGapIsMax(frames: seq<int>)
    ensures forall i :: 1 <= i < |frames| ==> frames[i] - frames[i - 1] - 1 <= MaxGap(frames)
    ensures MaxGap(frames) == 0 || exists i :: 1 <= i < |frames| && frames[i] - frames[i - 1] - 1 == MaxGap(frames)
  {
    if |frames| >= 2 {
      var n := |frames|;
      var init := frames[..n - 1];
      MaxGapIsMax(init);
      assert forall i :: 0 <= i < n - 1 ==> init[i] == frames[i];
      if MaxGap(init) != 0 && MaxGap(frames) == MaxGap(init) {
        var i :| 1 <= i < |init| && init[i] - init[i - 1] - 1 == MaxGap(init);
        assert frames[i] - frames[i - 1] - 1 == MaxGap(frames);
      }
    }
  }

  /** The members of a group in ascending frame order (a stable sort). */
  function SortedMembers(fs: seq<FrameFile>): (r: seq<FrameFile>)
    ensures multiset(r) == multiset(fs) && |r| == |fs|
    ensures forall i, j :: 0 <= i < j < |r| ==> r[i].frame <= r[j].frame
  {
    var r := Sorting.SortByInt(fs, FrameOf);
    assert forall i, j :: 0 <= i < j < |r| ==> FrameOf(r[i]) <= FrameOf(r[j]);
    r
  }

  /** `base.####.ext`, one `#` per frame digit; `base_sequence.ext` without digits. */
  function SequenceName(base: string, padding: nat, ext: string): string
  {
    if padding > 0 then base + "." + Repeat('#', padding) + "." + ext
    else base + "_sequence." + ext
  }

  /** `_create_sequence_info`: the sequence a group stands for, if it qualifies. */
  function SequenceOf(fs: seq<FrameFile>, minLength: int, maxGapFrames: int): (r: Option<SequenceInfo>)
    requires fs != []
    ensures r.None? <==>
              |fs| < minLength
              || (var frames := Frames(SortedMembers(fs));
                  MissingFrames(SeqMin(frames), SeqMax(frames), frames) != [] && MaxGap(frames) > maxGapFrames)
    ensures r.Some? ==>
              var sorted := SortedMembers(fs);
              var frames := Frames(sorted);
              && r.value.files == PathsOf(sorted)
              && r.value.frameCount == |fs| >= minLength
              && r.value.firstFrame == SeqMin(frames) && r.value.lastFrame == SeqMax(frames)
              && r.value.missingFrames == MissingFrames(r.value.firstFrame, r.value.lastFrame, frames)
              && (r.value.missingFrames == [] || MaxGap(frames) <= maxGapFrames)
              && r.value.name == SequenceName(sorted[0].base, sorted[0].padding, sorted[0].ext)
  {
    if |fs| < minLength then None
    else
      var sorted := SortedMembers(fs);
      var first := sorted[0];
      var frames := Frames(sorted);
      var lo, hi := SeqMin(frames), SeqMax(frames);
      var missing := MissingFrames(lo, hi, frames);
      if missing != [] && MaxGap(frames) > maxGapFrames then None
      else Some(SequenceInfo(
        SequenceName(first.base, first.padding, first.ext), Paths.Parent(first.path),
        PathsOf(sorted), lo, hi, |sorted|, missing, first.pattern, first.base, first.ext, first.padding))
  }

  /** The sorted frames run from the first frame to the last one. */
  lemma RangeIsEnds(fs: seq<FrameFile>, minLength: int, maxGapFrames: int)
    requires fs != [] && SequenceOf(fs, minLength, maxGapFrames).Some?
    ensures var s := SequenceOf(fs, minLength, maxGapFrames).value;
            var frames := Frames(SortedMembers(fs));
            s.firstFrame == frames[0] && s.lastFrame == frames[|frames| - 1]
            && s.firstFrame <= s.lastFrame
  {
    var frames := Frames(SortedMembers(fs));
    assert frames[0] in frames && frames[|frames| - 1] in frames;
  }

  /** Every member of a group shares the group's key, so a sequence never mixes bases, extensions, widths or patterns. */
  lemma SequenceMembersShareKey(fs: seq<FrameFile>, k: GroupKey, minLength: int, maxGapFrames: int)
    requires fs != [] && forall f :: f in fs ==> KeyOf(f) == k
    requires SequenceOf(fs, minLength, maxGapFrames).Some?
    ensures var s := SequenceOf(fs, minLength, maxGapFrames).value;
            s.base == k.base && s.ext == k.ext && s.padding == k.padding && s.pattern == k.pattern
  {
    var sorted := SortedMembers(fs);
    assert sorted[0] in multiset(fs);
    assert sorted[0] in fs;
  }

  /** One more file of the listing adds its first match, if any, to the grouping. */
  lemma GroupStep(files: seq<string>, i: int, patterns: seq<string>, matcher: Matcher)
    requires 0 <= i < |files|
    ensures var m := FirstMatch(files[i], patterns, matcher);
            var before := GroupAll(Matched(files[..i], patterns, matcher));
            GroupAll(Matched(files[..i + 1], patterns, matcher))
              == if m.Some? then AddToGroups(before, m.value) else before
  {
    var m := FirstMatch(files[i], patterns, matcher);
    var xs := Matched(files[..i], patterns, matcher);
    assert files[..i + 1][..i] == files[..i];
    assert Matched(files[..i + 1], patterns, matcher) == xs + (if m.Some? then [m.value] else []);
    if m.Some? {
      assert (xs + [m.value])[..|xs|] == xs;
    } else {
      assert xs + [] == xs;
    }
  }

  // ------------------------------------------------------------ the detector

  function SupportedOnly(files: seq<string>, exts: set<string>): (r: seq<string>)
    ensures forall f :: f in r <==> f in files && Lower(Paths.Suffix(Paths.Name(f))) in exts
  {
    if files == [] then []
    else
      var last := files[|files| - 1];
      SupportedOnly(files[..|files| - 1], exts) + (if Lower(Paths.Suffix(Paths.Name(last))) in exts then [last] else [])
  }

  /** The sequences of a list of groups, in group order, skipping the groups that do not qualify. */
  function SequencesOf(groups: Groups, minLength: int, maxGapFrames: int): (r: seq<SequenceInfo>)
    requires forall i :: 0 <= i < |groups| ==> groups[i].1 != []
    ensures |r| <= |groups|
  {
    if groups == [] then []
    else
      var n := |groups|;
      var s := SequenceOf(groups[n - 1].1, minLength, maxGapFrames);
      SequencesOf(groups[..n - 1], minLength, maxGapFrames) + (if s.Some? then [s.value] else [])
  }

  class Detector {
    var defaultPatterns: seq<string>
    var customPatterns: seq<string>
    var patterns: seq<string>
    var minSequenceLength: int
    var maxGapFrames: int
    var supportedExtensions: set<string>

    /** The combined list holds the default and the custom patterns, each as often as there. */
    predicate Valid()
      reads this
    {
      multiset(patterns) == multiset(defaultPatterns + customPatterns)
    }

    /** Settings as read from the `sequence_detection` section (or its defaults); extensions are lower-cased. */
    constructor (defaults: seq<string>, custom: seq<string>, minLength: int, maxGap: int, extensions: set<string>)
      ensures Valid()
      ensures defaultPatterns == defaults && customPatterns == custom && patterns == defaults + custom
      ensures minSequenceLength == minLength && maxGapFrames == maxGap
      ensures supportedExtensions == set e | e in extensions :: Lower(e)
    {
      defaultPatterns := defaults;
      customPatterns := custom;
      patterns := defaults + custom;
      minSequenceLength := minLength;
      maxGapFrames := maxGap;
      supportedExtensions := set e | e in extensions :: Lower(e);
    }

    /** What `detect_sequences` returns for a list of image paths. */
    function Detect(imageFiles: seq<string>, matcher: Matcher): (r: seq<SequenceInfo>)
      reads this
      ensures imageFiles == [] ==> r == []
      ensures SupportedOnly(imageFiles, supportedExtensions) == [] ==> r == []
      ensures forall s :: s in r ==> s.frameCount == |s.files| && s.frameCount >= minSequenceLength
    {
      var fs := Matched(SupportedOnly(imageFiles, supportedExtensions), patterns, matcher);
      GroupAllCorrect(fs);
      var r := SequencesOf(GroupAll(fs), minSequenceLength, maxGapFrames);
      SequencesQualify(GroupAll(fs), minSequenceLength, maxGapFrames);
      r
    }

    /**
     * Every file of a detected sequence is one of the input files, and no
     * file belongs to two detected sequences.
     */
    lemma DetectedFilesAreInputs(imageFiles: seq<string>, matcher: Matcher)
      ensures forall s, p :: s in Detect(imageFiles, matcher) && p in s.files ==> p in imageFiles
      ensures SequencesApart(Detect(imageFiles, matcher))
    {
      var supported := SupportedOnly(imageFiles, supportedExtensions);
      var fs := Matched(supported, patterns, matcher);
      var groups := GroupAll(fs);
      GroupAllCorrect(fs);
      GroupsArePathsApart(supported, patterns, matcher);
      MatchedAreFirstMatches(supported, patterns, matcher);
      SequencesApartFromGroups(groups, minSequenceLength, maxGapFrames);
      var r := Detect(imageFiles, matcher);
      forall s, p | s in r && p in s.files ensures p in imageFiles {
        var a :| 0 <= a < |r| && r[a] == s;
        SequenceFileIsInput(supported, patterns, matcher, minSequenceLength, maxGapFrames, a, p);
      }
    }

    /** `_group_files_by_pattern`: each file joins the group of its first matching pattern. */
    method GroupFilesByPattern(files: seq<string>, matcher: Matcher) returns (groups: Groups)
      ensures groups == GroupAll(Matched(files, patterns, matcher))
      ensures GroupsOf(groups, Matched(files, patterns, matcher))
    {
      groups := [];
      var i := 0;
      while i < |files|
        invariant 0 <= i <= |files|
        invariant groups == GroupAll(Matched(files[..i], patterns, matcher))
      {
        var path := files[i];
        assert files[..i + 1][..i] == files[..i];
        ghost var before := groups;
        ghost var found := false;
        var j := 0;
        while j < |patterns|
          invariant 0 <= j <= |patterns|
          invariant FirstMatch(path, patterns[j..], matcher) == FirstMatch(path, patterns, matcher)
          invariant groups == before && !found
        {
          var info := TryPattern(path, patterns[j], matcher);
          if info.Some? {
            assert patterns[j..][0] == patterns[j];
            var k := IndexOfKey(groups, KeyOf(info.value));
            if k < 0 {
              groups := groups + [(KeyOf(info.value), [info.value])];
            } else {
              groups := groups[k := (KeyOf(info.value), groups[k].1 + [info.value])];
            }
            found := true;
            assert groups == AddToGroups(before, FirstMatch(path, patterns, matcher).value);
            break;
          }
          assert patterns[j..][1..] == patterns[j + 1..];
          j := j + 1;
        }
        GroupStep(files, i, patterns, matcher);
        assert !found ==> FirstMatch(path, patterns, matcher).None?;
        i := i + 1;
      }
      assert files[..i] == files;
      GroupAllCorrect(Matched(files, patterns, matcher));
    }

    /** `_get_max_gap_size`: a running maximum over neighbouring frames. */
    static method MaxGapSize(frames: seq<int>) returns (maxGap: int)
      ensures maxGap == MaxGap(frames)
      ensures forall i :: 1 <= i < |frames| ==> frames[i] - frames[i - 1] - 1 <= maxGap
    {
      if |frames| < 2 {
        return 0;
      }
      maxGap := 0;
      var i := 1;
      while i < |frames|
        invariant 1 <= i <= |frames|
        invariant maxGap == MaxGap(frames[..i])
      {
        var gap := frames[i] - frames[i - 1] - 1;
        assert frames[..i + 1][..i] == frames[..i];
        if gap > maxGap {
          maxGap := gap;
        }
        i := i + 1;
      }
      assert frames[..i] == frames;
      MaxGapIsMax(frames);
    }

    /** `_create_sequence_info` for one group. */
    method CreateSequenceInfo(fileInfos: seq<FrameFile>) returns (r: Option<SequenceInfo>)
      requires fileInfos != []
      ensures r == SequenceOf(fileInfos, minSequenceLength, maxGapFrames)
    {
      if |fileInfos| < minSequenceLength {
        return None;
      }
      var sorted := SortedMembers(fileInfos);
      var first := sorted[0];
      var frames := Frames(sorted);
      var lo, hi := SeqMin(frames), SeqMax(frames);
      var missing := MissingFrames(lo, hi, frames);
      if missing != [] {
        var gap := MaxGapSize(frames);
        if gap > maxGapFrames {
          return None;
        }
      }
      var name := SequenceName(first.base, first.padding, first.ext);
      r := Some(SequenceInfo(name, Paths.Parent(first.path), PathsOf(sorted), lo, hi,
                             |sorted|, missing, first.pattern, first.base, first.ext, first.padding));
    }

    /** `detect_sequences`. */
    method DetectSequences(imageFiles: seq<string>, matcher: Matcher) returns (r: seq<SequenceInfo>)
      ensures r == Detect(imageFiles, matcher)
    {
      if imageFiles == [] {
        return [];
      }
      var supported := SupportedOnly(imageFiles, supportedExtensions);
      if supported == [] {
        return [];
      }
      var groups := GroupFilesByPattern(supported, matcher);
      assert NonEmptyGroups(groups);
      r := SequencesOfGroups(groups);
    }

    /** The loop over the groups: each group's sequence, when it qualifies, in group order. */
    method SequencesOfGroups(groups: Groups) returns (r: seq<SequenceInfo>)
      requires NonEmptyGroups(groups)
      ensures r == SequencesOf(groups, minSequenceLength, maxGapFrames)
    {
      r := [];
      var i := 0;
      while i < |groups|
        invariant 0 <= i <= |groups|
        invariant r == SequencesOf(groups[..i], minSequenceLength, maxGapFrames)
      {
        SequencesStep(groups, i, minSequenceLength, maxGapFrames);
        var info := CreateSequenceInfo(groups[i].1);
        if info.Some? {
          r := r + [info.value];
        }
        i := i + 1;
      }
      assert groups[..i] == groups;
    }

    /** `add_custom_pattern`: a compilable pattern not yet present goes to the end of both lists. */
    method AddCustomPattern(pattern: string, compiles: PatternCheck) returns (added: bool)
      requires Valid()
      modifies this
      ensures Valid()
      ensures added <==> compiles(pattern) && pattern !in old(patterns)
      ensures added ==> patterns == old(patterns) + [pattern] && customPatterns == old(customPatterns) + [pattern]
      ensures !added ==> patterns == old(patterns) && customPatterns == old(customPatterns)
      ensures defaultPatterns == old(defaultPatterns)
      ensures minSequenceLength == old(minSequenceLength) && maxGapFrames == old(maxGapFrames)
      ensures supportedExtensions == old(supportedExtensions)
    {
      if !compiles(pattern) {
        return false;
      }
      if pattern !in patterns {
        patterns := patterns + [pattern];
        customPatterns := customPatterns + [pattern];
        return true;
      }
      return false;
    }

    /** `remove_custom_pattern`: only a custom pattern is removed, its first occurrence in each list. */
    method RemoveCustomPattern(pattern: string) returns (removed: bool)
      requires Valid()
      modifies this
      ensures Valid()
      ensures removed <==> pattern in old(customPatterns)
      ensures removed ==> pattern in old(patterns)
                          && customPatterns == RemoveFirst(old(customPatterns), pattern)
                          && patterns == RemoveFirst(old(patterns), pattern)
      ensures !removed ==> patterns == old(patterns) && customPatterns == old(customPatterns)
      ensures defaultPatterns == old(defaultPatterns)
      ensures minSequenceLength == old(minSequenceLength) && maxGapFrames == old(maxGapFrames)
      ensures supportedExtensions == old(supportedExtensions)
    {
      if pattern in customPatterns {
        RemoveKeepsValid(defaultPatterns, customPatterns, patterns, pattern);
        customPatterns := RemoveFirst(customPatterns, pattern);
        patterns := RemoveFirst(patterns, pattern);
        return true;
      }
      return false;
    }
  }

  /** A file of the `a`-th sequence built from the groups of `files` is one of `files`. */
  lemma SequenceFileIsInput(files: seq<string>, patterns: seq<string>, matcher: Matcher,
                            minLength: int, maxGapFrames: int, a: int, p: string)
    requires NonEmptyGroups(GroupAll(Matched(files, patterns, matcher)))
    requires var fs := Matched(files, patterns, matcher);
             0 <= a < |SequencesOf(GroupAll(fs), minLength, maxGapFrames)|
             && p in SequencesOf(GroupAll(fs), minLength, maxGapFrames)[a].files
    ensures p in files
  {
    var fs := Matched(files, patterns, matcher);
    var groups := GroupAll(fs);
    GroupAllCorrect(fs);
    MatchedAreFirstMatches(files, patterns, matcher);
    SequenceFileFromGroups(groups, minLength, maxGapFrames, a, p);
    var f :| f in Members(groups) && f.path == p;
    MemberInSomeGroup(groups, f);
    var i :| 0 <= i < |groups| && f in groups[i].1;
    assert f in fs;
  }

  predicate NonEmptyGroups(groups: Groups)
  {
    forall i :: 0 <= i < |groups| ==> groups[i].1 != []
  }

  lemma SequencesStep(groups: Groups, i: int, minLength: int, maxGapFrames: int)
    requires NonEmptyGroups(groups) && 0 <= i < |groups|
    ensures var s := SequenceOf(groups[i].1, minLength, maxGapFrames);
            SequencesOf(groups[..i + 1], minLength, maxGapFrames)
              == SequencesOf(groups[..i], minLength, maxGapFrames) + (if s.Some? then [s.value] else [])
  {
    assert groups[..i + 1][..i] == groups[..i];
  }

  /** Every sequence built from groups qualifies: enough frames, and the count is the file count. */
  lemma {:induction false} SequencesQualify(groups: Groups, minLength: int, maxGapFrames: int)
    requires forall i :: 0 <= i < |groups| ==> groups[i].1 != []
    ensures forall s :: s in SequencesOf(groups, minLength, maxGapFrames) ==>
              s.frameCount == |s.files| && s.frameCount >= minLength
  {
    if groups != [] {
      SequencesQualify(groups[..|groups| - 1], minLength, maxGapFrames);
    }
  }

  /** Removing a custom pattern from both lists keeps the combined list the union of the two. */
  lemma RemoveKeepsValid(defaults: seq<string>, custom: seq<string>, all: seq<string>, x: string)
    requires multiset(all) == multiset(defaults + custom) && x in custom
    ensures x in all
    ensures multiset(RemoveFirst(all, x)) == multiset(defaults + RemoveFirst(custom, x))
  {
    assert x in multiset(defaults + custom);
    assert multiset(defaults + custom) == multiset(defaults) + multiset(custom);
    assert multiset(defaults + RemoveFirst(custom, x)) == multiset(defaults) + multiset(RemoveFirst(custom, x));
  }

  /** `list.remove(x)`: the first occurrence of `x` dropped. */
  function RemoveFirst(s: seq<string>, x: string): (r: seq<string>)
    requires x in s
    ensures multiset(r) == multiset(s) - multiset{x}
    ensures |r| == |s| - 1
  {
    assert s == [s[0]] + s[1..];
    if s[0] == x then s[1..] else [s[0]] + RemoveFirst(s[1..], x)
  }

  // ------------------------------------------ where detected files come from

  /** A matched file is the first match of its own path, and that path is an input. */
  lemma {:induction false} MatchedAreFirstMatches(files: seq<string>, patterns: seq<string>, matcher: Matcher)
    ensures forall f :: f in Matched(files, patterns, matcher) ==>
              f.path in files && FirstMatch(f.path, patterns, matcher) == Some(f)
  {
    if files != [] {
      var init := files[..|files| - 1];
      MatchedAreFirstMatches(init, patterns, matcher);
      assert forall x :: x in init ==> x in files;
    }
  }

  /** Members of different groups have different paths. */
  predicate PathsApart(groups: Groups)
  {
    forall i, j, f, h :: 0 <= i < j < |groups| && f in groups[i].1 && h in groups[j].1 ==> f.path != h.path
  }

  /** The members of all groups, group after group. */
  function Members(groups: Groups): (r: seq<FrameFile>)
  {
    if groups == [] then [] else Members(groups[..|groups| - 1]) + groups[|groups| - 1].1
  }

  /** `p` is the path of some member of some group. */
  ghost predicate InGroups(groups: Groups, p: string)
  {
    exists f :: f in Members(groups) && f.path == p
  }

  /** A path has one first match and so one key: no path is in two groups. */
  lemma GroupsArePathsApart(files: seq<string>, patterns: seq<string>, matcher: Matcher)
    ensures PathsApart(GroupAll(Matched(files, patterns, matcher)))
  {
    var fs := Matched(files, patterns, matcher);
    MatchedAreFirstMatches(files, patterns, matcher);
    GroupAllCorrect(fs);
    var g := GroupAll(fs);
    forall i, j, f, h | 0 <= i < j < |g| && f in g[i].1 && h in g[j].1 ensures f.path != h.path {
      assert KeyOf(f) == g[i].0 && KeyOf(h) == g[j].0;
      assert FirstMatch(f.path, patterns, matcher) == Some(f);
      assert FirstMatch(h.path, patterns, matcher) == Some(h);
    }
  }

  lemma PathsOfMembers(fs: seq<FrameFile>, p: string)
    ensures p in PathsOf(fs) <==> exists f :: f in fs && f.path == p
  {
    if p in PathsOf(fs) {
      var k :| 0 <= k < |fs| && PathsOf(fs)[k] == p;
      assert fs[k] in fs;
    }
  }

  /** A sequence's files are the paths of its group's members. */
  lemma SequenceFilesFromMembers(fs: seq<FrameFile>, minLength: int, maxGapFrames: int)
    requires fs != [] && SequenceOf(fs, minLength, maxGapFrames).Some?
    ensures forall p :: p in SequenceOf(fs, minLength, maxGapFrames).value.files ==>
              exists h :: h in fs && h.path == p
  {
    var sorted := SortedMembers(fs);
    forall p | p in SequenceOf(fs, minLength, maxGapFrames).value.files
      ensures exists h :: h in fs && h.path == p
    {
      PathsOfMembers(sorted, p);
      var h :| h in sorted && h.path == p;
      assert h in multiset(sorted);
    }
  }

  /** The sequence list grows by the last group's sequence, if it has one. */
  lemma SequencesSnoc(groups: Groups, minLength: int, maxGapFrames: int)
    requires NonEmptyGroups(groups) && groups != []
    ensures var s := SequenceOf(groups[|groups| - 1].1, minLength, maxGapFrames);
            SequencesOf(groups, minLength, maxGapFrames)
              == SequencesOf(groups[..|groups| - 1], minLength, maxGapFrames) + (if s.Some? then [s.value] else [])
  {
  }

  /** Every file of a sequence built from groups is the path of a group member. */
  lemma {:induction false} SequenceFileFromGroups(groups: Groups, minLength: int, maxGapFrames: int, a: int, p: string)
    requires NonEmptyGroups(groups)
    requires 0 <= a < |SequencesOf(groups, minLength, maxGapFrames)|
    requires p in SequencesOf(groups, minLength, maxGapFrames)[a].files
    ensures InGroups(groups, p)
  {
    var n := |groups|;
    var init := groups[..n - 1];
    SequencesSnoc(groups, minLength, maxGapFrames);
    var before := SequencesOf(init, minLength, maxGapFrames);
    assert Members(groups) == Members(init) + groups[n - 1].1;
    if a < |before| {
      SequenceFileFromGroups(init, minLength, maxGapFrames, a, p);
      var f :| f in Members(init) && f.path == p;
      assert f in Members(groups);
    } else {
      SequenceFilesFromMembers(groups[n - 1].1, minLength, maxGapFrames);
      var h :| h in groups[n - 1].1 && h.path == p;
      assert h in Members(groups);
    }
  }

  /** A member of the groups sits in one of them. */
  lemma {:induction false} MemberInSomeGroup(groups: Groups, f: FrameFile)
    requires f in Members(groups)
    ensures exists i :: 0 <= i < |groups| && f in groups[i].1
  {
    var n := |groups|;
    var init := groups[..n - 1];
    if f in Members(init) {
      MemberInSomeGroup(init, f);
      var i :| 0 <= i < |init| && f in init[i].1;
      assert f in groups[i].1;
    } else {
      assert f in groups[n - 1].1;
    }
  }

  /** The sequences built from path-disjoint groups are path-disjoint. */
  lemma {:induction false} SequencesApartFromGroups(groups: Groups, minLength: int, maxGapFrames: int)
    requires NonEmptyGroups(groups) && PathsApart(groups)
    ensures SequencesApart(SequencesOf(groups, minLength, maxGapFrames))
  {
    if groups != [] {
      var n := |groups|;
      var init := groups[..n - 1];
      SequencesApartFromGroups(init, minLength, maxGapFrames);
      var s := SequenceOf(groups[n - 1].1, minLength, maxGapFrames);
      var before := SequencesOf(init, minLength, maxGapFrames);
      var r := SequencesOf(groups, minLength, maxGapFrames);
      assert r == before + (if s.Some? then [s.value] else []);
      forall a, b, p | 0 <= a < b < |r| && p in r[a].files ensures p !in r[b].files {
        assert r[a] == before[a];
        if b < |before| {
          assert r[b] == before[b];
        } else {
          SequenceFileFromGroups(init, minLength, maxGapFrames, a, p);
          LastGroupApart(groups, p, minLength, maxGapFrames);
        }
      }
    }
  }

  /** A path found in an earlier group is not a file of the last group's sequence. */
  lemma LastGroupApart(groups: Groups, p: string, minLength: int, maxGapFrames: int)
    requires NonEmptyGroups(groups) && PathsApart(groups) && groups != []
    requires InGroups(groups[..|groups| - 1], p)
    requires SequenceOf(groups[|groups| - 1].1, minLength, maxGapFrames).Some?
    ensures p !in SequenceOf(groups[|groups| - 1].1, minLength, maxGapFrames).value.files
  {
    var n := |groups|;
    var init := groups[..n - 1];
    SequenceFilesFromMembers(groups[n - 1].1, minLength, maxGapFrames);
    var f :| f in Members(init) && f.path == p;
    MemberInSomeGroup(init, f);
    var i :| 0 <= i < |init| && f in init[i].1;
    assert f in groups[i].1;
    forall h | h in groups[n - 1].1 ensures h.path != p {
    }
  }

  /** No path is a file of two sequences. */
  predicate SequencesApart(seqs: seq<SequenceInfo>)
  {
    forall a, b, p :: 0 <= a < b < |seqs| && p in seqs[a].files ==> p !in seqs[b].files
  }

  // ------------------------------------------------- the key as written

  /** The dictionary key as the detector formats it: `base_ext_padding_pattern`. */
  function SourceKey(f: FrameFile): string
  {
    f.base + "_" + f.ext + "_" + IntToString(f.padding) + "_" + f.pattern
  }

  /**
   * Under one custom pattern that lets `_` into the extension, the names
   * `a.0001.b_c` and `a_b.0002.c` format to the same key although base and
   * extension differ, so the formatted key would merge them into one group.
   */
  lemma SourceKeyCollides(pattern: string)
    ensures var f1 := FrameFile("a.0001.b_c", "a", 1, "0001", "b_c", 4, pattern);
            var f2 := FrameFile("a_b.0002.c", "a_b", 2, "0002", "c", 4, pattern);
            SourceKey(f1) == SourceKey(f2) && KeyOf(f1) != KeyOf(f2)
  {
    var f1 := FrameFile("a.0001.b_c", "a", 1, "0001", "b_c", 4, pattern);
    var f2 := FrameFile("a_b.0002.c", "a_b", 2, "0002", "c", 4, pattern);
    assert IntToString(4) == "4";
    assert SourceKey(f1) == "a_b_c_4_" + pattern;
    assert SourceKey(f2) == "a_b_c_4_" + pattern;
  }
}
