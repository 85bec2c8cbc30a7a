/**
 * The render-free state of `ui/multi_content_view.py`: the selected
 * entities, the entities of the current directory, the filtered list and
 * the search criteria, with the selection, range, rubber-band, filter and
 * grid-layout operations on them.  Widgets, painting and the geometry of the
 * rubber band are outside the model: whether an entity's widget meets the
 * band is a parameter, and so are the tags and favorite flags the view looks up.
 */
module ContentView {
  import opened Wrappers
  import opened Text
  import Paths
  import Sorting
  import opened Entities
  import opened SearchWidget

  // ------------------------------------------------------------ selection

  /** The paths of a list of entities. */
  function PathSet(s: seq<MediaEntity>): set<string>
  {
    set i | 0 <= i < |s| :: s[i].path
  }

  /** No two entries share a path. */
  predicate DistinctPaths(s: seq<MediaEntity>)
  {
    forall i, j :: 0 <= i < j < |s| ==> s[i].path != s[j].path
  }

  lemma PathSetAppend(s: seq<MediaEntity>, e: MediaEntity)
    ensures PathSet(s + [e]) == PathSet(s) + {e.path}
  {
    var t := s + [e];
    assert t[|s|] == e;
    forall p | p in PathSet(s) ensures p in PathSet(t) {
      var i :| 0 <= i < |s| && s[i].path == p;
      assert t[i] == s[i];
    }
  }

  lemma PathSetCons(e: MediaEntity, s: seq<MediaEntity>)
    ensures PathSet([e] + s) == {e.path} + PathSet(s)
  {
    var t := [e] + s;
    assert t[0] == e;
    forall p | p in PathSet(s) ensures p in PathSet(t) {
      var i :| 0 <= i < |s| && s[i].path == p;
      assert t[i + 1] == s[i];
    }
    forall p | p in PathSet(t) ensures p in {e.path} + PathSet(s) {
      var i :| 0 <= i < |t| && t[i].path == p;
      if i > 0 { assert s[i - 1] == t[i]; }
    }
  }

  /** `_add_to_selection`: appended unless an entity with the same path is selected. */
  function Added(s: seq<MediaEntity>, e: MediaEntity): (r: seq<MediaEntity>)
    ensures PathSet(r) == PathSet(s) + {e.path}
    ensures DistinctPaths(s) ==> DistinctPaths(r)
    ensures |s| <= |r| <= |s| + 1 && r[..|s|] == s
  {
    PathSetAppend(s, e);
    if e.path in PathSet(s) then s else s + [e]
  }

  /** `list.remove` of the first entry with path `p`; nothing when there is none. */
  function RemovedFirst(s: seq<MediaEntity>, p: string): (r: seq<MediaEntity>)
    ensures p !in PathSet(s) ==> r == s
    ensures p in PathSet(s) ==> |r| == |s| - 1
    ensures multiset(r) <= multiset(s)
  {
    if s == [] then []
    else if s[0].path == p then
      assert s == [s[0]] + s[1..];
      s[1..]
    else
      PathSetCons(s[0], s[1..]);
      assert s == [s[0]] + s[1..];
      [s[0]] + RemovedFirst(s[1..], p)
  }

  /** A list with a head is distinct when its tail is and lacks the head's path. */
  lemma DistinctCons(e: MediaEntity, s: seq<MediaEntity>)
    ensures DistinctPaths([e] + s) <==> e.path !in PathSet(s) && DistinctPaths(s)
  {
    var t := [e] + s;
    if DistinctPaths(t) {
      forall i, j | 0 <= i < j < |s| ensures s[i].path != s[j].path {
        assert s[i] == t[i + 1] && s[j] == t[j + 1];
      }
      forall i | 0 <= i < |s| ensures s[i].path != e.path {
        assert t[0] == e && s[i] == t[i + 1];
      }
    }
    if e.path !in PathSet(s) && DistinctPaths(s) {
      forall i, j | 0 <= i < j < |t| ensures t[i].path != t[j].path {
        assert t[j] == s[j - 1];
        if i > 0 { assert t[i] == s[i - 1]; }
        else { assert s[j - 1].path in PathSet(s); }
      }
    }
  }

  /** With distinct paths, removing `p` removes exactly the path `p`. */
  lemma {:induction false} RemovedFirstPaths(s: seq<MediaEntity>, p: string)
    requires DistinctPaths(s)
    ensures DistinctPaths(RemovedFirst(s, p))
    ensures PathSet(RemovedFirst(s, p)) == PathSet(s) - {p}
  {
    if s != [] {
      assert s == [s[0]] + s[1..];
      DistinctCons(s[0], s[1..]);
      PathSetCons(s[0], s[1..]);
      RemovedFirstPaths(s[1..], p);
      if s[0].path != p {
        var rest := RemovedFirst(s[1..], p);
        assert RemovedFirst(s, p) == [s[0]] + rest;
        PathSetCons(s[0], rest);
        DistinctCons(s[0], rest);
      }
    }
  }

  /** The first entry with path `p` is at `k`: removing it cuts `s` at `k`. */
  lemma {:induction false} RemovedFirstAt(s: seq<MediaEntity>, p: string, k: nat)
    requires k < |s| && s[k].path == p
    requires forall j :: 0 <= j < k ==> s[j].path != p
    ensures RemovedFirst(s, p) == s[..k] + s[k + 1..]
  {
    if k > 0 {
      RemovedFirstAt(s[1..], p, k - 1);
      assert s[1..][..k - 1] == s[1..k];
      assert s[1..][k..] == s[k + 1..];
      assert s[..k] == [s[0]] + s[1..k];
    }
  }

  /** `_add_to_selection` applied to each of `es` in turn. */
  function AddedAll(s: seq<MediaEntity>, es: seq<MediaEntity>): (r: seq<MediaEntity>)
    decreases |es|
  {
    if es == [] then s else Added(AddedAll(s, es[..|es| - 1]), es[|es| - 1])
  }

  lemma AddedAllSnoc(s: seq<MediaEntity>, es: seq<MediaEntity>, e: MediaEntity)
    ensures AddedAll(s, es + [e]) == Added(AddedAll(s, es), e)
  {
    assert (es + [e])[..|es|] == es;
  }

  /** Extending the slice `shown[lo..k]` by one adds `shown[k]`. */
  lemma AddedAllSlice(shown: seq<MediaEntity>, lo: nat, k: nat)
    requires lo <= k < |shown|
    ensures AddedAll([], shown[lo..k + 1]) == Added(AddedAll([], shown[lo..k]), shown[k])
  {
    assert shown[lo..k + 1] == shown[lo..k] + [shown[k]];
    AddedAllSnoc([], shown[lo..k], shown[k]);
  }

  lemma {:induction false} AddedAllPaths(s: seq<MediaEntity>, es: seq<MediaEntity>)
    ensures PathSet(AddedAll(s, es)) == PathSet(s) + PathSet(es)
    ensures DistinctPaths(s) ==> DistinctPaths(AddedAll(s, es))
    decreases |es|
  {
    if es != [] {
      var n := |es| - 1;
      AddedAllPaths(s, es[..n]);
      assert es == es[..n] + [es[n]];
      PathSetAppend(es[..n], es[n]);
    }
  }

  // ------------------------------------------------------- range selection

  /**
   * The index search of `_select_range_to_entity`: positions of the anchor
   * and target paths, each overwritten by later matches, stopping as soon as
   * both are known.  `a` and `t` are what the scan has found before `i`.
   */
  function Locate(list: seq<MediaEntity>, anchor: string, target: string, i: nat,
                  a: Option<nat>, t: Option<nat>): (r: (Option<nat>, Option<nat>))
    requires i <= |list|
    requires a.Some? ==> a.value < i && list[a.value].path == anchor
    requires t.Some? ==> t.value < i && list[t.value].path == target
    requires a.None? ==> forall j :: 0 <= j < i ==> list[j].path != anchor
    requires t.None? ==> forall j :: 0 <= j < i ==> list[j].path != target
    ensures r.0.Some? ==> r.0.value < |list| && list[r.0.value].path == anchor
    ensures r.1.Some? ==> r.1.value < |list| && list[r.1.value].path == target
    ensures r.0.None? ==> anchor !in PathSet(list)
    ensures r.1.None? ==> target !in PathSet(list)
    decreases |list| - i
  {
    if (a.Some? && t.Some?) || i == |list| then (a, t)
    else
      var a := if list[i].path == anchor then Some(i) else a;
      var t := if list[i].path == target then Some(i) else t;
      Locate(list, anchor, target, i + 1, a, t)
  }

  /** Both ends are found exactly when both paths are shown. */
  lemma LocateFindsBoth(list: seq<MediaEntity>, anchor: string, target: string)
    ensures var r := Locate(list, anchor, target, 0, None, None);
            r.0.Some? && r.1.Some? <==> anchor in PathSet(list) && target in PathSet(list)
  {
  }

  function Min(a: int, b: int): int { if a <= b then a else b }
  function Max(a: int, b: int): int { if a <= b then b else a }

  /** `lo..hi` is a slice of `shown` whose two ends are the paths `x` and `y`. */
  predicate Spans(shown: seq<MediaEntity>, lo: int, hi: int, x: string, y: string)
  {
    0 <= lo <= hi < |shown| && {shown[lo].path, shown[hi].path} == {x, y}
  }

  /**
   * `_select_range_to_entity` on the selection `sel` over the shown list:
   * the target alone when nothing is selected or an end is not shown,
   * otherwise every shown entity from the anchor (the first selected) to the
   * target, inclusive.
   */
  function RangeSelection(sel: seq<MediaEntity>, shown: seq<MediaEntity>, target: MediaEntity): (r: seq<MediaEntity>)
    ensures DistinctPaths(r) && target.path in PathSet(r)
    ensures sel == [] ==> r == [target]
    ensures sel != [] && !(sel[0].path in PathSet(shown) && target.path in PathSet(shown)) ==> r == [target]
  {
    if sel == [] then
      Added([], target)
    else
      var ends := Locate(shown, sel[0].path, target.path, 0, None, None);
      if ends.0.Some? && ends.1.Some? then
        var lo, hi := Min(ends.0.value, ends.1.value), Max(ends.0.value, ends.1.value);
        AddedAllPaths([], shown[lo..hi + 1]);
        assert target.path in PathSet(shown[lo..hi + 1]) by {
          var k := ends.1.value;
          assert shown[lo..hi + 1][k - lo] == shown[k];
        }
        AddedAll([], shown[lo..hi + 1])
      else
        LocateFindsBoth(shown, sel[0].path, target.path);
        Added([], target)
  }

  /**
   * When the anchor and the target are both shown, the new selection is
   * exactly the shown entities of a slice whose ends are the two of them.
   */
  lemma RangeSelectionSpan(sel: seq<MediaEntity>, shown: seq<MediaEntity>, target: MediaEntity)
    requires sel != [] && sel[0].path in PathSet(shown) && target.path in PathSet(shown)
    ensures exists lo, hi ::
      (Spans(shown, lo, hi, sel[0].path, target.path) &&
       PathSet(RangeSelection(sel, shown, target)) == PathSet(shown[lo..hi + 1]))
  {
    LocateFindsBoth(shown, sel[0].path, target.path);
    var ends := Locate(shown, sel[0].path, target.path, 0, None, None);
    var lo, hi := Min(ends.0.value, ends.1.value), Max(ends.0.value, ends.1.value);
    AddedAllPaths([], shown[lo..hi + 1]);
    assert Spans(shown, lo, hi, sel[0].path, target.path);
  }

  /** The index scan of `_select_range_to_entity`, stopping once both ends are found. */
  method FindRangeEnds(shown: seq<MediaEntity>, anchor: string, target: string)
    returns (a: Option<nat>, t: Option<nat>)
    ensures (a, t) == Locate(shown, anchor, target, 0, None, None)
    ensures a.Some? ==> a.value < |shown| && shown[a.value].path == anchor
    ensures t.Some? ==> t.value < |shown| && shown[t.value].path == target
    ensures a.Some? && t.Some? <==> anchor in PathSet(shown) && target in PathSet(shown)
  {
    LocateFindsBoth(shown, anchor, target);
    a, t := None, None;
    var i := 0;
    while i < |shown| && !(a.Some? && t.Some?)
      invariant 0 <= i <= |shown|
      invariant a.Some? ==> a.value < i && shown[a.value].path == anchor
      invariant t.Some? ==> t.value < i && shown[t.value].path == target
      invariant a.None? ==> forall j :: 0 <= j < i ==> shown[j].path != anchor
      invariant t.None? ==> forall j :: 0 <= j < i ==> shown[j].path != target
      invariant Locate(shown, anchor, target, i, a, t) == Locate(shown, anchor, target, 0, None, None)
    {
      if shown[i].path == anchor {
        a := Some(i);
      }
      if shown[i].path == target {
        t := Some(i);
      }
      i := i + 1;
    }
  }

  // ----------------------------------------------------------- rubber band

  /** Shift appends, Ctrl removes, no modifier replaces. */
  datatype BandMode = Append | Remove | Replace

  function ModeOf(shift: bool, ctrl: bool): BandMode
  {
    if shift then Append else if ctrl then Remove else Replace
  }

  /** One entity of the band loop; `hit` says whether its widget meets the band. */
  function BandStep(sel: seq<MediaEntity>, e: MediaEntity, mode: BandMode, hit: MediaEntity -> bool): seq<MediaEntity>
  {
    if !hit(e) then sel
    else match mode
      case Append => if e.path in PathSet(sel) then sel else Added(sel, e)
      case Remove => if e.path in PathSet(sel) then RemovedFirst(sel, e.path) else sel
      case Replace => Added(sel, e)
  }

  /** The band loop over `es`, from `start`. */
  function Band(start: seq<MediaEntity>, es: seq<MediaEntity>, mode: BandMode, hit: MediaEntity -> bool): seq<MediaEntity>
    decreases |es|
  {
    if es == [] then start else BandStep(Band(start, es[..|es| - 1], mode, hit), es[|es| - 1], mode, hit)
  }

  /** The paths of the entities the band meets. */
  function HitPaths(es: seq<MediaEntity>, hit: MediaEntity -> bool): set<string>
  {
    set i | 0 <= i < |es| && hit(es[i]) :: es[i].path
  }

  lemma HitPathsAppend(es: seq<MediaEntity>, e: MediaEntity, hit: MediaEntity -> bool)
    ensures HitPaths(es + [e], hit) == HitPaths(es, hit) + (if hit(e) then {e.path} else {})
  {
    var t := es + [e];
    assert t[|es|] == e;
    forall p | p in HitPaths(es, hit) ensures p in HitPaths(t, hit) {
      var i :| 0 <= i < |es| && hit(es[i]) && es[i].path == p;
      assert t[i] == es[i];
    }
  }

  /** `_update_rubber_band_selection_from_overlay`: replace starts from an empty selection. */
  function RubberBand(sel: seq<MediaEntity>, shown: seq<MediaEntity>, mode: BandMode, hit: MediaEntity -> bool): seq<MediaEntity>
  {
    Band(if mode == Replace then [] else sel, shown, mode, hit)
  }

  /**
   * What each mode does to the selected paths: append adds the paths the
   * band meets, remove takes them away, replace keeps only them.
   */
  lemma {:induction false} BandPaths(start: seq<MediaEntity>, es: seq<MediaEntity>, mode: BandMode, hit: MediaEntity -> bool)
    requires DistinctPaths(start)
    ensures DistinctPaths(Band(start, es, mode, hit))
    ensures mode != Remove ==> PathSet(Band(start, es, mode, hit)) == PathSet(start) + HitPaths(es, hit)
    ensures mode == Remove ==> PathSet(Band(start, es, mode, hit)) == PathSet(start) - HitPaths(es, hit)
    decreases |es|
  {
    if es != [] {
      var n := |es| - 1;
      BandPaths(start, es[..n], mode, hit);
      assert es == es[..n] + [es[n]];
      HitPathsAppend(es[..n], es[n], hit);
      var before := Band(start, es[..n], mode, hit);
      if hit(es[n]) && mode == Remove && es[n].path in PathSet(before) {
        RemovedFirstPaths(before, es[n].path);
      }
    }
  }

  lemma RubberBandPaths(sel: seq<MediaEntity>, shown: seq<MediaEntity>, mode: BandMode, hit: MediaEntity -> bool)
    requires DistinctPaths(sel)
    ensures DistinctPaths(RubberBand(sel, shown, mode, hit))
    ensures mode == Append ==> PathSet(RubberBand(sel, shown, mode, hit)) == PathSet(sel) + HitPaths(shown, hit)
    ensures mode == Remove ==> PathSet(RubberBand(sel, shown, mode, hit)) == PathSet(sel) - HitPaths(shown, hit)
    ensures mode == Replace ==> PathSet(RubberBand(sel, shown, mode, hit)) == HitPaths(shown, hit)
  {
    var start := if mode == Replace then [] else sel;
    assert PathSet([]) == {};
    BandPaths(start, shown, mode, hit);
  }

  // ------------------------------------------------------------- filtering

  /** What the view looks up per entity path: its tags and its favorite flags. */
  datatype Lookups = Lookups(
    tags: string -> seq<string>, userFavorite: string -> bool, projectFavorite: string -> bool)

  const VideoExtensions: seq<string> := ["mp4", "mov", "avi", "mkv", "webm", "m4v", "mpg", "mpeg", "wmv", "flv", "f4v"]
  const ImageExtensions: seq<string> := ["jpg", "jpeg", "png", "tiff", "tif", "exr", "dpx", "bmp", "gif", "webp"]

  predicate IsDot(c: char) { c == '.' }

  /** `entity.path.suffix.lstrip('.').lower()`. */
  function Extension(e: MediaEntity): string
  {
    Lower(LStrip(Paths.Suffix(Paths.Name(e.path)), IsDot))
  }

  /** The type the file-type filter sees: several files make a sequence, then the extension decides, then the frame count. */
  function ActualType(e: MediaEntity): (r: string)
    ensures r == "sequence" || r == "video" || r == "image"
    ensures r == "sequence" <==> |e.files| > 1
  {
    if |e.files| > 1 then "sequence"
    else if Extension(e) in VideoExtensions then "video"
    else if Extension(e) in ImageExtensions then "image"
    else if e.frameCount.Some? && e.frameCount.value > 1 then "video"
    else "image"
  }

  /** Some tag contains `needle` once lower-cased. */
  predicate AnyTagContains(tags: seq<string>, needle: string)
  {
    exists i :: 0 <= i < |tags| && HasSubstring(Lower(tags[i]), needle)
  }

  /** The text part of `_entity_matches_criteria`, on the lower-cased search text. */
  predicate TextMatches(e: MediaEntity, needle: string, searchType: string, look: Lookups)
  {
    if searchType == "name" then HasSubstring(Lower(e.name), needle)
    else if searchType == "path" then HasSubstring(Lower(e.path), needle)
    else
      HasSubstring(Lower(e.name), needle) || HasSubstring(Lower(e.path), needle) ||
      AnyTagContains(look.tags(e.path), needle)
  }

  /** `_entity_matches_criteria`: each key present is a test the entity must pass. */
  predicate Matches(e: MediaEntity, c: Criteria, look: Lookups)
  {
    if c.text.Some? && !TextMatches(e, Lower(c.text.value), c.searchType.GetOr("name"), look) then false
    else if c.userFavoritesOnly.GetOr(false) && !look.userFavorite(e.path) then false
    else if c.projectFavoritesOnly.GetOr(false) && !look.projectFavorite(e.path) then false
    else if c.favoritesOnly.GetOr(false) && !look.userFavorite(e.path) then false
    else if c.fileTypes.Some? && ActualType(e) !in c.fileTypes.value then false
    else true
  }

  /** Empty criteria let every entity through. */
  lemma EmptyCriteriaMatchAll(e: MediaEntity, c: Criteria, look: Lookups)
    requires c.IsEmpty()
    ensures Matches(e, c, look)
  {
  }

  /** Listing all three file types filters the same as leaving the key out. */
  lemma AllTypesLikeNoTypes(e: MediaEntity, c: Criteria, look: Lookups)
    ensures Matches(e, c.(fileTypes := Some(["video", "sequence", "image"])), look) == Matches(e, c.(fileTypes := None), look)
  {
  }

  /** The legacy `favorites_only` key filters like `user_favorites_only`. */
  lemma LegacyFavoritesLikeUserFavorites(e: MediaEntity, c: Criteria, look: Lookups)
    ensures Matches(e, c.(favoritesOnly := Some(true), userFavoritesOnly := None), look) ==
            Matches(e, c.(favoritesOnly := None, userFavoritesOnly := Some(true)), look)
  {
  }

  /** The type toggle of the search bar that lets an entity of type `t` through. */
  predicate TypeToggled(s: WidgetState, t: string)
  {
    (!s.video && !s.sequence && !s.image) ||
    (t == "video" && s.video) || (t == "sequence" && s.sequence) || (t == "image" && s.image)
  }

  /**
   * The search bar's settings, sent through the criteria dictionary, let an
   * entity through exactly when it passes the text test, is a favorite where
   * a favorites toggle is on, and its type is toggled on (or no type is).
   */
  lemma WidgetFilter(e: MediaEntity, s: WidgetState, look: Lookups)
    ensures Matches(e, CriteriaOf(s), look) <==>
      (IsBlank(s.text) || TextMatches(e, Lower(Strip(s.text)), TypeKey(s.searchType), look)) &&
      (s.userFavorites ==> look.userFavorite(e.path)) &&
      (s.projectFavorites ==> look.projectFavorite(e.path)) &&
      TypeToggled(s, ActualType(e))
  {
  }

  /** `apply_search_filter`'s loop as a function: the matching entities, in order. */
  function Filter(es: seq<MediaEntity>, c: Criteria, look: Lookups): (r: seq<MediaEntity>)
    ensures |r| <= |es|
    ensures forall x :: x in r ==> x in es && Matches(x, c, look)
    ensures forall x :: x in es && Matches(x, c, look) ==> x in r
    decreases |es|
  {
    if es == [] then []
    else
      var n := |es| - 1;
      assert es == es[..n] + [es[n]];
      var r := Filter(es[..n], c, look);
      if Matches(es[n], c, look) then r + [es[n]] else r
  }

  /** Filtering keeps the order: filtering a concatenation concatenates the filtered parts. */
  lemma {:induction false} FilterConcat(a: seq<MediaEntity>, b: seq<MediaEntity>, c: Criteria, look: Lookups)
    ensures Filter(a + b, c, look) == Filter(a, c, look) + Filter(b, c, look)
    decreases |b|
  {
    if b != [] {
      var n := |b| - 1;
      FilterConcat(a, b[..n], c, look);
      assert (a + b)[..|a + b| - 1] == a + b[..n];
      assert (a + b)[|a + b| - 1] == b[n];
    } else {
      assert a + b == a;
    }
  }

  // ---------------------------------------------------------------- grid

  /** Entity width 150 plus a margin of 10. */
  const CellWidth := 160
  /** Entity height 180 plus a margin of 10. */
  const CellHeight := 190
  const MaxColumns := 10

  /** `_calculate_grid_columns`: as many cells as fit the width, at least 1 and at most 10. */
  function GridColumns(width: int): (r: int)
    ensures 1 <= r <= MaxColumns
    ensures r == 1 || r * CellWidth <= width
    ensures r == MaxColumns || width < (r + 1) * CellWidth
  {
    var fit := width / CellWidth;
    var cols := if fit < 1 then 1 else fit;
    if cols > MaxColumns then MaxColumns else cols
  }

  /** The key of an entity's grid position: `path::name`. */
  function CellKey(e: MediaEntity): string
  {
    e.path + "::" + e.name
  }

  lemma {:induction false} MulAtLeast(k: int, d: int)
    requires k >= 1 && d > 0
    ensures k * d >= d
    decreases k
  {
    if k > 1 {
      MulAtLeast(k - 1, d);
      assert k * d == (k - 1) * d + d;
    }
  }

  /** A row and column with `i == row * cols + col` are `i / cols` and `i % cols`. */
  lemma DivModUnique(i: int, d: int, q: int, m: int)
    requires d > 0 && 0 <= m < d && i == q * d + m
    ensures i / d == q && i % d == m
  {
    var q', m' := i / d, i % d;
    assert i == q' * d + m';
    assert (q - q') * d == q * d - q' * d;
    if q > q' {
      MulAtLeast(q - q', d);
      assert false;
    } else if q < q' {
      MulAtLeast(q' - q, d);
      assert false;
    }
  }

  // ---------------------------------------------------------------- text

  const MaxTagText := 40

  /** `_display_tags`: no label without tags; otherwise the sorted names, cut to 40 characters. */
  function TagText(names: seq<string>): (r: Option<string>)
    ensures r.None? <==> names == []
    ensures r.Some? ==> |r.value| <= MaxTagText
    ensures r.Some? && |Join(Sorting.SortStrings(names), ", ")| <= MaxTagText ==>
      r.value == Join(Sorting.SortStrings(names), ", ")
    ensures r.Some? && |Join(Sorting.SortStrings(names), ", ")| > MaxTagText ==>
      |r.value| == MaxTagText && r.value[..MaxTagText - 3] == Join(Sorting.SortStrings(names), ", ")[..MaxTagText - 3]
  {
    if names == [] then None
    else
      var full := Join(Sorting.SortStrings(names), ", ");
      if |full| <= MaxTagText then Some(full) else Some(full[..MaxTagText - 3] + "...")
  }

  /** The text depends only on which names there are, not on their order. */
  lemma TagTextOrderFree(a: seq<string>, b: seq<string>)
    requires multiset(a) == multiset(b)
    ensures TagText(a) == TagText(b)
  {
    Sorting.SortedStringsUnique(Sorting.SortStrings(a), Sorting.SortStrings(b));
  }

  /** Two digits at least: `f"{n:02d}"`. */
  function Pad2(n: nat): (r: string)
    ensures IsDigits(r) && |r| >= 2 && DigitsValue(r) == n
  {
    DigitsValueOfNatToString(n);
    if n < 10 then
      var r := "0" + NatToString(n);
      assert r[..|r| - 1] == "0";
      r
    else NatToString(n)
  }

  /** The clock text of whole seconds: `HH:MM:SS`, or `MM:SS` under an hour. */
  function Clock(seconds: int): string
  {
    ClockText(seconds / 3600, (seconds % 3600) / 60, seconds % 60)
  }

  function ClockText(hours: int, minutes: nat, secs: nat): string
  {
    if hours > 0 then Pad2(hours) + [':'] + (Pad2(minutes) + [':'] + Pad2(secs))
    else Pad2(minutes) + [':'] + Pad2(secs)
  }

  /** Reads a clock text back into seconds. */
  function ClockValue(text: string): Option<int>
  {
    PartsValue(Split(text, ':'))
  }

  /** The seconds of the colon-separated fields of a clock text. */
  function PartsValue(parts: seq<string>): Option<int>
  {
    if |parts| == 3 && IsDigits(parts[0]) && IsDigits(parts[1]) && IsDigits(parts[2]) then
      Some(DigitsValue(parts[0]) * 3600 + DigitsValue(parts[1]) * 60 + DigitsValue(parts[2]))
    else if |parts| == 2 && IsDigits(parts[0]) && IsDigits(parts[1]) then
      Some(DigitsValue(parts[0]) * 60 + DigitsValue(parts[1]))
    else None
  }

  lemma SplitDigits(d: string)
    requires IsDigits(d)
    ensures Split(d, ':') == [d]
  {
    forall i | 0 <= i < |d| ensures d[i] != ':' {
      assert IsDigit(d[i]);
    }
  }

  /** Hours, minutes and seconds add back up to the duration. */
  lemma ClockArithmetic(seconds: nat)
    ensures seconds == (seconds / 3600) * 3600 + ((seconds % 3600) / 60) * 60 + seconds % 60
  {
    var r := seconds % 3600;
    assert seconds == (seconds / 3600) * 3600 + r;
    assert r == (r / 60) * 60 + r % 60;
    DivModUnique(seconds, 60, (seconds / 3600) * 60 + r / 60, r % 60);
  }

  /** Splitting at a colon after a field of digits. */
  lemma SplitAfterDigits(d: string, rest: string)
    requires IsDigits(d)
    ensures Split(d + [':'] + rest, ':') == [d] + Split(rest, ':')
  {
    SplitDigits(d);
    SplitConcat(d, rest, ':');
  }

  /** `H:MM:SS` splits into its three fields. */
  lemma SplitLong(h: string, m: string, s: string)
    requires IsDigits(h) && IsDigits(m) && IsDigits(s)
    ensures Split(h + [':'] + (m + [':'] + s), ':') == [h, m, s]
  {
    SplitShort(m, s);
    SplitAfterDigits(h, m + [':'] + s);
  }

  /** `MM:SS` splits into its two fields. */
  lemma SplitShort(m: string, s: string)
    requires IsDigits(m) && IsDigits(s)
    ensures Split(m + [':'] + s, ':') == [m, s]
  {
    SplitDigits(s);
    SplitAfterDigits(m, s);
  }

  /** Reading `H:MM:SS` back. */
  lemma LongClockValue(h: string, m: string, s: string)
    requires IsDigits(h) && IsDigits(m) && IsDigits(s)
    ensures ClockValue(h + [':'] + (m + [':'] + s)) == Some(DigitsValue(h) * 3600 + DigitsValue(m) * 60 + DigitsValue(s))
  {
    var t := h + [':'] + (m + [':'] + s);
    assert ClockValue(t) == PartsValue(Split(t, ':'));
    SplitLong(h, m, s);
    LongPartsValue(h, m, s);
  }

  lemma LongPartsValue(h: string, m: string, s: string)
    requires IsDigits(h) && IsDigits(m) && IsDigits(s)
    ensures PartsValue([h, m, s]) == Some(DigitsValue(h) * 3600 + DigitsValue(m) * 60 + DigitsValue(s))
  {
  }

  /** Reading `MM:SS` back. */
  lemma ShortClockValue(m: string, s: string)
    requires IsDigits(m) && IsDigits(s)
    ensures ClockValue(m + [':'] + s) == Some(DigitsValue(m) * 60 + DigitsValue(s))
  {
    var t := m + [':'] + s;
    assert ClockValue(t) == PartsValue(Split(t, ':'));
    SplitShort(m, s);
    ShortPartsValue(m, s);
  }

  lemma ShortPartsValue(m: string, s: string)
    requires IsDigits(m) && IsDigits(s)
    ensures PartsValue([m, s]) == Some(DigitsValue(m) * 60 + DigitsValue(s))
  {
  }

  /** The clock text reads back as its parts' number of seconds. */
  lemma ClockTextValue(hours: nat, minutes: nat, secs: nat)
    ensures ClockValue(ClockText(hours, minutes, secs)) ==
      Some(if hours > 0 then hours * 3600 + minutes * 60 + secs else minutes * 60 + secs)
  {
    if hours > 0 {
      LongClockValue(Pad2(hours), Pad2(minutes), Pad2(secs));
    } else {
      ShortClockValue(Pad2(minutes), Pad2(secs));
    }
  }

  /** A non-negative duration's clock text reads back as the same number of seconds. */
  lemma ClockRoundTrip(seconds: int)
    ensures seconds >= 0 ==> ClockValue(Clock(seconds)) == Some(seconds)
  {
    if seconds >= 0 {
      ClockArithmetic(seconds);
      ClockTextValue(seconds / 3600, (seconds % 3600) / 60, seconds % 60);
    }
  }

  /**
   * `_get_entity_duration`: nothing for a single still image, nothing when
   * the metadata has no usable duration, otherwise the clock text of the
   * duration's whole seconds.
   */
  function EntityDuration(e: MediaEntity, duration: Option<int>): (r: Option<string>)
    ensures |e.files| == 1 && e.frameCount == Some(1) ==> r.None?
    ensures r.Some? <==> duration.Some? && !(|e.files| == 1 && e.frameCount == Some(1))
    ensures r.Some? && duration.value >= 0 ==> ClockValue(r.value) == duration
  {
    if |e.files| == 1 && e.frameCount == Some(1) then None
    else if duration.None? then None
    else
      ClockRoundTrip(duration.value);
      Some(Clock(duration.value))
  }

  // ---------------------------------------------------------------- view

  /** The view's lists and criteria. */
  class View {
    var selected: seq<MediaEntity>
    var current: seq<MediaEntity>
    var filtered: seq<MediaEntity>
    var criteria: Option<Criteria>

    /** The selection never holds two entities with one path. */
    predicate Valid()
      reads this
    {
      DistinctPaths(selected)
    }

    /** The entities on screen: the filtered ones while non-empty criteria are set. */
    function Shown(): seq<MediaEntity>
      reads this
    {
      if criteria.Some? && !criteria.value.IsEmpty() then filtered else current
    }

    constructor(entities: seq<MediaEntity>)
      ensures Valid()
      ensures selected == [] && current == entities && filtered == [] && criteria == None
    {
      selected, current, filtered, criteria := [], entities, [], None;
    }

    /** `get_selected_entities`: a copy of the selection. */
    method GetSelectedEntities() returns (r: seq<MediaEntity>)
      ensures r == selected
    {
      r := selected;
    }

    /** `_is_entity_selected`: scans the selection for the entity's path. */
    method IsEntitySelected(e: MediaEntity) returns (b: bool)
      ensures b <==> e.path in PathSet(selected)
    {
      var i := 0;
      while i < |selected|
        invariant 0 <= i <= |selected|
        invariant forall j :: 0 <= j < i ==> selected[j].path != e.path
      {
        if selected[i].path == e.path {
          return true;
        }
        i := i + 1;
      }
      return false;
    }

    /** `_add_to_selection`. */
    method AddToSelection(e: MediaEntity)
      modifies this`selected
      ensures selected == Added(old(selected), e)
    {
      var present := IsEntitySelected(e);
      if !present {
        selected := selected + [e];
      }
    }

    /** `clear_selection` and `_clear_selection`. */
    method ClearSelection()
      modifies this`selected
      ensures selected == []
    {
      selected := [];
    }

    /** `select_entity`: clears first unless adding, then adds unless the path is selected. */
    method SelectEntity(e: MediaEntity, addToSelection: bool)
      requires Valid()
      modifies this`selected
      ensures Valid()
      ensures selected == Added(if addToSelection then old(selected) else [], e)
    {
      if !addToSelection {
        ClearSelection();
      }
      AddToSelection(e);
    }

    /** `deselect_entity` and `_remove_from_selection`: the first entry with the path goes. */
    method DeselectEntity(e: MediaEntity)
      requires Valid()
      modifies this`selected
      ensures Valid()
      ensures selected == RemovedFirst(old(selected), e.path)
      ensures PathSet(selected) == PathSet(old(selected)) - {e.path}
    {
      RemovedFirstPaths(selected, e.path);
      var i := 0;
      while i < |selected|
        invariant 0 <= i <= |selected|
        invariant forall j :: 0 <= j < i ==> selected[j].path != e.path
      {
        if selected[i].path == e.path {
          RemovedFirstAt(selected, e.path, i);
          selected := selected[..i] + selected[i + 1..];
          return;
        }
        i := i + 1;
      }
    }

    /** `_select_range_to_entity`. */
    method SelectRangeTo(target: MediaEntity)
      requires Valid()
      modifies this`selected
      ensures Valid()
      ensures selected == RangeSelection(old(selected), Shown(), target)
    {
      if selected == [] {
        AddToSelection(target);
        return;
      }
      var shown := Shown();
      ghost var r := RangeSelection(selected, shown, target);
      var a, t := FindRangeEnds(shown, selected[0].path, target.path);
      if a.Some? && t.Some? {
        var lo, hi := Min(a.value, t.value), Max(a.value, t.value);
        assert r == AddedAll([], shown[lo..hi + 1]);
        SelectSlice(shown, lo, hi);
      } else {
        assert r == [target];
        ClearSelection();
        AddToSelection(target);
      }
    }

    /** The loop of `_select_range_to_entity` that adds `shown[lo..hi]` in order. */
    method SelectSlice(shown: seq<MediaEntity>, lo: nat, hi: nat)
      requires lo <= hi < |shown|
      modifies this`selected
      ensures selected == AddedAll([], shown[lo..hi + 1])
    {
      ClearSelection();
      var k := lo;
      while k <= hi
        invariant lo <= k <= hi + 1
        invariant selected == AddedAll([], shown[lo..k])
      {
        AddedAllSlice(shown, lo, k);
        AddToSelection(shown[k]);
        k := k + 1;
      }
    }

    /** The rubber-band loop over the shown entities. */
    method RubberBandSelect(shift: bool, ctrl: bool, hit: MediaEntity -> bool)
      requires Valid()
      modifies this`selected
      ensures Valid()
      ensures selected == RubberBand(old(selected), Shown(), ModeOf(shift, ctrl), hit)
    {
      RubberBandPaths(selected, Shown(), ModeOf(shift, ctrl), hit);
      var mode := ModeOf(shift, ctrl);
      var shown := Shown();
      if mode == Replace {
        ClearSelection();
      }
      ghost var start := selected;
      var i := 0;
      while i < |shown|
        invariant 0 <= i <= |shown|
        invariant selected == Band(start, shown[..i], mode, hit)
        invariant Valid()
      {
        var e := shown[i];
        assert shown[..i + 1][..i] == shown[..i];
        if hit(e) {
          var present := IsEntitySelected(e);
          match mode
          case Append =>
            if !present {
              AddToSelection(e);
            }
          case Remove =>
            if present {
              DeselectEntity(e);
            }
          case Replace =>
            AddToSelection(e);
        }
        i := i + 1;
      }
      assert shown[..|shown|] == shown;
    }

    /** `apply_search_filter`: stores the criteria and keeps the matching entities in order. */
    method ApplySearchFilter(c: Criteria, look: Lookups)
      modifies this`criteria, this`filtered
      ensures criteria == Some(c)
      ensures filtered == Filter(current, c, look)
    {
      criteria := Some(c);
      filtered := [];
      var i := 0;
      while i < |current|
        invariant 0 <= i <= |current|
        invariant criteria == Some(c)
        invariant filtered == Filter(current[..i], c, look)
      {
        assert current[..i + 1][..i] == current[..i];
        if Matches(current[i], c, look) {
          filtered := filtered + [current[i]];
        }
        i := i + 1;
      }
      assert current[..|current|] == current;
    }

    /** `clear_search_filter`: the whole directory is shown again. */
    method ClearSearchFilter()
      modifies this`criteria, this`filtered
      ensures criteria == None && filtered == []
      ensures Shown() == current
    {
      criteria := None;
      filtered := [];
    }

    /**
     * The position loop of `_create_grid_widgets`: the i-th entity sits at
     * row i / cols and column i % cols, a later entity with the same key
     * taking the key over; also the minimum size of the content widget.
     */
    method GridPositions(entities: seq<MediaEntity>, width: int)
      returns (positions: map<string, (int, int)>, size: (int, int))
      ensures var cols := GridColumns(width);
        && positions.Keys == (set i | 0 <= i < |entities| :: CellKey(entities[i]))
        && (forall i :: 0 <= i < |entities| && (forall j :: i < j < |entities| ==> CellKey(entities[j]) != CellKey(entities[i])) ==>
              positions[CellKey(entities[i])] == (i / cols, i % cols))
        && size == (cols * CellWidth, (|entities| / cols + 1) * CellHeight)
    {
      var cols := GridColumns(width);
      positions := map[];
      var row, col := 0, 0;
      var i := 0;
      while i < |entities|
        invariant 0 <= i <= |entities|
        invariant row * cols + col == i && 0 <= col < cols
        invariant positions.Keys == (set k | 0 <= k < i :: CellKey(entities[k]))
        invariant forall k :: 0 <= k < i && (forall j :: k < j < i ==> CellKey(entities[j]) != CellKey(entities[k])) ==>
          CellKey(entities[k]) in positions && positions[CellKey(entities[k])] == (k / cols, k % cols)
      {
        DivModUnique(i, cols, row, col);
        positions := positions[CellKey(entities[i]) := (row, col)];
        col := col + 1;
        if col >= cols {
          col := 0;
          row := row + 1;
        }
        i := i + 1;
      }
      DivModUnique(|entities|, cols, row, col);
      size := (cols * CellWidth, (row + 1) * CellHeight);
    }
  }
}
