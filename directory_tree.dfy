/**
 * The directory tree of `ui/directory_tree.py`: the roots it shows are the
 * configured paths of every configuration layer, each directory lists its
 * visible sub-directories in case-insensitive order, a selection change
 * emits the selected paths, and navigating to a directory expands the tree
 * from the deepest root that contains it, one component at a time.
 *
 * The file system is a map from a directory (as `str(Path(dir))` writes it)
 * to its entries; a directory missing from the map does not exist.
 */
module DirectoryTree {
  import opened Wrappers
  import opened Text
  import opened Json
  import opened Paths
  import Sorting
  import Defaults

  // ------------------------------------------------------- configured paths

  /** `DEFAULT_CONFIG['directory_tree']['configured_paths']`. */
  const DefaultPaths: seq<string> := ["/apps/comfyui/input", "/apps/comfyui/output"]

  lemma DefaultPathsAreShipped()
    ensures Defaults.DirectoryTree["configured_paths"] == StrList(DefaultPaths)
  {
    assert DefaultPaths[1..][1..] == [];
  }

  /**
   * `layer.get('directory_tree', {}).get('configured_paths', [])` as the
   * list `extend` receives: a list of strings as it is, a string as its
   * characters, and nothing when a lookup raises or the value is of another
   * kind.
   */
  function LayerPaths(config: Json): (r: seq<string>)
    ensures IsStrList(DictGet(DictGet(config, "directory_tree", JObj(map[])), "configured_paths", JArr([]))) &&
            config.JObj? && DictGet(config, "directory_tree", JObj(map[])).JObj? ==>
              StrList(r) == DictGet(DictGet(config, "directory_tree", JObj(map[])), "configured_paths", JArr([]))
  {
    if !config.JObj? then []
    else
      var tree := DictGet(config, "directory_tree", JObj(map[]));
      if !tree.JObj? then []
      else
        var v := DictGet(tree, "configured_paths", JArr([]));
        if IsStrList(v) then StrListBack(v)
        else if v.JStr? then seq(|v.s|, i requires 0 <= i < |v.s| => [v.s[i]])
        else []
  }

  /** The strings of a list of strings. */
  function StrListBack(v: Json): (r: seq<string>)
    requires IsStrList(v)
    ensures StrList(r) == v
    decreases |v.a|
  {
    if v.a == [] then []
    else
      var rest := StrListBack(JArr(v.a[1..]));
      assert StrList([v.a[0].s] + rest).a == [v.a[0]] + v.a[1..];
      [v.a[0].s] + rest
  }

  /** The paths in order of first occurrence, empty strings skipped. */
  function Dedup(xs: seq<string>): seq<string>
    decreases |xs|
  {
    if xs == [] then []
    else
      var prev := Dedup(xs[..|xs| - 1]);
      var x := xs[|xs| - 1];
      if x != "" && x !in prev then prev + [x] else prev
  }

  /** The position of the first occurrence of `x`. */
  function FirstIndex(xs: seq<string>, x: string): (r: nat)
    requires x in xs
    ensures r < |xs| && xs[r] == x && x !in xs[..r]
  {
    if xs[0] == x then 0
    else
      var k := FirstIndex(xs[1..], x);
      assert xs[..k + 1] == [xs[0]] + xs[1..][..k];
      k + 1
  }

  lemma FirstIndexUnique(xs: seq<string>, x: string, k: nat)
    requires k < |xs| && xs[k] == x && x !in xs[..k]
    ensures FirstIndex(xs, x) == k
  {
    var m := FirstIndex(xs, x);
    assert forall i :: 0 <= i < k ==> xs[..k][i] == xs[i];
    assert forall i :: 0 <= i < m ==> xs[..m][i] == xs[i];
  }

  lemma FirstIndexExtend(pre: seq<string>, x: string, y: string)
    requires y in pre
    ensures y in pre + [x] && FirstIndex(pre + [x], y) == FirstIndex(pre, y) < |pre|
  {
    var k := FirstIndex(pre, y);
    assert (pre + [x])[..k] == pre[..k];
    FirstIndexUnique(pre + [x], y, k);
  }

  lemma FirstIndexLast(pre: seq<string>, x: string)
    requires x !in pre
    ensures FirstIndex(pre + [x], x) == |pre|
  {
    assert (pre + [x])[..|pre|] == pre;
    FirstIndexUnique(pre + [x], x, |pre|);
  }

  /** A path collected once stays collected, and nothing empty or absent is collected. */
  lemma {:induction false} DedupMembers(xs: seq<string>)
    ensures forall x :: x in Dedup(xs) <==> x in xs && x != ""
    decreases |xs|
  {
    if xs != [] {
      var pre := xs[..|xs| - 1];
      assert xs == pre + [xs[|xs| - 1]];
      DedupMembers(pre);
    }
  }

  predicate Distinct(s: seq<string>)
  {
    forall i, j :: 0 <= i < j < |s| ==> s[i] != s[j]
  }

  /** No path is collected twice. */
  lemma {:induction false} DedupDistinct(xs: seq<string>)
    ensures Distinct(Dedup(xs))
    decreases |xs|
  {
    if xs != [] {
      var prev := Dedup(xs[..|xs| - 1]);
      var x := xs[|xs| - 1];
      DedupDistinct(xs[..|xs| - 1]);
      if x != "" && x !in prev {
        var r := prev + [x];
        assert Dedup(xs) == r;
        assert forall i :: 0 <= i < |prev| ==> r[i] == prev[i];
      } else {
        assert Dedup(xs) == prev;
      }
    }
  }

  /** Every element of `r` occurs in `xs`, and earlier in `r` means first occurring earlier in `xs`. */
  predicate InFirstOccurrenceOrder(r: seq<string>, xs: seq<string>)
  {
    (forall y :: y in r ==> y in xs) &&
    forall i, j :: 0 <= i < j < |r| && r[i] in xs && r[j] in xs ==> FirstIndex(xs, r[i]) < FirstIndex(xs, r[j])
  }

  /** The collected paths keep the order of their first occurrences: the earlier layer wins. */
  lemma {:induction false} DedupFirstWins(xs: seq<string>)
    ensures InFirstOccurrenceOrder(Dedup(xs), xs)
    decreases |xs|
  {
    DedupMembers(xs);
    if xs != [] {
      var pre := xs[..|xs| - 1];
      var x := xs[|xs| - 1];
      assert xs == pre + [x];
      DedupFirstWins(pre);
      DedupMembers(pre);
      var p := Dedup(pre);
      forall i, j | 0 <= i < j < |p|
        ensures FirstIndex(xs, p[i]) < FirstIndex(xs, p[j])
      {
        assert p[i] in p && p[j] in p;
        FirstIndexExtend(pre, x, p[i]);
        FirstIndexExtend(pre, x, p[j]);
      }
      if x != "" && x !in p {
        assert x !in pre;
        FirstIndexLast(pre, x);
        var r := p + [x];
        assert Dedup(xs) == r;
        forall i, j | 0 <= i < j < |r|
          ensures FirstIndex(xs, r[i]) < FirstIndex(xs, r[j])
        {
          assert r[i] == p[i] && p[i] in p;
          FirstIndexExtend(pre, x, p[i]);
          if j < |p| {
            assert r[j] == p[j];
          } else {
            assert r[j] == x;
          }
        }
      } else {
        assert Dedup(xs) == p;
      }
    }
  }

  /** The paths collected from `xs` lead the paths collected from `xs + ys`. */
  lemma {:induction false} DedupPrefix(xs: seq<string>, ys: seq<string>)
    ensures |Dedup(xs)| <= |Dedup(xs + ys)| && Dedup(xs + ys)[..|Dedup(xs)|] == Dedup(xs)
    decreases |ys|
  {
    if ys == [] {
      assert xs + ys == xs;
    } else {
      var pre := ys[..|ys| - 1];
      assert xs + ys == (xs + pre) + [ys[|ys| - 1]];
      DedupPrefix(xs, pre);
      assert (xs + ys)[..|xs + ys| - 1] == xs + pre;
    }
  }

  /**
   * `_collect_configured_paths`: the defaults, then the project layer, then
   * the user layer, each path kept at its first occurrence and empty ones
   * skipped.
   */
  method CollectConfiguredPaths(project: Json, user: Json) returns (unique: seq<string>)
    ensures unique == Dedup(DefaultPaths + LayerPaths(project) + LayerPaths(user))
  {
    unique := RemoveDuplicates(DefaultPaths + LayerPaths(project) + LayerPaths(user));
  }

  /** The `seen`/`unique_paths` loop of `_collect_configured_paths`. */
  method RemoveDuplicates(all: seq<string>) returns (unique: seq<string>)
    ensures unique == Dedup(all)
  {
    var seen: set<string> := {};
    unique := [];
    var i := 0;
    while i < |all|
      invariant 0 <= i <= |all|
      invariant unique == Dedup(all[..i])
      invariant seen == set x | x in unique
    {
      var path := all[i];
      assert all[..i + 1][..i] == all[..i];
      assert Dedup(all[..i + 1]) == if path != "" && path !in unique then unique + [path] else unique;
      if path != "" && path !in seen {
        seen := seen + {path};
        unique := unique + [path];
      }
      i := i + 1;
    }
    assert all[..|all|] == all;
  }

  /** The shipped default roots always come first, whatever the layers add. */
  lemma DefaultsLead(project: Json, user: Json)
    ensures var r := Dedup(DefaultPaths + LayerPaths(project) + LayerPaths(user));
      |r| >= 2 && r[..2] == DefaultPaths
  {
    assert Dedup(DefaultPaths) == DefaultPaths by {
      assert DefaultPaths[..1] == ["/apps/comfyui/input"];
      assert DefaultPaths[..1][..0] == [];
    }
    assert DefaultPaths + LayerPaths(project) + LayerPaths(user) == DefaultPaths + (LayerPaths(project) + LayerPaths(user));
    DedupPrefix(DefaultPaths, LayerPaths(project) + LayerPaths(user));
  }

  // ---------------------------------------------------------- friendly names

  /** `_get_friendly_path_name` with `Path.home()` given as `home`. */
  function FriendlyName(path: string, home: string): (r: string)
    ensures r != ""
  {
    var text := Normalize(path);
    var name := Name(path);
    var lower := Lower(name);
    if SamePath(path, home) then "Home"
    else if SamePath(path, Slash(home, "Videos")) then "Videos"
    else if SamePath(path, Slash(home, "Pictures")) then "Pictures"
    else if SamePath(path, Slash(home, "Desktop")) then "Desktop"
    else if SamePath(path, Slash(home, "Documents")) then "Documents"
    else if HasSubstring(text, "/comfyui/output") then "ComfyUI Output"
    else if HasSubstring(text, "/storage/projects/footage") then "Project Footage"
    else if HasSubstring(text, "/storage/projects/renders") then "Project Renders"
    else if HasSubstring(lower, "footage") then "Footage (" + name + ")"
    else if HasSubstring(lower, "render") then "Renders (" + name + ")"
    else if HasSubstring(lower, "output") then "Output (" + name + ")"
    else if name != "" then name
    else text
  }

  /** The four folders of the home directory get their own labels. */
  lemma HomeFoldersNamed(home: string, folder: string)
    requires folder in ["Videos", "Pictures", "Desktop", "Documents"]
    ensures FriendlyName(Slash(home, folder), home) == folder
  {
    var p := Slash(home, folder);
    SlashNotHome(home, folder);
    SlashDistinct(home, folder, "Videos");
    SlashDistinct(home, folder, "Pictures");
    SlashDistinct(home, folder, "Desktop");
    SlashDistinct(home, folder, "Documents");
  }

  lemma SlashNotHome(home: string, name: string)
    requires name != "" && name != "." && '/' !in name
    ensures !SamePath(Slash(home, name), home)
  {
    SlashParts(home, name);
  }

  lemma SlashDistinct(home: string, a: string, b: string)
    requires a != "" && a != "." && '/' !in a
    requires b != "" && b != "." && '/' !in b
    ensures SamePath(Slash(home, a), Slash(home, b)) <==> a == b
  {
    SlashParts(home, a);
    SlashParts(home, b);
    if SamePath(Slash(home, a), Slash(home, b)) {
      assert Components(Slash(home, a))[|Components(home)|] == a;
      assert Components(Slash(home, b))[|Components(home)|] == b;
    }
  }

  /** Every other label shows the directory's own name, or its full path when it has none. */
  lemma FriendlyNameShowsName(path: string, home: string)
    ensures var r := FriendlyName(path, home);
      r in {"Home", "Videos", "Pictures", "Desktop", "Documents", "ComfyUI Output", "Project Footage", "Project Renders"} ||
      (Name(path) != "" && Contains(r, Name(path))) || (Name(path) == "" && r == Normalize(path))
  {
    var text, name := Normalize(path), Name(path);
    var lower := Lower(name);
    if SamePath(path, home) || SamePath(path, Slash(home, "Videos")) || SamePath(path, Slash(home, "Pictures")) ||
       SamePath(path, Slash(home, "Desktop")) || SamePath(path, Slash(home, "Documents")) ||
       HasSubstring(text, "/comfyui/output") || HasSubstring(text, "/storage/projects/footage") ||
       HasSubstring(text, "/storage/projects/renders") {
    } else if HasSubstring(lower, "footage") {
      WrappedShowsName("Footage (", name);
    } else if HasSubstring(lower, "render") {
      WrappedShowsName("Renders (", name);
    } else if HasSubstring(lower, "output") {
      WrappedShowsName("Output (", name);
    } else if name != "" {
      assert OccursAt(name, name, 0);
    }
  }

  lemma WrappedShowsName(lead: string, name: string)
    ensures Contains(lead + name + ")", name)
  {
    var r := lead + name + ")";
    assert r[|lead|..|lead| + |name|] == name;
    assert OccursAt(r, name, |lead|);
  }

  // --------------------------------------------------------------- children

  /** An entry `iterdir()` yields: its name, whether it is a directory, and whether it can be listed. */
  datatype Entry = Entry(name: string, isDir: bool, accessible: bool)

  predicate Hidden(name: string) { StartsWith(name, ".") }

  function NameKey(e: Entry): string { Lower(e.name) }

  /** The directories among the entries whose names do not start with '.', in listing order. */
  function VisibleDirs(es: seq<Entry>): (r: seq<Entry>)
    ensures forall e :: e in r <==> e in es && e.isDir && !Hidden(e.name)
    decreases |es|
  {
    if es == [] then []
    else
      var pre := es[..|es| - 1];
      var e := es[|es| - 1];
      assert es == pre + [e];
      if e.isDir && !Hidden(e.name) then VisibleDirs(pre) + [e] else VisibleDirs(pre)
  }

  /** The names of the entries that can be listed, in order. */
  function AccessibleNames(es: seq<Entry>): seq<string>
    decreases |es|
  {
    if es == [] then []
    else
      var pre := es[..|es| - 1];
      var e := es[|es| - 1];
      if e.accessible then AccessibleNames(pre) + [e.name] else AccessibleNames(pre)
  }

  /** The child items `_populate_children` adds under a directory with these entries. */
  function ChildNames(es: seq<Entry>): seq<string>
  {
    AccessibleNames(Sorting.SortByStr(VisibleDirs(es), NameKey))
  }

  /** A name is listed iff an accessible entry has it. */
  lemma {:induction false} AccessibleNamesMembers(es: seq<Entry>)
    ensures forall n :: n in AccessibleNames(es) <==> exists e :: e in es && e.accessible && e.name == n
    decreases |es|
  {
    if es != [] {
      var pre := es[..|es| - 1];
      AccessibleNamesMembers(pre);
      assert es == pre + [es[|es| - 1]];
    }
  }

  /** Names in case-insensitive order. */
  predicate InKeyOrder(names: seq<string>)
  {
    forall i, j :: 0 <= i < j < |names| ==> Sorting.StrLe(Lower(names[i]), Lower(names[j]))
  }

  /** Dropping entries keeps names in key order. */
  lemma {:induction false} AccessibleNamesSorted(es: seq<Entry>)
    requires Sorting.SortedByStr(es, NameKey)
    ensures InKeyOrder(AccessibleNames(es))
    decreases |es|
  {
    if es != [] {
      var pre := es[..|es| - 1];
      var e := es[|es| - 1];
      assert forall i :: 0 <= i < |pre| ==> pre[i] == es[i];
      assert Sorting.SortedByStr(pre, NameKey);
      AccessibleNamesSorted(pre);
      if e.accessible {
        var p := AccessibleNames(pre);
        AccessibleNamesMembers(pre);
        forall i | 0 <= i < |p|
          ensures Sorting.StrLe(Lower(p[i]), Lower(e.name))
        {
          assert p[i] in p;
          var d :| d in pre && d.accessible && d.name == p[i];
          var k :| 0 <= k < |pre| && pre[k] == d;
          assert Sorting.StrLe(NameKey(es[k]), NameKey(es[|es| - 1]));
        }
        var a := p + [e.name];
        assert AccessibleNames(es) == a;
        forall i, j | 0 <= i < j < |a|
          ensures Sorting.StrLe(Lower(a[i]), Lower(a[j]))
        {
          assert a[i] == p[i];
          if j < |p| {
            assert a[j] == p[j];
          } else {
            assert a[j] == e.name;
          }
        }
      } else {
        assert AccessibleNames(es) == AccessibleNames(pre);
      }
    }
  }

  /** The children are the accessible visible directories and nothing else. */
  lemma ChildNamesMembers(es: seq<Entry>)
    ensures forall n :: n in ChildNames(es) <==>
      exists e :: e in es && e.isDir && !Hidden(e.name) && e.accessible && e.name == n
  {
    var s := Sorting.SortByStr(VisibleDirs(es), NameKey);
    AccessibleNamesMembers(s);
    forall e ensures e in s <==> e in VisibleDirs(es)
    {
      assert e in s <==> e in multiset(s);
    }
  }

  /** The children are in case-insensitive order of their names. */
  lemma ChildNamesSorted(es: seq<Entry>)
    ensures InKeyOrder(ChildNames(es))
  {
    var s := Sorting.SortByStr(VisibleDirs(es), NameKey);
    AccessibleNamesSorted(s);
    assert ChildNames(es) == AccessibleNames(s);
  }

  /**
   * `_populate_children`: the visible directories are gathered, sorted by
   * their lower-cased names, and those that can be listed become children.
   */
  method PopulateChildren(es: seq<Entry>) returns (children: seq<string>)
    ensures children == ChildNames(es)
  {
    var subdirs := GatherSubdirs(es);
    var sorted := Sorting.SortByStr(subdirs, NameKey);
    children := AddAccessible(sorted);
  }

  /** The first loop of `_populate_children`: directories not starting with '.'. */
  method GatherSubdirs(es: seq<Entry>) returns (subdirs: seq<Entry>)
    ensures subdirs == VisibleDirs(es)
  {
    subdirs := [];
    var i := 0;
    while i < |es|
      invariant 0 <= i <= |es|
      invariant subdirs == VisibleDirs(es[..i])
    {
      assert es[..i + 1][..i] == es[..i];
      if es[i].isDir && !Hidden(es[i].name) {
        subdirs := subdirs + [es[i]];
      }
      i := i + 1;
    }
    assert es[..|es|] == es;
  }

  /** The second loop of `_populate_children`: a directory that cannot be listed is skipped. */
  method AddAccessible(sorted: seq<Entry>) returns (children: seq<string>)
    ensures children == AccessibleNames(sorted)
  {
    children := [];
    var j := 0;
    while j < |sorted|
      invariant 0 <= j <= |sorted|
      invariant children == AccessibleNames(sorted[..j])
    {
      assert sorted[..j + 1][..j] == sorted[..j];
      if sorted[j].accessible {
        children := children + [sorted[j].name];
      }
      j := j + 1;
    }
    assert sorted[..|sorted|] == sorted;
  }

  // ---------------------------------------------------------------- expansion

  /** The listing of a directory; one that does not exist has no entries. */
  function Listing(fs: map<string, seq<Entry>>, dir: string): seq<Entry>
  {
    if Normalize(dir) in fs then fs[Normalize(dir)] else []
  }

  function ChildrenAt(fs: map<string, seq<Entry>>, dir: string): seq<string>
  {
    ChildNames(Listing(fs, dir))
  }

  /** `root / parts[0] / parts[1] / …`. */
  function PathAt(root: string, parts: seq<string>): string
    decreases |parts|
  {
    if parts == [] then root else Slash(PathAt(root, parts[..|parts| - 1]), parts[|parts| - 1])
  }

  predicate PlainNames(parts: seq<string>)
  {
    forall i :: 0 <= i < |parts| ==> parts[i] != "" && parts[i] != "." && '/' !in parts[i]
  }

  /** Each step adds its part as one more component, under the same anchor. */
  lemma {:induction false} PathAtParts(root: string, parts: seq<string>)
    requires PlainNames(parts)
    ensures Components(PathAt(root, parts)) == Components(root) + parts
    ensures IsAbsolute(PathAt(root, parts)) == IsAbsolute(root)
    decreases |parts|
  {
    if parts == [] {
      assert Components(root) + parts == Components(root);
    } else {
      var pre := parts[..|parts| - 1];
      var last := parts[|parts| - 1];
      assert PlainNames(pre) by {
        assert forall i :: 0 <= i < |pre| ==> pre[i] == parts[i];
      }
      PathAtParts(root, pre);
      PathAtLast(root, parts);
      SlashParts(PathAt(root, pre), last);
      LastSplit(parts);
      AppendAssoc(Components(root), pre, [last]);
    }
  }

  lemma LastSplit<T>(s: seq<T>)
    requires s != []
    ensures s == s[..|s| - 1] + [s[|s| - 1]]
  {
  }

  lemma AppendAssoc<T>(a: seq<T>, b: seq<T>, c: seq<T>)
    ensures a + (b + c) == (a + b) + c
  {
  }

  lemma PathAtLast(root: string, parts: seq<string>)
    requires parts != []
    ensures PathAt(root, parts) == Slash(PathAt(root, parts[..|parts| - 1]), parts[|parts| - 1])
  {
  }

  /** The relative parts are plain names. */
  lemma RelativePartsPlain(target: string, root: string)
    requires IsUnder(target, root)
    ensures PlainNames(RelativeParts(target, root))
  {
    var cs := Components(target);
    var k := |Components(root)|;
    forall i | 0 <= i < |cs| - k
      ensures cs[k..][i] != "" && cs[k..][i] != "." && '/' !in cs[k..][i]
    {
      assert cs[k..][i] == cs[k + i];
    }
  }

  /**
   * `_expand_path_to_directory` reaches the target: it lies strictly below
   * the root and every part is a child of the directory before it.
   */
  predicate Reaches(fs: map<string, seq<Entry>>, root: string, target: string)
  {
    IsUnder(target, root) &&
    var parts := RelativeParts(target, root);
    parts != [] && ChildrenAlong(fs, root, parts, |parts|)
  }

  /** Each of the first `n` parts is a child of the directory the parts before it lead to. */
  predicate ChildrenAlong(fs: map<string, seq<Entry>>, root: string, parts: seq<string>, n: nat)
    requires n <= |parts|
  {
    forall k :: 0 <= k < n ==> parts[k] in ChildrenAt(fs, PathAt(root, parts[..k]))
  }

  lemma ChildrenAlongStep(fs: map<string, seq<Entry>>, root: string, parts: seq<string>, n: nat)
    requires n < |parts| && ChildrenAlong(fs, root, parts, n)
    ensures ChildrenAlong(fs, root, parts, n + 1) <==> parts[n] in ChildrenAt(fs, PathAt(root, parts[..n]))
  {
  }

  /** A part that is not a child ends the walk: no longer prefix leads anywhere. */
  lemma ChildrenAlongStops(fs: map<string, seq<Entry>>, root: string, parts: seq<string>, n: nat, m: nat)
    requires n < m <= |parts| && parts[n] !in ChildrenAt(fs, PathAt(root, parts[..n]))
    ensures !ChildrenAlong(fs, root, parts, m)
  {
  }

  /** The expansion stops at the root itself: a target equal to its root is never reported reached. */
  lemma RootIsNotReached(fs: map<string, seq<Entry>>, root: string)
    ensures !Reaches(fs, root, root)
  {
  }

  /**
   * `_expand_path_to_directory`: walks the parts of the target below the
   * root, looking each up among the children of the item reached so far;
   * it stops with false at the first part without a child, and with true
   * (and the item's path) when the path built so far is the target.
   */
  method ExpandPath(fs: map<string, seq<Entry>>, root: string, target: string) returns (reached: bool, item: string)
    ensures reached == Reaches(fs, root, target)
    ensures reached ==> SamePath(item, target)
  {
    item := root;
    if !IsUnder(target, root) {
      return false, item;
    }
    var parts := RelativeParts(target, root);
    var current := root;
    var k := 0;
    while k < |parts|
      invariant 0 <= k <= |parts|
      invariant k == 0 || k < |parts|
      invariant current == PathAt(root, parts[..k])
      invariant ChildrenAlong(fs, root, parts, k)
    {
      var part := parts[k];
      var found := FindChild(ChildrenAt(fs, current), part);
      if !found {
        WalkStops(fs, root, target, k);
        return false, item;
      }
      WalkStep(fs, root, target, k);
      current := Slash(current, part);
      if SamePath(current, target) {
        return true, current;
      }
      k := k + 1;
    }
    return false, item;
  }

  /** A part that is a child extends the walk; the walk reaches the target exactly at the last part. */
  lemma WalkStep(fs: map<string, seq<Entry>>, root: string, target: string, k: nat)
    requires IsUnder(target, root) && k < |RelativeParts(target, root)|
    requires ChildrenAlong(fs, root, RelativeParts(target, root), k)
    requires RelativeParts(target, root)[k] in ChildrenAt(fs, PathAt(root, RelativeParts(target, root)[..k]))
    ensures ChildrenAlong(fs, root, RelativeParts(target, root), k + 1)
    ensures PathAt(root, RelativeParts(target, root)[..k + 1])
            == Slash(PathAt(root, RelativeParts(target, root)[..k]), RelativeParts(target, root)[k])
    ensures SamePath(PathAt(root, RelativeParts(target, root)[..k + 1]), target) <==> k + 1 == |RelativeParts(target, root)|
    ensures k + 1 == |RelativeParts(target, root)| ==> Reaches(fs, root, target)
  {
    var parts := RelativeParts(target, root);
    ChildrenAlongStep(fs, root, parts, k);
    PathAtPrefix(root, parts, k);
    StepIsTarget(root, target, k);
  }

  /** A part that is not a child ends the walk short of the target. */
  lemma WalkStops(fs: map<string, seq<Entry>>, root: string, target: string, k: nat)
    requires IsUnder(target, root) && k < |RelativeParts(target, root)|
    requires RelativeParts(target, root)[k] !in ChildrenAt(fs, PathAt(root, RelativeParts(target, root)[..k]))
    ensures !Reaches(fs, root, target)
  {
    var parts := RelativeParts(target, root);
    ChildrenAlongStops(fs, root, parts, k, |parts|);
  }

  /** The child search of `_expand_path_to_directory`. */
  method FindChild(children: seq<string>, part: string) returns (found: bool)
    ensures found <==> part in children
  {
    found := false;
    var i := 0;
    while i < |children|
      invariant 0 <= i <= |children|
      invariant part !in children[..i]
    {
      if children[i] == part {
        return true;
      }
      assert children[..i + 1] == children[..i] + [children[i]];
      i := i + 1;
    }
    assert children[..i] == children;
  }

  /** One more part extends the path built so far. */
  lemma PathAtPrefix(root: string, parts: seq<string>, k: nat)
    requires k < |parts|
    ensures PathAt(root, parts[..k + 1]) == Slash(PathAt(root, parts[..k]), parts[k])
  {
    PathAtLast(root, parts[..k + 1]);
    assert parts[..k + 1][..k] == parts[..k];
  }

  /** The path built after `k + 1` parts is the target exactly when no part is left. */
  lemma StepIsTarget(root: string, target: string, k: nat)
    requires IsUnder(target, root) && k < |RelativeParts(target, root)|
    ensures SamePath(PathAt(root, RelativeParts(target, root)[..k + 1]), target) <==> k + 1 == |RelativeParts(target, root)|
  {
    var parts := RelativeParts(target, root);
    RelativePartsPlain(target, root);
    var pre := parts[..k + 1];
    assert PlainNames(pre) by {
      assert forall i :: 0 <= i < |pre| ==> pre[i] == parts[i];
    }
    PathAtParts(root, pre);
    if k + 1 == |parts| {
      assert pre == parts;
    } else {
      assert |Components(root) + pre| < |Components(target)|;
    }
  }

  // -------------------------------------------------------------- best root

  /**
   * The first of `0 .. n - 1` that is `ok` with the greatest `len`: each
   * later candidate replaces the one kept only when it is strictly longer.
   */
  function BestBy(n: nat, ok: nat -> bool, len: nat -> int): (r: Option<nat>)
    ensures r.Some? ==> r.value < n
  {
    if n == 0 then None
    else
      var prev := BestBy(n - 1, ok, len);
      if ok(n - 1) && (prev.None? || len(n - 1) > len(prev.value)) then Some(n - 1) else prev
  }

  lemma {:induction false} BestByMeaning(n: nat, ok: nat -> bool, len: nat -> int)
    ensures BestBy(n, ok, len).None? <==> forall j :: 0 <= j < n ==> !ok(j)
    ensures BestBy(n, ok, len).Some? ==>
      var b := BestBy(n, ok, len).value;
      ok(b) && (forall j :: 0 <= j < n && ok(j) ==> len(j) <= len(b)) && (forall j :: 0 <= j < b && ok(j) ==> len(j) < len(b))
  {
    if n > 0 {
      BestByMeaning(n - 1, ok, len);
    }
  }

  /** Whether the root at an index contains the target. */
  function ContainsTarget(roots: seq<string>, target: string): nat -> bool
  {
    (i: nat) => i < |roots| && IsUnder(target, roots[i])
  }

  /** The length of `str(root_path)` for the root at an index. */
  function RootLength(roots: seq<string>): nat -> int
  {
    (i: nat) => if i < |roots| then |Normalize(roots[i])| else 0
  }

  /** The root `_expand_to_directory` picks among `roots` for `target`. */
  function BestRootOf(roots: seq<string>, target: string): (r: Option<nat>)
    ensures r.Some? ==> r.value < |roots|
  {
    BestBy(|roots|, ContainsTarget(roots, target), RootLength(roots))
  }

  predicate NoneContains(roots: seq<string>, target: string)
  {
    forall j :: 0 <= j < |roots| ==> !IsUnder(target, roots[j])
  }

  /** `roots[b]` is at least as long as every root containing the target, and longer than those before it. */
  predicate FirstLongest(roots: seq<string>, target: string, b: nat)
    requires b < |roots|
  {
    (forall j :: 0 <= j < |roots| && IsUnder(target, roots[j]) ==> |Normalize(roots[j])| <= |Normalize(roots[b])|) &&
    (forall j :: 0 <= j < b && IsUnder(target, roots[j]) ==> |Normalize(roots[j])| < |Normalize(roots[b])|)
  }

  /**
   * The root picked contains the target and has the longest path string of
   * all roots that do, the first such in order; none is picked only when no
   * root contains the target.
   */
  lemma BestRootMeaning(roots: seq<string>, target: string)
    ensures BestRootOf(roots, target).None? <==> NoneContains(roots, target)
    ensures BestRootOf(roots, target).Some? ==>
      IsUnder(target, roots[BestRootOf(roots, target).value]) && FirstLongest(roots, target, BestRootOf(roots, target).value)
  {
    var ok, len := ContainsTarget(roots, target), RootLength(roots);
    BestByMeaning(|roots|, ok, len);
    assert forall j :: 0 <= j < |roots| ==> (ok(j) <==> IsUnder(target, roots[j])) && len(j) == |Normalize(roots[j])|;
  }

  /** `'/'.join` of a proper component prefix is shorter. */
  lemma {:induction false} JoinPrefixShorter(cs: seq<string>, ds: seq<string>)
    requires |cs| < |ds| && ds[..|cs|] == cs
    requires forall i :: 0 <= i < |ds| ==> ds[i] != ""
    ensures |Text.Join(cs, "/")| < |Text.Join(ds, "/")|
    decreases |cs|
  {
    if cs == [] {
      assert |Text.Join(ds, "/")| >= |ds[0]|;
    } else if |cs| == 1 {
      assert cs[0] == ds[0];
    } else {
      assert cs[0] == ds[..|cs|][0];
      assert ds[1..][..|cs| - 1] == cs[1..];
      JoinPrefixShorter(cs[1..], ds[1..]);
    }
  }

  /**
   * For an absolute target the longest containing root is the deepest:
   * every other root that contains the target contains the picked one.
   */
  lemma BestRootIsDeepest(roots: seq<string>, target: string, j: nat)
    requires IsAbsolute(target)
    requires BestRootOf(roots, target).Some?
    requires j < |roots| && IsUnder(target, roots[j])
    ensures IsUnder(roots[BestRootOf(roots, target).value], roots[j])
  {
    BestRootMeaning(roots, target);
    var b := roots[BestRootOf(roots, target).value];
    var cb, cj, ct := Components(b), Components(roots[j]), Components(target);
    if |cb| < |cj| {
      assert cj[..|cb|] == ct[..|cb|] == cb;
      JoinPrefixShorter(cb, cj);
    }
    assert cb[..|cj|] == ct[..|cj|] == cj;
  }

  // ------------------------------------------------------------------ widget

  /** The tree's top-level items and its selection. */
  class Tree {
    /** The path of each top-level item, in order. */
    var roots: seq<string>
    /** The path of each selected item, "" for an item without one. */
    var selected: seq<string>

    constructor (roots: seq<string>)
      ensures this.roots == roots && selected == []
    {
      this.roots := roots;
      selected := [];
    }

    /** The search loop of `_expand_to_directory`. */
    method BestRoot(target: string) returns (best: Option<nat>)
      ensures best == BestRootOf(roots, target)
    {
      ghost var ok, len := ContainsTarget(roots, target), RootLength(roots);
      best := None;
      var i := 0;
      while i < |roots|
        invariant 0 <= i <= |roots|
        invariant best == BestBy(i, ok, len)
      {
        assert ok(i) == IsUnder(target, roots[i]) && len(i) == |Normalize(roots[i])|;
        assert best.Some? ==> len(best.value) == |Normalize(roots[best.value])|;
        assert BestBy(i + 1, ok, len) == if ok(i) && (best.None? || len(i) > len(best.value)) then Some(i) else best;
        if IsUnder(target, roots[i]) && (best.None? || |Normalize(roots[i])| > |Normalize(roots[best.value])|) {
          best := Some(i);
        }
        i := i + 1;
      }
    }

    /**
     * `_expand_to_directory`: the tree is expanded from the best root; when
     * the target is reached its item becomes the only selected one.
     */
    method ExpandToDirectory(fs: map<string, seq<Entry>>, target: string) returns (reached: bool)
      modifies this`selected
      ensures var b := BestRootOf(roots, target);
        reached == (b.Some? && Reaches(fs, roots[b.value], target))
      ensures reached ==> |selected| == 1 && SamePath(selected[0], target)
      ensures !reached ==> selected == old(selected)
    {
      var best := BestRoot(target);
      if best.None? {
        return false;
      }
      var item;
      reached, item := ExpandPath(fs, roots[best.value], target);
      if reached {
        selected := [item];
      }
    }

    /**
     * `_on_selection_changed`: the paths of the selected items, emitted
     * together and the first one alone, only when there is at least one.
     */
    method OnSelectionChanged() returns (multi: Option<seq<string>>, single: Option<string>)
      ensures multi == (if NonEmpty(selected) == [] then None else Some(NonEmpty(selected)))
      ensures single == (if NonEmpty(selected) == [] then None else Some(NonEmpty(selected)[0]))
    {
      var paths: seq<string> := [];
      var i := 0;
      while i < |selected|
        invariant 0 <= i <= |selected|
        invariant paths == NonEmpty(selected[..i])
      {
        assert selected[..i + 1][..i] == selected[..i];
        if selected[i] != "" {
          paths := paths + [selected[i]];
        }
        i := i + 1;
      }
      assert selected[..|selected|] == selected;
      if paths != [] {
        multi, single := Some(paths), Some(paths[0]);
      } else {
        multi, single := None, None;
      }
    }
  }

  /** The non-empty paths, in order. */
  function NonEmpty(s: seq<string>): seq<string>
    decreases |s|
  {
    if s == [] then []
    else
      var pre := s[..|s| - 1];
      if s[|s| - 1] != "" then NonEmpty(pre) + [s[|s| - 1]] else NonEmpty(pre)
  }

  /** The emitted paths are exactly the non-empty selected ones; nothing is emitted when there are none. */
  lemma {:induction false} NonEmptyMeaning(s: seq<string>)
    ensures forall x :: x in NonEmpty(s) <==> x in s && x != ""
    ensures NonEmpty(s) == [] <==> forall i :: 0 <= i < |s| ==> s[i] == ""
    decreases |s|
  {
    if s != [] {
      var pre := s[..|s| - 1];
      NonEmptyMeaning(pre);
      assert s == pre + [s[|s| - 1]];
    }
  }

  /** The single-selection signal carries the first selected item that has a path. */
  lemma {:induction false} NonEmptyHead(s: seq<string>, i: nat)
    requires i < |s| && s[i] != "" && forall j :: 0 <= j < i ==> s[j] == ""
    ensures NonEmpty(s) != [] && NonEmpty(s)[0] == s[i]
    decreases |s|
  {
    var pre := s[..|s| - 1];
    if i < |s| - 1 {
      NonEmptyHead(pre, i);
    } else {
      NonEmptyMeaning(pre);
      assert forall j :: 0 <= j < |pre| ==> pre[j] == "";
    }
  }
}
