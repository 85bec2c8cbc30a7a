/**
 * The tab bookkeeping of `ui/tabbed_navigation.py`: each navigation tab's
 * own state (path, filter, view mode, splitter sizes) with its state
 * snapshot and restore, and the tab widget's list of tabs with the index
 * map `tabs` that `close_tab` rebuilds after every close.  The directory
 * tree, the content view's loading and every Qt signal are outside the
 * model; the tab bar is the sequence `widgets` with its titles.
 */
module TabbedNavigation {
  import opened Wrappers
  import opened Text
  import Paths
  import SearchWidget

  /** The path text a multi-directory selection puts in place of a path. */
  const MultiplePrefix: string := "Multiple directories"

  predicate IsMultiple(path: string)
  {
    StartsWith(path, MultiplePrefix)
  }

  /** `f"Multiple directories ({n} selected)"`. */
  function MultiplePath(n: nat): (r: string)
    ensures IsMultiple(r)
  {
    var r := MultiplePrefix + " (" + NatToString(n) + " selected)";
    assert r[..|MultiplePrefix|] == MultiplePrefix;
    r
  }

  /** The path a tab shows after the tree selects `paths`. */
  function SelectedPath(paths: seq<string>): string
  {
    if |paths| == 1 then paths[0] else MultiplePath(|paths|)
  }

  /** A filter state is re-applied only when it is set and not empty (Python truthiness of a dict). */
  predicate IsActive(filter: Option<SearchWidget.Criteria>)
  {
    filter.Some? && !filter.value.IsEmpty()
  }

  /** The path of a new tab: the given one, else the current tab's unless it stands for several directories. */
  function NewTabPath(path: Option<string>, currentTabPath: Option<string>): (r: Option<string>)
    ensures path.Some? ==> r == path
    ensures path.None? ==> (r.Some? <==> currentTabPath.Some? && !IsMultiple(currentTabPath.value))
    ensures r.Some? && path.None? ==> r == currentTabPath
  {
    if path.Some? then path
    else if currentTabPath.Some? && !IsMultiple(currentTabPath.value) then currentTabPath
    else None
  }

  /** The default title: the last path component, "Root" when there is none, "New Tab" without a path. */
  function TitleOf(path: Option<string>): (r: string)
    ensures r != ""
    ensures path.None? ==> r == "New Tab"
    ensures path.Some? && Paths.Name(path.value) != "" ==> r == Paths.Name(path.value)
    ensures path.Some? && Paths.Name(path.value) == "" ==> r == "Root"
  {
    if path.None? then "New Tab"
    else
      var name := Paths.Name(path.value);
      if name == "" then "Root" else name
  }

  /**
   * A tab whose tree selected several directories hands no path to a new
   * tab, which is then titled "New Tab"; one directory is handed on.
   */
  lemma NewTabAfterSelection(paths: seq<string>)
    ensures |paths| != 1 ==>
      NewTabPath(None, Some(SelectedPath(paths))) == None &&
      TitleOf(NewTabPath(None, Some(SelectedPath(paths)))) == "New Tab"
    ensures |paths| == 1 && !IsMultiple(paths[0]) ==>
      NewTabPath(None, Some(SelectedPath(paths))) == Some(paths[0])
  {
    if |paths| != 1 {
      assert IsMultiple(MultiplePath(|paths|));
    }
  }

  // ------------------------------------------------------------ tab state

  /** The persisted fields of one tab. */
  datatype TabFields = TabFields(
    path: Option<string>,
    filterState: Option<SearchWidget.Criteria>,
    viewMode: string,
    splitterSizes: seq<int>)

  /** A tab-state dictionary: a `None` field is a key that is absent. */
  datatype TabState = TabState(
    path: Option<Option<string>>,
    filterState: Option<Option<SearchWidget.Criteria>>,
    viewMode: Option<string>,
    splitterSizes: Option<seq<int>>)

  /** `get_tab_state`: every key present. */
  function Snapshot(f: TabFields): TabState
  {
    TabState(Some(f.path), Some(f.filterState), Some(f.viewMode), Some(f.splitterSizes))
  }

  /** `restore_tab_state`: each key present overwrites its field, the others are kept. */
  function Restored(f: TabFields, st: TabState): TabFields
  {
    TabFields(
      if st.path.Some? then st.path.value else f.path,
      if st.filterState.Some? then st.filterState.value else f.filterState,
      if st.viewMode.Some? then st.viewMode.value else f.viewMode,
      if st.splitterSizes.Some? then st.splitterSizes.value else f.splitterSizes)
  }

  /** Restoring a tab's snapshot onto any tab reproduces the first tab's fields. */
  lemma TabStateRoundTrip(f: TabFields, g: TabFields)
    ensures Restored(g, Snapshot(f)) == f
  {
  }

  /** Restoring a state without keys changes nothing; restoring twice is restoring once. */
  lemma RestoreLaws(f: TabFields, st: TabState)
    ensures Restored(f, TabState(None, None, None, None)) == f
    ensures Restored(Restored(f, st), st) == Restored(f, st)
  {
  }

  /** One tab: its directory, its filter and its view mode. */
  class NavigationTab {
    var currentPath: Option<string>
    var filterState: Option<SearchWidget.Criteria>
    var viewMode: string
    var splitterSizes: seq<int>

    function Fields(): TabFields
      reads this
    {
      TabFields(currentPath, filterState, viewMode, splitterSizes)
    }

    constructor(initialPath: Option<string>)
      ensures Fields() == TabFields(initialPath, None, "Grid", [360, 840])
    {
      currentPath := initialPath;
      filterState := None;
      viewMode := "Grid";
      splitterSizes := [360, 840];
    }

    /**
     * `on_directory_selected` and `on_directories_selected`: one path is
     * taken as it is, several become the multiple-directories text; the
     * filter the tab re-applies to its freshly loaded view is returned.
     */
    method OnDirectoriesSelected(paths: seq<string>) returns (reapplied: Option<SearchWidget.Criteria>)
      modifies this`currentPath
      ensures currentPath == Some(SelectedPath(paths))
      ensures reapplied.Some? <==> IsActive(filterState)
      ensures reapplied.Some? ==> reapplied == filterState
    {
      if |paths| == 1 {
        currentPath := Some(paths[0]);
      } else {
        currentPath := Some(MultiplePath(|paths|));
      }
      reapplied := if IsActive(filterState) then filterState else None;
    }

    method GetTabState() returns (st: TabState)
      ensures st == Snapshot(Fields())
    {
      st := TabState(Some(currentPath), Some(filterState), Some(viewMode), Some(splitterSizes));
    }

    method RestoreTabState(st: TabState)
      modifies this
      ensures Fields() == Restored(old(Fields()), st)
    {
      if st.path.Some? {
        currentPath := st.path.value;
      }
      if st.filterState.Some? {
        filterState := st.filterState.value;
      }
      if st.viewMode.Some? {
        viewMode := st.viewMode.value;
      }
      if st.splitterSizes.Some? {
        splitterSizes := st.splitterSizes.value;
      }
    }
  }

  // ------------------------------------------------------------- tab list

  /** The map from each position to the tab shown there. */
  function IndexMap(ws: seq<NavigationTab>): map<int, NavigationTab>
  {
    map i | 0 <= i < |ws| :: ws[i]
  }

  /** The rebuild loop of `close_tab`: each position keyed to its tab when the old map holds that tab. */
  function Rekeyed(ws: seq<NavigationTab>, prior: map<int, NavigationTab>): map<int, NavigationTab>
  {
    map i | 0 <= i < |ws| && ws[i] in prior.Values :: ws[i]
  }

  /** When the old map still holds every shown tab, the rebuild keys them 0..n-1 in order. */
  lemma RekeyedIsIndexMap(ws: seq<NavigationTab>, prior: map<int, NavigationTab>)
    requires forall i :: 0 <= i < |ws| ==> ws[i] in prior.Values
    ensures Rekeyed(ws, prior) == IndexMap(ws)
  {
  }

  /** `ws` without position `k`. */
  function RemovedAt<T>(ws: seq<T>, k: int): (r: seq<T>)
    requires 0 <= k < |ws|
    ensures |r| == |ws| - 1
    ensures forall i :: 0 <= i < k ==> r[i] == ws[i]
    ensures forall i :: k <= i < |r| ==> r[i] == ws[i + 1]
  {
    ws[..k] + ws[k + 1..]
  }

  /** The index the tab bar selects after removing tab `k` of `n` (right neighbour first). */
  function CurrentAfterRemove(current: int, k: int, n: int): (r: int)
    requires 0 <= k < n && 0 <= current < n
    ensures n > 1 ==> 0 <= r < n - 1
    ensures current < k ==> r == current
    ensures current > k ==> r == current - 1
  {
    if k < current then current - 1
    else if k == current then (if k < n - 1 then k else k - 1)
    else current
  }

  /** The tab widget with its tabs, their titles, the current index and the index map. */
  class TabbedNavigationWidget {
    var widgets: seq<NavigationTab>
    var titles: seq<string>
    var current: int
    var tabs: map<int, NavigationTab>

    /** The index map matches the tab bar, one title per tab, and a tab is current unless there are none. */
    predicate Valid()
      reads this
    {
      tabs == IndexMap(widgets) &&
      |titles| == |widgets| &&
      (if widgets == [] then current == -1 else 0 <= current < |widgets|)
    }

    constructor()
      ensures Valid() && widgets == []
    {
      widgets, titles, current, tabs := [], [], -1, map[];
    }

    /** The path of the current tab, if there is one and it has a path. */
    function CurrentTabPath(): Option<string>
      reads this, if current in tabs then {tabs[current]} else {}
    {
      if current in tabs then tabs[current].currentPath else None
    }

    /** `add_new_tab`: appended at the end, keyed by its index, and made current. */
    method AddNewTab(path: Option<string>, title: Option<string>) returns (tab: NavigationTab)
      requires Valid()
      modifies this
      ensures Valid()
      ensures fresh(tab)
      ensures tab.Fields() == TabFields(NewTabPath(path, old(CurrentTabPath())), None, "Grid", [360, 840])
      ensures widgets == old(widgets) + [tab]
      ensures titles == old(titles) + [if title.Some? then title.value else TitleOf(tab.currentPath)]
      ensures current == |widgets| - 1 && tabs[current] == tab
    {
      var p := path;
      if p.None? && current in tabs {
        var cp := tabs[current].currentPath;
        if cp.Some? && !IsMultiple(cp.value) {
          p := cp;
        }
      }
      tab := new NavigationTab(p);
      var t := if title.Some? then title.value else TitleOf(p);
      var index := |widgets|;
      widgets := widgets + [tab];
      titles := titles + [t];
      tabs := tabs[index := tab];
      current := index;
    }

    /**
     * `close_tab`: refused while one tab or none is open; otherwise the
     * tab at `index` goes and the map is rebuilt from the remaining tabs.
     */
    method CloseTab(index: int)
      requires Valid()
      modifies this
      ensures Valid()
      ensures |old(widgets)| <= 1 || !(0 <= index < |old(widgets)|) ==>
        widgets == old(widgets) && titles == old(titles) && current == old(current)
      ensures |old(widgets)| > 1 && 0 <= index < |old(widgets)| ==>
        widgets == RemovedAt(old(widgets), index) && titles == RemovedAt(old(titles), index) &&
        current == CurrentAfterRemove(old(current), index, |old(widgets)|)
    {
      if |widgets| <= 1 {
        return;
      }
      if index in tabs {
        tabs := map k | k in tabs && k != index :: tabs[k];
      }
      ghost var before := widgets;
      if 0 <= index < |widgets| {
        current := CurrentAfterRemove(current, index, |widgets|);
        widgets := RemovedAt(widgets, index);
        titles := RemovedAt(titles, index);
      }
      forall i | 0 <= i < |widgets| ensures widgets[i] in tabs.Values {
        var k := if 0 <= index < |before| && i >= index then i + 1 else i;
        assert k in tabs && tabs[k] == widgets[i];
      }
      RekeyedIsIndexMap(widgets, tabs);
      RebuildTabs();
    }

    /** The loop of `close_tab` that keys every remaining tab by its new position. */
    method RebuildTabs()
      modifies this`tabs
      ensures tabs == Rekeyed(widgets, old(tabs))
    {
      var newTabs: map<int, NavigationTab> := map[];
      var i := 0;
      while i < |widgets|
        invariant 0 <= i <= |widgets|
        invariant newTabs == map j | 0 <= j < i && widgets[j] in tabs.Values :: widgets[j]
      {
        if widgets[i] in tabs.Values {
          newTabs := newTabs[i := widgets[i]];
        }
        i := i + 1;
      }
      tabs := newTabs;
    }

    /** `close_tabs_to_right`: closes from the last tab down to `index + 1`. */
    method CloseTabsToRight(index: int)
      requires Valid() && 0 <= index < |widgets|
      modifies this
      ensures Valid()
      ensures widgets == old(widgets)[..index + 1] && titles == old(titles)[..index + 1]
    {
      ghost var ws, ts := widgets, titles;
      var i := |widgets| - 1;
      while i > index
        invariant index <= i < |ws|
        invariant Valid()
        invariant widgets == ws[..i + 1] && titles == ts[..i + 1]
      {
        CloseTab(i);
        assert RemovedAt(ws[..i + 1], i) == ws[..i];
        assert RemovedAt(ts[..i + 1], i) == ts[..i];
        i := i - 1;
      }
    }

    /**
     * `close_other_tabs`: from the last index down, every tab right of
     * `keep` is closed at its own index and every tab left of it at index 0.
     */
    method CloseOtherTabs(keep: int)
      requires Valid() && 0 <= keep < |widgets|
      modifies this
      ensures Valid()
      ensures widgets == [old(widgets)[keep]] && titles == [old(titles)[keep]]
      ensures current == 0
    {
      ghost var ws, ts := widgets, titles;
      var i := |widgets| - 1;
      while i >= 0
        invariant -1 <= i < |ws|
        invariant Valid()
        invariant i >= keep ==> widgets == ws[..i + 1] && titles == ts[..i + 1]
        invariant i < keep ==> widgets == ws[keep - 1 - i..keep + 1] && titles == ts[keep - 1 - i..keep + 1]
      {
        if i != keep && |widgets| > 1 {
          if i > keep {
            CloseTab(i);
            assert RemovedAt(ws[..i + 1], i) == ws[..i];
            assert RemovedAt(ts[..i + 1], i) == ts[..i];
          } else {
            CloseTab(0);
            assert RemovedAt(ws[keep - 1 - i..keep + 1], 0) == ws[keep - i..keep + 1];
            assert RemovedAt(ts[keep - 1 - i..keep + 1], 0) == ts[keep - i..keep + 1];
          }
        }
        i := i - 1;
      }
    }
  }
}
