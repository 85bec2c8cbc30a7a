/**
 * The search bar of `ui/search_widget.py`: a text field, a search-type
 * combo box, three file-type toggles and two favorites toggles.  The widget
 * turns this state into a criteria dictionary and can be set back from one.
 */
module SearchWidget {
  import opened Wrappers
  import opened Text

  /**
   * The criteria dictionary.  Each field is one key: `None` when the key is
   * absent.  The values have the types the widget itself writes.
   */
  datatype Criteria = Criteria(
    text: Option<string>, searchType: Option<string>, fileTypes: Option<seq<string>>,
    userFavoritesOnly: Option<bool>, projectFavoritesOnly: Option<bool>, favoritesOnly: Option<bool>)
  {
    /** An empty dictionary, which Python treats as false. */
    predicate IsEmpty()
    {
      text.None? && searchType.None? && fileTypes.None? &&
      userFavoritesOnly.None? && projectFavoritesOnly.None? && favoritesOnly.None?
    }
  }

  /** The three entries of the search-type combo box. */
  datatype SearchType = ByName | ByPath | AllFields

  /** `currentText().lower()` for the entries "Name", "Path" and "All Fields". */
  function TypeKey(t: SearchType): string
  {
    match t
    case ByName => "name"
    case ByPath => "path"
    case AllFields => "all fields"
  }

  /** The combo-box entry `restore_search_state` picks for a stored search type. */
  function TypeFromKey(key: string): SearchType
  {
    if key == "name" then ByName else if key == "path" then ByPath else AllFields
  }

  lemma TypeKeyRoundTrip(t: SearchType)
    ensures TypeFromKey(TypeKey(t)) == t
  {
  }

  /** Everything the widget holds that the criteria depend on. */
  datatype WidgetState = WidgetState(
    text: string, searchType: SearchType,
    video: bool, sequence: bool, image: bool,
    userFavorites: bool, projectFavorites: bool)

  /** The state right after construction. */
  const Initial := WidgetState("", AllFields, true, true, true, false, false)

  /** The position of each file type in the order the widget lists them. */
  function TypeRank(t: string): int
  {
    if t == "video" then 0 else if t == "sequence" then 1 else if t == "image" then 2 else 3
  }

  /** The checked file types, in the order video, sequence, image. */
  function CheckedTypes(s: WidgetState): (r: seq<string>)
    ensures forall t :: t in r <==> (t == "video" && s.video) || (t == "sequence" && s.sequence) || (t == "image" && s.image)
    ensures forall i, j :: 0 <= i < j < |r| ==> TypeRank(r[i]) < TypeRank(r[j])
    ensures r == [] <==> !s.video && !s.sequence && !s.image
  {
    (if s.video then ["video"] else []) + (if s.sequence then ["sequence"] else [])
      + (if s.image then ["image"] else [])
  }

  /** `get_search_criteria`. */
  function CriteriaOf(s: WidgetState): (c: Criteria)
    ensures c.text.Some? <==> !IsBlank(s.text)
    ensures c.text.Some? ==> c.text.value == Strip(s.text) && c.text.value != ""
    ensures c.searchType.Some? <==> c.text.Some?
    ensures c.searchType.Some? ==> c.searchType.value == TypeKey(s.searchType)
    ensures c.fileTypes.None? <==> !s.video && !s.sequence && !s.image
    ensures c.fileTypes.Some? ==> forall t :: t in c.fileTypes.value <==>
      (t == "video" && s.video) || (t == "sequence" && s.sequence) || (t == "image" && s.image)
    ensures c.userFavoritesOnly.Some? <==> s.userFavorites
    ensures c.projectFavoritesOnly.Some? <==> s.projectFavorites
    ensures c.userFavoritesOnly != Some(false) && c.projectFavoritesOnly != Some(false)
    ensures c.favoritesOnly.None?
  {
    StripEmptyIffBlank(s.text);
    var text := Strip(s.text);
    var types := CheckedTypes(s);
    Criteria(
      if text != "" then Some(text) else None,
      if text != "" then Some(TypeKey(s.searchType)) else None,
      if types != [] then Some(types) else None,
      if s.userFavorites then Some(true) else None,
      if s.projectFavorites then Some(true) else None,
      None)
  }

  /** The criteria are empty exactly when the text is blank and nothing is checked. */
  lemma EmptyCriteria(s: WidgetState)
    ensures CriteriaOf(s).IsEmpty() <==>
      IsBlank(s.text) && !s.video && !s.sequence && !s.image && !s.userFavorites && !s.projectFavorites
  {
  }

  /** `reset_filters`: every type checked, both favorites unchecked. */
  function Reset(s: WidgetState): (r: WidgetState)
    ensures r.text == s.text && r.searchType == s.searchType
    ensures r.video && r.sequence && r.image
    ensures !r.userFavorites && !r.projectFavorites
  {
    s.(video := true, sequence := true, image := true, userFavorites := false, projectFavorites := false)
  }

  /**
   * `restore_search_state` as written: reset the filters, then each key
   * present sets its control.  A text field is left as it was when the
   * criteria have no text.
   */
  function RestoredAsWritten(s: WidgetState, c: Criteria): WidgetState
  {
    WidgetState(
      c.text.GetOr(s.text),
      if c.searchType.Some? then TypeFromKey(c.searchType.value) else s.searchType,
      TypeChecked(c.fileTypes, "video"), TypeChecked(c.fileTypes, "sequence"), TypeChecked(c.fileTypes, "image"),
      c.userFavoritesOnly.GetOr(false) || c.favoritesOnly.GetOr(false),
      c.projectFavoritesOnly.GetOr(false))
  }

  /** A type toggle after a restore: checked by the reset unless the key lists the types. */
  predicate TypeChecked(types: Option<seq<string>>, t: string)
  {
    types.None? || t in types.value
  }

  /**
   * Switching to a tab whose criteria have no text keeps the previous tab's
   * text in the field, so the widget no longer shows the criteria it was
   * restored from.
   */
  lemma StaleTextSurvivesRestore()
    ensures var before := Initial.(text := "foo");
            var c := CriteriaOf(Initial.(image := false));
            CriteriaOf(RestoredAsWritten(before, c)) != c
  {
    var before := Initial.(text := "foo");
    var c := CriteriaOf(Initial.(image := false));
    assert IsBlank(Initial.text);
    assert c.text.None?;
    assert !IsBlank("foo") by { assert !IsWhitespace("foo"[0]); }
    assert CriteriaOf(RestoredAsWritten(before, c)).text.Some?;
  }

  /**
   * `restore_search_state` with the text cleared along with the filters, as
   * its "clear current state first" step intends.
   */
  function Restored(s: WidgetState, c: Criteria): (r: WidgetState)
    ensures r == RestoredAsWritten(s.(text := ""), c)
  {
    WidgetState(
      c.text.GetOr(""),
      if c.searchType.Some? then TypeFromKey(c.searchType.value) else s.searchType,
      TypeChecked(c.fileTypes, "video"), TypeChecked(c.fileTypes, "sequence"), TypeChecked(c.fileTypes, "image"),
      c.userFavoritesOnly.GetOr(false) || c.favoritesOnly.GetOr(false),
      c.projectFavoritesOnly.GetOr(false))
  }

  /** What a restore does to each control, key by key. */
  lemma RestoredControls(s: WidgetState, c: Criteria)
    ensures Restored(s, c).text == (if c.text.Some? then c.text.value else "")
    ensures c.fileTypes.None? ==> Restored(s, c).video && Restored(s, c).sequence && Restored(s, c).image
    ensures c.fileTypes.Some? ==> (Restored(s, c).image <==> "image" in c.fileTypes.value)
    ensures Restored(s, c).userFavorites <==> c.userFavoritesOnly == Some(true) || c.favoritesOnly == Some(true)
    ensures Restored(s, c).projectFavorites <==> c.projectFavoritesOnly == Some(true)
    ensures c.searchType == Some("path") ==> Restored(s, c).searchType == ByPath
    ensures c.searchType.Some? && c.searchType.value != "name" && c.searchType.value != "path" ==>
      Restored(s, c).searchType == AllFields
  {
  }

  /**
   * Restoring the criteria the widget produced gives back the same criteria,
   * whatever the widget held before, provided some file type was checked.
   */
  lemma RestoreRoundTrip(s: WidgetState, before: WidgetState)
    requires s.video || s.sequence || s.image
    ensures CriteriaOf(Restored(before, CriteriaOf(s))) == CriteriaOf(s)
  {
    var c := CriteriaOf(s);
    var t := Restored(before, c);
    var d := CriteriaOf(t);
    if c.text.Some? {
      StripIdempotent(s.text);
      TypeKeyRoundTrip(s.searchType);
      assert t.text == Strip(s.text) && t.searchType == s.searchType;
      assert d.text == c.text && d.searchType == c.searchType;
    } else {
      assert IsBlank(t.text);
      assert d.text == c.text && d.searchType == c.searchType;
    }
    assert t.video == s.video && t.sequence == s.sequence && t.image == s.image;
    assert CheckedTypes(t) == CheckedTypes(s);
    assert d.fileTypes == c.fileTypes;
    assert d.userFavoritesOnly == c.userFavoritesOnly && d.projectFavoritesOnly == c.projectFavoritesOnly;
  }

  /**
   * With no file type checked the key is left out, and restoring it checks
   * all three types, so the round trip then lists every type.
   */
  lemma RestoreWithoutTypes(s: WidgetState, before: WidgetState)
    requires !s.video && !s.sequence && !s.image
    ensures CriteriaOf(Restored(before, CriteriaOf(s))).fileTypes == Some(["video", "sequence", "image"])
  {
    var t := Restored(before, CriteriaOf(s));
    assert t.video && t.sequence && t.image;
    assert CheckedTypes(t) == ["video", "sequence", "image"];
  }

  /** The widget's controls as fields. */
  class Widget {
    var text: string
    var searchType: SearchType
    var video: bool
    var sequence: bool
    var image: bool
    var userFavorites: bool
    var projectFavorites: bool

    function State(): WidgetState
      reads this
    {
      WidgetState(text, searchType, video, sequence, image, userFavorites, projectFavorites)
    }

    constructor()
      ensures State() == Initial
    {
      text, searchType := "", AllFields;
      video, sequence, image := true, true, true;
      userFavorites, projectFavorites := false, false;
    }

    method ResetFilters()
      modifies this
      ensures State() == Reset(old(State()))
    {
      video := true;
      sequence := true;
      image := true;
      userFavorites := false;
      projectFavorites := false;
    }

    /** `clear_search`: empties the text field and resets the filters. */
    method ClearSearch()
      modifies this
      ensures State() == Reset(old(State())).(text := "")
      ensures CriteriaOf(State()).text.None?
    {
      text := "";
      ResetFilters();
      assert IsBlank(text);
    }

    /**
     * `perform_search`: emits the criteria when there are any, otherwise
     * clears the search.
     */
    method PerformSearch() returns (emitted: Option<Criteria>)
      modifies this
      ensures old(CriteriaOf(State())).IsEmpty() ==>
        emitted.None? && State() == Reset(old(State())).(text := "")
      ensures !old(CriteriaOf(State())).IsEmpty() ==>
        emitted == Some(old(CriteriaOf(State()))) && State() == old(State())
    {
      var criteria := CriteriaOf(State());
      if !criteria.IsEmpty() {
        emitted := Some(criteria);
      } else {
        emitted := None;
        ClearSearch();
      }
    }

    method RestoreSearchState(c: Criteria)
      modifies this
      ensures State() == Restored(old(State()), c)
    {
      ResetFilters();
      RestoreText(c);
      RestoreTypes(c);
      RestoreFavorites(c);
    }

    /** The text and search-type part of `restore_search_state`. */
    method RestoreText(c: Criteria)
      modifies this`text, this`searchType
      ensures text == c.text.GetOr("")
      ensures searchType == (if c.searchType.Some? then TypeFromKey(c.searchType.value) else old(searchType))
    {
      if c.text.Some? {
        text := c.text.value;
      } else {
        text := "";  // the stale text is cleared too; see `StaleTextSurvivesRestore`
      }
      if c.searchType.Some? {
        var key := c.searchType.value;
        if key == "name" {
          searchType := ByName;
        } else if key == "path" {
          searchType := ByPath;
        } else {
          searchType := AllFields;
        }
      }
    }

    /** The file-type part of `restore_search_state`. */
    method RestoreTypes(c: Criteria)
      modifies this`video, this`sequence, this`image
      ensures c.fileTypes.None? ==> video == old(video) && sequence == old(sequence) && image == old(image)
      ensures c.fileTypes.Some? ==>
        video == ("video" in c.fileTypes.value) && sequence == ("sequence" in c.fileTypes.value) &&
        image == ("image" in c.fileTypes.value)
    {
      if c.fileTypes.Some? {
        var types := c.fileTypes.value;
        video := "video" in types;
        sequence := "sequence" in types;
        image := "image" in types;
      }
    }

    /** The favorites part of `restore_search_state`, legacy key last. */
    method RestoreFavorites(c: Criteria)
      modifies this`userFavorites, this`projectFavorites
      ensures userFavorites == (c.userFavoritesOnly.GetOr(old(userFavorites)) || c.favoritesOnly.GetOr(false))
      ensures projectFavorites == c.projectFavoritesOnly.GetOr(old(projectFavorites))
    {
      if c.userFavoritesOnly.Some? {
        userFavorites := c.userFavoritesOnly.value;
      }
      if c.projectFavoritesOnly.Some? {
        projectFavorites := c.projectFavoritesOnly.value;
      }
      if c.favoritesOnly.GetOr(false) {
        userFavorites := true;
      }
    }
  }
}
