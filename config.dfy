/**
 * `ConfigurationManager` (`config/manager.py`): the cascade of default,
 * general, project and user layers, dotted `get`/`set`, the user and project
 * favorites kept in the configuration, and the extraction of the settings
 * that belong in the user file.  Files are read through a `disk` parameter;
 * writing files is not modelled.
 */
module Config {
  import opened Wrappers
  import opened Json
  import opened ConfigTree
  import Text
  import Schemas
  import Defaults
  import Paths

  const NotLoaded := "RuntimeError: Configuration not loaded. Call load_configuration() first."

  /** What reading one configuration file yields. */
  datatype ConfigFile = Missing | Unreadable | Parsed(content: Json)

  /** `key.split('.')`. */
  function KeyPath(key: string): (keys: seq<string>)
    ensures |keys| >= 1
  {
    Text.Split(key, '.')
  }

  // ------------------------------------------------------------ layers

  /**
   * A layer file as `load_configuration` takes it: skipped when no path is
   * given or the file does not exist, and skipped (with a warning) when it
   * cannot be read, is not JSON, or is not a JSON object.
   */
  function FileLayer(path: string, disk: string -> ConfigFile): Option<Dict>
  {
    if path == "" then None
    else match disk(path)
      case Parsed(JObj(m)) => Some(m)
      case _ => None
  }

  /** The project layer is also skipped when `validate_project_config` fails. */
  function ProjectLayer(path: string, disk: string -> ConfigFile): Option<Dict>
  {
    match FileLayer(path, disk)
    case Some(m) => if Schemas.ValidateProjectConfig(m).Passed? then Some(m) else None
    case None => None
  }

  /** The user layer is also skipped when `validate_user_config` fails or raises. */
  function UserLayer(path: string, disk: string -> ConfigFile): Option<Dict>
  {
    match FileLayer(path, disk)
    case Some(m) => if Schemas.ValidateUserConfig(m).Passed? then Some(m) else None
    case None => None
  }

  function Apply(base: Dict, layer: Option<Dict>): Dict
  {
    match layer
    case Some(m) => Merged(base, m)
    case None => base
  }

  /** The defaults `base`, then the general, project and user layers that were loaded. */
  function Layered(base: Dict, general: Option<Dict>, project: Option<Dict>, user: Option<Dict>): Dict
  {
    Apply(Apply(Apply(base, general), project), user)
  }

  /** A layer that is absent, or leaves the path alone. */
  ghost predicate Passes(layer: Option<Dict>, keys: seq<string>)
  {
    layer.None? || LeavesPath(layer.value, keys)
  }

  /** A leaf the user layer sets is the final value. */
  lemma UserLayerWins(base: Dict, general: Option<Dict>, project: Option<Dict>, user: Dict, keys: seq<string>, v: Json)
    requires Lookup(JObj(user), keys) == Some(v) && !v.JObj?
    ensures Lookup(JObj(Layered(base, general, project, Some(user))), keys) == Some(v)
  {
    OverrideLeafWins(Apply(Apply(base, general), project), user, keys, v);
  }

  /** A leaf the project layer sets is the final value unless the user layer sets that path. */
  lemma ProjectLayerNext(base: Dict, general: Option<Dict>, project: Dict, user: Option<Dict>, keys: seq<string>, v: Json)
    requires Lookup(JObj(project), keys) == Some(v) && !v.JObj?
    requires Passes(user, keys)
    ensures Lookup(JObj(Layered(base, general, Some(project), user)), keys) == Some(v)
  {
    var below := Apply(base, general);
    OverrideLeafWins(below, project, keys, v);
    if user.Some? {
      BaseKept(Merged(below, project), user.value, keys);
    }
  }

  /** A leaf the general layer sets is the final value unless a later layer sets that path. */
  lemma GeneralLayerNext(base: Dict, general: Dict, project: Option<Dict>, user: Option<Dict>, keys: seq<string>, v: Json)
    requires Lookup(JObj(general), keys) == Some(v) && !v.JObj?
    requires Passes(project, keys) && Passes(user, keys)
    ensures Lookup(JObj(Layered(base, Some(general), project, user)), keys) == Some(v)
  {
    OverrideLeafWins(base, general, keys, v);
    var afterGeneral := Merged(base, general);
    if project.Some? {
      BaseKept(afterGeneral, project.value, keys);
    }
    var afterProject := Apply(afterGeneral, project);
    if user.Some? {
      BaseKept(afterProject, user.value, keys);
    }
  }

  /** A default survives when no loaded layer touches its path. */
  lemma DefaultsLast(base: Dict, general: Option<Dict>, project: Option<Dict>, user: Option<Dict>, keys: seq<string>)
    requires Lookup(JObj(base), keys).Some?
    requires Passes(general, keys) && Passes(project, keys) && Passes(user, keys)
    ensures Lookup(JObj(Layered(base, general, project, user)), keys) == Lookup(JObj(base), keys)
  {
    if general.Some? {
      BaseKept(base, general.value, keys);
    }
    var afterGeneral := Apply(base, general);
    if project.Some? {
      BaseKept(afterGeneral, project.value, keys);
    }
    var afterProject := Apply(afterGeneral, project);
    if user.Some? {
      BaseKept(afterProject, user.value, keys);
    }
  }

  /** Merges one loaded layer into the configuration so far; an absent layer changes nothing. */
  method LoadLayer(base: Dict, layer: Option<Dict>) returns (r: Dict)
    ensures r == Apply(base, layer)
  {
    r := base;
    if layer.Some? {
      r := MergeConfig(base, layer.value);
    }
  }

  /** `_config_paths` keeps every path that was given, and is never cleared. */
  function Recorded(paths: map<string, string>, role: string, path: string): map<string, string>
  {
    if path == "" then paths else paths[role := path]
  }

  // --------------------------------------------------------- favorites

  /** `favorites.user_favorites`, as split by `get` and `set`. */
  const UserFavoritesPath: seq<string> := ["favorites", "user_favorites"]

  /** `favorites.project_favorites`, as split by `get` and `set`. */
  const ProjectFavoritesPath: seq<string> := ["favorites", "project_favorites"]

  /** No entry occurs twice. */
  predicate Distinct(a: seq<Json>)
  {
    forall x :: x in a ==> multiset(a)[x] <= 1
  }

  /** `list.remove`: drops the first occurrence of `x`, if any. */
  function RemoveFirst(a: seq<Json>, x: Json): (r: seq<Json>)
    ensures multiset(r) == multiset(a) - multiset{x}
    ensures x in a ==> |r| == |a| - 1
    ensures x !in a ==> r == a
    ensures Distinct(a) ==> Distinct(r) && x !in r
  {
    if a == [] then []
    else if a[0] == x then
      assert a == [a[0]] + a[1..];
      a[1..]
    else
      var rest := RemoveFirst(a[1..], x);
      KeepHead(a, x, rest);
      RemovedDistinct(a, x, [a[0]] + rest);
      [a[0]] + rest
  }

  /** The step of `RemoveFirst` past a head that is not `x`. */
  lemma KeepHead(a: seq<Json>, x: Json, rest: seq<Json>)
    requires a != [] && a[0] != x
    requires multiset(rest) == multiset(a[1..]) - multiset{x}
    requires x in a[1..] ==> |rest| == |a| - 2
    requires x !in a[1..] ==> rest == a[1..]
    ensures multiset([a[0]] + rest) == multiset(a) - multiset{x}
    ensures x in a ==> |[a[0]] + rest| == |a| - 1
    ensures x !in a ==> [a[0]] + rest == a
  {
    assert a == [a[0]] + a[1..];
    assert multiset([a[0]] + rest) == multiset{a[0]} + multiset(rest);
  }

  /** Removing one `x` from a list without duplicates leaves none, and no `x`. */
  lemma RemovedDistinct(a: seq<Json>, x: Json, r: seq<Json>)
    requires multiset(r) == multiset(a) - multiset{x}
    ensures Distinct(a) ==> Distinct(r) && x !in r
  {
    if Distinct(a) {
      forall y | y in r ensures multiset(r)[y] <= 1 {
        assert y in multiset(r);
        assert multiset(r)[y] <= multiset(a)[y];
        assert y in a;
      }
      if x in a {
        assert multiset(a)[x] <= 1;
      }
      assert multiset(r)[x] == 0;
    }
  }

  /** Appending an absent entry keeps a list free of duplicates. */
  lemma AppendNewKeepsDistinct(a: seq<Json>, x: Json)
    requires Distinct(a) && x !in a
    ensures Distinct(a + [x])
  {
    assert multiset(a + [x]) == multiset(a) + multiset{x};
  }

  /**
   * The user favorites as `get('favorites.user_favorites', [])` sees them:
   * the list, an empty list when absent, or None when the stored value is
   * not a list (appending to or removing from it then fails).
   */
  function UserFavorites(config: Dict): Option<seq<Json>>
  {
    match Lookup(JObj(config), UserFavoritesPath)
    case None => Some([])
    case Some(JArr(a)) => Some(a)
    case Some(_) => None
  }

  /** The project favorites table as `get('favorites.project_favorites', {})` sees it, when it is a dict. */
  function ProjectFavorites(config: Dict): Option<Dict>
  {
    match Lookup(JObj(config), ProjectFavoritesPath)
    case None => Some(map[])
    case Some(JObj(m)) => Some(m)
    case Some(_) => None
  }

  /**
   * `add_project_favorite` on the table: a missing project gets a new list,
   * and `x` is appended when that list does not hold it yet; None when the
   * add is refused.
   */
  function AddToProject(table: Dict, project: string, x: Json): (r: Option<Dict>)
    ensures r.Some? <==> project !in table || (table[project].JArr? && x !in table[project].a)
    ensures r.Some? ==> project in r.value && r.value[project].JArr? && x in r.value[project].a
    ensures r.Some? && project !in table ==> r.value[project].a == [x]
    ensures r.Some? && project in table ==> r.value[project].a == table[project].a + [x]
    ensures r.Some? ==> forall p :: p != project ==> (p in r.value <==> p in table) && (p in table ==> r.value[p] == table[p])
  {
    var entry := if project in table then table[project] else JArr([]);
    if entry.JArr? && x !in entry.a then Some(table[project := JArr(entry.a + [x])]) else None
  }

  /**
   * `remove_project_favorite` on the table: removes `x` from the project's
   * list and drops the project once its list is empty; None when the project
   * has no list holding `x`.
   */
  function RemoveFromProject(table: Dict, project: string, x: Json): (r: Option<Dict>)
    ensures r.Some? <==> project in table && table[project].JArr? && x in table[project].a
    ensures r.Some? ==> (project in r.value <==> |table[project].a| > 1)
    ensures r.Some? && project in r.value ==> r.value[project] == JArr(RemoveFirst(table[project].a, x))
    ensures r.Some? ==> forall p :: p != project ==> (p in r.value <==> p in table) && (p in table ==> r.value[p] == table[p])
  {
    if project in table && table[project].JArr? && x in table[project].a then
      var rest := RemoveFirst(table[project].a, x);
      Some(if rest == [] then table - {project} else table[project := JArr(rest)])
    else None
  }

  /** Every project's list is free of duplicates. */
  predicate DistinctLists(table: Dict)
  {
    forall p :: p in table && table[p].JArr? ==> Distinct(table[p].a)
  }

  /** Adding and removing project favorites keep every list free of duplicates. */
  lemma ProjectListsStayDistinct(table: Dict, project: string, x: Json)
    requires DistinctLists(table)
    ensures AddToProject(table, project, x).Some? ==> DistinctLists(AddToProject(table, project, x).value)
    ensures RemoveFromProject(table, project, x).Some? ==> DistinctLists(RemoveFromProject(table, project, x).value)
  {
    var added := AddToProject(table, project, x);
    if added.Some? && project in table {
      AppendNewKeepsDistinct(table[project].a, x);
    }
  }

  // ------------------------------------------------ user settings

  /**
   * The user-specific keys of `_extract_user_settings`, already split at
   * their dots: `ui`, `favorites.user_favorites`, `external_players.default`,
   * `external_players.players`, `thumbnails.preferred_resolution`,
   * `logging.level` and `session`.
   */
  const UserSpecificKeys: seq<seq<string>> := [
    ["ui"], ["favorites", "user_favorites"], ["external_players", "default"],
    ["external_players", "players"], ["thumbnails", "preferred_resolution"],
    ["logging", "level"], ["session"]]

  /** `get(key)` skipped when it gives None, whether the key is missing or holds None. */
  function NonNull(found: Option<Json>): Option<Json>
  {
    if found.Some? && found.value != JNull then found else None
  }

  /**
   * Every top-level key is a listed one-segment key or the root of listed
   * two-segment keys, holding at least one of them (a root is created only
   * to receive a value).
   */
  predicate OnlyListed(settings: Dict)
  {
    forall k :: k in settings ==>
      [k] in UserSpecificKeys ||
      (settings[k].JObj? && settings[k].m != map[] && forall k2 :: k2 in settings[k].m ==> [k, k2] in UserSpecificKeys)
  }

  /** The listed keys pairwise diverge: none is a prefix of another. */
  lemma UserKeysDiverge(i: nat, j: nat)
    requires i < |UserSpecificKeys| && j < |UserSpecificKeys| && i != j
    ensures Diverge(UserSpecificKeys[i], UserSpecificKeys[j])
  {
  }

  /** Every listed key has one or two segments, and a two-segment key's root is not itself listed. */
  lemma UserKeyShape(i: nat)
    requires i < |UserSpecificKeys|
    ensures |UserSpecificKeys[i]| == 1 || |UserSpecificKeys[i]| == 2
    ensures |UserSpecificKeys[i]| == 2 ==> [UserSpecificKeys[i][0]] !in UserSpecificKeys
  {
  }

  /**
   * `_extract_user_settings`: each listed key whose value is not None is
   * copied to the same place in a new dict.
   */
  method ExtractUserSettings(config: Dict) returns (settings: Dict)
    ensures forall i :: 0 <= i < |UserSpecificKeys| ==>
              Lookup(JObj(settings), UserSpecificKeys[i]) == NonNull(Lookup(JObj(config), UserSpecificKeys[i]))
    ensures OnlyListed(settings)
  {
    settings := map[];
    var i := 0;
    while i < |UserSpecificKeys|
      invariant 0 <= i <= |UserSpecificKeys|
      invariant forall j :: 0 <= j < i ==>
                  Lookup(JObj(settings), UserSpecificKeys[j]) == NonNull(Lookup(JObj(config), UserSpecificKeys[j]))
      invariant forall j :: i <= j < |UserSpecificKeys| ==> Lookup(JObj(settings), UserSpecificKeys[j]).None?
      invariant OnlyListed(settings)
    {
      var keys := UserSpecificKeys[i];
      var value := Lookup(JObj(config), keys);
      if value.Some? && value.value != JNull {
        var next := SetUserKey(settings, i, value.value);
        settings := next;
      }
      i := i + 1;
    }
  }

  /** One step of the extraction: writes listed key `i` and nothing else. */
  method SetUserKey(settings: Dict, i: nat, value: Json) returns (next: Dict)
    requires i < |UserSpecificKeys|
    requires OnlyListed(settings)
    ensures SetPath(settings, UserSpecificKeys[i], value).Ok? && next == SetPath(settings, UserSpecificKeys[i], value).value
    ensures Lookup(JObj(next), UserSpecificKeys[i]) == Some(value)
    ensures forall j :: 0 <= j < |UserSpecificKeys| && j != i ==>
              Lookup(JObj(next), UserSpecificKeys[j]) == Lookup(JObj(settings), UserSpecificKeys[j])
    ensures OnlyListed(next)
  {
    var keys := UserSpecificKeys[i];
    UserKeyShape(i);
    var k := keys[0];
    if |keys| == 1 {
      next := settings[k := value];
      assert [k] == keys;
      ListedAfterSet(settings, k, value);
    } else {
      // The root is not a listed key, so if present it is a dict of listed keys.
      var child := if k in settings then settings[k].m else map[];
      next := settings[k := JObj(child[keys[1] := value])];
      assert keys[1..] == [keys[1]];
      assert [k, keys[1]] == keys;
      ListedAfterSet(settings, k, JObj(child[keys[1] := value]));
    }
    GetAfterSet(settings, keys, value);
    forall j | 0 <= j < |UserSpecificKeys| && j != i
      ensures Lookup(JObj(next), UserSpecificKeys[j]) == Lookup(JObj(settings), UserSpecificKeys[j])
    {
      UserKeysDiverge(i, j);
      SetLeavesOthers(settings, keys, value, UserSpecificKeys[j]);
    }
  }

  /** Setting a listed key, or a non-empty root of listed keys, keeps the settings listed. */
  lemma ListedAfterSet(settings: Dict, k: string, v: Json)
    requires OnlyListed(settings)
    requires [k] in UserSpecificKeys || (v.JObj? && v.m != map[] && forall k2 :: k2 in v.m ==> [k, k2] in UserSpecificKeys)
    ensures OnlyListed(settings[k := v])
  {
  }

  // ------------------------------------------------------------ manager

  class ConfigurationManager {
    /** `DEFAULT_CONFIG`, the layer every load starts from. */
    const defaults: Dict
    var config: Dict
    var configPaths: map<string, string>
    var loaded: bool

    constructor()
      ensures defaults == Defaults.Config
      ensures config == map[] && configPaths == map[] && !loaded
    {
      defaults := Defaults.Config;
      config := map[];
      configPaths := map[];
      loaded := false;
    }

    /**
     * `load_configuration`: start again from the defaults, record the paths
     * given, merge the general, project and user layers in that order, then
     * validate the result.  A failed validation raises, leaving the merged
     * configuration in place but the loaded flag as it was.
     */
    method LoadConfiguration(general: string, project: string, user: string,
                             disk: string -> ConfigFile, env: Schemas.Env)
      returns (r: Result<Dict>)
      modifies this`config, this`configPaths, this`loaded
      ensures config == Layered(defaults, FileLayer(general, disk), ProjectLayer(project, disk), UserLayer(user, disk))
      ensures configPaths == Recorded(Recorded(Recorded(old(configPaths), "general", general), "project", project), "user", user)
      ensures r.Ok? <==> Schemas.ValidateConfig(config, env).Passed?
      ensures r.Ok? ==> r.value == config && loaded
      ensures r.Err? ==> loaded == old(loaded)
    {
      RecordPaths(general, project, user);
      var merged := LoadLayer(defaults, FileLayer(general, disk));
      merged := LoadLayer(merged, ProjectLayer(project, disk));
      merged := LoadLayer(merged, UserLayer(user, disk));
      r := Commit(merged, env);
    }

    /** Installs a merged configuration and validates it; only a passing one marks the manager loaded. */
    method Commit(merged: Dict, env: Schemas.Env) returns (r: Result<Dict>)
      modifies this`config, this`loaded
      ensures config == merged
      ensures r.Ok? <==> Schemas.ValidateConfig(merged, env).Passed?
      ensures r.Ok? ==> r.value == merged && loaded
      ensures r.Err? ==> loaded == old(loaded)
    {
      config := merged;
      var verdict := Schemas.ValidateConfig(merged, env);
      if !verdict.Passed? {
        return Err(verdict.message);
      }
      loaded := true;
      return Ok(merged);
    }

    /** Records every configuration path that was given. */
    method RecordPaths(general: string, project: string, user: string)
      modifies this`configPaths
      ensures configPaths == Recorded(Recorded(Recorded(old(configPaths), "general", general), "project", project), "user", user)
    {
      configPaths := Recorded(Recorded(Recorded(configPaths, "general", general), "project", project), "user", user);
    }

    /** `get`: walks the dotted key through dicts, giving `default` where the walk stops. */
    method Get(key: string, default: Json) returns (r: Result<Json>)
      ensures !loaded ==> r == Err(NotLoaded)
      ensures loaded ==> r == Ok(Lookup(JObj(config), KeyPath(key)).GetOr(default))
    {
      if !loaded {
        return Err(NotLoaded);
      }
      var keys := KeyPath(key);
      var value := JObj(config);
      var i := 0;
      while i < |keys|
        invariant 0 <= i <= |keys|
        invariant Lookup(JObj(config), keys) == Lookup(value, keys[i..])
      {
        if value.JObj? && keys[i] in value.m {
          assert keys[i..][1..] == keys[i + 1..];
          value := value.m[keys[i]];
        } else {
          return Ok(default);
        }
        i := i + 1;
      }
      return Ok(value);
    }

    /**
     * `set` without persisting: creates missing intermediate dicts and
     * assigns the last key; a non-dict intermediate raises TypeError and
     * leaves the configuration as it was.
     */
    method Set(key: string, value: Json) returns (r: Result<Dict>)
      modifies this`config
      ensures !loaded ==> r == Err(NotLoaded) && config == old(config)
      ensures loaded ==> r == SetPath(old(config), KeyPath(key), value)
      ensures r.Ok? ==> config == r.value && Lookup(JObj(config), KeyPath(key)) == Some(value)
      ensures r.Err? ==> config == old(config)
    {
      if !loaded {
        return Err(NotLoaded);
      }
      var keys := KeyPath(key);
      r := SetPath(config, keys, value);
      if r.Ok? {
        GetAfterSet(config, keys, value);
        config := r.value;
      }
    }

    /** `is_user_favorite`: `path in get('favorites.user_favorites', [])`, False on any error. */
    function IsUserFavorite(path: string): (r: bool)
      reads this
      ensures r ==> loaded
      ensures loaded && UserFavorites(config).Some? ==> (r <==> JStr(path) in UserFavorites(config).value)
    {
      loaded &&
      match Lookup(JObj(config), UserFavoritesPath)
      case None => false
      case Some(v) => ContainsStr(v, path) == Ok(true)
    }

    /** `add_user_favorite`: appends an absent path; True iff it was appended. */
    method AddUserFavorite(path: string) returns (added: bool)
      modifies this`config
      ensures added <==> loaded && UserFavorites(old(config)).Some? && JStr(path) !in UserFavorites(old(config)).value
                         && SetPath(old(config), UserFavoritesPath, JArr(UserFavorites(old(config)).value + [JStr(path)])).Ok?
      ensures added ==> UserFavorites(config) == Some(UserFavorites(old(config)).value + [JStr(path)]) && IsUserFavorite(path)
      ensures added ==> forall keys :: Diverge(UserFavoritesPath, keys) ==> Lookup(JObj(config), keys) == Lookup(JObj(old(config)), keys)
      ensures !added ==> config == old(config)
    {
      if !loaded {
        return false;
      }
      var favorites := UserFavorites(config);
      if favorites.None? || JStr(path) in favorites.value {
        return false;
      }
      var grown := JArr(favorites.value + [JStr(path)]);
      var result := SetPath(config, UserFavoritesPath, grown);
      if result.Err? {
        return false;
      }
      GetAfterSet(config, UserFavoritesPath, grown);
      forall keys | Diverge(UserFavoritesPath, keys)
        ensures Lookup(JObj(result.value), keys) == Lookup(JObj(config), keys)
      {
        SetLeavesOthers(config, UserFavoritesPath, grown, keys);
      }
      config := result.value;
      return true;
    }

    /** `remove_user_favorite`: removes the first occurrence of a present path; True iff it was present. */
    method RemoveUserFavorite(path: string) returns (removed: bool)
      modifies this`config
      ensures removed <==> loaded && UserFavorites(old(config)).Some? && JStr(path) in UserFavorites(old(config)).value
      ensures removed ==> UserFavorites(config) == Some(RemoveFirst(UserFavorites(old(config)).value, JStr(path)))
      ensures removed ==> forall keys :: Diverge(UserFavoritesPath, keys) ==> Lookup(JObj(config), keys) == Lookup(JObj(old(config)), keys)
      ensures !removed ==> config == old(config)
    {
      if !loaded {
        return false;
      }
      var favorites := UserFavorites(config);
      if favorites.None? || JStr(path) !in favorites.value {
        return false;
      }
      // A list holding the path was found, so the path runs through dicts.
      var shrunk := JArr(RemoveFirst(favorites.value, JStr(path)));
      SetWhereFound(config, UserFavoritesPath, shrunk);
      var result := SetPath(config, UserFavoritesPath, shrunk);
      GetAfterSet(config, UserFavoritesPath, shrunk);
      forall keys | Diverge(UserFavoritesPath, keys)
        ensures Lookup(JObj(result.value), keys) == Lookup(JObj(config), keys)
      {
        SetLeavesOthers(config, UserFavoritesPath, shrunk, keys);
      }
      config := result.value;
      return true;
    }

    /** `is_project_favorite`: the table holds the project and its entry holds the path; False on any error. */
    function IsProjectFavorite(path: string, project: string): (r: bool)
      reads this
      ensures r ==> loaded && ProjectFavorites(config).Some? && project in ProjectFavorites(config).value
      ensures loaded && ProjectFavorites(config).Some? && project in ProjectFavorites(config).value
              && ProjectFavorites(config).value[project].JArr? ==>
                (r <==> JStr(path) in ProjectFavorites(config).value[project].a)
    {
      loaded &&
      match Lookup(JObj(config), ProjectFavoritesPath)
      case None => false
      case Some(table) =>
        ContainsStr(table, project) == Ok(true) && table.JObj? && ContainsStr(table.m[project], path) == Ok(true)
    }

    /** `add_project_favorite`, without writing the project file. */
    method AddProjectFavorite(path: string, project: string) returns (added: bool)
      modifies this`config
      ensures added <==> loaded && ProjectFavorites(old(config)).Some?
                         && AddToProject(ProjectFavorites(old(config)).value, project, JStr(path)).Some?
                         && SetPath(old(config), ProjectFavoritesPath,
                                    JObj(AddToProject(ProjectFavorites(old(config)).value, project, JStr(path)).value)).Ok?
      ensures added ==> ProjectFavorites(config) == AddToProject(ProjectFavorites(old(config)).value, project, JStr(path))
      ensures added ==> IsProjectFavorite(path, project)
      ensures !added ==> config == old(config)
    {
      if !loaded {
        return false;
      }
      var table := ProjectFavorites(config);
      if table.None? {
        return false;
      }
      var grown := AddToProject(table.value, project, JStr(path));
      if grown.None? {
        return false;
      }
      var result := SetPath(config, ProjectFavoritesPath, JObj(grown.value));
      if result.Err? {
        return false;
      }
      GetAfterSet(config, ProjectFavoritesPath, JObj(grown.value));
      config := result.value;
      return true;
    }

    /** `remove_project_favorite`, without writing the project file. */
    method RemoveProjectFavorite(path: string, project: string) returns (removed: bool)
      modifies this`config
      ensures removed <==> loaded && ProjectFavorites(old(config)).Some?
                           && RemoveFromProject(ProjectFavorites(old(config)).value, project, JStr(path)).Some?
      ensures removed ==> ProjectFavorites(config) == RemoveFromProject(ProjectFavorites(old(config)).value, project, JStr(path))
      ensures !removed ==> config == old(config)
    {
      if !loaded {
        return false;
      }
      var table := ProjectFavorites(config);
      if table.None? {
        return false;
      }
      var shrunk := RemoveFromProject(table.value, project, JStr(path));
      if shrunk.None? {
        return false;
      }
      // The table holds the project, so it was found and its path runs through dicts.
      SetWhereFound(config, ProjectFavoritesPath, JObj(shrunk.value));
      var result := SetPath(config, ProjectFavoritesPath, JObj(shrunk.value));
      GetAfterSet(config, ProjectFavoritesPath, JObj(shrunk.value));
      config := result.value;
      return true;
    }
  }

  // ------------------------------------------------------- the defaults

  /** Where `validate_config` finds each section of an assembled configuration. */
  lemma SectionsOf(rest: Dict, s: Defaults.Sections)
    ensures var config := Defaults.ConfigOf(rest, s);
            && Schemas.Section(config, "paths") == JObj(s.paths)
            && Schemas.Section(config, "ffmpeg") == JObj(s.ffmpeg)
            && Schemas.Section(config, "database") == JObj(s.database)
            && Schemas.Section(config, "ui") == JObj(s.ui)
            && Schemas.Section(config, "sequence_detection") == JObj(s.sequenceDetection)
            && Schemas.Section(config, "metadata") == JObj(s.metadata)
            && Schemas.Section(config, "external_players") == JObj(s.externalPlayers)
            && Schemas.Section(config, "color_management") == JObj(s.colorManagement)
            && Schemas.Section(config, "logging") == JObj(s.logging)
  {
  }

  /** A configuration whose ui section fails never passes. */
  lemma UiFailureFails(rest: Dict, s: Defaults.Sections, env: Schemas.Env)
    requires !Schemas.ValidateUi(JObj(s.ui)).Passed?
    ensures !Schemas.ValidateConfig(Defaults.ConfigOf(rest, s), env).Passed?
  {
    SectionsOf(rest, s);
    Schemas.UiSectionFailureFails(Defaults.ConfigOf(rest, s), env);
  }

  /** The first four validated sections pass their validators. */
  predicate CorePass(paths: Dict, ffmpeg: Dict, database: Dict, ui: Dict, env: Schemas.Env)
  {
    && Schemas.ValidatePaths(JObj(paths), env).Passed?
    && Schemas.ValidateFfmpeg(JObj(ffmpeg)).Passed?
    && Schemas.ValidateDatabase(JObj(database), env).Passed?
    && Schemas.ValidateUi(JObj(ui)).Passed?
  }

  /** The other five validated sections pass their validators. */
  predicate OthersPass(sequenceDetection: Dict, metadata: Dict, externalPlayers: Dict,
                       colorManagement: Dict, logging: Dict, env: Schemas.Env)
  {
    && Schemas.ValidateSequenceDetection(JObj(sequenceDetection), env).Passed?
    && Schemas.ValidateMetadata(JObj(metadata)).Passed?
    && Schemas.ValidateExternalPlayers(JObj(externalPlayers)).Passed?
    && Schemas.ValidateColorManagement(JObj(colorManagement), env).Passed?
    && Schemas.ValidateLogging(JObj(logging)).Passed?
  }

  /** Each of the nine validated sections passes its validator. */
  predicate SectionsPass(s: Defaults.Sections, env: Schemas.Env)
  {
    && CorePass(s.paths, s.ffmpeg, s.database, s.ui, env)
    && OthersPass(s.sequenceDetection, s.metadata, s.externalPlayers, s.colorManagement, s.logging, env)
  }

  /** A configuration whose nine sections pass, passes. */
  lemma SectionsPassingPass(rest: Dict, s: Defaults.Sections, env: Schemas.Env)
    requires SectionsPass(s, env)
    ensures Schemas.ValidateConfig(Defaults.ConfigOf(rest, s), env).Passed?
  {
    SectionsOf(rest, s);
    Schemas.EverySectionPasses(Defaults.ConfigOf(rest, s), env);
  }

  /** A theme outside light, dark and auto fails the ui validator. */
  lemma ThemeRejected(others: Dict, geometry: Dict, theme: string)
    requires theme !in Schemas.Themes
    ensures !Schemas.ValidateUi(JObj(Defaults.UiOf(others, geometry, theme))).Passed?
  {
  }

  /**
   * The shipped defaults never pass `validate_config`, whatever the
   * filesystem: their theme is a file name.  So loading with no
   * configuration files raises.
   */
  lemma ShippedDefaultsRejected(env: Schemas.Env)
    ensures !Schemas.ValidateConfig(Defaults.ShippedConfig, env).Passed?
  {
    ThemeRejected(Defaults.UiOthers, Defaults.WindowGeometry, "dark_blue.xml");
    UiFailureFails(Defaults.Unvalidated, Defaults.DefaultSections(Defaults.ShippedUi), env);
  }

  /** A ui section with an accepted theme and a full geometry passes. */
  lemma UiAccepted(others: Dict, geometry: Dict, theme: string)
    requires theme in Schemas.Themes && Schemas.Geometry(JObj(geometry))
    ensures Schemas.ValidateUi(JObj(Defaults.UiOf(others, geometry, theme))).Passed?
  {
  }

  lemma GeometryPasses()
    ensures Schemas.Geometry(JObj(Defaults.WindowGeometry))
  {
    var g := Defaults.WindowGeometry;
    assert forall i :: 0 <= i < |Schemas.GeometryKeys| ==> Schemas.GeometryKeys[i] in g && IsInt(g[Schemas.GeometryKeys[i]]);
  }

  lemma PathsPass(env: Schemas.Env)
    requires env.pathExists(Defaults.ProjectDir) || env.makeDirs(Defaults.ProjectDir)
    requires env.pathExists(Defaults.UserDir) || env.makeDirs(Defaults.UserDir)
    ensures Schemas.ValidatePaths(JObj(Defaults.Paths), env).Passed?
  {
  }

  lemma FfmpegPasses()
    ensures Schemas.ValidateFfmpeg(JObj(Defaults.Ffmpeg)).Passed?
  {
  }

  lemma DatabasePasses(env: Schemas.Env)
    requires env.makeDirs(Paths.Parent(Defaults.GenDir + "/database"))
    ensures Schemas.ValidateDatabase(JObj(Defaults.Database), env).Passed?
  {
  }

  lemma SequenceDetectionPasses(env: Schemas.Env)
    requires forall i :: 0 <= i < |Defaults.SequencePatterns| ==> env.compiles(Defaults.SequencePatterns[i])
    ensures Schemas.ValidateSequenceDetection(JObj(Defaults.SequenceDetection), env).Passed?
  {
  }

  lemma MetadataPasses()
    ensures Schemas.ValidateMetadata(JObj(Defaults.Metadata)).Passed?
  {
  }

  lemma PlayersPass()
    ensures Schemas.ValidateExternalPlayers(JObj(Defaults.ExternalPlayers)).Passed?
  {
  }

  lemma ColorManagementPasses(env: Schemas.Env)
    ensures Schemas.ValidateColorManagement(JObj(Defaults.ColorManagement), env).Passed?
  {
  }

  lemma LoggingPasses()
    ensures Schemas.ValidateLogging(JObj(Defaults.Logging)).Passed?
  {
  }

  /** The corrected paths, ffmpeg, database and ui sections pass. */
  lemma DefaultCorePass(env: Schemas.Env)
    requires env.pathExists(Defaults.ProjectDir) || env.makeDirs(Defaults.ProjectDir)
    requires env.pathExists(Defaults.UserDir) || env.makeDirs(Defaults.UserDir)
    requires env.makeDirs(Paths.Parent(Defaults.GenDir + "/database"))
    ensures CorePass(Defaults.Paths, Defaults.Ffmpeg, Defaults.Database, Defaults.Ui, env)
  {
    GeometryPasses();
    UiAccepted(Defaults.UiOthers, Defaults.WindowGeometry, "dark");
    PathsPass(env);
    FfmpegPasses();
    DatabasePasses(env);
  }

  /** The shipped sequence detection, metadata, players, color management and logging sections pass. */
  lemma DefaultOthersPass(env: Schemas.Env)
    requires forall i :: 0 <= i < |Defaults.SequencePatterns| ==> env.compiles(Defaults.SequencePatterns[i])
    ensures OthersPass(Defaults.SequenceDetection, Defaults.Metadata, Defaults.ExternalPlayers,
                       Defaults.ColorManagement, Defaults.Logging, env)
  {
    SequenceDetectionPasses(env);
    MetadataPasses();
    PlayersPass();
    ColorManagementPasses(env);
    LoggingPasses();
  }

  /** The corrected validated sections pass, whatever the unvalidated sections beside them. */
  lemma DefaultSectionsPass(rest: Dict, env: Schemas.Env)
    requires env.pathExists(Defaults.ProjectDir) || env.makeDirs(Defaults.ProjectDir)
    requires env.pathExists(Defaults.UserDir) || env.makeDirs(Defaults.UserDir)
    requires env.makeDirs(Paths.Parent(Defaults.GenDir + "/database"))
    requires forall i :: 0 <= i < |Defaults.SequencePatterns| ==> env.compiles(Defaults.SequencePatterns[i])
    ensures Schemas.ValidateConfig(Defaults.ConfigOf(rest, Defaults.DefaultSections(Defaults.Ui)), env).Passed?
  {
    DefaultCorePass(env);
    DefaultOthersPass(env);
    SectionsPassingPass(rest, Defaults.DefaultSections(Defaults.Ui), env);
  }

  /**
   * With the theme `"dark"` the defaults pass `validate_config` on any
   * filesystem where the two configuration directories and the database
   * directory are usable and the three shipped patterns compile.
   */
  lemma DefaultsPass(env: Schemas.Env)
    requires env.pathExists(Defaults.ProjectDir) || env.makeDirs(Defaults.ProjectDir)
    requires env.pathExists(Defaults.UserDir) || env.makeDirs(Defaults.UserDir)
    requires env.makeDirs(Paths.Parent(Defaults.GenDir + "/database"))
    requires forall i :: 0 <= i < |Defaults.SequencePatterns| ==> env.compiles(Defaults.SequencePatterns[i])
    ensures Schemas.ValidateConfig(Defaults.Config, env).Passed?
  {
    DefaultSectionsPass(Defaults.Unvalidated, env);
  }
}
