/**
 * The configuration validators of `config/schemas.py`.  Each validator
 * looks at one section of the merged configuration and either returns,
 * raises `ConfigValidationError`, or raises another exception when the
 * section is not the container it expects (Python's `in` and indexing
 * raise `TypeError` on other values).  Every check on an optional key is
 * skipped when the key is absent.
 */
module Schemas {
  import opened Wrappers
  import opened Json
  import Text
  import Paths

  /** What a validator does: return, raise `ConfigValidationError`, or raise something else. */
  datatype Verdict = Passed | Rejected(message: string) | Raised(message: string)

  /** The filesystem and the regex compiler, as the validators see them. */
  datatype Env = Env(
    pathExists: string -> bool, // `Path(p).exists()`
    makeDirs: string -> bool,   // `Path(p).mkdir(parents=True, exist_ok=True)` succeeds
    compiles: string -> bool)   // `re.compile(p)` succeeds

  const TypeErrorMessage := "TypeError: argument is not a container"

  /** The first verdict that is not a pass, as sequential checks report it. */
  function Then(a: Verdict, b: Verdict): (r: Verdict)
    ensures r.Passed? <==> a.Passed? && b.Passed?
    ensures !a.Passed? ==> r == a
  {
    if a.Passed? then b else a
  }

  /**
   * One optional key: skipped when `found` (the answer of `key in section`
   * and `section[key]`) says the key is absent, passed when `valid`,
   * otherwise rejected with `message`.
   */
  function Optional(found: Option<Option<Json>>, valid: bool, message: string): (r: Verdict)
    ensures r.Passed? <==> found.Some? && (found.value.Some? ==> valid)
    ensures r.Raised? <==> found.None?
  {
    match found
    case None => Raised(TypeErrorMessage)
    case Some(None) => Passed
    case Some(Some(_)) => if valid then Passed else Rejected(message)
  }

  /** The value under `key` when the lookup found one, `JNull` otherwise (then unused). */
  function Found(found: Option<Option<Json>>): Json
  {
    if found.Some? && found.value.Some? then found.value.value else JNull
  }

  /** `config.get(name, {})` on the merged configuration. */
  function Section(config: map<string, Json>, name: string): Json
  {
    if name in config then config[name] else JObj(map[])
  }



  /** `v in values` for a list of strings: only a str can be equal to one. */
  predicate OneOf(v: Json, values: set<string>) { v.JStr? && v.s in values }

  /** `isinstance(v, int)` and `lo <= v <= hi`. */
  predicate IntIn(v: Json, lo: int, hi: int) { IsInt(v) && lo <= IntValue(v) && IntValue(v) <= hi }

  /** `isinstance(v, int)` and `v >= lo`. */
  predicate IntAtLeast(v: Json, lo: int) { IsInt(v) && IntValue(v) >= lo }

  // ------------------------------------------------------------ paths

  /** A required path: present, a str, and existing or creatable. */
  function RequiredPath(paths: Json, key: string, env: Env): (r: Verdict)
    ensures paths.JObj? ==>
              (r.Passed? <==> key in paths.m && paths.m[key].JStr?
                              && (env.pathExists(paths.m[key].s) || env.makeDirs(paths.m[key].s)))
  {
    match Member(paths, key)
    case None => Raised(TypeErrorMessage)
    case Some(None) => Rejected("Missing required path: " + key)
    case Some(Some(v)) =>
      if !v.JStr? then Rejected("Path " + key + " must be a string")
      else if env.pathExists(v.s) || env.makeDirs(v.s) then Passed
      else Rejected("Cannot access or create path " + key)
  }

  /** `_validate_paths`: both configuration paths must be strings naming usable directories. */
  function ValidatePaths(paths: Json, env: Env): (r: Verdict)
    ensures paths.JObj? ==>
              (r.Passed? <==> RequiredPath(paths, "project_config_path", env).Passed?
                              && RequiredPath(paths, "user_config_path", env).Passed?)
  {
    Then(RequiredPath(paths, "project_config_path", env), RequiredPath(paths, "user_config_path", env))
  }

  // ------------------------------------------------------------ ffmpeg

  predicate PositiveNumber(v: Json) { IsNumber(v) && NumValue(v) > 0.0 }

  predicate ProcessCount(v: Json) { IntIn(v, 1, 16) }

  /** `_validate_ffmpeg`: a str executable, a positive timeout, and 1 to 16 processes. */
  function ValidateFfmpeg(ffmpeg: Json): (r: Verdict)
    ensures ffmpeg.JObj? ==>
              (r.Passed? <==>
                 && ("executable_path" in ffmpeg.m ==> ffmpeg.m["executable_path"].JStr?)
                 && ("timeout" in ffmpeg.m ==> PositiveNumber(ffmpeg.m["timeout"]))
                 && ("max_concurrent_processes" in ffmpeg.m ==> ProcessCount(ffmpeg.m["max_concurrent_processes"])))
  {
    var executable := Member(ffmpeg, "executable_path");
    var timeout := Member(ffmpeg, "timeout");
    var processes := Member(ffmpeg, "max_concurrent_processes");
    Then(Optional(executable, Found(executable).JStr?, "ffmpeg executable_path must be a string"),
    Then(Optional(timeout, PositiveNumber(Found(timeout)), "ffmpeg timeout must be a positive number"),
         Optional(processes, ProcessCount(Found(processes)), "max_concurrent_processes must be between 1 and 16")))
  }

  // ---------------------------------------------------------- database

  /** The database path must be a str whose parent directory can be created. */
  function DatabasePath(database: Json, env: Env): (r: Verdict)
    ensures database.JObj? ==>
              (r.Passed? <==> ("path" in database.m ==>
                                 database.m["path"].JStr? && env.makeDirs(Paths.Parent(database.m["path"].s))))
  {
    match Member(database, "path")
    case None => Raised(TypeErrorMessage)
    case Some(None) => Passed
    case Some(Some(v)) =>
      if !v.JStr? then Rejected("database path must be a string")
      else if env.makeDirs(Paths.Parent(v.s)) then Passed
      else Rejected("Cannot access database directory")
  }

  predicate BackupCount(v: Json) { IntAtLeast(v, 0) }

  /** `_validate_database`: a usable path and a non-negative integer `max_backups`. */
  function ValidateDatabase(database: Json, env: Env): (r: Verdict)
    ensures database.JObj? ==>
              (r.Passed? <==> DatabasePath(database, env).Passed?
                              && ("max_backups" in database.m ==> BackupCount(database.m["max_backups"])))
  {
    var backups := Member(database, "max_backups");
    Then(DatabasePath(database, env),
         Optional(backups, BackupCount(Found(backups)), "max_backups must be a non-negative integer"))
  }

  // ---------------------------------------------------------------- ui

  const Themes: set<string> := {"light", "dark", "auto"}
  const ViewModes: set<string> := {"grid", "list", "advanced"}
  const GeometryKeys: seq<string> := ["width", "height", "x", "y"]




  /** Each listed key must be in `geometry` and hold an int, checked in order. */
  function GeometryFrom(geometry: Json, keys: seq<string>): (r: Verdict)
    ensures geometry.JObj? ==>
              (r.Passed? <==> forall i :: 0 <= i < |keys| ==> keys[i] in geometry.m && IsInt(geometry.m[keys[i]]))
  {
    if keys == [] then Passed
    else
      var here := match Member(geometry, keys[0])
        case None => Raised(TypeErrorMessage)
        case Some(None) => Rejected("window_geometry missing required key: " + keys[0])
        case Some(Some(v)) => if IsInt(v) then Passed else Rejected("window_geometry " + keys[0] + " must be an integer");
      Then(here, GeometryFrom(geometry, keys[1..]))
  }

  /** `window_geometry` holds int `width`, `height`, `x` and `y`. */
  predicate Geometry(geometry: Json)
  {
    GeometryFrom(geometry, GeometryKeys).Passed?
  }

  /** `_validate_ui`: a known theme and view mode, a thumbnail size in [32, 512], and a full geometry. */
  function ValidateUi(ui: Json): (r: Verdict)
    ensures ui.JObj? ==>
              (r.Passed? <==>
                 && ("theme" in ui.m ==> OneOf(ui.m["theme"], Themes))
                 && ("default_view_mode" in ui.m ==> OneOf(ui.m["default_view_mode"], ViewModes))
                 && ("thumbnail_size" in ui.m ==> IntIn(ui.m["thumbnail_size"], 32, 512))
                 && ("window_geometry" in ui.m ==> Geometry(ui.m["window_geometry"])))
  {
    var theme := Member(ui, "theme");
    var mode := Member(ui, "default_view_mode");
    var size := Member(ui, "thumbnail_size");
    Then(Optional(theme, OneOf(Found(theme), Themes), "theme must be one of: light, dark, auto"),
    Then(Optional(mode, OneOf(Found(mode), ViewModes), "default_view_mode must be one of: grid, list, advanced"),
    Then(Optional(size, IntIn(Found(size), 32, 512), "thumbnail_size must be between 32 and 512"),
         GeometryVerdict(ui))))
  }

  /** The geometry check: skipped when absent, and its own verdict otherwise. */
  function GeometryVerdict(ui: Json): (r: Verdict)
    ensures ui.JObj? ==> (r.Passed? <==> ("window_geometry" in ui.m ==> Geometry(ui.m["window_geometry"])))
  {
    match Member(ui, "window_geometry")
    case None => Raised(TypeErrorMessage)
    case Some(None) => Passed
    case Some(Some(g)) => GeometryFrom(g, GeometryKeys)
  }

  // ------------------------------------------------ sequence detection

  /** Each pattern must be a str that compiles, checked in order. */
  function PatternsFrom(patterns: seq<Json>, env: Env): (r: Verdict)
    ensures r.Passed? <==> forall i :: 0 <= i < |patterns| ==> patterns[i].JStr? && env.compiles(patterns[i].s)
    ensures !r.Raised?
  {
    if patterns == [] then Passed
    else
      var here := if !patterns[0].JStr? then Rejected("sequence patterns must be strings")
                  else if env.compiles(patterns[0].s) then Passed
                  else Rejected("Invalid regex pattern '" + patterns[0].s + "'");
      Then(here, PatternsFrom(patterns[1..], env))
  }

  /** `default_patterns` is a list of strings that compile. */
  predicate Patterns(v: Json, env: Env)
  {
    v.JArr? && PatternsFrom(v.a, env).Passed?
  }



  /** `_validate_sequence_detection`: compilable patterns, a positive minimum length and a non-negative gap. */
  function ValidateSequenceDetection(sequence: Json, env: Env): (r: Verdict)
    ensures sequence.JObj? ==>
              (r.Passed? <==>
                 && ("default_patterns" in sequence.m ==> Patterns(sequence.m["default_patterns"], env))
                 && ("min_sequence_length" in sequence.m ==> IntAtLeast(sequence.m["min_sequence_length"], 1))
                 && ("max_gap_frames" in sequence.m ==> IntAtLeast(sequence.m["max_gap_frames"], 0)))
  {
    var patterns := match Member(sequence, "default_patterns")
      case None => Raised(TypeErrorMessage)
      case Some(None) => Passed
      case Some(Some(v)) => if !v.JArr? then Rejected("default_patterns must be a list") else PatternsFrom(v.a, env);
    var minLength := Member(sequence, "min_sequence_length");
    var maxGap := Member(sequence, "max_gap_frames");
    Then(patterns,
    Then(Optional(minLength, IntAtLeast(Found(minLength), 1), "min_sequence_length must be a positive integer"),
         Optional(maxGap, IntAtLeast(Found(maxGap), 0), "max_gap_frames must be a non-negative integer")))
  }

  // ---------------------------------------------------------- metadata

  const ExportFormats: set<string> := {"json", "csv", "xml", "yaml"}

  /** `export_formats` is a list whose every entry is a known format. */
  predicate Formats(v: Json)
  {
    v.JArr? && forall i :: 0 <= i < |v.a| ==> OneOf(v.a[i], ExportFormats)
  }

  /** `_validate_metadata`: known export formats and a list of custom fields. */
  function ValidateMetadata(metadata: Json): (r: Verdict)
    ensures metadata.JObj? ==>
              (r.Passed? <==>
                 && ("export_formats" in metadata.m ==> Formats(metadata.m["export_formats"]))
                 && ("custom_fields" in metadata.m ==> metadata.m["custom_fields"].JArr?))
  {
    var formats := match Member(metadata, "export_formats")
      case None => Raised(TypeErrorMessage)
      case Some(None) => Passed
      case Some(Some(v)) =>
        if !v.JArr? then Rejected("export_formats must be a list")
        else if Formats(v) then Passed
        else Rejected("Invalid export format");
    var fields := Member(metadata, "custom_fields");
    Then(formats, Optional(fields, Found(fields).JArr?, "custom_fields must be a list"))
  }

  // --------------------------------------------------- external players

  /** `players` is a dict whose every value is a str (JSON keys are always str). */
  predicate PlayerTable(v: Json)
  {
    v.JObj? && forall name :: name in v.m ==> v.m[name].JStr?
  }

  /** `_validate_external_players`: the player table maps names to str paths. */
  function ValidateExternalPlayers(players: Json): (r: Verdict)
    ensures players.JObj? ==> (r.Passed? <==> ("players" in players.m ==> PlayerTable(players.m["players"])))
  {
    match Member(players, "players")
    case None => Raised(TypeErrorMessage)
    case Some(None) => Passed
    case Some(Some(v)) =>
      if !v.JObj? then Rejected("players must be a dictionary")
      else if PlayerTable(v) then Passed
      else Rejected("player names and paths must be strings")
  }

  // -------------------------------------------------- color management

  /** `_validate_color_management`: a str config path naming an existing file when it is not empty. */
  function ValidateColorManagement(color: Json, env: Env): (r: Verdict)
    ensures color.JObj? ==>
              (r.Passed? <==> ("config_path" in color.m ==>
                                 color.m["config_path"].JStr?
                                 && (color.m["config_path"].s != "" ==> env.pathExists(color.m["config_path"].s))))
  {
    match Member(color, "config_path")
    case None => Raised(TypeErrorMessage)
    case Some(None) => Passed
    case Some(Some(v)) =>
      if !v.JStr? then Rejected("color_management config_path must be a string")
      else if v.s != "" && !env.pathExists(v.s) then Rejected("Color management config file not found: " + v.s)
      else Passed
  }

  // ----------------------------------------------------------- logging

  const LogLevels: set<string> := {"DEBUG", "INFO", "WARNING", "ERROR", "CRITICAL"}


  /** `_validate_logging`: one of the five level names. */
  function ValidateLogging(logging: Json): (r: Verdict)
    ensures logging.JObj? ==> (r.Passed? <==> ("level" in logging.m ==> OneOf(logging.m["level"], LogLevels)))
  {
    var level := Member(logging, "level");
    Optional(level, OneOf(Found(level), LogLevels), "logging level must be one of: DEBUG, INFO, WARNING, ERROR, CRITICAL")
  }

  // ------------------------------------------------------------- whole

  /** The nine section validators `validate_config` calls. */
  datatype Check =
    | PathsCheck | FfmpegCheck | DatabaseCheck | UiCheck | SequenceDetectionCheck
    | MetadataCheck | ExternalPlayersCheck | ColorManagementCheck | LoggingCheck

  /** The order in which `validate_config` calls them. */
  const ConfigChecks: seq<Check> := [
    PathsCheck, FfmpegCheck, DatabaseCheck, UiCheck, SequenceDetectionCheck,
    MetadataCheck, ExternalPlayersCheck, ColorManagementCheck, LoggingCheck]

  /** One section validator on its section, an empty dict when the section is absent. */
  function RunCheck(config: map<string, Json>, env: Env, check: Check): Verdict
  {
    match check
    case PathsCheck => ValidatePaths(Section(config, "paths"), env)
    case FfmpegCheck => ValidateFfmpeg(Section(config, "ffmpeg"))
    case DatabaseCheck => ValidateDatabase(Section(config, "database"), env)
    case UiCheck => ValidateUi(Section(config, "ui"))
    case SequenceDetectionCheck => ValidateSequenceDetection(Section(config, "sequence_detection"), env)
    case MetadataCheck => ValidateMetadata(Section(config, "metadata"))
    case ExternalPlayersCheck => ValidateExternalPlayers(Section(config, "external_players"))
    case ColorManagementCheck => ValidateColorManagement(Section(config, "color_management"), env)
    case LoggingCheck => ValidateLogging(Section(config, "logging"))
  }

  /**
   * Validators called one after another, the first that does not pass
   * ending the run with its verdict: the run passes iff every validator
   * passes.
   */
  function RunChecks(config: map<string, Json>, env: Env, checks: seq<Check>): (r: Verdict)
    ensures r.Passed? <==> forall check :: check in checks ==> RunCheck(config, env, check).Passed?
  {
    if checks == [] then Passed
    else
      assert checks == [checks[0]] + checks[1..];
      Then(RunCheck(config, env, checks[0]), RunChecks(config, env, checks[1..]))
  }

  /** `ConfigSchema.validate_config`: the nine section validators in order. */
  function ValidateConfig(config: map<string, Json>, env: Env): Verdict
  {
    RunChecks(config, env, ConfigChecks)
  }

  /** A configuration whose nine sections each pass its validator passes `validate_config`. */
  lemma EverySectionPasses(config: map<string, Json>, env: Env)
    requires ValidatePaths(Section(config, "paths"), env).Passed?
    requires ValidateFfmpeg(Section(config, "ffmpeg")).Passed?
    requires ValidateDatabase(Section(config, "database"), env).Passed?
    requires ValidateUi(Section(config, "ui")).Passed?
    requires ValidateSequenceDetection(Section(config, "sequence_detection"), env).Passed?
    requires ValidateMetadata(Section(config, "metadata")).Passed?
    requires ValidateExternalPlayers(Section(config, "external_players")).Passed?
    requires ValidateColorManagement(Section(config, "color_management"), env).Passed?
    requires ValidateLogging(Section(config, "logging")).Passed?
    ensures ValidateConfig(config, env).Passed?
  {
    forall check | check in ConfigChecks
      ensures RunCheck(config, env, check).Passed?
    {
      match check
      case PathsCheck =>
      case FfmpegCheck =>
      case DatabaseCheck =>
      case UiCheck =>
      case SequenceDetectionCheck =>
      case MetadataCheck =>
      case ExternalPlayersCheck =>
      case ColorManagementCheck =>
      case LoggingCheck =>
    }
  }

  /** A configuration whose ui section fails its validator fails `validate_config`. */
  lemma UiSectionFailureFails(config: map<string, Json>, env: Env)
    requires !ValidateUi(Section(config, "ui")).Passed?
    ensures !ValidateConfig(config, env).Passed?
  {
    assert ConfigChecks[3] == UiCheck;
    assert !RunCheck(config, env, UiCheck).Passed?;
  }

  // ------------------------------------------------- project and user

  /** A non-blank str, as `isinstance(v, str) and v.strip()`. */
  predicate NonBlank(v: Json) { v.JStr? && Text.Strip(v.s) != "" }

  /** A list whose every entry is a str. */
  predicate StrEntries(v: Json) { v.JArr? && forall i :: 0 <= i < |v.a| ==> v.a[i].JStr? }

  /** `validate_project_config`: a non-blank project name and a list of str patterns. */
  function ValidateProjectConfig(config: map<string, Json>): (r: Verdict)
    ensures !r.Raised?
    ensures r.Passed? <==>
              && ("project_name" in config ==> NonBlank(config["project_name"]))
              && ("sequence_patterns" in config ==> StrEntries(config["sequence_patterns"]))
  {
    var name := if "project_name" in config && !NonBlank(config["project_name"])
                then Rejected("project_name must be a non-empty string") else Passed;
    var patterns := if "sequence_patterns" !in config then Passed
                    else if !config["sequence_patterns"].JArr? then Rejected("sequence_patterns must be a list")
                    else if StrEntries(config["sequence_patterns"]) then Passed
                    else Rejected("sequence patterns must be strings");
    Then(name, patterns)
  }

  /** `validate_user_config`: a non-blank user id and a list of personal favorites. */
  function ValidateUserConfig(config: map<string, Json>): (r: Verdict)
    ensures r.Passed? <==>
              && ("user_id" in config ==> NonBlank(config["user_id"]))
              && ("favorites" in config ==> Member(config["favorites"], "personal").Some?
                                            && (Member(config["favorites"], "personal").value.Some? ==>
                                                  Member(config["favorites"], "personal").value.value.JArr?))
  {
    var id := if "user_id" in config && !NonBlank(config["user_id"])
              then Rejected("user_id must be a non-empty string") else Passed;
    var personal := if "favorites" !in config then Passed
                    else match Member(config["favorites"], "personal")
                      case None => Raised(TypeErrorMessage)
                      case Some(None) => Passed
                      case Some(Some(v)) => if v.JArr? then Passed else Rejected("personal favorites must be a list");
    Then(id, personal)
  }

  /** A blank name, however many spaces it has, is refused. */
  lemma BlankProjectNameRejected(config: map<string, Json>)
    requires "project_name" in config && config["project_name"].JStr? && Text.IsBlank(config["project_name"].s)
    ensures ValidateProjectConfig(config).Rejected?
  {
    Text.StripEmptyIffBlank(config["project_name"].s);
  }
}
