/**
 * The built-in configuration of `config/defaults.py`, on a POSIX host:
 * the home directory is fixed at `/storage/tmp/_cache_and_configs_` and
 * the general, user and project directories are `.main`, `.user` and
 * `.project` under it.  Each section is its own constant so that a proof
 * about one section does not have to look at the others.
 */
module Defaults {
  import opened Json

  const Home := "/storage/tmp/_cache_and_configs_"
  const GenDir := Home + "/.main"
  const UserDir := Home + "/.user"
  const ProjectDir := Home + "/.project"

  const Paths: map<string, Json> := map[
    "log_directory" := JStr(UserDir),
    "gen_thumbnail_directory" := JStr(GenDir + "/thumbnail"),
    "gen_db_directory" := JStr(GenDir + "/database"),
    "user_config_path" := JStr(UserDir),
    "user_thumbnail_path" := JStr(UserDir + "/thumbnail"),
    "user_db_path" := JStr(UserDir + "/database"),
    "project_config_path" := JStr(ProjectDir),
    "project_thumbnail_path" := JStr(ProjectDir + "/thumbnail"),
    "project_db_path" := JStr(ProjectDir + "/database")]

  const ConfigFiles: map<string, Json> := map[
    "user_config_file" := JStr(UserDir + "/user_config.json"),
    "project_config_file" := JStr(ProjectDir + "/project_config.json"),
    "auto_create" := JBool(true),
    "create_directories" := JBool(true),
    "file_permissions" := JInt(420),        // 0o644
    "directory_permissions" := JInt(493)]   // 0o755

  const Animated: map<string, Json> := map[
    "enabled" := JBool(true), "frame_count" := JInt(25), "fps" := JInt(10), "loop" := JBool(true),
    "format" := JStr("gif"), "optimize" := JBool(true), "max_size_kb" := JInt(500)]

  const Thumbnails: map<string, Json> := map[
    "default_resolution" := JInt(128),
    "cache_directory" := JStr(GenDir + "/thumbnail"),
    "quality" := JInt(85),
    "max_cache_size_mb" := JInt(1024),
    "background_generation" := JBool(true),
    "supported_formats" := JArr([JStr(".mp4"), JStr(".mov"), JStr(".avi"), JStr(".mkv"),
                                 JStr(".m4v"), JStr(".wmv"), JStr(".flv"), JStr(".webm")]),
    "animated" := JObj(Animated)]

  const Ffmpeg: map<string, Json> := map[
    "executable_path" := JStr("ffmpeg"),
    "timeout" := JInt(30),
    "thumbnail_time_offset" := JFloat(0.1),
    "max_concurrent_processes" := JInt(4)]

  const Database: map<string, Json> := map[
    "path" := JStr(GenDir + "/database"),
    "backup_enabled" := JBool(true),
    "backup_interval_hours" := JInt(24),
    "max_backups" := JInt(7)]

  const WindowGeometry: map<string, Json> := map[
    "width" := JInt(1200), "height" := JInt(800), "x" := JInt(100), "y" := JInt(100)]

  /** The ui keys no validator looks at. */
  const UiOthers: map<string, Json> := map[
    "theme_path" := JStr("looks/qt_material/themes/dark_blue.xml"),
    "theme_enabled" := JBool(true),
    "show_metadata_overlay" := JBool(true),
    "splitter_sizes" := JArr([JInt(300), JInt(900)]),
    "show_hidden_files" := JBool(false),
    "auto_refresh" := JBool(true),
    "refresh_interval_seconds" := JInt(30),
    "recursive_scan" := JBool(true)]

  /** The ui section around a window geometry and a theme name. */
  function UiOf(others: map<string, Json>, geometry: map<string, Json>, theme: string): map<string, Json>
  {
    others["window_geometry" := JObj(geometry)]["thumbnail_size" := JInt(128)]
          ["default_view_mode" := JStr("grid")]["theme" := JStr(theme)]
  }

  /** The ui section as shipped: its theme is a Material theme file name. */
  const ShippedUi: map<string, Json> := UiOf(UiOthers, WindowGeometry, "dark_blue.xml")

  /** The ui section with the theme name the ui validator accepts. */
  const Ui: map<string, Json> := UiOf(UiOthers, WindowGeometry, "dark")

  const AvailableThemes: map<string, Json> := map[
    "dark_themes" := JArr([JStr("dark_teal.xml"), JStr("dark_blue.xml"), JStr("dark_amber.xml"),
                           JStr("dark_cyan.xml"), JStr("dark_lightgreen.xml"), JStr("dark_pink.xml"),
                           JStr("dark_purple.xml"), JStr("dark_red.xml"), JStr("dark_yellow.xml"),
                           JStr("dark_medical.xml")]),
    "light_themes" := JArr([JStr("light_teal.xml"), JStr("light_blue.xml"), JStr("light_amber.xml"),
                            JStr("light_cyan.xml"), JStr("light_lightgreen.xml"), JStr("light_pink.xml"),
                            JStr("light_purple.xml"), JStr("light_red.xml"), JStr("light_yellow.xml"),
                            JStr("light_orange.xml")])]

  /** The three shipped sequence patterns, as regex source text. */
  const SequencePatterns: seq<string> := [
    "(.+)\\.(\\d{4,})\\.(exr|png|jpg|jpeg|tiff|tif|dpx|tga|bmp)$",
    "(.+)_(\\d{4,})\\.(exr|png|jpg|jpeg|tiff|tif|dpx|tga|bmp)$",
    "(.+)\\.v\\d+\\.(\\d{4,})\\.(exr|png|jpg|jpeg|tiff|tif|dpx|tga|bmp)$"]

  const FolderSequenceDetection: map<string, Json> := map[
    "enabled" := JBool(true),
    "ignored_extensions" := JArr([JStr(".tx"), JStr(".thumbs"), JStr(".thumb"), JStr(".tmp"), JStr(".bak"),
                                  JStr(".log"), JStr(".txt"), JStr(".nfo"), JStr(".db"), JStr(".DS_Store")]),
    "ignored_filenames" := JArr([JStr("Thumbs.db"), JStr(".DS_Store"), JStr("desktop.ini"), JStr(".directory")])]

  const SequenceDetection: map<string, Json> := map[
    "enabled" := JBool(true),
    "default_patterns" := JArr([JStr(SequencePatterns[0]), JStr(SequencePatterns[1]), JStr(SequencePatterns[2])]),
    "custom_patterns" := JArr([]),
    "min_sequence_length" := JInt(2),
    "max_gap_frames" := JInt(10),
    "supported_extensions" := JArr([JStr(".exr"), JStr(".png"), JStr(".jpg"), JStr(".jpeg"), JStr(".tiff"),
                                    JStr(".tif"), JStr(".dpx"), JStr("tga"), JStr("bmp")]),
    "folder_sequence_detection" := JObj(FolderSequenceDetection)]

  const Metadata: map<string, Json> := map[
    "auto_extract" := JBool(true),
    "extract_on_import" := JBool(true),
    "custom_fields" := JArr([]),
    "required_fields" := JArr([]),
    "default_tags" := JArr([JStr("untagged")]),
    "export_formats" := JArr([JStr("json"), JStr("csv"), JStr("xml")])]

  const ExternalPlayers: map<string, Json> := map[
    "default" := JStr(""),
    "players" := JObj(map[]),
    "auto_detect" := JBool(true),
    "common_players" := JObj(map[
      "vlc" := JArr([JStr("vlc"), JStr("/usr/bin/vlc"), JStr("/Applications/VLC.app/Contents/MacOS/VLC")]),
      "djv" := JArr([JStr("djv"), JStr("/apps/djv/bin/djv")])])]

  const Performance: map<string, Json> := map[
    "max_concurrent_thumbnails" := JInt(4),
    "thumbnail_cache_size" := JInt(100000),
    "metadata_cache_size" := JInt(500000),
    "lazy_loading" := JBool(true),
    "preload_thumbnails" := JBool(true),
    "background_scanning" := JBool(true)]

  const ColorManagement: map<string, Json> := map[
    "enabled" := JBool(false),
    "default_colorspace" := JStr("sRGB"),
    "display_colorspace" := JStr("sRGB"),
    "config_path" := JStr(""),
    "apply_to_thumbnails" := JBool(true),
    "auto_detect_config" := JBool(true),
    "fallback_to_builtin" := JBool(true),
    "common_colorspaces" := JObj(map[
      "linear" := JStr("Linear"), "srgb" := JStr("sRGB"), "rec709" := JStr("Rec.709"),
      "aces" := JStr("ACES - ACEScg"), "log" := JStr("Cineon")]),
    "display_settings" := JObj(map[
      "default_display" := JStr("sRGB"),
      "default_view" := JStr("Film"),
      "available_displays" := JArr([JStr("sRGB"), JStr("Rec.709"), JStr("P3-D65")])])]

  const Logging: map<string, Json> := map[
    "level" := JStr("INFO"),
    "file_enabled" := JBool(true),
    "file_path" := JStr(UserDir + "/stockshot_browser.log"),
    "max_file_size_mb" := JInt(10),
    "backup_count" := JInt(5),
    "console_enabled" := JBool(true)]

  const Projects: map<string, Json> := map[
    "default_project" := JStr("Default"),
    "auto_create_projects" := JBool(true),
    "project_isolation" := JBool(true),
    "recent_projects" := JArr([]),
    "max_recent_projects" := JInt(10)]

  const Search: map<string, Json> := map[
    "index_enabled" := JBool(true),
    "index_content" := JBool(true),
    "search_history_size" := JInt(50),
    "case_sensitive" := JBool(false),
    "regex_enabled" := JBool(true)]

  const Import: map<string, Json> := map[
    "auto_scan_on_startup" := JBool(true),
    "watch_directories" := JBool(true),
    "auto_generate_thumbnails" := JBool(true),
    "auto_extract_metadata" := JBool(true),
    "duplicate_handling" := JStr("skip")]

  const DirectoryTree: map<string, Json> := map[
    "configured_paths" := JArr([JStr("/apps/comfyui/input"), JStr("/apps/comfyui/output")]),
    "show_drives" := JBool(false),
    "expand_configured_paths" := JBool(true)]

  /** The sections no validator looks at. */
  const Unvalidated: map<string, Json> := map[
    "version" := JStr("1.0.0"),
    "config_files" := JObj(ConfigFiles),
    "thumbnails" := JObj(Thumbnails),
    "available_themes" := JObj(AvailableThemes),
    "performance" := JObj(Performance),
    "projects" := JObj(Projects),
    "search" := JObj(Search),
    "import" := JObj(Import),
    "directory_tree" := JObj(DirectoryTree)]

  /** The nine sections `validate_config` looks at. */
  datatype Sections = Sections(
    paths: map<string, Json>, ffmpeg: map<string, Json>, database: map<string, Json>,
    ui: map<string, Json>, sequenceDetection: map<string, Json>, metadata: map<string, Json>,
    externalPlayers: map<string, Json>, colorManagement: map<string, Json>, logging: map<string, Json>)

  /** A whole configuration: the unvalidated sections `rest` and the validated ones. */
  function ConfigOf(rest: map<string, Json>, s: Sections): map<string, Json>
  {
    rest["logging" := JObj(s.logging)]["color_management" := JObj(s.colorManagement)]
        ["external_players" := JObj(s.externalPlayers)]["metadata" := JObj(s.metadata)]
        ["sequence_detection" := JObj(s.sequenceDetection)]["database" := JObj(s.database)]
        ["ffmpeg" := JObj(s.ffmpeg)]["paths" := JObj(s.paths)]["ui" := JObj(s.ui)]
  }

  /** The shipped validated sections, with the given ui section. */
  function DefaultSections(ui: map<string, Json>): Sections
  {
    Sections(Paths, Ffmpeg, Database, ui, SequenceDetection, Metadata, ExternalPlayers, ColorManagement, Logging)
  }

  /** `DEFAULT_CONFIG` as shipped, with `ui.theme` set to `"dark_blue.xml"`. */
  const ShippedConfig: map<string, Json> := ConfigOf(Unvalidated, DefaultSections(ShippedUi))

  /** `DEFAULT_CONFIG` with `ui.theme` set to `"dark"`, the value loading expects. */
  const Config: map<string, Json> := ConfigOf(Unvalidated, DefaultSections(Ui))
}
