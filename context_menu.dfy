/**
 * The external players and the "open" actions of `ui/context_menu.py`.
 *
 * `ExternalPlayerManager` merges the configured players over the platform's
 * defaults, keeps for each player the first command the system has, and
 * always offers "System Default" on Linux, Windows and macOS; opening a file
 * runs a copy of the player's command with the file appended.
 * `ContextMenuManager` ignores a second open of an entity still being
 * opened and keeps a short list of recently used players.
 *
 * Whether a command exists (`which`/`where`) is the parameter `has`, and
 * whether `Popen` starts the process is the parameter `launches`.
 */
module ContextMenu {
  import opened Wrappers
  import opened Text
  import opened Json
  import Sorting
  import Entities

  /** `platform.system()`. */
  datatype Platform = Linux | Windows | Darwin | OtherSystem

  const SystemDefault: string := "System Default"

  // ------------------------------------------------------------ ordered dicts

  /** A Python dict: its keys in insertion order and the value stored under each. */
  datatype Dict<V> = Dict(keys: seq<string>, values: map<string, V>)

  /** The keys listed are the keys stored, each once. */
  predicate DictOk<V>(d: Dict<V>)
  {
    (forall k :: k in d.values ==> k in d.keys) && (forall k :: k in d.keys ==> k in d.values) &&
    forall i, j :: 0 <= i < j < |d.keys| ==> d.keys[i] != d.keys[j]
  }

  const EmptyDict: Dict<seq<string>> := Dict([], map[])

  /** `d.get(k)`. */
  function Get<V>(d: Dict<V>, k: string): Option<V>
  {
    if k in d.values then Some(d.values[k]) else None
  }

  /** `d[k] = v`: an existing key keeps its place, a new one goes last. */
  function Set<V>(d: Dict<V>, k: string, v: V): (r: Dict<V>)
    ensures r.values == d.values[k := v]
  {
    Dict(if k in d.values then d.keys else d.keys + [k], d.values[k := v])
  }

  lemma SetOk<V>(d: Dict<V>, k: string, v: V)
    ensures DictOk(d) ==> DictOk(Set(d, k, v))
  {
    if DictOk(d) && k !in d.values {
      var ks := d.keys + [k];
      assert forall i :: 0 <= i < |d.keys| ==> ks[i] == d.keys[i];
    }
  }

  /** A dict display: the items assigned in order. */
  function FromItems<V>(items: seq<(string, V)>): Dict<V>
    decreases |items|
  {
    if items == [] then Dict([], map[])
    else Set(FromItems(items[..|items| - 1]), items[|items| - 1].0, items[|items| - 1].1)
  }

  lemma {:induction false} FromItemsOk<V>(items: seq<(string, V)>)
    ensures DictOk(FromItems(items))
    decreases |items|
  {
    if items != [] {
      FromItemsOk(items[..|items| - 1]);
      SetOk(FromItems(items[..|items| - 1]), items[|items| - 1].0, items[|items| - 1].1);
    }
  }

  // ------------------------------------------------------------ detection

  /** The commands tried for each player on each platform, as `_detect_players` lists them. */
  function PlatformCommands(p: Platform): seq<(string, seq<string>)>
  {
    match p
    case Linux => [
      ("VLC", ["vlc", "vlc"]),
      ("MPV", ["mpv", "mpv"]),
      ("MPlayer", ["mplayer", "mplayer"]),
      ("Totem", ["totem", "totem"]),
      ("GIMP", ["gimp", "gimp"]),
      ("Krita", ["krita", "krita"]),
      ("Blender", ["blender", "blender"]),
      ("DJV", ["djv", "djv_view"]),
      ("RV", ["rv", "rv"]),
      ("Nuke", ["Nuke", "Nuke13.2", "Nuke14.0"])]
    case Windows => [
      ("VLC", ["vlc.exe", "C:\\Program Files\\VideoLAN\\VLC\\vlc.exe"]),
      ("Windows Media Player", ["wmplayer.exe", "wmplayer"]),
      ("MPC-HC", ["mpc-hc.exe", "mpc-hc64.exe"]),
      ("PotPlayer", ["PotPlayerMini64.exe", "PotPlayer.exe"]),
      ("GIMP", ["gimp.exe", "C:\\Program Files\\GIMP 2\\bin\\gimp-2.10.exe"]),
      ("Krita", ["krita.exe", "C:\\Program Files\\Krita\\bin\\krita.exe"]),
      ("Blender", ["blender.exe", "C:\\Program Files\\Blender Foundation\\Blender\\blender.exe"]),
      ("DJV", ["djv.exe", "C:\\Program Files\\DJV2\\bin\\djv.exe"]),
      ("Nuke", ["Nuke13.2.exe", "Nuke14.0.exe"])]
    case Darwin => [
      ("VLC", ["vlc", "/Applications/VLC.app/Contents/MacOS/VLC"]),
      ("QuickTime", ["open", "-a", "QuickTime Player"]),
      ("IINA", ["iina", "/Applications/IINA.app/Contents/MacOS/IINA"]),
      ("GIMP", ["gimp", "/Applications/GIMP.app/Contents/MacOS/GIMP"]),
      ("Krita", ["krita", "/Applications/krita.app/Contents/MacOS/krita"]),
      ("Blender", ["blender", "/Applications/Blender.app/Contents/MacOS/Blender"]),
      ("DJV", ["djv", "/Applications/DJV2.app/Contents/MacOS/djv"]),
      ("Nuke", ["Nuke13.2", "Nuke14.0"])]
    case OtherSystem => []
  }

  /** Each command as the JSON string a configured list would hold. */
  function AsJson(cmds: seq<string>): seq<Json>
  {
    seq(|cmds|, j requires 0 <= j < |cmds| => JStr(cmds[j]))
  }

  /** `player_commands` before the configuration is merged in. */
  function DefaultCandidates(p: Platform): Dict<seq<Json>>
  {
    var t := PlatformCommands(p);
    FromItems(seq(|t|, i requires 0 <= i < |t| => (t[i].0, AsJson(t[i].1))))
  }

  lemma DefaultCandidatesOk(p: Platform)
    ensures DictOk(DefaultCandidates(p))
  {
    var t := PlatformCommands(p);
    FromItemsOk(seq(|t|, i requires 0 <= i < |t| => (t[i].0, AsJson(t[i].1))));
  }

  /** The command `players["System Default"]` gets, when the platform has one. */
  function SystemDefaultCommand(p: Platform): Option<seq<string>>
  {
    match p
    case Linux => Some(["xdg-open"])
    case Windows => Some(["start", ""])
    case Darwin => Some(["open"])
    case OtherSystem => None
  }

  /** A configuration entry replaces the player `name`: its upper-cased key is `name` and its value is a list. */
  predicate Overrides(entry: (string, Json), name: string)
  {
    entry.1.JArr? && Upper(entry.0) == name
  }

  /** No entry after `i` replaces the player `name`. */
  predicate LastOverride(config: seq<(string, Json)>, i: nat, name: string)
    requires i < |config|
  {
    forall j :: i < j < |config| ==> !Overrides(config[j], name)
  }

  /** The merge loop of `_detect_players`: configured lists replace the defaults under the upper-cased key. */
  function Merged(defaults: Dict<seq<Json>>, config: seq<(string, Json)>): (r: Dict<seq<Json>>)
    decreases |config|
  {
    if config == [] then defaults
    else
      var prev := Merged(defaults, config[..|config| - 1]);
      var (key, value) := config[|config| - 1];
      if value.JArr? then Set(prev, Upper(key), value.a) else prev
  }

  /** The list of the last configuration entry that replaces the player `name`, if any. */
  function LastList(config: seq<(string, Json)>, name: string): Option<seq<Json>>
    decreases |config|
  {
    if config == [] then None
    else if Overrides(config[|config| - 1], name) then Some(config[|config| - 1].1.a)
    else LastList(config[..|config| - 1], name)
  }

  /** The last entry that replaces a player is the one `LastList` finds; there is none only when no entry does. */
  lemma {:induction false} LastListMeaning(config: seq<(string, Json)>, name: string)
    ensures LastList(config, name).None? <==> forall i :: 0 <= i < |config| ==> !Overrides(config[i], name)
    ensures forall i :: 0 <= i < |config| && Overrides(config[i], name) && LastOverride(config, i, name) ==>
      LastList(config, name) == Some(config[i].1.a)
    decreases |config|
  {
    if config != [] {
      var last := |config| - 1;
      var pre := config[..last];
      LastListMeaning(pre, name);
      assert forall i :: 0 <= i < last ==> pre[i] == config[i];
      if !Overrides(config[last], name) {
        forall i | 0 <= i < last && Overrides(config[i], name) && LastOverride(config, i, name)
          ensures LastOverride(pre, i, name)
        {
          forall j | i < j < |pre|
            ensures !Overrides(pre[j], name)
          {
            assert pre[j] == config[j];
          }
        }
      }
    }
  }

  /**
   * The last configured list for a player wins; a player no configured list
   * names keeps its platform commands; values that are not lists change
   * nothing.
   */
  lemma {:induction false} MergedLookup(defaults: Dict<seq<Json>>, config: seq<(string, Json)>, name: string)
    ensures Get(Merged(defaults, config), name) == if LastList(config, name).Some? then LastList(config, name) else Get(defaults, name)
    decreases |config|
  {
    if config != [] {
      MergedLookup(defaults, config[..|config| - 1], name);
    }
  }

  lemma {:induction false} MergedOk(defaults: Dict<seq<Json>>, config: seq<(string, Json)>)
    requires DictOk(defaults)
    ensures DictOk(Merged(defaults, config))
    decreases |config|
  {
    if config != [] {
      var pre := config[..|config| - 1];
      MergedOk(defaults, pre);
      if config[|config| - 1].1.JArr? {
        SetOk(Merged(defaults, pre), Upper(config[|config| - 1].0), config[|config| - 1].1.a);
      }
    }
  }

  /** `_check_command_exists`: only a string can be looked up; anything else raises and counts as missing. */
  predicate Exists(cmd: Json, has: string -> bool)
  {
    cmd.JStr? && has(cmd.s)
  }

  /** The first command of a player that the system has. */
  function FirstExisting(cmds: seq<Json>, has: string -> bool): Option<string>
  {
    if cmds == [] then None
    else if Exists(cmds[0], has) then Some(cmds[0].s)
    else FirstExisting(cmds[1..], has)
  }

  /** The command kept is the first that exists; there is none only when no command exists. */
  lemma {:induction false} FirstExistingMeaning(cmds: seq<Json>, has: string -> bool)
    ensures FirstExisting(cmds, has).None? <==> forall j :: 0 <= j < |cmds| ==> !Exists(cmds[j], has)
    ensures FirstExisting(cmds, has).Some? ==>
      exists i :: 0 <= i < |cmds| && cmds[i] == JStr(FirstExisting(cmds, has).value) && Exists(cmds[i], has) &&
        forall j :: 0 <= j < i ==> !Exists(cmds[j], has)
  {
    if cmds != [] && !Exists(cmds[0], has) {
      FirstExistingMeaning(cmds[1..], has);
      assert forall j :: 1 <= j < |cmds| ==> cmds[j] == cmds[1..][j - 1];
      if FirstExisting(cmds, has).Some? {
        var i :| 0 <= i < |cmds[1..]| && cmds[1..][i] == JStr(FirstExisting(cmds, has).value) &&
          Exists(cmds[1..][i], has) && forall j :: 0 <= j < i ==> !Exists(cmds[1..][j], has);
        assert cmds[i + 1] == cmds[1..][i];
      }
    }
  }

  /** What a player is offered with: its first existing command alone. */
  function Offer(cmds: seq<Json>, has: string -> bool): Option<seq<string>>
  {
    match FirstExisting(cmds, has)
    case None => None
    case Some(c) => Some([c])
  }

  /** The availability loop of `_detect_players` over the players `ks`, in order. */
  function Available(ks: seq<string>, commands: map<string, seq<Json>>, has: string -> bool): Dict<seq<string>>
    decreases |ks|
  {
    if ks == [] then EmptyDict
    else
      var prev := Available(ks[..|ks| - 1], commands, has);
      var name := ks[|ks| - 1];
      if name !in commands then prev
      else match Offer(commands[name], has)
        case Some(cmd) => Set(prev, name, cmd)
        case None => prev
  }

  lemma {:induction false} AvailableOk(ks: seq<string>, commands: map<string, seq<Json>>, has: string -> bool)
    ensures DictOk(Available(ks, commands, has))
    decreases |ks|
  {
    if ks != [] {
      var pre := ks[..|ks| - 1];
      var name := ks[|ks| - 1];
      AvailableOk(pre, commands, has);
      if name in commands && Offer(commands[name], has).Some? {
        SetOk(Available(pre, commands, has), name, Offer(commands[name], has).value);
      }
    }
  }

  /** A player is available iff it has a command that exists, and then with that command alone. */
  lemma {:induction false} AvailableLookup(ks: seq<string>, commands: map<string, seq<Json>>, has: string -> bool, name: string)
    ensures Get(Available(ks, commands, has), name) == if name in ks && name in commands then Offer(commands[name], has) else None
    decreases |ks|
  {
    if ks != [] {
      var pre := ks[..|ks| - 1];
      assert forall k :: k in ks <==> k in pre || k == ks[|ks| - 1];
      AvailableLookup(pre, commands, has, name);
    }
  }

  /** The players `_detect_players` returns on platform `p`. */
  function Detected(p: Platform, config: seq<(string, Json)>, has: string -> bool): Dict<seq<string>>
  {
    DetectedFrom(DefaultCandidates(p), SystemDefaultCommand(p), config, has)
  }

  /** The players found from the platform's table `defaults` and its opener `sd`. */
  function DetectedFrom(defaults: Dict<seq<Json>>, sd: Option<seq<string>>, config: seq<(string, Json)>, has: string -> bool): Dict<seq<string>>
  {
    var merged := Merged(defaults, config);
    var available := Available(merged.keys, merged.values, has);
    match sd
    case Some(cmd) => Set(available, SystemDefault, cmd)
    case None => available
  }

  /** The players form a dict: each listed once. */
  lemma DetectedOk(defaults: Dict<seq<Json>>, sd: Option<seq<string>>, config: seq<(string, Json)>, has: string -> bool)
    ensures DictOk(DetectedFrom(defaults, sd, config, has))
  {
    var merged := Merged(defaults, config);
    AvailableOk(merged.keys, merged.values, has);
    if sd.Some? {
      SetOk(Available(merged.keys, merged.values, has), SystemDefault, sd.value);
    }
  }

  /** No upper-cased configuration key is "System Default", which has lower-case letters. */
  lemma UpperIsNotSystemDefault(key: string)
    ensures Upper(key) != SystemDefault
  {
    if |key| == |SystemDefault| {
      assert Upper(key)[1] == UpperChar(key[1]);
    }
  }

  /** The configuration never names a player "System Default". */
  lemma {:induction false} MergedKeepsSystemDefault(defaults: Dict<seq<Json>>, config: seq<(string, Json)>)
    ensures Get(Merged(defaults, config), SystemDefault) == Get(defaults, SystemDefault)
  {
    MergedLookup(defaults, config, SystemDefault);
    LastListMeaning(config, SystemDefault);
    forall i | 0 <= i < |config|
      ensures !Overrides(config[i], SystemDefault)
    {
      UpperIsNotSystemDefault(config[i].0);
    }
  }

  /**
   * Each player other than "System Default" is offered with the first of its
   * merged commands that exists, and not at all when none does.
   */
  lemma DetectedPlayer(defaults: Dict<seq<Json>>, sd: Option<seq<string>>, config: seq<(string, Json)>, has: string -> bool, name: string)
    requires DictOk(defaults) && name != SystemDefault
    ensures Get(DetectedFrom(defaults, sd, config, has), name) ==
      match Get(Merged(defaults, config), name)
      case None => None
      case Some(cmds) => Offer(cmds, has)
  {
    var merged := Merged(defaults, config);
    MergedOk(defaults, config);
    AvailableLookup(merged.keys, merged.values, has, name);
  }

  /** "System Default" gets the platform's opener, and is missing only where the platform has none. */
  lemma DetectedSystemDefault(defaults: Dict<seq<Json>>, sd: Option<seq<string>>, config: seq<(string, Json)>, has: string -> bool)
    requires SystemDefault !in defaults.values
    ensures Get(DetectedFrom(defaults, sd, config, has), SystemDefault) == sd
  {
    if sd.None? {
      var merged := Merged(defaults, config);
      MergedKeepsSystemDefault(defaults, config);
      AvailableLookup(merged.keys, merged.values, has, SystemDefault);
    }
  }

  /** On Linux, Windows and macOS "System Default" is always offered, with the platform's opener. */
  lemma SystemDefaultOffered(p: Platform, config: seq<(string, Json)>, has: string -> bool)
    requires p != OtherSystem
    ensures Get(Detected(p, config, has), SystemDefault) == SystemDefaultCommand(p) && SystemDefaultCommand(p).Some?
  {
    OpenerOffered(DefaultCandidates(p), SystemDefaultCommand(p), config, has);
  }

  /** Elsewhere no "System Default" entry is offered. */
  lemma NoSystemDefaultElsewhere(config: seq<(string, Json)>, has: string -> bool)
    ensures Get(Detected(OtherSystem, config, has), SystemDefault) == None
  {
    NoDefaultsElsewhere();
    DetectedSystemDefault(DefaultCandidates(OtherSystem), None, config, has);
  }

  lemma OpenerOffered(defaults: Dict<seq<Json>>, sd: Option<seq<string>>, config: seq<(string, Json)>, has: string -> bool)
    requires sd.Some?
    ensures Get(DetectedFrom(defaults, sd, config, has), SystemDefault) == sd
  {
  }

  /** A platform other than Linux, Windows and macOS has no default players. */
  lemma NoDefaultsElsewhere()
    ensures DefaultCandidates(OtherSystem) == Dict([], map[])
  {
  }

  /** `_detect_players`: the merge, the availability loop, and "System Default". */
  method DetectPlayers(p: Platform, config: seq<(string, Json)>, has: string -> bool) returns (players: Dict<seq<string>>)
    ensures players == Detected(p, config, has) && DictOk(players)
  {
    DefaultCandidatesOk(p);
    players := DetectFrom(DefaultCandidates(p), SystemDefaultCommand(p), config, has);
  }

  method DetectFrom(defaults: Dict<seq<Json>>, sd: Option<seq<string>>, config: seq<(string, Json)>, has: string -> bool)
    returns (players: Dict<seq<string>>)
    requires DictOk(defaults)
    ensures players == DetectedFrom(defaults, sd, config, has) && DictOk(players)
  {
    var commands := MergeConfigured(defaults, config);
    players := ListAvailable(commands, has);
    if sd.Some? {
      players := Set(players, SystemDefault, sd.value);
    }
    DetectedOk(defaults, sd, config, has);
  }

  /** The merge loop of `_detect_players`. */
  method MergeConfigured(defaults: Dict<seq<Json>>, config: seq<(string, Json)>) returns (commands: Dict<seq<Json>>)
    requires DictOk(defaults)
    ensures commands == Merged(defaults, config) && DictOk(commands)
  {
    commands := defaults;
    var i := 0;
    while i < |config|
      invariant 0 <= i <= |config|
      invariant commands == Merged(defaults, config[..i])
    {
      assert config[..i + 1][..i] == config[..i];
      var (key, value) := config[i];
      if value.JArr? {
        commands := Set(commands, Upper(key), value.a);
      }
      i := i + 1;
    }
    assert config[..|config|] == config;
    MergedOk(defaults, config);
  }

  /** The availability loop of `_detect_players`, with its inner loop over a player's commands. */
  method ListAvailable(commands: Dict<seq<Json>>, has: string -> bool) returns (players: Dict<seq<string>>)
    requires DictOk(commands)
    ensures players == Available(commands.keys, commands.values, has)
  {
    players := EmptyDict;
    var n := 0;
    while n < |commands.keys|
      invariant 0 <= n <= |commands.keys|
      invariant players == Available(commands.keys[..n], commands.values, has)
    {
      assert commands.keys[..n + 1][..n] == commands.keys[..n];
      var name := commands.keys[n];
      var cmds := commands.values[name];
      var k := 0;
      while k < |cmds|
        invariant 0 <= k <= |cmds|
        invariant FirstExisting(cmds, has) == FirstExisting(cmds[k..], has)
      {
        assert cmds[k..][1..] == cmds[k + 1..];
        if Exists(cmds[k], has) {
          players := Set(players, name, [cmds[k].s]);
          break;
        }
        k := k + 1;
      }
      n := n + 1;
    }
    assert commands.keys[..|commands.keys|] == commands.keys;
  }

  // ------------------------------------------------------------ opening

  /**
   * The command `open_with_player` runs: none for an unknown player,
   * `cmd /c start "" path` for "System Default" on Windows, and otherwise
   * the player's command followed by the path.
   */
  function OpenCommand(p: Platform, players: Dict<seq<string>>, path: string, name: string): Option<seq<string>>
  {
    match Get(players, name)
    case None => None
    case Some(cmd) =>
      if p == Windows && name == SystemDefault then Some(["cmd", "/c", "start", "", path])
      else Some(cmd + [path])
  }

  /** Every command run ends with the file, and apart from the Windows opener starts with the stored command. */
  lemma OpenCommandShape(p: Platform, players: Dict<seq<string>>, path: string, name: string)
    ensures OpenCommand(p, players, path, name).None? <==> name !in players.values
    ensures OpenCommand(p, players, path, name).Some? ==>
      var c := OpenCommand(p, players, path, name).value;
      |c| >= 1 && c[|c| - 1] == path &&
      (!(p == Windows && name == SystemDefault) ==> c[..|c| - 1] == players.values[name])
  {
    match Get(players, name)
    case None =>
    case Some(cmd) =>
      assert (cmd + [path])[..|cmd|] == cmd;
  }

  /** The players the system offers and how to start them. */
  class PlayerManager {
    const system: Platform
    var players: Dict<seq<string>>

    predicate Valid()
      reads this
    {
      DictOk(players)
    }

    constructor (system: Platform, config: seq<(string, Json)>, has: string -> bool)
      ensures Valid() && this.system == system && players == Detected(system, config, has)
    {
      this.system := system;
      var detected := DetectPlayers(system, config, has);
      players := detected;
    }

    /**
     * `open_with_player`: the command handed to `Popen` (none for an unknown
     * player) and whether the process started; the stored players are not
     * changed.
     */
    method OpenWithPlayer(path: string, name: string, launches: bool) returns (ok: bool, command: Option<seq<string>>)
      ensures command == OpenCommand(system, players, path, name)
      ensures ok <==> command.Some? && launches
    {
      var found := Get(players, name);
      if found.None? {
        return false, None;
      }
      var cmd := found.value;
      if system == Windows && name == SystemDefault {
        cmd := ["cmd", "/c", "start", "", path];
      } else {
        cmd := cmd + [path];
      }
      return launches, Some(cmd);
    }

    /** `get_available_players`. */
    function AvailablePlayers(): (names: seq<string>)
      reads this
      requires Valid()
      ensures forall n :: n in names <==> Get(players, n).Some?
    {
      players.keys
    }
  }

  // ------------------------------------------------------------ recent players

  /** The invariant of `recent_players`: at most five names, none of them "System Default", none twice. */
  predicate RecentOk(recent: seq<string>)
  {
    |recent| <= 5 && SystemDefault !in recent && forall i, j :: 0 <= i < j < |recent| ==> recent[i] != recent[j]
  }

  /** The recent list after a successful open with `name`: a new name goes first and the list keeps five. */
  function Remembered(recent: seq<string>, name: string): seq<string>
  {
    if name != SystemDefault && name !in recent then
      var r := [name] + recent;
      if |r| > 5 then r[..5] else r
    else recent
  }

  /** Remembering a player keeps the recent list well formed. */
  lemma RememberedOk(recent: seq<string>, name: string)
    requires RecentOk(recent)
    ensures RecentOk(Remembered(recent, name))
  {
    if name != SystemDefault && name !in recent {
      var r := [name] + recent;
      assert forall i :: 1 <= i < |r| ==> r[i] == recent[i - 1];
      if |r| > 5 {
        assert forall x :: x in r[..5] ==> x in r;
      }
    }
  }

  /**
   * A player used other than "System Default" is then in the list, first
   * when it was not there before; a name already listed keeps its place;
   * no name other than the one used is added.
   */
  lemma RememberedMeaning(recent: seq<string>, name: string)
    ensures name != SystemDefault ==> name in Remembered(recent, name)
    ensures name != SystemDefault && name !in recent ==> Remembered(recent, name)[0] == name
    ensures name in recent || name == SystemDefault ==> Remembered(recent, name) == recent
    ensures forall x :: x in Remembered(recent, name) ==> x in recent || x == name
    ensures |recent| < 5 ==> forall x :: x in recent ==> x in Remembered(recent, name)
  {
    if name != SystemDefault && name !in recent {
      var r := [name] + recent;
      assert r[0] == name;
      if |r| > 5 {
        assert r[..5][0] == name;
        assert forall x :: x in r[..5] ==> x in r;
      }
    }
  }

  /** Remembering the same player a second time changes nothing more. */
  lemma {:induction false} RememberedIdempotent(recent: seq<string>, name: string)
    ensures Remembered(Remembered(recent, name), name) == Remembered(recent, name)
  {
    RememberedMeaning(recent, name);
  }

  /** The paths already being opened when the multi-open loop reaches entity `i`. */
  function OpeningBefore(opening: set<string>, entities: seq<Entities.MediaEntity>, i: nat): set<string>
    requires i <= |entities|
  {
    opening + set e | e in entities[..i] :: e.path
  }

  /** The multi-open loop starts a process for entity `i`: not already being opened, a known player, a launch. */
  predicate LaunchedAt(players: Dict<seq<string>>, opening: set<string>, entities: seq<Entities.MediaEntity>,
                       name: string, launches: seq<bool>, i: nat)
    requires |launches| == |entities| && i < |entities|
  {
    entities[i].path !in OpeningBefore(opening, entities, i) && Get(players, name).Some? && launches[i]
  }

  /** Some entity before `k` was launched by the multi-open loop. */
  predicate AnyLaunched(players: Dict<seq<string>>, opening: set<string>, entities: seq<Entities.MediaEntity>,
                        name: string, launches: seq<bool>, k: nat)
    requires |launches| == |entities| && k <= |entities|
  {
    exists i :: 0 <= i < k && LaunchedAt(players, opening, entities, name, launches, i)
  }

  /** One more entity launches something exactly when it or an earlier one did. */
  lemma AnyLaunchedStep(players: Dict<seq<string>>, opening: set<string>, entities: seq<Entities.MediaEntity>,
                        name: string, launches: seq<bool>, k: nat)
    requires |launches| == |entities| && k < |entities|
    ensures AnyLaunched(players, opening, entities, name, launches, k + 1) <==>
              AnyLaunched(players, opening, entities, name, launches, k)
              || LaunchedAt(players, opening, entities, name, launches, k)
  {
    if AnyLaunched(players, opening, entities, name, launches, k + 1) {
      var i :| 0 <= i < k + 1 && LaunchedAt(players, opening, entities, name, launches, i);
      if i < k {
        assert AnyLaunched(players, opening, entities, name, launches, k);
      }
    }
  }

  /** The recent list after the first `k` entities of the multi-open loop: remembered once one has launched. */
  function RecentAfter(players: Dict<seq<string>>, opening: set<string>, entities: seq<Entities.MediaEntity>,
                       name: string, launches: seq<bool>, recent: seq<string>, k: nat): seq<string>
    requires |launches| == |entities| && k <= |entities|
  {
    if AnyLaunched(players, opening, entities, name, launches, k) then Remembered(recent, name) else recent
  }

  /** The command the multi-open loop runs for entity `i`: none when its path is already being opened. */
  function MultiCommand(p: Platform, players: Dict<seq<string>>, opening: set<string>,
                        entities: seq<Entities.MediaEntity>, name: string, i: nat): Option<seq<string>>
    requires i < |entities|
  {
    if entities[i].path in OpeningBefore(opening, entities, i) then None
    else OpenCommand(p, players, OpenTarget(entities[i]), name)
  }

  /** The first `k` commands of the multi-open loop. */
  predicate CommandsFit(p: Platform, players: Dict<seq<string>>, opening: set<string>,
                        entities: seq<Entities.MediaEntity>, name: string, commands: seq<Option<seq<string>>>, k: nat)
    requires k <= |entities|
  {
    |commands| == k && forall i :: 0 <= i < k ==> commands[i] == MultiCommand(p, players, opening, entities, name, i)
  }

  /** Appending the next command keeps the commands in step with the loop. */
  lemma CommandsFitStep(p: Platform, players: Dict<seq<string>>, opening: set<string>,
                        entities: seq<Entities.MediaEntity>, name: string, commands: seq<Option<seq<string>>>, k: nat,
                        command: Option<seq<string>>)
    requires k < |entities| && CommandsFit(p, players, opening, entities, name, commands, k)
    requires command == MultiCommand(p, players, opening, entities, name, k)
    ensures CommandsFit(p, players, opening, entities, name, commands + [command], k + 1)
  {
  }

  /** The recent list the multi-open loop keeps: remembered once some entity so far has launched. */
  lemma RecentAfterStep(players: Dict<seq<string>>, opening: set<string>, entities: seq<Entities.MediaEntity>,
                        name: string, launches: seq<bool>, k: nat, recent0: seq<string>, recent: seq<string>,
                        recent': seq<string>)
    requires |launches| == |entities| && k < |entities|
    requires recent == RecentAfter(players, opening, entities, name, launches, recent0, k)
    requires recent' == if LaunchedAt(players, opening, entities, name, launches, k)
                        then Remembered(recent, name) else recent
    ensures recent' == RecentAfter(players, opening, entities, name, launches, recent0, k + 1)
  {
    AnyLaunchedStep(players, opening, entities, name, launches, k);
    RememberedIdempotent(recent0, name);
  }

  /** The file opened for an entity: a sequence's first frame, or the entity's own path. */
  function OpenTarget(e: Entities.MediaEntity): string
  {
    if e.files != [] then e.files[0] else e.path
  }

  /** The menu's state: the players, the recently used ones, and the entities being opened. */
  class ContextMenuManager {
    const playerManager: PlayerManager
    var recentPlayers: seq<string>
    var opening: set<string>

    predicate Valid()
      reads this
    {
      RecentOk(recentPlayers)
    }

    constructor (system: Platform, config: seq<(string, Json)>, has: string -> bool)
      ensures Valid() && recentPlayers == [] && opening == {}
      ensures fresh(playerManager) && playerManager.system == system
      ensures playerManager.players == Detected(system, config, has)
    {
      playerManager := new PlayerManager(system, config, has);
      recentPlayers := [];
      opening := {};
    }

    /**
     * `_open_with_player`: an entity already being opened is ignored;
     * otherwise it is marked as being opened, its file is opened with the
     * player, and a successful open remembers the player and emits "open".
     */
    method OpenWithPlayer(entity: Entities.MediaEntity, name: string, launches: bool)
      returns (command: Option<seq<string>>, emitted: bool)
      requires Valid()
      modifies this`recentPlayers, this`opening
      ensures Valid()
      ensures entity.path in old(opening) ==>
        command == None && !emitted && recentPlayers == old(recentPlayers) && opening == old(opening)
      ensures entity.path !in old(opening) ==>
        opening == old(opening) + {entity.path} &&
        command == OpenCommand(playerManager.system, playerManager.players, OpenTarget(entity), name) &&
        (emitted <==> command.Some? && launches) &&
        recentPlayers == (if emitted then Remembered(old(recentPlayers), name) else old(recentPlayers))
    {
      var key := entity.path;
      if key in opening {
        return None, false;
      }
      opening := opening + {key};
      var file := entity.path;
      if entity.files != [] {
        file := entity.files[0];
      }
      var ok;
      ok, command := playerManager.OpenWithPlayer(file, name, launches);
      if ok {
        if name != SystemDefault && name !in recentPlayers {
          recentPlayers := [name] + recentPlayers;
          if |recentPlayers| > 5 {
            recentPlayers := recentPlayers[..5];
          }
        }
        RememberedOk(old(recentPlayers), name);
      }
      emitted := ok;
    }

    /**
     * `_open_multiple_entities`: each entity opened in turn with the same
     * player (`launches[i]` says whether the i-th process starts). No open
     * ends during the loop, so every entity ends up marked as being opened;
     * an entity whose path is already being opened (before the loop or by an
     * earlier entity of the list) runs nothing; the player is remembered
     * once some process starts, and remembering it again changes nothing.
     */
    method OpenAll(entities: seq<Entities.MediaEntity>, name: string, launches: seq<bool>)
      returns (commands: seq<Option<seq<string>>>)
      requires Valid() && |launches| == |entities|
      modifies this`recentPlayers, this`opening
      ensures Valid()
      ensures opening == old(opening) + set e | e in entities :: e.path
      ensures |commands| == |entities|
      ensures forall i :: 0 <= i < |entities| ==>
                commands[i] == MultiCommand(playerManager.system, playerManager.players, old(opening), entities, name, i)
      ensures recentPlayers ==
                RecentAfter(playerManager.players, old(opening), entities, name, launches, old(recentPlayers), |entities|)
    {
      commands := [];
      var i := 0;
      while i < |entities|
        invariant 0 <= i <= |entities| && Valid()
        invariant opening == OpeningBefore(old(opening), entities, i)
        invariant CommandsFit(playerManager.system, playerManager.players, old(opening), entities, name, commands, i)
        invariant recentPlayers ==
                    RecentAfter(playerManager.players, old(opening), entities, name, launches, old(recentPlayers), i)
      {
        ghost var recent := recentPlayers;
        var command := OpenStep(entities, name, launches, i, old(opening));
        RecentAfterStep(playerManager.players, old(opening), entities, name, launches, i,
                        old(recentPlayers), recent, recentPlayers);
        CommandsFitStep(playerManager.system, playerManager.players, old(opening), entities, name, commands, i, command);
        commands := commands + [command];
        i := i + 1;
      }
      assert entities[..i] == entities;
    }

    /** One entity of the multi-open loop, opened while the earlier ones are still marked as opening. */
    method OpenStep(entities: seq<Entities.MediaEntity>, name: string, launches: seq<bool>, i: nat,
                    ghost start: set<string>)
      returns (command: Option<seq<string>>)
      requires Valid() && |launches| == |entities| && i < |entities|
      requires opening == OpeningBefore(start, entities, i)
      modifies this`recentPlayers, this`opening
      ensures Valid()
      ensures opening == OpeningBefore(start, entities, i + 1)
      ensures command == MultiCommand(playerManager.system, playerManager.players, start, entities, name, i)
      ensures recentPlayers ==
                if LaunchedAt(playerManager.players, start, entities, name, launches, i)
                then Remembered(old(recentPlayers), name) else old(recentPlayers)
    {
      var emitted;
      command, emitted := OpenWithPlayer(entities[i], name, launches[i]);
      assert forall e :: e in entities[..i + 1] <==> e in entities[..i] || e == entities[i];
    }

    /** The delayed `discard` that ends an open: the entity may be opened again. */
    method FinishOpening(key: string)
      modifies this`opening
      ensures opening == old(opening) - {key}
    {
      opening := opening - {key};
    }
  }

  // ------------------------------------------------------------ menu

  /** What `create_entity_menu` is given: one entity or a list of them. */
  datatype Selection = One(entity: Entities.MediaEntity) | Many(entities: seq<Entities.MediaEntity>)

  /** A single entity is wrapped in a list; a list is used as it is. */
  function MenuEntities(s: Selection): seq<Entities.MediaEntity>
  {
    match s
    case One(e) => [e]
    case Many(es) => es
  }

  /** `is_multi_selection`. */
  predicate IsMultiSelection(es: seq<Entities.MediaEntity>)
  {
    |es| > 1
  }

  /** A single entity never gets the multi-selection menu; a list does iff it holds more than one entity. */
  lemma MultiSelectionMeaning(s: Selection)
    ensures s.One? ==> !IsMultiSelection(MenuEntities(s))
    ensures s.Many? ==> (IsMultiSelection(MenuEntities(s)) <==> |s.entities| >= 2)
  {
  }

  /**
   * The entries of the "Open With" submenu: "System Default" first when
   * offered, then up to three recent players still offered, then every
   * other player in sorted order.
   */
  function OpenWithEntries(players: seq<string>, recent: seq<string>): (entries: seq<string>)
  {
    var head := if SystemDefault in players then [SystemDefault] else [];
    var recents := OfferedRecent(if |recent| > 3 then recent[..3] else recent, players);
    head + recents + Others(Sorting.SortStrings(players))
  }

  /** The recent players that are offered and are not "System Default", in order. */
  function OfferedRecent(recent: seq<string>, players: seq<string>): (r: seq<string>)
    ensures forall x :: x in r <==> x in recent && x in players && x != SystemDefault
    ensures forall i :: 0 <= i < |r| ==> r[i] != SystemDefault
    ensures |r| <= |recent|
  {
    if recent == [] then []
    else
      var rest := OfferedRecent(recent[1..], players);
      if recent[0] in players && recent[0] != SystemDefault then [recent[0]] + rest else rest
  }

  /** The players other than "System Default", in order. */
  function Others(names: seq<string>): (r: seq<string>)
    ensures forall x :: x in r <==> x in names && x != SystemDefault
    ensures forall i :: 0 <= i < |r| ==> r[i] != SystemDefault
  {
    if names == [] then []
    else
      var rest := Others(names[1..]);
      assert names == [names[0]] + names[1..];
      if names[0] != SystemDefault then [names[0]] + rest else rest
  }

  lemma SortedMembers(players: seq<string>)
    ensures forall x :: x in Sorting.SortStrings(players) <==> x in players
  {
    var sorted := Sorting.SortStrings(players);
    assert forall x :: x in sorted <==> x in multiset(sorted);
    assert forall x :: x in players <==> x in multiset(players);
  }

  /**
   * "System Default" is the first entry exactly when it is offered and
   * appears nowhere else; every other offered player has an entry in the
   * sorted part, and every entry is an offered player.
   */
  lemma OpenWithEntriesMeaning(players: seq<string>, recent: seq<string>)
    ensures var e := OpenWithEntries(players, recent);
      (SystemDefault in players <==> e != [] && e[0] == SystemDefault) &&
      (forall x :: x in e ==> x in players) &&
      (forall x :: x in players ==> x in e) &&
      (forall i :: 0 < i < |e| ==> e[i] != SystemDefault)
  {
    var head := if SystemDefault in players then [SystemDefault] else [];
    var short := if |recent| > 3 then recent[..3] else recent;
    var recents := OfferedRecent(short, players);
    var others := Others(Sorting.SortStrings(players));
    SortedMembers(players);
    var e := head + recents + others;
    assert e == OpenWithEntries(players, recent);
    forall i | 0 < i < |e|
      ensures e[i] != SystemDefault
    {
      if i < |head| + |recents| {
        assert e[i] == recents[i - |head|];
      } else {
        assert e[i] == others[i - |head| - |recents|];
      }
    }
    if SystemDefault !in players && e != [] {
      assert e[0] in e;
    }
  }
}
