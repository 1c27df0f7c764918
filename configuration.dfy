/**
 * Gateway configuration: the record, its validation, the two dictionary
 * layouts it is read from, and the choice of the file it is loaded from.
 *
 * A parsed JSON object is a map from keys to `Value`s. Python raises
 * `KeyError` for a missing required key and `ValueError` for a failed check;
 * here both are `Failure`s of a `Result`.
 */
module Configuration {
  import opened Wrappers

  /** A JSON value as far as the configuration reads it. */
  datatype Value = Str(s: string) | Int(i: int) | Bool(b: bool) | StrList(items: seq<string>) | Other

  type Dict = map<string, Value>

  datatype Config = Config(
    serverip: string,
    port: int,
    username: string,
    password: string,
    name: string,
    topic: string,
    devices: seq<string>,
    autoDiscover: bool,
    enabledDevices: seq<string>,
    filterKeysOnly: bool)

  datatype ConfigError =
    | KeyError(key: string)          // a required key is missing
    | TypeMismatch(key: string)      // a key holds a value of the wrong JSON type
    | EmptyServer                    // "serverip cannot be empty"
    | PortOutOfRange(port: int)      // "port must be between 1 and 65535"
    | EmptyTopic                     // "topic cannot be empty"
    | NoDevices                      // no device while auto-discovery is off
    | FileNotFound(path: string)     // the chosen file cannot be opened
    | NoConfigFile                   // no candidate file exists

  // ---------------------------------------------------------------------------
  // Validation (`__post_init__`)
  // ---------------------------------------------------------------------------

  predicate PortInRange(port: int)
  {
    1 <= port <= 65535
  }

  /** Every check of `__post_init__` passes. */
  predicate Valid(c: Config)
  {
    c.serverip != "" && PortInRange(c.port) && c.topic != "" && (c.autoDiscover || |c.devices| > 0)
  }

  /** The checks run in source order; the first failing one is reported. */
  function Validate(c: Config): (r: Option<ConfigError>)
    ensures r.None? <==> Valid(c)
    ensures r == Some(EmptyServer) <==> c.serverip == ""
    ensures r == Some(PortOutOfRange(c.port)) <==> c.serverip != "" && !PortInRange(c.port)
    ensures r == Some(EmptyTopic) <==> c.serverip != "" && PortInRange(c.port) && c.topic == ""
    ensures r == Some(NoDevices) <==>
      c.serverip != "" && PortInRange(c.port) && c.topic != "" && !c.autoDiscover && c.devices == []
  {
    if c.serverip == "" then Some(EmptyServer)
    else if !PortInRange(c.port) then Some(PortOutOfRange(c.port))
    else if c.topic == "" then Some(EmptyTopic)
    else if !c.autoDiscover && |c.devices| == 0 then Some(NoDevices)
    else None
  }

  /** `Config(...)`: the record is created only when it passes validation. */
  function NewConfig(c: Config): (r: Result<Config, ConfigError>)
    ensures r.Success? <==> Valid(c)
    ensures r.Success? ==> r.value == c
    ensures r.Failure? ==> Some(r.error) == Validate(c)
  {
    match Validate(c)
    case None => Success(c)
    case Some(e) => Failure(e)
  }

  // ---------------------------------------------------------------------------
  // Reading fields from a dictionary
  // ---------------------------------------------------------------------------

  /** `data[key]` as a string. */
  function StrAt(data: Dict, key: string): (r: Result<string, ConfigError>)
    ensures key !in data ==> r == Failure(KeyError(key))
    ensures r.Success? <==> key in data && data[key].Str?
    ensures r.Success? ==> r.value == data[key].s
    ensures r.Failure? && key in data ==> r == Failure(TypeMismatch(key))
  {
    if key !in data then Failure(KeyError(key))
    else if data[key].Str? then Success(data[key].s)
    else Failure(TypeMismatch(key))
  }

  /** `data[key]` as an integer. */
  function IntAt(data: Dict, key: string): (r: Result<int, ConfigError>)
    ensures key !in data ==> r == Failure(KeyError(key))
    ensures r.Success? <==> key in data && data[key].Int?
    ensures r.Success? ==> r.value == data[key].i
    ensures r.Failure? && key in data ==> r == Failure(TypeMismatch(key))
  {
    if key !in data then Failure(KeyError(key))
    else if data[key].Int? then Success(data[key].i)
    else Failure(TypeMismatch(key))
  }

  /** `data.get(key, default)` for a string field. */
  function StrOr(data: Dict, key: string, default: string): (r: Result<string, ConfigError>)
    ensures key !in data ==> r == Success(default)
    ensures key in data ==> r == StrAt(data, key)
  {
    if key in data then StrAt(data, key) else Success(default)
  }

  /** `data.get(key, default)` for an integer field. */
  function IntOr(data: Dict, key: string, default: int): (r: Result<int, ConfigError>)
    ensures key !in data ==> r == Success(default)
    ensures key in data ==> r == IntAt(data, key)
  {
    if key in data then IntAt(data, key) else Success(default)
  }

  /** `data.get(key, default)` for a boolean field. */
  function BoolOr(data: Dict, key: string, default: bool): (r: Result<bool, ConfigError>)
    ensures key !in data ==> r == Success(default)
    ensures r.Success? && key in data ==> data[key] == Bool(r.value)
    ensures r.Failure? ==> r == Failure(TypeMismatch(key))
  {
    if key !in data then Success(default)
    else if data[key].Bool? then Success(data[key].b)
    else Failure(TypeMismatch(key))
  }

  /** `data.get(key, [])` for a list of strings. */
  function ListOrEmpty(data: Dict, key: string): (r: Result<seq<string>, ConfigError>)
    ensures key !in data ==> r == Success([])
    ensures r.Success? && key in data ==> data[key] == StrList(r.value)
    ensures r.Failure? ==> r == Failure(TypeMismatch(key))
  {
    if key !in data then Success([])
    else if data[key].StrList? then Success(data[key].items)
    else Failure(TypeMismatch(key))
  }

  /** The six keys `from_dict` indexes directly, in argument order. */
  const RequiredKeys: seq<string> := ["serverip", "port", "username", "password", "name", "topic"]

  /** `key` is present with the JSON type its field needs. */
  predicate Typed(data: Dict, key: string)
  {
    key in data &&
    if key == "port" then data[key].Int?
    else if key == "devices" || key == "enabled_devices" then data[key].StrList?
    else if key == "auto_discover" || key == "filter_keys_only" then data[key].Bool?
    else data[key].Str?
  }

  /** `key` is absent or present with the JSON type its field needs. */
  predicate TypedIfPresent(data: Dict, key: string)
  {
    key !in data || Typed(data, key)
  }

  /** Every field `from_dict` reads has the right shape: the required ones are present. */
  predicate Readable(data: Dict)
  {
    (forall i :: 0 <= i < |RequiredKeys| ==> Typed(data, RequiredKeys[i])) &&
    TypedIfPresent(data, "devices") && TypedIfPresent(data, "auto_discover") &&
    TypedIfPresent(data, "enabled_devices") && TypedIfPresent(data, "filter_keys_only")
  }

  /** `Config.from_dict`: the required keys, then the optional ones with their defaults, then validation. */
  function FromDict(data: Dict): (r: Result<Config, ConfigError>)
    ensures r.Failure? && r.error.KeyError? ==> r.error.key in RequiredKeys && r.error.key !in data
    ensures r.Success? ==> Valid(r.value)
    ensures r.Success? ==>
      "serverip" in data && data["serverip"] == Str(r.value.serverip) &&
      "port" in data && data["port"] == Int(r.value.port) &&
      "username" in data && data["username"] == Str(r.value.username) &&
      "password" in data && data["password"] == Str(r.value.password) &&
      "name" in data && data["name"] == Str(r.value.name) &&
      "topic" in data && data["topic"] == Str(r.value.topic)
    ensures r.Success? ==>
      ("devices" !in data ==> r.value.devices == []) &&
      ("auto_discover" !in data ==> !r.value.autoDiscover) &&
      ("enabled_devices" !in data ==> r.value.enabledDevices == []) &&
      ("filter_keys_only" !in data ==> r.value.filterKeysOnly)
  {
    var serverip :- StrAt(data, "serverip");
    var port :- IntAt(data, "port");
    var username :- StrAt(data, "username");
    var password :- StrAt(data, "password");
    var name :- StrAt(data, "name");
    var topic :- StrAt(data, "topic");
    var devices :- ListOrEmpty(data, "devices");
    var autoDiscover :- BoolOr(data, "auto_discover", false);
    var enabledDevices :- ListOrEmpty(data, "enabled_devices");
    var filterKeysOnly :- BoolOr(data, "filter_keys_only", true);
    NewConfig(Config(serverip, port, username, password, name, topic,
                     devices, autoDiscover, enabledDevices, filterKeysOnly))
  }

  /**
   * The first missing required key is the one reported, provided the keys
   * before it were readable.
   */
  lemma {:induction false} FromDictMissingKey(data: Dict, i: nat)
    requires i < |RequiredKeys|
    requires RequiredKeys[i] !in data
    requires forall j :: 0 <= j < i ==> Typed(data, RequiredKeys[j])
    ensures FromDict(data) == Failure(KeyError(RequiredKeys[i]))
  {
    if i > 0 { assert Typed(data, RequiredKeys[0]); }
    if i > 1 { assert Typed(data, RequiredKeys[1]); }
    if i > 2 { assert Typed(data, RequiredKeys[2]); }
    if i > 3 { assert Typed(data, RequiredKeys[3]); }
    if i > 4 { assert Typed(data, RequiredKeys[4]); }
  }

  /** A readable dictionary is accepted exactly when the record it describes passes validation. */
  lemma {:induction false} FromDictReadable(data: Dict)
    requires Readable(data)
    ensures FromDict(data).Success? <==> Valid(DictConfig(data))
    ensures FromDict(data).Success? ==> FromDict(data).value == DictConfig(data)
    ensures FromDict(data).Failure? ==> Some(FromDict(data).error) == Validate(DictConfig(data))
  {
    assert Typed(data, RequiredKeys[0]);
    assert Typed(data, RequiredKeys[1]);
    assert Typed(data, RequiredKeys[2]);
    assert Typed(data, RequiredKeys[3]);
    assert Typed(data, RequiredKeys[4]);
    assert Typed(data, RequiredKeys[5]);
  }

  /** The record a readable dictionary describes, field by field, defaults filled in. */
  function DictConfig(data: Dict): Config
    requires Readable(data)
  {
    assert Typed(data, RequiredKeys[0]) && Typed(data, RequiredKeys[1]) && Typed(data, RequiredKeys[2]);
    assert Typed(data, RequiredKeys[3]) && Typed(data, RequiredKeys[4]) && Typed(data, RequiredKeys[5]);
    Config(
      data["serverip"].s, data["port"].i, data["username"].s, data["password"].s,
      data["name"].s, data["topic"].s,
      if "devices" in data then data["devices"].items else [],
      "auto_discover" in data && data["auto_discover"].b,
      if "enabled_devices" in data then data["enabled_devices"].items else [],
      "filter_keys_only" !in data || data["filter_keys_only"].b)
  }

  // ---------------------------------------------------------------------------
  // Home Assistant add-on options
  // ---------------------------------------------------------------------------

  const DefaultPort := 1883
  const DefaultName := "evmqtt"
  const DefaultTopic := "homeassistant/sensor/evmqtt"

  /** `options.get(primary, options.get(fallback, default))`. */
  function StrFallback(o: Dict, primary: string, fallback: string, default: string): (r: Result<string, ConfigError>)
    ensures primary in o ==> r == StrAt(o, primary)
    ensures primary !in o ==> r == StrOr(o, fallback, default)
  {
    if primary in o then StrAt(o, primary) else StrOr(o, fallback, default)
  }

  /**
   * `Config.from_ha_options`: each `mqtt_*` key wins over its plain
   * counterpart, every field has a default, so no key is ever reported missing.
   */
  function FromHaOptions(o: Dict): (r: Result<Config, ConfigError>)
    ensures r.Failure? ==> !r.error.KeyError?
    ensures "mqtt_host" !in o && "serverip" !in o ==> r.Failure?
    ensures r.Success? ==> Valid(r.value)
    ensures r.Success? && "mqtt_host" in o ==> o["mqtt_host"] == Str(r.value.serverip)
    ensures r.Success? && "mqtt_port" in o ==> o["mqtt_port"] == Int(r.value.port)
    ensures r.Success? && "mqtt_username" in o ==> o["mqtt_username"] == Str(r.value.username)
    ensures r.Success? && "mqtt_password" in o ==> o["mqtt_password"] == Str(r.value.password)
    ensures r.Success? && "mqtt_host" !in o && "serverip" in o ==> o["serverip"] == Str(r.value.serverip)
    ensures r.Success? && "mqtt_port" !in o && "port" in o ==> o["port"] == Int(r.value.port)
    ensures r.Success? && "mqtt_username" !in o && "username" in o ==> o["username"] == Str(r.value.username)
    ensures r.Success? && "mqtt_password" !in o && "password" in o ==> o["password"] == Str(r.value.password)
    ensures r.Success? && "mqtt_port" !in o && "port" !in o ==> r.value.port == DefaultPort
    ensures r.Success? && "mqtt_username" !in o && "username" !in o ==> r.value.username == ""
    ensures r.Success? && "mqtt_password" !in o && "password" !in o ==> r.value.password == ""
    ensures r.Success? ==> ("name" in o ==> o["name"] == Str(r.value.name)) && ("name" !in o ==> r.value.name == DefaultName)
    ensures r.Success? ==> ("topic" in o ==> o["topic"] == Str(r.value.topic)) && ("topic" !in o ==> r.value.topic == DefaultTopic)
    ensures r.Success? ==>
      ("devices" in o ==> o["devices"] == StrList(r.value.devices)) && ("devices" !in o ==> r.value.devices == [])
    ensures r.Success? ==>
      ("auto_discover" in o ==> o["auto_discover"] == Bool(r.value.autoDiscover)) && ("auto_discover" !in o ==> !r.value.autoDiscover)
    ensures r.Success? ==>
      ("enabled_devices" in o ==> o["enabled_devices"] == StrList(r.value.enabledDevices))
      && ("enabled_devices" !in o ==> r.value.enabledDevices == [])
    ensures r.Success? ==>
      ("filter_keys_only" in o ==> o["filter_keys_only"] == Bool(r.value.filterKeysOnly))
      && ("filter_keys_only" !in o ==> r.value.filterKeysOnly)
  {
    var serverip :- StrFallback(o, "mqtt_host", "serverip", "");
    var port :- if "mqtt_port" in o then IntAt(o, "mqtt_port") else IntOr(o, "port", DefaultPort);
    var username :- StrFallback(o, "mqtt_username", "username", "");
    var password :- StrFallback(o, "mqtt_password", "password", "");
    var name :- StrOr(o, "name", DefaultName);
    var topic :- StrOr(o, "topic", DefaultTopic);
    var devices :- ListOrEmpty(o, "devices");
    var autoDiscover :- BoolOr(o, "auto_discover", false);
    var enabledDevices :- ListOrEmpty(o, "enabled_devices");
    var filterKeysOnly :- BoolOr(o, "filter_keys_only", true);
    NewConfig(Config(serverip, port, username, password, name, topic,
                     devices, autoDiscover, enabledDevices, filterKeysOnly))
  }

  /** Options in the plain layout, with every required key, read exactly as `from_dict` reads them. */
  lemma HaOptionsAgreeWithFromDict(o: Dict)
    requires "mqtt_host" !in o && "mqtt_port" !in o && "mqtt_username" !in o && "mqtt_password" !in o
    requires forall i :: 0 <= i < |RequiredKeys| ==> RequiredKeys[i] in o
    ensures FromHaOptions(o) == FromDict(o)
  {
  }

  // ---------------------------------------------------------------------------
  // Choosing and loading the file (`Config.load`)
  // ---------------------------------------------------------------------------

  const HaOptionsPath := "/data/options.json"
  const LocalConfigPath := "config.local.json"
  const DefaultConfigPath := "config.json"

  /** Where the configuration is read from, and whether it is in the add-on layout. */
  datatype Source = Source(path: string, haAddon: bool)

  /** An environment variable counts only when it is set to a non-empty string. */
  predicate EnvSet(envPath: Option<string>)
  {
    envPath.Some? && envPath.value != ""
  }

  /**
   * The search order: the explicit path, `EVMQTT_CONFIG`, the add-on options
   * file, `config.local.json`, `config.json`. `isFile` holds the paths that
   * are regular files.
   */
  function ChooseSource(configPath: Option<string>, envPath: Option<string>, isFile: set<string>): (r: Option<Source>)
    ensures configPath.Some? ==> r == Some(Source(configPath.value, false))
    ensures configPath.None? && EnvSet(envPath) ==> r == Some(Source(envPath.value, false))
    ensures (r.Some? && r.value.haAddon) <==>
      configPath.None? && !EnvSet(envPath) && HaOptionsPath in isFile
    ensures r.None? <==>
      configPath.None? && !EnvSet(envPath) &&
      HaOptionsPath !in isFile && LocalConfigPath !in isFile && DefaultConfigPath !in isFile
    ensures r.Some? && configPath.None? && !EnvSet(envPath) ==> r.value.path in isFile
    ensures configPath.None? && !EnvSet(envPath) && HaOptionsPath in isFile ==>
      r == Some(Source(HaOptionsPath, true))
    ensures configPath.None? && !EnvSet(envPath) && HaOptionsPath !in isFile && LocalConfigPath in isFile ==>
      r == Some(Source(LocalConfigPath, false))
    ensures configPath.None? && !EnvSet(envPath) && HaOptionsPath !in isFile && LocalConfigPath !in isFile
            && DefaultConfigPath in isFile ==>
      r == Some(Source(DefaultConfigPath, false))
  {
    if configPath.Some? then Some(Source(configPath.value, false))
    else if EnvSet(envPath) then Some(Source(envPath.value, false))
    else if HaOptionsPath in isFile then Some(Source(HaOptionsPath, true))
    else if LocalConfigPath in isFile then Some(Source(LocalConfigPath, false))
    else if DefaultConfigPath in isFile then Some(Source(DefaultConfigPath, false))
    else None
  }

  /**
   * `Config.load`. `files` maps every path that can be opened to its parsed
   * JSON object; only the add-on options file is read in the add-on layout.
   */
  function Load(configPath: Option<string>, envPath: Option<string>, files: map<string, Dict>): (r: Result<Config, ConfigError>)
    ensures r.Success? ==> Valid(r.value)
    ensures configPath.Some? ==>
      r == (if configPath.value in files then FromDict(files[configPath.value]) else Failure(FileNotFound(configPath.value)))
    ensures configPath.None? && EnvSet(envPath) ==>
      r == (if envPath.value in files then FromDict(files[envPath.value]) else Failure(FileNotFound(envPath.value)))
    ensures configPath.None? && !EnvSet(envPath) && HaOptionsPath in files ==> r == FromHaOptions(files[HaOptionsPath])
    ensures configPath.None? && !EnvSet(envPath) && HaOptionsPath !in files && LocalConfigPath in files ==>
      r == FromDict(files[LocalConfigPath])
    ensures configPath.None? && !EnvSet(envPath) && HaOptionsPath !in files && LocalConfigPath !in files
            && DefaultConfigPath in files ==>
      r == FromDict(files[DefaultConfigPath])
    ensures r == Failure(NoConfigFile) <==>
      configPath.None? && !EnvSet(envPath) &&
      HaOptionsPath !in files && LocalConfigPath !in files && DefaultConfigPath !in files
  {
    match ChooseSource(configPath, envPath, files.Keys)
    case None => Failure(NoConfigFile)
    case Some(source) =>
      if source.path !in files then Failure(FileNotFound(source.path))
      else if source.haAddon then FromHaOptions(files[source.path])
      else FromDict(files[source.path])
  }
}
