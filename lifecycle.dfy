/**
 * The gateway's lifecycle (`evmqtt.__main__`): the log level chosen from the
 * command line, the `--auto-discover` override, the `Application` that
 * connects to the broker, creates one monitor per device, subscribes and
 * starts them, and shuts everything down once, and `main`'s exit code.
 *
 * Monitors are recorded as the values they are built from; every broker or
 * monitor operation the application performs is appended to `calls`.
 */
module Lifecycle {
  import opened Wrappers
  import opened Configuration
  import DeviceDiscovery

  // ---------------------------------------------------------------------------
  // Logging and the command-line override
  // ---------------------------------------------------------------------------

  /** The numeric levels of Python's `logging` module. */
  const DEBUG := 10
  const INFO := 20
  const WARNING := 30

  /** `setup_logging`: `--debug` wins over `--verbose`; without either only warnings are shown. */
  function LogLevel(verbose: bool, debug: bool): (level: int)
    ensures debug <==> level == DEBUG
    ensures level == INFO <==> verbose && !debug
    ensures level == WARNING <==> !verbose && !debug
  {
    if debug then DEBUG else if verbose then INFO else WARNING
  }

  /**
   * `--auto-discover` rebuilds the record with auto-discovery switched on, which
   * runs validation again: it succeeds exactly when the server, port and topic
   * checks pass, since the device check no longer applies.
   */
  function WithAutoDiscover(c: Config): (r: Result<Config, ConfigError>)
    ensures r.Success? <==> c.serverip != "" && PortInRange(c.port) && c.topic != ""
    ensures r.Success? ==> r.value == c.(autoDiscover := true)
    ensures Valid(c) ==> r.Success?
  {
    NewConfig(c.(autoDiscover := true))
  }

  // ---------------------------------------------------------------------------
  // Monitors and the operations the application performs
  // ---------------------------------------------------------------------------

  /** A monitor as the application creates it; manual monitors have no slug and no unique id. */
  datatype Monitor = Monitor(path: string, slug: Option<string>, uniqueId: Option<string>, enabled: bool)

  datatype Action = PublishDiscovery | Subscribe | StartMonitor | StopMonitor

  datatype Call = Connect | Disconnect | PerMonitor(action: Action, path: string)

  datatype StartOutcome =
    | Started
    | ConnectionTimeout      // `ConnectionError("MQTT connection timeout")`
    | NoDevicesOpened        // `RuntimeError("No input devices could be opened")`

  /** An empty `enabled_devices` enables every discovered device; otherwise only the listed ones. */
  predicate InitiallyEnabled(enabledDevices: seq<string>, path: string)
  {
    |enabledDevices| == 0 || path in enabledDevices
  }

  /** The monitor created for a discovered device. */
  function MonitorFor(d: DeviceDiscovery.DiscoveredDevice, enabledDevices: seq<string>): Monitor
  {
    Monitor(d.path, Some(d.slug), Some(d.uniqueId), InitiallyEnabled(enabledDevices, d.path))
  }

  /** `_setup_auto_discovery`: a monitor per discovered device that opens, in discovery order. */
  function DiscoveredMonitors(discovered: seq<DeviceDiscovery.DiscoveredDevice>, openable: set<string>, enabledDevices: seq<string>)
    : (r: seq<Monitor>)
    ensures |r| <= |discovered|
  {
    if |discovered| == 0 then
      []
    else
      var d := discovered[|discovered| - 1];
      var init := DiscoveredMonitors(discovered[..|discovered| - 1], openable, enabledDevices);
      if d.path in openable then init + [MonitorFor(d, enabledDevices)] else init
  }

  /**
   * Every discovered device that opens gets its monitor, and every monitor
   * belongs to a device that opened, carries its slug and unique id, and is
   * enabled exactly when `enabled_devices` is empty or lists its path.
   */
  lemma {:induction false} DiscoveredMonitorsExact(discovered: seq<DeviceDiscovery.DiscoveredDevice>, openable: set<string>, enabledDevices: seq<string>)
    ensures forall m :: m in DiscoveredMonitors(discovered, openable, enabledDevices) ==>
      exists i :: 0 <= i < |discovered| && discovered[i].path in openable && m == MonitorFor(discovered[i], enabledDevices)
    ensures forall m :: m in DiscoveredMonitors(discovered, openable, enabledDevices) ==>
      m.path in openable && m.slug.Some? && m.uniqueId.Some? && (m.enabled <==> InitiallyEnabled(enabledDevices, m.path))
    ensures forall i :: 0 <= i < |discovered| && discovered[i].path in openable ==>
      MonitorFor(discovered[i], enabledDevices) in DiscoveredMonitors(discovered, openable, enabledDevices)
  {
    if |discovered| > 0 {
      var n := |discovered| - 1;
      var init := discovered[..n];
      DiscoveredMonitorsExact(init, openable, enabledDevices);
      assert forall i :: 0 <= i < |init| ==> init[i] == discovered[i];
      forall m | m in DiscoveredMonitors(discovered, openable, enabledDevices)
        ensures exists i :: 0 <= i < |discovered| && discovered[i].path in openable && m == MonitorFor(discovered[i], enabledDevices)
      {
        if m in DiscoveredMonitors(init, openable, enabledDevices) {
          var i :| 0 <= i < |init| && init[i].path in openable && m == MonitorFor(init[i], enabledDevices);
          assert discovered[i] == init[i];
        } else {
          assert discovered[n].path in openable && m == MonitorFor(discovered[n], enabledDevices);
        }
      }
    }
  }

  /** `_setup_manual_devices`: an always-enabled monitor per configured path that opens, in order. */
  function ManualMonitors(paths: seq<string>, openable: set<string>): (r: seq<Monitor>)
    ensures |r| <= |paths|
  {
    if |paths| == 0 then
      []
    else
      var p := paths[|paths| - 1];
      var init := ManualMonitors(paths[..|paths| - 1], openable);
      if p in openable then init + [Monitor(p, None, None, true)] else init
  }

  /** Manual monitors are enabled, have no slug, and exist exactly for the configured paths that open. */
  lemma {:induction false} ManualMonitorsExact(paths: seq<string>, openable: set<string>)
    ensures forall m :: m in ManualMonitors(paths, openable) ==>
      m.path in openable && m.path in paths && m.slug.None? && m.uniqueId.None? && m.enabled
    ensures forall i :: 0 <= i < |paths| && paths[i] in openable ==>
      Monitor(paths[i], None, None, true) in ManualMonitors(paths, openable)
  {
    if |paths| > 0 {
      var init := paths[..|paths| - 1];
      ManualMonitorsExact(init, openable);
      assert forall i :: 0 <= i < |init| ==> init[i] == paths[i];
    }
  }

  /** When every device opens, there is one monitor per device, in the same order. */
  lemma {:induction false} AllOpenedManualMonitors(paths: seq<string>, openable: set<string>)
    requires forall i :: 0 <= i < |paths| ==> paths[i] in openable
    ensures |ManualMonitors(paths, openable)| == |paths|
    ensures forall i :: 0 <= i < |paths| ==> ManualMonitors(paths, openable)[i] == Monitor(paths[i], None, None, true)
  {
    if |paths| > 0 {
      AllOpenedManualMonitors(paths[..|paths| - 1], openable);
    }
  }

  /**
   * The machine's input devices as evdev presents them: the paths `list_devices`
   * reports, the name and capability codes of each device that opens during
   * discovery, the `ecodes.EV` table, and the paths a monitor can open.
   */
  datatype Host = Host(
    listed: seq<string>,
    probes: map<string, DeviceDiscovery.DeviceInfo>,
    table: map<int, string>,
    openable: set<string>)

  /** What `discover_devices(filter_keys_only=config.filter_keys_only)` finds on `host`. */
  function DiscoveredOn(config: Config, host: Host): seq<DeviceDiscovery.DiscoveredDevice>
  {
    DeviceDiscovery.Discovery(host.listed, host.probes, host.table, config.filterKeysOnly)
  }

  /** The monitors `start` creates for a configuration. */
  function Created(config: Config, host: Host): seq<Monitor>
  {
    if config.autoDiscover then DiscoveredMonitors(DiscoveredOn(config, host), host.openable, config.enabledDevices)
    else ManualMonitors(config.devices, host.openable)
  }

  /**
   * With auto-discovery and `filter_keys_only`, every monitor watches a listed
   * device that reports key events; without the filter, every listed device
   * that opens in both steps gets a monitor.
   */
  lemma {:induction false} DiscoveredMonitorsFiltered(config: Config, host: Host)
    requires config.autoDiscover
    ensures forall m :: m in Created(config, host) ==> m.path in host.listed && m.path in host.probes && m.path in host.openable
    ensures config.filterKeysOnly ==> forall m :: m in Created(config, host) ==>
      m.path in host.probes && "EV_KEY" in DeviceDiscovery.CapabilityNames(host.table, host.probes[m.path].codes)
  {
    var discovered := DiscoveredOn(config, host);
    DeviceDiscovery.DiscoveryPaths(host.listed, host.probes, host.table, config.filterKeysOnly);
    DiscoveredMonitorsExact(discovered, host.openable, config.enabledDevices);
    forall m | m in Created(config, host)
      ensures m.path in host.listed && m.path in host.probes && m.path in host.openable
      ensures config.filterKeysOnly ==> "EV_KEY" in DeviceDiscovery.CapabilityNames(host.table, host.probes[m.path].codes)
    {
      var i :| 0 <= i < |discovered| && discovered[i].path in host.openable && m == MonitorFor(discovered[i], config.enabledDevices);
      assert discovered[i] in discovered;
    }
  }

  /** One call of `action` per monitor, in list order. */
  function ForEach(action: Action, ms: seq<Monitor>): (r: seq<Call>)
    ensures |r| == |ms|
  {
    if |ms| == 0 then [] else ForEach(action, ms[..|ms| - 1]) + [PerMonitor(action, ms[|ms| - 1].path)]
  }

  /** The `i`-th call is `action` on the `i`-th monitor. */
  lemma {:induction false} ForEachAt(action: Action, ms: seq<Monitor>, i: nat)
    requires i < |ms|
    ensures ForEach(action, ms)[i] == PerMonitor(action, ms[i].path)
  {
    if i < |ms| - 1 {
      ForEachAt(action, ms[..|ms| - 1], i);
    }
  }

  /** `_monitors_by_path` after the monitors were registered in order: a later monitor replaces an earlier one. */
  function ByPath(ms: seq<Monitor>): (r: map<string, Monitor>)
    ensures forall m :: m in ms ==> m.path in r
    ensures forall p :: p in r ==> r[p] in ms && r[p].path == p
  {
    if |ms| == 0 then map[] else
      var m := ms[|ms| - 1];
      ByPath(ms[..|ms| - 1])[m.path := m]
  }

  /** The entry for a path is the last monitor registered under it. */
  lemma {:induction false} ByPathKeepsLast(ms: seq<Monitor>, i: nat)
    requires i < |ms|
    requires forall j :: i < j < |ms| ==> ms[j].path != ms[i].path
    ensures ByPath(ms)[ms[i].path] == ms[i]
  {
    if i < |ms| - 1 {
      var init := ms[..|ms| - 1];
      ByPathKeepsLast(init, i);
    }
  }

  lemma ManualStep(paths: seq<string>, openable: set<string>, i: nat)
    requires i < |paths|
    ensures ManualMonitors(paths[..i + 1], openable)
         == ManualMonitors(paths[..i], openable) + (if paths[i] in openable then [Monitor(paths[i], None, None, true)] else [])
  {
    assert paths[..i + 1][..i] == paths[..i];
  }

  lemma DiscoveredStep(discovered: seq<DeviceDiscovery.DiscoveredDevice>, openable: set<string>, enabledDevices: seq<string>, i: nat)
    requires i < |discovered|
    ensures DiscoveredMonitors(discovered[..i + 1], openable, enabledDevices)
         == DiscoveredMonitors(discovered[..i], openable, enabledDevices)
            + (if discovered[i].path in openable then [MonitorFor(discovered[i], enabledDevices)] else [])
  {
    assert discovered[..i + 1][..i] == discovered[..i];
  }

  lemma ForEachAppend(action: Action, ms: seq<Monitor>, m: Monitor)
    ensures ForEach(action, ms + [m]) == ForEach(action, ms) + [PerMonitor(action, m.path)]
  {
    assert (ms + [m])[..|ms|] == ms;
  }

  /** What a successful `start` performs: connect, publish each new monitor's record, subscribe all, start all. */
  function StartCalls(created: seq<Monitor>, all: seq<Monitor>): seq<Call>
  {
    [Connect] + ForEach(PublishDiscovery, created) + ForEach(Subscribe, all) + ForEach(StartMonitor, all)
  }

  /** What the first `stop` performs: stop every monitor, then disconnect an existing client. */
  function StopCalls(ms: seq<Monitor>, hasClient: bool): seq<Call>
  {
    ForEach(StopMonitor, ms) + (if hasClient then [Disconnect] else [])
  }

  lemma StartCallsSplit(before: seq<Call>, created: seq<Monitor>, all: seq<Monitor>)
    ensures before + [Connect] + ForEach(PublishDiscovery, created) + ForEach(Subscribe, all) + ForEach(StartMonitor, all)
         == before + StartCalls(created, all)
  {
  }

  lemma TakeStep<T>(s: seq<T>, i: nat)
    requires i < |s|
    ensures s[..i + 1] == s[..i] + [s[i]]
  {
  }

  lemma AppendAssociates<T>(a: seq<T>, b: seq<T>, x: T)
    ensures a + b + [x] == a + (b + [x])
  {
  }

  lemma ByPathAppend(ms: seq<Monitor>, m: Monitor)
    ensures ByPath(ms + [m]) == ByPath(ms)[m.path := m]
  {
    assert (ms + [m])[..|ms|] == ms;
  }

  // ---------------------------------------------------------------------------
  // The application
  // ---------------------------------------------------------------------------

  class Application {
    const config: Config
    /** Whether a broker client was created (it is kept even when the connection times out). */
    var hasClient: bool
    var monitors: seq<Monitor>
    var monitorsByPath: map<string, Monitor>
    var shutdownRequested: bool
    /** Every broker and monitor operation performed so far, in order. */
    var calls: seq<Call>

    ghost predicate Valid()
      reads this
    {
      monitorsByPath == ByPath(monitors)
    }

    constructor (config: Config)
      ensures this.config == config
      ensures !hasClient && monitors == [] && monitorsByPath == map[] && !shutdownRequested && calls == []
      ensures Valid()
    {
      this.config := config;
      hasClient := false;
      monitors := [];
      monitorsByPath := map[];
      shutdownRequested := false;
      calls := [];
    }

    /**
     * `start`: connect; on a timeout stop before creating any monitor;
     * otherwise create the monitors (publishing each one's discovery record),
     * fail when there are none, and else subscribe every monitor to its switch
     * topic and then start every monitor.
     */
    method Start(connected: bool, host: Host)
      returns (outcome: StartOutcome)
      requires Valid()
      modifies this`hasClient, this`monitors, this`monitorsByPath, this`calls
      ensures Valid() && hasClient
      ensures !connected ==>
        outcome == ConnectionTimeout && monitors == old(monitors) && calls == old(calls) + [Connect]
      ensures connected ==> monitors == old(monitors) + Created(config, host)
      ensures connected && monitors == [] ==> outcome == NoDevicesOpened && calls == old(calls) + [Connect]
      ensures connected && monitors != [] ==>
        outcome == Started &&
        calls == old(calls) + StartCalls(Created(config, host), monitors)
    {
      hasClient := true;
      calls := calls + [Connect];
      if !connected {
        return ConnectionTimeout;
      }
      if config.autoDiscover {
        CreateDiscovered(host);
      } else {
        CreateManual(host.openable);
      }
      if |monitors| == 0 {
        return NoDevicesOpened;
      }
      Announce(Subscribe);
      Announce(StartMonitor);
      StartCallsSplit(old(calls), Created(config, host), monitors);
      outcome := Started;
    }

    /**
     * `_setup_auto_discovery` and `_create_monitor_for_device`: discover the
     * devices with the configured key filter, then create a monitor for each
     * one that opens.
     */
    method CreateDiscovered(host: Host)
      requires Valid()
      modifies this`monitors, this`monitorsByPath, this`calls
      ensures Valid()
      ensures monitors == old(monitors) + DiscoveredMonitors(DiscoveredOn(config, host), host.openable, config.enabledDevices)
      ensures calls == old(calls) + ForEach(PublishDiscovery, DiscoveredMonitors(DiscoveredOn(config, host), host.openable, config.enabledDevices))
    {
      var discovered := Discover(host);
      var openable := host.openable;
      ghost var created: seq<Monitor> := [];
      ghost var monitors0, calls0 := monitors, calls;
      for i := 0 to |discovered|
        invariant created == DiscoveredMonitors(discovered[..i], openable, config.enabledDevices)
        invariant monitors == monitors0 + created
        invariant Valid()
        invariant calls == calls0 + ForEach(PublishDiscovery, created)
      {
        DiscoveredStep(discovered, openable, config.enabledDevices, i);
        var d := discovered[i];
        if d.path in openable {
          var m := MonitorFor(d, config.enabledDevices);
          ForEachAppend(PublishDiscovery, created, m);
          AppendAssociates(monitors0, created, m);
          AppendAssociates(calls0, ForEach(PublishDiscovery, created), PerMonitor(PublishDiscovery, m.path));
          Register(m);
          created := created + [m];
        }
      }
      assert discovered[..|discovered|] == discovered;
    }

    /** `discover_devices(filter_keys_only=self._config.filter_keys_only)`. */
    method Discover(host: Host) returns (discovered: seq<DeviceDiscovery.DiscoveredDevice>)
      ensures discovered == DiscoveredOn(config, host)
    {
      discovered := DeviceDiscovery.DiscoverDevices(host.listed, host.probes, host.table, config.filterKeysOnly);
    }

    /** `_setup_manual_devices`. */
    method CreateManual(openable: set<string>)
      requires Valid()
      modifies this`monitors, this`monitorsByPath, this`calls
      ensures Valid()
      ensures monitors == old(monitors) + ManualMonitors(config.devices, openable)
      ensures calls == old(calls) + ForEach(PublishDiscovery, ManualMonitors(config.devices, openable))
    {
      var paths := config.devices;
      ghost var created: seq<Monitor> := [];
      ghost var monitors0, calls0 := monitors, calls;
      for i := 0 to |paths|
        invariant created == ManualMonitors(paths[..i], openable)
        invariant monitors == monitors0 + created
        invariant Valid()
        invariant calls == calls0 + ForEach(PublishDiscovery, created)
      {
        ManualStep(paths, openable, i);
        if paths[i] in openable {
          var m := Monitor(paths[i], None, None, true);
          ForEachAppend(PublishDiscovery, created, m);
          AppendAssociates(monitors0, created, m);
          AppendAssociates(calls0, ForEach(PublishDiscovery, created), PerMonitor(PublishDiscovery, m.path));
          Register(m);
          created := created + [m];
        }
      }
      assert paths[..|paths|] == paths;
    }

    /** Publishes a new monitor's discovery record, then registers it in the list and under its path. */
    method Register(m: Monitor)
      requires Valid()
      modifies this`monitors, this`monitorsByPath, this`calls
      ensures Valid()
      ensures monitors == old(monitors) + [m]
      ensures monitorsByPath == old(monitorsByPath)[m.path := m]
      ensures calls == old(calls) + [PerMonitor(PublishDiscovery, m.path)]
    {
      calls := calls + [PerMonitor(PublishDiscovery, m.path)];
      ByPathAppend(monitors, m);
      monitors := monitors + [m];
      monitorsByPath := monitorsByPath[m.path := m];
    }

    /** Performs `action` on every monitor in list order. */
    method Announce(action: Action)
      modifies this`calls
      ensures calls == old(calls) + ForEach(action, monitors)
    {
      for i := 0 to |monitors|
        invariant calls == old(calls) + ForEach(action, monitors[..i])
      {
        TakeStep(monitors, i);
        ForEachAppend(action, monitors[..i], monitors[i]);
        AppendAssociates(old(calls), ForEach(action, monitors[..i]), PerMonitor(action, monitors[i].path));
        calls := calls + [PerMonitor(action, monitors[i].path)];
      }
      assert monitors[..|monitors|] == monitors;
    }

    /** `stop`: only the first call acts; it stops every monitor, then disconnects an existing client. */
    method Stop()
      modifies this`shutdownRequested, this`calls
      ensures shutdownRequested
      ensures old(shutdownRequested) ==> calls == old(calls)
      ensures !old(shutdownRequested) ==>
        calls == old(calls) + StopCalls(monitors, hasClient)
    {
      if shutdownRequested {
        return;
      }
      shutdownRequested := true;
      Announce(StopMonitor);
      if hasClient {
        calls := calls + [Disconnect];
      }
    }
  }

  // ---------------------------------------------------------------------------
  // `main`
  // ---------------------------------------------------------------------------

  /**
   * The second half of `main`: build the application, start it, and stop it
   * whatever the start did. The exit code is 0 exactly when the broker
   * connection was made and at least one monitor was created; the broker
   * connection is closed at the end in every case.
   */
  method Serve(config: Config, connected: bool, host: Host)
    returns (exitCode: int, app: Application)
    ensures app.config == config && app.shutdownRequested
    ensures exitCode == 0 <==> connected && Created(config, host) != []
    ensures exitCode == 1 <==> !(connected && Created(config, host) != [])
    ensures connected ==> app.monitors == Created(config, host)
    ensures exitCode == 0 ==> app.calls == StartCalls(app.monitors, app.monitors) + StopCalls(app.monitors, true)
    ensures !connected ==> app.calls == [Connect, Disconnect]
  {
    app := new Application(config);
    var outcome := app.Start(connected, host);
    ghost var started := app.calls;
    if connected {
      assert app.monitors == [] + Created(config, host);
    }
    app.Stop();
    assert app.calls == started + StopCalls(app.monitors, true);
    if outcome == Started {
      ghost var created := Created(config, host);
      assert connected && app.monitors == created;
      assert started == [] + StartCalls(created, app.monitors);
      assert started == StartCalls(app.monitors, app.monitors);
    }
    exitCode := if outcome == Started then 0 else 1;
  }

  /**
   * `main` after argument parsing: a configuration that does not load gives
   * exit code 1 before any application exists; otherwise the override is
   * applied and the application is served.
   */
  method RunGateway(configPath: Option<string>, envPath: Option<string>, files: map<string, Dict>,
                    autoDiscover: bool, connected: bool, host: Host)
    returns (exitCode: int, app: Application?)
    ensures Load(configPath, envPath, files).Failure? <==> app == null
    ensures app == null ==> exitCode == 1
    ensures app != null ==>
      var loaded := Load(configPath, envPath, files).value;
      app.config == (if autoDiscover then loaded.(autoDiscover := true) else loaded) &&
      Valid(app.config) && app.shutdownRequested &&
      (exitCode == 0 <==> connected && Created(app.config, host) != [])
  {
    var loaded := Load(configPath, envPath, files);
    if loaded.Failure? {
      return 1, null;
    }
    var config := loaded.value;
    if autoDiscover {
      config := WithAutoDiscover(config).value;
    }
    exitCode, app := Serve(config, connected, host);
  }
}
