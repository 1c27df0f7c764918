# evmqtt in Dafny

evmqtt is a gateway from Linux input devices (remote controls, keyboards) to
MQTT. Each monitored device is read on its own thread. Key presses are turned
into JSON state messages that name the key and any held modifiers (`KEY_A`,
`KEY_A_KEY_LEFTSHIFT`). The gateway announces itself to Home Assistant with an
autodiscovery record and loads its settings from a JSON file. Several places
can hold that file: an explicit path, an environment variable, the Home
Assistant add-on options file or the working directory.

This project models the core of that gateway and proves properties of it.

- `KeyHandling` (`key_handling.dfy`): the `KeyHandler` class. It holds the
  modifier state and decides which events to publish. It formats the key
  string and the `_MOD1_MOD2` modifier suffix.
- `InputMonitoring` (`input_monitoring.dfy`): the `InputMonitor` class. It
  derives the monitor's topics, publishes the autodiscovery record, handles
  one key event, and runs the event loop with its stop flag. The device is a
  script of steps: an event read, a concurrent `stop()` call, or a read error.
  The MQTT client is the list of publications made.
- `DeviceDiscovery` (`device_discovery.dfy`): `slugify`, `generate_unique_id`,
  `get_device_capabilities`, `discover_devices` (sorted walk, open and key
  filter, numbering of repeated slugs) and `discover_device_by_path`. The evdev
  side is an input: a map from each path that opens to the device's name and
  capability codes, and the `ecodes.EV` table.
- `Configuration` (`configuration.dfy`): `Config` validation, `from_dict`,
  `from_ha_options` and `load` with its five-level precedence. A parsed JSON
  file is a map from keys to typed values, and the file system is a map from
  existing paths to their contents.
- `Lifecycle` (`lifecycle.dfy`): `setup_logging`'s level choice, the
  command-line `--auto-discover` override, and the `Application` class (start,
  monitor creation in both modes, subscriptions, stop). `main` is modelled with
  its exit codes. MQTT and monitor calls are recorded in a call log, in order.
- `Legacy` (`legacy.dfy`): the original single-file `evmqtt.py`. It has a
  module-wide `key_state` map, `get_modifiers`, `set_modifier`, `is_modifier`,
  `is_ignore` and the monitor loop. A lemma ties it to the packaged
  `KeyHandler`.
- `Text` (`text.dfy`) and `Wrappers` (`wrappers.dfy`) are helpers. `Text`
  covers string order, sorting, `join`/`split` and decimal rendering. `Wrappers`
  defines `Option`/`Result`.

The exception paths of configuration loading, startup and device opening are
`Failure` values or recorded outcomes: `KeyError`, `ValueError`,
`FileNotFoundError`, `ConnectionError` and the `RuntimeError` raised when no
device opens. The one exception path not modelled is the `IndexError` of a key
event with an empty keycode list; "## Left out" says how it is excluded.

## Model

| member | source | states |
|---|---|---|
| KeyHandling.NextKeyState | src/evmqtt/key_handler.py:37-48 | only a modifier's state is recorded; every other key leaves the map as it was, and other entries never change |
| KeyHandling.NextKeyStateWithinModifiers | src/evmqtt/key_handler.py:46-48 | the state map only ever holds modifier keys |
| KeyHandling.NextKeyStateCommutes | src/evmqtt/key_handler.py:46-48 | updates of two different keys commute |
| KeyHandling.ActiveModifiers | src/evmqtt/key_handler.py:50-57 | the result is strictly ascending and holds exactly the keys whose state is pressed (1) |
| KeyHandling.ActiveModifiersUnique | src/evmqtt/key_handler.py:56-57 | any strictly ascending list of exactly the pressed keys is the list of active modifiers |
| KeyHandling.ModifierSuffix | src/evmqtt/key_handler.py:59-69 | empty iff no key is pressed; otherwise `_` followed by the active modifiers joined by `_` |
| KeyHandling.SuffixDependsOnPressedKeysOnly | src/evmqtt/key_handler.py:50-69 | two states with the same pressed keys give the same modifier list and suffix |
| KeyHandling.SingleModifierSuffix | src/evmqtt/key_handler.py:66-69 | one held modifier `k` gives the suffix `_k` |
| KeyHandling.PressOrderIrrelevant | src/evmqtt/key_handler.py:46-69 | pressing two modifiers in either order gives the same suffix |
| KeyHandling.KeyHandler.constructor | src/evmqtt/key_handler.py:21-35 | the default handler has the eight shift/ctrl/alt/meta modifiers, ignores `KEY_NUMLOCK` and starts with an empty state |
| KeyHandling.KeyHandler.WithKeys | src/evmqtt/key_handler.py:21-35 | custom modifier and ignore sets replace the defaults; the state starts empty |
| KeyHandling.KeyHandler.UpdateModifierState | src/evmqtt/key_handler.py:37-48 | the new state is the old state updated for a modifier only, and it still holds only modifiers |
| KeyHandling.KeyHandler.GetActiveModifiers | src/evmqtt/key_handler.py:50-57 | ascending, exactly the pressed keys, all of them configured modifiers |
| KeyHandling.KeyHandler.GetModifierSuffix | src/evmqtt/key_handler.py:59-69 | empty iff no modifier is active; otherwise `_` plus the active modifiers joined by `_` |
| KeyHandling.KeyHandler.IsModifier | src/evmqtt/key_handler.py:71-80 | true exactly for the handler's configured modifier keys; `ShouldPublish` is false for a press of such a key, and `NextKeyStateWithinModifiers` shows only such keys are ever recorded |
| KeyHandling.KeyHandler.IsIgnored | src/evmqtt/key_handler.py:82-91 | true exactly for the handler's ignored keys; `ShouldPublish` is false for a press of such a key and `IgnoredKeyPress` shows nothing is published for it |
| KeyHandling.KeyHandler.ShouldPublish | src/evmqtt/key_handler.py:93-112 | true iff the state is a press and the primary key (first element of a list) is neither a modifier nor ignored |
| KeyHandling.KeyHandler.FormatKeycode | src/evmqtt/key_handler.py:115-129 | a single code is returned unchanged; a one-element list gives its only code |
| KeyHandling.KeyHandler.FormatKeycodeRoundTrip | src/evmqtt/key_handler.py:127-129 | splitting a formatted list on the vertical bar gives the codes back in report order |
| InputMonitoring.StateAndConfigTopicsDiffer | src/evmqtt/input_monitor.py:52-53 | a state topic never equals a config topic, whatever the base topics |
| InputMonitoring.StateTopic | src/evmqtt/input_monitor.py:52 | `<base>/state`; `StateTopicInjective` and `StateAndConfigTopicsDiffer` state that distinct bases give distinct topics and that it never meets a config topic |
| InputMonitoring.ConfigTopic | src/evmqtt/input_monitor.py:53 | `<base>/config`; `StateAndConfigTopicsDiffer` states it never equals a state topic |
| InputMonitoring.StateTopicInjective | src/evmqtt/input_monitor.py:52 | different base topics give different state topics |
| InputMonitoring.SlashesToUnderscores | src/evmqtt/input_monitor.py:74 | same length; each `/` becomes `_` and every other character is kept |
| InputMonitoring.SensorUniqueId | src/evmqtt/input_monitor.py:74 | the id is `evmqtt_` followed by the path with each `/` replaced by `_` and every other character kept, position by position |
| InputMonitoring.SensorUniqueIdInjective | src/evmqtt/input_monitor.py:74 | paths without `_` have distinct sensor ids |
| InputMonitoring.InputMonitor.Autodiscovery | src/evmqtt/input_monitor.py:68-77 | the record is retained, goes to the config topic and names the gateway, state topic, icon and sensor id |
| InputMonitoring.InputMonitor.constructor | src/evmqtt/input_monitor.py:32-66 | the topics are `<base>/state` and `<base>/config`, the stop flag is clear and the autodiscovery record is the only publication |
| InputMonitoring.InputMonitor.KeyEventEffect | src/evmqtt/input_monitor.py:113-142 | the primary key updates the modifier state first; exactly one publication iff `ShouldPublish`, and it carries the formatted key plus the suffix of the new state, non-retained, to the state topic |
| InputMonitoring.InputMonitor.HandleKeyEvent | src/evmqtt/input_monitor.py:113-142 | the handler state and outbox change exactly as `KeyEventEffect` says |
| InputMonitoring.InputMonitor.Stop | src/evmqtt/input_monitor.py:145-147 | the stop flag is set |
| InputMonitoring.InputMonitor.Run | src/evmqtt/input_monitor.py:80-111 | a failed grab changes nothing; otherwise state, outbox and stop flag end as `RunEffect` says |
| InputMonitoring.InputMonitor.RunEffect | src/evmqtt/input_monitor.py:80-111 | the effect of the event loop on a script; a stop already requested stays requested; `NothingAfterStop`, `NonKeyEventIgnored`, `StoppedRunIsInert` and `RunPublishesKeyMessagesOnly` state its properties |
| InputMonitoring.InputMonitor.StoppedRunIsInert | src/evmqtt/input_monitor.py:95-97 | once the stop flag is set, nothing is published and the state does not change |
| InputMonitoring.InputMonitor.NothingAfterStop | src/evmqtt/input_monitor.py:95-97 | whatever follows a stop request is never handled |
| InputMonitoring.InputMonitor.NonKeyEventIgnored | src/evmqtt/input_monitor.py:98-99 | removing a non-key event from the stream changes nothing |
| InputMonitoring.InputMonitor.RunPublishesKeyMessagesOnly | src/evmqtt/input_monitor.py:136-142 | every publication the loop makes is a non-retained key message on the state topic |
| InputMonitoring.InputMonitor.ModifierAlone | tests/test_input_monitor.py:405-438 | a modifier press is recorded and not published |
| InputMonitoring.InputMonitor.ModifierThenKey | tests/test_input_monitor.py:440-484 | a key pressed while a modifier is held is published with suffix `_<modifier>` |
| InputMonitoring.InputMonitor.PressThenRelease | tests/test_input_monitor.py:486-518 | a press is published once and its release is not |
| InputMonitoring.InputMonitor.IgnoredKeyPress | src/evmqtt/key_handler.py:106-110 | pressing an ignored key publishes nothing |
| InputMonitoring.InputMonitor.MultiCodeReport | src/evmqtt/input_monitor.py:124-136 | a list report is published as its codes joined by the vertical bar |
| DeviceDiscovery.SlugifyIsSlug | src/evmqtt/device_discovery.py:42-69 | the result is nonempty, only `[a-z0-9-]`, without `--` and without a leading or trailing `-` |
| DeviceDiscovery.Slugify | src/evmqtt/device_discovery.py:42-69 | `slugify`: lower-case, separator runs to `-`, drop other characters, collapse and strip dashes, `unknown-device` when empty; `SlugifyIsSlug`, `SlugifyFixesSlugs`, `SlugifyIdempotent` and `SlugifyKeepsLettersAndDigits` state its properties |
| DeviceDiscovery.UnknownDeviceIsSlug | src/evmqtt/device_discovery.py:69 | the fallback `unknown-device` is itself a slug |
| DeviceDiscovery.SlugifyFixesSlugs | src/evmqtt/device_discovery.py:59-69 | a slug is left unchanged |
| DeviceDiscovery.SlugifyIdempotent | src/evmqtt/device_discovery.py:59-69 | slugifying twice is slugifying once |
| DeviceDiscovery.SlugifyKeepsLettersAndDigits | src/evmqtt/device_discovery.py:59-69 | the slug keeps every letter and digit of the lower-cased name, in order, and adds none; a name with none gives `unknown-device` |
| DeviceDiscovery.SlugifyWord | tests/test_device_discovery.py:22-58 | a word without separators becomes its lower-cased letters and digits |
| DeviceDiscovery.SlugifyAfterWord | tests/test_device_discovery.py:22-46 | a run of spaces or underscores between words becomes one `-` |
| DeviceDiscovery.UniqueIdOfDevicePath | src/evmqtt/device_discovery.py:91-103 | for `<dir>/<event>` the id is `evmqtt_<slug>_<event>` |
| DeviceDiscovery.UniqueIdInjective | src/evmqtt/device_discovery.py:101-103 | equal ids mean equal slugs and equal event names |
| DeviceDiscovery.GenerateUniqueId | src/evmqtt/device_discovery.py:91-103 | `evmqtt_<slug>_<last path piece>`; `UniqueIdOfDevicePath` and `UniqueIdInjective` state what the id ends with and that it determines slug and event name |
| DeviceDiscovery.CapabilityName | src/evmqtt/device_discovery.py:82-87 | the table's name for a known code, `EV_<code>` otherwise; `CapabilityNameIsKeyOnlyFromTable` and `UnknownCapabilityNamesDiffer` state that `EV_KEY` only comes from the table and unknown codes stay distinct |
| DeviceDiscovery.CapabilityNameIsKeyOnlyFromTable | src/evmqtt/device_discovery.py:81-88 | a code reads as `EV_KEY` only when the table names it so |
| DeviceDiscovery.UnknownCapabilityNamesDiffer | src/evmqtt/device_discovery.py:86-87 | different unknown codes get different `EV_<n>` names |
| DeviceDiscovery.CapabilityNames | src/evmqtt/device_discovery.py:81-88 | one name per code, in report order |
| DeviceDiscovery.GetDeviceCapabilities | src/evmqtt/device_discovery.py:72-88 | the loop returns the names of the reported codes, in order |
| DeviceDiscovery.HasKeysFromTable | src/evmqtt/device_discovery.py:37-39 | a described device has keys iff the table names one of its codes `EV_KEY` |
| DeviceDiscovery.DiscoveredDevice.HasKeys | src/evmqtt/device_discovery.py:36-39 | `EV_KEY` is among the capabilities; `HasKeysFromTable` states when that holds in terms of the reported codes |
| DeviceDiscovery.NumberedSlugsDiffer | src/evmqtt/device_discovery.py:137-143 | the first, second, third ... numbering of a base slug are all different |
| DeviceDiscovery.Kept | src/evmqtt/device_discovery.py:120-132 | only listed paths that open and, when filtering, report `EV_KEY` are kept |
| DeviceDiscovery.KeptMembers | src/evmqtt/device_discovery.py:120-165 | a path is kept iff it is listed, opens and, when filtering, reports `EV_KEY` |
| DeviceDiscovery.DiscoverDevices | src/evmqtt/device_discovery.py:106-168 | the devices are exactly the kept paths in sorted order; each is described from its probe with its base slug numbered by earlier occurrences; when filtering, each has keys; the result is `Discovery` of the inputs |
| DeviceDiscovery.NumberedDevicesPaths | src/evmqtt/device_discovery.py:120-165 | numbering the kept paths yields one device per kept path, in the same order |
| DeviceDiscovery.DiscoveryPaths | src/evmqtt/device_discovery.py:120-132 | every discovered device is a listed path that opens and, when filtering, reports `EV_KEY` |
| DeviceDiscovery.Discovery | src/evmqtt/device_discovery.py:106-168 | the devices `discover_devices` returns: the kept paths in sorted order, each numbered after the devices before it; `DiscoverDevices`, `NumberedDevicesPaths`, `DiscoveryPaths` and `SameBaseDistinctSlugs` state its properties |
| DeviceDiscovery.NumberSlug | src/evmqtt/device_discovery.py:137-143 | the slug is numbered by the occurrences so far, and the counter then counts this one too |
| DeviceDiscovery.DiscoverDeviceByPath | src/evmqtt/device_discovery.py:171-195 | `None` iff the path does not open; otherwise the record with the unnumbered slug |
| DeviceDiscovery.SameBaseDistinctSlugs | src/evmqtt/device_discovery.py:137-143 | two devices with the same base slug get different slugs |
| DeviceDiscovery.FirstOfBaseIsUnnumbered | src/evmqtt/device_discovery.py:137-143 | the first device with a base slug is the record `discover_device_by_path` gives |
| DeviceDiscovery.CollidingNames | src/evmqtt/device_discovery.py:59-69 | `x` and `x-2` are their own slugs |
| DeviceDiscovery.NumberingCanCollide | src/evmqtt/device_discovery.py:137-143 | devices named `x`, `x`, `x-2` end up with two `x-2` slugs |
| Configuration.Validate | src/evmqtt/config.py:44-56 | no error iff valid; otherwise the first failing check in source order (empty server, port outside 1..65535, empty topic, no devices without auto-discovery) |
| Configuration.NewConfig | src/evmqtt/config.py:44-56 | construction succeeds iff the config is valid; otherwise it fails with the validation error |
| Configuration.StrAt | src/evmqtt/config.py:72-77 | a missing key is a `KeyError`; present string values are returned |
| Configuration.IntAt | src/evmqtt/config.py:73 | a missing key is a `KeyError`; present integer values are returned |
| Configuration.FromDict | src/evmqtt/config.py:59-83 | a `KeyError` names a missing required key; success gives a valid config with the data's values and the defaults for absent optional keys |
| Configuration.FromDictMissingKey | src/evmqtt/config.py:72-77 | the first missing required key, in argument order, is the one reported |
| Configuration.FromDictReadable | src/evmqtt/config.py:59-83 | for well-typed data, success iff the config read off the data is valid, with that value, else its validation error |
| Configuration.StrFallback | src/evmqtt/config.py:98-101 | the `mqtt_` key wins when present, then the plain key, then the default |
| Configuration.FromHaOptions | src/evmqtt/config.py:86-109 | never a `KeyError`; no host at all fails; success is valid; each `mqtt_` key wins, else the plain key (`serverip`, `port`, `username`, `password`) is used, else the defaults 1883 and empty credentials; `name`, `topic`, `devices`, `enabled_devices`, `auto_discover` and `filter_keys_only` are copied when present and otherwise default to `evmqtt`, `homeassistant/sensor/evmqtt`, empty lists, false and true |
| Configuration.HaOptionsAgreeWithFromDict | src/evmqtt/config.py:86-109 | without `mqtt_` keys and with every required key present, add-on options read like a plain config |
| Configuration.ChooseSource | src/evmqtt/config.py:134-151 | explicit path, then the environment variable, then `/data/options.json` (add-on mode), then `config.local.json`, then `config.json`, each level chosen exactly when the earlier ones do not apply and its file exists; none iff no candidate applies |
| Configuration.Load | src/evmqtt/config.py:112-162 | each of the five precedence levels reads its file with the right reader (`from_ha_options` for the add-on file, `from_dict` for the others, `config.json` included); a chosen file that does not exist is `FileNotFound`; `NoConfigFile` iff no source applies; success is valid |
| Lifecycle.LogLevel | src/evmqtt/__main__.py:28-40 | debug gives DEBUG; else verbose gives INFO; else WARNING |
| Lifecycle.WithAutoDiscover | src/evmqtt/__main__.py:338-351 | succeeds iff server, port and topic are valid, with auto-discovery turned on and every other field kept; any valid config succeeds |
| Lifecycle.DiscoveredMonitorsExact | src/evmqtt/__main__.py:168-194 | every monitor is the monitor for some discovered device that opens; one monitor per such device, with its slug and id, enabled iff the enabled list is empty or names it |
| Lifecycle.DiscoveredMonitorsFiltered | src/evmqtt/__main__.py:168-194 | in auto-discovery mode every monitor watches a listed path that opens; with `filter_keys_only` set each such device reports `EV_KEY` |
| Lifecycle.MonitorFor | src/evmqtt/__main__.py:226-255 | the monitor for a discovered device, with its path, slug and id, enabled as `enabled_devices` says; `DiscoveredMonitorsExact` ties each auto-discovered monitor to one |
| Lifecycle.DiscoveredMonitors | src/evmqtt/__main__.py:168-194 | the monitors `_setup_auto_discovery` creates, never more than the discovered devices; `DiscoveredMonitorsExact` and `DiscoveredMonitorsFiltered` state exactly which |
| Lifecycle.ManualMonitorsExact | src/evmqtt/__main__.py:196-224 | monitors exist exactly for the configured paths that open; all enabled, no slug |
| Lifecycle.ManualMonitors | src/evmqtt/__main__.py:196-224 | the monitors `_setup_manual_devices` creates, never more than the configured paths; `ManualMonitorsExact` and `AllOpenedManualMonitors` state exactly which |
| Lifecycle.AllOpenedManualMonitors | src/evmqtt/__main__.py:212-224 | when every path opens, one monitor per path in order |
| Lifecycle.ForEachAt | src/evmqtt/__main__.py:163-164 | the i-th call acts on the i-th monitor |
| Lifecycle.ByPath | src/evmqtt/__main__.py:215-218 | every monitor's path is a key, mapped to a monitor with that path |
| Lifecycle.ByPathKeepsLast | src/evmqtt/__main__.py:245-249 | a path maps to the last monitor created for it |
| Lifecycle.Application.constructor | src/evmqtt/__main__.py:121-132 | no client, no monitors, no calls, no shutdown request |
| Lifecycle.Application.Start | src/evmqtt/__main__.py:134-166 | no connection gives a timeout; otherwise the monitors are created; none gives the no-devices outcome; else connect, autodiscovery, subscriptions and monitor starts happen in order |
| Lifecycle.Application.CreateDiscovered | src/evmqtt/__main__.py:168-194 | runs discovery with the config's `filter_keys_only`, registers exactly the monitors for the discovered devices and publishes their autodiscovery in order |
| Lifecycle.Application.Discover | src/evmqtt/__main__.py:171 | the devices are what `discover_devices` yields for the host with the config's `filter_keys_only` |
| Lifecycle.Application.CreateManual | src/evmqtt/__main__.py:196-224 | registers exactly the manual monitors and publishes their autodiscovery in order |
| Lifecycle.Application.Register | src/evmqtt/__main__.py:226-255 | appends the monitor, indexes it by path and records its autodiscovery |
| Lifecycle.Application.Announce | src/evmqtt/__main__.py:257-269 | one call per monitor, in order |
| Lifecycle.Application.Stop | src/evmqtt/__main__.py:292-308 | the first stop stops every monitor, then disconnects whenever a client was created; a repeated stop does nothing |
| Lifecycle.Serve | src/evmqtt/__main__.py:358-376 | exit 0 iff connected and a monitor opened; the monitors then start and stop; a failed connection connects and disconnects only |
| Lifecycle.RunGateway | src/evmqtt/__main__.py:322-376 | a load failure exits 1 with no application; otherwise the application runs on the loaded config with the override applied, shutdown is requested and the exit code is as above |
| Legacy.EventEffect | evmqtt.py:140-156 | non-key events change nothing; key events record modifiers; a press of a key that is neither a modifier nor ignored publishes the key plus the suffix |
| Legacy.IsModifier | evmqtt.py:114-118 | true exactly for the four legacy modifier keys; `EventEffect` publishes no press of them and `RunEffectInvariants` shows only they are stored |
| Legacy.IsIgnore | evmqtt.py:120-124 | true exactly for `KEY_NUMLOCK`; `EventEffect` publishes no press of it |
| Legacy.RunEffect | evmqtt.py:140-156 | the effect of handling the events read, in order, with at most one message per event; `RunEffectAppend`, `NonKeyEventIgnored` and `RunEffectInvariants` state its properties |
| Legacy.RunEffectAppend | evmqtt.py:147-154 | handling two stretches of events one after the other is handling their concatenation |
| Legacy.NonKeyEventIgnored | evmqtt.py:150 | a non-key event can be dropped from the stream without effect |
| Legacy.RunEffectInvariants | evmqtt.py:93-112 | only the four modifier keys are stored and every message goes to the monitor's topic |
| Legacy.AgreesWithKeyHandler | evmqtt.py:95-124 | with the legacy modifier and ignore sets, `KeyHandler` gives the same new state, publish decision and key string |
| Legacy.LegacyGateway.constructor | evmqtt.py:93 | the module-wide key state starts empty |
| Legacy.LegacyGateway.SetModifier | evmqtt.py:106-112 | only the four shift and control keys are recorded |
| Legacy.LegacyGateway.GetModifiers | evmqtt.py:95-104 | the map-ordered collection, once sorted, is exactly the packaged handler's suffix |
| Legacy.LegacyGateway.Run | evmqtt.py:140-156 | key state and published messages end as `RunEffect` says |

## Left out

- KeyHandling.KeyHandler.ShouldPublish and InputMonitoring.InputMonitor.KeyEventEffect: the `IndexError` that `keycode[0]` raises for a key event reporting an empty keycode list (key_handler.py:110, input_monitor.py:124) is excluded by a precondition (`HasPrimary`, and `WellFormed` for run scripts), because the device layer never reports an empty list.
- `mqtt_client.py` is not part of this model. Connecting, reconnecting, QoS and the MQTT wire format are left out. A connection attempt is a boolean input, and publications and calls are recorded values.
- evdev I/O is left out: opening, `grab`, `read_loop`, `categorize` and `list_devices`. Device lists, probes and event streams are inputs, and every kind of open error is folded into "the path does not open".
- Threads, locks, signals, `wait()`/`join()` and the legacy `Watcher` thread are left out. A concurrent `stop()` is a step in the monitor's script. The application's run ends as one `stop()` after a successful start.
- JSON parsing and file reading are left out. A file is a map of typed values. A value of the wrong JSON type is a `TypeMismatch` failure, whereas Python would store it or fail later.
- Configuration.FromDict: the model rejects ill-typed values such as a string port with `TypeMismatch`, where Python builds the config and fails later or not at all.
- `slugify` is modelled over ASCII only: Unicode letters and `str.lower()` outside A–Z are not modelled.
- The switch/enable features the tests refer to (`enabled`, `handle_switch_command`, `cleanup_autodiscovery`) are not in the `InputMonitor` modelled here. Lifecycle records `setup_autodiscovery` as a `PublishDiscovery` call and subscriptions as `Subscribe` calls, with no command handling. `_on_device_enabled_change` is left out.
- Lifecycle.Application: all monitors share one `KeyHandler`, but Lifecycle's `Monitor` values do not hold it. Key handling is modelled per monitor in `InputMonitoring`.
- Legacy: list keycodes are not modelled in the legacy script (its `keycode` is a single string), and neither are its `on_connect`/`on_message` logging callbacks.
- `generate_client_id`, `parse_args`, `list_devices_and_exit`, `list_available_devices` and the log messages are left out (randomness, the argument parser and console output). `setup_logging` is modelled by its level choice only.
- Exceptions raised inside `connect()` other than a timeout are left out.
