/**
 * One monitored input device (`InputMonitor`): its topics, its autodiscovery
 * record, the handling of one key event and the event loop with its stop flag.
 *
 * The MQTT client is represented by `outbox`, the publications the monitor has
 * made, in order. The device is represented by a script of steps: an event the
 * read loop returns, a `stop()` call made by another thread between two reads,
 * or a read error.
 */
module InputMonitoring {
  import opened Text
  import opened KeyHandling

  /** `evdev.ecodes.EV_KEY` */
  const EV_KEY := 1

  /** A raw input event; `keycode` and `keystate` are what `categorize` gives for a key event. */
  datatype Event = Event(evType: int, keycode: KeyCode, keystate: int)

  /** The JSON objects the monitor publishes. */
  datatype Payload =
    | SensorConfig(name: string, stateTopic: string, icon: string, uniqueId: string)
    | KeyMessage(key: string, devicePath: string, deviceName: string)

  /** One call of `publish(topic, payload, retain=...)`; the QoS is always 0. */
  datatype Publication = Publication(topic: string, payload: Payload, retain: bool)

  /** What happens next while `run` is reading the device. */
  datatype Step = Read(event: Event) | StopRequested | ReadFailed

  /** What `run` does with a script: final modifier state, publications, stop flag. */
  datatype Effect = Effect(keyState: map<string, int>, published: seq<Publication>, stopped: bool)

  /** A key event always names a primary key (evdev never reports an empty list). */
  predicate WellFormed(e: Event)
  {
    e.evType == EV_KEY ==> HasPrimary(e.keycode)
  }

  predicate WellFormedScript(script: seq<Step>)
  {
    forall i :: 0 <= i < |script| ==> script[i].Read? ==> WellFormed(script[i].event)
  }

  lemma WellFormedTail(script: seq<Step>)
    requires |script| > 0 && WellFormedScript(script)
    ensures WellFormedScript(script[1..])
  {
    forall i | 0 <= i < |script| - 1 && script[1..][i].Read? ensures WellFormed(script[1..][i].event) {
      assert script[1..][i] == script[i + 1];
    }
  }

  function StateTopic(baseTopic: string): string
  {
    baseTopic + "/state"
  }

  function ConfigTopic(baseTopic: string): string
  {
    baseTopic + "/config"
  }

  /** The state and config topics never coincide, whatever the base topics. */
  lemma {:induction false} StateAndConfigTopicsDiffer(base1: string, base2: string)
    ensures StateTopic(base1) != ConfigTopic(base2)
  {
    var s, c := StateTopic(base1), ConfigTopic(base2);
    assert s[|s| - 1] == 'e' && c[|c| - 1] == 'g';
  }

  /** Different base topics give different state topics. */
  lemma {:induction false} StateTopicInjective(base1: string, base2: string)
    requires StateTopic(base1) == StateTopic(base2)
    ensures base1 == base2
  {
    assert base1 == StateTopic(base1)[..|base1|];
    assert base2 == StateTopic(base2)[..|base2|];
  }

  /** `path.replace('/', '_')` */
  function SlashesToUnderscores(path: string): (r: string)
    ensures |r| == |path|
    ensures forall i :: 0 <= i < |path| ==> r[i] == (if path[i] == '/' then '_' else path[i])
  {
    if path == [] then []
    else [if path[0] == '/' then '_' else path[0]] + SlashesToUnderscores(path[1..])
  }

  /** The `unique_id` of the sensor autodiscovery record. */
  function SensorUniqueId(devicePath: string): (r: string)
    ensures |r| == 7 + |devicePath|
    ensures r[..7] == "evmqtt_"
    ensures forall i :: 7 <= i < |r| ==> r[i] != '/'
    ensures forall i :: 0 <= i < |devicePath| ==> r[7 + i] == (if devicePath[i] == '/' then '_' else devicePath[i])
  {
    "evmqtt_" + SlashesToUnderscores(devicePath)
  }

  /** Paths that contain no `_` get different unique ids. */
  lemma SensorUniqueIdInjective(p1: string, p2: string)
    requires '_' !in p1 && '_' !in p2
    requires SensorUniqueId(p1) == SensorUniqueId(p2)
    ensures p1 == p2
  {
    var r1, r2 := SlashesToUnderscores(p1), SlashesToUnderscores(p2);
    assert r1 == SensorUniqueId(p1)[7..] && r2 == SensorUniqueId(p2)[7..];
    forall i | 0 <= i < |p1| ensures p1[i] == p2[i] {
      assert p1[i] in p1 && p2[i] in p2;
    }
  }

  class InputMonitor {
    /** The modifier tracker, possibly shared with other monitors. */
    const handler: KeyHandler
    const devicePath: string
    const deviceName: string
    const stateTopic: string
    const configTopic: string
    const gatewayName: string
    /** `_stop_event`: set by `stop()`, never cleared. */
    var stopRequested: bool
    /** Everything this monitor has published, oldest first. */
    var outbox: seq<Publication>

    /** The retained autodiscovery record published when the monitor is created. */
    function Autodiscovery(): (p: Publication)
      ensures p.topic == configTopic && p.retain
      ensures p.payload == SensorConfig(gatewayName, stateTopic, "mdi:code-json", SensorUniqueId(devicePath))
    {
      Publication(configTopic, SensorConfig(gatewayName, stateTopic, "mdi:code-json", SensorUniqueId(devicePath)), true)
    }

    /**
     * Opening the device is not modelled: its path and name are parameters.
     * The constructor derives the topics and publishes the autodiscovery record once.
     */
    constructor (handler: KeyHandler, devicePath: string, deviceName: string, baseTopic: string, gatewayName: string)
      ensures this.handler == handler && this.devicePath == devicePath && this.deviceName == deviceName
      ensures this.gatewayName == gatewayName
      ensures stateTopic == StateTopic(baseTopic) && configTopic == ConfigTopic(baseTopic)
      ensures !stopRequested
      ensures outbox == [Autodiscovery()]
    {
      this.handler := handler;
      this.devicePath := devicePath;
      this.deviceName := deviceName;
      stateTopic := StateTopic(baseTopic);
      configTopic := ConfigTopic(baseTopic);
      this.gatewayName := gatewayName;
      stopRequested := false;
      new;
      outbox := [Autodiscovery()];
    }

    /**
     * What `_handle_key_event` does from modifier state `state`: the modifier
     * state is updated with the primary key first, whether or not the event is
     * published; at most one message goes out, to the state topic, not
     * retained, and its key carries the suffix of the updated state.
     */
    function KeyEventEffect(state: map<string, int>, keycode: KeyCode, keystate: int)
      : (r: (map<string, int>, seq<Publication>))
      requires HasPrimary(keycode)
      ensures r.0 == NextKeyState(handler.modifiers, state, PrimaryKey(keycode), keystate)
      ensures |r.1| <= 1
      ensures |r.1| == 1 <==> handler.ShouldPublish(keycode, keystate)
      ensures |r.1| == 1 ==> r.1[0] == Publication(stateTopic,
                KeyMessage(KeyHandler.FormatKeycode(keycode) + ModifierSuffix(r.0), devicePath, deviceName), false)
    {
      var next := NextKeyState(handler.modifiers, state, PrimaryKey(keycode), keystate);
      if !handler.ShouldPublish(keycode, keystate) then
        (next, [])
      else
        var message := KeyMessage(KeyHandler.FormatKeycode(keycode) + ModifierSuffix(next), devicePath, deviceName);
        (next, [Publication(stateTopic, message, false)])
    }

    method HandleKeyEvent(event: Event)
      requires handler.Valid()
      requires HasPrimary(event.keycode)
      modifies this`outbox, handler`keyState
      ensures handler.Valid()
      ensures var (next, published) := KeyEventEffect(old(handler.keyState), event.keycode, event.keystate);
              handler.keyState == next && outbox == old(outbox) + published
    {
      var keycode, keystate := event.keycode, event.keystate;
      var primary := PrimaryKey(keycode);
      handler.UpdateModifierState(primary, keystate);
      if !handler.ShouldPublish(keycode, keystate) {
        return;
      }
      var formatted := KeyHandler.FormatKeycode(keycode);
      var suffix := handler.GetModifierSuffix();
      var message := KeyMessage(formatted + suffix, devicePath, deviceName);
      outbox := outbox + [Publication(stateTopic, message, false)];
    }

    /**
     * What `run` does with `script` once the device is grabbed, from modifier
     * state `state` and stop flag `stopped`. The loop ends at a read error or at
     * the first event read after the stop flag is set; that event is not handled.
     */
    function RunEffect(state: map<string, int>, stopped: bool, script: seq<Step>): (r: Effect)
      requires WellFormedScript(script)
      ensures stopped ==> r.stopped
      decreases |script|
    {
      if script == [] then Effect(state, [], stopped)
      else
        WellFormedTail(script);
        match script[0]
        case StopRequested => RunEffect(state, true, script[1..])
        case ReadFailed => Effect(state, [], stopped)
        case Read(event) =>
          if stopped then Effect(state, [], stopped)
          else if event.evType != EV_KEY then RunEffect(state, stopped, script[1..])
          else
            var (next, published) := KeyEventEffect(state, event.keycode, event.keystate);
            var rest := RunEffect(next, stopped, script[1..]);
            Effect(rest.keyState, published + rest.published, rest.stopped)
    }

    /** `stop()`: sets the stop flag. */
    method Stop()
      modifies this`stopRequested
      ensures stopRequested
    {
      stopRequested := true;
    }

    /**
     * `run()`. When the grab fails nothing is read. Otherwise the loop consumes
     * the script: a stop request sets the flag (as a concurrent `stop()` would),
     * a read error ends the loop, an event read with the flag set ends the loop
     * unprocessed, a non-key event is skipped, and a key event is handled.
     */
    method Run(script: seq<Step>, grabSucceeded: bool)
      requires handler.Valid()
      requires WellFormedScript(script)
      modifies this`outbox, this`stopRequested, handler`keyState
      ensures handler.Valid()
      ensures !grabSucceeded ==>
        outbox == old(outbox) && handler.keyState == old(handler.keyState) && stopRequested == old(stopRequested)
      ensures grabSucceeded ==>
        var e := RunEffect(old(handler.keyState), old(stopRequested), script);
        handler.keyState == e.keyState && outbox == old(outbox) + e.published && stopRequested == e.stopped
    {
      if !grabSucceeded {
        return;
      }
      ghost var final := RunEffect(handler.keyState, stopRequested, script);
      var i := 0;
      while i < |script|
        invariant 0 <= i <= |script|
        invariant handler.Valid()
        invariant WellFormedScript(script[i..])
        decreases |script| - i
        invariant var rest := RunEffect(handler.keyState, stopRequested, script[i..]);
          rest.keyState == final.keyState && rest.stopped == final.stopped
          && old(outbox) + final.published == outbox + rest.published
      {
        WellFormedTail(script[i..]);
        assert script[i..][1..] == script[i + 1..];
        match script[i] {
          case StopRequested =>
            Stop();
          case ReadFailed =>
            break;
          case Read(event) =>
            if stopRequested {
              break;
            }
            if event.evType == EV_KEY {
              HandleKeyEvent(event);
            }
        }
        i := i + 1;
      }
      assert i == |script| ==> script[i..] == [];
    }

    // -------------------------------------------------------------------------
    // Properties of the event loop
    // -------------------------------------------------------------------------

    /** Once the stop flag is set, no further event changes anything. */
    lemma {:induction false} StoppedRunIsInert(state: map<string, int>, script: seq<Step>)
      requires WellFormedScript(script)
      ensures RunEffect(state, true, script) == Effect(state, [], true)
      decreases |script|
    {
      if script != [] {
        WellFormedTail(script);
        if script[0].StopRequested? {
          StoppedRunIsInert(state, script[1..]);
        }
      }
    }

    /** Whatever follows a stop request is never processed. */
    lemma {:induction false} NothingAfterStop(state: map<string, int>, stopped: bool, before: seq<Step>, after: seq<Step>)
      requires WellFormedScript(before + [StopRequested] + after)
      ensures WellFormedScript(before)
      ensures var e := RunEffect(state, stopped, before + [StopRequested] + after);
              var b := RunEffect(state, stopped, before);
              e.keyState == b.keyState && e.published == b.published
      decreases |before|
    {
      var whole := before + [StopRequested] + after;
      assert forall i :: 0 <= i < |before| ==> before[i] == whole[i];
      WellFormedTail(whole);
      if before == [] {
        assert whole[1..] == after;
        StoppedRunIsInert(state, after);
      } else {
        assert whole[1..] == before[1..] + [StopRequested] + after;
        WellFormedTail(before);
        match before[0]
        case StopRequested =>
          NothingAfterStop(state, true, before[1..], after);
        case ReadFailed =>
        case Read(event) =>
          if !stopped {
            if event.evType != EV_KEY {
              NothingAfterStop(state, stopped, before[1..], after);
            } else {
              var (next, _) := KeyEventEffect(state, event.keycode, event.keystate);
              NothingAfterStop(next, stopped, before[1..], after);
            }
          }
      }
    }

    /** A non-key event has no effect: removing it from the script changes nothing. */
    lemma {:induction false} NonKeyEventIgnored(state: map<string, int>, stopped: bool, before: seq<Step>, event: Event, after: seq<Step>)
      requires event.evType != EV_KEY
      requires WellFormedScript(before + after)
      ensures WellFormedScript(before + [Read(event)] + after)
      ensures RunEffect(state, stopped, before + [Read(event)] + after) == RunEffect(state, stopped, before + after)
      decreases |before|
    {
      var whole := before + [Read(event)] + after;
      assert WellFormedScript(whole) by {
        forall i | 0 <= i < |whole| && whole[i].Read? ensures WellFormed(whole[i].event) {
          if i < |before| {
            assert whole[i] == (before + after)[i];
          } else if i > |before| {
            assert whole[i] == (before + after)[i - 1];
          }
        }
      }
      if before == [] {
        assert whole[0] == Read(event) && whole[1..] == after && before + after == after;
        if stopped {
          StoppedRunIsInert(state, after);
        }
      } else {
        assert whole[1..] == before[1..] + [Read(event)] + after;
        assert (before + after)[1..] == before[1..] + after;
        assert (before + after)[0] == before[0];
        WellFormedTail(before + after);
        match before[0]
        case StopRequested =>
          NonKeyEventIgnored(state, true, before[1..], event, after);
        case ReadFailed =>
        case Read(e) =>
          if !stopped {
            if e.evType != EV_KEY {
              NonKeyEventIgnored(state, stopped, before[1..], event, after);
            } else {
              var (next, _) := KeyEventEffect(state, e.keycode, e.keystate);
              NonKeyEventIgnored(next, stopped, before[1..], event, after);
            }
          }
      }
    }

    /** Every message of the loop goes to the state topic, not retained, and names this device. */
    lemma {:induction false} RunPublishesKeyMessagesOnly(state: map<string, int>, stopped: bool, script: seq<Step>)
      requires WellFormedScript(script)
      ensures forall p :: p in RunEffect(state, stopped, script).published ==>
        p.topic == stateTopic && !p.retain && p.payload.KeyMessage?
        && p.payload.devicePath == devicePath && p.payload.deviceName == deviceName
      decreases |script|
    {
      if script != [] {
        WellFormedTail(script);
        match script[0]
        case StopRequested =>
          RunPublishesKeyMessagesOnly(state, true, script[1..]);
        case ReadFailed =>
        case Read(event) =>
          if !stopped {
            if event.evType != EV_KEY {
              RunPublishesKeyMessagesOnly(state, stopped, script[1..]);
            } else {
              var (next, _) := KeyEventEffect(state, event.keycode, event.keystate);
              RunPublishesKeyMessagesOnly(next, stopped, script[1..]);
            }
          }
      }
    }

    // -------------------------------------------------------------------------
    // Scenarios
    // -------------------------------------------------------------------------

    /** A modifier pressed alone publishes nothing but is remembered. */
    lemma ModifierAlone(m: string)
      requires m in handler.modifiers
      ensures RunEffect(map[], false, [Read(Event(EV_KEY, Single(m), KEY_DOWN))]) == Effect(map[m := KEY_DOWN], [], false)
    {
      var script := [Read(Event(EV_KEY, Single(m), KEY_DOWN))];
      assert !handler.ShouldPublish(Single(m), KEY_DOWN);
      assert script[1..] == [];
      assert map[][m := KEY_DOWN] == map[m := KEY_DOWN];
    }

    /**
     * A modifier pressed, then an ordinary key pressed: exactly one message,
     * whose key is the ordinary key followed by `_` and the modifier
     * (`KEY_A_KEY_LEFTSHIFT` for shift then A).
     */
    lemma ModifierThenKey(m: string, k: string)
      requires m in handler.modifiers && k !in handler.modifiers && k !in handler.ignoredKeys
      ensures RunEffect(map[], false, [Read(Event(EV_KEY, Single(m), KEY_DOWN)), Read(Event(EV_KEY, Single(k), KEY_DOWN))]).published
           == [Publication(stateTopic, KeyMessage(k + "_" + m, devicePath, deviceName), false)]
    {
      var press := Read(Event(EV_KEY, Single(k), KEY_DOWN));
      var script := [Read(Event(EV_KEY, Single(m), KEY_DOWN)), press];
      var held := map[m := KEY_DOWN];
      var message := Publication(stateTopic, KeyMessage(k + "_" + m, devicePath, deviceName), false);
      assert map[][m := KEY_DOWN] == held;
      assert KeyEventEffect(map[], Single(m), KEY_DOWN) == (held, []);
      SingleModifierSuffix(m);
      assert k + ModifierSuffix(held) == k + "_" + m;
      assert KeyEventEffect(held, Single(k), KEY_DOWN) == (held, [message]);
      assert script[1..] == [press] && [press][1..] == [];
      var second := RunEffect(held, false, [press]);
      assert second.published == [message] + RunEffect(held, false, []).published;
    }

    /** A press then a release of an ordinary key, no modifier held: one message, for the press only. */
    lemma PressThenRelease(k: string)
      requires k !in handler.modifiers && k !in handler.ignoredKeys
      ensures RunEffect(map[], false, [Read(Event(EV_KEY, Single(k), KEY_DOWN)), Read(Event(EV_KEY, Single(k), KEY_UP))]).published
           == [Publication(stateTopic, KeyMessage(k, devicePath, deviceName), false)]
    {
      var release := Read(Event(EV_KEY, Single(k), KEY_UP));
      var script := [Read(Event(EV_KEY, Single(k), KEY_DOWN)), release];
      var message := Publication(stateTopic, KeyMessage(k, devicePath, deviceName), false);
      assert ModifierSuffix(map[]) == "";
      assert k + "" == k;
      assert KeyEventEffect(map[], Single(k), KEY_DOWN) == (map[], [message]);
      assert KeyEventEffect(map[], Single(k), KEY_UP) == (map[], []);
      assert script[1..] == [release] && [release][1..] == [];
      assert RunEffect(map[], false, [release]) == Effect(map[], [], false);
    }

    /** An ignored key is never published, even when pressed. */
    lemma IgnoredKeyPress(k: string)
      requires k in handler.ignoredKeys && k !in handler.modifiers
      ensures RunEffect(map[], false, [Read(Event(EV_KEY, Single(k), KEY_DOWN))]) == Effect(map[], [], false)
    {
      var script := [Read(Event(EV_KEY, Single(k), KEY_DOWN))];
      assert script[1..] == [];
    }

    /** A multi-code report with no modifier held publishes all its codes joined by `|`. */
    lemma MultiCodeReport(codes: seq<string>)
      requires |codes| >= 1 && codes[0] !in handler.modifiers && codes[0] !in handler.ignoredKeys
      ensures RunEffect(map[], false, [Read(Event(EV_KEY, Multi(codes), KEY_DOWN))]).published
           == [Publication(stateTopic, KeyMessage(Join(codes, "|"), devicePath, deviceName), false)]
    {
      var script := [Read(Event(EV_KEY, Multi(codes), KEY_DOWN))];
      var message := Publication(stateTopic, KeyMessage(Join(codes, "|"), devicePath, deviceName), false);
      assert ModifierSuffix(map[]) == "";
      assert Join(codes, "|") + "" == Join(codes, "|");
      assert KeyEventEffect(map[], Multi(codes), KEY_DOWN) == (map[], [message]);
      assert script[1..] == [];
    }
  }
}
