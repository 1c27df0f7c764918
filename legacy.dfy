/**
 * The original single-file gateway (`evmqtt.py`): a module-wide modifier map
 * shared by every monitor thread, four modifier keys, one ignored key, and a
 * plain-string message `keycode + get_modifiers()` published to a fixed topic.
 *
 * The module-level globals `key_state` and the client's published messages
 * are the fields of `LegacyGateway`.
 */
module Legacy {
  import opened Text
  import opened KeyHandling

  /** `evdev.ecodes.EV_KEY` */
  const EV_KEY := 1

  /** `modifiers`: only shift and control are tracked. */
  const Modifiers: set<string> := {"KEY_LEFTSHIFT", "KEY_RIGHTSHIFT", "KEY_LEFTCTRL", "KEY_RIGHTCTRL"}

  /** `ignore`: the remote toggles num-lock around every digit. */
  const Ignore: set<string> := {"KEY_NUMLOCK"}

  /** An input event as `categorize` presents it; the legacy script only handles single key codes. */
  datatype LegacyEvent = LegacyEvent(evType: int, keycode: string, keystate: int)

  /** One `mqttclient.publish(topic, msg)` call. */
  datatype Message = Message(topic: string, payload: string)

  predicate IsModifier(keycode: string)
  {
    keycode in Modifiers
  }

  predicate IsIgnore(keycode: string)
  {
    keycode in Ignore
  }

  /**
   * What handling one event does from modifier state `state`: non-key events
   * change nothing; a key event records the modifier first, then publishes
   * the key with the suffix of the updated state when it is a press of a key
   * that is neither a modifier nor ignored.
   */
  function EventEffect(state: map<string, int>, topic: string, e: LegacyEvent): (r: (map<string, int>, seq<Message>))
    ensures e.evType != EV_KEY ==> r == (state, [])
    ensures e.evType == EV_KEY ==> r.0 == NextKeyState(Modifiers, state, e.keycode, e.keystate)
    ensures |r.1| == 1 <==> e.evType == EV_KEY && !IsModifier(e.keycode) && !IsIgnore(e.keycode) && e.keystate == KEY_DOWN
    ensures |r.1| <= 1
    ensures |r.1| == 1 ==> r.1[0] == Message(topic, e.keycode + ModifierSuffix(r.0))
  {
    if e.evType != EV_KEY then
      (state, [])
    else
      var next := NextKeyState(Modifiers, state, e.keycode, e.keystate);
      if !IsModifier(e.keycode) && !IsIgnore(e.keycode) && e.keystate == KEY_DOWN then
        (next, [Message(topic, e.keycode + ModifierSuffix(next))])
      else
        (next, [])
  }

  /** What `run` does with the events read, in order; there is no stop flag, so every event is handled. */
  function RunEffect(state: map<string, int>, topic: string, events: seq<LegacyEvent>): (r: (map<string, int>, seq<Message>))
    ensures |r.1| <= |events|
  {
    if |events| == 0 then
      (state, [])
    else
      var before := RunEffect(state, topic, events[..|events| - 1]);
      var last := EventEffect(before.0, topic, events[|events| - 1]);
      (last.0, before.1 + last.1)
  }

  /** Reading two stretches of events one after the other is reading their concatenation. */
  lemma {:induction false} RunEffectAppend(state: map<string, int>, topic: string, a: seq<LegacyEvent>, b: seq<LegacyEvent>)
    ensures var first := RunEffect(state, topic, a);
            var second := RunEffect(first.0, topic, b);
            RunEffect(state, topic, a + b) == (second.0, first.1 + second.1)
    decreases |b|
  {
    var first := RunEffect(state, topic, a);
    if |b| == 0 {
      assert a + b == a;
      assert first.1 + [] == first.1;
    } else {
      var b' := b[..|b| - 1];
      var e := b[|b| - 1];
      assert (a + b)[..|a + b| - 1] == a + b';
      assert (a + b)[|a + b| - 1] == e;
      RunEffectAppend(state, topic, a, b');
      var middle := RunEffect(first.0, topic, b');
      var last := EventEffect(middle.0, topic, e);
      assert RunEffect(state, topic, a + b) == (last.0, first.1 + middle.1 + last.1);
      assert first.1 + middle.1 + last.1 == first.1 + (middle.1 + last.1);
    }
  }

  /** A non-key event anywhere in the stream can be dropped without changing the outcome. */
  lemma NonKeyEventIgnored(state: map<string, int>, topic: string, a: seq<LegacyEvent>, e: LegacyEvent, b: seq<LegacyEvent>)
    requires e.evType != EV_KEY
    ensures RunEffect(state, topic, a + [e] + b) == RunEffect(state, topic, a + b)
  {
    RunEffectAppend(state, topic, a + [e], b);
    RunEffectAppend(state, topic, a, b);
    var first := RunEffect(state, topic, a);
    assert (a + [e])[..|a|] == a;
    assert RunEffect(state, topic, a + [e]) == (first.0, first.1 + []);
    assert first.1 + [] == first.1;
  }

  /** Every message goes to the monitor's topic, and only modifier keys are ever stored. */
  lemma {:induction false} RunEffectInvariants(state: map<string, int>, topic: string, events: seq<LegacyEvent>)
    requires state.Keys <= Modifiers
    ensures RunEffect(state, topic, events).0.Keys <= Modifiers
    ensures forall i :: 0 <= i < |RunEffect(state, topic, events).1| ==> RunEffect(state, topic, events).1[i].topic == topic
  {
    if |events| > 0 {
      RunEffectInvariants(state, topic, events[..|events| - 1]);
      var before := RunEffect(state, topic, events[..|events| - 1]);
      NextKeyStateWithinModifiers(Modifiers, before.0, events[|events| - 1].keycode, events[|events| - 1].keystate);
    }
  }

  /**
   * The legacy gateway and the packaged `KeyHandler` agree on a single-code
   * key event when the handler is configured with the legacy modifier and
   * ignore lists: same new state, same publish decision, same key string.
   */
  lemma AgreesWithKeyHandler(handler: KeyHandler, state: map<string, int>, topic: string, keycode: string, keystate: int)
    requires handler.modifiers == Modifiers && handler.ignoredKeys == Ignore
    ensures var (next, published) := EventEffect(state, topic, LegacyEvent(EV_KEY, keycode, keystate));
            next == NextKeyState(handler.modifiers, state, PrimaryKey(Single(keycode)), keystate) &&
            (|published| == 1 <==> handler.ShouldPublish(Single(keycode), keystate)) &&
            (|published| == 1 ==> published[0].payload == KeyHandler.FormatKeycode(Single(keycode)) + ModifierSuffix(next))
  {
  }

  class LegacyGateway {
    /** `key_state`: the last state of each modifier key seen by any monitor. */
    var keyState: map<string, int>
    /** Every message handed to the MQTT client so far, in order. */
    var published: seq<Message>

    ghost predicate Valid()
      reads this
    {
      keyState.Keys <= Modifiers
    }

    constructor ()
      ensures keyState == map[] && published == []
      ensures Valid()
    {
      keyState := map[];
      published := [];
    }

    /** `set_modifier`: only the four modifier keys are recorded. */
    method SetModifier(keycode: string, keystate: int)
      requires Valid()
      modifies this`keyState
      ensures Valid()
      ensures keyState == NextKeyState(Modifiers, old(keyState), keycode, keystate)
    {
      if keycode in Modifiers {
        keyState := keyState[keycode := keystate];
      }
    }

    /**
     * `get_modifiers`: collects the keys whose state is 1, in whatever order
     * the map yields them, then sorts; the result is the same suffix the
     * packaged handler computes for this state.
     */
    method GetModifiers() returns (r: string)
      ensures r == ModifierSuffix(keyState)
    {
      var ret: seq<string> := [];
      var remaining := keyState.Keys;
      while remaining != {}
        invariant remaining <= keyState.Keys
        invariant forall k :: k in ret <==> k in keyState && k !in remaining && keyState[k] == KEY_DOWN
        invariant forall x :: multiset(ret)[x] <= 1
        decreases remaining
      {
        var x :| x in remaining;
        if keyState[x] == KEY_DOWN {
          ret := ret + [x];
        }
        remaining := remaining - {x};
      }
      var sorted := Sort(ret);
      assert forall x :: multiset(sorted)[x] <= 1;
      MultisetDistinct(sorted);
      SortedDistinctIsStrict(sorted);
      assert forall k :: k in sorted <==> k in multiset(ret);
      ActiveModifiersUnique(keyState, sorted);
      if |sorted| == 0 {
        return "";
      }
      r := "_" + Join(sorted, "_");
    }

    /** `InputMonitor.run` over the events the device yields. */
    method Run(topic: string, events: seq<LegacyEvent>)
      requires Valid()
      modifies this
      ensures Valid()
      ensures var (next, sent) := RunEffect(old(keyState), topic, events);
              keyState == next && published == old(published) + sent
    {
      for i := 0 to |events|
        invariant Valid()
        invariant var (next, sent) := RunEffect(old(keyState), topic, events[..i]);
                  keyState == next && published == old(published) + sent
      {
        var e := events[i];
        assert events[..i + 1][..i] == events[..i];
        if e.evType == EV_KEY {
          SetModifier(e.keycode, e.keystate);
          if !IsModifier(e.keycode) && !IsIgnore(e.keycode) {
            if e.keystate == KEY_DOWN {
              var suffix := GetModifiers();
              published := published + [Message(topic, e.keycode + suffix)];
            }
          }
        }
      }
      assert events[..|events|] == events;
    }
  }
}
