/**
 * Modifier tracking and the publish policy of the gateway (`KeyHandler`).
 *
 * The handler remembers the last state of every modifier key it has seen,
 * decides which key events are published, and formats the published key
 * string: a multi-code report joined with `|`, followed by the sorted active
 * modifiers as `_MOD1_MOD2`.
 */
module KeyHandling {
  import opened Text

  /** evdev reports either one key code or a list of codes for one physical key. */
  datatype KeyCode = Single(code: string) | Multi(codes: seq<string>)

  /** Key states as evdev reports them. */
  const KEY_UP := 0
  const KEY_DOWN := 1
  const KEY_HOLD := 2

  const DefaultModifiers: set<string> := {
    "KEY_LEFTSHIFT", "KEY_RIGHTSHIFT", "KEY_LEFTCTRL", "KEY_RIGHTCTRL",
    "KEY_LEFTALT", "KEY_RIGHTALT", "KEY_LEFTMETA", "KEY_RIGHTMETA"
  }

  const DefaultIgnoredKeys: set<string> := {"KEY_NUMLOCK"}

  /** A list keycode has a first element to index. */
  predicate HasPrimary(keycode: KeyCode)
  {
    keycode.Single? || |keycode.codes| > 0
  }

  /** `keycode[0] if isinstance(keycode, list) else keycode` */
  function PrimaryKey(keycode: KeyCode): string
    requires HasPrimary(keycode)
  {
    if keycode.Single? then keycode.code else keycode.codes[0]
  }

  // ---------------------------------------------------------------------------
  // The modifier state as a value
  // ---------------------------------------------------------------------------

  /** The key-state map after recording `keystate` for `keycode`. */
  function NextKeyState(modifiers: set<string>, state: map<string, int>, keycode: string, keystate: int)
    : (r: map<string, int>)
    ensures keycode !in modifiers ==> r == state
    ensures keycode in modifiers ==> keycode in r && r[keycode] == keystate
    ensures forall k :: k != keycode ==> (k in r <==> k in state)
    ensures forall k :: k != keycode && k in state ==> r[k] == state[k]
  {
    if keycode in modifiers then state[keycode := keystate] else state
  }

  /** Only modifier keys are ever stored. */
  lemma NextKeyStateWithinModifiers(modifiers: set<string>, state: map<string, int>, keycode: string, keystate: int)
    requires state.Keys <= modifiers
    ensures NextKeyState(modifiers, state, keycode, keystate).Keys <= modifiers
  {
  }

  /** Updates of two different keys commute, so the state does not depend on press order. */
  lemma NextKeyStateCommutes(modifiers: set<string>, state: map<string, int>, k1: string, v1: int, k2: string, v2: int)
    requires k1 != k2
    ensures NextKeyState(modifiers, NextKeyState(modifiers, state, k1, v1), k2, v2)
         == NextKeyState(modifiers, NextKeyState(modifiers, state, k2, v2), k1, v1)
  {
    var a := NextKeyState(modifiers, NextKeyState(modifiers, state, k1, v1), k2, v2);
    var b := NextKeyState(modifiers, NextKeyState(modifiers, state, k2, v2), k1, v1);
    assert a.Keys == b.Keys;
    assert forall k :: k in a ==> a[k] == b[k];
  }

  /** The keys whose last recorded state is "pressed". */
  function PressedKeys(state: map<string, int>): set<string>
  {
    set k | k in state && state[k] == KEY_DOWN
  }

  /** `get_active_modifiers`: the pressed keys, in ascending order. */
  function ActiveModifiers(state: map<string, int>): (r: seq<string>)
    ensures StrictlySorted(r)
    ensures forall k :: k in r <==> k in state && state[k] == KEY_DOWN
  {
    SortedSet(PressedKeys(state))
  }

  /** Any ascending list of exactly the pressed keys is the list of active modifiers. */
  lemma ActiveModifiersUnique(state: map<string, int>, s: seq<string>)
    requires StrictlySorted(s)
    requires forall k :: k in s <==> k in state && state[k] == KEY_DOWN
    ensures s == ActiveModifiers(state)
  {
    StrictlySortedUnique(s, ActiveModifiers(state));
  }

  /** `get_modifier_suffix`: empty, or `_` followed by the active modifiers joined by `_`. */
  function ModifierSuffix(state: map<string, int>): (r: string)
    ensures r == "" <==> forall k :: k in state ==> state[k] != KEY_DOWN
    ensures r != "" ==> r == "_" + Join(ActiveModifiers(state), "_")
  {
    var active := ActiveModifiers(state);
    if |active| == 0 then
      ""
    else
      "_" + Join(active, "_")
  }

  /**
   * The suffix depends only on which keys are pressed: two states with the
   * same pressed keys, reached in any order, give the same suffix.
   */
  lemma {:induction false} SuffixDependsOnPressedKeysOnly(s1: map<string, int>, s2: map<string, int>)
    requires forall k :: (k in s1 && s1[k] == KEY_DOWN) <==> (k in s2 && s2[k] == KEY_DOWN)
    ensures ActiveModifiers(s1) == ActiveModifiers(s2)
    ensures ModifierSuffix(s1) == ModifierSuffix(s2)
  {
    ActiveModifiersUnique(s2, ActiveModifiers(s1));
  }

  /** With exactly one modifier held, the suffix is `_` followed by that modifier. */
  lemma {:induction false} SingleModifierSuffix(k: string)
    ensures ModifierSuffix(map[k := KEY_DOWN]) == "_" + k
  {
    var state := map[k := KEY_DOWN];
    ActiveModifiersUnique(state, [k]);
    assert Join([k], "_") == k;
  }

  /** Pressing two modifiers in either order gives the same suffix. */
  lemma PressOrderIrrelevant(modifiers: set<string>, state: map<string, int>, k1: string, k2: string)
    ensures ModifierSuffix(NextKeyState(modifiers, NextKeyState(modifiers, state, k1, KEY_DOWN), k2, KEY_DOWN))
         == ModifierSuffix(NextKeyState(modifiers, NextKeyState(modifiers, state, k2, KEY_DOWN), k1, KEY_DOWN))
  {
    if k1 != k2 {
      NextKeyStateCommutes(modifiers, state, k1, KEY_DOWN, k2, KEY_DOWN);
    }
  }

  // ---------------------------------------------------------------------------
  // The handler object
  // ---------------------------------------------------------------------------

  class KeyHandler {
    /** Key codes treated as modifiers. */
    const modifiers: set<string>
    /** Key codes never published. */
    const ignoredKeys: set<string>
    /** Last reported state of each modifier key seen so far. */
    var keyState: map<string, int>

    ghost predicate Valid()
      reads this
    {
      keyState.Keys <= modifiers
    }

    /** `KeyHandler()` with the default modifier and ignore sets. */
    constructor ()
      ensures modifiers == DefaultModifiers && ignoredKeys == DefaultIgnoredKeys
      ensures keyState == map[]
      ensures Valid()
    {
      modifiers := DefaultModifiers;
      ignoredKeys := DefaultIgnoredKeys;
      keyState := map[];
    }

    /** `KeyHandler(modifiers=..., ignored_keys=...)`. */
    constructor WithKeys(modifiers: set<string>, ignoredKeys: set<string>)
      ensures this.modifiers == modifiers && this.ignoredKeys == ignoredKeys
      ensures keyState == map[]
      ensures Valid()
    {
      this.modifiers := modifiers;
      this.ignoredKeys := ignoredKeys;
      keyState := map[];
    }

    /** Records `keystate` for `keycode` when it is a modifier; any other key leaves the map alone. */
    method UpdateModifierState(keycode: string, keystate: int)
      requires Valid()
      modifies this`keyState
      ensures Valid()
      ensures keyState == NextKeyState(modifiers, old(keyState), keycode, keystate)
    {
      if keycode in modifiers {
        keyState := keyState[keycode := keystate];
      }
    }

    /** The pressed modifiers in ascending order; all of them are configured modifiers. */
    function GetActiveModifiers(): (r: seq<string>)
      reads this
      ensures StrictlySorted(r)
      ensures forall k :: k in r <==> k in keyState && keyState[k] == KEY_DOWN
      ensures Valid() ==> forall k :: k in r ==> k in modifiers
    {
      ActiveModifiers(keyState)
    }

    function GetModifierSuffix(): (r: string)
      reads this
      ensures r == "" <==> |GetActiveModifiers()| == 0
      ensures r != "" ==> r == "_" + Join(GetActiveModifiers(), "_")
    {
      ModifierSuffix(keyState)
    }

    predicate IsModifier(keycode: string)
    {
      keycode in modifiers
    }

    predicate IsIgnored(keycode: string)
    {
      keycode in ignoredKeys
    }

    /**
     * Only presses of keys that are neither modifiers nor ignored are published;
     * the primary key of a list report is its first element.
     */
    predicate ShouldPublish(keycode: KeyCode, keystate: int)
      requires keystate == KEY_DOWN ==> HasPrimary(keycode)
      ensures ShouldPublish(keycode, keystate) ==> keystate == KEY_DOWN
      ensures ShouldPublish(keycode, keystate) <==>
        keystate == KEY_DOWN && PrimaryKey(keycode) !in modifiers && PrimaryKey(keycode) !in ignoredKeys
    {
      if keystate != KEY_DOWN then
        false
      else
        var primary := PrimaryKey(keycode);
        !IsModifier(primary) && !IsIgnored(primary)
    }

    /** A single code is returned as it is; a list is joined with `|` in report order. */
    static function FormatKeycode(keycode: KeyCode): (r: string)
      ensures keycode.Single? ==> r == keycode.code
      ensures keycode.Multi? && |keycode.codes| == 1 ==> r == keycode.codes[0]
    {
      match keycode
      case Single(code) => code
      case Multi(codes) => Join(codes, "|")
    }

    /**
     * Splitting a formatted multi-code report on `|` gives the codes back, in
     * report order, when no code contains `|`.
     */
    static lemma FormatKeycodeRoundTrip(codes: seq<string>)
      requires |codes| >= 1
      requires forall i :: 0 <= i < |codes| ==> '|' !in codes[i]
      ensures Split(FormatKeycode(Multi(codes)), '|') == codes
    {
      SplitJoin(codes, '|');
    }
  }
}
