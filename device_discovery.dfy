/**
 * Device identity strings and device discovery (`device_discovery`).
 *
 * `slugify` turns a device name into a topic-safe slug, `generate_unique_id`
 * builds the Home Assistant id from the slug and the device path, and
 * `discover_devices` walks the sorted device list, keeps the devices that can
 * be opened (and, when filtering, that report key events) and numbers
 * duplicate slugs `-2`, `-3`, ...
 *
 * The evdev side is an input: `probes` maps every path that opens to the
 * device's name and capability codes (a path missing from it raises
 * `OSError`), and `table` is the `ecodes.EV` code-to-name table.
 */
module DeviceDiscovery {
  import opened Text
  import opened Wrappers

  // ---------------------------------------------------------------------------
  // slugify, stage by stage
  // ---------------------------------------------------------------------------

  predicate IsUpper(c: char)
  {
    'A' <= c <= 'Z'
  }

  function ToLower(c: char): (r: char)
    ensures !IsUpper(r)
  {
    if IsUpper(c) then (c as int + 32) as char else c
  }

  /** `text.lower()`, on ASCII letters. */
  function Lower(s: string): (r: string)
    ensures |r| == |s|
    ensures forall i :: 0 <= i < |s| ==> r[i] == ToLower(s[i])
  {
    if s == [] then [] else [ToLower(s[0])] + Lower(s[1..])
  }

  /** What `[_\s]` matches among ASCII characters: `_`, space, tab to carriage return, and 0x1C-0x1F. */
  predicate IsSeparator(c: char)
  {
    c == '_' || c == ' ' || '\t' <= c <= '\r' || '\U{1C}' <= c <= '\U{1F}'
  }

  /** `re.sub(r"[_\s]+", "-", text)`: each maximal run of separators becomes one `-`. */
  function DashSeparators(s: string): string
  {
    if s == [] then []
    else if IsSeparator(s[0]) then
      if |s| > 1 && IsSeparator(s[1]) then DashSeparators(s[1..]) else "-" + DashSeparators(s[1..])
    else
      [s[0]] + DashSeparators(s[1..])
  }

  predicate IsSlugChar(c: char)
  {
    'a' <= c <= 'z' || '0' <= c <= '9' || c == '-'
  }

  predicate AllSlugChars(s: string)
  {
    forall i :: 0 <= i < |s| ==> IsSlugChar(s[i])
  }

  /** `re.sub(r"[^a-z0-9-]", "", text)` */
  function KeepSlugChars(s: string): (r: string)
    ensures AllSlugChars(r)
  {
    if s == [] then []
    else (if IsSlugChar(s[0]) then [s[0]] else []) + KeepSlugChars(s[1..])
  }

  predicate NoDoubleDash(s: string)
  {
    forall i :: 0 <= i < |s| - 1 ==> !(s[i] == '-' && s[i + 1] == '-')
  }

  /** `re.sub(r"-+", "-", text)`: keeps the first character and every other character of `s`. */
  function CollapseDashes(s: string): string
  {
    if s == [] then []
    else if s[0] == '-' && |s| > 1 && s[1] == '-' then CollapseDashes(s[1..])
    else [s[0]] + CollapseDashes(s[1..])
  }

  /** After collapsing there is no `--`; the first character and the character set are kept. */
  lemma {:induction false} CollapseDashesShape(s: string)
    ensures NoDoubleDash(CollapseDashes(s))
    ensures s != [] ==> CollapseDashes(s) != [] && CollapseDashes(s)[0] == s[0]
    ensures forall i :: 0 <= i < |CollapseDashes(s)| ==> CollapseDashes(s)[i] in s
  {
    if s != [] {
      CollapseDashesShape(s[1..]);
      var rest := CollapseDashes(s[1..]);
      if !(s[0] == '-' && |s| > 1 && s[1] == '-') {
        var r := [s[0]] + rest;
        assert r == CollapseDashes(s);
        forall i | 0 <= i < |r| - 1 ensures !(r[i] == '-' && r[i + 1] == '-') {
          if i > 0 {
            assert r[i] == rest[i - 1] && r[i + 1] == rest[i];
          }
        }
        forall i | 0 <= i < |r| ensures r[i] in s {
          if i > 0 {
            assert r[i] == rest[i - 1] && rest[i - 1] in s[1..];
          }
        }
      } else {
        assert s[1..][0] == s[1];
      }
    }
  }

  function StripLeading(s: string): (r: string)
    ensures |r| <= |s| && r == s[|s| - |r|..]
    ensures r == [] || r[0] != '-'
  {
    if s != [] && s[0] == '-' then StripLeading(s[1..]) else s
  }

  function StripTrailing(s: string): (r: string)
    ensures |r| <= |s| && r == s[..|r|]
    ensures r == [] || r[|r| - 1] != '-'
  {
    if s != [] && s[|s| - 1] == '-' then StripTrailing(s[..|s| - 1]) else s
  }

  /** `text.strip("-")` */
  function Strip(s: string): string
  {
    StripTrailing(StripLeading(s))
  }

  const UnknownDevice := "unknown-device"

  /** The text after the four rewriting stages and the strip, before the empty-result fallback. */
  function SlugStages(text: string): string
  {
    Strip(CollapseDashes(KeepSlugChars(DashSeparators(Lower(text)))))
  }

  /** `slugify(text)` */
  function Slugify(text: string): string
  {
    var stripped := SlugStages(text);
    if stripped == [] then UnknownDevice else stripped
  }

  /** A well-formed slug: non-empty, `[a-z0-9-]` only, no `--`, no `-` at either end. */
  predicate IsSlug(s: string)
  {
    |s| > 0 && AllSlugChars(s) && NoDoubleDash(s) && s[0] != '-' && s[|s| - 1] != '-'
  }

  lemma {:induction false} SubstringKeepsShape(s: string, lo: int, hi: int)
    requires 0 <= lo <= hi <= |s|
    requires AllSlugChars(s) && NoDoubleDash(s)
    ensures AllSlugChars(s[lo..hi]) && NoDoubleDash(s[lo..hi])
  {
    var t := s[lo..hi];
    forall i | 0 <= i < |t| - 1 ensures !(t[i] == '-' && t[i + 1] == '-') {
      assert t[i] == s[lo + i] && t[i + 1] == s[lo + i + 1];
    }
  }

  lemma {:induction false} CollapsedSlugChars(s: string)
    requires AllSlugChars(s)
    ensures AllSlugChars(CollapseDashes(s))
  {
    var r := CollapseDashes(s);
    CollapseDashesShape(s);
    forall i | 0 <= i < |r| ensures IsSlugChar(r[i]) {
      assert r[i] in s;
    }
  }

  /** Whatever the input, `slugify` returns a well-formed slug. */
  lemma SlugifyIsSlug(text: string)
    ensures IsSlug(Slugify(text))
  {
    var kept := KeepSlugChars(DashSeparators(Lower(text)));
    var collapsed := CollapseDashes(kept);
    CollapsedSlugChars(kept);
    CollapseDashesShape(kept);
    var lead := StripLeading(collapsed);
    SubstringKeepsShape(collapsed, |collapsed| - |lead|, |collapsed|);
    var stripped := StripTrailing(lead);
    SubstringKeepsShape(lead, 0, |stripped|);
    if stripped == [] {
      UnknownDeviceIsSlug();
    } else {
      assert stripped[0] == lead[0];
    }
  }

  lemma UnknownDeviceIsSlug()
    ensures IsSlug(UnknownDevice)
  {
  }

  lemma {:induction false} LowerOfLowercase(s: string)
    requires forall i :: 0 <= i < |s| ==> !IsUpper(s[i])
    ensures Lower(s) == s
  {
  }

  lemma {:induction false} DashSeparatorsWithoutSeparators(s: string)
    requires forall i :: 0 <= i < |s| ==> !IsSeparator(s[i])
    ensures DashSeparators(s) == s
  {
    if s != [] {
      DashSeparatorsWithoutSeparators(s[1..]);
    }
  }

  lemma {:induction false} KeepSlugCharsOfSlugChars(s: string)
    requires AllSlugChars(s)
    ensures KeepSlugChars(s) == s
  {
    if s != [] {
      KeepSlugCharsOfSlugChars(s[1..]);
    }
  }

  lemma {:induction false} CollapseWithoutDoubleDash(s: string)
    requires NoDoubleDash(s)
    ensures CollapseDashes(s) == s
  {
    if s != [] {
      assert NoDoubleDash(s[1..]) by {
        forall i | 0 <= i < |s[1..]| - 1 ensures !(s[1..][i] == '-' && s[1..][i + 1] == '-') {
          assert s[1..][i] == s[i + 1] && s[1..][i + 1] == s[i + 2];
        }
      }
      CollapseWithoutDoubleDash(s[1..]);
    }
  }

  /** A slug is left unchanged by `slugify`. */
  lemma SlugifyFixesSlugs(s: string)
    requires IsSlug(s)
    ensures Slugify(s) == s
  {
    LowerOfLowercase(s);
    DashSeparatorsWithoutSeparators(s);
    KeepSlugCharsOfSlugChars(s);
    CollapseWithoutDoubleDash(s);
  }

  /** `slugify` is idempotent. */
  lemma SlugifyIdempotent(text: string)
    ensures Slugify(Slugify(text)) == Slugify(text)
  {
    SlugifyIsSlug(text);
    SlugifyFixesSlugs(Slugify(text));
  }

  // ---------------------------------------------------------------------------
  // The letters and digits survive, in order
  // ---------------------------------------------------------------------------

  predicate IsAlnum(c: char)
  {
    'a' <= c <= 'z' || '0' <= c <= '9'
  }

  /** The lower-case letters and digits of `s`, in order. */
  function Alnums(s: string): string
  {
    if s == [] then [] else (if IsAlnum(s[0]) then [s[0]] else []) + Alnums(s[1..])
  }

  lemma {:induction false} AlnumsConcat(a: string, b: string)
    ensures Alnums(a + b) == Alnums(a) + Alnums(b)
  {
    if a == [] {
      assert a + b == b;
    } else {
      var head := if IsAlnum(a[0]) then [a[0]] else [];
      assert (a + b)[1..] == a[1..] + b;
      assert (a + b)[0] == a[0];
      AlnumsConcat(a[1..], b);
      assert Alnums(a + b) == head + Alnums(a[1..] + b);
      assert Alnums(a) == head + Alnums(a[1..]);
      assert head + (Alnums(a[1..]) + Alnums(b)) == head + Alnums(a[1..]) + Alnums(b);
    }
  }

  lemma {:induction false} AlnumsDashSeparators(s: string)
    ensures Alnums(DashSeparators(s)) == Alnums(s)
  {
    if s != [] {
      AlnumsDashSeparators(s[1..]);
      var rest := DashSeparators(s[1..]);
      if IsSeparator(s[0]) && !(|s| > 1 && IsSeparator(s[1])) {
        AlnumsConcat("-", rest);
      } else if !IsSeparator(s[0]) {
        AlnumsConcat([s[0]], rest);
      }
    }
  }

  lemma {:induction false} AlnumsKeepSlugChars(s: string)
    ensures Alnums(KeepSlugChars(s)) == Alnums(s)
  {
    if s != [] {
      AlnumsKeepSlugChars(s[1..]);
      AlnumsConcat(if IsSlugChar(s[0]) then [s[0]] else [], KeepSlugChars(s[1..]));
    }
  }

  lemma {:induction false} AlnumsCollapseDashes(s: string)
    ensures Alnums(CollapseDashes(s)) == Alnums(s)
  {
    if s != [] {
      AlnumsCollapseDashes(s[1..]);
      if !(s[0] == '-' && |s| > 1 && s[1] == '-') {
        AlnumsConcat([s[0]], CollapseDashes(s[1..]));
      }
    }
  }

  lemma {:induction false} AlnumsStripLeading(s: string)
    ensures Alnums(StripLeading(s)) == Alnums(s)
  {
    if s != [] && s[0] == '-' {
      AlnumsStripLeading(s[1..]);
    }
  }

  lemma {:induction false} AlnumsStripTrailing(s: string)
    ensures Alnums(StripTrailing(s)) == Alnums(s)
  {
    if s != [] && s[|s| - 1] == '-' {
      AlnumsStripTrailing(s[..|s| - 1]);
      AlnumsConcat(s[..|s| - 1], [s[|s| - 1]]);
      assert s == s[..|s| - 1] + [s[|s| - 1]];
    }
  }

  /**
   * The slug keeps every letter and digit of the lower-cased name, in order,
   * and adds none; a name without any falls back to `unknown-device`.
   */
  lemma SlugifyKeepsLettersAndDigits(text: string)
    ensures Alnums(Lower(text)) != [] ==> Alnums(Slugify(text)) == Alnums(Lower(text))
    ensures Alnums(Lower(text)) == [] ==> Slugify(text) == UnknownDevice
  {
    var dashed := DashSeparators(Lower(text));
    var kept := KeepSlugChars(dashed);
    var collapsed := CollapseDashes(kept);
    var lead := StripLeading(collapsed);
    AlnumsDashSeparators(Lower(text));
    AlnumsKeepSlugChars(dashed);
    AlnumsCollapseDashes(kept);
    AlnumsStripLeading(collapsed);
    AlnumsStripTrailing(lead);
    var stripped := StripTrailing(lead);
    if stripped != [] {
      CollapsedSlugChars(kept);
      CollapseDashesShape(kept);
      SubstringKeepsShape(collapsed, |collapsed| - |lead|, |collapsed|);
      assert stripped[0] == lead[0];
      AlnumsConcat([stripped[0]], stripped[1..]);
      assert [stripped[0]] + stripped[1..] == stripped;
    }
  }

  // ---------------------------------------------------------------------------
  // Words and separators
  // ---------------------------------------------------------------------------

  /** No separator and no `-`: a stretch of text `slugify` never cuts. */
  predicate IsWordText(w: string)
  {
    forall i :: 0 <= i < |w| ==> !IsSeparator(w[i]) && w[i] != '-'
  }

  predicate AllSeparators(s: string)
  {
    forall i :: 0 <= i < |s| ==> IsSeparator(s[i])
  }

  lemma {:induction false} LowerKeepsWordText(w: string)
    requires IsWordText(w)
    ensures IsWordText(Lower(w))
  {
  }

  lemma {:induction false} DashSeparatorsRun(seps: string, rest: string)
    requires |seps| > 0 && AllSeparators(seps)
    requires rest == [] || !IsSeparator(rest[0])
    ensures DashSeparators(seps + rest) == "-" + DashSeparators(rest)
  {
    assert (seps + rest)[0] == seps[0];
    assert (seps + rest)[1..] == seps[1..] + rest;
    if |seps| > 1 {
      assert (seps + rest)[1] == seps[1];
      DashSeparatorsRun(seps[1..], rest);
    }
  }

  lemma {:induction false} DashSeparatorsAfterWord(w: string, rest: string)
    requires IsWordText(w)
    ensures DashSeparators(w + rest) == w + DashSeparators(rest)
  {
    if w == [] {
      assert w + rest == rest;
    } else {
      assert (w + rest)[0] == w[0];
      assert (w + rest)[1..] == w[1..] + rest;
      DashSeparatorsAfterWord(w[1..], rest);
    }
  }

  lemma {:induction false} KeepSlugCharsConcat(a: string, b: string)
    ensures KeepSlugChars(a + b) == KeepSlugChars(a) + KeepSlugChars(b)
  {
    if a == [] {
      assert a + b == b;
    } else {
      var head := if IsSlugChar(a[0]) then [a[0]] else [];
      assert (a + b)[0] == a[0];
      assert (a + b)[1..] == a[1..] + b;
      KeepSlugCharsConcat(a[1..], b);
      assert KeepSlugChars(a + b) == head + KeepSlugChars(a[1..] + b);
      assert KeepSlugChars(a) == head + KeepSlugChars(a[1..]);
      assert head + (KeepSlugChars(a[1..]) + KeepSlugChars(b)) == head + KeepSlugChars(a[1..]) + KeepSlugChars(b);
    }
  }

  /** Without `-` in the text, keeping the slug characters keeps exactly the letters and digits. */
  lemma {:induction false} KeepSlugCharsOfWord(w: string)
    requires IsWordText(w)
    ensures KeepSlugChars(w) == Alnums(w)
  {
    if w != [] {
      KeepSlugCharsOfWord(w[1..]);
    }
  }

  lemma {:induction false} AlnumsHaveNoDash(s: string)
    ensures IsWordText(Alnums(s))
  {
    if s != [] {
      AlnumsHaveNoDash(s[1..]);
    }
  }

  lemma {:induction false} CollapseAfterWord(w: string, rest: string)
    requires IsWordText(w)
    ensures CollapseDashes(w + rest) == w + CollapseDashes(rest)
  {
    if w == [] {
      assert w + rest == rest;
    } else {
      assert (w + rest)[0] == w[0];
      assert (w + rest)[1..] == w[1..] + rest;
      CollapseAfterWord(w[1..], rest);
    }
  }

  lemma {:induction false} StripTrailingAfter(a: string, c: string)
    requires StripTrailing(c) != []
    ensures StripTrailing(a + c) == a + StripTrailing(c)
    decreases |c|
  {
    if c != [] && c[|c| - 1] == '-' {
      assert (a + c)[..|a + c| - 1] == a + c[..|c| - 1];
      StripTrailingAfter(a, c[..|c| - 1]);
    }
  }

  /**
   * Text without separators and `-` (symbols allowed) becomes its lower-cased
   * letters and digits, or `unknown-device` when it has none.
   */
  lemma SlugifyWord(w: string)
    requires IsWordText(w)
    ensures Alnums(Lower(w)) != [] ==> Slugify(w) == Alnums(Lower(w))
    ensures Alnums(Lower(w)) == [] ==> Slugify(w) == UnknownDevice
  {
    WordStages(w);
  }

  lemma {:induction false} WordStages(w: string)
    requires IsWordText(w)
    ensures SlugStages(w) == Alnums(Lower(w))
  {
    var l := Lower(w);
    LowerKeepsWordText(w);
    DashSeparatorsWithoutSeparators(l);
    KeepSlugCharsOfWord(l);
    var a := Alnums(l);
    AlnumsHaveNoDash(l);
    CollapseWithoutDoubleDash(a);
    assert KeepSlugChars(DashSeparators(l)) == a;
    assert CollapseDashes(a) == a;
    assert a == [] || (a[0] != '-' && a[|a| - 1] != '-');
    assert StripLeading(a) == a;
    assert StripTrailing(a) == a;
  }

  lemma {:induction false} LowerAroundSeparators(w: string, seps: string, rest: string)
    requires AllSeparators(seps)
    ensures Lower(w + seps + rest) == Lower(w) + (seps + Lower(rest))
  {
    var x, r := w + seps + rest, Lower(w) + (seps + Lower(rest));
    assert |r| == |x|;
    forall i | 0 <= i < |x| ensures Lower(x)[i] == r[i] {
      if i < |w| {
        assert x[i] == w[i] && r[i] == Lower(w)[i];
      } else if i < |w| + |seps| {
        assert x[i] == seps[i - |w|] && r[i] == seps[i - |w|];
      } else {
        var j := i - |w| - |seps|;
        assert x[i] == rest[j] && r[i] == Lower(rest)[j];
      }
    }
  }

  lemma {:induction false} LoweredAfterWord(w: string, seps: string, rest: string)
    requires IsWordText(w)
    requires |seps| > 0 && AllSeparators(seps)
    requires rest != [] && IsAlnum(ToLower(rest[0]))
    ensures DashSeparators(Lower(w + seps + rest)) == Lower(w) + ("-" + DashSeparators(Lower(rest)))
    ensures DashSeparators(Lower(rest)) != [] && IsAlnum(DashSeparators(Lower(rest))[0])
  {
    var lw, lr := Lower(w), Lower(rest);
    LowerAroundSeparators(w, seps, rest);
    LowerKeepsWordText(w);
    assert lr[0] == ToLower(rest[0]) && !IsSeparator(lr[0]);
    DashSeparatorsAfterWord(lw, seps + lr);
    DashSeparatorsRun(seps, lr);
    assert DashSeparators(lr) == [lr[0]] + DashSeparators(lr[1..]);
  }

  lemma {:induction false} KeptAfterWord(lw: string, d: string)
    requires IsWordText(lw)
    requires d != [] && IsAlnum(d[0])
    ensures KeepSlugChars(lw + ("-" + d)) == Alnums(lw) + ("-" + KeepSlugChars(d))
    ensures KeepSlugChars(d) != [] && IsAlnum(KeepSlugChars(d)[0])
  {
    KeepSlugCharsConcat(lw, "-" + d);
    KeepSlugCharsOfWord(lw);
    assert ("-" + d)[0] == '-' && ("-" + d)[1..] == d;
    assert KeepSlugChars(d) == [d[0]] + KeepSlugChars(d[1..]);
  }

  lemma {:induction false} CollapsedAfterWord(a: string, k: string)
    requires IsWordText(a)
    requires k != [] && k[0] != '-'
    ensures CollapseDashes(a + ("-" + k)) == a + ("-" + CollapseDashes(k))
  {
    CollapseAfterWord(a, "-" + k);
    assert ("-" + k)[0] == '-' && ("-" + k)[1..] == k && ("-" + k)[1] == k[0];
  }

  lemma {:induction false} StripTrailingKeepsHead(c: string)
    requires c != [] && c[0] != '-'
    ensures StripTrailing(c) != [] && StripTrailing(c)[0] == c[0]
    decreases |c|
  {
    if c[|c| - 1] == '-' {
      assert |c| > 1;
      StripTrailingKeepsHead(c[..|c| - 1]);
    }
  }

  lemma {:induction false} StrippedAfterWord(a: string, c: string)
    requires a != [] && a[0] != '-'
    requires c != [] && c[0] != '-'
    ensures Strip(a + ("-" + c)) == a + ("-" + Strip(c))
    ensures Strip(c) != [] && Strip(c)[0] == c[0]
  {
    StripTrailingKeepsHead(c);
    assert ("-" + c)[|"-" + c| - 1] == c[|c| - 1];
    StripTrailingAfter("-", c);
    StripTrailingAfter(a, "-" + c);
    assert (a + ("-" + c))[0] == a[0];
  }

  lemma {:induction false} StagesAfterWord(w: string, seps: string, rest: string)
    requires IsWordText(w) && Alnums(Lower(w)) != []
    requires |seps| > 0 && AllSeparators(seps)
    requires rest != [] && IsAlnum(ToLower(rest[0]))
    ensures SlugStages(w + seps + rest) == Alnums(Lower(w)) + ("-" + SlugStages(rest))
    ensures SlugStages(rest) != []
  {
    LoweredAfterWord(w, seps, rest);
    var lw := Lower(w);
    var d := DashSeparators(Lower(rest));
    LowerKeepsWordText(w);
    KeptAfterWord(lw, d);
    var a, k := Alnums(lw), KeepSlugChars(d);
    AlnumsHaveNoDash(lw);
    CollapsedAfterWord(a, k);
    var c := CollapseDashes(k);
    CollapseDashesShape(k);
    assert a[0] != '-' by { assert a[0] in a; }
    StrippedAfterWord(a, c);
    assert StripLeading(c) == c;
  }

  /**
   * A word, a run of separators and a rest that begins with a letter or digit:
   * the slug is the word's slug, one `-`, and the rest's slug.
   */
  lemma SlugifyAfterWord(w: string, seps: string, rest: string)
    requires IsWordText(w) && Alnums(Lower(w)) != []
    requires |seps| > 0 && AllSeparators(seps)
    requires rest != [] && IsAlnum(ToLower(rest[0]))
    ensures Slugify(w + seps + rest) == Slugify(w) + ("-" + Slugify(rest))
  {
    WordStages(w);
    StagesAfterWord(w, seps, rest);
  }

  // ---------------------------------------------------------------------------
  // generate_unique_id
  // ---------------------------------------------------------------------------

  /** `evmqtt_<slug>_<event>`, where the event is the path's last `/`-separated part. */
  function GenerateUniqueId(path: string, slug: string): string
  {
    "evmqtt_" + slug + "_" + LastPiece(path, '/')
  }

  /** For a path `<dir>/<event>` the id ends with exactly that event name. */
  lemma UniqueIdOfDevicePath(dir: string, event: string, slug: string)
    requires '/' !in event
    ensures GenerateUniqueId(dir + "/" + event, slug) == "evmqtt_" + slug + "_" + event
  {
    LastPieceAfterSeparator(dir, '/', event);
  }

  /**
   * Ids are injective in the slug and the event name: `_` never occurs in a
   * slug, so the first `_` after the prefix ends the slug.
   */
  lemma {:induction false} UniqueIdInjective(p1: string, s1: string, p2: string, s2: string)
    requires IsSlug(s1) && IsSlug(s2)
    requires GenerateUniqueId(p1, s1) == GenerateUniqueId(p2, s2)
    ensures s1 == s2 && LastPiece(p1, '/') == LastPiece(p2, '/')
  {
    var e1, e2 := LastPiece(p1, '/'), LastPiece(p2, '/');
    var id := GenerateUniqueId(p1, s1);
    assert id == "evmqtt_" + (s1 + ("_" + e1)) == "evmqtt_" + (s2 + ("_" + e2));
    var t1, t2 := s1 + ("_" + e1), s2 + ("_" + e2);
    assert t1 == id[7..] == t2;
    assert t1[|s1|] == '_' && t2[|s2|] == '_';
    assert forall i :: 0 <= i < |s1| ==> t1[i] == s1[i] != '_';
    assert forall i :: 0 <= i < |s2| ==> t2[i] == s2[i] != '_';
    assert s1 == t1[..|s1|] && s2 == t2[..|s2|];
    assert "_" + e1 == t1[|s1|..] && "_" + e2 == t2[|s2|..];
    assert e1 == ("_" + e1)[1..] && e2 == ("_" + e2)[1..];
  }

  // ---------------------------------------------------------------------------
  // Capabilities
  // ---------------------------------------------------------------------------

  /** `ecodes.EV[code]`, or `EV_<code>` for a code the table does not know. */
  function CapabilityName(table: map<int, string>, code: int): string
  {
    if code in table then table[code] else "EV_" + IntToString(code)
  }

  /** A code missing from the table never reads as the key capability. */
  lemma CapabilityNameIsKeyOnlyFromTable(table: map<int, string>, code: int)
    requires CapabilityName(table, code) == "EV_KEY"
    ensures code in table && table[code] == "EV_KEY"
  {
    var name := "EV_" + IntToString(code);
    assert name[3] == IntToString(code)[0];
  }

  /** Different unknown codes get different names. */
  lemma UnknownCapabilityNamesDiffer(table: map<int, string>, c1: nat, c2: nat)
    requires c1 !in table && c2 !in table && c1 != c2
    ensures CapabilityName(table, c1) != CapabilityName(table, c2)
  {
    if CapabilityName(table, c1) == CapabilityName(table, c2) {
      assert NatToString(c1) == CapabilityName(table, c1)[3..];
      assert NatToString(c2) == CapabilityName(table, c2)[3..];
      NatToStringInjective(c1, c2);
    }
  }

  /** The names of `codes`, in the same order. */
  function CapabilityNames(table: map<int, string>, codes: seq<int>): (r: seq<string>)
    ensures |r| == |codes|
    ensures forall i :: 0 <= i < |codes| ==> r[i] == CapabilityName(table, codes[i])
  {
    seq(|codes|, i requires 0 <= i < |codes| => CapabilityName(table, codes[i]))
  }

  /** `get_device_capabilities`: one name per reported code, in report order. */
  method GetDeviceCapabilities(table: map<int, string>, codes: seq<int>) returns (capabilities: seq<string>)
    ensures capabilities == CapabilityNames(table, codes)
  {
    capabilities := [];
    for i := 0 to |codes|
      invariant |capabilities| == i
      invariant forall j :: 0 <= j < i ==> capabilities[j] == CapabilityName(table, codes[j])
    {
      if codes[i] in table {
        capabilities := capabilities + [table[codes[i]]];
      } else {
        capabilities := capabilities + ["EV_" + IntToString(codes[i])];
      }
    }
  }

  // ---------------------------------------------------------------------------
  // Discovered devices
  // ---------------------------------------------------------------------------

  datatype DiscoveredDevice = DiscoveredDevice(
    path: string, name: string, slug: string, uniqueId: string, capabilities: seq<string>)
  {
    predicate HasKeys()
    {
      "EV_KEY" in capabilities
    }
  }

  /** What opening a device yields: its name and its capability codes. */
  datatype DeviceInfo = DeviceInfo(name: string, codes: seq<int>)

  /** The record built for a device that opened, given the slug chosen for it. */
  function Describe(path: string, info: DeviceInfo, table: map<int, string>, slug: string): DiscoveredDevice
  {
    DiscoveredDevice(path, info.name, slug, GenerateUniqueId(path, slug), CapabilityNames(table, info.codes))
  }

  /** A described device has keys exactly when one of its codes is named `EV_KEY` by the table. */
  lemma HasKeysFromTable(path: string, info: DeviceInfo, table: map<int, string>, slug: string)
    ensures Describe(path, info, table, slug).HasKeys()
        <==> exists i :: 0 <= i < |info.codes| && info.codes[i] in table && table[info.codes[i]] == "EV_KEY"
  {
    var caps := CapabilityNames(table, info.codes);
    if "EV_KEY" in caps {
      var i :| 0 <= i < |caps| && caps[i] == "EV_KEY";
      CapabilityNameIsKeyOnlyFromTable(table, info.codes[i]);
    }
    if exists i :: 0 <= i < |info.codes| && info.codes[i] in table && table[info.codes[i]] == "EV_KEY" {
      var i :| 0 <= i < |info.codes| && info.codes[i] in table && table[info.codes[i]] == "EV_KEY";
      assert caps[i] == "EV_KEY";
    }
  }

  /** `f"{base}-{n}"` for the n-th device with base slug `base`; the first keeps `base`. */
  function NumberedSlug(base: string, n: nat): string
    requires n >= 1
  {
    if n == 1 then base else base + "-" + IntToString(n)
  }

  /** Numbering separates devices that share a base slug. */
  lemma NumberedSlugsDiffer(base: string, m: nat, n: nat)
    requires 1 <= m && 1 <= n && m != n
    ensures NumberedSlug(base, m) != NumberedSlug(base, n)
  {
    if m != 1 && n != 1 {
      if NumberedSlug(base, m) == NumberedSlug(base, n) {
        var sm, sn := NumberedSlug(base, m), NumberedSlug(base, n);
        assert NatToString(m) == sm[|base| + 1..];
        assert NatToString(n) == sn[|base| + 1..];
        NatToStringInjective(m, n);
      }
    } else if m == 1 {
      assert |NumberedSlug(base, n)| > |base|;
    } else {
      assert |NumberedSlug(base, m)| > |base|;
    }
  }

  /** The base slug of each device's name. */
  function BaseSlugs(devices: seq<DiscoveredDevice>): (r: seq<string>)
    ensures |r| == |devices|
    ensures forall i :: 0 <= i < |devices| ==> r[i] == Slugify(devices[i].name)
  {
    if devices == [] then [] else BaseSlugs(devices[..|devices| - 1]) + [Slugify(devices[|devices| - 1].name)]
  }

  /** How many times `x` occurs in `s`. */
  function Count(s: seq<string>, x: string): nat
  {
    if s == [] then 0 else Count(s[..|s| - 1], x) + (if s[|s| - 1] == x then 1 else 0)
  }

  /** Appending `x` counts it once more and leaves every other count alone. */
  lemma CountAppend(s: seq<string>, x: string)
    ensures forall b :: Count(s + [x], b) == Count(s, b) + (if b == x then 1 else 0)
  {
    assert (s + [x])[..|s|] == s;
  }

  lemma {:induction false} CountGrows(s: seq<string>, i: nat, j: nat)
    requires i < j <= |s|
    ensures Count(s[..j], s[i]) >= Count(s[..i], s[i]) + 1
    decreases j
  {
    assert s[..j][..j - 1] == s[..j - 1];
    if j - 1 > i {
      CountGrows(s, i, j - 1);
    }
  }

  /** The paths, in the given order, that `discover_devices` keeps: they open and, when filtering, report keys. */
  function Kept(paths: seq<string>, probes: map<string, DeviceInfo>, table: map<int, string>, filterKeysOnly: bool)
    : (r: seq<string>)
    ensures forall p :: p in r ==> p in paths && p in probes
    ensures filterKeysOnly ==> forall p :: p in r ==> p in probes && "EV_KEY" in CapabilityNames(table, probes[p].codes)
  {
    if paths == [] then []
    else
      var last := paths[|paths| - 1];
      var keep := last in probes && (!filterKeysOnly || "EV_KEY" in CapabilityNames(table, probes[last].codes));
      Kept(paths[..|paths| - 1], probes, table, filterKeysOnly) + (if keep then [last] else [])
  }

  /** A path is kept iff it is listed, opens and, when filtering, reports keys. */
  lemma {:induction false} KeptMembers(paths: seq<string>, probes: map<string, DeviceInfo>, table: map<int, string>, filterKeysOnly: bool, p: string)
    ensures p in Kept(paths, probes, table, filterKeysOnly) <==>
      p in paths && p in probes && (!filterKeysOnly || "EV_KEY" in CapabilityNames(table, probes[p].codes))
  {
    if paths != [] {
      KeptMembers(paths[..|paths| - 1], probes, table, filterKeysOnly, p);
      assert paths == paths[..|paths| - 1] + [paths[|paths| - 1]];
    }
  }

  function Paths(devices: seq<DiscoveredDevice>): (r: seq<string>)
    ensures |r| == |devices|
    ensures forall i :: 0 <= i < |devices| ==> r[i] == devices[i].path
  {
    if devices == [] then [] else Paths(devices[..|devices| - 1]) + [devices[|devices| - 1].path]
  }

  /**
   * Device `i` of a discovery result is the record of its path, with its base
   * slug `bases[i]` numbered by how many earlier devices share that base slug.
   * In a discovery result `bases` is `BaseSlugs(devices)`.
   */
  predicate Numbered(devices: seq<DiscoveredDevice>, bases: seq<string>, i: nat, probes: map<string, DeviceInfo>, table: map<int, string>)
    requires i < |devices| == |bases|
  {
    var d := devices[i];
    d.path in probes
    && d == Describe(d.path, probes[d.path], table, NumberedSlug(bases[i], Count(bases[..i], bases[i]) + 1))
  }

  /** The facts `DiscoverDevices` promises about the devices found among the paths `visited`. */
  predicate DiscoveredFrom(devices: seq<DiscoveredDevice>, bases: seq<string>, visited: seq<string>,
                           probes: map<string, DeviceInfo>, table: map<int, string>, filterKeysOnly: bool)
  {
    && |bases| == |devices|
    && Paths(devices) == Kept(visited, probes, table, filterKeysOnly)
    && (forall i :: 0 <= i < |devices| ==> Numbered(devices, bases, i, probes, table))
    && (filterKeysOnly ==> forall i :: 0 <= i < |devices| ==> devices[i].HasKeys())
  }

  /** The records of the kept paths, in order, each base slug numbered by how often it occurred before. */
  function NumberedDevices(kept: seq<string>, probes: map<string, DeviceInfo>, table: map<int, string>)
    : (r: seq<DiscoveredDevice>)
    requires forall p :: p in kept ==> p in probes
    ensures |r| == |kept|
  {
    if kept == [] then []
    else
      assert forall p :: p in kept[..|kept| - 1] ==> p in kept;
      var init := NumberedDevices(kept[..|kept| - 1], probes, table);
      var p := kept[|kept| - 1];
      init + [NextDevice(init, p, probes[p], table)]
  }

  /** The devices come in the order of the kept paths, one per path. */
  lemma {:induction false} NumberedDevicesPaths(kept: seq<string>, probes: map<string, DeviceInfo>, table: map<int, string>)
    requires forall p :: p in kept ==> p in probes
    ensures Paths(NumberedDevices(kept, probes, table)) == kept
  {
    if kept != [] {
      var init := kept[..|kept| - 1];
      assert forall p :: p in init ==> p in kept;
      NumberedDevicesPaths(init, probes, table);
      var r := NumberedDevices(kept, probes, table);
      assert r[..|r| - 1] == NumberedDevices(init, probes, table);
      PrefixStep(kept, |kept| - 1);
      assert kept[..|kept|] == kept;
    }
  }

  /**
   * Every discovered device is a listed path that opens and, when filtering,
   * reports key events.
   */
  lemma DiscoveryPaths(listed: seq<string>, probes: map<string, DeviceInfo>, table: map<int, string>, filterKeysOnly: bool)
    ensures forall d :: d in Discovery(listed, probes, table, filterKeysOnly) ==>
      d.path in listed && d.path in probes &&
      (filterKeysOnly ==> "EV_KEY" in CapabilityNames(table, probes[d.path].codes))
  {
    var sorted := Sort(listed);
    var kept := Kept(sorted, probes, table, filterKeysOnly);
    NumberedPathsIn(kept, probes, table);
    forall p | p in sorted
      ensures p in listed
    {
      assert multiset(sorted)[p] > 0;
    }
  }

  /** Numbering keeps each device at one of the kept paths. */
  lemma NumberedPathsIn(kept: seq<string>, probes: map<string, DeviceInfo>, table: map<int, string>)
    requires forall p :: p in kept ==> p in probes
    ensures forall d :: d in NumberedDevices(kept, probes, table) ==> d.path in kept
  {
    var devices := NumberedDevices(kept, probes, table);
    NumberedDevicesPaths(kept, probes, table);
    forall d | d in devices
      ensures d.path in kept
    {
      var i :| 0 <= i < |devices| && devices[i] == d;
      assert Paths(devices)[i] == d.path;
    }
  }

  /** The record of the device at `path` found after the devices `before`. */
  function NextDevice(before: seq<DiscoveredDevice>, path: string, info: DeviceInfo, table: map<int, string>): DiscoveredDevice
  {
    NumberedAfter(BaseSlugs(before), path, info, table, Slugify(info.name))
  }

  /** The record of the device at `path` with base slug `base`, numbered after the base slugs `bases`. */
  function NumberedAfter(bases: seq<string>, path: string, info: DeviceInfo, table: map<int, string>, base: string): DiscoveredDevice
  {
    Describe(path, info, table, NumberedSlug(base, Count(bases, base) + 1))
  }

  /** What `discover_devices(filter_keys_only)` returns for the listed paths. */
  function Discovery(listed: seq<string>, probes: map<string, DeviceInfo>, table: map<int, string>, filterKeysOnly: bool)
    : seq<DiscoveredDevice>
  {
    NumberedDevices(Kept(Sort(listed), probes, table, filterKeysOnly), probes, table)
  }

  /**
   * `discover_devices`: visits the listed paths in sorted order, skips the ones
   * that fail to open and, when filtering, the ones without `EV_KEY`, and
   * numbers repeated base slugs through the `seen_slugs` counter.
   */
  method DiscoverDevices(listed: seq<string>, probes: map<string, DeviceInfo>, table: map<int, string>, filterKeysOnly: bool)
    returns (devices: seq<DiscoveredDevice>)
    ensures Paths(devices) == Kept(Sort(listed), probes, table, filterKeysOnly)
    ensures forall i :: 0 <= i < |devices| ==> Numbered(devices, BaseSlugs(devices), i, probes, table)
    ensures filterKeysOnly ==> forall i :: 0 <= i < |devices| ==> devices[i].HasKeys()
    ensures devices == Discovery(listed, probes, table, filterKeysOnly)
  {
    var sorted := Sort(listed);
    devices := [];
    var seen: map<string, nat> := map[];
    ghost var bases: seq<string> := [];
    for k := 0 to |sorted|
      invariant bases == BaseSlugs(devices)
      invariant DiscoveredFrom(devices, bases, sorted[..k], probes, table, filterKeysOnly)
      invariant forall b :: b in seen <==> Count(bases, b) > 0
      invariant forall b :: b in seen ==> seen[b] == Count(bases, b)
      invariant devices == NumberedDevices(Kept(sorted[..k], probes, table, filterKeysOnly), probes, table)
    {
      var path := sorted[k];
      PrefixStep(sorted, k);
      if path !in probes {
        SkippedPath(devices, bases, sorted[..k], path, probes, table, filterKeysOnly);
        NumberedSkip(sorted, k, probes, table, filterKeysOnly);
        continue;
      }
      var info := probes[path];
      var capabilities := GetDeviceCapabilities(table, info.codes);
      if filterKeysOnly && "EV_KEY" !in capabilities {
        SkippedPath(devices, bases, sorted[..k], path, probes, table, filterKeysOnly);
        NumberedSkip(sorted, k, probes, table, filterKeysOnly);
        continue;
      }
      var base := Slugify(info.name);
      var slug;
      seen, slug := NumberSlug(seen, base, bases);
      var uniqueId := GenerateUniqueId(path, slug);
      var d := DiscoveredDevice(path, info.name, slug, uniqueId, capabilities);
      assert d.path == path && probes[d.path] == info;
      assert d == Describe(path, info, table, slug);
      NextDeviceIs(devices, bases, path, info, table, base, slug);
      NumberedStep(devices, sorted, k, probes, table, filterKeysOnly, d);
      AppendedDevice(devices, bases, sorted[..k], d, base, probes, table, filterKeysOnly);
      BaseSlugsAppend(devices, d);
      devices := devices + [d];
      bases := bases + [base];
    }
    assert sorted[..|sorted|] == sorted;
  }

  /** Visiting one more path keeps it exactly when it opens and, when filtering, reports keys. */
  lemma KeptStep(sorted: seq<string>, k: nat, probes: map<string, DeviceInfo>, table: map<int, string>, filterKeysOnly: bool)
    requires k < |sorted|
    ensures Kept(sorted[..k + 1], probes, table, filterKeysOnly)
         == Kept(sorted[..k], probes, table, filterKeysOnly)
            + (if sorted[k] in probes && (!filterKeysOnly || "EV_KEY" in CapabilityNames(table, probes[sorted[k]].codes))
               then [sorted[k]] else [])
  {
    assert sorted[..k + 1][..k] == sorted[..k];
  }

  /** A path that is not kept leaves the numbered devices as they were. */
  lemma NumberedSkip(sorted: seq<string>, k: nat, probes: map<string, DeviceInfo>, table: map<int, string>, filterKeysOnly: bool)
    requires k < |sorted|
    requires sorted[k] !in probes || (filterKeysOnly && "EV_KEY" !in CapabilityNames(table, probes[sorted[k]].codes))
    ensures NumberedDevices(Kept(sorted[..k + 1], probes, table, filterKeysOnly), probes, table)
         == NumberedDevices(Kept(sorted[..k], probes, table, filterKeysOnly), probes, table)
  {
    var kept := Kept(sorted[..k], probes, table, filterKeysOnly);
    KeptStep(sorted, k, probes, table, filterKeysOnly);
    assert kept + [] == kept;
    assert Kept(sorted[..k + 1], probes, table, filterKeysOnly) == kept;
  }

  /** A kept path appends its record, numbered after the devices before it. */
  lemma NumberedStep(devices: seq<DiscoveredDevice>, sorted: seq<string>, k: nat,
                     probes: map<string, DeviceInfo>, table: map<int, string>, filterKeysOnly: bool, d: DiscoveredDevice)
    requires k < |sorted| && sorted[k] in probes
    requires filterKeysOnly ==> "EV_KEY" in CapabilityNames(table, probes[sorted[k]].codes)
    requires devices == NumberedDevices(Kept(sorted[..k], probes, table, filterKeysOnly), probes, table)
    requires d == NextDevice(devices, sorted[k], probes[sorted[k]], table)
    ensures devices + [d] == NumberedDevices(Kept(sorted[..k + 1], probes, table, filterKeysOnly), probes, table)
  {
    var kept, p := Kept(sorted[..k], probes, table, filterKeysOnly), sorted[k];
    KeptStep(sorted, k, probes, table, filterKeysOnly);
    assert Kept(sorted[..k + 1], probes, table, filterKeysOnly) == kept + [p];
    NumberedDevicesAppend(kept, p, probes, table);
  }

  lemma NumberedDevicesAppend(kept: seq<string>, p: string, probes: map<string, DeviceInfo>, table: map<int, string>)
    requires forall q :: q in kept ==> q in probes
    requires p in probes
    ensures NumberedDevices(kept + [p], probes, table)
         == NumberedDevices(kept, probes, table) + [NextDevice(NumberedDevices(kept, probes, table), p, probes[p], table)]
  {
    assert (kept + [p])[..|kept|] == kept;
  }

  lemma NextDeviceIs(before: seq<DiscoveredDevice>, bases: seq<string>, path: string, info: DeviceInfo, table: map<int, string>,
                      base: string, slug: string)
    requires bases == BaseSlugs(before) && base == Slugify(info.name)
    requires slug == NumberedSlug(base, Count(bases, base) + 1)
    ensures NextDevice(before, path, info, table) == Describe(path, info, table, slug)
  {
    assert NextDevice(before, path, info, table) == NumberedAfter(bases, path, info, table, base);
  }

  lemma PrefixStep(s: seq<string>, k: nat)
    requires k < |s|
    ensures s[..k + 1] == s[..k] + [s[k]]
  {
  }

  lemma BaseSlugsAppend(devices: seq<DiscoveredDevice>, d: DiscoveredDevice)
    ensures BaseSlugs(devices + [d]) == BaseSlugs(devices) + [Slugify(d.name)]
  {
    assert (devices + [d])[..|devices|] == devices;
  }

  /** A path that does not open, or has no keys while filtering, adds no device. */
  lemma SkippedPath(devices: seq<DiscoveredDevice>, bases: seq<string>, visited: seq<string>, path: string,
                    probes: map<string, DeviceInfo>, table: map<int, string>, filterKeysOnly: bool)
    requires DiscoveredFrom(devices, bases, visited, probes, table, filterKeysOnly)
    requires path !in probes || (filterKeysOnly && "EV_KEY" !in CapabilityNames(table, probes[path].codes))
    ensures DiscoveredFrom(devices, bases, visited + [path], probes, table, filterKeysOnly)
  {
    assert (visited + [path])[..|visited|] == visited;
  }

  /** A kept path adds its record, with base slug `base` numbered after the devices before it. */
  lemma AppendedDevice(devices: seq<DiscoveredDevice>, bases: seq<string>, visited: seq<string>, d: DiscoveredDevice, base: string,
                       probes: map<string, DeviceInfo>, table: map<int, string>, filterKeysOnly: bool)
    requires DiscoveredFrom(devices, bases, visited, probes, table, filterKeysOnly)
    requires d.path in probes
    requires d == Describe(d.path, probes[d.path], table, NumberedSlug(base, Count(bases, base) + 1))
    requires filterKeysOnly ==> "EV_KEY" in d.capabilities
    ensures DiscoveredFrom(devices + [d], bases + [base], visited + [d.path], probes, table, filterKeysOnly)
  {
    var next, nextBases := devices + [d], bases + [base];
    assert next[..|devices|] == devices;
    assert (visited + [d.path])[..|visited|] == visited;
    forall i | 0 <= i < |next| ensures Numbered(next, nextBases, i, probes, table) {
      if i < |devices| {
        NumberedAppend(devices, bases, d, base, i, probes, table);
      } else {
        assert nextBases[..i] == bases;
      }
    }
  }

  /** An earlier device stays numbered when a device is appended after it. */
  lemma NumberedAppend(devices: seq<DiscoveredDevice>, bases: seq<string>, d: DiscoveredDevice, b: string, i: nat,
                       probes: map<string, DeviceInfo>, table: map<int, string>)
    requires i < |devices| == |bases|
    requires Numbered(devices, bases, i, probes, table)
    ensures Numbered(devices + [d], bases + [b], i, probes, table)
  {
    assert (bases + [b])[..i] == bases[..i];
  }

  /**
   * The `seen_slugs` step of `discover_devices`: the slug for one more device
   * with base slug `base` is numbered by how often `base` occurred before, and
   * the counter then counts the base slugs including this one.
   */
  method NumberSlug(seen: map<string, nat>, base: string, ghost bases: seq<string>)
    returns (next: map<string, nat>, slug: string)
    requires forall b :: b in seen <==> Count(bases, b) > 0
    requires forall b :: b in seen ==> seen[b] == Count(bases, b)
    ensures slug == NumberedSlug(base, Count(bases, base) + 1)
    ensures forall b :: b in next <==> Count(bases + [base], b) > 0
    ensures forall b :: b in next ==> next[b] == Count(bases + [base], b)
  {
    CountAppend(bases, base);
    if base in seen {
      next := seen[base := seen[base] + 1];
      slug := base + "-" + IntToString(next[base]);
    } else {
      next := seen[base := 1];
      slug := base;
    }
  }

  /**
   * `discover_device_by_path`: the record of one device, with its base slug
   * unnumbered, or `None` when it cannot be opened.
   */
  method DiscoverDeviceByPath(path: string, probes: map<string, DeviceInfo>, table: map<int, string>)
    returns (r: Option<DiscoveredDevice>)
    ensures r.None? <==> path !in probes
    ensures r.Some? ==> r.value == Describe(path, probes[path], table, Slugify(probes[path].name))
  {
    if path !in probes {
      return None;
    }
    var info := probes[path];
    var capabilities := GetDeviceCapabilities(table, info.codes);
    var slug := Slugify(info.name);
    var uniqueId := GenerateUniqueId(path, slug);
    return Some(DiscoveredDevice(path, info.name, slug, uniqueId, capabilities));
  }

  // ---------------------------------------------------------------------------
  // Properties of a discovery result
  // ---------------------------------------------------------------------------

  /** Devices whose names give the same base slug end up with different slugs. */
  lemma SameBaseDistinctSlugs(devices: seq<DiscoveredDevice>, bases: seq<string>, probes: map<string, DeviceInfo>,
                              table: map<int, string>, i: nat, j: nat)
    requires |bases| == |devices|
    requires forall k :: 0 <= k < |devices| ==> Numbered(devices, bases, k, probes, table)
    requires i < j < |devices|
    requires bases[i] == bases[j]
    ensures devices[i].slug != devices[j].slug
  {
    var b := bases[i];
    assert Numbered(devices, bases, i, probes, table) && Numbered(devices, bases, j, probes, table);
    CountGrows(bases, i, j);
    NumberedSlugsDiffer(b, Count(bases[..i], b) + 1, Count(bases[..j], b) + 1);
  }

  /**
   * The first device with a given base slug keeps the base slug unnumbered:
   * with `bases` the base slugs of the names, that is exactly the record
   * `discover_device_by_path` builds.
   */
  lemma FirstOfBaseIsUnnumbered(devices: seq<DiscoveredDevice>, bases: seq<string>, probes: map<string, DeviceInfo>,
                                table: map<int, string>, i: nat)
    requires |bases| == |devices|
    requires forall k :: 0 <= k < |devices| ==> Numbered(devices, bases, k, probes, table)
    requires i < |devices|
    requires forall k :: 0 <= k < i ==> bases[k] != bases[i]
    ensures devices[i].path in probes
    ensures devices[i] == Describe(devices[i].path, probes[devices[i].path], table, bases[i])
  {
    assert Numbered(devices, bases, i, probes, table);
    CountAbsent(bases[..i], bases[i]);
  }

  lemma {:induction false} CountAbsent(s: seq<string>, x: string)
    requires forall k :: 0 <= k < |s| ==> s[k] != x
    ensures Count(s, x) == 0
  {
    if s != [] {
      CountAbsent(s[..|s| - 1], x);
    }
  }

  /** The names `x` and `x-2` are their own base slugs. */
  lemma CollidingNames()
    ensures Slugify("x") == "x" && Slugify("x-2") == "x-2"
  {
    assert IsSlug("x");
    SlugifyFixesSlugs("x");
    assert IsSlug("x-2") by {
      assert NoDoubleDash("x-2") && AllSlugChars("x-2");
    }
    SlugifyFixesSlugs("x-2");
  }

  /**
   * Numbering does not make slugs unique: devices named `x`, `x` and `x-2`
   * (base slugs `x`, `x`, `x-2`), in that order, end up as `x`, `x-2` and `x-2`.
   */
  lemma NumberingCanCollide(devices: seq<DiscoveredDevice>, bases: seq<string>, probes: map<string, DeviceInfo>, table: map<int, string>)
    requires |devices| == 3 && bases == ["x", "x", "x-2"]
    requires forall k :: 0 <= k < |devices| ==> Numbered(devices, bases, k, probes, table)
    ensures devices[1].slug == devices[2].slug == "x-2"
  {
    assert Numbered(devices, bases, 1, probes, table) && Numbered(devices, bases, 2, probes, table);
    assert bases[..1] == ["x"] && bases[..2] == ["x", "x"];
    assert ["x"][..0] == [] && ["x", "x"][..1] == ["x"];
    assert Count(bases[..1], "x") == 1;
    assert Count(bases[..2], "x-2") == 0;
    assert IntToString(2) == "2";
  }
}
