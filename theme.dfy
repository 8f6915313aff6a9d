/** The UI-independent part of theme management in js/main.js: the three
    preferences, reading a stored preference back, cycling to the next one,
    what applying a preference does to the document marker and to the toggle
    icons, and how the effective light/dark theme is resolved. */
module Theme {
  import opened Wrappers

  /** The storage key under which the preference is persisted. */
  const ThemeKey: string := "jamiphy-theme"

  /** The preferences, in cycling order. */
  const Themes: seq<string> := ["light", "dark", "system"]

  /** Glyphs written into every theme toggle icon. */
  const LightIcon: string := "light_mode"
  const DarkIcon: string := "dark_mode"
  const SystemIcon: string := "desktop_windows"

  /** The value stored under `key`, as `getItem` returns it (`null` is `None`). */
  function GetItem(storage: map<string, string>, key: string): (r: Option<string>)
    ensures r.Some? <==> key in storage
    ensures r.Some? ==> r.value == storage[key]
  {
    if key in storage then Some(storage[key]) else None
  }

  /** `Array.prototype.indexOf` with strict equality: the first position of
      `x` in `xs`, or -1 when it does not occur. */
  function IndexOf(xs: seq<string>, x: string): (i: int)
    ensures -1 <= i < |xs|
    ensures i == -1 <==> x !in xs
    ensures 0 <= i ==> xs[i] == x && x !in xs[..i]
    decreases |xs|
  {
    if xs == [] then -1
    else if xs[0] == x then 0
    else
      var j := IndexOf(xs[1..], x);
      if j == -1 then -1
      else j + 1
  }

  /** `getStoredTheme`: the raw stored value when it is one of the three
      preferences, otherwise (absent or foreign) `system`. */
  function StoredTheme(stored: Option<string>): (t: string)
    ensures t in Themes
    ensures stored == Some(t) || t == "system"
    ensures stored.Some? && stored.value in Themes ==> t == stored.value
  {
    if stored.Some? && stored.value in Themes then stored.value else "system"
  }

  /** `nextTheme`: the preference after `current` in `Themes`, cyclically.
      A value outside `Themes` has index -1 and so maps to the first, `light`.
      The index plus one is never negative, so JavaScript's `%` and Dafny's agree. */
  function NextTheme(current: string): (n: string)
    ensures n in Themes
    ensures n != current
    ensures current == "light" ==> n == "dark"
    ensures current == "dark" ==> n == "system"
    ensures current == "system" ==> n == "light"
    ensures current !in Themes ==> n == "light"
  {
    var idx := IndexOf(Themes, current);
    Themes[(idx + 1) % |Themes|]
  }

  /** What `applyTheme` leaves in the document's `data-theme` attribute:
      removed for `system`, set to the preference otherwise. */
  function MarkerFor(theme: string): (m: Option<string>)
    ensures m.None? <==> theme == "system"
    ensures m.Some? ==> m.value == theme
  {
    if theme == "system" then None else Some(theme)
  }

  /** The glyph `applyTheme` writes into every toggle icon: the `iconMap`
      entry for the preference, `desktop_windows` for any other value. */
  function IconFor(theme: string): (icon: string)
    ensures icon in [LightIcon, DarkIcon, SystemIcon]
    ensures icon == LightIcon <==> theme == "light"
    ensures icon == DarkIcon <==> theme == "dark"
    ensures icon == SystemIcon <==> theme != "light" && theme != "dark"
  {
    if theme == "light" then LightIcon
    else if theme == "dark" then DarkIcon
    else SystemIcon
  }

  /** `currentEffectiveTheme`: an explicit marker wins when it is truthy
      (set and not empty); otherwise the platform's "prefers dark" signal
      decides between `dark` and `light`. */
  function EffectiveTheme(marker: Option<string>, prefersDark: bool): (e: string)
    ensures marker.Some? && marker.value != "" ==> e == marker.value
    ensures marker.None? || marker.value == "" ==> e in ["light", "dark"] && (e == "dark" <==> prefersDark)
  {
    if marker.Some? && marker.value != "" then marker.value
    else if prefersDark then "dark" else "light"
  }

  /** Persisting a preference and reading it back gives the same preference. */
  lemma StoreThenRead(storage: map<string, string>, t: string)
    requires t in Themes
    ensures StoredTheme(GetItem(storage[ThemeKey := t], ThemeKey)) == t
  {
  }

  /** Reading back a value that was itself read back changes nothing. */
  lemma StoredThemeIdempotent(stored: Option<string>)
    ensures StoredTheme(Some(StoredTheme(stored))) == StoredTheme(stored)
  {
  }

  /** Three steps of `NextTheme` return to any preference, and never sooner. */
  lemma NextThemeCycle(t: string)
    requires t in Themes
    ensures NextTheme(NextTheme(NextTheme(t))) == t
    ensures NextTheme(NextTheme(t)) != t
  {
  }

  /** After `applyTheme(t)` for a preference `t`, the effective theme is `t`
      itself for `light` and `dark`, and follows the platform signal for
      `system`; it is always `light` or `dark`. */
  lemma EffectiveAfterApply(t: string, prefersDark: bool)
    requires t in Themes
    ensures EffectiveTheme(MarkerFor(t), prefersDark) in ["light", "dark"]
    ensures t != "system" ==> EffectiveTheme(MarkerFor(t), prefersDark) == t
    ensures t == "system" ==> (EffectiveTheme(MarkerFor(t), prefersDark) == "dark" <==> prefersDark)
  {
  }

  /** Different preferences show different icons, so the icon tells the
      preference back. */
  lemma IconDistinguishes(t: string, u: string)
    requires t in Themes && u in Themes
    ensures IconFor(t) == IconFor(u) <==> t == u
  {
  }

  /** With no stored preference the page applies `system`: no marker, the
      `desktop_windows` glyph, and the effective theme follows the platform. */
  lemma UnsetPreferenceFollowsPlatform(prefersDark: bool)
    ensures StoredTheme(None) == "system"
    ensures IconFor(StoredTheme(None)) == SystemIcon
    ensures EffectiveTheme(MarkerFor(StoredTheme(None)), prefersDark) == (if prefersDark then "dark" else "light")
  {
  }
}
