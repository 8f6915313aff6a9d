/** The stateful half of theme management in js/main.js: `applyTheme`
    writing the document marker and every toggle icon, and the toggle
    buttons wired by `initThemeToggles`, which keep one current preference,
    advance it on every click, persist it and re-apply it. */
module ThemeToggle {
  import opened Wrappers
  import opened Theme

  /** The parts of the page that theme management reads and writes. */
  class Document {
    /** The root element's `data-theme` attribute. */
    var marker: Option<string>
    /** The text of every `[data-theme-toggle] .theme-icon` in the document. */
    const icons: array<string>
    /** `localStorage`, as a map from key to value. */
    var storage: map<string, string>

    /** A freshly rendered page: no marker, `toggleCount` icons showing the
        glyph the header markup starts with, and the given storage. */
    constructor (storage: map<string, string>, toggleCount: nat)
      ensures this.storage == storage && marker.None?
      ensures fresh(icons) && icons.Length == toggleCount
      ensures forall k :: 0 <= k < icons.Length ==> icons[k] == SystemIcon
    {
      this.storage := storage;
      marker := None;
      icons := new string[toggleCount](_ => SystemIcon);
    }

    /** `applyTheme`: sets or clears the marker and writes the theme's glyph
        into every toggle icon; storage and the set of icons are untouched. */
    method ApplyTheme(theme: string)
      modifies this, icons
      ensures marker == MarkerFor(theme)
      ensures storage == old(storage)
      ensures forall k :: 0 <= k < icons.Length ==> icons[k] == IconFor(theme)
    {
      if theme == "system" {
        marker := None;
      } else {
        marker := Some(theme);
      }
      var icon := IconFor(theme);
      for k := 0 to icons.Length
        invariant marker == MarkerFor(theme) && storage == old(storage)
        invariant forall j :: 0 <= j < k ==> icons[j] == icon
      {
        icons[k] := icon;
      }
    }
  }

  /** The toggle buttons of one header, with the preference their click
      handlers share. */
  class ThemeToggles {
    const doc: Document
    /** The number of `[data-theme-toggle]` buttons wired; always positive. */
    const buttons: nat
    var currentTheme: string

    /** The document shows `currentTheme`: the marker and every icon agree
        with it. */
    ghost predicate Applied()
      reads this, doc, doc.icons
    {
      currentTheme in Themes &&
      doc.marker == MarkerFor(currentTheme) &&
      forall k :: 0 <= k < doc.icons.Length ==> doc.icons[k] == IconFor(currentTheme)
    }

    /** The body of `initThemeToggles` past its early return: read the stored
        preference and apply it. */
    constructor Init(doc: Document, buttons: nat)
      requires buttons > 0
      modifies doc, doc.icons
      ensures this.doc == doc && this.buttons == buttons
      ensures currentTheme == StoredTheme(GetItem(old(doc.storage), ThemeKey))
      ensures doc.storage == old(doc.storage)
      ensures Applied()
    {
      this.doc := doc;
      this.buttons := buttons;
      currentTheme := StoredTheme(GetItem(doc.storage, ThemeKey));
      new;
      doc.ApplyTheme(currentTheme);
    }

    /** A click on any of the buttons: advance the preference, persist
        exactly that value under the theme key, and apply it. Nothing else in
        storage changes, and reading storage back gives the new preference. */
    method Click()
      modifies this, doc, doc.icons
      ensures currentTheme == NextTheme(old(currentTheme))
      ensures doc.storage == old(doc.storage)[ThemeKey := currentTheme]
      ensures StoredTheme(GetItem(doc.storage, ThemeKey)) == currentTheme
      ensures Applied()
    {
      currentTheme := NextTheme(currentTheme);
      doc.storage := doc.storage[ThemeKey := currentTheme];
      doc.ApplyTheme(currentTheme);
      StoreThenRead(old(doc.storage), currentTheme);
    }
  }

  /** `initThemeToggles(root)`: with no toggle button it does nothing at all;
      otherwise it applies the stored preference and wires the buttons. */
  method InitThemeToggles(doc: Document, buttons: nat) returns (toggles: Option<ThemeToggles>)
    modifies doc, doc.icons
    ensures buttons == 0 ==> toggles.None? && unchanged(doc) && unchanged(doc.icons)
    ensures buttons > 0 ==> toggles.Some? && fresh(toggles.value)
    ensures buttons > 0 ==> toggles.value.doc == doc && toggles.value.Applied()
    ensures buttons > 0 ==> toggles.value.currentTheme == StoredTheme(GetItem(old(doc.storage), ThemeKey))
    ensures doc.storage == old(doc.storage)
  {
    if buttons == 0 {
      return None;
    }
    var t := new ThemeToggles.Init(doc, buttons);
    toggles := Some(t);
  }

  /** From the default `system`, three clicks persist `light`, then `dark`,
      then `system`, and the page ends showing what it showed before. Storage
      ends holding `system` under the theme key, even where nothing was
      stored before. */
  method ClickThreeTimes(t: ThemeToggles) returns (persisted: seq<string>)
    requires t.currentTheme == "system" && t.Applied()
    modifies t, t.doc, t.doc.icons
    ensures persisted == ["light", "dark", "system"]
    ensures t.currentTheme == "system" && t.doc.marker.None?
    ensures t.doc.marker == old(t.doc.marker)
    ensures forall k :: 0 <= k < t.doc.icons.Length ==> t.doc.icons[k] == old(t.doc.icons[k]) == SystemIcon
    ensures t.doc.storage == old(t.doc.storage)[ThemeKey := "system"]
  {
    persisted := [];
    t.Click();
    persisted := persisted + [t.doc.storage[ThemeKey]];
    t.Click();
    persisted := persisted + [t.doc.storage[ThemeKey]];
    t.Click();
    persisted := persisted + [t.doc.storage[ThemeKey]];
  }
}
