# Jamiphy website: verified model of the page-chrome logic

The site's `js/main.js` is mostly markup templating and a canvas animation.
This project models the small amount of logic in it that does not depend on
the page's look, and proves properties of that model in Dafny:

- **Theme preference** (module `Theme`, pure): the three preferences
  `light`, `dark`, `system`; reading a stored value back (`getStoredTheme`);
  cycling to the next preference (`nextTheme`); what applying a preference
  does to the root element's `data-theme` marker and to the toggle glyph;
  and how the effective light/dark theme is resolved (`currentEffectiveTheme`).
- **Theme toggles** (module `ThemeToggle`, imperative): a `Document` class
  holding the marker, the array of every toggle icon's text and
  `localStorage` as a map. `ApplyTheme` writes them in place. A
  `ThemeToggles` class holds the one `currentTheme` that a header's toggle
  buttons share. Each `Click` advances it, persists it and re-applies it.
- **Active route** (module `Route`, pure): the header's `isHome`, `isAbout`
  and `isContact` flags, computed from the path, and the three navigation
  links they mark active.
- **Mobile menu** (module `MobileMenu`, imperative): the panel's `hidden`
  class, the button's `aria-expanded` attribute and its glyph. A click flips
  all three in lockstep.
- **Reveal on scroll** (module `Reveal`, imperative): an `Observer` class
  holding each element's `revealed` class and the set of observed elements.
  Its callback handles a batch of intersection entries. The spec function
  `Reveal` describes the result, and lemmas cover any sequence of batches.

Inputs from the environment are parameters or fields. The stored value is a
`map<string, string>` read through `GetItem`. The "prefers dark" media query
is a `bool`. Intersection events are a sequence of
`Entry(target, isIntersecting)`. Elements are numbered in document order.

Two points where the code is more precise than a plain description of it.
The model follows the code:
- `currentEffectiveTheme` returns the marker only when it is *truthy*. A
  marker set to the empty string falls back to the platform signal, just like
  a missing one.
- `nextTheme` is total over strings. A value outside the three preferences
  has index -1 and so maps to `light`.

## Model

| member | source | states |
|---|---|---|
| `Theme.GetItem` | js/main.js:240 | the read of the theme key: present exactly when the key is stored, and then the stored value |
| `Theme.IndexOf` | js/main.js:261 | the first position of a value in a list, or -1 exactly when it is absent |
| `Theme.StoredTheme` | js/main.js:239-242 | the result is always a preference; it is the stored value when that is a preference, otherwise `system` |
| `Theme.NextTheme` | js/main.js:260-263 | `light`→`dark`, `dark`→`system`, `system`→`light`, anything else → `light`; the result is a preference and never the input |
| `Theme.MarkerFor` | js/main.js:247-251 | the `data-theme` marker is removed exactly for `system`, otherwise set to the preference |
| `Theme.IconFor` | js/main.js:254-256 | each glyph corresponds to exactly one case: `light_mode` iff `light`, `dark_mode` iff `dark`, `desktop_windows` for every other value |
| `Theme.EffectiveTheme` | js/main.js:281-285 | a truthy marker is returned as is; otherwise the result is `light` or `dark`, and `dark` exactly when the platform prefers dark |
| `Theme.StoreThenRead` | js/main.js:239-242 | persisting a preference under the theme key and reading it back gives that preference (round trip with line 275) |
| `Theme.StoredThemeIdempotent` | js/main.js:239-242 | reading back an already validated value does not change it |
| `Theme.NextThemeCycle` | js/main.js:260-263 | three steps return to any preference, and two steps never do |
| `Theme.EffectiveAfterApply` | js/main.js:244-251 | after applying a preference the effective theme is that preference for `light`/`dark` and follows the platform for `system` |
| `Theme.IconDistinguishes` | js/main.js:254 | the three preferences show three different glyphs |
| `Theme.UnsetPreferenceFollowsPlatform` | js/main.js:239-242 | with nothing stored the page applies `system`: glyph `desktop_windows`, effective theme `dark` exactly when the platform prefers dark |
| `ThemeToggle.Document.constructor` | js/main.js:33-42 | a freshly rendered header: no marker, every toggle icon showing `desktop_windows` |
| `ThemeToggle.Document.ApplyTheme` | js/main.js:244-258 | the marker becomes the preference's marker, every toggle icon its glyph, and storage is untouched |
| `ThemeToggle.ThemeToggles.Init` | js/main.js:269-270 | the current preference is the stored one and the document shows it |
| `ThemeToggle.ThemeToggles.Click` | js/main.js:273-277 | the preference advances by `NextTheme`; storage changes only at the theme key, to exactly the new preference; the document shows it; reading storage back yields it |
| `ThemeToggle.InitThemeToggles` | js/main.js:265-279 | with no toggle button nothing changes and nothing is wired; otherwise the stored preference is applied and becomes current |
| `ThemeToggle.ClickThreeTimes` | js/main.js:273-277 | from a page showing `system`, three clicks persist `light`, `dark`, `system` in that order; the marker and every icon end as they started, and storage ends holding `system` under the theme key |
| `Route.RouteFlags` | js/main.js:11-14 | home iff the path is `/` or `/index.html`; about iff it starts with `/about`; contact iff it starts with `/contact` |
| `Route.ActiveCount` | js/main.js:12-14 | the number of set flags, at most three, and zero exactly when no flag is set |
| `Route.AtMostOneActive` | js/main.js:12-14 | no path sets two flags |
| `Route.NavLinks` | js/main.js:29-31 | the links are Home `/`, About `/about/`, Contact `/contact/`; each is marked active exactly when its own route flag is set, and at most one of them is |
| `Route.FollowingLinkActivatesIt` | js/main.js:29-31 | on the page a link points to, that link and only that link is active |
| `Route.AboutSubpage` | js/main.js:13 | every path below `/about`, such as `/about/xyz`, marks exactly About |
| `Route.UnrecognisedPath` | js/main.js:12-14 | `/blog` and the empty path leave all three flags unset |
| `MobileMenu.BoolText` | js/main.js:66 | the attribute text is `true` exactly for true and `false` exactly for false |
| `MobileMenu.MenuIcon` | js/main.js:70 | the glyph is `menu` exactly when hidden and `close` exactly when shown |
| `MobileMenu.Menu.constructor` | js/main.js:43-51 | the menu starts hidden, with `aria-expanded="false"` and glyph `menu` |
| `MobileMenu.Menu.Click` | js/main.js:64-71 | `hidden` is inverted, and afterwards `aria-expanded` and the glyph agree with it whatever they were before |
| `MobileMenu.ClickTwice` | js/main.js:64-71 | two clicks restore all three pieces of state |
| `MobileMenu.ExpandedIffClose` | js/main.js:66-70 | in a consistent menu `aria-expanded` is `true` exactly when the glyph is `close` |
| `Reveal.HitTargets` | js/main.js:291-295 | the elements unobserved by a batch are exactly those some intersecting entry targets |
| `Reveal.HitLast` | js/main.js:291 | a batch hits an element exactly when its earlier entries or its last entry do (the step the entry loop takes) |
| `Reveal.Reveal` | js/main.js:291-295 | after a batch an element is revealed exactly when it was before or some entry reports it intersecting |
| `Reveal.RevealAll` | js/main.js:290-297 | after a sequence of batches an element is revealed exactly when it started revealed or some batch reports it intersecting |
| `Reveal.Flips` | js/main.js:293 | counts the batches that turn an element from hidden to revealed; never more than the number of batches |
| `Reveal.NeverHiddenAgain` | js/main.js:293 | a revealed element stays revealed through any later batches, and no batch reveals it again |
| `Reveal.RevealedAtMostOnce` | js/main.js:291-295 | across any sequence of batches an element goes from hidden to revealed at most once |
| `Reveal.NonIntersectingChangesNothing` | js/main.js:292 | a batch without intersecting entries reveals nothing and unobserves nothing |
| `Reveal.Observer.constructor` | js/main.js:301-304 | every element is observed and none is revealed |
| `Reveal.Observer.OnEntries` | js/main.js:290-297 | the new revealed state is `Reveal` of the old one; the observed set loses exactly the intersecting targets; an element is revealed exactly when it is no longer observed |

## Left out

- Header and footer markup (`innerHTML` templates) is not modelled beyond the route flags, the link list and the initial state of the menu and toggles. The footer's year from the clock is left out too.
- The synthwave canvas animation is not modelled. It is floating-point geometry, gradients, device-pixel-ratio resizing and an endless `requestAnimationFrame` loop, so no frame offset or palette is modelled.
- `customElements.define` registration, the `DOMContentLoaded` wiring and the injected `.animate-fade-in.revealed` style rule are page setup, not logic. So is the inline `opacity: 0` the reveal code sets.
- The IntersectionObserver's `threshold` and `rootMargin` are not modelled. They only decide when the browser reports `isIntersecting`, which is an input here.
- `localStorage`, `matchMedia` and the DOM attribute APIs are abstract state and inputs. Storage failures, on read or write (quota, denied access), are not modelled, and the code does not handle them either. A denied read throws at js/main.js:240, so `initThemeToggles` stops before applying a theme or wiring any button. `ThemeToggle.ThemeToggles.Init` always succeeds.
- `Theme.IconFor`: it does not model `iconMap` lookups that hit `Object.prototype` keys such as `constructor`. Only the three preferences ever reach `applyTheme`.
- Each header that calls `initThemeToggles` keeps its own `currentTheme`. Only one header's toggles are modelled, and `applyTheme` writes every icon in the document.
- `ThemeToggle.ThemeToggles.Click` covers a click on any of the header's toggle buttons. All buttons share one handler body, so which button was clicked is not tracked.
- The guard `if (navToggleBtn && mobileMenu)` always holds right after rendering, so the unwired case is not modelled.
