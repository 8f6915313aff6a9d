/** The header's mobile-menu disclosure: the `#mobile-menu` panel's
    `hidden` class, the `#nav-toggle` button's `aria-expanded` attribute and
    the button's glyph, flipped together by each click. */
module MobileMenu {

  /** `String(b)`, the text `setAttribute` stores for a boolean. */
  function BoolText(b: bool): (s: string)
    ensures s == "true" <==> b
    ensures s == "false" <==> !b
  {
    if b then "true" else "false"
  }

  /** The glyph of the toggle button: `menu` while the panel is hidden,
      `close` while it is shown. */
  function MenuIcon(hidden: bool): (icon: string)
    ensures icon == "menu" <==> hidden
    ensures icon == "close" <==> !hidden
  {
    if hidden then "menu" else "close"
  }

  class Menu {
    /** Whether the panel's class list holds `hidden`. */
    var hidden: bool
    /** The button's `aria-expanded` attribute. */
    var ariaExpanded: string
    /** The text of the button's icon span. */
    var icon: string

    /** The three pieces of state agree: expanded exactly when shown, and
        the `menu` glyph exactly when hidden. */
    ghost predicate Valid()
      reads this
    {
      ariaExpanded == BoolText(!hidden) && icon == MenuIcon(hidden)
    }

    /** As rendered: hidden, `aria-expanded="false"`, glyph `menu`. */
    constructor ()
      ensures Valid()
      ensures hidden && ariaExpanded == "false" && icon == "menu"
    {
      hidden := true;
      ariaExpanded := "false";
      icon := "menu";
    }

    /** The `click` handler: toggles `hidden`, then writes both the
        attribute and the glyph from the new value, so the three agree
        afterwards whatever they were before. */
    method Click()
      modifies this
      ensures hidden == !old(hidden)
      ensures Valid()
    {
      hidden := !hidden;
      var isHidden := hidden;
      ariaExpanded := BoolText(!isHidden);
      icon := MenuIcon(isHidden);
    }
  }

  /** Two clicks restore the menu exactly as it was. */
  method ClickTwice(m: Menu)
    requires m.Valid()
    modifies m
    ensures m.hidden == old(m.hidden) && m.ariaExpanded == old(m.ariaExpanded) && m.icon == old(m.icon)
  {
    m.Click();
    m.Click();
  }

  /** In a consistent menu the attribute and the glyph determine each
      other: expanded exactly when the glyph is `close`. */
  lemma ExpandedIffClose(hidden: bool)
    ensures BoolText(!hidden) == "true" <==> MenuIcon(hidden) == "close"
  {
  }
}
