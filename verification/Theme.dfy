/**
 * The light/dark theme: the saved preference read at load, the toggle
 * button's flip, and the sun/moon icon that follows the theme.
 */
module Theme {
  import opened Wrappers

  const Moon: string := "fa-moon"
  const Sun: string := "fa-sun"

  /** The theme at page load: the saved value, or "light" when nothing (or "") is saved. */
  function InitialTheme(saved: Option<string>): (t: string)
    ensures t != ""
    ensures saved.None? || saved.value == "" ==> t == "light"
    ensures saved.Some? && saved.value != "" ==> t == saved.value
  {
    if saved.Some? && saved.value != "" then saved.value else "light"
  }

  /** The toggle: "light" becomes "dark", anything else becomes "light". */
  function Flip(theme: string): (t: string)
    ensures t == "light" || t == "dark"
    ensures t == "dark" <==> theme == "light"
  {
    if theme == "light" then "dark" else "light"
  }

  /** Two clicks restore the theme exactly when it is one of the two known themes. */
  lemma FlipTwice(theme: string)
    ensures Flip(Flip(theme)) == theme <==> theme == "light" || theme == "dark"
  {
  }

  /** `updateThemeIcon`: the icon's class list after the update. */
  function IconClasses(classes: set<string>, theme: string): (r: set<string>)
    ensures Moon in r <==> theme == "dark"
    ensures Sun in r <==> theme != "dark"
    ensures forall c :: c != Moon && c != Sun ==> (c in r <==> c in classes)
  {
    if theme == "dark" then classes - {Sun} + {Moon} else classes - {Moon} + {Sun}
  }

  /** The page's theme state: the `data-theme` attribute, the saved preference and the icon. */
  class ThemeToggle {
    var theme: string
    var saved: Option<string>
    var icon: set<string>

    /** The icon shows the moon exactly in the dark theme, and the sun otherwise. */
    ghost predicate Valid()
      reads this
    {
      (Moon in icon <==> theme == "dark") && (Sun in icon <==> theme != "dark")
    }

    /** Page load: read the preference, set the attribute, update the icon. */
    constructor (stored: Option<string>, iconClasses: set<string>)
      ensures Valid()
      ensures theme == InitialTheme(stored) && saved == stored
      ensures icon == IconClasses(iconClasses, theme)
    {
      theme := InitialTheme(stored);
      saved := stored;
      icon := IconClasses(iconClasses, InitialTheme(stored));
    }

    /** A click on the toggle: flip, store, update the icon. */
    method Click()
      modifies this
      ensures Valid()
      ensures theme == Flip(old(theme))
      ensures saved == Some(theme)
      ensures icon == IconClasses(old(icon), theme)
    {
      var newTheme := Flip(theme);
      theme := newTheme;
      saved := Some(newTheme);
      icon := IconClasses(icon, newTheme);
    }
  }

  /** Clicking twice from a known theme restores the theme and the saved value. */
  method ClickTwice(t: ThemeToggle)
    requires t.theme == "light" || t.theme == "dark"
    modifies t
    ensures t.Valid() && t.theme == old(t.theme) && t.saved == Some(old(t.theme))
  {
    t.Click();
    t.Click();
  }
}
