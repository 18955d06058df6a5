/** The theme toggle from main.js: the `data-theme` attribute on the document element,
    the stored preference under `lh_theme`, and the toggle button's pressed state and caption. */
module Theme {
  import opened Wrappers

  predicate IsTheme(t: string) {
    t == "dark" || t == "light"
  }

  /** The starting theme: a saved "light" or "dark" wins, anything else defers to the
      system's `prefers-color-scheme: dark`. */
  function InitialTheme(saved: Option<string>, systemDark: bool): (t: string)
    ensures IsTheme(t)
    ensures saved.Some? && IsTheme(saved.value) ==> t == saved.value
    ensures !(saved.Some? && IsTheme(saved.value)) ==> (t == "dark" <==> systemDark)
  {
    if saved == Some("light") || saved == Some("dark") then saved.value
    else if systemDark then "dark" else "light"
  }

  /** A click: "dark" becomes "light", every other value becomes "dark". */
  function NextTheme(t: string): (r: string)
    ensures IsTheme(r)
    ensures r == "dark" <==> t != "dark"
  {
    if t == "dark" then "light" else "dark"
  }

  /** Two clicks restore the theme exactly when it was "dark" or "light". */
  lemma TwoClicksRestore(t: string)
    ensures NextTheme(NextTheme(t)) == t <==> IsTheme(t)
  {
    if !IsTheme(t) {
      assert NextTheme(t) == "dark";
      assert NextTheme(NextTheme(t)) == "light";
    }
  }

  /** Every click changes a starting theme, and clicks alternate from then on. */
  lemma ClicksAlternate(saved: Option<string>, systemDark: bool)
    ensures var t := InitialTheme(saved, systemDark);
            NextTheme(t) != t && NextTheme(NextTheme(t)) == t
  {
    TwoClicksRestore(InitialTheme(saved, systemDark));
  }

  class ThemeToggle {
    /** `#theme-toggle` exists; without it nothing is labelled and no click can arrive. */
    const hasButton: bool
    /** The `data-theme` attribute. */
    var theme: string
    /** What `localStorage` holds under the key "lh_theme". */
    var stored: Option<string>
    var pressed: bool
    var caption: string
    var emoji: string

    ghost predicate Valid()
      reads this
    {
      IsTheme(theme) && (hasButton ==> Shows(theme))
    }

    /** `apply`'s effect on the button. `data-theme` only ever holds "dark" or "light"
        here, so its lower-casing changes nothing. */
    ghost predicate Shows(t: string)
      reads this
    {
      pressed == (t == "dark") &&
      caption == (if t == "dark" then "Dark" else "Light") &&
      emoji == (if t == "dark" then "\U{1F319}" else "\U{2600}\U{FE0F}")
    }

    method Apply()
      requires hasButton
      modifies this`pressed, this`caption, this`emoji
      ensures Shows(theme)
    {
      pressed := theme == "dark";
      caption := if theme == "dark" then "Dark" else "Light";
      emoji := if theme == "dark" then "\U{1F319}" else "\U{2600}\U{FE0F}";
    }

    constructor (saved: Option<string>, systemDark: bool, hasButton: bool)
      ensures Valid()
      ensures this.hasButton == hasButton
      ensures theme == InitialTheme(saved, systemDark) && stored == saved
    {
      this.hasButton := hasButton;
      theme := InitialTheme(saved, systemDark);
      stored := saved;
      new;
      if hasButton {
        Apply();
      }
    }

    /** A click on the button: flip, persist, relabel. */
    method Click()
      requires Valid() && hasButton
      modifies this
      ensures Valid()
      ensures theme == NextTheme(old(theme)) && theme != old(theme)
      ensures stored == Some(theme)
    {
      theme := NextTheme(theme);
      stored := Some(theme);
      Apply();
    }
  }

  /** Two clicks bring back the starting theme, and the stored
      preference is the starting theme from then on. */
  method ClickTwice(saved: Option<string>, systemDark: bool) returns (before: string, after: string, stored: Option<string>)
    ensures before == after == InitialTheme(saved, systemDark)
    ensures stored == Some(before)
  {
    var t := new ThemeToggle(saved, systemDark, true);
    before := t.theme;
    t.Click();
    t.Click();
    TwoClicksRestore(before);
    after := t.theme;
    stored := t.stored;
  }
}
