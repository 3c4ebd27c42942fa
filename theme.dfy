/** The light/dark theme: the starting theme read from storage, the toggle
    button that flips it, and the icon that shows which one is active. */
module Theme {
  import opened Options

  const Dark: string := "dark"
  const Light: string := "light"
  const SunIcon: string := "fas fa-sun"
  const MoonIcon: string := "fas fa-moon"

  /** `localStorage.getItem('theme') || 'dark'`: the stored theme, unless
      nothing is stored or the stored value is the empty string. */
  function InitialTheme(stored: Option<string>): (t: string)
    ensures t != ""
    ensures stored.Some? && stored.value != "" ==> t == stored.value
    ensures stored.None? || stored.value == "" ==> t == Dark
  {
    if stored.Some? && stored.value != "" then stored.value else Dark
  }

  /** The click handler's flip: 'dark' becomes 'light', anything else 'dark'. */
  function Toggled(theme: string): (t: string)
    ensures t == Dark || t == Light
    ensures t == Light <==> theme == Dark
  {
    if theme == Dark then Light else Dark
  }

  /** updateThemeIcon: the sun shows in the dark theme, the moon otherwise. */
  function IconFor(theme: string): (icon: string)
    ensures icon == SunIcon <==> theme == Dark
    ensures icon == SunIcon || icon == MoonIcon
  {
    if theme == Dark then SunIcon else MoonIcon
  }

  /** Two clicks from 'dark' or 'light' come back to where they started. */
  lemma ToggleTwice(theme: string)
    requires theme == Dark || theme == Light
    ensures Toggled(Toggled(theme)) == theme
  {
  }

  /** From any other stored value, the first click gives 'dark' and two
      clicks give 'light', never the value itself. */
  lemma ToggleTwiceFromOther(theme: string)
    requires theme != Dark && theme != Light
    ensures Toggled(theme) == Dark && Toggled(Toggled(theme)) == Light
  {
  }

  /** The page's theme state: the `data-theme` attribute, the stored value
      and the toggle icon's class. */
  class ThemeToggle {
    var dataTheme: string
    var stored: Option<string>
    var icon: string

    ghost predicate Valid()
      reads this
    {
      icon == IconFor(dataTheme)
    }

    /** initThemeToggle: the attribute and icon follow the stored theme;
        nothing is written to storage. */
    constructor (storedTheme: Option<string>)
      ensures Valid()
      ensures dataTheme == InitialTheme(storedTheme) && stored == storedTheme
    {
      var currentTheme := InitialTheme(storedTheme);
      dataTheme := currentTheme;
      stored := storedTheme;
      icon := IconFor(currentTheme);
    }

    /** The click listener: flip the attribute, store it, update the icon. */
    method Click()
      requires Valid()
      modifies this
      ensures Valid()
      ensures dataTheme == Toggled(old(dataTheme)) && stored == Some(dataTheme)
    {
      var newTheme := Toggled(dataTheme);
      dataTheme := newTheme;
      stored := Some(newTheme);
      icon := IconFor(newTheme);
    }
  }
}
