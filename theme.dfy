/** The light/dark theme switch: the `data-theme` attribute of the document
    element, the value saved under the key `theme` in local storage, and the
    class of the toggle button's icon. */
module Theme {
  import opened Options

  const Light: string := "light"
  const Dark: string := "dark"
  const SunIcon: string := "fas fa-sun"
  const MoonIcon: string := "fas fa-moon"

  /** The parts of the page the theme code reads and writes; `None` is an
      attribute or storage entry that is not there. */
  datatype ThemeState = ThemeState(dataTheme: Option<string>, stored: Option<string>, icon: string)

  /** The theme `toggleTheme` switches to: dark from light, light from
      anything else, including no theme at all. */
  function NextTheme(current: Option<string>): (r: string)
    ensures r == Light || r == Dark
    ensures r == Dark <==> current == Some(Light)
  {
    if current == Some(Light) then Dark else Light
  }

  /** `updateThemeIcon`: the sun for light mode, the moon otherwise. */
  function IconFor(isLightMode: bool): (r: string)
    ensures r == SunIcon || r == MoonIcon
    ensures r == SunIcon <==> isLightMode
  {
    if isLightMode then SunIcon else MoonIcon
  }

  /** `localStorage.getItem('theme') || 'dark'`: a missing or empty saved
      value falls back to dark, any other saved value is used as it is. */
  function SavedOrDefault(saved: Option<string>): (r: string)
    ensures r != ""
    ensures saved == None || saved == Some("") ==> r == Dark
    ensures saved.Some? && saved.value != "" ==> r == saved.value
  {
    match saved
    case None => Dark
    case Some(s) => if s == "" then Dark else s
  }

  /** The icon agrees with the theme: the sun exactly when the theme is light. */
  predicate IconShowsTheme(p: ThemeState) {
    p.dataTheme.Some? && p.icon == IconFor(p.dataTheme == Some(Light))
  }

  /** `toggleTheme`: sets, saves and shows the next theme. */
  function ToggleTheme(p: ThemeState): (r: ThemeState)
    ensures r.dataTheme == Some(NextTheme(p.dataTheme))
    ensures r.stored == r.dataTheme
    ensures IconShowsTheme(r)
  {
    var newTheme := NextTheme(p.dataTheme);
    ThemeState(Some(newTheme), Some(newTheme), IconFor(newTheme == Light))
  }

  /** `loadTheme`: shows the saved theme, or dark, and leaves storage alone. */
  function LoadTheme(p: ThemeState): (r: ThemeState)
    ensures r.stored == p.stored
    ensures r.dataTheme == Some(SavedOrDefault(p.stored))
    ensures IconShowsTheme(r)
  {
    var savedTheme := SavedOrDefault(p.stored);
    ThemeState(Some(savedTheme), p.stored, IconFor(savedTheme == Light))
  }

  /** Toggling twice comes back to light from light and to dark from
      anything else; in particular it restores both light and dark. */
  lemma ToggleTwice(p: ThemeState)
    ensures ToggleTheme(ToggleTheme(p)).dataTheme == (if p.dataTheme == Some(Light) then Some(Light) else Some(Dark))
    ensures p.dataTheme == Some(Light) || p.dataTheme == Some(Dark) ==> ToggleTheme(ToggleTheme(p)).dataTheme == p.dataTheme
  {
  }

  /** A toggled theme survives a reload: loading the page again shows the
      theme that the toggle saved. */
  lemma ToggleSurvivesReload(p: ThemeState)
    ensures LoadTheme(ToggleTheme(p)) == ToggleTheme(p)
  {
  }

  /** A first visit, with nothing saved, shows the dark theme and the moon. */
  lemma FirstVisitIsDark(p: ThemeState)
    requires p.stored == None
    ensures LoadTheme(p).dataTheme == Some(Dark) && LoadTheme(p).icon == MoonIcon
  {
  }
}
