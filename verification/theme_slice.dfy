/** The theme slice (src/redux/slices/themeSlice.ts): a light and a dark theme
    and the reducers that switch between them. */
module ThemeSlice {
  import opened Wrappers

  /** The colours the app overrides on top of the UI library's themes. */
  datatype Colors = Colors(primary: string, background: string, text: string, surface: string)

  /** A theme: the `dark` flag inherited from the library theme it extends,
      and the overridden colours. */
  datatype Theme = Theme(dark: bool, colors: Colors)

  /** Extends the library's default (light) theme, whose `dark` flag is false. */
  const LightTheme: Theme := Theme(false, Colors("#0066cc", "#ffffff", "#000000", "#f5f5f5"))

  /** Extends the library's dark theme, whose `dark` flag is true. */
  const DarkTheme: Theme := Theme(true, Colors("#1e90ff", "#121212", "#ffffff", "#1e1e1e"))

  predicate IsKnownTheme(t: Theme) {
    t == LightTheme || t == DarkTheme
  }

  /** The colour scheme name the platform reports (`'dark'`, `'light'`, or none). */
  type ColorSchemeName = Option<string>

  /** The initial state: dark exactly when the platform reports `'dark'`. */
  function InitialTheme(scheme: ColorSchemeName): (t: Theme)
    ensures IsKnownTheme(t)
    ensures t == DarkTheme <==> scheme == Some("dark")
  {
    if scheme == Some("dark") then DarkTheme else LightTheme
  }

  /** `setTheme`: dark for `'dark'`, light for anything else, null included;
      the previous theme plays no part. */
  function SetTheme(t: Theme, scheme: ColorSchemeName): (r: Theme)
    ensures IsKnownTheme(r)
    ensures r.dark <==> scheme == Some("dark")
  {
    if scheme == Some("dark") then DarkTheme else LightTheme
  }

  /** `toggleTheme`: the other theme, chosen by the current `dark` flag. */
  function ToggleTheme(t: Theme): (r: Theme)
    ensures IsKnownTheme(r)
    ensures r.dark == !t.dark
  {
    if t.dark then LightTheme else DarkTheme
  }

  /** The initial state is the theme `setTheme` picks for the same scheme,
      whatever theme it is applied to. */
  lemma InitialThemeIsSetTheme(t: Theme, scheme: ColorSchemeName)
    ensures InitialTheme(scheme) == SetTheme(t, scheme)
  {
  }

  /** Setting the same scheme twice is setting it once. */
  lemma SetThemeIdempotent(t: Theme, scheme: ColorSchemeName)
    ensures SetTheme(SetTheme(t, scheme), scheme) == SetTheme(t, scheme)
  {
  }

  /** On the two themes the slice ever holds, toggling swaps them and toggling twice is the identity. */
  lemma ToggleInvolution(t: Theme)
    requires IsKnownTheme(t)
    ensures ToggleTheme(ToggleTheme(t)) == t
    ensures ToggleTheme(t) != t
  {
  }
}
