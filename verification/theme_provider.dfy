/** The light/dark theme provider of the site: a two-valued theme, a `mounted`
    flag, a persisted preference under the single storage key "theme", and the
    class set of the document's root element. React's two effects become the
    explicit steps `InitEffect` and `SyncEffect`; the browser's storage,
    colour-scheme query and `window`/`document` globals become inputs. */
module ThemeProvider {
  import opened Wrappers

  /** The two display themes. */
  datatype Theme = Light | Dark

  /** The root-element class that switches the stylesheet to dark mode. */
  const DarkClass: string := "dark"

  /** The storage key under which the preference is persisted. */
  const StorageKey: string := "theme"

  /** Whether the `window` and `document` globals exist (false while rendering
      on the server). */
  datatype Env = Env(hasWindow: bool, hasDocument: bool)

  /** The provider's state: React state (`theme`, `mounted`), the value stored
      under `StorageKey` (absent when nothing is stored) and the root's classes. */
  datatype ProviderState = ProviderState(
    theme: Theme,
    mounted: bool,
    store: Option<string>,
    rootClasses: set<string>)

  /** The value a consumer of the context sees: the theme and the mounted flag
      (the `toggleTheme` callback is `ToggleTheme` below). */
  datatype ThemeContext = ThemeContext(theme: Theme, mounted: bool)

  /** The string under which a theme is stored and compared. */
  function ThemeName(t: Theme): (s: string)
    ensures s == "light" || s == "dark"
  {
    match t
    case Light => "light"
    case Dark => "dark"
  }

  /** Recognises a theme name; every other string is no theme. */
  function ParseTheme(s: string): (r: Option<Theme>)
    ensures r.Some? <==> (s == "light" || s == "dark")
    ensures r.Some? ==> ThemeName(r.value) == s
  {
    if s == "light" then Some(Light)
    else if s == "dark" then Some(Dark)
    else None
  }

  /** Parsing the stored name of a theme gives that theme back. */
  lemma ParseThemeName(t: Theme)
    ensures ParseTheme(ThemeName(t)) == Some(t)
  {
  }

  /** The raw result of reading the stored preference: the stored string, or
      nothing when the key is absent or the read throws. */
  function ReadStored(store: Option<string>, readFails: bool): (raw: Option<string>)
    ensures readFails ==> raw == None
    ensures !readFails ==> raw == store
  {
    if readFails then None else store
  }

  /** A raw stored string is a preference only if it is exactly "light" or
      "dark"; anything else, and absence, is no preference. */
  function ValidStored(raw: Option<string>): (r: Option<Theme>)
    ensures r.Some? <==> (raw == Some("light") || raw == Some("dark"))
    ensures r.Some? ==> raw == Some(ThemeName(r.value))
  {
    match raw
    case None => None
    case Some(s) => ParseTheme(s)
  }

  /** The theme the system colour-scheme preference asks for. */
  function SystemTheme(prefersDark: bool): (t: Theme)
    ensures t == Dark <==> prefersDark
  {
    if prefersDark then Dark else Light
  }

  /** The initial theme, `stored ?? (system query)`: the valid stored
      preference if there is one, without consulting the system; otherwise the
      system preference, which is `None` when the colour-scheme query is
      missing or throws, and then there is no initial theme. */
  function InitialTheme(stored: Option<Theme>, systemDark: Option<bool>): (t: Option<Theme>)
    ensures stored.Some? ==> t == stored
    ensures stored.None? ==> (t.Some? <==> systemDark.Some?)
    ensures stored.None? && systemDark.Some? ==> (t.value == Dark <==> systemDark.value)
  {
    match stored
    case Some(_) => stored
    case None =>
      match systemDark
      case Some(prefersDark) => Some(SystemTheme(prefersDark))
      case None => None
  }

  /** Adds the dark class for the dark theme and removes it for the light one,
      when a document exists; no other class is touched. */
  function SetRootClass(classes: set<string>, t: Theme, hasDocument: bool): (r: set<string>)
    ensures !hasDocument ==> r == classes
    ensures hasDocument ==> (DarkClass in r <==> t == Dark)
    ensures r - {DarkClass} == classes - {DarkClass}
  {
    if !hasDocument then classes
    else if t == Dark then classes + {DarkClass}
    else classes - {DarkClass}
  }

  /** The state of a freshly rendered provider, before any effect has run. */
  function InitialState(store: Option<string>, rootClasses: set<string>): (s: ProviderState)
    ensures s.theme == Dark && !s.mounted
    ensures s.store == store && s.rootClasses == rootClasses
  {
    ProviderState(Dark, false, store, rootClasses)
  }

  /** The initialisation effect: without a window it does nothing; otherwise it
      reads and validates the stored preference (a failed read counts as no
      preference), falls back to the system preference, applies the root class
      and marks the provider mounted. The system query sits outside any
      `try`: when it is needed and throws, the effect aborts and leaves the
      state as it was. It never writes storage. */
  function InitEffect(s: ProviderState, env: Env, readFails: bool, systemDark: Option<bool>): (r: ProviderState)
    ensures !env.hasWindow ==> r == s
    ensures r.store == s.store
    ensures env.hasWindow && ValidStored(ReadStored(s.store, readFails)).Some? ==>
              r.mounted && r.theme == ValidStored(ReadStored(s.store, readFails)).value
    ensures env.hasWindow && ValidStored(ReadStored(s.store, readFails)).None? && systemDark.Some? ==>
              r.mounted && (r.theme == Dark <==> systemDark.value)
    ensures env.hasWindow && readFails && systemDark.Some? ==>
              r.mounted && (r.theme == Dark <==> systemDark.value)
    ensures ValidStored(ReadStored(s.store, readFails)).None? && systemDark.None? ==> r == s
    ensures env.hasWindow && env.hasDocument &&
            InitialTheme(ValidStored(ReadStored(s.store, readFails)), systemDark).Some? ==>
              (DarkClass in r.rootClasses <==> r.theme == Dark)
    ensures r.rootClasses - {DarkClass} == s.rootClasses - {DarkClass}
  {
    if !env.hasWindow then s
    else
      match InitialTheme(ValidStored(ReadStored(s.store, readFails)), systemDark)
      case None => s
      case Some(initial) =>
        s.(theme := initial,
           rootClasses := SetRootClass(s.rootClasses, initial, env.hasDocument),
           mounted := true)
  }

  /** Flips the theme: light becomes dark and dark becomes light. */
  function Flip(t: Theme): (r: Theme)
    ensures r != t
  {
    if t == Light then Dark else Light
  }

  /** The context's `toggleTheme`: flips the theme and changes nothing else;
      storage and the root class are left to `SyncEffect`. */
  function ToggleTheme(s: ProviderState): (r: ProviderState)
    ensures r.theme != s.theme
    ensures r.(theme := s.theme) == s
  {
    s.(theme := Flip(s.theme))
  }

  /** Toggling twice restores the original state. */
  lemma ToggleTwice(s: ProviderState)
    ensures ToggleTheme(ToggleTheme(s)) == s
  {
  }

  /** The synchronising effect: before mount, or without a window, it does
      nothing; otherwise it makes the root class agree with the theme and stores
      the theme's name, unless the write throws. It never changes the theme or
      the mounted flag. */
  function SyncEffect(s: ProviderState, env: Env, writeFails: bool): (r: ProviderState)
    ensures !s.mounted || !env.hasWindow ==> r == s
    ensures r.theme == s.theme && r.mounted == s.mounted
    ensures s.mounted && env.hasWindow && env.hasDocument ==>
              (DarkClass in r.rootClasses <==> r.theme == Dark)
    ensures s.mounted && env.hasWindow && !writeFails ==> r.store == Some(ThemeName(s.theme))
    ensures writeFails ==> r.store == s.store
    ensures r.rootClasses - {DarkClass} == s.rootClasses - {DarkClass}
  {
    if !s.mounted || !env.hasWindow then s
    else
      s.(rootClasses := SetRootClass(s.rootClasses, s.theme, env.hasDocument),
         store := if writeFails then s.store else Some(ThemeName(s.theme)))
  }

  /** On the first render the synchronising effect runs with `mounted` still
      false, so it leaves the fresh state untouched. */
  lemma FirstSyncIsNoop(store: Option<string>, rootClasses: set<string>, env: Env, writeFails: bool)
    ensures SyncEffect(InitialState(store, rootClasses), env, writeFails)
              == InitialState(store, rootClasses)
  {
  }

  /** A successfully persisted theme survives a reload: a new provider that
      reads the stored value back is mounted on the same theme, whatever the
      system preference says, and even when the system query would throw. */
  lemma PersistedThemeSurvivesReload(
    s: ProviderState, env: Env, rootClasses: set<string>, systemDark: Option<bool>)
    requires s.mounted && env.hasWindow
    ensures var r := InitEffect(InitialState(SyncEffect(s, env, false).store, rootClasses),
                                env, false, systemDark);
            r.mounted && r.theme == s.theme
  {
  }

  /** The context value a provider hands to its consumers. */
  function ContextOf(s: ProviderState): (c: ThemeContext)
    ensures c.theme == s.theme && c.mounted == s.mounted
  {
    ThemeContext(s.theme, s.mounted)
  }

  /** The error `useTheme` throws outside a provider. */
  const OutsideProviderError: string := "useTheme must be used within ThemeProvider"

  /** `useTheme`: the enclosing provider's context, or an error when there is
      none. */
  function UseTheme(ctx: Option<ThemeContext>): (r: Result<ThemeContext>)
    ensures ctx.None? <==> r.Err?
    ensures r.Err? ==> r.message == OutsideProviderError
    ensures ctx.Some? ==> r == Ok(ctx.value)
  {
    match ctx
    case None => Err(OutsideProviderError)
    case Some(c) => Ok(c)
  }

  /** The icons `ThemeToggle` can show. */
  datatype Icon = SunIcon | MoonIcon

  /** What `ThemeToggle` renders: a disabled loading button, or an enabled
      button with an accessible label and an icon. */
  datatype ToggleButton =
    | LoadingButton
    | ActiveButton(ariaLabel: string, icon: Icon)
  {
    /** Whether the button reacts to clicks. */
    predicate Enabled() {
      ActiveButton?
    }
  }

  /** The accessible label of the enabled button. */
  function SwitchLabel(t: Theme): (l: string)
    ensures l == "Switch to " + ThemeName(Flip(t)) + " mode"
  {
    "Switch to " + (if t == Light then "dark" else "light") + " mode"
  }

  /** `ThemeToggle`: fails outside a provider; disabled until mounted; once
      mounted, labelled with the opposite theme and showing the sun for the
      light theme and the moon for the dark one. */
  function ThemeToggleView(ctx: Option<ThemeContext>): (r: Result<ToggleButton>)
    ensures ctx.None? <==> r.Err?
    ensures ctx.Some? ==> (r.value.Enabled() <==> ctx.value.mounted)
    ensures ctx.Some? && ctx.value.mounted ==>
              r.value.ariaLabel == "Switch to " + ThemeName(Flip(ctx.value.theme)) + " mode"
    ensures ctx.Some? && ctx.value.mounted ==>
              (r.value.icon == SunIcon <==> ctx.value.theme == Light)
  {
    match UseTheme(ctx)
    case Err(e) => Err(e)
    case Ok(c) =>
      if !c.mounted then Ok(LoadingButton)
      else Ok(ActiveButton(SwitchLabel(c.theme), if c.theme == Light then SunIcon else MoonIcon))
  }

  /** Clicking `ThemeToggle` inside a provider: a disabled button does nothing;
      an enabled one calls `toggleTheme`. */
  function ClickThemeToggle(s: ProviderState): (r: ProviderState)
    ensures !s.mounted ==> r == s
    ensures s.mounted ==> r.theme != s.theme && r.(theme := s.theme) == s
  {
    match ThemeToggleView(Some(ContextOf(s)))
    case Ok(ActiveButton(_, _)) => ToggleTheme(s)
    case _ => s
  }

  /** Once mounted, the label of `ThemeToggle` names the theme a click leads to. */
  lemma LabelNamesClickResult(s: ProviderState)
    requires s.mounted
    ensures ThemeToggleView(Some(ContextOf(s))).value.ariaLabel
              == "Switch to " + ThemeName(ClickThemeToggle(s).theme) + " mode"
  {
  }
}
