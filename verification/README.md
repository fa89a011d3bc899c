# hodlCoin website: theme handling

The hodlCoin website is a static landing page. Its only behaviour beyond markup
is the light/dark theme handling, which this project models in Dafny and proves
properties of:

- **The theme provider** (`components/ThemeProvider.client.tsx`). It holds a
  `theme` (light or dark) and a `mounted` flag. It reads and validates the
  preference persisted under the storage key `"theme"`, and falls back to the
  system colour-scheme preference. It keeps the `dark` class of the document's
  root element in step with the theme. It persists the theme after every
  change, and also on the first visit. So an initial theme that came from the
  system preference is stored too, and later visits no longer consult the
  system. It also provides the `useTheme` hook and the `ThemeToggle` button.
- **The header switch** (`components/toggle-theme.tsx`, `ModeToggle`). It sits
  on top of the `next-themes` library. It shows the resolved theme, waits until
  it is mounted and a theme is resolved, and on click asks for the other theme.

The model is functional. Every state is an immutable record, and every step is
a pure function. React's effects become the explicit steps `InitEffect` and
`SyncEffect`. Browser facilities become inputs:

- storage is an optional string, and each read or write may fail (a boolean
  per step);
- the answer of `matchMedia('(prefers-color-scheme: dark)')` is an optional
  boolean, where `None` means the query is missing or throws;
- the existence of `window` and `document` is a pair of booleans (`Env`);
- the root's class list is a `set<string>`.

Files:

- `wrappers.dfy`: `Option` (JavaScript's `null`/`undefined`) and `Result` (a
  value or a thrown error message).
- `theme_provider.dfy`: module `ThemeProvider`, with the provider's state,
  its effects, `toggleTheme`, `useTheme` and `ThemeToggle`.
- `provider_trace.dfy`: module `ProviderTrace`, which runs sequences of
  provider steps in any order. It proves that the invariants hold across every
  run.
- `mode_toggle.dfy`: module `ModeToggle`, with the header switch, its view,
  its click, and sequences of its events.

## Model

| member | source | states |
|---|---|---|
| ThemeProvider.ThemeName | components/ThemeProvider.client.tsx:71 | a theme is stored as one of exactly two strings, "light" or "dark" |
| ThemeProvider.ParseTheme | components/ThemeProvider.client.tsx:50 | a string names a theme iff it is exactly "light" or "dark", and then it is that theme's stored name |
| ThemeProvider.ParseThemeName | components/ThemeProvider.client.tsx:50 | parsing the stored name of a theme gives back the same theme (round trip with `ThemeName`) |
| ThemeProvider.ValidStored | components/ThemeProvider.client.tsx:50 | a stored value is a preference iff it is exactly "light" or "dark"; any other string or absence is no preference |
| ThemeProvider.ReadStored | components/ThemeProvider.client.tsx:42-48 | a failed storage read yields nothing, so it counts as no preference; a successful read yields the stored value, absent or not |
| ThemeProvider.InitialTheme | components/ThemeProvider.client.tsx:53-54 | the initial theme is the valid stored preference when there is one, and then the system is not consulted. Otherwise it is dark iff the system prefers dark, and there is none when the system query throws |
| ThemeProvider.SetRootClass | components/ThemeProvider.client.tsx:25-32 | with a document, the root has the dark class iff the theme is dark; without one nothing changes; no class other than "dark" is ever touched |
| ThemeProvider.InitialState | components/ThemeProvider.client.tsx:35-36 | before any effect runs, the theme is dark and the provider is not mounted |
| ThemeProvider.InitEffect | components/ThemeProvider.client.tsx:38-59 | without a window nothing changes. Otherwise the provider becomes mounted. Its theme is the valid stored value if there is one. Otherwise, including after a failed read, it is dark iff the system prefers dark. The root has "dark" iff that theme is dark. When no valid value is stored and the system query throws, the effect aborts and nothing changes. Storage is never written |
| ThemeProvider.Flip | components/ThemeProvider.client.tsx:81 | the toggled theme always differs from the previous one |
| ThemeProvider.ToggleTheme | components/ThemeProvider.client.tsx:78-82 | toggling changes the theme and nothing else: storage, root classes and `mounted` are untouched |
| ThemeProvider.ToggleTwice | components/ThemeProvider.client.tsx:80-82 | toggling twice restores the original state |
| ThemeProvider.SyncEffect | components/ThemeProvider.client.tsx:61-75 | before mount, or without a window, it does nothing. Otherwise the root has "dark" iff the theme is dark, and storage holds the theme's name unless the write failed. A failed write leaves storage as it was. It never changes the theme or `mounted` |
| ThemeProvider.FirstSyncIsNoop | components/ThemeProvider.client.tsx:62-64 | the synchronising effect's first run, before mount, leaves the fresh provider unchanged |
| ThemeProvider.PersistedThemeSurvivesReload | components/ThemeProvider.client.tsx:42-75 | after a successful write, a new provider that reads storage back is mounted on the same theme. This holds whatever the system preference, and even when the system query would throw |
| ThemeProvider.ContextOf | components/ThemeProvider.client.tsx:84-88 | the context value consumers receive carries the provider's own theme and mounted flag |
| ThemeProvider.UseTheme | components/ThemeProvider.client.tsx:91-98 | outside a provider the hook fails with its error message; inside it returns the provider's context |
| ThemeProvider.SwitchLabel | components/ThemeProvider.client.tsx:127 | the label names the opposite of the current theme |
| ThemeProvider.ThemeToggleView | components/ThemeProvider.client.tsx:101-136 | outside a provider it fails. It is enabled iff mounted. Once mounted, its label names the opposite theme, and it shows the sun iff the theme is light |
| ThemeProvider.ClickThemeToggle | components/ThemeProvider.client.tsx:104-123 | a click before mount (a disabled button) changes nothing; afterwards it flips the theme and changes nothing else |
| ThemeProvider.LabelNamesClickResult | components/ThemeProvider.client.tsx:123-127 | once mounted, the button's label names exactly the theme a click leads to |
| ProviderTrace.Apply | components/ThemeProvider.client.tsx:38-82 | no single step un-mounts the provider or touches a root class other than "dark" |
| ProviderTrace.MountedNeverReverts | components/ThemeProvider.client.tsx:36-58 | once mounted, the provider stays mounted through every sequence of steps |
| ProviderTrace.OtherRootClassesUnchanged | components/ThemeProvider.client.tsx:25-28 | no sequence of steps changes any root class other than "dark" |
| ProviderTrace.FirstCommit | components/ThemeProvider.client.tsx:34-75 | the first commit in the browser runs init, then the stale sync (a no-op, placed first here), then sync. Afterwards the provider is mounted on the initial theme, the root agrees with it, and storage holds the theme's name unless the write failed. When there is no initial theme because the system query threw, nothing changes |
| ProviderTrace.SystemThemePinnedByFirstVisit | components/ThemeProvider.client.tsx:50-71 | a theme taken from the system preference on the first visit is stored. A reload then starts on that theme, whatever the system preference has become, and even if the query throws |
| ProviderTrace.StoreHoldsOnlyThemeNames | components/ThemeProvider.client.tsx:69-74 | after any sequence of steps, storage holds what it held before or the name of a theme, and nothing else |
| ProviderTrace.FlushedRunAgreesFrom | components/ThemeProvider.client.tsx:61-82 | the root may disagree with the theme only just before a synchronising step |
| ProviderTrace.FlushedRunKeepsRootAgreeing | components/ThemeProvider.client.tsx:61-82 | in the browser, if every theme change is followed by the synchronising effect, a mounted provider's root keeps the dark class iff its theme is dark |
| ModeToggle.CurrentTheme | components/toggle-theme.tsx:30-32 | the displayed theme is `resolvedTheme` when it is truthy (defined and non-empty), otherwise `theme` |
| ModeToggle.ToggleTarget | components/toggle-theme.tsx:26 | the target is dark iff the displayed theme is exactly "light"; every other value, undefined included, yields light |
| ModeToggle.View | components/toggle-theme.tsx:33-91 | the control is ready iff it is mounted and `resolvedTheme` is defined (`IsReady`, line 33). Until then, the placeholder is shown. Once ready, it is clickable and shows exactly one of sun and moon. The sun and the left white knob are shown iff the displayed theme is "light" |
| ModeToggle.OnClick | components/toggle-theme.tsx:23-62 | a click handler exists iff the control is ready, and it requests dark iff the displayed theme is "light", light otherwise |
| ModeToggle.SetTheme | components/toggle-theme.tsx:27 | after `setTheme` with a name, that name is the displayed theme |
| ModeToggle.Click | components/toggle-theme.tsx:23-27 | before the control is ready a click changes nothing. Afterwards the displayed theme becomes dark iff it was "light", and light otherwise. The control stays ready |
| ModeToggle.ClickTwiceRestores | components/toggle-theme.tsx:23-27 | for a displayed light or dark theme, two clicks restore the displayed theme |
| ModeToggle.SystemDoesNotRoundTrip | components/toggle-theme.tsx:25-26 | a displayed "system" theme goes to light and then dark, so two clicks do not restore it |
| ModeToggle.MountEffect | components/toggle-theme.tsx:16-21 | the mount effect sets `mounted` and changes nothing else |
| ModeToggle.ApplyMode | components/toggle-theme.tsx:16-27 | no single event un-mounts the switch |
| ModeToggle.ModeMountedNeverReverts | components/toggle-theme.tsx:16-21 | once mounted, the switch stays mounted through every sequence of events |
| ModeToggle.PlaceholderClicksChangeNothing | components/toggle-theme.tsx:35-57 | the placeholder has no click handler, so any number of clicks on it changes nothing |

## Left out

- The page markup, metadata and wiring (`app/page.tsx`, `app/layout.tsx`,
  `components/Header.tsx`) are left out. They have no behaviour to state.
- The falling-symbol animation (`hooks/useMatrixEffect.ts`) is left out. It
  builds DOM nodes from `Math.random` and the window width, and is purely
  decorative.
- The image script (`scripts/create-og-image.py`) is left out. It calls an
  image library and does floating-point arithmetic.
- The real `localStorage`, `matchMedia` and `classList` are abstract inputs
  and state. A storage read or write either succeeds or fails, as chosen by a
  boolean. Which error was thrown is not modelled, because the source ignores
  it.
- The internals of the `next-themes` library are left out. Its `theme` and
  `resolvedTheme` are given values. After `setTheme(name)` with an explicit
  name, `ModeToggle.SetTheme` assumes that both values become `name`. The
  library's own storage and system resolution are not modelled.
- React rendering, hydration, effect batching and concurrency are left out.
  Effects are explicit steps, and a run is any sequence of them. That React
  runs the initialisation effect only once is not enforced, so the trace
  lemmas hold for a larger set of runs. The flushed-run lemma states the
  ordering it relies on (a sync step after each theme change) as a
  precondition.
- A trace step reads the live state, not the snapshot of the render that
  scheduled it. So the stale synchronising effect of the first commit, which
  the source runs after the initialisation effect, appears in
  `ProviderTrace.FirstCommit` before it instead. There the live `mounted` flag
  is false too, so the step is a no-op in both places.
- When the system colour-scheme query throws during initialisation, the
  effect aborts and the model keeps the previous state. What React then does
  with the thrown error (an error boundary, unmounting the tree) is not
  modelled.
- The `toggleTheme` callback inside the context value is the function
  `ThemeProvider.ToggleTheme`, not a field of `ThemeContext`.
- CSS classes, transitions, colours and sizes are left out. Only the clickable
  flag, the visible icon and the knob side are modelled. The placeholder's
  static look (sun shown, moon hidden, left white knob) is modelled, because
  it holds in both themes.
