/** The header's theme switch, which sits on top of the `next-themes` library:
    it reads the library's `theme` and `resolvedTheme` (either may be
    undefined), waits until it is mounted on the client, shows a sun or a moon
    with a sliding knob, and on click asks the library for the other theme. */
module ModeToggle {
  import opened Wrappers

  /** What the switch sees: its own `mounted` flag and the library's
      `theme` and `resolvedTheme` values (`None` for undefined). */
  datatype ToggleState = ToggleState(
    mounted: bool,
    theme: Option<string>,
    resolvedTheme: Option<string>)

  /** The knob's position and colour. */
  datatype Knob = KnobLeftWhite | KnobRightBlack

  /** What is rendered: whether it has a click handler, which icon is visible
      and where the knob sits. */
  datatype ModeView = ModeView(clickable: bool, sunVisible: bool, moonVisible: bool, knob: Knob)

  /** JavaScript truthiness of an optional string: defined and non-empty. */
  predicate Truthy(o: Option<string>) {
    o.Some? && o.value != ""
  }

  /** The displayed theme, `resolvedTheme || theme`: the resolved theme when it
      is truthy, the plain theme otherwise (which may itself be undefined or
      empty). */
  function CurrentTheme(st: ToggleState): (c: Option<string>)
    ensures Truthy(st.resolvedTheme) ==> c == st.resolvedTheme
    ensures !Truthy(st.resolvedTheme) ==> c == st.theme
  {
    if Truthy(st.resolvedTheme) then st.resolvedTheme else st.theme
  }

  /** The theme a click asks for: dark exactly when the displayed theme is
      "light"; light for "dark", "system", undefined and anything else. */
  function ToggleTarget(current: Option<string>): (t: string)
    ensures t == "light" || t == "dark"
    ensures t == "dark" <==> current == Some("light")
  {
    if current == Some("light") then "dark" else "light"
  }

  /** Whether the real control is shown: mounted, and the library has resolved
      a theme (even an empty one). */
  predicate IsReady(st: ToggleState) {
    st.mounted && st.resolvedTheme.Some?
  }

  /** The placeholder shown until ready: no click handler, the sun shown, the
      moon hidden and the knob on the left in white. */
  const Placeholder: ModeView := ModeView(false, true, false, KnobLeftWhite)

  /** The rendered control. Until ready it is the placeholder; once ready it is
      clickable, shows exactly one of sun and moon, the sun with the left white
      knob exactly when the displayed theme is "light", the moon with the right
      black knob otherwise. */
  function View(st: ToggleState): (v: ModeView)
    ensures !IsReady(st) ==> v == Placeholder
    ensures IsReady(st) ==> v.clickable
    ensures IsReady(st) ==> v.sunVisible != v.moonVisible
    ensures IsReady(st) ==> (v.sunVisible <==> CurrentTheme(st) == Some("light"))
    ensures IsReady(st) ==> (v.knob == KnobLeftWhite <==> v.sunVisible)
  {
    if !IsReady(st) then Placeholder
    else
      var light := CurrentTheme(st) == Some("light");
      ModeView(true, light, !light, if light then KnobLeftWhite else KnobRightBlack)
  }

  /** The theme passed to the library's `setTheme` when the control is clicked,
      or `None` when the rendered element has no click handler. */
  function OnClick(st: ToggleState): (r: Option<string>)
    ensures r.Some? <==> IsReady(st)
    ensures r.Some? ==> (r.value == "dark" <==> CurrentTheme(st) == Some("light"))
    ensures r.Some? ==> (r.value == "light" || r.value == "dark")
  {
    if View(st).clickable then Some(ToggleTarget(CurrentTheme(st))) else None
  }

  /** The library's response to `setTheme` with an explicit theme: both the
      chosen theme and the resolved theme become that name. */
  function SetTheme(st: ToggleState, name: string): (r: ToggleState)
    ensures r.mounted == st.mounted
    ensures CurrentTheme(r) == Some(name)
  {
    st.(theme := Some(name), resolvedTheme := Some(name))
  }

  /** A click on the rendered control: nothing happens before it is ready;
      afterwards the displayed theme switches light to dark and anything else
      to light, and the control stays ready. */
  function Click(st: ToggleState): (r: ToggleState)
    ensures !IsReady(st) ==> r == st
    ensures r.mounted == st.mounted
    ensures IsReady(st) ==> IsReady(r)
    ensures IsReady(st) ==> (CurrentTheme(r) == Some("dark") <==> CurrentTheme(st) == Some("light"))
    ensures IsReady(st) ==> (CurrentTheme(r) == Some("light") <==> CurrentTheme(st) != Some("light"))
  {
    match OnClick(st)
    case None => st
    case Some(name) => SetTheme(st, name)
  }

  /** For a displayed light or dark theme, two clicks restore the displayed
      theme (before the control is ready, because neither click does
      anything). */
  lemma ClickTwiceRestores(st: ToggleState)
    requires CurrentTheme(st) == Some("light") || CurrentTheme(st) == Some("dark")
    ensures CurrentTheme(Click(Click(st))) == CurrentTheme(st)
  {
  }

  /** A displayed "system" theme does not come back after two clicks: the
      first click always leads to light. */
  lemma SystemDoesNotRoundTrip(st: ToggleState)
    requires IsReady(st) && CurrentTheme(st) == Some("system")
    ensures CurrentTheme(Click(st)) == Some("light")
    ensures CurrentTheme(Click(Click(st))) == Some("dark")
  {
  }

  /** The mount effect: sets `mounted` and nothing else. */
  function MountEffect(st: ToggleState): (r: ToggleState)
    ensures r.mounted
    ensures r.(mounted := st.mounted) == st
  {
    st.(mounted := true)
  }

  /** The events a mounted or unmounted switch goes through: its mount effect,
      a click, or the library changing its values on its own (a new system
      preference, another tab). */
  datatype ModeStep =
    | Mount
    | ClickStep
    | LibraryUpdate(theme: Option<string>, resolvedTheme: Option<string>)

  /** The state after one event. */
  function ApplyMode(st: ToggleState, step: ModeStep): (r: ToggleState)
    ensures st.mounted ==> r.mounted
  {
    match step
    case Mount => MountEffect(st)
    case ClickStep => Click(st)
    case LibraryUpdate(t, rt) => st.(theme := t, resolvedTheme := rt)
  }

  /** The state after a sequence of events. */
  function RunMode(st: ToggleState, steps: seq<ModeStep>): ToggleState
    decreases |steps|
  {
    if |steps| == 0 then st
    else RunMode(ApplyMode(st, steps[0]), steps[1..])
  }

  /** `mounted` goes from false to true once and never reverts. */
  lemma {:induction false} ModeMountedNeverReverts(st: ToggleState, steps: seq<ModeStep>)
    requires st.mounted
    ensures RunMode(st, steps).mounted
    decreases |steps|
  {
    if |steps| > 0 {
      ModeMountedNeverReverts(ApplyMode(st, steps[0]), steps[1..]);
    }
  }

  /** Clicking a placeholder changes nothing, however often it is clicked. */
  lemma {:induction false} PlaceholderClicksChangeNothing(st: ToggleState, n: nat)
    requires !IsReady(st)
    ensures RunMode(st, seq(n, _ => ClickStep)) == st
    decreases n
  {
    if n > 0 {
      var steps := seq(n, _ => ClickStep);
      assert steps[1..] == seq(n - 1, _ => ClickStep);
      PlaceholderClicksChangeNothing(st, n - 1);
    }
  }
}
