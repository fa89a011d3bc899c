/** Sequences of provider steps. React decides when effects run; here a run is
    any sequence of steps, so every property below holds for every order in
    which the initialisation effect, the synchronising effect, calls of
    `toggleTheme` and clicks on `ThemeToggle` may occur. */
module ProviderTrace {
  import opened Wrappers
  import opened ThemeProvider

  /** One step of a provider's life. Storage failures and the answer of the
      system colour-scheme query (`None` when it throws) are chosen per step,
      as the browser may answer differently each time. A step reads the live
      state, not the snapshot of the render that scheduled it. */
  datatype Step =
    | Init(readFails: bool, systemDark: Option<bool>)
    | Sync(writeFails: bool)
    | Toggle
    | Click

  /** The state after one step. */
  function Apply(s: ProviderState, env: Env, step: Step): (r: ProviderState)
    ensures s.mounted ==> r.mounted
    ensures r.rootClasses - {DarkClass} == s.rootClasses - {DarkClass}
  {
    match step
    case Init(readFails, systemDark) => InitEffect(s, env, readFails, systemDark)
    case Sync(writeFails) => SyncEffect(s, env, writeFails)
    case Toggle => ToggleTheme(s)
    case Click => ClickThemeToggle(s)
  }

  /** The state after a sequence of steps, taken left to right. */
  function Run(s: ProviderState, env: Env, steps: seq<Step>): ProviderState
    decreases |steps|
  {
    if |steps| == 0 then s
    else Run(Apply(s, env, steps[0]), env, steps[1..])
  }

  /** `mounted` goes from false to true at most once and never reverts. */
  lemma {:induction false} MountedNeverReverts(s: ProviderState, env: Env, steps: seq<Step>)
    requires s.mounted
    ensures Run(s, env, steps).mounted
    decreases |steps|
  {
    if |steps| > 0 {
      MountedNeverReverts(Apply(s, env, steps[0]), env, steps[1..]);
    }
  }

  /** No run touches a root class other than the dark class. */
  lemma {:induction false} OtherRootClassesUnchanged(s: ProviderState, env: Env, steps: seq<Step>)
    ensures Run(s, env, steps).rootClasses - {DarkClass} == s.rootClasses - {DarkClass}
    decreases |steps|
  {
    if |steps| > 0 {
      OtherRootClassesUnchanged(Apply(s, env, steps[0]), env, steps[1..]);
    }
  }

  /** The first commit in the browser. React runs the initialisation effect,
      then the synchronising effect of the same render, which still sees
      `mounted` false in that render's snapshot and so does nothing; the
      state change then triggers a second render whose synchronising effect
      does the work. Because a step reads the live state, the stale no-op is
      placed first here, where the live `mounted` is still false too.
      Afterwards the provider is mounted on the initial theme, the root agrees
      with it, and storage holds its name unless the write failed; when the
      system query throws and nothing valid is stored, nothing changes. */
  lemma FirstCommit(
    store: Option<string>, rootClasses: set<string>, env: Env,
    staleWriteFails: bool, readFails: bool, systemDark: Option<bool>, writeFails: bool)
    requires env.hasWindow && env.hasDocument
    ensures var initial := InitialTheme(ValidStored(ReadStored(store, readFails)), systemDark);
            var r := Run(InitialState(store, rootClasses), env,
                         [Sync(staleWriteFails), Init(readFails, systemDark), Sync(writeFails)]);
            && (initial.None? ==> r == InitialState(store, rootClasses))
            && (initial.Some? ==>
                  && r.mounted
                  && r.theme == initial.value
                  && (DarkClass in r.rootClasses <==> r.theme == Dark)
                  && (writeFails ==> r.store == store)
                  && (!writeFails ==> r.store == Some(ThemeName(r.theme))))
  {
    var steps := [Sync(staleWriteFails), Init(readFails, systemDark), Sync(writeFails)];
    var s0 := InitialState(store, rootClasses);
    var s1 := Apply(s0, env, steps[0]);
    assert s1 == s0;
    var s2 := Apply(s1, env, steps[1]);
    var s3 := Apply(s2, env, steps[2]);
    assert steps[1..] == [Init(readFails, systemDark), Sync(writeFails)];
    assert steps[1..][1..] == [Sync(writeFails)];
    assert Run(s2, env, [Sync(writeFails)]) == s3;
    assert Run(s0, env, steps) == Run(s2, env, [Sync(writeFails)]);
  }

  /** The first visit persists the initial theme even when it came from the
      system preference, so after one successful write a reload no longer
      consults the system: a later change of the system preference, or a
      throwing query, is ignored. */
  lemma SystemThemePinnedByFirstVisit(
    rootClasses: set<string>, env: Env, readFails: bool, firstDark: bool,
    laterSystemDark: Option<bool>, laterRootClasses: set<string>)
    requires env.hasWindow && env.hasDocument
    ensures var first := Run(InitialState(None, rootClasses), env,
                             [Sync(false), Init(readFails, Some(firstDark)), Sync(false)]);
            var reload := InitEffect(InitialState(first.store, laterRootClasses), env, false, laterSystemDark);
            reload.mounted && reload.theme == SystemTheme(firstDark)
  {
    FirstCommit(None, rootClasses, env, false, readFails, Some(firstDark), false);
  }

  /** Whether a stored value is the name of a theme. */
  predicate HoldsThemeName(store: Option<string>) {
    ValidStored(store).Some?
  }

  /** Storage only ever holds what it held before the run or the name of a
      theme: the provider writes nothing else. */
  lemma {:induction false} StoreHoldsOnlyThemeNames(s: ProviderState, env: Env, steps: seq<Step>)
    ensures Run(s, env, steps).store == s.store || HoldsThemeName(Run(s, env, steps).store)
    decreases |steps|
  {
    if |steps| > 0 {
      var next := Apply(s, env, steps[0]);
      assert next.store == s.store || HoldsThemeName(next.store);
      StoreHoldsOnlyThemeNames(next, env, steps[1..]);
    }
  }

  /** In the browser, a mounted provider's root carries the dark class exactly
      when its theme is dark. */
  predicate RootAgrees(s: ProviderState) {
    s.mounted ==> (DarkClass in s.rootClasses <==> s.theme == Dark)
  }

  /** Whether every theme change is followed at once by the synchronising
      effect, as React does after each render that changed the theme. */
  predicate Flushed(steps: seq<Step>) {
    forall i :: 0 <= i < |steps| && (steps[i].Toggle? || steps[i].Click?) ==>
      i + 1 < |steps| && steps[i + 1].Sync?
  }

  /** Flushed steps stay flushed when the first one is dropped. */
  lemma FlushedTail(steps: seq<Step>)
    requires |steps| > 0 && Flushed(steps)
    ensures Flushed(steps[1..])
  {
  }

  /** The induction behind `FlushedRunKeepsRootAgreeing`: the root may disagree
      with the theme only just before a synchronising step. */
  lemma {:induction false} FlushedRunAgreesFrom(s: ProviderState, env: Env, steps: seq<Step>)
    requires env.hasWindow && env.hasDocument
    requires RootAgrees(s) || (|steps| > 0 && steps[0].Sync?)
    requires Flushed(steps)
    ensures RootAgrees(Run(s, env, steps))
    decreases |steps|
  {
    if |steps| > 0 {
      FlushedTail(steps);
      var next := Apply(s, env, steps[0]);
      match steps[0] {
        case Init(_, _) =>
          assert RootAgrees(next);
        case Sync(_) =>
          assert RootAgrees(next);
        case Toggle =>
          assert steps[1].Sync?;
        case Click =>
          assert steps[1].Sync?;
      }
      FlushedRunAgreesFrom(next, env, steps[1..]);
    }
  }

  /** A run in the browser whose theme changes are each followed by the
      synchronising effect keeps the root class in agreement with the theme. */
  lemma FlushedRunKeepsRootAgreeing(s: ProviderState, env: Env, steps: seq<Step>)
    requires env.hasWindow && env.hasDocument
    requires RootAgrees(s)
    requires Flushed(steps)
    ensures RootAgrees(Run(s, env, steps))
  {
    FlushedRunAgreesFrom(s, env, steps);
  }
}
