/** What a crash in the foreground does to the whole system: to the registry, the window and the page. */
module SystemSteps {
  import opened Timers
  import Pages
  import opened AppWindows
  import opened WindowSteps
  import opened AppSystems
  import R = Registries
  import S = RegistrySteps

  /** The page has a new view, which loads again; window and close are as they were. */
  predicate LoadsAgain(a: App, b: App) {
    && b.page.reloads == a.page.reloads + 1 && b.page.activity.view == Pages.NEW_VIEW
    && b.hidden == a.hidden && !b.page.closing.isClosing
  }

  /** Marked as closing and hidden, without a close callback called or an unload begun, and not loaded again. */
  predicate IsClosed(a: App, b: App) {
    && b.page.closing == a.page.closing.(isClosing := true) && b.hidden && !b.page.activity.view.visible
    && b.page.reloads == a.page.reloads
  }

  predicate IsHidden(a: App, b: App) {
    && b.hidden && !b.page.activity.view.visible && !b.page.closing.isClosing
    && b.page.reloads == a.page.reloads
  }

  lemma CrashedView(a: App)
    requires InStep(a)
    ensures var b := StepApp(a, RendererCrashed(false));
            && InStep(b) && b == a.(page := b.page) && b.page.closing == a.page.closing
            && b.page.activity.view == Pages.NEW_VIEW && b.page.errors.shown == a.page.errors.shown
            && b.page.reloads == a.page.reloads
  {
    hide Pages.Step, InStep;
    StepAppInStep(a, RendererCrashed(false));
    OtherPageFacts(a, Pages.Event.Recreate);
    PageFacts(a.page, Pages.Event.Recreate);
    RecreateKeepsClosing(a.page);
    Pages.StepActivity(a.page, Pages.Event.Recreate);
  }

  lemma ReloadedPage(a: App)
    ensures StepApp(a, OnPageOnly(Pages.Event.Reload)) == a.(page := a.page.(reloads := a.page.reloads + 1))
  {
  }

  lemma ClosedPage(a: App)
    requires InStep(a)
    ensures IsClosed(a, StepApp(a, AppEvent.Close(true)))
  {
    hide Pages.Step, App.OnStageDeactivated, InStep;
    var b := a.OnPage(Pages.Event.SetClosing);
    IsSafe(a);
    StepTurnsWindow(a, AppEvent.Close(true));
    DeactivatedFacts(b);
    ClosedFacts(a, true);
    MarkedOnly(a.page);
  }

  lemma MarkedOnly(p: Pages.Page)
    ensures Pages.Step(p, Pages.Event.SetClosing) == p.(closing := p.closing.(isClosing := true))
  {
  }

  lemma HiddenPage(a: App)
    requires InStep(a) && !a.page.errors.shown && !a.page.closing.isClosing
    ensures IsHidden(a, StepApp(a, AppEvent.Pause))
  {
    hide Pages.Step, App.OnStageDeactivated, InStep;
    IsSafe(a);
    StepTurnsWindow(a, AppEvent.Pause);
    DeactivatedFacts(a);
  }

  /** What a crash in the foreground makes of a window, when the registry decides one way or the other. */
  lemma CrashedWindow(r: R.Registry, app: R.WebApp, a: App, i: Incident)
    requires InStep(a) && !a.page.closing.isClosing && i.Crash? && app.windowed && i.activated
    ensures var b := RunApp(a, CrashSeen(r, app, a, i));
            if !CrashedTooOften(r, app, i.isNormal) then LoadsAgain(a, b)
            else if a.keepAlive && !a.page.errors.shown then IsHidden(a, b)
            else IsClosed(a, b)
  {
    hide StepApp, RunApp, InStep, CrashedTooOften;
    var b := StepApp(a, RendererCrashed(false));
    CrashedView(a);
    ReloadedPage(b);
    ClosedPage(b);
    if !a.page.errors.shown {
      HiddenPage(b);
    }
    var next := if CrashedTooOften(r, app, i.isNormal) then Closing(a, true) else [OnPageOnly(Pages.Event.Reload)];
    TwoSteps(a, RendererCrashed(false), next[0]);
    assert [RendererCrashed(false)] + next == [RendererCrashed(false), next[0]];
  }

  /**
   In every run of the system, a crash in the foreground of a running app: with fewer than one
   (normal window) or two crashes of its id since anything was closed, the app stays in the list and its
   new view loads again. Otherwise it is taken out, deleted and its page marked as closing, and never
   loaded; or it is only hidden, if it is kept alive and shows no error page.
   */
  lemma ForegroundCrashInRuns(events: seq<Event>, app: R.WebApp, i: Incident)
    requires app in Run(events).windows && Run(events).registry.Live(app)
    requires !Run(events).windows[app].page.closing.isClosing && i.Crash? && i.activated && app.windowed
    ensures R.Listed(Run(events).registry) && app in Step(Run(events), AtApp(app, i)).windows
    ensures var s, q := Run(events), Step(Run(events), AtApp(app, i));
            var a, b := s.windows[app], q.windows[app];
            if S.CrashesSinceClose(s.registry.log, app.appId) < (if i.isNormal then 1 else 2)
            then app in q.registry.appList && LoadsAgain(a, b)
            else if a.keepAlive && !a.page.errors.shown
              then app in q.registry.appList && IsHidden(a, b)
              else app !in q.registry.appList && q.registry.IsDeleted(app) && IsClosed(a, b)
  {
    hide Run, Step, InStep, R.Step, R.Consistent, RunApp, LoadsAgain, IsHidden, IsClosed;
    hide R.Registry.FindByInstance, R.Registry.Live, CrashSeen;
    var s := Run(events);
    var a, e := s.windows[app], R.Crash(app.instanceId, i.activated, i.isNormal, i.minimized);
    EveryRunIsJoined(events);
    R.EverythingListed(s.registry);
    CrashedAppIsFound(events, app);
    S.FoundIsRunning(s.registry, app.instanceId);
    S.CountIs(s.registry, app.appId);
    StepWindow(s, AtApp(app, i), app);
    StepParts(s, AtApp(app, i));
    OneTold(s.registry, e);
    assert Told(s, AtApp(app, i)) == [e];
    assert Seen(s.registry, AtApp(app, i), app, a) == CrashSeen(s.registry, app, a, i);
    S.ForegroundCrashOutcome(s.registry, e, app);
    CrashedWindow(s.registry, app, a, i);
  }
}
