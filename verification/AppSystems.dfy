/**
 The whole system: the registry of apps together with the window and page of every app. An
 event reaches the registry, or a window, or both; the registry decides by its flags and the
 window by its own state, and the main theorem is that these never disagree.
 */
module AppSystems {
  import opened Options
  import opened Timers
  import Pages
  import opened AppWindows
  import R = Registries

  datatype System = System(registry: R.Registry, windows: map<R.WebApp, App>)

  /** How a new app is launched. */
  datatype Launching = Launching(config: Pages.Config, nextSource: nat, keepAlive: bool, launchedHidden: bool,
                                 needReload: bool, preload: Preload, pid: nat)
  {
    function Window(): App {
      Launched(config, nextSource, keepAlive, launchedHidden, needReload, preload)
    }

    function Flags(): R.Flags {
      FlagsOf(Window(), R.Flags(false, false, false, false, false, false, false, false, false, pid))
    }
  }

  /** The flags of an app as its window and page have them; the last two are the registry's own. */
  function FlagsOf(a: App, own: R.Flags): R.Flags {
    R.Flags(a.keepAlive, a.hidden, a.crashed, a.page.closing.isClosing, a.page.errors.shown, own.forceClose,
            a.page.closing.hasCallback, a.page.closing.callbackTimer.pending != {}, a.page.closing.cleaning, own.pid)
  }

  function PageStateOf(a: App): R.PageState {
    R.PageState(a.keepAlive, a.hidden, a.crashed, a.page.errors.shown, a.page.closing.hasCallback)
  }

  /** What can happen to one app: its window is closed, its load fails or ends, its renderer crashes, and so on. */
  datatype Incident =
    | CloseWindow | LoadFailed
    | Crash(activated: bool, isNormal: bool, minimized: bool)
    | LoadFinished(isErrorPage: bool, opensWindow: bool, hosted: Pages.Hosted, surroundings: Surroundings)
    | CallbackDone | CallbackTimer(id: nat) | OnWindow(event: AppEvent)

  datatype Event =
    | Launch(instanceId: string, made: Option<(R.WebApp, Launching)>, args: R.LaunchArgs,
             request: Pages.Request, launcher: string, surroundings: Surroundings)
    | Kill(appId: string, instanceId: string, force: bool)
    | SetForceClose(instanceId: string) | Pause(instanceId: string) | CloseAll(pid: nat)
    | Moved(app: R.WebApp, pid: nat) | AtApp(app: R.WebApp, incident: Incident)

  /** The steps of a window and its page that nothing else takes part in. */
  predicate Own(e: AppEvent) {
    || e.FirstFrame? || e.SwapFrame? || e.Raise?
    || (StageEvent(e) && !e.Pause? && !e.RendererCrashed?)
    || (e.OnPageOnly? && PageOnly(e.event) && OwnOfPage(e.event))
  }

  predicate OwnOfPage(e: Pages.Event) {
    !e.CloseTimer? && !e.CleanResources? && !e.ExecuteCloseCallback? && !e.CloseCallbackDone? && !e.CrashedWhileClosing?
  }

  // ---- what an event means to a window ----

  /** A close: a kept-alive window without error page is only hidden. */
  function Closing(a: App, ignoreCleanResource: bool): seq<AppEvent> {
    [if a.keepAlive && !a.page.errors.shown then AppEvent.Pause else AppEvent.Close(ignoreCleanResource)]
  }

  const FORCED: seq<AppEvent> := [SetKeepAlive(false), AppEvent.Close(false)]

  predicate CrashedTooOften(r: R.Registry, app: R.WebApp, isNormal: bool) {
    r.CrashCount(app.appId) + 1 >= if isNormal then R.RELOADING_LIMIT - 1 else R.RELOADING_LIMIT
  }

  /** RenderProcessCrashed: the end of a close, or a new view and then what ProcessCrashed decides. */
  function CrashSeen(r: R.Registry, app: R.WebApp, a: App, i: Incident): seq<AppEvent>
    requires i.Crash?
  {
    if a.page.closing.isClosing then [OnPageOnly(Pages.Event.CrashedWhileClosing)]
    else if app.windowed && i.activated then
      [RendererCrashed(false)]
      + if CrashedTooOften(r, app, i.isNormal) then Closing(a, true) else [OnPageOnly(Pages.Event.Reload)]
    else [RendererCrashed(app.windowed && i.minimized)]
  }

  function IncidentSeen(r: R.Registry, app: R.WebApp, a: App, i: Incident): seq<AppEvent>
    requires app in r.apps
  {
    match i
    case CloseWindow => if r.apps[app].forceClose then FORCED else Closing(a, false)
    case LoadFailed => if a.preload != NoPreload then Closing(a, false) else []
    case Crash(_, _, _) => CrashSeen(r, app, a, i)
    case LoadFinished(isErrorPage, opensWindow, hosted, surroundings) =>
      [AppEvent.LoadFinished(isErrorPage, opensWindow, hosted, surroundings)]
    case CallbackDone =>
      if a.page.closing.callbackTimer.pending != {} then [OnPageOnly(Pages.Event.CloseCallbackDone)] else []
    case CallbackTimer(id) =>
      if id in a.page.closing.callbackTimer.pending then [OnPageOnly(Pages.Event.CloseTimer(id))] else []
    case OnWindow(event) => if Own(event) then [event] else []
  }

  /** The steps that the window of an app takes. */
  function Seen(r: R.Registry, e: Event, app: R.WebApp, a: App): seq<AppEvent>
    requires R.Listed(r)
  {
    match e
    case Launch(instanceId, _, args, request, launcher, surroundings) =>
      if r.FindByInstance(instanceId) == Some(app) && args.Show?
      then [AppEvent.Relaunch(request, launcher, surroundings)] else []
    case Kill(appId, instanceId, force) =>
      if r.FindByInstance(instanceId) != Some(app) || app.appId != appId then []
      else if force then FORCED
      else Closing(a, false)
    case SetForceClose(instanceId) =>
      if r.FindByInstance(instanceId) == Some(app) && app.windowed && a.keepAlive && a.hidden then FORCED else []
    case Pause(instanceId) => if r.FindByInstance(instanceId) == Some(app) then [AppEvent.Pause] else []
    case CloseAll(pid) => if app in r.OfProcess(pid) then FORCED else []
    case Moved(_, _) => []
    case AtApp(target, incident) => if target == app && r.Live(app) then IncidentSeen(r, app, a, incident) else []
  }

  // ---- what an event means to the registry ----

  /** The factory makes a new object, for an instance that does not run. */
  predicate Makes(s: System, e: Event) {
    && e.Launch? && e.made.Some? && !e.args.Malformed? && s.registry.FindByInstance(e.instanceId).None?
    && e.made.value.0 !in s.registry.apps && e.made.value.0 !in s.windows
    && e.made.value.0.instanceId == e.instanceId && e.made.value.1.nextSource > 0
  }

  function IncidentTold(r: R.Registry, app: R.WebApp, a: App, i: Incident): seq<R.Event>
    requires app in r.apps
  {
    match i
    case CloseWindow => [R.WindowClosed(app)]
    case LoadFailed => if a.preload != NoPreload then [R.PreloadFailed(app)] else []
    case Crash(activated, isNormal, minimized) =>
      if a.page.closing.isClosing then [R.CloseCompleted(app, R.Crashed)]
      else [R.Crash(app.instanceId, activated, isNormal, minimized)]
    case LoadFinished(_, _, _, _) =>
      if a.page.closing.cleaning then [R.CloseCompleted(app, R.Unloaded)]
      else [R.Changed(app, PageStateOf(RunApp(a, IncidentSeen(r, app, a, i))))]
    case CallbackDone =>
      if a.page.closing.callbackTimer.pending != {} then [R.CloseCompleted(app, R.CallbackRan)] else []
    case CallbackTimer(id) =>
      if id in a.page.closing.callbackTimer.pending then [R.CloseCompleted(app, R.CallbackTimedOut)] else []
    case OnWindow(_) => [R.Changed(app, PageStateOf(RunApp(a, IncidentSeen(r, app, a, i))))]
  }

  /** What the registry learns. A page or window that changed by itself has its flags read from now on. */
  function Told(s: System, e: Event): seq<R.Event>
    requires R.Listed(s.registry)
  {
    match e
    case Launch(instanceId, made, args, _, _, _) =>
      [R.Launch(instanceId, if Makes(s, e) then Some((made.value.0, made.value.1.Flags())) else None, args)]
    case Kill(appId, instanceId, force) => [R.Kill(appId, instanceId, force)]
    case SetForceClose(instanceId) => [R.SetForceClose(instanceId)]
    case Pause(instanceId) => [R.Paused(instanceId)]
    case CloseAll(pid) => [R.CloseAll(pid)]
    case Moved(app, pid) => [R.Moved(app, pid)]
    case AtApp(app, incident) =>
      if s.registry.Live(app) && app in s.windows then IncidentTold(s.registry, app, s.windows[app], incident) else []
  }

  function Telling(r: R.Registry, events: seq<R.Event>): R.Registry {
    if events == [] then r else R.Step(Telling(r, events[..|events| - 1]), events[|events| - 1])
  }

  function Step(s: System, e: Event): System {
    if !R.Listed(s.registry) then s
    else
      var windows := map app | app in s.windows :: RunApp(s.windows[app], Seen(s.registry, e, app, s.windows[app]));
      System(Telling(s.registry, Told(s, e)),
             if Makes(s, e) then windows[e.made.value.0 := e.made.value.1.Window()] else windows)
  }

  function Run(events: seq<Event>): System {
    if events == [] then System(R.EMPTY, map[]) else Step(Run(events[..|events| - 1]), events[|events| - 1])
  }

  /** The parts of a step. */
  lemma StepParts(s: System, e: Event)
    requires R.Listed(s.registry)
    ensures Step(s, e).registry == Telling(s.registry, Told(s, e))
    ensures Step(s, e).windows.Keys == s.windows.Keys + if Makes(s, e) then {e.made.value.0} else {}
    ensures Makes(s, e) ==>
              e.Launch? && e.made.Some? && e.made.value.0 !in s.windows && e.made.value.1.nextSource > 0
              && Step(s, e).windows[e.made.value.0] == e.made.value.1.Window()
  {
    hide Telling, Told, RunApp, Seen;
  }

  lemma StepWindow(s: System, e: Event, app: R.WebApp)
    requires R.Listed(s.registry) && app in s.windows
    ensures app in Step(s, e).windows
    ensures Step(s, e).windows[app] == RunApp(s.windows[app], Seen(s.registry, e, app, s.windows[app]))
  {
    hide Telling, Told, RunApp, Seen;
  }

  lemma UnfoldRun(events: seq<Event>)
    ensures events == [] ==> Run(events) == System(R.EMPTY, map[])
    ensures events != [] ==> Run(events) == Step(Run(events[..|events| - 1]), events[|events| - 1])
  {
    hide Step;
  }

  // ---- the invariant ----

  /** The flags of the registry are those of the window. */
  predicate Agree(a: App, f: R.Flags) {
    f == FlagsOf(a, f)
  }

  predicate Linked(r: R.Registry, app: R.WebApp, a: App) {
    app in r.apps && Agree(a, r.apps[app])
  }

  /**
   The containers agree, every window is in step with its page, and the flags of every app that
   exists are those of its window.
   */
  ghost predicate Joined(s: System) {
    && R.Consistent(s.registry)
    && s.windows.Keys == s.registry.apps.Keys
    && (forall app :: app in s.windows ==> InStep(s.windows[app]))
    && (forall app :: app in s.windows && s.registry.Live(app) ==> Linked(s.registry, app, s.windows[app]))
  }

  // ---- windows: what the steps do to the flags ----

  function ClosedFlags(f: R.Flags, ignoreCleanResource: bool): R.Flags {
    if f.keepAlive && !f.errorPage then f.(hidden := true)
    else
      var closed := f.(isClosing := true, hidden := true);
      if ignoreCleanResource then closed else closed.Dispatched()
  }

  function ForcedFlags(f: R.Flags): R.Flags {
    ClosedFlags(f.(keepAlive := false), false)
  }

  lemma OneStep(a: App, e: AppEvent)
    ensures RunApp(a, [e]) == StepApp(a, e)
  {
    assert [e][..0] == [];
    assert RunApp(a, []) == a;
  }

  lemma TwoSteps(a: App, e: AppEvent, f: AppEvent)
    ensures RunApp(a, [e, f]) == StepApp(StepApp(a, e), f)
  {
    OneStep(a, e);
    assert [e, f][..1] == [e];
  }

  lemma PausedWindow(a: App, f: R.Flags)
    requires Agree(a, f)
    ensures Agree(StepApp(a, AppEvent.Pause), if f.errorPage then f else f.(hidden := true))
  {
    hide App.OnStageDeactivated;
    DeactivatedFacts(a);
  }

  lemma ClosedWindow(a: App, ignoreCleanResource: bool, f: R.Flags)
    requires Agree(a, f)
    ensures Agree(RunApp(a, Closing(a, ignoreCleanResource)), ClosedFlags(f, ignoreCleanResource))
  {
    hide RunApp, StepApp, App.Closed;
    OneStep(a, Closing(a, ignoreCleanResource)[0]);
    PausedWindow(a, f);
    ClosedFacts(a, ignoreCleanResource);
    CloseIs(a, ignoreCleanResource);
  }

  lemma CloseIs(a: App, ignoreCleanResource: bool)
    ensures StepApp(a, AppEvent.Close(ignoreCleanResource)) == a.Closed(ignoreCleanResource)
  {
  }

  lemma ForcedWindow(a: App, f: R.Flags)
    requires Agree(a, f)
    ensures Agree(RunApp(a, FORCED), ForcedFlags(f))
  {
    hide RunApp, App.Closed;
    TwoSteps(a, SetKeepAlive(false), AppEvent.Close(false));
    ClosedFacts(a.(keepAlive := false), false);
  }

  lemma RelaunchedWindow(a: App, request: Pages.Request, launcher: string, s: Surroundings, f: R.Flags)
    requires Agree(a, f)
    ensures Agree(RunApp(a, [AppEvent.Relaunch(request, launcher, s)]), f.(hidden := false, crashed := false))
  {
    hide RunApp, App.Relaunch;
    OneStep(a, AppEvent.Relaunch(request, launcher, s));
    RelaunchFacts(a, request, launcher, s);
  }

  lemma CrashedWindow(a: App, minimized: bool, f: R.Flags)
    requires Agree(a, f)
    ensures var b := StepApp(a, RendererCrashed(minimized));
            && Agree(b, f.(crashed := f.crashed || minimized))
            && b.keepAlive == a.keepAlive && b.page.errors.shown == a.page.errors.shown
  {
    hide Pages.Step;
    OtherPageFacts(a, Pages.Event.Recreate);
    PageFacts(a.page, Pages.Event.Recreate);
  }

  lemma ReloadedWindow(a: App, f: R.Flags)
    requires Agree(a, f)
    ensures Agree(StepApp(a, OnPageOnly(Pages.Event.Reload)), f)
  {
  }

  /** What a window does by itself leaves the state of its close alone. */
  predicate SameEnd(a: App, b: App) {
    b.page.closing == a.page.closing.(hasCallback := b.page.closing.hasCallback)
  }

  lemma OwnPageEvent(a: App, e: Pages.Event)
    requires PageOnly(e) && OwnOfPage(e)
    ensures SameEnd(a, a.OnPage(e))
  {
    PageFacts(a.page, e);
  }

  lemma OwnStep(a: App, e: AppEvent)
    requires Own(e)
    ensures SameEnd(a, StepApp(a, e))
  {
    hide App.OnPage, App.OnStageActivated, App.FirstFrameCommitted, App.Raise;
    hide App.StateChanged, App.HideWindow, App.Hide, App.OnStageDeactivated, App.RendererCrashed;
    if StageEvent(e) {
      StageStepFacts(a, e);
    } else {
      match e {
        case OnPageOnly(event) => OwnPageEvent(a, event);
        case FirstFrame(usePrerendering) => FrameFacts(a, usePrerendering);
        case SwapFrame => ActivatedFacts(a);
        case Raise(s) => RaiseFacts(a, s);
      }
    }
  }

  lemma SyncedFlags(a: App, b: App, f: R.Flags)
    requires SameEnd(a, b) && Agree(a, f)
    ensures Agree(b, f.In(PageStateOf(b)))
  {
  }

  // ---- the registry: what the steps do to the flags ----

  /** The flags of one app are replaced, and no app comes back from deletion. */
  predicate OnlyFlagsOf(r: R.Registry, q: R.Registry, app: R.WebApp, flags: R.Flags) {
    q.apps == r.apps[app := flags] && r.log <= q.log
  }

  lemma ClosedInRegistry(r: R.Registry, app: R.WebApp, ignoreCleanResource: bool)
    requires app in r.apps
    ensures OnlyFlagsOf(r, r.CloseApp(app, ignoreCleanResource), app, ClosedFlags(r.apps[app], ignoreCleanResource))
  {
    hide R.Except;
  }

  lemma ForcedInRegistry(r: R.Registry, app: R.WebApp)
    requires app in r.apps
    ensures OnlyFlagsOf(r, r.ForceClose(app), app, ForcedFlags(r.apps[app]))
  {
    hide R.Registry.CloseApp;
    var q := r.With(app, r.apps[app].(keepAlive := false));
    ClosedInRegistry(q, app, false);
    assert q.apps[app := ForcedFlags(r.apps[app])] == r.apps[app := ForcedFlags(r.apps[app])];
  }

  /** The flags of some apps are those after a forced close, the others are as they were. */
  predicate ForcedIn(r: R.Registry, q: R.Registry, targets: seq<R.WebApp>) {
    && q.apps.Keys == r.apps.Keys && r.log <= q.log
    && forall app :: app in r.apps ==> q.apps[app] == if app in targets then ForcedFlags(r.apps[app]) else r.apps[app]
  }

  lemma ForcedTwice(f: R.Flags)
    ensures ForcedFlags(ForcedFlags(f)) == ForcedFlags(f)
  {
  }

  lemma OneMoreForced(r: R.Registry, q: R.Registry, later: R.Registry, targets: seq<R.WebApp>)
    requires targets != [] && targets[0] in r.apps && OnlyFlagsOf(r, q, targets[0], ForcedFlags(r.apps[targets[0]]))
    requires ForcedIn(q, later, targets[1..])
    ensures ForcedIn(r, later, targets)
  {
    hide ForcedFlags;
    ForcedTwice(r.apps[targets[0]]);
    assert forall a :: a in targets <==> a == targets[0] || a in targets[1..];
  }

  lemma {:induction false} AllForcedInRegistry(r: R.Registry, targets: seq<R.WebApp>)
    requires forall a :: a in targets ==> a in r.apps
    ensures ForcedIn(r, r.CloseEach(targets), targets)
    decreases |targets|
  {
    hide R.Registry.ForceClose, ForcedFlags;
    if targets != [] {
      assert targets[0] in targets && forall a :: a in targets[1..] ==> a in targets;
      ForcedInRegistry(r, targets[0]);
      AllForcedInRegistry(r.ForceClose(targets[0]), targets[1..]);
      OneMoreForced(r, r.ForceClose(targets[0]), r.CloseEach(targets), targets);
    }
  }

  lemma OneTold(r: R.Registry, e: R.Event)
    ensures Telling(r, [e]) == R.Step(r, e)
  {
    assert [e][..0] == [];
    assert Telling(r, []) == r;
  }

  // ---- one event: the flags agree afterwards ----

  lemma Unmoved(a: App)
    ensures RunApp(a, []) == a
  {
  }

  lemma KillLinked(r: R.Registry, e: Event, app: R.WebApp, a: App)
    requires R.Listed(r) && Linked(r, app, a) && e.Kill?
    ensures Linked(r.Kill(e.appId, e.instanceId, e.force), app, RunApp(a, Seen(r, e, app, a)))
  {
    hide R.First, R.Registry.CloseApp, R.Registry.ForceClose, RunApp, Closing, ClosedFlags, ForcedFlags, Agree;
    Unmoved(a);
    ClosedWindow(a, false, r.apps[app]);
    ForcedWindow(a, r.apps[app]);
    match r.FindByInstance(e.instanceId)
    case None =>
    case Some(target) =>
      ClosedInRegistry(r, target, false);
      ForcedInRegistry(r, target);
  }

  lemma SetForceCloseLinked(r: R.Registry, e: Event, app: R.WebApp, a: App)
    requires R.Listed(r) && Linked(r, app, a) && e.SetForceClose?
    ensures Linked(r.SetForceClose(e.instanceId), app, RunApp(a, Seen(r, e, app, a)))
  {
    hide R.First, R.Registry.ForceClose, RunApp, ForcedFlags;
    Unmoved(a);
    ForcedWindow(a, r.apps[app]);
    match r.FindByInstance(e.instanceId)
    case None =>
    case Some(target) => ForcedInRegistry(r, target);
  }

  lemma PauseLinked(r: R.Registry, e: Event, app: R.WebApp, a: App)
    requires R.Listed(r) && Linked(r, app, a) && e.Pause?
    ensures Linked(r.Pause(e.instanceId), app, RunApp(a, Seen(r, e, app, a)))
  {
    hide R.First, RunApp, StepApp, Agree;
    Unmoved(a);
    OneStep(a, AppEvent.Pause);
    PausedWindow(a, r.apps[app]);
  }

  lemma LaunchLinked(r: R.Registry, e: Event, made: Option<(R.WebApp, R.Flags)>, app: R.WebApp, a: App)
    requires R.Listed(r) && Linked(r, app, a) && e.Launch? && (made.Some? ==> made.value.0 != app)
    ensures Linked(r.Launch(e.instanceId, made, e.args), app, RunApp(a, Seen(r, e, app, a)))
  {
    hide R.First, RunApp, Agree;
    Unmoved(a);
    RelaunchedWindow(a, e.request, e.launcher, e.surroundings, r.apps[app]);
  }

  lemma CloseAllLinked(r: R.Registry, e: Event, app: R.WebApp, a: App)
    requires R.Listed(r) && Linked(r, app, a) && e.CloseAll?
    ensures Linked(r.CloseEach(r.OfProcess(e.pid)), app, RunApp(a, Seen(r, e, app, a)))
  {
    hide R.Select, R.Registry.CloseEach, RunApp, ForcedFlags, Agree;
    Unmoved(a);
    ForcedWindow(a, r.apps[app]);
    AllForcedInRegistry(r, r.OfProcess(e.pid));
  }

  // ---- incidents ----

  lemma CloseWindowLinked(r: R.Registry, app: R.WebApp, a: App)
    requires Linked(r, app, a)
    ensures Linked(r.WindowClosed(app), app, RunApp(a, IncidentSeen(r, app, a, CloseWindow)))
  {
    hide R.Registry.CloseApp, R.Registry.ForceClose, RunApp, Closing, ClosedFlags, ForcedFlags, Agree;
    ClosedWindow(a, false, r.apps[app]);
    ForcedWindow(a, r.apps[app]);
    ClosedInRegistry(r, app, false);
    ForcedInRegistry(r, app);
  }

  lemma LoadFailedLinked(r: R.Registry, app: R.WebApp, a: App)
    requires Linked(r, app, a)
    ensures Linked(if a.preload != NoPreload then r.CloseApp(app, false) else r, app,
                   RunApp(a, IncidentSeen(r, app, a, LoadFailed)))
  {
    hide R.Registry.CloseApp, RunApp, Closing, ClosedFlags, Agree;
    Unmoved(a);
    ClosedWindow(a, false, r.apps[app]);
    ClosedInRegistry(r, app, false);
  }

  /** A crash in the foreground: the page loads again, or the app is closed for good, or hidden. */
  lemma ForegroundCrashLinked(r: R.Registry, app: R.WebApp, a: App, isNormal: bool)
    requires Linked(r, app, a)
    ensures var next := if CrashedTooOften(r, app, isNormal) then Closing(a, true)
                        else [OnPageOnly(Pages.Event.Reload)];
            Linked(r.CrashedInForeground(app, isNormal), app, RunApp(a, [RendererCrashed(false)] + next))
  {
    hide RunApp, StepApp, R.Registry.CloseApp, ClosedFlags, Agree;
    var f, b := r.apps[app], StepApp(a, RendererCrashed(false));
    CrashedWindow(a, false, f);
    assert f.(crashed := f.crashed || false) == f;
    var counted := r.Counted(app);
    if CrashedTooOften(r, app, isNormal) {
      ClosedInRegistry(counted, app, true);
      ClosedWindow(b, true, f);
      assert Closing(b, true) == Closing(a, true);
      OneStep(b, Closing(a, true)[0]);
      TwoSteps(a, RendererCrashed(false), Closing(a, true)[0]);
      assert [RendererCrashed(false)] + Closing(a, true) == [RendererCrashed(false), Closing(a, true)[0]];
    } else {
      ReloadedWindow(b, f);
      TwoSteps(a, RendererCrashed(false), OnPageOnly(Pages.Event.Reload));
      assert [RendererCrashed(false)] + [OnPageOnly(Pages.Event.Reload)] ==
             [RendererCrashed(false), OnPageOnly(Pages.Event.Reload)];
    }
  }

  lemma CrashLinked(r: R.Registry, app: R.WebApp, a: App, i: Incident)
    requires R.Listed(r) && Linked(r, app, a) && i.Crash? && !a.page.closing.isClosing
    requires r.FindByInstance(app.instanceId) == Some(app)
    ensures Linked(r.ProcessCrashed(app.instanceId, i.activated, i.isNormal, i.minimized), app,
                   RunApp(a, CrashSeen(r, app, a, i)))
  {
    hide R.First, RunApp, StepApp, CrashedTooOften, Closing, R.Registry.CrashedInForeground, Agree;
    if app.windowed && i.activated {
      ForegroundCrashLinked(r, app, a, i.isNormal);
    } else {
      BackgroundCrashLinked(r, app, a, app.windowed && i.minimized);
    }
  }

  lemma BackgroundCrashLinked(r: R.Registry, app: R.WebApp, a: App, minimized: bool)
    requires Linked(r, app, a)
    ensures var b, f := RunApp(a, [RendererCrashed(minimized)]), r.apps[app];
            if minimized then Linked(r.With(app, f.(crashed := true)), app, b) else Linked(r, app, b)
  {
    hide RunApp, StepApp, Agree;
    OneStep(a, RendererCrashed(minimized));
    CrashedWindow(a, minimized, r.apps[app]);
    assert !minimized ==> r.apps[app].(crashed := r.apps[app].crashed || minimized) == r.apps[app];
  }

  lemma ChangeLinked(r: R.Registry, app: R.WebApp, a: App, i: Incident)
    requires Linked(r, app, a) && (i.OnWindow? || (i.LoadFinished? && !a.page.closing.cleaning))
    ensures var b := RunApp(a, IncidentSeen(r, app, a, i));
            Linked(r.With(app, r.apps[app].In(PageStateOf(b))), app, b)
            && b.page.closing.isClosing == a.page.closing.isClosing
  {
    hide RunApp, StepApp, Agree, R.Flags.In;
    Unmoved(a);
    var b := RunApp(a, IncidentSeen(r, app, a, i));
    if i.LoadFinished? {
      OneStep(a, AppEvent.LoadFinished(i.isErrorPage, i.opensWindow, i.hosted, i.surroundings));
      LoadFinishedEnd(a, i);
    } else if Own(i.event) {
      OneStep(a, i.event);
      OwnStep(a, i.event);
    }
    SyncedFlags(a, b, r.apps[app]);
  }

  lemma LoadFinishedEnd(a: App, i: Incident)
    requires i.LoadFinished?
    ensures SameEnd(a, StepApp(a, AppEvent.LoadFinished(i.isErrorPage, i.opensWindow, i.hosted, i.surroundings)))
  {
    hide App.LoadFinished;
    LoadFacts(a, i.isErrorPage, i.opensWindow, i.hosted, i.surroundings);
  }

  // ---- every step ----

  /** A running app is what the registry finds under its instance id. */
  lemma RunningIsFound(r: R.Registry, app: R.WebApp)
    requires R.Consistent(r) && r.Live(app) && !r.apps[app].isClosing
    ensures app in r.appList && r.FindByInstance(app.instanceId) == Some(app)
  {
    hide R.CountersMatch, R.PagesMatch, R.ClosingMatch, R.DeletedOnce, R.ClosesProgress;
    var found := r.FindByInstance(app.instanceId).value;
    var i :| 0 <= i < |r.appList| && r.appList[i] == app;
    var j :| 0 <= j < |r.appList| && r.appList[j] == found;
  }

  lemma StepsAtApp(r: R.Registry, app: R.WebApp, state: R.PageState, crash: R.Event)
    requires R.Listed(r) && r.Live(app) && crash.Crash?
    ensures R.Step(r, R.WindowClosed(app)) == r.WindowClosed(app)
    ensures R.Step(r, R.PreloadFailed(app)) == r.CloseApp(app, false)
    ensures R.Step(r, R.Changed(app, state)) == r.With(app, r.apps[app].In(state))
    ensures R.Step(r, crash) == r.ProcessCrashed(crash.instanceId, crash.activated, crash.isNormal, crash.minimized)
  {
  }

  lemma IncidentLinked(r: R.Registry, app: R.WebApp, a: App, i: Incident)
    requires R.Consistent(r) && R.Listed(r) && r.Live(app) && Linked(r, app, a)
    ensures var q := Telling(r, IncidentTold(r, app, a, i));
            q.Live(app) ==> Linked(q, app, RunApp(a, IncidentSeen(r, app, a, i)))
  {
    hide Telling, RunApp, R.Consistent, R.Registry.CloseApp;
    hide R.Registry.WindowClosed, R.Registry.ProcessCrashed, R.First, CrashSeen;
    hide R.Step, R.Possible;
    NothingTold(r);
    StepsAtApp(r, app, PageStateOf(RunApp(a, IncidentSeen(r, app, a, i))),
               R.Crash(app.instanceId, i.Crash? && i.activated, i.Crash? && i.isNormal, i.Crash? && i.minimized));
    if IncidentTold(r, app, a, i) != [] {
      OneTold(r, IncidentTold(r, app, a, i)[0]);
    }
    Unmoved(a);
    match i {
      case CloseWindow => CloseWindowLinked(r, app, a);
      case LoadFailed => LoadFailedLinked(r, app, a);
      case Crash(_, _, _) =>
        if a.page.closing.isClosing {
          CompletedIsDeleted(r, app, R.Crashed);
        } else {
          RunningIsFound(r, app);
          CrashLinked(r, app, a, i);
        }
      case LoadFinished(_, _, _, _) =>
        if a.page.closing.cleaning {
          CompletedIsDeleted(r, app, R.Unloaded);
        } else {
          ChangeLinked(r, app, a, i);
        }
      case CallbackDone => CompletedIsDeleted(r, app, R.CallbackRan);
      case CallbackTimer(id) => CompletedIsDeleted(r, app, R.CallbackTimedOut);
      case OnWindow(_) => ChangeLinked(r, app, a, i);
    }
  }

  lemma NothingTold(r: R.Registry)
    ensures Telling(r, []) == r
  {
  }

  lemma CompletedIsDeleted(r: R.Registry, app: R.WebApp, end: R.Completion)
    requires R.Listed(r)
    ensures R.Possible(r, R.CloseCompleted(app, end)) ==> R.Step(r, R.CloseCompleted(app, end)).IsDeleted(app)
    ensures r.Live(app) ==> (R.Possible(r, R.CloseCompleted(app, end)) <==>
                             if end.Crashed? then r.apps[app].isClosing
                             else if end.Unloaded? then r.apps[app].cleaning
                             else r.apps[app].awaitsCallback)
  {
    hide R.Except;
  }

  /** What one thing that is told makes of the registry. */
  lemma StepsOfManager(r: R.Registry, e: R.Event)
    requires R.Listed(r) && (e.Kill? || e.SetForceClose? || e.Paused? || e.CloseAll?)
    ensures e.Kill? ==> R.Step(r, e) == r.Kill(e.appId, e.instanceId, e.force)
    ensures e.SetForceClose? ==> R.Step(r, e) == r.SetForceClose(e.instanceId)
    ensures e.Paused? ==> R.Step(r, e) == r.Pause(e.instanceId)
    ensures e.CloseAll? ==> R.Step(r, e) == r.CloseEach(r.OfProcess(e.pid))
  {
    hide R.Registry.Kill, R.Registry.SetForceClose, R.Registry.Pause, R.Registry.CloseEach, R.Select;
  }

  lemma ManagerStepIsLinked(r: R.Registry, e: Event, app: R.WebApp, a: App)
    requires R.Listed(r) && Linked(r, app, a)
    ensures var q := RunApp(a, Seen(r, e, app, a));
            && (e.Kill? ==> Linked(R.Step(r, R.Kill(e.appId, e.instanceId, e.force)), app, q))
            && (e.SetForceClose? ==> Linked(R.Step(r, R.SetForceClose(e.instanceId)), app, q))
            && (e.Pause? ==> Linked(R.Step(r, R.Paused(e.instanceId)), app, q))
            && (e.CloseAll? ==> Linked(R.Step(r, R.CloseAll(e.pid)), app, q))
  {
    hide R.Step, RunApp, Seen, Linked;
    hide R.Registry.Kill, R.Registry.SetForceClose, R.Registry.Pause, R.Registry.CloseEach;
    match e {
      case Kill(appId, instanceId, force) =>
        StepsOfManager(r, R.Kill(appId, instanceId, force));
        KillLinked(r, e, app, a);
      case SetForceClose(instanceId) =>
        StepsOfManager(r, R.SetForceClose(instanceId));
        SetForceCloseLinked(r, e, app, a);
      case Pause(instanceId) =>
        StepsOfManager(r, R.Paused(instanceId));
        PauseLinked(r, e, app, a);
      case CloseAll(pid) =>
        StepsOfManager(r, R.CloseAll(pid));
        CloseAllLinked(r, e, app, a);
      case _ =>
    }
  }

  lemma StepIsLinked(s: System, e: Event, app: R.WebApp)
    requires Joined(s) && R.Listed(s.registry) && app in s.windows && s.registry.Live(app)
    ensures var q := Telling(s.registry, Told(s, e));
            q.Live(app) ==> Linked(q, app, RunApp(s.windows[app], Seen(s.registry, e, app, s.windows[app])))
  {
    hide Telling, RunApp, R.Consistent, IncidentTold, IncidentSeen, R.First, InStep, Agree, R.Step;
    var r, a := s.registry, s.windows[app];
    NothingTold(r);
    if !e.AtApp? {
      OneTold(r, Told(s, e)[0]);
    }
    Unmoved(a);
    match e {
      case Launch(_, _, _, _, _, _) => LaunchTold(s, e, app);
      case Moved(target, pid) => MovedLinked(r, target, pid, app, a);
      case AtApp(target, incident) =>
        if target == app {
          IncidentLinked(r, app, a, incident);
        } else if r.Live(target) && target in s.windows {
          OtherIncident(r, target, s.windows[target], incident, app);
        }
      case _ => ManagerStepIsLinked(r, e, app, a);
    }
  }

  lemma MovedLinked(r: R.Registry, target: R.WebApp, pid: nat, app: R.WebApp, a: App)
    requires Linked(r, app, a)
    ensures Linked(R.Step(r, R.Moved(target, pid)), app, a)
  {
  }

  lemma LaunchTold(s: System, e: Event, app: R.WebApp)
    requires Joined(s) && R.Listed(s.registry) && app in s.windows && s.registry.Live(app) && e.Launch?
    ensures Linked(R.Step(s.registry, Told(s, e)[0]), app,
                   RunApp(s.windows[app], Seen(s.registry, e, app, s.windows[app])))
  {
    hide RunApp, R.Consistent, R.First, InStep, R.Registry.Launch, Agree;
    var made := if Makes(s, e) then Some((e.made.value.0, e.made.value.1.Flags())) else None;
    LaunchLinked(s.registry, e, made, app, s.windows[app]);
    if made.Some? {
      LaunchedFlags(e.made.value.1);
    }
  }

  lemma LaunchedFlags(l: Launching)
    ensures Agree(l.Window(), l.Flags()) && !l.Flags().isClosing && !l.Flags().Underway()
  {
  }

  /** What happens to one app leaves the flags of the others. */
  lemma OtherIncident(r: R.Registry, target: R.WebApp, a: App, i: Incident, app: R.WebApp)
    requires R.Listed(r) && r.Live(target) && app in r.apps && app != target
    requires R.Consistent(r) && Linked(r, target, a)
    ensures var q := Telling(r, IncidentTold(r, target, a, i));
            app in q.apps && q.apps[app] == r.apps[app]
  {
    hide Telling, RunApp, R.Consistent, R.First, R.Step, IncidentSeen, Agree;
    NothingTold(r);
    if IncidentTold(r, target, a, i) != [] {
      var e := IncidentTold(r, target, a, i)[0];
      OneTold(r, e);
      if e.Crash? {
        AgreeOnClosing(a, r.apps[target]);
        RunningIsFound(r, target);
        CrashedInRegistry(r, target, e, app);
      } else {
        OthersKept(r, e, app);
      }
    }
  }

  lemma OthersKept(r: R.Registry, e: R.Event, app: R.WebApp)
    requires R.Listed(r) && app in r.apps
    requires (e.WindowClosed? || e.PreloadFailed? || e.CloseCompleted? || e.Changed?) && e.app != app
    ensures app in R.Step(r, e).apps && R.Step(r, e).apps[app] == r.apps[app]
  {
    hide R.Registry.CloseApp, R.Registry.ForceClose, R.Except;
    if R.Possible(r, e) {
      ClosedInRegistry(r, e.app, false);
      ForcedInRegistry(r, e.app);
    }
  }

  lemma AgreeOnClosing(a: App, f: R.Flags)
    requires Agree(a, f)
    ensures f.isClosing == a.page.closing.isClosing && f.cleaning == a.page.closing.cleaning
    ensures f.awaitsCallback == (a.page.closing.callbackTimer.pending != {})
  {
  }

  lemma CrashedInRegistry(r: R.Registry, target: R.WebApp, e: R.Event, app: R.WebApp)
    requires R.Listed(r) && target in r.apps && app in r.apps && app != target
    requires e.Crash? && r.FindByInstance(e.instanceId) == Some(target)
    ensures app in R.Step(r, e).apps && R.Step(r, e).apps[app] == r.apps[app]
  {
    hide R.Registry.CloseApp, R.First;
    ClosedInRegistry(r.Counted(target), target, true);
  }

  lemma NoNewApps(r: R.Registry, e: R.Event)
    requires R.Listed(r) && (e.Launch? ==> e.made.None?)
    ensures R.Step(r, e).apps.Keys <= r.apps.Keys
  {
    hide R.First, R.Except, R.Select, R.Registry.CloseEach;
    if e.CloseAll? {
      R.CloseEachKeepsLog(r, r.OfProcess(e.pid));
    }
  }

  lemma OneNewApp(r: R.Registry, e: R.Event)
    requires R.Listed(r) && e.Launch? && e.made.Some? && !e.args.Malformed? && R.Possible(r, e)
             && r.FindByInstance(e.instanceId).None?
    ensures R.Step(r, e).apps == r.apps[e.made.value.0 := e.made.value.1]
  {
  }

  lemma ToldKeepsApps(s: System, e: Event)
    requires Joined(s) && R.Listed(s.registry)
    ensures var q := Telling(s.registry, Told(s, e));
            && R.Consistent(q)
            && (!Makes(s, e) ==> q.apps.Keys == s.registry.apps.Keys)
            && (Makes(s, e) ==> q.apps == s.registry.apps[e.made.value.0 := e.made.value.1.Flags()])
            && forall app :: app in s.registry.apps && q.Live(app) ==> s.registry.Live(app)
  {
    hide Telling, RunApp, R.Consistent, R.Step, R.First, InStep, Agree, IncidentTold, IncidentSeen;
    var r := s.registry;
    NothingTold(r);
    if Told(s, e) != [] {
      var f := Told(s, e)[0];
      ToldOnce(s, e);
      OneTold(r, f);
      R.StepIsConsistent(r, f);
      forall app | app in r.apps
        ensures app in R.Step(r, f).apps && (r.IsDeleted(app) ==> R.Step(r, f).IsDeleted(app))
      {
        R.StepKeepsKnown(r, f, app);
      }
      if Makes(s, e) {
        LaunchedFlags(e.made.value.1);
        OneNewApp(r, f);
      } else {
        NoNewApps(r, f);
      }
    }
  }

  lemma ToldOnce(s: System, e: Event)
    requires R.Listed(s.registry)
    ensures |Told(s, e)| <= 1 && (Told(s, e) != [] ==> Told(s, e) == [Told(s, e)[0]])
    ensures Told(s, e) != [] && Told(s, e)[0].Launch? && Told(s, e)[0].made.Some? ==> Makes(s, e)
  {
    hide RunApp, IncidentSeen, Makes;
  }

  lemma StepIsJoined(s: System, e: Event)
    requires Joined(s)
    ensures Joined(Step(s, e))
  {
    hide Telling, RunApp, R.Consistent, InStep, Linked, Told, Seen, R.Registry.Live;
    R.EverythingListed(s.registry);
    var q := Step(s, e);
    ToldKeepsApps(s, e);
    forall app | app in q.windows
      ensures InStep(q.windows[app]) && (q.registry.Live(app) ==> Linked(q.registry, app, q.windows[app]))
    {
      if app in s.windows {
        RunKeepsInStep(s.windows[app], Seen(s.registry, e, app, s.windows[app]));
        if s.registry.Live(app) {
          StepIsLinked(s, e, app);
        }
      } else {
        MadeIsJoined(e.made.value.1, q.registry, app);
      }
    }
  }

  lemma MadeIsJoined(l: Launching, q: R.Registry, app: R.WebApp)
    requires l.nextSource > 0 && app in q.apps && q.apps[app] == l.Flags()
    ensures InStep(l.Window()) && Linked(q, app, l.Window())
  {
    LaunchedInStep(l.config, l.nextSource, l.keepAlive, l.launchedHidden, l.needReload, l.preload);
    LaunchedFlags(l);
  }

  /**
   In every run of the whole system the containers of the registry agree, every window is in
   step with its page, and the registry's flags of every app that exists are those of its window.
   */
  lemma {:induction false} EveryRunIsJoined(events: seq<Event>)
    ensures Joined(Run(events))
  {
    hide Step, Joined;
    if events == [] {
      NothingIsJoined();
    } else {
      EveryRunIsJoined(events[..|events| - 1]);
      StepIsJoined(Run(events[..|events| - 1]), events[|events| - 1]);
    }
  }

  lemma NothingIsJoined()
    ensures Joined(System(R.EMPTY, map[]))
  {
    R.EveryRunIsConsistent([]);
  }

  // ---- a run of the system, seen from the registry and from one window ----

  /** Everything the registry was told in a run. */
  function AllTold(events: seq<Event>): seq<R.Event> {
    if events == [] then []
    else
      var init := events[..|events| - 1];
      AllTold(init) + if R.Listed(Run(init).registry) then Told(Run(init), events[|events| - 1]) else []
  }

  lemma UnfoldTelling(r: R.Registry, events: seq<R.Event>)
    ensures events == [] ==> Telling(r, events) == r
    ensures events != [] ==> Telling(r, events) == R.Step(Telling(r, events[..|events| - 1]), events[|events| - 1])
    ensures events == [] ==> R.Run(events) == R.EMPTY
    ensures events != [] ==> R.Run(events) == R.Step(R.Run(events[..|events| - 1]), events[|events| - 1])
  {
    hide R.Step;
  }

  lemma {:induction false} TellingAppends(first: seq<R.Event>, later: seq<R.Event>)
    ensures Telling(R.Run(first), later) == R.Run(first + later)
    decreases |later|
  {
    hide Telling, R.Run, R.Step;
    UnfoldTelling(R.Run(first), later);
    UnfoldTelling(R.Run(first), first + later);
    if later == [] {
      assert first + later == first;
    } else {
      LastAppended(first, later);
      TellingAppends(first, later[..|later| - 1]);
    }
  }

  /** Seen from the registry, every run of the system is a run of the registry: all that holds of those holds here. */
  lemma {:induction false} RunIsRegistryRun(events: seq<Event>)
    ensures Run(events).registry == R.Run(AllTold(events))
  {
    hide Told, Telling, Seen, RunApp, R.Step;
    if events == [] {
      NothingRun();
    } else {
      var init, e := events[..|events| - 1], events[|events| - 1];
      RunIsRegistryRun(init);
      EveryRunIsJoined(init);
      R.EverythingListed(Run(init).registry);
      TellingAppends(AllTold(init), Told(Run(init), e));
    }
  }

  lemma NothingRun()
    ensures R.Run([]) == R.EMPTY
  {
  }

  lemma {:induction false} RunsAppend(a: App, first: seq<AppEvent>, later: seq<AppEvent>)
    ensures RunApp(RunApp(a, first), later) == RunApp(a, first + later)
    decreases |later|
  {
    hide RunApp, StepApp;
    UnfoldWindowRun(RunApp(a, first), later);
    UnfoldWindowRun(a, first + later);
    if later == [] {
      assert first + later == first;
    } else {
      LastAppended(first, later);
      RunsAppend(a, first, later[..|later| - 1]);
    }
  }

  /** Seen from one app, every run of the system is a run of its window from its launch. */
  lemma {:induction false} RunIsWindowRun(events: seq<Event>, app: R.WebApp)
    returns (l: Launching, history: seq<AppEvent>)
    requires app in Run(events).windows
    ensures l.nextSource > 0 && Run(events).windows[app] == RunApp(l.Window(), history)
  {
    hide Step, Run, Seen, RunApp, Makes, InStep, R.Consistent, Launching.Window;
    UnfoldRun(events);
    var init, e := events[..|events| - 1], events[|events| - 1];
    var s := Run(init);
    EveryRunIsJoined(init);
    R.EverythingListed(s.registry);
    StepParts(s, e);
    if app in s.windows {
      StepWindow(s, e, app);
      l, history := RunIsWindowRun(init, app);
      RunsAppend(l.Window(), history, Seen(s.registry, e, app, s.windows[app]));
      history := history + Seen(s.registry, e, app, s.windows[app]);
    } else {
      l, history := e.made.value.1, [];
      Unmoved(l.Window());
    }
  }

  // ---- what follows for the apps ----

  /**
   A page is marked as closing exactly if its app is not running; a suspended page belongs to an app
   marked as hidden.
   */
  lemma PhasesShowInTheWindow(events: seq<Event>, app: R.WebApp)
    requires app in Run(events).windows && Run(events).registry.Live(app)
    ensures var s, page := Run(events), Run(events).windows[app].page;
            && (app in s.registry.appList <==> !page.closing.isClosing)
            && (page.config.stopsJs && page.activity.isSuspended ==> s.registry.apps[app].hidden)
  {
    hide Run;
    EveryRunIsJoined(events);
    AgreeOnClosing(Run(events).windows[app], Run(events).registry.apps[app]);
  }

  /** Is the app about to be deleted, as its page shows it? */
  predicate AwaitsItsEnd(a: App) {
    a.page.closing.callbackTimer.pending != {} || a.page.closing.cleaning
  }

  /**
   In every run, an app that exists is closing if and only if its page waits for its close
   callback, with a timer pending, or is being unloaded; and then there is an event, no crash,
   that ends the close and deletes the app.
   */
  lemma ClosingAppsAwaitTheirEnd(events: seq<Event>, app: R.WebApp)
    requires app in Run(events).windows && Run(events).registry.Live(app)
    ensures var s := Run(events);
            && (s.registry.apps[app].isClosing <==> AwaitsItsEnd(s.windows[app]))
            && (s.registry.apps[app].isClosing ==>
                  exists i: Incident :: !i.Crash? && Step(s, AtApp(app, i)).registry.IsDeleted(app))
  {
    hide Run, Step, InStep;
    EveryRunIsJoined(events);
    var s := Run(events);
    var r, a := s.registry, s.windows[app];
    R.EverythingListed(r);
    AgreeOnClosing(a, r.apps[app]);
    UnderwayIsClosing(r, app);
    if r.apps[app].isClosing {
      EndDeletes(s, app);
    }
  }

  lemma UnderwayIsClosing(r: R.Registry, app: R.WebApp)
    requires R.Consistent(r) && r.Live(app)
    ensures r.apps[app].isClosing <==> r.apps[app].Underway()
  {
    hide R.CountersMatch, R.PagesMatch, R.DistinctInstances, R.DeletedOnce, R.ClosingMatch, R.PhasesMatch;
  }

  lemma EndDeletes(s: System, app: R.WebApp)
    requires R.Listed(s.registry) && s.registry.Live(app) && app in s.windows && Linked(s.registry, app, s.windows[app])
    requires AwaitsItsEnd(s.windows[app])
    ensures exists i: Incident :: !i.Crash? && Step(s, AtApp(app, i)).registry.IsDeleted(app)
  {
    hide RunApp, Telling, R.Step, R.Possible, Seen;
    var r, a := s.registry, s.windows[app];
    var cleaning := a.page.closing.cleaning;
    var surroundings := Surroundings(false, false, false);
    var i := if cleaning then Incident.LoadFinished(false, false, Pages.NotHosted, surroundings) else CallbackDone;
    var end := if cleaning then R.Unloaded else R.CallbackRan;
    AgreeOnClosing(a, r.apps[app]);
    CompletedIsDeleted(r, app, end);
    OneTold(r, R.CloseCompleted(app, end));
    assert Told(s, AtApp(app, i)) == [R.CloseCompleted(app, end)];
    assert !i.Crash? && Step(s, AtApp(app, i)).registry.IsDeleted(app);
  }

  /** A renderer that crashes while its app runs is always found in the list: the page is never deleted by force. */
  lemma CrashedAppIsFound(events: seq<Event>, app: R.WebApp)
    requires app in Run(events).windows && Run(events).registry.Live(app)
             && !Run(events).windows[app].page.closing.isClosing
    ensures Run(events).registry.FindByInstance(app.instanceId) == Some(app)
  {
    hide Run, R.Consistent, InStep, R.First;
    EveryRunIsJoined(events);
    AgreeOnClosing(Run(events).windows[app], Run(events).registry.apps[app]);
    RunningIsFound(Run(events).registry, app);
  }
}
