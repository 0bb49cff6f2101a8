/**
 The window of one app and the page behind it: showing, hiding, preloading and relaunching
 (web_app_wayland.cc, web_app_base.cc). Every step on the page is a step of module Pages.
 */
module AppWindows {
  import opened Timers
  import opened Pages

  datatype Preload = NoPreload | Full | SemiFull | Partial | Minimal

  /** The window state the compositor reports. */
  datatype WindowState = Active | Minimized | OtherState

  /** What Raise and Relaunch look up about the window and the app's description. */
  datatype Surroundings = Surroundings(isOverlay: bool, isMinimized: bool, handlesRelaunch: bool)

  datatype App = App(page: Page, hidden: bool, preload: Preload, crashed: bool, keepAlive: bool,
                     inWindowMgr: bool, didActivateStage: bool, needReload: bool,
                     pendingParams: string, pendingLauncher: string)
  {
    function OnPage(e: Pages.Event): App {
      this.(page := Pages.Step(page, e))
    }

    /** An app marked as crashed loads its page again, once. */
    function ReloadIfCrashed(): App {
      if crashed then OnPage(Event.Reload).(crashed := false) else this
    }

    function OnStageActivated(): App {
      ReloadIfCrashed().OnPage(Event.ResumeAll)
    }

    function OnStageDeactivated(): App {
      OnPage(Event.SuspendMedia).OnPage(Event.SuspendAll).(hidden := true, didActivateStage := false)
    }

    function Hide(forced: bool): App {
      if keepAlive || forced then OnStageDeactivated() else this
    }

    /** An app that shows the error page is not hidden. */
    function HideWindow(): App {
      if page.errors.shown then this else Hide(true).(inWindowMgr := false)
    }

    function ShowWindow(): App {
      if preload != NoPreload then this
      else this.(hidden := false).OnStageActivated().(inWindowMgr := true)
    }

    function SetPreload(kind: Preload): App {
      var a := this.(preload := kind, hidden := hidden || kind != NoPreload);
      if kind == SemiFull || kind == Partial then a.OnPage(Event.SuspendMedia) else a
    }

    function ClearPreload(): App {
      (if preload == SemiFull || preload == Partial then OnPage(Event.ResumeMedia) else this).(preload := NoPreload)
    }

    function FirstFrameCommitted(usePrerendering: bool): App {
      var a := OnPage(Event.FirstFrame);
      if hidden || preload != NoPreload then a
      else a.(didActivateStage := didActivateStage && !usePrerendering).ShowWindow()
    }

    function FrameSwapped(): App {
      if didActivateStage || hidden || preload != NoPreload then this
      else OnStageActivated().(didActivateStage := true)
    }

    /** Otherwise the compositor is asked to make the window full-screen. */
    predicate RaiseActivates(s: Surroundings) {
      s.isOverlay || (keepAlive && !s.isMinimized)
    }

    function Raise(s: Surroundings): App {
      var a := if RaiseActivates(s) then OnStageActivated() else this;
      if s.isMinimized then a.OnPage(Event.ResumeAll) else a
    }

    /** A hidden app comes out of hiding and out of preloading. */
    function Unhide(): App {
      if !hidden then this
      else
        var a := this.(hidden := false).ClearPreload();
        var b := if keepAlive && page.activity.view.progress != 100 then a.(inWindowMgr := false) else a;
        if b.inWindowMgr || (page.activity.view.progress == 100 && page.activity.hasBeenShown)
        then b.ShowWindow()
        else b
    }

    /** The page takes the request, or it is kept for the end of the load. */
    function Relaunch(request: Request, launcher: string, s: Surroundings): App {
      var a := Unhide().ReloadIfCrashed();
      var b := a.OnPage(Event.Relaunch(request));
      if !a.page.TakesRelaunch(request) then b.(pendingParams := request.params, pendingLauncher := launcher)
      else if !s.handlesRelaunch then b.Raise(s)
      else b
    }

    predicate HasPending() {
      pendingParams != "" || pendingLauncher != ""
    }

    /** The kept request is tried once more and then forgotten, taken or not. */
    function DoPendingRelaunch(opensWindow: bool, hosted: Hosted, s: Surroundings): App {
      if !HasPending() then this
      else
        Relaunch(Request(pendingParams, opensWindow, hosted), pendingLauncher, s)
        .(pendingParams := "", pendingLauncher := "")
    }

    function WebPageLoadFinished(opensWindow: bool, hosted: Hosted, s: Surroundings): App {
      if hidden then this
      else if needReload then OnPage(Event.Reload).(needReload := false)
      else DoPendingRelaunch(opensWindow, hosted, s)
    }

    function LoadFinished(isErrorPage: bool, opensWindow: bool, hosted: Hosted, s: Surroundings): App {
      (if page.closing.cleaning then this else WebPageLoadFinished(opensWindow, hosted, s))
      .OnPage(Event.LoadFinished(isErrorPage))
    }

    function StateChanged(state: WindowState): App {
      if page.closing.isClosing then this
      else if state == Active then OnStageActivated()
      else if state == Minimized then OnStageDeactivated()
      else this
    }

    function RendererCrashed(minimized: bool): App {
      OnPage(Event.Recreate).(crashed := crashed || minimized)
    }

    /** The page is marked as closing before it is suspended; then its close callback runs, or it is unloaded. */
    function Closed(ignoreCleanResource: bool): App {
      var a := OnPage(Event.SetClosing).OnStageDeactivated();
      if ignoreCleanResource then a
      else if a.page.closing.hasCallback then a.OnPage(Event.ExecuteCloseCallback)
      else a.OnPage(Event.CleanResources)
    }
  }

  function Launched(config: Config, nextSource: nat, keepAlive: bool, launchedHidden: bool, needReload: bool,
                    kind: Preload): App {
    App(Fresh(config, nextSource), launchedHidden, NoPreload, false, keepAlive, false, false, needReload, "", "")
    .SetPreload(kind)
  }

  datatype AppEvent =
    | OnPageOnly(event: Pages.Event)
    | FirstFrame(usePrerendering: bool) | SwapFrame
    | LoadFinished(isErrorPage: bool, opensWindow: bool, hosted: Hosted, surroundings: Surroundings)
    | Relaunch(request: Request, launcher: string, surroundings: Surroundings)
    | StateChanged(state: WindowState) | AboutToMinimize
    | Pause | HideCommand | SuspendRendering | ResumeRendering
    | RendererCrashed(minimized: bool) | SetKeepAlive(keepAlive: bool) | Raise(surroundings: Surroundings)
    | Close(ignoreCleanResource: bool)

  /** Page events that no window code takes part in. */
  predicate PageOnly(e: Pages.Event) {
    || e.LoadStarted? || e.Progress? || e.OtherSources? || e.Reload?
    || e.SuspendTimer? || e.CloseTimer? || e.ReloadTimer?
    || e.CleanResources? || e.SetCloseCallback? || e.ExecuteCloseCallback? || e.CloseCallbackDone?
    || e.CrashedWhileClosing?
  }

  function StepApp(a: App, e: AppEvent): App {
    match e
    case OnPageOnly(event) => if PageOnly(event) then a.OnPage(event) else a
    case FirstFrame(usePrerendering) => a.FirstFrameCommitted(usePrerendering)
    case SwapFrame => a.FrameSwapped()
    case LoadFinished(isErrorPage, opensWindow, hosted, s) => a.LoadFinished(isErrorPage, opensWindow, hosted, s)
    case Relaunch(request, launcher, s) => a.Relaunch(request, launcher, s)
    case StateChanged(state) => a.StateChanged(state)
    case AboutToMinimize => a.OnPage(Event.SuspendMedia)
    case Pause => a.HideWindow()
    case HideCommand => a.Hide(false)
    case SuspendRendering => a.OnStageDeactivated()
    case ResumeRendering => a.OnStageActivated()
    case RendererCrashed(minimized) => a.RendererCrashed(minimized)
    case SetKeepAlive(keepAlive) => a.(keepAlive := keepAlive)
    case Raise(s) => a.Raise(s)
    case Close(ignoreCleanResource) => a.Closed(ignoreCleanResource)
  }

  function RunApp(a: App, events: seq<AppEvent>): App {
    if events == [] then a else StepApp(RunApp(a, events[..|events| - 1]), events[|events| - 1])
  }

  lemma LastAppended<T>(first: seq<T>, later: seq<T>)
    requires later != []
    ensures var all := first + later;
            all[..|all| - 1] == first + later[..|later| - 1] && all[|all| - 1] == later[|later| - 1]
  {
  }

  lemma UnfoldWindowRun(a: App, events: seq<AppEvent>)
    ensures events == [] ==> RunApp(a, events) == a
    ensures events != [] ==> RunApp(a, events) == StepApp(RunApp(a, events[..|events| - 1]), events[|events| - 1])
  {
    hide StepApp;
  }

  // ---- what showing and hiding leave alone ----

  predicate OnlyActivity(e: Pages.Event) {
    e.SuspendMedia? || e.ResumeMedia? || e.SuspendAll? || e.ResumeAll? || e.Reload?
  }

  /** Everything but the activity of the page and the window's own flags. */
  predicate SameButActivity(a: App, b: App) {
    && b.page == a.page.(activity := b.page.activity, reloads := b.page.reloads, nextSource := b.page.nextSource)
    && b.page.activity.hasBeenShown == a.page.activity.hasBeenShown
    && b.keepAlive == a.keepAlive && b.needReload == a.needReload
    && b.pendingParams == a.pendingParams && b.pendingLauncher == a.pendingLauncher
  }

  lemma ActivityEventFacts(a: App, e: Pages.Event)
    requires OnlyActivity(e)
    ensures SameButActivity(a, a.OnPage(e)) && a.OnPage(e) == a.(page := a.OnPage(e).page)
    ensures a.OnPage(e).page.reloads == a.page.reloads + if e.Reload? then 1 else 0
  {
    hide Activity.SuspendMedia, Activity.ResumeMedia, Activity.SuspendAll, Activity.ResumeAll;
    ShownIsKept(a.page.activity, a.page.config, a.page.closing.isClosing, a.page.nextSource);
  }

  lemma ShownIsKept(a: Pages.Activity, config: Config, isClosing: bool, id: nat)
    ensures a.SuspendMedia(config).hasBeenShown == a.hasBeenShown && a.ResumeMedia().hasBeenShown == a.hasBeenShown
    ensures a.SuspendAll(config, isClosing, id).hasBeenShown == a.hasBeenShown
    ensures a.ResumeAll(config).hasBeenShown == a.hasBeenShown
  {
    hide TimerState.Started, TimerState.Stopped;
  }

  lemma ReloadFacts(a: App)
    ensures var b := a.ReloadIfCrashed();
            && SameButActivity(a, b) && b == a.(page := b.page, crashed := false)
            && b.page == a.page.(reloads := if a.crashed then a.page.reloads + 1 else a.page.reloads)
  {
  }

  lemma ActivatedFacts(a: App)
    ensures var b := a.OnStageActivated();
            && SameButActivity(a, b) && b == a.(page := b.page, crashed := false)
            && b.page.reloads == a.page.reloads + if a.crashed then 1 else 0
  {
    hide App.OnPage, App.ReloadIfCrashed;
    ReloadFacts(a);
    ActivityEventFacts(a.ReloadIfCrashed(), Event.ResumeAll);
  }

  lemma DeactivatedFacts(a: App)
    ensures var b := a.OnStageDeactivated();
            && SameButActivity(a, b) && b == a.(page := b.page, hidden := true, didActivateStage := false)
            && b.page.reloads == a.page.reloads
  {
    hide App.OnPage;
    ActivityEventFacts(a, Event.SuspendMedia);
    ActivityEventFacts(a.OnPage(Event.SuspendMedia), Event.SuspendAll);
  }

  lemma ShowFacts(a: App)
    ensures var b := a.ShowWindow();
            && SameButActivity(a, b) && b.preload == a.preload && b.didActivateStage == a.didActivateStage
            && b.hidden == (a.hidden && a.preload != NoPreload) && b.crashed == (a.crashed && a.preload != NoPreload)
            && b.page.reloads == a.page.reloads + if a.crashed && !b.crashed then 1 else 0
  {
    hide App.OnStageActivated;
    ActivatedFacts(a.(hidden := false));
  }

  lemma ClearFacts(a: App)
    ensures var b := a.ClearPreload();
            SameButActivity(a, b) && b == a.(page := b.page, preload := NoPreload) && b.page.reloads == a.page.reloads
  {
    hide App.OnPage;
    ActivityEventFacts(a, Event.ResumeMedia);
  }

  lemma UnhideFacts(a: App)
    ensures var b := a.Unhide();
            && SameButActivity(a, b) && !b.hidden && b.didActivateStage == a.didActivateStage
            && b.preload == (if a.hidden then NoPreload else a.preload)
            && (b.crashed ==> a.crashed) && b.page.reloads == a.page.reloads + if a.crashed && !b.crashed then 1 else 0
  {
    hide App.ClearPreload, App.ShowWindow;
    var b := a.(hidden := false).ClearPreload();
    ClearFacts(a.(hidden := false));
    ShowFacts(b);
    ShowFacts(b.(inWindowMgr := false));
  }

  lemma RaiseFacts(a: App, s: Surroundings)
    ensures var b := a.Raise(s);
            && SameButActivity(a, b) && b == a.(page := b.page, crashed := b.crashed)
            && b.crashed == (a.crashed && !a.RaiseActivates(s))
            && b.page.reloads == a.page.reloads + if a.crashed && !b.crashed then 1 else 0
  {
    hide App.OnPage, App.OnStageActivated, App.RaiseActivates;
    ActivatedFacts(a);
    ActivityEventFacts(a, Event.ResumeAll);
    ActivityEventFacts(a.OnStageActivated(), Event.ResumeAll);
  }

  /** What the relaunch of a page changes besides its activity. */
  lemma PageRelaunchFacts(a: App, request: Request)
    ensures var b := a.OnPage(Event.Relaunch(request));
            && SameButActivity(a, b.(page := b.page.(launchParams := a.page.launchParams)))
            && b == a.(page := b.page) && b.page.reloads == a.page.reloads
            && b.page.launchParams ==
               if request.opensWindow then a.page.launchParams
               else if a.page.activity.hasBeenShown || request.hosted != NotHosted then request.params
               else a.page.launchParams
  {
    hide TimerState.Stopped;
  }

  /** Everything a relaunch does outside the activity of the page. */
  lemma RelaunchFacts(a: App, request: Request, launcher: string, s: Surroundings)
    ensures var b, takes := a.Relaunch(request, launcher, s), a.page.TakesRelaunch(request);
            && !b.hidden && !b.crashed && b.preload == (if a.hidden then NoPreload else a.preload)
            && b.didActivateStage == a.didActivateStage && b.keepAlive == a.keepAlive && b.needReload == a.needReload
            && b.pendingParams == (if takes then a.pendingParams else request.params)
            && b.pendingLauncher == (if takes then a.pendingLauncher else launcher)
            && b.page == a.page.(activity := b.page.activity, reloads := b.page.reloads,
                         nextSource := b.page.nextSource, launchParams := b.page.launchParams)
            && b.page.activity.hasBeenShown == a.page.activity.hasBeenShown
            && b.page.launchParams == a.OnPage(Event.Relaunch(request)).page.launchParams
            && b.page.reloads == a.page.reloads + if a.crashed then 1 else 0
  {
    hide App.OnPage, App.Unhide, App.Raise, App.ReloadIfCrashed;
    var b := a.Unhide().ReloadIfCrashed();
    UnhideFacts(a);
    ReloadFacts(a.Unhide());
    PageRelaunchFacts(a, request);
    PageRelaunchFacts(b, request);
    RaiseFacts(b.OnPage(Event.Relaunch(request)), s);
  }

  lemma OtherPageFacts(a: App, e: Pages.Event)
    ensures a.OnPage(e) == a.(page := a.OnPage(e).page)
    ensures a.OnPage(e).page.reloads == a.page.reloads + if e.Reload? then 1 else 0
  {
    hide ErrorState.Update, TimerState.Started, TimerState.Stopped, TimerState.InCallback, TimerState.CallbackDone;
  }

  /**
   Only the loading of a page and closing touch what the page waits for at its end, and whether it
   shows the error page.
   */
  lemma PageFacts(p: Page, e: Pages.Event)
    ensures var q := Pages.Step(p, e);
            && q.closing.isClosing == (p.closing.isClosing || e.SetClosing?)
            && q.closing.cleaning == (p.closing.cleaning || e.CleanResources?)
            && q.closing.hasCallback ==
               (if e.SetCloseCallback? then e.registered else p.closing.hasCallback && !e.LoadStarted?)
            && q.errors.shown == (if e.LoadFinished? && !p.closing.cleaning then e.isErrorPage else p.errors.shown)
            && q.closing.callbackTimer == CallbackTimerAfter(p, e)
            && (e.ExecuteCloseCallback? ==> q.closing.callbackTimer.pending != {})
  {
    hide Pages.Step;
    StepClosing(p, e);
    StepErrors(p, e);
    assert p.nextSource in p.closing.callbackTimer.Started(p.nextSource).pending;
  }

  /** A close hides the window and starts the close callback or the unload, whichever the page is to get. */
  lemma ClosedFacts(a: App, ignoreCleanResource: bool)
    ensures var b, c := a.Closed(ignoreCleanResource), a.page.closing;
            && b == a.(page := b.page, hidden := true, didActivateStage := false)
            && b.page.reloads == a.page.reloads && b.page.errors.shown == a.page.errors.shown
            && b.page.closing.isClosing && b.page.closing.hasCallback == c.hasCallback
            && b.page.closing.cleaning == (c.cleaning || (!ignoreCleanResource && !c.hasCallback))
            && (b.page.closing.callbackTimer.pending != {} <==>
                c.callbackTimer.pending != {} || (!ignoreCleanResource && c.hasCallback))
  {
    hide App.OnStageDeactivated, Pages.Step;
    var b := a.OnPage(Event.SetClosing);
    PageFacts(a.page, Event.SetClosing);
    OtherPageFacts(a, Event.SetClosing);
    DeactivatedFacts(b);
    var d := b.OnStageDeactivated();
    OtherPageFacts(d, Event.ExecuteCloseCallback);
    OtherPageFacts(d, Event.CleanResources);
    PageFacts(d.page, Event.ExecuteCloseCallback);
    PageFacts(d.page, Event.CleanResources);
  }

  lemma FrameFacts(a: App, usePrerendering: bool)
    ensures var b := a.FirstFrameCommitted(usePrerendering);
            && b == a.(page := b.page, hidden := b.hidden, crashed := b.crashed, inWindowMgr := b.inWindowMgr,
                    didActivateStage := b.didActivateStage)
            && b.page.closing == a.page.closing && b.page.errors == a.page.errors
            && b.page.reloads == a.page.reloads + (if a.crashed && !b.crashed then 1 else 0)
            && (b.crashed ==> a.crashed)
            && (a.hidden ==> b.hidden)
  {
    hide App.ShowWindow;
    ShowFacts(a.OnPage(Event.FirstFrame).(didActivateStage := a.didActivateStage && !usePrerendering));
    ShowOnlyChanges(a.OnPage(Event.FirstFrame).(didActivateStage := a.didActivateStage && !usePrerendering));
  }

  lemma ShowOnlyChanges(a: App)
    ensures var b := a.ShowWindow();
            b == a.(page := b.page, hidden := b.hidden, crashed := b.crashed, inWindowMgr := b.inWindowMgr)
  {
    hide App.OnStageActivated;
    ActivatedFacts(a.(hidden := false));
  }

  /** What the app does before the page finishes its load. */
  lemma AppLoadFacts(a: App, opensWindow: bool, hosted: Hosted, s: Surroundings)
    ensures var b := a.WebPageLoadFinished(opensWindow, hosted, s);
            && b.page.closing == a.page.closing && b.page.errors == a.page.errors && b.keepAlive == a.keepAlive
            && b.hidden == a.hidden && (b.crashed ==> a.crashed)
            && b.page.reloads == a.page.reloads + (if a.crashed && !b.crashed then 1 else 0)
                                 + (if a.needReload && !b.needReload then 1 else 0)
            && (b.needReload ==> a.needReload)
            && (b.pendingParams, b.pendingLauncher) ==
               if a.hidden || a.needReload then (a.pendingParams, a.pendingLauncher) else ("", "")
  {
    hide App.OnPage, App.Relaunch;
    ActivityEventFacts(a, Event.Reload);
    RelaunchFacts(a, Request(a.pendingParams, opensWindow, hosted), a.pendingLauncher, s);
  }

  /** The steps of the compositor and the commands that only show, hide or mark the window. */
  predicate StageEvent(e: AppEvent) {
    || e.StateChanged? || e.AboutToMinimize? || e.Pause? || e.HideCommand? || e.SuspendRendering? || e.ResumeRendering?
    || e.RendererCrashed? || e.SetKeepAlive?
  }

  /** Only the stage of the app has changed: its activity, its flags, and one load for a crash mark that is gone. */
  predicate OnlyStage(a: App, b: App, keepAlive: bool) {
    && b == a.(page := b.page, hidden := b.hidden, crashed := b.crashed, inWindowMgr := b.inWindowMgr,
            didActivateStage := b.didActivateStage, keepAlive := keepAlive)
    && b.page.closing == a.page.closing && b.page.errors.shown == a.page.errors.shown && (a.hidden ==> b.hidden)
    && b.page.reloads == a.page.reloads + if a.crashed && !b.crashed then 1 else 0
  }

  lemma NothingIsOnlyStage(a: App, keepAlive: bool)
    ensures OnlyStage(a, a, a.keepAlive) && OnlyStage(a, a.(keepAlive := keepAlive), keepAlive)
  {
  }

  lemma ActivatedIsOnlyStage(a: App)
    ensures OnlyStage(a, a.OnStageActivated(), a.keepAlive)
  {
    hide App.OnStageActivated;
    ActivatedFacts(a);
  }

  lemma DeactivatedIsOnlyStage(a: App)
    ensures OnlyStage(a, a.OnStageDeactivated(), a.keepAlive)
    ensures OnlyStage(a, a.OnStageDeactivated().(inWindowMgr := false), a.keepAlive)
  {
    hide App.OnStageDeactivated;
    DeactivatedFacts(a);
  }

  lemma MinimizingIsOnlyStage(a: App)
    ensures OnlyStage(a, a.OnPage(Event.SuspendMedia), a.keepAlive)
  {
    hide App.OnPage;
    ActivityEventFacts(a, Event.SuspendMedia);
  }

  lemma CrashIsOnlyStage(a: App, minimized: bool)
    ensures OnlyStage(a, a.RendererCrashed(minimized), a.keepAlive)
  {
    hide Pages.Step;
    OtherPageFacts(a, Event.Recreate);
    PageFacts(a.page, Event.Recreate);
    RecreateKeepsClosing(a.page);
  }

  lemma StageStepFacts(a: App, e: AppEvent)
    requires StageEvent(e)
    ensures OnlyStage(a, StepApp(a, e), if e.SetKeepAlive? then e.keepAlive else a.keepAlive)
  {
    hide OnlyStage, App.OnPage, App.OnStageActivated, App.OnStageDeactivated, App.RendererCrashed;
    NothingIsOnlyStage(a, if e.SetKeepAlive? then e.keepAlive else a.keepAlive);
    match e {
      case AboutToMinimize => MinimizingIsOnlyStage(a);
      case RendererCrashed(minimized) => CrashIsOnlyStage(a, minimized);
      case _ =>
        ActivatedIsOnlyStage(a);
        DeactivatedIsOnlyStage(a);
    }
  }

  lemma RecreateKeepsClosing(p: Page)
    ensures Pages.Step(p, Event.Recreate).closing == p.closing
  {
  }

  // ---- what holds in every reachable state ----

  ghost predicate Consistent(a: App) {
    && Safe(a.page)
    && (a.preload != NoPreload ==> a.hidden)
    && (a.didActivateStage ==> !a.hidden)
  }

  /** A suspended page and a preloading page are behind a hidden window; an activated stage is not. */
  ghost predicate InStep(a: App) {
    Consistent(a) && (a.page.config.stopsJs && a.page.activity.isSuspended ==> a.hidden)
  }

  lemma PageStepFacts(p: Page, e: Pages.Event)
    requires Safe(p)
    ensures Safe(Pages.Step(p, e)) && Pages.Step(p, e).config == p.config
    ensures Pages.Step(p, e).activity.isSuspended ==> p.activity.isSuspended || e.SuspendAll?
    ensures Wakes(e) && p.config.stopsJs ==> !Pages.Step(p, e).activity.isSuspended
  {
    hide ErrorState.Update, HonestFlags, ErrorPageOnly, IdsInOrder;
    StepIsSafe(p, e);
  }

  lemma OnPageKeeps(a: App, e: Pages.Event)
    requires Consistent(a) && !e.SuspendAll?
    ensures Consistent(a.OnPage(e)) && a.OnPage(e).page.config == a.page.config
    ensures Wakes(e) || InStep(a) ==> InStep(a.OnPage(e))
  {
    hide Pages.Step, Safe;
    PageStepFacts(a.page, e);
  }

  lemma DeactivatedInStep(a: App)
    requires Consistent(a)
    ensures InStep(a.OnStageDeactivated()) && a.OnStageDeactivated().page.config == a.page.config
  {
    hide Pages.Step, Safe;
    PageStepFacts(a.page, Event.SuspendMedia);
    PageStepFacts(a.OnPage(Event.SuspendMedia).page, Event.SuspendAll);
  }

  lemma ReloadKeeps(a: App)
    requires Consistent(a)
    ensures Consistent(a.ReloadIfCrashed()) && a.ReloadIfCrashed().page.config == a.page.config
    ensures InStep(a) ==> InStep(a.ReloadIfCrashed())
  {
    hide Pages.Step, Safe;
    PageStepFacts(a.page, Event.Reload);
  }

  lemma ActivatedInStep(a: App)
    requires Consistent(a)
    ensures InStep(a.OnStageActivated()) && a.OnStageActivated().page.config == a.page.config
  {
    hide App.OnPage, App.ReloadIfCrashed, Consistent, InStep;
    ReloadKeeps(a);
    OnPageKeeps(a.ReloadIfCrashed(), Event.ResumeAll);
  }

  lemma ShowKeeps(a: App)
    requires Consistent(a)
    ensures Consistent(a.ShowWindow()) && a.ShowWindow().page.config == a.page.config
    ensures InStep(a) ==> InStep(a.ShowWindow())
  {
    hide App.OnStageActivated, Safe;
    if a.preload == NoPreload {
      ActivatedInStep(a.(hidden := false));
    }
  }

  lemma UnhideKeeps(a: App)
    requires Consistent(a)
    ensures Consistent(a.Unhide()) && a.Unhide().page.config == a.page.config
  {
    hide App.ClearPreload, App.ShowWindow, Safe;
    if a.hidden {
      var b := a.(hidden := false).ClearPreload();
      ClearKeeps(a);
      ShowKeeps(if a.keepAlive && a.page.activity.view.progress != 100 then b.(inWindowMgr := false) else b);
    }
  }

  lemma ClearKeeps(a: App)
    requires Consistent(a) && a.hidden
    ensures var b := a.(hidden := false).ClearPreload();
            Consistent(b) && b.page.config == a.page.config
  {
    hide Pages.Step, Safe;
    PageStepFacts(a.page, Event.ResumeMedia);
  }

  lemma RaiseInStep(a: App, s: Surroundings)
    requires InStep(a)
    ensures InStep(a.Raise(s)) && a.Raise(s).page.config == a.page.config
  {
    hide App.OnPage, App.OnStageActivated, App.RaiseActivates, InStep, Consistent;
    StepsAreConsistent(a);
    ActivatedInStep(a);
    StepsAreConsistent(a.OnStageActivated());
    OnPageKeeps(a, Event.ResumeAll);
    OnPageKeeps(a.OnStageActivated(), Event.ResumeAll);
  }

  lemma StepsAreConsistent(a: App)
    ensures InStep(a) ==> Consistent(a)
  {
  }

  /** Whatever was hidden, preloading or suspended is not any more once a relaunch was asked for. */
  lemma RelaunchInStep(a: App, request: Request, launcher: string, s: Surroundings)
    requires Consistent(a)
    ensures InStep(a.Relaunch(request, launcher, s)) && a.Relaunch(request, launcher, s).page.config == a.page.config
  {
    hide App.OnPage, App.Unhide, App.Raise, App.ReloadIfCrashed, Safe;
    UnhideKeeps(a);
    ReloadKeeps(a.Unhide());
    var b := a.Unhide().ReloadIfCrashed();
    OnPageKeeps(b, Event.Relaunch(request));
    RaiseInStep(b.OnPage(Event.Relaunch(request)), s);
  }

  lemma LoadFinishedInStep(a: App, isErrorPage: bool, opensWindow: bool, hosted: Hosted, s: Surroundings)
    requires InStep(a)
    ensures var b := a.LoadFinished(isErrorPage, opensWindow, hosted, s); InStep(b) && b.page.config == a.page.config
  {
    hide App.OnPage, App.Relaunch, Safe;
    RelaunchInStep(a, Request(a.pendingParams, opensWindow, hosted), a.pendingLauncher, s);
    OnPageKeeps(a, Event.Reload);
    var b := a.WebPageLoadFinished(opensWindow, hosted, s);
    assert InStep(b);
    OnPageKeeps(a, Event.LoadFinished(isErrorPage));
    OnPageKeeps(b, Event.LoadFinished(isErrorPage));
  }

  lemma FrameInStep(a: App, e: AppEvent)
    requires InStep(a) && (e.FirstFrame? || e.SwapFrame?)
    ensures InStep(StepApp(a, e)) && StepApp(a, e).page.config == a.page.config
  {
    hide App.OnPage, App.ShowWindow, App.OnStageActivated, Safe;
    if e.SwapFrame? {
      ActivatedInStep(a);
      ActivatedFacts(a);
    } else {
      OnPageKeeps(a, Event.FirstFrame);
      var b := a.OnPage(Event.FirstFrame);
      OnPageIsOnlyPage(a, Event.FirstFrame);
      ShowKeeps(b.(didActivateStage := b.didActivateStage && !e.usePrerendering));
    }
  }

  lemma OnPageIsOnlyPage(a: App, e: Pages.Event)
    ensures a.OnPage(e) == a.(page := a.OnPage(e).page)
  {
  }

  lemma ClosedInStep(a: App, ignoreCleanResource: bool)
    requires Consistent(a)
    ensures InStep(a.Closed(ignoreCleanResource)) && a.Closed(ignoreCleanResource).page.config == a.page.config
  {
    hide App.OnPage, App.OnStageDeactivated, InStep, Consistent;
    OnPageKeeps(a, Event.SetClosing);
    DeactivatedInStep(a.OnPage(Event.SetClosing));
    var b := a.OnPage(Event.SetClosing).OnStageDeactivated();
    StepsAreConsistent(b);
    OnPageKeeps(b, Event.ExecuteCloseCallback);
    OnPageKeeps(b, Event.CleanResources);
  }

  lemma StepAppInStep(a: App, e: AppEvent)
    requires InStep(a)
    ensures InStep(StepApp(a, e)) && StepApp(a, e).page.config == a.page.config
  {
    hide App.OnPage, App.OnStageActivated, App.OnStageDeactivated;
    hide App.Relaunch, App.LoadFinished, App.Closed, App.Raise;
    hide App.FirstFrameCommitted, App.FrameSwapped, Safe;
    match e {
      case OnPageOnly(event) =>
        if PageOnly(event) {
          OnPageKeeps(a, event);
        }
      case FirstFrame(_) => FrameInStep(a, e);
      case SwapFrame => FrameInStep(a, e);
      case LoadFinished(isErrorPage, opensWindow, hosted, s) =>
        LoadFinishedInStep(a, isErrorPage, opensWindow, hosted, s);
      case Relaunch(request, launcher, s) => RelaunchInStep(a, request, launcher, s);
      case RendererCrashed(_) => OnPageKeeps(a, Event.Recreate);
      case AboutToMinimize => OnPageKeeps(a, Event.SuspendMedia);
      case Raise(s) => RaiseInStep(a, s);
      case Close(ignoreCleanResource) => ClosedInStep(a, ignoreCleanResource);
      case _ =>
        ActivatedInStep(a);
        DeactivatedInStep(a);
    }
  }

  lemma LaunchedInStep(config: Config, nextSource: nat, keepAlive: bool, launchedHidden: bool, needReload: bool,
                       kind: Preload)
    requires nextSource > 0
    ensures var a := Launched(config, nextSource, keepAlive, launchedHidden, needReload, kind);
            InStep(a) && a.page.config == config
  {
    EveryRunIsSafe(config, nextSource, []);
    StepIsSafe(Fresh(config, nextSource), Event.SuspendMedia);
  }

  lemma {:induction false} RunKeepsInStep(a: App, events: seq<AppEvent>)
    requires InStep(a)
    ensures InStep(RunApp(a, events)) && RunApp(a, events).page.config == a.page.config
  {
    hide StepApp, InStep;
    if events != [] {
      RunKeepsInStep(a, events[..|events| - 1]);
      StepAppInStep(RunApp(a, events[..|events| - 1]), events[|events| - 1]);
    }
  }

  /** In every run of a launched app, a page is suspended only behind a hidden window, and so is a preloading one. */
  lemma EveryRunIsInStep(config: Config, nextSource: nat, keepAlive: bool, launchedHidden: bool, needReload: bool,
                         kind: Preload, events: seq<AppEvent>)
    requires nextSource > 0
    ensures InStep(RunApp(Launched(config, nextSource, keepAlive, launchedHidden, needReload, kind), events))
  {
    LaunchedInStep(config, nextSource, keepAlive, launchedHidden, needReload, kind);
    RunKeepsInStep(Launched(config, nextSource, keepAlive, launchedHidden, needReload, kind), events);
  }

  // ---- who wakes an app ----

  /** The app is asked for again or raised, or the compositor activates its window. */
  predicate Raises(a: App, e: AppEvent) {
    || e.Relaunch? || e.ResumeRendering?
    || (e.StateChanged? && e.state == Active && !a.page.closing.isClosing)
    || (e.Raise? && (a.RaiseActivates(e.surroundings) || e.surroundings.isMinimized))
  }

  predicate WakesApp(a: App, e: AppEvent) {
    Raises(a, e) || e.RendererCrashed?
  }

  ghost predicate NothingWakes(a: App, events: seq<AppEvent>) {
    forall i :: 0 <= i < |events| ==> !WakesApp(RunApp(a, events[..i]), events[i])
  }

  ghost predicate NothingRaises(a: App, events: seq<AppEvent>) {
    forall i :: 0 <= i < |events| ==> !Raises(RunApp(a, events[..i]), events[i])
  }

  // ---- suspending at the end of a load, with the window in the picture ----

  lemma PageKeepsSuspendAtLoad(a: App, e: Pages.Event)
    requires SuspendsAtLoad(a.page) && !Wakes(e)
    ensures SuspendsAtLoad(a.OnPage(e).page)
  {
    StepKeepsSuspendAtLoad(a.page, e);
  }

  lemma DeactivationKeepsSuspendAtLoad(a: App)
    requires SuspendsAtLoad(a.page)
    ensures SuspendsAtLoad(a.OnStageDeactivated().page)
  {
    hide App.OnPage, SuspendsAtLoad;
    PageKeepsSuspendAtLoad(a, Event.SuspendMedia);
    PageKeepsSuspendAtLoad(a.OnPage(Event.SuspendMedia), Event.SuspendAll);
  }

  lemma ClosingKeepsSuspendAtLoad(a: App, ignoreCleanResource: bool)
    requires SuspendsAtLoad(a.page)
    ensures SuspendsAtLoad(a.Closed(ignoreCleanResource).page)
  {
    hide App.OnPage, App.OnStageDeactivated, SuspendsAtLoad;
    PageKeepsSuspendAtLoad(a, Event.SetClosing);
    DeactivationKeepsSuspendAtLoad(a.OnPage(Event.SetClosing));
    var b := a.OnPage(Event.SetClosing).OnStageDeactivated();
    PageKeepsSuspendAtLoad(b, Event.ExecuteCloseCallback);
    PageKeepsSuspendAtLoad(b, Event.CleanResources);
  }

  lemma StepAppKeepsSuspendAtLoad(a: App, e: AppEvent)
    requires a.hidden && SuspendsAtLoad(a.page) && !WakesApp(a, e)
    ensures SuspendsAtLoad(StepApp(a, e).page)
  {
    hide App.OnPage, App.OnStageActivated, App.OnStageDeactivated, App.Closed, SuspendsAtLoad;
    DeactivationKeepsSuspendAtLoad(a);
    match e {
      case OnPageOnly(event) =>
        if PageOnly(event) {
          PageKeepsSuspendAtLoad(a, event);
        }
      case FirstFrame(_) => PageKeepsSuspendAtLoad(a, Event.FirstFrame);
      case LoadFinished(isErrorPage, _, _, _) => PageKeepsSuspendAtLoad(a, Event.LoadFinished(isErrorPage));
      case AboutToMinimize => PageKeepsSuspendAtLoad(a, Event.SuspendMedia);
      case Close(ignoreCleanResource) => ClosingKeepsSuspendAtLoad(a, ignoreCleanResource);
      case _ =>
    }
  }

  lemma {:induction false} AppKeepsSuspendAtLoad(a: App, events: seq<AppEvent>)
    requires InStep(a) && a.page.config.stopsJs && SuspendsAtLoad(a.page) && NothingWakes(a, events)
    ensures var b := RunApp(a, events);
            InStep(b) && b.page.config.stopsJs && SuspendsAtLoad(b.page) && b.hidden
  {
    hide StepApp, WakesApp, Safe;
    if events != [] {
      var init, e := events[..|events| - 1], events[|events| - 1];
      assert forall i :: 0 <= i < |init| ==> init[..i] == events[..i];
      AppKeepsSuspendAtLoad(a, init);
      StepAppInStep(RunApp(a, init), e);
      StepAppKeepsSuspendAtLoad(RunApp(a, init), e);
    }
  }

  /**
   The suspend timer fires on a page that was not shown and is still loading. A relaunch that
   waits for the end of the load cannot undo the suspend: the window of a suspended page is hidden,
   so the app ignores the end of the load, and the page suspends its DOM if it was shown or is
   complete by then.
   */
  lemma LoadEndSuspendsHiddenApp(a: App, id: nat, events: seq<AppEvent>, e: AppEvent)
    requires InStep(a) && a.page.config.stopsJs && !a.page.config.backgroundRun
    requires id in a.page.activity.suspendTimer.pending && a.page.activity.isSuspended
    requires !a.page.activity.hasBeenShown && a.page.activity.view.progress < 100
    requires NothingWakes(StepApp(a, OnPageOnly(Event.SuspendTimer(id))), events) && e.LoadFinished?
    ensures var b := RunApp(StepApp(a, OnPageOnly(Event.SuspendTimer(id))), events);
            var ready := b.page.activity.hasBeenShown || b.page.activity.view.progress >= 100;
            !b.page.closing.cleaning ==>
              && (StepApp(b, e).page.activity.view.domSuspended <==> ready || b.page.activity.view.domSuspended)
              && StepApp(b, e).pendingParams == b.pendingParams
  {
    hide NothingWakes;
    var fired := StepApp(a, OnPageOnly(Event.SuspendTimer(id)));
    StepAppInStep(a, OnPageOnly(Event.SuspendTimer(id)));
    assert SuspendsAtLoad(fired.page);
    AppKeepsSuspendAtLoad(fired, events);
  }

  // ---- preloading ----

  /** Hidden and not visible. */
  predicate PreloadedAndDown(a: App) {
    a.preload != NoPreload && a.hidden && !a.page.activity.view.visible
  }

  /** Marked as paused, unless it may run in the background. */
  predicate MarkedPaused(a: App) {
    a.page.activity.isPaused || a.page.config.backgroundRun
  }

  /** The media of a page marked as paused stay as they are, but a new view plays, and nothing pauses it again. */
  predicate StaysDown(a: App, b: App, recreated: bool) {
    && PreloadedAndDown(b) && b.preload == a.preload && b.page.config == a.page.config
    && (MarkedPaused(a) ==>
          && MarkedPaused(b)
          && b.page.activity.view.mediaSuspended == (a.page.activity.view.mediaSuspended && !recreated))
  }

  /** What became of an app that was preloaded in the given kind, after these events. */
  predicate DownSoFar(a: App, kind: Preload, config: Config, events: seq<AppEvent>) {
    && PreloadedAndDown(a) && a.preload == kind && a.page.config == config
    && (kind == SemiFull || kind == Partial ==>
          && MarkedPaused(a)
          && (a.page.activity.view.mediaSuspended <==>
              !config.backgroundRun && forall e :: e in events ==> !e.RendererCrashed?))
  }

  /** What a page event leaves of the activity of a page that is down. */
  predicate ActivityStaysDown(a: Pages.Activity, b: Pages.Activity, backgroundRun: bool, recreated: bool) {
    && (!a.view.visible ==> !b.view.visible)
    && (a.isPaused || backgroundRun ==>
          (b.isPaused || backgroundRun) && b.view.mediaSuspended == (a.view.mediaSuspended && !recreated))
  }

  lemma SuspendingStaysDown(a: Pages.Activity, config: Config, isClosing: bool, id: nat)
    ensures ActivityStaysDown(a, a.SuspendMedia(config), config.backgroundRun, false)
    ensures ActivityStaysDown(a, a.SuspendAll(config, isClosing, id), config.backgroundRun, false)
  {
    hide TimerState.Started;
  }

  lemma StoppingStaysDown(a: Pages.Activity, config: Config, id: nat)
    ensures ActivityStaysDown(a, a.FinishLoad(config), config.backgroundRun, false)
    ensures ActivityStaysDown(a, a.SuspendTimerFires(config, id), config.backgroundRun, false)
  {
    hide TimerState.Stopped, TimerState.InCallback, TimerState.CallbackDone;
  }

  lemma MarkingStaysDown(a: Pages.Activity, config: Config)
    ensures ActivityStaysDown(a, a, config.backgroundRun, false)
    ensures ActivityStaysDown(a, a.(suspendAtLoad := true), config.backgroundRun, false)
    ensures ActivityStaysDown(a, a.(hasBeenShown := true), config.backgroundRun, false)
    ensures forall progress ::
              ActivityStaysDown(a, a.(view := a.view.(progress := progress)), config.backgroundRun, false)
    ensures ActivityStaysDown(a, a.Recreate(), config.backgroundRun, true)
  {
  }

  lemma EventStaysDown(p: Page, e: Pages.Event)
    requires !e.ResumeMedia? && !e.ResumeAll? && !e.Relaunch?
    ensures ActivityStaysDown(p.activity, ActivityAfter(p, e), p.config.backgroundRun, e.Recreate?)
  {
    hide ActivityStaysDown, Activity.SuspendMedia, Activity.SuspendAll;
    hide Activity.FinishLoad, Activity.SuspendTimerFires, Activity.Recreate;
    MarkingStaysDown(p.activity, p.config);
    match e {
      case SuspendMedia => SuspendingStaysDown(p.activity, p.config, p.closing.isClosing, p.nextSource);
      case SuspendAll => SuspendingStaysDown(p.activity, p.config, p.closing.isClosing, p.nextSource);
      case LoadFinished(_) => StoppingStaysDown(p.activity, p.config, p.nextSource);
      case SuspendTimer(id) => StoppingStaysDown(p.activity, p.config, id);
      case _ =>
    }
  }

  lemma PageStepStaysDown(a: App, e: Pages.Event)
    requires PreloadedAndDown(a) && !e.ResumeMedia? && !e.ResumeAll? && !e.Relaunch?
    ensures StaysDown(a, a.OnPage(e), e.Recreate?)
  {
    hide Pages.Step, ActivityAfter;
    StepActivity(a.page, e);
    EventStaysDown(a.page, e);
  }

  lemma DeactivationStaysDown(a: App)
    requires PreloadedAndDown(a)
    ensures StaysDown(a, a.OnStageDeactivated(), false)
  {
    hide App.OnPage;
    PageStepStaysDown(a, Event.SuspendMedia);
    PageStepStaysDown(a.OnPage(Event.SuspendMedia), Event.SuspendAll);
  }

  lemma ClosingStaysDown(a: App, ignoreCleanResource: bool)
    requires PreloadedAndDown(a)
    ensures StaysDown(a, a.Closed(ignoreCleanResource), false)
  {
    hide App.OnPage, App.OnStageDeactivated;
    PageStepStaysDown(a, Event.SetClosing);
    DeactivationStaysDown(a.OnPage(Event.SetClosing));
    var b := a.OnPage(Event.SetClosing).OnStageDeactivated();
    PageStepStaysDown(b, Event.ExecuteCloseCallback);
    PageStepStaysDown(b, Event.CleanResources);
  }

  lemma StepStaysDown(a: App, e: AppEvent)
    requires PreloadedAndDown(a) && !Raises(a, e)
    ensures StaysDown(a, StepApp(a, e), e.RendererCrashed?)
  {
    hide App.OnPage, App.OnStageActivated, App.OnStageDeactivated, App.Closed;
    match e {
      case OnPageOnly(event) =>
        if PageOnly(event) {
          PageStepStaysDown(a, event);
        }
      case FirstFrame(_) => PageStepStaysDown(a, Event.FirstFrame);
      case LoadFinished(isErrorPage, _, _, _) => PageStepStaysDown(a, Event.LoadFinished(isErrorPage));
      case RendererCrashed(_) => PageStepStaysDown(a, Event.Recreate);
      case AboutToMinimize => PageStepStaysDown(a, Event.SuspendMedia);
      case Close(ignoreCleanResource) => ClosingStaysDown(a, ignoreCleanResource);
      case _ => DeactivationStaysDown(a);
    }
  }

  /**
   A preloaded app of any kind that nothing raises stays preloaded, hidden and invisible,
   whatever frames, loads, commands and crashes come. In the two kinds that pause its media it
   is silent if and only if it may not run in the background and its view was never re-created.
   */
  lemma {:induction false} PreloadedAppStaysDown(config: Config, nextSource: nat, keepAlive: bool, launchedHidden: bool,
                                                 needReload: bool, kind: Preload, events: seq<AppEvent>)
    requires kind != NoPreload
    requires NothingRaises(Launched(config, nextSource, keepAlive, launchedHidden, needReload, kind), events)
    ensures DownSoFar(RunApp(Launched(config, nextSource, keepAlive, launchedHidden, needReload, kind), events),
                      kind, config, events)
  {
    hide StepApp, DownSoFar, Raises, NothingRaises, RunApp, Launched;
    var start := Launched(config, nextSource, keepAlive, launchedHidden, needReload, kind);
    UnfoldWindowRun(start, events);
    if events == [] {
      LaunchedDown(config, nextSource, keepAlive, launchedHidden, needReload, kind);
    } else {
      var init, e := events[..|events| - 1], events[|events| - 1];
      NothingRaisedBefore(start, events);
      PreloadedAppStaysDown(config, nextSource, keepAlive, launchedHidden, needReload, kind, init);
      StaysDownSoFar(RunApp(start, init), kind, config, events);
    }
  }

  lemma NothingRaisedBefore(a: App, events: seq<AppEvent>)
    requires events != [] && NothingRaises(a, events)
    ensures var init := events[..|events| - 1];
            NothingRaises(a, init) && !Raises(RunApp(a, init), events[|events| - 1])
  {
    hide Raises, RunApp;
    var init := events[..|events| - 1];
    assert forall i :: 0 <= i < |init| ==> init[..i] == events[..i];
  }

  lemma StaysDownSoFar(a: App, kind: Preload, config: Config, events: seq<AppEvent>)
    requires events != [] && DownSoFar(a, kind, config, events[..|events| - 1])
    requires !Raises(a, events[|events| - 1])
    ensures DownSoFar(StepApp(a, events[|events| - 1]), kind, config, events)
  {
    hide StepApp, Raises, PreloadedAndDown, MarkedPaused;
    var init, e := events[..|events| - 1], events[|events| - 1];
    StepStaysDown(a, e);
    assert events == init + [e];
  }

  lemma LaunchedDown(config: Config, nextSource: nat, keepAlive: bool, launchedHidden: bool, needReload: bool,
                     kind: Preload)
    requires kind != NoPreload
    ensures var a := Launched(config, nextSource, keepAlive, launchedHidden, needReload, kind);
            DownSoFar(a, kind, config, [])
  {
  }

  /**
   Apart from a relaunch, exactly the steps that raise the app make its view visible. They
   start its media, and leave it marked as hidden and preloaded all the same.
   */
  lemma RaisedWhilePreloaded(a: App, e: AppEvent)
    requires PreloadedAndDown(a) && Safe(a.page) && !e.Relaunch?
    ensures var b := StepApp(a, e);
            && b.hidden && b.preload == a.preload
            && (b.page.activity.view.visible <==> Raises(a, e))
            && (Raises(a, e) ==> !b.page.activity.view.mediaSuspended)
  {
    hide App.OnPage, App.OnStageActivated, App.ReloadIfCrashed, Safe;
    if Raises(a, e) {
      ActivatedFacts(a);
      ActivatedUp(a);
      ResumedUp(a);
      ActivatedInSafety(a);
      ResumedUp(a.OnStageActivated());
      OnPageIsOnlyPage(a, Event.ResumeAll);
      OnPageIsOnlyPage(a.OnStageActivated(), Event.ResumeAll);
    } else {
      StepStaysDown(a, e);
    }
  }

  lemma ResumedUp(a: App)
    requires Safe(a.page)
    ensures var v := a.OnPage(Event.ResumeAll).page.activity.view; v.visible && !v.mediaSuspended
  {
    ResumeAllResumes(a.page);
  }

  lemma ActivatedInSafety(a: App)
    requires Safe(a.page)
    ensures Safe(a.ReloadIfCrashed().page) && Safe(a.OnStageActivated().page)
  {
    hide Pages.Step, Safe;
    StepIsSafe(a.page, Event.Reload);
    StepIsSafe(a.ReloadIfCrashed().page, Event.ResumeAll);
  }

  lemma ActivatedUp(a: App)
    requires Safe(a.page)
    ensures var v := a.OnStageActivated().page.activity.view; v.visible && !v.mediaSuspended
  {
    hide App.OnPage, App.ReloadIfCrashed, Safe;
    ActivatedInSafety(a);
    ResumedUp(a.ReloadIfCrashed());
  }

  /** A relaunch ends hiding and preloading and wakes the page, whether or not the page takes the request. */
  lemma RelaunchBringsUp(a: App, request: Request, launcher: string, s: Surroundings)
    requires InStep(a)
    ensures var b := a.Relaunch(request, launcher, s);
            !b.hidden && b.preload == NoPreload && !b.crashed
            && (a.page.config.stopsJs ==> !b.page.activity.isSuspended)
  {
    hide App.Relaunch, Safe;
    RelaunchFacts(a, request, launcher, s);
    RelaunchInStep(a, request, launcher, s);
  }

  // ---- reloading after a crash ----

  /** How often a step loads the page again. */
  function OwedReloads(a: App, b: App): nat {
    (if a.crashed && !b.crashed then 1 else 0) + (if a.needReload && !b.needReload then 1 else 0)
  }

  /** What a step leaves of the kept request: when it is replaced, and when it is forgotten. */
  function RequestAfter(a: App, e: AppEvent): (string, string) {
    match e
    case Relaunch(request, launcher, _) =>
      if a.page.TakesRelaunch(request) then (a.pendingParams, a.pendingLauncher) else (request.params, launcher)
    case LoadFinished(_, _, _, _) =>
      if a.page.closing.cleaning || a.hidden || a.needReload then (a.pendingParams, a.pendingLauncher) else ("", "")
    case _ => (a.pendingParams, a.pendingLauncher)
  }

  /** The loads, the kept request and the hidden flag after a step. */
  predicate Accounted(a: App, e: AppEvent, b: App) {
    && b.page.reloads == a.page.reloads + OwedReloads(a, b) + (if e == OnPageOnly(Event.Reload) then 1 else 0)
    && (b.pendingParams, b.pendingLauncher) == RequestAfter(a, e)
    && (a.hidden && !e.Relaunch? ==> b.hidden)
  }

  lemma StageIsAccounted(a: App, e: AppEvent)
    requires StageEvent(e)
    ensures Accounted(a, e, StepApp(a, e))
  {
    hide StepApp;
    StageStepFacts(a, e);
  }

  lemma PageIsAccounted(a: App, event: Pages.Event)
    ensures Accounted(a, OnPageOnly(event), StepApp(a, OnPageOnly(event)))
  {
    hide App.OnPage;
    OtherPageFacts(a, event);
  }

  lemma FramesAreAccounted(a: App, usePrerendering: bool)
    ensures Accounted(a, AppEvent.FirstFrame(usePrerendering), StepApp(a, AppEvent.FirstFrame(usePrerendering)))
    ensures Accounted(a, SwapFrame, StepApp(a, SwapFrame))
  {
    hide App.FirstFrameCommitted, App.OnStageActivated;
    FrameFacts(a, usePrerendering);
    ActivatedFacts(a);
  }

  lemma LoadIsAccounted(a: App, e: AppEvent)
    requires e.LoadFinished?
    ensures Accounted(a, e, StepApp(a, e))
  {
    hide App.LoadFinished;
    LoadFacts(a, e.isErrorPage, e.opensWindow, e.hosted, e.surroundings);
  }

  lemma RelaunchIsAccounted(a: App, e: AppEvent)
    requires e.Relaunch?
    ensures Accounted(a, e, StepApp(a, e))
  {
    hide App.Relaunch;
    RelaunchFacts(a, e.request, e.launcher, e.surroundings);
  }

  lemma RaiseIsAccounted(a: App, s: Surroundings)
    ensures Accounted(a, Raise(s), StepApp(a, Raise(s)))
  {
    hide App.Raise;
    RaiseFacts(a, s);
  }

  lemma CloseIsAccounted(a: App, ignoreCleanResource: bool)
    ensures Accounted(a, Close(ignoreCleanResource), StepApp(a, Close(ignoreCleanResource)))
  {
    hide App.Closed;
    ClosedFacts(a, ignoreCleanResource);
  }

  lemma StepIsAccounted(a: App, e: AppEvent)
    ensures Accounted(a, e, StepApp(a, e))
  {
    hide StepApp, Accounted;
    if StageEvent(e) {
      StageIsAccounted(a, e);
    } else {
      match e {
        case OnPageOnly(event) => PageIsAccounted(a, event);
        case FirstFrame(usePrerendering) => FramesAreAccounted(a, usePrerendering);
        case SwapFrame => FramesAreAccounted(a, false);
        case LoadFinished(_, _, _, _) => LoadIsAccounted(a, e);
        case Relaunch(_, _, _) => RelaunchIsAccounted(a, e);
        case Raise(s) => RaiseIsAccounted(a, s);
        case Close(ignoreCleanResource) => CloseIsAccounted(a, ignoreCleanResource);
      }
    }
  }

  /**
   Every crash mark that is taken back, and every wish for a reload, is answered by exactly one
   call of Reload or ReloadDefaultPage; the window code makes no other.
   */
  lemma ReloadsAreOwed(a: App, e: AppEvent)
    ensures var b := StepApp(a, e);
            b.page.reloads == a.page.reloads + OwedReloads(a, b) + if e == OnPageOnly(Event.Reload) then 1 else 0
  {
    hide StepApp, RequestAfter, OwedReloads;
    StepIsAccounted(a, e);
  }

  lemma LoadFacts(a: App, isErrorPage: bool, opensWindow: bool, hosted: Hosted, s: Surroundings)
    ensures var b := a.LoadFinished(isErrorPage, opensWindow, hosted, s);
            && b.page.closing == a.page.closing && b.keepAlive == a.keepAlive && b.hidden == a.hidden
            && b.page.errors.shown == (if a.page.closing.cleaning then a.page.errors.shown else isErrorPage)
            && b.page.reloads == a.page.reloads + OwedReloads(a, b)
            && (b.pendingParams, b.pendingLauncher) ==
               if a.page.closing.cleaning || a.hidden || a.needReload
               then (a.pendingParams, a.pendingLauncher)
               else ("", "")
  {
    hide App.WebPageLoadFinished, Pages.Step;
    AppLoadFacts(a, opensWindow, hosted, s);
    var b := if a.page.closing.cleaning then a else a.WebPageLoadFinished(opensWindow, hosted, s);
    OtherPageFacts(b, Event.LoadFinished(isErrorPage));
    PageFacts(b.page, Event.LoadFinished(isErrorPage));
    LoadKeepsClosing(b.page, isErrorPage);
  }

  lemma LoadKeepsClosing(p: Page, isErrorPage: bool)
    ensures Pages.Step(p, Event.LoadFinished(isErrorPage)).closing == p.closing
  {
  }

  // ---- a relaunch that came too early ----

  /**
   A request is kept exactly when the page does not take it. It is forgotten exactly at the end
   of a load of a shown app that need not reload, whether or not the page takes it then.
   */
  lemma RequestIsKept(a: App, e: AppEvent)
    ensures (StepApp(a, e).pendingParams, StepApp(a, e).pendingLauncher) == RequestAfter(a, e)
  {
    hide StepApp, RequestAfter, OwedReloads;
    StepIsAccounted(a, e);
  }

  /** Where the parameters of a kept request go when it is tried. */
  lemma PendingRelaunchReachesPage(a: App, hosted: Hosted, s: Surroundings)
    requires a.HasPending() && !a.hidden && !a.needReload
    ensures a.WebPageLoadFinished(false, hosted, s).page.launchParams ==
            if a.page.activity.hasBeenShown || hosted != NotHosted then a.pendingParams else a.page.launchParams
  {
    hide App.OnPage, App.Relaunch;
    RelaunchFacts(a, Request(a.pendingParams, false, hosted), a.pendingLauncher, s);
    PageRelaunchFacts(a, Request(a.pendingParams, false, hosted));
  }

  /** Only a relaunch takes the hidden flag back: nothing else shows a window that is marked as hidden. */
  lemma HiddenStaysHidden(a: App, e: AppEvent)
    requires a.hidden && !e.Relaunch?
    ensures StepApp(a, e).hidden
  {
    hide StepApp, RequestAfter, OwedReloads;
    StepIsAccounted(a, e);
  }

  /** A hidden app keeps its request, and stays marked as hidden, in every run until it is relaunched. */
  lemma {:induction false} HiddenAppKeepsRequest(a: App, events: seq<AppEvent>)
    requires a.hidden && forall e :: e in events ==> !e.Relaunch?
    ensures var b := RunApp(a, events);
            b.hidden && b.pendingParams == a.pendingParams && b.pendingLauncher == a.pendingLauncher
  {
    hide StepApp;
    if events != [] {
      var init, e := events[..|events| - 1], events[|events| - 1];
      HiddenAppKeepsRequest(a, init);
      RequestIsKept(RunApp(a, init), e);
      HiddenStaysHidden(RunApp(a, init), e);
    }
  }

  /**
   An app that was paused and that the compositor brings back is awake and visible, but still
   marked as hidden; so a kept request is not tried, in any run, until the next relaunch.
   */
  lemma RestoredAppKeepsRequest(a: App, events: seq<AppEvent>)
    requires InStep(a) && a.page.config.stopsJs && !a.page.closing.isClosing && !a.page.errors.shown
    requires forall e :: e in events ==> !e.Relaunch?
    ensures var b := StepApp(StepApp(a, Pause), StateChanged(Active));
            && !b.page.activity.isSuspended && b.page.activity.view.visible
            && RunApp(b, events).hidden
            && RunApp(b, events).pendingParams == a.pendingParams
            && RunApp(b, events).pendingLauncher == a.pendingLauncher
  {
    hide App.OnPage, App.OnStageActivated, App.OnStageDeactivated, Safe;
    var paused := StepApp(a, Pause);
    DeactivatedFacts(a);
    StepAppInStep(a, Pause);
    ActivatedFacts(paused);
    ActivatedUp(paused);
    ActivatedAwake(paused);
    var b := StepApp(paused, StateChanged(Active));
    HiddenAppKeepsRequest(b, events);
  }

  lemma ActivatedAwake(a: App)
    requires InStep(a) && a.page.config.stopsJs
    ensures !a.OnStageActivated().page.activity.isSuspended
  {
    hide Pages.Step, Safe;
    PageStepFacts(a.page, Event.Reload);
    PageStepFacts(a.ReloadIfCrashed().page, Event.ResumeAll);
  }
}
