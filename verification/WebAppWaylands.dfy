/** WebAppWayland with its base class: the app object whose methods take the steps of module AppWindows. */
module WebAppWaylands {
  import opened Timers
  import opened Pages
  import opened WebPageBlinks
  import opened AppWindows
  import opened WindowSteps

  lemma RelaunchIs(a: App, request: Request, launcher: string, s: Surroundings)
    ensures StepApp(a, AppEvent.Relaunch(request, launcher, s)) == a.Relaunch(request, launcher, s)
    ensures InStep(a) ==> InStep(a.Relaunch(request, launcher, s))
  {
    if InStep(a) {
      RelaunchInStep(a, request, launcher, s);
    }
  }

  lemma FrameIs(a: App, usePrerendering: bool)
    ensures StepApp(a, AppEvent.FirstFrame(usePrerendering)) == a.FirstFrameCommitted(usePrerendering)
    ensures InStep(a) ==> InStep(a.FirstFrameCommitted(usePrerendering))
  {
    if InStep(a) {
      FrameInStep(a, AppEvent.FirstFrame(usePrerendering));
    }
  }

  lemma LoadIs(a: App, isErrorPage: bool, opensWindow: bool, hosted: Hosted, s: Surroundings)
    ensures StepApp(a, AppEvent.LoadFinished(isErrorPage, opensWindow, hosted, s)) ==
            a.LoadFinished(isErrorPage, opensWindow, hosted, s)
    ensures InStep(a) ==> InStep(a.LoadFinished(isErrorPage, opensWindow, hosted, s))
  {
    if InStep(a) {
      LoadFinishedInStep(a, isErrorPage, opensWindow, hosted, s);
    }
  }

  lemma LaunchedIs(config: Config, nextSource: nat, keepAlive: bool, launchedHidden: bool, reload: bool, kind: Preload)
    ensures var a := App(Fresh(config, nextSource), launchedHidden, NoPreload, false, keepAlive, false, false,
                         reload, "", "");
            Launched(config, nextSource, keepAlive, launchedHidden, reload, kind) == a.SetPreload(kind)
  {
    hide Pages.Step;
  }

  lemma StateChangedIs(a: App, state: WindowState)
    ensures StepApp(a, AppEvent.StateChanged(state)) ==
            if a.page.closing.isClosing then a
            else match state case Active => a.OnStageActivated()
                             case Minimized => a.OnStageDeactivated()
                             case OtherState => a
  {
    hide App.OnStageActivated, App.OnStageDeactivated;
  }

  lemma CrashIs(a: App, minimized: bool)
    ensures StepApp(a, AppEvent.RendererCrashed(minimized)) == a.RendererCrashed(minimized)
    ensures InStep(a) ==> InStep(a.RendererCrashed(minimized))
  {
    hide Pages.Step, Safe;
    if InStep(a) {
      StepAppInStep(a, AppEvent.RendererCrashed(minimized));
    }
  }

  class WebAppWayland {
    const page: WebPageBlink

    var hiddenWindow: bool
    var preloadState: Preload
    var crashed: bool
    var keepAlive: bool
    var addedToWindowMgr: bool
    var didActivateStage: bool
    var needReload: bool
    var inProgressRelaunchParams: string
    var inProgressRelaunchLauncher: string

    ghost function Parts(): set<object> {
      {this, page, page.loop, page.domSuspendTimer, page.closeCallbackTimer, page.netErrorReloadTimer}
    }

    ghost predicate Whole()
      reads Parts()
    {
      page.Valid()
    }

    /** Window and page are in step, in the sense of module AppWindows. */
    ghost predicate Valid()
      reads Parts()
    {
      Whole() && InStep(State())
    }

    ghost function State(): App
      reads Parts()
    {
      App(page.State(), hiddenWindow, preloadState, crashed, keepAlive, addedToWindowMgr, didActivateStage, needReload,
          inProgressRelaunchParams, inProgressRelaunchLauncher)
    }

    /** SetAppProperties, Attach and SetPreloadState, as OnLaunchUrl calls them. */
    constructor (config: Config, loop: MainLoop, properties: (bool, bool), reload: bool, kind: Preload)
      requires loop.nextId > 0
      ensures Valid()
      ensures State() == Launched(config, loop.nextId, properties.0, properties.1, reload, kind)
      ensures hiddenWindow == (properties.1 || kind != NoPreload) && preloadState == kind
      ensures keepAlive == properties.0 && needReload == reload && !crashed && !addedToWindowMgr
      ensures !page.view.visible && !page.isSuspended && !page.suspendAtLoad && !page.hasBeenShown
    {
      hide Launched, App.SetPreload, InStep, Safe, Fresh, WebPageBlink.Shape;
      page := new WebPageBlink(config, loop);
      hiddenWindow, keepAlive, needReload := properties.1, properties.0, reload;
      preloadState, crashed, addedToWindowMgr := NoPreload, false, false;
      didActivateStage, inProgressRelaunchParams, inProgressRelaunchLauncher := false, "", "";
      new;
      assert State() ==
             App(Fresh(config, loop.nextId), properties.1, NoPreload, false, properties.0, false, false, reload,
                 "", "");
      LaunchedInStep(config, loop.nextId, properties.0, properties.1, reload, kind);
      LaunchedIs(config, loop.nextId, properties.0, properties.1, reload, kind);
      SetPreloadState(kind);
      LaunchedLooks(config, loop.nextId, properties.0, properties.1, reload, kind);
    }

    method SetPreloadState(kind: Preload)
      requires Whole()
      modifies this, page
      ensures Whole() && State() == old(State().SetPreload(kind))
    {
      hide Pages.Step, Safe;
      preloadState := kind;
      if preloadState != NoPreload {
        hiddenWindow := true;
      }
      if preloadState == SemiFull || preloadState == Partial {
        page.SuspendWebPageMedia();
      }
    }

    method OnStageActivated()
      requires Whole()
      modifies Parts()
      ensures Whole() && State() == old(State().OnStageActivated())
      ensures old(Consistent(State())) ==> Valid()
      ensures page.view.visible && !page.view.mediaSuspended && !crashed
    {
      hide InStep, Pages.Step, Safe;
      if Consistent(State()) {
        ActivatedInStep(State());
      }
      ReloadIfCrashed();
      page.ResumeWebPageAll();
    }

    method ReloadIfCrashed()
      requires Whole()
      modifies Parts()
      ensures Whole() && State() == old(State().ReloadIfCrashed())
    {
      if crashed {
        page.Reload();
        crashed := false;
      }
    }

    method OnStageDeactivated()
      requires Whole()
      modifies Parts()
      ensures Whole() && State() == old(State().OnStageDeactivated())
      ensures old(Consistent(State())) ==> Valid()
      ensures hiddenWindow && !page.view.visible
    {
      hide InStep, Safe;
      if Consistent(State()) {
        DeactivatedInStep(State());
      }
      page.SuspendWebPageMedia();
      page.SuspendWebPageAll();
      hiddenWindow := true;
      didActivateStage := false;
    }

    method Hide(forced: bool)
      requires Whole()
      modifies Parts()
      ensures Whole() && State() == old(State().Hide(forced))
    {
      if keepAlive || forced {
        OnStageDeactivated();
        hiddenWindow := true;
      }
    }

    method HideWindow() returns (done: bool)
      requires Whole()
      modifies Parts()
      ensures Whole() && State() == old(State().HideWindow())
      ensures done == !old(State()).page.errors.shown
    {
      if page.isLoadErrorPageFinish {
        return false;
      }
      Hide(true);
      addedToWindowMgr := false;
      return true;
    }

    method ShowWindow()
      requires Whole()
      modifies Parts()
      ensures Whole() && State() == old(State().ShowWindow())
    {
      hide App.OnStageActivated, InStep, Safe;
      if preloadState != NoPreload {
        return;
      }
      hiddenWindow := false;
      OnStageActivated();
      addedToWindowMgr := true;
    }

    method ClearPreloadState()
      requires Whole()
      modifies Parts()
      ensures Whole() && State() == old(State().ClearPreload())
    {
      match preloadState {
        case SemiFull => page.ResumeWebPageMedia();
        case Partial => page.ResumeWebPageMedia();
        case _ =>
      }
      preloadState := NoPreload;
    }

    method MarkAsShown()
      requires Whole()
      modifies Parts()
      ensures Whole() && State() == old(State().OnPage(Event.FirstFrame))
    {
      hide Pages.Step, Safe;
      page.LoadVisuallyCommitted();
    }

    method FirstFrameVisuallyCommitted(usePrerendering: bool)
      requires Valid()
      modifies Parts()
      ensures Valid() && State() == StepApp(old(State()), AppEvent.FirstFrame(usePrerendering))
    {
      hide StepApp, App.ShowWindow, App.OnPage, InStep, Safe;
      FrameIs(State(), usePrerendering);
      OnPageIsOnlyPage(State(), Event.FirstFrame);
      MarkAsShown();
      if !hiddenWindow && preloadState == NoPreload {
        if usePrerendering {
          didActivateStage := false;
        }
        ShowWindow();
      }
    }

    method DidSwapPageCompositorFrame()
      requires Valid()
      modifies Parts()
      ensures Valid() && State() == StepApp(old(State()), AppEvent.SwapFrame)
    {
      StepAppInStep(State(), AppEvent.SwapFrame);
      if !didActivateStage && !hiddenWindow && preloadState == NoPreload {
        OnStageActivated();
        didActivateStage := true;
      }
    }

    method Raise(surroundings: Surroundings)
      requires Whole()
      modifies Parts()
      ensures Whole() && State() == old(State().Raise(surroundings))
      ensures old(InStep(State())) ==> Valid()
    {
      hide InStep, Safe, App.OnStageActivated, Pages.Step;
      if InStep(State()) {
        RaiseInStep(State(), surroundings);
      }
      var wasMinimized := surroundings.isMinimized;
      if surroundings.isOverlay || (keepAlive && !wasMinimized) {
        OnStageActivated();
      }
      if wasMinimized {
        page.ResumeWebPageAll();
      }
    }

    /** The first half of Relaunch. */
    method Unhide()
      requires Whole()
      modifies Parts()
      ensures Whole() && State() == old(State().Unhide())
    {
      hide App.ClearPreload, App.ShowWindow, Safe;
      if hiddenWindow {
        var loaded := page.view.progress == 100;
        var shown := page.hasBeenShown;
        ClearFacts(State().(hidden := false));
        LeavePreloading(loaded);
        if addedToWindowMgr || (loaded && shown) {
          ShowWindow();
        }
      }
    }

    /** Out of hiding and preloading; a kept-alive window that is not loaded has to be added again. */
    method LeavePreloading(loaded: bool)
      requires Whole()
      modifies Parts()
      ensures Whole()
      ensures State() == old(var a := State().(hidden := false).ClearPreload();
                             if keepAlive && !loaded then a.(inWindowMgr := false) else a)
    {
      hide App.ClearPreload, Safe;
      ClearFacts(State().(hidden := false));
      hiddenWindow := false;
      ClearPreloadState();
      if keepAlive && !loaded {
        addedToWindowMgr := false;
      }
    }

    method Relaunch(request: Request, launcher: string, surroundings: Surroundings)
      requires Valid()
      modifies Parts()
      ensures Valid() && State() == StepApp(old(State()), AppEvent.Relaunch(request, launcher, surroundings))
    {
      hide StepApp, App.Unhide, App.Raise, App.ReloadIfCrashed, App.OnPage, InStep, Safe;
      RelaunchIs(State(), request, launcher, surroundings);
      var done := TryRelaunch(request);
      if !done {
        inProgressRelaunchParams := request.params;
        inProgressRelaunchLauncher := launcher;
        return;
      }
      if !surroundings.handlesRelaunch {
        Raise(surroundings);
      }
    }

    /** Everything in Relaunch that does not depend on the request. */
    method ComeUp()
      requires Whole()
      modifies Parts()
      ensures Whole() && State() == old(State().Unhide().ReloadIfCrashed())
    {
      hide App.Unhide, App.ReloadIfCrashed, Safe;
      Unhide();
      ReloadIfCrashed();
    }

    method TryRelaunch(request: Request) returns (done: bool)
      requires Whole()
      modifies Parts()
      ensures Whole() && State() == old(State().Unhide().ReloadIfCrashed().OnPage(Event.Relaunch(request)))
      ensures done == old(State().Unhide().ReloadIfCrashed()).page.TakesRelaunch(request)
    {
      hide App.Unhide, App.ReloadIfCrashed, App.OnPage, Safe, Page.TakesRelaunch;
      ComeUp();
      done := RelaunchPage(request);
    }

    method RelaunchPage(request: Request) returns (done: bool)
      requires Whole()
      modifies Parts()
      ensures Whole() && State() == old(State().OnPage(Event.Relaunch(request)))
      ensures done == old(State()).page.TakesRelaunch(request)
    {
      hide Pages.Step, Safe;
      done := page.Relaunch(request);
    }

    method DoPendingRelaunch(opensWindow: bool, hosted: Hosted, surroundings: Surroundings)
      requires Valid()
      modifies Parts()
      ensures Valid() && State() == old(State().DoPendingRelaunch(opensWindow, hosted, surroundings))
    {
      hide App.Unhide, App.Raise, App.ReloadIfCrashed, App.OnPage, Pages.Step, Safe;
      if inProgressRelaunchLauncher != "" || inProgressRelaunchParams != "" {
        Relaunch(Request(inProgressRelaunchParams, opensWindow, hosted), inProgressRelaunchLauncher, surroundings);
        inProgressRelaunchParams := "";
        inProgressRelaunchLauncher := "";
      }
    }

    method WebPageLoadFinished(opensWindow: bool, hosted: Hosted, surroundings: Surroundings)
      requires Valid()
      modifies Parts()
      ensures Valid() && State() == old(State().WebPageLoadFinished(opensWindow, hosted, surroundings))
    {
      hide App.DoPendingRelaunch, Safe;
      OnPageKeeps(State(), Event.Reload);
      if hiddenWindow {
        return;
      }
      if needReload {
        page.Reload();
        needReload := false;
        return;
      }
      DoPendingRelaunch(opensWindow, hosted, surroundings);
    }

    /** LoadFinished of the page together with its observer, this app. */
    method LoadFinished(isErrorPage: bool, opensWindow: bool, hosted: Hosted, surroundings: Surroundings)
      requires Valid()
      modifies Parts()
      ensures Valid()
      ensures State() == StepApp(old(State()), AppEvent.LoadFinished(isErrorPage, opensWindow, hosted, surroundings))
    {
      hide StepApp, App.WebPageLoadFinished, App.OnPage, InStep, Safe;
      LoadIs(State(), isErrorPage, opensWindow, hosted, surroundings);
      if !page.cleaningResources {
        WebPageLoadFinished(opensWindow, hosted, surroundings);
      }
      FinishPageLoad(isErrorPage);
    }

    method FinishPageLoad(isErrorPage: bool)
      requires Whole()
      modifies Parts()
      ensures Whole() && State() == old(State().OnPage(Event.LoadFinished(isErrorPage)))
    {
      hide Pages.Step, Safe;
      page.LoadFinished(isErrorPage);
    }

    method StateAboutToChange(willBe: WindowState)
      requires Valid()
      modifies Parts()
      ensures Valid()
      ensures State() == if willBe == Minimized then StepApp(old(State()), AboutToMinimize) else old(State())
    {
      StepAppInStep(State(), AboutToMinimize);
      if willBe == Minimized {
        page.SuspendWebPageMedia();
      }
    }

    method StateChanged(newState: WindowState)
      requires Valid()
      modifies Parts()
      ensures Valid() && State() == StepApp(old(State()), AppEvent.StateChanged(newState))
      ensures newState == Active && !old(page.isClosing) ==> page.view.visible && !page.view.mediaSuspended && !crashed
      ensures newState == Minimized && !old(page.isClosing) ==>
                && hiddenWindow && !didActivateStage && !page.view.visible
                && (!page.config.backgroundRun ==> page.isPaused && page.isSuspended)
                && (!page.config.backgroundRun && !old(page.isSuspended) ==>
                      && page.view.paintingSuspended && (!old(page.isPaused) ==> page.view.mediaSuspended)
                      && (page.config.stopsJs ==> page.domSuspendTimer.sourceId in page.domSuspendTimer.pending))
    {
      hide InStep, StepApp, Pages.Step, Safe;
      StepAppInStep(State(), AppEvent.StateChanged(newState));
      StateChangedIs(State(), newState);
      if newState == Minimized && !page.isClosing {
        IsSafe(State());
        DeactivationQuiets(State(), AppEvent.StateChanged(Minimized));
      }
      if page.isClosing {
        return;
      }
      match newState {
        case Active => OnStageActivated();
        case Minimized => OnStageDeactivated();
        case OtherState =>
      }
    }

    /** The part of RenderProcessCrashed and ProcessCrashed that concerns page and window. */
    method RendererCrashed(isMinimized: bool)
      requires Valid()
      modifies Parts()
      ensures Valid() && State() == StepApp(old(State()), AppEvent.RendererCrashed(isMinimized))
    {
      hide StepApp, Pages.Step, InStep, Safe;
      CrashIs(State(), isMinimized);
      page.RecreateWebView();
      if isMinimized {
        crashed := true;
      }
    }

    /** The part of CloseAppInternal that concerns page and window. */
    method Close(isOverlay: bool, ignoreCleanResource: bool)
      requires Valid()
      modifies Parts()
      ensures Valid() && State() == StepApp(old(State()), AppEvent.Close(ignoreCleanResource))
      ensures page.isClosing && hiddenWindow
      ensures !ignoreCleanResource ==> page.cleaningResources || page.closeCallbackTimer.pending != {}
    {
      hide Pages.Step, App.OnStageDeactivated, InStep, Safe;
      StepAppInStep(State(), AppEvent.Close(ignoreCleanResource));
      ClosedFacts(State(), ignoreCleanResource);
      Silence(isOverlay);
      if !ignoreCleanResource {
        Dispatch();
      }
    }

    method Silence(isOverlay: bool)
      requires Whole()
      modifies Parts()
      ensures Whole() && State() == old(State().OnPage(Event.SetClosing).OnStageDeactivated())
    {
      hide Pages.Step, App.OnStageDeactivated, InStep, Safe;
      page.SetClosing();
      DeactivatedFacts(State());
      if isOverlay {
        Hide(true);
      } else {
        OnStageDeactivated();
      }
    }

    /** The page's close callback if it registered one, its unload otherwise. */
    method Dispatch()
      requires Whole()
      modifies Parts()
      ensures Whole()
      ensures State() ==
              old(State().OnPage(if page.hasCloseCallback then Event.ExecuteCloseCallback else Event.CleanResources))
    {
      hide Pages.Step, Safe;
      if page.hasCloseCallback {
        page.ExecuteCloseCallback();
      } else {
        page.CleanResources();
      }
    }
  }
}
