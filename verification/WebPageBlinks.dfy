/** WebPageBlink and WebPageBase: the page object whose methods take the steps of module Pages. */
module WebPageBlinks {
  import opened Timers
  import opened Pages

  lemma LoadEndFacts(p: Page, isErrorPage: bool)
    requires Safe(p) && !p.closing.cleaning
    ensures var e := Step(p, Event.LoadFinished(isErrorPage)).errors;
            && (!isErrorPage ==>
                  e.trust == p.config.declaredTrust && !e.reloadTimer.running && e.reloadTimer.pending == {})
            && (isErrorPage ==> e.reloadTimer.running)
  {
    if !isErrorPage {
      OtherPageRevokesTrust(p);
    }
  }

  // ---- the stages of suspending a page ----

  function Covered(p: Page): Page {
    p.(activity := p.activity.(view := p.activity.view.(visible := false)))
  }

  function Unpainted(p: Page): Page {
    var q := Step(p, Event.SuspendMedia);
    q.(activity := q.activity.(view := q.activity.view.(paintingSuspended := true)))
  }

  function Marked(p: Page): Page {
    var t := p.activity.suspendTimer;
    p.(activity := p.activity.(isSuspended := true,
    suspendTimer := if p.config.stopsJs then t.Started(p.nextSource) else t),
    nextSource := if p.config.stopsJs then p.nextSource + 1 else p.nextSource)
  }

  lemma SuspendAllIs(p: Page)
    ensures var q := Step(p, Event.SuspendAll);
            if p.activity.isSuspended || p.config.backgroundRun then q == Covered(p)
            else if p.closing.isClosing then q == Unpainted(Covered(p))
            else q == Marked(Unpainted(Covered(p)))
  {
    hide TimerState.Started;
  }

  class WebPageBlink {
    const config: Config
    const loop: MainLoop
    const domSuspendTimer: Timer
    const closeCallbackTimer: Timer
    const netErrorReloadTimer: Timer

    var isPaused: bool
    var isSuspended: bool
    var suspendAtLoad: bool
    var hasBeenShown: bool
    var isClosing: bool
    var cleaningResources: bool
    var hasCloseCallback: bool
    var isLoadErrorPageFinish: bool
    var trustLevel: string
    var launchParams: string

    /** The browser view, as far as the calls on it show. */
    var view: Pages.View

    /** The calls of Reload and ReloadDefaultPage so far. */
    ghost var reloads: nat

    /** Three timers of its own on the same main loop. */
    ghost predicate Shape()
      reads this
    {
      && domSuspendTimer != closeCallbackTimer && closeCallbackTimer != netErrorReloadTimer
      && netErrorReloadTimer != domSuspendTimer
      && domSuspendTimer.loop == closeCallbackTimer.loop == netErrorReloadTimer.loop == loop
      && !domSuspendTimer.isRepeating && !closeCallbackTimer.isRepeating && netErrorReloadTimer.isRepeating
    }

    /** The object is in a state that is safe in the sense of module Pages. */
    ghost predicate Valid()
      reads this, loop, domSuspendTimer, closeCallbackTimer, netErrorReloadTimer
    {
      Shape() && Safe(State())
    }

    ghost function State(): Page
      reads this, loop, domSuspendTimer, closeCallbackTimer, netErrorReloadTimer
    {
      Page(config,
           Activity(view, isPaused, isSuspended, suspendAtLoad, hasBeenShown, domSuspendTimer.View()),
           ErrorState(isLoadErrorPageFinish, trustLevel, netErrorReloadTimer.View()),
           CloseState(isClosing, cleaningResources, hasCloseCallback, closeCallbackTimer.View()),
           launchParams, reloads, loop.nextId)
    }

    constructor (pageConfig: Config, mainLoop: MainLoop)
      requires mainLoop.nextId > 0
      ensures Valid() && loop == mainLoop && State() == Fresh(pageConfig, mainLoop.nextId)
      ensures fresh(domSuspendTimer) && fresh(closeCallbackTimer) && fresh(netErrorReloadTimer)
    {
      config, loop := pageConfig, mainLoop;
      domSuspendTimer := new Timer(false, mainLoop);
      closeCallbackTimer := new Timer(false, mainLoop);
      netErrorReloadTimer := new Timer(true, mainLoop);
      isPaused, isSuspended, suspendAtLoad, hasBeenShown := false, false, false, false;
      isClosing, cleaningResources, hasCloseCallback, isLoadErrorPageFinish := false, false, false, false;
      trustLevel, launchParams, view, reloads := pageConfig.declaredTrust, "", NEW_VIEW, 0;
      new;
      EveryRunIsSafe(pageConfig, mainLoop.nextId, []);
    }

    // ---- suspend and resume ----

    method SuspendWebPageMedia()
      requires Shape()
      modifies this`view, this`isPaused
      ensures State() == Step(old(State()), Event.SuspendMedia)
      ensures old(Valid()) ==> Valid()
      ensures isPaused || config.backgroundRun
    {
      hide Safe;
      if Safe(State()) {
        StepIsSafe(State(), Event.SuspendMedia);
      }
      if isPaused || config.backgroundRun {
        return;
      }
      view := view.(mediaSuspended := true);
      isPaused := true;
    }

    method ResumeWebPageMedia()
      requires Shape()
      modifies this`view, this`isPaused
      ensures State() == Step(old(State()), Event.ResumeMedia)
      ensures old(Valid()) ==> Valid()
      ensures !isPaused
    {
      hide Safe;
      if Safe(State()) {
        StepIsSafe(State(), Event.ResumeMedia);
      }
      if !isPaused {
        return;
      }
      view := view.(mediaSuspended := false);
      isPaused := false;
    }

    method SuspendWebPageAll()
      requires Valid()
      modifies this`view, this`isPaused, this`isSuspended, domSuspendTimer, loop
      ensures Valid() && State() == Step(old(State()), Event.SuspendAll)
      ensures !view.visible && (!config.backgroundRun && !isClosing ==> isSuspended)
      ensures !config.backgroundRun && !old(isSuspended) ==> view.paintingSuspended && isPaused
      ensures !config.backgroundRun && !old(isSuspended) && !isClosing && config.stopsJs ==>
                domSuspendTimer.isRunning && domSuspendTimer.sourceId in domSuspendTimer.pending
    {
      hide Safe, Step;
      StepIsSafe(State(), Event.SuspendAll);
      SuspendAllIs(State());
      ghost var before := State();
      view := view.(visible := false);
      assert State() == Covered(before);
      if isSuspended || config.backgroundRun {
        return;
      }
      SilenceView();
      if isClosing {
        return;
      }
      MarkSuspended();
    }

    /** The middle of SuspendWebPageAll. */
    method SilenceView()
      requires Shape()
      modifies this`view, this`isPaused
      ensures State() == Unpainted(old(State()))
      ensures view.visible == old(view.visible) && view.paintingSuspended && (isPaused || config.backgroundRun)
    {
      SuspendWebPageMedia();
      view := view.(paintingSuspended := true);
    }

    /** The end of SuspendWebPageAll: the DOM follows later, when the timer fires. */
    method MarkSuspended()
      requires Shape()
      modifies this`isSuspended, domSuspendTimer, loop
      ensures State() == Marked(old(State()))
      ensures isSuspended
      ensures config.stopsJs ==> domSuspendTimer.isRunning && domSuspendTimer.sourceId in domSuspendTimer.pending
    {
      isSuspended := true;
      if config.stopsJs {
        domSuspendTimer.Start();
      }
    }

    method ResumeWebPageAll()
      requires Valid()
      modifies this`view, this`isPaused, this`isSuspended, this`suspendAtLoad, domSuspendTimer
      ensures Valid() && State() == Step(old(State()), Event.ResumeAll)
      ensures view.visible && !view.mediaSuspended && (config.stopsJs ==> !view.domSuspended)
      ensures config.stopsJs && !isClosing ==> !view.paintingSuspended
    {
      ResumeAllResumes(State());
      hide Safe;
      StepIsSafe(State(), Event.ResumeAll);
      if config.stopsJs {
        ResumeWebPagePaintingAndJSExecution();
      }
      ResumeWebPageMedia();
      view := view.(visible := true);
    }

    method SuspendWebPagePaintingAndJSExecution()
      requires Shape()
      modifies this`view, this`suspendAtLoad, domSuspendTimer
      ensures State() == old(State().(activity := State().activity.SuspendPaintingAndJs(config)))
      ensures !domSuspendTimer.isRunning
      ensures isSuspended && !config.backgroundRun ==>
                if hasBeenShown || view.progress >= 100
                then view == old(view).(domSuspended := true, paintingSuspended := true)
                else view == old(view) && suspendAtLoad
      ensures !isSuspended || config.backgroundRun ==> view == old(view) && suspendAtLoad == old(suspendAtLoad)
    {
      if domSuspendTimer.isRunning {
        domSuspendTimer.Stop();
      }
      if config.backgroundRun {
        return;
      }
      if !isSuspended {
        return;
      }
      var isLoading := !hasBeenShown && view.progress < 100;
      if isLoading {
        suspendAtLoad := true;
      } else {
        view := view.(paintingSuspended := true);
        view := view.(domSuspended := true);
      }
    }

    method ResumeWebPagePaintingAndJSExecution()
      requires Shape()
      modifies this`view, this`isSuspended, this`suspendAtLoad, domSuspendTimer
      ensures State() == old(State().(activity := State().activity.ResumePaintingAndJs()))
    {
      suspendAtLoad := false;
      if isSuspended {
        if domSuspendTimer.isRunning {
          domSuspendTimer.Stop();
          view := view.(paintingSuspended := false);
        } else {
          view := view.(domSuspended := false);
          view := view.(paintingSuspended := false);
        }
        isSuspended := false;
      }
    }

    // ---- loading ----

    method DidStartNavigation()
      requires Valid()
      modifies this`hasCloseCallback, this`suspendAtLoad
      ensures Valid() && State() == Step(old(State()), Event.LoadStarted)
    {
      StepIsSafe(State(), Event.LoadStarted);
      hasCloseCallback := false;
      suspendAtLoad := true;
    }

    /** LoadFinished without its observers: they are told first, by the app. */
    method LoadFinished(isErrorPage: bool)
      requires Valid()
      modifies this`view, this`suspendAtLoad, this`isLoadErrorPageFinish, this`trustLevel
      modifies domSuspendTimer, netErrorReloadTimer, loop
      ensures Valid() && State() == Step(old(State()), Event.LoadFinished(isErrorPage))
      ensures !cleaningResources && !isErrorPage ==>
                trustLevel == config.declaredTrust && !netErrorReloadTimer.isRunning
                && netErrorReloadTimer.pending == {}
      ensures !cleaningResources && isErrorPage ==> netErrorReloadTimer.isRunning
    {
      if !cleaningResources {
        LoadEndFacts(State(), isErrorPage);
      }
      hide Safe, ErrorState.Update;
      StepIsSafe(State(), Event.LoadFinished(isErrorPage));
      if cleaningResources {
        return;
      }
      if suspendAtLoad {
        SuspendWebPagePaintingAndJSExecution();
      }
      UpdateIsLoadErrorPageFinish(isErrorPage);
    }

    method UpdateIsLoadErrorPageFinish(isErrorPage: bool)
      requires Shape()
      modifies this`isLoadErrorPageFinish, this`trustLevel, netErrorReloadTimer, loop
      ensures State() == old(State().(
                             errors := State().errors.Update(isErrorPage, config.declaredTrust, loop.nextId),
                             nextSource := if isErrorPage then loop.nextId + 1 else loop.nextId))
    {
      var wasErrorPage := isLoadErrorPageFinish;
      isLoadErrorPageFinish := isErrorPage;
      if isLoadErrorPageFinish {
        netErrorReloadTimer.Stop();
        netErrorReloadTimer.Start();
      } else if wasErrorPage && !isLoadErrorPageFinish {
        netErrorReloadTimer.Stop();
      }
      if trustLevel != TRUSTED && wasErrorPage != isLoadErrorPageFinish {
        if isLoadErrorPageFinish {
          trustLevel := TRUSTED;
        }
      } else {
        trustLevel := config.declaredTrust;
      }
    }

    method LoadProgressed(percent: nat)
      requires Valid()
      modifies this`view
      ensures Valid() && State() == Step(old(State()), Event.Progress(percent))
    {
      StepIsSafe(State(), Event.Progress(percent));
      view := view.(progress := percent);
    }

    method LoadVisuallyCommitted()
      requires Valid()
      modifies this`hasBeenShown
      ensures Valid() && State() == Step(old(State()), Event.FirstFrame)
    {
      StepIsSafe(State(), Event.FirstFrame);
      hasBeenShown := true;
    }

    /** ReloadDefaultPage and Reload. */
    method Reload()
      requires Valid()
      modifies this`reloads
      ensures Valid() && State() == Step(old(State()), Event.Reload)
    {
      StepIsSafe(State(), Event.Reload);
      reloads := reloads + 1;
    }

    // ---- relaunch ----

    method Relaunch(request: Request) returns (done: bool)
      requires Valid()
      modifies this`view, this`isSuspended, this`suspendAtLoad, this`launchParams, domSuspendTimer
      ensures done == old(State()).TakesRelaunch(request)
      ensures Valid() && State() == Step(old(State()), Event.Relaunch(request))
    {
      hide Safe;
      StepIsSafe(State(), Event.Relaunch(request));
      ResumeWebPagePaintingAndJSExecution();
      if request.opensWindow {
        return true;
      }
      if request.hosted != NotHosted {
        launchParams := request.params;
      }
      if request.hosted == Handled {
        return true;
      }
      if !hasBeenShown {
        return false;
      }
      launchParams := request.params;
      view := view.(visible := true);
      return true;
    }

    // ---- renderer crash and closing ----

    /** The trust level is reset by the observer's SetPageProperties. */
    method RecreateWebView()
      requires Valid()
      modifies this`view, this`isSuspended, this`trustLevel
      ensures Valid() && State() == Step(old(State()), Event.Recreate)
      ensures view == NEW_VIEW && !isSuspended && trustLevel == config.declaredTrust
    {
      StepIsSafe(State(), Event.Recreate);
      view := NEW_VIEW;
      trustLevel := config.declaredTrust;
      if isSuspended {
        isSuspended := false;
      }
    }

    method SetClosing()
      requires Valid()
      modifies this`isClosing
      ensures Valid() && State() == Step(old(State()), Event.SetClosing)
    {
      StepIsSafe(State(), Event.SetClosing);
      isClosing := true;
    }

    method CleanResources()
      requires Valid()
      modifies this`cleaningResources
      ensures Valid() && State() == Step(old(State()), Event.CleanResources)
    {
      StepIsSafe(State(), Event.CleanResources);
      cleaningResources := true;
    }

    method SetHasOnCloseCallback(registered: bool)
      requires Valid()
      modifies this`hasCloseCallback
      ensures Valid() && State() == Step(old(State()), Event.SetCloseCallback(registered))
    {
      StepIsSafe(State(), Event.SetCloseCallback(registered));
      hasCloseCallback := registered;
    }

    method ExecuteCloseCallback()
      requires Valid()
      modifies closeCallbackTimer, loop
      ensures Valid() && State() == Step(old(State()), Event.ExecuteCloseCallback)
      ensures closeCallbackTimer.isRunning && closeCallbackTimer.sourceId in closeCallbackTimer.pending
    {
      StepIsSafe(State(), Event.ExecuteCloseCallback);
      closeCallbackTimer.Start();
    }

    method DidRunCloseCallback()
      requires Valid()
      modifies closeCallbackTimer
      ensures Valid() && State() == Step(old(State()), Event.CloseCallbackDone)
    {
      StepIsSafe(State(), Event.CloseCallbackDone);
      closeCallbackTimer.Stop();
    }

    /** The closing half of RenderProcessCrashed. */
    method CrashedWhileClosing()
      requires Valid()
      modifies closeCallbackTimer
      ensures Valid() && State() == Step(old(State()), Event.CrashedWhileClosing)
    {
      StepIsSafe(State(), Event.CrashedWhileClosing);
      if closeCallbackTimer.isRunning {
        closeCallbackTimer.Stop();
      }
    }

    // ---- timer callbacks ----

    method DomSuspendTimerFires(id: nat)
      requires Valid() && id in domSuspendTimer.pending
      modifies this`view, this`suspendAtLoad, domSuspendTimer
      ensures Valid() && State() == Step(old(State()), Event.SuspendTimer(id))
      ensures isSuspended && !config.backgroundRun ==>
                if hasBeenShown || view.progress >= 100
                then view == old(view).(domSuspended := true, paintingSuspended := true)
                else view == old(view) && suspendAtLoad
      ensures !domSuspendTimer.isRunning && id !in domSuspendTimer.pending
    {
      hide Safe;
      StepIsSafe(State(), Event.SuspendTimer(id));
      domSuspendTimer.HandleCallback();
      SuspendWebPagePaintingAndJSExecution();
      domSuspendTimer.Returned(id);
    }

    method CloseCallbackTimerFires(id: nat)
      requires Valid() && id in closeCallbackTimer.pending
      modifies closeCallbackTimer
      ensures Valid() && State() == Step(old(State()), Event.CloseTimer(id))
      ensures !closeCallbackTimer.isRunning && id !in closeCallbackTimer.pending
    {
      StepIsSafe(State(), Event.CloseTimer(id));
      closeCallbackTimer.HandleCallback();
      closeCallbackTimer.Stop();
      closeCallbackTimer.Returned(id);
    }

    method NetErrorReloadTimerFires(id: nat)
      requires Valid() && id in netErrorReloadTimer.pending
      modifies netErrorReloadTimer
      ensures Valid() && State() == Step(old(State()), Event.ReloadTimer(id))
      ensures netErrorReloadTimer.isRunning && id in netErrorReloadTimer.pending
    {
      StepIsSafe(State(), Event.ReloadTimer(id));
      netErrorReloadTimer.HandleCallback();
      netErrorReloadTimer.Returned(id);
    }
  }
}
