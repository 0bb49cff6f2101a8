/**
 What a step does to the window of an app and to what one sees and hears of it: when it is
 hidden or shown, when it goes quiet and when it comes back.
 */
module WindowSteps {
  import opened Timers
  import opened Pages
  import opened PageSteps
  import opened AppWindows

  // ---- showing and hiding, apart from relaunches ----

  /** The first frame of a window that is to be shown, or the first one swapped on its stage. */
  predicate ShowsFrame(a: App, e: AppEvent) {
    && (e.FirstFrame? || (e.SwapFrame? && !a.didActivateStage))
    && !a.hidden && a.preload == NoPreload
  }

  /** By a frame, by the compositor, by a command, or by raising an overlay or a kept-alive app. */
  predicate Activates(a: App, e: AppEvent) {
    || ShowsFrame(a, e) || e.ResumeRendering?
    || (e.StateChanged? && e.state == Active && !a.page.closing.isClosing)
    || (e.Raise? && (e.surroundings.isOverlay || (a.keepAlive && !e.surroundings.isMinimized)))
  }

  /** The app comes up: its stage is activated, or it is raised out of a minimized window. */
  predicate ComesUp(a: App, e: AppEvent) {
    Activates(a, e) || (e.Raise? && e.surroundings.isMinimized)
  }

  predicate Deactivates(a: App, e: AppEvent) {
    || e.SuspendRendering? || e.Close? || (e.HideCommand? && a.keepAlive) || (e.Pause? && !a.page.errors.shown)
    || (e.StateChanged? && e.state == Minimized && !a.page.closing.isClosing)
  }

  /** The window and the visibility of its view after a step that is no relaunch and no end of a load. */
  predicate WindowFollows(a: App, e: AppEvent, b: App) {
    && b.page.activity.view.visible ==
       (ComesUp(a, e) || (a.page.activity.view.visible && !Deactivates(a, e) && !e.RendererCrashed?))
    && b.hidden == (a.hidden || Deactivates(a, e))
    && b.preload == a.preload
    && b.inWindowMgr ==
       ((e.FirstFrame? && ShowsFrame(a, e)) || (a.inWindowMgr && !(e.Pause? && Deactivates(a, e))))
    && b.didActivateStage ==
       ((e.SwapFrame? && ShowsFrame(a, e))
        || (a.didActivateStage && !Deactivates(a, e) && !(e.FirstFrame? && e.usePrerendering && ShowsFrame(a, e))))
    && b.crashed == ((a.crashed && !Activates(a, e)) || (e.RendererCrashed? && e.minimized))
    && b.keepAlive == if e.SetKeepAlive? then e.keepAlive else a.keepAlive
  }

  lemma PageVisible(a: App, e: Pages.Event)
    requires Safe(a.page)
    ensures var b := a.OnPage(e);
            && Safe(b.page) && b == a.(page := b.page)
            && b.page.activity.view.visible ==
               (Shows(a.page, e) || (a.page.activity.view.visible && !e.SuspendAll? && !e.Recreate?))
  {
    hide Pages.Step, Safe;
    StepIsSafe(a.page, e);
    SeenAndHeard(a.page, e);
  }

  lemma ActivatedWindow(a: App)
    requires Safe(a.page)
    ensures var b := a.OnStageActivated();
            Safe(b.page) && b.page.activity.view.visible && b == a.(page := b.page, crashed := false)
  {
    hide App.OnPage, Safe;
    PageVisible(a, Event.Reload);
    PageVisible(a.ReloadIfCrashed(), Event.ResumeAll);
  }

  lemma DeactivatedWindow(a: App)
    requires Safe(a.page)
    ensures var b := a.OnStageDeactivated();
            && Safe(b.page) && !b.page.activity.view.visible
            && b == a.(page := b.page, hidden := true, didActivateStage := false)
  {
    hide App.OnPage, Safe;
    PageVisible(a, Event.SuspendMedia);
    PageVisible(a.OnPage(Event.SuspendMedia), Event.SuspendAll);
  }

  lemma ClosedWindow(a: App, ignoreCleanResource: bool)
    requires Safe(a.page)
    ensures var b := a.Closed(ignoreCleanResource);
            && !b.page.activity.view.visible
            && b == a.(page := b.page, hidden := true, didActivateStage := false)
  {
    hide App.OnPage, App.OnStageDeactivated, Safe;
    PageVisible(a, Event.SetClosing);
    DeactivatedWindow(a.OnPage(Event.SetClosing));
    var b := a.OnPage(Event.SetClosing).OnStageDeactivated();
    PageVisible(b, Event.ExecuteCloseCallback);
    PageVisible(b, Event.CleanResources);
  }

  lemma SwapWindow(a: App)
    requires Safe(a.page)
    ensures WindowFollows(a, SwapFrame, StepApp(a, SwapFrame))
  {
    hide App.OnPage, App.OnStageActivated, Safe;
    ActivatedWindow(a);
  }

  lemma ShownWindow(a: App)
    requires Safe(a.page)
    ensures var b := a.ShowWindow();
            if a.preload != NoPreload then b == a
            else
              && b == a.(page := b.page, hidden := false, crashed := false, inWindowMgr := true)
              && b.page.activity.view.visible
  {
    hide App.OnStageActivated, Safe;
    ActivatedWindow(a.(hidden := false));
  }

  lemma FirstFrameWindow(a: App, usePrerendering: bool)
    requires Safe(a.page)
    ensures WindowFollows(a, AppEvent.FirstFrame(usePrerendering), StepApp(a, AppEvent.FirstFrame(usePrerendering)))
  {
    hide App.OnPage, App.ShowWindow, Safe;
    PageVisible(a, Event.FirstFrame);
    ShownWindow(a.OnPage(Event.FirstFrame).(didActivateStage := a.didActivateStage && !usePrerendering));
  }

  lemma RaiseWindow(a: App, e: AppEvent)
    requires Safe(a.page) && e.Raise?
    ensures WindowFollows(a, e, StepApp(a, e))
  {
    hide App.OnPage, App.OnStageActivated, Safe;
    ActivatedWindow(a);
    PageVisible(a, Event.ResumeAll);
    PageVisible(a.OnStageActivated(), Event.ResumeAll);
  }

  lemma StateWindow(a: App, e: AppEvent)
    requires Safe(a.page) && e.StateChanged?
    ensures WindowFollows(a, e, StepApp(a, e))
  {
    hide App.OnPage, App.OnStageActivated, App.OnStageDeactivated, Safe;
    ActivatedWindow(a);
    DeactivatedWindow(a);
  }

  lemma CommandWindow(a: App, e: AppEvent)
    requires Safe(a.page) && (e.Pause? || e.HideCommand? || e.SuspendRendering?)
    ensures WindowFollows(a, e, StepApp(a, e))
  {
    hide App.OnPage, App.OnStageDeactivated, Safe;
    DeactivatedWindow(a);
  }

  lemma MarkWindow(a: App, e: AppEvent)
    requires Safe(a.page) && (e.AboutToMinimize? || e.SetKeepAlive?)
    ensures WindowFollows(a, e, StepApp(a, e))
  {
    hide App.OnPage, Safe;
    PageVisible(a, Event.SuspendMedia);
  }

  lemma CrashWindow(a: App, e: AppEvent)
    requires Safe(a.page) && e.RendererCrashed?
    ensures WindowFollows(a, e, StepApp(a, e))
  {
    hide App.OnPage, Safe;
    PageVisible(a, Event.Recreate);
  }

  lemma ResumeWindow(a: App)
    requires Safe(a.page)
    ensures WindowFollows(a, ResumeRendering, StepApp(a, ResumeRendering))
  {
    hide App.OnStageActivated, Safe;
    ActivatedWindow(a);
  }

  /** The window after every step but a relaunch and the end of a load, exactly. */
  lemma StepTurnsWindow(a: App, e: AppEvent)
    requires Safe(a.page) && !e.Relaunch? && !e.LoadFinished?
    ensures WindowFollows(a, e, StepApp(a, e))
  {
    hide StepApp, WindowFollows, Safe;
    match e {
      case OnPageOnly(event) => PageWindow(a, event);
      case FirstFrame(usePrerendering) => FirstFrameWindow(a, usePrerendering);
      case SwapFrame => SwapWindow(a);
      case Raise(_) => RaiseWindow(a, e);
      case Close(ignoreCleanResource) => CloseWindow(a, ignoreCleanResource);
      case StateChanged(_) => StateWindow(a, e);
      case AboutToMinimize => MarkWindow(a, e);
      case RendererCrashed(_) => CrashWindow(a, e);
      case SetKeepAlive(_) => MarkWindow(a, e);
      case ResumeRendering => ResumeWindow(a);
      case _ => CommandWindow(a, e);
    }
  }

  lemma PageWindow(a: App, event: Pages.Event)
    requires Safe(a.page)
    ensures WindowFollows(a, OnPageOnly(event), StepApp(a, OnPageOnly(event)))
  {
    hide App.OnPage, Safe;
    PageVisible(a, event);
  }

  lemma CloseWindow(a: App, ignoreCleanResource: bool)
    requires Safe(a.page)
    ensures WindowFollows(a, Close(ignoreCleanResource), StepApp(a, Close(ignoreCleanResource)))
  {
    hide App.Closed, Safe;
    ClosedWindow(a, ignoreCleanResource);
  }

  // ---- relaunches ----

  predicate Takes(a: App, request: Request) {
    request.opensWindow || request.hosted.Handled? || a.page.activity.hasBeenShown
  }

  /** A hidden window is shown again: it stays with the window manager, or its page is loaded and was shown. */
  predicate Reappears(a: App) {
    var loaded := a.page.activity.view.progress == 100;
    a.hidden && ((a.inWindowMgr && (!a.keepAlive || loaded)) || (loaded && a.page.activity.hasBeenShown))
  }

  /** What a relaunch makes visible: the window, the page that takes the request, or the raised app. */
  predicate RelaunchShows(a: App, request: Request, s: Surroundings) {
    || Reappears(a)
    || (a.page.activity.hasBeenShown && !request.opensWindow && !request.hosted.Handled?)
    || (Takes(a, request) && !s.handlesRelaunch && (s.isOverlay || a.keepAlive || s.isMinimized))
  }

  lemma ClearedWindow(a: App)
    requires Safe(a.page)
    ensures var b := a.ClearPreload();
            && Safe(b.page) && b == a.(page := b.page, preload := NoPreload)
            && b.page.activity.view.visible == a.page.activity.view.visible
            && b.page.activity.hasBeenShown == a.page.activity.hasBeenShown
  {
    hide App.OnPage, Safe;
    PageVisible(a, Event.ResumeMedia);
    ActivityEventFacts(a, Event.ResumeMedia);
  }

  lemma UnhiddenWindow(a: App)
    requires Safe(a.page)
    ensures var b := a.Unhide();
            && Safe(b.page) && !b.hidden && b.preload == (if a.hidden then NoPreload else a.preload)
            && b.page.activity.view.visible == (Reappears(a) || a.page.activity.view.visible)
            && b.inWindowMgr == (if a.hidden then Reappears(a) else a.inWindowMgr)
            && b.page.activity.hasBeenShown == a.page.activity.hasBeenShown && b.keepAlive == a.keepAlive
  {
    hide App.ClearPreload, App.OnStageActivated, Safe;
    UnhideFacts(a);
    if a.hidden {
      var b := a.(hidden := false).ClearPreload();
      ClearedWindow(a.(hidden := false));
      var c := if a.keepAlive && a.page.activity.view.progress != 100 then b.(inWindowMgr := false) else b;
      ActivatedWindow(c);
    }
  }

  lemma RaisedWindow(a: App, s: Surroundings)
    requires Safe(a.page)
    ensures var b := a.Raise(s);
            && b.inWindowMgr == a.inWindowMgr
            && b.page.activity.view.visible ==
               (a.page.activity.view.visible || s.isOverlay || a.keepAlive || s.isMinimized)
  {
    hide App.Raise, Safe;
    RaiseWindow(a, Raise(s));
  }

  lemma RelaunchedWindow(a: App, request: Request, launcher: string, s: Surroundings)
    requires Safe(a.page)
    ensures var b := a.Relaunch(request, launcher, s);
            && b.page.activity.view.visible == (a.page.activity.view.visible || RelaunchShows(a, request, s))
            && b.inWindowMgr == (if a.hidden then Reappears(a) else a.inWindowMgr)
  {
    hide App.OnPage, App.Unhide, App.Raise, Reappears, Safe;
    var b := a.Unhide();
    var c := b.ReloadIfCrashed();
    var d := c.OnPage(Event.Relaunch(request));
    UnhiddenWindow(a);
    PageVisible(b, Event.Reload);
    ReloadFacts(b);
    PageVisible(c, Event.Relaunch(request));
    RaisedWindow(d, s);
  }

  /**
   A relaunch, exactly: it never covers the view, and shows it if the window reappears, or the page
   was shown before and takes the request itself, or the app is raised; a window that was hidden
   is with the window manager afterwards if and only if it reappears.
   */
  lemma RelaunchTurnsWindow(a: App, request: Request, launcher: string, s: Surroundings)
    requires Safe(a.page)
    ensures var b := StepApp(a, AppEvent.Relaunch(request, launcher, s));
            && !b.hidden && !b.crashed && b.keepAlive == a.keepAlive
            && b.preload == (if a.hidden then NoPreload else a.preload)
            && b.page.activity.view.visible == (a.page.activity.view.visible || RelaunchShows(a, request, s))
            && b.inWindowMgr == (if a.hidden then Reappears(a) else a.inWindowMgr)
            && b.didActivateStage == a.didActivateStage
  {
    hide App.Relaunch, RelaunchShows, Reappears, Safe;
    RelaunchedWindow(a, request, launcher, s);
    RelaunchFacts(a, request, launcher, s);
  }

  /** The end of a load tries a kept request once, and only for a shown app that need not load again. */
  predicate Retries(a: App) {
    && !a.page.closing.cleaning && !a.hidden && !a.needReload
    && (a.pendingParams != "" || a.pendingLauncher != "")
  }

  lemma LoadEndTurnsWindow(a: App, e: AppEvent)
    requires Safe(a.page) && e.LoadFinished?
    ensures var b := StepApp(a, e);
            && b.hidden == a.hidden && b.keepAlive == a.keepAlive && b.inWindowMgr == a.inWindowMgr
            && b.needReload == (a.needReload && (a.hidden || a.page.closing.cleaning))
            && b.page.activity.view.visible ==
               (a.page.activity.view.visible
                || (Retries(a) && RelaunchShows(a, Request(a.pendingParams, e.opensWindow, e.hosted), e.surroundings)))
  {
    hide StepApp, App.OnPage, App.WebPageLoadFinished, Retries, RelaunchShows, Safe;
    LoadEndIs(a, e);
    NotRetried(a);
    if a.page.closing.cleaning {
      LoadEndCoversNothing(a, e.isErrorPage);
    } else {
      ToldWindow(a, e.opensWindow, e.hosted, e.surroundings);
      LoadEndCoversNothing(a.WebPageLoadFinished(e.opensWindow, e.hosted, e.surroundings), e.isErrorPage);
    }
  }

  lemma LoadEndIs(a: App, e: AppEvent)
    requires e.LoadFinished?
    ensures var b := if a.page.closing.cleaning then a
                     else a.WebPageLoadFinished(e.opensWindow, e.hosted, e.surroundings);
            StepApp(a, e) == b.OnPage(Event.LoadFinished(e.isErrorPage))
  {
    hide App.OnPage, App.WebPageLoadFinished;
  }

  lemma LoadEndCoversNothing(a: App, isErrorPage: bool)
    requires Safe(a.page)
    ensures var b := a.OnPage(Event.LoadFinished(isErrorPage));
            b == a.(page := b.page) && b.page.activity.view.visible == a.page.activity.view.visible
  {
    hide App.OnPage, Safe;
    PageVisible(a, Event.LoadFinished(isErrorPage));
  }

  lemma NotRetried(a: App)
    ensures Retries(a) ==> !a.page.closing.cleaning
  {
  }

  /** What the app does when it is told of the end of the load. */
  lemma ToldWindow(a: App, opensWindow: bool, hosted: Hosted, s: Surroundings)
    requires Safe(a.page)
    ensures var b := a.WebPageLoadFinished(opensWindow, hosted, s);
            && Safe(b.page)
            && b.hidden == a.hidden && b.keepAlive == a.keepAlive && b.inWindowMgr == a.inWindowMgr
            && b.needReload == (a.needReload && a.hidden)
            && (!a.page.closing.cleaning ==>
                  b.page.activity.view.visible ==
                  (a.page.activity.view.visible
                   || (Retries(a) && RelaunchShows(a, Request(a.pendingParams, opensWindow, hosted), s))))
  {
    hide App.OnPage, App.Relaunch, RelaunchShows, Safe;
    var request := Request(a.pendingParams, opensWindow, hosted);
    RelaunchedWindow(a, request, a.pendingLauncher, s);
    RelaunchFacts(a, request, a.pendingLauncher, s);
    RelaunchInSafety(a, request, a.pendingLauncher, s);
    PageVisible(a, Event.Reload);
  }

  lemma RelaunchInSafety(a: App, request: Request, launcher: string, s: Surroundings)
    requires Safe(a.page)
    ensures Safe(a.Relaunch(request, launcher, s).page)
  {
    hide App.OnPage, App.Unhide, Safe, App.OnStageActivated;
    var b := a.Unhide();
    UnhiddenWindow(a);
    PageVisible(b, Event.Reload);
    var c := b.ReloadIfCrashed();
    PageVisible(c, Event.Relaunch(request));
    var d := c.OnPage(Event.Relaunch(request));
    ActivatedWindow(d);
    PageVisible(d, Event.ResumeAll);
    PageVisible(d.OnStageActivated(), Event.ResumeAll);
  }

  // ---- going quiet ----

  /** A page without its window: invisible, silent and unpainted, and suspended unless it is closing. */
  predicate GoesQuiet(p: Page, q: Page) {
    var a, b := p.activity, q.activity;
    && !b.view.visible && q.config == p.config
    && (p.config.backgroundRun ==> b == a.(view := a.view.(visible := false)))
    && (!p.config.backgroundRun ==>
          && b.isPaused && (b.view.mediaSuspended <==> !a.isPaused || a.view.mediaSuspended)
          && (b.view.paintingSuspended <==> !a.isSuspended || a.view.paintingSuspended)
          && (b.isSuspended <==> !p.closing.isClosing || a.isSuspended)
          && b.view.domSuspended == a.view.domSuspended)
    && (!p.config.backgroundRun && !a.isSuspended && !p.closing.isClosing && p.config.stopsJs ==>
          && b.suspendTimer.running && b.suspendTimer.sourceId == p.nextSource
          && p.nextSource in b.suspendTimer.pending)
  }

  lemma QuietPage(p: Page)
    requires Safe(p)
    ensures var q := Pages.Step(Pages.Step(p, Event.SuspendMedia), Event.SuspendAll); Safe(q) && GoesQuiet(p, q)
  {
    hide Pages.Step, Safe;
    var q := Pages.Step(p, Event.SuspendMedia);
    StepIsSafe(p, Event.SuspendMedia);
    StepTurns(p, Event.SuspendMedia);
    StepClosing(p, Event.SuspendMedia);
    StepErrors(p, Event.SuspendMedia);
    PausedAlready(p);
    StepActivity(q, Event.SuspendAll);
    StepIsSafe(q, Event.SuspendAll);
    StepTurns(q, Event.SuspendAll);
    SuspendAllCovers(q);
  }

  lemma PausedAlready(p: Page)
    ensures p.config.backgroundRun || p.activity.isPaused ==> Pages.Step(p, Event.SuspendMedia) == p
  {
  }

  /**
   An app that is not closing goes quiet whenever its stage is deactivated, by the compositor minimizing
   its window as well as by a command: it is hidden and invisible and, unless it may run in the
   background, paused and suspended; one that was not suspended is not painted any more, and a source
   is pending that will suspend its DOM.
   */
  lemma DeactivationQuiets(a: App, e: AppEvent)
    requires Safe(a.page) && Deactivates(a, e) && !e.Close?
    ensures var b := StepApp(a, e); b.hidden && !b.didActivateStage && Safe(b.page) && GoesQuiet(a.page, b.page)
  {
    hide Safe, GoesQuiet, App.OnStageDeactivated;
    QuietPage(a.page);
    DeactivatedIs(a);
    DeactivatedWindow(a);
  }

  /** A closing app goes quiet as well, but is not suspended: it still has its close callback or its unload to run. */
  lemma CloseQuiets(a: App, ignoreCleanResource: bool)
    requires Safe(a.page)
    ensures var v, b := a.page.activity, StepApp(a, Close(ignoreCleanResource));
            && b.hidden && b.page.closing.isClosing && !b.page.activity.view.visible
            && b.page.activity.isSuspended == v.isSuspended
            && (!a.page.config.backgroundRun ==>
                  && b.page.activity.isPaused
                  && (b.page.activity.view.mediaSuspended <==> !v.isPaused || v.view.mediaSuspended)
                  && (b.page.activity.view.paintingSuspended <==> !v.isSuspended || v.view.paintingSuspended))
  {
    hide Safe, App.OnStageDeactivated, App.OnPage;
    var b := a.OnPage(Event.SetClosing);
    MarkedClosing(a);
    QuietPage(b.page);
    DeactivatedIs(b);
    ClosedFacts(a, ignoreCleanResource);
    EndingKeepsActivity(b.OnStageDeactivated());
  }

  lemma MarkedClosing(a: App)
    requires Safe(a.page)
    ensures var b := a.OnPage(Event.SetClosing);
            && Safe(b.page) && b == a.(page := b.page) && b.page.closing.isClosing
            && b.page.activity == a.page.activity && b.page.config == a.page.config
  {
    hide Safe;
    StepIsSafe(a.page, Event.SetClosing);
  }

  lemma DeactivatedIs(a: App)
    ensures a.OnStageDeactivated().page == Pages.Step(Pages.Step(a.page, Event.SuspendMedia), Event.SuspendAll)
  {
    hide Pages.Step;
  }

  lemma EndingKeepsActivity(a: App)
    ensures a.OnPage(Event.ExecuteCloseCallback).page.activity == a.page.activity
    ensures a.OnPage(Event.CleanResources).page.activity == a.page.activity
  {
  }

  // ---- the way to a suspended DOM, over runs ----

  lemma PageSettles(a: App, e: Pages.Event, id: nat)
    requires Safe(a.page) && Settles(a.page, id) && !Wakes(e)
    ensures Safe(a.OnPage(e).page) && Settles(a.OnPage(e).page, id)
  {
    hide Safe, Settles;
    StepSettles(a.page, e, id);
  }

  lemma DeactivationSettles(a: App, id: nat)
    requires Safe(a.page) && Settles(a.page, id)
    ensures Safe(a.OnStageDeactivated().page) && Settles(a.OnStageDeactivated().page, id)
  {
    hide App.OnPage, Safe, Settles;
    PageSettles(a, Event.SuspendMedia, id);
    PageSettles(a.OnPage(Event.SuspendMedia), Event.SuspendAll, id);
  }

  lemma ClosingSettles(a: App, ignoreCleanResource: bool, id: nat)
    requires Safe(a.page) && Settles(a.page, id)
    ensures Settles(a.Closed(ignoreCleanResource).page, id)
  {
    hide App.OnPage, App.OnStageDeactivated, Safe, Settles;
    PageSettles(a, Event.SetClosing, id);
    DeactivationSettles(a.OnPage(Event.SetClosing), id);
    var b := a.OnPage(Event.SetClosing).OnStageDeactivated();
    PageSettles(b, Event.ExecuteCloseCallback, id);
    PageSettles(b, Event.CleanResources, id);
  }

  lemma StepAppSettles(a: App, e: AppEvent, id: nat)
    requires a.hidden && Safe(a.page) && Settles(a.page, id) && !WakesApp(a, e)
    ensures Settles(StepApp(a, e).page, id)
  {
    hide App.OnPage, App.OnStageActivated, App.OnStageDeactivated, App.Closed, Safe, Settles;
    DeactivationSettles(a, id);
    match e {
      case OnPageOnly(event) =>
        if PageOnly(event) {
          PageSettles(a, event, id);
        }
      case FirstFrame(_) => PageSettles(a, Event.FirstFrame, id);
      case LoadFinished(isErrorPage, _, _, _) => PageSettles(a, Event.LoadFinished(isErrorPage), id);
      case AboutToMinimize => PageSettles(a, Event.SuspendMedia, id);
      case Close(ignoreCleanResource) => ClosingSettles(a, ignoreCleanResource, id);
      case _ =>
    }
  }

  lemma {:induction false} RunAppSettles(a: App, events: seq<AppEvent>, id: nat)
    requires InStep(a) && a.hidden && Settles(a.page, id) && NothingWakes(a, events)
    ensures var b := RunApp(a, events); InStep(b) && b.hidden && Settles(b.page, id)
  {
    hide StepApp, WakesApp, InStep, Settles;
    if events != [] {
      var init, e := events[..|events| - 1], events[|events| - 1];
      var b := RunApp(a, init);
      assert forall i :: 0 <= i < |init| ==> init[..i] == events[..i];
      RunAppSettles(a, init, id);
      IsSafe(b);
      StepAppInStep(b, e);
      StepAppSettles(b, e, id);
      NoRelaunch(b, e);
      HiddenStaysHidden(b, e);
    }
  }

  lemma IsSafe(a: App)
    requires InStep(a)
    ensures Safe(a.page)
  {
  }

  lemma NoRelaunch(a: App, e: AppEvent)
    requires !WakesApp(a, e)
    ensures !e.Relaunch?
  {
  }

  /**
   An awake app whose stage is deactivated, and which nothing wakes afterwards, in every run: it stays
   hidden and suspended, and its DOM is suspended too, or waits for the end of a load or for the source
   that was started then; when that source fires, the DOM of a page that was shown or is loaded is suspended.
   */
  lemma DeactivatedAppSettles(a: App, e: AppEvent, events: seq<AppEvent>)
    requires InStep(a) && Deactivates(a, e) && !e.Close? && !a.page.closing.isClosing
    requires !a.page.activity.isSuspended && a.page.config.stopsJs && !a.page.config.backgroundRun
    requires NothingWakes(StepApp(a, e), events)
    ensures var id, b := a.page.nextSource, RunApp(StepApp(a, e), events);
            && b.hidden && Settles(b.page, id)
            && (id in b.page.activity.suspendTimer.pending
                && (b.page.activity.hasBeenShown || b.page.activity.view.progress >= 100) ==>
                  StepApp(b, OnPageOnly(Event.SuspendTimer(id))).page.activity.view.domSuspended)
  {
    hide StepApp, InStep, NothingWakes, RunApp, Pages.Step;
    var id, b := a.page.nextSource, RunApp(StepApp(a, e), events);
    IsSafe(a);
    StepAppInStep(a, e);
    DeactivationQuiets(a, e);
    RunAppSettles(StepApp(a, e), events, id);
    IsSafe(b);
    FiredIs(b, id);
    if id in b.page.activity.suspendTimer.pending {
      SuspendTimerDecides(b.page, id);
    }
  }

  lemma FiredIs(a: App, id: nat)
    ensures StepApp(a, OnPageOnly(Event.SuspendTimer(id))).page == Pages.Step(a.page, Event.SuspendTimer(id))
  {
    hide Pages.Step;
  }

  /** A minimized app, in the compositor's words: what one sees and hears of it, at once and in every run. */
  lemma MinimizedAppIsSuspended(a: App, events: seq<AppEvent>)
    requires InStep(a) && !a.page.closing.isClosing
    requires !a.page.activity.isSuspended && a.page.config.stopsJs && !a.page.config.backgroundRun
    requires NothingWakes(StepApp(a, StateChanged(Minimized)), events)
    ensures var b := StepApp(a, StateChanged(Minimized));
            && b.hidden && !b.page.activity.view.visible && b.page.activity.view.paintingSuspended
            && b.page.activity.isPaused && b.page.activity.isSuspended
            && (!a.page.activity.isPaused ==> b.page.activity.view.mediaSuspended)
            && a.page.nextSource in b.page.activity.suspendTimer.pending
    ensures var b := RunApp(StepApp(a, StateChanged(Minimized)), events);
            b.hidden && b.page.activity.isSuspended && Settles(b.page, a.page.nextSource)
  {
    hide StepApp, InStep, NothingWakes, RunApp, Pages.Step, Safe;
    IsSafe(a);
    DeactivationQuiets(a, StateChanged(Minimized));
    DeactivatedAppSettles(a, StateChanged(Minimized), events);
  }

  // ---- coming back ----

  lemma ActivatedAwakes(a: App)
    requires Safe(a.page)
    ensures var v := a.OnStageActivated().page.activity; IsAwake(v, a.page)
    ensures Safe(a.OnStageActivated().page) && a.OnStageActivated().page.closing == a.page.closing
    ensures a.OnStageActivated().page.config == a.page.config
  {
    hide Pages.Step, Safe;
    var b := a.ReloadIfCrashed();
    ReloadFacts(a);
    PageVisible(a, Event.Reload);
    StepIsSafe(b.page, Event.ResumeAll);
    ResumeAllResumes(b.page);
    ActivityEventFacts(b, Event.ResumeAll);
  }

  /** Seen and heard and, if its class ever stops JavaScript, running; painted unless it is closing. */
  predicate IsAwake(b: Pages.Activity, p: Page) {
    && b.view.visible && !b.view.mediaSuspended && !b.isPaused
    && (p.config.stopsJs ==> !b.isSuspended && !b.view.domSuspended)
    && (p.config.stopsJs && !p.closing.isClosing ==> !b.view.paintingSuspended)
  }

  /** Whatever activates the stage brings the page back: view, media, DOM and painting. */
  lemma ActivationAwakes(a: App, e: AppEvent)
    requires Safe(a.page) && ComesUp(a, e)
    ensures IsAwake(StepApp(a, e).page.activity, a.page)
  {
    hide App.OnPage, App.OnStageActivated, Safe, IsAwake;
    ActivatedAwakes(a);
    ResumedAwakes(a);
    ResumedAwakes(a.OnStageActivated());
    SamePage(a.OnStageActivated().OnPage(Event.ResumeAll).page.activity, a.OnStageActivated().page, a.page);
    var b := a.OnPage(Event.FirstFrame);
    if e.FirstFrame? {
      PageVisible(a, Event.FirstFrame);
      FrameKeepsConfig(a);
      ActivatedAwakes(b.(didActivateStage := b.didActivateStage && !e.usePrerendering, hidden := false));
      SamePage(StepApp(a, e).page.activity, b.page, a.page);
    }
  }

  lemma SamePage(v: Pages.Activity, p: Page, q: Page)
    requires p.config == q.config && p.closing == q.closing
    ensures IsAwake(v, p) <==> IsAwake(v, q)
  {
  }

  lemma FrameKeepsConfig(a: App)
    ensures var b := a.OnPage(Event.FirstFrame); b.page.config == a.page.config && b.page.closing == a.page.closing
  {
  }

  lemma ResumedAwakes(a: App)
    requires Safe(a.page)
    ensures IsAwake(a.OnPage(Event.ResumeAll).page.activity, a.page)
  {
    hide Pages.Step, Safe;
    ResumeAllResumes(a.page);
  }

  // ---- what a relaunch lets sound again ----

  /** The media of the page go on: neither marked as paused nor paused. */
  predicate Plays(a: App) {
    !a.page.activity.isPaused && !a.page.activity.view.mediaSuspended
  }

  predicate SameSound(a: App, b: App) {
    && b.page.activity.isPaused == a.page.activity.isPaused
    && b.page.activity.view.mediaSuspended == a.page.activity.view.mediaSuspended
  }

  /** A relaunch ends the pause of a preloaded app, and of one that reappears or is raised. */
  predicate RelaunchPlays(a: App, request: Request, s: Surroundings) {
    || (a.hidden && (a.preload == SemiFull || a.preload == Partial)) || Reappears(a)
    || (Takes(a, request) && !s.handlesRelaunch && (s.isOverlay || a.keepAlive || s.isMinimized))
  }

  lemma ActivatedPlays(a: App)
    requires Safe(a.page)
    ensures Safe(a.OnStageActivated().page) && Plays(a.OnStageActivated())
  {
    hide Safe, App.OnStageActivated;
    ActivatedAwakes(a);
  }

  lemma ResumedPlays(a: App, e: Pages.Event)
    requires Safe(a.page) && (e.ResumeMedia? || e.ResumeAll?)
    ensures Safe(a.OnPage(e).page) && Plays(a.OnPage(e))
  {
    hide Safe, Pages.Step, IdsInOrder, ErrorPageOnly;
    PageVisible(a, e);
    SeenAndHeard(a.page, e);
    PausedIsMarked(a.page);
  }

  lemma PausedIsMarked(p: Page)
    requires Safe(p)
    ensures p.activity.view.mediaSuspended ==> p.activity.isPaused
  {
  }

  lemma SameSoundOnPage(a: App, e: Pages.Event)
    requires Safe(a.page) && (e.Reload? || e.Relaunch?)
    ensures Safe(a.OnPage(e).page) && SameSound(a, a.OnPage(e))
  {
    hide Safe, Pages.Step;
    PageVisible(a, e);
    SeenAndHeard(a.page, e);
  }

  lemma UnhiddenPlays(a: App)
    requires Safe(a.page)
    ensures var b := a.Unhide();
            && Safe(b.page)
            && if (a.hidden && (a.preload == SemiFull || a.preload == Partial)) || Reappears(a) then Plays(b)
               else SameSound(a, b)
  {
    hide App.OnPage, App.OnStageActivated, Safe;
    if a.hidden {
      var b := a.(hidden := false).ClearPreload();
      ClearedWindow(a.(hidden := false));
      ResumedPlays(a.(hidden := false), Event.ResumeMedia);
      var c := if a.keepAlive && a.page.activity.view.progress != 100 then b.(inWindowMgr := false) else b;
      ActivatedPlays(c.(hidden := false));
    }
  }

  lemma RaisedPlays(a: App, s: Surroundings)
    requires Safe(a.page)
    ensures if s.isOverlay || a.keepAlive || s.isMinimized then Plays(a.Raise(s)) else SameSound(a, a.Raise(s))
  {
    hide App.OnPage, App.OnStageActivated, Safe;
    ActivatedPlays(a);
    ResumedPlays(a, Event.ResumeAll);
    ResumedPlays(a.OnStageActivated(), Event.ResumeAll);
  }

  /** A relaunch lets the media go on exactly for these reasons, and otherwise leaves them as they are. */
  lemma RelaunchTurnsMedia(a: App, request: Request, launcher: string, s: Surroundings)
    requires Safe(a.page)
    ensures var b := StepApp(a, AppEvent.Relaunch(request, launcher, s));
            if RelaunchPlays(a, request, s) then Plays(b) else SameSound(a, b)
  {
    hide App.OnPage, App.Unhide, App.Raise, Reappears, Safe, Plays;
    var b := a.Unhide();
    var c := b.ReloadIfCrashed();
    var d := c.OnPage(Event.Relaunch(request));
    UnhiddenPlays(a);
    UnhiddenWindow(a);
    SameSoundOnPage(b, Event.Reload);
    ReloadFacts(b);
    RelaunchedPage(c, request);
    SoundIsKept(b, c);
    SoundIsKept(c, d);
    RaisedPlays(d, s);
    SoundIsKept(d, d.Raise(s));
    SoundIsKept(d, d.(pendingParams := request.params, pendingLauncher := launcher));
  }

  lemma SoundIsKept(a: App, b: App)
    ensures SameSound(a, b) ==> (Plays(a) <==> Plays(b))
  {
  }

  lemma RelaunchedPage(a: App, request: Request)
    requires Safe(a.page)
    ensures var b := a.OnPage(Event.Relaunch(request)); Safe(b.page) && SameSound(a, b) && b == a.(page := b.page)
  {
    hide App.OnPage, Safe, SameSound;
    SameSoundOnPage(a, Event.Relaunch(request));
    PageVisible(a, Event.Relaunch(request));
  }

  // ---- what the other steps do to the media ----

  /** Unless it may run in the background, the page is marked as paused, and its media stop if it was not yet. */
  predicate IsMuted(a: App, b: App) {
    if a.page.config.backgroundRun then SameSound(a, b)
    else
      && b.page.activity.isPaused
      && (b.page.activity.view.mediaSuspended <==> !a.page.activity.isPaused || a.page.activity.view.mediaSuspended)
  }

  predicate MediaFollow(a: App, e: AppEvent, b: App) {
    if ComesUp(a, e) then Plays(b)
    else if Deactivates(a, e) || e.AboutToMinimize? then IsMuted(a, b)
    else if e.RendererCrashed? then
      b.page.activity.isPaused == a.page.activity.isPaused && !b.page.activity.view.mediaSuspended
    else SameSound(a, b)
  }

  lemma AwakePlays(a: App, p: Page)
    requires IsAwake(a.page.activity, p)
    ensures Plays(a)
  {
  }

  lemma QuietIsMuted(a: App, b: App)
    requires GoesQuiet(a.page, b.page)
    ensures IsMuted(a, b)
  {
  }

  lemma ClosedIsMuted(a: App, ignoreCleanResource: bool)
    requires Safe(a.page)
    ensures IsMuted(a, StepApp(a, Close(ignoreCleanResource)))
  {
    hide Safe, App.OnStageDeactivated, App.OnPage;
    var b := a.OnPage(Event.SetClosing);
    MarkedClosing(a);
    QuietPage(b.page);
    DeactivatedIs(b);
    EndingKeepsActivity(b.OnStageDeactivated());
  }

  lemma MutedPage(a: App)
    requires Safe(a.page)
    ensures IsMuted(a, a.OnPage(Event.SuspendMedia))
  {
    hide Safe, Pages.Step, Shows;
    SeenAndHeard(a.page, Event.SuspendMedia);
  }

  lemma RecreatedMedia(a: App)
    requires Safe(a.page)
    ensures var v := a.OnPage(Event.Recreate).page.activity;
            v.isPaused == a.page.activity.isPaused && !v.view.mediaSuspended
  {
    hide Safe, Pages.Step, Shows;
    SeenAndHeard(a.page, Event.Recreate);
  }

  lemma OtherEventMedia(a: App, e: Pages.Event)
    requires Safe(a.page) && (PageOnly(e) || e.FirstFrame? || e.LoadFinished?)
    ensures SameSound(a, a.OnPage(e))
  {
    hide Safe, Pages.Step, Shows;
    SeenAndHeard(a.page, e);
  }

  lemma UnmovedMedia(a: App, e: AppEvent)
    requires Safe(a.page) && !e.Relaunch? && !e.LoadFinished? && !ComesUp(a, e) && !Deactivates(a, e)
    ensures MediaFollow(a, e, StepApp(a, e))
  {
    hide Safe, App.OnPage, App.OnStageActivated, App.OnStageDeactivated, IsMuted, SameSound;
    NoChange(a);
    match e {
      case OnPageOnly(event) =>
        if PageOnly(event) {
          OtherEventMedia(a, event);
        }
      case FirstFrame(_) => OtherEventMedia(a, Event.FirstFrame); PageVisible(a, Event.FirstFrame);
      case AboutToMinimize => MutedPage(a);
      case RendererCrashed(_) => RecreatedMedia(a);
      case _ =>
    }
  }

  lemma NoChange(a: App)
    ensures SameSound(a, a) && forall keepAlive :: SameSound(a, a.(keepAlive := keepAlive))
  {
  }

  /** The media after every step but a relaunch and the end of a load, exactly. */
  lemma StepTurnsMedia(a: App, e: AppEvent)
    requires Safe(a.page) && !e.Relaunch? && !e.LoadFinished?
    ensures MediaFollow(a, e, StepApp(a, e))
  {
    hide Safe, StepApp, IsMuted, SameSound, Plays, ComesUp, Deactivates;
    if ComesUp(a, e) {
      ActivationAwakes(a, e);
      AwakePlays(StepApp(a, e), a.page);
    } else if Deactivates(a, e) {
      if e.Close? {
        ClosedIsMuted(a, e.ignoreCleanResource);
      } else {
        DeactivationQuiets(a, e);
        QuietIsMuted(a, StepApp(a, e));
      }
    } else {
      UnmovedMedia(a, e);
    }
  }

  /** At the end of a load only the relaunch of a kept request can let the media go on. */
  lemma LoadEndTurnsMedia(a: App, e: AppEvent)
    requires Safe(a.page) && e.LoadFinished?
    ensures var b := StepApp(a, e);
            if Retries(a) && RelaunchPlays(a, Request(a.pendingParams, e.opensWindow, e.hosted), e.surroundings)
            then Plays(b) else SameSound(a, b)
  {
    hide App.OnPage, App.Relaunch, RelaunchPlays, Safe;
    var request := Request(a.pendingParams, e.opensWindow, e.hosted);
    var b := if a.page.closing.cleaning then a else a.WebPageLoadFinished(e.opensWindow, e.hosted, e.surroundings);
    RelaunchTurnsMedia(a, request, a.pendingLauncher, e.surroundings);
    RelaunchInSafety(a, request, a.pendingLauncher, e.surroundings);
    SameSoundOnPage(a, Event.Reload);
    OtherEventMedia(b, Event.LoadFinished(e.isErrorPage));
  }

  // ---- a new app ----

  /**
   A new app is hidden if it was launched so or is preloading; nothing of it is seen, suspended or waiting,
   and only the two kinds of preloading that pause its media make it silent.
   */
  lemma LaunchedLooks(config: Config, nextSource: nat, keepAlive: bool, launchedHidden: bool, needReload: bool,
                      kind: Preload)
    ensures var a := Launched(config, nextSource, keepAlive, launchedHidden, needReload, kind);
            var v := a.page.activity;
            && a.hidden == (launchedHidden || kind != NoPreload) && a.preload == kind
            && a.keepAlive == keepAlive && a.needReload == needReload && !a.crashed
            && !a.inWindowMgr && !a.didActivateStage && a.pendingParams == "" && a.pendingLauncher == ""
            && !v.view.visible && v.view.progress == 0 && !v.view.domSuspended && !v.view.paintingSuspended
            && !v.isSuspended && !v.suspendAtLoad && !v.hasBeenShown && v.suspendTimer.pending == {}
            && v.isPaused == v.view.mediaSuspended == ((kind == SemiFull || kind == Partial) && !config.backgroundRun)
            && !a.page.closing.isClosing && !a.page.closing.cleaning && !a.page.closing.hasCallback
            && a.page.closing.callbackTimer.pending == {}
            && !a.page.errors.shown && a.page.errors.trust == config.declaredTrust
            && a.page.errors.reloadTimer.pending == {} && a.page.launchParams == "" && a.page.reloads == 0
  {
  }
}
