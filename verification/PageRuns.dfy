/** Each step of a window is a run of its page; so what holds over all runs of a page holds over those of a window. */
module PageRuns {
  import opened Timers
  import opened Pages
  import opened AppWindows

  // ---- runs of a page ----

  lemma UnfoldPageRun(p: Page, events: seq<Pages.Event>)
    ensures events == [] ==> Pages.Run(p, events) == p
    ensures events != [] ==>
              Pages.Run(p, events) == Pages.Step(Pages.Run(p, events[..|events| - 1]), events[|events| - 1])
  {
    hide Pages.Step;
  }

  lemma {:induction false} PageRunsAppend(p: Page, first: seq<Pages.Event>, later: seq<Pages.Event>)
    ensures Pages.Run(Pages.Run(p, first), later) == Pages.Run(p, first + later)
    decreases |later|
  {
    hide Pages.Run, Pages.Step;
    UnfoldPageRun(Pages.Run(p, first), later);
    UnfoldPageRun(p, first + later);
    if later == [] {
      assert first + later == first;
    } else {
      LastAppended(first, later);
      PageRunsAppend(p, first, later[..|later| - 1]);
    }
  }

  /** Events that neither replace the view nor start the close callback. */
  predicate Quiet(e: Pages.Event) {
    !e.Recreate? && !e.ExecuteCloseCallback?
  }

  predicate AllQuiet(events: seq<Pages.Event>) {
    forall e :: e in events ==> Quiet(e)
  }

  /** The page comes to another state by quiet events alone. */
  ghost predicate Follows(p: Page, q: Page) {
    exists events :: AllQuiet(events) && q == Pages.Run(p, events)
  }

  lemma FollowsItself(p: Page)
    ensures Follows(p, p)
  {
    hide Pages.Run, Pages.Step;
    UnfoldPageRun(p, []);
    assert AllQuiet([]);
  }

  lemma FollowsOne(p: Page, e: Pages.Event)
    requires Quiet(e)
    ensures Follows(p, Pages.Step(p, e))
  {
    hide Pages.Run, Pages.Step;
    UnfoldPageRun(p, [e]);
    UnfoldPageRun(p, []);
    assert [e][..0] == [];
    assert AllQuiet([e]);
  }

  lemma FollowsOn(p: Page, q: Page, r: Page)
    requires Follows(p, q) && Follows(q, r)
    ensures Follows(p, r)
  {
    hide Pages.Run;
    var first :| AllQuiet(first) && q == Pages.Run(p, first);
    var later :| AllQuiet(later) && r == Pages.Run(q, later);
    PageRunsAppend(p, first, later);
    assert AllQuiet(first + later);
  }

  // ---- what the window does, as events of its page ----

  lemma OnPageFollows(a: App, e: Pages.Event)
    requires Quiet(e)
    ensures Follows(a.page, a.OnPage(e).page)
  {
    hide Follows, Pages.Step;
    FollowsOne(a.page, e);
  }

  lemma ReloadFollows(a: App)
    ensures Follows(a.page, a.ReloadIfCrashed().page)
  {
    hide Follows, Pages.Step;
    FollowsItself(a.page);
    FollowsOne(a.page, Event.Reload);
  }

  lemma ActivatedFollows(a: App)
    ensures Follows(a.page, a.OnStageActivated().page)
  {
    hide Follows, App.OnPage, App.ReloadIfCrashed;
    var b := a.ReloadIfCrashed();
    ReloadFollows(a);
    OnPageFollows(b, Event.ResumeAll);
    FollowsOn(a.page, b.page, b.OnPage(Event.ResumeAll).page);
  }

  lemma DeactivatedFollows(a: App)
    ensures Follows(a.page, a.OnStageDeactivated().page)
  {
    hide Follows, App.OnPage;
    var b := a.OnPage(Event.SuspendMedia);
    OnPageFollows(a, Event.SuspendMedia);
    OnPageFollows(b, Event.SuspendAll);
    FollowsOn(a.page, b.page, b.OnPage(Event.SuspendAll).page);
  }

  lemma ShownFollows(a: App)
    ensures Follows(a.page, a.ShowWindow().page)
  {
    hide Follows, App.OnStageActivated;
    FollowsItself(a.page);
    ActivatedFollows(a.(hidden := false));
  }

  lemma ClearedFollows(a: App)
    ensures Follows(a.page, a.ClearPreload().page)
  {
    hide Follows, App.OnPage;
    FollowsItself(a.page);
    OnPageFollows(a, Event.ResumeMedia);
  }

  lemma UnhiddenFollows(a: App)
    ensures Follows(a.page, a.Unhide().page)
  {
    hide Follows, App.ClearPreload, App.ShowWindow;
    FollowsItself(a.page);
    var b := a.(hidden := false).ClearPreload();
    var c := if a.keepAlive && a.page.activity.view.progress != 100 then b.(inWindowMgr := false) else b;
    ClearedFollows(a.(hidden := false));
    ShownFollows(c);
    FollowsOn(a.page, c.page, c.ShowWindow().page);
  }

  lemma RaisedFollows(a: App, s: Surroundings)
    ensures Follows(a.page, a.Raise(s).page)
  {
    hide Follows, App.OnPage, App.OnStageActivated;
    FollowsItself(a.page);
    var b := if a.RaiseActivates(s) then a.OnStageActivated() else a;
    ActivatedFollows(a);
    OnPageFollows(b, Event.ResumeAll);
    FollowsOn(a.page, b.page, b.OnPage(Event.ResumeAll).page);
  }

  lemma RelaunchedFollows(a: App, request: Request, launcher: string, s: Surroundings)
    ensures Follows(a.page, a.Relaunch(request, launcher, s).page)
  {
    hide Follows, App.OnPage, App.Unhide, App.ReloadIfCrashed, App.Raise, Page.TakesRelaunch;
    var b := a.Unhide();
    var c := b.ReloadIfCrashed();
    var d := c.OnPage(Event.Relaunch(request));
    UnhiddenFollows(a);
    ReloadFollows(b);
    FollowsOn(a.page, b.page, c.page);
    OnPageFollows(c, Event.Relaunch(request));
    FollowsOn(a.page, c.page, d.page);
    RaisedFollows(d, s);
    FollowsOn(a.page, d.page, d.Raise(s).page);
  }

  lemma LoadFinishedFollows(a: App, isErrorPage: bool, opensWindow: bool, hosted: Hosted, s: Surroundings)
    ensures Follows(a.page, a.LoadFinished(isErrorPage, opensWindow, hosted, s).page)
  {
    hide Follows, App.OnPage, App.Relaunch;
    FollowsItself(a.page);
    OnPageFollows(a, Event.Reload);
    RelaunchedFollows(a, Request(a.pendingParams, opensWindow, hosted), a.pendingLauncher, s);
    var b := if a.page.closing.cleaning then a else a.WebPageLoadFinished(opensWindow, hosted, s);
    OnPageFollows(b, Event.LoadFinished(isErrorPage));
    FollowsOn(a.page, b.page, b.OnPage(Event.LoadFinished(isErrorPage)).page);
  }

  lemma FrameFollows(a: App, usePrerendering: bool)
    ensures Follows(a.page, a.FirstFrameCommitted(usePrerendering).page)
    ensures Follows(a.page, a.FrameSwapped().page)
  {
    hide Follows, App.OnPage, App.ShowWindow, App.OnStageActivated;
    FollowsItself(a.page);
    ActivatedFollows(a);
    var b := a.OnPage(Event.FirstFrame);
    var c := b.(didActivateStage := a.didActivateStage && !usePrerendering);
    OnPageIsOnlyPage(a, Event.FirstFrame);
    OnPageFollows(a, Event.FirstFrame);
    ShownFollows(c);
    FollowsOn(a.page, c.page, c.ShowWindow().page);
  }

  /** The page of a closed app before its callback or unload is started. */
  function Silenced(a: App): App {
    a.OnPage(Event.SetClosing).OnStageDeactivated()
  }

  lemma SilencedFollows(a: App)
    ensures Follows(a.page, Silenced(a).page)
    ensures Silenced(a).page.closing.callbackTimer == a.page.closing.callbackTimer
    ensures Silenced(a).page.closing.hasCallback == a.page.closing.hasCallback
  {
    hide Follows, Pages.Step, App.OnStageDeactivated;
    var b := a.OnPage(Event.SetClosing);
    OnPageFollows(a, Event.SetClosing);
    DeactivatedFollows(b);
    FollowsOn(a.page, b.page, b.OnStageDeactivated().page);
    PageFacts(a.page, Event.SetClosing);
    DeactivatedFacts(b);
  }

  /** Does the step start the close callback? */
  predicate StartsCallback(a: App, e: AppEvent) {
    (e == AppEvent.Close(false) && a.page.closing.hasCallback) || e == OnPageOnly(Event.ExecuteCloseCallback)
  }

  lemma StageFollows(a: App, e: AppEvent)
    requires StageEvent(e) && !e.RendererCrashed?
    ensures Follows(a.page, StepApp(a, e).page)
  {
    hide Follows, App.OnPage, App.OnStageActivated, App.OnStageDeactivated;
    FollowsItself(a.page);
    ActivatedFollows(a);
    DeactivatedFollows(a);
    OnPageFollows(a, Event.SuspendMedia);
  }

  lemma CloseFollows(a: App, ignoreCleanResource: bool)
    requires ignoreCleanResource || !a.page.closing.hasCallback
    ensures Follows(a.page, a.Closed(ignoreCleanResource).page)
  {
    hide Follows, App.OnPage, App.OnStageDeactivated;
    var b := Silenced(a);
    SilencedFollows(a);
    OnPageFollows(b, Event.CleanResources);
    FollowsOn(a.page, b.page, b.OnPage(Event.CleanResources).page);
  }

  /** Apart from a crash and the start of the close callback, a step of the window is quiet for its page. */
  lemma QuietStepFollows(a: App, e: AppEvent)
    requires !e.RendererCrashed? && !StartsCallback(a, e)
    ensures Follows(a.page, StepApp(a, e).page)
  {
    hide Follows, App.OnPage, App.FirstFrameCommitted, App.FrameSwapped;
    hide App.LoadFinished, App.Relaunch, App.Raise, App.Closed;
    hide App.StateChanged, App.HideWindow, App.Hide, App.OnStageActivated, App.OnStageDeactivated;
    FollowsItself(a.page);
    if StageEvent(e) {
      StageFollows(a, e);
    } else {
      match e {
        case OnPageOnly(event) =>
          if PageOnly(event) {
            OnPageFollows(a, event);
          }
        case FirstFrame(usePrerendering) => FrameFollows(a, usePrerendering);
        case SwapFrame => FrameFollows(a, false);
        case LoadFinished(isErrorPage, opensWindow, hosted, s) =>
          LoadFinishedFollows(a, isErrorPage, opensWindow, hosted, s);
        case Relaunch(request, launcher, s) => RelaunchedFollows(a, request, launcher, s);
        case Raise(s) => RaisedFollows(a, s);
        case Close(ignoreCleanResource) => CloseFollows(a, ignoreCleanResource);
      }
    }
  }

  /** The two steps that are not quiet: what the page does last. */
  lemma LoudStep(a: App, e: AppEvent)
    ensures e.RendererCrashed? ==> StepApp(a, e).page == Pages.Step(a.page, Event.Recreate)
    ensures e == OnPageOnly(Event.ExecuteCloseCallback) ==>
              StepApp(a, e).page == Pages.Step(a.page, Event.ExecuteCloseCallback)
    ensures e == AppEvent.Close(false) && a.page.closing.hasCallback ==>
              StepApp(a, e).page == Pages.Step(Silenced(a).page, Event.ExecuteCloseCallback)
  {
    hide Pages.Step, App.OnStageDeactivated;
    SilencedFollows(a);
  }

  // ---- a run of the window, seen from its page ----

  ghost predicate Reaches(p: Page, q: Page) {
    exists events :: q == Pages.Run(p, events)
  }

  lemma ReachesOn(p: Page, q: Page, r: Page)
    requires Reaches(p, q) && Reaches(q, r)
    ensures Reaches(p, r)
  {
    hide Pages.Run;
    var first :| q == Pages.Run(p, first);
    var later :| r == Pages.Run(q, later);
    PageRunsAppend(p, first, later);
  }

  lemma ReachesOne(p: Page, e: Pages.Event)
    ensures Reaches(p, Pages.Step(p, e)) && Reaches(p, p)
  {
    hide Pages.Run, Pages.Step;
    UnfoldPageRun(p, [e]);
    UnfoldPageRun(p, []);
    assert [e][..0] == [];
  }

  lemma FollowsReaches(p: Page, q: Page)
    requires Follows(p, q)
    ensures Reaches(p, q)
  {
    hide Pages.Run;
  }

  lemma StepReaches(a: App, e: AppEvent)
    ensures Reaches(a.page, StepApp(a, e).page)
  {
    hide Reaches, Follows, StepApp, Pages.Step, Silenced;
    if e.RendererCrashed? || StartsCallback(a, e) {
      var event := if e.RendererCrashed? then Event.Recreate else Event.ExecuteCloseCallback;
      LoudStep(a, e);
      ReachesOne(a.page, event);
      SilencedFollows(a);
      FollowsReaches(a.page, Silenced(a).page);
      ReachesOne(Silenced(a).page, event);
      ReachesOn(a.page, Silenced(a).page, Pages.Step(Silenced(a).page, event));
    } else {
      QuietStepFollows(a, e);
      FollowsReaches(a.page, StepApp(a, e).page);
    }
  }

  lemma {:induction false} WindowRunReaches(a: App, events: seq<AppEvent>)
    ensures Reaches(a.page, RunApp(a, events).page)
  {
    hide Reaches, StepApp, RunApp, Pages.Step;
    UnfoldWindowRun(a, events);
    if events == [] {
      ReachesOne(a.page, Event.Reload);
    } else {
      var b, e := RunApp(a, events[..|events| - 1]), events[|events| - 1];
      WindowRunReaches(a, events[..|events| - 1]);
      StepReaches(b, e);
      ReachesOn(a.page, b.page, StepApp(b, e).page);
    }
  }

  // ---- the discipline of the timers, for windows ----

  lemma {:induction false} QuietRunKeepsDiscipline(p: Page, events: seq<Pages.Event>)
    requires Safe(p) && Disciplined(p) && AllQuiet(events)
    ensures Safe(Pages.Run(p, events)) && Disciplined(Pages.Run(p, events))
  {
    hide Safe, Disciplined, Pages.Run, Pages.Step;
    UnfoldPageRun(p, events);
    if events != [] {
      var init, e := events[..|events| - 1], events[|events| - 1];
      assert forall x :: x in init ==> x in events;
      assert Quiet(e);
      QuietRunKeepsDiscipline(p, init);
      StepIsSafe(Pages.Run(p, init), e);
      CalmStepsKeepDiscipline(Pages.Run(p, init), e);
    }
  }

  lemma FollowsKeepsDiscipline(p: Page, q: Page)
    requires Safe(p) && Disciplined(p) && Follows(p, q)
    ensures Safe(q) && Disciplined(q)
  {
    hide Safe, Disciplined, Pages.Run;
    var events :| AllQuiet(events) && q == Pages.Run(p, events);
    QuietRunKeepsDiscipline(p, events);
  }

  /** No crash while a suspend is pending, no second close callback while one is awaited. */
  predicate CalmStep(a: App, e: AppEvent) {
    && (e.RendererCrashed? ==> !a.page.activity.suspendTimer.running)
    && (StartsCallback(a, e) ==> !a.page.closing.callbackTimer.running)
  }

  /** A step of a window keeps the timers of its page disciplined exactly when it is calm. */
  lemma CalmStepsOfWindows(a: App, e: AppEvent)
    requires Safe(a.page) && Disciplined(a.page)
    ensures Disciplined(StepApp(a, e).page) <==> CalmStep(a, e)
  {
    hide Safe, Disciplined, StepApp, Pages.Step, Silenced, Follows;
    if e.RendererCrashed? {
      LoudStep(a, e);
      CalmStepsKeepDiscipline(a.page, Event.Recreate);
    } else if StartsCallback(a, e) {
      LoudStep(a, e);
      SilencedFollows(a);
      FollowsKeepsDiscipline(a.page, Silenced(a).page);
      CalmStepsKeepDiscipline(a.page, Event.ExecuteCloseCallback);
      CalmStepsKeepDiscipline(Silenced(a).page, Event.ExecuteCloseCallback);
    } else {
      QuietStepFollows(a, e);
      FollowsKeepsDiscipline(a.page, StepApp(a, e).page);
    }
  }

  ghost predicate CalmHistory(a: App, events: seq<AppEvent>) {
    forall i :: 0 <= i < |events| ==> CalmStep(RunApp(a, events[..i]), events[i])
  }

  lemma {:induction false} CalmHistoriesAreDisciplined(a: App, events: seq<AppEvent>)
    requires InStep(a) && Disciplined(a.page) && CalmHistory(a, events)
    ensures Disciplined(RunApp(a, events).page)
  {
    hide InStep, Disciplined, StepApp, RunApp, CalmStep;
    UnfoldWindowRun(a, events);
    if events != [] {
      var init, e := events[..|events| - 1], events[|events| - 1];
      assert forall i :: 0 <= i < |init| ==> init[..i] == events[..i];
      CalmHistoriesAreDisciplined(a, init);
      RunKeepsInStep(a, init);
      StepsAreSafe(RunApp(a, init));
      CalmStepsOfWindows(RunApp(a, init), e);
    }
  }

  lemma StepsAreSafe(a: App)
    requires InStep(a)
    ensures Safe(a.page)
  {
  }
}
