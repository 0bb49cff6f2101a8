/**
 The timeout sources of a page over runs of the whole system: when a page is deleted, its
 timers' destructors leave nothing pending under exact conditions.
 */
module PageSources {
  import opened Options
  import opened Timers
  import Pages
  import opened AppWindows
  import opened PageRuns
  import opened AppSystems
  import R = Registries

  // ---- a run of the system, seen from one page ----

  lemma LaunchReaches(l: Launching)
    ensures Reaches(Pages.Fresh(l.config, l.nextSource), l.Window().page)
  {
    hide Reaches, Pages.Step, Pages.Fresh;
    ReachesOne(Pages.Fresh(l.config, l.nextSource), Pages.Event.SuspendMedia);
  }

  /**
   Seen from one page, every run of the system is a run of the page from its launch: what holds
   over all runs of a page, such as its safety and its trust level, holds of every page of the system.
   */
  lemma RunIsPageRun(events: seq<Event>, app: R.WebApp) returns (l: Launching, history: seq<Pages.Event>)
    requires app in Run(events).windows
    ensures l.nextSource > 0
    ensures Run(events).windows[app].page == Pages.Run(Pages.Fresh(l.config, l.nextSource), history)
  {
    hide Run, RunApp, Pages.Run, Pages.Fresh, Launching.Window;
    var steps;
    l, steps := RunIsWindowRun(events, app);
    var p := Pages.Fresh(l.config, l.nextSource);
    LaunchReaches(l);
    WindowRunReaches(l.Window(), steps);
    ReachesOn(p, l.Window().page, RunApp(l.Window(), steps).page);
    history :| RunApp(l.Window(), steps).page == Pages.Run(p, history);
  }

  /** Every step that a run of the system takes in the window of an app is calm. */
  ghost predicate CalmFor(events: seq<Event>, app: R.WebApp) {
    forall i :: 0 <= i < |events| ==> CalmEvent(Run(events[..i]), events[i], app)
  }

  ghost predicate CalmEvent(s: System, e: Event, app: R.WebApp) {
    R.Listed(s.registry) && app in s.windows ==> CalmHistory(s.windows[app], Seen(s.registry, e, app, s.windows[app]))
  }

  lemma LaunchIsDisciplined(l: Launching)
    ensures Pages.Disciplined(l.Window().page) && l.Window().page.closing.callbackTimer == STOPPED
  {
  }

  lemma CalmStepOfSystem(s: System, e: Event, app: R.WebApp)
    requires R.Listed(s.registry) && app in s.windows && InStep(s.windows[app]) && CalmEvent(s, e, app)
    requires Pages.Disciplined(s.windows[app].page)
    ensures app in Step(s, e).windows && Pages.Disciplined(Step(s, e).windows[app].page)
  {
    hide Step, Seen, RunApp, Pages.Disciplined, InStep, CalmHistory;
    StepWindow(s, e, app);
    CalmHistoriesAreDisciplined(s.windows[app], Seen(s.registry, e, app, s.windows[app]));
  }

  lemma {:induction false} CalmSystemsAreDisciplined(events: seq<Event>, app: R.WebApp)
    requires app in Run(events).windows && CalmFor(events, app)
    ensures Pages.Disciplined(Run(events).windows[app].page)
  {
    hide Step, Run, Makes, Pages.Disciplined, InStep, R.Consistent, CalmEvent, Launching.Window;
    UnfoldRun(events);
    var init, e := events[..|events| - 1], events[|events| - 1];
    var s := Run(init);
    EveryRunIsJoined(init);
    R.EverythingListed(s.registry);
    StepParts(s, e);
    if app in s.windows {
      assert forall i :: 0 <= i < |init| ==> init[..i] == events[..i];
      CalmSystemsAreDisciplined(init, app);
      CalmStepOfSystem(s, e, app);
    } else {
      LaunchIsDisciplined(e.made.value.1);
    }
  }

  // ---- when the page is deleted ----

  /** The sources that are still pending once the destructors of a page's three timers have run. */
  function LeftBehind(p: Pages.Page): set<nat> {
    p.activity.suspendTimer.Destroyed().pending + p.closing.callbackTimer.Destroyed().pending
    + p.errors.reloadTimer.Destroyed().pending
  }

  lemma ReloadTimerPends(p: Pages.Page)
    requires Pages.Safe(p)
    ensures p.errors.reloadTimer.Pends() && p.errors.reloadTimer.OneSource()
    ensures p.activity.suspendTimer.Pends() && p.closing.callbackTimer.Pends()
  {
    hide Pages.HonestFlags;
    var t := p.errors.reloadTimer;
    assert t.running ==> t.sourceId in t.pending;
  }

  /** Nothing is left behind exactly if the flags of the suspend timer and of the close callback timer are truthful. */
  lemma LeftBehindIsNothing(p: Pages.Page)
    requires Pages.Safe(p)
    ensures LeftBehind(p) == {} <==> p.activity.suspendTimer.OneSource() && p.closing.callbackTimer.OneSource()
  {
    hide Pages.Safe, TimerState.Pends, TimerState.OneSource, TimerState.Destroyed;
    ReloadTimerPends(p);
    DestroyedLeavesNothing(p.activity.suspendTimer);
    DestroyedLeavesNothing(p.closing.callbackTimer);
    DestroyedLeavesNothing(p.errors.reloadTimer);
  }

  /**
   In every run of the system: a deleted page leaves no source behind if and only if two flags
   are truthful at its end; and they are if no view was re-created during a pending suspend and
   no second close callback was started while one was awaited.
   */
  lemma NothingOutlivesThePage(events: seq<Event>, app: R.WebApp)
    requires app in Run(events).windows
    ensures var p := Run(events).windows[app].page;
            && (LeftBehind(p) == {} <==> p.activity.suspendTimer.OneSource() && p.closing.callbackTimer.OneSource())
            && (CalmFor(events, app) ==> LeftBehind(p) == {})
  {
    hide Run, InStep, R.Consistent, LeftBehind, CalmFor;
    EveryRunIsJoined(events);
    var a := Run(events).windows[app];
    StepsAreSafe(a);
    LeftBehindIsNothing(a.page);
    if CalmFor(events, app) {
      CalmSystemsAreDisciplined(events, app);
    }
  }

  /** A view re-created during a pending suspend, and then another suspend: the first source is left behind. */
  lemma RecreationLeavesASource(p: Pages.Page)
    requires Pages.Safe(p) && Pages.Disciplined(p) && p.activity.suspendTimer.running && !p.closing.isClosing
             && p.config.stopsJs
    ensures p.activity.suspendTimer.sourceId in LeftBehind(Pages.Step(Pages.Step(p, Pages.Recreate), Pages.SuspendAll))
  {
    hide Pages.Step, Pages.ErrorPageOnly;
    Pages.StepActivity(p, Pages.Recreate);
    Pages.StepErrors(p, Pages.Recreate);
    Pages.StepClosing(p, Pages.Recreate);
    Pages.StepActivity(Pages.Step(p, Pages.Recreate), Pages.SuspendAll);
    assert p.activity.suspendTimer.sourceId != p.nextSource;
  }

  // ---- the close callback timer, exactly ----

  /** The step starts the close callback of the app. */
  predicate Begins(s: System, e: Event, app: R.WebApp)
    requires R.Listed(s.registry) && app in s.windows
  {
    var steps := Seen(s.registry, e, app, s.windows[app]);
    steps != [] && steps[|steps| - 1] == AppEvent.Close(false) && s.windows[app].page.closing.hasCallback
  }

  /** How often the close callback of an app was started in a run. */
  function Begun(events: seq<Event>, app: R.WebApp): nat {
    if events == [] then 0
    else
      var s, e := Run(events[..|events| - 1]), events[|events| - 1];
      Begun(events[..|events| - 1], app)
      + if R.Listed(s.registry) && app in s.windows && Begins(s, e, app) then 1 else 0
  }

  /**
   As many sources are pending as callbacks were started; the flag is set, and the last one
   remembered, if there is one.
   */
  ghost predicate Counted(t: TimerState, started: nat) {
    |t.pending| == started && t.running == (started > 0) && t.Pends() && !t.repeating
  }

  lemma StartedCounts(t: TimerState, started: nat, id: nat)
    requires Counted(t, started) && t.IdsBelow(id)
    ensures Counted(t.Started(id), started + 1)
  {
    assert id !in t.pending;
  }

  /** What closing a window does to the timer. */
  lemma CloseTimer(a: App, ignoreCleanResource: bool)
    requires InStep(a)
    ensures var t, u := a.page.closing.callbackTimer, a.Closed(ignoreCleanResource).page.closing.callbackTimer;
            if !ignoreCleanResource && a.page.closing.hasCallback then exists id :: t.IdsBelow(id) && u == t.Started(id)
            else u == t
  {
    hide Pages.Step, App.OnStageDeactivated, TimerState.IdsBelow, TimerState.Started;
    var b := Silenced(a);
    SilencedFollows(a);
    StepsInIds(a);
    Pages.StepClosing(b.page, Pages.Event.ExecuteCloseCallback);
    Pages.StepClosing(b.page, Pages.Event.CleanResources);
    assert b.page.closing.callbackTimer.IdsBelow(b.page.nextSource);
  }

  lemma StepsInIds(a: App)
    requires InStep(a)
    ensures Silenced(a).page.closing.callbackTimer.IdsBelow(Silenced(a).page.nextSource)
  {
    hide Pages.Step, App.OnStageDeactivated, InStep, Consistent, Pages.Safe;
    StepsAreConsistent(a);
    OnPageKeeps(a, Pages.Event.SetClosing);
    DeactivatedInStep(a.OnPage(Pages.Event.SetClosing));
    StepsAreSafe(Silenced(a));
    SafeIds(Silenced(a).page);
  }

  lemma SafeIds(p: Pages.Page)
    requires Pages.Safe(p)
    ensures p.closing.callbackTimer.IdsBelow(p.nextSource) && p.closing.callbackTimer.Pends()
    ensures !p.closing.callbackTimer.repeating
  {
    hide Pages.HonestFlags, Pages.ErrorPageOnly;
  }

  /** The steps that neither close the window nor end a close leave the timer alone. */
  lemma OtherStepTimer(a: App, e: AppEvent)
    requires Own(e) || e.LoadFinished? || e.Relaunch? || e.Pause? || e.RendererCrashed?
             || e == OnPageOnly(Pages.Event.Reload)
    ensures StepApp(a, e).page.closing.callbackTimer == a.page.closing.callbackTimer
    ensures (e.SetKeepAlive? || e.RendererCrashed?) ==> StepApp(a, e).page.closing == a.page.closing
  {
    hide StepApp;
    if e.LoadFinished? {
      LoadTimer(a, e);
    } else if e.Relaunch? {
      RelaunchTimer(a, e);
    } else if StageEvent(e) {
      StageStepFacts(a, e);
    } else {
      OwnStep(a, e);
    }
  }

  lemma LoadTimer(a: App, e: AppEvent)
    requires e.LoadFinished?
    ensures StepApp(a, e).page.closing == a.page.closing
  {
    hide App.LoadFinished;
    LoadFacts(a, e.isErrorPage, e.opensWindow, e.hosted, e.surroundings);
  }

  lemma RelaunchTimer(a: App, e: AppEvent)
    requires e.Relaunch?
    ensures StepApp(a, e).page.closing == a.page.closing
  {
    hide App.Relaunch;
    RelaunchFacts(a, e.request, e.launcher, e.surroundings);
  }

  /** A close, forced or not: the timer is started at its end, or left alone. */
  lemma ClosingTimer(a: App, steps: seq<AppEvent>)
    requires InStep(a)
    requires steps == FORCED || steps == Closing(a, false) || steps == Closing(a, true)
    ensures var t, u := a.page.closing.callbackTimer, RunApp(a, steps).page.closing.callbackTimer;
            if steps[|steps| - 1] == AppEvent.Close(false) && a.page.closing.hasCallback
            then exists id :: t.IdsBelow(id) && u == t.Started(id) else u == t
  {
    hide RunApp, StepApp, InStep, TimerState.IdsBelow, TimerState.Started, App.Closed;
    if steps == FORCED {
      TwoSteps(a, SetKeepAlive(false), AppEvent.Close(false));
      var b := StepApp(a, SetKeepAlive(false));
      StepAppInStep(a, SetKeepAlive(false));
      OtherStepTimer(a, SetKeepAlive(false));
      CloseIs(b, false);
      CloseTimer(b, false);
    } else {
      OneStep(a, steps[0]);
      OtherStepTimer(a, AppEvent.Pause);
      CloseIs(a, false);
      CloseIs(a, true);
      CloseTimer(a, false);
      CloseTimer(a, true);
    }
  }

  /** What a step of the system that does not delete the app does to the timer. */
  lemma StepTimer(s: System, e: Event, app: R.WebApp)
    requires Joined(s) && R.Listed(s.registry) && app in s.windows && s.registry.Live(app)
    requires Step(s, e).registry.Live(app)
    ensures var t, u := s.windows[app].page.closing.callbackTimer, Step(s, e).windows[app].page.closing.callbackTimer;
            if Begins(s, e, app) then exists id :: t.IdsBelow(id) && u == t.Started(id) else u == t
  {
    hide Step, RunApp, StepApp, InStep;
    hide R.Consistent, IncidentSeen, TimerState.IdsBelow, TimerState.Started, R.Registry.Live;
    StepWindow(s, e, app);
    var r, a := s.registry, s.windows[app];
    var steps := Seen(r, e, app, a);
    Unmoved(a);
    if steps == FORCED || steps == Closing(a, false) || steps == Closing(a, true) {
      ClosingTimer(a, steps);
    } else {
      match e {
        case Launch(_, _, _, request, launcher, surroundings) =>
          OneStep(a, AppEvent.Relaunch(request, launcher, surroundings));
          OtherStepTimer(a, AppEvent.Relaunch(request, launcher, surroundings));
        case Pause(_) =>
          OneStep(a, AppEvent.Pause);
          OtherStepTimer(a, AppEvent.Pause);
        case AtApp(target, i) =>
          if target == app && r.Live(app) {
            IncidentTimer(s, app, i);
          }
        case _ =>
      }
    }
  }

  lemma IncidentTimer(s: System, app: R.WebApp, i: Incident)
    requires Joined(s) && R.Listed(s.registry) && app in s.windows && s.registry.Live(app)
    requires Step(s, AtApp(app, i)).registry.Live(app)
    requires var steps := IncidentSeen(s.registry, app, s.windows[app], i);
             steps != FORCED && steps != Closing(s.windows[app], false) && steps != Closing(s.windows[app], true)
    ensures var a, steps := s.windows[app], IncidentSeen(s.registry, app, s.windows[app], i);
            && (steps != [] ==> steps[|steps| - 1] != AppEvent.Close(false))
            && RunApp(a, steps).page.closing.callbackTimer == a.page.closing.callbackTimer
  {
    hide RunApp, StepApp, InStep, R.Consistent, R.Registry.Live, Telling, CrashSeen, Agree;
    var r, a := s.registry, s.windows[app];
    Unmoved(a);
    match i {
      case Crash(_, _, _) => CrashTimer(s, app, i);
      case LoadFinished(isErrorPage, opensWindow, hosted, surroundings) =>
        OneStep(a, AppEvent.LoadFinished(isErrorPage, opensWindow, hosted, surroundings));
        OtherStepTimer(a, AppEvent.LoadFinished(isErrorPage, opensWindow, hosted, surroundings));
      case CallbackDone =>
        if a.page.closing.callbackTimer.pending != {} {
          EndDeletesIt(s, app, i);
        }
      case CallbackTimer(id) =>
        if id in a.page.closing.callbackTimer.pending {
          EndDeletesIt(s, app, i);
        }
      case OnWindow(event) =>
        if Own(event) {
          OneStep(a, event);
          OtherStepTimer(a, event);
          OwnIsNoClose(event);
        }
      case _ =>
    }
  }

  lemma OwnIsNoClose(e: AppEvent)
    requires Own(e)
    ensures !e.Close?
  {
  }

  /** The end of a close deletes the app. */
  lemma EndDeletesIt(s: System, app: R.WebApp, i: Incident)
    requires Joined(s) && R.Listed(s.registry) && app in s.windows && s.registry.Live(app)
    requires var a := s.windows[app];
             || (i.CallbackDone? && a.page.closing.callbackTimer.pending != {})
             || (i.CallbackTimer? && i.id in a.page.closing.callbackTimer.pending)
             || (i.Crash? && a.page.closing.isClosing)
    ensures !Step(s, AtApp(app, i)).registry.Live(app)
  {
    hide RunApp, Telling, R.Step, R.Possible, Seen, R.Consistent, InStep, Agree;
    var r, a := s.registry, s.windows[app];
    var end := if i.CallbackDone? then R.CallbackRan else if i.CallbackTimer? then R.CallbackTimedOut else R.Crashed;
    AgreeOnClosing(a, r.apps[app]);
    CompletedIsDeleted(r, app, end);
    OneTold(r, R.CloseCompleted(app, end));
    assert Told(s, AtApp(app, i)) == [R.CloseCompleted(app, end)];
  }

  lemma CrashTimer(s: System, app: R.WebApp, i: Incident)
    requires Joined(s) && R.Listed(s.registry) && app in s.windows && s.registry.Live(app) && i.Crash?
    requires Step(s, AtApp(app, i)).registry.Live(app)
    ensures var a, steps := s.windows[app], CrashSeen(s.registry, app, s.windows[app], i);
            && (steps != [] ==> steps[|steps| - 1] != AppEvent.Close(false))
            && RunApp(a, steps).page.closing.callbackTimer == a.page.closing.callbackTimer
  {
    hide RunApp, StepApp, InStep, R.Consistent, R.Registry.Live, Telling, Step, Agree;
    var r, a := s.registry, s.windows[app];
    if a.page.closing.isClosing {
      EndDeletesIt(s, app, i);
    } else {
      CrashSeenTimer(r, app, a, i);
    }
  }

  lemma CrashSeenTimer(r: R.Registry, app: R.WebApp, a: App, i: Incident)
    requires i.Crash? && !a.page.closing.isClosing && InStep(a)
    ensures var steps := CrashSeen(r, app, a, i);
            && steps != [] && steps[|steps| - 1] != AppEvent.Close(false)
            && RunApp(a, steps).page.closing.callbackTimer == a.page.closing.callbackTimer
  {
    hide RunApp, StepApp, InStep, CrashedTooOften;
    var minimized := !(app.windowed && i.activated) && app.windowed && i.minimized;
    var b := StepApp(a, RendererCrashed(minimized));
    OtherStepTimer(a, RendererCrashed(minimized));
    StepAppInStep(a, RendererCrashed(minimized));
    if app.windowed && i.activated {
      var last := if CrashedTooOften(r, app, i.isNormal) then Closing(a, true)[0] else OnPageOnly(Pages.Event.Reload);
      TwoSteps(a, RendererCrashed(false), last);
      assert CrashSeen(r, app, a, i) == [RendererCrashed(false), last];
      OtherStepTimer(b, OnPageOnly(Pages.Event.Reload));
      OtherStepTimer(b, AppEvent.Pause);
      CloseIs(b, true);
      CloseTimer(b, true);
    } else {
      OneStep(a, RendererCrashed(minimized));
    }
  }

  lemma LaunchIsCounted(l: Launching)
    ensures Counted(l.Window().page.closing.callbackTimer, 0)
  {
  }

  /** In every run, the timer of an app that exists has one pending source for each time its callback was started. */
  lemma {:induction false} EveryRunIsCounted(events: seq<Event>, app: R.WebApp)
    requires app in Run(events).windows && Run(events).registry.Live(app)
    ensures Counted(Run(events).windows[app].page.closing.callbackTimer, Begun(events, app))
  {
    hide Step, Run, Told, Telling, Seen, RunApp, Makes, InStep, Counted, Begins, R.Registry.Live, R.Consistent, Linked;
    hide Launching.Window, TimerState.IdsBelow, TimerState.Started;
    UnfoldRun(events);
    var init, e := events[..|events| - 1], events[|events| - 1];
    var s := Run(init);
    EveryRunIsJoined(init);
    R.EverythingListed(s.registry);
    StepParts(s, e);
    ToldKeepsApps(s, e);
    if app in s.windows {
      assert s.registry.Live(app);
      EveryRunIsCounted(init, app);
      StepTimer(s, e, app);
      var t := s.windows[app].page.closing.callbackTimer;
      if Begins(s, e, app) {
        var id :| t.IdsBelow(id) && Step(s, e).windows[app].page.closing.callbackTimer == t.Started(id);
        StartedCounts(t, Begun(init, app), id);
      }
    } else {
      LaunchIsCounted(e.made.value.1);
      NeverBegun(init, app);
    }
  }

  lemma {:induction false} NeverBegun(events: seq<Event>, app: R.WebApp)
    requires app !in Run(events).windows
    ensures Begun(events, app) == 0
  {
    hide Step, Run, Seen, RunApp, Makes, Begins;
    UnfoldRun(events);
    if events != [] {
      var init := events[..|events| - 1];
      EveryRunIsJoined(init);
      R.EverythingListed(Run(init).registry);
      StepParts(Run(init), events[|events| - 1]);
      NeverBegun(events[..|events| - 1], app);
    }
  }

  /** The events that delete an app: the end of its close, or one crash too many in the foreground. */
  predicate Deletes(s: System, e: Event, app: R.WebApp)
    requires app in s.windows
  {
    var c := s.windows[app].page.closing;
    e.AtApp? && e.app == app
    && match e.incident
       case CallbackDone => c.callbackTimer.pending != {}
       case CallbackTimer(id) => id in c.callbackTimer.pending
       case LoadFinished(_, _, _, _) => c.cleaning
       case Crash(_, _, _) => true
       case _ => false
  }

  lemma OnlyTheseDelete(s: System, e: Event, app: R.WebApp)
    requires Joined(s) && R.Listed(s.registry) && app in s.windows && s.registry.Live(app)
    requires !Step(s, e).registry.Live(app)
    ensures Deletes(s, e, app)
  {
    hide Step, Told, Telling, R.Step, Deletes, R.Consistent, InStep, Agree, R.First, Makes;
    StepParts(s, e);
    var r := s.registry;
    NothingTold(r);
    ToldOnce(s, e);
    assert Told(s, e) != [];
    var f := Told(s, e)[0];
    OneTold(r, f);
    R.StepKeepsKnown(r, f, app);
    R.DeletedByItsEnd(r, f, app);
    ToldOfItsEnd(s, e, app);
  }

  /** The registry is told of the end of an app, or of its crash, only by such an event. */
  lemma ToldOfItsEnd(s: System, e: Event, app: R.WebApp)
    requires Joined(s) && R.Listed(s.registry) && app in s.windows && s.registry.Live(app) && Told(s, e) != []
    requires var f := Told(s, e)[0];
             || (f.CloseCompleted? && f.app == app)
             || (f.Crash? && s.registry.FindByInstance(f.instanceId) == Some(app))
    ensures Deletes(s, e, app)
  {
    hide Step, RunApp, Seen, IncidentSeen, R.Consistent, InStep, Agree, R.First, Makes, R.Registry.FindByInstance;
    var r, f := s.registry, Told(s, e)[0];
    if f.Crash? {
      AgreeOnClosing(s.windows[e.app], r.apps[e.app]);
      IsFound(r, f.instanceId, app);
    }
  }

  lemma IsFound(r: R.Registry, instanceId: string, app: R.WebApp)
    requires R.Consistent(r) && r.FindByInstance(instanceId) == Some(app)
    ensures forall other ::
              other in r.apps && r.Live(other) && !r.apps[other].isClosing && other.instanceId == instanceId ==>
                other == app
  {
    hide R.Consistent, R.First;
    forall other | other in r.apps && r.Live(other) && !r.apps[other].isClosing && other.instanceId == instanceId
      ensures other == app
    {
      RunningIsFound(r, other);
    }
  }

  /** The timer after the step that deletes the app. */
  lemma LastStepTimer(s: System, e: Event, app: R.WebApp)
    requires Joined(s) && R.Listed(s.registry) && app in s.windows && s.registry.Live(app) && Deletes(s, e, app)
    ensures var t, u := s.windows[app].page.closing.callbackTimer, Step(s, e).windows[app].page.closing.callbackTimer;
            match e.incident
            case CallbackDone => u == t.Stopped()
            case CallbackTimer(id) => u == t.InCallback().Stopped().CallbackDone(id)
            case Crash(_, _, _) => u == if s.windows[app].page.closing.isClosing && t.running then t.Stopped() else t
            case _ => u == t
  {
    hide Step, RunApp, StepApp, InStep, R.Consistent, CrashSeen, Agree, R.Registry.Live;
    var r, a := s.registry, s.windows[app];
    StepWindow(s, e, app);
    match e.incident {
      case CallbackDone => PageTimer(a, Pages.Event.CloseCallbackDone);
      case CallbackTimer(id) => PageTimer(a, Pages.Event.CloseTimer(id));
      case LoadFinished(isErrorPage, opensWindow, hosted, surroundings) =>
        OneStep(a, AppEvent.LoadFinished(isErrorPage, opensWindow, hosted, surroundings));
        OtherStepTimer(a, AppEvent.LoadFinished(isErrorPage, opensWindow, hosted, surroundings));
      case Crash(_, _, _) => LastCrashTimer(r, app, a, e.incident);
    }
  }

  lemma LastCrashTimer(r: R.Registry, app: R.WebApp, a: App, i: Incident)
    requires i.Crash? && InStep(a)
    ensures var t := a.page.closing.callbackTimer;
            RunApp(a, CrashSeen(r, app, a, i)).page.closing.callbackTimer ==
            if a.page.closing.isClosing && t.running then t.Stopped() else t
  {
    hide RunApp, InStep, CrashSeen;
    if a.page.closing.isClosing {
      CrashOfClosing(r, app, a, i);
      PageTimer(a, Pages.Event.CrashedWhileClosing);
    } else {
      CrashSeenTimer(r, app, a, i);
    }
  }

  lemma CrashOfClosing(r: R.Registry, app: R.WebApp, a: App, i: Incident)
    requires i.Crash? && a.page.closing.isClosing
    ensures CrashSeen(r, app, a, i) == [OnPageOnly(Pages.Event.CrashedWhileClosing)]
  {
  }

  lemma PageTimer(a: App, event: Pages.Event)
    requires event.CloseCallbackDone? || event.CloseTimer? || event.CrashedWhileClosing?
    ensures RunApp(a, [OnPageOnly(event)]).page.closing.callbackTimer == Pages.CallbackTimerAfter(a.page, event)
  {
    hide RunApp, Pages.Step;
    OneStep(a, OnPageOnly(event));
    Pages.StepClosing(a.page, event);
  }

  /** Stopping takes away the remembered source. */
  lemma StoppedLeaves(t: TimerState, started: nat)
    requires Counted(t, started)
    ensures t.Stopped().Destroyed() == t.Stopped()
    ensures started > 0 ==> |t.Stopped().pending| == started - 1
    ensures t.Destroyed().pending == {} <==> started <= 1
    ensures t.Stopped().pending == {} <==> started <= 1
  {
    if started > 0 {
      assert t.Stopped().pending == t.pending - {t.sourceId};
    }
  }

  /** The timeout takes away the remembered source and the one that fired. */
  lemma FiredLeaves(t: TimerState, started: nat, id: nat)
    requires Counted(t, started) && id in t.pending
    ensures var left := t.InCallback().Stopped().CallbackDone(id).Destroyed().pending;
            left == {} <==> started <= 1 || (started == 2 && id != t.sourceId)
  {
    var left := t.InCallback().Stopped().CallbackDone(id).Destroyed().pending;
    var others := t.pending - {t.sourceId};
    assert started > 0 && |others| == started - 1;
    assert left == others - {id};
    if id in others {
      assert |left| == started - 2;
    } else {
      assert left == others;
    }
  }

  /**
   For every run and every step that deletes an app: its close callback timer leaves no source
   behind if and only if the callback was started at most once, or twice and the close ended by
   the timeout of the first.
   */
  lemma CallbackSourcesAtTheEnd(events: seq<Event>, e: Event, app: R.WebApp)
    requires app in Run(events).windows && Run(events).registry.Live(app)
    requires !Step(Run(events), e).registry.Live(app)
    ensures app in Step(Run(events), e).windows
    ensures var t, k := Run(events).windows[app].page.closing.callbackTimer, Begun(events, app);
            Step(Run(events), e).windows[app].page.closing.callbackTimer.Destroyed().pending == {} <==>
            k <= 1 || (k == 2 && e.AtApp? && e.incident.CallbackTimer? && e.incident.id != t.sourceId)
  {
    hide Run, Step, InStep, R.Consistent;
    hide Counted, Begun, TimerState.Destroyed, TimerState.Stopped, TimerState.InCallback;
    hide TimerState.CallbackDone, Agree, R.Registry.Live;
    var s, k := Run(events), Begun(events, app);
    EveryRunIsJoined(events);
    R.EverythingListed(s.registry);
    EveryRunIsCounted(events, app);
    OnlyTheseDelete(s, e, app);
    LastStepTimer(s, e, app);
    StillThere(s, e, app);
    var t := s.windows[app].page.closing.callbackTimer;
    StoppedLeaves(t, k);
    match e.incident {
      case CallbackTimer(id) => FiredLeaves(t, k, id);
      case _ =>
    }
  }

  lemma StillThere(s: System, e: Event, app: R.WebApp)
    requires app in s.windows
    ensures app in Step(s, e).windows
  {
    hide RunApp, Seen, Told, Telling;
  }
}
