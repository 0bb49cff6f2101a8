/**
 What a step of the registry does to each app, whatever the containers look like inside: who
 leaves the list, who is deleted, who is hidden, and when a crashed app is loaded again.
 */
module RegistrySteps {
  import opened Options
  import opened Registries

  // ---- who leaves the list ----

  /** A close takes the app out of the list: it is not kept alive, or shows the error page. */
  predicate Closable(f: Flags) {
    !f.keepAlive || f.errorPage
  }

  /** The foreground crashes of an app id since anything was closed. */
  function CrashesSinceClose(log: seq<Entry>, appId: string): nat {
    ReloadsSinceClose(log, appId) + KeptSinceClose(log, appId)
  }

  /** A crash of the running app in the foreground that is its second one, or its third in a special window state. */
  predicate CrashesTooOften(r: Registry, e: Event, app: WebApp) {
    && e.Crash? && e.instanceId == app.instanceId && app.windowed && e.activated
    && CrashesSinceClose(r.log, app.appId) >= if e.isNormal then 1 else 2
  }

  /** The step is a close of the running app, or ends in one. */
  predicate Closes(r: Registry, e: Event, app: WebApp)
    requires app in r.apps
  {
    var f := r.apps[app];
    match e
    case Kill(appId, instanceId, _) => app.instanceId == instanceId && app.appId == appId
    case SetForceClose(instanceId) => app.instanceId == instanceId && app.windowed && f.keepAlive && f.hidden
    case WindowClosed(target) => target == app
    case PreloadFailed(target) => target == app
    case CloseAll(pid) => pid == 0 || f.pid == pid
    case Crash(_, _, _, _) => CrashesTooOften(r, e, app)
    case _ => false
  }

  /** Keep-alive does not help against it. */
  predicate Forced(r: Registry, e: Event, app: WebApp)
    requires app in r.apps
  {
    (e.Kill? && e.force) || e.SetForceClose? || e.CloseAll? || (e.WindowClosed? && r.apps[app].forceClose)
  }

  predicate Leaves(r: Registry, e: Event, app: WebApp)
    requires app in r.apps
  {
    Closes(r, e, app) && (Forced(r, e, app) || Closable(r.apps[app]))
  }

  ghost function Leaving(r: Registry, e: Event): set<WebApp>
    requires Listed(r)
  {
    set a | a in r.appList && Leaves(r, e, a)
  }

  /** A launch of an instance that is not running, which the factory makes. */
  predicate Joins(r: Registry, e: Event) {
    && e.Launch? && !e.args.Malformed? && e.made.Some?
    && forall a :: a in r.appList ==> a.instanceId != e.instanceId
  }

  /** Instance ids being distinct, the app found is the running app of that id. */
  lemma FoundIsRunning(r: Registry, instanceId: string)
    requires Consistent(r)
    ensures match r.FindByInstance(instanceId)
            case None => forall a :: a in r.appList ==> a.instanceId != instanceId
            case Some(app) => forall a :: a in r.appList && a.instanceId == instanceId <==> a == app
  {
    hide PagesMatch, PhasesMatch, ClosesProgress, DeletedOnce, ClosingMatch, CountersMatch, First;
  }

  lemma CountIs(r: Registry, appId: string)
    requires Consistent(r)
    ensures r.CrashCount(appId) == CrashesSinceClose(r.log, appId)
  {
    hide DistinctInstances, PagesMatch, PhasesMatch, ClosesProgress, DeletedOnce, ClosingMatch;
  }

  // ---- one crash in the foreground ----

  /**
   A crash in the foreground: with fewer than one (normal window) or two crashes of the id since
   anything was closed the app is loaded again and nothing else happens; otherwise it is closed and
   deleted, or only hidden if it is kept alive and shows no error page.
   */
  lemma ForegroundCrashOutcome(r: Registry, e: Event, app: WebApp)
    requires Consistent(r) && e.Crash? && e.activated && app in r.appList && app.instanceId == e.instanceId
    requires app.windowed
    ensures app in r.apps
    ensures var q, f := Step(r, e), r.apps[app];
            var again := CrashesSinceClose(r.log, app.appId) < if e.isNormal then 1 else 2;
            && (again <==> q.log == r.log + [Reloaded(app.appId)])
            && (again ==> q.appList == r.appList && q.apps == r.apps && q.pageMap == r.pageMap)
            && (!again && Closable(f) ==>
                  && q.appList == Without(r.appList, app) && app !in q.appList && q.IsDeleted(app)
                  && q.apps == r.apps[app := f.(isClosing := true, hidden := true)])
            && (!again && !Closable(f) ==>
                  && q.appList == r.appList && q.log == r.log + [Kept(app.appId)]
                  && q.apps == r.apps[app := f.(hidden := true)])
  {
    hide Consistent, Except, First;
    FoundIsRunning(r, e.instanceId);
    EverythingListed(r);
    CountIs(r, app.appId);
    var q := Step(r, e);
    if !(CrashesSinceClose(r.log, app.appId) < if e.isNormal then 1 else 2) && Closable(r.apps[app]) {
      assert |q.log| == |r.log| + 2 && q.log[|r.log| + 1] == Deleted(app);
    } else {
      assert q.log[|r.log|] == q.log[|q.log| - 1];
    }
  }

  // ---- a second crash in the foreground, over runs ----

  lemma StepGrowsLog(r: Registry, e: Event)
    requires Consistent(r)
    ensures r.log <= Step(r, e).log
  {
    hide Consistent, First, Select, Registry.CloseApp, Registry.ForceClose, Registry.CloseEach;
    EverythingListed(r);
    if e.CloseAll? {
      CloseEachKeepsLog(r, r.OfProcess(e.pid));
    }
  }

  lemma {:induction false} RunGrowsLog(events: seq<Event>, later: seq<Event>)
    ensures Run(events).log <= Run(events + later).log
    decreases |later|
  {
    hide Step, Run, Consistent;
    UnfoldRun(events + later);
    if later == [] {
      assert events + later == events;
    } else {
      var init, e := later[..|later| - 1], later[|later| - 1];
      RunGrowsLog(events, init);
      assert (events + later)[..|events + later| - 1] == events + init;
      EveryRunIsConsistent(events + init);
      StepGrowsLog(Run(events + init), e);
    }
  }

  lemma UnfoldRun(events: seq<Event>)
    ensures events != [] ==> Run(events) == Step(Run(events[..|events| - 1]), events[|events| - 1])
  {
    hide Step;
  }

  /** No app was closed between the two points of the history. */
  predicate NothingClosed(before: seq<Entry>, after: seq<Entry>) {
    forall k :: |before| <= k < |after| ==> !after[k].Closed?
  }

  lemma {:induction false} CountsGoOn(before: seq<Entry>, after: seq<Entry>, appId: string)
    requires before <= after && NothingClosed(before, after)
    ensures CrashesSinceClose(before, appId) <= CrashesSinceClose(after, appId)
    decreases |after|
  {
    if |before| < |after| {
      var init, last := after[..|after| - 1], after[|after| - 1];
      CountsGoOn(before, init, appId);
      assert after == init + [last];
      SinceAppended(init, last, appId);
    } else {
      assert before == after;
    }
  }

  lemma FirstCrashCounts(r: Registry, e: Event, app: WebApp)
    requires Consistent(r) && e.Crash? && e.activated && app in r.appList && app.instanceId == e.instanceId
    requires app.windowed && app in Step(r, e).appList
    ensures CrashesSinceClose(Step(r, e).log, app.appId) >= 1
  {
    hide Consistent, Except, First, Step;
    ForegroundCrashOutcome(r, e, app);
    SinceAppended(r.log, Reloaded(app.appId), app.appId);
    SinceAppended(r.log, Kept(app.appId), app.appId);
  }

  /**
   In every run: an app with a window that survives a crash in the foreground, and crashes there again in its
   normal window state before anything was closed, is taken out of the list and deleted, unless it
   is kept alive and shows no error page; and it never comes back.
   */
  lemma SecondForegroundCrashEnds(events: seq<Event>, first: Event, between: seq<Event>, second: Event,
                                  later: seq<Event>, app: WebApp)
    requires first.Crash? && first.activated && second.Crash? && second.activated && second.isNormal
    requires app.windowed && app.instanceId == first.instanceId == second.instanceId
    requires app in Run(events).appList && app in Run(events + [first]).appList
    requires app in Run(events + [first] + between).appList && app in Run(events + [first] + between).apps
    requires NothingClosed(Run(events + [first]).log, Run(events + [first] + between).log)
    requires Closable(Run(events + [first] + between).apps[app])
    ensures var q := Run(events + [first] + between + [second] + later); app !in q.appList && q.IsDeleted(app)
  {
    hide Step, Run, Consistent, Closable;
    var once, again := events + [first], events + [first] + between;
    EveryRunIsConsistent(events);
    EveryRunIsConsistent(again);
    UnfoldRun(once);
    assert once[..|once| - 1] == events;
    FirstCrashCounts(Run(events), first, app);
    RunGrowsLog(once, between);
    CountsGoOn(Run(once).log, Run(again).log, app.appId);
    UnfoldRun(again + [second]);
    assert (again + [second])[..|again|] == again;
    ForegroundCrashOutcome(Run(again), second, app);
    StepKnows(Run(again), second, app);
    PhasesOnlyAdvance(again + [second], later, app);
  }

  lemma StepKnows(r: Registry, e: Event, app: WebApp)
    requires Consistent(r) && app in r.apps
    ensures app in Step(r, e).apps
  {
    hide Consistent, Step;
    StepKeepsKnown(r, e, app);
  }

  // ---- the list after a step ----

  lemma LeavingIs(r: Registry, e: Event, gone: set<WebApp>)
    requires Listed(r) && forall a :: a in gone <==> a in r.appList && Leaves(r, e, a)
    ensures Leaving(r, e) == gone
  {
  }

  /** A request by instance id makes at most the running app of that id leave. */
  lemma AtMostTheFound(r: Registry, e: Event, instanceId: string)
    requires Consistent(r) && Listed(r)
    requires (e.Kill? || e.SetForceClose? || e.Crash?) && instanceId == e.instanceId
    ensures match r.FindByInstance(instanceId)
            case None => Leaving(r, e) == {}
            case Some(app) => app in r.apps && Leaving(r, e) == if Leaves(r, e, app) then {app} else {}
  {
    hide Consistent, First;
    FoundIsRunning(r, instanceId);
    match r.FindByInstance(instanceId)
    case None => LeavingIs(r, e, {});
    case Some(app) => LeavingIs(r, e, if Leaves(r, e, app) then {app} else {});
  }

  lemma CloseListAfter(r: Registry, app: WebApp)
    requires Consistent(r) && r.Live(app)
    ensures r.CloseApp(app, false).appList == if Closable(r.apps[app]) then Except(r.appList, {app}) else r.appList
    ensures r.ForceClose(app).appList == Except(r.appList, {app})
  {
    hide Consistent, Except;
    CloseKeeps(r, app, false);
    ForceCloseKeeps(r, app);
    WithoutIs(r.appList, app);
  }

  lemma FoundListAfter(r: Registry, e: Event)
    requires Consistent(r) && Listed(r) && (e.Kill? || e.SetForceClose?)
    ensures Step(r, e).appList == Except(r.appList, Leaving(r, e))
  {
    hide Consistent, Except, First, Leaving, Registry.CloseApp, Registry.ForceClose;
    ExceptNobody(r.appList, {});
    AtMostTheFound(r, e, e.instanceId);
    FoundIsLive(r, e.instanceId);
    FoundIsRunning(r, e.instanceId);
    if r.FindByInstance(e.instanceId).Some? {
      CloseListAfter(r, r.FindByInstance(e.instanceId).value);
    }
  }

  lemma CrashListAfter(r: Registry, e: Event)
    requires Consistent(r) && Listed(r) && e.Crash?
    ensures Step(r, e).appList == Except(r.appList, Leaving(r, e))
  {
    hide Consistent, Except, First, Leaving, Registry.CrashedInForeground;
    ExceptNobody(r.appList, {});
    AtMostTheFound(r, e, e.instanceId);
    FoundIsRunning(r, e.instanceId);
    if r.FindByInstance(e.instanceId).Some? {
      var app := r.FindByInstance(e.instanceId).value;
      WithoutIs(r.appList, app);
      if app.windowed && e.activated {
        ForegroundCrashOutcome(r, e, app);
      }
    }
  }

  lemma WindowListAfter(r: Registry, e: Event)
    requires Consistent(r) && Listed(r) && (e.WindowClosed? || e.PreloadFailed?) && r.Live(e.app)
    ensures Step(r, e).appList == Except(r.appList, Leaving(r, e))
  {
    hide Consistent, Except, Leaving, Registry.CloseApp, Registry.ForceClose;
    CloseListAfter(r, e.app);
    if e.app in r.appList {
      LeavingIs(r, e, if Leaves(r, e, e.app) then {e.app} else {});
    } else {
      LeavingIs(r, e, {});
      ExceptNobody(r.appList, {e.app});
    }
    ExceptNobody(r.appList, {});
  }

  lemma CloseAllListAfter(r: Registry, pid: nat)
    requires Consistent(r) && Listed(r)
    ensures Step(r, CloseAll(pid)).appList == Except(r.appList, Leaving(r, CloseAll(pid)))
  {
    hide Consistent, Except, Leaving, Registry.CloseEach;
    CloseAllLeavesOthers(r, pid);
    LeavingIs(r, CloseAll(pid), OfProcessSet(r, pid));
  }

  lemma CompletedListAfter(r: Registry, e: Event)
    requires Consistent(r) && Listed(r) && Possible(r, e) && e.CloseCompleted?
    ensures Step(r, e).appList == r.appList
  {
    hide Except;
    CompletionNeedsAClose(r, e.app);
  }

  lemma OthersListAfter(r: Registry, e: Event)
    requires Consistent(r) && Listed(r) && (e.Launch? || e.Paused? || e.Changed? || e.Moved?) && Possible(r, e)
    ensures Step(r, e).appList == r.appList + if Joins(r, e) then [e.made.value.0] else []
    ensures Leaving(r, e) == {}
  {
    hide Consistent, First;
    LeavingIs(r, e, {});
    assert r.appList + [] == r.appList;
    if e.Launch? {
      FoundIsRunning(r, e.instanceId);
    }
  }

  /**
   The list after every step: exactly the apps that leave are gone, the others keep their order,
   and a new one is at the end exactly if one joins.
   */
  lemma ListAfter(r: Registry, e: Event)
    requires Consistent(r) && Possible(r, e)
    ensures Listed(r)
    ensures Step(r, e).appList == Except(r.appList, Leaving(r, e)) + if Joins(r, e) then [e.made.value.0] else []
  {
    hide Consistent, Except, Leaving, Step, Possible;
    EverythingListed(r);
    ExceptNobody(r.appList, {});
    match e {
      case Kill(_, _, _) => FoundListAfter(r, e);
      case SetForceClose(_) => FoundListAfter(r, e);
      case Crash(_, _, _, _) => CrashListAfter(r, e);
      case WindowClosed(_) => PossibleApp(r, e); WindowListAfter(r, e);
      case PreloadFailed(_) => PossibleApp(r, e); WindowListAfter(r, e);
      case CloseAll(pid) => CloseAllListAfter(r, pid);
      case CloseCompleted(_, _) => CompletedListAfter(r, e); LeavingIs(r, e, {});
      case _ => OthersListAfter(r, e);
    }
    NothingAppended(Except(r.appList, Leaving(r, e)));
  }

  lemma PossibleApp(r: Registry, e: Event)
    requires Possible(r, e) && (e.WindowClosed? || e.PreloadFailed?)
    ensures r.Live(e.app)
  {
  }

  lemma NothingAppended(list: seq<WebApp>)
    ensures list + [] == list
  {
  }

  // ---- the flags after a step ----

  /** The step closes the app: a running one, or by its window or its failed load also one that is closing already. */
  predicate IsClosedBy(r: Registry, e: Event, app: WebApp)
    requires app in r.apps
  {
    Closes(r, e, app) && (app in r.appList || e.WindowClosed? || e.PreloadFailed?)
  }

  predicate IsClosedForGoodBy(r: Registry, e: Event, app: WebApp)
    requires app in r.apps
  {
    IsClosedBy(r, e, app) && (Forced(r, e, app) || Closable(r.apps[app]))
  }

  predicate IsShownBy(r: Registry, e: Event, app: WebApp) {
    e.Launch? && e.args.Show? && app in r.appList && app.instanceId == e.instanceId
  }

  predicate IsPausedBy(r: Registry, e: Event, app: WebApp)
    requires app in r.apps
  {
    e.Paused? && app in r.appList && app.instanceId == e.instanceId && !r.apps[app].errorPage
  }

  /** The app crashed while its window was minimized and not activated. */
  predicate IsMarkedBy(r: Registry, e: Event, app: WebApp) {
    && e.Crash? && app in r.appList && app.instanceId == e.instanceId
    && app.windowed && !e.activated && e.minimized
  }

  /** Each flag of an app after a step, by the reasons it can change for. */
  predicate FlagsFollow(r: Registry, e: Event, app: WebApp, g: Flags)
    requires app in r.apps
  {
    var f, changed := r.apps[app], e.Changed? && e.app == app;
    var ends := IsClosedForGoodBy(r, e, app) && !e.Crash?;
    && g.hidden == (if changed then e.state.hidden
                    else IsClosedBy(r, e, app) || IsPausedBy(r, e, app) || (f.hidden && !IsShownBy(r, e, app)))
    && g.isClosing == (f.isClosing || IsClosedForGoodBy(r, e, app))
    && g.awaitsCallback == (f.awaitsCallback || (ends && f.hasCallback))
    && g.cleaning == (f.cleaning || (ends && !f.hasCallback))
    && g.keepAlive == (if changed then e.state.keepAlive
                       else f.keepAlive && !(IsClosedBy(r, e, app) && Forced(r, e, app)))
    && g.crashed == (if changed then e.state.crashed
                     else IsMarkedBy(r, e, app) || (f.crashed && !IsShownBy(r, e, app)))
    && g.forceClose == (f.forceClose || (e.SetForceClose? && app in r.appList && app.instanceId == e.instanceId
                                         && !Closes(r, e, app)))
    && g.errorPage == (if changed then e.state.errorPage else f.errorPage)
    && g.hasCallback == (if changed then e.state.hasCallback else f.hasCallback)
    && g.pid == if e.Moved? && e.app == app then e.pid else f.pid
  }

  lemma CloseFlags(r: Registry, target: WebApp, app: WebApp)
    requires target in r.apps && app in r.apps
    ensures var f, q := r.apps[target], r.CloseApp(target, false);
            var hidden := f.(hidden := true);
            var closed := hidden.(isClosing := true);
            q.apps[app] == if app != target then r.apps[app]
            else if !Closable(f) then hidden
            else if f.hasCallback then closed.(awaitsCallback := true)
            else closed.(cleaning := true)
    ensures var f, q := r.apps[target], r.ForceClose(target);
            var closed := f.(hidden := true, isClosing := true, keepAlive := false);
            q.apps[app] == if app != target then r.apps[app]
            else if f.hasCallback then closed.(awaitsCallback := true)
            else closed.(cleaning := true)
  {
    hide Without;
  }

  /** What a request by instance id comes to. */
  lemma RequestIs(r: Registry, e: Event)
    requires Listed(r) && (e.Kill? || e.SetForceClose?)
    ensures match r.FindByInstance(e.instanceId)
            case None => Step(r, e) == r
            case Some(target) =>
              && target in r.apps
              && Step(r, e) == if Closes(r, e, target)
                               then if Forced(r, e, target) then r.ForceClose(target) else r.CloseApp(target, false)
                               else if e.Kill? then r
                                 else r.With(target, r.apps[target].(forceClose := true))
  {
    hide First, Registry.CloseApp, Registry.ForceClose;
  }

  lemma RequestFlags(r: Registry, e: Event, app: WebApp)
    requires Consistent(r) && Listed(r) && app in r.apps && (e.Kill? || e.SetForceClose?)
    ensures app in Step(r, e).apps && FlagsFollow(r, e, app, Step(r, e).apps[app])
  {
    hide Consistent, Registry.FindByInstance, Registry.CloseApp, Registry.ForceClose, Step, FlagsFollow;
    FoundIsRunning(r, e.instanceId);
    RequestIs(r, e);
    if r.FindByInstance(e.instanceId).Some? {
      CloseFlags(r, r.FindByInstance(e.instanceId).value, app);
    }
    if r.FindByInstance(e.instanceId) == Some(app) {
      TargetFollows(r, e, app);
    } else {
      OthersFollow(r, e, app);
    }
  }

  lemma OthersFollow(r: Registry, e: Event, app: WebApp)
    requires app in r.apps && (e.Kill? || e.SetForceClose?)
    requires !(app in r.appList && app.instanceId == e.instanceId)
    ensures FlagsFollow(r, e, app, r.apps[app])
  {
  }

  lemma TargetFollows(r: Registry, e: Event, app: WebApp)
    requires (e.Kill? || e.SetForceClose?) && app in r.apps && app in r.appList && app.instanceId == e.instanceId
    ensures FlagsFollow(r, e, app, if Closes(r, e, app)
                        then if Forced(r, e, app) then r.ForceClose(app).apps[app]
                                           else r.CloseApp(app, false).apps[app]
                        else if e.Kill? then r.apps[app]
                          else r.apps[app].(forceClose := true))
  {
    hide Registry.CloseApp, Registry.ForceClose;
    CloseFlags(r, app, app);
  }

  lemma PausedFlags(r: Registry, e: Event, app: WebApp)
    requires Consistent(r) && Listed(r) && app in r.apps && e.Paused?
    ensures app in Step(r, e).apps && FlagsFollow(r, e, app, Step(r, e).apps[app])
  {
    hide Consistent, First;
    FoundIsRunning(r, e.instanceId);
  }

  lemma CrashFlags(r: Registry, e: Event, app: WebApp)
    requires Consistent(r) && Listed(r) && app in r.apps && e.Crash?
    ensures app in Step(r, e).apps && FlagsFollow(r, e, app, Step(r, e).apps[app])
  {
    hide Consistent, First, Except, Registry.CrashedInForeground;
    FoundIsRunning(r, e.instanceId);
    if r.FindByInstance(e.instanceId).Some? {
      var target := r.FindByInstance(e.instanceId).value;
      if target.windowed && e.activated {
        ForegroundCrashOutcome(r, e, target);
      }
    }
  }

  lemma WindowFlags(r: Registry, e: Event, app: WebApp)
    requires Listed(r) && app in r.apps && (e.WindowClosed? || e.PreloadFailed?) && r.Live(e.app)
    ensures app in Step(r, e).apps && FlagsFollow(r, e, app, Step(r, e).apps[app])
  {
    hide Registry.CloseApp, Registry.ForceClose;
    CloseFlags(r, e.app, app);
  }

  lemma {:induction false} CloseEachFlags(r: Registry, targets: seq<WebApp>, app: WebApp)
    requires app in r.apps && (forall a :: a in targets ==> a in r.apps)
    ensures app in r.CloseEach(targets).apps
    ensures var f := r.apps[app];
            var closed := f.(hidden := true, isClosing := true, keepAlive := false);
            r.CloseEach(targets).apps[app] == if app !in targets then f
            else if f.hasCallback then closed.(awaitsCallback := true)
            else closed.(cleaning := true)
    decreases |targets|
  {
    hide Registry.ForceClose;
    if targets != [] {
      assert targets[0] in targets && forall a :: a in targets[1..] ==> a in targets;
      CloseFlags(r, targets[0], app);
      CloseEachFlags(r.ForceClose(targets[0]), targets[1..], app);
    }
  }

  lemma CloseAllFlags(r: Registry, pid: nat, app: WebApp)
    requires Listed(r) && app in r.apps
    ensures var q := Step(r, CloseAll(pid)); app in q.apps && FlagsFollow(r, CloseAll(pid), app, q.apps[app])
  {
    hide Registry.CloseEach;
    CloseEachFlags(r, r.OfProcess(pid), app);
  }

  lemma LaunchFlags(r: Registry, e: Event, app: WebApp)
    requires Consistent(r) && Listed(r) && app in r.apps && Possible(r, e) && e.Launch?
    ensures app in Step(r, e).apps && FlagsFollow(r, e, app, Step(r, e).apps[app])
  {
    hide Consistent, First;
    FoundIsRunning(r, e.instanceId);
  }

  lemma OtherFlags(r: Registry, e: Event, app: WebApp)
    requires Listed(r) && app in r.apps && Possible(r, e) && (e.CloseCompleted? || e.Changed? || e.Moved?)
    ensures app in Step(r, e).apps && FlagsFollow(r, e, app, Step(r, e).apps[app])
  {
    hide Without;
  }

  /** The flags of every app after every step, exactly. */
  lemma FlagsAfter(r: Registry, e: Event, app: WebApp)
    requires Consistent(r) && Possible(r, e) && app in r.apps
    ensures app in Step(r, e).apps && FlagsFollow(r, e, app, Step(r, e).apps[app])
  {
    hide Consistent, Step, Possible, FlagsFollow;
    EverythingListed(r);
    match e {
      case Kill(_, _, _) => RequestFlags(r, e, app);
      case SetForceClose(_) => RequestFlags(r, e, app);
      case Launch(_, _, _) => LaunchFlags(r, e, app);
      case Paused(_) => PausedFlags(r, e, app);
      case Crash(_, _, _, _) => CrashFlags(r, e, app);
      case WindowClosed(_) => PossibleApp(r, e); WindowFlags(r, e, app);
      case PreloadFailed(_) => PossibleApp(r, e); WindowFlags(r, e, app);
      case CloseAll(pid) => CloseAllFlags(r, pid, app);
      case _ => OtherFlags(r, e, app);
    }
  }

  // ---- deletions and counters after a step ----

  lemma LogAfterCloses(r: Registry, app: WebApp)
    requires app in r.apps
    ensures r.CloseApp(app, false).log == if Closable(r.apps[app]) then r.log + [Closed(app)] else r.log
    ensures r.CloseApp(app, false).crashes == if Closable(r.apps[app]) then map[] else r.crashes
    ensures r.ForceClose(app).log == r.log + [Closed(app)] && r.ForceClose(app).crashes == map[]
  {
    hide Without;
  }

  lemma {:induction false} LogAfterCloseEach(r: Registry, targets: seq<WebApp>)
    requires forall a :: a in targets ==> a in r.apps
    ensures var q := r.CloseEach(targets);
            && (forall a :: q.IsDeleted(a) <==> r.IsDeleted(a))
            && q.crashes == if targets == [] then r.crashes else map[]
    decreases |targets|
  {
    hide Registry.ForceClose;
    if targets != [] {
      assert targets[0] in targets && forall a :: a in targets[1..] ==> a in targets;
      LogAfterCloses(r, targets[0]);
      LogAfterCloseEach(r.ForceClose(targets[0]), targets[1..]);
    }
  }

  /** Someone is closed for good by the step. */
  ghost predicate ClosesSomeone(r: Registry, e: Event) {
    exists a :: a in r.apps && IsClosedForGoodBy(r, e, a)
  }

  /** A crash in the foreground of a running app with this id and a window. */
  ghost predicate CountsFor(r: Registry, e: Event, appId: string) {
    && e.Crash? && e.activated
    && exists a :: a in r.appList && a.instanceId == e.instanceId && a.windowed && a.appId == appId
  }

  /** The app is deleted by the step: by the end of its close, or at once after too many crashes. */
  predicate IsDeletedBy(r: Registry, e: Event, app: WebApp)
    requires app in r.apps
  {
    (e.CloseCompleted? && e.app == app) || (e.Crash? && IsClosedForGoodBy(r, e, app))
  }

  predicate EndsFollow(r: Registry, e: Event, app: WebApp, q: Registry)
    requires app in r.apps
  {
    q.IsDeleted(app) <==> r.IsDeleted(app) || IsDeletedBy(r, e, app)
  }

  ghost predicate CountFollows(r: Registry, e: Event, appId: string, q: Registry) {
    q.CrashCount(appId) == if ClosesSomeone(r, e) then 0
    else r.CrashCount(appId) + if CountsFor(r, e, appId) then 1 else 0
  }

  lemma FoundEnds(r: Registry, e: Event, app: WebApp, appId: string)
    requires Consistent(r) && Listed(r) && app in r.apps && (e.Kill? || e.SetForceClose?)
    ensures EndsFollow(r, e, app, Step(r, e)) && CountFollows(r, e, appId, Step(r, e))
  {
    hide Consistent, First, Registry.CloseApp, Registry.ForceClose;
    FoundIsRunning(r, e.instanceId);
    if r.FindByInstance(e.instanceId).Some? {
      var target := r.FindByInstance(e.instanceId).value;
      LogAfterCloses(r, target);
      assert ClosesSomeone(r, e) <==> IsClosedForGoodBy(r, e, target);
    }
  }

  lemma CrashEnds(r: Registry, e: Event, app: WebApp, appId: string)
    requires Consistent(r) && Listed(r) && app in r.apps && e.Crash?
    ensures EndsFollow(r, e, app, Step(r, e)) && CountFollows(r, e, appId, Step(r, e))
  {
    hide Consistent, First, Except;
    FoundIsRunning(r, e.instanceId);
    if r.FindByInstance(e.instanceId).Some? {
      var target := r.FindByInstance(e.instanceId).value;
      CountIs(r, target.appId);
      assert ClosesSomeone(r, e) <==> IsClosedForGoodBy(r, e, target);
      assert target.windowed && e.activated ==> CountsFor(r, e, target.appId);
    }
  }

  lemma WindowEnds(r: Registry, e: Event, app: WebApp, appId: string)
    requires Listed(r) && app in r.apps && (e.WindowClosed? || e.PreloadFailed?) && r.Live(e.app)
    ensures EndsFollow(r, e, app, Step(r, e)) && CountFollows(r, e, appId, Step(r, e))
  {
    hide Registry.CloseApp, Registry.ForceClose;
    LogAfterCloses(r, e.app);
    assert ClosesSomeone(r, e) <==> IsClosedForGoodBy(r, e, e.app);
  }

  lemma CloseAllEnds(r: Registry, pid: nat, app: WebApp, appId: string)
    requires Listed(r) && app in r.apps
    ensures EndsFollow(r, CloseAll(pid), app, Step(r, CloseAll(pid)))
    ensures CountFollows(r, CloseAll(pid), appId, Step(r, CloseAll(pid)))
  {
    hide Registry.CloseEach, Select;
    var targets := r.OfProcess(pid);
    LogAfterCloseEach(r, targets);
    if targets != [] {
      assert targets[0] in targets && IsClosedForGoodBy(r, CloseAll(pid), targets[0]);
    }
  }

  lemma OtherEnds(r: Registry, e: Event, app: WebApp, appId: string)
    requires Listed(r) && app in r.apps && Possible(r, e)
    requires e.Launch? || e.Paused? || e.CloseCompleted? || e.Changed? || e.Moved?
    ensures EndsFollow(r, e, app, Step(r, e)) && CountFollows(r, e, appId, Step(r, e))
  {
    hide First, Except;
  }

  /** Who is deleted by a step, and what it does to the crash counter of an app id. */
  lemma EndsAfter(r: Registry, e: Event, app: WebApp, appId: string)
    requires Consistent(r) && Possible(r, e) && app in r.apps
    ensures EndsFollow(r, e, app, Step(r, e)) && CountFollows(r, e, appId, Step(r, e))
  {
    hide Consistent, Step, Possible, EndsFollow, CountFollows;
    EverythingListed(r);
    match e {
      case Kill(_, _, _) => FoundEnds(r, e, app, appId);
      case SetForceClose(_) => FoundEnds(r, e, app, appId);
      case Crash(_, _, _, _) => CrashEnds(r, e, app, appId);
      case WindowClosed(_) => PossibleApp(r, e); WindowEnds(r, e, app, appId);
      case PreloadFailed(_) => PossibleApp(r, e); WindowEnds(r, e, app, appId);
      case CloseAll(pid) => CloseAllEnds(r, pid, app, appId);
      case _ => OtherEnds(r, e, app, appId);
    }
  }
}
