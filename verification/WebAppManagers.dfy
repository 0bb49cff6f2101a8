/** WebAppManager: the object whose methods take the steps of module Registries. */
module WebAppManagers {
  import opened Options
  import opened Registries
  import RegistrySteps

  lemma ClosedParts(r: Registry, app: WebApp, ignoreCleanResource: bool)
    requires app in r.apps
    ensures var q, closed := r.CloseForGood(app, ignoreCleanResource), r.apps[app].(isClosing := true, hidden := true);
            && q.appList == Without(r.appList, app) && q.pageMap == r.pageMap[(app.pageAppId, app) := 0]
            && q.crashes == map[]
            && (ignoreCleanResource ==>
                  && q.closingApps == r.closingApps && q.apps == r.apps[app := closed]
                  && q.log == r.log + [Closed(app)] + [Deleted(app)])
            && (!ignoreCleanResource ==>
                  && q.closingApps == (if app.instanceId in r.closingApps then r.closingApps
                                       else r.closingApps[app.instanceId := app])
                  && q.apps == r.apps[app := closed.Dispatched()] && q.log == r.log + [Closed(app)])
  {
    hide Without;
  }

  /** A crash in the foreground, by the number of crashes before. */
  lemma CrashIsCounted(r: Registry, app: WebApp, isNormal: bool)
    requires app in r.apps
    ensures var q, f := r.CrashedInForeground(app, isNormal), r.apps[app];
            if r.CrashCount(app.appId) < (if isNormal then 1 else 2)
            then q.appList == r.appList && q.log == r.log + [Reloaded(app.appId)]
            else if f.keepAlive && !f.errorPage
              then q.appList == r.appList && q.apps[app].hidden && q.log == r.log + [Kept(app.appId)]
              else app !in q.appList && q.apps[app].isClosing && q.log == r.log + [Closed(app)] + [Deleted(app)]
  {
    hide Except;
  }

  lemma LoadedAgain(r: Registry, instanceId: string, activated: bool, isNormal: bool, minimized: bool)
    requires Consistent(r) && Listed(r)
    ensures forall app :: app in r.appList && app.instanceId == instanceId && app.windowed && activated ==>
                            (r.ProcessCrashed(instanceId, activated, isNormal, minimized).log ==
                             r.log + [Reloaded(app.appId)] <==>
                             RegistrySteps.CrashesSinceClose(r.log, app.appId) < if isNormal then 1 else 2)
  {
    hide Consistent, Registry.ProcessCrashed;
    var e := Registries.Crash(instanceId, activated, isNormal, minimized);
    forall app | app in r.appList && app.instanceId == instanceId && app.windowed && activated
      ensures Step(r, e).log == r.log + [Reloaded(app.appId)] <==>
              RegistrySteps.CrashesSinceClose(r.log, app.appId) < if isNormal then 1 else 2
    {
      RegistrySteps.ForegroundCrashOutcome(r, e, app);
    }
  }

  class WebAppManager {
    var appList: seq<WebApp>
    var appPageMap: multiset<(string, WebApp)>
    var closingAppList: map<string, WebApp>
    var lastCrashedAppIds: map<string, nat>

    /** Every app object ever registered, and what happened to it. */
    ghost var known: set<WebApp>
    ghost var log: seq<Entry>

    ghost predicate Shape()
      reads this
    {
      forall a :: a in appList ==> a in known
    }

    /** All containers agree, in the sense of module Registries. */
    ghost predicate Valid()
      reads this, known
    {
      Shape() && Consistent(View())
    }

    ghost function Apps(): (apps: map<WebApp, Flags>)
      reads this, known
      ensures apps.Keys == known
      ensures forall a :: a in known ==> apps[a] == a.View()
    {
      map a | a in known :: a.View()
    }

    ghost function View(): Registry
      reads this, known
    {
      Registry(appList, appPageMap, closingAppList, lastCrashedAppIds, Apps(), log)
    }

    /** The effect of changing one app object. */
    twostate lemma OneAppChanged(app: WebApp)
      requires app in known && known == old(known)
      requires forall a :: a in known && a != app ==> a.View() == old(a.View())
      ensures Apps() == old(Apps())[app := app.View()]
    {
    }

    twostate lemma OneAppMore(app: WebApp)
      requires known == old(known) + {app}
      requires forall a :: a in known ==> a.View() == old(a.View())
      ensures Apps() == old(Apps())[app := old(app.View())]
    {
    }

    twostate lemma NoAppChanged()
      requires known == old(known)
      requires forall a :: a in known ==> a.View() == old(a.View())
      ensures Apps() == old(Apps())
    {
    }

    constructor ()
      ensures Valid() && View() == EMPTY
    {
      EveryRunIsConsistent([]);
      appList, appPageMap, closingAppList, lastCrashedAppIds, known, log := [], multiset{}, map[], map[], {}, [];
    }

    // ---- lookup ----

    method FindAppByInstanceId(instanceId: string) returns (found: Option<WebApp>)
      requires Shape()
      ensures found == View().FindByInstance(instanceId)
    {
      for i := 0 to |appList|
        invariant First(appList, instanceId) == First(appList[i..], instanceId)
      {
        var app := appList[i];
        if app.instanceId == instanceId {
          return Some(app);
        }
      }
      return None;
    }

    method IsRunningApp(id: string) returns (running: bool)
      requires Shape()
      ensures running == View().FindByInstance(id).Some?
    {
      for i := 0 to |appList|
        invariant First(appList, id) == First(appList[i..], id)
      {
        if appList[i].instanceId == id {
          return true;
        }
      }
      return false;
    }

    // ---- the page map and the app list ----

    method WebPageAdded(app: WebApp)
      modifies this`appPageMap
      ensures appPageMap == old(if (app.pageAppId, app) in appPageMap then appPageMap
                                else appPageMap + multiset{(app.pageAppId, app)})
    {
      if (app.pageAppId, app) !in appPageMap {
        appPageMap := appPageMap + multiset{(app.pageAppId, app)};
      }
    }

    /** Every entry of the page is erased, however often it occurs. */
    method WebPageRemoved(app: WebApp)
      modifies this`appPageMap
      ensures appPageMap == old(appPageMap)[(app.pageAppId, app) := 0]
    {
      var entry := (app.pageAppId, app);
      while entry in appPageMap
        invariant forall e :: e != entry ==> appPageMap[e] == old(appPageMap)[e]
        decreases appPageMap[entry]
      {
        appPageMap := appPageMap - multiset{entry};
      }
    }

    method AppDeleted(app: WebApp)
      modifies this`appList
      ensures appList == Without(old(appList), app)
    {
      hide Except;
      ghost var all := appList;
      var rest := [];
      for i := 0 to |appList|
        invariant appList == all
        invariant rest + Except(all[i..], {app}) == Except(all, {app})
      {
        ExceptFrom(all, i, {app});
        ghost var soFar, tail := rest, Except(all[i + 1..], {app});
        if appList[i] != app {
          rest := rest + [appList[i]];
          assert soFar + ([all[i]] + tail) == rest + tail;
        }
      }
      ExceptNone(all, {app});
      appList := rest;
    }

    method RemoveClosingAppList(id: string)
      modifies this`closingAppList
      ensures closingAppList == old(closingAppList) - {id}
    {
      while id in closingAppList
        invariant closingAppList == old(closingAppList) || closingAppList == old(closingAppList) - {id}
        decreases id in closingAppList
      {
        closingAppList := closingAppList - {id};
      }
    }

    // ---- the flags of one app ----

    method HideWindow(app: WebApp) returns (done: bool)
      requires Shape() && app in known
      modifies app
      ensures Shape() && done == !old(View()).apps[app].errorPage
      ensures View() == if done then old(View().With(app, app.View().(hidden := true))) else old(View())
    {
      hide Apps;
      done := app.HideWindow();
      OneAppChanged(app);
    }

    method SetForceClose(app: WebApp)
      requires Shape() && app in known
      modifies app
      ensures Shape() && View() == old(View().With(app, app.View().(forceClose := true)))
    {
      hide Apps;
      app.forceClose := true;
      OneAppChanged(app);
    }

    method MarkAsCrashed(app: WebApp)
      requires Shape() && app in known
      modifies app
      ensures Shape() && View() == old(View().With(app, app.View().(crashed := true)))
    {
      hide Apps;
      app.crashed := true;
      OneAppChanged(app);
    }

    method Relaunch(app: WebApp)
      requires Shape() && app in known
      modifies app
      ensures Shape() && View() == old(View().With(app, app.View().(hidden := false, crashed := false)))
    {
      hide Apps;
      app.hiddenWindow := false;
      app.crashed := false;
      OneAppChanged(app);
    }

    // ---- closing ----

    method CloseAppInternal(app: WebApp, ignoreCleanResource: bool)
      requires Shape() && app in known
      modifies this, app
      ensures Shape() && known == old(known)
      ensures View() == old(View()).CloseApp(app, ignoreCleanResource)
    {
      hide Except, Apps, Registry.CloseForGood;
      if app.keepAlive {
        var hid := HideWindow(app);
        if hid {
          return;
        }
      }
      CloseForGood(app, ignoreCleanResource);
    }

    /** CloseAppInternal for an app that is not just hidden. */
    method CloseForGood(app: WebApp, ignoreCleanResource: bool)
      requires Shape() && app in known
      modifies this, app
      ensures Shape() && known == old(known)
      ensures View() == old(View()).CloseForGood(app, ignoreCleanResource)
    {
      hide Without, Apps, Flags.Dispatched, Registry.CloseForGood;
      ClosedParts(View(), app, ignoreCleanResource);
      Unregister(app);
      if ignoreCleanResource {
        log := log + [Deleted(app)];
        OneAppChanged(app);
      } else {
        StartEnd(app);
        OneAppChanged(app);
      }
    }

    /** The end of CloseAppInternal, for an app that is not deleted at once. */
    method StartEnd(app: WebApp)
      modifies this`closingAppList, app
      ensures closingAppList == if app.instanceId in old(closingAppList) then old(closingAppList)
                                else old(closingAppList)[app.instanceId := app]
      ensures app.View() == old(app.View()).Dispatched() && app.View().Underway()
    {
      if app.instanceId !in closingAppList {
        closingAppList := closingAppList[app.instanceId := app];
      }
      app.Dispatch();
    }

    /** The middle of CloseAppInternal: out of list and map, counters cleared, page marked and hidden. */
    method Unregister(app: WebApp)
      requires Shape() && app in known
      modifies this, app
      ensures Shape() && known == old(known) && closingAppList == old(closingAppList)
      ensures appList == Without(old(appList), app) && appPageMap == old(appPageMap)[(app.pageAppId, app) := 0]
      ensures lastCrashedAppIds == map[] && log == old(log) + [Closed(app)]
      ensures app.View() == old(app.View()).(isClosing := true, hidden := true)
    {
      hide Except;
      AppDeleted(app);
      WebPageRemoved(app);
      lastCrashedAppIds := map[];
      app.pageIsClosing := true;
      app.hiddenWindow := true;
      log := log + [Closed(app)];
    }

    method ForceCloseAppInternal(app: WebApp)
      requires Shape() && app in known
      modifies this, app
      ensures Shape() && known == old(known)
      ensures View() == old(View()).ForceClose(app)
    {
      hide Apps, Registry.CloseApp;
      app.keepAlive := false;
      OneAppChanged(app);
      CloseAppInternal(app, false);
    }

    /** CloseWebApp in web_app_base.cc, reached from the four ways a close can end. */
    method CloseWebApp(app: WebApp, end: Completion)
      requires Valid() && Possible(View(), CloseCompleted(app, end))
      modifies this
      ensures Valid() && known == old(known)
      ensures View() == old(View()).CompleteClose(app)
      ensures appList == old(appList) && View().IsDeleted(app)
    {
      hide Except, Apps, Consistent, Possible;
      CompletionsAreOfClosingApps(View(), app, end);
      CompletionNeedsAClose(View(), app);
      AppDeleted(app);
      RemoveClosingAppList(app.appId);
      log := log + [Deleted(app)];
      NoAppChanged();
    }

    /** DoClose in web_app_wayland.cc. */
    method DoClose(app: WebApp)
      requires Valid() && View().Live(app)
      modifies this, app
      ensures Valid() && known == old(known)
      ensures View() == old(View()).WindowClosed(app)
    {
      hide Except, Consistent, Registry.CloseApp;
      WindowCloseKeeps(View(), app);
      if app.forceClose {
        ForceCloseAppInternal(app);
        return;
      }
      if app.keepAlive {
        var hid := HideWindow(app);
        if hid {
          KeptIsHiddenToo(old(View()), app);
          return;
        }
      }
      CloseAppInternal(app, false);
    }

    /** WebPageLoadFailed in web_app_wayland.cc: only an app that is preloading is closed. */
    method WebPageLoadFailed(app: WebApp, preloading: bool)
      requires Valid() && View().Live(app)
      modifies this, app
      ensures Valid() && known == old(known)
      ensures View() == if preloading then old(View()).CloseApp(app, false) else old(View())
    {
      hide Consistent, Registry.CloseApp;
      CloseKeeps(View(), app, false);
      if preloading {
        CloseAppInternal(app, false);
      }
    }

    /** After a forced kill no app of that instance is left. */
    method OnKillApp(appId: string, instanceId: string, force: bool) returns (found: bool)
      requires Valid()
      modifies this, known
      ensures Valid() && known == old(known)
      ensures View() == old(View()).Kill(appId, instanceId, force)
      ensures found ==
              (match old(View()).FindByInstance(instanceId) case None => false case Some(app) => app.appId == appId)
      ensures found && force ==> View().FindByInstance(instanceId).None?
    {
      hide First, Registry.ForceClose, Registry.CloseApp, Consistent;
      FoundKeeps(View(), instanceId);
      ForcedIsGone(View(), instanceId);
      var app := FindAppByInstanceId(instanceId);
      if app.None? || app.value.appId != appId {
        return false;
      }
      if force {
        ForceCloseAppInternal(app.value);
      } else {
        CloseAppInternal(app.value, false);
      }
      return true;
    }

    method OnPauseApp(instanceId: string) returns (found: bool)
      requires Valid()
      modifies known
      ensures Valid()
      ensures View() == old(View()).Pause(instanceId) && found == old(View()).FindByInstance(instanceId).Some?
    {
      hide First, Apps, Consistent, Registry.CloseApp, Registry.ForceClose;
      FoundKeeps(View(), instanceId);
      var app := FindAppByInstanceId(instanceId);
      if app.None? {
        return false;
      }
      var _ := HideWindow(app.value);
      return true;
    }

    method SetForceCloseApp(instanceId: string)
      requires Valid()
      modifies this, known
      ensures Valid() && known == old(known)
      ensures View() == old(View()).SetForceClose(instanceId)
    {
      hide First, Registry.ForceClose, Registry.CloseApp, Apps, Consistent;
      FoundKeeps(View(), instanceId);
      var app := FindAppByInstanceId(instanceId);
      if app.None? {
        return;
      }
      if app.value.windowed {
        if app.value.keepAlive && app.value.hiddenWindow {
          ForceCloseAppInternal(app.value);
          return;
        }
      }
      SetForceClose(app.value);
    }

    /** The apps of the process are gone from the list, all the others are left, and for process 0 nothing is. */
    method CloseAllApps(pid: nat) returns (done: bool)
      requires Valid()
      modifies this, known
      ensures Valid() && known == old(known) && done
      ensures View() == old(View().CloseEach(View().OfProcess(pid)))
      ensures appList == old(Except(appList, OfProcessSet(View(), pid)))
      ensures pid == 0 ==> appList == [] && appPageMap == multiset{}
    {
      hide Consistent, OfProcessSet, Except;
      ghost var before := View();
      CloseAllLeavesOthers(before, pid);
      var runningApps := SelectApps(pid);
      while runningApps != []
        invariant Shape() && known == old(known)
        invariant forall a :: a in runningApps ==> a in known
        invariant View().CloseEach(runningApps) == before.CloseEach(before.OfProcess(pid))
        decreases |runningApps|
      {
        hide Registry.ForceClose, Select;
        var app := runningApps[0];
        ForceCloseAppInternal(app);
        runningApps := runningApps[1..];
      }
      return runningApps == [];
    }

    /** The first loop of CloseAllApps. */
    method SelectApps(pid: nat) returns (selected: seq<WebApp>)
      requires Shape()
      ensures selected == View().OfProcess(pid)
    {
      hide Select, Selecting;
      ghost var apps := View().apps;
      selected := [];
      SelectEnds(appList, apps, pid, []);
      for i := 0 to |appList|
        invariant Selecting(appList, apps, pid, i, selected)
      {
        SelectRound(appList, apps, pid, i, selected);
        var app := appList[i];
        if pid == 0 || app.pid == pid {
          selected := selected + [app];
        }
      }
      SelectEnds(appList, apps, pid, selected);
    }

    // ---- crashes ----

    method ProcessCrashed(instanceId: string, activated: bool, isNormal: bool, minimized: bool) returns (found: bool)
      requires Valid()
      modifies this, known
      ensures Valid() && known == old(known)
      ensures found == old(View()).FindByInstance(instanceId).Some?
      ensures View() == old(View()).ProcessCrashed(instanceId, activated, isNormal, minimized)
      ensures forall app :: app in old(appList) && app.instanceId == instanceId && app.windowed && activated ==>
                              (log == old(log) + [Reloaded(app.appId)] <==>
                               RegistrySteps.CrashesSinceClose(old(log), app.appId) < if isNormal then 1 else 2)
    {
      hide First, Registry.CrashedInForeground, Apps, Consistent;
      EverythingListed(View());
      LoadedAgain(View(), instanceId, activated, isNormal, minimized);
      CrashKeeps(View(), instanceId, activated, isNormal, minimized);
      var app := FindAppByInstanceId(instanceId);
      if app.None? {
        return false;
      }
      if app.value.windowed {
        if activated {
          CrashedInForeground(app.value, isNormal);
        } else if minimized {
          MarkAsCrashed(app.value);
        }
      }
      return true;
    }

    /** The branch of ProcessCrashed for an app in the foreground. */
    method CrashedInForeground(app: WebApp, isNormal: bool)
      requires Shape() && app in known
      modifies this, app
      ensures Shape() && known == old(known)
      ensures View() == old(View()).CrashedInForeground(app, isNormal)
      ensures if old(View()).CrashCount(app.appId) < (if isNormal then 1 else 2)
              then appList == old(appList) && log == old(log) + [Reloaded(app.appId)]
              else if old(app.keepAlive && !app.isLoadErrorPageFinish)
                then appList == old(appList) && app.hiddenWindow && log == old(log) + [Kept(app.appId)]
                else app !in appList && app.pageIsClosing && log == old(log) + [Closed(app)] + [Deleted(app)]
    {
      hide Registry.CrashedTooOften, Apps;
      CrashIsCounted(View(), app, isNormal);
      var count := (if app.appId in lastCrashedAppIds then lastCrashedAppIds[app.appId] else 0) + 1;
      lastCrashedAppIds := lastCrashedAppIds[app.appId := count];
      NoAppChanged();
      assert View() == old(View()).Counted(app);
      var reloadingLimit := if isNormal then RELOADING_LIMIT - 1 else RELOADING_LIMIT;
      if count >= reloadingLimit {
        CrashedTooOften(app);
      } else {
        log := log + [Reloaded(app.appId)];
        NoAppChanged();
      }
    }

    method CrashedTooOften(app: WebApp)
      requires Shape() && app in known
      modifies this, app
      ensures Shape() && known == old(known)
      ensures View() == old(View()).CrashedTooOften(app)
    {
      hide Registry.CloseApp;
      ghost var kept := app.keepAlive && !app.isLoadErrorPageFinish;
      CloseAppInternal(app, true);
      if kept {
        log := log + [Kept(app.appId)];
      }
    }

    // ---- launching ----

    /** OnLaunchUrl, with the app that the factory has made, if it has. */
    method OnLaunchUrl(made: Option<WebApp>) returns (launched: bool)
      requires Shape() && (made.Some? ==> made.value !in known)
      modifies this
      ensures Shape() && launched == made.Some?
      ensures made.None? ==> View() == old(View()) && known == old(known)
      ensures made.Some? ==> known == old(known) + {made.value}
      ensures made.Some? ==> View() == old(View().Register(made.value, made.value.View()))
    {
      hide First, Apps, Registry.Register;
      if made.None? {
        NoAppChanged();
        return false;
      }
      Register(made.value);
      return true;
    }

    /** The end of OnLaunchUrl. */
    method Register(app: WebApp)
      requires Shape() && app !in known
      modifies this
      ensures Shape() && known == old(known) + {app}
      ensures View() == old(View().Register(app, app.View()))
    {
      hide Apps;
      WebPageAdded(app);
      appList := appList + [app];
      known := known + {app};
      log := log + [Launched(app)];
      OneAppMore(app);
    }

    method OnRelaunchApp(instanceId: string, args: LaunchArgs)
      requires Valid()
      modifies known
      ensures Valid()
      ensures View() == old(View()).Relaunch(instanceId, args)
    {
      hide First, Apps, Consistent;
      RelaunchKeeps(View(), instanceId);
      var app := FindAppByInstanceId(instanceId);
      if app.None? || args.Malformed? {
        return;
      }
      if args.Show? {
        Relaunch(app.value);
      }
    }

    /** Launch, with what the factory makes of the request (nothing for an unsupported type). */
    method Launch(instanceId: string, made: Option<WebApp>, args: LaunchArgs) returns (launched: bool)
      requires Valid()
      requires made.Some? ==>
                 && made.value !in known && made.value.instanceId == instanceId
                 && !made.value.pageIsClosing && !made.value.View().Underway()
      modifies this, known
      ensures Valid()
      ensures View() ==
              old(View().Launch(instanceId, if made.None? then None else Some((made.value, made.value.View())), args))
      ensures launched <==> !args.Malformed? && (old(View()).FindByInstance(instanceId).Some? || made.Some?)
    {
      hide First, Consistent, Registry.Register, Registry.Relaunch;
      if args.Malformed? {
        return false;
      }
      var running := IsRunningApp(instanceId);
      if running {
        OnRelaunchApp(instanceId, args);
        return true;
      }
      if made.Some? {
        NewAppKeeps(View(), made.value, made.value.View());
      }
      launched := OnLaunchUrl(made);
    }
  }

  lemma WindowCloseKeeps(r: Registry, app: WebApp)
    requires Consistent(r) && r.Live(app)
    ensures Consistent(r.WindowClosed(app))
  {
    CloseKeeps(r, app, false);
    ForceCloseKeeps(r, app);
  }

  lemma KeptIsHiddenToo(r: Registry, app: WebApp)
    requires app in r.apps && r.apps[app].keepAlive && !r.apps[app].errorPage
    ensures r.CloseApp(app, false) == r.With(app, r.apps[app].(hidden := true))
  {
  }

  lemma RelaunchKeeps(r: Registry, instanceId: string)
    requires Consistent(r)
    ensures match r.FindByInstance(instanceId)
            case None => true
            case Some(app) => app in r.apps && Consistent(r.With(app, r.apps[app].(hidden := false, crashed := false)))
  {
    FoundIsLive(r, instanceId);
    match r.FindByInstance(instanceId)
    case None =>
    case Some(app) => FlagsKeep(r, app, r.apps[app].(hidden := false, crashed := false));
  }

  lemma ForcedIsGone(r: Registry, instanceId: string)
    requires Consistent(r)
    ensures match r.FindByInstance(instanceId)
            case None => true
            case Some(app) => app in r.apps && r.ForceClose(app).FindByInstance(instanceId).None?
  {
    FoundIsLive(r, instanceId);
    match r.FindByInstance(instanceId)
    case None =>
    case Some(app) =>
      ForceCloseKeeps(r, app);
      RemovedIsGone(r.appList, app);
  }

  lemma RemovedIsGone(list: seq<WebApp>, app: WebApp)
    requires DistinctInstances(list) && app in list
    ensures First(Without(list, app), app.instanceId).None?
  {
    forall a | a in Without(list, app)
      ensures a.instanceId != app.instanceId
    {
      var i :| 0 <= i < |list| && list[i] == a;
      var j :| 0 <= j < |list| && list[j] == app;
      assert i != j;
    }
  }
}
