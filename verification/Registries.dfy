/**
 The registry of apps: launching, closing, crashing and deleting, as WebAppManager and
 WebAppBase::CloseWebApp change it. A page belongs to one app for good, so the app stands
 for its page in the page map.
 */
module Registries {
  import opened Options

  /**
   hasCallback: the page has registered a close callback; awaitsCallback: it was called and has
   neither answered nor timed out; cleaning: the page is being unloaded.
   */
  datatype Flags = Flags(keepAlive: bool, hidden: bool, crashed: bool, isClosing: bool, errorPage: bool,
                         forceClose: bool,
                         hasCallback: bool, awaitsCallback: bool, cleaning: bool, pid: nat)
  {
    /** What a close starts on the page: its close callback, or else its unload. */
    function Dispatched(): Flags {
      if hasCallback then this.(awaitsCallback := true) else this.(cleaning := true)
    }

    /** These flags with those of the page and window replaced. */
    function In(state: PageState): Flags {
      this.(keepAlive := state.keepAlive, hidden := state.hidden, crashed := state.crashed,
      errorPage := state.errorPage, hasCallback := state.hasCallback)
    }

    /** The page is on its way to the end of a close. */
    predicate Underway() {
      awaitsCallback || cleaning
    }
  }

  /** An app with its page; the fields are those the registry reads or writes. */
  class WebApp {
    const appId: string
    const instanceId: string
    const pageAppId: string
    const windowed: bool

    var keepAlive: bool
    var hiddenWindow: bool
    var crashed: bool
    var pageIsClosing: bool
    var isLoadErrorPageFinish: bool
    var forceClose: bool
    var hasCloseCallback: bool
    var awaitsCloseCallback: bool
    var cleaningResources: bool
    var pid: nat

    ghost function View(): Flags
      reads this
    {
      Flags(keepAlive, hiddenWindow, crashed, pageIsClosing, isLoadErrorPageFinish, forceClose,
            hasCloseCallback, awaitsCloseCallback, cleaningResources, pid)
    }

    constructor (app: string, instance: string, pageApp: string, hasWindow: bool, flags: Flags)
      ensures appId == app && instanceId == instance && pageAppId == pageApp && windowed == hasWindow && View() == flags
    {
      appId, instanceId, pageAppId, windowed := app, instance, pageApp, hasWindow;
      keepAlive, hiddenWindow, crashed := flags.keepAlive, flags.hidden, flags.crashed;
      pageIsClosing, isLoadErrorPageFinish := flags.isClosing, flags.errorPage;
      forceClose, hasCloseCallback, awaitsCloseCallback := flags.forceClose, flags.hasCallback, flags.awaitsCallback;
      cleaningResources, pid := flags.cleaning, flags.pid;
    }

    /** An app that shows the error page is not hidden. */
    method HideWindow() returns (done: bool)
      modifies this`hiddenWindow
      ensures done == !isLoadErrorPageFinish
      ensures hiddenWindow == (old(hiddenWindow) || done)
    {
      if isLoadErrorPageFinish {
        return false;
      }
      hiddenWindow := true;
      return true;
    }

    /** ExecuteCloseCallback or DispatchUnload. */
    method Dispatch()
      modifies this`awaitsCloseCallback, this`cleaningResources
      ensures View() == old(View()).Dispatched() && View().Underway()
    {
      if hasCloseCallback {
        awaitsCloseCallback := true;
      } else {
        cleaningResources := true;
      }
    }
  }

  /** The history of the registry. Kept and Reloaded are the two ways a foreground crash is survived. */
  datatype Entry =
    | Launched(app: WebApp) | Closed(app: WebApp) | Deleted(app: WebApp)
    | Reloaded(appId: string) | Kept(appId: string)

  /** The arguments of a launch: not a JSON object, asking to stay hidden, or asking to be shown. */
  datatype LaunchArgs = Malformed | Quiet | Show

  /** How a close ends. */
  datatype Completion = CallbackRan | CallbackTimedOut | Unloaded | Crashed

  const RELOADING_LIMIT := 3

  datatype Registry = Registry(
    appList: seq<WebApp>,
    pageMap: multiset<(string, WebApp)>,
    closingApps: map<string, WebApp>,
    crashes: map<string, nat>,
    apps: map<WebApp, Flags>,
    log: seq<Entry>)
  {
    predicate IsDeleted(app: WebApp) {
      Deleted(app) in log
    }

    /** The object exists: it has been launched and not yet deleted. */
    predicate Live(app: WebApp) {
      app in apps && !IsDeleted(app)
    }

    function With(app: WebApp, flags: Flags): Registry {
      this.(apps := apps[app := flags])
    }

    // ---- lookup ----

    function FindByInstance(instanceId: string): Option<WebApp> {
      First(appList, instanceId)
    }

    // ---- closing ----

    /** CloseAppInternal. It notices a second close, but carries it out all the same. */
    function CloseApp(app: WebApp, ignoreCleanResource: bool): (r: Registry)
      requires app in apps
      ensures r.apps.Keys == apps.Keys && log <= r.log && forall a :: a in r.appList ==> a in appList
    {
      var flags := apps[app];
      if flags.keepAlive && !flags.errorPage then With(app, flags.(hidden := true))
      else CloseForGood(app, ignoreCleanResource)
    }

    /** Out of list and map, counters cleared, page closing and hidden; then deleted, or on its way to the end. */
    function CloseForGood(app: WebApp, ignoreCleanResource: bool): (r: Registry)
      requires app in apps
      ensures r.apps.Keys == apps.Keys && log <= r.log && forall a :: a in r.appList ==> a in appList
    {
      var closed := apps[app].(isClosing := true, hidden := true);
      var r := Registry(Without(appList, app), pageMap[(app.pageAppId, app) := 0], closingApps, map[],
                        apps[app := if ignoreCleanResource then closed else closed.Dispatched()], log + [Closed(app)]);
      if ignoreCleanResource then r.(log := r.log + [Deleted(app)])
      else if app.instanceId in closingApps then r
      else r.(closingApps := closingApps[app.instanceId := app])
    }

    function ForceClose(app: WebApp): (r: Registry)
      requires app in apps
      ensures r.apps.Keys == apps.Keys && log <= r.log && forall a :: a in r.appList ==> a in appList
    {
      With(app, apps[app].(keepAlive := false)).CloseApp(app, false)
    }

    /** CloseWebApp: the close callback, its timeout, the unload or a crash is done. */
    function CompleteClose(app: WebApp): Registry {
      this.(appList := Without(appList, app), closingApps := closingApps - {app.appId}, log := log + [Deleted(app)])
    }

    function CloseEach(targets: seq<WebApp>): Registry
      requires forall a :: a in targets ==> a in apps
      decreases |targets|
    {
      if targets == [] then this else ForceClose(targets[0]).CloseEach(targets[1..])
    }

    function OfProcess(pid: nat): seq<WebApp>
      requires forall a :: a in appList ==> a in apps
    {
      Select(appList, apps, pid)
    }

    // ---- crashes ----

    function CrashCount(appId: string): nat {
      if appId in crashes then crashes[appId] else 0
    }

    function Counted(app: WebApp): (r: Registry)
      ensures r.apps == apps && r.log == log && r.appList == appList
              && r.CrashCount(app.appId) == CrashCount(app.appId) + 1
    {
      this.(crashes := crashes[app.appId := CrashCount(app.appId) + 1])
    }

    /** A crash beyond the limit: the app is closed, unless it is kept alive and so only hidden. */
    function CrashedTooOften(app: WebApp): Registry
      requires app in apps
    {
      var r := CloseApp(app, true);
      if apps[app].keepAlive && !apps[app].errorPage then r.(log := r.log + [Kept(app.appId)]) else r
    }

    function CrashedInForeground(app: WebApp, isNormal: bool): Registry
      requires app in apps
    {
      var r := Counted(app);
      if r.CrashCount(app.appId) >= (if isNormal then RELOADING_LIMIT - 1 else RELOADING_LIMIT)
      then r.CrashedTooOften(app)
      else r.(log := log + [Reloaded(app.appId)])
    }

    function ProcessCrashed(instanceId: string, activated: bool, isNormal: bool, minimized: bool): Registry
      requires forall a :: a in appList ==> a in apps
    {
      match FindByInstance(instanceId)
      case None => this
      case Some(app) =>
        if !app.windowed then this
        else if activated then CrashedInForeground(app, isNormal)
        else if minimized then With(app, apps[app].(crashed := true))
        else this
    }

    // ---- launching ----

    /** A new app: at the end of the list, its page in the map once. */
    function Register(app: WebApp, flags: Flags): Registry {
      this.(appList := appList + [app], apps := apps[app := flags], log := log + [Launched(app)],
      pageMap := if (app.pageAppId, app) in pageMap then pageMap else pageMap + multiset{(app.pageAppId, app)})
    }

    /** A request for a running instance: ignored if its arguments do not parse or only preload. */
    function Relaunch(instanceId: string, args: LaunchArgs): Registry
      requires forall a :: a in appList ==> a in apps
    {
      match FindByInstance(instanceId)
      case None => this
      case Some(app) => if args.Show? then With(app, apps[app].(hidden := false, crashed := false)) else this
    }

    /** Launch: a running instance is only relaunched; an app the factory does not make is not registered. */
    function Launch(instanceId: string, made: Option<(WebApp, Flags)>, args: LaunchArgs): Registry
      requires forall a :: a in appList ==> a in apps
    {
      if args.Malformed? then this
      else if FindByInstance(instanceId).Some? then Relaunch(instanceId, args)
      else if made.None? then this
      else Register(made.value.0, made.value.1)
    }

    function Kill(appId: string, instanceId: string, force: bool): Registry
      requires forall a :: a in appList ==> a in apps
    {
      match FindByInstance(instanceId)
      case None => this
      case Some(app) =>
        if app.appId != appId then this else if force then ForceClose(app) else CloseApp(app, false)
    }

    function SetForceClose(instanceId: string): Registry
      requires forall a :: a in appList ==> a in apps
    {
      match FindByInstance(instanceId)
      case None => this
      case Some(app) =>
        if app.windowed && apps[app].keepAlive && apps[app].hidden
        then ForceClose(app)
        else With(app, apps[app].(forceClose := true))
    }

    /** OnPauseApp hides the app. */
    function Pause(instanceId: string): Registry
      requires forall a :: a in appList ==> a in apps
    {
      match FindByInstance(instanceId)
      case None => this
      case Some(app) => if apps[app].errorPage then this else With(app, apps[app].(hidden := true))
    }

    /** DoClose: the compositor closes the window. */
    function WindowClosed(app: WebApp): Registry
      requires app in apps
    {
      if apps[app].forceClose then ForceClose(app) else CloseApp(app, false)
    }
  }

  function First(list: seq<WebApp>, instanceId: string): (found: Option<WebApp>)
    ensures found.Some? ==> found.value in list && found.value.instanceId == instanceId
    ensures found.None? ==> forall a :: a in list ==> a.instanceId != instanceId
  {
    if list == [] then None
    else if list[0].instanceId == instanceId then Some(list[0])
    else First(list[1..], instanceId)
  }

  /** The list without some of its apps; the others keep their order. */
  function Except(list: seq<WebApp>, gone: set<WebApp>): (rest: seq<WebApp>)
    ensures forall a :: a in rest ==> a in list && a !in gone
    ensures forall a :: a in list && a !in gone ==> a in rest
  {
    if list == [] then []
    else (if list[0] in gone then [] else [list[0]]) + Except(list[1..], gone)
  }

  function Without(list: seq<WebApp>, app: WebApp): seq<WebApp> {
    Except(list, {app})
  }

  /** The apps of a process; process 0 stands for all. */
  function Select(list: seq<WebApp>, apps: map<WebApp, Flags>, pid: nat): (selected: seq<WebApp>)
    requires forall a :: a in list ==> a in apps
    ensures forall a :: a in selected ==> a in list && (pid == 0 || apps[a].pid == pid)
    ensures forall a :: a in list && (pid == 0 || apps[a].pid == pid) ==> a in selected
  {
    if list == [] then []
    else (if pid == 0 || apps[list[0]].pid == pid then [list[0]] else []) + Select(list[1..], apps, pid)
  }

  const EMPTY := Registry([], multiset{}, map[], map[], map[], [])

  // ---- the consistency of the containers ----

  ghost predicate DistinctInstances(list: seq<WebApp>) {
    forall i, j :: 0 <= i < j < |list| ==> list[i].instanceId != list[j].instanceId
  }

  /** One entry (page app id, page) for each running app, and nothing else. */
  ghost predicate PagesMatch(list: seq<WebApp>, pageMap: multiset<(string, WebApp)>) {
    && (forall a :: a in list ==> pageMap[(a.pageAppId, a)] == 1)
    && (forall e :: e in pageMap ==> e.1 in list && e.0 == e.1.pageAppId)
  }

  /** The closing flag is set exactly for the apps that are not running; no running app has been deleted. */
  ghost predicate PhasesMatch(list: seq<WebApp>, apps: map<WebApp, Flags>, log: seq<Entry>) {
    && (forall a :: a in list ==> a in apps && !apps[a].isClosing && Deleted(a) !in log)
    && (forall a :: a in apps && a !in list ==> apps[a].isClosing)
  }

  /** Only closing apps are on their way to their end, and every closing app that is not deleted is. */
  ghost predicate ClosesProgress(apps: map<WebApp, Flags>, log: seq<Entry>) {
    && (forall a :: a in apps && apps[a].Underway() ==> apps[a].isClosing)
    && (forall a :: a in apps && apps[a].isClosing && Deleted(a) !in log ==> apps[a].Underway())
  }

  ghost predicate DeletedOnce(apps: map<WebApp, Flags>, log: seq<Entry>) {
    forall e :: e in log && e.Deleted? ==> e.app in apps && multiset(log)[e] == 1
  }

  ghost predicate ClosingMatch(closingApps: map<string, WebApp>, apps: map<WebApp, Flags>) {
    forall k :: k in closingApps ==>
                  closingApps[k] in apps && apps[closingApps[k]].isClosing && closingApps[k].instanceId == k
  }

  function ReloadsSinceClose(log: seq<Entry>, appId: string): nat {
    if log == [] then 0
    else
      var last, before := log[|log| - 1], log[..|log| - 1];
      if last.Closed? then 0
      else ReloadsSinceClose(before, appId) + if last == Reloaded(appId) then 1 else 0
  }

  function KeptSinceClose(log: seq<Entry>, appId: string): nat {
    if log == [] then 0
    else
      var last, before := log[|log| - 1], log[..|log| - 1];
      if last.Closed? then 0
      else KeptSinceClose(before, appId) + if last == Kept(appId) then 1 else 0
  }

  /** A counter is the number of foreground crashes since anything was closed, and at most two of them were reloads. */
  ghost predicate CountersMatch(r: Registry) {
    forall id: string {:trigger r.CrashCount(id)} ::
      && r.CrashCount(id) == ReloadsSinceClose(r.log, id) + KeptSinceClose(r.log, id)
      && ReloadsSinceClose(r.log, id) <= 2
  }

  ghost predicate Consistent(r: Registry) {
    && DistinctInstances(r.appList) && PagesMatch(r.appList, r.pageMap)
    && PhasesMatch(r.appList, r.apps, r.log) && ClosesProgress(r.apps, r.log) && DeletedOnce(r.apps, r.log)
    && ClosingMatch(r.closingApps, r.apps) && CountersMatch(r)
  }

  // ---- the list ----

  lemma {:induction false} ExceptKeepsDistinct(list: seq<WebApp>, gone: set<WebApp>)
    requires DistinctInstances(list)
    ensures DistinctInstances(Except(list, gone))
  {
    if list != [] {
      var rest := Except(list[1..], gone);
      ExceptKeepsDistinct(list[1..], gone);
      forall k | 0 <= k < |rest|
        ensures rest[k].instanceId != list[0].instanceId
      {
        assert rest[k] in rest && rest[k] in list[1..];
        var i :| 0 <= i < |list[1..]| && list[1..][i] == rest[k];
        assert list[i + 1] == rest[k];
      }
    }
  }

  lemma ExceptFrom(list: seq<WebApp>, i: nat, gone: set<WebApp>)
    requires i < |list|
    ensures Except(list[i..], gone) == (if list[i] in gone then [] else [list[i]]) + Except(list[i + 1..], gone)
    ensures list[0..] == list
  {
    assert list[i..][1..] == list[i + 1..];
  }

  lemma ExceptNone(list: seq<WebApp>, gone: set<WebApp>)
    ensures Except(list[|list|..], gone) == [] && list[0..] == list
  {
  }

  lemma SelectFrom(list: seq<WebApp>, apps: map<WebApp, Flags>, pid: nat, i: nat)
    requires i <= |list| && forall a :: a in list ==> a in apps
    ensures i < |list| ==>
              Select(list[i..], apps, pid) ==
              (if pid == 0 || apps[list[i]].pid == pid then [list[i]] else []) + Select(list[i + 1..], apps, pid)
    ensures i == |list| ==> Select(list[i..], apps, pid) == []
    ensures list[0..] == list
  {
    if i < |list| {
      assert list[i..][1..] == list[i + 1..];
    }
  }

  /** One round of a loop that selects. */
  /** What is selected of the first i apps, and what will be selected of the others. */
  predicate Selecting(list: seq<WebApp>, apps: map<WebApp, Flags>, pid: nat, i: nat, soFar: seq<WebApp>)
    requires i <= |list| && forall a :: a in list ==> a in apps
  {
    soFar + Select(list[i..], apps, pid) == Select(list, apps, pid)
  }

  lemma SelectEnds(list: seq<WebApp>, apps: map<WebApp, Flags>, pid: nat, soFar: seq<WebApp>)
    requires forall a :: a in list ==> a in apps
    ensures Selecting(list, apps, pid, 0, [])
    ensures Selecting(list, apps, pid, |list|, soFar) <==> soFar == Select(list, apps, pid)
  {
    hide Select;
    SelectFrom(list, apps, pid, 0);
    SelectFrom(list, apps, pid, |list|);
  }

  lemma SelectRound(list: seq<WebApp>, apps: map<WebApp, Flags>, pid: nat, i: nat, soFar: seq<WebApp>)
    requires i < |list| && (forall a :: a in list ==> a in apps) && Selecting(list, apps, pid, i, soFar)
    ensures Selecting(list, apps, pid, i + 1,
                      if pid == 0 || apps[list[i]].pid == pid then soFar + [list[i]] else soFar)
  {
    hide Select;
    SelectFrom(list, apps, pid, i);
    OneMore(soFar, list[i], Select(list[i + 1..], apps, pid));
  }

  lemma {:induction false} ExceptNobody(list: seq<WebApp>, gone: set<WebApp>)
    requires forall a :: a in list ==> a !in gone
    ensures Except(list, gone) == list
  {
    if list != [] {
      ExceptNobody(list[1..], gone);
    }
  }

  lemma {:induction false} ExceptEverybody(list: seq<WebApp>, gone: set<WebApp>)
    requires forall a :: a in list ==> a in gone
    ensures Except(list, gone) == []
  {
    if list != [] {
      ExceptEverybody(list[1..], gone);
    }
  }

  lemma {:induction false} ExceptTwice(list: seq<WebApp>, first: set<WebApp>, second: set<WebApp>)
    ensures Except(Except(list, first), second) == Except(list, first + second)
  {
    if list != [] {
      ExceptTwice(list[1..], first, second);
      var rest := Except(list[1..], first);
      if list[0] !in first {
        assert ([list[0]] + rest)[1..] == rest;
      } else {
        assert Except(list, first) == rest;
      }
    }
  }

  lemma OneMore<T>(done: seq<T>, x: T, rest: seq<T>)
    ensures done + ([x] + rest) == (done + [x]) + rest && [] + rest == rest
  {
  }

  // ---- one operation at a time ----

  lemma RemovedPage(list: seq<WebApp>, pageMap: multiset<(string, WebApp)>, app: WebApp)
    requires PagesMatch(list, pageMap)
    ensures PagesMatch(Without(list, app), pageMap[(app.pageAppId, app) := 0])
  {
  }

  lemma SinceAppended(log: seq<Entry>, e: Entry, appId: string)
    ensures ReloadsSinceClose(log + [e], appId) ==
            if e.Closed? then 0 else ReloadsSinceClose(log, appId) + if e == Reloaded(appId) then 1 else 0
    ensures KeptSinceClose(log + [e], appId) ==
            if e.Closed? then 0 else KeptSinceClose(log, appId) + if e == Kept(appId) then 1 else 0
  {
    assert (log + [e])[..|log|] == log;
  }

  /** Changing the flags of an app, other than whether it closes. */
  lemma FlagsKeep(r: Registry, app: WebApp, flags: Flags)
    requires Consistent(r) && app in r.apps && flags.isClosing == r.apps[app].isClosing
    requires flags.Underway() == r.apps[app].Underway()
    ensures Consistent(r.With(app, flags)) && r.With(app, flags).apps.Keys == r.apps.Keys
  {
    assert forall id: string :: r.With(app, flags).CrashCount(id) == r.CrashCount(id);
  }

  lemma DeletedOnceGrows(apps: map<WebApp, Flags>, log: seq<Entry>, e: Entry)
    requires DeletedOnce(apps, log) && (e.Deleted? ==> e.app in apps && e !in log)
    ensures DeletedOnce(apps, log + [e])
  {
    assert multiset(log + [e]) == multiset(log) + multiset{e};
  }

  lemma RemovedPhases(list: seq<WebApp>, apps: map<WebApp, Flags>, log: seq<Entry>, app: WebApp, flags: Flags)
    requires PhasesMatch(list, apps, log) && app in apps && flags.isClosing
    ensures PhasesMatch(Without(list, app), apps[app := flags], log + [Closed(app)])
    ensures PhasesMatch(Without(list, app), apps[app := flags], log + [Closed(app)] + [Deleted(app)])
  {
  }

  lemma ClosedProgress(apps: map<WebApp, Flags>, log: seq<Entry>, app: WebApp, flags: Flags, ignoreCleanResource: bool)
    requires ClosesProgress(apps, log) && flags.isClosing && (flags.Underway() || ignoreCleanResource)
    ensures ClosesProgress(apps[app := flags],
                           if ignoreCleanResource then log + [Closed(app)] + [Deleted(app)] else log + [Closed(app)])
  {
  }

  lemma ClosingGrows(closingApps: map<string, WebApp>, apps: map<WebApp, Flags>, app: WebApp, flags: Flags)
    requires ClosingMatch(closingApps, apps) && flags.isClosing
    ensures ClosingMatch(closingApps, apps[app := flags])
    ensures ClosingMatch(closingApps[app.instanceId := app], apps[app := flags])
  {
  }

  lemma DeletedOnceKnows(apps: map<WebApp, Flags>, log: seq<Entry>, app: WebApp, flags: Flags)
    requires DeletedOnce(apps, log)
    ensures DeletedOnce(apps[app := flags], log)
  {
  }

  lemma ClosedContainers(r: Registry, app: WebApp, ignoreCleanResource: bool)
    requires Consistent(r) && r.Live(app)
    requires !(r.apps[app].keepAlive && !r.apps[app].errorPage)
    ensures var q := r.CloseApp(app, ignoreCleanResource);
            && DistinctInstances(q.appList) && PagesMatch(q.appList, q.pageMap)
            && PhasesMatch(q.appList, q.apps, q.log) && ClosesProgress(q.apps, q.log) && DeletedOnce(q.apps, q.log)
            && ClosingMatch(q.closingApps, q.apps)
            && q.appList == Without(r.appList, app)
  {
    hide CountersMatch, DistinctInstances, PagesMatch, PhasesMatch;
    hide ClosesProgress, DeletedOnce, ClosingMatch, Except, Without;
    ExceptKeepsDistinct(r.appList, {app});
    WithoutIs(r.appList, app);
    RemovedPage(r.appList, r.pageMap, app);
    var closed := r.apps[app].(isClosing := true, hidden := true);
    var flags := if ignoreCleanResource then closed else closed.Dispatched();
    ClosedProgress(r.apps, r.log, app, flags, ignoreCleanResource);
    RemovedPhases(r.appList, r.apps, r.log, app, flags);
    ClosingGrows(r.closingApps, r.apps, app, flags);
    DeletedOnceKnows(r.apps, r.log, app, flags);
    DeletedOnceGrows(r.apps[app := flags], r.log, Closed(app));
    if ignoreCleanResource {
      DeletedOnceGrows(r.apps[app := flags], r.log + [Closed(app)], Deleted(app));
    }
  }

  lemma WithoutIs(list: seq<WebApp>, app: WebApp)
    ensures Without(list, app) == Except(list, {app})
  {
  }

  lemma ClosedCounters(r: Registry, app: WebApp, ignoreCleanResource: bool)
    requires app in r.apps && !(r.apps[app].keepAlive && !r.apps[app].errorPage)
    ensures CountersMatch(r.CloseApp(app, ignoreCleanResource))
  {
    var q := r.CloseApp(app, ignoreCleanResource);
    forall id: string
      ensures q.CrashCount(id) == 0 && ReloadsSinceClose(q.log, id) == 0 && KeptSinceClose(q.log, id) == 0
    {
      SinceAppended(r.log, Closed(app), id);
      SinceAppended(r.log + [Closed(app)], Deleted(app), id);
    }
  }

  /** Closing keeps the registry consistent, also when the app is closing already. */
  lemma CloseKeeps(r: Registry, app: WebApp, ignoreCleanResource: bool)
    requires Consistent(r) && r.Live(app)
    ensures var q := r.CloseApp(app, ignoreCleanResource);
            && Consistent(q) && q.apps.Keys == r.apps.Keys
            && (r.apps[app].keepAlive && !r.apps[app].errorPage ==> q.appList == r.appList && q.log == r.log)
            && (!(r.apps[app].keepAlive && !r.apps[app].errorPage) ==> q.appList == Without(r.appList, app))
  {
    if r.apps[app].keepAlive && !r.apps[app].errorPage {
      FlagsKeep(r, app, r.apps[app].(hidden := true));
    } else {
      ClosedContainers(r, app, ignoreCleanResource);
      ClosedCounters(r, app, ignoreCleanResource);
    }
  }

  lemma ForceCloseKeeps(r: Registry, app: WebApp)
    requires Consistent(r) && r.Live(app)
    ensures var q := r.ForceClose(app);
            && Consistent(q) && q.apps.Keys == r.apps.Keys && q.appList == Without(r.appList, app)
            && q.log == r.log + [Closed(app)]
  {
    FlagsKeep(r, app, r.apps[app].(keepAlive := false));
    CloseKeeps(r.With(app, r.apps[app].(keepAlive := false)), app, false);
  }

  lemma RemovedNobody(list: seq<WebApp>, app: WebApp)
    requires app !in list
    ensures Without(list, app) == list
  {
    ExceptNobody(list, {app});
  }

  /** The end of a close keeps the registry consistent exactly when the app had been closed. */
  lemma CompletionNeedsAClose(r: Registry, app: WebApp)
    requires Consistent(r) && r.Live(app)
    ensures Consistent(r.CompleteClose(app)) <==> r.apps[app].isClosing
    ensures r.apps[app].isClosing ==> r.CompleteClose(app).appList == r.appList
  {
    var q := r.CompleteClose(app);
    if r.apps[app].isClosing {
      RemovedNobody(r.appList, app);
      DeletedOnceGrows(r.apps, r.log, Deleted(app));
      assert PhasesMatch(q.appList, q.apps, q.log);
      QuietEntry(r, q, Deleted(app));
    } else {
      assert app in r.appList;
      assert (app.pageAppId, app) in r.pageMap && app !in q.appList;
    }
  }

  lemma {:induction false} CloseEachKeeps(r: Registry, targets: seq<WebApp>)
    requires Consistent(r) && forall a :: a in targets ==> a in r.apps && r.Live(a)
    ensures var q := r.CloseEach(targets);
            && Consistent(q) && q.apps.Keys == r.apps.Keys
            && q.appList == Except(r.appList, set a | a in targets)
            && forall e :: e in q.log && e.Deleted? ==> e in r.log
    decreases |targets|
  {
    hide Consistent, Registry.ForceClose, Except;
    if targets == [] {
      ExceptNobody(r.appList, {});
      assert (set a | a in targets) == {};
    } else {
      assert targets[0] in targets && forall a :: a in targets[1..] ==> a in targets;
      var q := r.ForceClose(targets[0]);
      ForceCloseKeeps(r, targets[0]);
      WithoutIs(r.appList, targets[0]);
      CloseEachKeeps(q, targets[1..]);
      ExceptTwice(r.appList, {targets[0]}, set a | a in targets[1..]);
      assert (set a | a in targets) == {targets[0]} + set a | a in targets[1..];
    }
  }

  lemma ListedAreLive(r: Registry)
    requires Consistent(r)
    ensures forall a :: a in r.appList ==> r.Live(a) && !r.apps[a].isClosing
  {
  }

  /**
   After closing all apps of a process no app of it is left, keep-alive or not; the others
   stay, in their order, and so do their entries in the page map.
   */
  lemma CloseAllLeavesOthers(r: Registry, pid: nat)
    requires Consistent(r)
    ensures Listed(r)
    ensures var q, gone := r.CloseEach(r.OfProcess(pid)), OfProcessSet(r, pid);
            && Consistent(q) && q.appList == Except(r.appList, gone)
            && (forall e :: e in q.pageMap ==> e.1 in q.appList && e.1 !in gone)
            && (pid == 0 ==> q.appList == [] && q.pageMap == multiset{})
  {
    hide Consistent, Except, Select, Registry.CloseEach;
    ListedAreLive(r);
    var targets, gone := r.OfProcess(pid), OfProcessSet(r, pid);
    CloseEachKeeps(r, targets);
    assert (set a | a in targets) == gone;
    var q := r.CloseEach(targets);
    PagesOfListed(q);
    if pid == 0 {
      ExceptEverybody(r.appList, gone);
      assert q.pageMap == multiset{};
    }
  }

  lemma PagesOfListed(r: Registry)
    requires Consistent(r)
    ensures forall e :: e in r.pageMap ==> e.1 in r.appList
  {
    hide CountersMatch, DistinctInstances, PhasesMatch, ClosesProgress, DeletedOnce, ClosingMatch;
  }

  function OfProcessSet(r: Registry, pid: nat): set<WebApp>
    requires Listed(r)
  {
    set a | a in r.appList && (pid == 0 || r.apps[a].pid == pid)
  }

  // ---- crashes ----

  lemma CountedCrash(r: Registry, appId: string, entry: Entry, count: nat)
    requires CountersMatch(r) && count == r.CrashCount(appId) + 1
    requires entry == Kept(appId) || (entry == Reloaded(appId) && count <= 2)
    ensures CountersMatch(r.(crashes := r.crashes[appId := count], log := r.log + [entry]))
  {
    var q := r.(crashes := r.crashes[appId := count], log := r.log + [entry]);
    forall id: string
      ensures q.CrashCount(id) == if id == appId then count else r.CrashCount(id)
      ensures ReloadsSinceClose(q.log, id) == ReloadsSinceClose(r.log, id) + if entry == Reloaded(id) then 1 else 0
      ensures KeptSinceClose(q.log, id) == KeptSinceClose(r.log, id) + if entry == Kept(id) then 1 else 0
    {
      SinceAppended(r.log, entry, id);
    }
  }

  lemma CountedCrashKeeps(r: Registry, appId: string, entry: Entry, count: nat)
    requires Consistent(r) && count == r.CrashCount(appId) + 1
    requires entry == Kept(appId) || (entry == Reloaded(appId) && count <= 2)
    ensures Consistent(r.(crashes := r.crashes[appId := count], log := r.log + [entry]))
  {
    hide CountersMatch, DistinctInstances, PagesMatch, DeletedOnce, ClosingMatch;
    CountedCrash(r, appId, entry, count);
    DeletedOnceGrows(r.apps, r.log, entry);
  }

  lemma CountIsForgotten(r: Registry, app: WebApp, crashes: map<string, nat>)
    requires app in r.apps && !(r.apps[app].keepAlive && !r.apps[app].errorPage)
    ensures r.(crashes := crashes).CloseApp(app, true) == r.CloseApp(app, true)
  {
  }

  lemma KeptIsHidden(r: Registry, app: WebApp)
    requires app in r.apps && r.apps[app].keepAlive && !r.apps[app].errorPage
    ensures r.CloseApp(app, true) == r.With(app, r.apps[app].(hidden := true))
  {
  }

  /** One foreground crash: the app is reloaded, closed and deleted at once, or hidden if it is kept alive. */
  lemma ForegroundCrash(r: Registry, app: WebApp, isNormal: bool)
    requires Consistent(r) && Listed(r) && r.FindByInstance(app.instanceId) == Some(app)
    ensures Consistent(r.ProcessCrashed(app.instanceId, true, isNormal, false))
  {
    hide Consistent, Registry.CloseApp, First;
    FoundIsLive(r, app.instanceId);
    var count := r.CrashCount(app.appId) + 1;
    var counted := r.(crashes := r.crashes[app.appId := count]);
    if count < (if isNormal then RELOADING_LIMIT - 1 else RELOADING_LIMIT) {
      CountedCrashKeeps(r, app.appId, Reloaded(app.appId), count);
    } else if r.apps[app].keepAlive && !r.apps[app].errorPage {
      CountedCrashKeeps(r, app.appId, Kept(app.appId), count);
      FlagsKeep(counted.(log := r.log + [Kept(app.appId)]), app, r.apps[app].(hidden := true));
      KeptIsHidden(counted, app);
    } else {
      CloseKeeps(r, app, true);
      CountIsForgotten(r, app, counted.crashes);
    }
  }

  // ---- runs ----

  /** The flags that change with the page and its window, without the registry. */
  datatype PageState = PageState(keepAlive: bool, hidden: bool, crashed: bool, errorPage: bool, hasCallback: bool)

  datatype Event =
    | Launch(instanceId: string, made: Option<(WebApp, Flags)>, args: LaunchArgs)
    | Kill(appId: string, instanceId: string, force: bool)
    | SetForceClose(instanceId: string)
    | WindowClosed(app: WebApp) | PreloadFailed(app: WebApp) | Paused(instanceId: string)
    | CloseAll(pid: nat)
    | Crash(instanceId: string, activated: bool, isNormal: bool, minimized: bool)
    | CloseCompleted(app: WebApp, end: Completion)
    | Changed(app: WebApp, state: PageState) | Moved(app: WebApp, pid: nat)

  /**
   A made app is a new object, and other objects must exist. A close ends only as it was started:
   by the answer or the timeout of a callback that was called, or by an unload that was begun;
   the crash of a renderer is told to closing apps only.
   */
  predicate Possible(r: Registry, e: Event) {
    match e
    case Launch(instanceId, made, _) =>
      made.Some? ==>
        && made.value.0 !in r.apps && made.value.0.instanceId == instanceId
        && !made.value.1.isClosing && !made.value.1.Underway()
    case WindowClosed(app) => r.Live(app)
    case PreloadFailed(app) => r.Live(app)
    case CloseCompleted(app, end) =>
      && r.Live(app)
      && (match end
          case CallbackRan => r.apps[app].awaitsCallback
          case CallbackTimedOut => r.apps[app].awaitsCallback
          case Unloaded => r.apps[app].cleaning
          case Crashed => r.apps[app].isClosing)
    case Changed(app, _) => r.Live(app)
    case Moved(app, _) => r.Live(app)
    case _ => true
  }

  predicate Listed(r: Registry) {
    forall a :: a in r.appList ==> a in r.apps
  }

  function Step(r: Registry, e: Event): Registry {
    if !Listed(r) || !Possible(r, e) then r
    else
      match e
      case Launch(instanceId, made, args) => r.Launch(instanceId, made, args)
      case Kill(appId, instanceId, force) => r.Kill(appId, instanceId, force)
      case SetForceClose(instanceId) => r.SetForceClose(instanceId)
      case WindowClosed(app) => r.WindowClosed(app)
      case PreloadFailed(app) => r.CloseApp(app, false)
      case Paused(instanceId) => r.Pause(instanceId)
      case CloseAll(pid) => r.CloseEach(r.OfProcess(pid))
      case Crash(instanceId, activated, isNormal, minimized) =>
        r.ProcessCrashed(instanceId, activated, isNormal, minimized)
      case CloseCompleted(app, _) => r.CompleteClose(app)
      case Changed(app, state) => r.With(app, r.apps[app].In(state))
      case Moved(app, pid) => r.With(app, r.apps[app].(pid := pid))
  }

  function Run(events: seq<Event>): Registry {
    if events == [] then EMPTY else Step(Run(events[..|events| - 1]), events[|events| - 1])
  }

  lemma AppendKeepsDistinct(list: seq<WebApp>, app: WebApp)
    requires DistinctInstances(list) && forall a :: a in list ==> a.instanceId != app.instanceId
    ensures DistinctInstances(list + [app])
  {
  }

  lemma QuietEntry(r: Registry, q: Registry, e: Entry)
    requires CountersMatch(r) && q.log == r.log + [e] && q.crashes == r.crashes
    requires e.Launched? || e.Deleted?
    ensures CountersMatch(q)
  {
    forall id: string
      ensures q.CrashCount(id) == r.CrashCount(id)
      ensures ReloadsSinceClose(q.log, id) == ReloadsSinceClose(r.log, id)
      ensures KeptSinceClose(q.log, id) == KeptSinceClose(r.log, id)
    {
      SinceAppended(r.log, e, id);
    }
  }

  lemma NewPage(list: seq<WebApp>, pageMap: multiset<(string, WebApp)>, app: WebApp)
    requires PagesMatch(list, pageMap) && app !in list
    ensures (app.pageAppId, app) !in pageMap
    ensures PagesMatch(list + [app], pageMap + multiset{(app.pageAppId, app)})
  {
  }

  lemma NewPhases(list: seq<WebApp>, apps: map<WebApp, Flags>, closingApps: map<string, WebApp>, log: seq<Entry>,
                  app: WebApp, flags: Flags)
    requires PhasesMatch(list, apps, log) && ClosesProgress(apps, log) && DeletedOnce(apps, log)
             && ClosingMatch(closingApps, apps)
    requires app !in apps && !flags.isClosing && !flags.Underway()
    ensures PhasesMatch(list + [app], apps[app := flags], log + [Launched(app)])
    ensures ClosesProgress(apps[app := flags], log + [Launched(app)]) && ClosingMatch(closingApps, apps[app := flags])
  {
  }

  lemma NewAppKeeps(r: Registry, app: WebApp, flags: Flags)
    requires Consistent(r) && app !in r.apps && !flags.isClosing && !flags.Underway()
             && r.FindByInstance(app.instanceId).None?
    ensures Consistent(r.Register(app, flags))
  {
    hide CountersMatch, DistinctInstances, First, PagesMatch, ClosesProgress, DeletedOnce, ClosingMatch;
    var q := r.Register(app, flags);
    NewPage(r.appList, r.pageMap, app);
    AppendKeepsDistinct(r.appList, app);
    NewPhases(r.appList, r.apps, r.closingApps, r.log, app, flags);
    DeletedOnceKnows(r.apps, r.log, app, flags);
    DeletedOnceGrows(r.apps[app := flags], r.log, Launched(app));
    QuietEntry(r, q, Launched(app));
  }

  lemma CrashKeeps(r: Registry, instanceId: string, activated: bool, isNormal: bool, minimized: bool)
    requires Consistent(r) && Listed(r)
    ensures Consistent(r.ProcessCrashed(instanceId, activated, isNormal, minimized))
  {
    match r.FindByInstance(instanceId)
    case None =>
    case Some(app) =>
      if activated {
        ForegroundCrash(r, app, isNormal);
      } else if minimized {
        FlagsKeep(r, app, r.apps[app].(crashed := true));
      }
  }

  lemma FoundIsLive(r: Registry, instanceId: string)
    requires Consistent(r)
    ensures match r.FindByInstance(instanceId)
            case None => true
            case Some(app) => r.Live(app) && !r.apps[app].isClosing
  {
  }

  lemma StepIsConsistent(r: Registry, e: Event)
    requires Consistent(r)
    ensures Consistent(Step(r, e))
  {
    hide Consistent, Registry.CloseApp, Registry.ForceClose;
    hide Registry.CompleteClose, Registry.CloseEach, Registry.ProcessCrashed, First;
    EverythingListed(r);
    if Possible(r, e) {
      match e {
        case Launch(instanceId, made, args) =>
          match r.FindByInstance(instanceId) {
            case Some(app) => FlagsKeep(r, app, r.apps[app].(hidden := false, crashed := false));
            case None =>
              if made.Some? {
                NewAppKeeps(r, made.value.0, made.value.1);
              }
          }
        case CloseAll(pid) =>
          CloseAllLeavesOthers(r, pid);
        case Crash(instanceId, activated, isNormal, minimized) =>
          CrashKeeps(r, instanceId, activated, isNormal, minimized);
        case CloseCompleted(app, end) =>
          CompletionsAreOfClosingApps(r, app, end);
          CompletionNeedsAClose(r, app);
        case Changed(app, state) => FlagsKeep(r, app, r.apps[app].In(state));
        case Moved(app, pid) => FlagsKeep(r, app, r.apps[app].(pid := pid));
        case PreloadFailed(app) => CloseKeeps(r, app, false);
        case WindowClosed(app) =>
          CloseKeeps(r, app, false);
          ForceCloseKeeps(r, app);
        case Kill(_, instanceId, _) => FoundKeeps(r, instanceId);
        case SetForceClose(instanceId) => FoundKeeps(r, instanceId);
        case Paused(instanceId) => FoundKeeps(r, instanceId);
      }
    }
  }

  /** A close that ends had begun: no completion reaches an app that still runs. */
  lemma CompletionsAreOfClosingApps(r: Registry, app: WebApp, end: Completion)
    requires Consistent(r) && Possible(r, CloseCompleted(app, end))
    ensures r.Live(app) && r.apps[app].isClosing
  {
    hide PagesMatch, DistinctInstances, DeletedOnce, ClosingMatch, CountersMatch;
  }

  lemma EverythingListed(r: Registry)
    requires Consistent(r)
    ensures Listed(r)
  {
  }

  lemma FoundKeeps(r: Registry, instanceId: string)
    requires Consistent(r)
    ensures match r.FindByInstance(instanceId)
            case None => true
            case Some(app) =>
              && app in r.apps
              && Consistent(r.CloseApp(app, false)) && Consistent(r.ForceClose(app))
              && Consistent(r.With(app, r.apps[app].(forceClose := true)))
              && Consistent(r.With(app, r.apps[app].(hidden := true)))
  {
    FoundIsLive(r, instanceId);
    match r.FindByInstance(instanceId)
    case None =>
    case Some(app) =>
      CloseKeeps(r, app, false);
      ForceCloseKeeps(r, app);
      FlagsKeep(r, app, r.apps[app].(forceClose := true));
      FlagsKeep(r, app, r.apps[app].(hidden := true));
  }

  /** The containers agree after every run of launches, closes, crashes and completions. */
  lemma {:induction false} EveryRunIsConsistent(events: seq<Event>)
    ensures Consistent(Run(events))
  {
    hide Step;
    if events != [] {
      EveryRunIsConsistent(events[..|events| - 1]);
      StepIsConsistent(Run(events[..|events| - 1]), events[|events| - 1]);
    }
  }

  /** Each launched app is in exactly one phase. */
  lemma ExactlyOnePhase(r: Registry, app: WebApp)
    requires Consistent(r) && app in r.apps
    ensures var running := app in r.appList;
            var closing := r.apps[app].isClosing && !r.IsDeleted(app);
            var deleted := r.IsDeleted(app);
            && (running || closing || deleted)
            && !(running && closing) && !(closing && deleted) && !(running && deleted)
    ensures multiset(r.log)[Deleted(app)] <= 1
  {
    assert r.IsDeleted(app) ==> multiset(r.log)[Deleted(app)] == 1;
    assert !r.IsDeleted(app) ==> multiset(r.log)[Deleted(app)] == 0;
  }

  /**
   In every run, exactly the apps that are closing and not deleted have an end of their close to
   come without a crash: the answer or the timeout of their callback, or their unload.
   */
  lemma ClosesComeToAnEnd(events: seq<Event>, app: WebApp)
    ensures var r := Run(events);
            (exists end: Completion :: !end.Crashed? && Possible(r, CloseCompleted(app, end))) <==>
            r.Live(app) && r.apps[app].isClosing
  {
    hide Run, PagesMatch, DistinctInstances, DeletedOnce, ClosingMatch, CountersMatch;
    EveryRunIsConsistent(events);
    var r := Run(events);
    if r.Live(app) && r.apps[app].isClosing {
      assert r.apps[app].Underway();
      var end := if r.apps[app].awaitsCallback then CallbackRan else Unloaded;
      assert Possible(r, CloseCompleted(app, end));
    }
  }

  /** What became of an app that is known: it stays known, does not come back to the list, and stays deleted. */
  predicate Onward(r: Registry, q: Registry, app: WebApp) {
    app in q.apps && (app !in r.appList ==> app !in q.appList) && (r.IsDeleted(app) ==> q.IsDeleted(app))
  }

  lemma ClosesGoOn(r: Registry, target: WebApp, ignoreCleanResource: bool, app: WebApp)
    requires target in r.apps && app in r.apps
    ensures Onward(r, r.CloseApp(target, ignoreCleanResource), app) && Onward(r, r.ForceClose(target), app)
    ensures Onward(r, r.WindowClosed(target), app) && Onward(r, r.CompleteClose(target), app)
  {
    hide Registry.CloseApp, Registry.ForceClose, Except;
    var closed, forced := r.CloseApp(target, ignoreCleanResource), r.ForceClose(target);
    assert closed.log[..|r.log|] == r.log && forced.log[..|r.log|] == r.log;
  }

  lemma FlagsGoOn(r: Registry, target: WebApp, flags: Flags, app: WebApp)
    requires app in r.apps
    ensures Onward(r, r.With(target, flags), app) && Onward(r, r, app)
  {
  }

  lemma CrashGoesOn(r: Registry, target: WebApp, isNormal: bool, app: WebApp)
    requires target in r.apps && app in r.apps
    ensures Onward(r, r.CrashedInForeground(target, isNormal), app)
  {
    hide Registry.CloseApp, Registry.ForceClose, Registry.WindowClosed, Registry.CompleteClose;
    ClosesGoOn(r.Counted(target), target, true, app);
  }

  lemma LaunchGoesOn(r: Registry, e: Event, app: WebApp)
    requires Listed(r) && app in r.apps && e.Launch? && Possible(r, e)
    ensures Onward(r, r.Launch(e.instanceId, e.made, e.args), app)
  {
    hide First;
  }

  lemma FoundGoesOn(r: Registry, instanceId: string, app: WebApp)
    requires Listed(r) && app in r.apps
    ensures match r.FindByInstance(instanceId)
            case None => true
            case Some(target) =>
              && target in r.apps
              && Onward(r, r.CloseApp(target, false), app) && Onward(r, r.ForceClose(target), app)
              && (forall flags :: Onward(r, r.With(target, flags), app))
              && (forall isNormal :: Onward(r, r.CrashedInForeground(target, isNormal), app))
  {
    hide Registry.CloseApp, Registry.ForceClose;
    hide Registry.CrashedInForeground, Registry.WindowClosed, Registry.CompleteClose;
    hide Registry.With, Onward;
    if r.FindByInstance(instanceId).Some? {
      var target := r.FindByInstance(instanceId).value;
      ClosesGoOn(r, target, false, app);
      forall flags
        ensures Onward(r, r.With(target, flags), app)
      {
        FlagsGoOn(r, target, flags, app);
      }
      forall isNormal
        ensures Onward(r, r.CrashedInForeground(target, isNormal), app)
      {
        CrashGoesOn(r, target, isNormal, app);
      }
    }
  }

  lemma CloseAllGoesOn(r: Registry, pid: nat, app: WebApp)
    requires Consistent(r) && Listed(r) && app in r.apps
    ensures Onward(r, r.CloseEach(r.OfProcess(pid)), app)
  {
    hide Consistent, Registry.CloseEach, Select, Except;
    CloseEachKeepsLog(r, r.OfProcess(pid));
    CloseAllLeavesOthers(r, pid);
    assert r.CloseEach(r.OfProcess(pid)).log[..|r.log|] == r.log;
  }

  lemma ClosesDeleteNobody(r: Registry, target: WebApp, app: WebApp)
    requires target in r.apps && !r.IsDeleted(app)
    ensures !r.CloseApp(target, false).IsDeleted(app) && !r.ForceClose(target).IsDeleted(app)
    ensures target != app ==> !r.CompleteClose(target).IsDeleted(app)
    ensures target != app ==> forall crashes :: !r.(crashes := crashes).CloseApp(target, true).IsDeleted(app)
  {
    hide Except;
  }

  lemma CrashDeletesNobody(r: Registry, target: WebApp, isNormal: bool, app: WebApp)
    requires target in r.apps && !r.IsDeleted(app) && target != app
    ensures !r.CrashedInForeground(target, isNormal).IsDeleted(app)
  {
    hide Registry.CloseApp, Registry.ForceClose, Registry.CompleteClose;
    ClosesDeleteNobody(r, target, app);
  }

  /** An app is deleted only by the end of its own close, or by a crash of its own. */
  lemma DeletedByItsEnd(r: Registry, e: Event, app: WebApp)
    requires Consistent(r) && app in r.apps && !r.IsDeleted(app) && Step(r, e).IsDeleted(app)
    ensures (e.CloseCompleted? && e.app == app) || (e.Crash? && r.FindByInstance(e.instanceId) == Some(app))
  {
    hide Consistent, Registry.CloseEach, Registry.CloseApp, Registry.ForceClose, Registry.CompleteClose, First, Select;
    hide Registry.CrashedInForeground;
    EverythingListed(r);
    if Possible(r, e) {
      match e {
        case Kill(_, instanceId, _) => FoundDeletesNobody(r, instanceId, app);
        case SetForceClose(instanceId) => FoundDeletesNobody(r, instanceId, app);
        case WindowClosed(target) => ClosesDeleteNobody(r, target, app);
        case PreloadFailed(target) => ClosesDeleteNobody(r, target, app);
        case CloseAll(pid) =>
          ListedAreLive(r);
          CloseEachKeeps(r, r.OfProcess(pid));
        case Crash(instanceId, _, isNormal, _) =>
          if r.FindByInstance(instanceId).Some? && r.FindByInstance(instanceId).value != app {
            CrashDeletesNobody(r, r.FindByInstance(instanceId).value, isNormal, app);
          }
        case CloseCompleted(target, _) => ClosesDeleteNobody(r, target, app);
        case _ =>
      }
    }
  }

  lemma FoundDeletesNobody(r: Registry, instanceId: string, app: WebApp)
    requires Listed(r) && !r.IsDeleted(app)
    ensures match r.FindByInstance(instanceId)
            case None => true
            case Some(target) =>
              target in r.apps && !r.CloseApp(target, false).IsDeleted(app) && !r.ForceClose(target).IsDeleted(app)
  {
    hide Registry.CloseApp, Registry.ForceClose, Registry.CompleteClose;
    if r.FindByInstance(instanceId).Some? {
      ClosesDeleteNobody(r, r.FindByInstance(instanceId).value, app);
    }
  }

  lemma StepKeepsKnown(r: Registry, e: Event, app: WebApp)
    requires Consistent(r) && app in r.apps
    ensures Onward(r, Step(r, e), app)
  {
    hide Consistent, Onward, Registry.CloseEach, Registry.CloseApp;
    hide Registry.ForceClose, Registry.CompleteClose, First, Select;
    hide Registry.CrashedInForeground, Registry.WindowClosed, Registry.With, Registry.Launch;
    EverythingListed(r);
    FlagsGoOn(r, app, r.apps[app], app);
    if Possible(r, e) {
      match e {
        case Launch(_, _, _) => LaunchGoesOn(r, e, app);
        case Kill(_, instanceId, _) => FoundGoesOn(r, instanceId, app);
        case SetForceClose(instanceId) => FoundGoesOn(r, instanceId, app);
        case WindowClosed(target) => ClosesGoOn(r, target, false, app);
        case PreloadFailed(target) => ClosesGoOn(r, target, false, app);
        case Paused(instanceId) => FoundGoesOn(r, instanceId, app);
        case CloseAll(pid) => CloseAllGoesOn(r, pid, app);
        case Crash(instanceId, _, _, _) => FoundGoesOn(r, instanceId, app);
        case CloseCompleted(target, _) => ClosesGoOn(r, target, false, app);
        case Changed(target, state) => FlagsGoOn(r, target, r.apps[target].In(state), app);
        case Moved(target, pid) => FlagsGoOn(r, target, r.apps[target].(pid := pid), app);
      }
    }
  }

  lemma {:induction false} CloseEachKeepsLog(r: Registry, targets: seq<WebApp>)
    requires forall a :: a in targets ==> a in r.apps
    ensures r.log <= r.CloseEach(targets).log && r.CloseEach(targets).apps.Keys == r.apps.Keys
    decreases |targets|
  {
    if targets != [] {
      assert targets[0] in targets && forall a :: a in targets[1..] ==> a in targets;
      CloseEachKeepsLog(r.ForceClose(targets[0]), targets[1..]);
    }
  }

  /** What left the list never comes back, and what is deleted stays deleted. */
  lemma {:induction false} PhasesOnlyAdvance(events: seq<Event>, later: seq<Event>, app: WebApp)
    requires app in Run(events).apps
    ensures var r, q := Run(events), Run(events + later);
            && app in q.apps && (app !in r.appList ==> app !in q.appList) && (r.IsDeleted(app) ==> q.IsDeleted(app))
    decreases |later|
  {
    hide Step, Consistent;
    if later == [] {
      assert events + later == events;
    } else {
      var init, e := later[..|later| - 1], later[|later| - 1];
      PhasesOnlyAdvance(events, init, app);
      EveryRunIsConsistent(events + init);
      StepKeepsKnown(Run(events + init), e, app);
      assert (events + later)[..|events + later| - 1] == events + init;
    }
  }

  // ---- the crash counter ----

  /**
   Since the last close of any app, an app id has been reloaded at most twice; its counter
   exceeds two only through crashes of kept-alive apps that were hidden instead of closed.
   */
  lemma CounterIsBounded(events: seq<Event>, appId: string)
    ensures var r := Run(events);
            && ReloadsSinceClose(r.log, appId) <= 2
            && r.CrashCount(appId) == ReloadsSinceClose(r.log, appId) + KeptSinceClose(r.log, appId)
  {
    EveryRunIsConsistent(events);
    var count := Run(events).CrashCount(appId);
  }

  ghost predicate NotKeptAlive(r: Registry, appId: string) {
    forall a :: a in r.apps && a.appId == appId ==> !r.apps[a].keepAlive
  }

  lemma KeptOnlyIfKeptAlive(r: Registry, e: Event, appId: string)
    requires Consistent(r) && NotKeptAlive(r, appId)
    ensures Kept(appId) in Step(r, e).log ==> Kept(appId) in r.log
  {
    hide Consistent, NotKeptAlive, First, Except, Select;
    hide Registry.CloseApp, Registry.ForceClose, Registry.CloseEach, Registry.CrashedInForeground;
    EverythingListed(r);
    if Possible(r, e) {
      match e {
        case CloseAll(pid) => CloseEachKeepsNobody(r, r.OfProcess(pid), appId);
        case Crash(instanceId, _, isNormal, _) => FoundKeepsNobody(r, instanceId, isNormal, appId);
        case Kill(_, instanceId, _) => FoundKeepsNobody(r, instanceId, false, appId);
        case SetForceClose(instanceId) => FoundKeepsNobody(r, instanceId, false, appId);
        case PreloadFailed(app) => ClosingKeepsNobody(r, app, appId);
        case WindowClosed(app) => ClosingKeepsNobody(r, app, appId);
        case _ =>
      }
    }
  }

  lemma ClosingKeepsNobody(r: Registry, app: WebApp, appId: string)
    requires app in r.apps
    ensures Kept(appId) in r.CloseApp(app, false).log <==> Kept(appId) in r.log
    ensures Kept(appId) in r.ForceClose(app).log <==> Kept(appId) in r.log
  {
    hide Except;
  }

  lemma CrashKeepsNobody(r: Registry, app: WebApp, isNormal: bool, appId: string)
    requires app in r.apps && NotKeptAlive(r, appId)
    ensures Kept(appId) in r.CrashedInForeground(app, isNormal).log ==> Kept(appId) in r.log
  {
    hide Except;
  }

  lemma FoundKeepsNobody(r: Registry, instanceId: string, isNormal: bool, appId: string)
    requires Listed(r) && NotKeptAlive(r, appId)
    ensures match r.FindByInstance(instanceId)
            case None => true
            case Some(app) =>
              && app in r.apps
              && (Kept(appId) in r.CloseApp(app, false).log <==> Kept(appId) in r.log)
              && (Kept(appId) in r.ForceClose(app).log <==> Kept(appId) in r.log)
              && (Kept(appId) in r.CrashedInForeground(app, isNormal).log ==> Kept(appId) in r.log)
  {
    match r.FindByInstance(instanceId)
    case None =>
    case Some(app) =>
      ClosingKeepsNobody(r, app, appId);
      CrashKeepsNobody(r, app, isNormal, appId);
  }

  lemma {:induction false} CloseEachKeepsNobody(r: Registry, targets: seq<WebApp>, appId: string)
    requires forall a :: a in targets ==> a in r.apps
    ensures Kept(appId) in r.CloseEach(targets).log ==> Kept(appId) in r.log
    decreases |targets|
  {
    if targets != [] {
      assert targets[0] in targets && forall a :: a in targets[1..] ==> a in targets;
      CloseEachKeepsNobody(r.ForceClose(targets[0]), targets[1..], appId);
    }
  }

  lemma {:induction false} NeverKept(events: seq<Event>, appId: string)
    requires forall i :: 0 <= i <= |events| ==> NotKeptAlive(Run(events[..i]), appId)
    ensures Kept(appId) !in Run(events).log
  {
    hide Step, Consistent, NotKeptAlive;
    if events != [] {
      var init := events[..|events| - 1];
      assert forall i :: 0 <= i <= |init| ==> init[..i] == events[..i];
      NeverKept(init, appId);
      EveryRunIsConsistent(init);
      KeptOnlyIfKeptAlive(Run(init), events[|events| - 1], appId);
    }
  }

  lemma {:induction false} NoneKept(log: seq<Entry>, appId: string)
    requires Kept(appId) !in log
    ensures KeptSinceClose(log, appId) == 0
  {
    if log != [] {
      NoneKept(log[..|log| - 1], appId);
    }
  }

  /** The counter of an app id whose apps are never kept alive is at most two between steps. */
  lemma CounterWithoutKeepAlive(events: seq<Event>, appId: string)
    requires forall i :: 0 <= i <= |events| ==> NotKeptAlive(Run(events[..i]), appId)
    ensures Run(events).CrashCount(appId) <= 2
  {
    CounterIsBounded(events, appId);
    NeverKept(events, appId);
    NoneKept(Run(events).log, appId);
  }

  // ---- entries that stay behind in the closing list ----

  /**
   A close is entered under the instance id and removed under the app id: the entry of a
   deleted app stays behind exactly when the two differ.
   */
  lemma EntryStaysBehind(r: Registry, app: WebApp)
    requires Consistent(r) && r.Live(app) && r.apps[app].isClosing
    ensures var q := r.CompleteClose(app);
            app in q.closingApps.Values <==>
                   app.instanceId in r.closingApps && r.closingApps[app.instanceId] == app
                   && app.instanceId != app.appId
  {
    var q := r.CompleteClose(app);
    if app.instanceId in r.closingApps && r.closingApps[app.instanceId] == app && app.instanceId != app.appId {
      assert q.closingApps[app.instanceId] == app;
    }
  }

  /** And it takes away the entry of another app exactly when that app's instance id is this one's app id. */
  lemma OtherEntryIsLost(r: Registry, app: WebApp, other: WebApp)
    requires Consistent(r) && r.Live(app) && other in r.closingApps.Values && other != app
    ensures other !in r.CompleteClose(app).closingApps.Values <==> other.instanceId == app.appId
  {
    var k :| k in r.closingApps && r.closingApps[k] == other;
    assert k == other.instanceId;
    var q := r.CompleteClose(app);
    if other.instanceId != app.appId {
      assert q.closingApps[other.instanceId] == other;
    }
  }

  ghost predicate NothingStale(r: Registry) {
    forall k :: k in r.closingApps ==> !r.IsDeleted(r.closingApps[k])
  }

  ghost predicate IdsCoincide(r: Registry) {
    forall a :: a in r.apps ==> a.instanceId == a.appId
  }

  lemma CloseLeavesNothingStale(r: Registry, app: WebApp, ignoreCleanResource: bool)
    requires Consistent(r) && NothingStale(r) && r.Live(app) && (ignoreCleanResource ==> !r.apps[app].isClosing)
    ensures NothingStale(r.CloseApp(app, ignoreCleanResource))
  {
    hide CountersMatch, DistinctInstances, PagesMatch, DeletedOnce, Except;
  }

  lemma ForceCloseLeavesNothingStale(r: Registry, app: WebApp)
    requires Consistent(r) && NothingStale(r) && r.Live(app)
    ensures NothingStale(r.ForceClose(app))
  {
    FlagsKeep(r, app, r.apps[app].(keepAlive := false));
    CloseLeavesNothingStale(r.With(app, r.apps[app].(keepAlive := false)), app, false);
  }

  lemma {:induction false} CloseEachLeavesNothingStale(r: Registry, targets: seq<WebApp>)
    requires Consistent(r) && NothingStale(r) && forall a :: a in targets ==> a in r.apps && r.Live(a)
    ensures NothingStale(r.CloseEach(targets))
    decreases |targets|
  {
    hide Consistent, Registry.ForceClose, NothingStale;
    if targets != [] {
      assert targets[0] in targets && forall a :: a in targets[1..] ==> a in targets;
      ForceCloseKeeps(r, targets[0]);
      ForceCloseLeavesNothingStale(r, targets[0]);
      CloseEachLeavesNothingStale(r.ForceClose(targets[0]), targets[1..]);
    }
  }

  lemma CompletionLeavesNothingStale(r: Registry, app: WebApp)
    requires Consistent(r) && NothingStale(r) && r.Live(app) && r.apps[app].isClosing && app.instanceId == app.appId
    ensures NothingStale(r.CompleteClose(app))
  {
    hide CountersMatch, DistinctInstances, PagesMatch, DeletedOnce, Except;
  }

  lemma CrashLeavesNothingStale(r: Registry, e: Event)
    requires Consistent(r) && Listed(r) && NothingStale(r) && e.Crash?
    ensures NothingStale(r.ProcessCrashed(e.instanceId, e.activated, e.isNormal, e.minimized))
  {
    hide DistinctInstances, PagesMatch, DeletedOnce, CountersMatch, Except, First;
    FoundIsLive(r, e.instanceId);
  }

  lemma StepLeavesNothingStale(r: Registry, e: Event)
    requires Consistent(r) && NothingStale(r) && IdsCoincide(r)
    ensures NothingStale(Step(r, e))
  {
    hide Consistent, Registry.CloseApp, Registry.ForceClose;
    hide Registry.CompleteClose, Registry.CloseEach, Registry.ProcessCrashed, First;
    EverythingListed(r);
    if Possible(r, e) {
      match e {
        case CloseAll(pid) =>
          ListedAreLive(r);
          CloseEachLeavesNothingStale(r, r.OfProcess(pid));
        case Crash(_, _, _, _) => CrashLeavesNothingStale(r, e);
        case CloseCompleted(app, end) =>
          CompletionsAreOfClosingApps(r, app, end);
          CompletionLeavesNothingStale(r, app);
        case PreloadFailed(app) => CloseLeavesNothingStale(r, app, false);
        case WindowClosed(app) =>
          CloseLeavesNothingStale(r, app, false);
          ForceCloseLeavesNothingStale(r, app);
        case Kill(_, instanceId, _) => FoundLeavesNothingStale(r, instanceId);
        case SetForceClose(instanceId) => FoundLeavesNothingStale(r, instanceId);
        case _ =>
      }
    }
  }

  lemma FoundLeavesNothingStale(r: Registry, instanceId: string)
    requires Consistent(r) && NothingStale(r)
    ensures match r.FindByInstance(instanceId)
            case None => true
            case Some(app) => app in r.apps && NothingStale(r.CloseApp(app, false)) && NothingStale(r.ForceClose(app))
  {
    FoundIsLive(r, instanceId);
    match r.FindByInstance(instanceId)
    case None =>
    case Some(app) =>
      CloseLeavesNothingStale(r, app, false);
      ForceCloseLeavesNothingStale(r, app);
  }

  lemma {:induction false} AppsOnlyGrow(events: seq<Event>)
    requires events != []
    ensures Run(events[..|events| - 1]).apps.Keys <= Run(events).apps.Keys
  {
    hide Step, Consistent;
    var r, e := Run(events[..|events| - 1]), events[|events| - 1];
    EveryRunIsConsistent(events[..|events| - 1]);
    forall a | a in r.apps ensures a in Step(r, e).apps {
      StepKeepsKnown(r, e, a);
    }
  }

  /** As long as every app's instance id is its app id, the closing list never holds a deleted app. */
  lemma {:induction false} NothingStaleIfIdsCoincide(events: seq<Event>)
    requires IdsCoincide(Run(events))
    ensures NothingStale(Run(events))
  {
    hide Step, Consistent;
    if events != [] {
      AppsOnlyGrow(events);
      EveryRunIsConsistent(events[..|events| - 1]);
      NothingStaleIfIdsCoincide(events[..|events| - 1]);
      StepLeavesNothingStale(Run(events[..|events| - 1]), events[|events| - 1]);
    }
  }

  // ---- the closing list, when ids are not used twice ----

  /** No two apps that exist have the same instance id. */
  ghost predicate UniqueIds(r: Registry) {
    forall a, b :: a in r.apps && b in r.apps && r.Live(a) && r.Live(b) && a.instanceId == b.instanceId ==> a == b
  }

  ghost predicate ClosingListExact(r: Registry) {
    && (forall a :: a in r.closingApps.Values ==> r.Live(a) && r.apps[a].isClosing)
    && (forall a :: a in r.apps && r.Live(a) && r.apps[a].isClosing ==> a in r.closingApps.Values)
  }

  lemma CloseListsExactly(r: Registry, app: WebApp, ignoreCleanResource: bool)
    requires Consistent(r) && UniqueIds(r) && ClosingListExact(r)
    requires r.Live(app) && (ignoreCleanResource ==> !r.apps[app].isClosing)
    ensures ClosingListExact(r.CloseApp(app, ignoreCleanResource))
  {
    hide Consistent, UniqueIds, ClosingListExact, Except, Without, Registry.CloseForGood;
    if r.apps[app].keepAlive && !r.apps[app].errorPage {
      FlagsListExactly(r, app, r.apps[app].(hidden := true));
    } else {
      var q := r.CloseForGood(app, ignoreCleanResource);
      ClosedForGood(r, app, ignoreCleanResource);
      if ignoreCleanResource {
        DeletedIsNotListed(r, q, app, q.apps[app]);
      } else {
        ClosedIsListed(r, q, app, q.apps[app]);
      }
    }
  }

  lemma ClosedForGood(r: Registry, app: WebApp, ignoreCleanResource: bool)
    requires app in r.apps
    ensures var q := r.CloseForGood(app, ignoreCleanResource);
            && q.apps == r.apps[app := q.apps[app]] && q.apps[app].isClosing
            && q.log == (if ignoreCleanResource then r.log + [Closed(app)] + [Deleted(app)] else r.log + [Closed(app)])
            && q.closingApps == if ignoreCleanResource || app.instanceId in r.closingApps then r.closingApps
                                else r.closingApps[app.instanceId := app]
  {
  }

  lemma DeletedIsNotListed(r: Registry, q: Registry, app: WebApp, flags: Flags)
    requires ClosingListExact(r) && r.Live(app) && !r.apps[app].isClosing
    requires q.closingApps == r.closingApps && q.apps == r.apps[app := flags]
             && q.log == r.log + [Closed(app)] + [Deleted(app)]
    ensures ClosingListExact(q)
  {
    assert forall a :: a in r.apps ==> (q.Live(a) <==> r.Live(a) && a != app);
  }

  lemma ClosedIsListed(r: Registry, q: Registry, app: WebApp, flags: Flags)
    requires Consistent(r) && UniqueIds(r) && ClosingListExact(r) && r.Live(app) && flags.isClosing
    requires q.apps == r.apps[app := flags] && q.log == r.log + [Closed(app)]
    requires q.closingApps ==
             if app.instanceId in r.closingApps then r.closingApps else r.closingApps[app.instanceId := app]
    ensures ClosingListExact(q)
  {
    hide CountersMatch, DistinctInstances, PagesMatch, PhasesMatch, ClosesProgress, DeletedOnce;
    if app.instanceId in r.closingApps {
      assert r.closingApps[app.instanceId] in r.closingApps.Values;
    }
    ClosingListGrows(r.closingApps, app);
    assert forall a :: a in r.apps ==> (q.Live(a) <==> r.Live(a));
  }

  lemma ClosingListGrows(closingApps: map<string, WebApp>, app: WebApp)
    ensures app.instanceId !in closingApps ==>
              closingApps[app.instanceId := app].Values == closingApps.Values + {app}
  {
    var q := closingApps[app.instanceId := app];
    if app.instanceId !in closingApps {
      forall a | a in closingApps.Values
        ensures a in q.Values
      {
        var k :| k in closingApps && closingApps[k] == a;
        assert q[k] == a;
      }
      assert q[app.instanceId] == app;
    }
  }

  lemma ForceCloseListsExactly(r: Registry, app: WebApp)
    requires Consistent(r) && UniqueIds(r) && ClosingListExact(r) && r.Live(app)
    ensures ClosingListExact(r.ForceClose(app)) && UniqueIds(r.ForceClose(app))
  {
    hide Consistent, Registry.CloseApp;
    var q := r.With(app, r.apps[app].(keepAlive := false));
    FlagsKeep(r, app, r.apps[app].(keepAlive := false));
    assert forall a :: q.Live(a) <==> r.Live(a);
    CloseListsExactly(q, app, false);
    ForceCloseKeeps(r, app);
    assert forall a :: r.ForceClose(app).Live(a) <==> r.Live(a);
  }

  lemma {:induction false} CloseEachListsExactly(r: Registry, targets: seq<WebApp>)
    requires Consistent(r) && UniqueIds(r) && ClosingListExact(r)
    requires forall a :: a in targets ==> a in r.apps && r.Live(a)
    ensures ClosingListExact(r.CloseEach(targets))
    decreases |targets|
  {
    hide Consistent, Registry.ForceClose, UniqueIds, ClosingListExact;
    if targets != [] {
      assert targets[0] in targets && forall a :: a in targets[1..] ==> a in targets;
      ForceCloseKeeps(r, targets[0]);
      ForceCloseListsExactly(r, targets[0]);
      CloseEachListsExactly(r.ForceClose(targets[0]), targets[1..]);
    }
  }

  lemma CompletionListsExactly(r: Registry, app: WebApp)
    requires Consistent(r) && UniqueIds(r) && ClosingListExact(r)
    requires r.Live(app) && r.apps[app].isClosing && app.instanceId == app.appId
    ensures ClosingListExact(r.CompleteClose(app))
  {
    hide CountersMatch, DistinctInstances, PagesMatch, PhasesMatch, ClosesProgress, DeletedOnce, Except, UniqueIds;
    var q := r.CompleteClose(app);
    assert r.closingApps[app.instanceId] == app;
    forall a
      ensures a in q.closingApps.Values <==> a in r.closingApps.Values && a != app
    {
      if a in r.closingApps.Values && a != app {
        var k :| k in r.closingApps && r.closingApps[k] == a;
        assert q.closingApps[k] == a;
      }
    }
    assert forall a :: q.Live(a) <==> r.Live(a) && a != app;
  }

  lemma FlagsListExactly(r: Registry, app: WebApp, flags: Flags)
    requires ClosingListExact(r) && app in r.apps && flags.isClosing == r.apps[app].isClosing
    ensures ClosingListExact(r.With(app, flags))
  {
    assert forall a :: r.With(app, flags).Live(a) <==> r.Live(a);
  }

  lemma RegisterListsExactly(r: Registry, app: WebApp, flags: Flags)
    requires Consistent(r) && ClosingListExact(r) && app !in r.apps && !flags.isClosing
    ensures ClosingListExact(r.Register(app, flags))
  {
    hide CountersMatch, DistinctInstances, PagesMatch, PhasesMatch, ClosesProgress;
    assert forall a :: a != app ==> (r.Register(app, flags).Live(a) <==> r.Live(a));
  }

  lemma CrashListsExactly(r: Registry, e: Event)
    requires Consistent(r) && Listed(r) && UniqueIds(r) && ClosingListExact(r) && e.Crash?
    ensures ClosingListExact(r.ProcessCrashed(e.instanceId, e.activated, e.isNormal, e.minimized))
  {
    hide Consistent, First, Registry.CrashedInForeground, UniqueIds, ClosingListExact;
    FoundIsLive(r, e.instanceId);
    match r.FindByInstance(e.instanceId)
    case None =>
    case Some(app) =>
      ForegroundListsExactly(r, app, e.isNormal);
      FlagsListExactly(r, app, r.apps[app].(crashed := true));
  }

  lemma ForegroundListsExactly(r: Registry, app: WebApp, isNormal: bool)
    requires Consistent(r) && UniqueIds(r) && ClosingListExact(r) && r.Live(app) && !r.apps[app].isClosing
    ensures ClosingListExact(r.CrashedInForeground(app, isNormal))
  {
    hide Consistent, Registry.CloseApp, UniqueIds;
    CloseListsExactly(r, app, true);
    CrashesDoNotList(r, app, r.Counted(app).crashes);
  }

  lemma CrashesDoNotList(r: Registry, app: WebApp, crashes: map<string, nat>)
    requires app in r.apps
    ensures var q, c := r.(crashes := crashes).CloseApp(app, true), r.CloseApp(app, true);
            q.closingApps == c.closingApps && q.apps == c.apps && q.log == c.log
  {
  }

  lemma FoundListsExactly(r: Registry, instanceId: string)
    requires Consistent(r) && UniqueIds(r) && ClosingListExact(r)
    ensures match r.FindByInstance(instanceId)
            case None => true
            case Some(app) =>
              app in r.apps && ClosingListExact(r.CloseApp(app, false)) && ClosingListExact(r.ForceClose(app))
  {
    hide UniqueIds, ClosingListExact, Registry.CloseApp, Registry.ForceClose;
    FoundIsLive(r, instanceId);
    match r.FindByInstance(instanceId)
    case None =>
    case Some(app) =>
      CloseListsExactly(r, app, false);
      ForceCloseListsExactly(r, app);
  }

  lemma StepListsExactly(r: Registry, e: Event)
    requires Consistent(r) && UniqueIds(r) && ClosingListExact(r) && IdsCoincide(r)
    ensures ClosingListExact(Step(r, e))
  {
    hide Consistent, Registry.CloseApp, Registry.ForceClose;
    hide Registry.CompleteClose, Registry.CloseEach, Registry.ProcessCrashed, First;
    hide UniqueIds, ClosingListExact, Registry.Register, Registry.With;
    EverythingListed(r);
    if Possible(r, e) {
      match e {
        case Launch(instanceId, made, _) =>
          FoundIsLive(r, instanceId);
          if r.FindByInstance(instanceId).Some? {
            var app := r.FindByInstance(instanceId).value;
            FlagsListExactly(r, app, r.apps[app].(hidden := false, crashed := false));
          } else if made.Some? {
            RegisterListsExactly(r, made.value.0, made.value.1);
          }
        case CloseAll(pid) =>
          ListedAreLive(r);
          CloseEachListsExactly(r, r.OfProcess(pid));
        case Crash(_, _, _, _) => CrashListsExactly(r, e);
        case CloseCompleted(app, end) =>
          CompletionsAreOfClosingApps(r, app, end);
          CompletionListsExactly(r, app);
        case PreloadFailed(app) => CloseListsExactly(r, app, false);
        case WindowClosed(app) =>
          CloseListsExactly(r, app, false);
          ForceCloseListsExactly(r, app);
        case Kill(_, instanceId, _) => FoundListsExactly(r, instanceId);
        case SetForceClose(instanceId) =>
          FoundIsLive(r, instanceId);
          FoundListsExactly(r, instanceId);
          if r.FindByInstance(instanceId).Some? {
            var app := r.FindByInstance(instanceId).value;
            FlagsListExactly(r, app, r.apps[app].(forceClose := true));
          }
        case Paused(instanceId) =>
          FoundIsLive(r, instanceId);
          if r.FindByInstance(instanceId).Some? {
            var app := r.FindByInstance(instanceId).value;
            FlagsListExactly(r, app, r.apps[app].(hidden := true));
          }
        case Changed(app, state) => FlagsListExactly(r, app, r.apps[app].In(state));
        case Moved(app, pid) => FlagsListExactly(r, app, r.apps[app].(pid := pid));
      }
    }
  }

  /**
   As long as every instance id is the app id and no two existing apps share one, the closing
   list holds exactly the apps that are closing and not deleted.
   */
  lemma {:induction false} ClosingListIsExact(events: seq<Event>)
    requires IdsCoincide(Run(events)) && forall i :: 0 <= i <= |events| ==> UniqueIds(Run(events[..i]))
    ensures ClosingListExact(Run(events))
  {
    hide Step, Consistent, UniqueIds;
    if events != [] {
      var init := events[..|events| - 1];
      AppsOnlyGrow(events);
      EveryRunIsConsistent(init);
      assert forall i :: 0 <= i <= |init| ==> init[..i] == events[..i];
      assert init[..|init|] == init;
      ClosingListIsExact(init);
      StepListsExactly(Run(init), events[|events| - 1]);
    }
  }
}
