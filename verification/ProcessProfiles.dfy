/** The report of web processes and the apps each of them runs (GetWebProcessProfiling). */
module ProcessProfiles {
  import opened Options
  import opened Registries
  import opened WebAppManagers

  datatype AppObject = AppObject(id: string, instanceId: string)
  datatype ProcessObject = ProcessObject(pid: nat, webProcessSize: string, tileSize: nat, runningApps: seq<AppObject>)

  function Describe(app: WebApp): AppObject {
    AppObject(app.appId, app.instanceId)
  }

  function Described(apps: seq<WebApp>): (objects: seq<AppObject>)
    ensures |objects| == |apps|
    ensures forall i :: 0 <= i < |apps| ==>
                          objects[i].id == apps[i].appId && objects[i].instanceId == apps[i].instanceId
  {
    seq(|apps|, i requires 0 <= i < |apps| => Describe(apps[i]))
  }

  /** The running apps as the report sees them: each looked up again by its instance id. */
  function Reported(list: seq<WebApp>): (apps: seq<WebApp>)
    ensures forall a :: a in apps ==> a in list
  {
    seq(|list|, i requires 0 <= i < |list| => First(list, list[i].instanceId).value)
  }

  function OfPid(apps: seq<WebApp>, flags: map<WebApp, Flags>, pid: nat): (group: seq<WebApp>)
    requires forall a :: a in apps ==> a in flags
    ensures forall a :: a in group ==> a in apps && flags[a].pid == pid
    ensures forall a :: a in apps && flags[a].pid == pid ==> a in group
  {
    if apps == [] then []
    else
      var last := apps[|apps| - 1];
      OfPid(apps[..|apps| - 1], flags, pid) + if flags[last].pid == pid then [last] else []
  }

  /** Each process once, in ascending order, with the apps that report it; no process without apps. */
  ghost predicate IsProfile(processes: seq<ProcessObject>, list: seq<WebApp>, flags: map<WebApp, Flags>,
                            memSize: nat -> string)
    requires forall a :: a in list ==> a in flags
  {
    && (forall i, j :: 0 <= i < j < |processes| ==> processes[i].pid < processes[j].pid)
    && (forall i :: 0 <= i < |processes| ==>
                      processes[i].runningApps == Described(OfPid(Reported(list), flags, processes[i].pid))
                      && processes[i].runningApps != []
                      && processes[i].webProcessSize == memSize(processes[i].pid) && processes[i].tileSize == 0)
    && (forall a :: a in Reported(list) ==> exists i :: 0 <= i < |processes| && processes[i].pid == flags[a].pid)
  }

  /** What the first loop has gathered from some of the apps: their processes, and under each its apps. */
  ghost predicate Collected(apps: seq<WebApp>, flags: map<WebApp, Flags>, ids: set<nat>, groups: map<nat, seq<WebApp>>)
    requires forall a :: a in apps ==> a in flags
  {
    && groups.Keys == ids
    && (forall a :: a in apps ==> flags[a].pid in ids)
    && (forall pid :: pid in ids ==> groups[pid] == OfPid(apps, flags, pid) && groups[pid] != [])
  }

  lemma CollectedKeys(apps: seq<WebApp>, flags: map<WebApp, Flags>, ids: set<nat>, groups: map<nat, seq<WebApp>>)
    requires (forall a :: a in apps ==> a in flags) && Collected(apps, flags, ids, groups)
    ensures groups.Keys == ids
  {
  }

  lemma NobodyOfPid(apps: seq<WebApp>, flags: map<WebApp, Flags>, pid: nat)
    requires forall a :: a in apps ==> a in flags && flags[a].pid != pid
    ensures OfPid(apps, flags, pid) == []
  {
  }

  lemma OfPidAppended(apps: seq<WebApp>, app: WebApp, flags: map<WebApp, Flags>, pid: nat)
    requires app in flags && forall a :: a in apps ==> a in flags
    ensures OfPid(apps + [app], flags, pid) ==
            if flags[app].pid == pid then OfPid(apps, flags, pid) + [app] else OfPid(apps, flags, pid)
  {
    assert (apps + [app])[..|apps|] == apps;
  }

  function Grown(groups: map<nat, seq<WebApp>>, pid: nat, app: WebApp): map<nat, seq<WebApp>> {
    groups[pid := (if pid in groups then groups[pid] else []) + [app]]
  }

  lemma CollectOne(apps: seq<WebApp>, app: WebApp, flags: map<WebApp, Flags>, ids: set<nat>,
                   groups: map<nat, seq<WebApp>>)
    requires app in flags && (forall a :: a in apps ==> a in flags) && Collected(apps, flags, ids, groups)
    ensures forall a :: a in apps + [app] ==> a in flags
    ensures Collected(apps + [app], flags, ids + {flags[app].pid}, Grown(groups, flags[app].pid, app))
  {
    hide OfPid, Grown;
    GrownKeys(groups, flags[app].pid, app);
    forall pid | pid in ids + {flags[app].pid}
      ensures var group := Grown(groups, flags[app].pid, app)[pid];
              group == OfPid(apps + [app], flags, pid) && group != []
    {
      CollectGroup(apps, app, flags, ids, groups, pid);
    }
  }

  lemma GrownKeys(groups: map<nat, seq<WebApp>>, pid: nat, app: WebApp)
    ensures Grown(groups, pid, app).Keys == groups.Keys + {pid}
  {
  }

  lemma CollectGroup(apps: seq<WebApp>, app: WebApp, flags: map<WebApp, Flags>, ids: set<nat>,
                     groups: map<nat, seq<WebApp>>, pid: nat)
    requires app in flags && (forall a :: a in apps ==> a in flags) && Collected(apps, flags, ids, groups)
    requires pid in ids + {flags[app].pid}
    ensures forall a :: a in apps + [app] ==> a in flags
    ensures pid in Grown(groups, flags[app].pid, app)
    ensures var group := Grown(groups, flags[app].pid, app)[pid];
            group == OfPid(apps + [app], flags, pid) && group != []
  {
    hide OfPid;
    OfPidAppended(apps, app, flags, pid);
    if pid !in ids {
      NobodyOfPid(apps, flags, pid);
    }
  }

  function Row(pid: nat, groups: map<nat, seq<WebApp>>, memSize: nat -> string): ProcessObject
    requires pid in groups
  {
    ProcessObject(pid, memSize(pid), 0, Described(groups[pid]))
  }

  /** Some processes are reported, in ascending order, and the ids that are left are all greater. */
  ghost predicate PartlyReported(processes: seq<ProcessObject>, left: set<nat>, all: set<nat>,
                                 groups: map<nat, seq<WebApp>>, memSize: nat -> string)
  {
    && groups.Keys == all && left <= all
    && (forall i, j :: 0 <= i < j < |processes| ==> processes[i].pid < processes[j].pid)
    && (forall i, p :: 0 <= i < |processes| && p in left ==> processes[i].pid < p)
    && (forall i :: 0 <= i < |processes| ==>
                      processes[i].pid in all && processes[i] == Row(processes[i].pid, groups, memSize))
    && (forall p :: p in all ==> p in left || exists i :: 0 <= i < |processes| && processes[i].pid == p)
  }

  lemma NothingReported(all: set<nat>, groups: map<nat, seq<WebApp>>, memSize: nat -> string)
    requires groups.Keys == all
    ensures PartlyReported([], all, all, groups, memSize)
  {
  }

  lemma ReportOne(processes: seq<ProcessObject>, left: set<nat>, all: set<nat>, groups: map<nat, seq<WebApp>>,
                  memSize: nat -> string, pid: nat)
    requires PartlyReported(processes, left, all, groups, memSize) && pid in left && forall q :: q in left ==> pid <= q
    ensures pid in groups && PartlyReported(processes + [Row(pid, groups, memSize)], left - {pid}, all, groups, memSize)
  {
    hide Described;
    var more := processes + [Row(pid, groups, memSize)];
    assert more[|processes|].pid == pid;
    forall p | p in all && p !in left
      ensures exists i :: 0 <= i < |more| && more[i].pid == p
    {
      var i :| 0 <= i < |processes| && processes[i].pid == p;
      assert more[i].pid == p;
    }
  }

  lemma ReportedAll(processes: seq<ProcessObject>, list: seq<WebApp>, flags: map<WebApp, Flags>,
                    all: set<nat>, groups: map<nat, seq<WebApp>>, memSize: nat -> string)
    requires forall a :: a in list ==> a in flags
    requires Collected(Reported(list), flags, all, groups) && PartlyReported(processes, {}, all, groups, memSize)
    ensures IsProfile(processes, list, flags, memSize)
  {
    hide Reported, OfPid;
  }

  class BlinkWebProcessManager {
    const manager: WebAppManager

    constructor (manager: WebAppManager)
      ensures this.manager == manager
    {
      this.manager := manager;
    }

    /** `memSize` stands for the memory sizes that the system reports. */
    method GetWebProcessProfiling(memSize: nat -> string) returns (processes: seq<ProcessObject>)
      requires manager.Valid()
      ensures IsProfile(processes, manager.appList, manager.Apps(), memSize)
      ensures Partitions(processes, manager.appList, manager.Apps())
    {
      hide PartlyReported, Collected, IsProfile, Partitions, Consistent;
      var processIdList, runningAppList := CollectProcesses();
      ghost var all := processIdList;
      processes := [];
      NothingReported(all, runningAppList, memSize);
      while processIdList != {}
        invariant processIdList <= all && PartlyReported(processes, processIdList, all, runningAppList, memSize)
        decreases |processIdList|
      {
        ghost var least := Least(processIdList);
        var pid :| pid in processIdList && forall q :: q in processIdList ==> pid <= q;
        var appArray := DescribeGroup(runningAppList[pid]);
        ReportOne(processes, processIdList, all, runningAppList, memSize, pid);
        processIdList := processIdList - {pid};
        processes := processes + [ProcessObject(pid, memSize(pid), 0, appArray)];
      }
      ReportedAll(processes, manager.appList, manager.Apps(), all, runningAppList, memSize);
      DistinctIfConsistent(manager.View());
      ProfilePartitions(processes, manager.appList, manager.Apps(), memSize);
    }

    /** The first loop: the set of process ids, and the apps under their process id. */
    method CollectProcesses() returns (processIdList: set<nat>, runningAppList: map<nat, seq<WebApp>>)
      requires manager.Shape()
      ensures Collected(Reported(manager.appList), manager.Apps(), processIdList, runningAppList)
      ensures runningAppList.Keys == processIdList
    {
      hide First, Collected;
      processIdList, runningAppList := {}, map[];
      var running := manager.appList;
      ghost var reported, flags := Reported(running), manager.Apps();
      NothingCollected(flags);
      for i := 0 to |running|
        invariant Collected(reported[..i], flags, processIdList, runningAppList)
      {
        assert running[i] in running;
        var found := manager.FindAppByInstanceId(running[i].instanceId);
        var app := found.value;
        assert reported[..i + 1] == reported[..i] + [app];
        CollectOne(reported[..i], app, flags, processIdList, runningAppList);
        var pid := app.pid;
        processIdList := processIdList + {pid};
        runningAppList := runningAppList[pid := (if pid in runningAppList then runningAppList[pid] else []) + [app]];
      }
      assert reported[..|running|] == reported;
      CollectedKeys(reported, flags, processIdList, runningAppList);
    }

    method DescribeGroup(group: seq<WebApp>) returns (appArray: seq<AppObject>)
      ensures appArray == Described(group)
      ensures forall i :: 0 <= i < |group| ==>
                            appArray[i].id == group[i].appId && appArray[i].instanceId == group[i].instanceId
    {
      appArray := [];
      for i := 0 to |group|
        invariant appArray == Described(group[..i])
      {
        var appObject := Describe(group[i]);
        appArray := appArray + [appObject];
      }
      assert group[..|group|] == group;
    }
  }

  lemma NothingCollected(flags: map<WebApp, Flags>)
    ensures Collected([], flags, {}, map[])
  {
  }

  lemma {:induction false} Least(s: set<nat>) returns (least: nat)
    requires s != {}
    ensures least in s && forall q :: q in s ==> least <= q
  {
    var x :| x in s;
    least := x;
    if s != {x} {
      assert forall q :: q in s ==> q == x || q in s - {x};
      var y := Least(s - {x});
      least := if x < y then x else y;
    }
  }

  // ---- the report covers the running apps ----

  ghost predicate NoDuplicates(list: seq<WebApp>) {
    forall i, j :: 0 <= i < j < |list| ==> list[i] != list[j]
  }

  lemma {:induction false} FirstIsEarliest(list: seq<WebApp>, i: nat)
    requires i < |list|
    ensures exists k :: 0 <= k <= i && First(list, list[i].instanceId) == Some(list[k])
  {
    if i > 0 && list[0].instanceId != list[i].instanceId {
      FirstIsEarliest(list[1..], i - 1);
      var k :| 0 <= k <= i - 1 && First(list[1..], list[1..][i - 1].instanceId) == Some(list[1..][k]);
      assert First(list, list[i].instanceId) == Some(list[k + 1]);
    } else {
      assert First(list, list[i].instanceId) == Some(list[0]);
    }
  }

  lemma LookedUpAgain(list: seq<WebApp>)
    requires DistinctInstances(list)
    ensures Reported(list) == list
  {
    forall i | 0 <= i < |list|
      ensures First(list, list[i].instanceId) == Some(list[i])
    {
      FirstIsEarliest(list, i);
    }
  }

  /** The report covers exactly the running apps if and only if their instance ids are distinct. */
  lemma ReportNeedsDistinctIds(list: seq<WebApp>)
    requires NoDuplicates(list)
    ensures multiset(Reported(list)) == multiset(list) <==> DistinctInstances(list)
  {
    if DistinctInstances(list) {
      LookedUpAgain(list);
    } else {
      var i, j :| 0 <= i < j < |list| && list[i].instanceId == list[j].instanceId;
      assert list[j] in multiset(list);
      if list[j] in Reported(list) {
        var k :| 0 <= k < |list| && Reported(list)[k] == list[j];
        FirstIsEarliest(list, i);
        assert false;
      }
      assert list[j] !in multiset(Reported(list));
    }
  }

  lemma {:induction false} GroupHoldsOnce(apps: seq<WebApp>, flags: map<WebApp, Flags>, pid: nat, app: WebApp)
    requires DistinctInstances(apps) && forall a :: a in apps ==> a in flags
    requires app in apps
    ensures multiset(Described(OfPid(apps, flags, pid)))[Describe(app)] == if flags[app].pid == pid then 1 else 0
  {
    hide Described, OfPid;
    var n := |apps| - 1;
    var init, last := apps[..n], apps[n];
    var rest := OfPid(init, flags, pid);
    CountAppended(rest, last, app);
    assert apps == init + [last];
    OfPidAppended(init, last, flags, pid);
    if app == last {
      forall a | a in rest
        ensures a.instanceId != app.instanceId
      {
        var k :| 0 <= k < n && init[k] == a;
        assert apps[k] == a && apps[n] == app;
      }
      NotDescribed(rest, app);
    } else {
      var k :| 0 <= k < n && apps[k] == app;
      assert init[k] == app && apps[k].instanceId != apps[n].instanceId;
      GroupHoldsOnce(init, flags, pid, app);
    }
  }

  lemma CountAppended(apps: seq<WebApp>, last: WebApp, app: WebApp)
    ensures multiset(Described(apps + [last]))[Describe(app)] ==
            multiset(Described(apps))[Describe(app)] + if Describe(last) == Describe(app) then 1 else 0
  {
    assert Described(apps + [last]) == Described(apps) + [Describe(last)];
  }

  lemma NotDescribed(apps: seq<WebApp>, app: WebApp)
    requires forall a :: a in apps ==> a.instanceId != app.instanceId
    ensures multiset(Described(apps))[Describe(app)] == 0
  {
    assert Describe(app) !in Described(apps);
  }

  /** How often an app is named among these objects, by app id and instance id. */
  function TimesNamed(objects: seq<AppObject>, app: WebApp): nat {
    multiset(objects)[AppObject(id := app.appId, instanceId := app.instanceId)]
  }

  /**
   The processes are listed once each, and every running app is named once, by its app id and its
   instance id, in the group of its own process; nothing else is named.
   */
  ghost predicate Partitions(processes: seq<ProcessObject>, list: seq<WebApp>, flags: map<WebApp, Flags>)
    requires forall a :: a in list ==> a in flags
  {
    && (forall i, j :: 0 <= i < j < |processes| ==> processes[i].pid != processes[j].pid)
    && (forall app :: app in list ==> exists i :: 0 <= i < |processes| && processes[i].pid == flags[app].pid)
    && (forall app, i :: app in list && 0 <= i < |processes| ==>
                           TimesNamed(processes[i].runningApps, app) ==
                           if processes[i].pid == flags[app].pid then 1 else 0)
    && (forall i, e :: 0 <= i < |processes| && e in processes[i].runningApps ==>
                         exists app :: app in list && e.id == app.appId && e.instanceId == app.instanceId)
  }

  lemma ProfileGroups(processes: seq<ProcessObject>, list: seq<WebApp>, flags: map<WebApp, Flags>,
                      memSize: nat -> string, i: nat)
    requires (forall a :: a in list ==> a in flags) && IsProfile(processes, list, flags, memSize)
             && DistinctInstances(list)
    requires i < |processes|
    ensures forall app :: app in list ==>
                            TimesNamed(processes[i].runningApps, app) ==
                            if processes[i].pid == flags[app].pid then 1 else 0
    ensures forall e :: e in processes[i].runningApps ==>
                          exists app :: app in list && e.id == app.appId && e.instanceId == app.instanceId
  {
    hide Reported, OfPid;
    LookedUpAgain(list);
    forall app | app in list
      ensures TimesNamed(processes[i].runningApps, app) == if processes[i].pid == flags[app].pid then 1 else 0
    {
      GroupHoldsOnce(list, flags, processes[i].pid, app);
    }
    forall e | e in processes[i].runningApps
      ensures exists app :: app in list && e.id == app.appId && e.instanceId == app.instanceId
    {
      var group := OfPid(list, flags, processes[i].pid);
      var k :| 0 <= k < |group| && processes[i].runningApps[k] == e;
      assert group[k] in list;
    }
  }

  lemma DistinctIfConsistent(r: Registry)
    requires Consistent(r)
    ensures DistinctInstances(r.appList)
  {
  }

  lemma ProfilePartitions(processes: seq<ProcessObject>, list: seq<WebApp>, flags: map<WebApp, Flags>,
                          memSize: nat -> string)
    requires (forall a :: a in list ==> a in flags) && IsProfile(processes, list, flags, memSize)
             && DistinctInstances(list)
    ensures Partitions(processes, list, flags)
  {
    hide Described, OfPid, Reported, DistinctInstances;
    LookedUpAgain(list);
    forall i | 0 <= i < |processes|
      ensures forall app :: app in list ==>
                              TimesNamed(processes[i].runningApps, app) ==
                              if processes[i].pid == flags[app].pid then 1 else 0
      ensures forall e :: e in processes[i].runningApps ==>
                            exists app :: app in list && e.id == app.appId && e.instanceId == app.instanceId
    {
      ProfileGroups(processes, list, flags, memSize, i);
    }
  }

  /** In every run, the report partitions the running apps, and names nothing else. */
  lemma ProfilePartitionsRunningApps(events: seq<Event>, processes: seq<ProcessObject>, memSize: nat -> string)
    requires Listed(Run(events)) && IsProfile(processes, Run(events).appList, Run(events).apps, memSize)
    ensures Partitions(processes, Run(events).appList, Run(events).apps)
  {
    hide Run, IsProfile, Partitions;
    EveryRunIsConsistent(events);
    ProfilePartitions(processes, Run(events).appList, Run(events).apps, memSize);
  }
}
