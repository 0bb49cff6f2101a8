# Verified model of the web application manager

This project models the parts of the web application manager (WAM) that are hard to get right, and
proves properties of them with Dafny: the registry of running apps and its close and crash protocol,
the suspend and resume machinery of a page with its timers and error page, the window of an app
around that page, the plugin factories, and the string and arithmetic code with its round trips.

`dafny verify dfyconfig.toml` checks everything.

## How it is built

Code that changes state is a class whose fields are the source's fields and whose methods follow the
source line by line. Each such method is proved against a pure step function on an immutable value
(`View()` or `State()` of the object), and what the system promises is proved about runs of those
steps, of any length and in any order. `Valid()` of an object contains the invariant that those runs
keep, so every entry point that asks for `Valid()` and promises it passes the theorems on to callers.
`AppSystems` runs registry, windows and pages together and shows that a run of the whole, seen from
one part, is a run of that part.

The step functions are themselves held against laws of another shape: `RegistrySteps`, `PageSteps` and
`WindowSteps` say of each thing one can observe (who is in the list, what is hidden, visible, audible,
painted, suspended, which source is pending) exactly for which reasons a step changes it, in terms of
the fields alone. A step that skips an action or takes the wrong branch breaks one of them.

| part | steps and properties | object |
|---|---|---|
| timers over glib sources | `Timers` | `Timers.Timer`, `Timers.MainLoop` |
| one page: suspend, resume, load, error page, closing | `Pages`, `PageSteps` | `WebPageBlinks.WebPageBlink` |
| the window around a page | `AppWindows`, `WindowSteps` | `WebAppWaylands.WebAppWayland` |
| the registry of apps | `Registries`, `RegistrySteps` | `WebAppManagers.WebAppManager` |
| the whole system: the registry with the window and page of every app | `AppSystems`, `SystemSteps` | |
| each window seen from its page, and the timeout sources a deleted page leaves | `PageRuns`, `PageSources` | |
| the process report | `ProcessProfiles` | `ProcessProfiles.BlinkWebProcessManager` |
| plugin files and factories | `PluginLoaders`, `WebAppFactoryManagers` | `PluginLoader`, `WebAppFactoryManagerImpl` |

The text code (`Texts`, `StringEdits`, `JsEscape`, `PercentEncoding`, `Urls`, `ErrorPageScript`,
`Tokens`, `LanguageTags`) and `CpuShares` are methods with the source's loops and positions, proved
against recursive functions about which the round trips are then proved.

Conventions: `None` stands for `npos`, `nullptr` or "not found". What the outside world decides (which
file opens, whether a load ended on the error page, what the compositor reports, when a timer fires)
is an input of the step. The set of pending glib sources and the real state of the browser view are
modelled beside the flags that are meant to describe them.

## What turned out to differ from what one would expect

The model follows the code; these are the places where the code's own comments, or its evident
intention, say something else. Each has its exact condition below.

- A second error page in a row is shown without the raised trust the first one gets
  (`Pages.TrustIsRaisedByFirstErrorPage`, `Pages.SecondErrorPageLosesTrust`).
- Re-creating the view while a suspend is pending loses a timer source, and so does a second close
  callback (`Pages.CalmStepsKeepDiscipline`). Such a source can outlive its page, although the
  destructors stop the timers (`PageSources.NothingOutlivesThePage`,
  `PageSources.CallbackSourcesAtTheEnd`). Re-creation also leaves the pause flag set over a view that
  plays (`Pages.PauseFlagIsExact`).
- `CloseAppInternal` logs "In Closing; return" but goes on. The registry survives that
  (`Registries.CloseKeeps` asks for a live app only); the close callback timer loses a source.
- Closing entries are stored under the instance id and removed under the app id, so an entry stays
  behind exactly when the two differ (`Registries.EntryStaysBehind`).
- A URI with a `?` inside the fragment, before any query, prints part of itself twice
  (`Urls.PrintsWhatWasParsed`, `Urls.FragmentIsPrintedTwice`). An `@` behind the authority is taken for the end of user info, and a
  `?` in the fragment for a query (`Urls.HostRecovered`, `Urls.LateAtSignMovesTheHost`,
  `Urls.ParseRecoversComponents`).
- The script part of a language tag accepts six characters that are not letters, against section 2.1
  of RFC 5646 and the comment above the expression (`LanguageTags.ScriptNeedNotBeLetters`,
  `LanguageTags.AcceptedWithoutLetters`).
- The script of the error page does not find the failed URL if the page's own URL has a fragment, or
  a parameter of that name in front (`ErrorPageScript.ErrorPageReadsFailedUrl`).
- Plugin types are matched by substring, and when everything is loaded at start, a request for an
  allowed but unregistered type gets the first file whatever its type
  (`WebAppFactoryManagers.EagerAnswersFit`, `WebAppFactoryManagers.AnswerLasts`).
- A kept relaunch request is forgotten at the end of a load of a shown app even if it is refused
  again (`AppWindows.RequestIsKept`). An app that was paused and brought back by the compositor stays
  marked as hidden, so its request is not tried before the next relaunch
  (`AppWindows.RestoredAppKeepsRequest`).
- A page command or the compositor can make a preloaded app visible and audible while it stays marked
  as hidden and preloaded, and a re-created view of a preloaded app plays its media
  (`AppWindows.RaisedWhilePreloaded`, `AppWindows.PreloadedAppStaysDown`).
- `ReplaceSubstr` never ends with an empty needle (`StringEdits.EmptyNeedleRunsForever`).

## Model

| member | source | states |
|---|---|---|
| `Registries.EveryRunIsConsistent` | src/core/web_app_manager.cc:287-481 | after every run of launches, kills, closes, crashes and completions: instance ids in the app list are pairwise distinct, the page map holds exactly one entry per running app and nothing else, the closing flag is set exactly for apps that left the list, exactly the closing apps not yet deleted await their close callback or are being unloaded, nothing is deleted twice, and each crash counter equals the foreground crashes since the last close |
| `Registries.ExactlyOnePhase` | src/core/web_app_manager.cc:369-426 | in a consistent registry each launched app is in exactly one of running, closing and deleted, and was deleted at most once |
| `Registries.PhasesOnlyAdvance` | src/core/web_app_base.cc:452-460 | over any continuation of any run, an app that left the list never returns and a deleted one stays deleted |
| `RegistrySteps.ListAfter` | src/core/web_app_manager.cc:232-447 | the list after every step: exactly the apps with a reason to leave are gone (killed with the right app id, force-closed, closed by window or failed load, of the closed process, crashed too often; unless kept alive where that helps), the others keep their order, and a new app is at the end exactly if an instance that was not running was made |
| `RegistrySteps.FlagsAfter` | src/core/web_app_manager.cc:369-426 | every flag of every app after every step, by its reasons to change: hidden, closing, kept alive, crashed, awaiting its callback, being unloaded, marked for a forced close |
| `RegistrySteps.EndsAfter` | src/core/web_app_manager.cc:391-402 | after every step exactly the apps whose close ended, or that crashed too often, are newly deleted; a crash counter is zero if anything was closed, one more after a foreground crash of a window of that app id, and unchanged otherwise |
| `Registries.CloseKeeps` | src/core/web_app_manager.cc:369-426 | closing, also a second time, keeps all containers consistent; a kept-alive app without error page stays in the list and is only hidden, any other is taken out and the rest keep their order |
| `Registries.ForceCloseKeeps` | src/core/web_app_manager.cc:358-361 | a forced close takes the app out of the list whatever its keep-alive flag, and deletes nothing yet |
| `Registries.CompletionNeedsAClose` | src/core/web_app_base.cc:436-460 | the end of a close keeps the registry consistent if and only if the app had been closed before |
| `Registries.CompletionsAreOfClosingApps` | src/core/web_app_base.cc:436-460 | an answer or timeout of a called close callback, the end of a begun unload and a crash told to a closing page only ever reach apps that are closing |
| `Registries.ClosesComeToAnEnd` | src/core/web_app_manager.cc:404-425 | in every run exactly the apps that are closing and not deleted have an end of their close to come that needs no crash |
| `Registries.DeletedByItsEnd` | src/core/web_app_base.cc:452-460 | no step on another app deletes an app: only the end of its own close, or a crash it is found for |
| `Registries.CloseAllLeavesOthers` | src/core/web_app_manager.cc:428-447 | after closing all apps of a process no app of it (no app at all for process 0) is in list or page map, keep-alive or not, and the others keep their order |
| `Registries.CloseEachKeeps` | src/core/web_app_manager.cc:440-445 | closing a list of running apps one by one keeps the registry consistent and leaves exactly the others |
| `Registries.CounterIsBounded` | src/core/web_app_manager.cc:562-596 | in every run a crash counter is the number of reloads and survived crashes of that app id since anything was closed, and at most two of them are reloads |
| `Registries.CounterWithoutKeepAlive` | src/core/web_app_manager.cc:562-596 | for an app id that is never kept alive the counter is at most two between steps |
| `Registries.KeptOnlyIfKeptAlive` | src/core/web_app_manager.cc:384-390 | no step lets an app survive a crash beyond the limit unless it is kept alive |
| `RegistrySteps.ForegroundCrashOutcome` | src/core/web_app_manager.cc:562-596 | a running app with a window that crashes in the foreground is loaded again, and nothing else happens, if and only if fewer than one (normal window state) or two (other) crashes of its id stand since anything was closed; otherwise it is out of the list and deleted, or hidden if it is kept alive and shows no error page |
| `RegistrySteps.SecondForegroundCrashEnds` | src/core/web_app_manager.cc:570-580 | in every run: an app that survived one crash in the foreground and crashes there again in its normal window state, before anything was closed, is deleted and never listed again, unless it is kept alive without error page |
| `Registries.ForegroundCrash` | src/core/web_app_manager.cc:568-587 | a foreground crash (reload, close with immediate deletion, or hide) keeps the registry consistent |
| `Registries.EntryStaysBehind` | src/core/web_app_base.cc:456-459 | after the close of an app is complete, its closing entry remains if and only if it was entered and instance id and app id differ |
| `Registries.OtherEntryIsLost` | src/core/web_app_manager.cc:363-367 | completing one close removes the entry of another app if and only if that app's instance id is this one's app id |
| `Registries.NothingStaleIfIdsCoincide` | src/core/web_app_manager.cc:404-411 | in every run where instance ids equal app ids, the closing list never holds a deleted app |
| `Registries.ClosingListIsExact` | src/core/web_app_manager.cc:404-411 | in every run where instance ids equal app ids and no two existing apps share one, the closing list holds exactly the apps that are closing and not deleted |
| `WebAppManagers.WebAppManager.CloseAppInternal` | src/core/web_app_manager.cc:369-426 | list, page map, closing list, counters, flags and history after the call are those of the closing step, with the close callback or the unload started |
| `WebAppManagers.WebAppManager.Unregister` | src/core/web_app_manager.cc:391-402 | the app is out of the list, its page out of the map however often entered, all counters are cleared, the page is closing and the app hidden |
| `WebAppManagers.WebAppManager.StartEnd` | src/core/web_app_manager.cc:407-425 | the app is entered under its instance id if that is free, and its page awaits its callback or is being unloaded |
| `WebAppManagers.WebAppManager.ForceCloseAppInternal` | src/core/web_app_manager.cc:358-361 | takes the forced closing step |
| `WebAppManagers.WebAppManager.CloseWebApp` | src/core/web_app_base.cc:452-460 | the end of a close, whichever it is, deletes the app, takes it off the closing list by app id, leaves the app list alone and keeps all containers consistent |
| `WebAppManagers.WebAppManager.DoClose` | src/platform/web_app_wayland.cc:599-619 | a window closed by the compositor is forced, hidden or closed, and all containers stay consistent |
| `WebAppManagers.WebAppManager.WebPageLoadFailed` | src/platform/web_app_wayland.cc:592-597 | a failed load closes the app if it is preloading and does nothing otherwise; all containers stay consistent |
| `WebAppManagers.WebAppManager.OnKillApp` | src/core/web_app_manager.cc:232-249 | the answer says whether that instance of that app was running; after a forced kill none is; all containers stay consistent |
| `WebAppManagers.WebAppManager.OnPauseApp` | src/core/web_app_manager.cc:251-263 | hides the app unless it shows the error page; the answer says whether it was found; all containers stay consistent |
| `WebAppManagers.WebAppManager.SetForceCloseApp` | src/core/web_app_manager.cc:617-635 | a hidden kept-alive app with a window is closed by force, any other is only marked; all containers stay consistent |
| `WebAppManagers.WebAppManager.CloseAllApps` | src/core/web_app_manager.cc:428-447 | the list afterwards is the old one without the apps of the process, in order, and empty with the page map for process 0; all containers stay consistent |
| `WebAppManagers.WebAppManager.SelectApps` | src/core/web_app_manager.cc:430-438 | the first loop selects exactly the apps of the process, in list order, and all for process 0 |
| `WebAppManagers.WebAppManager.ProcessCrashed` | src/core/web_app_manager.cc:562-596 | counts, reloads, closes, hides or marks an app with a window; it is loaded again if and only if fewer than one (normal) or two crashes stand against its id; the answer says whether it was found; all containers and counters stay consistent |
| `WebAppManagers.WebAppManager.CrashedInForeground` | src/core/web_app_manager.cc:570-587 | with fewer than one (normal) or two crashes counted before, the page is reloaded and the list kept; otherwise the app is hidden if kept alive without error page, and else out of the list, closing and deleted |
| `WebAppManagers.WebAppManager.CrashedTooOften` | src/core/web_app_manager.cc:575-580 | the app is closed and deleted at once, or only hidden if it is kept alive |
| `WebAppManagers.WebAppManager.OnLaunchUrl` | src/core/web_app_manager.cc:287-356 | without an app from the factory nothing changes; otherwise the new app is at the end of the list and its page in the map once |
| `WebAppManagers.WebAppManager.OnRelaunchApp` | src/core/web_app_manager.cc:161-207 | a running instance is brought out of hiding unless the arguments do not parse or only preload; all containers stay consistent |
| `WebAppManagers.WebAppManager.Launch` | src/core/web_app_manager.cc:650-713 | nothing happens if the request does not parse, a running instance is relaunched and never registered twice, and the answer says whether it runs now; all containers stay consistent |
| `WebAppManagers.WebAppManager.FindAppByInstanceId` | src/core/web_app_manager.cc:504-512 | the first app of the list with that instance id, or nothing |
| `WebAppManagers.WebAppManager.IsRunningApp` | src/core/web_app_manager.cc:715-724 | tells whether an app of that instance id is in the list |
| `WebAppManagers.WebAppManager.WebPageAdded` | src/core/web_app_manager.cc:449-460 | the entry of the page is in the map; it is not added twice |
| `WebAppManagers.WebAppManager.WebPageRemoved` | src/core/web_app_manager.cc:462-481 | no entry of the page is left, all others are untouched |
| `WebAppManagers.WebAppManager.AppDeleted` | src/core/web_app_manager.cc:514-520 | the list without the app, the others in order |
| `WebAppManagers.WebAppManager.RemoveClosingAppList` | src/core/web_app_manager.cc:363-367 | no entry under that id is left, all others are untouched |
| `WebAppManagers.WebAppManager.constructor` | src/core/web_app_manager.cc:49-56 | a new manager has no apps and no history |
| `Registries.WebApp.HideWindow` | src/platform/web_app_wayland.cc:682-695 | refuses exactly on the error page, otherwise sets the hidden flag |
| `Registries.WebApp.Dispatch` | src/core/web_app_manager.cc:410-425 | the page awaits its close callback if it registered one, and is being unloaded otherwise |
| `ProcessProfiles.ProfilePartitionsRunningApps` | src/platform/webengine/blink_web_process_manager.cc:35-72 | in every run the report lists each process once; each running app is named exactly once, by its app id and its instance id, in the group of its own process and in no other; nothing else is named |
| `ProcessProfiles.ReportNeedsDistinctIds` | src/platform/webengine/blink_web_process_manager.cc:45-50 | looking apps up again by instance id covers exactly the running apps if and only if the ids are pairwise distinct |
| `ProcessProfiles.BlinkWebProcessManager.GetWebProcessProfiling` | src/platform/webengine/blink_web_process_manager.cc:35-72 | processes in strictly ascending order with their memory sizes, none without apps and none missing; every running app is named once, by app id and instance id, in the group of its own process |
| `ProcessProfiles.BlinkWebProcessManager.CollectProcesses` | src/platform/webengine/blink_web_process_manager.cc:45-50 | the set of process ids and, under each, its apps |
| `Timers.StartKeepsOneSource` | src/util/timer.cc:35-43 | starting keeps the running flag truthful if and only if nothing is pending |
| `Timers.LostSourceSurvives` | src/util/timer.cc:35-51 | over every run of starts, stops and firings, a source the timer does not remember stays pending until it fires itself, and for good if the timer repeats |
| `Timers.StopKeepsOneSource` | src/util/timer.cc:45-51 | stopping a timer with a truthful flag leaves nothing pending |
| `Timers.FiringKeepsOneSource` | src/util/timer.cc:21-26 | after its callback a timer's flag is still truthful: a one-shot one is off, a repeating one pending |
| `Timers.DestroyedLeavesNothing` | src/util/timer.h:51-55 | the destructor leaves nothing pending if and only if the running flag was truthful |
| `Timers.Timer.Start` | src/util/timer.cc:35-43 | flag set, one new pending source that becomes the remembered one |
| `Timers.Timer.Stop` | src/util/timer.cc:45-51 | flag cleared, the remembered source removed, others left |
| `Timers.Timer.HandleCallback` | src/util/timer.h:57-60 | the flag while the receiver runs is whether the timer repeats |
| `Timers.Timer.Returned` | src/util/timer.cc:21-26 | the fired source stays pending only for a repeating timer |
| `Pages.EveryRunIsSafe` | src/platform/webengine/web_page_blink.cc:388-558 | in every run, re-creation included: DOM suspended only if the page is marked suspended and the suspend timer is off; media only if marked paused; painting only if suspended or closing; raised trust only on the error page; the reload timer runs exactly while the error page is shown, with one source |
| `Pages.ResumeAllResumes` | src/platform/webengine/web_page_blink.cc:440-453 | from every reachable state resuming restores media, and restores the DOM and painting of a non-closing page through both branches; with the exact remainder for closing pages and for page classes that never stop JavaScript |
| `Pages.BackgroundRunNeverSuspends` | src/platform/webengine/web_page_blink.cc:388-396 | a page that may run in the background is never paused, suspended or about to be, in any run |
| `Pages.LoadEndSuspends` | src/platform/webengine/web_page_blink.cc:508-532 | the suspend timer fires on a page that was not shown and is below 100 percent, and nothing wakes it: the next end of a load suspends DOM and painting if and only if the page was shown or is complete by then (or they were suspended already), and otherwise the suspend goes on waiting |
| `PageSteps.StepTurns` | src/platform/webengine/web_page_blink.cc:388-558 | what every step does to visibility, media, painting, DOM, progress, the three marks and the suspend timer with its pending sources, each with exactly its reasons to change |
| `PageSteps.SuspendTimerDecides` | src/platform/webengine/web_page_blink.cc:494-533 | when the suspend timer fires on a suspended page without background run, DOM and painting are suspended if and only if the page was shown or is at 100 percent (or they were already); otherwise the suspend is postponed to the end of the load |
| `PageSteps.SuspendAllCovers` | src/platform/webengine/web_page_blink.cc:388-438 | suspending covers the view, and on an awake page without background run turns off painting and media; only a page that is not closing is marked as suspended |
| `PageSteps.SuspendComesDue` | src/platform/webengine/web_page_blink.cc:398-437 | from then on, in every run in which nothing wakes the page, it stays suspended and its DOM is suspended too, or waits for the source that was started or for the end of a load; that source suspends the DOM of a page that was shown or is loaded |
| `Pages.SuspendAtLoadIsKept` | src/core/web_page_base.cc:263-284 | the wish to suspend at the end of the load survives every run without resume, relaunch or re-creation |
| `Pages.CalmStepsKeepDiscipline` | src/platform/webengine/web_page_blink.cc:771-801 | a step keeps all three running flags truthful (and the suspend timer off for a page not suspended) if and only if it is no re-creation during a pending suspend and no second close callback |
| `Pages.CalmRunsAreDisciplined` | src/platform/webengine/web_page_blink.cc:1004-1035 | over every run of such steps each running flag holds exactly when one source is pending and that source is the remembered one |
| `Pages.RecreationLosesASource` | src/platform/webengine/web_page_blink.cc:771-801 | re-creation during a pending suspend and then another suspend leave two sources pending, one of them out of reach |
| `Pages.PauseFlagIsExact` | src/platform/webengine/web_page_blink.cc:455-492 | the pause flag equals the state of the media after each step, if and only if the step is no re-creation of a paused page |
| `Pages.TrustIsRaisedByFirstErrorPage` | src/platform/webengine/web_page_blink.cc:1193-1226 | the trust level of every run, exactly: raised if and only if the last load that counts was an error page after a page that was none |
| `Pages.SecondErrorPageLosesTrust` | src/platform/webengine/web_page_blink.cc:1211-1225 | two error pages in a row: the first has raised trust, the second has not |
| `Pages.OtherPageRevokesTrust` | src/platform/webengine/web_page_blink.cc:1193-1226 | the first page that is no error page has the declared trust and leaves no reload source pending |
| `WebPageBlinks.WebPageBlink.SuspendWebPageAll` | src/platform/webengine/web_page_blink.cc:388-438 | the view is invisible and the page suspended, unless it may run in the background or is closing; an awake page without background run is unpainted and paused, and unless it is closing the timer's source is pending; the page stays safe |
| `WebPageBlinks.WebPageBlink.ResumeWebPageAll` | src/platform/webengine/web_page_blink.cc:440-453 | the view is visible, media and DOM run, and so does painting unless the page is closing; the page stays safe |
| `WebPageBlinks.WebPageBlink.SuspendWebPageMedia` | src/platform/webengine/web_page_blink.cc:455-470 | the page is paused afterwards, unless it may run in the background |
| `WebPageBlinks.WebPageBlink.ResumeWebPageMedia` | src/platform/webengine/web_page_blink.cc:472-492 | the page is not paused afterwards |
| `WebPageBlinks.WebPageBlink.SuspendWebPagePaintingAndJSExecution` | src/platform/webengine/web_page_blink.cc:494-533 | stops the timer; then a suspended page without background run has painting and DOM suspended if it was shown or is at 100 percent, and else the suspend postponed; any other is left alone |
| `WebPageBlinks.WebPageBlink.ResumeWebPagePaintingAndJSExecution` | src/platform/webengine/web_page_blink.cc:535-558 | resumes the DOM only if the timer is off, and clears the suspended flag |
| `WebPageBlinks.WebPageBlink.DidStartNavigation` | src/platform/webengine/web_page_blink.cc:686-698 | forgets the close callback and asks for a suspend at the end of the load |
| `WebPageBlinks.WebPageBlink.LoadFinished` | src/platform/webengine/web_page_blink.cc:664-680 | unless the page is being cleaned, a postponed suspend is carried out; after a page that is no error page the declared trust holds and no reload is pending, after an error page the reload timer runs; the page stays safe |
| `WebPageBlinks.WebPageBlink.UpdateIsLoadErrorPageFinish` | src/platform/webengine/web_page_blink.cc:1193-1226 | error flag, reload timer and trust level are those of the update |
| `WebPageBlinks.WebPageBlink.Relaunch` | src/core/web_page_base.cc:129-175 | resumes first; the answer is false exactly for a page not yet shown whose request it cannot handle otherwise |
| `WebPageBlinks.WebPageBlink.RecreateWebView` | src/platform/webengine/web_page_blink.cc:771-801 | a new view with nothing suspended and the declared trust; the pause flag and the timer are left as they are, and the page stays safe |
| `WebPageBlinks.WebPageBlink.ExecuteCloseCallback` | src/platform/webengine/web_page_blink.cc:1017-1026 | the close callback timer runs and its source is pending |
| `WebPageBlinks.WebPageBlink.DidRunCloseCallback` | src/platform/webengine/web_page_blink.cc:1004-1011 | stops the close callback timer |
| `WebPageBlinks.WebPageBlink.CrashedWhileClosing` | src/platform/webengine/web_page_blink.cc:820-843 | stops the close callback timer if it runs |
| `WebPageBlinks.WebPageBlink.constructor` | src/platform/webengine/web_page_blink.cc:81-188 | a new page is awake, silent about errors, and has three stopped timers of its own |
| `WebPageBlinks.WebPageBlink.DomSuspendTimerFires` | src/util/timer.h:57-60 | callback flag, receiver and glib's answer together suspend painting and DOM of a suspended page that was shown or is at 100 percent, or postpone that to the end of the load, and leave the timer off; the page stays safe |
| `WebPageBlinks.WebPageBlink.CloseCallbackTimerFires` | src/platform/webengine/web_page_blink.cc:1028-1035 | callback flag, receiver and glib's answer together leave the timer off and the fired source gone |
| `WebPageBlinks.WebPageBlink.NetErrorReloadTimerFires` | src/platform/webengine/web_page_blink.cc:1202-1208 | the repeating timer goes on running with the same source |
| `AppWindows.EveryRunIsInStep` | src/platform/web_app_wayland.cc:285-323 | in every run of a launched app a suspended page and a preloading page are behind a hidden window, an activated stage is not, and the page is safe |
| `WindowSteps.LaunchedLooks` | src/core/web_app_base.cc:295-356 | a new app is hidden if it was launched so or preloads, nothing of it is seen, suspended or waiting, and it is silent only in the two kinds of preloading that pause its media |
| `AppWindows.LoadEndSuspendsHiddenApp` | src/platform/web_app_wayland.cc:579-590 | a relaunch that waits for the end of the load cannot undo a suspend postponed to that end: the DOM is suspended there if and only if the page was shown or is complete (or it was suspended already), and the request is kept |
| `AppWindows.PreloadedAppStaysDown` | src/core/web_app_base.cc:309-356 | in every run in which it is neither relaunched, raised nor activated, an app preloaded in any kind stays preloaded, hidden and invisible; in the two kinds that pause its media they are suspended if and only if it may not run in the background and its view was never re-created |
| `AppWindows.RaisedWhilePreloaded` | src/platform/web_app_wayland.cc:525-559 | apart from a relaunch, exactly those steps make the view of an app preloaded in any kind visible, and start its media, and leave it marked as hidden and preloaded |
| `AppWindows.ReloadsAreOwed` | src/platform/web_app_wayland.cc:285-296 | in every step, each crash mark taken back and each wish for a reload is answered by exactly one call of Reload or ReloadDefaultPage, and the window code makes no other |
| `AppWindows.RelaunchBringsUp` | src/core/web_app_base.cc:171-237 | a relaunch ends hiding, preloading and suspending whether or not the page takes the request |
| `WindowSteps.StepTurnsWindow` | src/platform/web_app_wayland.cc:285-755 | what every step but a relaunch and the end of a load does to visibility, hiding, preloading, window manager, stage and crash mark of an app: shown by its first frames, by the compositor, by a command or by raising it; covered by minimizing, hiding, pausing, closing or a crash; each exactly under its conditions |
| `WindowSteps.StepTurnsMedia` | src/platform/web_app_wayland.cc:285-755 | what every such step does to the media: they go on when the app comes up; they stop, if not marked as paused yet, when it is deactivated or about to be minimized; a new view plays; nothing else touches them |
| `WindowSteps.RelaunchTurnsWindow` | src/core/web_app_base.cc:171-237 | a relaunch ends hiding, and makes the view visible if and only if it was, or the window reappears (still with the window manager, or loaded and shown before), or the page takes the request itself, or the app is raised; a hidden window is with the window manager afterwards exactly if it reappears |
| `WindowSteps.RelaunchTurnsMedia` | src/core/web_app_base.cc:171-237 | a relaunch lets the media go on exactly if it ends a preload that paused them, or the window reappears, or the app is raised, and otherwise leaves them as they are |
| `WindowSteps.LoadEndTurnsWindow` | src/core/web_app_base.cc:239-256 | the end of a load shows a view exactly if it tries a kept request of a shown app that need not load again, and that relaunch shows it |
| `WindowSteps.LoadEndTurnsMedia` | src/core/web_app_base.cc:239-256 | the end of a load lets media go on only through the kept request it tries |
| `WindowSteps.ActivationAwakes` | src/platform/web_app_wayland.cc:285-308 | whatever activates the stage or raises a minimized app makes the view visible, its media play and, for a page that ever stops JavaScript, its DOM run; it is painted unless it is closing |
| `WindowSteps.DeactivationQuiets` | src/platform/web_app_wayland.cc:310-323 | an app that is not closing and is minimized, hidden or paused is hidden and invisible afterwards and, unless it may run in the background, paused, unpainted and suspended, with a source pending that will suspend its DOM |
| `WindowSteps.CloseQuiets` | src/core/web_app_manager.cc:398-402 | a closed app is hidden, invisible, paused and unpainted as well, but not marked as suspended |
| `WindowSteps.MinimizedAppIsSuspended` | src/platform/web_app_wayland.cc:634-656 | an awake app whose window is minimized is at once hidden, invisible, unpainted, paused and suspended with a source pending, and stays so in every run in which nothing wakes it, its DOM suspended or on its way there |
| `WindowSteps.DeactivatedAppSettles` | src/platform/web_app_wayland.cc:310-323 | the same for every way to deactivate it, over every such run; when the source started then fires, the DOM of a page that was shown or is loaded is suspended |
| `AppWindows.RequestIsKept` | src/core/web_app_base.cc:207-256 | for every step, exactly: a request is kept if the page does not take it, and forgotten only at the end of a load of an app that is shown and need not reload, taken or not |
| `AppWindows.PendingRelaunchReachesPage` | src/core/web_app_base.cc:243-256 | the parameters of a retried request reach the page exactly when it was shown or handles hosted relaunches |
| `AppWindows.HiddenAppKeepsRequest` | src/platform/web_app_wayland.cc:579-582 | in every run without a relaunch a hidden app stays marked as hidden and keeps its request |
| `AppWindows.RestoredAppKeepsRequest` | src/platform/web_app_wayland.cc:634-664 | an app paused and then restored by the compositor is awake and visible but marked as hidden, and stays so and keeps its request in every run until it is relaunched |
| `AppWindows.RelaunchInStep` | src/core/web_app_base.cc:171-237 | a relaunch restores agreement between window and page from every consistent state |
| `PageRuns.CalmStepsOfWindows` | src/platform/webengine/web_page_blink.cc:1017-1026 | a step of a window keeps the timers of its page truthful if and only if it is no crash that re-creates the view during a pending suspend, and starts no close callback while one is awaited |
| `PageRuns.CalmHistoriesAreDisciplined` | src/platform/webengine/web_page_blink.cc:388-438 | so do all runs of such steps |
| `PageRuns.StepReaches` | src/platform/web_app_wayland.cc:285-755 | whatever a step of the window does with its page is a run of that page |
| `WebAppWaylands.WebAppWayland.OnStageActivated` | src/platform/web_app_wayland.cc:285-308 | loads the page again if it was marked as crashed, resumes it, and brings window and page in step from any consistent state |
| `WebAppWaylands.WebAppWayland.OnStageDeactivated` | src/platform/web_app_wayland.cc:310-323 | suspends the page, hides the window, forgets the activated stage, and brings window and page in step |
| `WebAppWaylands.WebAppWayland.Hide` | src/platform/web_app_wayland.cc:484-490 | hides a kept-alive app, or any if forced |
| `WebAppWaylands.WebAppWayland.HideWindow` | src/platform/web_app_wayland.cc:682-695 | refuses exactly on the error page, otherwise hides |
| `WebAppWaylands.WebAppWayland.ShowWindow` | src/platform/web_app_wayland.cc:666-680 | shows and activates, unless preloading |
| `WebAppWaylands.WebAppWayland.ClearPreloadState` | src/core/web_app_base.cc:358-386 | media paused for preloading are resumed |
| `WebAppWaylands.WebAppWayland.FirstFrameVisuallyCommitted` | src/platform/web_app_wayland.cc:701-720 | takes the first-frame step |
| `WebAppWaylands.WebAppWayland.DidSwapPageCompositorFrame` | src/platform/web_app_wayland.cc:746-755 | activates the stage of a shown app once |
| `WebAppWaylands.WebAppWayland.Raise` | src/platform/web_app_wayland.cc:525-559 | takes the raise step |
| `WebAppWaylands.WebAppWayland.Relaunch` | src/core/web_app_base.cc:171-237 | takes the relaunch step on window and page, which stay in step |
| `WebAppWaylands.WebAppWayland.DoPendingRelaunch` | src/core/web_app_base.cc:243-256 | retries a kept request and forgets it |
| `WebAppWaylands.WebAppWayland.LoadFinished` | src/core/web_page_base.cc:268-284 | the app as observer first, then the page |
| `WebAppWaylands.WebAppWayland.WebPageLoadFinished` | src/platform/web_app_wayland.cc:579-590 | nothing for a hidden app, one load if a reload is wanted, or the kept request |
| `WebAppWaylands.WebAppWayland.StateChanged` | src/platform/web_app_wayland.cc:634-664 | nothing for a closing page; activation makes it visible and audible; minimizing leaves the window hidden and invisible and, without background run, the page paused and suspended, an awake one unpainted and with its source pending |
| `WebAppWaylands.WebAppWayland.StateAboutToChange` | src/platform/web_app_wayland.cc:621-632 | silences the page before minimizing |
| `WebAppWaylands.WebAppWayland.Unhide` | src/core/web_app_base.cc:177-196 | ends hiding and preloading, and shows the window if it was shown before or the page is ready |
| `WebAppWaylands.WebAppWayland.RendererCrashed` | src/platform/webengine/web_page_blink.cc:820-843 | new view, crash mark if minimized |
| `WebAppWaylands.WebAppWayland.Close` | src/core/web_app_manager.cc:394-425 | the page is closing before its suspend, the window hidden, and then the close callback is pending or the page being unloaded; window and page stay in step |
| `WebAppWaylands.WebAppWayland.constructor` | src/core/web_app_base.cc:295-356 | properties and preload state of a launch; hidden if launched so or preloading, with a page that is neither seen nor suspended |
| `AppSystems.EveryRunIsJoined` | src/core/web_app_manager.cc:369-426 | in every run of registry, windows and pages together: the containers agree, every window is in step with its page, and the registry's flags of every existing app are those of its window, so their separate decisions to hide, close, force, reload or unload never disagree |
| `AppSystems.RunIsRegistryRun` | src/core/web_app_manager.cc:161-724 | seen from the registry every such run is a run of the registry, so all that holds of those holds of the whole |
| `AppSystems.RunIsWindowRun` | src/platform/web_app_wayland.cc:285-755 | seen from one app every such run is a run of its window from its launch |
| `PageSources.RunIsPageRun` | src/platform/webengine/web_page_blink.cc:81-188 | seen from one page, every run of the system is a run of the page from its launch, so that all that is proved of page runs holds of every page of the system |
| `PageSources.NothingOutlivesThePage` | src/platform/webengine/web_page_blink.cc:75-79 | in every run of the system, the destructors of a page and its timers leave no source pending if and only if the flags of the suspend and the close callback timer are truthful; they are if no view was re-created during a pending suspend and no second callback started while one was awaited |
| `PageSources.EveryRunIsCounted` | src/platform/webengine/web_page_blink.cc:1017-1026 | in every run, an app that exists has one pending source for each time its close callback was started, and the timer remembers the last |
| `PageSources.CallbackSourcesAtTheEnd` | src/platform/webengine/web_page_blink.cc:1004-1035 | whichever step of whichever run deletes an app: the close callback timer leaves nothing pending if and only if the callback was started at most once, or twice and the close was ended by the timeout of the first |
| `PageSources.RecreationLeavesASource` | src/platform/webengine/web_page_blink.cc:771-801 | a view re-created during a pending suspend and suspended again: the first source would survive the deletion of the page |
| `PageSources.OnlyTheseDelete` | src/core/web_app_manager.cc:562-596 | a step deletes an app only as the end of its close (callback done, callback timed out, unloaded) or by its own crash |
| `AppSystems.ClosingAppsAwaitTheirEnd` | src/core/web_app_manager.cc:404-425 | in every run an existing app is closing if and only if its page has a close callback timer pending or is being unloaded, and then some event other than a crash deletes it |
| `AppSystems.PhasesShowInTheWindow` | src/core/web_app_manager.cc:394-402 | in every run a page is marked as closing exactly if its app is not running, and a suspended page belongs to an app marked as hidden |
| `AppSystems.CrashedAppIsFound` | src/platform/webengine/web_page_blink.cc:839-842 | in every run a renderer crash of a running app finds the app, so its page is not deleted by force |
| `AppSystems.ClosedWindow` | src/core/web_app_manager.cc:384-425 | a close changes the flags of the window as the registry changes its own: hidden if kept alive without error page, otherwise closing, hidden and on its way to the end |
| `AppSystems.ForegroundCrashLinked` | src/core/web_app_manager.cc:568-587 | after a foreground crash the flags agree, whether the page loads again, or the app is closed for good or hidden |
| `SystemSteps.ForegroundCrashInRuns` | src/platform/webengine/web_page_blink.cc:820-843 | in every run of the whole system, a running app that crashes in the foreground gets a new view that loads again and stays listed if and only if fewer than one (normal) or two crashes of its id stand since anything was closed; else it is out of the list, deleted and closing without being loaded, or hidden if kept alive without error page |
| `AppSystems.IncidentLinked` | src/platform/webengine/web_page_blink.cc:820-843 | whatever happens to one app, its flags agree afterwards or it is deleted |
| `JsEscape.EscapeData` | src/platform/webengine/web_page_blink.cc:560-567 | the four replacement passes in order equal one pass that escapes each character |
| `JsEscape.FourPassesAreOne` | src/platform/webengine/web_page_blink.cc:560-567 | no pass spoils the output of an earlier one, for every text |
| `JsEscape.OnlyFourAreEscaped` | src/platform/webengine/web_page_blink.cc:560-567 | a text is changed if and only if it has a backslash, a single quote, a line feed or a carriage return |
| `JsEscape.EscapedLiteralReadsBack` | src/platform/webengine/web_page_blink.cc:560-567 | inside single quotes a scanner after section 12.9.4 of ECMA-262 stops exactly at the closing quote and has read the value, for every value and every text behind |
| `JsEscape.InjectionCallReadsBack` | src/platform/webengine/web_page_blink.cc:581-602 | both arguments of the generated call are read back unchanged |
| `StringEdits.ReplaceSubstr` | src/util/utils.cc:218-226 | editing in place replaces every leftmost non-overlapping occurrence |
| `StringEdits.EmptyNeedleRunsForever` | src/util/utils.cc:218-226 | with an empty needle the loop is still running after any number of rounds |
| `StringEdits.ReplacedIsEachChar` | src/util/utils.cc:218-226 | a one-character needle is replaced character by character |
| `StringEdits.SplitString` | src/util/utils.cc:190-200 | the loop delivers the pieces between delimiters |
| `StringEdits.JoinPieces` | src/util/utils.cc:190-200 | joining the pieces gives the text, or the text without its last character if that is the delimiter |
| `StringEdits.PiecesAreFree` | src/util/utils.cc:190-200 | no piece contains the delimiter, and only the empty text has no pieces |
| `Urls.Url.constructor` | src/util/url.cc:34-36 | an object holds the parts of the text it was made from |
| `Urls.Url.ParseUri` | src/util/url.cc:80-131 | the position-based parser stores the parts defined by cutting, for every text; every substring starts in range |
| `Urls.Url.ParseAuthority` | src/util/url.cc:92-105 | host and port, with user info looked for in all that follows the slashes |
| `Urls.Url.ParseTail` | src/util/url.cc:115-130 | path, query and fragment of the tail behind the authority |
| `Urls.SubStringIsSlice` | src/util/url.cc:23-28 | a substring whose end lies before its start wraps around and runs to the end of the text |
| `Urls.Url.SetQuery` | src/util/url.cc:38-48 | the old query is replaced by the escaped pairs, joined by `&` behind one `?` |
| `Urls.PrintsWhatWasParsed` | src/util/url.cc:50-52 | parsing and printing gives the text back if and only if no `#` precedes the first `?` of the tail |
| `Urls.SchemeAndPath` | src/util/url.cc:80-114 | the scheme is what precedes the first colon; a text without two slashes is scheme, colon and path, or has neither |
| `Urls.FragmentIsPrintedTwice` | src/util/url.cc:118-130 | a URI of that kind is printed differently |
| `Urls.ParseRecoversComponents` | src/util/url.cc:80-131 | for every URI of the grammar (section 3 of RFC 3986), composing it from its components and parsing it recovers all of them if and only if no later `@` is mistaken for the end of user info and no `?` of the fragment for a query |
| `Urls.HostRecovered` | src/util/url.cc:92-105 | host and port are recovered if and only if there is user info, or no `@` in path, query and fragment, or the same host and port follow the first such `@`; without user info the host is what follows it |
| `Urls.LateAtSignMovesTheHost` | src/util/url.cc:94-99 | without user info, the text behind the first `@` of path, query and fragment is taken for the host, if no other delimiter follows |
| `Urls.HostIsMovedInAnExample` | src/util/url.cc:94-99 | such a URI, and the wrong host that is read from it |
| `Urls.OthersRecovered` | src/util/url.cc:107-130 | scheme, path, fragment and the text before the query are recovered always, and the query if and only if there is one or the fragment has no `?` |
| `PercentEncoding.DecodeEscaped` | src/util/url.cc:41-42 | decoding undoes escaping on every text up to its first NUL |
| `PercentEncoding.EscapedIsFree` | src/util/url.cc:41-42 | no separator of queries survives escaping |
| `PercentEncoding.EscapedOctet` | src/util/url.cc:41-42 | exactly the unreserved characters of section 2.3 of RFC 3986 and non-ASCII ones are kept; any other is `%` and two upper-case hexadecimal digits that decode to it |
| `ErrorPageScript.GetUrlParams` | html-ose/geterror.js:63-75 | the loop finds the value of the first parameter with the key, nothing for a key without `=`, the empty text for none |
| `ErrorPageScript.LookupMeans` | html-ose/geterror.js:63-75 | of the first parameter with the asked key the reader takes what stands between its first `=` and the next or the end, the undefined value if it has none; without such a parameter the empty text |
| `ErrorPageScript.QueryReadsBack` | html-ose/geterror.js:63-75 | for every list of pairs the reader finds the escaped value of the first pair with the asked key; without pairs it takes the URL itself for its parameters |
| `ErrorPageScript.ErrorPageUrl` | src/platform/webengine/web_page_blink.cc:337-347 | the URL that is loaded carries error code and failed URL as its query |
| `ErrorPageScript.ErrorPageReadsFailedUrl` | html-ose/geterror.js:9-10 | for every page, the script reads back exactly the URL that failed if and only if no earlier parameter has its name (or one has, with that value) and the page has no fragment; without a failed URL it reads none if and only if no parameter, the fragment included, names one; on a page without `?` in its main part the error code is read if and only if there is no fragment or a failed URL stands between |
| `Tokens.RunsAreMaximal` | src/util/web_app_manager_utils.cc:103-114 | the stretches found are exactly the maximal delimiter-free ones, in order |
| `Tokens.RunListIsUnique` | src/util/web_app_manager_utils.cc:103-114 | only one list of stretches is exactly the maximal ones |
| `Tokens.Tokenize` | src/util/web_app_manager_utils.cc:103-114 | terminates and appends exactly those tokens to the ones already there |
| `Tokens.SplitPluginTypes` | src/core/web_app_factory_manager_impl.cc:35-45 | the set of the tokens between colons |
| `LanguageTags.ParsesExactlyWhatPrints` | src/util/bcp47.cc:26-58 | parsing and hyphen-joined printing are inverse on exactly the accepted tags, so every text splits in at most one way |
| `LanguageTags.AcceptsTheExpression` | src/util/bcp47.cc:44-55 | the parser accepts exactly the texts that match the regular expression, and the parts it delivers match its three groups |
| `LanguageTags.ScriptNeedNotBeLetters` | src/util/bcp47.cc:44-45 | an accepted script is made of letters if and only if none of six other characters occurs |
| `LanguageTags.AcceptedWithoutLetters` | src/util/bcp47.cc:44-45 | a tag with two of them is accepted |
| `LanguageTags.GetErrorPagePaths` | src/util/utils.cc:44-99 | the list of pages to try for a tag, or for none; which pages these are is the lemma PathsAreLocalized |
| `LanguageTags.PathsAreLocalized` | src/util/utils.cc:58-96 | the last two pages are the plain ones; before them, for an accepted tag, the page below language, script and region in that order (as far as there are) if it has a script, the page below language and region if it has a region, and the page below its language, and no other |
| `LanguageTags.FallbacksGetShorter` | src/util/utils.cc:58-96 | two to five pages, each strictly shorter than the one before, so none twice |
| `CpuShares.Percentages` | src/util/web_app_manager_utils.cc:73-101 | changes, total, shares and the updated old counters, for every input without `long` overflow |
| `CpuShares.EachShareIsNearest` | src/util/web_app_manager_utils.cc:95-98 | counters that did not go back: each share is in 0..1000 and the nearest one; all are 0 without change |
| `CpuShares.SharesMakeAWhole` | src/util/web_app_manager_utils.cc:95-98 | the sum of the shares misses 1000 by at most half a unit each |
| `CpuShares.NoCounterWentBack` | src/util/web_app_manager_utils.cc:81-89 | counters that did not go back have their plain differences as changes |
| `CpuShares.CounterWentBack` | src/util/web_app_manager_utils.cc:81-89 | the change of a counter that went back is the number in the range of `int` congruent to the true one modulo 2^32; a counter that wrapped at 2^32 and gained less than 2^31 has its true gain |
| `CpuShares.QuotientTruncates` | src/util/web_app_manager_utils.cc:95-98 | division rounds toward zero for every combination of signs |
| `CpuShares.SharesInGeneral` | src/util/web_app_manager_utils.cc:90-98 | every share, also when counters went back: the low 32 bits of the quotient of 1000 times the change and half the total by the total, rounded toward zero; the total is one if there was no change |
| `PluginLoaders.EveryRunIsSound` | src/core/plugin_loader.cc:45-87 | in every run of the loader what it holds is live and made by that file, and nothing is deleted twice |
| `PluginLoaders.LostOnlyWithoutDelete` | src/core/plugin_loader.cc:74-87 | a live instance gets out of reach if and only if its file is unloaded, or the loader destroyed, without a delete function |
| `PluginLoaders.OneLiveInstance` | src/core/plugin_loader.cc:57-72 | if that never happens, no file ever has two live instances |
| `PluginLoaders.TwoLiveInstances` | src/core/plugin_loader.cc:57-87 | if it happens, a file that is loaded again has two |
| `PluginLoaders.PluginLoader.Load` | src/core/plugin_loader.cc:45-55 | a file is opened once; the answer says whether it is loaded |
| `PluginLoaders.PluginLoader.GetWebAppFactoryInstance` | src/core/plugin_loader.cc:57-72 | the held instance, or a new one that is held from now on |
| `PluginLoaders.PluginLoader.Unload` | src/core/plugin_loader.cc:74-87 | deletes what is held, if the library can, and forgets the file |
| `PluginLoaders.PluginLoader.Destroy` | src/core/plugin_loader.cc:24-34 | the loop deletes exactly the held instances whose libraries can, in any order |
| `WebAppFactoryManagers.RegisteredFactoriesAreLive` | src/core/web_app_factory_manager_impl.cc:128-170 | in every run each registered factory is a live instance held by the loader, of a file of that type, and no file makes a second instance |
| `WebAppFactoryManagers.AnswersAreLive` | src/core/web_app_factory_manager_impl.cc:197-220 | every factory handed out is live and held; a page gets the answer for its type, and without one the registered factory of the default type, made by a file of that type, or none if there is none |
| `WebAppFactoryManagers.WantedMeans` | src/core/web_app_factory_manager_impl.cc:145-152 | the search rests at a file that is loaded or opens and, on demand, has the asked type somewhere in its own |
| `WebAppFactoryManagers.DeletedOnceAtTheEnd` | src/core/plugin_loader.cc:24-34 | nothing is deleted before the end, and then each instance once, if its library can |
| `WebAppFactoryManagers.SearchFindsFirstWanted` | src/core/web_app_factory_manager_impl.cc:145-167 | a search for a type ends at the first file that loads and is wanted, succeeds exactly if that file has or makes an instance, and registers it under the file's type unless taken |
| `WebAppFactoryManagers.SearchFindsNothing` | src/core/web_app_factory_manager_impl.cc:145-169 | without such a file it finds and registers nothing |
| `WebAppFactoryManagers.AnswerLasts` | src/core/web_app_factory_manager_impl.cc:128-136 | a newly found factory is the answer for good, whatever follows, if and only if its file's type equals the asked one and does not merely contain it |
| `WebAppFactoryManagers.SameDirectorySameAnswer` | src/core/web_app_factory_manager_impl.cc:128-170 | with an unchanged directory the answer is the same in any case |
| `WebAppFactoryManagers.OnDemandAnswersFit` | src/core/web_app_factory_manager_impl.cc:151-152 | on demand, the type of the factory found contains the asked one |
| `WebAppFactoryManagers.EagerAnswersFit` | src/core/web_app_factory_manager_impl.cc:151-152 | loaded all at once, the answer fits if and only if the type is registered or the first file that loads happens to fit |
| `WebAppFactoryManagers.EagerAnswerOfAnotherType` | src/core/web_app_factory_manager_impl.cc:151-157 | a directory and a request that get a factory of another type |
| `WebAppFactoryManagers.EagerlyLoaded` | src/core/web_app_factory_manager_impl.cc:111-124 | after loading all at once exactly the files that open and make an instance are plugins, and each type belongs to its first file |
| `WebAppFactoryManagers.WebAppFactoryManagerImpl.constructor` | src/core/web_app_factory_manager_impl.cc:111-124 | the allowed types are the tokens of the setting and the default one; all files are loaded unless on demand |
| `WebAppFactoryManagers.WebAppFactoryManagerImpl.GetPluggable` | src/core/web_app_factory_manager_impl.cc:128-136 | a registered type is answered at once, any other by a search |
| `WebAppFactoryManagers.WebAppFactoryManagerImpl.LoadPluggable` | src/core/web_app_factory_manager_impl.cc:138-170 | the loop over the files has state and result of the search |
| `WebAppFactoryManagers.WebAppFactoryManagerImpl.VisitFile` | src/core/web_app_factory_manager_impl.cc:145-168 | one file: skipped, opened, registered or unloaded, and whether the search is over |
| `WebAppFactoryManagers.WebAppFactoryManagerImpl.PageFactory` | src/core/web_app_factory_manager_impl.cc:205-214 | the default factory stands in for one that is not found |

## Left out

- The Luna bus, JSON parsing, service calls, logging, tracing, files and environment: inputs of the steps arrive decoded.
- Browser views, windows and the JavaScript system object: only the view flags they toggle are kept.
- Application descriptions, configuration and device information: field copying; the few settings that matter are inputs.
- Focus, layout and input handling on the error page; only its reading of the query is modelled.
- Scale factors, opacity, window groups, key masks, cursors and launch timers.
- Re-entrancy: every entry point is one step, a page load does not call back into the registry within it.
- An app is two objects: the registry's methods work on `Registries.WebApp` with the flags they read, the window's on `WebAppWaylands.WebAppWayland` with its page. That the flags are the same in every run is proved on the steps, in `AppSystems`; one object graph of manager, windows and pages is not built.
- A page stands for its app in the page map; detaching a page from its app is not modelled.
- Registries.EveryRunIsConsistent: the environment makes a new object for each launch, and a page reports only a close callback that it was asked to run; the lemma CompletionNeedsAClose shows that the second is needed.
- The decision whether a hosted or deep-linked relaunch applies, and whether a load ended on the error page, are inputs.
- Shutdown, the forced deletion of a web page and closing of notifications: single branches without an invariant.
- Timers that delete themselves, elapsed timers, and the wrap-around of glib source ids.
- WebAppManagers.WebAppManager.OnLaunchUrl: the set-up of page and window is `AppSystems.Launching`; the bookkeeping of app versions that decides about a reload is an input there.
- WebAppManagers.WebAppManager.OnRelaunchApp: the flag that a page asked to be closed, which is only kept to drop a repeated request, is not modelled.
- WebAppManagers.WebAppManager.WebPageRemoved: the list of pages to delete, which nothing in the repository fills, is not modelled.
- Registries.WebApp.HideWindow: only the flag; the window's half is `WebAppWaylands.WebAppWayland.HideWindow`, and `AppSystems` shows that they agree.
- WebPageBlinks.WebPageBlink.LoadFinished: the observers of the page are told by the app object, in `WebAppWaylands.WebAppWayland.LoadFinished`.
- WebPageBlinks.WebPageBlink.NetErrorReloadTimerFires: the load of the failed URL at each firing is left to the view; only the timer is modelled.
- WebPageBlinks.WebPageBlink.CrashedWhileClosing: that the app is then deleted is the completion step, joined with this one in `AppSystems`.
- WebPageBlinks.WebPageBlink.CloseCallbackTimerFires: that the app is then deleted is the completion step, joined with this one in `AppSystems`.
- WebPageBlinks.WebPageBlink.DidRunCloseCallback: that the app is then deleted is the completion step, joined with this one in `AppSystems`.
- WebAppWaylands.WebAppWayland.OnStageActivated: focus, visibility state and the active instance id are not modelled.
- WebAppWaylands.WebAppWayland.RendererCrashed: whether the app is then loaded again, closed or hidden is decided by the registry, and joined with this step in `AppSystems`.
- CpuShares.Percentages: inputs on which a `long` operation overflows, which C++ leaves undefined, and overlapping arrays are excluded.
- Urls.Url.ParseUri: texts longer than a `std::string` can hold are excluded.
- Brackets around an IPv6 host and the conversions between local file names and URIs.
- PercentEncoding.DecodeEscaped: characters from 128 on are kept as they are, as the writer is told to do; percent escapes of multi-byte characters, which it never writes, and invalid UTF-8 are not decoded.
- JsEscape.EscapedLiteralReadsBack: the scanner has no reading for hexadecimal, Unicode and digit escapes, which the escaped text never contains.
- LanguageTags.GetErrorPagePaths: the split of the error page's location into directory and file name is an input, in place of std::filesystem.
- ProcessProfiles.BlinkWebProcessManager.GetWebProcessProfiling: the apps of one process are listed in the order they were found, where std::unordered_multimap promises none; the partition does not depend on it. The memory sizes the system reports are an input.
- The handles of dynamic libraries and the contents of error messages; a library's answers are inputs, and every instance it makes is a new one.
- Source ids, instances and objects are never used twice while the system runs.
