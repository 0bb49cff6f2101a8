/**
 The state of one web page and its steps: suspending and resuming, renderer re-creation,
 error pages, and the timers behind them (web_page_blink.cc, web_page_base.cc).
 */
module Pages {
  import opened Timers

  const TRUSTED := "trusted"

  /** What the browser view really does. */
  datatype View = View(domSuspended: bool, paintingSuspended: bool, mediaSuspended: bool, visible: bool, progress: nat)

  const NEW_VIEW := View(false, false, false, false, 0)

  datatype Config = Config(backgroundRun: bool, stopsJs: bool, declaredTrust: string)

  /** Suspending and resuming: the view, the page's own flags and the timer of a delayed suspend. */
  datatype Activity = Activity(view: View, isPaused: bool, isSuspended: bool, suspendAtLoad: bool,
                               hasBeenShown: bool, suspendTimer: TimerState)
  {
    function SuspendMedia(config: Config): Activity {
      if isPaused || config.backgroundRun then this
      else this.(view := view.(mediaSuspended := true), isPaused := true)
    }

    function ResumeMedia(): Activity {
      if !isPaused then this
      else this.(view := view.(mediaSuspended := false), isPaused := false)
    }

    predicate StartsSuspendTimer(config: Config, isClosing: bool) {
      !isSuspended && !config.backgroundRun && !isClosing && config.stopsJs
    }

    /** A closing page is silenced, but not suspended: it still has to run its close callback. */
    function SuspendAll(config: Config, isClosing: bool, id: nat): Activity {
      var hidden := this.(view := view.(visible := false));
      if isSuspended || config.backgroundRun then hidden
      else
        var quiet := hidden.SuspendMedia(config);
        var unpainted := quiet.(view := quiet.view.(paintingSuspended := true));
        if isClosing then unpainted
        else if !config.stopsJs then unpainted.(isSuspended := true)
        else unpainted.(isSuspended := true, suspendTimer := suspendTimer.Started(id))
    }

    function ResumeAll(config: Config): Activity {
      var awake := if config.stopsJs then ResumePaintingAndJs() else this;
      var loud := awake.ResumeMedia();
      loud.(view := loud.view.(visible := true))
    }

    predicate IsLoading() {
      !hasBeenShown && view.progress < 100
    }

    function SuspendPaintingAndJs(config: Config): Activity {
      var p := if suspendTimer.running then this.(suspendTimer := suspendTimer.Stopped()) else this;
      if config.backgroundRun || !isSuspended then p
      else if IsLoading() then p.(suspendAtLoad := true)
      else p.(view := view.(paintingSuspended := true, domSuspended := true))
    }

    /** While the suspend timer still runs, the DOM is not resumed: it is not suspended yet. */
    function ResumePaintingAndJs(): Activity {
      var p := this.(suspendAtLoad := false);
      if !isSuspended then p
      else if suspendTimer.running then
        p.(isSuspended := false, suspendTimer := suspendTimer.Stopped(), view := view.(paintingSuspended := false))
      else
        p.(isSuspended := false, view := view.(domSuspended := false, paintingSuspended := false))
    }

    function FinishLoad(config: Config): Activity {
      if suspendAtLoad then SuspendPaintingAndJs(config) else this
    }

    function SuspendTimerFires(config: Config, id: nat): Activity {
      var p := this.(suspendTimer := suspendTimer.InCallback()).SuspendPaintingAndJs(config);
      p.(suspendTimer := p.suspendTimer.CallbackDone(id))
    }

    function Visible(): Activity {
      this.(view := view.(visible := true))
    }

    /** A new view; the pause flag and the timer are left as they are. */
    function Recreate(): Activity {
      this.(view := NEW_VIEW, isSuspended := false)
    }
  }

  /** The error page, the trust it runs with, and the timer that retries the failed URL. */
  datatype ErrorState = ErrorState(shown: bool, trust: string, reloadTimer: TimerState) {

    function Update(now: bool, declaredTrust: string, id: nat): ErrorState {
      var timer := if now then reloadTimer.Stopped().Started(id)
                   else if shown then reloadTimer.Stopped()
                   else reloadTimer;
      var level := if trust != TRUSTED && shown != now then (if now then TRUSTED else trust) else declaredTrust;
      ErrorState(now, level, timer)
    }
  }

  /** Closing: the flags and the timer that waits for the close callback. */
  datatype CloseState = CloseState(isClosing: bool, cleaning: bool, hasCallback: bool, callbackTimer: TimerState)

  /** How DoHostedWebAppRelaunch answers: not its case, handled, or left to the app after storing the parameters. */
  datatype Hosted = NotHosted | Handled | LeftToApp

  datatype Request = Request(params: string, opensWindow: bool, hosted: Hosted)

  /**
   `reloads` counts the calls of Reload and ReloadDefaultPage. Loads for a relaunch that opens a
   window, for a hosted relaunch and by the reload timer are not among them.
   */
  datatype Page = Page(config: Config, activity: Activity, errors: ErrorState, closing: CloseState,
                       launchParams: string, reloads: nat, nextSource: nat)
  {
    function SuspendAll(): Page {
      this.(activity := activity.SuspendAll(config, closing.isClosing, nextSource),
      nextSource := if activity.StartsSuspendTimer(config, closing.isClosing) then nextSource + 1 else nextSource)
    }

    function LoadStarted(): Page {
      this.(activity := activity.(suspendAtLoad := true), closing := closing.(hasCallback := false))
    }

    /** What happens to the page itself once its observers have been told. */
    function LoadFinished(isErrorPage: bool): Page {
      if closing.cleaning then this
      else this.(activity := activity.FinishLoad(config),
           errors := errors.Update(isErrorPage, config.declaredTrust, nextSource),
           nextSource := if isErrorPage then nextSource + 1 else nextSource)
    }

    /** Will the request be carried out now? */
    predicate TakesRelaunch(request: Request) {
      request.opensWindow || request.hosted.Handled? || activity.hasBeenShown
    }

    function Relaunch(request: Request): Page {
      var p := this.(activity := activity.ResumePaintingAndJs());
      if request.opensWindow then p
      else if request.hosted.Handled? then p.(launchParams := request.params)
      else if !activity.hasBeenShown then
        if request.hosted.LeftToApp? then p.(launchParams := request.params) else p
      else
        p.(launchParams := request.params, activity := p.activity.Visible())
    }

    function Recreate(): Page {
      this.(activity := activity.Recreate(), errors := errors.(trust := config.declaredTrust))
    }

    function ExecuteCloseCallback(): Page {
      this.(closing := closing.(callbackTimer := closing.callbackTimer.Started(nextSource)),
      nextSource := nextSource + 1)
    }

    function CloseCallbackDone(): Page {
      this.(closing := closing.(callbackTimer := closing.callbackTimer.Stopped()))
    }

    function CrashedWhileClosing(): Page {
      if closing.callbackTimer.running then CloseCallbackDone() else this
    }

    function SuspendTimerFires(id: nat): Page {
      this.(activity := activity.SuspendTimerFires(config, id))
    }

    function CloseTimerFires(id: nat): Page {
      this.(closing := closing.(callbackTimer := closing.callbackTimer.InCallback().Stopped().CallbackDone(id)))
    }

    function ReloadTimerFires(id: nat): Page {
      this.(errors := errors.(reloadTimer := errors.reloadTimer.InCallback().CallbackDone(id)))
    }
  }

  function Fresh(config: Config, nextSource: nat): Page {
    Page(config, Activity(NEW_VIEW, false, false, false, false, STOPPED),
         ErrorState(false, config.declaredTrust, STOPPED_REPEATING), CloseState(false, false, false, STOPPED),
         "", 0, nextSource)
  }

  datatype Event =
    | SuspendMedia | ResumeMedia | SuspendAll | ResumeAll
    | Relaunch(request: Request) | Reload
    | LoadStarted | LoadFinished(isErrorPage: bool) | Progress(percent: nat) | FirstFrame
    | SuspendTimer(id: nat) | CloseTimer(id: nat) | ReloadTimer(id: nat) | OtherSources(count: nat)
    | Recreate | SetClosing | CleanResources | SetCloseCallback(registered: bool)
    | ExecuteCloseCallback | CloseCallbackDone | CrashedWhileClosing

  /** One step. A source that is not pending never fires. */
  function Step(p: Page, e: Event): Page {
    match e
    case SuspendMedia => p.(activity := p.activity.SuspendMedia(p.config))
    case ResumeMedia => p.(activity := p.activity.ResumeMedia())
    case SuspendAll => p.SuspendAll()
    case ResumeAll => p.(activity := p.activity.ResumeAll(p.config))
    case Relaunch(request) => p.Relaunch(request)
    case Reload => p.(reloads := p.reloads + 1)
    case LoadStarted => p.LoadStarted()
    case LoadFinished(isErrorPage) => p.LoadFinished(isErrorPage)
    case Progress(percent) => p.(activity := p.activity.(view := p.activity.view.(progress := percent)))
    case FirstFrame => p.(activity := p.activity.(hasBeenShown := true))
    case SuspendTimer(id) => if id in p.activity.suspendTimer.pending then p.SuspendTimerFires(id) else p
    case CloseTimer(id) => if id in p.closing.callbackTimer.pending then p.CloseTimerFires(id) else p
    case ReloadTimer(id) => if id in p.errors.reloadTimer.pending then p.ReloadTimerFires(id) else p
    case OtherSources(count) => p.(nextSource := p.nextSource + count)
    case Recreate => p.Recreate()
    case SetClosing => p.(closing := p.closing.(isClosing := true))
    case CleanResources => p.(closing := p.closing.(cleaning := true))
    case SetCloseCallback(registered) => p.(closing := p.closing.(hasCallback := registered))
    case ExecuteCloseCallback => p.ExecuteCloseCallback()
    case CloseCallbackDone => p.CloseCallbackDone()
    case CrashedWhileClosing => p.CrashedWhileClosing()
  }

  function Run(p: Page, events: seq<Event>): Page {
    if events == [] then p else Step(Run(p, events[..|events| - 1]), events[|events| - 1])
  }

  // ---- what holds in every reachable state ----

  /** The flags never claim less than what the view really suspends. */
  predicate HonestFlags(a: Activity, config: Config, isClosing: bool) {
    && (a.view.domSuspended ==> a.isSuspended && !a.suspendTimer.running)
    && (a.view.mediaSuspended ==> a.isPaused)
    && (a.view.paintingSuspended ==> a.isSuspended || isClosing)
    && (config.backgroundRun ==> NeverQuiet(a))
  }

  /** Nothing of the page is, or is about to be, suspended. */
  predicate NeverQuiet(a: Activity) {
    && !a.isPaused && !a.isSuspended
    && !a.view.domSuspended && !a.view.paintingSuspended && !a.view.mediaSuspended
    && !a.suspendTimer.running && a.suspendTimer.pending == {}
  }

  /** Raised trust and the reload timer belong to the error page only. */
  predicate ErrorPageOnly(e: ErrorState, declaredTrust: string) {
    && (e.shown <==> e.reloadTimer.running) && e.reloadTimer.OneSource()
    && (e.trust != declaredTrust ==> e.shown && e.trust == TRUSTED)
  }

  ghost predicate IdsInOrder(p: Page) {
    && ActivityIds(p.activity, p.nextSource)
    && p.closing.callbackTimer.IdsBelow(p.nextSource) && !p.closing.callbackTimer.repeating
    && p.closing.callbackTimer.Pends()
    && p.errors.reloadTimer.IdsBelow(p.nextSource) && p.errors.reloadTimer.repeating
  }

  ghost predicate Safe(p: Page) {
    && HonestFlags(p.activity, p.config, p.closing.isClosing)
    && ErrorPageOnly(p.errors, p.config.declaredTrust)
    && IdsInOrder(p)
  }

  // ---- a step, one part of the page at a time ----

  function ActivityAfter(p: Page, e: Event): Activity {
    var a := p.activity;
    match e
    case SuspendMedia => a.SuspendMedia(p.config)
    case ResumeMedia => a.ResumeMedia()
    case SuspendAll => a.SuspendAll(p.config, p.closing.isClosing, p.nextSource)
    case ResumeAll => a.ResumeAll(p.config)
    case Relaunch(request) =>
      var b := a.ResumePaintingAndJs();
      if request.opensWindow || request.hosted.Handled? || !a.hasBeenShown then b else b.Visible()
    case LoadStarted => a.(suspendAtLoad := true)
    case LoadFinished(_) => if p.closing.cleaning then a else a.FinishLoad(p.config)
    case Progress(percent) => a.(view := a.view.(progress := percent))
    case FirstFrame => a.(hasBeenShown := true)
    case SuspendTimer(id) => if id in a.suspendTimer.pending then a.SuspendTimerFires(p.config, id) else a
    case Recreate => a.Recreate()
    case _ => a
  }

  lemma StepActivity(p: Page, e: Event)
    ensures Step(p, e).activity == ActivityAfter(p, e) && Step(p, e).config == p.config
  {
    hide ErrorState.Update, Activity.SuspendMedia, Activity.ResumeMedia, Activity.SuspendAll, Activity.ResumeAll;
    hide Activity.FinishLoad, Activity.ResumePaintingAndJs, Activity.SuspendTimerFires, Activity.Recreate;
    hide TimerState.Started, TimerState.Stopped, TimerState.InCallback, TimerState.CallbackDone;
  }

  function CallbackTimerAfter(p: Page, e: Event): TimerState {
    var t := p.closing.callbackTimer;
    match e
    case CloseTimer(id) => if id in t.pending then t.InCallback().Stopped().CallbackDone(id) else t
    case ExecuteCloseCallback => t.Started(p.nextSource)
    case CloseCallbackDone => t.Stopped()
    case CrashedWhileClosing => if t.running then t.Stopped() else t
    case _ => t
  }

  lemma StepClosing(p: Page, e: Event)
    ensures var q := Step(p, e);
            && q.closing.callbackTimer == CallbackTimerAfter(p, e)
            && q.closing.isClosing == (p.closing.isClosing || e.SetClosing?)
            && q.closing.cleaning == (p.closing.cleaning || e.CleanResources?)
            && q.closing.hasCallback ==
               if e.SetCloseCallback? then e.registered else p.closing.hasCallback && !e.LoadStarted?
  {
    hide ErrorState.Update, Activity.SuspendMedia, Activity.ResumeMedia, Activity.SuspendAll, Activity.ResumeAll;
    hide Activity.FinishLoad, Activity.ResumePaintingAndJs, Activity.SuspendTimerFires, Activity.Recreate;
    hide TimerState.Started, TimerState.Stopped, TimerState.InCallback, TimerState.CallbackDone;
  }

  function ErrorsAfter(p: Page, e: Event): ErrorState {
    match e
    case LoadFinished(isErrorPage) =>
      if p.closing.cleaning then p.errors else p.errors.Update(isErrorPage, p.config.declaredTrust, p.nextSource)
    case ReloadTimer(id) =>
      if id in p.errors.reloadTimer.pending
      then p.errors.(reloadTimer := p.errors.reloadTimer.InCallback().CallbackDone(id)) else p.errors
    case Recreate => p.errors.(trust := p.config.declaredTrust)
    case _ => p.errors
  }

  function NextAfter(p: Page, e: Event): nat {
    match e
    case SuspendAll =>
      if p.activity.StartsSuspendTimer(p.config, p.closing.isClosing) then p.nextSource + 1 else p.nextSource
    case LoadFinished(isErrorPage) => if !p.closing.cleaning && isErrorPage then p.nextSource + 1 else p.nextSource
    case ExecuteCloseCallback => p.nextSource + 1
    case OtherSources(count) => p.nextSource + count
    case _ => p.nextSource
  }

  lemma StepErrors(p: Page, e: Event)
    ensures Step(p, e).errors == ErrorsAfter(p, e) && Step(p, e).nextSource == NextAfter(p, e)
  {
    hide ErrorState.Update, Activity.SuspendMedia, Activity.ResumeMedia, Activity.SuspendAll, Activity.ResumeAll;
    hide Activity.FinishLoad, Activity.ResumePaintingAndJs, Activity.SuspendTimerFires, Activity.Recreate;
    hide Activity.StartsSuspendTimer, TimerState.Started;
    hide TimerState.Stopped, TimerState.InCallback, TimerState.CallbackDone;
  }

  // ---- the flags ----

  lemma SuspendingKeepsFlagsHonest(a: Activity, config: Config, isClosing: bool, id: nat)
    requires HonestFlags(a, config, isClosing)
    ensures HonestFlags(a.SuspendMedia(config), config, isClosing)
    ensures HonestFlags(a.SuspendAll(config, isClosing, id), config, isClosing)
  {
  }

  lemma StoppingKeepsFlagsHonest(a: Activity, config: Config, isClosing: bool, id: nat)
    requires HonestFlags(a, config, isClosing)
    ensures HonestFlags(a.FinishLoad(config), config, isClosing)
    ensures HonestFlags(a.SuspendTimerFires(config, id), config, isClosing)
  {
  }

  lemma ResumingKeepsFlagsHonest(a: Activity, config: Config, isClosing: bool)
    requires HonestFlags(a, config, isClosing)
    ensures HonestFlags(a.ResumeMedia(), config, isClosing)
    ensures HonestFlags(a.ResumeAll(config), config, isClosing)
    ensures HonestFlags(a.ResumePaintingAndJs(), config, isClosing)
    ensures HonestFlags(a.Recreate(), config, isClosing)
  {
  }

  lemma MarkingKeepsFlagsHonest(a: Activity, config: Config, isClosing: bool)
    requires HonestFlags(a, config, isClosing)
    ensures HonestFlags(a, config, true) && HonestFlags(a.(suspendAtLoad := true), config, isClosing)
    ensures HonestFlags(a.(hasBeenShown := true), config, isClosing) && HonestFlags(a.Visible(), config, isClosing)
    ensures forall progress :: HonestFlags(a.(view := a.view.(progress := progress)), config, isClosing)
  {
  }

  lemma StepKeepsFlagsHonest(p: Page, e: Event)
    requires HonestFlags(p.activity, p.config, p.closing.isClosing)
    ensures HonestFlags(Step(p, e).activity, p.config, Step(p, e).closing.isClosing) && Step(p, e).config == p.config
  {
    hide Step, HonestFlags, Activity.SuspendMedia, Activity.ResumeMedia, Activity.SuspendAll, Activity.ResumeAll;
    hide Activity.FinishLoad, Activity.ResumePaintingAndJs;
    hide Activity.SuspendTimerFires, Activity.Recreate, Activity.Visible;
    var a, isClosing := p.activity, p.closing.isClosing;
    StepActivity(p, e);
    StepClosing(p, e);
    MarkingKeepsFlagsHonest(a, p.config, isClosing);
    ResumingKeepsFlagsHonest(a, p.config, isClosing);
    match e {
      case SuspendMedia => SuspendingKeepsFlagsHonest(a, p.config, isClosing, p.nextSource);
      case SuspendAll => SuspendingKeepsFlagsHonest(a, p.config, isClosing, p.nextSource);
      case Relaunch(_) => MarkingKeepsFlagsHonest(a.ResumePaintingAndJs(), p.config, isClosing);
      case LoadFinished(_) => StoppingKeepsFlagsHonest(a, p.config, isClosing, p.nextSource);
      case SuspendTimer(id) => StoppingKeepsFlagsHonest(a, p.config, isClosing, id);
      case _ =>
    }
  }

  lemma UpdateKeepsErrorPageOnly(e: ErrorState, now: bool, declaredTrust: string, id: nat)
    requires ErrorPageOnly(e, declaredTrust) && e.reloadTimer.IdsBelow(id)
    ensures ErrorPageOnly(e.Update(now, declaredTrust, id), declaredTrust)
  {
    assert e.reloadTimer.running ==> e.reloadTimer.sourceId in e.reloadTimer.pending;
  }

  lemma StepKeepsErrorPageOnly(p: Page, e: Event)
    requires ErrorPageOnly(p.errors, p.config.declaredTrust) && IdsInOrder(p)
    ensures ErrorPageOnly(Step(p, e).errors, p.config.declaredTrust)
  {
    hide Step, ErrorState.Update;
    StepErrors(p, e);
    if e.LoadFinished? {
      UpdateKeepsErrorPageOnly(p.errors, e.isErrorPage, p.config.declaredTrust, p.nextSource);
    }
  }

  /** The ids of the suspend timer, when the next new id is at least `next`. */
  predicate ActivityIds(a: Activity, next: nat) {
    a.suspendTimer.IdsBelow(next) && !a.suspendTimer.repeating && a.suspendTimer.Pends()
  }

  lemma SuspendingKeepsIds(a: Activity, config: Config, isClosing: bool, next: nat)
    requires ActivityIds(a, next)
    ensures ActivityIds(a.SuspendMedia(config), next)
    ensures ActivityIds(a.SuspendAll(config, isClosing, next),
                        if a.StartsSuspendTimer(config, isClosing) then next + 1 else next)
  {
  }

  lemma StoppingKeepsIds(a: Activity, config: Config, next: nat, id: nat)
    requires ActivityIds(a, next)
    ensures ActivityIds(a.FinishLoad(config), next) && ActivityIds(a.SuspendTimerFires(config, id), next)
  {
  }

  lemma ResumingKeepsIds(a: Activity, config: Config, next: nat)
    requires ActivityIds(a, next)
    ensures ActivityIds(a.ResumeMedia(), next) && ActivityIds(a.ResumeAll(config), next)
    ensures ActivityIds(a.ResumePaintingAndJs(), next) && ActivityIds(a.Recreate(), next)
  {
  }

  lemma MarkingKeepsIds(a: Activity, next: nat, later: nat)
    requires ActivityIds(a, next) && next <= later
    ensures ActivityIds(a, later) && ActivityIds(a.Visible(), next)
  {
  }

  lemma ActivityKeepsIds(p: Page, e: Event)
    requires ActivityIds(p.activity, p.nextSource)
    ensures ActivityIds(ActivityAfter(p, e), NextAfter(p, e))
  {
    hide Activity.SuspendMedia, Activity.ResumeMedia;
    hide Activity.SuspendAll, Activity.ResumeAll, Activity.StartsSuspendTimer;
    hide Activity.FinishLoad, Activity.ResumePaintingAndJs;
    hide Activity.SuspendTimerFires, Activity.Recreate, Activity.Visible;
    hide TimerState.IdsBelow, TimerState.Pends;
    var a, next := p.activity, p.nextSource;
    ResumingKeepsIds(a, p.config, next);
    match e {
      case SuspendMedia => SuspendingKeepsIds(a, p.config, p.closing.isClosing, next);
      case SuspendAll => SuspendingKeepsIds(a, p.config, p.closing.isClosing, next);
      case Relaunch(_) => MarkingKeepsIds(a.ResumePaintingAndJs(), next, next);
      case LoadFinished(_) =>
        StoppingKeepsIds(a, p.config, next, next);
        MarkingKeepsIds(a, next, NextAfter(p, e));
        MarkingKeepsIds(a.FinishLoad(p.config), next, NextAfter(p, e));
      case SuspendTimer(id) => StoppingKeepsIds(a, p.config, next, id);
      case _ => MarkingKeepsIds(a, next, NextAfter(p, e));
    }
  }

  lemma CallbackTimerKeepsIds(p: Page, e: Event)
    requires var t := p.closing.callbackTimer; t.IdsBelow(p.nextSource) && !t.repeating && t.Pends()
    ensures var t := CallbackTimerAfter(p, e); t.IdsBelow(NextAfter(p, e)) && !t.repeating && t.Pends()
  {
    hide Activity.StartsSuspendTimer;
  }

  lemma ReloadTimerKeepsIds(p: Page, e: Event)
    requires p.errors.reloadTimer.IdsBelow(p.nextSource) && p.errors.reloadTimer.repeating
    ensures var t := ErrorsAfter(p, e).reloadTimer; t.IdsBelow(NextAfter(p, e)) && t.repeating
  {
    hide Activity.StartsSuspendTimer;
  }

  lemma StepKeepsIds(p: Page, e: Event)
    requires IdsInOrder(p)
    ensures IdsInOrder(Step(p, e))
  {
    hide Step, ActivityIds, ActivityAfter, CallbackTimerAfter;
    hide ErrorsAfter, NextAfter, TimerState.IdsBelow, TimerState.Pends;
    StepActivity(p, e);
    StepClosing(p, e);
    StepErrors(p, e);
    ActivityKeepsIds(p, e);
    CallbackTimerKeepsIds(p, e);
    ReloadTimerKeepsIds(p, e);
  }

  lemma StepIsSafe(p: Page, e: Event)
    requires Safe(p)
    ensures Safe(Step(p, e)) && Step(p, e).config == p.config
  {
    hide Step, HonestFlags, ErrorPageOnly, TimerState.IdsBelow;
    StepKeepsFlagsHonest(p, e);
    StepKeepsErrorPageOnly(p, e);
    StepKeepsIds(p, e);
  }

  /** Safety over every run of a page, renderer re-creation, early and late timers included. */
  lemma {:induction false} EveryRunIsSafe(config: Config, nextSource: nat, events: seq<Event>)
    requires nextSource > 0
    ensures Safe(Run(Fresh(config, nextSource), events)) && Run(Fresh(config, nextSource), events).config == config
  {
    hide Step;
    if events != [] {
      var init := events[..|events| - 1];
      EveryRunIsSafe(config, nextSource, init);
      StepIsSafe(Run(Fresh(config, nextSource), init), events[|events| - 1]);
    }
  }

  /**
   Resuming really resumes, also through the branch that leaves the DOM alone. Only painting
   of a closing page that was silenced after closing began stays off. A page class that never
   stops JavaScript gets back nothing but its media: what was off otherwise stays off.
   */
  lemma ResumeAllResumes(p: Page)
    requires Safe(p)
    ensures var before, a := p.activity, Step(p, ResumeAll).activity;
            && !a.view.mediaSuspended && a.view.visible && !a.isPaused
            && (!a.isSuspended <==> p.config.stopsJs || !before.isSuspended)
            && (!a.view.domSuspended <==> p.config.stopsJs || !before.view.domSuspended)
            && (!a.view.paintingSuspended <==>
                (p.config.stopsJs && before.isSuspended) || !before.view.paintingSuspended)
            && (!p.closing.isClosing && p.config.stopsJs ==> !a.view.paintingSuspended)
  {
    hide Step, IdsInOrder, ErrorPageOnly;
    StepActivity(p, ResumeAll);
  }

  /** A page that may run in the background is never paused or suspended, in any run. */
  lemma BackgroundRunNeverSuspends(config: Config, nextSource: nat, events: seq<Event>)
    requires config.backgroundRun && nextSource > 0
    ensures NeverQuiet(Run(Fresh(config, nextSource), events).activity)
  {
    EveryRunIsSafe(config, nextSource, events);
  }

  // ---- suspending at the end of a load ----

  /** Resuming, in any of its forms, or a new view. */
  predicate Wakes(e: Event) {
    e.ResumeAll? || e.Relaunch? || e.Recreate?
  }

  predicate SuspendsAtLoad(p: Page) {
    p.activity.suspendAtLoad && p.activity.isSuspended && !p.config.backgroundRun
  }

  lemma StepKeepsSuspendAtLoad(p: Page, e: Event)
    requires SuspendsAtLoad(p) && !Wakes(e)
    ensures SuspendsAtLoad(Step(p, e))
  {
    hide Step, TimerState.Started, TimerState.Stopped, TimerState.InCallback, TimerState.CallbackDone;
    StepActivity(p, e);
  }

  lemma {:induction false} SuspendAtLoadIsKept(p: Page, events: seq<Event>)
    requires SuspendsAtLoad(p) && forall e :: e in events ==> !Wakes(e)
    ensures SuspendsAtLoad(Run(p, events))
  {
    hide Step, SuspendsAtLoad, Wakes;
    if events != [] {
      SuspendAtLoadIsKept(p, events[..|events| - 1]);
      StepKeepsSuspendAtLoad(Run(p, events[..|events| - 1]), events[|events| - 1]);
    }
  }

  /**
   The suspend timer fires on a page that was not shown and is still loading, and nothing wakes it
   afterwards: the end of a load suspends DOM and painting exactly if the page was shown or is
   complete by then, or they are suspended already; otherwise the suspend waits for the next load.
   */
  lemma LoadEndSuspends(p: Page, id: nat, events: seq<Event>, isErrorPage: bool)
    requires id in p.activity.suspendTimer.pending
    requires p.activity.isSuspended && !p.config.backgroundRun
    requires !p.activity.hasBeenShown && p.activity.view.progress < 100
    requires forall e :: e in events ==> !Wakes(e)
    ensures var q := Run(Step(p, SuspendTimer(id)), events);
            var ready := q.activity.hasBeenShown || q.activity.view.progress >= 100;
            !q.closing.cleaning ==>
              var b := Step(q, LoadFinished(isErrorPage)).activity;
              && (b.view.domSuspended <==> ready || q.activity.view.domSuspended)
              && (b.view.paintingSuspended <==> ready || q.activity.view.paintingSuspended)
              && b.isSuspended && b.suspendAtLoad
  {
    SuspendAtLoadIsKept(Step(p, SuspendTimer(id)), events);
  }

  // ---- timers ----

  /** All three running flags tell the truth, and a suspend is pending only for a suspended page. */
  predicate Disciplined(p: Page) {
    SuspendInOrder(p.activity) && p.closing.callbackTimer.OneSource() && p.errors.reloadTimer.OneSource()
  }

  /** No new view while a suspend is pending, no second close callback while one is awaited. */
  predicate Calm(p: Page, e: Event) {
    && (e.Recreate? ==> !p.activity.suspendTimer.running)
    && (e.ExecuteCloseCallback? ==> !p.closing.callbackTimer.running)
  }

  /** A step keeps the timers disciplined exactly when it is calm. */
  lemma CalmStepsKeepDiscipline(p: Page, e: Event)
    requires Safe(p) && Disciplined(p)
    ensures Disciplined(Step(p, e)) <==> Calm(p, e)
  {
    hide Step, HonestFlags, ActivityIds;
    StepKeepsErrorPageOnly(p, e);
    SuspendTimerDiscipline(p, e);
    CloseTimerDiscipline(p, e);
  }

  /** The suspend timer's part of the discipline. */
  predicate SuspendInOrder(a: Activity) {
    a.suspendTimer.OneSource() && (a.suspendTimer.running ==> a.isSuspended)
  }

  lemma SuspendingKeepsOrder(a: Activity, config: Config, isClosing: bool, next: nat)
    requires ActivityIds(a, next) && SuspendInOrder(a)
    ensures SuspendInOrder(a.SuspendMedia(config)) && SuspendInOrder(a.SuspendAll(config, isClosing, next))
  {
  }

  lemma StoppingKeepsOrder(a: Activity, config: Config, next: nat, id: nat)
    requires ActivityIds(a, next) && SuspendInOrder(a)
    ensures SuspendInOrder(a.FinishLoad(config))
    ensures id in a.suspendTimer.pending ==> SuspendInOrder(a.SuspendTimerFires(config, id))
  {
  }

  lemma ResumingKeepsOrder(a: Activity, config: Config, next: nat)
    requires ActivityIds(a, next) && SuspendInOrder(a)
    ensures SuspendInOrder(a.ResumeMedia()) && SuspendInOrder(a.ResumeAll(config))
    ensures SuspendInOrder(a.ResumePaintingAndJs()) && SuspendInOrder(a.ResumePaintingAndJs().Visible())
    ensures SuspendInOrder(a.Recreate()) <==> !a.suspendTimer.running
  {
  }

  lemma SuspendTimerDiscipline(p: Page, e: Event)
    requires ActivityIds(p.activity, p.nextSource) && SuspendInOrder(p.activity)
    ensures SuspendInOrder(Step(p, e).activity) <==> (e.Recreate? ==> !p.activity.suspendTimer.running)
  {
    hide Step, Activity.SuspendMedia, Activity.ResumeMedia, Activity.SuspendAll, Activity.ResumeAll, Activity.Visible;
    hide Activity.FinishLoad, Activity.ResumePaintingAndJs, Activity.SuspendTimerFires, Activity.Recreate, ActivityIds;
    var a := p.activity;
    StepActivity(p, e);
    ResumingKeepsOrder(a, p.config, p.nextSource);
    match e {
      case SuspendMedia => SuspendingKeepsOrder(a, p.config, p.closing.isClosing, p.nextSource);
      case SuspendAll => SuspendingKeepsOrder(a, p.config, p.closing.isClosing, p.nextSource);
      case LoadFinished(_) => StoppingKeepsOrder(a, p.config, p.nextSource, p.nextSource);
      case SuspendTimer(id) => StoppingKeepsOrder(a, p.config, p.nextSource, id);
      case _ =>
    }
  }

  lemma CloseTimerDiscipline(p: Page, e: Event)
    requires p.closing.callbackTimer.IdsBelow(p.nextSource) && !p.closing.callbackTimer.repeating
    requires p.closing.callbackTimer.Pends() && p.closing.callbackTimer.OneSource()
    ensures Step(p, e).closing.callbackTimer.OneSource()
       <==> (e.ExecuteCloseCallback? ==> !p.closing.callbackTimer.running)
  {
    hide Step;
    var t := p.closing.callbackTimer;
    StepClosing(p, e);
    if e.ExecuteCloseCallback? {
      StartKeepsOneSource(t, p.nextSource);
    }
  }

  ghost predicate CalmRun(p: Page, events: seq<Event>) {
    forall i :: 0 <= i < |events| ==> Calm(Run(p, events[..i]), events[i])
  }

  lemma {:induction false} CalmRunsAreDisciplined(config: Config, nextSource: nat, events: seq<Event>)
    requires nextSource > 0 && CalmRun(Fresh(config, nextSource), events)
    ensures Disciplined(Run(Fresh(config, nextSource), events))
  {
    hide Step, Calm;
    if events != [] {
      var p, init, e := Fresh(config, nextSource), events[..|events| - 1], events[|events| - 1];
      assert forall i :: 0 <= i < |init| ==> init[..i] == events[..i];
      CalmRunsAreDisciplined(config, nextSource, init);
      EveryRunIsSafe(config, nextSource, init);
      CalmStepsKeepDiscipline(Run(p, init), e);
    }
  }

  /** Re-creating the view during a pending suspend lets the next suspend start a second source beside the first. */
  lemma RecreationLosesASource(p: Page)
    requires Safe(p) && Disciplined(p) && p.activity.suspendTimer.running && !p.closing.isClosing && p.config.stopsJs
    ensures var t := Step(Step(p, Recreate), SuspendAll).activity.suspendTimer;
            t.pending == {p.activity.suspendTimer.sourceId, p.nextSource} && !t.OneSource()
  {
    hide Step, ErrorPageOnly;
    StepActivity(p, Recreate);
    StepErrors(p, Recreate);
    StepClosing(p, Recreate);
    StepActivity(Step(p, Recreate), SuspendAll);
    var t := Step(Step(p, Recreate), SuspendAll).activity.suspendTimer;
    assert p.activity.suspendTimer.sourceId in t.pending;
  }

  predicate ExactPause(a: Activity) {
    a.view.mediaSuspended == a.isPaused
  }

  lemma SuspendingKeepsExactPause(a: Activity, config: Config, isClosing: bool, id: nat)
    requires ExactPause(a)
    ensures ExactPause(a.SuspendMedia(config)) && ExactPause(a.SuspendAll(config, isClosing, id))
  {
  }

  lemma StoppingKeepsExactPause(a: Activity, config: Config, id: nat)
    requires ExactPause(a)
    ensures ExactPause(a.FinishLoad(config)) && ExactPause(a.SuspendTimerFires(config, id))
  {
  }

  lemma ResumingKeepsExactPause(a: Activity, config: Config)
    requires ExactPause(a)
    ensures ExactPause(a.ResumeMedia()) && ExactPause(a.ResumeAll(config))
    ensures ExactPause(a.ResumePaintingAndJs()) && ExactPause(a.ResumePaintingAndJs().Visible())
    ensures ExactPause(a.Recreate()) <==> !a.isPaused
  {
  }

  /** The pause flag is exact until a view is re-created while it is set: then the new view plays on. */
  lemma PauseFlagIsExact(p: Page, e: Event)
    requires ExactPause(p.activity)
    ensures ExactPause(Step(p, e).activity) <==> !(e.Recreate? && p.activity.isPaused)
  {
    hide Step, Activity.SuspendMedia, Activity.ResumeMedia, Activity.SuspendAll, Activity.ResumeAll, Activity.Visible;
    hide Activity.FinishLoad, Activity.ResumePaintingAndJs, Activity.SuspendTimerFires, Activity.Recreate;
    var a := p.activity;
    StepActivity(p, e);
    ResumingKeepsExactPause(a, p.config);
    match e {
      case SuspendMedia => SuspendingKeepsExactPause(a, p.config, p.closing.isClosing, p.nextSource);
      case SuspendAll => SuspendingKeepsExactPause(a, p.config, p.closing.isClosing, p.nextSource);
      case LoadFinished(_) => StoppingKeepsExactPause(a, p.config, p.nextSource);
      case SuspendTimer(id) => StoppingKeepsExactPause(a, p.config, id);
      case _ =>
    }
  }

  // ---- trust on error pages ----

  /** Was the last load that counts an error page that followed a page that was none? */
  predicate Elevated(p: Page, events: seq<Event>) {
    events != [] &&
    var before, last := events[..|events| - 1], events[|events| - 1];
    match last
    case Recreate => false
    case LoadFinished(isErrorPage) =>
      if Run(p, before).closing.cleaning then Elevated(p, before) else isErrorPage && !Run(p, before).errors.shown
    case _ => Elevated(p, before)
  }

  lemma TrustStep(p: Page, e: Event)
    requires ErrorPageOnly(p.errors, p.config.declaredTrust) && p.config.declaredTrust != TRUSTED
    ensures Step(p, e).errors.trust ==
            match e
            case Recreate => p.config.declaredTrust
            case LoadFinished(isErrorPage) =>
              if p.closing.cleaning then p.errors.trust
              else if isErrorPage && !p.errors.shown then TRUSTED
              else p.config.declaredTrust
            case _ => p.errors.trust
  {
    hide Step;
    StepErrors(p, e);
  }

  /**
   The trust level in every run of an app that is not trusted by itself: raised by the first
   error page only. It is never raised outside an error page, but already the second error
   page in a row is shown without it.
   */
  lemma {:induction false} TrustIsRaisedByFirstErrorPage(config: Config, nextSource: nat, events: seq<Event>)
    requires nextSource > 0 && config.declaredTrust != TRUSTED
    ensures Run(Fresh(config, nextSource), events).errors.trust ==
            if Elevated(Fresh(config, nextSource), events) then TRUSTED else config.declaredTrust
  {
    hide Step, IdsInOrder, HonestFlags, ErrorPageOnly;
    if events != [] {
      var init := events[..|events| - 1];
      TrustIsRaisedByFirstErrorPage(config, nextSource, init);
      EveryRunIsSafe(config, nextSource, init);
      TrustStep(Run(Fresh(config, nextSource), init), events[|events| - 1]);
    }
  }

  /** Two error pages in a row, for an app that is not trusted by itself. */
  lemma SecondErrorPageLosesTrust(p: Page)
    requires Safe(p) && !p.closing.cleaning && !p.errors.shown && p.config.declaredTrust != TRUSTED
    ensures var once := Step(p, LoadFinished(true));
            && once.errors.shown && once.errors.trust == TRUSTED
            && var twice := Step(once, LoadFinished(true));
            && twice.errors.shown && twice.errors.trust == p.config.declaredTrust
  {
    TrustStep(p, LoadFinished(true));
    StepIsSafe(p, LoadFinished(true));
    TrustStep(Step(p, LoadFinished(true)), LoadFinished(true));
  }

  /** The first page that is no error page takes raised trust back and stops the reload timer. */
  lemma OtherPageRevokesTrust(p: Page)
    requires Safe(p) && !p.closing.cleaning
    ensures var e := Step(p, LoadFinished(false)).errors;
            e.trust == p.config.declaredTrust && !e.reloadTimer.running && e.reloadTimer.pending == {}
  {
    hide Step, HonestFlags;
    StepErrors(p, LoadFinished(false));
    assert p.errors.reloadTimer.running ==> p.errors.reloadTimer.sourceId in p.errors.reloadTimer.pending;
  }
}
