/**
 What a step does to a page, one observable at a time: when the view is shown or covered, when
 media, painting and DOM stop and go on, and which timeout source is pending for it.
 */
module PageSteps {
  import opened Timers
  import opened Pages

  // ---- the reasons a page changes for ----

  /** The view has something to show: the first frame was seen, or the load is complete. */
  predicate Ready(a: Activity) {
    a.hasBeenShown || a.view.progress >= 100
  }

  predicate Shows(p: Page, e: Event) {
    e.ResumeAll? || (e.Relaunch? && p.activity.hasBeenShown && !e.request.opensWindow && !e.request.hosted.Handled?)
  }

  predicate Mutes(p: Page, e: Event) {
    && !p.config.backgroundRun && !p.activity.isPaused
    && (e.SuspendMedia? || (e.SuspendAll? && !p.activity.isSuspended))
  }

  predicate Unmutes(p: Page, e: Event) {
    p.activity.isPaused && (e.ResumeMedia? || e.ResumeAll?)
  }

  /** The whole page is suspended, unless it is suspended already or may run in the background. */
  predicate Suspends(p: Page, e: Event) {
    e.SuspendAll? && !p.activity.isSuspended && !p.config.backgroundRun
  }

  /** The page is asked to run its JavaScript again. */
  predicate Resumes(p: Page, e: Event) {
    (e.ResumeAll? && p.config.stopsJs) || e.Relaunch?
  }

  predicate Fires(p: Page, e: Event) {
    e.SuspendTimer? && e.id in p.activity.suspendTimer.pending
  }

  /** The suspend is due: its timer fires, or a load ends that it was postponed to. */
  predicate Due(p: Page, e: Event) {
    Fires(p, e) || (e.LoadFinished? && !p.closing.cleaning && p.activity.suspendAtLoad)
  }

  /** A due suspend is carried out; otherwise it is postponed to the end of a load. */
  predicate Freezes(p: Page, e: Event) {
    Due(p, e) && p.activity.isSuspended && !p.config.backgroundRun && Ready(p.activity)
  }

  predicate Postpones(p: Page, e: Event) {
    e.LoadStarted? || (Due(p, e) && p.activity.isSuspended && !p.config.backgroundRun && !Ready(p.activity))
  }

  predicate StartsTimer(p: Page, e: Event) {
    Suspends(p, e) && !p.closing.isClosing && p.config.stopsJs
  }

  /** The timer is running and is stopped: the load ends with a suspend, or the page resumes. */
  predicate StopsTimer(p: Page, e: Event) {
    && p.activity.suspendTimer.running
    && ((Due(p, e) && !Fires(p, e)) || (Resumes(p, e) && p.activity.isSuspended))
  }

  // ---- the view and the flags after a step ----

  predicate ViewFollows(p: Page, e: Event, b: Activity) {
    var a, wakes := p.activity, Resumes(p, e) && p.activity.isSuspended;
    && b.view.visible == (Shows(p, e) || (a.view.visible && !e.SuspendAll? && !e.Recreate?))
    && b.view.mediaSuspended == (Mutes(p, e) || (a.view.mediaSuspended && !Unmutes(p, e) && !e.Recreate?))
    && b.view.paintingSuspended ==
       (Suspends(p, e) || Freezes(p, e) || (a.view.paintingSuspended && !wakes && !e.Recreate?))
    && b.view.domSuspended ==
       (Freezes(p, e) || (a.view.domSuspended && !(wakes && !a.suspendTimer.running) && !e.Recreate?))
    && b.view.progress == if e.Progress? then e.percent else if e.Recreate? then 0 else a.view.progress
  }

  predicate MarksFollow(p: Page, e: Event, b: Activity) {
    var a := p.activity;
    && b.isPaused == (Mutes(p, e) || (a.isPaused && !Unmutes(p, e)))
    && b.isSuspended ==
       ((Suspends(p, e) && !p.closing.isClosing) || (a.isSuspended && !Resumes(p, e) && !e.Recreate?))
    && b.suspendAtLoad == (Postpones(p, e) || (a.suspendAtLoad && !Resumes(p, e)))
    && b.hasBeenShown == (a.hasBeenShown || e.FirstFrame?)
  }

  predicate TimerFollows(p: Page, e: Event, b: TimerState) {
    var t := p.activity.suspendTimer;
    && b.running == (StartsTimer(p, e) || (t.running && !StopsTimer(p, e) && !Fires(p, e)))
    && (StartsTimer(p, e) ==> b.sourceId == p.nextSource)
    && (b.running && !StartsTimer(p, e) ==> b.sourceId == t.sourceId)
    && b.pending == if StartsTimer(p, e) then t.pending + {p.nextSource}
                    else if StopsTimer(p, e) then t.pending - {t.sourceId}
                    else if Fires(p, e) then t.pending - {e.id}
                    else t.pending
  }

  predicate Turns(p: Page, e: Event, b: Activity) {
    ViewFollows(p, e, b) && MarksFollow(p, e, b) && TimerFollows(p, e, b.suspendTimer)
  }

  lemma MutingTurns(p: Page)
    requires IdsInOrder(p)
    ensures Turns(p, SuspendMedia, ActivityAfter(p, SuspendMedia))
  {
    hide Activity.SuspendAll, Activity.ResumeMedia, Activity.ResumeAll, Activity.ResumePaintingAndJs, Activity.Visible;
    hide Activity.FinishLoad, Activity.SuspendTimerFires, Activity.Recreate;
    hide TimerState.Started, TimerState.Stopped, TimerState.InCallback, TimerState.CallbackDone;
  }

  lemma SuspendingTurns(p: Page)
    requires IdsInOrder(p)
    ensures Turns(p, SuspendAll, ActivityAfter(p, SuspendAll))
  {
    hide ViewFollows, MarksFollow, TimerFollows, ActivityAfter;
    SuspendingCovers(p);
    SuspendingMarks(p);
  }

  lemma SuspendingCovers(p: Page)
    ensures ViewFollows(p, SuspendAll, ActivityAfter(p, SuspendAll))
  {
    hide Activity.ResumeMedia, Activity.ResumeAll, Activity.ResumePaintingAndJs, Activity.Visible;
    hide Activity.FinishLoad, Activity.SuspendTimerFires, Activity.Recreate;
    hide TimerState.Stopped, TimerState.InCallback, TimerState.CallbackDone, TimerState.Started;
  }

  lemma SuspendingMarks(p: Page)
    ensures MarksFollow(p, SuspendAll, ActivityAfter(p, SuspendAll))
    ensures TimerFollows(p, SuspendAll, ActivityAfter(p, SuspendAll).suspendTimer)
  {
    hide Activity.ResumeMedia, Activity.ResumeAll, Activity.ResumePaintingAndJs, Activity.Visible;
    hide Activity.FinishLoad, Activity.SuspendTimerFires, Activity.Recreate;
    hide TimerState.Stopped, TimerState.InCallback, TimerState.CallbackDone;
  }

  lemma ResumingTurns(p: Page, e: Event)
    requires IdsInOrder(p) && (e.ResumeMedia? || e.ResumeAll? || e.Relaunch?)
    ensures Turns(p, e, ActivityAfter(p, e))
  {
    hide Activity.SuspendMedia, Activity.SuspendAll;
    hide Activity.FinishLoad, Activity.SuspendTimerFires, Activity.Recreate;
    hide TimerState.Started, TimerState.InCallback, TimerState.CallbackDone;
  }

  lemma LoadEndTurns(p: Page, e: Event)
    requires IdsInOrder(p) && e.LoadFinished?
    ensures Turns(p, e, ActivityAfter(p, e))
  {
    hide Activity.SuspendMedia, Activity.SuspendAll;
    hide Activity.ResumeMedia, Activity.ResumeAll, Activity.ResumePaintingAndJs, Activity.Visible;
    hide Activity.SuspendTimerFires, Activity.Recreate;
    hide TimerState.Started, TimerState.InCallback, TimerState.CallbackDone;
  }

  lemma FiringTurns(p: Page, e: Event)
    requires IdsInOrder(p) && e.SuspendTimer?
    ensures Turns(p, e, ActivityAfter(p, e))
  {
    hide Activity.SuspendMedia, Activity.SuspendAll;
    hide Activity.ResumeMedia, Activity.ResumeAll, Activity.ResumePaintingAndJs, Activity.Visible;
    hide Activity.FinishLoad, Activity.Recreate;
    hide TimerState.Started;
  }

  lemma OthersTurn(p: Page, e: Event)
    requires !e.SuspendMedia? && !e.SuspendAll? && !e.ResumeMedia? && !e.ResumeAll? && !e.Relaunch?
    requires !e.LoadFinished? && !e.SuspendTimer?
    ensures Turns(p, e, ActivityAfter(p, e))
  {
    hide Activity.SuspendMedia, Activity.SuspendAll;
    hide Activity.ResumeMedia, Activity.ResumeAll, Activity.ResumePaintingAndJs, Activity.Visible;
    hide Activity.FinishLoad, Activity.SuspendTimerFires;
    hide TimerState.Started, TimerState.Stopped, TimerState.InCallback, TimerState.CallbackDone;
  }

  /** The view, the flags and the suspend timer of a page after every step, exactly. */
  lemma StepTurns(p: Page, e: Event)
    requires Safe(p)
    ensures Turns(p, e, Step(p, e).activity)
  {
    hide Step, HonestFlags, ErrorPageOnly, IdsInOrder, Turns, ActivityAfter;
    StepActivity(p, e);
    match e {
      case SuspendMedia => MutingTurns(p);
      case SuspendAll => SuspendingTurns(p);
      case ResumeMedia => ResumingTurns(p, e);
      case ResumeAll => ResumingTurns(p, e);
      case Relaunch(_) => ResumingTurns(p, e);
      case LoadFinished(_) => LoadEndTurns(p, e);
      case SuspendTimer(_) => FiringTurns(p, e);
      case _ => OthersTurn(p, e);
    }
  }

  /** What is seen and heard of the page after a step. */
  lemma SeenAndHeard(p: Page, e: Event)
    requires Safe(p)
    ensures var a, b := p.activity, Step(p, e).activity;
            && b.view.visible == (Shows(p, e) || (a.view.visible && !e.SuspendAll? && !e.Recreate?))
            && b.view.mediaSuspended == (Mutes(p, e) || (a.view.mediaSuspended && !Unmutes(p, e) && !e.Recreate?))
            && b.isPaused == (Mutes(p, e) || (a.isPaused && !Unmutes(p, e)))
  {
    hide Step, Safe, Shows, Mutes, Unmutes, Suspends, Resumes, Freezes, Postpones, TimerFollows;
    StepTurns(p, e);
  }

  // ---- the way to a suspended DOM ----

  /**
   When the suspend timer fires on a suspended page that may not run in the background: a page
   that was shown or is loaded has DOM and painting suspended, any other waits for its load to end.
   */
  lemma SuspendTimerDecides(p: Page, id: nat)
    requires Safe(p) && id in p.activity.suspendTimer.pending
    requires p.activity.isSuspended && !p.config.backgroundRun
    ensures var a, b := p.activity, Step(p, SuspendTimer(id)).activity;
            && (b.view.domSuspended <==> a.hasBeenShown || a.view.progress >= 100 || a.view.domSuspended)
            && (b.view.paintingSuspended <==> a.hasBeenShown || a.view.progress >= 100 || a.view.paintingSuspended)
            && (b.suspendAtLoad <==> (!a.hasBeenShown && a.view.progress < 100) || a.suspendAtLoad)
            && id !in b.suspendTimer.pending
  {
    hide Step, Safe;
    StepTurns(p, SuspendTimer(id));
  }

  /** The page is suspended, and so is its DOM; or that waits for the end of a load, or for this source to fire. */
  predicate Settles(p: Page, id: nat) {
    var a := p.activity;
    && a.isSuspended && !p.config.backgroundRun
    && (a.view.domSuspended || a.suspendAtLoad
        || (a.suspendTimer.running && a.suspendTimer.sourceId == id && id in a.suspendTimer.pending))
  }

  lemma StepSettles(p: Page, e: Event, id: nat)
    requires Safe(p) && Settles(p, id) && !Wakes(e)
    ensures Safe(Step(p, e)) && Settles(Step(p, e), id)
  {
    hide Step, Safe;
    StepIsSafe(p, e);
    StepTurns(p, e);
  }

  lemma {:induction false} RunSettles(p: Page, events: seq<Event>, id: nat)
    requires Safe(p) && Settles(p, id) && forall e :: e in events ==> !Wakes(e)
    ensures Safe(Run(p, events)) && Settles(Run(p, events), id)
  {
    hide Step, Safe, Settles, Wakes;
    if events != [] {
      RunSettles(p, events[..|events| - 1], id);
      StepSettles(Run(p, events[..|events| - 1]), events[|events| - 1], id);
    }
  }

  /** Suspending a page covers it and turns painting off at once; media too, if they were not marked as paused. */
  lemma SuspendAllCovers(p: Page)
    requires Safe(p)
    ensures var a, b := p.activity, Step(p, SuspendAll).activity;
            && !b.view.visible
            && (!p.config.backgroundRun && !a.isSuspended ==>
                  && b.view.paintingSuspended && b.isPaused
                  && (b.view.mediaSuspended <==> !a.isPaused || a.view.mediaSuspended)
                  && (b.isSuspended <==> !p.closing.isClosing))
            && (p.config.backgroundRun || a.isSuspended ==> b == a.(view := a.view.(visible := false)))
  {
    hide Safe, TimerState.Started;
  }

  /**
   A page that is suspended starts one source, and in every run in which nothing wakes it, it stays
   suspended: its DOM is suspended too, or waits for that source or for the end of a load; and
   from each such state the source suspends the DOM of a page that was shown or is loaded.
   */
  lemma SuspendComesDue(p: Page, events: seq<Event>)
    requires Safe(p) && !p.activity.isSuspended && !p.closing.isClosing
    requires p.config.stopsJs && !p.config.backgroundRun && forall e :: e in events ==> !Wakes(e)
    ensures var q := Run(Step(p, SuspendAll), events);
            && Safe(q) && Settles(q, p.nextSource)
            && (p.nextSource in q.activity.suspendTimer.pending && Ready(q.activity) ==>
                  Step(q, SuspendTimer(p.nextSource)).activity.view.domSuspended)
  {
    hide Step, Run, Safe;
    StepIsSafe(p, SuspendAll);
    StepTurns(p, SuspendAll);
    RunSettles(Step(p, SuspendAll), events, p.nextSource);
    var q := Run(Step(p, SuspendAll), events);
    if p.nextSource in q.activity.suspendTimer.pending {
      SuspendTimerDecides(q, p.nextSource);
    }
  }
}
