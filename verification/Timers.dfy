/**
 Timer and BaseTimer (util/timer.cc, util/timer.h) over glib timeout sources. A source is
 pending from g_timeout_add until it is removed or its callback returns false; the ids of
 sources are never used twice.
 */
module Timers {

  datatype TimerState = TimerState(sourceId: nat, running: bool, repeating: bool, pending: set<nat>) {

    function Started(id: nat): TimerState {
      this.(sourceId := id, running := true, pending := pending + {id})
    }

    /** g_source_remove removes the last started source only. */
    function Stopped(): TimerState {
      this.(sourceId := 0, running := false, pending := if sourceId == 0 then pending else pending - {sourceId})
    }

    /** The flag while a callback runs, and what glib keeps of the source afterwards. */
    function InCallback(): TimerState {
      this.(running := repeating)
    }

    function CallbackDone(id: nat): TimerState {
      if repeating then this else this.(pending := pending - {id})
    }

    /** The running flag tells the truth: exactly the source of sourceId is pending, or none. */
    predicate OneSource() {
      pending == if running then {sourceId} else {}
    }

    /** A running timer remembers a source that is pending. */
    predicate Pends() {
      running ==> sourceId in pending && sourceId != 0
    }

    /** The destructor of BaseTimer stops a timer that is running. */
    function Destroyed(): TimerState {
      if running then Stopped() else this
    }

    /** Every id in use has been handed out already. */
    predicate IdsBelow(next: nat) {
      next > 0 && sourceId < next && forall id :: id in pending ==> 0 < id < next
    }
  }

  const STOPPED := TimerState(0, false, false, {})
  const STOPPED_REPEATING := TimerState(0, false, true, {})

  /** Starting keeps the flag truthful exactly when nothing is pending: a second start loses the first source. */
  lemma StartKeepsOneSource(t: TimerState, id: nat)
    requires t.IdsBelow(id)
    ensures t.Started(id).OneSource() <==> t.pending == {}
  {
    assert t.pending != {} ==> exists x :: x in t.pending;
    if x :| x in t.pending {
      assert x in t.Started(id).pending && x != id;
    }
  }

  /** Nothing is left pending after the destructor exactly if the flag was truthful. */
  lemma DestroyedLeavesNothing(t: TimerState)
    requires t.Pends()
    ensures t.Destroyed().pending == {} <==> t.OneSource()
  {
    if t.Destroyed().pending == {} {
      forall id | id in t.pending
        ensures t.running && id == t.sourceId
      {
        assert id !in t.Destroyed().pending;
      }
    }
  }

  /** What can happen to a timer; the id of a new source has not been handed out before. */
  datatype TimerEvent = Start(id: nat) | Stop | Fire(id: nat)

  function TimerStep(t: TimerState, e: TimerEvent): TimerState {
    match e
    case Start(id) => t.Started(id)
    case Stop => t.Stopped()
    case Fire(id) => if id in t.pending then t.InCallback().CallbackDone(id) else t
  }

  function TimerRun(t: TimerState, events: seq<TimerEvent>): TimerState {
    if events == [] then t else TimerStep(TimerRun(t, events[..|events| - 1]), events[|events| - 1])
  }

  /**
   A lost source stays pending through every later run of starts and stops; only its own
   firing can end it, and that does for a one-shot timer only.
   */
  lemma {:induction false} LostSourceSurvives(t: TimerState, source: nat, events: seq<TimerEvent>)
    requires source in t.pending && source != t.sourceId && source != 0
    requires forall e :: e in events && e.Start? ==> e.id != source
    ensures TimerRun(t, events).repeating == t.repeating && TimerRun(t, events).sourceId != source
    ensures source in TimerRun(t, events).pending <==> t.repeating || Fire(source) !in events
  {
    if events != [] {
      LostSourceSurvives(t, source, events[..|events| - 1]);
      assert events == events[..|events| - 1] + [events[|events| - 1]];
    }
  }

  lemma StopKeepsOneSource(t: TimerState)
    requires t.OneSource()
    requires t.running ==> t.sourceId != 0
    ensures t.Stopped().OneSource() && t.Stopped().pending == {}
  {
  }

  /** Once the callback of a one-shot timer is over, nothing is pending. */
  lemma FiringKeepsOneSource(t: TimerState, id: nat)
    requires t.OneSource() && id in t.pending
    ensures t.InCallback().CallbackDone(id).OneSource()
  {
  }

  /** The main loop as far as timers see it: the next source id. */
  class MainLoop {
    var nextId: nat

    constructor ()
      ensures nextId == 1
    {
      nextId := 1;
    }

    method TimeoutAdd() returns (id: nat)
      modifies this
      ensures id == old(nextId) && nextId == old(nextId) + 1
    {
      id := nextId;
      nextId := nextId + 1;
    }
  }

  class Timer {
    var sourceId: nat
    var isRunning: bool
    const isRepeating: bool
    const loop: MainLoop
    ghost var pending: set<nat>

    ghost function View(): TimerState
      reads this
    {
      TimerState(sourceId, isRunning, isRepeating, pending)
    }

    constructor (repeating: bool, mainLoop: MainLoop)
      ensures View() == TimerState(0, false, repeating, {}) && loop == mainLoop
    {
      sourceId, isRunning, isRepeating, loop, pending := 0, false, repeating, mainLoop, {};
    }

    method Start()
      modifies this, loop
      ensures View() == old(View().Started(loop.nextId)) && loop.nextId == old(loop.nextId) + 1
    {
      isRunning := true;
      sourceId := loop.TimeoutAdd();
      pending := pending + {sourceId};
    }

    method Stop()
      modifies this
      ensures View() == old(View().Stopped())
    {
      isRunning := false;
      if sourceId != 0 {
        pending := pending - {sourceId};
        sourceId := 0;
      }
    }

    /** The first line of HandleCallback; the receiver's method runs between this and Returned. */
    method HandleCallback()
      modifies this
      ensures View() == old(View().InCallback())
    {
      isRunning := isRepeating;
    }

    /** TimeoutCallback hands IsRepeating() to glib, which drops the source if that is false. */
    method Returned(id: nat)
      modifies this
      ensures View() == old(View().CallbackDone(id))
    {
      if !isRepeating {
        pending := pending - {id};
      }
    }
  }
}
