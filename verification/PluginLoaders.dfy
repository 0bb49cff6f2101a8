/**
 PluginLoader: the loaded plugin files and the one factory instance each of them holds.
 An instance is a number, counting all instances ever made.
 */
module PluginLoaders {
  import opened Options

  /** made[i] is the file that made instance i; deleted counts the deletions of each instance. */
  datatype Loader = Loader(plugins: map<string, Option<nat>>, made: seq<string>, deleted: multiset<nat>) {

    predicate Loads(name: string, opens: bool) {
      name in plugins || opens
    }

    function Load(name: string, opens: bool): Loader {
      if name !in plugins && opens then this.(plugins := plugins[name := None]) else this
    }

    function Held(name: string): Option<nat> {
      if name in plugins then plugins[name] else None
    }

    /** `creates`: the library has a create function, and it returns an instance. */
    function GetInstance(name: string, creates: bool): Loader {
      if name in plugins && plugins[name].None? && creates
      then this.(plugins := plugins[name := Some(|made|)], made := made + [name])
      else this
    }

    /** `deletes`: the library has a delete function. */
    function Unload(name: string, deletes: bool): Loader {
      var held := Held(name);
      this.(plugins := plugins - {name},
      deleted := if held.Some? && deletes then deleted + multiset{held.value} else deleted)
    }

    /** The destructor deletes what is held, as far as the libraries have a delete function. */
    function Destroyed(deleters: set<string>): Loader {
      this.(plugins := map[],
      deleted := deleted + multiset(set name | name in plugins && plugins[name].Some? && name in deleters ::
        plugins[name].value))
    }

    predicate Live(i: nat) {
      i < |made| && i !in deleted
    }

    /** Live, but no longer known to the loader. */
    predicate Lost(i: nat) {
      Live(i) && Held(made[i]) != Some(i)
    }
  }

  const NOTHING_LOADED := Loader(map[], [], multiset{})

  ghost predicate Sound(l: Loader) {
    && (forall name :: name in l.plugins && l.plugins[name].Some? ==>
                         l.Live(l.plugins[name].value) && l.made[l.plugins[name].value] == name)
    && (forall i :: i in l.deleted ==> i < |l.made| && l.deleted[i] == 1)
  }

  datatype Event =
    | Load(name: string, opens: bool) | GetInstance(name: string, creates: bool)
    | Unload(name: string, deletes: bool) | Destroy(deleters: set<string>)

  function Step(l: Loader, e: Event): Loader {
    match e
    case Load(name, opens) => l.Load(name, opens)
    case GetInstance(name, creates) => l.GetInstance(name, creates)
    case Unload(name, deletes) => l.Unload(name, deletes)
    case Destroy(deleters) => l.Destroyed(deleters)
  }

  function Run(events: seq<Event>): Loader {
    if events == [] then NOTHING_LOADED else Step(Run(events[..|events| - 1]), events[|events| - 1])
  }

  lemma StepIsSound(l: Loader, e: Event)
    requires Sound(l)
    ensures Sound(Step(l, e))
  {
  }

  /** What the loader holds is live and made by that file, and no instance is deleted twice, in every run. */
  lemma {:induction false} EveryRunIsSound(events: seq<Event>)
    ensures Sound(Run(events))
  {
    hide Sound, Step;
    if events == [] {
      NothingLoadedIsSound();
    } else {
      EveryRunIsSound(events[..|events| - 1]);
      StepIsSound(Run(events[..|events| - 1]), events[|events| - 1]);
    }
  }

  lemma NothingLoadedIsSound()
    ensures Sound(NOTHING_LOADED)
  {
  }

  /** The event gives up the instance of a file without deleting it. */
  predicate Abandons(e: Event, file: string) {
    (e.Unload? && e.name == file && !e.deletes) || (e.Destroy? && file !in e.deleters)
  }

  /** A live instance is lost exactly by an unload or destruction of a library without delete function. */
  lemma LostOnlyWithoutDelete(l: Loader, e: Event, i: nat)
    requires Sound(l)
    ensures Step(l, e).Lost(i) <==> l.Lost(i) || (l.Live(i) && l.Held(l.made[i]) == Some(i) && Abandons(e, l.made[i]))
  {
  }

  lemma {:induction false} NothingIsLost(events: seq<Event>, i: nat)
    requires forall k, file :: 0 <= k < |events| ==> !Abandons(events[k], file)
    ensures !Run(events).Lost(i)
  {
    hide Sound, Step, Abandons;
    if events != [] {
      var init, e := events[..|events| - 1], events[|events| - 1];
      assert e == events[|events| - 1];
      EveryRunIsSound(init);
      NothingIsLost(init, i);
      LostOnlyWithoutDelete(Run(init), e, i);
    }
  }

  /** If every library has a delete function, no file ever has two live instances. */
  lemma OneLiveInstance(events: seq<Event>, i: nat, j: nat)
    requires forall k, file :: 0 <= k < |events| ==> !Abandons(events[k], file)
    requires var l := Run(events); l.Live(i) && l.Live(j) && l.made[i] == l.made[j]
    ensures i == j
  {
    NothingIsLost(events, i);
    NothingIsLost(events, j);
  }

  /** Without one, a file that is loaded again has two. */
  lemma TwoLiveInstances(file: string)
    ensures var l := Run([Load(file, true), GetInstance(file, true), Unload(file, false), Load(file, true),
                          GetInstance(file, true)]);
            l.Live(0) && l.Live(1) && l.made[0] == l.made[1] == file
  {
    var events := [Load(file, true), GetInstance(file, true), Unload(file, false), Load(file, true),
                   GetInstance(file, true)];
    assert events[..4][..3] == events[..3] && events[..3][..2] == events[..2] && events[..2][..1] == events[..1];
    assert Run(events[..1]) == Loader(map[file := None], [], multiset{});
    assert Run(events[..2]) == Loader(map[file := Some(0)], [file], multiset{});
    assert Run(events[..3]) == Loader(map[], [file], multiset{});
    assert Run(events[..4]) == Loader(map[file := None], [file], multiset{});
  }

  /** `made` stands in for the create functions: it numbers the instances they make. */
  class PluginLoader {
    var plugins: map<string, Option<nat>>
    var made: seq<string>
    ghost var deleted: multiset<nat>

    ghost function View(): Loader
      reads this
    {
      Loader(plugins, made, deleted)
    }

    constructor ()
      ensures View() == NOTHING_LOADED
    {
      plugins, made, deleted := map[], [], multiset{};
    }

    method Load(name: string, opens: bool) returns (loaded: bool)
      modifies this
      ensures View() == old(View()).Load(name, opens) && loaded == old(View()).Loads(name, opens)
    {
      if name in plugins {
        return true;
      }
      if opens {
        plugins := plugins[name := None];
        return true;
      }
      return false;
    }

    method GetWebAppFactoryInstance(name: string, creates: bool) returns (interface: Option<nat>)
      modifies this
      ensures View() == old(View()).GetInstance(name, creates) && interface == View().Held(name)
    {
      if name in plugins {
        if plugins[name].Some? {
          return plugins[name];
        }
        if creates {
          plugins := plugins[name := Some(|made|)];
          made := made + [name];
          return plugins[name];
        }
      }
      return None;
    }

    method Unload(name: string, deletes: bool)
      modifies this
      ensures View() == old(View()).Unload(name, deletes)
    {
      if name in plugins {
        if plugins[name].Some? && deletes {
          deleted := deleted + multiset{plugins[name].value};
        }
        plugins := plugins - {name};
      }
    }

    method Destroy(deleters: set<string>)
      requires Sound(View())
      modifies this
      ensures View() == old(View()).Destroyed(deleters)
    {
      hide Sound, Loader.Destroyed;
      while plugins != map[]
        invariant Sound(View()) && View().Destroyed(deleters) == old(View()).Destroyed(deleters)
        decreases |plugins|
      {
        var name :| name in plugins;
        DestroyOne(View(), name, deleters);
        if plugins[name].Some? && name in deleters {
          deleted := deleted + multiset{plugins[name].value};
        }
        plugins := plugins - {name};
      }
      NothingToDestroy(View(), deleters);
    }
  }

  function HeldBy(l: Loader, deleters: set<string>): set<nat> {
    set name | name in l.plugins && l.plugins[name].Some? && name in deleters :: l.plugins[name].value
  }

  lemma HeldWithout(l: Loader, name: string, deleters: set<string>)
    requires Sound(l) && name in l.plugins
    ensures var rest := HeldBy(l.Unload(name, name in deleters), deleters);
            if l.plugins[name].Some? && name in deleters
            then HeldBy(l, deleters) == rest + {l.plugins[name].value} && l.plugins[name].value !in rest
            else HeldBy(l, deleters) == rest
  {
    hide Loader.Live;
  }

  lemma OneMore(s: set<nat>, x: nat)
    requires x !in s
    ensures multiset(s + {x}) == multiset(s) + multiset{x}
  {
  }

  lemma DestroyedIs(l: Loader, deleters: set<string>)
    ensures l.Destroyed(deleters) == l.(plugins := map[], deleted := l.deleted + multiset(HeldBy(l, deleters)))
  {
  }

  lemma DestroyOne(l: Loader, name: string, deleters: set<string>)
    requires Sound(l) && name in l.plugins
    ensures var q := l.Unload(name, name in deleters);
            Sound(q) && q.Destroyed(deleters) == l.Destroyed(deleters)
  {
    hide Sound, HeldBy, Loader.Destroyed, Loader.Live;
    var q := l.Unload(name, name in deleters);
    StepIsSound(l, Unload(name, name in deleters));
    HeldWithout(l, name, deleters);
    DestroyedIs(l, deleters);
    DestroyedIs(q, deleters);
    if l.plugins[name].Some? && name in deleters {
      OneMore(HeldBy(q, deleters), l.plugins[name].value);
    }
  }

  lemma NothingToDestroy(l: Loader, deleters: set<string>)
    requires l.plugins == map[]
    ensures l.Destroyed(deleters) == l
  {
  }
}
