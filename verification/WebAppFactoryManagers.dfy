/** WebAppFactoryManagerImpl: the factories by app type, taken from the files of the plugin directory. */
module WebAppFactoryManagers {
  import opened Options
  import Texts
  import Tokens
  import opened PluginLoaders

  /** A file of the directory, with the answers its library gives if it is asked. */
  datatype PluginFile = PluginFile(name: string, opens: bool, appType: string, creates: bool)

  datatype Factories = Factories(loader: Loader, interfaces: map<string, nat>, env: set<string>, onDemand: bool) {

    predicate Offers(file: PluginFile, appType: string) {
      Texts.Find(file.appType, appType, 0).Some? || !onDemand
    }

    /** The file is the one the search comes to rest at. */
    predicate Wanted(file: PluginFile, appType: string) {
      loader.Loads(file.name, file.opens) && Offers(file, appType)
    }

    function With(loader: Loader): Factories {
      this.(loader := loader)
    }

    /** One round of the search. */
    function Visit(file: PluginFile, appType: string): Factories {
      if !loader.Loads(file.name, file.opens) then this
      else if !Offers(file, appType) then With(loader.Load(file.name, file.opens))
      else
        var l := loader.Load(file.name, file.opens).GetInstance(file.name, file.creates);
        match l.Held(file.name)
        case Some(i) =>
          With(l).(interfaces := if file.appType in interfaces then interfaces else interfaces[file.appType := i])
        case None => With(l.Unload(file.name, true))
    }

    /** The search through the files; only the search for the empty type goes on to the end. */
    function Search(files: seq<PluginFile>, appType: string): (Factories, Option<nat>)
      decreases |files|
    {
      if files == [] then (this, None)
      else
        var next := Visit(files[0], appType);
        if Wanted(files[0], appType) && appType != "" then (next, next.loader.Held(files[0].name))
        else next.Search(files[1..], appType)
    }

    function LoadPluggable(appType: string, files: seq<PluginFile>): (Factories, Option<nat>) {
      if appType != "" && appType !in env then (this, None) else Search(files, appType)
    }

    function GetPluggable(appType: string, files: seq<PluginFile>): (Factories, Option<nat>) {
      if appType in interfaces then (this, Some(interfaces[appType])) else LoadPluggable(appType, files)
    }

    /** The factory CreateWebPage uses: the default one if there is none for the type. */
    function PageFactory(appType: string, files: seq<PluginFile>): (Factories, Option<nat>) {
      var (next, interface) := GetPluggable(appType, files);
      (next, if interface.None? && "default" in next.interfaces then Some(next.interfaces["default"]) else interface)
    }
  }

  /** The constructor loads all files at once, unless they are to be loaded on demand. */
  function Constructed(types: set<string>, onDemand: bool, files: seq<PluginFile>): Factories {
    var s := Factories(NOTHING_LOADED, map[], types + {"default"}, onDemand);
    if onDemand then s else s.LoadPluggable("", files).0
  }

  datatype Request = Request(appType: string, files: seq<PluginFile>)

  function Asked(s: Factories, requests: seq<Request>): Factories {
    if requests == [] then s
    else
      var last := requests[|requests| - 1];
      Asked(s, requests[..|requests| - 1]).GetPluggable(last.appType, last.files).0
  }

  // ---- what every run keeps ----

  ghost predicate TypesAre(files: seq<PluginFile>, typeOf: string -> string) {
    forall k :: 0 <= k < |files| ==> files[k].appType == typeOf(files[k].name)
  }

  /** Every instance ever made is live and held. */
  ghost predicate AllHeld(l: Loader) {
    && (forall name :: name in l.plugins && l.plugins[name].Some? ==>
                         l.plugins[name].value < |l.made| && l.made[l.plugins[name].value] == name)
    && (forall i :: 0 <= i < |l.made| ==> l.Held(l.made[i]) == Some(i))
    && l.deleted == multiset{}
  }

  /** Each interface is an instance made by a file of that type. */
  ghost predicate Registered(interfaces: map<string, nat>, made: seq<string>, typeOf: string -> string) {
    forall t :: t in interfaces ==> interfaces[t] < |made| && typeOf(made[interfaces[t]]) == t
  }

  ghost predicate Holds(s: Factories, typeOf: string -> string) {
    AllHeld(s.loader) && Registered(s.interfaces, s.loader.made, typeOf)
  }

  /** What was made stays made, what was registered stays registered. */
  ghost predicate Extends(before: Factories, after: Factories) {
    && before.loader.made <= after.loader.made && after.env == before.env && after.onDemand == before.onDemand
    && before.interfaces.Keys <= after.interfaces.Keys
    && forall t :: t in before.interfaces ==> after.interfaces[t] == before.interfaces[t]
  }

  lemma LoadHolds(l: Loader, name: string, opens: bool)
    requires AllHeld(l)
    ensures AllHeld(l.Load(name, opens))
  {
  }

  lemma InstanceHolds(l: Loader, name: string, creates: bool)
    requires AllHeld(l)
    ensures AllHeld(l.GetInstance(name, creates)) && l.made <= l.GetInstance(name, creates).made
  {
  }

  lemma UnloadHolds(l: Loader, name: string)
    requires AllHeld(l) && l.Held(name).None?
    ensures AllHeld(l.Unload(name, true))
  {
  }

  lemma HeldWasMade(l: Loader, name: string)
    requires AllHeld(l) && l.Held(name).Some?
    ensures l.Held(name).value < |l.made| && l.made[l.Held(name).value] == name
  {
  }

  lemma KeepsMade(l: Loader, name: string, opens: bool)
    ensures l.Load(name, opens).made == l.made && l.Unload(name, true).made == l.made
    ensures l.Unload(name, true).Held(name).None?
  {
  }

  lemma RegisteredGrows(interfaces: map<string, nat>, made: seq<string>, more: seq<string>, appType: string,
                        found: Option<nat>, typeOf: string -> string)
    requires Registered(interfaces, made, typeOf) && made <= more
    requires found.Some? ==> found.value < |more| && typeOf(more[found.value]) == appType
    ensures Registered(interfaces, more, typeOf)
    ensures found.Some? ==>
              Registered(if appType in interfaces then interfaces else interfaces[appType := found.value], more, typeOf)
  {
  }

  lemma VisitHolds(s: Factories, file: PluginFile, appType: string, typeOf: string -> string)
    requires Holds(s, typeOf) && file.appType == typeOf(file.name)
    ensures var q := s.Visit(file, appType);
            Holds(q, typeOf) && (q.loader.Held(file.name).Some? ==> q.loader.Held(file.name).value < |q.loader.made|)
  {
    hide Factories.Offers, AllHeld, Registered, Loader.Load, Loader.GetInstance, Loader.Held, Loader.Unload;
    var loaded := s.loader.Load(file.name, file.opens);
    var l := loaded.GetInstance(file.name, file.creates);
    var q := s.Visit(file, appType);
    LoadHolds(s.loader, file.name, file.opens);
    InstanceHolds(loaded, file.name, file.creates);
    KeepsMade(s.loader, file.name, file.opens);
    KeepsMade(l, file.name, file.opens);
    if l.Held(file.name).Some? {
      HeldWasMade(l, file.name);
    }
    RegisteredGrows(s.interfaces, s.loader.made, l.made, file.appType, l.Held(file.name), typeOf);
    if l.Held(file.name).None? {
      UnloadHolds(l, file.name);
    }
    if q.loader.Held(file.name).Some? {
      HeldWasMade(q.loader, file.name);
    }
  }

  lemma VisitExtends(s: Factories, file: PluginFile, appType: string)
    ensures Extends(s, s.Visit(file, appType))
  {
    hide Factories.Offers;
  }

  lemma {:induction false} SearchExtends(s: Factories, files: seq<PluginFile>, appType: string)
    ensures Extends(s, s.Search(files, appType).0)
    decreases |files|
  {
    hide Factories.Visit, Factories.Wanted;
    if files != [] {
      VisitExtends(s, files[0], appType);
      SearchExtends(s.Visit(files[0], appType), files[1..], appType);
    }
  }

  lemma {:induction false} SearchHolds(s: Factories, files: seq<PluginFile>, appType: string, typeOf: string -> string)
    requires Holds(s, typeOf) && TypesAre(files, typeOf)
    ensures var (q, found) := s.Search(files, appType);
            Holds(q, typeOf) && (found.Some? ==> found.value < |q.loader.made|)
    decreases |files|
  {
    hide Holds, Factories.Visit, Factories.Wanted;
    if files != [] {
      VisitHolds(s, files[0], appType, typeOf);
      SearchHolds(s.Visit(files[0], appType), files[1..], appType, typeOf);
    }
  }

  lemma ConstructedHolds(types: set<string>, onDemand: bool, files: seq<PluginFile>, typeOf: string -> string)
    requires TypesAre(files, typeOf)
    ensures Holds(Constructed(types, onDemand, files), typeOf)
  {
    hide Factories.Search;
    SearchHolds(Factories(NOTHING_LOADED, map[], types + {"default"}, onDemand), files, "", typeOf);
  }

  lemma AskHolds(s: Factories, appType: string, files: seq<PluginFile>, typeOf: string -> string)
    requires Holds(s, typeOf) && TypesAre(files, typeOf)
    ensures var (q, found) := s.GetPluggable(appType, files);
            Holds(q, typeOf) && (found.Some? ==> found.value < |q.loader.made|)
  {
    hide Factories.Search, AllHeld;
    SearchHolds(s, files, appType, typeOf);
  }

  lemma {:induction false} AskedHolds(s: Factories, requests: seq<Request>, typeOf: string -> string)
    requires Holds(s, typeOf) && forall k :: 0 <= k < |requests| ==> TypesAre(requests[k].files, typeOf)
    ensures Holds(Asked(s, requests), typeOf)
  {
    hide Holds, Factories.GetPluggable, TypesAre;
    if requests != [] {
      AskedHolds(s, requests[..|requests| - 1], typeOf);
      var last := requests[|requests| - 1];
      assert last == requests[|requests| - 1];
      AskHolds(Asked(s, requests[..|requests| - 1]), last.appType, last.files, typeOf);
    }
  }

  lemma {:induction false} AskedExtends(s: Factories, requests: seq<Request>)
    ensures Extends(s, Asked(s, requests))
  {
    hide Factories.Search;
    if requests != [] {
      AskedExtends(s, requests[..|requests| - 1]);
      var last := requests[|requests| - 1];
      SearchExtends(Asked(s, requests[..|requests| - 1]), last.files, last.appType);
    }
  }

  /**
   In every run, each registered factory is a live instance that the loader still holds, made
   by a file of the type it is registered under; no file ever makes a second instance.
   */
  lemma RegisteredFactoriesAreLive(types: set<string>, onDemand: bool, files: seq<PluginFile>, requests: seq<Request>,
                                   typeOf: string -> string)
    requires TypesAre(files, typeOf) && forall k :: 0 <= k < |requests| ==> TypesAre(requests[k].files, typeOf)
    ensures var s := Asked(Constructed(types, onDemand, files), requests);
            && (forall t :: t in s.interfaces ==>
                              var i := s.interfaces[t];
                              s.loader.Live(i) && s.loader.Held(s.loader.made[i]) == Some(i)
                              && typeOf(s.loader.made[i]) == t)
            && (forall i, j :: 0 <= i < j < |s.loader.made| ==> s.loader.made[i] != s.loader.made[j])
  {
    hide Asked, Constructed;
    ConstructedHolds(types, onDemand, files, typeOf);
    AskedHolds(Constructed(types, onDemand, files), requests, typeOf);
    var s := Asked(Constructed(types, onDemand, files), requests);
    forall i, j | 0 <= i < j < |s.loader.made|
      ensures s.loader.made[i] != s.loader.made[j]
    {
      assert s.loader.Held(s.loader.made[i]) == Some(i) && s.loader.Held(s.loader.made[j]) == Some(j);
    }
  }

  /**
   Every factory that is handed out is live and held by the loader. A page gets the answer for its
   type, or else the factory of the default type, if one is registered by then.
   */
  lemma AnswersAreLive(types: set<string>, onDemand: bool, files: seq<PluginFile>, requests: seq<Request>,
                       last: Request, typeOf: string -> string)
    requires TypesAre(files, typeOf) && TypesAre(last.files, typeOf)
    requires forall k :: 0 <= k < |requests| ==> TypesAre(requests[k].files, typeOf)
    ensures var s := Asked(Constructed(types, onDemand, files), requests);
            var (q, found) := s.PageFactory(last.appType, last.files);
            && (found.Some? ==> q.loader.Live(found.value) && q.loader.Held(q.loader.made[found.value]) == found)
            && (s.GetPluggable(last.appType, last.files).1.Some? ==>
                  found == s.GetPluggable(last.appType, last.files).1)
            && (s.GetPluggable(last.appType, last.files).1.None? ==>
                  if "default" in q.interfaces
                  then found == Some(q.interfaces["default"]) && typeOf(q.loader.made[found.value]) == "default"
                  else found.None?)
  {
    hide Asked, Constructed, Factories.GetPluggable;
    ConstructedHolds(types, onDemand, files, typeOf);
    AskedHolds(Constructed(types, onDemand, files), requests, typeOf);
    AskHolds(Asked(Constructed(types, onDemand, files), requests), last.appType, last.files, typeOf);
  }

  /** No instance is deleted before the end, and at the end each is deleted once, if its library can. */
  lemma DeletedOnceAtTheEnd(types: set<string>, onDemand: bool, files: seq<PluginFile>, requests: seq<Request>,
                            typeOf: string -> string, deleters: set<string>)
    requires TypesAre(files, typeOf) && forall k :: 0 <= k < |requests| ==> TypesAre(requests[k].files, typeOf)
    ensures var l := Asked(Constructed(types, onDemand, files), requests).loader;
            && l.deleted == multiset{}
            && forall i :: 0 <= i < |l.made| ==>
                             l.Destroyed(deleters).deleted[i] == if l.made[i] in deleters then 1 else 0
  {
    hide Asked, Constructed;
    ConstructedHolds(types, onDemand, files, typeOf);
    AskedHolds(Constructed(types, onDemand, files), requests, typeOf);
    var l := Asked(Constructed(types, onDemand, files), requests).loader;
    var gone := set name | name in l.plugins && l.plugins[name].Some? && name in deleters :: l.plugins[name].value;
    forall i | 0 <= i < |l.made|
      ensures i in gone <==> l.made[i] in deleters
    {
      assert l.Held(l.made[i]) == Some(i);
    }
  }

  // ---- what a request finds ----

  ghost predicate DistinctNames(files: seq<PluginFile>) {
    forall j, k :: 0 <= j < k < |files| ==> files[j].name != files[k].name
  }

  /** What a change of one file leaves of another. */
  predicate SameFile(l: Loader, q: Loader, other: string) {
    (other in q.plugins) == (other in l.plugins) && q.Held(other) == l.Held(other)
  }

  lemma LoaderTouchesOneFile(l: Loader, name: string, opens: bool, creates: bool, other: string)
    requires other != name
    ensures SameFile(l, l.Load(name, opens), other) && SameFile(l, l.GetInstance(name, creates), other)
    ensures SameFile(l, l.Unload(name, true), other)
  {
  }

  lemma VisitTouchesOneFile(s: Factories, file: PluginFile, other: PluginFile, appType: string)
    requires other.name != file.name
    ensures s.Visit(file, appType).Wanted(other, appType) == s.Wanted(other, appType)
    ensures s.Visit(file, appType).loader.Held(other.name) == s.loader.Held(other.name)
    ensures (other.name in s.Visit(file, appType).loader.plugins) == (other.name in s.loader.plugins)
  {
    hide Texts.Find, Loader.Load, Loader.GetInstance, Loader.Unload, Loader.Held;
    var loaded := s.loader.Load(file.name, file.opens);
    var l := loaded.GetInstance(file.name, file.creates);
    LoaderTouchesOneFile(s.loader, file.name, file.opens, file.creates, other.name);
    LoaderTouchesOneFile(loaded, file.name, file.opens, file.creates, other.name);
    LoaderTouchesOneFile(l, file.name, file.opens, file.creates, other.name);
  }

  lemma UnwantedChangesNothing(s: Factories, file: PluginFile, appType: string)
    requires !s.Wanted(file, appType)
    ensures var q := s.Visit(file, appType);
            q.interfaces == s.interfaces && q.onDemand == s.onDemand && !q.Wanted(file, appType)
  {
    hide Texts.Find;
  }

  /** What a search without success, or one for another file, leaves of a file. */
  lemma {:induction false} SearchTouchesItsFiles(s: Factories, files: seq<PluginFile>, other: PluginFile,
                                                 appType: string)
    requires forall j :: 0 <= j < |files| ==> files[j].name != other.name
    ensures var q := s.Search(files, appType).0;
            && q.Wanted(other, appType) == s.Wanted(other, appType)
            && q.loader.Held(other.name) == s.loader.Held(other.name)
            && (other.name in q.loader.plugins) == (other.name in s.loader.plugins)
    decreases |files|
  {
    hide Factories.Wanted, Factories.Visit, Loader.Held;
    if files != [] {
      VisitTouchesOneFile(s, files[0], other, appType);
      SearchTouchesItsFiles(s.Visit(files[0], appType), files[1..], other, appType);
    }
  }

  /**
   A search rests at a file that is loaded or opens and, if files are loaded on demand only, has the
   asked type somewhere in its own, not necessarily as the whole of it.
   */
  lemma WantedMeans(s: Factories, file: PluginFile, appType: string)
    ensures s.Wanted(file, appType) <==>
            && (file.name in s.loader.plugins || file.opens)
            && (s.onDemand ==> exists before, behind :: file.appType == before + appType + behind)
  {
    if Texts.Find(file.appType, appType, 0).Some? {
      var p := Texts.Find(file.appType, appType, 0).value;
      var before, behind := file.appType[..p], file.appType[p + |appType|..];
      assert file.appType == before + appType + behind;
    } else if before, behind :| file.appType == before + appType + behind {
      Texts.FindIsFirst(file.appType, appType, 0);
      assert file.appType[|before|..|before| + |appType|] == appType;
      assert Texts.OccursAt(file.appType, appType, |before|);
    }
  }

  /** The file at which a search for a type ends: the first that loads and is wanted. */
  ghost predicate EndsAt(s: Factories, files: seq<PluginFile>, appType: string, k: nat) {
    && DistinctNames(files) && k < |files|
    && s.Wanted(files[k], appType) && forall j :: 0 <= j < k ==> !s.Wanted(files[j], appType)
  }

  lemma EndsBehind(s: Factories, files: seq<PluginFile>, appType: string, k: nat)
    requires EndsAt(s, files, appType, k) && k > 0
    ensures EndsAt(s.Visit(files[0], appType), files[1..], appType, k - 1)
  {
    hide Factories.Wanted, Factories.Visit;
    forall j | 0 < j <= k
      ensures s.Visit(files[0], appType).Wanted(files[j], appType) == s.Wanted(files[j], appType)
    {
      VisitTouchesOneFile(s, files[0], files[j], appType);
    }
  }

  /**
   The search succeeds exactly if the file it ends at holds an instance already or makes one,
   and it registers the instance under the type of the file, unless that type is taken.
   */
  lemma {:induction false} SearchFindsFirstWanted(s: Factories, files: seq<PluginFile>, appType: string, k: nat)
    requires appType != "" && EndsAt(s, files, appType, k)
    ensures var (q, found) := s.Search(files, appType);
            && (found.Some? <==> s.loader.Held(files[k].name).Some? || files[k].creates)
            && (s.loader.Held(files[k].name).Some? ==> found == s.loader.Held(files[k].name))
            && (found.Some? ==> q.loader.Held(files[k].name) == found)
            && q.interfaces == if found.None? || files[k].appType in s.interfaces then s.interfaces
                               else s.interfaces[files[k].appType := found.value]
    decreases k
  {
    hide Texts.Find;
    if k > 0 {
      hide Factories.Wanted, Factories.Visit, Loader.Held;
      EndsBehind(s, files, appType, k);
      VisitTouchesOneFile(s, files[0], files[k], appType);
      UnwantedChangesNothing(s, files[0], appType);
      SearchFindsFirstWanted(s.Visit(files[0], appType), files[1..], appType, k - 1);
    }
  }

  lemma {:induction false} SearchFindsNothing(s: Factories, files: seq<PluginFile>, appType: string)
    requires appType != "" && DistinctNames(files) && forall j :: 0 <= j < |files| ==> !s.Wanted(files[j], appType)
    ensures s.Search(files, appType).1 == None && s.Search(files, appType).0.interfaces == s.interfaces
    decreases |files|
  {
    hide Factories.Wanted, Factories.Visit;
    if files != [] {
      var q := s.Visit(files[0], appType);
      UnwantedChangesNothing(s, files[0], appType);
      forall j | 0 < j < |files|
        ensures q.Wanted(files[j], appType) == s.Wanted(files[j], appType)
      {
        VisitTouchesOneFile(s, files[0], files[j], appType);
      }
      SearchFindsNothing(q, files[1..], appType);
    }
  }

  /** After a successful search, a search of the same directory ends at the same file. */
  lemma {:induction false} EndsThereAgain(s: Factories, files: seq<PluginFile>, appType: string, k: nat)
    requires appType != "" && EndsAt(s, files, appType, k) && s.Search(files, appType).1.Some?
    ensures EndsAt(s.Search(files, appType).0, files, appType, k)
    decreases k
  {
    hide Texts.Find;
    var q := s.Search(files, appType).0;
    if k == 0 {
    } else {
      hide Factories.Wanted, Factories.Visit;
      var v := s.Visit(files[0], appType);
      EndsBehind(s, files, appType, k);
      EndsThereAgain(v, files[1..], appType, k - 1);
      UnwantedChangesNothing(s, files[0], appType);
      SearchTouchesItsFiles(v, files[1..], files[0], appType);
      forall j | 0 < j <= k
        ensures q.Wanted(files[j], appType) == v.Search(files[1..], appType).0.Wanted(files[1..][j - 1], appType)
      {
      }
    }
  }

  /** Asking again gives the same factory, as long as the directory and its libraries stay as they are. */
  lemma SameDirectorySameAnswer(s: Factories, files: seq<PluginFile>, appType: string, k: nat)
    requires appType != "" && appType !in s.interfaces && EndsAt(s, files, appType, k)
    requires s.GetPluggable(appType, files).1.Some?
    ensures s.GetPluggable(appType, files).0.GetPluggable(appType, files).1 == s.GetPluggable(appType, files).1
  {
    hide Factories.Search, EndsAt;
    SearchFindsFirstWanted(s, files, appType, k);
    EndsThereAgain(s, files, appType, k);
    SearchFindsFirstWanted(s.Search(files, appType).0, files, appType, k);
    SearchExtends(s, files, appType);
  }

  /** Whatever else is asked first, and whatever the directory then holds. */
  ghost predicate AnsweredForGood(s: Factories, appType: string, found: Option<nat>) {
    forall requests, files :: Asked(s, requests).GetPluggable(appType, files).1 == found
  }

  /**
   A newly found factory is the answer for good, whatever is asked and becomes of the files in
   between, exactly if the type of its file is the asked type and does not merely contain it.
   */
  lemma AnswerLasts(s: Factories, files: seq<PluginFile>, appType: string, k: nat)
    requires appType != "" && appType !in s.interfaces && EndsAt(s, files, appType, k)
    requires s.GetPluggable(appType, files).1.Some?
    ensures var (q, found) := s.GetPluggable(appType, files);
            AnsweredForGood(q, appType, found) <==> files[k].appType == appType
  {
    hide Factories.Search, EndsAt;
    EndsWhere(s, files, appType, k);
    var (q, found) := s.GetPluggable(appType, files);
    SearchFindsFirstWanted(s, files, appType, k);
    if files[k].appType == appType {
      forall requests, later
        ensures Asked(q, requests).GetPluggable(appType, later).1 == found
      {
        AskedExtends(q, requests);
      }
    } else {
      var none: seq<Request>, nothing: seq<PluginFile> := [], [];
      EmptyDirectory(q, appType);
      assert Asked(q, none) == q;
      assert appType !in q.interfaces;
      assert Asked(q, none).GetPluggable(appType, nothing).1 == None;
    }
  }

  lemma EmptyDirectory(s: Factories, appType: string)
    ensures s.Search([], appType) == (s, None)
  {
  }

  // ---- the type of what is found ----

  lemma FoundAtItsFile(s: Factories, files: seq<PluginFile>, appType: string, k: nat, typeOf: string -> string)
    requires Holds(s, typeOf) && TypesAre(files, typeOf) && appType != "" && EndsAt(s, files, appType, k)
    ensures var (q, found) := s.Search(files, appType);
            found.Some? ==> found.value < |q.loader.made| && typeOf(q.loader.made[found.value]) == files[k].appType
  {
    hide Factories.Search, EndsAt, Factories.Wanted, AllHeld, Loader.Held;
    EndsWhere(s, files, appType, k);
    SearchHolds(s, files, appType, typeOf);
    SearchFindsFirstWanted(s, files, appType, k);
    var (q, found) := s.Search(files, appType);
    if found.Some? {
      HeldWasMade(q.loader, files[k].name);
    }
  }

  lemma EndsWhere(s: Factories, files: seq<PluginFile>, appType: string, k: nat)
    requires EndsAt(s, files, appType, k)
    ensures k < |files| && s.Offers(files[k], appType)
  {
  }

  lemma {:induction false} SomewhereOrNowhere(s: Factories, files: seq<PluginFile>, appType: string, n: nat)
    returns (k: nat)
    requires n <= |files| && DistinctNames(files)
    ensures k <= n && (k < n ==> EndsAt(s, files, appType, k))
    ensures k == n ==> forall j :: 0 <= j < n ==> !s.Wanted(files[j], appType)
  {
    hide Factories.Wanted;
    if n == 0 {
      k := 0;
    } else {
      k := SomewhereOrNowhere(s, files, appType, n - 1);
      if k == n - 1 && !s.Wanted(files[k], appType) {
        k := n;
      }
    }
  }

  /** Loading on demand, the type of the factory found always contains the asked type. */
  lemma OnDemandAnswersFit(s: Factories, files: seq<PluginFile>, appType: string, typeOf: string -> string)
    requires Holds(s, typeOf) && TypesAre(files, typeOf) && DistinctNames(files) && s.onDemand && appType != ""
    ensures var (q, found) := s.GetPluggable(appType, files);
            found.Some? ==>
              && found.value < |q.loader.made|
              && Texts.Find(typeOf(q.loader.made[found.value]), appType, 0).Some?
              && (appType in s.env || appType in s.interfaces)
  {
    hide Factories.Search, Factories.Wanted, EndsAt, AllHeld;
    if appType !in s.interfaces && appType in s.env {
      var k := SomewhereOrNowhere(s, files, appType, |files|);
      if k < |files| {
        EndsWhere(s, files, appType, k);
        FoundAtItsFile(s, files, appType, k, typeOf);
      } else {
        SearchFindsNothing(s, files, appType);
      }
    }
  }

  /**
   Loading all at once, a type that is allowed but not registered gets the first file that
   loads, so the answer fits exactly if the type is registered or that file happens to fit.
   */
  lemma EagerAnswersFit(s: Factories, files: seq<PluginFile>, appType: string, k: nat, typeOf: string -> string)
    requires Holds(s, typeOf) && TypesAre(files, typeOf) && DistinctNames(files) && !s.onDemand && appType != ""
    requires k < |files| && s.loader.Loads(files[k].name, files[k].opens)
    requires forall j :: 0 <= j < k ==> !s.loader.Loads(files[j].name, files[j].opens)
    ensures var (q, found) := s.GetPluggable(appType, files);
            found.Some? ==>
              && found.value < |q.loader.made|
              && (Texts.Find(typeOf(q.loader.made[found.value]), appType, 0).Some? <==>
                  appType in s.interfaces || Texts.Find(files[k].appType, appType, 0).Some?)
  {
    hide Factories.Search, AllHeld;
    if appType !in s.interfaces && appType in s.env {
      FoundAtItsFile(s, files, appType, k, typeOf);
    }
  }

  /** Such an answer of another type: the only plugin is of type "a", and "c" is asked for. */
  lemma EagerAnswerOfAnotherType()
    ensures var files := [PluginFile("a.so", true, "a", true)];
            && Constructed({"c"}, false, files).GetPluggable("c", files).1 == Some(0)
            && Constructed({"c"}, true, files).GetPluggable("c", files).1 == None
  {
    var file := PluginFile("a.so", true, "a", true);
    var files := [file];
    assert files[1..] == [];
    assert "a"[0] != "c"[0];
    assert !Texts.OccursAt("a", "c", 0);
    var s := Factories(NOTHING_LOADED, map[], {"c"} + {"default"}, false);
    EverythingOffers(s, file);
    var q := Factories(Loader(map["a.so" := Some(0)], ["a.so"], multiset{}), map["a" := 0], {"c"} + {"default"}, false);
    assert s.Visit(file, "") == q;
    assert q.Search([], "") == (q, None);
    assert Constructed({"c"}, false, files) == q;
    assert q.Visit(file, "c") == q;
  }

  // ---- loading all files ----

  /** A file that becomes a plugin when everything is loaded. */
  predicate Good(file: PluginFile) {
    file.opens && file.creates
  }

  ghost predicate FirstOfType(files: seq<PluginFile>, k: nat)
    requires k < |files|
  {
    Good(files[k]) && forall j :: 0 <= j < k ==> !(Good(files[j]) && files[j].appType == files[k].appType)
  }

  ghost function GoodTypes(files: seq<PluginFile>): set<string> {
    set k | 0 <= k < |files| && Good(files[k]) :: files[k].appType
  }

  lemma EverythingOffers(s: Factories, file: PluginFile)
    ensures s.Offers(file, "")
  {
    assert Texts.OccursAt(file.appType, "", 0);
  }

  lemma VisitForAll(s: Factories, file: PluginFile)
    requires file.name !in s.loader.plugins
    ensures var q := s.Visit(file, "");
            && (file.name in q.loader.plugins <==> Good(file)) && (q.loader.Held(file.name).Some? <==> Good(file))
            && (!Good(file) ==> q.interfaces == s.interfaces)
            && (Good(file) ==> q.interfaces == if file.appType in s.interfaces then s.interfaces
                                               else s.interfaces[file.appType := q.loader.Held(file.name).value])
  {
    hide Factories.Offers;
    EverythingOffers(s, file);
  }

  /**
   Searching for the empty type loads each file that opens and makes an instance, unloads the
   others again, and registers under each type the first of its files.
   */
  lemma {:induction false} SearchForAll(s: Factories, files: seq<PluginFile>)
    requires DistinctNames(files) && forall k :: 0 <= k < |files| ==> files[k].name !in s.loader.plugins
    ensures var q := s.Search(files, "").0;
            && (forall k :: 0 <= k < |files| ==> (files[k].name in q.loader.plugins <==> Good(files[k])))
            && q.interfaces.Keys == s.interfaces.Keys + GoodTypes(files)
            && (forall k :: 0 <= k < |files| && files[k].appType !in s.interfaces && FirstOfType(files, k) ==>
                              q.loader.Held(files[k].name) == Some(q.interfaces[files[k].appType]))
    decreases |files|
  {
    hide Factories.Visit, Good, GoodTypes, FirstOfType, Loader.Held;
    GoodTypesGrow(files);
    if files != [] {
      var v, rest := s.Visit(files[0], ""), files[1..];
      VisitForAll(s, files[0]);
      forall k | 0 <= k < |rest|
        ensures rest[k].name !in v.loader.plugins
      {
        VisitTouchesOneFile(s, files[0], files[k + 1], "");
      }
      SearchForAll(v, rest);
      SearchTouchesItsFiles(v, rest, files[0], "");
      SearchExtends(v, rest, "");
      var q := v.Search(rest, "").0;
      forall k | 0 <= k < |files| && files[k].appType !in s.interfaces && FirstOfType(files, k)
        ensures files[k].appType in q.interfaces
        ensures q.loader.Held(files[k].name) == Some(q.interfaces[files[k].appType])
      {
        FirstOfRest(files, k);
      }
    }
  }

  lemma GoodTypesGrow(files: seq<PluginFile>)
    ensures GoodTypes([]) == {}
    ensures files != [] ==>
              GoodTypes(files) == GoodTypes(files[1..]) + if Good(files[0]) then {files[0].appType} else {}
  {
    hide Good;
  }

  lemma FirstOfRest(files: seq<PluginFile>, k: nat)
    requires k < |files| && FirstOfType(files, k)
    ensures Good(files[k]) && files[k].appType in GoodTypes(files)
    ensures k > 0 ==> FirstOfType(files[1..], k - 1) && !(Good(files[0]) && files[0].appType == files[k].appType)
  {
    hide Good;
  }

  /** What the constructor has loaded when everything is to be loaded at once. */
  lemma EagerlyLoaded(types: set<string>, files: seq<PluginFile>)
    requires DistinctNames(files)
    ensures var q := Constructed(types, false, files);
            && (forall k :: 0 <= k < |files| ==> (files[k].name in q.loader.plugins <==> Good(files[k])))
            && q.interfaces.Keys == GoodTypes(files)
            && (forall k :: 0 <= k < |files| && FirstOfType(files, k) ==>
                              q.loader.Held(files[k].name) == Some(q.interfaces[files[k].appType]))
  {
    hide Factories.Search, Good;
    SearchForAll(Factories(NOTHING_LOADED, map[], types + {"default"}, false), files);
  }

  // ---- the object ----

  class WebAppFactoryManagerImpl {
    var interfaces: map<string, nat>
    const factoryEnv: set<string>
    const loadPluggableOnDemand: bool
    const pluginLoader: PluginLoader

    ghost function View(): Factories
      reads this, pluginLoader
    {
      Factories(pluginLoader.View(), interfaces, factoryEnv, loadPluggableOnDemand)
    }

    constructor (pluginTypes: string, onDemand: bool, files: seq<PluginFile>)
      ensures fresh(pluginLoader)
      ensures View() == Constructed((set t | t in Tokens.TokensOf(pluginTypes, {':'})), onDemand, files)
    {
      hide Factories.Search, Tokens.TokensOf;
      var types := Tokens.SplitPluginTypes(pluginTypes);
      interfaces := map[];
      factoryEnv := types + {"default"};
      loadPluggableOnDemand := onDemand;
      pluginLoader := new PluginLoader();
      new;
      if !loadPluggableOnDemand {
        var _ := LoadPluggable("", files);
      }
    }

    method GetPluggable(appType: string, files: seq<PluginFile>) returns (interface: Option<nat>)
      modifies this, pluginLoader
      ensures (View(), interface) == old(View()).GetPluggable(appType, files)
    {
      hide Factories.Search;
      if appType in interfaces {
        return Some(interfaces[appType]);
      }
      interface := LoadPluggable(appType, files);
    }

    method LoadPluggable(appType: string, files: seq<PluginFile>) returns (interface: Option<nat>)
      modifies this, pluginLoader
      ensures (View(), interface) == old(View()).LoadPluggable(appType, files)
    {
      if appType != "" && appType !in factoryEnv {
        return None;
      }
      for i := 0 to |files|
        invariant View().Search(files[i..], appType) == old(View()).Search(files, appType)
      {
        hide Factories.Visit, Factories.Wanted;
        var over;
        over, interface := VisitFile(files[i], appType);
        assert files[i..][1..] == files[i + 1..];
        if over {
          return;
        }
      }
      return None;
    }

    /** The body of the loop over the files. */
    method VisitFile(file: PluginFile, appType: string) returns (over: bool, interface: Option<nat>)
      modifies this, pluginLoader
      ensures View() == old(View()).Visit(file, appType)
      ensures over == (old(View()).Wanted(file, appType) && appType != "")
      ensures over ==> interface == View().loader.Held(file.name)
    {
      var loaded := pluginLoader.Load(file.name, file.opens);
      if !loaded {
        return false, None;
      }
      var key := file.appType;
      if Texts.Find(key, appType, 0).None? && loadPluggableOnDemand {
        return false, None;
      }
      interface := pluginLoader.GetWebAppFactoryInstance(file.name, file.creates);
      if interface.Some? {
        if key !in interfaces {
          interfaces := interfaces[key := interface.value];
        }
      } else {
        pluginLoader.Unload(file.name, true);
      }
      return appType != "", interface;
    }

    /** The choice of the factory in CreateWebPage. */
    method PageFactory(appType: string, files: seq<PluginFile>) returns (interface: Option<nat>)
      modifies this, pluginLoader
      ensures (View(), interface) == old(View()).PageFactory(appType, files)
    {
      hide Factories.GetPluggable;
      interface := GetPluggable(appType, files);
      if interface.None? && "default" in interfaces {
        interface := Some(interfaces["default"]);
      }
    }
  }
}
