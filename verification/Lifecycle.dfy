/** Finalizers, routes and the shared grant: the controller's workers, users and other actors
    interleaved call by call on one API server, where any call may fail before or after it took
    effect. */
module Lifecycle {

  datatype Key = Key(namespace: string, name: string)
  datatype Finalizer = RouteFinalizer | GrantFinalizer | ProxyFinalizer | OtherFinalizer(name: string)

  /** `granted` records that a reconcile of this notebook found or created the grant. */
  datatype Entry = Entry(finalizers: set<Finalizer>, deleting: bool, granted: bool)

  /** A route in the central namespace: the notebook its labels name, and whether a worker created it. */
  datatype Route = Route(owner: Key, ours: bool)

  /** Where the worker of one notebook stands. */
  datatype Worker =
    | Idle
    | Adding                                                      // some finalizer is missing
    | Live                                                        // finalizers seen; reconciling resources
    | Listing(had: set<Finalizer>)                                // deletion: routes next
    | Deleting(had: set<Finalizer>, left: seq<string>, clean: bool)  // deletion: listed routes, one by one
    | Granting(had: set<Finalizer>, cleaned: set<Finalizer>)      // deletion: grant next
    | Finishing(cleaned: set<Finalizer>)                          // deletion: finalizers to remove

  datatype State = State(
    notebooks: map<Key, Entry>, routes: map<string, Route>, grants: set<string>, workers: map<Key, Worker>)

  /** A call is answered, lost before it took effect, or lost after. */
  datatype Fate = Answered | LostBefore | LostAfter

  datatype Action =
    // users
    | Create(k: Key, finalizers: set<Finalizer>)
    | Delete(k: Key)
    | EditFinalizers(k: Key, others: set<string>)
    // other actors on routes
    | PutRoute(name: string, owner: Key)
    | DropRoute(name: string)
    // the worker of notebook k
    | Read(k: Key)
    | Crash(k: Key)
    | AddFinalizers(k: Key, proxy: bool, fate: Fate)
    | EnsureGrant(k: Key, fate: Fate)
    | CreateRoute(k: Key, name: string, fate: Fate)
    | UpdateRoute(k: Key, name: string, fate: Fate)
    | DeleteRoute(k: Key, name: string, fate: Fate)
    | ListRoutes(k: Key, listed: seq<string>, fate: Fate)
    | DeleteListed(k: Key, fate: Fate)
    | ReleaseGrant(k: Key, fate: Fate)
    | Finish(k: Key, proxyCleaned: bool, fate: Fate)

  function WorkerOf(s: State, k: Key): Worker {
    if k in s.workers then s.workers[k] else Idle
  }

  function At(s: State, k: Key, w: Worker): State {
    s.(workers := s.workers[k := w])
  }

  /** A worker whose call was lost gives up this pass. */
  function After(s: State, k: Key, fate: Fate, w: Worker): State {
    At(s, k, if fate.Answered? then w else Idle)
  }

  /** A deleted object is gone once its last finalizer is. */
  function WithEntry(s: State, k: Key, e: Entry): State {
    s.(notebooks := if e.deleting && e.finalizers == {} then s.notebooks - {k} else s.notebooks[k := e])
  }

  function Others(finalizers: set<Finalizer>): set<Finalizer> {
    set f | f in finalizers && f.OtherFinalizer?
  }

  predicate Active(s: State, k: Key) {
    k in s.notebooks && !s.notebooks[k].deleting
  }

  /** The last notebook of its namespace that is not being deleted, itself left out of the count. */
  predicate IsLast(s: State, k: Key) {
    forall j <- s.notebooks :: j.namespace == k.namespace && j.name != k.name ==> s.notebooks[j].deleting
  }

  function Next(s: State, a: Action): State {
    match a
    case Create(k, finalizers) =>
      if k in s.notebooks then s else s.(notebooks := s.notebooks[k := Entry(finalizers, false, false)])
    case Delete(k) =>
      if k !in s.notebooks then s else WithEntry(s, k, s.notebooks[k].(deleting := true))
    case EditFinalizers(k, others) =>
      // users and other controllers touch finalizers of their own only; none is added once deleting
      if k !in s.notebooks then s
      else
        var e := s.notebooks[k];
        var wanted := set n | n in others :: OtherFinalizer(n);
        var kept := if e.deleting then wanted * e.finalizers else wanted;
        WithEntry(s, k, e.(finalizers := (e.finalizers - Others(e.finalizers)) + kept))
    case PutRoute(name, owner) =>
      if name in s.routes then (if s.routes[name].ours then s else s.(routes := s.routes[name := Route(owner, false)]))
      else s.(routes := s.routes[name := Route(owner, false)])
    case DropRoute(name) => s.(routes := s.routes - {name})
    case Read(k) =>
      if !WorkerOf(s, k).Idle? || k !in s.notebooks then s
      else
        var e := s.notebooks[k];
        if e.deleting then At(s, k, Listing(e.finalizers))
        else if {RouteFinalizer, GrantFinalizer} <= e.finalizers then At(s, k, Live)
        else At(s, k, Adding)
    case Crash(k) => At(s, k, Idle)
    case AddFinalizers(k, proxy, fate) =>
      if !WorkerOf(s, k).Adding? then s
      else if k !in s.notebooks || s.notebooks[k].deleting || fate.LostBefore? then At(s, k, Idle)
      else
        var e := s.notebooks[k];
        var added := {RouteFinalizer, GrantFinalizer} + if proxy then {ProxyFinalizer} else {};
        At(WithEntry(s, k, e.(finalizers := e.finalizers + added)), k, Idle)
    case EnsureGrant(k, fate) =>
      if !WorkerOf(s, k).Live? then s
      else if fate.LostBefore? then At(s, k, Idle)
      else
        var held := s.(grants := s.grants + {k.namespace});
        After(if k in s.notebooks && fate.Answered? then WithEntry(held, k, s.notebooks[k].(granted := true))
          else held, k, fate, Live)
    case CreateRoute(k, name, fate) =>
      // a name that is taken counts as success
      if !WorkerOf(s, k).Live? then s
      else After(if name in s.routes || fate.LostBefore? then s else s.(routes := s.routes[name := Route(k, true)]),
        k, fate, Live)
    case UpdateRoute(k, name, fate) =>
      if !WorkerOf(s, k).Live? then s
      else After(if name !in s.routes || fate.LostBefore? then s
        else s.(routes := s.routes[name := s.routes[name].(owner := k)]), k, fate, Live)
    case DeleteRoute(k, name, fate) =>
      if !WorkerOf(s, k).Live? then s
      else After(if fate.LostBefore? then s else s.(routes := s.routes - {name}), k, fate, Live)
    case ListRoutes(k, listed, fate) =>
      // reads are linearizable: an answered list names every route labelled for this notebook
      var w := WorkerOf(s, k);
      if !w.Listing? then s
      else if RouteFinalizer !in w.had || !fate.Answered? || !Lists(s, k, listed) then At(s, k, Granting(w.had, {}))
      else At(s, k, Deleting(w.had, listed, true))
    case DeleteListed(k, fate) =>
      var w := WorkerOf(s, k);
      if !w.Deleting? then s
      else if w.left == [] then At(s, k, Granting(w.had, if w.clean then {RouteFinalizer} else {}))
      else At(if fate.LostBefore? then s else s.(routes := s.routes - {w.left[0]}), k,
        Deleting(w.had, w.left[1..], w.clean && fate.Answered?))
    case ReleaseGrant(k, fate) =>
      var w := WorkerOf(s, k);
      if !w.Granting? then s
      else if GrantFinalizer !in w.had || fate.LostBefore? then At(s, k, Finishing(w.cleaned))
      else
        var released := if IsLast(s, k) then s.(grants := s.grants - {k.namespace}) else s;
        At(released, k, Finishing(if fate.Answered? then w.cleaned + {GrantFinalizer} else w.cleaned))
    case Finish(k, proxyCleaned, fate) =>
      var w := WorkerOf(s, k);
      if !w.Finishing? then s
      else if k !in s.notebooks || fate.LostBefore? then At(s, k, Idle)
      else
        var e := s.notebooks[k];
        var proxy := if proxyCleaned then {ProxyFinalizer} else {};
        At(WithEntry(s, k, e.(finalizers := e.finalizers - w.cleaned - proxy)), k, Idle)
  }

  predicate Lists(s: State, k: Key, listed: seq<string>) {
    forall n <- s.routes :: s.routes[n].owner == k ==> n in listed
  }

  function Run(s: State, actions: seq<Action>): State
    decreases |actions|
  {
    if actions == [] then s else Run(Next(s, actions[0]), actions[1..])
  }

  const EMPTY := State(map[], map[], {}, map[])

  // ----- No leaked route ------------------------------------------------------------------------

  predicate Holds(s: State, k: Key, f: Finalizer) {
    k in s.notebooks && f in s.notebooks[k].finalizers
  }

  /** No route of ours is labelled for `k`, outside `left`. */
  ghost predicate NoRoutes(s: State, k: Key, left: seq<string>) {
    forall n <- s.routes :: s.routes[n].ours && s.routes[n].owner == k ==> n in left
  }

  /** What a worker's position tells about its notebook. */
  ghost predicate RouteFacts(s: State, k: Key) {
    match WorkerOf(s, k)
    case Live => Holds(s, k, RouteFinalizer)
    case Listing(had) => RouteFinalizer in had ==> Holds(s, k, RouteFinalizer) && s.notebooks[k].deleting
    case Deleting(had, left, clean) => Holds(s, k, RouteFinalizer) && s.notebooks[k].deleting
      && (clean ==> NoRoutes(s, k, left))
    case Granting(had, cleaned) => RouteFinalizer in cleaned ==>
      Holds(s, k, RouteFinalizer) && s.notebooks[k].deleting && NoRoutes(s, k, [])
    case Finishing(cleaned) => RouteFinalizer in cleaned ==>
      Holds(s, k, RouteFinalizer) && s.notebooks[k].deleting && NoRoutes(s, k, [])
    case _ => true
  }

  /** A route of ours exists only while its notebook does and carries the finalizer. */
  ghost predicate NoLeak(s: State) {
    forall n <- s.routes :: s.routes[n].ours ==> Holds(s, s.routes[n].owner, RouteFinalizer)
  }

  ghost predicate RouteInv(s: State) {
    NoLeak(s) && forall k :: RouteFacts(s, k)
  }

  /** Editing foreign finalizers leaves the controller's alone. */
  lemma {:induction false} EditKeeps(s: State, k: Key, others: set<string>, f: Finalizer)
    requires k in s.notebooks && !f.OtherFinalizer?
    ensures var t := Next(s, EditFinalizers(k, others));
      && (f in s.notebooks[k].finalizers ==> Holds(t, k, f))
      && (k in t.notebooks ==>
        t.notebooks[k].deleting == s.notebooks[k].deleting && t.notebooks[k].granted == s.notebooks[k].granted
                               && (f in t.notebooks[k].finalizers <==> f in s.notebooks[k].finalizers))
      && (forall j :: j != k ==>
        (j in t.notebooks <==> j in s.notebooks) && (j in t.notebooks ==> t.notebooks[j] == s.notebooks[j]))
  {
    var e := s.notebooks[k];
    assert f !in Others(e.finalizers);
    if f in e.finalizers { assert f in e.finalizers - Others(e.finalizers); }
  }

  lemma {:induction false} UserKeepsRoutes(s: State, a: Action)
    requires RouteInv(s) && (a.Create? || a.Delete? || a.EditFinalizers?)
    ensures RouteInv(Next(s, a))
  {
    var t := Next(s, a);
    assert t.routes == s.routes && t.workers == s.workers;
    if a.EditFinalizers? && a.k in s.notebooks { EditKeeps(s, a.k, a.others, RouteFinalizer); }
    forall j ensures Holds(s, j, RouteFinalizer) ==>
      Holds(t, j, RouteFinalizer) && (s.notebooks[j].deleting ==> t.notebooks[j].deleting) {}
    forall j ensures RouteFacts(t, j) { assert RouteFacts(s, j); }
  }

  lemma {:induction false} OtherActorsKeepRoutes(s: State, a: Action)
    requires RouteInv(s) && (a.PutRoute? || a.DropRoute?)
    ensures RouteInv(Next(s, a))
  {
    var t := Next(s, a);
    forall j ensures RouteFacts(t, j) { assert RouteFacts(s, j); }
  }

  lemma {:induction false} ActingPlaces(s: State, a: Action, k: Key)
    requires (a.Read? || a.Crash? || a.AddFinalizers? || a.EnsureGrant?) && a.k == k && RouteFacts(s, k)
    ensures RouteFacts(Next(s, a), k) && Next(s, a).routes == s.routes
    ensures Holds(s, k, RouteFinalizer) ==> Holds(Next(s, a), k, RouteFinalizer)
    ensures forall j | j != k ::
      (j in Next(s, a).notebooks <==> j in s.notebooks)
      && (j in s.notebooks ==> Next(s, a).notebooks[j] == s.notebooks[j])
  {}

  lemma {:induction false} SameRoutes(s: State, t: State, j: Key)
    requires RouteFacts(s, j) && WorkerOf(t, j) == WorkerOf(s, j) && t.routes == s.routes
    requires (j in t.notebooks <==> j in s.notebooks) && (j in s.notebooks ==> t.notebooks[j] == s.notebooks[j])
    ensures RouteFacts(t, j)
  {}

  /** Only the facts about the acting worker can change. */
  lemma {:induction false} WorkerKeepsRoutes(s: State, a: Action, k: Key)
    requires RouteInv(s) && (a.Read? || a.Crash? || a.AddFinalizers? || a.EnsureGrant?) && a.k == k
    ensures RouteInv(Next(s, a))
  {
    hide Next, RouteFacts;
    var t := Next(s, a);
    assert RouteFacts(s, k);
    ActingPlaces(s, a, k);
    forall j ensures RouteFacts(t, j) {
      assert RouteFacts(s, j);
      if j != k {
        OtherWorkersStay(s, a, j);
        SameRoutes(s, t, j);
      }
    }
  }

  lemma {:induction false} RouteCallsKeepRoutes(s: State, a: Action, k: Key)
    requires RouteInv(s) && (a.CreateRoute? || a.UpdateRoute? || a.DeleteRoute?) && a.k == k
    ensures RouteInv(Next(s, a))
  {
    var t := Next(s, a);
    assert RouteFacts(s, k);
    assert t.notebooks == s.notebooks;
    forall j ensures RouteFacts(t, j) { assert RouteFacts(s, j); }
  }

  lemma {:induction false} ListPlaces(s: State, a: Action, k: Key)
    requires a.ListRoutes? && a.k == k && RouteFacts(s, k)
    ensures RouteFacts(Next(s, a), k) && Next(s, a).routes == s.routes && Next(s, a).notebooks == s.notebooks
  {}

  lemma {:induction false} DeletePlaces(s: State, a: Action, k: Key)
    requires a.DeleteListed? && a.k == k && RouteFacts(s, k)
    ensures RouteFacts(Next(s, a), k) && Next(s, a).notebooks == s.notebooks
    ensures forall n <- Next(s, a).routes :: n in s.routes && Next(s, a).routes[n] == s.routes[n]
  {}

  lemma {:induction false} ReleasePlaces(s: State, a: Action, k: Key)
    requires a.ReleaseGrant? && a.k == k && RouteFacts(s, k)
    ensures RouteFacts(Next(s, a), k) && Next(s, a).routes == s.routes && Next(s, a).notebooks == s.notebooks
  {}

  /** Fewer routes and a step of another worker disturb nobody. */
  lemma {:induction false} FewerRoutes(s: State, t: State, j: Key)
    requires RouteFacts(s, j) && WorkerOf(t, j) == WorkerOf(s, j) && t.notebooks == s.notebooks
    requires forall n <- t.routes :: n in s.routes && t.routes[n] == s.routes[n]
    ensures RouteFacts(t, j)
  {}

  lemma {:induction false} CleanupKeepsRoutes(s: State, a: Action, k: Key)
    requires RouteInv(s) && (a.ListRoutes? || a.DeleteListed? || a.ReleaseGrant?) && a.k == k
    ensures RouteInv(Next(s, a))
  {
    hide Next, RouteFacts;
    var t := Next(s, a);
    assert RouteFacts(s, k);
    if a.ListRoutes? {
      ListPlaces(s, a, k);
    } else if a.DeleteListed? {
      DeletePlaces(s, a, k);
    } else {
      ReleasePlaces(s, a, k);
    }
    forall j ensures RouteFacts(t, j) {
      assert RouteFacts(s, j);
      if j != k {
        OtherWorkersStay(s, a, j);
        FewerRoutes(s, t, j);
      }
    }
  }

  lemma {:induction false} CleanedMeansNone(s: State, k: Key)
    requires RouteFacts(s, k) && WorkerOf(s, k).Finishing?
    ensures forall n <- s.routes :: s.routes[n].ours && s.routes[n].owner == k ==>
      RouteFinalizer !in WorkerOf(s, k).cleaned
  {}

  lemma {:induction false} FinishHolds(s: State, a: Action, k: Key, f: Finalizer)
    requires a.Finish? && a.k == k && f != ProxyFinalizer && Holds(s, k, f)
    requires WorkerOf(s, k).Finishing? ==> f !in WorkerOf(s, k).cleaned
    ensures Holds(Next(s, a), k, f)
  {
    var w := WorkerOf(s, k);
    if w.Finishing? {
      assert f in s.notebooks[k].finalizers - w.cleaned - if a.proxyCleaned then {ProxyFinalizer} else {};
    }
  }

  lemma {:induction false} FinishKeepsRoutes(s: State, a: Action, k: Key)
    requires RouteInv(s) && a.Finish? && a.k == k
    ensures RouteInv(Next(s, a))
  {
    var t := Next(s, a);
    assert RouteFacts(s, k);
    assert t.routes == s.routes;
    if WorkerOf(s, k).Finishing? { CleanedMeansNone(s, k); }
    forall j | j != k ensures Holds(t, j, RouteFinalizer) == Holds(s, j, RouteFinalizer) {}
    forall j ensures RouteFacts(t, j) { assert RouteFacts(s, j); }
    forall n | n in t.routes && t.routes[n].ours ensures Holds(t, t.routes[n].owner, RouteFinalizer) {
      assert Holds(s, s.routes[n].owner, RouteFinalizer);
      if s.routes[n].owner == k { FinishHolds(s, a, k, RouteFinalizer); }
    }
  }

  lemma {:induction false} StepKeepsRoutes(s: State, a: Action)
    requires RouteInv(s)
    ensures RouteInv(Next(s, a))
  {
    hide RouteInv, Next;
    match a
    case Create(_, _) => UserKeepsRoutes(s, a);
    case Delete(_) => UserKeepsRoutes(s, a);
    case EditFinalizers(_, _) => UserKeepsRoutes(s, a);
    case PutRoute(_, _) => OtherActorsKeepRoutes(s, a);
    case DropRoute(_) => OtherActorsKeepRoutes(s, a);
    case Read(k) => WorkerKeepsRoutes(s, a, k);
    case Crash(k) => WorkerKeepsRoutes(s, a, k);
    case AddFinalizers(k, _, _) => WorkerKeepsRoutes(s, a, k);
    case EnsureGrant(k, _) => WorkerKeepsRoutes(s, a, k);
    case CreateRoute(k, _, _) => RouteCallsKeepRoutes(s, a, k);
    case UpdateRoute(k, _, _) => RouteCallsKeepRoutes(s, a, k);
    case DeleteRoute(k, _, _) => RouteCallsKeepRoutes(s, a, k);
    case ListRoutes(k, _, _) => CleanupKeepsRoutes(s, a, k);
    case DeleteListed(k, _) => CleanupKeepsRoutes(s, a, k);
    case ReleaseGrant(k, _) => CleanupKeepsRoutes(s, a, k);
    case Finish(k, _, _) => FinishKeepsRoutes(s, a, k);
  }

  lemma {:induction false} RunKeepsRoutes(s: State, actions: seq<Action>)
    requires RouteInv(s)
    ensures RouteInv(Run(s, actions))
    decreases |actions|
  {
    hide RouteInv, Next;
    if actions != [] {
      StepKeepsRoutes(s, actions[0]);
      RunKeepsRoutes(Next(s, actions[0]), actions[1..]);
    }
  }

  /** Over every run from an empty cluster, with any call failing before or after it took effect,
      workers crashing and users deleting at any point: a route a worker created exists only while
      the notebook it is labelled for exists and carries the HTTPRoute finalizer. */
  lemma {:induction false} NoLeakedRoute(actions: seq<Action>)
    ensures NoLeak(Run(EMPTY, actions))
  {
    hide Next, Run;
    assert RouteInv(EMPTY);
    RunKeepsRoutes(EMPTY, actions);
  }

  // ----- The shared grant -----------------------------------------------------------------------

  /** What a worker's position tells about the grant's finalizer. */
  ghost predicate GrantFacts(s: State, k: Key) {
    match WorkerOf(s, k)
    case Live => Holds(s, k, GrantFinalizer)
    case Listing(had) => GrantFinalizer in had ==> Holds(s, k, GrantFinalizer) && s.notebooks[k].deleting
    case Deleting(had, _, _) => GrantFinalizer in had ==> Holds(s, k, GrantFinalizer) && s.notebooks[k].deleting
    case Granting(had, cleaned) => GrantFinalizer !in cleaned
      && (GrantFinalizer in had ==> Holds(s, k, GrantFinalizer) && s.notebooks[k].deleting)
    case Finishing(cleaned) => GrantFinalizer in cleaned ==> Holds(s, k, GrantFinalizer) && s.notebooks[k].deleting
    case _ => true
  }

  ghost predicate Placed(s: State) {
    forall k :: GrantFacts(s, k)
  }

  /** Finalizer and deletion of other notebooks, and of this one while it holds the finalizer, stay. */
  lemma {:induction false} HoldersStay(s: State, a: Action)
    requires !a.Finish?
    ensures forall j :: Holds(s, j, GrantFinalizer) ==>
      Holds(Next(s, a), j, GrantFinalizer) && (s.notebooks[j].deleting ==> Next(s, a).notebooks[j].deleting)
  {
    if a.EditFinalizers? && a.k in s.notebooks { EditKeeps(s, a.k, a.others, GrantFinalizer); }
  }

  lemma {:induction false} OtherWorkersStay(s: State, a: Action, j: Key)
    requires a.Create? || a.Delete? || a.EditFinalizers? || a.PutRoute? || a.DropRoute? || j != a.k
    ensures WorkerOf(Next(s, a), j) == WorkerOf(s, j)
  {}

  lemma {:induction false} ActingWorkerPlaced(s: State, a: Action, k: Key)
    requires GrantFacts(s, k)
    requires (a.Read? || a.Crash? || a.AddFinalizers? || a.EnsureGrant? || a.CreateRoute? || a.UpdateRoute?
      || a.DeleteRoute?)
    requires a.k == k
    ensures GrantFacts(Next(s, a), k)
  {
    HoldersStay(s, a);
  }

  lemma {:induction false} CleaningWorkerPlaced(s: State, a: Action, k: Key)
    requires GrantFacts(s, k)
    requires (a.ListRoutes? || a.DeleteListed? || a.ReleaseGrant? || a.Finish?) && a.k == k
    ensures GrantFacts(Next(s, a), k)
  {}

  predicate ByWorker(a: Action) {
    !a.Create? && !a.Delete? && !a.EditFinalizers? && !a.PutRoute? && !a.DropRoute?
  }

  lemma {:induction false} StepKeepsPlaced(s: State, a: Action)
    requires Placed(s)
    ensures Placed(Next(s, a))
  {
    var t := Next(s, a);
    forall j ensures GrantFacts(t, j) {
      hide Next;
      assert GrantFacts(s, j);
      if ByWorker(a) && j == a.k {
        if a.ListRoutes? || a.DeleteListed? || a.ReleaseGrant? || a.Finish? {
          CleaningWorkerPlaced(s, a, j);
        } else {
          ActingWorkerPlaced(s, a, j);
        }
      } else {
        OtherWorkersStay(s, a, j);
        if a.Finish? { FinishElsewhere(s, a, j); } else { HoldersStay(s, a); }
      }
    }
  }

  lemma {:induction false} FinishElsewhere(s: State, a: Action, j: Key)
    requires a.Finish? && j != a.k
    ensures j in Next(s, a).notebooks <==> j in s.notebooks
    ensures j in s.notebooks ==> Next(s, a).notebooks[j] == s.notebooks[j]
  {}

  /** A notebook whose reconcile has seen the grant, and that is not being deleted, still has it. */
  ghost predicate GrantHeld(s: State) {
    forall k <- s.notebooks :: s.notebooks[k].granted && !s.notebooks[k].deleting ==> k.namespace in s.grants
  }

  lemma {:induction false} StepKeepsGrant(s: State, a: Action)
    requires GrantHeld(s) && Placed(s)
    ensures GrantHeld(Next(s, a))
  {
    var t := Next(s, a);
    if a.EditFinalizers? && a.k in s.notebooks { EditKeeps(s, a.k, a.others, GrantFinalizer); }
    if a.ReleaseGrant? { assert GrantFacts(s, a.k); }
    forall k | k in t.notebooks && t.notebooks[k].granted && !t.notebooks[k].deleting ensures k.namespace in t.grants {
      if k in s.notebooks && s.notebooks[k].granted && !s.notebooks[k].deleting { assert k.namespace in s.grants; }
    }
  }

  lemma {:induction false} RunKeepsGrant(s: State, actions: seq<Action>)
    requires GrantHeld(s) && Placed(s)
    ensures GrantHeld(Run(s, actions))
    decreases |actions|
  {
    hide Next, GrantHeld, Placed;
    if actions != [] {
      StepKeepsGrant(s, actions[0]);
      StepKeepsPlaced(s, actions[0]);
      RunKeepsGrant(Next(s, actions[0]), actions[1..]);
    }
  }

  /** Over every run: a fully reconciled notebook that is not being deleted has its namespace's
      grant, whoever else comes and goes in the namespace. */
  lemma {:induction false} GrantAlwaysHeld(actions: seq<Action>)
    ensures GrantHeld(Run(EMPTY, actions))
  {
    hide Next, Run;
    assert GrantHeld(EMPTY) && Placed(EMPTY);
    RunKeepsGrant(EMPTY, actions);
  }

  /** Its deletion pass has dealt with the grant and is about to drop the finalizer. */
  predicate Handled(s: State, k: Key) {
    WorkerOf(s, k).Finishing? && GrantFinalizer in WorkerOf(s, k).cleaned
  }

  /** A notebook that answers for its namespace's grant: one that is not being deleted, or one
      whose deletion has yet to deal with it. */
  predicate Answers(s: State, k: Key) {
    k in s.notebooks && (!s.notebooks[k].deleting || (GrantFinalizer in s.notebooks[k].finalizers && !Handled(s, k)))
  }

  ghost predicate AnsweredFor(s: State, ns: string) {
    exists k: Key :: k.namespace == ns && Answers(s, k)
  }

  /** The grant of a namespace in which nothing answers for it: no later deletion will take it. */
  ghost predicate Orphaned(s: State, ns: string) {
    ns in s.grants && !AnsweredFor(s, ns)
  }

  /** A notebook is deleted before it holds the finalizer, where a grant is and nothing else answers for it. */
  ghost predicate Harms(s: State, a: Action, ns: string) {
    && a.Delete? && a.k.namespace == ns && Active(s, a.k) && !Holds(s, a.k, GrantFinalizer) && ns in s.grants
    && forall j: Key :: j != a.k && j.namespace == ns ==> !Answers(s, j)
  }

  /** A notebook is created, or a deletion pass that has dealt with the grant gives up before the
      finalizer is off, so that it will be repeated. */
  predicate Revives(s: State, a: Action, ns: string) {
    || (a.Create? && a.k.namespace == ns && a.k !in s.notebooks)
    || ((a.Crash? || (a.Finish? && a.fate.LostBefore?)) && a.k.namespace == ns && Handled(s, a.k))
  }

  ghost predicate Unrevived(s: State, actions: seq<Action>, ns: string)
    decreases |actions|
  {
    actions != [] ==> !Revives(s, actions[0], ns) && Unrevived(Next(s, actions[0]), actions[1..], ns)
  }

  /** Some deletion of the run harms the namespace, and nothing revives it afterwards. */
  ghost predicate Stranded(s: State, actions: seq<Action>, ns: string)
    decreases |actions|
  {
    && actions != []
    && var t := Next(s, actions[0]);
       (Harms(s, actions[0], ns) && Unrevived(t, actions[1..], ns)) || Stranded(t, actions[1..], ns)
  }

  /** Users delete a notebook only once it holds the grant's finalizer. */
  predicate Guarded(s: State, a: Action) {
    a.Delete? && a.k in s.notebooks && !s.notebooks[a.k].deleting ==> GrantFinalizer in s.notebooks[a.k].finalizers
  }

  ghost predicate GuardedRun(s: State, actions: seq<Action>)
    decreases |actions|
  {
    actions != [] ==> Guarded(s, actions[0]) && GuardedRun(Next(s, actions[0]), actions[1..])
  }

  lemma {:induction false} UserStep(s: State, a: Action, j: Key)
    requires Placed(s) && Guarded(s, a) && !ByWorker(a) && Answers(s, j)
    ensures Answers(Next(s, a), j) && Next(s, a).grants == s.grants
  {
    assert GrantFacts(s, j);
    if a.EditFinalizers? && a.k in s.notebooks { EditKeeps(s, a.k, a.others, GrantFinalizer); }
  }

  lemma {:induction false} WorkerStep(s: State, a: Action, j: Key)
    requires Placed(s) && ByWorker(a) && !a.ReleaseGrant? && Answers(s, j)
    ensures Answers(Next(s, a), j)
  {
    assert GrantFacts(s, j);
    if a.Finish? && a.k == j {
      FinishAnswers(s, a, j);
    } else if j != a.k {
      OtherWorkersStay(s, a, j);
    }
  }

  lemma {:induction false} FinishAnswers(s: State, a: Action, k: Key)
    requires a.Finish? && a.k == k && Answers(s, k)
    ensures Answers(Next(s, a), k)
  {
    if Holds(s, k, GrantFinalizer) && !Handled(s, k) { FinishHolds(s, a, k, GrantFinalizer); }
  }

  lemma {:induction false} GrantsOnlyGrow(s: State, a: Action)
    requires !a.ReleaseGrant?
    ensures Next(s, a).grants == s.grants
      || (a.EnsureGrant? && WorkerOf(s, a.k).Live? && Next(s, a).grants == s.grants + {a.k.namespace})
  {}

  lemma {:induction false} EnsureAnswers(s: State, a: Action)
    requires a.EnsureGrant? && GrantFacts(s, a.k) && WorkerOf(s, a.k).Live?
    ensures Answers(Next(s, a), a.k)
  {}

  /** Dealing with the grant: it goes, or an active notebook answers for it. */
  lemma {:induction false} ReleaseAccounts(s: State, a: Action, k: Key, ns: string)
    requires Placed(s) && !Orphaned(s, ns) && a.ReleaseGrant? && a.k == k
    ensures !Orphaned(Next(s, a), ns)
  {
    var t := Next(s, a);
    assert GrantFacts(s, k);
    assert t.notebooks == s.notebooks && t.grants <= s.grants;
    if ns in t.grants {
      var j: Key :| j.namespace == ns && Answers(s, j);
      if j == k && Handled(t, k) {
        var i: Key :| i in s.notebooks && i.namespace == k.namespace && i.name != k.name && !s.notebooks[i].deleting;
        assert Answers(t, i);
      } else {
        assert Answers(t, j);
      }
    }
  }

  /** A deletion that harms orphans the grant; every other one leaves it answered for. */
  lemma {:induction false} UnguardedDelete(s: State, k: Key, ns: string)
    requires Placed(s) && !Orphaned(s, ns)
    ensures Orphaned(Next(s, Delete(k)), ns) <==> Harms(s, Delete(k), ns)
  {
    var t := Next(s, Delete(k));
    assert t.grants == s.grants && t.workers == s.workers;
    assert GrantFacts(s, k);
    forall j | j != k ensures Answers(t, j) <==> Answers(s, j) {}
    if ns in s.grants {
      var j: Key :| j.namespace == ns && Answers(s, j);
      if j == k {
        assert Answers(t, k) <==> !Active(s, k) || Holds(s, k, GrantFinalizer);
      } else {
        assert Answers(t, j);
      }
    }
  }

  /** What no deletion orphans stays answered for, step by step. */
  lemma {:induction false} StepAccounts(s: State, a: Action, ns: string)
    requires Placed(s) && !Orphaned(s, ns)
    ensures Orphaned(Next(s, a), ns) <==> Harms(s, a, ns)
  {
    hide Next, Placed, Guarded, Answers;
    var t := Next(s, a);
    if a.ReleaseGrant? {
      ReleaseAccounts(s, a, a.k, ns);
    } else if a.Delete? {
      UnguardedDelete(s, a.k, ns);
    } else {
      GrantsOnlyGrow(s, a);
      if ns in s.grants {
        var j: Key :| j.namespace == ns && Answers(s, j);
        if ByWorker(a) { WorkerStep(s, a, j); } else { UserStep(s, a, j); }
      } else if ns in t.grants {
        PlacedAt(s, a.k);
        EnsureAnswers(s, a);
      }
    }
  }

  lemma {:induction false} PlacedAt(s: State, k: Key)
    requires Placed(s)
    ensures GrantFacts(s, k)
  {}

  lemma {:induction false} EntryElsewhere(s: State, a: Action, j: Key)
    requires a.PutRoute? || a.DropRoute? || a.k != j
    ensures j in Next(s, a).notebooks <==> j in s.notebooks
    ensures j in s.notebooks ==> Next(s, a).notebooks[j] == s.notebooks[j]
  {
    hide WorkerOf, IsLast, Lists, Others;
  }

  lemma {:induction false} NewAnswerByUser(s: State, a: Action)
    requires (a.Create? || a.Delete? || a.EditFinalizers?) && GrantFacts(s, a.k) && !Answers(s, a.k)
    ensures Answers(Next(s, a), a.k) ==> Revives(s, a, a.k.namespace)
  {
    if a.EditFinalizers? && a.k in s.notebooks { EditKeeps(s, a.k, a.others, GrantFinalizer); }
  }

  lemma {:induction false} NewAnswerByWorker(s: State, a: Action)
    requires ByWorker(a) && GrantFacts(s, a.k) && !Answers(s, a.k)
    ensures Answers(Next(s, a), a.k) ==> Revives(s, a, a.k.namespace)
  {}

  /** Nothing but a revival makes a notebook answer that did not. */
  lemma {:induction false} NewAnswer(s: State, a: Action, j: Key)
    requires Placed(s) && !Answers(s, j)
    ensures Answers(Next(s, a), j) ==> !a.PutRoute? && !a.DropRoute? && a.k == j && Revives(s, a, j.namespace)
  {
    hide Next, GrantFacts, Revives;
    assert GrantFacts(s, j);
    if a.PutRoute? || a.DropRoute? || a.k != j {
      EntryElsewhere(s, a, j);
      OtherWorkersStay(s, a, j);
    } else if ByWorker(a) {
      NewAnswerByWorker(s, a);
    } else {
      NewAnswerByUser(s, a);
    }
  }

  lemma {:induction false} RevivalAnswers(s: State, a: Action)
    requires Placed(s) && (a.Create? || a.Crash? || a.Finish?) && Revives(s, a, a.k.namespace)
    ensures Answers(Next(s, a), a.k)
  {
    assert GrantFacts(s, a.k);
  }

  lemma {:induction false} OrphanKept(s: State, a: Action, ns: string)
    requires Placed(s) && Orphaned(s, ns)
    ensures ns in Next(s, a).grants
  {
    if a.ReleaseGrant? && a.k.namespace == ns {
      assert GrantFacts(s, a.k);
      assert !Answers(s, a.k);
    }
  }

  lemma {:induction false} UnansweredIsGone(s: State, k: Key)
    requires !AnsweredFor(s, k.namespace)
    ensures !Active(s, k)
  {
    assert !Answers(s, k);
  }

  /** An orphaned grant stays orphaned until something revives its namespace. */
  lemma {:induction false} StepOrphans(s: State, a: Action, ns: string)
    requires Placed(s) && Orphaned(s, ns)
    ensures Orphaned(Next(s, a), ns) <==> !Revives(s, a, ns)
    ensures !Harms(s, a, ns)
  {
    hide Next, Placed;
    var t := Next(s, a);
    OrphanKept(s, a, ns);
    if Revives(s, a, ns) {
      RevivalAnswers(s, a);
    } else if AnsweredFor(t, ns) {
      var j: Key :| j.namespace == ns && Answers(t, j);
      NewAnswer(s, a, j);
    }
    if a.Delete? && a.k.namespace == ns { UnansweredIsGone(s, a.k); }
  }

  lemma {:induction false} RunOrphans(s: State, actions: seq<Action>, ns: string)
    requires Placed(s)
    ensures Orphaned(Run(s, actions), ns) <==>
      (Orphaned(s, ns) && Unrevived(s, actions, ns)) || Stranded(s, actions, ns)
    decreases |actions|
  {
    hide Next, Placed, Orphaned, Harms, Revives;
    if actions != [] {
      StepKeepsPlaced(s, actions[0]);
      RunOrphans(Next(s, actions[0]), actions[1..], ns);
      if Orphaned(s, ns) { StepOrphans(s, actions[0], ns); } else { StepAccounts(s, actions[0], ns); }
    }
  }

  lemma {:induction false} AnsweredExists(s: State, ns: string)
    requires AnsweredFor(s, ns)
    ensures exists k :: k in s.notebooks && k.namespace == ns
  {
    var k: Key :| k.namespace == ns && Answers(s, k);
    assert k in s.notebooks && k.namespace == ns;
  }

  lemma {:induction false} GuardedIsUnharmed(s: State, actions: seq<Action>, ns: string)
    requires GuardedRun(s, actions)
    ensures !Stranded(s, actions, ns)
    decreases |actions|
  {
    hide Next, Unrevived;
    if actions != [] { GuardedIsUnharmed(Next(s, actions[0]), actions[1..], ns); }
  }

  /** Over every run: a namespace that ends up without notebooks holds a grant if and only if some
      deletion harmed it, and nothing revived it afterwards. */
  lemma {:induction false} GrantLeftExactly(actions: seq<Action>, ns: string)
    requires forall k <- Run(EMPTY, actions).notebooks :: k.namespace != ns
    ensures ns in Run(EMPTY, actions).grants <==> Stranded(EMPTY, actions, ns)
  {
    hide Next, Run, Unrevived, Stranded;
    assert Placed(EMPTY) && !Orphaned(EMPTY, ns);
    RunOrphans(EMPTY, actions, ns);
    var s := Run(EMPTY, actions);
    if AnsweredFor(s, ns) { AnsweredExists(s, ns); }
  }

  /** Over every run in which users delete notebooks only once they hold the finalizer: a
      namespace without notebooks holds no grant. */
  lemma {:induction false} NoGrantLeft(actions: seq<Action>, ns: string)
    requires GuardedRun(EMPTY, actions)
    requires forall k <- Run(EMPTY, actions).notebooks :: k.namespace != ns
    ensures ns !in Run(EMPTY, actions).grants
  {
    hide Next, Run, GuardedRun, Stranded;
    GuardedIsUnharmed(EMPTY, actions, ns);
    GrantLeftExactly(actions, ns);
  }

  // ----- Why the hypotheses are there ---------------------------------------------------------------

  const BOTH := {RouteFinalizer, GrantFinalizer}
  const NEW := Entry({}, false, false)

  /** Two notebooks; the first is reconciled and deleted, and cleaned up while the second is there;
      then the second goes, before its first reconcile. */
  function LeavingBehind(a: Key, b: Key): seq<Action> {
    var end := [Finish(a, false, Answered), Delete(b)];
    var release := [DeleteListed(a, Answered), ReleaseGrant(a, Answered)] + end;
    var list := [Read(a), ListRoutes(a, [], Answered)] + release;
    var delete := [Crash(a), Delete(a)] + list;
    var ensure := [Read(a), EnsureGrant(a, Answered)] + delete;
    [Create(a, {}), Create(b, {})] + ([Read(a), AddFinalizers(a, false, Answered)] + ensure)
  }

  lemma {:induction false} RunTwo(s: State, x: Action, y: Action, rest: seq<Action>)
    ensures Run(s, [x, y] + rest) == Run(Next(Next(s, x), y), rest)
    ensures Run(s, [x, y]) == Next(Next(s, x), y)
  {
    assert ([x, y] + rest)[1..] == [y] + rest && ([y] + rest)[1..] == rest;
    assert [x, y][1..] == [y] && [y][1..] == [];
    assert Run(s, [x, y]) == Run(Next(s, x), [y]) == Run(Next(Next(s, x), y), []);
  }

  lemma {:induction false} Introduced(a: Key, b: Key)
    requires a != b
    ensures Next(Next(EMPTY, Create(a, {})), Create(b, {})) == State(map[a := NEW, b := NEW], map[], {}, map[])
  {}

  lemma {:induction false} FinalizersAdded(a: Key, b: Key)
    requires a != b
    ensures Next(Next(State(map[a := NEW, b := NEW], map[], {}, map[]), Read(a)), AddFinalizers(a, false, Answered))
         == State(map[a := Entry(BOTH, false, false), b := NEW], map[], {}, map[a := Idle])
  {
    var s := State(map[a := NEW, b := NEW], map[], {}, map[]);
    var t := s.(workers := map[a := Adding]);
    assert Next(s, Read(a)) == t;
    assert NEW.finalizers + {RouteFinalizer, GrantFinalizer} + {} == BOTH;
    assert WithEntry(t, a, NEW.(finalizers := BOTH)).notebooks == map[a := Entry(BOTH, false, false), b := NEW];
  }

  lemma {:induction false} Reconciled(a: Key, b: Key)
    requires a != b
    ensures Next(Next(State(map[a := Entry(BOTH, false, false), b := NEW], map[], {}, map[a := Idle]), Read(a)),
      EnsureGrant(a, Answered))
         == State(map[a := Entry(BOTH, false, true), b := NEW], map[], {a.namespace}, map[a := Live])
  {
    var s := State(map[a := Entry(BOTH, false, false), b := NEW], map[], {}, map[a := Idle]);
    assert Next(s, Read(a)) == s.(workers := map[a := Live]);
  }

  /** The deletion of `a` from its first read on, with `w` its worker's place. */
  function Cleaning(a: Key, b: Key, w: Worker): State {
    State(map[a := Entry(BOTH, true, true), b := NEW], map[], {a.namespace}, map[a := w])
  }

  lemma {:induction false} Deleted(a: Key, b: Key)
    requires a != b
    ensures Next(Next(State(map[a := Entry(BOTH, false, true), b := NEW], map[], {a.namespace}, map[a := Live]),
      Crash(a)), Delete(a))
         == Cleaning(a, b, Idle)
  {
    var s := State(map[a := Entry(BOTH, false, true), b := NEW], map[], {a.namespace}, map[a := Idle]);
    assert WithEntry(s, a, Entry(BOTH, true, true)) == Cleaning(a, b, Idle);
  }

  lemma {:induction false} Listed(a: Key, b: Key)
    requires a != b
    ensures Next(Next(Cleaning(a, b, Idle), Read(a)), ListRoutes(a, [], Answered))
      == Cleaning(a, b, Deleting(BOTH, [], true))
  {
    assert Next(Cleaning(a, b, Idle), Read(a)) == Cleaning(a, b, Listing(BOTH));
  }

  lemma {:induction false} GrantKept(a: Key, b: Key)
    requires a != b && a.namespace == b.namespace
    ensures Next(Next(Cleaning(a, b, Deleting(BOTH, [], true)), DeleteListed(a, Answered)), ReleaseGrant(a, Answered))
         == Cleaning(a, b, Finishing(BOTH))
  {
    var s := Cleaning(a, b, Granting(BOTH, {RouteFinalizer}));
    assert Next(Cleaning(a, b, Deleting(BOTH, [], true)), DeleteListed(a, Answered)) == s;
    assert !IsLast(s, a) by { assert b in s.notebooks && b.name != a.name && !s.notebooks[b].deleting; }
    assert {RouteFinalizer} + {GrantFinalizer} == BOTH;
  }

  lemma {:induction false} BothGone(a: Key, b: Key)
    requires a != b
    ensures Next(Next(Cleaning(a, b, Finishing(BOTH)), Finish(a, false, Answered)), Delete(b))
         == State(map[], map[], {a.namespace}, map[a := Idle])
  {
    assert BOTH - BOTH - {} == {};
    var s := State(map[b := NEW], map[], {a.namespace}, map[a := Idle]);
    assert Next(Cleaning(a, b, Finishing(BOTH)), Finish(a, false, Answered)) == s;
  }

  /** Without the guard the grant is left behind: a deletion finds a second notebook and keeps the
      grant for it, and that one goes before its first reconcile. */
  lemma {:induction false} GrantLeftBehind(a: Key, b: Key)
    requires a != b && a.namespace == b.namespace
    ensures Run(EMPTY, LeavingBehind(a, b)).notebooks == map[]
    ensures a.namespace in Run(EMPTY, LeavingBehind(a, b)).grants
  {
    hide Next, Run;
    Introduced(a, b);
    FinalizersAdded(a, b);
    Reconciled(a, b);
    Deleted(a, b);
    Listed(a, b);
    GrantKept(a, b);
    BothGone(a, b);
    var end := [Finish(a, false, Answered), Delete(b)];
    var release := [DeleteListed(a, Answered), ReleaseGrant(a, Answered)] + end;
    var list := [Read(a), ListRoutes(a, [], Answered)] + release;
    var delete := [Crash(a), Delete(a)] + list;
    var ensure := [Read(a), EnsureGrant(a, Answered)] + delete;
    RunTwo(EMPTY, Create(a, {}), Create(b, {}), [Read(a), AddFinalizers(a, false, Answered)] + ensure);
    RunTwo(State(map[a := NEW, b := NEW], map[], {}, map[]), Read(a), AddFinalizers(a, false, Answered), ensure);
    RunTwo(State(map[a := Entry(BOTH, false, false), b := NEW], map[], {}, map[a := Idle]), Read(a),
      EnsureGrant(a, Answered), delete);
    RunTwo(State(map[a := Entry(BOTH, false, true), b := NEW], map[], {a.namespace}, map[a := Live]), Crash(a),
      Delete(a), list);
    RunTwo(Cleaning(a, b, Idle), Read(a), ListRoutes(a, [], Answered), release);
    RunTwo(Cleaning(a, b, Deleting(BOTH, [], true)), DeleteListed(a, Answered), ReleaseGrant(a, Answered), end);
    RunTwo(Cleaning(a, b, Finishing(BOTH)), Finish(a, false, Answered), Delete(b), []);
  }

  /** Counting and deleting are taken as one step. Were they two, a notebook reconciled in between
      would lose its grant to the stale count, from every state. */
  lemma {:induction false} StaleCount(s: State, a: Key, b: Key)
    requires a in s.notebooks && IsLast(s, a)
    requires b !in s.notebooks && b.namespace == a.namespace && WorkerOf(s, b).Idle?
    ensures var t := Next(Next(Next(s, Create(b, {RouteFinalizer, GrantFinalizer})), Read(b)),
      EnsureGrant(b, Answered));
      !GrantHeld(t.(grants := t.grants - {a.namespace}))
  {
    var s1 := Next(s, Create(b, {RouteFinalizer, GrantFinalizer}));
    var s2 := Next(s1, Read(b));
    assert WorkerOf(s2, b).Live?;
    var t := Next(s2, EnsureGrant(b, Answered));
    assert b in t.notebooks && t.notebooks[b].granted && !t.notebooks[b].deleting;
  }
}
