/** What the controller gets done when it is let: one undisturbed reconcile, one undisturbed deletion, and
    what becomes of a call whose answer is lost. The safety theorems of `Lifecycle` hold on top of this. */
module Progress {
  import opened Lifecycle

  lemma {:induction false} RunConcat(s: State, a: seq<Action>, b: seq<Action>)
    ensures Run(s, a + b) == Run(Run(s, a), b)
    decreases |a|
  {
    hide Next;
    if a == [] {
      assert a + b == b;
    } else {
      assert (a + b)[0] == a[0] && (a + b)[1..] == a[1..] + b;
      RunConcat(Next(s, a[0]), a[1..], b);
    }
  }

  lemma {:induction false} RunOne(s: State, a: Action)
    ensures Run(s, [a]) == Next(s, a)
  {
    hide Next;
    assert [a][1..] == [];
  }

  // ----- A reconcile -----------------------------------------------------------------------------

  /** Two passes over a live notebook, of which the first only adds finalizers if there are some missing. */
  function ReconcileOf(k: Key, proxy: bool, route: string): seq<Action> {
    [Read(k), AddFinalizers(k, proxy, Answered), Read(k), EnsureGrant(k, Answered), CreateRoute(k, route, Answered)]
  }

  /** An undisturbed reconcile leaves the notebook with its finalizers, its namespace with the grant, and a
      route of that name: the notebook's own, labelled for it, unless the name was taken. */
  lemma {:induction false} ReconcileProvides(s: State, k: Key, proxy: bool, route: string)
    requires k in s.notebooks && !s.notebooks[k].deleting && WorkerOf(s, k).Idle?
    ensures var t := Run(s, ReconcileOf(k, proxy, route));
      var had := s.notebooks[k].finalizers;
      && t.routes == (if route in s.routes then s.routes else s.routes[route := Route(k, true)])
      && t.grants == s.grants + {k.namespace}
      && k in t.notebooks && t.notebooks - {k} == s.notebooks - {k}
      && t.notebooks[k].finalizers == (if {RouteFinalizer, GrantFinalizer} <= had then had
        else had + {RouteFinalizer, GrantFinalizer} + (if proxy then {ProxyFinalizer} else {}))
      && !t.notebooks[k].deleting && WorkerOf(t, k).Live?
  {
    hide Next, Run;
    var first, rest := [Read(k), AddFinalizers(k, proxy, Answered), Read(k)],
      [EnsureGrant(k, Answered), CreateRoute(k, route, Answered)];
    assert ReconcileOf(k, proxy, route) == first + rest;
    RunConcat(s, first, rest);
    FinalizersThere(s, k, proxy);
    Provided(Run(s, first), k, route);
  }

  lemma {:induction false} FinalizersThere(s: State, k: Key, proxy: bool)
    requires k in s.notebooks && !s.notebooks[k].deleting && WorkerOf(s, k).Idle?
    ensures var t := Run(s, [Read(k), AddFinalizers(k, proxy, Answered), Read(k)]);
      var had := s.notebooks[k].finalizers;
      && t.routes == s.routes && t.grants == s.grants
      && k in t.notebooks && t.notebooks - {k} == s.notebooks - {k}
      && t.notebooks[k].finalizers == (if {RouteFinalizer, GrantFinalizer} <= had then had
        else had + {RouteFinalizer, GrantFinalizer} + (if proxy then {ProxyFinalizer} else {}))
      && !t.notebooks[k].deleting && WorkerOf(t, k).Live?
  {
    hide Run;
    var s1 := Next(s, Read(k));
    var s2 := Next(s1, AddFinalizers(k, proxy, Answered));
    RunTwo(s, Read(k), AddFinalizers(k, proxy, Answered), [Read(k)]);
    RunOne(s2, Read(k));
    assert [Read(k), AddFinalizers(k, proxy, Answered)] + [Read(k)]
        == [Read(k), AddFinalizers(k, proxy, Answered), Read(k)];
    var had := s.notebooks[k].finalizers;
    var added := {RouteFinalizer, GrantFinalizer} + if proxy then {ProxyFinalizer} else {};
    if !({RouteFinalizer, GrantFinalizer} <= had) {
      assert had + added == had + {RouteFinalizer, GrantFinalizer} + (if proxy then {ProxyFinalizer} else {});
      assert s2.notebooks == s.notebooks[k := s.notebooks[k].(finalizers := had + added)];
    }
  }

  lemma {:induction false} Provided(s: State, k: Key, route: string)
    requires k in s.notebooks && !s.notebooks[k].deleting && WorkerOf(s, k).Live?
    ensures var t := Run(s, [EnsureGrant(k, Answered), CreateRoute(k, route, Answered)]);
      && t.routes == (if route in s.routes then s.routes else s.routes[route := Route(k, true)])
      && t.grants == s.grants + {k.namespace}
      && k in t.notebooks && t.notebooks - {k} == s.notebooks - {k}
      && t.notebooks[k].finalizers == s.notebooks[k].finalizers
      && !t.notebooks[k].deleting && WorkerOf(t, k).Live?
  {
    hide Run;
    var s1 := Next(s, EnsureGrant(k, Answered));
    RunTwo(s, EnsureGrant(k, Answered), CreateRoute(k, route, Answered), []);
  }

  lemma {:induction false} RunNothing(s: State)
    ensures Run(s, []) == s
  {}

  /** Switching routes, as a reconcile does when the mode changes: the old name is gone, the new one is
      labelled for the notebook, whoever had it, and no other name is touched. */
  lemma {:induction false} RoutesSwitched(s: State, k: Key, gone: string, name: string)
    requires WorkerOf(s, k).Live? && gone != name
    ensures var t := Run(s, [DeleteRoute(k, gone, Answered), CreateRoute(k, name, Answered),
                             UpdateRoute(k, name, Answered)]);
      && gone !in t.routes && name in t.routes && t.routes[name].owner == k
      && t.routes - {gone, name} == s.routes - {gone, name}
      && t.grants == s.grants && t.notebooks == s.notebooks
  {
    hide Run;
    var s1 := Next(s, DeleteRoute(k, gone, Answered));
    var s2 := Next(s1, CreateRoute(k, name, Answered));
    var last := [UpdateRoute(k, name, Answered)];
    RunTwo(s, DeleteRoute(k, gone, Answered), CreateRoute(k, name, Answered), last);
    RunOne(s2, UpdateRoute(k, name, Answered));
    assert [DeleteRoute(k, gone, Answered), CreateRoute(k, name, Answered)] + last
        == [DeleteRoute(k, gone, Answered), CreateRoute(k, name, Answered), UpdateRoute(k, name, Answered)];
    assert s1.routes == s.routes - {gone};
  }

  // ----- A deletion ---------------------------------------------------------------------------------

  function Times(a: Action, n: nat): seq<Action> {
    if n == 0 then [] else [a] + Times(a, n - 1)
  }

  function DeletionOf(k: Key, listed: seq<string>): seq<Action> {
    [Read(k), ListRoutes(k, listed, Answered)] + Times(DeleteListed(k, Answered), |listed| + 1)
      + [ReleaseGrant(k, Answered), Finish(k, true, Answered)]
  }

  /** No other notebook of the namespace stays. */
  predicate NoneStays(s: State, k: Key) {
    forall j <- s.notebooks :: j.namespace == k.namespace && j != k ==> s.notebooks[j].deleting
  }

  /** An undisturbed deletion. With the finalizers there, the notebook's routes go and no other; the grant of
      its namespace goes exactly if no other notebook stays; and the notebook itself, unless somebody else's
      finalizers hold it. */
  lemma {:induction false} DeletionReleases(s: State, k: Key, listed: seq<string>)
    requires k in s.notebooks && s.notebooks[k].deleting && WorkerOf(s, k).Idle?
    requires forall n :: n in listed <==> n in s.routes && s.routes[n].owner == k
    ensures var t := Run(s, DeletionOf(k, listed));
      var had := s.notebooks[k].finalizers;
      && t.routes == (if RouteFinalizer in had then map n | n in s.routes && s.routes[n].owner != k :: s.routes[n]
        else s.routes)
      && t.grants == (if GrantFinalizer in had && NoneStays(s, k) then s.grants - {k.namespace} else s.grants)
      && t.notebooks - {k} == s.notebooks - {k}
      && (k in t.notebooks <==> had - {RouteFinalizer, GrantFinalizer, ProxyFinalizer} != {})
      && (k in t.notebooks ==>
        t.notebooks[k].finalizers == had - {RouteFinalizer, GrantFinalizer, ProxyFinalizer})
  {
    hide Next, Run, Times, IsLast, Lists;
    var had := s.notebooks[k].finalizers;
    var start, drain, end := [Read(k), ListRoutes(k, listed, Answered)], Times(DeleteListed(k, Answered), |listed| + 1),
      [ReleaseGrant(k, Answered), Finish(k, true, Answered)];
    RunConcat(s, start + drain, end);
    RunConcat(s, start, drain);
    ReadAndList(s, k, listed);
    var gone := if RouteFinalizer in had then {RouteFinalizer} else {};
    var routes := if RouteFinalizer in had then map n | n in s.routes && s.routes[n].owner != k :: s.routes[n]
      else s.routes;
    if RouteFinalizer in had {
      Drained(s.(workers := s.workers[k := Deleting(had, listed, true)]), k, had, listed);
      assert s.routes - (set n | n in listed) == routes;
    } else {
      NothingDrained(Run(s, start), k, had, |listed| + 1);
    }
    var s1 := s.(workers := s.workers[k := Granting(had, gone)], routes := routes);
    assert s.workers[k := Deleting(had, listed, true)][k := Granting(had, gone)]
        == s.workers[k := Granting(had, gone)];
    assert Run(Run(s, start), drain) == s1;
    Released(s1, k, had, gone);
    LastIsNoneStays(s, s1, k);
  }

  lemma {:induction false} LastIsNoneStays(s: State, s1: State, k: Key)
    requires s1.notebooks == s.notebooks
    ensures IsLast(s1, k) <==> NoneStays(s, k)
  {
    if NoneStays(s, k) {
      forall j | j in s1.notebooks && j.namespace == k.namespace && j.name != k.name ensures s1.notebooks[j].deleting {
        assert j != k;
      }
    }
  }

  lemma {:induction false} ReadAndList(s: State, k: Key, listed: seq<string>)
    requires k in s.notebooks && s.notebooks[k].deleting && WorkerOf(s, k).Idle?
    requires forall n :: n in listed <==> n in s.routes && s.routes[n].owner == k
    ensures var had := s.notebooks[k].finalizers;
      Run(s, [Read(k), ListRoutes(k, listed, Answered)])
      == s.(workers := s.workers[k := if RouteFinalizer in had then Deleting(had, listed, true)
        else Granting(had, {})])
  {
    hide Run;
    var had := s.notebooks[k].finalizers;
    var s1 := Next(s, Read(k));
    assert s1 == s.(workers := s.workers[k := Listing(had)]);
    assert Lists(s1, k, listed);
    RunTwo(s, Read(k), ListRoutes(k, listed, Answered), []);
    var w := if RouteFinalizer in had then Deleting(had, listed, true) else Granting(had, {});
    assert s.workers[k := Listing(had)][k := w] == s.workers[k := w];
  }

  /** Every listed route goes, one call after the other. */
  lemma {:induction false} Drained(s: State, k: Key, had: set<Finalizer>, left: seq<string>)
    requires WorkerOf(s, k) == Deleting(had, left, true)
    ensures Run(s, Times(DeleteListed(k, Answered), |left| + 1))
         == s.(workers := s.workers[k := Granting(had, {RouteFinalizer})], routes := s.routes - (set n | n in left))
    decreases |left|
  {
    hide Run;
    var a := DeleteListed(k, Answered);
    RunConcat(s, [a], Times(a, |left|));
    RunOne(s, a);
    if left == [] {
      assert Times(a, 0) == [] && s.routes - (set n | n in left) == s.routes;
      RunNothing(Next(s, a));
    } else {
      var s1 := Next(s, a);
      Drained(s1, k, had, left[1..]);
      assert s1.routes - (set n | n in left[1..]) == s.routes - (set n | n in left);
      assert s.workers[k := Deleting(had, left[1..], true)][k := Granting(had, {RouteFinalizer})]
          == s.workers[k := Granting(had, {RouteFinalizer})];
    }
  }

  lemma {:induction false} NothingDrained(s: State, k: Key, had: set<Finalizer>, n: nat)
    requires WorkerOf(s, k) == Granting(had, {})
    ensures Run(s, Times(DeleteListed(k, Answered), n)) == s
  {
    hide Run;
    if n == 0 {
      RunNothing(s);
    } else {
      RunConcat(s, [DeleteListed(k, Answered)], Times(DeleteListed(k, Answered), n - 1));
      RunOne(s, DeleteListed(k, Answered));
      NothingDrained(s, k, had, n - 1);
    }
  }

  lemma {:induction false} Released(s: State, k: Key, had: set<Finalizer>, gone: set<Finalizer>)
    requires k in s.notebooks && s.notebooks[k].deleting && s.notebooks[k].finalizers == had
    requires WorkerOf(s, k) == Granting(had, gone) && gone == if RouteFinalizer in had then {RouteFinalizer} else {}
    ensures var t := Run(s, [ReleaseGrant(k, Answered), Finish(k, true, Answered)]);
      && t.routes == s.routes && t.notebooks - {k} == s.notebooks - {k}
      && t.grants == (if GrantFinalizer in had && IsLast(s, k) then s.grants - {k.namespace} else s.grants)
      && (k in t.notebooks <==> had - {RouteFinalizer, GrantFinalizer, ProxyFinalizer} != {})
      && (k in t.notebooks ==>
        t.notebooks[k].finalizers == had - {RouteFinalizer, GrantFinalizer, ProxyFinalizer})
  {
    hide Run, Next, IsLast;
    var cleaned := if GrantFinalizer in had then gone + {GrantFinalizer} else gone;
    RunTwo(s, ReleaseGrant(k, Answered), Finish(k, true, Answered), []);
    GrantReleased(s, k, had, gone);
    Finished(Next(s, ReleaseGrant(k, Answered)), k, had, cleaned);
    assert had - cleaned - {ProxyFinalizer} == had - {RouteFinalizer, GrantFinalizer, ProxyFinalizer};
  }

  lemma {:induction false} GrantReleased(s: State, k: Key, had: set<Finalizer>, gone: set<Finalizer>)
    requires WorkerOf(s, k) == Granting(had, gone)
    ensures Next(s, ReleaseGrant(k, Answered)) ==
      s.(workers := s.workers[k := Finishing(if GrantFinalizer in had then gone + {GrantFinalizer} else gone)],
         grants := if GrantFinalizer in had && IsLast(s, k) then s.grants - {k.namespace} else s.grants)
  {
    hide IsLast;
  }

  lemma {:induction false} Finished(s: State, k: Key, had: set<Finalizer>, cleaned: set<Finalizer>)
    requires k in s.notebooks && s.notebooks[k].deleting && s.notebooks[k].finalizers == had
    requires WorkerOf(s, k) == Finishing(cleaned)
    ensures var t := Next(s, Finish(k, true, Answered));
      && t.routes == s.routes && t.grants == s.grants && t.notebooks - {k} == s.notebooks - {k}
      && (k in t.notebooks <==> had - cleaned - {ProxyFinalizer} != {})
      && (k in t.notebooks ==> t.notebooks[k].finalizers == had - cleaned - {ProxyFinalizer})
  {}

  // ----- Lost answers ----------------------------------------------------------------------------------

  /** `a` is a call of notebook `k`'s worker that writes; `a` with its fate replaced. */
  function WithFate(a: Action, fate: Fate): Action {
    match a
    case AddFinalizers(k, proxy, _) => AddFinalizers(k, proxy, fate)
    case EnsureGrant(k, _) => EnsureGrant(k, fate)
    case CreateRoute(k, name, _) => CreateRoute(k, name, fate)
    case UpdateRoute(k, name, _) => UpdateRoute(k, name, fate)
    case DeleteRoute(k, name, _) => DeleteRoute(k, name, fate)
    case DeleteListed(k, _) => DeleteListed(k, fate)
    case ReleaseGrant(k, _) => ReleaseGrant(k, fate)
    case Finish(k, proxyCleaned, _) => Finish(k, proxyCleaned, fate)
    case _ => a
  }

  predicate Writes(a: Action) {
    a.AddFinalizers? || a.EnsureGrant? || a.CreateRoute? || a.UpdateRoute? || a.DeleteRoute? || a.DeleteListed?
    || a.ReleaseGrant? || a.Finish?
  }

  /** The same stored objects: routes, grants, and notebooks with their finalizers. */
  ghost predicate SameObjects(s: State, t: State) {
    && s.routes == t.routes && s.grants == t.grants && s.notebooks.Keys == t.notebooks.Keys
    && forall k <- s.notebooks ::
      s.notebooks[k].finalizers == t.notebooks[k].finalizers && s.notebooks[k].deleting == t.notebooks[k].deleting
  }

  /** A call lost on its way changes no object; one whose answer is lost changes what the answered one does. */
  lemma {:induction false} LostAnswers(s: State, a: Action)
    requires Writes(a) && forall k <- s.notebooks :: !(s.notebooks[k].deleting && s.notebooks[k].finalizers == {})
    ensures SameObjects(Next(s, WithFate(a, LostBefore)), s)
    ensures SameObjects(Next(s, WithFate(a, LostAfter)), Next(s, WithFate(a, Answered)))
  {
    hide Next, SameObjects;
    LostOnItsWay(s, a);
    if a.AddFinalizers? || a.EnsureGrant? || a.Finish? { LateEntry(s, a); } else { LateObjects(s, a); }
  }

  lemma {:induction false} LostOnItsWay(s: State, a: Action)
    requires Writes(a)
    ensures SameObjects(Next(s, WithFate(a, LostBefore)), s)
  {
    hide IsLast, Lists, WithEntry;
  }

  lemma {:induction false} LateObjects(s: State, a: Action)
    requires a.CreateRoute? || a.UpdateRoute? || a.DeleteRoute? || a.DeleteListed? || a.ReleaseGrant?
    ensures SameObjects(Next(s, WithFate(a, LostAfter)), Next(s, WithFate(a, Answered)))
  {
    hide IsLast, Lists, WithEntry;
  }

  lemma {:induction false} LateEntry(s: State, a: Action)
    requires a.AddFinalizers? || a.EnsureGrant? || a.Finish?
    requires forall k <- s.notebooks :: !(s.notebooks[k].deleting && s.notebooks[k].finalizers == {})
    ensures SameObjects(Next(s, WithFate(a, LostAfter)), Next(s, WithFate(a, Answered)))
  {
    hide IsLast, Lists;
  }
}
