/** The route calls of one reconcile: conflicting routes out, the desired route in, against an API
    server that may fail any call. */
module RouteReconcile {
  import opened PodModel
  import opened Lifecycle
  import opened Routes
  import Deletion

  const MAX_NAME := 63

  /** The name a new route gets: its own, or a generated one when that is too long. */
  function NewName(k: Key, generated: string): string {
    if |RouteName(k)| > MAX_NAME then generated else RouteName(k)
  }

  ghost predicate Only(routes: map<string, HttpRoute>, k: Key, n: string) {
    forall m <- routes :: LabelledFor(routes[m], k) <==> m == n
  }

  /** The name a route is created under has at most 63 characters of its own making. */
  lemma {:induction false} NameGiven(k: Key, generated: string)
    ensures NewName(k, generated)
         == if |k.namespace| + |k.name| <= 59 then "nb-" + k.namespace + "-" + k.name else generated
  {
    assert |"nb-"| == 3 && |RouteName(k)| == 4 + |k.namespace| + |k.name|;
  }

  /** Exactly one route labelled for the notebook, the desired one; or none at all. */
  ghost predicate Converged(routes: map<string, HttpRoute>, k: Key, desired: Option<HttpRoute>) {
    match desired
    case None => forall n <- routes :: !LabelledFor(routes[n], k)
    case Some(d) => exists n :: n in routes && routes[n] == d && Only(routes, k, n)
  }

  /** Bears the notebook's name and namespace. */
  predicate Bears(r: HttpRoute, k: Key) {
    && "notebook-name" in r.labels && r.labels["notebook-name"] == k.name
    && "notebook-namespace" in r.labels && r.labels["notebook-namespace"] == k.namespace
  }

  /** One route bears the notebook's labels, and it leads there. */
  ghost predicate Reachable(routes: map<string, HttpRoute>, k: Key, auth: bool, gateway: Gateway) {
    exists n :: n in routes && LeadsTo(routes[n], k, auth, gateway) && OnlyBearer(routes, k, n)
  }

  ghost predicate OnlyBearer(routes: map<string, HttpRoute>, k: Key, n: string) {
    forall m <- routes :: Bears(routes[m], k) <==> m == n
  }

  lemma {:induction false} ConvergedReaches(routes: map<string, HttpRoute>, k: Key, auth: bool, gateway: Gateway)
    ensures Converged(routes, k, Some(Desired(k, auth, gateway))) ==> Reachable(routes, k, auth, gateway)
    ensures Converged(routes, k, None) ==> forall n <- routes :: !Bears(routes[n], k)
  {
    hide Desired, LeadsTo;
    DesiredLeads(k, auth, gateway);
    if n :| n in routes && routes[n] == Desired(k, auth, gateway) && Only(routes, k, n) {
      assert OnlyBearer(routes, k, n);
    }
  }

  /** The name is taken by a route that is not labelled for the notebook. */
  predicate Taken(routes: map<string, HttpRoute>, k: Key, name: string) {
    name in routes && !LabelledFor(routes[name], k)
  }

  /** A route labelled for the notebook that the cleanup for this mode leaves in place. */
  predicate Kept(routes: map<string, HttpRoute>, k: Key, auth: bool, n: string) {
    n in routes && LabelledFor(routes[n], k) && !Conflicts(routes[n], k, auth)
  }

  ghost predicate HasRoute(routes: map<string, HttpRoute>, k: Key) {
    exists n :: n in routes && LabelledFor(routes[n], k)
  }

  ghost predicate Several(routes: map<string, HttpRoute>, k: Key) {
    exists m, n :: m != n && m in routes && LabelledFor(routes[m], k) && n in routes && LabelledFor(routes[n], k)
  }

  ghost predicate KeepsOne(routes: map<string, HttpRoute>, k: Key, auth: bool) {
    exists n :: Kept(routes, k, auth, n)
  }

  ghost predicate KeepsSeveral(routes: map<string, HttpRoute>, k: Key, auth: bool) {
    exists m, n :: m != n && Kept(routes, k, auth, m) && Kept(routes, k, auth, n)
  }

  class RouteStore {
    const key: Key
    const replies: nat -> Deletion.Reply
    var calls: nat
    var routes: map<string, HttpRoute>

    constructor (k: Key, r: nat -> Deletion.Reply, routes: map<string, HttpRoute>)
      ensures key == k && replies == r && calls == 0 && this.routes == routes
    {
      key, replies, calls := k, r, 0;
      this.routes := routes;
    }

    /** Every call from number `from` on, up to now, was answered. */
    predicate Clean(from: nat)
      reads this`calls
    {
      forall c :: from <= c < calls ==> replies(c) == Deletion.Ok
    }

    method Call() returns (r: Deletion.Reply)
      modifies `calls
      ensures r == replies(old(calls)) && calls == old(calls) + 1
    {
      r := replies(calls);
      calls := calls + 1;
    }

    /** The names of the routes labelled for the notebook, each once. */
    method List() returns (ok: bool, listed: seq<string>)
      modifies `calls
      ensures calls == old(calls) + 1 && ok == (replies(old(calls)) == Deletion.Ok)
      ensures ok ==> forall n :: n in listed <==> n in routes && LabelledFor(routes[n], key)
      ensures forall i, j :: 0 <= i < j < |listed| ==> listed[i] != listed[j]
    {
      var r := Call();
      if r != Deletion.Ok { return false, []; }
      ok, listed := true, [];
      var left := routes.Keys;
      while left != {}
        invariant left <= routes.Keys
        invariant forall n :: n in listed <==> n in routes && LabelledFor(routes[n], key) && n !in left
        invariant forall i, j :: 0 <= i < j < |listed| ==> listed[i] != listed[j]
        decreases left
      {
        var n :| n in left;
        left := left - {n};
        if LabelledFor(routes[n], key) { listed := listed + [n]; }
      }
    }

    method Delete(name: string) returns (ok: bool)
      modifies `calls, `routes
      ensures calls == old(calls) + 1 && ok == (replies(old(calls)) == Deletion.Ok)
      ensures routes == old(routes) || routes == old(routes) - {name}
      ensures ok ==> routes == old(routes) - {name}
    {
      var r := Call();
      if r == Deletion.Ok || r == Deletion.LostLate { routes := routes - {name}; }
      return r == Deletion.Ok;
    }

    /** Creating under a name that is taken changes nothing and counts as success. */
    method Create(name: string, route: HttpRoute) returns (ok: bool)
      modifies `calls, `routes
      ensures calls == old(calls) + 1 && ok == (replies(old(calls)) == Deletion.Ok)
      ensures routes == old(routes) || (name !in old(routes) && routes == old(routes)[name := route])
      ensures ok ==> routes == if name in old(routes) then old(routes) else old(routes)[name := route]
    {
      var r := Call();
      if (r == Deletion.Ok || r == Deletion.LostLate) && name !in routes { routes := routes[name := route]; }
      return r == Deletion.Ok;
    }

    /** Read and overwrite labels and spec; again on a conflict, at most five times. */
    method Overwrite(name: string, route: HttpRoute) returns (ok: bool)
      requires name in routes
      modifies `calls, `routes
      ensures calls >= old(calls) && (ok <==> Deletion.WriteAnswered(replies, old(calls), Deletion.RETRIES))
      ensures Clean(old(calls)) ==> ok
      ensures routes == old(routes) || routes == old(routes)[name := route]
      ensures ok ==> routes == old(routes)[name := route]
    {
      ghost var start := calls;
      for attempt := 0 to Deletion.RETRIES
        invariant routes == old(routes) && calls >= start && (attempt > 0 ==> !Clean(start))
        invariant Deletion.WriteAnswered(replies, start, Deletion.RETRIES)
             <==> Deletion.WriteAnswered(replies, calls, Deletion.RETRIES - attempt)
      {
        var r := Call();
        assert replies(calls - 1) == r;
        if r != Deletion.Ok { return false; }
        r := Call();
        assert replies(calls - 1) == r;
        if r == Deletion.Ok || r == Deletion.LostLate { routes := routes[name := route]; }
        if r != Deletion.Conflict { return r == Deletion.Ok; }
      }
      return false;
    }

    /** Deletes the routes of the other mode, stopping at the first failure. */
    method EnsureConflictingHTTPRouteAbsent(auth: bool) returns (ok: bool)
      modifies `calls, `routes
      ensures calls >= old(calls) && (ok <==> Clean(old(calls)))
      ensures ok ==> forall n <- routes :: LabelledFor(routes[n], key) ==> !Conflicts(routes[n], key, auth)
      ensures forall n <- routes :: n in old(routes) && routes[n] == old(routes)[n]
      ensures forall n <- old(routes) ::
        !(LabelledFor(old(routes)[n], key) && Conflicts(old(routes)[n], key, auth)) ==> n in routes
    {
      ghost var start := calls;
      var listed;
      ok, listed := List();
      assert replies(calls - 1) == Deletion.Ok <==> ok;
      if !ok { return; }
      assert forall n :: n in listed <==> n in old(routes) && LabelledFor(old(routes)[n], key);
      for i := 0 to |listed|
        invariant calls >= start && Clean(start)
        invariant forall n <- routes :: n in old(routes) && routes[n] == old(routes)[n]
        invariant forall n <- old(routes) ::
          !(LabelledFor(old(routes)[n], key) && Conflicts(old(routes)[n], key, auth)) ==> n in routes
        invariant forall j :: 0 <= j < i && listed[j] in routes ==> !Conflicts(routes[listed[j]], key, auth)
        invariant forall j :: i <= j < |listed| ==> listed[j] in routes
      {
        assert listed[i] in listed;
        if Conflicts(routes[listed[i]], key, auth) {
          var deleted := Delete(listed[i]);
          assert replies(calls - 1) == Deletion.Ok <==> deleted;
          if !deleted { return false; }
        }
      }
      return true;
    }

    method DeleteHTTPRouteForNotebook() returns (ok: bool)
      modifies `calls, `routes
      ensures calls >= old(calls) && (ok <==> Clean(old(calls)))
      ensures ok ==> forall n <- routes :: !LabelledFor(routes[n], key)
      ensures forall n <- routes :: n in old(routes) && routes[n] == old(routes)[n]
      ensures forall n <- old(routes) :: !LabelledFor(old(routes)[n], key) ==> n in routes
    {
      ghost var start := calls;
      var listed;
      ok, listed := List();
      assert replies(calls - 1) == Deletion.Ok <==> ok;
      if !ok { return; }
      assert forall n :: n in listed <==> n in old(routes) && LabelledFor(old(routes)[n], key);
      for i := 0 to |listed|
        invariant calls > start && (ok <==> Clean(start))
        invariant forall n <- routes :: n in old(routes) && routes[n] == old(routes)[n]
        invariant forall n <- old(routes) :: !LabelledFor(old(routes)[n], key) ==> n in routes
        invariant ok ==> forall j :: 0 <= j < i ==> listed[j] !in routes
      {
        assert listed[i] in listed;
        var deleted := Delete(listed[i]);
        assert replies(calls - 1) == Deletion.Ok <==> deleted;
        ok := ok && deleted;
      }
    }

    /** A resolved assignment: the reconcile succeeds exactly when the listing is answered, at most
        one route is labelled for the notebook, and the call it then needs, if any, is. */
    predicate Succeeds(desired: HttpRoute, from: nat)
      reads this`routes
    {
      && replies(from) == Deletion.Ok
      && (forall m, n | m in routes && n in routes :: LabelledFor(routes[m], key) && LabelledFor(routes[n], key) ==>
        m == n)
      && if exists n <- routes :: LabelledFor(routes[n], key) then
           (exists n <- routes :: routes[n] == desired) || Deletion.WriteAnswered(replies, from + 1, Deletion.RETRIES)
         else replies(from + 1) == Deletion.Ok
    }

    /** What success means, by what was there before, and exactly when there is success. */
    method ReconcileHTTPRoute(auth: bool, resolution: Resolution, generated: string) returns (ok: bool)
      requires generated !in routes
      modifies `calls, `routes
      ensures calls >= old(calls)
      ensures resolution.LookupFailed? ==> !ok && routes == old(routes) && calls == old(calls)
      ensures forall n <- routes :: n in old(routes) || n == NewName(key, generated)
      ensures Unresolvable(resolution) ==> (ok <==> Clean(old(calls))) && (ok ==> Converged(routes, key, None))
      ensures resolution.Resolved? ==> (ok <==> old(Succeeds(Desired(key, auth, resolution.ingress.gateway), calls)))
      ensures resolution.Resolved? && Several(old(routes), key) ==> !ok && routes == old(routes)
      ensures resolution.Resolved? && Clean(old(calls)) ==> (ok <==> !Several(old(routes), key))
      ensures resolution.Resolved? && ok ==>
        (HasRoute(old(routes), key) || NewName(key, generated) !in old(routes) <==>
          Converged(routes, key, Some(Desired(key, auth, resolution.ingress.gateway))))
      ensures forall n <- old(routes) :: !LabelledFor(old(routes)[n], key) ==>
        n in routes && routes[n] == old(routes)[n]
      ensures forall n <- routes ::
        || (n in old(routes) && routes[n] == old(routes)[n])
        || (resolution.Resolved? && routes[n] == Desired(key, auth, resolution.ingress.gateway))
    {
      if resolution.LookupFailed? { return false; }
      if Unresolvable(resolution) {
        ok := DeleteHTTPRouteForNotebook();
        return;
      }
      var desired := Desired(key, auth, resolution.ingress.gateway);
      OwnModeKept(key, auth, resolution.ingress.gateway);
      var listed;
      ok, listed := List();
      assert replies(calls - 1) == Deletion.Ok <==> ok;
      if !ok {
        return;
      }
      if |listed| > 1 {
        assert listed[0] in listed && listed[1] in listed;
        return false;
      }
      if |listed| == 1 {
        var n := listed[0];
        OneListed(routes, key, listed);
        if routes[n] != desired { ok := Overwrite(n, desired); }
        assert LabelledFor(old(routes)[n], key) && HasRoute(old(routes), key);
        if ok {
          assert n in routes && routes[n] == desired && Only(routes, key, n);
        }
      } else {
        assert forall n <- old(routes) :: LabelledFor(old(routes)[n], key) ==> n in listed;
        assert !HasRoute(old(routes), key);
        ok := Create(NewName(key, generated), desired);
        assert replies(calls - 1) == Deletion.Ok <==> ok;
        if ok { Created(old(routes), routes, key, NewName(key, generated), desired); }
      }
    }

    /** Cleanup of the other mode and route reconcile, one after the other. With every call answered
        they succeed exactly when the assignment can be looked up and either cannot be resolved or
        leaves at most one route of this mode. When they succeed the notebook has exactly its desired
        route, or none when its ingress cannot be resolved, from any set of routes before; unless it
        had none of this mode and its name was taken. Two routes of this mode are never resolved. */
    method ReconcileMode(auth: bool, resolution: Resolution, generated: string) returns (ok: bool)
      requires generated !in routes
      modifies `calls, `routes
      ensures ok ==> !resolution.LookupFailed?
      ensures Clean(old(calls)) ==>
        (ok <==> !resolution.LookupFailed? && (Unresolvable(resolution) || !KeepsSeveral(old(routes), key, auth)))
      ensures ok ==>
        (Converged(routes, key, RouteFor(key, auth, resolution)) <==>
          Unresolvable(resolution) || KeepsOne(old(routes), key, auth)
            || !Taken(old(routes), key, NewName(key, generated)))
      ensures ok && resolution.Resolved? ==>
        KeepsOne(old(routes), key, auth) || !Taken(old(routes), key, NewName(key, generated)) ==>
          Reachable(routes, key, auth, resolution.ingress.gateway)
      ensures ok && Unresolvable(resolution) ==> forall n <- routes :: !Bears(routes[n], key)
      ensures forall n <- routes :: n in old(routes) || n == NewName(key, generated)
      ensures resolution.Resolved? && KeepsSeveral(old(routes), key, auth) ==> !ok && KeepsSeveral(routes, key, auth)
      ensures forall n <- old(routes) :: !LabelledFor(old(routes)[n], key) ==>
        n in routes && routes[n] == old(routes)[n]
      ensures forall n <- routes ::
        || (n in old(routes) && routes[n] == old(routes)[n])
        || (resolution.Resolved? && routes[n] == Desired(key, auth, resolution.ingress.gateway))
      ensures resolution.Resolved? && KeepsSeveral(old(routes), key, auth) ==> forall n <- routes :: n in old(routes)
    {
      hide Desired, LeadsTo, Bears, Only, OnlyBearer, Reachable, Converged, LabelledFor, Conflicts, NewName, Kept;
      ghost var start := calls;
      ok := EnsureConflictingHTTPRouteAbsent(auth);
      ghost var between, middle := routes, calls;
      CleanupKeeps(old(routes), between, key, auth);
      if !ok { return; }
      CleanupLeaves(old(routes), between, key, auth, NewName(key, generated));
      ok := ReconcileHTTPRoute(auth, resolution, generated);
      assert Clean(start) <==> Clean(middle);
      if ok {
        ConvergedReaches(routes, key, auth, if resolution.Resolved? then resolution.ingress.gateway
          else Gateway("", ""));
      }
    }
  }

  lemma {:induction false} OneListed(routes: map<string, HttpRoute>, k: Key, listed: seq<string>)
    requires |listed| == 1 && forall n :: n in listed <==> n in routes && LabelledFor(routes[n], k)
    ensures listed[0] in routes && Only(routes, k, listed[0])
  {
    assert listed[0] in listed;
  }

  lemma {:induction false} Created(before: map<string, HttpRoute>, after: map<string, HttpRoute>, k: Key, name: string,
                                   desired: HttpRoute)
    requires LabelledFor(desired, k) && forall n <- before :: !LabelledFor(before[n], k)
    requires after == if name in before then before else before[name := desired]
    ensures Converged(after, k, Some(desired)) <==> name !in before
  {
    if name !in before {
      assert name in after && after[name] == desired && Only(after, k, name);
    }
  }

  /** `after` is `before` without some conflicting routes. */
  ghost predicate CleanedUp(before: map<string, HttpRoute>, after: map<string, HttpRoute>, k: Key, auth: bool) {
    && (forall n <- after :: n in before && after[n] == before[n])
    && (forall n <- before :: !(LabelledFor(before[n], k) && Conflicts(before[n], k, auth)) ==> n in after)
  }

  lemma {:induction false} CleanupKeeps(before: map<string, HttpRoute>, after: map<string, HttpRoute>, k: Key,
                                        auth: bool)
    requires CleanedUp(before, after, k, auth)
    ensures forall n :: Kept(after, k, auth, n) <==> Kept(before, k, auth, n)
    ensures KeepsSeveral(after, k, auth) <==> KeepsSeveral(before, k, auth)
  {}

  lemma {:induction false} CleanupLeaves(before: map<string, HttpRoute>, after: map<string, HttpRoute>, k: Key,
                                         auth: bool, name: string)
    requires CleanedUp(before, after, k, auth)
    requires forall n <- after :: LabelledFor(after[n], k) ==> !Conflicts(after[n], k, auth)
    ensures Several(after, k) <==> KeepsSeveral(before, k, auth)
    ensures HasRoute(after, k) <==> KeepsOne(before, k, auth)
    ensures HasRoute(after, k) || name !in after <==> KeepsOne(before, k, auth) || !Taken(before, k, name)
  {
    CleanupKeeps(before, after, k, auth);
    assert forall n :: n in after && LabelledFor(after[n], k) <==> Kept(after, k, auth, n);
  }

  // ----- The other exception ------------------------------------------------------------------

  /** Two routes of the current mode can be there. */
  lemma {:induction false} TwoRoutesOfOneMode(k: Key, auth: bool, g: Gateway, a: string, b: string)
    requires a != b
    ensures KeepsSeveral(map[a := Desired(k, auth, g), b := Desired(k, auth, g)], k, auth)
  {
    var routes := map[a := Desired(k, auth, g), b := Desired(k, auth, g)];
    OwnModeKept(k, auth, g);
    assert Kept(routes, k, auth, a) && Kept(routes, k, auth, b);
  }

  /** Then no pass ever succeeds, however many there are, as long as the ingress can be resolved. */
  method PassesStayStuck(store: RouteStore, auth: bool, resolutions: seq<Resolution>, generated: string)
    returns (succeeded: bool)
    requires KeepsSeveral(store.routes, store.key, auth) && generated !in store.routes
    requires forall i :: 0 <= i < |resolutions| ==> resolutions[i].Resolved?
    modifies store
    ensures !succeeded && KeepsSeveral(store.routes, store.key, auth)
  {
    succeeded := false;
    for i := 0 to |resolutions|
      invariant !succeeded && KeepsSeveral(store.routes, store.key, auth) && generated !in store.routes
    {
      var ok := store.ReconcileMode(auth, resolutions[i], generated);
      succeeded := succeeded || ok;
    }
  }
}
