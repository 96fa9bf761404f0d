/** One deletion pass of the controller, call by call against an API server that may fail any
    call, and the passes repeated until the notebook is let go. */
module Deletion {
  import opened Sequences
  import opened Lifecycle

  /** How one call ends. An update can also meet a newer version of the object. */
  datatype Reply = Ok | Lost | LostLate | Conflict

  const OAUTH_FINALIZER := OtherFinalizer("notebook-oauth-client-finalizer.opendatahub.io")

  function In(fs: set<Finalizer>): Finalizer -> bool { (f: Finalizer) => f !in fs }

  /** Finalizers without some of them, in order. */
  function Without(finalizers: seq<Finalizer>, removed: set<Finalizer>): seq<Finalizer> {
    Sel(finalizers, In(removed))
  }

  /** Attempts to read and then write an object. */
  const RETRIES := 5

  /** Some attempt, of at most `tries` from call `from` on, is answered, and all before it meet a
      conflict on their write. */
  predicate WriteAnswered(replies: nat -> Reply, from: nat, tries: nat)
    decreases tries
  {
    && tries > 0 && replies(from) == Ok
    && (replies(from + 1) == Ok || (replies(from + 1) == Conflict && WriteAnswered(replies, from + 2, tries - 1)))
  }

  class Cluster {
    const key: Key
    const replies: nat -> Reply          // what the calls to come will meet
    var calls: nat
    var present: bool
    var finalizers: seq<Finalizer>
    var others: map<Key, bool>           // the other notebooks; true: being deleted
    var routes: map<string, Key>         // routes in the central namespace, by the notebook they are labelled for
    var grants: set<string>
    var binding: bool                    // the notebook's ClusterRoleBinding
    var client: bool                     // its OAuthClient, from older releases

    constructor (k: Key, r: nat -> Reply, fs: seq<Finalizer>, others: map<Key, bool>, routes: map<string, Key>,
                 grants: set<string>, binding: bool, client: bool)
      ensures key == k && replies == r && calls == 0 && present && finalizers == fs
      ensures this.others == others && this.routes == routes && this.grants == grants
      ensures this.binding == binding && this.client == client
    {
      key, replies, calls, present, finalizers := k, r, 0, true, fs;
      this.others, this.routes, this.grants, this.binding, this.client := others, routes, grants, binding, client;
    }

    /** Every call from number `from` up to, but not including, number `to` is answered. */
    predicate Answered(from: nat, to: nat) {
      forall c :: from <= c < to ==> replies(c) == Ok
    }

    /** Every call from number `from` on, up to now, was answered. */
    predicate Clean(from: nat)
      reads this`calls
    {
      Answered(from, calls)
    }

    method Call() returns (r: Reply)
      modifies `calls
      ensures r == replies(old(calls)) && calls == old(calls) + 1
    {
      r := replies(calls);
      calls := calls + 1;
    }

    predicate Labelled(name: string)
      reads this`routes
    {
      name in routes && routes[name] == key
    }

    // ----- Routes -----------------------------------------------------------------------

    function OwnRoutes(): set<string>
      reads this`routes
    {
      set n | n in routes && routes[n] == key
    }

    /** The names of the notebook's routes, each once. */
    method ListRoutes() returns (ok: bool, listed: seq<string>)
      modifies `calls
      ensures calls == old(calls) + 1 && ok == (replies(old(calls)) == Ok)
      ensures ok ==> (forall n :: n in listed <==> Labelled(n)) && |listed| == |OwnRoutes()|
    {
      var r := Call();
      if r != Ok { return false, []; }
      ok, listed := true, [];
      var left := routes.Keys;
      ghost var seen: set<string> := {};
      while left != {}
        invariant left <= routes.Keys
        invariant forall n :: n in listed <==> n in seen
        invariant forall n :: n in seen <==> Labelled(n) && n !in left
        invariant |listed| == |seen|
        decreases left
      {
        var n :| n in left;
        left := left - {n};
        if routes[n] == key {
          listed := listed + [n];
          seen := seen + {n};
        }
      }
      assert seen == OwnRoutes();
    }

    method DeleteRoute(name: string) returns (ok: bool)
      modifies `calls, `routes
      ensures calls == old(calls) + 1 && ok == (replies(old(calls)) == Ok)
      ensures routes == (if replies(old(calls)) in {Ok, LostLate} then old(routes) - {name} else old(routes))
    {
      var r := Call();
      if r == Ok || r == LostLate { routes := routes - {name}; }
      return r == Ok;
    }

    /** Deletes every listed route; goes on after a failure and reports it at the end. */
    method DeleteHTTPRouteForNotebook() returns (ok: bool)
      modifies `calls, `routes
      ensures calls == old(calls) + 1 + if replies(old(calls)) == Ok then |old(OwnRoutes())| else 0
      ensures ok <==> Clean(old(calls))
      ensures ok ==> forall n :: !Labelled(n)
      ensures forall n :: n in routes ==> n in old(routes) && routes[n] == old(routes)[n]
      ensures forall n :: n in old(routes) && old(routes)[n] != key ==> n in routes
    {
      ghost var start := calls;
      var listed;
      ok, listed := ListRoutes();
      if !ok { return; }
      assert forall n :: n in listed <==> n in old(routes) && old(routes)[n] == key;
      for i := 0 to |listed|
        invariant calls == start + 1 + i && (ok <==> Clean(start))
        invariant ok ==> forall j :: 0 <= j < i ==> listed[j] !in routes
        invariant forall n :: n in routes ==> n in old(routes) && routes[n] == old(routes)[n]
        invariant forall n :: n in old(routes) && old(routes)[n] != key ==> n in routes
      {
        assert listed[i] in listed;
        var deleted := DeleteRoute(listed[i]);
        ok := ok && deleted;
      }
    }

    /** Routes have gone since `before`, but none of another notebook's. */
    ghost predicate OnlyOwnGone(before: map<string, Key>)
      reads this`routes
    {
      && (forall n :: n in routes ==> n in before && routes[n] == before[n])
      && (forall n :: n in before && before[n] != key ==> n in routes)
    }

    // ----- Grant and binding --------------------------------------------------------------

    predicate LastInNamespace()
      reads this`others
    {
      forall k <- others :: k.namespace == key.namespace && k.name != key.name ==> others[k]
    }

    method IsLastNotebookInNamespace() returns (ok: bool, last: bool)
      modifies `calls
      ensures calls == old(calls) + 1 && ok == (replies(old(calls)) == Ok)
      ensures ok ==> last == LastInNamespace()
    {
      var r := Call();
      if r != Ok { return false, false; }
      ok := true;
      var activeCount := 0;
      var left := others.Keys;
      while left != {}
        invariant left <= others.Keys && activeCount >= 0
        invariant activeCount == 0 <==>
          forall k <- others :: k !in left && k.namespace == key.namespace && k.name != key.name ==> others[k]
        decreases left
      {
        var k :| k in left;
        left := left - {k};
        if k.namespace == key.namespace && k.name != key.name && !others[k] { activeCount := activeCount + 1; }
      }
      last := activeCount == 0;
    }

    method DeleteReferenceGrantIfLastNotebook() returns (ok: bool)
      modifies `calls, `grants
      ensures calls == old(calls) + if replies(old(calls)) == Ok && LastInNamespace() then 2 else 1
      ensures ok <==> Clean(old(calls))
      ensures ok ==> grants == if LastInNamespace() then old(grants) - {key.namespace} else old(grants)
      ensures grants == old(grants) || (LastInNamespace() && grants == old(grants) - {key.namespace})
    {
      ghost var start := calls;
      var last;
      ok, last := IsLastNotebookInNamespace();
      if !ok || !last { return; }
      var r := Call();
      if r == Ok || r == LostLate { grants := grants - {key.namespace}; }
      ok := r == Ok;
    }

    method CleanupClusterRoleBinding() returns (ok: bool)
      modifies `calls, `binding
      ensures calls == old(calls) + 1 && (ok <==> Clean(old(calls)))
      ensures ok ==> !binding
      ensures binding ==> old(binding)
    {
      var r := Call();
      if r == Ok || r == LostLate { binding := false; }
      return r == Ok;
    }

    // ----- Finalizers ------------------------------------------------------------------------

    /** Store the finalizers of an object being deleted; the last one gone, so is the object. */
    method Store(fs: seq<Finalizer>) returns (r: Reply)
      requires present
      modifies `calls, `present, `finalizers
      ensures calls == old(calls) + 1 && r == replies(old(calls))
      ensures if r in {Ok, LostLate} then finalizers == fs && present == (fs != [])
        else finalizers == old(finalizers) && present
    {
      r := Call();
      if r == Ok || r == LostLate { finalizers, present := fs, fs != []; }
    }

    /** The number of the call after the OAuth step that starts with call `from`. */
    function OAuthEnd(from: nat): nat
      reads this`client, this`finalizers
    {
      if OAUTH_FINALIZER !in finalizers then from
      else if replies(from) != Ok then from + 1
      else if !client || replies(from + 1) != Ok then from + 2
      else from + 3
    }

    method DropOAuthClient(local: seq<Finalizer>) returns (ok: bool, after: seq<Finalizer>)
      requires present && local == finalizers && OAUTH_FINALIZER in local
      modifies `calls, `client, `present, `finalizers
      ensures calls == old(OAuthEnd(calls)) && (ok <==> Clean(old(calls)))
      ensures ok ==>
        !client && after == Without(local, {OAUTH_FINALIZER}) && finalizers == after && present == (after != [])
      ensures !ok ==> finalizers == local || finalizers == Without(local, {OAUTH_FINALIZER})
      ensures (client ==> old(client)) && (finalizers != local ==> !client)
      ensures local != [] ==> present == (finalizers != [])
    {
      ghost var start := calls;
      after := local;
      var r := Call();
      if r != Ok { return false, local; }
      if client {
        r := Call();
        if r == Ok || r == LostLate { client := false; }
        if r != Ok { return false, local; }
      }
      after := Without(local, {OAUTH_FINALIZER});
      r := Store(after);
      return r == Ok, after;
    }

    /** Read, remove, write; again on a conflict, at most five times. */
    method RemoveFinalizers(removed: set<Finalizer>) returns (ok: bool)
      requires present && exists f :: f in removed && f in finalizers
      modifies `calls, `present, `finalizers
      ensures calls > old(calls) && (ok <==> WriteAnswered(replies, old(calls), RETRIES))
      ensures !ok ==> !Clean(old(calls))
      ensures if ok then finalizers == Without(old(finalizers), removed)
              else finalizers == old(finalizers) || finalizers == Without(old(finalizers), removed)
      ensures present == (finalizers != [])
    {
      ghost var start := calls;
      for attempt := 0 to RETRIES
        invariant calls >= start && (attempt > 0 ==> calls > start && !Clean(start))
        invariant present && finalizers == old(finalizers)
        invariant WriteAnswered(replies, start, RETRIES) <==> WriteAnswered(replies, calls, RETRIES - attempt)
      {
        var r := Call();
        if r != Ok { return false; }
        r := Store(Without(finalizers, removed));
        if r != Conflict {
          assert r != Ok ==> replies(calls - 1) != Ok;
          return r == Ok;
        }
        assert replies(calls - 1) != Ok;
      }
      return false;
    }

    // ----- The pass ------------------------------------------------------------------------------

    function RoutesEnd(needed: bool, from: nat): nat
      reads this`routes
    {
      if !needed then from else from + 1 + if replies(from) == Ok then |OwnRoutes()| else 0
    }

    function GrantEnd(needed: bool, from: nat): nat
      reads this`others
    {
      if !needed then from else if replies(from) == Ok && LastInNamespace() then from + 2 else from + 1
    }

    function BindingEnd(needed: bool, from: nat): nat {
      if needed then from + 1 else from
    }

    /** What the three cleanups achieve, by the replies to their own calls: each counts as achieved
        exactly when all of its calls, if it makes any, are answered. */
    function CleanUps(needs: Needs, from: nat): (o: Outcome)
      reads this`routes, this`others
      ensures o.oauth && o.written
    {
      var b := RoutesEnd(needs.routes, from);
      var c := GrantEnd(needs.grant, b);
      Outcome(true, Answered(from, b), Answered(b, c), Answered(c, BindingEnd(needs.binding, c)), true)
    }

    function CleanUpsEnd(needs: Needs, from: nat): nat
      reads this`routes, this`others
    {
      BindingEnd(needs.binding, GrantEnd(needs.grant, RoutesEnd(needs.routes, from)))
    }

    /** What a whole pass achieves, by the replies to its calls. */
    function Expected(inject: bool, from: nat): Outcome
      reads this`routes, this`others, this`finalizers, this`client
    {
      var a, needs := OAuthEnd(from), NeedsOf(finalizers, inject);
      var o := CleanUps(needs, a).(oauth := Answered(from, a));
      o.(written := ToRemove(finalizers, o) == {} || WriteAnswered(replies, CleanUpsEnd(needs, a), RETRIES))
    }

    /** What the cleanups leave: what is achieved is gone, what is not needed is as it was, and no route
        of another notebook and no grant that another notebook needs is touched. */
    ghost predicate CleanedUp(routesWas: map<string, Key>, grantsWas: set<string>, bindingWas: bool, needs: Needs,
                              routesDone: bool, grantDone: bool, bindingDone: bool)
      reads this`routes, this`grants, this`binding, this`others
    {
      && OnlyOwnGone(routesWas)
      && (if needs.routes then routesDone ==> forall n :: !Labelled(n) else routes == routesWas)
      && (grants == grantsWas || (needs.grant && LastInNamespace() && grants == grantsWas - {key.namespace}))
      && (grantDone && needs.grant && LastInNamespace() ==> grants == grantsWas - {key.namespace})
      && (if needs.binding then (bindingDone ==> !binding) && (binding ==> bindingWas) else binding == bindingWas)
    }

    /** No other notebook of the namespace stays. */
    predicate NoneStays()
      reads this`others
    {
      forall k <- others :: k.namespace == key.namespace && k != key ==> others[k]
    }

    /** What has to be gone for each finalizer that went, and what has to be there still. */
    ghost predicate Accounted(was: seq<Finalizer>, routesWas: map<string, Key>, grantsWas: set<string>, inject: bool)
      reads this
    {
      && (RouteFinalizer in was && RouteFinalizer !in finalizers ==> forall n <- routes :: routes[n] != key)
      && (GrantFinalizer in was && GrantFinalizer !in finalizers && NoneStays() ==> key.namespace !in grants)
      && (ProxyFinalizer in was && ProxyFinalizer !in finalizers && inject ==> !binding)
      && (LegacyFinalizer() in was && LegacyFinalizer() !in finalizers ==> !client)
      && (forall n <- routesWas :: routesWas[n] != key ==> n in routes && routes[n] == routesWas[n])
      && (!NoneStays() ==> grants == grantsWas) && grants + {key.namespace} == grantsWas + {key.namespace}
    }

    /** One reconcile of a notebook that is being deleted. Each cleanup that succeeded, or was not
        needed, gives up its finalizer, whatever became of the others; which succeeded is decided by
        the replies to its calls alone. */
    method DeletePass(inject: bool) returns (failed: bool, o: Outcome)
      requires present && finalizers != []
      modifies this
      ensures Owned(old(finalizers)) || inject ==> calls > old(calls)
      ensures o.oauth == old(Expected(inject, calls)).oauth
      ensures o.oauth ==> o == old(Expected(inject, calls))
      ensures failed <==> !(o.oauth && o.routes && o.grant && o.binding && o.written)
      ensures FinalizersLeft(old(finalizers), finalizers, o)
      ensures if o.oauth then
        CleanedUp(old(routes), old(grants), old(binding), old(NeedsOf(finalizers, inject)), o.routes, o.grant,
          o.binding)
        else routes == old(routes) && grants == old(grants) && binding == old(binding)
      ensures o.oauth && OAUTH_FINALIZER in old(finalizers) ==> !client
      ensures client == old(client) || (OAUTH_FINALIZER in old(finalizers) && !client)
      ensures failed ==> !Clean(old(calls))
      ensures Accounted(old(finalizers), old(routes), old(grants), inject)
      ensures (forall c :: old(calls) <= c < calls ==> replies(c) == Ok) ==>
        && !failed && RouteFinalizer !in finalizers && GrantFinalizer !in finalizers
        && ProxyFinalizer !in finalizers && LegacyFinalizer() !in finalizers
      ensures others == old(others) && present == (finalizers != [])
    {
      hide Without, WriteAnswered, OAuthEnd, ToRemove, CleanUps, CleanUpsEnd, LastInNamespace, CleanedUp, Accounted,
        Removed, NeedsOf, Owned, FinalizersLeft, RoutesEnd, GrantEnd, BindingEnd, OwnRoutes, OnlyOwnGone, NoneStays,
          LegacyFinalizer,
        OAUTH_FINALIZER;
      ghost var start := calls;
      var ok, local := OAuthStep();
      o := Outcome(ok, true, true, true, true);
      if !ok {
        LeftAlone(old(finalizers), finalizers, o);
        UntouchedAccounts(old(finalizers), old(routes), old(grants), inject);
        return true, o;
      }
      SameNeeds(old(finalizers), local, inject);
      ghost var first := calls;
      SameToRemove(old(finalizers), local, CleanUps(NeedsOf(local, inject), calls));
      failed, o := CleanUpAndGiveUp(local, inject);
      assert Answered(start, calls) ==> Answered(first, calls);
      LeftAfter(old(finalizers), local, finalizers, o);
      if !failed { NoneLeft(old(finalizers), finalizers, o); }
      GaveUp(old(finalizers), finalizers, o);
      Accounts(old(finalizers), old(routes), old(grants), old(binding), inject, o);
    }

    /** The pass from the cleanups on. */
    method CleanUpAndGiveUp(local: seq<Finalizer>, inject: bool) returns (failed: bool, o: Outcome)
      requires local == finalizers && present == (finalizers != []) && OAUTH_FINALIZER !in local
      modifies `calls, `routes, `grants, `binding, `present, `finalizers
      ensures calls >= old(calls)
      ensures Owned(local) || inject ==> calls > old(calls)
      ensures var cleaned := old(CleanUps(NeedsOf(local, inject), calls));
        o == cleaned.(written := ToRemove(local, cleaned) == {}
          || WriteAnswered(replies, old(CleanUpsEnd(NeedsOf(local, inject), calls)), RETRIES))
      ensures failed <==> !(o.routes && o.grant && o.binding && o.written)
      ensures o.written ==> finalizers == Without(local, Removed(o))
      ensures !o.written ==> finalizers == local || finalizers == Without(local, Removed(o))
      ensures CleanedUp(old(routes), old(grants), old(binding), NeedsOf(local, inject), o.routes, o.grant, o.binding)
      ensures failed ==> !Clean(old(calls))
      ensures present == (finalizers != [])
    {
      hide Without, WriteAnswered, ToRemove, CleanUps, CleanUpsEnd, LastInNamespace, CleanedUp;
      var removed;
      ghost var start := calls;
      o, removed := CleanUp(local, inject);
      ghost var second := calls;
      assert ProxyFinalizer in local && !inject ==> removed != {};
      var ok := GiveUp(removed, o);
      o := o.(written := ok);
      failed := !(o.routes && o.grant && o.binding && o.written);
      assert Answered(start, calls) ==> Answered(start, second) && Answered(second, calls);
    }

    lemma {:induction false} UntouchedAccounts(was: seq<Finalizer>, routesWas: map<string, Key>,
                                               grantsWas: set<string>, inject: bool)
      requires routes == routesWas && grants == grantsWas && (finalizers != was ==> !client)
      requires finalizers == was || finalizers == Without(was, {OAUTH_FINALIZER})
      ensures Accounted(was, routesWas, grantsWas, inject)
    {
      hide Without;
      InWithout(was, {OAUTH_FINALIZER}, RouteFinalizer);
      InWithout(was, {OAUTH_FINALIZER}, GrantFinalizer);
      InWithout(was, {OAUTH_FINALIZER}, ProxyFinalizer);
    }

    lemma {:induction false} Accounts(was: seq<Finalizer>, routesWas: map<string, Key>, grantsWas: set<string>,
                                      bindingWas: bool, inject: bool, o: Outcome)
      requires CleanedUp(routesWas, grantsWas, bindingWas, NeedsOf(was, inject), o.routes, o.grant, o.binding)
      requires forall f: Finalizer :: f in was && f !in finalizers && f != OAUTH_FINALIZER ==> f in Removed(o)
      requires OAUTH_FINALIZER in was && OAUTH_FINALIZER !in finalizers ==> !client
      ensures Accounted(was, routesWas, grantsWas, inject)
    {
      assert LastInNamespace() <==> NoneStays() by { LastMeansNone(); }
      if RouteFinalizer in was && RouteFinalizer !in finalizers {
        forall n | n in routes ensures routes[n] != key { assert !Labelled(n); }
      }
    }

    lemma {:induction false} LastMeansNone()
      ensures LastInNamespace() <==> NoneStays()
    {
      if NoneStays() {
        forall k | k in others && k.namespace == key.namespace && k.name != key.name ensures others[k] {
          assert k != key;
        }
      }
    }

    /** Drop the OAuth client of an older release first, if its finalizer is there. */
    method OAuthStep() returns (ok: bool, local: seq<Finalizer>)
      requires present && finalizers != []
      modifies `calls, `client, `present, `finalizers
      ensures calls == old(OAuthEnd(calls)) >= old(calls) && (ok <==> Answered(old(calls), calls))
      ensures ok ==> local == finalizers == Without(old(finalizers), {OAUTH_FINALIZER})
      ensures !ok ==> finalizers == old(finalizers) || finalizers == Without(old(finalizers), {OAUTH_FINALIZER})
      ensures present == (finalizers != [])
      ensures OAUTH_FINALIZER in old(finalizers) ==> calls > old(calls) && (ok ==> !client) && (client ==> old(client))
      ensures OAUTH_FINALIZER !in old(finalizers) ==> client == old(client)
      ensures finalizers != old(finalizers) ==> !client
      ensures forall f :: f in Without(old(finalizers), {OAUTH_FINALIZER}) <==>
        f in old(finalizers) && f != OAUTH_FINALIZER
    {
      hide Without;
      local := finalizers;
      forall f ensures f in Without(local, {OAUTH_FINALIZER}) <==> f in local && f != OAUTH_FINALIZER {
        InWithout(local, {OAUTH_FINALIZER}, f);
      }
      if OAUTH_FINALIZER in local {
        ok, local := DropOAuthClient(local);
      } else {
        NothingToRemove(local, {OAUTH_FINALIZER});
        ok := true;
      }
    }

    method RoutesStep(needed: bool) returns (ok: bool)
      modifies `calls, `routes
      ensures calls == old(RoutesEnd(needed, calls)) && (ok <==> Answered(old(calls), calls))
      ensures if needed then calls > old(calls) else calls == old(calls)
      ensures ok && needed ==> forall n :: !Labelled(n)
      ensures OnlyOwnGone(old(routes))
      ensures !needed ==> routes == old(routes)
    {
      if !needed { return true; }
      ok := DeleteHTTPRouteForNotebook();
    }

    method GrantStep(needed: bool) returns (ok: bool)
      modifies `calls, `grants
      ensures calls == old(GrantEnd(needed, calls)) && (ok <==> Answered(old(calls), calls))
      ensures if needed then calls > old(calls) else calls == old(calls)
      ensures ok && needed && LastInNamespace() ==> grants == old(grants) - {key.namespace}
      ensures grants == old(grants) || (needed && LastInNamespace() && grants == old(grants) - {key.namespace})
    {
      if !needed { return true; }
      ok := DeleteReferenceGrantIfLastNotebook();
    }

    method BindingStep(needed: bool) returns (ok: bool)
      modifies `calls, `binding
      ensures calls == BindingEnd(needed, old(calls)) && (ok <==> Answered(old(calls), calls))
      ensures if needed then calls > old(calls) else calls == old(calls)
      ensures ok && needed ==> !binding
      ensures binding == old(binding) || (needed && !binding)
    {
      if !needed { return true; }
      ok := CleanupClusterRoleBinding();
    }

    /** The three cleanups, each tried whatever became of the others. */
    method CleanUp(local: seq<Finalizer>, inject: bool) returns (o: Outcome, removed: set<Finalizer>)
      modifies `calls, `routes, `grants, `binding
      ensures o == old(CleanUps(NeedsOf(local, inject), calls))
      ensures calls == old(CleanUpsEnd(NeedsOf(local, inject), calls))
      ensures RouteFinalizer in local || GrantFinalizer in local || inject ==> calls > old(calls)
      ensures calls >= old(calls)
      ensures !(o.routes && o.grant && o.binding) ==> !Clean(old(calls))
      ensures removed == ToRemove(local, o)
      ensures ProxyFinalizer in local && !inject ==> ProxyFinalizer in removed
      ensures CleanedUp(old(routes), old(grants), old(binding), NeedsOf(local, inject), o.routes, o.grant, o.binding)
    {
      hide ToRemove, OwnRoutes, LastInNamespace, OnlyOwnGone, RoutesEnd, GrantEnd, BindingEnd;
      removed := {};
      var routesDone := RoutesStep(RouteFinalizer in local);
      if RouteFinalizer in local && routesDone { removed := removed + {RouteFinalizer}; }
      var grantDone := GrantStep(GrantFinalizer in local);
      if GrantFinalizer in local && grantDone { removed := removed + {GrantFinalizer}; }
      var bindingDone := BindingStep(inject);
      if ProxyFinalizer in local && bindingDone { removed := removed + {ProxyFinalizer}; }
      o := Outcome(true, routesDone, grantDone, bindingDone, true);
      CollectedAll(local, o, removed);
    }

    /** Write back without the finalizers that are done, if there are any. */
    method GiveUp(removed: set<Finalizer>, ghost o: Outcome) returns (ok: bool)
      requires removed == ToRemove(finalizers, o) && present == (finalizers != [])
      modifies `calls, `present, `finalizers
      ensures calls >= old(calls) && (removed != {} ==> calls > old(calls))
      ensures ok <==> removed == {} || WriteAnswered(replies, old(calls), RETRIES)
      ensures ok ==> finalizers == Without(old(finalizers), Removed(o))
      ensures !ok ==> finalizers == old(finalizers) || finalizers == Without(old(finalizers), Removed(o))
      ensures !ok ==> !Clean(old(calls))
      ensures present == (finalizers != [])
    {
      hide Without, WriteAnswered;
      WithoutSame(finalizers, removed, Removed(o));
      if removed == {} {
        NothingToRemove(finalizers, removed);
        return true;
      }
      var f :| f in removed;
      ok := RemoveFinalizers(removed);
    }
  }

  /** Which cleanups a pass makes. */
  datatype Needs = Needs(routes: bool, grant: bool, binding: bool)

  function NeedsOf(finalizers: seq<Finalizer>, inject: bool): Needs {
    Needs(RouteFinalizer in finalizers, GrantFinalizer in finalizers, inject)
  }

  /** The finalizers a pass gives up. */
  function ToRemove(finalizers: seq<Finalizer>, o: Outcome): set<Finalizer> {
    set f | f in finalizers && f in Removed(o)
  }

  lemma {:induction false} CollectedAll(local: seq<Finalizer>, o: Outcome, removed: set<Finalizer>)
    requires removed == (if RouteFinalizer in local && o.routes then {RouteFinalizer} else {})
                      + (if GrantFinalizer in local && o.grant then {GrantFinalizer} else {})
                      + (if ProxyFinalizer in local && o.binding then {ProxyFinalizer} else {})
    ensures removed == ToRemove(local, o)
  {}

  lemma {:induction false} SameToRemove(had: seq<Finalizer>, local: seq<Finalizer>, o: Outcome)
    requires forall f :: f in local <==> f in had && f != OAUTH_FINALIZER
    ensures ToRemove(local, o) == ToRemove(had, o)
  {}

  /** What a pass achieved; a step that was not needed counts as achieved. */
  datatype Outcome = Outcome(oauth: bool, routes: bool, grant: bool, binding: bool, written: bool)

  function Removed(o: Outcome): set<Finalizer> {
    (if o.routes then {RouteFinalizer} else {}) + (if o.grant then {GrantFinalizer} else {})
      + (if o.binding then {ProxyFinalizer} else {})
  }

  predicate Owned(finalizers: seq<Finalizer>) {
    OAUTH_FINALIZER in finalizers || RouteFinalizer in finalizers || GrantFinalizer in finalizers
      || ProxyFinalizer in finalizers
  }

  /** The finalizer of releases that had an OAuth client for each notebook. */
  function LegacyFinalizer(): Finalizer {
    OtherFinalizer("notebook-oauth-client-finalizer.opendatahub.io")
  }

  lemma {:induction false} SameNeeds(had: seq<Finalizer>, local: seq<Finalizer>, inject: bool)
    requires forall f :: f in local <==> f in had && f != OAUTH_FINALIZER
    ensures NeedsOf(local, inject) == NeedsOf(had, inject)
    ensures Owned(had) ==> OAUTH_FINALIZER in had || Owned(local)
  {}

  lemma {:induction false} NoneLeft(was: seq<Finalizer>, now: seq<Finalizer>, o: Outcome)
    requires FinalizersLeft(was, now, o) && o.oauth && o.routes && o.grant && o.binding && o.written
    ensures RouteFinalizer !in now && GrantFinalizer !in now && ProxyFinalizer !in now && LegacyFinalizer() !in now
  {
    NoFailureNoFinalizer(was, now);
  }

  /** The finalizers after a pass, by what it achieved: a failing OAuth step ends it; what was achieved is
      given up all at once, and a write whose answer is lost may have taken effect. */
  predicate FinalizersLeft(was: seq<Finalizer>, now: seq<Finalizer>, o: Outcome) {
    var local := Without(was, {OAUTH_FINALIZER});
    if !o.oauth then now == was || now == local
    else if o.written then now == Without(local, Removed(o))
    else now == local || now == Without(local, Removed(o))
  }

  lemma {:induction false} LeftAlone(was: seq<Finalizer>, now: seq<Finalizer>, o: Outcome)
    requires !o.oauth && (now == was || now == Without(was, {OAUTH_FINALIZER}))
    ensures FinalizersLeft(was, now, o)
  {}

  lemma {:induction false} LeftAfter(was: seq<Finalizer>, local: seq<Finalizer>, now: seq<Finalizer>, o: Outcome)
    requires o.oauth && local == Without(was, {OAUTH_FINALIZER})
    requires now == Without(local, Removed(o)) || (!o.written && now == local)
    ensures FinalizersLeft(was, now, o)
  {}

  /** Attempt `k` of a write is answered after conflicts only. */
  predicate AnsweredAt(replies: nat -> Reply, from: nat, k: nat) {
    && replies(from + 2 * k) == Ok && replies(from + 2 * k + 1) == Ok
    && forall j: nat :: j < k ==> ConflictsAt(replies, from, j)
  }

  predicate ConflictsAt(replies: nat -> Reply, from: nat, j: nat) {
    replies(from + 2 * j) == Ok && replies(from + 2 * j + 1) == Conflict
  }

  /** A write is tried five times at most: it goes through exactly if one of five attempts is answered and
      those before it only met a newer version. */
  lemma {:induction false} FiveAttempts(replies: nat -> Reply, from: nat)
    ensures WriteAnswered(replies, from, RETRIES) <==> exists k: nat :: k < 5 && AnsweredAt(replies, from, k)
  {
    WithinAttempts(replies, from, 5);
  }

  lemma {:induction false} WithinAttempts(replies: nat -> Reply, from: nat, tries: nat)
    ensures WriteAnswered(replies, from, tries) <==> exists k: nat :: k < tries && AnsweredAt(replies, from, k)
    decreases tries
  {
    if tries > 0 {
      var later := from + 2;
      WithinAttempts(replies, later, tries - 1);
      if k: nat :| k < tries && AnsweredAt(replies, from, k) && k > 0 { LaterAttempt(replies, from, later, k - 1); }
      if k: nat :| k < tries - 1 && AnsweredAt(replies, later, k) { LaterAttempt(replies, from, later, k); }
      assert AnsweredAt(replies, from, 0) <==> replies(from) == Ok && replies(from + 1) == Ok;
    }
  }

  lemma {:induction false} LaterAttempt(replies: nat -> Reply, from: nat, later: nat, k: nat)
    requires later == from + 2
    ensures AnsweredAt(replies, from, k + 1) <==> ConflictsAt(replies, from, 0) && AnsweredAt(replies, later, k)
  {
    assert from + 2 * (k + 1) == later + 2 * k;
    if AnsweredAt(replies, from, k + 1) {
      assert ConflictsAt(replies, from, 0);
      forall j: nat | j < k ensures ConflictsAt(replies, later, j) { assert ConflictsAt(replies, from, j + 1); }
    }
    if ConflictsAt(replies, from, 0) && AnsweredAt(replies, later, k) {
      forall j: nat | j < k + 1 ensures ConflictsAt(replies, from, j) {
        if j > 0 { assert ConflictsAt(replies, later, j - 1); }
      }
    }
  }

  /** A finalizer that a pass gave up is one whose cleanup it achieved. */
  lemma {:induction false} GaveUp(was: seq<Finalizer>, now: seq<Finalizer>, o: Outcome)
    requires FinalizersLeft(was, now, o)
    ensures forall f: Finalizer :: f in was && f !in now && f != OAUTH_FINALIZER ==> o.oauth && f in Removed(o)
  {
    hide Without, Removed;
    forall f: Finalizer | f in was && f !in now && f != OAUTH_FINALIZER ensures o.oauth && f in Removed(o) {
      InWithout(was, {OAUTH_FINALIZER}, f);
      InWithout(Without(was, {OAUTH_FINALIZER}), Removed(o), f);
    }
  }

  lemma {:induction false} WithoutSame(finalizers: seq<Finalizer>, a: set<Finalizer>, b: set<Finalizer>)
    requires forall f <- finalizers :: f in a <==> f in b
    ensures Without(finalizers, a) == Without(finalizers, b)
  {
    if finalizers != [] { WithoutSame(finalizers[1..], a, b); }
  }

  lemma {:induction false} InWithout(finalizers: seq<Finalizer>, removed: set<Finalizer>, f: Finalizer)
    ensures f in Without(finalizers, removed) <==> f in finalizers && f !in removed
  {
    if f in finalizers && f !in removed {
      var j: nat :| j < |finalizers| && finalizers[j] == f;
      SelWithin(finalizers, In(removed), j);
    }
    if f in Without(finalizers, removed) { SelSound(finalizers, In(removed), f); }
  }

  lemma {:induction false} NothingToRemove(finalizers: seq<Finalizer>, removed: set<Finalizer>)
    requires forall f <- removed :: f !in finalizers
    ensures Without(finalizers, removed) == finalizers
  {
    if finalizers != [] { NothingToRemove(finalizers[1..], removed); }
  }

  // ----- Passes until the notebook is let go ---------------------------------------------------------

  const OWN := {OAUTH_FINALIZER, RouteFinalizer, GrantFinalizer, ProxyFinalizer}

  lemma {:induction false} WithoutTwice(finalizers: seq<Finalizer>, a: set<Finalizer>, b: set<Finalizer>)
    ensures Without(Without(finalizers, a), b) == Without(finalizers, a + b)
  {
    if finalizers != [] {
      WithoutTwice(finalizers[1..], a, b);
      SelConcat(if finalizers[0] !in a then [finalizers[0]] else [], Without(finalizers[1..], a), In(b));
    }
  }

  lemma {:induction false} ForeignKept(before: seq<Finalizer>, after: seq<Finalizer>, a: set<Finalizer>,
                                       b: set<Finalizer>)
    requires after == before || after == Without(before, a) || after == Without(Without(before, a), b)
    requires a <= OWN && b <= OWN
    ensures Without(after, OWN) == Without(before, OWN)
  {
    WithoutTwice(before, a, b);
    WithoutTwice(before, a, OWN);
    WithoutTwice(before, a + b, OWN);
    assert a + OWN == OWN && a + b + OWN == OWN;
  }

  /** A pass that reports no failure leaves none of the controller's finalizers. */
  lemma {:induction false} NoFailureNoFinalizer(before: seq<Finalizer>, after: seq<Finalizer>)
    requires after == Without(Without(before, {OAUTH_FINALIZER}),
      {RouteFinalizer} + {GrantFinalizer} + {ProxyFinalizer})
    ensures !Owned(after)
  {
    var gone := {RouteFinalizer} + {GrantFinalizer} + {ProxyFinalizer};
    var local := Without(before, {OAUTH_FINALIZER});
    InWithout(before, {OAUTH_FINALIZER}, OAUTH_FINALIZER);
    InWithout(local, gone, OAUTH_FINALIZER);
    InWithout(local, gone, RouteFinalizer);
    InWithout(local, gone, GrantFinalizer);
    InWithout(local, gone, ProxyFinalizer);
  }

  /** Failed passes are tried again. Once the calls stop failing, from number `quiet` on, the
      notebook is soon let go: only finalizers of others are left, all of them, in order. */
  method ReconcileUntilReleased(c: Cluster, inject: bool, ghost quiet: nat)
    requires c.present && c.finalizers != [] && forall n :: n >= quiet ==> c.replies(n) == Ok
    modifies c
    ensures !Owned(c.finalizers) && Without(old(c.finalizers), OWN) == c.finalizers
    ensures c.present == (c.finalizers != [])
  {
    hide Without, Sel;
    while Owned(c.finalizers)
      invariant c.present == (c.finalizers != []) && Without(c.finalizers, OWN) == Without(old(c.finalizers), OWN)
      decreases if c.calls >= quiet then 0 else quiet - c.calls, if Owned(c.finalizers) then 1 else 0
    {
      ghost var before, start := c.finalizers, c.calls;
      var failed, o := c.DeletePass(inject);
      ForeignKept(before, c.finalizers, {OAUTH_FINALIZER}, Removed(o));
      if start >= quiet {
        assert c.Clean(start) && !failed;
        NoFailureNoFinalizer(before, c.finalizers);
      }
    }
    NothingToRemove(c.finalizers, OWN);
  }
}
