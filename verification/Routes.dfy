/** HTTPRoutes: which ingress a notebook resolves to, the route it should have, and the calls that
    bring the central namespace there. */
module Routes {
  import opened Text
  import opened Sequences
  import opened PodModel
  import opened Lifecycle

  // ----- Routes --------------------------------------------------------------------------

  datatype Backend = Backend(name: string, namespace: Option<string>, port: Option<int>)
  datatype Rule = Rule(path: string, backends: seq<Backend>)
  datatype Gateway = Gateway(name: string, namespace: string)
  datatype RouteSpec = RouteSpec(parents: seq<Gateway>, rules: seq<Rule>)
  datatype HttpRoute = HttpRoute(labels: map<string, string>, spec: RouteSpec)

  const NAME_LABEL := "notebook-name"
  const NAMESPACE_LABEL := "notebook-namespace"
  const SERVICE_SUFFIX := "-kube-rbac-proxy"
  const REGULAR_PORT := 8888
  const PROXY_PORT := 8443

  function Labels(k: Key): map<string, string> {
    map[NAME_LABEL := k.name, NAMESPACE_LABEL := k.namespace]
  }

  predicate LabelledFor(r: HttpRoute, k: Key) {
    NAME_LABEL in r.labels && r.labels[NAME_LABEL] == k.name && NAMESPACE_LABEL in r.labels
      && r.labels[NAMESPACE_LABEL] == k.namespace
  }

  /** The route of a notebook behind a gateway, with or without the auth sidecar. */
  function Desired(k: Key, auth: bool, gateway: Gateway): HttpRoute {
    var backend :=
      if auth then Backend(k.name + SERVICE_SUFFIX, Some(k.namespace), Some(PROXY_PORT))
        else Backend(k.name, Some(k.namespace), Some(REGULAR_PORT));
    HttpRoute(Labels(k), RouteSpec([gateway], [Rule("/notebook/" + k.namespace + "/" + k.name, [backend])]))
  }

  /** Does the route serve the mode the notebook is not in? Judged by its first backend. */
  predicate Conflicts(r: HttpRoute, k: Key, auth: bool) {
    && r.spec.rules != [] && r.spec.rules[0].backends != []
    && var b := r.spec.rules[0].backends[0];
       if auth then b.name == k.name || b.port == Some(REGULAR_PORT)
       else b.name == k.name + SERVICE_SUFFIX || b.port == Some(PROXY_PORT)
  }

  /** The first backend of a route is the notebook's own service, going by name or port, or the proxy's. */
  lemma {:induction false} ConflictsByNameOrPort(r: HttpRoute, k: Key, auth: bool)
    ensures r.spec.rules == [] || r.spec.rules[0].backends == [] ==> !Conflicts(r, k, auth)
    ensures r.spec.rules != [] && r.spec.rules[0].backends != [] ==>
      var b := r.spec.rules[0].backends[0];
      (Conflicts(r, k, true) <==> b.name == k.name || (b.port.Some? && b.port.value == 8888))
      && (Conflicts(r, k, false) <==> b.name == k.name + "-kube-rbac-proxy" || (b.port.Some? && b.port.value == 8443))
  {}

  /** The route of the current mode is never taken for a conflicting one; the other mode's always is. */
  lemma {:induction false} OwnModeKept(k: Key, auth: bool, gateway: Gateway)
    ensures !Conflicts(Desired(k, auth, gateway), k, auth) && Conflicts(Desired(k, !auth, gateway), k, auth)
    ensures LabelledFor(Desired(k, auth, gateway), k)
  {
    assert |SERVICE_SUFFIX| == 16;
    assert |k.name + SERVICE_SUFFIX| != |k.name|;
    assert |NAME_LABEL| == 13 && |NAMESPACE_LABEL| == 18;
  }

  /** The route leads from one path of one gateway to the notebook: without authentication to its own
      service, with it to that of the proxy. */
  ghost predicate LeadsTo(r: HttpRoute, k: Key, auth: bool, gateway: Gateway) {
    && r.labels == map["notebook-name" := k.name, "notebook-namespace" := k.namespace]
    && r.spec.parents == [gateway] && |r.spec.rules| == 1
    && ('/' !in k.namespace && '/' !in k.name ==>
      Split(r.spec.rules[0].path, '/') == ["", "notebook", k.namespace, k.name])
    && r.spec.rules[0].path == "/notebook/" + k.namespace + "/" + k.name
    && r.spec.rules[0].backends
    == [if auth then Backend(k.name + "-kube-rbac-proxy", Some(k.namespace), Some(8443))
        else Backend(k.name, Some(k.namespace), Some(8888))]
  }

  lemma {:induction false} PathSplits(a: string, b: string)
    requires '/' !in a && '/' !in b
    ensures Split("/notebook/" + a + "/" + b, '/') == ["", "notebook", a, b]
  {
    hide Split;
    SplitNone(b, '/');
    SplitHead(a, b, '/');
    var tail := a + ['/'] + b;
    SplitHead("notebook", tail, '/');
    var path := "notebook" + ['/'] + tail;
    SplitHead("", path, '/');
    assert "" + ['/'] + path == "/notebook/" + a + "/" + b;
    assert [""] + (["notebook"] + ([a] + [b])) == ["", "notebook", a, b];
  }

  /** The desired route leads to the notebook. */
  lemma {:induction false} DesiredLeads(k: Key, auth: bool, gateway: Gateway)
    ensures LeadsTo(Desired(k, auth, gateway), k, auth, gateway)
  {
    hide Split;
    if '/' !in k.namespace && '/' !in k.name { PathSplits(k.namespace, k.name); }
  }

  function RouteName(k: Key): string {
    "nb-" + k.namespace + "-" + k.name
  }

  /** Two notebooks can claim the same route name. */
  lemma {:induction false} RouteNamesCollide(a: string, b: string, c: string)
    ensures RouteName(Key(a + "-" + b, c)) == RouteName(Key(a, b + "-" + c))
  {
    var l, r := RouteName(Key(a + "-" + b, c)), RouteName(Key(a, b + "-" + c));
    assert l == "nb-" + (a + "-" + b + "-" + c);
    assert r == "nb-" + (a + "-" + b + "-" + c);
  }

  // ----- Ingress assignment -------------------------------------------------------------------

  datatype Ingress = Ingress(name: string, gateway: Gateway, isDefault: bool)
  datatype Resolution = Resolved(ingress: Ingress) | Unknown | Invalid | LookupFailed

  const INGRESSES_KEY := "ingresses"

  /** What the controller finds around it: how ingress lists are parsed, the default of its
      environment, and the assignment of a namespace among a list of ingresses. */
  datatype Assignment = Assignment(parse: string -> Option<seq<Ingress>>, default: Ingress,
                                   resolve: (string, seq<Ingress>) -> Resolution)


  function IngressData(config: Option<map<string, string>>): (bool, string) {
    match config case None => (false, "") case Some(m) => (INGRESSES_KEY in m, Lookup(m, INGRESSES_KEY))
  }

  function NotebookIngress(ns: string, config: Option<map<string, string>>, env: Assignment): Resolution {
    match config
    case None => env.resolve(ns, [env.default])
    case Some(m) =>
      match ParsedIngresses(Lookup(m, INGRESSES_KEY), env)
      case None => Invalid
      case Some(ingresses) => env.resolve(ns, WithDefault(ingresses, env.default))
  }

  /** Which list a namespace is assigned from: that under "ingresses", with the default of the environment
      unless it names one of its own; the default alone if there is no such entry or it is empty; and
      none at all if it cannot be parsed. */
  lemma {:induction false} AssignedFrom(ns: string, config: Option<map<string, string>>, env: Assignment)
    ensures var r := NotebookIngress(ns, config, env);
      if config.None? || "ingresses" !in config.value || config.value["ingresses"] == "" then
        r == env.resolve(ns, [env.default])
      else match env.parse(config.value["ingresses"])
        case None => r.Invalid?
        case Some(list) =>
          if exists i :: 0 <= i < |list| && list[i].isDefault then r == env.resolve(ns, list)
          else r == env.resolve(ns, list + [env.default])
  {
    assert [] + [env.default] == [env.default];
  }

  /** A missing or blank entry is an empty list. */
  function ParsedIngresses(data: string, env: Assignment): Option<seq<Ingress>> {
    if data == "" then Some([]) else env.parse(data)
  }

  function WithDefault(ingresses: seq<Ingress>, default: Ingress): seq<Ingress> {
    if exists i :: 0 <= i < |ingresses| && ingresses[i].isDefault then ingresses else ingresses + [default]
  }

  /** The route an answered resolution calls for; None: no route at all. */
  function RouteFor(k: Key, auth: bool, r: Resolution): Option<HttpRoute>
    requires !r.LookupFailed?
  {
    match r
    case Resolved(ingress) => Some(Desired(k, auth, ingress.gateway))
    case _ => None
  }

  // ----- Which notebooks a configuration change concerns ------------------------------------------

  predicate Unresolvable(r: Resolution) { r.Unknown? || r.Invalid? }

  predicate GatewayChanged(before: Resolution, after: Resolution) {
    || Unresolvable(before) != Unresolvable(after)
    || (!Unresolvable(before) && before.Resolved? && after.Resolved? && before.ingress.gateway != after.ingress.gateway)
  }

  predicate LookupsFail(ns: string, before: Option<map<string, string>>, after: Option<map<string, string>>,
                        env: Assignment)
  {
    NotebookIngress(ns, before, env).LookupFailed? || NotebookIngress(ns, after, env).LookupFailed?
  }

  predicate Concerned(k: Key, before: Option<map<string, string>>, after: Option<map<string, string>>, env: Assignment)
  {
    GatewayChanged(NotebookIngress(k.namespace, before, env), NotebookIngress(k.namespace, after, env))
  }

  function Concerns(before: Option<map<string, string>>, after: Option<map<string, string>>,
                    env: Assignment): Key -> bool
  {
    (k: Key) => Concerned(k, before, after, env)
  }

  /** Nothing when the data are the same; everything when some lookup fails; otherwise the
      notebooks whose gateway changed, in the order of the list. */
  function ChangedNotebooks(all: seq<Key>, before: Option<map<string, string>>, after: Option<map<string, string>>,
                            env: Assignment): seq<Key>
  {
    if IngressData(before) == IngressData(after) then []
    else if exists i :: 0 <= i < |all| && LookupsFail(all[i].namespace, before, after, env) then all
    else Sel(all, Concerns(before, after, env))
  }

  /** Namespaces already compared, and what came of it. */
  ghost predicate Memo(changed: map<string, bool>, before: Option<map<string, string>>,
                       after: Option<map<string, string>>, env: Assignment)
  {
    forall ns <- changed :: !LookupsFail(ns, before, after, env)
      && (changed[ns] <==> GatewayChanged(NotebookIngress(ns, before, env), NotebookIngress(ns, after, env)))
  }

  method Compare(ns: string, before: Option<map<string, string>>, after: Option<map<string, string>>, env: Assignment)
    returns (failed: bool, changed: bool)
    ensures failed <==> LookupsFail(ns, before, after, env)
    ensures !failed ==> (changed <==> GatewayChanged(NotebookIngress(ns, before, env), NotebookIngress(ns, after, env)))
  {
    hide NotebookIngress;
    var was, becomes := NotebookIngress(ns, before, env), NotebookIngress(ns, after, env);
    if was.LookupFailed? || becomes.LookupFailed? { return true, false; }
    changed := Unresolvable(was) != Unresolvable(becomes)
      || (!Unresolvable(was) && was.ingress.gateway != becomes.ingress.gateway);
    failed := false;
  }

  /** The loop with its memo. A failed listing is an empty list. */
  method IngressConfigRequests(listed: Option<seq<Key>>, before: Option<map<string, string>>,
                               after: Option<map<string, string>>, env: Assignment)
    returns (requests: seq<Key>)
    ensures requests == ChangedNotebooks(if listed.Some? then listed.value else [], before, after, env)
  {
    hide NotebookIngress, IngressData, GatewayChanged;
    if IngressData(before) == IngressData(after) { return []; }
    var all := if listed.Some? then listed.value else [];
    var changedNamespaces: map<string, bool> := map[];
    requests := [];
    for i := 0 to |all|
      invariant Memo(changedNamespaces, before, after, env)
      invariant forall j :: 0 <= j < i ==> all[j].namespace in changedNamespaces
      invariant requests == Sel(all[..i], Concerns(before, after, env))
    {
      if all[i].namespace !in changedNamespaces {
        var failed, changed := Compare(all[i].namespace, before, after, env);
        if failed { return all; }
        changedNamespaces := changedNamespaces[all[i].namespace := changed];
      }
      SelSnoc(all, i, Concerns(before, after, env));
      if changedNamespaces[all[i].namespace] { requests := requests + [all[i]]; }
    }
    assert all[..|all|] == all;
  }

  /** A gateway change is a route change, for every notebook and in either mode. */
  lemma {:induction false} ConcernedIsChanged(k: Key, auth: bool, a: Resolution, b: Resolution)
    requires !a.LookupFailed? && !b.LookupFailed?
    ensures GatewayChanged(a, b) <==> RouteFor(k, auth, a) != RouteFor(k, auth, b)
  {
    if a.Resolved? && b.Resolved? {
      var x, y := Desired(k, auth, a.ingress.gateway), Desired(k, auth, b.ingress.gateway);
      assert x.spec.parents[0] == a.ingress.gateway && y.spec.parents[0] == b.ingress.gateway;
    }
  }

  lemma {:induction false} SameDataSameIngress(ns: string, before: Option<map<string, string>>,
                                               after: Option<map<string, string>>, env: Assignment)
    requires IngressData(before) == IngressData(after)
    ensures NotebookIngress(ns, before, env) == NotebookIngress(ns, after, env)
  {
    assert WithDefault([], env.default) == [env.default];
  }

  /** One look at the cluster: the same lists and default, and for each assignment either what
      `truth` says or a failed lookup. */
  ghost predicate Observes(seen: Assignment, truth: Assignment) {
    && seen.parse == truth.parse && seen.default == truth.default
    && forall ns, ingresses ::
      seen.resolve(ns, ingresses) == truth.resolve(ns, ingresses) || seen.resolve(ns, ingresses).LookupFailed?
  }

  /** `k` has the route its configuration calls for; an assignment that cannot be looked up calls
      for nothing in particular. */
  ghost predicate Matches(k: Key, auth: bool, route: Option<HttpRoute>, config: Option<map<string, string>>,
                          truth: Assignment)
  {
    var r := NotebookIngress(k.namespace, config, truth);
    !r.LookupFailed? ==> route == RouteFor(k, auth, r)
  }

  ghost predicate AllMatch(all: seq<Key>, auth: Key -> bool, routes: map<Key, Option<HttpRoute>>,
                           config: Option<map<string, string>>, truth: Assignment) {
    forall k <- all :: k in routes && Matches(k, auth(k), routes[k], config, truth)
  }

  /** The route after one reconcile: a failed lookup is an error and leaves it as it was. */
  function RouteAfter(k: Key, auth: bool, route: Option<HttpRoute>, r: Resolution): Option<HttpRoute> {
    if r.LookupFailed? then route else RouteFor(k, auth, r)
  }

  /** Reconciling just the listed notebooks. */
  function Reconciled(requests: seq<Key>, auth: Key -> bool, routes: map<Key, Option<HttpRoute>>,
                      config: Option<map<string, string>>, seen: Assignment): map<Key, Option<HttpRoute>> {
    map k | k in routes ::
      if k in requests then RouteAfter(k, auth(k), routes[k], NotebookIngress(k.namespace, config, seen)) else routes[k]
  }

  /** Incremental is full. The comparison and the reconciles look at the cluster separately, and any
      lookup of either may fail. From a cluster in which every route matches the old configuration,
      reconciling only the notebooks the comparison returns ends with every route matching the new
      one, but for those among them whose own lookup failed; these keep their route, and are tried
      again. */
  lemma {:induction false} IncrementalEqualsFull(all: seq<Key>, auth: Key -> bool, routes: map<Key, Option<HttpRoute>>,
                                                 before: Option<map<string, string>>,
                                                 after: Option<map<string, string>>, comparing: Assignment,
                                                 reconciling: Assignment, truth: Assignment)
    requires AllMatch(all, auth, routes, before, truth) && Observes(comparing, truth) && Observes(reconciling, truth)
    ensures var requests := ChangedNotebooks(all, before, after, comparing);
      var r := Reconciled(requests, auth, routes, after, reconciling);
      forall k <- all :: k in r &&
        if k in requests && NotebookIngress(k.namespace, after, reconciling).LookupFailed? then r[k] == routes[k]
        else Matches(k, auth(k), r[k], after, truth)
  {
    hide ChangedNotebooks, NotebookIngress, Matches, RouteFor;
    var requests := ChangedNotebooks(all, before, after, comparing);
    var r := Reconciled(requests, auth, routes, after, reconciling);
    forall k | k in all
      ensures k in r &&
        if k in requests && NotebookIngress(k.namespace, after, reconciling).LookupFailed? then r[k] == routes[k]
        else Matches(k, auth(k), r[k], after, truth)
    {
      if k !in requests {
        LeftAloneMatches(all, auth(k), routes[k], before, after, comparing, truth, k);
      } else if !NotebookIngress(k.namespace, after, reconciling).LookupFailed? {
        AnsweredMatches(k, auth(k), after, reconciling, truth);
      }
    }
  }

  /** Where the reconciles' lookups all answer, every route matches. */
  lemma {:induction false} FullOnceAnswered(all: seq<Key>, auth: Key -> bool, routes: map<Key, Option<HttpRoute>>,
                                            before: Option<map<string, string>>, after: Option<map<string, string>>,
                                            comparing: Assignment, reconciling: Assignment, truth: Assignment)
    requires AllMatch(all, auth, routes, before, truth) && Observes(comparing, truth) && Observes(reconciling, truth)
    requires forall k <- all :: !NotebookIngress(k.namespace, after, reconciling).LookupFailed?
    ensures AllMatch(all, auth, Reconciled(ChangedNotebooks(all, before, after, comparing), auth, routes, after,
      reconciling), after, truth)
  {
    hide ChangedNotebooks, NotebookIngress, Matches, Reconciled, Observes;
    IncrementalEqualsFull(all, auth, routes, before, after, comparing, reconciling, truth);
  }

  /** A listing of the notebooks that fails counts as an empty one: nothing is reconciled, every route is
      left as it was, and exactly those notebooks whose gateway changed are left on the old
      configuration, until something else has them reconciled. */
  lemma {:induction false} ListingFailed(all: seq<Key>, auth: Key -> bool, routes: map<Key, Option<HttpRoute>>,
                                         before: Option<map<string, string>>, after: Option<map<string, string>>,
                                         comparing: Assignment, reconciling: Assignment, truth: Assignment)
    requires AllMatch(all, auth, routes, before, truth)
    ensures ChangedNotebooks([], before, after, comparing) == []
    ensures Reconciled([], auth, routes, after, reconciling) == routes
    ensures forall k <- all :: !LookupsFail(k.namespace, before, after, truth) ==>
      (Matches(k, auth(k), routes[k], after, truth) <==> !Concerned(k, before, after, truth))
  {
    hide NotebookIngress, RouteFor, IngressData;
    forall k | k in all && !LookupsFail(k.namespace, before, after, truth)
      ensures Matches(k, auth(k), routes[k], after, truth) <==> !Concerned(k, before, after, truth)
    {
      assert Matches(k, auth(k), routes[k], before, truth);
      ConcernedIsChanged(k, auth(k), NotebookIngress(k.namespace, before, truth),
        NotebookIngress(k.namespace, after, truth));
    }
  }

  lemma {:induction false} AnsweredTruly(ns: string, config: Option<map<string, string>>, seen: Assignment,
                                         truth: Assignment)
    requires Observes(seen, truth) && !NotebookIngress(ns, config, seen).LookupFailed?
    ensures NotebookIngress(ns, config, seen) == NotebookIngress(ns, config, truth)
  {}

  lemma {:induction false} AnsweredMatches(k: Key, auth: bool, config: Option<map<string, string>>, seen: Assignment,
                                           truth: Assignment)
    requires Observes(seen, truth) && !NotebookIngress(k.namespace, config, seen).LookupFailed?
    ensures Matches(k, auth, RouteFor(k, auth, NotebookIngress(k.namespace, config, seen)), config, truth)
  {
    AnsweredTruly(k.namespace, config, seen, truth);
  }

  /** A notebook the comparison leaves out has the right route already. */
  lemma {:induction false} LeftAloneMatches(all: seq<Key>, auth: bool, route: Option<HttpRoute>,
                                            before: Option<map<string, string>>, after: Option<map<string, string>>,
                                            comparing: Assignment, truth: Assignment, k: Key)
    requires k in all && k !in ChangedNotebooks(all, before, after, comparing)
    requires Matches(k, auth, route, before, truth) && Observes(comparing, truth)
    ensures Matches(k, auth, route, after, truth)
  {
    if IngressData(before) == IngressData(after) {
      SameDataSameIngress(k.namespace, before, after, truth);
    } else {
      LeftAlone(all, auth, before, after, comparing, k);
      AnsweredTruly(k.namespace, before, comparing, truth);
      AnsweredTruly(k.namespace, after, comparing, truth);
    }
  }

  lemma {:induction false} LeftAlone(all: seq<Key>, auth: bool, before: Option<map<string, string>>,
                                     after: Option<map<string, string>>, env: Assignment, k: Key)
    requires k in all && k !in ChangedNotebooks(all, before, after, env) && IngressData(before) != IngressData(after)
    ensures !LookupsFail(k.namespace, before, after, env)
    ensures RouteFor(k, auth, NotebookIngress(k.namespace, before, env))
      == RouteFor(k, auth, NotebookIngress(k.namespace, after, env))
  {
    var j: nat :| j < |all| && all[j] == k;
    assert !LookupsFail(all[j].namespace, before, after, env);
    if Concerned(k, before, after, env) { SelWithin(all, Concerns(before, after, env), j); }
    ConcernedIsChanged(k, auth, NotebookIngress(k.namespace, before, env), NotebookIngress(k.namespace, after, env));
  }

  /** And nothing too many: without lookup failures only notebooks whose route changes are listed. */
  lemma {:induction false} OnlyTheConcerned(all: seq<Key>, auth: bool, before: Option<map<string, string>>,
                                            after: Option<map<string, string>>, env: Assignment, k: Key)
    requires forall i :: 0 <= i < |all| ==> !LookupsFail(all[i].namespace, before, after, env)
    requires k in ChangedNotebooks(all, before, after, env)
    ensures k in all
    ensures RouteFor(k, auth, NotebookIngress(k.namespace, before, env)) != RouteFor(k, auth,
      NotebookIngress(k.namespace, after, env))
  {
    SelSound(all, Concerns(before, after, env), k);
    var j: nat :| j < |all| && all[j] == k;
    assert !LookupsFail(all[j].namespace, before, after, env);
    ConcernedIsChanged(k, auth, NotebookIngress(k.namespace, before, env), NotebookIngress(k.namespace, after, env));
  }
}
