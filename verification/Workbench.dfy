/** The workbench an accepted mutation leaves, in the terms of a pod: which variables hold what, what is
    mounted where, what the sidecar runs, asks for and waits for. Names and values are written out. */
module Workbench {
  import opened Text
  import opened Sequences
  import opened PodModel
  import opened Mutators
  import opened EnvPipeline
  import opened MountPipeline
  import opened Pipeline
  import opened Selection

  // ----- What is asked for ---------------------------------------------------------------------------

  /** What a text holds between its white space. */
  ghost predicate TrimmedTo(s: string, r: string) {
    if Blank(s) then r == "" else exists i, j :: Trimmed(s, r, i, j)
  }

  /** The MLflow instance asked for; none is the empty one. */
  ghost predicate InstanceAsked(annotations: map<string, string>, instance: string) {
    if "opendatahub.io/mlflow-instance" in annotations
    then TrimmedTo(annotations["opendatahub.io/mlflow-instance"], instance)
    else instance == ""
  }

  predicate SidecarAsked(annotations: map<string, string>) {
    && "notebooks.opendatahub.io/inject-auth" in annotations
    && annotations["notebooks.opendatahub.io/inject-auth"] in {"1", "t", "T", "true", "True", "TRUE"}
  }

  predicate FeastAsked(labels: map<string, string>) {
    "opendatahub.io/feast-integration" in labels && labels["opendatahub.io/feast-integration"] == "true"
  }

  /** The Feast volume is listed. */
  predicate FeastListed(volumes: seq<Volume>) {
    exists i :: 0 <= i < |volumes| && volumes[i].name == "odh-feast-config"
  }

  /** A resource: the default where the annotation is missing or empty, else the quantity it holds. */
  ghost predicate QuantityAsked(annotations: map<string, string>, key: string, default: real, parse: map<string, real>,
                                x: real)
  {
    if key !in annotations || annotations[key] == "" then x == default
    else exists text <- parse.Keys :: TrimmedTo(annotations[key], text) && parse[text] == x
  }

  /** The resources of the sidecar: a tenth of a core and 64 MiB, unless the annotations say otherwise. */
  ghost predicate ResourcesAsked(annotations: map<string, string>, parse: map<string, real>, r: Resources) {
    && QuantityAsked(annotations, "notebooks.opendatahub.io/auth-sidecar-cpu-request", 0.1, parse, r.cpuRequest)
    && QuantityAsked(annotations, "notebooks.opendatahub.io/auth-sidecar-memory-request", 67108864.0, parse,
                     r.memoryRequest)
    && QuantityAsked(annotations, "notebooks.opendatahub.io/auth-sidecar-cpu-limit", 0.1, parse, r.cpuLimit)
    && QuantityAsked(annotations, "notebooks.opendatahub.io/auth-sidecar-memory-limit", 67108864.0, parse,
                     r.memoryLimit)
  }

  predicate Sensible(r: Resources) {
    0.0 <= r.cpuRequest <= r.cpuLimit && 0.0 <= r.memoryRequest <= r.memoryLimit
  }

  lemma {:induction false} TrimSpaceTrims(s: string, r: string)
    ensures TrimmedTo(s, r) <==> r == TrimSpace(s)
  {
    TrimmedText(s);
    if !Blank(s) && TrimmedTo(s, r) {
      var i, j :| Trimmed(s, r, i, j);
      var k, l :| Trimmed(s, TrimSpace(s), k, l);
      TrimsAgree(s, i, j, k, l);
    }
  }

  lemma {:induction false} TrimsAgree(s: string, i: int, j: int, k: int, l: int)
    requires 0 <= i < j <= |s| && Trimmed(s, s[i..j], i, j) && 0 <= k < l <= |s| && Trimmed(s, s[k..l], k, l)
    ensures i == k && j == l
  {
    BlankEnds(s, i, j);
    BlankEnds(s, k, l);
  }

  lemma {:induction false} BlankEnds(s: string, i: int, j: int)
    requires 0 <= i <= j <= |s| && Blank(s[..i]) && Blank(s[j..])
    ensures forall k :: 0 <= k < i || j <= k < |s| ==> IsSpace(s[k])
  {
    forall k | 0 <= k < i || j <= k < |s| ensures IsSpace(s[k]) {
      if k < i { assert s[..i][k] == s[k]; } else { assert s[j..][k - j] == s[k]; }
    }
  }

  lemma {:induction false} InstanceIsTrimmed(annotations: map<string, string>, instance: string)
    ensures InstanceAsked(annotations, instance) <==> instance == MlflowInstance(annotations)
  {
    hide TrimSpace, TrimmedTo;
    TrimSpaceTrims(Lookup(annotations, MLFLOW_ANNOTATION), instance);
    TrimSpaceTrims("", "");
    assert Blank("");
    assert TrimSpace("") == "" by { TrimmedText(""); }
  }

  lemma {:induction false} QuantityIs(annotations: map<string, string>, key: string, default: real,
                                      parse: map<string, real>, x: real)
    requires 0.0 <= default
    ensures Quantity(annotations, key, default, parse) == Ok(x) <==>
      QuantityAsked(annotations, key, default, parse, x) && 0.0 <= x
  {
    hide TrimSpace, TrimmedTo;
    var text := Lookup(annotations, key);
    TrimSpaceTrims(text, TrimSpace(text));
    if text != "" {
      forall t | t in parse.Keys && TrimmedTo(text, t) ensures t == TrimSpace(text) { TrimSpaceTrims(text, t); }
    }
  }

  lemma {:induction false} ResourcesAre(annotations: map<string, string>, parse: map<string, real>, r: Resources)
    ensures SidecarResources(annotations, parse) == Ok(r) <==> ResourcesAsked(annotations, parse, r) && Sensible(r)
  {
    hide Quantity, QuantityAsked;
    QuantityIs(annotations, CPU_REQUEST_ANNOTATION, 0.1, parse, r.cpuRequest);
    QuantityIs(annotations, MEMORY_REQUEST_ANNOTATION, 67108864.0, parse, r.memoryRequest);
    QuantityIs(annotations, CPU_LIMIT_ANNOTATION, 0.1, parse, r.cpuLimit);
    QuantityIs(annotations, MEMORY_LIMIT_ANNOTATION, 67108864.0, parse, r.memoryLimit);
  }

  // ----- Variables --------------------------------------------------------------------------------------

  /** All but the first. */
  function Rest<T>(s: seq<T>): seq<T> { if s == [] then [] else s[1..] }

  /** Every variable of the name has the value, or is added with it; nothing else about them changes. */
  ghost predicate EverySet(before: seq<EnvVar>, after: seq<EnvVar>, n: string, v: string) {
    var b, a := Sel(before, EnvNamed(n)), Sel(after, EnvNamed(n));
    if b == [] then a == [EnvVar(n, v, None)]
    else |a| == |b| && forall i :: 0 <= i < |b| ==> a[i] == b[i].(value := v)
  }

  /** The first variable of the name has the value, or is added with it. */
  ghost predicate FirstSet(before: seq<EnvVar>, after: seq<EnvVar>, n: string, v: string) {
    var b, a := Sel(before, EnvNamed(n)), Sel(after, EnvNamed(n));
    a == (if b == [] then [EnvVar(n, v, None)] else [b[0].(value := v)] + b[1..])
  }

  ghost predicate FirstCut(before: seq<EnvVar>, after: seq<EnvVar>, n: string) {
    Sel(after, EnvNamed(n)) == Rest(Sel(before, EnvNamed(n)))
  }

  ghost predicate Same(before: seq<EnvVar>, after: seq<EnvVar>, n: string) {
    Sel(after, EnvNamed(n)) == Sel(before, EnvNamed(n))
  }

  predicate IsCert(n: string) {
    n in {"PIP_CERT", "REQUESTS_CA_BUNDLE", "SSL_CERT_FILE", "PIPELINES_SSL_SA_CERTS", "GIT_SSL_CAINFO",
          "KF_PIPELINES_SSL_SA_CERTS"}
  }

  predicate IsMlflow(n: string) {
    n in {"MLFLOW_K8S_INTEGRATION", "MLFLOW_TRACKING_AUTH", "MLFLOW_TRACKING_URI"}
  }

  /** The address of an instance behind a gateway. */
  predicate TracksAt(uri: string, host: string, instance: string) {
    var gateway := if "https://" <= host || "http://" <= host then host else "https://" + host;
    uri == gateway + "/" + (if instance == "mlflow" then "mlflow" else "mlflow-" + instance)
  }

  ghost predicate MlflowVariables(before: seq<EnvVar>, after: seq<EnvVar>, instance: string,
                                  mlflow: Option<Option<string>>) {
    match mlflow
    case None => forall n: string :: IsMlflow(n) ==> Same(before, after, n)
    case Some(host) =>
      if instance == "" then forall n: string :: IsMlflow(n) ==> FirstCut(before, after, n)
      else
        && FirstSet(before, after, "MLFLOW_K8S_INTEGRATION", "true")
        && FirstSet(before, after, "MLFLOW_TRACKING_AUTH", "kubernetes-namespaced")
        && match host
           case None => FirstCut(before, after, "MLFLOW_TRACKING_URI")
           case Some(h) =>
             exists uri :: TracksAt(uri, h, instance) && FirstSet(before, after, "MLFLOW_TRACKING_URI", uri)
  }

  ghost predicate ProxyVariables(before: seq<EnvVar>, after: seq<EnvVar>, clusterProxy: Option<ClusterProxy>) {
    match clusterProxy
    case None =>
      && Same(before, after, "HTTP_PROXY") && Same(before, after, "HTTPS_PROXY") && Same(before, after, "NO_PROXY")
    case Some(p) =>
      && EverySet(before, after, "HTTP_PROXY", p.http)
      && EverySet(before, after, "HTTPS_PROXY", p.https)
      && EverySet(before, after, "NO_PROXY", p.noProxy)
  }

  predicate IsManaged(n: string) {
    IsCert(n) || IsMlflow(n) || n in {"HTTP_PROXY", "HTTPS_PROXY", "NO_PROXY"} || n == "JUPYTER_IMAGE"
  }

  /** The variables of the notebook container, name by name. */
  ghost predicate OwnVariables(before: seq<EnvVar>, after: seq<EnvVar>, instance: string, snap: Snapshot) {
    && (forall n: string :: IsCert(n) ==>
      if snap.caBundle then EverySet(before, after, n, "/etc/pki/tls/custom-certs/ca-bundle.crt")
      else Same(before, after, n))
    && MlflowVariables(before, after, instance, snap.mlflow)
    && ProxyVariables(before, after, snap.clusterProxy)
    && forall n: string :: !IsManaged(n) ==> Same(before, after, n)
  }

  lemma {:induction false} RevalueEvery(env: seq<EnvVar>, n: string, v: string)
    ensures var b, a := Sel(env, EnvNamed(n)), Sel(Revalue(env, n, v), EnvNamed(n));
      |a| == |b| && forall i :: 0 <= i < |b| ==> a[i] == b[i].(value := v)
  {
    if env != [] { RevalueEvery(env[1..], n, v); }
  }

  lemma {:induction false} SetAllEvery(env: seq<EnvVar>, n: string, v: string)
    ensures EverySet(env, SetAll(env, n, v), n, v)
  {
    SelFirst(env, EnvNamed(n));
    RevalueEvery(env, n, v);
    SelConcat(env, [EnvVar(n, v, None)], EnvNamed(n));
    SelOne(EnvVar(n, v, None), EnvNamed(n));
  }

  lemma {:induction false} InjectAllEvery(env: seq<EnvVar>, vars: seq<(string, string)>, k: nat)
    requires k < |vars| && forall i, j :: 0 <= i < j < |vars| ==> vars[i].0 != vars[j].0
    ensures EverySet(env, InjectAll(env, vars), vars[k].0, vars[k].1)
    decreases |vars|
  {
    hide Sel, SetAll;
    var next := SetAll(env, vars[0].0, vars[0].1);
    if k == 0 {
      SetAllEvery(env, vars[0].0, vars[0].1);
      InjectAllSel(next, vars[1..], vars[0].0);
    } else {
      InjectAllEvery(next, vars[1..], k - 1);
      SetAllSel(env, vars[0].0, vars[0].1, vars[k].0);
    }
  }

  lemma {:induction false} InjectedEvery(env: seq<EnvVar>, vars: seq<(string, string)>, names: seq<string>,
                                         value: string -> string, n: string)
    requires Enumerates(vars, names, value) && n in names
    ensures EverySet(env, InjectAll(env, vars), n, value(n))
  {
    hide EverySet, InjectAll;
    var k :| 0 <= k < |vars| && vars[k].0 == n;
    InjectAllEvery(env, vars, k);
  }

  lemma {:induction false} SetFirstIs(env: seq<EnvVar>, n: string, v: string)
    ensures FirstSet(env, SetFirst(env, n, v), n, v)
  {
    hide Sel, First;
    var p, k := EnvNamed(n), First(env, EnvNamed(n));
    SelFirst(env, p);
    if k < |env| {
      SelSet(env, k, env[k].(value := v), p);
      assert [] + [env[k].(value := v)] + Sel(env[k+1..], p) == [env[k].(value := v)] + Sel(env, p)[1..];
    } else {
      SelConcat(env, [EnvVar(n, v, None)], p);
      SelOne(EnvVar(n, v, None), p);
    }
  }

  lemma {:induction false} CertIsListed(n: string)
    ensures IsCert(n) <==> n in CERT_ENV_NAMES
  {
    var l := CERT_ENV_NAMES;
    assert l[0] == "PIP_CERT" && l[1] == "REQUESTS_CA_BUNDLE" && l[2] == "SSL_CERT_FILE"
        && l[3] == "PIPELINES_SSL_SA_CERTS" && l[4] == "GIT_SSL_CAINFO" && l[5] == "KF_PIPELINES_SSL_SA_CERTS";
  }

  lemma {:induction false} ProxyIsListed(n: string)
    ensures n in {"HTTP_PROXY", "HTTPS_PROXY", "NO_PROXY"} <==> n in PROXY_ENV_NAMES
  {
    var l := PROXY_ENV_NAMES;
    assert l[0] == "HTTP_PROXY" && l[1] == "HTTPS_PROXY" && l[2] == "NO_PROXY";
  }

  lemma {:induction false} CertVariablesSet(env: seq<EnvVar>, instance: string, snap: Snapshot, o: Orders, n: string)
    requires Feasible(o, snap) && IsCert(n)
    ensures if snap.caBundle then EverySet(env, OwnEnv(env, instance, snap, o), n,
      "/etc/pki/tls/custom-certs/ca-bundle.crt")
      else Same(env, OwnEnv(env, instance, snap, o), n)
  {
    hide InjectAll, MlflowEnv, Sel;
    CertIsListed(n);
    EnvNamesApart(n);
    if snap.caBundle { InjectedEvery(env, o.cert, CERT_ENV_NAMES, CertValue(), n); }
    MlflowStepSel(CertStep(env, snap, o), instance, snap, n);
    ProxyStepSel(MlflowStep(CertStep(env, snap, o), instance, snap), snap, o, n);
  }

  lemma {:induction false} ProxyVariableSet(env: seq<EnvVar>, instance: string, snap: Snapshot, o: Orders, n: string)
    requires Feasible(o, snap) && n in {"HTTP_PROXY", "HTTPS_PROXY", "NO_PROXY"}
    ensures if snap.clusterProxy.Some? then
      EverySet(env, OwnEnv(env, instance, snap, o), n, ProxyValue(snap.clusterProxy.value)(n))
      else Same(env, OwnEnv(env, instance, snap, o), n)
  {
    hide InjectAll, MlflowEnv, Sel, ProxyValue;
    ProxyIsListed(n);
    EnvNamesApart(n);
    var e6 := MlflowStep(CertStep(env, snap, o), instance, snap);
    if n in CERT_ENV_NAMES { EnvNamesApart(n); }
    CertStepSel(env, snap, o, n);
    MlflowStepSel(CertStep(env, snap, o), instance, snap, n);
    if snap.clusterProxy.Some? { InjectedEvery(e6, o.proxy, PROXY_ENV_NAMES, ProxyValue(snap.clusterProxy.value), n); }
  }

  lemma {:induction false} ProxyVariablesSet(env: seq<EnvVar>, instance: string, snap: Snapshot, o: Orders)
    requires Feasible(o, snap)
    ensures ProxyVariables(env, OwnEnv(env, instance, snap, o), snap.clusterProxy)
  {
    hide OwnEnv, Feasible, EverySet, Same;
    ProxyVariableSet(env, instance, snap, o, "HTTP_PROXY");
    ProxyVariableSet(env, instance, snap, o, "HTTPS_PROXY");
    ProxyVariableSet(env, instance, snap, o, "NO_PROXY");
    assert "HTTP_PROXY" != "HTTPS_PROXY" && "NO_PROXY" != "HTTP_PROXY" && "NO_PROXY" != "HTTPS_PROXY";
  }

  lemma {:induction false} TrackingUriIs(host: string, instance: string)
    requires instance != ""
    ensures TracksAt(TrackingUri(host, instance), host, instance)
  {}

  /** The address has a scheme and names the gateway; its last segment names the instance. */
  lemma {:induction false} InstanceIsTracked(uri: string, host: string, instance: string)
    requires TracksAt(uri, host, instance) && '/' !in instance
    ensures "https://" <= uri || "http://" <= uri
    ensures host <= uri || "https://" + host <= uri
    ensures var parts := Split(uri, '/');
      parts[|parts| - 1] == if instance == "mlflow" then "mlflow" else "mlflow-" + instance
  {
    hide Split;
    var gateway := if "https://" <= host || "http://" <= host then host else "https://" + host;
    var path := if instance == "mlflow" then "mlflow" else "mlflow-" + instance;
    SplitLast(gateway, path, '/');
    assert gateway + "/" + path == gateway + ['/'] + path;
  }

  lemma {:induction false} SplitLast(a: string, b: string, sep: char)
    requires sep !in b
    ensures var parts := Split(a + [sep] + b, sep); |parts| >= 2 && parts[|parts| - 1] == b
  {
    var s := a + [sep] + b;
    if a == [] {
      assert s[1..] == b;
      SplitNone(b, sep);
    } else {
      assert s[1..] == a[1..] + [sep] + b;
      SplitLast(a[1..], b, sep);
    }
  }

  lemma {:induction false} MlflowVariablesSet(env: seq<EnvVar>, instance: string, host: Option<string>)
    ensures MlflowVariables(env, MlflowEnv(env, instance, host), instance, Some(host))
  {
    hide Sel, First, SetFirst, RemoveFirst, TrackingUri, TracksAt;
    MlflowNamesApart();
    if instance == "" {
      var a := RemoveFirst(env, EnvNamed(MLFLOW_K8S));
      var b := RemoveFirst(a, EnvNamed(MLFLOW_AUTH));
      RemoveEnvSel(env, MLFLOW_K8S, MLFLOW_AUTH); RemoveEnvSel(env, MLFLOW_K8S, MLFLOW_URI);
      RemoveEnvSel(a, MLFLOW_AUTH, MLFLOW_K8S); RemoveEnvSel(a, MLFLOW_AUTH, MLFLOW_URI);
      RemoveEnvSel(b, MLFLOW_URI, MLFLOW_K8S); RemoveEnvSel(b, MLFLOW_URI, MLFLOW_AUTH);
    } else {
      var a := SetFirst(env, MLFLOW_K8S, "true");
      var b := SetFirst(a, MLFLOW_AUTH, "kubernetes-namespaced");
      SetFirstIs(env, MLFLOW_K8S, "true");
      SetFirstIs(a, MLFLOW_AUTH, "kubernetes-namespaced");
      SetFirstSel(env, MLFLOW_K8S, "true", MLFLOW_AUTH);
      SetFirstSel(env, MLFLOW_K8S, "true", MLFLOW_URI);
      SetFirstSel(a, MLFLOW_AUTH, "kubernetes-namespaced", MLFLOW_K8S);
      SetFirstSel(a, MLFLOW_AUTH, "kubernetes-namespaced", MLFLOW_URI);
      if host.None? {
        RemoveEnvSel(b, MLFLOW_URI, MLFLOW_K8S); RemoveEnvSel(b, MLFLOW_URI, MLFLOW_AUTH);
      } else {
        var uri := TrackingUri(host.value, instance);
        TrackingUriIs(host.value, instance);
        SetFirstIs(b, MLFLOW_URI, uri);
        SetFirstSel(b, MLFLOW_URI, uri, MLFLOW_K8S); SetFirstSel(b, MLFLOW_URI, uri, MLFLOW_AUTH);
      }
    }
  }

  /** The MLflow variables depend on nothing but the MLflow variables. */
  lemma {:induction false} MlflowVariablesCarry(a: seq<EnvVar>, b: seq<EnvVar>, c: seq<EnvVar>, d: seq<EnvVar>,
                                                instance: string, mlflow: Option<Option<string>>)
    requires SameMlflow(a, c) && SameMlflow(b, d) && MlflowVariables(a, b, instance, mlflow)
    ensures MlflowVariables(c, d, instance, mlflow)
  {
    hide Sel, TracksAt;
    assert forall n: string :: IsMlflow(n) ==> n == MLFLOW_K8S || n == MLFLOW_AUTH || n == MLFLOW_URI;
    if mlflow.Some? && instance != "" && mlflow.value.Some? {
      var uri :| TracksAt(uri, mlflow.value.value, instance) && FirstSet(a, b, "MLFLOW_TRACKING_URI", uri);
      assert FirstSet(c, d, "MLFLOW_TRACKING_URI", uri);
    }
  }

  /** All variables of the notebook container, from the submitted ones by way of the image step. */
  lemma {:induction false} OwnVariablesSet(before: seq<EnvVar>, painted: seq<EnvVar>, instance: string, snap: Snapshot,
                                           o: Orders)
    requires Feasible(o, snap)
    requires forall n: string :: n != JUPYTER_IMAGE ==> Sel(painted, EnvNamed(n)) == Sel(before, EnvNamed(n))
    ensures OwnVariables(before, OwnEnv(painted, instance, snap, o), instance, snap)
  {
    hide OwnEnv, Feasible, Sel, TracksAt, MlflowVariables;
    var after := OwnEnv(painted, instance, snap, o);
    forall n: string | IsCert(n)
      ensures if snap.caBundle then EverySet(before, after, n, "/etc/pki/tls/custom-certs/ca-bundle.crt")
        else Same(before, after, n)
    {
      CertVariablesSet(painted, instance, snap, o, n);
      EnvNamesApart(n); CertIsListed(n);
    }
    ProxyVariablesSet(painted, instance, snap, o);
    NamedApart();
    OwnMlflowSet(before, painted, instance, snap, o);
    forall n: string | !IsManaged(n) ensures Same(before, after, n) { UnmanagedStay(painted, instance, snap, o, n); }
  }

  lemma {:induction false} NamedApart()
    ensures JUPYTER_IMAGE == "JUPYTER_IMAGE" != "HTTP_PROXY" && JUPYTER_IMAGE != "HTTPS_PROXY"
    ensures JUPYTER_IMAGE != "NO_PROXY"
  {
    assert |"HTTP_PROXY"| == 10 && |"HTTPS_PROXY"| == 11 && |"NO_PROXY"| == 8 && |JUPYTER_IMAGE| == 13;
  }

  lemma {:induction false} OwnMlflowSet(before: seq<EnvVar>, painted: seq<EnvVar>, instance: string, snap: Snapshot,
                                        o: Orders)
    requires Feasible(o, snap)
    requires forall n: string :: n != JUPYTER_IMAGE ==> Sel(painted, EnvNamed(n)) == Sel(before, EnvNamed(n))
    ensures MlflowVariables(before, OwnEnv(painted, instance, snap, o), instance, snap.mlflow)
  {
    hide Feasible, Sel, CertStep, ProxyStep, MlflowEnv, MlflowVariables;
    var e2 := CertStep(painted, snap, o);
    var e6 := MlflowStep(e2, instance, snap);
    EnvNamesApart(JUPYTER_IMAGE);
    CertStepSameMlflow(painted, snap, o);
    ProxyStepSameMlflow(e6, snap, o);
    if snap.mlflow.Some? {
      MlflowVariablesSet(e2, instance, snap.mlflow.value);
    } else {
      NoMlflow(e2, instance);
    }
    MlflowVariablesCarry(e2, e6, before, OwnEnv(painted, instance, snap, o), instance, snap.mlflow);
  }

  lemma {:induction false} NoMlflow(env: seq<EnvVar>, instance: string)
    ensures MlflowVariables(env, env, instance, None)
  {}

  lemma {:induction false} UnmanagedStay(env: seq<EnvVar>, instance: string, snap: Snapshot, o: Orders, n: string)
    requires Feasible(o, snap) && !IsManaged(n)
    ensures Same(env, OwnEnv(env, instance, snap, o), n)
  {
    hide CertStep, MlflowStep, ProxyStep, Feasible, Sel;
    CertIsListed(n);
    ProxyIsListed(n);
    CertStepSel(env, snap, o, n);
    MlflowStepSel(CertStep(env, snap, o), instance, snap, n);
    ProxyStepSel(MlflowStep(CertStep(env, snap, o), instance, snap), snap, o, n);
  }

  // ----- Mounts -----------------------------------------------------------------------------------------

  /** The Elyra secret is to be mounted. */
  predicate ElyraReady(snap: Snapshot) {
    snap.elyra == Some(Usable)
  }

  predicate AtElyra(m: VolumeMount) {
    m.name == "elyra-dsp-details" || m.mountPath == "/opt/app-root/runtimes"
  }

  /** Something keeps the Elyra secret out, other than a certificate mount that is about to be replaced. */
  predicate ElyraKeptOut(ms: seq<VolumeMount>, bundle: bool) {
    exists i :: 0 <= i < |ms| && AtElyra(ms[i]) && !(bundle && FirstCertMount(ms, i))
  }

  predicate FirstCertMount(ms: seq<VolumeMount>, i: nat) {
    i < |ms| && ms[i].name == "trusted-ca" && forall j :: 0 <= j < i ==> ms[j].name != "trusted-ca"
  }

  /** The mounts of a container that is not the notebook's: what it had, and at most two more. */
  ghost predicate SharedMounted(before: seq<VolumeMount>, after: seq<VolumeMount>, snap: Snapshot) {
    after == before
           + (if snap.runtimeImages.Usable? && Sel(before, MountNamed("runtime-images")) == [] then
                [VolumeMount("runtime-images", "/opt/app-root/pipeline-runtimes/", false, "")] else [])
           + (if ElyraReady(snap) && !ElyraKeptOut(before, false) then
                [VolumeMount("elyra-dsp-details", "/opt/app-root/runtimes", false, "")] else [])
  }

  /** The mounts of the notebook container, name by name. */
  ghost predicate OwnMounted(before: seq<VolumeMount>, after: seq<VolumeMount>, feast: bool, listed: bool,
                             snap: Snapshot)
  {
    && Sel(after, MountNamed("trusted-ca")) == CertMountsWanted(Sel(before, MountNamed("trusted-ca")), snap.caBundle)
    && Sel(after, MountNamed("runtime-images")) ==
       RuntimeMountsWanted(Sel(before, MountNamed("runtime-images")), snap.runtimeImages.Usable?)
    && Sel(after, MountNamed("elyra-dsp-details")) ==
       (if ElyraReady(snap) && !ElyraKeptOut(before, snap.caBundle)
        then [VolumeMount("elyra-dsp-details", "/opt/app-root/runtimes", false, "")]
        else Sel(before, MountNamed("elyra-dsp-details")))
    && Sel(after, MountNamed("odh-feast-config")) ==
       FeastMountsWanted(Sel(before, MountNamed("odh-feast-config")), feast, listed)
    && forall n: string :: n !in {"trusted-ca", "runtime-images", "elyra-dsp-details", "odh-feast-config"} ==>
      Sel(after, MountNamed(n)) == Sel(before, MountNamed(n))
  }

  function CertMountsWanted(b: seq<VolumeMount>, bundle: bool): seq<VolumeMount> {
    if bundle then [VolumeMount("trusted-ca", "/etc/pki/tls/custom-certs", true, "")] + Rest(b) else b
  }

  function RuntimeMountsWanted(b: seq<VolumeMount>, usable: bool): seq<VolumeMount> {
    if usable && b == [] then [VolumeMount("runtime-images", "/opt/app-root/pipeline-runtimes/", false, "")] else b
  }

  /** Mounted when asked for; taken away when not, and the volume is listed. */
  function FeastMountsWanted(b: seq<VolumeMount>, feast: bool, listed: bool): seq<VolumeMount> {
    if feast then [VolumeMount("odh-feast-config", "/opt/app-root/src/feast-config", true, "")] + Rest(b)
    else if listed then Rest(b)
    else b
  }

  lemma {:induction false} ElyraSeen(ms: seq<VolumeMount>, snap: Snapshot)
    ensures var met := RuntimeMounts(CertMounts(ms, snap), snap);
      First(met, ElyraTaken()) < |met| <==> ElyraKeptOut(ms, snap.caBundle)
  {
    hide MountNamed;
    MountNamesApart();
    var met := RuntimeMounts(CertMounts(ms, snap), snap);
    var f := First(met, ElyraTaken());
    if f < |met| { ElyraSeenAt(ms, snap, f); }
    if ElyraKeptOut(ms, snap.caBundle) {
      var i :| 0 <= i < |ms| && AtElyra(ms[i]) && !(snap.caBundle && FirstCertMount(ms, i));
      CertKeeps(ms, snap, i);
      assert ElyraTaken()(met[i]);
    }
  }

  lemma {:induction false} CertKeeps(ms: seq<VolumeMount>, snap: Snapshot, i: nat)
    requires i < |ms| && !(snap.caBundle && FirstCertMount(ms, i))
    ensures |CertMounts(ms, snap)| >= |ms| && CertMounts(ms, snap)[i] == ms[i]
  {
    assert First(ms, MountNamed(TRUSTED_CA_VOLUME)) == i ==> FirstCertMount(ms, i);
  }

  lemma {:induction false} ElyraSeenAt(ms: seq<VolumeMount>, snap: Snapshot, f: nat)
    requires var met := RuntimeMounts(CertMounts(ms, snap), snap); f < |met| && ElyraTaken()(met[f])
    ensures ElyraKeptOut(ms, snap.caBundle)
  {
    MountNamesApart();
    var a := CertMounts(ms, snap);
    var k := First(ms, MountNamed(TRUSTED_CA_VOLUME));
    assert f < |a| && ElyraTaken()(a[f]);
    assert f < |ms| && a[f] == ms[f] && (snap.caBundle ==> f != k);
    assert AtElyra(ms[f]) && !(snap.caBundle && FirstCertMount(ms, f));
  }

  lemma {:induction false} SharedMountsAre(ms: seq<VolumeMount>, snap: Snapshot)
    ensures SharedMounted(ms, SharedMounts(ms, snap), snap)
  {
    hide Sel;
    SelFirst(ms, MountNamed(RUNTIME_VOLUME));
    ElyraSeen(ms, snap.(caBundle := false));
  }

  lemma {:induction false} OwnElyraIs(ms: seq<VolumeMount>, act: FeastAct, snap: Snapshot)
    ensures Sel(OwnMounts(ms, act, snap), MountNamed("elyra-dsp-details")) ==
      if ElyraReady(snap) && !ElyraKeptOut(ms, snap.caBundle)
      then [VolumeMount("elyra-dsp-details", "/opt/app-root/runtimes", false, "")]
      else Sel(ms, MountNamed("elyra-dsp-details"))
  {
    hide Sel, First, FeastMounts, ElyraKeptOut;
    MountNamesApart();
    var p := MountNamed(ELYRA_VOLUME);
    var a := CertMounts(ms, snap);
    var met := RuntimeMounts(a, snap);
    ElyraSeen(ms, snap);
    UpsertOther(ms, MountNamed(TRUSTED_CA_VOLUME), TRUSTED_CA_MOUNT, p);
    AppendOther(a, MountNamed(RUNTIME_VOLUME), RUNTIME_MOUNT, p);
    FeastMountsSel(SharedMounts(a, snap), act, ELYRA_VOLUME);
    if ElyraReady(snap) && First(met, ElyraTaken()) == |met| {
      SelNone(met, p);
      SelConcat(met, [ELYRA_MOUNT], p);
      SelOne(ELYRA_MOUNT, p);
    }
  }

  lemma {:induction false} OwnCertIs(ms: seq<VolumeMount>, act: FeastAct, snap: Snapshot)
    ensures Sel(OwnMounts(ms, act, snap), MountNamed("trusted-ca"))
         == CertMountsWanted(Sel(ms, MountNamed("trusted-ca")), snap.caBundle)
  {
    hide Sel, SharedMounts, FeastMounts;
    MountNamesApart();
    UpsertSame(ms, MountNamed(TRUSTED_CA_VOLUME), TRUSTED_CA_MOUNT);
    SharedMountsSel(CertMounts(ms, snap), snap, TRUSTED_CA_VOLUME);
    FeastMountsSel(SharedMounts(CertMounts(ms, snap), snap), act, TRUSTED_CA_VOLUME);
  }

  lemma {:induction false} OwnRuntimeIs(ms: seq<VolumeMount>, act: FeastAct, snap: Snapshot)
    ensures Sel(OwnMounts(ms, act, snap), MountNamed("runtime-images"))
         == RuntimeMountsWanted(Sel(ms, MountNamed("runtime-images")), snap.runtimeImages.Usable?)
  {
    hide Sel, FeastMounts;
    MountNamesApart();
    var p := MountNamed(RUNTIME_VOLUME);
    var a := CertMounts(ms, snap);
    UpsertOther(ms, MountNamed(TRUSTED_CA_VOLUME), TRUSTED_CA_MOUNT, p);
    AppendSame(a, p, RUNTIME_MOUNT);
    AppendOther(RuntimeMounts(a, snap), ElyraTaken(), ELYRA_MOUNT, p);
    FeastMountsSel(SharedMounts(a, snap), act, RUNTIME_VOLUME);
  }

  lemma {:induction false} OwnFeastIs(ms: seq<VolumeMount>, act: FeastAct, snap: Snapshot)
    ensures Sel(OwnMounts(ms, act, snap), MountNamed("odh-feast-config"))
         == FeastMountsWanted(Sel(ms, MountNamed("odh-feast-config")), act.Mount?, act.Unmount?)
  {
    hide Sel, SharedMounts;
    MountNamesApart();
    var p := MountNamed(FEAST_VOLUME);
    var met := SharedMounts(CertMounts(ms, snap), snap);
    UpsertOther(ms, MountNamed(TRUSTED_CA_VOLUME), TRUSTED_CA_MOUNT, p);
    SharedMountsSel(CertMounts(ms, snap), snap, FEAST_VOLUME);
    UpsertSame(met, p, FEAST_MOUNT);
    RemoveSame(met, p);
  }

  lemma {:induction false} OwnOthersAre(ms: seq<VolumeMount>, act: FeastAct, snap: Snapshot, n: string)
    requires n !in {"trusted-ca", "runtime-images", "elyra-dsp-details", "odh-feast-config"}
    ensures Sel(OwnMounts(ms, act, snap), MountNamed(n)) == Sel(ms, MountNamed(n))
  {
    hide Sel, SharedMounts, FeastMounts;
    UpsertOther(ms, MountNamed(TRUSTED_CA_VOLUME), TRUSTED_CA_MOUNT, MountNamed(n));
    SharedMountsSel(CertMounts(ms, snap), snap, n);
    FeastMountsSel(SharedMounts(CertMounts(ms, snap), snap), act, n);
  }

  lemma {:induction false} OwnMountsAre(ms: seq<VolumeMount>, act: FeastAct, snap: Snapshot)
    ensures OwnMounted(ms, OwnMounts(ms, act, snap), act.Mount?, act.Unmount?, snap)
  {
    hide Sel, OwnMounts, ElyraKeptOut;
    OwnCertIs(ms, act, snap);
    OwnRuntimeIs(ms, act, snap);
    OwnElyraIs(ms, act, snap);
    OwnFeastIs(ms, act, snap);
    forall n: string | n !in {"trusted-ca", "runtime-images", "elyra-dsp-details", "odh-feast-config"}
      ensures Sel(OwnMounts(ms, act, snap), MountNamed(n)) == Sel(ms, MountNamed(n))
    {
      OwnOthersAre(ms, act, snap, n);
    }
  }

  // ----- Volumes -------------------------------------------------------------------------------------------

  /** The volumes of a name: this one first, in place of the first that was there. */
  ghost predicate Placed(before: seq<Volume>, after: seq<Volume>, v: Volume) {
    Sel(after, VolumeNamed(v.name)) == [v] + Rest(Sel(before, VolumeNamed(v.name)))
  }

  ghost predicate Added(before: seq<Volume>, after: seq<Volume>, v: Volume) {
    Sel(after, VolumeNamed(v.name)) ==
    (if Sel(before, VolumeNamed(v.name)) == [] then [v] else Sel(before, VolumeNamed(v.name)))
  }

  ghost predicate Kept(before: seq<Volume>, after: seq<Volume>, n: string) {
    Sel(after, VolumeNamed(n)) == Sel(before, VolumeNamed(n))
  }

  ghost predicate SharedVolumes(before: seq<Volume>, after: seq<Volume>, snap: Snapshot) {
    && (if snap.caBundle then
          Placed(before, after,
            Volume("trusted-ca", ConfigMapSource("workbench-trusted-ca-bundle", [], true, None)))
        else Kept(before, after, "trusted-ca"))
    && (if snap.runtimeImages.Usable? then
          Added(before, after, Volume("runtime-images", ConfigMapSource("pipeline-runtime-images", [], true, None)))
        else Kept(before, after, "runtime-images"))
    && (if ElyraReady(snap) then
          Added(before, after, Volume("elyra-dsp-details", SecretSource("ds-pipeline-config", true, None)))
        else Kept(before, after, "elyra-dsp-details"))
  }

  ghost predicate FeastVolumePlaced(before: seq<Volume>, after: seq<Volume>, name: string, feast: bool) {
    if feast then
      Placed(before, after, Volume("odh-feast-config", ConfigMapSource(name + "-feast-config", [], false, None)))
    else Sel(after, VolumeNamed("odh-feast-config")) == Rest(Sel(before, VolumeNamed("odh-feast-config")))
  }

  ghost predicate SidecarVolumesPlaced(before: seq<Volume>, after: seq<Volume>, name: string, injected: bool) {
    if injected then
      && Placed(before, after,
        Volume("kube-rbac-proxy-config", ConfigMapSource(name + "-kube-rbac-proxy-config", [], false, Some(420))))
      && Placed(before, after,
        Volume("kube-rbac-proxy-tls-certificates", SecretSource(name + "-kube-rbac-proxy-tls", false, Some(420))))
    else
      && Kept(before, after, "kube-rbac-proxy-config") && Kept(before, after, "kube-rbac-proxy-tls-certificates")
  }

  /** The volumes of the pod, name by name. */
  ghost predicate VolumesPlaced(before: seq<Volume>, after: seq<Volume>, name: string, feast: bool, injected: bool,
                                snap: Snapshot)
  {
    && SharedVolumes(before, after, snap)
    && FeastVolumePlaced(before, after, name, feast)
    && SidecarVolumesPlaced(before, after, name, injected)
    && forall n: string :: n !in {"trusted-ca", "runtime-images", "elyra-dsp-details", "odh-feast-config",
                                  "kube-rbac-proxy-config", "kube-rbac-proxy-tls-certificates"} ==>
      Kept(before, after, n)
  }

  lemma {:induction false} SharedVolumesAre(vs: seq<Volume>, snap: Snapshot)
    ensures SharedVolumes(vs, MountedVolumes(vs, snap), snap)
  {
    hide Sel, First, Upsert, AppendIfAbsent;
    VolumeNamesApart();
    var ca, ri, el := VolumeNamed(TRUSTED_CA_VOLUME), VolumeNamed(RUNTIME_VOLUME), VolumeNamed(ELYRA_VOLUME);
    var v2 := CertVolumes(vs, snap);
    var v3 := RuntimeVolumes(v2, snap);
    UpsertSame(vs, ca, TRUSTED_CA);
    UpsertOther(vs, ca, TRUSTED_CA, ri); UpsertOther(vs, ca, TRUSTED_CA, el);
    AppendSame(v2, ri, RUNTIME);
    AppendOther(v2, ri, RUNTIME, ca); AppendOther(v2, ri, RUNTIME, el);
    AppendSame(v3, el, ELYRA);
    AppendOther(v3, el, ELYRA, ca); AppendOther(v3, el, ELYRA, ri);
  }

  lemma {:induction false} SidecarVolumesAre(vs: seq<Volume>, name: string, injected: bool)
    ensures SidecarVolumesPlaced(vs, SidecarVolumes(vs, name, injected), name, injected)
  {
    hide Sel, First, Upsert;
    VolumeNamesApart();
    var cfg, tls := VolumeNamed(PROXY_CONFIG_VOLUME), VolumeNamed(PROXY_TLS_VOLUME);
    var v1 := Upsert(vs, cfg, ProxyConfigVolume(name));
    UpsertSame(vs, cfg, ProxyConfigVolume(name));
    UpsertOther(vs, cfg, ProxyConfigVolume(name), tls);
    UpsertOther(v1, tls, ProxyTlsVolume(name), cfg);
    UpsertSame(v1, tls, ProxyTlsVolume(name));
  }

  lemma {:induction false} VolumesArePlaced(vs: seq<Volume>, enabled: bool, name: string, injected: bool,
                                            snap: Snapshot)
    ensures VolumesPlaced(vs, AllVolumes(vs, FeastActOf(vs, enabled), name, injected, snap), name, enabled, injected,
              snap)
  {
    hide Sel, First, MountedVolumes, FeastVolumes, SidecarVolumes, FeastActOf;
    VolumeNamesApart();
    var act := FeastActOf(vs, enabled);
    var v4 := MountedVolumes(vs, snap);
    var v5 := FeastVolumes(v4, act, name);
    SharedVolumesAre(vs, snap);
    forall n: string | n in {"trusted-ca", "runtime-images", "elyra-dsp-details"}
      ensures Sel(SidecarVolumes(v5, name, injected), VolumeNamed(n)) == Sel(v4, VolumeNamed(n))
    {
      FeastVolumesSel(v4, act, name, n);
      SidecarVolumesSel(v5, name, injected, n);
    }
    assert "trusted-ca" in {"trusted-ca", "runtime-images", "elyra-dsp-details"};
    assert "runtime-images" in {"trusted-ca", "runtime-images", "elyra-dsp-details"};
    assert "elyra-dsp-details" in {"trusted-ca", "runtime-images", "elyra-dsp-details"};
    FeastVolumesLeft(vs, enabled, name, injected, snap);
    if enabled { FeastRest(vs, enabled, name, injected, snap); }
    SidecarVolumesAre(v5, name, injected);
    forall n: string | n == PROXY_CONFIG_VOLUME || n == PROXY_TLS_VOLUME
      ensures Sel(v5, VolumeNamed(n)) == Sel(vs, VolumeNamed(n))
    {
      MountedVolumesSel(vs, snap, n);
      FeastVolumesSel(v4, act, name, n);
    }
    forall n: string | n !in {"trusted-ca", "runtime-images", "elyra-dsp-details", "odh-feast-config",
                              "kube-rbac-proxy-config", "kube-rbac-proxy-tls-certificates"}
      ensures Kept(vs, SidecarVolumes(v5, name, injected), n)
    {
      MountedVolumesSel(vs, snap, n);
      FeastVolumesSel(v4, act, name, n);
      SidecarVolumesSel(v5, name, injected, n);
    }
  }

  lemma {:induction false} FeastRest(vs: seq<Volume>, enabled: bool, name: string, injected: bool, snap: Snapshot)
    requires enabled
    ensures Sel(AllVolumes(vs, FeastActOf(vs, enabled), name, injected, snap), VolumeNamed(FEAST_VOLUME))
         == [FeastSource(name)] + Rest(Sel(vs, VolumeNamed(FEAST_VOLUME)))
  {
    VolumeNamesApart();
    var f := VolumeNamed(FEAST_VOLUME);
    var v4 := MountedVolumes(vs, snap);
    MountedVolumesSel(vs, snap, FEAST_VOLUME);
    UpsertSame(v4, f, FeastSource(name));
    SidecarVolumesSel(FeastVolumes(v4, Mount, name), name, injected, FEAST_VOLUME);
  }

  // ----- The pod -------------------------------------------------------------------------------------------

  /** A probe waits as long as configured, and is otherwise as before; no probe is added. */
  predicate ProbeWaits(before: Option<Probe>, after: Option<Probe>, seconds: Option<int>) {
    && before.Some? == after.Some?
    && (before.Some? ==>
      after.value == (if seconds.Some? then Probe(seconds.value, before.value.rest) else before.value))
  }

  /** The notebook container. Its image is told in `Selection`. */
  ghost predicate OwnServed(before: Container, after: Container, instance: string, feast: bool, listed: bool,
                            seconds: Option<int>, snap: Snapshot)
  {
    && after.name == before.name && after.args == before.args && after.resources == before.resources
    && after.privileged == before.privileged && after.rest == before.rest
    && OwnVariables(before.env, after.env, instance, snap)
    && OwnMounted(before.mounts, after.mounts, feast, listed, snap)
    && ProbeWaits(before.liveness, after.liveness, seconds) && ProbeWaits(before.readiness, after.readiness, seconds)
  }

  /** Any other container but the sidecar. */
  ghost predicate OtherServed(before: Container, after: Container, snap: Snapshot) {
    && after == before.(image := after.image, env := after.env, mounts := after.mounts)
    && (forall n: string :: n != "JUPYTER_IMAGE" ==> Same(before.env, after.env, n))
    && SharedMounted(before.mounts, after.mounts, snap)
  }

  /** The flags the sidecar has whatever the TLS profile. */
  function SidecarFlags(): seq<string> {
    ["--secure-listen-address=0.0.0.0:8443", "--upstream=http://127.0.0.1:8888/", "--logtostderr=true", "--v=0",
     "--proxy-endpoints-port=8444", "--config-file=" + "/etc/kube-rbac-proxy/config-file.yaml",
     "--tls-cert-file=/etc/tls/private/tls.crt", "--tls-private-key-file=/etc/tls/private/tls.key",
     "--auth-header-fields-enabled=true", "--auth-header-user-field-name=" + "X-Auth-Request-User",
     "--auth-header-groups-field-name=" + "X-Auth-Request-Groups"]
  }

  /** The sidecar: its flags, its two mounts, its resources, and probes that wait a second unless configured. */
  ghost predicate IsSidecar(c: Container, image: string, tlsArgs: seq<string>, r: Resources, seconds: Option<int>) {
    && c.name == "kube-rbac-proxy" && c.image == image && !c.privileged && c.env == [] && c.resources == Some(r)
    && c.args == SidecarFlags() + tlsArgs
    && c.mounts == [VolumeMount("kube-rbac-proxy-config", "/etc/kube-rbac-proxy", false, ""),
                    VolumeMount("kube-rbac-proxy-tls-certificates", "/etc/tls/private", false, "")]
    && c.liveness.Some? && c.liveness.value.timeoutSeconds == (if seconds.Some? then seconds.value else 1)
    && c.readiness.Some? && c.readiness.value.timeoutSeconds == (if seconds.Some? then seconds.value else 1)
  }

  /** The pod after an accepted mutation: its containers one by one, its volumes name by name. */
  ghost predicate Served(before: PodSpec, after: PodSpec, meta: Meta, instance: string, seconds: Option<int>,
                         snap: Snapshot)
  {
    ServedAs(before, after, meta, instance, SidecarAsked(meta.annotations), FeastAsked(meta.labels), seconds, snap)
  }

  ghost predicate ServedAs(before: PodSpec, after: PodSpec, meta: Meta, instance: string, injected: bool, feast: bool,
                           seconds: Option<int>, snap: Snapshot)
  {
    var own, proxy := First(before.containers, ContainerNamed(meta.name)),
      First(before.containers, ContainerNamed("kube-rbac-proxy"));
    && after.rest == before.rest
    && after.serviceAccountName == (if injected then meta.name else before.serviceAccountName)
    && |after.containers| == |before.containers| + (if injected && proxy == |before.containers| then 1 else 0)
    && (own < |before.containers| ==>
      OwnServed(before.containers[own], after.containers[own], instance, feast, FeastListed(before.volumes), seconds,
        snap))
    && (forall i :: 0 <= i < |before.containers| && i != own && !(injected && i == proxy) ==>
      OtherServed(before.containers[i], after.containers[i], snap))
    && (injected ==> SidecarServed(after.containers[proxy], meta.annotations, seconds, snap))
    && VolumesPlaced(before.volumes, after.volumes, meta.name, feast, injected, snap)
  }

  ghost predicate SidecarServed(c: Container, annotations: map<string, string>, seconds: Option<int>, snap: Snapshot) {
    && snap.tlsArgs.Ok?
    && exists r ::
      ResourcesAsked(annotations, snap.quantities, r) && Sensible(r)
        && IsSidecar(c, snap.proxyImage, snap.tlsArgs.value, r, seconds)
  }

  lemma {:induction false} WhatIsAsked(annotations: map<string, string>, labels: map<string, string>)
    ensures InjectionEnabled(annotations) <==> SidecarAsked(annotations)
    ensures FeastEnabled(labels) <==> FeastAsked(labels)
  {
    var l := ["1", "t", "T", "TRUE", "true", "True"];
    var s := Lookup(annotations, INJECT_AUTH_ANNOTATION);
    assert s in l <==> s == l[0] || s == l[1] || s == l[2] || s == l[3] || s == l[4] || s == l[5];
  }

  lemma {:induction false} FeastActIs(volumes: seq<Volume>, enabled: bool)
    ensures FeastActOf(volumes, enabled).Mount? <==> enabled
    ensures !enabled ==> (FeastActOf(volumes, enabled).Unmount? <==> FeastListed(volumes))
  {
    var k := First(volumes, VolumeNamed(FEAST_VOLUME));
    assert k < |volumes| ==> volumes[k].name == "odh-feast-config";
  }

  lemma {:induction false} SidecarIs(meta: Meta, snap: Snapshot, seconds: Option<int>)
    requires Runnable(meta, snap) && SidecarAsked(meta.annotations) && snap.probeTimeout == Ok(seconds)
    ensures Sidecar(meta, snap).Some?
    ensures SidecarServed(TimedSidecar(Sidecar(meta, snap).value, snap), meta.annotations, seconds, snap)
  {
    hide SidecarResources, ResourcesAsked, Sensible, InjectionEnabled, SidecarAsked;
    WhatIsAsked(meta.annotations, meta.labels);
    var r := SidecarResources(meta.annotations, snap.quantities).value;
    ResourcesAre(meta.annotations, snap.quantities, r);
    assert BASE_ARGS == SidecarFlags();
    assert IsSidecar(TimedSidecar(Sidecar(meta, snap).value, snap), snap.proxyImage, snap.tlsArgs.value, r, seconds);
  }

  lemma {:induction false} OwnIsServed(c: Container, painted: Container, act: FeastAct, instance: string,
                                       feast: bool, listed: bool, seconds: Option<int>, snap: Snapshot, o: Orders)
    requires Feasible(o, snap) && Repainted(c, painted) && snap.probeTimeout == Ok(seconds)
    requires (act.Mount? <==> feast) && (!feast ==> (act.Unmount? <==> listed))
    ensures OwnServed(c, Grown(painted, true, act, instance, snap, o), instance, feast, listed, seconds, snap)
  {
    hide OwnEnv, OwnMounts, OwnVariables, Feasible, Sel, ElyraKeptOut;
    OwnVariablesSet(c.env, painted.env, instance, snap, o);
    OwnMountsAre(c.mounts, act, snap);
  }

  lemma {:induction false} OtherIsServed(c: Container, painted: Container, act: FeastAct, instance: string,
                                         snap: Snapshot, o: Orders)
    requires Repainted(c, painted)
    ensures OtherServed(c, Grown(painted, false, act, instance, snap, o), snap)
  {
    hide SharedMounts, SharedMounted, Sel;
    SharedMountsAre(c.mounts, snap);
  }

  lemma {:induction false} FinishedServed(s: PodSpec, s1: PodSpec, t: PodSpec, meta: Meta, instance: string,
                                          sidecar: Option<Container>, feast: bool, seconds: Option<int>,
                                          snap: Snapshot, o: Orders)
    requires meta.name != PROXY_CONTAINER && Feasible(o, snap) && snap.probeTimeout == Ok(seconds)
    requires s1 == s.(containers := s1.containers) && |s1.containers| == |s.containers|
    requires forall j :: 0 <= j < |s.containers| ==> Repainted(s.containers[j], s1.containers[j])
    requires sidecar.Some? ==> SidecarServed(TimedSidecar(sidecar.value, snap), meta.annotations, seconds, snap)
    requires Finished(s1, t, meta.name, FeastActOf(s1.volumes, feast), instance, sidecar, snap, o)
    ensures ServedAs(s, t, meta, instance, sidecar.Some?, feast, seconds, snap)
  {
    hide Grown, TimedSidecar, AllVolumes, OwnServed, OtherServed, Feasible, First, Repainted, SidecarServed,
      VolumesPlaced, FeastActOf, FeastListed;
    var act := FeastActOf(s.volumes, feast);
    RepaintedFirst(s.containers, s1.containers, meta.name);
    RepaintedFirst(s.containers, s1.containers, PROXY_CONTAINER);
    VolumesArePlaced(s.volumes, feast, meta.name, sidecar.Some?, snap);
    FeastActIs(s.volumes, feast);
    OwnApart(s.containers, meta.name);
    forall i | 0 <= i < |s.containers|
      ensures OwnServed(s.containers[i], Grown(s1.containers[i], true, act, instance, snap, o), instance, feast,
        FeastListed(s.volumes), seconds, snap)
      ensures OtherServed(s.containers[i], Grown(s1.containers[i], false, act, instance, snap, o), snap)
    {
      OwnIsServed(s.containers[i], s1.containers[i], act, instance, feast, FeastListed(s.volumes), seconds, snap, o);
      OtherIsServed(s.containers[i], s1.containers[i], act, instance, snap, o);
    }
  }

  lemma {:induction false} OwnApart(cs: seq<Container>, name: string)
    requires name != PROXY_CONTAINER
    ensures First(cs, ContainerNamed(name)) < |cs| ==>
      First(cs, ContainerNamed(name)) != First(cs, ContainerNamed(PROXY_CONTAINER))
  {}

  lemma {:induction false} RepaintedFirst(a: seq<Container>, b: seq<Container>, n: string)
    requires |a| == |b| && forall j :: 0 <= j < |a| ==> Repainted(a[j], b[j])
    ensures First(b, ContainerNamed(n)) == First(a, ContainerNamed(n))
  {
    FirstByName(a, b, n);
  }

  /** Every accepted mutation serves the pod its owner and the cluster ask for, whatever the map order. */
  lemma {:induction false} MutateServes(spec: PodSpec, meta: Meta, instance: string, snap: Snapshot, o: Orders,
                                        t: PodSpec)
    requires meta.name != "kube-rbac-proxy" && Feasible(o, snap) && Mutate(spec, meta, snap, o) == Ok(t)
    requires InstanceAsked(meta.annotations, instance)
    ensures snap.probeTimeout.Ok? && Served(spec, t, meta, instance, snap.probeTimeout.value, snap)
  {
    hide Mutate, SetImage, Feasible, Finished, ServedAs, MlflowInstance, InstanceAsked, Runnable, Sidecar,
      SidecarServed,
      TimedSidecar, SidecarAsked, FeastAsked, FeastActOf, InjectionEnabled;
    MutateSucceeds(spec, meta, snap, o);
    InstanceIsTrimmed(meta.annotations, instance);
    WhatIsAsked(meta.annotations, meta.labels);
    SidecarIfInjected(meta, snap);
    var s1 := SetImage(spec, meta, snap).value;
    SetImageFrame(spec, meta, snap);
    MutateFinished(spec, s1, meta, snap, o);
    TimeoutKnown(meta, snap);
    if SidecarAsked(meta.annotations) { SidecarIs(meta, snap, snap.probeTimeout.value); }
    FinishedServed(spec, s1, t, meta, instance, Sidecar(meta, snap), FeastAsked(meta.labels),
      snap.probeTimeout.value, snap, o);
  }

  lemma {:induction false} TimeoutKnown(meta: Meta, snap: Snapshot)
    requires Runnable(meta, snap)
    ensures snap.probeTimeout.Ok?
  {}

  /** The image step aside, a mutation is refused exactly when an object cannot be read, the timeout is
      no number, or a sidecar is asked for that cannot be had. */
  lemma {:induction false} WhenServed(spec: PodSpec, meta: Meta, snap: Snapshot, o: Orders)
    requires SetImage(spec, meta, snap).Ok?
    ensures Mutate(spec, meta, snap, o).Ok? <==>
      && !snap.runtimeImages.Unreadable? && snap.elyra != Some(Unreadable) && snap.probeTimeout.Ok?
      && (SidecarAsked(meta.annotations) ==>
        snap.tlsArgs.Ok? && exists r :: ResourcesAsked(meta.annotations, snap.quantities, r) && Sensible(r))
  {
    hide Mutate, SetImage, ResourcesAsked, Sensible, SidecarResources, InjectionEnabled, SidecarAsked;
    MutateSucceeds(spec, meta, snap, o);
    WhatIsAsked(meta.annotations, meta.labels);
    var parsed := SidecarResources(meta.annotations, snap.quantities);
    forall r ensures parsed == Ok(r) <==> ResourcesAsked(meta.annotations, snap.quantities, r) && Sensible(r) {
      ResourcesAre(meta.annotations, snap.quantities, r);
    }
    if parsed.Ok? { assert parsed == Ok(parsed.value); }
  }
}
