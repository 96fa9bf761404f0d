/** The environment variables of the notebook container across the mutation pipeline, and across
    a second run of it under any other map iteration order. Each step is described by what it
    does to the occurrences of one variable (`Sel`). */
module EnvPipeline {
  import opened Sequences
  import opened PodModel
  import opened Mutators

  // ----- Environment lists ---------------------------------------------------------

  /** The variable is there and every occurrence has this value. */
  ghost predicate Valued(env: seq<EnvVar>, n: string, v: string) {
    var s := Sel(env, EnvNamed(n));
    s != [] && forall i :: 0 <= i < |s| ==> s[i].value == v
  }

  lemma {:induction false} RevalueSel(env: seq<EnvVar>, n: string, v: string, m: string)
    ensures m != n ==> Sel(Revalue(env, n, v), EnvNamed(m)) == Sel(env, EnvNamed(m))
    ensures |Sel(Revalue(env, n, v), EnvNamed(n))| == |Sel(env, EnvNamed(n))|
    ensures forall e <- Sel(Revalue(env, n, v), EnvNamed(n)) :: e.value == v
  {
    if env != [] { RevalueSel(env[1..], n, v, m); }
  }

  lemma {:induction false} RevalueFixed(env: seq<EnvVar>, n: string, v: string)
    requires forall e <- Sel(env, EnvNamed(n)) :: e.value == v
    ensures Revalue(env, n, v) == env
  {
    if env != [] { RevalueFixed(env[1..], n, v); }
  }

  lemma {:induction false} SetAllSel(env: seq<EnvVar>, n: string, v: string, m: string)
    ensures m != n ==> Sel(SetAll(env, n, v), EnvNamed(m)) == Sel(env, EnvNamed(m))
    ensures Valued(SetAll(env, n, v), n, v)
  {
    SelFirst(env, EnvNamed(n));
    RevalueSel(env, n, v, m);
    var added := EnvVar(n, v, None);
    SelConcat(env, [added], EnvNamed(m));
    SelConcat(env, [added], EnvNamed(n));
    assert Sel([added], EnvNamed(n)) == [added];
  }

  lemma {:induction false} SetAllFixed(env: seq<EnvVar>, n: string, v: string)
    requires Valued(env, n, v)
    ensures SetAll(env, n, v) == env
  {
    SelFirst(env, EnvNamed(n));
    RevalueFixed(env, n, v);
  }

  lemma {:induction false} InjectAllSel(env: seq<EnvVar>, vars: seq<(string, string)>, m: string)
    requires forall i :: 0 <= i < |vars| ==> vars[i].0 != m
    ensures Sel(InjectAll(env, vars), EnvNamed(m)) == Sel(env, EnvNamed(m))
    decreases |vars|
  {
    if vars != [] {
      SetAllSel(env, vars[0].0, vars[0].1, m);
      InjectAllSel(SetAll(env, vars[0].0, vars[0].1), vars[1..], m);
    }
  }

  /** Every injected variable ends up present with its value. */
  lemma {:induction false} InjectAllValued(env: seq<EnvVar>, vars: seq<(string, string)>, k: nat)
    requires k < |vars|
    requires forall i, j :: 0 <= i < j < |vars| ==> vars[i].0 != vars[j].0
    ensures Valued(InjectAll(env, vars), vars[k].0, vars[k].1)
    decreases |vars|
  {
    var next := SetAll(env, vars[0].0, vars[0].1);
    if k == 0 {
      SetAllSel(env, vars[0].0, vars[0].1, vars[0].0);
      InjectAllSel(next, vars[1..], vars[0].0);
    } else {
      InjectAllValued(next, vars[1..], k - 1);
    }
  }

  lemma {:induction false} InjectAllFixed(env: seq<EnvVar>, vars: seq<(string, string)>)
    requires forall i :: 0 <= i < |vars| ==> Valued(env, vars[i].0, vars[i].1)
    ensures InjectAll(env, vars) == env
    decreases |vars|
  {
    if vars != [] {
      SetAllFixed(env, vars[0].0, vars[0].1);
      InjectAllFixed(env, vars[1..]);
    }
  }

  /** Injecting in one order settles the list for every other order. */
  lemma {:induction false} InjectTwice(env: seq<EnvVar>, later: seq<EnvVar>, a: seq<(string, string)>,
                                       b: seq<(string, string)>, names: seq<string>, value: string -> string)
    requires Enumerates(a, names, value) && Enumerates(b, names, value)
    requires forall n <- names :: Sel(later, EnvNamed(n)) == Sel(InjectAll(env, a), EnvNamed(n))
    ensures InjectAll(later, b) == later
  {
    forall i | 0 <= i < |b| ensures Valued(later, b[i].0, b[i].1) {
      assert b[i].0 in names;
      var k :| 0 <= k < |a| && a[k].0 == b[i].0;
      InjectAllValued(env, a, k);
    }
    InjectAllFixed(later, b);
  }

  lemma {:induction false} SetFirstSel(env: seq<EnvVar>, n: string, v: string, m: string)
    ensures m != n ==> Sel(SetFirst(env, n, v), EnvNamed(m)) == Sel(env, EnvNamed(m))
    ensures var s := Sel(env, EnvNamed(n)); var r := Sel(SetFirst(env, n, v), EnvNamed(n));
      r != [] && r[0].value == v && |r| == (if s == [] then 1 else |s|)
    ensures SetFirst(env, n, v) == env <==> Sel(env, EnvNamed(n)) != [] && Sel(env, EnvNamed(n))[0].value == v
  {
    var p, q := EnvNamed(n), EnvNamed(m);
    SelFirst(env, p);
    var k := First(env, p);
    if k < |env| {
      var x := env[k].(value := v);
      SelSet(env, k, x, p); SelSet(env, k, x, q);
      SelAround(env, k, p); SelAround(env, k, q);
    } else {
      SelConcat(env, [EnvVar(n, v, None)], p);
      SelConcat(env, [EnvVar(n, v, None)], q);
      SelOne(EnvVar(n, v, None), p);
    }
  }

  lemma {:induction false} SetIfPresentSel(env: seq<EnvVar>, n: string, v: string, m: string)
    ensures m != n ==> Sel(SetIfPresent(env, n, v), EnvNamed(m)) == Sel(env, EnvNamed(m))
    ensures var r := Sel(SetIfPresent(env, n, v), EnvNamed(n)); r == [] || r[0].value == v
    ensures SetIfPresent(env, n, v) == env <==> (var s := Sel(env, EnvNamed(n)); s == [] || s[0].value == v)
  {
    SelFirst(env, EnvNamed(n));
    if First(env, EnvNamed(n)) < |env| { SetFirstSel(env, n, v, m); }
  }

  lemma {:induction false} RemoveEnvSel(env: seq<EnvVar>, n: string, m: string)
    ensures m != n ==> Sel(RemoveFirst(env, EnvNamed(n)), EnvNamed(m)) == Sel(env, EnvNamed(m))
    ensures Sel(RemoveFirst(env, EnvNamed(n)), EnvNamed(n))
      == (var s := Sel(env, EnvNamed(n)); if s == [] then [] else s[1..])
    ensures RemoveFirst(env, EnvNamed(n)) == env <==> Sel(env, EnvNamed(n)) == []
    ensures |RemoveFirst(env, EnvNamed(n))| < |env| || RemoveFirst(env, EnvNamed(n)) == env
  {
    RemoveSame(env, EnvNamed(n));
    SelFirst(env, EnvNamed(n));
    if m != n { RemoveOther(env, EnvNamed(n), EnvNamed(m)); }
  }

  // ----- MLflow variables --------------------------------------------------------------

  /** Where MLflow variables are to be removed, none occurs twice. */
  predicate MlflowRegular(env: seq<EnvVar>, instance: string, host: Option<string>) {
    && (instance == "" ==>
          |Sel(env, EnvNamed(MLFLOW_K8S))| <= 1 && |Sel(env, EnvNamed(MLFLOW_AUTH))| <= 1
            && |Sel(env, EnvNamed(MLFLOW_URI))| <= 1)
    && (instance != "" && host == None ==> |Sel(env, EnvNamed(MLFLOW_URI))| <= 1)
  }

  lemma {:induction false} MlflowEnvSel(env: seq<EnvVar>, instance: string, host: Option<string>, m: string)
    requires m != MLFLOW_K8S && m != MLFLOW_AUTH && m != MLFLOW_URI
    ensures Sel(MlflowEnv(env, instance, host), EnvNamed(m)) == Sel(env, EnvNamed(m))
  {
    if instance == "" {
      var a := RemoveFirst(env, EnvNamed(MLFLOW_K8S));
      var b := RemoveFirst(a, EnvNamed(MLFLOW_AUTH));
      RemoveEnvSel(env, MLFLOW_K8S, m); RemoveEnvSel(a, MLFLOW_AUTH, m); RemoveEnvSel(b, MLFLOW_URI, m);
    } else {
      var a := SetFirst(env, MLFLOW_K8S, "true");
      var b := SetFirst(a, MLFLOW_AUTH, "kubernetes-namespaced");
      SetFirstSel(env, MLFLOW_K8S, "true", m); SetFirstSel(a, MLFLOW_AUTH, "kubernetes-namespaced", m);
      if host.None? { RemoveEnvSel(b, MLFLOW_URI, m); }
      else { SetFirstSel(b, MLFLOW_URI, TrackingUri(host.value, instance), m); }
    }
  }

  /** The MLflow variables of a list the webhook is content with. */
  ghost predicate MlflowSettled(env: seq<EnvVar>, instance: string, host: Option<string>) {
    var k, a, u := Sel(env, EnvNamed(MLFLOW_K8S)), Sel(env, EnvNamed(MLFLOW_AUTH)), Sel(env, EnvNamed(MLFLOW_URI));
    if instance == "" then k == [] && a == [] && u == []
    else
      && k != [] && k[0].value == "true"
      && a != [] && a[0].value == "kubernetes-namespaced"
      && (match host case None => u == [] case Some(h) => u != [] && u[0].value == TrackingUri(h, instance))
  }

  lemma {:induction false} MlflowNamesApart()
    ensures MLFLOW_K8S != MLFLOW_AUTH && MLFLOW_K8S != MLFLOW_URI && MLFLOW_AUTH != MLFLOW_URI
  {
    assert |MLFLOW_K8S| == 22 && |MLFLOW_AUTH| == 20 && |MLFLOW_URI| == 19;
  }

  lemma {:induction false} MlflowCleanup(env: seq<EnvVar>, host: Option<string>)
    ensures MlflowSettled(env, "", host) <==> MlflowEnv(env, "", host) == env
    ensures MlflowSettled(MlflowEnv(env, "", host), "", host) <==> MlflowRegular(env, "", host)
  {
    hide First, Sel, RemoveFirst;
    MlflowNamesApart();
    var a := RemoveFirst(env, EnvNamed(MLFLOW_K8S));
    var b := RemoveFirst(a, EnvNamed(MLFLOW_AUTH));
    var c := RemoveFirst(b, EnvNamed(MLFLOW_URI));
    RemoveEnvSel(env, MLFLOW_K8S, MLFLOW_AUTH); RemoveEnvSel(env, MLFLOW_K8S, MLFLOW_URI);
    RemoveEnvSel(a, MLFLOW_AUTH, MLFLOW_K8S); RemoveEnvSel(a, MLFLOW_AUTH, MLFLOW_URI);
    RemoveEnvSel(b, MLFLOW_URI, MLFLOW_K8S); RemoveEnvSel(b, MLFLOW_URI, MLFLOW_AUTH);
    assert |a| <= |env| && |b| <= |a| && |c| <= |b|;
  }

  lemma {:induction false} MlflowSetup(env: seq<EnvVar>, instance: string, host: Option<string>)
    requires instance != ""
    ensures MlflowSettled(env, instance, host) ==> MlflowEnv(env, instance, host) == env
    ensures MlflowSettled(MlflowEnv(env, instance, host), instance, host) <==> MlflowRegular(env, instance, host)
  {
    MlflowNamesApart();
    var a := SetFirst(env, MLFLOW_K8S, "true");
    var b := SetFirst(a, MLFLOW_AUTH, "kubernetes-namespaced");
    SetFirstSel(env, MLFLOW_K8S, "true", MLFLOW_AUTH);
    SetFirstSel(env, MLFLOW_K8S, "true", MLFLOW_URI);
    SetFirstSel(a, MLFLOW_AUTH, "kubernetes-namespaced", MLFLOW_K8S);
    SetFirstSel(a, MLFLOW_AUTH, "kubernetes-namespaced", MLFLOW_URI);
    if host.None? {
      RemoveEnvSel(b, MLFLOW_URI, MLFLOW_K8S); RemoveEnvSel(b, MLFLOW_URI, MLFLOW_AUTH);
    } else {
      var uri := TrackingUri(host.value, instance);
      SetFirstSel(b, MLFLOW_URI, uri, MLFLOW_K8S); SetFirstSel(b, MLFLOW_URI, uri, MLFLOW_AUTH);
    }
  }

  /** A further MLflow pass changes nothing exactly when the list is settled. */
  lemma {:induction false} MlflowFixed(env: seq<EnvVar>, instance: string, host: Option<string>)
    ensures MlflowSettled(env, instance, host) <==> MlflowEnv(env, instance, host) == env
    ensures MlflowSettled(MlflowEnv(env, instance, host), instance, host) <==> MlflowRegular(env, instance, host)
  {
    if instance == "" {
      MlflowCleanup(env, host);
    } else {
      MlflowSetup(env, instance, host);
      if MlflowEnv(env, instance, host) == env && host.None? {
        MlflowUnsettledMoves(env, instance);
      }
    }
  }

  lemma {:induction false} MlflowUnsettledMoves(env: seq<EnvVar>, instance: string)
    requires instance != "" && MlflowEnv(env, instance, None) == env
    ensures MlflowSettled(env, instance, None)
  {
    MlflowNamesApart();
    var a := SetFirst(env, MLFLOW_K8S, "true");
    var b := SetFirst(a, MLFLOW_AUTH, "kubernetes-namespaced");
    SetFirstSel(env, MLFLOW_K8S, "true", MLFLOW_URI);
    SetFirstSel(a, MLFLOW_AUTH, "kubernetes-namespaced", MLFLOW_URI);
    RemoveEnvSel(b, MLFLOW_URI, MLFLOW_URI);
    MlflowSetup(env, instance, None);
  }

  // ----- One container's environment -----------------------------------------------------

  function CertStep(env: seq<EnvVar>, snap: Snapshot, o: Orders): seq<EnvVar> {
    if snap.caBundle then InjectAll(env, o.cert) else env
  }

  function MlflowStep(env: seq<EnvVar>, instance: string, snap: Snapshot): seq<EnvVar> {
    if snap.mlflow.None? then env else MlflowEnv(env, instance, snap.mlflow.value)
  }

  function ProxyStep(env: seq<EnvVar>, snap: Snapshot, o: Orders): seq<EnvVar> {
    if snap.clusterProxy.None? then env else InjectAll(env, o.proxy)
  }

  function OwnEnv(env: seq<EnvVar>, instance: string, snap: Snapshot, o: Orders): seq<EnvVar> {
    ProxyStep(MlflowStep(CertStep(env, snap, o), instance, snap), snap, o)
  }

  predicate EnvRegular(env: seq<EnvVar>, instance: string, snap: Snapshot) {
    snap.mlflow.Some? ==> MlflowRegular(env, instance, snap.mlflow.value)
  }

  /** Certificate, cluster-proxy, MLflow and image variables are different variables. */
  lemma {:induction false} EnvNamesApart(n: string)
    ensures n in CERT_ENV_NAMES ==>
      n !in PROXY_ENV_NAMES && n != MLFLOW_K8S && n != MLFLOW_AUTH && n != MLFLOW_URI && n != JUPYTER_IMAGE
    ensures n in PROXY_ENV_NAMES ==> n != MLFLOW_K8S && n != MLFLOW_AUTH && n != MLFLOW_URI && n != JUPYTER_IMAGE
    ensures JUPYTER_IMAGE != MLFLOW_K8S && JUPYTER_IMAGE != MLFLOW_AUTH && JUPYTER_IMAGE != MLFLOW_URI
  {
    assert |MLFLOW_K8S| == 22 && |MLFLOW_AUTH| == 20 && |MLFLOW_URI| == 19 && |JUPYTER_IMAGE| == 13;
    if n in CERT_ENV_NAMES {
      assert |n| == 8 || |n| == 18 || |n| == 13 || |n| == 22 || |n| == 14 || |n| == 25;
      assert n[0] == 'P' || n[0] == 'R' || n[0] == 'S' || n[0] == 'G' || n[0] == 'K';
      assert MLFLOW_K8S[0] == 'M' && JUPYTER_IMAGE[0] == 'J';
    }
    if n in PROXY_ENV_NAMES {
      assert |n| == 10 || |n| == 11 || |n| == 8;
      assert n[0] == 'H' || n[0] == 'N';
    }
  }

  lemma {:induction false} EnumeratesOnly(vars: seq<(string, string)>, names: seq<string>, value: string -> string,
                                          m: string)
    requires Enumerates(vars, names, value) && m !in names
    ensures forall i :: 0 <= i < |vars| ==> vars[i].0 != m
  {}

  lemma {:induction false} CertStepSel(env: seq<EnvVar>, snap: Snapshot, o: Orders, m: string)
    requires Feasible(o, snap) && m !in CERT_ENV_NAMES
    ensures Sel(CertStep(env, snap, o), EnvNamed(m)) == Sel(env, EnvNamed(m))
  {
    EnumeratesOnly(o.cert, CERT_ENV_NAMES, CertValue(), m);
    InjectAllSel(env, o.cert, m);
  }

  lemma {:induction false} ProxyStepSel(env: seq<EnvVar>, snap: Snapshot, o: Orders, m: string)
    requires Feasible(o, snap) && m !in PROXY_ENV_NAMES
    ensures Sel(ProxyStep(env, snap, o), EnvNamed(m)) == Sel(env, EnvNamed(m))
  {
    if snap.clusterProxy.Some? {
      EnumeratesOnly(o.proxy, PROXY_ENV_NAMES, ProxyValue(snap.clusterProxy.value), m);
      InjectAllSel(env, o.proxy, m);
    }
  }

  lemma {:induction false} MlflowStepSel(env: seq<EnvVar>, instance: string, snap: Snapshot, m: string)
    requires m != MLFLOW_K8S && m != MLFLOW_AUTH && m != MLFLOW_URI
    ensures Sel(MlflowStep(env, instance, snap), EnvNamed(m)) == Sel(env, EnvNamed(m))
  {
    if snap.mlflow.Some? { MlflowEnvSel(env, instance, snap.mlflow.value, m); }
  }

  lemma {:induction false} OwnEnvKeepsImage(env: seq<EnvVar>, instance: string, snap: Snapshot, o: Orders)
    requires Feasible(o, snap)
    ensures Sel(OwnEnv(env, instance, snap, o), EnvNamed(JUPYTER_IMAGE)) == Sel(env, EnvNamed(JUPYTER_IMAGE))
  {
    EnvNamesApart(JUPYTER_IMAGE);
    CertStepSel(env, snap, o, JUPYTER_IMAGE);
    MlflowStepSel(CertStep(env, snap, o), instance, snap, JUPYTER_IMAGE);
    ProxyStepSel(MlflowStep(CertStep(env, snap, o), instance, snap), snap, o, JUPYTER_IMAGE);
  }

  /** Two lists agree on the MLflow variables. */
  ghost predicate SameMlflow(a: seq<EnvVar>, b: seq<EnvVar>) {
    && Sel(a, EnvNamed(MLFLOW_K8S)) == Sel(b, EnvNamed(MLFLOW_K8S))
    && Sel(a, EnvNamed(MLFLOW_AUTH)) == Sel(b, EnvNamed(MLFLOW_AUTH))
    && Sel(a, EnvNamed(MLFLOW_URI)) == Sel(b, EnvNamed(MLFLOW_URI))
  }

  lemma {:induction false} MlflowNamesElsewhere(n: string)
    requires n == MLFLOW_K8S || n == MLFLOW_AUTH || n == MLFLOW_URI
    ensures n !in CERT_ENV_NAMES && n !in PROXY_ENV_NAMES
  {
    EnvNamesApart(n);
  }

  lemma {:induction false} CertStepSameMlflow(env: seq<EnvVar>, snap: Snapshot, o: Orders)
    requires Feasible(o, snap)
    ensures SameMlflow(CertStep(env, snap, o), env)
  {
    MlflowNamesElsewhere(MLFLOW_K8S); MlflowNamesElsewhere(MLFLOW_AUTH); MlflowNamesElsewhere(MLFLOW_URI);
    CertStepSel(env, snap, o, MLFLOW_K8S);
    CertStepSel(env, snap, o, MLFLOW_AUTH);
    CertStepSel(env, snap, o, MLFLOW_URI);
  }

  lemma {:induction false} ProxyStepSameMlflow(env: seq<EnvVar>, snap: Snapshot, o: Orders)
    requires Feasible(o, snap)
    ensures SameMlflow(ProxyStep(env, snap, o), env)
  {
    MlflowNamesElsewhere(MLFLOW_K8S); MlflowNamesElsewhere(MLFLOW_AUTH); MlflowNamesElsewhere(MLFLOW_URI);
    ProxyStepSel(env, snap, o, MLFLOW_K8S);
    ProxyStepSel(env, snap, o, MLFLOW_AUTH);
    ProxyStepSel(env, snap, o, MLFLOW_URI);
  }

  /** The certificate step has nothing left to do on a finished list. */
  lemma {:induction false} CertStepAgain(env: seq<EnvVar>, instance: string, snap: Snapshot, o: Orders, o': Orders)
    requires Feasible(o, snap) && Feasible(o', snap)
    ensures CertStep(OwnEnv(env, instance, snap, o), snap, o') == OwnEnv(env, instance, snap, o)
  {
    var e2 := CertStep(env, snap, o);
    var e6 := MlflowStep(e2, instance, snap);
    var done := OwnEnv(env, instance, snap, o);
    if snap.caBundle {
      forall n <- CERT_ENV_NAMES ensures Sel(done, EnvNamed(n)) == Sel(e2, EnvNamed(n)) {
        EnvNamesApart(n);
        MlflowStepSel(e2, instance, snap, n);
        ProxyStepSel(e6, snap, o, n);
      }
      InjectTwice(env, done, o.cert, o'.cert, CERT_ENV_NAMES, CertValue());
    }
  }

  lemma {:induction false} ProxyStepAgain(env: seq<EnvVar>, snap: Snapshot, o: Orders, o': Orders)
    requires Feasible(o, snap) && Feasible(o', snap)
    ensures ProxyStep(ProxyStep(env, snap, o), snap, o') == ProxyStep(env, snap, o)
  {
    if snap.clusterProxy.Some? {
      InjectTwice(env, InjectAll(env, o.proxy), o.proxy, o'.proxy, PROXY_ENV_NAMES,
        ProxyValue(snap.clusterProxy.value));
    }
  }

  ghost predicate StepSettled(env: seq<EnvVar>, instance: string, snap: Snapshot) {
    snap.mlflow.Some? ==> MlflowSettled(env, instance, snap.mlflow.value)
  }

  lemma {:induction false} StepFixed(env: seq<EnvVar>, instance: string, snap: Snapshot)
    ensures StepSettled(env, instance, snap) <==> MlflowStep(env, instance, snap) == env
    ensures StepSettled(MlflowStep(env, instance, snap), instance, snap) <==> EnvRegular(env, instance, snap)
  {
    if snap.mlflow.Some? { MlflowFixed(env, instance, snap.mlflow.value); }
  }

  lemma {:induction false} SettledCarries(a: seq<EnvVar>, b: seq<EnvVar>, instance: string, snap: Snapshot)
    requires SameMlflow(a, b)
    ensures StepSettled(a, instance, snap) <==> StepSettled(b, instance, snap)
    ensures EnvRegular(a, instance, snap) <==> EnvRegular(b, instance, snap)
  {}

  /** The MLflow step has nothing left to do exactly on regular lists. */
  lemma {:induction false} MlflowStepAgain(env: seq<EnvVar>, instance: string, snap: Snapshot, o: Orders)
    requires Feasible(o, snap)
    ensures MlflowStep(OwnEnv(env, instance, snap, o), instance, snap) == OwnEnv(env, instance, snap, o) <==>
      EnvRegular(env, instance, snap)
  {
    var e2 := CertStep(env, snap, o);
    var e6 := MlflowStep(e2, instance, snap);
    CertStepSameMlflow(env, snap, o);
    ProxyStepSameMlflow(e6, snap, o);
    StepFixed(e2, instance, snap);
    SettledCarries(e2, env, instance, snap);
    SettledCarries(ProxyStep(e6, snap, o), e6, instance, snap);
    StepFixed(ProxyStep(e6, snap, o), instance, snap);
  }

  /** A second pass over the variables of a container, in any map order, changes nothing
      exactly when the list was regular to begin with. */
  lemma {:induction false} OwnEnvTwice(env: seq<EnvVar>, instance: string, snap: Snapshot, o: Orders, o': Orders)
    requires Feasible(o, snap) && Feasible(o', snap)
    ensures OwnEnv(OwnEnv(env, instance, snap, o), instance, snap, o') == OwnEnv(env, instance, snap, o) <==>
      EnvRegular(env, instance, snap)
  {
    var done := OwnEnv(env, instance, snap, o);
    CertStepAgain(env, instance, snap, o, o');
    MlflowStepAgain(env, instance, snap, o);
    ProxyStepAgain(MlflowStep(CertStep(env, snap, o), instance, snap), snap, o, o');
    if MlflowStep(done, instance, snap) != done {
      OwnEnvMoves(env, instance, snap, o, o');
    }
  }

  lemma {:induction false} OwnEnvMoves(env: seq<EnvVar>, instance: string, snap: Snapshot, o: Orders, o': Orders)
    requires Feasible(o, snap) && Feasible(o', snap)
    requires var done := OwnEnv(env, instance, snap, o); MlflowStep(done, instance, snap) != done
    ensures OwnEnv(OwnEnv(env, instance, snap, o), instance, snap, o') != OwnEnv(env, instance, snap, o)
  {
    var done := OwnEnv(env, instance, snap, o);
    CertStepAgain(env, instance, snap, o, o');
    ProxyStepSameMlflow(MlflowStep(done, instance, snap), snap, o');
    ProxyStepSameMlflow(MlflowStep(CertStep(env, snap, o), instance, snap), snap, o);
    StepFixed(done, instance, snap);
    MoveIsVisible(CertStep(env, snap, o), done, instance, snap, OwnEnv(done, instance, snap, o'));
  }

  lemma {:induction false} MoveIsVisible(env: seq<EnvVar>, done: seq<EnvVar>, instance: string, snap: Snapshot,
                                         later: seq<EnvVar>)
    requires SameMlflow(done, MlflowStep(env, instance, snap)) && !StepSettled(done, instance, snap)
    requires SameMlflow(later, MlflowStep(done, instance, snap))
    ensures later != done
  {
    MlflowMoveCause(env, done, instance, snap.mlflow.value);
    UnsettledStaysVisible(done, instance, snap.mlflow.value, later);
  }

  /** A list the MLflow step still moves is one it removes from. */
  lemma {:induction false} MlflowMoveCause(env: seq<EnvVar>, done: seq<EnvVar>, instance: string, host: Option<string>)
    requires SameMlflow(done, MlflowEnv(env, instance, host))
    requires !MlflowSettled(done, instance, host)
    ensures instance == "" || host.None?
    ensures instance != "" ==> Sel(done, EnvNamed(MLFLOW_URI)) != []
  {
    MlflowFixed(env, instance, host);
    if instance != "" { MlflowSetup(env, instance, host); MlflowFlags(env, instance, host); }
  }

  /** Setting up MLflow always leaves the two flags right. */
  lemma {:induction false} MlflowFlags(env: seq<EnvVar>, instance: string, host: Option<string>)
    requires instance != ""
    ensures var r := MlflowEnv(env, instance, host);
      && (var k := Sel(r, EnvNamed(MLFLOW_K8S)); k != [] && k[0].value == "true")
      && (var a := Sel(r, EnvNamed(MLFLOW_AUTH)); a != [] && a[0].value == "kubernetes-namespaced")
  {
    MlflowNamesApart();
    var a := SetFirst(env, MLFLOW_K8S, "true");
    var b := SetFirst(a, MLFLOW_AUTH, "kubernetes-namespaced");
    SetFirstSel(env, MLFLOW_K8S, "true", MLFLOW_AUTH);
    SetFirstSel(a, MLFLOW_AUTH, "kubernetes-namespaced", MLFLOW_K8S);
    if host.None? {
      RemoveEnvSel(b, MLFLOW_URI, MLFLOW_K8S); RemoveEnvSel(b, MLFLOW_URI, MLFLOW_AUTH);
    } else {
      var uri := TrackingUri(host.value, instance);
      SetFirstSel(b, MLFLOW_URI, uri, MLFLOW_K8S); SetFirstSel(b, MLFLOW_URI, uri, MLFLOW_AUTH);
    }
  }

  /** When an MLflow pass moves a list, the move shows in the MLflow variables themselves. */
  lemma {:induction false} UnsettledStaysVisible(done: seq<EnvVar>, instance: string, host: Option<string>,
                                                 later: seq<EnvVar>)
    requires !MlflowSettled(done, instance, host)
    requires instance == "" || host.None?
    requires instance != "" ==> Sel(done, EnvNamed(MLFLOW_URI)) != []
    requires SameMlflow(later, MlflowEnv(done, instance, host))
    ensures later != done
  {
    MlflowNamesApart();
    if instance == "" {
      var a := RemoveFirst(done, EnvNamed(MLFLOW_K8S));
      var b := RemoveFirst(a, EnvNamed(MLFLOW_AUTH));
      RemoveEnvSel(done, MLFLOW_K8S, MLFLOW_AUTH); RemoveEnvSel(done, MLFLOW_K8S, MLFLOW_URI);
      RemoveEnvSel(a, MLFLOW_AUTH, MLFLOW_K8S); RemoveEnvSel(a, MLFLOW_AUTH, MLFLOW_URI);
      RemoveEnvSel(b, MLFLOW_URI, MLFLOW_K8S); RemoveEnvSel(b, MLFLOW_URI, MLFLOW_AUTH);
    } else {
      var a := SetFirst(done, MLFLOW_K8S, "true");
      var b := SetFirst(a, MLFLOW_AUTH, "kubernetes-namespaced");
      SetFirstSel(done, MLFLOW_K8S, "true", MLFLOW_URI);
      SetFirstSel(a, MLFLOW_AUTH, "kubernetes-namespaced", MLFLOW_URI);
      RemoveEnvSel(b, MLFLOW_URI, MLFLOW_URI);
    }
  }
}
