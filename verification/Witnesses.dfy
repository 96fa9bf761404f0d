/** Inputs on the failing side of the exact theorems: for each family on which a property of the
    controllers fails, a concrete notebook and a cluster that show it. */
module Witnesses {
  import opened Sequences
  import opened PodModel
  import opened Mutators
  import opened MountPipeline
  import opened Pipeline
  import opened PodSecurity
  import opened Admission
  import opened CertUnset
  import opened ProxyTls
  import opened TlsReconcile
  import opened CertPass
  import Runs

  const NAME := "nb"
  const TLS_ARGS: seq<string> := [MIN_VERSION_FLAG + "VersionTLS13"]

  /** A cluster in which every optional feature is off. */
  const BARE := Snapshot("ns", map[], false, Absent, None, None, "proxy", Ok(TLS_ARGS), map[], Ok(None), None)

  function Plain(name: string, args: seq<string>, env: seq<EnvVar>, mounts: seq<VolumeMount>): Container {
    Container(name, "image", args, env, mounts, None, None, None, false, "")
  }

  function Template(c: Container, volumes: seq<Volume>): PodSpec {
    PodSpec([c], volumes, "", PodRest(false, false, false, [], [], ""))
  }

  function MetaWith(annotations: map<string, string>): Meta {
    Meta(NAME, "ns", map[], annotations)
  }

  lemma {:induction false} NamesApart()
    ensures NAME != PROXY_CONTAINER && NAME != ""
    ensures InjectionEnabled(map[INJECT_AUTH_ANNOTATION := "true"])
    ensures !InjectionEnabled(map[])
    ensures INJECT_AUTH_ANNOTATION != STOP_ANNOTATION && INJECT_AUTH_ANNOTATION != PENDING_ANNOTATION
    ensures INJECT_AUTH_ANNOTATION != RESTART_ANNOTATION && INJECT_AUTH_ANNOTATION != IMAGE_SELECTION_ANNOTATION
    ensures IMAGE_SELECTION_ANNOTATION != STOP_ANNOTATION && IMAGE_SELECTION_ANNOTATION != PENDING_ANNOTATION
  {
    MarksApart(PENDING_ANNOTATION);
    assert |NAME| == 2 && |PROXY_CONTAINER| == 15;
    assert "true" in ["1", "t", "T", "TRUE", "true", "True"];
    assert |STOP_ANNOTATION| == 25 && |RESTART_ANNOTATION| == 41 && |PENDING_ANNOTATION| == 39;
    assert |"true"| == 4;
  }

  /** With injection off nothing in such a cluster stops a mutation. */
  lemma {:induction false} RunsBare(spec: PodSpec, meta: Meta, snap: Snapshot, o: Orders)
    requires IMAGE_SELECTION_ANNOTATION !in meta.annotations && !InjectionEnabled(meta.annotations)
    requires !snap.runtimeImages.Unreadable? && (snap.elyra.Some? ==> !snap.elyra.value.Unreadable?)
    requires snap.probeTimeout.Ok?
    ensures Mutate(spec, meta, snap, o).Ok?
    ensures Secure(spec, meta.name) ==> Secure(Mutate(spec, meta, snap, o).value, meta.name)
  {
    hide Mutate, InjectionEnabled, DesiredSidecar, Secure, SecureOnceMutated;
    MutateSucceeds(spec, meta, snap, o);
    MutateSecure(spec, meta, snap, o, Mutate(spec, meta, snap, o).value);
  }

  lemma {:induction false} TemplateSecure(c: Container)
    requires !c.privileged
    ensures Secure(Template(c, []), NAME)
  {}

  lemma {:induction false} SelPair<T>(x: T, p: T -> bool)
    requires p(x)
    ensures Sel([x, x], p) == [x, x]
  {
    assert [x] + [x] == [x, x];
    SelConcat([x], [x], p);
    SelOne(x, p);
  }

  // ----- Second runs that are not the first ------------------------------------------------------

  const FEAST_ONCE := Volume(FEAST_VOLUME, OtherSource(""))

  /** The Feast label is off and the Feast volume is listed twice: each run cuts one. */
  lemma {:induction false} FeastTwice(o: Orders, o': Orders)
    requires Feasible(o, BARE) && Feasible(o', BARE)
    ensures var spec := Template(Plain(NAME, [], [], []), [FEAST_ONCE, FEAST_ONCE]);
      && Mutate(spec, MetaWith(map[]), BARE, o).Ok? && !Regular(spec, MetaWith(map[]), BARE)
      && var once := Mutate(spec, MetaWith(map[]), BARE, o).value;
         Mutate(once, MetaWith(map[]), BARE, o') != Ok(once)
  {
    hide Mutate, Feasible;
    var spec := Template(Plain(NAME, [], [], []), [FEAST_ONCE, FEAST_ONCE]);
    NamesApart();
    RunsBare(spec, MetaWith(map[]), BARE, o);
    SelPair(FEAST_ONCE, VolumeNamed(FEAST_VOLUME));
    FeastOff();
    MutateTwice(spec, MetaWith(map[]), BARE, o, o');
  }

  lemma {:induction false} FeastOff()
    ensures !FeastEnabled(map[])
  {
    assert |"true"| == 4;
  }

  /** An MLflow variable is due for removal and occurs twice: each run removes one. */
  lemma {:induction false} FlagTwice(o: Orders, o': Orders)
    requires Feasible(o, MLFLOW_ON) && Feasible(o', MLFLOW_ON)
    ensures Mutate(FLAGGED, MetaWith(map[]), MLFLOW_ON, o).Ok? && !Regular(FLAGGED, MetaWith(map[]), MLFLOW_ON)
    ensures var once := Mutate(FLAGGED, MetaWith(map[]), MLFLOW_ON, o).value;
      Mutate(once, MetaWith(map[]), MLFLOW_ON, o') != Ok(once)
  {
    hide Mutate, Feasible;
    NamesApart();
    RunsBare(FLAGGED, MetaWith(map[]), MLFLOW_ON, o);
    FlaggedTwice();
    NoInstance();
    OwnIsFirst(Plain(NAME, [], [FLAG, FLAG], []), []);
    MutateTwice(FLAGGED, MetaWith(map[]), MLFLOW_ON, o, o');
  }

  const MLFLOW_ON := BARE.(mlflow := Some(None))
  const FLAG := EnvVar(MLFLOW_K8S, "true", None)
  const FLAGGED := Template(Plain(NAME, [], [FLAG, FLAG], []), [])

  lemma {:induction false} FlaggedTwice()
    ensures Sel([FLAG, FLAG], EnvNamed(MLFLOW_K8S)) == [FLAG, FLAG]
  {
    SelPair(FLAG, EnvNamed(MLFLOW_K8S));
  }

  lemma {:induction false} NoInstance()
    ensures MlflowInstance(map[]) == ""
  {}

  lemma {:induction false} OwnIsFirst(c: Container, volumes: seq<Volume>)
    requires c.name == NAME
    ensures First(Template(c, volumes).containers, ContainerNamed(NAME)) == 0
  {}

  /** Feast is being unmounted, and its mount is the one at the Elyra path: the first run adds no
      Elyra mount on its account and then cuts it, the second run adds one. */
  lemma {:induction false} FeastAtElyraPath(o: Orders, o': Orders)
    requires Feasible(o, ELYRA_ON) && Feasible(o', ELYRA_ON)
    ensures Mutate(SHADOWED, MetaWith(map[]), ELYRA_ON, o).Ok? && !Regular(SHADOWED, MetaWith(map[]), ELYRA_ON)
    ensures var once := Mutate(SHADOWED, MetaWith(map[]), ELYRA_ON, o).value;
      Mutate(once, MetaWith(map[]), ELYRA_ON, o') != Ok(once)
  {
    hide Mutate, Feasible;
    NamesApart();
    RunsBare(SHADOWED, MetaWith(map[]), ELYRA_ON, o);
    FeastOff();
    OwnIsFirst(Plain(NAME, [], [], [SHADOW]), [FEAST_ONCE]);
    assert First(SHADOWED.volumes, VolumeNamed(FEAST_VOLUME)) == 0;
    ShadowIsCut();
    MutateTwice(SHADOWED, MetaWith(map[]), ELYRA_ON, o, o');
  }

  const ELYRA_ON := BARE.(elyra := Some(Usable))
  const SHADOW := VolumeMount(FEAST_VOLUME, ELYRA_MOUNT_PATH, false, "")
  const SHADOWED := Template(Plain(NAME, [], [], [SHADOW]), [FEAST_ONCE])

  lemma {:induction false} ShadowIsCut()
    ensures !ElyraRegular([SHADOW], Unmount, ELYRA_ON)
  {
    assert RuntimeMounts(CertMounts([SHADOW], ELYRA_ON), ELYRA_ON) == [SHADOW];
    assert Sel([SHADOW], ElyraTaken()) == [SHADOW];
    assert First([SHADOW], MountNamed(FEAST_VOLUME)) == 0;
    assert FeastMounts([SHADOW], Unmount) == [];
  }

  // ----- A panic ------------------------------------------------------------------------------------

  const CERT_VAR := EnvVar("PIP_CERT", CERT_FILE, None)

  /** A certificate variable listed twice, last: unsetting panics. */
  lemma {:induction false} TwiceLastPanics()
    ensures Panics([CERT_VAR, CERT_VAR], EnvNamed("PIP_CERT"))
    ensures Unset(Template(Plain(NAME, [], [CERT_VAR, CERT_VAR], []), []), NAME).None?
  {
    var env := [CERT_VAR, CERT_VAR];
    assert EnvNamed("PIP_CERT")(env[0]) && EnvNamed("PIP_CERT")(env[1]);
    assert Panics(env, EnvNamed("PIP_CERT"));
    assert CERT_ENV_NAMES[0] == "PIP_CERT";
    assert UnsetEnv(env, CERT_ENV_NAMES).None?;
    OwnIsFirst(Plain(NAME, [], env, []), []);
  }

  /** Two neighbours before another variable: no panic, but one of them survives. */
  lemma {:induction false} NeighbourSurvives(other: EnvVar)
    requires other.name != "PIP_CERT"
    ensures var env := [CERT_VAR, CERT_VAR, other];
      !Panics(env, EnvNamed("PIP_CERT")) && Survive(env, EnvNamed("PIP_CERT")) == [CERT_VAR, other]
  {
    var env := [CERT_VAR, CERT_VAR, other];
    assert env[2..] == [other] && [other][1..] == [];
    assert Survive([other], EnvNamed("PIP_CERT")) == [other] + [];
  }

  // ----- MLflow ---------------------------------------------------------------------------------------

  /** A new notebook submitted with the flag twice and no instance keeps one of them. */
  lemma {:induction false} FlagLeftOver(o: Orders, reason: string)
    requires Feasible(o, MLFLOW_ON)
    ensures Admit(Create, Manifest(MetaWith(map[]), FLAGGED), MLFLOW_ON, o, reason).Ok?
    ensures !MlflowConsistent(Admit(Create, Manifest(MetaWith(map[]), FLAGGED), MLFLOW_ON, o, reason).value)
  {
    hide Mutate, Feasible, MlflowConsistent;
    var m := Manifest(MetaWith(map[]), FLAGGED);
    NamesApart();
    NoInstance();
    FlaggedTwice();
    OwnIsFirst(Plain(NAME, [], [FLAG, FLAG], []), []);
    assert Flags(m) == [FLAG, FLAG];
    LockKeepsInjection();
    TemplateSecure(FLAGGED.containers[0]);
    RunsBare(FLAGGED, Admitted(Create, m.meta), MLFLOW_ON, o);
    assert Admit(Create, m, MLFLOW_ON, o, reason).Ok?;
    MlflowLeftOver(Create, m, MLFLOW_ON, o, reason);
  }

  lemma {:induction false} LockKeepsInjection()
    ensures !InjectionEnabled(Admitted(Create, MetaWith(map[])).annotations)
    ensures IMAGE_SELECTION_ANNOTATION !in Admitted(Create, MetaWith(map[])).annotations
  {
    NamesApart();
  }

  // ----- Proxy arguments ----------------------------------------------------------------------------------

  const STOPPED := map[INJECT_AUTH_ANNOTATION := "true", STOP_ANNOTATION := "2026-01-01T00:00:00Z"]
  const VERBOSE := Manifest(MetaWith(STOPPED), Template(Plain(PROXY_CONTAINER, ["--v=10"], [], []), []))

  lemma {:induction false} VerboseIsOther()
    ensures Other(["--v=10"]) == ["--v=10"] != BASE_ARGS
    ensures HasProxy(VERBOSE.spec) && ProxyArgs(VERBOSE.spec) == ["--v=10"]
    ensures forall i :: 0 <= i < |TLS_ARGS| ==> TlsFlag(TLS_ARGS[i])
    ensures !ArgsMatch(VERBOSE.spec, TLS_ARGS)
  {
    assert "--v=10"[2] == 'v';
    NotAFlag("--v=10");
    OtherAll(["--v=10"]);
    assert |BASE_ARGS| == 11;
    assert First(VERBOSE.spec.containers, ContainerNamed(PROXY_CONTAINER)) == 0;
    FlagsApart("VersionTLS13");
    assert |TLS_ARGS| == 1 && TLS_ARGS[0] == MIN_VERSION_FLAG + "VersionTLS13";
  }

  lemma {:induction false} SidecarReadable(annotations: map<string, string>)
    requires CPU_REQUEST_ANNOTATION !in annotations && MEMORY_REQUEST_ANNOTATION !in annotations
    requires CPU_LIMIT_ANNOTATION !in annotations && MEMORY_LIMIT_ANNOTATION !in annotations
    ensures DesiredSidecar(annotations, BARE).Ok?
  {}

  lemma {:induction false} ResourcesApart()
    ensures CPU_REQUEST_ANNOTATION !in STOPPED && MEMORY_REQUEST_ANNOTATION !in STOPPED
    ensures CPU_LIMIT_ANNOTATION !in STOPPED && MEMORY_LIMIT_ANNOTATION !in STOPPED
    ensures IMAGE_SELECTION_ANNOTATION !in STOPPED && PENDING_ANNOTATION !in STOPPED
    ensures InjectionEnabled(STOPPED) && StoppedOrRestarting(STOPPED)
  {
    NamesApart();
    MarksApart(STOP_ANNOTATION);
    assert Lookup(STOPPED, INJECT_AUTH_ANNOTATION) == "true";
  }

  const VERBOSE_TLS := Template(Plain(PROXY_CONTAINER, ["--v=10"] + TLS_ARGS, [], []), [])

  lemma {:induction false} VerbosePlan()
    ensures TlsPlan(VERBOSE, TLS_ARGS) == Write(Manifest(MetaWith(STOPPED), VERBOSE_TLS))
    ensures Other(ProxyArgs(VERBOSE_TLS)) == ["--v=10"]
  {
    hide InjectionEnabled, TlsFlag, Other;
    VerboseIsOther();
    ResourcesApart();
    assert Pending(VERBOSE.meta) == "";
    TlsReasonNonEmpty();
    assert First(VERBOSE_TLS.containers, ContainerNamed(PROXY_CONTAINER)) == 0;
    MergeSettles(["--v=10"], TLS_ARGS, TLS_ARGS);
  }

  /** A stopped workbench whose proxy logs more than the webhook's own does: the reconcile submits
      that argument along with the flags of the profile, and the webhook drops it. */
  lemma {:induction false} ArgumentLost(o: Orders, reason: string)
    requires reason != "" && reason != TLS_PENDING
    ensures TlsPlan(VERBOSE, TLS_ARGS).Write? && SameProfile(BARE, reason, TLS_ARGS)
    ensures Other(ProxyArgs(TlsPlan(VERBOSE, TLS_ARGS).m.spec)) == ["--v=10"]
    ensures var r := Admit(Update(VERBOSE), TlsPlan(VERBOSE, TLS_ARGS).m, BARE, o, reason);
      r.Ok? && Other(ProxyArgs(r.value.spec)) == BASE_ARGS != ["--v=10"]
  {
    hide Mutate, DesiredSidecar, InjectionEnabled, TlsFlag, TlsPlan, First, Other, Secure, SecureOnceMutated;
    VerboseIsOther();
    VerbosePlan();
    ResourcesApart();
    var m := Manifest(MetaWith(STOPPED), VERBOSE_TLS);
    SidecarReadable(STOPPED);
    MutateSucceeds(m.spec, m.meta, BARE, o);
    var t := Mutate(m.spec, m.meta, BARE, o).value;
    GateOpen(Update(VERBOSE), m.meta, m.spec, t, reason);
    TemplateSecure(Plain(PROXY_CONTAINER, ["--v=10"] + TLS_ARGS, [], []));
    MutateSecure(m.spec, m.meta, BARE, o, t);
    StoppedPasses(VERBOSE, Manifest(Unannotated(m.meta, PENDING_ANNOTATION), t));
    WebhookRebuilds(m.spec, m.meta, BARE, o, TLS_ARGS);
    RebuiltFits(ProxyArgs(t), TLS_ARGS);
  }

  // ----- Switching injection on and off ---------------------------------------------------------------

  const SIDECAR_LEFT := Template(Plain(PROXY_CONTAINER, [], [], []), [])
  const OFF := Manifest(MetaWith(map[]), SIDECAR_LEFT)
  const ON := Manifest(MetaWith(map[INJECT_AUTH_ANNOTATION := "true"]), SIDECAR_LEFT)

  function Marked(m: Manifest, reason: string): Manifest {
    m.(meta := Annotated(m.meta, PENDING_ANNOTATION, reason))
  }

  /** With everything off the webhook leaves this template alone. */
  lemma {:induction false} BareMutate(meta: Meta, o: Orders)
    requires meta.name == NAME && !InjectionEnabled(meta.annotations) && IMAGE_SELECTION_ANNOTATION !in meta.annotations
    requires !FeastEnabled(meta.labels)
    ensures Mutate(SIDECAR_LEFT, meta, BARE, o) == Ok(SIDECAR_LEFT)
  {
    hide InjectionEnabled;
    assert First(SIDECAR_LEFT.volumes, VolumeNamed(FEAST_VOLUME)) == 0;
    assert Early(SIDECAR_LEFT, meta, BARE, o) == Ok(SIDECAR_LEFT);
    assert InjectProxy(SIDECAR_LEFT, meta, BARE) == Ok(SIDECAR_LEFT);
  }

  lemma {:induction false} SwitchedOff(stored: Manifest, o: Orders, reason: string, mark: string)
    requires stored.spec == SIDECAR_LEFT && MlflowInstance(stored.meta.annotations) == ""
    ensures Admit(Update(stored), Marked(OFF, mark), BARE, o, reason) == Ok(OFF)
  {
    hide Mutate, InjectionEnabled, Secure, MlflowInstance;
    var meta := Marked(OFF, mark).meta;
    NamesApart();
    FeastOff();
    TemplateSecure(SIDECAR_LEFT.containers[0]);
    MarksApart(PENDING_ANNOTATION);
    MarksChange(MetaWith(map[]), PENDING_ANNOTATION, mark);
    SameFlags(map[], meta.annotations);
    BareMutate(meta, o);
    GateOpen(Update(stored), meta, SIDECAR_LEFT, SIDECAR_LEFT, reason);
    assert Unannotated(meta, PENDING_ANNOTATION) == OFF.meta;
  }

  lemma {:induction false} NoInstanceOn(mark: string)
    ensures MlflowInstance(Marked(ON, mark).meta.annotations) == "" && MlflowInstance(OFF.meta.annotations) == ""
  {
    NoInstance();
    MarksApart(PENDING_ANNOTATION);
    MarksChange(ON.meta, PENDING_ANNOTATION, mark);
    SameFlags(ON.meta.annotations, Marked(ON, mark).meta.annotations);
  }

  lemma {:induction false} OnIsRunning()
    ensures !StoppedOrRestarting(ON.meta.annotations)
    ensures MlflowInstance(ON.meta.annotations) == MlflowInstance(OFF.meta.annotations)
  {
    NamesApart();
    MarksApart(PENDING_ANNOTATION);
  }

  lemma {:induction false} SwitchedOn(o: Orders, reason: string)
    ensures Admit(Update(OFF), ON, BARE, o, reason) == Ok(Marked(ON, reason))
  {
    hide Mutate, InjectionEnabled, DesiredSidecar, Secure, MlflowInstance, StoppedOrRestarting;
    TemplateSecure(SIDECAR_LEFT.containers[0]);
    OnIsRunning();
    NamesApart();
    MarksApart(PENDING_ANNOTATION);
    NoInstance();
    SidecarReadable(ON.meta.annotations);
    assert Lookup(ON.meta.annotations, INJECT_AUTH_ANNOTATION) == "true";
    MutateSucceeds(SIDECAR_LEFT, ON.meta, BARE, o);
    WebhookRebuilds(SIDECAR_LEFT, ON.meta, BARE, o, TLS_ARGS);
    assert ProxyArgs(SIDECAR_LEFT) == [] != BASE_ARGS + TLS_ARGS;
  }

  /** A running workbench with a proxy container and no proxy flags. Its owner switches injection on,
      and off again between the controller's two reads of each pass: every such pass writes, and
      the store is back where it was, so that the next pass can do the same. */
  lemma {:induction false} TogglingWritesTwice(o: Orders, reason: string, first: nat -> Surroundings,
                                               second: nat -> Surroundings)
    requires Undisturbed(first(0), OFF, BARE, o, reason) && Undisturbed(second(0), OFF, BARE, o, reason) && reason != ""
    ensures var on := Marked(ON, reason);
      && Admit(Update(OFF), ON, BARE, o, reason) == Ok(on)
      && Admit(Update(on), Marked(OFF, reason), BARE, o, reason) == Ok(OFF)
      && Pass(on, on, Ok(TLS_ARGS), first) == Attempted(OFF, Settled, Some(OFF), true)
      && Pass(on, on, Ok(TLS_ARGS), second) == Attempted(OFF, Settled, Some(OFF), true)
  {
    hide Mutate, Admit, Attempts, InjectionEnabled, MlflowInstance;
    SwitchedOn(o, reason);
    NoInstanceOn(reason);
    SwitchedOff(Marked(ON, reason), o, reason, reason);
    SwitchedOff(OFF, o, reason, TLS_PENDING);
    PlansMark();
    FirstAttemptWrites(Marked(ON, reason), OFF, TLS_ARGS, first, BARE, o, reason, OFF);
    FirstAttemptWrites(Marked(ON, reason), OFF, TLS_ARGS, second, BARE, o, reason, OFF);
    StaysOn(reason);
  }

  lemma {:induction false} PlansMark()
    ensures TlsPlan(OFF, TLS_ARGS) == Write(Marked(OFF, TLS_PENDING))
  {
    assert First(SIDECAR_LEFT.containers, ContainerNamed(PROXY_CONTAINER)) == 0;
    assert |TLS_ARGS| == 1;
  }

  lemma {:induction false} StaysOn(reason: string)
    ensures InjectionEnabled(Marked(ON, reason).meta.annotations)
  {
    NamesApart();
    assert Lookup(Marked(ON, reason).meta.annotations, INJECT_AUTH_ANNOTATION) == "true";
  }

  // ----- Certificates gone from a running workbench -----------------------------------------------------

  const MOUNTED := Manifest(MetaWith(map[]), Template(Plain(NAME, [], [], []), [TRUSTED_CA]))
  const RUNTIMES_ON := BARE.(runtimeImages := Usable)

  lemma {:induction false} NothingToUnset(names: seq<string>)
    ensures UnsetEnv([], names) == Some([])
    decreases |names|
  {
    if names != [] { NothingToUnset(names[1..]); }
  }

  lemma {:induction false} MountedUnset()
    ensures BundleListed(MOUNTED.spec)
    ensures Unset(MOUNTED.spec, NAME) == Some(Template(Plain(NAME, [], [], []), []))
  {
    hide UnsetEnv, CERT_ENV_NAMES;
    NothingToUnset(CERT_ENV_NAMES);
    OwnIsFirst(Plain(NAME, [], [], []), [TRUSTED_CA]);
    assert First(MOUNTED.spec.volumes, BundleVolume()) == 0;
    assert RemoveFirst(MOUNTED.spec.volumes, BundleVolume()) == [];
    var none: seq<VolumeMount> := [];
    assert Survive(none, MountNamed(TRUSTED_CA_VOLUME)) == [] && !PanicsAt(none, MountNamed(TRUSTED_CA_VOLUME));
    assert [Plain(NAME, [], [], [])][0 := Plain(NAME, [], [], [])] == [Plain(NAME, [], [], [])];
  }

  /** The webhook wants to mount the runtime images in addition to what is listed. */
  lemma {:induction false} RuntimesMounted(volumes: seq<Volume>, o: Orders, t: PodSpec)
    requires Mutate(Template(Plain(NAME, [], [], []), volumes), MetaWith(map[]), RUNTIMES_ON, o) == Ok(t)
    requires volumes == [] || volumes == [TRUSTED_CA]
    ensures t.volumes == volumes + [RUNTIME]
  {
    hide Mutate, SamePrivileges;
    NamesApart();
    FeastOff();
    VolumeNamesApart();
    MutateOutlined(Template(Plain(NAME, [], [], []), volumes), MetaWith(map[]), RUNTIMES_ON, o);
    FirstIs(volumes, VolumeNamed(RUNTIME_VOLUME), |volumes|);
    FirstIs(volumes, VolumeNamed(FEAST_VOLUME), |volumes|);
  }

  lemma {:induction false} MountedSecure()
    ensures Secure(MOUNTED.spec, NAME)
  {
    FirstIs(MOUNTED.spec.volumes, OnHost(), 1);
  }

  /** A running workbench with the bundle mounted, on which the webhook holds the runtime images back:
      nobody stops, restarts or edits it, the ConfigMap goes, and the next pass of the controller
      changes its template, with the runtime images in it. */
  lemma {:induction false} RunningLosesTemplate(o: Orders, reason: string)
    ensures !StoppedOrRestarting(MOUNTED.meta.annotations)
    ensures Admit(Update(MOUNTED), MOUNTED, RUNTIMES_ON, o, reason) == Ok(Marked(MOUNTED, reason))
    ensures var after := Runs.Step(Some(MOUNTED), Runs.UnsetPass(MOUNTED.spec, true, RUNTIMES_ON, o, reason));
      after.Some? && after.value.meta == MOUNTED.meta && MOUNTED.spec.volumes == [TRUSTED_CA]
      && after.value.spec.volumes == [RUNTIME]
  {
    hide Mutate, Secure, Admit, Unset, Unsets, InjectionEnabled, Runs.Step, Runs.TakesCertificates;
    MountedUnset();
    MountedSecure();
    MountedUnsets(o);
    HeldOnMounted(o, reason);
    Runs.UnsetTakes(MOUNTED, Runs.UnsetPass(MOUNTED.spec, true, RUNTIMES_ON, o, reason));
    RuntimesMounted([], o, Mutate(Template(Plain(NAME, [], [], []), []), MOUNTED.meta, RUNTIMES_ON, o).value);
    assert Unannotated(MOUNTED.meta, PENDING_ANNOTATION) == MOUNTED.meta;
  }

  lemma {:induction false} MountedUnsets(o: Orders)
    ensures Unsets(MOUNTED, true, RUNTIMES_ON)
  {
    hide Mutate, Unset, SetImage, Runnable, InjectionEnabled, BundleListed;
    NamesApart();
    MountedUnset();
    RunsBare(Template(Plain(NAME, [], [], []), []), MOUNTED.meta, RUNTIMES_ON, o);
    MutateSucceeds(Template(Plain(NAME, [], [], []), []), MOUNTED.meta, RUNTIMES_ON, o);
  }

  lemma {:induction false} HeldOnMounted(o: Orders, reason: string)
    ensures Admit(Update(MOUNTED), MOUNTED, RUNTIMES_ON, o, reason) == Ok(Marked(MOUNTED, reason))
  {
    hide Mutate, Secure, InjectionEnabled;
    NamesApart();
    NoInstance();
    MountedSecure();
    RunsBare(MOUNTED.spec, MOUNTED.meta, RUNTIMES_ON, o);
    RuntimesMounted([TRUSTED_CA], o, Mutate(MOUNTED.spec, MOUNTED.meta, RUNTIMES_ON, o).value);
  }

  const MINE := EnvVar("MINE", "1", None)

  /** A pass that has read the template before its owner added a variable patches the list of
      containers as a whole, and the variable is gone. */
  lemma {:induction false} EditLost()
    ensures var read := Template(Plain(NAME, [], [CERT_VAR], []), [TRUSTED_CA]);
      var stored := Manifest(MetaWith(map[]), Template(Plain(NAME, [], [CERT_VAR, MINE], []), [TRUSTED_CA]));
      var patch := UnsetPatch(stored, read, true);
      patch.Some? && patch.value.spec.containers == [Plain(NAME, [], [], [])]
  {
    var read := Template(Plain(NAME, [], [CERT_VAR], []), [TRUSTED_CA]);
    assert CERT_ENV_NAMES[0] == "PIP_CERT";
    assert Survive([CERT_VAR], EnvNamed("PIP_CERT")) == [];
    NothingToUnset(CERT_ENV_NAMES[1..]);
    OwnIsFirst(read.containers[0], [TRUSTED_CA]);
    assert First(read.volumes, BundleVolume()) == 0;
    assert read.containers[0 := Plain(NAME, [], [], [])] == [Plain(NAME, [], [], [])];
    assert Plain(NAME, [], [], []).env != read.containers[0].env;
  }

  // ----- The orders meant above exist -----------------------------------------------------------------

  function CertOrder(): seq<(string, string)> {
    seq(|CERT_ENV_NAMES|, i requires 0 <= i < |CERT_ENV_NAMES| => (CERT_ENV_NAMES[i], CERT_FILE))
  }

  lemma {:induction false} CertNamesApart()
    ensures forall i, j :: 0 <= i < j < |CERT_ENV_NAMES| ==> CERT_ENV_NAMES[i] != CERT_ENV_NAMES[j]
  {
    assert |"PIP_CERT"| == 8 && |"REQUESTS_CA_BUNDLE"| == 18 && |"SSL_CERT_FILE"| == 13;
    assert |"PIPELINES_SSL_SA_CERTS"| == 22 && |"GIT_SSL_CAINFO"| == 14 && |"KF_PIPELINES_SSL_SA_CERTS"| == 25;
    assert forall i, j :: 0 <= i < j < 6 ==> |CERT_ENV_NAMES[i]| != |CERT_ENV_NAMES[j]|;
  }

  /** The map orders the witnesses are given exist. */
  lemma {:induction false} OrdersExist(snap: Snapshot)
    requires snap.clusterProxy.None?
    ensures Feasible(Orders(CertOrder(), []), snap)
  {
    hide CERT_ENV_NAMES;
    CertNamesApart();
    var vars := CertOrder();
    forall n <- CERT_ENV_NAMES ensures exists i :: 0 <= i < |vars| && vars[i].0 == n {
      var i :| 0 <= i < |CERT_ENV_NAMES| && CERT_ENV_NAMES[i] == n;
      assert vars[i].0 == n;
    }
  }
}
