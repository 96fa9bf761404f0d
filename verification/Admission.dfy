/** One admission: the mutation pipeline, then the gate that keeps a running workbench from
    being restarted by it, then the validating webhook. */
module Admission {
  import opened Sequences
  import opened PodModel
  import opened Mutators
  import opened EnvPipeline
  import opened MountPipeline
  import opened Pipeline
  import opened PodSecurity
  import Selection

  datatype Operation = Create | Update(stored: Manifest)

  function Annotated(meta: Meta, key: string, value: string): Meta {
    meta.(annotations := meta.annotations[key := value])
  }

  function Unannotated(meta: Meta, key: string): Meta {
    meta.(annotations := meta.annotations - {key})
  }

  /** A new notebook starts out locked, whatever stop annotation it was submitted with. */
  function Admitted(op: Operation, meta: Meta): Meta {
    if op.Create? then Annotated(meta, STOP_ANNOTATION, LOCK_VALUE) else meta
  }

  /** The mutation is held back: the workbench runs, the submitted template is the stored one,
      and the webhook itself would change it. */
  predicate HeldBack(op: Operation, meta: Meta, submitted: PodSpec, mutated: PodSpec) {
    && op.Update?
    && !StoppedOrRestarting(meta.annotations)
    && op.stored.spec == submitted
    && op.stored.spec != mutated
  }

  /** What the gate lets through of a mutation. `reason` is the diff text it would record. */
  function Gate(op: Operation, meta: Meta, submitted: PodSpec, mutated: Result<PodSpec>,
                reason: string): Result<Manifest>
  {
    match mutated
    case Err(e) => Err(e)
    case Ok(t) =>
      if HeldBack(op, meta, submitted, t) then Ok(Manifest(Annotated(meta, PENDING_ANNOTATION, reason), submitted))
      else Ok(Manifest(Unannotated(meta, PENDING_ANNOTATION), t))
  }

  /** The mutating webhook. */
  function Mutating(op: Operation, m: Manifest, snap: Snapshot, o: Orders, reason: string): Result<Manifest> {
    var meta := Admitted(op, m.meta);
    Gate(op, meta, m.spec, Mutate(m.spec, meta, snap, o), reason)
  }

  /** The validating webhook refuses to take MLflow from a running workbench. */
  predicate MlflowRemovalDenied(before: Meta, after: Meta) {
    && STOP_ANNOTATION !in after.annotations
    && MlflowInstance(before.annotations) != ""
    && MlflowInstance(after.annotations) == ""
  }

  function Validated(op: Operation, r: Result<Manifest>): Result<Manifest> {
    if r.Ok? && !Secure(r.value.spec, r.value.meta.name) then Err("the pod template is not allowed")
    else if r.Ok? && op.Update? && MlflowRemovalDenied(op.stored.meta, r.value.meta) then
      Err("cannot remove the MLflow annotation while the notebook is running")
    else r
  }

  /** The validating handler. */
  method Validate(op: Operation, m: Manifest) returns (r: Result<()>)
    ensures r.Ok? <==> Validated(op, Ok(m)) == Ok(m)
  {
    r := ValidatePodSpecSecurity(m.spec, m.meta.name);
    if r.Err? || op.Create? { return; }
    if STOP_ANNOTATION in m.meta.annotations { return; }
    if MlflowInstance(op.stored.meta.annotations) != "" && MlflowInstance(m.meta.annotations) == "" {
      return Err("cannot remove the MLflow annotation while the notebook is running");
    }
  }

  /** Both webhooks. */
  function Admit(op: Operation, m: Manifest, snap: Snapshot, o: Orders, reason: string): Result<Manifest> {
    Validated(op, Mutating(op, m, snap, o, reason))
  }

  // ----- The gate ---------------------------------------------------------------------------

  /** `r` is an exact verdict on a mutation of a stored notebook: the stored template changes only
      for an owner who asked, by stopping, by restarting, or by submitting another template; the
      pending mark says exactly when a change was held back; nothing else of the metadata moves. */
  ghost predicate ExactVerdict(stored: Manifest, m: Manifest, mutated: Result<PodSpec>, reason: string, r: Manifest) {
    && (r.spec != stored.spec ==> StoppedOrRestarting(m.meta.annotations) || m.spec != stored.spec)
    && (PENDING_ANNOTATION in r.meta.annotations <==>
          !StoppedOrRestarting(m.meta.annotations) && m.spec == stored.spec && mutated != Ok(stored.spec))
    && (PENDING_ANNOTATION in r.meta.annotations ==> r.meta.annotations[PENDING_ANNOTATION] == reason)
    && (PENDING_ANNOTATION !in r.meta.annotations ==> mutated == Ok(r.spec))
    && (forall k :: k != PENDING_ANNOTATION ==> SameEntry(r.meta.annotations, m.meta.annotations, k))
    && r.meta.name == m.meta.name && r.meta.namespace == m.meta.namespace && r.meta.labels == m.meta.labels
  }

  lemma {:induction false} GateVerdict(stored: Manifest, m: Manifest, mutated: Result<PodSpec>, reason: string)
    requires Gate(Update(stored), m.meta, m.spec, mutated, reason).Ok?
    ensures ExactVerdict(stored, m, mutated, reason, Gate(Update(stored), m.meta, m.spec, mutated, reason).value)
  {}

  lemma {:induction false} ValidatedKeeps(op: Operation, r: Result<Manifest>)
    requires Validated(op, r).Ok?
    ensures r.Ok? && Validated(op, r).value == r.value && Secure(r.value.spec, r.value.meta.name)
  {}

  /** Every admitted update is an exact verdict. */
  lemma {:induction false} GateIsExact(stored: Manifest, m: Manifest, snap: Snapshot, o: Orders, reason: string)
    requires Admit(Update(stored), m, snap, o, reason).Ok?
    ensures ExactVerdict(stored, m, Mutate(m.spec, m.meta, snap, o), reason,
      Admit(Update(stored), m, snap, o, reason).value)
  {
    hide Mutate;
    ValidatedKeeps(Update(stored), Mutating(Update(stored), m, snap, o, reason));
    GateVerdict(stored, m, Mutate(m.spec, m.meta, snap, o), reason);
  }

  /** The annotations by which an owner, or the culler, accepts that the pod goes away. */
  predicate GoesAway(annotations: map<string, string>) {
    "kubeflow-resource-stopped" in annotations || "notebooks.opendatahub.io/notebook-restart" in annotations
  }

  /** The gate, on the keys and values the API server sees. A submission that repeats the stored template
      and has neither of the two annotations leaves that template in place, and is marked, with the reason,
      exactly if the webhook would have changed it; any other submission becomes the mutated template,
      unmarked. No other annotation differs from what was submitted. */
  lemma {:induction false} GateOnKeys(stored: Manifest, m: Manifest, snap: Snapshot, o: Orders, reason: string)
    requires Admit(Update(stored), m, snap, o, reason).Ok?
    ensures var r := Admit(Update(stored), m, snap, o, reason).value;
      var annotations, mutated := r.meta.annotations, Mutate(m.spec, m.meta, snap, o);
      && mutated.Ok?
      && (if !GoesAway(m.meta.annotations) && m.spec == stored.spec then
            && r.spec == stored.spec
            && ("notebooks.opendatahub.io/update-pending" in annotations <==> mutated.value != stored.spec)
            && ("notebooks.opendatahub.io/update-pending" in annotations ==>
                  annotations["notebooks.opendatahub.io/update-pending"] == reason)
          else r.spec == mutated.value && "notebooks.opendatahub.io/update-pending" !in annotations)
      && annotations - {"notebooks.opendatahub.io/update-pending"}
      == m.meta.annotations - {"notebooks.opendatahub.io/update-pending"}
      && r.meta.(annotations := m.meta.annotations) == m.meta
  {
    hide Mutate, Secure, MlflowInstance;
    ValidatedKeeps(Update(stored), Mutating(Update(stored), m, snap, o, reason));
  }

  // ----- What is accepted --------------------------------------------------------------------------

  /** A pod template that keeps away from the host and from other service accounts. */
  ghost predicate Harmless(spec: PodSpec, name: string) {
    && !spec.rest.hostNetwork && !spec.rest.hostPID && !spec.rest.hostIPC
    && spec.serviceAccountName in {"", name}
    && (forall v <- spec.volumes :: !v.source.HostPathSource?)
    && (forall c <- spec.containers :: !c.privileged) && (forall c <- spec.rest.initContainers :: !c.privileged)
    && (forall c <- spec.rest.ephemeralContainers :: !c.privileged)
  }

  /** The annotations name an MLflow instance. */
  predicate InstanceNamed(annotations: map<string, string>) {
    && "opendatahub.io/mlflow-instance" in annotations
    && !Selection.Blank(annotations["opendatahub.io/mlflow-instance"])
  }

  /** A running workbench would lose its MLflow instance. */
  predicate TakesInstance(op: Operation, r: Meta) {
    && op.Update? && "kubeflow-resource-stopped" !in r.annotations
    && InstanceNamed(op.stored.meta.annotations) && !InstanceNamed(r.annotations)
  }

  lemma {:induction false} SecureIsHarmless(spec: PodSpec, name: string)
    ensures Secure(spec, name) <==> Harmless(spec, name)
  {
    if forall v <- spec.volumes :: !v.source.HostPathSource? { FirstIs(spec.volumes, OnHost(), |spec.volumes|); }
    if Secure(spec, name) {
      forall v | v in spec.volumes ensures !v.source.HostPathSource? {
        var i :| 0 <= i < |spec.volumes| && spec.volumes[i] == v;
        assert !OnHost()(spec.volumes[i]);
      }
    }
  }

  lemma {:induction false} NamedIsNotBlank(annotations: map<string, string>)
    ensures MlflowInstance(annotations) != "" <==> InstanceNamed(annotations)
  {
    Selection.TrimmedText(Lookup(annotations, MLFLOW_ANNOTATION));
  }

  /** What the mutating webhook produces is stored if and only if the pod template is harmless and a running
      workbench does not lose its MLflow instance. */
  lemma {:induction false} AcceptedExactly(op: Operation, m: Manifest, snap: Snapshot, o: Orders, reason: string)
    requires Mutate(m.spec, Admitted(op, m.meta), snap, o).Ok?
    ensures Mutating(op, m, snap, o, reason).Ok?
    ensures var r := Mutating(op, m, snap, o, reason).value;
      && (Admit(op, m, snap, o, reason).Ok? ==> Admit(op, m, snap, o, reason).value == r)
      && (Admit(op, m, snap, o, reason).Ok? <==> Harmless(r.spec, r.meta.name) && !TakesInstance(op, r.meta))
  {
    hide Mutate, Secure, Harmless, MlflowInstance, InstanceNamed;
    var r := Mutating(op, m, snap, o, reason).value;
    SecureIsHarmless(r.spec, r.meta.name);
    NamedIsNotBlank(r.meta.annotations);
    if op.Update? { NamedIsNotBlank(op.stored.meta.annotations); }
  }

  // ----- What the pipeline depends on ----------------------------------------------------------

  /** Metadata that ask for the same pod template. */
  ghost predicate SameRequest(a: Meta, b: Meta) {
    && a.name == b.name
    && (FeastEnabled(a.labels) <==> FeastEnabled(b.labels))
    && SameEntry(a.annotations, b.annotations, IMAGE_SELECTION_ANNOTATION)
    && SameEntry(a.annotations, b.annotations, IMAGE_NAMESPACE_ANNOTATION)
    && SameEntry(a.annotations, b.annotations, MLFLOW_ANNOTATION)
    && SameEntry(a.annotations, b.annotations, INJECT_AUTH_ANNOTATION)
    && SameEntry(a.annotations, b.annotations, CPU_REQUEST_ANNOTATION)
    && SameEntry(a.annotations, b.annotations, MEMORY_REQUEST_ANNOTATION)
    && SameEntry(a.annotations, b.annotations, CPU_LIMIT_ANNOTATION)
    && SameEntry(a.annotations, b.annotations, MEMORY_LIMIT_ANNOTATION)
  }

  ghost predicate SameEntry(a: map<string, string>, b: map<string, string>, k: string) {
    (k in a <==> k in b) && Lookup(a, k) == Lookup(b, k)
  }

  lemma {:induction false} SameImage(spec: PodSpec, a: Meta, b: Meta, snap: Snapshot)
    requires SameEntry(a.annotations, b.annotations, IMAGE_SELECTION_ANNOTATION)
    requires SameEntry(a.annotations, b.annotations, IMAGE_NAMESPACE_ANNOTATION)
    requires a.name == b.name
    ensures SetImage(spec, a, snap) == SetImage(spec, b, snap)
  {
    SameSelection(a.annotations, b.annotations, snap);
  }

  lemma {:induction false} SameSelection(a: map<string, string>, b: map<string, string>, snap: Snapshot)
    requires Lookup(a, IMAGE_SELECTION_ANNOTATION) == Lookup(b, IMAGE_SELECTION_ANNOTATION)
    requires Lookup(a, IMAGE_NAMESPACE_ANNOTATION) == Lookup(b, IMAGE_NAMESPACE_ANNOTATION)
    ensures SelectImage(a, snap) == SelectImage(b, snap)
  {}

  lemma {:induction false} SameFlags(a: map<string, string>, b: map<string, string>)
    requires SameEntry(a, b, MLFLOW_ANNOTATION) && SameEntry(a, b, INJECT_AUTH_ANNOTATION)
    ensures MlflowInstance(a) == MlflowInstance(b)
    ensures InjectionEnabled(a) <==> InjectionEnabled(b)
  {}

  lemma {:induction false} SameQuantity(a: map<string, string>, b: map<string, string>, key: string, default: real,
                                        parse: map<string, real>)
    requires SameEntry(a, b, key)
    ensures Quantity(a, key, default, parse) == Quantity(b, key, default, parse)
  {}

  lemma {:induction false} SameSidecar(a: map<string, string>, b: map<string, string>, snap: Snapshot)
    requires SameEntry(a, b, CPU_REQUEST_ANNOTATION) && SameEntry(a, b, MEMORY_REQUEST_ANNOTATION)
    requires SameEntry(a, b, CPU_LIMIT_ANNOTATION) && SameEntry(a, b, MEMORY_LIMIT_ANNOTATION)
    ensures DesiredSidecar(a, snap) == DesiredSidecar(b, snap)
  {
    SameQuantity(a, b, CPU_REQUEST_ANNOTATION, DEFAULT_RESOURCES.cpuRequest, snap.quantities);
    SameQuantity(a, b, MEMORY_REQUEST_ANNOTATION, DEFAULT_RESOURCES.memoryRequest, snap.quantities);
    SameQuantity(a, b, CPU_LIMIT_ANNOTATION, DEFAULT_RESOURCES.cpuLimit, snap.quantities);
    SameQuantity(a, b, MEMORY_LIMIT_ANNOTATION, DEFAULT_RESOURCES.memoryLimit, snap.quantities);
  }

  /** The pipeline reads nothing else of the metadata. */
  lemma {:induction false} MutateReads(spec: PodSpec, a: Meta, b: Meta, snap: Snapshot, o: Orders)
    requires SameRequest(a, b)
    ensures Mutate(spec, a, snap, o) == Mutate(spec, b, snap, o)
    ensures Regular(spec, a, snap) <==> Regular(spec, b, snap)
  {
    hide Early, Late, SetImage, DesiredSidecar, EnvRegular, ElyraRegular, VolumesRegular;
    SameImage(spec, a, b, snap);
    SameFlags(a.annotations, b.annotations);
    SameSidecar(a.annotations, b.annotations, snap);
    EarlyReads(spec, a, b, snap, o);
    if Early(spec, a, snap, o).Ok? { LateReads(Early(spec, a, snap, o).value, a, b, snap, o); }
  }

  lemma {:induction false} EarlyReads(spec: PodSpec, a: Meta, b: Meta, snap: Snapshot, o: Orders)
    requires a.name == b.name && (FeastEnabled(a.labels) <==> FeastEnabled(b.labels))
    requires MlflowInstance(a.annotations) == MlflowInstance(b.annotations)
    requires SetImage(spec, a, snap) == SetImage(spec, b, snap)
    ensures Early(spec, a, snap, o) == Early(spec, b, snap, o)
  {
    hide SetImage, AfterCert, AfterElyra, AfterMlflow, MountFeast, UnmountFeast, MlflowInstance;
  }

  lemma {:induction false} LateReads(spec: PodSpec, a: Meta, b: Meta, snap: Snapshot, o: Orders)
    requires a.name == b.name && (InjectionEnabled(a.annotations) <==> InjectionEnabled(b.annotations))
    requires DesiredSidecar(a.annotations, snap) == DesiredSidecar(b.annotations, snap)
    ensures Late(spec, a, snap, o) == Late(spec, b, snap, o)
  {
    hide DesiredSidecar, InjectSidecar, AfterEnv, ApplyTimeout, InjectionEnabled;
  }

  /** Stop, restart and pending marks are not part of the request. */
  lemma {:induction false} MarksApart(k: string)
    requires k == STOP_ANNOTATION || k == RESTART_ANNOTATION || k == PENDING_ANNOTATION
    ensures |k| in {25, 41, 39}
    ensures STOP_ANNOTATION != PENDING_ANNOTATION && RESTART_ANNOTATION != PENDING_ANNOTATION
    ensures STOP_ANNOTATION != RESTART_ANNOTATION
    ensures |IMAGE_SELECTION_ANNOTATION| == 45 && |IMAGE_NAMESPACE_ANNOTATION| == 40 && |MLFLOW_ANNOTATION| == 30
    ensures |INJECT_AUTH_ANNOTATION| == 36 && |CPU_REQUEST_ANNOTATION| == 49 && |MEMORY_REQUEST_ANNOTATION| == 52
    ensures |CPU_LIMIT_ANNOTATION| == 47 && |MEMORY_LIMIT_ANNOTATION| == 50
  {
    assert |STOP_ANNOTATION| == 25 && |RESTART_ANNOTATION| == 41 && |PENDING_ANNOTATION| == 39;
  }

  lemma {:induction false} OtherEntry(m: map<string, string>, k: string, value: string, j: string)
    requires |j| != |k|
    ensures SameEntry(m, m[k := value], j) && SameEntry(m, m - {k}, j)
  {}

  lemma {:induction false} MarksChange(meta: Meta, k: string, value: string)
    requires k == STOP_ANNOTATION || k == RESTART_ANNOTATION || k == PENDING_ANNOTATION
    ensures SameRequest(meta, Annotated(meta, k, value)) && SameRequest(meta, Unannotated(meta, k))
  {
    MarksApart(k);
    OtherEntry(meta.annotations, k, value, IMAGE_SELECTION_ANNOTATION);
    OtherEntry(meta.annotations, k, value, IMAGE_NAMESPACE_ANNOTATION);
    OtherEntry(meta.annotations, k, value, MLFLOW_ANNOTATION);
    OtherEntry(meta.annotations, k, value, INJECT_AUTH_ANNOTATION);
    OtherEntry(meta.annotations, k, value, CPU_REQUEST_ANNOTATION);
    OtherEntry(meta.annotations, k, value, MEMORY_REQUEST_ANNOTATION);
    OtherEntry(meta.annotations, k, value, CPU_LIMIT_ANNOTATION);
    OtherEntry(meta.annotations, k, value, MEMORY_LIMIT_ANNOTATION);
  }

  // ----- Nothing changed, nothing pending --------------------------------------------------------

  lemma {:induction false} GateOpen(op: Operation, meta: Meta, submitted: PodSpec, t: PodSpec, reason: string)
    requires op.Update? ==> StoppedOrRestarting(meta.annotations) || op.stored.spec != submitted || op.stored.spec == t
    ensures Gate(op, meta, submitted, Ok(t), reason) == Ok(Manifest(Unannotated(meta, PENDING_ANNOTATION), t))
  {}

  /** A template some admission produced under a configuration is not marked pending by a later
      update that keeps the template and the request, as long as the cluster reads the same:
      neither map order nor the proxy container being rebuilt each time raises the mark. */
  lemma {:induction false} UnchangedConfiguration(op: Operation, first: Manifest, stored: Manifest, m: Manifest,
                                                  snap: Snapshot, o: Orders, o': Orders, reason: string)
    requires m.meta.name != PROXY_CONTAINER && Feasible(o, snap) && Feasible(o', snap)
    requires Mutate(first.spec, Admitted(op, first.meta), snap, o) == Ok(stored.spec)
    requires Regular(first.spec, first.meta, snap)
    requires m.spec == stored.spec && SameRequest(first.meta, m.meta)
    ensures Mutating(Update(stored), m, snap, o', reason)
      == Ok(Manifest(Unannotated(m.meta, PENDING_ANNOTATION), stored.spec))
  {
    hide Mutate, Regular;
    SettledRequest(op, first, m.meta, stored.spec, snap, o);
    MutateTwice(first.spec, m.meta, snap, o, o');
    GateOpen(Update(stored), m.meta, m.spec, stored.spec, reason);
  }

  lemma {:induction false} SettledRequest(op: Operation, first: Manifest, meta: Meta, t: PodSpec, snap: Snapshot,
                                          o: Orders)
    requires Mutate(first.spec, Admitted(op, first.meta), snap, o) == Ok(t) && Regular(first.spec, first.meta, snap)
    requires SameRequest(first.meta, meta)
    ensures Mutate(first.spec, meta, snap, o) == Ok(t) && Regular(first.spec, meta, snap)
  {
    hide Mutate, Regular, SameRequest;
    MarksChange(first.meta, STOP_ANNOTATION, LOCK_VALUE);
    SameRequestTwo(first.meta, Admitted(op, first.meta), meta);
    MutateReads(first.spec, Admitted(op, first.meta), meta, snap, o);
    MutateReads(first.spec, first.meta, meta, snap, o);
  }

  lemma {:induction false} SameRequestTwo(a: Meta, b: Meta, c: Meta)
    requires SameRequest(a, b) && SameRequest(a, c)
    ensures SameRequest(b, c)
  {}

  /** Stopping or restarting the workbench lets everything held back through and clears the mark, if and
      only if the mutated template passes the security check; which it does whenever the stored one
      would. */
  lemma {:induction false} GoingAwayReleases(stored: Manifest, snap: Snapshot, o: Orders, reason: string, key: string,
                                             value: string)
    requires Mutate(stored.spec, stored.meta, snap, o).Ok?
    requires key == "kubeflow-resource-stopped" || key == "notebooks.opendatahub.io/notebook-restart"
    ensures var t := Mutate(stored.spec, stored.meta, snap, o).value;
      var meta := stored.meta.(annotations := stored.meta.annotations[key := value]);
      var r := Admit(Update(stored), Manifest(meta, stored.spec), snap, o, reason);
      && (r.Ok? <==> Secure(t, stored.meta.name))
      && (r.Ok? ==> r.value.spec == t && r.value.meta == meta.(annotations := r.value.meta.annotations)
                    && r.value.meta.annotations == meta.annotations - {"notebooks.opendatahub.io/update-pending"})
      && (Secure(stored.spec, stored.meta.name) ==> r.Ok?)
  {
    hide Mutate, Secure;
    var t := Mutate(stored.spec, stored.meta, snap, o).value;
    var meta := Annotated(stored.meta, key, value);
    MarksApart(key);
    MarksChange(stored.meta, key, value);
    MutateReads(stored.spec, stored.meta, meta, snap, o);
    GateOpen(Update(stored), meta, stored.spec, t, reason);
    SameInstance(stored.meta, key, value);
    GonePasses(stored, Manifest(Unannotated(meta, PENDING_ANNOTATION), t));
    MutateSecure(stored.spec, stored.meta, snap, o, t);
  }

  lemma {:induction false} SameInstance(meta: Meta, key: string, value: string)
    requires key == STOP_ANNOTATION || key == RESTART_ANNOTATION
    ensures MlflowInstance(Unannotated(Annotated(meta, key, value), PENDING_ANNOTATION).annotations)
         == MlflowInstance(meta.annotations)
  {
    hide MlflowInstance;
    MarksChange(meta, key, value);
    MarksChange(Annotated(meta, key, value), PENDING_ANNOTATION, "");
    SameFlags(meta.annotations, Annotated(meta, key, value).annotations);
    SameFlags(Annotated(meta, key, value).annotations,
      Unannotated(Annotated(meta, key, value), PENDING_ANNOTATION).annotations);
  }

  /** With the MLflow request as it was, the validating webhook looks at the template alone. */
  lemma {:induction false} GonePasses(stored: Manifest, r: Manifest)
    requires MlflowInstance(r.meta.annotations) == MlflowInstance(stored.meta.annotations)
    ensures Validated(Update(stored), Ok(r)).Ok? <==> Secure(r.spec, r.meta.name)
  {}

  /** An accepted new notebook is locked whatever stop annotation it was submitted with, gets the
      template it would get without the lock, unmarked, and keeps its other annotations. */
  lemma {:induction false} NewIsLocked(m: Manifest, snap: Snapshot, o: Orders, reason: string)
    requires Admit(Create, m, snap, o, reason).Ok?
    ensures var r := Admit(Create, m, snap, o, reason).value;
      && "kubeflow-resource-stopped" in r.meta.annotations
      && r.meta.annotations["kubeflow-resource-stopped"] == "odh-notebook-controller-lock"
      && "notebooks.opendatahub.io/update-pending" !in r.meta.annotations
        && Mutate(m.spec, m.meta, snap, o) == Ok(r.spec)
      && r.meta.annotations - {"kubeflow-resource-stopped"}
      == m.meta.annotations - {"kubeflow-resource-stopped", "notebooks.opendatahub.io/update-pending"}
      && r.meta.(annotations := m.meta.annotations) == m.meta
  {
    hide Mutate;
    MarksApart(STOP_ANNOTATION);
    MarksChange(m.meta, STOP_ANNOTATION, LOCK_VALUE);
    MutateReads(m.spec, m.meta, Admitted(Create, m.meta), snap, o);
  }

  lemma {:induction false} StoppedPasses(stored: Manifest, r: Manifest)
    requires STOP_ANNOTATION in r.meta.annotations
    ensures Validated(Update(stored), Ok(r)).Ok? <==> Secure(r.spec, r.meta.name)
  {}

  // ----- MLflow: two webhooks, one invariant ----------------------------------------------------------

  /** The environment of the notebook's own container. */
  function OwnEnvOf(m: Manifest): seq<EnvVar> {
    var k := First(m.spec.containers, ContainerNamed(m.meta.name));
    if k < |m.spec.containers| then m.spec.containers[k].env else []
  }

  function Flags(m: Manifest): seq<EnvVar> {
    Sel(OwnEnvOf(m), EnvNamed(MLFLOW_K8S))
  }

  /** The integration flag in the notebook container comes with an MLflow instance. */
  ghost predicate MlflowConsistent(m: Manifest) {
    Flags(m) != [] ==> MlflowInstance(m.meta.annotations) != ""
  }

  lemma {:induction false} OwnEnvFlags(env: seq<EnvVar>, snap: Snapshot, o: Orders)
    requires Feasible(o, snap) && snap.mlflow.Some?
    ensures var s := Sel(env, EnvNamed(MLFLOW_K8S));
      Sel(OwnEnv(env, "", snap, o), EnvNamed(MLFLOW_K8S)) == if s == [] then [] else s[1..]
  {
    var e2 := CertStep(env, snap, o);
    CertStepSameMlflow(env, snap, o);
    ProxyStepSameMlflow(MlflowStep(e2, "", snap), snap, o);
    CleanupFlags(e2, snap.mlflow.value);
  }

  lemma {:induction false} CleanupFlags(env: seq<EnvVar>, host: Option<string>)
    ensures var s := Sel(env, EnvNamed(MLFLOW_K8S));
      Sel(MlflowEnv(env, "", host), EnvNamed(MLFLOW_K8S)) == if s == [] then [] else s[1..]
  {
    MlflowNamesApart();
    var a := RemoveFirst(env, EnvNamed(MLFLOW_K8S));
    var b := RemoveFirst(a, EnvNamed(MLFLOW_AUTH));
    RemoveEnvSel(env, MLFLOW_K8S, MLFLOW_K8S);
    RemoveEnvSel(a, MLFLOW_AUTH, MLFLOW_K8S);
    RemoveEnvSel(b, MLFLOW_URI, MLFLOW_K8S);
  }

  /** With no instance named, one admission takes away exactly one flag. */
  lemma {:induction false} MutateTakesOneFlag(m: Manifest, snap: Snapshot, o: Orders, t: PodSpec)
    requires m.meta.name != PROXY_CONTAINER && Feasible(o, snap) && snap.mlflow.Some?
    requires MlflowInstance(m.meta.annotations) == "" && Mutate(m.spec, m.meta, snap, o) == Ok(t)
    ensures Flags(m.(spec := t)) == if Flags(m) == [] then [] else Flags(m)[1..]
  {
    hide Mutate, SetImage, Feasible, OwnEnv, MlflowInstance, Sidecar, AllVolumes;
    MutateSucceeds(m.spec, m.meta, snap, o);
    var s1 := SetImage(m.spec, m.meta, snap).value;
    SetImageFrame(m.spec, m.meta, snap);
    MutateFinished(m.spec, s1, m.meta, snap, o);
    var own := First(m.spec.containers, ContainerNamed(m.meta.name));
    FirstByName(m.spec.containers, s1.containers, m.meta.name);
    FinishedOwn(s1, t, m.meta.name, FeastActOf(s1.volumes, FeastEnabled(m.meta.labels)), "", Sidecar(m.meta, snap),
      snap, o);
    if own < |m.spec.containers| {
      OwnEnvFlags(s1.containers[own].env, snap, o);
      assert Repainted(m.spec.containers[own], s1.containers[own]);
      EnvNamesApart(JUPYTER_IMAGE);
    }
  }

  /** The notebook's own container, found again in a finished template. */
  lemma {:induction false} FinishedOwn(s: PodSpec, t: PodSpec, name: string, act: FeastAct, instance: string,
                                       sidecar: Option<Container>, snap: Snapshot, o: Orders)
    requires name != PROXY_CONTAINER && Finished(s, t, name, act, instance, sidecar, snap, o)
    ensures var own := First(s.containers, ContainerNamed(name));
      if own < |s.containers| then
        First(t.containers, ContainerNamed(name)) == own && own < |t.containers|
          && t.containers[own].env == OwnEnv(s.containers[own].env, instance, snap, o)
      else First(t.containers, ContainerNamed(name)) == |t.containers|
  {
    hide OwnEnv, OwnMounts, SharedMounts, AllVolumes, Timed, TimedSidecar;
    FirstByName(s.containers, t.containers, name);
  }

  lemma {:induction false} GateMlflow(op: Operation, m: Manifest, t: PodSpec, reason: string, r: Manifest,
                                      instance: string)
    requires Validated(op, Gate(op, m.meta, m.spec, Ok(t), reason)) == Ok(r)
    requires instance == MlflowInstance(r.meta.annotations)
    requires op.Update? ==> op.stored.meta.name == m.meta.name && MlflowConsistent(op.stored)
    requires instance == "" && !HeldBack(op, m.meta, m.spec, t) ==> Flags(m.(spec := t)) == []
    ensures Flags(r) != [] ==> instance != ""
  {
    hide MlflowInstance;
    MarksApart(PENDING_ANNOTATION);
    if instance == "" {
      if HeldBack(op, m.meta, m.spec, t) {
        assert STOP_ANNOTATION !in r.meta.annotations;
        assert OwnEnvOf(r) == OwnEnvOf(op.stored);
      } else {
        assert OwnEnvOf(r) == OwnEnvOf(m.(spec := t));
      }
    }
  }

  lemma {:induction false} GateRequest(op: Operation, meta: Meta, submitted: PodSpec, t: PodSpec, reason: string,
                                       r: Manifest)
    requires Gate(op, meta, submitted, Ok(t), reason) == Ok(r)
    ensures SameEntry(meta.annotations, r.meta.annotations, MLFLOW_ANNOTATION)
    ensures SameEntry(meta.annotations, r.meta.annotations, INJECT_AUTH_ANNOTATION)
  {
    MarksChange(meta, PENDING_ANNOTATION, reason);
  }

  lemma {:induction false} AdmittedRequest(op: Operation, meta: Meta)
    ensures SameEntry(meta.annotations, Admitted(op, meta).annotations, MLFLOW_ANNOTATION)
    ensures SameEntry(meta.annotations, Admitted(op, meta).annotations, INJECT_AUTH_ANNOTATION)
  {
    MarksChange(meta, STOP_ANNOTATION, LOCK_VALUE);
  }

  /** The MLflow request of an admitted notebook is the one it was submitted with. */
  lemma {:induction false} InstanceKept(op: Operation, meta: Meta, submitted: PodSpec, t: PodSpec, reason: string,
                                        r: Manifest)
    requires Gate(op, Admitted(op, meta), submitted, Ok(t), reason) == Ok(r)
    ensures MlflowInstance(r.meta.annotations) == MlflowInstance(meta.annotations)
    ensures MlflowInstance(Admitted(op, meta).annotations) == MlflowInstance(meta.annotations)
  {
    AdmittedRequest(op, meta);
    GateRequest(op, Admitted(op, meta), submitted, t, reason, r);
    SameFlags(meta.annotations, Admitted(op, meta).annotations);
    SameFlags(Admitted(op, meta).annotations, r.meta.annotations);
  }

  /** Mutating and validating webhook together keep the invariant, also when the mutation is held
      back on a running workbench, whenever the submitted container has the flag at most once. */
  lemma {:induction false} MlflowStaysConsistent(op: Operation, m: Manifest, snap: Snapshot, o: Orders, reason: string)
    requires m.meta.name != PROXY_CONTAINER && Feasible(o, snap) && snap.mlflow.Some?
    requires op.Update? ==> op.stored.meta.name == m.meta.name && MlflowConsistent(op.stored)
    requires |Flags(m)| <= 1
    requires Admit(op, m, snap, o, reason).Ok?
    ensures MlflowConsistent(Admit(op, m, snap, o, reason).value)
  {
    hide Mutate, MlflowInstance, Feasible;
    ValidatedKeeps(op, Mutating(op, m, snap, o, reason));
    GatedMlflow(op, m, Admitted(op, m.meta), Mutate(m.spec, Admitted(op, m.meta), snap, o), snap, o, reason,
      Admit(op, m, snap, o, reason).value);
  }

  lemma {:induction false} GatedMlflow(op: Operation, m: Manifest, meta: Meta, mutated: Result<PodSpec>, snap: Snapshot,
                                       o: Orders, reason: string, r: Manifest)
    requires m.meta.name != PROXY_CONTAINER && Feasible(o, snap) && snap.mlflow.Some?
    requires op.Update? ==> op.stored.meta.name == m.meta.name && MlflowConsistent(op.stored)
    requires |Flags(m)| <= 1 && meta == Admitted(op, m.meta) && mutated == Mutate(m.spec, meta, snap, o)
    requires Gate(op, meta, m.spec, mutated, reason) == Ok(r) == Validated(op, Ok(r))
    ensures MlflowConsistent(r)
  {
    hide Mutate, MlflowInstance, Feasible;
    var t := mutated.value;
    InstanceKept(op, m.meta, m.spec, t, reason, r);
    if MlflowInstance(m.meta.annotations) == "" { MutateTakesOneFlag(Manifest(meta, m.spec), snap, o, t); }
    GateMlflow(op, Manifest(meta, m.spec), t, reason, r, MlflowInstance(m.meta.annotations));
  }

  /** The flag does not multiply. */
  lemma {:induction false} MutateKeepsFew(m: Manifest, snap: Snapshot, o: Orders, t: PodSpec)
    requires m.meta.name != PROXY_CONTAINER && Feasible(o, snap) && snap.mlflow.Some?
    requires |Flags(m)| <= 1 && Mutate(m.spec, m.meta, snap, o) == Ok(t)
    ensures |Flags(m.(spec := t))| <= 1
  {
    hide Mutate, SetImage, Feasible, OwnEnv, MlflowInstance, Sidecar, AllVolumes;
    MutateSucceeds(m.spec, m.meta, snap, o);
    var s1 := SetImage(m.spec, m.meta, snap).value;
    var instance := MlflowInstance(m.meta.annotations);
    SetImageFrame(m.spec, m.meta, snap);
    MutateFinished(m.spec, s1, m.meta, snap, o);
    var own := First(m.spec.containers, ContainerNamed(m.meta.name));
    FirstByName(m.spec.containers, s1.containers, m.meta.name);
    FinishedOwn(s1, t, m.meta.name, FeastActOf(s1.volumes, FeastEnabled(m.meta.labels)), instance,
      Sidecar(m.meta, snap), snap, o);
    if own < |m.spec.containers| {
      OwnEnvFew(s1.containers[own].env, instance, snap, o);
      assert Repainted(m.spec.containers[own], s1.containers[own]);
      EnvNamesApart(JUPYTER_IMAGE);
    }
  }

  lemma {:induction false} OwnEnvFew(env: seq<EnvVar>, instance: string, snap: Snapshot, o: Orders)
    requires Feasible(o, snap) && snap.mlflow.Some?
    ensures |Sel(OwnEnv(env, instance, snap, o), EnvNamed(MLFLOW_K8S))| <= if |Sel(env, EnvNamed(MLFLOW_K8S))| <= 1
      then 1 else |Sel(env, EnvNamed(MLFLOW_K8S))|
  {
    hide CertStep, ProxyStep, Feasible, MlflowEnv;
    var e2 := CertStep(env, snap, o);
    CertStepSameMlflow(env, snap, o);
    ProxyStepSameMlflow(MlflowStep(e2, instance, snap), snap, o);
    if instance == "" { CleanupFlags(e2, snap.mlflow.value); } else { SetupFlags(e2, instance, snap.mlflow.value); }
  }

  lemma {:induction false} SetupFlags(env: seq<EnvVar>, instance: string, host: Option<string>)
    requires instance != ""
    ensures var s := Sel(env, EnvNamed(MLFLOW_K8S));
      |Sel(MlflowEnv(env, instance, host), EnvNamed(MLFLOW_K8S))| == if s == [] then 1 else |s|
  {
    hide TrackingUri;
    MlflowNamesApart();
    var a := SetFirst(env, MLFLOW_K8S, "true");
    var b := SetFirst(a, MLFLOW_AUTH, "kubernetes-namespaced");
    SetFirstSel(env, MLFLOW_K8S, "true", MLFLOW_K8S);
    SetFirstSel(a, MLFLOW_AUTH, "kubernetes-namespaced", MLFLOW_K8S);
    if host.None? {
      RemoveEnvSel(b, MLFLOW_URI, MLFLOW_K8S);
    } else {
      SetFirstSel(b, MLFLOW_URI, TrackingUri(host.value, instance), MLFLOW_K8S);
    }
  }

  lemma {:induction false} FlagsStayFew(op: Operation, m: Manifest, snap: Snapshot, o: Orders, reason: string,
                                        r: Manifest)
    requires m.meta.name != PROXY_CONTAINER && Feasible(o, snap) && snap.mlflow.Some?
    requires |Flags(m)| <= 1 && Admit(op, m, snap, o, reason) == Ok(r)
    ensures r.meta.name == m.meta.name && |Flags(r)| <= 1
  {
    hide Mutate, Feasible, MlflowInstance;
    ValidatedKeeps(op, Mutating(op, m, snap, o, reason));
    var meta := Admitted(op, m.meta);
    MutateKeepsFew(Manifest(meta, m.spec), snap, o, Mutate(m.spec, meta, snap, o).value);
  }

  /** The bound is exact: where no instance is named and nothing is held back, on a new notebook or
      an update, the flag is left over if and only if it was submitted more than once. */
  lemma {:induction false} MlflowLeftOver(op: Operation, m: Manifest, snap: Snapshot, o: Orders, reason: string)
    requires m.meta.name != PROXY_CONTAINER && Feasible(o, snap) && snap.mlflow.Some?
    requires MlflowInstance(m.meta.annotations) == "" && Admit(op, m, snap, o, reason).Ok?
    requires !HeldBack(op, Admitted(op, m.meta), m.spec, Mutate(m.spec, Admitted(op, m.meta), snap, o).value)
    ensures MlflowConsistent(Admit(op, m, snap, o, reason).value) <==> |Flags(m)| <= 1
  {
    hide Mutate, MlflowInstance, Feasible;
    var r, meta := Admit(op, m, snap, o, reason).value, Admitted(op, m.meta);
    ValidatedKeeps(op, Mutating(op, m, snap, o, reason));
    InstanceKept(op, m.meta, m.spec, Mutate(m.spec, meta, snap, o).value, reason, r);
    MutateTakesOneFlag(Manifest(meta, m.spec), snap, o, r.spec);
  }
}
