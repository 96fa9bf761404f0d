/** What each mutator of the admission webhook does to a pod template, as functions.
    The loops that do it in place are in MutatingWebhook.dfy and are proved equal to these. */
module Mutators {
  import opened Text
  import opened Sequences
  import opened PodModel

  // ----- Cluster state read by one admission ---------------------------------

  /** A named object as the webhook sees it: usable, missing or without data, or unreadable. */
  datatype Sighting = Usable | Absent | Unreadable

  datatype TagItem = TagItem(created: int, imageReference: string)
  datatype StreamTag = StreamTag(tag: string, items: seq<TagItem>)
  datatype ImageStream = ImageStream(tags: Option<seq<StreamTag>>)
  datatype ClusterProxy = ClusterProxy(http: string, https: string, noProxy: string)

  datatype Snapshot = Snapshot(
    controllerNamespace: string,
    imageStreams: map<(string, string), ImageStream>,  // by (namespace, name); a failed read counts as absent
    caBundle: bool,                                     // both bundle ConfigMaps are there
    runtimeImages: Sighting,
    elyra: Option<Sighting>,                            // None: SET_PIPELINE_SECRET is off
    mlflow: Option<Option<string>>,                     // None: MLflow off; inner: gateway host, if known
    proxyImage: string,
    tlsArgs: Result<seq<string>>,                       // resolved sidecar TLS flags
    quantities: map<string, real>,                      // the strings that parse as resource quantities
    probeTimeout: Result<Option<int>>,
    clusterProxy: Option<ClusterProxy>)                 // None: injection off or no cluster proxy

  // ----- Environment variables -------------------------------------------------

  /** Give every occurrence of `n` the value `v`; append the variable when it is missing. */
  function SetAll(env: seq<EnvVar>, n: string, v: string): seq<EnvVar> {
    if First(env, EnvNamed(n)) == |env| then env + [EnvVar(n, v, None)] else Revalue(env, n, v)
  }

  function Revalue(env: seq<EnvVar>, n: string, v: string): (r: seq<EnvVar>)
    ensures |r| == |env|
    ensures forall i :: 0 <= i < |r| ==> r[i] == if env[i].name == n then env[i].(value := v) else env[i]
  {
    if env == [] then []
    else [if env[0].name == n then env[0].(value := v) else env[0]] + Revalue(env[1..], n, v)
  }

  /** `SetAll` for several variables, in the order a map hands them out. */
  function InjectAll(env: seq<EnvVar>, vars: seq<(string, string)>): seq<EnvVar>
    decreases |vars|
  {
    if vars == [] then env else InjectAll(SetAll(env, vars[0].0, vars[0].1), vars[1..])
  }

  /** Give the first occurrence of `n` the value `v`, or append the variable. */
  function SetFirst(env: seq<EnvVar>, n: string, v: string): seq<EnvVar> {
    var k := First(env, EnvNamed(n));
    if k < |env| then env[k := env[k].(value := v)] else env + [EnvVar(n, v, None)]
  }

  /** Give the first occurrence of `n` the value `v`, if there is one. */
  function SetIfPresent(env: seq<EnvVar>, n: string, v: string): seq<EnvVar> {
    var k := First(env, EnvNamed(n));
    if k < |env| then env[k := env[k].(value := v)] else env
  }

  // ----- Workbench image ---------------------------------------------------------

  datatype ImageOutcome = BadSelection | NoTags | NotFound | Image(reference: string)

  const INTERNAL_REGISTRY := "image-registry.openshift-image-registry.svc:5000"

  /** The most recently created item; of several equally recent ones the first. */
  function Newest(items: seq<TagItem>): (r: TagItem)
    requires items != []
    ensures r in items
    ensures forall i :: 0 <= i < |items| ==> items[i].created <= r.created
  {
    if |items| == 1 then items[0]
    else
      var rest := Newest(items[1..]);
      if items[0].created >= rest.created then items[0] else rest
  }

  function TagImage(tags: seq<StreamTag>, tag: string): ImageOutcome {
    if tags == [] then NotFound
    else if tags[0].tag == tag && tags[0].items != [] then Image(Newest(tags[0].items).imageReference)
    else TagImage(tags[1..], tag)
  }

  function SelectImage(annotations: map<string, string>, snap: Snapshot): ImageOutcome {
    var parts := Split(Lookup(annotations, IMAGE_SELECTION_ANNOTATION), ':');
    if |parts| != 2 then BadSelection
    else
      var chosen := Lookup(annotations, IMAGE_NAMESPACE_ANNOTATION);
      var ns := if TrimSpace(chosen) == "" then snap.controllerNamespace else chosen;
      if (ns, parts[0]) !in snap.imageStreams then NotFound
      else match snap.imageStreams[(ns, parts[0])].tags
        case None => NoTags
        case Some(tags) => TagImage(tags, parts[1])
  }

  /** The loop over the containers from index `i` on. It writes the image of container 0,
      whichever container carries the notebook's name. */
  function ImagePass(cs: seq<Container>, i: nat, name: string, outcome: ImageOutcome,
                     selection: string): (r: Result<seq<Container>>)
    requires i <= |cs|
    decreases |cs| - i
  {
    if i == |cs| then Ok(cs)
    else if cs[i].name != name then ImagePass(cs, i + 1, name, outcome, selection)
    else if Contains(cs[i].image, INTERNAL_REGISTRY) then Ok(cs)
    else match outcome
      case BadSelection => Err("invalid image selection format")
      case NoTags => Err("ImageStream has no status or tags")
      case NotFound => ImagePass(cs, i + 1, name, outcome, selection)
      case Image(reference) => ImagePass(WithImage(cs, i, reference, selection), i + 1, name, outcome, selection)
  }

  function WithImage(cs: seq<Container>, i: nat, reference: string, selection: string): (r: seq<Container>)
    requires i < |cs|
    ensures |r| == |cs|
  {
    var placed := cs[0 := cs[0].(image := reference)];
    placed[i := placed[i].(env := SetIfPresent(placed[i].env, JUPYTER_IMAGE, selection))]
  }

  function SetImage(spec: PodSpec, meta: Meta, snap: Snapshot): Result<PodSpec> {
    if IMAGE_SELECTION_ANNOTATION !in meta.annotations then Ok(spec)
    else if First(spec.containers, ContainerNamed(meta.name)) == |spec.containers| then
      Err("no container found matching the notebook name")
    else
      match ImagePass(spec.containers, 0, meta.name, SelectImage(meta.annotations, snap),
        meta.annotations[IMAGE_SELECTION_ANNOTATION])
      case Err(e) => Err(e)
      case Ok(cs) => Ok(spec.(containers := cs))
  }

  // ----- Trusted certificates ------------------------------------------------------

  const CERT_FILE := "/etc/pki/tls/custom-certs/ca-bundle.crt"
  const CERT_ENV_NAMES: seq<string> :=
    ["PIP_CERT", "REQUESTS_CA_BUNDLE", "SSL_CERT_FILE", "PIPELINES_SSL_SA_CERTS", "GIT_SSL_CAINFO",
      "KF_PIPELINES_SSL_SA_CERTS"]
  const TRUSTED_CA_MOUNT := VolumeMount(TRUSTED_CA_VOLUME, "/etc/pki/tls/custom-certs", true, "")
  const TRUSTED_CA := Volume(TRUSTED_CA_VOLUME, ConfigMapSource(TRUSTED_CA_BUNDLE, [], true, None))

  function CertContainer(c: Container, vars: seq<(string, string)>): Container {
    c.(env := InjectAll(c.env, vars), mounts := Upsert(c.mounts, MountNamed(TRUSTED_CA_VOLUME), TRUSTED_CA_MOUNT))
  }

  function InjectCert(spec: PodSpec, name: string, vars: seq<(string, string)>): PodSpec {
    spec.(volumes := Upsert(spec.volumes, VolumeNamed(TRUSTED_CA_VOLUME), TRUSTED_CA),
          containers := UpdateFirst(spec.containers, ContainerNamed(name), (c: Container) => CertContainer(c, vars)))
  }

  // ----- Runtime images and the Elyra secret -------------------------------------------

  const RUNTIME_MOUNT := VolumeMount(RUNTIME_VOLUME, "/opt/app-root/pipeline-runtimes/", false, "")
  const RUNTIME := Volume(RUNTIME_VOLUME, ConfigMapSource("pipeline-runtime-images", [], true, None))
  const ELYRA_MOUNT := VolumeMount(ELYRA_VOLUME, ELYRA_MOUNT_PATH, false, "")
  const ELYRA := Volume(ELYRA_VOLUME, SecretSource("ds-pipeline-config", true, None))

  /** A mount that keeps the Elyra secret from being mounted: same name or same path. */
  function ElyraTaken(): VolumeMount -> bool {
    (m: VolumeMount) => m.name == ELYRA_VOLUME || m.mountPath == ELYRA_MOUNT_PATH
  }

  /** Add a mount to every container that has nothing matching `p`. */
  function MountEverywhere(cs: seq<Container>, p: VolumeMount -> bool, m: VolumeMount): (r: seq<Container>)
    ensures |r| == |cs|
    ensures forall i :: 0 <= i < |cs| ==> r[i] == cs[i].(mounts := AppendIfAbsent(cs[i].mounts, p, m))
  {
    seq(|cs|, i requires 0 <= i < |cs| => cs[i].(mounts := AppendIfAbsent(cs[i].mounts, p, m)))
  }

  function MountRuntimeImages(spec: PodSpec, seen: Sighting): Result<PodSpec> {
    match seen
    case Unreadable => Err("runtime images ConfigMap cannot be read")
    case Absent => Ok(spec)
    case Usable => Ok(spec.(volumes := AppendIfAbsent(spec.volumes, VolumeNamed(RUNTIME_VOLUME), RUNTIME),
                            containers := MountEverywhere(spec.containers, MountNamed(RUNTIME_VOLUME), RUNTIME_MOUNT)))
  }

  function MountElyra(spec: PodSpec, seen: Sighting): Result<PodSpec> {
    match seen
    case Unreadable => Err("Elyra secret cannot be read")
    case Absent => Ok(spec)
    case Usable => Ok(spec.(volumes := AppendIfAbsent(spec.volumes, VolumeNamed(ELYRA_VOLUME), ELYRA),
                            containers := MountEverywhere(spec.containers, ElyraTaken(), ELYRA_MOUNT)))
  }

  // ----- Feast --------------------------------------------------------------------------

  const FEAST_MOUNT := VolumeMount(FEAST_VOLUME, "/opt/app-root/src/feast-config", true, "")

  function FeastSource(name: string): Volume {
    Volume(FEAST_VOLUME, ConfigMapSource(name + "-feast-config", [], false, None))
  }

  /** Is the Feast volume listed? */
  predicate FeastMounted(spec: PodSpec) {
    First(spec.volumes, VolumeNamed(FEAST_VOLUME)) < |spec.volumes|
  }

  function MountFeast(spec: PodSpec, name: string): PodSpec {
    spec.(volumes := Upsert(spec.volumes, VolumeNamed(FEAST_VOLUME), FeastSource(name)),
          containers := UpdateFirst(spec.containers, ContainerNamed(name),
            (c: Container) => c.(mounts := Upsert(c.mounts, MountNamed(FEAST_VOLUME), FEAST_MOUNT))))
  }

  function UnmountFeast(spec: PodSpec, name: string): PodSpec {
    spec.(volumes := RemoveFirst(spec.volumes, VolumeNamed(FEAST_VOLUME)),
          containers := UpdateFirst(spec.containers, ContainerNamed(name),
            (c: Container) => c.(mounts := RemoveFirst(c.mounts, MountNamed(FEAST_VOLUME)))))
  }

  function Feast(spec: PodSpec, meta: Meta): PodSpec {
    if FeastEnabled(meta.labels) then MountFeast(spec, meta.name)
    else if FeastMounted(spec) then UnmountFeast(spec, meta.name)
    else spec
  }

  // ----- MLflow --------------------------------------------------------------------------

  function TrackingUri(host: string, instance: string): string {
    var path := if instance != "" && instance != "mlflow" then "mlflow-" + instance else "mlflow";
    if HasPrefix(host, "https://") || HasPrefix(host, "http://") then host + "/" + path
    else "https://" + host + "/" + path
  }

  function MlflowEnv(env: seq<EnvVar>, instance: string, host: Option<string>): seq<EnvVar> {
    if instance == "" then
      RemoveFirst(RemoveFirst(RemoveFirst(env, EnvNamed(MLFLOW_K8S)), EnvNamed(MLFLOW_AUTH)), EnvNamed(MLFLOW_URI))
    else
      var flagged := SetFirst(SetFirst(env, MLFLOW_K8S, "true"), MLFLOW_AUTH, "kubernetes-namespaced");
      match host
      case None => RemoveFirst(flagged, EnvNamed(MLFLOW_URI))
      case Some(h) => SetFirst(flagged, MLFLOW_URI, TrackingUri(h, instance))
  }

  function Mlflow(spec: PodSpec, name: string, instance: string, host: Option<string>): PodSpec {
    spec.(containers := UpdateFirst(spec.containers, ContainerNamed(name),
            (c: Container) => c.(env := MlflowEnv(c.env, instance, host))))
  }

  // ----- kube-rbac-proxy sidecar -----------------------------------------------------------

  const BASE_ARGS: seq<string> := [
    "--secure-listen-address=0.0.0.0:8443",
    "--upstream=http://127.0.0.1:8888/",
    "--logtostderr=true",
    "--v=0",
    "--proxy-endpoints-port=8444",
    "--config-file=" + "/etc/kube-rbac-proxy/config-file.yaml",
    "--tls-cert-file=/etc/tls/private/tls.crt",
    "--tls-private-key-file=/etc/tls/private/tls.key",
    "--auth-header-fields-enabled=true",
    "--auth-header-user-field-name=" + "X-Auth-Request-User",
    "--auth-header-groups-field-name=" + "X-Auth-Request-Groups"]

  const DEFAULT_RESOURCES := Resources(0.1, 67108864.0, 0.1, 67108864.0)
  const RESOURCE_ANNOTATIONS: seq<string> :=
    [CPU_REQUEST_ANNOTATION, MEMORY_REQUEST_ANNOTATION, CPU_LIMIT_ANNOTATION, MEMORY_LIMIT_ANNOTATION]

  /** One resource annotation: absent or blank keeps the default. */
  function Quantity(annotations: map<string, string>, key: string, default: real,
                    parse: map<string, real>): Result<real>
  {
    var text := Lookup(annotations, key);
    if text == "" then Ok(default)
    else if TrimSpace(text) !in parse then Err("invalid value for annotation")
    else if parse[TrimSpace(text)] < 0.0 then Err("annotation value cannot be negative")
    else Ok(parse[TrimSpace(text)])
  }

  /** The sidecar's resources: never negative, and no request above its limit. */
  function SidecarResources(annotations: map<string, string>, parse: map<string, real>): (r: Result<Resources>)
    ensures r.Ok? ==>
      0.0 <= r.value.cpuRequest <= r.value.cpuLimit && 0.0 <= r.value.memoryRequest <= r.value.memoryLimit
  {
    var a := Quantity(annotations, CPU_REQUEST_ANNOTATION, DEFAULT_RESOURCES.cpuRequest, parse);
    var b := Quantity(annotations, MEMORY_REQUEST_ANNOTATION, DEFAULT_RESOURCES.memoryRequest, parse);
    var c := Quantity(annotations, CPU_LIMIT_ANNOTATION, DEFAULT_RESOURCES.cpuLimit, parse);
    var d := Quantity(annotations, MEMORY_LIMIT_ANNOTATION, DEFAULT_RESOURCES.memoryLimit, parse);
    if a.Err? || b.Err? || c.Err? || d.Err? then Err("invalid kube-rbac-proxy resource configuration")
    else if a.value > c.value then Err("CPU request cannot be greater than CPU limit")
    else if b.value > d.value then Err("memory request cannot be greater than memory limit")
    else Ok(Resources(a.value, b.value, c.value, d.value))
  }

  function ProxySidecar(image: string, tlsArgs: seq<string>, resources: Resources): Container {
    Container(PROXY_CONTAINER, image, BASE_ARGS + tlsArgs, [],
      [VolumeMount(PROXY_CONFIG_VOLUME, "/etc/kube-rbac-proxy", false, ""),
       VolumeMount(PROXY_TLS_VOLUME, "/etc/tls/private", false, "")],
      Some(Probe(1, "sidecar liveness")), Some(Probe(1, "sidecar readiness")), Some(resources), false, "sidecar")
  }

  function ProxyConfigVolume(name: string): Volume {
    Volume(PROXY_CONFIG_VOLUME, ConfigMapSource(name + "-kube-rbac-proxy-config", [], false, Some(420)))
  }

  function ProxyTlsVolume(name: string): Volume {
    Volume(PROXY_TLS_VOLUME, SecretSource(name + "-kube-rbac-proxy-tls", false, Some(420)))
  }

  function InjectSidecar(spec: PodSpec, name: string, sidecar: Container): PodSpec {
    spec.(containers := Upsert(spec.containers, ContainerNamed(PROXY_CONTAINER), sidecar),
          volumes := Upsert(Upsert(spec.volumes, VolumeNamed(PROXY_CONFIG_VOLUME), ProxyConfigVolume(name)),
                            VolumeNamed(PROXY_TLS_VOLUME), ProxyTlsVolume(name)),
          serviceAccountName := name)
  }

  /** The sidecar this snapshot and these annotations ask for. */
  function DesiredSidecar(annotations: map<string, string>, snap: Snapshot): Result<Container> {
    match snap.tlsArgs
    case Err(e) => Err(e)
    case Ok(tlsArgs) =>
      match SidecarResources(annotations, snap.quantities)
      case Err(e) => Err(e)
      case Ok(resources) => Ok(ProxySidecar(snap.proxyImage, tlsArgs, resources))
  }

  function InjectProxy(spec: PodSpec, meta: Meta, snap: Snapshot): Result<PodSpec> {
    if !InjectionEnabled(meta.annotations) then Ok(spec)
    else match DesiredSidecar(meta.annotations, snap)
      case Err(e) => Err(e)
      case Ok(sidecar) => Ok(InjectSidecar(spec, meta.name, sidecar))
  }

  // ----- Probe timeout ---------------------------------------------------------------------

  function TimedProbe(p: Option<Probe>, t: int): Option<Probe> {
    match p case None => None case Some(probe) => Some(probe.(timeoutSeconds := t))
  }

  function WithTimeout(c: Container, t: int): Container {
    c.(liveness := TimedProbe(c.liveness, t), readiness := TimedProbe(c.readiness, t))
  }

  function ApplyTimeout(spec: PodSpec, container: string, t: int): PodSpec {
    spec.(containers := UpdateFirst(spec.containers, ContainerNamed(container), (c: Container) => WithTimeout(c, t)))
  }

  function ApplyTimeouts(spec: PodSpec, meta: Meta, configured: Result<Option<int>>): Result<PodSpec> {
    match configured
    case Err(e) => Err(e)
    case Ok(None) => Ok(spec)
    case Ok(Some(t)) =>
      var own := ApplyTimeout(spec, meta.name, t);
      Ok(if InjectionEnabled(meta.annotations) then ApplyTimeout(own, PROXY_CONTAINER, t) else own)
  }

  // ----- Cluster-wide proxy ------------------------------------------------------------------

  const PROXY_ENV_NAMES: seq<string> := ["HTTP_PROXY", "HTTPS_PROXY", "NO_PROXY"]

  function InjectClusterEnv(spec: PodSpec, name: string, vars: seq<(string, string)>): PodSpec {
    spec.(containers := UpdateFirst(spec.containers, ContainerNamed(name),
            (c: Container) => c.(env := InjectAll(c.env, vars))))
  }

  // ----- The whole pipeline -------------------------------------------------------------------

  /** The orders in which two Go maps are ranged over during one admission. */
  datatype Orders = Orders(cert: seq<(string, string)>, proxy: seq<(string, string)>)

  ghost predicate Enumerates(vars: seq<(string, string)>, names: seq<string>, value: string -> string) {
    && (forall i, j :: 0 <= i < j < |vars| ==> vars[i].0 != vars[j].0)
    && (forall i :: 0 <= i < |vars| ==> vars[i].0 in names && vars[i].1 == value(vars[i].0))
    && (forall n <- names :: exists i :: 0 <= i < |vars| && vars[i].0 == n)
  }

  function CertValue(): string -> string { (n: string) => CERT_FILE }

  function ProxyValue(p: ClusterProxy): string -> string {
    (n: string) => if n == "HTTP_PROXY" then p.http else if n == "HTTPS_PROXY" then p.https else p.noProxy
  }

  /** `o` is a possible pair of iteration orders under this snapshot. */
  ghost predicate Feasible(o: Orders, snap: Snapshot) {
    && Enumerates(o.cert, CERT_ENV_NAMES, CertValue())
    && (snap.clusterProxy.Some? ==> Enumerates(o.proxy, PROXY_ENV_NAMES, ProxyValue(snap.clusterProxy.value)))
  }

  function AfterCert(s: PodSpec, name: string, snap: Snapshot, o: Orders): PodSpec {
    if snap.caBundle then InjectCert(s, name, o.cert) else s
  }

  function AfterElyra(s: PodSpec, snap: Snapshot): Result<PodSpec> {
    match MountRuntimeImages(s, snap.runtimeImages)
    case Err(e) => Err(e)
    case Ok(s3) => if snap.elyra.None? then Ok(s3) else MountElyra(s3, snap.elyra.value)
  }

  function AfterMlflow(s: PodSpec, name: string, instance: string, snap: Snapshot): PodSpec {
    if snap.mlflow.None? then s else Mlflow(s, name, instance, snap.mlflow.value)
  }

  function AfterEnv(s: PodSpec, name: string, snap: Snapshot, o: Orders): PodSpec {
    if snap.clusterProxy.None? then s else InjectClusterEnv(s, name, o.proxy)
  }

  /** Everything before the sidecar is put in place. */
  function Early(spec: PodSpec, meta: Meta, snap: Snapshot, o: Orders): Result<PodSpec> {
    match SetImage(spec, meta, snap)
    case Err(e) => Err(e)
    case Ok(s1) =>
      match AfterElyra(AfterCert(s1, meta.name, snap, o), snap)
      case Err(e) => Err(e)
      case Ok(s4) => Ok(AfterMlflow(Feast(s4, meta), meta.name, MlflowInstance(meta.annotations), snap))
  }

  /** The sidecar and everything after it. */
  function Late(spec: PodSpec, meta: Meta, snap: Snapshot, o: Orders): Result<PodSpec> {
    match InjectProxy(spec, meta, snap)
    case Err(e) => Err(e)
    case Ok(s7) =>
      match ApplyTimeouts(s7, meta, snap.probeTimeout)
      case Err(e) => Err(e)
      case Ok(s8) => Ok(AfterEnv(s8, meta.name, snap, o))
  }

  function Mutate(spec: PodSpec, meta: Meta, snap: Snapshot, o: Orders): Result<PodSpec> {
    match Early(spec, meta, snap, o)
    case Err(e) => Err(e)
    case Ok(s6) => Late(s6, meta, snap, o)
  }
}
