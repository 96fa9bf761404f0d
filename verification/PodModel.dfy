/** Notebooks and their pod templates, reduced to the parts the webhooks and
    controllers read or write. Fields named `rest` stand for everything else. */
module PodModel {
  import opened Text

  datatype Option<+T> = None | Some(value: T)
  datatype Result<+T> = Ok(value: T) | Err(error: string)

  datatype EnvVar = EnvVar(name: string, value: string, valueFrom: Option<string>)
  datatype VolumeMount = VolumeMount(name: string, mountPath: string, readOnly: bool, subPath: string)
  datatype VolumeSource =
    | ConfigMapSource(name: string, items: seq<string>, optional: bool, mode: Option<int>)
    | SecretSource(name: string, optional: bool, mode: Option<int>)
    | HostPathSource(path: string)
    | OtherSource(text: string)
  datatype Volume = Volume(name: string, source: VolumeSource)
  datatype Probe = Probe(timeoutSeconds: int, rest: string)
  datatype Resources = Resources(cpuRequest: real, memoryRequest: real, cpuLimit: real, memoryLimit: real)
  datatype Container = Container(
    name: string, image: string, args: seq<string>, env: seq<EnvVar>, mounts: seq<VolumeMount>,
    liveness: Option<Probe>, readiness: Option<Probe>, resources: Option<Resources>, privileged: bool, rest: string)

  /** What the mutators leave alone. */
  datatype PodRest = PodRest(
    hostNetwork: bool, hostPID: bool, hostIPC: bool,
    initContainers: seq<Container>, ephemeralContainers: seq<Container>, text: string)
  datatype PodSpec = PodSpec(
    containers: seq<Container>, volumes: seq<Volume>, serviceAccountName: string, rest: PodRest)

  /** Object metadata. Absent annotations and an empty map are one thing. */
  datatype Meta = Meta(name: string, namespace: string, labels: map<string, string>, annotations: map<string, string>)

  /** A stored or submitted Notebook. */
  datatype Manifest = Manifest(meta: Meta, spec: PodSpec)

  // Annotations and labels
  const STOP_ANNOTATION := "kubeflow-resource-stopped"
  const LOCK_VALUE := "odh-notebook-controller-lock"
  const RESTART_ANNOTATION := "notebooks.opendatahub.io/notebook-restart"
  const PENDING_ANNOTATION := "notebooks.opendatahub.io/update-pending"
  const INJECT_AUTH_ANNOTATION := "notebooks.opendatahub.io/inject-auth"
  const IMAGE_SELECTION_ANNOTATION := "notebooks.opendatahub.io/last-image-selection"
  const IMAGE_NAMESPACE_ANNOTATION := "opendatahub.io/workbench-image-namespace"
  const MLFLOW_ANNOTATION := "opendatahub.io/mlflow-instance"
  const CPU_REQUEST_ANNOTATION := "notebooks.opendatahub.io/auth-sidecar-cpu-request"
  const MEMORY_REQUEST_ANNOTATION := "notebooks.opendatahub.io/auth-sidecar-memory-request"
  const CPU_LIMIT_ANNOTATION := "notebooks.opendatahub.io/auth-sidecar-cpu-limit"
  const MEMORY_LIMIT_ANNOTATION := "notebooks.opendatahub.io/auth-sidecar-memory-limit"
  const FEAST_LABEL := "opendatahub.io/feast-integration"

  // Containers, volumes and mounts
  const PROXY_CONTAINER := "kube-rbac-proxy"
  const PROXY_CONFIG_VOLUME := "kube-rbac-proxy-config"
  const PROXY_TLS_VOLUME := "kube-rbac-proxy-tls-certificates"
  const TRUSTED_CA_VOLUME := "trusted-ca"
  const TRUSTED_CA_BUNDLE := "workbench-trusted-ca-bundle"
  const RUNTIME_VOLUME := "runtime-images"
  const ELYRA_VOLUME := "elyra-dsp-details"
  const ELYRA_MOUNT_PATH := "/opt/app-root/runtimes"
  const FEAST_VOLUME := "odh-feast-config"

  // Environment variables
  const JUPYTER_IMAGE := "JUPYTER_IMAGE"
  const MLFLOW_K8S := "MLFLOW_K8S_INTEGRATION"
  const MLFLOW_AUTH := "MLFLOW_TRACKING_AUTH"
  const MLFLOW_URI := "MLFLOW_TRACKING_URI"

  /** The value of a map entry, or the empty string, as indexing a Go map yields. */
  function Lookup(m: map<string, string>, key: string): string {
    if key in m then m[key] else ""
  }

  function EnvNamed(n: string): EnvVar -> bool { (e: EnvVar) => e.name == n }
  function MountNamed(n: string): VolumeMount -> bool { (m: VolumeMount) => m.name == n }
  function VolumeNamed(n: string): Volume -> bool { (v: Volume) => v.name == n }
  function ContainerNamed(n: string): Container -> bool { (c: Container) => c.name == n }

  /** strconv.ParseBool, with a parse error read as false. */
  predicate ParseBool(s: string) {
    s in ["1", "t", "T", "TRUE", "true", "True"]
  }

  predicate InjectionEnabled(annotations: map<string, string>) {
    Lookup(annotations, INJECT_AUTH_ANNOTATION) != "" && ParseBool(Lookup(annotations, INJECT_AUTH_ANNOTATION))
  }

  function MlflowInstance(annotations: map<string, string>): string {
    TrimSpace(Lookup(annotations, MLFLOW_ANNOTATION))
  }

  predicate FeastEnabled(labels: map<string, string>) {
    Lookup(labels, FEAST_LABEL) == "true"
  }

  /** A stop or a restart request: the owner accepts that the pod goes away. */
  predicate StoppedOrRestarting(annotations: map<string, string>) {
    STOP_ANNOTATION in annotations || RESTART_ANNOTATION in annotations
  }
}
