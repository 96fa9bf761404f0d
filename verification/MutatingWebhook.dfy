/** The mutating webhook as it runs: loops over the lists of a notebook object, step after step,
    proved to compute what Mutators.dfy and Admission.dfy say. */
module MutatingWebhook {
  import opened Text
  import opened Sequences
  import opened PodModel
  import opened Mutators
  import opened NotebookObject
  import opened Admission

  // ----- Environment variables -----------------------------------------------------

  lemma {:induction false} InjectAllSnoc(env: seq<EnvVar>, vars: seq<(string, string)>, k: nat)
    requires k < |vars|
    ensures InjectAll(env, vars[..k + 1]) == SetAll(InjectAll(env, vars[..k]), vars[k].0, vars[k].1)
    decreases k
  {
    if k == 0 {
      assert vars[..1][1..] == [];
    } else {
      assert vars[..k + 1][1..] == vars[1..][..k] && vars[..k][1..] == vars[1..][..k - 1];
      InjectAllSnoc(SetAll(env, vars[0].0, vars[0].1), vars[1..], k - 1);
    }
  }

  /** Variables collected for later do not hide the ones already there. */
  lemma {:induction false} SetAllBefore(env: seq<EnvVar>, added: seq<EnvVar>, n: string, v: string)
    requires forall i :: 0 <= i < |added| ==> added[i].name != n
    ensures SetAll(env + added, n, v)
         == if First(env, EnvNamed(n)) < |env| then Revalue(env, n, v) + added else env + (added + [EnvVar(n, v, None)])
  {
    hide First, Revalue;
    var k, all := First(env, EnvNamed(n)), env + added;
    if k < |env| {
      FirstIs(all, EnvNamed(n), k);
      assert Revalue(all, n, v) == Revalue(env, n, v) + added;
    } else {
      FirstIs(all, EnvNamed(n), |all|);
      assert all + [EnvVar(n, v, None)] == env + (added + [EnvVar(n, v, None)]);
    }
  }

  /** Update the variables that are there, collect the others, append them at the end. */
  method InjectVars(before: seq<EnvVar>, vars: seq<(string, string)>) returns (env: seq<EnvVar>)
    requires forall i, j :: 0 <= i < j < |vars| ==> vars[i].0 != vars[j].0
    ensures env == InjectAll(before, vars)
  {
    hide First, Revalue, SetAll;
    env := before;
    var newVars: seq<EnvVar> := [];
    for k := 0 to |vars|
      invariant env + newVars == InjectAll(before, vars[..k])
      invariant forall i :: 0 <= i < |newVars| ==> exists j :: 0 <= j < k && vars[j].0 == newVars[i].name
    {
      var (key, val) := vars[k];
      ghost var start := env;
      var keyExists := false;
      for i := 0 to |env|
        invariant |env| == |start|
        invariant forall j :: 0 <= j < i ==> env[j] == if start[j].name == key then start[j].(value := val)
          else start[j]
        invariant forall j :: i <= j < |env| ==> env[j] == start[j]
        invariant keyExists <==> exists j :: 0 <= j < i && start[j].name == key
      {
        if key == env[i].name {
          keyExists := true;
          if env[i].value != val { env := env[i := env[i].(value := val)]; }
        }
      }
      assert env == Revalue(start, key, val);
      InjectAllSnoc(before, vars, k);
      SetAllBefore(start, newVars, key, val);
      if !keyExists {
        assert env == start;
        assert start + (newVars + [EnvVar(key, val, None)]) == env + (newVars + [EnvVar(key, val, None)]);
        newVars := newVars + [EnvVar(key, val, None)];
      }
    }
    assert vars[..|vars|] == vars;
    env := env + newVars;
  }

  /** Set one variable of a container: its first occurrence, or a new one. */
  method SetVar(env: seq<EnvVar>, n: string, v: string) returns (r: seq<EnvVar>)
    ensures r == SetFirst(env, n, v)
  {
    for j := 0 to |env|
      invariant forall i :: 0 <= i < j ==> env[i].name != n
    {
      if env[j].name == n {
        FirstIs(env, EnvNamed(n), j);
        return if env[j].value != v then env[j := env[j].(value := v)] else env;
      }
    }
    FirstIs(env, EnvNamed(n), |env|);
    return env + [EnvVar(n, v, None)];
  }

  // ----- Reconciliation lock ------------------------------------------------------------

  method InjectReconciliationLock(notebook: Notebook)
    modifies notebook`annotations
    ensures notebook.annotations == old(notebook.annotations)[STOP_ANNOTATION := LOCK_VALUE]
  {
    notebook.annotations := notebook.annotations[STOP_ANNOTATION := LOCK_VALUE];
  }

  // ----- Workbench image ------------------------------------------------------------------

  method PickTag(tags: seq<StreamTag>, tag: string) returns (r: ImageOutcome)
    ensures r == TagImage(tags, tag)
  {
    for k := 0 to |tags|
      invariant TagImage(tags, tag) == TagImage(tags[k..], tag)
    {
      if tags[k].tag == tag && |tags[k].items| > 0 {
        return Image(Newest(tags[k].items).imageReference);
      }
      assert tags[k..][1..] == tags[k + 1..];
    }
    return NotFound;
  }

  method ResolveImage(annotations: map<string, string>, snap: Snapshot) returns (r: ImageOutcome)
    ensures r == SelectImage(annotations, snap)
  {
    var imageSelected := Split(Lookup(annotations, IMAGE_SELECTION_ANNOTATION), ':');
    if |imageSelected| != 2 { return BadSelection; }
    var imageNamespace := Lookup(annotations, IMAGE_NAMESPACE_ANNOTATION);
    if TrimSpace(imageNamespace) == "" { imageNamespace := snap.controllerNamespace; }
    if (imageNamespace, imageSelected[0]) !in snap.imageStreams { return NotFound; }
    var stream := snap.imageStreams[(imageNamespace, imageSelected[0])];
    if stream.tags.None? { return NoTags; }
    r := PickTag(stream.tags.value, imageSelected[1]);
  }

  /** One hit: the image of container 0, and the selection in the environment of container `i`. */
  method PaintContainer(notebook: Notebook, i: nat, reference: string, selection: string)
    requires i < |notebook.containers|
    modifies notebook`containers
    ensures notebook.containers == WithImage(old(notebook.containers), i, reference, selection)
  {
    notebook.containers := notebook.containers[0 := notebook.containers[0].(image := reference)];
    var env := notebook.containers[i].env;
    var j := Find(env, EnvNamed(JUPYTER_IMAGE));
    if j < |env| { env := env[j := env[j].(value := selection)]; }
    notebook.containers := notebook.containers[i := notebook.containers[i].(env := env)];
  }

  /** The pass over the containers, each looked at as the writes before it left it. */
  method PassOverContainers(notebook: Notebook, outcome: ImageOutcome, selection: string)
    returns (r: Result<()>, containerFound: bool)
    modifies notebook`containers
    ensures var start := old(notebook.containers);
      && (r.Ok? <==> ImagePass(start, 0, notebook.name, outcome, selection).Ok?)
      && (r.Ok? ==> ImagePass(start, 0, notebook.name, outcome, selection) == Ok(notebook.containers))
      && (containerFound <==> First(start, ContainerNamed(notebook.name)) < |start|)
      && (!containerFound ==> r.Ok? && notebook.containers == start)
  {
    containerFound := false;
    ghost var start, name := notebook.containers, notebook.name;
    for i := 0 to |notebook.containers|
      invariant |notebook.containers| == |start|
      invariant ImagePass(start, 0, name, outcome, selection)
        == ImagePass(notebook.containers, i, name, outcome, selection)
      invariant containerFound <==> First(start, ContainerNamed(name)) < i
      invariant !containerFound ==> notebook.containers == start
      invariant forall j :: 0 <= j < |start| ==> notebook.containers[j].name == start[j].name
    {
      if notebook.containers[i].name == notebook.name {
        containerFound := true;
        assert ContainerNamed(name)(start[i]);
        if Contains(notebook.containers[i].image, INTERNAL_REGISTRY) { return Ok(()), true; }
        match outcome {
          case BadSelection => return Err("invalid image selection format"), true;
          case NoTags => return Err("ImageStream has no status or tags"), true;
          case NotFound =>
          case Image(reference) => PaintContainer(notebook, i, reference, selection);
        }
      }
    }
    return Ok(()), containerFound;
  }

  method SetContainerImageFromRegistry(notebook: Notebook, snap: Snapshot) returns (r: Result<()>)
    modifies notebook`containers
    ensures r.Ok? <==> SetImage(old(notebook.Spec()), notebook.Head(), snap).Ok?
    ensures r.Ok? ==> SetImage(old(notebook.Spec()), notebook.Head(), snap) == Ok(notebook.Spec())
  {
    if IMAGE_SELECTION_ANNOTATION !in notebook.annotations { return Ok(()); }
    var selection := notebook.annotations[IMAGE_SELECTION_ANNOTATION];
    var outcome := ResolveImage(notebook.annotations, snap);
    var containerFound;
    r, containerFound := PassOverContainers(notebook, outcome, selection);
    if !containerFound { r := Err("no container found matching the notebook name"); }
  }

  // ----- Trusted certificates ---------------------------------------------------------------

  method InjectCertConfig(notebook: Notebook, vars: seq<(string, string)>)
    requires forall i, j :: 0 <= i < j < |vars| ==> vars[i].0 != vars[j].0
    modifies notebook`containers, notebook`volumes
    ensures notebook.Spec() == InjectCert(old(notebook.Spec()), notebook.name, vars)
  {
    notebook.volumes := ReplaceOrAppend(notebook.volumes, VolumeNamed(TRUSTED_CA_VOLUME), TRUSTED_CA);
    var index := Find(notebook.containers, ContainerNamed(notebook.name));
    if index < |notebook.containers| {
      var imgContainer := notebook.containers[index];
      var env := InjectVars(imgContainer.env, vars);
      var mounts := ReplaceOrAppend(imgContainer.mounts, MountNamed(TRUSTED_CA_VOLUME), TRUSTED_CA_MOUNT);
      notebook.containers := notebook.containers[index := imgContainer.(env := env, mounts := mounts)];
    }
  }

  // ----- Runtime images and the Elyra secret ---------------------------------------------------

  method MountOnEveryContainer(notebook: Notebook, p: VolumeMount -> bool, mount: VolumeMount)
    modifies notebook`containers
    ensures notebook.containers == MountEverywhere(old(notebook.containers), p, mount)
  {
    ghost var start := notebook.containers;
    for i := 0 to |notebook.containers|
      invariant |notebook.containers| == |start|
      invariant forall j :: 0 <= j < i ==>
        notebook.containers[j] == start[j].(mounts := AppendIfAbsent(start[j].mounts, p, mount))
      invariant forall j :: i <= j < |start| ==> notebook.containers[j] == start[j]
    {
      var mounts := AppendUnlessPresent(notebook.containers[i].mounts, p, mount);
      notebook.containers := notebook.containers[i := notebook.containers[i].(mounts := mounts)];
    }
  }

  method MountPipelineRuntimeImages(notebook: Notebook, seen: Sighting) returns (r: Result<()>)
    modifies notebook`containers, notebook`volumes
    ensures r.Ok? <==> MountRuntimeImages(old(notebook.Spec()), seen).Ok?
    ensures r.Ok? ==> MountRuntimeImages(old(notebook.Spec()), seen) == Ok(notebook.Spec())
  {
    match seen {
      case Unreadable => return Err("runtime images ConfigMap cannot be read");
      case Absent =>
      case Usable =>
        notebook.volumes := AppendUnlessPresent(notebook.volumes, VolumeNamed(RUNTIME_VOLUME), RUNTIME);
        MountOnEveryContainer(notebook, MountNamed(RUNTIME_VOLUME), RUNTIME_MOUNT);
    }
    return Ok(());
  }

  method MountElyraRuntimeConfigSecret(notebook: Notebook, seen: Sighting) returns (r: Result<()>)
    modifies notebook`containers, notebook`volumes
    ensures r.Ok? <==> MountElyra(old(notebook.Spec()), seen).Ok?
    ensures r.Ok? ==> MountElyra(old(notebook.Spec()), seen) == Ok(notebook.Spec())
  {
    match seen {
      case Unreadable => return Err("Elyra secret cannot be read");
      case Absent =>
      case Usable =>
        notebook.volumes := AppendUnlessPresent(notebook.volumes, VolumeNamed(ELYRA_VOLUME), ELYRA);
        MountOnEveryContainer(notebook, ElyraTaken(), ELYRA_MOUNT);
    }
    return Ok(());
  }

  // ----- Feast ----------------------------------------------------------------------------------

  /** Mounting reports a missing notebook container after the volume is already listed. */
  method MountFeastConfig(notebook: Notebook) returns (found: bool)
    modifies notebook`containers, notebook`volumes
    ensures notebook.Spec() == MountFeast(old(notebook.Spec()), notebook.name)
    ensures found <==> First(old(notebook.containers), ContainerNamed(notebook.name)) < |old(notebook.containers)|
  {
    notebook.volumes := ReplaceOrAppend(notebook.volumes, VolumeNamed(FEAST_VOLUME), FeastSource(notebook.name));
    var i := Find(notebook.containers, ContainerNamed(notebook.name));
    found := i < |notebook.containers|;
    if found {
      var mounts := ReplaceOrAppend(notebook.containers[i].mounts, MountNamed(FEAST_VOLUME), FEAST_MOUNT);
      notebook.containers := notebook.containers[i := notebook.containers[i].(mounts := mounts)];
    }
  }

  method UnmountFeastConfig(notebook: Notebook)
    modifies notebook`containers, notebook`volumes
    ensures notebook.Spec() == UnmountFeast(old(notebook.Spec()), notebook.name)
  {
    notebook.volumes := CutFirst(notebook.volumes, VolumeNamed(FEAST_VOLUME));
    var i := Find(notebook.containers, ContainerNamed(notebook.name));
    if i < |notebook.containers| {
      var mounts := CutFirst(notebook.containers[i].mounts, MountNamed(FEAST_VOLUME));
      notebook.containers := notebook.containers[i := notebook.containers[i].(mounts := mounts)];
    }
  }

  method HandleFeast(notebook: Notebook)
    modifies notebook`containers, notebook`volumes
    ensures notebook.Spec() == Feast(old(notebook.Spec()), notebook.Head())
  {
    if FeastEnabled(notebook.labels) {
      var _ := MountFeastConfig(notebook);
    } else {
      var at := Find(notebook.volumes, VolumeNamed(FEAST_VOLUME));
      if at < |notebook.volumes| { UnmountFeastConfig(notebook); }
    }
  }

  // ----- MLflow -----------------------------------------------------------------------------------

  /** The spec with the environment of the notebook's own container rewritten. */
  function OnOwnEnv(spec: PodSpec, name: string, f: seq<EnvVar> -> seq<EnvVar>): PodSpec {
    spec.(containers := UpdateFirst(spec.containers, ContainerNamed(name), (c: Container) => c.(env := f(c.env))))
  }

  method SetNotebookContainerEnvVar(notebook: Notebook, n: string, v: string) returns (found: bool)
    modifies notebook`containers
    ensures notebook.Spec() == OnOwnEnv(old(notebook.Spec()), notebook.name, (env: seq<EnvVar>) => SetFirst(env, n, v))
    ensures found <==> First(old(notebook.containers), ContainerNamed(notebook.name)) < |old(notebook.containers)|
  {
    var i := Find(notebook.containers, ContainerNamed(notebook.name));
    found := i < |notebook.containers|;
    if found {
      var env := SetVar(notebook.containers[i].env, n, v);
      notebook.containers := notebook.containers[i := notebook.containers[i].(env := env)];
    }
  }

  method RemoveNotebookContainerEnvVar(notebook: Notebook, n: string)
    modifies notebook`containers
    ensures notebook.Spec() == OnOwnEnv(old(notebook.Spec()), notebook.name,
      (env: seq<EnvVar>) => RemoveFirst(env, EnvNamed(n)))
  {
    var i := Find(notebook.containers, ContainerNamed(notebook.name));
    if i < |notebook.containers| {
      var env := CutFirst(notebook.containers[i].env, EnvNamed(n));
      notebook.containers := notebook.containers[i := notebook.containers[i].(env := env)];
    }
  }

  lemma {:induction false} OwnEnvPair(s: PodSpec, name: string, f: seq<EnvVar> -> seq<EnvVar>,
                                      g: seq<EnvVar> -> seq<EnvVar>)
    ensures OnOwnEnv(OnOwnEnv(s, name, f), name, g) == OnOwnEnv(s, name, (env: seq<EnvVar>) => g(f(env)))
  {
    FirstIs(OnOwnEnv(s, name, f).containers, ContainerNamed(name), First(s.containers, ContainerNamed(name)));
  }

  /** Three rewrites of the own environment are one. */
  lemma {:induction false} OwnEnvChain(s: PodSpec, name: string, f: seq<EnvVar> -> seq<EnvVar>,
                                       g: seq<EnvVar> -> seq<EnvVar>, h: seq<EnvVar> -> seq<EnvVar>)
    ensures OnOwnEnv(OnOwnEnv(OnOwnEnv(s, name, f), name, g), name, h)
         == OnOwnEnv(s, name, (env: seq<EnvVar>) => h(g(f(env))))
  {
    var both := (env: seq<EnvVar>) => g(f(env));
    OwnEnvPair(s, name, f, g);
    OwnEnvPair(s, name, both, h);
    OwnEnvSame(s, name, (env: seq<EnvVar>) => h(both(env)), (env: seq<EnvVar>) => h(g(f(env))));
  }

  lemma {:induction false} OwnEnvSame(s: PodSpec, name: string, f: seq<EnvVar> -> seq<EnvVar>,
                                      g: seq<EnvVar> -> seq<EnvVar>)
    requires forall env :: f(env) == g(env)
    ensures OnOwnEnv(s, name, f) == OnOwnEnv(s, name, g)
  {}

  lemma {:induction false} MlflowIsOwnEnv(s: PodSpec, name: string, instance: string, host: Option<string>)
    ensures Mlflow(s, name, instance, host) == OnOwnEnv(s, name, (env: seq<EnvVar>) => MlflowEnv(env, instance, host))
  {}

  method CleanupMLflowEnvVars(notebook: Notebook, ghost host: Option<string>)
    modifies notebook`containers
    ensures notebook.Spec() == Mlflow(old(notebook.Spec()), notebook.name, "", host)
  {
    RemoveNotebookContainerEnvVar(notebook, MLFLOW_K8S);
    RemoveNotebookContainerEnvVar(notebook, MLFLOW_AUTH);
    RemoveNotebookContainerEnvVar(notebook, MLFLOW_URI);
    ghost var f := (env: seq<EnvVar>) => RemoveFirst(env, EnvNamed(MLFLOW_K8S));
    ghost var g := (env: seq<EnvVar>) => RemoveFirst(env, EnvNamed(MLFLOW_AUTH));
    ghost var h := (env: seq<EnvVar>) => RemoveFirst(env, EnvNamed(MLFLOW_URI));
    OwnEnvChain(old(notebook.Spec()), notebook.name, f, g, h);
    OwnEnvSame(old(notebook.Spec()), notebook.name, (env: seq<EnvVar>) => h(g(f(env))),
      (env: seq<EnvVar>) => MlflowEnv(env, "", host));
    MlflowIsOwnEnv(old(notebook.Spec()), notebook.name, "", host);
  }

  method HandleMLflowEnvVars(notebook: Notebook, host: Option<string>)
    modifies notebook`containers
    ensures notebook.Spec() == Mlflow(old(notebook.Spec()), notebook.name, MlflowInstance(notebook.annotations), host)
  {
    var instance := MlflowInstance(notebook.annotations);
    if instance == "" {
      CleanupMLflowEnvVars(notebook, host);
    } else {
      SetMLflowEnvVars(notebook, instance, host);
    }
  }

  method SetMLflowEnvVars(notebook: Notebook, instance: string, host: Option<string>)
    requires instance != ""
    modifies notebook`containers
    ensures notebook.Spec() == Mlflow(old(notebook.Spec()), notebook.name, instance, host)
  {
    ghost var s := notebook.Spec();
    ghost var f := (env: seq<EnvVar>) => SetFirst(env, MLFLOW_K8S, "true");
    ghost var g := (env: seq<EnvVar>) => SetFirst(env, MLFLOW_AUTH, "kubernetes-namespaced");
    MlflowIsOwnEnv(s, notebook.name, instance, host);
    var found := SetNotebookContainerEnvVar(notebook, MLFLOW_K8S, "true");
    if !found { return; }
    found := SetNotebookContainerEnvVar(notebook, MLFLOW_AUTH, "kubernetes-namespaced");
    if host.None? {
      RemoveNotebookContainerEnvVar(notebook, MLFLOW_URI);
      ghost var h := (env: seq<EnvVar>) => RemoveFirst(env, EnvNamed(MLFLOW_URI));
      OwnEnvChain(s, notebook.name, f, g, h);
      OwnEnvSame(s, notebook.name, (env: seq<EnvVar>) => h(g(f(env))),
        (env: seq<EnvVar>) => MlflowEnv(env, instance, host));
      return;
    }
    var uri := TrackingUri(host.value, instance);
    found := SetNotebookContainerEnvVar(notebook, MLFLOW_URI, uri);
    ghost var h := (env: seq<EnvVar>) => SetFirst(env, MLFLOW_URI, uri);
    OwnEnvChain(s, notebook.name, f, g, h);
    OwnEnvSame(s, notebook.name, (env: seq<EnvVar>) => h(g(f(env))),
      (env: seq<EnvVar>) => MlflowEnv(env, instance, host));
  }

  // ----- kube-rbac-proxy sidecar ----------------------------------------------------------------------

  /** A field of the sidecar's resources, addressed by the annotation that sets it. */
  function Field(r: Resources, key: string): real {
    if key == CPU_REQUEST_ANNOTATION then r.cpuRequest else if key == MEMORY_REQUEST_ANNOTATION then r.memoryRequest
    else if key == CPU_LIMIT_ANNOTATION then r.cpuLimit else r.memoryLimit
  }

  function WithField(r: Resources, key: string, v: real): Resources {
    if key == CPU_REQUEST_ANNOTATION then r.(cpuRequest := v)
      else if key == MEMORY_REQUEST_ANNOTATION then r.(memoryRequest := v)
    else if key == CPU_LIMIT_ANNOTATION then r.(cpuLimit := v) else r.(memoryLimit := v)
  }

  /** `order` is a range over the four resource annotations. */
  ghost predicate RangesOver(order: seq<string>) {
    && (forall i, j :: 0 <= i < j < |order| ==> order[i] != order[j])
    && (forall k :: k in order <==> k in RESOURCE_ANNOTATIONS)
  }

  lemma {:induction false} ResourceKeysApart()
    ensures CPU_REQUEST_ANNOTATION != MEMORY_REQUEST_ANNOTATION && CPU_REQUEST_ANNOTATION != CPU_LIMIT_ANNOTATION
    ensures CPU_REQUEST_ANNOTATION != MEMORY_LIMIT_ANNOTATION && MEMORY_REQUEST_ANNOTATION != CPU_LIMIT_ANNOTATION
    ensures MEMORY_REQUEST_ANNOTATION != MEMORY_LIMIT_ANNOTATION && CPU_LIMIT_ANNOTATION != MEMORY_LIMIT_ANNOTATION
  {
    assert |CPU_REQUEST_ANNOTATION| == 49 && |MEMORY_REQUEST_ANNOTATION| == 52;
    assert |CPU_LIMIT_ANNOTATION| == 47 && |MEMORY_LIMIT_ANNOTATION| == 50;
  }

  lemma {:induction false} FieldOf(r: Resources, key: string, v: real, other: string)
    requires key in RESOURCE_ANNOTATIONS && other in RESOURCE_ANNOTATIONS
    ensures Field(WithField(r, key, v), other) == if other == key then v else Field(r, other)
  {
    ResourceKeysApart();
  }

  lemma {:induction false} RangeCovers(order: seq<string>)
    requires RangesOver(order)
    ensures CPU_REQUEST_ANNOTATION in order && MEMORY_REQUEST_ANNOTATION in order && CPU_LIMIT_ANNOTATION in order
    ensures MEMORY_LIMIT_ANNOTATION in order
  {
    assert RESOURCE_ANNOTATIONS[0] == CPU_REQUEST_ANNOTATION && RESOURCE_ANNOTATIONS[1] == MEMORY_REQUEST_ANNOTATION;
    assert RESOURCE_ANNOTATIONS[2] == CPU_LIMIT_ANNOTATION && RESOURCE_ANNOTATIONS[3] == MEMORY_LIMIT_ANNOTATION;
  }

  /** The annotations before position `i` are parsed into their fields, the others untouched. */
  ghost predicate ParsedUpTo(annotations: map<string, string>, parse: map<string, real>, order: seq<string>, i: nat,
                             defaults: Resources, config: Resources) {
    && (forall j :: 0 <= j < i && j < |order| ==>
      Quantity(annotations, order[j], Field(defaults, order[j]), parse) == Ok(Field(config, order[j])))
    && (forall j :: i <= j < |order| ==> Field(config, order[j]) == Field(defaults, order[j]))
  }

  lemma {:induction false} ParseStep(annotations: map<string, string>, parse: map<string, real>, order: seq<string>,
                                     i: nat, defaults: Resources, config: Resources, v: real)
    requires RangesOver(order) && i < |order| && ParsedUpTo(annotations, parse, order, i, defaults, config)
    requires Quantity(annotations, order[i], Field(defaults, order[i]), parse) == Ok(v)
    ensures ParsedUpTo(annotations, parse, order, i + 1, defaults, WithField(config, order[i], v))
  {
    forall j | 0 <= j < |order|
      ensures Field(WithField(config, order[i], v), order[j]) == if j == i then v else Field(config, order[j]) {
      assert order[i] in order && order[j] in order;
      FieldOf(config, order[i], v, order[j]);
    }
  }

  /** Parsing in whatever order the map hands out the annotations, writing each value to its field. */
  method ParseAndValidateAuthSidecarResources(annotations: map<string, string>, parse: map<string, real>,
                                              order: seq<string>)
    returns (r: Result<Resources>)
    requires RangesOver(order)
    ensures r.Ok? <==> SidecarResources(annotations, parse).Ok?
    ensures r.Ok? ==> r == SidecarResources(annotations, parse)
  {
    var config := DEFAULT_RESOURCES;
    for i := 0 to |order|
      invariant ParsedUpTo(annotations, parse, order, i, DEFAULT_RESOURCES, config)
    {
      var parsed := Quantity(annotations, order[i], Field(config, order[i]), parse);
      if parsed.Err? {
        assert order[i] in order;
        Rejected(annotations, parse, order[i]);
        return Err("invalid value for annotation");
      }
      ParseStep(annotations, parse, order, i, DEFAULT_RESOURCES, config, parsed.value);
      config := WithField(config, order[i], parsed.value);
    }
    Collected(annotations, parse, order, config);
    if config.cpuRequest > config.cpuLimit { return Err("CPU request cannot be greater than CPU limit"); }
    if config.memoryRequest > config.memoryLimit { return Err("memory request cannot be greater than memory limit"); }
    return Ok(config);
  }

  lemma {:induction false} Rejected(annotations: map<string, string>, parse: map<string, real>, key: string)
    requires key in RESOURCE_ANNOTATIONS && Quantity(annotations, key, Field(DEFAULT_RESOURCES, key), parse).Err?
    ensures SidecarResources(annotations, parse).Err?
  {
    ResourceKeysApart();
  }

  lemma {:induction false} Collected(annotations: map<string, string>, parse: map<string, real>, order: seq<string>,
                                     config: Resources)
    requires RangesOver(order) && ParsedUpTo(annotations, parse, order, |order|, DEFAULT_RESOURCES, config)
    ensures SidecarResources(annotations, parse)
         == if config.cpuRequest > config.cpuLimit then Err("CPU request cannot be greater than CPU limit")
            else if config.memoryRequest > config.memoryLimit
              then Err("memory request cannot be greater than memory limit")
            else Ok(config)
  {
    RangeCovers(order);
    ResourceKeysApart();
  }

  method InjectKubeRbacProxy(notebook: Notebook, snap: Snapshot, order: seq<string>) returns (r: Result<()>)
    requires RangesOver(order)
    modifies notebook`containers, notebook`volumes, notebook`serviceAccountName
    ensures r.Ok? <==> DesiredSidecar(notebook.annotations, snap).Ok?
    ensures notebook.Spec()
         == if r.Ok? then InjectSidecar(old(notebook.Spec()), notebook.name,
           DesiredSidecar(notebook.annotations, snap).value) else old(notebook.Spec())
  {
    hide SidecarResources, ProxySidecar, RangesOver, ProxyConfigVolume, ProxyTlsVolume;
    if snap.tlsArgs.Err? { return Err("resolving kube-rbac-proxy TLS settings"); }
    var config := ParseAndValidateAuthSidecarResources(notebook.annotations, snap.quantities, order);
    if config.Err? { return Err("invalid kube-rbac-proxy resource configuration"); }
    var proxyContainer := ProxySidecar(snap.proxyImage, snap.tlsArgs.value, config.value);
    notebook.containers := ReplaceOrAppend(notebook.containers, ContainerNamed(PROXY_CONTAINER), proxyContainer);
    notebook.volumes := ReplaceOrAppend(notebook.volumes, VolumeNamed(PROXY_CONFIG_VOLUME),
      ProxyConfigVolume(notebook.name));
    notebook.volumes := ReplaceOrAppend(notebook.volumes, VolumeNamed(PROXY_TLS_VOLUME), ProxyTlsVolume(notebook.name));
    notebook.serviceAccountName := notebook.name;
    return Ok(());
  }

  // ----- Probe timeout and cluster-wide proxy ---------------------------------------------------------

  method ApplyProbeTimeout(notebook: Notebook, containerName: string, timeout: int)
    modifies notebook`containers
    ensures notebook.Spec() == ApplyTimeout(old(notebook.Spec()), containerName, timeout)
  {
    for i := 0 to |notebook.containers|
      invariant notebook.containers == old(notebook.containers)
      invariant forall j :: 0 <= j < i ==> notebook.containers[j].name != containerName
    {
      var container := notebook.containers[i];
      if container.name != containerName { continue; }
      FirstIs(notebook.containers, ContainerNamed(containerName), i);
      if container.liveness.Some? {
        container := container.(liveness := Some(container.liveness.value.(timeoutSeconds := timeout)));
      }
      if container.readiness.Some? {
        container := container.(readiness := Some(container.readiness.value.(timeoutSeconds := timeout)));
      }
      notebook.containers := notebook.containers[i := container];
      return;
    }
    FirstIs(notebook.containers, ContainerNamed(containerName), |notebook.containers|);
  }

  method InjectProxyConfigEnvVars(notebook: Notebook, vars: seq<(string, string)>)
    requires forall i, j :: 0 <= i < j < |vars| ==> vars[i].0 != vars[j].0
    modifies notebook`containers
    ensures notebook.Spec() == InjectClusterEnv(old(notebook.Spec()), notebook.name, vars)
  {
    var index := Find(notebook.containers, ContainerNamed(notebook.name));
    if index < |notebook.containers| {
      var imgContainer := notebook.containers[index];
      var env := InjectVars(imgContainer.env, vars);
      notebook.containers := notebook.containers[index := imgContainer.(env := env)];
    }
  }

  // ----- The handler -----------------------------------------------------------------------------------

  method HandleEarly(notebook: Notebook, snap: Snapshot, o: Orders) returns (r: Result<()>)
    requires Feasible(o, snap)
    modifies notebook`containers, notebook`volumes
    ensures r.Ok? <==> Early(old(notebook.Spec()), notebook.Head(), snap, o).Ok?
    ensures r.Ok? ==> Early(old(notebook.Spec()), notebook.Head(), snap, o) == Ok(notebook.Spec())
  {
    hide SetImage, InjectCert, MountRuntimeImages, MountElyra, Mlflow, MlflowInstance, Feast;
    r := SetContainerImageFromRegistry(notebook, snap);
    if r.Err? { return; }
    if snap.caBundle { InjectCertConfig(notebook, o.cert); }
    r := MountPipelineRuntimeImages(notebook, snap.runtimeImages);
    if r.Err? { return; }
    if snap.elyra.Some? {
      r := MountElyraRuntimeConfigSecret(notebook, snap.elyra.value);
      if r.Err? { return; }
    }
    HandleFeast(notebook);
    if snap.mlflow.Some? { HandleMLflowEnvVars(notebook, snap.mlflow.value); }
  }

  method HandleLate(notebook: Notebook, snap: Snapshot, o: Orders, order: seq<string>) returns (r: Result<()>)
    requires Feasible(o, snap) && RangesOver(order)
    modifies notebook`containers, notebook`volumes, notebook`serviceAccountName
    ensures r.Ok? <==> Late(old(notebook.Spec()), notebook.Head(), snap, o).Ok?
    ensures r.Ok? ==> Late(old(notebook.Spec()), notebook.Head(), snap, o) == Ok(notebook.Spec())
  {
    hide DesiredSidecar, InjectSidecar, ApplyTimeout, InjectClusterEnv, InjectionEnabled, RangesOver;
    if InjectionEnabled(notebook.annotations) {
      r := InjectKubeRbacProxy(notebook, snap, order);
      if r.Err? { return; }
    }
    if snap.probeTimeout.Err? { return Err("probe timeout cannot be read"); }
    if snap.probeTimeout.value.Some? {
      ApplyProbeTimeout(notebook, notebook.name, snap.probeTimeout.value.value);
      if InjectionEnabled(notebook.annotations) {
        ApplyProbeTimeout(notebook, PROXY_CONTAINER, snap.probeTimeout.value.value);
      }
    }
    if snap.clusterProxy.Some? { InjectProxyConfigEnvVars(notebook, o.proxy); }
    return Ok(());
  }

  /** Should the mutation wait for a restart? The submitted template comes back if it should. */
  method MaybeRestartRunningNotebook(op: Operation, notebook: Notebook, submitted: PodSpec) returns (pending: bool)
    modifies notebook`containers, notebook`volumes, notebook`serviceAccountName, notebook`rest
    ensures pending <==> HeldBack(op, notebook.Head(), submitted, old(notebook.Spec()))
    ensures notebook.Spec() == if pending then submitted else old(notebook.Spec())
  {
    if op.Create? { return false; }
    if STOP_ANNOTATION in notebook.annotations { return false; }
    if RESTART_ANNOTATION in notebook.annotations { return false; }
    if op.stored.spec != submitted { return false; }
    if op.stored.spec == notebook.Spec() { return false; }
    notebook.SetSpec(submitted);
    return true;
  }

  method MutateInPlace(notebook: Notebook, snap: Snapshot, o: Orders, order: seq<string>) returns (r: Result<()>)
    requires Feasible(o, snap) && RangesOver(order)
    modifies notebook`containers, notebook`volumes, notebook`serviceAccountName
    ensures r.Ok? <==> Mutate(old(notebook.Spec()), notebook.Head(), snap, o).Ok?
    ensures r.Ok? ==> Mutate(old(notebook.Spec()), notebook.Head(), snap, o) == Ok(notebook.Spec())
  {
    hide Early, Late, Feasible, RangesOver;
    ghost var start, meta := notebook.Spec(), notebook.Head();
    r := HandleEarly(notebook, snap, o);
    EarlyFirst(start, meta, snap, o);
    if r.Err? { return; }
    r := HandleLate(notebook, snap, o, order);
  }

  lemma {:induction false} EarlyFirst(spec: PodSpec, meta: Meta, snap: Snapshot, o: Orders)
    ensures Mutate(spec, meta, snap, o) == if Early(spec, meta, snap, o).Err? then Err(Early(spec, meta, snap, o).error)
                                           else Late(Early(spec, meta, snap, o).value, meta, snap, o)
  {}

  /** The gate on the mutated notebook. */
  method SettlePending(op: Operation, notebook: Notebook, submitted: PodSpec, reason: string)
    modifies notebook
    ensures Gate(op, old(notebook.Head()), submitted, Ok(old(notebook.Spec())), reason) == Ok(notebook.Value())
  {
    var pending := MaybeRestartRunningNotebook(op, notebook, submitted);
    if pending {
      notebook.annotations := notebook.annotations[PENDING_ANNOTATION := reason];
    } else {
      notebook.annotations := notebook.annotations - {PENDING_ANNOTATION};
    }
  }

  lemma {:induction false} GateOf(op: Operation, m: Manifest, meta: Meta, snap: Snapshot, o: Orders, reason: string,
                                  mutated: Result<PodSpec>)
    requires meta == Admitted(op, m.meta) && mutated == Mutate(m.spec, meta, snap, o)
    ensures Mutating(op, m, snap, o, reason) == Gate(op, meta, m.spec, mutated, reason)
  {}

  lemma {:induction false} GateErr(op: Operation, meta: Meta, submitted: PodSpec, mutated: Result<PodSpec>,
                                   reason: string)
    ensures Gate(op, meta, submitted, mutated, reason).Ok? <==> mutated.Ok?
  {}

  /** The handler: on success the decoded notebook has become what the admission model says. */
  method Handle(op: Operation, notebook: Notebook, snap: Snapshot, o: Orders, order: seq<string>, reason: string)
    returns (r: Result<Manifest>)
    requires Feasible(o, snap) && RangesOver(order)
    modifies notebook
    ensures r.Ok? <==> Mutating(op, old(notebook.Value()), snap, o, reason).Ok?
    ensures r.Ok? ==> Mutating(op, old(notebook.Value()), snap, o, reason) == r && notebook.Value() == r.value
  {
    hide Mutate, Mutating, Gate, Feasible, RangesOver;
    var submitted := notebook.Spec();
    ghost var m := notebook.Value();
    if op.Create? { InjectReconciliationLock(notebook); }
    ghost var meta := notebook.Head();
    ghost var mutated := Mutate(submitted, meta, snap, o);
    GateOf(op, m, meta, snap, o, reason, mutated);
    GateErr(op, meta, submitted, mutated, reason);
    var step := MutateInPlace(notebook, snap, o, order);
    if step.Err? { return Err("mutation failed"); }
    SettlePending(op, notebook, submitted, reason);
    return Ok(notebook.Value());
  }
}
