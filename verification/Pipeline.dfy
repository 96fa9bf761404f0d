/** The mutation pipeline run on its own output. The pipeline is first taken apart into what it
    does to each single container; a second run is then the same container functions applied
    again, and the question becomes when they have settled. */
module Pipeline {
  import opened Text
  import opened Sequences
  import opened PodModel
  import opened Mutators
  import opened EnvPipeline
  import opened MountPipeline

  // ----- The pipeline, container by container ------------------------------------------

  function Timed(p: Option<Probe>, snap: Snapshot): Option<Probe> {
    if snap.probeTimeout.Ok? && snap.probeTimeout.value.Some? then TimedProbe(p, snap.probeTimeout.value.value) else p
  }

  /** What the steps after the image step make of one container of the submitted template. */
  function Grown(c: Container, own: bool, act: FeastAct, instance: string, snap: Snapshot, o: Orders): Container {
    if own then
      c.(env := OwnEnv(c.env, instance, snap, o), mounts := OwnMounts(c.mounts, act, snap),
         liveness := Timed(c.liveness, snap), readiness := Timed(c.readiness, snap))
    else
      c.(mounts := SharedMounts(c.mounts, snap))
  }

  function TimedSidecar(c: Container, snap: Snapshot): Container {
    c.(liveness := Timed(c.liveness, snap), readiness := Timed(c.readiness, snap))
  }

  /** Every step other than the image step can be carried out. */
  predicate Runnable(meta: Meta, snap: Snapshot) {
    && !snap.runtimeImages.Unreadable?
    && (snap.elyra.Some? ==> !snap.elyra.value.Unreadable?)
    && (InjectionEnabled(meta.annotations) ==> DesiredSidecar(meta.annotations, snap).Ok?)
    && snap.probeTimeout.Ok?
  }

  lemma {:induction false} EarlySucceeds(spec: PodSpec, meta: Meta, snap: Snapshot, o: Orders)
    ensures Early(spec, meta, snap, o).Ok? <==>
      SetImage(spec, meta, snap).Ok? && !snap.runtimeImages.Unreadable?
        && (snap.elyra.Some? ==> !snap.elyra.value.Unreadable?)
  {
    if SetImage(spec, meta, snap).Ok? {
      ElyraSucceeds(AfterCert(SetImage(spec, meta, snap).value, meta.name, snap, o), snap);
    }
  }

  lemma {:induction false} ElyraSucceeds(s: PodSpec, snap: Snapshot)
    ensures AfterElyra(s, snap).Ok? <==>
      !snap.runtimeImages.Unreadable? && (snap.elyra.Some? ==> !snap.elyra.value.Unreadable?)
  {}

  lemma {:induction false} LateSucceeds(s6: PodSpec, meta: Meta, snap: Snapshot, o: Orders)
    ensures Late(s6, meta, snap, o).Ok? <==>
      (InjectionEnabled(meta.annotations) ==> DesiredSidecar(meta.annotations, snap).Ok?) && snap.probeTimeout.Ok?
  {}

  lemma {:induction false} MutateSucceeds(spec: PodSpec, meta: Meta, snap: Snapshot, o: Orders)
    ensures Mutate(spec, meta, snap, o).Ok? <==> SetImage(spec, meta, snap).Ok? && Runnable(meta, snap)
  {
    EarlySucceeds(spec, meta, snap, o);
    if Early(spec, meta, snap, o).Ok? { LateSucceeds(Early(spec, meta, snap, o).value, meta, snap, o); }
  }

  ghost predicate SameNames(a: seq<Container>, b: seq<Container>) {
    |a| == |b| && forall i :: 0 <= i < |a| ==> a[i].name == b[i].name
  }

  lemma {:induction false} FirstByName(a: seq<Container>, b: seq<Container>, n: string)
    requires |a| <= |b| && forall i :: 0 <= i < |a| ==> a[i].name == b[i].name
    requires forall i :: |a| <= i < |b| ==> b[i].name != n
    ensures First(a, ContainerNamed(n)) < |a| ==> First(b, ContainerNamed(n)) == First(a, ContainerNamed(n))
    ensures First(a, ContainerNamed(n)) == |a| ==> First(b, ContainerNamed(n)) == |b|
  {
    var k := First(a, ContainerNamed(n));
    FirstIs(b, ContainerNamed(n), if k < |a| then k else |b|);
  }

  /** `t` is `s` after the steps between image and sidecar, container by container. */
  ghost predicate GrownFrom(s: seq<Container>, t: seq<Container>, own: nat, act: FeastAct, instance: string,
                            snap: Snapshot, o: Orders)
  {
    && |t| == |s|
    && forall i :: 0 <= i < |s| ==>
         t[i] == s[i].(env := if i == own then MlflowStep(CertStep(s[i].env, snap, o), instance, snap) else s[i].env,
                       mounts := if i == own then OwnMounts(s[i].mounts, act, snap)
                         else SharedMounts(s[i].mounts, snap))
  }

  // One predicate per step: what it makes of `s`, container by container.

  ghost predicate CertStage(s: PodSpec, t: PodSpec, name: string, snap: Snapshot, o: Orders) {
    && SameNames(s.containers, t.containers)
    && t == s.(containers := t.containers, volumes := CertVolumes(s.volumes, snap))
    && forall i :: 0 <= i < |s.containers| ==>
         t.containers[i] == if i == First(s.containers, ContainerNamed(name)) then
             s.containers[i].(env := CertStep(s.containers[i].env, snap, o),
               mounts := CertMounts(s.containers[i].mounts, snap))
           else s.containers[i]
  }

  ghost predicate MountStage(s: PodSpec, t: PodSpec, snap: Snapshot) {
    && SameNames(s.containers, t.containers)
    && t == s.(containers := t.containers, volumes := ElyraVolumes(RuntimeVolumes(s.volumes, snap), snap))
    && forall i :: 0 <= i < |s.containers| ==>
         t.containers[i] == s.containers[i].(mounts := SharedMounts(s.containers[i].mounts, snap))
  }

  ghost predicate FeastStage(s: PodSpec, t: PodSpec, name: string, act: FeastAct) {
    && SameNames(s.containers, t.containers)
    && t == s.(containers := t.containers, volumes := FeastVolumes(s.volumes, act, name))
    && forall i :: 0 <= i < |s.containers| ==>
         t.containers[i] == if i == First(s.containers, ContainerNamed(name)) then
             s.containers[i].(mounts := FeastMounts(s.containers[i].mounts, act))
           else s.containers[i]
  }

  ghost predicate MlflowStage(s: PodSpec, t: PodSpec, name: string, instance: string, snap: Snapshot) {
    && SameNames(s.containers, t.containers)
    && t == s.(containers := t.containers)
    && forall i :: 0 <= i < |s.containers| ==>
         t.containers[i] == if i == First(s.containers, ContainerNamed(name)) then
             s.containers[i].(env := MlflowStep(s.containers[i].env, instance, snap))
           else s.containers[i]
  }

  lemma {:induction false} CertStageHolds(s: PodSpec, name: string, snap: Snapshot, o: Orders)
    ensures CertStage(s, AfterCert(s, name, snap, o), name, snap, o)
  {}

  lemma {:induction false} MountStageHolds(s: PodSpec, snap: Snapshot)
    requires AfterElyra(s, snap).Ok?
    ensures MountStage(s, AfterElyra(s, snap).value, snap)
  {}

  lemma {:induction false} FeastStageHolds(s: PodSpec, meta: Meta)
    ensures FeastStage(s, Feast(s, meta), meta.name, FeastActOf(s.volumes, FeastEnabled(meta.labels)))
  {}

  lemma {:induction false} MlflowStageHolds(s: PodSpec, name: string, instance: string, snap: Snapshot)
    ensures MlflowStage(s, AfterMlflow(s, name, instance, snap), name, instance, snap)
  {}

  lemma {:induction false} FeastActLater(vs: seq<Volume>, enabled: bool, snap: Snapshot)
    ensures FeastActOf(MountedVolumes(vs, snap), enabled) == FeastActOf(vs, enabled)
  {
    VolumeNamesApart();
    MountedVolumesSel(vs, snap, FEAST_VOLUME);
    SelFirst(vs, VolumeNamed(FEAST_VOLUME));
    SelFirst(MountedVolumes(vs, snap), VolumeNamed(FEAST_VOLUME));
  }

  /** The steps chained. */
  lemma {:induction false} ComposeStages(s1: PodSpec, s2: PodSpec, s4: PodSpec, s5: PodSpec, s6: PodSpec,
                                         name: string, act: FeastAct, instance: string, snap: Snapshot, o: Orders)
    requires CertStage(s1, s2, name, snap, o) && MountStage(s2, s4, snap)
    requires FeastStage(s4, s5, name, act) && MlflowStage(s5, s6, name, instance, snap)
    ensures GrownFrom(s1.containers, s6.containers, First(s1.containers, ContainerNamed(name)), act, instance, snap, o)
    ensures s6 == s1.(containers := s6.containers, volumes := FeastVolumes(MountedVolumes(s1.volumes, snap), act, name))
    ensures s4.volumes == MountedVolumes(s1.volumes, snap)
  {
    FirstByName(s1.containers, s4.containers, name);
    FirstByName(s1.containers, s5.containers, name);
  }

  /** Early, as the chain of its steps. */
  lemma {:induction false} EarlyChain(spec: PodSpec, s1: PodSpec, meta: Meta, snap: Snapshot, o: Orders)
    requires SetImage(spec, meta, snap) == Ok(s1) && Early(spec, meta, snap, o).Ok?
    ensures AfterElyra(AfterCert(s1, meta.name, snap, o), snap).Ok?
    ensures Early(spec, meta, snap, o).value
         == AfterMlflow(Feast(AfterElyra(AfterCert(s1, meta.name, snap, o), snap).value, meta),
              meta.name, MlflowInstance(meta.annotations), snap)
  {}

  /** The steps between image and sidecar, seen at once. */
  ghost predicate EarlyResult(s1: PodSpec, t: PodSpec, name: string, act: FeastAct, instance: string, snap: Snapshot,
                              o: Orders)
  {
    && GrownFrom(s1.containers, t.containers, First(s1.containers, ContainerNamed(name)), act, instance, snap, o)
    && t == s1.(containers := t.containers, volumes := FeastVolumes(MountedVolumes(s1.volumes, snap), act, name))
  }

  lemma {:induction false} EarlyContainers(spec: PodSpec, s1: PodSpec, meta: Meta, snap: Snapshot, o: Orders)
    requires SetImage(spec, meta, snap) == Ok(s1) && Early(spec, meta, snap, o).Ok?
    ensures EarlyResult(s1, Early(spec, meta, snap, o).value, meta.name,
              FeastActOf(s1.volumes, FeastEnabled(meta.labels)), MlflowInstance(meta.annotations), snap, o)
  {
    EarlyChain(spec, s1, meta, snap, o);
    var s2 := AfterCert(s1, meta.name, snap, o);
    EarlyTail(s1, s2, AfterElyra(s2, snap).value, Early(spec, meta, snap, o).value, meta,
      MlflowInstance(meta.annotations), snap, o);
  }

  lemma {:induction false} EarlyTail(s1: PodSpec, s2: PodSpec, s4: PodSpec, t: PodSpec, meta: Meta, instance: string,
                                     snap: Snapshot, o: Orders)
    requires s2 == AfterCert(s1, meta.name, snap, o) && AfterElyra(s2, snap) == Ok(s4)
    requires t == AfterMlflow(Feast(s4, meta), meta.name, instance, snap)
    ensures EarlyResult(s1, t, meta.name, FeastActOf(s1.volumes, FeastEnabled(meta.labels)), instance, snap, o)
  {
    var act := FeastActOf(s1.volumes, FeastEnabled(meta.labels));
    CertStageHolds(s1, meta.name, snap, o);
    MountStageHolds(s2, snap);
    FeastActLater(s1.volumes, FeastEnabled(meta.labels), snap);
    FeastStageHolds(s4, meta);
    MlflowStageHolds(Feast(s4, meta), meta.name, instance, snap);
    assert s4.volumes == MountedVolumes(s1.volumes, snap);
    ComposeStages(s1, s2, s4, Feast(s4, meta), t, meta.name, act, instance, snap, o);
  }

  // ----- From the sidecar on ---------------------------------------------------------------

  /** The sidecar stands first among its namesakes, in place or appended. */
  ghost predicate SidecarStage(s: PodSpec, t: PodSpec, name: string, sidecar: Option<Container>) {
    var k := First(s.containers, ContainerNamed(PROXY_CONTAINER));
    && t == s.(containers := t.containers, volumes := SidecarVolumes(s.volumes, name, sidecar.Some?),
               serviceAccountName := if sidecar.Some? then name else s.serviceAccountName)
    && |t.containers| == (if sidecar.Some? && k == |s.containers| then |s.containers| + 1 else |s.containers|)
    && (forall i :: 0 <= i < |s.containers| && !(sidecar.Some? && i == k) ==> t.containers[i] == s.containers[i])
    && (sidecar.Some? ==> t.containers[k] == sidecar.value && sidecar.value.name == PROXY_CONTAINER)
  }

  lemma {:induction false} SidecarStageHolds(s: PodSpec, name: string, sidecar: Container)
    requires sidecar.name == PROXY_CONTAINER
    ensures SidecarStage(s, InjectSidecar(s, name, sidecar), name, Some(sidecar))
  {}

  ghost predicate TimeoutStage(s: PodSpec, t: PodSpec, name: string, snap: Snapshot) {
    && SameNames(s.containers, t.containers)
    && t == s.(containers := t.containers)
    && forall i :: 0 <= i < |s.containers| ==>
         t.containers[i] == if i == First(s.containers, ContainerNamed(name)) then TimedSidecar(s.containers[i], snap)
           else s.containers[i]
  }

  /** The timeout step for one container name. */
  function AfterTimeout(s: PodSpec, name: string, snap: Snapshot): PodSpec {
    if snap.probeTimeout.Ok? && snap.probeTimeout.value.Some?
      then ApplyTimeout(s, name, snap.probeTimeout.value.value) else s
  }

  lemma {:induction false} TimeoutStageHolds(s: PodSpec, name: string, snap: Snapshot)
    ensures TimeoutStage(s, AfterTimeout(s, name, snap), name, snap)
  {}

  ghost predicate EnvStage(s: PodSpec, t: PodSpec, name: string, snap: Snapshot, o: Orders) {
    && SameNames(s.containers, t.containers)
    && t == s.(containers := t.containers)
    && forall i :: 0 <= i < |s.containers| ==>
         t.containers[i] == if i == First(s.containers, ContainerNamed(name)) then
             s.containers[i].(env := ProxyStep(s.containers[i].env, snap, o))
           else s.containers[i]
  }

  lemma {:induction false} EnvStageHolds(s: PodSpec, name: string, snap: Snapshot, o: Orders)
    ensures EnvStage(s, AfterEnv(s, name, snap, o), name, snap, o)
  {}

  /** The sidecar an admission puts in place, if any. */
  function Sidecar(meta: Meta, snap: Snapshot): Option<Container> {
    if InjectionEnabled(meta.annotations) && DesiredSidecar(meta.annotations, snap).Ok?
      then Some(DesiredSidecar(meta.annotations, snap).value)
    else None
  }

  function AfterSidecar(s: PodSpec, name: string, sidecar: Option<Container>): PodSpec {
    match sidecar case None => s case Some(c) => InjectSidecar(s, name, c)
  }

  /** Late, as the chain of its steps. */
  lemma {:induction false} LateChain(s6: PodSpec, meta: Meta, snap: Snapshot, o: Orders)
    requires Late(s6, meta, snap, o).Ok?
    ensures InjectionEnabled(meta.annotations) <==> Sidecar(meta, snap).Some?
    ensures var s7 := AfterSidecar(s6, meta.name, Sidecar(meta, snap));
      var own := AfterTimeout(s7, meta.name, snap);
      var both := if Sidecar(meta, snap).Some? then AfterTimeout(own, PROXY_CONTAINER, snap) else own;
      Late(s6, meta, snap, o).value == AfterEnv(both, meta.name, snap, o)
  {}

  /** `t` is what the late steps make of `s`, with this sidecar. */
  ghost predicate LateContainersFrom(s: seq<Container>, t: seq<Container>, name: string, sidecar: Option<Container>,
                                     snap: Snapshot, o: Orders)
  {
    var own, k := First(s, ContainerNamed(name)), First(s, ContainerNamed(PROXY_CONTAINER));
    && |t| == (if sidecar.Some? && k == |s| then |s| + 1 else |s|)
    && (forall i :: 0 <= i < |s| && !(sidecar.Some? && i == k) ==>
          t[i] == if i == own then
              s[i].(env := ProxyStep(s[i].env, snap, o), liveness := Timed(s[i].liveness, snap),
                readiness := Timed(s[i].readiness, snap))
            else s[i])
    && (sidecar.Some? ==> t[k] == TimedSidecar(sidecar.value, snap) && t[k].name == PROXY_CONTAINER)
  }

  ghost predicate LateFrom(s: PodSpec, t: PodSpec, name: string, sidecar: Option<Container>, snap: Snapshot, o: Orders)
  {
    && t == s.(containers := t.containers, volumes := SidecarVolumes(s.volumes, name, sidecar.Some?),
               serviceAccountName := if sidecar.Some? then name else s.serviceAccountName)
    && LateContainersFrom(s.containers, t.containers, name, sidecar, snap, o)
  }

  /** The container lists between the late steps, each step seen from the one before. */
  ghost predicate SidecarPut(s6: seq<Container>, s7: seq<Container>, sidecar: Option<Container>) {
    var k := First(s6, ContainerNamed(PROXY_CONTAINER));
    && |s7| == (if sidecar.Some? && k == |s6| then |s6| + 1 else |s6|)
    && (forall i :: 0 <= i < |s6| && !(sidecar.Some? && i == k) ==> s7[i] == s6[i])
    && (sidecar.Some? ==> s7[k] == sidecar.value && sidecar.value.name == PROXY_CONTAINER)
  }

  ghost predicate TimedAt(a: seq<Container>, b: seq<Container>, at: nat, snap: Snapshot) {
    SameNames(a, b) && forall i :: 0 <= i < |a| ==> b[i] == if i == at then TimedSidecar(a[i], snap) else a[i]
  }

  ghost predicate ProxiedAt(a: seq<Container>, b: seq<Container>, at: nat, snap: Snapshot, o: Orders) {
    SameNames(a, b) && forall i :: 0 <= i < |a| ==> b[i] == if i == at then a[i].(env := ProxyStep(a[i].env, snap, o))
      else a[i]
  }

  lemma {:induction false} SidecarPutIndices(s6: seq<Container>, s7: seq<Container>, name: string,
                                             sidecar: Option<Container>)
    requires name != PROXY_CONTAINER && SidecarPut(s6, s7, sidecar)
    ensures var n := First(s6, ContainerNamed(name)); First(s7, ContainerNamed(name)) == if n < |s6| then n else |s7|
    ensures sidecar.Some? ==>
      First(s7, ContainerNamed(PROXY_CONTAINER)) == First(s6, ContainerNamed(PROXY_CONTAINER)) < |s7|
  {
    var k := First(s6, ContainerNamed(PROXY_CONTAINER));
    forall i | 0 <= i < |s6| ensures s7[i].name == s6[i].name {}
    FirstByName(s6, s7, name);
    if sidecar.Some? { FirstIs(s7, ContainerNamed(PROXY_CONTAINER), k); }
  }

  lemma {:induction false} ComposeLateContainers(
      s6: seq<Container>, s7: seq<Container>, own: seq<Container>, both: seq<Container>, t: seq<Container>,
      name: string, sidecar: Option<Container>, snap: Snapshot, o: Orders)
    requires name != PROXY_CONTAINER && SidecarPut(s6, s7, sidecar)
    requires TimedAt(s7, own, First(s7, ContainerNamed(name)), snap)
    requires if sidecar.None? then both == own
      else TimedAt(own, both, First(own, ContainerNamed(PROXY_CONTAINER)), snap)
    requires ProxiedAt(both, t, First(both, ContainerNamed(name)), snap, o)
    ensures LateContainersFrom(s6, t, name, sidecar, snap, o)
  {
    hide ProxyStep, Timed;
    var n, k := First(s7, ContainerNamed(name)), First(s7, ContainerNamed(PROXY_CONTAINER));
    SidecarPutIndices(s6, s7, name, sidecar);
    FirstByName(s7, own, PROXY_CONTAINER);
    FirstByName(s7, both, name);
    assert First(own, ContainerNamed(PROXY_CONTAINER)) == k && First(both, ContainerNamed(name)) == n;
    LateAt(s6, s7, own, both, t, n, k, name, sidecar, snap, o);
  }

  lemma {:induction false} LateAt(
      s6: seq<Container>, s7: seq<Container>, own: seq<Container>, both: seq<Container>, t: seq<Container>,
      n: nat, k: nat, name: string, sidecar: Option<Container>, snap: Snapshot, o: Orders)
    requires SidecarPut(s6, s7, sidecar) && TimedAt(s7, own, n, snap)
    requires if sidecar.None? then both == own else TimedAt(own, both, k, snap)
    requires ProxiedAt(both, t, n, snap, o)
    requires First(s6, ContainerNamed(name)) == n || (n == |s7| && First(s6, ContainerNamed(name)) == |s6|)
    requires sidecar.Some? ==> k == First(s6, ContainerNamed(PROXY_CONTAINER)) < |s7| && k != n
    ensures LateContainersFrom(s6, t, name, sidecar, snap, o)
  {
    hide ProxyStep, Timed, First;
  }

  lemma {:induction false} ComposeLate(s6: PodSpec, s7: PodSpec, own: PodSpec, both: PodSpec, t: PodSpec,
                                       name: string, sidecar: Option<Container>, snap: Snapshot, o: Orders)
    requires name != PROXY_CONTAINER
    requires SidecarStage(s6, s7, name, sidecar) && TimeoutStage(s7, own, name, snap)
    requires if sidecar.Some? then TimeoutStage(own, both, PROXY_CONTAINER, snap) else both == own
    requires EnvStage(both, t, name, snap, o)
    ensures LateFrom(s6, t, name, sidecar, snap, o)
  {
    hide ProxyStep, Timed, LateContainersFrom, SidecarVolumes;
    ComposeLateContainers(s6.containers, s7.containers, own.containers, both.containers, t.containers, name, sidecar,
      snap, o);
  }

  lemma {:induction false} LateContainers(s6: PodSpec, meta: Meta, snap: Snapshot, o: Orders)
    requires meta.name != PROXY_CONTAINER && Late(s6, meta, snap, o).Ok?
    ensures LateFrom(s6, Late(s6, meta, snap, o).value, meta.name, Sidecar(meta, snap), snap, o)
  {
    LateChain(s6, meta, snap, o);
    LateTail(s6, meta.name, Sidecar(meta, snap), snap, o);
  }

  lemma {:induction false} LateTail(s6: PodSpec, name: string, sidecar: Option<Container>, snap: Snapshot, o: Orders)
    requires name != PROXY_CONTAINER && (sidecar.Some? ==> sidecar.value.name == PROXY_CONTAINER)
    ensures var s7 := AfterSidecar(s6, name, sidecar);
      var own := AfterTimeout(s7, name, snap);
      var both := if sidecar.Some? then AfterTimeout(own, PROXY_CONTAINER, snap) else own;
      LateFrom(s6, AfterEnv(both, name, snap, o), name, sidecar, snap, o)
  {
    var s7 := AfterSidecar(s6, name, sidecar);
    var own := AfterTimeout(s7, name, snap);
    var both := if sidecar.Some? then AfterTimeout(own, PROXY_CONTAINER, snap) else own;
    if sidecar.Some? { SidecarStageHolds(s6, name, sidecar.value); }
    TimeoutStageHolds(s7, name, snap);
    TimeoutStageHolds(own, PROXY_CONTAINER, snap);
    EnvStageHolds(both, name, snap, o);
    ComposeLate(s6, s7, own, both, AfterEnv(both, name, snap, o), name, sidecar, snap, o);
  }

  // ----- All steps but the image step ----------------------------------------------------------

  /** The container part of `Finished`. */
  ghost predicate FinishedContainers(s: seq<Container>, t: seq<Container>, name: string, act: FeastAct,
                                     instance: string, sidecar: Option<Container>, snap: Snapshot, o: Orders)
  {
    var own, k := First(s, ContainerNamed(name)), First(s, ContainerNamed(PROXY_CONTAINER));
    && |t| == (if sidecar.Some? && k == |s| then |s| + 1 else |s|)
    && (forall i :: 0 <= i < |s| && !(sidecar.Some? && i == k) ==>
      t[i] == Grown(s[i], i == own, act, instance, snap, o))
    && (sidecar.Some? ==> t[k] == TimedSidecar(sidecar.value, snap) && t[k].name == PROXY_CONTAINER)
  }

  /** `t` is what an admission makes of the template `s`, whose image is already set. */
  ghost predicate Finished(s: PodSpec, t: PodSpec, name: string, act: FeastAct, instance: string,
                           sidecar: Option<Container>, snap: Snapshot, o: Orders) {
    && t == s.(containers := t.containers, volumes := AllVolumes(s.volumes, act, name, sidecar.Some?, snap),
               serviceAccountName := if sidecar.Some? then name else s.serviceAccountName)
    && FinishedContainers(s.containers, t.containers, name, act, instance, sidecar, snap, o)
  }

  lemma {:induction false} ComposeFinished(s: PodSpec, s6: PodSpec, t: PodSpec, name: string, act: FeastAct,
                                           instance: string, sidecar: Option<Container>, snap: Snapshot, o: Orders)
    requires EarlyResult(s, s6, name, act, instance, snap, o)
    requires LateFrom(s6, t, name, sidecar, snap, o)
    ensures Finished(s, t, name, act, instance, sidecar, snap, o)
  {
    ComposeFinishedContainers(s.containers, s6.containers, t.containers, name, act, instance, sidecar, snap, o);
  }

  lemma {:induction false} ComposeFinishedContainers(s: seq<Container>, s6: seq<Container>, t: seq<Container>,
                                                     name: string, act: FeastAct, instance: string,
                                                     sidecar: Option<Container>, snap: Snapshot, o: Orders)
    requires GrownFrom(s, s6, First(s, ContainerNamed(name)), act, instance, snap, o)
    requires LateContainersFrom(s6, t, name, sidecar, snap, o)
    ensures FinishedContainers(s, t, name, act, instance, sidecar, snap, o)
  {
    hide ProxyStep, MlflowStep, CertStep, OwnMounts, SharedMounts, Timed;
    FirstByName(s, s6, name);
    FirstByName(s, s6, PROXY_CONTAINER);
  }

  lemma {:induction false} MutateFinished(spec: PodSpec, s1: PodSpec, meta: Meta, snap: Snapshot, o: Orders)
    requires meta.name != PROXY_CONTAINER
    requires SetImage(spec, meta, snap) == Ok(s1) && Mutate(spec, meta, snap, o).Ok?
    ensures Finished(s1, Mutate(spec, meta, snap, o).value, meta.name,
      FeastActOf(s1.volumes, FeastEnabled(meta.labels)), MlflowInstance(meta.annotations), Sidecar(meta, snap),
      snap, o)
  {
    var s6 := Early(spec, meta, snap, o).value;
    EarlyContainers(spec, s1, meta, snap, o);
    LateContainers(s6, meta, snap, o);
    ComposeFinished(s1, s6, Late(s6, meta, snap, o).value, meta.name, FeastActOf(s1.volumes, FeastEnabled(meta.labels)),
      MlflowInstance(meta.annotations), Sidecar(meta, snap), snap, o);
  }

  // ----- The image step -----------------------------------------------------------------------

  /** One container before and after the image step: only image and env may differ, and of
      the env only what JUPYTER_IMAGE holds. */
  ghost predicate Repainted(a: Container, b: Container) {
    && b == a.(image := b.image, env := b.env)
    && forall n: string :: n != JUPYTER_IMAGE ==> Sel(b.env, EnvNamed(n)) == Sel(a.env, EnvNamed(n))
  }

  lemma {:induction false} WithImageFrame(cs: seq<Container>, i: nat, reference: string, selection: string)
    requires i < |cs|
    ensures var r := WithImage(cs, i, reference, selection);
      && (forall j :: 0 <= j < |cs| ==> Repainted(cs[j], r[j]))
      && (forall j :: 0 <= j < |cs| && j != i ==> r[j].env == cs[j].env)
      && (forall j :: 0 < j < |cs| ==> r[j].image == cs[j].image)
      && r[0].image == reference
      && (var s := Sel(r[i].env, EnvNamed(JUPYTER_IMAGE)); s == [] || s[0].value == selection)
  {
    forall n: string | n != JUPYTER_IMAGE
      ensures Sel(SetIfPresent(cs[i].env, JUPYTER_IMAGE, selection), EnvNamed(n)) == Sel(cs[i].env, EnvNamed(n))
    {
      SetIfPresentSel(cs[i].env, JUPYTER_IMAGE, selection, n);
    }
    SetIfPresentSel(cs[i].env, JUPYTER_IMAGE, selection, JUPYTER_IMAGE);
  }

  /** What the pass over the containers from `i` on leaves alone. */
  lemma {:induction false} ImagePassFrame(cs: seq<Container>, i: nat, name: string, outcome: ImageOutcome,
                                          selection: string)
    requires i <= |cs| && ImagePass(cs, i, name, outcome, selection).Ok?
    ensures var r := ImagePass(cs, i, name, outcome, selection).value;
      && |r| == |cs|
      && (forall j :: 0 <= j < |cs| ==> Repainted(cs[j], r[j]))
      && (forall j :: 0 <= j < i ==> r[j].env == cs[j].env)
      && (forall j :: 0 < j < |cs| ==> r[j].image == cs[j].image)
      && (cs != [] && outcome.Image? && cs[0].image == outcome.reference ==> r[0].image == outcome.reference)
      && (cs != [] && (i > 0 || !outcome.Image?) && r[0].image != cs[0].image ==>
        outcome.Image? && r[0].image == outcome.reference)
    decreases |cs| - i
  {
    if i < |cs| {
      if cs[i].name == name && !Contains(cs[i].image, INTERNAL_REGISTRY) && outcome.Image? {
        var next := WithImage(cs, i, outcome.reference, selection);
        WithImageFrame(cs, i, outcome.reference, selection);
        ImagePassFrame(next, i + 1, name, outcome, selection);
      } else if cs[i].name != name || (outcome.NotFound? && !Contains(cs[i].image, INTERNAL_REGISTRY)) {
        ImagePassFrame(cs, i + 1, name, outcome, selection);
      }
    }
  }

  /** `cur` is `t`, except perhaps for the image of the container at `hole`. */
  ghost predicate SameBut(cur: seq<Container>, t: seq<Container>, hole: nat) {
    && |cur| == |t|
    && (forall j :: 0 <= j < |t| && j != hole ==> cur[j] == t[j])
    && (hole < |t| ==> cur[hole] == t[hole].(image := cur[hole].image))
  }

  /** The containers of `t` carry the images of a finished pass, other than the sidecar at `hole`. */
  ghost predicate Painted(out: seq<Container>, t: seq<Container>, hole: nat, name: string) {
    && |out| <= |t| <= |out| + 1
    && (hole < |t| ==> t[hole].name != name)
    && (|out| < |t| ==> hole == |out|)
    && forall j :: 0 <= j < |out| && j != hole ==>
         t[j].name == out[j].name && t[j].image == out[j].image
         && Sel(t[j].env, EnvNamed(JUPYTER_IMAGE)) == Sel(out[j].env, EnvNamed(JUPYTER_IMAGE))
  }

  lemma {:induction false} ImagePassNames(cs: seq<Container>, i: nat, name: string, outcome: ImageOutcome,
                                          selection: string)
    requires i <= |cs| && ImagePass(cs, i, name, outcome, selection).Ok?
    ensures var r := ImagePass(cs, i, name, outcome, selection).value;
      |r| == |cs| && forall j :: 0 <= j < |cs| ==> r[j].name == cs[j].name
  {
    ImagePassFrame(cs, i, name, outcome, selection);
  }

  /** A hit at `i` shows in the finished pass. */
  lemma {:induction false} HitLeaves(cs: seq<Container>, i: nat, name: string, outcome: ImageOutcome, selection: string)
    requires i < |cs| && outcome.Image?
    requires ImagePass(WithImage(cs, i, outcome.reference, selection), i + 1, name, outcome, selection).Ok?
    ensures var next := WithImage(cs, i, outcome.reference, selection);
      var out := ImagePass(next, i + 1, name, outcome, selection).value;
      && |out| == |cs| && out[0].image == outcome.reference
      && (forall j :: 0 <= j < |cs| ==> next[j].name == cs[j].name && out[j].name == cs[j].name)
      && (var s := Sel(out[i].env, EnvNamed(JUPYTER_IMAGE)); s == [] || s[0].value == selection)
  {
    WithImageFrame(cs, i, outcome.reference, selection);
    ImagePassFrame(WithImage(cs, i, outcome.reference, selection), i + 1, name, outcome, selection);
  }

  lemma {:induction false} RepaintSame(cur: seq<Container>, t: seq<Container>, hole: nat, i: nat, reference: string,
                                       selection: string)
    requires SameBut(cur, t, hole) && i < |t| && i != hole
    requires hole != 0 ==> t[0].image == reference
    requires var s := Sel(t[i].env, EnvNamed(JUPYTER_IMAGE)); s == [] || s[0].value == selection
    ensures SameBut(WithImage(cur, i, reference, selection), t, hole)
  {
    SetIfPresentSel(cur[i].env, JUPYTER_IMAGE, selection, JUPYTER_IMAGE);
  }

  lemma {:induction false} PaintedAt(out: seq<Container>, t: seq<Container>, cur: seq<Container>, hole: nat,
                                     name: string, i: nat)
    requires Painted(out, t, hole, name) && SameBut(cur, t, hole)
    requires hole < |out| ==> out[hole].name != name
    ensures |cur| == |t| && |out| <= |t|
    ensures i < |out| ==> (cur[i].name == name <==> out[i].name == name) && (i != hole ==> cur[i].image == out[i].image)
    ensures |out| <= i < |t| ==> i + 1 == |t| && cur[i].name != name
  {}

  lemma {:induction false} RepaintHit(cs: seq<Container>, i: nat, t: seq<Container>, cur: seq<Container>, hole: nat,
                                      name: string, outcome: ImageOutcome, selection: string)
    requires i < |cs| && cs[i].name == name && outcome.Image?
    requires ImagePass(WithImage(cs, i, outcome.reference, selection), i + 1, name, outcome, selection).Ok?
    requires Painted(ImagePass(WithImage(cs, i, outcome.reference, selection), i + 1, name, outcome, selection).value,
      t, hole, name)
    requires SameBut(cur, t, hole)
    requires hole < |cs| ==> cs[hole].name != name
    ensures i < |cur| && SameBut(WithImage(cur, i, outcome.reference, selection), t, hole)
    ensures hole < |cs| ==> WithImage(cs, i, outcome.reference, selection)[hole].name != name
  {
    hide ImagePass;
    HitLeaves(cs, i, name, outcome, selection);
    RepaintSame(cur, t, hole, i, outcome.reference, selection);
  }

  /** Where one image pass succeeded, a second over its painted result succeeds and changes nothing
      but the sidecar's image. */
  lemma {:induction false} ImageAgain(cs: seq<Container>, i: nat, t: seq<Container>, cur: seq<Container>, hole: nat,
                                      name: string, outcome: ImageOutcome, selection: string)
    requires i <= |cs| && ImagePass(cs, i, name, outcome, selection).Ok?
    requires Painted(ImagePass(cs, i, name, outcome, selection).value, t, hole, name)
    requires SameBut(cur, t, hole)
    requires hole < |cs| ==> cs[hole].name != name
    ensures i <= |cur| && ImagePass(cur, i, name, outcome, selection).Ok?
    ensures SameBut(ImagePass(cur, i, name, outcome, selection).value, t, hole)
    decreases |cs| - i
  {
    hide Painted, SameBut, WithImage, Contains;
    ImagePassNames(cs, i, name, outcome, selection);
    PaintedAt(ImagePass(cs, i, name, outcome, selection).value, t, cur, hole, name, i);
    if i == |cs| {
      assert |cur| > i ==>
        ImagePass(cur, i, name, outcome, selection) == ImagePass(cur, i + 1, name, outcome, selection);
    } else if cs[i].name != name || (outcome.NotFound? && !Contains(cs[i].image, INTERNAL_REGISTRY)) {
      ImageAgain(cs, i + 1, t, cur, hole, name, outcome, selection);
    } else if Contains(cs[i].image, INTERNAL_REGISTRY) {
      assert cur[i].image == cs[i].image;
    } else {
      RepaintHit(cs, i, t, cur, hole, name, outcome, selection);
      ImageAgain(WithImage(cs, i, outcome.reference, selection), i + 1, t,
        WithImage(cur, i, outcome.reference, selection), hole, name, outcome, selection);
    }
  }

  /** A template the admission finished: its image step has nothing left to do. */
  lemma {:induction false} SetImageAgain(spec: PodSpec, s1: PodSpec, t: PodSpec, hole: nat, meta: Meta, snap: Snapshot)
    requires SetImage(spec, meta, snap) == Ok(s1)
    requires Painted(s1.containers, t.containers, hole, meta.name)
    requires hole < |s1.containers| ==> s1.containers[hole].name != meta.name
    ensures SetImage(t, meta, snap).Ok?
    ensures var t1 := SetImage(t, meta, snap).value;
      t1 == t.(containers := t1.containers) && SameBut(t1.containers, t.containers, hole)
  {
    if IMAGE_SELECTION_ANNOTATION in meta.annotations {
      var outcome, selection := SelectImage(meta.annotations, snap), meta.annotations[IMAGE_SELECTION_ANNOTATION];
      ImageStepAgain(spec.containers, s1.containers, t.containers, hole, meta.name, outcome, selection);
      var k := First(spec.containers, ContainerNamed(meta.name));
      assert t.containers[k].name == meta.name;
    }
  }

  lemma {:induction false} ImageStepAgain(cs: seq<Container>, out: seq<Container>, t: seq<Container>, hole: nat,
                                          name: string, outcome: ImageOutcome, selection: string)
    requires ImagePass(cs, 0, name, outcome, selection) == Ok(out) && Painted(out, t, hole, name)
    requires hole < |out| ==> out[hole].name != name
    ensures ImagePass(t, 0, name, outcome, selection).Ok?
    ensures SameBut(ImagePass(t, 0, name, outcome, selection).value, t, hole)
    ensures |out| == |cs| && forall j :: 0 <= j < |cs| ==> out[j].name == cs[j].name
  {
    ImagePassFrame(cs, 0, name, outcome, selection);
    ImageAgain(cs, 0, t, t, hole, name, outcome, selection);
  }

  lemma {:induction false} SetImageFrame(spec: PodSpec, meta: Meta, snap: Snapshot)
    requires SetImage(spec, meta, snap).Ok?
    ensures var s1 := SetImage(spec, meta, snap).value;
      && s1 == spec.(containers := s1.containers) && |s1.containers| == |spec.containers|
      && forall j :: 0 <= j < |spec.containers| ==> Repainted(spec.containers[j], s1.containers[j])
  {
    if IMAGE_SELECTION_ANNOTATION in meta.annotations {
      ImagePassFrame(spec.containers, 0, meta.name, SelectImage(meta.annotations, snap),
        meta.annotations[IMAGE_SELECTION_ANNOTATION]);
    }
  }

  // ----- Idempotence -----------------------------------------------------------------------------

  /** The templates on which one run of the webhook is final. Feast off: the Feast volume is listed
      at most once. In the notebook container: an MLflow variable due for removal occurs at most
      once, and the Feast step does not take away the one mount the Elyra step relied on. */
  predicate Regular(spec: PodSpec, meta: Meta, snap: Snapshot) {
    && VolumesRegular(spec.volumes, FeastEnabled(meta.labels))
    && var own := First(spec.containers, ContainerNamed(meta.name));
       own < |spec.containers| ==>
         && EnvRegular(spec.containers[own].env, MlflowInstance(meta.annotations), snap)
         && ElyraRegular(spec.containers[own].mounts, FeastActOf(spec.volumes, FeastEnabled(meta.labels)), snap)
  }

  /** The container functions, applied twice. */
  lemma {:induction false} GrownTwice(c: Container, own: bool, act: FeastAct, again: FeastAct, instance: string,
                                      snap: Snapshot, o: Orders, o': Orders)
    requires Feasible(o, snap) && Feasible(o', snap)
    requires (act.Mount? <==> again.Mount?) && !again.Unmount?
    ensures Grown(Grown(c, own, act, instance, snap, o), own, again, instance, snap, o')
      == Grown(c, own, act, instance, snap, o)
      <==> (own ==> EnvRegular(c.env, instance, snap) && ElyraRegular(c.mounts, act, snap))
  {
    hide OwnEnv, OwnMounts, SharedMounts, EnvRegular, ElyraRegular, Feasible;
    if own {
      OwnEnvTwice(c.env, instance, snap, o, o');
      OwnMountsTwice(c.mounts, act, again, snap);
    } else {
      SharedMountsTwice(c.mounts, snap);
    }
  }

  lemma {:induction false} FinishedPainted(s: PodSpec, t: PodSpec, name: string, act: FeastAct, instance: string,
                                           sidecar: Option<Container>, snap: Snapshot, o: Orders, hole: nat)
    requires name != PROXY_CONTAINER && Feasible(o, snap) && Finished(s, t, name, act, instance, sidecar, snap, o)
    requires hole == if sidecar.Some? then First(s.containers, ContainerNamed(PROXY_CONTAINER)) else |t.containers|
    ensures Painted(s.containers, t.containers, hole, name)
    ensures hole < |s.containers| ==> s.containers[hole].name != name
  {
    hide Grown, TimedSidecar, AllVolumes, Feasible, JUPYTER_IMAGE;
    var own := First(s.containers, ContainerNamed(name));
    forall j | 0 <= j < |s.containers| && j != hole
      ensures t.containers[j].name == s.containers[j].name && t.containers[j].image == s.containers[j].image
      ensures Sel(t.containers[j].env, EnvNamed(JUPYTER_IMAGE)) == Sel(s.containers[j].env, EnvNamed(JUPYTER_IMAGE))
    {
      GrownKeepsImage(s.containers[j], j == own, act, instance, snap, o);
    }
  }

  lemma {:induction false} GrownKeepsImage(c: Container, own: bool, act: FeastAct, instance: string, snap: Snapshot,
                                           o: Orders)
    requires Feasible(o, snap)
    ensures var g := Grown(c, own, act, instance, snap, o);
      g.name == c.name && g.image == c.image
        && Sel(g.env, EnvNamed(JUPYTER_IMAGE)) == Sel(c.env, EnvNamed(JUPYTER_IMAGE))
  {
    hide OwnEnv, OwnMounts, SharedMounts, Timed, Feasible;
    if own { OwnEnvKeepsImage(c.env, instance, snap, o); }
  }

  /** Both runs side by side: the second starts from the first's result. */
  lemma {:induction false} TwoRuns(s1: PodSpec, t: PodSpec, t1: PodSpec, t2: PodSpec, name: string, enabled: bool,
                                   instance: string, sidecar: Option<Container>, snap: Snapshot, o: Orders, o': Orders)
    requires name != PROXY_CONTAINER && Feasible(o, snap) && Feasible(o', snap)
    requires Finished(s1, t, name, FeastActOf(s1.volumes, enabled), instance, sidecar, snap, o)
    requires t1 == t.(containers := t1.containers)
    requires SameBut(t1.containers, t.containers,
               if sidecar.Some? then First(s1.containers, ContainerNamed(PROXY_CONTAINER)) else |t.containers|)
    requires Finished(t1, t2, name, FeastActOf(t1.volumes, enabled), instance, sidecar, snap, o')
    ensures var own := First(s1.containers, ContainerNamed(name));
      t2 == t <==>
        && VolumesRegular(s1.volumes, enabled)
        && (own < |s1.containers| ==>
              && EnvRegular(s1.containers[own].env, instance, snap)
              && ElyraRegular(s1.containers[own].mounts, FeastActOf(s1.volumes, enabled), snap))
  {
    AllVolumesTwice(s1.volumes, enabled, name, sidecar.Some?, snap);
    if VolumesRegular(s1.volumes, enabled) {
      FeastVolumesLeft(s1.volumes, enabled, name, sidecar.Some?, snap);
      SelFirst(t.volumes, VolumeNamed(FEAST_VOLUME));
      SecondRunContainers(s1.containers, t.containers, t1.containers, t2.containers, name,
        FeastActOf(s1.volumes, enabled), FeastActOf(t1.volumes, enabled), instance, sidecar, snap, o, o');
    }
  }

  lemma {:induction false} SecondRunContainers(
      s1: seq<Container>, t: seq<Container>, t1: seq<Container>, t2: seq<Container>, name: string,
      act: FeastAct, again: FeastAct, instance: string, sidecar: Option<Container>, snap: Snapshot, o: Orders,
        o': Orders)
    requires name != PROXY_CONTAINER && Feasible(o, snap) && Feasible(o', snap)
    requires (act.Mount? <==> again.Mount?) && !again.Unmount?
    requires FinishedContainers(s1, t, name, act, instance, sidecar, snap, o)
    requires SameBut(t1, t, if sidecar.Some? then First(s1, ContainerNamed(PROXY_CONTAINER)) else |t|)
    requires FinishedContainers(t1, t2, name, again, instance, sidecar, snap, o')
    ensures var own := First(s1, ContainerNamed(name));
      t2 == t <==> (own < |s1| ==> EnvRegular(s1[own].env, instance, snap) && ElyraRegular(s1[own].mounts, act, snap))
  {
    var own := First(s1, ContainerNamed(name));
    SecondRunIndices(s1, t, t1, name, act, instance, sidecar, snap, o);
    forall i | 0 <= i < |t| && i != own ensures t2[i] == t[i] {
      SecondRunAt(s1, t, t1, t2, name, act, again, instance, sidecar, snap, o, o', i);
    }
    if own < |t| { SecondRunAt(s1, t, t1, t2, name, act, again, instance, sidecar, snap, o, o', own); }
    SameExactly(s1, t, t2, own, own < |s1| ==>
      EnvRegular(s1[own].env, instance, snap) && ElyraRegular(s1[own].mounts, act, snap));
  }

  /** Both runs find the notebook container and the sidecar in the same places. */
  lemma {:induction false} SecondRunIndices(s1: seq<Container>, t: seq<Container>, t1: seq<Container>, name: string,
      act: FeastAct, instance: string, sidecar: Option<Container>, snap: Snapshot, o: Orders)
    requires name != PROXY_CONTAINER && FinishedContainers(s1, t, name, act, instance, sidecar, snap, o)
    requires SameBut(t1, t, if sidecar.Some? then First(s1, ContainerNamed(PROXY_CONTAINER)) else |t|)
    ensures var own := First(s1, ContainerNamed(name));
      && First(t1, ContainerNamed(name)) == (if own < |s1| then own else |t1|)
      && (own < |s1| && sidecar.Some? ==> own != First(s1, ContainerNamed(PROXY_CONTAINER)))
    ensures sidecar.Some? ==>
      First(t1, ContainerNamed(PROXY_CONTAINER)) == First(s1, ContainerNamed(PROXY_CONTAINER)) < |t1|
  {
    hide OwnEnv, OwnMounts, SharedMounts, Timed;
    var own, k := First(s1, ContainerNamed(name)), First(s1, ContainerNamed(PROXY_CONTAINER));
    assert forall i :: 0 <= i < |s1| ==> t1[i].name == s1[i].name;
    FirstIs(t1, ContainerNamed(name), if own < |s1| then own else |t1|);
    if sidecar.Some? { FirstIs(t1, ContainerNamed(PROXY_CONTAINER), k); }
  }

  lemma {:induction false} SecondRunAt(
      s1: seq<Container>, t: seq<Container>, t1: seq<Container>, t2: seq<Container>, name: string,
      act: FeastAct, again: FeastAct, instance: string, sidecar: Option<Container>, snap: Snapshot, o: Orders,
        o': Orders, i: nat)
    requires name != PROXY_CONTAINER && Feasible(o, snap) && Feasible(o', snap)
    requires (act.Mount? <==> again.Mount?) && !again.Unmount?
    requires FinishedContainers(s1, t, name, act, instance, sidecar, snap, o)
    requires SameBut(t1, t, if sidecar.Some? then First(s1, ContainerNamed(PROXY_CONTAINER)) else |t|)
    requires FinishedContainers(t1, t2, name, again, instance, sidecar, snap, o')
    requires i < |t|
    ensures |t2| == |t|
    ensures t2[i] == t[i] <==>
      (i == First(s1, ContainerNamed(name)) && i < |s1| ==>
        EnvRegular(s1[i].env, instance, snap) && ElyraRegular(s1[i].mounts, act, snap))
  {
    hide Feasible, EnvRegular, ElyraRegular, Timed;
    SecondRunIndices(s1, t, t1, name, act, instance, sidecar, snap, o);
    var own := First(s1, ContainerNamed(name));
    if i < |s1| && !(sidecar.Some? && i == First(s1, ContainerNamed(PROXY_CONTAINER))) {
      GrownTwice(s1[i], i == own, act, again, instance, snap, o, o');
    }
  }

  /** Lists that agree wherever `i != own`, and at `own` exactly when `fine` holds. */
  lemma {:induction false} SameExactly(s1: seq<Container>, t: seq<Container>, t2: seq<Container>, own: nat, fine: bool)
    requires |s1| <= |t| == |t2|
    requires forall i :: 0 <= i < |t| && i != own ==> t2[i] == t[i]
    requires own < |s1| ==> (t2[own] == t[own] <==> fine)
    requires own >= |s1| ==> fine && (own < |t| ==> t2[own] == t[own])
    ensures t2 == t <==> fine
  {}

  /** One run of the mutating webhook is final: for every template it accepts, every cluster
      snapshot and every pair of map iteration orders, a second run is accepted too, and
      returns the first run's template unchanged if and only if the template was regular. */
  lemma {:induction false} MutateTwice(spec: PodSpec, meta: Meta, snap: Snapshot, o: Orders, o': Orders)
    requires meta.name != PROXY_CONTAINER
    requires Feasible(o, snap) && Feasible(o', snap)
    requires Mutate(spec, meta, snap, o).Ok?
    ensures var once := Mutate(spec, meta, snap, o).value;
      && Mutate(once, meta, snap, o').Ok?
      && (Mutate(once, meta, snap, o') == Ok(once) <==> Regular(spec, meta, snap))
  {
    hide Mutate, SetImage, Finished, Painted, SameBut, VolumesRegular, EnvRegular, ElyraRegular, Feasible, Sidecar,
      MlflowInstance;
    MutateSucceeds(spec, meta, snap, o);
    var s1, t := SetImage(spec, meta, snap).value, Mutate(spec, meta, snap, o).value;
    var sidecar := Sidecar(meta, snap);
    var hole := if sidecar.Some? then First(s1.containers, ContainerNamed(PROXY_CONTAINER)) else |t.containers|;
    MutateFinished(spec, s1, meta, snap, o);
    FinishedPainted(s1, t, meta.name, FeastActOf(s1.volumes, FeastEnabled(meta.labels)),
      MlflowInstance(meta.annotations), sidecar, snap, o, hole);
    SetImageAgain(spec, s1, t, hole, meta, snap);
    var t1 := SetImage(t, meta, snap).value;
    MutateSucceeds(t, meta, snap, o');
    MutateFinished(t, t1, meta, snap, o');
    TwoRuns(s1, t, t1, Mutate(t, meta, snap, o').value, meta.name, FeastEnabled(meta.labels),
      MlflowInstance(meta.annotations), sidecar, snap, o, o');
    RegularAfterImage(spec, s1, meta, snap);
  }

  lemma {:induction false} RegularAfterImage(spec: PodSpec, s1: PodSpec, meta: Meta, snap: Snapshot)
    requires SetImage(spec, meta, snap) == Ok(s1)
    ensures Regular(s1, meta, snap) <==> Regular(spec, meta, snap)
  {
    SetImageFrame(spec, meta, snap);
    FirstByName(spec.containers, s1.containers, meta.name);
    EnvNamesApart(JUPYTER_IMAGE);
    var own := First(spec.containers, ContainerNamed(meta.name));
    if own < |spec.containers| {
      assert Repainted(spec.containers[own], s1.containers[own]);
      SettledCarries(s1.containers[own].env, spec.containers[own].env, MlflowInstance(meta.annotations), snap);
    }
  }
}
