/** What the validating webhook demands of a pod template, and why a mutation never breaks it. */
module PodSecurity {
  import opened Sequences
  import opened PodModel
  import opened Mutators
  import opened EnvPipeline
  import opened MountPipeline
  import opened Pipeline

  function OnHost(): Volume -> bool {
    (v: Volume) => v.source.HostPathSource?
  }

  predicate Unprivileged(cs: seq<Container>) {
    forall i :: 0 <= i < |cs| ==> !cs[i].privileged
  }

  /** No host namespaces, no host paths, nothing privileged, and the notebook's own service account. */
  predicate Secure(spec: PodSpec, name: string) {
    && !spec.rest.hostNetwork && !spec.rest.hostPID && !spec.rest.hostIPC
    && (spec.serviceAccountName == "" || spec.serviceAccountName == name)
    && First(spec.volumes, OnHost()) == |spec.volumes|
    && Unprivileged(spec.containers) && Unprivileged(spec.rest.initContainers)
    && Unprivileged(spec.rest.ephemeralContainers)
  }

  method ValidateContainers(cs: seq<Container>) returns (r: Result<()>)
    ensures r.Ok? <==> Unprivileged(cs)
  {
    for i := 0 to |cs|
      invariant Unprivileged(cs[..i])
    {
      if cs[i].privileged { return Err("privileged container is not allowed in notebook pod spec"); }
    }
    return Ok(());
  }

  method ValidatePodSpecSecurity(spec: PodSpec, name: string) returns (r: Result<()>)
    ensures r.Ok? <==> Secure(spec, name)
  {
    if spec.rest.hostNetwork { return Err("hostNetwork is not allowed in notebook pod spec"); }
    if spec.rest.hostPID { return Err("hostPID is not allowed in notebook pod spec"); }
    if spec.rest.hostIPC { return Err("hostIPC is not allowed in notebook pod spec"); }
    if spec.serviceAccountName != "" && spec.serviceAccountName != name {
      return Err("serviceAccountName is not allowed");
    }
    for i := 0 to |spec.volumes|
      invariant forall j :: 0 <= j < i ==> !OnHost()(spec.volumes[j])
    {
      if spec.volumes[i].source.HostPathSource? { return Err("hostPath volume is not allowed in notebook pod spec"); }
    }
    FirstIs(spec.volumes, OnHost(), |spec.volumes|);
    r := ValidateContainers(spec.containers);
    if r.Err? { return; }
    r := ValidateContainers(spec.rest.initContainers);
    if r.Err? { return; }
    r := ValidateContainers(spec.rest.ephemeralContainers);
  }

  // ----- Host paths and the volumes a mutation writes ----------------------------------------

  /** Every host path is in the first volume of one of `names`. */
  ghost predicate HostPathsWithin(vs: seq<Volume>, names: set<string>) {
    forall i :: 0 <= i < |vs| && OnHost()(vs[i]) ==> vs[i].name in names && i == First(vs, VolumeNamed(vs[i].name))
  }

  lemma {:induction false} NowhereOnHost(vs: seq<Volume>)
    ensures HostPathsWithin(vs, {}) <==> First(vs, OnHost()) == |vs|
  {
    if HostPathsWithin(vs, {}) { FirstIs(vs, OnHost(), |vs|); }
  }

  /** Elements with the same names are found at the same places. */
  lemma {:induction false} FirstSameNames(a: seq<Volume>, b: seq<Volume>, n: string)
    requires |a| <= |b| && forall i :: 0 <= i < |a| ==> a[i].name == b[i].name
    requires First(a, VolumeNamed(n)) < |a|
    ensures First(b, VolumeNamed(n)) == First(a, VolumeNamed(n))
  {
    FirstIs(b, VolumeNamed(n), First(a, VolumeNamed(n)));
  }

  lemma {:induction false} FirstOfItsName(vs: seq<Volume>, i: nat)
    requires i < |vs|
    ensures First(vs, VolumeNamed(vs[i].name)) <= i
  {}

  /** A volume put in place of the first of its name takes that one's host path away. */
  lemma {:induction false} UpsertWithin(vs: seq<Volume>, n: string, x: Volume, names: set<string>)
    requires x.name == n && !OnHost()(x) && n !in names
    ensures HostPathsWithin(Upsert(vs, VolumeNamed(n), x), names) <==> HostPathsWithin(vs, names + {n})
  {
    hide First;
    var t, k := Upsert(vs, VolumeNamed(n), x), First(vs, VolumeNamed(n));
    forall i | 0 <= i < |vs| ensures First(t, VolumeNamed(vs[i].name)) == First(vs, VolumeNamed(vs[i].name)) {
      FirstOfItsName(vs, i);
      FirstSameNames(vs, t, vs[i].name);
    }
    if HostPathsWithin(t, names) {
      forall i | 0 <= i < |vs| && OnHost()(vs[i])
        ensures vs[i].name in names + {n} && i == First(vs, VolumeNamed(vs[i].name))
      {
        if i != k { assert t[i] == vs[i]; }
      }
    }
    if HostPathsWithin(vs, names + {n}) {
      forall i | 0 <= i < |t| && OnHost()(t[i]) ensures t[i].name in names && i == First(t, VolumeNamed(t[i].name)) {
        assert i != k && i < |vs| && t[i] == vs[i];
      }
    }
  }

  lemma {:induction false} AppendWithin(vs: seq<Volume>, n: string, x: Volume, names: set<string>)
    requires x.name == n && !OnHost()(x)
    ensures HostPathsWithin(AppendIfAbsent(vs, VolumeNamed(n), x), names) <==> HostPathsWithin(vs, names)
  {
    hide First;
    var t := AppendIfAbsent(vs, VolumeNamed(n), x);
    forall i | 0 <= i < |vs| ensures First(t, VolumeNamed(vs[i].name)) == First(vs, VolumeNamed(vs[i].name)) {
      FirstOfItsName(vs, i);
      FirstSameNames(vs, t, vs[i].name);
    }
    assert forall i :: 0 <= i < |vs| ==> t[i] == vs[i];
  }

  /** Where an element is found once the one at `k` is cut out. */
  lemma {:induction false} FirstAfterCut(vs: seq<Volume>, k: nat, m: string)
    requires k < |vs| && vs[k].name != m && First(vs, VolumeNamed(m)) < |vs|
    ensures var j := First(vs, VolumeNamed(m));
      First(vs[..k] + vs[k+1..], VolumeNamed(m)) == if j < k then j else j - 1
  {
    var j := First(vs, VolumeNamed(m));
    FirstIs(vs[..k] + vs[k+1..], VolumeNamed(m), if j < k then j else j - 1);
  }

  lemma {:induction false} CutWithin(vs: seq<Volume>, n: string, names: set<string>)
    requires n !in names
    ensures HostPathsWithin(RemoveFirst(vs, VolumeNamed(n)), names) <==> HostPathsWithin(vs, names + {n})
  {
    hide First;
    var t, k := RemoveFirst(vs, VolumeNamed(n)), First(vs, VolumeNamed(n));
    if k == |vs| {
      assert forall i :: 0 <= i < |vs| ==> vs[i].name != n;
    } else {
      if HostPathsWithin(t, names) {
        forall i | 0 <= i < |vs| && OnHost()(vs[i])
          ensures vs[i].name in names + {n} && i == First(vs, VolumeNamed(vs[i].name))
        {
          FirstOfItsName(vs, i);
          if i != k {
            assert vs[i] == t[if i < k then i else i - 1];
            FirstAfterCut(vs, k, vs[i].name);
          }
        }
      }
      if HostPathsWithin(vs, names + {n}) {
        forall i | 0 <= i < |t| && OnHost()(t[i]) ensures t[i].name in names && i == First(t, VolumeNamed(t[i].name)) {
          var was := if i < k then i else i + 1;
          assert t[i] == vs[was];
          FirstAfterCut(vs, k, vs[was].name);
        }
      }
    }
  }

  /** The volumes a mutation puts in place of the first of their name, or cuts. */
  function Overwritten(act: FeastAct, inject: bool, snap: Snapshot): set<string> {
    (if snap.caBundle then {TRUSTED_CA_VOLUME} else {})
    + (if act.Leave? then {} else {FEAST_VOLUME})
    + (if inject then {PROXY_CONFIG_VOLUME, PROXY_TLS_VOLUME} else {})
  }

  lemma {:induction false} FeastWithin(vs: seq<Volume>, act: FeastAct, name: string, names: set<string>)
    requires FEAST_VOLUME !in names
    ensures HostPathsWithin(FeastVolumes(vs, act, name), names) <==>
      HostPathsWithin(vs, names + if act.Leave? then {} else {FEAST_VOLUME})
  {
    match act
    case Mount => UpsertWithin(vs, FEAST_VOLUME, FeastSource(name), names);
    case Unmount => CutWithin(vs, FEAST_VOLUME, names);
    case Leave => assert names + {} == names;
  }

  lemma {:induction false} SidecarWithin(vs: seq<Volume>, name: string, inject: bool)
    ensures HostPathsWithin(SidecarVolumes(vs, name, inject), {}) <==>
      HostPathsWithin(vs, if inject then {PROXY_CONFIG_VOLUME, PROXY_TLS_VOLUME} else {})
  {
    if inject {
      VolumeNamesApart();
      var config := Upsert(vs, VolumeNamed(PROXY_CONFIG_VOLUME), ProxyConfigVolume(name));
      UpsertWithin(config, PROXY_TLS_VOLUME, ProxyTlsVolume(name), {});
      assert {} + {PROXY_TLS_VOLUME} == {PROXY_TLS_VOLUME};
      UpsertWithin(vs, PROXY_CONFIG_VOLUME, ProxyConfigVolume(name), {PROXY_TLS_VOLUME});
      assert {PROXY_TLS_VOLUME} + {PROXY_CONFIG_VOLUME} == {PROXY_CONFIG_VOLUME, PROXY_TLS_VOLUME};
    }
  }

  lemma {:induction false} MountedWithin(vs: seq<Volume>, snap: Snapshot, names: set<string>)
    requires TRUSTED_CA_VOLUME !in names
    ensures HostPathsWithin(MountedVolumes(vs, snap), names) <==>
      HostPathsWithin(vs, names + if snap.caBundle then {TRUSTED_CA_VOLUME} else {})
  {
    var certs := CertVolumes(vs, snap);
    AppendWithin(RuntimeVolumes(certs, snap), ELYRA_VOLUME, ELYRA, names);
    AppendWithin(certs, RUNTIME_VOLUME, RUNTIME, names);
    if snap.caBundle { UpsertWithin(vs, TRUSTED_CA_VOLUME, TRUSTED_CA, names); } else { assert names + {} == names; }
  }

  /** No volume of the mutated template is a host path exactly when the host paths there were have
      been overwritten. */
  lemma {:induction false} VolumesOffHost(vs: seq<Volume>, act: FeastAct, name: string, inject: bool, snap: Snapshot)
    ensures First(AllVolumes(vs, act, name, inject, snap), OnHost()) == |AllVolumes(vs, act, name, inject, snap)| <==>
      HostPathsWithin(vs, Overwritten(act, inject, snap))
  {
    hide HostPathsWithin, SidecarVolumes, FeastVolumes, MountedVolumes;
    VolumeNamesApart();
    var mounted := MountedVolumes(vs, snap);
    var feast := FeastVolumes(mounted, act, name);
    var proxy := if inject then {PROXY_CONFIG_VOLUME, PROXY_TLS_VOLUME} else {};
    var both := proxy + if act.Leave? then {} else {FEAST_VOLUME};
    NowhereOnHost(SidecarVolumes(feast, name, inject));
    SidecarWithin(feast, name, inject);
    FeastWithin(mounted, act, name, proxy);
    MountedWithin(vs, snap, both);
    assert both + (if snap.caBundle then {TRUSTED_CA_VOLUME} else {}) == Overwritten(act, inject, snap);
  }

  // ----- What a mutation makes of a template's security ----------------------------------------

  /** Every shortcoming of the template is in something the mutation replaces or removes. */
  ghost predicate SecureOnceMutated(spec: PodSpec, meta: Meta, snap: Snapshot) {
    var inject := InjectionEnabled(meta.annotations);
    && !spec.rest.hostNetwork && !spec.rest.hostPID && !spec.rest.hostIPC
    && (inject || spec.serviceAccountName == "" || spec.serviceAccountName == meta.name)
    && HostPathsWithin(spec.volumes, Overwritten(FeastActOf(spec.volumes, FeastEnabled(meta.labels)), inject, snap))
    && (forall i :: 0 <= i < |spec.containers| && spec.containers[i].privileged ==>
      inject && i == First(spec.containers, ContainerNamed(PROXY_CONTAINER)))
    && Unprivileged(spec.rest.initContainers) && Unprivileged(spec.rest.ephemeralContainers)
  }

  lemma {:induction false} SidecarUnprivileged(meta: Meta, snap: Snapshot)
    requires Runnable(meta, snap)
    ensures Sidecar(meta, snap).Some? <==> InjectionEnabled(meta.annotations)
    ensures Sidecar(meta, snap).Some? ==> !Sidecar(meta, snap).value.privileged
  {}

  /** What a mutation makes of volumes, service account and privileges, whatever the notebook is called. */
  ghost predicate Outlined(s: PodSpec, t: PodSpec, name: string, act: FeastAct, sidecar: Option<Container>,
                           snap: Snapshot)
  {
    && t == s.(containers := t.containers, volumes := AllVolumes(s.volumes, act, name, sidecar.Some?, snap),
               serviceAccountName := if sidecar.Some? then name else s.serviceAccountName)
    && SamePrivileges(s.containers, t.containers, sidecar)
  }

  ghost predicate SamePrivileges(s: seq<Container>, t: seq<Container>, sidecar: Option<Container>) {
    var k := First(s, ContainerNamed(PROXY_CONTAINER));
    && |t| == (if sidecar.Some? && k == |s| then |s| + 1 else |s|)
    && (forall i :: 0 <= i < |s| && !(sidecar.Some? && i == k) ==> t[i].privileged == s[i].privileged)
    && (sidecar.Some? ==> t[k].privileged == sidecar.value.privileged)
  }

  ghost predicate Alike(a: seq<Container>, b: seq<Container>) {
    |a| == |b| && forall i :: 0 <= i < |a| ==> a[i].privileged == b[i].privileged
  }

  lemma {:induction false} TimeoutAlike(s: PodSpec, t: PodSpec, name: string, snap: Snapshot)
    requires TimeoutStage(s, t, name, snap)
    ensures Alike(s.containers, t.containers)
  {}

  lemma {:induction false} EnvAlike(s: PodSpec, t: PodSpec, name: string, snap: Snapshot, o: Orders)
    requires EnvStage(s, t, name, snap, o)
    ensures Alike(s.containers, t.containers)
  {
    hide ProxyStep;
  }

  lemma {:induction false} AlikePrivileges(s: seq<Container>, a: seq<Container>, b: seq<Container>,
                                           sidecar: Option<Container>)
    requires SamePrivileges(s, a, sidecar) && Alike(a, b)
    ensures SamePrivileges(s, b, sidecar)
  {
    hide First;
  }

  lemma {:induction false} ComposePrivileges(s6: PodSpec, s7: PodSpec, own: PodSpec, both: PodSpec, t: PodSpec,
                                             name: string, sidecar: Option<Container>, snap: Snapshot, o: Orders)
    requires SamePrivileges(s6.containers, s7.containers, sidecar)
    requires TimeoutStage(s7, own, name, snap) && EnvStage(both, t, name, snap, o)
    requires if sidecar.Some? then TimeoutStage(own, both, PROXY_CONTAINER, snap) else both == own
    ensures SamePrivileges(s6.containers, t.containers, sidecar)
  {
    hide SamePrivileges, TimeoutStage, EnvStage, Alike;
    TimeoutAlike(s7, own, name, snap);
    AlikePrivileges(s6.containers, s7.containers, own.containers, sidecar);
    if sidecar.Some? {
      TimeoutAlike(own, both, PROXY_CONTAINER, snap);
      AlikePrivileges(s6.containers, own.containers, both.containers, sidecar);
    }
    EnvAlike(both, t, name, snap, o);
    AlikePrivileges(s6.containers, both.containers, t.containers, sidecar);
  }

  lemma {:induction false} SidecarPrivileges(s: PodSpec, meta: Meta, snap: Snapshot)
    ensures SamePrivileges(s.containers, AfterSidecar(s, meta.name, Sidecar(meta, snap)).containers,
      Sidecar(meta, snap))
  {
    hide Sidecar, InjectSidecar, First;
    if Sidecar(meta, snap).Some? {
      SidecarNamed(meta, snap);
      SidecarStageHolds(s, meta.name, Sidecar(meta, snap).value);
    }
  }

  lemma {:induction false} LateOutlined(s6: PodSpec, meta: Meta, snap: Snapshot, o: Orders)
    requires Late(s6, meta, snap, o).Ok?
    ensures var t, sidecar := Late(s6, meta, snap, o).value, Sidecar(meta, snap);
      && t == s6.(containers := t.containers, volumes := SidecarVolumes(s6.volumes, meta.name, sidecar.Some?),
                  serviceAccountName := if sidecar.Some? then meta.name else s6.serviceAccountName)
      && SamePrivileges(s6.containers, t.containers, sidecar)
  {
    hide Late, Sidecar, SidecarVolumes, AfterTimeout, AfterEnv, First, ProxyStep, Timed, InjectSidecar, SamePrivileges;
    LateChain(s6, meta, snap, o);
    var sidecar := Sidecar(meta, snap);
    var s7 := AfterSidecar(s6, meta.name, sidecar);
    var own := AfterTimeout(s7, meta.name, snap);
    var both := if sidecar.Some? then AfterTimeout(own, PROXY_CONTAINER, snap) else own;
    if sidecar.Some? {
      SidecarNamed(meta, snap);
      SidecarStageHolds(s6, meta.name, sidecar.value);
    }
    NoSidecarVolumes(s6.volumes, meta.name);
    TimeoutStageHolds(s7, meta.name, snap);
    TimeoutStageHolds(own, PROXY_CONTAINER, snap);
    EnvStageHolds(both, meta.name, snap, o);
    SidecarPrivileges(s6, meta, snap);
    ComposePrivileges(s6, s7, own, both, Late(s6, meta, snap, o).value, meta.name, sidecar, snap, o);
  }

  lemma {:induction false} NoSidecarVolumes(vs: seq<Volume>, name: string)
    ensures SidecarVolumes(vs, name, false) == vs
  {}

  lemma {:induction false} SidecarNamed(meta: Meta, snap: Snapshot)
    requires Sidecar(meta, snap).Some?
    ensures Sidecar(meta, snap).value.name == PROXY_CONTAINER && !Sidecar(meta, snap).value.privileged
  {}

  lemma {:induction false} MutateOutlined(spec: PodSpec, meta: Meta, snap: Snapshot, o: Orders)
    requires Mutate(spec, meta, snap, o).Ok?
    ensures Outlined(spec, Mutate(spec, meta, snap, o).value, meta.name,
      FeastActOf(spec.volumes, FeastEnabled(meta.labels)), Sidecar(meta, snap), snap)
  {
    hide SetImage, Late, Early, Sidecar, FeastVolumes, MountedVolumes, SidecarVolumes, FeastActOf, MlflowStep, CertStep,
      OwnMounts, SharedMounts, MlflowInstance, FeastEnabled, First;
    MutateSucceeds(spec, meta, snap, o);
    EarlySucceeds(spec, meta, snap, o);
    var s1 := SetImage(spec, meta, snap).value;
    var s6 := Early(spec, meta, snap, o).value;
    SetImageFrame(spec, meta, snap);
    EarlyContainers(spec, s1, meta, snap, o);
    LateOutlined(s6, meta, snap, o);
    forall i | 0 <= i < |spec.containers|
      ensures spec.containers[i].name == s6.containers[i].name
      ensures spec.containers[i].privileged == s6.containers[i].privileged
    {
      assert Repainted(spec.containers[i], s1.containers[i]);
    }
    FirstByName(spec.containers, s6.containers, PROXY_CONTAINER);
  }

  lemma {:induction false} OutlinedUnprivileged(s: seq<Container>, t: seq<Container>, sidecar: Option<Container>)
    requires SamePrivileges(s, t, sidecar) && (sidecar.Some? ==> !sidecar.value.privileged)
    ensures Unprivileged(t) <==> forall i :: 0 <= i < |s| && s[i].privileged ==>
      sidecar.Some? && i == First(s, ContainerNamed(PROXY_CONTAINER))
  {
    assert forall i :: 0 <= i < |t| && t[i].privileged ==>
      i < |s| && !(sidecar.Some? && i == First(s, ContainerNamed(PROXY_CONTAINER)));
  }

  /** A mutated template passes the check if and only if the shortcomings it was submitted with are
      in what the mutation replaces; it never makes a template that passes one that does not. */
  lemma {:induction false} MutateSecure(spec: PodSpec, meta: Meta, snap: Snapshot, o: Orders, t: PodSpec)
    requires Mutate(spec, meta, snap, o) == Ok(t)
    ensures Secure(t, meta.name) <==> SecureOnceMutated(spec, meta, snap)
    ensures Secure(spec, meta.name) ==> Secure(t, meta.name)
  {
    hide Mutate, SetImage, Runnable, AllVolumes, Overwritten, InjectionEnabled, Sidecar, FeastActOf, HostPathsWithin,
      FeastEnabled, First, SamePrivileges;
    MutateSucceeds(spec, meta, snap, o);
    SidecarUnprivileged(meta, snap);
    MutateOutlined(spec, meta, snap, o);
    OutlinedUnprivileged(spec.containers, t.containers, Sidecar(meta, snap));
    var act := FeastActOf(spec.volumes, FeastEnabled(meta.labels));
    VolumesOffHost(spec.volumes, act, meta.name, InjectionEnabled(meta.annotations), snap);
    if Secure(spec, meta.name) {
      OffHostWithin(spec.volumes, Overwritten(act, InjectionEnabled(meta.annotations), snap));
    }
  }

  lemma {:induction false} OffHostWithin(vs: seq<Volume>, names: set<string>)
    requires First(vs, OnHost()) == |vs|
    ensures HostPathsWithin(vs, names)
  {}
}
