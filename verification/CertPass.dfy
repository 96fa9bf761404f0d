/** The controller's pass that takes the certificates out of a notebook once their ConfigMap is
    gone. It patches the pod template, and the patch goes through the webhooks like any update. */
module CertPass {
  import opened Sequences
  import opened PodModel
  import opened Mutators
  import opened MountPipeline
  import opened Pipeline
  import opened PodSecurity
  import opened Admission
  import opened CertUnset

  /** Some volume is the bundle's ConfigMap. */
  predicate BundleListed(spec: PodSpec) {
    First(spec.volumes, BundleVolume()) < |spec.volumes|
  }

  /** The merge patch from `read` to `unset`, on what is stored: a list is sent as a whole, if it differs. */
  function Patched(stored: PodSpec, read: PodSpec, unset: PodSpec): PodSpec {
    stored.(containers := if unset.containers == read.containers then stored.containers else unset.containers,
            volumes := if unset.volumes == read.volumes then stored.volumes else unset.volumes)
  }

  /** What one pass submits, from the template it has read; None: no patch, or a panic. `missing`
      says that reading the ConfigMap failed, for whatever reason. */
  function UnsetPatch(stored: Manifest, read: PodSpec, missing: bool): Option<Manifest> {
    if !missing || !BundleListed(read) then None
    else match Unset(read, stored.meta.name)
      case None => None
      case Some(unset) => Some(stored.(spec := Patched(stored.spec, read, unset)))
  }

  /** A pass patches exactly if its ConfigMap cannot be read, the template it has read mounts the bundle, and
      unsetting does not panic. Containers that unsetting leaves as they were read stay as they are stored,
      others are sent as a whole, and so are volumes; nothing else is. */
  lemma {:induction false} PatchesExactly(stored: Manifest, read: PodSpec, missing: bool)
    ensures UnsetPatch(stored, read, missing).Some? <==>
      missing && (exists v <- read.volumes :: IsBundle(v)) && Unset(read, stored.meta.name).Some?
    ensures UnsetPatch(stored, read, missing).Some? ==>
      var m, unset := UnsetPatch(stored, read, missing).value, Unset(read, stored.meta.name).value;
      && m.meta == stored.meta && m.spec.rest == stored.spec.rest
      && m.spec.serviceAccountName == stored.spec.serviceAccountName
      && (unset.containers == read.containers ==> m.spec.containers == stored.spec.containers)
      && (unset.containers != read.containers ==> m.spec.containers == unset.containers)
      && (unset.volumes == read.volumes ==> m.spec.volumes == stored.spec.volumes)
      && (unset.volumes != read.volumes ==> m.spec.volumes == unset.volumes)
  {
    var k := First(read.volumes, BundleVolume());
    if k < |read.volumes| { assert IsBundle(read.volumes[k]); }
    if v :| v in read.volumes && IsBundle(v) {
      var i :| 0 <= i < |read.volumes| && read.volumes[i] == v;
      assert BundleVolume()(read.volumes[i]);
    }
  }

  // ----- What unsetting does to a template -----------------------------------------------------

  lemma {:induction false} CutIsOld<T>(s: seq<T>, p: T -> bool, i: nat)
    requires i < |RemoveFirst(s, p)|
    ensures RemoveFirst(s, p)[i] in s
  {}

  /** Unsetting cuts one bundle volume, if there is one, changes nothing but that and the notebook's
      own variables and mounts, and leaves a secure template secure. */
  lemma {:induction false} UnsetFrame(spec: PodSpec, name: string, unset: PodSpec)
    requires Unset(spec, name) == Some(unset)
    ensures unset == spec.(containers := unset.containers, volumes := RemoveFirst(spec.volumes, BundleVolume()))
    ensures |unset.containers| == |spec.containers|
    ensures forall i :: 0 <= i < |spec.containers| ==>
      unset.containers[i] == spec.containers[i].(env := unset.containers[i].env, mounts := unset.containers[i].mounts)
    ensures BundleListed(spec) ==>
      |Sel(unset.volumes, BundleVolume())| < |Sel(spec.volumes, BundleVolume())| && unset.volumes != spec.volumes
    ensures Secure(spec, name) ==> Secure(unset, name)
  {
    RemoveSame(spec.volumes, BundleVolume());
    SelFirst(spec.volumes, BundleVolume());
    if Secure(spec, name) {
      forall i | 0 <= i < |unset.volumes| ensures !OnHost()(unset.volumes[i]) {
        CutIsOld(spec.volumes, BundleVolume(), i);
      }
      FirstIs(unset.volumes, OnHost(), |unset.volumes|);
    }
  }

  // ----- A mutation without the bundle brings no bundle volume ---------------------------------

  lemma {:induction false} UpsertNoMore<T>(s: seq<T>, p: T -> bool, x: T, q: T -> bool)
    requires !q(x)
    ensures |Sel(Upsert(s, p, x), q)| <= |Sel(s, q)|
  {
    var k := First(s, p);
    if k < |s| {
      SelSet(s, k, x, q);
      SelAround(s, k, q);
    } else {
      SelConcat(s, [x], q);
    }
  }

  lemma {:induction false} RemoveNoMore<T>(s: seq<T>, p: T -> bool, q: T -> bool)
    ensures |Sel(RemoveFirst(s, p), q)| <= |Sel(s, q)|
  {
    var k := First(s, p);
    if k < |s| {
      SelCut(s, k, q);
      SelAround(s, k, q);
    }
  }

  lemma {:induction false} OthersAreNoBundle(name: string)
    ensures !BundleVolume()(RUNTIME) && !BundleVolume()(ELYRA) && !BundleVolume()(FeastSource(name))
    ensures !BundleVolume()(ProxyConfigVolume(name)) && !BundleVolume()(ProxyTlsVolume(name))
  {
    var feast, proxy := name + "-feast-config", name + "-kube-rbac-proxy-config";
    assert |"pipeline-runtime-images"| == 23 && |TRUSTED_CA_BUNDLE| == 27 && TRUSTED_CA_BUNDLE[26] == 'e';
    assert |"-feast-config"| == 13 && |"-kube-rbac-proxy-config"| == 23;
    assert "-feast-config"[12] == 'g' && "-kube-rbac-proxy-config"[22] == 'g';
    assert feast[|feast| - 1] == 'g' && proxy[|proxy| - 1] == 'g';
  }

  lemma {:induction false} NoMoreBundles(vs: seq<Volume>, act: FeastAct, name: string, inject: bool, snap: Snapshot)
    requires !snap.caBundle
    ensures |Sel(AllVolumes(vs, act, name, inject, snap), BundleVolume())| <= |Sel(vs, BundleVolume())|
  {
    OthersAreNoBundle(name);
    var b := BundleVolume();
    var runtime := RuntimeVolumes(vs, snap);
    AppendOther(vs, VolumeNamed(RUNTIME_VOLUME), RUNTIME, b);
    AppendOther(runtime, VolumeNamed(ELYRA_VOLUME), ELYRA, b);
    var mounted := MountedVolumes(vs, snap);
    UpsertNoMore(mounted, VolumeNamed(FEAST_VOLUME), FeastSource(name), b);
    RemoveNoMore(mounted, VolumeNamed(FEAST_VOLUME), b);
    var feast := FeastVolumes(mounted, act, name);
    UpsertNoMore(feast, VolumeNamed(PROXY_CONFIG_VOLUME), ProxyConfigVolume(name), b);
    UpsertNoMore(Upsert(feast, VolumeNamed(PROXY_CONFIG_VOLUME), ProxyConfigVolume(name)),
      VolumeNamed(PROXY_TLS_VOLUME), ProxyTlsVolume(name), b);
  }

  lemma {:induction false} MutateNoMoreBundles(spec: PodSpec, meta: Meta, snap: Snapshot, o: Orders, t: PodSpec)
    requires !snap.caBundle && Mutate(spec, meta, snap, o) == Ok(t)
    ensures |Sel(t.volumes, BundleVolume())| <= |Sel(spec.volumes, BundleVolume())|
  {
    hide Mutate, AllVolumes, Sidecar, FeastActOf, Sel, SamePrivileges;
    MutateOutlined(spec, meta, snap, o);
    NoMoreBundles(spec.volumes, FeastActOf(spec.volumes, FeastEnabled(meta.labels)), meta.name,
      Sidecar(meta, snap).Some?, snap);
  }

  // ----- The pass on a running workbench -------------------------------------------------------------

  /** The pass has something to patch, and the webhook can carry the mutation out. */
  predicate Unsets(stored: Manifest, missing: bool, snap: Snapshot) {
    && missing && BundleListed(stored.spec) && Unset(stored.spec, stored.meta.name).Some?
    && SetImage(Unset(stored.spec, stored.meta.name).value, stored.meta, snap).Ok? && Runnable(stored.meta, snap)
  }

  /** The patch differs from what is stored, so the gate is open. */
  lemma {:induction false} UnsetIsEdit(stored: Manifest, missing: bool)
    requires UnsetPatch(stored, stored.spec, missing).Some?
    ensures var m := UnsetPatch(stored, stored.spec, missing).value;
      m.spec != stored.spec && m == stored.(spec := Unset(stored.spec, stored.meta.name).value)
  {
    UnsetFrame(stored.spec, stored.meta.name, Unset(stored.spec, stored.meta.name).value);
  }

  lemma {:induction false} OpenAndAllowed(stored: Manifest, m: Manifest, t: PodSpec, reason: string)
    requires m.meta == stored.meta && m.spec != stored.spec && Secure(t, stored.meta.name)
    ensures var r := Gate(Update(stored), m.meta, m.spec, Ok(t), reason);
      Validated(Update(stored), r) == r == Ok(Manifest(Unannotated(stored.meta, PENDING_ANNOTATION), t))
  {
    hide Secure, MlflowInstance;
    MarksChange(stored.meta, PENDING_ANNOTATION, "");
    SameFlags(stored.meta.annotations, Unannotated(stored.meta, PENDING_ANNOTATION).annotations);
  }

  /** A running or stopped workbench whose bundle ConfigMap cannot be read and is mounted: the patch is
      accepted and lets through everything the webhook makes of the template without certificates,
      also what had been held back, and the mark goes. */
  lemma {:induction false} UnsetReleases(stored: Manifest, missing: bool, snap: Snapshot, o: Orders, reason: string)
    requires Secure(stored.spec, stored.meta.name)
    requires Unsets(stored, missing, snap)
    ensures var u := Unset(stored.spec, stored.meta.name).value;
      && UnsetPatch(stored, stored.spec, missing) == Some(stored.(spec := u))
      && Mutate(u, stored.meta, snap, o).Ok?
      && Admit(Update(stored), stored.(spec := u), snap, o, reason)
      == Ok(Manifest(Unannotated(stored.meta, PENDING_ANNOTATION), Mutate(u, stored.meta, snap, o).value))
  {
    hide Mutate, SetImage, Runnable, Secure, SecureOnceMutated, BundleListed, Unset;
    var u := Unset(stored.spec, stored.meta.name).value;
    UnsetIsEdit(stored, missing);
    MutateSucceeds(u, stored.meta, snap, o);
    var t := Mutate(u, stored.meta, snap, o).value;
    UnsetFrame(stored.spec, stored.meta.name, u);
    MutateSecure(u, stored.meta, snap, o, t);
    OpenAndAllowed(stored, stored.(spec := u), t, reason);
  }
}
