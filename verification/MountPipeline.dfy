/** The volume mounts of one container, and the volumes of the pod, across the mutation
    pipeline and across a second run of it. */
module MountPipeline {
  import opened Sequences
  import opened PodModel
  import opened Mutators

  /** What the Feast step will do: decided by the label and, failing that, by the volume list. */
  datatype FeastAct = Mount | Unmount | Leave

  function FeastActOf(volumes: seq<Volume>, enabled: bool): FeastAct {
    if enabled then Mount
    else if First(volumes, VolumeNamed(FEAST_VOLUME)) < |volumes| then Unmount
    else Leave
  }

  // ----- Mounts ---------------------------------------------------------------------

  function CertMounts(ms: seq<VolumeMount>, snap: Snapshot): seq<VolumeMount> {
    if snap.caBundle then Upsert(ms, MountNamed(TRUSTED_CA_VOLUME), TRUSTED_CA_MOUNT) else ms
  }

  function RuntimeMounts(ms: seq<VolumeMount>, snap: Snapshot): seq<VolumeMount> {
    if snap.runtimeImages.Usable? then AppendIfAbsent(ms, MountNamed(RUNTIME_VOLUME), RUNTIME_MOUNT) else ms
  }

  predicate ElyraOn(snap: Snapshot) {
    snap.elyra.Some? && snap.elyra.value.Usable?
  }

  function ElyraMounts(ms: seq<VolumeMount>, snap: Snapshot): seq<VolumeMount> {
    if ElyraOn(snap) then AppendIfAbsent(ms, ElyraTaken(), ELYRA_MOUNT) else ms
  }

  function FeastMounts(ms: seq<VolumeMount>, act: FeastAct): seq<VolumeMount> {
    match act
    case Mount => Upsert(ms, MountNamed(FEAST_VOLUME), FEAST_MOUNT)
    case Unmount => RemoveFirst(ms, MountNamed(FEAST_VOLUME))
    case Leave => ms
  }

  /** Mounts every container gets. */
  function SharedMounts(ms: seq<VolumeMount>, snap: Snapshot): seq<VolumeMount> {
    ElyraMounts(RuntimeMounts(ms, snap), snap)
  }

  /** Mounts of the notebook container. */
  function OwnMounts(ms: seq<VolumeMount>, act: FeastAct, snap: Snapshot): seq<VolumeMount> {
    FeastMounts(SharedMounts(CertMounts(ms, snap), snap), act)
  }

  /** The Feast step does not take away the only mount on account of which the Elyra
      step, just before it, added none. */
  predicate ElyraRegular(ms: seq<VolumeMount>, act: FeastAct, snap: Snapshot) {
    ElyraOn(snap) ==>
      var met := RuntimeMounts(CertMounts(ms, snap), snap);
      Sel(met, ElyraTaken()) == [] || Sel(FeastMounts(met, act), ElyraTaken()) != []
  }

  lemma {:induction false} MountNamesApart()
    ensures TRUSTED_CA_VOLUME != RUNTIME_VOLUME && TRUSTED_CA_VOLUME != ELYRA_VOLUME
    ensures TRUSTED_CA_VOLUME != FEAST_VOLUME
    ensures RUNTIME_VOLUME != ELYRA_VOLUME && RUNTIME_VOLUME != FEAST_VOLUME && ELYRA_VOLUME != FEAST_VOLUME
    ensures !ElyraTaken()(TRUSTED_CA_MOUNT) && !ElyraTaken()(RUNTIME_MOUNT) && !ElyraTaken()(FEAST_MOUNT)
  {
    assert |TRUSTED_CA_VOLUME| == 10 && |RUNTIME_VOLUME| == 14 && |ELYRA_VOLUME| == 17 && |FEAST_VOLUME| == 16;
    assert |ELYRA_MOUNT_PATH| == 22 && |TRUSTED_CA_MOUNT.mountPath| == 25;
    assert |RUNTIME_MOUNT.mountPath| == 32 && |FEAST_MOUNT.mountPath| == 30;
  }

  lemma {:induction false} FeastMountsSel(ms: seq<VolumeMount>, act: FeastAct, n: string)
    requires n != FEAST_VOLUME
    ensures Sel(FeastMounts(ms, act), MountNamed(n)) == Sel(ms, MountNamed(n))
  {
    UpsertOther(ms, MountNamed(FEAST_VOLUME), FEAST_MOUNT, MountNamed(n));
    RemoveOther(ms, MountNamed(FEAST_VOLUME), MountNamed(n));
  }

  lemma {:induction false} SharedMountsSel(ms: seq<VolumeMount>, snap: Snapshot, n: string)
    requires n != RUNTIME_VOLUME && n != ELYRA_VOLUME
    ensures Sel(SharedMounts(ms, snap), MountNamed(n)) == Sel(ms, MountNamed(n))
  {
    AppendOther(ms, MountNamed(RUNTIME_VOLUME), RUNTIME_MOUNT, MountNamed(n));
    AppendOther(RuntimeMounts(ms, snap), ElyraTaken(), ELYRA_MOUNT, MountNamed(n));
  }

  /** Once there, the runtime-images mount stays through the Elyra step. */
  lemma {:induction false} RuntimeThere(ms: seq<VolumeMount>, snap: Snapshot)
    requires snap.runtimeImages.Usable?
    ensures Sel(SharedMounts(ms, snap), MountNamed(RUNTIME_VOLUME)) != []
  {
    MountNamesApart();
    AppendSame(ms, MountNamed(RUNTIME_VOLUME), RUNTIME_MOUNT);
    AppendOther(RuntimeMounts(ms, snap), ElyraTaken(), ELYRA_MOUNT, MountNamed(RUNTIME_VOLUME));
  }

  lemma {:induction false} SharedMountsFixed(ms: seq<VolumeMount>, snap: Snapshot)
    requires snap.runtimeImages.Usable? ==> Sel(ms, MountNamed(RUNTIME_VOLUME)) != []
    ensures SharedMounts(ms, snap) == ms <==> (ElyraOn(snap) ==> Sel(ms, ElyraTaken()) != [])
  {
    SelFirst(ms, MountNamed(RUNTIME_VOLUME));
    SelFirst(ms, ElyraTaken());
  }

  lemma {:induction false} ElyraThere(ms: seq<VolumeMount>, snap: Snapshot)
    ensures ElyraOn(snap) ==>
      Sel(ElyraMounts(ms, snap), ElyraTaken()) == if Sel(ms, ElyraTaken()) == [] then [ELYRA_MOUNT]
      else Sel(ms, ElyraTaken())
  {
    AppendSame(ms, ElyraTaken(), ELYRA_MOUNT);
  }

  /** The mounts of a container other than the notebook's own settle in one pass. */
  lemma {:induction false} SharedMountsTwice(ms: seq<VolumeMount>, snap: Snapshot)
    ensures SharedMounts(SharedMounts(ms, snap), snap) == SharedMounts(ms, snap)
  {
    if snap.runtimeImages.Usable? { RuntimeThere(ms, snap); }
    ElyraThere(RuntimeMounts(ms, snap), snap);
    SharedMountsFixed(SharedMounts(ms, snap), snap);
  }

  /** Which Elyra mounts are left after the Feast step. */
  lemma {:induction false} ElyraAfterFeast(ms: seq<VolumeMount>, act: FeastAct, snap: Snapshot)
    requires ElyraOn(snap)
    ensures Sel(OwnMounts(ms, act, snap), ElyraTaken()) != [] <==> ElyraRegular(ms, act, snap)
  {
    MountNamesApart();
    var met := RuntimeMounts(CertMounts(ms, snap), snap);
    var q := ElyraTaken();
    ElyraThere(met, snap);
    SelFirst(met, q);
    if Sel(met, q) == [] {
      var all := met + [ELYRA_MOUNT];
      var k := First(all, MountNamed(FEAST_VOLUME));
      assert k < |all| ==> k < |met| && !q(met[k]);
      UpsertOther(all, MountNamed(FEAST_VOLUME), FEAST_MOUNT, q);
      RemoveOther(all, MountNamed(FEAST_VOLUME), q);
    }
  }

  lemma {:induction false} FeastMountFixed(ms: seq<VolumeMount>)
    ensures Upsert(Upsert(ms, MountNamed(FEAST_VOLUME), FEAST_MOUNT), MountNamed(FEAST_VOLUME), FEAST_MOUNT)
         == Upsert(ms, MountNamed(FEAST_VOLUME), FEAST_MOUNT)
  {
    UpsertSame(ms, MountNamed(FEAST_VOLUME), FEAST_MOUNT);
    UpsertFixed(Upsert(ms, MountNamed(FEAST_VOLUME), FEAST_MOUNT), MountNamed(FEAST_VOLUME), FEAST_MOUNT);
  }

  lemma {:induction false} CertMountsAgain(ms: seq<VolumeMount>, act: FeastAct, snap: Snapshot)
    ensures CertMounts(OwnMounts(ms, act, snap), snap) == OwnMounts(ms, act, snap)
  {
    if snap.caBundle {
      MountNamesApart();
      var m2 := CertMounts(ms, snap);
      UpsertSame(ms, MountNamed(TRUSTED_CA_VOLUME), TRUSTED_CA_MOUNT);
      SharedMountsSel(m2, snap, TRUSTED_CA_VOLUME);
      FeastMountsSel(SharedMounts(m2, snap), act, TRUSTED_CA_VOLUME);
      UpsertFixed(OwnMounts(ms, act, snap), MountNamed(TRUSTED_CA_VOLUME), TRUSTED_CA_MOUNT);
    }
  }

  lemma {:induction false} SharedMountsAgain(ms: seq<VolumeMount>, act: FeastAct, snap: Snapshot)
    ensures SharedMounts(OwnMounts(ms, act, snap), snap) == OwnMounts(ms, act, snap) <==> ElyraRegular(ms, act, snap)
  {
    MountNamesApart();
    var m2 := CertMounts(ms, snap);
    if snap.runtimeImages.Usable? {
      RuntimeThere(m2, snap);
      FeastMountsSel(SharedMounts(m2, snap), act, RUNTIME_VOLUME);
    }
    SharedMountsFixed(OwnMounts(ms, act, snap), snap);
    if ElyraOn(snap) { ElyraAfterFeast(ms, act, snap); }
  }

  /** A second pass over the notebook container's mounts changes nothing exactly when the
      Elyra mount survived the first. The Feast step repeats itself, or has nothing left to cut. */
  lemma {:induction false} OwnMountsTwice(ms: seq<VolumeMount>, act: FeastAct, again: FeastAct, snap: Snapshot)
    requires act.Mount? <==> again.Mount?
    requires again.Unmount? ==> !ElyraRegular(ms, act, snap)
    ensures OwnMounts(OwnMounts(ms, act, snap), again, snap) == OwnMounts(ms, act, snap) <==>
      ElyraRegular(ms, act, snap)
  {
    var done := OwnMounts(ms, act, snap);
    CertMountsAgain(ms, act, snap);
    SharedMountsAgain(ms, act, snap);
    if act.Mount? { FeastMountFixed(SharedMounts(CertMounts(ms, snap), snap)); }
    if !ElyraRegular(ms, act, snap) { ElyraComesBack(ms, act, again, snap); }
  }

  /** A lost Elyra mount is mounted anew by the next run. */
  lemma {:induction false} ElyraComesBack(ms: seq<VolumeMount>, act: FeastAct, again: FeastAct, snap: Snapshot)
    requires !ElyraRegular(ms, act, snap)
    ensures OwnMounts(OwnMounts(ms, act, snap), again, snap) != OwnMounts(ms, act, snap)
  {
    MountNamesApart();
    var done := OwnMounts(ms, act, snap);
    ElyraAfterFeast(ms, act, snap);
    CertMountsAgain(ms, act, snap);
    var met := RuntimeMounts(done, snap);
    AppendOther(done, MountNamed(RUNTIME_VOLUME), RUNTIME_MOUNT, ElyraTaken());
    assert ElyraRegular(done, again, snap);
    ElyraAfterFeast(done, again, snap);
  }

  // ----- Volumes ----------------------------------------------------------------------

  function CertVolumes(vs: seq<Volume>, snap: Snapshot): seq<Volume> {
    if snap.caBundle then Upsert(vs, VolumeNamed(TRUSTED_CA_VOLUME), TRUSTED_CA) else vs
  }

  function RuntimeVolumes(vs: seq<Volume>, snap: Snapshot): seq<Volume> {
    if snap.runtimeImages.Usable? then AppendIfAbsent(vs, VolumeNamed(RUNTIME_VOLUME), RUNTIME) else vs
  }

  function ElyraVolumes(vs: seq<Volume>, snap: Snapshot): seq<Volume> {
    if ElyraOn(snap) then AppendIfAbsent(vs, VolumeNamed(ELYRA_VOLUME), ELYRA) else vs
  }

  function FeastVolumes(vs: seq<Volume>, act: FeastAct, name: string): seq<Volume> {
    match act
    case Mount => Upsert(vs, VolumeNamed(FEAST_VOLUME), FeastSource(name))
    case Unmount => RemoveFirst(vs, VolumeNamed(FEAST_VOLUME))
    case Leave => vs
  }

  function SidecarVolumes(vs: seq<Volume>, name: string, inject: bool): seq<Volume> {
    if inject then
      Upsert(Upsert(vs, VolumeNamed(PROXY_CONFIG_VOLUME), ProxyConfigVolume(name)), VolumeNamed(PROXY_TLS_VOLUME),
        ProxyTlsVolume(name))
    else vs
  }

  function MountedVolumes(vs: seq<Volume>, snap: Snapshot): seq<Volume> {
    ElyraVolumes(RuntimeVolumes(CertVolumes(vs, snap), snap), snap)
  }

  function AllVolumes(vs: seq<Volume>, act: FeastAct, name: string, inject: bool, snap: Snapshot): seq<Volume> {
    SidecarVolumes(FeastVolumes(MountedVolumes(vs, snap), act, name), name, inject)
  }

  /** With the Feast label off, the Feast volume is listed at most once. */
  predicate VolumesRegular(vs: seq<Volume>, enabled: bool) {
    !enabled ==> |Sel(vs, VolumeNamed(FEAST_VOLUME))| <= 1
  }

  lemma {:induction false} VolumeNamesApart()
    ensures TRUSTED_CA_VOLUME != RUNTIME_VOLUME && TRUSTED_CA_VOLUME != ELYRA_VOLUME
    ensures TRUSTED_CA_VOLUME != FEAST_VOLUME
    ensures RUNTIME_VOLUME != ELYRA_VOLUME && RUNTIME_VOLUME != FEAST_VOLUME && ELYRA_VOLUME != FEAST_VOLUME
    ensures PROXY_CONFIG_VOLUME !in [TRUSTED_CA_VOLUME, RUNTIME_VOLUME, ELYRA_VOLUME, FEAST_VOLUME, PROXY_TLS_VOLUME]
    ensures PROXY_TLS_VOLUME !in [TRUSTED_CA_VOLUME, RUNTIME_VOLUME, ELYRA_VOLUME, FEAST_VOLUME]
  {
    MountNamesApart();
    assert |PROXY_CONFIG_VOLUME| == 22 && |PROXY_TLS_VOLUME| == 32;
    assert |TRUSTED_CA_VOLUME| == 10 && |RUNTIME_VOLUME| == 14 && |ELYRA_VOLUME| == 17 && |FEAST_VOLUME| == 16;
  }

  lemma {:induction false} SidecarVolumesSel(vs: seq<Volume>, name: string, inject: bool, n: string)
    requires n != PROXY_CONFIG_VOLUME && n != PROXY_TLS_VOLUME
    ensures Sel(SidecarVolumes(vs, name, inject), VolumeNamed(n)) == Sel(vs, VolumeNamed(n))
  {
    UpsertOther(vs, VolumeNamed(PROXY_CONFIG_VOLUME), ProxyConfigVolume(name), VolumeNamed(n));
    UpsertOther(Upsert(vs, VolumeNamed(PROXY_CONFIG_VOLUME), ProxyConfigVolume(name)),
      VolumeNamed(PROXY_TLS_VOLUME), ProxyTlsVolume(name), VolumeNamed(n));
  }

  lemma {:induction false} FeastVolumesSel(vs: seq<Volume>, act: FeastAct, name: string, n: string)
    requires n != FEAST_VOLUME
    ensures Sel(FeastVolumes(vs, act, name), VolumeNamed(n)) == Sel(vs, VolumeNamed(n))
  {
    UpsertOther(vs, VolumeNamed(FEAST_VOLUME), FeastSource(name), VolumeNamed(n));
    RemoveOther(vs, VolumeNamed(FEAST_VOLUME), VolumeNamed(n));
  }

  lemma {:induction false} MountedVolumesSel(vs: seq<Volume>, snap: Snapshot, n: string)
    requires n != TRUSTED_CA_VOLUME && n != RUNTIME_VOLUME && n != ELYRA_VOLUME
    ensures Sel(MountedVolumes(vs, snap), VolumeNamed(n)) == Sel(vs, VolumeNamed(n))
  {
    UpsertOther(vs, VolumeNamed(TRUSTED_CA_VOLUME), TRUSTED_CA, VolumeNamed(n));
    AppendOther(CertVolumes(vs, snap), VolumeNamed(RUNTIME_VOLUME), RUNTIME, VolumeNamed(n));
    AppendOther(RuntimeVolumes(CertVolumes(vs, snap), snap), VolumeNamed(ELYRA_VOLUME), ELYRA, VolumeNamed(n));
  }

  lemma {:induction false} MountedVolumesThere(vs: seq<Volume>, snap: Snapshot)
    ensures var r := MountedVolumes(vs, snap);
      && (snap.caBundle ==>
        Sel(r, VolumeNamed(TRUSTED_CA_VOLUME)) != [] && Sel(r, VolumeNamed(TRUSTED_CA_VOLUME))[0] == TRUSTED_CA)
      && (snap.runtimeImages.Usable? ==> Sel(r, VolumeNamed(RUNTIME_VOLUME)) != [])
      && (ElyraOn(snap) ==> Sel(r, VolumeNamed(ELYRA_VOLUME)) != [])
  {
    VolumeNamesApart();
    var v2 := CertVolumes(vs, snap);
    var v3 := RuntimeVolumes(v2, snap);
    UpsertSame(vs, VolumeNamed(TRUSTED_CA_VOLUME), TRUSTED_CA);
    AppendOther(v2, VolumeNamed(RUNTIME_VOLUME), RUNTIME, VolumeNamed(TRUSTED_CA_VOLUME));
    AppendSame(v2, VolumeNamed(RUNTIME_VOLUME), RUNTIME);
    AppendOther(v3, VolumeNamed(ELYRA_VOLUME), ELYRA, VolumeNamed(TRUSTED_CA_VOLUME));
    AppendOther(v3, VolumeNamed(ELYRA_VOLUME), ELYRA, VolumeNamed(RUNTIME_VOLUME));
    AppendSame(v3, VolumeNamed(ELYRA_VOLUME), ELYRA);
  }

  lemma {:induction false} MountedVolumesAgain(vs: seq<Volume>, act: FeastAct, name: string, inject: bool,
                                               snap: Snapshot)
    ensures var done := AllVolumes(vs, act, name, inject, snap); MountedVolumes(done, snap) == done
  {
    VolumeNamesApart();
    var v4 := MountedVolumes(vs, snap);
    var v5 := FeastVolumes(v4, act, name);
    var done := AllVolumes(vs, act, name, inject, snap);
    MountedVolumesThere(vs, snap);
    forall n | n == TRUSTED_CA_VOLUME || n == RUNTIME_VOLUME || n == ELYRA_VOLUME
      ensures Sel(done, VolumeNamed(n)) == Sel(v4, VolumeNamed(n))
    {
      FeastVolumesSel(v4, act, name, n);
      SidecarVolumesSel(v5, name, inject, n);
    }
    UpsertFixed(done, VolumeNamed(TRUSTED_CA_VOLUME), TRUSTED_CA);
    SelFirst(done, VolumeNamed(RUNTIME_VOLUME));
    SelFirst(done, VolumeNamed(ELYRA_VOLUME));
  }

  lemma {:induction false} SidecarVolumesAgain(vs: seq<Volume>, name: string, inject: bool)
    ensures SidecarVolumes(SidecarVolumes(vs, name, inject), name, inject) == SidecarVolumes(vs, name, inject)
  {
    if inject {
      VolumeNamesApart();
      var cfg, tls := VolumeNamed(PROXY_CONFIG_VOLUME), VolumeNamed(PROXY_TLS_VOLUME);
      var v1 := Upsert(vs, cfg, ProxyConfigVolume(name));
      var v2 := Upsert(v1, tls, ProxyTlsVolume(name));
      UpsertSame(vs, cfg, ProxyConfigVolume(name));
      UpsertOther(v1, tls, ProxyTlsVolume(name), cfg);
      UpsertSame(v1, tls, ProxyTlsVolume(name));
      UpsertFixed(v2, cfg, ProxyConfigVolume(name));
      UpsertFixed(v2, tls, ProxyTlsVolume(name));
    }
  }

  /** The Feast volumes after a whole pass. */
  lemma {:induction false} FeastVolumesLeft(vs: seq<Volume>, enabled: bool, name: string, inject: bool, snap: Snapshot)
    ensures var act := FeastActOf(vs, enabled);
      var f := VolumeNamed(FEAST_VOLUME);
      var left := Sel(AllVolumes(vs, act, name, inject, snap), f);
      if enabled then left != [] && left[0] == FeastSource(name)
      else left == (if Sel(vs, f) == [] then [] else Sel(vs, f)[1..])
  {
    VolumeNamesApart();
    var act := FeastActOf(vs, enabled);
    var f := VolumeNamed(FEAST_VOLUME);
    var v4 := MountedVolumes(vs, snap);
    MountedVolumesSel(vs, snap, FEAST_VOLUME);
    SelFirst(vs, f);
    UpsertSame(v4, f, FeastSource(name));
    RemoveSame(v4, f);
    SidecarVolumesSel(FeastVolumes(v4, act, name), name, inject, FEAST_VOLUME);
  }

  /** A second pass over the volumes changes nothing exactly on regular lists. */
  lemma {:induction false} AllVolumesTwice(vs: seq<Volume>, enabled: bool, name: string, inject: bool, snap: Snapshot)
    ensures var done := AllVolumes(vs, FeastActOf(vs, enabled), name, inject, snap);
      AllVolumes(done, FeastActOf(done, enabled), name, inject, snap) == done <==> VolumesRegular(vs, enabled)
  {
    var act := FeastActOf(vs, enabled);
    var f := VolumeNamed(FEAST_VOLUME);
    var v5 := FeastVolumes(MountedVolumes(vs, snap), act, name);
    var done := AllVolumes(vs, act, name, inject, snap);
    MountedVolumesAgain(vs, act, name, inject, snap);
    SidecarVolumesAgain(v5, name, inject);
    FeastVolumesLeft(vs, enabled, name, inject, snap);
    SelFirst(done, f);
    if enabled {
      UpsertFixed(done, f, FeastSource(name));
    } else if |Sel(vs, f)| > 1 {
      FeastVolumesLeft(done, enabled, name, inject, snap);
    }
  }
}
