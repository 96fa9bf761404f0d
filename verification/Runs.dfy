/** Whole runs of one stored notebook: users and controllers submit, the TLS reconcile writes, the
    certificate pass patches, the notebook goes and comes back, while images, profiles and settings
    change underneath. */
module Runs {
  import opened PodModel
  import opened Sequences
  import opened Mutators
  import opened Pipeline
  import opened PodSecurity
  import opened Admission
  import opened ProxyTls
  import opened TlsReconcile
  import opened CertPass

  /** One event, with the cluster as the webhooks find it. The two passes are the controllers' only
      writes that can bring another template; all their others are submissions that repeat the stored
      one. */
  datatype Event =
    | Submit(m: Manifest, snap: Snapshot, o: Orders, reason: string)
    | TlsPass(tlsArgs: seq<string>, snap: Snapshot, o: Orders, reason: string)
    | UnsetPass(read: PodSpec, missing: bool, snap: Snapshot, o: Orders, reason: string)
    | Erase

  function Stored(r: Result<Manifest>, otherwise: Option<Manifest>): Option<Manifest> {
    if r.Ok? then Some(r.value) else otherwise
  }

  function Step(s: Option<Manifest>, ev: Event): Option<Manifest> {
    match ev
    case Submit(m, snap, o, reason) => Stored(Admit(if s.Some? then Update(s.value) else Create, m, snap, o, reason), s)
    case TlsPass(tlsArgs, snap, o, reason) =>
      if s.None? || !TlsPlan(s.value, tlsArgs).Write? then s
      else Stored(Admit(Update(s.value), TlsPlan(s.value, tlsArgs).m, snap, o, reason), s)
    case UnsetPass(read, missing, snap, o, reason) =>
      if s.None? then s
      else
        var patch := UnsetPatch(s.value, read, missing);
        if patch.None? then s else Stored(Admit(Update(s.value), patch.value, snap, o, reason), s)
    case Erase => None
  }

  /** `states` is what `events` make of `states[0]`. */
  ghost predicate Run(states: seq<Option<Manifest>>, events: seq<Event>) {
    && |states| == |events| + 1
    && forall i :: 0 <= i < |events| ==> states[i + 1] == Step(states[i], events[i])
  }

  // ----- No surprise restart ------------------------------------------------------------------

  /** The event may move the template: a submission, of its owner or of the culler, stops or restarts the
      workbench or brings another template, or erases it; the workbench is stopped or restarting when the flags
      are written; or the certificate pass has a patch, on a stopped or restarting workbench or one
      that makes a difference. */
  predicate MayMove(stored: Manifest, ev: Event) {
    match ev
    case Submit(m, _, _, _) => GoesAway(m.meta.annotations) || m.spec != stored.spec
    case TlsPass(_, _, _, _) => GoesAway(stored.meta.annotations)
    case UnsetPass(read, missing, _, _, _) =>
      var patch := UnsetPatch(stored, read, missing);
      patch.Some? && (GoesAway(stored.meta.annotations) || patch.value.spec != stored.spec)
    case Erase => true
  }

  ghost predicate WellFormedEvent(ev: Event) {
    ev.TlsPass? ==> forall i :: 0 <= i < |ev.tlsArgs| ==> TlsFlag(ev.tlsArgs[i])
  }

  lemma {:induction false} StepMayMove(stored: Manifest, ev: Event)
    requires WellFormedEvent(ev) && Step(Some(stored), ev).Some? && Step(Some(stored), ev).value.spec != stored.spec
    ensures MayMove(stored, ev)
  {
    hide Mutate, Admit, TlsPlan, UnsetPatch;
    match ev
    case Submit(m, snap, o, reason) =>
      if Admit(Update(stored), m, snap, o, reason).Ok? { GateIsExact(stored, m, snap, o, reason); }
    case TlsPass(tlsArgs, snap, o, reason) =>
      if TlsPlan(stored, tlsArgs).Write? {
        var m := TlsPlan(stored, tlsArgs).m;
        PlanIsNarrow(stored, tlsArgs);
        if Admit(Update(stored), m, snap, o, reason).Ok? {
          GateIsExact(stored, m, snap, o, reason);
          MarksKept(stored, m, m);
        }
      }
    case UnsetPass(read, missing, snap, o, reason) =>
      var patch := UnsetPatch(stored, read, missing);
      if patch.Some? {
        PatchKeepsMeta(stored, read, missing);
        if Admit(Update(stored), patch.value, snap, o, reason).Ok? {
          GateIsExact(stored, patch.value, snap, o, reason);
        }
      }
    case Erase =>
  }

  lemma {:induction false} PatchKeepsMeta(stored: Manifest, read: PodSpec, missing: bool)
    requires UnsetPatch(stored, read, missing).Some?
    ensures UnsetPatch(stored, read, missing).value.meta == stored.meta && missing && BundleListed(read)
  {}

  lemma {:induction false} MarksKept(stored: Manifest, m: Manifest, after: Manifest)
    requires forall k :: k != PENDING_ANNOTATION ==> SameEntry(m.meta.annotations, stored.meta.annotations, k)
    requires forall k :: k != PENDING_ANNOTATION ==> SameEntry(after.meta.annotations, m.meta.annotations, k)
    ensures GoesAway(after.meta.annotations) <==> GoesAway(stored.meta.annotations)
  {
    hide InjectionEnabled;
    InjectionKept(stored, m, after);
  }

  /** Between two moments of a run nothing may move the template, and the notebook is not erased. */
  ghost predicate NothingMoves(states: seq<Option<Manifest>>, events: seq<Event>, i: nat, j: nat)
    requires j <= |events| < |states|
  {
    forall k :: i <= k < j ==> states[k].Some? && WellFormedEvent(events[k]) && !MayMove(states[k].value, events[k])
  }

  lemma {:induction false} StepStays(stored: Manifest, ev: Event)
    requires WellFormedEvent(ev) && !MayMove(stored, ev)
    ensures Step(Some(stored), ev).Some? && Step(Some(stored), ev).value.spec == stored.spec
  {
    hide Mutate, Admit, TlsPlan, UnsetPatch;
    if Step(Some(stored), ev).Some? && Step(Some(stored), ev).value.spec != stored.spec { StepMayMove(stored, ev); }
  }

  /** In every run the stored template at two moments is the same unless, in between, somebody
      stopped, restarted, edited or erased the workbench, or it was stopped or restarting when the
      TLS flags were written, or the certificate pass patched it. */
  lemma {:induction false} NoSurpriseRestart(states: seq<Option<Manifest>>, events: seq<Event>, i: nat, j: nat)
    requires Run(states, events) && i <= j <= |events| && states[i].Some? && NothingMoves(states, events, i, j)
    ensures states[j].Some? && states[j].value.spec == states[i].value.spec
    decreases j - i
  {
    hide Step, MayMove, WellFormedEvent;
    if i < j {
      NoSurpriseRestart(states, events, i, j - 1);
      StepStays(states[j - 1].value, events[j - 1]);
      assert states[j - 1 + 1] == Step(states[j - 1], events[j - 1]);
    }
  }

  // ----- The security check along a run -------------------------------------------------------------

  ghost predicate SecureState(s: Option<Manifest>) {
    s.Some? ==> Secure(s.value.spec, s.value.meta.name)
  }

  lemma {:induction false} StepSecure(s: Option<Manifest>, ev: Event)
    requires SecureState(s)
    ensures SecureState(Step(s, ev))
  {
    hide Mutating, TlsPlan, UnsetPatch, Secure;
  }

  /** In every state every run reaches, the stored template passes the check of the validating webhook:
      no host namespace, host path or privileged container, and no foreign service account. */
  lemma {:induction false} SecureAlongRuns(states: seq<Option<Manifest>>, events: seq<Event>)
    requires Run(states, events) && SecureState(states[0])
    ensures forall i :: 0 <= i < |states| ==> SecureState(states[i])
  {
    hide Step, SecureState;
    for n := 0 to |events|
      invariant forall i :: 0 <= i <= n ==> SecureState(states[i])
    {
      StepSecure(states[n], events[n]);
    }
  }

  // ----- A running workbench --------------------------------------------------------------------------

  /** Nobody stops, restarts, deletes or edits: submissions repeat the template they found at the
      start, with whatever metadata. The certificate pass may run; where it finds the ConfigMap missing,
      it has read that template. */
  ghost predicate HandsOff(ev: Event, template: PodSpec) {
    && WellFormedEvent(ev) && !ev.Erase?
    && (ev.Submit? ==> ev.m.spec == template && !GoesAway(ev.m.meta.annotations))
    && (ev.UnsetPass? && ev.missing ==> ev.read == template)
  }

  ghost predicate Running(s: Option<Manifest>, template: PodSpec) {
    s.Some? && s.value.spec == template && !GoesAway(s.value.meta.annotations)
  }

  /** The certificate pass takes effect: it has a patch that can be carried out, and the webhook does not
      find the bundle either, or makes another template of the patched one than there was. */
  predicate TakesCertificates(s: Option<Manifest>, ev: Event) {
    && ev.UnsetPass? && s.Some? && Unsets(s.value, ev.missing, ev.snap)
    && (ev.snap.caBundle ==>
      Mutate(CertUnset.Unset(s.value.spec, s.value.meta.name).value, s.value.meta, ev.snap, ev.o) != Ok(s.value.spec))
  }

  lemma {:induction false} HandsOffStep(stored: Manifest, ev: Event, template: PodSpec)
    requires Running(Some(stored), template) && HandsOff(ev, template) && !ev.UnsetPass?
    ensures Running(Step(Some(stored), ev), template)
  {
    hide Mutate, Admit, TlsPlan;
    match ev
    case Submit(m, snap, o, reason) =>
      if Admit(Update(stored), m, snap, o, reason).Ok? {
        GateIsExact(stored, m, snap, o, reason);
        MarksKept(m, m, Admit(Update(stored), m, snap, o, reason).value);
      }
    case TlsPass(tlsArgs, snap, o, reason) =>
      if TlsPlan(stored, tlsArgs).Write? {
        var m := TlsPlan(stored, tlsArgs).m;
        PlanIsNarrow(stored, tlsArgs);
        if Admit(Update(stored), m, snap, o, reason).Ok? {
          GateIsExact(stored, m, snap, o, reason);
          MarksKept(stored, m, m);
          MarksKept(stored, m, Admit(Update(stored), m, snap, o, reason).value);
        }
      }
  }

  lemma {:induction false} UnsetTakes(stored: Manifest, ev: Event)
    requires ev.UnsetPass? && Secure(stored.spec, stored.meta.name) && Unsets(stored, ev.missing, ev.snap)
    requires ev.read == stored.spec
    ensures Mutate(CertUnset.Unset(stored.spec, stored.meta.name).value, stored.meta, ev.snap, ev.o).Ok?
    ensures Step(Some(stored), ev) == Some(Manifest(Unannotated(stored.meta, PENDING_ANNOTATION),
      Mutate(CertUnset.Unset(stored.spec, stored.meta.name).value, stored.meta, ev.snap, ev.o).value))
    ensures Step(Some(stored), ev).value.spec != stored.spec <==> TakesCertificates(Some(stored), ev)
  {
    hide Mutate, Admit, SetImage, Runnable, Secure, BundleListed, CertUnset.Unset;
    UnsetReleases(stored, ev.missing, ev.snap, ev.o, ev.reason);
    var u := CertUnset.Unset(stored.spec, stored.meta.name).value;
    if !ev.snap.caBundle {
      var t := Mutate(u, stored.meta, ev.snap, ev.o).value;
      MutateNoMoreBundles(u, stored.meta, ev.snap, ev.o, t);
      UnsetFrame(stored.spec, stored.meta.name, u);
      assert |Sel(t.volumes, CertUnset.BundleVolume())| < |Sel(stored.spec.volumes, CertUnset.BundleVolume())|;
    }
  }

  lemma {:induction false} UnsetIdle(stored: Manifest, ev: Event)
    requires ev.UnsetPass? && !Unsets(stored, ev.missing, ev.snap) && (ev.missing ==> ev.read == stored.spec)
    ensures Step(Some(stored), ev) == Some(stored)
  {
    hide Mutate, Admit, SetImage, Runnable, BundleListed, CertUnset.Unset;
    if UnsetPatch(stored, ev.read, ev.missing).Some? {
      UnsetIsEdit(stored, ev.missing);
      MutateSucceeds(CertUnset.Unset(stored.spec, stored.meta.name).value, stored.meta, ev.snap, ev.o);
      RefusedMutation(stored, UnsetPatch(stored, stored.spec, ev.missing).value, ev.snap, ev.o, ev.reason);
    }
  }

  /** Nothing moves where the webhook brings the same template back, accepted or not. */
  lemma {:induction false} UnsetStays(stored: Manifest, ev: Event)
    requires ev.UnsetPass? && (ev.missing ==> ev.read == stored.spec) && !TakesCertificates(Some(stored), ev)
    ensures Step(Some(stored), ev).Some? && Step(Some(stored), ev).value.spec == stored.spec
    ensures GoesAway(Step(Some(stored), ev).value.meta.annotations) <==>
      GoesAway(stored.meta.annotations)
  {
    hide Mutate, Admit, SetImage, Runnable, BundleListed, CertUnset.Unset;
    if Unsets(stored, ev.missing, ev.snap) {
      UnsetIsEdit(stored, ev.missing);
      var m := UnsetPatch(stored, stored.spec, ev.missing).value;
      if Admit(Update(stored), m, ev.snap, ev.o, ev.reason).Ok? {
        GateIsExact(stored, m, ev.snap, ev.o, ev.reason);
        MarksKept(stored, m, Admit(Update(stored), m, ev.snap, ev.o, ev.reason).value);
      }
    } else {
      UnsetIdle(stored, ev);
    }
  }

  lemma {:induction false} RefusedMutation(stored: Manifest, m: Manifest, snap: Snapshot, o: Orders, reason: string)
    requires Mutate(m.spec, m.meta, snap, o).Err?
    ensures Admit(Update(stored), m, snap, o, reason).Err?
  {
    hide Mutate;
  }

  /** The certificate pass moves the template of a workbench, running or not, if and only if the
      bundle's ConfigMap cannot be read, a volume uses it, nothing panics and the mutation can be
      carried out, and the webhook does not bring the same template back. */
  lemma {:induction false} UnsetMovesExactly(stored: Manifest, ev: Event)
    requires ev.UnsetPass? && Secure(stored.spec, stored.meta.name) && (ev.missing ==> ev.read == stored.spec)
    ensures Step(Some(stored), ev).Some?
    ensures Step(Some(stored), ev).value.spec != stored.spec <==> TakesCertificates(Some(stored), ev)
  {
    hide Step, Secure, Unsets;
    if TakesCertificates(Some(stored), ev) {
      UnsetsMissing(stored, ev.missing, ev.snap);
      UnsetTakes(stored, ev);
    } else {
      UnsetStays(stored, ev);
    }
  }

  lemma {:induction false} UnsetsMissing(stored: Manifest, missing: bool, snap: Snapshot)
    requires Unsets(stored, missing, snap)
    ensures missing
  {}

  lemma {:induction false} RunningStep(stored: Manifest, ev: Event, template: PodSpec)
    requires Running(Some(stored), template) && HandsOff(ev, template)
    ensures !TakesCertificates(Some(stored), ev) ==> Running(Step(Some(stored), ev), template)
    ensures TakesCertificates(Some(stored), ev) && SecureState(Some(stored)) ==>
      !Running(Step(Some(stored), ev), template)
  {
    hide Step, Secure, Unsets;
    if !ev.UnsetPass? {
      HandsOffStep(stored, ev, template);
    } else {
      if SecureState(Some(stored)) { UnsetMovesExactly(stored, ev); }
      if !TakesCertificates(Some(stored), ev) { UnsetStays(stored, ev); }
    }
  }

  /** A running workbench nobody touches keeps its pod template through every run, through image,
      profile and timeout changes, MLflow and Feast switches, and every pass of the controllers, if and
      only if no certificate pass of the run takes effect on it. */
  lemma {:induction false} RunningStaysPut(states: seq<Option<Manifest>>, events: seq<Event>, template: PodSpec)
    requires Run(states, events) && Running(states[0], template)
    requires forall i :: 0 <= i < |events| ==> HandsOff(events[i], template)
    ensures (forall i :: 0 <= i < |events| && Running(states[i], template) ==> !TakesCertificates(states[i], events[i]))
      ==> forall i :: 0 <= i < |states| ==> Running(states[i], template)
    ensures SecureState(states[0]) && (forall i :: 0 <= i < |states| ==> Running(states[i], template)) ==>
      forall i :: 0 <= i < |events| ==> !TakesCertificates(states[i], events[i])
  {
    hide Step, HandsOff, Running, TakesCertificates, SecureState;
    if SecureState(states[0]) { SecureAlongRuns(states, events); }
    forall i | 0 <= i < |events| && Running(states[i], template)
      ensures !TakesCertificates(states[i], events[i]) ==> Running(states[i + 1], template)
      ensures TakesCertificates(states[i], events[i]) && SecureState(states[i]) ==> !Running(states[i + 1], template)
    {
      RunningHas(states[i], template);
      RunningStep(states[i].value, events[i], template);
    }
    if SecureState(states[0]) && forall i :: 0 <= i < |states| ==> Running(states[i], template) {
      forall i | 0 <= i < |events| ensures !TakesCertificates(states[i], events[i]) {
        assert SecureState(states[i]) && Running(states[i], template) && Running(states[i + 1], template);
      }
    }
    if forall i :: 0 <= i < |events| && Running(states[i], template) ==> !TakesCertificates(states[i], events[i]) {
      for n := 0 to |events|
        invariant forall i :: 0 <= i <= n ==> Running(states[i], template)
      {
        assert Running(states[n], template);
      }
    }
  }

  lemma {:induction false} RunningHas(s: Option<Manifest>, template: PodSpec)
    requires Running(s, template)
    ensures s.Some?
  {}

  // ----- MLflow along a run -----------------------------------------------------------------------

  /** Submissions the invariant is about: this notebook, MLflow on, the flag at most once. */
  ghost predicate OneFlag(ev: Event, name: string) {
    && WellFormedEvent(ev)
    && (ev.Submit? ==> ev.m.meta.name == name && |Flags(ev.m)| <= 1 && Feasible(ev.o, ev.snap) && ev.snap.mlflow.Some?)
    && (ev.TlsPass? || ev.UnsetPass? ==> Feasible(ev.o, ev.snap) && ev.snap.mlflow.Some?)
    && (ev.UnsetPass? ==> |FlagsIn(ev.read, name)| <= 1)
  }

  /** The flags in the notebook container of a template. */
  function FlagsIn(spec: PodSpec, name: string): seq<EnvVar> {
    Flags(Manifest(Meta(name, "", map[], map[]), spec))
  }

  ghost predicate MlflowKept(s: Option<Manifest>, name: string) {
    s.Some? ==> s.value.meta.name == name && MlflowConsistent(s.value) && |Flags(s.value)| <= 1
  }

  lemma {:induction false} ArgsKeepFlags(stored: Manifest, m: Manifest, args: seq<string>)
    requires m.meta.name == stored.meta.name && stored.meta.name != PROXY_CONTAINER
    requires m.spec == WithProxyArgs(stored.spec, args)
    ensures Flags(m) == Flags(stored)
  {
    FirstByName(stored.spec.containers, m.spec.containers, stored.meta.name);
  }

  /** The patch brings the flags of the template read, or keeps the stored ones. */
  lemma {:induction false} PatchKeepsFlags(stored: Manifest, read: PodSpec, missing: bool)
    requires UnsetPatch(stored, read, missing).Some?
    ensures var m := UnsetPatch(stored, read, missing).value;
      Flags(m) == Flags(stored) || Flags(m) == FlagsIn(read, stored.meta.name)
  {
    var unset := CertUnset.Unset(read, stored.meta.name).value;
    UnsetKeepsFlags(read, stored.meta.name, unset);
    if unset.containers != read.containers { SameContainersFlags(UnsetPatch(stored, read, missing).value, unset); }
  }

  lemma {:induction false} SameContainersFlags(m: Manifest, spec: PodSpec)
    requires m.spec.containers == spec.containers
    ensures Flags(m) == FlagsIn(spec, m.meta.name)
  {}

  lemma {:induction false} UnsetKeepsFlags(spec: PodSpec, name: string, unset: PodSpec)
    requires CertUnset.Unset(spec, name) == Some(unset)
    ensures FlagsIn(unset, name) == FlagsIn(spec, name)
  {
    UnsetFrame(spec, name, unset);
    FirstByName(spec.containers, unset.containers, name);
    var own := First(spec.containers, ContainerNamed(name));
    if own < |spec.containers| {
      assert |MLFLOW_K8S| == 22;
      UnsetEnvOther(spec.containers[own].env, CERT_ENV_NAMES, MLFLOW_K8S);
    }
  }

  lemma {:induction false} UnsetEnvOther(env: seq<EnvVar>, names: seq<string>, n: string)
    requires n !in names && CertUnset.UnsetEnv(env, names).Some?
    ensures Sel(CertUnset.UnsetEnv(env, names).value, EnvNamed(n)) == Sel(env, EnvNamed(n))
    decreases |names|
  {
    if names != [] {
      CertUnset.SurviveOther(env, EnvNamed(names[0]), EnvNamed(n));
      UnsetEnvOther(CertUnset.Survive(env, EnvNamed(names[0])), names[1..], n);
    }
  }

  lemma {:induction false} AdmitKeepsMlflow(op: Operation, m: Manifest, snap: Snapshot, o: Orders, reason: string)
    requires m.meta.name != PROXY_CONTAINER && Feasible(o, snap) && snap.mlflow.Some? && |Flags(m)| <= 1
    requires op.Update? ==> op.stored.meta.name == m.meta.name && MlflowConsistent(op.stored)
    requires Admit(op, m, snap, o, reason).Ok?
    ensures MlflowKept(Some(Admit(op, m, snap, o, reason).value), m.meta.name)
  {
    hide Mutate, Admit, Feasible, MlflowConsistent;
    MlflowStaysConsistent(op, m, snap, o, reason);
    FlagsStayFew(op, m, snap, o, reason, Admit(op, m, snap, o, reason).value);
  }

  lemma {:induction false} MlflowEventKept(s: Option<Manifest>, ev: Event, name: string)
    requires name != PROXY_CONTAINER && MlflowKept(s, name) && OneFlag(ev, name)
    ensures MlflowKept(Step(s, ev), name)
  {
    hide Admit, Feasible, MlflowConsistent, TlsPlan, Flags, UnsetPatch, FlagsIn;
    match ev
    case Submit(m, snap, o, reason) =>
      var op := if s.Some? then Update(s.value) else Create;
      if Admit(op, m, snap, o, reason).Ok? { AdmitKeepsMlflow(op, m, snap, o, reason); }
    case TlsPass(tlsArgs, snap, o, reason) =>
      if s.Some? && TlsPlan(s.value, tlsArgs).Write? {
        var m := TlsPlan(s.value, tlsArgs).m;
        PlanIsNarrow(s.value, tlsArgs);
        ArgsKeepFlags(s.value, m, ProxyArgs(m.spec));
        if Admit(Update(s.value), m, snap, o, reason).Ok? { AdmitKeepsMlflow(Update(s.value), m, snap, o, reason); }
      }
    case UnsetPass(read, missing, snap, o, reason) =>
      if s.Some? && UnsetPatch(s.value, read, missing).Some? {
        var m := UnsetPatch(s.value, read, missing).value;
        PatchKeepsMeta(s.value, read, missing);
        PatchKeepsFlags(s.value, read, missing);
        if Admit(Update(s.value), m, snap, o, reason).Ok? { AdmitKeepsMlflow(Update(s.value), m, snap, o, reason); }
      }
    case Erase =>
  }

  /** In every state every run reaches, the MLflow flag in the notebook container comes with a
      named instance. */
  lemma {:induction false} MlflowAlongRuns(states: seq<Option<Manifest>>, events: seq<Event>, name: string)
    requires name != PROXY_CONTAINER && Run(states, events) && states[0].None?
    requires forall i :: 0 <= i < |events| ==> OneFlag(events[i], name)
    ensures forall i :: 0 <= i < |states| && states[i].Some? ==> MlflowConsistent(states[i].value)
  {
    hide Step, OneFlag;
    for n := 0 to |events|
      invariant forall i :: 0 <= i <= n ==> MlflowKept(states[i], name)
    {
      MlflowEventKept(states[n], events[n], name);
    }
    forall i | 0 <= i < |states| && states[i].Some? ensures MlflowConsistent(states[i].value) {
      assert MlflowKept(states[i], name);
    }
  }
}
