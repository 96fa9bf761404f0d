/** What the TLS reconcile is for, in the terms of the stored notebook: which sidecar arguments and which
    mark a pass leaves, and how often it tries. */
module TlsSettled {
  import opened Sequences
  import opened PodModel
  import opened Mutators
  import opened Admission
  import opened ProxyTls
  import opened TlsReconcile
  import Workbench

  predicate SetsTls(arg: string) {
    "--tls-min-version=" <= arg || "--tls-cipher-suites=" <= arg || "--tls-curve-preferences=" <= arg
  }

  /** The arguments that say nothing about TLS versions, suites or curves, in order. */
  function Plain(args: seq<string>): seq<string> {
    if args == [] then [] else (if SetsTls(args[0]) then [] else [args[0]]) + Plain(args[1..])
  }

  function SidecarAt(spec: PodSpec): nat {
    First(spec.containers, ContainerNamed("kube-rbac-proxy"))
  }

  /** The sidecar's arguments end with exactly these TLS flags. */
  predicate Fits(spec: PodSpec, tlsArgs: seq<string>)
    requires SidecarAt(spec) < |spec.containers|
  {
    var args := spec.containers[SidecarAt(spec)].args;
    args == Plain(args) + tlsArgs
  }

  predicate MarkedForTls(annotations: map<string, string>) {
    && "notebooks.opendatahub.io/update-pending" in annotations
    && annotations["notebooks.opendatahub.io/update-pending"]
    == "kube-rbac-proxy TLS settings differ from the cluster security profile"
  }

  predicate Marked(annotations: map<string, string>) {
    && "notebooks.opendatahub.io/update-pending" in annotations
    && annotations["notebooks.opendatahub.io/update-pending"] != ""
  }

  /** Nothing is left to do: the flags fit and no mark says otherwise, or the workbench is running and a
      mark says that it has to be restarted. */
  predicate InOrder(m: Manifest, tlsArgs: seq<string>)
    requires SidecarAt(m.spec) < |m.spec.containers|
  {
    if Fits(m.spec, tlsArgs) then !MarkedForTls(m.meta.annotations)
    else !GoesAway(m.meta.annotations) && Marked(m.meta.annotations)
  }

  /** The flags in place of the sidecar's own; only the first container of its name is touched. */
  function Refitted(spec: PodSpec, tlsArgs: seq<string>): PodSpec
    requires SidecarAt(spec) < |spec.containers|
  {
    var k := SidecarAt(spec);
    spec.(containers := spec.containers[k := spec.containers[k].(args := Plain(spec.containers[k].args) + tlsArgs)])
  }

  lemma {:induction false} PlainIsOther(args: seq<string>)
    ensures Plain(args) == Other(args)
  {
    if args != [] { PlainIsOther(args[1..]); }
  }

  lemma {:induction false} FitsIsMatch(spec: PodSpec, tlsArgs: seq<string>)
    requires SidecarAt(spec) < |spec.containers|
    ensures HasProxy(spec) && (Fits(spec, tlsArgs) <==> ArgsMatch(spec, tlsArgs))
    ensures Refitted(spec, tlsArgs) == WithProxyArgs(spec, Other(ProxyArgs(spec)) + tlsArgs)
  {
    PlainIsOther(spec.containers[SidecarAt(spec)].args);
  }

  lemma {:induction false} RefittedFits(spec: PodSpec, tlsArgs: seq<string>)
    requires SidecarAt(spec) < |spec.containers| && forall i :: 0 <= i < |tlsArgs| ==> SetsTls(tlsArgs[i])
    ensures SidecarAt(Refitted(spec, tlsArgs)) == SidecarAt(spec) < |Refitted(spec, tlsArgs).containers|
    ensures Fits(Refitted(spec, tlsArgs), tlsArgs)
  {
    hide Plain;
    var args := spec.containers[SidecarAt(spec)].args;
    FirstIs(Refitted(spec, tlsArgs).containers, ContainerNamed("kube-rbac-proxy"), SidecarAt(spec));
    PlainIsOther(args);
    PlainIsOther(Plain(args) + tlsArgs);
    FlagsAreTls(tlsArgs);
    MergeSettles(args, tlsArgs, tlsArgs);
  }

  lemma {:induction false} FlagsAreTls(tlsArgs: seq<string>)
    requires forall i :: 0 <= i < |tlsArgs| ==> SetsTls(tlsArgs[i])
    ensures forall i :: 0 <= i < |tlsArgs| ==> TlsFlag(tlsArgs[i])
  {}

  /** What a pass makes of the notebook it has read. Without a sidecar there is nothing to do; a notebook in
      order is left alone; any other one is brought in order: the sidecar of a stopped or restarting
      workbench takes the flags and a mark on their account goes; a running one keeps its template, and is
      marked, or no longer. */
  lemma {:induction false} PlanBringsOrder(stored: Manifest, tlsArgs: seq<string>)
    requires forall i :: 0 <= i < |tlsArgs| ==> SetsTls(tlsArgs[i])
    ensures TlsPlan(stored, tlsArgs).Skip? <==> SidecarAt(stored.spec) == |stored.spec.containers|
    ensures SidecarAt(stored.spec) < |stored.spec.containers| ==>
      && (TlsPlan(stored, tlsArgs).Keep? <==> InOrder(stored, tlsArgs))
      && (TlsPlan(stored, tlsArgs).Write? ==>
            var m, pending := TlsPlan(stored, tlsArgs).m, "notebooks.opendatahub.io/update-pending";
            && SidecarAt(m.spec) < |m.spec.containers| && InOrder(m, tlsArgs)
            && m.meta.(annotations := stored.meta.annotations) == stored.meta
            && (if GoesAway(stored.meta.annotations) then
                  && m.spec == Refitted(stored.spec, tlsArgs)
                  && m.meta.annotations ==
                     stored.meta.annotations - (if MarkedForTls(stored.meta.annotations) then {pending} else {})
                else
                  && m.spec == stored.spec && m.meta.annotations - {pending} == stored.meta.annotations - {pending}
                  && (pending in m.meta.annotations <==> !Fits(stored.spec, tlsArgs))
                  && (pending in m.meta.annotations ==> MarkedForTls(m.meta.annotations))))
  {
    hide Plain, First, Refitted, WithProxyArgs, Fits, ArgsMatch;
    TlsReasonNonEmpty();
    MarksApart(PENDING_ANNOTATION);
    if SidecarAt(stored.spec) < |stored.spec.containers| {
      FitsIsMatch(stored.spec, tlsArgs);
      RefittedFits(stored.spec, tlsArgs);
      if !MarkedForTls(stored.meta.annotations) { assert stored.meta.annotations - {} == stored.meta.annotations; }
    }
  }

  /** An undisturbed pass through the webhooks leaves the stored notebook in order; with the webhook's own
      flags and these behind them on the sidecar, if the workbench is stopped or restarting and was not in
      order. With the sidecar not asked for, a pass does nothing; without resolved flags it fails. */
  lemma {:induction false} PassBringsOrder(local: Manifest, before: Manifest, read: Manifest, tlsArgs: seq<string>,
                                           es: nat -> Surroundings, snap: Snapshot, o: Orders, reason: string)
    requires read.meta.name != "kube-rbac-proxy" && Workbench.SidecarAsked(read.meta.annotations)
    requires SameProfile(snap, reason, tlsArgs) && Undisturbed(es(0), read, snap, o, reason)
    requires SidecarAt(read.spec) < |read.spec.containers|
    requires TlsPlan(read, tlsArgs).Write? ==>
      Admit(Update(read), TlsPlan(read, tlsArgs).m, snap, o, reason).Ok?
    ensures Workbench.SidecarAsked(local.meta.annotations) ==>
      var a := Pass(local, before, Ok(tlsArgs), es);
      && a.outcome.Settled? && a.seen == Some(a.stored)
      && SidecarAt(a.stored.spec) < |a.stored.spec.containers| && InOrder(a.stored, tlsArgs)
      && (if InOrder(read, tlsArgs) then a.stored == read
          else if GoesAway(read.meta.annotations) then
            a.stored.spec.containers[SidecarAt(a.stored.spec)].args == Workbench.SidecarFlags() + tlsArgs
          else a.stored.spec == read.spec)
    ensures !Workbench.SidecarAsked(local.meta.annotations) ==>
      forall r :: Pass(local, before, r, es) == Attempted(before, Settled, None, false)
    ensures Workbench.SidecarAsked(local.meta.annotations) ==>
      forall e :: Pass(local, before, Err(e), es) == Attempted(before, Failed, None, false)
  {
    hide Admit, TlsPlan, InOrder, Workbench.SidecarAsked, InjectionEnabled, Attempts, Plain, First, GoesAway;
    Workbench.WhatIsAsked(local.meta.annotations, local.meta.labels);
    Workbench.WhatIsAsked(read.meta.annotations, read.meta.labels);
    PlanBringsOrder(read, tlsArgs);
    FirstAttempt(before, read, tlsArgs, es, snap, o, reason);
    if TlsPlan(read, tlsArgs).Write? {
      var after := Admit(Update(read), TlsPlan(read, tlsArgs).m, snap, o, reason).value;
      OneWriteSettles(read, tlsArgs, snap, o, reason, after);
      assert SidecarAt(after.spec) < |after.spec.containers| by { KeptHasSidecar(after, tlsArgs); }
      PlanBringsOrder(after, tlsArgs);
      assert BASE_ARGS == Workbench.SidecarFlags();
      SameGoing(read.meta.annotations);
    }
  }

  lemma {:induction false} SameGoing(annotations: map<string, string>)
    ensures StoppedOrRestarting(annotations) <==> GoesAway(annotations)
  {}

  lemma {:induction false} KeptHasSidecar(m: Manifest, tlsArgs: seq<string>)
    requires TlsPlan(m, tlsArgs).Keep?
    ensures SidecarAt(m.spec) < |m.spec.containers|
  {}

  lemma {:induction false} FirstAttempt(before: Manifest, read: Manifest, tlsArgs: seq<string>, es: nat -> Surroundings,
                                        snap: Snapshot, o: Orders, reason: string)
    requires Undisturbed(es(0), read, snap, o, reason)
    requires TlsPlan(read, tlsArgs).Write? ==> Admit(Update(read), TlsPlan(read, tlsArgs).m, snap, o, reason).Ok?
    ensures Attempts(before, tlsArgs, es, 0) == match TlsPlan(read, tlsArgs)
      case Skip => Attempted(read, Settled, None, false)
      case Keep => Attempted(read, Settled, Some(read), false)
      case Write(m) =>
        var after := Admit(Update(read), m, snap, o, reason).value; Attempted(after, Settled, Some(after), true)
  {
    hide Admit, TlsPlan;
    if TlsPlan(read, tlsArgs).Write? {
      FirstAttemptWrites(before, read, tlsArgs, es, snap, o, reason,
        Admit(Update(read), TlsPlan(read, tlsArgs).m, snap, o, reason).value);
    }
  }

  /** Somebody writes between the read of an attempt and its own write. */
  predicate Interfered(e: Surroundings, tlsArgs: seq<string>) {
    && e.earlier.Some? && e.between.Some? && !e.readFails && !e.fate.LostBefore?
    && TlsPlan(e.earlier.value, tlsArgs).Write?
  }

  /** What the attempt `k` meets in the store: what was written during the one before. */
  function Met(before: Manifest, es: nat -> Surroundings, k: nat): Manifest {
    if k > 0 && es(k - 1).between.Some? then es(k - 1).between.value else before
  }

  /** A conflict is tried again, four times over: the fifth attempt is the last. */
  lemma {:induction false} ConflictsAreRetried(before: Manifest, tlsArgs: seq<string>, es: nat -> Surroundings, k: nat)
    requires k < 5 && forall j :: 0 <= j < k ==> Interfered(es(j), tlsArgs)
    ensures var last := Attempt(Met(before, es, k), tlsArgs, es(k));
      k == 4 || !last.outcome.Conflicted? ==> Attempts(before, tlsArgs, es, 0) == last
  {
    hide TlsPlan;
    Retried(before, tlsArgs, es, k);
    AttemptsStep(Met(before, es, k), tlsArgs, es, k, Attempt(Met(before, es, k), tlsArgs, es(k)));
  }

  lemma {:induction false} Retried(before: Manifest, tlsArgs: seq<string>, es: nat -> Surroundings, k: nat)
    requires k < 5 && forall j :: 0 <= j < k ==> Interfered(es(j), tlsArgs)
    ensures Attempts(before, tlsArgs, es, 0) == Attempts(Met(before, es, k), tlsArgs, es, k)
  {
    hide TlsPlan;
    if k > 0 {
      Retried(before, tlsArgs, es, k - 1);
      assert Interfered(es(k - 1), tlsArgs);
      AttemptsStep(Met(before, es, k - 1), tlsArgs, es, k - 1, Attempt(Met(before, es, k - 1), tlsArgs, es(k - 1)));
    }
  }
}
