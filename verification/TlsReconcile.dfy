/** The controller's TLS reconcile, writing through the webhook its own updates pass. */
module TlsReconcile {
  import opened Sequences
  import opened PodModel
  import opened Mutators
  import opened MountPipeline
  import opened Pipeline
  import opened Admission
  import opened ProxyTls
  import opened NotebookObject

  const TLS_PENDING := "kube-rbac-proxy TLS settings differ from the cluster security profile"

  // ----- What one pass decides -------------------------------------------------------------

  function ProxyIndex(spec: PodSpec): nat {
    First(spec.containers, ContainerNamed(PROXY_CONTAINER))
  }

  predicate HasProxy(spec: PodSpec) {
    ProxyIndex(spec) < |spec.containers|
  }

  function ProxyArgs(spec: PodSpec): seq<string> {
    if HasProxy(spec) then spec.containers[ProxyIndex(spec)].args else []
  }

  function WithProxyArgs(spec: PodSpec, args: seq<string>): PodSpec {
    spec.(containers := UpdateFirst(spec.containers, ContainerNamed(PROXY_CONTAINER),
      (c: Container) => c.(args := args)))
  }

  function Pending(meta: Meta): string {
    Lookup(meta.annotations, PENDING_ANNOTATION)
  }

  predicate ArgsMatch(spec: PodSpec, tlsArgs: seq<string>) {
    ProxyArgs(spec) == Other(ProxyArgs(spec)) + tlsArgs
  }

  datatype Plan = Skip | Keep | Write(m: Manifest)

  /** A running workbench keeps its arguments and gets a mark; a stopped or restarting one takes them. */
  function TlsPlan(stored: Manifest, tlsArgs: seq<string>): Plan {
    var fits, pending := ArgsMatch(stored.spec, tlsArgs), Pending(stored.meta);
    if !HasProxy(stored.spec) then Skip
    else if !StoppedOrRestarting(stored.meta.annotations) then
      if fits && pending == TLS_PENDING then Write(stored.(meta := Unannotated(stored.meta, PENDING_ANNOTATION)))
      else if fits || pending != "" then Keep
      else Write(stored.(meta := Annotated(stored.meta, PENDING_ANNOTATION, TLS_PENDING)))
    else if fits && pending != TLS_PENDING then Keep
    else Write(Manifest(if pending == TLS_PENDING then Unannotated(stored.meta, PENDING_ANNOTATION) else stored.meta,
                        WithProxyArgs(stored.spec, Other(ProxyArgs(stored.spec)) + tlsArgs)))
  }

  /** The in-memory notebook after it is brought in line with the stored one. */
  function Synced(local: Manifest, current: Manifest): Manifest {
    Manifest(
      if PENDING_ANNOTATION in current.meta.annotations
        then Annotated(local.meta, PENDING_ANNOTATION, current.meta.annotations[PENDING_ANNOTATION])
      else Unannotated(local.meta, PENDING_ANNOTATION),
      if HasProxy(local.spec) && HasProxy(current.spec) then WithProxyArgs(local.spec, ProxyArgs(current.spec))
        else local.spec)
  }

  // ----- One attempt against the API server ----------------------------------------------------

  datatype WriteFate = Answered | LostBefore | LostAfter
  datatype Outcome = Settled | Conflicted | Failed

  /** What surrounds one attempt: writes of other actors before the read and between read and
      write, failing calls, and the webhooks' answer to an update of a stored notebook. */
  datatype Surroundings = Surroundings(
    earlier: Option<Manifest>, between: Option<Manifest>, readFails: bool, fate: WriteFate,
    webhooks: (Manifest, Manifest) -> Result<Manifest>)

  function Webhooks(snap: Snapshot, o: Orders, reason: string): (Manifest, Manifest) -> Result<Manifest> {
    (stored: Manifest, m: Manifest) => Admit(Update(stored), m, snap, o, reason)
  }

  /** Webhooks leave a notebook's identity alone. */
  ghost predicate KeepsIdentity(w: (Manifest, Manifest) -> Result<Manifest>) {
    forall stored, m :: w(stored, m).Ok? ==>
      w(stored, m).value.meta.name == m.meta.name && w(stored, m).value.meta.namespace == m.meta.namespace
  }

  /** `seen` is the stored notebook the in-memory one was synchronised with. */
  datatype Attempted = Attempted(stored: Manifest, outcome: Outcome, seen: Option<Manifest>, wrote: bool)

  function Attempt(before: Manifest, tlsArgs: seq<string>, e: Surroundings): Attempted {
    var read := if e.earlier.Some? then e.earlier.value else before;
    if e.readFails then Attempted(read, Failed, None, false)
    else match TlsPlan(read, tlsArgs)
      case Skip => Attempted(read, Settled, None, false)
      case Keep => Attempted(read, Settled, Some(read), false)
      case Write(m) =>
        var now := if e.between.Some? then e.between.value else read;
        if e.fate.LostBefore? then Attempted(now, Failed, None, false)
        else if e.between.Some? then Attempted(now, Conflicted, None, false)
        else match e.webhooks(read, m)
          case Err(_) => Attempted(now, Failed, None, false)
          case Ok(r) => if e.fate.LostAfter? then Attempted(r, Failed, None, true)
            else Attempted(r, Settled, Some(r), true)
  }

  const RETRIES := 5

  /** Attempts `k`, `k + 1`, ... until one does not conflict. */
  function Attempts(before: Manifest, tlsArgs: seq<string>, es: nat -> Surroundings, k: nat): Attempted
    requires k < RETRIES
    decreases RETRIES - k
  {
    var a := Attempt(before, tlsArgs, es(k));
    if a.outcome.Conflicted? && k + 1 < RETRIES then Attempts(a.stored, tlsArgs, es, k + 1) else a
  }

  /** The API server as it stores one notebook, with optimistic concurrency. */
  class ApiServer {
    var stored: Manifest
    var version: nat

    constructor (m: Manifest)
      ensures stored == m && version == 0
    {
      stored, version := m, 0;
    }

    method OtherWrites(m: Option<Manifest>)
      modifies this
      ensures stored == (if m.Some? then m.value else old(stored))
      ensures version == old(version) + (if m.Some? then 1 else 0)
    {
      if m.Some? { stored, version := m.value, version + 1; }
    }

    method Get() returns (current: Notebook)
      ensures fresh(current) && current.Value() == stored && current.resourceVersion == version
    {
      current := new Notebook(stored, version);
    }

    /** An update with the webhooks' answer: a stale one is refused, an answered one refreshes `current`. */
    method Put(current: Notebook, admitted: Result<Manifest>, fate: WriteFate) returns (r: Outcome)
      modifies this, current
      ensures if fate.LostBefore? then r == Failed && stored == old(stored) && version == old(version)
              else if old(current.resourceVersion) != old(version) then r == Conflicted && stored == old(stored)
                && version == old(version)
              else if admitted.Err? then r == Failed && stored == old(stored) && version == old(version)
              else stored == admitted.value && version == old(version) + 1 && r == if fate.LostAfter? then Failed
                else Settled
      ensures r.Settled? ==> current.Spec() == stored.spec && current.resourceVersion == version
      ensures r.Settled? ==> current.labels == stored.meta.labels && current.annotations == stored.meta.annotations
    {
      if fate.LostBefore? { return Failed; }
      if current.resourceVersion != version { return Conflicted; }
      if admitted.Err? { return Failed; }
      stored, version := admitted.value, version + 1;
      if fate.LostAfter? { return Failed; }
      current.labels, current.annotations := stored.meta.labels, stored.meta.annotations;
      current.resourceVersion := version;
      current.SetSpec(stored.spec);
      return Settled;
    }
  }

  method ClearTlsUpdatePending(notebook: Notebook)
    modifies notebook`annotations
    ensures notebook.Head() == if Pending(old(notebook.Head())) == TLS_PENDING
      then Unannotated(old(notebook.Head()), PENDING_ANNOTATION) else old(notebook.Head())
  {
    if Lookup(notebook.annotations, PENDING_ANNOTATION) != TLS_PENDING { return; }
    notebook.annotations := notebook.annotations - {PENDING_ANNOTATION};
  }

  method SyncReconciledNotebook(notebook: Notebook, current: Notebook)
    requires notebook != current
    modifies notebook
    ensures notebook.Value() == Synced(old(notebook.Value()), current.Value())
    ensures notebook.resourceVersion == current.resourceVersion
  {
    notebook.resourceVersion := current.resourceVersion;
    if PENDING_ANNOTATION in current.annotations {
      notebook.annotations := notebook.annotations[PENDING_ANNOTATION := current.annotations[PENDING_ANNOTATION]];
    } else {
      notebook.annotations := notebook.annotations - {PENDING_ANNOTATION};
    }
    var local := Find(notebook.containers, ContainerNamed(PROXY_CONTAINER));
    var stored := Find(current.containers, ContainerNamed(PROXY_CONTAINER));
    if local < |notebook.containers| && stored < |current.containers| {
      notebook.containers := notebook.containers[local :=
        notebook.containers[local].(args := current.containers[stored].args)];
    }
  }

  /** Carry out the plan on the notebook just read; false: nothing to write. */
  method Revise(current: Notebook, tlsArgs: seq<string>) returns (plan: Plan)
    modifies current
    ensures plan == TlsPlan(old(current.Value()), tlsArgs)
    ensures current.Value() == if plan.Write? then plan.m else old(current.Value())
    ensures current.resourceVersion == old(current.resourceVersion)
  {
    var idx := Find(current.containers, ContainerNamed(PROXY_CONTAINER));
    if idx == |current.containers| { return Skip; }
    var updated := MergeTlsArgs(current.containers[idx].args, tlsArgs);
    var argsMatch := current.containers[idx].args == updated;
    if !StoppedOrRestarting(current.annotations) {
      if argsMatch && Lookup(current.annotations, PENDING_ANNOTATION) == TLS_PENDING {
        ClearTlsUpdatePending(current);
      } else if argsMatch || Lookup(current.annotations, PENDING_ANNOTATION) != "" {
        return Keep;
      } else {
        current.annotations := current.annotations[PENDING_ANNOTATION := TLS_PENDING];
      }
      return Write(current.Value());
    }
    if argsMatch && Lookup(current.annotations, PENDING_ANNOTATION) != TLS_PENDING { return Keep; }
    if !argsMatch { current.containers := current.containers[idx := current.containers[idx].(args := updated)]; }
    ClearTlsUpdatePending(current);
    return Write(current.Value());
  }

  lemma {:induction false} WebhooksKeepIdentity(snap: Snapshot, o: Orders, reason: string)
    ensures KeepsIdentity(Webhooks(snap, o, reason))
  {
    var w := Webhooks(snap, o, reason);
    forall stored, m | w(stored, m).Ok?
      ensures w(stored, m).value.meta.name == m.meta.name && w(stored, m).value.meta.namespace == m.meta.namespace
    {
      GateIsExact(stored, m, snap, o, reason);
    }
  }

  /** Store and in-memory notebook are as `a` says; `local` is the in-memory one from before. */
  ghost predicate Reported(a: Attempted, outcome: Outcome, server: ApiServer, notebook: Notebook, local: Manifest)
    reads server, notebook
  {
    && server.stored == a.stored && outcome == a.outcome
    && (a.seen.Some? ==> a.seen.value == server.stored && notebook.resourceVersion == server.version)
    && notebook.Value() == if a.seen.Some? then Synced(local, a.seen.value) else local
  }

  /** One attempt: read, decide, write through the webhooks, synchronise. */
  method TryReconcile(server: ApiServer, notebook: Notebook, tlsArgs: seq<string>, e: Surroundings)
    returns (outcome: Outcome)
    requires KeepsIdentity(e.webhooks)
    modifies server, notebook
    ensures Reported(Attempt(old(server.stored), tlsArgs, e), outcome, server, notebook, old(notebook.Value()))
  {
    server.OtherWrites(e.earlier);
    if e.readFails { return Failed; }
    var current := server.Get();
    var plan := Revise(current, tlsArgs);
    if plan.Skip? { return Settled; }
    if plan.Keep? {
      SyncReconciledNotebook(notebook, current);
      return Settled;
    }
    server.OtherWrites(e.between);
    outcome := server.Put(current, e.webhooks(server.stored, current.Value()), e.fate);
    if outcome.Settled? {
      assert current.Value() == server.stored;
      SyncReconciledNotebook(notebook, current);
    }
  }

  lemma {:induction false} AttemptsStep(before: Manifest, tlsArgs: seq<string>, es: nat -> Surroundings, k: nat,
                                        a: Attempted)
    requires k < RETRIES && a == Attempt(before, tlsArgs, es(k))
    ensures Attempts(before, tlsArgs, es, k) == if a.outcome.Conflicted? && k + 1 < RETRIES
      then Attempts(a.stored, tlsArgs, es, k + 1) else a
    ensures a.outcome.Conflicted? ==> a.seen.None?
  {}

  method RetryOnConflict(server: ApiServer, notebook: Notebook, tlsArgs: seq<string>, es: nat -> Surroundings)
    returns (outcome: Outcome)
    requires forall k :: KeepsIdentity(es(k).webhooks)
    modifies server, notebook
    ensures Reported(Attempts(old(server.stored), tlsArgs, es, 0), outcome, server, notebook, old(notebook.Value()))
  {
    ghost var all, local := Attempts(server.stored, tlsArgs, es, 0), notebook.Value();
    outcome := Conflicted;
    for k := 0 to RETRIES
      invariant notebook.Value() == local
      invariant k < RETRIES ==> all == Attempts(server.stored, tlsArgs, es, k)
      invariant k == RETRIES ==> Reported(all, outcome, server, notebook, local)
    {
      ghost var a := Attempt(server.stored, tlsArgs, es(k));
      AttemptsStep(server.stored, tlsArgs, es, k, a);
      outcome := TryReconcile(server, notebook, tlsArgs, es(k));
      if !outcome.Conflicted? { return; }
    }
  }

  /** One pass over the notebook in memory: nothing with injection off there, an error without
      resolved flags, and otherwise the attempts. */
  function Pass(local: Manifest, stored: Manifest, resolved: Result<seq<string>>, es: nat -> Surroundings): Attempted {
    if !InjectionEnabled(local.meta.annotations) then Attempted(stored, Settled, None, false)
    else match resolved
      case Err(_) => Attempted(stored, Failed, None, false)
      case Ok(tlsArgs) => Attempts(stored, tlsArgs, es, 0)
  }

  /** The whole reconcile. */
  method ReconcileKubeRbacProxyTls(server: ApiServer, notebook: Notebook, resolved: Result<seq<string>>,
                                   es: nat -> Surroundings) returns (outcome: Outcome)
    requires forall k :: KeepsIdentity(es(k).webhooks)
    modifies server, notebook
    ensures !InjectionEnabled(old(notebook.annotations)) || resolved.Err? ==> server.version == old(server.version)
    ensures Reported(Pass(old(notebook.Value()), old(server.stored), resolved, es), outcome, server, notebook,
      old(notebook.Value()))
  {
    hide Attempts;
    if !InjectionEnabled(notebook.annotations) { return Settled; }
    if resolved.Err? { return Failed; }
    outcome := RetryOnConflict(server, notebook, resolved.value, es);
  }

  // ----- What a write touches -----------------------------------------------------------------

  lemma {:induction false} BaseArgPlain(i: nat)
    requires i < 11
    ensures !TlsFlag(BASE_ARGS[i])
  {
    var arg := BASE_ARGS[i];
    if i == 0 {
      assert arg[2] == 's';
    } else if i == 1 {
      assert arg[2] == 'u';
    } else if i == 2 {
      assert arg[2] == 'l';
    } else if i == 3 {
      assert arg[2] == 'v';
    } else if i == 4 {
      assert arg[2] == 'p';
    } else if i == 5 {
      assert arg[2] == 'c';
    } else if i == 6 {
      assert arg[6] == 'c' && arg[7] == 'e';
    } else if i == 7 {
      assert arg[6] == 'p';
    } else {
      assert arg[2] == 'a';
    }
    NotAFlag(arg);
  }

  lemma {:induction false} BaseArgsPlain()
    ensures Other(BASE_ARGS) == BASE_ARGS
  {
    forall i | 0 <= i < |BASE_ARGS| ensures !TlsFlag(BASE_ARGS[i]) { BaseArgPlain(i); }
    OtherAll(BASE_ARGS);
  }

  lemma {:induction false} NotAFlag(arg: string)
    requires |arg| > 7 ==> arg[2] != 't' || (arg[6] != 'm' && !(arg[6] == 'c' && (arg[7] == 'i' || arg[7] == 'u')))
    ensures !TlsFlag(arg)
  {
    assert MIN_VERSION_FLAG[2] == 't' && CIPHERS_FLAG[2] == 't' && CURVES_FLAG[2] == 't';
    assert MIN_VERSION_FLAG[6] == 'm' && CIPHERS_FLAG[6] == 'c' && CURVES_FLAG[6] == 'c' && CIPHERS_FLAG[7] == 'i'
      && CURVES_FLAG[7] == 'u';
  }

  lemma {:induction false} OtherAll(args: seq<string>)
    requires forall i :: 0 <= i < |args| ==> !TlsFlag(args[i])
    ensures Other(args) == args
  {
    if args != [] { OtherAll(args[1..]); }
  }

  lemma {:induction false} WithArgsIndex(spec: PodSpec, args: seq<string>)
    requires HasProxy(spec)
    ensures ProxyIndex(WithProxyArgs(spec, args)) == ProxyIndex(spec) && HasProxy(WithProxyArgs(spec, args))
    ensures ProxyArgs(WithProxyArgs(spec, args)) == args
  {
    FirstIs(WithProxyArgs(spec, args).containers, ContainerNamed(PROXY_CONTAINER), ProxyIndex(spec));
  }

  /** What the reconcile submits: the stored notebook, with only the arguments of the first proxy
      container and only the pending mark touched, every other argument kept in order, and the
      template left alone unless the owner stopped or restarted the workbench. */
  lemma {:induction false} PlanIsNarrow(stored: Manifest, tlsArgs: seq<string>)
    requires TlsPlan(stored, tlsArgs).Write? && forall i :: 0 <= i < |tlsArgs| ==> TlsFlag(tlsArgs[i])
    ensures var m := TlsPlan(stored, tlsArgs).m;
      && m.spec == WithProxyArgs(stored.spec, ProxyArgs(m.spec))
      && Other(ProxyArgs(m.spec)) == Other(ProxyArgs(stored.spec))
      && (m.spec != stored.spec ==> StoppedOrRestarting(stored.meta.annotations) && ArgsMatch(m.spec, tlsArgs))
      && (forall k :: k != PENDING_ANNOTATION ==> SameEntry(m.meta.annotations, stored.meta.annotations, k))
      && m.meta.(annotations := stored.meta.annotations) == stored.meta
      && m != stored
  {
    var m := TlsPlan(stored, tlsArgs).m;
    var merged := Other(ProxyArgs(stored.spec)) + tlsArgs;
    WithArgsIndex(stored.spec, merged);
    MergeSettles(ProxyArgs(stored.spec), tlsArgs, tlsArgs);
    if m.spec != stored.spec { assert m.spec == WithProxyArgs(stored.spec, merged); }
    assert m.spec == WithProxyArgs(stored.spec, ProxyArgs(m.spec));
    TlsReasonNonEmpty();
  }

  lemma {:induction false} TlsReasonNonEmpty()
    ensures TLS_PENDING != "" && |TLS_PENDING| > 0
  {
    assert |TLS_PENDING| == 69;
  }

  // ----- The webhook's template -------------------------------------------------------------------

  /** With injection on, the webhook rebuilds the first proxy container from its own arguments. */
  lemma {:induction false} WebhookRebuilds(spec: PodSpec, meta: Meta, snap: Snapshot, o: Orders, tlsArgs: seq<string>)
    requires meta.name != PROXY_CONTAINER && snap.tlsArgs == Ok(tlsArgs) && InjectionEnabled(meta.annotations)
    requires Mutate(spec, meta, snap, o).Ok?
    ensures HasProxy(Mutate(spec, meta, snap, o).value)
    ensures ProxyArgs(Mutate(spec, meta, snap, o).value) == BASE_ARGS + tlsArgs
  {
    hide Mutate, SetImage, Finished, InjectionEnabled, DesiredSidecar, FeastActOf, MlflowInstance;
    MutateSucceeds(spec, meta, snap, o);
    var s1 := SetImage(spec, meta, snap).value;
    MutateFinished(spec, s1, meta, snap, o);
    SidecarOf(meta, snap, tlsArgs);
    RebuiltIn(s1, Mutate(spec, meta, snap, o).value, meta.name, FeastActOf(s1.volumes, FeastEnabled(meta.labels)),
      MlflowInstance(meta.annotations), Sidecar(meta, snap), snap, o, tlsArgs);
  }

  lemma {:induction false} SidecarOf(meta: Meta, snap: Snapshot, tlsArgs: seq<string>)
    requires snap.tlsArgs == Ok(tlsArgs) && InjectionEnabled(meta.annotations)
    requires DesiredSidecar(meta.annotations, snap).Ok?
    ensures Sidecar(meta, snap).Some? && Sidecar(meta, snap).value.args == BASE_ARGS + tlsArgs
  {}

  lemma {:induction false} RebuiltIn(s: PodSpec, t: PodSpec, name: string, act: FeastAct, instance: string,
                                     sidecar: Option<Container>, snap: Snapshot, o: Orders, tlsArgs: seq<string>)
    requires Finished(s, t, name, act, instance, sidecar, snap, o)
    requires sidecar.Some? && sidecar.value.args == BASE_ARGS + tlsArgs
    ensures HasProxy(t) && ProxyArgs(t) == BASE_ARGS + tlsArgs
  {
    var k := First(s.containers, ContainerNamed(PROXY_CONTAINER));
    forall i | 0 <= i < k ensures t.containers[i].name != PROXY_CONTAINER {
      assert s.containers[i].name != PROXY_CONTAINER;
    }
    FirstIs(t.containers, ContainerNamed(PROXY_CONTAINER), k);
  }

  /** Arguments the webhook built need no merge. */
  lemma {:induction false} RebuiltFits(args: seq<string>, tlsArgs: seq<string>)
    requires forall i :: 0 <= i < |tlsArgs| ==> TlsFlag(tlsArgs[i])
    requires args == BASE_ARGS + tlsArgs
    ensures Other(args) == BASE_ARGS && args == Other(args) + tlsArgs
  {
    BaseArgsPlain();
    OtherConcat(BASE_ARGS, tlsArgs);
    OtherNone(tlsArgs);
  }

  // ----- Fixpoint -------------------------------------------------------------------------------------

  /** The cluster resolves the same flags for controller and webhook, and the webhook's diff
      text is its own. */
  ghost predicate SameProfile(snap: Snapshot, reason: string, tlsArgs: seq<string>) {
    && snap.tlsArgs == Ok(tlsArgs) && (forall i :: 0 <= i < |tlsArgs| ==> TlsFlag(tlsArgs[i]))
    && reason != "" && reason != TLS_PENDING
  }

  /** After one accepted write nothing is left to write, stopped, restarting or running. */
  lemma {:induction false} OneWriteSettles(stored: Manifest, tlsArgs: seq<string>, snap: Snapshot, o: Orders,
                                           reason: string, after: Manifest)
    requires stored.meta.name != PROXY_CONTAINER && InjectionEnabled(stored.meta.annotations)
    requires SameProfile(snap, reason, tlsArgs)
    requires TlsPlan(stored, tlsArgs).Write?
    requires Admit(Update(stored), TlsPlan(stored, tlsArgs).m, snap, o, reason) == Ok(after)
    ensures TlsPlan(after, tlsArgs).Keep?
    ensures after.spec != stored.spec ==> StoppedOrRestarting(stored.meta.annotations)
    ensures StoppedOrRestarting(stored.meta.annotations) ==> ProxyArgs(after.spec) == BASE_ARGS + tlsArgs
    ensures after.meta.name == stored.meta.name && InjectionEnabled(after.meta.annotations)
  {
    hide Mutate, TlsPlan, InjectionEnabled, MlflowInstance;
    var m := TlsPlan(stored, tlsArgs).m;
    PlanIsNarrow(stored, tlsArgs);
    GateIsExact(stored, m, snap, o, reason);
    InjectionKept(stored, m, after);
    MutatedTls(m, snap, o, tlsArgs, Mutate(m.spec, m.meta, snap, o));
    VerdictSettles(stored, tlsArgs, m, Mutate(m.spec, m.meta, snap, o), after, reason);
  }

  lemma {:induction false} MutatedTls(m: Manifest, snap: Snapshot, o: Orders, tlsArgs: seq<string>,
                                      mutated: Result<PodSpec>)
    requires m.meta.name != PROXY_CONTAINER && InjectionEnabled(m.meta.annotations)
    requires snap.tlsArgs == Ok(tlsArgs) && forall i :: 0 <= i < |tlsArgs| ==> TlsFlag(tlsArgs[i])
    requires mutated == Mutate(m.spec, m.meta, snap, o)
    ensures mutated.Ok? ==>
      HasProxy(mutated.value) && ProxyArgs(mutated.value) == BASE_ARGS + tlsArgs && ArgsMatch(mutated.value, tlsArgs)
  {
    hide Mutate, InjectionEnabled;
    if mutated.Ok? {
      WebhookRebuilds(m.spec, m.meta, snap, o, tlsArgs);
      RebuiltFits(ProxyArgs(mutated.value), tlsArgs);
    }
  }

  lemma {:induction false} InjectionKept(stored: Manifest, m: Manifest, after: Manifest)
    requires forall k :: k != PENDING_ANNOTATION ==> SameEntry(m.meta.annotations, stored.meta.annotations, k)
    requires forall k :: k != PENDING_ANNOTATION ==> SameEntry(after.meta.annotations, m.meta.annotations, k)
    ensures InjectionEnabled(m.meta.annotations) <==> InjectionEnabled(stored.meta.annotations)
    ensures InjectionEnabled(after.meta.annotations) <==> InjectionEnabled(stored.meta.annotations)
    ensures StoppedOrRestarting(m.meta.annotations) <==> StoppedOrRestarting(stored.meta.annotations)
    ensures StoppedOrRestarting(after.meta.annotations) <==> StoppedOrRestarting(stored.meta.annotations)
  {
    MarksApart(PENDING_ANNOTATION);
    assert SameEntry(m.meta.annotations, stored.meta.annotations, INJECT_AUTH_ANNOTATION);
    assert SameEntry(after.meta.annotations, m.meta.annotations, INJECT_AUTH_ANNOTATION);
    assert SameEntry(m.meta.annotations, stored.meta.annotations, STOP_ANNOTATION);
    assert SameEntry(after.meta.annotations, m.meta.annotations, STOP_ANNOTATION);
    assert SameEntry(m.meta.annotations, stored.meta.annotations, RESTART_ANNOTATION);
    assert SameEntry(after.meta.annotations, m.meta.annotations, RESTART_ANNOTATION);
  }

  lemma {:induction false} VerdictSettles(stored: Manifest, tlsArgs: seq<string>, m: Manifest, mutated: Result<PodSpec>,
                                          after: Manifest, reason: string)
    requires TlsPlan(stored, tlsArgs) == Write(m) && ExactVerdict(stored, m, mutated, reason, after)
    requires m.spec != stored.spec ==> StoppedOrRestarting(stored.meta.annotations)
    requires StoppedOrRestarting(m.meta.annotations) <==> StoppedOrRestarting(stored.meta.annotations)
    requires StoppedOrRestarting(after.meta.annotations) <==> StoppedOrRestarting(stored.meta.annotations)
    requires mutated.Ok? && HasProxy(mutated.value) && ProxyArgs(mutated.value) == BASE_ARGS + tlsArgs
    requires ArgsMatch(mutated.value, tlsArgs)
    requires reason != "" && reason != TLS_PENDING
    ensures TlsPlan(after, tlsArgs).Keep?
    ensures after.spec != stored.spec ==> StoppedOrRestarting(stored.meta.annotations)
    ensures StoppedOrRestarting(stored.meta.annotations) ==> ProxyArgs(after.spec) == BASE_ARGS + tlsArgs
  {
    TlsReasonNonEmpty();
    if StoppedOrRestarting(stored.meta.annotations) {
      assert after.spec == mutated.value;
    } else {
      assert after.spec == stored.spec;
    }
  }

  /** A stopped or restarting workbench keeps its other proxy arguments through the webhook if and
      only if they were the webhook's own to begin with. */
  lemma {:induction false} OthersKept(stored: Manifest, tlsArgs: seq<string>, snap: Snapshot, o: Orders, reason: string,
                                      after: Manifest)
    requires stored.meta.name != PROXY_CONTAINER && InjectionEnabled(stored.meta.annotations)
    requires SameProfile(snap, reason, tlsArgs)
    requires StoppedOrRestarting(stored.meta.annotations)
    requires TlsPlan(stored, tlsArgs).Write?
    requires Admit(Update(stored), TlsPlan(stored, tlsArgs).m, snap, o, reason) == Ok(after)
    ensures Other(ProxyArgs(after.spec)) == Other(ProxyArgs(stored.spec)) <==>
      Other(ProxyArgs(stored.spec)) == BASE_ARGS
  {
    hide Mutate, Admit, TlsPlan, InjectionEnabled;
    OneWriteSettles(stored, tlsArgs, snap, o, reason, after);
    RebuiltFits(ProxyArgs(after.spec), tlsArgs);
  }

  /** The first attempt reads `read` and its update, if any, is put to these webhooks undisturbed. */
  ghost predicate Undisturbed(e: Surroundings, read: Manifest, snap: Snapshot, o: Orders, reason: string) {
    && e.earlier == Some(read) && e.between.None? && !e.readFails && e.fate.Answered?
    && e.webhooks == Webhooks(snap, o, reason)
  }

  /** Injection is on in the notebook a pass has in memory, and switched off in the store before the
      pass reads it again, on a running workbench whose arguments do not fit. Then the pass writes.
      A pass that starts from the notebook so stored writes nothing; and one for which injection is
      switched on and off again in the same way plans another write if and only if the webhook had
      nothing to change. */
  lemma {:induction false} WithoutInjection(local: Manifest, before: Manifest, off: Manifest, tlsArgs: seq<string>,
                                            es: nat -> Surroundings, snap: Snapshot, o: Orders, reason: string,
                                            after: Manifest)
    requires InjectionEnabled(local.meta.annotations) && !InjectionEnabled(off.meta.annotations)
    requires !StoppedOrRestarting(off.meta.annotations) && HasProxy(off.spec) && !ArgsMatch(off.spec, tlsArgs)
    requires Pending(off.meta) == "" && reason != "" && Undisturbed(es(0), off, snap, o, reason)
    requires TlsPlan(off, tlsArgs).Write? && Admit(Update(off), TlsPlan(off, tlsArgs).m, snap, o, reason) == Ok(after)
    ensures Pass(local, before, Ok(tlsArgs), es) == Attempted(after, Settled, Some(after), true)
    ensures forall later: nat -> Surroundings :: !Pass(after, after, Ok(tlsArgs), later).wrote
    ensures TlsPlan(after, tlsArgs).Write? <==>
      Mutate(off.spec, TlsPlan(off, tlsArgs).m.meta, snap, o) == Ok(off.spec)
  {
    hide Mutate, Admit, InjectionEnabled, StoppedOrRestarting, ArgsMatch;
    var m := TlsPlan(off, tlsArgs).m;
    GateIsExact(off, m, snap, o, reason);
    MarksApart(PENDING_ANNOTATION);
    InjectionKept(off, m, after);
    Unsettled(off, tlsArgs, m, Mutate(m.spec, m.meta, snap, o), after, reason);
    FirstAttemptWrites(before, off, tlsArgs, es, snap, o, reason, after);
  }

  lemma {:induction false} FirstAttemptWrites(before: Manifest, read: Manifest, tlsArgs: seq<string>,
                                              es: nat -> Surroundings, snap: Snapshot, o: Orders, reason: string,
                                              after: Manifest)
    requires Undisturbed(es(0), read, snap, o, reason)
    requires TlsPlan(read, tlsArgs).Write?
    requires Admit(Update(read), TlsPlan(read, tlsArgs).m, snap, o, reason) == Ok(after)
    ensures Attempts(before, tlsArgs, es, 0) == Attempted(after, Settled, Some(after), true)
  {
    hide Admit, TlsPlan;
    var m := TlsPlan(read, tlsArgs).m;
    assert es(0).webhooks(read, m) == Admit(Update(read), m, snap, o, reason);
  }

  lemma {:induction false} Unsettled(stored: Manifest, tlsArgs: seq<string>, m: Manifest, mutated: Result<PodSpec>,
                                     after: Manifest, reason: string)
    requires !StoppedOrRestarting(stored.meta.annotations) && HasProxy(stored.spec) && !ArgsMatch(stored.spec, tlsArgs)
    requires m == stored.(meta := Annotated(stored.meta, PENDING_ANNOTATION, TLS_PENDING))
    requires ExactVerdict(stored, m, mutated, reason, after)
    requires STOP_ANNOTATION != PENDING_ANNOTATION && RESTART_ANNOTATION != PENDING_ANNOTATION && reason != ""
    ensures TlsPlan(after, tlsArgs).Write? <==> mutated == Ok(stored.spec)
  {
    assert SameEntry(after.meta.annotations, m.meta.annotations, STOP_ANNOTATION);
    assert SameEntry(after.meta.annotations, m.meta.annotations, RESTART_ANNOTATION);
    assert after.spec == stored.spec;
  }

  // ----- Passes in a row -------------------------------------------------------------------------------

  /** A notebook the theorem is about. */
  ghost predicate Proxied(m: Manifest) {
    m.meta.name != PROXY_CONTAINER && InjectionEnabled(m.meta.annotations)
  }

  /** One accepted write of the plan leaves nothing to write. */
  ghost predicate Settling(w: (Manifest, Manifest) -> Result<Manifest>, tlsArgs: seq<string>) {
    forall stored | Proxied(stored) && TlsPlan(stored, tlsArgs).Write? ::
      w(stored, TlsPlan(stored, tlsArgs).m).Ok? ==> TlsPlan(w(stored, TlsPlan(stored, tlsArgs).m).value, tlsArgs).Keep?
  }

  lemma {:induction false} WebhooksSettle(snap: Snapshot, o: Orders, reason: string, tlsArgs: seq<string>)
    requires SameProfile(snap, reason, tlsArgs)
    ensures Settling(Webhooks(snap, o, reason), tlsArgs)
  {
    hide Admit, TlsPlan, InjectionEnabled, SameProfile;
    var w := Webhooks(snap, o, reason);
    forall stored | Proxied(stored) && TlsPlan(stored, tlsArgs).Write?
      ensures w(stored, TlsPlan(stored, tlsArgs).m).Ok? ==>
        TlsPlan(w(stored, TlsPlan(stored, tlsArgs).m).value, tlsArgs).Keep?
    {
      var r := Admit(Update(stored), TlsPlan(stored, tlsArgs).m, snap, o, reason);
      if r.Ok? { OneWriteSettles(stored, tlsArgs, snap, o, reason, r.value); }
    }
  }

  /** Passes one after the other; the number of writes that reached the store. */
  function Writes(stored: Manifest, tlsArgs: seq<string>, es: seq<Surroundings>): nat
    decreases |es|
  {
    if es == [] then 0
    else
      var a := Attempt(stored, tlsArgs, es[0]);
      (if a.wrote then 1 else 0) + Writes(a.stored, tlsArgs, es[1..])
  }

  /** The controller alone on the notebook, under webhooks that serve the same profile. */
  ghost predicate Alone(e: Surroundings, tlsArgs: seq<string>) {
    && e.earlier.None? && e.between.None?
    && exists snap, o, reason :: Served(e.webhooks, snap, o, reason, tlsArgs)
  }

  ghost predicate Served(w: (Manifest, Manifest) -> Result<Manifest>, snap: Snapshot, o: Orders, reason: string,
                         tlsArgs: seq<string>)
  {
    w == Webhooks(snap, o, reason) && SameProfile(snap, reason, tlsArgs)
  }

  lemma {:induction false} KeptForGood(stored: Manifest, tlsArgs: seq<string>, es: seq<Surroundings>)
    requires TlsPlan(stored, tlsArgs).Keep? && forall i :: 0 <= i < |es| ==> es[i].earlier.None?
    ensures Writes(stored, tlsArgs, es) == 0
    decreases |es|
  {
    if es != [] { KeptForGood(stored, tlsArgs, es[1..]); }
  }

  lemma {:induction false} SettlingWritesOnce(stored: Manifest, tlsArgs: seq<string>, es: seq<Surroundings>)
    requires Proxied(stored)
    requires forall i :: 0 <= i < |es| ==>
      es[i].earlier.None? && es[i].between.None? && Settling(es[i].webhooks, tlsArgs)
    ensures Writes(stored, tlsArgs, es) <= 1
    decreases |es|
  {
    if es != [] {
      var a := Attempt(stored, tlsArgs, es[0]);
      if a.wrote {
        KeptForGood(a.stored, tlsArgs, es[1..]);
      } else {
        SettlingWritesOnce(stored, tlsArgs, es[1..]);
      }
    }
  }

  lemma {:induction false} AloneSettles(e: Surroundings, tlsArgs: seq<string>)
    requires Alone(e, tlsArgs)
    ensures e.earlier.None? && e.between.None? && Settling(e.webhooks, tlsArgs)
  {
    hide Admit, TlsPlan, InjectionEnabled, Settling;
    var snap, o, reason :| Served(e.webhooks, snap, o, reason, tlsArgs);
    WebhooksSettle(snap, o, reason, tlsArgs);
  }

  /** For a fixed profile, however many passes run, whatever else the cluster configuration does
      and whichever calls fail, the controller writes at most once. */
  lemma {:induction false} AtMostOneWrite(stored: Manifest, tlsArgs: seq<string>, es: seq<Surroundings>)
    requires stored.meta.name != PROXY_CONTAINER && InjectionEnabled(stored.meta.annotations)
    requires forall i :: 0 <= i < |es| ==> Alone(es[i], tlsArgs)
    ensures Writes(stored, tlsArgs, es) <= 1
  {
    hide Alone, Admit, TlsPlan, InjectionEnabled, SameProfile, Settling;
    forall i | 0 <= i < |es| ensures es[i].earlier.None? && es[i].between.None? && Settling(es[i].webhooks, tlsArgs) {
      assert Alone(es[i], tlsArgs);
      AloneSettles(es[i], tlsArgs);
    }
    SettlingWritesOnce(stored, tlsArgs, es);
  }

  // ----- Memory agrees with the store ----------------------------------------------------------------------

  /** What the steps after the TLS reconcile look at is what the store holds. */
  lemma {:induction false} MemoryAgrees(local: Manifest, current: Manifest)
    requires HasProxy(current.spec) && HasProxy(local.spec)
    ensures var m := Synced(local, current);
      && ProxyArgs(m.spec) == ProxyArgs(current.spec)
      && SameEntry(m.meta.annotations, current.meta.annotations, PENDING_ANNOTATION)
      && m.spec == WithProxyArgs(local.spec, ProxyArgs(m.spec))
      && (forall k :: k != PENDING_ANNOTATION ==> SameEntry(m.meta.annotations, local.meta.annotations, k))
  {
    WithArgsIndex(local.spec, ProxyArgs(current.spec));
  }

  /** Every pass that ends well on a stored notebook with a proxy container has synchronised. */
  lemma {:induction false} SettledIsSynced(stored: Manifest, tlsArgs: seq<string>, es: nat -> Surroundings, k: nat)
    requires k < RETRIES
    requires Attempts(stored, tlsArgs, es, k).outcome.Settled? && HasProxy(Attempts(stored, tlsArgs, es, k).stored.spec)
    ensures Attempts(stored, tlsArgs, es, k).seen == Some(Attempts(stored, tlsArgs, es, k).stored)
    decreases RETRIES - k
  {
    var a := Attempt(stored, tlsArgs, es(k));
    if a.outcome.Conflicted? && k + 1 < RETRIES { SettledIsSynced(a.stored, tlsArgs, es, k + 1); }
  }
}
