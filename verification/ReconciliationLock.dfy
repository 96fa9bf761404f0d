/** The reconciliation lock: between the admission of a new notebook and the end of its first
    complete ODH reconcile, its StatefulSet has no replicas. */
module ReconciliationLock {
  import opened PodModel
  import Admission

  // ----- The StatefulSet -----------------------------------------------------------------

  /** The fields the notebook-controller owns. */
  datatype Fields = Fields(labels: map<string, string>, annotations: map<string, string>, replicas: int, spec: PodSpec)

  function Replicas(annotations: map<string, string>): int {
    if STOP_ANNOTATION in annotations then 0 else 1
  }

  /** Every entry of `to` is in `from`, or empty and missing there. */
  predicate Covers(from: map<string, string>, to: map<string, string>) {
    forall k <- to :: if k in from then from[k] == to[k] else to[k] == ""
  }

  method Disagrees(from: map<string, string>, to: map<string, string>) returns (r: bool)
    ensures r <==> !Covers(from, to)
  {
    r := false;
    var left := to.Keys;
    while left != {}
      invariant left <= to.Keys
      invariant r <==> exists k :: k in to && k !in left && Lookup(from, k) != to[k]
      decreases left
    {
      var k :| k in left;
      left := left - {k};
      if Lookup(from, k) != to[k] { r := true; }
    }
  }

  class StatefulSet {
    var labels: map<string, string>
    var annotations: map<string, string>
    var replicas: int
    var spec: PodSpec

    constructor (f: Fields)
      ensures Owned() == f
    {
      labels, annotations, replicas, spec := f.labels, f.annotations, f.replicas, f.spec;
    }

    function Owned(): Fields
      reads this
    {
      Fields(labels, annotations, replicas, spec)
    }

    /** Copies all owned fields; what it reports misses labels and annotations that only `from` has. */
    method CopyFields(from: Fields) returns (requireUpdate: bool)
      modifies this
      ensures Owned() == from
      ensures requireUpdate <==>
        !(Covers(from.labels, old(labels)) && Covers(from.annotations, old(annotations))
          && from.replicas == old(replicas) && from.spec == old(spec))
    {
      requireUpdate := Disagrees(from.labels, labels);
      labels := from.labels;
      var differ := Disagrees(from.annotations, annotations);
      requireUpdate := requireUpdate || differ;
      annotations := from.annotations;
      if from.replicas != replicas {
        replicas := from.replicas;
        requireUpdate := true;
      }
      if spec != from.spec { requireUpdate := true; }
      spec := from.spec;
    }
  }

  /** What the store holds after a reconcile whose write, if any, went through. */
  function Stored(found: Option<Fields>, desired: Fields): Fields {
    match found
    case None => desired
    case Some(f) =>
      if Covers(desired.labels, f.labels) && Covers(desired.annotations, f.annotations)
        && desired.replicas == f.replicas && desired.spec == f.spec then f
      else desired
  }

  method ReconcileStatefulSet(found: Option<Fields>, desired: Fields) returns (stored: Fields)
    ensures stored == Stored(found, desired)
  {
    if found.None? { return desired; }
    var foundStateful := new StatefulSet(found.value);
    var requireUpdate := foundStateful.CopyFields(desired);
    if requireUpdate { return foundStateful.Owned(); }
    return found.value;
  }

  /** Replicas and pod spec always arrive. The metadata arrive as well, or else the stored ones agree
      with the desired ones but for entries that only the desired ones have, or that are empty. */
  lemma {:induction false} ReplicasArrive(found: Option<Fields>, desired: Fields)
    ensures Stored(found, desired).replicas == desired.replicas && Stored(found, desired).spec == desired.spec
    ensures Stored(found, desired) == desired
      || (Covers(desired.labels, Stored(found, desired).labels)
      && Covers(desired.annotations, Stored(found, desired).annotations))
  {}

  /** Stored metadata count as the desired ones if every stored entry is desired, or is empty and not desired. */
  ghost predicate Agrees(desired: map<string, string>, stored: map<string, string>) {
    forall k <- stored :: (k in desired && desired[k] == stored[k]) || (k !in desired && stored[k] == "")
  }

  /** What is stored stays exactly if it is the desired, or differs from it only in metadata that count as the
      desired ones. */
  lemma {:induction false} StoredStays(f: Fields, desired: Fields)
    ensures Stored(Some(f), desired) == f <==>
      f == desired || (f.replicas == desired.replicas && f.spec == desired.spec
                       && Agrees(desired.labels, f.labels) && Agrees(desired.annotations, f.annotations))
    ensures Stored(Some(f), desired) in {f, desired}
  {
    assert Covers(desired.labels, f.labels) <==> Agrees(desired.labels, f.labels);
    assert Covers(desired.annotations, f.annotations) <==> Agrees(desired.annotations, f.annotations);
  }

  /** A label added to the notebook alone never arrives. */
  lemma {:induction false} AddedLabelIsMissed(f: Fields, k: string, v: string)
    requires k !in f.labels
    ensures Stored(Some(f), f.(labels := f.labels[k := v])) == f != f.(labels := f.labels[k := v])
  {
    assert k in f.labels[k := v];
  }

  // ----- The protocol ------------------------------------------------------------------------

  /** The steps of an ODH reconcile between the finalizers and the unlock, each of which may fail
      and end the pass. */
  datatype Stage =
    | Config | Certificates | Policies | RuntimeImages | RoleBindings | ElyraSecret | Grant | NoConflictingRoute
    | ServiceAccount | ClusterRoleBinding | ProxyConfig | ProxyService | ProxyRoute | ProxyTls
    | NoClusterRoleBinding | PlainRoute | MlflowBinding

  datatype Settings = Settings(pipelineRbac: bool, pipelineSecret: bool, mlflow: bool)

  function StagesOf(inject: bool, settings: Settings): seq<Stage> {
    [Config, Certificates, Policies, RuntimeImages]
    + (if settings.pipelineRbac then [RoleBindings] else [])
    + (if settings.pipelineSecret then [ElyraSecret] else [])
    + [Grant, NoConflictingRoute]
    + (if inject then [ServiceAccount, ClusterRoleBinding, ProxyConfig, ProxyService, ProxyRoute, ProxyTls]
       else [NoClusterRoleBinding, PlainRoute])
    + (if settings.mlflow then [MlflowBinding] else [])
  }

  /** An ODH reconcile that came to its end: what it was for, and the stages that succeeded in it. */
  datatype Pass = Pass(inject: bool, settings: Settings, succeeded: seq<Stage>)

  datatype Notebook = Notebook(uid: nat, annotations: map<string, string>, finished: Option<Pass>)
  datatype OdhWorker =
    | OdhIdle
    | OdhWorking(uid: nat, locked: bool, pass: Pass, left: seq<Stage>)  // after the stages left: the unlock
  datatype SetWorker = SetIdle | SetHolding(uid: nat, replicas: int)

  datatype State = State(notebook: Option<Notebook>, nextUid: nat, sets: map<nat, int>, odh: OdhWorker,
                         setWorker: SetWorker)

  datatype Event =
    | Submit(meta: Meta)                       // a new notebook, through the webhook
    | Edit(annotations: map<string, string>)   // anybody, through the webhook
    | Vanish                                   // deleted, and its last finalizer gone
    | OdhRead(settings: Settings)
    | OdhCall(succeeds: bool, applied: bool)   // the next step; a failing patch may or may not have been applied
    | SetRead
    | SetWrite(applied: bool)

  predicate Locked(annotations: map<string, string>) {
    STOP_ANNOTATION in annotations && annotations[STOP_ANNOTATION] == LOCK_VALUE
  }

  function Next(s: State, e: Event): State {
    match e
    case Submit(meta) =>
      if s.notebook.Some? then s
      else s.(notebook := Some(Notebook(s.nextUid, Admission.Admitted(Admission.Create, meta).annotations, None)),
        nextUid := s.nextUid + 1)
    case Edit(annotations) =>
      if s.notebook.None? then s else s.(notebook := Some(s.notebook.value.(annotations := annotations)))
    case Vanish =>
      // a worker past the finalizer stage keeps the notebook: only it removes its finalizers
      if s.odh.OdhWorking? then s else s.(notebook := None)
    case OdhRead(settings) =>
      // a pass over a notebook that has its finalizers; one that adds them ends there
      if !s.odh.OdhIdle? || s.notebook.None? then s
      else
        var nb := s.notebook.value;
        var inject := InjectionEnabled(nb.annotations);
        s.(odh := OdhWorking(nb.uid, Locked(nb.annotations), Pass(inject, settings, []), StagesOf(inject, settings)))
    case OdhCall(succeeds, applied) =>
      var w := s.odh;
      if !w.OdhWorking? || s.notebook.None? then s
      else if w.left != [] then
        s.(odh := if succeeds then w.(pass := w.pass.(succeeded := w.pass.succeeded + [w.left[0]]), left := w.left[1..])
                  else OdhIdle)
      else
        var nb := s.notebook.value.(finished := Some(w.pass));
        s.(notebook := Some(if w.locked && (succeeds || applied)
          then nb.(annotations := nb.annotations - {STOP_ANNOTATION}) else nb),
           odh := OdhIdle)
    case SetRead =>
      if !s.setWorker.SetIdle? || s.notebook.None? then s
      else s.(setWorker := SetHolding(s.notebook.value.uid, Replicas(s.notebook.value.annotations)))
    case SetWrite(applied) =>
      if !s.setWorker.SetHolding? then s
      else s.(sets := if applied then s.sets[s.setWorker.uid := s.setWorker.replicas] else s.sets, setWorker := SetIdle)
  }

  /** A reconcile of this notebook got through every stage its settings ask for. */
  predicate Completed(nb: Notebook) {
    nb.finished.Some? && nb.finished.value.succeeded == StagesOf(nb.finished.value.inject, nb.finished.value.settings)
  }

  /** Nobody but the controllers touches the stop annotation before the first reconcile is through. */
  predicate Legal(s: State, e: Event) {
    e.Edit? && s.notebook.Some? && !Completed(s.notebook.value) ==>
      STOP_ANNOTATION in e.annotations && STOP_ANNOTATION in s.notebook.value.annotations
      && e.annotations[STOP_ANNOTATION] == s.notebook.value.annotations[STOP_ANNOTATION]
  }

  function Run(s: State, events: seq<Event>): State
    decreases |events|
  {
    if events == [] then s else Run(Next(s, events[0]), events[1..])
  }

  predicate LegalRun(s: State, events: seq<Event>)
    decreases |events|
  {
    events != [] ==> Legal(s, events[0]) && LegalRun(Next(s, events[0]), events[1..])
  }

  const EMPTY := State(None, 0, map[], OdhIdle, SetIdle)

  /** No replicas before the first complete reconcile. */
  ghost predicate HeldDown(s: State) {
    s.notebook.Some? && !Completed(s.notebook.value) ==>
      s.notebook.value.uid in s.sets ==> s.sets[s.notebook.value.uid] == 0
  }

  /** What succeeded so far, and what is left, make up the stages in their order. */
  ghost predicate OnCourse(pass: Pass, left: seq<Stage>) {
    pass.succeeded + left == StagesOf(pass.inject, pass.settings)
  }

  ghost predicate Inv(s: State) {
    && HeldDown(s)
    && (forall u <- s.sets :: u < s.nextUid)
    && (s.setWorker.SetHolding? ==> s.setWorker.uid < s.nextUid)
    && (s.odh.OdhWorking? ==> s.notebook.Some? && s.notebook.value.uid == s.odh.uid && OnCourse(s.odh.pass, s.odh.left))
    && (s.notebook.Some? ==> s.notebook.value.uid < s.nextUid)
    && (s.notebook.Some? && !Completed(s.notebook.value) ==>
          && Locked(s.notebook.value.annotations)
          && (s.setWorker.SetHolding? && s.setWorker.uid == s.notebook.value.uid ==> s.setWorker.replicas == 0))
  }

  lemma {:induction false} CourseKept(pass: Pass, left: seq<Stage>)
    requires OnCourse(pass, left)
    ensures left == [] ==> pass.succeeded == StagesOf(pass.inject, pass.settings)
    ensures left != [] ==> OnCourse(pass.(succeeded := pass.succeeded + [left[0]]), left[1..])
  {
    if left != [] { assert pass.succeeded + [left[0]] + left[1..] == pass.succeeded + left; }
  }

  lemma {:induction false} StepHolds(s: State, e: Event)
    requires Inv(s) && Legal(s, e)
    ensures Inv(Next(s, e))
  {
    hide StagesOf;
    if e.OdhCall? && s.odh.OdhWorking? { CourseKept(s.odh.pass, s.odh.left); }
    if e.OdhRead? && s.odh.OdhIdle? && s.notebook.Some? {
      var stages := StagesOf(InjectionEnabled(s.notebook.value.annotations), e.settings);
      assert [] + stages == stages;
    }
  }

  lemma {:induction false} RunHolds(s: State, events: seq<Event>)
    requires Inv(s) && LegalRun(s, events)
    ensures Inv(Run(s, events))
    decreases |events|
  {
    hide Inv, Next, Legal;
    if events != [] {
      StepHolds(s, events[0]);
      RunHolds(Next(s, events[0]), events[1..]);
    }
  }

  /** Everything a workbench needs has been reconciled: what it mounts, who may reach it, and its route,
      with the proxy in front of it if that is asked for; and what stems from the other mode is gone. */
  predicate AllReconciled(pass: Pass) {
    && Config in pass.succeeded && Certificates in pass.succeeded && Policies in pass.succeeded
    && RuntimeImages in pass.succeeded && Grant in pass.succeeded && NoConflictingRoute in pass.succeeded
    && (pass.settings.pipelineRbac ==> RoleBindings in pass.succeeded)
    && (pass.settings.pipelineSecret ==> ElyraSecret in pass.succeeded)
    && (if pass.inject then
          && ServiceAccount in pass.succeeded && ClusterRoleBinding in pass.succeeded && ProxyConfig in pass.succeeded
          && ProxyService in pass.succeeded && ProxyRoute in pass.succeeded && ProxyTls in pass.succeeded
        else NoClusterRoleBinding in pass.succeeded && PlainRoute in pass.succeeded)
    && (pass.settings.mlflow ==> MlflowBinding in pass.succeeded)
  }

  lemma {:induction false} CompletedStages(nb: Notebook)
    requires Completed(nb)
    ensures AllReconciled(nb.finished.value)
  {
    hide StagesOf;
    var p := nb.finished.value;
    CommonStages(p);
    if p.inject { ProxyStages(p); } else { PlainStages(p); }
  }

  lemma {:induction false} CommonStages(p: Pass)
    ensures var stages := StagesOf(p.inject, p.settings);
      && Config in stages && Certificates in stages && Policies in stages && RuntimeImages in stages
      && (p.settings.pipelineRbac ==> RoleBindings in stages) && (p.settings.pipelineSecret ==> ElyraSecret in stages)
      && Grant in stages && NoConflictingRoute in stages && (p.settings.mlflow ==> MlflowBinding in stages)
  {
    var stages := StagesOf(p.inject, p.settings);
    assert stages[0] == Config && stages[1] == Certificates && stages[2] == Policies && stages[3] == RuntimeImages;
    var e := 4 + if p.settings.pipelineRbac then 1 else 0;
    var k := e + if p.settings.pipelineSecret then 1 else 0;
    assert p.settings.pipelineRbac ==> stages[4] == RoleBindings;
    assert p.settings.pipelineSecret ==> stages[e] == ElyraSecret;
    assert stages[k] == Grant && stages[k + 1] == NoConflictingRoute;
    assert p.settings.mlflow ==> stages[|stages| - 1] == MlflowBinding;
  }

  lemma {:induction false} ProxyStages(p: Pass)
    requires p.inject
    ensures forall x :: x in {ServiceAccount, ClusterRoleBinding, ProxyConfig, ProxyService, ProxyRoute, ProxyTls} ==>
      x in StagesOf(p.inject, p.settings)
  {
    var stages := StagesOf(p.inject, p.settings);
    var k := 6 + (if p.settings.pipelineRbac then 1 else 0) + if p.settings.pipelineSecret then 1 else 0;
    assert stages[k] == ServiceAccount && stages[k + 1] == ClusterRoleBinding && stages[k + 2] == ProxyConfig;
    assert stages[k + 3] == ProxyService && stages[k + 4] == ProxyRoute && stages[k + 5] == ProxyTls;
  }

  lemma {:induction false} PlainStages(p: Pass)
    requires !p.inject
    ensures NoClusterRoleBinding in StagesOf(p.inject, p.settings) && PlainRoute in StagesOf(p.inject, p.settings)
  {
    var stages := StagesOf(p.inject, p.settings);
    var k := 6 + (if p.settings.pipelineRbac then 1 else 0) + if p.settings.pipelineSecret then 1 else 0;
    assert stages[k] == NoClusterRoleBinding && stages[k + 1] == PlainRoute;
  }

  /** Over every run, with stages failing and patches lost at any point and notebooks recreated under
      the same name: a StatefulSet with replicas belongs to a notebook for which some ODH reconcile
      got through every stage, so that everything the workbench needs was in place. */
  lemma {:induction false} LockHoldsDown(events: seq<Event>)
    requires LegalRun(EMPTY, events)
    ensures var s := Run(EMPTY, events);
      s.notebook.Some? && s.notebook.value.uid in s.sets && s.sets[s.notebook.value.uid] != 0 ==>
        Completed(s.notebook.value) && AllReconciled(s.notebook.value.finished.value)
  {
    hide Next, Run, StagesOf, AllReconciled;
    assert Inv(EMPTY);
    RunHolds(EMPTY, events);
    var s := Run(EMPTY, events);
    if s.notebook.Some? && s.notebook.value.uid in s.sets && s.sets[s.notebook.value.uid] != 0 {
      CompletedStages(s.notebook.value);
    }
  }

  /** Once the lock is off the next pass of the notebook-controller starts the workbench. */
  lemma {:induction false} UnlockedStarts(s: State)
    requires s.notebook.Some? && s.odh.OdhWorking? && s.odh.left == [] && s.odh.locked && s.setWorker.SetIdle?
    ensures var t := Next(Next(Next(s, OdhCall(true, true)), SetRead), SetWrite(true));
      s.notebook.value.uid in t.sets && t.sets[s.notebook.value.uid] == 1
  {
    var s1 := Next(s, OdhCall(true, true));
    assert STOP_ANNOTATION !in s1.notebook.value.annotations;
  }

  // ----- One pass ----------------------------------------------------------------------------------------

  function Calls(succeed: seq<bool>): seq<Event> {
    if succeed == [] then [] else [OdhCall(succeed[0], succeed[0])] + Calls(succeed[1..])
  }

  /** A worker that has not seen the lock leaves the annotations alone, whatever becomes of its calls. */
  lemma {:induction false} CallsKeepStop(s: State, succeed: seq<bool>)
    requires s.notebook.Some? && (s.odh.OdhWorking? ==> !s.odh.locked)
    ensures var t := Run(s, Calls(succeed));
      t.notebook.Some? && t.notebook.value.annotations == s.notebook.value.annotations
    decreases |succeed|
  {
    if succeed != [] {
      var e := OdhCall(succeed[0], succeed[0]);
      assert Calls(succeed)[1..] == Calls(succeed[1..]);
      CallsKeepStop(Next(s, e), succeed[1..]);
    }
  }

  /** With every stage succeeding the worker comes to the unlock. */
  lemma {:induction false} CallsComeThrough(s: State, succeed: seq<bool>)
    requires s.notebook.Some? && s.odh.OdhWorking? && |succeed| == |s.odh.left| + 1
    requires forall i :: 0 <= i < |succeed| ==> succeed[i]
    ensures var t := Run(s, Calls(succeed));
      && t.notebook.Some? && t.odh.OdhIdle?
      && t.notebook.value.finished == Some(s.odh.pass.(succeeded := s.odh.pass.succeeded + s.odh.left))
      && t.notebook.value.annotations ==
         s.notebook.value.annotations - (if s.odh.locked then {STOP_ANNOTATION} else {})
    decreases |succeed|
  {
    var e := OdhCall(succeed[0], succeed[0]);
    var s1, w := Next(s, e), s.odh;
    assert Calls(succeed)[1..] == Calls(succeed[1..]);
    if w.left != [] {
      assert w.pass.succeeded + [w.left[0]] + w.left[1..] == w.pass.succeeded + w.left;
      CallsComeThrough(s1, succeed[1..]);
    } else {
      assert Calls(succeed[1..]) == [] && w.pass.succeeded + [] == w.pass.succeeded;
      var annotations := s.notebook.value.annotations;
      assert annotations - {} == annotations;
    }
  }

  /** So many stages succeed, and then the unlock. */
  predicate ThroughTo(succeed: seq<bool>, stages: nat) {
    |succeed| == stages + 1 && forall i :: 0 <= i < |succeed| ==> succeed[i]
  }

  /** One reconcile, nobody else writing, takes the lock off once all its stages have succeeded, and no stop
      annotation that is not the lock, whatever succeeds. */
  lemma {:induction false} OnlyTheLockComesOff(s: State, settings: Settings, succeed: seq<bool>)
    requires s.notebook.Some? && s.odh.OdhIdle?
    ensures var nb := s.notebook.value;
      var t := Run(s, [OdhRead(settings)] + Calls(succeed));
      var locked := "kubeflow-resource-stopped" in nb.annotations
        && nb.annotations["kubeflow-resource-stopped"] == "odh-notebook-controller-lock";
      && t.notebook.Some?
      && (!locked ==> t.notebook.value.annotations == nb.annotations)
      && (ThroughTo(succeed, |StagesOf(InjectionEnabled(nb.annotations), settings)|) ==>
          && Completed(t.notebook.value)
          && t.notebook.value.annotations ==
             nb.annotations - (if locked then {"kubeflow-resource-stopped"} else {}))
  {
    hide StagesOf;
    var nb, s1 := s.notebook.value, Next(s, OdhRead(settings));
    var stages := StagesOf(InjectionEnabled(nb.annotations), settings);
    assert ([OdhRead(settings)] + Calls(succeed))[1..] == Calls(succeed);
    assert [] + stages == stages;
    if !Locked(nb.annotations) { CallsKeepStop(s1, succeed); }
    if ThroughTo(succeed, |stages|) { CallsComeThrough(s1, succeed); }
    CallsKeepNotebook(s1, succeed);
  }

  lemma {:induction false} CallsKeepNotebook(s: State, succeed: seq<bool>)
    requires s.notebook.Some?
    ensures Run(s, Calls(succeed)).notebook.Some?
    decreases |succeed|
  {
    if succeed != [] {
      assert Calls(succeed)[1..] == Calls(succeed[1..]);
      CallsKeepNotebook(Next(s, OdhCall(succeed[0], succeed[0])), succeed[1..]);
    }
  }
}
