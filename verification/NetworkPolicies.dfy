/** NetworkPolicies and who owns them: adopting, repairing, and keeping hands off. */
module NetworkPolicies {
  import opened Sequences
  import opened PodModel
  import Deletion

  datatype ApiVersion = GroupVersion(group: string, version: string) | Malformed(text: string)
  datatype OwnerRef = OwnerRef(api: ApiVersion, kind: string, name: string, uid: string, controller: bool)
  datatype Policy = Policy(labels: map<string, string>, spec: string, owners: seq<OwnerRef>)
  datatype Owner = Owner(name: string, uid: string)

  const KUBEFLOW_GROUP := "kubeflow.org"
  const NOTEBOOK_KIND := "Notebook"
  const SUFFIXES: seq<string> := ["-ctrl-np", "-kube-rbac-proxy-np", "-egress-np"]

  function ControllerRef(nb: Owner): OwnerRef {
    OwnerRef(GroupVersion(KUBEFLOW_GROUP, "v1"), NOTEBOOK_KIND, nb.name, nb.uid, true)
  }

  function IsController(): OwnerRef -> bool { (r: OwnerRef) => r.controller }
  function NotController(): OwnerRef -> bool { (r: OwnerRef) => !r.controller }

  /** Same group, kind and name; version and UID do not matter. */
  function NamesNotebook(nb: Owner): OwnerRef -> bool {
    (r: OwnerRef) => r.api.GroupVersion? && r.api.group == KUBEFLOW_GROUP && r.kind == NOTEBOOK_KIND
      && r.name == nb.name
  }

  function Elsewhere(nb: Owner): OwnerRef -> bool { (r: OwnerRef) => !NamesNotebook(nb)(r) }

  function ControllerOf(owners: seq<OwnerRef>): Option<OwnerRef> {
    var k := First(owners, IsController());
    if k < |owners| then Some(owners[k]) else None
  }

  predicate KubeflowNotebook(r: OwnerRef) {
    && r.kind == NOTEBOOK_KIND && r.api.GroupVersion? && r.api.group == KUBEFLOW_GROUP
    && r.api.version in ["v1", "v1beta1", "v1alpha1"]
  }

  predicate ControlledBy(owners: seq<OwnerRef>, nb: Owner) {
    ControllerOf(owners).Some? && ControllerOf(owners).value.uid == nb.uid
  }

  /** Controlled by something else than this notebook or a former one of its name. */
  predicate Foreign(owners: seq<OwnerRef>, nb: Owner) {
    && !ControlledBy(owners, nb) && ControllerOf(owners).Some?
    && (!KubeflowNotebook(ControllerOf(owners).value) || ControllerOf(owners).value.name != nb.name)
  }

  /** The owner references after adoption. */
  function Adopted(owners: seq<OwnerRef>, nb: Owner): seq<OwnerRef> {
    if ControlledBy(owners, nb) then owners
    else Upsert(if ControllerOf(owners).Some? then Sel(owners, NotController()) else owners, NamesNotebook(nb),
      ControllerRef(nb))
  }

  function Repaired(p: Policy, desired: Policy, nb: Owner): Policy {
    desired.(owners := Adopted(p.owners, nb))
  }

  // ----- In place --------------------------------------------------------------------------------

  /** Filtering onto the front of the slice's own array. */
  method DropControllers(a: array<OwnerRef>) returns (len: nat)
    modifies a
    ensures len <= a.Length && a[..len] == Sel(old(a[..]), NotController())
  {
    ghost var s := a[..];
    len := 0;
    for i := 0 to a.Length
      invariant len <= i && a[..len] == Sel(s[..i], NotController())
      invariant forall j :: i <= j < a.Length ==> a[j] == s[j]
    {
      SelSnoc(s, i, NotController());
      if a[i].controller { continue; }
      a[len] := a[i];
      len := len + 1;
    }
    assert s[..a.Length] == s;
  }

  /** Take control of a policy nobody controls. */
  method SetControllerReference(owners: seq<OwnerRef>, nb: Owner) returns (r: seq<OwnerRef>)
    requires ControllerOf(owners).None?
    ensures r == Upsert(owners, NamesNotebook(nb), ControllerRef(nb))
  {
    for i := 0 to |owners|
      invariant forall j :: 0 <= j < i ==> !NamesNotebook(nb)(owners[j])
    {
      if NamesNotebook(nb)(owners[i]) {
        FirstIs(owners, NamesNotebook(nb), i);
        return owners[i := ControllerRef(nb)];
      }
    }
    FirstIs(owners, NamesNotebook(nb), |owners|);
    return owners + [ControllerRef(nb)];
  }

  lemma {:induction false} NoControllersLeft(owners: seq<OwnerRef>)
    ensures ControllerOf(Sel(owners, NotController())).None?
  {
    var left := Sel(owners, NotController());
    if ControllerOf(left).Some? {
      var k := First(left, IsController());
      SelSound(owners, NotController(), left[k]);
    }
  }

  /** Adoption of a policy that is there; None on an ownership conflict. */
  method Adopt(owners: seq<OwnerRef>, nb: Owner) returns (r: Option<seq<OwnerRef>>)
    ensures r == if Foreign(owners, nb) then None else Some(Adopted(owners, nb))
  {
    if ControlledBy(owners, nb) { return Some(owners); }
    var left := owners;
    var controllerRef := ControllerOf(owners);
    if controllerRef.Some? {
      if !KubeflowNotebook(controllerRef.value) || controllerRef.value.name != nb.name { return None; }
      var a := new OwnerRef[|owners|](i requires 0 <= i < |owners| => owners[i]);
      assert a[..] == owners;
      var len := DropControllers(a);
      left := a[..len];
      NoControllersLeft(owners);
    }
    left := SetControllerReference(left, nb);
    return Some(left);
  }

  // ----- The store ---------------------------------------------------------------------------------

  class PolicyStore {
    const nb: Owner
    const replies: nat -> Deletion.Reply
    var calls: nat
    var policies: map<string, Policy>

    constructor (nb: Owner, r: nat -> Deletion.Reply, policies: map<string, Policy>)
      ensures this.nb == nb && replies == r && calls == 0 && this.policies == policies
    {
      this.nb, replies, calls := nb, r, 0;
      this.policies := policies;
    }

    predicate Clean(from: nat)
      reads this`calls
    {
      forall c :: from <= c < calls ==> replies(c) == Deletion.Ok
    }

    method Call() returns (r: Deletion.Reply)
      modifies `calls
      ensures r == replies(old(calls)) && calls == old(calls) + 1
    {
      r := replies(calls);
      calls := calls + 1;
    }

    /** Repair of a policy that is there, again on a conflict, at most five times. */
    method ReconcileExisting(name: string, desired: Policy) returns (ok: bool)
      requires name in policies
      modifies `calls, `policies
      ensures calls >= old(calls)
      ensures policies == old(policies) || policies == old(policies)[name := Repaired(old(policies)[name], desired, nb)]
      ensures ok ==>
        !Foreign(old(policies)[name].owners, nb)
        && policies == old(policies)[name := Repaired(old(policies)[name], desired, nb)]
      ensures Foreign(old(policies)[name].owners, nb) ==> !ok && policies == old(policies)
      ensures !ok && Clean(old(calls)) ==> Foreign(old(policies)[name].owners, nb)
      ensures !Foreign(old(policies)[name].owners, nb) ==>
        (ok <==> if UpToDate(old(policies)[name], desired, nb) then replies(old(calls)) == Deletion.Ok
                 else Deletion.WriteAnswered(replies, old(calls), 5))
    {
      hide Foreign, Adopted, ControlledBy;
      ghost var start := calls;
      for attempt := 0 to 5
        invariant policies == old(policies) && calls >= start && (attempt > 0 ==> !Clean(start))
          && (attempt > 0 ==> !Foreign(policies[name].owners, nb))
        invariant if attempt > 0 then !UpToDate(policies[name], desired, nb) else calls == start
        invariant Deletion.WriteAnswered(replies, start, 5) <==> Deletion.WriteAnswered(replies, calls, 5 - attempt)
      {
        var r := Call();
        assert replies(calls - 1) == r;
        if r != Deletion.Ok { return false; }
        var found := policies[name];
        var owners := Adopt(found.owners, nb);
        if owners.None? { return false; }
        if ControlledBy(found.owners, nb) && found.labels == desired.labels && found.spec == desired.spec {
          UpToDateIsRepaired(found, desired, nb);
          assert policies == policies[name := Repaired(found, desired, nb)];
          return true;
        }
        r := Call();
        assert replies(calls - 1) == r;
        if r == Deletion.Ok || r == Deletion.LostLate {
          policies := policies[name := desired.(owners := owners.value)];
        }
        if r != Deletion.Conflict { return r == Deletion.Ok; }
      }
      return false;
    }

    /** One required policy: created, or repaired. `intruder` is what another actor puts in its place
        between looking and creating. */
    method ReconcileNetworkPolicy(name: string, desired: Policy, intruder: Option<Policy>) returns (ok: bool)
      modifies `calls, `policies
      ensures calls >= old(calls)
      ensures forall n :: n != name ==>
        (n in policies <==> n in old(policies)) && (n in policies ==> policies[n] == old(policies)[n])
      ensures Handled(old(policies), policies, name, intruder, desired, nb, ok)
      ensures !ok && Clean(old(calls)) ==> Conflicting(old(policies), name, intruder, nb)
    {
      ghost var start := calls;
      var r := Call();
      assert replies(calls - 1) == r;
      if r != Deletion.Ok { return false; }
      if name !in policies {
        if intruder.Some? { policies := policies[name := intruder.value]; }
        r := Call();
        assert replies(calls - 1) == r;
        if name !in policies {
          if r == Deletion.Ok || r == Deletion.LostLate {
            policies := policies[name := desired.(owners := [ControllerRef(nb)])];
          }
          return r == Deletion.Ok;
        }
        if r != Deletion.Ok { return false; }
      }
      ok := ReconcileExisting(name, desired);
    }

    /** All three policies, each tried whatever became of the others. */
    method ReconcileAllNetworkPolicies(desired: seq<Policy>, intruders: seq<Option<Policy>>)
      returns (done: seq<bool>, ok: bool)
      requires |desired| == |intruders| == 3
      modifies `calls, `policies
      ensures |done| == 3 && (ok <==> done[0] && done[1] && done[2])
      ensures forall i :: 0 <= i < 3 ==>
        Handled(old(policies), policies, PolicyName(nb, i), intruders[i], desired[i], nb, done[i])
      ensures Clean(old(calls)) ==> forall i :: 0 <= i < 3 && !done[i] ==>
        Conflicting(old(policies), PolicyName(nb, i), intruders[i], nb)
    {
      hide PolicyName, Repaired, Foreign;
      NamesApart(nb);
      ghost var before := policies;
      done, ok := [], true;
      for i := 0 to 3
        invariant |done| == i && calls >= old(calls)
        invariant ok <==> false !in done
        invariant forall j :: i <= j < 3 ==> Same(before, policies, PolicyName(nb, j))
        invariant forall j :: 0 <= j < i ==>
          Handled(before, policies, PolicyName(nb, j), intruders[j], desired[j], nb, done[j])
        invariant Clean(old(calls)) ==> forall j :: 0 <= j < i && !done[j] ==>
          Conflicting(before, PolicyName(nb, j), intruders[j], nb)
      {
        var settled := ReconcileNetworkPolicy(PolicyName(nb, i), desired[i], intruders[i]);
        done := done + [settled];
        ok := ok && settled;
      }
      assert false in done <==> !done[0] || !done[1] || !done[2];
    }
  }

  predicate UpToDate(found: Policy, desired: Policy, nb: Owner) {
    ControlledBy(found.owners, nb) && found.labels == desired.labels && found.spec == desired.spec
  }

  lemma {:induction false} UpToDateIsRepaired(found: Policy, desired: Policy, nb: Owner)
    requires UpToDate(found, desired, nb)
    ensures Repaired(found, desired, nb) == found
  {}

  function PolicyName(nb: Owner, i: nat): string
    requires i < 3
  {
    nb.name + SUFFIXES[i]
  }

  predicate Same(a: map<string, Policy>, b: map<string, Policy>, n: string) {
    (n in a <==> n in b) && (n in a ==> a[n] == b[n])
  }

  /** As it was, or as another actor put it there in the meantime. */
  predicate LeftAlone(before: map<string, Policy>, after: map<string, Policy>, n: string, intruder: Option<Policy>) {
    Same(before, after, n) || (n !in before && n in after && intruder == Some(after[n]))
  }

  /** A policy handled successfully is the repaired one, or a new one of this notebook's. Where a call
      failed it is that, or left alone; a foreign one, also one that came in between, is left alone
      and reported. */
  ghost predicate Handled(before: map<string, Policy>, after: map<string, Policy>, n: string, intruder: Option<Policy>,
                          desired: Policy, nb: Owner, done: bool) {
    var reached := n in after && after[n] == Target(Found(before, n, intruder), desired, nb);
    && (done ==> reached)
    && (reached || LeftAlone(before, after, n, intruder))
    && (Conflicting(before, n, intruder, nb) ==> !done && LeftAlone(before, after, n, intruder))
  }

  predicate Conflicting(before: map<string, Policy>, n: string, intruder: Option<Policy>, nb: Owner) {
    Found(before, n, intruder).Some? && Foreign(Found(before, n, intruder).value.owners, nb)
  }

  function Target(found: Option<Policy>, desired: Policy, nb: Owner): Policy {
    match found case Some(p) => Repaired(p, desired, nb) case None => desired.(owners := [ControllerRef(nb)])
  }

  /** What the reconcile finds under a name, in the end. */
  function Found(policies: map<string, Policy>, name: string, intruder: Option<Policy>): Option<Policy> {
    if name in policies then Some(policies[name]) else intruder
  }

  lemma {:induction false} NamesApart(nb: Owner)
    ensures forall i, j :: 0 <= i < j < 3 ==> PolicyName(nb, i) != PolicyName(nb, j)
  {
    var name := nb.name;
    assert |SUFFIXES[0]| == 8 && |SUFFIXES[1]| == 19 && |SUFFIXES[2]| == 10;
    assert |name + SUFFIXES[0]| == |name| + 8 && |name + SUFFIXES[1]| == |name| + 19
      && |name + SUFFIXES[2]| == |name| + 10;
  }

  // ----- What adoption comes to ------------------------------------------------------------------------

  /** Adoption ends with this notebook in control: as the only controller, unless it was in control
      beside others before. It keeps, in order, every owner that does not name this notebook, apart
      from stale controllers. */
  lemma {:induction false} AdoptionIsExact(owners: seq<OwnerRef>, nb: Owner)
    requires !Foreign(owners, nb)
    ensures var r := Adopted(owners, nb);
      && ControlledBy(r, nb)
      && (ControlledBy(owners, nb) ==> r == owners)
      && (!ControlledBy(owners, nb) ==> Sel(r, IsController()) == [ControllerRef(nb)])
      && (|Sel(r, IsController())| == 1 <==> !ControlledBy(owners, nb) || |Sel(owners, IsController())| == 1)
      && Sel(r, Elsewhere(nb)) == Sel(if ControlledBy(owners, nb) then owners else Sel(owners, NotController()),
        Elsewhere(nb))
  {
    SelFirst(owners, IsController());
    if !ControlledBy(owners, nb) {
      var left := Sel(owners, NotController());
      if ControllerOf(owners).None? { AllKept(owners); }
      NoControllersLeft(owners);
      SelFirst(left, IsController());
      UpsertController(left, nb);
      SelFirst(Adopted(owners, nb), IsController());
      UpsertOther(left, NamesNotebook(nb), ControllerRef(nb), Elsewhere(nb));
    }
  }

  lemma {:induction false} AllKept(owners: seq<OwnerRef>)
    requires ControllerOf(owners).None?
    ensures Sel(owners, NotController()) == owners
  {
    SelEverything(owners, NotController());
  }

  lemma {:induction false} SelEverything<T>(s: seq<T>, p: T -> bool)
    requires forall i :: 0 <= i < |s| ==> p(s[i])
    ensures Sel(s, p) == s
  {
    if s != [] { SelEverything(s[1..], p); }
  }

  lemma {:induction false} UpsertController(left: seq<OwnerRef>, nb: Owner)
    requires Sel(left, IsController()) == []
    ensures Sel(Upsert(left, NamesNotebook(nb), ControllerRef(nb)), IsController()) == [ControllerRef(nb)]
  {
    var k := First(left, NamesNotebook(nb));
    if k < |left| {
      SelSet(left, k, ControllerRef(nb), IsController());
      SelAround(left, k, IsController());
    } else {
      SelConcat(left, [ControllerRef(nb)], IsController());
      SelOne(ControllerRef(nb), IsController());
    }
  }

  /** A repaired policy needs no further repair. */
  lemma {:induction false} RepairedIsFinal(p: Policy, desired: Policy, nb: Owner)
    requires !Foreign(p.owners, nb)
    ensures Repaired(Repaired(p, desired, nb), desired, nb) == Repaired(p, desired, nb)
    ensures !Foreign(Repaired(p, desired, nb).owners, nb)
  {
    AdoptionIsExact(p.owners, nb);
  }

  // ----- Who keeps and who gets a policy ------------------------------------------------------------------

  /** The reference names this notebook, whatever version and UID. */
  predicate SaysNotebook(r: OwnerRef, nb: Owner) {
    r.api.GroupVersion? && r.api.group == "kubeflow.org" && r.kind == "Notebook" && r.name == nb.name
  }

  /** The reference at `k` is the one in control: the first that says so. */
  predicate InControl(owners: seq<OwnerRef>, k: nat) {
    k < |owners| && owners[k].controller && forall j :: 0 <= j < k ==> !owners[j].controller
  }

  /** Hands off: in control is neither this notebook nor one of its name in a version that is known. */
  ghost predicate HandsOff(owners: seq<OwnerRef>, nb: Owner) {
    exists k: nat :: InControl(owners, k) && owners[k].uid != nb.uid && !Predecessor(owners[k], nb)
  }

  predicate Predecessor(r: OwnerRef, nb: Owner) {
    SaysNotebook(r, nb) && r.api.version in {"v1", "v1beta1", "v1alpha1"}
  }

  lemma {:induction false} ForeignExactly(owners: seq<OwnerRef>, nb: Owner)
    ensures Foreign(owners, nb) <==> HandsOff(owners, nb)
    ensures ControlledBy(owners, nb) <==> exists k: nat :: InControl(owners, k) && owners[k].uid == nb.uid
  {
    var f := First(owners, IsController());
    if f < |owners| {
      assert InControl(owners, f);
      VersionsKnown(owners[f].api, nb);
    }
    forall k: nat | InControl(owners, k) ensures k == f { FirstIs(owners, IsController(), k); }
  }

  lemma {:induction false} VersionsKnown(api: ApiVersion, nb: Owner)
    ensures api.GroupVersion? ==>
      (api.version in ["v1", "v1beta1", "v1alpha1"] <==> api.version in {"v1", "v1beta1", "v1alpha1"})
  {
    var known := ["v1", "v1beta1", "v1alpha1"];
    assert known[0] == "v1" && known[1] == "v1beta1" && known[2] == "v1alpha1";
  }

  /** A policy of these owners under these names ends with the desired labels and rules. A policy controlled by this
      notebook keeps its owners; any other that is handled ends in this notebook's control, keeps every
      owner that is neither a controller nor this notebook, and gets no other. */
  lemma {:induction false} RepairOnKeys(p: Policy, desired: Policy, nb: Owner)
    requires !HandsOff(p.owners, nb)
    ensures var r := Repaired(p, desired, nb);
      var self := OwnerRef(GroupVersion("kubeflow.org", "v1"), "Notebook", nb.name, nb.uid, true);
      && r.labels == desired.labels && r.spec == desired.spec
      && (if exists k: nat :: InControl(p.owners, k) && p.owners[k].uid == nb.uid then r.owners == p.owners
          else
            && self in r.owners && (forall o <- r.owners :: o.controller ==> o == self)
            && (forall o <- p.owners :: !o.controller && !SaysNotebook(o, nb) ==> o in r.owners)
            && (forall o <- r.owners :: o == self || (o in p.owners && !o.controller)))
  {
    ForeignExactly(p.owners, nb);
    if !ControlledBy(p.owners, nb) { OwnersKept(p.owners, nb); }
  }

  lemma {:induction false} OwnersKept(owners: seq<OwnerRef>, nb: Owner)
    requires !ControlledBy(owners, nb) && !Foreign(owners, nb)
    ensures var r := Adopted(owners, nb);
      && ControllerRef(nb) in r && (forall o <- r :: o.controller ==> o == ControllerRef(nb))
      && (forall o <- owners :: !o.controller && !SaysNotebook(o, nb) ==> o in r)
      && (forall o <- r :: o == ControllerRef(nb) || (o in owners && !o.controller))
  {
    var left := if ControllerOf(owners).Some? then Sel(owners, NotController()) else owners;
    var r := Adopted(owners, nb);
    forall o ensures o in left <==> o in owners && !o.controller { LeftOver(owners, o); }
    var k := First(left, NamesNotebook(nb));
    assert r[if k < |left| then k else |left|] == ControllerRef(nb);
    forall o | o in left && !SaysNotebook(o, nb) ensures o in r {
      var i :| 0 <= i < |left| && left[i] == o;
      assert r[i] == o;
    }
  }

  lemma {:induction false} LeftOver(owners: seq<OwnerRef>, o: OwnerRef)
    ensures ControllerOf(owners).Some? ==> (o in Sel(owners, NotController()) <==> o in owners && !o.controller)
    ensures ControllerOf(owners).None? ==> (o in owners ==> !o.controller)
  {
    if o in Sel(owners, NotController()) { SelSound(owners, NotController(), o); }
    if o in owners {
      var i: nat :| i < |owners| && owners[i] == o;
      if !o.controller { SelWithin(owners, NotController(), i); }
      assert ControllerOf(owners).None? ==> !IsController()(owners[i]);
    }
  }

  lemma {:induction false} PolicyNames(nb: Owner)
    ensures PolicyName(nb, 0) == nb.name + "-ctrl-np" && PolicyName(nb, 1) == nb.name + "-kube-rbac-proxy-np"
    ensures PolicyName(nb, 2) == nb.name + "-egress-np"
  {}
}
