/** A notebook held in memory, edited field by field, and the loops the mutators edit its lists with. */
module NotebookObject {
  import opened Sequences
  import opened PodModel

  class Notebook {
    const name: string
    const namespace: string
    var labels: map<string, string>
    var annotations: map<string, string>
    var containers: seq<Container>
    var volumes: seq<Volume>
    var serviceAccountName: string
    var rest: PodRest
    var resourceVersion: nat

    constructor (m: Manifest, version: nat)
      ensures Value() == m && resourceVersion == version
    {
      name, namespace, labels, annotations := m.meta.name, m.meta.namespace, m.meta.labels, m.meta.annotations;
      containers, volumes := m.spec.containers, m.spec.volumes;
      serviceAccountName, rest := m.spec.serviceAccountName, m.spec.rest;
      resourceVersion := version;
    }

    function Head(): Meta
      reads this
    {
      Meta(name, namespace, labels, annotations)
    }

    function Spec(): PodSpec
      reads this`containers, this`volumes, this`serviceAccountName, this`rest
    {
      PodSpec(containers, volumes, serviceAccountName, rest)
    }

    function Value(): Manifest
      reads this
    {
      Manifest(Head(), Spec())
    }

    method SetSpec(spec: PodSpec)
      modifies `containers, `volumes, `serviceAccountName, `rest
      ensures Spec() == spec
    {
      containers, volumes := spec.containers, spec.volumes;
      serviceAccountName, rest := spec.serviceAccountName, spec.rest;
    }
  }

  method Find<T>(s: seq<T>, p: T -> bool) returns (k: nat)
    ensures k == First(s, p)
  {
    k := 0;
    while k < |s|
      invariant k <= |s| && forall j :: 0 <= j < k ==> !p(s[j])
    {
      if p(s[k]) { break; }
      k := k + 1;
    }
    FirstIs(s, p, k);
  }

  method ReplaceOrAppend<T>(s: seq<T>, p: T -> bool, x: T) returns (r: seq<T>)
    ensures r == Upsert(s, p, x)
  {
    r := s;
    var present := false;
    for index := 0 to |s|
      invariant r == s && !present && forall j :: 0 <= j < index ==> !p(s[j])
    {
      if p(s[index]) {
        r := r[index := x];
        present := true;
        FirstIs(s, p, index);
        break;
      }
    }
    if !present {
      r := r + [x];
      FirstIs(s, p, |s|);
    }
  }

  method AppendUnlessPresent<T>(s: seq<T>, p: T -> bool, x: T) returns (r: seq<T>)
    ensures r == AppendIfAbsent(s, p, x)
  {
    var index := Find(s, p);
    r := if index < |s| then s else s + [x];
  }

  method CutFirst<T>(s: seq<T>, p: T -> bool) returns (r: seq<T>)
    ensures r == RemoveFirst(s, p)
  {
    r := s;
    for i := 0 to |s|
      invariant r == s && forall j :: 0 <= j < i ==> !p(s[j])
    {
      if p(s[i]) {
        FirstIs(s, p, i);
        return s[..i] + s[i + 1..];
      }
    }
    FirstIs(s, p, |s|);
  }
}
