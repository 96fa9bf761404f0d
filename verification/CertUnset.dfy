/** Taking the trusted certificates out of a notebook again. The controller deletes from slices
    while it ranges over them; this file says what that leaves, when it panics, and when it undoes
    the injection. */
module CertUnset {
  import opened Sequences
  import opened PodModel
  import opened Mutators
  import opened NotebookObject
  import Workbench

  // ----- Deleting while ranging ------------------------------------------------------------

  /** What is left: the element after a deleted one is never looked at. */
  function Survive<T>(s: seq<T>, p: T -> bool): seq<T> {
    if s == [] then []
    else if !p(s[0]) then [s[0]] + Survive(s[1..], p)
    else if |s| == 1 then []
    else [s[1]] + Survive(s[2..], p)
  }

  /** The stale last element is looked at again after every deletion; deleting it runs past the end. */
  ghost predicate Panics<T>(s: seq<T>, p: T -> bool) {
    s != [] && p(s[|s| - 1]) && exists k :: 0 <= k < |s| - 1 && p(s[k])
  }

  /** Where the loop stands: `a` holds what is kept, what is still to come, and stale copies of the
      last element. */
  ghost predicate Ranging<T>(a: seq<T>, s: seq<T>, len: nat, index: nat, p: T -> bool) {
    var n := |s|;
    && |a| == n && len <= n && index <= n
    && (forall j :: index <= j < len ==> a[j] == s[j + (n - len)])
    && (forall j :: len <= j < n ==> a[j] == s[n - 1])
    && (if index < len then a[..index] + Survive(s[index + (n - len)..], p) == Survive(s, p)
      else a[..len] == Survive(s, p))
    && (len == n ==> forall j :: 0 <= j < index ==> !p(s[j]))
    && (len < n && index < n ==> exists k :: 0 <= k < n - 1 && p(s[k]))
    && (len < n && index == n ==> !Panics(s, p))
  }

  lemma {:induction false} RangingKeep<T>(a: seq<T>, s: seq<T>, len: nat, index: nat, p: T -> bool)
    requires Ranging(a, s, len, index, p) && index < |s| && !p(a[index])
    ensures Ranging(a, s, len, index + 1, p)
  {
    var n := |s|;
    if index < len {
      var at := index + (n - len);
      assert s[at..][0] == s[at] == a[index] && s[at..][1..] == s[at + 1..];
      assert a[..index + 1] == a[..index] + [a[index]];
      if index + 1 == len { assert s[at + 1..] == []; }
    }
  }

  /** `b` is `a` with the elements after `index`, up to `len`, moved down by one. */
  ghost predicate Shifted<T>(a: seq<T>, b: seq<T>, index: nat, len: nat) {
    && |b| == |a| && index < len <= |a|
    && (forall j :: 0 <= j < index ==> b[j] == a[j])
    && (forall j :: index <= j < len - 1 ==> b[j] == a[j + 1])
    && (forall j :: len - 1 <= j < |a| ==> b[j] == a[j])
  }

  lemma {:induction false} RangingCut<T>(a: seq<T>, s: seq<T>, len: nat, index: nat, p: T -> bool, b: seq<T>)
    requires Ranging(a, s, len, index, p) && index < len && p(a[index]) && Shifted(a, b, index, len)
    ensures Ranging(b, s, len - 1, index + 1, p)
  {
    var n, at := |s|, index + (|s| - len);
    assert a[index] == s[at];
    assert a[len - 1] == s[n - 1];
    CutKept(a, s, len, index, p, b);
    forall j | index + 1 <= j < len - 1 ensures b[j] == s[j + (n - (len - 1))] {
      assert b[j] == a[j + 1] == s[j + 1 + (n - len)];
    }
    if len - 1 < n && index + 1 < n && at == n - 1 { assert len < n; }
  }

  lemma {:induction false} CutKept<T>(a: seq<T>, s: seq<T>, len: nat, index: nat, p: T -> bool, b: seq<T>)
    requires Ranging(a, s, len, index, p) && index < len && p(a[index]) && Shifted(a, b, index, len)
    ensures if index + 1 < len - 1 then b[..index + 1] + Survive(s[index + 1 + (|s| - (len - 1))..], p) == Survive(s, p)
            else b[..len - 1] == Survive(s, p)
  {
    var at := index + (|s| - len);
    var rest := s[at..];
    assert rest[0] == s[at] == a[index];
    assert b[..index] == a[..index];
    if index < len - 1 {
      assert b[index] == a[index + 1] == s[index + 1 + (|s| - len)] == s[at + 1];
      assert rest[1] == s[at + 1] && rest[2..] == s[at + 2..];
      assert b[..index + 1] == b[..index] + [b[index]];
      assert Survive(s, p) == a[..index] + ([b[index]] + Survive(s[at + 2..], p));
      if index + 1 == len - 1 { assert s[at + 2..] == []; }
    } else {
      assert |rest| == 1;
    }
  }

  /** append(slice[:index], slice[index+1:]...) on the slice's own array. */
  method ShiftDown<T>(a: array<T>, index: nat, len: nat)
    requires index < len <= a.Length
    modifies a
    ensures Shifted(old(a[..]), a[..], index, len)
  {
    ghost var before := a[..];
    for j := index to len - 1
      invariant forall i :: 0 <= i < index ==> a[i] == before[i]
      invariant forall i :: index <= i < j ==> a[i] == before[i + 1]
      invariant forall i :: j <= i < a.Length ==> a[i] == before[i]
    {
      a[j] := a[j + 1];
    }
  }

  /** The loop over a slice of the first `n` elements of `a`; a panic leaves no slice. */
  method DeleteWhileRanging<T>(a: array<T>, n: nat, p: T -> bool) returns (panicked: bool, len: nat)
    requires n <= a.Length
    modifies a
    ensures panicked <==> Panics(old(a[..n]), p)
    ensures !panicked ==> len <= n && a[..len] == Survive(old(a[..n]), p)
  {
    hide Ranging, Survive, Panics, Shifted;
    ghost var s := a[..n];
    len := n;
    RangingStart(s, p);
    for index := 0 to n
      invariant len <= n && Ranging(a[..n], s, len, index, p)
    {
      ghost var before, all := a[..n], a[..];
      assert before[index] == a[index];
      if p(a[index]) {
        if index + 1 > len {
          RangingStale(before, s, len, index, p);
          return true, len;
        }
        ShiftDown(a, index, len);
        ShiftedWithin(all, a[..], n, index, len);
        assert all[..n] == before && a[..][..n] == a[..n];
        RangingCut(before, s, len, index, p, a[..n]);
        len := len - 1;
      } else {
        RangingKeep(before, s, len, index, p);
      }
    }
    RangingEnd(a[..n], s, len, p);
    assert a[..n][..len] == a[..len];
    return false, len;
  }

  lemma {:induction false} ShiftedWithin<T>(a: seq<T>, b: seq<T>, n: nat, index: nat, len: nat)
    requires len <= n <= |a| && Shifted(a, b, index, len)
    ensures n <= |b| && Shifted(a[..n], b[..n], index, len)
  {}

  lemma {:induction false} RangingStart<T>(s: seq<T>, p: T -> bool)
    ensures Ranging(s, s, |s|, 0, p)
  {
    assert s[0..] == s && s[..0] == [];
  }

  lemma {:induction false} RangingStale<T>(a: seq<T>, s: seq<T>, len: nat, index: nat, p: T -> bool)
    requires Ranging(a, s, len, index, p) && len <= index < |s| && p(a[index])
    ensures Panics(s, p)
  {}

  lemma {:induction false} RangingEnd<T>(a: seq<T>, s: seq<T>, len: nat, p: T -> bool)
    requires Ranging(a, s, len, |s|, p)
    ensures !Panics(s, p) && a[..len] == Survive(s, p)
  {
    if len == |s| { SurviveNone(s, p); assert a == s; assert a[..len] == a; }
  }

  function Not<T>(p: T -> bool): T -> bool { (x: T) => !p(x) }

  ghost predicate Adjacent<T>(s: seq<T>, p: T -> bool) {
    exists i :: 0 <= i < |s| - 1 && p(s[i]) && p(s[i + 1])
  }

  lemma {:induction false} ConsSame<T>(x: T, a: seq<T>, b: seq<T>)
    ensures [x] + a == [x] + b <==> a == b
  {
    assert ([x] + a)[1..] == a && ([x] + b)[1..] == b;
  }

  /** The deletion takes out every match, no more and no less, exactly when no two matches are neighbours. */
  lemma {:induction false} SurviveIsFilter<T>(s: seq<T>, p: T -> bool)
    ensures Survive(s, p) == Sel(s, Not(p)) <==> !Adjacent(s, p)
    decreases |s|
  {
    if s == [] || (|s| == 1 && p(s[0])) {
      assert s != [] ==> s[1..] == [];
    } else if !p(s[0]) {
      SurviveIsFilter(s[1..], p);
      AdjacentTail(s, p);
      ConsSame(s[0], Survive(s[1..], p), Sel(s[1..], Not(p)));
    } else if p(s[1]) {
      assert p(s[0]) && p(s[0 + 1]);
      SelSays(s, p, Survive(s, p));
    } else {
      SkipOne(s, p);
      SurviveIsFilter(s[2..], p);
      ConsSame(s[1], Survive(s[2..], p), Sel(s[2..], Not(p)));
    }
  }

  lemma {:induction false} SkipOne<T>(s: seq<T>, p: T -> bool)
    requires |s| > 1 && p(s[0]) && !p(s[1])
    ensures Sel(s, Not(p)) == [s[1]] + Sel(s[2..], Not(p))
    ensures Adjacent(s, p) <==> Adjacent(s[2..], p)
  {
    assert s[1..][1..] == s[2..] && s[1..][0] == s[1];
    assert Sel(s, Not(p)) == Sel(s[1..], Not(p));
    AdjacentTail(s, p);
    AdjacentTail(s[1..], p);
  }

  lemma {:induction false} AdjacentTail<T>(s: seq<T>, p: T -> bool)
    requires s != [] && (p(s[0]) ==> |s| > 1 && !p(s[1]))
    ensures Adjacent(s, p) <==> Adjacent(s[1..], p)
  {
    if i :| 0 <= i < |s| - 1 && p(s[i]) && p(s[i + 1]) {
      assert i > 0 && s[1..][i - 1] == s[i] && s[1..][i - 1 + 1] == s[i + 1];
    }
    if i :| 0 <= i < |s[1..]| - 1 && p(s[1..][i]) && p(s[1..][i + 1]) {
      assert s[1..][i] == s[i + 1] && s[1..][i + 1] == s[i + 1 + 1];
    }
  }

  /** A list with a match in it is no selection of non-matches. */
  lemma {:induction false} SelSays<T>(s: seq<T>, p: T -> bool, r: seq<T>)
    requires r != [] && p(r[0])
    ensures Sel(s, Not(p)) != r
  {
    if Sel(s, Not(p)) == r { SelSound(s, Not(p), r[0]); }
  }

  // ----- What a deletion does to the matches -------------------------------------------------

  /** A match goes, if there is any. */
  lemma {:induction false} SurviveFewer<T>(s: seq<T>, p: T -> bool)
    ensures |Sel(Survive(s, p), p)| <= |Sel(s, p)|
    ensures Sel(s, p) != [] ==> |Sel(Survive(s, p), p)| < |Sel(s, p)|
    decreases |s|
  {
    if s == [] {
    } else if !p(s[0]) {
      SurviveFewer(s[1..], p);
      SelConcat([s[0]], Survive(s[1..], p), p);
    } else if |s| > 1 {
      SurviveFewer(s[2..], p);
      assert s[1..][1..] == s[2..];
      SelConcat([s[1]], Survive(s[2..], p), p);
    }
  }

  lemma {:induction false} SurviveOther<T>(s: seq<T>, p: T -> bool, q: T -> bool)
    requires forall x :: x in s && p(x) ==> !q(x)
    ensures Sel(Survive(s, p), q) == Sel(s, q)
    decreases |s|
  {
    if s == [] {
    } else if !p(s[0]) {
      SurviveOther(s[1..], p, q);
      SelConcat([s[0]], Survive(s[1..], p), q);
    } else if |s| > 1 {
      SurviveOther(s[2..], p, q);
      assert s[1..][1..] == s[2..];
      SelConcat([s[1]], Survive(s[2..], p), q);
    }
  }

  lemma {:induction false} SurviveNone<T>(s: seq<T>, p: T -> bool)
    requires forall i :: 0 <= i < |s| ==> !p(s[i])
    ensures Survive(s, p) == s && !Panics(s, p)
  {
    if s != [] { SurviveNone(s[1..], p); }
  }

  /** One match between two lists without any. */
  lemma {:induction false} SurviveOne<T>(a: seq<T>, x: T, b: seq<T>, p: T -> bool)
    requires p(x) && (forall i :: 0 <= i < |a| ==> !p(a[i])) && (forall i :: 0 <= i < |b| ==> !p(b[i]))
    ensures Survive(a + [x] + b, p) == a + b
    decreases |a|
  {
    hide Panics;
    var s := a + [x] + b;
    if a == [] {
      assert s[0] == x && s[1..] == b;
      if b != [] {
        assert s[1] == b[0] && s[2..] == b[1..];
        SurviveNone(b[1..], p);
        assert [b[0]] + b[1..] == b;
      }
    } else {
      assert s[0] == a[0] && s[1..] == a[1..] + [x] + b;
      SurviveOne(a[1..], x, b, p);
      assert [a[0]] + (a[1..] + b) == a + b;
    }
  }

  lemma {:induction false} OnePanicsNot<T>(a: seq<T>, x: T, b: seq<T>, p: T -> bool)
    requires p(x) && (forall i :: 0 <= i < |a| ==> !p(a[i])) && (forall i :: 0 <= i < |b| ==> !p(b[i]))
    ensures !Panics(a + [x] + b, p)
  {
    var s := a + [x] + b;
    forall k | 0 <= k < |s| - 1 && p(s[k]) ensures !p(s[|s| - 1]) {
      assert k == |a|;
    }
  }

  // ----- Unsetting -------------------------------------------------------------------------------

  function UnsetEnv(env: seq<EnvVar>, names: seq<string>): Option<seq<EnvVar>>
    decreases |names|
  {
    if names == [] then Some(env)
    else if PanicsAt(env, EnvNamed(names[0])) then None
    else UnsetEnv(Survive(env, EnvNamed(names[0])), names[1..])
  }

  /** `Panics`, as a test. */
  predicate PanicsAt<T>(s: seq<T>, p: T -> bool)
    ensures PanicsAt(s, p) <==> Panics(s, p)
  {
    s != [] && p(s[|s| - 1]) && First(s, p) < |s| - 1
  }

  function BundleVolume(): Volume -> bool {
    (v: Volume) => v.source.ConfigMapSource? && v.source.name == TRUSTED_CA_BUNDLE
  }

  /** The unset template; None for a panic. The volume is found by its ConfigMap, the mount by its name. */
  function Unset(spec: PodSpec, name: string): Option<PodSpec> {
    var own := First(spec.containers, ContainerNamed(name));
    var volumes := RemoveFirst(spec.volumes, BundleVolume());
    if own == |spec.containers| then Some(spec.(volumes := volumes))
    else
      var c := spec.containers[own];
      match UnsetEnv(c.env, CERT_ENV_NAMES)
      case None => None
      case Some(env) =>
        if PanicsAt(c.mounts, MountNamed(TRUSTED_CA_VOLUME)) then None
        else Some(spec.(volumes := volumes,
                        containers := spec.containers[own :=
                          c.(env := env, mounts := Survive(c.mounts, MountNamed(TRUSTED_CA_VOLUME)))]))
  }

  method UnsetEnvVars(env: seq<EnvVar>, names: seq<string>) returns (r: Option<seq<EnvVar>>)
    ensures r == UnsetEnv(env, names)
  {
    var a := new EnvVar[|env|](i requires 0 <= i < |env| => env[i]);
    var len: nat := |env|;
    assert a[..len] == env;
    for k := 0 to |names|
      invariant len <= a.Length && UnsetEnv(env, names) == UnsetEnv(a[..len], names[k..])
    {
      assert names[k..][0] == names[k] && names[k..][1..] == names[k + 1..];
      var panicked;
      panicked, len := DeleteWhileRanging(a, len, EnvNamed(names[k]));
      if panicked { return None; }
    }
    return Some(a[..len]);
  }

  method UnsetMounts(mounts: seq<VolumeMount>) returns (r: Option<seq<VolumeMount>>)
    ensures r == if PanicsAt(mounts, MountNamed(TRUSTED_CA_VOLUME)) then None
      else Some(Survive(mounts, MountNamed(TRUSTED_CA_VOLUME)))
  {
    var a := new VolumeMount[|mounts|](i requires 0 <= i < |mounts| => mounts[i]);
    assert a[..|mounts|] == mounts;
    var panicked, len := DeleteWhileRanging(a, |mounts|, MountNamed(TRUSTED_CA_VOLUME));
    if panicked { return None; }
    return Some(a[..len]);
  }

  /** On a panic nothing is patched. */
  method UnsetNotebookCertConfig(notebook: Notebook) returns (panicked: bool)
    modifies notebook`containers, notebook`volumes
    ensures panicked <==> Unset(old(notebook.Spec()), notebook.name).None?
    ensures notebook.Spec() == if panicked then old(notebook.Spec())
      else Unset(old(notebook.Spec()), notebook.name).value
  {
    var containers := notebook.containers;
    var own := Find(containers, ContainerNamed(notebook.name));
    if own < |containers| {
      var env := UnsetEnvVars(containers[own].env, CERT_ENV_NAMES);
      if env.None? { return true; }
      var mounts := UnsetMounts(containers[own].mounts);
      if mounts.None? { return true; }
      containers := containers[own := containers[own].(env := env.value, mounts := mounts.value)];
    }
    notebook.containers := containers;
    notebook.volumes := CutFirst(notebook.volumes, BundleVolume());
    return false;
  }

  /** The first volume of the bundle's ConfigMap is cut, by that name. */
  ghost predicate BundleCut(before: seq<Volume>, after: seq<Volume>) {
    if exists v <- before :: IsBundle(v) then exists k: nat :: FirstBundle(before, k) && CutAt(before, after, k)
    else after == before
  }

  predicate CutAt(before: seq<Volume>, after: seq<Volume>, k: nat) {
    k < |before| && after == before[..k] + before[k+1..]
  }

  predicate FirstBundle(vs: seq<Volume>, k: nat) {
    k < |vs| && IsBundle(vs[k]) && forall j :: 0 <= j < k ==> !IsBundle(vs[j])
  }

  predicate IsBundle(v: Volume) {
    v.source.ConfigMapSource? && v.source.name == "workbench-trusted-ca-bundle"
  }

  /** One occurrence less at the least, if there is any. */
  predicate Thinned(before: nat, after: nat) {
    if before == 0 then after == 0 else after < before
  }

  lemma {:induction false} UnsetOthers(env: seq<EnvVar>, names: seq<string>, n: string)
    requires UnsetEnv(env, names).Some? && n !in names
    ensures Sel(UnsetEnv(env, names).value, EnvNamed(n)) == Sel(env, EnvNamed(n))
    decreases |names|
  {
    if names != [] {
      SurviveOther(env, EnvNamed(names[0]), EnvNamed(n));
      UnsetOthers(Survive(env, EnvNamed(names[0])), names[1..], n);
    }
  }

  /** What unsetting takes from the notebook container, name by name: of each of the six certificate variables
      and of the certificate mounts one at the least, nothing of any other name; and the first volume of the
      bundle. No other container is touched. */
  lemma {:induction false} UnsetOnNames(spec: PodSpec, name: string, unset: PodSpec)
    requires Unset(spec, name) == Some(unset)
    ensures BundleCut(spec.volumes, unset.volumes)
    ensures |unset.containers| == |spec.containers|
    ensures var own := First(spec.containers, ContainerNamed(name));
      && (forall i :: 0 <= i < |spec.containers| && i != own ==> unset.containers[i] == spec.containers[i])
      && (own < |spec.containers| ==>
            var b, a := spec.containers[own], unset.containers[own];
            && a == b.(env := a.env, mounts := a.mounts)
            && (forall n: string :: Workbench.IsCert(n) ==>
              Thinned(|Sel(b.env, EnvNamed(n))|, |Sel(a.env, EnvNamed(n))|))
            && (forall n: string :: !Workbench.IsCert(n) ==> Sel(a.env, EnvNamed(n)) == Sel(b.env, EnvNamed(n)))
            && Thinned(|Sel(b.mounts, MountNamed("trusted-ca"))|, |Sel(a.mounts, MountNamed("trusted-ca"))|)
            && forall n: string :: n != "trusted-ca" ==> Sel(a.mounts, MountNamed(n)) == Sel(b.mounts, MountNamed(n)))
  {
    hide UnsetEnv, Survive, Sel, CERT_ENV_NAMES;
    BundleIsCut(spec.volumes);
    var own := First(spec.containers, ContainerNamed(name));
    if own < |spec.containers| {
      var c := spec.containers[own];
      forall n: string
        ensures Workbench.IsCert(n) ==>
          Thinned(|Sel(c.env, EnvNamed(n))|, |Sel(unset.containers[own].env, EnvNamed(n))|)
        ensures !Workbench.IsCert(n) ==>
          Sel(unset.containers[own].env, EnvNamed(n)) == Sel(c.env, EnvNamed(n))
      {
        Workbench.CertIsListed(n);
        UnsetFewer(c.env, CERT_ENV_NAMES, n);
        if n !in CERT_ENV_NAMES { UnsetOthers(c.env, CERT_ENV_NAMES, n); }
      }
      SurviveFewer(c.mounts, MountNamed("trusted-ca"));
      forall n: string | n != "trusted-ca"
        ensures Sel(unset.containers[own].mounts, MountNamed(n)) == Sel(c.mounts, MountNamed(n))
      {
        SurviveOther(c.mounts, MountNamed("trusted-ca"), MountNamed(n));
      }
    }
  }

  lemma {:induction false} BundleIsCut(vs: seq<Volume>)
    ensures BundleCut(vs, RemoveFirst(vs, BundleVolume()))
  {
    var k := First(vs, BundleVolume());
    assert forall i :: 0 <= i < |vs| ==> (BundleVolume()(vs[i]) <==> IsBundle(vs[i]));
    if k < |vs| { assert FirstBundle(vs, k) && CutAt(vs, RemoveFirst(vs, BundleVolume()), k); }
  }

  // ----- Injecting and unsetting again -------------------------------------------------------------

  /** Nothing in the template looks like an injected certificate. */
  predicate NoTraces(spec: PodSpec, name: string) {
    && First(spec.volumes, VolumeNamed(TRUSTED_CA_VOLUME)) == |spec.volumes|
    && First(spec.volumes, BundleVolume()) == |spec.volumes|
    && var own := First(spec.containers, ContainerNamed(name));
       own < |spec.containers| ==>
         && NoneNamed(spec.containers[own].env, CERT_ENV_NAMES)
         && First(spec.containers[own].mounts, MountNamed(TRUSTED_CA_VOLUME)) == |spec.containers[own].mounts|
  }

  predicate NoneNamed(env: seq<EnvVar>, names: seq<string>) {
    forall i :: 0 <= i < |env| ==> env[i].name !in names
  }

  lemma {:induction false} AppendedAndCut<T>(s: seq<T>, p: T -> bool, q: T -> bool, x: T)
    requires p(x) && q(x)
    ensures RemoveFirst(Upsert(s, p, x), q) == s <==> First(s, p) == |s| && First(s, q) == |s|
  {
    var t, j := Upsert(s, p, x), First(Upsert(s, p, x), q);
    if First(s, p) < |s| {
      assert q(t[First(s, p)]);
    } else if First(s, q) == |s| {
      FirstIs(t, q, |s|);
      assert t[..|s|] == s;
    } else {
      FirstIs(t, q, First(s, q));
      var r := t[..j] + t[j + 1..];
      assert r[|s| - 1] == t[|s|] == x;
      assert !p(s[|s| - 1]);
    }
  }

  lemma {:induction false} AppendedAndUnset<T>(s: seq<T>, p: T -> bool, x: T)
    requires p(x)
    ensures !Panics(Upsert(s, p, x), p) && Survive(Upsert(s, p, x), p) == s <==> First(s, p) == |s|
  {
    if First(s, p) == |s| {
      SurviveOne(s, x, [], p);
      OnePanicsNot(s, x, [], p);
      assert s + [x] + [] == s + [x] && s + [] == s;
    } else {
      UpsertSame(s, p, x);
      SelFirst(s, p);
      SurviveFewer(Upsert(s, p, x), p);
    }
  }

  /** The variables an injection appends to an environment that has none of them. */
  function Fresh(vars: seq<(string, string)>): seq<EnvVar> {
    if vars == [] then [] else [EnvVar(vars[0].0, vars[0].1, None)] + Fresh(vars[1..])
  }

  lemma {:induction false} FreshNames(vars: seq<(string, string)>)
    ensures |Fresh(vars)| == |vars| && forall i :: 0 <= i < |vars| ==> Fresh(vars)[i].name == vars[i].0
  {
    if vars != [] { FreshNames(vars[1..]); }
  }

  lemma {:induction false} SetAllAbsent(env: seq<EnvVar>, n: string, v: string)
    requires First(env, EnvNamed(n)) == |env|
    ensures SetAll(env, n, v) == env + [EnvVar(n, v, None)]
  {}

  lemma {:induction false} StillAbsent(env: seq<EnvVar>, e: EnvVar, n: string)
    requires First(env, EnvNamed(n)) == |env| && e.name != n
    ensures First(env + [e], EnvNamed(n)) == |env + [e]|
  {
    FirstIs(env + [e], EnvNamed(n), |env + [e]|);
  }

  /** None of the variables is there, and no two of them are the same. */
  ghost predicate AllAbsent(env: seq<EnvVar>, vars: seq<(string, string)>) {
    && (forall i, j :: 0 <= i < j < |vars| ==> vars[i].0 != vars[j].0)
    && (forall j :: 0 <= j < |vars| ==> First(env, EnvNamed(vars[j].0)) == |env|)
  }

  lemma {:induction false} OthersAbsent(env: seq<EnvVar>, vars: seq<(string, string)>, e: EnvVar)
    requires vars != [] && AllAbsent(env, vars) && e.name == vars[0].0
    ensures AllAbsent(env + [e], vars[1..])
    ensures SetAll(env, vars[0].0, vars[0].1) == env + [EnvVar(vars[0].0, vars[0].1, None)]
  {
    SetAllAbsent(env, vars[0].0, vars[0].1);
    var rest := vars[1..];
    forall j | 0 <= j < |rest| ensures First(env + [e], EnvNamed(rest[j].0)) == |env + [e]| {
      assert rest[j] == vars[j + 1];
      StillAbsent(env, e, rest[j].0);
    }
  }

  lemma {:induction false} InjectAppends(env: seq<EnvVar>, vars: seq<(string, string)>)
    requires AllAbsent(env, vars)
    ensures InjectAll(env, vars) == env + Fresh(vars)
    decreases |vars|
  {
    hide SetAll, AllAbsent;
    if vars != [] {
      var e := EnvVar(vars[0].0, vars[0].1, None);
      OthersAbsent(env, vars, e);
      InjectAppends(env + [e], vars[1..]);
      assert (env + [e]) + Fresh(vars[1..]) == env + Fresh(vars);
    } else {
      assert env + Fresh(vars) == env;
    }
  }

  /** `added` has each of `names` exactly once. */
  ghost predicate OneEach(added: seq<EnvVar>, names: seq<string>) {
    && (forall i, j :: 0 <= i < j < |added| ==> added[i].name != added[j].name)
    && (forall i :: 0 <= i < |added| ==> added[i].name in names)
    && (forall n <- names :: exists i :: 0 <= i < |added| && added[i].name == n)
  }

  lemma {:induction false} UnsetOne(env: seq<EnvVar>, added: seq<EnvVar>, k: nat, names: seq<string>)
    requires names != [] && k < |added| && added[k].name == names[0]
    requires forall i :: 0 <= i < |env| ==> env[i].name != names[0]
    requires forall i :: 0 <= i < |added| && i != k ==> added[i].name != names[0]
    ensures UnsetEnv(env + added, names) == UnsetEnv(env + (added[..k] + added[k + 1..]), names[1..])
  {
    var a, b := env + added[..k], added[k + 1..];
    assert env + added == a + [added[k]] + b;
    SurviveOne(a, added[k], b, EnvNamed(names[0]));
    OnePanicsNot(a, added[k], b, EnvNamed(names[0]));
    assert a + b == env + (added[..k] + added[k + 1..]);
  }

  lemma {:induction false} UnsetAppended(env: seq<EnvVar>, added: seq<EnvVar>, names: seq<string>)
    requires forall i, j :: 0 <= i < j < |names| ==> names[i] != names[j]
    requires OneEach(added, names) && NoneNamed(env, names)
    ensures UnsetEnv(env + added, names) == Some(env)
    decreases |names|
  {
    OneEachSome(added, names);
    if names == [] {
      assert env + added == env;
    } else {
      assert names[0] in names;
      var k: nat :| k < |added| && added[k].name == names[0];
      UnsetOne(env, added, k, names);
      OneEachLess(added, names, k);
      UnsetAppended(env, added[..k] + added[k + 1..], names[1..]);
    }
  }

  lemma {:induction false} OneEachSome(added: seq<EnvVar>, names: seq<string>)
    requires OneEach(added, names)
    ensures added != [] ==> names != []
  {
    if added != [] { assert added[0].name in names; }
  }

  lemma {:induction false} OneEachLess(added: seq<EnvVar>, names: seq<string>, k: nat)
    requires names != [] && forall i, j :: 0 <= i < j < |names| ==> names[i] != names[j]
    requires OneEach(added, names) && k < |added| && added[k].name == names[0]
    ensures OneEach(added[..k] + added[k + 1..], names[1..])
  {
    var left := added[..k] + added[k + 1..];
    forall i | 0 <= i < |left| ensures left[i].name in names[1..] {
      var j := if i < k then i else i + 1;
      assert left[i] == added[j] && added[j].name in names && added[j].name != names[0];
    }
    forall n | n in names[1..] ensures exists i :: 0 <= i < |left| && left[i].name == n {
      assert n in names && n != names[0];
      var j :| 0 <= j < |added| && added[j].name == n;
      assert left[if j < k then j else j - 1].name == n;
    }
  }

  lemma {:induction false} RevalueCount(env: seq<EnvVar>, m: string, v: string, n: string)
    ensures |Sel(Revalue(env, m, v), EnvNamed(n))| == |Sel(env, EnvNamed(n))|
  {
    if env != [] { RevalueCount(env[1..], m, v, n); }
  }

  lemma {:induction false} InjectCount(env: seq<EnvVar>, vars: seq<(string, string)>, n: string)
    requires Sel(env, EnvNamed(n)) != []
    ensures |Sel(InjectAll(env, vars), EnvNamed(n))| == |Sel(env, EnvNamed(n))|
    decreases |vars|
  {
    if vars != [] {
      var (m, v) := vars[0];
      RevalueCount(env, m, v, n);
      SelFirst(env, EnvNamed(m));
      SelConcat(env, [EnvVar(m, v, None)], EnvNamed(n));
      assert |Sel(SetAll(env, m, v), EnvNamed(n))| == |Sel(env, EnvNamed(n))|;
      InjectCount(SetAll(env, m, v), vars[1..], n);
    }
  }

  lemma {:induction false} UnsetFewer(env: seq<EnvVar>, names: seq<string>, n: string)
    requires UnsetEnv(env, names).Some?
    ensures var r := UnsetEnv(env, names).value;
      && |Sel(r, EnvNamed(n))| <= |Sel(env, EnvNamed(n))|
      && (n in names && Sel(env, EnvNamed(n)) != [] ==> |Sel(r, EnvNamed(n))| < |Sel(env, EnvNamed(n))|)
    decreases |names|
  {
    if names != [] {
      var next := Survive(env, EnvNamed(names[0]));
      UnsetFewer(next, names[1..], n);
      if names[0] == n { SurviveFewer(env, EnvNamed(n)); } else { SurviveOther(env, EnvNamed(names[0]), EnvNamed(n)); }
    }
  }

  lemma {:induction false} CertNamesApart()
    ensures forall i, j :: 0 <= i < j < |CERT_ENV_NAMES| ==> CERT_ENV_NAMES[i] != CERT_ENV_NAMES[j]
  {
    var lengths := [8, 18, 13, 22, 14, 25];
    assert |CERT_ENV_NAMES| == 6 && forall i :: 0 <= i < 6 ==> |CERT_ENV_NAMES[i]| == lengths[i];
  }

  lemma {:induction false} EnvBack(env: seq<EnvVar>, vars: seq<(string, string)>, names: seq<string>,
                                   value: string -> string)
    requires Enumerates(vars, names, value) && forall i, j :: 0 <= i < j < |names| ==> names[i] != names[j]
    ensures UnsetEnv(InjectAll(env, vars), names) == Some(env) <==> NoneNamed(env, names)
  {
    var injected := InjectAll(env, vars);
    if NoneNamed(env, names) {
      forall j | 0 <= j < |vars| ensures First(env, EnvNamed(vars[j].0)) == |env| {
        FirstIs(env, EnvNamed(vars[j].0), |env|);
      }
      InjectAppends(env, vars);
      EnumeratesOnce(vars, names, value);
      UnsetAppended(env, Fresh(vars), names);
    } else if UnsetEnv(injected, names) == Some(env) {
      var i :| 0 <= i < |env| && env[i].name in names;
      SelWithin(env, EnvNamed(env[i].name), i);
      InjectCount(env, vars, env[i].name);
      UnsetFewer(injected, names, env[i].name);
    }
  }

  lemma {:induction false} EnumeratesOnce(vars: seq<(string, string)>, names: seq<string>, value: string -> string)
    requires Enumerates(vars, names, value)
    ensures OneEach(Fresh(vars), names)
  {
    var added := Fresh(vars);
    FreshNames(vars);
    forall n | n in names ensures exists i :: 0 <= i < |added| && added[i].name == n {
      var i :| 0 <= i < |vars| && vars[i].0 == n;
      assert added[i].name == n;
    }
  }

  /** Injecting the certificates and unsetting them gives back the template it started from, for
      every order the map hands out the variables, if and only if the template bore no traces of
      an injection before. */
  lemma {:induction false} CertRoundTrip(spec: PodSpec, name: string, vars: seq<(string, string)>)
    requires Enumerates(vars, CERT_ENV_NAMES, CertValue())
    ensures Unset(InjectCert(spec, name, vars), name) == Some(spec) <==> NoTraces(spec, name)
  {
    hide InjectAll, UnsetEnv, Survive, Enumerates, CERT_ENV_NAMES, NoneNamed, TRUSTED_CA, TRUSTED_CA_MOUNT,
      RemoveFirst, Upsert;
    var injected := InjectCert(spec, name, vars);
    var own := First(spec.containers, ContainerNamed(name));
    FirstIs(injected.containers, ContainerNamed(name), own);
    TrustedCaIsBundle();
    AppendedAndCut(spec.volumes, VolumeNamed(TRUSTED_CA_VOLUME), BundleVolume(), TRUSTED_CA);
    if own < |spec.containers| {
      var c := spec.containers[own];
      CertNamesApart();
      EnvBack(c.env, vars, CERT_ENV_NAMES, CertValue());
      AppendedAndUnset(c.mounts, MountNamed(TRUSTED_CA_VOLUME), TRUSTED_CA_MOUNT);
      assert injected.containers[own] == CertContainer(c, vars);
      if Unset(injected, name).Some? {
        var back := Unset(injected, name).value;
        assert back.containers == injected.containers[own := back.containers[own]];
        assert back.containers == spec.containers <==> back.containers[own] == c;
      }
    }
  }

  lemma {:induction false} TrustedCaIsBundle()
    ensures VolumeNamed(TRUSTED_CA_VOLUME)(TRUSTED_CA) && BundleVolume()(TRUSTED_CA)
    ensures MountNamed(TRUSTED_CA_VOLUME)(TRUSTED_CA_MOUNT)
  {}
}
