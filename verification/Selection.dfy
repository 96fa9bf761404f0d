/** The workbench image, from the selection annotation to the container: which stream in which
    namespace, which tag, which of its items, and what an accepted mutation makes of it. */
module Selection {
  import opened Text
  import opened Sequences
  import opened PodModel
  import opened Mutators
  import opened MountPipeline
  import opened Pipeline

  /** Nothing but white space, or nothing at all. */
  predicate Blank(s: string) {
    forall i :: 0 <= i < |s| ==> IsSpace(s[i])
  }

  /** The namespace the stream is looked up in: the annotation as it is, or the controller's own if that is
      missing or blank. */
  function SearchedNamespace(annotations: map<string, string>, own: string): string {
    if "opendatahub.io/workbench-image-namespace" in annotations
       && !Blank(annotations["opendatahub.io/workbench-image-namespace"])
    then annotations["opendatahub.io/workbench-image-namespace"] else own
  }

  /** The image names the internal registry somewhere. */
  predicate Internal(image: string) {
    exists i :: 0 <= i <= |image| && "image-registry.openshift-image-registry.svc:5000" <= image[i..]
  }

  /** The tags in the status of a stream; none if it is not found. */
  function TagsOf(snap: Snapshot, ns: string, stream: string): seq<StreamTag> {
    if (ns, stream) in snap.imageStreams && snap.imageStreams[(ns, stream)].tags.Some? then
      snap.imageStreams[(ns, stream)].tags.value
    else []
  }

  predicate WithoutStatus(snap: Snapshot, ns: string, stream: string) {
    (ns, stream) in snap.imageStreams && snap.imageStreams[(ns, stream)].tags.None?
  }

  /** The tag at `j` is the first of that name with any items. */
  predicate FirstTag(tags: seq<StreamTag>, tag: string, j: nat) {
    && j < |tags| && tags[j].tag == tag && tags[j].items != []
    && forall i :: 0 <= i < j ==> tags[i].tag != tag || tags[i].items == []
  }

  /** A most recently created item refers to this image. */
  predicate NewestIs(items: seq<TagItem>, image: string) {
    exists i :: 0 <= i < |items| && items[i].imageReference == image
      && forall k :: 0 <= k < |items| ==> items[k].created <= items[i].created
  }

  // ----- The pieces --------------------------------------------------------------------------------

  lemma {:induction false} LeadingBlank(s: string, n: nat)
    requires n <= |s|
    ensures Leading(s, n) == |s| <==> forall i :: |s| - n <= i < |s| ==> IsSpace(s[i])
    decreases n
  {
    if n > 0 && IsSpace(s[|s| - n]) { LeadingBlank(s, n - 1); }
  }

  lemma {:induction false} TrailingBlank(s: string, n: nat)
    requires n <= |s|
    ensures Trailing(s, n) == 0 <==> forall i :: 0 <= i < n ==> IsSpace(s[i])
    ensures Trailing(s, n) > 0 ==> !IsSpace(s[Trailing(s, n) - 1])
    ensures forall i :: Trailing(s, n) <= i < n ==> IsSpace(s[i])
    decreases n
  {
    if n > 0 && IsSpace(s[n - 1]) { TrailingBlank(s, n - 1); }
  }

  lemma {:induction false} LeadingStops(s: string, n: nat)
    requires n <= |s|
    ensures Leading(s, n) < |s| ==> !IsSpace(s[Leading(s, n)])
    ensures forall i :: |s| - n <= i < Leading(s, n) ==> IsSpace(s[i])
    decreases n
  {
    if n > 0 && IsSpace(s[|s| - n]) { LeadingStops(s, n - 1); }
  }

  /** Trimming leaves nothing of a blank text, and nothing else of any other than what lies between its
      first and its last character that is no white space. */
  lemma {:induction false} TrimmedText(s: string)
    ensures TrimSpace(s) == "" <==> Blank(s)
    ensures !Blank(s) ==> exists i, j :: Trimmed(s, TrimSpace(s), i, j)
  {
    LeadingBlank(s, |s|);
    LeadingStops(s, |s|);
    TrailingBlank(s, |s|);
    var from, to := Leading(s, |s|), Trailing(s, |s|);
    if from < to {
      assert Trimmed(s, TrimSpace(s), from, to);
    } else {
      assert Blank(s) by {
        forall i | 0 <= i < |s| ensures IsSpace(s[i]) { assert i < from || to <= i; }
      }
    }
  }

  /** `r` is the part of `s` from `i` to `j`, with white space around it and none at its ends. */
  predicate Trimmed(s: string, r: string, i: int, j: int) {
    && 0 <= i < j <= |s| && r == s[i..j] && !IsSpace(s[i]) && !IsSpace(s[j - 1])
    && Blank(s[..i]) && Blank(s[j..])
  }

  lemma {:induction false} SelectionSplits(s: string, t: string)
    requires ':' !in s && ':' !in t
    ensures Split(s + ":" + t, ':') == [s, t]
  {
    assert s + ":" + t == s + [':'] + t;
    SplitHead(s, t, ':');
    SplitNone(t, ':');
  }

  /** A text splits in two exactly when it has one separator. */
  lemma {:induction false} TwoParts(text: string)
    requires |Split(text, ':')| == 2
    ensures text == Split(text, ':')[0] + ":" + Split(text, ':')[1]
  {
    JoinSplit(text, ':');
    var parts := Split(text, ':');
    assert Join(parts[1..], ':') == parts[1];
    assert parts[0] + [':'] + parts[1] == parts[0] + ":" + parts[1];
  }

  lemma {:induction false} JoinSplit(s: string, sep: char)
    ensures Join(Split(s, sep), sep) == s
  {
    if s != [] {
      var rest := Split(s[1..], sep);
      JoinSplit(s[1..], sep);
      if s[0] == sep {
        assert ([""] + rest)[1..] == rest;
        assert "" + [sep] + Join(rest, sep) == s;
      } else {
        assert ([[s[0]] + rest[0]] + rest[1..])[1..] == rest[1..];
        assert [s[0]] + Join(rest, sep) == s;
      }
    }
  }

  lemma {:induction false} NewestChosen(items: seq<TagItem>)
    requires items != []
    ensures NewestIs(items, Newest(items).imageReference)
  {
    var i :| 0 <= i < |items| && items[i] == Newest(items);
    assert items[i].imageReference == Newest(items).imageReference;
  }

  lemma {:induction false} TagFound(tags: seq<StreamTag>, tag: string, j: nat)
    requires FirstTag(tags, tag, j)
    ensures TagImage(tags, tag).Image? && NewestIs(tags[j].items, TagImage(tags, tag).reference)
    decreases j
  {
    if j == 0 {
      NewestChosen(tags[0].items);
    } else {
      assert tags[0].tag != tag || tags[0].items == [];
      assert forall i :: 0 <= i < j - 1 ==> tags[1..][i] == tags[i + 1];
      TagFound(tags[1..], tag, j - 1);
    }
  }

  lemma {:induction false} TagMissing(tags: seq<StreamTag>, tag: string)
    requires forall j :: 0 <= j < |tags| ==> tags[j].tag != tag || tags[j].items == []
    ensures TagImage(tags, tag).NotFound?
  {
    if tags != [] { TagMissing(tags[1..], tag); }
  }

  /** What the selection resolves to, by stream, namespace and tag. */
  lemma {:induction false} Resolves(annotations: map<string, string>, snap: Snapshot, s: string, t: string)
    requires "notebooks.opendatahub.io/last-image-selection" in annotations && ':' !in s && ':' !in t
    requires annotations["notebooks.opendatahub.io/last-image-selection"] == s + ":" + t
    ensures var ns := SearchedNamespace(annotations, snap.controllerNamespace);
      var r := SelectImage(annotations, snap);
      var tags := TagsOf(snap, ns, s);
      if WithoutStatus(snap, ns, s) then r.NoTags?
      else if exists j: nat :: FirstTag(tags, t, j) then
        r.Image? && forall j: nat :: FirstTag(tags, t, j) ==> NewestIs(tags[j].items, r.reference)
      else r.NotFound?
  {
    hide TrimSpace, Split, TagImage, NewestIs;
    SelectionSplits(s, t);
    TrimmedText(Lookup(annotations, IMAGE_NAMESPACE_ANNOTATION));
    var tags := TagsOf(snap, SearchedNamespace(annotations, snap.controllerNamespace), s);
    assert TagImage([], t).NotFound? by { TagMissing([], t); }
    forall j: nat | FirstTag(tags, t, j)
      ensures TagImage(tags, t).Image? && NewestIs(tags[j].items, TagImage(tags, t).reference)
    {
      TagFound(tags, t, j);
    }
    if !exists j: nat :: FirstTag(tags, t, j) {
      NoFirstTag(tags, t, |tags|);
      TagMissing(tags, t);
    }
  }

  lemma {:induction false} NoFirstTag(tags: seq<StreamTag>, tag: string, n: nat)
    requires n <= |tags| && !exists j: nat :: FirstTag(tags, tag, j)
    ensures forall j :: 0 <= j < n ==> tags[j].tag != tag || tags[j].items == []
    decreases n
  {
    if n > 0 {
      NoFirstTag(tags, tag, n - 1);
      assert !FirstTag(tags, tag, n - 1);
    }
  }

  /** A selection without exactly one colon is refused. */
  lemma {:induction false} Malformed(annotations: map<string, string>, snap: Snapshot)
    requires "notebooks.opendatahub.io/last-image-selection" in annotations
    requires forall s, t :: ':' !in s && ':' !in t ==>
      annotations["notebooks.opendatahub.io/last-image-selection"] != s + ":" + t
    ensures SelectImage(annotations, snap).BadSelection?
  {
    var text := annotations["notebooks.opendatahub.io/last-image-selection"];
    if |Split(text, ':')| == 2 { TwoParts(text); }
  }

  // ----- The pass over the containers ---------------------------------------------------------------

  lemma {:induction false} PassStarts(cs: seq<Container>, i: nat, name: string, outcome: ImageOutcome,
                                      selection: string)
    requires i <= First(cs, ContainerNamed(name))
    ensures ImagePass(cs, i, name, outcome, selection)
         == ImagePass(cs, First(cs, ContainerNamed(name)), name, outcome, selection)
    decreases |cs| - i
  {
    if i < First(cs, ContainerNamed(name)) { PassStarts(cs, i + 1, name, outcome, selection); }
  }

  lemma {:induction false} PassAccepts(cs: seq<Container>, i: nat, name: string, outcome: ImageOutcome,
                                       selection: string)
    requires i <= |cs| && (outcome.Image? || outcome.NotFound?)
    ensures ImagePass(cs, i, name, outcome, selection).Ok?
    ensures outcome.NotFound? ==> ImagePass(cs, i, name, outcome, selection) == Ok(cs)
    decreases |cs| - i
  {
    if i < |cs| && cs[i].name == name && !Contains(cs[i].image, INTERNAL_REGISTRY) && outcome.Image? {
      PassAccepts(WithImage(cs, i, outcome.reference, selection), i + 1, name, outcome, selection);
    } else if i < |cs| && !(cs[i].name == name && Contains(cs[i].image, INTERNAL_REGISTRY)) {
      PassAccepts(cs, i + 1, name, outcome, selection);
    }
  }

  lemma {:induction false} InternalRegistry(image: string)
    ensures Contains(image, INTERNAL_REGISTRY) <==> Internal(image)
  {
    if i :| 0 <= i <= |image| && OccursAt(image, INTERNAL_REGISTRY, i) {
      assert "image-registry.openshift-image-registry.svc:5000" <= image[i..];
    }
    if i :| 0 <= i <= |image| && "image-registry.openshift-image-registry.svc:5000" <= image[i..] {
      assert OccursAt(image, INTERNAL_REGISTRY, i);
    }
  }

  /** What the image step leaves of a container: its image, and its first image variable. */
  ghost predicate SameImages(a: seq<Container>, b: seq<Container>) {
    |a| == |b| && forall i :: 0 <= i < |a| ==> a[i].image == b[i].image && SameVariable(a[i].env, b[i].env)
  }

  ghost predicate SameVariable(a: seq<EnvVar>, b: seq<EnvVar>) {
    Sel(a, EnvNamed("JUPYTER_IMAGE")) == Sel(b, EnvNamed("JUPYTER_IMAGE"))
  }

  /** The first variable of the name, if there is one, holds the value. */
  ghost predicate FirstHolds(env: seq<EnvVar>, value: string) {
    var s := Sel(env, EnvNamed("JUPYTER_IMAGE")); s == [] || s[0].value == value
  }

  lemma {:induction false} PassPaints(cs: seq<Container>, name: string, outcome: ImageOutcome, selection: string)
    requires var own := First(cs, ContainerNamed(name)); own < |cs| && !Internal(cs[own].image)
    ensures var own, r := First(cs, ContainerNamed(name)), ImagePass(cs, 0, name, outcome, selection);
      match outcome
      case BadSelection => r.Err?
      case NoTags => r.Err?
      case NotFound => r == Ok(cs)
      case Image(reference) =>
        && r.Ok? && |r.value| == |cs| && r.value[0].image == reference && FirstHolds(r.value[own].env, selection)
        && forall i :: 0 < i < |cs| ==> r.value[i].image == cs[i].image
  {
    hide Internal;
    var own := First(cs, ContainerNamed(name));
    InternalRegistry(cs[own].image);
    PassStarts(cs, 0, name, outcome, selection);
    PassAccepts(cs, 0, name, if outcome.Image? then outcome else NotFound, selection);
    if outcome.Image? {
      PassAccepts(WithImage(cs, own, outcome.reference, selection), own + 1, name, outcome, selection);
      HitLeaves(cs, own, name, outcome, selection);
      ImagePassFrame(cs, 0, name, outcome, selection);
    }
  }

  // ----- What an accepted mutation makes of it ---------------------------------------------------------

  /** The steps after the image step touch neither images nor image variables, the sidecar aside. */
  lemma {:induction false} LaterStepsSpare(s1: PodSpec, t: PodSpec, name: string, act: FeastAct, instance: string,
                                           sidecar: Option<Container>, snap: Snapshot, o: Orders, i: nat)
    requires name != PROXY_CONTAINER && Feasible(o, snap)
    requires Finished(s1, t, name, act, instance, sidecar, snap, o)
    requires i < |s1.containers| && !(sidecar.Some? && i == First(s1.containers, ContainerNamed(PROXY_CONTAINER)))
    ensures i < |t.containers| && t.containers[i].image == s1.containers[i].image
    ensures SameVariable(t.containers[i].env, s1.containers[i].env)
  {
    hide Grown, TimedSidecar, AllVolumes, Feasible;
    GrownKeepsImage(s1.containers[i], i == First(s1.containers, ContainerNamed(name)), act, instance, snap, o);
  }

  /** `after` follows the selection of `tag` among `tags`: with the tag there, container 0 has the newest
      item's image and the notebook container at `own` the selection in its first JUPYTER_IMAGE; without,
      every image and every such variable is as before. The container at `proxy` is the webhook's own. */
  ghost predicate Follows(before: seq<Container>, after: seq<Container>, own: nat, proxy: nat, tags: seq<StreamTag>,
                          tag: string, selection: string)
  {
    && own < |before| <= |after|
    && if exists j: nat :: FirstTag(tags, tag, j) then
         && (proxy != 0 ==> forall j: nat :: FirstTag(tags, tag, j) ==> NewestIs(tags[j].items, after[0].image))
         && FirstHolds(after[own].env, selection)
         && forall i :: 0 < i < |before| && i != proxy ==> after[i].image == before[i].image
       else forall i :: 0 <= i < |before| && i != proxy ==>
         after[i].image == before[i].image && SameVariable(after[i].env, before[i].env)
  }

  /** The image the selection asks for, in the terms of annotations and image streams: `s` the stream,
      `t` the tag. The first notebook container is outside the internal registry. A stream without a
      status is an error, and an accepted mutation follows the selection. */
  lemma {:induction false} SelectedImageArrives(spec: PodSpec, meta: Meta, snap: Snapshot, o: Orders, s: string,
                                                t: string)
    requires meta.name != "kube-rbac-proxy" && Feasible(o, snap)
    requires "notebooks.opendatahub.io/last-image-selection" in meta.annotations && ':' !in s && ':' !in t
    requires meta.annotations["notebooks.opendatahub.io/last-image-selection"] == s + ":" + t
    requires var own := First(spec.containers, ContainerNamed(meta.name));
      own < |spec.containers| && !Internal(spec.containers[own].image)
    ensures var ns := SearchedNamespace(meta.annotations, snap.controllerNamespace);
      WithoutStatus(snap, ns, s) ==> Mutate(spec, meta, snap, o).Err?
    ensures Mutate(spec, meta, snap, o).Ok? ==>
      Follows(spec.containers, Mutate(spec, meta, snap, o).value.containers,
        First(spec.containers, ContainerNamed(meta.name)),
        ProxyAt(spec, meta), TagsOf(snap, SearchedNamespace(meta.annotations, snap.controllerNamespace), s), t,
          s + ":" + t)
  {
    hide Mutate, SelectImage, Feasible, Internal, NewestIs, FirstTag, ImagePass, Runnable, InjectionEnabled,
      SearchedNamespace, TagsOf, WithoutStatus;
    Resolves(meta.annotations, snap, s, t);
    PassPaints(spec.containers, meta.name, SelectImage(meta.annotations, snap), s + ":" + t);
    MutateSucceeds(spec, meta, snap, o);
    if Mutate(spec, meta, snap, o).Ok? {
      LaterStepsKeep(spec, meta, snap, o);
      OwnIsNoProxy(spec.containers, meta.name);
    }
  }

  /** Without a selection, or with an image of the internal registry, no image and no such variable changes. */
  lemma {:induction false} ImagesStay(spec: PodSpec, meta: Meta, snap: Snapshot, o: Orders)
    requires meta.name != "kube-rbac-proxy" && Feasible(o, snap) && Mutate(spec, meta, snap, o).Ok?
    requires "notebooks.opendatahub.io/last-image-selection" in meta.annotations ==>
      var own := First(spec.containers, ContainerNamed(meta.name));
      own < |spec.containers| && Internal(spec.containers[own].image)
    ensures var out := Mutate(spec, meta, snap, o).value.containers;
      |out| >= |spec.containers| && forall i :: 0 <= i < |spec.containers| && i != ProxyAt(spec, meta) ==>
        out[i].image == spec.containers[i].image && SameVariable(out[i].env, spec.containers[i].env)
  {
    hide Mutate, SelectImage, Feasible, Internal, InjectionEnabled, Runnable, ProxyAt;
    MutateSucceeds(spec, meta, snap, o);
    LaterStepsKeep(spec, meta, snap, o);
    if "notebooks.opendatahub.io/last-image-selection" in meta.annotations {
      var own := First(spec.containers, ContainerNamed(meta.name));
      InternalRegistry(spec.containers[own].image);
      PassStarts(spec.containers, 0, meta.name, SelectImage(meta.annotations, snap),
        meta.annotations[IMAGE_SELECTION_ANNOTATION]);
    }
  }

  /** A selection is refused where no container carries the notebook's name, and, outside the internal
      registry, where it has not exactly one colon. */
  lemma {:induction false} SelectionRefused(spec: PodSpec, meta: Meta, snap: Snapshot, o: Orders)
    requires "notebooks.opendatahub.io/last-image-selection" in meta.annotations
    requires var own := First(spec.containers, ContainerNamed(meta.name));
      own < |spec.containers| ==> !Internal(spec.containers[own].image)
    requires First(spec.containers, ContainerNamed(meta.name)) < |spec.containers| ==>
      forall s, t :: ':' !in s && ':' !in t ==>
        meta.annotations["notebooks.opendatahub.io/last-image-selection"] != s + ":" + t
    ensures Mutate(spec, meta, snap, o).Err?
  {
    hide Mutate, SelectImage, Internal, ImagePass, Runnable;
    MutateSucceeds(spec, meta, snap, o);
    if First(spec.containers, ContainerNamed(meta.name)) < |spec.containers| {
      Malformed(meta.annotations, snap);
      PassPaints(spec.containers, meta.name, SelectImage(meta.annotations, snap),
        meta.annotations[IMAGE_SELECTION_ANNOTATION]);
    }
  }

  /** The place of the container the webhook puts in, if it does. */
  function ProxyAt(spec: PodSpec, meta: Meta): nat {
    if InjectionEnabled(meta.annotations) then First(spec.containers, ContainerNamed("kube-rbac-proxy"))
    else |spec.containers|
  }

  lemma {:induction false} LaterStepsKeep(spec: PodSpec, meta: Meta, snap: Snapshot, o: Orders)
    requires meta.name != "kube-rbac-proxy" && Feasible(o, snap) && Mutate(spec, meta, snap, o).Ok?
    ensures SetImage(spec, meta, snap).Ok?
    ensures var s1, out := SetImage(spec, meta, snap).value.containers, Mutate(spec, meta, snap, o).value.containers;
      |out| >= |spec.containers| == |s1| && forall i :: 0 <= i < |s1| && i != ProxyAt(spec, meta) ==>
        out[i].image == s1[i].image && SameVariable(out[i].env, s1[i].env)
  {
    hide Mutate, SetImage, Feasible, Finished, Runnable, MlflowInstance, InjectionEnabled, Sidecar, FeastActOf,
      FeastEnabled;
    MutateSucceeds(spec, meta, snap, o);
    var s1, out := SetImage(spec, meta, snap).value, Mutate(spec, meta, snap, o).value;
    var act, sidecar := FeastActOf(s1.volumes, FeastEnabled(meta.labels)), Sidecar(meta, snap);
    SetImageFrame(spec, meta, snap);
    MutateFinished(spec, s1, meta, snap, o);
    SidecarIfInjected(meta, snap);
    FirstByName(spec.containers, s1.containers, "kube-rbac-proxy");
    FinishedLength(s1, out, meta.name, act, MlflowInstance(meta.annotations), sidecar, snap, o);
    forall i | 0 <= i < |spec.containers|
      && !(sidecar.Some? && i == First(s1.containers, ContainerNamed(PROXY_CONTAINER)))
      ensures out.containers[i].image == s1.containers[i].image
      ensures SameVariable(out.containers[i].env, s1.containers[i].env)
    {
      LaterStepsSpare(s1, out, meta.name, act, MlflowInstance(meta.annotations), sidecar, snap, o, i);
    }
  }

  lemma {:induction false} FinishedLength(s1: PodSpec, t: PodSpec, name: string, act: FeastAct, instance: string,
                                          sidecar: Option<Container>, snap: Snapshot, o: Orders)
    requires Finished(s1, t, name, act, instance, sidecar, snap, o)
    ensures |t.containers| >= |s1.containers|
  {}

  lemma {:induction false} SidecarIfInjected(meta: Meta, snap: Snapshot)
    requires Runnable(meta, snap)
    ensures Sidecar(meta, snap).Some? <==> InjectionEnabled(meta.annotations)
  {}

  lemma {:induction false} OwnIsNoProxy(cs: seq<Container>, name: string)
    requires name != "kube-rbac-proxy" && First(cs, ContainerNamed(name)) < |cs|
    ensures First(cs, ContainerNamed(name)) != First(cs, ContainerNamed("kube-rbac-proxy"))
  {}
}
