/** The culler: activity read from kernels and terminals, remembered in annotations whose times
    lose their fraction of a second, and the decision to stop an idle workbench. */
module Culler {
  import opened PodModel

  /** Instants in nanoseconds. */
  const SECOND := 1_000_000_000
  const MINUTE := 60 * SECOND

  /** Go's zero time, January 1 of year 1, which a failed parse leaves behind. */
  const ZERO_TIME := -62135596800 * SECOND

  /** A text, as far as time.Parse is concerned. */
  datatype Text = Time(at: int) | NoTime(text: string)

  const LAST_ACTIVITY := "notebooks.kubeflow.org/last-activity"
  const LAST_CHECK := "notebooks.kubeflow.org/last_activity_check_timestamp"

  /** The annotations of an object; None when it has none at all. */
  type Annotations = Option<map<string, Text>>

  datatype Kernel = Kernel(state: string, lastActivity: Text)
  datatype Settings = Settings(idleMinutes: int, periodMinutes: int)

  /** time.Format keeps whole seconds. */
  function Floor(t: int): int { t - t % SECOND }

  lemma {:induction false} FloorBounds(t: int)
    ensures t - SECOND < Floor(t) <= t && Floor(Floor(t)) == Floor(t)
  {}

  lemma {:induction false} FloorMonotone(a: int, b: int)
    requires a <= b
    ensures Floor(a) <= Floor(b)
  {
    assert Floor(a) == a / SECOND * SECOND && Floor(b) == b / SECOND * SECOND;
  }

  function Format(t: int): Text { Time(Floor(t)) }

  function Has(a: Annotations, key: string): Option<Text> {
    if a.Some? && key in a.value then Some(a.value[key]) else None
  }

  function Parsed(t: Option<Text>): Option<int> {
    if t.Some? && t.value.Time? then Some(t.value.at) else None
  }

  function Max(a: int, b: int): int { if a >= b then a else b }

  // ----- Activity of one list ---------------------------------------------------------------

  predicate AllParse(ts: seq<Text>) {
    forall i :: 0 <= i < |ts| ==> ts[i].Time?
  }

  /** The latest of a list of instants. */
  function Latest(ts: seq<Text>): (r: int)
    requires ts != [] && AllParse(ts)
    ensures forall i :: 0 <= i < |ts| ==> ts[i].at <= r
    ensures exists i :: 0 <= i < |ts| && ts[i].at == r
  {
    if |ts| == 1 then ts[0].at
    else
      var rest := Latest(ts[1..]);
      assert exists i :: 0 <= i < |ts| && ts[i].at == Max(ts[0].at, rest) by {
        var j :| 0 <= j < |ts[1..]| && ts[1..][j].at == rest;
        assert ts[0].at == Max(ts[0].at, rest) || ts[j + 1].at == Max(ts[0].at, rest);
      }
      Max(ts[0].at, rest)
  }

  /** The loop over the list: nothing when some entry does not parse. */
  method GetNotebookRecentTime(ts: seq<Text>) returns (r: Option<Text>)
    requires ts != []
    ensures r == if AllParse(ts) then Some(Format(Latest(ts))) else None
  {
    if ts[0].NoTime? { return None; }
    var recentTime := ts[0].at;
    for i := 1 to |ts|
      invariant AllParse(ts[..i])
      invariant forall j :: 0 <= j < i ==> ts[j].at <= recentTime
      invariant exists j :: 0 <= j < i && ts[j].at == recentTime
    {
      if ts[i].NoTime? { return None; }
      if ts[i].at > recentTime {
        recentTime := ts[i].at;
      }
    }
    return Some(Format(recentTime));
  }

  // ----- Updates ------------------------------------------------------------------------------

  function ActivityOf(kernels: seq<Kernel>): seq<Text> {
    seq(|kernels|, i requires 0 <= i < |kernels| => kernels[i].lastActivity)
  }

  predicate Busy(kernels: seq<Kernel>) {
    exists i :: 0 <= i < |kernels| && kernels[i].state != "idle"
  }

  /** Take over the latest of a list, unless the annotation is later or one of them does not parse. */
  function FromList(a: map<string, Text>, ts: seq<Text>): map<string, Text> {
    if ts == [] || !AllParse(ts) then a
    else match Parsed(Has(Some(a), LAST_ACTIVITY))
      case None => a
      case Some(t) => if t > Floor(Latest(ts)) then a else a[LAST_ACTIVITY := Format(Latest(ts))]
  }

  function FromKernels(a: map<string, Text>, kernels: seq<Kernel>, now: int): map<string, Text> {
    if Busy(kernels) then a[LAST_ACTIVITY := Format(now)] else FromList(a, ActivityOf(kernels))
  }

  predicate PeriodPassed(a: Annotations, s: Settings, now: int) {
    match Has(a, LAST_CHECK)
    case None => false
    case Some(t) => (if t.Time? then t.at else ZERO_TIME) + s.periodMinutes * MINUTE < now
  }

  predicate IsIdle(a: Annotations, s: Settings, now: int) {
    && Has(a, STOP_ANNOTATION).None?
    && Parsed(Has(a, LAST_ACTIVITY)).Some?
    && now > Parsed(Has(a, LAST_ACTIVITY)).value + s.idleMinutes * MINUTE
  }

  /** The clock as one check reads it, in this order. */
  datatype Clock = Clock(kernels: int, check: int, idle: int, stop: int)

  predicate Monotone(c: Clock) { c.kernels <= c.check <= c.idle <= c.stop }

  /** What one check writes. */
  function Checked(a: map<string, Text>, kernels: seq<Kernel>, terminals: seq<Text>, c: Clock,
                   s: Settings): map<string, Text>
  {
    var active := FromList(FromKernels(a, kernels, c.kernels), terminals);
    var stamped := active[LAST_CHECK := Format(c.check)];
    if IsIdle(Some(stamped), s, c.idle) then stamped[STOP_ANNOTATION := Format(c.stop)] else stamped
  }

  function Initialised(a: Annotations, now: int): map<string, Text> {
    (if a.Some? then a.value else map[])[LAST_ACTIVITY := Format(now)][LAST_CHECK := Format(now)]
  }

  function Removed(a: Annotations): Annotations {
    if a.None? then None else Some(a.value - {LAST_ACTIVITY} - {LAST_CHECK})
  }

  /** The notebook's metadata as the culler edits them. */
  class ObjectMeta {
    var annotations: Annotations

    constructor (a: Annotations)
      ensures annotations == a
    {
      annotations := a;
    }

    method AllKernelsAreIdle(kernels: seq<Kernel>) returns (idle: bool)
      ensures idle == !Busy(kernels)
    {
      for i := 0 to |kernels|
        invariant forall j :: 0 <= j < i ==> kernels[j].state == "idle"
      {
        if kernels[i].state != "idle" { return false; }
      }
      return true;
    }

    method CompareAnnotationTimeToResource(resourceTime: Text) returns (r: bool)
      ensures var t := Parsed(Has(annotations, LAST_ACTIVITY)); r <==>
        t.Some? && resourceTime.Time? && t.value <= resourceTime.at
    {
      var annotationTime := Parsed(Has(annotations, LAST_ACTIVITY));
      if annotationTime.None? || resourceTime.NoTime? { return false; }
      return !(annotationTime.value > resourceTime.at);
    }

    method UpdateFromList(ts: seq<Text>)
      requires annotations.Some?
      modifies this
      ensures annotations == Some(FromList(old(annotations).value, ts))
    {
      if |ts| == 0 { return; }
      var t := GetNotebookRecentTime(ts);
      if t.None? { return; }
      var later := CompareAnnotationTimeToResource(t.value);
      if !later { return; }
      annotations := Some(annotations.value[LAST_ACTIVITY := t.value]);
    }

    /** Writing to a missing annotation map panics. */
    method UpdateTimestampFromKernelsActivity(kernels: seq<Kernel>, now: int) returns (panicked: bool)
      modifies this
      ensures panicked <==> old(annotations).None? && Busy(kernels)
      ensures annotations == if old(annotations).None? then None
        else Some(FromKernels(old(annotations).value, kernels, now))
    {
      if |kernels| == 0 { return false; }
      var idle := AllKernelsAreIdle(kernels);
      if !idle {
        if annotations.None? { return true; }
        annotations := Some(annotations.value[LAST_ACTIVITY := Format(now)]);
        return false;
      }
      if annotations.None? { return false; }
      UpdateFromList(ActivityOf(kernels));
      return false;
    }

    /** One check: both activity updates, the check timestamp, and the stop if idle. A panic writes
        nothing to the server. */
    method CheckForCulling(kernels: seq<Kernel>, terminals: seq<Text>, c: Clock, s: Settings) returns (panicked: bool)
      modifies this
      ensures panicked <==> old(annotations).None?
      ensures annotations == if panicked then None else Some(Checked(old(annotations).value, kernels, terminals, c, s))
    {
      panicked := UpdateTimestampFromKernelsActivity(kernels, c.kernels);
      if panicked || annotations.None? { return true; }
      UpdateFromList(terminals);
      annotations := Some(annotations.value[LAST_CHECK := Format(c.check)]);
      if IsIdle(annotations, s, c.idle) {
        annotations := Some(annotations.value[STOP_ANNOTATION := Format(c.stop)]);
      }
    }

    method InitializeAnnotations(now: int)
      modifies this
      ensures annotations == Some(Initialised(old(annotations), now))
    {
      if annotations.None? { annotations := Some(map[]); }
      annotations := Some(annotations.value[LAST_ACTIVITY := Format(now)]);
      annotations := Some(annotations.value[LAST_CHECK := Format(now)]);
    }

    method RemoveAnnotations()
      modifies this
      ensures annotations == Removed(old(annotations))
    {
      if annotations.Some? && LAST_ACTIVITY in annotations.value {
        annotations := Some(annotations.value - {LAST_ACTIVITY});
      }
      if annotations.Some? && LAST_CHECK in annotations.value { annotations := Some(annotations.value - {LAST_CHECK}); }
      assert old(annotations).Some? ==> annotations.value == old(annotations).value - {LAST_ACTIVITY} - {LAST_CHECK};
    }
  }

  // ----- Activity tracking is a maximum ---------------------------------------------------------

  lemma {:induction false} KeysApart()
    ensures LAST_ACTIVITY != LAST_CHECK && LAST_ACTIVITY != STOP_ANNOTATION && LAST_CHECK != STOP_ANNOTATION
  {
    assert |LAST_ACTIVITY| == 36 && |LAST_CHECK| == 52 && |STOP_ANNOTATION| == 25;
  }

  /** Where a list counts, its latest instant without the fraction; otherwise `low`. */
  function Reported(ts: seq<Text>, low: int): int {
    if ts == [] || !AllParse(ts) then low else Latest(ts) - Latest(ts) % 1_000_000_000
  }

  /** One check leaves last-activity at the maximum of what it was, or of now if a kernel is busy,
      and of the lists that parse. */
  lemma {:induction false} ActivityIsMax(a: map<string, Text>, kernels: seq<Kernel>, terminals: seq<Text>, c: Clock,
                                         s: Settings, t: int)
    requires LAST_ACTIVITY in a && a[LAST_ACTIVITY] == Time(t)
    ensures var activity := seq(|kernels|, i requires 0 <= i < |kernels| => kernels[i].lastActivity);
      var base := if exists k <- kernels :: k.state != "idle" then c.kernels - c.kernels % 1_000_000_000
        else Max(t, Reported(activity, t));
      Has(Some(Checked(a, kernels, terminals, c, s)), "notebooks.kubeflow.org/last-activity")
      == Some(Time(Max(base, Reported(terminals, base))))
  {
    KeysApart();
  }

  /** Reported activity is never ahead of the clock. */
  predicate Behind(ts: seq<Text>, now: int) {
    forall i :: 0 <= i < |ts| ==> ts[i].Time? ==> ts[i].at <= now
  }

  /** Last-activity never goes back, and stays behind the clock. */
  lemma {:induction false} ActivityAdvances(a: map<string, Text>, kernels: seq<Kernel>, terminals: seq<Text>, c: Clock,
                                            s: Settings, t: int)
    requires LAST_ACTIVITY in a && a[LAST_ACTIVITY] == Time(t) && t <= Floor(c.kernels) && Monotone(c)
    requires Behind(ActivityOf(kernels), c.kernels) && Behind(terminals, c.kernels)
    ensures var r := Parsed(Has(Some(Checked(a, kernels, terminals, c, s)), LAST_ACTIVITY));
      r.Some? && t <= r.value <= Floor(c.kernels)
  {
    ActivityIsMax(a, kernels, terminals, c, s, t);
    if ActivityOf(kernels) != [] && AllParse(ActivityOf(kernels)) {
      FloorMonotone(Latest(ActivityOf(kernels)), c.kernels);
    }
    if terminals != [] && AllParse(terminals) { FloorMonotone(Latest(terminals), c.kernels); }
  }

  // ----- Runs --------------------------------------------------------------------------------------

  datatype Event =
    | Initialise(now: int)
    | Check(kernels: seq<Kernel>, terminals: seq<Text>, due: int, clock: Clock)
    | Forget                                  // stopped, or the pod is gone
    | Others(annotations: Annotations)        // writes of everybody else

  /** The stored annotations, the activity accepted since initialisation, and the last check. */
  datatype State = State(annotations: Annotations, accepted: seq<int>, checked: Option<int>)

  function Instants(ts: seq<Text>): seq<int> {
    if ts == [] || !AllParse(ts) then [] else seq(|ts|, i requires 0 <= i < |ts| => ts[i].at)
  }

  /** What a check takes as activity: now, for a busy kernel; a list that parses in full. */
  function Activity(e: Event): seq<int>
    requires e.Check?
  {
    (if Busy(e.kernels) then [e.clock.kernels] else Instants(ActivityOf(e.kernels))) + Instants(e.terminals)
  }

  function Next(st: State, e: Event, s: Settings): State {
    match e
    case Initialise(now) => State(Some(Initialised(st.annotations, now)), [now], Some(now))
    case Check(kernels, terminals, due, clock) =>
      // writing to a missing annotation map panics, and nothing is written
      if st.annotations.None? then st
      else State(Some(Checked(st.annotations.value, kernels, terminals, clock, s)), st.accepted + Activity(e),
        Some(clock.check))
    case Forget => State(Removed(st.annotations), [], None)
    case Others(annotations) => st.(annotations := annotations)
  }

  /** The latest clock reading of an event. */
  function Until(e: Event, at: int): int {
    match e
    case Initialise(now) => now
    case Check(_, _, _, clock) => clock.stop
    case _ => at
  }

  /** The clock only advances from `at` on, activity is not ahead of it, a check comes when its period
      has passed, and nobody else writes the culler's two annotations. */
  predicate Legal(st: State, e: Event, s: Settings, at: int) {
    match e
    case Initialise(now) => at <= now
    case Check(kernels, terminals, due, clock) =>
      && at <= due <= clock.kernels && Monotone(clock) && PeriodPassed(st.annotations, s, due)
      && Behind(ActivityOf(kernels), clock.kernels) && Behind(terminals, clock.kernels)
    case Forget => true
    case Others(annotations) =>
      SameMarks(annotations, st.annotations)
  }

  predicate SameMarks(a: Annotations, b: Annotations) {
    Has(a, LAST_ACTIVITY) == Has(b, LAST_ACTIVITY) && Has(a, LAST_CHECK) == Has(b, LAST_CHECK)
  }

  /** The latest accepted instant is remembered, up to its fraction of a second, and so is the last check. */
  ghost predicate Remembers(st: State, at: int) {
    match st.checked
    case None => st.accepted == [] && Has(st.annotations, LAST_CHECK) == None
    case Some(c) =>
      && Has(st.annotations, LAST_CHECK) == Some(Format(c))
      && Parsed(Has(st.annotations, LAST_ACTIVITY)).Some?
        && Parsed(Has(st.annotations, LAST_ACTIVITY)).value <= Floor(at)
      && (forall x <- st.accepted :: Floor(x) <= Parsed(Has(st.annotations, LAST_ACTIVITY)).value)
      && Attained(st.accepted, Parsed(Has(st.annotations, LAST_ACTIVITY)).value)
  }

  /** Some instant of the list has these whole seconds. */
  ghost predicate Attained(xs: seq<int>, seconds: int) {
    exists i :: 0 <= i < |xs| && Floor(xs[i]) == seconds
  }

  lemma {:induction false} LatestAttained(ts: seq<Text>)
    requires ts != [] && AllParse(ts)
    ensures Attained(Instants(ts), Floor(Latest(ts)))
  {
    var i :| 0 <= i < |ts| && ts[i].at == Latest(ts);
    assert Instants(ts)[i] == ts[i].at;
  }

  lemma {:induction false} AttainedConcat(a: seq<int>, b: seq<int>, seconds: int)
    requires Attained(a, seconds) || Attained(b, seconds)
    ensures Attained(a + b, seconds)
  {
    if i :| 0 <= i < |a| && Floor(a[i]) == seconds {
      assert (a + b)[i] == a[i];
    } else {
      var i :| 0 <= i < |b| && Floor(b[i]) == seconds;
      assert (a + b)[|a| + i] == b[i];
    }
  }

  /** What a check makes of last-activity is an instant it accepts, or the one there was. */
  lemma {:induction false} ActivityAttained(accepted: seq<int>, e: Event, t: int)
    requires e.Check? && Attained(accepted, t)
    ensures var base := if Busy(e.kernels) then Floor(e.clock.kernels) else Max(t, Reported(ActivityOf(e.kernels), t));
      Attained(accepted + Activity(e), Max(base, Reported(e.terminals, base)))
  {
    var first := if Busy(e.kernels) then [e.clock.kernels] else Instants(ActivityOf(e.kernels));
    var base := if Busy(e.kernels) then Floor(e.clock.kernels) else Max(t, Reported(ActivityOf(e.kernels), t));
    if Busy(e.kernels) {
      assert Floor(first[0]) == base;
    } else if Reported(ActivityOf(e.kernels), t) != t {
      LatestAttained(ActivityOf(e.kernels));
    }
    AttainedConcat(accepted, first, base);
    if Reported(e.terminals, base) != base { LatestAttained(e.terminals); }
    AttainedConcat(accepted + first, Instants(e.terminals), Max(base, Reported(e.terminals, base)));
    assert (accepted + first) + Instants(e.terminals) == accepted + Activity(e);
  }

  lemma {:induction false} InstantsReported(ts: seq<Text>, low: int, x: int)
    requires x in Instants(ts)
    ensures Floor(x) <= Reported(ts, low)
  {
    var i :| 0 <= i < |ts| && ts[i].at == x;
    FloorMonotone(x, Latest(ts));
  }

  lemma {:induction false} ActivityCovered(e: Event, t: int, x: int)
    requires e.Check? && x in Activity(e)
    ensures var base := if Busy(e.kernels) then Floor(e.clock.kernels) else Max(t, Reported(ActivityOf(e.kernels), t));
      Floor(x) <= Max(base, Reported(e.terminals, base))
  {
    var base := if Busy(e.kernels) then Floor(e.clock.kernels) else Max(t, Reported(ActivityOf(e.kernels), t));
    if x in Instants(e.terminals) {
      InstantsReported(e.terminals, base, x);
    } else if !Busy(e.kernels) {
      InstantsReported(ActivityOf(e.kernels), t, x);
    }
  }

  lemma {:induction false} CheckRemembers(st: State, e: Event, s: Settings, at: int)
    requires Remembers(st, at) && e.Check? && Legal(st, e, s, at)
    ensures Remembers(Next(st, e, s), Until(e, at))
  {
    var t := Parsed(Has(st.annotations, LAST_ACTIVITY)).value;
    FloorMonotone(at, e.clock.kernels);
    FloorMonotone(e.clock.kernels, e.clock.stop);
    ActivityIsMax(st.annotations.value, e.kernels, e.terminals, e.clock, s, t);
    ActivityAdvances(st.annotations.value, e.kernels, e.terminals, e.clock, s, t);
    KeysApart();
    ActivityAttained(st.accepted, e, t);
    forall x | x in st.accepted + Activity(e)
      ensures Floor(x) <= Parsed(Has(Next(st, e, s).annotations, LAST_ACTIVITY)).value {
      if x in Activity(e) { ActivityCovered(e, t, x); }
    }
  }

  lemma {:induction false} InitialiseRemembers(st: State, now: int, s: Settings)
    ensures Remembers(Next(st, Initialise(now), s), now)
  {
    KeysApart();
    assert Floor([now][0]) == Floor(now);
  }

  lemma {:induction false} EventRemembers(st: State, e: Event, s: Settings, at: int)
    requires Remembers(st, at) && Legal(st, e, s, at)
    ensures Remembers(Next(st, e, s), Until(e, at))
  {
    KeysApart();
    match e
    case Check(_, _, _, _) => CheckRemembers(st, e, s, at);
    case Initialise(now) => InitialiseRemembers(st, now, s);
    case _ =>
  }

  function Run(st: State, events: seq<Event>, s: Settings): State
    decreases |events|
  {
    if events == [] then st else Run(Next(st, events[0], s), events[1..], s)
  }

  predicate LegalRun(st: State, events: seq<Event>, s: Settings, at: int)
    decreases |events|
  {
    events != [] ==>
      Legal(st, events[0], s, at) && LegalRun(Next(st, events[0], s), events[1..], s, Until(events[0], at))
  }

  function RunUntil(events: seq<Event>, at: int): int
    decreases |events|
  {
    if events == [] then at else RunUntil(events[1..], Until(events[0], at))
  }

  lemma {:induction false} RunRemembers(st: State, events: seq<Event>, s: Settings, at: int)
    requires Remembers(st, at) && LegalRun(st, events, s, at)
    ensures Remembers(Run(st, events, s), RunUntil(events, at))
    decreases |events|
  {
    hide Remembers, Next, Legal;
    if events != [] {
      EventRemembers(st, events[0], s, at);
      RunRemembers(Next(st, events[0], s), events[1..], s, Until(events[0], at));
    }
  }

  /** The culler stops a workbench only when the clock is past every activity it accepted since
      initialisation, the last check's included, by more than the idle time less one second; it
      never touches a stop that is already there; and it checks only when the clock is past the
      last check by more than the period less one second. */
  lemma {:induction false} CullBound(annotations: Annotations, events: seq<Event>, e: Event, s: Settings, at: int)
    requires Has(annotations, LAST_CHECK) == None
    requires var st := State(annotations, [], None);
      LegalRun(st, events, s, at) && e.Check? && Legal(Run(st, events, s), e, s, RunUntil(events, at))
    ensures var st := Run(State(annotations, [], None), events, s);
      var after := Next(st, e, s);
      && (Has(st.annotations, STOP_ANNOTATION).Some? ==>
        Has(after.annotations, STOP_ANNOTATION) == Has(st.annotations, STOP_ANNOTATION))
      && (Has(after.annotations, STOP_ANNOTATION) != Has(st.annotations, STOP_ANNOTATION) ==>
            forall x <- after.accepted :: e.clock.idle > x + s.idleMinutes * MINUTE - SECOND)
      && st.checked.Some? && e.due > st.checked.value + s.periodMinutes * MINUTE - SECOND
  {
    var start := State(annotations, [], None);
    RunRemembers(start, events, s, at);
    CullStep(Run(start, events, s), e, s, RunUntil(events, at));
  }

  lemma {:induction false} CullStep(st: State, e: Event, s: Settings, at: int)
    requires Remembers(st, at) && e.Check? && Legal(st, e, s, at)
    ensures var after := Next(st, e, s);
      && (Has(st.annotations, STOP_ANNOTATION).Some? ==>
        Has(after.annotations, STOP_ANNOTATION) == Has(st.annotations, STOP_ANNOTATION))
      && (Has(after.annotations, STOP_ANNOTATION) != Has(st.annotations, STOP_ANNOTATION) ==>
            forall x <- after.accepted :: e.clock.idle > x + s.idleMinutes * MINUTE - SECOND)
      && st.checked.Some? && e.due > st.checked.value + s.periodMinutes * MINUTE - SECOND
  {
    var after := Next(st, e, s);
    KeysApart();
    CheckRemembers(st, e, s, at);
    if st.checked.Some? { FloorBounds(st.checked.value); }
    if Has(after.annotations, STOP_ANNOTATION) != Has(st.annotations, STOP_ANNOTATION) {
      forall x | x in after.accepted ensures e.clock.idle > x + s.idleMinutes * MINUTE - SECOND {
        FloorBounds(x);
      }
    }
  }

  // ----- The other half: an idle workbench is stopped -------------------------------------------

  /** The latest of the accepted instants is `x`. */
  ghost predicate IsLatest(xs: seq<int>, x: int) {
    x in xs && forall y <- xs :: y <= x
  }

  /** A check of a run on a workbench without a stop sets it, to the whole seconds of the clock's last
      reading, if and only if the clock is past the whole seconds of the latest accepted activity, the
      check's own included, by more than the idle time. */
  lemma {:induction false} CullsWhenIdle(annotations: Annotations, events: seq<Event>, e: Event, s: Settings, at: int,
                                         latest: int)
    requires Has(annotations, "notebooks.kubeflow.org/last_activity_check_timestamp") == None
    requires var st := State(annotations, [], None);
      LegalRun(st, events, s, at) && e.Check? && Legal(Run(st, events, s), e, s, RunUntil(events, at))
    requires var st := Run(State(annotations, [], None), events, s);
      Has(st.annotations, "kubeflow-resource-stopped").None? && IsLatest(Next(st, e, s).accepted, latest)
    ensures var after := Next(Run(State(annotations, [], None), events, s), e, s);
      Has(after.annotations, "kubeflow-resource-stopped")
      == if e.clock.idle > latest - latest % 1_000_000_000 + s.idleMinutes * 60_000_000_000 then
           Some(Time(e.clock.stop - e.clock.stop % 1_000_000_000))
         else None
  {
    var start := State(annotations, [], None);
    RunRemembers(start, events, s, at);
    StopStep(Run(start, events, s), e, s, RunUntil(events, at), latest);
  }

  lemma {:induction false} LatestRemembered(st: State, at: int, latest: int)
    requires Remembers(st, at) && IsLatest(st.accepted, latest)
    ensures Parsed(Has(st.annotations, LAST_ACTIVITY)) == Some(Floor(latest))
  {
    var t := Parsed(Has(st.annotations, LAST_ACTIVITY)).value;
    var i :| 0 <= i < |st.accepted| && Floor(st.accepted[i]) == t;
    assert st.accepted[i] in st.accepted;
    FloorMonotone(st.accepted[i], latest);
  }

  lemma {:induction false} StopStep(st: State, e: Event, s: Settings, at: int, latest: int)
    requires Remembers(st, at) && e.Check? && Legal(st, e, s, at)
    requires Has(st.annotations, STOP_ANNOTATION).None? && IsLatest(Next(st, e, s).accepted, latest)
    ensures Has(Next(st, e, s).annotations, STOP_ANNOTATION)
         == if e.clock.idle > Floor(latest) + s.idleMinutes * MINUTE then Some(Format(e.clock.stop)) else None
  {
    hide Remembers;
    CheckRemembers(st, e, s, at);
    LatestRemembered(Next(st, e, s), Until(e, at), latest);
    KeysApart();
    PeriodHas(st.annotations, s, e.due);
  }

  lemma {:induction false} PeriodHas(a: Annotations, s: Settings, now: int)
    requires PeriodPassed(a, s, now)
    ensures a.Some?
  {}

  /** In particular where every accepted instant is further back than the idle time. */
  lemma {:induction false} IdleIsStopped(annotations: Annotations, events: seq<Event>, e: Event, s: Settings, at: int)
    requires Has(annotations, "notebooks.kubeflow.org/last_activity_check_timestamp") == None
    requires var st := State(annotations, [], None);
      LegalRun(st, events, s, at) && e.Check? && Legal(Run(st, events, s), e, s, RunUntil(events, at))
    requires var st := Run(State(annotations, [], None), events, s);
      && Has(st.annotations, "kubeflow-resource-stopped").None?
      && forall x <- Next(st, e, s).accepted :: e.clock.idle > x + s.idleMinutes * 60_000_000_000
    ensures Has(Next(Run(State(annotations, [], None), events, s), e, s).annotations, "kubeflow-resource-stopped").Some?
  {
    var start := State(annotations, [], None);
    RunRemembers(start, events, s, at);
    var st := Run(start, events, s);
    CheckRemembers(st, e, s, RunUntil(events, at));
    var accepted := Next(st, e, s).accepted;
    var i :| 0 <= i < |accepted| && Floor(accepted[i]) == Parsed(Has(Next(st, e, s).annotations, LAST_ACTIVITY)).value;
    var latest := Greatest(accepted);
    CullsWhenIdle(annotations, events, e, s, at, latest);
    FloorBounds(latest);
  }

  function Greatest(xs: seq<int>): (r: int)
    requires xs != []
    ensures IsLatest(xs, r)
  {
    if |xs| == 1 then xs[0]
    else
      var rest := Greatest(xs[1..]);
      assert forall y <- xs :: y == xs[0] || y in xs[1..];
      Max(xs[0], rest)
  }

  // ----- What a reconcile writes, by key --------------------------------------------------------

  predicate Written(key: string) {
    || key == "notebooks.kubeflow.org/last-activity" || key == "kubeflow-resource-stopped"
    || key == "notebooks.kubeflow.org/last_activity_check_timestamp"
  }

  /** A check stamps itself with its own whole seconds, and writes no other keys than these three. */
  lemma {:induction false} CheckWrites(a: map<string, Text>, kernels: seq<Kernel>, terminals: seq<Text>, c: Clock,
                                       s: Settings)
    ensures var r := Checked(a, kernels, terminals, c, s);
      && Has(Some(r), "notebooks.kubeflow.org/last_activity_check_timestamp")
      == Some(Time(c.check - c.check % 1_000_000_000))
      && forall k :: !Written(k) ==> Has(Some(r), k) == Has(Some(a), k)
  {
    KeysApart();
  }

  /** Initialising sets both times to now, in whole seconds; forgetting removes both; nothing else moves. */
  lemma {:induction false} InitialisedAndRemoved(a: Annotations, now: int)
    ensures var r, f := Initialised(a, now), Removed(a);
      var activity, check := "notebooks.kubeflow.org/last-activity",
        "notebooks.kubeflow.org/last_activity_check_timestamp";
      && Has(Some(r), activity) == Has(Some(r), check) == Some(Time(now - now % 1_000_000_000))
      && Has(f, activity).None? && Has(f, check).None?
      && forall k :: k != activity && k != check ==> Has(Some(r), k) == Has(a, k) == Has(f, k)
  {
    KeysApart();
  }

  /** A check is due when its stamp is more than the period back; a stamp that is no time counts as the
      zero time, and without one there is no check. */
  lemma {:induction false} DueByStamp(a: Annotations, s: Settings, now: int)
    ensures PeriodPassed(a, s, now) <==>
      match Has(a, "notebooks.kubeflow.org/last_activity_check_timestamp")
      case None => false
      case Some(Time(t)) => t + s.periodMinutes * 60_000_000_000 < now
      case Some(NoTime(_)) => -62135596800_000_000_000 + s.periodMinutes * 60_000_000_000 < now
  {}

  // ----- One reconcile ---------------------------------------------------------------------------------

  /** What one reconcile reads: the object first, again before it writes (`second`) and again for the
      check (`third`), whatever others have written in between; the pod; the two lists. */
  datatype Seen = Seen(
    second: Annotations, third: Annotations, podFound: bool, kernels: seq<Kernel>, terminals: seq<Text>,
    now: int, due: int, clock: Clock)

  predicate Gone(read: Annotations, seen: Seen) {
    Has(read, STOP_ANNOTATION).Some? || !seen.podFound
  }

  predicate Fresh(read: Annotations) {
    Has(read, LAST_ACTIVITY).None? || Has(read, LAST_CHECK).None?
  }

  /** The period is looked up in what was read first, or just initialised. */
  predicate Due(read: Annotations, seen: Seen, s: Settings) {
    && !Gone(read, seen)
    && PeriodPassed(if Fresh(read) then Some(Initialised(seen.second, seen.now)) else read, s, seen.due)
  }

  /** The events of one reconcile. */
  function Steps(read: Annotations, seen: Seen, s: Settings): seq<Event> {
    if Gone(read, seen) then [Others(seen.second), Forget]
    else if Fresh(read) then [Others(seen.second), Initialise(seen.now)] + Checks(read, seen, s)
    else Checks(read, seen, s)
  }

  function Checks(read: Annotations, seen: Seen, s: Settings): seq<Event> {
    if Due(read, seen, s) then [Others(seen.third), Check(seen.kernels, seen.terminals, seen.due, seen.clock)] else []
  }

  lemma {:induction false} RunTwo(st: State, a: Event, b: Event, rest: seq<Event>, s: Settings)
    ensures Run(st, [a, b] + rest, s) == Run(Next(Next(st, a, s), b, s), rest, s)
    ensures rest == [] ==> [a, b] + rest == [a, b] && Run(st, [a, b] + rest, s) == Next(Next(st, a, s), b, s)
  {
    assert ([a, b] + rest)[1..] == [b] + rest && ([b] + rest)[1..] == rest;
  }

  /** The stored annotations end up as the events say; a panic comes exactly when a due check meets
      an object that has lost all its annotations. */
  method Reconcile(meta: ObjectMeta, seen: Seen, s: Settings) returns (panicked: bool)
    modifies meta
    ensures var read := old(meta.annotations);
      meta.annotations == Run(State(read, [], None), Steps(read, seen, s), s).annotations
    ensures panicked <==> Due(old(meta.annotations), seen, s) && seen.third.None?
  {
    hide Checked, Initialised, Removed, PeriodPassed;
    var read, instance := meta.annotations, meta.annotations;
    ghost var start := State(read, [], None);
    if Has(read, STOP_ANNOTATION).Some? || !seen.podFound {
      meta.annotations := seen.second;
      meta.RemoveAnnotations();
      RunTwo(start, Others(seen.second), Forget, [], s);
      return false;
    }
    if Has(read, LAST_ACTIVITY).None? || Has(read, LAST_CHECK).None? {
      meta.annotations := seen.second;
      meta.InitializeAnnotations(seen.now);
      instance := meta.annotations;
      RunTwo(start, Others(seen.second), Initialise(seen.now), Checks(read, seen, s), s);
      start := Next(Next(start, Others(seen.second), s), Initialise(seen.now), s);
    }
    if !PeriodPassed(instance, s, seen.due) { return false; }
    RunTwo(start, Others(seen.third), Check(seen.kernels, seen.terminals, seen.due, seen.clock), [], s);
    meta.annotations := seen.third;
    panicked := meta.CheckForCulling(seen.kernels, seen.terminals, seen.clock, s);
  }

  /** One of the two times is missing. */
  predicate Unmarked(a: Annotations) {
    || Has(a, "notebooks.kubeflow.org/last-activity").None?
    || Has(a, "notebooks.kubeflow.org/last_activity_check_timestamp").None?
  }

  /** The same annotations but for the two times, which are both `time`. */
  ghost predicate MarkedAs(a: Annotations, b: Annotations, time: Option<Text>) {
    && Has(b, "notebooks.kubeflow.org/last-activity") == time
    && Has(b, "notebooks.kubeflow.org/last_activity_check_timestamp") == time
    && forall k: string ::
      k != "notebooks.kubeflow.org/last-activity" && k != "notebooks.kubeflow.org/last_activity_check_timestamp" ==>
        Has(b, k) == Has(a, k)
  }

  /** A stamp is a period old. */
  predicate Old(stamp: Text, s: Settings, now: int) {
    (if stamp.Time? then stamp.at else -62135596800_000_000_000) + s.periodMinutes * 60_000_000_000 < now
  }

  /** What a reconcile leaves. A workbench that is stopped, or has no pod, loses both times; one without them
      gets them; and one whose last check is a period ago is checked, on what is read then. Otherwise nothing is
      written. */
  lemma {:induction false} ReconcileOnKeys(read: Annotations, seen: Seen, s: Settings)
    ensures var left := Run(State(read, [], None), Steps(read, seen, s), s).annotations;
      var now := Time(seen.now - seen.now % 1_000_000_000);
      if Has(read, "kubeflow-resource-stopped").Some? || !seen.podFound then MarkedAs(seen.second, left, None)
      else if Old(if Unmarked(read) then now
        else Has(read, "notebooks.kubeflow.org/last_activity_check_timestamp").value,
        s, seen.due)
      then left == match seen.third case None => None
                                    case Some(a) => Some(Checked(a, seen.kernels, seen.terminals, seen.clock, s))
      else if Unmarked(read) then MarkedAs(seen.second, left, Some(now))
      else left == read
  {
    hide Checked, Initialised, Removed, PeriodPassed, Run;
    var start := State(read, [], None);
    InitialisedAndRemoved(seen.second, seen.now);
    DueByStamp(read, s, seen.due);
    DueByStamp(Some(Initialised(seen.second, seen.now)), s, seen.due);
    RunTwo(start, Others(seen.second), Forget, [], s);
    RunTwo(start, Others(seen.second), Initialise(seen.now), Checks(read, seen, s), s);
    var begun := if Fresh(read) then Next(Next(start, Others(seen.second), s), Initialise(seen.now), s) else start;
    RunTwo(begun, Others(seen.third), Check(seen.kernels, seen.terminals, seen.due, seen.clock), [], s);
    RunNone(start, s);
    RunNone(begun, s);
  }

  lemma {:induction false} RunNone(st: State, s: Settings)
    ensures Run(st, [], s) == st
  {}

  /** The steps of a reconcile are legal for the runs above whenever the clock advances and nobody
      else writes the culler's annotations. */
  lemma {:induction false} StepsAreLegal(st: State, seen: Seen, s: Settings, at: int)
    requires at <= seen.now <= seen.due <= seen.clock.kernels && Monotone(seen.clock)
    requires Behind(ActivityOf(seen.kernels), seen.clock.kernels) && Behind(seen.terminals, seen.clock.kernels)
    requires SameMarks(seen.second, st.annotations)
    requires SameMarks(seen.third, if Fresh(st.annotations) then Some(Initialised(seen.second, seen.now))
      else st.annotations)
    ensures LegalRun(st, Steps(st.annotations, seen, s), s, at)
  {
    hide Checked, Removed;
    var read, first := st.annotations, Others(seen.second);
    var check := Check(seen.kernels, seen.terminals, seen.due, seen.clock);
    var rest := Checks(read, seen, s);
    if Gone(read, seen) {
      LegalTwo(st, first, Forget, [], s, at);
    } else if Fresh(read) {
      var begun := Next(Next(st, first, s), Initialise(seen.now), s);
      if rest != [] { LegalTwo(begun, Others(seen.third), check, [], s, seen.now); }
      LegalTwo(st, first, Initialise(seen.now), rest, s, at);
    } else {
      if rest != [] { LegalTwo(st, Others(seen.third), check, [], s, at); }
    }
  }

  lemma {:induction false} LegalTwo(st: State, a: Event, b: Event, rest: seq<Event>, s: Settings, at: int)
    requires Legal(st, a, s, at) && Legal(Next(st, a, s), b, s, Until(a, at))
    requires LegalRun(Next(Next(st, a, s), b, s), rest, s, Until(b, Until(a, at)))
    ensures LegalRun(st, [a, b] + rest, s, at) && (rest == [] ==> [a, b] + rest == [a, b])
  {
    assert ([a, b] + rest)[1..] == [b] + rest && ([b] + rest)[1..] == rest;
  }
}
