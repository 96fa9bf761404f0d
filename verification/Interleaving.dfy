/** The TLS reconcile among the writes of others: whatever interferes with its reads, writes and
    retries, what the store holds afterwards is the end of a run of single steps, of which at most one
    is the controller's own. */
module Interleaving {
  import opened PodModel
  import opened Mutators
  import opened Admission
  import opened TlsReconcile
  import opened Runs

  // ----- Events and the states they lead through ------------------------------------------------

  function Replay(s: Option<Manifest>, events: seq<Event>): Option<Manifest>
    decreases |events|
  {
    if events == [] then s else Replay(Step(s, events[0]), events[1..])
  }

  function Trace(s: Option<Manifest>, events: seq<Event>): (r: seq<Option<Manifest>>)
    ensures |r| == |events| + 1
    decreases |events|
  {
    if events == [] then [s] else [s] + Trace(Step(s, events[0]), events[1..])
  }

  lemma {:induction false} TraceIsRun(s: Option<Manifest>, events: seq<Event>)
    ensures Run(Trace(s, events), events)
    ensures Trace(s, events)[0] == s && Trace(s, events)[|events|] == Replay(s, events)
    decreases |events|
  {
    hide Step;
    if events != [] {
      var rest := Trace(Step(s, events[0]), events[1..]);
      TraceIsRun(Step(s, events[0]), events[1..]);
      forall i | 0 <= i < |events| ensures Trace(s, events)[i + 1] == Step(Trace(s, events)[i], events[i]) {
        assert Trace(s, events)[i + 1] == rest[i];
        if i > 0 { assert Trace(s, events)[i] == rest[i - 1] && events[i] == events[1..][i - 1]; }
      }
    }
  }

  lemma {:induction false} ReplayConcat(s: Option<Manifest>, a: seq<Event>, b: seq<Event>)
    ensures Replay(s, a + b) == Replay(Replay(s, a), b)
    decreases |a|
  {
    hide Step;
    if a == [] {
      assert a + b == b;
    } else {
      assert (a + b)[1..] == a[1..] + b;
      ReplayConcat(Step(s, a[0]), a[1..], b);
    }
  }

  // ----- One attempt ------------------------------------------------------------------------------

  /** What others do before an attempt reads and between its read and its write, and what the
      webhooks find when it writes. */
  datatype Interference = Interference(
    before: seq<Event>, between: seq<Event>, snap: Snapshot, o: Orders, reason: string)

  /** The surroundings of the attempt are made of these events, none of which erases the notebook for good. */
  ghost predicate Drives(e: Surroundings, x: Interference, stored: Manifest) {
    var read := Replay(Some(stored), x.before);
    var now := Replay(read, x.between);
    && read.Some? && now.Some? && e.webhooks == Webhooks(x.snap, x.o, x.reason)
    && e.earlier == (if x.before == [] then None else read)
    && e.between == (if x.between == [] then None else now)
  }

  /** The notebook the attempt reads. */
  function ReadBy(stored: Manifest, x: Interference): Manifest
    requires Replay(Some(stored), x.before).Some?
  {
    Replay(Some(stored), x.before).value
  }

  /** The events of others that come before the attempt is over. */
  function Theirs(stored: Manifest, tlsArgs: seq<string>, e: Surroundings, x: Interference): seq<Event>
    requires Replay(Some(stored), x.before).Some?
  {
    x.before + if e.readFails || !TlsPlan(ReadBy(stored, x), tlsArgs).Write? then [] else x.between
  }

  /** The controller's own: its update, if it reaches the webhooks. */
  function Ours(stored: Manifest, tlsArgs: seq<string>, e: Surroundings, x: Interference): seq<Event>
    requires Replay(Some(stored), x.before).Some?
  {
    if e.readFails || !TlsPlan(ReadBy(stored, x), tlsArgs).Write? || e.fate.LostBefore? || x.between != [] then []
    else [TlsPass(tlsArgs, x.snap, x.o, x.reason)]
  }

  lemma {:induction false} AttemptIsRun(stored: Manifest, tlsArgs: seq<string>, e: Surroundings, x: Interference)
    requires Drives(e, x, stored)
    ensures var a := Attempt(stored, tlsArgs, e);
      && Replay(Some(stored), Theirs(stored, tlsArgs, e, x) + Ours(stored, tlsArgs, e, x)) == Some(a.stored)
      && (a.wrote ==> Ours(stored, tlsArgs, e, x) != [])
      && (a.outcome.Conflicted? ==> Ours(stored, tlsArgs, e, x) == [])
  {
    hide TlsPlan, Admit;
    var read := ReadBy(stored, x);
    var theirs, ours := Theirs(stored, tlsArgs, e, x), Ours(stored, tlsArgs, e, x);
    ReplayConcat(Some(stored), theirs, ours);
    ReplayConcat(Some(stored), x.before, if e.readFails || !TlsPlan(read, tlsArgs).Write? then [] else x.between);
    assert e.earlier.None? ==> read == stored;
    if ours != [] {
      assert Replay(Some(read), ours) == Step(Some(read), ours[0]);
      var m := TlsPlan(read, tlsArgs).m;
      assert e.webhooks(read, m) == Admit(Update(read), m, x.snap, x.o, x.reason);
    }
  }

  // ----- All attempts of a pass -------------------------------------------------------------------------

  ghost predicate DrivesAll(es: nat -> Surroundings, xs: nat -> Interference, stored: Manifest, tlsArgs: seq<string>,
                            k: nat)
    requires k < RETRIES
    decreases RETRIES - k
  {
    && Drives(es(k), xs(k), stored)
    && var a := Attempt(stored, tlsArgs, es(k));
       a.outcome.Conflicted? && k + 1 < RETRIES ==> DrivesAll(es, xs, a.stored, tlsArgs, k + 1)
  }

  /** Everything others do until the pass is over. */
  ghost function AllTheirs(es: nat -> Surroundings, xs: nat -> Interference, stored: Manifest, tlsArgs: seq<string>,
                           k: nat): seq<Event>
    requires k < RETRIES && DrivesAll(es, xs, stored, tlsArgs, k)
    decreases RETRIES - k
  {
    var a := Attempt(stored, tlsArgs, es(k));
    Theirs(stored, tlsArgs, es(k), xs(k))
    + if a.outcome.Conflicted? && k + 1 < RETRIES then AllTheirs(es, xs, a.stored, tlsArgs, k + 1) else []
  }

  /** The controller's own event: that of the last attempt. */
  ghost function AllOurs(es: nat -> Surroundings, xs: nat -> Interference, stored: Manifest, tlsArgs: seq<string>,
                         k: nat): (r: seq<Event>)
    requires k < RETRIES && DrivesAll(es, xs, stored, tlsArgs, k)
    ensures |r| <= 1 && forall i :: 0 <= i < |r| ==> r[i].TlsPass? && r[i].tlsArgs == tlsArgs
    decreases RETRIES - k
  {
    var a := Attempt(stored, tlsArgs, es(k));
    if a.outcome.Conflicted? && k + 1 < RETRIES then AllOurs(es, xs, a.stored, tlsArgs, k + 1)
    else Ours(stored, tlsArgs, es(k), xs(k))
  }

  lemma {:induction false} AttemptsAreRun(es: nat -> Surroundings, xs: nat -> Interference, stored: Manifest,
                                          tlsArgs: seq<string>, k: nat)
    requires k < RETRIES && DrivesAll(es, xs, stored, tlsArgs, k)
    ensures var a := Attempts(stored, tlsArgs, es, k);
      && Replay(Some(stored), AllTheirs(es, xs, stored, tlsArgs, k) + AllOurs(es, xs, stored, tlsArgs, k))
      == Some(a.stored)
      && (a.wrote ==> AllOurs(es, xs, stored, tlsArgs, k) != [])
    decreases RETRIES - k
  {
    hide Attempt, Step, Theirs, Ours;
    var a := Attempt(stored, tlsArgs, es(k));
    var theirs, ours := Theirs(stored, tlsArgs, es(k), xs(k)), Ours(stored, tlsArgs, es(k), xs(k));
    AttemptIsRun(stored, tlsArgs, es(k), xs(k));
    if a.outcome.Conflicted? && k + 1 < RETRIES {
      AttemptsAreRun(es, xs, a.stored, tlsArgs, k + 1);
      var later := AllTheirs(es, xs, a.stored, tlsArgs, k + 1);
      var own := AllOurs(es, xs, a.stored, tlsArgs, k + 1);
      assert theirs + ours == theirs;
      assert (theirs + later) + own == theirs + (later + own);
      ReplayConcat(Some(stored), theirs, later + own);
    } else {
      assert theirs + [] == theirs;
    }
  }

  /** A whole pass, from the notebook in memory on, under any interference: with injection on and the
      flags resolved the store ends up as the others' steps followed by at most one of the controller's
      own leave it, which it took if it wrote; otherwise the pass leaves it alone. */
  lemma {:induction false} PassIsRun(es: nat -> Surroundings, xs: nat -> Interference, local: Manifest,
                                     stored: Manifest, resolved: Result<seq<string>>)
    requires resolved.Ok? ==> DrivesAll(es, xs, stored, resolved.value, 0)
    ensures var a := Pass(local, stored, resolved, es);
      if InjectionEnabled(local.meta.annotations) && resolved.Ok? then
        var ours := AllOurs(es, xs, stored, resolved.value, 0);
        && Replay(Some(stored), AllTheirs(es, xs, stored, resolved.value, 0) + ours) == Some(a.stored)
        && |ours| <= 1 && (a.wrote ==> ours != [])
      else a.stored == stored && !a.wrote
  {
    hide Attempts, Step, DrivesAll, AllOurs, AllTheirs, InjectionEnabled;
    if resolved.Ok? { AttemptsAreRun(es, xs, stored, resolved.value, 0); }
  }

  /** So what holds along runs holds across passes that are interfered with: the template stays unless
      some step on the way may move it. */
  lemma {:induction false} InterferedPassStays(es: nat -> Surroundings, xs: nat -> Interference, stored: Manifest,
                                               tlsArgs: seq<string>)
    requires DrivesAll(es, xs, stored, tlsArgs, 0)
    requires var events := AllTheirs(es, xs, stored, tlsArgs, 0) + AllOurs(es, xs, stored, tlsArgs, 0);
      NothingMoves(Trace(Some(stored), events), events, 0, |events|)
    ensures Attempts(stored, tlsArgs, es, 0).stored.spec == stored.spec
  {
    hide Attempts, Step, DrivesAll, NothingMoves;
    var events := AllTheirs(es, xs, stored, tlsArgs, 0) + AllOurs(es, xs, stored, tlsArgs, 0);
    AttemptsAreRun(es, xs, stored, tlsArgs, 0);
    TraceIsRun(Some(stored), events);
    NoSurpriseRestart(Trace(Some(stored), events), events, 0, |events|);
  }

  // ----- Passes in a row ---------------------------------------------------------------------------------

  /** Whole passes one after the other; the number that wrote. */
  function PassWrites(stored: Manifest, tlsArgs: seq<string>, passes: seq<nat -> Surroundings>): nat
    decreases |passes|
  {
    if passes == [] then 0
    else
      var a := Attempts(stored, tlsArgs, passes[0], 0);
      (if a.wrote then 1 else 0) + PassWrites(a.stored, tlsArgs, passes[1..])
  }

  function FirstAttempts(passes: seq<nat -> Surroundings>): (r: seq<Surroundings>)
    ensures |r| == |passes| && forall i :: 0 <= i < |r| ==> r[i] == passes[i](0)
  {
    seq(|passes|, i requires 0 <= i < |passes| => passes[i](0))
  }

  /** With nobody writing in between an attempt does not conflict, and a pass is its first one. */
  lemma {:induction false} PassesAreAttempts(stored: Manifest, tlsArgs: seq<string>, passes: seq<nat -> Surroundings>)
    requires forall i :: 0 <= i < |passes| ==> passes[i](0).between.None?
    ensures PassWrites(stored, tlsArgs, passes) == Writes(stored, tlsArgs, FirstAttempts(passes))
    decreases |passes|
  {
    hide TlsPlan;
    if passes != [] {
      var es := FirstAttempts(passes);
      var a := Attempt(stored, tlsArgs, passes[0](0));
      assert Attempts(stored, tlsArgs, passes[0], 0) == a;
      assert es[1..] == FirstAttempts(passes[1..]);
      PassesAreAttempts(a.stored, tlsArgs, passes[1..]);
    }
  }

  /** For a fixed profile whole passes, with their retries, write at most once among them. */
  lemma {:induction false} PassesWriteOnce(stored: Manifest, tlsArgs: seq<string>, passes: seq<nat -> Surroundings>)
    requires stored.meta.name != PROXY_CONTAINER && InjectionEnabled(stored.meta.annotations)
    requires forall i :: 0 <= i < |passes| ==> Alone(passes[i](0), tlsArgs)
    ensures PassWrites(stored, tlsArgs, passes) <= 1
  {
    hide InjectionEnabled, SameProfile;
    PassesAreAttempts(stored, tlsArgs, passes);
    AtMostOneWrite(stored, tlsArgs, FirstAttempts(passes));
  }
}
