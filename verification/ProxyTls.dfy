/** The sidecar's TLS flags: resolved from the cluster profile, failing closed, and merged
    into an argument list. */
module ProxyTls {
  import opened Text
  import opened PodModel

  // ----- Profiles and library tables --------------------------------------------------

  datatype TlsGroup = SecP256r1 | SecP384r1 | SecP521r1 | X25519 | X25519MLKEM768 | OtherGroup(name: string)
  datatype TlsSpec = TlsSpec(minVersion: string, ciphers: seq<string>, groups: seq<TlsGroup>)
  datatype Adherence = NoOpinion | LegacyOnly | StrictAll | UnknownAdherence(text: string)
  datatype Profile = Profile(kind: string, custom: Option<TlsSpec>)
  datatype CipherSuite = CipherSuite(id: nat, name: string)

  /** What the Go and OpenShift libraries bring along. */
  datatype Tables = Tables(
    profiles: map<string, TlsSpec>,          // built-in profiles by type
    suiteIds: map<string, nat>,              // suite id by IANA name
    fromOpenssl: map<string, seq<string>>,   // IANA names of an OpenSSL name
    secure: seq<CipherSuite>,
    insecure: seq<CipherSuite>,
    fips: bool)

  datatype Resolved = Resolved(args: seq<string>, curves: seq<string>)

  const MIN_VERSION_FLAG := "--tls-min-version="
  const CIPHERS_FLAG := "--tls-cipher-suites="
  const CURVES_FLAG := "--tls-curve-preferences="
  const VERSION_12 := 0x0303
  const VERSION_13 := 0x0304

  /** The protocol number of a version name; 0 for a name that is not one. */
  function Version(name: string): nat {
    if name == "VersionTLS10" then 0x0301 else if name == "VersionTLS11" then 0x0302
    else if name == "VersionTLS12" then VERSION_12 else if name == "VersionTLS13" then VERSION_13 else 0
  }

  // ----- Order-preserving filters --------------------------------------------------------

  /** The defined images of the elements of `s`, in order. */
  function KeepMap<T, U>(s: seq<T>, f: T -> Option<U>): seq<U> {
    if s == [] then [] else (match f(s[0]) case None => [] case Some(u) => [u]) + KeepMap(s[1..], f)
  }

  /** `r` lists the defined images at exactly the positions `at`, in the order of `s`. */
  ghost predicate FilterOf<T, U>(s: seq<T>, f: T -> Option<U>, r: seq<U>, at: seq<nat>) {
    && |at| == |r|
    && (forall i, j :: 0 <= i < j < |at| ==> at[i] < at[j])
    && (forall i :: 0 <= i < |at| ==> at[i] < |s| && f(s[at[i]]) == Some(r[i]))
    && (forall k :: 0 <= k < |s| && f(s[k]).Some? ==> k in at)
  }

  /** The positions from `k` on that `KeepMap` draws from. */
  function KeepAt<T, U>(s: seq<T>, f: T -> Option<U>, k: nat): (at: seq<nat>)
    requires k <= |s|
    ensures forall i :: 0 <= i < |at| ==> k <= at[i] < |s|
    ensures forall i, j :: 0 <= i < j < |at| ==> at[i] < at[j]
    decreases |s| - k
  {
    if k == |s| then [] else
      var rest := KeepAt(s, f, k + 1);
      if f(s[k]).Some? then [k] + rest else rest
  }

  lemma {:induction false} KeepAtValues<T, U>(s: seq<T>, f: T -> Option<U>, k: nat)
    requires k <= |s|
    ensures var at := KeepAt(s, f, k);
      |at| == |KeepMap(s[k..], f)| && forall i :: 0 <= i < |at| ==> f(s[at[i]]) == Some(KeepMap(s[k..], f)[i])
    decreases |s| - k
  {
    if k < |s| {
      KeepAtValues(s, f, k + 1);
      assert s[k..][0] == s[k] && s[k..][1..] == s[k + 1..];
    }
  }

  lemma {:induction false} KeepAtComplete<T, U>(s: seq<T>, f: T -> Option<U>, k: nat)
    requires k <= |s|
    ensures forall m :: k <= m < |s| && f(s[m]).Some? ==> m in KeepAt(s, f, k)
    decreases |s| - k
  {
    if k < |s| { KeepAtComplete(s, f, k + 1); }
  }

  lemma {:induction false} KeepMapIsFilter<T, U>(s: seq<T>, f: T -> Option<U>)
    ensures FilterOf(s, f, KeepMap(s, f), KeepAt(s, f, 0))
  {
    assert s[0..] == s;
    KeepAtValues(s, f, 0);
    KeepAtComplete(s, f, 0);
  }

  lemma {:induction false} KeepMapSnoc<T, U>(s: seq<T>, k: nat, f: T -> Option<U>)
    requires k < |s|
    ensures KeepMap(s[..k + 1], f) == KeepMap(s[..k], f) + (match f(s[k]) case None => [] case Some(u) => [u])
    decreases k
  {
    if k == 0 {
      assert s[..1][1..] == [] && KeepMap(s[..1][1..], f) == [];
    } else {
      assert s[..k + 1][1..] == s[1..][..k] && s[..k][1..] == s[1..][..k - 1];
      KeepMapSnoc(s[1..], k - 1, f);
    }
  }

  // ----- Curves ------------------------------------------------------------------------------

  function CurveId(g: TlsGroup): Option<nat> {
    match g
    case SecP256r1 => Some(23)
    case SecP384r1 => Some(24)
    case SecP521r1 => Some(25)
    case X25519 => Some(29)
    case X25519MLKEM768 => Some(4588)
    case OtherGroup(_) => None
  }

  predicate FipsApproved(g: TlsGroup) {
    g.SecP256r1? || g.SecP384r1? || g.SecP521r1?
  }

  function UsableCurve(fips: bool): TlsGroup -> Option<string> {
    (g: TlsGroup) => if CurveId(g).None? || (fips && !FipsApproved(g)) then None else Some(Itoa(CurveId(g).value))
  }

  function Curves(groups: seq<TlsGroup>, strict: bool, fips: bool): Result<seq<string>> {
    var ids := KeepMap(groups, UsableCurve(fips));
    if groups != [] && ids == [] && strict then Err("strict TLS profile groups cannot be represented") else Ok(ids)
  }

  method CurvePreferenceIds(groups: seq<TlsGroup>, strict: bool, fips: bool) returns (r: Result<seq<string>>)
    ensures r == Curves(groups, strict, fips)
  {
    if |groups| == 0 { return Ok([]); }
    var ids: seq<string> := [];
    for k := 0 to |groups|
      invariant ids == KeepMap(groups[..k], UsableCurve(fips))
    {
      KeepMapSnoc(groups, k, UsableCurve(fips));
      var group := groups[k];
      if CurveId(group).None? { continue; }
      if fips && !FipsApproved(group) { continue; }
      ids := ids + [Itoa(CurveId(group).value)];
    }
    assert groups[..|groups|] == groups;
    if |ids| == 0 && strict { return Err("strict TLS profile groups cannot be represented"); }
    return Ok(ids);
  }

  // ----- Cipher suites ---------------------------------------------------------------------------

  /** The suites this runtime can negotiate: all secure ones, and insecure ones without RC4. */
  ghost function RuntimeSuites(t: Tables): set<CipherSuite> {
    set cs | cs in t.secure + t.insecure && (cs in t.secure || !Contains(cs.name, "RC4"))
  }

  /** Building the set of their ids. */
  method RuntimeCipherIds(t: Tables) returns (ids: set<nat>)
    ensures forall id :: id in ids <==> exists cs :: cs in RuntimeSuites(t) && cs.id == id
  {
    ids := {};
    for k := 0 to |t.secure|
      invariant forall id :: id in ids <==> exists i :: 0 <= i < k && t.secure[i].id == id
    {
      ids := ids + {t.secure[k].id};
    }
    ghost var secure := ids;
    for k := 0 to |t.insecure|
      invariant forall id :: id in ids <==>
        id in secure || exists i :: 0 <= i < k && t.insecure[i].id == id && !Contains(t.insecure[i].name, "RC4")
    {
      if !Contains(t.insecure[k].name, "RC4") { ids := ids + {t.insecure[k].id}; }
    }
    forall id ensures id in ids <==> exists cs :: cs in RuntimeSuites(t) && cs.id == id {
      if id in secure {
        var i :| 0 <= i < |t.secure| && t.secure[i].id == id;
        assert t.secure[i] in t.secure && t.secure[i] in RuntimeSuites(t);
      } else if id in ids {
        var i :| 0 <= i < |t.insecure| && t.insecure[i].id == id && !Contains(t.insecure[i].name, "RC4");
        assert t.insecure[i] in t.insecure && t.insecure[i] in RuntimeSuites(t);
      }
    }
  }

  /** The first suite listed under an id. */
  function SuiteName(suites: seq<CipherSuite>, id: nat): Option<string> {
    if suites == [] then None else if suites[0].id == id then Some(suites[0].name) else SuiteName(suites[1..], id)
  }

  predicate RuntimeId(t: Tables, id: nat) {
    (exists i :: 0 <= i < |t.secure| && t.secure[i].id == id)
    || (exists i :: 0 <= i < |t.insecure| && t.insecure[i].id == id && !Contains(t.insecure[i].name, "RC4"))
  }

  predicate Usable12(t: Tables, id: nat) {
    !(0x1300 <= id <= 0x13ff) && RuntimeId(t, id)
  }

  function CipherId(t: Tables, name: string): Option<nat> {
    if name in t.suiteIds then Some(t.suiteIds[name])
    else if name in t.fromOpenssl && |t.fromOpenssl[name]| == 1 && t.fromOpenssl[name][0] in t.suiteIds then
      Some(t.suiteIds[t.fromOpenssl[name][0]])
    else None
  }

  /** The IANA name under which a profile entry can be served with TLS 1.2. */
  function Iana(t: Tables): string -> Option<string> {
    (entry: string) =>
      var name := TrimSpace(entry);
      if name == "" || CipherId(t, name).None? || !Usable12(t, CipherId(t, name).value) then None
      else SuiteName(t.secure + t.insecure, CipherId(t, name).value)
  }

  const HTTP2_RSA := "TLS_ECDHE_RSA_WITH_AES_128_GCM_SHA256"
  const HTTP2_ECDSA := "TLS_ECDHE_ECDSA_WITH_AES_128_GCM_SHA256"

  predicate Http2Served(ciphers: seq<string>) {
    HTTP2_RSA in ciphers || HTTP2_ECDSA in ciphers
  }

  method HasHttp2RequiredCipher(ciphers: seq<string>) returns (r: bool)
    ensures r == Http2Served(ciphers)
  {
    for k := 0 to |ciphers|
      invariant HTTP2_RSA !in ciphers[..k] && HTTP2_ECDSA !in ciphers[..k]
    {
      if ciphers[k] == HTTP2_RSA || ciphers[k] == HTTP2_ECDSA { return true; }
    }
    return false;
  }

  function Ciphers(names: seq<string>, t: Tables): Result<seq<string>> {
    var found := KeepMap(names, Iana(t));
    if found == [] then Err("TLS profile has no cipher suite usable with TLS 1.2")
    else if !Http2Served(found) then Err("TLS profile lacks an HTTP/2-required suite")
    else Ok(found)
  }

  method Tls12CipherNames(names: seq<string>, t: Tables) returns (r: Result<seq<string>>)
    ensures r == Ciphers(names, t)
  {
    var ciphers: seq<string> := [];
    for k := 0 to |names|
      invariant ciphers == KeepMap(names[..k], Iana(t))
    {
      KeepMapSnoc(names, k, Iana(t));
      var iana := Iana(t)(names[k]);
      if iana.Some? { ciphers := ciphers + [iana.value]; }
    }
    assert names[..|names|] == names;
    if |ciphers| == 0 { return Err("TLS profile has no cipher suite usable with TLS 1.2"); }
    var served := HasHttp2RequiredCipher(ciphers);
    if !served { return Err("TLS profile lacks an HTTP/2-required suite"); }
    return Ok(ciphers);
  }

  // ----- Resolution ---------------------------------------------------------------------------------

  /** Flags of one profile: minimum version, ciphers below 1.3, curves if any. */
  function ProxyFlags(spec: TlsSpec, strict: bool, t: Tables): Result<Resolved> {
    if Version(spec.minVersion) < VERSION_12 then
      Err("TLS profile minimum version cannot be represented")
    else match Curves(spec.groups, strict, t.fips)
      case Err(e) => Err(e)
      case Ok(curves) =>
        if Version(spec.minVersion) >= VERSION_13 then Ok(Resolved(FlagArgs(spec.minVersion, None, curves), curves))
        else match Ciphers(spec.ciphers, t)
          case Err(e) => Err(e)
          case Ok(ciphers) => Ok(Resolved(FlagArgs(spec.minVersion, Some(ciphers), curves), curves))
  }

  function FlagArgs(version: string, ciphers: Option<seq<string>>, curves: seq<string>): seq<string> {
    [MIN_VERSION_FLAG + version]
    + (if ciphers.None? then [] else [CIPHERS_FLAG + Join(ciphers.value, ',')])
    + (if curves == [] then [] else [CURVES_FLAG + Join(curves, ',')])
  }

  function StrictSpec(profile: Profile, t: Tables): Result<TlsSpec> {
    if profile.kind == "Custom" then
      if profile.custom.None? then Err("custom profile is nil") else Ok(profile.custom.value)
    else if profile.kind !in t.profiles then Err("strict TLS profile type is not representable")
    else Ok(t.profiles[profile.kind])
  }

  function Intermediate(t: Tables): Result<Resolved> {
    if "Intermediate" !in t.profiles then Err("intermediate TLS profile is not defined")
    else ProxyFlags(t.profiles["Intermediate"], false, t)
  }

  predicate Honoured(a: Adherence) {
    !a.NoOpinion? && !a.LegacyOnly?
  }

  function Resolve(profile: Option<Profile>, adherence: Adherence, t: Tables): Result<Resolved> {
    if profile.None? || profile.value.kind == "" || !Honoured(adherence) then Intermediate(t)
    else match StrictSpec(profile.value, t)
      case Err(e) => Err(e)
      case Ok(spec) => ProxyFlags(spec, true, t)
  }

  /** The profile a resolution must honour, when there is one. */
  function Binding(profile: Option<Profile>, adherence: Adherence, t: Tables): Option<Result<TlsSpec>> {
    if profile.Some? && profile.value.kind != "" && Honoured(adherence) then Some(StrictSpec(profile.value, t))
      else None
  }

  // ----- Reading the flags back ----------------------------------------------------------------------

  /** The value the proxy reads for a flag: its first occurrence. */
  function FlagValue(args: seq<string>, flag: string): Option<string> {
    if args == [] then None
    else if HasPrefix(args[0], flag) then Some(args[0][|flag|..])
    else FlagValue(args[1..], flag)
  }

  function FlagList(args: seq<string>, flag: string): seq<string> {
    match FlagValue(args, flag) case None => [] case Some(v) => Split(v, ',')
  }

  /** No two suites share an id, and suite names have no comma in them. */
  ghost predicate WellFormed(t: Tables) {
    var all := t.secure + t.insecure;
    && (forall i, j :: 0 <= i < j < |all| ==> all[i].id != all[j].id)
    && (forall i :: 0 <= i < |all| ==> ',' !in all[i].name)
  }

  lemma {:induction false} FlagsApart(v: string)
    ensures !HasPrefix(MIN_VERSION_FLAG + v, CIPHERS_FLAG) && !HasPrefix(MIN_VERSION_FLAG + v, CURVES_FLAG)
    ensures !HasPrefix(CIPHERS_FLAG + v, CURVES_FLAG) && !HasPrefix(CIPHERS_FLAG + v, MIN_VERSION_FLAG)
    ensures !HasPrefix(CURVES_FLAG + v, CIPHERS_FLAG) && !HasPrefix(CURVES_FLAG + v, MIN_VERSION_FLAG)
    ensures HasPrefix(MIN_VERSION_FLAG + v, MIN_VERSION_FLAG) && (MIN_VERSION_FLAG + v)[|MIN_VERSION_FLAG|..] == v
    ensures HasPrefix(CIPHERS_FLAG + v, CIPHERS_FLAG) && (CIPHERS_FLAG + v)[|CIPHERS_FLAG|..] == v
    ensures HasPrefix(CURVES_FLAG + v, CURVES_FLAG) && (CURVES_FLAG + v)[|CURVES_FLAG|..] == v
  {
    assert (MIN_VERSION_FLAG + v)[6] == 'm' && (CIPHERS_FLAG + v)[6] == 'c' && (CURVES_FLAG + v)[6] == 'c';
    assert (CIPHERS_FLAG + v)[7] == 'i' && (CURVES_FLAG + v)[7] == 'u';
    assert MIN_VERSION_FLAG[6] == 'm' && CIPHERS_FLAG[6] == 'c' && CURVES_FLAG[6] == 'c';
    assert CIPHERS_FLAG[7] == 'i' && CURVES_FLAG[7] == 'u';
  }

  /** A found suite is one this runtime can negotiate with TLS 1.2. */
  lemma {:induction false} SuiteNameSound(suites: seq<CipherSuite>, id: nat)
    ensures SuiteName(suites, id).Some? <==> exists i :: 0 <= i < |suites| && suites[i].id == id
    ensures SuiteName(suites, id).Some? ==> exists i ::
      0 <= i < |suites| && suites[i] == CipherSuite(id, SuiteName(suites, id).value)
  {
    if suites != [] && suites[0].id != id {
      SuiteNameSound(suites[1..], id);
      if SuiteName(suites[1..], id).Some? {
        var i :| 0 <= i < |suites[1..]| && suites[1..][i] == CipherSuite(id, SuiteName(suites, id).value);
        assert suites[i + 1] == suites[1..][i];
      } else {
        forall j | 1 <= j < |suites| ensures suites[j].id != id { assert suites[1..][j - 1] == suites[j]; }
      }
    } else if suites != [] {
      assert suites[0] == CipherSuite(id, suites[0].name);
    }
  }

  lemma {:induction false} IanaSound(t: Tables, entry: string)
    requires WellFormed(t) && Iana(t)(entry).Some?
    ensures exists cs :: cs in RuntimeSuites(t) && cs.name == Iana(t)(entry).value && !(0x1300 <= cs.id <= 0x13ff)
    ensures ',' !in Iana(t)(entry).value
  {
    var id := CipherId(t, TrimSpace(entry)).value;
    IdSound(t, id, Iana(t)(entry).value);
  }

  lemma {:induction false} IdSound(t: Tables, id: nat, name: string)
    requires WellFormed(t) && Usable12(t, id) && SuiteName(t.secure + t.insecure, id) == Some(name)
    ensures exists cs :: cs in RuntimeSuites(t) && cs.name == name && !(0x1300 <= cs.id <= 0x13ff)
    ensures ',' !in name
  {
    var all := t.secure + t.insecure;
    SuiteNameSound(all, id);
    var i :| 0 <= i < |all| && all[i] == CipherSuite(id, name);
    if k: nat :| k < |t.secure| && t.secure[k].id == id {
      assert all[k].id == id;
      assert t.secure[k] in t.secure && t.secure[k] in RuntimeSuites(t) && all[k] == t.secure[k];
    } else {
      var k :| 0 <= k < |t.insecure| && t.insecure[k].id == id && !Contains(t.insecure[k].name, "RC4");
      assert all[|t.secure| + k] == t.insecure[k];
      assert t.insecure[k] in t.insecure && t.insecure[k] in RuntimeSuites(t);
    }
  }

  lemma {:induction false} KeepMapFrom<T, U>(s: seq<T>, f: T -> Option<U>, u: U)
    requires u in KeepMap(s, f)
    ensures exists i :: 0 <= i < |s| && f(s[i]) == Some(u)
  {
    if f(s[0]) != Some(u) {
      KeepMapFrom(s[1..], f, u);
      var i :| 0 <= i < |s[1..]| && f(s[1..][i]) == Some(u);
      assert f(s[i + 1]) == Some(u);
    }
  }

  lemma {:induction false} FlagValueHead(x: string, rest: seq<string>, flag: string)
    ensures FlagValue([x] + rest, flag) == if HasPrefix(x, flag) then Some(x[|flag|..]) else FlagValue(rest, flag)
  {
    assert ([x] + rest)[1..] == rest;
  }

  function CurveArgs(curves: seq<string>): seq<string> {
    if curves == [] then [] else [CURVES_FLAG + Join(curves, ',')]
  }

  lemma {:induction false} CurveArgsReadBack(curves: seq<string>)
    requires forall i :: 0 <= i < |curves| ==> ',' !in curves[i]
    ensures FlagList(CurveArgs(curves), CURVES_FLAG) == curves && FlagValue(CurveArgs(curves), CIPHERS_FLAG) == None
    ensures forall i :: 0 <= i < |CurveArgs(curves)| ==> TlsFlag(CurveArgs(curves)[i])
  {
    if curves != [] {
      SplitJoin(curves, ',');
      FlagsApart(Join(curves, ','));
    }
  }

  lemma {:induction false} CipherArgsReadBack(ciphers: seq<string>, rest: seq<string>)
    requires ciphers != [] && forall i :: 0 <= i < |ciphers| ==> ',' !in ciphers[i]
    ensures var args := [CIPHERS_FLAG + Join(ciphers, ',')] + rest;
      && FlagList(args, CIPHERS_FLAG) == ciphers
      && FlagValue(args, CURVES_FLAG) == FlagValue(rest, CURVES_FLAG)
      && TlsFlag(args[0])
  {
    var x := CIPHERS_FLAG + Join(ciphers, ',');
    SplitJoin(ciphers, ',');
    FlagsApart(Join(ciphers, ','));
    FlagValueHead(x, rest, CIPHERS_FLAG);
    FlagValueHead(x, rest, CURVES_FLAG);
  }

  lemma {:induction false} FlagArgsReadBack(version: string, ciphers: Option<seq<string>>, curves: seq<string>)
    requires ciphers.Some? ==> ciphers.value != [] && forall i :: 0 <= i < |ciphers.value| ==> ',' !in ciphers.value[i]
    requires forall i :: 0 <= i < |curves| ==> ',' !in curves[i]
    ensures var args := FlagArgs(version, ciphers, curves);
      && FlagValue(args, MIN_VERSION_FLAG) == Some(version)
      && FlagList(args, CIPHERS_FLAG) == (if ciphers.None? then [] else ciphers.value)
      && FlagList(args, CURVES_FLAG) == curves
      && forall i :: 0 <= i < |args| ==> TlsFlag(args[i])
  {
    var first := MIN_VERSION_FLAG + version;
    var last := CurveArgs(curves);
    CurveArgsReadBack(curves);
    var rest := (if ciphers.None? then [] else [CIPHERS_FLAG + Join(ciphers.value, ',')]) + last;
    if ciphers.Some? { CipherArgsReadBack(ciphers.value, last); } else { assert rest == last; }
    assert FlagArgs(version, ciphers, curves) == [first] + rest;
    FlagsApart(version);
    FlagValueHead(first, rest, MIN_VERSION_FLAG);
    FlagValueHead(first, rest, CIPHERS_FLAG);
    FlagValueHead(first, rest, CURVES_FLAG);
  }

  lemma {:induction false} CurvesPlain(groups: seq<TlsGroup>, fips: bool)
    ensures forall i :: 0 <= i < |KeepMap(groups, UsableCurve(fips))| ==> ',' !in KeepMap(groups, UsableCurve(fips))[i]
  {
    if groups != [] { CurvesPlain(groups[1..], fips); }
  }

  lemma {:induction false} CiphersPlain(names: seq<string>, t: Tables)
    requires WellFormed(t)
    ensures forall i :: 0 <= i < |KeepMap(names, Iana(t))| ==> ',' !in KeepMap(names, Iana(t))[i]
  {
    var found := KeepMap(names, Iana(t));
    forall i | 0 <= i < |found| ensures ',' !in found[i] {
      KeepMapFrom(names, Iana(t), found[i]);
      var j :| 0 <= j < |names| && Iana(t)(names[j]) == Some(found[i]);
      IanaSound(t, names[j]);
    }
  }

  /** Accepted profiles, and the flags they get. */
  lemma {:induction false} ProxyFlagsShape(spec: TlsSpec, strict: bool, t: Tables)
    requires ProxyFlags(spec, strict, t).Ok?
    ensures spec.minVersion in {"VersionTLS12", "VersionTLS13"}
    ensures var curves, ciphers := KeepMap(spec.groups, UsableCurve(t.fips)), KeepMap(spec.ciphers, Iana(t));
      && ProxyFlags(spec, strict, t).value
           == Resolved(FlagArgs(spec.minVersion, if spec.minVersion == "VersionTLS13" then None else Some(ciphers),
             curves), curves)
      && (spec.minVersion == "VersionTLS12" ==> ciphers != [] && Http2Served(ciphers))
  {
    VersionRange(spec.minVersion);
    assert Curves(spec.groups, strict, t.fips) == Ok(KeepMap(spec.groups, UsableCurve(t.fips)));
    if spec.minVersion == "VersionTLS12" { assert Ciphers(spec.ciphers, t) == Ok(KeepMap(spec.ciphers, Iana(t))); }
  }

  /** What the proxy reads back from resolved flags is the profile, filtered: the version, every
      TLS 1.2 suite and every curve, in profile order, and nothing else. */
  lemma {:induction false} FlagsReadBack(spec: TlsSpec, strict: bool, t: Tables)
    requires WellFormed(t) && ProxyFlags(spec, strict, t).Ok?
    ensures var args := ProxyFlags(spec, strict, t).value.args;
      && FlagValue(args, MIN_VERSION_FLAG) == Some(spec.minVersion)
      && spec.minVersion in {"VersionTLS12", "VersionTLS13"}
      && FlagList(args, CIPHERS_FLAG)
        == (if spec.minVersion == "VersionTLS13" then [] else KeepMap(spec.ciphers, Iana(t)))
      && FlagList(args, CURVES_FLAG) == KeepMap(spec.groups, UsableCurve(t.fips))
      && (spec.minVersion == "VersionTLS12" ==> Http2Served(FlagList(args, CIPHERS_FLAG)))
  {
    ProxyFlagsShape(spec, strict, t);
    CurvesPlain(spec.groups, t.fips);
    CiphersPlain(spec.ciphers, t);
    FlagArgsReadBack(spec.minVersion, if spec.minVersion == "VersionTLS13" then None
      else Some(KeepMap(spec.ciphers, Iana(t))),
      KeepMap(spec.groups, UsableCurve(t.fips)));
  }

  /** A suite this runtime negotiates below TLS 1.3, and not an RC4 one. */
  ghost predicate SafeSuite(t: Tables, c: string) {
    exists cs :: cs in RuntimeSuites(t) && cs.name == c && !(0x1300 <= cs.id <= 0x13ff)
  }

  /** A curve of the profile, and an approved one in FIPS mode. */
  ghost predicate SafeCurve(groups: seq<TlsGroup>, fips: bool, c: string) {
    exists g :: g in groups && CurveId(g).Some? && Itoa(CurveId(g).value) == c && (fips ==> FipsApproved(g))
  }

  lemma {:induction false} CiphersSafe(names: seq<string>, t: Tables, c: string)
    requires WellFormed(t) && c in KeepMap(names, Iana(t))
    ensures SafeSuite(t, c)
  {
    KeepMapFrom(names, Iana(t), c);
    var j :| 0 <= j < |names| && Iana(t)(names[j]) == Some(c);
    IanaSound(t, names[j]);
  }

  lemma {:induction false} CurvesSafe(groups: seq<TlsGroup>, fips: bool, c: string)
    requires c in KeepMap(groups, UsableCurve(fips))
    ensures SafeCurve(groups, fips, c)
  {
    KeepMapFrom(groups, UsableCurve(fips), c);
    var j :| 0 <= j < |groups| && UsableCurve(fips)(groups[j]) == Some(c);
    assert groups[j] in groups;
  }

  /** Every suite and curve handed to the proxy is safe to serve. */
  lemma {:induction false} FlagsSafe(spec: TlsSpec, strict: bool, t: Tables)
    requires WellFormed(t) && ProxyFlags(spec, strict, t).Ok?
    ensures forall c <- FlagList(ProxyFlags(spec, strict, t).value.args, CIPHERS_FLAG) :: SafeSuite(t, c)
    ensures forall c <- FlagList(ProxyFlags(spec, strict, t).value.args, CURVES_FLAG) ::
      SafeCurve(spec.groups, t.fips, c)
  {
    FlagsReadBack(spec, strict, t);
    var args := ProxyFlags(spec, strict, t).value.args;
    forall c <- FlagList(args, CIPHERS_FLAG) ensures SafeSuite(t, c) { CiphersSafe(spec.ciphers, t, c); }
    forall c <- FlagList(args, CURVES_FLAG) ensures SafeCurve(spec.groups, t.fips, c) {
      CurvesSafe(spec.groups, t.fips, c);
    }
  }

  /** Resolution fails closed: a profile the cluster wants honoured is either served as it is
      or refused, never replaced by Intermediate; and it is served exactly when its version,
      its groups and, below 1.3, its ciphers can be represented. */
  lemma {:induction false} FailClosed(profile: Option<Profile>, adherence: Adherence, t: Tables)
    requires Binding(profile, adherence, t).Some?
    ensures var bound := Binding(profile, adherence, t).value;
      Resolve(profile, adherence, t).Ok? <==>
        && bound.Ok?
        && bound.value.minVersion in {"VersionTLS12", "VersionTLS13"}
        && (bound.value.groups == [] || exists g <- bound.value.groups :: UsableCurve(t.fips)(g).Some?)
        && (bound.value.minVersion == "VersionTLS12" ==> Http2Served(KeepMap(bound.value.ciphers, Iana(t))))
    ensures Resolve(profile, adherence, t).Ok? ==>
      Resolve(profile, adherence, t) == ProxyFlags(Binding(profile, adherence, t).value.value, true, t)
  {
    var bound := Binding(profile, adherence, t).value;
    if bound.Ok? { Representable(bound.value, t); }
  }

  /** The profile a resolution serves. */
  function ServedProfile(profile: Option<Profile>, adherence: Adherence, t: Tables): Result<TlsSpec> {
    match Binding(profile, adherence, t)
    case Some(bound) => bound
    case None => if "Intermediate" in t.profiles then Ok(t.profiles["Intermediate"])
      else Err("intermediate TLS profile is not defined")
  }

  lemma {:induction false} ResolveServes(profile: Option<Profile>, adherence: Adherence, t: Tables)
    requires Resolve(profile, adherence, t).Ok?
    ensures ServedProfile(profile, adherence, t).Ok?
    ensures Resolve(profile, adherence, t)
      == ProxyFlags(ServedProfile(profile, adherence, t).value, Binding(profile, adherence, t).Some?, t)
  {
    hide ProxyFlags;
  }

  /** Whatever profile is served: one version of 1.2 or 1.3, suites exactly below 1.3 and among
      them one HTTP/2 can use, curves exactly when some group of the profile is usable, all of it
      safe, and nothing but TLS flags. */
  ghost predicate SoundFlags(args: seq<string>, spec: TlsSpec, t: Tables) {
    && FlagValue(args, MIN_VERSION_FLAG) == Some(spec.minVersion) && spec.minVersion in {"VersionTLS12", "VersionTLS13"}
    && (FlagValue(args, CIPHERS_FLAG).Some? <==> spec.minVersion == "VersionTLS12")
    && (spec.minVersion == "VersionTLS12" ==> Http2Served(FlagList(args, CIPHERS_FLAG)))
    && (FlagValue(args, CURVES_FLAG).Some? <==> exists g <- spec.groups :: UsableCurve(t.fips)(g).Some?)
    && (forall c <- FlagList(args, CIPHERS_FLAG) :: SafeSuite(t, c))
    && (forall c <- FlagList(args, CURVES_FLAG) :: SafeCurve(spec.groups, t.fips, c))
    && (forall i :: 0 <= i < |args| ==> TlsFlag(args[i]))
  }

  lemma {:induction false} FlagsSound(spec: TlsSpec, strict: bool, t: Tables)
    requires WellFormed(t) && ProxyFlags(spec, strict, t).Ok?
    ensures SoundFlags(ProxyFlags(spec, strict, t).value.args, spec, t)
  {
    hide ProxyFlags, WellFormed, SafeSuite, SafeCurve, TlsFlag, FlagValue, Iana, UsableCurve, KeepMap;
    FlagsReadBack(spec, strict, t);
    FlagsSafe(spec, strict, t);
    ResolvedAreFlags(spec, strict, t);
    CurvesEmpty(spec.groups, t.fips);
    assert Http2Served([]) == false;
  }

  lemma {:induction false} ResolveSound(profile: Option<Profile>, adherence: Adherence, t: Tables)
    requires WellFormed(t) && Resolve(profile, adherence, t).Ok?
    ensures ServedProfile(profile, adherence, t).Ok?
    ensures SoundFlags(Resolve(profile, adherence, t).value.args, ServedProfile(profile, adherence, t).value, t)
  {
    hide ProxyFlags, WellFormed, SoundFlags;
    ResolveServes(profile, adherence, t);
    FlagsSound(ServedProfile(profile, adherence, t).value, Binding(profile, adherence, t).Some?, t);
  }

  lemma {:induction false} Representable(spec: TlsSpec, t: Tables)
    ensures ProxyFlags(spec, true, t).Ok? <==>
      && spec.minVersion in {"VersionTLS12", "VersionTLS13"}
      && (spec.groups == [] || exists g <- spec.groups :: UsableCurve(t.fips)(g).Some?)
      && (spec.minVersion == "VersionTLS12" ==> Http2Served(KeepMap(spec.ciphers, Iana(t))))
  {
    hide Iana, UsableCurve, FlagArgs, Version;
    VersionRange(spec.minVersion);
    CurvesEmpty(spec.groups, t.fips);
    assert KeepMap(spec.ciphers, Iana(t)) == [] ==> !Http2Served(KeepMap(spec.ciphers, Iana(t)));
    assert Curves(spec.groups, true, t.fips).Ok? <==>
      (spec.groups == [] || exists g <- spec.groups :: UsableCurve(t.fips)(g).Some?);
    assert Ciphers(spec.ciphers, t).Ok? <==> Http2Served(KeepMap(spec.ciphers, Iana(t)));
  }

  lemma {:induction false} VersionRange(v: string)
    ensures Version(v) >= VERSION_12 <==> v in {"VersionTLS12", "VersionTLS13"}
    ensures Version(v) >= VERSION_13 <==> v == "VersionTLS13"
  {
    assert "VersionTLS12"[11] == '2' && "VersionTLS13"[11] == '3' && "VersionTLS10"[11] == '0'
      && "VersionTLS11"[11] == '1';
  }

  lemma {:induction false} CurvesEmpty(groups: seq<TlsGroup>, fips: bool)
    ensures KeepMap(groups, UsableCurve(fips)) != [] <==> exists g <- groups :: UsableCurve(fips)(g).Some?
  {
    if groups != [] {
      CurvesEmpty(groups[1..], fips);
      if g :| g in groups && UsableCurve(fips)(g).Some? {
        assert g == groups[0] || g in groups[1..];
      }
    }
  }

  // ----- Merging into an argument list -----------------------------------------------------------------

  predicate TlsFlag(arg: string) {
    HasPrefix(arg, MIN_VERSION_FLAG) || HasPrefix(arg, CIPHERS_FLAG) || HasPrefix(arg, CURVES_FLAG)
  }

  /** The arguments that are not TLS flags. */
  function Other(args: seq<string>): seq<string> {
    if args == [] then [] else (if TlsFlag(args[0]) then [] else [args[0]]) + Other(args[1..])
  }

  method MergeTlsArgs(args: seq<string>, tlsArgs: seq<string>) returns (merged: seq<string>)
    ensures merged == Other(args) + tlsArgs
  {
    merged := [];
    for k := 0 to |args|
      invariant merged == Other(args[..k])
    {
      OtherSnoc(args, k);
      if TlsFlag(args[k]) { continue; }
      merged := merged + [args[k]];
    }
    assert args[..|args|] == args;
    merged := merged + tlsArgs;
  }

  lemma {:induction false} OtherSnoc(args: seq<string>, k: nat)
    requires k < |args|
    ensures Other(args[..k + 1]) == Other(args[..k]) + (if TlsFlag(args[k]) then [] else [args[k]])
    decreases k
  {
    if k == 0 {
      assert args[..1][1..] == [] && Other(args[..1][1..]) == [];
    } else {
      assert args[..k + 1][1..] == args[1..][..k] && args[..k][1..] == args[1..][..k - 1];
      OtherSnoc(args[1..], k - 1);
    }
  }

  lemma {:induction false} OtherConcat(a: seq<string>, b: seq<string>)
    ensures Other(a + b) == Other(a) + Other(b)
  {
    if a == [] {
      assert a + b == b;
    } else {
      assert (a + b)[1..] == a[1..] + b;
      OtherConcat(a[1..], b);
    }
  }

  lemma {:induction false} OtherNone(args: seq<string>)
    requires forall i :: 0 <= i < |args| ==> TlsFlag(args[i])
    ensures Other(args) == []
  {
    if args != [] { OtherNone(args[1..]); }
  }

  lemma {:induction false} OtherTwice(args: seq<string>)
    ensures Other(Other(args)) == Other(args)
  {
    if args != [] {
      OtherTwice(args[1..]);
      assert Other([args[0]]) == if TlsFlag(args[0]) then [] else [args[0]];
      OtherConcat(if TlsFlag(args[0]) then [] else [args[0]], Other(args[1..]));
    }
  }

  /** Merging resolved flags keeps every other argument in order, and is final: merging the same
      flags again changes nothing, and flags merged before leave no trace. */
  lemma {:induction false} MergeSettles(args: seq<string>, before: seq<string>, tlsArgs: seq<string>)
    requires forall i :: 0 <= i < |before| ==> TlsFlag(before[i])
    requires forall i :: 0 <= i < |tlsArgs| ==> TlsFlag(tlsArgs[i])
    ensures Other(Other(args) + tlsArgs) == Other(args)
    ensures Other(Other(args) + before) + tlsArgs == Other(args) + tlsArgs
  {
    OtherTwice(args);
    OtherConcat(Other(args), tlsArgs);
    OtherConcat(Other(args), before);
    OtherNone(tlsArgs);
    OtherNone(before);
  }

  /** Resolved flags are TLS flags, and there is at least one. */
  lemma {:induction false} ResolvedAreFlags(spec: TlsSpec, strict: bool, t: Tables)
    requires WellFormed(t) && ProxyFlags(spec, strict, t).Ok?
    ensures var args := ProxyFlags(spec, strict, t).value.args;
      args != [] && forall i :: 0 <= i < |args| ==> TlsFlag(args[i])
  {
    ProxyFlagsShape(spec, strict, t);
    CurvesPlain(spec.groups, t.fips);
    CiphersPlain(spec.ciphers, t);
    FlagArgsReadBack(spec.minVersion, if spec.minVersion == "VersionTLS13" then None
      else Some(KeepMap(spec.ciphers, Iana(t))),
      KeepMap(spec.groups, UsableCurve(t.fips)));
  }
}
