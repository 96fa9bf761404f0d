/** The sidecar's TLS flags in the terms of profile and protocol: group by group, suite by suite, with
    every name and number written out. */
module TlsOnTheWire {
  import opened Text
  import opened PodModel
  import opened ProxyTls

  // ----- Curves ------------------------------------------------------------------------------

  /** The number of a group in TLS. */
  predicate Numbered(g: TlsGroup, id: string) {
    || (g.SecP256r1? && id == "23") || (g.SecP384r1? && id == "24") || (g.SecP521r1? && id == "25")
    || (g.X25519? && id == "29") || (g.X25519MLKEM768? && id == "4588")
  }

  /** The NIST curves always, the other two named groups outside FIPS mode. */
  predicate Offered(g: TlsGroup, fips: bool) {
    g.SecP256r1? || g.SecP384r1? || g.SecP521r1? || (!fips && (g.X25519? || g.X25519MLKEM768?))
  }

  /** `ids` numbers the offered groups at the positions `at`: all of them, in order, and no others. */
  ghost predicate OffersInOrder(groups: seq<TlsGroup>, fips: bool, ids: seq<string>, at: seq<nat>) {
    && |at| == |ids| && (forall i, j :: 0 <= i < j < |at| ==> at[i] < at[j])
    && (forall i :: 0 <= i < |at| ==>
      at[i] < |groups| && Offered(groups[at[i]], fips) && Numbered(groups[at[i]], ids[i]))
    && (forall k :: 0 <= k < |groups| && Offered(groups[k], fips) ==> k in at)
  }

  lemma {:induction false} Decimals()
    ensures Itoa(23) == "23" && Itoa(24) == "24" && Itoa(25) == "25" && Itoa(29) == "29" && Itoa(4588) == "4588"
  {
    assert Itoa(2) == "2" && Itoa(4) == "4";
    assert Itoa(45) == Itoa(4) + "5" == "45";
    assert Itoa(458) == Itoa(45) + "8" == "458";
    assert Itoa(4588) == Itoa(458) + "8" == "4588";
  }

  lemma {:induction false} UsableIsOffered(g: TlsGroup, fips: bool)
    ensures UsableCurve(fips)(g).Some? <==> Offered(g, fips)
    ensures Offered(g, fips) ==> Numbered(g, UsableCurve(fips)(g).value)
  {
    Decimals();
  }

  lemma {:induction false} OfferedInOrder(groups: seq<TlsGroup>, fips: bool)
    ensures OffersInOrder(groups, fips, KeepMap(groups, UsableCurve(fips)), KeepAt(groups, UsableCurve(fips), 0))
  {
    hide KeepMap, KeepAt, UsableCurve, Offered, Numbered;
    KeepMapIsFilter(groups, UsableCurve(fips));
    forall g ensures UsableCurve(fips)(g).Some? <==> Offered(g, fips)
      ensures Offered(g, fips) ==> Numbered(g, UsableCurve(fips)(g).value)
    {
      UsableIsOffered(g, fips);
    }
  }

  /** The ids read back from the flags of a profile. */
  function CurvesOf(args: seq<string>): seq<string> {
    FlagList(args, "--tls-curve-preferences=")
  }

  /** A served profile's curves: each named group by its number, in profile order, in FIPS mode the NIST
      curves alone. */
  lemma {:induction false} CurvesAreOffered(spec: TlsSpec, strict: bool, t: Tables)
    requires WellFormed(t) && ProxyFlags(spec, strict, t).Ok?
    ensures exists at :: OffersInOrder(spec.groups, t.fips, CurvesOf(ProxyFlags(spec, strict, t).value.args), at)
    ensures forall id <- CurvesOf(ProxyFlags(spec, strict, t).value.args) ::
      id in {"23", "24", "25"} || (!t.fips && id in {"29", "4588"})
  {
    hide ProxyFlags, WellFormed, KeepMap, KeepAt, UsableCurve, Numbered, Offered, FlagList;
    FlagsReadBack(spec, strict, t);
    OfferedInOrder(spec.groups, t.fips);
    var ids, at := CurvesOf(ProxyFlags(spec, strict, t).value.args), KeepAt(spec.groups, UsableCurve(t.fips), 0);
    assert OffersInOrder(spec.groups, t.fips, ids, at);
    forall id | id in ids ensures id in {"23", "24", "25"} || (!t.fips && id in {"29", "4588"}) {
      var i :| 0 <= i < |ids| && ids[i] == id;
      OfferedNumbers(spec.groups[at[i]], t.fips, id);
    }
  }

  lemma {:induction false} OfferedNumbers(g: TlsGroup, fips: bool, id: string)
    requires Offered(g, fips) && Numbered(g, id)
    ensures id in {"23", "24", "25"} || (!fips && id in {"29", "4588"})
  {}

  // ----- Cipher suites -------------------------------------------------------------------------

  /** The suite can be negotiated by this runtime, below TLS 1.3: a secure one, or an insecure one that does
      not name RC4. */
  ghost predicate Negotiable(t: Tables, cs: CipherSuite) {
    && (cs.id < 0x1300 || cs.id > 0x13ff)
    && (cs in t.secure || (cs in t.insecure && !exists i :: 0 <= i <= |cs.name| && "RC4" <= cs.name[i..]))
  }

  /** What a profile entry names: a suite by its IANA name, or else by an OpenSSL name that has one. */
  predicate Names(t: Tables, entry: string, id: nat) {
    var name := TrimSpace(entry);
    && name != ""
    && if name in t.suiteIds then t.suiteIds[name] == id
       else && name in t.fromOpenssl && |t.fromOpenssl[name]| == 1
            && t.fromOpenssl[name][0] in t.suiteIds && t.suiteIds[t.fromOpenssl[name][0]] == id
  }

  ghost predicate Serves(t: Tables, entry: string, cs: CipherSuite) {
    Names(t, entry, cs.id) && Negotiable(t, cs)
  }

  lemma {:induction false} NoRc4(name: string)
    ensures Contains(name, "RC4") <==> exists i :: 0 <= i <= |name| && "RC4" <= name[i..]
  {
    if i :| 0 <= i <= |name| && OccursAt(name, "RC4", i) { assert "RC4" <= name[i..]; }
    if i :| 0 <= i <= |name| && "RC4" <= name[i..] { assert OccursAt(name, "RC4", i); }
  }

  /** The name an entry is served under is that of the one suite it names, if that can be negotiated. */
  lemma {:induction false} ServedAs(t: Tables, entry: string, n: string)
    requires WellFormed(t)
    ensures Iana(t)(entry) == Some(n) <==> exists cs :: Serves(t, entry, cs) && cs.name == n
  {
    hide TrimSpace, Contains;
    var all := t.secure + t.insecure;
    if Iana(t)(entry) == Some(n) {
      var id := CipherId(t, TrimSpace(entry)).value;
      IdNegotiable(t, id, n);
      var cs :| Negotiable(t, cs) && cs.id == id && cs.name == n;
      assert Serves(t, entry, cs);
    }
    if cs :| Serves(t, entry, cs) && cs.name == n {
      assert CipherId(t, TrimSpace(entry)) == Some(cs.id);
      NegotiableFound(t, cs);
    }
  }

  lemma {:induction false} IdNegotiable(t: Tables, id: nat, n: string)
    requires WellFormed(t) && Usable12(t, id) && SuiteName(t.secure + t.insecure, id) == Some(n)
    ensures exists cs :: Negotiable(t, cs) && cs.id == id && cs.name == n
  {
    hide Contains;
    var all := t.secure + t.insecure;
    SuiteNameSound(all, id);
    var i :| 0 <= i < |all| && all[i] == CipherSuite(id, n);
    if k: nat :| k < |t.secure| && t.secure[k].id == id {
      assert all[k] == t.secure[k] && t.secure[k] in t.secure;
      assert Negotiable(t, all[i]);
    } else {
      var k :| 0 <= k < |t.insecure| && t.insecure[k].id == id && !Contains(t.insecure[k].name, "RC4");
      assert all[|t.secure| + k] == t.insecure[k] && t.insecure[k] in t.insecure;
      NoRc4(t.insecure[k].name);
      assert Negotiable(t, all[i]);
    }
  }

  lemma {:induction false} NegotiableFound(t: Tables, cs: CipherSuite)
    requires WellFormed(t) && Negotiable(t, cs)
    ensures Usable12(t, cs.id) && SuiteName(t.secure + t.insecure, cs.id) == Some(cs.name)
  {
    hide Contains;
    var all := t.secure + t.insecure;
    NoRc4(cs.name);
    SuiteNameSound(all, cs.id);
    if cs in t.secure {
      var k :| 0 <= k < |t.secure| && t.secure[k] == cs;
      assert all[k] == cs;
    } else {
      var k :| 0 <= k < |t.insecure| && t.insecure[k] == cs;
      assert all[|t.secure| + k] == cs;
    }
  }

  /** `names` serves the entries at the positions `at`: every entry that can be served, in order, and no
      others. */
  ghost predicate ServesInOrder(t: Tables, entries: seq<string>, names: seq<string>, at: seq<nat>) {
    && |at| == |names| && (forall i, j :: 0 <= i < j < |at| ==> at[i] < at[j])
    && (forall i :: 0 <= i < |at| ==> at[i] < |entries| && ServedBy(t, entries[at[i]], names[i]))
    && (forall k :: 0 <= k < |entries| && Servable(t, entries[k]) ==> k in at)
  }

  ghost predicate ServedBy(t: Tables, entry: string, name: string) {
    exists cs :: Serves(t, entry, cs) && cs.name == name
  }

  ghost predicate Servable(t: Tables, entry: string) {
    exists cs :: Serves(t, entry, cs)
  }

  lemma {:induction false} SuitesInOrder(t: Tables, entries: seq<string>)
    requires WellFormed(t)
    ensures ServesInOrder(t, entries, KeepMap(entries, Iana(t)), KeepAt(entries, Iana(t), 0))
  {
    hide KeepMap, KeepAt, Iana, Serves, WellFormed;
    KeepMapIsFilter(entries, Iana(t));
    forall e, n ensures Iana(t)(e) == Some(n) <==> ServedBy(t, e, n) { ServedAs(t, e, n); }
    forall e ensures Servable(t, e) ==> Iana(t)(e).Some? {
      if cs :| Serves(t, e, cs) { assert ServedBy(t, e, cs.name); }
    }
  }

  /** A served profile below TLS 1.3: its suites in profile order, one of the two HTTP/2 asks for among
      them; at 1.3 none are named. */
  lemma {:induction false} SuitesAreServed(spec: TlsSpec, strict: bool, t: Tables)
    requires WellFormed(t) && ProxyFlags(spec, strict, t).Ok?
    ensures var args := ProxyFlags(spec, strict, t).value.args;
      var names := FlagList(args, "--tls-cipher-suites=");
      && FlagValue(args, "--tls-min-version=") == Some(spec.minVersion)
      && spec.minVersion in {"VersionTLS12", "VersionTLS13"} && (spec.minVersion == "VersionTLS13" ==> names == [])
      && (spec.minVersion == "VersionTLS12" ==> exists at :: ServesInOrder(t, spec.ciphers, names, at))
      && (spec.minVersion == "VersionTLS12" ==>
        "TLS_ECDHE_RSA_WITH_AES_128_GCM_SHA256" in names || "TLS_ECDHE_ECDSA_WITH_AES_128_GCM_SHA256" in names)
  {
    hide ProxyFlags, WellFormed, KeepMap, KeepAt, Iana, ServesInOrder;
    FlagsReadBack(spec, strict, t);
    SuitesInOrder(t, spec.ciphers);
  }

  // ----- Which profile, and when it is refused ----------------------------------------------------

  /** A profile can be represented: version 1.2 or 1.3, at 1.2 a suite HTTP/2 asks for, and, if it must be
      honoured, a group that is offered among those it names. */
  ghost predicate Fits(spec: TlsSpec, strict: bool, t: Tables) {
    && spec.minVersion in {"VersionTLS12", "VersionTLS13"}
    && (strict && spec.groups != [] ==> exists i :: 0 <= i < |spec.groups| && Offered(spec.groups[i], t.fips))
    && (spec.minVersion == "VersionTLS12" ==> exists i :: 0 <= i < |spec.ciphers| && ForHttp2(t, spec.ciphers[i]))
  }

  /** One of the two suites HTTP/2 asks for. */
  ghost predicate ForHttp2(t: Tables, entry: string) {
    || ServedBy(t, entry, "TLS_ECDHE_RSA_WITH_AES_128_GCM_SHA256")
    || ServedBy(t, entry, "TLS_ECDHE_ECDSA_WITH_AES_128_GCM_SHA256")
  }

  lemma {:induction false} KeepMapTo<T, U>(s: seq<T>, f: T -> Option<U>, i: nat)
    requires i < |s| && f(s[i]).Some?
    ensures f(s[i]).value in KeepMap(s, f)
  {
    if i > 0 { KeepMapTo(s[1..], f, i - 1); }
  }

  lemma {:induction false} Http2Found(t: Tables, entries: seq<string>, n: string)
    requires WellFormed(t)
    ensures n in KeepMap(entries, Iana(t)) <==> exists i :: 0 <= i < |entries| && ServedBy(t, entries[i], n)
  {
    hide KeepMap, Iana, Serves, WellFormed;
    forall e ensures Iana(t)(e) == Some(n) <==> ServedBy(t, e, n) { ServedAs(t, e, n); }
    if n in KeepMap(entries, Iana(t)) {
      KeepMapFrom(entries, Iana(t), n);
    }
    if i: nat :| i < |entries| && ServedBy(t, entries[i], n) { KeepMapTo(entries, Iana(t), i); }
  }

  lemma {:induction false} OfferedFound(groups: seq<TlsGroup>, fips: bool)
    ensures KeepMap(groups, UsableCurve(fips)) != [] <==> exists i :: 0 <= i < |groups| && Offered(groups[i], fips)
  {
    hide KeepMap, UsableCurve, Offered, Numbered;
    forall g ensures UsableCurve(fips)(g).Some? <==> Offered(g, fips) { UsableIsOffered(g, fips); }
    CurvesEmpty(groups, fips);
    if g :| g in groups && UsableCurve(fips)(g).Some? {
      var i :| 0 <= i < |groups| && groups[i] == g;
    }
    if i :| 0 <= i < |groups| && Offered(groups[i], fips) { assert groups[i] in groups; }
  }

  lemma {:induction false} ServedIfFits(spec: TlsSpec, strict: bool, t: Tables)
    requires WellFormed(t)
    ensures ProxyFlags(spec, strict, t).Ok? <==> Fits(spec, strict, t)
  {
    hide WellFormed, KeepMap, Iana, UsableCurve, Version, ServedBy, Offered, FlagArgs;
    VersionRange(spec.minVersion);
    OfferedFound(spec.groups, t.fips);
    Http2Found(t, spec.ciphers, "TLS_ECDHE_RSA_WITH_AES_128_GCM_SHA256");
    Http2Found(t, spec.ciphers, "TLS_ECDHE_ECDSA_WITH_AES_128_GCM_SHA256");
  }

  /** Whose profile counts: the cluster's unless its policy leaves the choice, and then Intermediate. A
      profile that counts is never replaced; it is refused exactly when it is not there or does not fit. */
  lemma {:induction false} WhoseProfile(profile: Option<Profile>, adherence: Adherence, t: Tables)
    requires WellFormed(t)
    ensures var r := Resolve(profile, adherence, t);
      if profile.None? || profile.value.kind == "" || adherence.NoOpinion? || adherence.LegacyOnly? then
        && (r.Ok? <==> "Intermediate" in t.profiles && Fits(t.profiles["Intermediate"], false, t))
        && (r.Ok? ==> r == ProxyFlags(t.profiles["Intermediate"], false, t))
      else if profile.value.kind == "Custom" then
        && (r.Ok? <==> profile.value.custom.Some? && Fits(profile.value.custom.value, true, t))
        && (r.Ok? ==> r == ProxyFlags(profile.value.custom.value, true, t))
      else
        && (r.Ok? <==> profile.value.kind in t.profiles && Fits(t.profiles[profile.value.kind], true, t))
        && (r.Ok? ==> r == ProxyFlags(t.profiles[profile.value.kind], true, t))
  {
    hide ProxyFlags, Fits, WellFormed;
    if "Intermediate" in t.profiles { ServedIfFits(t.profiles["Intermediate"], false, t); }
    if profile.Some? {
      if profile.value.custom.Some? { ServedIfFits(profile.value.custom.value, true, t); }
      if profile.value.kind in t.profiles { ServedIfFits(t.profiles[profile.value.kind], true, t); }
    }
  }
}
