/** Keys of the runtime image ConfigMap, made from display names. */
module RuntimeImages {
  import opened Text

  /** strings.ToLower, as far as the allowed characters are concerned: two characters outside
      ASCII have a lower case inside it. */
  function LowerChar(c: char): char {
    if 'A' <= c <= 'Z' then (c as int + 32) as char
    else if c == '\U{212A}' then 'k'
    else if c == '\U{0130}' then 'i'
    else c
  }

  function Lower(s: string): string {
    seq(|s|, i requires 0 <= i < |s| => LowerChar(s[i]))
  }

  predicate Allowed(c: char) {
    c == '-' || c == '.' || c == '_' || 'a' <= c <= 'z' || 'A' <= c <= 'Z' || '0' <= c <= '9'
  }

  /** Every longest run of characters in `p` becomes one dash. */
  function Collapse(s: string, p: char -> bool): string {
    if s == [] then []
    else if !p(s[0]) then [s[0]] + Collapse(s[1..], p)
    else if |s| > 1 && p(s[1]) then Collapse(s[1..], p)
    else ['-'] + Collapse(s[1..], p)
  }

  function Invalid(): char -> bool { (c: char) => !Allowed(c) }
  function Dash(): char -> bool { (c: char) => c == '-' }

  function TrimFront(s: string): string {
    if s != [] && s[0] == '-' then TrimFront(s[1..]) else s
  }

  function TrimBack(s: string): string {
    if s != [] && s[|s| - 1] == '-' then TrimBack(s[..|s| - 1]) else s
  }

  function Stem(displayName: string): string {
    TrimBack(TrimFront(Collapse(Collapse(Lower(displayName), Invalid()), Dash())))
  }

  const SUFFIX := ".json"

  function FormatKeyName(displayName: string): string {
    if Stem(displayName) == "" then "" else Stem(displayName) + SUFFIX
  }

  // ----- The normal form ------------------------------------------------------------------

  predicate LowerAllowed(c: char) {
    c == '-' || c == '.' || c == '_' || 'a' <= c <= 'z' || '0' <= c <= '9'
  }

  ghost predicate SingleDashes(s: string) {
    forall i :: 0 <= i < |s| - 1 ==> !(s[i] == '-' && s[i + 1] == '-')
  }

  ghost predicate AllLower(s: string) {
    forall i :: 0 <= i < |s| ==> LowerAllowed(s[i])
  }

  /** Lower-case letters, digits, dots, underscores and single dashes, no dash at either end. */
  ghost predicate Normal(s: string) {
    && AllLower(s) && SingleDashes(s)
    && (s != [] ==> s[0] != '-' && s[|s| - 1] != '-')
  }

  lemma {:induction false} LowerHasNoCapitals(s: string)
    ensures forall i :: 0 <= i < |s| ==> !('A' <= Lower(s)[i] <= 'Z')
  {}

  /** Replacing the invalid runs leaves only allowed characters. */
  lemma {:induction false} CollapseInvalid(s: string)
    requires forall i :: 0 <= i < |s| ==> !('A' <= s[i] <= 'Z')
    ensures AllLower(Collapse(s, Invalid()))
  {
    if s != [] { CollapseInvalid(s[1..]); }
  }

  lemma {:induction false} CollapseDashes(s: string)
    requires AllLower(s)
    ensures var r := Collapse(s, Dash());
      AllLower(r) && SingleDashes(r) && (s != [] && s[0] != '-' ==> r != [] && r[0] != '-')
  {
    if s != [] { CollapseDashes(s[1..]); }
  }

  lemma {:induction false} TrimFrontKeeps(s: string)
    requires AllLower(s) && SingleDashes(s)
    ensures var r := TrimFront(s); AllLower(r) && SingleDashes(r) && (r != [] ==> r[0] != '-')
  {
    if s != [] && s[0] == '-' { TrimFrontKeeps(s[1..]); }
  }

  lemma {:induction false} TrimBackKeeps(s: string)
    requires AllLower(s) && SingleDashes(s) && (s != [] ==> s[0] != '-')
    ensures Normal(TrimBack(s))
  {
    if s != [] && s[|s| - 1] == '-' { TrimBackKeeps(s[..|s| - 1]); }
  }

  /** Every key is empty, or a stem in normal form with the suffix. */
  lemma {:induction false} KeyIsNormal(displayName: string)
    ensures Normal(Stem(displayName))
    ensures FormatKeyName(displayName) == ""
      || (Stem(displayName) != "" && FormatKeyName(displayName) == Stem(displayName) + SUFFIX)
  {
    var a := Collapse(Lower(displayName), Invalid());
    var b := Collapse(a, Dash());
    LowerHasNoCapitals(displayName);
    CollapseInvalid(Lower(displayName));
    CollapseDashes(a);
    TrimFrontKeeps(b);
    TrimBackKeeps(TrimFront(b));
  }

  lemma {:induction false} NothingToLower(s: string)
    requires AllLower(s)
    ensures Lower(s) == s
  {}

  lemma {:induction false} NothingToCollapse(s: string, p: char -> bool)
    requires forall i :: 0 <= i < |s| && p(s[i]) ==> s[i] == '-' && !(i + 1 < |s| && p(s[i + 1]))
    ensures Collapse(s, p) == s
  {
    if s != [] {
      forall i | 0 <= i < |s[1..]| && p(s[1..][i]) ensures s[1..][i] == '-' && !(i + 1 < |s[1..]| && p(s[1..][i + 1])) {
        assert s[1..][i] == s[i + 1];
      }
      NothingToCollapse(s[1..], p);
      assert [s[0]] + s[1..] == s;
    }
  }

  /** A normal form is its own stem; so the stem of a key gives the same key again. */
  lemma {:induction false} NormalIsFixed(s: string)
    requires Normal(s)
    ensures Stem(s) == s
  {
    NothingToLower(s);
    NothingToCollapse(s, Invalid());
    NothingToCollapse(s, Dash());
  }

  lemma {:induction false} SameKeyAgain(displayName: string)
    ensures FormatKeyName(Stem(displayName)) == FormatKeyName(displayName)
  {
    KeyIsNormal(displayName);
    NormalIsFixed(Stem(displayName));
  }

  // ----- When a name has no key -----------------------------------------------------------------

  /** The character survives the sanitising. */
  predicate Counts(c: char) {
    LowerAllowed(LowerChar(c)) && LowerChar(c) != '-'
  }

  predicate OnlyDashes(s: string) {
    forall i :: 0 <= i < |s| ==> s[i] == '-'
  }

  lemma {:induction false} CollapseOnlyDashes(s: string, p: char -> bool)
    ensures OnlyDashes(Collapse(s, p)) <==> forall i :: 0 <= i < |s| ==> p(s[i]) || s[i] == '-'
  {
    if s != [] {
      CollapseOnlyDashes(s[1..], p);
      var r := Collapse(s, p);
      assert forall i :: 1 <= i < |s| ==> s[i] == s[1..][i - 1];
      assert !p(s[0]) ==> r[0] == s[0] && r[1..] == Collapse(s[1..], p);
      assert p(s[0]) && !(|s| > 1 && p(s[1])) ==> r[0] == '-' && r[1..] == Collapse(s[1..], p);
      assert forall t: string :: t != [] ==> (OnlyDashes(t) <==> t[0] == '-' && OnlyDashes(t[1..])) by {
        forall t: string | t != [] ensures OnlyDashes(t) <==> t[0] == '-' && OnlyDashes(t[1..]) { OnlyDashesTail(t); }
      }
    }
  }

  lemma {:induction false} OnlyDashesTail(t: string)
    requires t != []
    ensures OnlyDashes(t) <==> t[0] == '-' && OnlyDashes(t[1..])
  {
    assert forall i :: 1 <= i < |t| ==> t[i] == t[1..][i - 1];
  }

  lemma {:induction false} TrimFrontEmpty(s: string)
    ensures TrimFront(s) == [] <==> OnlyDashes(s)
    ensures TrimFront(s) != [] ==> TrimFront(s)[0] != '-'
  {
    if s != [] && s[0] == '-' {
      TrimFrontEmpty(s[1..]);
      OnlyDashesTail(s);
    }
  }

  lemma {:induction false} TrimBackEmpty(s: string)
    requires s != [] ==> s[0] != '-'
    ensures TrimBack(s) == [] <==> s == []
  {
    if s != [] && s[|s| - 1] == '-' { TrimBackEmpty(s[..|s| - 1]); }
  }

  /** A display name has a key exactly when one of its characters counts. */
  lemma {:induction false} HasKey(displayName: string)
    ensures FormatKeyName(displayName) != "" <==> exists i :: 0 <= i < |displayName| && Counts(displayName[i])
  {
    var l := Lower(displayName);
    var a := Collapse(l, Invalid());
    CollapseOnlyDashes(l, Invalid());
    CollapseOnlyDashes(a, Dash());
    TrimFrontEmpty(Collapse(a, Dash()));
    TrimBackEmpty(TrimFront(Collapse(a, Dash())));
    LowerHasNoCapitals(displayName);
    assert Stem(displayName) == "" <==> OnlyDashes(a);
    assert forall i :: 0 <= i < |l| ==> l[i] == LowerChar(displayName[i]);
    assert forall i :: 0 <= i < |l| ==> (Counts(displayName[i]) <==> !(Invalid()(l[i]) || l[i] == '-'));
  }

  // ----- What a key says ---------------------------------------------------------------------------

  /** What is left of one character: letters in lower case, digits, dots and underscores, and the two
      characters whose lower case is an ASCII letter. */
  function Survivor(c: char): (r: string)
    ensures |r| <= 1 && '-' !in r
  {
    if 'a' <= c <= 'z' || '0' <= c <= '9' || c == '.' || c == '_' then [c]
    else if 'A' <= c <= 'Z' then ["abcdefghijklmnopqrstuvwxyz"[c as int - 'A' as int]]
    else if c == '\U{212A}' then "k"
    else if c == '\U{0130}' then "i"
    else ""
  }

  /** The runs of surviving characters, in order. */
  function Words(s: string): (ws: seq<string>)
    ensures forall i :: 0 <= i < |ws| ==> ws[i] != "" && '-' !in ws[i]
    ensures s != [] && Survivor(s[0]) != "" ==> ws != []
  {
    if s == [] then []
    else if Survivor(s[0]) == "" then Words(s[1..])
    else if |s| > 1 && Survivor(s[1]) != "" then
      var rest := Words(s[1..]);
      [Survivor(s[0]) + rest[0]] + rest[1..]
    else [Survivor(s[0])] + Words(s[1..])
  }

  function Dropped(): char -> bool { (c: char) => !Allowed(c) || c == '-' }

  lemma {:induction false} LoweredSurvives(c: char)
    ensures Survivor(c) == if Dropped()(LowerChar(c)) then "" else [LowerChar(c)]
  {
    var alphabet := "abcdefghijklmnopqrstuvwxyz";
    assert forall i :: 0 <= i < 26 ==> alphabet[i] == (i + 97) as char;
  }

  lemma {:induction false} CollapseHead(s: string, p: char -> bool)
    requires s != []
    ensures Collapse(s, p) != [] && Collapse(s, p)[0] == if p(s[0]) then '-' else s[0]
  {
    if p(s[0]) && |s| > 1 && p(s[1]) { CollapseHead(s[1..], p); }
  }

  /** The two replacements amount to one. */
  lemma {:induction false} CollapseBoth(s: string)
    ensures Collapse(Collapse(s, Invalid()), Dash()) == Collapse(s, Dropped())
  {
    if s != [] {
      var rest := Collapse(s[1..], Invalid());
      CollapseBoth(s[1..]);
      if |s| > 1 { CollapseHead(s[1..], Invalid()); }
      assert ([s[0]] + rest)[1..] == rest && (['-'] + rest)[1..] == rest;
    }
  }

  predicate LosesLast(s: string) {
    s != [] && Survivor(s[|s| - 1]) == ""
  }

  /** Words with single dashes between them, and one at an end that loses characters. */
  function Spelled(s: string): string {
    (if s != [] && Survivor(s[0]) == "" then "-" else "") + Join(Words(s), '-')
      + (if Words(s) != [] && LosesLast(s) then "-" else "")
  }

  lemma {:induction false} NoWords(s: string)
    ensures Words(s) == [] ==> s == [] || LosesLast(s)
  {
    if s != [] && Survivor(s[0]) == "" {
      NoWords(s[1..]);
      assert |s| > 1 ==> s[1..][|s| - 2] == s[|s| - 1];
    }
  }

  lemma {:induction false} SpelledStep(s: string)
    requires s != []
    ensures Spelled(s) ==
      if Survivor(s[0]) != "" then Survivor(s[0]) + Spelled(s[1..])
      else if |s| > 1 && Survivor(s[1]) == "" then Spelled(s[1..])
      else "-" + Spelled(s[1..])
  {
    hide Spelled, Survivor, Words;
    if Survivor(s[0]) != "" { SpelledKept(s); } else { SpelledLost(s); }
  }

  lemma {:induction false} SpelledKept(s: string)
    requires s != [] && Survivor(s[0]) != ""
    ensures Spelled(s) == Survivor(s[0]) + Spelled(s[1..])
  {
    hide Survivor, Join;
    NoWords(s[1..]);
    JoinGrows(Survivor(s[0]), Words(s[1..]));
    assert |s| > 1 ==> s[1..][|s| - 2] == s[|s| - 1] && s[1..][0] == s[1];
    assert Join([], '-') == "" by { JoinNothing(); }
  }

  lemma {:induction false} SpelledLost(s: string)
    requires s != [] && Survivor(s[0]) == ""
    ensures Spelled(s) == if |s| > 1 && Survivor(s[1]) == "" then Spelled(s[1..]) else "-" + Spelled(s[1..])
  {
    hide Survivor, Join;
    NoWords(s[1..]);
    assert |s| > 1 ==> s[1..][|s| - 2] == s[|s| - 1] && s[1..][0] == s[1];
    assert Join([], '-') == "" by { JoinNothing(); }
  }

  lemma {:induction false} JoinNothing()
    ensures Join([], '-') == ""
  {}

  lemma {:induction false} CollapsedWords(s: string)
    ensures Collapse(Lower(s), Dropped()) == Spelled(s)
  {
    hide LowerChar, Survivor, Spelled, Dropped;
    if s != [] {
      CollapsedWords(s[1..]);
      SpelledStep(s);
      assert Lower(s)[1..] == Lower(s[1..]);
      LoweredSurvives(s[0]);
      if |s| > 1 { LoweredSurvives(s[1]); }
    } else {
      assert Spelled("") == "" by { SpelledNothing(); }
    }
  }

  lemma {:induction false} SpelledNothing()
    ensures Spelled("") == ""
  {}

  lemma {:induction false} JoinGrows(c: string, ws: seq<string>)
    ensures ws != [] ==> Join([c + ws[0]] + ws[1..], '-') == c + Join(ws, '-')
    ensures Join([c] + ws, '-') == if ws == [] then c else c + "-" + Join(ws, '-')
  {
    if ws != [] {
      assert ([c + ws[0]] + ws[1..])[1..] == ws[1..];
      assert (c + ws[0]) + ['-'] + Join(ws[1..], '-') == c + (ws[0] + ['-'] + Join(ws[1..], '-'));
      assert ([c] + ws)[1..] == ws;
    }
  }

  lemma {:induction false} JoinEnds(ws: seq<string>)
    requires ws != [] && forall i :: 0 <= i < |ws| ==> ws[i] != "" && '-' !in ws[i]
    ensures var j := Join(ws, '-'); j != "" && j[0] != '-' && j[|j| - 1] != '-'
  {
    assert ws[0] != "" && ws[0][0] in ws[0] && ws[0][|ws[0]| - 1] in ws[0];
    if |ws| > 1 { JoinEnds(ws[1..]); }
  }

  /** The key spells the surviving characters in lower case and in order, with a dash exactly where
      something between two of them is lost. */
  lemma {:induction false} KeySpellsName(displayName: string)
    ensures FormatKeyName(displayName) ==
      if Words(displayName) == [] then "" else Join(Words(displayName), '-') + ".json"
  {
    hide Lower, Collapse, TrimFront, TrimBack, Words, Join, Survivor;
    var ws := Words(displayName);
    CollapseBoth(Lower(displayName));
    CollapsedWords(displayName);
    if ws != [] {
      JoinEnds(ws);
      Trims(if displayName != [] && Survivor(displayName[0]) == "" then "-" else "", Join(ws, '-'),
        if LosesLast(displayName) then "-" else "");
    } else {
      assert Stem(displayName) == "" by { NothingLeft(displayName); }
    }
  }

  lemma {:induction false} NothingLeft(s: string)
    requires Words(s) == []
    ensures Stem(s) == ""
  {
    CollapseBoth(Lower(s));
    CollapsedWords(s);
    assert TrimFront("-") == TrimFront("") == "" && TrimBack("") == "";
  }

  lemma {:induction false} Trims(lead: string, j: string, trail: string)
    requires (lead == "" || lead == "-") && (trail == "" || trail == "-")
    requires j != "" && j[0] != '-' && j[|j| - 1] != '-'
    ensures TrimBack(TrimFront(lead + j + trail)) == j
  {
    hide TrimFront, TrimBack;
    TrimFrontDash(j + trail);
    TrimBackDash(j);
    assert lead + j + trail == lead + (j + trail);
    assert j + "" == j && "" + (j + trail) == j + trail;
  }

  lemma {:induction false} TrimFrontDash(s: string)
    requires s != [] && s[0] != '-'
    ensures TrimFront(s) == s && TrimFront("-" + s) == s
  {
    assert ("-" + s)[1..] == s;
  }

  lemma {:induction false} TrimBackDash(s: string)
    requires s != [] && s[|s| - 1] != '-'
    ensures TrimBack(s) == s && TrimBack(s + "-") == s
  {
    assert (s + "-")[..|s|] == s;
  }
}
