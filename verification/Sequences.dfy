/** Lists of named things, as the controllers edit them: look for the first match,
    replace it or append, cut it out. `Sel` picks the matching elements out of a list;
    every edit is described by what it does to the selection of each predicate. */
module Sequences {

  /** Index of the first element satisfying `p`, or |s|. */
  function First<T>(s: seq<T>, p: T -> bool): (k: nat)
    ensures k <= |s|
    ensures forall j :: 0 <= j < k ==> !p(s[j])
    ensures k < |s| ==> p(s[k])
  {
    if s == [] || p(s[0]) then 0 else 1 + First(s[1..], p)
  }

  /** The elements satisfying `p`, in order. */
  function Sel<T>(s: seq<T>, p: T -> bool): seq<T> {
    if s == [] then [] else (if p(s[0]) then [s[0]] else []) + Sel(s[1..], p)
  }

  /** Replace the first match, or append. */
  function Upsert<T>(s: seq<T>, p: T -> bool, x: T): seq<T> {
    var k := First(s, p);
    if k < |s| then s[k := x] else s + [x]
  }

  /** Append unless something already matches. */
  function AppendIfAbsent<T>(s: seq<T>, p: T -> bool, x: T): seq<T> {
    if First(s, p) < |s| then s else s + [x]
  }

  /** Cut out the first match, if any. */
  function RemoveFirst<T>(s: seq<T>, p: T -> bool): seq<T> {
    var k := First(s, p);
    if k < |s| then s[..k] + s[k+1..] else s
  }

  /** Rewrite the first match, if any. */
  function UpdateFirst<T>(s: seq<T>, p: T -> bool, f: T -> T): seq<T> {
    var k := First(s, p);
    if k < |s| then s[k := f(s[k])] else s
  }

  lemma {:induction false} FirstIs<T>(s: seq<T>, p: T -> bool, k: nat)
    requires k <= |s|
    requires forall j :: 0 <= j < k ==> !p(s[j])
    requires k < |s| ==> p(s[k])
    ensures First(s, p) == k
  {
    if s != [] && !p(s[0]) {
      FirstIs(s[1..], p, k - 1);
    }
  }

  lemma {:induction false} SelConcat<T>(a: seq<T>, b: seq<T>, p: T -> bool)
    ensures Sel(a + b, p) == Sel(a, p) + Sel(b, p)
  {
    if a == [] {
      assert a + b == b;
    } else {
      var head := if p(a[0]) then [a[0]] else [];
      assert (a + b)[1..] == a[1..] + b;
      SelConcat(a[1..], b, p);
      assert Sel(a + b, p) == head + Sel((a + b)[1..], p) == (head + Sel(a[1..], p)) + Sel(b, p);
    }
  }

  lemma {:induction false} SelOne<T>(x: T, p: T -> bool)
    ensures Sel([x], p) == if p(x) then [x] else []
  {}

  lemma {:induction false} SelSnoc<T>(s: seq<T>, k: nat, p: T -> bool)
    requires k < |s|
    ensures Sel(s[..k + 1], p) == Sel(s[..k], p) + if p(s[k]) then [s[k]] else []
  {
    assert s[..k + 1] == s[..k] + [s[k]];
    SelConcat(s[..k], [s[k]], p);
    SelOne(s[k], p);
  }

  lemma {:induction false} SelNone<T>(s: seq<T>, p: T -> bool)
    requires forall j :: 0 <= j < |s| ==> !p(s[j])
    ensures Sel(s, p) == []
  {
    if s != [] { SelNone(s[1..], p); }
  }

  /** Splitting a selection around one position. */
  lemma {:induction false} SelAround<T>(s: seq<T>, k: nat, p: T -> bool)
    requires k < |s|
    ensures Sel(s, p) == Sel(s[..k], p) + (if p(s[k]) then [s[k]] else []) + Sel(s[k+1..], p)
  {
    assert s == s[..k] + ([s[k]] + s[k+1..]);
    SelConcat(s[..k], [s[k]] + s[k+1..], p);
    SelConcat([s[k]], s[k+1..], p);
  }

  lemma {:induction false} SelSet<T>(s: seq<T>, k: nat, x: T, p: T -> bool)
    requires k < |s|
    ensures Sel(s[k := x], p) == Sel(s[..k], p) + (if p(x) then [x] else []) + Sel(s[k+1..], p)
  {
    var t := s[k := x];
    assert t[..k] == s[..k] && t[k+1..] == s[k+1..];
    SelAround(t, k, p);
  }

  /** The first match is the head of the selection. */
  lemma {:induction false} SelFirst<T>(s: seq<T>, p: T -> bool)
    ensures First(s, p) < |s| <==> Sel(s, p) != []
    ensures Sel(s, p) != [] ==> s[First(s, p)] == Sel(s, p)[0]
    ensures var k := First(s, p); k < |s| ==> Sel(s[..k], p) == [] && Sel(s, p)[1..] == Sel(s[k+1..], p)
  {
    var k := First(s, p);
    if k < |s| {
      SelNone(s[..k], p);
      SelAround(s, k, p);
    } else {
      SelNone(s, p);
    }
  }

  lemma {:induction false} SelWithin<T>(s: seq<T>, p: T -> bool, j: nat)
    requires j < |s| && p(s[j])
    ensures s[j] in Sel(s, p)
  {
    SelAround(s, j, p);
  }

  lemma {:induction false} SelSound<T>(s: seq<T>, p: T -> bool, x: T)
    requires x in Sel(s, p)
    ensures x in s && p(x)
  {
    if !p(s[0]) || x != s[0] { SelSound(s[1..], p, x); }
  }

  lemma {:induction false} UpsertSame<T>(s: seq<T>, p: T -> bool, x: T)
    requires p(x)
    ensures Sel(Upsert(s, p, x), p) == [x] + (if Sel(s, p) == [] then [] else Sel(s, p)[1..])
  {
    hide Sel, First;
    SelFirst(s, p);
    var k := First(s, p);
    if k < |s| {
      SelSet(s, k, x, p);
      assert [] + [x] + Sel(s[k+1..], p) == [x] + Sel(s, p)[1..];
    } else {
      SelConcat(s, [x], p);
      SelOne(x, p);
      assert [] + [x] == [x] + [];
    }
  }

  lemma {:induction false} UpsertOther<T>(s: seq<T>, p: T -> bool, x: T, q: T -> bool)
    requires !q(x)
    requires First(s, p) < |s| ==> !q(s[First(s, p)])
    ensures Sel(Upsert(s, p, x), q) == Sel(s, q)
  {
    var k := First(s, p);
    if k < |s| { SelSet(s, k, x, q); SelAround(s, k, q); } else { SelConcat(s, [x], q); }
  }

  lemma {:induction false} UpsertFixed<T>(s: seq<T>, p: T -> bool, x: T)
    requires p(x)
    ensures Upsert(s, p, x) == s <==> Sel(s, p) != [] && Sel(s, p)[0] == x
  {
    SelFirst(s, p);
    UpsertSame(s, p, x);
  }

  lemma {:induction false} AppendSame<T>(s: seq<T>, p: T -> bool, x: T)
    requires p(x)
    ensures Sel(AppendIfAbsent(s, p, x), p) == if Sel(s, p) == [] then [x] else Sel(s, p)
  {
    SelFirst(s, p);
    SelConcat(s, [x], p);
  }

  lemma {:induction false} AppendOther<T>(s: seq<T>, p: T -> bool, x: T, q: T -> bool)
    requires !q(x)
    ensures Sel(AppendIfAbsent(s, p, x), q) == Sel(s, q)
  {
    SelConcat(s, [x], q);
  }

  /** What a cut leaves in each selection. */
  lemma {:induction false} SelCut<T>(s: seq<T>, k: nat, p: T -> bool)
    requires k < |s|
    ensures Sel(s[..k] + s[k+1..], p) == Sel(s[..k], p) + Sel(s[k+1..], p)
  {
    SelConcat(s[..k], s[k+1..], p);
  }

  lemma {:induction false} RemoveSame<T>(s: seq<T>, p: T -> bool)
    ensures Sel(RemoveFirst(s, p), p) == if Sel(s, p) == [] then [] else Sel(s, p)[1..]
  {
    SelFirst(s, p);
    var k := First(s, p);
    if k < |s| {
      SelCut(s, k, p);
      var before, after := Sel(s[..k], p), Sel(s[k+1..], p);
      assert before + after == after;
    }
  }

  lemma {:induction false} SelSkip<T>(s: seq<T>, k: nat, q: T -> bool)
    requires k < |s| && !q(s[k])
    ensures Sel(s[..k] + s[k+1..], q) == Sel(s, q)
  {
    SelCut(s, k, q);
    SelAround(s, k, q);
  }

  lemma {:induction false} RemoveOther<T>(s: seq<T>, p: T -> bool, q: T -> bool)
    requires First(s, p) < |s| ==> !q(s[First(s, p)])
    ensures Sel(RemoveFirst(s, p), q) == Sel(s, q)
  {
    if First(s, p) < |s| { SelSkip(s, First(s, p), q); }
  }
}
