/** The order of identifiers, and sorting a set of them. */
module Ordering {

  /** Go's string order: byte-wise, which is code point by code point. */
  predicate Less(a: string, b: string) {
    if b == "" then false
    else if a == "" then true
    else if a[0] != b[0] then a[0] < b[0]
    else Less(a[1..], b[1..])
  }

  /** The texts agree up to position k, where `a` ends or has the smaller character. */
  ghost predicate FirstSmaller(a: string, b: string, k: nat) {
    k <= |a| && k < |b| && a[..k] == b[..k] && (k == |a| || a[k] < b[k])
  }

  lemma {:induction false} LessMeaning(a: string, b: string)
    ensures Less(a, b) <==> exists k: nat :: FirstSmaller(a, b, k)
  {
    if a != "" && b != "" && a[0] == b[0] {
      LessMeaning(a[1..], b[1..]);
      assert a == [a[0]] + a[1..] && b == [b[0]] + b[1..];
      if k: nat :| FirstSmaller(a[1..], b[1..], k) {
        assert a[..k + 1] == [a[0]] + a[1..][..k] && b[..k + 1] == [b[0]] + b[1..][..k];
        assert FirstSmaller(a, b, k + 1);
      }
      if k: nat :| FirstSmaller(a, b, k) {
        assert k > 0;
        assert a[1..][..k - 1] == a[..k][1..] && b[1..][..k - 1] == b[..k][1..];
        assert FirstSmaller(a[1..], b[1..], k - 1);
      }
    } else if b != "" && (a == "" || a[0] < b[0]) {
      assert FirstSmaller(a, b, 0);
    }
  }

  lemma {:induction false} LessTotal(a: string, b: string)
    ensures Less(a, b) || Less(b, a) || a == b
    ensures !(Less(a, b) && Less(b, a))
    ensures a == b ==> !Less(a, b)
  {
    if a != "" && b != "" && a[0] == b[0] {
      LessTotal(a[1..], b[1..]);
      assert a == [a[0]] + a[1..] && b == [b[0]] + b[1..];
    }
  }

  lemma {:induction false} LessTransitive(a: string, b: string, c: string)
    requires Less(a, b) && Less(b, c)
    ensures Less(a, c)
  {
    if a != "" && a[0] == b[0] == c[0] {
      LessTransitive(a[1..], b[1..], c[1..]);
    }
  }

  ghost predicate StrictlySorted(xs: seq<string>) {
    forall i, j | 0 <= i < j < |xs| :: Less(xs[i], xs[j])
  }

  /** Everything in `xs` comes before `x`. */
  ghost predicate AllBelow(xs: seq<string>, x: string) {
    forall i | 0 <= i < |xs| :: Less(xs[i], x)
  }

  ghost predicate AllAbove(xs: seq<string>, x: string) {
    forall i | 0 <= i < |xs| :: Less(x, xs[i])
  }

  /** A set has only one strictly sorted enumeration. */
  lemma {:induction false} SortedUnique(xs: seq<string>, ys: seq<string>)
    requires StrictlySorted(xs) && StrictlySorted(ys)
    requires forall x :: x in xs <==> x in ys
    ensures xs == ys
    decreases |xs|
  {
    if xs != [] {
      assert xs[0] in xs;
    }
    if ys != [] {
      assert ys[0] in ys;
    }
    if xs != [] {
      SameHead(xs, ys);
      TailMembers(xs);
      TailMembers(ys);
      SortedUnique(xs[1..], ys[1..]);
      assert xs == [xs[0]] + xs[1..] && ys == [ys[0]] + ys[1..];
    }
  }

  lemma SameHead(xs: seq<string>, ys: seq<string>)
    requires StrictlySorted(xs) && StrictlySorted(ys) && xs != [] && ys != []
    requires xs[0] in ys && ys[0] in xs
    ensures xs[0] == ys[0]
  {
    if xs[0] != ys[0] {
      assert Less(ys[0], xs[0]) && Less(xs[0], ys[0]);
      LessTotal(xs[0], ys[0]);
    }
  }

  lemma TailMembers(xs: seq<string>)
    requires StrictlySorted(xs) && xs != []
    ensures forall x :: x in xs[1..] <==> x in xs && x != xs[0]
  {
    LessTotal(xs[0], xs[0]);
    assert xs == [xs[0]] + xs[1..];
    assert forall i | 0 < i < |xs| :: Less(xs[0], xs[i]);
  }

  /** Inserts a new element into a strictly sorted sequence. */
  method Insert(xs: seq<string>, x: string) returns (r: seq<string>)
    requires StrictlySorted(xs) && x !in xs
    ensures StrictlySorted(r)
    ensures forall y :: y in r <==> y in xs || y == x
  {
    var k := 0;
    while k < |xs| && Less(xs[k], x)
      invariant 0 <= k <= |xs|
      invariant AllBelow(xs[..k], x)
    {
      k := k + 1;
    }
    ghost var before, after := xs[..k], xs[k..];
    assert xs == before + after;
    if k < |xs| {
      LessTotal(xs[k], x);
    }
    AboveRest(after, x);
    r := xs[..k] + [x] + xs[k..];
    SortedJoin(before, x, after);
  }

  lemma AboveRest(xs: seq<string>, x: string)
    requires StrictlySorted(xs) && (xs != [] ==> Less(x, xs[0]))
    ensures AllAbove(xs, x)
  {
    forall i | 0 <= i < |xs|
      ensures Less(x, xs[i])
    {
      if i > 0 {
        LessTransitive(x, xs[0], xs[i]);
      }
    }
  }

  lemma SortedJoin(a: seq<string>, x: string, b: seq<string>)
    requires StrictlySorted(a) && StrictlySorted(b) && AllBelow(a, x) && AllAbove(b, x)
    ensures StrictlySorted(a + [x] + b)
  {
    forall i, j | 0 <= i < |a| && 0 <= j < |b|
      ensures Less(a[i], b[j])
    {
      LessTransitive(a[i], x, b[j]);
    }
  }

  /** The strictly sorted enumeration of a set. */
  method Sorted(s: set<string>) returns (r: seq<string>)
    ensures StrictlySorted(r)
    ensures forall x :: x in r <==> x in s
  {
    r := [];
    var rest := s;
    while rest != {}
      invariant rest <= s && StrictlySorted(r)
      invariant forall x :: x in r <==> x in s - rest
      decreases rest
    {
      var x :| x in rest;
      r := Insert(r, x);
      rest := rest - {x};
    }
  }
}
