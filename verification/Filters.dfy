/** Order-preserving selection from a sequence. */
module Filters {

  function Filter<T>(s: seq<T>, f: T -> bool): (r: seq<T>)
    ensures |r| <= |s|
  {
    if s == [] then []
    else Filter(s[..|s| - 1], f) + if f(s[|s| - 1]) then [s[|s| - 1]] else []
  }

  predicate Distinct<T(==)>(s: seq<T>) {
    forall i, j :: 0 <= i < j < |s| ==> s[i] != s[j]
  }

  lemma {:induction false} FilterIn<T>(s: seq<T>, f: T -> bool, x: T)
    ensures x in Filter(s, f) <==> x in s && f(x)
  {
    if s != [] {
      FilterIn(s[..|s| - 1], f, x);
      assert s == s[..|s| - 1] + [s[|s| - 1]];
    }
  }

  lemma {:induction false} FilterAgree<T>(s: seq<T>, f: T -> bool, g: T -> bool)
    requires forall x :: x in s ==> f(x) == g(x)
    ensures Filter(s, f) == Filter(s, g)
  {
    if s != [] {
      assert forall x :: x in s[..|s| - 1] ==> x in s;
      FilterAgree(s[..|s| - 1], f, g);
    }
  }

  lemma {:induction false} FilterAll<T>(s: seq<T>, f: T -> bool)
    requires forall x :: x in s ==> f(x)
    ensures Filter(s, f) == s
  {
    if s != [] {
      assert forall x :: x in s[..|s| - 1] ==> x in s;
      FilterAll(s[..|s| - 1], f);
    }
  }

  lemma {:induction false} FilterNone<T>(s: seq<T>, f: T -> bool)
    requires forall x :: x in s ==> !f(x)
    ensures Filter(s, f) == []
  {
    if s != [] {
      assert forall x :: x in s[..|s| - 1] ==> x in s;
      FilterNone(s[..|s| - 1], f);
    }
  }

  lemma {:induction false} FilterConcat<T>(s: seq<T>, t: seq<T>, f: T -> bool)
    ensures Filter(s + t, f) == Filter(s, f) + Filter(t, f)
  {
    if t == [] {
      assert s + t == s;
    } else {
      assert (s + t)[..|s + t| - 1] == s + t[..|t| - 1];
      FilterConcat(s, t[..|t| - 1], f);
    }
  }

  function Both<T>(f: T -> bool, g: T -> bool): T -> bool {
    x => f(x) && g(x)
  }

  function NotIn<T(==)>(gone: seq<T>): T -> bool {
    x => x !in gone
  }

  /** One selection after another keeps what both keep. */
  lemma {:induction false} FilterTwice<T>(s: seq<T>, f: T -> bool, g: T -> bool)
    ensures Filter(Filter(s, f), g) == Filter(s, Both(f, g))
  {
    if s != [] {
      var front, x := s[..|s| - 1], s[|s| - 1];
      FilterTwice(front, f, g);
      FilterConcat(Filter(front, f), if f(x) then [x] else [], g);
      assert Filter([x], g) == if g(x) then [x] else [] by { assert [x][..0] == []; }
    }
  }

  lemma FilterSwap<T>(s: seq<T>, f: T -> bool, g: T -> bool)
    ensures Filter(Filter(s, f), g) == Filter(Filter(s, g), f)
  {
    FilterTwice(s, f, g);
    FilterTwice(s, g, f);
    FilterAgree(s, Both(f, g), Both(g, f));
  }

  lemma {:induction false} FilterDistinct<T>(s: seq<T>, f: T -> bool)
    requires Distinct(s)
    ensures Distinct(Filter(s, f))
  {
    if s != [] {
      var front, x := s[..|s| - 1], s[|s| - 1];
      FilterDistinct(front, f);
      FilterIn(front, f, x);
    }
  }

  /** Removing the first n of distinct elements leaves the rest. */
  lemma FilterFirst<T>(s: seq<T>, n: nat)
    requires Distinct(s) && n <= |s|
    ensures Filter(s, NotIn(s[..n])) == s[n..]
  {
    var f := NotIn(s[..n]);
    assert s == s[..n] + s[n..];
    FilterConcat(s[..n], s[n..], f);
    FilterNone(s[..n], f);
    FilterAll(s[n..], f);
  }

  /** What a selection keeps passes its test. */
  lemma FilterPasses<T>(s: seq<T>, f: T -> bool)
    ensures forall x :: x in Filter(s, f) ==> x in s && f(x)
  {
    forall x | x in Filter(s, f) ensures x in s && f(x) {
      FilterIn(s, f, x);
    }
  }
}
