/**
 * Order-preserving filtering of sequences: the behaviour of a collection's
 * `filter` with a closure, as the plugin uses it on its page lists.
 */
module Seqs {

  /** The elements of `s` that `keep` accepts, in their original order. */
  function Filter<T>(s: seq<T>, keep: T -> bool): (r: seq<T>)
    ensures |r| <= |s|
  {
    if s == [] then [] else (if keep(s[0]) then [s[0]] else []) + Filter(s[1..], keep)
  }

  /** An element survives filtering exactly when it is in `s` and `keep` accepts it. */
  lemma {:induction false} FilterMembers<T>(s: seq<T>, keep: T -> bool)
    ensures forall x :: x in Filter(s, keep) <==> x in s && keep(x)
  {
    if s != [] {
      FilterMembers(s[1..], keep);
      assert s == [s[0]] + s[1..];
    }
  }

  /** `a` can be obtained from `b` by deleting elements, without reordering. */
  ghost predicate IsSubsequence<T>(a: seq<T>, b: seq<T>)
    decreases |b|
  {
    if a == [] then true
    else if b == [] then false
    else (a[0] == b[0] && IsSubsequence(a[1..], b[1..])) || IsSubsequence(a, b[1..])
  }

  /** Filtering keeps the surviving elements in their original relative order. */
  lemma {:induction false} FilterIsSubsequence<T>(s: seq<T>, keep: T -> bool)
    ensures IsSubsequence(Filter(s, keep), s)
  {
    if s != [] {
      FilterIsSubsequence(s[1..], keep);
      if keep(s[0]) {
        assert Filter(s, keep) == [s[0]] + Filter(s[1..], keep);
        assert Filter(s, keep)[1..] == Filter(s[1..], keep);
      } else {
        assert Filter(s, keep) == Filter(s[1..], keep);
      }
    }
  }

  /** The conjunction of two conditions. */
  function Both<T>(f: T -> bool, g: T -> bool): T -> bool {
    x => f(x) && g(x)
  }

  /** Filtering twice is filtering once with both conditions. */
  lemma {:induction false} FilterFilter<T>(s: seq<T>, f: T -> bool, g: T -> bool)
    ensures Filter(Filter(s, f), g) == Filter(s, Both(f, g))
  {
    if s != [] {
      FilterFilter(s[1..], f, g);
      if f(s[0]) {
        assert Filter(s, f) == [s[0]] + Filter(s[1..], f);
        assert Filter(s, f)[1..] == Filter(s[1..], f);
      } else {
        assert Filter(s, f) == Filter(s[1..], f);
      }
    }
  }

  /** Filters whose conditions agree on every element give the same result. */
  lemma {:induction false} FilterExt<T>(s: seq<T>, f: T -> bool, g: T -> bool)
    requires forall x :: x in s ==> f(x) == g(x)
    ensures Filter(s, f) == Filter(s, g)
  {
    if s != [] {
      assert forall x :: x in s[1..] ==> x in s;
      FilterExt(s[1..], f, g);
    }
  }

  /** A filter that accepts every element leaves the sequence as it is. */
  lemma {:induction false} FilterKeepsAll<T>(s: seq<T>, keep: T -> bool)
    requires forall x :: x in s ==> keep(x)
    ensures Filter(s, keep) == s
  {
    if s != [] {
      assert forall x :: x in s[1..] ==> x in s;
      FilterKeepsAll(s[1..], keep);
      assert s == [s[0]] + s[1..];
    }
  }

  /** Filtering a sequence extended by one element. */
  lemma {:induction false} FilterSnoc<T>(s: seq<T>, x: T, keep: T -> bool)
    ensures Filter(s + [x], keep) == Filter(s, keep) + (if keep(x) then [x] else [])
  {
    if s == [] {
      assert [] + [x] == [x];
      assert [x][1..] == [];
    } else {
      var h := if keep(s[0]) then [s[0]] else [];
      var t := if keep(x) then [x] else [];
      assert (s + [x])[0] == s[0];
      assert (s + [x])[1..] == s[1..] + [x];
      FilterSnoc(s[1..], x, keep);
      assert Filter(s + [x], keep) == h + (Filter(s[1..], keep) + t);
      assert h + (Filter(s[1..], keep) + t) == (h + Filter(s[1..], keep)) + t;
    }
  }
}
