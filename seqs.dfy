/** Order-preserving selection from a sequence: the shape of `Array.prototype.filter`
    and of a `forEach` loop that appends the elements passing a test. */
module Seqs {

  /** `a` can be obtained from `b` by deleting elements. */
  predicate IsSubsequence<T(==)>(a: seq<T>, b: seq<T>)
    decreases |b|
  {
    if a == [] then true
    else if b == [] then false
    else (a[0] == b[0] && IsSubsequence(a[1..], b[1..])) || IsSubsequence(a, b[1..])
  }

  /** The elements of `xs` that pass `p`, in their original order. */
  function Filter<T(==)>(p: T -> bool, xs: seq<T>): (r: seq<T>)
    ensures |r| <= |xs|
    ensures forall x :: x in r ==> x in xs && p(x)
    ensures forall x :: x in xs && p(x) ==> x in r
  {
    if xs == [] then []
    else (if p(xs[0]) then [xs[0]] else []) + Filter(p, xs[1..])
  }

  lemma {:induction false} FilterIsSubsequence<T>(p: T -> bool, xs: seq<T>)
    ensures IsSubsequence(Filter(p, xs), xs)
  {
    if xs != [] {
      FilterIsSubsequence(p, xs[1..]);
      var r := Filter(p, xs);
      if p(xs[0]) {
        assert r[0] == xs[0] && r[1..] == Filter(p, xs[1..]);
      } else {
        assert r == Filter(p, xs[1..]);
        if r != [] {
          assert IsSubsequence(r, xs[1..]);
        }
      }
    }
  }

  /** Every element passing `p` is kept as many times as it occurs in `xs`;
      every other element is dropped. */
  lemma {:induction false} FilterMultiset<T>(p: T -> bool, xs: seq<T>)
    ensures forall x :: multiset(Filter(p, xs))[x] == if p(x) then multiset(xs)[x] else 0
  {
    if xs != [] {
      FilterMultiset(p, xs[1..]);
      assert xs == [xs[0]] + xs[1..];
      assert multiset(xs) == multiset([xs[0]]) + multiset(xs[1..]);
      var head := if p(xs[0]) then [xs[0]] else [];
      assert Filter(p, xs) == head + Filter(p, xs[1..]);
      assert multiset(Filter(p, xs)) == multiset(head) + multiset(Filter(p, xs[1..]));
    }
  }

  /** Filtering distributes over concatenation; with `ys == [y]` this is one loop step. */
  lemma {:induction false} FilterAppend<T>(p: T -> bool, xs: seq<T>, ys: seq<T>)
    ensures Filter(p, xs + ys) == Filter(p, xs) + Filter(p, ys)
  {
    if xs == [] {
      assert xs + ys == ys;
    } else {
      assert (xs + ys)[0] == xs[0];
      assert (xs + ys)[1..] == xs[1..] + ys;
      FilterAppend(p, xs[1..], ys);
    }
  }

  lemma {:induction false} FilterKeepsAll<T>(p: T -> bool, xs: seq<T>)
    requires forall i :: 0 <= i < |xs| ==> p(xs[i])
    ensures Filter(p, xs) == xs
  {
    if xs != [] {
      FilterKeepsAll(p, xs[1..]);
    }
  }

  lemma {:induction false} FilterEmptyIff<T>(p: T -> bool, xs: seq<T>)
    ensures Filter(p, xs) == [] <==> forall i :: 0 <= i < |xs| ==> !p(xs[i])
  {
    if xs != [] {
      FilterEmptyIff(p, xs[1..]);
      if forall i :: 0 <= i < |xs[1..]| ==> !p(xs[1..][i]) {
        if !p(xs[0]) {
          forall i | 0 <= i < |xs| ensures !p(xs[i]) {
            if i > 0 { assert xs[i] == xs[1..][i - 1]; }
          }
        }
      } else {
        var i :| 0 <= i < |xs[1..]| && p(xs[1..][i]);
        assert p(xs[i + 1]);
      }
    }
  }
}
