/** Order-preserving filtering and flattening of sequences, the two list
    operations (`Array.prototype.filter` and `Array.prototype.flat`) the page
    uses on its data. */
module Seqs {

  /** The elements of `xs` that satisfy `f`, in their original order. */
  function Filter<T(==)>(f: T -> bool, xs: seq<T>): (r: seq<T>)
    ensures |r| <= |xs|
    ensures forall i :: 0 <= i < |r| ==> f(r[i]) && r[i] in xs
    ensures forall i :: 0 <= i < |xs| && f(xs[i]) ==> xs[i] in r
    ensures multiset(r) <= multiset(xs)
  {
    if xs == [] then []
    else
      assert xs == [xs[0]] + xs[1..];
      if f(xs[0]) then [xs[0]] + Filter(f, xs[1..])
    else Filter(f, xs[1..])
  }

  /** A filter keeps every occurrence of an element that satisfies it. */
  lemma {:induction false} FilterKeepsCount<T>(f: T -> bool, xs: seq<T>, x: T)
    requires f(x)
    ensures multiset(Filter(f, xs))[x] == multiset(xs)[x]
  {
    if xs != [] {
      FilterKeepsCount(f, xs[1..], x);
      assert xs == [xs[0]] + xs[1..];
      assert multiset(xs) == multiset([xs[0]]) + multiset(xs[1..]);
      if f(xs[0]) {
        assert Filter(f, xs) == [xs[0]] + Filter(f, xs[1..]);
        assert multiset(Filter(f, xs)) == multiset([xs[0]]) + multiset(Filter(f, xs[1..]));
      }
    }
  }

  /** A filter keeps exactly the elements that satisfy it, each as often as
      it occurs in the input. */
  lemma FilterKeepsCounts<T(!new)>(f: T -> bool, xs: seq<T>)
    ensures forall x :: f(x) ==> multiset(Filter(f, xs))[x] == multiset(xs)[x]
    ensures forall x :: !f(x) ==> multiset(Filter(f, xs))[x] == 0
  {
    forall x | f(x) ensures multiset(Filter(f, xs))[x] == multiset(xs)[x] {
      FilterKeepsCount(f, xs, x);
    }
  }

  /** Two elements that both satisfy `f` are both kept. */
  lemma FilterKeepsPair<T>(f: T -> bool, x: T, y: T)
    requires f(x) && f(y)
    ensures Filter(f, [x, y]) == [x, y]
  {
    assert [x, y][1..] == [y];
    assert [y][1..] == [];
  }

  lemma {:induction false} FilterAppend<T>(f: T -> bool, a: seq<T>, b: seq<T>)
    ensures Filter(f, a + b) == Filter(f, a) + Filter(f, b)
  {
    if a == [] {
      assert a + b == b;
    } else {
      assert (a + b)[1..] == a[1..] + b;
      FilterAppend(f, a[1..], b);
    }
  }

  /** Filtering keeps relative order: `Filter(f, xs)` is a subsequence of `xs`. */
  lemma {:induction false} FilterIsSubsequence<T>(f: T -> bool, xs: seq<T>)
    ensures IsSubsequence(Filter(f, xs), xs)
  {
    if xs != [] {
      FilterIsSubsequence(f, xs[1..]);
      if f(xs[0]) {
        assert Filter(f, xs) == [xs[0]] + Filter(f, xs[1..]);
        assert Filter(f, xs)[1..] == Filter(f, xs[1..]);
      }
    }
  }

  /** `sub` can be obtained from `xs` by deleting elements. */
  predicate IsSubsequence<T(==)>(sub: seq<T>, xs: seq<T>)
    decreases |xs|
  {
    if sub == [] then true
    else if xs == [] then false
    else if sub[0] == xs[0] then IsSubsequence(sub[1..], xs[1..])
    else IsSubsequence(sub, xs[1..])
  }

  /** The concatenation of all the sequences in `xss`, in order. */
  function Flatten<T>(xss: seq<seq<T>>): (r: seq<T>)
    ensures |r| == SumLengths(xss)
  {
    if xss == [] then [] else xss[0] + Flatten(xss[1..])
  }

  /** The total number of elements in `xss`. */
  function SumLengths<T>(xss: seq<seq<T>>): nat
  {
    if xss == [] then 0 else |xss[0]| + SumLengths(xss[1..])
  }

  lemma {:induction false} FlattenAppend<T>(a: seq<seq<T>>, b: seq<seq<T>>)
    ensures Flatten(a + b) == Flatten(a) + Flatten(b)
  {
    if a == [] {
      assert a + b == b;
    } else {
      assert (a + b)[1..] == a[1..] + b;
      FlattenAppend(a[1..], b);
    }
  }

  /** An empty part contributes nothing to the flattening. */
  lemma FlattenSkipEmpty<T>(a: seq<seq<T>>, b: seq<seq<T>>)
    ensures Flatten(a + [[]] + b) == Flatten(a + b)
  {
    var none: seq<seq<T>> := [[]];
    FlattenAppend(a + none, b);
    FlattenAppend(a, none);
    FlattenAppend(a, b);
    assert Flatten(none) == [];
    assert Flatten(a) + [] == Flatten(a);
  }

  /** Everything in the flattening comes from one of the parts. */
  lemma {:induction false} FlattenMember<T>(xss: seq<seq<T>>, x: T)
    requires x in Flatten(xss)
    ensures exists i :: 0 <= i < |xss| && x in xss[i]
  {
    if x !in xss[0] {
      FlattenMember(xss[1..], x);
      var i :| 0 <= i < |xss[1..]| && x in xss[1..][i];
      assert xss[i + 1] == xss[1..][i];
    }
  }

  /** Everything in a part is in the flattening. */
  lemma {:induction false} FlattenIncludes<T>(xss: seq<seq<T>>, i: int, x: T)
    requires 0 <= i < |xss| && x in xss[i]
    ensures x in Flatten(xss)
  {
    if i > 0 {
      FlattenIncludes(xss[1..], i - 1, x);
    }
  }
}
