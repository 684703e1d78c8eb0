/** Stable sorting by an integer key: the part of `Array.prototype.sort`
    the page relies on when it orders events by start instant. The
    specification of the sort is "sorted, and every group of equal keys in
    input order"; an insertion sort meets it, and any sort that meets it
    returns the same sequence. */
module Sorting {
  /** Keys do not decrease along `xs`. */
  predicate SortedBy<T>(key: T -> int, xs: seq<T>)
  {
    forall i, j :: 0 <= i < j < |xs| ==> key(xs[i]) <= key(xs[j])
  }

  /** The elements of `xs` whose key is `k`, in their order in `xs`. */
  ghost function WithKey<T>(key: T -> int, k: int, xs: seq<T>): seq<T>
  {
    if xs == [] then []
    else (if key(xs[0]) == k then [xs[0]] else []) + WithKey(key, k, xs[1..])
  }

  /** `ys` holds the same elements as `xs` and each group of equal keys in
      the same order: a stable rearrangement. */
  ghost predicate StableRearrangement<T>(key: T -> int, xs: seq<T>, ys: seq<T>)
  {
    forall k :: WithKey(key, k, ys) == WithKey(key, k, xs)
  }

  /** Every member of a key group has that key and is drawn from `xs`. */
  lemma {:induction false} WithKeyMember<T>(key: T -> int, k: int, xs: seq<T>, i: int)
    requires 0 <= i < |WithKey(key, k, xs)|
    ensures key(WithKey(key, k, xs)[i]) == k && WithKey(key, k, xs)[i] in xs
  {
    var h: seq<T> := if key(xs[0]) == k then [xs[0]] else [];
    if i >= |h| {
      WithKeyMember(key, k, xs[1..], i - |h|);
    }
  }

  lemma WithKeyCons<T>(key: T -> int, k: int, x: T, xs: seq<T>)
    ensures WithKey(key, k, [x] + xs) == (if key(x) == k then [x] else []) + WithKey(key, k, xs)
  {
    assert ([x] + xs)[1..] == xs;
  }

  /** `x` placed before the first element of `s` whose key is not smaller. */
  function Insert<T>(key: T -> int, x: T, s: seq<T>): (r: seq<T>)
    ensures |r| == |s| + 1
    ensures multiset(r) == multiset(s) + multiset{x}
    ensures SortedBy(key, s) ==> SortedBy(key, r)
    ensures SortedBy(key, s) && r != [] ==> key(r[0]) == key(x) || (s != [] && key(r[0]) == key(s[0]))
  {
    if s == [] || key(x) <= key(s[0]) then
      if SortedBy(key, s) then SortedCons(key, x, s); [x] + s else [x] + s
    else
      assert s == [s[0]] + s[1..];
      var rest := Insert(key, x, s[1..]);
      if SortedBy(key, s) then
        SortedTail(key, s);
        SortedCons(key, s[0], rest);
        [s[0]] + rest
      else [s[0]] + rest
  }

  /** A sorted sequence stays sorted under a head whose key is not larger
      than the old head's. */
  lemma SortedCons<T>(key: T -> int, y: T, t: seq<T>)
    requires SortedBy(key, t) && (t == [] || key(y) <= key(t[0]))
    ensures SortedBy(key, [y] + t)
  {
    var r := [y] + t;
    forall i, j | 0 <= i < j < |r| ensures key(r[i]) <= key(r[j]) {
      assert r[j] == t[j - 1];
      if i > 0 {
        assert r[i] == t[i - 1];
      } else if j > 1 {
        assert key(t[0]) <= key(t[j - 1]);
      }
    }
  }

  /** Insertion sort, each element inserted ahead of the equal keys that
      follow it in the input. */
  function SortByKey<T>(key: T -> int, xs: seq<T>): (r: seq<T>)
    ensures |r| == |xs|
    ensures multiset(r) == multiset(xs)
    ensures SortedBy(key, r)
  {
    if xs == [] then []
    else
      assert xs == [xs[0]] + xs[1..];
      Insert(key, xs[0], SortByKey(key, xs[1..]))
  }

  /** Inserting adds `x` at the head of its key group. */
  lemma {:induction false} InsertWithKey<T>(key: T -> int, k: int, x: T, s: seq<T>)
    requires SortedBy(key, s)
    ensures WithKey(key, k, Insert(key, x, s)) == (if key(x) == k then [x] else []) + WithKey(key, k, s)
  {
    if s == [] || key(x) <= key(s[0]) {
      WithKeyCons(key, k, x, s);
    } else {
      SortedTail(key, s);
      InsertWithKey(key, k, x, s[1..]);
      GroupsPastHead(key, k, x, s[0], Insert(key, x, s[1..]), s[1..]);
      assert Insert(key, x, s) == [s[0]] + Insert(key, x, s[1..]);
      assert [s[0]] + s[1..] == s;
    }
  }

  /** Placing `y` ahead of `rest` when `y`'s key is smaller than `x`'s:
      `y` and `x` are never in the same key group, so their groups do not
      interleave. */
  lemma GroupsPastHead<T>(key: T -> int, k: int, x: T, y: T, rest: seq<T>, tail: seq<T>)
    requires key(y) < key(x)
    requires WithKey(key, k, rest) == (if key(x) == k then [x] else []) + WithKey(key, k, tail)
    ensures WithKey(key, k, [y] + rest) == (if key(x) == k then [x] else []) + WithKey(key, k, [y] + tail)
  {
    var a: seq<T> := if key(x) == k then [x] else [];
    var b: seq<T> := if key(y) == k then [y] else [];
    var w := WithKey(key, k, tail);
    WithKeyCons(key, k, y, rest);
    WithKeyCons(key, k, y, tail);
    if key(x) == k {
      assert b == [];
    } else {
      assert a == [];
    }
  }

  lemma SortedTail<T>(key: T -> int, s: seq<T>)
    requires s != [] && SortedBy(key, s)
    ensures SortedBy(key, s[1..])
  {
    forall i, j | 0 <= i < j < |s| - 1 ensures key(s[1..][i]) <= key(s[1..][j]) {
      assert s[1..][i] == s[i + 1] && s[1..][j] == s[j + 1];
    }
  }

  /** The sort is stable: every key group keeps its input order. */
  lemma {:induction false} SortIsStable<T>(key: T -> int, xs: seq<T>)
    ensures StableRearrangement(key, xs, SortByKey(key, xs))
  {
    if xs != [] {
      SortIsStable(key, xs[1..]);
      forall k ensures WithKey(key, k, SortByKey(key, xs)) == WithKey(key, k, xs) {
        InsertWithKey(key, k, xs[0], SortByKey(key, xs[1..]));
        WithKeyCons(key, k, xs[0], xs[1..]);
        assert [xs[0]] + xs[1..] == xs;
      }
    }
  }

  /** The head of a sorted sequence has the smallest key. */
  lemma SortedHeadIsLeast<T>(key: T -> int, a: seq<T>, x: T)
    requires SortedBy(key, a) && x in a
    ensures key(a[0]) <= key(x)
  {
    var i :| 0 <= i < |a| && a[i] == x;
  }

  /** The head of a non-empty sequence heads its own key group. */
  lemma HeadsItsGroup<T>(key: T -> int, a: seq<T>)
    requires a != []
    ensures WithKey(key, key(a[0]), a) != [] && WithKey(key, key(a[0]), a)[0] == a[0]
  {
    WithKeyCons(key, key(a[0]), a[0], a[1..]);
    assert [a[0]] + a[1..] == a;
  }

  /** Sorted sequences with the same key groups start alike. */
  lemma SameGroupsSameHead<T>(key: T -> int, a: seq<T>, b: seq<T>)
    requires a != [] && b != []
    requires SortedBy(key, a) && SortedBy(key, b)
    requires forall k :: WithKey(key, k, a) == WithKey(key, k, b)
    ensures a[0] == b[0]
  {
    var ma, mb := key(a[0]), key(b[0]);
    HeadsItsGroup(key, a);
    HeadsItsGroup(key, b);
    var ga := WithKey(key, mb, a);
    assert ga == WithKey(key, mb, b);
    WithKeyMember(key, mb, a, 0);
    SortedHeadIsLeast(key, a, ga[0]);
    var gb := WithKey(key, ma, b);
    assert gb == WithKey(key, ma, a);
    WithKeyMember(key, ma, b, 0);
    SortedHeadIsLeast(key, b, gb[0]);
    assert ma == mb;
  }

  /** Two sorted sequences with the same key groups are equal. */
  lemma {:induction false} SortedGroupsDetermine<T>(key: T -> int, a: seq<T>, b: seq<T>)
    requires SortedBy(key, a) && SortedBy(key, b)
    requires forall k :: WithKey(key, k, a) == WithKey(key, k, b)
    ensures a == b
    decreases |a|
  {
    if a == [] || b == [] {
      if a != [] {
        HeadsItsGroup(key, a);
      }
      if b != [] {
        HeadsItsGroup(key, b);
      }
    } else {
      SameGroupsSameHead(key, a, b);
      forall k ensures WithKey(key, k, a[1..]) == WithKey(key, k, b[1..]) {
        WithKeyCons(key, k, a[0], a[1..]);
        WithKeyCons(key, k, b[0], b[1..]);
        assert [a[0]] + a[1..] == a;
        assert [b[0]] + b[1..] == b;
        assert WithKey(key, k, a) == WithKey(key, k, b);
        var h: seq<T> := if key(a[0]) == k then [a[0]] else [];
        assert (h + WithKey(key, k, a[1..]))[|h|..] == WithKey(key, k, a[1..]);
        assert (h + WithKey(key, k, b[1..]))[|h|..] == WithKey(key, k, b[1..]);
      }
      SortedGroupsDetermine(key, a[1..], b[1..]);
      assert a == [a[0]] + a[1..];
      assert b == [b[0]] + b[1..];
    }
  }

  /** Any stable sort returns what `SortByKey` returns: the order of the
      result does not depend on the sorting algorithm the engine uses. */
  lemma StableSortIsUnique<T>(key: T -> int, xs: seq<T>, ys: seq<T>)
    requires SortedBy(key, ys) && StableRearrangement(key, xs, ys)
    ensures ys == SortByKey(key, xs)
  {
    SortIsStable(key, xs);
    SortedGroupsDetermine(key, ys, SortByKey(key, xs));
  }
}
