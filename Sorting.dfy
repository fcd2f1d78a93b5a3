/**
 * Python's ordering of `str` values and `list.sort()` on a list of them.
 * Python compares strings code point by code point, a proper prefix coming
 * first; that order is total, so the sorted permutation of a list is unique
 * and any algorithm that returns a sorted permutation returns what
 * `list.sort()` returns.
 */
module Sorting {

  /** `a <= b` for Python strings. */
  predicate LessEq(a: string, b: string)
    decreases |a|
  {
    a == [] || (b != [] && (a[0] < b[0] || (a[0] == b[0] && LessEq(a[1..], b[1..]))))
  }

  lemma {:induction false} LessEqReflexive(a: string)
    ensures LessEq(a, a)
    decreases |a|
  {
    if a != [] {
      LessEqReflexive(a[1..]);
    }
  }

  lemma {:induction false} LessEqTotal(a: string, b: string)
    ensures LessEq(a, b) || LessEq(b, a)
    decreases |a|
  {
    if a != [] && b != [] && a[0] == b[0] {
      LessEqTotal(a[1..], b[1..]);
    }
  }

  lemma {:induction false} LessEqAntisymmetric(a: string, b: string)
    requires LessEq(a, b) && LessEq(b, a)
    ensures a == b
    decreases |a|
  {
    if a != [] {
      LessEqAntisymmetric(a[1..], b[1..]);
      assert a == [a[0]] + a[1..] && b == [b[0]] + b[1..];
    }
  }

  lemma {:induction false} LessEqTransitive(a: string, b: string, c: string)
    requires LessEq(a, b) && LessEq(b, c)
    ensures LessEq(a, c)
    decreases |a|
  {
    if a != [] && a[0] == b[0] && b[0] == c[0] {
      LessEqTransitive(a[1..], b[1..], c[1..]);
    }
  }

  /** Ascending in Python's order. */
  predicate Sorted(s: seq<string>) {
    forall i, j | 0 <= i < j < |s| :: LessEq(s[i], s[j])
  }

  /** An element at most every element of an ascending list may go in front of it. */
  lemma SortedCons(y: string, t: seq<string>)
    requires Sorted(t)
    requires forall z | z in t :: LessEq(y, z)
    ensures Sorted([y] + t)
  {
    forall i, j | 0 <= i < j < |[y] + t| ensures LessEq(([y] + t)[i], ([y] + t)[j]) {
      if i == 0 {
        assert ([y] + t)[j] == t[j - 1];
        assert t[j - 1] in t;
      } else {
        assert ([y] + t)[i] == t[i - 1] && ([y] + t)[j] == t[j - 1];
      }
    }
  }

  /** Every element of a list holding `x` and the elements of `u` is bounded below like they are. */
  lemma BoundedBelow(y: string, x: string, u: seq<string>, t: seq<string>)
    requires multiset(t) == multiset(u) + multiset{x}
    requires LessEq(y, x) && forall z | z in u :: LessEq(y, z)
    ensures forall z | z in t :: LessEq(y, z)
  {
    forall z | z in t ensures LessEq(y, z) {
      assert z in multiset(t);
      if z != x {
        assert z in multiset(u);
      }
    }
  }

  /** The head of an ascending list bounds its tail from below. */
  lemma HeadBoundsTail(s: seq<string>)
    requires Sorted(s) && s != []
    ensures forall z | z in s[1..] :: LessEq(s[0], z)
  {
    forall z | z in s[1..] ensures LessEq(s[0], z) {
      var j :| 0 <= j < |s[1..]| && s[1..][j] == z;
      assert s[j + 1] == z;
    }
  }

  /** Places `x` into an ascending list. */
  function Insert(x: string, s: seq<string>): (r: seq<string>)
    requires Sorted(s)
    ensures Sorted(r)
    ensures multiset(r) == multiset(s) + multiset{x}
  {
    if s == [] then [x]
    else if LessEq(x, s[0]) then
      forall z | z in s ensures LessEq(x, z) {
        HeadIsLeast(s, z);
        LessEqTransitive(x, s[0], z);
      }
      SortedCons(x, s);
      [x] + s
    else
      LessEqTotal(x, s[0]);
      var t := Insert(x, s[1..]);
      HeadBoundsTail(s);
      BoundedBelow(s[0], x, s[1..], t);
      SortedCons(s[0], t);
      assert s == [s[0]] + s[1..];
      [s[0]] + t
  }

  /** `sorted(s)`: insertion sort. */
  function Sort(s: seq<string>): (r: seq<string>)
    ensures Sorted(r)
    ensures multiset(r) == multiset(s)
  {
    if s == [] then []
    else
      assert s == [s[0]] + s[1..];
      Insert(s[0], Sort(s[1..]))
  }

  /** The head of an ascending list is at most each of its elements. */
  lemma HeadIsLeast(s: seq<string>, y: string)
    requires Sorted(s) && y in s
    ensures LessEq(s[0], y)
  {
    var j :| 0 <= j < |s| && s[j] == y;
    if j == 0 {
      LessEqReflexive(y);
    }
  }

  /** Removing equal heads from lists with equal multisets leaves equal multisets. */
  lemma TailMultiset(a: seq<string>, b: seq<string>)
    requires a != [] && b != [] && a[0] == b[0]
    requires multiset(a) == multiset(b)
    ensures multiset(a[1..]) == multiset(b[1..])
  {
    assert a == [a[0]] + a[1..];
    assert b == [b[0]] + b[1..];
    assert multiset(a) == multiset{a[0]} + multiset(a[1..]);
    assert multiset(b) == multiset{a[0]} + multiset(b[1..]);
    assert multiset(a[1..]) == multiset(a) - multiset{a[0]};
    assert multiset(b[1..]) == multiset(b) - multiset{a[0]};
  }

  /** Two ascending permutations of one multiset are the same list. */
  lemma {:induction false} SortedUnique(a: seq<string>, b: seq<string>)
    requires Sorted(a) && Sorted(b)
    requires multiset(a) == multiset(b)
    ensures a == b
    decreases |a|
  {
    assert |a| == |multiset(a)| == |multiset(b)| == |b|;
    if a != [] {
      assert a[0] in multiset(b) && b[0] in multiset(a);
      HeadIsLeast(b, a[0]);
      HeadIsLeast(a, b[0]);
      LessEqAntisymmetric(a[0], b[0]);
      TailMultiset(a, b);
      SortedUnique(a[1..], b[1..]);
      assert a == [a[0]] + a[1..] && b == [b[0]] + b[1..];
    }
  }
}
