/** The Python list operations the scripts use: `list.index`, `list.remove` and `x in list`. */
module PyList {
  import opened Wrappers

  /** `s.index(x)`: the first position of `x`, or `None` where Python raises `ValueError`. */
  function IndexOf<T(==)>(s: seq<T>, x: T): (r: Option<nat>)
    ensures r.Some? ==> r.value < |s| && s[r.value] == x && x !in s[..r.value]
    ensures r.None? <==> x !in s
  {
    if s == [] then None
    else if s[0] == x then Some(0)
    else match IndexOf(s[1..], x)
      case Some(i) =>
        assert s[..i + 1] == [s[0]] + s[1..][..i];
        Some(i + 1)
      case None => None
  }

  /** `s.remove(x)`: drops the first occurrence of `x` and keeps the rest in order. */
  function RemoveFirst<T(==)>(s: seq<T>, x: T): (r: seq<T>)
    requires x in s
    ensures |r| == |s| - 1
    ensures multiset(r) == multiset(s) - multiset{x}
    ensures exists i | 0 <= i < |s| :: s[i] == x && x !in s[..i] && r == s[..i] + s[i + 1..]
  {
    var i := IndexOf(s, x).value;
    assert s == s[..i] + [s[i]] + s[i + 1..];
    s[..i] + s[i + 1..]
  }

  /** Appending leaves the first position of an element already present unchanged. */
  lemma {:induction false} IndexOfAppend<T>(s: seq<T>, k: T, x: T)
    requires k in s
    ensures IndexOf(s + [x], k) == IndexOf(s, k)
  {
    if s[0] != k {
      assert (s + [x])[1..] == s[1..] + [x];
      IndexOfAppend(s[1..], k, x);
    }
  }

  /** An element appended to a list without it is found at the end. */
  lemma {:induction false} IndexOfAppendNew<T>(s: seq<T>, x: T)
    requires x !in s
    ensures IndexOf(s + [x], x) == Some(|s|)
  {
    if s != [] {
      assert (s + [x])[1..] == s[1..] + [x];
      IndexOfAppendNew(s[1..], x);
    }
  }

  /** No element occurs twice. */
  predicate NoDuplicates<T(==)>(s: seq<T>) {
    forall i, j | 0 <= i < j < |s| :: s[i] != s[j]
  }
}
