/** Optional values: Python's `None` on one side, a present value on the other. */
module Wrappers {

  datatype Option<+T> = None | Some(value: T) {

    /** The value if present, the fallback otherwise (`x if x is not None else d`). */
    function GetOr(fallback: T): T {
      match this
      case Some(v) => v
      case None => fallback
    }
  }

  /** No element of `s` occurs twice. */
  predicate Distinct<T(==)>(s: seq<T>) {
    forall i, j :: 0 <= i < j < |s| ==> s[i] != s[j]
  }

  /** Index of the first `x` in `s` (`s.index(x)`), or |s| when absent. */
  function Pos<T(==)>(s: seq<T>, x: T): (p: nat)
    ensures p <= |s|
    ensures x in s ==> p < |s| && s[p] == x
    ensures x !in s ==> p == |s|
    ensures forall j :: 0 <= j < p ==> s[j] != x
  {
    if s == [] then 0
    else if s[0] == x then 0
    else 1 + Pos(s[1..], x)
  }

  /** The first index of `x` in `a + b`: its first index in `a` when it
      occurs there, otherwise past `a` by its first index in `b`. */
  lemma {:induction false} PosConcat<T>(a: seq<T>, b: seq<T>, x: T)
    ensures Pos(a + b, x) == if x in a then Pos(a, x) else |a| + Pos(b, x)
    decreases |a|
  {
    if a != [] {
      assert (a + b)[1..] == a[1..] + b;
      PosConcat(a[1..], b, x);
      assert x in a <==> x == a[0] || x in a[1..];
    } else {
      assert a + b == b;
    }
  }

  lemma ConcatAssoc<T>(x: seq<T>, y: seq<T>, z: seq<T>)
    ensures x + (y + z) == (x + y) + z
  {
  }
}
