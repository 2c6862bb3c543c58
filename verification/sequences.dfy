/** Searching sequences, shared by the string and the list code of the model. */
module Sequences {

  /** Index of the first occurrence of `x` in `s`, or `|s|` when `x` does not occur. */
  function IndexOf<T(==)>(s: seq<T>, x: T): (i: nat)
    ensures i <= |s|
    ensures i < |s| ==> s[i] == x
    ensures forall k :: 0 <= k < i ==> s[k] != x
  {
    if s == [] then 0
    else if s[0] == x then 0
    else 1 + IndexOf(s[1..], x)
  }

  /** Index of the last occurrence of `x` in `s`, or -1 when `x` does not occur
      (Python's `str.rfind`). */
  function LastIndexOf<T(==)>(s: seq<T>, x: T): (i: int)
    ensures -1 <= i < |s|
    ensures i >= 0 ==> s[i] == x
    ensures forall k :: i < k < |s| ==> s[k] != x
  {
    if s == [] then -1
    else if s[|s| - 1] == x then |s| - 1
    else LastIndexOf(s[..|s| - 1], x)
  }

  /** `a` is obtained from `b` by deleting elements, keeping the order of the rest. */
  predicate IsSubsequence<T(==)>(a: seq<T>, b: seq<T>)
    decreases |b|
  {
    if a == [] then true
    else if b == [] then false
    else (a[|a| - 1] == b[|b| - 1] && IsSubsequence(a[..|a| - 1], b[..|b| - 1]))
         || IsSubsequence(a, b[..|b| - 1])
  }
}
