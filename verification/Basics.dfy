// Shared vocabulary: optional values, results and duplicate-free sequences.
module Basics {

  datatype Option<+T> = None | Some(value: T)

  datatype Result<+T, +E> = Ok(value: T) | Err(error: E)

  ghost predicate Distinct<T>(s: seq<T>) {
    forall i, j :: 0 <= i < j < |s| ==> s[i] != s[j]
  }

  function Without<T>(s: seq<T>, i: nat): seq<T>
    requires i < |s|
  {
    s[..i] + s[i + 1..]
  }

  // The first position of x, or the length if it does not occur.
  function IndexOf<T(==)>(s: seq<T>, x: T): (n: nat)
    ensures n <= |s|
    ensures forall i :: 0 <= i < n ==> s[i] != x
    ensures n < |s| ==> s[n] == x
  {
    if s == [] || s[0] == x then 0 else 1 + IndexOf(s[1..], x)
  }

  lemma {:induction false} IndexIs<T>(s: seq<T>, x: T, n: nat)
    requires n <= |s| && (n < |s| ==> s[n] == x) && forall i :: 0 <= i < n ==> s[i] != x
    ensures IndexOf(s, x) == n
  {
    if n > 0 {
      IndexIs(s[1..], x, n - 1);
    }
  }

  function Last<T>(s: seq<T>): T
    requires s != []
  {
    s[|s| - 1]
  }

  function Front<T>(s: seq<T>): seq<T>
    requires s != []
  {
    s[..|s| - 1]
  }
}
