/** Small vocabulary that the models share. */
module Basics {

  datatype Option<+T> = None | Some(value: T)

  ghost predicate NoDuplicates<T>(s: seq<T>) {
    forall i, j :: 0 <= i < j < |s| ==> s[i] != s[j]
  }

  function Min(a: nat, b: nat): (m: nat)
    ensures m <= a && m <= b && (m == a || m == b)
  {
    if a <= b then a else b
  }

  /** The sequence without any occurrence of `x`. */
  function Without<T(==,!new)>(s: seq<T>, x: T): (r: seq<T>)
    ensures forall y :: y in r <==> y in s && y != x
    ensures NoDuplicates(s) ==> NoDuplicates(r)
  {
    if s == [] then []
    else
      var rest, last := Without(s[..|s| - 1], x), s[|s| - 1];
      assert s == s[..|s| - 1] + [last];
      assert NoDuplicates(s) ==> last !in s[..|s| - 1];
      if last == x then rest else rest + [last]
  }
}
