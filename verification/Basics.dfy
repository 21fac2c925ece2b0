/** The result types, the one predicate on lists and the one fact about texts that the model shares. */
module Basics {

  datatype Option<+T> = None | Some(value: T)

  /** A Go `(value, error)` pair. */
  datatype Result<+T> = Ok(value: T) | Err(error: string)

  predicate Distinct(s: seq<string>) {
    forall i, j :: 0 <= i < j < |s| ==> s[i] != s[j]
  }

  /** What comes before the first `c`, and what comes after it, can be read back. */
  lemma AtFirst(c: char, x: string, d: string, y: string, e: string)
    requires c !in x && c !in y && x + [c] + d == y + [c] + e
    ensures x == y && d == e
  {
    var t := x + [c] + d;
    assert t[|x|] == c && t[|y|] == c;
    assert forall i :: 0 <= i < |x| ==> t[i] == x[i];
    assert forall i :: 0 <= i < |y| ==> t[i] == y[i];
    assert |x| == |y|;
    assert x == t[..|x|] && y == t[..|y|];
    assert d == t[|x| + 1..] && e == t[|y| + 1..];
  }
}
