/**
 `sort.Strings` and the in-place `uniqueStrings`. A sorted sequence is determined by its
 multiset, so the results below do not depend on which sorting algorithm the library uses.
 */
module Sorting {

  /** Byte-wise string order, Go's `<` on strings. */
  predicate Less(a: string, b: string) {
    if a == [] then b != []
    else b != [] && (a[0] < b[0] || (a[0] == b[0] && Less(a[1..], b[1..])))
  }

  predicate Sorted(s: seq<string>) {
    forall i, j :: 0 <= i < j < |s| ==> !Less(s[j], s[i])
  }

  predicate StrictlySorted(s: seq<string>) {
    forall i, j :: 0 <= i < j < |s| ==> Less(s[i], s[j])
  }

  function Insert(x: string, s: seq<string>): seq<string> {
    if s == [] then [x]
    else if Less(x, s[|s| - 1]) then Insert(x, s[..|s| - 1]) + [s[|s| - 1]]
    else s + [x]
  }

  function Sort(s: seq<string>): seq<string> {
    if s == [] then [] else Insert(s[|s| - 1], Sort(s[..|s| - 1]))
  }

  /** Drops every element equal to the one kept before it. */
  function Compact(s: seq<string>): (r: seq<string>)
    ensures s != [] ==> r != []
  {
    if |s| <= 1 then s
    else
      var r := Compact(s[..|s| - 1]);
      if s[|s| - 1] != r[|r| - 1] then r + [s[|s| - 1]] else r
  }

  function Unique(s: seq<string>): seq<string> {
    Compact(Sort(s))
  }

  // ----- the order

  lemma {:induction false} LessTotal(a: string, b: string)
    ensures Less(a, b) || Less(b, a) || a == b
    ensures !(Less(a, b) && (Less(b, a) || a == b))
  {
    if a != [] && b != [] {
      LessTotal(a[1..], b[1..]);
      assert a == [a[0]] + a[1..] && b == [b[0]] + b[1..];
    }
  }

  /** The order is the lexicographic one: a proper prefix, or smaller at the first difference. */
  lemma {:induction false} LessIsLexicographic(a: string, b: string)
    ensures Less(a, b) <==> (a <= b && |a| < |b|) || exists i :: DifferAt(a, b, i) && a[i] < b[i]
  {
    if a != [] && b != [] {
      if a[0] != b[0] {
        assert DifferAt(a, b, 0);
      } else {
        LessIsLexicographic(a[1..], b[1..]);
        if i :| DifferAt(a[1..], b[1..], i) && a[1..][i] < b[1..][i] {
          assert a[..i + 1] == [a[0]] + a[1..][..i] && b[..i + 1] == [b[0]] + b[1..][..i];
          assert DifferAt(a, b, i + 1);
        }
        if i :| DifferAt(a, b, i) && a[i] < b[i] {
          assert a[1..][..i - 1] == a[..i][1..] && b[1..][..i - 1] == b[..i][1..];
          assert DifferAt(a[1..], b[1..], i - 1);
        }
      }
    }
  }

  /** The first difference of two texts is at `i`. */
  predicate DifferAt(a: string, b: string, i: int) {
    0 <= i < |a| && i < |b| && a[..i] == b[..i] && a[i] != b[i]
  }

  lemma {:induction false} LessTransitive(a: string, b: string, c: string)
    requires Less(a, b) && Less(b, c)
    ensures Less(a, c)
  {
    if a != [] && a[0] == b[0] == c[0] {
      LessTransitive(a[1..], b[1..], c[1..]);
    }
  }

  lemma NotLessTransitive(a: string, b: string, c: string)
    requires !Less(b, a) && !Less(c, b)
    ensures !Less(c, a)
  {
    LessTotal(a, b);
    LessTotal(b, c);
    LessTotal(a, c);
    if Less(c, a) && Less(a, b) {
      LessTransitive(c, a, b);
    }
  }

  // ----- sorting

  lemma {:induction false} InsertBag(x: string, s: seq<string>)
    ensures multiset(Insert(x, s)) == multiset(s) + multiset{x}
  {
    if s != [] {
      var n := |s| - 1;
      assert s == s[..n] + [s[n]];
      if Less(x, s[n]) {
        InsertBag(x, s[..n]);
      }
    }
  }

  lemma {:induction false} InsertSorted(x: string, s: seq<string>)
    requires Sorted(s)
    ensures Sorted(Insert(x, s)) && multiset(Insert(x, s)) == multiset(s) + multiset{x}
  {
    InsertBag(x, s);
    if s != [] {
      var n := |s| - 1;
      if Less(x, s[n]) {
        InsertSorted(x, s[..n]);
        NoneAbove(x, s);
      } else {
        forall i | 0 <= i < |s| ensures !Less(x, s[i]) {
          if i < n {
            NotLessTransitive(s[i], s[n], x);
          }
        }
      }
    }
  }

  /** What goes in front of the last element is not above it. */
  lemma NoneAbove(x: string, s: seq<string>)
    requires s != [] && Sorted(s) && Less(x, s[|s| - 1])
    ensures var r := Insert(x, s[..|s| - 1]); forall i :: 0 <= i < |r| ==> !Less(s[|s| - 1], r[i])
  {
    var n := |s| - 1;
    var r := Insert(x, s[..n]);
    InsertBag(x, s[..n]);
    LessTotal(x, s[n]);
    forall i | 0 <= i < |r| ensures !Less(s[n], r[i]) {
      assert r[i] in multiset(r);
      assert r[i] == x || r[i] in s[..n];
    }
  }

  lemma {:induction false} SortSorts(s: seq<string>)
    ensures Sorted(Sort(s)) && multiset(Sort(s)) == multiset(s)
  {
    if s != [] {
      var n := |s| - 1;
      SortSorts(s[..n]);
      InsertSorted(s[n], Sort(s[..n]));
      assert s == s[..n] + [s[n]];
    }
  }

  lemma MultisetSize(s: seq<string>)
    ensures |multiset(s)| == |s|
  {
  }

  lemma SameElements(s: seq<string>, t: seq<string>)
    requires multiset(s) == multiset(t)
    ensures forall x :: x in s <==> x in t
  {
    assert forall x :: x in s <==> x in multiset(s);
    assert forall x :: x in t <==> x in multiset(t);
  }

  lemma LastIsGreatest(s: seq<string>, x: string)
    requires Sorted(s) && x in s
    ensures !Less(s[|s| - 1], x)
  {
    LessTotal(x, x);
  }

  lemma WithoutLast(s: seq<string>)
    requires s != []
    ensures s == s[..|s| - 1] + [s[|s| - 1]]
    ensures multiset(s[..|s| - 1]) == multiset(s) - multiset{s[|s| - 1]}
  {
    assert s == s[..|s| - 1] + [s[|s| - 1]];
  }

  /** Two sorted sequences with the same elements are the same sequence. */
  lemma {:induction false} SortedUnique(s: seq<string>, t: seq<string>)
    requires Sorted(s) && Sorted(t) && multiset(s) == multiset(t)
    ensures s == t
  {
    MultisetSize(s);
    MultisetSize(t);
    if s != [] {
      var n := |s| - 1;
      SameLast(s, t);
      WithoutLast(s);
      WithoutLast(t);
      SortedUnique(s[..n], t[..n]);
    }
  }

  lemma SameLast(s: seq<string>, t: seq<string>)
    requires Sorted(s) && Sorted(t) && multiset(s) == multiset(t) && s != [] && t != []
    ensures s[|s| - 1] == t[|t| - 1]
  {
    SameElements(s, t);
    LastIsGreatest(s, t[|t| - 1]);
    LastIsGreatest(t, s[|s| - 1]);
    LessTotal(s[|s| - 1], t[|t| - 1]);
  }

  /** `slices.Equal` on sorted copies compares multisets. */
  lemma SortEqual(s: seq<string>, t: seq<string>)
    ensures Sort(s) == Sort(t) <==> multiset(s) == multiset(t)
  {
    SortSorts(s);
    SortSorts(t);
    if multiset(s) == multiset(t) {
      SortedUnique(Sort(s), Sort(t));
    }
  }

  // ----- compaction

  lemma {:induction false} CompactStrict(s: seq<string>)
    requires Sorted(s)
    ensures StrictlySorted(Compact(s))
    ensures forall x :: x in Compact(s) <==> x in s
    ensures s != [] ==> Compact(s)[|Compact(s)| - 1] == s[|s| - 1]
  {
    if |s| > 1 {
      var n := |s| - 1;
      CompactStrict(s[..n]);
      var r := Compact(s[..n]);
      assert r[|r| - 1] == s[n - 1];
      assert forall x :: x in s <==> x in s[..n] || x == s[n];
      if s[n] != s[n - 1] {
        LessTotal(s[n - 1], s[n]);
        forall i | 0 <= i < |r| ensures Less(r[i], s[n]) {
          if i < |r| - 1 {
            LessTransitive(r[i], r[|r| - 1], s[n]);
          }
        }
      }
    }
  }

  /** Strictly increasing, with exactly the given strings. */
  lemma UniqueSpec(s: seq<string>)
    ensures StrictlySorted(Unique(s))
    ensures forall x :: x in Unique(s) <==> x in s
  {
    SortSorts(s);
    CompactStrict(Sort(s));
    SameElements(Sort(s), s);
  }

  lemma StrictlySortedDistinct(s: seq<string>)
    requires StrictlySorted(s)
    ensures forall i, j :: 0 <= i < j < |s| ==> s[i] != s[j]
  {
    forall i, j | 0 <= i < j < |s| ensures s[i] != s[j] {
      LessTotal(s[i], s[j]);
    }
  }

  lemma {:induction false} CompactOfStrict(s: seq<string>)
    requires forall i, j :: 0 <= i < j < |s| ==> s[i] != s[j]
    ensures Compact(s) == s
  {
    if |s| > 1 {
      CompactOfStrict(s[..|s| - 1]);
      assert s == s[..|s| - 1] + [s[|s| - 1]];
    }
  }

  lemma {:induction false} AtMostOnce(s: seq<string>, x: string)
    requires forall i, j :: 0 <= i < j < |s| ==> s[i] != s[j]
    ensures multiset(s)[x] <= 1
  {
    if s != [] {
      var n := |s| - 1;
      AtMostOnce(s[..n], x);
      WithoutLast(s);
      assert s[n] !in s[..n];
    }
  }

  lemma AtLeastTwice(t: seq<string>, i: nat, j: nat)
    requires i < j < |t| && t[i] == t[j]
    ensures multiset(t)[t[i]] >= 2
  {
    assert t == t[..j] + ([t[j]] + t[j + 1..]);
    assert t[i] in t[..j];
  }

  lemma DistinctMultiset(s: seq<string>, t: seq<string>)
    requires multiset(s) == multiset(t) && forall i, j :: 0 <= i < j < |s| ==> s[i] != s[j]
    ensures forall i, j :: 0 <= i < j < |t| ==> t[i] != t[j]
  {
    forall i, j | 0 <= i < j < |t| ensures t[i] != t[j] {
      AtMostOnce(s, t[i]);
      if t[i] == t[j] {
        AtLeastTwice(t, i, j);
      }
    }
  }

  /** Nothing is dropped from a list without repetitions. */
  lemma UniqueKeepsAll(s: seq<string>)
    requires forall i, j :: 0 <= i < j < |s| ==> s[i] != s[j]
    ensures |Unique(s)| == |s|
  {
    SortSorts(s);
    DistinctMultiset(s, Sort(s));
    CompactOfStrict(Sort(s));
    MultisetSize(s);
    MultisetSize(Sort(s));
  }

  // ----- in place

  /** Elements above `x` move right by one, and leave a gap for it. */
  method ShiftRight(a: array<string>, i: nat, x: string) returns (j: nat)
    requires i < a.Length
    modifies a
    ensures j <= i && (j == 0 || !Less(x, old(a[j - 1])))
    ensures forall k :: 0 <= k < j ==> a[k] == old(a[k])
    ensures forall k :: j < k <= i ==> a[k] == old(a[k - 1])
    ensures forall k :: j <= k < i ==> Less(x, old(a[k]))
    ensures forall k :: i < k < a.Length ==> a[k] == old(a[k])
  {
    j := i;
    while j > 0 && Less(x, a[j - 1])
      invariant 0 <= j <= i
      invariant forall k :: 0 <= k < j ==> a[k] == old(a[k])
      invariant forall k :: j < k <= i ==> a[k] == old(a[k - 1])
      invariant forall k :: j <= k < i ==> Less(x, old(a[k]))
      invariant forall k :: i < k < a.Length ==> a[k] == old(a[k])
    {
      a[j] := a[j - 1];
      j := j - 1;
    }
  }

  /** One round of insertion: `a[i]` moves left to its place among `a[..i]`. */
  method InsertLeft(a: array<string>, i: nat)
    requires i < a.Length
    modifies a
    ensures a[..i + 1] == Insert(old(a[i]), old(a[..i]))
    ensures forall k :: i < k < a.Length ==> a[k] == old(a[k])
  {
    var x := a[i];
    ghost var p := a[..i];
    var j := ShiftRight(a, i, x);
    a[j] := x;
    InsertHere(x, p, j);
    SameSequence(a[..i + 1], p, x, j);
  }

  lemma SameSequence(r: seq<string>, p: seq<string>, x: string, j: nat)
    requires |r| == |p| + 1 && j <= |p| && r[j] == x
    requires forall k :: 0 <= k < j ==> r[k] == p[k]
    requires forall k :: j < k <= |p| ==> r[k] == p[k - 1]
    ensures r == p[..j] + ([x] + p[j..])
  {
  }

  lemma {:induction false} InsertHere(x: string, p: seq<string>, j: nat)
    requires j <= |p| && (j == 0 || !Less(x, p[j - 1])) && forall k :: j <= k < |p| ==> Less(x, p[k])
    ensures Insert(x, p) == p[..j] + ([x] + p[j..])
  {
    var n := |p| - 1;
    if j <= n {
      InsertHere(x, p[..n], j);
      assert p[..n][..j] == p[..j];
      assert p[j..] == p[..n][j..] + [p[n]];
    } else {
      assert p[..j] == p && p[j..] == [];
    }
  }

  method SortStrings(a: array<string>)
    modifies a
    ensures a[..] == Sort(old(a[..]))
  {
    ghost var was := a[..];
    for i := 0 to a.Length
      invariant a[..i] == Sort(was[..i])
      invariant forall k :: i <= k < a.Length ==> a[k] == was[k]
    {
      InsertLeft(a, i);
      assert was[..i + 1][..i] == was[..i];
    }
    assert was[..a.Length] == was;
  }

  lemma CompactNext(s: seq<string>, i: nat)
    requires 0 < i < |s|
    ensures var r := Compact(s[..i]);
      r != [] && Compact(s[..i + 1]) == if s[i] != r[|r| - 1] then r + [s[i]] else r
  {
    assert s[..i + 1][..i] == s[..i];
  }

  /** The loop of `uniqueStrings`. Cells it has not read yet still hold the input when it reads them. */
  method CompactInPlace(values: array<string>) returns (kept: nat)
    requires values.Length > 0
    modifies values
    ensures kept <= values.Length && values[..kept] == Compact(old(values[..]))
  {
    ghost var was := values[..];
    kept := 1;
    for i := 1 to values.Length
      invariant 1 <= kept <= i && values[..kept] == Compact(was[..i])
      invariant forall k :: i <= k < values.Length ==> values[k] == was[k]
    {
      ghost var r := values[..kept];
      CompactNext(was, i);
      assert values[kept - 1] == r[kept - 1];
      if values[i] != values[kept - 1] {
        values[kept] := values[i];
        kept := kept + 1;
        assert values[..kept] == r + [was[i]];
      }
    }
    assert was[..values.Length] == was;
  }

  /** `uniqueStrings`: the result is the front of the very slice it was given. */
  method UniqueStrings(values: array<string>) returns (kept: nat)
    modifies values
    ensures kept <= values.Length && values[..kept] == Unique(old(values[..]))
  {
    if values.Length == 0 {
      return 0;
    }
    SortStrings(values);
    kept := CompactInPlace(values);
  }

  // ----- permutations

  function Map<A, B>(f: A -> B, s: seq<A>): (r: seq<B>)
    ensures |r| == |s| && forall i :: 0 <= i < |s| ==> r[i] == f(s[i])
  {
    seq(|s|, i requires 0 <= i < |s| => f(s[i]))
  }

  lemma RemoveAt<T>(s: seq<T>, k: nat)
    requires k < |s|
    ensures multiset(s) == multiset{s[k]} + multiset(s[..k] + s[k + 1..])
  {
    assert s == s[..k] + ([s[k]] + s[k + 1..]);
  }

  /** The first element of a sequence, found in a permutation of it. */
  lemma FindFirst<T>(s: seq<T>, t: seq<T>) returns (k: nat)
    requires s != [] && multiset(s) == multiset(t)
    ensures k < |t| && t[k] == s[0] && multiset(s[1..]) == multiset(t[..k] + t[k + 1..])
  {
    assert s[0] in multiset(t);
    k :| 0 <= k < |t| && t[k] == s[0];
    RemoveAt(t, k);
    assert s == [s[0]] + s[1..];
    assert multiset(s[1..]) == multiset(s) - multiset{s[0]};
  }

  lemma MapRemoved<A, B>(f: A -> B, s: seq<A>, k: nat)
    requires k < |s|
    ensures multiset(Map(f, s)) == multiset{f(s[k])} + multiset(Map(f, s[..k] + s[k + 1..]))
  {
    var u := Map(f, s);
    assert Map(f, s[..k] + s[k + 1..]) == u[..k] + u[k + 1..];
    RemoveAt(u, k);
  }

  lemma MapHead<A, B>(f: A -> B, s: seq<A>)
    requires s != []
    ensures multiset(Map(f, s)) == multiset{f(s[0])} + multiset(Map(f, s[1..]))
  {
    assert Map(f, s) == [f(s[0])] + Map(f, s[1..]);
  }

  /** Mapping a permutation gives a permutation. */
  lemma {:induction false} MapPermutes<A, B>(f: A -> B, s: seq<A>, t: seq<A>)
    requires multiset(s) == multiset(t)
    ensures multiset(Map(f, s)) == multiset(Map(f, t))
    decreases |s|
  {
    assert |s| == |multiset(s)| == |multiset(t)| == |t|;
    if s != [] {
      var k := FindFirst(s, t);
      var s', t' := s[1..], t[..k] + t[k + 1..];
      MapPermutes(f, s', t');
      MapRemoved(f, t, k);
      MapHead(f, s);
    }
  }
}
