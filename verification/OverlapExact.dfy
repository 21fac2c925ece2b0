/**
 Exactly which pairs of valid placements the overlap check flags: those that agree on listeners, hostnames and
 all selectors but the ranges, and have no range at all or one they share.
 */
module OverlapExact {
  import opened Basics
  import opened RegexSyntax
  import opened RegexMatch
  import opened Sorting
  import opened RangeCompiler
  import opened Placements
  import opened PlacementCompiler
  import opened Overlap

  // ----- what a flagged pair has in common

  /** Requests reach both through the same listeners and under the same hostnames. */
  predicate SameAudience(l: PlacementSpec, r: PlacementSpec) {
    multiset(l.listenerNames) == multiset(r.listenerNames) && multiset(l.hostnames) == multiset(r.hostnames)
  }

  /** Listeners and hostnames are compared as multisets, and a difference in either settles the question. */
  lemma FlaggedSameAudience(l: PlacementSpec, r: PlacementSpec)
    requires AllPresent(l.selectors) && AllPresent(r.selectors) && ObviouslyOverlap(l, r)
    ensures SameAudience(l, r)
  {
    SortEqual(l.listenerNames, r.listenerNames);
    SortEqual(l.hostnames, r.hostnames);
  }

  lemma JoinCounts(xs: seq<string>, t: string)
    requires SemicolonFree(xs) && xs != []
    ensures CountOf(Segments(Join(Sort(xs), ";")), t) == multiset(xs)[t]
  {
    SortSorts(xs);
    MultisetSize(xs);
    MultisetSize(Sort(xs));
    OccursJoin(Sort(xs), t);
    OccursPermutes(xs, Sort(xs), t);
    OccursWhole(xs, t);
  }

  lemma JoinedNonempty(xs: seq<string>)
    requires SemicolonFree(xs) && xs != [] && "" !in xs
    ensures Join(Sort(xs), ";") != ""
  {
    JoinCounts(xs, "");
    assert CountOf(Segments(""), "") == 1;
  }

  /** The sorted parts of a joined text can be read back. */
  lemma JoinedReads(xs: seq<string>, ys: seq<string>)
    requires SemicolonFree(xs) && SemicolonFree(ys) && "" !in xs && "" !in ys
    ensures Join(Sort(xs), ";") == Join(Sort(ys), ";") <==> multiset(xs) == multiset(ys)
  {
    if multiset(xs) == multiset(ys) {
      SortEqual(xs, ys);
    } else if xs == [] {
      JoinedNonempty(ys);
    } else if ys == [] {
      JoinedNonempty(xs);
    } else if Join(Sort(xs), ";") == Join(Sort(ys), ";") {
      forall t ensures multiset(xs)[t] == multiset(ys)[t] {
        JoinCounts(xs, t);
        JoinCounts(ys, t);
      }
    }
  }

  lemma PartsNonempty(sels: seq<Selector>)
    requires forall s :: s in sels ==> !s.operator.Range?
    ensures "" !in PartTexts(sels)
  {
  }

  /** Without the separator in a part, equal signatures mean equal parts. */
  lemma OtherPartsRead(l: seq<Selector>, r: seq<Selector>)
    requires AllPresent(l) && AllPresent(r) && SeparatorFree(NonRange(l)) && SeparatorFree(NonRange(r))
    ensures Signature(l, false) == Signature(r, false) <==>
            multiset(PartTexts(NonRange(l))) == multiset(PartTexts(NonRange(r)))
  {
    PartsNonempty(NonRange(l));
    PartsNonempty(NonRange(r));
    JoinedReads(PartTexts(NonRange(l)), PartTexts(NonRange(r)));
  }

  // ----- ranges that meet

  /** One source has a range in both placements, and the two ranges intersect. */
  predicate SharesRange(l: PlacementSpec, r: PlacementSpec) {
    exists a, b :: a in Ranges(l.selectors) && b in Ranges(r.selectors) && RangesMeet(a, b)
  }

  predicate RangesMeet(a: Selector, b: Selector) {
    && a.source == b.source && a.range.Some? && b.range.Some?
    && NumericRangesIntersect(a.range.value, b.range.value)
  }

  lemma {:induction false} GroupNamesOk(b: Body, name: string)
    requires BodyOk(b) && name in Groups(b)
    ensures NameOk(name)
  {
    match b
    case Done =>
    case Or(rest) => GroupNamesOk(rest, name);
    case Then(a, q, rest) =>
      if name in Groups(rest) {
        GroupNamesOk(rest, name);
      } else if name in Groups(a.body) {
        GroupNamesOk(a.body, name);
      }
  }

  lemma CaptureNameOk(s: Source)
    requires SourceOk(s) && s.kind.PathCapture?
    ensures ':' !in s.name
  {
    ParseSound(s.pathRegex);
    GroupNamesOk(Parse(s.pathRegex).value, s.name);
  }

  /** Valid sources with one key are one source. */
  lemma SourceKeyInjective(s: Source, t: Source)
    requires SourceOk(s) && SourceOk(t) && SourceKey(s) == SourceKey(t)
    ensures s == t
  {
    assert SourceKey(s)[0] == SourceTypeText(s.kind)[0] && SourceKey(t)[0] == SourceTypeText(t.kind)[0];
    assert s.kind == t.kind;
    var kind := SourceTypeText(s.kind);
    if s.kind.PathCapture? {
      CaptureNameOk(s);
      CaptureNameOk(t);
      assert SourceKey(s) == kind + ":" + (s.name + ":" + s.pathRegex);
      assert SourceKey(t) == kind + ":" + (t.name + ":" + t.pathRegex);
      AtFirst(':', kind, s.name + ":" + s.pathRegex, kind, t.name + ":" + t.pathRegex);
      AtFirst(':', s.name, s.pathRegex, t.name, t.pathRegex);
    } else {
      AtFirst(':', kind, s.name, kind, t.name);
    }
  }

  lemma SharedIsSharesRange(l: PlacementSpec, r: PlacementSpec)
    requires SpecOk(l) && SpecOk(r)
    ensures SharedRange(RangesBySource(l.selectors), RangesBySource(r.selectors)) <==> SharesRange(l, r)
  {
    var lm, rm := RangesBySource(l.selectors), RangesBySource(r.selectors);
    if k :| k in lm && k in rm && NumericRangesIntersect(lm[k], rm[k]) {
      var a := RangesBySourceOnly(l.selectors, k);
      var b := RangesBySourceOnly(r.selectors, k);
      assert SelectorOk(a) && SelectorOk(b);
      SourceKeyInjective(a.source, b.source);
      assert a in Ranges(l.selectors) && b in Ranges(r.selectors) && RangesMeet(a, b);
    }
    if a, b :| a in Ranges(l.selectors) && b in Ranges(r.selectors) && RangesMeet(a, b) {
      KeysDiffer(l);
      KeysDiffer(r);
      RangesBySourceAt(l.selectors, a);
      RangesBySourceAt(r.selectors, b);
    }
  }

  // ----- the check decided

  /** Neither placement has a range, or they share one. */
  predicate RangesCompatible(l: PlacementSpec, r: PlacementSpec) {
    (Ranges(l.selectors) == [] && Ranges(r.selectors) == []) || SharesRange(l, r)
  }

  predicate PartsSeparate(l: PlacementSpec, r: PlacementSpec) {
    SeparatorFree(l.selectors) && SeparatorFree(r.selectors)
  }

  lemma PartsByKindSeparate(sels: seq<Selector>)
    requires SeparatorFree(sels)
    ensures SeparatorFree(NonRange(sels)) && SeparatorFree(Ranges(sels))
  {
    forall p | p in PartTexts(NonRange(sels)) ensures ';' !in p {
      var k :| 0 <= k < |NonRange(sels)| && PartTexts(NonRange(sels))[k] == p;
      PartIsFree(sels, NonRange(sels)[k]);
    }
    forall p | p in PartTexts(Ranges(sels)) ensures ';' !in p {
      var k :| 0 <= k < |Ranges(sels)| && PartTexts(Ranges(sels))[k] == p;
      PartIsFree(sels, Ranges(sels)[k]);
    }
  }

  lemma PartIsFree(sels: seq<Selector>, s: Selector)
    requires SeparatorFree(sels) && s in sels
    ensures ';' !in PartText(s)
  {
    var k :| 0 <= k < |sels| && sels[k] == s;
    assert PartTexts(sels)[k] in PartTexts(sels);
  }

  /** Equal range parts come down to no range or a shared one. */
  lemma RangePartsCompatible(l: PlacementSpec, r: PlacementSpec)
    requires SpecOk(l) && SpecOk(r)
    ensures RangesCompatible(l, r) <==>
            || multiset(PartTexts(Ranges(l.selectors))) == multiset(PartTexts(Ranges(r.selectors)))
            || SharedRange(RangesBySource(l.selectors), RangesBySource(r.selectors))
  {
    SharedIsSharesRange(l, r);
    if multiset(PartTexts(Ranges(l.selectors))) == multiset(PartTexts(Ranges(r.selectors))) {
      SameCount(Ranges(l.selectors), Ranges(r.selectors));
      if Ranges(l.selectors) != [] {
        EqualRangesShare(l, r);
      }
    }
  }

  /** A pair of valid placements is flagged exactly when listeners, hostnames and the parts of all selectors but
      the ranges are the same, and there is no range or a shared one; if the separator is in no part. */
  lemma FlaggedIffParts(l: PlacementSpec, r: PlacementSpec)
    requires SpecOk(l) && SpecOk(r) && PartsSeparate(l, r)
    ensures AllPresent(l.selectors) && AllPresent(r.selectors)
    ensures ObviouslyOverlap(l, r) <==>
            && SameAudience(l, r)
            && multiset(PartTexts(NonRange(l.selectors))) == multiset(PartTexts(NonRange(r.selectors)))
            && RangesCompatible(l, r)
  {
    SpecPresent(l);
    SpecPresent(r);
    SortEqual(l.listenerNames, r.listenerNames);
    SortEqual(l.hostnames, r.hostnames);
    PartsByKindSeparate(l.selectors);
    PartsByKindSeparate(r.selectors);
    OtherPartsRead(l.selectors, r.selectors);
    RangePartsCompatible(l, r);
    if multiset(PartTexts(NonRange(l.selectors))) == multiset(PartTexts(NonRange(r.selectors))) {
      SignatureReads(l.selectors, r.selectors);
    }
  }

  // ----- from parts to selectors

  /** No operand has the character that separates the fields of a part. */
  predicate FieldsSeparate(sels: seq<Selector>) {
    forall s :: s in sels ==> '|' !in s.value
  }

  lemma PartInjective(s: Selector, t: Selector)
    requires SelectorOk(s) && SelectorOk(t) && !s.operator.Range? && !t.operator.Range?
    requires '|' !in s.value && '|' !in t.value && PartText(s) == PartText(t)
    ensures s == t
  {
    var ks, kt := SourceKey(s.source), SourceKey(t.source);
    AfterLastBar(ks + "|" + OperatorText(s.operator), s.value, kt + "|" + OperatorText(t.operator), t.value);
    AfterLastBar(ks, OperatorText(s.operator), kt, OperatorText(t.operator));
    SourceKeyInjective(s.source, t.source);
    assert OperatorText(s.operator)[0] == OperatorText(t.operator)[0];
  }

  /** A map that is injective on both lists tells their multisets apart. */
  lemma {:induction false} MapReflects<A, B>(f: A -> B, s: seq<A>, t: seq<A>)
    requires multiset(Map(f, s)) == multiset(Map(f, t))
    requires forall a, b :: a in s && b in t && f(a) == f(b) ==> a == b
    ensures multiset(s) == multiset(t)
    decreases |s|
  {
    assert |multiset(Map(f, s))| == |s| && |multiset(Map(f, t))| == |t|;
    if s != [] {
      var fs, ft := Map(f, s), Map(f, t);
      var k := FindFirst(fs, ft);
      var s', t' := s[1..], t[..k] + t[k + 1..];
      assert s[0] in s && t[k] in t && f(s[0]) == f(t[k]);
      assert Map(f, s') == fs[1..];
      assert Map(f, t') == ft[..k] + ft[k + 1..];
      MapReflects(f, s', t');
      RemoveAt(t, k);
      assert s == [s[0]] + s[1..];
    }
  }

  lemma PartsAreSelectors(l: PlacementSpec, r: PlacementSpec)
    requires SpecOk(l) && SpecOk(r) && FieldsSeparate(l.selectors) && FieldsSeparate(r.selectors)
    ensures multiset(PartTexts(NonRange(l.selectors))) == multiset(PartTexts(NonRange(r.selectors))) <==>
            multiset(NonRange(l.selectors)) == multiset(NonRange(r.selectors))
  {
    var a, b := NonRange(l.selectors), NonRange(r.selectors);
    if multiset(a) == multiset(b) {
      MapPermutes(PartText, a, b);
    }
    if multiset(PartTexts(a)) == multiset(PartTexts(b)) {
      forall s, t | s in a && t in b && PartText(s) == PartText(t) ensures s == t {
        PartInjective(s, t);
      }
      MapReflects(PartText, a, b);
    }
  }

  /** Flagged exactly when the two are alike in everything but their ranges, and have none or share one. */
  lemma FlaggedIff(l: PlacementSpec, r: PlacementSpec)
    requires SpecOk(l) && SpecOk(r) && PartsSeparate(l, r)
    requires FieldsSeparate(l.selectors) && FieldsSeparate(r.selectors)
    ensures AllPresent(l.selectors) && AllPresent(r.selectors)
    ensures ObviouslyOverlap(l, r) <==> Kin(l, r) && RangesCompatible(l, r)
  {
    FlaggedIffParts(l, r);
    PartsAreSelectors(l, r);
  }
}
