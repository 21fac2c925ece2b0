/**
 The overlap check between placements: a cheap comparison of texts and numbers that stands in for
 the question whether two placements can match the same request.
 */
module Overlap {
  import opened Basics
  import opened Decimal
  import opened RegexMatch
  import opened Sorting
  import opened RangeCompiler
  import opened Placements
  import opened PlacementCompiler

  function OperatorText(o: Operator): string {
    match o
    case Exact => "Exact"
    case Prefix => "Prefix"
    case Suffix => "Suffix"
    case Range => "Range"
    case OtherOperator(text) => text
  }

  function PartText(s: Selector): string {
    if !s.operator.Range? then SourceKey(s.source) + "|" + OperatorText(s.operator) + "|" + s.value
    else if s.range.None? then ""
    else SourceKey(s.source) + "|" + OperatorText(s.operator) + "|" + s.range.value.start + "|" + s.range.value.end
  }

  function NonRange(sels: seq<Selector>): (r: seq<Selector>)
    ensures forall s :: s in r <==> s in sels && !s.operator.Range?
  {
    if sels == [] then []
    else (if sels[0].operator.Range? then [] else [sels[0]]) + NonRange(sels[1..])
  }

  function Ranges(sels: seq<Selector>): (r: seq<Selector>)
    ensures forall s :: s in r <==> s in sels && s.operator.Range?
  {
    if sels == [] then []
    else (if sels[0].operator.Range? then [sels[0]] else []) + Ranges(sels[1..])
  }

  function PartTexts(sels: seq<Selector>): seq<string> {
    Map(PartText, sels)
  }

  /** `selectorSignature`. It reads the range of every Range selector, so one must be present. */
  function Signature(sels: seq<Selector>, includeRanges: bool): string
    requires AllPresent(sels)
  {
    Join(Sort(PartTexts(if includeRanges then sels else NonRange(sels))), ";")
  }

  /** `rangeSelectorsBySource`; a later selector for the same source wins. */
  function RangesBySource(sels: seq<Selector>): map<string, NumericRange> {
    if sels == [] then map[]
    else
      var front, last := RangesBySource(sels[..|sels| - 1]), sels[|sels| - 1];
      if last.operator.Range? && last.range.Some? then front[SourceKey(last.source) := last.range.value] else front
  }

  /** Parse errors are dropped, as the code does. */
  predicate NumericRangesIntersect(l: NumericRange, r: NumericRange) {
    && ParseUintOrDefault(l.start) <= ParseUintOrDefault(r.end)
    && ParseUintOrDefault(r.start) <= ParseUintOrDefault(l.end)
  }

  predicate SharedRange(l: map<string, NumericRange>, r: map<string, NumericRange>) {
    exists k :: k in l && k in r && NumericRangesIntersect(l[k], r[k])
  }

  predicate ObviouslyOverlap(l: PlacementSpec, r: PlacementSpec)
    requires AllPresent(l.selectors) && AllPresent(r.selectors)
  {
    && Sort(l.listenerNames) == Sort(r.listenerNames)
    && Sort(l.hostnames) == Sort(r.hostnames)
    && Signature(l.selectors, false) == Signature(r.selectors, false)
    && (Signature(l.selectors, true) == Signature(r.selectors, true)
        || SharedRange(RangesBySource(l.selectors), RangesBySource(r.selectors)))
  }

  // ----- the numeric check and the compiled regexes

  /** Some value matches both anchored regexes. */
  ghost predicate CommonValue(p: string, q: string) {
    exists v :: Matches("^(?:" + p + ")$", v) && Matches("^(?:" + q + ")$", v)
  }

  /** Two valid ranges intersect numerically exactly when some value matches both compiled regexes. */
  lemma IntersectIsCommonValue(l: NumericRange, r: NumericRange)
    requires RangeOk(l.start, l.end) && RangeOk(r.start, r.end)
    ensures NumericRangeRegex(l.start, l.end).Ok? && NumericRangeRegex(r.start, r.end).Ok?
    ensures NumericRangesIntersect(l, r) <==>
            CommonValue(NumericRangeRegex(l.start, l.end).value, NumericRangeRegex(r.start, r.end).value)
  {
    RangeRegexExact(l.start, l.end, l.start);
    RangeRegexExact(r.start, r.end, r.start);
    RangeRegexExact(l.start, l.end, r.start);
    RangeRegexExact(r.start, r.end, l.start);
    if v :| Matches("^(?:" + NumericRangeRegex(l.start, l.end).value + ")$", v) &&
            Matches("^(?:" + NumericRangeRegex(r.start, r.end).value + ")$", v)
    {
      RangeRegexExact(l.start, l.end, v);
      RangeRegexExact(r.start, r.end, v);
    }
  }

  // ----- signatures

  lemma {:induction false} SplitKinds(sels: seq<Selector>)
    ensures multiset(sels) == multiset(NonRange(sels) + Ranges(sels))
  {
    if sels != [] {
      SplitKinds(sels[1..]);
      assert sels == [sels[0]] + sels[1..];
    }
  }

  /** The parts of a signature are those of the two kinds of selectors. */
  lemma PartsByKind(sels: seq<Selector>)
    ensures multiset(PartTexts(sels)) == multiset(PartTexts(NonRange(sels))) + multiset(PartTexts(Ranges(sels)))
  {
    SplitKinds(sels);
    MapPermutes(PartText, sels, NonRange(sels) + Ranges(sels));
    assert PartTexts(NonRange(sels) + Ranges(sels)) == PartTexts(NonRange(sels)) + PartTexts(Ranges(sels));
  }

  predicate SemicolonFree(parts: seq<string>) {
    forall p :: p in parts ==> ';' !in p
  }

  function SplitChar(c: char, rest: seq<string>): (r: seq<string>)
    requires rest != []
    ensures r != []
  {
    if c == ';' then [""] + rest else [[c] + rest[0]] + rest[1..]
  }

  lemma SplitConcat(c: char, a: seq<string>, b: seq<string>)
    requires a != []
    ensures SplitChar(c, a + b) == SplitChar(c, a) + b
  {
    assert (a + b)[0] == a[0] && (a + b)[1..] == a[1..] + b;
    var head := [[c] + a[0]];
    assert head + (a[1..] + b) == head + a[1..] + b;
    assert [""] + (a + b) == [""] + a + b;
  }

  /** The pieces between semicolons. */
  function Segments(s: string): (r: seq<string>)
    ensures r != []
  {
    if s == "" then [""] else SplitChar(s[0], Segments(s[1..]))
  }

  lemma {:induction false} SegmentsJoin(x: string, y: string)
    ensures Segments(x + (";" + y)) == Segments(x) + Segments(y)
  {
    var t := x + (";" + y);
    if x == "" {
      assert t == ";" + y && t[1..] == y;
    } else {
      SegmentsJoin(x[1..], y);
      assert t[0] == x[0] && t[1..] == x[1..] + (";" + y);
      SplitConcat(x[0], Segments(x[1..]), Segments(y));
    }
  }

  lemma {:induction false} SegmentsWhole(x: string)
    requires ';' !in x
    ensures Segments(x) == [x]
  {
    if x != "" {
      SegmentsWhole(x[1..]);
      assert [x[0]] + x[1..] == x;
      assert SplitChar(x[0], [x[1..]]) == [x];
    }
  }

  function CountOf(s: seq<string>, t: string): nat {
    multiset(s)[t]
  }

  /** How often a text occurs among the segments of some texts. */
  function Occurs(xs: seq<string>, t: string): nat {
    if xs == [] then 0 else CountOf(Segments(xs[0]), t) + Occurs(xs[1..], t)
  }

  lemma {:induction false} OccursJoin(xs: seq<string>, t: string)
    requires xs != []
    ensures CountOf(Segments(Join(xs, ";")), t) == Occurs(xs, t)
  {
    if |xs| == 1 {
      assert Occurs(xs[1..], t) == 0;
    } else {
      OccursJoin(xs[1..], t);
      var rest := Join(xs[1..], ";");
      SegmentsJoin(xs[0], rest);
      assert xs[0] + ";" + rest == xs[0] + (";" + rest);
    }
  }

  lemma {:induction false} OccursConcat(xs: seq<string>, ys: seq<string>, t: string)
    ensures Occurs(xs + ys, t) == Occurs(xs, t) + Occurs(ys, t)
  {
    var all := xs + ys;
    if xs == [] {
      assert all == ys;
    } else {
      assert all[0] == xs[0];
      assert all[1..] == xs[1..] + ys;
      OccursConcat(xs[1..], ys, t);
      assert Occurs(all, t) == CountOf(Segments(xs[0]), t) + Occurs(xs[1..] + ys, t);
    }
  }

  lemma OccursRemove(xs: seq<string>, k: nat, t: string)
    requires k < |xs|
    ensures Occurs(xs, t) == CountOf(Segments(xs[k]), t) + Occurs(xs[..k] + xs[k + 1..], t)
  {
    var front, tail := xs[..k], xs[k..];
    assert xs == front + tail && tail[0] == xs[k] && tail[1..] == xs[k + 1..];
    OccursConcat(front, tail, t);
    OccursConcat(front, xs[k + 1..], t);
  }

  lemma {:induction false} OccursWhole(xs: seq<string>, t: string)
    requires SemicolonFree(xs)
    ensures Occurs(xs, t) == multiset(xs)[t]
  {
    if xs != [] {
      assert xs[0] in xs && xs == [xs[0]] + xs[1..];
      OccursWhole(xs[1..], t);
      SegmentsWhole(xs[0]);
    }
  }

  lemma {:induction false} OccursPermutes(xs: seq<string>, ys: seq<string>, t: string)
    requires multiset(xs) == multiset(ys)
    ensures Occurs(xs, t) == Occurs(ys, t)
    decreases |xs|
  {
    if xs == [] {
      assert |ys| == |multiset(ys)| == 0;
    } else {
      var k := FindFirst(xs, ys);
      OccursPermutes(xs[1..], ys[..k] + ys[k + 1..], t);
      OccursRemove(ys, k, t);
    }
  }

  /** The part before the last `|`, and what comes after it, can be read back. */
  lemma AfterLastBar(x: string, d: string, y: string, e: string)
    requires '|' !in d && '|' !in e && x + "|" + d == y + "|" + e
    ensures x == y && d == e
  {
    var t := x + "|" + d;
    assert t[|x|] == '|' && t[|y|] == '|';
    assert forall i :: |x| < i < |t| ==> t[i] == d[i - |x| - 1] && t[i] != '|';
    assert forall i :: |y| < i < |t| ==> t[i] == e[i - |y| - 1] && t[i] != '|';
    assert x == t[..|x|] && y == t[..|y|];
    assert d == t[|x| + 1..] && e == t[|y| + 1..];
  }

  lemma RangePartInjective(s: Selector, t: Selector)
    requires s.operator.Range? && t.operator.Range? && s.range.Some? && t.range.Some?
    requires RangeOk(s.range.value.start, s.range.value.end) && RangeOk(t.range.value.start, t.range.value.end)
    requires PartText(s) == PartText(t)
    ensures SourceKey(s.source) == SourceKey(t.source) && s.range == t.range
  {
    var ks, kt := SourceKey(s.source) + "|" + "Range", SourceKey(t.source) + "|" + "Range";
    var a, b := s.range.value, t.range.value;
    AfterLastBar(ks + "|" + a.start, a.end, kt + "|" + b.start, b.end);
    AfterLastBar(ks, a.start, kt, b.start);
    assert SourceKey(s.source) == ks[..|ks| - 6] && SourceKey(t.source) == kt[..|kt| - 6];
  }

  // ----- what the check says about valid placements

  /** The separator of signatures occurs in no part. */
  predicate SeparatorFree(sels: seq<Selector>) {
    SemicolonFree(PartTexts(sels))
  }

  lemma SignatureOccurs(sels: seq<Selector>, t: string)
    requires AllPresent(sels) && sels != []
    ensures CountOf(Segments(Signature(sels, true)), t) ==
            Occurs(PartTexts(NonRange(sels)), t) + Occurs(PartTexts(Ranges(sels)), t)
  {
    var p, a, b := PartTexts(sels), PartTexts(NonRange(sels)), PartTexts(Ranges(sels));
    SortSorts(p);
    assert |Sort(p)| == |multiset(Sort(p))| == |multiset(p)| == |p|;
    OccursJoin(Sort(p), t);
    PartsByKind(sels);
    OccursPermutes(Sort(p), a + b, t);
    OccursConcat(a, b, t);
  }

  lemma SignatureDetermines(l: seq<Selector>, r: seq<Selector>, t: string)
    requires AllPresent(l) && AllPresent(r) && l != [] && r != [] && Signature(l, true) == Signature(r, true)
    requires multiset(PartTexts(NonRange(l))) == multiset(PartTexts(NonRange(r)))
    requires SeparatorFree(Ranges(l)) && SeparatorFree(Ranges(r))
    ensures multiset(PartTexts(Ranges(l)))[t] == multiset(PartTexts(Ranges(r)))[t]
  {
    SignatureOccurs(l, t);
    SignatureOccurs(r, t);
    OccursPermutes(PartTexts(NonRange(l)), PartTexts(NonRange(r)), t);
    OccursWhole(PartTexts(Ranges(l)), t);
    OccursWhole(PartTexts(Ranges(r)), t);
  }

  /** Two selector lists that share their non-range parts have equal signatures exactly when their range
      parts are equal as multisets, if the separator occurs in no range part. */
  lemma SignatureReads(l: seq<Selector>, r: seq<Selector>)
    requires AllPresent(l) && AllPresent(r) && l != [] && r != []
    requires multiset(PartTexts(NonRange(l))) == multiset(PartTexts(NonRange(r)))
    requires SeparatorFree(Ranges(l)) && SeparatorFree(Ranges(r))
    ensures Signature(l, true) == Signature(r, true) <==>
            multiset(PartTexts(Ranges(l))) == multiset(PartTexts(Ranges(r)))
  {
    if Signature(l, true) == Signature(r, true) {
      forall t ensures multiset(PartTexts(Ranges(l)))[t] == multiset(PartTexts(Ranges(r)))[t] {
        SignatureDetermines(l, r, t);
      }
    }
    if multiset(PartTexts(Ranges(l))) == multiset(PartTexts(Ranges(r))) {
      PartsByKind(l);
      PartsByKind(r);
      SortEqual(PartTexts(l), PartTexts(r));
    }
  }

  /** Two valid placements that agree on listeners, hostnames and everything but their ranges. */
  predicate Kin(l: PlacementSpec, r: PlacementSpec) {
    && SpecOk(l) && SpecOk(r)
    && multiset(l.listenerNames) == multiset(r.listenerNames)
    && multiset(l.hostnames) == multiset(r.hostnames)
    && multiset(NonRange(l.selectors)) == multiset(NonRange(r.selectors))
  }

  /** No range is on a source whose name has a semicolon, so signatures with several ranges can be read back. */
  predicate Readable(l: PlacementSpec, r: PlacementSpec) {
    SeparatorFree(Ranges(l.selectors)) && SeparatorFree(Ranges(r.selectors))
  }

  lemma SpecPresent(s: PlacementSpec)
    requires SpecOk(s)
    ensures AllPresent(s.selectors)
  {
  }

  /** For such a pair the check compares full signatures and shared ranges. */
  lemma KinReduces(l: PlacementSpec, r: PlacementSpec)
    requires Kin(l, r)
    ensures AllPresent(l.selectors) && AllPresent(r.selectors)
    ensures ObviouslyOverlap(l, r) <==>
            || Signature(l.selectors, true) == Signature(r.selectors, true)
            || SharedRange(RangesBySource(l.selectors), RangesBySource(r.selectors))
  {
    SpecPresent(l);
    SpecPresent(r);
    SortEqual(l.listenerNames, r.listenerNames);
    SortEqual(l.hostnames, r.hostnames);
    MapPermutes(PartText, NonRange(l.selectors), NonRange(r.selectors));
    SortEqual(PartTexts(NonRange(l.selectors)), PartTexts(NonRange(r.selectors)));
  }

  /** So it depends on the ranges alone. */
  lemma KinCheck(l: PlacementSpec, r: PlacementSpec)
    requires Kin(l, r) && Readable(l, r)
    ensures AllPresent(l.selectors) && AllPresent(r.selectors)
    ensures ObviouslyOverlap(l, r) <==>
            || multiset(PartTexts(Ranges(l.selectors))) == multiset(PartTexts(Ranges(r.selectors)))
            || SharedRange(RangesBySource(l.selectors), RangesBySource(r.selectors))
  {
    KinReduces(l, r);
    MapPermutes(PartText, NonRange(l.selectors), NonRange(r.selectors));
    SignatureReads(l.selectors, r.selectors);
  }

  lemma {:induction false} RangesBySourceAt(sels: seq<Selector>, s: Selector)
    requires (forall t :: t in sels ==> SelectorOk(t)) && s in sels && s.operator.Range?
    requires forall i, j :: 0 <= i < j < |sels| ==> SourceKey(sels[i].source) != SourceKey(sels[j].source)
    ensures s.range.Some?
    ensures SourceKey(s.source) in RangesBySource(sels) && RangesBySource(sels)[SourceKey(s.source)] == s.range.value
  {
    var n := |sels| - 1;
    if sels[n] != s {
      var k :| 0 <= k < |sels| && sels[k] == s;
      assert sels[..n][k] == s;
      RangesBySourceAt(sels[..n], s);
      assert SourceKey(sels[k].source) != SourceKey(sels[n].source);
    }
  }

  lemma {:induction false} RangesBySourceOnly(sels: seq<Selector>, k: string) returns (s: Selector)
    requires k in RangesBySource(sels)
    ensures s in sels && s.operator.Range? && SourceKey(s.source) == k && s.range == Some(RangesBySource(sels)[k])
  {
    var n := |sels| - 1;
    var last := sels[n];
    if last.operator.Range? && last.range.Some? && SourceKey(last.source) == k {
      s := last;
    } else {
      s := RangesBySourceOnly(sels[..n], k);
    }
  }

  lemma KeysDiffer(s: PlacementSpec)
    requires SpecOk(s)
    ensures forall i, j :: 0 <= i < j < |s.selectors| ==>
      SourceKey(s.selectors[i].source) != SourceKey(s.selectors[j].source)
  {
    forall i, j | 0 <= i < j < |s.selectors|
      ensures SourceKey(s.selectors[i].source) != SourceKey(s.selectors[j].source)
    {
      assert Compatible(s.selectors[i], s.selectors[j]);
    }
  }

  lemma SamePart(xs: seq<Selector>, ys: seq<Selector>) returns (y: Selector)
    requires xs != [] && multiset(PartTexts(xs)) == multiset(PartTexts(ys))
    ensures y in ys && PartText(y) == PartText(xs[0])
  {
    assert PartTexts(xs)[0] in multiset(PartTexts(ys));
    var k :| 0 <= k < |ys| && PartTexts(ys)[k] == PartTexts(xs)[0];
    y := ys[k];
  }

  /** With ranges present, equal range parts already give a shared range that intersects. */
  lemma EqualRangesShare(l: PlacementSpec, r: PlacementSpec)
    requires SpecOk(l) && SpecOk(r) && Ranges(l.selectors) != []
    requires multiset(PartTexts(Ranges(l.selectors))) == multiset(PartTexts(Ranges(r.selectors)))
    ensures SharedRange(RangesBySource(l.selectors), RangesBySource(r.selectors))
  {
    var a := Ranges(l.selectors)[0];
    assert a in Ranges(l.selectors);
    var b := SamePart(Ranges(l.selectors), Ranges(r.selectors));
    assert SelectorOk(a) && SelectorOk(b);
    RangePartInjective(a, b);
    KeysDiffer(l);
    KeysDiffer(r);
    RangesBySourceAt(l.selectors, a);
    RangesBySourceAt(r.selectors, b);
    var key := SourceKey(a.source);
    assert NumericRangesIntersect(RangesBySource(l.selectors)[key], RangesBySource(r.selectors)[key]);
  }

  lemma SameCount(xs: seq<Selector>, ys: seq<Selector>)
    requires multiset(PartTexts(xs)) == multiset(PartTexts(ys))
    ensures |xs| == |ys|
  {
    assert |multiset(PartTexts(xs))| == |PartTexts(xs)| && |multiset(PartTexts(ys))| == |PartTexts(ys)|;
  }

  /** A value that both placements' range selectors on a source accept. */
  ghost predicate Meets(l: map<string, NumericRange>, r: map<string, NumericRange>, k: string) {
    && k in l && k in r
    && NumericRangeRegex(l[k].start, l[k].end).Ok? && NumericRangeRegex(r[k].start, r[k].end).Ok?
    && CommonValue(NumericRangeRegex(l[k].start, l[k].end).value, NumericRangeRegex(r[k].start, r[k].end).value)
  }

  lemma MeetsIsIntersect(l: PlacementSpec, r: PlacementSpec, k: string)
    requires SpecOk(l) && SpecOk(r) && k in RangesBySource(l.selectors) && k in RangesBySource(r.selectors)
    ensures Meets(RangesBySource(l.selectors), RangesBySource(r.selectors), k) <==>
            NumericRangesIntersect(RangesBySource(l.selectors)[k], RangesBySource(r.selectors)[k])
  {
    var a := RangesBySourceOnly(l.selectors, k);
    var b := RangesBySourceOnly(r.selectors, k);
    assert SelectorOk(a) && SelectorOk(b);
    IntersectIsCommonValue(a.range.value, b.range.value);
  }

  /** Placements that share everything but ranges, and have some: the check flags the pair exactly when
      some source has a common value. */
  lemma FlaggedIffSomeSourceMeets(l: PlacementSpec, r: PlacementSpec)
    requires Kin(l, r) && Readable(l, r) && (Ranges(l.selectors) != [] || Ranges(r.selectors) != [])
    ensures AllPresent(l.selectors) && AllPresent(r.selectors)
    ensures ObviouslyOverlap(l, r) <==>
            exists k :: Meets(RangesBySource(l.selectors), RangesBySource(r.selectors), k)
  {
    KinCheck(l, r);
    var lm, rm := RangesBySource(l.selectors), RangesBySource(r.selectors);
    if multiset(PartTexts(Ranges(l.selectors))) == multiset(PartTexts(Ranges(r.selectors))) {
      SameCount(Ranges(l.selectors), Ranges(r.selectors));
      EqualRangesShare(l, r);
    }
    if SharedRange(lm, rm) {
      var k :| k in lm && k in rm && NumericRangesIntersect(lm[k], rm[k]);
      MeetsIsIntersect(l, r, k);
    }
    if k :| Meets(lm, rm, k) {
      MeetsIsIntersect(l, r, k);
    }
  }

  /** One range each, on the same source. */
  predicate OneRangeEach(l: PlacementSpec, r: PlacementSpec, a: Selector, b: Selector) {
    Kin(l, r) && Ranges(l.selectors) == [a] && Ranges(r.selectors) == [b] && a.source == b.source
  }

  lemma SingleRangeMap(s: PlacementSpec, a: Selector)
    requires SpecOk(s) && Ranges(s.selectors) == [a]
    ensures SelectorOk(a) && a.operator.Range?
    ensures RangesBySource(s.selectors) == map[SourceKey(a.source) := a.range.value]
  {
    assert a in Ranges(s.selectors);
    KeysDiffer(s);
    RangesBySourceAt(s.selectors, a);
    forall k | k in RangesBySource(s.selectors) ensures k == SourceKey(a.source) {
      var c := RangesBySourceOnly(s.selectors, k);
      assert c in Ranges(s.selectors);
    }
  }

  /** Text without a semicolon extends the last segment. */
  lemma {:induction false} SegmentsExtend(x: string, y: string)
    requires ';' !in y
    ensures var s := Segments(x); Segments(x + y) == s[..|s| - 1] + [s[|s| - 1] + y]
  {
    if x == "" {
      assert x + y == y;
      SegmentsWhole(y);
    } else {
      SegmentsExtend(x[1..], y);
      assert (x + y)[1..] == x[1..] + y;
      var s := Segments(x[1..]);
      SplitLast(x[0], s[..|s| - 1], s[|s| - 1], y);
      assert s == s[..|s| - 1] + [s[|s| - 1]];
    }
  }

  lemma SplitLast(c: char, front: seq<string>, last: string, y: string)
    ensures var s, t := SplitChar(c, front + [last]), SplitChar(c, front + [last + y]);
      t == s[..|s| - 1] + [s[|s| - 1] + y]
  {
    if c != ';' && front == [] {
      assert [c] + (last + y) == [c] + last + y;
    } else {
      assert (front + [last])[1..] == if front == [] then [] else front[1..] + [last];
      assert (front + [last + y])[1..] == if front == [] then [] else front[1..] + [last + y];
    }
  }

  lemma CancelOne(front: seq<string>, x: string, y: string)
    requires multiset(front + [x]) == multiset(front + [y])
    ensures x == y
  {
    assert multiset([x]) == multiset(front + [x]) - multiset(front);
    assert multiset([y]) == multiset(front + [y]) - multiset(front);
    assert x in multiset([y]);
  }

  /** Two extensions of one text with the same segments are the same. */
  lemma SameExtension(x: string, y: string, z: string)
    requires ';' !in y && ';' !in z && multiset(Segments(x + y)) == multiset(Segments(x + z))
    ensures y == z
  {
    SegmentsExtend(x, y);
    SegmentsExtend(x, z);
    var s := Segments(x);
    var last := s[|s| - 1];
    CancelOne(s[..|s| - 1], last + y, last + z);
    assert y == (last + y)[|last|..] && z == (last + z)[|last|..];
  }

  function RangeTail(s: Selector): string
    requires s.range.Some?
  {
    "|Range|" + s.range.value.start + "|" + s.range.value.end
  }

  lemma RangePartText(s: Selector)
    requires SelectorOk(s) && s.operator.Range?
    ensures PartText(s) == SourceKey(s.source) + RangeTail(s) && ';' !in RangeTail(s)
  {
    assert SourceKey(s.source) + "|" + "Range" + "|" == SourceKey(s.source) + "|Range|";
  }

  lemma SingleOccurs(x: string, t: string)
    ensures Occurs([x], t) == multiset(Segments(x))[t]
  {
    assert [x][1..] == [];
  }

  lemma SingleOccurrences(sels: seq<Selector>, a: Selector, t: string)
    requires AllPresent(sels) && sels != [] && Ranges(sels) == [a]
    ensures CountOf(Segments(Signature(sels, true)), t) ==
            Occurs(PartTexts(NonRange(sels)), t) + multiset(Segments(PartText(a)))[t]
  {
    SignatureOccurs(sels, t);
    assert PartTexts([a]) == [PartText(a)];
    SingleOccurs(PartText(a), t);
  }

  lemma SingleSegments(l: seq<Selector>, r: seq<Selector>, a: Selector, b: Selector, t: string)
    requires AllPresent(l) && AllPresent(r) && l != [] && r != [] && Ranges(l) == [a] && Ranges(r) == [b]
    requires multiset(PartTexts(NonRange(l))) == multiset(PartTexts(NonRange(r)))
    requires Signature(l, true) == Signature(r, true)
    ensures multiset(Segments(PartText(a)))[t] == multiset(Segments(PartText(b)))[t]
  {
    SingleOccurrences(l, a, t);
    SingleOccurrences(r, b, t);
    OccursPermutes(PartTexts(NonRange(l)), PartTexts(NonRange(r)), t);
  }

  /** Equal signatures force equal ranges, whatever the names contain. */
  lemma SingleRangeReads(l: seq<Selector>, r: seq<Selector>, a: Selector, b: Selector)
    requires AllPresent(l) && AllPresent(r) && l != [] && r != [] && Ranges(l) == [a] && Ranges(r) == [b]
    requires multiset(NonRange(l)) == multiset(NonRange(r)) && Signature(l, true) == Signature(r, true)
    requires SelectorOk(a) && SelectorOk(b) && a.operator.Range? && b.operator.Range? && a.source == b.source
    ensures a.range == b.range
  {
    MapPermutes(PartText, NonRange(l), NonRange(r));
    forall t ensures multiset(Segments(PartText(a)))[t] == multiset(Segments(PartText(b)))[t] {
      SingleSegments(l, r, a, b, t);
    }
    RangePartText(a);
    RangePartText(b);
    SameExtension(SourceKey(a.source), RangeTail(a), RangeTail(b));
    RangePartInjective(a, b);
  }

  lemma RangeMeetsItself(a: Selector)
    requires SelectorOk(a) && a.operator.Range?
    ensures NumericRangesIntersect(a.range.value, a.range.value)
  {
  }

  /** With one range each on one source, the check decides whether the intervals intersect. */
  lemma FlaggedIffIntersect(l: PlacementSpec, r: PlacementSpec, a: Selector, b: Selector)
    requires OneRangeEach(l, r, a, b)
    ensures AllPresent(l.selectors) && AllPresent(r.selectors)
    ensures SelectorOk(a) && SelectorOk(b) && a.operator.Range? && b.operator.Range?
    ensures ObviouslyOverlap(l, r) <==> NumericRangesIntersect(a.range.value, b.range.value)
  {
    KinReduces(l, r);
    SingleRangeMap(l, a);
    SingleRangeMap(r, b);
    SingleSignature(l.selectors, r.selectors, a, b);
    OneSourceShared(SourceKey(a.source), a.range.value, b.range.value);
  }

  lemma SingleSignature(l: seq<Selector>, r: seq<Selector>, a: Selector, b: Selector)
    requires AllPresent(l) && AllPresent(r) && l != [] && r != [] && Ranges(l) == [a] && Ranges(r) == [b]
    requires multiset(NonRange(l)) == multiset(NonRange(r))
    requires SelectorOk(a) && SelectorOk(b) && a.operator.Range? && b.operator.Range? && a.source == b.source
    ensures Signature(l, true) == Signature(r, true) ==> NumericRangesIntersect(a.range.value, b.range.value)
  {
    if Signature(l, true) == Signature(r, true) {
      SingleRangeReads(l, r, a, b);
      RangeMeetsItself(a);
    }
  }

  lemma OneSourceShared(key: string, x: NumericRange, y: NumericRange)
    ensures SharedRange(map[key := x], map[key := y]) <==> NumericRangesIntersect(x, y)
  {
    if NumericRangesIntersect(x, y) {
      assert key in map[key := x];
    }
  }

  lemma RangeBody(a: Selector)
    requires SelectorOk(a) && a.operator.Range?
    ensures Compilable(a) && RangeOk(a.range.value.start, a.range.value.end)
    ensures SelectorRegexBody(a) == NumericRangeRegex(a.range.value.start, a.range.value.end)
  {
  }

  /** Flagged exactly when some string matches both compiled range regexes. */
  lemma FlaggedIffCommonValue(l: PlacementSpec, r: PlacementSpec, a: Selector, b: Selector)
    requires OneRangeEach(l, r, a, b)
    ensures AllPresent(l.selectors) && AllPresent(r.selectors) && Compilable(a) && Compilable(b)
    ensures SelectorRegexBody(a).Ok? && SelectorRegexBody(b).Ok?
    ensures ObviouslyOverlap(l, r) <==> CommonValue(SelectorRegexBody(a).value, SelectorRegexBody(b).value)
  {
    FlaggedIffIntersect(l, r, a, b);
    RangeBody(a);
    RangeBody(b);
    IntersectIsCommonValue(a.range.value, b.range.value);
  }
}
