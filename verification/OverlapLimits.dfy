/** Where the overlap check departs from the question it stands in for. */
module OverlapLimits {
  import opened Basics
  import opened Decimal
  import opened RangeCompiler
  import opened Placements
  import opened PlacementCompiler
  import opened Overlap
  import opened JointRequests
  import opened Sorting
  import opened RegexMatch

  /** Placements whose ranges are all on different sources are never flagged. */
  lemma DifferentSourcesPass(l: PlacementSpec, r: PlacementSpec)
    requires Kin(l, r) && Readable(l, r) && Ranges(l.selectors) != []
    requires RangesBySource(l.selectors).Keys !! RangesBySource(r.selectors).Keys
    ensures AllPresent(l.selectors) && AllPresent(r.selectors) && !ObviouslyOverlap(l, r)
  {
    FlaggedIffSomeSourceMeets(l, r);
  }

  function RangeOn(header: string, start: string, end: string): Selector {
    Selector(Source(Header, header, ""), Range, "", Some(NumericRange(start, end)))
  }

  function SpecWith(sels: seq<Selector>): PlacementSpec {
    PlacementSpec("router", [], [], sels, [BackendRef("cell", None)])
  }

  lemma SmallRange(start: string, end: string)
    requires (start == "1" && end == "2") || (start == "3" && end == "4")
    ensures RangeOk(start, end) && Value(start) == (start[0] - '0') as int && Value(end) == (end[0] - '0') as int
  {
    assert start[..0] == "" && end[..0] == "";
  }

  lemma HeaderRangeOk(header: string, start: string, end: string)
    requires header == "a" || header == "b" || header == "B"
    requires (start == "1" && end == "2") || (start == "3" && end == "4")
    ensures SelectorOk(RangeOn(header, start, end))
    ensures SourceKey(RangeOn(header, start, end).source) == "Header:" + header
  {
    SmallRange(start, end);
    assert !IsTrimmed(header[0]);
  }

  lemma OneRange(header: string)
    requires header == "a" || header == "b"
    ensures var s := RangeOn(header, "1", "2");
      SpecOk(SpecWith([s])) && Ranges([s]) == [s] && NonRange([s]) == [] && SeparatorFree([s])
  {
    var s := RangeOn(header, "1", "2");
    HeaderRangeOk(header, "1", "2");
    assert !IsTrimmed("router"[0]);
    assert Ranges([s][1..]) == [] && NonRange([s][1..]) == [];
    PartsPlain(s);
  }

  lemma OneHolds(header: string)
    requires header == "a" || header == "b"
    ensures AllHold([RangeOn(header, "1", "2")], Request("", map["a" := "1", "b" := "1"], map[]))
  {
    SmallRange("1", "2");
    LowerPlain(header);
  }

  /** Two valid placements that a request can satisfy together, and that are not flagged. */
  lemma MissedOverlap()
    ensures var l, r := SpecWith([RangeOn("a", "1", "2")]), SpecWith([RangeOn("b", "1", "2")]);
      && SpecOk(l) && SpecOk(r) && AllPresent(l.selectors) && AllPresent(r.selectors) && !ObviouslyOverlap(l, r)
      && exists req :: AllHold(l.selectors, req) && AllHold(r.selectors, req)
  {
    var a, b := RangeOn("a", "1", "2"), RangeOn("b", "1", "2");
    OneRange("a");
    OneRange("b");
    SingleRangeMap(SpecWith([a]), a);
    SingleRangeMap(SpecWith([b]), b);
    assert SourceKey(a.source)[7] == 'a' && SourceKey(b.source)[7] == 'b';
    DifferentSourcesPass(SpecWith([a]), SpecWith([b]));
    OneHolds("a");
    OneHolds("b");
  }

  lemma PartsPlain(s: Selector)
    requires s == RangeOn("a", "1", "2") || s == RangeOn("b", "1", "2") || s == RangeOn("b", "3", "4")
    ensures ';' !in PartText(s)
  {
  }

  lemma LowerPlain(name: string)
    requires name == "a" || name == "b"
    ensures Lower(name) == name
  {
  }

  lemma BothRanges(a: Selector, b: Selector)
    requires a.operator.Range? && b.operator.Range?
    ensures Ranges([a, b]) == [a, b] && NonRange([a, b]) == []
  {
    var s := [a, b];
    assert s[1..] == [b] && [b][1..] == [];
    assert Ranges([b]) == [b] + Ranges([b][1..]) && NonRange([b]) == NonRange([b][1..]);
  }

  lemma PairOk(a: Selector, b: Selector)
    requires SelectorOk(a) && SelectorOk(b) && Compatible(a, b)
    ensures SpecOk(SpecWith([a, b]))
  {
    assert !IsTrimmed("router"[0]);
  }

  lemma TwoRanges(start: string, end: string)
    requires (start == "1" && end == "2") || (start == "3" && end == "4")
    ensures var sels := [RangeOn("a", "1", "2"), RangeOn("b", start, end)];
      SpecOk(SpecWith(sels)) && Ranges(sels) == sels && NonRange(sels) == [] && SeparatorFree(sels)
  {
    var a, b := RangeOn("a", "1", "2"), RangeOn("b", start, end);
    HeaderRangeOk("a", "1", "2");
    HeaderRangeOk("b", start, end);
    assert SourceKey(a.source)[7] == 'a' && SourceKey(b.source)[7] == 'b';
    PairOk(a, b);
    BothRanges(a, b);
    PartsPlain(a);
    PartsPlain(b);
  }

  lemma NeverBoth(req: Request)
    ensures !(SelectorHolds(RangeOn("b", "1", "2"), req) && SelectorHolds(RangeOn("b", "3", "4"), req))
  {
    SmallRange("1", "2");
    SmallRange("3", "4");
  }

  lemma SharedFirst(l: PlacementSpec, r: PlacementSpec, a: Selector)
    requires SpecOk(l) && SpecOk(r) && a in l.selectors && a in r.selectors && a.operator.Range?
    ensures SharedRange(RangesBySource(l.selectors), RangesBySource(r.selectors))
  {
    KeysDiffer(l);
    KeysDiffer(r);
    assert SelectorOk(a);
    RangesBySourceAt(l.selectors, a);
    RangesBySourceAt(r.selectors, a);
    var k := SourceKey(a.source);
    assert NumericRangesIntersect(RangesBySource(l.selectors)[k], RangesBySource(r.selectors)[k]);
  }

  /** Two valid placements that no request can satisfy together, and that are flagged. */
  lemma FalseAlarm(req: Request)
    ensures var l, r := SpecWith([RangeOn("a", "1", "2"), RangeOn("b", "1", "2")]),
                        SpecWith([RangeOn("a", "1", "2"), RangeOn("b", "3", "4")]);
      && SpecOk(l) && SpecOk(r) && AllPresent(l.selectors) && AllPresent(r.selectors) && ObviouslyOverlap(l, r)
      && !(AllHold(l.selectors, req) && AllHold(r.selectors, req))
  {
    var a, b, c := RangeOn("a", "1", "2"), RangeOn("b", "1", "2"), RangeOn("b", "3", "4");
    var l, r := SpecWith([a, b]), SpecWith([a, c]);
    TwoRanges("1", "2");
    TwoRanges("3", "4");
    KinCheck(l, r);
    assert l.selectors[0] == a && r.selectors[0] == a && l.selectors[1] == b && r.selectors[1] == c;
    SharedFirst(l, r, a);
    NeverBoth(req);
  }

  // ----- header names that differ in case

  lemma LowerUpper()
    ensures Lower("B") == "b" && Lower("b") == "b"
  {
  }

  lemma SameHeader(req: Request)
    ensures !(SelectorHolds(RangeOn("B", "1", "2"), req) && SelectorHolds(RangeOn("b", "3", "4"), req))
  {
    LowerUpper();
    SmallRange("1", "2");
    SmallRange("3", "4");
  }

  /** A valid placement that overlaps itself on every source, and that no request satisfies. */
  lemma CaseMatters(req: Request)
    ensures var s := SpecWith([RangeOn("B", "1", "2"), RangeOn("b", "3", "4")]);
      && Kin(s, s) && AllPresent(s.selectors) && ObviouslyOverlap(s, s)
      && AllIntersect(RangesBySource(s.selectors), RangesBySource(s.selectors)) && !AllHold(s.selectors, req)
  {
    var a, b := RangeOn("B", "1", "2"), RangeOn("b", "3", "4");
    var s := SpecWith([a, b]);
    HeaderRangeOk("B", "1", "2");
    HeaderRangeOk("b", "3", "4");
    assert SourceKey(a.source)[7] == 'B' && SourceKey(b.source)[7] == 'b';
    PairOk(a, b);
    KinReduces(s, s);
    SelfIntersects(s);
    SameHeader(req);
    assert s.selectors[0] == a && s.selectors[1] == b;
  }

  lemma SelfIntersects(s: PlacementSpec)
    requires SpecOk(s)
    ensures AllIntersect(RangesBySource(s.selectors), RangesBySource(s.selectors))
  {
    var m := RangesBySource(s.selectors);
    forall k | k in m ensures NumericRangesIntersect(m[k], m[k]) {
      var a := RangesBySourceOnly(s.selectors, k);
      assert SelectorOk(a);
      RangeMeetsItself(a);
    }
  }

  // ----- a separator inside a name

  lemma {:induction false} LessAfter(p: string, x: string, y: string)
    ensures Less(p + x, p + y) <==> Less(x, y)
  {
    if p == "" {
      assert p + x == x && p + y == y;
    } else {
      LessAfter(p[1..], x, y);
      assert (p + x)[1..] == p[1..] + x && (p + y)[1..] == p[1..] + y;
    }
  }

  lemma SortTwo(x: string, y: string)
    requires Less(x, y)
    ensures Sort([x, y]) == [x, y] && Join([x, y], ";") == x + ";" + y
  {
    LessTotal(x, y);
    assert [x, y][..1] == [x] && [x][..0] == [];
    assert Sort([x]) == Insert(x, Sort([x][..0])) == [x];
    assert [x, y][1..] == [y];
  }

  lemma SortOne(x: string)
    ensures Sort([x]) == [x] && Join([x], ";") == x
  {
    assert [x][..0] == [];
    assert Sort([x]) == Insert(x, Sort([x][..0]));
  }

  function RangeOnQuery(name: string, start: string, end: string): Selector {
    Selector(Source(QueryParam, name, ""), Range, "", Some(NumericRange(start, end)))
  }

  /** A query parameter whose name spells the rest of another signature. */
  const SPELLED_NAME := "a|Range|1|2;QueryParam:b"

  lemma Regroup(a: string, b: string, c: string, d: string)
    ensures a + b + c + d == a + (b + (c + d))
  {
  }

  lemma QueryText(name: string, start: string, end: string)
    ensures PartText(RangeOnQuery(name, start, end)) == "QueryParam:" + (name + ("|Range|" + start + "|" + end))
  {
    var tail := start + "|" + end;
    assert SourceKey(RangeOnQuery(name, start, end).source) == "QueryParam:" + name;
    assert "|Range|" + start + "|" + end == "|Range|" + tail;
    Regroup("QueryParam:", name, "|Range|", tail);
    assert "QueryParam:" + name + "|" + "Range" + "|" + start + "|" + end == "QueryParam:" + name + "|Range|" + tail;
  }

  lemma QueryOk(name: string, start: string, end: string)
    requires name == "a" || name == "b" || name == SPELLED_NAME
    requires (start == "1" && end == "2") || (start == "3" && end == "4")
    ensures SelectorOk(RangeOnQuery(name, start, end))
    ensures PartText(RangeOnQuery(name, start, end)) == "QueryParam:" + (name + ("|Range|" + start + "|" + end))
  {
    SmallRange(start, end);
    QueryText(name, start, end);
    assert !IsTrimmed(name[0]);
  }

  lemma SpelledSignature(x: string, y: string)
    requires x == "QueryParam:" + ("a" + ("|Range|" + "1" + "|" + "2"))
    requires y == "QueryParam:" + ("b" + ("|Range|" + "3" + "|" + "4"))
    ensures x + ";" + y == "QueryParam:" + (SPELLED_NAME + ("|Range|" + "3" + "|" + "4"))
    ensures Less(x, y)
  {
    LessAfter("QueryParam:", "a" + ("|Range|" + "1" + "|" + "2"), "b" + ("|Range|" + "3" + "|" + "4"));
  }

  lemma TwoQueries()
    ensures var sels := [RangeOnQuery("a", "1", "2"), RangeOnQuery("b", "3", "4")];
      && SpecOk(SpecWith(sels)) && AllPresent(sels) && Signature(sels, false) == ""
      && Signature(sels, true) == "QueryParam:" + (SPELLED_NAME + ("|Range|" + "3" + "|" + "4"))
  {
    var a, b := RangeOnQuery("a", "1", "2"), RangeOnQuery("b", "3", "4");
    var sels := [a, b];
    QueryOk("a", "1", "2");
    QueryOk("b", "3", "4");
    assert SourceKey(a.source)[11] == 'a' && SourceKey(b.source)[11] == 'b';
    PairOk(a, b);
    NoneLeft(sels);
    var x, y := PartText(a), PartText(b);
    assert PartTexts(sels) == [x, y];
    SpelledSignature(x, y);
    SortTwo(x, y);
  }

  lemma OneQuery()
    ensures var sels := [RangeOnQuery(SPELLED_NAME, "3", "4")];
      && SpecOk(SpecWith(sels)) && AllPresent(sels) && Signature(sels, false) == ""
      && Signature(sels, true) == "QueryParam:" + (SPELLED_NAME + ("|Range|" + "3" + "|" + "4"))
  {
    var c := RangeOnQuery(SPELLED_NAME, "3", "4");
    QueryOk(SPELLED_NAME, "3", "4");
    assert !IsTrimmed("router"[0]);
    NoneLeft([c]);
    assert PartTexts([c]) == [PartText(c)];
    SortOne(PartText(c));
  }

  lemma NoneLeft(sels: seq<Selector>)
    requires forall s :: s in sels ==> s.operator.Range?
    ensures NonRange(sels) == [] && PartTexts(NonRange(sels)) == [] && Join(Sort([]), ";") == ""
  {
    if NonRange(sels) != [] {
      FirstIsThere(NonRange(sels));
    }
  }

  lemma FirstIsThere(sels: seq<Selector>)
    requires sels != []
    ensures sels[0] in sels
  {
  }

  lemma SpelledApart()
    ensures SourceKey(RangeOnQuery("a", "1", "2").source) != SourceKey(RangeOnQuery(SPELLED_NAME, "3", "4").source)
    ensures SourceKey(RangeOnQuery("b", "3", "4").source) != SourceKey(RangeOnQuery(SPELLED_NAME, "3", "4").source)
  {
    var a, b, c := RangeOnQuery("a", "1", "2"), RangeOnQuery("b", "3", "4"), RangeOnQuery(SPELLED_NAME, "3", "4");
    assert |SourceKey(a.source)| == |SourceKey(b.source)| < |SourceKey(c.source)|;
  }

  /** Two valid placements on different sources that are flagged because their signatures run together. */
  lemma SignaturesRunTogether()
    ensures var l, r := SpecWith([RangeOnQuery("a", "1", "2"), RangeOnQuery("b", "3", "4")]),
                        SpecWith([RangeOnQuery(SPELLED_NAME, "3", "4")]);
      && SpecOk(l) && SpecOk(r) && AllPresent(l.selectors) && AllPresent(r.selectors) && ObviouslyOverlap(l, r)
      && forall s, t :: s in l.selectors && t in r.selectors ==> SourceKey(s.source) != SourceKey(t.source)
  {
    TwoQueries();
    OneQuery();
    SpelledApart();
  }
  /** Two selectors of different headers that have one part text. */
  const SHORT_HEADER := Selector(Source(Header, "a", ""), Exact, "b|Exact|c", None)
  const LONG_HEADER := Selector(Source(Header, "a|Exact|b", ""), Exact, "c", None)

  lemma HeaderPart(s: Selector)
    requires s == SHORT_HEADER || s == LONG_HEADER
    ensures PartText(s) == "Header:a|Exact|b|Exact|c"
  {
    if s == SHORT_HEADER {
      assert "Header" + ":" + "a" + "|" + "Exact" + "|" + "b|Exact|c" == "Header:a|Exact|b|Exact|c";
    } else {
      assert "Header" + ":" + "a|Exact|b" + "|" + "Exact" + "|" + "c" == "Header:a|Exact|b|Exact|c";
    }
  }

  lemma OneHeaderSelector(s: Selector)
    requires s == SHORT_HEADER || s == LONG_HEADER
    ensures SpecOk(SpecWith([s])) && AllPresent([s]) && NonRange([s]) == [s] && Ranges([s]) == []
    ensures PartTexts([s]) == ["Header:a|Exact|b|Exact|c"]
  {
    assert !IsTrimmed("router"[0]) && !IsTrimmed(s.source.name[0]);
    assert NonRange([s][1..]) == [] && Ranges([s][1..]) == [];
    HeaderPart(s);
  }

  /** Two valid placements that differ in the header they read and the value they want, and are flagged because
      the fields of a part run together. */
  lemma FieldsRunTogether()
    ensures var l, r := SpecWith([SHORT_HEADER]), SpecWith([LONG_HEADER]);
      && SpecOk(l) && SpecOk(r) && AllPresent(l.selectors) && AllPresent(r.selectors) && ObviouslyOverlap(l, r)
      && !Kin(l, r)
  {
    OneHeaderSelector(SHORT_HEADER);
    OneHeaderSelector(LONG_HEADER);
    assert SHORT_HEADER in multiset([SHORT_HEADER]) && SHORT_HEADER !in multiset([LONG_HEADER]);
  }
}
