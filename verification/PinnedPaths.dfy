/**
 Exclusivity of planned placements on a path capture. The path regex is searched for, so disjoint
 ranges alone do not keep two rules apart; they do once the regex pins the capture to one place.
 */
module PinnedPaths {
  import opened Basics
  import opened Decimal
  import opened RegexSyntax
  import opened RegexMatch
  import opened CaptureScanner
  import opened PathCompiler
  import opened RangeCompiler
  import opened Placements
  import opened PlacementCompiler
  import opened Overlap
  import opened RoutePlans

  // ----- pinned captures

  /** An atom that reads a fixed number of characters. */
  predicate Fixed(a: Atom, q: Quant) {
    OneChar(a) && (q.Once? || q.Times?)
  }

  function WidthOf(q: Quant): nat {
    if q.Times? then q.n else 1
  }

  /** What follows begins with the end of the path or with a character that is no digit. */
  predicate StopsDigits(b: Body) {
    && b.Then? && b.quant.Once?
    && (b.atom.Eol? || ((b.atom.Lit? || (b.atom.Esc? && !IsPerl(b.atom.c))) && !IsDigit(b.atom.c)))
  }

  /** Atoms of fixed width, then the capture, then a stop. */
  predicate Tracked(b: Body, name: string) {
    match b
    case Then(a, q, rest) =>
      if a.Group? then a.head == Named(name) && q.Once? && StopsDigits(rest) else Fixed(a, q) && Tracked(rest, name)
    case _ => false
  }

  /** The regex is anchored, has no alternative at its top, and reaches the capture at a fixed offset. */
  predicate Pinned(b: Body, name: string) {
    b.Then? && b.atom.Bol? && b.quant.Once? && Tracked(b.rest, name) && OrFree(b)
  }

  function Offset(b: Body, name: string): nat
    requires Tracked(b, name)
  {
    if b.atom.Group? then 0 else WidthOf(b.quant) + Offset(b.rest, name)
  }

  predicate EndsDigits(s: string, k: nat) {
    k >= |s| || !IsDigit(s[k])
  }

  lemma FixedMatch(a: Atom, q: Quant, s: string, i: nat, k: nat)
    requires Fixed(a, q) && i <= k <= |s| && MatchQuant(a, q, NO_CAPS, s, i, k)
    ensures k == i + WidthOf(q)
  {
    if q.Times? {
      TimesOfChar(a, q.n, s, i, k);
    }
  }

  lemma SubstThen(b: Body, m: map<string, Body>)
    requires b.Then?
    ensures SubstAll(b, m) == Then(SubstAllAtom(b.atom, m), b.quant, SubstAll(b.rest, m))
    ensures !b.atom.Group? ==> SubstAllAtom(b.atom, m) == b.atom
    ensures b.atom.Group? && b.atom.head.Named? && b.atom.head.name in m ==>
      SubstAllAtom(b.atom, m) == Group(b.atom.head, m[b.atom.head.name])
  {
  }

  lemma StopMatch(b: Body, m: map<string, Body>, s: string, i: nat, j: nat)
    requires StopsDigits(b) && i <= j <= |s| && MatchBranch(SubstAll(b, m), NO_CAPS, s, i, j)
    ensures EndsDigits(s, i)
  {
    var c := SubstAll(b, m);
    SubstThen(b, m);
    var k: nat :| Cut(i, k, j) && MatchQuant(c.atom, c.quant, NO_CAPS, s, i, k);
    assert MatchAtom(b.atom, NO_CAPS, s, i, k);
  }

  lemma GroupMatch(h: Head, body: Body, s: string, i: nat, k: nat)
    requires i <= k <= |s| && MatchQuant(Group(h, body), Once, NO_CAPS, s, i, k)
    ensures MatchBody(body, NO_CAPS, s, i, k)
  {
    assert MatchAtom(Group(h, body), NO_CAPS, s, i, k);
  }

  /** Where a branch that tracks the capture reads it. */
  lemma {:induction false} TrackedMatch(b: Body, m: map<string, Body>, name: string, s: string, i: nat, j: nat)
    returns (k: nat)
    requires Tracked(b, name) && name in m && i <= j <= |s| && MatchBranch(SubstAll(b, m), NO_CAPS, s, i, j)
    ensures i + Offset(b, name) <= k <= |s| && EndsDigits(s, k)
    ensures MatchBody(m[name], NO_CAPS, s, i + Offset(b, name), k)
  {
    var c := SubstAll(b, m);
    SubstThen(b, m);
    var cut: nat :| Cut(i, cut, j) && MatchQuant(c.atom, c.quant, NO_CAPS, s, i, cut) &&
      MatchBranch(c.rest, NO_CAPS, s, cut, j);
    if b.atom.Group? {
      GroupMatch(b.atom.head, m[name], s, i, cut);
      StopMatch(b.rest, m, s, cut, j);
      k := cut;
    } else {
      FixedMatch(b.atom, b.quant, s, i, cut);
      k := TrackedMatch(b.rest, m, name, s, cut, j);
    }
  }

  lemma PinnedMatch(b: Body, m: map<string, Body>, name: string, s: string) returns (k: nat)
    requires Pinned(b, name) && name in m && Found(SubstAll(b, m), NO_CAPS, s)
    ensures Offset(b.rest, name) <= k <= |s| && EndsDigits(s, k)
    ensures MatchBody(m[name], NO_CAPS, s, Offset(b.rest, name), k)
  {
    var c := SubstAll(b, m);
    SubstAfterOr(b, m);
    SubstThen(b, m);
    var i: nat, j: nat :| i <= j <= |s| && MatchBody(c, NO_CAPS, s, i, j);
    assert MatchBranch(c, NO_CAPS, s, i, j);
    var cut: nat :| Cut(i, cut, j) && MatchQuant(c.atom, c.quant, NO_CAPS, s, i, cut) &&
      MatchBranch(c.rest, NO_CAPS, s, cut, j);
    assert c.atom == Bol && cut == 0;
    k := TrackedMatch(b.rest, m, name, s, 0, j);
  }

  // ----- what a rule on a pinned capture reads

  /** The path regex compiled from a placement, as a tree. */
  lemma CompiledPathTree(sels: seq<Selector>) returns (m: map<string, Body>)
    requires SelectorsOk(sels) && PathShape(sels) && OfKind(sels, PathCapture) != []
    ensures AllReady(OfKind(sels, PathCapture))
    ensures var ss := OfKind(sels, PathCapture);
      && Parse(ss[0].source.pathRegex).Some?
      && CompilePathRegex(sels).Ok? && CompilePathRegex(sels).value != ""
      && (forall s :: s in ss ==> s.source.name in m && m[s.source.name] == Parse(PartOf(s).text).value)
      && forall v: string :: Matches(CompilePathRegex(sels).value, v) <==>
           Found(SubstAll(Parse(ss[0].source.pathRegex).value, m), NO_CAPS, v)
  {
    var ss := OfKind(sels, PathCapture);
    PathReady(sels);
    PathPartsOk(sels);
    PartsParse(ss);
    var pattern := ss[0].source.pathRegex;
    var b := Parse(pattern).value;
    ParseSound(pattern);
    CapturesAsParts(pattern, ss);
    CompilePathIsSubstAll(b, Parts(ss));
    CapturesNonempty(pattern, ss);
    m := PartBodies(Parts(ss));
    PartBodiesInsertable(Parts(ss));
    SubstAllKeeps(b, m);
    RoundTrip(SubstAll(b, m));
    forall s | s in ss ensures s.source.name in m && m[s.source.name] == Parse(PartOf(s).text).value {
      var i :| 0 <= i < |ss| && ss[i] == s;
      assert Parts(ss)[i] in Parts(ss);
      PartBodiesAt(Parts(ss), Parts(ss)[i]);
    }
  }

  lemma OnePathRegex(sels: seq<Selector>, s: Selector)
    requires SelectorsOk(sels) && s in sels && s.source.kind.PathCapture?
    ensures var ss := OfKind(sels, PathCapture); ss != [] && s in ss && ss[0].source.pathRegex == s.source.pathRegex
  {
    var ss := OfKind(sels, PathCapture);
    assert s in ss && ss[0] in ss && ss[0] in sels;
    var i :| 0 <= i < |sels| && sels[i] == s;
    var j :| 0 <= j < |sels| && sels[j] == ss[0];
    assert i < j ==> Compatible(sels[i], sels[j]);
    assert j < i ==> Compatible(sels[j], sels[i]);
  }

  lemma RoutedPath(p: Placement, req: Request)
    requires Compiles(p) && Routes(p, req) && CompilePathRegex(p.spec.selectors).Ok?
    requires CompilePathRegex(p.spec.selectors).value != ""
    ensures Matches(CompilePathRegex(p.spec.selectors).value, req.path)
  {
    NeverCatchAll(p);
    OneRule(BuildMatches(CompiledSpec(p).value)[0], req);
  }

  predicate PinnedSelector(s: Selector) {
    && s.source.kind.PathCapture? && s.operator.Range?
    && Parse(s.source.pathRegex).Some? && Pinned(Parse(s.source.pathRegex).value, s.source.name)
  }

  function Start(s: Selector): nat
    requires PinnedSelector(s)
  {
    Offset(Parse(s.source.pathRegex).value.rest, s.source.name)
  }

  /** A rule that applies has read, at the capture's offset, a number in the range up to where digits end. */
  lemma PathRange(p: Placement, a: Selector, req: Request) returns (k: nat)
    requires Compiles(p) && PathShape(p.spec.selectors) && a in p.spec.selectors && PinnedSelector(a) && Routes(p, req)
    ensures Start(a) <= k <= |req.path| && EndsDigits(req.path, k) && Holds(a, req.path[Start(a)..k])
  {
    var sels := p.spec.selectors;
    OnePathRegex(sels, a);
    var m := CompiledPathTree(sels);
    RoutedPath(p, req);
    var b := Parse(a.source.pathRegex).value;
    k := PinnedMatch(b, m, a.source.name, req.path);
    SelectorCompilable(a);
    RangeReads(a, req.path, Start(a), k);
  }

  lemma RangeReads(a: Selector, s: string, i: nat, k: nat)
    requires Ready(a) && a.operator.Range? && i <= k <= |s| && MatchBody(Parse(PartOf(a).text).value, NO_CAPS, s, i, k)
    ensures Holds(a, s[i..k])
  {
    SelectorBodyLang(a, s, i, k);
  }

  lemma SameEnd(s: string, i: nat, j: nat, k: nat)
    requires i <= j <= |s| && i <= k <= |s| && AllDigits(s[i..j]) && AllDigits(s[i..k])
    requires EndsDigits(s, j) && EndsDigits(s, k)
    ensures j == k
  {
    assert forall n :: i <= n < j ==> s[n] == s[i..j][n - i] && IsDigit(s[n]);
    assert forall n :: i <= n < k ==> s[n] == s[i..k][n - i] && IsDigit(s[n]);
  }

  lemma HeldIsDigits(a: Selector, v: string)
    requires a.operator.Range? && Holds(a, v)
    ensures AllDigits(v)
  {
  }

  lemma BothHold(a: Selector, b: Selector, v: string)
    requires a.operator.Range? && b.operator.Range? && Holds(a, v) && Holds(b, v)
    ensures NumericRangesIntersect(a.range.value, b.range.value)
  {
  }

  lemma PathsMeet(p: Placement, q: Placement, a: Selector, b: Selector, req: Request)
    requires Compiles(p) && PathShape(p.spec.selectors) && a in p.spec.selectors && PinnedSelector(a) && Routes(p, req)
    requires Compiles(q) && PathShape(q.spec.selectors) && b in q.spec.selectors && PinnedSelector(b) && Routes(q, req)
    requires a.source == b.source
    ensures a.range.Some? && b.range.Some? && NumericRangesIntersect(a.range.value, b.range.value)
  {
    var j := PathRange(p, a, req);
    var k := PathRange(q, b, req);
    HeldIsDigits(a, req.path[Start(a)..j]);
    HeldIsDigits(b, req.path[Start(a)..k]);
    SameEnd(req.path, Start(a), j, k);
    BothHold(a, b, req.path[Start(a)..j]);
  }

  /** No request is matched by the rules of two planned placements that differ only in their range on a
      path capture, if the path regex pins that capture. */
  lemma PinnedPlacementsExclusive(ps: seq<Placement>, k: nat, m: nat, a: Selector, b: Selector, req: Request)
    requires k < |ps| && m < |ps| && k != m && PlannedAt(ps, k) && PlannedAt(ps, m)
    requires OneRangeEach(ps[k].spec, ps[m].spec, a, b) && PinnedSelector(a)
    requires PathShape(ps[k].spec.selectors) && PathShape(ps[m].spec.selectors)
    ensures !(Routes(ps[k], req) && Routes(ps[m], req))
  {
    FlaggedIffIntersect(ps[k].spec, ps[m].spec, a, b);
    assert !Flagged(ps, k, m);
    assert a in Ranges(ps[k].spec.selectors) && b in Ranges(ps[m].spec.selectors);
    if Routes(ps[k], req) && Routes(ps[m], req) {
      PathsMeet(ps[k], ps[m], a, b, req);
    }
  }

  // ----- without the pin

  /** The tree of `/(?P<i>x)`. */
  const SEARCHED: Body := Then(Lit('/'), Once, Then(Group(Named("i"), Then(Lit('x'), Once, Done)), Once, Done))

  const SEARCHED_TEXT := "/(?P<i>x)"

  lemma SearchedText()
    ensures BodyOk(SEARCHED) && Print(SEARCHED) == SEARCHED_TEXT && Parse(SEARCHED_TEXT) == Some(SEARCHED)
  {
    var last := SEARCHED.rest;
    assert Print(last.atom.body) == "x";
    assert PrintAtom(last.atom) == "(?P<i>x)";
    assert Print(last) == "(?P<i>x)";
    RoundTrip(SEARCHED);
  }

  function SegmentIn(start: string, end: string): Selector {
    Selector(Source(PathCapture, "i", SEARCHED_TEXT), Range, "", Some(NumericRange(start, end)))
  }

  function SegmentPlacement(name: string, start: string, end: string): Placement {
    Placement(name, PlacementSpec("router", [], [], [SegmentIn(start, end)], [BackendRef("cell", None)]))
  }

  predicate Sample(start: string, end: string) {
    (start == "1" && end == "2") || (start == "5" && end == "6")
  }

  lemma SampleRange(start: string, end: string)
    requires Sample(start, end)
    ensures RangeOk(start, end) && Value(start) == (start[0] - '0') as int && Value(end) == (end[0] - '0') as int
  {
    assert start[..0] == "" && end[..0] == "";
  }

  lemma SearchedGroups()
    ensures GroupsOnce(SEARCHED) && "i" in Groups(SEARCHED)
    ensures OnceEach(SEARCHED) && Plain(SEARCHED) && "i" in Captures(SEARCHED)
  {
    assert Groups(SEARCHED.rest.atom.body) == {} && Captures(SEARCHED.rest.atom.body) == {};
  }

  lemma SegmentOk(start: string, end: string)
    requires Sample(start, end)
    ensures SelectorOk(SegmentIn(start, end))
  {
    SearchedText();
    SearchedGroups();
    SampleRange(start, end);
    assert !IsTrimmed("i"[0]) && !IsTrimmed(SEARCHED_TEXT[0]);
  }

  lemma OneOf(s: Selector)
    requires s.source.kind.PathCapture? && s.operator.Range?
    ensures OfKind([s], PathCapture) == [s] && OfKind([s], Header) == [] && OfKind([s], QueryParam) == []
    ensures Ranges([s]) == [s] && NonRange([s]) == []
  {
    var ss := [s];
    assert ss[1..] == [];
    assert Ranges(ss) == ss + Ranges(ss[1..]) && NonRange(ss) == NonRange(ss[1..]);
    assert OfKind(ss, PathCapture) == ss + OfKind(ss[1..], PathCapture);
  }

  lemma SegmentShape(start: string, end: string)
    ensures PathShape([SegmentIn(start, end)])
  {
    var ss := [SegmentIn(start, end)];
    OneOf(ss[0]);
    SearchedText();
    SearchedGroups();
    PlainReachable(SEARCHED, "i");
    OnceApart(SEARCHED, "i");
    assert SelectedNames(ss) == {"i"};
  }

  lemma SegmentSpec(name: string, start: string, end: string)
    requires Sample(start, end)
    ensures var p := SegmentPlacement(name, start, end); SpecOk(p.spec) && HeadersApart(p.spec.selectors)
  {
    SegmentOk(start, end);
    assert !IsTrimmed("router"[0]);
  }

  /** The regex is found where a slash is followed by a digit in the range. */
  lemma SegmentFound(start: string, end: string, path: string, at: nat)
    requires Sample(start, end) && at + 1 < |path| && path[at] == '/' && path[at + 1..at + 2] == start
    ensures Found(SEARCHED, PathCaps([SegmentIn(start, end)]), path)
  {
    var s := SegmentIn(start, end);
    var caps := PathCaps([s]);
    assert [s][..0] == [];
    SampleRange(start, end);
    assert Holds(s, start) && "i" in caps && caps["i"](start);
    var i, k, j := at, at + 1, at + 2;
    assert MatchAtom(SEARCHED.rest.atom, caps, path, k, j);
    assert Cut(k, j, j) && MatchBranch(SEARCHED.rest, caps, path, k, j);
    assert Cut(i, k, j) && MatchAtom(SEARCHED.atom, caps, path, i, k);
    assert MatchBranch(SEARCHED, caps, path, i, j);
    assert MatchBody(SEARCHED, caps, path, i, j);
  }

  lemma SegmentRoutes(name: string, start: string, end: string, path: string, at: nat)
    requires Sample(start, end) && at + 1 < |path| && path[at] == '/' && path[at + 1..at + 2] == start
    requires NewlineFree(path)
    ensures var p := SegmentPlacement(name, start, end); Compiles(p) && Routes(p, Request(path, map[], map[]))
  {
    var p, req := SegmentPlacement(name, start, end), Request(path, map[], map[]);
    SegmentSpec(name, start, end);
    SegmentShape(start, end);
    OneOf(SegmentIn(start, end));
    SearchedText();
    SegmentFound(start, end, path, at);
    CompilationPreservesMeaning(p, req);
  }

  lemma SegmentsKin(p: Placement, q: Placement, a: Selector, b: Selector)
    requires p == SegmentPlacement("p", "1", "2") && q == SegmentPlacement("q", "5", "6")
    requires a == SegmentIn("1", "2") && b == SegmentIn("5", "6")
    ensures OneRangeEach(p.spec, q.spec, a, b) && OneRangeEach(q.spec, p.spec, b, a)
  {
    SegmentSpec("p", "1", "2");
    SegmentSpec("q", "5", "6");
    OneOf(a);
    OneOf(b);
  }

  lemma SegmentsApart(p: Placement, q: Placement, a: Selector, b: Selector)
    requires p == SegmentPlacement("p", "1", "2") && q == SegmentPlacement("q", "5", "6")
    requires a == SegmentIn("1", "2") && b == SegmentIn("5", "6")
    requires OneRangeEach(p.spec, q.spec, a, b) && OneRangeEach(q.spec, p.spec, b, a)
    ensures !Flagged([p, q], 0, 1) && !Flagged([p, q], 1, 0)
  {
    SampleRange("1", "2");
    SampleRange("5", "6");
    FlaggedIffIntersect(p.spec, q.spec, a, b);
    FlaggedIffIntersect(q.spec, p.spec, b, a);
  }

  lemma PairPlanned(p: Placement, q: Placement)
    requires Compiles(p) && Compiles(q) && !Flagged([p, q], 0, 1) && !Flagged([p, q], 1, 0)
    ensures PlannedAt([p, q], 0) && PlannedAt([p, q], 1)
  {
  }

  lemma SegmentsUnflagged(p: Placement, q: Placement)
    requires p == SegmentPlacement("p", "1", "2") && q == SegmentPlacement("q", "5", "6")
    ensures !Flagged([p, q], 0, 1) && !Flagged([p, q], 1, 0)
  {
    SegmentsKin(p, q, SegmentIn("1", "2"), SegmentIn("5", "6"));
    SegmentsApart(p, q, SegmentIn("1", "2"), SegmentIn("5", "6"));
  }

  lemma SegmentsBothRoute(p: Placement, q: Placement, req: Request)
    requires p == SegmentPlacement("p", "1", "2") && q == SegmentPlacement("q", "5", "6")
    requires req == Request("/1/5", map[], map[])
    ensures Compiles(p) && Compiles(q) && Routes(p, req) && Routes(q, req)
  {
    assert req.path[1..2] == "1" && req.path[3..4] == "5";
    SegmentRoutes("p", "1", "2", req.path, 0);
    SegmentRoutes("q", "5", "6", req.path, 2);
  }

  /** Two planned placements with disjoint ranges on a path capture that is not pinned, and a request both
      of their rules match: `/(?P<i>x)` with 1 to 2 and 5 to 6, on the path `/1/5`. */
  lemma SearchedNotExclusive(p: Placement, q: Placement, req: Request)
    requires p == SegmentPlacement("p", "1", "2") && q == SegmentPlacement("q", "5", "6")
    requires req == Request("/1/5", map[], map[])
    ensures PlannedAt([p, q], 0) && PlannedAt([p, q], 1)
    ensures Compiles(p) && Compiles(q) && Routes(p, req) && Routes(q, req)
  {
    SegmentsBothRoute(p, q, req);
    SegmentsUnflagged(p, q);
    PairPlanned(p, q);
  }
}
