/**
 What the overlap check should decide: whether some request satisfies both placements. Here are the
 exact condition for that, and the exact condition under which the check agrees with it.
 */
module JointRequests {
  import opened Basics
  import opened Decimal
  import opened RangeCompiler
  import opened Placements
  import opened PlacementCompiler
  import opened Overlap

  ghost predicate AllHold(sels: seq<Selector>, req: Request) {
    forall s :: s in sels ==> SelectorHolds(s, req)
  }

  ghost predicate Joint(l: PlacementSpec, r: PlacementSpec) {
    exists req :: AllHold(l.selectors, req) && AllHold(r.selectors, req)
  }

  predicate NoPaths(sels: seq<Selector>) {
    forall s :: s in sels ==> s.source.kind.Header? || s.source.kind.QueryParam?
  }

  /** Header names are the same or differ by more than case. */
  predicate CaseApart(sels: seq<Selector>) {
    forall s, t :: s in sels && t in sels && OnHeader(s, Lower(t.source.name)) && t.source.kind.Header? ==>
      s.source.name == t.source.name
  }

  /** The selector reads the header of that lower-case name. */
  predicate OnHeader(s: Selector, n: string) {
    s.source.kind.Header? && Lower(s.source.name) == n
  }

  /** Placements this question is asked about. */
  predicate Comparable(l: PlacementSpec, r: PlacementSpec) {
    Kin(l, r) && NoPaths(l.selectors + r.selectors) && CaseApart(l.selectors + r.selectors)
  }

  // ----- sources

  lemma SameSource(s: Source, t: Source)
    requires s.kind.Header? || s.kind.QueryParam?
    requires t.kind.Header? || t.kind.QueryParam?
    requires SourceKey(s) == SourceKey(t)
    ensures s.kind == t.kind && s.name == t.name
  {
    var k := SourceKey(s);
    assert s.kind.Header? ==> k[0] == 'H' && s.name == k[7..];
    assert s.kind.QueryParam? ==> k[0] == 'Q' && s.name == k[11..];
    assert t.kind.Header? ==> k[0] == 'H' && t.name == k[7..];
    assert t.kind.QueryParam? ==> k[0] == 'Q' && t.name == k[11..];
  }

  // ----- a common request needs common values

  lemma SharedValue(a: Selector, b: Selector, req: Request)
    requires a.operator.Range? && b.operator.Range? && SourceKey(a.source) == SourceKey(b.source)
    requires (a.source.kind.Header? || a.source.kind.QueryParam?)
    requires (b.source.kind.Header? || b.source.kind.QueryParam?)
    requires SelectorHolds(a, req) && SelectorHolds(b, req)
    ensures a.range.Some? && b.range.Some? && NumericRangesIntersect(a.range.value, b.range.value)
  {
    SameSource(a.source, b.source);
  }

  lemma NeedsAll(l: PlacementSpec, r: PlacementSpec, req: Request, k: string)
    requires Comparable(l, r) && AllHold(l.selectors, req) && AllHold(r.selectors, req)
    requires k in RangesBySource(l.selectors) && k in RangesBySource(r.selectors)
    ensures NumericRangesIntersect(RangesBySource(l.selectors)[k], RangesBySource(r.selectors)[k])
  {
    var a := RangesBySourceOnly(l.selectors, k);
    var b := RangesBySourceOnly(r.selectors, k);
    assert a in l.selectors + r.selectors && b in l.selectors + r.selectors;
    SharedValue(a, b, req);
  }

  // ----- and common values give a common request

  /** A value for a source that satisfies what either placement asks of it. */
  ghost function Choice(l: PlacementSpec, r: PlacementSpec, key: string): string {
    var lm, rm := RangesBySource(l.selectors), RangesBySource(r.selectors);
    if exists s :: s in NonRange(l.selectors) && SourceKey(s.source) == key then
      var s :| s in NonRange(l.selectors) && SourceKey(s.source) == key; s.value
    else if key in lm && key in rm && AllDigits(lm[key].start) && AllDigits(rm[key].start) then
      if Value(lm[key].start) <= Value(rm[key].start) then rm[key].start else lm[key].start
    else if key in lm then lm[key].start
    else if key in rm then rm[key].start
    else ""
  }

  predicate AllIntersect(lm: map<string, NumericRange>, rm: map<string, NumericRange>) {
    forall k :: k in lm && k in rm ==> NumericRangesIntersect(lm[k], rm[k])
  }

  lemma OneSelector(sels: seq<Selector>, s: Selector, t: Selector)
    requires SelectorsOk(sels) && s in sels && t in sels && SourceKey(s.source) == SourceKey(t.source)
    ensures s == t
  {
    var i :| 0 <= i < |sels| && sels[i] == s;
    var j :| 0 <= j < |sels| && sels[j] == t;
    assert i < j ==> Compatible(sels[i], sels[j]);
    assert j < i ==> Compatible(sels[j], sels[i]);
  }

  lemma SharedNonRange(l: PlacementSpec, r: PlacementSpec, s: Selector)
    requires Kin(l, r)
    ensures s in NonRange(l.selectors) <==> s in NonRange(r.selectors)
  {
    assert s in NonRange(l.selectors) <==> s in multiset(NonRange(l.selectors));
    assert s in NonRange(r.selectors) <==> s in multiset(NonRange(r.selectors));
  }

  lemma OwnValueHolds(s: Selector)
    requires SelectorOk(s) && !s.operator.Range?
    ensures Holds(s, s.value)
  {
  }

  lemma ChoiceOfNonRange(l: PlacementSpec, r: PlacementSpec, s: Selector)
    requires Kin(l, r) && s in NonRange(l.selectors)
    ensures Choice(l, r, SourceKey(s.source)) == s.value
  {
    var key := SourceKey(s.source);
    var t :| t in NonRange(l.selectors) && SourceKey(t.source) == key && Choice(l, r, key) == t.value;
    OneSelector(l.selectors, s, t);
  }

  lemma NoneOnRangeSource(l: PlacementSpec, r: PlacementSpec, s: Selector)
    requires Kin(l, r) && s.operator.Range? && (s in l.selectors || s in r.selectors)
    ensures !exists t :: t in NonRange(l.selectors) && SourceKey(t.source) == SourceKey(s.source)
  {
    forall t | t in NonRange(l.selectors) ensures SourceKey(t.source) != SourceKey(s.source) {
      SharedNonRange(l, r, t);
      if SourceKey(t.source) == SourceKey(s.source) {
        OneSelector(if s in l.selectors then l.selectors else r.selectors, s, t);
      }
    }
  }

  /** The larger lower bound lies in both intervals. */
  lemma LargerStart(x: NumericRange, y: NumericRange)
    requires RangeOk(x.start, x.end) && RangeOk(y.start, y.end) && NumericRangesIntersect(x, y)
    ensures var v := if Value(x.start) <= Value(y.start) then y.start else x.start;
      InInterval(v, x.start, x.end) && InInterval(v, y.start, y.end)
  {
  }

  lemma ChoiceInRange(l: PlacementSpec, r: PlacementSpec, key: string)
    requires Kin(l, r) && AllIntersect(RangesBySource(l.selectors), RangesBySource(r.selectors))
    requires !exists t :: t in NonRange(l.selectors) && SourceKey(t.source) == key
    ensures var lm := RangesBySource(l.selectors);
      key in lm ==> RangeOk(lm[key].start, lm[key].end) && InInterval(Choice(l, r, key), lm[key].start, lm[key].end)
    ensures var rm := RangesBySource(r.selectors);
      key in rm ==> RangeOk(rm[key].start, rm[key].end) && InInterval(Choice(l, r, key), rm[key].start, rm[key].end)
  {
    var lm, rm := RangesBySource(l.selectors), RangesBySource(r.selectors);
    MapRangeOk(l, key);
    MapRangeOk(r, key);
    if key in lm && key in rm {
      LargerStart(lm[key], rm[key]);
    }
  }

  lemma MapRangeOk(s: PlacementSpec, key: string)
    requires SpecOk(s)
    ensures var m := RangesBySource(s.selectors); key in m ==> RangeOk(m[key].start, m[key].end)
  {
    if key in RangesBySource(s.selectors) {
      var a := RangesBySourceOnly(s.selectors, key);
      assert SelectorOk(a);
    }
  }

  lemma ChoiceHolds(l: PlacementSpec, r: PlacementSpec, s: Selector)
    requires Kin(l, r) && AllIntersect(RangesBySource(l.selectors), RangesBySource(r.selectors))
    requires s in l.selectors || s in r.selectors
    ensures Holds(s, Choice(l, r, SourceKey(s.source)))
  {
    if s.operator.Range? {
      NoneOnRangeSource(l, r, s);
      ChoiceInRange(l, r, SourceKey(s.source));
      if s in l.selectors {
        KeysDiffer(l);
        RangesBySourceAt(l.selectors, s);
      } else {
        KeysDiffer(r);
        RangesBySourceAt(r.selectors, s);
      }
    } else {
      SharedNonRange(l, r, s);
      ChoiceOfNonRange(l, r, s);
      OwnValueHolds(s);
    }
  }

  // ----- the request

  function HeaderNames(sels: seq<Selector>): set<string> {
    set s | s in sels && s.source.kind.Header? :: Lower(s.source.name)
  }

  function QueryNames(sels: seq<Selector>): set<string> {
    set s | s in sels && s.source.kind.QueryParam? :: s.source.name
  }

  ghost function HeaderValue(l: PlacementSpec, r: PlacementSpec, n: string): string
    requires n in HeaderNames(l.selectors + r.selectors)
  {
    var s :| s in l.selectors + r.selectors && OnHeader(s, n); Choice(l, r, SourceKey(s.source))
  }

  lemma HeaderValueAt(l: PlacementSpec, r: PlacementSpec, s: Selector)
    requires CaseApart(l.selectors + r.selectors) && s in l.selectors + r.selectors && s.source.kind.Header?
    ensures Lower(s.source.name) in HeaderNames(l.selectors + r.selectors)
    ensures HeaderValue(l, r, Lower(s.source.name)) == Choice(l, r, SourceKey(s.source))
  {
    var n := Lower(s.source.name);
    var t :| t in l.selectors + r.selectors && OnHeader(t, n) &&
      HeaderValue(l, r, n) == Choice(l, r, SourceKey(t.source));
    assert t.source.name == s.source.name;
  }

  ghost function QueryValue(l: PlacementSpec, r: PlacementSpec, n: string): string {
    Choice(l, r, "QueryParam:" + n)
  }

  ghost function JointRequest(l: PlacementSpec, r: PlacementSpec): Request {
    Request("", map n | n in HeaderNames(l.selectors + r.selectors) :: HeaderValue(l, r, n),
            map n | n in QueryNames(l.selectors + r.selectors) :: QueryValue(l, r, n))
  }

  /** The request carries the value `v` where the selector looks. */
  predicate Carries(req: Request, s: Selector, v: string) {
    && (s.source.kind.Header? ==> Lower(s.source.name) in req.headers && req.headers[Lower(s.source.name)] == v)
    && (s.source.kind.QueryParam? ==> s.source.name in req.query && req.query[s.source.name] == v)
  }

  lemma CarriedHolds(req: Request, s: Selector, v: string)
    requires Carries(req, s, v) && Holds(s, v)
    ensures SelectorHolds(s, req)
  {
  }

  lemma JointCarries(l: PlacementSpec, r: PlacementSpec, s: Selector)
    requires CaseApart(l.selectors + r.selectors) && s in l.selectors + r.selectors
    ensures Carries(JointRequest(l, r), s, Choice(l, r, SourceKey(s.source)))
  {
    if s.source.kind.Header? {
      HeaderValueAt(l, r, s);
    } else if s.source.kind.QueryParam? {
      assert s.source.name in QueryNames(l.selectors + r.selectors);
      assert SourceKey(s.source) == "QueryParam:" + s.source.name;
    }
  }

  lemma BuildJoint(l: PlacementSpec, r: PlacementSpec)
    requires Comparable(l, r) && AllIntersect(RangesBySource(l.selectors), RangesBySource(r.selectors))
    ensures Joint(l, r)
  {
    var req := JointRequest(l, r);
    forall s | s in l.selectors + r.selectors ensures SelectorHolds(s, req) {
      assert s in l.selectors || s in r.selectors;
      ChoiceHolds(l, r, s);
      JointCarries(l, r, s);
      CarriedHolds(req, s, Choice(l, r, SourceKey(s.source)));
    }
    assert AllHold(l.selectors, req) && AllHold(r.selectors, req);
  }

  /** Some request satisfies both placements exactly when the ranges intersect on every shared source. */
  lemma JointIffAllIntersect(l: PlacementSpec, r: PlacementSpec)
    requires Comparable(l, r)
    ensures Joint(l, r) <==> AllIntersect(RangesBySource(l.selectors), RangesBySource(r.selectors))
  {
    if req :| AllHold(l.selectors, req) && AllHold(r.selectors, req) {
      forall k | k in RangesBySource(l.selectors) && k in RangesBySource(r.selectors)
        ensures NumericRangesIntersect(RangesBySource(l.selectors)[k], RangesBySource(r.selectors)[k])
      {
        NeedsAll(l, r, req, k);
      }
    }
    if AllIntersect(RangesBySource(l.selectors), RangesBySource(r.selectors)) {
      BuildJoint(l, r);
    }
  }

  lemma SharedIsSome(l: PlacementSpec, r: PlacementSpec)
    requires SpecOk(l) && SpecOk(r)
    ensures SharedRange(RangesBySource(l.selectors), RangesBySource(r.selectors)) <==>
            exists k :: Meets(RangesBySource(l.selectors), RangesBySource(r.selectors), k)
  {
    var lm, rm := RangesBySource(l.selectors), RangesBySource(r.selectors);
    if SharedRange(lm, rm) {
      var k :| k in lm && k in rm && NumericRangesIntersect(lm[k], rm[k]);
      MeetsIsIntersect(l, r, k);
    }
    if k :| Meets(lm, rm, k) {
      MeetsIsIntersect(l, r, k);
    }
  }

  /** The check agrees with joint satisfiability exactly when neither placement has a range, or shared
      sources are all alike: some of them intersect if and only if all of them do. */
  lemma FlagExactness(l: PlacementSpec, r: PlacementSpec)
    requires Comparable(l, r) && Readable(l, r)
    ensures AllPresent(l.selectors) && AllPresent(r.selectors)
    ensures var lm, rm := RangesBySource(l.selectors), RangesBySource(r.selectors);
      (ObviouslyOverlap(l, r) <==> Joint(l, r)) <==>
      (Ranges(l.selectors) == [] && Ranges(r.selectors) == []) || (SharedRange(lm, rm) <==> AllIntersect(lm, rm))
  {
    JointIffAllIntersect(l, r);
    if Ranges(l.selectors) == [] && Ranges(r.selectors) == [] {
      KinCheck(l, r);
      NoRangesNoMap(l);
    } else {
      FlaggedIffSomeSourceMeets(l, r);
      SharedIsSome(l, r);
    }
  }

  lemma NoRangesNoMap(l: PlacementSpec)
    requires Ranges(l.selectors) == []
    ensures RangesBySource(l.selectors) == map[]
  {
    forall k | k in RangesBySource(l.selectors) ensures false {
      var a := RangesBySourceOnly(l.selectors, k);
    }
  }
}
