/**
 Compilation of a CellPlacement into a route specification, the Gateway API matches built from it,
 and what those matches mean for a request.
 */
module PlacementCompiler {
  import opened Basics
  import opened Decimal
  import opened RegexSyntax
  import opened RegexMatch
  import opened CaptureScanner
  import opened PathCompiler
  import opened RangeCompiler
  import opened Placements

  datatype MatchKind = ExactMatch | RegexValue

  /** A header or query parameter match. */
  datatype ValueMatch = ValueMatch(name: string, kind: MatchKind, value: string)

  datatype PathKind = RegularExpression | OtherPath(text: string)

  datatype PathMatch = PathMatch(kind: PathKind, value: string)

  datatype RouteSpec = RouteSpec(
    name: string,
    cellRef: string,
    listenerNames: seq<string>,
    hostnames: seq<string>,
    pathMatch: Option<PathMatch>,
    headerMatches: seq<ValueMatch>,
    queryMatches: seq<ValueMatch>,
    weight: Option<int>,
    additionalBackends: seq<BackendRef>,
    fallbackBackend: Option<BackendRef>)

  datatype RouteMatch = RouteMatch(path: Option<PathMatch>, headers: seq<ValueMatch>, queryParams: seq<ValueMatch>)

  // ----- compilation

  /** A Range selector carries a range; the custom resource's schema demands it. */
  predicate RangePresent(s: Selector) {
    s.operator.Range? ==> s.range.Some?
  }

  function SelectorRegexBody(s: Selector): Result<string>
    requires RangePresent(s)
  {
    match s.operator
    case Exact => Ok(QuoteMeta(s.value))
    case Prefix => Ok(QuoteMeta(s.value) + ".*")
    case Suffix => Ok(".*" + QuoteMeta(s.value))
    case Range => NumericRangeRegex(s.range.value.start, s.range.value.end)
    case OtherOperator(_) => Err("unsupported selector operator")
  }

  /** `compileHeaderSelector` and `compileQuerySelector`. */
  function CompileValueSelector(s: Selector): Result<ValueMatch>
    requires RangePresent(s)
  {
    if s.operator.Exact? then Ok(ValueMatch(s.source.name, ExactMatch, s.value))
    else
      match SelectorRegexBody(s)
      case Err(e) => Err(e)
      case Ok(body) => Ok(ValueMatch(s.source.name, RegexValue, "^(?:" + body + ")$"))
  }

  function OfKind(sels: seq<Selector>, kind: SourceType): (r: seq<Selector>)
    ensures forall s :: s in r <==> s in sels && s.source.kind == kind
  {
    if sels == [] then []
    else if sels[0].source.kind == kind then [sels[0]] + OfKind(sels[1..], kind)
    else OfKind(sels[1..], kind)
  }

  predicate AllPresent(sels: seq<Selector>) {
    forall s :: s in sels ==> RangePresent(s)
  }

  function CompileValues(sels: seq<Selector>): Result<seq<ValueMatch>>
    requires AllPresent(sels)
  {
    if sels == [] then Ok([])
    else
      match CompileValueSelector(sels[0])
      case Err(e) => Err(e)
      case Ok(first) =>
        match CompileValues(sels[1..]) case Err(e) => Err(e) case Ok(rest) => Ok([first] + rest)
  }

  function CompileCaptures(pattern: string, sels: seq<Selector>): Result<string>
    requires AllPresent(sels)
    decreases |sels|
  {
    if sels == [] then Ok(pattern)
    else
      match SelectorRegexBody(sels[0])
      case Err(e) => Err(e)
      case Ok(body) =>
        match Replaced(pattern, sels[0].source.name, body)
        case Err(e) => Err(e)
        case Ok(next) => CompileCaptures(next, sels[1..])
  }

  /** `compilePathRegex`. */
  function CompilePathRegex(sels: seq<Selector>): Result<string>
    requires AllPresent(sels)
  {
    var captures := OfKind(sels, PathCapture);
    if captures == [] then Ok("") else CompileCaptures(captures[0].source.pathRegex, captures)
  }

  function SpecOf(p: Placement, path: string, headers: seq<ValueMatch>, queries: seq<ValueMatch>): RouteSpec
    requires p.spec.destinations != []
  {
    var first := p.spec.destinations[0];
    RouteSpec(p.name, first.cellRef, p.spec.listenerNames, p.spec.hostnames,
              if path == "" then None else Some(PathMatch(RegularExpression, path)),
              headers, queries, first.weight, p.spec.destinations[1..], None)
  }

  /** `routeSpecFromPlacement` on a valid placement. */
  function CompiledSpec(p: Placement): Result<RouteSpec>
    requires SpecOk(p.spec)
  {
    var sels := p.spec.selectors;
    match CompilePathRegex(sels)
    case Err(e) => Err(e)
    case Ok(path) =>
      match CompileValues(OfKind(sels, Header))
      case Err(e) => Err(e)
      case Ok(headers) =>
        match CompileValues(OfKind(sels, QueryParam))
        case Err(e) => Err(e)
        case Ok(queries) => Ok(SpecOf(p, path, headers, queries))
  }

  /** `routeSpecFromPlacement`: validation, the path regex, then one pass over the selectors. */
  method RouteSpecFromPlacement(p: Placement) returns (r: Result<RouteSpec>)
    ensures r.Ok? ==> SpecOk(p.spec) && r == CompiledSpec(p) && CarriesOver(p, r.value)
    ensures r.Err? ==> !SpecOk(p.spec) || CompiledSpec(p).Err?
  {
    var verdict := Validate(p.spec);
    if verdict.Reject? {
      return Err(verdict.reason);
    }
    var sels := p.spec.selectors;
    assert AllPresent(sels);
    var path := CompilePath(sels);
    if path.Err? {
      return Err(path.error);
    }
    var values := CompileValueMatches(sels);
    if values.Err? {
      return Err(values.error);
    }
    CompiledCarriesOver(p);
    return Ok(SpecOf(p, path.value, values.value.0, values.value.1));
  }

  /** What a route takes from its placement unchanged: the destinations in order with their weights, the first
      as primary and the rest as additional backends; the name, the listeners and the hostnames. */
  predicate CarriesOver(p: Placement, s: RouteSpec) {
    && [BackendRef(s.cellRef, s.weight)] + s.additionalBackends == p.spec.destinations
    && s.fallbackBackend.None?
    && s.name == p.name && s.listenerNames == p.spec.listenerNames && s.hostnames == p.spec.hostnames
  }

  lemma CompiledCarriesOver(p: Placement)
    requires SpecOk(p.spec) && CompiledSpec(p).Ok?
    ensures CarriesOver(p, CompiledSpec(p).value)
  {
    var ds := p.spec.destinations;
    assert [BackendRef(ds[0].cellRef, ds[0].weight)] + ds[1..] == ds;
  }

  /** `compilePathRegex`: the path selectors' captures are replaced one after the other. */
  method CompilePath(sels: seq<Selector>) returns (r: Result<string>)
    requires AllPresent(sels)
    ensures r == CompilePathRegex(sels)
  {
    var captures := OfKind(sels, PathCapture);
    if captures == [] {
      return Ok("");
    }
    var pathRegex := captures[0].source.pathRegex;
    for i := 0 to |captures|
      invariant CompileCaptures(captures[0].source.pathRegex, captures) == CompileCaptures(pathRegex, captures[i..])
    {
      assert captures[i] in captures && captures[i..][0] == captures[i] && captures[i..][1..] == captures[i + 1..];
      var body := SelectorRegexBody(captures[i]);
      if body.Err? {
        return Err(body.error);
      }
      var next := ReplaceNamedCaptureBody(pathRegex, captures[i].source.name, body.value);
      if next.Err? {
        return Err(next.error);
      }
      pathRegex := next.value;
    }
    return Ok(pathRegex);
  }

  /** The pass over the selectors that fills the header and query matches. */
  method CompileValueMatches(sels: seq<Selector>) returns (r: Result<(seq<ValueMatch>, seq<ValueMatch>)>)
    requires AllPresent(sels)
    ensures r.Ok? ==> CompileValues(OfKind(sels, Header)) == Ok(r.value.0)
    ensures r.Ok? ==> CompileValues(OfKind(sels, QueryParam)) == Ok(r.value.1)
    ensures r.Err? ==> CompileValues(OfKind(sels, Header)).Err? || CompileValues(OfKind(sels, QueryParam)).Err?
  {
    var headers: seq<ValueMatch>, queries: seq<ValueMatch> := [], [];
    ghost var hs, qs := CompileValues(OfKind(sels, Header)), CompileValues(OfKind(sels, QueryParam));
    assert sels[0..] == sels;
    ExtendedNone(hs);
    ExtendedNone(qs);
    for i := 0 to |sels|
      invariant hs == Extended(headers, CompileValues(OfKind(sels[i..], Header)))
      invariant qs == Extended(queries, CompileValues(OfKind(sels[i..], QueryParam)))
    {
      var s := sels[i];
      ExtendStep(sels, i, Header, headers);
      ExtendStep(sels, i, QueryParam, queries);
      if s.source.kind.Header? {
        var m := CompileValueSelector(s);
        if m.Err? {
          return Err(m.error);
        }
        headers := headers + [m.value];
      } else if s.source.kind.QueryParam? {
        var m := CompileValueSelector(s);
        if m.Err? {
          return Err(m.error);
        }
        queries := queries + [m.value];
      }
    }
    assert headers + [] == headers && queries + [] == queries;
    return Ok((headers, queries));
  }

  lemma ExtendedNone(rest: Result<seq<ValueMatch>>)
    ensures Extended([], rest) == rest
  {
    if rest.Ok? {
      assert [] + rest.value == rest.value;
    }
  }

  function Extended(front: seq<ValueMatch>, rest: Result<seq<ValueMatch>>): Result<seq<ValueMatch>> {
    match rest case Err(e) => Err(e) case Ok(ms) => Ok(front + ms)
  }

  lemma ExtendStep(sels: seq<Selector>, i: nat, kind: SourceType, front: seq<ValueMatch>)
    requires i < |sels| && AllPresent(sels)
    ensures Extended(front, CompileValues(OfKind(sels[i..], kind))) ==
            if sels[i].source.kind != kind then Extended(front, CompileValues(OfKind(sels[i + 1..], kind)))
            else match CompileValueSelector(sels[i])
                 case Err(e) => Err(e)
                 case Ok(m) => Extended(front + [m], CompileValues(OfKind(sels[i + 1..], kind)))
  {
    assert sels[i..][0] == sels[i] && sels[i..][1..] == sels[i + 1..];
    var rest := OfKind(sels[i + 1..], kind);
    if sels[i].source.kind == kind {
      assert OfKind(sels[i..], kind) == [sels[i]] + rest;
      assert ([sels[i]] + rest)[1..] == rest;
      var m := CompileValueSelector(sels[i]);
      if m.Ok? && CompileValues(rest).Ok? {
        assert front + ([m.value] + CompileValues(rest).value) == front + [m.value] + CompileValues(rest).value;
      }
    }
  }

  /** `buildMatches`; no match at all means a catch-all rule in the Gateway API. */
  function BuildMatches(spec: RouteSpec): seq<RouteMatch> {
    var m := RouteMatch(spec.pathMatch, spec.headerMatches, spec.queryMatches);
    if m.path.Some? || m.headers != [] || m.queryParams != [] then [m] else []
  }

  // ----- what a request is, and what matches mean

  /** Header names are keyed in lower case, as section 5.1 of RFC 9110 compares them. */
  datatype Request = Request(path: string, headers: map<string, string>, query: map<string, string>)

  function LowerChar(c: char): char {
    if 'A' <= c <= 'Z' then (c as int + 32) as char else c
  }

  function Lower(s: string): string {
    seq(|s|, i requires 0 <= i < |s| => LowerChar(s[i]))
  }

  ghost predicate ValueHolds(m: ValueMatch, key: string, values: map<string, string>) {
    && key in values
    && (if m.kind.ExactMatch? then values[key] == m.value else Matches(m.value, values[key]))
  }

  function HeaderKeys(ms: seq<ValueMatch>): (r: seq<string>)
    ensures |r| == |ms|
  {
    seq(|ms|, i requires 0 <= i < |ms| => Lower(ms[i].name))
  }

  function QueryKeys(ms: seq<ValueMatch>): (r: seq<string>)
    ensures |r| == |ms|
  {
    seq(|ms|, i requires 0 <= i < |ms| => ms[i].name)
  }

  predicate FirstOf(keys: seq<string>, i: nat)
    requires i < |keys|
  {
    forall k :: 0 <= k < i ==> keys[k] != keys[i]
  }

  /** Of several entries with an equivalent name the Gateway API considers only the first. */
  ghost predicate ValuesHold(ms: seq<ValueMatch>, keys: seq<string>, values: map<string, string>)
    requires |keys| == |ms|
  {
    forall i :: 0 <= i < |ms| && FirstOf(keys, i) ==> ValueHolds(ms[i], keys[i], values)
  }

  /** All parts of a match must hold. */
  ghost predicate MatchHolds(m: RouteMatch, req: Request)
    requires m.path.Some? ==> m.path.value.kind.RegularExpression?
  {
    && (m.path.Some? ==> Matches(m.path.value.value, req.path))
    && ValuesHold(m.headers, HeaderKeys(m.headers), req.headers)
    && ValuesHold(m.queryParams, QueryKeys(m.queryParams), req.query)
  }

  ghost predicate RuleHolds(ms: seq<RouteMatch>, req: Request)
    requires forall m :: m in ms ==> (m.path.Some? ==> m.path.value.kind.RegularExpression?)
  {
    ms == [] || exists m :: m in ms && MatchHolds(m, req)
  }

  // ----- what a selector means

  predicate NewlineFree(v: string) {
    '\n' !in v
  }

  /** The documented meaning of an operator on the extracted value. */
  predicate Holds(s: Selector, v: string) {
    match s.operator
    case Exact => v == s.value
    case Prefix => s.value <= v
    case Suffix => |s.value| <= |v| && v[|v| - |s.value|..] == s.value
    case Range =>
      && s.range.Some? && RangeOk(s.range.value.start, s.range.value.end)
      && InInterval(v, s.range.value.start, s.range.value.end)
    case OtherOperator(_) => false
  }

  /** What `.*` has to skip over is free of newlines. */
  predicate WildcardOk(s: Selector, v: string)
    requires Holds(s, v)
  {
    && (s.operator.Prefix? ==> NewlineFree(v[|s.value|..]))
    && (s.operator.Suffix? ==> NewlineFree(v[..|v| - |s.value|]))
  }

  ghost predicate SelectorHolds(s: Selector, req: Request) {
    match s.source.kind
    case Header => Lower(s.source.name) in req.headers && Holds(s, req.headers[Lower(s.source.name)])
    case QueryParam => s.source.name in req.query && Holds(s, req.query[s.source.name])
    case _ => true
  }

  lemma WildcardText(s: string, i: nat, j: nat)
    requires i <= j <= |s|
    ensures BranchText(".*") && Insertable(Parse(".*").value)
    ensures Lang(".*", s, i, j) <==> NewlineFree(s[i..j])
  {
    EmptyText();
    AtomText(Dot, Star, "");
    AtomTextLang(Dot, Star, "", s, i, j);
    StarOfDot(s, i, j);
    assert PrintAtom(Dot) + (PrintQuant(Star) + "") == ".*";
    assert Cut(i, j, j);
    assert forall k :: i <= k < j ==> s[i..j][k - i] == s[k];
  }

  lemma {:induction false} QuoteInsertable(v: string, t: string)
    requires BranchText(t) && Insertable(Parse(t).value)
    ensures BranchText(QuoteMeta(v) + t) && Insertable(Parse(QuoteMeta(v) + t).value)
  {
    if v == [] {
      assert QuoteMeta(v) + t == t;
    } else {
      QuoteInsertable(v[1..], t);
      var a := if IsSpecial(v[0]) then Esc(v[0]) else Lit(v[0]);
      var tail := QuoteMeta(v[1..]) + t;
      Assoc(PrintAtom(a), QuoteMeta(v[1..]), t);
      AtomText(a, Once, tail);
      assert PrintQuant(Once) + tail == tail;
    }
  }

  lemma GroupHasParen(a: Atom)
    requires a.Group?
    ensures '(' in PrintAtom(a)
  {
    assert PrintAtom(a)[0] == '(';
  }

  lemma {:induction false} ParenFree(b: Body)
    requires BodyOk(b) && '(' !in Print(b)
    ensures Insertable(b)
  {
    match b
    case Done =>
    case Or(rest) =>
      assert forall c :: c in Print(rest) ==> c in Print(b);
      ParenFree(rest);
    case Then(a, q, rest) =>
      var tail := PrintQuant(q) + Print(rest);
      assert forall c :: c in Print(rest) ==> c in tail;
      assert forall c :: c in PrintAtom(a) || c in tail ==> c in Print(b);
      ParenFree(rest);
      if a.Group? {
        GroupHasParen(a);
      } else if a.Set? {
        ToksParenFree(a.toks);
        assert forall c :: c in PrintToks(a.toks) ==> c in PrintAtom(a);
      } else if a.Esc? {
        assert PrintAtom(a)[1] == a.c;
      }
  }

  lemma {:induction false} ToksParenFree(toks: seq<ClassTok>)
    ensures '(' !in PrintToks(toks) ==> ClassWithoutParen(toks)
  {
    if toks != [] {
      ToksParenFree(toks[1..]);
      assert toks[0].c in PrintToks(toks);
    }
  }

  // ----- range texts contain no parenthesis

  predicate NoParen(patterns: seq<string>) {
    forall p :: p in patterns ==> '(' !in p
  }

  lemma {:induction false} QuoteDigits(v: string)
    requires AllDigits(v)
    ensures '(' !in QuoteMeta(v)
  {
    if v != [] {
      QuoteDigits(v[1..]);
    }
  }

  lemma WildcardNoParen(length: nat)
    ensures '(' !in DigitWildcard(length)
  {
    NumeralIsCanonical(length);
  }

  lemma DigitRangeNoParen(first: char, last: char)
    requires IsDigit(first) && IsDigit(last)
    ensures '(' !in DigitRangePattern(first, last)
  {
    QuoteDigits([first]);
  }

  lemma PrependNoParen(c: char, patterns: seq<string>)
    requires IsDigit(c) && NoParen(patterns)
    ensures NoParen(Prepend(QuoteMeta([c]), patterns))
  {
    QuoteDigits([c]);
    var r := Prepend(QuoteMeta([c]), patterns);
    forall k | 0 <= k < |r| ensures '(' !in r[k] {
      assert patterns[k] in patterns;
    }
  }

  lemma {:induction false} SameLengthNoParen(start: string, end: string)
    requires |start| == |end| && AllDigits(start) && AllDigits(end) && Value(start) <= Value(end)
    ensures NoParen(SameLengthRangePatterns(start, end))
    decreases |start|, 1
  {
    if |start| == 0 {
    } else if start == end {
      QuoteDigits(start);
    } else if |start| == 1 {
      DigitRangeNoParen(start[0], end[0]);
    } else if start[0] == end[0] {
      HeadOrder(start, end);
      SameLengthNoParen(start[1..], end[1..]);
      PrependNoParen(start[0], SameLengthRangePatterns(start[1..], end[1..]));
    } else {
      HeadOrder(end, start);
      SplitNoParen(start, end);
      Sorting.UniqueSpec(SplitPatterns(start, end));
    }
  }

  lemma {:induction false} SplitNoParen(start: string, end: string)
    requires 1 < |start| == |end| && AllDigits(start) && AllDigits(end) && start[0] < end[0]
    ensures NoParen(SplitPatterns(start, end))
    decreases |start|, 0
  {
    var n := |start| - 1;
    NinesValue(n);
    ZerosValue(n);
    ValueBound(start[1..]);
    var lowTail := SameLengthRangePatterns(start[1..], Repeat('9', n));
    var highTail := SameLengthRangePatterns(Repeat('0', n), end[1..]);
    SameLengthNoParen(start[1..], Repeat('9', n));
    SameLengthNoParen(Repeat('0', n), end[1..]);
    PrependNoParen(start[0], lowTail);
    PrependNoParen(end[0], highTail);
    var a, b := (start[0] as int + 1) as char, (end[0] as int - 1) as char;
    if a <= b {
      DigitRangeNoParen(a, b);
      WildcardNoParen(n);
    }
  }

  lemma {:induction false} AnyNumbersNoParen(from: nat, to: nat)
    requires 0 < from
    ensures NoParen(AnyNumberPatterns(from, to))
    decreases if from < to then to - from else 0
  {
    if from < to {
      WildcardNoParen(from - 1);
      AnyNumbersNoParen(from + 1, to);
    }
  }

  lemma {:induction false} JoinNoParen(patterns: seq<string>)
    requires NoParen(patterns)
    ensures '(' !in Join(patterns, "|")
  {
    if |patterns| == 1 {
      assert patterns[0] in patterns;
    } else if |patterns| > 1 {
      assert patterns[0] in patterns;
      JoinNoParen(patterns[1..]);
    }
  }

  lemma LongerNoParen(start: string, end: string)
    requires RangeOk(start, end) && |start| != |end|
    ensures NoParen(NumericRangePatterns(start, end))
  {
    if |end| < |start| {
      ShorterIsSmaller(end, start);
    }
    NinesValue(|start|);
    ValueBound(start);
    MinValue(|end|);
    CanonicalLowerBound(end);
    SameLengthNoParen(start, Repeat('9', |start|));
    SameLengthNoParen(MinValueForLength(|end|), end);
    AnyNumbersNoParen(|start| + 1, |end|);
  }

  lemma RangeNoParen(start: string, end: string)
    requires RangeOk(start, end) && NumericRangeRegex(start, end).Ok?
    ensures '(' !in NumericRangeRegex(start, end).value
  {
    if start == end {
      QuoteDigits(start);
    } else {
      var patterns := NumericRangePatterns(start, end);
      if |start| == |end| {
        SameLengthNoParen(start, end);
      } else {
        LongerNoParen(start, end);
      }
      Sorting.UniqueSpec(patterns);
      JoinNoParen(Sorting.Unique(patterns));
    }
  }

  // ----- one selector

  predicate Compilable(s: Selector) {
    && !s.operator.OtherOperator? && RangePresent(s)
    && (s.operator.Range? ==> RangeOk(s.range.value.start, s.range.value.end))
  }

  lemma PrefixSlices(value: string, s: string, i: nat, j: nat)
    requires i <= j <= |s|
    ensures value <= s[i..j] <==> i + |value| <= j && s[i..i + |value|] == value
    ensures value <= s[i..j] ==> s[i..j][|value|..] == s[i + |value|..j]
  {
    var v, k := s[i..j], i + |value|;
    if k <= j {
      assert v[..|value|] == s[i..k] && v[|value|..] == s[k..j];
    }
  }

  lemma PrefixLang(value: string, s: string, i: nat, j: nat)
    requires i <= j <= |s|
    ensures var t := QuoteMeta(value) + ".*"; var v := s[i..j];
      && Parse(t).Some? && Insertable(Parse(t).value)
      && (Lang(t, s, i, j) <==> value <= v && NewlineFree(v[|value|..]))
  {
    PrefixSlices(value, s, i, j);
    WildcardText(s, if i + |value| <= j then i + |value| else i, j);
    QuoteText(value, ".*", s, i, j);
    QuoteInsertable(value, ".*");
  }

  lemma SuffixAt(value: string, s: string, i: nat, k: nat, j: nat)
    requires i <= k <= j <= |s|
    ensures MatchQuant(Dot, Star, NO_CAPS, s, i, k) <==> NewlineFree(s[i..k])
    ensures Lang(QuoteMeta(value), s, k, j) <==> s[k..j] == value
  {
    StarOfDot(s, i, k);
    assert forall m :: i <= m < k ==> s[i..k][m - i] == s[m];
    QuoteLang(value, s, k, j);
  }

  lemma SuffixSlices(s: string, i: nat, k: nat, j: nat)
    requires i <= k <= j <= |s|
    ensures s[i..j][k - i..] == s[k..j] && s[i..j][..k - i] == s[i..k]
  {
  }

  predicate WildThenValue(value: string, v: string) {
    |value| <= |v| && v[|v| - |value|..] == value && NewlineFree(v[..|v| - |value|])
  }

  lemma SuffixFrom(value: string, s: string, i: nat, k: nat, j: nat)
    requires i <= k <= j <= |s| && MatchQuant(Dot, Star, NO_CAPS, s, i, k) && Lang(QuoteMeta(value), s, k, j)
    ensures WildThenValue(value, s[i..j])
  {
    SuffixAt(value, s, i, k, j);
    SuffixSlices(s, i, k, j);
  }

  lemma SuffixTo(value: string, s: string, i: nat, j: nat) returns (k: nat)
    requires i <= j <= |s| && WildThenValue(value, s[i..j])
    ensures i <= k <= j && MatchQuant(Dot, Star, NO_CAPS, s, i, k) && Lang(QuoteMeta(value), s, k, j)
  {
    k := j - |value|;
    SuffixAt(value, s, i, k, j);
    SuffixSlices(s, i, k, j);
  }

  lemma SuffixText(value: string)
    ensures BranchText(QuoteMeta(value)) && Insertable(Parse(QuoteMeta(value)).value)
    ensures ".*" + QuoteMeta(value) == PrintAtom(Dot) + (PrintQuant(Star) + QuoteMeta(value))
    ensures BranchText(".*" + QuoteMeta(value)) && Insertable(Parse(".*" + QuoteMeta(value)).value)
  {
    var q := QuoteMeta(value);
    EmptyText();
    QuoteInsertable(value, "");
    assert q + "" == q;
    AtomText(Dot, Star, q);
    Assoc(".", "*", q);
  }

  lemma SuffixLang(value: string, s: string, i: nat, j: nat)
    requires i <= j <= |s|
    ensures Lang(".*" + QuoteMeta(value), s, i, j) <==> WildThenValue(value, s[i..j])
  {
    SuffixText(value);
    var q := QuoteMeta(value);
    AtomTextLang(Dot, Star, q, s, i, j);
    if WildThenValue(value, s[i..j]) {
      var k := SuffixTo(value, s, i, j);
      assert Cut(i, k, j);
    }
    if Lang(".*" + q, s, i, j) {
      var k: nat :| Cut(i, k, j) && MatchQuant(Dot, Star, NO_CAPS, s, i, k) && Lang(q, s, k, j);
      SuffixFrom(value, s, i, k, j);
    }
  }

  /** The text a selector compiles to matches exactly the values the selector holds for, as long as
      its wildcard meets no newline. */
  lemma SelectorBodyLang(sel: Selector, s: string, i: nat, j: nat)
    requires Compilable(sel) && i <= j <= |s|
    ensures SelectorRegexBody(sel).Ok?
    ensures var t := SelectorRegexBody(sel).value;
      && Parse(t).Some? && Insertable(Parse(t).value)
      && (Lang(t, s, i, j) <==> Holds(sel, s[i..j]) && WildcardOk(sel, s[i..j]))
  {
    match sel.operator
    case Exact =>
      QuoteLang(sel.value, s, i, j);
      EmptyText();
      QuoteInsertable(sel.value, "");
      assert QuoteMeta(sel.value) + "" == QuoteMeta(sel.value);
    case Prefix => PrefixLang(sel.value, s, i, j);
    case Suffix =>
      SuffixText(sel.value);
      SuffixLang(sel.value, s, i, j);
    case Range =>
      var start, end := sel.range.value.start, sel.range.value.end;
      RangeLang(start, end, s, i, j);
      RangeNoParen(start, end);
      ParseSound(NumericRangeRegex(start, end).value);
      ParenFree(Parse(NumericRangeRegex(start, end).value).value);
  }

  // ----- emitted bodies have no group

  /** The regex has no group at all, so its text has no unescaped parenthesis outside a class. */
  predicate Flat(b: Body) {
    match b
    case Done => true
    case Or(rest) => Flat(rest)
    case Then(a, q, rest) => !a.Group? && Flat(rest)
  }

  lemma {:induction false} QuoteFlat(v: string, t: string)
    requires BranchText(t) && Flat(Parse(t).value)
    ensures BranchText(QuoteMeta(v) + t) && Flat(Parse(QuoteMeta(v) + t).value)
  {
    if v == [] {
      assert QuoteMeta(v) + t == t;
    } else {
      QuoteFlat(v[1..], t);
      var a := if IsSpecial(v[0]) then Esc(v[0]) else Lit(v[0]);
      var tail := QuoteMeta(v[1..]) + t;
      Assoc(PrintAtom(a), QuoteMeta(v[1..]), t);
      AtomText(a, Once, tail);
      assert PrintQuant(Once) + tail == tail;
    }
  }

  lemma {:induction false} ParenFreeFlat(b: Body)
    requires '(' !in Print(b)
    ensures Flat(b)
  {
    match b
    case Done =>
    case Or(rest) =>
      assert forall c :: c in Print(rest) ==> c in Print(b);
      ParenFreeFlat(rest);
    case Then(a, q, rest) =>
      var tail := PrintQuant(q) + Print(rest);
      assert forall c :: c in Print(rest) ==> c in tail;
      assert forall c :: c in PrintAtom(a) || c in tail ==> c in Print(b);
      ParenFreeFlat(rest);
      if a.Group? {
        GroupHasParen(a);
      }
  }

  lemma DotStarFlat(t: string)
    requires BranchText(t) && Flat(Parse(t).value)
    ensures BranchText(".*" + t) && Flat(Parse(".*" + t).value)
  {
    AtomText(Dot, Star, t);
    Assoc(".", "*", t);
    assert PrintAtom(Dot) + (PrintQuant(Star) + t) == ".*" + t;
  }

  /** The body a selector compiles to contains no group, capturing or not. */
  lemma SelectorBodyFlat(sel: Selector)
    requires Compilable(sel)
    ensures SelectorRegexBody(sel).Ok? && Parse(SelectorRegexBody(sel).value).Some?
    ensures Flat(Parse(SelectorRegexBody(sel).value).value)
  {
    SelectorBodyLang(sel, "", 0, 0);
    EmptyText();
    match sel.operator
    case Exact =>
      QuoteFlat(sel.value, "");
      assert QuoteMeta(sel.value) + "" == QuoteMeta(sel.value);
    case Prefix =>
      DotStarFlat("");
      assert ".*" + "" == ".*";
      QuoteFlat(sel.value, ".*");
    case Suffix =>
      QuoteFlat(sel.value, "");
      assert QuoteMeta(sel.value) + "" == QuoteMeta(sel.value);
      DotStarFlat(QuoteMeta(sel.value));
    case Range =>
      var t := NumericRangeRegex(sel.range.value.start, sel.range.value.end).value;
      RangeNoParen(sel.range.value.start, sel.range.value.end);
      ParseSound(t);
      ParenFreeFlat(Parse(t).value);
  }

  /** The match compiled from a header or query selector holds for a value exactly when the selector
      does and its wildcard meets no newline. */
  lemma CompiledValueExact(sel: Selector, key: string, values: map<string, string>)
    requires Compilable(sel)
    ensures CompileValueSelector(sel).Ok?
    ensures ValueHolds(CompileValueSelector(sel).value, key, values) <==>
            key in values && Holds(sel, values[key]) && WildcardOk(sel, values[key])
  {
    if key in values {
      var v := values[key];
      SelectorBodyLang(sel, v, 0, |v|);
      assert v[0..|v|] == v;
      AnchoredMatches(SelectorRegexBody(sel).value, v);
    } else {
      SelectorBodyLang(sel, "", 0, 0);
    }
  }

  /** A value with the prefix `a` and then a newline satisfies the selector and misses the match. */
  lemma PrefixStopsAtNewline()
    ensures var sel := Selector(Source(Header, "X", ""), Prefix, "a", None); var values := map["x" := "a\n"];
      Holds(sel, "a\n") && CompileValueSelector(sel).Ok? && !ValueHolds(CompileValueSelector(sel).value, "x", values)
  {
    var sel := Selector(Source(Header, "X", ""), Prefix, "a", None);
    CompiledValueExact(sel, "x", map["x" := "a\n"]);
    assert "a\n"[1..][0] == '\n';
  }

  // ----- all selectors of a placement

  lemma SelectorCompilable(s: Selector)
    requires SelectorOk(s)
    ensures Compilable(s)
  {
  }

  predicate AllCompilable(ss: seq<Selector>) {
    forall s :: s in ss ==> Compilable(s)
  }

  lemma OfKindCompilable(sels: seq<Selector>, kind: SourceType)
    requires SelectorsOk(sels)
    ensures AllCompilable(OfKind(sels, kind))
  {
    forall s | s in OfKind(sels, kind) ensures Compilable(s) {
      SelectorCompilable(s);
    }
  }

  lemma {:induction false} ValuesCompiled(ss: seq<Selector>)
    requires AllCompilable(ss)
    ensures AllPresent(ss)
    ensures CompileValues(ss).Ok? && |CompileValues(ss).value| == |ss|
    ensures forall i :: 0 <= i < |ss| ==>
      CompileValueSelector(ss[i]).Ok? && CompileValues(ss).value[i] == CompileValueSelector(ss[i]).value
  {
    if ss != [] {
      CompiledValueExact(ss[0], "", map[]);
      ValuesCompiled(ss[1..]);
    }
  }

  predicate Pairwise(ss: seq<Selector>, p: (Selector, Selector) -> bool) {
    forall i, j :: 0 <= i < j < |ss| ==> p(ss[i], ss[j])
  }

  /** What holds between any two selectors of one kind in a list holds in the list of that kind. */
  lemma {:induction false} OfKindPairwise(sels: seq<Selector>, kind: SourceType, p: (Selector, Selector) -> bool)
    requires forall i, j :: 0 <= i < j < |sels| && sels[i].source.kind == kind && sels[j].source.kind == kind ==>
      p(sels[i], sels[j])
    ensures Pairwise(OfKind(sels, kind), p)
  {
    if sels != [] {
      OfKindPairwise(sels[1..], kind, p);
      var rest := OfKind(sels[1..], kind);
      if sels[0].source.kind == kind {
        forall j | 0 <= j < |rest| ensures p(sels[0], rest[j]) {
          assert rest[j] in rest;
          var k :| 0 <= k < |sels[1..]| && sels[1..][k] == rest[j];
          assert sels[k + 1] == rest[j];
        }
        var ss := [sels[0]] + rest;
        forall i, j | 0 <= i < j < |ss| ensures p(ss[i], ss[j]) {
          assert ss[j] == rest[j - 1] && (i > 0 ==> ss[i] == rest[i - 1]);
        }
      }
    }
  }

  predicate HeadersApart(sels: seq<Selector>) {
    forall i, j :: 0 <= i < j < |sels| && sels[i].source.kind.Header? && sels[j].source.kind.Header? ==>
      Lower(sels[i].source.name) != Lower(sels[j].source.name)
  }

  predicate RequestPlain(req: Request) {
    && NewlineFree(req.path)
    && (forall k :: k in req.headers ==> NewlineFree(req.headers[k]))
    && (forall k :: k in req.query ==> NewlineFree(req.query[k]))
  }

  function KeyOf(s: Selector): string {
    if s.source.kind.Header? then Lower(s.source.name) else s.source.name
  }

  /** Compiled value matches hold together exactly when their selectors all do. */
  lemma ValuesMeaning(ss: seq<Selector>, keys: seq<string>, values: map<string, string>)
    requires AllCompilable(ss)
    requires |keys| == |ss| && (forall i, j :: 0 <= i < j < |keys| ==> keys[i] != keys[j])
    requires forall k :: k in values ==> NewlineFree(values[k])
    ensures AllPresent(ss)
    ensures CompileValues(ss).Ok? && |CompileValues(ss).value| == |ss|
    ensures ValuesHold(CompileValues(ss).value, keys, values) <==>
            forall i :: 0 <= i < |ss| ==> keys[i] in values && Holds(ss[i], values[keys[i]])
  {
    ValuesCompiled(ss);
    var ms := CompileValues(ss).value;
    forall i | 0 <= i < |ss|
      ensures FirstOf(keys, i)
      ensures ValueHolds(ms[i], keys[i], values) <==> keys[i] in values && Holds(ss[i], values[keys[i]])
    {
      assert ss[i] in ss;
      CompiledValueExact(ss[i], keys[i], values);
    }
  }

  function KeysFor(kind: SourceType, ms: seq<ValueMatch>): (r: seq<string>)
    ensures |r| == |ms|
  {
    if kind.Header? then HeaderKeys(ms) else QueryKeys(ms)
  }

  function ValuesFor(kind: SourceType, req: Request): map<string, string> {
    if kind.Header? then req.headers else req.query
  }

  lemma KeysDistinct(sels: seq<Selector>, kind: SourceType)
    requires SelectorsOk(sels) && HeadersApart(sels) && (kind.Header? || kind.QueryParam?)
    ensures var ss := OfKind(sels, kind); forall i, j :: 0 <= i < j < |ss| ==> KeyOf(ss[i]) != KeyOf(ss[j])
  {
    forall i, j | 0 <= i < j < |sels| && sels[i].source.kind == kind && sels[j].source.kind == kind
      ensures KeyOf(sels[i]) != KeyOf(sels[j])
    {
      assert Compatible(sels[i], sels[j]);
    }
    OfKindPairwise(sels, kind, (s, t) => KeyOf(s) != KeyOf(t));
  }

  lemma KindCompiled(sels: seq<Selector>, kind: SourceType)
    requires SelectorsOk(sels) && (kind.Header? || kind.QueryParam?)
    ensures var ss := OfKind(sels, kind);
      && AllCompilable(ss) && AllPresent(ss) && CompileValues(ss).Ok? && |CompileValues(ss).value| == |ss|
      && forall i :: 0 <= i < |ss| ==> KeysFor(kind, CompileValues(ss).value)[i] == KeyOf(ss[i])
  {
    var ss := OfKind(sels, kind);
    OfKindCompilable(sels, kind);
    ValuesCompiled(ss);
    var ms := CompileValues(ss).value;
    forall i | 0 <= i < |ss| ensures ms[i].name == ss[i].source.name && ss[i].source.kind == kind {
      assert ss[i] in ss;
    }
  }

  lemma KindMeaning(sels: seq<Selector>, kind: SourceType, req: Request)
    requires SelectorsOk(sels) && HeadersApart(sels) && RequestPlain(req) && (kind.Header? || kind.QueryParam?)
    ensures CompileValues(OfKind(sels, kind)).Ok?
    ensures var ms := CompileValues(OfKind(sels, kind)).value;
      ValuesHold(ms, KeysFor(kind, ms), ValuesFor(kind, req)) <==>
      forall s :: s in sels && s.source.kind == kind ==> SelectorHolds(s, req)
  {
    var ss := OfKind(sels, kind);
    KindCompiled(sels, kind);
    KeysDistinct(sels, kind);
    var keys := KeysFor(kind, CompileValues(ss).value);
    forall i, j | 0 <= i < j < |keys| ensures keys[i] != keys[j] {
      assert KeyOf(ss[i]) != KeyOf(ss[j]);
    }
    ValuesMeaning(ss, keys, ValuesFor(kind, req));
    KindHolds(sels, ss, kind, req, keys);
  }

  lemma KindHolds(sels: seq<Selector>, ss: seq<Selector>, kind: SourceType, req: Request, keys: seq<string>)
    requires (kind.Header? || kind.QueryParam?) && |keys| == |ss|
    requires forall s :: s in ss <==> s in sels && s.source.kind == kind
    requires forall i :: 0 <= i < |ss| ==> keys[i] == KeyOf(ss[i])
    ensures var values := ValuesFor(kind, req);
      (forall i :: 0 <= i < |ss| ==> keys[i] in values && Holds(ss[i], values[keys[i]]))
      <==> forall s :: s in sels && s.source.kind == kind ==> SelectorHolds(s, req)
  {
    var values := ValuesFor(kind, req);
    forall i | 0 <= i < |ss|
      ensures keys[i] in values && Holds(ss[i], values[keys[i]]) <==> SelectorHolds(ss[i], req)
    {
      assert ss[i] in ss;
    }
    if forall i :: 0 <= i < |ss| ==> keys[i] in values && Holds(ss[i], values[keys[i]]) {
      forall s | s in sels && s.source.kind == kind ensures SelectorHolds(s, req) {
        var i :| 0 <= i < |ss| && ss[i] == s;
      }
    }
    if forall s :: s in sels && s.source.kind == kind ==> SelectorHolds(s, req) {
      forall i | 0 <= i < |ss| ensures SelectorHolds(ss[i], req) {
        assert ss[i] in ss;
      }
    }
  }

  // ----- path captures

  /** A selector together with what is known of its compiled body. */
  predicate Ready(s: Selector) {
    && Compilable(s) && SelectorRegexBody(s).Ok?
    && Parse(SelectorRegexBody(s).value).Some? && Insertable(Parse(SelectorRegexBody(s).value).value)
  }

  predicate AllReady(ss: seq<Selector>) {
    forall s :: s in ss ==> Ready(s)
  }

  lemma AreReady(ss: seq<Selector>)
    requires AllCompilable(ss)
    ensures AllReady(ss)
  {
    forall s | s in ss ensures Ready(s) {
      SelectorBodyLang(s, "", 0, 0);
    }
  }

  function PartOf(s: Selector): PathPart
    requires Ready(s)
  {
    PathPart(s.source.name, SelectorRegexBody(s).value)
  }

  function Parts(ss: seq<Selector>): (r: seq<PathPart>)
    requires AllReady(ss)
    ensures |r| == |ss|
    ensures forall i :: 0 <= i < |ss| ==> Ready(ss[i]) && r[i] == PartOf(ss[i])
  {
    seq(|ss|, i requires 0 <= i < |ss| => assert ss[i] in ss; PartOf(ss[i]))
  }

  /** The path selectors, as constraints on the captures they name. */
  function PathCaps(ss: seq<Selector>): Caps {
    if ss == [] then map[]
    else PathCaps(ss[..|ss| - 1])[ss[|ss| - 1].source.name := v => Holds(ss[|ss| - 1], v)]
  }

  /** Some stretch of the path matches the path regex, reading each selected capture as its selector. */
  ghost predicate PathHolds(sels: seq<Selector>, req: Request) {
    var ss := OfKind(sels, PathCapture);
    ss == [] || (Parse(ss[0].source.pathRegex).Some?
                 && Found(Parse(ss[0].source.pathRegex).value, PathCaps(ss), req.path))
  }

  function SelectedNames(ss: seq<Selector>): set<string> {
    set s | s in ss :: s.source.name
  }

  /** What compilation needs of the path regex beyond validation: a search for `(?P<name>` finds each
      selected capture, and none of them lies inside another. */
  predicate PathShape(sels: seq<Selector>) {
    var ss := OfKind(sels, PathCapture);
    ss != [] && Parse(ss[0].source.pathRegex).Some? ==>
      var b := Parse(ss[0].source.pathRegex).value;
      (forall n :: n in SelectedNames(ss) ==> Reachable(b, n)) && Apart(b, SelectedNames(ss))
  }

  lemma {:induction false} CapturesAsParts(pattern: string, ss: seq<Selector>)
    requires AllReady(ss) && AllPresent(ss)
    ensures CompileCaptures(pattern, ss) == CompilePathFrom(pattern, Parts(ss))
    decreases |ss|
  {
    if ss != [] {
      var parts := Parts(ss);
      assert parts[0] == PartOf(ss[0]);
      assert parts[1..] == Parts(ss[1..]) by {
        forall i | 0 <= i < |ss| - 1 ensures parts[1..][i] == Parts(ss[1..])[i] {
          assert ss[1..][i] == ss[i + 1];
        }
      }
      assert ss[0] in ss;
      var next := Replaced(pattern, parts[0].name, parts[0].text);
      if next.Ok? {
        CapturesAsParts(next.value, ss[1..]);
      }
    }
  }

  lemma PartsParse(ss: seq<Selector>)
    requires AllReady(ss)
    ensures forall p :: p in Parts(ss) ==> PartOk(p)
  {
  }

  lemma CapAgrees(s: Selector, path: string, i: nat, j: nat)
    requires Ready(s) && NewlineFree(path) && i <= j <= |path|
    ensures MatchBody(Parse(PartOf(s).text).value, NO_CAPS, path, i, j) <==> Holds(s, path[i..j])
  {
    SelectorBodyLang(s, path, i, j);
  }

  lemma AgreeStep(m: map<string, Body>, caps: Caps, path: string, s: Selector)
    requires Agree(m, caps, path) && Ready(s) && NewlineFree(path)
    ensures Agree(m[s.source.name := Parse(PartOf(s).text).value], caps[s.source.name := v => Holds(s, v)], path)
  {
    forall i: nat, j: nat | i <= j <= |path|
      ensures MatchBody(Parse(PartOf(s).text).value, NO_CAPS, path, i, j) <==> Holds(s, path[i..j])
    {
      CapAgrees(s, path, i, j);
    }
  }

  /** Each compiled body matches the captured texts its selector holds for. */
  lemma {:induction false} PathAgrees(ss: seq<Selector>, path: string)
    requires AllReady(ss) && NewlineFree(path)
    requires forall p | p in Parts(ss) :: Parse(p.text).Some?
    ensures Agree(PartBodies(Parts(ss)), PathCaps(ss), path)
  {
    if ss != [] {
      var n := |ss| - 1;
      var front, last := ss[..n], ss[n];
      assert last in ss && forall s :: s in front ==> s in ss;
      PartsParse(front);
      PathAgrees(front, path);
      assert Parts(ss)[..n] == Parts(front);
      AgreeStep(PartBodies(Parts(front)), PathCaps(front), path, last);
    }
  }

  lemma PathReady(sels: seq<Selector>)
    requires SelectorsOk(sels)
    ensures AllReady(OfKind(sels, PathCapture))
  {
    OfKindCompilable(sels, PathCapture);
    AreReady(OfKind(sels, PathCapture));
  }

  lemma PartNamesSelected(ss: seq<Selector>)
    requires AllReady(ss)
    ensures PartNames(Parts(ss)) == SelectedNames(ss)
  {
    var parts := Parts(ss);
    forall p | p in parts ensures p.name in SelectedNames(ss) {
      var i :| 0 <= i < |parts| && parts[i] == p;
      assert ss[i] in ss;
    }
    forall n | n in SelectedNames(ss) ensures n in PartNames(parts) {
      var s :| s in ss && s.source.name == n;
      var i :| 0 <= i < |ss| && ss[i] == s;
      assert parts[i] in parts;
    }
  }

  lemma PathPartsOk(sels: seq<Selector>)
    requires SelectorsOk(sels) && PathShape(sels)
    requires AllReady(OfKind(sels, PathCapture)) && OfKind(sels, PathCapture) != []
    ensures var ss := OfKind(sels, PathCapture);
      Parse(ss[0].source.pathRegex).Some? && PathOk(Parse(ss[0].source.pathRegex).value, Parts(ss))
  {
    var ss := OfKind(sels, PathCapture);
    assert ss[0] in ss;
    assert SourceOk(ss[0].source);
    var b := Parse(ss[0].source.pathRegex).value;
    ParseSound(ss[0].source.pathRegex);
    GroupsCover(b);
    PartsDistinct(sels);
    PartsParse(ss);
    PartNamesSelected(ss);
    assert forall p | p in Parts(ss) :: p.name in PartNames(Parts(ss));
  }

  lemma PartsDistinct(sels: seq<Selector>)
    requires SelectorsOk(sels)
    ensures var ss := OfKind(sels, PathCapture);
      forall i, j :: 0 <= i < j < |ss| ==> ss[i].source.name != ss[j].source.name
  {
    forall i, j | 0 <= i < j < |sels| && sels[i].source.kind.PathCapture? && sels[j].source.kind.PathCapture?
      ensures sels[i].source.name != sels[j].source.name
    {
      assert Compatible(sels[i], sels[j]);
    }
    OfKindPairwise(sels, PathCapture, (s: Selector, t: Selector) => s.source.name != t.source.name);
  }

  lemma PathMeaning(sels: seq<Selector>, req: Request)
    requires SelectorsOk(sels) && PathShape(sels) && RequestPlain(req)
    ensures CompilePathRegex(sels).Ok?
    ensures OfKind(sels, PathCapture) != [] ==>
      CompilePathRegex(sels).value != "" && (Matches(CompilePathRegex(sels).value, req.path) <==> PathHolds(sels, req))
  {
    var ss := OfKind(sels, PathCapture);
    if ss != [] {
      PathReady(sels);
      PathPartsOk(sels);
      PartsParse(ss);
      var pattern := ss[0].source.pathRegex;
      var b := Parse(pattern).value;
      ParseSound(pattern);
      CapturesAsParts(pattern, ss);
      PathAgrees(ss, req.path);
      CompiledPathMatches(b, Parts(ss), PathCaps(ss), req.path);
      CapturesNonempty(pattern, ss);
    }
  }

  lemma {:induction false} CapturesNonempty(pattern: string, ss: seq<Selector>)
    requires AllPresent(ss) && CompileCaptures(pattern, ss).Ok? && ss != []
    ensures CompileCaptures(pattern, ss).value != ""
    decreases |ss|
  {
    assert ss[0] in ss;
    var next := Replaced(pattern, ss[0].source.name, SelectorRegexBody(ss[0]).value);
    if |ss| > 1 {
      CapturesNonempty(next.value, ss[1..]);
    }
  }

  /** A placement that compiles never becomes a catch-all rule. */
  lemma NeverCatchAll(p: Placement)
    requires SpecOk(p.spec) && CompiledSpec(p).Ok?
    ensures |BuildMatches(CompiledSpec(p).value)| == 1
  {
    var sels := p.spec.selectors;
    var s := sels[0];
    assert s in sels;
    SelectorCompilable(s);
    match s.source.kind
    case PathCapture =>
      assert s in OfKind(sels, PathCapture);
      var ss := OfKind(sels, PathCapture);
      CapturesNonempty(ss[0].source.pathRegex, ss);
    case Header => KindNonempty(sels, Header);
    case QueryParam => KindNonempty(sels, QueryParam);
  }

  lemma KindNonempty(sels: seq<Selector>, kind: SourceType)
    requires SelectorsOk(sels) && exists s :: s in sels && s.source.kind == kind
    ensures CompileValues(OfKind(sels, kind)).Ok? && CompileValues(OfKind(sels, kind)).value != []
  {
    var ss := OfKind(sels, kind);
    var s :| s in sels && s.source.kind == kind;
    assert s in ss;
    OfKindCompilable(sels, kind);
    ValuesCompiled(ss);
  }

  /** Compilation preserves meaning: the rule built from a valid placement applies to a request exactly
      when all its selectors hold. */
  lemma CompilationPreservesMeaning(p: Placement, req: Request)
    requires SpecOk(p.spec) && HeadersApart(p.spec.selectors) && PathShape(p.spec.selectors) && RequestPlain(req)
    ensures CompiledSpec(p).Ok?
    ensures RuleHolds(BuildMatches(CompiledSpec(p).value), req) <==>
            PathHolds(p.spec.selectors, req) && forall s :: s in p.spec.selectors ==> SelectorHolds(s, req)
  {
    var sels := p.spec.selectors;
    PathMeaning(sels, req);
    KindMeaning(sels, Header, req);
    KindMeaning(sels, QueryParam, req);
    NeverCatchAll(p);
    OneRule(BuildMatches(CompiledSpec(p).value)[0], req);
    AllKinds(sels, req);
  }

  lemma OneRule(m: RouteMatch, req: Request)
    requires m.path.Some? ==> m.path.value.kind.RegularExpression?
    ensures RuleHolds([m], req) <==> MatchHolds(m, req)
  {
    assert m in [m];
  }

  lemma AllKinds(sels: seq<Selector>, req: Request)
    ensures (forall s :: s in sels ==> SelectorHolds(s, req)) <==>
      && (forall s :: s in sels && s.source.kind == Header ==> SelectorHolds(s, req))
      && (forall s :: s in sels && s.source.kind == QueryParam ==> SelectorHolds(s, req))
  {
  }

  /** A rule that applies needs each header and query selector, for any request at all. */
  lemma RuleNeedsSelector(p: Placement, s: Selector, req: Request)
    requires SpecOk(p.spec) && HeadersApart(p.spec.selectors) && CompiledSpec(p).Ok?
    requires s in p.spec.selectors && (s.source.kind.Header? || s.source.kind.QueryParam?)
    requires RuleHolds(BuildMatches(CompiledSpec(p).value), req)
    ensures SelectorHolds(s, req)
  {
    var sels, kind := p.spec.selectors, s.source.kind;
    var ss := OfKind(sels, kind);
    NeverCatchAll(p);
    OneRule(BuildMatches(CompiledSpec(p).value)[0], req);
    KindCompiled(sels, kind);
    KeysDistinct(sels, kind);
    var ms := CompileValues(ss).value;
    var keys := KeysFor(kind, ms);
    assert ValuesHold(ms, keys, ValuesFor(kind, req));
    assert s in ss;
    var i :| 0 <= i < |ss| && ss[i] == s;
    ValueNeeded(ss, keys, ValuesFor(kind, req), i);
  }

  lemma ValueNeeded(ss: seq<Selector>, keys: seq<string>, values: map<string, string>, i: nat)
    requires AllCompilable(ss) && AllPresent(ss) && CompileValues(ss).Ok? && |CompileValues(ss).value| == |ss|
    requires |keys| == |ss| && (forall j :: 0 <= j < |ss| ==> keys[j] == KeyOf(ss[j]))
    requires forall j, k :: 0 <= j < k < |ss| ==> KeyOf(ss[j]) != KeyOf(ss[k])
    requires i < |ss| && ValuesHold(CompileValues(ss).value, keys, values)
    ensures keys[i] in values && Holds(ss[i], values[keys[i]])
  {
    ValuesCompiled(ss);
    assert ss[i] in ss;
    assert FirstOf(keys, i);
    CompiledValueExact(ss[i], keys[i], values);
  }
}
