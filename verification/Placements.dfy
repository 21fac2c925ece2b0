/** CellPlacement resources and their validation. */
module Placements {
  import opened Basics
  import opened Decimal
  import opened RegexSyntax
  import opened PathCompiler
  import opened RangeCompiler

  datatype SourceType = Header | QueryParam | PathCapture | OtherSource(text: string)

  datatype Source = Source(kind: SourceType, name: string, pathRegex: string)

  datatype Operator = Exact | Prefix | Suffix | Range | OtherOperator(text: string)

  datatype NumericRange = NumericRange(start: string, end: string)

  datatype Selector = Selector(source: Source, operator: Operator, value: string, range: Option<NumericRange>)

  datatype BackendRef = BackendRef(cellRef: string, weight: Option<int>)

  datatype PlacementSpec = PlacementSpec(
    routerRef: string,
    listenerNames: seq<string>,
    hostnames: seq<string>,
    selectors: seq<Selector>,
    destinations: seq<BackendRef>)

  datatype Placement = Placement(name: string, spec: PlacementSpec)

  datatype Verdict = Accept | Reject(reason: string)

  /** `unicode.IsSpace`. */
  predicate IsTrimmed(c: char) {
    || '\t' <= c <= '\r' || c == ' ' || c == 0x85 as char || c == 0xA0 as char || c == 0x1680 as char
    || 0x2000 as char <= c <= 0x200a as char || c == 0x2028 as char || c == 0x2029 as char
    || c == 0x202f as char || c == 0x205f as char || c == 0x3000 as char
  }

  /** `strings.TrimSpace(s) == ""`. */
  predicate Blank(s: string) {
    forall i :: 0 <= i < |s| ==> IsTrimmed(s[i])
  }

  // ----- named groups, as Go's regexp package counts them

  function AtomGroups(a: Atom): set<string> {
    match a
    case Group(h, b) => (if h.Named? || h.Short? then {h.name} else {}) + Groups(b)
    case _ => {}
  }

  function Groups(b: Body): set<string> {
    match b
    case Done => {}
    case Or(rest) => Groups(rest)
    case Then(a, q, rest) => AtomGroups(a) + Groups(rest)
  }

  predicate AtomGroupsOnce(a: Atom) {
    a.Group? ==> GroupsOnce(a.body) && (a.head.Named? || a.head.Short? ==> a.head.name !in Groups(a.body))
  }

  predicate GroupsOnce(b: Body) {
    match b
    case Done => true
    case Or(rest) => GroupsOnce(rest)
    case Then(a, q, rest) => AtomGroupsOnce(a) && GroupsOnce(rest) && AtomGroups(a) !! Groups(rest)
  }

  lemma {:induction false} GroupsCover(b: Body)
    ensures Captures(b) <= Groups(b)
    ensures GroupsOnce(b) ==> OnceEach(b)
  {
    match b
    case Done =>
    case Or(rest) => GroupsCover(rest);
    case Then(a, q, rest) =>
      if a.Group? {
        GroupsCover(a.body);
        assert AtomGroupsOnce(a) ==> AtomOnce(a);
      }
      GroupsCover(rest);
  }

  /** `pathRegexHasNamedCapture`: the regex compiles and either spelling names the group. */
  predicate HasNamedCapture(pathRegex: string, name: string) {
    Parse(pathRegex).Some? && GroupsOnce(Parse(pathRegex).value) && name in Groups(Parse(pathRegex).value)
  }

  // ----- validation

  function ValidateRange(r: NumericRange): (v: Verdict)
    ensures v.Accept? <==> RangeOk(r.start, r.end)
  {
    if !Canonical(r.start) then Reject("range start must be an unsigned decimal")
    else if !Canonical(r.end) then Reject("range end must be an unsigned decimal")
    else if ParseUint(r.start).None? then Reject("range start must fit into uint64")
    else if ParseUint(r.end).None? then Reject("range end must fit into uint64")
    else if ParseUint(r.start).value > ParseUint(r.end).value
    then Reject("range start must be less than or equal to range end")
    else Accept
  }

  predicate SourceOk(s: Source) {
    && !Blank(s.name)
    && (s.kind.Header? || s.kind.QueryParam? || s.kind.PathCapture?)
    && (!s.kind.PathCapture? ==> s.pathRegex == "")
    && (s.kind.PathCapture? ==> !Blank(s.pathRegex) && HasNamedCapture(s.pathRegex, s.name))
  }

  function ValidateSource(s: Source): (v: Verdict)
    ensures v.Accept? <==> SourceOk(s)
  {
    if Blank(s.name) then Reject("source name is required")
    else
      match s.kind
      case PathCapture =>
        if Blank(s.pathRegex) then Reject("pathRegex is required for PathCapture selectors")
        else if !HasNamedCapture(s.pathRegex, s.name) then Reject("pathRegex must contain named capture")
        else Accept
      case OtherSource(_) => Reject("unsupported selector source type")
      case _ =>
        if s.pathRegex != "" then Reject("pathRegex is only supported for PathCapture selectors") else Accept
  }

  predicate SelectorOk(s: Selector) {
    && SourceOk(s.source)
    && !s.operator.OtherOperator?
    && (s.operator.Range? ==> s.range.Some? && RangeOk(s.range.value.start, s.range.value.end) && s.value == "")
    && (!s.operator.Range? ==> s.range.None? && s.value != "")
  }

  function ValidateSelector(s: Selector): (v: Verdict)
    ensures v.Accept? <==> SelectorOk(s)
  {
    if ValidateSource(s.source).Reject? then ValidateSource(s.source)
    else
      match s.operator
      case OtherOperator(_) => Reject("unsupported selector operator")
      case Range =>
        if s.range.None? then Reject("range is required for Range selectors")
        else if ValidateRange(s.range.value).Reject? then ValidateRange(s.range.value)
        else if s.value != "" then Reject("value must not be set for Range selectors")
        else Accept
      case _ =>
        if s.value == "" then Reject("value is required")
        else if s.range.Some? then Reject("range must not be set")
        else Accept
  }

  function SourceTypeText(k: SourceType): string {
    match k
    case Header => "Header"
    case QueryParam => "QueryParam"
    case PathCapture => "PathCapture"
    case OtherSource(text) => text
  }

  /** `SourceKey`. */
  function SourceKey(s: Source): string {
    if s.kind.PathCapture? then SourceTypeText(s.kind) + ":" + s.name + ":" + s.pathRegex
    else SourceTypeText(s.kind) + ":" + s.name
  }

  /** Two selectors of one placement: different sources, and one path regex between them. */
  predicate Compatible(s: Selector, t: Selector) {
    && SourceKey(s.source) != SourceKey(t.source)
    && (s.source.kind.PathCapture? && t.source.kind.PathCapture? ==> s.source.pathRegex == t.source.pathRegex)
  }

  predicate SelectorsOk(sels: seq<Selector>) {
    && (forall i :: 0 <= i < |sels| ==> SelectorOk(sels[i]))
    && (forall i, j :: 0 <= i < j < |sels| ==> Compatible(sels[i], sels[j]))
  }

  /** What a valid placement specification is. */
  predicate SpecOk(s: PlacementSpec) {
    !Blank(s.routerRef) && s.selectors != [] && s.destinations != [] && SelectorsOk(s.selectors)
  }

  /** `CellPlacementSpec.Validate`: one pass with a set of seen sources and the first path regex. */
  method Validate(s: PlacementSpec) returns (v: Verdict)
    ensures v.Accept? <==> SpecOk(s)
  {
    if Blank(s.routerRef) {
      return Reject("routerRef is required");
    }
    if |s.selectors| == 0 {
      return Reject("at least one selector is required");
    }
    if |s.destinations| == 0 {
      return Reject("at least one destination is required");
    }
    var seenSources: set<string> := {};
    var pathRegex := "";
    for idx := 0 to |s.selectors|
      invariant Scanned(s.selectors, idx, seenSources, pathRegex)
    {
      var selector := s.selectors[idx];
      var verdict := ValidateSelector(selector);
      if verdict.Reject? {
        return verdict;
      }
      if Fits(selector, seenSources, pathRegex) {
        ScanExtend(s.selectors, idx, seenSources, pathRegex);
      } else {
        ScanConflict(s.selectors, idx, seenSources, pathRegex);
      }
      var key := SourceKey(selector.source);
      if key in seenSources {
        return Reject("selector duplicates source");
      }
      seenSources := seenSources + {key};
      if selector.source.kind.PathCapture? {
        if pathRegex == "" {
          pathRegex := selector.source.pathRegex;
        } else if pathRegex != selector.source.pathRegex {
          return Reject("all PathCapture selectors must share the same pathRegex");
        }
      }
    }
    return Accept;
  }

  /** What the loop knows after `n` selectors. */
  ghost predicate Scanned(sels: seq<Selector>, n: nat, seenSources: set<string>, pathRegex: string)
    requires n <= |sels|
  {
    && FirstOk(sels, n)
    && FirstCompatible(sels, n)
    && KeysSeen(sels, n, seenSources)
    && PathSeen(sels, n, pathRegex)
  }

  predicate FirstOk(sels: seq<Selector>, n: nat)
    requires n <= |sels|
  {
    forall i :: 0 <= i < n ==> SelectorOk(sels[i])
  }

  predicate FirstCompatible(sels: seq<Selector>, n: nat)
    requires n <= |sels|
  {
    forall i, j :: 0 <= i < j < n ==> Compatible(sels[i], sels[j])
  }

  lemma OkExtends(sels: seq<Selector>, n: nat)
    requires n < |sels| && FirstOk(sels, n) && SelectorOk(sels[n])
    ensures FirstOk(sels, n + 1)
  {
  }

  lemma PairCompatible(sels: seq<Selector>, n: nat, i: nat, j: nat)
    requires i < j <= n < |sels| && FirstCompatible(sels, n) && forall k :: 0 <= k < n ==> Compatible(sels[k], sels[n])
    ensures Compatible(sels[i], sels[j])
  {
    if j < n {
      assert Compatible(sels[i], sels[j]);
    } else {
      assert Compatible(sels[i], sels[n]);
    }
  }

  lemma CompatibleExtends(sels: seq<Selector>, n: nat)
    requires n < |sels| && FirstCompatible(sels, n) && forall i :: 0 <= i < n ==> Compatible(sels[i], sels[n])
    ensures FirstCompatible(sels, n + 1)
  {
    forall i, j | 0 <= i < j < n + 1 ensures Compatible(sels[i], sels[j]) {
      PairCompatible(sels, n, i, j);
    }
  }

  ghost predicate KeysSeen(sels: seq<Selector>, n: nat, seenSources: set<string>)
    requires n <= |sels|
  {
    && (forall i :: 0 <= i < n ==> SourceKey(sels[i].source) in seenSources)
    && (forall k :: k in seenSources ==> exists i :: 0 <= i < n && SourceKey(sels[i].source) == k)
  }

  predicate PathSeen(sels: seq<Selector>, n: nat, pathRegex: string)
    requires n <= |sels|
  {
    && (forall i :: 0 <= i < n && sels[i].source.kind.PathCapture? ==> sels[i].source.pathRegex == pathRegex != "")
    && (pathRegex != "" ==> exists i :: 0 <= i < n && sels[i].source.kind.PathCapture?)
  }

  predicate Fits(s: Selector, seenSources: set<string>, pathRegex: string) {
    && SourceKey(s.source) !in seenSources
    && (s.source.kind.PathCapture? && pathRegex != "" ==> pathRegex == s.source.pathRegex)
  }

  lemma ScanConflict(sels: seq<Selector>, n: nat, seenSources: set<string>, pathRegex: string)
    requires n < |sels| && Scanned(sels, n, seenSources, pathRegex) && !Fits(sels[n], seenSources, pathRegex)
    ensures !SelectorsOk(sels)
  {
    var i :| 0 <= i < n && !Compatible(sels[i], sels[n]);
  }

  lemma PathRegexSet(s: Selector)
    requires SelectorOk(s) && s.source.kind.PathCapture?
    ensures s.source.pathRegex != ""
  {
    assert Blank("");
  }

  lemma SeenExtends(sels: seq<Selector>, n: nat, seenSources: set<string>)
    requires n < |sels| && KeysSeen(sels, n, seenSources)
    ensures KeysSeen(sels, n + 1, seenSources + {SourceKey(sels[n].source)})
  {
    forall k | k in seenSources + {SourceKey(sels[n].source)}
      ensures exists i :: 0 <= i < n + 1 && SourceKey(sels[i].source) == k
    {
      if k in seenSources {
        var i :| 0 <= i < n && SourceKey(sels[i].source) == k;
      } else {
        assert SourceKey(sels[n].source) == k;
      }
    }
  }

  lemma PathExtends(sels: seq<Selector>, n: nat, pathRegex: string)
    requires n < |sels| && PathSeen(sels, n, pathRegex) && SelectorOk(sels[n])
    requires sels[n].source.kind.PathCapture? && pathRegex != "" ==> pathRegex == sels[n].source.pathRegex
    ensures PathSeen(sels, n + 1, if sels[n].source.kind.PathCapture? then sels[n].source.pathRegex else pathRegex)
  {
    if sels[n].source.kind.PathCapture? {
      PathRegexSet(sels[n]);
    }
  }

  lemma ScanExtend(sels: seq<Selector>, n: nat, seenSources: set<string>, pathRegex: string)
    requires n < |sels| && Scanned(sels, n, seenSources, pathRegex) && SelectorOk(sels[n])
    requires Fits(sels[n], seenSources, pathRegex)
    ensures Scanned(sels, n + 1, seenSources + {SourceKey(sels[n].source)},
                    if sels[n].source.kind.PathCapture? then sels[n].source.pathRegex else pathRegex)
  {
    OkExtends(sels, n);
    AllCompatible(sels, n, seenSources, pathRegex);
    CompatibleExtends(sels, n);
    SeenExtends(sels, n, seenSources);
    PathExtends(sels, n, pathRegex);
  }

  lemma AllCompatible(sels: seq<Selector>, n: nat, seenSources: set<string>, pathRegex: string)
    requires n < |sels| && KeysSeen(sels, n, seenSources) && PathSeen(sels, n, pathRegex)
    requires Fits(sels[n], seenSources, pathRegex)
    ensures forall i :: 0 <= i < n ==> Compatible(sels[i], sels[n])
  {
    forall i | 0 <= i < n ensures Compatible(sels[i], sels[n]) {
      assert SourceKey(sels[i].source) in seenSources;
    }
  }
}
