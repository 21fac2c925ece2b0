/**
 What a regex text means. `Matches` is RE2's unanchored search: some stretch of the value
 matches the parsed tree, with `^` and `$` tied to the ends of the value and `.` refusing a newline.
 A `Caps` map replaces the body of a named capture by a constraint on the captured text; the
 operator's path compilation is proved against that reading.
 */
module RegexMatch {
  import opened Basics
  import opened Decimal
  import opened RegexSyntax

  /** Constraints on named captures. The empty map is the ordinary meaning. */
  type Caps = map<string, string -> bool>

  const NO_CAPS: Caps := map[]

  predicate PerlMember(p: char, c: char) {
    match p
    case 'd' => IsDigit(c)
    case 'D' => !IsDigit(c)
    case 'w' => IsWord(c)
    case 'W' => !IsWord(c)
    case 's' => IsSpace(c)
    case 'S' => !IsSpace(c)
    case _ => c == p
  }

  predicate IsSpace(c: char) {
    c == ' ' || c == '\t' || c == '\n' || c == '\r' || c == 12 as char
  }

  /** Membership in the items of a class, reading `a-b` as an inclusive range. */
  predicate ClassMember(toks: seq<ClassTok>, c: char) {
    if toks == [] then false
    else if |toks| >= 3 && toks[1] == Raw('-') && Single(toks[0]) && Single(toks[2])
    then toks[0].c <= c <= toks[2].c || ClassMember(toks[3..], c)
    else (if toks[0].Raw? then c == toks[0].c else PerlMember(toks[0].c, c)) || ClassMember(toks[1..], c)
  }

  predicate InClass(toks: seq<ClassTok>, c: char) {
    if toks != [] && toks[0] == Raw('^') then !ClassMember(toks[1..], c) else ClassMember(toks, c)
  }

  /** Atoms that consume exactly one character. */
  predicate OneChar(a: Atom) {
    a.Lit? || a.Esc? || a.Dot? || a.Set?
  }

  predicate CharOk(a: Atom, c: char)
    requires OneChar(a)
  {
    match a
    case Lit(x) => c == x
    case Esc(x) => PerlMember(x, c)
    case Dot => c != '\n'
    case Set(toks) => InClass(toks, c)
  }

  /** A place to split `s[i..j]`; it also triggers the quantifiers below. */
  predicate Cut(i: nat, k: nat, j: nat) {
    i <= k <= j
  }

  ghost predicate MatchAtom(a: Atom, caps: Caps, s: string, i: nat, j: nat)
    requires i <= j <= |s|
    decreases a, 0, 0
  {
    match a
    case Bol => i == j == 0
    case Eol => i == j == |s|
    case Group(h, b) =>
      if h.Named? && h.name in caps then caps[h.name](s[i..j]) else MatchBody(b, caps, s, i, j)
    case _ => j == i + 1 && CharOk(a, s[i])
  }

  ghost predicate MatchStar(a: Atom, caps: Caps, s: string, i: nat, j: nat)
    requires i <= j <= |s|
    decreases a, 1, j - i
  {
    i == j ||
    exists k: nat {:trigger Cut(i, k, j)} | Cut(i, k, j) && i < k ::
      MatchAtom(a, caps, s, i, k) && MatchStar(a, caps, s, k, j)
  }

  ghost predicate MatchTimes(a: Atom, n: nat, caps: Caps, s: string, i: nat, j: nat)
    requires i <= j <= |s|
    decreases a, 1, n
  {
    if n == 0 then i == j
    else
      exists k: nat {:trigger Cut(i, k, j)} | Cut(i, k, j) ::
        MatchAtom(a, caps, s, i, k) && MatchTimes(a, n - 1, caps, s, k, j)
  }

  ghost predicate MatchQuant(a: Atom, q: Quant, caps: Caps, s: string, i: nat, j: nat)
    requires i <= j <= |s|
    decreases a, 2, 0
  {
    match q
    case Once => MatchAtom(a, caps, s, i, j)
    case Opt => i == j || MatchAtom(a, caps, s, i, j)
    case Star => MatchStar(a, caps, s, i, j)
    case Plus =>
      exists k: nat {:trigger Cut(i, k, j)} | Cut(i, k, j) ::
        MatchAtom(a, caps, s, i, k) && MatchStar(a, caps, s, k, j)
    case Times(n) => MatchTimes(a, n, caps, s, i, j)
  }

  /** The branch up to the first `|`. */
  ghost predicate MatchBranch(b: Body, caps: Caps, s: string, i: nat, j: nat)
    requires i <= j <= |s|
    decreases b, 0, 0
  {
    match b
    case Then(a, q, rest) =>
      exists k: nat {:trigger Cut(i, k, j)} | Cut(i, k, j) ::
        MatchQuant(a, q, caps, s, i, k) && MatchBranch(rest, caps, s, k, j)
    case _ => i == j
  }

  /** What follows the first `|`. */
  function AfterOr(b: Body): (r: Option<Body>)
    ensures r.Some? ==> r.value < b
  {
    match b
    case Done => None
    case Or(rest) => Some(rest)
    case Then(_, _, rest) => AfterOr(rest)
  }

  ghost predicate MatchBody(b: Body, caps: Caps, s: string, i: nat, j: nat)
    requires i <= j <= |s|
    decreases b, 1, 0
  {
    || MatchBranch(b, caps, s, i, j)
    || (AfterOr(b).Some? && MatchBody(AfterOr(b).value, caps, s, i, j))
  }

  /** `s[i..j]` is in the language of the text. */
  ghost predicate Lang(t: string, s: string, i: nat, j: nat)
    requires i <= j <= |s|
  {
    Parse(t).Some? && MatchBody(Parse(t).value, NO_CAPS, s, i, j)
  }

  ghost predicate Found(b: Body, caps: Caps, s: string) {
    exists i: nat, j: nat | i <= j <= |s| :: MatchBody(b, caps, s, i, j)
  }

  /** The meaning of a regular-expression match on a request value. */
  ghost predicate Matches(t: string, s: string) {
    Parse(t).Some? && Found(Parse(t).value, NO_CAPS, s)
  }

  // ----- branch texts

  predicate OrFree(b: Body) {
    AfterOr(b).None?
  }

  /** A text that parses to a single branch. */
  predicate BranchText(t: string) {
    Parse(t).Some? && OrFree(Parse(t).value)
  }

  lemma EmptyText()
    ensures BranchText("") && Parse("") == Some(Done)
    ensures forall s: string, i: nat, j: nat | i <= j <= |s| :: Lang("", s, i, j) <==> i == j
  {
    RoundTrip(Done);
  }

  /** Putting an atom in front of a branch text. */
  lemma AtomText(a: Atom, q: Quant, t: string)
    requires AtomOk(a) && QuantOk(q) && BranchText(t)
    ensures BranchText(PrintAtom(a) + (PrintQuant(q) + t))
    ensures Parse(PrintAtom(a) + (PrintQuant(q) + t)) == Some(Then(a, q, Parse(t).value))
  {
    ParseSound(t);
    RoundTrip(Then(a, q, Parse(t).value));
  }

  lemma AtomTextLang(a: Atom, q: Quant, t: string, s: string, i: nat, j: nat)
    requires AtomOk(a) && QuantOk(q) && BranchText(t) && i <= j <= |s|
    ensures Lang(PrintAtom(a) + (PrintQuant(q) + t), s, i, j)
       <==> exists k: nat {:trigger Cut(i, k, j)} | Cut(i, k, j) ::
              MatchQuant(a, q, NO_CAPS, s, i, k) && Lang(t, s, k, j)
  {
    AtomText(a, q, t);
    var b := Parse(t).value;
    var whole := Then(a, q, b);
    if MatchBranch(whole, NO_CAPS, s, i, j) {
      var k: nat :| Cut(i, k, j) && MatchQuant(a, q, NO_CAPS, s, i, k) && MatchBranch(b, NO_CAPS, s, k, j);
      assert Lang(t, s, k, j);
    }
    if k: nat :| Cut(i, k, j) && MatchQuant(a, q, NO_CAPS, s, i, k) && Lang(t, s, k, j) {
      assert MatchBranch(b, NO_CAPS, s, k, j);
      assert MatchBranch(whole, NO_CAPS, s, i, j);
    }
  }

  /** A one-character atom in front of a branch text reads one character. */
  lemma CharText(a: Atom, t: string, s: string, i: nat, j: nat)
    requires OneChar(a) && AtomOk(a) && BranchText(t) && i <= j <= |s|
    ensures BranchText(PrintAtom(a) + t)
    ensures Lang(PrintAtom(a) + t, s, i, j) <==> i < j && CharOk(a, s[i]) && Lang(t, s, i + 1, j)
  {
    assert PrintAtom(a) + (PrintQuant(Once) + t) == PrintAtom(a) + t;
    AtomText(a, Once, t);
    AtomTextLang(a, Once, t, s, i, j);
    if i < j && CharOk(a, s[i]) && Lang(t, s, i + 1, j) {
      assert Cut(i, i + 1, j) && MatchQuant(a, Once, NO_CAPS, s, i, i + 1);
    }
  }

  lemma {:induction false} TimesOfChar(a: Atom, n: nat, s: string, i: nat, j: nat)
    requires OneChar(a) && i <= j <= |s|
    ensures MatchTimes(a, n, NO_CAPS, s, i, j) <==> j - i == n && forall k :: i <= k < j ==> CharOk(a, s[k])
  {
    if n > 0 && i < j {
      TimesOfChar(a, n - 1, s, i + 1, j);
      if j - i == n && forall k :: i <= k < j ==> CharOk(a, s[k]) {
        assert Cut(i, i + 1, j) && MatchAtom(a, NO_CAPS, s, i, i + 1) && MatchTimes(a, n - 1, NO_CAPS, s, i + 1, j);
      }
      if k: nat :| Cut(i, k, j) && MatchAtom(a, NO_CAPS, s, i, k) && MatchTimes(a, n - 1, NO_CAPS, s, k, j) {
        assert k == i + 1;
      }
    }
  }

  lemma {:induction false} StarOfDot(s: string, i: nat, j: nat)
    requires i <= j <= |s|
    ensures MatchStar(Dot, NO_CAPS, s, i, j) <==> forall k :: i <= k < j ==> s[k] != '\n'
    decreases j - i
  {
    if i < j {
      StarOfDot(s, i + 1, j);
      if forall k :: i <= k < j ==> s[k] != '\n' {
        assert Cut(i, i + 1, j) && MatchAtom(Dot, NO_CAPS, s, i, i + 1) && MatchStar(Dot, NO_CAPS, s, i + 1, j);
      }
      if k: nat :| Cut(i, k, j) && i < k && MatchAtom(Dot, NO_CAPS, s, i, k) && MatchStar(Dot, NO_CAPS, s, k, j) {
        assert k == i + 1;
      }
    }
  }

  // ----- alternatives

  /** The tree of `p|q`. */
  function JoinOr(p: Body, q: Body): Body {
    match p
    case Done => Or(q)
    case Or(rest) => Or(JoinOr(rest, q))
    case Then(a, k, rest) => Then(a, k, JoinOr(rest, q))
  }

  lemma {:induction false} JoinOrPrint(p: Body, q: Body)
    requires BodyOk(p) && BodyOk(q)
    ensures BodyOk(JoinOr(p, q)) && Print(JoinOr(p, q)) == Print(p) + "|" + Print(q)
  {
    match p
    case Done =>
    case Or(rest) =>
      JoinOrPrint(rest, q);
      Glue("|", Print(rest), "|", Print(q));
    case Then(a, k, rest) =>
      JoinOrPrint(rest, q);
      Glue(PrintAtom(a), PrintQuant(k), Print(rest) + "|", Print(q));
      Glue(PrintAtom(a), PrintQuant(k), Print(rest), "|");
  }

  lemma {:induction false} JoinOrBranch(p: Body, q: Body, s: string, i: nat, j: nat)
    requires OrFree(p) && i <= j <= |s|
    ensures MatchBranch(JoinOr(p, q), NO_CAPS, s, i, j) <==> MatchBranch(p, NO_CAPS, s, i, j)
    ensures AfterOr(JoinOr(p, q)) == Some(q)
  {
    if p.Then? {
      JoinOrBranch(p.rest, q, s, j, j);
      forall k: nat | i <= k <= j
        ensures MatchBranch(JoinOr(p.rest, q), NO_CAPS, s, k, j) <==> MatchBranch(p.rest, NO_CAPS, s, k, j)
      {
        JoinOrBranch(p.rest, q, s, k, j);
      }
    }
  }

  /** `p|t` matches what its first branch or the rest matches. */
  lemma OrText(p: string, t: string, s: string, i: nat, j: nat)
    requires BranchText(p) && Parse(t).Some? && i <= j <= |s|
    ensures Parse(p + "|" + t).Some?
    ensures Lang(p + "|" + t, s, i, j) <==> Lang(p, s, i, j) || Lang(t, s, i, j)
  {
    ParseSound(p);
    ParseSound(t);
    var b, c := Parse(p).value, Parse(t).value;
    JoinOrPrint(b, c);
    RoundTrip(JoinOr(b, c));
    JoinOrBranch(b, c, s, i, j);
  }

  /** `strings.Join`. */
  function Join(parts: seq<string>, sep: string): string {
    if parts == [] then "" else if |parts| == 1 then parts[0] else parts[0] + sep + Join(parts[1..], sep)
  }

  /** Alternatives joined by `|` match what some alternative matches. */
  lemma {:induction false} JoinLang(parts: seq<string>, s: string, i: nat, j: nat)
    requires parts != [] && (forall p | p in parts :: BranchText(p)) && i <= j <= |s|
    ensures Parse(Join(parts, "|")).Some?
    ensures Lang(Join(parts, "|"), s, i, j) <==> exists p | p in parts :: Lang(p, s, i, j)
  {
    if |parts| == 1 {
      assert parts[0] in parts;
    } else {
      JoinLang(parts[1..], s, i, j);
      OrText(parts[0], Join(parts[1..], "|"), s, i, j);
      assert forall p :: p in parts <==> p == parts[0] || p in parts[1..];
    }
  }

  // ----- anchors

  lemma SplitBranch(b: Body, s: string, i: nat, j: nat) returns (k: nat)
    requires b.Then? && i <= j <= |s| && MatchBranch(b, NO_CAPS, s, i, j)
    ensures Cut(i, k, j) && MatchQuant(b.atom, b.quant, NO_CAPS, s, i, k) && MatchBranch(b.rest, NO_CAPS, s, k, j)
  {
    k :| Cut(i, k, j) && MatchQuant(b.atom, b.quant, NO_CAPS, s, i, k) && MatchBranch(b.rest, NO_CAPS, s, k, j);
  }

  /** The tree of `^(?:body)$`. */
  function Anchored(b: Body): Body {
    Then(Bol, Once, Then(Group(Quiet, b), Once, Then(Eol, Once, Done)))
  }

  lemma PrintOnce(a: Atom, rest: Body)
    ensures Print(Then(a, Once, rest)) == PrintAtom(a) + Print(rest)
  {
    assert PrintQuant(Once) + Print(rest) == Print(rest);
  }

  lemma QuietText(t: string)
    ensures "(" + ("?:" + (t + ")")) == "(?:" + t + ")" && "^" + ("(?:" + t + ")" + "$") == "^(?:" + t + ")$"
  {
  }

  lemma AnchoredText(t: string)
    requires Parse(t).Some?
    ensures Parse("^(?:" + t + ")$") == Some(Anchored(Parse(t).value))
  {
    ParseSound(t);
    var b := Parse(t).value;
    var e := Then(Eol, Once, Done);
    PrintOnce(Eol, Done);
    PrintOnce(Group(Quiet, b), e);
    PrintOnce(Bol, Then(Group(Quiet, b), Once, e));
    assert Print(e) == "$";
    QuietText(t);
    RoundTrip(Anchored(b));
  }

  /** An anchored text matches a value exactly when the body matches all of it. */
  lemma AnchoredMatches(t: string, s: string)
    requires Parse(t).Some?
    ensures Matches("^(?:" + t + ")$", s) <==> Lang(t, s, 0, |s|)
  {
    AnchoredText(t);
    var b := Parse(t).value;
    var e := Then(Eol, Once, Done);
    var g := Then(Group(Quiet, b), Once, e);
    var a := Then(Bol, Once, g);
    if Lang(t, s, 0, |s|) {
      var n := |s|;
      assert Cut(n, n, n) && MatchQuant(Eol, Once, NO_CAPS, s, n, n) && MatchBranch(Done, NO_CAPS, s, n, n);
      assert Cut(0, n, n) && MatchQuant(Group(Quiet, b), Once, NO_CAPS, s, 0, n) && MatchBranch(e, NO_CAPS, s, n, n);
      assert Cut(0, 0, |s|) && MatchQuant(Bol, Once, NO_CAPS, s, 0, 0) && MatchBranch(g, NO_CAPS, s, 0, |s|);
      assert MatchBody(a, NO_CAPS, s, 0, |s|);
    }
    if Matches("^(?:" + t + ")$", s) {
      var i: nat, j: nat :| i <= j <= |s| && MatchBody(a, NO_CAPS, s, i, j);
      assert AfterOr(e).None? && AfterOr(g) == AfterOr(e) && AfterOr(a) == AfterOr(g);
      var k := SplitBranch(a, s, i, j);
      var m := SplitBranch(g, s, k, j);
      var n := SplitBranch(e, s, m, j);
    }
  }

  // ----- quoting

  /** `regexp.QuoteMeta`. */
  function QuoteMeta(v: string): string {
    if v == [] then "" else (if IsSpecial(v[0]) then ['\\', v[0]] else [v[0]]) + QuoteMeta(v[1..])
  }

  lemma SliceHead(v: string, s: string, i: nat)
    requires v != [] && i + |v| <= |s|
    ensures s[i..i + |v|] == v <==> s[i] == v[0] && s[i + 1..i + 1 + |v[1..]|] == v[1..]
  {
    assert s[i..i + |v|] == [s[i]] + s[i + 1..i + |v|];
    assert v == [v[0]] + v[1..];
  }

  lemma QuoteStep(c: char, t: string, s: string, i: nat, j: nat)
    requires BranchText(t) && i <= j <= |s|
    ensures var p := (if IsSpecial(c) then ['\\', c] else [c]) + t;
      BranchText(p) && (Lang(p, s, i, j) <==> i < j && s[i] == c && Lang(t, s, i + 1, j))
  {
    CharText(if IsSpecial(c) then Esc(c) else Lit(c), t, s, i, j);
  }

  /** A quoted value in front of a branch text reads exactly that value. */
  lemma {:induction false} QuoteText(v: string, t: string, s: string, i: nat, j: nat)
    requires BranchText(t) && i <= j <= |s|
    ensures BranchText(QuoteMeta(v) + t)
    ensures Lang(QuoteMeta(v) + t, s, i, j) <==> i + |v| <= j && s[i..i + |v|] == v && Lang(t, s, i + |v|, j)
  {
    if v == [] {
      assert QuoteMeta(v) + t == t;
    } else {
      var tail := QuoteMeta(v[1..]) + t;
      Assoc(if IsSpecial(v[0]) then ['\\', v[0]] else [v[0]], QuoteMeta(v[1..]), t);
      QuoteText(v[1..], t, s, if i < j then i + 1 else i, j);
      QuoteStep(v[0], tail, s, i, j);
      if i + |v| <= j {
        SliceHead(v, s, i);
      }
    }
  }

  lemma QuoteLang(v: string, s: string, i: nat, j: nat)
    requires i <= j <= |s|
    ensures BranchText(QuoteMeta(v))
    ensures Lang(QuoteMeta(v), s, i, j) <==> s[i..j] == v
  {
    EmptyText();
    QuoteText(v, "", s, i, j);
    assert QuoteMeta(v) + "" == QuoteMeta(v);
  }
}
