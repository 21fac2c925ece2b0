/**
 The fragment of RE2 syntax this model covers, as a syntax tree, a printer and a parser.
 `RoundTrip` and `ParseSound` make the two a bijection between well-formed trees and the texts
 the parser accepts, so every claim about a tree is a claim about the text the operator emits.
 */
module RegexSyntax {
  import opened Basics
  import opened Decimal

  /** `x`, `x*`, `x+`, `x?` and `x{n}`. */
  datatype Quant = Once | Star | Plus | Opt | Times(n: nat)

  /** `(`, `(?:`, `(?P<name>` and `(?<name>`. */
  datatype Head = Bare | Quiet | Named(name: string) | Short(name: string)

  /** A character inside `[...]`, plain or behind a backslash. */
  datatype ClassTok = Raw(c: char) | Quoted(c: char)

  datatype Atom =
    | Lit(c: char)
    | Esc(c: char)
    | Dot
    | Bol
    | Eol
    | Set(toks: seq<ClassTok>)
    | Group(head: Head, body: Body)

  /** A regex body read left to right; `Or` is a `|` and ends the branch before it. */
  datatype Body = Done | Or(rest: Body) | Then(atom: Atom, quant: Quant, rest: Body)

  datatype Parsed<+T> = Fail | Got(value: T, rest: string)

  /** The characters `regexp.QuoteMeta` escapes. */
  predicate IsSpecial(c: char) {
    || c == '\\' || c == '.' || c == '+' || c == '*' || c == '?' || c == '(' || c == ')'
    || c == '|' || c == '[' || c == ']' || c == '{' || c == '}' || c == '^' || c == '$'
  }

  /** RE2 refuses larger repeat counts. */
  const MAX_REPEAT: nat := 1000

  predicate IsAlnum(c: char) {
    'a' <= c <= 'z' || 'A' <= c <= 'Z' || IsDigit(c)
  }

  predicate IsWord(c: char) {
    IsAlnum(c) || c == '_'
  }

  predicate IsPerl(c: char) {
    c == 'd' || c == 'D' || c == 'w' || c == 'W' || c == 's' || c == 'S'
  }

  /** `\c` is a Perl class or an escaped ASCII punctuation character. */
  predicate EscapeOk(c: char) {
    IsPerl(c) || (c < 128 as char && !IsAlnum(c))
  }

  predicate NameOk(name: string) {
    name != [] && forall i :: 0 <= i < |name| ==> IsWord(name[i])
  }

  predicate TokOk(tok: ClassTok) {
    match tok
    case Raw(c) => c != '\\' && c != ']'
    case Quoted(c) => EscapeOk(c)
  }

  predicate ClassOk(toks: seq<ClassTok>) {
    && toks != [] && toks != [Raw('^')]
    && (forall i :: 0 <= i < |toks| ==> TokOk(toks[i]))
    && (forall i :: 0 <= i < |toks| - 1 ==> !(toks[i] == Raw('[') && toks[i + 1] == Raw(':')))
    && RangesOk(if toks[0] == Raw('^') then toks[1..] else toks)
  }

  /** A class item that stands for one character. */
  predicate Single(tok: ClassTok) {
    tok.Raw? || !IsPerl(tok.c)
  }

  /** In `a-b` both ends are characters, in order. */
  predicate RangesOk(toks: seq<ClassTok>) {
    if toks == [] then true
    else if |toks| >= 3 && toks[1] == Raw('-') && Single(toks[0])
    then Single(toks[2]) && toks[0].c <= toks[2].c && RangesOk(toks[3..])
    else RangesOk(toks[1..])
  }

  predicate HeadOk(h: Head) {
    (h.Named? || h.Short?) ==> NameOk(h.name)
  }

  predicate QuantOk(q: Quant) {
    q.Times? ==> q.n <= MAX_REPEAT
  }

  predicate AtomOk(a: Atom) {
    match a
    case Lit(c) => !IsSpecial(c)
    case Esc(c) => EscapeOk(c)
    case Set(toks) => ClassOk(toks)
    case Group(h, b) => HeadOk(h) && BodyOk(b)
    case _ => true
  }

  predicate BodyOk(b: Body) {
    match b
    case Done => true
    case Or(rest) => BodyOk(rest)
    case Then(a, q, rest) => AtomOk(a) && QuantOk(q) && BodyOk(rest)
  }

  // ----- printing

  function PrintQuant(q: Quant): string {
    match q
    case Once => ""
    case Star => "*"
    case Plus => "+"
    case Opt => "?"
    case Times(n) => "{" + Numeral(n) + "}"
  }

  /** A group head without its parenthesis. */
  function HeadTail(h: Head): string {
    match h
    case Bare => ""
    case Quiet => "?:"
    case Named(name) => "?P<" + name + ">"
    case Short(name) => "?<" + name + ">"
  }

  function PrintToks(toks: seq<ClassTok>): string {
    if toks == [] then ""
    else (match toks[0] case Raw(c) => [c] case Quoted(c) => ['\\', c]) + PrintToks(toks[1..])
  }

  function PrintAtom(a: Atom): (t: string)
    ensures t != []
  {
    match a
    case Lit(c) => [c]
    case Esc(c) => ['\\', c]
    case Dot => "."
    case Bol => "^"
    case Eol => "$"
    case Set(toks) => "[" + PrintToks(toks) + "]"
    case Group(h, b) => "(" + (HeadTail(h) + (Print(b) + ")"))
  }

  function Print(b: Body): string {
    match b
    case Done => ""
    case Or(rest) => "|" + Print(rest)
    case Then(a, q, rest) => PrintAtom(a) + (PrintQuant(q) + Print(rest))
  }

  // ----- parsing

  function Span(t: string, p: char -> bool): (n: nat)
    ensures n <= |t|
    ensures forall i :: 0 <= i < n ==> p(t[i])
    ensures n < |t| ==> !p(t[n])
  {
    if t != [] && p(t[0]) then 1 + Span(t[1..], p) else 0
  }

  function ParseQuant(t: string): (r: Parsed<Quant>)
    ensures r.Got? ==> |r.rest| <= |t|
  {
    if t == [] then Got(Once, t)
    else if t[0] == '*' then Got(Star, t[1..])
    else if t[0] == '+' then Got(Plus, t[1..])
    else if t[0] == '?' then Got(Opt, t[1..])
    else if t[0] == '{' then
      var n := Span(t[1..], IsDigit);
      var digits := t[1..][..n];
      if n + 1 < |t| && t[n + 1] == '}' && Canonical(digits) && Value(digits) <= MAX_REPEAT
      then Got(Times(Value(digits)), t[n + 2..])
      else Fail
    else Got(Once, t)
  }

  function ParseName(t: string): (r: Parsed<string>)
    ensures r.Got? ==> |r.rest| <= |t|
  {
    var n := Span(t, IsWord);
    if 0 < n < |t| && t[n] == '>' then Got(t[..n], t[n + 1..]) else Fail
  }

  /** What follows a `(`. */
  function ParseHead(t: string): (r: Parsed<Head>)
    ensures r.Got? ==> |r.rest| <= |t|
  {
    if "?P<" <= t then
      match ParseName(t[3..]) case Fail => Fail case Got(name, rest) => Got(Named(name), rest)
    else if "?<" <= t then
      match ParseName(t[2..]) case Fail => Fail case Got(name, rest) => Got(Short(name), rest)
    else if "?:" <= t then Got(Quiet, t[2..])
    else if t != [] && t[0] == '?' then Fail
    else Got(Bare, t)
  }

  /** What follows a `[`, up to and including the closing bracket. */
  function ParseToks(t: string): (r: Parsed<seq<ClassTok>>)
    ensures r.Got? ==> |r.rest| < |t|
  {
    if t == [] then Fail
    else if t[0] == ']' then Got([], t[1..])
    else if t[0] == '\\' then
      if |t| == 1 then Fail else
      match ParseToks(t[2..]) case Fail => Fail case Got(toks, rest) => Got([Quoted(t[1])] + toks, rest)
    else
      match ParseToks(t[1..]) case Fail => Fail case Got(toks, rest) => Got([Raw(t[0])] + toks, rest)
  }

  /** What follows a `(`, up to and including the closing parenthesis. */
  function ParseGroup(t: string): (r: Parsed<Atom>)
    ensures r.Got? ==> |r.rest| < |t|
    decreases |t|, 2
  {
    match ParseHead(t)
    case Fail => Fail
    case Got(head, inner) =>
      match ParseBody(inner)
      case Fail => Fail
      case Got(body, after) =>
        if after == [] then Fail else Got(Group(head, body), after[1..])
  }

  function ParseAtom(t: string): (r: Parsed<Atom>)
    requires t != []
    ensures r.Got? ==> |r.rest| < |t|
    decreases |t|, 0
  {
    if t[0] == '(' then ParseGroup(t[1..])
    else if t[0] == '[' then
      match ParseToks(t[1..])
      case Fail => Fail
      case Got(toks, rest) => if ClassOk(toks) then Got(Set(toks), rest) else Fail
    else if t[0] == '\\' then
      if |t| > 1 && EscapeOk(t[1]) then Got(Esc(t[1]), t[2..]) else Fail
    else if t[0] == '.' then Got(Dot, t[1..])
    else if t[0] == '^' then Got(Bol, t[1..])
    else if t[0] == '$' then Got(Eol, t[1..])
    else if IsSpecial(t[0]) then Fail
    else Got(Lit(t[0]), t[1..])
  }

  /** Stops at the end of the text or at the `)` that closes the enclosing group. */
  function ParseBody(t: string): (r: Parsed<Body>)
    ensures r.Got? ==> |r.rest| <= |t| && AtEnd(r.rest)
    decreases |t|, 1
  {
    if AtEnd(t) then Got(Done, t)
    else if t[0] == '|' then
      match ParseBody(t[1..]) case Fail => Fail case Got(b, rest) => Got(Or(b), rest)
    else
      match ParseAtom(t)
      case Fail => Fail
      case Got(a, t1) =>
        match ParseQuant(t1)
        case Fail => Fail
        case Got(q, t2) =>
          match ParseBody(t2) case Fail => Fail case Got(b, rest) => Got(Then(a, q, b), rest)
  }

  predicate AtEnd(t: string) {
    t == [] || t[0] == ')'
  }

  function Parse(t: string): Option<Body> {
    match ParseBody(t)
    case Fail => None
    case Got(b, rest) => if rest == [] then Some(b) else None
  }

  // ----- printing, then parsing

  lemma Glue(a: string, b: string, c: string, d: string)
    ensures a + (b + (c + d)) == a + (b + c + d) == a + (b + c) + d == a + b + c + d
  {
  }

  lemma {:induction false} SpanOfPrefix(u: string, rest: string, p: char -> bool)
    requires forall i :: 0 <= i < |u| ==> p(u[i])
    requires rest != [] && !p(rest[0])
    ensures Span(u + rest, p) == |u|
  {
    if u == [] {
      assert u + rest == rest;
    } else {
      assert (u + rest)[1..] == u[1..] + rest;
      SpanOfPrefix(u[1..], rest, p);
    }
  }

  lemma Assoc(a: string, b: string, c: string)
    ensures a + b + c == a + (b + c)
  {
  }

  lemma GroupText(head: string, body: string, rest: string)
    ensures "(" + (head + (body + ")")) + rest == "(" + (head + (body + (")" + rest)))
  {
  }

  predicate QuantStart(t: string) {
    t != [] && (t[0] == '*' || t[0] == '+' || t[0] == '?' || t[0] == '{')
  }

  lemma TimesRoundTrip(n: nat, rest: string)
    requires n <= MAX_REPEAT
    ensures ParseQuant(PrintQuant(Times(n)) + rest) == Got(Times(n), rest)
  {
    var digits, tail := Numeral(n), "}" + rest;
    var t := PrintQuant(Times(n)) + rest;
    NumeralIsCanonical(n);
    Glue("{", digits, "}", rest);
    var u := digits + tail;
    assert t == "{" + u;
    assert ("{" + u)[1..] == u;
    SpanOfPrefix(digits, tail, IsDigit);
    assert u[..|digits|] == digits;
    assert t[|digits| + 1] == u[|digits|] == tail[0];
    assert t[|digits| + 2..] == rest;
  }

  lemma QuantRoundTrip(q: Quant, rest: string)
    requires QuantOk(q) && !QuantStart(rest)
    ensures ParseQuant(PrintQuant(q) + rest) == Got(q, rest)
  {
    if q.Times? {
      TimesRoundTrip(q.n, rest);
    } else if q.Once? {
      assert PrintQuant(q) + rest == rest;
    } else {
      assert (PrintQuant(q) + rest)[1..] == rest;
    }
  }

  lemma NameRoundTrip(name: string, rest: string)
    requires NameOk(name)
    ensures ParseName(name + ">" + rest) == Got(name, rest)
  {
    assert name + ">" + rest == name + (">" + rest);
    SpanOfPrefix(name, ">" + rest, IsWord);
    assert (name + ">" + rest)[|name| + 1..] == rest;
  }

  lemma NamedRoundTrip(name: string, rest: string)
    requires NameOk(name)
    ensures ParseHead(HeadTail(Named(name)) + rest) == Got(Named(name), rest)
  {
    NameRoundTrip(name, rest);
    Glue("?P<", name, ">", rest);
    var u := name + ">" + rest;
    assert ("?P<" + u)[3..] == u;
  }

  lemma ShortRoundTrip(name: string, rest: string)
    requires NameOk(name)
    ensures ParseHead(HeadTail(Short(name)) + rest) == Got(Short(name), rest)
  {
    NameRoundTrip(name, rest);
    Glue("?<", name, ">", rest);
    var u := name + ">" + rest;
    assert ("?<" + u)[1] == '<' && ("?<" + u)[2..] == u;
  }

  lemma HeadRoundTrip(h: Head, rest: string)
    requires HeadOk(h) && (rest == [] || rest[0] != '?')
    ensures ParseHead(HeadTail(h) + rest) == Got(h, rest)
  {
    var t := HeadTail(h) + rest;
    if h.Named? {
      NamedRoundTrip(h.name, rest);
    } else if h.Short? {
      ShortRoundTrip(h.name, rest);
    } else if h.Quiet? {
      assert t[1] == ':' && t[2..] == rest;
    } else {
      assert t == rest;
    }
  }

  lemma {:induction false} ToksRoundTrip(toks: seq<ClassTok>, rest: string)
    requires forall i :: 0 <= i < |toks| ==> TokOk(toks[i])
    ensures ParseToks(PrintToks(toks) + "]" + rest) == Got(toks, rest)
  {
    var t := PrintToks(toks) + "]" + rest;
    if toks == [] {
      assert t[1..] == rest;
    } else {
      var tail := PrintToks(toks[1..]) + "]" + rest;
      ToksRoundTrip(toks[1..], rest);
      match toks[0] {
        case Raw(c) => assert t[1..] == tail;
        case Quoted(c) => assert t[2..] == tail;
      }
      assert [toks[0]] + toks[1..] == toks;
    }
  }

  /** A printed body never starts where a quantifier or a group flag could. */
  lemma FirstChar(b: Body, rest: string)
    requires BodyOk(b) && AtEnd(rest)
    ensures !QuantStart(Print(b) + rest)
    ensures b.Then? ==> !AtEnd(Print(b) + rest) && (Print(b) + rest)[0] == PrintAtom(b.atom)[0] != '|'
  {
    if b.Done? {
      assert Print(b) + rest == rest;
    } else if b.Then? {
      assert (Print(b) + rest)[0] == PrintAtom(b.atom)[0];
    }
  }

  lemma GroupRoundTrip(h: Head, b: Body, rest: string)
    requires HeadOk(h) && BodyOk(b)
    requires ParseBody(Print(b) + (")" + rest)) == Got(b, ")" + rest)
    ensures ParseGroup(HeadTail(h) + (Print(b) + (")" + rest))) == Got(Group(h, b), rest)
  {
    FirstChar(b, ")" + rest);
    HeadRoundTrip(h, Print(b) + (")" + rest));
    assert (")" + rest)[1..] == rest;
  }

  lemma {:induction false} AtomRoundTrip(a: Atom, rest: string)
    requires AtomOk(a)
    ensures ParseAtom(PrintAtom(a) + rest) == Got(a, rest)
  {
    if a.Group? {
      BodyRoundTrip(a.body, ")" + rest);
      GroupRoundTrip(a.head, a.body, rest);
      GroupText(HeadTail(a.head), Print(a.body), rest);
      var inner := HeadTail(a.head) + (Print(a.body) + (")" + rest));
      assert ("(" + inner)[1..] == inner;
    } else {
      var t := PrintAtom(a) + rest;
      if a.Set? {
        assert t[1..] == PrintToks(a.toks) + "]" + rest;
        ToksRoundTrip(a.toks, rest);
      } else if a.Esc? {
        assert t[2..] == rest;
      } else {
        assert t[1..] == rest;
      }
    }
  }

  lemma {:induction false} BodyRoundTrip(b: Body, rest: string)
    requires BodyOk(b) && AtEnd(rest)
    ensures ParseBody(Print(b) + rest) == Got(b, rest)
  {
    var t := Print(b) + rest;
    match b
    case Done =>
      assert t == rest;
    case Or(next) =>
      assert t[1..] == Print(next) + rest;
      BodyRoundTrip(next, rest);
    case Then(a, q, next) =>
      FirstChar(b, rest);
      var tail := Print(next) + rest;
      FirstChar(next, rest);
      Glue(PrintAtom(a), PrintQuant(q), Print(next), rest);
      AtomRoundTrip(a, PrintQuant(q) + tail);
      QuantRoundTrip(q, tail);
      BodyRoundTrip(next, rest);
  }

  /** Parsing undoes printing, on every well-formed tree. */
  lemma RoundTrip(b: Body)
    requires BodyOk(b)
    ensures Parse(Print(b)) == Some(b)
  {
    BodyRoundTrip(b, "");
    assert Print(b) + "" == Print(b);
  }

  // ----- parsing, then printing

  lemma QuantSound(t: string)
    requires ParseQuant(t).Got?
    ensures QuantOk(ParseQuant(t).value) && t == PrintQuant(ParseQuant(t).value) + ParseQuant(t).rest
  {
    if t != [] && t[0] == '{' {
      NumeralOfValue(t[1..][..Span(t[1..], IsDigit)]);
    }
  }

  lemma NameSound(t: string)
    requires ParseName(t).Got?
    ensures NameOk(ParseName(t).value) && t == ParseName(t).value + ">" + ParseName(t).rest
  {
  }

  lemma HeadSound(t: string)
    requires ParseHead(t).Got?
    ensures HeadOk(ParseHead(t).value) && t == HeadTail(ParseHead(t).value) + ParseHead(t).rest
  {
    if "?P<" <= t {
      NameSound(t[3..]);
      assert t == "?P<" + t[3..];
      Glue("?P<", ParseName(t[3..]).value, ">", ParseName(t[3..]).rest);
    } else if "?<" <= t {
      NameSound(t[2..]);
      assert t == "?<" + t[2..];
      Glue("?<", ParseName(t[2..]).value, ">", ParseName(t[2..]).rest);
    }
  }

  lemma {:induction false} ToksSound(t: string)
    requires ParseToks(t).Got?
    ensures t == PrintToks(ParseToks(t).value) + "]" + ParseToks(t).rest
  {
    if t[0] == '\\' {
      ToksSound(t[2..]);
      assert ParseToks(t).value[1..] == ParseToks(t[2..]).value;
    } else if t[0] != ']' {
      ToksSound(t[1..]);
      assert ParseToks(t).value[1..] == ParseToks(t[1..]).value;
    }
  }

  lemma {:induction false} GroupSound(t: string)
    requires ParseGroup(t).Got?
    ensures AtomOk(ParseGroup(t).value) && "(" + t == PrintAtom(ParseGroup(t).value) + ParseGroup(t).rest
    decreases |t|, 2
  {
    HeadSound(t);
    var head, inner := ParseHead(t).value, ParseHead(t).rest;
    BodySound(inner);
    var body, after := ParseBody(inner).value, ParseBody(inner).rest;
    assert after == ")" + after[1..];
    GroupPrint(t, head, body, inner, after[1..]);
  }

  lemma GroupPrint(t: string, head: Head, body: Body, inner: string, rest: string)
    requires t == HeadTail(head) + inner && inner == Print(body) + (")" + rest)
    ensures "(" + t == PrintAtom(Group(head, body)) + rest
  {
    GroupText(HeadTail(head), Print(body), rest);
  }

  lemma {:induction false} AtomSound(t: string)
    requires t != [] && ParseAtom(t).Got?
    ensures AtomOk(ParseAtom(t).value) && t == PrintAtom(ParseAtom(t).value) + ParseAtom(t).rest
    decreases |t|, 0
  {
    if t[0] == '(' {
      GroupSound(t[1..]);
      assert t == "(" + t[1..];
    } else if t[0] == '[' {
      ToksSound(t[1..]);
    }
  }

  lemma {:induction false} BodySound(t: string)
    requires ParseBody(t).Got?
    ensures BodyOk(ParseBody(t).value) && t == Print(ParseBody(t).value) + ParseBody(t).rest
    decreases |t|, 1
  {
    if AtEnd(t) {
    } else if t[0] == '|' {
      BodySound(t[1..]);
    } else {
      AtomSound(t);
      var t1 := ParseAtom(t).rest;
      QuantSound(t1);
      var t2 := ParseQuant(t1).rest;
      BodySound(t2);
      Glue(PrintAtom(ParseAtom(t).value), PrintQuant(ParseQuant(t1).value),
           Print(ParseBody(t2).value), ParseBody(t2).rest);
    }
  }

  /** Whatever the parser accepts is the print of a well-formed tree. */
  lemma ParseSound(t: string)
    requires Parse(t).Some?
    ensures BodyOk(Parse(t).value) && Print(Parse(t).value) == t
  {
    BodySound(t);
  }
}
