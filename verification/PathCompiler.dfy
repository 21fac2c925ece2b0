/**
 `compilePathRegex`: several named captures of one path regex are replaced one after the other.
 For captures that do not nest, the outcome is the simultaneous substitution, whatever the order.
 */
module PathCompiler {
  import opened Basics
  import opened RegexSyntax
  import opened RegexMatch
  import opened CaptureScanner

  // ----- texts in which every `(?P<` is a capture

  /** No class mentions `(`. */
  predicate ClassWithoutParen(toks: seq<ClassTok>) {
    forall i :: 0 <= i < |toks| ==> toks[i].c != '('
  }

  predicate PlainAtom(a: Atom) {
    match a
    case Set(toks) => ClassWithoutParen(toks)
    case Group(h, b) => Plain(b)
    case _ => true
  }

  /** Neither a class nor an optional escaped parenthesis can spell the head of a capture. */
  predicate Plain(b: Body) {
    match b
    case Done => true
    case Or(rest) => Plain(rest)
    case Then(a, q, rest) => PlainAtom(a) && !(a == Esc('(') && q == Opt) && Plain(rest)
  }

  predicate NotFlag(t: string) {
    t == [] || t[0] != '?'
  }

  /** No occurrence of the capture's head starts inside `u` when `rest` follows it. */
  predicate Skips(u: string, rest: string, name: string) {
    forall k :: 0 <= k < |u| ==> !(CaptureHead(name) <= (u + rest)[k..])
  }

  lemma SkipsCat(u: string, v: string, rest: string, name: string)
    requires Skips(u, v + rest, name) && Skips(v, rest, name)
    ensures Skips(u + v, rest, name)
  {
    Assoc(u, v, rest);
    forall k | 0 <= k < |u + v| ensures !(CaptureHead(name) <= (u + v + rest)[k..]) {
      if |u| <= k {
        assert (u + (v + rest))[k..] == (v + rest)[k - |u|..];
      }
    }
  }

  lemma SkipsPlain(u: string, rest: string, name: string)
    requires '(' !in u
    ensures Skips(u, rest, name)
  {
    forall k | 0 <= k < |u| ensures !(CaptureHead(name) <= (u + rest)[k..]) {
      assert (u + rest)[k..][0] == u[k] && CaptureHead(name)[0] == '(';
    }
  }

  lemma SkipsParen(rest: string, name: string)
    requires NotFlag(rest)
    ensures Skips("(", rest, name)
  {
    var t := "(" + rest;
    assert t[0..] == t && CaptureHead(name)[1] == '?';
    if rest != [] {
      assert t[1] == rest[0];
    }
  }

  /** The name in a capture's head is delimited, so another name is another head. */
  lemma OtherName(x: string, y: string, rest: string)
    requires NameOk(x) && NameOk(y) && x != y
    ensures !(x + ">" <= y + ">" + rest)
  {
    var u, v := x + ">", y + ">" + rest;
    if |x| == |y| {
      var i :| 0 <= i < |x| && x[i] != y[i];
      assert u[i] != v[i];
    } else {
      var m := if |x| < |y| then |x| else |y|;
      assert u[m] != v[m];
    }
  }

  lemma StripFront(p: string, a: string, b: string)
    ensures p + a <= p + b <==> a <= b
  {
    assert (p + b)[|p|..] == b && (p + a)[|p|..] == a;
    if p + a <= p + b {
      forall i | 0 <= i < |a| ensures a[i] == b[i] {
        assert a[i] == (p + a)[|p| + i] && b[i] == (p + b)[|p| + i];
      }
    }
  }

  lemma HeadSplits(name: string, rest: string)
    ensures "(" + HeadTail(Named(name)) + rest == "(?P<" + (name + ">" + rest)
    ensures CaptureHead(name) == "(?P<" + (name + ">")
  {
  }

  lemma OtherHead(h: Head, name: string, rest: string)
    requires HeadOk(h) && NameOk(name) && h != Named(name) && (h == Bare ==> NotFlag(rest))
    ensures !(CaptureHead(name) <= "(" + HeadTail(h) + rest)
  {
    var t, head := "(" + HeadTail(h) + rest, CaptureHead(name);
    HeadSplits(name, "");
    match h
    case Named(other) =>
      HeadSplits(other, rest);
      OtherName(name, other, rest);
      StripFront("(?P<", name + ">", other + ">" + rest);
    case Bare =>
      assert |t| > 1 ==> t[1] == rest[0];
      assert head[1] == '?';
    case Quiet =>
      assert t[2] == ':' && head[2] == 'P';
    case Short(_) =>
      assert t[2] == '<' && head[2] == 'P';
  }

  lemma HeadTailPlain(h: Head)
    requires HeadOk(h)
    ensures '(' !in HeadTail(h)
  {
  }

  lemma SkipsHead(h: Head, rest: string, name: string)
    requires HeadOk(h) && NameOk(name) && h != Named(name) && (h == Bare ==> NotFlag(rest))
    ensures Skips("(" + HeadTail(h), rest, name)
  {
    HeadTailPlain(h);
    SkipsPlain(HeadTail(h), rest, name);
    OtherHead(h, name, rest);
    FirstDiffers("(", HeadTail(h), rest, name);
    SkipsCat("(", HeadTail(h), rest, name);
  }

  /** A single character skips if the head is not a prefix of what it starts. */
  lemma FirstDiffers(c: string, u: string, rest: string, name: string)
    requires |c| == 1 && !(CaptureHead(name) <= c + u + rest)
    ensures Skips(c, u + rest, name)
  {
    Assoc(c, u, rest);
    assert (c + (u + rest))[0..] == c + (u + rest);
  }

  lemma {:induction false} ToksSkip(toks: seq<ClassTok>)
    requires ClassWithoutParen(toks)
    ensures '(' !in PrintToks(toks)
  {
    if toks != [] {
      ToksSkip(toks[1..]);
    }
  }

  lemma QuantSkip(q: Quant)
    ensures '(' !in PrintQuant(q)
  {
    if q.Times? {
      Decimal.NumeralIsCanonical(q.n);
    }
  }

  lemma QuantNotFlag(q: Quant, b: Body, rest: string)
    requires q != Opt && BodyOk(b) && AtEnd(rest)
    ensures NotFlag(PrintQuant(q) + (Print(b) + rest))
  {
    FirstChar(b, rest);
    if q.Once? {
      assert PrintQuant(q) + (Print(b) + rest) == Print(b) + rest;
    }
  }

  lemma SkipsGroup(h: Head, body: string, rest: string, name: string)
    requires Skips("(" + HeadTail(h), body + (")" + rest), name) && Skips(body, ")" + rest, name)
    ensures Skips("(" + (HeadTail(h) + (body + ")")), rest, name)
  {
    SkipsPlain(")", rest, name);
    SkipsCat(body, ")", rest, name);
    Assoc(body, ")", rest);
    SkipsCat("(" + HeadTail(h), body + ")", rest, name);
    Assoc("(", HeadTail(h), body + ")");
  }

  lemma {:induction false} AtomSkips(a: Atom, rest: string, name: string)
    requires AtomOk(a) && PlainAtom(a) && NameOk(name) && LocateAtom(a, name).None?
    requires a == Esc('(') ==> NotFlag(rest)
    ensures Skips(PrintAtom(a), rest, name)
    decreases a, 0
  {
    if a.Group? {
      FirstChar(a.body, ")" + rest);
      SkipsHead(a.head, Print(a.body) + (")" + rest), name);
      BodySkips(a.body, ")" + rest, name);
      SkipsGroup(a.head, Print(a.body), rest, name);
    } else if a == Esc('(') {
      SkipsPlain("\\", "(" + rest, name);
      SkipsParen(rest, name);
      SkipsCat("\\", "(", rest, name);
      assert PrintAtom(a) == "\\" + "(";
    } else {
      if a.Set? {
        ToksSkip(a.toks);
      }
      SkipsPlain(PrintAtom(a), rest, name);
    }
  }

  lemma {:induction false} BodySkips(b: Body, rest: string, name: string)
    requires BodyOk(b) && Plain(b) && NameOk(name) && AtEnd(rest) && Locate(b, name).None?
    ensures Skips(Print(b), rest, name)
  {
    match b
    case Done =>
    case Or(next) =>
      SkipsPlain("|", Print(next) + rest, name);
      BodySkips(next, rest, name);
      SkipsCat("|", Print(next), rest, name);
    case Then(a, q, next) =>
      BodySkips(next, rest, name);
      SkipsPiece(a, q, next, rest, name);
      Assoc(PrintQuant(q), Print(next), rest);
      SkipsCat(PrintAtom(a) + PrintQuant(q), Print(next), rest, name);
      Assoc(PrintAtom(a), PrintQuant(q), Print(next));
  }

  /** A quantified atom without the capture. */
  lemma {:induction false} SkipsPiece(a: Atom, q: Quant, next: Body, rest: string, name: string)
    requires AtomOk(a) && PlainAtom(a) && !(a == Esc('(') && q == Opt) && NameOk(name) && LocateAtom(a, name).None?
    requires BodyOk(next) && AtEnd(rest)
    ensures Skips(PrintAtom(a) + PrintQuant(q), Print(next) + rest, name)
    decreases a, 1
  {
    if a == Esc('(') {
      QuantNotFlag(q, next, rest);
    }
    AtomSkips(a, PrintQuant(q) + (Print(next) + rest), name);
    QuantSkip(q);
    SkipsPlain(PrintQuant(q), Print(next) + rest, name);
    SkipsCat(PrintAtom(a), PrintQuant(q), Print(next) + rest, name);
  }

  /** The text from the capture's head on. */
  function From(l: Place, rest: string, name: string): string {
    Around("", CaptureHead(name), Print(l.inner), l.post + rest)
  }

  lemma LocateSplit(b: Body, name: string, rest: string)
    requires Locate(b, name).Some?
    ensures Print(b) + rest == Locate(b, name).value.pre + From(Locate(b, name).value, rest, name)
  {
    LocateText(b, name, Done);
    var l := Locate(b, name).value;
    AroundRight(l.pre, CaptureHead(name), Print(l.inner), l.post, rest);
    AroundLeft(l.pre, "", CaptureHead(name), Print(l.inner), l.post + rest);
    assert l.pre + "" == l.pre;
  }

  /** In a plain text no occurrence of the head precedes the capture. */
  lemma {:induction false} LocateSkips(b: Body, rest: string, name: string)
    requires BodyOk(b) && Plain(b) && NameOk(name) && AtEnd(rest) && Locate(b, name).Some?
    ensures var l := Locate(b, name).value; Skips(l.pre, From(l, rest, name), name)
  {
    var l := Locate(b, name).value;
    if b.Or? {
      var m := Locate(b.rest, name).value;
      LocateSkips(b.rest, rest, name);
      SkipsPlain("|", m.pre + From(m, rest, name), name);
      SkipsCat("|", m.pre, From(m, rest, name), name);
    } else if LocateAtom(b.atom, name).Some? {
      var m := LocateAtom(b.atom, name).value;
      var y := PrintQuant(b.quant) + Print(b.rest);
      if b.atom.head != Named(name) {
        var inner := Locate(b.atom.body, name).value;
        var after := ")" + (y + rest);
        LocateSkips(b.atom.body, after, name);
        LocateSplit(b.atom.body, name, after);
        FirstChar(b.atom.body, after);
        SkipsHead(b.atom.head, Print(b.atom.body) + after, name);
        SkipsCat("(" + HeadTail(b.atom.head), inner.pre, From(inner, after, name), name);
        Glue(inner.post, ")", y, rest);
        assert inner.post + after == l.post + rest;
      }
    } else {
      var m := Locate(b.rest, name).value;
      LocateSkips(b.rest, rest, name);
      LocateSplit(b.rest, name, rest);
      SkipsPiece(b.atom, b.quant, b.rest, rest, name);
      SkipsCat(PrintAtom(b.atom) + PrintQuant(b.quant), m.pre, From(m, rest, name), name);
    }
  }

  lemma {:induction false} IndexOfSkips(u: string, v: string, name: string)
    requires Skips(u, v, name) && CaptureHead(name) <= v
    ensures IndexOf(u + v, CaptureHead(name)) == Some(|u|)
  {
    assert (u + v)[|u|..] == v;
    IndexOfIsFirst(u + v, CaptureHead(name), |u|);
  }

  /** In a plain text the scanner always finds the capture itself. */
  lemma PlainHeadFirst(b: Body, name: string)
    requires BodyOk(b) && Plain(b) && Locate(b, name).Some?
    ensures HeadFirst(b, name)
  {
    LocateOk(b, name);
    LocateSkips(b, "", name);
    LocateSplit(b, name, "");
    assert Print(b) + "" == Print(b);
    var l := Locate(b, name).value;
    var rest := Print(l.inner) + (")" + (l.post + ""));
    assert From(l, "", name) == CaptureHead(name) + rest;
    IndexOfSkips(l.pre, From(l, "", name), name);
  }

  // ----- several captures

  function AtomCaptures(a: Atom): set<string> {
    match a
    case Group(h, b) => (if h.Named? then {h.name} else {}) + Captures(b)
    case _ => {}
  }

  /** The names spelled `(?P<name>`. */
  function Captures(b: Body): set<string> {
    match b
    case Done => {}
    case Or(rest) => Captures(rest)
    case Then(a, q, rest) => AtomCaptures(a) + Captures(rest)
  }

  predicate AtomOnce(a: Atom) {
    a.Group? ==> OnceEach(a.body) && (a.head.Named? ==> a.head.name !in Captures(a.body))
  }

  /** No name is captured twice; Go's regexp package rejects such patterns. */
  predicate OnceEach(b: Body) {
    match b
    case Done => true
    case Or(rest) => OnceEach(rest)
    case Then(a, q, rest) => AtomOnce(a) && OnceEach(rest) && AtomCaptures(a) !! Captures(rest)
  }

  predicate AtomApart(a: Atom, names: set<string>) {
    a.Group? ==>
      Apart(a.body, names) && (a.head.Named? && a.head.name in names ==> Captures(a.body) !! names)
  }

  /** No capture from `names` lies inside another one. */
  predicate Apart(b: Body, names: set<string>) {
    match b
    case Done => true
    case Or(rest) => Apart(rest, names)
    case Then(a, q, rest) => AtomApart(a, names) && Apart(rest, names)
  }

  function SubstAllAtom(a: Atom, m: map<string, Body>): Atom {
    match a
    case Group(h, b) => if h.Named? && h.name in m then Group(h, m[h.name]) else Group(h, SubstAll(b, m))
    case _ => a
  }

  /** All captures in the map replaced at once. */
  function SubstAll(b: Body, m: map<string, Body>): Body {
    match b
    case Done => b
    case Or(rest) => Or(SubstAll(rest, m))
    case Then(a, q, rest) => Then(SubstAllAtom(a, m), q, SubstAll(rest, m))
  }

  /** Bodies a selector can compile to: well formed, without captures, without a spelled head. */
  predicate Insertable(b: Body) {
    BodyOk(b) && Plain(b) && Captures(b) == {}
  }

  predicate AllInsertable(m: map<string, Body>) {
    forall n :: n in m ==> Insertable(m[n])
  }

  lemma {:induction false} LocateIff(b: Body, name: string)
    ensures Locate(b, name).Some? <==> name in Captures(b)
  {
    match b
    case Done =>
    case Or(rest) => LocateIff(rest, name);
    case Then(a, q, rest) =>
      LocateAtomIff(a, name);
      LocateIff(rest, name);
  }

  lemma {:induction false} LocateAtomIff(a: Atom, name: string)
    ensures LocateAtom(a, name).Some? <==> name in AtomCaptures(a)
  {
    if a.Group? {
      LocateIff(a.body, name);
    }
  }

  lemma {:induction false} SubstAllKeeps(b: Body, m: map<string, Body>)
    requires BodyOk(b) && AllInsertable(m)
    ensures BodyOk(SubstAll(b, m))
  {
    match b
    case Done =>
    case Or(rest) => SubstAllKeeps(rest, m);
    case Then(a, q, rest) =>
      if a.Group? {
        SubstAllKeeps(a.body, m);
      }
      SubstAllKeeps(rest, m);
  }

  lemma {:induction false} SubstAllPlain(b: Body, m: map<string, Body>)
    requires Plain(b) && AllInsertable(m)
    ensures Plain(SubstAll(b, m))
  {
    match b
    case Done =>
    case Or(rest) => SubstAllPlain(rest, m);
    case Then(a, q, rest) =>
      if a.Group? {
        SubstAllPlain(a.body, m);
      }
      SubstAllPlain(rest, m);
  }

  lemma {:induction false} SubstAllNone(b: Body, m: map<string, Body>)
    requires m == map[]
    ensures SubstAll(b, m) == b
  {
    match b
    case Done =>
    case Or(rest) => SubstAllNone(rest, m);
    case Then(a, q, rest) =>
      if a.Group? {
        SubstAllNone(a.body, m);
      }
      SubstAllNone(rest, m);
  }

  lemma {:induction false} SubstAllAbsent(b: Body, m: map<string, Body>, n: string, x: Body)
    requires n !in Captures(b)
    ensures SubstAll(b, m[n := x]) == SubstAll(b, m)
  {
    match b
    case Done =>
    case Or(rest) => SubstAllAbsent(rest, m, n, x);
    case Then(a, q, rest) =>
      if a.Group? {
        SubstAllAbsent(a.body, m, n, x);
      }
      SubstAllAbsent(rest, m, n, x);
  }

  lemma {:induction false} SubstAllCaptures(b: Body, m: map<string, Body>, n: string)
    requires n !in m && AllInsertable(m) && Apart(b, m.Keys + {n})
    ensures n in Captures(SubstAll(b, m)) <==> n in Captures(b)
  {
    match b
    case Done =>
    case Or(rest) => SubstAllCaptures(rest, m, n);
    case Then(a, q, rest) =>
      if a.Group? {
        SubstAllCaptures(a.body, m, n);
      }
      SubstAllCaptures(rest, m, n);
  }

  /** One more replacement extends the simultaneous substitution. */
  lemma {:induction false} SubstStep(b: Body, m: map<string, Body>, n: string, x: Body)
    requires n !in m && n in Captures(b) && AllInsertable(m) && OnceEach(b) && Apart(b, m.Keys + {n})
    ensures Subst(SubstAll(b, m), n, x) == SubstAll(b, m[n := x])
  {
    if b.Or? {
      SubstStep(b.rest, m, n, x);
    } else {
      LocateAtomIff(SubstAllAtom(b.atom, m), n);
      if n in AtomCaptures(b.atom) {
        SubstStepAtom(b.atom, m, n, x);
        SubstAllAbsent(b.rest, m, n, x);
      } else {
        SubstAllAbsentAtom(b.atom, m, n, x);
        SubstStep(b.rest, m, n, x);
      }
    }
  }

  lemma SubstAllAbsentAtom(a: Atom, m: map<string, Body>, n: string, x: Body)
    requires n !in m && n !in AtomCaptures(a) && AllInsertable(m) && AtomApart(a, m.Keys + {n})
    ensures SubstAllAtom(a, m[n := x]) == SubstAllAtom(a, m)
    ensures n !in AtomCaptures(SubstAllAtom(a, m))
  {
    if a.Group? {
      SubstAllAbsent(a.body, m, n, x);
      SubstAllCaptures(a.body, m, n);
    }
  }

  lemma {:induction false} SubstStepAtom(a: Atom, m: map<string, Body>, n: string, x: Body)
    requires n !in m && n in AtomCaptures(a) && AllInsertable(m) && AtomOnce(a) && AtomApart(a, m.Keys + {n})
    ensures n in AtomCaptures(SubstAllAtom(a, m))
    ensures SubstAtom(SubstAllAtom(a, m), n, x) == SubstAllAtom(a, m[n := x])
  {
    if a.head != Named(n) {
      assert !(a.head.Named? && a.head.name in m);
      SubstAllCaptures(a.body, m, n);
      SubstStep(a.body, m, n, x);
    }
  }

  // ----- one replacement leaves the heads of other captures first

  lemma {:induction false} SubstCaptures(b: Body, x: string, body: Body)
    requires Captures(body) == {}
    ensures Captures(Subst(b, x, body)) <= Captures(b)
  {
    match b
    case Done =>
    case Or(rest) => SubstCaptures(rest, x, body);
    case Then(a, q, rest) =>
      if a.Group? {
        SubstCaptures(a.body, x, body);
      }
      SubstCaptures(rest, x, body);
  }

  /** A capture lies before the replaced one and stays, or behind it and moves with the change of length. */
  predicate Moved(x: Place, y: Place, y': Place, head: nat, body: nat) {
    || (|y.pre| < |x.pre| && |y'.pre| == |y.pre|)
    || (|y.pre| >= |x.pre| + head + |Print(x.inner)| && |y'.pre| + |Print(x.inner)| == |y.pre| + body)
  }

  lemma {:induction false} PlaceAfter(b: Body, x: string, y: string, body: Body)
    requires x != y && x in Captures(b) && y in Captures(b) && Apart(b, {x, y}) && Captures(body) == {}
    ensures Locate(b, x).Some? && Locate(b, y).Some? && Locate(Subst(b, x, body), y).Some?
    ensures Moved(Locate(b, x).value, Locate(b, y).value, Locate(Subst(b, x, body), y).value,
                  |CaptureHead(x)|, |Print(body)|)
  {
    LocateIff(b, x);
    LocateIff(b, y);
    if b.Or? {
      PlaceAfter(b.rest, x, y, body);
    } else {
      LocateAtomIff(b.atom, x);
      LocateAtomIff(b.atom, y);
      if x in AtomCaptures(b.atom) && y in AtomCaptures(b.atom) {
        PlaceAfterAtom(b.atom, x, y, body);
      } else if x in AtomCaptures(b.atom) {
        PlaceBehind(b, x, y, body);
      } else if y in AtomCaptures(b.atom) {
        PlaceBefore(b, x, y, body);
      } else {
        PlaceAfter(b.rest, x, y, body);
      }
    }
  }

  lemma PlaceBehind(b: Body, x: string, y: string, body: Body)
    requires b.Then? && x in AtomCaptures(b.atom) && y !in AtomCaptures(b.atom) && y in Captures(b.rest)
    requires Captures(body) == {}
    ensures Locate(b, x).Some? && Locate(b, y).Some? && Locate(Subst(b, x, body), y).Some?
    ensures Moved(Locate(b, x).value, Locate(b, y).value, Locate(Subst(b, x, body), y).value,
                  |CaptureHead(x)|, |Print(body)|)
  {
    LocateAtomIff(b.atom, x);
    LocateAtomIff(b.atom, y);
    LocateIff(b.rest, y);
    LocateAtomText(b.atom, x, body);
    SubstCaptures(b.atom.body, x, body);
    LocateAtomIff(SubstAtom(b.atom, x, body), y);
  }

  lemma PlaceBefore(b: Body, x: string, y: string, body: Body)
    requires b.Then? && x !in AtomCaptures(b.atom) && y in AtomCaptures(b.atom) && x in Captures(b.rest)
    ensures Locate(b, x).Some? && Locate(b, y).Some? && Locate(Subst(b, x, body), y).Some?
    ensures Moved(Locate(b, x).value, Locate(b, y).value, Locate(Subst(b, x, body), y).value,
                  |CaptureHead(x)|, |Print(body)|)
  {
    LocateAtomIff(b.atom, x);
    LocateAtomIff(b.atom, y);
    LocateIff(b.rest, x);
    LocateAtomText(b.atom, y, body);
  }

  lemma {:induction false} PlaceAfterAtom(a: Atom, x: string, y: string, body: Body)
    requires x != y && x in AtomCaptures(a) && y in AtomCaptures(a) && AtomApart(a, {x, y}) && Captures(body) == {}
    ensures LocateAtom(a, x).Some? && LocateAtom(a, y).Some? && LocateAtom(SubstAtom(a, x, body), y).Some?
    ensures Moved(LocateAtom(a, x).value, LocateAtom(a, y).value, LocateAtom(SubstAtom(a, x, body), y).value,
                  |CaptureHead(x)|, |Print(body)|)
  {
    PlaceAfter(a.body, x, y, body);
  }

  lemma {:induction false} SamePlace(b: Body, x: string, body: Body)
    requires Locate(b, x).Some?
    ensures Locate(Subst(b, x, body), x).Some? && Locate(Subst(b, x, body), x).value.pre == Locate(b, x).value.pre
  {
    if b.Or? {
      SamePlace(b.rest, x, body);
    } else if LocateAtom(b.atom, x).Some? {
      if b.atom.head != Named(x) {
        SamePlace(b.atom.body, x, body);
      }
    } else {
      SamePlace(b.rest, x, body);
    }
  }

  /** An occurrence of a head cannot reach over the end of a text that ends in `>`. */
  lemma NoStraddle(front: string, rest: string, name: string, k: nat)
    requires NameOk(name) && front != [] && front[|front| - 1] == '>' && k < |front|
    requires CaptureHead(name) <= (front + rest)[k..]
    ensures k + |CaptureHead(name)| <= |front|
  {
    var head, n := CaptureHead(name), |front| - 1 - k;
    HeadSplits(name, "");
    assert forall i :: 0 <= i < |head| - 1 ==> head[i] != '>';
    assert (front + rest)[k..][n] == '>';
  }

  lemma SameFront(front: string, u: string, v: string, k: nat, p: string)
    requires k + |p| <= |front| && p <= (front + u)[k..]
    ensures p <= (front + v)[k..]
  {
    assert (front + u)[k..][..|p|] == front[k..k + |p|];
    assert (front + v)[k..][..|p|] == front[k..k + |p|];
  }

  lemma EarlierInFront(front: string, u: string, v: string, name: string, k: nat, p: nat)
    requires NameOk(name) && front != [] && front[|front| - 1] == '>' && k < |front|
    requires IndexOf(front + u, CaptureHead(name)) == Some(p) && CaptureHead(name) <= (front + v)[k..]
    ensures p <= k
  {
    NoStraddle(front, v, name, k);
    SameFront(front, v, u, k, CaptureHead(name));
    IndexOfIsFirst(front + u, CaptureHead(name), k);
  }

  lemma BackIsThere(front: string, inner: string, back: string, head: string, d: nat)
    requires d + |head| <= |back| && head <= back[d..]
    ensures var t, k := front + (inner + back), |front| + |inner| + d; k + |head| <= |t| && head <= t[k..]
  {
    TailOf(inner, back, |inner| + d);
    TailOf(front, inner + back, |front| + |inner| + d);
  }

  lemma EarlierInBack(t: string, front: string, inner: string, back: string, head: string, d: nat, p: nat)
    requires t == front + (inner + back) && IndexOf(t, head) == Some(p) && d + |head| <= |back| && head <= back[d..]
    ensures p <= |front| + |inner| + d
  {
    BackIsThere(front, inner, back, head, d);
    IndexOfIsFirst(t, head, |front| + |inner| + d);
  }

  /** Behind the front an occurrence starts in the back, because the body is skipped. */
  lemma BehindFront(front: string, body: string, back: string, name: string, k: nat)
    requires |front| <= k && Skips(body, back, name) && CaptureHead(name) != []
    requires var t := front + (body + back); k + |CaptureHead(name)| <= |t| && CaptureHead(name) <= t[k..]
    ensures |front| + |body| <= k
    ensures var d := k - |front| - |body|; d + |CaptureHead(name)| <= |back| && CaptureHead(name) <= back[d..]
  {
    TailOf(front, body + back, k);
    TailOf(body, back, if |front| + |body| <= k then k - |front| else |body|);
  }

  /** After a stretch of the text is exchanged, no occurrence of the head comes before its place. */
  lemma NoEarlier(t: string, t': string, front: string, inner: string, body: string, back: string, name: string,
                  k: nat, p: nat, p': nat)
    requires NameOk(name) && front != [] && front[|front| - 1] == '>' && Skips(body, back, name)
    requires t == front + (inner + back) && t' == front + (body + back) && IndexOf(t, CaptureHead(name)) == Some(p)
    requires k + |CaptureHead(name)| <= |t'| && CaptureHead(name) <= t'[k..]
    requires (p < |front| && p' == p) || (p >= |front| + |inner| && p' + |inner| == p + |body|)
    ensures p' <= k
  {
    if k < |front| {
      EarlierInFront(front, inner + back, body + back, name, k, p);
    } else {
      BehindFront(front, body, back, name, k);
      EarlierInBack(t, front, inner, back, CaptureHead(name), k - |front| - |body|, p);
    }
  }

  lemma TailOf(u: string, v: string, k: nat)
    requires |u| <= k <= |u| + |v|
    ensures (u + v)[k..] == v[k - |u|..]
  {
  }

  /** The text around a capture, with its head in front. */
  lemma AroundParts(pre: string, head: string, body: string, post: string)
    ensures Around(pre, head, body, post) == pre + head + (body + (")" + post))
  {
    Assoc(pre, head, body + (")" + post));
  }

  lemma HeadEnds(pre: string, name: string)
    ensures var front := pre + CaptureHead(name); front != [] && front[|front| - 1] == '>'
  {
    HeadSplits(name, "");
    var head := CaptureHead(name);
    assert head[|head| - 1] == '>';
  }

  /** An occurrence of `head` in `t`. */
  predicate OccursAt(t: string, head: string, k: nat) {
    k + |head| <= |t| && head <= t[k..]
  }

  lemma FirstOccurrence(t: string, head: string, p: nat)
    requires OccursAt(t, head, p) && forall k: nat :: OccursAt(t, head, k) ==> p <= k
    ensures IndexOf(t, head) == Some(p)
  {
    IndexOfIsFirst(t, head, p);
    assert OccursAt(t, head, IndexOf(t, head).value);
  }

  lemma InsertableSkips(body: Body, post: string, name: string)
    requires Insertable(body) && NameOk(name)
    ensures Skips(Print(body), ")" + post, name)
  {
    LocateIff(body, name);
    BodySkips(body, ")" + post, name);
  }

  lemma FirstAfter(b: Body, x: string, y: string, body: Body, p: nat, p': nat)
    requires Locate(b, x).Some? && Insertable(body) && NameOk(y)
    requires IndexOf(Print(b), CaptureHead(y)) == Some(p)
    requires var l := Locate(b, x).value; var n := |l.pre| + |CaptureHead(x)|;
      (p < n && p' == p) || (p >= n + |Print(l.inner)| && p' + |Print(l.inner)| == p + |Print(body)|)
    requires OccursAt(Print(Subst(b, x, body)), CaptureHead(y), p')
    ensures IndexOf(Print(Subst(b, x, body)), CaptureHead(y)) == Some(p')
  {
    var l, t := Locate(b, x).value, Print(Subst(b, x, body));
    LocateText(b, x, body);
    AroundParts(l.pre, CaptureHead(x), Print(l.inner), l.post);
    AroundParts(l.pre, CaptureHead(x), Print(body), l.post);
    HeadEnds(l.pre, x);
    InsertableSkips(body, l.post, y);
    forall k: nat | OccursAt(t, CaptureHead(y), k) ensures p' <= k {
      NoEarlier(Print(b), t, l.pre + CaptureHead(x), Print(l.inner), Print(body), ")" + l.post, y, k, p, p');
    }
    FirstOccurrence(t, CaptureHead(y), p');
  }

  lemma HeadThere(b: Body, y: string)
    requires Locate(b, y).Some?
    ensures OccursAt(Print(b), CaptureHead(y), |Locate(b, y).value.pre|)
  {
    LocateText(b, y, Done);
    var l := Locate(b, y).value;
    var rest := Print(l.inner) + (")" + l.post);
    assert Print(b)[|l.pre|..] == CaptureHead(y) + rest;
  }

  /** Replacing one capture by an insertable body leaves the head of another one first. */
  lemma HeadFirstStays(b: Body, x: string, y: string, body: Body)
    requires BodyOk(b) && x != y && x in Captures(b) && y in Captures(b) && Apart(b, {x, y}) && Insertable(body)
    requires Locate(b, y).Some? && HeadFirst(b, y)
    ensures Locate(Subst(b, x, body), y).Some? && HeadFirst(Subst(b, x, body), y)
  {
    PlaceAfter(b, x, y, body);
    LocateOk(b, y);
    var c := Subst(b, x, body);
    HeadThere(c, y);
    FirstAfter(b, x, y, body, |Locate(b, y).value.pre|, |Locate(c, y).value.pre|);
  }

  /** And its own. */
  lemma HeadFirstSame(b: Body, x: string, body: Body)
    requires BodyOk(b) && Insertable(body) && Locate(b, x).Some? && HeadFirst(b, x)
    ensures Locate(Subst(b, x, body), x).Some? && HeadFirst(Subst(b, x, body), x)
  {
    SamePlace(b, x, body);
    LocateOk(b, x);
    var c := Subst(b, x, body);
    HeadThere(c, x);
    var p := |Locate(b, x).value.pre|;
    HeadEnds(Locate(b, x).value.pre, x);
    FirstAfter(b, x, x, body, p, p);
  }

  // ----- the compiled path

  /** One path-capture selector: the capture it constrains and the text it compiles to. */
  datatype PathPart = PathPart(name: string, text: string)

  function CompilePathFrom(pattern: string, parts: seq<PathPart>): Result<string>
    decreases |parts|
  {
    if parts == [] then Ok(pattern)
    else
      match Replaced(pattern, parts[0].name, parts[0].text)
      case Err(e) => Err(e)
      case Ok(next) => CompilePathFrom(next, parts[1..])
  }

  predicate DistinctNames(parts: seq<PathPart>) {
    forall i, j :: 0 <= i < j < |parts| ==> parts[i].name != parts[j].name
  }

  /** The map from capture names to compiled bodies. */
  function PartBodies(parts: seq<PathPart>): (m: map<string, Body>)
    requires forall p | p in parts :: Parse(p.text).Some?
    ensures forall n :: n in m <==> exists p :: p in parts && p.name == n
  {
    if parts == [] then map[]
    else
      var last := parts[|parts| - 1];
      assert forall p :: p in parts <==> p in parts[..|parts| - 1] || p == last;
      PartBodies(parts[..|parts| - 1])[last.name := Parse(last.text).value]
  }

  /** The capture exists, and its head is the first textual occurrence of its spelling. */
  predicate Reachable(b: Body, name: string) {
    Locate(b, name).Some? && HeadFirst(b, name)
  }

  /** What the caller's path regex must satisfy: no name is captured twice, the selected captures do not
      nest, and a search for the head of each finds the capture. */
  predicate PathOk(b: Body, parts: seq<PathPart>) {
    && BodyOk(b) && OnceEach(b) && DistinctNames(parts)
    && AllSelected(b, parts)
    && Apart(b, PartNames(parts))
  }

  predicate AllSelected(b: Body, parts: seq<PathPart>) {
    forall p | p in parts :: SelectionOk(b, p)
  }

  predicate SelectionOk(b: Body, p: PathPart) {
    Reachable(b, p.name) && PartOk(p)
  }

  predicate PartOk(p: PathPart) {
    Parse(p.text).Some? && Insertable(Parse(p.text).value)
  }

  function PartNames(parts: seq<PathPart>): set<string> {
    set p | p in parts :: p.name
  }

  lemma {:induction false} ApartSubset(b: Body, names: set<string>, more: set<string>)
    requires Apart(b, more) && names <= more
    ensures Apart(b, names)
  {
    match b
    case Done =>
    case Or(rest) => ApartSubset(rest, names, more);
    case Then(a, q, rest) =>
      if a.Group? {
        ApartSubset(a.body, names, more);
      }
      ApartSubset(rest, names, more);
  }

  lemma {:induction false} PartBodiesInsertable(parts: seq<PathPart>)
    requires forall p | p in parts :: Parse(p.text).Some? && Insertable(Parse(p.text).value)
    ensures AllInsertable(PartBodies(parts))
    ensures PartBodies(parts).Keys == PartNames(parts)
  {
    if parts != [] {
      PartBodiesInsertable(parts[..|parts| - 1]);
    }
  }

  lemma {:induction false} CompileSplit(pattern: string, parts: seq<PathPart>, last: PathPart)
    ensures CompilePathFrom(pattern, parts + [last]) ==
            match CompilePathFrom(pattern, parts) case Err(e) => Err(e) case Ok(t) => Replaced(t, last.name, last.text)
    decreases |parts|
  {
    if parts == [] {
      assert (parts + [last])[1..] == [];
    } else {
      assert (parts + [last])[1..] == parts[1..] + [last];
      var next := Replaced(pattern, parts[0].name, parts[0].text);
      if next.Ok? {
        CompileSplit(next.value, parts[1..], last);
      }
    }
  }

  lemma {:induction false} NoCapturesApart(b: Body, names: set<string>)
    requires Captures(b) == {}
    ensures Apart(b, names)
  {
    match b
    case Done =>
    case Or(rest) => NoCapturesApart(rest, names);
    case Then(a, _, rest) =>
      if a.Group? {
        NoCapturesApart(a.body, names);
      }
      NoCapturesApart(rest, names);
  }

  lemma {:induction false} SubstAllFewer(b: Body, m: map<string, Body>)
    requires AllInsertable(m)
    ensures Captures(SubstAll(b, m)) <= Captures(b)
  {
    match b
    case Done =>
    case Or(rest) => SubstAllFewer(rest, m);
    case Then(a, _, rest) =>
      if a.Group? {
        SubstAllFewer(a.body, m);
      }
      SubstAllFewer(rest, m);
  }

  lemma {:induction false} SubstAllApart(b: Body, m: map<string, Body>, names: set<string>)
    requires AllInsertable(m) && Apart(b, names)
    ensures Apart(SubstAll(b, m), names)
  {
    match b
    case Done =>
    case Or(rest) => SubstAllApart(rest, m, names);
    case Then(a, _, rest) =>
      if a.Group? {
        if a.head.Named? && a.head.name in m {
          NoCapturesApart(m[a.head.name], names);
        } else {
          SubstAllApart(a.body, m, names);
          SubstAllFewer(a.body, m);
        }
      }
      SubstAllApart(rest, m, names);
  }

  /** Substituted selections leave the head of any other capture first. */
  lemma {:induction false} ReachableAfter(b: Body, parts: seq<PathPart>, y: string)
    requires PathOk(b, parts) && Reachable(b, y) && y !in PartNames(parts) && Apart(b, PartNames(parts) + {y})
    ensures Reachable(SubstAll(b, PartBodies(parts)), y)
  {
    if parts == [] {
      SubstAllNone(b, PartBodies(parts));
    } else {
      var n := |parts| - 1;
      var front, last := parts[..n], parts[n];
      FrontPathOk(b, parts, n);
      FrontNames(parts);
      PartBodiesInsertable(front);
      ApartSubset(b, PartNames(front) + {y}, PartNames(parts) + {y});
      ApartSubset(b, {last.name, y}, PartNames(parts) + {y});
      ReachableAfter(b, front, y);
      assert last in parts;
      OneMore(b, front, last);
      var m, x := PartBodies(front), Parse(last.text).value;
      LocateIff(b, y);
      SubstAllCaptures(b, m, y);
      SubstAllApart(b, m, {last.name, y});
      HeadFirstStays(SubstAll(b, m), last.name, y, x);
    }
  }

  lemma FrontPathOk(b: Body, parts: seq<PathPart>, n: nat)
    requires PathOk(b, parts) && n <= |parts|
    ensures PathOk(b, parts[..n])
  {
    assert forall p :: p in parts[..n] ==> p in parts;
    ApartSubset(b, PartNames(parts[..n]), PartNames(parts));
  }

  /** The selections before the last, and the last one after them. */
  lemma FrontNames(parts: seq<PathPart>)
    requires DistinctNames(parts) && parts != []
    ensures var n := |parts| - 1; var front, last := parts[..n], parts[n];
      && parts == front + [last] && last.name !in PartNames(front) && last in parts
      && PartNames(parts) == PartNames(front) + {last.name}
  {
    var n := |parts| - 1;
    assert parts == parts[..n] + [parts[n]];
  }

  /** The substitution extended by one selection. */
  lemma OneMore(b: Body, front: seq<PathPart>, last: PathPart)
    requires PathOk(b, front) && last.name !in PartNames(front) && Reachable(b, last.name)
    requires Apart(b, PartNames(front) + {last.name}) && Parse(last.text).Some? && Insertable(Parse(last.text).value)
    requires forall p | p in front + [last] :: Parse(p.text).Some?
    ensures var m, x := PartBodies(front), Parse(last.text).value;
      && BodyOk(SubstAll(b, m)) && last.name in Captures(SubstAll(b, m))
      && Subst(SubstAll(b, m), last.name, x) == SubstAll(b, m[last.name := x])
      && PartBodies(front + [last]) == m[last.name := x]
  {
    PartBodiesInsertable(front);
    var m := PartBodies(front);
    LocateIff(b, last.name);
    SubstAllKeeps(b, m);
    SubstAllCaptures(b, m, last.name);
    SubstStep(b, m, last.name, Parse(last.text).value);
    assert (front + [last])[..|front|] == front;
  }

  /** Compiling the selectors one after the other is the simultaneous substitution. */
  lemma {:induction false} CompilePathIsSubstAll(b: Body, parts: seq<PathPart>)
    requires PathOk(b, parts)
    ensures CompilePathFrom(Print(b), parts) == Ok(Print(SubstAll(b, PartBodies(parts))))
  {
    if parts == [] {
      SubstAllNone(b, PartBodies(parts));
    } else {
      var n := |parts| - 1;
      var front, last := parts[..n], parts[n];
      FrontPathOk(b, parts, n);
      FrontNames(parts);
      CompilePathIsSubstAll(b, front);
      CompileSplit(Print(b), front, last);
      assert last in parts;
      OneMore(b, front, last);
      ReachableAfter(b, front, last.name);
      ParseSound(last.text);
      ReplaceAtHead(SubstAll(b, PartBodies(front)), last.name, Parse(last.text).value);
    }
  }

  lemma {:induction false} PartBodiesAt(parts: seq<PathPart>, p: PathPart)
    requires (forall q | q in parts :: Parse(q.text).Some?) && DistinctNames(parts) && p in parts
    ensures p.name in PartBodies(parts) && PartBodies(parts)[p.name] == Parse(p.text).value
  {
    var n := |parts| - 1;
    if parts[n] != p {
      var k :| 0 <= k < |parts| && parts[k] == p;
      assert parts[..n][k] == p;
      PartBodiesAt(parts[..n], p);
      assert parts[k].name != parts[n].name;
    }
  }

  /** Every order of the same selectors compiles to the same text. */
  lemma CompilePathAnyOrder(b: Body, parts: seq<PathPart>, other: seq<PathPart>)
    requires PathOk(b, parts) && PathOk(b, other)
    requires forall p :: p in parts <==> p in other
    ensures CompilePathFrom(Print(b), parts) == CompilePathFrom(Print(b), other)
  {
    CompilePathIsSubstAll(b, parts);
    CompilePathIsSubstAll(b, other);
    BodiesAnyOrder(parts, other);
  }

  lemma BodiesAnyOrder(parts: seq<PathPart>, other: seq<PathPart>)
    requires (forall q | q in parts :: Parse(q.text).Some?) && (forall q | q in other :: Parse(q.text).Some?)
    requires DistinctNames(parts) && DistinctNames(other) && forall p :: p in parts <==> p in other
    ensures PartBodies(parts) == PartBodies(other)
  {
    var m, k := PartBodies(parts), PartBodies(other);
    forall n | n in m ensures n in k && m[n] == k[n] {
      var p :| p in parts && p.name == n;
      PartBodiesAt(parts, p);
      PartBodiesAt(other, p);
    }
    assert m.Keys == k.Keys;
  }

  lemma {:induction false} OnceApart(b: Body, n: string)
    requires OnceEach(b)
    ensures Apart(b, {n})
  {
    match b
    case Done =>
    case Or(rest) => OnceApart(rest, n);
    case Then(a, q, rest) =>
      if a.Group? {
        OnceApart(a.body, n);
      }
      OnceApart(rest, n);
  }

  /** One replacement, and what it leaves. */
  lemma ReplaceOne(b: Body, p: PathPart)
    requires BodyOk(b) && OnceEach(b) && Reachable(b, p.name)
    requires Parse(p.text).Some? && Insertable(Parse(p.text).value)
    ensures var m := map[p.name := Parse(p.text).value];
      Replaced(Print(b), p.name, p.text) == Ok(Print(SubstAll(b, m))) && BodyOk(SubstAll(b, m))
  {
    var x := Parse(p.text).value;
    OneSubst(b, p.name, x);
    ParseSound(p.text);
    ReplaceAtHead(b, p.name, x);
    SubstAllKeeps(b, map[p.name := x]);
  }

  /** Substituting one capture. */
  lemma OneSubst(b: Body, n: string, x: Body)
    requires OnceEach(b) && Locate(b, n).Some? && Insertable(x)
    ensures SubstAll(b, map[n := x]) == Subst(b, n, x)
  {
    OnceApart(b, n);
    LocateIff(b, n);
    var none: map<string, Body> := map[];
    assert none.Keys + {n} == {n} && none[n := x] == map[n := x];
    SubstStep(b, none, n, x);
    SubstAllNone(b, none);
  }

  lemma TwoParts(t: string, x: PathPart, y: PathPart)
    ensures CompilePathFrom(t, [x, y]) ==
            match Replaced(t, x.name, x.text) case Err(e) => Err(e) case Ok(u) => Replaced(u, y.name, y.text)
  {
    CompileSplit(t, [x], y);
    assert [x] + [y] == [x, y] && [x][1..] == [];
  }

  lemma {:induction false} SubstAgain(b: Body, n: string, p: Body, q: Body)
    ensures SubstAll(SubstAll(b, map[n := p]), map[n := q]) == SubstAll(b, map[n := q])
  {
    match b
    case Done =>
    case Or(rest) => SubstAgain(rest, n, p, q);
    case Then(a, _, rest) =>
      if a.Group? {
        SubstAgain(a.body, n, p, q);
      }
      SubstAgain(rest, n, p, q);
  }

  lemma {:induction false} NoCapturesOnce(b: Body)
    requires Captures(b) == {}
    ensures OnceEach(b)
  {
    match b
    case Done =>
    case Or(rest) => NoCapturesOnce(rest);
    case Then(a, _, rest) =>
      if a.Group? {
        NoCapturesOnce(a.body);
      }
      NoCapturesOnce(rest);
  }

  lemma {:induction false} SubstOnce(b: Body, n: string, p: Body)
    requires OnceEach(b) && Captures(p) == {}
    ensures OnceEach(SubstAll(b, map[n := p])) && Captures(SubstAll(b, map[n := p])) <= Captures(b)
    ensures n in Captures(b) ==> n in Captures(SubstAll(b, map[n := p]))
  {
    match b
    case Done =>
    case Or(rest) => SubstOnce(rest, n, p);
    case Then(a, _, rest) =>
      if a.Group? {
        SubstOnce(a.body, n, p);
        NoCapturesOnce(p);
      }
      SubstOnce(rest, n, p);
  }

  /** A second replacement of the same capture overrides the first. */
  lemma SecondOverrides(b: Body, x: PathPart, y: PathPart)
    requires BodyOk(b) && OnceEach(b) && x.name == y.name && Reachable(b, x.name)
    requires Parse(x.text).Some? && Insertable(Parse(x.text).value)
    requires Parse(y.text).Some? && Insertable(Parse(y.text).value)
    ensures CompilePathFrom(Print(b), [x, y]) == CompilePathFrom(Print(b), [y])
  {
    var p, q := Parse(x.text).value, Parse(y.text).value;
    TwoParts(Print(b), x, y);
    ReplaceOne(b, x);
    ReplaceOne(b, y);
    SubstOnce(b, x.name, p);
    OneSubst(b, x.name, p);
    HeadFirstSame(b, x.name, p);
    ReplaceOne(SubstAll(b, map[x.name := p]), y);
    SubstAgain(b, x.name, p, q);
    assert [y][1..] == [];
  }

  lemma PlainReachable(b: Body, name: string)
    requires BodyOk(b) && Plain(b) && name in Captures(b)
    ensures Reachable(b, name) && NameOk(name)
  {
    LocateIff(b, name);
    LocateOk(b, name);
    PlainHeadFirst(b, name);
  }

  // ----- what the compiled path matches

  /** The constraints say about captured text what the inserted bodies match. */
  ghost predicate Agree(m: map<string, Body>, caps: Caps, s: string) {
    && m.Keys == caps.Keys
    && forall n, i: nat, j: nat | n in m && i <= j <= |s| ::
         MatchBody(m[n], NO_CAPS, s, i, j) <==> caps[n](s[i..j])
  }

  lemma {:induction false} SubstAtomMatch(a: Atom, m: map<string, Body>, caps: Caps, s: string, i: nat, j: nat)
    requires i <= j <= |s| && Agree(m, caps, s)
    ensures MatchAtom(SubstAllAtom(a, m), NO_CAPS, s, i, j) <==> MatchAtom(a, caps, s, i, j)
    decreases a, 0, 0
  {
    if a.Group? && !(a.head.Named? && a.head.name in m) {
      SubstBodyMatch(a.body, m, caps, s, i, j);
    }
  }

  lemma {:induction false} SubstStarMatch(a: Atom, m: map<string, Body>, caps: Caps, s: string, i: nat, j: nat)
    requires i <= j <= |s| && Agree(m, caps, s)
    ensures MatchStar(SubstAllAtom(a, m), NO_CAPS, s, i, j) <==> MatchStar(a, caps, s, i, j)
    decreases a, 1, j - i
  {
    var a' := SubstAllAtom(a, m);
    forall k: nat | Cut(i, k, j) && i < k
      ensures MatchAtom(a', NO_CAPS, s, i, k) <==> MatchAtom(a, caps, s, i, k)
      ensures MatchStar(a', NO_CAPS, s, k, j) <==> MatchStar(a, caps, s, k, j)
    {
      SubstAtomMatch(a, m, caps, s, i, k);
      SubstStarMatch(a, m, caps, s, k, j);
    }
  }

  lemma {:induction false} SubstTimesMatch(a: Atom, n: nat, m: map<string, Body>, caps: Caps, s: string, i: nat, j: nat)
    requires i <= j <= |s| && Agree(m, caps, s)
    ensures MatchTimes(SubstAllAtom(a, m), n, NO_CAPS, s, i, j) <==> MatchTimes(a, n, caps, s, i, j)
    decreases a, 1, n
  {
    var a' := SubstAllAtom(a, m);
    if n > 0 {
      var n' := n - 1;
      forall k: nat | Cut(i, k, j)
        ensures MatchAtom(a', NO_CAPS, s, i, k) <==> MatchAtom(a, caps, s, i, k)
        ensures MatchTimes(a', n', NO_CAPS, s, k, j) <==> MatchTimes(a, n', caps, s, k, j)
      {
        SubstAtomMatch(a, m, caps, s, i, k);
        SubstTimesMatch(a, n', m, caps, s, k, j);
      }
    }
  }

  lemma {:induction false} SubstQuantMatch(a: Atom, q: Quant, m: map<string, Body>, caps: Caps, s: string, i: nat,
                                           j: nat)
    requires i <= j <= |s| && Agree(m, caps, s)
    ensures MatchQuant(SubstAllAtom(a, m), q, NO_CAPS, s, i, j) <==> MatchQuant(a, q, caps, s, i, j)
    decreases a, 2, 0
  {
    match q
    case Once => SubstAtomMatch(a, m, caps, s, i, j);
    case Opt => SubstAtomMatch(a, m, caps, s, i, j);
    case Star => SubstStarMatch(a, m, caps, s, i, j);
    case Times(n) => SubstTimesMatch(a, n, m, caps, s, i, j);
    case Plus =>
      var a' := SubstAllAtom(a, m);
      forall k: nat | Cut(i, k, j)
        ensures MatchAtom(a', NO_CAPS, s, i, k) <==> MatchAtom(a, caps, s, i, k)
        ensures MatchStar(a', NO_CAPS, s, k, j) <==> MatchStar(a, caps, s, k, j)
      {
        SubstAtomMatch(a, m, caps, s, i, k);
        SubstStarMatch(a, m, caps, s, k, j);
      }
  }

  lemma {:induction false} SubstBranchMatch(b: Body, m: map<string, Body>, caps: Caps, s: string, i: nat, j: nat)
    requires i <= j <= |s| && Agree(m, caps, s)
    ensures MatchBranch(SubstAll(b, m), NO_CAPS, s, i, j) <==> MatchBranch(b, caps, s, i, j)
    decreases b, 0, 0
  {
    if b.Then? {
      var a', rest' := SubstAllAtom(b.atom, m), SubstAll(b.rest, m);
      forall k: nat | Cut(i, k, j)
        ensures MatchQuant(a', b.quant, NO_CAPS, s, i, k) <==> MatchQuant(b.atom, b.quant, caps, s, i, k)
        ensures MatchBranch(rest', NO_CAPS, s, k, j) <==> MatchBranch(b.rest, caps, s, k, j)
      {
        SubstQuantMatch(b.atom, b.quant, m, caps, s, i, k);
        SubstBranchMatch(b.rest, m, caps, s, k, j);
      }
    }
  }

  lemma {:induction false} SubstAfterOr(b: Body, m: map<string, Body>)
    ensures AfterOr(SubstAll(b, m)) == match AfterOr(b) case None => None case Some(c) => Some(SubstAll(c, m))
  {
    if b.Then? {
      SubstAfterOr(b.rest, m);
    }
  }

  lemma {:induction false} SubstBodyMatch(b: Body, m: map<string, Body>, caps: Caps, s: string, i: nat, j: nat)
    requires i <= j <= |s| && Agree(m, caps, s)
    ensures MatchBody(SubstAll(b, m), NO_CAPS, s, i, j) <==> MatchBody(b, caps, s, i, j)
    decreases b, 1, 0
  {
    SubstBranchMatch(b, m, caps, s, i, j);
    SubstAfterOr(b, m);
    if AfterOr(b).Some? {
      SubstBodyMatch(AfterOr(b).value, m, caps, s, i, j);
    }
  }

  /** The compiled path regex finds a match exactly when the original one does with its constrained
      captures read as constraints, in place of the bodies they had. */
  lemma CompiledPathMatches(b: Body, parts: seq<PathPart>, caps: Caps, s: string)
    requires PathOk(b, parts) && Agree(PartBodies(parts), caps, s)
    ensures CompilePathFrom(Print(b), parts).Ok?
    ensures Matches(CompilePathFrom(Print(b), parts).value, s) <==> Found(b, caps, s)
  {
    CompilePathIsSubstAll(b, parts);
    PartBodiesInsertable(parts);
    var m := PartBodies(parts);
    SubstAllKeeps(b, m);
    RoundTrip(SubstAll(b, m));
    forall i: nat, j: nat | i <= j <= |s|
      ensures MatchBody(SubstAll(b, m), NO_CAPS, s, i, j) <==> MatchBody(b, caps, s, i, j)
    {
      SubstBodyMatch(b, m, caps, s, i, j);
    }
  }
}
