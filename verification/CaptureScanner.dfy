/**
 `replaceNamedCaptureBody`: a scanner over regex text that splices a new body into a named
 capture. The scanner is proved against the syntax tree of the text.
 */
module CaptureScanner {
  import opened Basics
  import opened RegexSyntax

  // ----- the scanner

  /** `strings.Index`. */
  function IndexOf(t: string, p: string): (k: Option<nat>)
    ensures k.Some? ==> k.value + |p| <= |t| && p <= t[k.value..]
  {
    if p <= t then Some(0)
    else if t == [] then None
    else match IndexOf(t[1..], p) case None => None case Some(k) => Some(k + 1)
  }

  function CaptureHead(name: string): string {
    "(" + HeadTail(Named(name))
  }

  /** What is left of the text at the parenthesis that brings the depth to zero. */
  function ScanRest(t: string, inClass: bool, escaped: bool, depth: nat): Option<string>
    requires depth > 0
  {
    if t == [] then None
    else if escaped then ScanRest(t[1..], inClass, false, depth)
    else if t[0] == '\\' then ScanRest(t[1..], inClass, true, depth)
    else if t[0] == '[' then ScanRest(t[1..], true, false, depth)
    else if t[0] == ']' then ScanRest(t[1..], false, false, depth)
    else if t[0] == '(' && !inClass then ScanRest(t[1..], inClass, false, depth + 1)
    else if t[0] == ')' && !inClass then
      if depth == 1 then Some(t) else ScanRest(t[1..], inClass, false, depth - 1)
    else ScanRest(t[1..], inClass, false, depth)
  }

  function Spliced(front: string, replacement: string, found: Option<string>): Result<string> {
    if found.None? then Err("pathRegex capture is not closed") else Ok(front + replacement + found.value)
  }

  function Replaced(pattern: string, name: string, replacement: string): Result<string> {
    match IndexOf(pattern, CaptureHead(name))
    case None => Err("pathRegex must contain named capture")
    case Some(k) => SpliceAt(pattern, k + |CaptureHead(name)|, replacement)
  }

  function SpliceAt(pattern: string, start: nat, replacement: string): Result<string>
    requires start <= |pattern|
  {
    Spliced(pattern[..start], replacement, ScanRest(pattern[start..], false, false, 1))
  }

  /** The same scan by position, as the loop runs it. */
  function ScanAt(t: string, idx: nat, inClass: bool, escaped: bool, depth: nat): (k: Option<nat>)
    requires idx <= |t| && depth > 0
    ensures k.Some? ==> idx <= k.value < |t|
    decreases |t| - idx
  {
    if idx == |t| then None
    else if escaped then ScanAt(t, idx + 1, inClass, false, depth)
    else if t[idx] == '\\' then ScanAt(t, idx + 1, inClass, true, depth)
    else if t[idx] == '[' then ScanAt(t, idx + 1, true, false, depth)
    else if t[idx] == ']' then ScanAt(t, idx + 1, false, false, depth)
    else if t[idx] == '(' && !inClass then ScanAt(t, idx + 1, inClass, false, depth + 1)
    else if t[idx] == ')' && !inClass then
      if depth == 1 then Some(idx) else ScanAt(t, idx + 1, inClass, false, depth - 1)
    else ScanAt(t, idx + 1, inClass, false, depth)
  }

  lemma {:induction false} ScanAgrees(t: string, idx: nat, inClass: bool, escaped: bool, depth: nat)
    requires idx <= |t| && depth > 0
    ensures ScanRest(t[idx..], inClass, escaped, depth) ==
            match ScanAt(t, idx, inClass, escaped, depth) case None => None case Some(k) => Some(t[k..])
    decreases |t| - idx
  {
    if idx < |t| {
      var ch := t[idx];
      assert t[idx..][0] == ch && t[idx..][1..] == t[idx + 1..];
      var class' := if !escaped && ch == '[' then true else if !escaped && ch == ']' then false else inClass;
      var depth' :=
        if escaped || inClass then depth
        else if ch == '(' then depth + 1
        else if ch == ')' then depth - 1
        else depth;
      if depth' > 0 {
        ScanAgrees(t, idx + 1, class', !escaped && ch == '\\', depth');
      }
    }
  }

  /** The loop: the position of the parenthesis that closes the capture. */
  method FindClose(pattern: string, start: nat) returns (found: Option<nat>)
    requires start <= |pattern|
    ensures found == ScanAt(pattern, start, false, false, 1)
  {
    var inClass, escaped, depth := false, false, 1;
    for idx := start to |pattern|
      invariant depth > 0
      invariant ScanAt(pattern, start, false, false, 1) == ScanAt(pattern, idx, inClass, escaped, depth)
    {
      var ch := pattern[idx];
      if escaped {
        escaped := false;
      } else if ch == '\\' {
        escaped := true;
      } else if ch == '[' {
        inClass := true;
      } else if ch == ']' {
        inClass := false;
      } else if ch == '(' && !inClass {
        depth := depth + 1;
      } else if ch == ')' && !inClass {
        depth := depth - 1;
        if depth == 0 {
          return Some(idx);
        }
      }
    }
    return None;
  }

  method ReplaceNamedCaptureBody(pattern: string, name: string, replacement: string) returns (r: Result<string>)
    ensures r == Replaced(pattern, name, replacement)
  {
    var index := IndexOf(pattern, CaptureHead(name));
    if index.None? {
      return Err("pathRegex must contain named capture");
    }
    var start := index.value + |CaptureHead(name)|;
    var found := FindClose(pattern, start);
    ScanAgrees(pattern, start, false, false, 1);
    assert Replaced(pattern, name, replacement) == SpliceAt(pattern, start, replacement);
    if found.Some? {
      return Ok(pattern[..start] + replacement + pattern[found.value..]);
    }
    return Err("pathRegex capture is not closed");
  }

  // ----- what the scanner sees of printed syntax

  /** Characters that leave the scanner's state alone. */
  predicate Inert(u: string) {
    forall i :: 0 <= i < |u| ==> u[i] != '\\' && u[i] != '[' && u[i] != ']' && u[i] != '(' && u[i] != ')'
  }

  lemma {:induction false} ScanInert(u: string, rest: string, inClass: bool, depth: nat)
    requires Inert(u) && depth > 0
    ensures ScanRest(u + rest, inClass, false, depth) == ScanRest(rest, inClass, false, depth)
  {
    if u == [] {
      assert u + rest == rest;
    } else {
      assert (u + rest)[1..] == u[1..] + rest;
      ScanInert(u[1..], rest, inClass, depth);
    }
  }

  lemma {:induction false} ScanToks(toks: seq<ClassTok>, rest: string, depth: nat)
    requires (forall i :: 0 <= i < |toks| ==> TokOk(toks[i])) && depth > 0
    ensures ScanRest(PrintToks(toks) + ("]" + rest), true, false, depth) == ScanRest(rest, false, false, depth)
  {
    var tail := "]" + rest;
    if toks == [] {
      assert PrintToks(toks) + tail == tail && tail[1..] == rest;
    } else {
      var u := PrintToks(toks[1..]) + tail;
      ScanToks(toks[1..], rest, depth);
      match toks[0] {
        case Raw(c) =>
          Assoc([c], PrintToks(toks[1..]), tail);
          assert ([c] + u)[1..] == u;
        case Quoted(c) =>
          Assoc(['\\', c], PrintToks(toks[1..]), tail);
          assert (['\\', c] + u)[1..] == [c] + u && ([c] + u)[1..] == u;
      }
    }
  }

  lemma QuantInert(q: Quant)
    ensures Inert(PrintQuant(q))
  {
    if q.Times? {
      Decimal.NumeralIsCanonical(q.n);
    }
  }

  lemma HeadInert(h: Head)
    requires HeadOk(h)
    ensures Inert(HeadTail(h))
  {
  }

  lemma {:induction false} ScanAtom(a: Atom, rest: string, depth: nat)
    requires AtomOk(a) && depth > 0
    ensures ScanRest(PrintAtom(a) + rest, false, false, depth) == ScanRest(rest, false, false, depth)
  {
    match a
    case Group(h, b) =>
      GroupText(HeadTail(h), Print(b), rest);
      var close := ")" + rest;
      var inner := HeadTail(h) + (Print(b) + close);
      assert ("(" + inner)[1..] == inner;
      HeadInert(h);
      ScanInert(HeadTail(h), Print(b) + close, false, depth + 1);
      ScanBody(b, close, depth + 1);
      assert close[1..] == rest;
    case Set(toks) =>
      Assoc("[", PrintToks(toks) + "]", rest);
      Assoc(PrintToks(toks), "]", rest);
      Assoc("[", PrintToks(toks), "]");
      var u := PrintToks(toks) + ("]" + rest);
      assert ("[" + u)[1..] == u;
      ScanToks(toks, rest, depth);
    case Esc(c) =>
      assert (['\\', c] + rest)[1..] == [c] + rest && ([c] + rest)[1..] == rest;
    case Lit(c) =>
      ScanInert([c], rest, false, depth);
    case Dot =>
      ScanInert(".", rest, false, depth);
    case Bol =>
      ScanInert("^", rest, false, depth);
    case Eol =>
      ScanInert("$", rest, false, depth);
  }

  /** Scanning a printed body ends in the state it began in, at the text that follows. */
  lemma {:induction false} ScanBody(b: Body, rest: string, depth: nat)
    requires BodyOk(b) && depth > 0
    ensures ScanRest(Print(b) + rest, false, false, depth) == ScanRest(rest, false, false, depth)
  {
    match b
    case Done =>
      assert Print(b) + rest == rest;
    case Or(next) =>
      Assoc("|", Print(next), rest);
      ScanInert("|", Print(next) + rest, false, depth);
      ScanBody(next, rest, depth);
    case Then(a, q, next) =>
      Glue(PrintAtom(a), PrintQuant(q), Print(next), rest);
      ScanAtom(a, PrintQuant(q) + (Print(next) + rest), depth);
      QuantInert(q);
      ScanInert(PrintQuant(q), Print(next) + rest, false, depth);
      ScanBody(next, rest, depth);
  }

  // ----- where a capture is

  /** The text before a capture, its body, and the text after its closing parenthesis. */
  datatype Place = Place(pre: string, inner: Body, post: string)

  function LocateAtom(a: Atom, name: string): Option<Place> {
    match a
    case Group(h, b) =>
      if h == Named(name) then Some(Place("", b, ""))
      else (
        match Locate(b, name)
        case None => None
        case Some(l) => Some(Place("(" + HeadTail(h) + l.pre, l.inner, l.post + ")")))
    case _ => None
  }

  /** The first capture with the given name, in reading order. */
  function Locate(b: Body, name: string): Option<Place> {
    match b
    case Done => None
    case Or(rest) =>
      (match Locate(rest, name)
       case None => None
       case Some(l) => Some(Place("|" + l.pre, l.inner, l.post)))
    case Then(a, q, rest) =>
      match LocateAtom(a, name)
      case Some(l) => Some(Place(l.pre, l.inner, l.post + (PrintQuant(q) + Print(rest))))
      case None =>
        match Locate(rest, name)
        case None => None
        case Some(l) => Some(Place(PrintAtom(a) + PrintQuant(q) + l.pre, l.inner, l.post))
  }

  function SubstAtom(a: Atom, name: string, body: Body): Atom {
    match a
    case Group(h, b) => if h == Named(name) then Group(h, body) else Group(h, Subst(b, name, body))
    case _ => a
  }

  /** The tree with the body of that capture replaced. */
  function Subst(b: Body, name: string, body: Body): Body {
    match b
    case Done => b
    case Or(rest) => Or(Subst(rest, name, body))
    case Then(a, q, rest) =>
      if LocateAtom(a, name).Some? then Then(SubstAtom(a, name, body), q, rest)
      else Then(a, q, Subst(rest, name, body))
  }

  function Around(pre: string, head: string, body: string, post: string): string {
    pre + (head + (body + (")" + post)))
  }

  lemma AroundLeft(x: string, pre: string, head: string, body: string, post: string)
    ensures x + Around(pre, head, body, post) == Around(x + pre, head, body, post)
  {
  }

  lemma AroundRight(pre: string, head: string, body: string, post: string, y: string)
    ensures Around(pre, head, body, post) + y == Around(pre, head, body, post + y)
  {
    Glue(head, body, ")" + post, y);
    Assoc(")", post, y);
    Assoc(pre, head + (body + (")" + post)), y);
  }

  lemma {:induction false} LocateAtomText(a: Atom, name: string, body: Body)
    requires LocateAtom(a, name).Some?
    ensures var l := LocateAtom(a, name).value;
      && PrintAtom(a) == Around(l.pre, CaptureHead(name), Print(l.inner), l.post)
      && PrintAtom(SubstAtom(a, name, body)) == Around(l.pre, CaptureHead(name), Print(body), l.post)
  {
    if a.head == Named(name) {
      NamedText(name, a.body);
      NamedText(name, body);
    } else {
      LocateText(a.body, name, body);
      var l := Locate(a.body, name).value;
      Wrap(a.head, l.pre, CaptureHead(name), Print(l.inner), l.post);
      Wrap(a.head, l.pre, CaptureHead(name), Print(body), l.post);
    }
  }

  lemma NamedText(name: string, b: Body)
    ensures PrintAtom(Group(Named(name), b)) == Around("", CaptureHead(name), Print(b), "")
  {
    Assoc("(", HeadTail(Named(name)), Print(b) + ")");
    assert ")" + "" == ")";
    var t := CaptureHead(name) + (Print(b) + ")");
    assert "" + t == t;
  }

  lemma Wrap(h: Head, pre: string, head: string, body: string, post: string)
    ensures "(" + (HeadTail(h) + (Around(pre, head, body, post) + ")"))
         == Around("(" + HeadTail(h) + pre, head, body, post + ")")
  {
    AroundRight(pre, head, body, post, ")");
    AroundLeft(HeadTail(h), pre, head, body, post + ")");
    AroundLeft("(", HeadTail(h) + pre, head, body, post + ")");
    Assoc("(", HeadTail(h), pre);
  }

  /** The printed tree, and the printed substitution, around the capture. */
  lemma {:induction false} LocateText(b: Body, name: string, body: Body)
    requires Locate(b, name).Some?
    ensures var l := Locate(b, name).value;
      && Print(b) == Around(l.pre, CaptureHead(name), Print(l.inner), l.post)
      && Print(Subst(b, name, body)) == Around(l.pre, CaptureHead(name), Print(body), l.post)
  {
    var head := CaptureHead(name);
    if b.Or? {
      LocateText(b.rest, name, body);
      var l := Locate(b.rest, name).value;
      AroundLeft("|", l.pre, head, Print(l.inner), l.post);
      AroundLeft("|", l.pre, head, Print(body), l.post);
    } else if LocateAtom(b.atom, name).Some? {
      LocateAtomText(b.atom, name, body);
      var l := LocateAtom(b.atom, name).value;
      var y := PrintQuant(b.quant) + Print(b.rest);
      AroundRight(l.pre, head, Print(l.inner), l.post, y);
      AroundRight(l.pre, head, Print(body), l.post, y);
    } else {
      LocateText(b.rest, name, body);
      var l := Locate(b.rest, name).value;
      var x := PrintAtom(b.atom) + PrintQuant(b.quant);
      AroundLeft(x, l.pre, head, Print(l.inner), l.post);
      AroundLeft(x, l.pre, head, Print(body), l.post);
      Assoc(PrintAtom(b.atom), PrintQuant(b.quant), Print(b.rest));
      Assoc(PrintAtom(b.atom), PrintQuant(b.quant), Print(Subst(b.rest, name, body)));
    }
  }

  lemma {:induction false} LocateOk(b: Body, name: string)
    requires BodyOk(b) && Locate(b, name).Some?
    ensures BodyOk(Locate(b, name).value.inner) && NameOk(name)
  {
    match b
    case Or(rest) => LocateOk(rest, name);
    case Then(a, q, rest) =>
      if LocateAtom(a, name).Some? {
        if a.head != Named(name) {
          LocateOk(a.body, name);
        }
      } else {
        LocateOk(rest, name);
      }
  }

  lemma {:induction false} SubstOk(b: Body, name: string, body: Body)
    requires BodyOk(b) && BodyOk(body)
    ensures BodyOk(Subst(b, name, body))
  {
    match b
    case Done =>
    case Or(rest) => SubstOk(rest, name, body);
    case Then(a, q, rest) =>
      if a.Group? {
        SubstOk(a.body, name, body);
      }
      SubstOk(rest, name, body);
  }

  // ----- the scanner against the tree

  /** The first textual occurrence of `(?P<name>` is the capture itself. A caller can check this
      with one substring search. */
  predicate HeadFirst(b: Body, name: string)
    requires Locate(b, name).Some?
  {
    IndexOf(Print(b), CaptureHead(name)) == Some(|Locate(b, name).value.pre|)
  }

  /** The scanner stops at the parenthesis that closes the capture. */
  lemma ReplaceAtHead(b: Body, name: string, body: Body)
    requires BodyOk(b) && Locate(b, name).Some? && HeadFirst(b, name)
    ensures Replaced(Print(b), name, Print(body)) == Ok(Print(Subst(b, name, body)))
  {
    LocateText(b, name, body);
    LocateOk(b, name);
    var l := Locate(b, name).value;
    ScanBody(l.inner, ")" + l.post, 1);
    SpliceText(Print(b), name, l.pre, Print(l.inner), l.post, Print(body));
  }

  lemma SpliceText(t: string, name: string, pre: string, inner: string, post: string, replacement: string)
    requires t == Around(pre, CaptureHead(name), inner, post)
    requires IndexOf(t, CaptureHead(name)) == Some(|pre|)
    requires ScanRest(inner + (")" + post), false, false, 1) == ScanRest(")" + post, false, false, 1)
    ensures Replaced(t, name, replacement) == Ok(Around(pre, CaptureHead(name), replacement, post))
  {
    SpliceAround(t, CaptureHead(name), pre, inner, post, replacement);
  }

  lemma SpliceAround(t: string, head: string, pre: string, inner: string, post: string, replacement: string)
    requires t == Around(pre, head, inner, post) && |pre| + |head| <= |t|
    requires ScanRest(inner + (")" + post), false, false, 1) == ScanRest(")" + post, false, false, 1)
    ensures SpliceAt(t, |pre| + |head|, replacement) == Ok(Around(pre, head, replacement, post))
  {
    AroundSlices(pre, head, inner, post);
    AroundAgain(pre, head, replacement, post);
    CloseHere(")" + post);
  }

  lemma CloseHere(t: string)
    requires t != [] && t[0] == ')'
    ensures ScanRest(t, false, false, 1) == Some(t)
  {
  }

  lemma AroundSlices(pre: string, head: string, body: string, post: string)
    ensures Around(pre, head, body, post)[..|pre| + |head|] == pre + head
    ensures Around(pre, head, body, post)[|pre| + |head|..] == body + (")" + post)
  {
    var tail := body + (")" + post);
    Assoc(pre, head, tail);
    var front := pre + head;
    assert (front + tail)[..|front|] == front && (front + tail)[|front|..] == tail;
  }

  lemma AroundAgain(pre: string, head: string, body: string, post: string)
    ensures pre + head + body + (")" + post) == Around(pre, head, body, post)
  {
    Glue(pre, head, body, ")" + post);
  }

  lemma {:induction false} IndexOfIsFirst(t: string, p: string, k: nat)
    requires k + |p| <= |t| && p <= t[k..]
    ensures IndexOf(t, p).Some? && IndexOf(t, p).value <= k
  {
    assert k == 0 ==> t[k..] == t;
    if !(p <= t) {
      assert t[1..][k - 1..] == t[k..];
      IndexOfIsFirst(t[1..], p, k - 1);
    }
  }

  lemma SplicedChar(t: string, name: string, k: nat, c: char, other: string)
    requires IndexOf(t, CaptureHead(name)) == Some(k) && k + |CaptureHead(name)| < |other|
    requires other[k + |CaptureHead(name)|] != c
    ensures Replaced(t, name, [c]) != Ok(other)
  {
    var r, at := Replaced(t, name, [c]), k + |CaptureHead(name)|;
    assert r.Ok? ==> r.value[at] == c;
  }

  lemma AroundFront(pre: string, head: string, body: string, body': string, post: string, i: nat)
    requires i < |pre| + |head|
    ensures Around(pre, head, body, post)[i] == Around(pre, head, body', post)[i]
  {
    AroundSlices(pre, head, body, post);
    AroundSlices(pre, head, body', post);
    assert Around(pre, head, body, post)[i] == (pre + head)[i] == Around(pre, head, body', post)[i];
  }

  function LetterBody(c: char): Body {
    Then(Lit(c), Once, Done)
  }

  lemma LetterText(c: char)
    requires c == 'a' || c == 'b'
    ensures BodyOk(LetterBody(c)) && Print(LetterBody(c)) == [c]
  {
  }

  lemma ElsewhereChar(t: string, name: string, k: nat, c: char, l: Place)
    requires t == Around(l.pre, CaptureHead(name), Print(l.inner), l.post)
    requires IndexOf(t, CaptureHead(name)) == Some(k) && k < |l.pre| && k + |CaptureHead(name)| < |t|
    requires t[k + |CaptureHead(name)|] != c
    ensures Replaced(t, name, [c]) != Ok(Around(l.pre, CaptureHead(name), [c], l.post))
  {
    var head := CaptureHead(name);
    AroundLength(l.pre, head, [c], l.post);
    AroundFront(l.pre, head, Print(l.inner), [c], l.post, k + |head|);
    SplicedChar(t, name, k, c, Around(l.pre, head, [c], l.post));
  }

  /** Splicing elsewhere differs at the first spliced character. */
  lemma ElsewhereDiffers(b: Body, name: string, k: nat)
    requires BodyOk(b) && Locate(b, name).Some?
    requires IndexOf(Print(b), CaptureHead(name)) == Some(k) && k < |Locate(b, name).value.pre|
    ensures exists body :: BodyOk(body) && Replaced(Print(b), name, Print(body)) != Ok(Print(Subst(b, name, body)))
  {
    var t, l, at := Print(b), Locate(b, name).value, k + |CaptureHead(name)|;
    LocateText(b, name, Done);
    AroundLength(l.pre, CaptureHead(name), Print(l.inner), l.post);
    var c := if t[at] == 'a' then 'b' else 'a';
    LetterText(c);
    LocateText(b, name, LetterBody(c));
    ElsewhereChar(t, name, k, c, l);
    assert Replaced(t, name, Print(LetterBody(c))) != Ok(Print(Subst(b, name, LetterBody(c))));
  }

  lemma AroundLength(pre: string, head: string, body: string, post: string)
    ensures |Around(pre, head, body, post)| > |pre| + |head|
  {
  }

  /** For a text in the fragment, replacement is substitution for every new body exactly when the
      capture's head is the first textual occurrence of `(?P<name>`. */
  lemma ReplaceExact(t: string, b: Body, name: string)
    requires Parse(t) == Some(b) && Locate(b, name).Some?
    ensures HeadFirst(b, name) <==>
            forall body | BodyOk(body) :: Replaced(t, name, Print(body)) == Ok(Print(Subst(b, name, body)))
  {
    ParseSound(t);
    var l := Locate(b, name).value;
    LocateText(b, name, Done);
    assert CaptureHead(name) <= t[|l.pre|..];
    IndexOfIsFirst(t, CaptureHead(name), |l.pre|);
    if HeadFirst(b, name) {
      forall body | BodyOk(body) ensures Replaced(t, name, Print(body)) == Ok(Print(Subst(b, name, body))) {
        ReplaceAtHead(b, name, body);
      }
    } else {
      ElsewhereDiffers(b, name, IndexOf(t, CaptureHead(name)).value);
    }
  }

  const SPELLED: seq<ClassTok> := [Raw('('), Raw('?'), Raw('P'), Raw('<'), Raw('i'), Raw('>'), Raw(')')]

  /** The tree of `[(?P<i>)](?P<i>x)`. */
  const SPELLED_BODY: Body := Then(Set(SPELLED), Once, Then(Group(Named("i"), Then(Lit('x'), Once, Done)), Once, Done))

  lemma SpelledText()
    ensures ClassOk(SPELLED) && PrintToks(SPELLED) == "(?P<i>)"
  {
    assert SPELLED[6..] == [Raw(')')] && PrintToks(SPELLED[6..]) == ")";
    assert SPELLED[5..][1..] == SPELLED[6..] && PrintToks(SPELLED[5..]) == ">)";
    assert SPELLED[4..][1..] == SPELLED[5..] && PrintToks(SPELLED[4..]) == "i>)";
    assert SPELLED[3..][1..] == SPELLED[4..] && PrintToks(SPELLED[3..]) == "<i>)";
    assert SPELLED[2..][1..] == SPELLED[3..] && PrintToks(SPELLED[2..]) == "P<i>)";
    assert SPELLED[1..][1..] == SPELLED[2..] && PrintToks(SPELLED[1..]) == "?P<i>)";
  }

  lemma SpelledCapture()
    ensures BodyOk(SPELLED_BODY.rest) && Print(SPELLED_BODY.rest) == "(?P<i>x)"
  {
    var last := SPELLED_BODY.rest;
    assert Print(last.atom.body) == "x";
    assert PrintAtom(last.atom) == "(?P<i>x)";
  }

  lemma SpelledPrint()
    ensures BodyOk(SPELLED_BODY) && Print(SPELLED_BODY) == "[(?P<i>)]" + "(?P<i>x)"
  {
    SpelledText();
    SpelledCapture();
    assert PrintAtom(SPELLED_BODY.atom) == "[(?P<i>)]";
    assert "" + Print(SPELLED_BODY.rest) == Print(SPELLED_BODY.rest);
  }

  lemma SpelledIndex()
    ensures IndexOf("[(?P<i>)](?P<i>x)", CaptureHead("i")) == Some(1)
  {
    var t, head := "[(?P<i>)](?P<i>x)", CaptureHead("i");
    assert t[1..] == head + ")](?P<i>x)";
    assert head <= t[1..] && t[0] != head[0];
  }

  lemma SpelledSplice(t: string, post: string)
    requires t == Around("[", CaptureHead("i"), "", post) && IndexOf(t, CaptureHead("i")) == Some(1)
    ensures Replaced(t, "i", "7") == Ok(Around("[", CaptureHead("i"), "7", post))
  {
    assert "" + (")" + post) == ")" + post;
    SpliceText(t, "i", "[", "", post, "7");
  }

  lemma SpelledPlace()
    ensures Locate(SPELLED_BODY, "i").Some? && |Locate(SPELLED_BODY, "i").value.pre| > 1
  {
    assert Locate(SPELLED_BODY.rest, "i").Some?;
    assert |PrintAtom(SPELLED_BODY.atom)| > 1;
  }

  lemma SpelledAround(post: string)
    requires post == "](?P<i>x)"
    ensures Around("[", CaptureHead("i"), "", post) == "[(?P<i>)](?P<i>x)"
    ensures Around("[", CaptureHead("i"), "7", post) == "[(?P<i>7)](?P<i>x)"
  {
  }

  /** In `[(?P<i>)](?P<i>x)` the class spells the head of the capture: the scanner splices into the
      class, and the capture keeps its old body. */
  lemma SplicesInsideClass(t: string)
    requires t == "[(?P<i>)](?P<i>x)"
    ensures Parse(t) == Some(SPELLED_BODY) && Locate(SPELLED_BODY, "i").Some? && !HeadFirst(SPELLED_BODY, "i")
    ensures Replaced(t, "i", "7") == Ok("[(?P<i>7)](?P<i>x)")
  {
    SpelledIndex();
    SpelledAround("](?P<i>x)");
    SpelledSplice(t, "](?P<i>x)");
    SpelledTree(t);
    SpelledPlace();
  }

  lemma SpelledTree(t: string)
    requires t == "[(?P<i>)](?P<i>x)"
    ensures Parse(t) == Some(SPELLED_BODY) && Print(SPELLED_BODY) == t
  {
    SpelledPrint();
    SpelledWhole(t);
    RoundTrip(SPELLED_BODY);
  }

  lemma SpelledWhole(t: string)
    requires t == "[(?P<i>)](?P<i>x)"
    ensures t == "[(?P<i>)]" + "(?P<i>x)"
  {
  }
}
