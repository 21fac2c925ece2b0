/**
 When path selectors compile, and when their order matters. A selector that comes after one on an
 enclosing capture finds its own capture gone.
 */
module CaptureOrder {
  import opened Basics
  import opened RegexSyntax
  import opened CaptureScanner
  import opened PathCompiler
  import opened Placements
  import opened PlacementCompiler

  // ----- captures inside captures

  /** The captures inside the capture called `name`. */
  function Inside(b: Body, name: string): set<string> {
    if Locate(b, name).Some? then Captures(Locate(b, name).value.inner) else {}
  }

  function InsideAtom(a: Atom, name: string): set<string> {
    if LocateAtom(a, name).Some? then Captures(LocateAtom(a, name).value.inner) else {}
  }

  lemma {:induction false} InsideBelow(b: Body, x: string)
    requires OnceEach(b)
    ensures Inside(b, x) <= Captures(b) && x !in Inside(b, x)
  {
    match b
    case Done =>
    case Or(rest) => InsideBelow(rest, x);
    case Then(a, _, rest) =>
      InsideAtomBelow(a, x);
      InsideBelow(rest, x);
  }

  lemma {:induction false} InsideAtomBelow(a: Atom, x: string)
    requires AtomOnce(a)
    ensures InsideAtom(a, x) <= AtomCaptures(a) && x !in InsideAtom(a, x)
  {
    if a.Group? {
      InsideBelow(a.body, x);
    }
  }

  /** Two captures that are not apart: one is inside the other. */
  lemma {:induction false} NotApartNests(b: Body, x: string, y: string)
    requires OnceEach(b) && x != y
    ensures !Apart(b, {x, y}) <==> y in Inside(b, x) || x in Inside(b, y)
  {
    match b
    case Done =>
    case Or(rest) => NotApartNests(rest, x, y);
    case Then(a, _, rest) =>
      LocateAtomIff(a, x);
      LocateAtomIff(a, y);
      LocateIff(rest, x);
      LocateIff(rest, y);
      InsideBelow(rest, x);
      InsideBelow(rest, y);
      NotApartNests(rest, x, y);
      if a.Group? {
        NestsAtom(a, x, y);
      }
  }

  lemma {:induction false} NestsAtom(a: Atom, x: string, y: string)
    requires a.Group? && AtomOnce(a) && x != y
    ensures !AtomApart(a, {x, y}) <==> y in InsideAtom(a, x) || x in InsideAtom(a, y)
    ensures InsideAtom(a, x) <= AtomCaptures(a) && InsideAtom(a, y) <= AtomCaptures(a)
  {
    NotApartNests(a.body, x, y);
    InsideBelow(a.body, x);
    InsideBelow(a.body, y);
    LocateIff(a.body, x);
    LocateIff(a.body, y);
  }

  /** Replacing a capture removes exactly the captures inside it. */
  lemma {:induction false} SubstDrops(b: Body, x: string, body: Body, y: string)
    requires OnceEach(b) && x != y && Captures(body) == {}
    ensures y in Captures(SubstAll(b, map[x := body])) <==> y in Captures(b) && y !in Inside(b, x)
  {
    match b
    case Done =>
    case Or(rest) => SubstDrops(rest, x, body, y);
    case Then(a, _, rest) =>
      LocateAtomIff(a, x);
      LocateIff(rest, x);
      InsideBelow(rest, x);
      SubstDrops(rest, x, body, y);
      if a.Group? {
        SubstDrops(a.body, x, body, y);
        InsideBelow(a.body, x);
        LocateIff(a.body, x);
      }
  }

  lemma {:induction false} NestedOneWay(b: Body, x: string, y: string)
    requires OnceEach(b) && y in Inside(b, x)
    ensures x !in Inside(b, y)
  {
    match b
    case Done =>
    case Or(rest) => NestedOneWay(rest, x, y);
    case Then(a, _, rest) =>
      LocateAtomIff(a, x);
      LocateAtomIff(a, y);
      InsideBelow(rest, x);
      InsideBelow(rest, y);
      if a.Group? {
        InsideBelow(a.body, x);
        InsideBelow(a.body, y);
        LocateIff(a.body, x);
        LocateIff(a.body, y);
        if y in Inside(a.body, x) {
          NestedOneWay(a.body, x, y);
        }
      }
      if y in Inside(rest, x) {
        NestedOneWay(rest, x, y);
      }
  }

  // ----- heads that are spelled nowhere else

  /** The head of the capture is spelled in the text at the capture itself and nowhere else. A caller can
      check this with one substring search from behind the first occurrence. */
  ghost predicate Alone(b: Body, name: string) {
    forall k: nat :: OccursAt(Print(b), CaptureHead(name), k) ==>
      Locate(b, name).Some? && k == |Locate(b, name).value.pre|
  }

  lemma AloneReachable(b: Body, name: string)
    requires Alone(b, name) && name in Captures(b)
    ensures Reachable(b, name)
  {
    LocateIff(b, name);
    HeadThere(b, name);
    FirstOccurrence(Print(b), CaptureHead(name), |Locate(b, name).value.pre|);
  }

  lemma AloneAbsent(b: Body, name: string)
    requires Alone(b, name) && name !in Captures(b)
    ensures IndexOf(Print(b), CaptureHead(name)).None?
  {
    LocateIff(b, name);
    var k := IndexOf(Print(b), CaptureHead(name));
    if k.Some? {
      AnOccurrence(Print(b), CaptureHead(name));
    }
  }

  lemma AnOccurrence(t: string, head: string)
    requires IndexOf(t, head).Some?
    ensures OccursAt(t, head, IndexOf(t, head).value)
  {
  }

  // ----- where captures move

  /** Where a head at `p` goes when the stretch of length `inner` behind `front` is exchanged for one of
      length `body`: it stays before the stretch, moves behind it, or goes with it. */
  predicate Moves(p: nat, p': Option<nat>, head: nat, front: nat, inner: nat, body: nat) {
    || (p < front && p' == Some(p))
    || (p >= front + inner && p' == Some(p - inner + body))
    || (p >= front && p + head <= front + inner)
  }

  function PlaceOf(b: Body, name: string): Option<nat> {
    if Locate(b, name).Some? then Some(|Locate(b, name).value.pre|) else None
  }

  lemma {:induction false} PlaceWithin(b: Body, x: string, y: string)
    requires OnceEach(b) && y in Inside(b, x)
    ensures Locate(b, x).Some? && Locate(b, y).Some?
    ensures var l := Locate(b, x).value; var p, front := |Locate(b, y).value.pre|, |l.pre| + |CaptureHead(x)|;
      front <= p && p + |CaptureHead(y)| <= front + |Print(l.inner)|
  {
    InsideBelow(b, x);
    LocateIff(b, y);
    if b.Or? {
      PlaceWithin(b.rest, x, y);
    } else {
      LocateAtomIff(b.atom, x);
      LocateAtomIff(b.atom, y);
      InsideBelow(b.rest, x);
      if x in AtomCaptures(b.atom) {
        InsideAtomBelow(b.atom, x);
        PlaceWithinAtom(b.atom, x, y);
      } else {
        PlaceWithin(b.rest, x, y);
      }
    }
  }

  lemma {:induction false} PlaceWithinAtom(a: Atom, x: string, y: string)
    requires AtomOnce(a) && y in InsideAtom(a, x)
    ensures LocateAtom(a, x).Some? && LocateAtom(a, y).Some?
    ensures var l := LocateAtom(a, x).value; var p, front := |LocateAtom(a, y).value.pre|, |l.pre| + |CaptureHead(x)|;
      front <= p && p + |CaptureHead(y)| <= front + |Print(l.inner)|
  {
    InsideAtomBelow(a, x);
    LocateAtomIff(a, y);
    if a.head == Named(x) {
      LocateIff(a.body, y);
      HeadThere(a.body, y);
    } else {
      PlaceWithin(a.body, x, y);
      InsideBelow(a.body, x);
    }
  }

  lemma {:induction false} PlaceAround(b: Body, x: string, y: string, body: Body)
    requires OnceEach(b) && x in Inside(b, y)
    ensures Locate(b, x).Some? && Locate(b, y).Some? && Locate(Subst(b, x, body), y).Some?
    ensures var p := |Locate(b, y).value.pre|;
      p < |Locate(b, x).value.pre| && |Locate(Subst(b, x, body), y).value.pre| == p
  {
    InsideBelow(b, y);
    LocateIff(b, x);
    if b.Or? {
      PlaceAround(b.rest, x, y, body);
    } else {
      LocateAtomIff(b.atom, x);
      LocateAtomIff(b.atom, y);
      InsideBelow(b.rest, y);
      if y in AtomCaptures(b.atom) {
        InsideAtomBelow(b.atom, y);
        PlaceAroundAtom(b.atom, x, y, body);
      } else {
        PlaceAround(b.rest, x, y, body);
      }
    }
  }

  lemma {:induction false} PlaceAroundAtom(a: Atom, x: string, y: string, body: Body)
    requires AtomOnce(a) && x in InsideAtom(a, y)
    ensures LocateAtom(a, x).Some? && LocateAtom(a, y).Some? && LocateAtom(SubstAtom(a, x, body), y).Some?
    ensures var p := |LocateAtom(a, y).value.pre|;
      p < |LocateAtom(a, x).value.pre| && |LocateAtom(SubstAtom(a, x, body), y).value.pre| == p
  {
    InsideAtomBelow(a, y);
    LocateAtomIff(a, x);
    if a.head == Named(y) {
      LocateIff(a.body, x);
    } else {
      PlaceAround(a.body, x, y, body);
      InsideBelow(a.body, y);
    }
  }

  /** Moved places are moved heads. */
  lemma MovedMoves(x: Place, y: Place, y': Place, at: Option<nat>, head: nat, front: nat, body: nat)
    requires Moved(x, y, y', front, body) && at == Some(|y'.pre|)
    ensures Moves(|y.pre|, at, head, |x.pre| + front, |Print(x.inner)|, body)
  {
  }

  lemma ApartMoves(b: Body, x: string, y: string, body: Body)
    requires x != y && x in Captures(b) && y in Captures(b) && Apart(b, {x, y}) && Captures(body) == {}
    ensures Locate(b, x).Some? && Locate(b, y).Some?
    ensures var l := Locate(b, x).value;
      Moves(|Locate(b, y).value.pre|, PlaceOf(Subst(b, x, body), y), |CaptureHead(y)|, |l.pre| + |CaptureHead(x)|,
            |Print(l.inner)|, |Print(body)|)
  {
    PlaceAfter(b, x, y, body);
    MovedMoves(Locate(b, x).value, Locate(b, y).value, Locate(Subst(b, x, body), y).value,
               PlaceOf(Subst(b, x, body), y), |CaptureHead(y)|, |CaptureHead(x)|, |Print(body)|);
  }

  lemma HeadMoves(b: Body, x: string, y: string, body: Body)
    requires OnceEach(b) && x != y && x in Captures(b) && y in Captures(b) && Captures(body) == {}
    ensures Locate(b, x).Some? && Locate(b, y).Some?
    ensures var l := Locate(b, x).value;
      Moves(|Locate(b, y).value.pre|, PlaceOf(Subst(b, x, body), y), |CaptureHead(y)|, |l.pre| + |CaptureHead(x)|,
            |Print(l.inner)|, |Print(body)|)
  {
    NotApartNests(b, x, y);
    if y in Inside(b, x) {
      PlaceWithin(b, x, y);
    } else if x in Inside(b, y) {
      PlaceAround(b, x, y, body);
    } else {
      ApartMoves(b, x, y, body);
    }
  }

  // ----- a replacement keeps heads alone

  /** An occurrence in the changed text comes from one in the old text, outside the stretch. */
  lemma OldOccurrence(t: string, t': string, front: string, inner: string, body: string, back: string, name: string,
                      k: nat) returns (before: nat)
    requires NameOk(name) && front != [] && front[|front| - 1] == '>' && Skips(body, back, name)
    requires t == front + (inner + back) && t' == front + (body + back) && OccursAt(t', CaptureHead(name), k)
    ensures OccursAt(t, CaptureHead(name), before)
    ensures (k + |CaptureHead(name)| <= |front| && before == k) ||
            (k >= |front| + |body| && before == k - |body| + |inner|)
  {
    if k < |front| {
      NoStraddle(front, body + back, name, k);
      SameFront(front, body + back, inner + back, k, CaptureHead(name));
      before := k;
    } else {
      BehindFront(front, body, back, name, k);
      BackIsThere(front, inner, back, CaptureHead(name), k - |front| - |body|);
      before := k - |body| + |inner|;
    }
  }

  lemma MovesTo(p: nat, p': Option<nat>, head: nat, front: nat, inner: nat, body: nat, k: nat)
    requires Moves(p, p', head, front, inner, body) && head > 0
    requires (k + head <= front && p == k) || (k >= front + body && p == k - body + inner)
    ensures p' == Some(k)
  {
  }

  lemma AloneAfter(b: Body, x: string, y: string, body: Body)
    requires BodyOk(b) && OnceEach(b) && x != y && x in Captures(b) && Insertable(body) && NameOk(y) && Alone(b, y)
    ensures Alone(Subst(b, x, body), y)
  {
    var c := Subst(b, x, body);
    forall k: nat | OccursAt(Print(c), CaptureHead(y), k)
      ensures Locate(c, y).Some? && k == |Locate(c, y).value.pre|
    {
      LocateIff(b, x);
      var p := OldPlace(b, x, y, body, k);
      LocateIff(b, y);
      HeadMoves(b, x, y, body);
      var l := Locate(b, x).value;
      MovesTo(p, PlaceOf(c, y), |CaptureHead(y)|, |l.pre| + |CaptureHead(x)|, |Print(l.inner)|, |Print(body)|, k);
    }
  }

  lemma OldPlace(b: Body, x: string, y: string, body: Body, k: nat) returns (p: nat)
    requires Locate(b, x).Some? && Insertable(body) && NameOk(y)
    requires OccursAt(Print(Subst(b, x, body)), CaptureHead(y), k)
    ensures OccursAt(Print(b), CaptureHead(y), p)
    ensures var l := Locate(b, x).value; var front := |l.pre| + |CaptureHead(x)|;
      (k + |CaptureHead(y)| <= front && p == k) ||
      (k >= front + |Print(body)| && p == k - |Print(body)| + |Print(l.inner)|)
  {
    var l := Locate(b, x).value;
    LocateText(b, x, body);
    AroundParts(l.pre, CaptureHead(x), Print(l.inner), l.post);
    AroundParts(l.pre, CaptureHead(x), Print(body), l.post);
    HeadEnds(l.pre, x);
    InsertableSkips(body, l.post, y);
    p := OldOccurrence(Print(b), Print(Subst(b, x, body)), l.pre + CaptureHead(x), Print(l.inner), Print(body),
                       ")" + l.post, y, k);
  }

  // ----- plain trees

  lemma {:induction false} PostSkips(b: Body, rest: string, name: string)
    requires BodyOk(b) && Plain(b) && OnceEach(b) && NameOk(name) && AtEnd(rest) && Locate(b, name).Some?
    ensures Skips(Locate(b, name).value.post, rest, name)
  {
    LocateIff(b, name);
    if b.Or? {
      PostSkips(b.rest, rest, name);
    } else if LocateAtom(b.atom, name).Some? {
      var post, y := LocateAtom(b.atom, name).value.post, PrintQuant(b.quant) + Print(b.rest);
      LocateAtomIff(b.atom, name);
      LocateIff(b.rest, name);
      BodySkips(b.rest, rest, name);
      QuantSkip(b.quant);
      SkipsPlain(PrintQuant(b.quant), Print(b.rest) + rest, name);
      SkipsCat(PrintQuant(b.quant), Print(b.rest), rest, name);
      PostSkipsAtom(b.atom, y + rest, name);
      SkipsCat(post, y, rest, name);
    } else {
      PostSkips(b.rest, rest, name);
    }
  }

  lemma {:induction false} PostSkipsAtom(a: Atom, rest: string, name: string)
    requires AtomOk(a) && PlainAtom(a) && AtomOnce(a) && NameOk(name) && LocateAtom(a, name).Some?
    ensures Skips(LocateAtom(a, name).value.post, rest, name)
  {
    if a.head != Named(name) {
      PostSkips(a.body, ")" + rest, name);
      SkipsPlain(")", rest, name);
      SkipsCat(Locate(a.body, name).value.post, ")", rest, name);
    }
  }

  lemma {:induction false} InnerOk(b: Body, name: string)
    requires BodyOk(b) && Plain(b) && OnceEach(b) && Locate(b, name).Some?
    ensures var inner := Locate(b, name).value.inner; BodyOk(inner) && Plain(inner) && name !in Captures(inner)
  {
    if b.Or? {
      InnerOk(b.rest, name);
    } else if LocateAtom(b.atom, name).Some? {
      if b.atom.head != Named(name) {
        InnerOk(b.atom.body, name);
      }
    } else {
      InnerOk(b.rest, name);
    }
  }

  lemma HeadOnlyFirst(name: string, rest: string)
    requires NameOk(name)
    ensures forall k :: 0 < k < |CaptureHead(name)| ==> !(CaptureHead(name) <= (CaptureHead(name) + rest)[k..])
  {
    var head := CaptureHead(name);
    HeadSplits(name, "");
    forall k | 0 < k < |head| ensures !(head <= (head + rest)[k..]) {
      assert (head + rest)[k..][0] == head[k] && head[k] != '(' && head[0] == '(';
    }
  }

  /** In a plain tree every head is alone. */
  lemma PlainAlone(b: Body, name: string)
    requires BodyOk(b) && Plain(b) && OnceEach(b) && NameOk(name)
    ensures Alone(b, name)
  {
    LocateIff(b, name);
    if name in Captures(b) {
      PlainAloneAt(b, name);
    } else {
      BodySkips(b, "", name);
      assert Print(b) + "" == Print(b);
    }
  }

  lemma PlainAloneAt(b: Body, name: string)
    requires BodyOk(b) && Plain(b) && OnceEach(b) && NameOk(name) && Locate(b, name).Some?
    ensures Alone(b, name)
  {
    var l, head := Locate(b, name).value, CaptureHead(name);
    var inner := Print(l.inner);
    InnerOk(b, name);
    LocateIff(l.inner, name);
    BodySkips(l.inner, ")" + l.post, name);
    PostSkips(b, "", name);
    LocateSkips(b, "", name);
    LocateText(b, name, Done);
    assert l.post + "" == l.post;
    SkipsPlain(")", l.post, name);
    PiecesAlone(Print(b), l.pre, inner, l.post, name);
  }

  lemma PiecesAlone(t: string, pre: string, inner: string, post: string, name: string)
    requires NameOk(name) && t == Around(pre, CaptureHead(name), inner, post)
    requires Skips(pre, Around("", CaptureHead(name), inner, post), name) && Skips(inner, ")" + post, name)
    requires Skips(")", post, name) && Skips(post, "", name)
    ensures forall k: nat :: OccursAt(t, CaptureHead(name), k) ==> k == |pre|
  {
    var head := CaptureHead(name);
    var rest := inner + (")" + post);
    assert post + "" == post;
    SkipsCat(")", post, "", name);
    assert ")" + post + "" == ")" + post;
    SkipsCat(inner, ")" + post, "", name);
    assert rest + "" == rest;
    HeadOnlyFirst(name, rest);
    assert "" + (head + rest) == head + rest;
    forall k: nat | OccursAt(t, head, k) ensures k == |pre| {
      if |pre| <= k {
        TailOf(pre, head + rest, k);
        if |pre| + |head| <= k {
          TailOf(head, rest, k - |pre|);
        }
      }
    }
  }

  // ----- which lists compile

  /** Each selected capture exists and lies inside none selected before it. */
  predicate Orderly(b: Body, parts: seq<PathPart>) {
    forall i :: 0 <= i < |parts| ==> parts[i].name in Captures(b) && OutsideEarlier(b, parts, i)
  }

  predicate OutsideEarlier(b: Body, parts: seq<PathPart>, i: nat)
    requires i < |parts|
  {
    forall j :: 0 <= j < i ==> parts[i].name !in Inside(b, parts[j].name)
  }

  /** Replacing one capture does not change what is inside another, among those that are left. */
  lemma {:induction false} InsideAfter(b: Body, x: string, body: Body, y: string, z: string)
    requires OnceEach(b) && x != y && Captures(body) == {}
    requires y in Captures(SubstAll(b, map[x := body]))
    requires z in Captures(SubstAll(b, map[x := body])) || z !in Captures(b)
    ensures z in Inside(SubstAll(b, map[x := body]), y) <==> z in Inside(b, y)
  {
    var m := map[x := body];
    SubstOnce(b, x, body);
    InsideBelow(b, y);
    InsideBelow(SubstAll(b, m), y);
    if b.Or? {
      InsideAfter(b.rest, x, body, y, z);
    } else if b.Then? {
      SubstOnce(b.rest, x, body);
      LocateAtomIff(b.atom, y);
      LocateAtomIff(SubstAllAtom(b.atom, m), y);
      AtomFewer(b.atom, x, body);
      InsideBelow(b.rest, y);
      InsideBelow(SubstAll(b.rest, m), y);
      if y in AtomCaptures(SubstAllAtom(b.atom, m)) {
        InsideAfterAtom(b.atom, x, body, y, z);
      } else if z in Captures(SubstAll(b.rest, m)) || z !in Captures(b.rest) {
        InsideAfter(b.rest, x, body, y, z);
      }
    }
  }

  lemma AtomFewer(a: Atom, x: string, body: Body)
    requires AtomOnce(a) && Captures(body) == {}
    ensures AtomCaptures(SubstAllAtom(a, map[x := body])) <= AtomCaptures(a)
  {
    if a.Group? {
      SubstOnce(a.body, x, body);
    }
  }

  lemma {:induction false} InsideAfterAtom(a: Atom, x: string, body: Body, y: string, z: string)
    requires AtomOnce(a) && x != y && Captures(body) == {}
    requires y in AtomCaptures(SubstAllAtom(a, map[x := body]))
    requires z in AtomCaptures(SubstAllAtom(a, map[x := body])) || z !in AtomCaptures(a)
    ensures z in InsideAtom(SubstAllAtom(a, map[x := body]), y) <==> z in InsideAtom(a, y)
  {
    SubstOnce(a.body, x, body);
    if a.head != Named(x) && a.head != Named(y) {
      InsideAfter(a.body, x, body, y, z);
    }
  }

  predicate AllNamed(parts: seq<PathPart>) {
    forall p | p in parts :: PartOk(p) && NameOk(p.name)
  }

  ghost predicate AllAlone(b: Body, parts: seq<PathPart>) {
    forall p | p in parts :: Alone(b, p.name)
  }

  lemma OrderlyAfter(b: Body, parts: seq<PathPart>, body: Body)
    requires OnceEach(b) && parts != [] && DistinctNames(parts) && Captures(body) == {} && parts[0].name in Captures(b)
    ensures Orderly(b, parts) <==> Orderly(SubstAll(b, map[parts[0].name := body]), parts[1..])
  {
    var x := parts[0].name;
    var c, tail := SubstAll(b, map[x := body]), parts[1..];
    forall i | 1 <= i < |parts| ensures tail[i - 1] == parts[i] && parts[i].name != x {
    }
    if Orderly(b, parts) {
      forall i | 0 <= i < |tail| ensures tail[i].name in Captures(c) && OutsideEarlier(c, tail, i) {
        OrderlyForward(b, parts, body, i + 1);
      }
    }
    if Orderly(c, tail) {
      forall i | 0 <= i < |parts| ensures parts[i].name in Captures(b) && OutsideEarlier(b, parts, i) {
        if i > 0 {
          OrderlyBackward(b, parts, body, i);
        }
      }
    }
  }

  lemma OrderlyForward(b: Body, parts: seq<PathPart>, body: Body, i: nat)
    requires OnceEach(b) && DistinctNames(parts) && Captures(body) == {} && 0 < i < |parts| && Orderly(b, parts)
    ensures var c := SubstAll(b, map[parts[0].name := body]);
      parts[1..][i - 1].name in Captures(c) && OutsideEarlier(c, parts[1..], i - 1)
  {
    var x, z := parts[0].name, parts[i].name;
    var tail := parts[1..];
    assert OutsideEarlier(b, parts, i);
    SubstDrops(b, x, body, z);
    forall j | 0 <= j < i - 1 ensures z !in Inside(SubstAll(b, map[x := body]), tail[j].name) {
      var y := parts[j + 1].name;
      assert tail[j].name == y && OutsideEarlier(b, parts, j + 1);
      SubstDrops(b, x, body, y);
      InsideAfter(b, x, body, y, z);
    }
  }

  lemma OrderlyBackward(b: Body, parts: seq<PathPart>, body: Body, i: nat)
    requires OnceEach(b) && DistinctNames(parts) && Captures(body) == {} && 0 < i < |parts|
    requires Orderly(SubstAll(b, map[parts[0].name := body]), parts[1..])
    ensures parts[i].name in Captures(b) && OutsideEarlier(b, parts, i)
  {
    var x, z := parts[0].name, parts[i].name;
    var c, tail := SubstAll(b, map[x := body]), parts[1..];
    assert tail[i - 1].name == z && OutsideEarlier(c, tail, i - 1);
    SubstDrops(b, x, body, z);
    forall j | 0 <= j < i ensures z !in Inside(b, parts[j].name) {
      if j > 0 {
        var y := parts[j].name;
        assert tail[j - 1].name == y && y in Captures(c);
        InsideAfter(b, x, body, y, z);
      }
    }
  }

  lemma AllAloneAfter(b: Body, parts: seq<PathPart>, body: Body)
    requires BodyOk(b) && OnceEach(b) && parts != [] && DistinctNames(parts) && AllNamed(parts) && AllAlone(b, parts)
    requires parts[0].name in Captures(b) && Insertable(body)
    ensures AllAlone(Subst(b, parts[0].name, body), parts[1..])
  {
    forall p | p in parts[1..] ensures Alone(Subst(b, parts[0].name, body), p.name) {
      var i :| 0 <= i < |parts[1..]| && parts[1..][i] == p;
      assert parts[i + 1] == p && p in parts;
      AloneAfter(b, parts[0].name, p.name, body);
    }
  }

  /** A list of selectors compiles exactly when each selected capture exists and lies inside none that was
      selected before it. */
  lemma {:induction false} CompilesIffOrderly(b: Body, parts: seq<PathPart>)
    requires BodyOk(b) && OnceEach(b) && DistinctNames(parts) && AllNamed(parts) && AllAlone(b, parts)
    ensures CompilePathFrom(Print(b), parts).Ok? <==> Orderly(b, parts)
    decreases |parts|
  {
    if parts != [] {
      var p := parts[0];
      assert p in parts;
      if p.name in Captures(b) {
        var x := Parse(p.text).value;
        AloneReachable(b, p.name);
        ReplaceOne(b, p);
        OneSubst(b, p.name, x);
        SubstOnce(b, p.name, x);
        AllAloneAfter(b, parts, x);
        OrderlyAfter(b, parts, x);
        CompilesIffOrderly(SubstAll(b, map[p.name := x]), parts[1..]);
      } else {
        AloneAbsent(b, p.name);
      }
    }
  }

  // ----- two selectors

  ghost predicate TwoSelections(b: Body, x: PathPart, y: PathPart) {
    && BodyOk(b) && OnceEach(b) && x.name != y.name && x.name in Captures(b) && y.name in Captures(b)
    && Alone(b, x.name) && Alone(b, y.name) && PartOk(x) && PartOk(y)
  }

  lemma PairInOrder(b: Body, x: PathPart, y: PathPart)
    requires x.name in Captures(b) && y.name in Captures(b)
    ensures Orderly(b, [x, y]) <==> y.name !in Inside(b, x.name)
  {
    var parts := [x, y];
    assert parts[0] == x && parts[1] == y;
    assert OutsideEarlier(b, parts, 0);
    assert OutsideEarlier(b, parts, 1) <==> y.name !in Inside(b, x.name);
  }

  /** Compiling in this order fails exactly when the first selection removes the capture of the second. */
  lemma InOrder(b: Body, x: PathPart, y: PathPart)
    requires TwoSelections(b, x, y)
    ensures CompilePathFrom(Print(b), [x, y]).Err? <==> y.name in Inside(b, x.name)
  {
    LocateIff(b, x.name);
    LocateIff(b, y.name);
    LocateOk(b, x.name);
    LocateOk(b, y.name);
    TwoNames(x, y);
    PairInOrder(b, x, y);
    CompilesIffOrderly(b, [x, y]);
  }

  lemma TwoSelected(b: Body, x: PathPart, y: PathPart)
    requires SelectionOk(b, x) && SelectionOk(b, y)
    ensures AllSelected(b, [x, y])
  {
    assert forall p :: p in [x, y] ==> p == x || p == y;
  }

  lemma TwoNames(x: PathPart, y: PathPart)
    requires x.name != y.name
    ensures DistinctNames([x, y]) && PartNames([x, y]) == {x.name, y.name}
  {
  }

  lemma PairIsOk(b: Body, x: PathPart, y: PathPart)
    requires TwoSelections(b, x, y) && Apart(b, {x.name, y.name})
    ensures PathOk(b, [x, y])
  {
    AloneReachable(b, x.name);
    AloneReachable(b, y.name);
    TwoSelected(b, x, y);
    TwoNames(x, y);
  }

  lemma ApartEitherOrder(b: Body, x: PathPart, y: PathPart)
    requires TwoSelections(b, x, y) && Apart(b, {x.name, y.name})
    ensures CompilePathFrom(Print(b), [x, y]) == CompilePathFrom(Print(b), [y, x])
  {
    PairIsOk(b, x, y);
    assert {y.name, x.name} == {x.name, y.name};
    PairIsOk(b, y, x);
    CompilePathAnyOrder(b, [x, y], [y, x]);
  }

  /** Two selectors compile to the same in both orders exactly when neither capture is inside the other. */
  lemma OrderMattersIffNested(b: Body, x: PathPart, y: PathPart)
    requires TwoSelections(b, x, y)
    ensures CompilePathFrom(Print(b), [x, y]) == CompilePathFrom(Print(b), [y, x]) <==> Apart(b, {x.name, y.name})
  {
    NotApartNests(b, x.name, y.name);
    InOrder(b, x, y);
    InOrder(b, y, x);
    if Apart(b, {x.name, y.name}) {
      ApartEitherOrder(b, x, y);
    } else if y.name in Inside(b, x.name) {
      NestedOneWay(b, x.name, y.name);
    } else {
      NestedOneWay(b, y.name, x.name);
    }
  }

  // ----- placements

  lemma {:induction false} GroupsNamed(b: Body, name: string)
    requires BodyOk(b) && name in Groups(b)
    ensures NameOk(name)
  {
    match b
    case Or(rest) => GroupsNamed(rest, name);
    case Then(a, _, rest) =>
      if name in Groups(rest) {
        GroupsNamed(rest, name);
      } else if name in Groups(a.body) {
        GroupsNamed(a.body, name);
      }
  }

  lemma SelectedNamed(sels: seq<Selector>)
    requires SelectorsOk(sels) && AllReady(OfKind(sels, PathCapture))
    ensures var ss := OfKind(sels, PathCapture);
      ss != [] ==> Parse(ss[0].source.pathRegex).Some? && AllNamed(Parts(ss))
  {
    var ss := OfKind(sels, PathCapture);
    forall i | 0 <= i < |ss|
      ensures PartOk(Parts(ss)[i]) && NameOk(Parts(ss)[i].name) && Parse(ss[0].source.pathRegex).Some?
    {
      assert ss[i] in ss && ss[0] in ss;
      assert SourceOk(ss[i].source) && SourceOk(ss[0].source);
      ParseSound(ss[i].source.pathRegex);
      GroupsNamed(Parse(ss[i].source.pathRegex).value, ss[i].source.name);
    }
  }

  /** A valid placement with path selectors whose heads are spelled nowhere else compiles exactly when each
      selected name is captured by `(?P<name>` and lies inside no capture selected before it. */
  lemma PathCompilesIff(sels: seq<Selector>)
    requires SelectorsOk(sels) && OfKind(sels, PathCapture) != []
    requires var ss := OfKind(sels, PathCapture); Parse(ss[0].source.pathRegex).Some? ==>
      forall s :: s in ss ==> Alone(Parse(ss[0].source.pathRegex).value, s.source.name)
    ensures AllReady(OfKind(sels, PathCapture))
    ensures var ss := OfKind(sels, PathCapture);
      && Parse(ss[0].source.pathRegex).Some?
      && (CompilePathRegex(sels).Ok? <==> Orderly(Parse(ss[0].source.pathRegex).value, Parts(ss)))
  {
    var ss := OfKind(sels, PathCapture);
    PathReady(sels);
    SelectedNamed(sels);
    var pattern := ss[0].source.pathRegex;
    var b := Parse(pattern).value;
    ParseSound(pattern);
    assert ss[0] in ss && SourceOk(ss[0].source);
    GroupsCover(b);
    PartsDistinct(sels);
    CapturesAsParts(pattern, ss);
    forall p | p in Parts(ss) ensures Alone(b, p.name) {
      var i :| 0 <= i < |ss| && Parts(ss)[i] == p;
      assert ss[i] in ss;
    }
    CompilesIffOrderly(b, Parts(ss));
  }
}
