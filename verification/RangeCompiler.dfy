/**
 The numeric range compiler: `numericRangeRegex` and its helpers produce regex text, and
 `RangeLang` says which values that text matches.
 */
module RangeCompiler {
  import opened Basics
  import opened Decimal
  import opened RegexSyntax
  import opened RegexMatch
  import opened Sorting

  function DigitRangePattern(first: char, last: char): string {
    if first == last then QuoteMeta([first])
    else if first == '0' && last == '9' then "\\d"
    else ['[', first, '-', last, ']']
  }

  function DigitWildcard(length: nat): string {
    if length == 0 then "" else if length == 1 then "\\d" else "\\d{" + Numeral(length) + "}"
  }

  function AnyNumberPattern(length: nat): string
    requires length > 0
  {
    if length == 1 then "\\d" else "[1-9]" + DigitWildcard(length - 1)
  }

  function MinValueForLength(length: nat): string {
    if length <= 1 then "0" else "1" + Repeat('0', length - 1)
  }

  function Prepend(prefix: string, patterns: seq<string>): (r: seq<string>)
    ensures |r| == |patterns|
  {
    seq(|patterns|, i requires 0 <= i < |patterns| => prefix + patterns[i])
  }

  /** The alternatives for digit strings whose first digits differ, before deduplication. */
  function SplitPatterns(start: string, end: string): seq<string>
    requires |start| == |end| > 1 && AllDigits(start) && AllDigits(end)
    decreases |start|, 0
  {
    var n := |start| - 1;
    NinesValue(n);
    ZerosValue(n);
    var low := Prepend(QuoteMeta([start[0]]), SameLengthRangePatterns(start[1..], Repeat('9', n)));
    var middle :=
      if start[0] as int + 1 <= end[0] as int - 1
      then [DigitRangePattern((start[0] as int + 1) as char, (end[0] as int - 1) as char) + DigitWildcard(n)]
      else [];
    var high := Prepend(QuoteMeta([end[0]]), SameLengthRangePatterns(Repeat('0', n), end[1..]));
    low + middle + high
  }

  function SameLengthRangePatterns(start: string, end: string): seq<string>
    requires |start| == |end| && AllDigits(start) && AllDigits(end)
    decreases |start|, 1
  {
    if |start| == 0 then [""]
    else if start == end then [QuoteMeta(start)]
    else if |start| == 1 then [DigitRangePattern(start[0], end[0])]
    else if start[0] == end[0] then
      Prepend(QuoteMeta([start[0]]), SameLengthRangePatterns(start[1..], end[1..]))
    else Unique(SplitPatterns(start, end))
  }

  function AnyNumberPatterns(from: nat, to: nat): seq<string>
    requires 0 < from
    decreases if from < to then to - from else 0
  {
    if from >= to then [] else [AnyNumberPattern(from)] + AnyNumberPatterns(from + 1, to)
  }

  function NumericRangePatterns(start: string, end: string): seq<string>
    requires start != [] && end != [] && AllDigits(start) && AllDigits(end)
  {
    if |start| == |end| then SameLengthRangePatterns(start, end)
    else
      NinesValue(|start|);
      ZerosValue(|end| - 1);
      SameLengthRangePatterns(start, Repeat('9', |start|))
      + AnyNumberPatterns(|start| + 1, |end|)
      + SameLengthRangePatterns(MinValueForLength(|end|), end)
  }

  /** `numericRangeRegex`. Equal bounds are quoted without being parsed. */
  function NumericRangeRegex(start: string, end: string): Result<string> {
    if start == end then Ok(QuoteMeta(start))
    else if ParseUint(start).None? then Err("invalid range start")
    else if ParseUint(end).None? then Err("invalid range end")
    else if ParseUint(start).value > ParseUint(end).value
    then Err("range start must be less than or equal to range end")
    else Ok(Join(Unique(NumericRangePatterns(start, end)), "|"))
  }

  // ----- single pieces

  ghost predicate AnyLang(patterns: seq<string>, s: string, i: nat, j: nat)
    requires i <= j <= |s|
  {
    exists p :: p in patterns && Lang(p, s, i, j)
  }

  ghost predicate AllBranches(patterns: seq<string>) {
    forall p :: p in patterns ==> BranchText(p)
  }

  /** A digit string of the bounds' length with its value between theirs. */
  predicate Between(v: string, start: string, end: string)
    requires AllDigits(start) && AllDigits(end)
  {
    |v| == |start| && AllDigits(v) && Value(start) <= Value(v) <= Value(end)
  }

  function DigitAtom(first: char, last: char): Atom {
    if first == last then Lit(first)
    else if first == '0' && last == '9' then Esc('d')
    else Set([Raw(first), Raw('-'), Raw(last)])
  }

  lemma DigitAtomText(first: char, last: char)
    requires IsDigit(first) && IsDigit(last) && first <= last
    ensures OneChar(DigitAtom(first, last)) && AtomOk(DigitAtom(first, last))
    ensures PrintAtom(DigitAtom(first, last)) == DigitRangePattern(first, last)
    ensures forall c :: CharOk(DigitAtom(first, last), c) <==> first <= c <= last
  {
    if first == last {
      assert QuoteMeta([first]) == [first] + QuoteMeta([]);
    } else if !(first == '0' && last == '9') {
      var toks := [Raw(first), Raw('-'), Raw(last)];
      assert toks[1..] == [Raw('-'), Raw(last)] && toks[1..][1..] == [Raw(last)] && toks[3..] == [];
      assert PrintToks([Raw(last)]) == [last];
      assert PrintToks(toks[1..]) == ['-', last];
      assert PrintToks(toks) == [first, '-', last];
      forall c ensures InClass(toks, c) <==> first <= c <= last {
        assert ClassMember(toks, c) <==> first <= c <= last || ClassMember(toks[3..], c);
      }
    }
  }

  lemma DigitsSlice(s: string, i: nat, j: nat)
    requires i <= j <= |s|
    ensures AllDigits(s[i..j]) <==> forall k :: i <= k < j ==> IsDigit(s[k])
  {
    assert forall k :: i <= k < j ==> s[k] == s[i..j][k - i];
    assert forall k :: 0 <= k < j - i ==> s[i..j][k] == s[i + k];
  }

  lemma OneDigit(s: string, i: nat, j: nat)
    requires i <= j <= |s|
    ensures BranchText("\\d") && (Lang("\\d", s, i, j) <==> j == i + 1 && IsDigit(s[i]))
  {
    EmptyText();
    CharText(Esc('d'), "", s, i, j);
    assert PrintAtom(Esc('d')) + "" == "\\d";
  }

  /** `\d`, `\d{n}` or nothing: exactly `length` digits. */
  lemma WildcardLang(length: nat, s: string, i: nat, j: nat)
    requires length <= MAX_REPEAT && i <= j <= |s|
    ensures BranchText(DigitWildcard(length))
    ensures Lang(DigitWildcard(length), s, i, j) <==> |s[i..j]| == length && AllDigits(s[i..j])
  {
    DigitsSlice(s, i, j);
    if length == 0 {
      NoDigits(s, i, j);
    } else if length == 1 {
      OneDigit(s, i, j);
    } else {
      ManyDigits(length, s, i, j);
      ManyDigitsText(length);
    }
  }

  lemma NoDigits(s: string, i: nat, j: nat)
    requires i <= j <= |s|
    ensures BranchText("") && (Lang("", s, i, j) <==> i == j)
  {
    EmptyText();
  }

  lemma ManyDigitsText(length: nat)
    requires length > 1
    ensures DigitWildcard(length) == PrintAtom(Esc('d')) + (PrintQuant(Times(length)) + "")
  {
  }

  lemma ManyDigits(length: nat, s: string, i: nat, j: nat)
    requires length <= MAX_REPEAT && i <= j <= |s|
    ensures var t := PrintAtom(Esc('d')) + (PrintQuant(Times(length)) + "");
      BranchText(t) && (Lang(t, s, i, j) <==> j - i == length && forall k :: i <= k < j ==> IsDigit(s[k]))
  {
    EmptyText();
    AtomText(Esc('d'), Times(length), "");
    AtomTextLang(Esc('d'), Times(length), "", s, i, j);
    TimesOfChar(Esc('d'), length, s, i, j);
    assert Cut(i, j, j);
  }

  /** A digit range followed by `length` free digits. */
  lemma RangeThenWildcard(first: char, last: char, length: nat, s: string, i: nat, j: nat)
    requires IsDigit(first) && IsDigit(last) && first <= last && length <= MAX_REPEAT && i <= j <= |s|
    ensures var p := DigitRangePattern(first, last) + DigitWildcard(length);
      BranchText(p) &&
      (Lang(p, s, i, j) <==> i < j && first <= s[i] <= last && |s[i + 1..j]| == length && AllDigits(s[i + 1..j]))
  {
    DigitAtomText(first, last);
    WildcardLang(length, s, if i < j then i + 1 else i, j);
    CharText(DigitAtom(first, last), DigitWildcard(length), s, i, j);
  }

  lemma PrependLang(c: char, patterns: seq<string>, s: string, i: nat, j: nat)
    requires IsDigit(c) && AllBranches(patterns) && i <= j <= |s|
    ensures AllBranches(Prepend(QuoteMeta([c]), patterns))
    ensures AnyLang(Prepend(QuoteMeta([c]), patterns), s, i, j)
       <==> i < j && s[i] == c && AnyLang(patterns, s, i + 1, j)
  {
    assert [c][1..] == "" && QuoteMeta([c][1..]) == "";
    assert QuoteMeta([c]) == [c] + "" == PrintAtom(Lit(c));
    var r := Prepend(QuoteMeta([c]), patterns);
    forall k | 0 <= k < |r|
      ensures BranchText(r[k])
      ensures Lang(r[k], s, i, j) <==> i < j && s[i] == c && Lang(patterns[k], s, i + 1, j)
    {
      CharText(Lit(c), patterns[k], s, i, j);
    }
    if i < j && s[i] == c && AnyLang(patterns, s, i + 1, j) {
      var p :| p in patterns && Lang(p, s, i + 1, j);
      var k :| 0 <= k < |patterns| && patterns[k] == p;
      assert r[k] in r;
    }
  }

  lemma ConcatLang(p: seq<string>, q: seq<string>, s: string, i: nat, j: nat)
    requires AllBranches(p) && AllBranches(q) && i <= j <= |s|
    ensures AllBranches(p + q)
    ensures AnyLang(p + q, s, i, j) <==> AnyLang(p, s, i, j) || AnyLang(q, s, i, j)
  {
    assert forall x :: x in p + q <==> x in p || x in q;
  }

  lemma SingleLang(p: string, s: string, i: nat, j: nat)
    requires BranchText(p) && i <= j <= |s|
    ensures AllBranches([p])
    ensures AnyLang([p], s, i, j) <==> Lang(p, s, i, j)
  {
    assert p in [p];
  }

  lemma UniqueLang(patterns: seq<string>, s: string, i: nat, j: nat)
    requires AllBranches(patterns) && i <= j <= |s|
    ensures AllBranches(Unique(patterns))
    ensures AnyLang(Unique(patterns), s, i, j) <==> AnyLang(patterns, s, i, j)
  {
    UniqueSpec(patterns);
  }

  // ----- equal lengths

  /** Interval membership by first digit, when the bounds differ in theirs. */
  lemma SplitBetween(v: string, start: string, end: string)
    requires AllDigits(start) && AllDigits(end) && |start| == |end| > 0 && start[0] < end[0]
    requires |v| == |start| && AllDigits(v)
    ensures Between(v, start, end) <==>
            || (v[0] == start[0] && Value(start[1..]) <= Value(v[1..]))
            || start[0] < v[0] < end[0]
            || (v[0] == end[0] && Value(v[1..]) <= Value(end[1..]))
  {
    HeadOrder(start, v);
    HeadOrder(v, start);
    HeadOrder(v, end);
    HeadOrder(end, v);
  }

  lemma {:induction false} SplitLang(start: string, end: string, s: string, i: nat, j: nat)
    requires 1 < |start| == |end| <= MAX_REPEAT && AllDigits(start) && AllDigits(end) && start[0] < end[0]
    requires i <= j <= |s|
    ensures AllBranches(SplitPatterns(start, end))
    ensures AnyLang(SplitPatterns(start, end), s, i, j) <==> Between(s[i..j], start, end)
    decreases |start|, 0
  {
    var n := |start| - 1;
    NinesValue(n);
    ZerosValue(n);
    ValueBound(start[1..]);
    var m := if i < j then i + 1 else i;
    SameLengthLang(start[1..], Repeat('9', n), s, m, j);
    SameLengthLang(Repeat('0', n), end[1..], s, m, j);
    var lowTail := SameLengthRangePatterns(start[1..], Repeat('9', n));
    var highTail := SameLengthRangePatterns(Repeat('0', n), end[1..]);
    var low := Prepend(QuoteMeta([start[0]]), lowTail);
    var high := Prepend(QuoteMeta([end[0]]), highTail);
    PrependLang(start[0], lowTail, s, i, j);
    PrependLang(end[0], highTail, s, i, j);
    var a, b := (start[0] as int + 1) as char, (end[0] as int - 1) as char;
    var middle := if start[0] as int + 1 <= end[0] as int - 1 then [DigitRangePattern(a, b) + DigitWildcard(n)] else [];
    if a <= b {
      RangeThenWildcard(a, b, n, s, i, j);
      SingleLang(DigitRangePattern(a, b) + DigitWildcard(n), s, i, j);
    }
    ConcatLang(low, middle, s, i, j);
    ConcatLang(low + middle, high, s, i, j);
    SplitCases(start, end, s, i, j);
  }

  /** The three groups of alternatives, read as conditions on the value. */
  lemma SplitCases(start: string, end: string, s: string, i: nat, j: nat)
    requires 1 < |start| == |end| && AllDigits(start) && AllDigits(end) && start[0] < end[0]
    requires i <= j <= |s|
    requires AllDigits(Repeat('9', |start| - 1)) && AllDigits(Repeat('0', |start| - 1))
    ensures Between(s[i..j], start, end) <==>
            i < j && (
              || (s[i] == start[0] && Between(s[i + 1..j], start[1..], Repeat('9', |start| - 1)))
              || (start[0] < s[i] < end[0] && |s[i + 1..j]| == |start| - 1 && AllDigits(s[i + 1..j]))
              || (s[i] == end[0] && Between(s[i + 1..j], Repeat('0', |start| - 1), end[1..])))
  {
    var v := s[i..j];
    NinesValue(|start| - 1);
    ZerosValue(|start| - 1);
    if i < j {
      assert v[1..] == s[i + 1..j] && v == [v[0]] + v[1..];
      if |v| == |start| && AllDigits(v[1..]) {
        ValueBound(v[1..]);
        if IsDigit(v[0]) {
          SplitBetween(v, start, end);
        }
      }
    }
  }

  /** On digit strings of one length, the alternatives match exactly the interval. */
  lemma {:induction false} SameLengthLang(start: string, end: string, s: string, i: nat, j: nat)
    requires |start| == |end| <= MAX_REPEAT && AllDigits(start) && AllDigits(end) && Value(start) <= Value(end)
    requires i <= j <= |s|
    ensures AllBranches(SameLengthRangePatterns(start, end))
    ensures AnyLang(SameLengthRangePatterns(start, end), s, i, j) <==> Between(s[i..j], start, end)
    decreases |start|, 1
  {
    var v := s[i..j];
    if |start| == 0 {
      EmptyText();
      SingleLang("", s, i, j);
    } else if start == end {
      QuoteLang(start, s, i, j);
      SingleLang(QuoteMeta(start), s, i, j);
      if Between(v, start, end) {
        ValueInjective(v, start);
      }
    } else if |start| == 1 {
      HeadOrder(end, start);
      RangeThenWildcard(start[0], end[0], 0, s, i, j);
      assert DigitRangePattern(start[0], end[0]) + DigitWildcard(0) == DigitRangePattern(start[0], end[0]);
      SingleLang(DigitRangePattern(start[0], end[0]), s, i, j);
      if |v| == 1 && IsDigit(v[0]) {
        assert AllDigits(v);
        HeadOrder(start, v);
        HeadOrder(v, start);
        HeadOrder(v, end);
        HeadOrder(end, v);
      }
    } else if start[0] == end[0] {
      HeadOrder(start, end);
      SameLengthLang(start[1..], end[1..], s, if i < j then i + 1 else i, j);
      PrependLang(start[0], SameLengthRangePatterns(start[1..], end[1..]), s, i, j);
      SharedHead(v, start, end);
    } else {
      HeadOrder(end, start);
      SplitLang(start, end, s, i, j);
      UniqueLang(SplitPatterns(start, end), s, i, j);
    }
  }

  lemma SharedHead(v: string, start: string, end: string)
    requires |start| == |end| > 0 && AllDigits(start) && AllDigits(end) && start[0] == end[0]
    requires Value(start) <= Value(end)
    ensures Between(v, start, end) <==> v != [] && v[0] == start[0] && Between(v[1..], start[1..], end[1..])
  {
    if v != [] && |v| == |start| && AllDigits(v[1..]) && IsDigit(v[0]) {
      assert v == [v[0]] + v[1..];
      HeadOrder(start, v);
      HeadOrder(v, start);
      HeadOrder(v, end);
      HeadOrder(end, v);
    }
  }

  // ----- the whole range

  /** A value no smaller than 10^(n-1) written with n digits has no leading zero. */
  lemma NoLeadingZero(v: string)
    requires AllDigits(v) && |v| > 1 && Pow10(|v| - 1) <= Value(v)
    ensures Canonical(v)
  {
    ValueBound(v[1..]);
  }

  lemma CanonicalFromBound(v: string, start: string)
    requires AllDigits(v) && Canonical(start) && |v| == |start| && Value(start) <= Value(v)
    ensures Canonical(v)
  {
    if |v| > 1 {
      CanonicalLowerBound(start);
      NoLeadingZero(v);
    }
  }

  lemma MinValue(length: nat)
    requires length > 1
    ensures var m := MinValueForLength(length);
      |m| == length && Canonical(m) && Value(m) == Pow10(length - 1)
  {
    ZerosValue(length - 1);
    var m := MinValueForLength(length);
    assert m[1..] == Repeat('0', length - 1);
    assert AllDigits(m);
  }

  /** `[1-9]` and then free digits: the canonical numerals of one length. */
  lemma AnyNumberLang(length: nat, s: string, i: nat, j: nat)
    requires 1 < length <= MAX_REPEAT && i <= j <= |s|
    ensures BranchText(AnyNumberPattern(length))
    ensures Lang(AnyNumberPattern(length), s, i, j) <==> |s[i..j]| == length && Canonical(s[i..j])
  {
    RangeThenWildcard('1', '9', length - 1, s, i, j);
    assert DigitRangePattern('1', '9') == "[1-9]";
    var v := s[i..j];
    if i < j {
      assert v[0] == s[i] && v[1..] == s[i + 1..j];
      assert v == [v[0]] + v[1..];
    }
  }

  lemma {:induction false} AnyNumbersLang(from: nat, to: nat, s: string, i: nat, j: nat)
    requires 1 < from && to <= MAX_REPEAT && i <= j <= |s|
    ensures AllBranches(AnyNumberPatterns(from, to))
    ensures AnyLang(AnyNumberPatterns(from, to), s, i, j) <==> from <= |s[i..j]| < to && Canonical(s[i..j])
    decreases if from < to then to - from else 0
  {
    if from < to {
      AnyNumberLang(from, s, i, j);
      SingleLang(AnyNumberPattern(from), s, i, j);
      AnyNumbersLang(from + 1, to, s, i, j);
      ConcatLang([AnyNumberPattern(from)], AnyNumberPatterns(from + 1, to), s, i, j);
    }
  }

  predicate RangeOk(start: string, end: string) {
    Canonical(start) && Canonical(end) && Value(start) <= Value(end) < UINT64_LIMIT
  }

  /** A canonical numeral inside the closed interval. */
  predicate InInterval(v: string, start: string, end: string)
    requires RangeOk(start, end)
  {
    Canonical(v) && Value(start) <= Value(v) <= Value(end)
  }

  lemma SameLengthInterval(v: string, start: string, end: string)
    requires RangeOk(start, end) && |start| == |end|
    ensures Between(v, start, end) <==> InInterval(v, start, end)
  {
    if Between(v, start, end) {
      CanonicalFromBound(v, start);
    }
    if InInterval(v, start, end) {
      if |v| < |start| {
        ShorterIsSmaller(v, start);
      } else if |end| < |v| {
        ShorterIsSmaller(end, v);
      }
    }
  }

  lemma MixedLengthInterval(v: string, start: string, end: string)
    requires RangeOk(start, end) && |start| < |end|
    requires AllDigits(Repeat('9', |start|)) && AllDigits(MinValueForLength(|end|))
    ensures InInterval(v, start, end) <==>
            || Between(v, start, Repeat('9', |start|))
            || (|start| < |v| < |end| && Canonical(v))
            || Between(v, MinValueForLength(|end|), end)
  {
    NinesValue(|start|);
    MinValue(|end|);
    if AllDigits(v) {
      ValueBound(v);
      if |v| == |start| && Value(start) <= Value(v) {
        CanonicalFromBound(v, start);
      }
      if |v| == |end| && Pow10(|end| - 1) <= Value(v) {
        NoLeadingZero(v);
      }
      if Canonical(v) {
        if |v| < |start| {
          ShorterIsSmaller(v, start);
        } else if |end| < |v| {
          ShorterIsSmaller(end, v);
        } else if |v| == |end| {
          CanonicalLowerBound(v);
        }
        if |start| < |v| {
          ShorterIsSmaller(start, v);
        }
        if |v| < |end| {
          ShorterIsSmaller(v, end);
        }
      }
    }
  }

  lemma MixedPatternsLang(start: string, end: string, s: string, i: nat, j: nat)
    requires RangeOk(start, end) && |start| < |end| && i <= j <= |s|
    ensures NumericRangePatterns(start, end) != []
    ensures AllBranches(NumericRangePatterns(start, end))
    ensures AnyLang(NumericRangePatterns(start, end), s, i, j) <==> InInterval(s[i..j], start, end)
  {
    var nines, low := Repeat('9', |start|), MinValueForLength(|end|);
    BoundsBetween(start, end);
    SameLengthLang(start, nines, s, i, j);
    SomePattern(start, nines);
    SameLengthLang(low, end, s, i, j);
    AnyNumbersLang(|start| + 1, |end|, s, i, j);
    ThreeLang(SameLengthRangePatterns(start, nines), AnyNumberPatterns(|start| + 1, |end|),
              SameLengthRangePatterns(low, end), s, i, j);
    MixedLengthInterval(s[i..j], start, end);
  }

  /** The bounds in between: all nines of the shorter length, and the least number of the longer one. */
  lemma BoundsBetween(start: string, end: string)
    requires RangeOk(start, end) && |start| < |end|
    ensures |end| <= 20 && AllDigits(Repeat('9', |start|)) && Value(start) <= Value(Repeat('9', |start|))
    ensures var low := MinValueForLength(|end|); |low| == |end| && AllDigits(low) && Value(low) <= Value(end)
  {
    Uint64Digits(end);
    NinesValue(|start|);
    MinValue(|end|);
    CanonicalLowerBound(end);
    ValueBound(start);
  }

  lemma ThreeLang(p: seq<string>, q: seq<string>, r: seq<string>, s: string, i: nat, j: nat)
    requires AllBranches(p) && AllBranches(q) && AllBranches(r) && i <= j <= |s|
    ensures AllBranches(p + q + r)
    ensures AnyLang(p + q + r, s, i, j) <==> AnyLang(p, s, i, j) || AnyLang(q, s, i, j) || AnyLang(r, s, i, j)
  {
    ConcatLang(p, q, s, i, j);
    ConcatLang(p + q, r, s, i, j);
  }

  lemma PatternsLang(start: string, end: string, s: string, i: nat, j: nat)
    requires RangeOk(start, end) && i <= j <= |s|
    ensures NumericRangePatterns(start, end) != []
    ensures AllBranches(NumericRangePatterns(start, end))
    ensures AnyLang(NumericRangePatterns(start, end), s, i, j) <==> InInterval(s[i..j], start, end)
  {
    if |start| == |end| {
      Uint64Digits(end);
      SameLengthLang(start, end, s, i, j);
      SameLengthInterval(s[i..j], start, end);
      SomePattern(start, end);
    } else if |start| < |end| {
      MixedPatternsLang(start, end, s, i, j);
    } else {
      ShorterIsSmaller(end, start);
    }
  }

  lemma SomePattern(start: string, end: string)
    requires |start| == |end| && |start| <= MAX_REPEAT && AllDigits(start) && AllDigits(end)
    requires Value(start) <= Value(end)
    ensures SameLengthRangePatterns(start, end) != []
  {
    SameLengthLang(start, end, start, 0, |start|);
    assert start[0..|start|] == start;
  }

  /** The compiled range text matches exactly the canonical numerals in the closed interval. */
  lemma RangeLang(start: string, end: string, s: string, i: nat, j: nat)
    requires RangeOk(start, end) && i <= j <= |s|
    ensures NumericRangeRegex(start, end).Ok?
    ensures Parse(NumericRangeRegex(start, end).value).Some?
    ensures Lang(NumericRangeRegex(start, end).value, s, i, j) <==> InInterval(s[i..j], start, end)
  {
    if start == end {
      QuoteLang(start, s, i, j);
      if InInterval(s[i..j], start, end) {
        CanonicalInjective(s[i..j], start);
      }
    } else {
      var patterns := NumericRangePatterns(start, end);
      PatternsLang(start, end, s, i, j);
      UniqueLang(patterns, s, i, j);
      UniqueSpec(patterns);
      assert patterns[0] in Unique(patterns);
      JoinLang(Unique(patterns), s, i, j);
    }
  }

  /** The same, for the anchored text that header and query matches carry. */
  lemma RangeRegexExact(start: string, end: string, v: string)
    requires RangeOk(start, end)
    ensures NumericRangeRegex(start, end).Ok?
    ensures Matches("^(?:" + NumericRangeRegex(start, end).value + ")$", v) <==> InInterval(v, start, end)
  {
    RangeLang(start, end, v, 0, |v|);
    assert v[0..|v|] == v;
    AnchoredMatches(NumericRangeRegex(start, end).value, v);
  }

  // ----- how many alternatives, and that they never overlap

  function Pow2(n: nat): (p: nat)
    ensures p > 0
  {
    if n == 0 then 1 else 2 * Pow2(n - 1)
  }

  lemma PrependDistinct(c: char, patterns: seq<string>)
    requires IsDigit(c) && Distinct(patterns)
    ensures Distinct(Prepend(QuoteMeta([c]), patterns))
    ensures forall p :: p in Prepend(QuoteMeta([c]), patterns) ==> p != [] && p[0] == c
  {
    assert QuoteMeta([c]) == [c] + QuoteMeta([]) == [c];
    var r := Prepend(QuoteMeta([c]), patterns);
    forall i, j | 0 <= i < j < |r| ensures r[i] != r[j] {
      assert r[i][1..] == patterns[i] && r[j][1..] == patterns[j];
    }
  }

  lemma MiddleHead(first: char, last: char, rest: string)
    requires IsDigit(first) && IsDigit(last) && first <= last
    ensures var p := DigitRangePattern(first, last) + rest;
      p != [] && (p[0] == '[' || p[0] == '\\' || first <= p[0] <= last)
  {
    if first == last {
      assert QuoteMeta([first]) == [first] + QuoteMeta([]);
    }
  }

  /** Alternatives are told apart by their first character, so deduplication drops none of them. */
  lemma {:induction false} SplitDistinct(start: string, end: string)
    requires 1 < |start| == |end| && AllDigits(start) && AllDigits(end) && start[0] < end[0]
    ensures Distinct(SplitPatterns(start, end))
    ensures |SplitPatterns(start, end)| <= Pow2(|start|) - 1
    decreases |start|, 0
  {
    var n := |start| - 1;
    NinesValue(n);
    ZerosValue(n);
    ValueBound(start[1..]);
    var lowTail := SameLengthRangePatterns(start[1..], Repeat('9', n));
    var highTail := SameLengthRangePatterns(Repeat('0', n), end[1..]);
    SameLengthDistinct(start[1..], Repeat('9', n));
    SameLengthDistinct(Repeat('0', n), end[1..]);
    PrependDistinct(start[0], lowTail);
    PrependDistinct(end[0], highTail);
    var low := Prepend(QuoteMeta([start[0]]), lowTail);
    var high := Prepend(QuoteMeta([end[0]]), highTail);
    var a, b := (start[0] as int + 1) as char, (end[0] as int - 1) as char;
    var middle := if a <= b then [DigitRangePattern(a, b) + DigitWildcard(n)] else [];
    if a <= b {
      MiddleHead(a, b, DigitWildcard(n));
    }
    DistinctByHead(low, middle, high, start[0], end[0]);
    assert SplitPatterns(start, end) == low + middle + high;
  }

  lemma DistinctByHead(low: seq<string>, middle: seq<string>, high: seq<string>, a: char, b: char)
    requires Distinct(low) && Distinct(high) && |middle| <= 1 && a != b
    requires forall p :: p in low ==> p != [] && p[0] == a
    requires forall p :: p in high ==> p != [] && p[0] == b
    requires forall p :: p in middle ==> p != [] && p[0] != a && p[0] != b
    ensures Distinct(low + middle + high)
  {
    var r := low + middle + high;
    forall i, j | 0 <= i < j < |r| ensures r[i] != r[j] {
      assert if i < |low| then r[i] == low[i] && r[i] in low
             else if i < |low + middle| then r[i] == middle[i - |low|] && r[i] in middle
             else r[i] == high[i - |low + middle|] && r[i] in high;
      assert if j < |low| then r[j] == low[j] && r[j] in low
             else if j < |low + middle| then r[j] == middle[j - |low|] && r[j] in middle
             else r[j] == high[j - |low + middle|] && r[j] in high;
    }
  }

  /** At most `2^n - 1` alternatives for n digits, all different. */
  lemma {:induction false} SameLengthDistinct(start: string, end: string)
    requires |start| == |end| && AllDigits(start) && AllDigits(end) && Value(start) <= Value(end)
    ensures Distinct(SameLengthRangePatterns(start, end))
    ensures |start| > 0 ==> |SameLengthRangePatterns(start, end)| <= Pow2(|start|) - 1
    decreases |start|, 1
  {
    if |start| > 1 && start != end {
      if start[0] == end[0] {
        HeadOrder(start, end);
        SameLengthDistinct(start[1..], end[1..]);
        PrependDistinct(start[0], SameLengthRangePatterns(start[1..], end[1..]));
      } else {
        HeadOrder(end, start);
        SplitDistinct(start, end);
        UniqueKeepsAll(SplitPatterns(start, end));
        UniqueSpec(SplitPatterns(start, end));
        StrictlySortedDistinct(Unique(SplitPatterns(start, end)));
      }
    }
  }

  // ----- when the bound is attained

  predicate Attained(start: string, end: string)
    requires |start| == |end| && AllDigits(start) && AllDigits(end)
  {
    |SameLengthRangePatterns(start, end)| == Pow2(|start|) - 1
  }

  /** Bounds with different first digits: the two sides, and one more alternative if a digit lies between. */
  lemma SplitCount(start: string, end: string)
    requires 1 < |start| == |end| && AllDigits(start) && AllDigits(end) && start[0] < end[0]
    ensures var n := |start| - 1;
      && AllDigits(Repeat('9', n)) && AllDigits(Repeat('0', n))
      && |SameLengthRangePatterns(start, end)| ==
         |SameLengthRangePatterns(start[1..], Repeat('9', n))| + |SameLengthRangePatterns(Repeat('0', n), end[1..])|
         + (if end[0] as int - start[0] as int >= 2 then 1 else 0)
  {
    NinesValue(|start| - 1);
    ZerosValue(|start| - 1);
    SplitDistinct(start, end);
    UniqueKeepsAll(SplitPatterns(start, end));
  }

  lemma SplitAttained(start: string, end: string)
    requires 1 < |start| == |end| && AllDigits(start) && AllDigits(end) && start[0] < end[0]
    ensures var n := |start| - 1;
      && AllDigits(Repeat('9', n)) && AllDigits(Repeat('0', n))
      && (Attained(start, end) <==>
          && end[0] as int - start[0] as int >= 2
          && Attained(start[1..], Repeat('9', n)) && Attained(Repeat('0', n), end[1..]))
  {
    var n := |start| - 1;
    NinesValue(n);
    ZerosValue(n);
    ValueBound(start[1..]);
    SplitCount(start, end);
    SameLengthDistinct(start[1..], Repeat('9', n));
    SameLengthDistinct(Repeat('0', n), end[1..]);
    SumAtBound(|SameLengthRangePatterns(start[1..], Repeat('9', n))|,
               |SameLengthRangePatterns(Repeat('0', n), end[1..])|,
               if end[0] as int - start[0] as int >= 2 then 1 else 0, n);
  }

  lemma SumAtBound(a: nat, b: nat, c: nat, n: nat)
    requires a <= Pow2(n) - 1 && b <= Pow2(n) - 1 && c <= 1
    ensures a + b + c == Pow2(n + 1) - 1 <==> c == 1 && a == Pow2(n) - 1 && b == Pow2(n) - 1
  {
    assert Pow2(n + 1) == 2 * Pow2(n);
  }

  /** With a common first digit the bound of one digit less applies, so this one is missed. */
  lemma SharedMisses(start: string, end: string)
    requires 1 < |start| == |end| && AllDigits(start) && AllDigits(end) && Value(start) <= Value(end)
    requires start[0] == end[0]
    ensures !Attained(start, end)
  {
    var n := |start| - 1;
    assert Pow2(n + 1) == 2 * Pow2(n) && Pow2(n) == 2 * Pow2(n - 1);
    if start != end {
      HeadOrder(start, end);
      SameLengthDistinct(start[1..], end[1..]);
    }
  }

  predicate NoneAbove7(s: string, from: nat, to: int) {
    forall k :: from <= k < to && k < |s| ==> s[k] <= '7'
  }

  predicate NoneBelow2(s: string, from: nat, to: int) {
    forall k :: from <= k < to && k < |s| ==> s[k] >= '2'
  }

  lemma FirstAbove7(s: string)
    requires |s| > 1
    ensures NoneAbove7(s, 0, |s| - 1) <==> s[0] <= '7' && NoneAbove7(s[1..], 0, |s| - 2)
  {
    var t := s[1..];
    assert forall k :: 1 <= k < |s| ==> s[k] == t[k - 1];
    assert forall k :: 0 <= k < |t| ==> t[k] == s[k + 1];
  }

  lemma FirstBelow2(s: string)
    requires |s| > 1
    ensures NoneBelow2(s, 0, |s| - 1) <==> s[0] >= '2' && NoneBelow2(s[1..], 0, |s| - 2)
  {
    var t := s[1..];
    assert forall k :: 1 <= k < |s| ==> s[k] == t[k - 1];
    assert forall k :: 0 <= k < |t| ==> t[k] == s[k + 1];
  }

  /** Upper bound all nines. */
  lemma {:induction false} LowSide(start: string)
    requires |start| > 0 && AllDigits(start)
    ensures AllDigits(Repeat('9', |start|))
    ensures Attained(start, Repeat('9', |start|)) <==> NoneAbove7(start, 0, |start| - 1)
    decreases |start|
  {
    var n := |start| - 1;
    var nines := Repeat('9', |start|);
    NinesValue(|start|);
    ValueBound(start);
    if n > 0 {
      if start[0] == '9' {
        SharedMisses(start, nines);
      } else {
        SplitAttained(start, nines);
        assert nines[1..] == Repeat('9', n);
        LowSide(start[1..]);
        LowSide(Repeat('0', n));
        FirstAbove7(start);
      }
    }
  }

  /** Lower bound all zeros. */
  lemma {:induction false} HighSide(end: string)
    requires |end| > 0 && AllDigits(end)
    ensures AllDigits(Repeat('0', |end|))
    ensures Attained(Repeat('0', |end|), end) <==> NoneBelow2(end, 0, |end| - 1)
  {
    var n := |end| - 1;
    var zeros := Repeat('0', |end|);
    ZerosValue(|end|);
    if n > 0 {
      if end[0] == '0' {
        SharedMisses(zeros, end);
      } else {
        SplitAttained(zeros, end);
        assert zeros[1..] == Repeat('0', n);
        LowSide(Repeat('0', n));
        HighSide(end[1..]);
        FirstBelow2(end);
      }
    }
  }

  /** The bound is attained exactly when the first digits leave a digit between them, and no inner digit
      is above 7 in the lower bound or below 2 in the upper one. */
  lemma BoundAttainedIff(start: string, end: string)
    requires |start| == |end| > 0 && AllDigits(start) && AllDigits(end) && Value(start) <= Value(end)
    ensures var n := |start|;
      |SameLengthRangePatterns(start, end)| == Pow2(n) - 1 <==>
      n == 1 || (&& end[0] as int - start[0] as int >= 2
                 && forall k :: 1 <= k < n - 1 ==> start[k] <= '7' && end[k] >= '2')
  {
    var n := |start| - 1;
    if n > 0 {
      if start[0] == end[0] {
        SharedMisses(start, end);
      } else {
        HeadOrder(end, start);
        SplitAttained(start, end);
        LowSide(start[1..]);
        HighSide(end[1..]);
        InnerDigits(start, end);
      }
    }
  }

  lemma InnerDigits(start: string, end: string)
    requires |start| == |end| > 1
    ensures var n := |start| - 1;
      NoneAbove7(start[1..], 0, n - 1) && NoneBelow2(end[1..], 0, n - 1) <==>
      forall k :: 1 <= k < n ==> start[k] <= '7' && end[k] >= '2'
  {
    var n := |start| - 1;
    var u, v := start[1..], end[1..];
    assert forall k :: 1 <= k <= n ==> start[k] == u[k - 1] && end[k] == v[k - 1];
    assert forall k :: 0 <= k < n ==> u[k] == start[k + 1] && v[k] == end[k + 1];
  }

  /** The interval from n zeros to n nines attains the bound. */
  lemma FullIntervalCount(n: nat)
    requires n > 0
    ensures AllDigits(Repeat('0', n)) && AllDigits(Repeat('9', n))
    ensures |SameLengthRangePatterns(Repeat('0', n), Repeat('9', n))| == Pow2(n) - 1
  {
    NinesValue(n);
    ZerosValue(n);
    BoundAttainedIff(Repeat('0', n), Repeat('9', n));
  }

  /** Other intervals attain the bound as well: `01` to `98` also needs three alternatives. */
  lemma BoundAlsoAttained()
    ensures AllDigits("01") && AllDigits("98") && |SameLengthRangePatterns("01", "98")| == Pow2(2) - 1
  {
    HeadOrder("01", "98");
    BoundAttainedIff("01", "98");
  }

  /** No digit string is matched by two alternatives. */
  lemma {:induction false} AlternativesDisjoint(start: string, end: string, p: string, q: string, s: string, i: nat,
                                                j: nat)
    requires |start| == |end| <= MAX_REPEAT && AllDigits(start) && AllDigits(end) && Value(start) <= Value(end)
    requires p in SameLengthRangePatterns(start, end) && q in SameLengthRangePatterns(start, end)
    requires i <= j <= |s| && Lang(p, s, i, j) && Lang(q, s, i, j)
    ensures p == q
    decreases |start|
  {
    if |start| > 1 && start != end {
      if start[0] == end[0] {
        HeadOrder(start, end);
        var tails := SameLengthRangePatterns(start[1..], end[1..]);
        SameLengthLang(start[1..], end[1..], s, i, i);
        var p' := Unprepend(start[0], tails, p, s, i, j);
        var q' := Unprepend(start[0], tails, q, s, i, j);
        AlternativesDisjoint(start[1..], end[1..], p', q', s, i + 1, j);
      } else {
        HeadOrder(end, start);
        UniqueSpec(SplitPatterns(start, end));
        SplitDisjoint(start, end, p, q, s, i, j);
      }
    }
  }

  lemma Unprepend(c: char, tails: seq<string>, p: string, s: string, i: nat, j: nat) returns (p': string)
    requires IsDigit(c) && AllBranches(tails) && p in Prepend(QuoteMeta([c]), tails)
    requires i <= j <= |s| && Lang(p, s, i, j)
    ensures p' in tails && p == QuoteMeta([c]) + p' && i < j && s[i] == c && Lang(p', s, i + 1, j)
  {
    var r := Prepend(QuoteMeta([c]), tails);
    var k :| 0 <= k < |r| && r[k] == p;
    p' := tails[k];
    assert QuoteMeta([c]) == [c] + QuoteMeta([]) == PrintAtom(Lit(c));
    CharText(Lit(c), p', s, i, j);
  }

  lemma {:induction false} SplitDisjoint(start: string, end: string, p: string, q: string, s: string, i: nat, j: nat)
    requires 1 < |start| == |end| <= MAX_REPEAT && AllDigits(start) && AllDigits(end) && start[0] < end[0]
    requires p in SplitPatterns(start, end) && q in SplitPatterns(start, end)
    requires i <= j <= |s| && Lang(p, s, i, j) && Lang(q, s, i, j)
    ensures p == q
    decreases |start|, 0
  {
    var n := |start| - 1;
    NinesValue(n);
    ZerosValue(n);
    ValueBound(start[1..]);
    var lowTail := SameLengthRangePatterns(start[1..], Repeat('9', n));
    var highTail := SameLengthRangePatterns(Repeat('0', n), end[1..]);
    SameLengthLang(start[1..], Repeat('9', n), s, i, i);
    SameLengthLang(Repeat('0', n), end[1..], s, i, i);
    var low := Prepend(QuoteMeta([start[0]]), lowTail);
    var high := Prepend(QuoteMeta([end[0]]), highTail);
    var a, b := (start[0] as int + 1) as char, (end[0] as int - 1) as char;
    var middle := if a <= b then [DigitRangePattern(a, b) + DigitWildcard(n)] else [];
    if a <= b {
      RangeThenWildcard(a, b, n, s, i, j);
    }
    assert SplitPatterns(start, end) == low + middle + high;
    if p in low {
      var p' := Unprepend(start[0], lowTail, p, s, i, j);
      if q in low {
        var q' := Unprepend(start[0], lowTail, q, s, i, j);
        AlternativesDisjoint(start[1..], Repeat('9', n), p', q', s, i + 1, j);
      } else if q in high {
        var q' := Unprepend(end[0], highTail, q, s, i, j);
      }
    } else if p in high {
      var p' := Unprepend(end[0], highTail, p, s, i, j);
      if q in high {
        var q' := Unprepend(end[0], highTail, q, s, i, j);
        AlternativesDisjoint(Repeat('0', n), end[1..], p', q', s, i + 1, j);
      } else if q in low {
        var q' := Unprepend(start[0], lowTail, q, s, i, j);
      }
    } else if q in low {
      var q' := Unprepend(start[0], lowTail, q, s, i, j);
    } else if q in high {
      var q' := Unprepend(end[0], highTail, q, s, i, j);
    }
  }
}
