/** What the elements of a pattern mean: which lines a pattern accepts, case sensitively. */
module PatternRelation {

  /** num bounds below zero are unset. Set characters come in pairs, each pair a range. */
  datatype Elem =
    | Literal(text: string)
    | AnyChar
    | CommonChar
    | Set(chars: string)
    | NegSet(chars: string)
    | NumRange(from: int, to: int)
    | AnySeq
    | CommonSeq
    | End

  predicate IsDigit(c: char) { '0' <= c <= '9' }

  predicate AllDigits(s: string) { forall i :: 0 <= i < |s| ==> IsDigit(s[i]) }

  function Number(s: string): int {
    if s == "" then 0 else 10 * Number(s[..|s| - 1]) + (s[|s| - 1] as int - '0' as int)
  }

  predicate InRanges(c: char, ranges: string) {
    exists i :: 0 <= i < |ranges| / 2 && InPair(c, ranges, i)
  }

  predicate InPair(c: char, ranges: string, i: nat)
    requires 2 * i + 1 < |ranges|
  {
    ranges[2 * i] <= c <= ranges[2 * i + 1]
  }

  predicate InBounds(e: Elem, n: int)
    requires e.NumRange?
  {
    (e.from >= 0 ==> e.from <= n) && (e.to >= 0 ==> n <= e.to)
  }

  /** Element e may stand for part when rest follows. A number takes all digits there are. */
  ghost predicate StandsFor(e: Elem, part: string, rest: string) {
    match e
    case Literal(text) => part == text
    case AnyChar => |part| == 1
    case CommonChar => |part| == 1 && part[0] != '.'
    case Set(chars) => |part| == 1 && InRanges(part[0], chars)
    case NegSet(chars) => |part| == 1 && !InRanges(part[0], chars)
    case NumRange(_, _) => part != "" && AllDigits(part) && (rest == "" || !IsDigit(rest[0]))
        && InBounds(e, Number(part))
    case AnySeq => true
    case CommonSeq => '.' !in part
    case End => false
  }

  function Concat(parts: seq<string>): string {
    if parts == [] then "" else parts[0] + Concat(parts[1..])
  }

  /** The line is the parts in order, one for each element. */
  ghost predicate Fits(es: seq<Elem>, parts: seq<string>, line: string) {
    && |parts| == |es| && line == Concat(parts)
    && forall i :: 0 <= i < |es| ==> StandsFor(es[i], parts[i], Concat(parts[i + 1..]))
  }

  /** The same, one element at a time. */
  ghost predicate Accepts(es: seq<Elem>, line: string)
    decreases |es|
  {
    if es == [] then line == ""
    else exists n :: 0 <= n <= |line| && StandsFor(es[0], line[..n], line[n..]) && Accepts(es[1..], line[n..])
  }

  /** A line is accepted exactly if it can be cut into fitting parts. */
  lemma {:induction false} AcceptsIffFits(es: seq<Elem>, line: string)
    ensures Accepts(es, line) <==> exists parts :: Fits(es, parts, line)
    decreases |es|
  {
    if Accepts(es, line) {
      var parts := PartsOf(es, line);
    }
    if parts :| Fits(es, parts, line) {
      FitsAccepts(es, parts, line);
    }
  }

  lemma {:induction false} PartsOf(es: seq<Elem>, line: string) returns (parts: seq<string>)
    requires Accepts(es, line)
    ensures Fits(es, parts, line)
    decreases |es|
  {
    if es == [] {
      parts := [];
    } else {
      var n :| 0 <= n <= |line| && StandsFor(es[0], line[..n], line[n..]) && Accepts(es[1..], line[n..]);
      var rest := PartsOf(es[1..], line[n..]);
      parts := [line[..n]] + rest;
      PrependPart(es, rest, line, n);
    }
  }

  lemma PrependPart(es: seq<Elem>, rest: seq<string>, line: string, n: nat)
    requires es != [] && n <= |line| && StandsFor(es[0], line[..n], line[n..]) && Fits(es[1..], rest, line[n..])
    ensures Fits(es, [line[..n]] + rest, line)
  {
    var parts := [line[..n]] + rest;
    assert parts[1..] == rest && line == line[..n] + line[n..];
    forall i | 0 <= i < |es| ensures StandsFor(es[i], parts[i], Concat(parts[i + 1..])) {
      if i > 0 {
        assert StandsFor(es[1..][i - 1], rest[i - 1], Concat(rest[i..]));
        assert parts[i + 1..] == rest[i..];
      }
    }
  }

  lemma {:induction false} FitsAccepts(es: seq<Elem>, parts: seq<string>, line: string)
    requires Fits(es, parts, line)
    ensures Accepts(es, line)
    decreases |es|
  {
    if es != [] {
      var rest := parts[1..];
      var n := |parts[0]|;
      assert line[..n] == parts[0] && line[n..] == Concat(rest);
      forall i | 0 <= i < |es| - 1 ensures StandsFor(es[1..][i], rest[i], Concat(rest[i + 1..])) {
        assert StandsFor(es[i + 1], parts[i + 1], Concat(parts[i + 2..]));
        assert parts[i + 2..] == rest[i + 1..];
      }
      FitsAccepts(es[1..], rest, line[n..]);
      assert StandsFor(es[0], parts[0], Concat(parts[1..]));
    }
  }

  // ------------------------------------------------------------ one element at the front

  /** The element can only stand for the first n characters. */
  lemma OnlyFront(es: seq<Elem>, line: string, n: nat)
    requires es != [] && n <= |line|
    requires forall m :: 0 <= m <= |line| && StandsFor(es[0], line[..m], line[m..]) ==> m == n
    ensures Accepts(es, line) <==> StandsFor(es[0], line[..n], line[n..]) && Accepts(es[1..], line[n..])
  {
  }

  lemma LiteralFront(es: seq<Elem>, line: string)
    requires es != [] && es[0].Literal?
    ensures var t := es[0].text; Accepts(es, line) <==> t <= line && Accepts(es[1..], line[|t|..])
  {
    var t := es[0].text;
    if |t| <= |line| {
      forall m | 0 <= m <= |line| && StandsFor(es[0], line[..m], line[m..]) ensures m == |t| {
      }
      OnlyFront(es, line, |t|);
    }
  }

  predicate OneChar(e: Elem, c: char) {
    match e
    case AnyChar => true
    case CommonChar => c != '.'
    case Set(chars) => InRanges(c, chars)
    case NegSet(chars) => !InRanges(c, chars)
    case _ => false
  }

  lemma CharFront(es: seq<Elem>, line: string)
    requires es != [] && (es[0].AnyChar? || es[0].CommonChar? || es[0].Set? || es[0].NegSet?)
    ensures Accepts(es, line) <==> line != "" && OneChar(es[0], line[0]) && Accepts(es[1..], line[1..])
  {
    if line != "" {
      OnlyFront(es, line, 1);
      assert line[..1][0] == line[0];
    }
  }

  /** Length of the run of digits at the front. */
  function Digits(s: string): (n: nat)
    ensures n <= |s| && AllDigits(s[..n]) && (n == |s| || !IsDigit(s[n]))
  {
    if s == "" || !IsDigit(s[0]) then 0
    else
      assert forall i :: 1 <= i < 1 + Digits(s[1..]) ==> s[i] == s[1..][..Digits(s[1..])][i - 1];
      1 + Digits(s[1..])
  }

  lemma DigitRun(s: string, m: nat)
    requires m <= |s| && AllDigits(s[..m]) && (m == |s| || !IsDigit(s[m]))
    ensures m == Digits(s)
  {
    var n := Digits(s);
    assert forall i :: 0 <= i < m ==> s[..m][i] == s[i];
    assert forall i :: 0 <= i < n ==> s[..n][i] == s[i];
  }

  lemma NumberFront(es: seq<Elem>, line: string)
    requires es != [] && es[0].NumRange?
    ensures var n := Digits(line);
            Accepts(es, line) <==> n > 0 && InBounds(es[0], Number(line[..n])) && Accepts(es[1..], line[n..])
  {
    var n := Digits(line);
    forall m | 0 <= m <= |line| && StandsFor(es[0], line[..m], line[m..]) ensures m == n {
      if m < |line| { assert line[m..][0] == line[m]; }
      DigitRun(line, m);
    }
    OnlyFront(es, line, n);
  }

  /** A sequence element stands for nothing, or for one more character. */
  lemma SequenceFront(es: seq<Elem>, line: string)
    requires es != [] && (es[0].AnySeq? || es[0].CommonSeq?)
    ensures Accepts(es, line)
            <==> Accepts(es[1..], line) || (line != "" && (es[0].AnySeq? || line[0] != '.') && Accepts(es, line[1..]))
  {
    if Accepts(es, line) {
      var n :| 0 <= n <= |line| && StandsFor(es[0], line[..n], line[n..]) && Accepts(es[1..], line[n..]);
      if n > 0 {
        ShorterSequence(es, line, n);
      } else {
        assert line[0..] == line;
      }
    }
    if Accepts(es[1..], line) {
      assert line[0..] == line && StandsFor(es[0], line[..0], line[0..]);
    }
    if line != "" && (es[0].AnySeq? || line[0] != '.') && Accepts(es, line[1..]) {
      LongerSequence(es, line);
    }
  }

  lemma ShorterSequence(es: seq<Elem>, line: string, n: nat)
    requires es != [] && (es[0].AnySeq? || es[0].CommonSeq?) && 0 < n <= |line|
    requires StandsFor(es[0], line[..n], line[n..]) && Accepts(es[1..], line[n..])
    ensures (es[0].AnySeq? || line[0] != '.') && Accepts(es, line[1..])
  {
    OneLonger(line, n - 1);
    assert StandsFor(es[0], line[1..][..n - 1], line[1..][n - 1..]);
  }

  lemma OneLonger(line: string, n: nat)
    requires line != "" && n <= |line[1..]|
    ensures line[1..][n..] == line[n + 1..] && line[..n + 1] == [line[0]] + line[1..][..n]
  {
  }

  lemma LongerSequence(es: seq<Elem>, line: string)
    requires es != [] && (es[0].AnySeq? || es[0].CommonSeq?)
    requires line != "" && (es[0].AnySeq? || line[0] != '.') && Accepts(es, line[1..])
    ensures Accepts(es, line)
  {
    var n :| 0 <= n <= |line[1..]| && StandsFor(es[0], line[1..][..n], line[1..][n..])
        && Accepts(es[1..], line[1..][n..]);
    OneLonger(line, n);
    assert StandsFor(es[0], line[..n + 1], line[n + 1..]);
  }

  // ------------------------------------------------------------ shortcuts

  /** A pattern that ends in ** accepts every rest. */
  lemma TrailingSequence(es: seq<Elem>, line: string)
    requires es == [AnySeq]
    ensures Accepts(es, line)
  {
    assert line[..|line|] == line && Accepts(es[1..], line[|line|..]);
    assert StandsFor(es[0], line[..|line|], line[|line|..]);
  }

  /** ** and a literal: the line ends in the literal. */
  lemma {:induction false} SequenceLiteral(es: seq<Elem>, line: string)
    requires |es| == 2 && es[0].AnySeq? && es[1].Literal?
    ensures var t := es[1].text; Accepts(es, line) <==> |t| <= |line| && line[|line| - |t|..] == t
    decreases |line|
  {
    var t := es[1].text;
    SequenceFront(es, line);
    LiteralFront(es[1..], line);
    if Accepts(es[1..], line) {
      assert es[1..][1..] == [] && line[|t|..] == "";
      assert |line| == |t| && line[0..] == line;
    }
    if line != "" {
      SequenceLiteral(es, line[1..]);
      if |t| < |line| { assert line[1..][|line| - 1 - |t|..] == line[|line| - |t|..]; }
    }
    if |t| == |line| && line[0..] == t {
      assert line[|t|..] == "" && es[1..][1..] == [];
    }
  }

  /** Whatever comes before it, a final literal is where an accepted line ends. */
  lemma {:induction false} FinalLiteral(es: seq<Elem>, line: string)
    requires es != [] && es[|es| - 1].Literal? && Accepts(es, line)
    ensures var t := es[|es| - 1].text; |t| <= |line| && line[|line| - |t|..] == t
    decreases |es|
  {
    if |es| == 1 {
      LiteralFront(es, line);
      assert es[1..] == [] && line[|es[0].text|..] == "";
    } else {
      var n :| 0 <= n <= |line| && StandsFor(es[0], line[..n], line[n..]) && Accepts(es[1..], line[n..]);
      FinalLiteral(es[1..], line[n..]);
      var t := es[|es| - 1].text;
      assert line[n..][|line| - n - |t|..] == line[|line| - |t|..];
    }
  }

  lemma LiteralIs(p: string, line: string)
    ensures Accepts([Literal(p)], line) <==> line == p
  {
    LiteralFront([Literal(p)], line);
    assert [Literal(p)][1..] == [];
    if line == p { assert line[|p|..] == ""; }
    if p <= line && line[|p|..] == "" { assert |line| == |p| && line[..|p|] == line; }
  }

  // ------------------------------------------------------------ matching anywhere in a line

  /** ** at both ends, unless it is there. */
  function Anywhere(es: seq<Elem>): seq<Elem> {
    OpenFront(OpenBack(es))
  }

  function OpenBack(es: seq<Elem>): seq<Elem> {
    if es == [] || !es[|es| - 1].AnySeq? then es + [AnySeq] else es
  }

  function OpenFront(es: seq<Elem>): seq<Elem> {
    if es == [] || !es[0].AnySeq? then [AnySeq] + es else es
  }

  /** The elements stand for part when rest follows it in the line. */
  ghost predicate AcceptsBefore(es: seq<Elem>, part: string, rest: string)
    decreases |es|
  {
    if es == [] then part == ""
    else
      exists n ::
        && 0 <= n <= |part| && StandsFor(es[0], part[..n], part[n..] + rest)
        && AcceptsBefore(es[1..], part[n..], rest)
  }

  /** What follows matters to number ranges only, and only if it begins with a digit. */
  lemma {:induction false} RestMatters(es: seq<Elem>, part: string, rest: string)
    requires rest == "" || !IsDigit(rest[0]) || forall i :: 0 <= i < |es| ==> !es[i].NumRange?
    ensures AcceptsBefore(es, part, rest) <==> Accepts(es, part)
    decreases |es|
  {
    if es != [] {
      forall n | 0 <= n <= |part|
        ensures StandsFor(es[0], part[..n], part[n..] + rest) <==> StandsFor(es[0], part[..n], part[n..])
        ensures AcceptsBefore(es[1..], part[n..], rest) <==> Accepts(es[1..], part[n..])
      {
        RestMatters(es[1..], part[n..], rest);
      }
    }
  }

  lemma FrontAccepts(es: seq<Elem>, line: string)
    ensures Accepts(OpenFront(es), line) <==> exists a :: 0 <= a <= |line| && Accepts(es, line[a..])
  {
    if es != [] && es[0].AnySeq? {
      assert line[0..] == line;
      forall a | 0 <= a <= |line| && Accepts(es, line[a..]) ensures Accepts(es, line) {
        var n :| 0 <= n <= |line[a..]| && StandsFor(es[0], line[a..][..n], line[a..][n..])
            && Accepts(es[1..], line[a..][n..]);
        assert line[a..][n..] == line[a + n..];
        assert StandsFor(es[0], line[..a + n], line[a + n..]);
      }
    } else {
      var fs := [AnySeq] + es;
      assert fs[1..] == es;
      forall a | 0 <= a <= |line| && Accepts(es, line[a..]) ensures Accepts(fs, line) {
        assert StandsFor(fs[0], line[..a], line[a..]);
      }
    }
  }

  lemma CutTwice(line: string, n: nat, b: nat)
    requires n <= b <= |line|
    ensures line[..b][..n] == line[..n] && line[..b][n..] == line[n..][..b - n]
    ensures line[..b][n..] + line[b..] == line[n..] && line[n..][b - n..] == line[b..]
  {
  }

  ghost predicate FitsBefore(es: seq<Elem>, line: string, b: int) {
    0 <= b <= |line| && AcceptsBefore(es, line[..b], line[b..])
  }

  lemma FitsLater(es: seq<Elem>, line: string, n: nat, b: nat)
    requires es != [] && n <= |line| && StandsFor(es[0], line[..n], line[n..]) && FitsBefore(es[1..], line[n..], b)
    ensures FitsBefore(es, line, n + b)
  {
    CutTwice(line, n, n + b);
    assert AcceptsBefore(es, line[..n + b], line[n + b..]);
  }

  lemma FitsEarlier(es: seq<Elem>, line: string, b: nat) returns (n: nat)
    requires es != [] && FitsBefore(es, line, b)
    ensures n <= b && StandsFor(es[0], line[..n], line[n..]) && FitsBefore(es[1..], line[n..], b - n)
  {
    var m :| 0 <= m <= b && StandsFor(es[0], line[..b][..m], line[..b][m..] + line[b..])
        && AcceptsBefore(es[1..], line[..b][m..], line[b..]);
    CutTwice(line, m, b);
    n := m;
  }

  lemma {:induction false} BackAccepts(es: seq<Elem>, line: string)
    ensures Accepts(es + [AnySeq], line) <==> exists b :: FitsBefore(es, line, b)
    decreases |es|
  {
    var fs := es + [AnySeq];
    if es == [] {
      TrailingSequence(fs, line);
      assert line[..0] == "";
      assert FitsBefore(es, line, 0);
    } else {
      assert fs[1..] == es[1..] + [AnySeq] && fs[0] == es[0];
      if Accepts(fs, line) {
        var n :| 0 <= n <= |line| && StandsFor(fs[0], line[..n], line[n..]) && Accepts(fs[1..], line[n..]);
        BackAccepts(es[1..], line[n..]);
        var b :| FitsBefore(es[1..], line[n..], b);
        FitsLater(es, line, n, b);
      }
      if b :| FitsBefore(es, line, b) {
        var n := FitsEarlier(es, line, b);
        BackAccepts(es[1..], line[n..]);
        assert StandsFor(fs[0], line[..n], line[n..]) && Accepts(fs[1..], line[n..]);
      }
    }
  }

  /** A second ** at the end adds nothing. */
  lemma {:induction false} TwiceAtEnd(es: seq<Elem>, line: string)
    requires es != [] && es[|es| - 1].AnySeq? && Accepts(es + [AnySeq], line)
    ensures Accepts(es, line)
    decreases |es|
  {
    var fs := es + [AnySeq];
    if |es| == 1 {
      TrailingSequence(es, line);
    } else {
      var n :| 0 <= n <= |line| && StandsFor(fs[0], line[..n], line[n..]) && Accepts(fs[1..], line[n..]);
      assert fs[1..] == es[1..] + [AnySeq];
      TwiceAtEnd(es[1..], line[n..]);
    }
  }

  lemma OpenBackAccepts(es: seq<Elem>, line: string)
    ensures Accepts(OpenBack(es), line) <==> exists b :: FitsBefore(es, line, b)
  {
    BackAccepts(es, line);
    if es != [] && es[|es| - 1].AnySeq? {
      if Accepts(es + [AnySeq], line) { TwiceAtEnd(es, line); }
      RestMatters(es, line, "");
      assert line[..|line|] == line && line[|line|..] == "";
      assert Accepts(es, line) ==> FitsBefore(es, line, |line|);
    }
  }

  /** With ** at both ends a pattern accepts the lines in which it fits somewhere. */
  lemma AnywhereAccepts(es: seq<Elem>, line: string)
    ensures Accepts(Anywhere(es), line)
            <==> exists a, b :: 0 <= a <= b <= |line| && AcceptsBefore(es, line[a..b], line[b..])
  {
    FrontAccepts(OpenBack(es), line);
    if a :| 0 <= a <= |line| && Accepts(OpenBack(es), line[a..]) {
      OpenBackAccepts(es, line[a..]);
      var b :| FitsBefore(es, line[a..], b);
      assert line[a..][..b] == line[a..a + b] && line[a..][b..] == line[a + b..];
    }
    if a, b :| 0 <= a <= b <= |line| && AcceptsBefore(es, line[a..b], line[b..]) {
      OpenBackAccepts(es, line[a..]);
      assert line[a..][..b - a] == line[a..b] && line[a..][b - a..] == line[b..];
      assert FitsBefore(es, line[a..], b - a);
    }
  }

  /** From a to b there are digits, the last of their run, whose number is in the range. */
  predicate EndsRun(e: Elem, line: string, a: int, b: int)
    requires e.NumRange?
  {
    && 0 <= a < b <= |line| && AllDigits(line[a..b]) && (b == |line| || !IsDigit(line[b]))
    && InBounds(e, Number(line[a..b]))
  }

  /** A range alone is found in a line exactly if the end of some run of digits is in bounds: a run may
      be cut at its front, but not at its end. */
  lemma RangeAnywhere(e: Elem, line: string)
    requires e.NumRange?
    ensures Accepts(Anywhere([e]), line) <==> exists a, b :: EndsRun(e, line, a, b)
  {
    AnywhereAccepts([e], line);
    forall a, b | 0 <= a <= b <= |line| ensures AcceptsBefore([e], line[a..b], line[b..]) <==> EndsRun(e, line, a, b) {
      OneNumber(e, line[a..b], line[b..]);
      if b < |line| { assert line[b..][0] == line[b]; }
    }
  }

  lemma OneNumber(e: Elem, part: string, rest: string)
    requires e.NumRange?
    ensures AcceptsBefore([e], part, rest)
            <==> part != "" && AllDigits(part) && (rest == "" || !IsDigit(rest[0])) && InBounds(e, Number(part))
  {
    var es := [e];
    assert part[|part|..] == "" && part[..|part|] == part && part[|part|..] + rest == rest;
    forall n | 0 <= n <= |part| && AcceptsBefore(es[1..], part[n..], rest) ensures n == |part| {
    }
    assert AcceptsBefore(es[1..], part[|part|..], rest);
    assert StandsFor(e, part[..|part|], part[|part|..] + rest)
           ==> AcceptsBefore(es, part, rest);
  }

  /** In "12" the range {2..2} is found, and {1..1} is not. */
  lemma OnlyFrontsAreCut()
    ensures Accepts(Anywhere([NumRange(2, 2)]), "12") && !Accepts(Anywhere([NumRange(1, 1)]), "12")
  {
    var line := "12";
    RangeAnywhere(NumRange(2, 2), line);
    NumberLast(line[1..2], 0, 2);
    assert EndsRun(NumRange(2, 2), line, 1, 2);
    RangeAnywhere(NumRange(1, 1), line);
    forall a, b ensures !EndsRun(NumRange(1, 1), line, a, b) { NotInTwelve(line, a, b); }
  }

  lemma NotInTwelve(line: string, a: int, b: int)
    requires line == "12"
    ensures !EndsRun(NumRange(1, 1), line, a, b)
  {
    if 0 <= a < b == 2 {
      if a == 0 { NumberLast(line[a..b], 1, 12); } else { NumberLast(line[a..b], 0, 2); }
    }
  }

  lemma NumberLast(s: string, high: int, n: int)
    requires s != "" && IsDigit(s[|s| - 1]) && n == 10 * high + (s[|s| - 1] as int - '0' as int)
    requires (|s| == 1 && high == 0) || (|s| == 2 && high == s[0] as int - '0' as int)
    ensures Number(s) == n
  {
    if |s| == 2 {
      var t := s[..1];
      assert t[..0] == "";
      assert Number(t) == 10 * Number(t[..0]) + (t[0] as int - '0' as int);
    } else {
      assert s[..0] == "";
    }
  }
}
