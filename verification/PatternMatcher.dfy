/** The pattern matcher: splitting a pattern into elements and the backtracking match, case sensitive. */
module PatternMatchers {
  import opened Strings
  import opened PatternRelation
  import opened PatternSyntax

  datatype Parsed = Ok | UnmatchedBrace | BackslashAtEnd

  class PatternMatcher {
    var pattern: seq<Elem>

    /** The elements before the end mark. */
    ghost function Body(): seq<Elem>
      reads this
      requires pattern != []
    {
      pattern[..|pattern| - 1]
    }

    ghost predicate Ready()
      reads this
    {
      && pattern != [] && pattern[|pattern| - 1] == End
      && forall i :: 0 <= i < |pattern| - 1 ==> WellFormed(pattern[i])
    }

    // ---------------------------------------------------------- splitting a pattern

    method ParseNumRange(p: string, i: nat, closing: char) returns (ok: bool, j: nat, from: int, to: int)
      requires i < |p|
      ensures ok <==> RangeAt(p, i, closing).Range?
      ensures ok ==> RangeAt(p, i, closing) == Range(j, from, to)
      ensures !ok ==> j == i
    {
      var d, f;
      to, j := -1, i;
      d, from := ParseBound(p, i + 1);
      ok := CharAt(p, d) == '.' && CharAt(p, d + 1) == '.';
      if ok {
        f, to := ParseBound(p, d + 2);
        ok := CharAt(p, f) == closing && f < |p|;
        j := if ok then f else i;
      }
    }

    /** A number, or -1 where there is none. */
    method ParseBound(p: string, i: nat) returns (j: nat, bound: int)
      requires i <= |p|
      ensures j == i + DigitsAt(p, i) && j <= |p| && bound == NumberAt(p, i, j)
    {
      j := SkipDigits(p, i);
      bound := if j > i then Number(p[i..j]) else -1;
    }

    method SkipDigits(p: string, i: nat) returns (j: nat)
      requires i <= |p|
      ensures j == i + DigitsAt(p, i) && j <= |p|
    {
      j := i;
      while j < |p| && IsDigit(p[j])
        invariant i <= j <= |p| && DigitsAt(p, i) == j - i + DigitsAt(p, j)
      {
        j := j + 1;
      }
    }

    /** A set in braces; the first character may be a closing brace. It fails if none closes the set. */
    method ParseSet(p: string, i: nat) returns (ok: bool, j: nat, e: Elem)
      requires i < |p| && p[i] == '{'
      ensures ok ==> SetEnds(p, i, j - 1) && SetWritten(p, i, e)
      ensures !ok ==> forall k :: !SetEnds(p, i, k)
    {
      var s := i + 1;
      var negated := CharAt(p, s) == '^';
      if negated {
        s := s + 1;
      }
      var chars := "";
      var sbeg := s;
      while s < |p| && (p[s] != '}' || s == sbeg)
        invariant sbeg == SetBegin(p, i) <= s && |chars| % 2 == 0
        invariant forall k :: sbeg < k < s && k < |p| ==> p[k] != '}'
        invariant forall c :: InSetText(c, p, sbeg, true) <==> InRanges(c, chars) || InSetText(c, p, s, s == sbeg)
      {
        if CharAt(p, s + 1) == '-' && s + 2 < |p| && p[s + 2] != '}' {
          PairAdded(chars, p[s], p[s + 2]);
          chars := chars + [p[s], p[s + 2]];
          s := s + 3;
        } else {
          PairAdded(chars, p[s], p[s]);
          chars := chars + [p[s], p[s]];
          s := s + 1;
        }
      }
      if s >= |p| { return false, i, End; }
      ok, j, e := true, s + 1, if negated then NegSet(chars) else Set(chars);
    }

    /** Characters up to the next special one; a bracket that begins a number range is the last. */
    method ParseLiteral(p: string, i: nat) returns (ok: bool, j: nat, e: Elem)
      requires i < |p|
      ensures ok ==> e.Literal? && LiteralAt(p, i) == Finished(e.text, j)
      ensures !ok ==> LiteralAt(p, i).Unfinished?
    {
      var s := i;
      var text := "";
      while s < |p| && !Stops(p[s])
        invariant i <= s <= |p| && LiteralAt(p, i) == Prepended(text, LiteralAt(p, s))
      {
        var s0 := s;
        if p[s] == '\\' {
          s := s + 1;
          if s >= |p| { return false, i, End; }
        }
        LiteralStep(p, s0, s, text);
        text := text + [p[s]];
        var stop := BeginsRange(p, s);
        if stop { return true, s, Literal(text); }
        s := s + 1;
      }
      ok, j, e := true, s, Literal(text);
    }

    method BeginsRange(p: string, s: nat) returns (b: bool)
      requires s < |p|
      ensures b <==> p[s] == '[' && RangeAt(p, s, ']').Range?
    {
      b := false;
      if p[s] == '[' {
        var range, _, _, _ := ParseNumRange(p, s, ']');
        b := range;
      }
    }

    /** Splits the pattern; without fullstring it may match anywhere in a line. The cuts are the places
        where the elements begin; the last one is the end, or where no element can be read. */
    method SetPattern(p: string, dottedpath: bool, fullstring: bool)
        returns (r: Parsed, ghost cuts: seq<nat>, ghost es: seq<Elem>)
      modifies this
      ensures Split(p, cuts, es, dottedpath)
      ensures match r
              case Ok => cuts[|es|] == |p| && Ready() && Body() == if fullstring then es else Anywhere(es)
              case UnmatchedBrace => NoSetAt(p, cuts[|es|])
              case BackslashAtEnd => NoLiteralAt(p, cuts[|es|], EndsInLiteral(es))
    {
      pattern := [];
      var i := 0;
      cuts := [0];
      while i < |p|
        invariant i <= |p| && Split(p, cuts, pattern, dottedpath) && cuts[|pattern|] == i
        invariant forall k :: 0 <= k < |pattern| ==> WellFormed(pattern[k])
        decreases 2 * (|p| - i) + (if EndsInLiteral(pattern) then 0 else 1)
      {
        var ok, j, e := ParseElement(p, i, dottedpath);
        if !ok {
          es := pattern;
          return if p[i] == '{' then UnmatchedBrace else BackslashAtEnd, cuts, es;
        }
        PieceFits(p, i, j, e, dottedpath, EndsInLiteral(pattern));
        SplitGrows(p, cuts, pattern, dottedpath, j, e);
        pattern, i, cuts := pattern + [e], j, cuts + [j];
      }
      es := pattern;
      if !fullstring {
        AddSequences();
      }
      pattern := pattern + [End];
      assert pattern[..|pattern| - 1] + [End] == pattern;
      r := Ok;
    }

    /** One round of the loop over the pattern: the element that begins at i. */
    method ParseElement(p: string, i: nat, dottedpath: bool) returns (ok: bool, j: nat, e: Elem)
      requires i < |p|
      ensures ok ==> j <= |p| && Written(p, i, j, e, dottedpath, EndsInLiteral(pattern))
      ensures !ok ==> if p[i] == '{' then NoSetAt(p, i) else NoLiteralAt(p, i, EndsInLiteral(pattern))
    {
      ok, j := true, i + 1;
      if p[i] == '?' {
        e := if dottedpath then CommonChar else AnyChar;
      } else if p[i] == '*' {
        if CharAt(p, i + 1) == '*' {
          e, j := AnySeq, i + 2;
        } else {
          e := if dottedpath then CommonSeq else AnySeq;
        }
      } else if p[i] == '{' {
        ok, j, e := ParseBraces(p, i);
      } else {
        ok, j, e := ParseBracketOrLiteral(p, i);
      }
    }

    method ParseBraces(p: string, i: nat) returns (ok: bool, j: nat, e: Elem)
      requires i < |p| && p[i] == '{'
      ensures ok ==> j <= |p| && forall dotted, after :: Written(p, i, j, e, dotted, after)
      ensures !ok ==> NoSetAt(p, i)
    {
      var range, k, from, to := ParseNumRange(p, i, '}');
      if range {
        RangePlaces(p, i, '}');
        ok, e, j := true, NumRange(from, to), k + 1;
      } else {
        ok, j, e := ParseSet(p, i);
      }
    }

    method ParseBracketOrLiteral(p: string, i: nat) returns (ok: bool, j: nat, e: Elem)
      requires i < |p| && !Stops(p[i])
      ensures ok ==> j <= |p| && forall dotted :: Written(p, i, j, e, dotted, EndsInLiteral(pattern))
      ensures !ok ==> NoLiteralAt(p, i, EndsInLiteral(pattern))
    {
      var range, k, from, to := false, i, -1, -1;
      if p[i] == '[' && EndsInLiteral(pattern) {
        range, k, from, to := ParseNumRange(p, i, ']');
      }
      if range {
        RangePlaces(p, i, ']');
        ok, e, j := true, NumRange(from, to), k;
      } else {
        ok, j, e := ParseLiteral(p, i);
        if ok { LiteralPiece(p, i); }
      }
    }

    /** For a match anywhere in the line, ** is put at both ends unless it is there. */
    method AddSequences()
      requires forall k :: 0 <= k < |pattern| ==> WellFormed(pattern[k])
      modifies this`pattern
      ensures forall k :: 0 <= k < |pattern| ==> WellFormed(pattern[k])
      ensures pattern == Anywhere(old(pattern))
    {
      if pattern == [] || !pattern[|pattern| - 1].AnySeq? {
        pattern := pattern + [AnySeq];
      }
      if !pattern[0].AnySeq? {
        pattern := [AnySeq] + pattern;
      }
    }

    // ---------------------------------------------------------- matching

    method IsInSet(c: char, ranges: string) returns (b: bool)
      requires |ranges| % 2 == 0
      ensures b <==> InRanges(c, ranges)
    {
      var i := 0;
      while i < |ranges|
        invariant 0 <= i <= |ranges| && i % 2 == 0 && forall k :: 0 <= k < i / 2 ==> !InPair(c, ranges, k)
      {
        assert ranges[i] <= c <= ranges[i + 1] <==> InPair(c, ranges, i / 2);
        if ranges[i] <= c <= ranges[i + 1] { return true; }
        i := i + 2;
      }
      b := false;
    }

    method EndsWith(line: string, s: nat, text: string) returns (b: bool)
      requires s <= |line|
      ensures b <==> |text| <= |line| - s && line[s..][|line| - s - |text|..] == text
    {
      b := |text| <= |line| - s && line[|line| - |text|..] == text;
      if |text| <= |line| - s { assert line[s..][|line| - s - |text|..] == line[|line| - |text|..]; }
    }

    /** Does the line from s on match the elements from k on? */
    method DoMatch(line: string, s0: nat, k0: nat) returns (ok: bool)
      requires Ready() && k0 < |pattern| && s0 <= |line|
      ensures ok <==> Accepts(Body()[k0..], line[s0..])
      decreases |pattern| - k0
    {
      var s, k := s0, k0;
      ghost var body := Body();
      while true
        invariant k0 <= k < |pattern| && s0 <= s <= |line|
        invariant Accepts(body[k0..], line[s0..]) <==> Accepts(body[k..], line[s..])
        decreases |pattern| - k
      {
        var e := pattern[k];
        if e.End? {
          AtEnd(body, k, line, s);
          return s == |line|;
        }
        if e.AnySeq? || e.CommonSeq? {
          ok := MatchSequence(line, s, k);
          return;
        }
        var fits, n := MatchOne(e, line, s);
        StepFront(body, k, line, s, fits, n);
        if !fits { return false; }
        s := n;
        k := k + 1;
      }
    }

    /** One element that is no sequence, at s; it takes the characters up to n. */
    method MatchOne(e: Elem, line: string, s: nat) returns (fits: bool, n: nat)
      requires s <= |line| && WellFormed(e) && !e.AnySeq? && !e.CommonSeq?
      ensures s <= n <= |line| && FitsFront(e, line[s..], fits, n - s)
    {
      n := s;
      fits := false;
      if e.Literal? {
        var text := e.text;
        if |text| <= |line| - s && line[s..s + |text|] == text {
          assert line[s..][..|text|] == text;
          fits, n := true, s + |text|;
        }
      } else if e.NumRange? {
        var d := SkipDigits(line, s);
        DigitsAtIs(line, s);
        assert line[s..][..d - s] == line[s..d];
        if d > s && InBounds(e, Number(line[s..d])) {
          fits, n := true, d;
        }
      } else if s < |line| {
        var c := line[s];
        if e.Set? {
          fits := IsInSet(c, e.chars);
        } else if e.NegSet? {
          var inside := IsInSet(c, e.chars);
          fits := !inside;
        } else {
          fits := e.AnyChar? || c != '.';
        }
        n := if fits then s + 1 else s;
      }
    }

    /** A sequence element: the two shortcuts, then every possible length. */
    method MatchSequence(line: string, s0: nat, k: nat) returns (ok: bool)
      requires Ready() && k < |pattern| - 1 && s0 <= |line| && (pattern[k].AnySeq? || pattern[k].CommonSeq?)
      ensures ok <==> Accepts(Body()[k..], line[s0..])
      decreases |pattern| - k, 0
    {
      ghost var es := Body()[k..];
      assert es[1..] == Body()[k + 1..];
      if pattern[k].AnySeq? && k == |pattern| - 2 {
        TrailingSequence(es, line[s0..]);
        return true;
      }
      if pattern[k].AnySeq? && k == |pattern| - 3 && pattern[k + 1].Literal? {
        SequenceLiteral(es, line[s0..]);
        ok := EndsWith(line, s0, pattern[k + 1].text);
        return;
      }
      var s := s0;
      while true
        invariant s0 <= s <= |line|
        invariant Accepts(es, line[s0..]) <==> Accepts(es, line[s..])
        decreases |line| - s
      {
        SequenceFront(es, line[s..]);
        ok := DoMatch(line, s, k + 1);
        if ok { return; }
        if s == |line| || (pattern[k].CommonSeq? && line[s] == '.') { return; }
        assert line[s..][1..] == line[s + 1..];
        s := s + 1;
      }
    }

    /** Does the whole line match? The last two characters of a final literal are compared first. */
    method Matches(line: string) returns (ok: bool)
      requires Ready()
      ensures ok <==> Accepts(Body(), line)
    {
      if |pattern| >= 2 {
        var e := pattern[|pattern| - 2];
        if e.Literal? {
          var p, n := |e.text|, |line|;
          if p >= 2 && n >= 2 && (line[n - 1] != e.text[p - 1] || line[n - 2] != e.text[p - 2]) {
            LastTwoDiffer(Body(), line);
            return false;
          }
        }
      }
      assert Body()[0..] == Body() && line[0..] == line;
      ok := DoMatch(line, 0, 0);
    }
  }

  lemma LiteralStep(p: string, i: nat, s: nat, text: string)
    requires i < |p| && !Stops(p[i]) && s == (if p[i] == '\\' then i + 1 else i) && s < |p|
    ensures var r := Prepended(text, LiteralAt(p, i));
            if p[s] == '[' && RangeAt(p, s, ']').Range? then r == Finished(text + [p[s]], s)
            else r == Prepended(text + [p[s]], LiteralAt(p, s + 1))
  {
    if !(p[s] == '[' && RangeAt(p, s, ']').Range?) && LiteralAt(p, s + 1).Finished? {
      assert text + ([p[s]] + LiteralAt(p, s + 1).text) == text + [p[s]] + LiteralAt(p, s + 1).text;
    }
  }

  lemma PairAdded(chars: string, a: char, b: char)
    requires |chars| % 2 == 0
    ensures forall c :: InRanges(c, chars + [a, b]) <==> InRanges(c, chars) || a <= c <= b
  {
    var all := chars + [a, b];
    forall c ensures InRanges(c, all) <==> InRanges(c, chars) || a <= c <= b {
      if InRanges(c, chars) {
        var i :| 0 <= i < |chars| / 2 && InPair(c, chars, i);
        assert InPair(c, all, i);
      }
      if a <= c <= b { assert InPair(c, all, |chars| / 2); }
      if i :| 0 <= i < |all| / 2 && InPair(c, all, i) {
        if i < |chars| / 2 { assert InPair(c, chars, i); }
      }
    }
  }

  /** The element fits with n characters, or not at all. */
  predicate FitsFront(e: Elem, line: string, fits: bool, n: int) {
    match e
    case Literal(text) => (fits <==> text <= line) && (fits ==> n == |text|)
    case NumRange(_, _) => (fits <==> Digits(line) > 0 && InBounds(e, Number(line[..Digits(line)])))
        && (fits ==> n == Digits(line))
    case _ => (fits <==> line != "" && OneChar(e, line[0])) && (fits ==> n == 1)
  }

  lemma ElementFront(es: seq<Elem>, line: string, fits: bool, n: int)
    requires es != [] && es[0] != End && !es[0].AnySeq? && !es[0].CommonSeq? && 0 <= n <= |line|
             && FitsFront(es[0], line, fits, n)
    ensures Accepts(es, line) <==> fits && Accepts(es[1..], line[n..])
  {
    match es[0]
    case Literal(_) => LiteralFront(es, line);
    case NumRange(_, _) => NumberFront(es, line);
    case _ => CharFront(es, line);
  }

  lemma AtEnd(body: seq<Elem>, k: nat, line: string, s: nat)
    requires k == |body| && s <= |line|
    ensures Accepts(body[k..], line[s..]) <==> s == |line|
  {
    assert body[k..] == [];
  }

  lemma StepFront(body: seq<Elem>, k: nat, line: string, s: nat, fits: bool, n: nat)
    requires k < |body| && body[k] != End && !body[k].AnySeq? && !body[k].CommonSeq?
    requires s <= n <= |line| && FitsFront(body[k], line[s..], fits, n - s)
    ensures Accepts(body[k..], line[s..]) <==> fits && Accepts(body[k + 1..], line[n..])
  {
    ElementFront(body[k..], line[s..], fits, n - s);
    assert line[s..][n - s..] == line[n..];
    assert body[k..][1..] == body[k + 1..];
  }

  lemma LastTwoDiffer(es: seq<Elem>, line: string)
    requires es != [] && es[|es| - 1].Literal?
    requires var t := es[|es| - 1].text;
             |t| >= 2 && |line| >= 2 && (line[|line| - 1] != t[|t| - 1] || line[|line| - 2] != t[|t| - 2])
    ensures !Accepts(es, line)
  {
    if Accepts(es, line) {
      FinalLiteral(es, line);
      var t := es[|es| - 1].text;
      SameEnd(line, t);
    }
  }

  lemma SameEnd(line: string, t: string)
    requires 2 <= |t| <= |line| && line[|line| - |t|..] == t
    ensures line[|line| - 1] == t[|t| - 1] && line[|line| - 2] == t[|t| - 2]
  {
    assert line[|line| - |t|..][|t| - 1] == line[|line| - 1];
    assert line[|line| - |t|..][|t| - 2] == line[|line| - 2];
  }
}
