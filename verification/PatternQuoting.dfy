/** Patterns meant to be taken literally: what backslashes achieve, and what they do not. */
module PatternQuoting {
  import opened Strings
  import opened PatternRelation
  import opened PatternSyntax

  /** Characters that must be quoted: those that end a literal, and the backslash. */
  predicate Special(c: char) { Stops(c) || c == '\\' }

  /** The place of the character itself, behind a backslash if there is one. */
  function Place(p: string, i: nat): nat
    requires i < |p|
  {
    if p[i] == '\\' then i + 1 else i
  }

  /** From i on the pattern is the text from k on, with a backslash before every special character and
      before any others. */
  predicate Quotes(p: string, i: nat, t: string, k: nat)
    decreases |p| - i
  {
    if k >= |t| then k == |t| && i == |p|
    else i < |p| && !Stops(p[i]) && Place(p, i) < |p| && p[Place(p, i)] == t[k] && Quotes(p, Place(p, i) + 1, t, k + 1)
  }

  predicate BeginsRange(p: string, s: nat) { s < |p| && p[s] == '[' && RangeAt(p, s, ']').Range? }

  /** No bracket begins a number range. */
  predicate RangeFree(p: string) {
    forall s :: 0 <= s < |p| ==> !BeginsRange(p, s)
  }

  // ------------------------------------------------------------ how a quoted text is read

  lemma LiteralGoesOn(p: string, i: nat)
    requires i < |p| && !Stops(p[i]) && Place(p, i) < |p|
    ensures var s := Place(p, i);
            LiteralAt(p, i) == if BeginsRange(p, s) then Finished([p[s]], s) else Prepended([p[s]], LiteralAt(p, s + 1))
  {
  }

  /** As one literal up to its end, if no bracket from here on begins a range. */
  ghost predicate ReadWhole(p: string, i: nat, t: string, k: nat)
    requires i <= |p| && k <= |t|
  {
    LiteralAt(p, i) == Finished(t[k..], |p|) && forall s :: i <= s < |p| ==> !BeginsRange(p, s)
  }

  /** Or up to the bracket at s, the character n of the text, which does; it is left to be read again,
      without its backslash. */
  predicate ReadUpTo(p: string, i: nat, t: string, k: nat, n: nat, s: nat)
    requires i <= |p|
  {
    && k <= n < |t| && t[n] == '[' && i <= s && BeginsRange(p, s)
    && LiteralAt(p, i) == Finished(t[k..n + 1], s) && Quotes(p, s + 1, t, n + 1)
  }

  lemma {:induction false} ReadQuoted(p: string, i: nat, t: string, k: nat) returns (whole: bool, n: nat, s: nat)
    requires Quotes(p, i, t, k) && i <= |p| && k <= |t|
    ensures if whole then ReadWhole(p, i, t, k) else ReadUpTo(p, i, t, k, n, s)
    decreases |p| - i
  {
    whole, n, s := true, 0, 0;
    if k < |t| {
      var s0 := Place(p, i);
      LiteralGoesOn(p, i);
      if BeginsRange(p, s0) {
        whole, n, s := false, k, s0;
        assert t[k..k + 1] == [p[s0]];
      } else {
        whole, n, s := ReadQuoted(p, s0 + 1, t, k + 1);
        if whole { WholeOneMore(p, i, t, k); } else { UpToOneMore(p, i, t, k, n, s); }
      }
    }
  }

  lemma WholeOneMore(p: string, i: nat, t: string, k: nat)
    requires i < |p| && k < |t| && Place(p, i) < |p| && p[Place(p, i)] == t[k] && !BeginsRange(p, Place(p, i))
    requires LiteralAt(p, i) == Prepended([t[k]], LiteralAt(p, Place(p, i) + 1))
    requires ReadWhole(p, Place(p, i) + 1, t, k + 1)
    ensures ReadWhole(p, i, t, k)
  {
    assert [t[k]] + t[k + 1..] == t[k..];
    forall s | i <= s < |p| ensures !BeginsRange(p, s) {
      if s == i && Place(p, i) != i { assert p[s] == '\\'; }
    }
  }

  lemma UpToOneMore(p: string, i: nat, t: string, k: nat, n: nat, s: nat)
    requires i < |p| && k < |t| && Place(p, i) < |p|
    requires LiteralAt(p, i) == Prepended([t[k]], LiteralAt(p, Place(p, i) + 1))
    requires ReadUpTo(p, Place(p, i) + 1, t, k + 1, n, s)
    ensures ReadUpTo(p, i, t, k, n, s)
  {
    assert [t[k]] + t[k + 1..n + 1] == t[k..n + 1];
  }

  /** Behind a place, characters up to the next backslash are those of the text. */
  lemma {:induction false} PlainStays(p: string, i: nat, t: string, k: nat, m: nat)
    requires Quotes(p, i, t, k) && i + m <= |p| && k <= |t| && forall j :: i <= j < i + m ==> p[j] != '\\'
    ensures k + m <= |t| && t[k..k + m] == p[i..i + m]
    decreases m
  {
    if m > 0 {
      PlainStays(p, i + 1, t, k + 1, m - 1);
      assert t[k..k + m] == [t[k]] + t[k + 1..k + m] && p[i..i + m] == [p[i]] + p[i + 1..i + m];
    }
  }

  /** A range has no character that needs quoting. */
  lemma RangePlain(low: string, high: string)
    requires AllDigits(low) && AllDigits(high)
    ensures var w := RangeText(low, high, ']'); forall i :: 0 <= i < |w| ==> !Special(w[i]) && w[i] != '['
  {
    var w, n, m := RangeText(low, high, ']'), |low|, |high|;
    TextParts(low, high, ']');
    forall i | 0 <= i < |w| ensures !Special(w[i]) && w[i] != '[' {
      if i < n { assert w[i] == w[..n][i]; }
      if n + 2 <= i < n + 2 + m { assert w[i] == w[n + 2..n + 2 + m][i - n - 2]; }
    }
  }

  /** A range in the pattern is one in the text. */
  lemma RangeStays(p: string, s: nat, t: string, n: nat)
    requires BeginsRange(p, s) && n < |t| && Quotes(p, s + 1, t, n + 1)
    ensures HasRange(t[n + 1..], ']')
  {
    RangeIsText(p, s, ']');
    var low, high :| AllDigits(low) && AllDigits(high) && RangeText(low, high, ']') <= p[s + 1..];
    RangePlain(low, high);
    PrefixStays(p, s + 1, t, n + 1, RangeText(low, high, ']'));
  }

  lemma PrefixStays(p: string, i: nat, t: string, k: nat, w: string)
    requires Quotes(p, i, t, k) && i <= |p| && k <= |t| && w <= p[i..]
    requires forall j :: 0 <= j < |w| ==> !Special(w[j])
    ensures w <= t[k..]
  {
    Cut(p, i, i + |w|);
    assert p[i..i + |w|] == w;
    forall j | i <= j < i + |w| ensures p[j] != '\\' { assert p[j] == w[j - i]; }
    PlainStays(p, i, t, k, |w|);
    Cut(t, k, k + |w|);
  }

  // ------------------------------------------------------------ what a quoted text matches

  function LiteralBody(t: string): seq<Elem> { if t == "" then [] else [Literal(t)] }

  function LiteralCuts(p: string): seq<nat> { if p == "" then [0] else [0, |p|] }

  lemma QuotedSplit(p: string, t: string, dotted: bool)
    requires Quotes(p, 0, t, 0) && ReadWhole(p, 0, t, 0)
    ensures Split(p, LiteralCuts(p), LiteralBody(t), dotted) && LiteralCuts(p)[|LiteralBody(t)|] == |p|
  {
    assert t[0..] == t;
    if t != "" { assert PieceAt(p, LiteralCuts(p), LiteralBody(t), dotted, 0); }
  }

  /** However a text is quoted, the pattern matches exactly that text if and only if no bracket of the
      pattern begins a number range, be there a backslash before the bracket or not. */
  lemma QuotingMatches(p: string, t: string, cuts: seq<nat>, es: seq<Elem>, dotted: bool)
    requires Quotes(p, 0, t, 0) && Split(p, cuts, es, dotted) && cuts[|es|] == |p|
    ensures (forall line :: Accepts(es, line) <==> line == t) <==> RangeFree(p)
  {
    var whole, n, s := ReadQuoted(p, 0, t, 0);
    if whole {
      WholeMatches(p, t, cuts, es, dotted);
    } else {
      RangeBreaks(p, t, n, s, cuts, es, dotted);
    }
  }

  lemma WholeMatches(p: string, t: string, cuts: seq<nat>, es: seq<Elem>, dotted: bool)
    requires Quotes(p, 0, t, 0) && ReadWhole(p, 0, t, 0) && Split(p, cuts, es, dotted) && cuts[|es|] == |p|
    ensures RangeFree(p) && forall line :: Accepts(es, line) <==> line == t
  {
    QuotedSplit(p, t, dotted);
    ReadOneWay(p, LiteralCuts(p), LiteralBody(t), cuts, es, dotted);
    forall line ensures Accepts(es, line) <==> line == t {
      if t == "" {
        assert es == [];
      } else {
        assert Alike(LiteralBody(t)[0], es[0]) && es == [Literal(t)];
        LiteralIs(t, line);
      }
    }
  }

  /** Otherwise the text itself is not matched: in it the digits are followed by a dot. */
  lemma RangeBreaks(p: string, t: string, n: nat, s: nat, cuts: seq<nat>, es: seq<Elem>, dotted: bool)
    requires Quotes(p, 0, t, 0) && ReadUpTo(p, 0, t, 0, n, s) && Split(p, cuts, es, dotted) && cuts[|es|] == |p|
    ensures !RangeFree(p) && !Accepts(es, t)
  {
    FirstPiece(p, t, n, s, cuts, es, dotted);
    NextPieces(p, s, cuts, es, dotted);
    RangeStays(p, s, t, n);
    DotHere(t, n);
    LiteralFront(es, t);
    assert t[|t[..n + 1]|..] == t[n + 1..];
    DotAfterDigits(es, t[n + 1..]);
  }

  lemma FirstPiece(p: string, t: string, n: nat, s: nat, cuts: seq<nat>, es: seq<Elem>, dotted: bool)
    requires Quotes(p, 0, t, 0) && ReadUpTo(p, 0, t, 0, n, s) && Split(p, cuts, es, dotted) && cuts[|es|] == |p|
    ensures |es| > 1 && es[0] == Literal(t[..n + 1]) && cuts[1] == s
  {
    assert t[0..n + 1] == t[..n + 1];
    assert |es| > 0;
    assert PieceAt(p, cuts, es, dotted, 0) && es[..0] == [];
  }

  /** Behind the first piece comes the number range, then the closing bracket. */
  lemma NextPieces(p: string, s: nat, cuts: seq<nat>, es: seq<Elem>, dotted: bool)
    requires Split(p, cuts, es, dotted) && cuts[|es|] == |p| && |es| > 1 && es[0].Literal? && cuts[1] == s
    requires BeginsRange(p, s)
    ensures |es| > 2 && es[1].NumRange? && es[2].Literal? && es[2].text != "" && es[2].text[0] == ']'
  {
    assert es[..1] == [es[0]];
    assert PieceAt(p, cuts, es, dotted, 1);
    RangePiece(p, s, cuts[2], es[1], dotted);
    assert |es| > 2;
    assert PieceAt(p, cuts, es, dotted, 2);
    ClosingPiece(p, cuts[2], cuts[3], es[2], dotted, EndsInLiteral(es[..2]));
  }

  lemma RangePiece(p: string, a: nat, b: nat, e: Elem, dotted: bool)
    requires BeginsRange(p, a) && Written(p, a, b, e, dotted, true)
    ensures e.NumRange? && b < |p| && p[b] == ']'
  {
    RangePlaces(p, a, ']');
  }

  lemma ClosingPiece(p: string, a: nat, b: nat, e: Elem, dotted: bool, afterLiteral: bool)
    requires a < |p| && p[a] == ']' && Written(p, a, b, e, dotted, afterLiteral)
    ensures e.Literal? && e.text != "" && e.text[0] == ']'
  {
    LiteralPiece(p, a);
  }

  lemma DotHere(t: string, n: nat)
    requires n < |t| && HasRange(t[n + 1..], ']')
    ensures var line := t[n + 1..]; Digits(line) < |line| && line[Digits(line)] == '.'
  {
    TextIsRange(t, n, ']');
    RangePlaces(t, n, ']');
    DigitsAtIs(t, n + 1);
  }

  lemma DotAfterDigits(es: seq<Elem>, line: string)
    requires |es| > 2 && es[1].NumRange? && es[2].Literal? && es[2].text != "" && es[2].text[0] == ']'
    requires Digits(line) < |line| && line[Digits(line)] == '.'
    ensures !Accepts(es[1..], line)
  {
    NumberFront(es[1..], line);
    var rest := line[Digits(line)..];
    assert es[1..][1..] == es[2..];
    LiteralFront(es[2..], rest);
    assert rest[0] == '.';
  }

  // ------------------------------------------------------------ two ways of quoting

  predicate Marked(c: char, all: bool) { all || Special(c) || c == '[' }

  function Mark(c: char, all: bool): string { if Marked(c, all) then ['\\', c] else [c] }

  /** A backslash before every character with a meaning, brackets included; or before all characters. */
  function Escaped(t: string, all: bool): string {
    if t == "" then "" else Mark(t[0], all) + Escaped(t[1..], all)
  }

  lemma EscapedStep(p: string, i: nat, t: string, k: nat, all: bool)
    requires i <= |p| && k < |t| && p[i..] == Escaped(t[k..], all)
    ensures i < |p| && !Stops(p[i]) && Place(p, i) < |p| && p[Place(p, i)] == t[k]
    ensures p[Place(p, i) + 1..] == Escaped(t[k + 1..], all)
  {
    var q, rest := Mark(t[k], all), Escaped(t[k + 1..], all);
    assert t[k..][0] == t[k] && t[k..][1..] == t[k + 1..];
    assert p[i..] == q + rest;
    assert p[i] == p[i..][0] && p[i + |q| - 1] == p[i..][|q| - 1];
    assert p[i + |q|..] == p[i..][|q|..] == rest;
  }

  lemma {:induction false} EscapedQuotes(p: string, i: nat, t: string, k: nat, all: bool)
    requires i <= |p| && k <= |t| && p[i..] == Escaped(t[k..], all)
    ensures Quotes(p, i, t, k)
    decreases |t| - k
  {
    if k < |t| {
      EscapedStep(p, i, t, k, all);
      EscapedQuotes(p, Place(p, i) + 1, t, k + 1, all);
    } else {
      assert t[k..] == "";
    }
  }

  /** Where character n of the text is. */
  lemma {:induction false} EscapedPlace(p: string, i: nat, t: string, k: nat, n: nat, all: bool) returns (s: nat)
    requires i <= |p| && k <= n < |t| && p[i..] == Escaped(t[k..], all)
    ensures s < |p| && p[s] == t[n] && p[s + 1..] == Escaped(t[n + 1..], all)
    decreases n - k
  {
    EscapedStep(p, i, t, k, all);
    if k == n {
      s := Place(p, i);
    } else {
      s := EscapedPlace(p, Place(p, i) + 1, t, k + 1, n, all);
    }
  }

  /** Characters that need no backslash stay at the front. */
  lemma {:induction false} PlainFront(w: string, t: string)
    requires w <= t && forall i :: 0 <= i < |w| ==> !Special(w[i]) && w[i] != '['
    ensures w <= Escaped(t, false)
    decreases |w|
  {
    if w != "" {
      assert w[0] == t[0];
      PlainFront(w[1..], t[1..]);
      var rest := Escaped(t[1..], false);
      assert Escaped(t, false) == [w[0]] + rest && w == [w[0]] + w[1..];
    }
  }

  /** The text has no bracket that begins a number range. */
  ghost predicate NoRanges(t: string) {
    forall n :: 0 <= n < |t| && t[n] == '[' ==> !HasRange(t[n + 1..], ']')
  }

  lemma RangeEscaped(t: string, n: nat)
    requires n < |t| && t[n] == '[' && HasRange(t[n + 1..], ']')
    ensures !RangeFree(Escaped(t, false))
  {
    var p := Escaped(t, false);
    assert p[0..] == p && t[0..] == t;
    var s := EscapedPlace(p, 0, t, 0, n, false);
    var low, high :| AllDigits(low) && AllDigits(high) && RangeText(low, high, ']') <= t[n + 1..];
    RangePlain(low, high);
    PlainFront(RangeText(low, high, ']'), t[n + 1..]);
    TextIsRange(p, s, ']');
    assert BeginsRange(p, s);
  }

  /** With a backslash before every special character and bracket exactly the texts without a range in
      brackets are matched as they are. */
  lemma EscapedMatches(t: string, cuts: seq<nat>, es: seq<Elem>, dotted: bool)
    requires var p := Escaped(t, false); Split(p, cuts, es, dotted) && cuts[|es|] == |p|
    ensures (forall line :: Accepts(es, line) <==> line == t) <==> NoRanges(t)
  {
    var p := Escaped(t, false);
    assert p[0..] == p && t[0..] == t;
    EscapedQuotes(p, 0, t, 0, false);
    QuotingMatches(p, t, cuts, es, dotted);
    var whole, n, s := ReadQuoted(p, 0, t, 0);
    if whole {
      forall n | 0 <= n < |t| && t[n] == '[' ensures !HasRange(t[n + 1..], ']') {
        if HasRange(t[n + 1..], ']') { RangeEscaped(t, n); }
      }
    } else {
      RangeStays(p, s, t, n);
    }
  }

  lemma {:induction false} AllMarked(t: string)
    ensures |Escaped(t, true)| == 2 * |t|
    ensures forall j :: 0 <= j < |t| ==> Escaped(t, true)[2 * j] == '\\'
  {
    if t != "" {
      AllMarked(t[1..]);
      var p, rest := Escaped(t, true), Escaped(t[1..], true);
      assert p == ['\\', t[0]] + rest;
      forall j | 0 <= j < |t| ensures p[2 * j] == '\\' {
        if j > 0 { assert p[2 * j] == rest[2 * (j - 1)]; }
      }
    }
  }

  /** A backslash before every character lets every text be matched exactly as it is. */
  lemma AllEscapedMatches(t: string, cuts: seq<nat>, es: seq<Elem>, dotted: bool)
    requires var p := Escaped(t, true); Split(p, cuts, es, dotted) && cuts[|es|] == |p|
    ensures forall line :: Accepts(es, line) <==> line == t
  {
    var p := Escaped(t, true);
    assert p[0..] == p && t[0..] == t;
    EscapedQuotes(p, 0, t, 0, true);
    QuotingMatches(p, t, cuts, es, dotted);
    forall s | 0 <= s < |p| ensures !BeginsRange(p, s) { NoRangeMarked(t, s); }
  }

  lemma NoRangeMarked(t: string, s: nat)
    requires s < |Escaped(t, true)|
    ensures !BeginsRange(Escaped(t, true), s)
  {
    var p := Escaped(t, true);
    AllMarked(t);
    var j := s / 2;
    if s == 2 * j {
      assert p[2 * j] == '\\';
    } else {
      assert s + 1 == 2 * (j + 1);
      if s + 1 < |p| { assert p[2 * (j + 1)] == '\\'; }
      assert DigitsAt(p, s + 1) == 0 && CharAt(p, s + 1) != '.';
    }
  }

  // ------------------------------------------------------------ the bracket behind a backslash

  const BRACKET := "\\[1..2]"

  /** The backslash does not take its meaning from the bracket: this pattern matches "[1]" and does
      not match the text "[1..2]" that it quotes. */
  lemma BracketKeepsMeaning(dotted: bool)
    ensures var es := [Literal("["), NumRange(1, 2), Literal("]")];
            && BRACKET == Escaped("[1..2]", false) && LiteralAt(BRACKET, 0) == Finished("[", 1)
            && Split(BRACKET, [0, 1, 6, 7], es, dotted)
            && Accepts(es, "[1]") && !Accepts(es, "[1..2]")
  {
    BracketEscaped();
    BracketSplit(dotted);
    BracketAccepts();
    var es := [Literal("["), NumRange(1, 2), Literal("]")];
    LiteralFront(es, "[1..2]");
    var line := "[1..2]"[1..];
    assert line == "1..2]";
    assert line[..1] == "1";
    DigitRun(line, 1);
    DotAfterDigits(es, line);
  }

  lemma BracketEscaped()
    ensures BRACKET == Escaped("[1..2]", false)
  {
    assert "[1..2]"[1..] == "1..2]" && "1..2]"[1..] == "..2]" && "..2]"[1..] == ".2]" && ".2]"[1..] == "2]";
    assert "2]"[1..] == "]" && "]"[1..] == "";
    assert Escaped("]", false) == "]";
    assert Escaped("2]", false) == "2]";
    assert Escaped(".2]", false) == ".2]";
    assert Escaped("..2]", false) == "..2]";
    assert Escaped("1..2]", false) == "1..2]";
  }

  lemma BracketRange()
    ensures RangeAt(BRACKET, 1, ']') == Range(6, 1, 2)
  {
    var p := BRACKET;
    assert DigitsAt(p, 3) == 0 && DigitsAt(p, 6) == 0;
    assert DigitsAt(p, 2) == 1 && DigitsAt(p, 5) == 1;
    NumberLast(p[2..3], 0, 1);
    NumberLast(p[5..6], 0, 2);
  }

  lemma BracketSplit(dotted: bool)
    ensures LiteralAt(BRACKET, 0) == Finished("[", 1)
    ensures Split(BRACKET, [0, 1, 6, 7], [Literal("["), NumRange(1, 2), Literal("]")], dotted)
  {
    var p, cuts, es := BRACKET, [0, 1, 6, 7], [Literal("["), NumRange(1, 2), Literal("]")];
    BracketRange();
    assert LiteralAt(p, 7) == Finished("", 7);
    assert LiteralAt(p, 6) == Finished("]", 7);
    assert es[..0] == [] && es[..1] == [es[0]] && es[..2] == [es[0], es[1]];
    assert PieceAt(p, cuts, es, dotted, 0);
    assert PieceAt(p, cuts, es, dotted, 1);
    assert PieceAt(p, cuts, es, dotted, 2);
  }

  lemma BracketAccepts()
    ensures Accepts([Literal("["), NumRange(1, 2), Literal("]")], "[1]")
  {
    var es := [Literal("["), NumRange(1, 2), Literal("]")];
    assert es[1..] == [NumRange(1, 2), Literal("]")] && es[1..][1..] == [Literal("]")];
    assert "[1]"[1..] == "1]" && "1]"[1..] == "]" && "1]"[..1] == "1";
    LiteralIs("]", "]");
    DigitRun("1]", 1);
    NumberLast("1", 0, 1);
    NumberFront(es[1..], "1]");
    LiteralFront(es, "[1]");
  }
}
