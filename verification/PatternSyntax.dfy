/** How patterns are written: the pieces a pattern is cut into and the element each stands for. */
module PatternSyntax {
  import opened Strings
  import opened PatternRelation

  // ------------------------------------------------------------ number ranges

  datatype Range = NoRange | Range(end: nat, from: int, to: int)

  /** Length of the run of digits at i. */
  function DigitsAt(p: string, i: nat): nat
    decreases |p| - i
  {
    if i < |p| && IsDigit(p[i]) then 1 + DigitsAt(p, i + 1) else 0
  }

  lemma {:induction false} DigitsAtIs(p: string, i: nat)
    requires i <= |p|
    ensures DigitsAt(p, i) == Digits(p[i..])
    decreases |p| - i
  {
    if i < |p| {
      assert p[i..][1..] == p[i + 1..] && p[i..][0] == p[i];
      DigitsAtIs(p, i + 1);
      DigitsMore(p[i..]);
    }
  }

  lemma DigitsMore(s: string)
    requires s != ""
    ensures Digits(s) == if IsDigit(s[0]) then 1 + Digits(s[1..]) else 0
  {
    if IsDigit(s[0]) {
      var m := Digits(s[1..]);
      assert s[..1 + m] == [s[0]] + s[1..][..m];
      assert 1 + m < |s| ==> s[1 + m] == s[1..][m];
      DigitRun(s, 1 + m);
    } else {
      DigitRun(s, 0);
    }
  }

  function NumberAt(p: string, a: nat, b: nat): int { if a < b <= |p| then Number(p[a..b]) else -1 }

  predicate DotsAt(p: string, i: nat) { CharAt(p, i) == '.' && CharAt(p, i + 1) == '.' }

  /** "[n..m]" or "{n..m}" at i, both numbers optional; end is the place of the closing character. */
  function RangeAt(p: string, i: nat, closing: char): Range {
    var d := i + 1 + DigitsAt(p, i + 1);
    if DotsAt(p, d) then RangeFrom(p, NumberAt(p, i + 1, d), d + 2, closing) else NoRange
  }

  function RangeFrom(p: string, from: int, t: nat, closing: char): Range {
    var b := t + DigitsAt(p, t);
    if b < |p| && p[b] == closing then Range(b, from, NumberAt(p, t, b)) else NoRange
  }

  /** A range between its brackets, with the closing one. */
  function RangeText(low: string, high: string, closing: char): string {
    low + ".." + high + [closing]
  }

  ghost predicate HasRange(s: string, closing: char) {
    exists low, high :: AllDigits(low) && AllDigits(high) && RangeText(low, high, closing) <= s
  }

  lemma Cut(p: string, a: nat, b: nat)
    requires a <= b <= |p|
    ensures p[a..][..b - a] == p[a..b]
  {
  }

  lemma CutRange(p: string, i: nat, d: nat, b: nat)
    requires i <= d && d + 2 <= b < |p|
    ensures p[i..b + 1] == p[i..d] + [p[d], p[d + 1]] + p[d + 2..b] + [p[b]]
  {
  }

  /** The places of the dots and of the closing bracket. */
  lemma RangePlaces(p: string, i: nat, closing: char)
    requires i < |p| && RangeAt(p, i, closing).Range?
    ensures var d, b := i + 1 + DigitsAt(p, i + 1), RangeAt(p, i, closing).end;
            d + 2 <= b < |p| && p[d] == '.' && p[d + 1] == '.' && p[b] == closing && b == d + 2 + DigitsAt(p, d + 2)
  {
  }

  lemma DigitsCut(p: string, i: nat)
    requires i <= |p|
    ensures i + DigitsAt(p, i) <= |p| && AllDigits(p[i..i + DigitsAt(p, i)])
  {
    DigitsAtIs(p, i);
    Cut(p, i, i + DigitsAt(p, i));
  }

  lemma RangeIsText(p: string, i: nat, closing: char)
    requires i < |p| && RangeAt(p, i, closing).Range?
    ensures HasRange(p[i + 1..], closing)
  {
    var d, b := i + 1 + DigitsAt(p, i + 1), RangeAt(p, i, closing).end;
    RangePlaces(p, i, closing);
    DigitsCut(p, i + 1);
    DigitsCut(p, d + 2);
    TextOfPlaces(p, i + 1, d, b, closing);
  }

  lemma TextOfPlaces(p: string, a: nat, d: nat, b: nat, closing: char)
    requires a <= d && d + 2 <= b < |p| && p[d] == '.' && p[d + 1] == '.' && p[b] == closing
    requires AllDigits(p[a..d]) && AllDigits(p[d + 2..b])
    ensures HasRange(p[a..], closing)
  {
    CutRange(p, a, d, b);
    Cut(p, a, b + 1);
    assert RangeText(p[a..d], p[d + 2..b], closing) <= p[a..];
  }

  lemma TextIsRange(p: string, i: nat, closing: char)
    requires i < |p| && HasRange(p[i + 1..], closing) && !IsDigit(closing)
    ensures RangeAt(p, i, closing).Range?
  {
    var low, high :| AllDigits(low) && AllDigits(high) && RangeText(low, high, closing) <= p[i + 1..];
    PlacesOfText(p, i + 1, low, high, closing);
    RangeMade(p, i, closing, |low|, |high|);
  }

  lemma PlacesOfText(p: string, a: nat, low: string, high: string, closing: char)
    requires a <= |p| && AllDigits(low) && AllDigits(high) && RangeText(low, high, closing) <= p[a..]
             && !IsDigit(closing)
    ensures var n, m := |low|, |high|;
            && a + n + 2 + m < |p| && DigitsAt(p, a) == n && DotsAt(p, a + n)
            && DigitsAt(p, a + n + 2) == m && p[a + n + 2 + m] == closing
  {
    var n, m := |low|, |high|;
    TextFront(p[a..], low, high, closing);
    DigitsFit(p, a, n);
    Later(p, a, n + 1);
    assert p[a..][n + 2..] == p[a + n + 2..];
    DigitsFit(p, a + n + 2, m);
  }

  lemma DigitsFit(p: string, a: nat, n: nat)
    requires a <= |p| && n < |p[a..]| && AllDigits(p[a..][..n]) && !IsDigit(p[a..][n])
    ensures a + n < |p| && DigitsAt(p, a) == n && p[a + n] == p[a..][n]
  {
    DigitsAtIs(p, a);
    DigitRun(p[a..], n);
    Later(p, a, n);
  }

  lemma RangeMade(p: string, i: nat, closing: char, n: nat, m: nat)
    requires i + 1 + n + 2 + m < |p| && DigitsAt(p, i + 1) == n && DotsAt(p, i + 1 + n)
    requires DigitsAt(p, i + 1 + n + 2) == m && p[i + 1 + n + 2 + m] == closing
    ensures RangeAt(p, i, closing).Range?
  {
  }

  lemma Later(p: string, a: nat, k: nat)
    requires a <= |p| && k < |p[a..]|
    ensures a + k < |p| && p[a + k] == p[a..][k]
  {
  }

  lemma TextFront(s: string, low: string, high: string, closing: char)
    requires RangeText(low, high, closing) <= s
    ensures var n, m := |low|, |high|;
            && n + m + 3 <= |s| && s[..n] == low && s[n] == '.' && s[n + 1] == '.'
            && s[n + 2..][..m] == high && s[n + 2..][m] == closing && s[n + 2 + m] == closing
  {
    var t, n, m := RangeText(low, high, closing), |low|, |high|;
    TextParts(low, high, closing);
    assert s[..|t|] == t;
    assert s[..n] == t[..n];
    assert s[n] == t[n] && s[n + 1] == t[n + 1] && s[n + 2 + m] == t[n + 2 + m];
    assert s[n + 2..][..m] == t[n + 2..n + 2 + m];
  }

  lemma TextParts(low: string, high: string, closing: char)
    ensures var t, n, m := RangeText(low, high, closing), |low|, |high|;
            && |t| == n + m + 3 && t[..n] == low && t[n] == '.' && t[n + 1] == '.'
            && t[n + 2..n + 2 + m] == high && t[n + 2 + m] == closing
  {
  }

  // ------------------------------------------------------------ literals

  /** Characters that end a literal. */
  predicate Stops(c: char) { c == '?' || c == '{' || c == '*' }

  datatype Literals = Unfinished | Finished(text: string, end: nat)

  function Prepended(text: string, r: Literals): Literals {
    match r
    case Unfinished => Unfinished
    case Finished(t, end) => Finished(text + t, end)
  }

  /** Characters up to the next special one; a bracket that begins a number range is the last, and
      it is left to be read again. A backslash takes the next character as it is. */
  function LiteralAt(p: string, i: nat): Literals
    requires i <= |p|
    decreases |p| - i
  {
    if i == |p| || Stops(p[i]) then Finished("", i)
    else
      var s := if p[i] == '\\' then i + 1 else i;
      if s == |p| then Unfinished
      else if p[s] == '[' && RangeAt(p, s, ']').Range? then Finished([p[s]], s)
      else Prepended([p[s]], LiteralAt(p, s + 1))
  }

  lemma {:induction false} LiteralEnd(p: string, i: nat)
    requires i <= |p| && LiteralAt(p, i).Finished?
    ensures i <= LiteralAt(p, i).end <= |p|
    decreases |p| - i
  {
    if i < |p| && !Stops(p[i]) {
      var s := if p[i] == '\\' then i + 1 else i;
      if !(p[s] == '[' && RangeAt(p, s, ']').Range?) { LiteralEnd(p, s + 1); }
    }
  }

  /** A literal piece is not empty, and it is left where it began only at a range in brackets. */
  lemma LiteralPiece(p: string, i: nat)
    requires i < |p| && !Stops(p[i]) && LiteralAt(p, i).Finished?
    ensures LiteralAt(p, i).text != "" && i <= LiteralAt(p, i).end <= |p|
    ensures LiteralAt(p, i).text[0] == if p[i] == '\\' then CharAt(p, i + 1) else p[i]
    ensures LiteralAt(p, i).end == i ==> p[i] == '[' && RangeAt(p, i, ']').Range?
  {
    LiteralEnd(p, i);
    var s := if p[i] == '\\' then i + 1 else i;
    if !(p[s] == '[' && RangeAt(p, s, ']').Range?) { LiteralEnd(p, s + 1); }
  }

  // ------------------------------------------------------------ sets

  function SetBegin(p: string, i: nat): nat { if CharAt(p, i + 1) == '^' then i + 2 else i + 1 }

  /** The first closing brace that is not the set's first character. */
  predicate SetEnds(p: string, i: nat, k: int) {
    SetBegin(p, i) < k < |p| && p[k] == '}' && forall m :: SetBegin(p, i) < m < k ==> p[m] != '}'
  }

  /** c is one of the characters or ranges from s up to the closing brace. */
  predicate InSetText(c: char, p: string, s: nat, first: bool)
    decreases |p| - s
  {
    if s >= |p| || (p[s] == '}' && !first) then false
    else if CharAt(p, s + 1) == '-' && s + 2 < |p| && p[s + 2] != '}' then
      p[s] <= c <= p[s + 2] || InSetText(c, p, s + 3, false)
    else c == p[s] || InSetText(c, p, s + 1, false)
  }

  predicate WellFormed(e: Elem) {
    e != End && (e.Literal? ==> e.text != "") && (e.Set? || e.NegSet? ==> |e.chars| % 2 == 0)
  }

  ghost predicate SetWritten(p: string, i: nat, e: Elem) {
    && WellFormed(e) && (if CharAt(p, i + 1) == '^' then e.NegSet? else e.Set?)
    && forall c :: InRanges(c, e.chars) <==> InSetText(c, p, SetBegin(p, i), true)
  }

  // ------------------------------------------------------------ pieces

  predicate InBrackets(p: string, a: nat, afterLiteral: bool) {
    CharAt(p, a) == '[' && afterLiteral && RangeAt(p, a, ']').Range?
  }

  /** The piece of p from a to b is written for e. */
  ghost predicate Written(p: string, a: nat, b: int, e: Elem, dotted: bool, afterLiteral: bool)
    requires a <= |p|
  {
    && a < |p|
    && if p[a] == '?' then b == a + 1 && e == (if dotted then CommonChar else AnyChar)
       else if p[a] == '*' then
         if CharAt(p, a + 1) == '*' then b == a + 2 && e == AnySeq
         else b == a + 1 && e == (if dotted then CommonSeq else AnySeq)
       else if p[a] == '{' then
         match RangeAt(p, a, '}')
         case Range(end, from, to) => b == end + 1 && e == NumRange(from, to)
         case NoRange => SetEnds(p, a, b - 1) && SetWritten(p, a, e)
       else if InBrackets(p, a, afterLiteral) then
         b == RangeAt(p, a, ']').end && e == NumRange(RangeAt(p, a, ']').from, RangeAt(p, a, ']').to)
       else e.Literal? && b >= 0 && LiteralAt(p, a) == Finished(e.text, b)
  }

  /** No piece begins at a: a brace without an end, or a backslash at the end of the pattern. */
  ghost predicate NoSetAt(p: string, a: int) {
    0 <= a < |p| && p[a] == '{' && RangeAt(p, a, '}').NoRange? && forall k :: !SetEnds(p, a, k)
  }

  predicate NoLiteralAt(p: string, a: int, afterLiteral: bool) {
    0 <= a < |p| && !Stops(p[a]) && !InBrackets(p, a, afterLiteral) && LiteralAt(p, a).Unfinished?
  }

  predicate EndsInLiteral(es: seq<Elem>) { es != [] && es[|es| - 1].Literal? }

  ghost predicate PieceAt(p: string, cuts: seq<nat>, es: seq<Elem>, dotted: bool, k: nat)
    requires k < |es| && |cuts| == |es| + 1
  {
    cuts[k] <= |p| && Written(p, cuts[k], cuts[k + 1], es[k], dotted, EndsInLiteral(es[..k]))
  }

  /** The pieces between the cuts are written for the elements. */
  ghost predicate Split(p: string, cuts: seq<nat>, es: seq<Elem>, dotted: bool) {
    && |cuts| == |es| + 1 && cuts[0] == 0 && cuts[|es|] <= |p|
    && forall k :: 0 <= k < |es| ==> PieceAt(p, cuts, es, dotted, k)
  }

  /** A piece is followed by the next. */
  lemma SplitGrows(p: string, cuts: seq<nat>, es: seq<Elem>, dotted: bool, b: nat, e: Elem)
    requires Split(p, cuts, es, dotted) && b <= |p|
    requires Written(p, cuts[|es|], b, e, dotted, EndsInLiteral(es))
    ensures Split(p, cuts + [b], es + [e], dotted)
  {
    var cuts', es' := cuts + [b], es + [e];
    forall k | 0 <= k < |es'| ensures PieceAt(p, cuts', es', dotted, k) {
      assert es'[..k] == es[..k];
      if k < |es| { assert PieceAt(p, cuts, es, dotted, k); } else { assert es[..k] == es; }
    }
  }

  lemma PieceFits(p: string, a: nat, b: int, e: Elem, dotted: bool, afterLiteral: bool)
    requires a <= |p| && Written(p, a, b, e, dotted, afterLiteral)
    ensures WellFormed(e) && a <= b
    ensures b == a ==> e.Literal? && p[a] == '[' && RangeAt(p, a, ']').Range? && !afterLiteral
  {
    if p[a] == '{' && RangeAt(p, a, '}').Range? { RangePlaces(p, a, '}'); }
    if InBrackets(p, a, afterLiteral) { RangePlaces(p, a, ']'); }
    else if !Stops(p[a]) { LiteralPiece(p, a); }
  }

  /** The same element, up to the order in which a set is given. */
  ghost predicate Alike(e: Elem, f: Elem) {
    || e == f
    || (&& ((e.Set? && f.Set?) || (e.NegSet? && f.NegSet?))
        && forall c :: InRanges(c, e.chars) <==> InRanges(c, f.chars))
  }

  lemma PieceDetermined(p: string, a: nat, b: int, e: Elem, b': int, e': Elem, dotted: bool, afterLiteral: bool)
    requires a <= |p| && Written(p, a, b, e, dotted, afterLiteral) && Written(p, a, b', e', dotted, afterLiteral)
    ensures b == b' && Alike(e, e')
  {
  }

  lemma PieceExists(p: string, a: nat, b: int, e: Elem, dotted: bool, afterLiteral: bool)
    requires a <= |p| && Written(p, a, b, e, dotted, afterLiteral)
    ensures !NoSetAt(p, a) && !NoLiteralAt(p, a, afterLiteral) && a < |p|
  {
  }

  lemma PiecesAgree(p: string, cuts: seq<nat>, es: seq<Elem>, cuts': seq<nat>, es': seq<Elem>, dotted: bool, k: nat)
    requires k < |es| && k < |es'| && |cuts| == |es| + 1 && |cuts'| == |es'| + 1
    requires PieceAt(p, cuts, es, dotted, k) && PieceAt(p, cuts', es', dotted, k)
    requires cuts[k] == cuts'[k] && EndsInLiteral(es[..k]) == EndsInLiteral(es'[..k])
    ensures cuts[k + 1] == cuts'[k + 1] && Alike(es[k], es'[k])
    ensures EndsInLiteral(es[..k + 1]) == EndsInLiteral(es'[..k + 1])
  {
    PieceDetermined(p, cuts[k], cuts[k + 1], es[k], cuts'[k + 1], es'[k], dotted, EndsInLiteral(es[..k]));
  }

  lemma {:induction false} SplitsAgree(p: string, cuts: seq<nat>, es: seq<Elem>, cuts': seq<nat>, es': seq<Elem>,
                                       dotted: bool, n: nat)
    requires Split(p, cuts, es, dotted) && Split(p, cuts', es', dotted) && n <= |es| && n <= |es'|
    ensures cuts[n] == cuts'[n] && EndsInLiteral(es[..n]) == EndsInLiteral(es'[..n])
    ensures forall k :: 0 <= k < n ==> Alike(es[k], es'[k])
  {
    if n > 0 {
      SplitsAgree(p, cuts, es, cuts', es', dotted, n - 1);
      PiecesAgree(p, cuts, es, cuts', es', dotted, n - 1);
    }
  }

  lemma NotBeyond(p: string, cuts: seq<nat>, es: seq<Elem>, dotted: bool, k: nat)
    requires Split(p, cuts, es, dotted) && k < |es|
    ensures cuts[k] < |p|
  {
    assert PieceAt(p, cuts, es, dotted, k);
  }

  /** A pattern can be read in one way only, and a pattern that cannot be read to its end by one
      reading cannot be read by another. */
  lemma ReadOneWay(p: string, cuts: seq<nat>, es: seq<Elem>, cuts': seq<nat>, es': seq<Elem>, dotted: bool)
    requires Split(p, cuts, es, dotted) && Split(p, cuts', es', dotted) && cuts[|es|] == |p|
    ensures |es'| <= |es| && forall k :: 0 <= k < |es'| ==> Alike(es[k], es'[k])
    ensures !NoSetAt(p, cuts'[|es'|]) && !NoLiteralAt(p, cuts'[|es'|], EndsInLiteral(es'))
    ensures cuts'[|es'|] == |p| ==> |es| == |es'|
  {
    if |es'| > |es| {
      SplitsAgree(p, cuts, es, cuts', es', dotted, |es|);
      NotBeyond(p, cuts', es', dotted, |es|);
    } else {
      var n := |es'|;
      SplitsAgree(p, cuts, es, cuts', es', dotted, n);
      assert es'[..n] == es';
      if n < |es| {
        assert PieceAt(p, cuts, es, dotted, n);
        PieceExists(p, cuts[n], cuts[n + 1], es[n], dotted, EndsInLiteral(es[..n]));
      }
    }
  }
}
