/** Printing 128-bit integers into a fixed buffer and reading them back. */
module Int128Text {
  import opened Strings
  import opened WordBits
  import opened Int128Words
  import opened Int128s

  function DigitChar(d: nat): char
    requires d < 37
  {
    if d > 9 then 'A' + (d - 10) as char else '0' + d as char
  }

  /** The digits of n, most significant first. */
  function Digits(n: nat, radix: nat): string
    requires 2 <= radix <= 37
    decreases n
  {
    if n == 0 then ""
    else
      Smaller(n, radix);
      Digits(n / radix, radix) + [DigitChar(n % radix)]
  }

  lemma Smaller(n: nat, d: nat)
    requires n > 0 && d >= 2
    ensures 0 <= n / d <= n / 2 < n && 0 <= n % d < d
  {
    DivMod(n, d);
    DivSign(n, d);
    Scale(2, d, n / d);
  }

  function Text(v: int, radix: nat): string
    requires 2 <= radix <= 37
  {
    if v == 0 then "0" else if v < 0 then "-" + Digits(-v, radix) else Digits(v, radix)
  }

  /** The digits of a value below 2^k are not more than k. */
  lemma {:induction false} DigitsLength(n: nat, radix: nat, k: nat)
    requires 2 <= radix <= 37 && n < Pow2(k)
    ensures |Digits(n, radix)| <= k
    decreases n
  {
    if n > 0 {
      Smaller(n, radix);
      DigitsLength(n / radix, radix, k - 1);
    }
  }

  lemma DigitsStep(n: nat, radix: nat, q: nat, r: nat)
    requires 2 <= radix <= 37 && n > 0 && n == q * radix + r && r < radix
    ensures Digits(n, radix) == Digits(q, radix) + [DigitChar(r)]
  {
    DivUnique(n, radix, q, r);
  }

  /** The text of a value; the smallest value has no magnitude and comes out as "-0". */
  method ToString(x: I128, radix: nat) returns (s: string)
    ensures x == ZERO ==> s == "0"
    ensures x != ZERO && (radix < 2 || radix > 37) ==> s == "(invalid radix)"
    ensures x != ZERO && x != MIN && 2 <= radix <= 37 ==> s == Text(Val(x), radix)
    ensures x == MIN && 2 <= radix <= 37 ==> s == "-0"
  {
    if x == ZERO { return "0"; }
    if radix < 2 || radix > 37 { return "(invalid radix)"; }
    LessSigns(x, ZERO);
    NegCorrect(x);
    var sz := new char[256](_ => '\0');
    var magnitude := if Less(x, ZERO) then Neg(x) else x;
    var i := PrintDigits(sz, magnitude, radix);
    if Less(x, ZERO) {
      i := i - 1;
      sz[i] := '-';
    }
    s := sz[i..255];
  }

  /** Fills the buffer with digits from the back. */
  method PrintDigits(sz: array<char>, magnitude: I128, radix: nat) returns (i: nat)
    requires sz.Length == 256 && 2 <= radix <= 37 && magnitude != ZERO && (Val(magnitude) >= 0 || magnitude == MIN)
    modifies sz
    ensures 0 < i <= 255
    ensures Val(magnitude) >= 0 ==> sz[i..255] == Digits(Val(magnitude), radix)
    ensures magnitude == MIN ==> sz[i..255] == "0"
  {
    var ii := magnitude;
    i := 255;
    var aux := I128(radix, 0);
    NothingPrinted(magnitude, radix);
    while ii != ZERO && i > 0
      invariant 0 < i <= 255
      invariant Printed(magnitude, radix, ii, sz[i..255])
      decreases Abs(Val(ii))
    {
      var ok, q, r := Divide(ii, aux);
      var c := r.lo % 0x1_0000_0000;
      ghost var tail := sz[i..255];
      NextDigit(magnitude, radix, ii, tail, q, r);
      i := i - 1;
      sz[i] := DigitChar(c);
      assert sz[i..255] == [DigitChar(c)] + tail;
      ii := q;
    }
  }

  /** tail is what has been printed of magnitude, ii what remains. */
  ghost predicate Printed(magnitude: I128, radix: nat, ii: I128, tail: string)
    requires 2 <= radix <= 37
  {
    if magnitude == MIN then (ii == MIN && tail == "") || (ii == ZERO && tail == "0")
    else && Val(magnitude) >= 0 && Val(ii) >= 0 && |Digits(Val(magnitude), radix)| <= 128
         && Digits(Val(magnitude), radix) == Digits(Val(ii), radix) + tail
  }

  lemma NothingPrinted(magnitude: I128, radix: nat)
    requires 2 <= radix <= 37 && (Val(magnitude) >= 0 || magnitude == MIN)
    ensures Printed(magnitude, radix, magnitude, "")
  {
    Pow2Words();
    if magnitude != MIN { DigitsLength(Val(magnitude), radix, 128); }
  }

  lemma NextDigit(magnitude: I128, radix: nat, ii: I128, tail: string, q: I128, r: I128)
    requires 2 <= radix <= 37 && Printed(magnitude, radix, ii, tail) && ii != ZERO && Divided(ii, I128(radix, 0), q, r)
    ensures var c := r.lo % 0x1_0000_0000;
            && 0 <= c < radix && Abs(Val(q)) < Abs(Val(ii))
            && Printed(magnitude, radix, q, [DigitChar(c)] + tail) && |tail| < 128
  {
    DigitOfRemainder(ii, radix, q, r);
  }

  /** The remainder is a digit, and the quotient is smaller. */
  lemma DigitOfRemainder(ii: I128, radix: nat, q: I128, r: I128)
    requires 2 <= radix <= 37 && ii != ZERO && (Val(ii) >= 0 || ii == MIN) && Divided(ii, I128(radix, 0), q, r)
    ensures var c := r.lo % 0x1_0000_0000;
            && 0 <= c < radix && Abs(Val(q)) < Abs(Val(ii))
            && (ii == MIN ==> c == 0 && q == ZERO)
            && (Val(ii) >= 0 ==> Val(q) >= 0 && Digits(Val(ii), radix) == Digits(Val(q), radix) + [DigitChar(c)])
  {
    if ii != MIN {
      LastDigit(Val(ii), radix, Val(q), Val(r));
      SmallWord(r);
    }
  }

  lemma LastDigit(n: nat, radix: nat, q: int, r: int)
    requires 2 <= radix <= 37 && n > 0 && IsTruncated(n, radix, q, r)
    ensures 0 <= r < radix && 0 <= q < n && Digits(n, radix) == Digits(q, radix) + [DigitChar(r)]
  {
    DivUnique(n, radix, q, r);
    Smaller(n, radix);
    DigitsStep(n, radix, q, r);
  }

  lemma SmallWord(r: I128)
    requires 0 <= Val(r) < 37
    ensures r.lo % 0x1_0000_0000 == Val(r)
  {
    assert r.hi == 0;
  }

  // ------------------------------------------------------------ reading

  /** The digit a character stands for; letters reach up to radix - 10 and one further. */
  function DigitOf(c: char, radix: nat): (d: int)
    requires radix <= 16
    ensures -1 <= d <= radix
  {
    if '0' <= c <= '9' && c as int < '0' as int + radix then c as int - '0' as int
    else if c >= 'a' && c as int <= 'a' as int + radix - 10 then c as int - 'a' as int + 10
    else if c >= 'A' && c as int <= 'A' as int + radix - 10 then c as int - 'A' as int + 10
    else -1
  }

  /** The number that the digits at the front of s continue. */
  function Fold(s: string, radix: nat, n: nat): nat
    requires radix <= 16
  {
    if s == "" || DigitOf(s[0], radix) < 0 then n
    else Fold(s[1..], radix, n * radix + DigitOf(s[0], radix))
  }

  /** Sign, radix and start of the digits. */
  function SkipSign(s: string): nat { if CharAt(s, 0) == '-' then 1 else 0 }

  function RadixAt(s: string, i: nat): nat {
    if CharAt(s, i) == '0' then (if CharAt(s, i + 1) == 'x' then 16 else 8) else 10
  }

  function SkipRadix(s: string, i: nat): nat {
    if CharAt(s, i) == '0' then (if CharAt(s, i + 1) == 'x' then i + 2 else i + 1) else i
  }

  function Parse(s: string): int {
    var i := SkipSign(s);
    var start := SkipRadix(s, i);
    var n := Fold(if start <= |s| then s[start..] else "", RadixAt(s, i), 0);
    if i == 1 then 0 - n else n
  }

  /** set(const char *). */
  method Set(x: Int128, sz: string)
    modifies x
    ensures Val(x.Get()) == Wrap(Parse(sz))
  {
    x.lo, x.hi := 0, 0;
    WrapUnique(0, 0, 0);
    if sz == "" { return; }
    var i := 0;
    var minus := false;
    var radix := 10;
    if sz[i] == '-' {
      i := i + 1;
      minus := true;
    }
    if CharAt(sz, i) == '0' {
      radix := 8;
      i := i + 1;
      if CharAt(sz, i) == 'x' {
        radix := 16;
        i := i + 1;
      }
    }
    ghost var n := ReadDigits(x, sz, i, radix);
    if minus {
      SubCorrect(ZERO, x.Get());
      WrapNegated(n);
      var r := Sub(ZERO, x.Get());
      x.lo, x.hi := r.lo, r.hi;
    }
  }

  method ReadDigits(x: Int128, sz: string, start: nat, radix: nat) returns (ghost n: nat)
    requires x.Get() == ZERO && start <= |sz| && 8 <= radix <= 16
    modifies x
    ensures n == Fold(sz[start..], radix, 0) && Val(x.Get()) == Wrap(n)
  {
    var i := start;
    n := 0;
    WrapUnique(0, 0, 0);
    while i < |sz|
      invariant i <= |sz| && Val(x.Get()) == Wrap(n) && Fold(sz[start..], radix, 0) == Fold(sz[i..], radix, n)
    {
      var d := DigitOf(sz[i], radix);
      FoldStep(sz, i, radix, n);
      if d < 0 { break; }
      TakeDigit(x, radix, d, n);
      n := n * radix + d;
      i := i + 1;
    }
  }

  lemma FoldStep(s: string, i: nat, radix: nat, n: nat)
    requires i < |s| && radix <= 16
    ensures var d := DigitOf(s[i], radix);
            if d < 0 then Fold(s[i..], radix, n) == n
            else n * radix + d >= 0 && Fold(s[i..], radix, n) == Fold(s[i + 1..], radix, n * radix + d)
  {
    assert s[i..][1..] == s[i + 1..] && s[i..][0] == s[i];
  }

  method TakeDigit(x: Int128, radix: U64, d: U64, ghost n: int)
    requires Val(x.Get()) == Wrap(n)
    modifies x
    ensures Val(x.Get()) == Wrap(n * radix + d)
  {
    MulAdd(n, radix, d);
    var m := new Int128(I128(radix, 0));
    x.MulAssign(m);
    var a := new Int128(I128(d, 0));
    x.AddAssign(a);
  }

  lemma MulAdd(n: int, radix: int, d: int)
    ensures Wrap(Wrap(Wrap(n) * radix) + d) == Wrap(n * radix + d)
  {
    var k := WrapShift(n);
    assert Wrap(n) * radix == n * radix + (k * radix) * M;
    WrapCongruent(Wrap(n) * radix, n * radix, k * radix);
    var j := WrapShift(n * radix);
    WrapCongruent(Wrap(n * radix) + d, n * radix + d, j);
  }

  lemma WrapNegated(n: int)
    ensures Wrap(0 - Wrap(n)) == Wrap(-n)
  {
    var k := WrapShift(n);
    WrapCongruent(0 - Wrap(n), -n, -k);
  }

  // ------------------------------------------------------------ the round trip

  /** The radixes that a text can be written in. */
  predicate IsRadix(radix: nat) { radix == 8 || radix == 10 || radix == 16 }

  lemma {:induction false} FoldDigits(n: nat, radix: nat, t: string)
    requires IsRadix(radix)
    ensures Fold(Digits(n, radix) + t, radix, 0) == Fold(t, radix, n)
    decreases n
  {
    if n == 0 {
      assert "" + t == t;
    } else {
      var q, c := LastRead(n, radix, t);
      FoldDigits(q, radix, [c] + t);
      DigitsBefore(Digits(q, radix), c, t);
    }
  }

  lemma DigitsBefore(a: string, c: char, t: string)
    ensures a + [c] + t == a + ([c] + t)
  {
  }

  /** The last digit, and the number that the digits before it continue. */
  lemma LastRead(n: nat, radix: nat, t: string) returns (q: nat, c: char)
    requires n > 0 && IsRadix(radix)
    ensures q < n && Digits(n, radix) == Digits(q, radix) + [c]
    ensures Fold([c] + t, radix, q) == Fold(t, radix, n)
  {
    Smaller(n, radix);
    DivMod(n, radix);
    q, c := n / radix, DigitChar(n % radix);
    FoldOne(q, n % radix, radix, t);
  }

  lemma FoldOne(q: nat, d: nat, radix: nat, t: string)
    requires IsRadix(radix) && d < radix
    ensures q * radix + d >= 0 && Fold([DigitChar(d)] + t, radix, q) == Fold(t, radix, q * radix + d)
  {
    assert ([DigitChar(d)] + t)[1..] == t;
    DigitRead(d, radix);
  }

  lemma DigitRead(d: nat, radix: nat)
    requires IsRadix(radix) && d < radix
    ensures DigitOf(DigitChar(d), radix) == d
  {
  }

  /** No leading zero and no sign among the digits. */
  lemma {:induction false} FirstDigit(n: nat, radix: nat)
    requires n > 0 && IsRadix(radix)
    ensures Digits(n, radix) != "" && ('1' <= Digits(n, radix)[0] <= '9' || 'A' <= Digits(n, radix)[0] <= 'F')
    ensures radix <= 10 ==> '1' <= Digits(n, radix)[0] <= '9'
    decreases n
  {
    Smaller(n, radix);
    DivMod(n, radix);
    if n / radix > 0 {
      FirstDigit(n / radix, radix);
    }
  }

  /** Hexadecimal and octal digits behind their prefixes are read back as well. */
  lemma ParsePrefixed(n: nat)
    ensures Parse("0x" + Digits(n, 16)) == n && Parse("0" + Digits(n, 8)) == n
  {
    var d, o := Digits(n, 16), Digits(n, 8);
    FoldDigits(n, 16, "");
    FoldDigits(n, 8, "");
    assert d + "" == d && o + "" == o && ("0x" + d)[2..] == d && ("0" + o)[1..] == o;
    if n > 0 { FirstDigit(n, 8); }
  }

  /** A character is read as a digit that the radix does not have exactly if it is the letter behind
      the radix's last one. */
  lemma TooLargeDigit(c: char, radix: nat)
    requires IsRadix(radix)
    ensures DigitOf(c, radix) <= radix
    ensures DigitOf(c, radix) == radix <==>
            radix >= 10 && (c as int == 'a' as int + radix - 10 || c as int == 'A' as int + radix - 10)
  {
  }

  /** So a decimal text with a letter in it is not cut before the letter. */
  lemma LetterInDecimal()
    ensures Parse("1a") == 20 && Parse("1b") == 1
  {
    assert "1a"[0..] == "1a" && "1a"[1..] == "a" && "a"[1..] == "";
    assert "1b"[0..] == "1b" && "1b"[1..] == "b";
    assert Fold("a", 10, 1) == Fold("", 10, 20);
    assert Fold("1a", 10, 0) == Fold("a", 10, 1);
    assert Fold("1b", 10, 0) == Fold("b", 10, 1);
  }

  /** Reading the decimal text of a value gives the value. */
  lemma ParseText(v: int)
    ensures Parse(Text(v, 10)) == v
  {
    if v != 0 {
      var n := Abs(v);
      var d := Digits(n, 10);
      FirstDigit(n, 10);
      FoldDigits(n, 10, "");
      assert d + "" == d;
      if v < 0 { assert ("-" + d)[1..] == d; }
    } else {
      assert "0"[1..] == "";
    }
  }

  /** set(toString(v)) restores every value except the smallest. */
  method RoundTrip(x: I128, y: Int128) returns (s: string)
    modifies y
    ensures y.Get() == x <==> x != MIN
  {
    s := ToString(x, 10);
    Set(y, s);
    if x == MIN {
      ParseMinusZero();
    } else {
      ParseText(Val(x));
      assert x == ZERO ==> Text(Val(x), 10) == "0";
      WrapUnique(Val(x), Val(x), 0);
      Injective(x, y.Get());
    }
  }

  lemma ParseMinusZero()
    ensures Parse("-0") == 0 && Wrap(0) == 0
  {
    assert "-0"[2..] == "";
    WrapUnique(0, 0, 0);
  }
}
