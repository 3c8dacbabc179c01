/** 128-bit two's-complement values in two limbs: the operators on copies and what they compute. */
module Int128Words {
  import opened WordBits

  const B: int := 0x1_0000_0000_0000_0000
  const HALF: int := 0x8000_0000_0000_0000
  const M: int := 0x1_0000_0000_0000_0000_0000_0000_0000_0000
  const HALFM: int := 0x8000_0000_0000_0000_0000_0000_0000_0000

  type U64 = x: int | 0 <= x < 0x1_0000_0000_0000_0000
  type S64 = x: int | -0x8000_0000_0000_0000 <= x < 0x8000_0000_0000_0000

  datatype I128 = I128(lo: U64, hi: S64)

  const ZERO := I128(0, 0)
  const MIN := I128(0, -0x8000_0000_0000_0000)

  /** Conversion to the two word types wraps. */
  function ToU(x: int): U64 { x % B }

  function ToS(x: int): S64 { (x + HALF) % B - HALF }

  function Val(x: I128): int { x.hi * B + x.lo }

  /** The 128-bit value congruent to v. */
  function Wrap(v: int): int { (v + HALFM) % M - HALFM }

  predicate InRange(v: int) { -HALFM <= v < HALFM }

  lemma WrapUnique(v: int, w: int, k: int)
    requires InRange(w) && w == v + k * M
    ensures Wrap(v) == w
  {
    DivUnique(v + HALFM, M, -k, w + HALFM);
  }

  lemma WrapShift(v: int) returns (k: int)
    ensures Wrap(v) == v + k * M && InRange(Wrap(v))
  {
    k := -((v + HALFM) / M);
    DivMod(v + HALFM, M);
  }

  /** Congruent values wrap to the same. */
  lemma WrapCongruent(v: int, w: int, k: int)
    requires v == w + k * M
    ensures Wrap(v) == Wrap(w)
  {
    var j := WrapShift(v);
    assert Wrap(v) == w + (j + k) * M;
    WrapUnique(w, Wrap(v), j + k);
  }

  lemma Injective(x: I128, y: I128)
    requires Val(x) == Val(y)
    ensures x == y
  {
  }

  // ------------------------------------------------------------ operators

  function Neg(x: I128): I128 {
    if x.lo == 0 then I128(0, ToS(0 - x.hi)) else I128(ToU(0 - x.lo), -1 - x.hi)
  }

  function Add(x: I128, y: I128): I128 {
    var lo := ToU(x.lo + y.lo);
    var hi := ToS(x.hi + y.hi);
    I128(lo, if lo < x.lo then ToS(hi + 1) else hi)
  }

  function Sub(x: I128, y: I128): I128 { Add(x, Neg(y)) }

  predicate Less(x: I128, y: I128) {
    if x.hi == y.hi then (if x.hi < 0 then ToS(x.lo) < ToS(y.lo) else x.lo < y.lo)
    else x.hi < y.hi
  }

  function Shr(x: I128, n: nat): I128 {
    if n >= 128 then
      var hi: S64 := if x.hi < 0 then -1 else 0;
      I128(ToU(hi), hi)
    else if n >= 64 then I128(ToU(ShiftDown(x.hi, n - 64)), if x.hi < 0 then -1 else 0)
    else if n > 0 then
      var mask := Pow2(n) - 1;
      I128(ToU(BitOr(ShiftDown(x.lo, n), ToU(ShiftUp(BitAnd(ToU(x.hi), mask), 64 - n)))), ToS(ShiftDown(x.hi, n)))
    else x
  }

  function Shl(x: I128, n: nat): I128 {
    if n >= 128 then ZERO
    else if n >= 64 then I128(0, ToS(ShiftUp(x.lo, n - 64)))
    else if n > 0 then
      var mask := ToU(B - Pow2(64 - n));
      I128(ToU(ShiftUp(x.lo, n)), ToS(BitOr(ToU(ShiftUp(x.hi, n)), ShiftDown(BitAnd(x.lo, mask), 64 - n))))
    else x
  }

  // ------------------------------------------------------------ what they compute

  lemma NegCorrect(x: I128)
    ensures Val(Neg(x)) == Wrap(-Val(x))
    ensures x != MIN ==> Val(Neg(x)) == -Val(x)
  {
    if x == MIN {
      WrapUnique(-Val(x), Val(Neg(x)), -1);
    } else {
      WrapUnique(-Val(x), Val(Neg(x)), 0);
    }
  }

  lemma AddCorrect(x: I128, y: I128)
    ensures Val(Add(x, y)) == Wrap(Val(x) + Val(y))
  {
    var c := if x.lo + y.lo < B then 0 else 1;
    DivUnique(x.lo + y.lo, B, c, x.lo + y.lo - c * B);
    var k := WordShift(x.hi + y.hi);
    var j := WordShift(ToS(x.hi + y.hi) + 1);
    WrapUnique(Val(x) + Val(y), Val(Add(x, y)), if c == 1 then k + j else k);
  }

  lemma SubCorrect(x: I128, y: I128)
    ensures Val(Sub(x, y)) == Wrap(Val(x) - Val(y))
  {
    NegCorrect(y);
    AddCorrect(x, Neg(y));
    var k := WrapShift(-Val(y));
    WrapCongruent(Val(x) + Wrap(-Val(y)), Val(x) - Val(y), k);
  }

  /** The comparison is that of the values unless both are negative with the same upper word and
      lower words on different sides of 2^63. */
  lemma LessCorrect(x: I128, y: I128)
    ensures (Less(x, y) <==> Val(x) < Val(y))
            <==> !(x.hi == y.hi && x.hi < 0 && (x.lo < HALF) != (y.lo < HALF))
  {
  }

  /** -2^64 + 1 and -2^63: the smaller one is called greater. */
  lemma LessWrongExample()
    ensures var x, y := I128(1, -1), I128(0x8000_0000_0000_0000, -1); Val(x) < Val(y) && !Less(x, y) && Less(y, x)
  {
  }

  /** The sign test and the comparison of values that are not negative are right. */
  lemma LessSigns(x: I128, y: I128)
    ensures Less(x, ZERO) <==> Val(x) < 0
    ensures Val(x) >= 0 && Val(y) >= 0 ==> (Less(x, y) <==> Val(x) < Val(y))
  {
  }

  // ------------------------------------------------------------ shifts

  lemma Pow2Split(n: nat)
    requires n <= 64
    ensures Pow2(n) * Pow2(64 - n) == B && 0 < Pow2(n) <= B && (n < 64 ==> Pow2(n) < B)
  {
    Pow2Words();
    Pow2Sum(n, 64 - n);
    Factor(Pow2(n), Pow2(64 - n));
  }

  lemma Factor(p: int, q: int)
    requires p > 0 && q > 0 && p * q == B
    ensures p <= B && (q >= 2 ==> p < B)
  {
    Scale(1, q, p);
    if q >= 2 { Scale(2, q, p); }
  }

  /** The high word's low n bits move to the top of the low word. */
  lemma ShrLow(x: I128, n: nat)
    requires 0 < n < 64
    ensures var P, Q := Pow2(n), Pow2(64 - n);
            && 0 <= x.hi % P < P && 0 <= x.lo / P < Q
            && Shr(x, n).lo == (x.hi % P) * Q + x.lo / P
  {
    var P, Q := Pow2(n), Pow2(64 - n);
    Pow2Split(n);
    QuotientBound(x.lo, P, Q);
    ShiftDownIs(x.lo, n);
    var a := ShrMask(x.hi, n);
    var l := x.lo / P;
    JoinLow(a, l, Q, 64 - n);
  }

  lemma ShrMask(hi: S64, n: nat) returns (a: nat)
    requires 0 < n < 64
    ensures var P, Q := Pow2(n), Pow2(64 - n);
            a == hi % P && a < P && a * Q + Q <= B && ToU(ShiftUp(BitAnd(ToU(hi), P - 1), 64 - n)) == a * Q
  {
    var P, Q := Pow2(n), Pow2(64 - n);
    Pow2Split(n);
    DivMod(hi, P);
    a := hi % P;
    AndLowMask(ToU(hi), n);
    ModMod(hi, P, Q);
    ProductBound(a, P, Q);
    ShiftUpIs(a, 64 - n);
    DivUnique(a * Q, B, 0, a * Q);
  }

  lemma JoinLow(a: nat, l: nat, Q: int, n: nat)
    requires Q == Pow2(n) && l < Q && a * Q >= 0 && a * Q + Q <= B
    ensures BitOr(l, a * Q) == a * Q + l && ToU(a * Q + l) == a * Q + l
  {
    ShiftUpIs(a, n);
    OrDisjoint(a, l, n);
    OrCommutes(l, a * Q);
    DivUnique(a * Q + l, B, 0, a * Q + l);
  }

  lemma QuotientBound(v: int, p: int, q: int)
    requires 0 <= v < p * q && p > 0 && q > 0
    ensures 0 <= v / p < q
  {
    DivMod(v, p);
    if v / p >= q { Scale(q, v / p, p); }
    if v / p < 0 { Scale(v / p, -1, p); }
  }

  lemma ModMod(v: int, p: int, q: int)
    requires p > 0 && q > 0
    ensures p * q > 0 && v % (p * q) % p == v % p
  {
    Scale(1, q, p);
    DivMod(v, p * q);
    var r := v % (p * q);
    DivMod(r, p);
    assert v == (v / (p * q) * q + r / p) * p + r % p by {
      Assoc(v / (p * q), q, p);
      Distribute(v / (p * q) * q, -(r / p), p);
    }
    DivUnique(v, p, v / (p * q) * q + r / p, r % p);
  }

  lemma ProductBound(a: int, p: int, q: int)
    requires 0 <= a < p && q > 0
    ensures 0 <= a * q && a * q + q <= p * q
  {
    Scale(0, a, q);
    Scale(a + 1, p, q);
  }

  lemma ShrCorrect(x: I128, n: nat)
    ensures Val(Shr(x, n)) == ShiftDown(Val(x), n)
  {
    if 0 < n < 64 {
      ShrPart(x, n);
    } else if n == 0 {
    } else if n < 128 {
      ShrWhole(x, n - 64);
    } else {
      ShrAll(x, n);
    }
  }

  lemma ShrPart(x: I128, n: nat)
    requires 0 < n < 64
    ensures Val(Shr(x, n)) == ShiftDown(Val(x), n)
  {
    var P, Q := Pow2(n), Pow2(64 - n);
    Pow2Split(n);
    ShrLow(x, n);
    ShiftDownIs(x.hi, n);
    ShiftDownIs(Val(x), n);
    DivMod(x.hi, P);
    DivMod(x.lo, P);
    HighQuotient(x.hi, P);
    Recombine(x.hi / P, x.hi % P, x.lo / P, x.lo % P, P, Q);
    DivUnique(Val(x), P, (x.hi / P) * B + (x.hi % P) * Q + x.lo / P, x.lo % P);
  }

  lemma HighQuotient(h: S64, p: int)
    requires p > 0
    ensures -HALF <= h / p < HALF && ToS(h / p) == h / p
  {
    DivMod(h, p);
    if h / p >= HALF { Scale(HALF, h / p, p); Scale(1, p, HALF); }
    if h / p < -HALF { Scale(h / p, -HALF - 1, p); Scale(1, p, HALF + 1); }
  }

  /** (h1 P + h0) P Q + (l1 P + l0) over P. */
  lemma Recombine(h1: int, h0: int, l1: int, l0: int, P: int, Q: int)
    ensures (h1 * P + h0) * (P * Q) + (l1 * P + l0) == (h1 * (P * Q) + h0 * Q + l1) * P + l0
  {
    assert (h1 * P + h0) * (P * Q) == h1 * P * (P * Q) + h0 * (P * Q) by { Distribute(h1 * P, -h0, P * Q); }
    assert h1 * P * (P * Q) == h1 * (P * Q) * P;
    assert h0 * (P * Q) == h0 * Q * P;
    assert (h1 * (P * Q) + h0 * Q + l1) * P == h1 * (P * Q) * P + h0 * Q * P + l1 * P by {
      Distribute(h1 * (P * Q) + h0 * Q, -l1, P);
      Distribute(h1 * (P * Q), -(h0 * Q), P);
    }
  }

  /** Shifting by a whole word and k more bits. */
  lemma ShrWhole(x: I128, k: nat)
    requires k < 64
    ensures Val(Shr(x, 64 + k)) == ShiftDown(Val(x), 64 + k)
  {
    var P := Pow2(k);
    Pow2Words();
    Pow2Sum(64, k);
    HighShifted(x.hi, k);
    ShiftDownIs(Val(x), 64 + k);
    WordDivides(x.hi, x.lo, P);
  }

  /** The high word shifted into the low one, with its sign. */
  lemma HighShifted(h: S64, k: nat)
    ensures Val(I128(ToU(ShiftDown(h, k)), if h < 0 then -1 else 0)) == h / Pow2(k)
  {
    HighQuotient(h, Pow2(k));
    DivSign(h, Pow2(k));
    ShiftDownIs(h, k);
    SignedWord(h / Pow2(k));
  }

  lemma SignedWord(q: S64)
    ensures Val(I128(ToU(q), if q < 0 then -1 else 0)) == q
  {
  }

  /** Dividing by a multiple of the word size looks at the high word only. */
  lemma WordDivides(hi: int, lo: U64, P: int)
    requires P > 0
    ensures B * P > 0 && (hi * B + lo) / (B * P) == hi / P
  {
    var q, r := Parts(hi, P);
    DivUnique(hi, P, q, r);
    WholeQuotient(q, r, lo, P);
    DivUnique(hi * B + lo, B * P, q, r * B + lo);
  }

  lemma WholeQuotient(q: int, r: int, lo: U64, P: int)
    requires 0 <= r < P
    ensures (q * P + r) * B + lo == q * (B * P) + (r * B + lo) && 0 <= r * B + lo < B * P
  {
  }

  lemma ShrAll(x: I128, n: nat)
    requires n >= 128
    ensures Val(Shr(x, n)) == ShiftDown(Val(x), n)
  {
    HugePower(n);
    DivLarge(Val(x), Pow2(n));
    ShiftDownIs(Val(x), n);
    DivUnique(-1, B, -1, B - 1);
  }

  lemma HugePower(n: nat)
    requires n >= 128
    ensures Pow2(n) >= M
  {
    Pow2Words();
    Pow2Sum(128, n - 128);
    Scale(1, Pow2(n - 128), M);
  }

  lemma DivLarge(v: int, d: int)
    requires -d <= v < d
    ensures v / d == if v < 0 then -1 else 0
  {
    DivUnique(v, d, if v < 0 then -1 else 0, if v < 0 then v + d else v);
  }

  lemma ShlCorrect(x: I128, n: nat)
    ensures Val(Shl(x, n)) == Wrap(ShiftUp(Val(x), n))
  {
    ShiftUpIs(Val(x), n);
    if n == 0 {
      WrapUnique(Val(x), Val(x), 0);
    } else if n < 64 {
      ShlPart(x, n);
    } else if n < 128 {
      ShlWhole(x, n - 64);
    } else {
      ShlAll(x, n);
    }
  }

  lemma ShlAll(x: I128, n: nat)
    requires n >= 128
    ensures Val(Shl(x, n)) == Wrap(Val(x) * Pow2(n))
  {
    Pow2Words();
    Pow2Sum(128, n - 128);
    WrapMultiple(Val(x), Pow2(n - 128));
  }

  lemma WrapMultiple(v: int, p: int)
    ensures Wrap(v * (M * p)) == 0
  {
    assert v * (M * p) == (v * p) * M;
    WrapUnique(v * (M * p), 0, -(v * p));
  }

  lemma ShlWhole(x: I128, k: nat)
    requires k < 64
    ensures Val(Shl(x, 64 + k)) == Wrap(Val(x) * Pow2(64 + k))
  {
    var P := Pow2(k);
    Pow2Words();
    Pow2Sum(64, k);
    var j := WordShift(x.lo * P);
    ShiftUpIs(x.lo, k);
    ByWord(x, P);
    WrapUnique(Val(x) * (B * P), Val(Shl(x, 64 + k)), j - x.hi * P);
  }

  lemma ByWord(x: I128, P: int)
    ensures (x.hi * B + x.lo) * (B * P) == (x.lo * P) * B + (x.hi * P) * M
  {
    Distribute(x.hi * B, 0 - x.lo, B * P);
    assert x.hi * B * (B * P) == x.hi * P * M;
    assert x.lo * (B * P) == x.lo * P * B;
  }

  lemma WordShift(v: int) returns (k: int)
    ensures ToS(v) == v + k * B
  {
    k := -((v + HALF) / B);
    DivMod(v + HALF, B);
  }

  lemma ShlPart(x: I128, n: nat)
    requires 0 < n < 64
    ensures Val(Shl(x, n)) == Wrap(Val(x) * Pow2(n))
  {
    var P := Pow2(n);
    var a, b, h, lP, j := ShlFields(x, n);
    JoinWords(x.hi, x.lo, P, a, b, h, lP, j);
    WrapUnique(Val(x) * P, Val(Shl(x, n)), j - a);
  }

  lemma ShlFields(x: I128, n: nat) returns (a: int, b: int, h: int, lP: int, j: int)
    requires 0 < n < 64
    ensures x.hi * Pow2(n) == a * B + b && x.lo * Pow2(n) == h * B + lP
    ensures Shl(x, n).lo == lP && Shl(x, n).hi == b + h + j * B
  {
    a, b := Parts(x.hi * Pow2(n), B);
    ShiftUpIs(x.lo, n);
    h, lP := ShlLow(x.lo, n);
    ShlHigh(x, n);
    j := WordShift(b + h);
  }

  lemma ShlLow(lo: U64, n: nat) returns (h: int, lP: U64)
    requires 0 < n < 64
    ensures lo * Pow2(n) == h * B + lP && lP == ToU(lo * Pow2(n)) && h == lo / Pow2(64 - n)
  {
    var P, Q := Pow2(n), Pow2(64 - n);
    Pow2Split(n);
    var k, l := Parts(lo, Q);
    h := lo / Q;
    DivUnique(lo, Q, k, l);
    DivMod(lo, Q);
    ProductBound(l, Q, P);
    assert lo * P == h * B + l * P by { SplitProduct(h, Q, l, P); }
    DivUnique(lo * P, B, h, l * P);
    lP := l * P;
  }

  lemma SplitProduct(h: int, Q: int, l: int, P: int)
    ensures (h * Q + l) * P == h * (P * Q) + l * P
  {
  }

  lemma JoinWords(hi: int, lo: int, P: int, a: int, b: int, h: int, lP: int, j: int)
    requires hi * P == a * B + b && lo * P == h * B + lP
    ensures (b + h + j * B) * B + lP == (hi * B + lo) * P + (j - a) * M
  {
    assert (hi * B + lo) * P == (hi * P) * B + lo * P;
  }

  /** The low word's high n bits move to the bottom of the high word. */
  lemma ShlHigh(x: I128, n: nat)
    requires 0 < n < 64
    ensures var P, Q := Pow2(n), Pow2(64 - n);
            Shl(x, n).hi == ToS((x.hi * P) % B + x.lo / Q) && 0 <= x.lo / Q < P
  {
    Pow2Split(n);
    QuotientBound(x.lo, Pow2(64 - n), Pow2(n));
    ShlMask(x.lo, n);
    ShiftUpIs(x.hi, n);
    ShiftDownIs(BitAnd(x.lo, B - Pow2(64 - n)), 64 - n);
    var c := MultipleOf(x.hi, Pow2(n), Pow2(64 - n));
    HighOr(ToU(x.hi * Pow2(n)), c, x.lo / Pow2(64 - n), n);
  }

  lemma HighOr(v: nat, c: nat, h: nat, n: nat)
    requires v == c * Pow2(n) && h < Pow2(n)
    ensures BitOr(v, h) == v + h
  {
    ShiftUpIs(c, n);
    OrDisjoint(c, h, n);
  }

  lemma ShlMask(lo: U64, n: nat)
    requires 0 < n < 64
    ensures var Q := Pow2(64 - n); 0 < Q < B && ToU(B - Q) == B - Q && BitAnd(lo, B - Q) / Q == lo / Q
  {
    var Q := Pow2(64 - n);
    Pow2Split(64 - n);
    Pow2Words();
    DivUnique(B - Q, B, 0, B - Q);
    AndHighMask(lo, 64 - n, n);
    DivMod(lo, Q);
    DivUnique(lo - lo % Q, Q, lo / Q, 0);
  }

  /** The remainder of a multiple of P by P Q is a multiple of P. */
  lemma MultipleOf(v: int, P: int, Q: int) returns (c: nat)
    requires P > 0 && Q > 0 && P * Q == B
    ensures (v * P) % B == c * P
  {
    DivMod(v, Q);
    c := v % Q;
    SplitProduct(v / Q, Q, c, P);
    ProductBound(c, Q, P);
    DivUnique(v * P, B, v / Q, c * P);
  }

  // ------------------------------------------------------------ single bits

  function TestBit(x: I128, n: nat): bool {
    if n >= 128 then x.hi < 0
    else if n < 64 then BitAnd(x.lo, Pow2(n)) != 0
    else BitAnd(ToU(x.hi), Pow2(n - 64)) != 0
  }

  function SetBit(x: I128, n: nat): I128 {
    if n >= 128 then x
    else if n < 64 then I128(ToU(BitOr(x.lo, Pow2(n))), x.hi)
    else I128(x.lo, ToS(BitOr(ToU(x.hi), Pow2(n - 64))))
  }

  lemma TestBitCorrect(x: I128, n: nat)
    requires n < 128
    ensures TestBit(x, n) <==> ShiftDown(Val(x), n) % 2 == 1
  {
    if n < 64 {
      AndBit(x.lo, n);
      BitOrNot(x.lo, n);
      LowQuotient(x, n);
      EvenPower(64 - n);
      OddSum(x.hi, Pow2(64 - n), x.lo / Pow2(n));
    } else {
      AndBit(ToU(x.hi), n - 64);
      BitOrNot(ToU(x.hi), n - 64);
      HighBits(x, n - 64);
      WrapsEvenly(x.hi, n - 64);
    }
  }

  lemma BitOrNot(x: nat, n: nat)
    ensures Bit(x, n) == 0 || Bit(x, n) == 1
    ensures Bit(x, n) * Pow2(n) != 0 <==> Bit(x, n) == 1
  {
  }

  lemma EvenPower(n: nat)
    requires n > 0
    ensures Pow2(n) % 2 == 0
  {
  }

  lemma OddSum(h: int, q: int, l: int)
    requires q % 2 == 0
    ensures (h * q + l) % 2 == l % 2
  {
    var k := q / 2;
    assert h * q == 2 * (h * k);
  }

  lemma LowQuotient(x: I128, n: nat)
    requires n < 64
    ensures ShiftDown(Val(x), n) == x.hi * Pow2(64 - n) + x.lo / Pow2(n)
  {
    var P, Q := Pow2(n), Pow2(64 - n);
    Pow2Split(n);
    var l, r := Parts(x.lo, P);
    DivMod(x.lo, P);
    DivUnique(x.lo, P, l, r);
    LowSplit(x.hi, l, r, P, Q);
    DivUnique(Val(x), P, x.hi * Q + l, r);
    ShiftDownIs(Val(x), n);
  }

  lemma LowSplit(h: int, l: int, r: int, P: int, Q: int)
    requires P * Q == B
    ensures h * B + (l * P + r) == (h * Q + l) * P + r
  {
    assert h * Q * P == h * (P * Q);
    assert (h * Q + l) * P == h * Q * P + l * P;
  }

  lemma HighBits(x: I128, k: nat)
    requires k < 64
    ensures ShiftDown(Val(x), 64 + k) == x.hi / Pow2(k)
  {
    var P := Pow2(k);
    Pow2Words();
    Pow2Sum(64, k);
    var q, r := Parts(x.hi, P);
    DivMod(x.hi, P);
    DivUnique(x.hi, P, q, r);
    WholeQuotient(q, r, x.lo, P);
    DivUnique(Val(x), B * P, q, r * B + x.lo);
    ShiftDownIs(Val(x), 64 + k);
  }

  /** Bits of a negative word are those of the unsigned word. */
  lemma WrapsEvenly(h: S64, k: nat)
    requires k < 64
    ensures Bit(ToU(h), k) == h / Pow2(k) % 2
  {
    if h >= 0 {
      DivUnique(h, B, 0, h);
    } else {
      var P, Q := Pow2(k), Pow2(64 - k);
      DivUnique(h, B, -1, h + B);
      Pow2Split(k);
      var q, r := Parts(h, P);
      DivMod(h, P);
      DivUnique(h, P, q, r);
      LowSplit(1, q, r, P, Q);
      DivUnique(h + B, P, 1 * Q + q, r);
      EvenPower(64 - k);
      OddSum(1, Q, q);
    }
  }

  function ClearBit(x: I128, n: nat): I128 {
    if n >= 128 then x
    else if n < 64 then I128(ToU(BitAnd(x.lo, ToU(B - 1 - Pow2(n)))), x.hi)
    else I128(x.lo, ToS(BitAnd(ToU(x.hi), ToU(B - 1 - Pow2(n - 64)))))
  }

  /** Setting a bit adds the power of two if the bit was not set, up to multiples of 2^128. */
  lemma SetBitCorrect(x: I128, n: nat)
    requires n < 128
    ensures Val(SetBit(x, n)) == Wrap(if ShiftDown(Val(x), n) % 2 == 1 then Val(x) else Val(x) + Pow2(n))
  {
    if n < 64 { SetLow(x, n); } else { SetHigh(x, n - 64); }
  }

  /** Clearing a bit subtracts it if it was set. */
  lemma ClearBitCorrect(x: I128, n: nat)
    requires n < 128
    ensures Val(ClearBit(x, n)) == Wrap(if ShiftDown(Val(x), n) % 2 == 1 then Val(x) - Pow2(n) else Val(x))
  {
    if n < 64 { ClearLow(x, n); } else { ClearHigh(x, n - 64); }
  }

  lemma SetLow(x: I128, n: nat)
    requires n < 64
    ensures Val(SetBit(x, n)) == Wrap(if ShiftDown(Val(x), n) % 2 == 1 then Val(x) else Val(x) + Pow2(n))
  {
    BitOfLow(x, n);
    OrBit(x.lo, n);
    ChangedLow(x, SetBit(x, n), if Bit(x.lo, n) == 0 then x.lo + Pow2(n) else x.lo);
  }

  lemma ClearLow(x: I128, n: nat)
    requires n < 64
    ensures Val(ClearBit(x, n)) == Wrap(if ShiftDown(Val(x), n) % 2 == 1 then Val(x) - Pow2(n) else Val(x))
  {
    BitOfLow(x, n);
    ClearMask(x.lo, n);
    ChangedLow(x, ClearBit(x, n), if Bit(x.lo, n) == 0 then x.lo else x.lo - Pow2(n));
  }

  lemma SetHigh(x: I128, k: nat)
    requires k < 64
    ensures Val(SetBit(x, 64 + k)) == Wrap(if ShiftDown(Val(x), 64 + k) % 2 == 1 then Val(x) else Val(x) + Pow2(64 + k))
  {
    var u := ToU(x.hi);
    BitOfHigh(x, k);
    OrBit(u, k);
    HighPower(k);
    ChangedHigh(x, SetBit(x, 64 + k), if Bit(u, k) == 0 then Pow2(k) else 0);
  }

  lemma ClearHigh(x: I128, k: nat)
    requires k < 64
    ensures Val(ClearBit(x, 64 + k))
            == Wrap(if ShiftDown(Val(x), 64 + k) % 2 == 1 then Val(x) - Pow2(64 + k) else Val(x))
  {
    var u := ToU(x.hi);
    BitOfHigh(x, k);
    ClearMask(u, k);
    HighPower(k);
    ChangedHigh(x, ClearBit(x, 64 + k), if Bit(u, k) == 0 then 0 else 0 - Pow2(k));
  }

  lemma HighPower(k: nat)
    ensures Pow2(64 + k) == Pow2(k) * B
  {
    Pow2Words();
    Pow2Sum(64, k);
  }

  lemma ClearMask(v: U64, k: nat)
    requires k < 64
    ensures BitAnd(v, ToU(B - 1 - Pow2(k))) == if Bit(v, k) == 0 then v else v - Pow2(k)
  {
    Pow2Words();
    Pow2Split(k);
    AndAllBut(v, k, 64);
    DivUnique(B - 1 - Pow2(k), B, 0, B - 1 - Pow2(k));
  }

  lemma BitOfLow(x: I128, n: nat)
    requires n < 64
    ensures Bit(x.lo, n) == ShiftDown(Val(x), n) % 2
    ensures Bit(x.lo, n) == 0 ==> x.lo + Pow2(n) < B
    ensures Bit(x.lo, n) == 1 ==> x.lo - Pow2(n) >= 0
  {
    LowQuotient(x, n);
    EvenPower(64 - n);
    OddSum(x.hi, Pow2(64 - n), x.lo / Pow2(n));
    if Bit(x.lo, n) == 0 { LowFits(x.lo, n); } else { SetIsGreat(x.lo, Pow2(n)); }
  }

  lemma SetIsGreat(v: nat, p: int)
    requires p > 0 && v / p % 2 == 1
    ensures v >= p
  {
    if v < p { DivUnique(v, p, 0, v); }
  }

  lemma BitOfHigh(x: I128, k: nat)
    requires k < 64
    ensures Bit(ToU(x.hi), k) == ShiftDown(Val(x), 64 + k) % 2
  {
    HighBits(x, k);
    WrapsEvenly(x.hi, k);
  }

  /** The low word changes within its range. */
  lemma ChangedLow(x: I128, y: I128, lo: U64)
    requires y == I128(ToU(lo), x.hi)
    ensures Val(y) == Wrap(Val(x) + lo - x.lo)
  {
    DivUnique(lo, B, 0, lo);
    WrapUnique(Val(y), Val(y), 0);
  }

  /** The high word changes by d, up to multiples of 2^64. */
  lemma ChangedHigh(x: I128, y: I128, d: int)
    requires y == I128(x.lo, ToS(ToU(x.hi) + d))
    ensures Val(y) == Wrap(Val(x) + d * B)
  {
    var j := WordShift(ToU(x.hi) + d);
    DivMod(x.hi, B);
    WrapUnique(Val(x) + d * B, Val(y), j - x.hi / B);
  }

  lemma LargePower(n: nat)
    requires n >= 127
    ensures Pow2(n) >= HALFM
  {
    Pow2Words();
    Pow2Sum(64, 63);
    Pow2Sum(127, n - 127);
    Scale(1, Pow2(n - 127), HALFM);
  }

  /** A word with an unset bit n leaves room for it. */
  lemma LowFits(x: U64, n: nat)
    requires n < 64 && x / Pow2(n) % 2 == 0
    ensures x + Pow2(n) < B && ToU(x + Pow2(n)) == x + Pow2(n)
  {
    var P, Q := Pow2(n), Pow2(64 - n);
    Pow2Split(n);
    QuotientBound(x, P, Q);
    EvenPower(64 - n);
    var q, r := Parts(x, P);
    DivMod(x, P);
    DivUnique(x, P, q, r);
    Room(q, Q, r, P);
    DivUnique(x + P, B, 0, x + P);
  }

  lemma Room(q: int, Q: int, r: int, P: int)
    requires q % 2 == 0 && Q % 2 == 0 && q < Q && 0 <= r < P && P * Q == B
    ensures q * P + r + P < B
  {
    Scale(q + 2, Q, P);
    assert (q + 2) * P == q * P + 2 * P;
  }
}
