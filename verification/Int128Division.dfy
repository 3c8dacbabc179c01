/** The two loops of 128-bit division: what one round does to the magnitudes, and when the loops end. */
module Int128Division {
  import opened Wrappers
  import opened WordBits
  import opened Int128Words

  type U32 = x: int | 0 <= x < 0x1_0000_0000

  /** The bit counter wraps below zero. */
  function Dec(b: U32): U32 { if b == 0 then 0xFFFF_FFFF else b - 1 }

  function Inc(b: U32): U32 { if b == 0xFFFF_FFFF then 0 else b + 1 }

  /** r <<= 1; if (dd.bit(b)) r.lo |= 1; */
  function BroughtDown(r: I128, dd: I128, b: nat): I128 {
    var t := Shl(r, 1);
    if TestBit(dd, b) then I128(ToU(BitOr(t.lo, 1)), t.hi) else t
  }

  // ------------------------------------------------------------ shifted values

  lemma ShiftBound(v: int, p: nat)
    requires v >= 0
    ensures ShiftDown(v, p) * Pow2(p) <= v
  {
    ShiftDownIs(v, p);
    DivMod(v, Pow2(p));
  }

  lemma {:induction false} ShiftGone(v: int, n: nat, k: nat)
    requires 0 <= v < Pow2(n) && n <= k
    ensures ShiftDown(v, k) == 0
  {
    if k > n {
      ShiftGone(v, n, k - 1);
    } else {
      ShiftDownIs(v, n);
      DivUnique(v, Pow2(n), 0, v);
    }
  }

  lemma DoubleFits(r: int)
    requires 0 <= r && 2 * r + 1 < HALFM
    ensures Wrap(ShiftUp(r, 1)) == 2 * r
  {
    assert ShiftUp(r, 0) == r;
    WrapUnique(2 * r, 2 * r, 0);
  }

  lemma OrOne(s: I128)
    requires Val(s) % 2 == 0
    ensures Val(I128(ToU(BitOr(s.lo, 1)), s.hi)) == Val(s) + 1
  {
    EvenLow(s);
    OrLast(s.lo);
    DivUnique(s.lo + 1, B, 0, s.lo + 1);
  }

  lemma EvenLow(s: I128)
    requires Val(s) % 2 == 0
    ensures s.lo % 2 == 0 && s.lo + 1 < B
  {
    Parity(Val(s), s.hi * HALF, s.lo);
  }

  lemma Parity(v: int, h: int, l: int)
    requires v == 2 * h + l
    ensures v % 2 == l % 2
  {
  }

  lemma OrLast(x: nat)
    requires x % 2 == 0
    ensures BitOr(x, 1) == x + 1
  {
    OrStep(x, 1);
    OrZero(x / 2);
  }

  /** A bit position above which something is left is below 127. */
  lemma BelowTop(v: int, p: nat)
    requires 0 <= v < HALFM && ShiftDown(v, p) > 0
    ensures p < 127
  {
    if p >= 127 {
      LargePower(127);
      ShiftGone(v, 127, p);
    }
  }

  lemma ShiftedOnce(r: I128)
    requires 0 <= Val(r) && 2 * Val(r) + 1 < HALFM
    ensures Val(Shl(r, 1)) == 2 * Val(r)
  {
    ShlCorrect(r, 1);
    DoubleFits(Val(r));
  }

  lemma BringDown(r: I128, dd: I128, b: nat)
    requires b < 128 && 0 <= Val(r) && 2 * Val(r) + 1 < HALFM
    ensures Val(BroughtDown(r, dd, b)) == 2 * Val(r) + ShiftDown(Val(dd), b) % 2
  {
    ShiftedOnce(r);
    TestBitCorrect(dd, b);
    Doubling(Val(Shl(r, 1)), Val(r));
    if TestBit(dd, b) { OrOne(Shl(r, 1)); }
  }

  lemma Doubling(w: int, v: int)
    requires w == 2 * v
    ensures w % 2 == 0
  {
  }

  // ------------------------------------------------------------ one round of each loop

  /** The first loop has brought down the bits of dd above p. */
  predicate Counting(dd: I128, ds: I128, r: I128, b: U32, p: nat) {
    p <= 128 && b == (if p == 0 then 0xFFFF_FFFF else p - 1) && Val(r) == ShiftDown(Val(dd), p)
        && 0 <= Val(r) < 2 * Val(ds)
  }

  lemma FirstStep(dd: I128, ds: I128, r: I128, b: U32, p: nat)
    requires 0 < Val(ds) <= Val(dd) && Counting(dd, ds, r, b, p) && Less(r, ds)
    ensures p > 0 && Counting(dd, ds, BroughtDown(r, dd, b), Dec(b), p - 1)
  {
    LessSigns(r, ds);
    assert ShiftDown(Val(dd), 0) == Val(dd);
    ShiftBound(Val(dd), p - 1);
    ShiftBelow(Val(dd), p - 1);
    BringDown(r, dd, b);
  }

  lemma ShiftBelow(v: int, p: nat)
    requires v >= 0
    ensures 0 <= ShiftDown(v, p) <= v
  {
    ShiftBound(v, p);
    ShiftDownIs(v, p);
    Scale(1, Pow2(p), ShiftDown(v, p));
  }

  /** The digits of the quotient found so far, above bit b, and the remainder of the dividend's top bits. */
  predicate Partial(dd: int, ds: int, b: nat, q: int, r: int, k: int) {
    && q == k * Pow2(b) && k >= 0 && ShiftDown(dd, b) == k * ds + r && 0 <= r < 2 * ds && (r >= ds ==> k % 2 == 0)
  }

  lemma PartialBounds(dd: int, ds: int, b: nat, q: int, r: int, k: int)
    requires Partial(dd, ds, b, q, r, k) && ds > 0 && 0 <= dd < HALFM
    ensures 0 <= q <= dd && r <= ShiftDown(dd, b) <= dd && ShiftDown(q, b) == k
    ensures r >= ds ==> q + Pow2(b) <= dd && b < 127
  {
    var P := Pow2(b);
    ShiftBound(dd, b);
    ShiftDownIs(q, b);
    PartialLimits(ShiftDown(dd, b), ds, P, r, k);
    DivUnique(q, P, k, 0);
    if r >= ds { BelowTop(dd, b); }
  }

  lemma PartialLimits(t: int, ds: int, P: int, r: int, k: int)
    requires t == k * ds + r && k >= 0 && r >= 0 && ds > 0 && P > 0
    ensures k <= t && r <= t && 0 <= k * P <= t * P
    ensures r >= ds ==> k * P + P <= t * P
  {
    Scale(1, ds, k);
    Scale(0, k, P);
    Scale(k, t, P);
    if r >= ds {
      Scale(k + 1, t, P);
      assert (k + 1) * P == k * P + P;
    }
  }

  lemma SubtractPartial(dd: int, ds: int, b: nat, q: int, r: int, k: int)
    requires Partial(dd, ds, b, q, r, k) && r >= ds > 0
    ensures Partial(dd, ds, b, q + Pow2(b), r - ds, k + 1)
  {
    assert (k + 1) * Pow2(b) == k * Pow2(b) + Pow2(b);
    assert (k + 1) * ds == k * ds + ds;
  }

  lemma ShiftPartial(dd: int, ds: int, b: nat, q: int, r: int, k: int)
    requires Partial(dd, ds, b + 1, q, r, k) && r < ds
    requires dd >= 0
    ensures Partial(dd, ds, b, q, 2 * r + ShiftDown(dd, b) % 2, 2 * k) && 2 * r + 1 <= dd + 1
  {
    Scale(0, k, ds);
    DoubledSum(ShiftDown(dd, b + 1), ds, q, r, k, Pow2(b), ShiftDown(dd, b) % 2);
  }

  lemma DoubledSum(t: int, ds: int, q: int, r: int, k: int, P: int, bit: int)
    requires t == k * ds + r && q == k * (2 * P)
    ensures 2 * t + bit == (2 * k) * ds + (2 * r + bit) && q == (2 * k) * P
  {
    Doubled(k, P);
    Doubled(k, ds);
  }

  lemma Doubled(k: int, p: int)
    ensures k * (2 * p) == (2 * k) * p && 2 * (k * p) == (2 * k) * p
  {
  }

  /** The remainder is less than the divisor: the next bit, b, is brought down. */
  lemma NextBit(dd: I128, ds: I128, q: I128, r: I128, b: nat, k: int)
    requires 0 < Val(ds) <= Val(dd) && b < 126 && Val(r) < Val(ds)
    requires Partial(Val(dd), Val(ds), b + 1, Val(q), Val(r), k)
    ensures Partial(Val(dd), Val(ds), b, Val(q), Val(BroughtDown(r, dd, b)), 2 * k)
  {
    PartialBounds(Val(dd), Val(ds), b + 1, Val(q), Val(r), k);
    ShiftPartial(Val(dd), Val(ds), b, Val(q), Val(r), k);
    PartialBounds(Val(dd), Val(ds), b, Val(q), 2 * Val(r) + ShiftDown(Val(dd), b) % 2, 2 * k);
    BringDown(r, dd, b);
  }

  /** r -= ds; q.bit(b, true); */
  lemma TakeAway(dd: I128, ds: I128, q: I128, r: I128, b: nat, k: int)
    requires 0 < Val(ds) <= Val(dd) && Val(ds) <= Val(r)
    requires Partial(Val(dd), Val(ds), b, Val(q), Val(r), k)
    ensures Val(Sub(r, ds)) == Val(r) - Val(ds)
    ensures Partial(Val(dd), Val(ds), b, Val(SetBit(q, b)), Val(Sub(r, ds)), k + 1)
  {
    PartialBounds(Val(dd), Val(ds), b, Val(q), Val(r), k);
    SubtractPartial(Val(dd), Val(ds), b, Val(q), Val(r), k);
    SubCorrect(r, ds);
    WrapUnique(Val(r) - Val(ds), Val(r) - Val(ds), 0);
    SetBitCorrect(q, b);
    WrapUnique(Val(q) + Pow2(b), Val(q) + Pow2(b), 0);
  }

  // ------------------------------------------------------------ when the loops end

  /** In the first or the second loop, about to test its condition. */
  datatype Round = Round(first: bool, q: I128, r: I128, b: U32)

  const START := Round(true, ZERO, ZERO, 127)

  /** One test with what follows it; None is the way out of the second loop. */
  function Next(dd: I128, ds: I128, s: Round): Option<Round> {
    if s.first then
      if Less(s.r, ds) then Some(Round(true, s.q, BroughtDown(s.r, dd, s.b), Dec(s.b)))
      else Some(Round(false, s.q, s.r, Inc(s.b)))
    else if Less(s.r, ds) then
      if s.b == 0 then None else Some(Round(false, s.q, BroughtDown(s.r, dd, Dec(s.b)), Dec(s.b)))
    else Some(Round(false, SetBit(s.q, s.b), Sub(s.r, ds), s.b))
  }

  /** The state after n rounds. */
  function After(dd: I128, ds: I128, s: Round, n: nat): Option<Round>
    decreases n
  {
    if n == 0 then Some(s)
    else match Next(dd, ds, s) case None => None case Some(t) => After(dd, ds, t, n - 1)
  }

  function Magnitude(x: I128): I128 { if Less(x, ZERO) then Neg(x) else x }

  /** Division comes to its end: without the loops, or after finitely many rounds. */
  ghost predicate Ends(x: I128, y: I128) {
    var dd, ds := Magnitude(x), Magnitude(y);
    Less(dd, ds) || exists n: nat :: After(dd, ds, START, n).None?
  }

  lemma {:induction false} FirstEnds(dd: I128, ds: I128, s: Round, p: nat) returns (n: nat)
    requires 0 < Val(ds) <= Val(dd) && s.first && s.q == ZERO && Counting(dd, ds, s.r, s.b, p)
    ensures After(dd, ds, s, n).None?
    decreases p
  {
    LessSigns(s.r, ds);
    var t := Next(dd, ds, s).value;
    if Less(s.r, ds) {
      FirstStep(dd, ds, s.r, s.b, p);
      n := FirstEnds(dd, ds, t, p - 1);
    } else {
      BelowTop(Val(dd), p);
      assert Pow2(p) * 0 == 0;
      n := RestEnds(dd, ds, t, 0);
    }
    n := n + 1;
  }

  lemma {:induction false} RestEnds(dd: I128, ds: I128, s: Round, k: int) returns (n: nat)
    requires 0 < Val(ds) <= Val(dd) && !s.first && s.b < 127 && Partial(Val(dd), Val(ds), s.b, Val(s.q), Val(s.r), k)
    ensures After(dd, ds, s, n).None?
    decreases s.b, Val(s.r)
  {
    LessSigns(s.r, ds);
    if Less(s.r, ds) && s.b == 0 {
      n := 1;
    } else {
      var t := Next(dd, ds, s).value;
      if Less(s.r, ds) {
        NextBit(dd, ds, s.q, s.r, s.b - 1, k);
        n := RestEnds(dd, ds, t, 2 * k);
      } else {
        TakeAway(dd, ds, s.q, s.r, s.b, k);
        n := RestEnds(dd, ds, t, k + 1);
      }
      n := n + 1;
    }
  }

  /** The smallest value has no magnitude: no remainder is less than it, and subtracting it twice
      from zero gives zero again. */
  lemma MinCycles(dd: I128, q: I128)
    requires dd.hi >= 0 || dd == MIN
    ensures !Less(dd, MIN) && Next(dd, MIN, START) == Some(Round(false, ZERO, ZERO, 128))
    ensures Next(dd, MIN, Round(false, q, ZERO, 128)) == Some(Round(false, q, MIN, 128))
    ensures Next(dd, MIN, Round(false, q, MIN, 128)) == Some(Round(false, q, ZERO, 128))
  {
  }

  lemma {:induction false} NeverEnds(dd: I128, q: I128, r: I128, n: nat)
    requires dd.hi >= 0 || dd == MIN
    requires r == ZERO || r == MIN
    ensures After(dd, MIN, Round(false, q, r, 128), n).Some?
    decreases n
  {
    MinCycles(dd, q);
    if n > 0 { NeverEnds(dd, q, if r == ZERO then MIN else ZERO, n - 1); }
  }

  /** Division by anything but zero ends if and only if the divisor is not the smallest value. */
  lemma DivisionEnds(x: I128, y: I128)
    requires y != ZERO
    ensures Ends(x, y) <==> y != MIN
  {
    var dd, ds := Magnitude(x), Magnitude(y);
    Magnitudes(x);
    Magnitudes(y);
    if y == MIN {
      MinCycles(dd, ZERO);
      forall n: nat ensures After(dd, ds, START, n).Some? {
        if n > 0 { NeverEnds(dd, ZERO, ZERO, n - 1); }
      }
    } else if !Less(dd, ds) {
      Pow2Words();
      ShiftGone(Val(dd), 128, 128);
      var n := FirstEnds(dd, ds, START, 128);
    }
  }

  lemma Magnitudes(x: I128)
    ensures var d := Magnitude(x);
            if x == MIN then d == MIN else d.hi >= 0 && Val(d) == (if Val(x) < 0 then -Val(x) else Val(x))
  {
    LessSigns(x, ZERO);
    NegCorrect(x);
  }
}
