/** 128-bit integer objects: compound assignment, division and text, with operands that may alias. */
module Int128s {
  import opened WordBits
  import opened Int128Words
  import opened Int128Division

  /** q and r are quotient and remainder of a by b, rounding toward zero. */
  predicate IsTruncated(a: int, b: int, q: int, r: int) {
    && a == q * b + r && -Abs(b) < r < Abs(b) && (r > 0 ==> a > 0) && (r < 0 ==> a < 0)
  }

  function Abs(v: int): int { if v < 0 then -v else v }

  // ------------------------------------------------------------ multiplication

  /** The sum that shift-add multiplication has formed after n bits of b. */
  function PartialProduct(a: int, b: int, n: nat): int {
    if n == 0 then 0
    else PartialProduct(a, b, n - 1) + if ShiftDown(b, n - 1) % 2 == 1 then ShiftUp(a, n - 1) else 0
  }

  lemma {:induction false} PartialProductIs(a: int, b: int, n: nat)
    ensures PartialProduct(a, b, n) == a * (b % Pow2(n))
  {
    if n == 0 {
      DivUnique(b, 1, b, 0);
    } else {
      var p := Pow2(n - 1);
      PartialProductIs(a, b, n - 1);
      ShiftDownIs(b, n - 1);
      ShiftUpIs(a, n - 1);
      var t, low := Parts(b, p);
      DivUnique(b, p, t, low);
      var h, bit := Parts(t, 2);
      TwoDigits(h, bit, low, p);
      DivUnique(b, 2 * p, h, bit * p + low);
      AddProduct(a, bit, p, low);
    }
  }

  lemma AddProduct(a: int, bit: int, p: int, low: int)
    requires 0 <= bit < 2
    ensures a * (bit * p + low) == a * low + (if bit == 1 then a * p else 0)
  {
    if bit == 1 { Distribute(p, -low, a); }
  }

  lemma WrapSum(v: int, w: int)
    ensures Wrap(Wrap(v) + Wrap(w)) == Wrap(v + w)
  {
    var j := WrapShift(v);
    var k := WrapShift(w);
    WrapCongruent(Wrap(v) + Wrap(w), v + w, j + k);
  }

  /** After all 128 bits the product is complete up to multiples of 2^128. */
  lemma MulEnd(a: int, b: int)
    ensures Wrap(PartialProduct(a, b, 128)) == Wrap(a * b)
  {
    Pow2Words();
    PartialProductIs(a, b, 128);
    var k, r := Parts(b, M);
    ProductParts(a, k, r);
    WrapCongruent(a * r, a * b, -(a * k));
  }

  lemma ProductParts(a: int, k: int, r: int)
    ensures a * (k * M + r) == a * r + (a * k) * M
  {
  }

  method ShlBy(x: I128, n: nat) returns (r: I128)
    ensures Val(r) == Wrap(ShiftUp(Val(x), n))
  {
    ShlCorrect(x, n);
    r := Shl(x, n);
  }

  method ShrOne(x: I128) returns (r: I128)
    ensures Val(r) == Val(x) / 2
  {
    ShrCorrect(x, 1);
    assert ShiftDown(Val(x), 0) == Val(x);
    r := Shr(x, 1);
  }

  // ------------------------------------------------------------ division of magnitudes

  /** Brings down bits of dd until the remainder is not less than ds; b is then the last bit used. */
  method FirstBits(dd: I128, ds: I128) returns (r: I128, b: U32)
    requires 0 < Val(ds) <= Val(dd)
    ensures b < 127 && Val(r) == ShiftDown(Val(dd), b) && Val(ds) <= Val(r) < 2 * Val(ds)
  {
    r := ZERO;
    b := 127;
    ghost var p: nat := 128;
    Pow2Words();
    ShiftGone(Val(dd), 128, 128);
    LessSigns(r, ds);
    while Less(r, ds)
      invariant Counting(dd, ds, r, b, p)
      decreases p
    {
      FirstStep(dd, ds, r, b, p);
      r := BroughtDown(r, dd, b);
      b := Dec(b);
      p := p - 1;
    }
    LessSigns(r, ds);
    b := Inc(b);
    BelowTop(Val(dd), p);
  }

  /** The remaining bits, highest first. */
  method RestBits(dd: I128, ds: I128, r0: I128, b0: U32) returns (q: I128, r: I128)
    requires 0 < Val(ds) <= Val(dd)
    requires b0 < 127 && Val(r0) == ShiftDown(Val(dd), b0) && Val(ds) <= Val(r0) < 2 * Val(ds)
    ensures Val(dd) == Val(q) * Val(ds) + Val(r) && 0 <= Val(r) < Val(ds) && 0 <= Val(q) && 0 <= Val(q) * Val(ds)
  {
    var b := b0;
    q, r := ZERO, r0;
    ghost var k := 0;
    while true
      invariant b < 127 && Partial(Val(dd), Val(ds), b, Val(q), Val(r), k)
      decreases b, Val(r)
    {
      LessSigns(r, ds);
      if Less(r, ds) {
        if b == 0 { break; }
        b := Dec(b);
        NextBit(dd, ds, q, r, b, k);
        r := BroughtDown(r, dd, b);
        k := 2 * k;
      } else {
        TakeAway(dd, ds, q, r, b, k);
        q, r := SetBit(q, b), Sub(r, ds);
        k := k + 1;
      }
    }
    assert Pow2(0) == 1 && ShiftDown(Val(dd), 0) == Val(dd);
    PartialBounds(Val(dd), Val(ds), b, Val(q), Val(r), k);
    Scale(0, Val(q), Val(ds));
  }

  // ------------------------------------------------------------ objects

  class Int128 {
    var lo: U64
    var hi: S64

    function Get(): I128
      reads this
    {
      I128(lo, hi)
    }

    constructor (v: I128)
      ensures Get() == v
    {
      lo, hi := v.lo, v.hi;
    }

    method AddAssign(b: Int128)
      modifies this
      ensures Val(Get()) == Wrap(old(Val(Get())) + old(Val(b.Get())))
    {
      AddCorrect(Get(), b.Get());
      var oldLo := lo;
      lo := ToU(lo + b.lo);
      hi := ToS(hi + b.hi);
      if lo < oldLo {
        hi := ToS(hi + 1);
      }
    }

    method SubAssign(b: Int128)
      modifies this
      ensures Val(Get()) == Wrap(old(Val(Get())) - old(Val(b.Get())))
    {
      SubCorrect(Get(), b.Get());
      AddCorrect(Get(), Neg(b.Get()));
      var t := new Int128(Neg(b.Get()));
      AddAssign(t);
    }

    /** Shift-add multiplication; b may be this object. */
    method MulAssign(b: Int128)
      modifies this
      ensures Val(Get()) == Wrap(old(Val(Get())) * old(Val(b.Get())))
    {
      ghost var va, vb := Val(Get()), Val(b.Get());
      if b.Get() == ZERO {
        WrapUnique(0, 0, 0);
        lo, hi := 0, 0;
        return;
      }
      if b.Get() == I128(1, 0) {
        WrapUnique(va, va, 0);
        return;
      }
      var a, t := Get(), b.Get();
      lo, hi := 0, 0;
      WrapUnique(0, 0, 0);
      assert ShiftDown(vb, 0) == vb;
      for i := 0 to 128
        invariant Val(a) == va && Val(t) == ShiftDown(vb, i) && Val(Get()) == Wrap(PartialProduct(va, vb, i))
      {
        LowBit(t);
        if BitAnd(t.lo, 1) != 0 {
          var shifted := ShlBy(a, i);
          var s := new Int128(shifted);
          WrapSum(PartialProduct(va, vb, i), ShiftUp(va, i));
          AddAssign(s);
        }
        t := ShrOne(t);
      }
      MulEnd(va, vb);
    }

    /** Division; the remainder object may be this one or the divisor. Without a divisor nothing is done.
        The smallest value has no magnitude: as a dividend it is returned as the remainder. */
    method Div(divisor: Int128, remainder: Int128) returns (ok: bool, q: I128)
      requires divisor.Get() != MIN
      modifies remainder
      ensures ok <==> old(divisor.Get()) != ZERO
      ensures !ok ==> remainder.Get() == old(remainder.Get())
      ensures ok ==> Divided(old(Get()), old(divisor.Get()), q, remainder.Get())
    {
      var r;
      ok, q, r := Divide(Get(), divisor.Get());
      if ok {
        remainder.lo, remainder.hi := r.lo, r.hi;
      }
    }

    /** operator /=, with a remainder that is dropped. */
    method DivAssign(b: Int128) returns (ok: bool)
      requires b.Get() != MIN
      modifies this
      ensures ok <==> old(b.Get()) != ZERO
      ensures ok ==> exists r :: Divided(old(Get()), old(b.Get()), Get(), r)
    {
      var dummy := new Int128(ZERO);
      var q;
      ok, q := Div(b, dummy);
      if ok {
        ghost var r := dummy.Get();
        lo, hi := q.lo, q.hi;
        assert Divided(old(Get()), old(b.Get()), Get(), r);
      }
    }

    /** operator %=: the remainder is written over the dividend, which may also be the divisor. */
    method ModAssign(b: Int128) returns (ok: bool)
      requires b.Get() != MIN
      modifies this
      ensures ok <==> old(b.Get()) != ZERO
      ensures ok ==> exists q :: Divided(old(Get()), old(b.Get()), q, Get())
    {
      var q;
      ok, q := Div(b, this);
    }
  }

  /** What division returns. */
  predicate Divided(x: I128, y: I128, q: I128, r: I128) {
    if x == MIN then q == ZERO && r == MIN else IsTruncated(Val(x), Val(y), Val(q), Val(r))
  }

  /** The quotient and remainder are right exactly if the dividend is not the smallest value. */
  lemma DividedExactly(x: I128, y: I128, q: I128, r: I128)
    requires Divided(x, y, q, r) && y != ZERO && y != MIN
    ensures IsTruncated(Val(x), Val(y), Val(q), Val(r)) <==> x != MIN
  {
  }

  method Divide(x: I128, y: I128) returns (ok: bool, q: I128, r: I128)
    requires y != MIN
    ensures ok <==> y != ZERO
    ensures ok ==> Divided(x, y, q, r)
  {
    if y == ZERO { return false, ZERO, ZERO; }
    ok := true;
    LessSigns(x, ZERO);
    LessSigns(y, ZERO);
    NegCorrect(x);
    NegCorrect(y);
    var ds := if Less(y, ZERO) then Neg(y) else y;
    var dd := if Less(x, ZERO) then Neg(x) else x;
    SmallDividend(dd, ds, x);
    if Less(dd, ds) {
      return true, ZERO, x;
    }
    var b;
    r, b := FirstBits(dd, ds);
    q, r := RestBits(dd, ds, r, b);
    ghost var q0, r0 := Val(q), Val(r);
    NegCorrect(q);
    NegCorrect(r);
    if Less(y, ZERO) != Less(x, ZERO) {
      q := Neg(q);
    }
    if Less(x, ZERO) {
      r := Neg(r);
    }
    if x != MIN {
      SignedProduct(q0, Val(y), Val(ds), Val(x) < 0);
      ghost var p := q0 * Val(ds);
      SignedDivision(Val(x), Val(y), r0, p, if Val(x) < 0 then -p else p, Val(q), Val(r));
    }
  }

  lemma LowBit(t: I128)
    ensures (BitAnd(t.lo, 1) != 0) == (Val(t) % 2 == 1)
  {
    Parity(Val(t), t.hi * HALF, t.lo);
    AndOne(t.lo);
  }

  /** A dividend of smaller magnitude, or the smallest value, is its own remainder. */
  lemma SmallDividend(dd: I128, ds: I128, x: I128)
    requires Val(ds) > 0 && dd == (if Val(x) < 0 then Neg(x) else x)
    ensures x != MIN ==> Val(dd) == Abs(Val(x)) && (Less(dd, ds) <==> Val(dd) < Val(ds))
    ensures x == MIN ==> Less(dd, ds)
    ensures 0 <= Val(dd) ==> (Less(dd, ds) <==> Val(dd) < Val(ds))
  {
    NegCorrect(x);
    if 0 <= Val(dd) { LessSigns(dd, ds); }
  }

  /** Signs of quotient and remainder: p is the product of the magnitudes, m that of the signed values. */
  lemma SignedDivision(a: int, b: int, r: int, p: int, m: int, q': int, r': int)
    requires b != 0 && Abs(a) == p + r && 0 <= r < Abs(b) && p >= 0
    requires m == (if a < 0 then -p else p) && m == q' * b && r' == (if a < 0 then -r else r)
    ensures IsTruncated(a, b, q', r')
  {
    TruncatedIs(a, b, q', r', m);
  }

  lemma SignedProduct(q: int, b: int, d: int, neg: bool)
    requires d == (if b < 0 then -b else b)
    ensures (if neg != (b < 0) then -q else q) * b == (if neg then -(q * d) else q * d)
  {
    if neg != (b < 0) {
      assert (-q) * b == -(q * b);
    }
    if b < 0 {
      assert q * d == -(q * b) by { assert q * (-b) == -(q * b); }
    }
  }

  lemma TruncatedIs(a: int, b: int, q: int, r: int, p: int)
    requires p == q * b && a == p + r && -Abs(b) < r < Abs(b) && (r > 0 ==> a > 0) && (r < 0 ==> a < 0)
    ensures IsTruncated(a, b, q, r)
  {
  }

}
