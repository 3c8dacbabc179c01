/** Bit operations on unsigned words, as arithmetic. */
module WordBits {

  function Pow2(n: nat): (p: nat)
    ensures p > 0
  {
    if n == 0 then 1 else 2 * Pow2(n - 1)
  }

  lemma {:induction false} Pow2Sum(m: nat, n: nat)
    ensures Pow2(m + n) == Pow2(m) * Pow2(n)
  {
    if m > 0 {
      Pow2Sum(m - 1, n);
      assert Pow2(m + n) == 2 * Pow2(m - 1 + n);
      Assoc(2, Pow2(m - 1), Pow2(n));
    }
  }

  lemma Assoc(a: int, b: int, c: int)
    ensures a * b * c == a * (b * c)
  {
  }

  lemma Pow2Words()
    ensures Pow2(8) == 0x100 && Pow2(16) == 0x1_0000 && Pow2(32) == 0x1_0000_0000
    ensures Pow2(64) == 0x1_0000_0000_0000_0000 && Pow2(128) == 0x1_0000_0000_0000_0000_0000_0000_0000_0000
    ensures Pow2(63) == 0x8000_0000_0000_0000
  {
    assert Pow2(4) == 16;
    assert Pow2(8) == 0x100 by { assert Pow2(6) == 64; }
    Pow2Sum(8, 8);
    Pow2Sum(16, 16);
    Pow2Sum(32, 32);
    Pow2Sum(64, 64);
  }

  /** Quotient and remainder are determined. */
  lemma DivUnique(v: int, d: int, q: int, r: int)
    requires d > 0 && v == q * d + r && 0 <= r < d
    ensures v / d == q && v % d == r
  {
    var k := v / d - q;
    assert v == (v / d) * d + v % d;
    assert k * d == r - v % d by { Distribute(v / d, q, d); }
    if k >= 1 { Scale(1, k, d); } else if k <= -1 { Scale(k, -1, d); }
  }

  lemma Distribute(a: int, b: int, d: int)
    ensures (a - b) * d == a * d - b * d
  {
  }

  lemma Scale(a: int, b: int, d: int)
    requires a <= b && d >= 0
    ensures a * d <= b * d
  {
  }

  lemma DivMod(v: int, d: int)
    requires d > 0
    ensures v == (v / d) * d + v % d && 0 <= v % d < d
  {
  }

  /** v >> n, rounding down. */
  function ShiftDown(v: int, n: nat): (q: int)
    ensures v >= 0 ==> 0 <= q <= v
  {
    if n == 0 then v else ShiftDown(v, n - 1) / 2
  }

  /** v << n. */
  function ShiftUp(v: int, n: nat): (p: int)
    ensures v >= 0 ==> p >= v
  {
    if n == 0 then v else 2 * ShiftUp(v, n - 1)
  }

  lemma DivSign(v: int, d: int)
    requires d > 0
    ensures v / d < 0 <==> v < 0
  {
    DivMod(v, d);
    if v / d >= 0 { Scale(0, v / d, d); } else { Scale(v / d, -1, d); }
  }

  lemma {:induction false} ShiftDownIs(v: int, n: nat)
    ensures ShiftDown(v, n) == v / Pow2(n)
  {
    if n == 0 {
      DivUnique(v, 1, v, 0);
    } else {
      var p := Pow2(n - 1);
      ShiftDownIs(v, n - 1);
      var q, r := Parts(v, p);
      DivUnique(v, p, q, r);
      var h, b := Parts(q, 2);
      DivUnique(q, 2, h, b);
      TwoDigits(h, b, r, p);
      DivUnique(v, 2 * p, h, b * p + r);
    }
  }

  lemma {:induction false} ShiftUpIs(v: int, n: nat)
    ensures ShiftUp(v, n) == v * Pow2(n)
  {
    if n > 0 {
      ShiftUpIs(v, n - 1);
      assert v * (2 * Pow2(n - 1)) == 2 * (v * Pow2(n - 1));
    }
  }

  lemma Parts(v: int, d: int) returns (a: int, b: int)
    requires d > 0
    ensures v == a * d + b && b == v % d && 0 <= b < d
  {
    DivMod(v, d);
    a, b := v / d, v % d;
  }

  lemma TwoDigits(h: int, bit: int, low: int, p: int)
    requires 0 <= bit < 2 && 0 <= low < p
    ensures (h * 2 + bit) * p + low == h * (2 * p) + (bit * p + low) && 0 <= bit * p + low < 2 * p
  {
    assert (h * 2 + bit) * p == h * (2 * p) + bit * p;
    Scale(bit, 1, p);
    Scale(0, bit, p);
  }

  // ------------------------------------------------------------ and, or

  function BitAnd(a: nat, b: nat): nat {
    if a == 0 || b == 0 then 0 else 2 * BitAnd(a / 2, b / 2) + (if a % 2 == 1 && b % 2 == 1 then 1 else 0)
  }

  function BitOr(a: nat, b: nat): nat {
    if a == 0 && b == 0 then 0 else 2 * BitOr(a / 2, b / 2) + (if a % 2 == 1 || b % 2 == 1 then 1 else 0)
  }

  /** Division by an even number, one bit at a time. */
  lemma HalfMod(x: nat, p: nat)
    requires p > 0
    ensures x % (2 * p) == 2 * (x / 2 % p) + x % 2 && x / (2 * p) == x / 2 / p
  {
    DivMod(x / 2, p);
    assert x == (x / 2 / p) * (2 * p) + (2 * (x / 2 % p) + x % 2) by { Assoc(2, x / 2 / p, p); }
    DivUnique(x, 2 * p, x / 2 / p, 2 * (x / 2 % p) + x % 2);
  }

  lemma AndStep(x: nat, y: nat)
    ensures BitAnd(x, y) == 2 * BitAnd(x / 2, y / 2) + (if x % 2 == 1 && y % 2 == 1 then 1 else 0)
  {
    if x == 0 || y == 0 { assert BitAnd(x / 2, y / 2) == 0; }
  }

  lemma OrStep(x: nat, y: nat)
    ensures BitOr(x, y) == 2 * BitOr(x / 2, y / 2) + (if x % 2 == 1 || y % 2 == 1 then 1 else 0)
  {
    if x == 0 && y == 0 { assert BitOr(x / 2, y / 2) == 0; }
  }

  lemma Halves(a: nat)
    ensures (2 * a) / 2 == a && (2 * a) % 2 == 0 && (2 * a + 1) / 2 == a && (2 * a + 1) % 2 == 1
  {
  }

  /** x & (2^n - 1) keeps the low n bits. */
  lemma {:induction false} AndLowMask(x: nat, n: nat)
    ensures BitAnd(x, Pow2(n) - 1) == x % Pow2(n)
    decreases n
  {
    if n == 0 {
      assert Pow2(0) == 1;
    } else {
      var p := Pow2(n - 1);
      AndLowMask(x / 2, n - 1);
      AndStep(x, 2 * p - 1);
      Halves(p - 1);
      HalfMod(x, p);
    }
  }

  /** x & ~(2^n - 1), within m more bits, drops the low n bits. */
  lemma {:induction false} AndHighMask(x: nat, n: nat, m: nat)
    requires x < Pow2(n + m)
    ensures Pow2(n + m) >= Pow2(n) && BitAnd(x, Pow2(n + m) - Pow2(n)) == x - x % Pow2(n)
    decreases n
  {
    if n == 0 {
      assert Pow2(0) == 1;
      AndLowMask(x, m);
      DivUnique(x, Pow2(m), 0, x);
    } else {
      var p, w := Pow2(n - 1), Pow2(n - 1 + m);
      AndHighMask(x / 2, n - 1, m);
      assert Pow2(n + m) == 2 * w && Pow2(n) == 2 * p;
      AndStep(x, 2 * (w - p));
      Halves(w - p);
      HalfMod(x, p);
    }
  }

  /** Or of words without common bits adds them. */
  lemma {:induction false} OrDisjoint(h: nat, l: nat, n: nat)
    requires l < Pow2(n)
    ensures BitOr(ShiftUp(h, n), l) == ShiftUp(h, n) + l
    decreases n
  {
    if n == 0 {
      OrZero(h);
    } else {
      OrDisjoint(h, l / 2, n - 1);
      OrStep(ShiftUp(h, n), l);
      Halves(ShiftUp(h, n - 1));
    }
  }

  lemma AndOne(x: nat)
    ensures BitAnd(x, 1) == x % 2
  {
    assert Pow2(0) == 1 && Pow2(1) == 2;
    AndLowMask(x, 1);
  }

  lemma {:induction false} OrZero(h: nat)
    ensures BitOr(h, 0) == h && BitOr(0, h) == h
  {
    if h > 0 { OrZero(h / 2); }
  }

  lemma {:induction false} OrCommutes(a: nat, b: nat)
    ensures BitOr(a, b) == BitOr(b, a)
  {
    if a > 0 || b > 0 { OrCommutes(a / 2, b / 2); }
  }

  /** Bit n of x. */
  function Bit(x: nat, n: nat): nat { x / Pow2(n) % 2 }

  /** x & (1 << n) is not zero exactly if bit n is set. */
  lemma {:induction false} AndBit(x: nat, n: nat)
    ensures BitAnd(x, Pow2(n)) == Bit(x, n) * Pow2(n)
    decreases n
  {
    if n == 0 {
      AndOne(x);
      DivUnique(x, 1, x, 0);
    } else {
      var p := Pow2(n - 1);
      AndBit(x / 2, n - 1);
      HalfBit(x, n);
      AndStep(x, 2 * p);
      Halves(p);
      Assoc(2, Bit(x, n), p);
    }
  }

  lemma HalfBit(x: nat, n: nat)
    requires n > 0
    ensures Bit(x, n) == Bit(x / 2, n - 1) && x / Pow2(n) == x / 2 / Pow2(n - 1)
  {
    HalfMod(x, Pow2(n - 1));
  }

  /** x | (1 << n) adds 2^n if bit n was not set. */
  lemma {:induction false} OrBit(x: nat, n: nat)
    ensures BitOr(x, Pow2(n)) == if Bit(x, n) == 0 then x + Pow2(n) else x
    decreases n
  {
    if n == 0 {
      assert Pow2(0) == 1;
      OrZero(x / 2);
    } else {
      HalfBit(x, n);
      OrBit(x / 2, n - 1);
    }
  }

  /** x & ~(1 << n), in m bits, subtracts 2^n if bit n was set. */
  lemma {:induction false} AndAllBut(x: nat, n: nat, m: nat)
    requires n < m && x < Pow2(m)
    ensures Pow2(n) < Pow2(m) && BitAnd(x, Pow2(m) - 1 - Pow2(n)) == if Bit(x, n) == 0 then x else x - Pow2(n)
    decreases n
  {
    var w := Pow2(m - 1);
    if n == 0 {
      assert Pow2(0) == 1;
      AndLowMask(x / 2, m - 1);
      DivUnique(x / 2, w, 0, x / 2);
      AndStep(x, 2 * (w - 1));
      Halves(w - 1);
      DivUnique(x, 1, x, 0);
    } else {
      var p := Pow2(n - 1);
      AndAllBut(x / 2, n - 1, m - 1);
      AndStep(x, 2 * (w - 1 - p) + 1);
      Halves(w - 1 - p);
      HalfBit(x, n);
    }
  }
}
