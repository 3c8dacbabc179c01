/** Fields of a given number of bits, written and read bit by bit with a moving mask. */
module BitFields {
  import opened WordBits
  import opened BitStrings

  // ------------------------------------------------------------ bits of a word

  lemma {:induction false} DownTwice(v: int, a: nat, b: nat)
    ensures ShiftDown(ShiftDown(v, a), b) == ShiftDown(v, a + b)
  {
    if b > 0 { DownTwice(v, a, b - 1); }
  }

  lemma {:induction false} BitIs(v: nat, n: nat, i: nat)
    requires i < n
    ensures ToBits(v, n)[i] <==> Bit(v, n - 1 - i) == 1
    decreases n
  {
    if i == n - 1 {
      assert Pow2(0) == 1;
      DivUnique(v, 1, v, 0);
    } else {
      BitIs(v / 2, n - 1, i);
      HalfBit(v, n - 1 - i);
    }
  }

  lemma MaskedBit(v: nat, n: nat, i: nat)
    requires i < n
    ensures BitAnd(v, Pow2(n - 1 - i)) != 0 <==> ToBits(v, n)[i]
    ensures ToBits(v, n)[..i + 1] == ToBits(v, n)[..i] + [ToBits(v, n)[i]]
  {
    BitIs(v, n, i);
    AndBit(v, n - 1 - i);
    NonzeroBit(Bit(v, n - 1 - i), Pow2(n - 1 - i));
  }

  lemma NonzeroBit(b: int, p: int)
    requires p > 0 && (b == 0 || b == 1)
    ensures b * p != 0 <==> b == 1
  {
  }

  lemma {:induction false} OneUp(n: nat)
    ensures ShiftUp(1, n) == Pow2(n) && ShiftUp(0, n) == 0
  {
    if n > 0 { OneUp(n - 1); }
  }

  lemma {:induction false} OrUp(a: nat, b: nat, k: nat)
    ensures BitOr(ShiftUp(a, k), ShiftUp(b, k)) == ShiftUp(BitOr(a, b), k)
  {
    if k > 0 {
      OrUp(a, b, k - 1);
      OrStep(ShiftUp(a, k), ShiftUp(b, k));
      Halves(ShiftUp(a, k - 1));
      Halves(ShiftUp(b, k - 1));
    }
  }

  lemma {:induction false} UpTwice(v: int, a: nat, b: nat)
    ensures ShiftUp(ShiftUp(v, a), b) == ShiftUp(v, a + b)
  {
    if b > 0 { UpTwice(v, a, b - 1); }
  }

  /** A digit of w bits joins those above it. */
  lemma NextDigit(acc: nat, d: nat, w: nat, k: nat)
    requires d < Pow2(w)
    ensures BitOr(ShiftUp(acc, w + k), ShiftUp(d, k)) == ShiftUp(ShiftUp(acc, w) + d, k)
  {
    UpTwice(acc, w, k);
    OrDisjoint(acc, d, w);
    OrUp(ShiftUp(acc, w), d, k);
  }

  /** A bit joins those above it. */
  lemma MaskedIn(acc: nat, bit: bool, n: nat, i: nat)
    requires i < n
    ensures var d := if bit then 1 else 0;
            (if bit then BitOr(ShiftUp(acc, n - i), Pow2(n - 1 - i)) else ShiftUp(acc, n - i))
                == ShiftUp(2 * acc + d, n - 1 - i)
  {
    var d := if bit then 1 else 0;
    assert Pow2(1) == 2 && ShiftUp(acc, 1) == 2 * acc by { assert ShiftUp(acc, 0) == acc; }
    NextDigit(acc, d, 1, n - 1 - i);
    OneUp(n - 1 - i);
    OrZero(ShiftUp(acc, n - i));
  }

  // ------------------------------------------------------------ the mask

  /** 1 << (n - 1), computed as an int of 32 bits and then widened: the sign fills the upper half. */
  function Mask(n: nat): nat
    requires 1 <= n <= 32
  {
    if n == 32 then 0xFFFF_FFFF_8000_0000 else Pow2(n - 1)
  }

  /** The bits that n rounds of writing find. */
  function Masked(value: nat, mask: nat, n: nat): (s: seq<bool>)
    ensures |s| == n
    decreases n
  {
    if n == 0 then [] else [BitAnd(value, mask) != 0] + Masked(value, mask / 2, n - 1)
  }

  lemma {:induction false} MaskedAt(value: nat, mask: nat, n: nat, i: nat)
    requires i < n
    ensures Masked(value, mask, n)[i] == (BitAnd(value, ShiftDown(mask, i)) != 0)
    decreases n
  {
    if i > 0 {
      MaskedAt(value, mask / 2, n - 1, i - 1);
      assert ShiftDown(mask, 1) == mask / 2 by { assert ShiftDown(mask, 0) == mask; }
      DownTwice(mask, 1, i - 1);
    }
  }

  lemma {:induction false} PowerDown(m: nat, i: nat)
    requires i <= m
    ensures ShiftDown(Pow2(m), i) == Pow2(m - i)
  {
    if i > 0 { PowerDown(m, i - 1); }
  }

  /** Up to 31 bits, a field is written as it is. */
  lemma NarrowField(value: nat, n: nat)
    requires 1 <= n <= 31
    ensures Masked(value, Mask(n), n) == ToBits(value, n)
  {
    forall i | 0 <= i < n ensures Masked(value, Mask(n), n)[i] == ToBits(value, n)[i] {
      MaskedAt(value, Mask(n), n, i);
      PowerDown(n - 1, i);
      MaskedBit(value, n, i);
    }
  }

  // ------------------------------------------------------------ reading

  /** The word that the bits of a field add up to. */
  function Ored(bits: seq<bool>, mask: nat): nat {
    if bits == [] then 0
    else
      var first := Ored(bits[..|bits| - 1], mask);
      if bits[|bits| - 1] then BitOr(first, ShiftDown(mask, |bits| - 1)) else first
  }

  lemma OredNext(bits: seq<bool>, p: nat, i: nat, mask: nat)
    requires p + i + 1 <= |bits|
    ensures var first := Ored(bits[p..p + i], mask);
            Ored(bits[p..p + i + 1], mask) == if bits[p + i] then BitOr(first, ShiftDown(mask, i)) else first
  {
    assert bits[p..p + i + 1][..i] == bits[p..p + i];
  }

  lemma {:induction false} OredNarrow(bits: seq<bool>, n: nat)
    requires 1 <= n && |bits| <= n
    ensures Ored(bits, Pow2(n - 1)) == ShiftUp(FromBits(bits), n - |bits|)
  {
    if bits == [] {
      OneUp(n);
    } else {
      var i := |bits| - 1;
      OredNarrow(bits[..i], n);
      PowerDown(n - 1, i);
      MaskedIn(FromBits(bits[..i]), bits[i], n, i);
    }
  }

  /** Up to 31 bits, a field is read as it is. */
  lemma NarrowRead(bits: seq<bool>)
    requires 1 <= |bits| <= 31
    ensures var value := Ored(bits, Mask(|bits|)); value < Pow2(|bits|) && ToBits(value, |bits|) == bits
  {
    OredNarrow(bits, |bits|);
    NotShifted(FromBits(bits));
    ToFrom(bits);
  }

  lemma NotShifted(v: nat)
    ensures ShiftUp(v, 0) == v
  {
  }

  // ------------------------------------------------------------ fields of 32 bits

  lemma {:induction false} WideMask(n: nat, i: nat)
    requires n == 32 && i < n
    ensures Pow2(64 - i) > Pow2(31 - i) && ShiftDown(Mask(n), i) == Pow2(64 - i) - Pow2(31 - i)
    decreases i
  {
    if i == 0 {
      Pow2Words();
      PowerStep(31);
    } else {
      WideMask(n, i - 1);
      PowerStep(64 - i);
      PowerStep(31 - i);
      Halves(Pow2(64 - i) - Pow2(31 - i));
    }
  }

  lemma PowerStep(n: nat)
    ensures Pow2(n + 1) == 2 * Pow2(n)
  {
  }

  lemma {:induction false} PowerUp(m: nat, n: nat)
    requires m <= n
    ensures Pow2(m) <= Pow2(n)
  {
    if m < n { PowerUp(m, n - 1); }
  }

  /** Every bit is written as set from the highest set bit on. */
  lemma WideBit(value: nat, n: nat, i: nat)
    requires n == 32 && value < Pow2(n) && i < n
    ensures Masked(value, Mask(n), n)[i] <==> value >= Pow2(31 - i)
  {
    MaskedAt(value, Mask(n), n, i);
    WideMask(n, i);
    HighAnd(value, n, i);
  }

  lemma HighAnd(value: nat, n: nat, i: nat)
    requires n == 32 && value < Pow2(n) && i < n
    ensures Pow2(64 - i) >= Pow2(31 - i) && (BitAnd(value, Pow2(64 - i) - Pow2(31 - i)) != 0 <==> value >= Pow2(31 - i))
  {
    PowerUp(n, 64 - i);
    AndHighMask(value, 31 - i, 33);
    HighPartZero(value, Pow2(31 - i));
  }

  lemma HighPartZero(value: nat, p: nat)
    requires p > 0
    ensures value - value % p == 0 <==> value < p
  {
    DivMod(value, p);
    if value < p { DivUnique(value, p, 0, value); }
  }

  /** Among the lowest n bits, each is set exactly if the value reaches its power. */
  ghost predicate Filled(v: nat, n: nat) {
    forall j :: 0 <= j < n ==> (Bit(v, j) == 1 <==> v >= Pow2(j))
  }

  /** Only the lowest bits are set, at most n of them. */
  ghost predicate Ones(v: nat, n: nat) {
    exists k: nat :: k <= n && v == Pow2(k) - 1
  }

  lemma {:induction false} FilledIs(v: nat, n: nat)
    requires v < Pow2(n)
    ensures Filled(v, n) <==> Ones(v, n)
    decreases n
  {
    if n == 0 {
      assert Pow2(0) == 1;
    } else {
      FilledIs(v / 2, n - 1);
      FilledHalf(v, n);
      HalfOnes(v, n);
    }
  }

  lemma FilledHalf(v: nat, n: nat)
    requires n > 0
    ensures Filled(v, n) <==> Filled(v / 2, n - 1) && (v % 2 == 1 || v == 0)
  {
    assert Pow2(0) == 1;
    DivUnique(v, 1, v, 0);
    assert Bit(v, 0) == v % 2;
    forall j: nat | j < n - 1 ensures Bit(v, j + 1) == Bit(v / 2, j) && (v >= Pow2(j + 1) <==> v / 2 >= Pow2(j)) {
      HalfBit(v, j + 1);
    }
    if Filled(v, n) {
      forall j | 0 <= j < n - 1 ensures Bit(v / 2, j) == 1 <==> v / 2 >= Pow2(j) {
        assert Bit(v, j + 1) == 1 <==> v >= Pow2(j + 1);
      }
    }
    if Filled(v / 2, n - 1) && (v % 2 == 1 || v == 0) {
      forall j | 0 <= j < n ensures Bit(v, j) == 1 <==> v >= Pow2(j) {
        if j > 0 { assert Bit(v / 2, j - 1) == 1 <==> v / 2 >= Pow2(j - 1); }
      }
    }
  }

  lemma HalfOnes(v: nat, n: nat)
    requires n > 0
    ensures Ones(v, n) <==> Ones(v / 2, n - 1) && (v % 2 == 1 || v == 0)
  {
    assert Pow2(0) == 1;
    if Ones(v, n) {
      var k: nat :| k <= n && v == Pow2(k) - 1;
      OnesAre(v / 2, n - 1, if k > 0 then k - 1 else 0);
    }
    if v == 0 {
      OnesAre(v, n, 0);
    } else if Ones(v / 2, n - 1) && v % 2 == 1 {
      var k: nat :| k <= n - 1 && v / 2 == Pow2(k) - 1;
      OnesAre(v, n, k + 1);
    }
  }

  lemma OnesAre(v: nat, n: nat, k: nat)
    requires k <= n && v == Pow2(k) - 1
    ensures Ones(v, n)
  {
  }

  /** A field of 32 bits is written right exactly if its set bits are the lowest ones. */
  lemma WideField(value: nat, n: nat)
    requires n == 32 && value < Pow2(n)
    ensures Masked(value, Mask(n), n) == ToBits(value, n) <==> Ones(value, n)
  {
    var a, b := Masked(value, Mask(n), n), ToBits(value, n);
    forall i | 0 <= i < n ensures (a[i] <==> value >= Pow2(n - 1 - i)) && (b[i] <==> Bit(value, n - 1 - i) == 1) {
      WideBit(value, n, i);
      BitIs(value, n, i);
    }
    SameWhereFilled(value, n, a, b);
    FilledIs(value, n);
  }

  /** The field 2 is written as 3. */
  lemma WideFieldExample(v: nat, n: nat)
    requires v == 2 && n == 32
    ensures Masked(v, Mask(n), n) == ToBits(v + 1, n) && ToBits(v + 1, n) != ToBits(v, n)
  {
    var w := v + 1;
    SmallPowers(n);
    OnesAre(w, n, 2);
    WideField(w, n);
    SameFound(v, w, n);
    LowestDiffers(w, v, n);
  }

  lemma SameFound(v: nat, w: nat, n: nat)
    requires n == 32 && v < Pow2(n) && w < Pow2(n)
    requires forall j: nat :: j < n ==> (v >= Pow2(j) <==> w >= Pow2(j))
    ensures Masked(v, Mask(n), n) == Masked(w, Mask(n), n)
  {
    forall i | 0 <= i < n ensures Masked(v, Mask(n), n)[i] == Masked(w, Mask(n), n)[i] {
      WideBit(v, n, i);
      WideBit(w, n, i);
    }
  }

  lemma LowestDiffers(v: nat, w: nat, n: nat)
    requires n > 0 && v % 2 != w % 2
    ensures ToBits(v, n) != ToBits(w, n)
  {
    assert ToBits(v, n)[n - 1] != ToBits(w, n)[n - 1];
  }

  lemma SmallPowers(n: nat)
    requires n == 32
    ensures Pow2(2) == 4 <= Pow2(n) && forall j: nat :: j < n ==> (2 >= Pow2(j) <==> 3 >= Pow2(j))
  {
    assert Pow2(0) == 1 && Pow2(1) == 2;
    PowerUp(2, n);
    forall j: nat | j < n ensures 2 >= Pow2(j) <==> 3 >= Pow2(j) {
      if j >= 2 { PowerUp(2, j); }
    }
  }

  lemma SameWhereFilled(v: nat, n: nat, a: seq<bool>, b: seq<bool>)
    requires |a| == |b| == n
    requires forall i :: 0 <= i < n ==> (a[i] <==> v >= Pow2(n - 1 - i)) && (b[i] <==> Bit(v, n - 1 - i) == 1)
    ensures a == b <==> Filled(v, n)
  {
    if a == b {
      forall j | 0 <= j < n ensures Bit(v, j) == 1 <==> v >= Pow2(j) {
        assert a[n - 1 - j] == b[n - 1 - j];
      }
    }
    if Filled(v, n) {
      forall i | 0 <= i < n ensures a[i] == b[i] {
        assert Bit(v, n - 1 - i) == 1 <==> v >= Pow2(n - 1 - i);
      }
    }
  }

  lemma {:induction false} OrAbove(a: nat, b: nat)
    ensures BitOr(a, b) >= a && BitOr(a, b) >= b
  {
    if a > 0 || b > 0 { OrAbove(a / 2, b / 2); }
  }

  predicate Blank(bits: seq<bool>) { forall i :: 0 <= i < |bits| ==> !bits[i] }

  /** Reading it, every set bit brings in bits above the field. */
  lemma {:induction false} WideOred(bits: seq<bool>, n: nat)
    requires n == 32 && |bits| <= n
    ensures if Blank(bits) then Ored(bits, Mask(n)) == 0 else Ored(bits, Mask(n)) >= Pow2(n)
    decreases |bits|
  {
    if bits != [] {
      var i := |bits| - 1;
      WideOred(bits[..i], n);
      MaskAbove(n, i);
      OrAbove(Ored(bits[..i], Mask(n)), ShiftDown(Mask(n), i));
    }
  }

  lemma MaskAbove(n: nat, i: nat)
    requires n == 32 && i < n
    ensures ShiftDown(Mask(n), i) >= Pow2(n)
  {
    WideMask(n, i);
    PowerStep(63 - i);
    PowerUp(31 - i, 63 - i);
    PowerUp(n, 63 - i);
  }

  /** Of the fields of 32 bits only zero is read as it was written. */
  lemma WideRoundTrip(value: nat, n: nat)
    requires n == 32 && value < Pow2(n)
    ensures Ored(Masked(value, Mask(n), n), Mask(n)) == value <==> value == 0
  {
    var bits := Masked(value, Mask(n), n);
    WideOred(bits, n);
    forall i | 0 <= i < n ensures bits[i] <==> value >= Pow2(31 - i) { WideBit(value, n, i); }
    if value > 0 {
      assert Pow2(0) == 1 && bits[31];
    }
  }
}
