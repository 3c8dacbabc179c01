/** Words and bytes as sequences of bits, the most significant bit first. */
module BitStrings {
  import opened WordBits

  type Byte = x: int | 0 <= x < 256

  function ToBits(v: nat, n: nat): (s: seq<bool>)
    ensures |s| == n
    decreases n, v
  {
    if n == 0 then [] else ToBits(v / 2, n - 1) + [v % 2 == 1]
  }

  function FromBits(s: seq<bool>): nat {
    if s == [] then 0 else 2 * FromBits(s[..|s| - 1]) + (if s[|s| - 1] then 1 else 0)
  }

  function Zeros(n: nat): (s: seq<bool>)
    ensures |s| == n && forall i :: 0 <= i < n ==> !s[i]
  {
    if n == 0 then [] else [false] + Zeros(n - 1)
  }

  /** A word that fits is restored from its bits. */
  lemma {:induction false} FromTo(v: nat, n: nat)
    requires v < Pow2(n)
    ensures FromBits(ToBits(v, n)) == v
  {
    if n > 0 {
      FromTo(v / 2, n - 1);
      assert ToBits(v, n)[..n - 1] == ToBits(v / 2, n - 1);
    }
  }

  /** A bit string is restored from its word. */
  lemma {:induction false} ToFrom(s: seq<bool>)
    ensures ToBits(FromBits(s), |s|) == s && FromBits(s) < Pow2(|s|)
  {
    if s != [] {
      var r := s[..|s| - 1];
      ToFrom(r);
      assert s == r + [s[|s| - 1]];
    }
  }

  lemma {:induction false} FromConcat(a: seq<bool>, b: seq<bool>)
    ensures FromBits(a + b) == ShiftUp(FromBits(a), |b|) + FromBits(b)
    decreases |b|
  {
    if b == [] {
      assert a + b == a;
    } else {
      FromConcat(a, b[..|b| - 1]);
      assert (a + b)[..|a + b| - 1] == a + b[..|b| - 1];
    }
  }

  /** The bits of x | y. */
  lemma {:induction false} OrBits(x: nat, y: nat, n: nat, i: nat)
    requires i < n
    ensures ToBits(BitOr(x, y), n)[i] == (ToBits(x, n)[i] || ToBits(y, n)[i])
    decreases n
  {
    OrStep(x, y);
    BitAt(x, n, i);
    BitAt(y, n, i);
    BitAt(BitOr(x, y), n, i);
    if i < n - 1 { OrBits(x / 2, y / 2, n - 1, i); }
  }

  lemma BitAt(v: nat, n: nat, i: nat)
    requires i < n
    ensures ToBits(v, n)[i] == if i == n - 1 then v % 2 == 1 else ToBits(v / 2, n - 1)[i]
  {
  }

  lemma {:induction false} ZeroBits(n: nat)
    ensures ToBits(0, n) == Zeros(n)
  {
    if n > 0 {
      ZeroBits(n - 1);
      assert forall i :: 0 <= i < n ==> ToBits(0, n)[i] == false;
    }
  }

  /** v << k moves the bits up, v >> k down. */
  lemma {:induction false} UpBits(v: nat, k: nat, n: nat)
    requires k <= n
    ensures ToBits(ShiftUp(v, k), n) == ToBits(v, n - k) + Zeros(k)
    decreases k
  {
    if k > 0 {
      UpBits(v, k - 1, n - 1);
      ZerosLast(k);
    }
  }

  lemma {:induction false} ZerosLast(k: nat)
    requires k > 0
    ensures Zeros(k) == Zeros(k - 1) + [false]
  {
  }

  lemma {:induction false} DownBits(v: nat, k: nat, n: nat)
    requires k <= n && v < Pow2(n)
    ensures ToBits(ShiftDown(v, k), n) == Zeros(k) + ToBits(v, n)[..n - k]
    decreases n
  {
    if k == 0 {
      assert ToBits(v, n)[..n] == ToBits(v, n);
    } else {
      TopBits(v, k, n);
      SmallBits(ShiftDown(v, k), n - k, k);
    }
  }

  /** The top bits of v are those of v >> k, which fits into the rest. */
  lemma {:induction false} TopBits(v: nat, k: nat, n: nat)
    requires k <= n && v < Pow2(n)
    ensures ToBits(v, n)[..n - k] == ToBits(ShiftDown(v, k), n - k) && ShiftDown(v, k) < Pow2(n - k)
    decreases k
  {
    if k == 0 {
      assert ToBits(v, n)[..n] == ToBits(v, n);
    } else {
      DownStep(v, k);
      TopBits(v / 2, k - 1, n - 1);
      assert ToBits(v, n)[..n - k] == ToBits(v / 2, n - 1)[..n - k];
    }
  }

  lemma {:induction false} DownStep(v: int, k: nat)
    requires k > 0
    ensures ShiftDown(v, k) == ShiftDown(v / 2, k - 1)
  {
    if k > 1 { DownStep(v, k - 1); }
  }

  /** A small word has leading zeros. */
  lemma {:induction false} SmallBits(v: nat, n: nat, k: nat)
    requires v < Pow2(n)
    ensures ToBits(v, k + n) == Zeros(k) + ToBits(v, n)
    decreases n
  {
    if n == 0 {
      ZeroBits(k);
    } else {
      SmallBits(v / 2, n - 1, k);
    }
  }

  /** The low bits do not depend on what is above them. */
  lemma {:induction false} LowBits(v: nat, m: nat, n: nat)
    ensures ToBits(v, m + n) == ToBits(ShiftDown(v, n), m) + ToBits(v, n)
    decreases n
  {
    if n == 0 {
      assert ToBits(v, m) + [] == ToBits(v, m);
    } else {
      LowBits(v / 2, m, n - 1);
      DownStep(v, n);
    }
  }

  lemma {:induction false} ModBits(v: nat, n: nat)
    ensures v % Pow2(n) >= 0 && ToBits(v % Pow2(n), n) == ToBits(v, n)
    decreases n
  {
    if n > 0 {
      HalfMod(v, Pow2(n - 1));
      DivMod(v / 2, Pow2(n - 1));
      ModBits(v / 2, n - 1);
      Halving(v % Pow2(n), v / 2 % Pow2(n - 1), v % 2);
    } else {
      DivMod(v, 1);
    }
  }

  lemma Halving(a: nat, h: nat, b: nat)
    requires a == 2 * h + b && b < 2
    ensures a / 2 == h && a % 2 == b
  {
  }

  // ------------------------------------------------------------ bytes

  function AllBits(data: seq<Byte>): (s: seq<bool>)
    ensures |s| == 8 * |data|
  {
    if data == [] then [] else ToBits(data[0], 8) + AllBits(data[1..])
  }

  lemma {:induction false} AllBitsConcat(a: seq<Byte>, b: seq<Byte>)
    ensures AllBits(a + b) == AllBits(a) + AllBits(b)
    decreases |a|
  {
    if a == [] {
      assert a + b == b;
    } else {
      assert (a + b)[1..] == a[1..] + b;
      AllBitsConcat(a[1..], b);
    }
  }

  lemma AllBitsLast(pre: seq<Byte>, last: Byte)
    ensures AllBits(pre + [last]) == AllBits(pre) + ToBits(last, 8)
  {
    AllBitsConcat(pre, [last]);
    assert AllBits([last]) == ToBits(last, 8) + AllBits([last][1..]);
  }

  lemma {:induction false} BitsOfByte(data: seq<Byte>, i: nat)
    requires i < |data|
    ensures AllBits(data)[8 * i..8 * i + 8] == ToBits(data[i], 8)
    decreases i
  {
    var rest := AllBits(data[1..]);
    assert AllBits(data) == ToBits(data[0], 8) + rest;
    if i > 0 {
      BitsOfByte(data[1..], i - 1);
      BehindFirst(ToBits(data[0], 8), rest, 8 * (i - 1), 8 * i);
    }
  }

  /** A slice of a concatenation that begins behind its first part. */
  lemma BehindFirst<T>(a: seq<T>, b: seq<T>, i: nat, j: nat)
    requires i <= j <= |b|
    ensures (a + b)[|a| + i..|a| + j] == b[i..j]
  {
  }
}
