/** The memory streams: writing and reading bits, bytes, words and strings at any position. */
module MemoryStreams {
  import opened WordBits
  import opened BitStrings
  import opened BitFields

  /** As many bytes as the bits need, and zeros behind them. */
  ghost predicate Clean(data: seq<Byte>, length: nat) {
    && length <= 8 * |data| < length + 8
    && forall i :: length <= i < 8 * |data| ==> !AllBits(data)[i]
  }

  /** The bits written. */
  function Contents(data: seq<Byte>, length: nat): seq<bool>
    requires length <= 8 * |data|
  {
    AllBits(data)[..length]
  }

  lemma {:induction false} OrBound(x: nat, y: nat, n: nat)
    requires x < Pow2(n) && y < Pow2(n)
    ensures BitOr(x, y) < Pow2(n)
    decreases n
  {
    OrStep(x, y);
    if n > 0 { OrBound(x / 2, y / 2, n - 1); }
  }

  lemma BytePow()
    ensures Pow2(8) == 256 && Pow2(4) == 16 && forall k :: 0 <= k < 8 ==> 0 < Pow2(k) < 256
  {
    assert Pow2(0) == 1 && Pow2(1) == 2 && Pow2(2) == 4 && Pow2(3) == 8;
    assert Pow2(4) == 16 && Pow2(5) == 32 && Pow2(6) == 64 && Pow2(7) == 128;
  }

  function OrByte(x: Byte, y: Byte): Byte {
    BytePow();
    OrBound(x, y, 8);
    BitOr(x, y)
  }

  // ------------------------------------------------------------ writing

  /** The only set bit of 1 << k. */
  lemma {:induction false} PowerBits(k: nat, n: nat, i: nat)
    requires k < n && i < n
    ensures ToBits(Pow2(k), n)[i] <==> i == n - 1 - k
    decreases n
  {
    if k == 0 {
      assert Pow2(0) == 1;
      ZeroBits(n - 1);
    } else {
      Halves(Pow2(k - 1));
      if i < n - 1 { PowerBits(k - 1, n - 1, i); }
    }
  }

  /** A bit set in the last byte. */
  lemma BitSet(pre: seq<Byte>, last: Byte, k: nat)
    requires k < 8
    ensures Pow2(7 - k) < 256
    ensures AllBits(pre + [OrByte(last, Pow2(7 - k))]) == AllBits(pre + [last])[8 * |pre| + k := true]
  {
    BitSetInByte(last, k);
    AllBitsLast(pre, last);
    AllBitsLast(pre, OrByte(last, Pow2(7 - k)));
  }

  lemma BitSetInByte(last: Byte, k: nat)
    requires k < 8
    ensures Pow2(7 - k) < 256 && ToBits(OrByte(last, Pow2(7 - k)), 8) == ToBits(last, 8)[k := true]
  {
    BytePow();
    var b := OrByte(last, Pow2(7 - k));
    forall i | 0 <= i < 8 ensures ToBits(b, 8)[i] == (i == k || ToBits(last, 8)[i]) {
      OrBits(last, Pow2(7 - k), 8, i);
      PowerBits(7 - k, 8, i);
    }
    assert ToBits(b, 8) == ToBits(last, 8)[k := true];
  }

  /** The bytes after a byte was written: aligned it is appended; otherwise its bits are divided, by
      the shifts of the source, between the last byte and a new one. */
  function AfterByte(data: seq<Byte>, length: nat, value: Byte): seq<Byte>
    requires length <= 8 * |data|
  {
    var l1 := length % 8;
    if l1 == 0 then data + [value]
    else
      var l2 := 8 - l1;
      data[..|data| - 1] + [OrByte(data[|data| - 1], HighPart(value, l2)), LowPart(value, l1)]
  }

  /** (value & (0xFF << l2)) >> l2. */
  function HighPart(value: Byte, l2: nat): Byte
    requires l2 < 8
  {
    MaskHigh(value, l2);
    ShiftDown(BitAnd(value, Pow2(8 + l2) - Pow2(l2)), l2)
  }

  lemma MaskHigh(value: Byte, l2: nat)
    requires l2 < 8
    ensures Pow2(8 + l2) >= Pow2(l2) && ShiftDown(BitAnd(value, Pow2(8 + l2) - Pow2(l2)), l2) == ShiftDown(value, l2)
    ensures 0 <= ShiftDown(value, l2) < 256
  {
    BytePow();
    Pow2Sum(l2, 8);
    Scale(1, 256, Pow2(l2));
    LargeEnough(Pow2(l2));
    AndHighMask(value, l2, 8);
    var q, r := Parts(value, Pow2(l2));
    DivUnique(value, Pow2(l2), q, r);
    ShiftDownIs(value, l2);
    ShiftDownIs(value - r, l2);
    DivUnique(value - r, Pow2(l2), q, 0);
  }

  lemma LargeEnough(p: int)
    requires p > 0
    ensures p * 256 >= 256
  {
  }

  /** (value & (0xFF >> l1)) << l1. */
  function LowPart(value: Byte, l1: nat): Byte
    requires 0 < l1 < 8
  {
    MaskLow(value, l1);
    ShiftUp(BitAnd(value, Pow2(8 - l1) - 1), l1)
  }

  lemma MaskLow(value: Byte, l1: nat)
    requires 0 < l1 < 8
    ensures 255 / Pow2(l1) == Pow2(8 - l1) - 1
    ensures BitAnd(value, Pow2(8 - l1) - 1) == value % Pow2(8 - l1) && 0 <= value % Pow2(8 - l1)
    ensures 0 <= ShiftUp(value % Pow2(8 - l1), l1) < 256
  {
    var p, q := Pow2(l1), Pow2(8 - l1);
    BytePow();
    Pow2Sum(8 - l1, l1);
    AndLowMask(value, 8 - l1);
    DivMod(value, q);
    ShiftUpIs(value % q, l1);
    Scale(value % q, q - 1, p);
    assert (q - 1) * p == q * p - p;
    DivUnique(255, p, q - 1, p - 1);
  }

  lemma LowPartBits(value: Byte, l1: nat)
    requires 0 < l1 < 8
    ensures ToBits(LowPart(value, l1), 8) == ToBits(value, 8)[l1..] + Zeros(l1)
  {
    LowPartIs(value, l1);
    LowBitsMoved(value, value % Pow2(8 - l1), l1);
  }

  lemma LowPartIs(value: Byte, l1: nat)
    requires 0 < l1 < 8
    ensures value % Pow2(8 - l1) >= 0 && LowPart(value, l1) == ShiftUp(value % Pow2(8 - l1), l1)
  {
    MaskLow(value, l1);
  }

  lemma LowBitsMoved(value: nat, low: nat, l1: nat)
    requires 0 < l1 < 8 && low == value % Pow2(8 - l1)
    ensures ToBits(ShiftUp(low, l1), 8) == ToBits(value, 8)[l1..] + Zeros(l1)
  {
    UpBits(low, l1, 8);
    ModBits(value, 8 - l1);
    BitsTail(value, l1);
  }

  lemma BitsTail(value: nat, k: nat)
    requires k <= 8
    ensures ToBits(value, 8)[k..] == ToBits(value, 8 - k)
  {
    LowBits(value, k, 8 - k);
    var a, b := ToBits(ShiftDown(value, 8 - k), k), ToBits(value, 8 - k);
    assert (a + b)[k..] == b;
  }

  lemma HighPartBits(value: Byte, l2: nat)
    requires l2 < 8
    ensures ToBits(HighPart(value, l2), 8) == Zeros(l2) + ToBits(value, 8)[..8 - l2]
  {
    BytePow();
    MaskHigh(value, l2);
    DownBits(value, l2, 8);
  }

  /** The byte was appended to the bits written before. */
  ghost predicate GoodByte(data: seq<Byte>, length: nat, value: Byte)
    requires length <= 8 * |data|
  {
    var d := AfterByte(data, length, value);
    Clean(d, length + 8) && Contents(d, length + 8) == Contents(data, length) + ToBits(value, 8)
  }

  /** The code with its two shifts exchanged would append the byte: that gives the right bytes. */
  function RightBytes(data: seq<Byte>, length: nat, value: Byte): seq<Byte>
    requires length <= 8 * |data| && length % 8 != 0
  {
    var l1 := length % 8;
    data[..|data| - 1] + [OrByte(data[|data| - 1], HighPart(value, l1)), LowPart(value, 8 - l1)]
  }

  /** At this position, with this last byte, the two shifts of this byte come to the same. */
  predicate ShiftsAgree(data: seq<Byte>, length: nat, value: Byte)
    requires length <= 8 * |data|
  {
    var l1 := length % 8;
    l1 == 0 ||
    (var last := data[|data| - 1];
     OrByte(last, HighPart(value, 8 - l1)) == OrByte(last, HighPart(value, l1))
         && LowPart(value, l1) == LowPart(value, 8 - l1))
  }

  /** The byte comes out right exactly then. */
  lemma ByteAppended(data: seq<Byte>, length: nat, value: Byte)
    requires Clean(data, length)
    ensures GoodByte(data, length, value) <==> ShiftsAgree(data, length, value)
  {
    if length % 8 == 0 {
      AllBitsLast(data, value);
      assert AllBits(data)[..length] == AllBits(data);
    } else {
      var d, d' := AfterByte(data, length, value), RightBytes(data, length, value);
      RightAppended(data, length, value);
      if GoodByte(data, length, value) { SameData(d, d', length + 8); }
      LastTwo(data[..|data| - 1], d, d');
    }
  }

  lemma LastTwo(pre: seq<Byte>, d: seq<Byte>, d': seq<Byte>)
    requires |d| == |d'| == |pre| + 2 && d[..|pre|] == pre && d'[..|pre|] == pre
    ensures d == d' <==> d[|pre|] == d'[|pre|] && d[|pre| + 1] == d'[|pre| + 1]
  {
    assert d == pre + [d[|pre|], d[|pre| + 1]] && d' == pre + [d'[|pre|], d'[|pre| + 1]];
  }

  /** Clean data are determined by their contents. */
  lemma SameData(d: seq<Byte>, d': seq<Byte>, length: nat)
    requires |d| == |d'| && Clean(d, length) && Clean(d', length) && Contents(d, length) == Contents(d', length)
    ensures d == d'
  {
    forall i | 0 <= i < 8 * |d| ensures AllBits(d)[i] == AllBits(d')[i] {
      if i < length { assert AllBits(d)[i] == Contents(d, length)[i] == Contents(d', length)[i]; }
    }
    assert AllBits(d) == AllBits(d');
    forall i | 0 <= i < |d| ensures d[i] == d'[i] {
      BitsOfByte(d, i);
      BitsOfByte(d', i);
      SameByte(d[i], d'[i]);
    }
  }

  lemma RightAppended(data: seq<Byte>, length: nat, value: Byte)
    requires Clean(data, length) && length % 8 != 0
    ensures var d := RightBytes(data, length, value);
            Clean(d, length + 8) && Contents(d, length + 8) == Contents(data, length) + ToBits(value, 8)
  {
    LastByte(data, length);
    var pre, last := data[..|data| - 1], data[|data| - 1];
    assert data == pre + [last];
    RightJoined(data, length, value, pre, last, length % 8);
    assert pre + [OrByte(last, HighPart(value, length % 8))] + [LowPart(value, 8 - length % 8)]
        == RightBytes(data, length, value);
  }

  lemma RightJoined(data: seq<Byte>, length: nat, value: Byte, pre: seq<Byte>, last: Byte, l1: nat)
    requires Clean(data, length) && data == pre + [last] && 0 < l1 < 8 && length == 8 * |pre| + l1
    ensures var d := pre + [OrByte(last, HighPart(value, l1))] + [LowPart(value, 8 - l1)];
            Clean(d, length + 8) && Contents(d, length + 8) == Contents(data, length) + ToBits(value, 8)
  {
    AllBitsLast(pre, last);
    LastPartEmpty(data, length, pre, last, l1);
    DividedByte(last, value, l1);
    var high, low := OrByte(last, HighPart(value, l1)), LowPart(value, 8 - l1);
    AllBitsLast(pre, high);
    AllBitsLast(pre + [high], low);
    PartsJoined(AllBits(pre), ToBits(last, 8), ToBits(value, 8), ToBits(high, 8), ToBits(low, 8), l1);
  }

  /** Bytes written at a multiple of four bits come out right. */
  lemma AfterByteContents(data: seq<Byte>, length: nat, value: Byte)
    requires Clean(data, length) && length % 4 == 0
    ensures GoodByte(data, length, value)
  {
    ByteAppended(data, length, value);
    HalfBytes(length);
  }

  lemma HalfBytes(length: nat)
    requires length % 4 == 0
    ensures (length % 8 == 0 || length % 8 == 4) && (length + 8) % 4 == 0
  {
  }

  /** At other positions not every byte comes out right: the byte 1 does not. */
  lemma MisplacedOne(data: seq<Byte>, length: nat)
    requires Clean(data, length) && length % 4 != 0
    ensures !GoodByte(data, length, 1)
  {
    MisplacedBit(data, length, 1);
    assert Pow2(0) == 1;
    PowerBits(0, 8, 7);
    Differ(AllBits(AfterByte(data, length, 1))[..length + 8], Contents(data, length) + ToBits(1, 8), length + 7);
  }

  lemma Differ(a: seq<bool>, b: seq<bool>, i: nat)
    requires i < |a| && i < |b| && a[i] != b[i]
    ensures a != b
  {
  }

  lemma MisplacedBit(data: seq<Byte>, length: nat, one: Byte)
    requires Clean(data, length) && length % 4 != 0 && one == 1
    ensures 8 * |AfterByte(data, length, one)| >= length + 8 && !AllBits(AfterByte(data, length, one))[length + 7]
  {
    var l1 := OddPosition(length);
    var front, low := Divided(data, length, one);
    LowPartBits(one, l1);
    OneBits(l1);
    LastBit(AllBits(front), ToBits(low, 8), ToBits(one, 8), length, l1);
  }

  lemma OddPosition(length: nat) returns (l1: nat)
    requires length % 4 != 0
    ensures l1 == length % 8 && 0 < l1 < 8 && l1 != 4
  {
    l1 := length % 8;
  }

  /** The bits after a byte was divided between the last byte and a new one. */
  lemma Divided(data: seq<Byte>, length: nat, value: Byte) returns (front: seq<Byte>, low: Byte)
    requires Clean(data, length) && length % 8 != 0
    ensures low == LowPart(value, length % 8) && |front| == |data| && length + 8 == 8 * |front| + length % 8
    ensures AfterByte(data, length, value) == front + [low]
    ensures AllBits(AfterByte(data, length, value)) == AllBits(front) + ToBits(low, 8)
  {
    LastByte(data, length);
    low := LowPart(value, length % 8);
    front := data[..|data| - 1] + [OrByte(data[|data| - 1], HighPart(value, 8 - length % 8))];
    AllBitsLast(front, low);
    assert AfterByte(data, length, value) == front + [low];
  }

  lemma LastByte(data: seq<Byte>, length: nat)
    requires length <= 8 * |data| < length + 8 && length % 8 != 0
    ensures |data| > 0 && length + 8 == 8 * |data| + length % 8
  {
  }

  lemma OneBits(l1: nat)
    ensures 0 < 2 * l1 < 8 ==> !ToBits(1, 8)[2 * l1 - 1]
  {
    assert Pow2(0) == 1;
    if 0 < 2 * l1 < 8 { PowerBits(0, 8, 2 * l1 - 1); }
  }

  lemma LastBit(front: seq<bool>, low: seq<bool>, one: seq<bool>, length: nat, l1: nat)
    requires 0 < l1 < 8 && l1 != 4 && |one| == 8 && low == one[l1..] + Zeros(l1) && length + 8 == |front| + l1
    requires 2 * l1 - 1 < 7 ==> !one[2 * l1 - 1]
    ensures !(front + low)[length + 7]
  {
    assert (front + low)[length + 7] == low[l1 - 1];
  }

  /** Every byte comes out right exactly at the positions that are a multiple of four bits. */
  lemma BytePositions(data: seq<Byte>, length: nat)
    requires Clean(data, length)
    ensures (forall v: Byte :: GoodByte(data, length, v)) <==> length % 4 == 0
  {
    if length % 4 == 0 {
      forall v: Byte ensures GoodByte(data, length, v) { AfterByteContents(data, length, v); }
    } else {
      MisplacedOne(data, length);
    }
  }

  /** The unused part of the last byte. */
  lemma LastPartEmpty(data: seq<Byte>, length: nat, pre: seq<Byte>, last: Byte, l1: nat)
    requires Clean(data, length) && data == pre + [last] && length == 8 * |pre| + l1 && l1 < 8
    requires AllBits(data) == AllBits(pre) + ToBits(last, 8)
    ensures ToBits(last, 8)[l1..] == Zeros(8 - l1) && Contents(data, length) == AllBits(pre) + ToBits(last, 8)[..l1]
  {
    forall i | l1 <= i < 8 ensures !ToBits(last, 8)[i] {
      assert AllBits(data)[8 * |pre| + i] == ToBits(last, 8)[i];
    }
  }

  // ------------------------------------------------------------ several bytes

  /** The data after the bytes were written one after another. */
  function AfterBytes(data: seq<Byte>, length: nat, bs: seq<Byte>): (d: seq<Byte>)
    requires length <= 8 * |data|
    ensures |d| == |data| + |bs|
  {
    if bs == [] then data
    else AfterByte(AfterBytes(data, length, bs[..|bs| - 1]), length + 8 * (|bs| - 1), bs[|bs| - 1])
  }

  lemma NextWritten(data: seq<Byte>, length: nat, bs: seq<Byte>, b: Byte)
    requires length <= 8 * |data|
    ensures AfterBytes(data, length, bs + [b]) == AfterByte(AfterBytes(data, length, bs), length + 8 * |bs|, b)
  {
    assert (bs + [b])[..|bs|] == bs;
  }

  /** All of them were appended. */
  ghost predicate GoodBytes(data: seq<Byte>, length: nat, bs: seq<Byte>)
    requires length <= 8 * |data|
  {
    var d := AfterBytes(data, length, bs);
    Clean(d, length + 8 * |bs|) && Contents(d, length + 8 * |bs|) == Contents(data, length) + AllBits(bs)
  }

  /** If the first bytes were appended, the last one decides. */
  lemma LastDecides(data: seq<Byte>, length: nat, bs: seq<Byte>, b: Byte)
    requires length <= 8 * |data| && GoodBytes(data, length, bs)
    ensures GoodBytes(data, length, bs + [b]) <==> GoodByte(AfterBytes(data, length, bs), length + 8 * |bs|, b)
  {
    NextWritten(data, length, bs, b);
    AllBitsLast(bs, b);
    Joined(Contents(data, length), AllBits(bs), ToBits(b, 8));
  }

  lemma {:induction false} GoodWhereAligned(data: seq<Byte>, length: nat, bs: seq<Byte>)
    requires Clean(data, length) && length % 4 == 0
    ensures GoodBytes(data, length, bs)
    decreases |bs|
  {
    if bs == [] {
      NoBytes(data, length);
    } else {
      var first, b := bs[..|bs| - 1], bs[|bs| - 1];
      assert bs == first + [b];
      GoodWhereAligned(data, length, first);
      StaysAligned(length, |first|);
      AfterByteContents(AfterBytes(data, length, first), length + 8 * |first|, b);
      LastDecides(data, length, first, b);
    }
  }

  lemma StaysAligned(length: nat, n: nat)
    ensures (length + 8 * n) % 4 == length % 4
  {
  }

  function ZeroBytes(n: nat): (s: seq<Byte>)
    ensures |s| == n
  {
    if n == 0 then [] else ZeroBytes(n - 1) + [0]
  }

  /** Zero bytes come out right everywhere. */
  lemma {:induction false} GoodZeros(data: seq<Byte>, length: nat, n: nat)
    requires Clean(data, length)
    ensures GoodBytes(data, length, ZeroBytes(n))
  {
    if n == 0 {
      NoBytes(data, length);
    } else {
      GoodZeros(data, length, n - 1);
      OneMoreZero(data, length, ZeroBytes(n - 1));
    }
  }

  lemma NoBytes(data: seq<Byte>, length: nat)
    requires Clean(data, length)
    ensures GoodBytes(data, length, [])
  {
    NothingMore(Contents(data, length), AllBits([]));
  }

  lemma OneMoreZero(data: seq<Byte>, length: nat, bs: seq<Byte>)
    requires length <= 8 * |data| && GoodBytes(data, length, bs)
    ensures GoodBytes(data, length, bs + [0])
  {
    GoodZero(AfterBytes(data, length, bs), length + 8 * |bs|);
    LastDecides(data, length, bs, 0);
  }

  lemma GoodZero(data: seq<Byte>, length: nat)
    requires Clean(data, length)
    ensures GoodByte(data, length, 0)
  {
    if length % 8 != 0 { ZeroShifts(length % 8); }
    ByteAppended(data, length, 0);
  }

  lemma ZeroShifts(l1: nat)
    requires 0 < l1 < 8
    ensures HighPart(0, l1) == HighPart(0, 8 - l1) && LowPart(0, l1) == LowPart(0, 8 - l1)
  {
    forall k: nat | 0 < k < 8 ensures HighPart(0, k) == 0 && LowPart(0, k) == 0 {
      HighPartBits(0, k);
      LowPartBits(0, k);
      ZeroBits(8);
      assert Zeros(k) + Zeros(8)[..8 - k] == Zeros(8) == Zeros(8)[k..] + Zeros(k);
      BytePow();
      FromTo(0, 8);
      FromTo(HighPart(0, k), 8);
      FromTo(LowPart(0, k), 8);
    }
  }

  lemma WordWritten(data: seq<Byte>, length: nat, bs: seq<Byte>)
    requires length <= 8 * |data|
    ensures Clean(data, length) && length % 4 == 0 ==> GoodBytes(data, length, bs)
  {
    if Clean(data, length) && length % 4 == 0 { GoodWhereAligned(data, length, bs); }
  }

  /** The positions at which every word of n bytes is appended: the multiples of four bits. */
  lemma WordPositions(data: seq<Byte>, length: nat, n: nat)
    requires Clean(data, length)
    ensures (forall bs: seq<Byte> :: |bs| == n ==> GoodBytes(data, length, bs)) <==> n == 0 || length % 4 == 0
  {
    if n == 0 || length % 4 == 0 {
      forall bs: seq<Byte> | |bs| == n ensures GoodBytes(data, length, bs) {
        if n == 0 { NoBytes(data, length); } else { GoodWhereAligned(data, length, bs); }
      }
    } else {
      MisplacedWord(data, length, ZeroBytes(n - 1));
    }
  }

  /** Zero bytes and a byte 1 behind them. */
  lemma MisplacedWord(data: seq<Byte>, length: nat, zeros: seq<Byte>)
    requires Clean(data, length) && length % 4 != 0 && zeros == ZeroBytes(|zeros|)
    ensures |zeros + [1]| == |zeros| + 1 && !GoodBytes(data, length, zeros + [1])
  {
    GoodZeros(data, length, |zeros|);
    MisplacedBehind(data, length, zeros);
  }

  lemma MisplacedBehind(data: seq<Byte>, length: nat, bs: seq<Byte>)
    requires length <= 8 * |data| && length % 4 != 0 && GoodBytes(data, length, bs)
    ensures !GoodBytes(data, length, bs + [1])
  {
    var d, l := AfterBytes(data, length, bs), length + 8 * |bs|;
    MisplacedLater(d, length, |bs|, l);
    LastWrong(data, length, bs, 1, d, l);
  }

  lemma LastWrong(data: seq<Byte>, length: nat, bs: seq<Byte>, b: Byte, d: seq<Byte>, l: nat)
    requires length <= 8 * |data| && GoodBytes(data, length, bs)
    requires d == AfterBytes(data, length, bs) && l == length + 8 * |bs| <= 8 * |d| && !GoodByte(d, l, b)
    ensures !GoodBytes(data, length, bs + [b])
  {
    LastDecides(data, length, bs, b);
  }

  lemma MisplacedLater(data: seq<Byte>, length: nat, n: nat, l: nat)
    requires l == length + 8 * n && Clean(data, l) && length % 4 != 0
    ensures !GoodByte(data, l, 1)
  {
    StaysAligned(length, n);
    MisplacedOne(data, l);
  }

  lemma DividedByte(last: Byte, value: Byte, l1: nat)
    requires 0 < l1 < 8 && ToBits(last, 8)[l1..] == Zeros(8 - l1)
    ensures ToBits(OrByte(last, HighPart(value, l1)), 8) == ToBits(last, 8)[..l1] + ToBits(value, 8)[..8 - l1]
    ensures ToBits(LowPart(value, 8 - l1), 8) == ToBits(value, 8)[8 - l1..] + Zeros(8 - l1)
  {
    var high := HighPart(value, l1);
    LowPartBits(value, 8 - l1);
    HighPartBits(value, l1);
    forall i | 0 <= i < 8 ensures ToBits(OrByte(last, high), 8)[i] == (ToBits(last, 8)[i] || ToBits(high, 8)[i]) {
      OrBits(last, high, 8, i);
    }
    Overlaid(ToBits(last, 8), ToBits(high, 8), ToBits(OrByte(last, high), 8), ToBits(value, 8)[..8 - l1], l1);
  }

  lemma Overlaid(a: seq<bool>, b: seq<bool>, c: seq<bool>, v: seq<bool>, k: nat)
    requires |a| == |b| == |c| && k <= |a| && |v| == |a| - k && a[k..] == Zeros(|a| - k) && b == Zeros(k) + v
    requires forall i :: 0 <= i < |a| ==> c[i] == (a[i] || b[i])
    ensures c == a[..k] + v
  {
    forall i | 0 <= i < |a| ensures c[i] == (a[..k] + v)[i] {
      if i >= k { assert a[i] == a[k..][i - k]; }
    }
  }

  lemma PartsJoined(pre: seq<bool>, last: seq<bool>, value: seq<bool>, high: seq<bool>, low: seq<bool>, l1: nat)
    requires |last| == 8 && |value| == 8 && 0 < l1 < 8
    requires high == last[..l1] + value[..8 - l1] && low == value[8 - l1..] + Zeros(8 - l1)
    ensures var s := pre + high + low;
            && s[..|pre| + l1 + 8] == pre + last[..l1] + value && |s| == |pre| + 16
            && forall i :: |pre| + l1 + 8 <= i < |s| ==> !s[i]
  {
    var s := pre + high + low;
    assert value == value[..8 - l1] + value[8 - l1..];
    forall i | |pre| + l1 + 8 <= i < |s| ensures !s[i] { assert s[i] == Zeros(8 - l1)[i - |pre| - l1 - 8]; }
  }

  // ------------------------------------------------------------ the output stream

  /** n bytes, the low one first. */
  function LeBits(v: nat, n: nat): (s: seq<bool>)
    ensures |s| == 8 * n
  {
    if n == 0 then [] else ToBits(v % 256, 8) + LeBits(v / 256, n - 1)
  }

  /** The lowest n bytes, the high one first. */
  function BeBytes(v: nat, n: nat): (bs: seq<Byte>)
    ensures |bs| == n
  {
    if n == 0 then [] else BeBytes(v / 256, n - 1) + [v % 256]
  }

  /** The lowest n bytes, the low one first. */
  function LeBytes(v: nat, n: nat): (bs: seq<Byte>)
    ensures |bs| == n
  {
    if n == 0 then [] else [v % 256] + LeBytes(v / 256, n - 1)
  }

  lemma {:induction false} BeBytesBits(v: nat, n: nat)
    ensures AllBits(BeBytes(v, n)) == ToBits(v, 8 * n)
    decreases n
  {
    if n > 0 {
      BeBytesBits(v / 256, n - 1);
      AllBitsLast(BeBytes(v / 256, n - 1), v % 256);
      BytePow();
      LowBits(v, 8 * (n - 1), 8);
      ShiftDownIs(v, 8);
      ModBits(v, 8);
    }
  }

  lemma HighFirst(value: nat, n: nat, i: nat)
    requires i < n
    ensures BeBytes(ShiftDown(value, 8 * i), n - i)
            == BeBytes(ShiftDown(value, 8 * (i + 1)), n - i - 1) + [ShiftDown(value, 8 * i) % 256]
  {
    OneByteDown(value, i);
  }

  lemma {:induction false} LeBytesBits(v: nat, n: nat)
    ensures AllBits(LeBytes(v, n)) == LeBits(v, n)
    decreases n
  {
    if n > 0 {
      LeBytesBits(v / 256, n - 1);
      assert LeBytes(v, n)[1..] == LeBytes(v / 256, n - 1);
    }
  }

  lemma MovedBit(a: seq<bool>, b: bool, c: seq<bool>)
    ensures a + ([b] + c) == (a + [b]) + c
  {
  }

  lemma Moved(a: seq<Byte>, b: Byte, c: seq<Byte>)
    ensures a + ([b] + c) == (a + [b]) + c
  {
  }

  /** Room for one more bit in the last byte. */
  ghost predicate Roomy(data: seq<Byte>, length: nat) {
    length / 8 + 1 == |data| && forall i :: length <= i < 8 * |data| ==> !AllBits(data)[i]
  }

  lemma BitRoom(data: seq<Byte>, length: nat)
    requires Clean(data, length)
    ensures var d := if length % 8 == 0 then data + [0] else data;
            Roomy(d, length) && Contents(d, length) == Contents(data, length)
  {
    if length % 8 == 0 {
      AllBitsLast(data, 0);
      ZeroBits(8);
      assert AllBits(data + [0])[..length] == AllBits(data)[..length];
    }
  }

  lemma BitWritten(data: seq<Byte>, length: nat, value: bool)
    requires Roomy(data, length)
    ensures Pow2(7 - length % 8) < 256
    ensures var d := if value then data[length / 8 := OrByte(data[length / 8], Pow2(7 - length % 8))] else data;
            Clean(d, length + 1) && Contents(d, length + 1) == Contents(data, length) + [value]
  {
    var pre, last, k := data[..|data| - 1], data[|data| - 1], length % 8;
    assert data == pre + [last];
    BitSet(pre, last, k);
    if value {
      var d := data[length / 8 := OrByte(data[length / 8], Pow2(7 - k))];
      assert d == pre + [OrByte(last, Pow2(7 - k))];
      assert AllBits(d) == AllBits(data)[length := true];
    }
  }

  /** One byte less. */
  lemma OneByteDown(value: nat, i: nat)
    ensures ShiftDown(value, 8 * i) / 256 == ShiftDown(value, 8 * (i + 1))
  {
    BytePow();
    ShiftDownIs(ShiftDown(value, 8 * i), 8);
    DownTwice(value, 8 * i, 8);
  }

  lemma AlignedLength(data: seq<Byte>, length: nat)
    requires Clean(data, length) && length % 8 == 0
    ensures length == 8 * |data|
  {
  }

  lemma WholeIsHalf(length: nat, n: nat)
    requires length % 8 == 0
    ensures (length + 8 * n) % 4 == 0
  {
  }

  lemma AlignedAppend(data: seq<Byte>, s: seq<Byte>)
    ensures Clean(data + s, 8 * |data| + 8 * |s|)
    ensures Contents(data + s, 8 * |data| + 8 * |s|) == Contents(data, 8 * |data|) + AllBits(s)
  {
    AllBitsConcat(data, s);
    WholeBytes(data);
    var all := data + s;
    WholeBytes(all);
    assert 8 * |all| == 8 * |data| + 8 * |s|;
  }

  lemma WholeBytes(data: seq<Byte>)
    ensures Clean(data, 8 * |data|) && Contents(data, 8 * |data|) == AllBits(data)
  {
    assert AllBits(data)[..8 * |data|] == AllBits(data);
  }

  lemma Joined(a: seq<bool>, b: seq<bool>, c: seq<bool>)
    ensures a + b + c == a + (b + c)
  {
  }

  class MemoryOutputStream {
    var data: seq<Byte>
    var length: nat

    ghost predicate Valid()
      reads this
    {
      Clean(data, length)
    }

    ghost function Bits(): seq<bool>
      reads this
      requires Valid()
    {
      Contents(data, length)
    }

    constructor ()
      ensures Valid() && Bits() == [] && length == 0
    {
      data, length := [], 0;
    }

    method WriteBit(value: bool)
      requires Valid()
      modifies this
      ensures Valid() && Bits() == old(Bits()) + [value] && length == old(length) + 1
    {
      var byteIndex, bitIndex := length / 8, length % 8;
      BitRoom(data, length);
      if bitIndex == 0 {
        data := data + [0];
      }
      BitWritten(data, length, value);
      if value {
        data := data[byteIndex := OrByte(data[byteIndex], Pow2(7 - bitIndex))];
      }
      length := length + 1;
    }

    /** The data hold the bits written and less than a byte more, whatever its bits are. */
    ghost predicate Sized()
      reads this
    {
      length <= 8 * |data| < length + 8
    }

    /** A byte, at any position; it is appended exactly where the shifts agree, in particular where
        the position is a multiple of four bits. */
    method WriteByte(value: Byte)
      requires Sized()
      modifies this
      ensures Sized() && data == AfterByte(old(data), old(length), value) && length == old(length) + 8
      ensures old(Valid()) ==>
                (ShiftsAgree(old(data), old(length), value) <==> Valid() && Bits() == old(Bits()) + ToBits(value, 8))
      ensures old(Valid()) && old(length) % 4 == 0 ==> Valid() && Bits() == old(Bits()) + ToBits(value, 8)
    {
      if Clean(data, length) {
        ByteAppended(data, length, value);
        if length % 4 == 0 { AfterByteContents(data, length, value); }
      }
      PutByte(value);
    }

    /** The byte put into the data, whatever is there. */
    method PutByte(value: Byte)
      requires Sized()
      modifies this
      ensures Sized() && data == AfterByte(old(data), old(length), value) && length == old(length) + 8
    {
      if length % 8 == 0 {
        data := data + [value];
      } else {
        var l1 := length % 8;
        var l2 := 8 - l1;
        data := data[|data| - 1 := OrByte(data[|data| - 1], HighPart(value, l2))];
        data := data + [LowPart(value, l1)];
      }
      length := length + 8;
    }

    /** writeUint16Be to writeUint64Be: n bytes, the high one first. */
    method WriteUintBe(value: nat, n: nat)
      requires Sized()
      modifies this
      ensures Sized() && data == AfterBytes(old(data), old(length), BeBytes(value, n)) && length == old(length) + 8 * n
      ensures old(Valid()) && old(length) % 4 == 0 ==> Valid() && Bits() == old(Bits()) + ToBits(value, 8 * n)
    {
      WriteHighFirst(value, n);
      BeBytesBits(value, n);
      WordWritten(old(data), old(length), BeBytes(value, n));
    }

    method WriteHighFirst(value: nat, n: nat)
      requires Sized()
      modifies this
      ensures Written(old(data), old(length), BeBytes(value, n))
    {
      var i := n;
      ghost var written: seq<Byte> := [];
      while i > 0
        invariant 0 <= i <= n && Written(old(data), old(length), written)
        invariant written == BeBytes(ShiftDown(value, 8 * i), n - i)
      {
        i := i - 1;
        HighFirst(value, n, i);
        written := WriteNext(old(data), old(length), written, ShiftDown(value, 8 * i) % 256);
      }
    }

    /** The bytes written since the stream held the given data. */
    ghost predicate Written(data0: seq<Byte>, length0: nat, bs: seq<Byte>)
      requires length0 <= 8 * |data0|
      reads this
    {
      Sized() && data == AfterBytes(data0, length0, bs) && length == length0 + 8 * |bs|
    }

    method WriteNext(ghost data0: seq<Byte>, ghost length0: nat, ghost bs: seq<Byte>, b: Byte)
        returns (ghost bs': seq<Byte>)
      requires length0 <= 8 * |data0| && Written(data0, length0, bs)
      modifies this
      ensures Written(data0, length0, bs') && bs' == bs + [b]
    {
      NextWritten(data0, length0, bs, b);
      PutByte(b);
      bs' := bs + [b];
    }

    /** writeUint16Le to writeUint64Le: the low byte first. */
    method WriteUintLe(value: nat, n: nat)
      requires Sized()
      modifies this
      ensures Sized() && data == AfterBytes(old(data), old(length), LeBytes(value, n)) && length == old(length) + 8 * n
      ensures old(Valid()) && old(length) % 4 == 0 ==> Valid() && Bits() == old(Bits()) + LeBits(value, n)
    {
      var v := value;
      ghost var written: seq<Byte> := [];
      for i := 0 to n
        invariant Written(old(data), old(length), written) && |written| == i
        invariant written + LeBytes(v, n - i) == LeBytes(value, n)
      {
        Moved(written, v % 256, LeBytes(v / 256, n - i - 1));
        written := WriteNext(old(data), old(length), written, v % 256);
        v := v / 256;
      }
      assert written == LeBytes(value, n);
      LeBytesBits(value, n);
      WordWritten(old(data), old(length), LeBytes(value, n));
    }

    /** writeNBitsOfUint64Be; it fails for 0 and above 64. */
    method WriteNBits(value: nat, n: nat) returns (ok: bool)
      requires Valid() && (n <= 32 || n > 64)
      modifies this
      ensures ok <==> 1 <= n <= 64
      ensures Valid() && Bits() == old(Bits()) + (if ok then Masked(value, Mask(n), n) else [])
      ensures 1 <= n <= 31 ==> Bits() == old(Bits()) + ToBits(value, n)
    {
      if n == 0 || n > 64 { return false; }
      ok := true;
      var mask := Mask(n);
      for i := 0 to n
        invariant Valid() && Bits() + Masked(value, mask, n - i) == old(Bits()) + Masked(value, Mask(n), n)
      {
        MovedBit(Bits(), BitAnd(value, mask) != 0, Masked(value, mask / 2, n - i - 1));
        WriteBit(BitAnd(value, mask) != 0);
        mask := mask / 2;
      }
      NothingMore(Bits(), Masked(value, mask, 0));
      if n <= 31 { NarrowField(value, n); }
    }

    method WriteBytes(s: seq<Byte>)
      requires Valid() && length % 8 == 0
      modifies this
      ensures Valid() && Bits() == old(Bits()) + AllBits(s) && length == old(length) + 8 * |s| && length % 4 == 0
    {
      AlignedLength(data, length);
      AlignedAppend(data, s);
      WholeIsHalf(length, |s|);
      data := data + s;
      length := length + 8 * |s|;
    }

    method WriteString(s: seq<Byte>)
      requires Valid() && length % 8 == 0
      modifies this
      ensures Valid() && Bits() == old(Bits()) + AllBits(s + [0]) && length == old(length) + 8 * |s| + 8
    {
      AllBitsLast(s, 0);
      Joined(Bits(), AllBits(s), ToBits(0, 8));
      WriteBytes(s);
      WriteByte(0);
    }

    /** writeByte where the byte is appended. */
  }

  // ------------------------------------------------------------ the input stream

  class MemoryInputStream {
    const data: seq<Byte>
    const length: nat
    var position: nat
    var isReadBeyondEnd: bool

    ghost predicate Valid()
      reads this
    {
      position <= length <= 8 * |data|
    }

    /** All bits of the stream. */
    ghost function Bits(): seq<bool>
      requires length <= 8 * |data|
    {
      Contents(data, length)
    }

    constructor (data: seq<Byte>, length: nat)
      requires length <= 8 * |data|
      ensures Valid() && this.data == data && this.length == length && position == 0 && !isReadBeyondEnd
    {
      this.data, this.length := data, length;
      position, isReadBeyondEnd := 0, false;
    }

    method ReadBit() returns (b: bool)
      requires Valid()
      modifies this
      ensures Valid()
      ensures if old(position) == length then !b && isReadBeyondEnd && position == length
              else && b == Bits()[old(position)] && position == old(position) + 1
                   && isReadBeyondEnd == old(isReadBeyondEnd)
    {
      if position == length {
        isReadBeyondEnd := true;
        return false;
      }
      var byteIndex, bitIndex := position / 8, position % 8;
      BitsOfByte(data, byteIndex);
      MaskedBit(data[byteIndex], 8, bitIndex);
      assert AllBits(data)[position] == AllBits(data)[8 * byteIndex..8 * byteIndex + 8][bitIndex];
      position := position + 1;
      b := BitAnd(data[byteIndex], Pow2(7 - bitIndex)) != 0;
    }

    /** The next eight bits, at any position. */
    method ReadByte() returns (v: Byte)
      requires Valid()
      modifies this
      ensures Valid()
      ensures if old(position) + 8 > length then v == 0 && isReadBeyondEnd && position == length
              else ToBits(v, 8) == Bits()[old(position)..old(position) + 8] && position == old(position) + 8
                   && isReadBeyondEnd == old(isReadBeyondEnd)
    {
      if position + 8 > length {
        isReadBeyondEnd := true;
        position := length;
        return 0;
      }
      assert Bits()[position..position + 8] == AllBits(data)[position..position + 8];
      v := ByteAt();
      position := position + 8;
    }

    method ByteAt() returns (v: Byte)
      requires Valid() && position + 8 <= length
      ensures ToBits(v, 8) == AllBits(data)[position..position + 8]
    {
      BytesAround(position);
      if position % 8 == 0 {
        BitsAt(data, position / 8, position);
        v := data[position / 8];
      } else {
        v := ByteAcross(position % 8);
      }
    }

    method ByteAcross(l1: nat) returns (v: Byte)
      requires Valid() && position + 8 <= length && l1 == position % 8 != 0
      ensures ToBits(v, 8) == AllBits(data)[position..position + 8]
    {
      BytesAround(position);
      var l2 := 8 - l1;
      Across(data, position / 8, position, l1);
      v := OrByte(ShiftUp(data[(position - l1) / 8], l1) % 256, ShiftDown(data[(position + l2) / 8], l2));
    }

    /** readUint16Be to readUint64Be. */
    method ReadUintBe(n: nat) returns (value: nat)
      requires Valid()
      modifies this
      ensures Valid()
      ensures if old(position) + 8 * n > length then isReadBeyondEnd
              else value < Pow2(8 * n) && ToBits(value, 8 * n) == Bits()[old(position)..old(position) + 8 * n]
                   && position == old(position) + 8 * n && isReadBeyondEnd == old(isReadBeyondEnd)
    {
      value := 0;
      ghost var acc: nat, p := 0, position;
      ZeroUp(8 * n);
      for i := 0 to n
        invariant Valid() && value == ShiftUp(acc, 8 * (n - i))
        invariant if p + 8 * i > length then isReadBeyondEnd
                  else position == p + 8 * i && isReadBeyondEnd == old(isReadBeyondEnd) && Holds(acc, 8 * i, Bits(), p)
      {
        value, acc := AddHigh(value, n, i, acc, p);
      }
      assert ShiftUp(acc, 0) == acc;
    }

    /** One byte of such a word: value |= readByte() << 8 * (n - 1 - i). */
    method AddHigh(value: nat, n: nat, i: nat, ghost acc: nat, ghost p: nat) returns (value': nat, ghost acc': nat)
      requires Valid() && i < n && value == ShiftUp(acc, 8 * (n - i))
      requires p + 8 * i <= length ==> position == p + 8 * i && Holds(acc, 8 * i, Bits(), p)
      modifies this
      ensures Valid() && value' == ShiftUp(acc', 8 * (n - i - 1))
      ensures isReadBeyondEnd == (old(isReadBeyondEnd) || old(position) + 8 > length)
      ensures p + 8 * (i + 1) <= length ==> position == p + 8 * (i + 1) && Holds(acc', 8 * (i + 1), Bits(), p)
    {
      var b := ReadByte();
      HighByte(acc, b, n, i);
      if p + 8 * (i + 1) <= length { HoldsByte(acc, b, i, Bits(), p); }
      value' := BitOr(value, ShiftUp(b, 8 * (n - 1 - i)));
      acc' := ShiftUp(acc, 8) + b;
    }

    /** readUint16Le to readUint64Le. */
    method ReadUintLe(n: nat) returns (value: nat)
      requires Valid()
      modifies this
      ensures Valid()
      ensures if old(position) + 8 * n > length then isReadBeyondEnd
              else value < Pow2(8 * n) && LeBits(value, n) == Bits()[old(position)..old(position) + 8 * n]
                   && position == old(position) + 8 * n && isReadBeyondEnd == old(isReadBeyondEnd)
    {
      value := 0;
      ghost var p := position;
      assert Pow2(0) == 1;
      for i := 0 to n
        invariant Valid() && value < Pow2(8 * i)
        invariant if p + 8 * i > length then isReadBeyondEnd
                  else && position == p + 8 * i && isReadBeyondEnd == old(isReadBeyondEnd)
                       && LeBits(value, i) == Bits()[p..p + 8 * i]
      {
        value := AddLow(value, i, p);
      }
    }

    /** One byte of such a word: value |= readByte() << 8 * i. */
    method AddLow(value: nat, i: nat, ghost p: nat) returns (value': nat)
      requires Valid() && value < Pow2(8 * i)
      requires p + 8 * i <= length ==> position == p + 8 * i && LeBits(value, i) == Bits()[p..p + 8 * i]
      modifies this
      ensures Valid() && value' < Pow2(8 * (i + 1))
      ensures isReadBeyondEnd == (old(isReadBeyondEnd) || old(position) + 8 > length)
      ensures p + 8 * (i + 1) <= length ==>
                position == p + 8 * (i + 1) && LeBits(value', i + 1) == Bits()[p..p + 8 * (i + 1)]
    {
      var b := ReadByte();
      value' := BitOr(value, ShiftUp(b, 8 * i));
      LeNext(value, b, i);
      if p + 8 * i + 8 <= length { NextLow(value, value', b, i, Bits(), p); }
    }

    /** readNBitsToUint64Be for the widths whose mask fits an int. */
    method ReadNBits(n: nat) returns (ok: bool, value: nat)
      requires Valid() && (n <= 32 || n > 64)
      modifies this
      ensures Valid() && (ok <==> 1 <= n <= 64)
      ensures !ok ==> position == old(position)
      ensures ok ==> if old(position) + n > length then isReadBeyondEnd
                     else value == Ored(Bits()[old(position)..old(position) + n], Mask(n))
                          && position == old(position) + n && isReadBeyondEnd == old(isReadBeyondEnd)
      ensures 1 <= n <= 31 && old(position) + n <= length ==>
                value < Pow2(n) && ToBits(value, n) == Bits()[old(position)..old(position) + n]
    {
      value := 0;
      if n == 0 || n > 64 { return false, 0; }
      ok := true;
      var mask := Mask(n);
      ghost var p := position;
      for i := 0 to n
        invariant Valid() && mask == ShiftDown(Mask(n), i)
        invariant if p + i > length then isReadBeyondEnd
                  else && position == p + i && isReadBeyondEnd == old(isReadBeyondEnd)
                       && value == Ored(Bits()[p..p + i], Mask(n))
      {
        value := AddBit(value, mask, Mask(n), i, p);
        mask := mask / 2;
      }
      if n <= 31 && p + n <= length { NarrowRead(Bits()[p..p + n]); }
    }

    /** One bit of such a field: if (readBit()) num |= mul. */
    method AddBit(value: nat, mask: nat, ghost mask0: nat, i: nat, ghost p: nat) returns (value': nat)
      requires Valid() && mask == ShiftDown(mask0, i)
      requires p + i <= length ==> position == p + i && value == Ored(Bits()[p..p + i], mask0)
      modifies this
      ensures Valid() && isReadBeyondEnd == (old(isReadBeyondEnd) || old(position) == length)
      ensures p + i + 1 <= length ==> position == p + i + 1 && value' == Ored(Bits()[p..p + i + 1], mask0)
    {
      var bit := ReadBit();
      value' := if bit then BitOr(value, mask) else value;
      if p + i + 1 <= length { OredNext(Bits(), p, i, mask0); }
    }

    /** Bytes up to a zero byte, or as many as there are before the end of the stream. */
    method ReadString() returns (s: seq<Byte>)
      requires Valid()
      modifies this
      ensures Valid() && Lie(s, Bits(), old(position))
      ensures var q := old(position) + 8 * |s|;
              if q + 8 > length then position == length && isReadBeyondEnd
              else Bits()[q..q + 8] == ToBits(0, 8) && position == q + 8 && isReadBeyondEnd == old(isReadBeyondEnd)
    {
      s := [];
      ghost var p := position;
      assert Bits()[p..p] == [];
      while true
        invariant Valid() && position == p + 8 * |s| && Lie(s, Bits(), p) && isReadBeyondEnd == old(isReadBeyondEnd)
        decreases length - position
      {
        var b := ReadByte();
        if b == 0 { return; }
        OneMoreLies(s, b, Bits(), p);
        s := s + [b];
      }
    }
  }

  /** The n bits from p on are those of v. */
  ghost predicate Holds(v: nat, n: nat, bits: seq<bool>, p: nat) {
    v < Pow2(n) && p + n <= |bits| && ToBits(v, n) == bits[p..p + n]
  }

  lemma {:induction false} ZeroUp(n: nat)
    ensures ShiftUp(0, n) == 0
  {
    if n > 0 { ZeroUp(n - 1); }
  }

  lemma HoldsNext(acc: nat, d: nat, n: nat, w: nat, bits: seq<bool>, p: nat)
    requires Holds(acc, n, bits, p) && d < Pow2(w) && p + n + w <= |bits| && ToBits(d, w) == bits[p + n..p + n + w]
    ensures Holds(ShiftUp(acc, w) + d, n + w, bits, p)
  {
    WordConcat(acc, d, n, w, bits[p..p + n], bits[p + n..p + n + w]);
    LongerSlice(bits, p, p + n, p + n + w);
  }

  lemma HoldsByte(acc: nat, b: Byte, i: nat, bits: seq<bool>, p: nat)
    requires Holds(acc, 8 * i, bits, p) && p + 8 * (i + 1) <= |bits|
    requires ToBits(b, 8) == bits[p + 8 * i..p + 8 * i + 8]
    ensures Holds(ShiftUp(acc, 8) + b, 8 * (i + 1), bits, p)
  {
    BytePow();
    HoldsNext(acc, b, 8 * i, 8, bits, p);
  }

  lemma HighByte(acc: nat, b: Byte, n: nat, i: nat)
    requires i < n
    ensures BitOr(ShiftUp(acc, 8 * (n - i)), ShiftUp(b, 8 * (n - 1 - i)))
            == ShiftUp(ShiftUp(acc, 8) + b, 8 * (n - 1 - i))
  {
    BytePow();
    NextDigit(acc, b, 8, 8 * (n - 1 - i));
  }

  lemma WordConcat(acc: nat, d: nat, n: nat, w: nat, a: seq<bool>, b: seq<bool>)
    requires acc < Pow2(n) && d < Pow2(w) && ToBits(acc, n) == a && ToBits(d, w) == b
    ensures ToBits(ShiftUp(acc, w) + d, n + w) == a + b && ShiftUp(acc, w) + d < Pow2(n + w)
  {
    WordValue(acc, d, n, w, a, b);
    ToFrom(a + b);
    assert |a + b| == n + w;
  }

  lemma WordValue(acc: nat, d: nat, n: nat, w: nat, a: seq<bool>, b: seq<bool>)
    requires acc < Pow2(n) && d < Pow2(w) && ToBits(acc, n) == a && ToBits(d, w) == b
    ensures FromBits(a + b) == ShiftUp(acc, w) + d
  {
    FromTo(acc, n);
    FromTo(d, w);
    FromConcat(a, b);
  }

  lemma SubSlice(bits: seq<bool>, a: nat, b: nat, c: nat, d: nat)
    requires a <= b <= |bits| && c <= d <= b - a
    ensures bits[a..b][c..d] == bits[a + c..a + d]
  {
    var s, t := bits[a..b][c..d], bits[a + c..a + d];
    assert |s| == |t|;
    forall k | 0 <= k < |s| ensures s[k] == t[k] {
      assert s[k] == bits[a..b][c + k];
    }
  }

  lemma LongerSlice(bits: seq<bool>, p: nat, q: nat, r: nat)
    requires p <= q <= r <= |bits|
    ensures bits[p..r] == bits[p..q] + bits[q..r]
  {
  }

  /** A byte above the i low ones. */
  lemma LeNext(value: nat, b: Byte, i: nat)
    requires value < Pow2(8 * i)
    ensures BitOr(value, ShiftUp(b, 8 * i)) < Pow2(8 * (i + 1))
    ensures LeBits(BitOr(value, ShiftUp(b, 8 * i)), i + 1) == LeBits(value, i) + ToBits(b, 8)
  {
    LeSum(value, b, 8 * i);
    LeAppended(BitOr(value, ShiftUp(b, 8 * i)), value, b, i);
  }

  lemma LeAppended(v: nat, value: nat, b: Byte, i: nat)
    requires value < Pow2(8 * i) && v == ShiftUp(b, 8 * i) + value
    ensures LeBits(v, i + 1) == LeBits(value, i) + ToBits(b, 8)
  {
    LeAppend(value, b, i);
  }

  lemma LeSum(value: nat, b: Byte, k: nat)
    requires value < Pow2(k)
    ensures BitOr(value, ShiftUp(b, k)) == ShiftUp(b, k) + value < Pow2(8 + k)
  {
    OrDisjoint(b, value, k);
    OrCommutes(value, ShiftUp(b, k));
    BytePow();
    Pow2Sum(8, k);
    ShiftUpIs(b, k);
    Scale(b, 255, Pow2(k));
  }

  lemma NextLow(value: nat, value': nat, b: Byte, i: nat, bits: seq<bool>, p: nat)
    requires p + 8 * i + 8 <= |bits| && LeBits(value, i) == bits[p..p + 8 * i]
             && ToBits(b, 8) == bits[p + 8 * i..p + 8 * i + 8]
    requires LeBits(value', i + 1) == LeBits(value, i) + ToBits(b, 8)
    ensures p + 8 * (i + 1) == p + 8 * i + 8 && LeBits(value', i + 1) == bits[p..p + 8 * (i + 1)]
  {
    LongerSlice(bits, p, p + 8 * i, p + 8 * i + 8);
  }

  lemma {:induction false} LeAppend(value: nat, b: Byte, i: nat)
    requires value < Pow2(8 * i)
    ensures LeBits(ShiftUp(b, 8 * i) + value, i + 1) == LeBits(value, i) + ToBits(b, 8)
    decreases i
  {
    if i == 0 {
      LeFirst(value, b);
    } else {
      LeParts(value, b, i);
      LeAppend(value / 256, b, i - 1);
      LeLater(value, b, i);
    }
  }

  lemma LeLater(value: nat, b: Byte, i: nat)
    requires i > 0 && value < Pow2(8 * i)
    requires LeBits(ShiftUp(b, 8 * (i - 1)) + value / 256, i) == LeBits(value / 256, i - 1) + ToBits(b, 8)
    ensures LeBits(ShiftUp(b, 8 * i) + value, i + 1) == LeBits(value, i) + ToBits(b, 8)
  {
    LeParts(value, b, i);
    LeStepped(ShiftUp(b, 8 * i) + value, ShiftUp(b, 8 * (i - 1)) + value / 256, value, b, i);
  }

  lemma LeStepped(v: nat, w: nat, value: nat, b: Byte, i: nat)
    requires i > 0 && v % 256 == value % 256 && v / 256 == w
    requires LeBits(w, i) == LeBits(value / 256, i - 1) + ToBits(b, 8)
    ensures LeBits(v, i + 1) == LeBits(value, i) + ToBits(b, 8)
  {
    LeCarry(v, value, b, i);
  }

  lemma LeFirst(value: nat, b: Byte)
    requires value < Pow2(0)
    ensures LeBits(ShiftUp(b, 0) + value, 1) == LeBits(value, 0) + ToBits(b, 8)
  {
    LeStep(b, 1);
    assert LeBits(b / 256, 0) == [] && LeBits(value, 0) == [];
  }

  lemma LeCarry(v: nat, value: nat, b: Byte, i: nat)
    requires i > 0 && v % 256 == value % 256 && LeBits(v / 256, i) == LeBits(value / 256, i - 1) + ToBits(b, 8)
    ensures LeBits(v, i + 1) == LeBits(value, i) + ToBits(b, 8)
  {
    LeStep(v, i + 1);
    LeStep(value, i);
    Joined(ToBits(value % 256, 8), LeBits(value / 256, i - 1), ToBits(b, 8));
  }

  lemma LeStep(v: nat, n: nat)
    requires n > 0
    ensures LeBits(v, n) == ToBits(v % 256, 8) + LeBits(v / 256, n - 1)
  {
  }

  lemma NothingMore(a: seq<bool>, b: seq<bool>)
    requires b == []
    ensures a + b == a
  {
  }

  lemma LeParts(value: nat, b: Byte, i: nat)
    requires i > 0 && value < Pow2(8 * i)
    ensures var v := ShiftUp(b, 8 * i) + value;
            && v % 256 == value % 256 && v / 256 == ShiftUp(b, 8 * (i - 1)) + value / 256
            && value / 256 < Pow2(8 * (i - 1))
  {
    var low := ShiftUp(b, 8 * (i - 1));
    UpTwice(b, 8 * (i - 1), 8);
    BytePow();
    ShiftUpIs(low, 8);
    Pow2Sum(8, 8 * (i - 1));
    ByteAbove(low, value);
    QuotientBelow(value, Pow2(8 * (i - 1)));
  }

  lemma QuotientBelow(value: nat, p: nat)
    requires value < 256 * p
    ensures value / 256 < p
  {
  }

  lemma ByteAbove(low: nat, value: nat)
    ensures (low * 256 + value) / 256 == low + value / 256 && (low * 256 + value) % 256 == value % 256
  {
  }

  /** The bytes of s lie at p, and none of them is zero. */
  ghost predicate Lie(s: seq<Byte>, bits: seq<bool>, p: nat) {
    (forall i :: 0 <= i < |s| ==> s[i] != 0) && p + 8 * |s| <= |bits| && bits[p..p + 8 * |s|] == AllBits(s)
  }

  lemma OneMoreLies(s: seq<Byte>, b: Byte, bits: seq<bool>, p: nat)
    requires Lie(s, bits, p) && b != 0
    requires p + 8 * |s| + 8 <= |bits| && ToBits(b, 8) == bits[p + 8 * |s|..p + 8 * |s| + 8]
    ensures Lie(s + [b], bits, p)
  {
    AllBitsLast(s, b);
    LongerSlice(bits, p, p + 8 * |s|, p + 8 * |s| + 8);
  }

  lemma LieByte(s: seq<Byte>, bits: seq<bool>, p: nat, i: nat)
    requires Lie(s, bits, p) && i < |s|
    ensures p + 8 * i + 8 <= |bits| && ToBits(s[i], 8) == bits[p + 8 * i..p + 8 * i + 8]
  {
    BitsAt(s, i, 8 * i);
    SubSlice(bits, p, p + 8 * |s|, 8 * i, 8 * i + 8);
  }

  /** A string and its zero byte can be read in one way only. */
  lemma SameString(s: seq<Byte>, t: seq<Byte>, bits: seq<bool>, p: nat)
    requires Comes(s, bits, p) && Lie(t, bits, p)
    requires p + 8 * |t| + 8 <= |bits| ==> bits[p + 8 * |t|..p + 8 * |t| + 8] == ToBits(0, 8)
    ensures t == s
  {
    if |t| < |s| { ComesByte(s, bits, p, |t|); }
    if |t| > |s| {
      ComesByte(s, bits, p, |s|);
      LieByte(t, bits, p, |s|);
    }
    forall i | 0 <= i < |s| && i < |t| ensures t[i] == s[i] {
      ComesByte(s, bits, p, i);
      LieByte(t, bits, p, i);
    }
  }

  /** A string without zero bytes and its terminator lie ahead. */
  ghost predicate Comes(s: seq<Byte>, bits: seq<bool>, p: nat) {
    && (forall i :: 0 <= i < |s| ==> s[i] != 0)
    && p + 8 * |s| + 8 <= |bits| && bits[p..p + 8 * |s| + 8] == AllBits(s + [0])
  }

  lemma ComesByte(s: seq<Byte>, bits: seq<bool>, p: nat, i: nat)
    requires Comes(s, bits, p) && i <= |s|
    ensures p + 8 * i + 8 <= |bits|
    ensures forall b: Byte :: ToBits(b, 8) == bits[p + 8 * i..p + 8 * i + 8] ==> b == if i < |s| then s[i] else 0
  {
    ComesSlice(s, bits, p, i);
    forall b: Byte | ToBits(b, 8) == bits[p + 8 * i..p + 8 * i + 8] ensures b == if i < |s| then s[i] else 0 {
      SameByte(b, (s + [0])[i]);
    }
  }

  lemma SameByte(b: Byte, c: Byte)
    requires ToBits(b, 8) == ToBits(c, 8)
    ensures b == c
  {
    BytePow();
    FromTo(b, 8);
    FromTo(c, 8);
  }

  lemma ComesSlice(s: seq<Byte>, bits: seq<bool>, p: nat, i: nat)
    requires Comes(s, bits, p) && i <= |s|
    ensures p + 8 * i + 8 <= |bits| && bits[p + 8 * i..p + 8 * i + 8] == ToBits((s + [0])[i], 8)
  {
    var t := s + [0];
    BitsAt(t, i, 8 * i);
    SubSlice(bits, p, p + 8 * |s| + 8, 8 * i, 8 * i + 8);
  }

  lemma BytesAround(position: nat)
    ensures var i, l1 := position / 8, position % 8;
            position == 8 * i + l1 && 0 <= l1 < 8 && (position - l1) / 8 == i && (position + (8 - l1)) / 8 == i + 1
  {
  }

  lemma BitsAt(data: seq<Byte>, i: nat, b: nat)
    requires i < |data| && b == 8 * i
    ensures b + 8 <= |AllBits(data)| && AllBits(data)[b..b + 8] == ToBits(data[i], 8)
  {
    BitsOfByte(data, i);
  }

  /** Eight bits that begin within byte i, whose first bit is b. */
  lemma TwoBytes(data: seq<Byte>, i: nat, b: nat, l1: nat)
    requires 0 < l1 < 8 && b == 8 * i && b + l1 + 8 <= 8 * |data|
    ensures i + 1 < |data| && b + l1 + 8 <= |AllBits(data)|
    ensures AllBits(data)[b + l1..b + l1 + 8] == ToBits(data[i], 8)[l1..] + ToBits(data[i + 1], 8)[..l1]
  {
    BitsAt(data, i, b);
    BitsAt(data, i + 1, b + 8);
    Window(AllBits(data), b, l1);
  }

  /** The eight bits at position p, put together from the two bytes that hold them. */
  lemma Across(data: seq<Byte>, i: nat, p: nat, l1: nat)
    requires 0 < l1 < 8 && p == 8 * i + l1 && p + 8 <= 8 * |data|
    ensures i + 1 < |data| && 0 <= ShiftUp(data[i], l1) % 256 < 256 && 0 <= ShiftDown(data[i + 1], 8 - l1) < 256
    ensures ToBits(OrByte(ShiftUp(data[i], l1) % 256, ShiftDown(data[i + 1], 8 - l1)), 8) == AllBits(data)[p..p + 8]
  {
    TwoBytes(data, i, 8 * i, l1);
    ShiftedTogether(data[i], data[i + 1], l1);
  }

  lemma Window(all: seq<bool>, b: nat, l1: nat)
    requires l1 < 8 && b + 16 <= |all|
    ensures all[b + l1..b + l1 + 8] == all[b..b + 8][l1..] + all[b + 8..b + 8 + 8][..l1]
  {
  }

  /** (x << l1) | (y >> (8 - l1)), cut to a byte. */
  lemma ShiftedTogether(x: Byte, y: Byte, l1: nat)
    requires 0 < l1 < 8
    ensures 0 <= ShiftUp(x, l1) % 256 < 256 && 0 <= ShiftDown(y, 8 - l1) < 256
    ensures ToBits(OrByte(ShiftUp(x, l1) % 256, ShiftDown(y, 8 - l1)), 8) == ToBits(x, 8)[l1..] + ToBits(y, 8)[..l1]
  {
    BytePow();
    var a, b := ShiftUp(x, l1) % 256, ShiftDown(y, 8 - l1);
    ModBits(ShiftUp(x, l1), 8);
    UpBits(x, l1, 8);
    BitsTail(x, l1);
    DownBits(y, 8 - l1, 8);
    forall i | 0 <= i < 8 ensures ToBits(OrByte(a, b), 8)[i] == (ToBits(x, 8)[l1..] + ToBits(y, 8)[..l1])[i] {
      OrBits(a, b, 8, i);
    }
  }
}
