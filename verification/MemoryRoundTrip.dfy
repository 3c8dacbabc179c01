/** Writing a list of values and reading it back. */
module MemoryRoundTrip {
  import opened WordBits
  import opened BitStrings
  import opened MemoryStreams

  datatype Item =
    | Bit(b: bool)
    | SingleByte(v: Byte)
    | UintBe(word: nat, n: nat)
    | UintLe(word: nat, n: nat)
    | Field(word: nat, n: nat)
    | Text(s: seq<Byte>)

  /** Values that fit their width; fields have widths for which the mask fits an int, strings no zero byte. */
  ghost predicate Fits(x: Item) {
    match x
    case UintBe(word, n) => word < Pow2(8 * n)
    case UintLe(word, n) => word < Pow2(8 * n)
    case Field(word, n) => 1 <= n <= 31 && word < Pow2(n)
    case Text(s) => forall i :: 0 <= i < |s| ==> s[i] != 0
    case _ => true
  }

  function Encoded(x: Item): seq<bool> {
    match x
    case Bit(b) => [b]
    case SingleByte(v) => ToBits(v, 8)
    case UintBe(word, n) => ToBits(word, 8 * n)
    case UintLe(word, n) => LeBits(word, n)
    case Field(word, n) => ToBits(word, n)
    case Text(s) => AllBits(s + [0])
  }

  function AllEncoded(xs: seq<Item>): seq<bool> {
    if xs == [] then [] else AllEncoded(xs[..|xs| - 1]) + Encoded(xs[|xs| - 1])
  }

  /** Bytes and words begin at a multiple of four bits, strings at a byte. */
  predicate Placed(x: Item, position: nat) {
    match x
    case Bit(_) => true
    case Field(_, _) => true
    case Text(_) => position % 8 == 0
    case _ => position % 4 == 0
  }

  ghost predicate Writable(xs: seq<Item>) {
    forall i :: 0 <= i < |xs| ==> Fits(xs[i]) && Placed(xs[i], |AllEncoded(xs[..i])|)
  }

  method Write(out: MemoryOutputStream, x: Item)
    requires out.Valid() && Fits(x) && Placed(x, out.length)
    modifies out
    ensures out.Valid() && out.Bits() == old(out.Bits()) + Encoded(x)
  {
    match x {
      case Bit(b) => out.WriteBit(b);
      case SingleByte(v) => out.WriteByte(v);
      case UintBe(word, n) => out.WriteUintBe(word, n);
      case UintLe(word, n) => out.WriteUintLe(word, n);
      case Field(word, n) => var ok := out.WriteNBits(word, n);
      case Text(s) => out.WriteString(s);
    }
  }

  /** The encoding of x lies ahead in the stream. */
  ghost predicate Ahead(x: Item, bits: seq<bool>, p: nat) {
    p + |Encoded(x)| <= |bits| && bits[p..p + |Encoded(x)|] == Encoded(x)
  }

  /** Reads an item of the same kind and width. */
  method Read(inp: MemoryInputStream, x: Item) returns (y: Item)
    requires inp.Valid() && Fits(x) && Ahead(x, inp.Bits(), inp.position)
    modifies inp
    ensures inp.Valid() && y == x
    ensures inp.position == old(inp.position) + |Encoded(x)| && inp.isReadBeyondEnd == old(inp.isReadBeyondEnd)
  {
    match x {
      case Bit(_) =>
        assert inp.Bits()[inp.position..inp.position + 1][0] == inp.Bits()[inp.position];
        var b := inp.ReadBit();
        y := Bit(b);
      case SingleByte(v) =>
        var w := inp.ReadByte();
        BytePow();
        SameWord(v, w, 8);
        y := SingleByte(w);
      case UintBe(word, n) =>
        var w := inp.ReadUintBe(n);
        SameWord(word, w, 8 * n);
        y := UintBe(w, n);
      case UintLe(word, n) =>
        var w := inp.ReadUintLe(n);
        SameLe(word, w, n);
        y := UintLe(w, n);
      case Field(word, n) =>
        var ok, w := inp.ReadNBits(n);
        SameWord(word, w, n);
        y := Field(w, n);
      case Text(s) =>
        var t := ReadText(inp, s);
        y := Text(t);
    }
  }

  method ReadText(inp: MemoryInputStream, s: seq<Byte>) returns (t: seq<Byte>)
    requires inp.Valid() && Fits(Text(s)) && Ahead(Text(s), inp.Bits(), inp.position)
    modifies inp
    ensures inp.Valid() && t == s
    ensures inp.position == old(inp.position) + |Encoded(Text(s))| && inp.isReadBeyondEnd == old(inp.isReadBeyondEnd)
  {
    ghost var p := inp.position;
    t := inp.ReadString();
    SameString(s, t, inp.Bits(), p);
  }

  lemma SameWord(v: nat, w: nat, n: nat)
    requires v < Pow2(n) && w < Pow2(n) && ToBits(v, n) == ToBits(w, n)
    ensures v == w
  {
    FromTo(v, n);
    FromTo(w, n);
  }

  lemma {:induction false} SameLe(v: nat, w: nat, n: nat)
    requires v < Pow2(8 * n) && w < Pow2(8 * n) && LeBits(v, n) == LeBits(w, n)
    ensures v == w
    decreases n
  {
    if n == 0 {
      assert Pow2(0) == 1;
    } else {
      BytePow();
      Pow2Sum(8, 8 * (n - 1));
      QuotientBelow(v, Pow2(8 * (n - 1)));
      QuotientBelow(w, Pow2(8 * (n - 1)));
      assert LeBits(v, n)[..8] == ToBits(v % 256, 8) && LeBits(v, n)[8..] == LeBits(v / 256, n - 1);
      assert LeBits(w, n)[..8] == ToBits(w % 256, 8) && LeBits(w, n)[8..] == LeBits(w / 256, n - 1);
      SameWord(v % 256, w % 256, 8);
      SameLe(v / 256, w / 256, n - 1);
    }
  }

  lemma {:induction false} EncodedPrefixStep(xs: seq<Item>, i: nat)
    requires i < |xs|
    ensures AllEncoded(xs[..i]) <= AllEncoded(xs[..i + 1]) <= AllEncoded(xs)
    ensures AllEncoded(xs[..i + 1]) == AllEncoded(xs[..i]) + Encoded(xs[i])
    decreases |xs| - i
  {
    assert xs[..i + 1][..i] == xs[..i];
    if i + 1 < |xs| {
      EncodedPrefixStep(xs, i + 1);
    } else {
      assert xs[..i + 1] == xs;
    }
  }

  /** What was written is read back, in order, and nothing is left. */
  method RoundTrip(xs: seq<Item>) returns (ys: seq<Item>)
    requires Writable(xs)
    ensures ys == xs
  {
    var out := new MemoryOutputStream();
    WriteAll(out, xs);
    var inp := new MemoryInputStream(out.data, out.length);
    ys := ReadAll(inp, xs);
  }

  method WriteAll(out: MemoryOutputStream, xs: seq<Item>)
    requires out.Valid() && out.Bits() == [] && Writable(xs)
    modifies out
    ensures out.Valid() && out.Bits() == AllEncoded(xs)
  {
    for i := 0 to |xs|
      invariant out.Valid() && out.Bits() == AllEncoded(xs[..i])
    {
      assert |out.Bits()| == out.length;
      EncodedPrefixStep(xs, i);
      Write(out, xs[i]);
    }
    assert xs[..|xs|] == xs;
  }

  method ReadAll(inp: MemoryInputStream, xs: seq<Item>) returns (ys: seq<Item>)
    requires inp.Valid() && inp.Bits() == AllEncoded(xs) && inp.position == 0 && !inp.isReadBeyondEnd
    requires forall i :: 0 <= i < |xs| ==> Fits(xs[i])
    modifies inp
    ensures inp.Valid() && ys == xs && inp.position == inp.length && !inp.isReadBeyondEnd
  {
    ys := [];
    for i := 0 to |xs|
      invariant inp.Valid() && inp.Bits() == AllEncoded(xs)
      invariant ys == xs[..i] && inp.position == |AllEncoded(xs[..i])| && !inp.isReadBeyondEnd
    {
      var y := ReadNext(inp, xs, i);
      ys := ys + [y];
      OneMore(xs, i);
    }
    assert xs[..|xs|] == xs;
  }

  method ReadNext(inp: MemoryInputStream, xs: seq<Item>, i: nat) returns (y: Item)
    requires inp.Valid() && i < |xs| && Fits(xs[i]) && inp.Bits() == AllEncoded(xs)
             && inp.position == |AllEncoded(xs[..i])|
    modifies inp
    ensures inp.Valid() && y == xs[i] && inp.position == |AllEncoded(xs[..i + 1])|
    ensures inp.isReadBeyondEnd == old(inp.isReadBeyondEnd)
  {
    ItemAhead(xs, i);
    y := Read(inp, xs[i]);
  }

  lemma OneMore(xs: seq<Item>, i: nat)
    requires i < |xs|
    ensures xs[..i + 1] == xs[..i] + [xs[i]]
  {
  }

  lemma ItemAhead(xs: seq<Item>, i: nat)
    requires i < |xs|
    ensures Ahead(xs[i], AllEncoded(xs), |AllEncoded(xs[..i])|)
    ensures |AllEncoded(xs[..i + 1])| == |AllEncoded(xs[..i])| + |Encoded(xs[i])|
  {
    EncodedPrefixStep(xs, i);
    NextAhead(AllEncoded(xs[..i]), Encoded(xs[i]), AllEncoded(xs));
  }

  lemma NextAhead(a: seq<bool>, b: seq<bool>, all: seq<bool>)
    requires a + b <= all
    ensures |a| + |b| <= |all| && all[|a|..|a| + |b|] == b
  {
    assert all[..|a| + |b|] == a + b;
    assert all[|a|..|a| + |b|] == (a + b)[|a|..];
  }
}
