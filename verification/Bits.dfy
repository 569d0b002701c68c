// Bits, bytes and words as the C code handles them, and the byte utilities of
// examples/util_interdma.c. A char is an unsigned byte and the machine is
// little-endian.
module Bits {

  type byte = b: int | 0 <= b < 256

  // x >> k, arithmetic
  function Shr(x: int, k: nat): int
    decreases k
  {
    if k == 0 then x else Shr(x / 2, k - 1)
  }

  // (x >> k) & 1
  function Bit(x: int, k: nat): (b: byte)
    ensures b == 0 || b == 1
  {
    Shr(x, k) % 2
  }

  function Pow2(k: nat): (p: nat)
    ensures p > 0
  {
    if k == 0 then 1 else 2 * Pow2(k - 1)
  }

  function Reverse<X>(s: seq<X>): (r: seq<X>)
    ensures |r| == |s|
    ensures forall i :: 0 <= i < |s| ==> r[i] == s[|s| - 1 - i]
  {
    seq(|s|, i requires 0 <= i < |s| => s[|s| - 1 - i])
  }

  lemma ReverseTwice<X>(s: seq<X>)
    ensures Reverse(Reverse(s)) == s
  {
  }

  lemma HalveMod(x: int, p: nat)
    requires p > 0
    ensures x % (2 * p) == 2 * (x / 2 % p) + x % 2
  {
    var h := x / 2;
    var q, r := h / p, h % p;
    assert h == p * q + r;
    assert x == (2 * p) * q + (2 * r + x % 2) by {
      assert 2 * (p * q) == (2 * p) * q;
    }
    ModUnique(x, 2 * p, q, 2 * r + x % 2);
  }

  lemma ModUnique(x: int, m: nat, q: int, r: nat)
    requires r < m && x == m * q + r
    ensures x % m == r
  {
    var d := x / m - q;
    assert m * (x / m) + x % m == x;
    assert m * d == r - x % m by {
      assert m * d == m * (x / m) - m * q;
    }
    MulAtLeast(m, d);
  }

  lemma MulAtLeast(m: nat, d: int)
    ensures d >= 1 ==> m * d >= m
    ensures d <= -1 ==> m * d <= 0 - m
  {
  }

  // The bits of a byte, most significant first.
  function BitsOf(b: byte): (bits: seq<byte>)
    ensures |bits| == 8
  {
    seq(8, j requires 0 <= j < 8 => Bit(b, 7 - j))
  }

  // The number a bit sequence spells, most significant first.
  function Value(bits: seq<byte>): nat {
    if bits == [] then 0 else 2 * Value(bits[..|bits| - 1]) + bits[|bits| - 1] % 2
  }

  // Every byte becomes eight bits, most significant first.
  function Expand(pack: seq<byte>): (bits: seq<byte>)
    ensures |bits| == 8 * |pack|
  {
    seq(8 * |pack|, i requires 0 <= i < 8 * |pack| => Bit(pack[i / 8], 7 - i % 8))
  }

  // The byte that eight bits spell.
  function ByteAt(bits: seq<byte>, k: nat): byte
    requires k + 8 <= |bits|
  {
    ValueOfEight(bits[k..k + 8]);
    Value(bits[k..k + 8])
  }

  // Every eight bits become a byte.
  function Pack(bits: seq<byte>): (pack: seq<byte>)
    requires |bits| % 8 == 0
    ensures |pack| == |bits| / 8
  {
    seq(|bits| / 8, i requires 0 <= i < |bits| / 8 => ByteAt(bits, 8 * i))
  }

  lemma ValueBound(bits: seq<byte>)
    ensures Value(bits) < Pow2(|bits|)
  {
  }

  lemma ValueOfEight(bits: seq<byte>)
    requires |bits| == 8
    ensures Value(bits) < 256
  {
    ValueBound(bits);
    assert Pow2(8) == 256;
  }

  lemma {:induction false} ValueOfBits(b: byte)
    ensures Value(BitsOf(b)) == b
  {
    ValueOfPrefix(b, 8);
    assert BitsOf(b)[..8] == BitsOf(b);
  }

  // The first k bits spell the byte shifted down by the rest.
  lemma {:induction false} ValueOfPrefix(b: byte, k: nat)
    requires k <= 8
    ensures Value(BitsOf(b)[..k]) == Shr(b, 8 - k)
  {
    if k == 0 {
      ShrWholeByte(b);
    } else {
      ValueOfPrefix(b, k - 1);
      ShrMore(b, 8 - k);
      ValueStep(BitsOf(b), k - 1);
      Halve(Shr(b, 8 - k));
    }
  }

  lemma ValueStep(bits: seq<byte>, k: nat)
    requires k < |bits|
    ensures Value(bits[..k + 1]) == 2 * Value(bits[..k]) + bits[k] % 2
  {
    assert bits[..k + 1][..k] == bits[..k];
  }

  lemma Halve(y: int)
    ensures y == 2 * (y / 2) + y % 2
  {
  }

  lemma {:induction false} ShrMore(x: int, k: nat)
    ensures Shr(x, k + 1) == Shr(x, k) / 2
    decreases k
  {
    if k > 0 {
      ShrMore(x / 2, k - 1);
    }
  }

  lemma ShrWholeByte(b: byte)
    ensures Shr(b, 8) == 0
  {
    assert Pow2(8) == 256;
    ShrSmall(b, 8);
  }

  lemma {:induction false} ShrSmall(x: nat, k: nat)
    requires x < Pow2(k)
    ensures Shr(x, k) == 0
  {
    if k > 0 {
      ShrSmall(x / 2, k - 1);
    }
  }

  lemma ShrTwo(x: int, k: nat)
    ensures Shr(x, k + 2) == Shr(x / 4, k)
  {
    assert Shr(x, k + 2) == Shr(x / 2, k + 1) == Shr(x / 2 / 2, k);
    assert x / 2 / 2 == x / 4;
  }

  lemma ShrByte(x: int, k: nat)
    ensures Shr(x, k + 8) == Shr(x / 256, k)
  {
    ShrTwo(x, k + 6);
    ShrTwo(x / 4, k + 4);
    ShrTwo(x / 4 / 4, k + 2);
    ShrTwo(x / 4 / 4 / 4, k);
    assert x / 4 / 4 / 4 / 4 == x / 256;
  }

  // Only eight 0/1 bits spell a given byte.
  lemma {:induction false} BitsOfValue(bits: seq<byte>, x: nat, k: nat)
    requires k < |bits| && forall i :: 0 <= i < |bits| ==> bits[i] < 2
    requires x == Value(bits)
    ensures Bit(x, k) == bits[|bits| - 1 - k]
  {
    var n := |bits| - 1;
    if k > 0 {
      BitsOfValue(bits[..n], x / 2, k - 1);
    }
  }

  // Packing undoes expanding, for byte sequences of any length ...
  lemma PackExpand(pack: seq<byte>)
    ensures Pack(Expand(pack)) == pack
  {
    forall i | 0 <= i < |pack| ensures Pack(Expand(pack))[i] == pack[i] {
      ExpandSlice(pack, i);
      ValueOfBits(pack[i]);
    }
  }

  lemma ExpandSlice(pack: seq<byte>, i: nat)
    requires i < |pack|
    ensures Expand(pack)[8 * i..8 * i + 8] == BitsOf(pack[i])
  {
    forall j | 0 <= j < 8 ensures Expand(pack)[8 * i + j] == BitsOf(pack[i])[j] {
      assert (8 * i + j) / 8 == i && (8 * i + j) % 8 == j;
    }
  }

  // ... and expanding undoes packing, for 0/1 sequences.
  lemma ExpandPack(bits: seq<byte>)
    requires |bits| % 8 == 0 && forall i :: 0 <= i < |bits| ==> bits[i] < 2
    ensures Expand(Pack(bits)) == bits
  {
    forall i | 0 <= i < |bits| ensures Expand(Pack(bits))[i] == bits[i] {
      ByteBit(bits, 8 * (i / 8), i % 8);
    }
  }

  lemma ByteBit(bits: seq<byte>, k: nat, j: nat)
    requires k + 8 <= |bits| && j < 8 && forall i :: 0 <= i < |bits| ==> bits[i] < 2
    ensures Bit(ByteAt(bits, k), 7 - j) == bits[k + j]
  {
    BitsOfValue(bits[k..k + 8], ByteAt(bits, k), 7 - j);
  }

  /* ---- Words ---- */

  // The signed long whose bytes lie in memory in this order.
  function Load(bytes: seq<byte>): int
    requires bytes != []
  {
    if |bytes| == 1 then if bytes[0] < 128 then bytes[0] else bytes[0] - 256
    else bytes[0] + 256 * Load(bytes[1..])
  }

  // The bytes in which a word of n bytes is stored.
  function Store(x: int, n: nat): (bytes: seq<byte>)
    ensures |bytes| == n
  {
    seq(n, i requires 0 <= i < n => Shr(x, 8 * i) % 256)
  }

  lemma LowByte(b: byte, rest: int)
    ensures (b + 256 * rest) % 256 == b && (b + 256 * rest) / 256 == rest
  {
  }

  lemma LoadSplit(bytes: seq<byte>)
    requires bytes != []
    ensures Load(bytes) % 256 == bytes[0]
    ensures |bytes| > 1 ==> Load(bytes) / 256 == Load(bytes[1..])
  {
    LowByte(bytes[0], if |bytes| > 1 then Load(bytes[1..]) else if bytes[0] < 128 then 0 else -1);
  }

  lemma {:induction false} LoadAt(bytes: seq<byte>, i: nat)
    requires i < |bytes|
    ensures Shr(Load(bytes), 8 * i) % 256 == bytes[i]
  {
    LoadSplit(bytes);
    if i > 0 {
      LoadAt(bytes[1..], i - 1);
      ShrByte(Load(bytes), 8 * (i - 1));
    }
  }

  // Storing what was loaded gives the same bytes, whatever the sign.
  lemma StoreLoad(bytes: seq<byte>)
    requires bytes != []
    ensures Store(Load(bytes), |bytes|) == bytes
  {
    forall i | 0 <= i < |bytes| ensures Store(Load(bytes), |bytes|)[i] == bytes[i] {
      LoadAt(bytes, i);
    }
  }

  // s with the bytes put over it from position `at` on.
  function Overlay(s: seq<byte>, at: nat, bytes: seq<byte>): (r: seq<byte>)
    requires at + |bytes| <= |s|
    ensures |r| == |s|
  {
    s[..at] + bytes + s[at + |bytes|..]
  }

  lemma OverlayNext(s: seq<byte>, at: nat, a: seq<byte>, b: seq<byte>)
    requires at + |a| + |b| <= |s|
    ensures Overlay(Overlay(s, at, a), at + |a|, b) == Overlay(s, at, a + b)
  {
  }

  /* ---- The utilities ---- */

  // s after the outer j pairs of its first n elements from position `from` on
  // have been swapped.
  function Mirrored(s: seq<byte>, from: nat, n: nat, j: nat): (r: seq<byte>)
    requires from + n <= |s|
    ensures |r| == |s|
  {
    seq(|s|, k requires 0 <= k < |s| =>
      if from <= k < from + n && (k < from + j || k >= from + n - j) then s[from + n - 1 - (k - from)] else s[k])
  }

  function Swapped(s: seq<byte>, p: nat, q: nat): seq<byte>
    requires p < |s| && q < |s|
  {
    s[p := s[q]][q := s[p]]
  }

  lemma MirroredNext(s: seq<byte>, from: nat, n: nat, j: nat)
    requires from + n <= |s| && 2 * j < n
    ensures Mirrored(s, from, n, j + 1) == Swapped(Mirrored(s, from, n, j), from + j, from + n - 1 - j)
  {
    var p, q, m := from + j, from + n - 1 - j, Mirrored(s, from, n, j);
    assert m[p] == s[p] && m[q] == s[q];
    forall k | 0 <= k < |s| ensures Mirrored(s, from, n, j + 1)[k] == Swapped(m, p, q)[k] {
    }
  }

  lemma MirroredWhole(s: seq<byte>, from: nat, n: nat, j: nat)
    requires from + n <= |s| && n <= 2 * j + 1
    ensures Mirrored(s, from, n, j)[from..from + n] == Reverse(s[from..from + n])
    ensures Mirrored(s, from, n, j)[..from] == s[..from]
    ensures Mirrored(s, from, n, j)[from + n..] == s[from + n..]
  {
  }

  // The first len bytes, in reverse order.
  method RevertChar(data: array<byte>, len: nat, rData: array<byte>)
    requires len <= data.Length && len <= rData.Length && data != rData
    modifies rData
    ensures rData[..len] == Reverse(data[..len])
    ensures rData[len..] == old(rData[len..])
  {
    forall i | 0 <= i < len {
      rData[i] := data[i];
    }
    ghost var copied := rData[..];
    assert copied[..len] == data[..len] && copied[len..] == rData[len..];
    assert Mirrored(copied, 0, len, 0) == copied;
    var p, p1 := 0, len - 1;
    while p < p1
      invariant 0 <= p <= p1 + 2 && p + p1 == len - 1
      invariant rData[..] == Mirrored(copied, 0, len, p)
    {
      MirroredNext(copied, 0, len, p);
      var temp := rData[p];
      rData[p] := rData[p1];
      rData[p1] := temp;
      p, p1 := p + 1, p1 - 1;
    }
    MirroredWhole(copied, 0, len, p);
    assert rData[..len] == rData[..][..len] && rData[len..] == rData[..][len..];
  }

  // The bytes of a long, most significant first.
  method Long2Char(num: int, str: array<byte>)
    requires str.Length >= 8
    modifies str
    ensures str[..8] == Reverse(Store(num, 8))
    ensures str[8..] == old(str[8..])
  {
    for i := 0 to 8
      invariant forall j :: 0 <= j < i ==> str[j] == Store(num, 8)[7 - j]
      invariant str[8..] == old(str[8..])
    {
      str[i] := Shr(num, (7 - i) * 8) % 256;
    }
  }

  method Char2Bit(pack: array<byte>, len: nat, bitpack: array<byte>)
    requires len <= pack.Length && 8 * len <= bitpack.Length && pack != bitpack
    modifies bitpack
    ensures bitpack[..8 * len] == Expand(pack[..len])
    ensures bitpack[8 * len..] == old(bitpack[8 * len..])
  {
    for i := 0 to len * 8
      invariant forall j :: 0 <= j < i ==> bitpack[j] == Expand(pack[..len])[j]
      invariant forall j :: len * 8 <= j < bitpack.Length ==> bitpack[j] == old(bitpack[j])
    {
      var index := i / 8;
      bitpack[i] := Shr(pack[index], 7 - i % 8) % 2;
    }
  }

  // (x << 1) | (1 & b), stored in a char
  function PushBit(x: byte, b: byte): byte {
    var y: int := x;
    assert 2 * y % 256 == 2 * (y % 128);
    2 * y % 256 + b % 2
  }

  // What a byte that held x is after bits k to i - 1 have been shifted into it.
  function Shifted(x: byte, bits: seq<byte>, k: nat, i: nat): byte
    requires k <= i <= |bits|
  {
    if i == k then x else PushBit(Shifted(x, bits, k, i - 1), bits[i - 1])
  }

  function Doubled(x: nat, k: nat): nat {
    if k == 0 then x else 2 * Doubled(x, k - 1)
  }

  lemma {:induction false} ShiftedValue(x: byte, bits: seq<byte>, k: nat, i: nat)
    requires k <= i <= |bits|
    ensures Shifted(x, bits, k, i) == (Doubled(x, i - k) + Value(bits[k..i])) % 256
  {
    if k < i {
      ShiftedValue(x, bits, k, i - 1);
      ValueStep(bits[k..i], i - 1 - k);
      assert bits[k..i][..i - 1 - k] == bits[k..i - 1] && bits[k..i][..i - k] == bits[k..i];
      ShiftOne(Doubled(x, i - 1 - k) + Value(bits[k..i - 1]), bits[i - 1]);
    }
  }

  lemma DoubledEight(x: nat)
    ensures Doubled(x, 8) == 256 * x
  {
    assert Doubled(x, 1) == 2 * x;
    assert Doubled(x, 2) == 4 * x;
    assert Doubled(x, 3) == 8 * x;
    assert Doubled(x, 4) == 16 * x;
    assert Doubled(x, 5) == 32 * x;
    assert Doubled(x, 6) == 64 * x;
    assert Doubled(x, 7) == 128 * x;
  }

  lemma ShiftOne(y: nat, b: byte)
    ensures PushBit(y % 256, b) == (2 * y + b % 2) % 256
  {
    var q, r, v := y / 256, y % 256, b % 2;
    assert y == 256 * q + r;
    if r < 128 {
      ModUnique(2 * r, 256, 0, 2 * r);
      ModUnique(2 * y + v, 256, 2 * q, 2 * r + v);
    } else {
      ModUnique(2 * r, 256, 1, 2 * r - 256);
      ModUnique(2 * y + v, 256, 2 * q + 1, 2 * r - 256 + v);
    }
  }

  // Eight shifts replace whatever the byte held.
  lemma ShiftedEight(x: byte, bits: seq<byte>, k: nat)
    requires k + 8 <= |bits|
    ensures Shifted(x, bits, k, k + 8) == ByteAt(bits, k)
  {
    ShiftedValue(x, bits, k, k + 8);
    DoubledEight(x);
    ValueOfEight(bits[k..k + 8]);
    DropHigh(x, Value(bits[k..k + 8]));
  }

  lemma DropHigh(x: nat, v: nat)
    requires v < 256
    ensures (256 * x + v) % 256 == v
  {
  }

  method Bit2Char(bitpack: array<byte>, len: nat, pack: array<byte>)
    requires 8 * len <= bitpack.Length && len <= pack.Length && pack != bitpack
    modifies pack
    ensures pack[..len] == Pack(bitpack[..8 * len])
    ensures pack[len..] == old(pack[len..])
  {
    ghost var bits, was := bitpack[..8 * len], pack[..];
    for i := 0 to len * 8
      invariant forall j :: 0 <= j < i / 8 ==> pack[j] == ByteAt(bits, 8 * j)
      invariant i % 8 != 0 ==> pack[i / 8] == Shifted(was[i / 8], bits, i - i % 8, i)
      invariant forall j :: (i + 7) / 8 <= j < pack.Length ==> pack[j] == was[j]
    {
      var index := i / 8;
      pack[index] := PushBit(pack[index], bitpack[i]);
      if i % 8 == 7 {
        ShiftedEight(was[index], bits, 8 * index);
      }
    }
  }

  lemma ReversePrepend<X>(x: X, s: seq<X>)
    ensures Reverse([x] + s) == Reverse(s) + [x]
  {
  }
}
