// The 64-bit header that precedes a frame: built bit by bit, packed, sent, read
// back and parsed (examples/util_interdma.c, examples/interdma.c).
module HeaderCodec {
  import opened Bits

  datatype Mod = BPSK | QPSK | QAM16 | QAM64

  function Code(m: Mod): nat {
    match m case BPSK => 0 case QPSK => 1 case QAM16 => 2 case QAM64 => 3
  }

  // `struct MM2S_First` and `struct S2MM_First`
  datatype Sent = Sent(modulation: Mod, mb: int, ldpcNum: int)
  datatype Received = Received(crc: nat, ldpcTnum: nat, amp: nat, modu: nat, mb: nat, ldpcNum: nat)

  const PACK_LEN := 64

  // Bit i of the header of m, least significant first.
  function HeaderBit(m: Sent, i: nat): (b: byte)
    ensures b < 2
  {
    if i == 60 || i == 57 || i == 53 || i == 52 || i == 50 then 1
    else if 26 <= i <= 27 then Bit(Code(m.modulation), i - 26)
    else if 20 <= i <= 25 then Bit(m.mb, i - 20)
    else if 11 <= i <= 19 then Bit(m.ldpcNum, i - 11)
    else 0
  }

  function HeaderBits(m: Sent): (bits: seq<byte>)
    ensures |bits| == PACK_LEN
  {
    seq(PACK_LEN, i requires 0 <= i < PACK_LEN => HeaderBit(m, i))
  }

  // The eight header bytes, first byte first.
  function Header(m: Sent): (h: seq<byte>)
    ensures |h| == 8
  {
    Pack(Reverse(HeaderBits(m)))
  }

  // The number in bits hi down to lo of a sequence that is least significant
  // first.
  function Field(bits: seq<byte>, hi: int, lo: nat): nat
    requires lo - 1 <= hi < |bits|
  {
    Value(Reverse(bits[lo..hi + 1]))
  }

  lemma FieldStep(bits: seq<byte>, hi: nat, lo: nat)
    requires lo <= hi < |bits|
    ensures Field(bits, hi, lo) == 2 * Field(bits, hi, lo + 1) + bits[lo] % 2
  {
    var r := Reverse(bits[lo..hi + 1]);
    assert r[..|r| - 1] == Reverse(bits[lo + 1..hi + 1]);
  }

  // A field is its upper part shifted up, plus its lower part.
  lemma {:induction false} FieldSplit(bits: seq<byte>, hi: int, mid: nat, lo: nat)
    requires lo <= mid <= hi + 1 && hi < |bits|
    ensures Field(bits, hi, lo) == Field(bits, hi, mid) * Pow2(mid - lo) + Field(bits, mid - 1, lo)
    decreases mid - lo
  {
    if lo < mid {
      FieldSplit(bits, hi, mid, lo + 1);
      FieldStep(bits, hi, lo);
      FieldStep(bits, mid - 1, lo);
      TwicePower(Field(bits, hi, mid), mid - lo);
    }
  }

  lemma TwicePower(x: nat, k: nat)
    requires k > 0
    ensures x * Pow2(k) == 2 * (x * Pow2(k - 1))
  {
  }

  lemma FieldBound(bits: seq<byte>, hi: int, lo: nat)
    requires lo - 1 <= hi < |bits|
    ensures Field(bits, hi, lo) < Pow2(hi - lo + 1)
  {
    ValueBound(Reverse(bits[lo..hi + 1]));
  }

  lemma DivideShifted(a: nat, p: nat, l: nat)
    requires l < p
    ensures (a * p + l) / p == a && (a * p + l) % p == l
  {
    ModUnique(a * p + l, p, a, l);
    var x := a * p + l;
    assert p * (x / p) + x % p == x;
    assert p * (x / p) == p * a;
    SameFactor(p, x / p, a);
  }

  lemma SameFactor(p: nat, a: int, b: int)
    requires p > 0 && p * a == p * b
    ensures a == b
  {
    assert p * (a - b) == 0;
    MulAtLeast(p, a - b);
  }

  // A field in terms of the whole number.
  lemma FieldOfWhole(bits: seq<byte>, hi: nat, lo: nat)
    requires lo <= hi < |bits|
    ensures var x := Field(bits, |bits| - 1, 0);
            Field(bits, hi, lo) == x / Pow2(lo) % Pow2(hi - lo + 1)
  {
    var n := |bits| - 1;
    FieldSplit(bits, n, lo, 0);
    FieldBound(bits, lo - 1, 0);
    DivideShifted(Field(bits, n, lo), Pow2(lo), Field(bits, lo - 1, 0));
    FieldSplit(bits, n, hi + 1, lo);
    FieldBound(bits, hi, lo);
    DivideShifted(Field(bits, n, hi + 1), Pow2(hi + 1 - lo), Field(bits, hi, lo));
  }

  // A field that was filled with the low bits of x holds x modulo its size.
  lemma {:induction false} FieldOfInt(bits: seq<byte>, hi: int, lo: nat, x: int)
    requires lo - 1 <= hi < |bits|
    requires forall k :: 0 <= k <= hi - lo ==> bits[lo + k] == Bit(x, k)
    ensures Field(bits, hi, lo) == x % Pow2(hi - lo + 1)
    decreases hi - lo
  {
    if lo <= hi {
      forall k | 0 <= k <= hi - (lo + 1) ensures bits[lo + 1 + k] == Bit(x / 2, k) {
        assert bits[lo + (k + 1)] == Bit(x, k + 1);
      }
      FieldStep(bits, hi, lo);
      FieldOfInt(bits, hi, lo + 1, x / 2);
      HalveMod(x, Pow2(hi - lo));
      assert bits[lo + 0] == Bit(x, 0);
    }
  }

  lemma {:induction false} FieldOfZeros(bits: seq<byte>, hi: int, lo: nat)
    requires lo - 1 <= hi < |bits| && forall i :: lo <= i <= hi ==> bits[i] == 0
    ensures Field(bits, hi, lo) == 0
    decreases hi - lo
  {
    if lo <= hi {
      FieldStep(bits, hi, lo);
      FieldOfZeros(bits, hi, lo + 1);
    }
  }

  // `getHeadM2S` and `getHeadS2M`: the four nibbles read as decimal digits
  function Head(first: byte, second: byte): int {
    Shr(first, 4) % 256 * 1000 + first % 16 * 100 + Shr(second, 4) % 256 * 10 + second % 16
  }

  // What a receiver makes of 64 header bits, most significant first.
  function Parse(bits: seq<byte>): Received
    requires |bits| == PACK_LEN
  {
    var r := Reverse(bits);
    Received(Field(r, 39, 39), Field(r, 38, 30), Field(r, 29, 28), Field(r, 27, 26), Field(r, 25, 20),
             Field(r, 19, 11))
  }

  // What a receiver makes of any 64 bits, as parts of the number they spell.
  lemma ParseFields(bits: seq<byte>)
    requires |bits| == PACK_LEN
    ensures var x, r := Value(bits), Parse(bits);
            && r.crc == x / Pow2(39) % Pow2(1) && r.ldpcTnum == x / Pow2(30) % Pow2(9)
            && r.amp == x / Pow2(28) % Pow2(2) && r.modu == x / Pow2(26) % Pow2(2)
            && r.mb == x / Pow2(20) % Pow2(6) && r.ldpcNum == x / Pow2(11) % Pow2(9)
  {
    var r := Reverse(bits);
    assert Field(r, 63, 0) == Value(bits) by {
      assert r[0..64] == r;
      ReverseTwice(bits);
    }
    FieldOfWhole(r, 39, 39);
    FieldOfWhole(r, 38, 30);
    FieldOfWhole(r, 29, 28);
    FieldOfWhole(r, 27, 26);
    FieldOfWhole(r, 25, 20);
    FieldOfWhole(r, 19, 11);
  }

  // The number that the first eight bytes of a receive buffer spell, low byte
  // first.
  function Unsigned(wire: seq<byte>): nat {
    if wire == [] then 0 else wire[0] + 256 * Unsigned(wire[1..])
  }

  // The long they are loaded into is that number in two's complement.
  lemma {:induction false} LoadSigned(wire: seq<byte>)
    requires wire != []
    ensures Load(wire) == Unsigned(wire) - if wire[|wire| - 1] >= 128 then Pow2(8 * |wire|) else 0
  {
    if |wire| > 1 {
      LoadSigned(wire[1..]);
      PowerByte(8 * (|wire| - 1));
    } else {
      assert wire[1..] == [] && Pow2(8) == 256;
    }
  }

  lemma PowerByte(k: nat)
    ensures Pow2(k + 8) == 256 * Pow2(k)
  {
    assert Pow2(k + 2) == 4 * Pow2(k);
    assert Pow2(k + 4) == 4 * Pow2(k + 2);
    assert Pow2(k + 6) == 4 * Pow2(k + 4);
  }

  lemma ValueAppend(bits: seq<byte>, more: seq<byte>)
    ensures Value(bits + more) == Value(bits) * Pow2(|more|) + Value(more)
    decreases |more|
  {
    if more == [] {
      assert bits + more == bits;
    } else {
      var k := |more| - 1;
      ValueAppend(bits, more[..k]);
      assert (bits + more)[..|bits| + k] == bits + more[..k];
      TwicePower(Value(bits), |more|);
    }
  }

  // The bits the receiver expands from those bytes spell that number.
  lemma {:induction false} ExpandedValue(wire: seq<byte>)
    ensures Value(Expand(Reverse(wire))) == Unsigned(wire)
  {
    if wire != [] {
      ExpandedValue(wire[1..]);
      var front := Reverse(wire[1..]);
      assert Reverse(wire) == front + [wire[0]];
      ExpandLast(front, wire[0]);
      ValueAppend(Expand(front), BitsOf(wire[0]));
      ValueOfBits(wire[0]);
      assert Pow2(8) == 256;
    }
  }

  lemma ExpandLast(front: seq<byte>, b: byte)
    ensures Expand(front + [b]) == Expand(front) + BitsOf(b)
  {
    var all := Expand(front + [b]);
    forall i | 0 <= i < |all| ensures all[i] == (Expand(front) + BitsOf(b))[i] {
      if i < 8 * |front| {
        assert i / 8 < |front|;
      } else {
        assert i / 8 == |front| && i % 8 == i - 8 * |front|;
      }
    }
  }

  // So for any eight received bytes the six fields are those parts of their
  // little-endian number.
  lemma ReceivedFields(wire: seq<byte>)
    requires |wire| == 8
    ensures var x, r := Unsigned(wire), Parse(Expand(Reverse(wire)));
            && r.crc == x / Pow2(39) % Pow2(1) && r.ldpcTnum == x / Pow2(30) % Pow2(9)
            && r.amp == x / Pow2(28) % Pow2(2) && r.modu == x / Pow2(26) % Pow2(2)
            && r.mb == x / Pow2(20) % Pow2(6) && r.ldpcNum == x / Pow2(11) % Pow2(9)
  {
    ExpandedValue(wire);
    ParseFields(Expand(Reverse(wire)));
  }

  lemma ZeroFields(m: Sent)
    ensures var bits := HeaderBits(m);
            Field(bits, 39, 39) == 0 && Field(bits, 38, 30) == 0 && Field(bits, 29, 28) == 0
  {
    var bits := HeaderBits(m);
    FieldOfZeros(bits, 39, 39);
    FieldOfZeros(bits, 38, 30);
    FieldOfZeros(bits, 29, 28);
  }

  lemma ModulationField(m: Sent)
    ensures Field(HeaderBits(m), 27, 26) == Code(m.modulation)
  {
    FieldOfInt(HeaderBits(m), 27, 26, Code(m.modulation));
    assert Pow2(2) == 4;
  }

  lemma MbField(m: Sent)
    ensures Field(HeaderBits(m), 25, 20) == m.mb % 64
  {
    FieldOfInt(HeaderBits(m), 25, 20, m.mb);
    Powers();
  }

  lemma LdpcField(m: Sent)
    ensures Field(HeaderBits(m), 19, 11) == m.ldpcNum % 512
  {
    FieldOfInt(HeaderBits(m), 19, 11, m.ldpcNum);
    Powers();
  }

  // The parameters survive, the numbers modulo the size of their fields, and
  // the fields the sender does not fill are zero.
  lemma ParseHeader(m: Sent)
    ensures Parse(Expand(Header(m))) == Received(0, 0, 0, Code(m.modulation), m.mb % 64, m.ldpcNum % 512)
  {
    ExpandPack(Reverse(HeaderBits(m)));
    ReverseTwice(HeaderBits(m));
    ZeroFields(m);
    ModulationField(m);
    MbField(m);
    LdpcField(m);
  }

  lemma Powers()
    ensures Pow2(2) == 4 && Pow2(6) == 64 && Pow2(9) == 512
  {
    assert Pow2(4) == 16;
  }

  lemma ShrAll(x: byte)
    ensures Shr(x, 0) == x && Shr(x, 1) == x / 2 && Shr(x, 2) == x / 4 && Shr(x, 3) == x / 8
    ensures Shr(x, 4) == x / 16 && Shr(x, 5) == x / 32 && Shr(x, 6) == x / 64 && Shr(x, 7) == x / 128
  {
    ShrMore(x, 0);
    ShrMore(x, 1);
    ShrMore(x, 2);
    ShrMore(x, 3);
    ShrMore(x, 4);
    ShrMore(x, 5);
    ShrMore(x, 6);
  }

  lemma HeadBits()
    ensures BitsOf(0x12) == [0, 0, 0, 1, 0, 0, 1, 0]
    ensures BitsOf(0x34) == [0, 0, 1, 1, 0, 1, 0, 0]
    ensures Shr(0x12, 4) == 1 && Shr(0x34, 4) == 3
  {
    ShrAll(0x12);
    ShrAll(0x34);
  }

  // The first two bytes of every header are 0x12 and 0x34.
  lemma HeaderHead(m: Sent)
    ensures Header(m)[0] == 0x12 && Header(m)[1] == 0x34
    ensures Head(Header(m)[0], Header(m)[1]) == 1234
  {
    var r := Reverse(HeaderBits(m));
    HeadBits();
    assert Pack(r)[0] == ByteAt(r, 0) && Pack(r)[1] == ByteAt(r, 8);
    assert r[0..8] == BitsOf(0x12);
    assert r[8..16] == BitsOf(0x34);
    ValueOfBits(0x12);
    ValueOfBits(0x34);
  }

  // The whole header as one number: the head 0x1234, the three parameters, and
  // nothing else.
  lemma HeaderNumber(m: Sent)
    ensures Value(Reverse(HeaderBits(m)))
            == 0x1234 * Pow2(48) + Code(m.modulation) * Pow2(26) + m.mb % 64 * Pow2(20)
               + m.ldpcNum % 512 * Pow2(11)
  {
    hide Pow2;
    var b := HeaderBits(m);
    assert Field(b, 63, 0) == Value(Reverse(b)) by {
      assert b[0..64] == b;
    }
    HeadField(m);
    FieldSplit(b, 63, 48, 0);
    MiddleFields(m);
    LowFields(m);
  }

  lemma MiddleFields(m: Sent)
    ensures var b := HeaderBits(m);
            Field(b, 47, 0) == Code(m.modulation) * Pow2(26) + Field(b, 25, 0)
  {
    hide Pow2, Field;
    var b := HeaderBits(m);
    FieldSplit(b, 47, 28, 0);
    FieldOfZeros(b, 47, 28);
    FieldSplit(b, 27, 26, 0);
    ModulationField(m);
  }

  lemma LowFields(m: Sent)
    ensures Field(HeaderBits(m), 25, 0) == m.mb % 64 * Pow2(20) + m.ldpcNum % 512 * Pow2(11)
  {
    hide Pow2, Field;
    var b := HeaderBits(m);
    FieldSplit(b, 25, 20, 0);
    MbField(m);
    FieldSplit(b, 19, 11, 0);
    LdpcField(m);
    FieldOfZeros(b, 10, 0);
  }

  lemma HeadField(m: Sent)
    ensures Field(HeaderBits(m), 63, 48) == 0x1234
  {
    var b := HeaderBits(m);
    var r := Reverse(b);
    FieldSplit(b, 63, 56, 48);
    HeadBits();
    assert Reverse(b[56..64]) == r[0..8] == BitsOf(0x12);
    assert Reverse(b[48..56]) == r[8..16] == BitsOf(0x34);
    ValueOfBits(0x12);
    ValueOfBits(0x34);
    assert Pow2(8) == 256;
  }

  // The head is the four nibbles as decimal digits; among bytes whose nibbles
  // are decimal digits only 0x12 0x34 has head 1234.
  lemma HeadDigits(first: byte, second: byte)
    ensures Head(first, second) == first / 16 * 1000 + first % 16 * 100 + second / 16 * 10 + second % 16
    ensures first / 16 <= 9 && first % 16 <= 9 && second / 16 <= 9 && second % 16 <= 9 ==>
              (Head(first, second) == 1234 <==> first == 0x12 && second == 0x34)
  {
    HighNibble(first);
    HighNibble(second);
    if first / 16 <= 9 && first % 16 <= 9 && second / 16 <= 9 && second % 16 <= 9 {
      FourDigits(first / 16, first % 16, second / 16, second % 16);
    }
  }

  lemma HighNibble(b: byte)
    ensures Shr(b, 4) % 256 == b / 16
  {
    ShrAll(b);
  }

  lemma FourDigits(a: nat, b: nat, c: nat, d: nat)
    requires a <= 9 && b <= 9 && c <= 9 && d <= 9
    ensures a * 1000 + b * 100 + c * 10 + d == 1234 <==> a == 1 && b == 2 && c == 3 && d == 4
  {
  }

  /* ---- The code ---- */

  // `constrM2S`: the eight header bytes, whatever data held before.
  method ConstrM2S(m: Sent, data: array<byte>)
    requires data.Length >= 8
    modifies data
    ensures data[..8] == Header(m)
    ensures data[8..] == old(data[8..])
  {
    var pack := BuildBits(m);
    var rData := new byte[65](_ => 0);
    RevertChar(pack, 64, rData);
    Bit2Char(rData, 8, data);
  }

  method BuildBits(m: Sent) returns (pack: array<byte>)
    ensures fresh(pack) && pack.Length == 64 && pack[..64] == HeaderBits(m)
  {
    pack := new byte[64](_ => 0);
    pack[60] := 1;
    pack[57] := 1;
    pack[53] := 1;
    pack[52] := 1;
    pack[50] := 1;
    match m.modulation {
      case BPSK => pack[27], pack[26] := 0, 0;
      case QPSK => pack[27], pack[26] := 0, 1;
      case QAM16 => pack[27], pack[26] := 1, 0;
      case QAM64 => pack[27], pack[26] := 1, 1;
    }
    assert pack[26] == Bit(Code(m.modulation), 0) && pack[27] == Bit(Code(m.modulation), 1);
    FillField(pack, 25, 20, m.mb);
    FillField(pack, 19, 11, m.ldpcNum);
  }

  // One of the loops that put a number's low bits at positions hi down to lo.
  method FillField(pack: array<byte>, hi: nat, lo: nat, x: int)
    requires lo <= hi < pack.Length
    modifies pack
    ensures forall i :: lo <= i <= hi ==> pack[i] == Bit(x, i - lo)
    ensures forall i :: 0 <= i < pack.Length && !(lo <= i <= hi) ==> pack[i] == old(pack[i])
  {
    var i: int := hi;
    while i >= lo
      invariant lo - 1 <= i <= hi
      invariant forall j :: i < j <= hi ==> pack[j] == Bit(x, j - lo)
      invariant forall j :: 0 <= j < pack.Length && !(i < j <= hi) ==> pack[j] == old(pack[j])
    {
      pack[i] := Shr(x, i - lo) % 2;
      i := i - 1;
    }
  }

  method GetHead(data: array<byte>) returns (head: int)
    requires data.Length >= 2
    ensures head == Head(data[0], data[1])
  {
    var first := Shr(data[0], 4) % 256;
    var second := data[0] % 16;
    var three := Shr(data[1], 4) % 256;
    var four := data[1] % 16;
    return first * 1000 + second * 100 + three * 10 + four;
  }

  // One of the loops that read bits hi down to lo into a number.
  method ReadField(rData: array<byte>, hi: nat, lo: nat) returns (temp: nat)
    requires lo <= hi < rData.Length
    ensures temp == Field(rData[..], hi, lo)
  {
    temp := 0;
    var i: int := hi;
    while i >= lo
      invariant lo - 1 <= i <= hi
      invariant temp == Field(rData[..], hi, i + 1)
    {
      FieldStep(rData[..], hi, i);
      temp := 2 * temp;
      temp := temp + rData[i] % 2;
      i := i - 1;
    }
  }

  // `getParamS2M`
  method GetParamS2M(data: array<byte>) returns (r: Received)
    requires data.Length >= PACK_LEN
    ensures r == Parse(data[..PACK_LEN])
  {
    var rData := new byte[64];
    RevertChar(data, PACK_LEN, rData);
    assert rData[..] == rData[..64] == Reverse(data[..PACK_LEN]);
    var crc := ReadField(rData, 39, 39);
    var ldpcTnum := ReadField(rData, 38, 30);
    var amp := ReadField(rData, 29, 28);
    var modu := ReadField(rData, 27, 26);
    var mb := ReadField(rData, 25, 20);
    var ldpcNum := ReadField(rData, 19, 11);
    r := Received(crc, ldpcTnum, amp, modu, mb, ldpcNum);
  }

  // `getParamM2S` reads the three fields the sender fills.
  method GetParamM2S(data: array<byte>) returns (modulation: nat, mb: nat, ldpcNum: nat)
    requires data.Length >= PACK_LEN
    ensures var r := Parse(data[..PACK_LEN]); modulation == r.modu && mb == r.mb && ldpcNum == r.ldpcNum
  {
    var rData := new byte[64];
    RevertChar(data, PACK_LEN, rData);
    assert rData[..] == rData[..64] == Reverse(data[..PACK_LEN]);
    modulation := ReadField(rData, 27, 26);
    mb := ReadField(rData, 25, 20);
    ldpcNum := ReadField(rData, 19, 11);
  }

  // The sending side: what is copied to the front of the transmit buffer.
  method Transmitted(m: Sent) returns (wire: seq<byte>)
    ensures wire == Reverse(Header(m))
  {
    var pack := new byte[8](_ => 0);
    var packR := new byte[8](_ => 0);
    ConstrM2S(m, pack);
    RevertChar(pack, 8, packR);
    assert packR[..] == packR[..8];
    wire := packR[..];
  }

  // The receiving side, on the first eight bytes of the receive buffer: the
  // decoded header, if the head is right.
  method GetInfo(wire: seq<byte>) returns (head: int, r: Received)
    requires |wire| == 8
    ensures head == Head(wire[7], wire[6])
    ensures r == if head == 1234 then Parse(Expand(Reverse(wire))) else Received(0, 0, 0, 0, 0, 0)
  {
    var word := Load(wire);
    var charpack := new byte[8](_ => 0);
    Long2Char(word, charpack);
    StoreLoad(wire);
    assert charpack[..8] == Reverse(wire);
    assert charpack[0] == wire[7] && charpack[1] == wire[6];
    head := GetHead(charpack);
    r := Received(0, 0, 0, 0, 0, 0);
    if head == 1234 {
      var bitpack := new byte[64](_ => 0);
      Char2Bit(charpack, 8, bitpack);
      r := GetParamS2M(bitpack);
    }
  }

  // The receiving side on the bytes of a header.
  method Decode(ghost m: Sent, wire: seq<byte>) returns (head: int, r: Received)
    requires wire == Reverse(Header(m))
    ensures head == 1234
    ensures r == Received(0, 0, 0, Code(m.modulation), m.mb % 64, m.ldpcNum % 512)
  {
    head, r := GetInfo(wire);
    HeaderHead(m);
    ReverseTwice(Header(m));
    ParseHeader(m);
  }

  // End to end over a loopback, for every modulation and all numbers.
  method Loopback(m: Sent) returns (head: int, r: Received)
    ensures head == 1234
    ensures r == Received(0, 0, 0, Code(m.modulation), m.mb % 64, m.ldpcNum % 512)
  {
    var wire := Transmitted(m);
    head, r := Decode(m, wire);
  }

  /* ---- Binary digits of a long ---- */

  // `itobs`: 64 digits and a terminator.
  method Itobs(n: int, ps: array<byte>)
    requires ps.Length > 64
    modifies ps
    ensures forall j :: 0 <= j < 64 ==> ps[j] == Bit(n, 63 - j) + 48
    ensures ps[64] == 0 && forall j :: 64 < j < ps.Length ==> ps[j] == old(ps[j])
  {
    var x := n;
    var j := 63;
    while j >= 0
      invariant -1 <= j <= 63 && x == Shr(n, 63 - j)
      invariant forall i :: j < i < 64 ==> ps[i] == Bit(n, 63 - i) + 48
      invariant forall i :: 64 <= i < ps.Length ==> ps[i] == old(ps[i])
    {
      ps[j] := x % 2 + 48;
      ShrMore(n, 63 - j);
      j, x := j - 1, x / 2;
    }
    ps[64] := 0;
  }

  // The digits, read back in two's complement, are the number.
  lemma ItobsValue(n: int, digits: seq<byte>)
    requires |digits| == 64 && forall j :: 0 <= j < 64 ==> digits[j] == Bit(n, 63 - j)
    requires 0 - Pow2(63) <= n < Pow2(63)
    ensures var u := Field(Reverse(digits), 63, 0);
            n == if u < Pow2(63) then u else u - Pow2(64)
  {
    FieldOfInt(Reverse(digits), 63, 0, n);
    Wrapped(n, Pow2(63));
  }

  lemma Wrapped(n: int, p: nat)
    requires p > 0 && 0 - p <= n < p
    ensures n % (2 * p) == if n < 0 then n + 2 * p else n
  {
    ModUnique(n, 2 * p, if n < 0 then -1 else 0, if n < 0 then n + 2 * p else n);
  }
}
