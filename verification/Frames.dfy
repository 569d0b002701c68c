// Frames: how many blocks are sent, how the transmit buffer is filled, and the
// window of words a receiver prints (examples/interdma.c, examples/util.c).
module Frames {
  import opened Bits
  import opened HeaderCodec

  const HEAD_SIZE := 8
  const LDPC_K := 5632
  const DATA_MAX := 448 * (69 * 10 - 1)
  const HOLE := 512
  const MAX_DATA_NUM := LDPC_K * (512 - 1) / 64
  const MAX_SIZE := 8 * MAX_DATA_NUM

  // DATA_TR
  function DataTr(mb: int): int {
    (mb + 22) * 256 - HOLE
  }

  // The bits one symbol carries.
  function SymbolBits(m: Mod): nat {
    match m case BPSK => 1 case QPSK => 2 case QAM16 => 4 case QAM64 => 6
  }

  function ModOf(code: nat): Mod {
    if code == 0 then BPSK else if code == 1 then QPSK else if code == 2 then QAM16 else QAM64
  }

  lemma MulMono(a: nat, d: nat, e: nat)
    requires d <= e
    ensures a * d <= a * e
  {
  }

  // The ceiling of u / d is the least n with n * d >= u.
  lemma CeilingIsLeast(u: nat, d: nat, n: nat)
    requires d > 0 && n == if u % d == 0 then u / d else u / d + 1
    ensures n * d >= u
    ensures forall k: nat :: k < n ==> k * d < u
  {
    var q, r := u / d, u % d;
    assert u == q * d + r;
    assert (q + 1) * d == q * d + d;
    forall k: nat | k < n ensures k * d < u {
      MulMono(d, k, n - 1);
      assert k * d <= (n - 1) * d by {
        assert k * d == d * k && (n - 1) * d == d * (n - 1);
      }
      assert r == 0 ==> (n - 1) * d == q * d - d by {
        assert (n - 1) * d == n * d - d;
      }
    }
  }

  // n blocks are enough for the data of one frame, and fewer are not.
  ghost predicate LeastBlocks(m: Sent) {
    && m.ldpcNum * DataTr(m.mb) >= DATA_MAX * SymbolBits(m.modulation)
    && forall k :: 0 <= k < m.ldpcNum ==> k * DataTr(m.mb) < DATA_MAX * SymbolBits(m.modulation)
  }

  // `randBtw` for a value r of rand(): the bounds in either order.
  method RandBtw(small: int, big: int, r: nat) returns (rt: int)
    ensures small <= rt <= big || big <= rt <= small
    ensures small <= big ==> (rt - small) == r % (big - small + 1)
    ensures big <= small ==> (rt - big) == r % (small - big + 1)
  {
    var lo, hi := small, big;
    if lo > hi {
      hi := lo + hi;
      lo := hi - lo;
      hi := hi - lo;
    }
    rt := r % (hi - lo + 1) + lo;
  }

  // `random_mm2s` for the two random numbers it draws.
  method RandomMm2s(r1: nat, r2: nat) returns (m: Sent)
    ensures m.mb == r1 % 64 && m.modulation == ModOf(r2 % 4)
    ensures LeastBlocks(m) && 1 <= m.ldpcNum <= 362
  {
    var mb := RandBtw(0, 63, r1);
    var modu := RandBtw(0, 3, r2);
    m := BlocksFor(mb, ModOf(modu));
  }

  // The block count it computes is the least sufficient one for every Mb, fits
  // the nine bits of its header field, and is never 0.
  method BlocksFor(mb: nat, modulation: Mod) returns (m: Sent)
    ensures m.mb == mb && m.modulation == modulation && LeastBlocks(m) && 1 <= m.ldpcNum <= 362
  {
    var calU := DATA_MAX * SymbolBits(modulation);
    var calD := DataTr(mb);
    var ldpcNum := Ceiling(calU, calD);
    BlocksBound(calU, calD, ldpcNum);
    m := Sent(modulation, mb, ldpcNum);
  }

  method Ceiling(calU: nat, calD: nat) returns (n: nat)
    requires calD > 0
    ensures n * calD >= calU && forall k: nat :: k < n ==> k * calD < calU
  {
    if calU % calD == 0 {
      n := calU / calD;
    } else {
      n := calU / calD + 1;
    }
    CeilingIsLeast(calU, calD, n);
  }

  lemma BlocksBound(u: nat, d: nat, n: nat)
    requires 0 < u <= 6 * DATA_MAX && d >= 5120 && n * d >= u
    requires forall k: nat :: k < n ==> k * d < u
    ensures 1 <= n <= 362
  {
    MulMono(362, 5120, d);
    assert n == 0 ==> n * d == 0;
  }

  /* ---- The transmit buffer ---- */

  // a | b
  function Or(a: nat, b: nat): nat
    decreases b
  {
    if b == 0 then a else 2 * Or(a / 2, b / 2) + if a % 2 == 1 || b % 2 == 1 then 1 else 0
  }

  // Into n free low bits OR puts what addition would.
  lemma {:induction false} OrIntoFree(h: nat, k: nat, n: nat)
    requires k < Pow2(n)
    ensures Or(h * Pow2(n), k) == h * Pow2(n) + k
  {
    if k != 0 {
      var half := h * Pow2(n - 1);
      assert h * Pow2(n) == 2 * half;
      OrIntoFree(h, k / 2, n - 1);
    }
  }

  // The k-th word of the test pattern.
  function Pattern(k: nat): int {
    Or(0x0102_0304_0000_0000, k)
  }

  // Up to word 2^32, and so for every word of a frame, the pattern counts up
  // from its first word.
  lemma PatternCounts(k: nat)
    requires k < 0x1_0000_0000
    ensures Pattern(k) == 0x0102_0304_0000_0000 + k
  {
    Pow2Of32();
    OrIntoFree(0x0102_0304, k, 32);
  }

  lemma Pow2Of32()
    ensures Pow2(32) == 0x1_0000_0000
  {
    Pow2Adds4(0);
    Pow2Adds4(4);
    Pow2Adds4(8);
    Pow2Adds4(12);
    Pow2Adds4(16);
    Pow2Adds4(20);
    Pow2Adds4(24);
    Pow2Adds4(28);
  }

  lemma Pow2Adds4(n: nat)
    ensures Pow2(n + 4) == 16 * Pow2(n)
  {
    assert Pow2(n + 2) == 4 * Pow2(n);
  }

  // The bytes of the first n words of the pattern.
  function Words(n: nat): (bytes: seq<byte>)
    ensures |bytes| == 8 * n
  {
    if n == 0 then [] else Words(n - 1) + Store(Pattern(n - 1), 8)
  }

  function Zeros(n: nat): (bytes: seq<byte>)
    ensures |bytes| == n && forall i :: 0 <= i < n ==> bytes[i] == 0
  {
    seq(n, _ => 0)
  }

  // One store of a long
  method StoreLong(buf: array<byte>, at: nat, value: int)
    requires at + 8 <= buf.Length
    modifies buf
    ensures buf[..] == Overlay(old(buf[..]), at, Store(value, 8))
  {
    var bytes := Store(value, 8);
    forall i | 0 <= i < 8 {
      buf[at + i] := bytes[i];
    }
  }

  // `init_tx_data` at an offset. For a size that is not a multiple of eight it
  // stores whole words for the leftover bytes, so it needs room for them.
  method InitTxData(buf: array<byte>, off: nat, size: nat)
    requires off + 8 * (size / 8 + size % 8) <= buf.Length
    modifies buf
    ensures buf[..] == Overlay(old(buf[..]), off, Words(size / 8 + size % 8))
  {
    ghost var was := buf[..];
    assert Overlay(was, off, []) == was;
    PutWords(buf, off, 0, size / 8, was);
    PutWords(buf, off, size / 8, size % 8, was);
  }

  // One of its two loops: n words from the given index on.
  method PutWords(buf: array<byte>, off: nat, from: nat, n: nat, ghost was: seq<byte>)
    requires |was| == buf.Length && off + 8 * (from + n) <= buf.Length
    requires buf[..] == Overlay(was, off, Words(from))
    modifies buf
    ensures buf[..] == Overlay(was, off, Words(from + n))
  {
    for i := 0 to n
      invariant buf[..] == Overlay(was, off, Words(from + i))
    {
      PutWord(buf, off, i + from, was);
    }
  }

  method PutWord(buf: array<byte>, off: nat, k: nat, ghost was: seq<byte>)
    requires |was| == buf.Length && off + 8 * k + 8 <= buf.Length
    requires buf[..] == Overlay(was, off, Words(k))
    modifies buf
    ensures buf[..] == Overlay(was, off, Words(k + 1))
  {
    OverlayNext(was, off, Words(k), Store(Pattern(k), 8));
    StoreLong(buf, off + 8 * k, Pattern(k));
  }

  // `clean_tx_data`
  method CleanTxData(buf: array<byte>, size: nat)
    requires size <= buf.Length
    modifies buf
    ensures buf[..] == Overlay(old(buf[..]), 0, Zeros(size))
  {
    for i := 0 to size
      invariant forall j :: 0 <= j < i ==> buf[j] == 0
      invariant forall j :: i <= j < buf.Length ==> buf[j] == old(buf[j])
    {
      buf[i] := 0;
    }
  }

  // A whole transmit buffer: header, pattern, zeros.
  function FrameBytes(m: Sent): (bytes: seq<byte>)
    requires 0 <= m.ldpcNum <= 510
    ensures |bytes| == MAX_SIZE
  {
    Reverse(Header(m)) + Words(88 * m.ldpcNum) + Zeros(MAX_SIZE - HEAD_SIZE - 704 * m.ldpcNum)
  }

  // Word k of the pattern is stored at its place, low byte first.
  lemma {:induction false} WordsAre(n: nat, k: nat)
    requires k < n
    ensures Words(n)[8 * k..8 * k + 8] == Store(Pattern(k), 8)
  {
    var front, last := Words(n - 1), Store(Pattern(n - 1), 8);
    hide Pattern, Store;
    assert Words(n) == front + last;
    if k < n - 1 {
      WordsAre(n - 1, k);
      SliceOfFirst(front, last, 8 * k, 8 * k + 8);
    }
  }

  lemma SliceOfFirst(a: seq<byte>, b: seq<byte>, lo: nat, hi: nat)
    requires lo <= hi <= |a|
    ensures (a + b)[lo..hi] == a[lo..hi]
  {
  }

  // What a whole frame holds where: the reversed header, the words of the
  // pattern one after the other, and zeros.
  lemma FrameHolds(m: Sent)
    requires 0 <= m.ldpcNum <= 510
    ensures var bytes, n := FrameBytes(m), 88 * m.ldpcNum;
            && bytes[..HEAD_SIZE] == Reverse(Header(m))
            && (forall k :: 0 <= k < n ==>
                  bytes[HEAD_SIZE + 8 * k..HEAD_SIZE + 8 * k + 8] == Store(Pattern(k), 8))
            && (forall i :: HEAD_SIZE + 8 * n <= i < MAX_SIZE ==> bytes[i] == 0)
  {
    hide Pattern, Store, Words, Header;
    var n := 88 * m.ldpcNum;
    var head, zeros := Reverse(Header(m)), Zeros(MAX_SIZE - HEAD_SIZE - 704 * m.ldpcNum);
    assert FrameBytes(m) == head + Words(n) + zeros;
    forall k | 0 <= k < n
      ensures FrameBytes(m)[HEAD_SIZE + 8 * k..HEAD_SIZE + 8 * k + 8] == Store(Pattern(k), 8)
    {
      WordsAre(n, k);
      SliceOfMiddle(head, Words(n), zeros, 8 * k, 8 * k + 8);
    }
  }

  lemma SliceOfMiddle(a: seq<byte>, b: seq<byte>, c: seq<byte>, lo: nat, hi: nat)
    requires lo <= hi <= |b|
    ensures (a + b + c)[|a| + lo..|a| + hi] == b[lo..hi]
  {
  }

  lemma OverlaysJoin(s: seq<byte>, h: seq<byte>, w: seq<byte>, n: nat)
    requires |h| + |w| <= n <= |s|
    ensures Overlay(Overlay(Overlay(s, 0, Zeros(n)), 0, h), |h|, w)
            == h + w + Zeros(n - |h| - |w|) + s[n..]
  {
    var s1 := Overlay(s, 0, Zeros(n));
    OverlayNext(s1, 0, h, w);
    assert s1[|h| + |w|..] == Zeros(n - |h| - |w|) + s[n..];
  }

  lemma FrameFromOverlays(s: seq<byte>, m: Sent)
    requires 0 <= m.ldpcNum <= 510 && |s| >= MAX_SIZE
    ensures var s1 := Overlay(Overlay(s, 0, Zeros(MAX_SIZE)), 0, Reverse(Header(m)));
            Overlay(s1, HEAD_SIZE, Words(88 * m.ldpcNum)) == FrameBytes(m) + s[MAX_SIZE..]
  {
    OverlaysJoin(s, Reverse(Header(m)), Words(88 * m.ldpcNum), MAX_SIZE);
  }

  // The frame-building part of `mm2s_all_test`; nothing beyond the buffer's
  // MAX_SIZE bytes is written.
  method BuildFrame(m: Sent, txBuf: array<byte>) returns (dataLen: nat)
    requires 0 <= m.ldpcNum <= 510 && txBuf.Length >= MAX_SIZE
    modifies txBuf
    ensures dataLen == 704 * m.ldpcNum && HEAD_SIZE + dataLen <= MAX_SIZE
    ensures txBuf[..] == FrameBytes(m) + old(txBuf[MAX_SIZE..])
  {
    ghost var was := txBuf[..];
    CleanTxData(txBuf, MAX_SIZE);
    var wire := Transmitted(m);
    CopyIn(txBuf, wire);
    dataLen := DataLength(m.ldpcNum);
    InitTxData(txBuf, HEAD_SIZE, dataLen);
    FrameFromOverlays(was, m);
  }

  // The bits of all blocks, in whole bytes: always whole words.
  method DataLength(ldpcNum: nat) returns (dataLen: nat)
    ensures dataLen == 704 * ldpcNum && dataLen / 8 == 88 * ldpcNum && dataLen % 8 == 0
  {
    var dataLenInBit := ldpcNum * LDPC_K;
    dataLen := BytesFor(dataLenInBit);
  }

  function BytesFor(bits: nat): nat {
    if bits % 8 == 0 then bits / 8 else bits / 8 + 1
  }

  method CopyIn(buf: array<byte>, bytes: seq<byte>)
    requires |bytes| <= buf.Length
    modifies buf
    ensures buf[..] == Overlay(old(buf[..]), 0, bytes)
  {
    forall i | 0 <= i < |bytes| {
      buf[i] := bytes[i];
    }
  }

  lemma FrameHead(m: Sent, rest: seq<byte>)
    requires 0 <= m.ldpcNum <= 510
    ensures (FrameBytes(m) + rest)[..8] == Reverse(Header(m))
  {
  }

  // A random frame, built and read back: the head is right and the receiver
  // decodes exactly the parameters that were sent.
  method SendAndDecode(r1: nat, r2: nat, txBuf: array<byte>) returns (m: Sent, head: int, r: Received)
    requires txBuf.Length >= MAX_SIZE
    modifies txBuf
    ensures m.mb == r1 % 64 && m.modulation == ModOf(r2 % 4)
    ensures LeastBlocks(m) && 1 <= m.ldpcNum <= 362
    ensures head == 1234 && r == Received(0, 0, 0, Code(m.modulation), m.mb, m.ldpcNum)
  {
    m := RandomMm2s(r1, r2);
    head, r := BuildAndDecode(m, txBuf);
  }

  method BuildAndDecode(m: Sent, txBuf: array<byte>) returns (head: int, r: Received)
    requires 0 <= m.mb <= 63 && 1 <= m.ldpcNum <= 362 && txBuf.Length >= MAX_SIZE
    modifies txBuf
    ensures head == 1234 && r == Received(0, 0, 0, Code(m.modulation), m.mb, m.ldpcNum)
  {
    BuildHeaded(m, txBuf);
    head, r := Decode(m, txBuf[..8]);
  }

  // The first eight bytes of a built frame are its header.
  method BuildHeaded(m: Sent, txBuf: array<byte>)
    requires 0 <= m.ldpcNum <= 510 && txBuf.Length >= MAX_SIZE
    modifies txBuf
    ensures txBuf[..8] == Reverse(Header(m))
  {
    ghost var rest := txBuf[MAX_SIZE..];
    var dataLen := BuildFrame(m, txBuf);
    FrameHead(m, rest);
    assert txBuf[..8] == txBuf[..][..8];
  }

  /* ---- The printed window ---- */

  // One round of the loop in `getInfo` at word `it` with `ct` rounds to go.
  function Round(totalct: int, it: int, ct: int): (int, int) {
    if it + 1 == 5 then (it + 1 + (totalct - 30), ct - 1 - (totalct - 30)) else (it + 1, ct - 1)
  }

  function Rounds(totalct: int, k: nat): (int, int) {
    if k == 0 then (0, totalct + 5)
    else
      var (it, ct) := Rounds(totalct, k - 1);
      Round(totalct, it, ct)
  }

  lemma {:induction false} RoundsLong(totalct: int, k: nat)
    requires totalct >= 30 && k <= 35
    ensures Rounds(totalct, k) == if k < 5 then (k, totalct + 5 - k) else (totalct - 30 + k, 35 - k)
  {
    if k > 0 {
      RoundsLong(totalct, k - 1);
    }
  }

  lemma {:induction false} RoundsShort(totalct: int, k: nat)
    requires 0 <= totalct < 30
    ensures var (it, ct) := Rounds(totalct, k); it < 5 && it + ct == totalct + 5
  {
    if k > 0 {
      RoundsShort(totalct, k - 1);
    }
  }

  // The counter reaches 0, which ends the loop, exactly when there are at least
  // 30 words to show. The decoded block count 0 gives 1 word: the loop never
  // ends; every larger count gives at least 89.
  lemma WindowEndsExactly(totalct: nat)
    ensures (exists k: nat :: Rounds(totalct, k).1 == 0) <==> totalct >= 30
  {
    if totalct >= 30 {
      RoundsLong(totalct, 35);
    } else {
      forall k: nat ensures Rounds(totalct, k).1 != 0 {
        RoundsShort(totalct, k);
      }
    }
  }

  function Ints(lo: int, hi: int): (s: seq<int>)
    requires lo <= hi
    ensures |s| == hi - lo && forall i :: 0 <= i < |s| ==> s[i] == lo + i
  {
    seq(hi - lo, i => lo + i)
  }

  // The loop itself: it reads 35 words, the first five and the last thirty.
  method ShowWindow(totalct: int) returns (words: seq<int>)
    requires totalct >= 30
    ensures words == Ints(0, 5) + Ints(totalct - 25, totalct + 5)
  {
    words := [];
    var it, indexL, ct := 0, 0, totalct + 5;
    ghost var jumped := false;
    while ct != 0
      invariant it == indexL
      invariant !jumped ==> 0 <= it < 5 && ct == totalct + 5 - it && words == Ints(0, it)
      invariant jumped ==> 5 <= it == totalct + 5 - ct && 0 <= ct <= 30
                           && words == Ints(0, 5) + Ints(totalct - 25, it)
      decreases !jumped, ct
    {
      words := words + [indexL];
      it := it + 1;
      indexL := indexL + 1;
      ct := ct - 1;
      if it == 5 {
        var skip := totalct - 30;
        it := it + skip;
        indexL := indexL + skip;
        ct := ct - skip;
        jumped := true;
      }
    }
  }

  // For a decoded block count n the words shown lie in a MAX_SIZE buffer
  // exactly when n is at most 510.
  lemma WindowInsideExactly(n: nat)
    requires 1 <= n < 512
    ensures var totalct := n * LDPC_K / 64 + 1;
            totalct >= 30 && (WindowInside(totalct) <==> n <= 510)
  {
    var totalct := n * LDPC_K / 64 + 1;
    assert totalct == 88 * n + 1;
    var words := Ints(0, 5) + Ints(totalct - 25, totalct + 5);
    assert words[34] == totalct + 4;
  }

  // Every word shown is a word of a MAX_SIZE buffer.
  ghost predicate WindowInside(totalct: int)
    requires totalct >= 30
  {
    var words := Ints(0, 5) + Ints(totalct - 25, totalct + 5);
    forall i :: 0 <= i < |words| ==> 0 <= words[i] < MAX_DATA_NUM
  }
}
