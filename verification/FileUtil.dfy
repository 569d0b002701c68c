// The file and string utilities of examples/util.c: loops that transfer a whole
// buffer in spite of short transfers and interruptions, and the in-place
// decimal printer.
module FileUtil {
  import opened Types
  import opened Bits

  // How one call of read or write goes: interrupted, failed, or at most n bytes.
  datatype Answer = Interrupted | Error(errno: int) | AtMost(n: nat)

  ghost predicate Answers(script: seq<Answer>) {
    forall i :: 0 <= i < |script| && script[i].Error? ==> script[i].errno > 0 && script[i].errno != EINTR
  }

  // Short transfers and interruptions only, from call number `from` on.
  ghost predicate Benign(script: seq<Answer>, from: nat) {
    Served(script, from, |script|)
  }

  // An answer after which the loop goes on.
  predicate Moves(a: Answer) {
    a.Interrupted? || (a.AtMost? && a.n > 0)
  }

  // The calls from number `from` up to `to` moved something or were interrupted.
  ghost predicate Served(script: seq<Answer>, from: nat, to: int) {
    forall i :: from <= i < to && i < |script| ==> Moves(script[i])
  }

  function Min(a: nat, b: nat): nat {
    if a < b then a else b
  }

  // What a call returns when `most` bytes could be moved.
  function Result(a: Answer, most: nat): int {
    match a
    case Interrupted => -EINTR
    case Error(e) => -e
    case AtMost(n) => Min(n, most)
  }

  // A stream of bytes. The script says how calls go, from number `pos` on;
  // after it calls move all they can.
  class Stream {
    var content: seq<byte>
    var script: seq<Answer>
    var pos: nat

    // How the next call goes that asks for count bytes.
    ghost function Next(count: nat): Answer
      reads this
    {
      if pos < |script| then script[pos] else AtMost(count)
    }

    method TakeAnswer(count: nat) returns (a: Answer)
      modifies this`pos
      ensures a == old(Next(count)) && pos == old(if pos < |script| then pos + 1 else pos)
    {
      if pos < |script| {
        a := script[pos];
        pos := pos + 1;
      } else {
        a := AtMost(count);
      }
    }

    method Read(buf: array<byte>, off: nat, count: nat) returns (r: int)
      requires off + count <= buf.Length && Answers(script)
      modifies this`content, this`pos, buf
      ensures pos == old(if pos < |script| then pos + 1 else pos)
      ensures r == Result(old(Next(count)), Min(count, |old(content)|))
      ensures var k := if r > 0 then r else 0;
              && k <= |old(content)| && k <= count
              && content == old(content)[k..]
              && buf[..] == Overlay(old(buf[..]), off, old(content)[..k])
    {
      var answer := TakeAnswer(count);
      match answer {
        case Interrupted =>
          r := -EINTR;
        case Error(e) =>
          r := -e;
        case AtMost(n) =>
          var k := Min(n, Min(count, |content|));
          forall i | 0 <= i < k {
            buf[off + i] := content[i];
          }
          content := content[k..];
          r := k;
      }
    }

    method Write(bytes: seq<byte>) returns (r: int)
      requires Answers(script)
      modifies this`content, this`pos
      ensures pos == old(if pos < |script| then pos + 1 else pos)
      ensures r == Result(old(Next(|bytes|)), |bytes|)
      ensures var k := if r > 0 then r else 0;
              k <= |bytes| && content == old(content) + bytes[..k]
    {
      var answer := TakeAnswer(|bytes|);
      match answer {
        case Interrupted =>
          r := -EINTR;
        case Error(e) =>
          r := -e;
        case AtMost(n) =>
          content := content + bytes[..Min(n, |bytes|)];
          r := Min(n, |bytes|);
      }
    }
  }

  // However the transfer is split and interrupted: the bytes moved are the next
  // ones of the stream, in order, and nothing else changes; a result that is
  // not negative counts them, and is short only at the end of the stream or if
  // the last answer was a zero-length one; a negative one is the error the
  // stream gave last; the answers before the last were neither. Without errors
  // and zero-length answers ahead all that can be moved is moved.
  method RobustRead(fd: Stream, buf: array<byte>, bufSize: nat) returns (rc: int, ghost moved: nat)
    requires bufSize <= buf.Length && Answers(fd.script)
    modifies fd`content, fd`pos, buf
    ensures moved <= bufSize && moved <= |old(fd.content)|
    ensures buf[..] == Overlay(old(buf[..]), 0, old(fd.content)[..moved])
    ensures fd.content == old(fd.content)[moved..]
    ensures old(fd.pos) <= fd.pos
    ensures rc >= 0 ==> rc == moved
    ensures rc < 0 ==> old(fd.pos) < fd.pos <= |fd.script| && fd.script[fd.pos - 1] == Error(-rc)
    ensures 0 <= rc < bufSize ==>
              rc == |old(fd.content)|
              || (old(fd.pos) < fd.pos <= |fd.script| && fd.script[fd.pos - 1] == AtMost(0))
    ensures Served(fd.script, old(fd.pos), fd.pos - 1)
    ensures Benign(fd.script, old(fd.pos)) ==> rc == moved && (moved == bufSize || moved == |old(fd.content)|)
  {
    var bytesRemain := bufSize;
    moved := 0;
    ghost var all, was := fd.content, buf[..];
    assert Overlay(was, 0, all[..0]) == was;
    while true
      invariant 0 <= bytesRemain && moved + bytesRemain == bufSize && moved <= |all|
      invariant fd.content == all[moved..] && buf[..] == Overlay(was, 0, all[..moved])
      invariant old(fd.pos) <= fd.pos && Served(fd.script, old(fd.pos), fd.pos)
      decreases |fd.script| - fd.pos, bytesRemain
    {
      var bufOffset := bufSize - bytesRemain;
      var bytesRead := ReadMore(fd, buf, bufOffset, bytesRemain, all, was);
      if bytesRead > 0 {
        bytesRemain := bytesRemain - bytesRead;
        moved := moved + bytesRead;
      }
      if bytesRead < 0 && bytesRead != -EINTR {
        return bytesRead, moved;
      } else if bytesRead == 0 {
        return bufSize - bytesRemain, moved;
      }
    }
  }

  // One round: the next bytes of the stream follow those that have arrived.
  method ReadMore(fd: Stream, buf: array<byte>, off: nat, count: nat, ghost all: seq<byte>, ghost was: seq<byte>)
    returns (r: int)
    requires off + count <= buf.Length == |was| && off <= |all| && Answers(fd.script)
    requires fd.content == all[off..] && buf[..] == Overlay(was, 0, all[..off])
    modifies fd`content, fd`pos, buf
    ensures fd.pos == old(if fd.pos < |fd.script| then fd.pos + 1 else fd.pos)
    ensures r < 0 && r != -EINTR ==> old(fd.Next(count)) == Error(-r)
    ensures r == 0 ==> count == 0 || off == |all| || old(fd.Next(count)) == AtMost(0)
    ensures r > 0 || r == -EINTR ==> Moves(old(fd.Next(count)))
    ensures r == -EINTR ==> old(fd.pos) < |fd.script|
    ensures var k := if r > 0 then r else 0;
            k <= count && off + k <= |all|
            && fd.content == all[off + k..] && buf[..] == Overlay(was, 0, all[..off + k])
  {
    r := fd.Read(buf, off, count);
    ReadAdvances(all, was, off, if r > 0 then r else 0);
  }

  lemma ReadAdvances(all: seq<byte>, was: seq<byte>, moved: nat, k: nat)
    requires moved + k <= |all| && moved + k <= |was|
    ensures Overlay(Overlay(was, 0, all[..moved]), moved, all[moved..][..k]) == Overlay(was, 0, all[..moved + k])
    ensures all[moved..][k..] == all[moved + k..]
  {
    OverlayNext(was, 0, all[..moved], all[moved..][..k]);
    assert all[..moved] + all[moved..][..k] == all[..moved + k];
  }

  // The same for writing.
  method RobustWrite(fd: Stream, buf: array<byte>, bufSize: nat) returns (rc: int, ghost moved: nat)
    requires bufSize <= buf.Length && Answers(fd.script)
    modifies fd`content, fd`pos
    ensures moved <= bufSize && fd.content == old(fd.content) + buf[..moved]
    ensures old(fd.pos) <= fd.pos
    ensures rc >= 0 ==> rc == moved
    ensures rc < 0 ==> old(fd.pos) < fd.pos <= |fd.script| && fd.script[fd.pos - 1] == Error(-rc)
    ensures 0 <= rc < bufSize ==> old(fd.pos) < fd.pos <= |fd.script| && fd.script[fd.pos - 1] == AtMost(0)
    ensures Served(fd.script, old(fd.pos), fd.pos - 1)
    ensures Benign(fd.script, old(fd.pos)) ==> rc == bufSize
  {
    var bytesRemain := bufSize;
    moved := 0;
    while true
      invariant 0 <= bytesRemain && moved + bytesRemain == bufSize
      invariant fd.content == old(fd.content) + buf[..moved]
      invariant old(fd.pos) <= fd.pos && Served(fd.script, old(fd.pos), fd.pos)
      decreases |fd.script| - fd.pos, bytesRemain
    {
      var bufOffset := bufSize - bytesRemain;
      var bytesWritten := fd.Write(buf[bufOffset..bufOffset + bytesRemain]);
      if bytesWritten > 0 {
        bytesRemain := bytesRemain - bytesWritten;
        assert buf[..moved + bytesWritten] == buf[..moved] + buf[bufOffset..bufSize][..bytesWritten];
        moved := moved + bytesWritten;
      }
      if bytesWritten < 0 && bytesWritten != -EINTR {
        return bytesWritten, moved;
      } else if bytesWritten == 0 {
        return bufSize - bytesRemain, moved;
      }
    }
  }

  // Writing a buffer and reading it back is the identity, under any benign
  // splits on either side.
  method WriteThenRead(fd: Stream, src: array<byte>, dst: array<byte>, n: nat,
                       writeScript: seq<Answer>, readScript: seq<Answer>)
    returns (written: int, read: int)
    requires fd.content == [] && n <= src.Length && n <= dst.Length && src != dst
    requires Benign(writeScript, 0) && Benign(readScript, 0)
    modifies fd, dst
    ensures written == read == n && dst[..n] == src[..n] && fd.content == []
  {
    ghost var moved: nat;
    fd.script, fd.pos := writeScript, 0;
    written, moved := RobustWrite(fd, src, n);
    assert fd.content == src[..n];
    fd.script, fd.pos := readScript, 0;
    read, moved := RobustRead(fd, dst, n);
  }

  /* ---- Decimal printing ---- */

  // The decimal digits of n with the least significant first; 0 has one digit.
  function LowFirst(n: nat): (s: seq<byte>)
    ensures s != []
  {
    if n < 10 then [n + 48] else [n % 10 + 48] + LowFirst(n / 10)
  }

  // What is left to print of a number that has been divided down to n.
  function MoreLow(n: nat): seq<byte> {
    if n == 0 then [] else LowFirst(n)
  }

  lemma LowStep(n: nat)
    ensures LowFirst(n) == [n % 10 + 48] + MoreLow(n / 10)
  {
  }

  const MINUS: byte := 45

  // num in decimal
  function Decimal(num: int): (s: seq<byte>) {
    Sign(num) + Reverse(LowFirst(Magnitude(num)))
  }

  function Sign(num: int): seq<byte> {
    if num < 0 then [MINUS] else []
  }

  function Magnitude(num: int): nat {
    if num < 0 then 0 - num else num
  }

  function ParseDigits(s: seq<byte>): int {
    if s == [] then 0 else 10 * ParseDigits(s[..|s| - 1]) + (s[|s| - 1] as int - 48)
  }

  function ParseDecimal(s: seq<byte>): int {
    if s != [] && s[0] == MINUS then 0 - ParseDigits(s[1..]) else ParseDigits(s)
  }

  ghost predicate AllDigits(s: seq<byte>) {
    forall k :: 0 <= k < |s| ==> 48 <= s[k] <= 57
  }

  lemma ParseAppend(s: seq<byte>, d: byte)
    ensures ParseDigits(s + [d]) == 10 * ParseDigits(s) + (d as int - 48)
  {
    assert (s + [d])[..|s|] == s;
  }

  lemma {:induction false} LowFirstParses(n: nat)
    ensures AllDigits(LowFirst(n)) && ParseDigits(Reverse(LowFirst(n))) == n
    ensures n > 0 ==> LowFirst(n)[|LowFirst(n)| - 1] != 48
  {
    if n < 10 {
      assert Reverse(LowFirst(n)) == [] + [n + 48 as byte];
      ParseAppend([], n + 48);
    } else {
      var d: byte := n % 10 + 48;
      LowFirstParses(n / 10);
      ReversePrepend(d, LowFirst(n / 10));
      ParseAppend(Reverse(LowFirst(n / 10)), d);
    }
  }

  lemma SignedParse(digits: seq<byte>)
    requires digits != [] && digits[0] != MINUS
    ensures ParseDecimal([MINUS] + digits) == 0 - ParseDigits(digits)
    ensures ([MINUS] + digits)[1] == digits[0]
    ensures ParseDecimal([] + digits) == ParseDigits(digits)
  {
    assert ([MINUS] + digits)[1..] == digits;
    assert [] + digits == digits;
  }

  // The first digit printed is the highest one, and is 0 only for zero.
  lemma FirstDigit(n: nat)
    ensures Reverse(LowFirst(n))[0] != MINUS && (n > 0 ==> Reverse(LowFirst(n))[0] != 48)
  {
    LowFirstParses(n);
    assert Reverse(LowFirst(n))[0] == LowFirst(n)[|LowFirst(n)| - 1];
  }

  // Parsing undoes printing, and there is no leading zero but for zero itself.
  lemma ParseDecimalInverse(num: int)
    ensures ParseDecimal(Decimal(num)) == num
    ensures AllDigits(if num < 0 then Decimal(num)[1..] else Decimal(num))
    ensures num > 0 ==> Decimal(num)[0] != 48
    ensures num < 0 ==> Decimal(num)[0] == MINUS && |Decimal(num)| >= 2 && Decimal(num)[1] != 48
  {
    LowFirstParses(Magnitude(num));
    FirstDigit(Magnitude(num));
    SignedParse(Reverse(LowFirst(Magnitude(num))));
  }

  // The do-while loop: digits least significant first, from `start` on.
  method PutDigits(str: array<byte>, start: nat, num: nat) returns (i: nat)
    requires start + |LowFirst(num)| < str.Length
    modifies str
    ensures i == start + |LowFirst(num)| && str[start..i] == LowFirst(num)
    ensures str[..start] == old(str[..start])
  {
    ghost var target := str[..start] + LowFirst(num);
    i, str[start] := start + 1, num % 10 + 48;
    var n: nat := num / 10;
    LowStep(num);
    assert str[..i] == old(str[..start]) + [num % 10 + 48];
    while n != 0
      invariant start < i <= str.Length && str[..i] + MoreLow(n) == target
      decreases n
    {
      PutDigit(str, i, n, target);
      i := i + 1;
      n := n / 10;
    }
    assert str[..i] == target;
    assert str[start..i] == target[start..] && str[..start] == target[..start];
  }

  method PutDigit(str: array<byte>, i: nat, n: nat, ghost target: seq<byte>)
    requires n != 0 && i <= str.Length && str[..i] + MoreLow(n) == target && |target| < str.Length
    modifies str
    ensures i < str.Length && str[..i + 1] + MoreLow(n / 10) == target
  {
    LowStep(n);
    ghost var before := str[..i];
    str[i] := n % 10 + 48;
    assert str[..i + 1] == before + [n % 10 + 48];
  }

  // The swap loop, with sums in place of a third variable: a true reversal of
  // the digits between `start` and i, where `end` is i, or i + 1 after a sign.
  method SwapDigits(str: array<byte>, start: nat, i: nat, end: nat)
    requires start <= 1 && start < i <= str.Length && end == i + start && AllDigits(str[start..i])
    modifies str
    ensures str[start..i] == Reverse(old(str[start..i]))
    ensures str[..start] == old(str[..start]) && str[i..] == old(str[i..])
  {
    ghost var was := str[..];
    assert was[start..i] == str[start..i];
    ghost var h := SwapPairs(str, start, i, end);
    MirroredWhole(was, start, i - start, h);
    assert str[start..i] == str[..][start..i] && str[..start] == str[..][..start] && str[i..] == str[..][i..];
  }

  // Its rounds: h outer pairs have been swapped, and there are no more.
  method SwapPairs(str: array<byte>, start: nat, i: nat, end: nat) returns (ghost h: nat)
    requires start <= 1 && start < i <= str.Length && end == i + start && AllDigits(str[..][start..i])
    modifies str
    ensures str[..] == Mirrored(old(str[..]), start, i - start, h) && i - start <= 2 * h + 1
  {
    ghost var was := str[..];
    assert Mirrored(was, start, i - start, 0) == was;
    var j := start;
    while j < end / 2
      invariant start <= j <= end - j + 1
      invariant str[..] == Mirrored(was, start, i - start, j - start)
    {
      SwapPair(str, start, i, end, j, was);
      j := j + 1;
    }
    h := j - start;
  }

  method SwapPair(str: array<byte>, start: nat, i: nat, end: nat, j: nat, ghost was: seq<byte>)
    requires start <= 1 && start < i <= str.Length == |was| && end == i + start && AllDigits(was[start..i])
    requires start <= j < end / 2 && str[..] == Mirrored(was, start, i - start, j - start)
    modifies str
    ensures str[..] == Mirrored(was, start, i - start, j + 1 - start)
  {
    MirroredNext(was, start, i - start, j - start);
    MiddleDigits(was, start, i, j - start);
    SwapBySums(str, j, end - 1 - j);
  }

  lemma MiddleDigits(was: seq<byte>, start: nat, i: nat, j: nat)
    requires start <= i <= |was| && AllDigits(was[start..i]) && 2 * j < i - start
    ensures var m := Mirrored(was, start, i - start, j);
            48 <= m[start + j] <= 57 && 48 <= m[i - 1 - j] <= 57
  {
    assert was[start + j] == was[start..i][j] && was[i - 1 - j] == was[start..i][i - start - 1 - j];
  }

  // The three assignments: no sum of two digits overflows a char.
  method SwapBySums(str: array<byte>, j: nat, p: nat)
    requires j < str.Length && p < str.Length && 48 <= str[j] <= 57 && 48 <= str[p] <= 57 && j != p
    modifies str
    ensures str[..] == Swapped(old(str[..]), j, p)
  {
    ghost var was, a, b := str[..], str[j], str[p];
    SumOfDigits(a, b);
    str[j] := Sum(str[j], str[p]);
    str[p] := Difference(str[j], str[p]);
    assert str[p] == a;
    str[j] := Difference(str[j], str[p]);
    assert str[j] == b && str[p] == a;
  }

  lemma SumOfDigits(a: byte, b: byte)
    requires 48 <= a <= 57 && 48 <= b <= 57
    ensures Difference(Sum(a, b), b) == a && Difference(Sum(a, b), a) == b
  {
    assert Sum(a, b) as int == a as int + b as int;
  }

  // char arithmetic
  function Sum(a: byte, b: byte): byte {
    (a as int + b as int) % 256
  }

  function Difference(a: byte, b: byte): byte {
    (a as int - b as int) % 256
  }

  // `Int2String`: num in decimal and a terminator, for every num.
  method Int2String(num: int, str: array<byte>)
    requires |Decimal(num)| < str.Length
    modifies str
    ensures str[..|Decimal(num)|] == Decimal(num) && str[|Decimal(num)|] == 0
  {
    var start, n := 0, num;
    if n < 0 {
      n := 0 - n;
      str[0] := MINUS;
      start := 1;
    }
    assert str[..start] == Sign(num);
    PrintFrom(str, start, n);
  }

  // The rest, given whether position 0 holds a sign.
  method PrintFrom(str: array<byte>, start: nat, n: nat)
    requires start + |LowFirst(n)| < str.Length
    requires start == 0 || (start == 1 && str[0] == MINUS)
    modifies str
    ensures str[..start + |LowFirst(n)|] == old(str[..start]) + Reverse(LowFirst(n))
    ensures str[start + |LowFirst(n)|] == 0
  {
    ghost var sign := str[..start];
    assert start == 1 ==> sign[0] == MINUS;
    var i := PutDigits(str, start, n);
    LowFirstParses(n);
    Terminate(str, start, i);
    assert str[..start] == sign && str[start..i] == LowFirst(n);
    Turn(str, i, start);
    assert str[..i] == str[..start] + str[start..i];
  }

  method Terminate(str: array<byte>, start: nat, i: nat)
    requires start <= i < str.Length
    modifies str
    ensures str[i] == 0 && str[start..i] == old(str[start..i]) && str[..start] == old(str[..start])
  {
    str[i] := 0;
  }

  // The adjusting: where it starts depends on the sign.
  method Turn(str: array<byte>, i: nat, ghost start: nat)
    requires start < i < str.Length && AllDigits(str[start..i])
    requires start == 0 || (start == 1 && str[0] == MINUS)
    modifies str
    ensures str[start..i] == Reverse(old(str[start..i])) && str[..start] == old(str[..start])
    ensures str[i] == old(str[i])
  {
    assert start == 0 ==> str[0] == str[start..i][0];
    assert str[i..][0] == str[i];
    var j, end := 0, i;
    if str[0] == MINUS {
      j := 1;
      end := end + 1;
    }
    SwapDigits(str, j, i, end);
  }
}
