// Address translation over the live DMA buffers (driver/axidma_chrdev.c).
module Regions {
  import opened Types

  // A live buffer: a user virtual range and the bus address it starts at.
  datatype Region = Region(user: nat, size: nat, dma: nat)

  // `valid_dma_request`, whose pointer sums wrap
  predicate Holds(r: Region, addr: nat, n: nat) {
    r.user <= addr && SizeT(addr + n) <= SizeT(r.user + r.size)
  }

  // What it is meant to check.
  predicate Covers(r: Region, addr: nat, n: nat) {
    r.user <= addr && addr + n <= r.user + r.size
  }

  // The range ends inside the address space.
  predicate Proper(addr: nat, n: nat) {
    addr + n < WORD
  }

  // The first match in list order; 0 is the "no match" answer.
  function Translate(rs: seq<Region>, addr: nat, n: nat): nat {
    if rs == [] then 0
    else if Holds(rs[0], addr, n) then SizeT(rs[0].dma + (addr - rs[0].user))
    else Translate(rs[1..], addr, n)
  }

  predicate Apart(a: nat, n: nat, b: nat, m: nat) {
    n == 0 || m == 0 || a + n <= b || b + m <= a
  }

  // A buffer has a bus address and ends inside both address spaces.
  predicate Sane(r: Region) {
    r.dma > 0 && r.user + r.size < WORD && r.dma + r.size < WORD
  }

  // What the kernel guarantees of buffers that are live together.
  ghost predicate GoodRegions(rs: seq<Region>) {
    && (forall i :: 0 <= i < |rs| ==> Sane(rs[i]))
    && (forall i, j :: 0 <= i < j < |rs| ==>
          Apart(rs[i].user, rs[i].size, rs[j].user, rs[j].size)
          && Apart(rs[i].dma, rs[i].size, rs[j].dma, rs[j].size))
  }

  // The bus range [dma, dma + len) lies inside one live buffer.
  predicate Inside(rs: seq<Region>, dma: int, len: int) {
    exists i :: 0 <= i < |rs| && Within(rs[i], dma, len)
  }

  predicate Within(r: Region, dma: int, len: int) {
    r.dma <= dma && dma + len <= r.dma + r.size
  }

  // For a proper range the check is what it is meant to be.
  lemma HoldsCovers(r: Region, addr: nat, n: nat)
    requires Sane(r) && Proper(addr, n)
    ensures Holds(r, addr, n) <==> Covers(r, addr, n)
    ensures Covers(r, addr, n) ==> SizeT(r.dma + (addr - r.user)) == r.dma + (addr - r.user)
  {
  }

  lemma {:induction false} TranslateFound(rs: seq<Region>, addr: nat, n: nat)
    requires Proper(addr, n) && forall i :: 0 <= i < |rs| ==> Sane(rs[i])
    ensures Translate(rs, addr, n) == 0 ==> forall i :: 0 <= i < |rs| ==> !Covers(rs[i], addr, n)
    ensures Translate(rs, addr, n) != 0 ==>
              exists i :: 0 <= i < |rs| && Covers(rs[i], addr, n)
                          && Translate(rs, addr, n) == rs[i].dma + (addr - rs[i].user)
  {
    if rs != [] {
      HoldsCovers(rs[0], addr, n);
      if !Holds(rs[0], addr, n) {
        TranslateFound(rs[1..], addr, n);
        if Translate(rs, addr, n) == 0 {
          forall i | 0 <= i < |rs| ensures !Covers(rs[i], addr, n) {
            assert i > 0 ==> rs[i] == rs[1..][i - 1];
          }
        } else {
          var i :| 0 <= i < |rs[1..]| && Covers(rs[1..][i], addr, n)
            && Translate(rs[1..], addr, n) == rs[1..][i].dma + (addr - rs[1..][i].user);
          assert rs[i + 1] == rs[1..][i];
        }
      }
    }
  }

  // A proper range that is translated stays in the buffer it was found in.
  lemma TranslateInside(rs: seq<Region>, addr: nat, n: nat, len: int)
    requires GoodRegions(rs) && Proper(addr, n) && Translate(rs, addr, n) != 0 && len <= n
    ensures Inside(rs, Translate(rs, addr, n), len)
  {
    TranslateFound(rs, addr, n);
    var i :| 0 <= i < |rs| && Covers(rs[i], addr, n)
      && Translate(rs, addr, n) == rs[i].dma + (addr - rs[i].user);
    assert Within(rs[i], Translate(rs, addr, n), len);
  }

  // A proper, non-empty range is translated exactly when one live buffer covers
  // it, by that buffer's base plus the offset, and no other buffer covers it.
  lemma {:induction false} TranslateExact(rs: seq<Region>, addr: nat, n: nat)
    requires GoodRegions(rs) && n > 0 && Proper(addr, n)
    ensures Translate(rs, addr, n) != 0 <==> exists i :: 0 <= i < |rs| && Covers(rs[i], addr, n)
    ensures forall i :: 0 <= i < |rs| && Covers(rs[i], addr, n) ==>
              Translate(rs, addr, n) == rs[i].dma + (addr - rs[i].user)
              && Within(rs[i], Translate(rs, addr, n), n)
    ensures forall i, j :: 0 <= i < |rs| && 0 <= j < |rs| && Covers(rs[i], addr, n) && Covers(rs[j], addr, n)
                           ==> i == j
  {
    TranslateFound(rs, addr, n);
  }

  // A range whose end wraps lies in no buffer, but the check accepts it for a
  // buffer that starts before the range and ends after the wrapped end.
  lemma HoldsImproper(r: Region, addr: nat, n: nat)
    requires Sane(r) && addr < WORD && n < WORD && !Proper(addr, n)
    ensures !Covers(r, addr, n)
    ensures Holds(r, addr, n) <==> r.user <= addr && addr + n - WORD <= r.user + r.size
  {
  }

  // The bytes from addr to the end of the first buffer that holds the range.
  function Room(rs: seq<Region>, addr: nat, n: nat): int {
    if rs == [] then 0
    else if Holds(rs[0], addr, n) then rs[0].user + rs[0].size - addr
    else Room(rs[1..], addr, n)
  }

  lemma {:induction false} RoomFound(rs: seq<Region>, addr: nat, n: nat, i: nat)
    requires i < |rs| && Holds(rs[i], addr, n) && forall j :: 0 <= j < i ==> !Holds(rs[j], addr, n)
    ensures Room(rs, addr, n) == rs[i].user + rs[i].size - addr
  {
    if i > 0 {
      RoomFound(rs[1..], addr, n, i - 1);
    }
  }

  // What starts where a proper, non-empty range is translated to stays in live
  // buffers exactly as long as it fits into that room.
  lemma TranslateRoom(rs: seq<Region>, addr: nat, n: nat, len: int)
    requires GoodRegions(rs) && n > 0 && Proper(addr, n) && Translate(rs, addr, n) != 0
    ensures Inside(rs, Translate(rs, addr, n), len) <==> len <= Room(rs, addr, n)
  {
    TranslateExact(rs, addr, n);
    var dma := Translate(rs, addr, n);
    var i :| 0 <= i < |rs| && Covers(rs[i], addr, n);
    forall j | 0 <= j < |rs| ensures Holds(rs[j], addr, n) <==> j == i {
      HoldsCovers(rs[j], addr, n);
    }
    RoomFound(rs, addr, n, i);
    assert Within(rs[i], dma, len) <==> len <= Room(rs, addr, n);
    forall j | 0 <= j < |rs| && j != i && Within(rs[j], dma, len) ensures len <= Room(rs, addr, n) {
      var lo, hi := if i < j then i else j, if i < j then j else i;
      assert Apart(rs[lo].dma, rs[lo].size, rs[hi].dma, rs[hi].size);
    }
  }

  // The answer does not depend on the order in which buffers were listed.
  lemma TranslateIgnoresOrder(rs: seq<Region>, ss: seq<Region>, addr: nat, n: nat)
    requires GoodRegions(rs) && GoodRegions(ss) && n > 0 && Proper(addr, n)
    requires multiset(rs) == multiset(ss)
    ensures Translate(rs, addr, n) == Translate(ss, addr, n)
  {
    TranslateExact(rs, addr, n);
    TranslateExact(ss, addr, n);
    if i :| 0 <= i < |rs| && Covers(rs[i], addr, n) {
      assert rs[i] in multiset(ss);
      var j :| 0 <= j < |ss| && ss[j] == rs[i];
    } else {
      assert forall j :: 0 <= j < |ss| ==> ss[j] in multiset(rs);
    }
  }

  // For a range that wraps it does.
  lemma ImproperOrderMatters(a: Region, b: Region, addr: nat, n: nat)
    requires a == Region(4096, 4096, 8192) && b == Region(12288, 4096, 20480)
    requires addr == 16384 && n == WORD - 16000
    ensures GoodRegions([a, b]) && GoodRegions([b, a]) && multiset([a, b]) == multiset([b, a])
    ensures Translate([a, b], addr, n) != Translate([b, a], addr, n)
  {
    assert Holds(a, addr, n) && Holds(b, addr, n);
  }

  // Disjoint user ranges go to disjoint bus ranges.
  lemma TranslateKeepsApart(rs: seq<Region>, a: nat, n: nat, b: nat, m: nat)
    requires GoodRegions(rs) && n > 0 && m > 0 && Proper(a, n) && Proper(b, m)
    requires Translate(rs, a, n) != 0 && Translate(rs, b, m) != 0
    requires Apart(a, n, b, m)
    ensures Apart(Translate(rs, a, n), n, Translate(rs, b, m), m)
  {
    TranslateExact(rs, a, n);
    TranslateExact(rs, b, m);
    var i :| 0 <= i < |rs| && Covers(rs[i], a, n);
    var j :| 0 <= j < |rs| && Covers(rs[j], b, m);
    if i != j {
      var lo, hi := if i < j then i else j, if i < j then j else i;
      assert Apart(rs[lo].dma, rs[lo].size, rs[hi].dma, rs[hi].size);
    }
  }

  // A sub-range is translated to the same place as inside its whole range.
  lemma TranslateSubrange(rs: seq<Region>, a: nat, n: nat, b: nat, m: nat)
    requires GoodRegions(rs) && m > 0 && Proper(a, n)
    requires a <= b && b + m <= a + n
    requires Translate(rs, a, n) != 0
    ensures Translate(rs, b, m) == Translate(rs, a, n) + (b - a)
  {
    TranslateExact(rs, a, n);
    TranslateExact(rs, b, m);
    var i :| 0 <= i < |rs| && Covers(rs[i], a, n);
    assert Covers(rs[i], b, m);
  }
}
