// Channel discovery: the device tree is parsed into the channel table and the
// four counters that the library later sizes its arrays with
// (driver/axidma_of.c).
module DeviceTree {
  import opened Types

  // The first compatible string of the driver's table a channel node matches.
  datatype Compat = DmaTx | DmaRx | VdmaTx | VdmaRx | Missing | Other

  // What the device-tree accessors return for one entry of the 'dmas' list.
  datatype Entry = Entry(phandleRc: int, argsCount: int, channel: int, children: nat, hasId: bool,
                         idRc: int, id: int, compat: Compat, nameRc: int)

  // The second channel of a node with only one: the error message about it
  // follows the null node it reports. OOPS is no return code; it stands for the
  // kernel giving up there.
  const OOPS := 1

  predicate NullNode(n: Entry) {
    n.channel == 1 && n.children == 1
  }

  predicate ChildrenOk(n: Entry) {
    1 <= n.children <= 2
  }

  // The code the driver gives up with at this entry, or 0.
  function EntryRc(n: Entry): (rc: int) {
    if n.phandleRc < 0 then n.phandleRc
    else if n.argsCount < 1 || !(n.channel == 0 || n.channel == 1) || !ChildrenOk(n) then -EINVAL
    else if NullNode(n) then OOPS
    else if !n.hasId || n.idRc < 0 || n.compat == Other || n.nameRc < 0 then -EINVAL
    else 0
  }

  // The entries the driver accepts: a phandle with an argument, which names an
  // existing one of one or two children, an id, a name, and no 'compatible'
  // property that is none of the four.
  predicate Acceptable(n: Entry) {
    && n.phandleRc >= 0 && n.argsCount >= 1
    && ((n.channel == 0 && (n.children == 1 || n.children == 2)) || (n.channel == 1 && n.children == 2))
    && n.hasId && n.idRc >= 0 && n.nameRc >= 0 && n.compat != Other
  }

  // They are exactly the ones; any other code but the phandle's own is -EINVAL,
  // and the null node is followed exactly if nothing was wrong before it.
  lemma EntryOutcome(n: Entry)
    ensures EntryRc(n) == 0 <==> Acceptable(n)
    ensures n.phandleRc < 0 ==> EntryRc(n) == n.phandleRc
    ensures n.phandleRc >= 0 && !Acceptable(n) ==>
              EntryRc(n) == if n.argsCount >= 1 && n.channel == 1 && n.children == 1 then OOPS else -EINVAL
  {
  }

  // A table entry in memory. A direction or kind that was never written may be
  // no value of its enumeration (None).
  datatype Cell = Cell(dir: Option<Dir>, kind: Option<Kind>, id: int)

  predicate Known(c: Cell) {
    c.dir.Some? && c.kind.Some?
  }

  predicate Is(c: Cell, dir: Dir, kind: Kind) {
    c.dir == Some(dir) && c.kind == Some(kind)
  }

  ghost predicate AllKnown(cells: seq<Cell>) {
    forall i :: 0 <= i < |cells| ==> Known(cells[i])
  }

  function KnownChans(cells: seq<Cell>): seq<Chan>
    requires AllKnown(cells)
  {
    seq(|cells|, i requires 0 <= i < |cells| => Chan(cells[i].dir.value, cells[i].kind.value, cells[i].id))
  }

  ghost predicate UniqueCells(cells: seq<Cell>) {
    forall i, j :: 0 <= i < j < |cells| ==> cells[i].id != cells[j].id
  }

  // The entry that held `was` before; without a 'compatible' property its
  // direction and kind stay what the memory held.
  function CellOf(n: Entry, was: Cell): Cell {
    match n.compat
    case DmaTx => Cell(Some(Write), Some(DMA), n.id)
    case DmaRx => Cell(Some(Read), Some(DMA), n.id)
    case VdmaTx => Cell(Some(Write), Some(VDMA), n.id)
    case VdmaRx => Cell(Some(Read), Some(VDMA), n.id)
    case _ => was.(id := n.id)
  }

  function CellsOf(ns: seq<Entry>, was: seq<Cell>): seq<Cell>
    requires |was| == |ns|
  {
    seq(|ns|, i requires 0 <= i < |ns| => CellOf(ns[i], was[i]))
  }

  // How many of the first k entries have the given compatible string.
  function CountCompat(ns: seq<Entry>, k: nat, c: Compat): nat
    requires k <= |ns|
  {
    if k == 0 then 0 else CountCompat(ns, k - 1, c) + if ns[k - 1].compat == c then 1 else 0
  }

  // The ids of the channels of one direction and kind among the first k, in
  // table order.
  function IdsOf(cells: seq<Cell>, k: nat, dir: Dir, kind: Kind): seq<int>
    requires k <= |cells|
  {
    if k == 0 then []
    else IdsOf(cells, k - 1, dir, kind) + if Is(cells[k - 1], dir, kind) then [cells[k - 1].id] else []
  }

  function AllIds(cells: seq<Cell>, dir: Dir, kind: Kind): seq<int> {
    IdsOf(cells, |cells|, dir, kind)
  }

  // A prefix of the table never needs more room than the whole table.
  lemma {:induction false} IdsPrefix(cells: seq<Cell>, k: nat, n: nat, dir: Dir, kind: Kind)
    requires k <= n <= |cells|
    ensures |IdsOf(cells, k, dir, kind)| <= |IdsOf(cells, n, dir, kind)|
  {
    if k < n {
      IdsPrefix(cells, k, n - 1, dir, kind);
    }
  }

  function CompatOf(dir: Dir, kind: Kind): Compat {
    match (dir, kind)
    case (Write, DMA) => DmaTx
    case (Read, DMA) => DmaRx
    case (Write, VDMA) => VdmaTx
    case (Read, VDMA) => VdmaRx
  }

  // How many of the first k entries lack their 'compatible' property while the
  // memory of their table entry happened to hold the given direction and kind,
  function Uncounted(ns: seq<Entry>, was: seq<Cell>, k: nat, dir: Dir, kind: Kind): nat
    requires |was| == |ns| && k <= |ns|
  {
    if k == 0 then 0
    else Uncounted(ns, was, k - 1, dir, kind)
         + if ns[k - 1].compat == Missing && Is(was[k - 1], dir, kind) then 1 else 0
  }

  // ... or none.
  function Unplaceable(ns: seq<Entry>, was: seq<Cell>, k: nat): nat
    requires |was| == |ns| && k <= |ns|
  {
    if k == 0 then 0
    else Unplaceable(ns, was, k - 1) + if ns[k - 1].compat == Missing && !Known(was[k - 1]) then 1 else 0
  }

  // The library's list for a direction and kind is as long as the driver's
  // counter for it says, plus the channels that got there without being counted.
  lemma {:induction false} CountersAreSizes(ns: seq<Entry>, was: seq<Cell>, k: nat, dir: Dir, kind: Kind)
    requires |was| == |ns| && k <= |ns| && forall i :: 0 <= i < |ns| ==> EntryRc(ns[i]) == 0
    ensures |IdsOf(CellsOf(ns, was), k, dir, kind)|
            == CountCompat(ns, k, CompatOf(dir, kind)) + Uncounted(ns, was, k, dir, kind)
  {
    if k > 0 {
      CountersAreSizes(ns, was, k - 1, dir, kind);
      assert EntryRc(ns[k - 1]) == 0;
    }
  }

  // A known entry is of one direction and kind.
  lemma OnePlace(c: Cell)
    ensures (if Is(c, Write, DMA) then 1 else 0) + (if Is(c, Read, DMA) then 1 else 0)
            + (if Is(c, Write, VDMA) then 1 else 0) + (if Is(c, Read, VDMA) then 1 else 0)
            == if Known(c) then 1 else 0
  {
    if Known(c) {
      assert c.dir.value == Write || c.dir.value == Read;
      assert c.kind.value == DMA || c.kind.value == VDMA;
    }
  }

  // Every entry without the property got somewhere without being counted, or
  // fits nowhere.
  lemma {:induction false} UncountedSum(ns: seq<Entry>, was: seq<Cell>, k: nat)
    requires |was| == |ns| && k <= |ns|
    ensures Uncounted(ns, was, k, Write, DMA) + Uncounted(ns, was, k, Read, DMA)
            + Uncounted(ns, was, k, Write, VDMA) + Uncounted(ns, was, k, Read, VDMA)
            + Unplaceable(ns, was, k) == CountCompat(ns, k, Missing)
    ensures CountCompat(ns, k, Missing) == 0 <==> forall i :: 0 <= i < k ==> ns[i].compat != Missing
  {
    if k > 0 {
      UncountedSum(ns, was, k - 1);
      OnePlace(was[k - 1]);
    }
  }

  // An entry that is no channel of either enumeration is one that lacks its
  // property and whose memory held none.
  lemma {:induction false} UnplaceableCells(ns: seq<Entry>, was: seq<Cell>, k: nat)
    requires |was| == |ns| && k <= |ns| && forall i :: 0 <= i < |ns| ==> EntryRc(ns[i]) == 0
    ensures Unplaceable(ns, was, k) == 0 <==> forall i :: 0 <= i < k ==> Known(CellsOf(ns, was)[i])
  {
    if k > 0 {
      UnplaceableCells(ns, was, k - 1);
      assert EntryRc(ns[k - 1]) == 0;
      var c := CellsOf(ns, was)[k - 1];
      assert c == CellOf(ns[k - 1], was[k - 1]);
      assert Known(c) <==> !(ns[k - 1].compat == Missing && !Known(was[k - 1]));
    }
  }

  // The ids of the first k nodes with the given compatible string, in order.
  function NodeIds(ns: seq<Entry>, k: nat, c: Compat): seq<int>
    requires k <= |ns|
  {
    if k == 0 then [] else NodeIds(ns, k - 1, c) + if ns[k - 1].compat == c then [ns[k - 1].id] else []
  }

  // Each such node is listed at the place that its predecessors leave.
  lemma {:induction false} NodeIdsAre(ns: seq<Entry>, k: nat, c: Compat)
    requires k <= |ns|
    ensures |NodeIds(ns, k, c)| == CountCompat(ns, k, c)
    ensures forall i :: 0 <= i < k && ns[i].compat == c ==>
              CountCompat(ns, i, c) < CountCompat(ns, k, c)
              && NodeIds(ns, k, c)[CountCompat(ns, i, c)] == ns[i].id
  {
    if k > 0 {
      NodeIdsAre(ns, k - 1, c);
    }
  }

  // If no node lacks its property, the channels of one direction and kind are
  // the nodes with the compatible string for it.
  lemma {:induction false} CellsAreNodes(ns: seq<Entry>, was: seq<Cell>, k: nat, dir: Dir, kind: Kind)
    requires |was| == |ns| && k <= |ns|
    requires forall i :: 0 <= i < |ns| ==> EntryRc(ns[i]) == 0 && ns[i].compat != Missing
    ensures IdsOf(CellsOf(ns, was), k, dir, kind) == NodeIds(ns, k, CompatOf(dir, kind))
  {
    if k > 0 {
      CellsAreNodes(ns, was, k - 1, dir, kind);
      assert EntryRc(ns[k - 1]) == 0 && ns[k - 1].compat != Missing;
    }
  }

  // The table has the nodes' ids.
  lemma CellIds(ns: seq<Entry>, was: seq<Cell>)
    requires |was| == |ns|
    ensures UniqueCells(CellsOf(ns, was)) <==> forall i, j :: 0 <= i < j < |ns| ==> ns[i].id != ns[j].id
  {
    var cells := CellsOf(ns, was);
    assert forall i :: 0 <= i < |ns| ==> cells[i].id == ns[i].id;
  }

  // The four counters account for every channel exactly when no node lacks its
  // 'compatible' property: such a node is accepted but counted nowhere.
  lemma {:induction false} CountersSum(ns: seq<Entry>, k: nat)
    requires k <= |ns| && forall i :: 0 <= i < |ns| ==> EntryRc(ns[i]) == 0
    ensures var sum := CountCompat(ns, k, DmaTx) + CountCompat(ns, k, DmaRx)
                       + CountCompat(ns, k, VdmaTx) + CountCompat(ns, k, VdmaRx);
            && sum <= k
            && (sum == k <==> forall i :: 0 <= i < k ==> ns[i].compat != Missing)
  {
    if k > 0 {
      CountersSum(ns, k - 1);
      assert EntryRc(ns[k - 1]) == 0;
    }
  }

  ghost function Range(n: nat): (r: set<int>)
    ensures |r| == n && forall x :: x in r <==> 0 <= x < n
  {
    if n == 0 then {} else Range(n - 1) + {n - 1}
  }

  // With ids in [0, n), different ids are a permutation: every id is found.
  lemma IdsArePermutation(chans: seq<Chan>)
    requires UniqueIds(chans) && IdsInRange(chans)
    ensures forall id :: 0 <= id < |chans| ==> 0 <= Lookup(chans, id) && chans[Lookup(chans, id)].id == id
  {
    var n := |chans|;
    var used := set i | 0 <= i < n :: chans[i].id;
    UsedSize(chans);
    assert used <= Range(n);
    SubsetSameSize(used, Range(n));
    forall id | 0 <= id < n ensures 0 <= Lookup(chans, id) {
      assert id in used;
    }
  }

  lemma {:induction false} UsedSize(chans: seq<Chan>)
    requires UniqueIds(chans)
    ensures |set i | 0 <= i < |chans| :: chans[i].id| == |chans|
  {
    var all := set i | 0 <= i < |chans| :: chans[i].id;
    if chans == [] {
      assert all == {};
    } else {
      var k := |chans| - 1;
      var front := chans[..k];
      UsedSize(front);
      var rest := set i | 0 <= i < |front| :: front[i].id;
      assert chans[k].id !in rest;
      assert all == rest + {chans[k].id} by {
        forall x | x in all ensures x in rest + {chans[k].id} {
          var i :| 0 <= i < |chans| && chans[i].id == x;
          assert i < k ==> front[i].id == x;
        }
        forall x | x in rest ensures x in all {
          var i :| 0 <= i < |front| && front[i].id == x;
          assert chans[i].id == x;
        }
        assert chans[k].id in all;
      }
    }
  }

  lemma SubsetSameSize<X>(a: set<X>, b: set<X>)
    requires a <= b && |a| == |b|
    ensures a == b
  {
    assert b == a + (b - a);
  }

  // The part of `struct axidma_device` that discovery fills in.
  class ChannelTable {
    const channels: array<Cell>
    var numDmaTxChans: nat
    var numDmaRxChans: nat
    var numVdmaTxChans: nat
    var numVdmaRxChans: nat

    // The counters are those of the first k entries.
    ghost predicate Counted(ns: seq<Entry>, k: nat)
      requires k <= |ns|
      reads this
    {
      && numDmaTxChans == CountCompat(ns, k, DmaTx)
      && numDmaRxChans == CountCompat(ns, k, DmaRx)
      && numVdmaTxChans == CountCompat(ns, k, VdmaTx)
      && numVdmaRxChans == CountCompat(ns, k, VdmaRx)
    }

    constructor (numChans: nat, junk: Cell)
      ensures channels.Length == numChans && fresh(channels)
    {
      channels := new Cell[numChans](_ => junk);
      numDmaTxChans, numDmaRxChans, numVdmaTxChans, numVdmaRxChans := 0, 0, 0, 0;
    }

    method ParseCompatible(i: nat, ghost ns: seq<Entry>, n: Entry) returns (rc: int)
      requires i < channels.Length && i < |ns| && n == ns[i] && Counted(ns, i)
      modifies this, channels
      ensures rc == if n.compat == Other then -EINVAL else 0
      ensures rc == 0 ==> channels[i] == CellOf(n, old(channels[i])).(id := old(channels[i].id))
      ensures forall j :: 0 <= j < channels.Length && j != i ==> channels[j] == old(channels[j])
      ensures rc == 0 ==> Counted(ns, i + 1)
    {
      var was := channels[i];
      match n.compat {
        case DmaTx =>
          channels[i] := was.(kind := Some(DMA), dir := Some(Write));
          numDmaTxChans := numDmaTxChans + 1;
        case DmaRx =>
          channels[i] := was.(kind := Some(DMA), dir := Some(Read));
          numDmaRxChans := numDmaRxChans + 1;
        case VdmaTx =>
          channels[i] := was.(kind := Some(VDMA), dir := Some(Write));
          numVdmaTxChans := numVdmaTxChans + 1;
        case VdmaRx =>
          channels[i] := was.(kind := Some(VDMA), dir := Some(Read));
          numVdmaRxChans := numVdmaRxChans + 1;
        case Missing =>
        case Other =>
          return -EINVAL;
      }
      return 0;
    }

    method ParseChannel(i: nat, ghost ns: seq<Entry>, n: Entry) returns (rc: int)
      requires i < channels.Length && i < |ns| && n == ns[i] && Counted(ns, i)
      modifies this, channels
      ensures rc == if ChildrenOk(n) && NullNode(n) then OOPS
                    else if ChildrenOk(n) && n.hasId && n.idRc >= 0 && n.compat != Other then 0
                    else -EINVAL
      ensures rc == 0 ==> channels[i] == CellOf(n, old(channels[i]))
      ensures forall j :: 0 <= j < channels.Length && j != i ==> channels[j] == old(channels[j])
      ensures rc == 0 ==> Counted(ns, i + 1)
    {
      if n.children < 1 {
        return -EINVAL;
      } else if n.children > 2 {
        return -EINVAL;
      }
      if n.channel == 1 && n.children == 1 {
        return OOPS;
      }
      if !n.hasId {
        return -EINVAL;
      }
      if n.idRc < 0 {
        return -EINVAL;
      }
      channels[i] := channels[i].(id := n.id);
      rc := ParseCompatible(i, ns, n);
    }

    // One round of the parsing loop
    method ParseEntry(i: nat, ghost ns: seq<Entry>, n: Entry) returns (rc: int)
      requires i < channels.Length && i < |ns| && n == ns[i] && Counted(ns, i)
      modifies this, channels
      ensures rc == EntryRc(n)
      ensures rc == 0 ==> channels[i] == CellOf(n, old(channels[i]))
      ensures forall j :: 0 <= j < channels.Length && j != i ==> channels[j] == old(channels[j])
      ensures rc == 0 ==> Counted(ns, i + 1)
    {
      if n.phandleRc < 0 {
        return n.phandleRc;
      }
      if n.argsCount < 1 {
        return -EINVAL;
      } else if n.channel != 0 && n.channel != 1 {
        return -EINVAL;
      }
      rc := ParseChannel(i, ns, n);
      if rc != 0 {
        return;
      }
      if n.nameRc < 0 {
        return -EINVAL;
      }
    }

    // 0 exactly when all ids differ.
    method CheckUniqueIds() returns (rc: int)
      ensures rc == if UniqueCells(channels[..]) then 0 else -EINVAL
    {
      for i := 0 to channels.Length
        invariant forall a, b :: 0 <= a < i && a < b < channels.Length ==> channels[a].id != channels[b].id
      {
        for j := i + 1 to channels.Length
          invariant forall b :: i < b < j ==> channels[i].id != channels[b].id
        {
          if channels[i].id == channels[j].id {
            assert channels[..][i].id == channels[..][j].id;
            return -EINVAL;
          }
        }
      }
      return 0;
    }

    // All entries in order, then the uniqueness check; the first entry that
    // cannot be parsed decides the error.
    method ParseDmaNodes(ns: seq<Entry>) returns (rc: int)
      requires channels.Length == |ns|
      modifies this, channels
      ensures rc == 0 <==> (forall i :: 0 <= i < |ns| ==> EntryRc(ns[i]) == 0)
                           && UniqueCells(CellsOf(ns, old(channels[..])))
      ensures rc == 0 ==> channels[..] == CellsOf(ns, old(channels[..])) && Counted(ns, |ns|)
      ensures rc != 0 && (exists i :: 0 <= i < |ns| && EntryRc(ns[i]) != 0) ==>
                exists i :: 0 <= i < |ns| && rc == EntryRc(ns[i])
                            && forall j :: 0 <= j < i ==> EntryRc(ns[j]) == 0
      ensures rc != 0 && (forall i :: 0 <= i < |ns| ==> EntryRc(ns[i]) == 0) ==> rc == -EINVAL
    {
      numDmaTxChans, numDmaRxChans, numVdmaTxChans, numVdmaRxChans := 0, 0, 0, 0;
      var i := 0;
      while i < channels.Length
        invariant i <= |ns|
        invariant forall j :: 0 <= j < i ==>
          EntryRc(ns[j]) == 0 && channels[j] == CellOf(ns[j], old(channels[j]))
        invariant forall j :: i <= j < channels.Length ==> channels[j] == old(channels[j])
        invariant Counted(ns, i)
      {
        rc := ParseEntry(i, ns, ns[i]);
        if rc != 0 {
          return;
        }
        i := i + 1;
      }
      assert channels[..] == CellsOf(ns, old(channels[..]));
      rc := CheckUniqueIds();
    }
  }
}
