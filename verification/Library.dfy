// The library's view of the channels: four id lists, one callback entry per
// channel, and the signal handler that dispatches on the id a completion
// signal carries (library/libaxidma.c).
module Library {
  import opened Types
  import opened DeviceTree
  import opened Regions
  import S = DriverSpec
  import R = DriverRuns
  import D = Driver

  // `dma_channel_t`; callbacks are named by numbers.
  datatype DmaChannel = DmaChannel(chan: Chan, callback: Option<nat>, userData: int)

  datatype Call = Call(id: int, callback: nat, userData: int)

  // What happens to the library: callbacks are set, signals arrive.
  datatype Event = SetCallback(id: int, callback: Option<nat>, userData: int) | Signal(id: int)

  // The registration for an id that is in force after a history.
  function LastRegistered(history: seq<Event>, id: int): (Option<nat>, int) {
    if history == [] then (None, 0)
    else
      var e := history[|history| - 1];
      if e.SetCallback? && e.id == id then (e.callback, e.userData)
      else LastRegistered(history[..|history| - 1], id)
  }

  // Event k registers a callback for the id.
  predicate Registers(history: seq<Event>, k: int, id: int) {
    0 <= k < |history| && history[k].SetCallback? && history[k].id == id
  }

  // Before event j, event k is the last that registers one.
  ghost predicate Latest(history: seq<Event>, j: nat, id: int, k: int) {
    && k < j && Registers(history, k, id)
    && forall i :: k < i < j ==> !Registers(history, i, id)
  }

  // The registration in force is that of the last event that made one, callback
  // and data; without such an event there is none.
  lemma {:induction false} LastRegisteredIs(history: seq<Event>, id: int)
    ensures forall k :: Latest(history, |history|, id, k) ==>
              LastRegistered(history, id) == (history[k].callback, history[k].userData)
    ensures (forall k :: !Registers(history, k, id)) ==> LastRegistered(history, id) == (None, 0)
    ensures (exists k :: Registers(history, k, id)) ==> exists k :: Latest(history, |history|, id, k)
  {
    if history != [] {
      var n := |history| - 1;
      var front := history[..n];
      LastRegisteredIs(front, id);
      forall k | k < n ensures Registers(front, k, id) <==> Registers(history, k, id) {
      }
      if Registers(history, n, id) {
        assert Latest(history, |history|, id, n);
      } else {
        forall k ensures Latest(history, |history|, id, k) <==> Latest(front, n, id, k) {
        }
      }
    }
  }

  // What was registered before event j does not depend on what came later.
  lemma LatestBefore(history: seq<Event>, j: nat, id: int)
    requires j <= |history|
    ensures forall k :: Latest(history, j, id, k) <==> Latest(history[..j], j, id, k)
  {
    forall k | k < j ensures Registers(history, k, id) <==> Registers(history[..j], k, id) {
    }
  }

  // Signal j arrives while event k's registration is in force and names a
  // callback.
  ghost predicate AnsweredBy(history: seq<Event>, j: nat, id: int, k: int) {
    j <= |history| && Latest(history, j, id, k) && history[k].callback.Some?
  }

  lemma InForceBefore(history: seq<Event>, j: nat, id: int)
    requires j <= |history|
    ensures LastRegistered(history[..j], id).0.Some? <==> exists k :: AnsweredBy(history, j, id, k)
    ensures forall k :: AnsweredBy(history, j, id, k) ==>
              LastRegistered(history[..j], id) == (history[k].callback, history[k].userData)
  {
    LastRegisteredIs(history[..j], id);
    LatestBefore(history, j, id);
    if LastRegistered(history[..j], id).0.Some? {
      var k :| Latest(history[..j], j, id, k);
      assert AnsweredBy(history, j, id, k);
    }
  }

  // The callbacks a history must invoke: for each signal the one most recently
  // registered for its id before it arrived, if there is one.
  function Invocations(history: seq<Event>): seq<Call> {
    if history == [] then []
    else
      var before := history[..|history| - 1];
      Invocations(before) +
      match history[|history| - 1]
      case Signal(id) =>
        var (callback, userData) := LastRegistered(before, id);
        if callback.Some? then [Call(id, callback.value, userData)] else []
      case _ => []
  }

  // The signals that find a callback, in order.
  ghost function Answerable(history: seq<Event>): (at: seq<nat>)
    ensures forall i :: 0 <= i < |at| ==> at[i] < |history| && history[at[i]].Signal?
    ensures forall i, j :: 0 <= i < j < |at| ==> at[i] < at[j]
  {
    if history == [] then []
    else
      var n := |history| - 1;
      Answerable(history[..n])
      + if history[n].Signal? && LastRegistered(history[..n], history[n].id).0.Some? then [n] else []
  }

  // Signal j finds a callback.
  ghost predicate Speaks(history: seq<Event>, j: nat) {
    j < |history| && history[j].Signal? && exists k :: AnsweredBy(history, j, history[j].id, k)
  }

  // Later events change neither.
  lemma AnsweredByPrefix(history: seq<Event>, n: nat, j: nat, id: int)
    requires j < n <= |history|
    ensures forall k :: AnsweredBy(history[..n], j, id, k) <==> AnsweredBy(history, j, id, k)
  {
    forall k | k < j ensures Registers(history, k, id) <==> Registers(history[..n], k, id) {
    }
  }

  lemma SpeaksPrefix(history: seq<Event>, n: nat, j: nat)
    requires j < n <= |history|
    ensures Speaks(history[..n], j) <==> Speaks(history, j)
  {
    AnsweredByPrefix(history, n, j, history[j].id);
    if k :| AnsweredBy(history[..n], j, history[j].id, k) {
      assert AnsweredBy(history, j, history[j].id, k);
    }
    if k :| AnsweredBy(history, j, history[j].id, k) {
      assert AnsweredBy(history[..n], j, history[j].id, k);
    }
  }

  // The last event is answered exactly if it finds a callback.
  lemma LastSpeaks(history: seq<Event>)
    requires history != []
    ensures var n := |history| - 1;
            Speaks(history, n)
            <==> history[n].Signal? && LastRegistered(history[..n], history[n].id).0.Some?
  {
    var n := |history| - 1;
    InForceBefore(history, n, history[n].id);
  }

  // The positions are exactly those of the signals that find a callback.
  lemma {:induction false} AnswerableAre(history: seq<Event>)
    ensures forall j: nat :: j in Answerable(history) <==> Speaks(history, j)
  {
    if history != [] {
      var n := |history| - 1;
      AnswerableAre(history[..n]);
      LastSpeaks(history);
      forall j: nat ensures j in Answerable(history) <==> Speaks(history, j) {
        if j < n {
          SpeaksPrefix(history, n, j);
        }
      }
    }
  }

  // The call is the one that event k's registration demands for signal j.
  ghost predicate RightCall(history: seq<Event>, j: nat, c: Call) {
    j < |history| && forall k :: AnsweredBy(history, j, history[j].id, k) ==>
      c == Call(history[j].id, history[k].callback.value, history[k].userData)
  }

  // The calls a history demands, said of its events: the signals that find a
  // callback, as AnswerableAre has them, are answered in order, one call each,
  // of the callback and with the data of the last registration before it.
  lemma {:induction false} InvocationsAre(history: seq<Event>)
    ensures var at, calls := Answerable(history), Invocations(history);
            |calls| == |at| && forall i :: 0 <= i < |at| ==> RightCall(history, at[i], calls[i])
  {
    if history != [] {
      var n := |history| - 1;
      var front := history[..n];
      InvocationsAre(front);
      var at, calls := Answerable(front), Invocations(front);
      forall i | 0 <= i < |at| ensures RightCall(history, at[i], calls[i]) {
        AnsweredByPrefix(history, n, at[i], history[at[i]].id);
        assert RightCall(front, at[i], calls[i]);
      }
      InForceBefore(history, n, history[n].id);
    }
  }

  // `array_t`, with room for as many ids as were allocated.
  class IdArray {
    const data: array<int>
    var len: nat

    constructor (size: nat)
      ensures data.Length == size && len == 0 && fresh(data)
    {
      data := new int[size];
      len := 0;
    }

    ghost function Ids(): seq<int>
      requires len <= data.Length
      reads this, data
    {
      data[..len]
    }

    // The library does not check the bound; the model stops at a write beyond
    // it and says so.
    method Add(id: int) returns (inside: bool)
      requires len <= data.Length
      modifies this, data
      ensures inside <==> old(len) < data.Length
      ensures len <= data.Length && Ids() == if inside then old(Ids()) + [id] else old(Ids())
    {
      inside := len < data.Length;
      if inside {
        data[len] := id;
        len := len + 1;
      }
    }
  }

  // `struct axidma_num_channels`
  datatype NumChannels = NumChannels(total: nat, dmaTx: nat, dmaRx: nat, vdmaTx: nat, vdmaRx: nat)

  // The counter for one direction and kind.
  function CounterOf(num: NumChannels, dir: Dir, kind: Kind): nat {
    match (dir, kind)
    case (Write, DMA) => num.dmaTx
    case (Read, DMA) => num.dmaRx
    case (Write, VDMA) => num.vdmaTx
    case (Read, VDMA) => num.vdmaRx
  }

  // The counters leave room for the table, and do so exactly.
  ghost predicate CountsSuffice(cells: seq<Cell>, num: NumChannels) {
    forall dir, kind :: |AllIds(cells, dir, kind)| <= CounterOf(num, dir, kind)
  }

  ghost predicate CountsFit(cells: seq<Cell>, num: NumChannels) {
    forall dir, kind :: |AllIds(cells, dir, kind)| == CounterOf(num, dir, kind)
  }

  lemma CountsByList(cells: seq<Cell>, num: NumChannels)
    ensures CountsFit(cells, num) <==>
              && |AllIds(cells, Write, DMA)| == num.dmaTx && |AllIds(cells, Read, DMA)| == num.dmaRx
              && |AllIds(cells, Write, VDMA)| == num.vdmaTx && |AllIds(cells, Read, VDMA)| == num.vdmaRx
  {
    forall dir, kind
      ensures CounterOf(num, dir, kind)
              == if dir == Write then (if kind == DMA then num.dmaTx else num.vdmaTx)
                 else (if kind == DMA then num.dmaRx else num.vdmaRx)
    {
    }
  }

  // How the categorising loop ends: all channels placed, a write beyond a list,
  // or the program aborted because no list is right.
  datatype Placement = Placed | Overflow | NoList

  // There is no list for the i-th channel, or no room in it ...
  ghost predicate NoPlace(cells: seq<Cell>, num: NumChannels, i: nat)
    requires i < |cells|
  {
    !Known(cells[i])
    || |IdsOf(cells, i + 1, cells[i].dir.value, cells[i].kind.value)|
       > CounterOf(num, cells[i].dir.value, cells[i].kind.value)
  }

  // ... and there were for those before it.
  ghost predicate Stops(cells: seq<Cell>, num: NumChannels, i: nat)
    requires i < |cells|
  {
    NoPlace(cells, num, i) && AllPlaced(cells, num, i)
  }

  ghost predicate AllPlaced(cells: seq<Cell>, num: NumChannels, k: nat)
    requires k <= |cells|
  {
    forall i :: 0 <= i < k ==> !NoPlace(cells, num, i)
  }

  // The first channel without a place decides.
  ghost predicate Ends(cells: seq<Cell>, num: NumChannels, how: Placement) {
    match how
    case Placed => AllPlaced(cells, num, |cells|)
    case Overflow => exists i :: 0 <= i < |cells| && Stops(cells, num, i) && Known(cells[i])
    case NoList => exists i :: 0 <= i < |cells| && Stops(cells, num, i) && !Known(cells[i])
  }

  // All channels are placed exactly when every entry is a channel and the
  // counters leave enough room.
  lemma PlacedExactly(cells: seq<Cell>, num: NumChannels)
    ensures AllPlaced(cells, num, |cells|) <==> AllKnown(cells) && CountsSuffice(cells, num)
  {
    if AllKnown(cells) && CountsSuffice(cells, num) {
      forall i | 0 <= i < |cells| ensures !NoPlace(cells, num, i) {
        var dir, kind := cells[i].dir.value, cells[i].kind.value;
        IdsPrefix(cells, i + 1, |cells|, dir, kind);
        assert |AllIds(cells, dir, kind)| <= CounterOf(num, dir, kind);
      }
    }
    if AllPlaced(cells, num, |cells|) {
      forall i | 0 <= i < |cells| ensures Known(cells[i]) {
        assert !NoPlace(cells, num, i);
      }
      forall dir, kind ensures |AllIds(cells, dir, kind)| <= CounterOf(num, dir, kind) {
        PlacedFit(cells, num, |cells|, dir, kind);
      }
    }
  }

  lemma {:induction false} PlacedFit(cells: seq<Cell>, num: NumChannels, k: nat, dir: Dir, kind: Kind)
    requires k <= |cells| && AllPlaced(cells, num, k)
    ensures |IdsOf(cells, k, dir, kind)| <= CounterOf(num, dir, kind)
  {
    if k > 0 {
      PlacedFit(cells, num, k - 1, dir, kind);
      assert !NoPlace(cells, num, k - 1);
    }
  }

  // The heap blocks of the device structure, by the field that points to them.
  datatype Block = ChannelBlock | ListBlock(dir: Dir, kind: Kind)

  const ALL_BLOCKS := {ChannelBlock, ListBlock(Write, DMA), ListBlock(Read, DMA),
                       ListBlock(Write, VDMA), ListBlock(Read, VDMA)}

  // free: only what has been allocated and not yet freed.
  ghost function Free(owned: set<Block>, b: Block): set<Block>
    requires b in owned
  {
    owned - {b}
  }

  // How the handler of the completion signal ends: it makes calls, its assert
  // aborts the program, or it reads beyond the table.
  datatype Handled = Made(calls: seq<Call>) | Aborted | OutOfBounds

  // The device structure in a first initialisation; `owned` are the heap blocks
  // that have been allocated and not freed.
  class AxidmaDev {
    var dmaTx: IdArray
    var dmaRx: IdArray
    var vdmaTx: IdArray
    var vdmaRx: IdArray
    var channels: array<DmaChannel>
    ghost var owned: set<Block>

    // The entries list the driver's channels in its order.
    ghost predicate Lists(chans: seq<Chan>)
      reads this, channels
    {
      channels.Length == |chans| && forall i :: 0 <= i < |chans| ==> channels[i].chan == chans[i]
    }

    // The callbacks in force are the ones the history registered last.
    ghost predicate InForce(history: seq<Event>)
      reads this, channels
    {
      forall i :: 0 <= i < channels.Length ==>
        (channels[i].callback, channels[i].userData) == LastRegistered(history, i)
    }

    // Array a holds the ids of one direction and kind among the first k channels.
    ghost predicate Holds(a: IdArray, cells: seq<Cell>, k: nat, dir: Dir, kind: Kind)
      requires k <= |cells|
      reads a, a.data
    {
      a.len <= a.data.Length && a.Ids() == IdsOf(cells, k, dir, kind)
    }

    // The arrays are as long as the counters say.
    ghost predicate Sized(num: NumChannels)
      reads this
    {
      && dmaTx.data.Length == num.dmaTx && dmaRx.data.Length == num.dmaRx
      && vdmaTx.data.Length == num.vdmaTx && vdmaRx.data.Length == num.vdmaRx
    }

    ghost predicate Separate()
      reads this
    {
      && dmaTx != dmaRx && dmaTx != vdmaTx && dmaTx != vdmaRx
      && dmaRx != vdmaTx && dmaRx != vdmaRx && vdmaTx != vdmaRx
      && dmaTx.data != dmaRx.data && dmaTx.data != vdmaTx.data && dmaTx.data != vdmaRx.data
      && dmaRx.data != vdmaTx.data && dmaRx.data != vdmaRx.data && vdmaTx.data != vdmaRx.data
    }

    // Each list is the order-preserving list of its direction and kind.
    ghost predicate Categorized(cells: seq<Cell>)
      reads this, dmaTx, dmaRx, vdmaTx, vdmaRx
      reads dmaTx.data, dmaRx.data, vdmaTx.data, vdmaRx.data, channels
    {
      && AllKnown(cells) && Lists(KnownChans(cells))
      && Holds(dmaTx, cells, |cells|, Write, DMA) && Holds(dmaRx, cells, |cells|, Read, DMA)
      && Holds(vdmaTx, cells, |cells|, Write, VDMA) && Holds(vdmaRx, cells, |cells|, Read, VDMA)
    }

    // No array has room left.
    ghost predicate Full()
      reads this, dmaTx, dmaRx, vdmaTx, vdmaRx
    {
      && dmaTx.len == dmaTx.data.Length && dmaRx.len == dmaRx.data.Length
      && vdmaTx.len == vdmaTx.data.Length && vdmaRx.len == vdmaRx.data.Length
    }

    // The zeroed global
    constructor ()
      ensures owned == {} && fresh(channels)
    {
      dmaTx := new IdArray(0);
      dmaRx := new IdArray(0);
      vdmaTx := new IdArray(0);
      vdmaRx := new IdArray(0);
      channels := new DmaChannel[0];
      owned := {};
    }

    // The five allocations, of which the failAt-th fails. Each failure frees
    // exactly the blocks allocated before it.
    method Allocate(num: NumChannels, failAt: nat) returns (rc: int)
      requires owned == {}
      modifies this
      ensures rc == if failAt < 5 then -ENOMEM else 0
      ensures owned == if failAt < 5 then {} else ALL_BLOCKS
      ensures rc == 0 ==>
                && Separate() && Sized(num) && fresh(channels) && channels.Length == num.total
                && fresh(dmaTx) && fresh(dmaRx) && fresh(vdmaTx) && fresh(vdmaRx)
                && fresh(dmaTx.data) && fresh(dmaRx.data) && fresh(vdmaTx.data) && fresh(vdmaRx.data)
                && dmaTx.len == dmaRx.len == vdmaTx.len == vdmaRx.len == 0
    {
      if failAt == 0 {
        return -ENOMEM;
      }
      channels := new DmaChannel[num.total](_ => DmaChannel(Chan(Write, DMA, 0), Some(0), 0));
      owned := owned + {ChannelBlock};
      if failAt == 1 {
        owned := Free(owned, ChannelBlock);
        return -ENOMEM;
      }
      dmaTx := new IdArray(num.dmaTx);
      owned := owned + {ListBlock(Write, DMA)};
      if failAt == 2 {
        owned := Free(owned, ChannelBlock);
        owned := Free(owned, ListBlock(Write, DMA));
        return -ENOMEM;
      }
      dmaRx := new IdArray(num.dmaRx);
      owned := owned + {ListBlock(Read, DMA)};
      rc := AllocateVdma(num, failAt);
    }

    // The second half: the two VDMA lists, and the ladder from there.
    method AllocateVdma(num: NumChannels, failAt: nat) returns (rc: int)
      requires failAt >= 3 && owned == {ChannelBlock, ListBlock(Write, DMA), ListBlock(Read, DMA)}
      modifies this`vdmaTx, this`vdmaRx, this`owned
      ensures rc == if failAt < 5 then -ENOMEM else 0
      ensures owned == if rc != 0 then {} else ALL_BLOCKS
      ensures rc == 0 ==>
                && fresh(vdmaTx) && fresh(vdmaRx) && fresh(vdmaTx.data) && fresh(vdmaRx.data)
                && vdmaTx != vdmaRx && vdmaTx.data != vdmaRx.data && vdmaTx.len == vdmaRx.len == 0
                && vdmaTx.data.Length == num.vdmaTx && vdmaRx.data.Length == num.vdmaRx
    {
      if failAt == 3 {
        owned := Free(owned, ChannelBlock);
        owned := Free(owned, ListBlock(Write, DMA));
        owned := Free(owned, ListBlock(Read, DMA));
        return -ENOMEM;
      }
      vdmaTx := new IdArray(num.vdmaTx);
      owned := owned + {ListBlock(Write, VDMA)};
      if failAt == 4 {
        owned := Free(owned, ChannelBlock);
        owned := Free(owned, ListBlock(Write, DMA));
        owned := Free(owned, ListBlock(Read, DMA));
        owned := Free(owned, ListBlock(Write, VDMA));
        return -ENOMEM;
      }
      vdmaRx := new IdArray(num.vdmaRx);
      owned := owned + {ListBlock(Read, VDMA)};
      return 0;
    }

    // For any table and any counters: the loop ends at the first entry that is
    // no channel, by its assert, or for which the counters leave too little
    // room, by a write beyond a list. Otherwise each array holds the ids of its
    // direction and kind in table order, and all are full exactly when the
    // counters fit. A failed allocation leaves nothing behind.
    method Categorize(cells: seq<Cell>, num: NumChannels, failAt: nat) returns (rc: int, how: Placement)
      requires num.total == |cells| && owned == {}
      modifies this
      ensures rc == if failAt < 5 then -ENOMEM else 0
      ensures owned == if rc != 0 then {} else ALL_BLOCKS
      ensures rc == 0 ==> Ends(cells, num, how)
      ensures rc == 0 && how.Placed? ==> Categorized(cells) && InForce([]) && fresh(channels)
      ensures rc == 0 && how.Placed? ==> Sized(num) && (Full() <==> CountsFit(cells, num))
    {
      how := Placed;
      rc := Allocate(num, failAt);
      if rc != 0 {
        return;
      }
      how := PlaceAll(cells, num);
      CountsByList(cells, num);
    }

    // The categorising loop
    method PlaceAll(cells: seq<Cell>, ghost num: NumChannels) returns (how: Placement)
      requires Filled(cells, 0) && Sized(num)
      modifies dmaTx, dmaRx, vdmaTx, vdmaRx
      modifies dmaTx.data, dmaRx.data, vdmaTx.data, vdmaRx.data, channels
      ensures Ends(cells, num, how)
      ensures how.Placed? ==> Filled(cells, |cells|)
    {
      how := Placed;
      for i := 0 to |cells|
        invariant Filled(cells, i) && AllPlaced(cells, num, i)
      {
        how := Place(cells, i, num);
        if how != Placed {
          return;
        }
      }
      how := Placed;
    }

    // The ids of the first k channels are in their lists ...
    ghost predicate Listed(cells: seq<Cell>, k: nat)
      requires k <= |cells|
      reads this, dmaTx, dmaRx, vdmaTx, vdmaRx
      reads dmaTx.data, dmaRx.data, vdmaTx.data, vdmaRx.data
    {
      && Separate()
      && Holds(dmaTx, cells, k, Write, DMA) && Holds(dmaRx, cells, k, Read, DMA)
      && Holds(vdmaTx, cells, k, Write, VDMA) && Holds(vdmaRx, cells, k, Read, VDMA)
    }

    // ... and their entries are set.
    ghost predicate Filled(cells: seq<Cell>, k: nat)
      requires k <= |cells|
      reads this, dmaTx, dmaRx, vdmaTx, vdmaRx
      reads dmaTx.data, dmaRx.data, vdmaTx.data, vdmaRx.data, channels
    {
      && Listed(cells, k) && channels.Length == |cells|
      && forall j :: 0 <= j < k ==>
           Known(cells[j])
           && channels[j] == DmaChannel(Chan(cells[j].dir.value, cells[j].kind.value, cells[j].id), None, 0)
    }

    // One round of the categorising loop
    method Place(cells: seq<Cell>, i: nat, ghost num: NumChannels) returns (how: Placement)
      requires i < |cells| && Filled(cells, i) && Sized(num) && AllPlaced(cells, num, i)
      modifies dmaTx, dmaRx, vdmaTx, vdmaRx
      modifies dmaTx.data, dmaRx.data, vdmaTx.data, vdmaRx.data, channels
      ensures if how.Placed? then Filled(cells, i + 1) && AllPlaced(cells, num, i + 1) else Ends(cells, num, how)
    {
      var cell := cells[i];
      if cell.dir.None? || cell.kind.None? {
        assert Stops(cells, num, i);
        return NoList;
      }
      var inside := AddId(cells, i, num);
      if !inside {
        assert Stops(cells, num, i);
        return Overflow;
      }
      channels[i] := DmaChannel(Chan(cell.dir.value, cell.kind.value, cell.id), None, 0);
      return Placed;
    }

    method AddId(cells: seq<Cell>, i: nat, ghost num: NumChannels) returns (inside: bool)
      requires i < |cells| && Known(cells[i]) && Listed(cells, i) && Sized(num)
      modifies dmaTx, dmaRx, vdmaTx, vdmaRx, dmaTx.data, dmaRx.data, vdmaTx.data, vdmaRx.data
      ensures inside ==> Listed(cells, i + 1)
      ensures inside <==> !NoPlace(cells, num, i)
    {
      var dir, kind := cells[i].dir.value, cells[i].kind.value;
      if dir == Write && kind == DMA {
        inside := AddTo(dmaTx, cells, i, Write, DMA);
      } else if dir == Read && kind == DMA {
        inside := AddTo(dmaRx, cells, i, Read, DMA);
      } else if dir == Write && kind == VDMA {
        inside := AddTo(vdmaTx, cells, i, Write, VDMA);
      } else {
        inside := AddTo(vdmaRx, cells, i, Read, VDMA);
      }
    }

    method AddTo(a: IdArray, cells: seq<Cell>, i: nat, dir: Dir, kind: Kind) returns (inside: bool)
      requires i < |cells| && Is(cells[i], dir, kind)
      requires Holds(a, cells, i, dir, kind)
      modifies a, a.data
      ensures inside ==> Holds(a, cells, i + 1, dir, kind)
      ensures inside <==> |IdsOf(cells, i + 1, dir, kind)| <= a.data.Length
    {
      inside := a.Add(cells[i].id);
    }

    method FindChannel(ghost chans: seq<Chan>, channelId: int) returns (p: int)
      requires Lists(chans)
      ensures p == Lookup(chans, channelId)
    {
      for i := 0 to channels.Length
        invariant forall j :: 0 <= j < i ==> chans[j].id != channelId
      {
        if channels[i].chan.id == channelId {
          return i;
        }
      }
      return -1;
    }

    // The entry is the one the id indexes, as in the signal handler.
    method SetCallbackFor(ghost chans: seq<Chan>, ghost history: seq<Event>,
                          id: int, callback: Option<nat>, userData: int)
      requires Lists(chans) && InForce(history) && IdsInRange(chans) && Lookup(chans, id) >= 0
      modifies channels
      ensures Lists(chans) && InForce(history + [SetCallback(id, callback, userData)])
    {
      channels[id] := channels[id].(callback := callback, userData := userData);
      forall i | 0 <= i < channels.Length
        ensures (channels[i].callback, channels[i].userData)
                == LastRegistered(history + [SetCallback(id, callback, userData)], i)
      {
        assert (history + [SetCallback(id, callback, userData)])[..|history|] == history;
      }
    }

    // The handler of the completion signal. Its assert lets the id through that
    // is one beyond the table.
    method OnSignal(ghost history: seq<Event>, id: int) returns (h: Handled)
      requires InForce(history)
      ensures h.Aborted? <==> id < 0 || id > channels.Length
      ensures h.OutOfBounds? <==> id == channels.Length
      ensures h.Made? ==> Invocations(history + [Signal(id)]) == Invocations(history) + h.calls
      ensures InForce(history + [Signal(id)])
    {
      assert (history + [Signal(id)])[..|history|] == history;
      if !(0 <= id <= channels.Length) {
        return Aborted;
      }
      if id == channels.Length {
        return OutOfBounds;
      }
      var chan := channels[id];
      if chan.callback.Some? {
        return Made([Call(id, chan.callback.value, chan.userData)]);
      } else {
        return Made([]);
      }
    }

    method HandleEvent(ghost chans: seq<Chan>, ghost history: seq<Event>, e: Event) returns (calls: seq<Call>)
      requires Lists(chans) && InForce(history) && IdsInRange(chans)
      requires 0 <= e.id < channels.Length && Lookup(chans, e.id) >= 0
      modifies channels
      ensures Lists(chans) && InForce(history + [e])
      ensures Invocations(history + [e]) == Invocations(history) + calls
    {
      match e {
        case SetCallback(id, callback, userData) =>
          calls := [];
          assert (history + [e])[..|history|] == history;
          SetCallbackFor(chans, history, id, callback, userData);
        case Signal(id) =>
          var h := OnSignal(history, id);
          calls := h.calls;
      }
    }

    // The whole life of the dispatcher: it makes exactly the calls the history
    // demands.
    method Deliver(ghost chans: seq<Chan>, history: seq<Event>) returns (calls: seq<Call>)
      requires Lists(chans) && UniqueIds(chans) && IdsInRange(chans) && InForce([])
      requires forall i :: 0 <= i < |history| ==> 0 <= history[i].id < channels.Length
      modifies channels
      ensures calls == Invocations(history) && Lists(chans) && InForce(history)
    {
      calls := [];
      IdsArePermutation(chans);
      for i := 0 to |history|
        invariant Lists(chans) && InForce(history[..i]) && calls == Invocations(history[..i])
      {
        assert history[..i + 1] == history[..i] + [history[i]];
        var made := HandleEvent(chans, history[..i], history[i]);
        calls := calls + made;
      }
      assert history[..|history|] == history;
    }

    // The library asks for the direction its table says, which is the driver's:
    // a request the driver can find is refused only if its range is not mapped.
    method OnewayTransfer(dev: D.AxidmaDevice, r: S.Request, e: S.Env) returns (rc: int, cookie: nat)
      requires dev.Valid() && Lists(dev.channels) && Lookup(dev.channels, r.id) >= 0
      modifies dev, dev.cbData, dev.queues
      ensures var dir := dev.channels[Lookup(dev.channels, r.id)].dir;
              var s := old(dev.Abs());
              && dev.Valid()
              && S.Outcome(dev.Abs(), rc, cookie) == S.OneWay(s, dir, r, e)
              && (R.Accepted(s, dir, r) <==> Translate(S.Live(s.bufs, s.exts), r.addr, r.len) != 0)
    {
      var p := FindChannel(dev.channels, r.id);
      if channels[p].chan.dir == Read {
        rc, cookie := dev.ReadTransfer(r, e);
      } else {
        rc, cookie := dev.WriteTransfer(r, e);
      }
    }

    // Both ids are checked against the table before the driver is asked.
    method TwowayTransfer(dev: D.AxidmaDevice, r: S.Inout, te: S.Env, re: S.Env) returns (rc: int, cookie: nat)
      requires dev.Valid() && Lists(dev.channels)
      requires var tx, rx := Lookup(dev.channels, r.txId), Lookup(dev.channels, r.rxId);
               tx >= 0 && dev.channels[tx].dir == Write && rx >= 0 && dev.channels[rx].dir == Read
      modifies dev, dev.cbData, dev.queues
      ensures var s := old(dev.Abs());
              && dev.Valid()
              && S.Outcome(dev.Abs(), rc, cookie) == S.TwoWay(s, r, te, re)
              && (R.TwoWayAccepted(s, r) <==>
                    Translate(S.Live(s.bufs, s.exts), r.txAddr, r.txLen) != 0
                    && Translate(S.Live(s.bufs, s.exts), r.rxAddr, r.rxLen) != 0)
    {
      rc, cookie := dev.RwTransfer(r, te, re);
    }
  }
}
