// The driver and the library together: what discovery counts against what the
// library allocates, and completions on their way to the registered callbacks.
module EndToEnd {
  import opened Types
  import T = DeviceTree
  import L = Library
  import S = DriverSpec
  import I = DriverInvariant
  import R = DriverRuns
  import M = DriverTheorems

  // What GET_NUM_DMA_CHANNELS answers after the entries were parsed.
  function Counters(ns: seq<T.Entry>): L.NumChannels {
    L.NumChannels(|ns|, T.CountCompat(ns, |ns|, T.DmaTx), T.CountCompat(ns, |ns|, T.DmaRx),
                  T.CountCompat(ns, |ns|, T.VdmaTx), T.CountCompat(ns, |ns|, T.VdmaRx))
  }

  // The library places all channels of a table that the driver accepted exactly
  // when no channel node lacks its 'compatible' property, whatever memory held
  // before; and then the counters fit exactly.
  lemma CountersFitExactly(ns: seq<T.Entry>, was: seq<T.Cell>)
    requires |was| == |ns| && forall i :: 0 <= i < |ns| ==> T.EntryRc(ns[i]) == 0
    ensures L.Ends(T.CellsOf(ns, was), Counters(ns), L.Placed)
            <==> forall i :: 0 <= i < |ns| ==> ns[i].compat != T.Missing
    ensures L.Ends(T.CellsOf(ns, was), Counters(ns), L.Placed) ==>
              L.CountsFit(T.CellsOf(ns, was), Counters(ns))
  {
    var cells, num := T.CellsOf(ns, was), Counters(ns);
    L.PlacedExactly(cells, num);
    T.UnplaceableCells(ns, was, |ns|);
    SizesAreCounters(ns, was);
    T.UncountedSum(ns, was, |ns|);
    assert L.CountsSuffice(cells, num) <==>
      && T.Uncounted(ns, was, |ns|, Write, DMA) == 0 && T.Uncounted(ns, was, |ns|, Read, DMA) == 0
      && T.Uncounted(ns, was, |ns|, Write, VDMA) == 0 && T.Uncounted(ns, was, |ns|, Read, VDMA) == 0 by {
      SufficeByList(ns, was);
    }
  }

  lemma SizesAreCounters(ns: seq<T.Entry>, was: seq<T.Cell>)
    requires |was| == |ns| && forall i :: 0 <= i < |ns| ==> T.EntryRc(ns[i]) == 0
    ensures forall dir, kind :: |T.AllIds(T.CellsOf(ns, was), dir, kind)|
                                == L.CounterOf(Counters(ns), dir, kind) + T.Uncounted(ns, was, |ns|, dir, kind)
  {
    forall dir, kind
      ensures |T.AllIds(T.CellsOf(ns, was), dir, kind)|
              == L.CounterOf(Counters(ns), dir, kind) + T.Uncounted(ns, was, |ns|, dir, kind)
    {
      T.CountersAreSizes(ns, was, |ns|, dir, kind);
    }
  }

  lemma SufficeByList(ns: seq<T.Entry>, was: seq<T.Cell>)
    requires |was| == |ns| && forall i :: 0 <= i < |ns| ==> T.EntryRc(ns[i]) == 0
    ensures L.CountsSuffice(T.CellsOf(ns, was), Counters(ns)) <==>
      && T.Uncounted(ns, was, |ns|, Write, DMA) == 0 && T.Uncounted(ns, was, |ns|, Read, DMA) == 0
      && T.Uncounted(ns, was, |ns|, Write, VDMA) == 0 && T.Uncounted(ns, was, |ns|, Read, VDMA) == 0
  {
    var cells, num := T.CellsOf(ns, was), Counters(ns);
    SizesAreCounters(ns, was);
    if L.CountsSuffice(cells, num) {
      assert |T.AllIds(cells, Write, DMA)| <= L.CounterOf(num, Write, DMA);
      assert |T.AllIds(cells, Read, DMA)| <= L.CounterOf(num, Read, DMA);
      assert |T.AllIds(cells, Write, VDMA)| <= L.CounterOf(num, Write, VDMA);
      assert |T.AllIds(cells, Read, VDMA)| <= L.CounterOf(num, Read, VDMA);
    } else {
      var dir, kind :| |T.AllIds(cells, dir, kind)| > L.CounterOf(num, dir, kind);
      assert (dir == Write || dir == Read) && (kind == DMA || kind == VDMA);
    }
  }

  // From the device tree to the library: parse, then categorise with the counts
  // the driver reports. The library's lists are full and correct, or, exactly
  // when an accepted node lacks its 'compatible' property, the library writes
  // beyond one of them or aborts; it aborts only over a node whose table entry
  // held no channel before.
  method Discover(table: T.ChannelTable, ns: seq<T.Entry>, lib: L.AxidmaDev, failAt: nat)
    returns (rc: int, how: L.Placement)
    requires table.channels.Length == |ns| && lib.owned == {}
    modifies table, table.channels, lib
    ensures rc == 0 <==> (forall i :: 0 <= i < |ns| ==> T.Acceptable(ns[i]))
                         && (forall i, j :: 0 <= i < j < |ns| ==> ns[i].id != ns[j].id) && failAt >= 5
    ensures lib.owned == if rc != 0 then {} else L.ALL_BLOCKS
    ensures rc == 0 ==>
              && L.Ends(T.CellsOf(ns, old(table.channels[..])), Counters(ns), how)
              && (!how.Placed? <==> exists i :: 0 <= i < |ns| && ns[i].compat == T.Missing)
              && (how.NoList? ==> exists i :: 0 <= i < |ns| && ns[i].compat == T.Missing
                                               && !T.Known(old(table.channels[..])[i]))
    ensures rc == 0 && how.Placed? ==>
              && lib.Categorized(table.channels[..]) && UniqueIds(T.KnownChans(table.channels[..]))
              && lib.Full() && lib.InForce([])
              && lib.dmaTx.Ids() == T.NodeIds(ns, |ns|, T.DmaTx) && lib.dmaRx.Ids() == T.NodeIds(ns, |ns|, T.DmaRx)
              && lib.vdmaTx.Ids() == T.NodeIds(ns, |ns|, T.VdmaTx) && lib.vdmaRx.Ids() == T.NodeIds(ns, |ns|, T.VdmaRx)
              && lib.dmaTx.len + lib.dmaRx.len + lib.vdmaTx.len + lib.vdmaRx.len == |ns|
  {
    how := L.Placed;
    ghost var was := table.channels[..];
    T.CellIds(ns, was);
    forall i | 0 <= i < |ns| ensures T.EntryRc(ns[i]) == 0 <==> T.Acceptable(ns[i]) {
      T.EntryOutcome(ns[i]);
    }
    rc := table.ParseDmaNodes(ns);
    if rc != 0 {
      return;
    }
    CountersFitExactly(ns, was);
    T.CountersSum(ns, |ns|);
    var num := L.NumChannels(table.channels.Length, table.numDmaTxChans, table.numDmaRxChans,
                             table.numVdmaTxChans, table.numVdmaRxChans);
    rc, how := lib.Categorize(table.channels[..], num, failAt);
    if rc == 0 {
      OneEnding(T.CellsOf(ns, was), num, how);
      if how.Placed? {
        T.CellsAreNodes(ns, was, |ns|, Write, DMA);
        T.CellsAreNodes(ns, was, |ns|, Read, DMA);
        T.CellsAreNodes(ns, was, |ns|, Write, VDMA);
        T.CellsAreNodes(ns, was, |ns|, Read, VDMA);
      }
      if how.NoList? {
        NoListOverJunk(ns, was, how);
      }
    }
  }

  // The loop has one ending only.
  lemma OneEnding(cells: seq<T.Cell>, num: L.NumChannels, how: L.Placement)
    requires L.Ends(cells, num, how)
    ensures how.Placed? <==> L.Ends(cells, num, L.Placed)
  {
  }

  lemma NoListOverJunk(ns: seq<T.Entry>, was: seq<T.Cell>, how: L.Placement)
    requires |was| == |ns| && forall i :: 0 <= i < |ns| ==> T.EntryRc(ns[i]) == 0
    requires L.Ends(T.CellsOf(ns, was), Counters(ns), how) && how.NoList?
    ensures exists i :: 0 <= i < |ns| && ns[i].compat == T.Missing && !T.Known(was[i])
  {
    var cells := T.CellsOf(ns, was);
    var i :| 0 <= i < |cells| && L.Stops(cells, Counters(ns), i) && !T.Known(cells[i]);
    assert T.EntryRc(ns[i]) == 0 && cells[i] == T.CellOf(ns[i], was[i]);
  }

  /* ---- From a completed descriptor to the user's callback ---- */

  // The library's handler is installed for one signal number: the signals of a
  // driver history that arrive at it.
  ghost function SignalHistory(log: seq<S.Event>, number: int): seq<L.Event> {
    if log == [] then []
    else
      var e := log[|log| - 1];
      SignalHistory(log[..|log| - 1], number)
      + if e.Signalled? && e.signal == number then [L.Signal(e.id)] else []
  }

  // The signals of a library history, without the registrations between them.
  ghost function SignalsOf(history: seq<L.Event>): seq<L.Event> {
    if history == [] then []
    else
      var e := history[|history| - 1];
      SignalsOf(history[..|history| - 1]) + if e.Signal? then [e] else []
  }

  // Where the signals with the given id are in a history.
  ghost function Arrivals(history: seq<L.Event>, id: int): (at: seq<nat>)
    ensures forall i :: 0 <= i < |at| ==> at[i] < |history| && history[at[i]] == L.Signal(id)
  {
    if history == [] then []
    else
      var k := |history| - 1;
      Arrivals(history[..k], id) + if history[k] == L.Signal(id) then [k] else []
  }

  // All of them, in order.
  lemma {:induction false} ArrivalsAre(history: seq<L.Event>, id: int)
    ensures var at := Arrivals(history, id);
            && (forall i, j :: 0 <= i < j < |at| ==> at[i] < at[j])
            && (forall k: nat :: k in at <==> k < |history| && history[k] == L.Signal(id))
  {
    if history != [] {
      ArrivalsAre(history[..|history| - 1], id);
    }
  }

  // The calls made for one id.
  ghost function CallsFor(calls: seq<L.Call>, id: int): seq<L.Call> {
    if calls == [] then []
    else
      var c := calls[|calls| - 1];
      CallsFor(calls[..|calls| - 1], id) + if c.id == id then [c] else []
  }

  lemma CallsForAppend(calls: seq<L.Call>, more: seq<L.Call>, id: int)
    requires |more| <= 1
    ensures CallsFor(calls + more, id) == CallsFor(calls, id) + if more != [] && more[0].id == id then more else []
  {
    if more == [] {
      assert calls + more == calls;
    } else {
      assert (calls + more)[..|calls|] == calls;
    }
  }

  // Every signal with the given id arrives while a callback is registered.
  ghost predicate Heard(history: seq<L.Event>, id: int) {
    forall j :: 0 <= j < |history| && history[j] == L.Signal(id) ==> exists k :: L.AnsweredBy(history, j, id, k)
  }

  // Each signal with the id is answered by one call, in order, of the callback
  // and with the data of the last registration for the id before it.
  ghost predicate Answered(history: seq<L.Event>, id: int, calls: seq<L.Call>) {
    var at := Arrivals(history, id);
    && |calls| == |at|
    && forall i :: 0 <= i < |at| ==> RightAnswer(history, at[i], id, calls[i])
  }

  // The call for the signal at position j is of the callback and with the data
  // of the last registration for the id before it.
  ghost predicate RightAnswer(history: seq<L.Event>, j: nat, id: int, c: L.Call) {
    exists k :: L.AnsweredBy(history, j, id, k) && c == L.Call(id, history[k].callback.value, history[k].userData)
  }

  // The call made for a signal that arrives after `before`.
  function Answer(before: seq<L.Event>, id: int): L.Call
    requires L.LastRegistered(before, id).0.Some?
  {
    L.Call(id, L.LastRegistered(before, id).0.value, L.LastRegistered(before, id).1)
  }

  // What one more event adds to the calls for an id.
  lemma CallsForStep(front: seq<L.Event>, e: L.Event, id: int)
    ensures var before, after := CallsFor(L.Invocations(front), id), CallsFor(L.Invocations(front + [e]), id);
            after == if e == L.Signal(id) && L.LastRegistered(front, id).0.Some?
                     then before + [Answer(front, id)] else before
  {
    assert (front + [e])[..|front|] == front;
    var made := L.Invocations(front + [e])[|L.Invocations(front)|..];
    assert L.Invocations(front + [e]) == L.Invocations(front) + made;
    CallsForAppend(L.Invocations(front), made, id);
  }

  lemma AnsweredByStep(front: seq<L.Event>, e: L.Event, id: int)
    ensures forall j: nat, k :: j <= |front| ==>
              (L.AnsweredBy(front + [e], j, id, k) <==> L.AnsweredBy(front, j, id, k))
  {
    var history := front + [e];
    forall j: nat, k | j <= |front| ensures L.AnsweredBy(history, j, id, k) <==> L.AnsweredBy(front, j, id, k) {
      L.LatestBefore(history, j, id);
      L.LatestBefore(front, j, id);
      assert history[..j] == front[..j];
    }
  }

  lemma ArrivalsStep(front: seq<L.Event>, e: L.Event, id: int)
    ensures Arrivals(front + [e], id)
            == if e == L.Signal(id) then Arrivals(front, id) + [|front|] else Arrivals(front, id)
    ensures Heard(front + [e], id)
            <==> Heard(front, id) && (e == L.Signal(id) ==> L.LastRegistered(front, id).0.Some?)
  {
    var history := front + [e];
    assert history[..|front|] == front;
    AnsweredByStep(front, e, id);
    L.InForceBefore(history, |front|, id);
    assert forall j :: 0 <= j < |front| ==> history[j] == front[j];
  }

  // There is at most one call per signal with the id, and exactly one for each
  // if all of them are heard; then each call is the right one.
  lemma {:induction false} HistoryAnswered(history: seq<L.Event>, id: int)
    ensures var calls := CallsFor(L.Invocations(history), id);
            && |calls| <= |Arrivals(history, id)|
            && (|calls| == |Arrivals(history, id)| <==> Heard(history, id))
            && (Heard(history, id) ==> Answered(history, id, calls))
  {
    if history != [] {
      var n := |history| - 1;
      var front, e := history[..n], history[n];
      assert history == front + [e];
      HistoryAnswered(front, id);
      CallsForStep(front, e, id);
      ArrivalsStep(front, e, id);
      if Heard(history, id) {
        AnsweredStep(front, e, id, CallsFor(L.Invocations(front), id));
      }
    }
  }

  lemma AnsweredStep(front: seq<L.Event>, e: L.Event, id: int, calls: seq<L.Call>)
    requires Answered(front, id, calls) && (e == L.Signal(id) ==> L.LastRegistered(front, id).0.Some?)
    ensures Answered(front + [e], id, if e == L.Signal(id) then calls + [Answer(front, id)] else calls)
  {
    ArrivalsStep(front, e, id);
    var at := Arrivals(front, id);
    forall i | 0 <= i < |at| ensures RightAnswer(front + [e], at[i], id, calls[i]) {
      KeepsAnswer(front, e, id, at[i], calls[i]);
    }
    if e == L.Signal(id) {
      NewAnswer(front, e, id);
    }
  }

  lemma KeepsAnswer(front: seq<L.Event>, e: L.Event, id: int, j: nat, c: L.Call)
    requires j <= |front| && RightAnswer(front, j, id, c)
    ensures RightAnswer(front + [e], j, id, c)
  {
    AnsweredByStep(front, e, id);
    var k :| L.AnsweredBy(front, j, id, k) && c == L.Call(id, front[k].callback.value, front[k].userData);
    assert L.AnsweredBy(front + [e], j, id, k) && (front + [e])[k] == front[k];
  }

  lemma NewAnswer(front: seq<L.Event>, e: L.Event, id: int)
    requires L.LastRegistered(front, id).0.Some?
    ensures RightAnswer(front + [e], |front|, id, Answer(front, id))
  {
    var history := front + [e];
    assert history[..|front|] == front;
    L.InForceBefore(history, |front|, id);
    var k :| L.AnsweredBy(history, |front|, id, k);
  }

  // Registrations in between do not change how many signals there are.
  lemma {:induction false} ArrivalsOfSignals(history: seq<L.Event>, id: int)
    ensures |Arrivals(SignalsOf(history), id)| == |Arrivals(history, id)|
  {
    if history != [] {
      var k := |history| - 1;
      ArrivalsOfSignals(history[..k], id);
      if history[k].Signal? {
        ArrivalsAppend(SignalsOf(history[..k]), history[k], id);
      } else {
        assert SignalsOf(history) == SignalsOf(history[..k]);
      }
    }
  }

  lemma ArrivalsAppend(history: seq<L.Event>, e: L.Event, id: int)
    ensures |Arrivals(history + [e], id)| == |Arrivals(history, id)| + if e == L.Signal(id) then 1 else 0
  {
    assert (history + [e])[..|history|] == history;
  }

  // At most the signals with the id arrive, and all of them exactly when they
  // carry the handler's number.
  lemma {:induction false} ArrivalsOfLog(log: seq<S.Event>, id: int, number: int)
    ensures |Arrivals(SignalHistory(log, number), id)| <= I.Signals(log, id)
    ensures |Arrivals(SignalHistory(log, number), id)| == I.Signals(log, id)
            <==> I.SignalsCarry(log, id, number)
  {
    if log != [] {
      var front, e := log[..|log| - 1], log[|log| - 1];
      ArrivalsOfLog(front, id, number);
      assert I.SignalsCarry(log, id, number)
        <==> I.SignalsCarry(front, id, number) && (e.Signalled? && e.id == id ==> e.signal == number) by {
        assert forall i :: 0 <= i < |front| ==> log[i] == front[i];
      }
      if e.Signalled? && e.signal == number {
        ArrivalsAppend(SignalHistory(front, number), L.Signal(e.id), id);
      } else {
        assert SignalHistory(log, number) == SignalHistory(front, number);
      }
    }
  }

  // A channel on which no call blocks, any run of the driver, and any history of
  // the library in which the run's signals with the handler's number arrive in
  // order, with registrations wherever the program makes them. There is one call
  // for the channel per completed descriptor exactly when each of its signals
  // carries the handler's number and arrives while a callback is registered. If
  // a callback is registered whenever one arrives, the calls are, in order,
  // those of the callback and data in force at each arrival.
  lemma CallbacksMatchCompletions(s: S.Dev, signal: int, ops: seq<R.Op>, w: nat, number: int,
                                  history: seq<L.Event>)
    requires R.Probed(s) && S.ValidSignal(signal) && M.LegalRun(R.Do(s, R.SignalCall(signal)), ops)
    requires w < |s.chans| && forall i :: 0 <= i < |ops| ==> M.NeverBlocksOn(s.chans[w].id, ops[i])
    requires SignalsOf(history) == SignalHistory(R.Run(R.Do(s, R.SignalCall(signal)), ops).log, number)
    ensures var r, id := R.Run(R.Do(s, R.SignalCall(signal)), ops), s.chans[w].id;
            var calls := CallsFor(L.Invocations(history), id);
            && (|calls| == I.Completions(r.log, w) <==> I.SignalsCarry(r.log, id, number) && Heard(history, id))
            && (Heard(history, id) ==> Answered(history, id, calls))
  {
    var r, id := R.Run(R.Do(s, R.SignalCall(signal)), ops), s.chans[w].id;
    M.SignalsMatchCompletions(s, signal, ops, w);
    ArrivalsOfSignals(history, id);
    ArrivalsOfLog(r.log, id, number);
    HistoryAnswered(history, id);
  }

  // A program that leaves the driver's signal number to the library: the handler
  // hears of every completed descriptor.
  lemma OneNumberSuffices(s: S.Dev, number: int, ops: seq<R.Op>, w: nat, history: seq<L.Event>)
    requires R.Probed(s) && S.ValidSignal(number) && M.LegalRun(R.Do(s, R.SignalCall(number)), ops)
    requires w < |s.chans|
    requires forall i :: 0 <= i < |ops| ==> M.NeverBlocksOn(s.chans[w].id, ops[i]) && M.OnlySets(number, ops[i])
    requires SignalsOf(history) == SignalHistory(R.Run(R.Do(s, R.SignalCall(number)), ops).log, number)
    ensures var r, id := R.Run(R.Do(s, R.SignalCall(number)), ops), s.chans[w].id;
            |CallsFor(L.Invocations(history), id)| == I.Completions(r.log, w) <==> Heard(history, id)
  {
    CallbacksMatchCompletions(s, number, ops, w, number, history);
    M.SignalsKeepNumber(s, number, ops, w);
  }

  /* ---- The dispatcher under the driver's signals ---- */

  // A signal that arrives was sent.
  lemma {:induction false} ArrivedWasSent(log: seq<S.Event>, number: int, x: int)
    requires L.Signal(x) in SignalHistory(log, number)
    ensures exists i :: 0 <= i < |log| && log[i].Signalled? && log[i].id == x
  {
    var front, e := log[..|log| - 1], log[|log| - 1];
    if !(e.Signalled? && e.id == x) {
      ArrivedWasSent(front, number, x);
      var i :| 0 <= i < |front| && front[i].Signalled? && front[i].id == x;
      assert log[i] == front[i];
    }
  }

  lemma {:induction false} SignalsOfHas(history: seq<L.Event>, k: nat)
    requires k < |history| && history[k].Signal?
    ensures history[k] in SignalsOf(history)
  {
    var n := |history| - 1;
    if k < n {
      SignalsOfHas(history[..n], k);
    }
  }

  // Whatever the driver has done, no signal it sends makes the handler's assert
  // fail or index beyond the table.
  lemma SignalsInRange(s: S.Dev, number: int, history: seq<L.Event>)
    requires M.Reachable(s) && SignalsOf(history) == SignalHistory(s.log, number)
    ensures forall k :: 0 <= k < |history| && history[k].Signal? ==> 0 <= history[k].id < |s.chans|
  {
    M.NoLateWakeup(s);
    forall k | 0 <= k < |history| && history[k].Signal? ensures 0 <= history[k].id < |s.chans| {
      SignalsOfHas(history, k);
      ArrivedWasSent(s.log, number, history[k].id);
    }
  }

  // The library's dispatcher behind the driver: the calls it makes for the
  // channel are the ones CallbacksMatchCompletions speaks of. The registrations
  // name channels the library knows (its assert); the signals need no check.
  method Dispatch(lib: L.AxidmaDev, ghost s: S.Dev, ghost signal: int, ghost ops: seq<R.Op>, ghost w: nat,
                  ghost number: int, history: seq<L.Event>) returns (calls: seq<L.Call>)
    requires R.Probed(s) && S.ValidSignal(signal) && M.LegalRun(R.Do(s, R.SignalCall(signal)), ops)
    requires w < |s.chans| && forall i :: 0 <= i < |ops| ==> M.NeverBlocksOn(s.chans[w].id, ops[i])
    requires SignalsOf(history) == SignalHistory(R.Run(R.Do(s, R.SignalCall(signal)), ops).log, number)
    requires lib.Lists(s.chans) && lib.InForce([])
    requires forall k :: 0 <= k < |history| && history[k].SetCallback? ==> Lookup(s.chans, history[k].id) >= 0
    modifies lib.channels
    ensures lib.Lists(s.chans) && lib.InForce(history)
    ensures var r, id := R.Run(R.Do(s, R.SignalCall(signal)), ops), s.chans[w].id;
            && (|CallsFor(calls, id)| == I.Completions(r.log, w)
                <==> I.SignalsCarry(r.log, id, number) && Heard(history, id))
            && (Heard(history, id) ==> Answered(history, id, CallsFor(calls, id)))
  {
    HistoryInTable(s, signal, ops, number, history);
    CallbacksMatchCompletions(s, signal, ops, w, number, history);
    calls := lib.Deliver(s.chans, history);
  }

  lemma HistoryInTable(s: S.Dev, signal: int, ops: seq<R.Op>, number: int, history: seq<L.Event>)
    requires R.Probed(s) && M.LegalRun(R.Do(s, R.SignalCall(signal)), ops)
    requires SignalsOf(history) == SignalHistory(R.Run(R.Do(s, R.SignalCall(signal)), ops).log, number)
    requires forall k :: 0 <= k < |history| && history[k].SetCallback? ==> Lookup(s.chans, history[k].id) >= 0
    ensures forall k :: 0 <= k < |history| ==> 0 <= history[k].id < |s.chans|
  {
    RunReachable(s, signal, ops);
    SignalsInRange(R.Run(R.Do(s, R.SignalCall(signal)), ops), number, history);
  }

  lemma RunReachable(s: S.Dev, signal: int, ops: seq<R.Op>)
    requires R.Probed(s) && M.LegalRun(R.Do(s, R.SignalCall(signal)), ops)
    ensures var r := R.Run(R.Do(s, R.SignalCall(signal)), ops);
            M.Reachable(r) && r.chans == s.chans
  {
    var all := [R.SignalCall(signal)] + ops;
    assert all[1..] == ops;
    var s1 := R.Do(s, R.SignalCall(signal));
    assert R.Run(s, all) == R.Run(s1, ops) && M.LegalRun(s, all);
    R.ProbedGood(s1, M.PLAIN);
    M.PlainCovers(s1, ops);
    R.RunGood(s1, M.PLAIN, ops);
  }
}
