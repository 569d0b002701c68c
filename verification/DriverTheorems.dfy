// What the driver guarantees over every run and every interleaving.
module DriverTheorems {
  import opened Types
  import opened Regions
  import opened DmaEngine
  import opened DriverSpec
  import opened DriverInvariant
  import opened DriverRuns

  ghost predicate LegalRun(s: Dev, ops: seq<Op>)
    requires |s.queues| == |s.chans|
    decreases |ops|
  {
    ops == [] || (Legal(s, ops[0]) && LegalRun(Do(s, ops[0]), ops[1..]))
  }

  // Some legal run of a freshly probed driver ends in s. (That s has one queue
  // per channel follows; saying so first lets s be an argument of the steps.)
  ghost predicate Reachable(s: Dev) {
    |s.slots| == |s.queues| == |s.chans| &&
    exists start, ops :: Probed(start) && LegalRun(start, ops) && s == Run(start, ops)
  }

  const PLAIN := Ctx(-1, -1, false, false, -1, -1, -1)
  const CONTAINED := Ctx(-1, -1, true, false, -1, -1, -1)
  const QUIET := Ctx(-1, -1, false, true, 0, -1, -1)
  const QUIET_CONTAINED := Ctx(-1, -1, true, true, 0, -1, -1)

  lemma {:induction false} PlainCovers(s: Dev, ops: seq<Op>)
    requires |s.queues| == |s.chans| && LegalRun(s, ops)
    ensures Covered(s, PLAIN, ops)
    decreases |ops|
  {
    if ops != [] {
      PlainCovers(Do(s, ops[0]), ops[1..]);
    }
  }

  lemma ReachableGood(s: Dev)
    requires Reachable(s)
    ensures Between(s, PLAIN) && MemOk(s)
  {
    var start, ops :| Probed(start) && LegalRun(start, ops) && s == Run(start, ops);
    ProbedGood(start, PLAIN);
    PlainCovers(start, ops);
    RunGood(start, PLAIN, ops);
  }

  // The slot is channel p's own and names p, a task and no completion.
  ghost predicate OwnIdleSlot(s: Dev, p: nat, slot: int) {
    && p < |s.chans| && slot == s.chans[p].id && 0 <= slot < |s.slots|
    && s.slots[slot].channelId == slot && s.slots[slot].comp == None && s.slots[slot].process != 0
  }

  // No run of any mixture of calls, however the engine interleaves with them,
  // ever completes a completion whose call has returned, or sends a signal to
  // the null task that blocking calls leave in the slots. Every outstanding
  // descriptor uses the callback slot of its own channel, and that slot names
  // that channel, a task and no completion; so signals are real-time ones and
  // carry ids of the table only.
  lemma NoLateWakeup(s: Dev)
    requires Reachable(s)
    ensures NoStray(s.log) && NoNullTask(s.log) && SignalsInTable(s)
    ensures forall p, k :: 0 <= p < |s.queues| && 0 <= k < |s.queues[p].descs| ==>
              OwnIdleSlot(s, p, s.queues[p].descs[k].slot)
  {
    ReachableGood(s);
    forall p, k | 0 <= p < |s.queues| && 0 <= k < |s.queues[p].descs|
      ensures OwnIdleSlot(s, p, s.queues[p].descs[k].slot)
    {
      assert ChanOk(s, PLAIN, p);
    }
  }

  /* ---- Blocking calls ---- */

  // The calls of a client that only ever blocks.
  predicate BlockingOp(op: Op) {
    match op
    case OneWayCall(_, r, _) => r.wait
    case TwoWayCall(_, _, _) => false
    case VideoCall(_, _, _) => false
    case _ => true
  }

  // A one-way call that is accepted is on a DMA channel, and what it asks the
  // engine for stays in a live buffer. (On a VDMA channel the size of the
  // transfer is uninitialised memory. OneWayInsideExactly of DriverLimits says
  // that the condition is exact, and ProperStays that it holds on DMA channels
  // of every range whose end does not wrap.)
  ghost predicate KeepsInside(s: Dev, op: Op) {
    op.OneWayCall? && Accepted(s, op.dir, op.r) ==>
      s.chans[Lookup(s.chans, op.r.id)].kind == DMA && Stays(s, op.r.addr, op.r.len, UInt(op.r.len))
  }

  ghost predicate InsideRun(s: Dev, ops: seq<Op>)
    requires |s.queues| == |s.chans|
    decreases |ops|
  {
    ops == [] || (KeepsInside(s, ops[0]) && InsideRun(Do(s, ops[0]), ops[1..]))
  }

  // A proper range that is accepted stays in its buffer.
  lemma ProperStays(s: Dev, addr: nat, len: nat)
    requires Reachable(s) && Proper(addr, len) && Translate(Live(s.bufs, s.exts), addr, len) != 0
    ensures Stays(s, addr, len, UInt(len))
  {
    ReachableGood(s);
    TranslateInside(Live(s.bufs, s.exts), addr, len, UInt(len));
  }

  lemma QuietMeansIdle(s: Dev, c: Ctx)
    requires Good(s, c) && c.quiet && c.waiter == -1
    ensures forall p :: 0 <= p < |s.queues| ==> s.queues[p].descs == []
  {
    forall p | 0 <= p < |s.queues| ensures s.queues[p].descs == [] {
      assert ChanOk(s, c, p);
    }
  }

  lemma {:induction false} BlockingCovers(s: Dev, c: Ctx, ops: seq<Op>)
    requires Between(s, c) && MemOk(s) && LegalRun(s, ops)
    requires c.watch == -1 && c.number == -1 && c.task == -1 && c.quiet
    requires forall i :: 0 <= i < |ops| ==> BlockingOp(ops[i])
    requires c.contained ==> InsideRun(s, ops)
    ensures Covered(s, c, ops)
    decreases |ops|
  {
    if ops != [] {
      assert BlockingOp(ops[0]);
      QuietMeansIdle(s, c);
      if ops[0].OneWayCall? && Accepted(s, ops[0].dir, ops[0].r) {
        assert s.queues[Lookup(s.chans, ops[0].r.id)].descs == [];
      }
      DoGood(s, c, ops[0]);
      BlockingCovers(Do(s, ops[0]), c, ops[1..]);
    }
  }

  // Between the calls of a client that only blocks, nothing is outstanding; so
  // no callback ever reaches the completion of a call before it is initialised.
  lemma BlockingRunsLeaveNothing(s: Dev, ops: seq<Op>)
    requires Probed(s) && LegalRun(s, ops)
    requires forall i :: 0 <= i < |ops| ==> BlockingOp(ops[i])
    ensures forall p :: 0 <= p < |Run(s, ops).queues| ==> Run(s, ops).queues[p].descs == []
    ensures NoUninit(Run(s, ops).log, 0)
  {
    ProbedGood(s, QUIET);
    BlockingCovers(s, QUIET, ops);
    RunGood(s, QUIET, ops);
    QuietMeansIdle(Run(s, ops), QUIET);
  }

  // If such a client keeps to DMA channels and to ranges that do not wrap, the
  // engine never finishes a descriptor outside a live buffer, whatever is
  // mapped, registered or closed in between and with no care taken about when.
  lemma BlockingRunsStayInside(s: Dev, ops: seq<Op>)
    requires Probed(s) && LegalRun(s, ops)
    requires InsideRun(s, ops) && forall i :: 0 <= i < |ops| ==> BlockingOp(ops[i])
    ensures NoWild(Run(s, ops).log)
  {
    ProbedGood(s, QUIET_CONTAINED);
    BlockingCovers(s, QUIET_CONTAINED, ops);
    RunGood(s, QUIET_CONTAINED, ops);
  }

  // A blocking one-way call in any reachable state, even with asynchronous
  // descriptors of the same channel still outstanding. Whatever it returns
  // after its arguments were accepted, the channel is empty; if it returns 0,
  // its own descriptor, at exactly the requested place, was submitted and
  // completed during the call (for how many bytes, see WholeRequest).
  lemma BlockingSuccessIsOwn(s: Dev, dir: Dir, r: Request, e: Env)
    requires Reachable(s) && r.wait
    ensures var o := OneWay(s, dir, r, e);
            var p := Lookup(s.chans, r.id);
            if Accepted(s, dir, r) then
              && o.dev.queues[p].descs == []
              && (o.rc >= 0 ==>
                    var dma := Translate(Live(s.bufs, s.exts), r.addr, r.len);
                    var d := Desc(o.cookie, dma, Extent(s.chans[p].kind, r.len, e.junkFrame), r.id);
                    SubmittedSince(o.dev.log, p, d, |s.log|) && CompletedSince(o.dev.log, p, d, |s.log|))
            else o.dev == s && o.rc < 0
  {
    ReachableGood(s);
    if Accepted(s, dir, r) {
      var p := Lookup(s.chans, r.id);
      var dma := Translate(Live(s.bufs, s.exts), r.addr, r.len);
      DriveGood(s, PLAIN, p, OneWayTransfer(s, p, r, dma, e), e);
    }
  }

  // The descriptor of a DMA transfer covers the bytes that were asked for
  // exactly if they are fewer than 2^32.
  lemma WholeRequest(s: Dev, p: nat, r: Request, dma: int, e: Env)
    requires p < |s.chans| && s.chans[p].kind == DMA
    ensures OneWayTransfer(s, p, r, dma, e).len == r.len <==> r.len < HALF_WORD
  {
  }

  // On an idle channel, and when the engine takes the descriptor, the result of
  // a blocking call is decided by the engine alone: 0 if it attends to the
  // channel before the wait ends, a timeout if it does not.
  lemma BlockingResultExact(s: Dev, dir: Dir, r: Request, e: Env)
    requires Reachable(s) && r.wait && Accepted(s, dir, r)
    requires s.queues[Lookup(s.chans, r.id)].descs == []
    requires Prepares(s.chans[Lookup(s.chans, r.id)].kind, e)
    ensures OneWay(s, dir, r, e).rc == if Lookup(s.chans, r.id) in e.At(7) then 0 else -ETIME
  {
    ReachableGood(s);
    var p := Lookup(s.chans, r.id);
    var t := OneWayTransfer(s, p, r, Translate(Live(s.bufs, s.exts), r.addr, r.len), e);
    var c := PLAIN.(waiter := p);
    EnterGood(s, PLAIN, e);
    WaitGood(Enter(s, e), PLAIN, p);
    PrepGood(Enter(s, e), c, p, t, e);
    PrepIdle(Enter(s, e), c, p, t, e);
    var a := Prep(Enter(s, e), p, t, e);
    StartIdle(a.dev, c, p, t, a.cookie, e);
  }

  // A two-way call in any reachable state: two different channels with two
  // different callback slots; nothing is issued for transmit before something
  // is submitted for receive; and a blocking return of 0 means both channels
  // were issued, the call's own receive descriptor completed, and the receive
  // channel is empty.
  lemma TwoWayOrder(s: Dev, r: Inout, te: Env, re: Env)
    requires Reachable(s)
    ensures var o := TwoWay(s, r, te, re);
            var tx, rx := Lookup(s.chans, r.txId), Lookup(s.chans, r.rxId);
            if TwoWayAccepted(s, r) then
              var rt := RxTransfer(s, tx, rx, r, Translate(Live(s.bufs, s.exts), r.rxAddr, r.rxLen), re);
              tx != rx && r.txId != r.rxId && PairDone(s, o, tx, rx, rt)
            else o.dev == s && o.rc < 0
  {
    ReachableGood(s);
    TwoWayGood(s, PLAIN, r, te, re);
  }

  /* ---- Buffers under asynchronous use ---- */

  // A step taken with care: what calls ask the engine for stays in the buffers
  // it starts in, and no buffer is closed while an outstanding descriptor lies
  // in it. DriverLimits proves the conditions on calls exact, and says exactly
  // when closing leads outside.
  ghost predicate Careful(s: Dev, op: Op) {
    match op
    case OneWayCall(_, _, _) => KeepsInside(s, op)
    case TwoWayCall(io, _, _) => PairFits(s, io)
    case VideoCall(v, _, _) => VideoFits(s, v)
    case CloseCall(i) => i < |s.bufs| ==> Unused(s, i)
    case _ => true
  }

  ghost predicate CarefulRun(s: Dev, ops: seq<Op>)
    requires |s.queues| == |s.chans|
    decreases |ops|
  {
    ops == [] || (Legal(s, ops[0]) && Careful(s, ops[0]) && CarefulRun(Do(s, ops[0]), ops[1..]))
  }

  lemma {:induction false} CarefulCovers(s: Dev, ops: seq<Op>)
    requires |s.queues| == |s.chans| && CarefulRun(s, ops)
    ensures Covered(s, CONTAINED, ops)
    decreases |ops|
  {
    if ops != [] {
      CarefulCovers(Do(s, ops[0]), ops[1..]);
    }
  }

  // Any careful run, asynchronous, two-way and video calls included, keeps
  // every descriptor inside a live buffer until the engine has finished it.
  lemma EngineStaysInside(s: Dev, ops: seq<Op>)
    requires Probed(s) && CarefulRun(s, ops)
    ensures NoWild(Run(s, ops).log)
    ensures AllInside(Run(s, ops))
  {
    ProbedGood(s, CONTAINED);
    CarefulCovers(s, ops);
    RunGood(s, CONTAINED, ops);
    InsideFromGood(Run(s, ops), CONTAINED);
  }

  ghost predicate AllInside(s: Dev) {
    forall p, k :: 0 <= p < |s.queues| && 0 <= k < |s.queues[p].descs| ==>
      Inside(Live(s.bufs, s.exts), s.queues[p].descs[k].dma, s.queues[p].descs[k].len)
  }

  lemma InsideFromGood(s: Dev, c: Ctx)
    requires Good(s, c) && c.contained
    ensures AllInside(s)
  {
    forall p, k | 0 <= p < |s.queues| && 0 <= k < |s.queues[p].descs|
      ensures Inside(Live(s.bufs, s.exts), s.queues[p].descs[k].dma, s.queues[p].descs[k].len)
    {
      assert ChanOk(s, c, p);
    }
  }

  ghost predicate NoEmptyDescs(s: Dev) {
    forall p, k :: 0 <= p < |s.queues| && 0 <= k < |s.queues[p].descs| ==> s.queues[p].descs[k].len > 0
  }

  // The condition on closing is exact: closing buffer i keeps the outstanding
  // descriptors inside live buffers if and only if none of them lies in it.
  lemma CloseSafeExactly(s: Dev, i: nat)
    requires MemOk(s) && AllInside(s) && NoEmptyDescs(s) && i < |s.bufs|
    ensures AllInside(Close(s, i)) <==> Unused(s, i)
  {
    var live := Live(s.bufs, s.exts);
    LiveAfterClose(s, i);
    assert live[i] == BufRegion(s.bufs[i]);
    forall p, k | 0 <= p < |s.queues| && 0 <= k < |s.queues[p].descs|
      ensures var d := s.queues[p].descs[k];
              Inside(live[..i] + live[i + 1..], d.dma, d.len) <==> !Within(live[i], d.dma, d.len)
    {
      var d := s.queues[p].descs[k];
      InsideOthers(live, i, d.dma, d.len);
    }
  }

  lemma InsideOthers(rs: seq<Region>, i: nat, dma: int, len: int)
    requires GoodRegions(rs) && i < |rs| && len > 0 && Inside(rs, dma, len)
    ensures Inside(rs[..i] + rs[i + 1..], dma, len) <==> !Within(rs[i], dma, len)
  {
    var ss := rs[..i] + rs[i + 1..];
    if !Within(rs[i], dma, len) {
      InsideRemoved(rs, i, dma, len);
    } else {
      forall j | 0 <= j < |ss| ensures !Within(ss[j], dma, len) {
        var m := if j < i then j else j + 1;
        assert ss[j] == rs[m];
        assert Apart(rs[m].dma, rs[m].size, rs[i].dma, rs[i].size);
      }
    }
  }

  /* ---- Waking a call before its completion is initialised ---- */

  // A blocking call is made only on a channel with nothing issued.
  ghost predicate Polite(s: Dev, op: Op)
    requires |s.queues| == |s.chans|
  {
    match op
    case OneWayCall(dir, r, _) =>
      Accepted(s, dir, r) && r.wait ==> !CanComplete(s.queues[Lookup(s.chans, r.id)])
    case TwoWayCall(io, _, _) =>
      TwoWayAccepted(s, io) && io.wait ==> !CanComplete(s.queues[Lookup(s.chans, io.rxId)])
    case _ => true
  }

  ghost predicate PoliteRun(s: Dev, ops: seq<Op>)
    requires |s.queues| == |s.chans|
    decreases |ops|
  {
    ops == [] || (Legal(s, ops[0]) && Polite(s, ops[0]) && PoliteRun(Do(s, ops[0]), ops[1..]))
  }

  const CLEAN := Ctx(-1, -1, false, false, 0, -1, -1)

  lemma {:induction false} PoliteCovers(s: Dev, ops: seq<Op>)
    requires |s.queues| == |s.chans| && PoliteRun(s, ops)
    ensures Covered(s, CLEAN, ops)
    decreases |ops|
  {
    if ops != [] {
      PoliteCovers(Do(s, ops[0]), ops[1..]);
    }
  }

  // If every blocking call of a run finds nothing issued on its channel, no
  // callback reaches an uninitialised completion in the whole run. For the
  // single call the condition is exact (EarlyWakeExactly of DriverLimits).
  lemma PoliteRunsWakeInTime(s: Dev, ops: seq<Op>)
    requires Probed(s) && PoliteRun(s, ops)
    ensures NoUninit(Run(s, ops).log, 0)
  {
    ProbedGood(s, CLEAN);
    PoliteCovers(s, ops);
    RunGood(s, CLEAN, ops);
  }

  /* ---- Null pointers ---- */

  // Every step of the run keeps clear of the two unchecked pointers.
  ghost predicate NoFaults(s: Dev, ops: seq<Op>)
    requires |s.queues| == |s.chans|
    decreases |ops|
  {
    ops == [] || (!Faults(s, ops[0]) && NoFaults(Do(s, ops[0]), ops[1..]))
  }

  lemma {:induction false} FaultsCount(s: Dev, ops: seq<Op>)
    requires Between(s, PLAIN) && MemOk(s) && LegalRun(s, ops)
    ensures s.oops <= Run(s, ops).oops && (Run(s, ops).oops == s.oops <==> NoFaults(s, ops))
    decreases |ops|
  {
    if ops != [] {
      DoGood(s, PLAIN, ops[0]);
      FaultsCount(Do(s, ops[0]), ops[1..]);
    }
  }

  // No null channel, no missing scatter-gather entry and no null task was
  // followed.
  ghost predicate PointersOk(s: Dev) {
    s.oops == 0 && NoNullTask(s.log)
  }

  // A run follows one of these pointers exactly when some step of it stops or
  // shows video on an unknown channel, or shows no frames. The null task that a
  // blocking call stores is never reached.
  lemma FaultsExactly(s: Dev, ops: seq<Op>)
    requires Probed(s) && LegalRun(s, ops)
    ensures PointersOk(Run(s, ops)) <==> NoFaults(s, ops)
  {
    ProbedGood(s, PLAIN);
    FaultsCount(s, ops);
    PlainCovers(s, ops);
    RunGood(s, PLAIN, ops);
  }

  /* ---- Asynchronous notification ---- */

  predicate NeverBlocksOn(id: int, op: Op) {
    match op
    case OneWayCall(_, r, _) => r.id == id ==> !r.wait
    case TwoWayCall(io, _, _) => io.rxId == id ==> !io.wait
    case _ => true
  }

  // The client sets no other valid signal than this one (-1: any).
  predicate OnlySets(number: int, op: Op) {
    op.SignalCall? && number >= 0 && ValidSignal(op.signal) ==> op.signal == number
  }

  // Every call that names the channel id is made by the task.
  predicate OnlyCalledBy(id: int, task: int, op: Op) {
    match op
    case OneWayCall(_, r, _) => r.id == id ==> r.process == task
    case TwoWayCall(io, _, _) => io.txId == id || io.rxId == id ==> io.process == task
    case VideoCall(v, _, _) => v.id == id ==> v.process == task
    case _ => true
  }

  lemma AsyncFits(s: Dev, c: Ctx, op: Op)
    requires c == Ctx(-1, c.watch, false, false, -1, c.number, c.task) && 0 <= c.watch < |s.chans|
    requires |s.queues| == |s.chans| && Legal(s, op)
    requires NeverBlocksOn(s.chans[c.watch].id, op) && OnlySets(c.number, op)
    requires c.task >= 0 ==> OnlyCalledBy(s.chans[c.watch].id, c.task, op)
    ensures Fits(s, c, op)
  {
  }

  lemma {:induction false} AsyncCovers(s: Dev, c: Ctx, ops: seq<Op>)
    requires c == Ctx(-1, c.watch, false, false, -1, c.number, c.task) && 0 <= c.watch < |s.chans|
    requires Between(s, c) && MemOk(s) && LegalRun(s, ops)
    requires forall i :: 0 <= i < |ops| ==>
               && NeverBlocksOn(s.chans[c.watch].id, ops[i]) && OnlySets(c.number, ops[i])
               && (c.task >= 0 ==> OnlyCalledBy(s.chans[c.watch].id, c.task, ops[i]))
    ensures Covered(s, c, ops)
    decreases |ops|
  {
    if ops != [] {
      assert NeverBlocksOn(s.chans[c.watch].id, ops[0]) && OnlySets(c.number, ops[0]);
      assert c.task >= 0 ==> OnlyCalledBy(s.chans[c.watch].id, c.task, ops[0]);
      AsyncFits(s, c, ops[0]);
      DoGood(s, c, ops[0]);
      AsyncCovers(Do(s, ops[0]), c, ops[1..]);
    }
  }

  // A run after a valid signal was set, with what is followed of channel w.
  lemma AsyncRun(s: Dev, signal: int, ops: seq<Op>, c: Ctx)
    requires c == Ctx(-1, c.watch, false, false, -1, c.number, c.task) && 0 <= c.watch < |s.chans|
    requires Probed(s) && RightSignal(c, signal) && LegalRun(Do(s, SignalCall(signal)), ops)
    requires forall i :: 0 <= i < |ops| ==>
               && NeverBlocksOn(s.chans[c.watch].id, ops[i]) && OnlySets(c.number, ops[i])
               && (c.task >= 0 ==> OnlyCalledBy(s.chans[c.watch].id, c.task, ops[i]))
    ensures var r := Run(Do(s, SignalCall(signal)), ops);
            LogOk(r, c) && r.chans == s.chans
  {
    var s1 := Do(s, SignalCall(signal));
    ProbedGood(s1, c);
    AsyncCovers(s1, c, ops);
    RunGood(s1, c, ops);
  }

  // Once a valid signal is set, a channel no call blocks on sends exactly one
  // signal with its id per completed descriptor, whatever happens on the other
  // channels; terminated descriptors send none.
  lemma SignalsMatchCompletions(s: Dev, signal: int, ops: seq<Op>, w: nat)
    requires Probed(s) && ValidSignal(signal) && LegalRun(Do(s, SignalCall(signal)), ops)
    requires w < |s.chans| && forall i :: 0 <= i < |ops| ==> NeverBlocksOn(s.chans[w].id, ops[i])
    ensures var r := Run(Do(s, SignalCall(signal)), ops);
            Signals(r.log, s.chans[w].id) == Completions(r.log, w)
  {
    AsyncRun(s, signal, ops, Ctx(-1, w, false, false, -1, -1, -1));
  }

  // If no other valid signal is set during the run, all of them are that signal,
  // even those of descriptors that were prepared before an attempt to change it.
  lemma SignalsKeepNumber(s: Dev, signal: int, ops: seq<Op>, w: nat)
    requires Probed(s) && ValidSignal(signal) && LegalRun(Do(s, SignalCall(signal)), ops) && w < |s.chans|
    requires forall i :: 0 <= i < |ops| ==> NeverBlocksOn(s.chans[w].id, ops[i]) && OnlySets(signal, ops[i])
    ensures SignalsCarry(Run(Do(s, SignalCall(signal)), ops).log, s.chans[w].id, signal)
  {
    AsyncRun(s, signal, ops, Ctx(-1, w, false, false, -1, signal, -1));
  }

  // If one task makes all calls that name the channel, all of its signals go to
  // that task, whatever other tasks do on other channels.
  lemma SignalsReachCaller(s: Dev, signal: int, ops: seq<Op>, w: nat, task: Task)
    requires Probed(s) && ValidSignal(signal) && LegalRun(Do(s, SignalCall(signal)), ops) && w < |s.chans|
    requires forall i :: 0 <= i < |ops| ==>
               NeverBlocksOn(s.chans[w].id, ops[i]) && OnlyCalledBy(s.chans[w].id, task, ops[i])
    ensures SignalsReach(Run(Do(s, SignalCall(signal)), ops).log, s.chans[w].id, task)
  {
    AsyncRun(s, signal, ops, Ctx(-1, w, false, false, -1, -1, task));
  }

  /* ---- Memory ---- */

  // In every reachable state a non-empty user range that does not wrap is
  // translated exactly when a live buffer covers it; that buffer is the only
  // one, and the answer is its base plus the offset. A range that wraps lies in
  // no buffer at all (DriverLimits.WrappedRange: it may be translated).
  lemma ReachableTranslation(s: Dev, addr: nat, n: nat)
    requires Reachable(s) && n > 0
    ensures var live := Live(s.bufs, s.exts);
            var dma := Translate(live, addr, n);
            && (Proper(addr, n) ==> (dma != 0 <==> exists i :: 0 <= i < |live| && Covers(live[i], addr, n)))
            && (forall i :: 0 <= i < |live| && Covers(live[i], addr, n) ==>
                  Proper(addr, n) && dma == live[i].dma + (addr - live[i].user) && Within(live[i], dma, n))
            && (forall i, j :: 0 <= i < |live| && 0 <= j < |live| ==>
                  Covers(live[i], addr, n) && Covers(live[j], addr, n) ==> i == j)
  {
    ReachableGood(s);
    if Proper(addr, n) {
      TranslateExact(Live(s.bufs, s.exts), addr, n);
    }
  }

  lemma ReachableKeepsApart(s: Dev, a: nat, n: nat, b: nat, m: nat)
    requires Reachable(s) && n > 0 && m > 0 && Proper(a, n) && Proper(b, m)
    ensures var live := Live(s.bufs, s.exts);
            && (Translate(live, a, n) != 0 && Translate(live, b, m) != 0 && Apart(a, n, b, m) ==>
                  Apart(Translate(live, a, n), n, Translate(live, b, m), m))
            && (Translate(live, a, n) != 0 && a <= b && b + m <= a + n ==>
                  Translate(live, b, m) == Translate(live, a, n) + (b - a))
  {
    ReachableGood(s);
    var live := Live(s.bufs, s.exts);
    if Translate(live, a, n) != 0 {
      if Translate(live, b, m) != 0 && Apart(a, n, b, m) {
        TranslateKeepsApart(live, a, n, b, m);
      }
      if a <= b && b + m <= a + n {
        TranslateSubrange(live, a, n, b, m);
      }
    }
  }

  // In every reachable state the driver holds exactly one coherent region per
  // mapped buffer, and one reference, attachment and mapping per external one.
  lemma ReachableBalanced(s: Dev)
    requires Reachable(s)
    ensures Balanced(s)
    ensures |s.kernel.coherent| == |s.bufs|
    ensures |s.kernel.refs| == |s.kernel.attached| == |s.kernel.mapped| == |s.exts|
  {
    ReachableGood(s);
  }
}
