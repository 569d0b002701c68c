// The invariant of the driver under every interleaving of engine activity, and
// the proof that each step of a transfer call keeps it.
module DriverInvariant {
  import opened Types
  import opened Regions
  import opened DmaEngine
  import opened DriverSpec

  // What is being followed through a run. `waiter` is the channel on which the
  // call in progress blocks, `watch` a channel no call blocks on (-1: none).
  // `contained` follows that outstanding descriptors lie in live buffers,
  // `quiet` that no channel but the waiter has any, and `clean` that no callback
  // has reached an uninitialised completion since the history was that many
  // events long, and `number` and `task` that the watched channel only sends that
  // signal, and only to that task (-1: not followed).
  datatype Ctx = Ctx(waiter: int, watch: int, contained: bool, quiet: bool, clean: int, number: int, task: int)

  // The number of signals that carry the given id.
  ghost function Signals(log: seq<Event>, id: int): nat {
    if log == [] then 0
    else
      var e := log[|log| - 1];
      Signals(log[..|log| - 1], id) + if e.Signalled? && e.id == id then 1 else 0
  }

  // The number of descriptors the engine has completed on channel p.
  ghost function Completions(log: seq<Event>, p: int): nat {
    if log == [] then 0
    else
      var e := log[|log| - 1];
      Completions(log[..|log| - 1], p) + if e.Completed? && e.p == p then 1 else 0
  }

  lemma CountsGrow(log: seq<Event>, e: Event, id: int, p: int)
    ensures Signals(log + [e], id) == Signals(log, id) + if e.Signalled? && e.id == id then 1 else 0
    ensures Completions(log + [e], p) == Completions(log, p) + if e.Completed? && e.p == p then 1 else 0
  {
    assert (log + [e])[..|log|] == log;
  }

  ghost predicate Table(s: Dev) {
    && |s.slots| == |s.queues| == |s.chans|
    && UniqueIds(s.chans)
    && IdsInRange(s.chans)
  }

  // A signal the watched channel may send.
  predicate RightSignal(c: Ctx, signal: int) {
    ValidSignal(signal) && (c.number >= 0 ==> signal == c.number)
  }

  // The task the watched channel may send it to.
  predicate RightTask(c: Ctx, process: nat) {
    c.task >= 0 ==> process == c.task
  }

  // What must hold of channel p's callback slot while a descriptor that will
  // use it is outstanding.
  ghost predicate SlotOk(s: Dev, c: Ctx, p: nat, cb: Slot)
    requires p < |s.chans|
  {
    && cb.channelId == s.chans[p].id
    && (cb.comp == None ==> cb.process != 0)
    && (cb.comp == None || (p == c.waiter && s.call.Some? && cb.comp == s.call))
    && (p == c.watch ==> cb.comp == None && RightSignal(c, cb.notifySignal) && RightTask(c, cb.process))
  }

  ghost predicate QueueOk(s: Dev, c: Ctx, p: nat, q: Queue)
    requires p < |s.chans|
  {
    && Ordered(q)
    && (forall i :: 0 <= i < |q.descs| ==> q.descs[i].slot == s.chans[p].id)
    && (c.quiet && p != c.waiter ==> q.descs == [])
    && (c.contained ==>
          forall i :: 0 <= i < |q.descs| ==> Inside(Live(s.bufs, s.exts), q.descs[i].dma, q.descs[i].len))
  }

  ghost predicate ChanOk(s: Dev, c: Ctx, p: nat)
    requires Table(s) && p < |s.chans|
  {
    && QueueOk(s, c, p, s.queues[p])
    && (s.queues[p].descs != [] ==> SlotOk(s, c, p, s.slots[s.chans[p].id]))
  }

  ghost predicate NoStray(log: seq<Event>) {
    forall i :: 0 <= i < |log| ==> !log[i].Stray?
  }

  // From event number `from` on, no callback reached a completion before it was
  // initialised.
  ghost predicate NoUninit(log: seq<Event>, from: nat) {
    forall i :: from <= i < |log| ==> !log[i].WokeUninit?
  }

  // No signal was sent to a null task.
  ghost predicate NoNullTask(log: seq<Event>) {
    forall i :: 0 <= i < |log| && log[i].Signalled? ==> log[i].process != 0
  }

  // Every signal with the id has the given number.
  ghost predicate SignalsCarry(log: seq<Event>, id: int, number: int) {
    forall i :: 0 <= i < |log| && log[i].Signalled? && log[i].id == id ==> log[i].signal == number
  }

  // Every signal with the id went to the given task.
  ghost predicate SignalsReach(log: seq<Event>, id: int, task: int) {
    forall i :: 0 <= i < |log| && log[i].Signalled? && log[i].id == id ==> log[i].process == task
  }

  // Every descriptor was inside a live buffer when the engine finished it.
  ghost predicate NoWild(log: seq<Event>) {
    forall i :: 0 <= i < |log| && log[i].Completed? ==> log[i].inside
  }

  // Every signal is a real-time one and carries an id that indexes a table with
  // one entry per channel.
  ghost predicate SignalsInTable(s: Dev) {
    forall i :: 0 <= i < |s.log| && s.log[i].Signalled? ==>
      0 <= s.log[i].id < |s.chans| && ValidSignal(s.log[i].signal)
  }

  ghost predicate LogOk(s: Dev, c: Ctx) {
    && NoStray(s.log) && NoNullTask(s.log)
    && SignalsInTable(s)
    && (c.contained ==> NoWild(s.log))
    && (c.clean >= 0 ==> NoUninit(s.log, c.clean))
    && (0 <= c.watch < |s.chans| ==>
          RightSignal(c, s.notify)
          && (c.number >= 0 ==> SignalsCarry(s.log, s.chans[c.watch].id, c.number))
          && (c.task >= 0 ==> SignalsReach(s.log, s.chans[c.watch].id, c.task))
          && Signals(s.log, s.chans[c.watch].id) == Completions(s.log, c.watch))
  }

  ghost predicate Good(s: Dev, c: Ctx) {
    && Table(s)
    && (forall p :: 0 <= p < |s.chans| ==> ChanOk(s, c, p))
    && LogOk(s, c)
    && (c.waiter >= 0 ==> s.call.Some? && c.waiter != c.watch)
    && StillTooEarly(s, c)
  }

  // Until the call's completion is initialised its channel has nothing issued.
  ghost predicate StillTooEarly(s: Dev, c: Ctx) {
    c.clean >= 0 && 0 <= c.waiter < |s.queues| && !s.ready ==> !CanComplete(s.queues[c.waiter])
  }

  // What no step of a transfer changes.
  ghost predicate Onward(s: Dev, r: Dev) {
    && r.chans == s.chans && r.notify == s.notify
    && r.bufs == s.bufs && r.exts == s.exts && r.kernel == s.kernel
    && r.call == s.call && r.calls == s.calls && r.oops == s.oops && (s.ready ==> r.ready)
    && |r.slots| == |s.slots| && |r.queues| == |s.queues|
    && s.log <= r.log
  }

  // Channel p has been given nothing new, and nothing was issued or submitted.
  ghost predicate NothingNew(s: Dev, r: Dev) {
    && |r.queues| == |s.queues|
    && (forall p :: 0 <= p < |s.queues| ==>
          r.queues[p].lastUsed == s.queues[p].lastUsed && r.queues[p].issued <= s.queues[p].issued)
    && (forall i :: |s.log| <= i < |r.log| ==> !r.log[i].Issued? && !r.log[i].Submitted?)
  }

  // What engine activity leaves alone.
  ghost predicate Steady(s: Dev, r: Dev) {
    Onward(s, r) && NothingNew(s, r) && r.slots == s.slots && r.ready == s.ready
  }

  lemma TickSteady(s: Dev, p: nat)
    ensures Steady(s, Tick(s, p))
  {
  }

  lemma {:induction false} TicksSteady(s: Dev, ps: seq<nat>)
    ensures Steady(s, Ticks(s, ps))
    decreases |ps|
  {
    if ps != [] {
      TickSteady(s, ps[0]);
      TicksSteady(Tick(s, ps[0]), ps[1..]);
    }
  }

  lemma CompleteOk(s: Dev, c: Ctx, p: nat)
    requires p < |s.chans| && |s.queues| == |s.chans|
    requires QueueOk(s, c, p, s.queues[p]) && CanComplete(s.queues[p])
    ensures QueueOk(s, c, p, Complete(s.queues[p]))
  {
  }

  // Different channels have different ids.
  lemma IdsDiffer(s: Dev, p: nat, q: nat)
    requires Table(s) && p < |s.chans| && q < |s.chans| && p != q
    ensures s.chans[p].id != s.chans[q].id
  {
    assert s.chans[if p < q then p else q].id != s.chans[if p < q then q else p].id;
  }

  // What a callback may add to the history: never the wake-up of a call that
  // has returned, nor one that comes before its completion was initialised.
  ghost predicate Harmless(s: Dev, c: Ctx, e: Event) {
    && !e.Stray? && !e.Completed?
    && (e.Signalled? ==> 0 <= e.id < |s.chans| && ValidSignal(e.signal) && e.process != 0)
    && (e.Signalled? && 0 <= c.watch < |s.chans| && e.id == s.chans[c.watch].id ==>
          RightSignal(c, e.signal) && RightTask(c, e.process))
    && (c.clean >= 0 ==> !e.WokeUninit?)
  }

  lemma TickEvents(s: Dev, c: Ctx, p: nat)
    requires Good(s, c) && p < |s.queues| && CanComplete(s.queues[p])
    ensures var r, d := Tick(s, p), s.queues[p].descs[0];
            var mid := s.log + [Completed(p, d, Inside(Live(s.bufs, s.exts), d.dma, d.len))];
            r.log == mid || (r.log == mid + [r.log[|mid|]] && Harmless(s, c, r.log[|mid|]))
  {
    assert ChanOk(s, c, p);
    if 0 <= c.watch < |s.chans| && p != c.watch {
      IdsDiffer(s, p, c.watch);
    }
  }

  // One completion: its callback signals exactly once on the watched channel,
  // and never reaches a completion that is gone.
  lemma TickLog(s: Dev, c: Ctx, p: nat)
    requires Good(s, c)
    ensures LogOk(Tick(s, p), c)
  {
    if p < |s.queues| && CanComplete(s.queues[p]) {
      TickEvents(s, c, p);
      var d := s.queues[p].descs[0];
      assert c.contained ==> Inside(Live(s.bufs, s.exts), d.dma, d.len) by {
        assert ChanOk(s, c, p);
      }
      TickLogOk(s, c, Tick(s, p), p);
    }
  }

  lemma TickLogOk(s: Dev, c: Ctx, r: Dev, p: nat)
    requires Good(s, c) && p < |s.queues| && CanComplete(s.queues[p]) && r == Tick(s, p)
    requires var d := s.queues[p].descs[0];
             var mid := s.log + [Completed(p, d, Inside(Live(s.bufs, s.exts), d.dma, d.len))];
             && (r.log == mid || (r.log == mid + [r.log[|mid|]] && Harmless(s, c, r.log[|mid|])))
             && (c.contained ==> Inside(Live(s.bufs, s.exts), d.dma, d.len))
    ensures LogOk(r, c)
  {
    if 0 <= c.watch < |s.chans| {
      TickCounts(s, c, p);
    }
  }

  lemma TickCounts(s: Dev, c: Ctx, p: nat)
    requires Good(s, c) && 0 <= c.watch < |s.chans|
    requires p < |s.queues| && CanComplete(s.queues[p])
    ensures var id := s.chans[c.watch].id;
            Signals(Tick(s, p).log, id) == Completions(Tick(s, p).log, c.watch)
  {
    var r, id := Tick(s, p), s.chans[c.watch].id;
    var d := s.queues[p].descs[0];
    assert ChanOk(s, c, p);
    if p != c.watch {
      IdsDiffer(s, p, c.watch);
    }
    var done := Completed(p, d, Inside(Live(s.bufs, s.exts), d.dma, d.len));
    var mid := s.log + [done];
    CountsGrow(s.log, done, id, c.watch);
    if r.log != mid {
      CountsGrow(mid, r.log[|mid|], id, c.watch);
      assert r.log == mid + [r.log[|mid|]];
    }
  }

  lemma TickGood(s: Dev, c: Ctx, p: nat)
    requires Good(s, c)
    ensures Good(Tick(s, p), c)
  {
    TickSteady(s, p);
    TickLog(s, c, p);
    TickChans(s, c, p);
  }

  lemma TickChans(s: Dev, c: Ctx, p: nat)
    requires Good(s, c)
    ensures forall x :: 0 <= x < |s.chans| ==> ChanOk(Tick(s, p), c, x)
  {
    if p < |s.queues| && CanComplete(s.queues[p]) {
      assert ChanOk(s, c, p);
      CompleteOk(s, c, p);
    }
    forall x | 0 <= x < |s.chans| ensures ChanOk(Tick(s, p), c, x) {
      assert ChanOk(s, c, x);
    }
  }

  lemma {:induction false} TicksGood(s: Dev, ps: seq<nat>, c: Ctx)
    requires Good(s, c)
    ensures Good(Ticks(s, ps), c) && Steady(s, Ticks(s, ps))
    decreases |ps|
  {
    TicksSteady(s, ps);
    if ps != [] {
      TickGood(s, c, ps[0]);
      TicksGood(Tick(s, ps[0]), ps[1..], c);
    }
  }

  // An idle channel stays as it is.
  lemma {:induction false} TicksKeepDrained(s: Dev, ps: seq<nat>, p: nat)
    requires p < |s.queues| && s.queues[p].descs == []
    ensures Ticks(s, ps).queues[p] == s.queues[p]
    decreases |ps|
  {
    if ps != [] {
      TicksKeepDrained(Tick(s, ps[0]), ps[1..], p);
    }
  }

  // Nobody but the waiter's own descriptors wakes the call in progress.
  lemma {:induction false} TicksNoWake(s: Dev, ps: seq<nat>, c: Ctx, p: nat)
    requires Good(s, c) && c.waiter == p < |s.queues| && !CanComplete(s.queues[p])
    ensures Ticks(s, ps).woken == s.woken && Ticks(s, ps).queues[p] == s.queues[p]
    decreases |ps|
  {
    if ps != [] {
      if ps[0] < |s.queues| {
        assert ChanOk(s, c, ps[0]);
      }
      TickGood(s, c, ps[0]);
      TicksNoWake(Tick(s, ps[0]), ps[1..], c, p);
    }
  }

  // With one issued descriptor on its channel the call is woken exactly when
  // the engine attends to that channel.
  lemma {:induction false} TicksWake(s: Dev, ps: seq<nat>, c: Ctx, p: nat)
    requires Good(s, c) && c.waiter == p < |s.queues|
    requires |s.queues[p].descs| == s.queues[p].issued == 1
    requires s.slots[s.chans[p].id].comp == s.call
    ensures var r := Ticks(s, ps);
            if p in ps then r.woken > s.woken && IsComplete(r.queues[p], s.queues[p].descs[0].cookie)
            else r.woken == s.woken && r.queues[p] == s.queues[p]
    decreases |ps|
  {
    if ps != [] {
      var m := Tick(s, ps[0]);
      assert ChanOk(s, c, p);
      if ps[0] < |s.queues| {
        assert ChanOk(s, c, ps[0]);
      }
      TickGood(s, c, ps[0]);
      if ps[0] == p {
        TicksNoWake(m, ps[1..], c, p);
      } else {
        TicksWake(m, ps[1..], c, p);
      }
    }
  }

  /* ---- The steps of a transfer ---- */

  // What the caller of prepare must have established about a transfer.
  ghost predicate Allowed(s: Dev, c: Ctx, p: nat, t: Transfer) {
    && p < |s.chans|
    && t.id == s.chans[p].id
    && (t.wait <==> p == c.waiter)
    && (p == c.watch ==> !t.wait && RightSignal(c, t.notify) && RightTask(c, t.process))
    && (c.quiet ==> p == c.waiter)
    && (c.contained ==> Inside(Live(s.bufs, s.exts), t.dma, t.len))
  }

  // A write to channel p's slot is harmless if p is idle or the new value
  // serves the descriptors that are outstanding.
  lemma SetSlotGood(s: Dev, c: Ctx, p: nat, cb: Slot)
    requires Good(s, c) && p < |s.chans|
    requires s.queues[p].descs != [] ==> SlotOk(s, c, p, cb)
    ensures Good(SetSlot(s, s.chans[p].id, cb), c)
  {
    var r := SetSlot(s, s.chans[p].id, cb);
    forall x | 0 <= x < |s.chans| ensures ChanOk(r, c, x) {
      assert ChanOk(s, c, x);
      assert x < p ==> s.chans[x].id != s.chans[p].id;
      assert p < x ==> s.chans[p].id != s.chans[x].id;
    }
  }

  // An event that says nothing of completions and callbacks.
  lemma LogGood(s: Dev, c: Ctx, e: Event)
    requires LogOk(s, c) && (e.Submitted? || e.Issued? || e.Terminated?)
    ensures LogOk(s.(log := s.log + [e]), c)
  {
    if 0 <= c.watch < |s.chans| {
      CountsGrow(s.log, e, s.chans[c.watch].id, c.watch);
    }
  }

  // Replacing channel p's queue by a good one, and logging a harmless event.
  lemma SetQueueGood(s: Dev, c: Ctx, p: nat, q: Queue, e: Event)
    requires Good(s, c) && p < |s.chans|
    requires QueueOk(s, c, p, q)
    requires q.descs != [] ==> SlotOk(s, c, p, s.slots[s.chans[p].id])
    requires e.Submitted? || e.Issued? || e.Terminated?
    requires c.clean >= 0 && p == c.waiter && !s.ready ==> !CanComplete(q)
    ensures Good(s.(queues := s.queues[p := q], log := s.log + [e]), c)
  {
    var r := s.(queues := s.queues[p := q], log := s.log + [e]);
    LogGood(s, c, e);
    assert LogOk(r, c);
    forall x | 0 <= x < |s.chans| ensures ChanOk(r, c, x) {
      assert ChanOk(s, c, x);
    }
  }

  lemma TerminateGood(s: Dev, c: Ctx, p: nat)
    requires Good(s, c) && p < |s.chans|
    ensures Good(TerminateAll(s, p), c) && Onward(s, TerminateAll(s, p))
    ensures TerminateAll(s, p).queues[p].descs == []
    ensures NothingNew(s, TerminateAll(s, p))
  {
    assert ChanOk(s, c, p);
    SetQueueGood(s, c, p, Terminate(s.queues[p]), Terminated(p));
  }

  // The slot value a transfer asks for.
  function Wanted(s: Dev, t: Transfer): Slot {
    if t.wait then Slot(t.id, -1, 0, s.call) else Slot(t.id, t.notify, t.process, None)
  }

  // cb is what the slot held, with some fields already as the transfer wants;
  // the task comes after the completion.
  predicate Towards(was: Slot, cb: Slot, want: Slot) {
    && (cb.channelId == was.channelId || cb.channelId == want.channelId)
    && (cb.comp == was.comp || cb.comp == want.comp)
    && (cb.notifySignal == was.notifySignal || cb.notifySignal == want.notifySignal)
    && (cb.process == was.process || (cb.comp == want.comp && cb.process == want.process))
  }

  // A half-written slot still serves the descriptors that are outstanding: one
  // that finishes now signals for its own channel or reaches the completion of
  // the call in progress. That completion may not be initialised yet; whether
  // it is reached too early is what StillTooEarly decides.
  lemma WriteGood(s: Dev, c: Ctx, p: nat, t: Transfer, cb: Slot, ps: seq<nat>)
    requires Good(s, c) && Allowed(s, c, p, t)
    requires Towards(s.slots[t.id], cb, Wanted(s, t))
    ensures var r := Ticks(SetSlot(s, t.id, cb), ps);
            && Good(r, c) && Onward(s, r) && NothingNew(s, r) && r.slots[t.id] == cb
            && (s.queues[p].descs == [] ==> r.queues[p] == s.queues[p])
  {
    assert ChanOk(s, c, p);
    SetSlotGood(s, c, p, cb);
    if s.queues[p].descs == [] {
      TicksKeepDrained(SetSlot(s, t.id, cb), ps, p);
    }
    TicksGood(SetSlot(s, t.id, cb), ps, c);
  }

  lemma OnwardTwice(s: Dev, m: Dev, r: Dev)
    requires Onward(s, m) && Onward(m, r)
    ensures Onward(s, r)
    ensures NothingNew(s, m) && NothingNew(m, r) ==> NothingNew(s, r)
  {
  }

  lemma FillNamesGood(s: Dev, c: Ctx, p: nat, t: Transfer, e: Env)
    requires Good(s, c) && Allowed(s, c, p, t)
    ensures var r, w := FillNames(s, t, e), Wanted(s, t);
            && Good(r, c) && Onward(s, r) && NothingNew(s, r)
            && r.slots[t.id] == s.slots[t.id].(channelId := w.channelId, comp := w.comp)
            && (s.queues[p].descs == [] ==> r.queues[p] == s.queues[p])
  {
    var w := Wanted(s, t);
    var v1 := s.slots[t.id].(channelId := t.id);
    WriteGood(s, c, p, t, v1, e.At(1));
    var s1 := Ticks(SetSlot(s, t.id, v1), e.At(1));
    var v2 := v1.(comp := w.comp);
    WriteGood(s1, c, p, t, v2, e.At(2));
    var s2 := Ticks(SetSlot(s1, t.id, v2), e.At(2));
    OnwardTwice(s, s1, s2);
  }

  lemma FillFieldsGood(s: Dev, c: Ctx, p: nat, t: Transfer, e: Env)
    requires Good(s, c) && Allowed(s, c, p, t)
    ensures var r := FillFields(s, t, e);
            && Good(r, c) && Onward(s, r) && NothingNew(s, r) && r.slots[t.id] == Wanted(s, t)
            && (s.queues[p].descs == [] ==> r.queues[p] == s.queues[p])
  {
    var w := Wanted(s, t);
    FillNamesGood(s, c, p, t, e);
    var s2 := FillNames(s, t, e);
    var v2 := s2.slots[t.id];
    var v3 := v2.(notifySignal := w.notifySignal);
    WriteGood(s2, c, p, t, v3, e.At(3));
    var s3 := Ticks(SetSlot(s2, t.id, v3), e.At(3));
    OnwardTwice(s, s2, s3);
    WriteGood(s3, c, p, t, w, e.At(4));
    var s4 := Ticks(SetSlot(s3, t.id, w), e.At(4));
    OnwardTwice(s, s3, s4);
  }

  lemma FillSlotGood(s: Dev, c: Ctx, p: nat, t: Transfer, e: Env)
    requires Good(s, c) && Allowed(s, c, p, t)
    ensures var r := FillSlot(s, t, e);
            && Good(r, c) && Onward(s, r) && NothingNew(s, r) && r.slots[t.id] == Wanted(s, t)
            && (t.wait ==> r.ready)
            && (s.queues[p].descs == [] ==> r.queues[p] == s.queues[p] && (t.wait ==> r.woken == 0))
  {
    FillFieldsGood(s, c, p, t, e);
    var s4 := FillFields(s, t, e);
    var s5 := if t.wait then s4.(woken := 0, ready := true) else s4;
    InitGood(s4, c);
    TicksGood(s5, e.At(5), c);
    OnwardTwice(s, s4, Ticks(s5, e.At(5)));
    if s.queues[p].descs == [] {
      TicksKeepDrained(s5, e.At(5), p);
      if t.wait {
        TicksNoWake(s5, e.At(5), c, p);
      }
    }
  }

  // From init_completion on the call may be woken.
  lemma InitGood(s: Dev, c: Ctx)
    requires Good(s, c)
    ensures Good(s.(woken := 0, ready := true), c)
  {
    forall x | 0 <= x < |s.chans| ensures ChanOk(s.(woken := 0, ready := true), c, x) {
      assert ChanOk(s, c, x);
    }
  }

  // The descriptor is still outstanding, or the engine has completed it since
  // the history was `from` events long.
  ghost predicate Landed(s: Dev, p: nat, d: Desc, from: nat) {
    && p < |s.queues|
    && (d in s.queues[p].descs || CompletedSince(s.log, p, d, from))
  }

  ghost predicate CompletedSince(log: seq<Event>, p: nat, d: Desc, from: nat) {
    exists i :: from <= i < |log| && log[i].Completed? && log[i].p == p && log[i].d == d
  }

  ghost predicate SubmittedSince(log: seq<Event>, p: nat, d: Desc, from: nat) {
    exists i :: from <= i < |log| && log[i] == Submitted(p, d)
  }

  lemma SinceGrows(log: seq<Event>, more: seq<Event>, p: nat, d: Desc, from: nat)
    requires log <= more
    ensures CompletedSince(log, p, d, from) ==> CompletedSince(more, p, d, from)
    ensures SubmittedSince(log, p, d, from) ==> SubmittedSince(more, p, d, from)
  {
    if i :| from <= i < |log| && log[i].Completed? && log[i].p == p && log[i].d == d {
      assert more[i] == log[i];
    }
    if i :| from <= i < |log| && log[i] == Submitted(p, d) {
      assert more[i] == log[i];
    }
  }

  // The engine never loses a descriptor: it stays outstanding or completes.
  lemma {:induction false} TicksLanded(s: Dev, ps: seq<nat>, p: nat, d: Desc, from: nat)
    requires Landed(s, p, d, from) && from <= |s.log|
    ensures Landed(Ticks(s, ps), p, d, from)
    decreases |ps|
  {
    if ps != [] {
      var r := Tick(s, ps[0]);
      TickSteady(s, ps[0]);
      SinceGrows(s.log, r.log, p, d, from);
      if ps[0] == p && CanComplete(s.queues[p]) && d in s.queues[p].descs {
        var i :| 0 <= i < |s.queues[p].descs| && s.queues[p].descs[i] == d;
        if i == 0 {
          assert r.log[|s.log|].Completed? && r.log[|s.log|].d == d;
        } else {
          assert r.queues[p].descs[i - 1] == d;
        }
      }
      TicksLanded(r, ps[1..], p, d, from);
    }
  }

  // A descriptor that landed and is no longer outstanding has completed.
  lemma DrainedMeansCompleted(s: Dev, p: nat, d: Desc, from: nat)
    requires Landed(s, p, d, from) && Ordered(s.queues[p]) && IsComplete(s.queues[p], d.cookie)
    ensures CompletedSince(s.log, p, d, from)
  {
  }

  // Prepare either leaves the channel empty and fails, or leaves its own
  // descriptor outstanding as the newest one, not yet issued by this call.
  lemma PrepGood(s: Dev, c: Ctx, p: nat, t: Transfer, e: Env)
    requires Good(s, c) && Allowed(s, c, p, t)
    ensures var o := Prep(s, p, t, e);
            && Good(o.dev, c) && Onward(s, o.dev)
            && (o.rc < 0 ==> o.dev.queues[p].descs == [] && NothingNew(s, o.dev))
            && (o.rc >= 0 ==> o.rc == 0 && PrepDone(s, o.dev, p, t, o.cookie) && (t.wait ==> o.dev.ready))
            && NothingIssued(s, o.dev)
  {
    TicksGood(s, e.At(0), c);
    var s0 := Ticks(s, e.At(0));
    if !(t.kind == VDMA && e.configRc < 0) && e.descOk {
      FillSlotGood(s0, c, p, t, e);
      var s1 := FillSlot(s0, t, e);
      OnwardTwice(s, s0, s1);
      if e.submitOk {
        SubmitGood(s, s1, c, p, t, e);
      } else {
        PrepAborts(s, s1, c, p);
      }
    } else {
      PrepAborts(s, s0, c, p);
    }
  }

  lemma PrepAborts(s: Dev, m: Dev, c: Ctx, p: nat)
    requires Good(m, c) && Onward(s, m) && NothingNew(s, m) && p < |s.chans|
    ensures var r := TerminateAll(m, p);
            Good(r, c) && Onward(s, r) && NothingNew(s, r) && r.queues[p].descs == []
  {
    TerminateGood(m, c, p);
    OnwardTwice(s, m, TerminateAll(m, p));
  }

  ghost predicate NothingIssued(s: Dev, r: Dev) {
    && |r.queues| == |s.queues|
    && forall x :: 0 <= x < |s.queues| ==> r.queues[x].issued <= s.queues[x].issued
  }

  // The state after a successful prepare.
  ghost predicate PrepDone(s: Dev, r: Dev, p: nat, t: Transfer, cookie: nat)
    requires p < |s.queues|
  {
    var d := Desc(cookie, t.dma, t.len, t.id);
    && |r.queues| == |s.queues|
    && r.queues[p].lastUsed == cookie
    && d in r.queues[p].descs
    && SubmittedSince(r.log, p, d, |s.log|)
    && (forall x :: 0 <= x < |s.queues| && x != p ==> r.queues[x].lastUsed == s.queues[x].lastUsed)
    && (forall i :: |s.log| <= i < |r.log| ==> !r.log[i].Issued?)
  }

  lemma SubmitGood(s: Dev, s1: Dev, c: Ctx, p: nat, t: Transfer, e: Env)
    requires Good(s1, c) && Onward(s, s1) && NothingNew(s, s1) && Allowed(s1, c, p, t)
    requires s1.slots[t.id] == Wanted(s1, t)
    ensures var q := Submit(s1.queues[p], t.dma, t.len, t.id);
            var d := q.descs[|q.descs| - 1];
            var r := Ticks(s1.(queues := s1.queues[p := q], log := s1.log + [Submitted(p, d)]), e.At(6));
            Good(r, c) && Onward(s, r) && PrepDone(s, r, p, t, d.cookie) && NothingIssued(s, r)
            && r.ready == s1.ready
  {
    var q := Submit(s1.queues[p], t.dma, t.len, t.id);
    var d := q.descs[|q.descs| - 1];
    var s2 := s1.(queues := s1.queues[p := q], log := s1.log + [Submitted(p, d)]);
    assert ChanOk(s1, c, p);
    SetQueueGood(s1, c, p, q, Submitted(p, d));
    TicksGood(s2, e.At(6), c);
    assert s2.log[|s1.log|] == Submitted(p, d);
    TicksKeepUnissued(s2, e.At(6), p, d);
  }

  // The newest descriptor has not been issued, and is d.
  ghost predicate Unissued(s: Dev, p: nat, d: Desc) {
    && p < |s.queues| && s.queues[p].issued < |s.queues[p].descs|
    && s.queues[p].descs[|s.queues[p].descs| - 1] == d
  }

  lemma TickKeepsUnissued(s: Dev, x: nat, p: nat, d: Desc)
    requires Unissued(s, p, d)
    ensures Unissued(Tick(s, x), p, d)
  {
  }

  // Ticks take issued descriptors only.
  lemma {:induction false} TicksKeepUnissued(s: Dev, ps: seq<nat>, p: nat, d: Desc)
    requires Unissued(s, p, d)
    ensures Unissued(Ticks(s, ps), p, d)
    decreases |ps|
  {
    if ps != [] {
      TickKeepsUnissued(s, ps[0], p, d);
      TicksKeepUnissued(Tick(s, ps[0]), ps[1..], p, d);
    }
  }

  // What start does besides waiting: the channel is issued, nothing else is.
  ghost predicate Started(s: Dev, r: Dev, p: nat) {
    && Onward(s, r)
    && (forall x :: 0 <= x < |s.queues| ==> r.queues[x].lastUsed == s.queues[x].lastUsed)
    && |s.log| < |r.log| && r.log[|s.log|] == Issued(p)
    && (forall i :: |s.log| < i < |r.log| ==> !r.log[i].Issued?)
  }

  lemma IssueGood(s: Dev, c: Ctx, p: nat, ps: seq<nat>)
    requires Good(s, c) && p < |s.chans| && (p == c.waiter ==> s.ready)
    ensures var r := Ticks(IssuePending(s, p), ps); Good(r, c) && Started(s, r, p)
  {
    assert ChanOk(s, c, p);
    SetQueueGood(s, c, p, Issue(s.queues[p]), Issued(p));
    TicksGood(IssuePending(s, p), ps, c);
  }

  lemma StartedThen(s: Dev, m: Dev, r: Dev, p: nat)
    requires Started(s, m, p) && Onward(m, r) && NothingNew(m, r)
    ensures Started(s, r, p)
  {
  }

  lemma StartGood(s: Dev, c: Ctx, p: nat, t: Transfer, cookie: nat, e: Env)
    requires Good(s, c) && p < |s.chans| && (p == c.waiter ==> s.ready)
    requires t.wait ==> s.queues[p].lastUsed == cookie
    ensures var o := Start(s, p, t, cookie, e);
            && Good(o.dev, c) && Started(s, o.dev, p)
            && o.rc <= 0 && (!t.wait ==> o.rc == 0)
            && (t.wait ==> o.dev.queues[p].descs == [])
  {
    IssueGood(s, c, p, e.At(7));
    var s1 := Ticks(IssuePending(s, p), e.At(7));
    if t.wait {
      TicksGood(s1, e.At(8), c);
      var s2 := Ticks(s1, e.At(8));
      StartedThen(s, s1, s2, p);
      TicksGood(s2, e.At(9), c);
      var s3 := Ticks(s2, e.At(9));
      StartedThen(s, s2, s3, p);
      TerminateGood(s3, c, p);
      StartedThen(s, s3, TerminateAll(s3, p), p);
      CompleteMeansDrained(s2, c, p, cookie);
      if IsComplete(s2.queues[p], cookie) {
        TicksKeepDrained(s2, e.At(9), p);
      }
    }
  }

  // The newest cookie is complete only when everything before it is.
  lemma CompleteMeansDrained(s: Dev, c: Ctx, p: nat, cookie: nat)
    requires Good(s, c) && p < |s.chans| && s.queues[p].lastUsed == cookie
    ensures IsComplete(s.queues[p], cookie) ==> s.queues[p].descs == []
  {
    assert ChanOk(s, c, p);
    if s.queues[p].descs != [] {
      assert s.queues[p].lastDone < s.queues[p].descs[0].cookie;
    }
  }

  // A blocking start that returns 0 saw its own descriptor complete, whichever
  // descriptor of the channel did the wake-up.
  lemma StartCompletes(s: Dev, c: Ctx, p: nat, t: Transfer, d: Desc, e: Env, from: nat)
    requires Good(s, c) && p < |s.chans| && t.wait && s.queues[p].lastUsed == d.cookie
    requires Landed(s, p, d, from) && from <= |s.log| && (p == c.waiter ==> s.ready)
    requires Start(s, p, t, d.cookie, e).rc == 0
    ensures CompletedSince(Start(s, p, t, d.cookie, e).dev.log, p, d, from)
  {
    assert ChanOk(s, c, p);
    SetQueueGood(s, c, p, Issue(s.queues[p]), Issued(p));
    var s0 := IssuePending(s, p);
    SinceGrows(s.log, s0.log, p, d, from);
    TicksGood(s0, e.At(7), c);
    TicksLanded(s0, e.At(7), p, d, from);
    var s1 := Ticks(s0, e.At(7));
    TicksGood(s1, e.At(8), c);
    TicksLanded(s1, e.At(8), p, d, from);
    var s2 := Ticks(s1, e.At(8));
    assert ChanOk(s2, c, p);
    DrainedMeansCompleted(s2, p, d, from);
    TicksSteady(s2, e.At(9));
    SinceGrows(s2.log, Ticks(s2, e.At(9)).log, p, d, from);
  }

  // Starting another channel does not lose the descriptor.
  lemma StartElsewhere(s: Dev, q: nat, t: Transfer, cookie: nat, e: Env, p: nat, d: Desc, from: nat)
    requires q < |s.queues| && p != q && !t.wait
    requires Landed(s, p, d, from) && from <= |s.log|
    ensures Landed(Start(s, q, t, cookie, e).dev, p, d, from)
  {
    var s0 := IssuePending(s, q);
    SinceGrows(s.log, s0.log, p, d, from);
    TicksLanded(s0, e.At(7), p, d, from);
  }

  /* ---- Entering and leaving a call ---- */

  lemma EnterGood(s: Dev, c: Ctx, e: Env)
    requires Good(s, c) && c.waiter == -1 && s.call == None
    ensures Good(Enter(s, e), c)
  {
    forall x | 0 <= x < |s.chans| ensures ChanOk(Enter(s, e), c, x) {
      assert ChanOk(s, c, x);
    }
  }

  // From here on the call may put its completion into channel p's slot, which
  // is too early if p has something issued.
  lemma WaitGood(s: Dev, c: Ctx, p: nat)
    requires Good(s, c) && c.waiter == -1 && s.call.Some?
    requires p < |s.chans| && p != c.watch
    requires c.clean >= 0 ==> !CanComplete(s.queues[p])
    ensures Good(s, c.(waiter := p))
  {
    forall x | 0 <= x < |s.chans| ensures ChanOk(s, c.(waiter := p), x) {
      assert ChanOk(s, c, x);
    }
  }

  // The completion may go when the channel that knows it is empty.
  lemma LeaveGood(s: Dev, c: Ctx)
    requires Good(s, c)
    requires 0 <= c.waiter < |s.chans| ==> s.queues[c.waiter].descs == []
    ensures Good(Leave(s), c.(waiter := -1))
  {
    forall x | 0 <= x < |s.chans| ensures ChanOk(Leave(s), c.(waiter := -1), x) {
      assert ChanOk(s, c, x);
    }
  }

  /* ---- The result of a blocking call on an idle channel ---- */

  predicate Prepares(kind: Kind, e: Env) {
    !(kind == VDMA && e.configRc < 0) && e.descOk && e.submitOk
  }

  // On an idle channel a blocking prepare leaves just its own descriptor, a
  // slot that names the call, and a completion that has not been done.
  ghost predicate Poised(r: Dev, p: nat, t: Transfer, cookie: nat) {
    && p < |r.queues| && 0 <= t.id < |r.slots|
    && r.ready && r.woken == 0 && r.queues[p].issued == 0
    && r.queues[p].descs == [Desc(cookie, t.dma, t.len, t.id)]
    && r.slots[t.id].comp == r.call
  }

  lemma PrepIdle(s: Dev, c: Ctx, p: nat, t: Transfer, e: Env)
    requires Good(s, c) && Allowed(s, c, p, t) && t.wait && Prepares(t.kind, e)
    requires s.queues[p].descs == []
    ensures var o := Prep(s, p, t, e);
            o.rc == 0 && Poised(o.dev, p, t, o.cookie)
  {
    TicksGood(s, e.At(0), c);
    TicksKeepDrained(s, e.At(0), p);
    var s0 := Ticks(s, e.At(0));
    FillSlotGood(s0, c, p, t, e);
    SubmitIdle(FillSlot(s0, t, e), c, p, t, e);
  }

  lemma SubmitIdle(s1: Dev, c: Ctx, p: nat, t: Transfer, e: Env)
    requires Good(s1, c) && Allowed(s1, c, p, t) && t.wait
    requires s1.queues[p].descs == [] && s1.ready && s1.woken == 0 && s1.slots[t.id] == Wanted(s1, t)
    ensures var q := Submit(s1.queues[p], t.dma, t.len, t.id);
            var d := q.descs[|q.descs| - 1];
            var r := Ticks(s1.(queues := s1.queues[p := q], log := s1.log + [Submitted(p, d)]), e.At(6));
            Poised(r, p, t, d.cookie)
  {
    var q := Submit(s1.queues[p], t.dma, t.len, t.id);
    var d := q.descs[|q.descs| - 1];
    var s2 := s1.(queues := s1.queues[p := q], log := s1.log + [Submitted(p, d)]);
    assert ChanOk(s1, c, p);
    SetQueueGood(s1, c, p, q, Submitted(p, d));
    TicksGood(s2, e.At(6), c);
    TicksNoWake(s2, e.At(6), c, p);
  }

  lemma StartIdle(s: Dev, c: Ctx, p: nat, t: Transfer, cookie: nat, e: Env)
    requires Good(s, c) && c.waiter == p < |s.chans| && t.wait && t.id == s.chans[p].id
    requires Poised(s, p, t, cookie)
    ensures Start(s, p, t, cookie, e).rc == if p in e.At(7) then 0 else -ETIME
  {
    assert ChanOk(s, c, p);
    SetQueueGood(s, c, p, Issue(s.queues[p]), Issued(p));
    var s0 := IssuePending(s, p);
    TicksGood(s0, e.At(7), c);
    TicksWake(s0, e.At(7), c, p);
    var s1 := Ticks(s0, e.At(7));
    if p in e.At(7) {
      TicksStayComplete(s1, e.At(8), c, p, cookie);
    }
  }

  // What is complete stays complete.
  lemma {:induction false} TicksStayComplete(s: Dev, ps: seq<nat>, c: Ctx, p: nat, cookie: nat)
    requires Good(s, c) && p < |s.queues| && IsComplete(s.queues[p], cookie)
    ensures IsComplete(Ticks(s, ps).queues[p], cookie)
    decreases |ps|
  {
    if ps != [] {
      assert ChanOk(s, c, p);
      TickGood(s, c, ps[0]);
      TicksStayComplete(Tick(s, ps[0]), ps[1..], c, p, cookie);
    }
  }
}
