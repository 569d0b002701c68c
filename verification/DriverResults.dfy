// What a single call returns and leaves behind, in every reachable state and
// for everything the engine may do meanwhile.
module DriverResults {
  import opened Types
  import opened Regions
  import opened DmaEngine
  import opened DriverSpec
  import opened DriverInvariant
  import opened DriverRuns
  import opened DriverTheorems
  import opened DriverLimits

  /* ---- Return codes ---- */

  // A channel with the id and the direction exists.
  ghost predicate HasChannel(chans: seq<Chan>, id: int, dir: Dir) {
    exists i :: 0 <= i < |chans| && chans[i].id == id && chans[i].dir == dir
  }

  lemma LookupHas(chans: seq<Chan>, id: int, dir: Dir)
    requires UniqueIds(chans)
    ensures Lookup(chans, id) >= 0 && chans[Lookup(chans, id)].dir == dir <==> HasChannel(chans, id, dir)
  {
    var p := Lookup(chans, id);
    assert forall i :: 0 <= i < |chans| && i != p && p >= 0 ==> chans[i].id != id by {
      forall i | 0 <= i < |chans| && i != p && p >= 0 ensures chans[i].id != id {
        assert chans[if i < p then i else p].id != chans[if i < p then p else i].id;
      }
    }
  }

  // The code with which prepare gives up.
  function GivesUp(kind: Kind, e: Env): int {
    if kind == VDMA && e.configRc < 0 then e.configRc else -EBUSY
  }

  lemma PrepCode(s: Dev, p: nat, t: Transfer, e: Env)
    requires p < |s.queues|
    ensures Prep(s, p, t, e).rc == if Prepares(t.kind, e) then 0 else GivesUp(t.kind, e)
  {
  }

  // A one-way call that is refused leaves the device as it was: -ENODEV if no
  // channel has the id and the direction, -EFAULT if only the range is not
  // mapped.
  lemma OneWayRefused(s: Dev, dir: Dir, r: Request, e: Env)
    requires Reachable(s) && !Accepted(s, dir, r)
    ensures OneWay(s, dir, r, e).dev == s
    ensures OneWay(s, dir, r, e).rc == if HasChannel(s.chans, r.id, dir) then -EFAULT else -ENODEV
  {
    ReachableGood(s);
    LookupHas(s.chans, r.id, dir);
  }

  lemma TwoWayRefused(s: Dev, r: Inout, te: Env, re: Env)
    requires Reachable(s) && !TwoWayAccepted(s, r)
    ensures TwoWay(s, r, te, re).dev == s
    ensures TwoWay(s, r, te, re).rc
            == if HasChannel(s.chans, r.txId, Write) && HasChannel(s.chans, r.rxId, Read) then -EFAULT else -ENODEV
  {
    ReachableGood(s);
    LookupHas(s.chans, r.txId, Write);
    LookupHas(s.chans, r.rxId, Read);
  }

  /* ---- Asynchronous one-way calls ---- */

  // d was submitted on p, and after that p was issued.
  ghost predicate HandedOver(log: seq<Event>, p: nat, d: Desc, from: nat) {
    exists i, j :: from <= i < j < |log| && log[i] == Submitted(p, d) && log[j] == Issued(p)
  }

  lemma HandedOverBy(log: seq<Event>, more: seq<Event>, p: nat, d: Desc, from: nat)
    requires SubmittedSince(log, p, d, from) && log < more && more[|log|] == Issued(p)
    ensures HandedOver(more, p, d, from)
  {
    var i :| from <= i < |log| && log[i] == Submitted(p, d);
    assert more[i] == log[i];
  }

  lemma HandedOverGrows(log: seq<Event>, more: seq<Event>, p: nat, d: Desc, from: nat)
    requires HandedOver(log, p, d, from) && log <= more
    ensures HandedOver(more, p, d, from)
  {
    var i, j :| from <= i < j < |log| && log[i] == Submitted(p, d) && log[j] == Issued(p);
    assert more[i] == log[i] && more[j] == log[j];
  }

  // The transfer was handed to the engine, or it was not even submitted, its
  // channel is empty and the code says why.
  ghost predicate Driven(s: Dev, r: Dev, rc: int, p: nat, d: Desc, kind: Kind, e: Env) {
    && p < |r.queues|
    && if Prepares(kind, e) then HandedOver(r.log, p, d, |s.log|)
       else rc == GivesUp(kind, e) && r.queues[p].descs == []
            && forall i :: |s.log| <= i < |r.log| ==> !r.log[i].Submitted? && !r.log[i].Issued?
  }

  lemma DriveResult(s: Dev, c: Ctx, p: nat, t: Transfer, e: Env)
    requires Between(s, c) && Allowed(s, c.(waiter := if t.wait then p else -1), p, t)
    requires c.clean >= 0 && t.wait ==> !CanComplete(s.queues[p])
    ensures var o := Drive(s, p, t, e);
            && Driven(s, o.dev, o.rc, p, Desc(o.cookie, t.dma, t.len, t.id), t.kind, e)
            && (Prepares(t.kind, e) && !t.wait ==> o.rc == 0)
  {
    InCall(s, c, if t.wait then p else -1, e);
    var c' := c.(waiter := if t.wait then p else -1);
    PrepGood(Enter(s, e), c', p, t, e);
    PrepCode(Enter(s, e), p, t, e);
    var a := Prep(Enter(s, e), p, t, e);
    if a.rc >= 0 {
      StartGood(a.dev, c', p, t, a.cookie, e);
      var b := Start(a.dev, p, t, a.cookie, e);
      HandedOverBy(a.dev.log, b.dev.log, p, Desc(a.cookie, t.dma, t.len, t.id), |s.log|);
    }
  }

  // An accepted one-way call whose transfer cannot be prepared, blocking or not:
  // the code says why, the channel is empty and nothing reached the engine. An
  // asynchronous one whose transfer can be prepared returns 0, after its own
  // descriptor, for exactly the place and bytes asked for, was submitted and
  // then issued.
  lemma OneWayResult(s: Dev, dir: Dir, r: Request, e: Env)
    requires Reachable(s) && Accepted(s, dir, r)
    ensures var o, p := OneWay(s, dir, r, e), Lookup(s.chans, r.id);
            var d := Desc(o.cookie, Translate(Live(s.bufs, s.exts), r.addr, r.len),
                          Extent(s.chans[p].kind, r.len, e.junkFrame), r.id);
            && Driven(s, o.dev, o.rc, p, d, s.chans[p].kind, e)
            && (!r.wait ==> (o.rc == 0 <==> Prepares(s.chans[p].kind, e)))
  {
    ReachableGood(s);
    var p := Lookup(s.chans, r.id);
    DriveResult(s, PLAIN, p, OneWayTransfer(s, p, r, Translate(Live(s.bufs, s.exts), r.addr, r.len), e), e);
  }

  /* ---- Blocking one-way calls ---- */

  // How often the engine attends to channel p in a window.
  function Times(ps: seq<nat>, p: nat): nat {
    if ps == [] then 0 else (if ps[0] == p then 1 else 0) + Times(ps[1..], p)
  }

  function Least(a: int, b: int): int {
    if a < b then a else b
  }

  // q after the engine has attended to it k times.
  function After(q: Queue, k: nat): Queue
    decreases k
  {
    if k == 0 || !CanComplete(q) then q else After(Complete(q), k - 1)
  }

  // The oldest issued descriptors are finished, one per attention, as long as
  // there are any.
  lemma {:induction false} AfterIs(q: Queue, k: nat)
    requires q.issued <= |q.descs|
    ensures var r, n := After(q, k), Least(q.issued, k);
            && r.descs == q.descs[n..] && r.issued == q.issued - n && r.lastUsed == q.lastUsed
            && r.lastDone == if n == 0 then q.lastDone else q.descs[n - 1].cookie
    decreases k
  {
    if k > 0 && CanComplete(q) {
      AfterIs(Complete(q), k - 1);
    }
  }

  lemma {:induction false} AfterTwice(q: Queue, a: nat, b: nat)
    ensures After(After(q, a), b) == After(q, a + b)
    decreases a
  {
    if a > 0 && CanComplete(q) {
      AfterTwice(Complete(q), a - 1, b);
    }
  }

  lemma {:induction false} TicksAre(s: Dev, ps: seq<nat>, p: nat)
    requires p < |s.queues|
    ensures Ticks(s, ps).queues[p] == After(s.queues[p], Times(ps, p))
    decreases |ps|
  {
    if ps != [] {
      var m := Tick(s, ps[0]);
      TicksAre(m, ps[1..], p);
      assert m.queues[p] == After(s.queues[p], if ps[0] == p then 1 else 0);
      AfterTwice(s.queues[p], if ps[0] == p then 1 else 0, Times(ps[1..], p));
    }
  }

  // While the slot names the waiting call, each of them wakes it once, and
  // nothing else does.
  lemma {:induction false} TicksWakeEach(s: Dev, ps: seq<nat>, c: Ctx, p: nat)
    requires Good(s, c) && c.waiter == p < |s.queues| && s.slots[s.chans[p].id].comp == s.call
    ensures Ticks(s, ps).woken == s.woken + Least(s.queues[p].issued, Times(ps, p))
    decreases |ps|
  {
    if ps != [] {
      assert ChanOk(s, c, p);
      if ps[0] < |s.queues| {
        assert ChanOk(s, c, ps[0]);
      }
      TickGood(s, c, ps[0]);
      TicksWakeEach(Tick(s, ps[0]), ps[1..], c, p);
    }
  }

  // A write to a callback slot, and the window after it, when there have been
  // `a` attentions before.
  lemma WriteAfter(q: Queue, s: Dev, i: int, cb: Slot, ps: seq<nat>, p: nat, a: nat)
    requires p < |s.queues| && s.queues[p] == After(q, a)
    ensures Ticks(SetSlot(s, i, cb), ps).queues[p] == After(q, a + Times(ps, p))
  {
    TicksAre(SetSlot(s, i, cb), ps, p);
    AfterTwice(q, a, Times(ps, p));
  }

  lemma NamesAfter(q: Queue, s: Dev, t: Transfer, e: Env, p: nat)
    requires p < |s.queues| && s.queues[p] == q
    ensures FillNames(s, t, e).queues[p] == After(q, Times(e.At(1), p) + Times(e.At(2), p))
  {
    var v1 := SlotAt(s, t.id).(channelId := t.id);
    WriteAfter(q, s, t.id, v1, e.At(1), p, 0);
    var s1 := Ticks(SetSlot(s, t.id, v1), e.At(1));
    var v2 := SlotAt(s1, t.id).(comp := if t.wait then s1.call else None);
    WriteAfter(q, s1, t.id, v2, e.At(2), p, Times(e.At(1), p));
  }

  // The attention a prepare gets before its completion is initialised, but for
  // window 0.
  function Writing(e: Env, p: nat): nat {
    Times(e.At(1), p) + Times(e.At(2), p) + Times(e.At(3), p) + Times(e.At(4), p)
  }

  lemma FieldsAfter(q: Queue, s: Dev, t: Transfer, e: Env, p: nat)
    requires p < |s.queues| && s.queues[p] == q
    ensures FillFields(s, t, e).queues[p] == After(q, Writing(e, p))
  {
    hide Ticks;
    NamesAfter(q, s, t, e, p);
    var s2 := FillNames(s, t, e);
    var b := Times(e.At(1), p) + Times(e.At(2), p);
    var v3 := SlotAt(s2, t.id).(notifySignal := if t.wait then -1 else t.notify);
    WriteAfter(q, s2, t.id, v3, e.At(3), p, b);
    var s3 := Ticks(SetSlot(s2, t.id, v3), e.At(3));
    var v4 := SlotAt(s3, t.id).(process := if t.wait then 0 else t.process);
    WriteAfter(q, s3, t.id, v4, e.At(4), p, b + Times(e.At(3), p));
  }

  // Of the descriptors that q held at the call: those that finish before the
  // call's completion is initialised, those that wake it between that and the
  // issue, and those that are left to wait for, its own included.
  function GoneUnnoticed(q: Queue, e: Env, p: nat): int {
    Least(q.issued, Times(e.At(0), p) + Writing(e, p))
  }

  function WokeEarly(q: Queue, e: Env, p: nat): int {
    Least(q.issued - GoneUnnoticed(q, e, p), Times(e.At(5), p) + Times(e.At(6), p))
  }

  function LeftToWait(q: Queue, e: Env, p: nat): int {
    |q.descs| - GoneUnnoticed(q, e, p) - WokeEarly(q, e, p) + 1
  }

  // The call's descriptor is the last of `left`, and it has been woken `woke`
  // times.
  ghost predicate Waiting(r: Dev, p: nat, t: Transfer, cookie: nat, woke: int, left: int) {
    && p < |r.queues| && 0 <= t.id < |r.slots|
    && |r.queues[p].descs| == left > 0
    && r.queues[p].descs[left - 1] == Desc(cookie, t.dma, t.len, t.id) && r.queues[p].lastUsed == cookie
    && r.woken == woke && r.ready && r.slots[t.id].comp == r.call
  }

  // q has lost k descriptors to the engine.
  predicate Lost(q: Queue, r: Queue, k: int) {
    r.issued == q.issued - k && |r.descs| == |q.descs| - k
  }

  lemma AfterLost(q: Queue, k: nat)
    requires q.issued <= |q.descs|
    ensures Lost(q, After(q, k), Least(q.issued, k))
  {
    AfterIs(q, k);
  }

  // What a channel loses, and how often the waiting call is woken, in a window.
  lemma TicksCount(s: Dev, ps: seq<nat>, c: Ctx, p: nat)
    requires Good(s, c) && c.waiter == p < |s.queues| && s.slots[s.chans[p].id].comp == s.call
    ensures Lost(s.queues[p], Ticks(s, ps).queues[p], Least(s.queues[p].issued, Times(ps, p)))
    ensures Ticks(s, ps).woken == s.woken + Least(s.queues[p].issued, Times(ps, p))
  {
    TicksLose(s, ps, c, p);
    TicksWakeEach(s, ps, c, p);
  }

  lemma FillCounts(s: Dev, c: Ctx, p: nat, t: Transfer, e: Env)
    requires Good(s, c) && Allowed(s, c, p, t) && t.wait
    ensures var q, r := s.queues[p], FillSlot(s, t, e);
            var gone := Least(q.issued, Writing(e, p));
            var woke := Least(q.issued - gone, Times(e.At(5), p));
            Lost(q, r.queues[p], gone + woke) && r.woken == woke
  {
    assert ChanOk(s, c, p);
    FieldsAfter(s.queues[p], s, t, e, p);
    AfterLost(s.queues[p], Writing(e, p));
    FillFieldsGood(s, c, p, t, e);
    var s4 := FillFields(s, t, e);
    InitGood(s4, c);
    TicksCount(s4.(woken := 0, ready := true), e.At(5), c, p);
  }

  lemma SubmitWaits(s1: Dev, c: Ctx, p: nat, t: Transfer, e: Env)
    requires Good(s1, c) && Allowed(s1, c, p, t) && t.wait && s1.ready && s1.slots[t.id] == Wanted(s1, t)
    ensures var q := Submit(s1.queues[p], t.dma, t.len, t.id);
            var d := q.descs[|q.descs| - 1];
            var r := Ticks(s1.(queues := s1.queues[p := q], log := s1.log + [Submitted(p, d)]), e.At(6));
            var k := Least(s1.queues[p].issued, Times(e.At(6), p));
            Waiting(r, p, t, d.cookie, s1.woken + k, |s1.queues[p].descs| - k + 1)
  {
    assert ChanOk(s1, c, p);
    var q := Submit(s1.queues[p], t.dma, t.len, t.id);
    var d := q.descs[|q.descs| - 1];
    var s2 := s1.(queues := s1.queues[p := q], log := s1.log + [Submitted(p, d)]);
    SetQueueGood(s1, c, p, q, Submitted(p, d));
    TicksSteady(s2, e.At(6));
    TicksAre(s2, e.At(6), p);
    AfterIs(q, Times(e.At(6), p));
    TicksWakeEach(s2, e.At(6), c, p);
  }

  // Losses in one window after another.
  lemma LeastSums(i: int, a: nat, b: nat)
    requires i >= 0
    ensures Least(i, a) + Least(i - Least(i, a), b) == Least(i, a + b)
  {
  }

  // What the channel has lost, and how often the call has been woken, when its
  // descriptor is submitted.
  lemma FilledCounts(s: Dev, c: Ctx, p: nat, t: Transfer, e: Env)
    requires Good(s, c) && Allowed(s, c, p, t) && t.wait && p < |s.queues|
    ensures var q, s1 := s.queues[p], FillSlot(Ticks(s, e.At(0)), t, e);
            var k := Least(q.issued, Times(e.At(0), p));
            var gone := Least(q.issued - k, Writing(e, p));
            var woke := Least(q.issued - k - gone, Times(e.At(5), p));
            Lost(q, s1.queues[p], k + gone + woke) && s1.woken == woke
  {
    hide *;
    TicksAllow(s, e.At(0), c, p, t);
    TicksLose(s, e.At(0), c, p);
    var s0 := Ticks(s, e.At(0));
    FillCounts(s0, c, p, t, e);
    LostTwice(s.queues[p], s0.queues[p], FillSlot(s0, t, e).queues[p], e, p);
  }

  lemma TicksAllow(s: Dev, ps: seq<nat>, c: Ctx, p: nat, t: Transfer)
    requires Good(s, c) && Allowed(s, c, p, t)
    ensures Good(Ticks(s, ps), c) && Allowed(Ticks(s, ps), c, p, t)
  {
    TicksGood(s, ps, c);
  }

  lemma LostTwice(q: Queue, m: Queue, r: Queue, e: Env, p: nat)
    requires Lost(q, m, Least(q.issued, Times(e.At(0), p)))
    requires var gone := Least(m.issued, Writing(e, p));
             Lost(m, r, gone + Least(m.issued - gone, Times(e.At(5), p)))
    ensures var k := Least(q.issued, Times(e.At(0), p));
            var gone := Least(q.issued - k, Writing(e, p));
            m.issued == q.issued - k && Lost(q, r, k + gone + Least(q.issued - k - gone, Times(e.At(5), p)))
  {
  }

  // The state prepare leaves, in terms of the one its descriptor is submitted in.
  lemma PrepWaits(s: Dev, c: Ctx, p: nat, t: Transfer, e: Env)
    requires Good(s, c) && Allowed(s, c, p, t) && t.wait && Prepares(t.kind, e)
    ensures var o, s1 := Prep(s, p, t, e), FillSlot(Ticks(s, e.At(0)), t, e);
            var k := Least(s1.queues[p].issued, Times(e.At(6), p));
            Waiting(o.dev, p, t, o.cookie, s1.woken + k, |s1.queues[p].descs| - k + 1)
  {
    hide FillSlot, Ticks, Good;
    TicksGood(s, e.At(0), c);
    var s0 := Ticks(s, e.At(0));
    FillSlotGood(s0, c, p, t, e);
    SubmitWaits(FillSlot(s0, t, e), c, p, t, e);
  }

  lemma PrepCounts(s: Dev, c: Ctx, p: nat, t: Transfer, e: Env)
    requires Good(s, c) && Allowed(s, c, p, t) && t.wait && Prepares(t.kind, e) && p < |s.queues|
    ensures var q, o := s.queues[p], Prep(s, p, t, e);
            Waiting(o.dev, p, t, o.cookie, WokeEarly(q, e, p), LeftToWait(q, e, p))
  {
    hide *;
    PrepWaits(s, c, p, t, e);
    FilledCounts(s, c, p, t, e);
    var s1 := FillSlot(Ticks(s, e.At(0)), t, e);
    CountsAdd(s.queues[p], s1.queues[p], s1.woken, e, p);
  }

  lemma TicksLose(s: Dev, ps: seq<nat>, c: Ctx, p: nat)
    requires Good(s, c) && p < |s.queues|
    ensures Lost(s.queues[p], Ticks(s, ps).queues[p], Least(s.queues[p].issued, Times(ps, p)))
  {
    assert ChanOk(s, c, p);
    TicksAre(s, ps, p);
    AfterLost(s.queues[p], Times(ps, p));
  }

  lemma CountsAdd(q: Queue, r: Queue, woken: nat, e: Env, p: nat)
    requires var k := Least(q.issued, Times(e.At(0), p));
             var gone := Least(q.issued - k, Writing(e, p));
             var woke := Least(q.issued - k - gone, Times(e.At(5), p));
             Lost(q, r, k + gone + woke) && woken == woke
    ensures var last := Least(r.issued, Times(e.At(6), p));
            woken + last == WokeEarly(q, e, p) && |r.descs| - last + 1 == LeftToWait(q, e, p)
  {
    LeastSums(q.issued, Times(e.At(0), p), Writing(e, p));
    LeastSums(q.issued - GoneUnnoticed(q, e, p), Times(e.At(5), p), Times(e.At(6), p));
  }

  // The end of a wait for `left` descriptors, by a call that has been woken
  // `woke` times before.
  function WaitResult(woke: int, left: int, waiting: nat, reading: nat): int {
    if woke + Least(left, waiting) == 0 then -ETIME
    else if waiting + reading < left then -EBUSY
    else 0
  }

  lemma StartCounts(s: Dev, c: Ctx, p: nat, t: Transfer, cookie: nat, e: Env, woke: int, left: int)
    requires Good(s, c) && c.waiter == p < |s.chans| && t.wait && t.id == s.chans[p].id
    requires Waiting(s, p, t, cookie, woke, left)
    ensures Start(s, p, t, cookie, e).rc == WaitResult(woke, left, Times(e.At(7), p), Times(e.At(8), p))
  {
    IssueGood(s, c, p, []);
    hide Ticks;
    var s0 := IssuePending(s, p);
    var q := s0.queues[p];
    TicksGood(s0, e.At(7), c);
    TicksAre(s0, e.At(7), p);
    TicksWakeEach(s0, e.At(7), c, p);
    var s1 := Ticks(s0, e.At(7));
    TicksGood(s1, e.At(8), c);
    TicksAre(s1, e.At(8), p);
    AfterTwice(q, Times(e.At(7), p), Times(e.At(8), p));
    AfterIs(q, Times(e.At(7), p) + Times(e.At(8), p));
    var s2 := Ticks(s1, e.At(8));
    CompleteMeansDrained(s2, c, p, cookie);
    assert s2.queues[p].descs == [] ==> IsComplete(s2.queues[p], cookie);
  }

  // The exact result of a blocking one-way call on any channel, busy or idle,
  // in terms of what was outstanding there and how often the engine attends to
  // it in which window. It times out exactly if nothing of the channel finishes
  // between the initialisation of its completion and the end of its wait.
  // Otherwise it fails with -EBUSY exactly if something, at least its own
  // descriptor, is still outstanding when the status is read: an older
  // descriptor did the wake-up.
  lemma BlockingResultByCounts(s: Dev, dir: Dir, r: Request, e: Env)
    requires Reachable(s) && Accepted(s, dir, r) && r.wait
    requires Prepares(s.chans[Lookup(s.chans, r.id)].kind, e)
    ensures var p := Lookup(s.chans, r.id);
            var q := s.queues[p];
            OneWay(s, dir, r, e).rc
            == WaitResult(WokeEarly(q, e, p), LeftToWait(q, e, p), Times(e.At(7), p), Times(e.At(8), p))
  {
    ReachableGood(s);
    var p := Lookup(s.chans, r.id);
    var t := OneWayTransfer(s, p, r, Translate(Live(s.bufs, s.exts), r.addr, r.len), e);
    InCall(s, PLAIN, p, e);
    DriveCounts(Enter(s, e), PLAIN.(waiter := p), p, t, e);
  }

  lemma DriveCounts(s: Dev, c: Ctx, p: nat, t: Transfer, e: Env)
    requires Good(s, c) && Allowed(s, c, p, t) && t.wait && Prepares(t.kind, e)
    ensures var q, a := s.queues[p], Prep(s, p, t, e);
            && a.rc == 0
            && Start(a.dev, p, t, a.cookie, e).rc
               == WaitResult(WokeEarly(q, e, p), LeftToWait(q, e, p), Times(e.At(7), p), Times(e.At(8), p))
  {
    PrepGood(s, c, p, t, e);
    PrepCounts(s, c, p, t, e);
    PrepCode(s, p, t, e);
    var q, a := s.queues[p], Prep(s, p, t, e);
    StartCounts(a.dev, c, p, t, a.cookie, e, WokeEarly(q, e, p), LeftToWait(q, e, p));
  }

  /* ---- Video calls ---- */

  // A video call whose ranges translate, on a known channel and with a frame
  // buffer, submits and issues the frame's bytes at its first frame buffer, if
  // they can be prepared. One whose ranges do not translate does nothing.
  lemma VideoResult(s: Dev, v: Video, allocOk: bool, e: Env)
    requires Reachable(s)
    ensures !allocOk || !AllTranslate(s, v) ==> ShowVideo(s, v, allocOk, e) == s
    ensures var r, p := ShowVideo(s, v, allocOk, e), Lookup(s.chans, v.id);
            allocOk && AllTranslate(s, v) && p >= 0 && v.frames != [] ==>
              exists cookie, rc ::
                Driven(s, r, rc, p, Desc(cookie, Translate(Live(s.bufs, s.exts), v.frames[0], v.frame.ImageSize()),
                                         v.frame.Bytes(), v.id), VDMA, e)
  {
    ReachableGood(s);
    var p := Lookup(s.chans, v.id);
    if allocOk && AllTranslate(s, v) && p >= 0 && v.frames != [] {
      var t := VideoTransfer(s, v);
      DriveResult(s, PLAIN, p, t, e);
      var o := Drive(s, p, t, e);
      assert Driven(s, ShowVideo(s, v, allocOk, e), o.rc, p, Desc(o.cookie, t.dma, t.len, v.id), VDMA, e);
    }
  }

  /* ---- Two-way calls ---- */

  // Both descriptors of a two-way call, where it asked for them.
  ghost predicate BothHandedOver(s: Dev, r: Inout, re: Env, log: seq<Event>)
    requires TwoWayAccepted(s, r)
  {
    var tx, rx, live := Lookup(s.chans, r.txId), Lookup(s.chans, r.rxId), Live(s.bufs, s.exts);
    && SomeHandedOver(log, tx, Translate(live, r.txAddr, r.txLen),
                      Extent(s.chans[tx].kind, r.txLen, r.txFrame), r.txId, |s.log|)
    && SomeHandedOver(log, rx, Translate(live, r.rxAddr, r.rxLen),
                      Extent(s.chans[rx].kind, r.rxLen, RxFrame(s, r, re.junkFrame)), r.rxId, |s.log|)
  }

  ghost predicate SomeHandedOver(log: seq<Event>, p: nat, dma: int, len: int, id: int, from: nat) {
    exists cookie :: HandedOver(log, p, Desc(cookie, dma, len, id), from)
  }

  // The code of an accepted two-way call tells which side could not be prepared,
  // transmit first, and that side is empty. If both can, both descriptors are handed over, and a call
  // that does not wait returns 0.
  lemma TwoWayResult(s: Dev, r: Inout, te: Env, re: Env)
    requires Reachable(s) && TwoWayAccepted(s, r)
    ensures var tx, rx := Lookup(s.chans, r.txId), Lookup(s.chans, r.rxId);
            var o := TwoWay(s, r, te, re);
            if !Prepares(s.chans[tx].kind, te) then
              o.rc == GivesUp(s.chans[tx].kind, te) && o.dev.queues[tx].descs == []
            else if !Prepares(s.chans[rx].kind, re) then
              o.rc == GivesUp(s.chans[rx].kind, re) && o.dev.queues[rx].descs == []
            else BothHandedOver(s, r, re, o.dev.log) && (!r.wait ==> o.rc == 0)
  {
    ReachableGood(s);
    var live, tx, rx := Live(s.bufs, s.exts), Lookup(s.chans, r.txId), Lookup(s.chans, r.rxId);
    TwoWayAllowed(s, PLAIN, r, re);
    InCall(s, PLAIN, -1, re);
    var tt := TxTransfer(s, tx, r, Translate(live, r.txAddr, r.txLen));
    var rt := RxTransfer(s, tx, rx, r, Translate(live, r.rxAddr, r.rxLen), re);
    PairResults(Enter(s, re), tx, tt, te, rx, rt, re);
    var o := TwoWayPair(Enter(s, re), tx, tt, te, rx, rt, re);
    assert TwoWay(s, r, te, re) == o.(dev := Leave(o.dev));
  }

  lemma PairResults(s: Dev, tx: nat, tt: Transfer, te: Env, rx: nat, rt: Transfer, re: Env)
    requires Good(s, PLAIN) && s.call.Some? && tx != rx && !tt.wait
    requires Allowed(s, PLAIN, tx, tt) && Allowed(s, PLAIN.(waiter := if rt.wait then rx else -1), rx, rt)
    ensures var o := TwoWayPair(s, tx, tt, te, rx, rt, re);
            if !Prepares(tt.kind, te) then o.rc == GivesUp(tt.kind, te) && o.dev.queues[tx].descs == []
            else if !Prepares(rt.kind, re) then o.rc == GivesUp(rt.kind, re) && o.dev.queues[rx].descs == []
            else
              && SomeHandedOver(o.dev.log, tx, tt.dma, tt.len, tt.id, |s.log|)
              && SomeHandedOver(o.dev.log, rx, rt.dma, rt.len, rt.id, |s.log|)
              && (!rt.wait ==> o.rc == 0)
  {
    PrepGood(s, PLAIN, tx, tt, te);
    PrepCode(s, tx, tt, te);
    var a := Prep(s, tx, tt, te);
    if a.rc >= 0 {
      PrepCode(a.dev, rx, rt, re);
      var c := PLAIN.(waiter := if rt.wait then rx else -1);
      if rt.wait {
        WaitGood(a.dev, PLAIN, rx);
      }
      PrepGood(a.dev, c, rx, rt, re);
      var b := Prep(a.dev, rx, rt, re);
      if b.rc >= 0 {
        SinceGrows(a.dev.log, b.dev.log, tx, Desc(a.cookie, tt.dma, tt.len, tt.id), |s.log|);
        StartsHandOver(b.dev, c, tx, tt, a.cookie, te, rx, rt, b.cookie, re, |s.log|);
      }
    }
  }

  lemma StartsHandOver(s: Dev, c: Ctx, tx: nat, tt: Transfer, cookie: nat, te: Env,
                       rx: nat, rt: Transfer, cookie': nat, re: Env, from: nat)
    requires Good(s, c) && tx < |s.chans| && rx < |s.chans| && tx != rx && !tt.wait
    requires c.waiter == (if rt.wait then rx else -1) && (rt.wait ==> s.ready) && s.queues[rx].lastUsed == cookie'
    requires SubmittedSince(s.log, tx, Desc(cookie, tt.dma, tt.len, tt.id), from)
    requires SubmittedSince(s.log, rx, Desc(cookie', rt.dma, rt.len, rt.id), from)
    ensures var m := Start(s, tx, tt, cookie, te);
            var o := Start(m.dev, rx, rt, cookie', re);
            && m.rc == 0
            && HandedOver(o.dev.log, tx, Desc(cookie, tt.dma, tt.len, tt.id), from)
            && HandedOver(o.dev.log, rx, Desc(cookie', rt.dma, rt.len, rt.id), from)
            && (!rt.wait ==> o.rc == 0)
  {
    var d, d' := Desc(cookie, tt.dma, tt.len, tt.id), Desc(cookie', rt.dma, rt.len, rt.id);
    StartGood(s, c, tx, tt, cookie, te);
    var m := Start(s, tx, tt, cookie, te).dev;
    HandedOverBy(s.log, m.log, tx, d, from);
    SinceGrows(s.log, m.log, rx, d', from);
    StartGood(m, c, rx, rt, cookie', re);
    var o := Start(m, rx, rt, cookie', re).dev;
    HandedOverGrows(m.log, o.log, tx, d, from);
    HandedOverBy(m.log, o.log, rx, d', from);
  }

  /* ---- Stopping a channel ---- */

  // A channel with nothing outstanding completes nothing, and nobody else
  // signals with its id.
  lemma {:induction false} TicksLeaveAlone(s: Dev, ps: seq<nat>, p: nat)
    requires Good(s, PLAIN) && p < |s.chans| && s.queues[p].descs == []
    ensures Completions(Ticks(s, ps).log, p) == Completions(s.log, p)
    ensures Signals(Ticks(s, ps).log, s.chans[p].id) == Signals(s.log, s.chans[p].id)
    decreases |ps|
  {
    if ps != [] {
      var m := Tick(s, ps[0]);
      TickGood(s, PLAIN, ps[0]);
      TickLeavesAlone(s, ps[0], p);
      TicksLeaveAlone(m, ps[1..], p);
    }
  }

  lemma TickLeavesAlone(s: Dev, x: nat, p: nat)
    requires Good(s, PLAIN) && p < |s.chans| && s.queues[p].descs == []
    ensures var m, id := Tick(s, x), s.chans[p].id;
            m.queues[p] == s.queues[p] && Completions(m.log, p) == Completions(s.log, p)
            && Signals(m.log, id) == Signals(s.log, id)
  {
    var m, id := Tick(s, x), s.chans[p].id;
    if x < |s.queues| && CanComplete(s.queues[x]) {
      assert ChanOk(s, PLAIN, x);
      IdsDiffer(s, x, p);
      var d := s.queues[x].descs[0];
      var done := Completed(x, d, Inside(Live(s.bufs, s.exts), d.dma, d.len));
      var mid := s.log + [done];
      CountsGrow(s.log, done, id, p);
      if m.log != mid {
        CountsGrow(mid, m.log[|mid|], id, p);
        assert m.log == mid + [m.log[|mid|]];
      }
    }
  }

  // Stopping an existing channel empties its queue and touches nothing else, so
  // whatever the engine does afterwards, nothing more completes on the channel
  // and no more signals carry its id. Stopping an unknown one changes nothing
  // but follows a null pointer.
  lemma StopResult(s: Dev, id: int, ps: seq<nat>)
    requires Reachable(s)
    ensures var p, r := Lookup(s.chans, id), Stop(s, id);
            if p < 0 then r == s.(oops := s.oops + 1)
            else
              && r == s.(queues := r.queues, log := s.log + [Terminated(p)])
              && |r.queues| == |s.queues| && r.queues[p].descs == [] && r.queues[p].issued == 0
              && (forall x :: 0 <= x < |s.queues| && x != p ==> r.queues[x] == s.queues[x])
              && Completions(Ticks(r, ps).log, p) == Completions(s.log, p)
              && Signals(Ticks(r, ps).log, id) == Signals(s.log, id)
  {
    ReachableGood(s);
    var p, r := Lookup(s.chans, id), Stop(s, id);
    if p >= 0 {
      TerminateGood(s, PLAIN, p);
      CountsGrow(s.log, Terminated(p), id, p);
      TicksLeaveAlone(r, ps, p);
    }
  }

  // Setting the notification signal: exactly the real-time signals are accepted,
  // and take effect; others change nothing.
  lemma SetSignalResult(s: Dev, signal: int)
    ensures var (r, rc) := SetSignal(s, signal);
            && (rc == 0 <==> SIGRTMIN <= signal <= SIGRTMAX) && (rc == 0 || rc == -EINVAL)
            && r.(notify := s.notify) == s && r.notify == if rc == 0 then signal else s.notify
  {
  }

  /* ---- What calls leave alone ---- */

  // Channel x is where it was, but for what the engine has finished meanwhile.
  ghost predicate Untouched(s: Dev, r: Dev, x: nat) {
    && x < |s.queues| == |s.chans| && |r.queues| == |s.queues| && |r.slots| == |s.slots|
    && Worn(s.queues[x], r.queues[x])
    && (0 <= s.chans[x].id < |s.slots| ==> r.slots[s.chans[x].id] == s.slots[s.chans[x].id])
    && r.chans == s.chans && r.notify == s.notify
  }

  lemma UntouchedTwice(s: Dev, m: Dev, r: Dev, x: nat)
    requires Untouched(s, m, x) && Untouched(m, r, x)
    ensures Untouched(s, r, x)
  {
    WornTwice(s.queues[x], m.queues[x], r.queues[x]);
  }

  lemma FillSlots(s: Dev, t: Transfer, e: Env, y: int)
    requires 0 <= y < |s.slots| && y != t.id
    ensures var r := FillSlot(s, t, e);
            |r.slots| == |s.slots| && r.slots[y] == s.slots[y] && r.notify == s.notify
  {
    var v1 := SetSlot(s, t.id, SlotAt(s, t.id).(channelId := t.id));
    TicksSteady(v1, e.At(1));
    var s1 := Ticks(v1, e.At(1));
    var v2 := SetSlot(s1, t.id, SlotAt(s1, t.id).(comp := if t.wait then s1.call else None));
    TicksSteady(v2, e.At(2));
    var s2 := FillNames(s, t, e);
    var v3 := SetSlot(s2, t.id, SlotAt(s2, t.id).(notifySignal := if t.wait then -1 else t.notify));
    TicksSteady(v3, e.At(3));
    var s3 := Ticks(v3, e.At(3));
    var v4 := SetSlot(s3, t.id, SlotAt(s3, t.id).(process := if t.wait then 0 else t.process));
    TicksSteady(v4, e.At(4));
    var s4 := FillFields(s, t, e);
    TicksSteady(if t.wait then s4.(woken := 0, ready := true) else s4, e.At(5));
  }

  lemma PrepSlots(s: Dev, p: nat, t: Transfer, e: Env, y: int)
    requires p < |s.queues| && 0 <= y < |s.slots| && y != t.id
    ensures var r := Prep(s, p, t, e).dev;
            |r.slots| == |s.slots| && r.slots[y] == s.slots[y] && r.notify == s.notify
  {
    TicksSteady(s, e.At(0));
    var s0 := Ticks(s, e.At(0));
    FillSlots(s0, t, e, y);
    var s1 := FillSlot(s0, t, e);
    var b := Submit(s1.queues[p], t.dma, t.len, t.id);
    TicksSteady(s1.(queues := s1.queues[p := b], log := s1.log + [Submitted(p, b.descs[|b.descs| - 1])]), e.At(6));
  }

  lemma PrepLeaves(s: Dev, c: Ctx, p: nat, t: Transfer, e: Env, x: nat)
    requires Good(s, c) && p < |s.chans| && t.id == s.chans[p].id && x < |s.chans| && x != p
    ensures Untouched(s, Prep(s, p, t, e).dev, x)
  {
    assert ChanOk(s, c, x);
    IdsDiffer(s, x, p);
    PrepWears(s, p, t, e, x);
    PrepSlots(s, p, t, e, s.chans[x].id);
  }

  lemma StartLeaves(s: Dev, c: Ctx, p: nat, t: Transfer, cookie: nat, e: Env, x: nat)
    requires Good(s, c) && p < |s.chans| && x < |s.chans| && x != p
    ensures Untouched(s, Start(s, p, t, cookie, e).dev, x)
  {
    assert ChanOk(s, c, x);
    StartWears(s, p, t, cookie, e, x);
    TicksSteady(IssuePending(s, p), e.At(7));
    var s1 := Ticks(IssuePending(s, p), e.At(7));
    TicksSteady(s1, e.At(8));
    TicksSteady(Ticks(s1, e.At(8)), e.At(9));
  }

  lemma DriveLeaves(s: Dev, p: nat, t: Transfer, e: Env, x: nat)
    requires Between(s, PLAIN) && Allowed(s, PLAIN.(waiter := if t.wait then p else -1), p, t)
    requires x < |s.chans| && x != p
    ensures Untouched(s, Drive(s, p, t, e).dev, x)
  {
    var c := PLAIN.(waiter := if t.wait then p else -1);
    InCall(s, PLAIN, if t.wait then p else -1, e);
    PrepLeaves(Enter(s, e), c, p, t, e, x);
    PrepGood(Enter(s, e), c, p, t, e);
    var a := Prep(Enter(s, e), p, t, e);
    if a.rc >= 0 {
      StartLeaves(a.dev, c, p, t, a.cookie, e, x);
      UntouchedTwice(Enter(s, e), a.dev, Start(a.dev, p, t, a.cookie, e).dev, x);
    }
  }

  // A one-way or video call leaves every other channel alone: its queue loses
  // only what the engine finishes meanwhile, and its callback slot stays.
  lemma CallLeavesOthers(s: Dev, op: Op, x: nat)
    requires Reachable(s) && x < |s.chans| && (op.OneWayCall? || op.VideoCall?)
    requires x != Lookup(s.chans, if op.OneWayCall? then op.r.id else op.v.id)
    ensures Untouched(s, Do(s, op), x)
  {
    ReachableGood(s);
    assert ChanOk(s, PLAIN, x);
    match op
    case OneWayCall(dir, r, e) =>
      if Accepted(s, dir, r) {
        var p := Lookup(s.chans, r.id);
        DriveLeaves(s, p, OneWayTransfer(s, p, r, Translate(Live(s.bufs, s.exts), r.addr, r.len), e), e, x);
      }
    case VideoCall(v, allocOk, e) =>
      var p := Lookup(s.chans, v.id);
      if allocOk && AllTranslate(s, v) && p >= 0 {
        DriveLeaves(s, p, VideoTransfer(s, v), e, x);
        TicksSteady(Enter(s, e), e.At(0));
        TicksWear(Enter(s, e), e.At(0), x);
      }
  }

  // So does a two-way call every channel but its two.
  lemma TwoWayLeavesOthers(s: Dev, r: Inout, te: Env, re: Env, x: nat)
    requires Reachable(s) && x < |s.chans| && x != Lookup(s.chans, r.txId) && x != Lookup(s.chans, r.rxId)
    ensures Untouched(s, TwoWay(s, r, te, re).dev, x)
  {
    ReachableGood(s);
    assert ChanOk(s, PLAIN, x);
    if TwoWayAccepted(s, r) {
      var live, tx, rx := Live(s.bufs, s.exts), Lookup(s.chans, r.txId), Lookup(s.chans, r.rxId);
      TwoWayAllowed(s, PLAIN, r, re);
      InCall(s, PLAIN, -1, re);
      PairLeaves(Enter(s, re), tx, TxTransfer(s, tx, r, Translate(live, r.txAddr, r.txLen)), te,
                 rx, RxTransfer(s, tx, rx, r, Translate(live, r.rxAddr, r.rxLen), re), re, x);
    }
  }

  lemma PairLeaves(s: Dev, tx: nat, tt: Transfer, te: Env, rx: nat, rt: Transfer, re: Env, x: nat)
    requires Good(s, PLAIN) && s.call.Some? && tx != rx && !tt.wait && x < |s.chans| && x != tx && x != rx
    requires Allowed(s, PLAIN, tx, tt) && Allowed(s, PLAIN.(waiter := if rt.wait then rx else -1), rx, rt)
    ensures Untouched(s, TwoWayPair(s, tx, tt, te, rx, rt, re).dev, x)
  {
    PrepGood(s, PLAIN, tx, tt, te);
    PrepLeaves(s, PLAIN, tx, tt, te, x);
    var a := Prep(s, tx, tt, te);
    if a.rc >= 0 {
      var c := PLAIN.(waiter := if rt.wait then rx else -1);
      if rt.wait {
        WaitGood(a.dev, PLAIN, rx);
      }
      PrepGood(a.dev, c, rx, rt, re);
      PrepLeaves(a.dev, c, rx, rt, re, x);
      var b := Prep(a.dev, rx, rt, re);
      UntouchedTwice(s, a.dev, b.dev, x);
      if b.rc >= 0 {
        StartsLeave(b.dev, c, tx, tt, a.cookie, te, rx, rt, b.cookie, re, x);
        UntouchedTwice(s, b.dev, Start(Start(b.dev, tx, tt, a.cookie, te).dev, rx, rt, b.cookie, re).dev, x);
      }
    }
  }

  lemma StartsLeave(s: Dev, c: Ctx, tx: nat, tt: Transfer, cookie: nat, te: Env,
                    rx: nat, rt: Transfer, cookie': nat, re: Env, x: nat)
    requires Good(s, c) && tx < |s.chans| && rx < |s.chans| && x < |s.chans| && tx != rx && x != tx && x != rx
    requires !tt.wait && c.waiter != tx
    ensures Untouched(s, Start(Start(s, tx, tt, cookie, te).dev, rx, rt, cookie', re).dev, x)
  {
    StartGood(s, c, tx, tt, cookie, te);
    StartLeaves(s, c, tx, tt, cookie, te, x);
    var m := Start(s, tx, tt, cookie, te).dev;
    StartLeaves(m, c, rx, rt, cookie', re, x);
    UntouchedTwice(s, m, Start(m, rx, rt, cookie', re).dev, x);
  }
}
