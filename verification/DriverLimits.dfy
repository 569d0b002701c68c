// Where the driver's guarantees stop. Each failure comes with the exact
// condition under which the calls are free of it, and with a concrete run.
module DriverLimits {
  import opened Types
  import opened Regions
  import opened DmaEngine
  import opened DriverSpec
  import opened DriverInvariant
  import opened DriverRuns
  import opened DriverTheorems

  // Foreign calls work, and the engine rests.
  const GOOD_ENV := Env(0, true, true, 0, Frame(0, 0, 0), [])

  // The engine rests in the first k windows.
  ghost predicate SilentUntil(e: Env, k: nat) {
    forall i: nat :: i < k ==> e.At(i) == []
  }

  // An undisturbed prepare submits its descriptor and does nothing else.
  lemma SilentPrep(s: Dev, p: nat, t: Transfer, e: Env)
    requires p < |s.queues| && Prepares(t.kind, e) && SilentUntil(e, 7)
    ensures var o, q := Prep(s, p, t, e), Submit(s.queues[p], t.dma, t.len, t.id);
            && o.rc == 0 && o.dev.queues == s.queues[p := q]
            && o.dev.chans == s.chans && o.dev.bufs == s.bufs && o.dev.exts == s.exts
            && o.dev.call == s.call && (!t.wait ==> o.dev.ready == s.ready) && s.log <= o.dev.log
  {
    assert FillSlot(s, t, e).queues == s.queues;
  }

  // Starting a channel only adds to the history.
  lemma StartGrows(s: Dev, p: nat, t: Transfer, cookie: nat, e: Env)
    requires p < |s.queues|
    ensures var r := Start(s, p, t, cookie, e).dev;
            && Ticks(IssuePending(s, p), e.At(7)).log <= r.log && s.log <= r.log
            && r.bufs == s.bufs && r.exts == s.exts
  {
    var s1 := Ticks(IssuePending(s, p), e.At(7));
    TicksSteady(IssuePending(s, p), e.At(7));
    TicksSteady(s1, e.At(8));
    TicksSteady(Ticks(s1, e.At(8)), e.At(9));
  }

  // In the middle of a call, and with what is being followed.
  lemma InCall(s: Dev, c: Ctx, p: int, e: Env)
    requires Between(s, c) && -1 <= p < |s.chans| && (p >= 0 ==> p != c.watch)
    requires c.clean >= 0 && p >= 0 ==> !CanComplete(s.queues[p])
    ensures Good(Enter(s, e), c.(waiter := p))
  {
    EnterGood(s, c, e);
    if p >= 0 {
      WaitGood(Enter(s, e), c, p);
    }
  }

  /* ---- A completion that is reached before it is initialised ---- */

  lemma UninitGrows(log: seq<Event>, more: seq<Event>, from: nat)
    requires log <= more && !NoUninit(log, from)
    ensures !NoUninit(more, from)
  {
    var i :| from <= i < |log| && log[i].WokeUninit?;
    assert more[i] == log[i];
  }

  // An older descriptor finishes right after the slot was made to name the
  // call's completion.
  lemma NamesWake(s: Dev, c: Ctx, p: nat, t: Transfer, e: Env)
    requires Good(s, c) && Allowed(s, c, p, t) && t.wait && s.call.Some? && !s.ready
    requires CanComplete(s.queues[p]) && e.At(1) == [] && e.At(2) == [p]
    ensures !NoUninit(FillNames(s, t, e).log, |s.log|)
  {
    assert ChanOk(s, c, p);
    var s1 := SetSlot(s, t.id, s.slots[t.id].(channelId := t.id));
    var s2 := SetSlot(s1, t.id, s1.slots[t.id].(comp := s.call));
    assert Ticks(s2, [p]) == Tick(s2, p);
    assert Tick(s2, p).log[|s.log| + 1] == WokeUninit(s.call.value);
  }

  // The rest of prepare only adds to the history.
  lemma FillGrows(s: Dev, t: Transfer, e: Env)
    ensures FillNames(s, t, e).log <= FillSlot(s, t, e).log
  {
    var s2 := FillNames(s, t, e);
    var v3 := SetSlot(s2, t.id, SlotAt(s2, t.id).(notifySignal := if t.wait then -1 else t.notify));
    TicksSteady(v3, e.At(3));
    var s3 := Ticks(v3, e.At(3));
    var v4 := SetSlot(s3, t.id, SlotAt(s3, t.id).(process := if t.wait then 0 else t.process));
    TicksSteady(v4, e.At(4));
    var s4 := FillFields(s, t, e);
    TicksSteady(if t.wait then s4.(woken := 0, ready := true) else s4, e.At(5));
  }

  lemma PrepWakes(s: Dev, c: Ctx, p: nat, t: Transfer, e: Env)
    requires Good(s, c) && Allowed(s, c, p, t) && t.wait && s.call.Some? && !s.ready
    requires CanComplete(s.queues[p]) && Prepares(t.kind, e)
    requires e.At(0) == [] && e.At(1) == [] && e.At(2) == [p]
    ensures !NoUninit(Prep(s, p, t, e).dev.log, |s.log|)
  {
    NamesWake(s, c, p, t, e);
    FillGrows(s, t, e);
    var s1 := FillSlot(s, t, e);
    var q := Submit(s1.queues[p], t.dma, t.len, t.id);
    var s2 := s1.(queues := s1.queues[p := q], log := s1.log + [Submitted(p, q.descs[|q.descs| - 1])]);
    TicksSteady(s2, e.At(6));
    UninitGrows(FillNames(s, t, e).log, Prep(s, p, t, e).dev.log, |s.log|);
  }

  // Foreign calls work, and channel p's engine finishes something in window 2.
  function EarlyEnv(p: nat): Env {
    GOOD_ENV.(windows := [[], [], [p]])
  }

  lemma OneWayEarly(s: Dev, dir: Dir, r: Request, e: Env)
    requires Between(s, PLAIN) && Accepted(s, dir, r) && r.wait
    requires var p := Lookup(s.chans, r.id);
             CanComplete(s.queues[p]) && Prepares(s.chans[p].kind, e)
             && e.At(0) == [] && e.At(1) == [] && e.At(2) == [p]
    ensures !NoUninit(OneWay(s, dir, r, e).dev.log, |s.log|)
  {
    var p, live := Lookup(s.chans, r.id), Live(s.bufs, s.exts);
    var t := OneWayTransfer(s, p, r, Translate(live, r.addr, r.len), e);
    var c := PLAIN.(waiter := p);
    InCall(s, PLAIN, p, e);
    PrepWakes(Enter(s, e), c, p, t, e);
    PrepGood(Enter(s, e), c, p, t, e);
    var a := Prep(Enter(s, e), p, t, e);
    if a.rc >= 0 {
      StartGrows(a.dev, p, t, a.cookie, e);
      UninitGrows(a.dev.log, Start(a.dev, p, t, a.cookie, e).dev.log, |s.log|);
    }
  }

  lemma CleanFromHere(s: Dev)
    requires Between(s, PLAIN)
    ensures Between(s, PLAIN.(clean := |s.log|))
  {
    forall p | 0 <= p < |s.chans| ensures ChanOk(s, PLAIN.(clean := |s.log|), p) {
      assert ChanOk(s, PLAIN, p);
    }
  }

  // A blocking one-way call is safe from having its completion completed before
  // it is initialised, whatever the engine does, exactly when its channel has
  // nothing issued.
  lemma EarlyWakeExactly(s: Dev, dir: Dir, r: Request)
    requires Reachable(s) && Accepted(s, dir, r) && r.wait
    ensures (forall e :: NoUninit(OneWay(s, dir, r, e).dev.log, |s.log|))
            <==> !CanComplete(s.queues[Lookup(s.chans, r.id)])
  {
    ReachableGood(s);
    var p := Lookup(s.chans, r.id);
    if CanComplete(s.queues[p]) {
      OneWayEarly(s, dir, r, EarlyEnv(p));
    } else {
      CleanFromHere(s);
      forall e ensures NoUninit(OneWay(s, dir, r, e).dev.log, |s.log|) {
        OneWayGood(s, PLAIN.(clean := |s.log|), dir, r, e);
      }
    }
  }

  lemma TwoWayEarly(s: Dev, r: Inout)
    requires Between(s, PLAIN) && TwoWayAccepted(s, r) && r.wait
    requires CanComplete(s.queues[Lookup(s.chans, r.rxId)])
    ensures !NoUninit(TwoWay(s, r, GOOD_ENV, EarlyEnv(Lookup(s.chans, r.rxId))).dev.log, |s.log|)
  {
    var tx, rx, live := Lookup(s.chans, r.txId), Lookup(s.chans, r.rxId), Live(s.bufs, s.exts);
    var re := EarlyEnv(rx);
    var tt := TxTransfer(s, tx, r, Translate(live, r.txAddr, r.txLen));
    var rt := RxTransfer(s, tx, rx, r, Translate(live, r.rxAddr, r.rxLen), re);
    TwoWayAllowed(s, PLAIN, r, re);
    InCall(s, PLAIN, -1, re);
    var s0 := Enter(s, re);
    SilentPrep(s0, tx, tt, GOOD_ENV);
    PrepGood(s0, PLAIN, tx, tt, GOOD_ENV);
    var a := Prep(s0, tx, tt, GOOD_ENV);
    WaitGood(a.dev, PLAIN, rx);
    PairEarly(s0, a, tx, tt, rx, rt);
  }

  // The second half: a is the outcome of the first prepare.
  lemma PairEarly(s: Dev, a: Outcome, tx: nat, tt: Transfer, rx: nat, rt: Transfer)
    requires rx != tx < |s.queues|
    requires a == Prep(s, tx, tt, GOOD_ENV) && a.rc == 0 && s.log <= a.dev.log
    requires Good(a.dev, PLAIN.(waiter := rx)) && Allowed(a.dev, PLAIN.(waiter := rx), rx, rt)
    requires rt.wait && !tt.wait && !a.dev.ready && CanComplete(a.dev.queues[rx])
    ensures !NoUninit(TwoWayPair(s, tx, tt, GOOD_ENV, rx, rt, EarlyEnv(rx)).dev.log, |s.log|)
  {
    var c := PLAIN.(waiter := rx);
    PrepWakes(a.dev, c, rx, rt, EarlyEnv(rx));
    var b := Prep(a.dev, rx, rt, EarlyEnv(rx));
    if b.rc >= 0 {
      StartGrows(b.dev, tx, tt, a.cookie, GOOD_ENV);
      var m := Start(b.dev, tx, tt, a.cookie, GOOD_ENV).dev;
      StartGrows(m, rx, rt, b.cookie, EarlyEnv(rx));
      UninitGrows(b.dev.log, Start(m, rx, rt, b.cookie, EarlyEnv(rx)).dev.log, |a.dev.log|);
    }
  }

  // The same for a blocking two-way call and its receive channel.
  lemma TwoWayEarlyWakeExactly(s: Dev, r: Inout)
    requires Reachable(s) && TwoWayAccepted(s, r) && r.wait
    ensures (forall te, re :: NoUninit(TwoWay(s, r, te, re).dev.log, |s.log|))
            <==> !CanComplete(s.queues[Lookup(s.chans, r.rxId)])
  {
    ReachableGood(s);
    if CanComplete(s.queues[Lookup(s.chans, r.rxId)]) {
      TwoWayEarly(s, r);
    } else {
      CleanFromHere(s);
      forall te, re ensures NoUninit(TwoWay(s, r, te, re).dev.log, |s.log|) {
        TwoWayGood(s, PLAIN.(clean := |s.log|), r, te, re);
      }
    }
  }

  /* ---- What a two-way call leaves on its transmit channel ---- */

  // r is q after the engine has finished some of q's issued descriptors.
  ghost predicate Worn(q: Queue, r: Queue) {
    var n := |q.descs| - |r.descs|;
    && 0 <= n <= q.issued <= |q.descs|
    && r.descs == q.descs[n..] && r.issued == q.issued - n
    && (n == 0 ==> r == q)
  }

  lemma WornTwice(q: Queue, m: Queue, r: Queue)
    requires Worn(q, m) && Worn(m, r)
    ensures Worn(q, r)
  {
  }

  lemma TickWears(s: Dev, x: nat, p: nat)
    requires p < |s.queues| && s.queues[p].issued <= |s.queues[p].descs|
    ensures Worn(s.queues[p], Tick(s, x).queues[p])
  {
    var q, r := s.queues[p], Tick(s, x).queues[p];
    assert r == q || (CanComplete(q) && r == Complete(q));
  }

  // Engine activity only wears a queue.
  lemma {:induction false} TicksWear(s: Dev, ps: seq<nat>, p: nat)
    requires p < |s.queues| && s.queues[p].issued <= |s.queues[p].descs|
    ensures Worn(s.queues[p], Ticks(s, ps).queues[p])
    decreases |ps|
  {
    if ps != [] {
      var m := Tick(s, ps[0]);
      TickWears(s, ps[0], p);
      TicksWear(m, ps[1..], p);
      WornTwice(s.queues[p], m.queues[p], Ticks(m, ps[1..]).queues[p]);
    }
  }

  // So does a write to a callback slot with the window after it.
  lemma WriteWears(q: Queue, s: Dev, i: int, cb: Slot, ps: seq<nat>, p: nat)
    requires p < |s.queues| && Worn(q, s.queues[p])
    ensures Worn(q, Ticks(SetSlot(s, i, cb), ps).queues[p])
  {
    TicksWear(SetSlot(s, i, cb), ps, p);
    WornTwice(q, s.queues[p], Ticks(SetSlot(s, i, cb), ps).queues[p]);
  }

  lemma FillWears(s: Dev, t: Transfer, e: Env, p: nat)
    requires p < |s.queues| && s.queues[p].issued <= |s.queues[p].descs|
    ensures Worn(s.queues[p], FillSlot(s, t, e).queues[p])
  {
    var q := s.queues[p];
    var v1 := SlotAt(s, t.id).(channelId := t.id);
    WriteWears(q, s, t.id, v1, e.At(1), p);
    var s1 := Ticks(SetSlot(s, t.id, v1), e.At(1));
    WriteWears(q, s1, t.id, SlotAt(s1, t.id).(comp := if t.wait then s1.call else None), e.At(2), p);
    var s2 := FillNames(s, t, e);
    var v3 := SlotAt(s2, t.id).(notifySignal := if t.wait then -1 else t.notify);
    WriteWears(q, s2, t.id, v3, e.At(3), p);
    var s3 := Ticks(SetSlot(s2, t.id, v3), e.At(3));
    WriteWears(q, s3, t.id, SlotAt(s3, t.id).(process := if t.wait then 0 else t.process), e.At(4), p);
    var s4 := FillFields(s, t, e);
    TicksWear(if t.wait then s4.(woken := 0, ready := true) else s4, e.At(5), p);
    WornTwice(q, s4.queues[p], FillSlot(s, t, e).queues[p]);
  }

  // Preparing another channel only wears the queue.
  lemma PrepWears(s: Dev, x: nat, t: Transfer, e: Env, p: nat)
    requires x < |s.queues| && p < |s.queues| && p != x && s.queues[p].issued <= |s.queues[p].descs|
    ensures Worn(s.queues[p], Prep(s, x, t, e).dev.queues[p])
  {
    TicksWear(s, e.At(0), p);
    var s0 := Ticks(s, e.At(0));
    FillWears(s0, t, e, p);
    var s1 := FillSlot(s0, t, e);
    WornTwice(s.queues[p], s0.queues[p], s1.queues[p]);
    var b := Submit(s1.queues[x], t.dma, t.len, t.id);
    var s2 := s1.(queues := s1.queues[x := b], log := s1.log + [Submitted(x, b.descs[|b.descs| - 1])]);
    TicksWear(s2, e.At(6), p);
    WornTwice(s.queues[p], s1.queues[p], Ticks(s2, e.At(6)).queues[p]);
  }

  // Starting another channel only wears the queue.
  lemma StartWears(s: Dev, x: nat, t: Transfer, cookie: nat, e: Env, p: nat)
    requires x < |s.queues| && p < |s.queues| && p != x && s.queues[p].issued <= |s.queues[p].descs|
    ensures Worn(s.queues[p], Start(s, x, t, cookie, e).dev.queues[p])
  {
    TicksWear(IssuePending(s, x), e.At(7), p);
    var s1 := Ticks(IssuePending(s, x), e.At(7));
    TicksWear(s1, e.At(8), p);
    var s2 := Ticks(s1, e.At(8));
    WornTwice(s.queues[p], s1.queues[p], s2.queues[p]);
    TicksWear(s2, e.At(9), p);
    WornTwice(s.queues[p], s2.queues[p], Ticks(s2, e.At(9)).queues[p]);
  }

  // A successful prepare leaves its descriptor queued and not issued.
  lemma PrepUnissued(s: Dev, c: Ctx, p: nat, t: Transfer, e: Env)
    requires Good(s, c) && Allowed(s, c, p, t) && Prepares(t.kind, e)
    ensures var o := Prep(s, p, t, e);
            && o.rc == 0 && Unissued(o.dev, p, Desc(o.cookie, t.dma, t.len, t.id))
            && o.dev.queues[p].issued <= |o.dev.queues[p].descs|
            && (s.queues[p].descs == [] ==> |o.dev.queues[p].descs| == 1)
  {
    TicksGood(s, e.At(0), c);
    var s0 := Ticks(s, e.At(0));
    FillSlotGood(s0, c, p, t, e);
    if s.queues[p].descs == [] {
      TicksKeepDrained(s, e.At(0), p);
    }
    var s1 := FillSlot(s0, t, e);
    assert ChanOk(s1, c, p);
    SubmitUnissued(s1, p, t, e.At(6));
  }

  lemma SubmitUnissued(s: Dev, p: nat, t: Transfer, ps: seq<nat>)
    requires p < |s.queues| && s.queues[p].issued <= |s.queues[p].descs|
    ensures var q := Submit(s.queues[p], t.dma, t.len, t.id);
            var d := q.descs[|q.descs| - 1];
            var r := Ticks(s.(queues := s.queues[p := q], log := s.log + [Submitted(p, d)]), ps);
            && Unissued(r, p, d) && d == Desc(d.cookie, t.dma, t.len, t.id)
            && r.queues[p].issued <= |r.queues[p].descs|
            && (s.queues[p].descs == [] ==> |r.queues[p].descs| == 1)
  {
    var q := Submit(s.queues[p], t.dma, t.len, t.id);
    var d := q.descs[|q.descs| - 1];
    var s2 := s.(queues := s.queues[p := q], log := s.log + [Submitted(p, d)]);
    TicksKeepUnissued(s2, ps, p, d);
    TicksWear(s2, ps, p);
  }

  // Some outstanding descriptor of channel p has not been issued.
  predicate HasUnissued(s: Dev, p: nat) {
    p < |s.queues| && s.queues[p].issued < |s.queues[p].descs|
  }

  // Once started, a channel has everything issued, whatever is started next.
  lemma StartsIssue(s: Dev, tx: nat, tt: Transfer, cookie: nat, te: Env,
                    rx: nat, rt: Transfer, cookie': nat, re: Env)
    requires tx < |s.queues| && rx < |s.queues| && tx != rx && !tt.wait
    ensures !HasUnissued(Start(Start(s, tx, tt, cookie, te).dev, rx, rt, cookie', re).dev, tx)
  {
    TicksWear(IssuePending(s, tx), te.At(7), tx);
    StartWears(Start(s, tx, tt, cookie, te).dev, rx, rt, cookie', re, tx);
  }

  // The rest of the call after a successful transmit prepare.
  lemma RestIssues(s: Dev, tx: nat, tt: Transfer, cookie: nat, te: Env, rx: nat, rt: Transfer, re: Env)
    requires HasUnissued(s, tx) && tx != rx && rx < |s.queues| && !tt.wait
    ensures var b := Prep(s, rx, rt, re);
            if b.rc < 0 then HasUnissued(b.dev, tx) && !Prepares(rt.kind, re)
            else Prepares(rt.kind, re)
                 && !HasUnissued(Start(Start(b.dev, tx, tt, cookie, te).dev, rx, rt, b.cookie, re).dev, tx)
  {
    PrepWears(s, rx, rt, re, tx);
    var b := Prep(s, rx, rt, re);
    if b.rc >= 0 {
      StartsIssue(b.dev, tx, tt, cookie, te, rx, rt, b.cookie, re);
    }
  }

  // A transmit descriptor that was never issued is left behind exactly when
  // the transmit side could be prepared and the receive side could not.
  lemma PairUnissuedExactly(s: Dev, tx: nat, tt: Transfer, te: Env, rx: nat, rt: Transfer, re: Env)
    requires Good(s, PLAIN) && Allowed(s, PLAIN, tx, tt) && rx < |s.chans| && tx != rx && !tt.wait
    ensures var o := TwoWayPair(s, tx, tt, te, rx, rt, re);
            HasUnissued(o.dev, tx) <==> Prepares(tt.kind, te) && !Prepares(rt.kind, re)
  {
    PrepGood(s, PLAIN, tx, tt, te);
    if Prepares(tt.kind, te) {
      PrepUnissued(s, PLAIN, tx, tt, te);
      var a := Prep(s, tx, tt, te);
      RestIssues(a.dev, tx, tt, a.cookie, te, rx, rt, re);
    }
  }

  // A two-way call, blocking or not, returns with its transmit descriptor
  // queued and not issued exactly when its transmit side could be prepared and
  // its receive side could not.
  lemma TwoWayLeavesTransmit(s: Dev, r: Inout, te: Env, re: Env)
    requires Reachable(s) && TwoWayAccepted(s, r)
    ensures var tx, rx := Lookup(s.chans, r.txId), Lookup(s.chans, r.rxId);
            HasUnissued(TwoWay(s, r, te, re).dev, tx)
            <==> Prepares(s.chans[tx].kind, te) && !Prepares(s.chans[rx].kind, re)
  {
    ReachableGood(s);
    var live, tx, rx := Live(s.bufs, s.exts), Lookup(s.chans, r.txId), Lookup(s.chans, r.rxId);
    TwoWayAllowed(s, PLAIN, r, re);
    InCall(s, PLAIN, -1, re);
    var tt := TxTransfer(s, tx, r, Translate(live, r.txAddr, r.txLen));
    var rt := RxTransfer(s, tx, rx, r, Translate(live, r.rxAddr, r.rxLen), re);
    PairUnissuedExactly(Enter(s, re), tx, tt, te, rx, rt, re);
  }

  // The engine attends to the transmit channel after its issue.
  predicate Attended(tx: nat, wait: bool, te: Env, re: Env) {
    tx in te.At(7) || tx in re.At(7) || (wait && (tx in re.At(8) || tx in re.At(9)))
  }

  // One issued descriptor is finished by the first attention it gets.
  lemma {:induction false} TicksTakeOne(s: Dev, ps: seq<nat>, p: nat)
    requires p < |s.queues| && s.queues[p].issued == |s.queues[p].descs| <= 1
    ensures var q := Ticks(s, ps).queues[p];
            q.issued == |q.descs| <= 1 && (q.descs == [] <==> s.queues[p].descs == [] || p in ps)
    decreases |ps|
  {
    if ps != [] {
      TicksTakeOne(Tick(s, ps[0]), ps[1..], p);
    }
  }

  lemma StartTakesOne(s: Dev, x: nat, t: Transfer, cookie: nat, e: Env, p: nat)
    requires x < |s.queues| && p < |s.queues| && p != x && s.queues[p].issued == |s.queues[p].descs| <= 1
    ensures Start(s, x, t, cookie, e).dev.queues[p].descs == []
            <==> s.queues[p].descs == [] || p in e.At(7) || (t.wait && (p in e.At(8) || p in e.At(9)))
  {
    var s0 := IssuePending(s, x);
    TicksTakeOne(s0, e.At(7), p);
    var s1 := Ticks(s0, e.At(7));
    TicksTakeOne(s1, e.At(8), p);
    TicksTakeOne(Ticks(s1, e.At(8)), e.At(9), p);
  }

  lemma PairTxEmptyExactly(s: Dev, tx: nat, tt: Transfer, te: Env, rx: nat, rt: Transfer, re: Env)
    requires Good(s, PLAIN) && Allowed(s, PLAIN, tx, tt) && rx < |s.chans| && tx != rx && !tt.wait
    requires s.queues[tx].descs == []
    ensures TwoWayPair(s, tx, tt, te, rx, rt, re).dev.queues[tx].descs == []
            <==> !Prepares(tt.kind, te) || (Prepares(rt.kind, re) && Attended(tx, rt.wait, te, re))
  {
    PrepGood(s, PLAIN, tx, tt, te);
    if Prepares(tt.kind, te) {
      PrepUnissued(s, PLAIN, tx, tt, te);
      var a := Prep(s, tx, tt, te);
      RestTakesOne(a.dev, tx, tt, a.cookie, te, rx, rt, re);
    }
  }

  lemma RestTakesOne(s: Dev, tx: nat, tt: Transfer, cookie: nat, te: Env, rx: nat, rt: Transfer, re: Env)
    requires HasUnissued(s, tx) && |s.queues[tx].descs| == 1
    requires tx != rx && rx < |s.queues| && !tt.wait
    ensures var b := Prep(s, rx, rt, re);
            if b.rc < 0 then b.dev.queues[tx].descs != [] && !Prepares(rt.kind, re)
            else Prepares(rt.kind, re)
                 && (Start(Start(b.dev, tx, tt, cookie, te).dev, rx, rt, b.cookie, re).dev.queues[tx].descs == []
                     <==> Attended(tx, rt.wait, te, re))
  {
    PrepWears(s, rx, rt, re, tx);
    var b := Prep(s, rx, rt, re);
    assert b.dev.queues[tx] == s.queues[tx];
    if b.rc >= 0 {
      StartsTakeOne(b.dev, tx, tt, cookie, te, rx, rt, b.cookie, re);
    }
  }

  // Both starts, with one descriptor on the transmit channel.
  lemma StartsTakeOne(s: Dev, tx: nat, tt: Transfer, cookie: nat, te: Env,
                      rx: nat, rt: Transfer, cookie': nat, re: Env)
    requires tx < |s.queues| && rx < |s.queues| && tx != rx && !tt.wait && |s.queues[tx].descs| == 1
    ensures Start(Start(s, tx, tt, cookie, te).dev, rx, rt, cookie', re).dev.queues[tx].descs == []
            <==> Attended(tx, rt.wait, te, re)
  {
    TicksTakeOne(IssuePending(s, tx), te.At(7), tx);
    var c := Start(s, tx, tt, cookie, te).dev;
    assert c == Ticks(IssuePending(s, tx), te.At(7));
    assert c.queues[tx].issued == |c.queues[tx].descs| <= 1 && (c.queues[tx].descs == [] <==> tx in te.At(7));
    StartTakesOne(c, rx, rt, cookie', re, tx);
  }

  // On an idle transmit channel: it is empty again on return exactly when its
  // prepare failed, or both prepares worked and the engine attended to it after
  // its issue. A blocking call waits for its receive side only.
  lemma TwoWayTxEmptyExactly(s: Dev, r: Inout, te: Env, re: Env)
    requires Reachable(s) && TwoWayAccepted(s, r)
    requires s.queues[Lookup(s.chans, r.txId)].descs == []
    ensures var tx, rx := Lookup(s.chans, r.txId), Lookup(s.chans, r.rxId);
            TwoWay(s, r, te, re).dev.queues[tx].descs == []
            <==> !Prepares(s.chans[tx].kind, te)
                 || (Prepares(s.chans[rx].kind, re) && Attended(tx, r.wait, te, re))
  {
    ReachableGood(s);
    var live, tx, rx := Live(s.bufs, s.exts), Lookup(s.chans, r.txId), Lookup(s.chans, r.rxId);
    TwoWayAllowed(s, PLAIN, r, re);
    InCall(s, PLAIN, -1, re);
    PairTxEmptyExactly(Enter(s, re), tx, TxTransfer(s, tx, r, Translate(live, r.txAddr, r.txLen)), te,
                       rx, RxTransfer(s, tx, rx, r, Translate(live, r.rxAddr, r.rxLen), re), re);
  }

  // On an idle receive channel, and when both sides can be prepared, a blocking
  // two-way call returns 0 exactly if the engine attends to the receive channel
  // before the wait ends, whatever becomes of the transmit side.
  lemma TwoWayResultExact(s: Dev, r: Inout, te: Env, re: Env)
    requires Reachable(s) && TwoWayAccepted(s, r) && r.wait
    requires s.queues[Lookup(s.chans, r.rxId)].descs == []
    requires Prepares(s.chans[Lookup(s.chans, r.txId)].kind, te)
    requires Prepares(s.chans[Lookup(s.chans, r.rxId)].kind, re)
    ensures TwoWay(s, r, te, re).rc == if Lookup(s.chans, r.rxId) in re.At(7) then 0 else -ETIME
  {
    ReachableGood(s);
    var live, tx, rx := Live(s.bufs, s.exts), Lookup(s.chans, r.txId), Lookup(s.chans, r.rxId);
    TwoWayAllowed(s, PLAIN, r, re);
    InCall(s, PLAIN, -1, re);
    var tt := TxTransfer(s, tx, r, Translate(live, r.txAddr, r.txLen));
    var rt := RxTransfer(s, tx, rx, r, Translate(live, r.rxAddr, r.rxLen), re);
    var s0 := Enter(s, re);
    PrepGood(s0, PLAIN, tx, tt, te);
    PrepUnissued(s0, PLAIN, tx, tt, te);
    var a := Prep(s0, tx, tt, te);
    assert ChanOk(s0, PLAIN, rx);
    PrepWears(s0, tx, tt, te, rx);
    WaitGood(a.dev, PLAIN, rx);
    PairResult(a, tx, tt, te, rx, rt, re);
  }

  // The transmit side is prepared: a is the outcome.
  lemma PairResult(a: Outcome, tx: nat, tt: Transfer, te: Env, rx: nat, rt: Transfer, re: Env)
    requires var c := PLAIN.(waiter := rx); Good(a.dev, c) && Allowed(a.dev, c, rx, rt)
    requires tx < |a.dev.chans| && tx != rx && !tt.wait && rt.wait && Prepares(rt.kind, re)
    requires a.dev.queues[rx].descs == []
    ensures var b := Prep(a.dev, rx, rt, re);
            && b.rc == 0
            && Start(Start(b.dev, tx, tt, a.cookie, te).dev, rx, rt, b.cookie, re).rc
               == if rx in re.At(7) then 0 else -ETIME
  {
    var c := PLAIN.(waiter := rx);
    PrepGood(a.dev, c, rx, rt, re);
    PrepIdle(a.dev, c, rx, rt, re);
    var b := Prep(a.dev, rx, rt, re);
    IssueGood(b.dev, c, tx, []);
    TicksGood(IssuePending(b.dev, tx), te.At(7), c);
    TicksNoWake(IssuePending(b.dev, tx), te.At(7), c, rx);
    StartIdle(Ticks(IssuePending(b.dev, tx), te.At(7)), c, rx, rt, b.cookie, re);
  }

  /* ---- Transfers that leave their buffer ---- */

  lemma WildGrows(log: seq<Event>, more: seq<Event>)
    requires log <= more && !NoWild(log)
    ensures !NoWild(more)
  {
    var i :| 0 <= i < |log| && log[i].Completed? && !log[i].inside;
    assert more[i] == log[i];
  }

  // If an issued descriptor lies outside every live buffer, the engine can
  // finish it there by attending to its channel often enough.
  lemma {:induction false} FinishNth(s: Dev, p: nat, n: nat)
    requires p < |s.queues| && n < s.queues[p].issued <= |s.queues[p].descs|
    requires var d := s.queues[p].descs[n]; !Inside(Live(s.bufs, s.exts), d.dma, d.len)
    ensures !NoWild(Ticks(s, seq(n + 1, _ => p)).log)
    decreases n
  {
    var ps, m := seq(n + 1, _ => p), Tick(s, p);
    assert ps[1..] == seq(n, _ => p);
    TickSteady(s, p);
    if n == 0 {
      assert Ticks(m, ps[1..]) == m;
      assert m.log[|s.log|].Completed? && !m.log[|s.log|].inside;
    } else {
      FinishNth(m, p, n - 1);
    }
  }

  // A call's newest descriptor lies outside, and the engine finishes everything
  // on the channel after the start.
  lemma StartWild(s: Dev, p: nat, t: Transfer, cookie: nat, e: Env)
    requires p < |s.queues| && s.queues[p].descs != []
    requires var ds := s.queues[p].descs;
             !Inside(Live(s.bufs, s.exts), ds[|ds| - 1].dma, ds[|ds| - 1].len) && e.At(7) == seq(|ds|, _ => p)
    ensures !NoWild(Start(s, p, t, cookie, e).dev.log)
  {
    FinishNth(IssuePending(s, p), p, |s.queues[p].descs| - 1);
    StartGrows(s, p, t, cookie, e);
    WildGrows(Ticks(IssuePending(s, p), e.At(7)).log, Start(s, p, t, cookie, e).dev.log);
  }

  // Foreign calls work, uninitialised memory holds the given frame, and channel
  // p's engine finishes n descriptors in window 7.
  function BusyEnv(p: nat, n: nat, frame: Frame): Env {
    GOOD_ENV.(junkFrame := frame, windows := [[], [], [], [], [], [], [], seq(n, _ => p)])
  }

  lemma OneWayWild(s: Dev, dir: Dir, r: Request, junk: Frame)
    requires |s.queues| == |s.chans| && Accepted(s, dir, r)
    requires !Stays(s, r.addr, r.len, Extent(s.chans[Lookup(s.chans, r.id)].kind, r.len, junk))
    ensures var p := Lookup(s.chans, r.id);
            !NoWild(OneWay(s, dir, r, BusyEnv(p, |s.queues[p].descs| + 1, junk)).dev.log)
  {
    var p, live := Lookup(s.chans, r.id), Live(s.bufs, s.exts);
    var e := BusyEnv(p, |s.queues[p].descs| + 1, junk);
    var t := OneWayTransfer(s, p, r, Translate(live, r.addr, r.len), e);
    DriveWild(s, p, t, e);
  }

  // A transfer that lies outside, with the engine finishing everything on its
  // channel after the start.
  lemma DriveWild(s: Dev, p: nat, t: Transfer, e: Env)
    requires p < |s.queues| && Prepares(t.kind, e) && SilentUntil(e, 7)
    requires !Inside(Live(s.bufs, s.exts), t.dma, t.len) && e.At(7) == seq(|s.queues[p].descs| + 1, _ => p)
    ensures !NoWild(Drive(s, p, t, e).dev.log)
  {
    SilentPrep(Enter(s, e), p, t, e);
    var a := Prep(Enter(s, e), p, t, e);
    StartWild(a.dev, p, t, a.cookie, e);
  }

  lemma GoodContained(s: Dev)
    requires Between(s, PLAIN) && AllInside(s) && NoWild(s.log)
    ensures Between(s, CONTAINED)
  {
    forall p | 0 <= p < |s.chans| ensures ChanOk(s, CONTAINED, p) {
      assert ChanOk(s, PLAIN, p);
    }
  }

  // An uninitialised frame may be larger than anything: about 2^64 lines of
  // about 2^64 bytes.
  const HUGE := Frame(-1, -1, 1)

  lemma HugeBytes()
    ensures HUGE.Bytes() > WORD
  {
    assert SizeT(-1) == WORD - 1 && Int(-1) == -1;
    ProductMono(2, WORD - 1, WORD - 1);
  }

  lemma ProductMono(a: nat, b: nat, c: nat)
    requires a <= b
    ensures Product(a, c) <= Product(b, c)
  {
  }

  lemma HugeLeaves(s: Dev, addr: nat, len: nat)
    requires GoodRegions(Live(s.bufs, s.exts))
    ensures !Stays(s, addr, len, HUGE.Bytes())
  {
    HugeBytes();
    var live := Live(s.bufs, s.exts);
    forall i | 0 <= i < |live| ensures !Within(live[i], Translate(live, addr, len), HUGE.Bytes()) {
      assert Sane(live[i]);
    }
  }

  // An accepted one-way call keeps the engine inside live buffers, whatever
  // uninitialised memory holds and whatever the engine does, exactly when its
  // channel is a DMA channel and the bytes it asks for stay in a buffer.
  lemma OneWayInsideExactly(s: Dev, dir: Dir, r: Request)
    requires Reachable(s) && AllInside(s) && NoWild(s.log) && Accepted(s, dir, r)
    ensures (forall e :: NoWild(OneWay(s, dir, r, e).dev.log))
            <==> s.chans[Lookup(s.chans, r.id)].kind == DMA && Stays(s, r.addr, r.len, UInt(r.len))
    ensures Proper(r.addr, r.len) ==> Stays(s, r.addr, r.len, UInt(r.len))
  {
    ReachableGood(s);
    if Proper(r.addr, r.len) {
      ProperStays(s, r.addr, r.len);
    }
    if s.chans[Lookup(s.chans, r.id)].kind == DMA && Stays(s, r.addr, r.len, UInt(r.len)) {
      GoodContained(s);
      forall e ensures NoWild(OneWay(s, dir, r, e).dev.log) {
        OneWayGood(s, CONTAINED, dir, r, e);
      }
    } else {
      HugeLeaves(s, r.addr, r.len);
      OneWayWild(s, dir, r, HUGE);
    }
  }

  // A video call keeps the engine inside live buffers, whatever the engine does,
  // exactly when its frame stays in its first frame buffer. The driver checks
  // something else: the ranges of `image_size` bytes.
  lemma VideoInsideExactly(s: Dev, v: Video)
    requires Reachable(s) && AllInside(s) && NoWild(s.log)
    ensures (forall allocOk, e :: NoWild(ShowVideo(s, v, allocOk, e).log)) <==> VideoFits(s, v)
  {
    ReachableGood(s);
    if VideoFits(s, v) {
      GoodContained(s);
      forall allocOk, e ensures NoWild(ShowVideo(s, v, allocOk, e).log) {
        VideoGood(s, CONTAINED, v, allocOk, e);
      }
    } else {
      VideoWild(s, v);
    }
  }

  lemma VideoWild(s: Dev, v: Video)
    requires |s.queues| == |s.chans| && !VideoFits(s, v)
    ensures var p := Lookup(s.chans, v.id);
            !NoWild(ShowVideo(s, v, true, BusyEnv(p, |s.queues[p].descs| + 1, v.frame)).log)
  {
    var p := Lookup(s.chans, v.id);
    DriveWild(s, p, VideoTransfer(s, v), BusyEnv(p, |s.queues[p].descs| + 1, v.frame));
  }

  // A frame whose fields are not negative and whose size is an int is asked for
  // as it is checked; so then a proper range that translates is enough.
  lemma PlainFrame(s: Dev, v: Video)
    requires Reachable(s) && v.frame.height >= 0 && v.frame.width >= 0 && v.frame.depth >= 0
    requires v.frame.height * (v.frame.width * v.frame.depth) <= INT_MAX && v.frame.height <= INT_MAX
    ensures v.frame.Bytes() == v.frame.ImageSize()
    ensures (v.frames != [] ==> Proper(v.frames[0], v.frame.ImageSize())) ==> VideoFits(s, v)
  {
    var h, line := v.frame.height, v.frame.width * v.frame.depth;
    PlainSize(h, v.frame.width, v.frame.depth);
    ReachableGood(s);
    if AllTranslate(s, v) && v.frames != [] && Proper(v.frames[0], v.frame.ImageSize()) {
      TranslateInside(Live(s.bufs, s.exts), v.frames[0], v.frame.ImageSize(), v.frame.Bytes());
    }
  }

  lemma PlainSize(h: nat, w: nat, d: nat)
    requires h * (w * d) <= INT_MAX && h <= INT_MAX
    ensures Product(SizeT(h), SizeT(Int(w * d))) == SizeT(Int(w * h * d)) == h * (w * d)
  {
    TimesAnyOrder(h, w, d);
    SmallNumber(h * (w * d));
    SmallNumber(h);
    if h > 0 {
      TimesAtLeast(h, w * d);
      SmallNumber(w * d);
    }
  }

  lemma TimesAnyOrder(h: nat, w: nat, d: nat)
    ensures w * h * d == h * (w * d)
  {
  }

  lemma TimesAtLeast(h: nat, x: nat)
    requires h > 0
    ensures x <= h * x
  {
    ProductMono(1, h, x);
  }

  lemma SmallNumber(x: nat)
    requires x <= INT_MAX
    ensures Int(x) == x == SizeT(x)
  {
  }

  // The queues after two undisturbed prepares.
  lemma SilentPair(s: Dev, tx: nat, tt: Transfer, te: Env, rx: nat, rt: Transfer, re: Env)
    requires tx < |s.queues| && rx < |s.queues| && tx != rx
    requires Prepares(tt.kind, te) && SilentUntil(te, 7) && Prepares(rt.kind, re) && SilentUntil(re, 7)
    ensures var a := Prep(s, tx, tt, te);
            var b := Prep(a.dev, rx, rt, re);
            && a.rc == b.rc == 0 && b.dev.bufs == s.bufs && b.dev.exts == s.exts
            && b.dev.queues == s.queues[tx := Submit(s.queues[tx], tt.dma, tt.len, tt.id)]
                                       [rx := Submit(s.queues[rx], rt.dma, rt.len, rt.id)]
  {
    SilentPrep(s, tx, tt, te);
    SilentPrep(Prep(s, tx, tt, te).dev, rx, rt, re);
  }

  lemma PairWildTx(s: Dev, tx: nat, tt: Transfer, te: Env, rx: nat, rt: Transfer, re: Env)
    requires tx < |s.queues| && rx < |s.queues| && tx != rx && !tt.wait
    requires Prepares(tt.kind, te) && SilentUntil(te, 7) && Prepares(rt.kind, re) && SilentUntil(re, 7)
    requires !Inside(Live(s.bufs, s.exts), tt.dma, tt.len)
    requires te.At(7) == seq(|s.queues[tx].descs| + 1, _ => tx)
    ensures !NoWild(TwoWayPair(s, tx, tt, te, rx, rt, re).dev.log)
  {
    SilentPair(s, tx, tt, te, rx, rt, re);
    var a := Prep(s, tx, tt, te);
    var b := Prep(a.dev, rx, rt, re);
    StartWild(b.dev, tx, tt, a.cookie, te);
    var m := Start(b.dev, tx, tt, a.cookie, te).dev;
    StartGrows(m, rx, rt, b.cookie, re);
    WildGrows(m.log, Start(m, rx, rt, b.cookie, re).dev.log);
  }

  lemma PairWildRx(s: Dev, tx: nat, tt: Transfer, te: Env, rx: nat, rt: Transfer, re: Env)
    requires tx < |s.queues| && rx < |s.queues| && tx != rx && !tt.wait
    requires Prepares(tt.kind, te) && SilentUntil(te, 8) && Prepares(rt.kind, re) && SilentUntil(re, 7)
    requires !Inside(Live(s.bufs, s.exts), rt.dma, rt.len)
    requires re.At(7) == seq(|s.queues[rx].descs| + 1, _ => rx)
    ensures !NoWild(TwoWayPair(s, tx, tt, te, rx, rt, re).dev.log)
  {
    SilentPair(s, tx, tt, te, rx, rt, re);
    var a := Prep(s, tx, tt, te);
    var b := Prep(a.dev, rx, rt, re);
    StartWild(Start(b.dev, tx, tt, a.cookie, te).dev, rx, rt, b.cookie, re);
  }

  lemma TwoWayWildTx(s: Dev, r: Inout)
    requires Between(s, PLAIN) && TwoWayAccepted(s, r)
    requires !Stays(s, r.txAddr, r.txLen, Extent(s.chans[Lookup(s.chans, r.txId)].kind, r.txLen, r.txFrame))
    ensures var tx := Lookup(s.chans, r.txId);
            !NoWild(TwoWay(s, r, BusyEnv(tx, |s.queues[tx].descs| + 1, r.txFrame), GOOD_ENV).dev.log)
  {
    var tx, rx, live := Lookup(s.chans, r.txId), Lookup(s.chans, r.rxId), Live(s.bufs, s.exts);
    var tt := TxTransfer(s, tx, r, Translate(live, r.txAddr, r.txLen));
    var rt := RxTransfer(s, tx, rx, r, Translate(live, r.rxAddr, r.rxLen), GOOD_ENV);
    PairWildTx(Enter(s, GOOD_ENV), tx, tt, BusyEnv(tx, |s.queues[tx].descs| + 1, r.txFrame), rx, rt, GOOD_ENV);
  }

  // The frame that reaches the receive engine, when uninitialised memory holds
  // `junk`.
  function RxFrame(s: Dev, r: Inout, junk: Frame): Frame
    requires TwoWayAccepted(s, r)
  {
    if s.chans[Lookup(s.chans, r.txId)].kind == VDMA then r.rxFrame else junk
  }

  lemma TwoWayWildRx(s: Dev, r: Inout, junk: Frame)
    requires Between(s, PLAIN) && TwoWayAccepted(s, r)
    requires !Stays(s, r.rxAddr, r.rxLen,
                    Extent(s.chans[Lookup(s.chans, r.rxId)].kind, r.rxLen, RxFrame(s, r, junk)))
    ensures var rx := Lookup(s.chans, r.rxId);
            !NoWild(TwoWay(s, r, GOOD_ENV, BusyEnv(rx, |s.queues[rx].descs| + 1, junk)).dev.log)
  {
    var tx, rx, live := Lookup(s.chans, r.txId), Lookup(s.chans, r.rxId), Live(s.bufs, s.exts);
    var re := BusyEnv(rx, |s.queues[rx].descs| + 1, junk);
    var tt := TxTransfer(s, tx, r, Translate(live, r.txAddr, r.txLen));
    var rt := RxTransfer(s, tx, rx, r, Translate(live, r.rxAddr, r.rxLen), re);
    PairWildRx(Enter(s, re), tx, tt, GOOD_ENV, rx, rt, re);
  }

  // An accepted two-way call keeps the engine inside live buffers, whatever
  // uninitialised memory holds and whatever the engine does, exactly when what
  // its channels are asked for stays in the buffers it starts in, and there is
  // no VDMA receive channel behind a DMA transmit channel: its frame is never
  // set.
  lemma TwoWayInsideExactly(s: Dev, r: Inout)
    requires Reachable(s) && AllInside(s) && NoWild(s.log) && TwoWayAccepted(s, r)
    ensures (forall te, re :: NoWild(TwoWay(s, r, te, re).dev.log)) <==> PairFits(s, r)
  {
    ReachableGood(s);
    var tx, rx := Lookup(s.chans, r.txId), Lookup(s.chans, r.rxId);
    if PairFits(s, r) {
      GoodContained(s);
      forall te, re ensures NoWild(TwoWay(s, r, te, re).dev.log) {
        TwoWayGood(s, CONTAINED, r, te, re);
      }
    } else if !Stays(s, r.txAddr, r.txLen, Extent(s.chans[tx].kind, r.txLen, r.txFrame)) {
      TwoWayWildTx(s, r);
    } else {
      HugeLeaves(s, r.rxAddr, r.rxLen);
      TwoWayWildRx(s, r, HUGE);
    }
  }

  // For a proper, non-empty range a frame stays in its buffer exactly when the
  // bytes it makes the engine move fit into the room from the range's address to
  // the end of that buffer.
  lemma FrameRoom(s: Dev, addr: nat, n: nat, frame: Frame)
    requires Reachable(s) && n > 0 && Proper(addr, n) && Translate(Live(s.bufs, s.exts), addr, n) != 0
    ensures Stays(s, addr, n, frame.Bytes()) <==> frame.Bytes() <= Room(Live(s.bufs, s.exts), addr, n)
  {
    ReachableGood(s);
    TranslateRoom(Live(s.bufs, s.exts), addr, n, frame.Bytes());
  }

  /* ---- Closing a buffer ---- */

  // The descriptor lies in the i-th mapped buffer and in no other live buffer.
  ghost predicate OnlyIn(s: Dev, i: nat, d: Desc)
    requires i < |s.bufs|
  {
    && Within(BufRegion(s.bufs[i]), d.dma, d.len)
    && forall j :: 0 <= j < |Live(s.bufs, s.exts)| && j != i ==> !Within(Live(s.bufs, s.exts)[j], d.dma, d.len)
  }

  lemma InsideAfterClose(s: Dev, i: nat, d: Desc)
    requires i < |s.bufs| && Inside(Live(s.bufs, s.exts), d.dma, d.len)
    ensures Inside(Live(Close(s, i).bufs, s.exts), d.dma, d.len) <==> !OnlyIn(s, i, d)
  {
    var live, rest := Live(s.bufs, s.exts), Live(Close(s, i).bufs, s.exts);
    LiveAfterClose(s, i);
    assert forall j :: 0 <= j < |rest| ==> rest[j] == live[if j < i then j else j + 1];
    if !OnlyIn(s, i, d) {
      var j :| 0 <= j < |live| && j != i && Within(live[j], d.dma, d.len);
      assert rest[if j < i then j else j - 1] == live[j];
    }
  }

  ghost predicate IssuedInside(s: Dev) {
    forall p, k :: 0 <= p < |s.queues| && 0 <= k < s.queues[p].issued <= |s.queues[p].descs| ==>
      Inside(Live(s.bufs, s.exts), s.queues[p].descs[k].dma, s.queues[p].descs[k].len)
  }

  // What is not issued cannot be finished outside.
  lemma {:induction false} IssuedStayInside(s: Dev, ps: seq<nat>)
    requires IssuedInside(s) && NoWild(s.log)
    ensures NoWild(Ticks(s, ps).log)
    decreases |ps|
  {
    if ps != [] {
      TickSteady(s, ps[0]);
      IssuedStayInside(Tick(s, ps[0]), ps[1..]);
    }
  }

  // After closing buffer i the engine can finish a descriptor outside every
  // live buffer if and only if an issued descriptor lies in that buffer alone;
  // what is queued but not issued does no harm yet.
  lemma CloseWildExactly(s: Dev, i: nat)
    requires Reachable(s) && AllInside(s) && NoWild(s.log) && i < |s.bufs|
    ensures (exists ps :: !NoWild(Ticks(Close(s, i), ps).log))
            <==> exists p, k :: 0 <= p < |s.queues| && 0 <= k < s.queues[p].issued <= |s.queues[p].descs|
                                && OnlyIn(s, i, s.queues[p].descs[k])
  {
    if p, k :| 0 <= p < |s.queues| && 0 <= k < s.queues[p].issued <= |s.queues[p].descs|
               && OnlyIn(s, i, s.queues[p].descs[k]) {
      InsideAfterClose(s, i, s.queues[p].descs[k]);
      FinishNth(Close(s, i), p, k);
    } else {
      assert IssuedInside(Close(s, i)) by {
        forall p, k | 0 <= p < |s.queues| && 0 <= k < s.queues[p].issued <= |s.queues[p].descs|
          ensures Inside(Live(Close(s, i).bufs, s.exts), s.queues[p].descs[k].dma, s.queues[p].descs[k].len)
        {
          InsideAfterClose(s, i, s.queues[p].descs[k]);
        }
      }
      forall ps ensures NoWild(Ticks(Close(s, i), ps).log) {
        IssuedStayInside(Close(s, i), ps);
      }
    }
  }

  // A descriptor that covers at least one byte and lies in buffer i lies in no
  // other.
  lemma NonEmptyOnlyIn(s: Dev, i: nat, d: Desc)
    requires Reachable(s) && i < |s.bufs| && d.len > 0
    ensures OnlyIn(s, i, d) <==> Within(BufRegion(s.bufs[i]), d.dma, d.len)
  {
    ReachableGood(s);
    var live := Live(s.bufs, s.exts);
    forall j | 0 <= j < |live| && j != i
      ensures Apart(live[j].dma, live[j].size, live[i].dma, live[i].size)
    {
    }
  }

  /* ---- Runs that fail ---- */

  lemma {:induction false} RunAppend(s: Dev, ops: seq<Op>, op: Op)
    requires |s.queues| == |s.chans| && LegalRun(s, ops) && Legal(Run(s, ops), op)
    ensures LegalRun(s, ops + [op]) && Run(s, ops + [op]) == Do(Run(s, ops), op)
    decreases |ops|
  {
    if ops == [] {
      assert ([] + [op])[1..] == [];
      assert LegalRun(Do(s, op), []) && Run(Do(s, op), []) == Do(s, op);
    } else {
      RunAppend(Do(s, ops[0]), ops[1..], op);
      assert (ops + [op])[1..] == ops[1..] + [op];
    }
  }

  lemma ReachableStep(s: Dev, op: Op)
    requires Reachable(s) && Legal(s, op)
    ensures Reachable(Do(s, op))
  {
    var start, ops :| Probed(start) && LegalRun(start, ops) && s == Run(start, ops);
    RunAppend(start, ops, op);
    ReachableGood(s);
    DoGood(s, PLAIN, op);
  }

  // A freshly probed device with the given channels, with id equal to position.
  function Device(chans: seq<Chan>): Dev {
    Dev(chans, seq(|chans|, _ => Slot(0, 0, 0, None)), seq(|chans|, _ => NEW_QUEUE), SIGRTMIN, [], [],
        Kernel(0, multiset{}, multiset{}, multiset{}, multiset{}), None, false, 0, 0, 0, [])
  }

  function OneChannel(kind: Kind): Dev {
    Device([Chan(Write, kind, 0)])
  }

  function TwoChannels(txKind: Kind, rxKind: Kind): Dev {
    Device([Chan(Write, txKind, 0), Chan(Read, rxKind, 1)])
  }

  const MAP_PAGE := Mapping(4096, 4096, true, Some(Coherent(4096, 1, 8192)), 0)

  // The device has mapped one page and nothing else has happened.
  ghost predicate PageMapped(s: Dev) {
    && Reachable(s) && s.log == [] && (forall p :: 0 <= p < |s.queues| ==> s.queues[p] == NEW_QUEUE)
    && |s.bufs| == 1 && s.exts == []
    && Live(s.bufs, s.exts) == [Region(4096, 4096, 8192)]
  }

  lemma MapPage(start: Dev)
    requires Probed(start)
    ensures PageMapped(Mmap(start, MAP_PAGE).0) && Mmap(start, MAP_PAGE).0.chans == start.chans
  {
    assert LegalRun(start, []) && Run(start, []) == start;
    ReachableStep(start, MmapCall(MAP_PAGE));
    assert Live(Mmap(start, MAP_PAGE).0.bufs, start.exts)[0] == Region(4096, 4096, 8192);
  }

  const SEND := Request(0, 4096, 16, false, 1)
  const BLOCK := Request(0, 4096, 16, true, 1)
  const LOOP := Inout(0, 4096, 16, Frame(1, 1, 16), 1, 4112, 16, Frame(1, 1, 16), true, 1)

  // The asynchronous write leaves its descriptor issued and outstanding.
  lemma SendOutstanding(s: Dev)
    requires PageMapped(s) && s.chans == OneChannel(DMA).chans
    ensures var r := OneWay(s, Write, SEND, GOOD_ENV).dev;
            && r.queues == [Queue([Desc(1, 8192, 16, 0)], 1, 1, 0)] && r.bufs == s.bufs && r.exts == s.exts
            && r.chans == s.chans && Accepted(s, Write, SEND) && Accepted(r, Write, BLOCK) && Reachable(r)
            && r.notify == s.notify
  {
    assert s.queues == [NEW_QUEUE];
    assert Lookup(s.chans, 0) == 0;
    var t := OneWayTransfer(s, 0, SEND, 8192, GOOD_ENV);
    SilentPrep(Enter(s, GOOD_ENV), 0, t, GOOD_ENV);
    var a := Prep(Enter(s, GOOD_ENV), 0, t, GOOD_ENV);
    assert Submit(NEW_QUEUE, 8192, 16, 0).descs == [Desc(1, 8192, 16, 0)];
    assert a.dev.queues[0] == Queue([Desc(1, 8192, 16, 0)], 0, 1, 0);
    ReachableStep(s, OneWayCall(Write, SEND, GOOD_ENV));
  }

  // Two tasks write asynchronously on one channel. The channel has one callback
  // slot, so the first task's descriptor signals the second task.
  lemma TwoTasks(s: Dev)
    requires PageMapped(s) && s.chans == OneChannel(DMA).chans && s.notify == SIGRTMIN
    ensures var r1 := OneWay(s, Write, SEND, GOOD_ENV).dev;
            var r2 := OneWay(r1, Write, SEND.(process := 2), GOOD_ENV).dev;
            var r := Tick(r2, 0);
            && r1.queues == [Queue([Desc(1, 8192, 16, 0)], 1, 1, 0)]
            && Reachable(r2) && r.log == r2.log + [Completed(0, Desc(1, 8192, 16, 0), true), Signalled(SIGRTMIN, 0, 2)]
  {
    SendOutstanding(s);
    var r1 := OneWay(s, Write, SEND, GOOD_ENV).dev;
    SendAgain(r1, 2);
    ReachableStep(r1, OneWayCall(Write, SEND.(process := 2), GOOD_ENV));
    var r2 := OneWay(r1, Write, SEND.(process := 2), GOOD_ENV).dev;
    assert Within(Live(r2.bufs, r2.exts)[0], 8192, 16);
  }

  // An asynchronous write by the given task, when one is outstanding.
  lemma SendAgain(s: Dev, task: Task)
    requires s.chans == OneChannel(DMA).chans && |s.slots| == 1 && s.notify == SIGRTMIN
    requires s.queues == [Queue([Desc(1, 8192, 16, 0)], 1, 1, 0)] && Accepted(s, Write, SEND)
    requires Live(s.bufs, s.exts) == [Region(4096, 4096, 8192)]
    ensures var r := OneWay(s, Write, SEND.(process := task), GOOD_ENV).dev;
            && r.queues[0].descs == [Desc(1, 8192, 16, 0), Desc(2, 8192, 16, 0)] && r.queues[0].issued == 2
            && |r.queues| == 1 && r.slots == [Slot(0, SIGRTMIN, task, None)]
            && r.bufs == s.bufs && r.exts == s.exts
  {
    assert Lookup(s.chans, 0) == 0;
    var t := OneWayTransfer(s, 0, SEND.(process := task), 8192, GOOD_ENV);
    SilentPrep(Enter(s, GOOD_ENV), 0, t, GOOD_ENV);
    SilentSlot(Enter(s, GOOD_ENV), t, GOOD_ENV);
    var a := Prep(Enter(s, GOOD_ENV), 0, t, GOOD_ENV);
    assert Submit(s.queues[0], 8192, 16, 0).descs == [Desc(1, 8192, 16, 0), Desc(2, 8192, 16, 0)];
    assert a.dev.slots == FillSlot(Enter(s, GOOD_ENV), t, GOOD_ENV).slots;
  }

  // An undisturbed prepare writes the slot the transfer asks for.
  lemma SilentSlot(s: Dev, t: Transfer, e: Env)
    requires SilentUntil(e, 7) && 0 <= t.id < |s.slots|
    ensures FillSlot(s, t, e).slots == s.slots[t.id := Wanted(s, t)]
  {
  }

  // A blocking write right after an asynchronous one: the older descriptor
  // finishes between `cb_data->comp = dma_comp` and `init_completion`, and its
  // callback completes a completion that does not exist yet.
  lemma SendThenBlock(s: Dev)
    requires PageMapped(s) && s.chans == OneChannel(DMA).chans
    ensures var r := OneWay(s, Write, SEND, GOOD_ENV).dev;
            Reachable(r) && !NoUninit(OneWay(r, Write, BLOCK, EarlyEnv(0)).dev.log, |r.log|)
  {
    SendOutstanding(s);
    var r := OneWay(s, Write, SEND, GOOD_ENV).dev;
    ReachableGood(r);
    OneWayEarly(r, Write, BLOCK, EarlyEnv(0));
  }

  // Closing a buffer right after an asynchronous transfer from it: the engine
  // finishes the descriptor when its buffer is gone.
  lemma AsyncThenClose(s: Dev)
    requires PageMapped(s) && s.chans == OneChannel(DMA).chans
    ensures var r := OneWay(s, Write, SEND, GOOD_ENV).dev;
            && Reachable(r) && |r.bufs| == 1 && Legal(r, CloseCall(0))
            && !NoWild(Ticks(Close(r, 0), seq(1, _ => 0)).log)
  {
    SendOutstanding(s);
    FinishAfterClose(OneWay(s, Write, SEND, GOOD_ENV).dev);
  }

  lemma FinishAfterClose(r: Dev)
    requires r.queues == [Queue([Desc(1, 8192, 16, 0)], 1, 1, 0)] && |r.bufs| == 1 && r.exts == []
    ensures !NoWild(Ticks(Close(r, 0), seq(1, _ => 0)).log)
  {
    FinishNth(Close(r, 0), 0, 0);
  }

  // A one-way write on a VDMA channel: the size of the transfer is whatever the
  // stack held.
  lemma OneWayVideo(s: Dev)
    requires PageMapped(s) && s.chans == OneChannel(VDMA).chans
    ensures Accepted(s, Write, SEND)
    ensures !NoWild(OneWay(s, Write, SEND, BusyEnv(0, 1, Frame(1, 1, 8192))).dev.log)
  {
    assert Lookup(s.chans, 0) == 0;
    OneWayWild(s, Write, SEND, Frame(1, 1, 8192));
  }

  // A request of almost the whole address space: its end wraps round to an
  // address before the buffer's end, so it is accepted though no buffer covers
  // it, and 2^32 - 1 bytes are asked for.
  const WRAPPING := Request(0, 4096, WORD - 1, false, 1)

  lemma WrappedRange(s: Dev)
    requires PageMapped(s) && s.chans == OneChannel(DMA).chans
    ensures Accepted(s, Write, WRAPPING)
    ensures forall i :: 0 <= i < |Live(s.bufs, s.exts)| ==> !Covers(Live(s.bufs, s.exts)[i], 4096, WORD - 1)
    ensures !NoWild(OneWay(s, Write, WRAPPING, BusyEnv(0, 1, HUGE)).dev.log)
  {
    assert Lookup(s.chans, 0) == 0;
    assert Holds(Region(4096, 4096, 8192), 4096, WORD - 1);
    OneWayWild(s, Write, WRAPPING, HUGE);
  }

  // A video call whose image fits into the page and whose frame does not.
  lemma PageLeaves(s: Dev, v: Video)
    requires PageMapped(s) && s.chans == OneChannel(VDMA).chans && v.id == 0 && v.frames == [4096]
    requires v.frame.ImageSize() <= 4096 < v.frame.Bytes()
    ensures AllTranslate(s, v) && !NoWild(ShowVideo(s, v, true, BusyEnv(0, 1, v.frame)).log)
  {
    assert Lookup(s.chans, 0) == 0;
    assert Holds(Region(4096, 4096, 8192), 4096, v.frame.ImageSize());
    assert Translate(Live(s.bufs, s.exts), 4096, v.frame.ImageSize()) == 8192;
    VideoWild(s, v);
  }

  // Two negative fields: the image is 16 bytes, which the buffer holds, but the
  // engine is asked for 2^64 - 1 lines.
  const NEGATIVE_FRAME := Frame(-1, -16, 1)

  lemma NegativeSizes()
    ensures NEGATIVE_FRAME.ImageSize() == 16 && NEGATIVE_FRAME.Bytes() > WORD
  {
    assert SizeT(-1) == WORD - 1 && SizeT(Int(-16)) == WORD - 16;
    ProductMono(2, WORD - 1, WORD - 16);
  }

  lemma VideoNegative(s: Dev)
    requires PageMapped(s) && s.chans == OneChannel(VDMA).chans
    ensures var v := Video(0, [4096], NEGATIVE_FRAME, 1);
            AllTranslate(s, v) && !NoWild(ShowVideo(s, v, true, BusyEnv(0, 1, NEGATIVE_FRAME)).log)
  {
    NegativeSizes();
    PageLeaves(s, Video(0, [4096], NEGATIVE_FRAME, 1));
  }

  // A frame of 2^32 bytes: as an int the image has none.
  const OVERFLOWING_FRAME := Frame(65536, 65536, 1)

  lemma OverflowingSizes()
    ensures OVERFLOWING_FRAME.ImageSize() == 0 && OVERFLOWING_FRAME.Bytes() == HALF_WORD
  {
  }

  lemma VideoOverflowing(s: Dev)
    requires PageMapped(s) && s.chans == OneChannel(VDMA).chans
    ensures var v := Video(0, [4096], OVERFLOWING_FRAME, 1);
            AllTranslate(s, v) && !NoWild(ShowVideo(s, v, true, BusyEnv(0, 1, OVERFLOWING_FRAME)).log)
  {
    OverflowingSizes();
    PageLeaves(s, Video(0, [4096], OVERFLOWING_FRAME, 1));
  }

  lemma LoopAccepted(s: Dev, txKind: Kind, rxKind: Kind)
    requires PageMapped(s) && s.chans == TwoChannels(txKind, rxKind).chans
    ensures TwoWayAccepted(s, LOOP) && Lookup(s.chans, 0) == 0 && Lookup(s.chans, 1) == 1
    ensures Translate(Live(s.bufs, s.exts), 4112, 16) == 8208
  {
    assert LookupFrom(s.chans, 1, 1) == 1;
  }

  // A two-way call from a DMA to a VDMA channel: the frames asked for fit, but
  // the receive frame is not copied, because the transmit channel's kind is
  // tested for it (driver/axidma_dma.c:525).
  lemma TwoWayMixedKinds(s: Dev)
    requires PageMapped(s) && s.chans == TwoChannels(DMA, VDMA).chans
    ensures TwoWayAccepted(s, LOOP)
    ensures !NoWild(TwoWay(s, LOOP, GOOD_ENV, BusyEnv(1, 1, Frame(1, 1, 8192))).dev.log)
  {
    LoopAccepted(s, DMA, VDMA);
    ReachableGood(s);
    TwoWayWildRx(s, LOOP, Frame(1, 1, 8192));
  }

  // A two-way call between VDMA channels with the frames the library sends when
  // its caller gives none (library/libaxidma.c:508-518): every field is -1, and
  // the engine is asked for 2^64 - 1 lines of one byte.
  const NO_FRAME := Frame(-1, -1, -1)
  const NULL_FRAMES := LOOP.(txFrame := NO_FRAME, rxFrame := NO_FRAME)

  lemma TwoWayNullFrames(s: Dev)
    requires PageMapped(s) && s.chans == TwoChannels(VDMA, VDMA).chans
    ensures TwoWayAccepted(s, NULL_FRAMES) && NO_FRAME.Bytes() == WORD - 1
    ensures !NoWild(TwoWay(s, NULL_FRAMES, BusyEnv(0, 1, NO_FRAME), GOOD_ENV).dev.log)
  {
    LoopAccepted(s, VDMA, VDMA);
    assert TwoWayAccepted(s, NULL_FRAMES);
    assert SizeT(Int(1)) == 1;
    ReachableGood(s);
    TwoWayWildTx(s, NULL_FRAMES);
  }

  // A two-way call whose receive side cannot be prepared leaves its transmit
  // descriptor queued; the next start of that channel will issue it.
  lemma TwoWayUnprepared(s: Dev)
    requires PageMapped(s) && s.chans == TwoChannels(DMA, DMA).chans
    ensures TwoWayAccepted(s, LOOP)
    ensures HasUnissued(TwoWay(s, LOOP, GOOD_ENV, GOOD_ENV.(descOk := false)).dev, 0)
  {
    LoopAccepted(s, DMA, DMA);
    TwoWayLeavesTransmit(s, LOOP, GOOD_ENV, GOOD_ENV.(descOk := false));
  }

  // A blocking two-way call that returns 0 before the engine has attended to
  // its transmit channel leaves its transmit descriptor outstanding.
  lemma TwoWayUnattended(s: Dev)
    requires PageMapped(s) && s.chans == TwoChannels(DMA, DMA).chans
    ensures TwoWayAccepted(s, LOOP)
    ensures var o := TwoWay(s, LOOP, GOOD_ENV, BusyEnv(1, 1, HUGE));
            o.rc == 0 && o.dev.queues[0].descs != []
  {
    LoopAccepted(s, DMA, DMA);
    var re := BusyEnv(1, 1, HUGE);
    assert re.At(7)[0] == 1;
    TwoWayResultExact(s, LOOP, GOOD_ENV, re);
    TwoWayTxEmptyExactly(s, LOOP, GOOD_ENV, re);
  }

  // The states these runs start from exist: probe a device, then map a page.
  lemma PageMappedExists(chans: seq<Chan>)
    requires chans == OneChannel(DMA).chans || chans == OneChannel(VDMA).chans
             || chans == TwoChannels(DMA, VDMA).chans || chans == TwoChannels(DMA, DMA).chans
             || chans == TwoChannels(VDMA, VDMA).chans
    ensures Probed(Device(chans)) && PageMapped(Mmap(Device(chans), MAP_PAGE).0)
    ensures Mmap(Device(chans), MAP_PAGE).0.chans == chans && Mmap(Device(chans), MAP_PAGE).0.notify == SIGRTMIN
  {
    MapPage(Device(chans));
  }
}
