// Whole runs of the driver: any sequence of calls and engine activity.
module DriverRuns {
  import opened Types
  import opened Regions
  import opened DmaEngine
  import opened DriverSpec
  import opened DriverInvariant

  datatype Op =
    | Engine(ps: seq<nat>)
    | OneWayCall(dir: Dir, r: Request, e: Env)
    | TwoWayCall(io: Inout, te: Env, re: Env)
    | VideoCall(v: Video, allocOk: bool, ve: Env)
    | StopCall(id: int)
    | SignalCall(signal: int)
    | MmapCall(m: Mapping)
    | CloseCall(i: nat)
    | RegisterCall(g: Registration)

  function Do(s: Dev, op: Op): (r: Dev)
    requires |s.queues| == |s.chans|
    ensures |r.queues| == |r.chans|
  {
    match op
    case Engine(ps) => Ticks(s, ps)
    case OneWayCall(dir, r, e) => OneWay(s, dir, r, e).dev
    case TwoWayCall(io, te, re) => TwoWay(s, io, te, re).dev
    case VideoCall(v, ok, e) => ShowVideo(s, v, ok, e)
    case StopCall(id) => Stop(s, id)
    case SignalCall(signal) => SetSignal(s, signal).0
    case MmapCall(m) => Mmap(s, m).0
    case CloseCall(i) => if i < |s.bufs| then Close(s, i) else s
    case RegisterCall(g) => Register(s, g).0
  }

  function Run(s: Dev, ops: seq<Op>): (r: Dev)
    requires |s.queues| == |s.chans|
    ensures |r.queues| == |r.chans|
    decreases |ops|
  {
    if ops == [] then s else Run(Do(s, ops[0]), ops[1..])
  }

  /* ---- Buffers and kernel resources ---- */

  ghost function Mems(bufs: seq<Buffer>): seq<Coherent> {
    seq(|bufs|, i requires 0 <= i < |bufs| => bufs[i].mem)
  }

  ghost function Refs(exts: seq<External>): seq<int> {
    seq(|exts|, i requires 0 <= i < |exts| => exts[i].dmaBuf)
  }

  ghost function Attachments(exts: seq<External>): seq<int> {
    seq(|exts|, i requires 0 <= i < |exts| => exts[i].attach)
  }

  ghost function Tables(exts: seq<External>): seq<int> {
    seq(|exts|, i requires 0 <= i < |exts| => exts[i].table)
  }

  // The driver holds exactly the resources its two lists account for.
  ghost predicate Balanced(s: Dev) {
    && s.kernel.structs == |s.bufs| + |s.exts|
    && s.kernel.coherent == multiset(Mems(s.bufs))
    && s.kernel.refs == multiset(Refs(s.exts))
    && s.kernel.attached == multiset(Attachments(s.exts))
    && s.kernel.mapped == multiset(Tables(s.exts))
  }

  ghost predicate MemOk(s: Dev) {
    GoodRegions(Live(s.bufs, s.exts)) && Balanced(s)
  }

  // A region that the kernel or the exporter may hand out next to rs.
  ghost predicate FreshRegion(rs: seq<Region>, r: Region) {
    && Sane(r)
    && forall i :: 0 <= i < |rs| ==>
         Apart(r.user, r.size, rs[i].user, rs[i].size) && Apart(r.dma, r.size, rs[i].dma, rs[i].size)
  }

  // What the kernel, and the driver's documented callers, guarantee of a step.
  ghost predicate Legal(s: Dev, op: Op) {
    var live := Live(s.bufs, s.exts);
    match op
    case MmapCall(m) => MappingWorks(m) ==>
      m.mem.value.size == m.size && FreshRegion(live, Region(m.user, m.size, m.mem.value.dma))
    case RegisterCall(g) => RegistrationWorks(g) ==> FreshRegion(live, Region(g.user, g.size, g.base))
    case CloseCall(i) => i < |s.bufs|
    case _ => true
  }

  lemma InsertRegion(rs: seq<Region>, k: nat, r: Region)
    requires GoodRegions(rs) && k <= |rs| && FreshRegion(rs, r)
    ensures GoodRegions(rs[..k] + [r] + rs[k..])
  {
  }

  lemma RemoveRegion(rs: seq<Region>, k: nat)
    requires GoodRegions(rs) && k < |rs|
    ensures GoodRegions(rs[..k] + rs[k + 1..])
  {
  }

  lemma LiveAfterMmap(s: Dev, m: Mapping)
    requires MappingWorks(m)
    ensures var live := Live(s.bufs, s.exts);
            Live(Mmap(s, m).0.bufs, s.exts)
            == live[..0] + [Region(m.user, m.mem.value.size, m.mem.value.dma)] + live[0..]
  {
  }

  lemma LiveAfterRegister(s: Dev, g: Registration)
    requires RegistrationWorks(g)
    ensures var live := Live(s.bufs, s.exts);
            Live(s.bufs, Register(s, g).0.exts)
            == live[..|s.bufs|] + [Region(g.user, g.size, g.base)] + live[|s.bufs|..]
  {
  }

  lemma LiveAfterClose(s: Dev, i: nat)
    requires i < |s.bufs|
    ensures var live := Live(s.bufs, s.exts);
            Live(Close(s, i).bufs, s.exts) == live[..i] + live[i + 1..]
  {
  }

  // A mapping that fails at any point leaves the driver as it was, and the call
  // that failed decides the code; one that succeeds adds its region to both
  // accounts.
  lemma MmapMemOk(s: Dev, m: Mapping)
    requires MemOk(s) && Legal(s, MmapCall(m))
    ensures MemOk(Mmap(s, m).0)
    ensures Mmap(s, m).1 == 0 <==> MappingWorks(m)
    ensures Mmap(s, m).1 < 0 ==> Mmap(s, m).0 == s
    ensures !m.allocOk || m.mem.None? ==> Mmap(s, m).1 == -ENOMEM
    ensures m.allocOk && m.mem.Some? && m.remapRc < 0 ==> Mmap(s, m).1 == m.remapRc
  {
    if MappingWorks(m) {
      LiveAfterMmap(s, m);
      InsertRegion(Live(s.bufs, s.exts), 0, Region(m.user, m.size, m.mem.value.dma));
      assert Mems(Mmap(s, m).0.bufs) == [m.mem.value] + Mems(s.bufs);
    }
  }

  lemma RegisterMemOk(s: Dev, g: Registration)
    requires MemOk(s) && Legal(s, RegisterCall(g))
    ensures MemOk(Register(s, g).0)
    ensures Register(s, g).1 == 0 <==> RegistrationWorks(g)
    ensures Register(s, g).1 < 0 ==> Register(s, g).0 == s
    ensures !g.allocOk ==> Register(s, g).1 == -ENOMEM
    ensures g.allocOk && g.dmaBuf.Failed? ==> Register(s, g).1 == 0 - g.dmaBuf.errno
    ensures g.allocOk && g.dmaBuf.Got? && g.attach.Failed? ==> Register(s, g).1 == 0 - g.attach.errno
    ensures g.allocOk && g.dmaBuf.Got? && g.attach.Got? && g.table.Failed? ==>
              Register(s, g).1 == 0 - g.table.errno
    ensures g.allocOk && g.dmaBuf.Got? && g.attach.Got? && g.table.Got? && g.nents != 1 ==>
              Register(s, g).1 == -EINVAL
  {
    if RegistrationWorks(g) {
      LiveAfterRegister(s, g);
      InsertRegion(Live(s.bufs, s.exts), |s.bufs|, Region(g.user, g.size, g.base));
      var exts := Register(s, g).0.exts;
      assert Refs(exts) == [g.dmaBuf.h] + Refs(s.exts);
      assert Attachments(exts) == [g.attach.h] + Attachments(s.exts);
      assert Tables(exts) == [g.table.h] + Tables(s.exts);
    }
  }

  lemma CloseMemOk(s: Dev, i: nat)
    requires MemOk(s) && i < |s.bufs|
    ensures MemOk(Close(s, i))
    ensures Close(s, i).kernel.coherent + multiset{s.bufs[i].mem} == s.kernel.coherent
  {
    LiveAfterClose(s, i);
    RemoveRegion(Live(s.bufs, s.exts), i);
    var ms := Mems(s.bufs);
    assert ms == ms[..i] + [s.bufs[i].mem] + ms[i + 1..];
    assert Mems(Close(s, i).bufs) == ms[..i] + ms[i + 1..];
  }

  /* ---- Transfer calls keep the invariant ---- */

  // Between calls: nothing waits, and no completion is live.
  ghost predicate Between(s: Dev, c: Ctx) {
    Good(s, c) && c.waiter == -1 && s.call == None
  }

  // What a transfer call leaves alone.
  ghost predicate SameMemory(s: Dev, r: Dev) {
    && r.chans == s.chans && r.bufs == s.bufs && r.exts == s.exts && r.kernel == s.kernel
    && r.oops == s.oops && s.log <= r.log
  }

  // Starting a channel whose descriptor was submitted when the history was at
  // least `from` events long, and leaving the call.
  lemma StartAndLeave(m: Dev, c: Ctx, p: nat, t: Transfer, cookie: nat, e: Env, from: nat)
    requires Good(m, c) && p < |m.chans| && c.waiter == (if t.wait then p else -1)
    requires t.wait ==> m.ready
    requires m.queues[p].lastUsed == cookie && from <= |m.log|
    requires Landed(m, p, Desc(cookie, t.dma, t.len, t.id), from)
    ensures var o := Start(m, p, t, cookie, e);
            && Good(Leave(o.dev), c.(waiter := -1)) && SameMemory(m, o.dev) && o.cookie == cookie
            && |m.log| < |o.dev.log| && o.dev.log[|m.log|] == Issued(p) && |o.dev.queues| == |m.queues|
            && (t.wait ==> o.dev.queues[p].descs == []) && (!t.wait ==> o.rc == 0)
            && (t.wait && o.rc >= 0 ==>
                  CompletedSince(o.dev.log, p, Desc(cookie, t.dma, t.len, t.id), from))
  {
    StartGood(m, c, p, t, cookie, e);
    var o := Start(m, p, t, cookie, e);
    if t.wait && o.rc == 0 {
      StartCompletes(m, c, p, t, Desc(cookie, t.dma, t.len, t.id), e, from);
    }
    LeaveGood(o.dev, c);
  }

  // A call that fails or blocks leaves its channel empty. A blocking call that
  // returns 0 has had its own descriptor completed.
  lemma DriveGood(s: Dev, c: Ctx, p: nat, t: Transfer, e: Env)
    requires Between(s, c) && Allowed(s, c.(waiter := if t.wait then p else -1), p, t)
    requires c.clean >= 0 && t.wait ==> !CanComplete(s.queues[p])
    ensures var o := Drive(s, p, t, e);
            && Between(o.dev, c) && SameMemory(s, o.dev)
            && (t.wait || o.rc < 0 ==> o.dev.queues[p].descs == [])
            && (o.rc >= 0 ==>
                  var d := Desc(o.cookie, t.dma, t.len, t.id);
                  && SubmittedSince(o.dev.log, p, d, |s.log|)
                  && (t.wait ==> CompletedSince(o.dev.log, p, d, |s.log|)))
  {
    var s0 := Enter(s, e);
    EnterGood(s, c, e);
    var c' := c.(waiter := if t.wait then p else -1);
    if t.wait {
      WaitGood(s0, c, p);
    }
    PrepGood(s0, c', p, t, e);
    var a := Prep(s0, p, t, e);
    if a.rc < 0 {
      LeaveGood(a.dev, c');
    } else {
      StartAndLeave(a.dev, c', p, t, a.cookie, e, |s.log|);
      SinceGrows(a.dev.log, Start(a.dev, p, t, a.cookie, e).dev.log, p,
                 Desc(a.cookie, t.dma, t.len, t.id), |s.log|);
    }
  }

  // A one-way request that reaches its channel: found, of the right direction,
  // and inside a live buffer.
  predicate Accepted(s: Dev, dir: Dir, r: Request) {
    var p := Lookup(s.chans, r.id);
    p >= 0 && s.chans[p].dir == dir && Translate(Live(s.bufs, s.exts), r.addr, r.len) != 0
  }

  // So many bytes from the translation of the range on lie in a live buffer.
  ghost predicate Stays(s: Dev, addr: nat, len: nat, bytes: nat) {
    var live := Live(s.bufs, s.exts);
    Inside(live, Translate(live, addr, len), bytes)
  }

  // When a one-way call is covered by what is being followed.
  ghost predicate OneWayFits(s: Dev, c: Ctx, dir: Dir, r: Request)
    requires |s.queues| == |s.chans|
  {
    var p := Lookup(s.chans, r.id);
    && (p >= 0 && p == c.watch ==> !r.wait && RightTask(c, r.process))
    && (c.quiet ==> r.wait)
    && (Accepted(s, dir, r) && c.contained ==>
          s.chans[p].kind == DMA && Stays(s, r.addr, r.len, UInt(r.len)))
    && (Accepted(s, dir, r) && c.clean >= 0 && r.wait ==> !CanComplete(s.queues[p]))
  }

  lemma OneWayGood(s: Dev, c: Ctx, dir: Dir, r: Request, e: Env)
    requires Between(s, c) && OneWayFits(s, c, dir, r)
    ensures Between(OneWay(s, dir, r, e).dev, c) && SameMemory(s, OneWay(s, dir, r, e).dev)
  {
    if Accepted(s, dir, r) {
      var p := Lookup(s.chans, r.id);
      var dma := Translate(Live(s.bufs, s.exts), r.addr, r.len);
      DriveGood(s, c, p, OneWayTransfer(s, p, r, dma, e), e);
    }
  }

  // If a video call gets as far as the engine, its frame stays in the first
  // frame buffer.
  ghost predicate VideoFits(s: Dev, v: Video) {
    AllTranslate(s, v) && Lookup(s.chans, v.id) >= 0 && v.frames != [] ==>
      Stays(s, v.frames[0], v.frame.ImageSize(), v.frame.Bytes())
  }

  lemma VideoGood(s: Dev, c: Ctx, v: Video, allocOk: bool, e: Env)
    requires Between(s, c) && !c.quiet && (c.contained ==> VideoFits(s, v))
    requires Lookup(s.chans, v.id) >= 0 && Lookup(s.chans, v.id) == c.watch ==> RightTask(c, v.process)
    ensures var r := ShowVideo(s, v, allocOk, e);
            Between(r, c) && SameMemory(s, r.(oops := s.oops))
            && r.oops == if allocOk && VideoFaults(s, v, e) then s.oops + 1 else s.oops
  {
    var p := Lookup(s.chans, v.id);
    if allocOk && AllTranslate(s, v) {
      if p < 0 {
        FaultGood(s, c);
      } else if v.frames == [] {
        NothingToShow(s, c, p, v, e);
      } else {
        DriveGood(s, c, p, VideoTransfer(s, v), e);
      }
    }
  }

  // The calls that make the kernel follow a null or invalid pointer.
  ghost predicate VideoFaults(s: Dev, v: Video, e: Env) {
    AllTranslate(s, v) && (Lookup(s.chans, v.id) < 0 || (v.frames == [] && e.configRc >= 0))
  }

  lemma FaultGood(s: Dev, c: Ctx)
    requires Good(s, c)
    ensures Good(Fault(s), c)
  {
    forall x | 0 <= x < |s.chans| ensures ChanOk(Fault(s), c, x) {
      assert ChanOk(s, c, x);
    }
  }

  // A video call on an existing channel without frame buffers.
  lemma NothingToShow(s: Dev, c: Ctx, p: nat, v: Video, e: Env)
    requires Between(s, c) && p < |s.chans|
    ensures var s0 := Ticks(Enter(s, e), e.At(0));
            var r := if e.configRc >= 0 then Fault(Leave(s0)) else Leave(TerminateAll(s0, p));
            Between(r, c) && SameMemory(s, r.(oops := s.oops))
            && r.oops == if e.configRc >= 0 then s.oops + 1 else s.oops
  {
    EnterGood(s, c, e);
    TicksGood(Enter(s, e), e.At(0), c);
    var s0 := Ticks(Enter(s, e), e.At(0));
    LeaveGood(s0, c);
    FaultGood(Leave(s0), c);
    TerminateGood(s0, c, p);
    LeaveGood(TerminateAll(s0, p), c);
  }

  /* ---- Two-way calls ---- */

  predicate TwoWayAccepted(s: Dev, r: Inout) {
    var tx, rx := Lookup(s.chans, r.txId), Lookup(s.chans, r.rxId);
    && tx >= 0 && s.chans[tx].dir == Write && rx >= 0 && s.chans[rx].dir == Read
    && Translate(Live(s.bufs, s.exts), r.txAddr, r.txLen) != 0
    && Translate(Live(s.bufs, s.exts), r.rxAddr, r.rxLen) != 0
  }

  // What the engine is asked for on either channel stays in the buffer it starts
  // in. The receive frame is uninitialised unless the transmit channel is VDMA.
  ghost predicate PairFits(s: Dev, r: Inout) {
    var tx, rx := Lookup(s.chans, r.txId), Lookup(s.chans, r.rxId);
    TwoWayAccepted(s, r) ==>
      && Stays(s, r.txAddr, r.txLen, Extent(s.chans[tx].kind, r.txLen, r.txFrame))
      && Stays(s, r.rxAddr, r.rxLen, Extent(s.chans[rx].kind, r.rxLen, r.rxFrame))
      && (s.chans[rx].kind == VDMA ==> s.chans[tx].kind == VDMA)
  }

  // When a two-way call is covered by what is being followed.
  ghost predicate TwoWayFits(s: Dev, c: Ctx, r: Inout)
    requires |s.queues| == |s.chans|
  {
    var tx, rx := Lookup(s.chans, r.txId), Lookup(s.chans, r.rxId);
    && !c.quiet
    && (rx >= 0 && rx == c.watch ==> !r.wait && RightTask(c, r.process))
    && (tx >= 0 && tx == c.watch ==> RightTask(c, r.process))
    && (c.contained ==> PairFits(s, r))
    && (TwoWayAccepted(s, r) && c.clean >= 0 && r.wait ==> !CanComplete(s.queues[rx]))
  }

  lemma TwoWayAllowed(s: Dev, c: Ctx, r: Inout, re: Env)
    requires Between(s, c)
    requires TwoWayAccepted(s, r) && TwoWayFits(s, c, r)
    ensures var tx, rx := Lookup(s.chans, r.txId), Lookup(s.chans, r.rxId);
            var live := Live(s.bufs, s.exts);
            && tx != rx
            && Allowed(s, c, tx, TxTransfer(s, tx, r, Translate(live, r.txAddr, r.txLen)))
            && Allowed(s, c.(waiter := if r.wait then rx else -1), rx,
                       RxTransfer(s, tx, rx, r, Translate(live, r.rxAddr, r.rxLen), re))
  {
  }

  ghost predicate IssuedSince(log: seq<Event>, p: nat, from: nat) {
    exists i :: from <= i < |log| && log[i] == Issued(p)
  }

  // Whenever channel tx is issued, something had been submitted on rx before.
  ghost predicate RxFirst(log: seq<Event>, tx: nat, rx: nat, from: nat) {
    forall i :: from <= i < |log| && log[i] == Issued(tx) ==>
      exists j :: from <= j < i && log[j].Submitted? && log[j].p == rx
  }

  lemma RxFirstHolds(log: seq<Event>, mid: nat, tx: nat, rx: nat, d: Desc, from: nat)
    requires from <= mid <= |log| && tx != rx
    requires SubmittedSince(log[..mid], rx, d, from)
    requires forall i :: from <= i < mid ==> !log[i].Issued?
    ensures RxFirst(log, tx, rx, from)
  {
    var j :| from <= j < |log[..mid]| && log[..mid][j] == Submitted(rx, d);
    assert log[j].Submitted? && log[j].p == rx;
  }

  // What a two-way call that got past its argument checks guarantees.
  ghost predicate PairDone(s: Dev, o: Outcome, tx: nat, rx: nat, rt: Transfer) {
    && RxFirst(o.dev.log, tx, rx, |s.log|)
    && (o.rc >= 0 ==>
          var d := Desc(o.cookie, rt.dma, rt.len, rt.id);
          && IssuedSince(o.dev.log, tx, |s.log|) && IssuedSince(o.dev.log, rx, |s.log|)
          && SubmittedSince(o.dev.log, rx, d, |s.log|)
          && (rt.wait ==> CompletedSince(o.dev.log, rx, d, |s.log|)
                          && rx < |o.dev.queues| && o.dev.queues[rx].descs == []))
  }

  lemma PairGood(s: Dev, c: Ctx, tx: nat, tt: Transfer, te: Env, rx: nat, rt: Transfer, re: Env)
    requires Good(s, c) && c.waiter == -1 && s.call.Some? && tx != rx && !tt.wait
    requires Allowed(s, c, tx, tt) && Allowed(s, c.(waiter := if rt.wait then rx else -1), rx, rt)
    requires c.clean >= 0 && rt.wait ==> !CanComplete(s.queues[rx])
    ensures var o := TwoWayPair(s, tx, tt, te, rx, rt, re);
            && Good(Leave(o.dev), c) && SameMemory(s, o.dev)
            && PairDone(s, o, tx, rx, rt)
  {
    PrepGood(s, c, tx, tt, te);
    var a := Prep(s, tx, tt, te);
    if a.rc < 0 {
      LeaveGood(a.dev, c);
    } else {
      var c' := c.(waiter := if rt.wait then rx else -1);
      if rt.wait {
        StaysEarly(s, a.dev, c, rx);
        WaitGood(a.dev, c, rx);
      }
      PrepGood(a.dev, c', rx, rt, re);
      var b := Prep(a.dev, rx, rt, re);
      OnwardTwice(s, a.dev, b.dev);
      if b.rc < 0 {
        LeaveGood(b.dev, c');
      } else {
        PairStarts(s, a, b, c', tx, tt, te, rx, rt, re);
      }
    }
  }

  // A channel with nothing issued still has nothing issued.
  lemma StaysEarly(s: Dev, r: Dev, c: Ctx, p: nat)
    requires Good(s, c) && p < |s.chans| && NothingIssued(s, r)
    ensures !CanComplete(s.queues[p]) ==> !CanComplete(r.queues[p])
  {
    assert ChanOk(s, c, p);
  }

  // Both transfers are prepared: b is the state, a.cookie and b.cookie theirs.
  lemma PairStarts(s: Dev, a: Outcome, b: Outcome, c: Ctx, tx: nat, tt: Transfer, te: Env,
                   rx: nat, rt: Transfer, re: Env)
    requires Good(b.dev, c) && c.waiter == (if rt.wait then rx else -1)
    requires tx != rx && !tt.wait && tx < |s.chans| && rx < |s.chans| && (rt.wait ==> b.dev.ready)
    requires Onward(s, a.dev) && Onward(a.dev, b.dev) && Onward(s, b.dev)
    requires forall i :: |s.log| <= i < |a.dev.log| ==> !a.dev.log[i].Issued?
    requires PrepDone(a.dev, b.dev, rx, rt, b.cookie)
    ensures var o := Start(Start(b.dev, tx, tt, a.cookie, te).dev, rx, rt, b.cookie, re);
            && Start(b.dev, tx, tt, a.cookie, te).rc >= 0
            && Good(Leave(o.dev), c.(waiter := -1)) && SameMemory(s, o.dev)
            && PairDone(s, o, tx, rx, rt)
  {
    var d := Desc(b.cookie, rt.dma, rt.len, rt.id);
    StartGood(b.dev, c, tx, tt, a.cookie, te);
    var m := Start(b.dev, tx, tt, a.cookie, te).dev;
    StartElsewhere(b.dev, tx, tt, a.cookie, te, rx, d, |s.log|);
    StartAndLeave(m, c, rx, rt, b.cookie, re, |s.log|);
    var o := Start(m, rx, rt, b.cookie, re).dev;
    PairLog(s.log, b.dev.log, m.log, o.log, tx, rx, d);
  }

  // The order of events in the history of the two starts.
  lemma PairLog(s: seq<Event>, b: seq<Event>, m: seq<Event>, o: seq<Event>, tx: nat, rx: nat, d: Desc)
    requires s <= b && b < m && m < o && tx != rx
    requires SubmittedSince(b, rx, d, |s|)
    requires forall i :: |s| <= i < |b| ==> !b[i].Issued?
    requires m[|b|] == Issued(tx) && o[|m|] == Issued(rx)
    ensures RxFirst(o, tx, rx, |s|)
    ensures IssuedSince(o, tx, |s|) && IssuedSince(o, rx, |s|) && SubmittedSince(o, rx, d, |s|)
  {
    SinceGrows(b, o, rx, d, |s|);
    assert b == o[..|b|];
    RxFirstHolds(o, |b|, tx, rx, d, |s|);
    assert o[|b|] == m[|b|];
  }

  lemma TwoWayGood(s: Dev, c: Ctx, r: Inout, te: Env, re: Env)
    requires Between(s, c) && TwoWayFits(s, c, r)
    ensures var o := TwoWay(s, r, te, re);
            && Between(o.dev, c) && SameMemory(s, o.dev)
            && (!TwoWayAccepted(s, r) ==> o.dev == s && o.rc < 0)
            && (TwoWayAccepted(s, r) ==>
                  var tx, rx := Lookup(s.chans, r.txId), Lookup(s.chans, r.rxId);
                  tx != rx && r.txId != r.rxId
                  && PairDone(s, o, tx, rx, RxTransfer(s, tx, rx, r,
                                                       Translate(Live(s.bufs, s.exts), r.rxAddr, r.rxLen), re)))
  {
    if TwoWayAccepted(s, r) {
      var live := Live(s.bufs, s.exts);
      var tx, rx := Lookup(s.chans, r.txId), Lookup(s.chans, r.rxId);
      TwoWayAllowed(s, c, r, re);
      EnterGood(s, c, re);
      PairGood(Enter(s, re), c, tx, TxTransfer(s, tx, r, Translate(live, r.txAddr, r.txLen)), te,
               rx, RxTransfer(s, tx, rx, r, Translate(live, r.rxAddr, r.rxLen), re), re);
    }
  }

  /* ---- Buffer steps keep the invariant ---- */

  function BufRegion(b: Buffer): Region {
    Region(b.user, b.mem.size, b.mem.dma)
  }

  // No outstanding descriptor lies in the i-th mapped buffer.
  ghost predicate Unused(s: Dev, i: nat)
    requires i < |s.bufs|
  {
    forall p, k :: 0 <= p < |s.queues| && 0 <= k < |s.queues[p].descs| ==>
      !Within(BufRegion(s.bufs[i]), s.queues[p].descs[k].dma, s.queues[p].descs[k].len)
  }

  lemma InsideInserted(rs: seq<Region>, k: nat, r: Region, dma: int, len: int)
    requires k <= |rs| && Inside(rs, dma, len)
    ensures Inside(rs[..k] + [r] + rs[k..], dma, len)
  {
    var i :| 0 <= i < |rs| && Within(rs[i], dma, len);
    assert (rs[..k] + [r] + rs[k..])[if i < k then i else i + 1] == rs[i];
  }

  lemma InsideRemoved(rs: seq<Region>, k: nat, dma: int, len: int)
    requires k < |rs| && Inside(rs, dma, len) && !Within(rs[k], dma, len)
    ensures Inside(rs[..k] + rs[k + 1..], dma, len)
  {
    var i :| 0 <= i < |rs| && Within(rs[i], dma, len);
    assert (rs[..k] + rs[k + 1..])[if i < k then i else i - 1] == rs[i];
  }

  // r differs from s in its buffers only, and every outstanding descriptor is
  // still inside one.
  lemma BuffersGood(s: Dev, r: Dev, c: Ctx)
    requires Between(s, c)
    requires r == s.(bufs := r.bufs, exts := r.exts, kernel := r.kernel)
    requires c.contained ==>
      forall p, k :: 0 <= p < |s.queues| && 0 <= k < |s.queues[p].descs| ==>
        Inside(Live(r.bufs, r.exts), s.queues[p].descs[k].dma, s.queues[p].descs[k].len)
    ensures Between(r, c)
  {
    forall x | 0 <= x < |s.chans| ensures ChanOk(r, c, x) {
      assert ChanOk(s, c, x);
    }
  }

  lemma GrowGood(s: Dev, r: Dev, c: Ctx, k: nat, x: Region)
    requires Between(s, c) && k <= |Live(s.bufs, s.exts)|
    requires r == s.(bufs := r.bufs, exts := r.exts, kernel := r.kernel)
    requires Live(r.bufs, r.exts) == Live(s.bufs, s.exts)[..k] + [x] + Live(s.bufs, s.exts)[k..]
    ensures Between(r, c)
  {
    if c.contained {
      forall p, j | 0 <= p < |s.queues| && 0 <= j < |s.queues[p].descs|
        ensures Inside(Live(r.bufs, r.exts), s.queues[p].descs[j].dma, s.queues[p].descs[j].len)
      {
        assert ChanOk(s, c, p);
        InsideInserted(Live(s.bufs, s.exts), k, x, s.queues[p].descs[j].dma, s.queues[p].descs[j].len);
      }
    }
    BuffersGood(s, r, c);
  }

  lemma CloseGood(s: Dev, c: Ctx, i: nat)
    requires Between(s, c) && i < |s.bufs| && (c.contained ==> Unused(s, i))
    ensures Between(Close(s, i), c)
  {
    LiveAfterClose(s, i);
    if c.contained {
      forall p, j | 0 <= p < |s.queues| && 0 <= j < |s.queues[p].descs|
        ensures Inside(Live(Close(s, i).bufs, s.exts), s.queues[p].descs[j].dma, s.queues[p].descs[j].len)
      {
        assert ChanOk(s, c, p);
        InsideRemoved(Live(s.bufs, s.exts), i, s.queues[p].descs[j].dma, s.queues[p].descs[j].len);
      }
    }
    BuffersGood(s, Close(s, i), c);
  }

  /* ---- Runs ---- */

  // When a step is covered by what is being followed.
  ghost predicate Fits(s: Dev, c: Ctx, op: Op)
    requires |s.queues| == |s.chans|
  {
    match op
    case OneWayCall(dir, r, _) => OneWayFits(s, c, dir, r)
    case TwoWayCall(io, _, _) => TwoWayFits(s, c, io)
    case VideoCall(v, _, _) =>
      && !c.quiet && (c.contained ==> VideoFits(s, v))
      && (Lookup(s.chans, v.id) >= 0 && Lookup(s.chans, v.id) == c.watch ==> RightTask(c, v.process))
    case SignalCall(signal) => c.number >= 0 && ValidSignal(signal) ==> signal == c.number
    case CloseCall(i) => i < |s.bufs| && (c.contained ==> Unused(s, i))
    case _ => true
  }

  // The steps that make the kernel follow a null or invalid pointer.
  ghost predicate Faults(s: Dev, op: Op) {
    match op
    case VideoCall(v, allocOk, e) => allocOk && VideoFaults(s, v, e)
    case StopCall(id) => Lookup(s.chans, id) < 0
    case _ => false
  }

  lemma DoGood(s: Dev, c: Ctx, op: Op)
    requires Between(s, c) && MemOk(s) && Legal(s, op) && Fits(s, c, op)
    ensures Between(Do(s, op), c) && MemOk(Do(s, op)) && s.log <= Do(s, op).log
    ensures Do(s, op).chans == s.chans
    ensures Do(s, op).oops == if Faults(s, op) then s.oops + 1 else s.oops
  {
    match op
    case Engine(ps) => TicksGood(s, ps, c);
    case OneWayCall(dir, r, e) => OneWayGood(s, c, dir, r, e);
    case TwoWayCall(io, te, re) => TwoWayGood(s, c, io, te, re);
    case VideoCall(v, ok, e) => VideoGood(s, c, v, ok, e);
    case StopCall(id) => StopGood(s, c, id);
    case SignalCall(signal) => SignalGood(s, c, signal);
    case MmapCall(m) => MmapMemOk(s, m); MmapGood(s, c, m);
    case CloseCall(i) => CloseMemOk(s, i); CloseGood(s, c, i);
    case RegisterCall(g) => RegisterMemOk(s, g); RegisterGood(s, c, g);
  }

  lemma StopGood(s: Dev, c: Ctx, id: int)
    requires Between(s, c)
    ensures Between(Stop(s, id), c) && SameMemory(s, Stop(s, id).(oops := s.oops))
    ensures Stop(s, id).oops == if Lookup(s.chans, id) < 0 then s.oops + 1 else s.oops
  {
    if Lookup(s.chans, id) < 0 {
      FaultGood(s, c);
    } else {
      TerminateGood(s, c, Lookup(s.chans, id));
    }
  }

  lemma MmapGood(s: Dev, c: Ctx, m: Mapping)
    requires Between(s, c) && Legal(s, MmapCall(m))
    ensures Between(Mmap(s, m).0, c)
  {
    if MappingWorks(m) {
      LiveAfterMmap(s, m);
      GrowGood(s, Mmap(s, m).0, c, 0, Region(m.user, m.size, m.mem.value.dma));
    }
  }

  lemma RegisterGood(s: Dev, c: Ctx, g: Registration)
    requires Between(s, c)
    ensures Between(Register(s, g).0, c)
  {
    if RegistrationWorks(g) {
      LiveAfterRegister(s, g);
      GrowGood(s, Register(s, g).0, c, |s.bufs|, Region(g.user, g.size, g.base));
    }
  }

  lemma SignalGood(s: Dev, c: Ctx, signal: int)
    requires Between(s, c) && (c.number >= 0 && ValidSignal(signal) ==> signal == c.number)
    ensures Between(SetSignal(s, signal).0, c)
  {
    forall x | 0 <= x < |s.chans| ensures ChanOk(SetSignal(s, signal).0, c, x) {
      assert ChanOk(s, c, x);
    }
  }

  // Every step of the run is legal and covered, in the state it is taken in.
  ghost predicate Covered(s: Dev, c: Ctx, ops: seq<Op>)
    requires |s.queues| == |s.chans|
    decreases |ops|
  {
    ops == [] || (Legal(s, ops[0]) && Fits(s, c, ops[0]) && Covered(Do(s, ops[0]), c, ops[1..]))
  }

  lemma {:induction false} RunGood(s: Dev, c: Ctx, ops: seq<Op>)
    requires Between(s, c) && MemOk(s) && Covered(s, c, ops)
    ensures Between(Run(s, ops), c) && MemOk(Run(s, ops)) && s.log <= Run(s, ops).log
    ensures Run(s, ops).chans == s.chans
    decreases |ops|
  {
    if ops != [] {
      DoGood(s, c, ops[0]);
      RunGood(Do(s, ops[0]), c, ops[1..]);
    }
  }

  // A driver that has just been probed: callback slots and the signal number
  // are uninitialised memory, everything else is empty.
  ghost predicate Probed(s: Dev) {
    && Table(s)
    && (forall p :: 0 <= p < |s.queues| ==> s.queues[p] == NEW_QUEUE)
    && s.bufs == [] && s.exts == []
    && s.kernel == Kernel(0, multiset{}, multiset{}, multiset{}, multiset{})
    && s.call == None && s.oops == 0 && s.log == []
  }

  lemma ProbedGood(s: Dev, c: Ctx)
    requires Probed(s) && c.waiter == -1 && (c.watch >= 0 ==> RightSignal(c, s.notify))
    ensures Between(s, c) && MemOk(s)
  {
    forall x | 0 <= x < |s.chans| ensures ChanOk(s, c, x) {
      assert s.queues[x] == NEW_QUEUE;
    }
  }
}
