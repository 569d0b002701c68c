// The driver as it is written: one device object whose lists, callback table
// and queues are updated in place. Every method is proved to do what DriverSpec
// says; what that guarantees over whole runs is proved in DriverTheorems.
module Driver {
  import opened Types
  import opened Regions
  import opened DmaEngine
  import S = DriverSpec
  import I = DriverInvariant
  import R = DriverRuns
  import T = DriverTheorems

  lemma AddThenRemove<X>(m: multiset<X>, x: X)
    ensures m + multiset{x} - multiset{x} == m
  {
  }

  class AxidmaDevice {
    const channels: seq<Chan>
    const cbData: array<S.Slot>
    const queues: array<Queue>
    var notifySignal: int
    var dmabufList: seq<S.Buffer>
    var externalDmabufs: seq<S.External>
    var kernel: S.Kernel
    var call: Option<nat>
    var ready: bool
    var woken: nat
    var calls: nat
    var oops: nat
    ghost var log: seq<S.Event>

    // One queue and one callback slot per channel, indexed by position and id;
    // every outstanding descriptor has a slot of the table.
    ghost predicate Valid()
      reads queues
    {
      && cbData.Length == queues.Length == |channels|
      && UniqueIds(channels) && IdsInRange(channels)
      && forall p :: 0 <= p < queues.Length ==> SlotsInTable(queues[p])
    }

    ghost predicate SlotsInTable(q: Queue) {
      forall k :: 0 <= k < |q.descs| ==> 0 <= q.descs[k].slot < cbData.Length
    }

    // A freshly probed device; kmalloc leaves the callback slots and the signal
    // number as they were.
    constructor (chans: seq<Chan>, junk: S.Slot, junkSignal: int)
      requires UniqueIds(chans) && IdsInRange(chans)
      ensures Valid() && fresh(cbData) && fresh(queues)
      ensures Abs().chans == chans && R.Probed(Abs())
    {
      channels := chans;
      cbData := new S.Slot[|chans|](_ => junk);
      queues := new Queue[|chans|](_ => NEW_QUEUE);
      notifySignal, dmabufList, externalDmabufs := junkSignal, [], [];
      kernel := S.Kernel(0, multiset{}, multiset{}, multiset{}, multiset{});
      call, ready, woken, calls, oops, log := None, false, 0, 0, 0, [];
    }

    ghost function Abs(): S.Dev
      reads this, cbData, queues
    {
      S.Dev(channels, cbData[..], queues[..], notifySignal, dmabufList, externalDmabufs, kernel,
            call, ready, woken, calls, oops, log)
    }

    /* ---- The engine ---- */

    method DmaCallback(slot: int)
      requires Valid() && 0 <= slot < cbData.Length
      modifies this
      ensures Abs() == S.Callback(old(Abs()), slot)
    {
      var cb := cbData[slot];
      if cb.comp.Some? {
        if call == cb.comp {
          woken := woken + 1;
          log := log + [if ready then S.Woke(cb.comp.value) else S.WokeUninit(cb.comp.value)];
        } else {
          log := log + [S.Stray(cb.comp.value)];
        }
      } else if S.ValidSignal(cb.notifySignal) {
        log := log + [S.Signalled(cb.notifySignal, cb.channelId, cb.process)];
      }
    }

    method Tick(p: nat)
      requires Valid()
      modifies this, queues
      ensures Valid() && Abs() == S.Tick(old(Abs()), p)
    {
      if p < queues.Length && CanComplete(queues[p]) {
        var d := queues[p].descs[0];
        queues[p] := Complete(queues[p]);
        log := log + [S.Completed(p, d, Inside(S.Live(dmabufList, externalDmabufs), d.dma, d.len))];
        DmaCallback(d.slot);
      }
    }

    method Ticks(ps: seq<nat>)
      requires Valid()
      modifies this, queues
      ensures Valid() && Abs() == S.Ticks(old(Abs()), ps)
    {
      var i := 0;
      while i < |ps|
        invariant i <= |ps| && Valid()
        invariant S.Ticks(old(Abs()), ps) == S.Ticks(Abs(), ps[i..])
      {
        assert ps[i..][1..] == ps[i + 1..];
        Tick(ps[i]);
        i := i + 1;
      }
    }

    method TerminateAll(p: nat)
      requires Valid() && p < queues.Length
      modifies this`log, queues
      ensures Valid() && Abs() == S.TerminateAll(old(Abs()), p)
    {
      queues[p] := Terminate(queues[p]);
      log := log + [S.Terminated(p)];
    }

    method IssuePending(p: nat)
      requires Valid() && p < queues.Length
      modifies this`log, queues
      ensures Valid() && Abs() == S.IssuePending(old(Abs()), p)
    {
      queues[p] := Issue(queues[p]);
      log := log + [S.Issued(p)];
    }

    method SubmitDesc(p: nat, t: S.Transfer) returns (cookie: nat)
      requires Valid() && p < queues.Length && 0 <= t.id < cbData.Length
      modifies this`log, queues
      ensures Valid()
      ensures var s := old(Abs());
              var q := Submit(s.queues[p], t.dma, t.len, t.id);
              var d := q.descs[|q.descs| - 1];
              Abs() == s.(queues := s.queues[p := q], log := s.log + [S.Submitted(p, d)]) && cookie == d.cookie
    {
      queues[p] := Submit(queues[p], t.dma, t.len, t.id);
      cookie := queues[p].lastUsed;
      log := log + [S.Submitted(p, Desc(cookie, t.dma, t.len, t.id))];
    }

    /* ---- Helpers ---- */

    method GetChan(channelId: int) returns (p: int)
      ensures p == Lookup(channels, channelId)
    {
      for i := 0 to |channels|
        invariant forall j :: 0 <= j < i ==> channels[j].id != channelId
      {
        if channels[i].id == channelId {
          return i;
        }
      }
      return -1;
    }

    // Both lists are searched, in this order, for a buffer that holds the range.
    method UservirtToDma(userAddr: nat, size: nat) returns (dma: nat)
      ensures dma == Translate(S.Live(dmabufList, externalDmabufs), userAddr, size)
    {
      ghost var live := S.Live(dmabufList, externalDmabufs);
      for i := 0 to |dmabufList|
        invariant Translate(live, userAddr, size) == Translate(live[i..], userAddr, size)
      {
        var alloc := dmabufList[i];
        assert live[i..][0] == live[i] && live[i..][1..] == live[i + 1..];
        if alloc.user <= userAddr && SizeT(userAddr + size) <= SizeT(alloc.user + alloc.mem.size) {
          return SizeT(alloc.mem.dma + (userAddr - alloc.user));
        }
      }
      var n := |dmabufList|;
      for i := 0 to |externalDmabufs|
        invariant Translate(live, userAddr, size) == Translate(live[n + i..], userAddr, size)
      {
        var alloc := externalDmabufs[i];
        assert live[n + i..][0] == live[n + i] && live[n + i..][1..] == live[n + i + 1..];
        if alloc.user <= userAddr && SizeT(userAddr + size) <= SizeT(alloc.user + alloc.size) {
          return SizeT(alloc.base + (userAddr - alloc.user));
        }
      }
      return 0;
    }

    method SetSlot(i: int, cb: S.Slot)
      requires Valid() && 0 <= i < cbData.Length
      modifies cbData
      ensures Valid() && Abs() == S.SetSlot(old(Abs()), i, cb)
    {
      cbData[i] := cb;
    }

    /* ---- Transfers ---- */

    method FillFields(t: S.Transfer, e: S.Env)
      requires Valid() && 0 <= t.id < cbData.Length
      modifies this, cbData, queues
      ensures Valid() && Abs() == S.FillFields(old(Abs()), t, e)
    {
      SetSlot(t.id, cbData[t.id].(channelId := t.id));
      Ticks(e.At(1));
      SetSlot(t.id, cbData[t.id].(comp := if t.wait then call else None));
      Ticks(e.At(2));
      SetSlot(t.id, cbData[t.id].(notifySignal := if t.wait then -1 else t.notify));
      Ticks(e.At(3));
      SetSlot(t.id, cbData[t.id].(process := if t.wait then 0 else t.process));
      Ticks(e.At(4));
    }

    method FillSlot(t: S.Transfer, e: S.Env)
      requires Valid() && 0 <= t.id < cbData.Length
      modifies this, cbData, queues
      ensures Valid() && Abs() == S.FillSlot(old(Abs()), t, e)
    {
      FillFields(t, e);
      if t.wait {
        woken, ready := 0, true;
      }
      Ticks(e.At(5));
    }

    method PrepTransfer(p: nat, t: S.Transfer, e: S.Env) returns (rc: int, cookie: nat)
      requires Valid() && p < queues.Length && 0 <= t.id < cbData.Length
      modifies this, cbData, queues
      ensures Valid() && S.Outcome(Abs(), rc, cookie) == S.Prep(old(Abs()), p, t, e)
    {
      cookie := 0;
      Ticks(e.At(0));
      if t.kind == VDMA && e.configRc < 0 {
        TerminateAll(p);
        return e.configRc, 0;
      }
      if !e.descOk {
        TerminateAll(p);
        return -EBUSY, 0;
      }
      FillSlot(t, e);
      if !e.submitOk {
        TerminateAll(p);
        return -EBUSY, 0;
      }
      cookie := SubmitDesc(p, t);
      Ticks(e.At(6));
      rc := 0;
    }

    method StartTransfer(p: nat, t: S.Transfer, cookie: nat, e: S.Env) returns (rc: int)
      requires Valid() && p < queues.Length
      modifies this, queues
      ensures Valid() && S.Outcome(Abs(), rc, cookie) == S.Start(old(Abs()), p, t, cookie, e)
    {
      IssuePending(p);
      Ticks(e.At(7));
      if t.wait {
        var timeRemains := woken > 0;
        Ticks(e.At(8));
        var complete := IsComplete(queues[p], cookie);
        Ticks(e.At(9));
        if !timeRemains {
          TerminateAll(p);
          return -ETIME;
        } else if !complete {
          TerminateAll(p);
          return -EBUSY;
        }
      }
      return 0;
    }

    method EnterCall(junk: nat)
      requires Valid()
      modifies this
      ensures Valid() && call == Some(old(calls)) && !ready && calls == old(calls) + 1 && woken == junk
      ensures Abs() == old(Abs()).(call := call, ready := ready, calls := calls, woken := woken)
    {
      call, ready, calls, woken := Some(calls), false, calls + 1, junk;
    }

    // Prepare, then start if that worked.
    method DriveTransfer(p: nat, t: S.Transfer, e: S.Env) returns (rc: int, cookie: nat)
      requires Valid() && p < queues.Length && 0 <= t.id < cbData.Length
      modifies this, cbData, queues
      ensures Valid() && S.Outcome(Abs(), rc, cookie) == S.Drive(old(Abs()), p, t, e)
    {
      EnterCall(e.junk);
      rc, cookie := PrepTransfer(p, t, e);
      if rc >= 0 {
        rc := StartTransfer(p, t, cookie, e);
      }
      call := None;
    }

    method OneWayTransfer(dir: Dir, r: S.Request, e: S.Env) returns (rc: int, cookie: nat)
      requires Valid()
      modifies this, cbData, queues
      ensures Valid() && S.Outcome(Abs(), rc, cookie) == S.OneWay(old(Abs()), dir, r, e)
    {
      cookie := 0;
      var p := GetChan(r.id);
      if p < 0 || channels[p].dir != dir {
        return -ENODEV, 0;
      }
      var dma := UservirtToDma(r.addr, r.len);
      if dma == 0 {
        return -EFAULT, 0;
      }
      var kind := channels[p].kind;
      var t := S.Transfer(r.wait, kind, dma, S.Extent(kind, r.len, e.junkFrame), r.id,
                          notifySignal, r.process);
      rc, cookie := DriveTransfer(p, t, e);
    }

    method ReadTransfer(r: S.Request, e: S.Env) returns (rc: int, cookie: nat)
      requires Valid()
      modifies this, cbData, queues
      ensures Valid() && S.Outcome(Abs(), rc, cookie) == S.OneWay(old(Abs()), Read, r, e)
    {
      rc, cookie := OneWayTransfer(Read, r, e);
    }

    method WriteTransfer(r: S.Request, e: S.Env) returns (rc: int, cookie: nat)
      requires Valid()
      modifies this, cbData, queues
      ensures Valid() && S.Outcome(Abs(), rc, cookie) == S.OneWay(old(Abs()), Write, r, e)
    {
      rc, cookie := OneWayTransfer(Write, r, e);
    }

    method RwTransfer(r: S.Inout, te: S.Env, re: S.Env) returns (rc: int, cookie: nat)
      requires Valid()
      modifies this, cbData, queues
      ensures Valid() && S.Outcome(Abs(), rc, cookie) == S.TwoWay(old(Abs()), r, te, re)
    {
      cookie := 0;
      var tx := GetChan(r.txId);
      if tx < 0 || channels[tx].dir != Write {
        return -ENODEV, 0;
      }
      var rx := GetChan(r.rxId);
      if rx < 0 || channels[rx].dir != Read {
        return -ENODEV, 0;
      }
      var txDma := UservirtToDma(r.txAddr, r.txLen);
      if txDma == 0 {
        return -EFAULT, 0;
      }
      var rxDma := UservirtToDma(r.rxAddr, r.rxLen);
      if rxDma == 0 {
        return -EFAULT, 0;
      }
      var tt := S.Transfer(false, channels[tx].kind, txDma, S.Extent(channels[tx].kind, r.txLen, r.txFrame),
                           r.txId, notifySignal, r.process);
      var rxFrame := if channels[tx].kind == VDMA then r.rxFrame else re.junkFrame;
      var rt := S.Transfer(r.wait, channels[rx].kind, rxDma, S.Extent(channels[rx].kind, r.rxLen, rxFrame),
                           r.rxId, notifySignal, r.process);
      rc, cookie := RwDrive(tx, tt, te, rx, rt, re);
    }

    method RwDrive(tx: nat, tt: S.Transfer, te: S.Env, rx: nat, rt: S.Transfer, re: S.Env)
      returns (rc: int, cookie: nat)
      requires Valid() && tx < queues.Length && rx < queues.Length
      requires 0 <= tt.id < cbData.Length && 0 <= rt.id < cbData.Length
      modifies this, cbData, queues
      ensures var o := S.TwoWayPair(S.Enter(old(Abs()), re), tx, tt, te, rx, rt, re);
              Valid() && S.Outcome(Abs(), rc, cookie) == o.(dev := S.Leave(o.dev))
    {
      EnterCall(re.junk);
      rc, cookie := RwPair(tx, tt, te, rx, rt, re);
      call := None;
    }

    method RwPair(tx: nat, tt: S.Transfer, te: S.Env, rx: nat, rt: S.Transfer, re: S.Env)
      returns (rc: int, cookie: nat)
      requires Valid() && tx < queues.Length && rx < queues.Length
      requires 0 <= tt.id < cbData.Length && 0 <= rt.id < cbData.Length
      modifies this, cbData, queues
      ensures Valid() && S.Outcome(Abs(), rc, cookie) == S.TwoWayPair(old(Abs()), tx, tt, te, rx, rt, re)
    {
      rc, cookie := PrepTransfer(tx, tt, te);
      if rc < 0 {
        return;
      }
      var txCookie := cookie;
      rc, cookie := PrepTransfer(rx, rt, re);
      if rc < 0 {
        return;
      }
      rc := StartTransfer(tx, tt, txCookie, te);
      if rc < 0 {
        return rc, txCookie;
      }
      rc := StartTransfer(rx, rt, cookie, re);
    }

    method VideoTransfer(v: S.Video, allocOk: bool, e: S.Env) returns (rc: int)
      requires Valid()
      modifies this, cbData, queues
      ensures Valid() && Abs() == S.ShowVideo(old(Abs()), v, allocOk, e) && rc == 0
    {
      rc := 0;
      if !allocOk {
        return;
      }
      var imageSize := v.frame.ImageSize();
      var first := 0;
      for i := 0 to |v.frames|
        invariant Abs() == old(Abs()) && Valid()
        invariant forall j :: 0 <= j < i ==>
          Translate(S.Live(dmabufList, externalDmabufs), v.frames[j], imageSize) != 0
        invariant i > 0 ==>
          first == Translate(S.Live(dmabufList, externalDmabufs), v.frames[0], imageSize)
      {
        var dma := UservirtToDma(v.frames[i], imageSize);
        if dma == 0 {
          return;
        }
        if i == 0 {
          first := dma;
        }
      }
      var p := GetChan(v.id);
      if p < 0 {
        oops := oops + 1;
        return;
      }
      if v.frames == [] && e.configRc >= 0 {
        PrepNothing(e);
        return;
      }
      var t := S.Transfer(false, VDMA, first, S.Extent(VDMA, 0, v.frame), v.id, notifySignal, v.process);
      var driven, cookie := DriveTransfer(p, t, e);
    }

    // Prepare follows the first entry of a list that has none.
    method PrepNothing(e: S.Env)
      requires Valid()
      modifies this, queues
      ensures Valid() && Abs() == S.Fault(S.Leave(S.Ticks(S.Enter(old(Abs()), e), e.At(0))))
    {
      EnterCall(e.junk);
      Ticks(e.At(0));
      oops := oops + 1;
      call := None;
    }

    method StopChannel(channelId: int)
      requires Valid()
      modifies this, queues
      ensures Valid() && Abs() == S.Stop(old(Abs()), channelId)
    {
      var p := GetChan(channelId);
      if p < 0 {
        oops := oops + 1;
      } else {
        TerminateAll(p);
      }
    }

    method SetSignal(signal: int) returns (rc: int)
      requires Valid()
      modifies this
      ensures Valid() && (Abs(), rc) == S.SetSignal(old(Abs()), signal)
    {
      if !S.ValidSignal(signal) {
        return -EINVAL;
      }
      notifySignal := signal;
      return 0;
    }

    /* ---- Buffers ---- */

    // The rollback ladder of mmap: each failure undoes what came before it.
    method Mmap(m: S.Mapping) returns (rc: int)
      requires Valid()
      modifies this
      ensures Valid() && (Abs(), rc) == S.Mmap(old(Abs()), m)
    {
      if !m.allocOk {
        return -ENOMEM;
      }
      kernel := kernel.(structs := kernel.structs + 1);
      if m.mem.None? {
        kernel := kernel.(structs := kernel.structs - 1);
        return -ENOMEM;
      }
      AddThenRemove(kernel.coherent, m.mem.value);
      kernel := kernel.(coherent := kernel.coherent + multiset{m.mem.value});
      if m.remapRc < 0 {
        kernel := kernel.(coherent := kernel.coherent - multiset{m.mem.value});
        kernel := kernel.(structs := kernel.structs - 1);
        return m.remapRc;
      }
      dmabufList := [S.Buffer(m.user, m.mem.value)] + dmabufList;
      return 0;
    }

    method VmaClose(i: nat)
      requires Valid() && i < |dmabufList| && kernel.structs > 0
      modifies this
      ensures Valid() && Abs() == S.Close(old(Abs()), i)
    {
      kernel := kernel.(coherent := kernel.coherent - multiset{dmabufList[i].mem});
      dmabufList := dmabufList[..i] + dmabufList[i + 1..];
      kernel := kernel.(structs := kernel.structs - 1);
    }

    method GetExternal(g: S.Registration) returns (rc: int)
      requires Valid()
      modifies this
      ensures Valid() && (Abs(), rc) == S.Register(old(Abs()), g)
    {
      if !g.allocOk {
        return -ENOMEM;
      }
      ghost var before := kernel;
      kernel := kernel.(structs := kernel.structs + 1);
      if g.dmaBuf.Failed? {
        kernel := kernel.(structs := kernel.structs - 1);
        return -(g.dmaBuf.errno as int);
      }
      kernel := kernel.(refs := kernel.refs + multiset{g.dmaBuf.h});
      if g.attach.Failed? {
        PutDmaBuf(g.dmaBuf.h, before);
        return -(g.attach.errno as int);
      }
      kernel := kernel.(attached := kernel.attached + multiset{g.attach.h});
      if g.table.Failed? {
        DetachDmaBuf(g.dmaBuf.h, g.attach.h, before);
        return -(g.table.errno as int);
      }
      kernel := kernel.(mapped := kernel.mapped + multiset{g.table.h});
      if g.nents != 1 {
        UnmapDmaBuf(g.dmaBuf.h, g.attach.h, g.table.h, before);
        return -EINVAL;
      }
      externalDmabufs := [S.External(g.fd, g.dmaBuf.h, g.attach.h, g.table.h, g.base, g.user, g.size)]
                         + externalDmabufs;
      return 0;
    }

    // The rollback ladder of a registration, from its last label upwards.
    method PutDmaBuf(h: int, ghost before: S.Kernel)
      requires kernel == before.(structs := before.structs + 1, refs := before.refs + multiset{h})
      modifies this`kernel
      ensures kernel == before
    {
      AddThenRemove(before.refs, h);
      kernel := kernel.(refs := kernel.refs - multiset{h});
      kernel := kernel.(structs := kernel.structs - 1);
    }

    method DetachDmaBuf(h: int, a: int, ghost before: S.Kernel)
      requires kernel == before.(structs := before.structs + 1, refs := before.refs + multiset{h},
                                 attached := before.attached + multiset{a})
      modifies this`kernel
      ensures kernel == before
    {
      AddThenRemove(before.attached, a);
      kernel := kernel.(attached := kernel.attached - multiset{a});
      PutDmaBuf(h, before);
    }

    method UnmapDmaBuf(h: int, a: int, t: int, ghost before: S.Kernel)
      requires kernel == before.(structs := before.structs + 1, refs := before.refs + multiset{h},
                                 attached := before.attached + multiset{a},
                                 mapped := before.mapped + multiset{t})
      modifies this`kernel
      ensures kernel == before
    {
      AddThenRemove(before.mapped, t);
      kernel := kernel.(mapped := kernel.mapped - multiset{t});
      DetachDmaBuf(h, a, before);
    }

    /* ---- Dispatch ---- */

    method Handle(op: R.Op)
      requires Valid() && R.Legal(Abs(), op)
      requires op.CloseCall? ==> kernel.structs > 0
      modifies this, cbData, queues
      ensures Valid() && Abs() == R.Do(old(Abs()), op)
    {
      match op {
        case Engine(ps) => Ticks(ps);
        case OneWayCall(dir, r, e) =>
          if dir == Read {
            var rc, cookie := ReadTransfer(r, e);
          } else {
            var rc, cookie := WriteTransfer(r, e);
          }
        case TwoWayCall(io, te, re) => var rc, cookie := RwTransfer(io, te, re);
        case VideoCall(v, ok, e) => var rc := VideoTransfer(v, ok, e);
        case StopCall(id) => StopChannel(id);
        case SignalCall(signal) => var rc := SetSignal(signal);
        case MmapCall(m) => var rc := Mmap(m);
        case CloseCall(i) => VmaClose(i);
        case RegisterCall(g) => var rc := GetExternal(g);
      }
    }

    // Any legal sequence of calls and engine activity takes the device through
    // exactly the run the theorems speak of.
    method Serve(ops: seq<R.Op>)
      requires Valid() && R.Probed(Abs()) && T.LegalRun(Abs(), ops)
      modifies this, cbData, queues
      ensures Valid() && Abs() == R.Run(old(Abs()), ops)
      ensures T.Reachable(Abs())
    {
      ghost var start := Abs();
      R.ProbedGood(start, T.PLAIN);
      var i := 0;
      while i < |ops|
        invariant i <= |ops| && Valid()
        invariant I.Good(Abs(), T.PLAIN) && Abs().call == None && R.MemOk(Abs())
        invariant T.LegalRun(Abs(), ops[i..])
        invariant R.Run(start, ops) == R.Run(Abs(), ops[i..])
      {
        assert ops[i..][0] == ops[i] && ops[i..][1..] == ops[i + 1..];
        T.PlainCovers(Abs(), ops[i..]);
        R.DoGood(Abs(), T.PLAIN, ops[i]);
        Handle(ops[i]);
        i := i + 1;
      }
    }
  }
}
