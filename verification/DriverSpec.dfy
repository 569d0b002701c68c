// The state of the driver (`struct axidma_device` with its lists, callback
// table and channel queues) and, for every entry point, the state and return
// code it produces. The engine may complete descriptors at any point of a
// transfer call; the environment of a call says which it completes where.
module DriverSpec {
  import opened Types
  import opened Regions
  import opened DmaEngine

  // A region from dma_alloc_coherent.
  datatype Coherent = Coherent(size: nat, kern: nat, dma: nat)

  // `struct axidma_dma_allocation`
  datatype Buffer = Buffer(user: nat, mem: Coherent)

  // `struct axidma_external_allocation`; `base` is the bus address of the one
  // segment of its scatter-gather table.
  datatype External = External(fd: int, dmaBuf: int, attach: int, table: int,
                               base: nat, user: nat, size: nat)

  // `struct axidma_cb_data`. A completion lives on the stack of a call; it is
  // named by the number of that call. `process` is 0 for NULL; a calling task
  // is never NULL.
  type Task = t: nat | t > 0 witness 1
  datatype Slot = Slot(channelId: int, notifySignal: int, process: nat, comp: Option<nat>)

  // What the driver holds of the kernel's resources.
  datatype Kernel = Kernel(structs: nat, coherent: multiset<Coherent>, refs: multiset<int>,
                           attached: multiset<int>, mapped: multiset<int>)

  // The history of everything the outside can observe.
  datatype Event =
    | Submitted(p: nat, d: Desc)
    | Issued(p: nat)
    | Completed(p: nat, d: Desc, inside: bool)  // inside: d lay in a live buffer
    | Terminated(p: nat)
    | Woke(call: nat)                           // complete() on a live, initialised completion
    | WokeUninit(call: nat)                     // complete() before init_completion ran on it
    | Stray(call: nat)                          // complete() after that call returned
    | Signalled(signal: int, id: int, process: nat)

  // `call` is the number of the call in progress, if it has a completion on
  // its stack; `ready` says whether that completion has been initialised, and
  // `woken` is its done count. `oops` counts the null or invalid pointers the
  // kernel has been made to follow.
  datatype Dev = Dev(chans: seq<Chan>, slots: seq<Slot>, queues: seq<Queue>, notify: int,
                     bufs: seq<Buffer>, exts: seq<External>, kernel: Kernel,
                     call: Option<nat>, ready: bool, woken: nat, calls: nat, oops: nat, log: seq<Event>)

  const SIGRTMIN := 32
  const SIGRTMAX := 64

  predicate ValidSignal(signal: int) {
    SIGRTMIN <= signal <= SIGRTMAX
  }

  // The live buffers in the order they are searched.
  function Live(bufs: seq<Buffer>, exts: seq<External>): seq<Region> {
    seq(|bufs|, i requires 0 <= i < |bufs| => Region(bufs[i].user, bufs[i].mem.size, bufs[i].mem.dma))
    + seq(|exts|, i requires 0 <= i < |exts| => Region(exts[i].user, exts[i].size, exts[i].base))
  }

  /* ---- The engine ---- */

  // `axidma_dma_callback` on the given slot. What complete() does to memory that
  // is not a completion yet cannot be said; the model records that it happened
  // and goes on as if it had been counted.
  function Callback(s: Dev, slot: int): Dev {
    if !(0 <= slot < |s.slots|) then s
    else
      var cb := s.slots[slot];
      match cb.comp
      case Some(f) =>
        if s.call == Some(f)
        then s.(woken := s.woken + 1, log := s.log + [if s.ready then Woke(f) else WokeUninit(f)])
        else s.(log := s.log + [Stray(f)])
      case None =>
        if ValidSignal(cb.notifySignal)
        then s.(log := s.log + [Signalled(cb.notifySignal, cb.channelId, cb.process)])
        else s
  }

  // Channel p's engine completes a descriptor, if one is issued.
  function Tick(s: Dev, p: nat): (r: Dev)
    ensures |r.queues| == |s.queues| && r.chans == s.chans
  {
    if p < |s.queues| && CanComplete(s.queues[p]) then
      var d := s.queues[p].descs[0];
      var inside := Inside(Live(s.bufs, s.exts), d.dma, d.len);
      Callback(s.(queues := s.queues[p := Complete(s.queues[p])],
                  log := s.log + [Completed(p, d, inside)]), d.slot)
    else s
  }

  function Ticks(s: Dev, ps: seq<nat>): (r: Dev)
    ensures |r.queues| == |s.queues| && r.chans == s.chans
    decreases |ps|
  {
    if ps == [] then s else Ticks(Tick(s, ps[0]), ps[1..])
  }

  function TerminateAll(s: Dev, p: nat): Dev
    requires p < |s.queues|
  {
    s.(queues := s.queues[p := Terminate(s.queues[p])], log := s.log + [Terminated(p)])
  }

  /* ---- One transfer: prepare and start ---- */

  // `struct axidma_transfer`, with the range its scatter-gather entry or
  // interleaved template covers.
  datatype Transfer = Transfer(wait: bool, kind: Kind, dma: int, len: int, id: int,
                               notify: int, process: Task)

  // The outcomes of foreign calls made by one transfer, what an uninitialised
  // stack variable holds, and the engine activity in each window of the code.
  datatype Env = Env(configRc: int, descOk: bool, submitOk: bool, junk: nat, junkFrame: Frame,
                     windows: seq<seq<nat>>)
  {
    function At(k: nat): seq<nat> {
      if k < |windows| then windows[k] else []
    }
  }

  datatype Outcome = Outcome(dev: Dev, rc: int, cookie: nat)

  function SetSlot(s: Dev, i: int, v: Slot): Dev {
    if 0 <= i < |s.slots| then s.(slots := s.slots[i := v]) else s
  }

  function SlotAt(s: Dev, i: int): Slot {
    if 0 <= i < |s.slots| then s.slots[i] else Slot(0, 0, 0, None)
  }

  // The field writes of `axidma_prep_transfer`, each followed by a window: the
  // two that name channel and completion, and all four.
  function FillNames(s: Dev, t: Transfer, e: Env): (r: Dev)
    ensures |r.queues| == |s.queues| && r.chans == s.chans
  {
    var s1 := Ticks(SetSlot(s, t.id, SlotAt(s, t.id).(channelId := t.id)), e.At(1));
    var comp := if t.wait then s1.call else None;
    Ticks(SetSlot(s1, t.id, SlotAt(s1, t.id).(comp := comp)), e.At(2))
  }

  function FillFields(s: Dev, t: Transfer, e: Env): (r: Dev)
    ensures |r.queues| == |s.queues| && r.chans == s.chans
  {
    var s2 := FillNames(s, t, e);
    var notify := if t.wait then -1 else t.notify;
    var s3 := Ticks(SetSlot(s2, t.id, SlotAt(s2, t.id).(notifySignal := notify)), e.At(3));
    var process := if t.wait then 0 else t.process;
    Ticks(SetSlot(s3, t.id, SlotAt(s3, t.id).(process := process)), e.At(4))
  }

  // A call that waits also initialises its completion.
  function FillSlot(s: Dev, t: Transfer, e: Env): (r: Dev)
    ensures |r.queues| == |s.queues| && r.chans == s.chans
  {
    var s1 := FillFields(s, t, e);
    Ticks(if t.wait then s1.(woken := 0, ready := true) else s1, e.At(5))
  }

  // `axidma_prep_transfer`
  function Prep(s0: Dev, p: nat, t: Transfer, e: Env): (o: Outcome)
    requires p < |s0.queues|
    ensures |o.dev.queues| == |s0.queues| && o.dev.chans == s0.chans
  {
    var s := Ticks(s0, e.At(0));
    if t.kind == VDMA && e.configRc < 0 then Outcome(TerminateAll(s, p), e.configRc, 0)
    else if !e.descOk then Outcome(TerminateAll(s, p), -EBUSY, 0)
    else
      var s1 := FillSlot(s, t, e);
      if !e.submitOk then Outcome(TerminateAll(s1, p), -EBUSY, 0)
      else
        var q := Submit(s1.queues[p], t.dma, t.len, t.id);
        var d := q.descs[|q.descs| - 1];
        var s2 := s1.(queues := s1.queues[p := q], log := s1.log + [Submitted(p, d)]);
        Outcome(Ticks(s2, e.At(6)), 0, d.cookie)
  }

  function IssuePending(s: Dev, p: nat): Dev
    requires p < |s.queues|
  {
    s.(queues := s.queues[p := Issue(s.queues[p])], log := s.log + [Issued(p)])
  }

  // `axidma_start_transfer`. Window 7 lasts until the wait is woken or times
  // out, window 8 until the status is read, window 9 until the return path.
  function Start(s0: Dev, p: nat, t: Transfer, cookie: nat, e: Env): (o: Outcome)
    requires p < |s0.queues|
    ensures |o.dev.queues| == |s0.queues| && o.dev.chans == s0.chans
  {
    var s := Ticks(IssuePending(s0, p), e.At(7));
    if !t.wait then Outcome(s, 0, cookie)
    else
      var s1 := Ticks(s, e.At(8));
      var s2 := Ticks(s1, e.At(9));
      if s.woken == 0 then Outcome(TerminateAll(s2, p), -ETIME, cookie)
      else if !IsComplete(s1.queues[p], cookie) then Outcome(TerminateAll(s2, p), -EBUSY, cookie)
      else Outcome(s2, 0, cookie)
  }

  /* ---- The entry points ---- */

  // A call puts a fresh, uninitialised completion on its stack.
  function Enter(s: Dev, e: Env): Dev {
    s.(call := Some(s.calls), ready := false, calls := s.calls + 1, woken := e.junk)
  }

  function Leave(s: Dev): Dev {
    s.(call := None)
  }

  // Prepare, then start if that worked, on one channel.
  function Drive(s: Dev, p: nat, t: Transfer, e: Env): (o: Outcome)
    requires p < |s.queues|
    ensures |o.dev.queues| == |s.queues| && o.dev.chans == s.chans
  {
    var a := Prep(Enter(s, e), p, t, e);
    if a.rc < 0 then a.(dev := Leave(a.dev))
    else
      var b := Start(a.dev, p, t, a.cookie, e);
      b.(dev := Leave(b.dev))
  }

  // The bytes a descriptor covers: for DMA the length of the scatter-gather
  // entry, which is an unsigned int, for VDMA the frame.
  function Extent(kind: Kind, len: nat, frame: Frame): nat {
    if kind == DMA then UInt(len) else frame.Bytes()
  }

  datatype Request = Request(id: int, addr: nat, len: nat, wait: bool, process: Task)

  // `axidma_read_transfer` and `axidma_write_transfer`
  function OneWay(s: Dev, dir: Dir, r: Request, e: Env): (o: Outcome)
    requires |s.queues| == |s.chans|
    ensures |o.dev.queues| == |s.queues| && o.dev.chans == s.chans
  {
    var p := Lookup(s.chans, r.id);
    if p < 0 || s.chans[p].dir != dir then Outcome(s, -ENODEV, 0)
    else
      var dma := Translate(Live(s.bufs, s.exts), r.addr, r.len);
      if dma == 0 then Outcome(s, -EFAULT, 0)
      else
        Drive(s, p, OneWayTransfer(s, p, r, dma, e), e)
  }

  function OneWayTransfer(s: Dev, p: nat, r: Request, dma: int, e: Env): Transfer
    requires p < |s.chans|
  {
    Transfer(r.wait, s.chans[p].kind, dma, Extent(s.chans[p].kind, r.len, e.junkFrame), r.id,
             s.notify, r.process)
  }

  datatype Inout = Inout(txId: int, txAddr: nat, txLen: nat, txFrame: Frame,
                         rxId: int, rxAddr: nat, rxLen: nat, rxFrame: Frame,
                         wait: bool, process: Task)

  // The two transfers of `axidma_rw_transfer`. The receive frame is copied
  // only when the transmit channel is a VDMA channel.
  function TxTransfer(s: Dev, tx: nat, r: Inout, dma: int): Transfer
    requires tx < |s.chans|
  {
    Transfer(false, s.chans[tx].kind, dma, Extent(s.chans[tx].kind, r.txLen, r.txFrame), r.txId,
             s.notify, r.process)
  }

  function RxTransfer(s: Dev, tx: nat, rx: nat, r: Inout, dma: int, e: Env): Transfer
    requires tx < |s.chans| && rx < |s.chans|
  {
    var frame := if s.chans[tx].kind == VDMA then r.rxFrame else e.junkFrame;
    Transfer(r.wait, s.chans[rx].kind, dma, Extent(s.chans[rx].kind, r.rxLen, frame), r.rxId,
             s.notify, r.process)
  }

  // `axidma_rw_transfer`
  function TwoWay(s: Dev, r: Inout, te: Env, re: Env): (o: Outcome)
    requires |s.queues| == |s.chans|
    ensures |o.dev.queues| == |s.queues| && o.dev.chans == s.chans
  {
    var tx, rx := Lookup(s.chans, r.txId), Lookup(s.chans, r.rxId);
    if tx < 0 || s.chans[tx].dir != Write then Outcome(s, -ENODEV, 0)
    else if rx < 0 || s.chans[rx].dir != Read then Outcome(s, -ENODEV, 0)
    else
      var txDma := Translate(Live(s.bufs, s.exts), r.txAddr, r.txLen);
      var rxDma := Translate(Live(s.bufs, s.exts), r.rxAddr, r.rxLen);
      if txDma == 0 || rxDma == 0 then Outcome(s, -EFAULT, 0)
      else
        var o := TwoWayPair(Enter(s, re), tx, TxTransfer(s, tx, r, txDma), te,
                            rx, RxTransfer(s, tx, rx, r, rxDma, re), re);
        o.(dev := Leave(o.dev))
  }

  // Both are prepared, transmit first, then both are started.
  function TwoWayPair(s: Dev, tx: nat, tt: Transfer, te: Env, rx: nat, rt: Transfer, re: Env): (o: Outcome)
    requires tx < |s.queues| && rx < |s.queues|
    ensures |o.dev.queues| == |s.queues| && o.dev.chans == s.chans
  {
    var a := Prep(s, tx, tt, te);
    if a.rc < 0 then a
    else
      var b := Prep(a.dev, rx, rt, re);
      if b.rc < 0 then b
      else
        var c := Start(b.dev, tx, tt, a.cookie, te);
        if c.rc < 0 then c
        else Start(c.dev, rx, rt, b.cookie, re)
  }

  datatype Video = Video(id: int, frames: seq<nat>, frame: Frame, process: Task)

  // The kernel follows a null or invalid pointer.
  function Fault(s: Dev): Dev {
    s.(oops := s.oops + 1)
  }

  // `axidma_video_transfer`; its return code is always 0. The ranges that are
  // checked have the size of the image as an int, the engine is asked for the
  // frame's lines. The check of the channel rejects nothing and follows the null
  // pointer of an unknown one; without frame buffers the scatter-gather list has
  // no first entry to read the address of.
  function ShowVideo(s: Dev, v: Video, allocOk: bool, e: Env): (r: Dev)
    requires |s.queues| == |s.chans|
    ensures |r.queues| == |s.queues| && r.chans == s.chans
  {
    var p := Lookup(s.chans, v.id);
    if !allocOk || !AllTranslate(s, v) then s
    else if p < 0 then Fault(s)
    else if v.frames == [] && e.configRc >= 0 then Fault(Leave(Ticks(Enter(s, e), e.At(0))))
    else Drive(s, p, VideoTransfer(s, v), e).dev
  }

  predicate AllTranslate(s: Dev, v: Video) {
    forall i :: 0 <= i < |v.frames| ==> Translate(Live(s.bufs, s.exts), v.frames[i], v.frame.ImageSize()) != 0
  }

  // Only the first scatter-gather entry reaches the interleaved template.
  function VideoTransfer(s: Dev, v: Video): Transfer {
    var dma := if v.frames == [] then 0
               else Translate(Live(s.bufs, s.exts), v.frames[0], v.frame.ImageSize());
    Transfer(false, VDMA, dma, Extent(VDMA, 0, v.frame), v.id, s.notify, v.process)
  }

  // `axidma_stop_channel`; its check, too, follows the null pointer.
  function Stop(s: Dev, id: int): Dev
    requires |s.queues| == |s.chans|
  {
    var p := Lookup(s.chans, id);
    if p < 0 then Fault(s) else TerminateAll(s, p)
  }

  // `axidma_set_signal`
  function SetSignal(s: Dev, signal: int): (Dev, int) {
    if ValidSignal(signal) then (s.(notify := signal), 0) else (s, -EINVAL)
  }

  /* ---- Buffers ---- */

  // What mmap asks for, and the outcomes of the three kernel calls it makes.
  datatype Mapping = Mapping(user: nat, size: nat, allocOk: bool, mem: Option<Coherent>, remapRc: int)

  predicate MappingWorks(m: Mapping) {
    m.allocOk && m.mem.Some? && m.remapRc >= 0
  }

  // `axidma_mmap`: all of it happens, or none of it.
  function Mmap(s: Dev, m: Mapping): (Dev, int) {
    if MappingWorks(m) then
      (s.(bufs := [Buffer(m.user, m.mem.value)] + s.bufs,
          kernel := s.kernel.(structs := s.kernel.structs + 1,
                              coherent := s.kernel.coherent + multiset{m.mem.value})), 0)
    else (s, if m.allocOk && m.mem.Some? then m.remapRc else -ENOMEM)
  }

  // `axidma_vma_close` of the i-th buffer
  function Close(s: Dev, i: nat): Dev
    requires i < |s.bufs|
  {
    s.(bufs := s.bufs[..i] + s.bufs[i + 1..],
       kernel := s.kernel.(structs := if s.kernel.structs > 0 then s.kernel.structs - 1 else 0,
                           coherent := s.kernel.coherent - multiset{s.bufs[i].mem}))
  }

  // A registration request and the outcomes of the kernel calls it makes; a
  // handle that is an error pointer is Failed.
  type Errno = e: int | 0 < e witness 1
  datatype Handle = Got(h: int) | Failed(errno: Errno)
  datatype Registration = Registration(fd: int, user: nat, size: nat, allocOk: bool, dmaBuf: Handle,
                                       attach: Handle, table: Handle, nents: nat, base: nat)

  predicate RegistrationWorks(g: Registration) {
    g.allocOk && g.dmaBuf.Got? && g.attach.Got? && g.table.Got? && g.nents == 1
  }

  // `axidma_get_external`: all of it happens, or none of it.
  function Register(s: Dev, g: Registration): (Dev, int) {
    if RegistrationWorks(g) then
      (s.(exts := [External(g.fd, g.dmaBuf.h, g.attach.h, g.table.h, g.base, g.user, g.size)] + s.exts,
          kernel := s.kernel.(structs := s.kernel.structs + 1,
                              refs := s.kernel.refs + multiset{g.dmaBuf.h},
                              attached := s.kernel.attached + multiset{g.attach.h},
                              mapped := s.kernel.mapped + multiset{g.table.h})), 0)
    else
      (s, if !g.allocOk then -ENOMEM
          else if g.dmaBuf.Failed? then -(g.dmaBuf.errno as int)
          else if g.attach.Failed? then -(g.attach.errno as int)
          else if g.table.Failed? then -(g.table.errno as int)
          else -EINVAL)
  }
}
