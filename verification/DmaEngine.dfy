// The kernel's dmaengine, as far as the driver relies on it. This is an
// assumption about foreign code: a channel is a FIFO of descriptors with
// increasing cookies; the engine completes the oldest issued descriptor;
// terminating a channel drops everything that is outstanding.
module DmaEngine {

  // A submitted descriptor: the bus range it covers and the callback slot it
  // was given as callback parameter.
  datatype Desc = Desc(cookie: nat, dma: int, len: int, slot: int)

  // `descs` are the outstanding descriptors, oldest first; the first `issued`
  // of them have been handed to the hardware.
  datatype Queue = Queue(descs: seq<Desc>, issued: nat, lastUsed: nat, lastDone: nat)

  const NEW_QUEUE := Queue([], 0, 0, 0)

  // dmaengine_submit
  function Submit(q: Queue, dma: int, len: int, slot: int): Queue {
    q.(descs := q.descs + [Desc(q.lastUsed + 1, dma, len, slot)], lastUsed := q.lastUsed + 1)
  }

  // dma_async_issue_pending
  function Issue(q: Queue): Queue {
    q.(issued := |q.descs|)
  }

  // dmaengine_terminate_all
  function Terminate(q: Queue): Queue {
    q.(descs := [], issued := 0)
  }

  predicate CanComplete(q: Queue) {
    0 < q.issued <= |q.descs|
  }

  // The engine finishes the oldest issued descriptor.
  function Complete(q: Queue): Queue
    requires CanComplete(q)
  {
    q.(descs := q.descs[1..], issued := q.issued - 1, lastDone := q.descs[0].cookie)
  }

  // dma_async_is_tx_complete(cookie) == DMA_COMPLETE
  predicate IsComplete(q: Queue, cookie: nat) {
    cookie <= q.lastDone
  }

  // Outstanding cookies increase and are newer than everything completed.
  ghost predicate Ordered(q: Queue) {
    && q.issued <= |q.descs|
    && q.lastDone <= q.lastUsed
    && (forall i, j :: 0 <= i < j < |q.descs| ==> q.descs[i].cookie < q.descs[j].cookie)
    && (forall i :: 0 <= i < |q.descs| ==> q.lastDone < q.descs[i].cookie <= q.lastUsed)
  }
}
