// Values shared by the driver and the library: directions, channel kinds, the
// channel metadata record and the error numbers of the kernel.
module Types {

  datatype Option<+T> = None | Some(value: T)

  // The direction of a channel, seen from the processor.
  datatype Dir = Write | Read

  // The two kinds of Xilinx engine.
  datatype Kind = DMA | VDMA

  // The metadata of one channel (`struct axidma_chan`).
  datatype Chan = Chan(dir: Dir, kind: Kind, id: int)

  const WORD := 0x1_0000_0000_0000_0000
  const HALF_WORD := 0x1_0000_0000
  const INT_MAX := 0x7FFF_FFFF

  // A number as a size_t, as an unsigned int and as an int.
  function SizeT(x: int): nat { x % WORD }

  function UInt(x: int): nat { x % HALF_WORD }

  function Int(x: int): int { (x + INT_MAX + 1) % HALF_WORD - INT_MAX - 1 }

  // A video frame (`struct axidma_video_frame`): its fields are ints.
  datatype Frame = Frame(height: int, width: int, depth: int) {
    // The bytes an engine is asked for: `height` lines of `width * depth` bytes,
    // both as size_t.
    function Bytes(): nat { Product(SizeT(height), SizeT(Int(width * depth))) }

    // `image_size`, computed in int.
    function ImageSize(): nat { SizeT(Int(width * height * depth)) }
  }

  function Product(a: nat, b: nat): nat { a * b }

  const EINTR := 4
  const ENOMEM := 12
  const EFAULT := 14
  const EBUSY := 16
  const ENODEV := 19
  const EINVAL := 22
  const ETIME := 62

  // The position of the first channel with the given id, or -1.
  function Lookup(chans: seq<Chan>, id: int): (p: int)
    ensures -1 <= p < |chans|
    ensures 0 <= p ==> chans[p].id == id && forall i :: 0 <= i < p ==> chans[i].id != id
    ensures p < 0 ==> forall i :: 0 <= i < |chans| ==> chans[i].id != id
  {
    LookupFrom(chans, id, 0)
  }

  function LookupFrom(chans: seq<Chan>, id: int, k: nat): (p: int)
    requires k <= |chans|
    ensures p == -1 || k <= p < |chans|
    ensures 0 <= p ==> chans[p].id == id && forall i :: k <= i < p ==> chans[i].id != id
    ensures p < 0 ==> forall i :: k <= i < |chans| ==> chans[i].id != id
    decreases |chans| - k
  {
    if k == |chans| then -1
    else if chans[k].id == id then k
    else LookupFrom(chans, id, k + 1)
  }

  ghost predicate UniqueIds(chans: seq<Chan>) {
    forall i, j :: 0 <= i < j < |chans| ==> chans[i].id != chans[j].id
  }

  // Every id can index a table with one entry per channel.
  ghost predicate IdsInRange(chans: seq<Chan>) {
    forall i :: 0 <= i < |chans| ==> 0 <= chans[i].id < |chans|
  }
}
