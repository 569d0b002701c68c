# AXI DMA driver, library and frame codec: a verified model

This project models three connected parts of the repository and proves what they
guarantee.

* **The driver** (`driver/axidma_dma.c`, `driver/axidma_chrdev.c`): one device object with
  the mmap'ed and the imported buffers, the channel table, one callback slot per channel and
  one descriptor queue per channel. Transfer calls are modelled at the level of single field
  writes: between any two of them the engine may complete any issued descriptor of any
  channel, and its callback runs against the half-written slot. A completion lives on the
  stack of the call that created it, so a callback that reaches it after the return is an
  observable event (`Stray`), as are a callback that reaches it before `init_completion` ran
  (`WokeUninit`), a descriptor finished outside every live buffer (`Completed` with `inside`
  false) and a null or invalid pointer the kernel follows (`oops`). The results are about
  every run, that is, every sequence of calls and engine activity.
* **Channel discovery and dispatch** (`driver/axidma_of.c`, `library/libaxidma.c`): the
  driver parses and counts channels, the library allocates by those counts, and completion
  signals reach callbacks by channel id.
* **The frame codec and byte utilities** (`examples/util_interdma.c`,
  `examples/interdma.c`, `examples/util.c`).

| file | content |
|---|---|
| `Types.dfy`, `Bits.dfy` | shared values; bits, bytes, words and the byte utilities |
| `Regions.dfy` | address translation over live buffers |
| `DmaEngine.dfy` | what is assumed of the kernel's dmaengine |
| `DriverSpec.dfy` | the state of the driver and what each entry point does to it |
| `DriverInvariant.dfy` | the invariant, kept by every step of a call under every interleaving |
| `DriverRuns.dfy` | calls, buffer operations and whole runs |
| `DriverTheorems.dfy` | the guarantees over whole runs |
| `DriverResults.dfy` | what a single call returns, hands to the engine and leaves alone |
| `DriverLimits.dfy` | where they stop: for each failure the exact condition and a concrete run |
| `Driver.dfy` | the device object with methods that update it in place, tied to `DriverSpec` |
| `DeviceTree.dfy`, `ChannelRequests.dfy`, `Library.dfy`, `EndToEnd.dfy` | discovery, channel requests, library, and the driver with the library |
| `HeaderCodec.dfy`, `Frames.dfy`, `FileUtil.dfy` | header, frames and printed window, file and string utilities |

How the driver part fits together: each method of `Driver.AxidmaDevice` is proved to
produce exactly the state and return code that a function of `DriverSpec` gives;
`Driver.AxidmaDevice.Serve` lifts that to runs; the theorems are about those runs. The
invariant is stated once, with a parameter saying what is followed (the channel the call
waits on, a channel on which nobody waits, containment, quietness, completions that are
reached too early), and every theorem is an instance of it.

## Assumptions

* dmaengine: a channel is a FIFO of descriptors with increasing cookies; the engine finishes
  the oldest issued one, marks its cookie complete and runs its callback in one step;
  terminating drops what is outstanding. An earlier cookie is complete once a later one is.
* One thread calls the driver at a time (README.md:191).
* Channel ids are unique (checked by the driver) and lie in `[0, num_chans)`: ids index
  `cb_data` and the library's `channels` directly (driver/axidma_dma.c:390,
  library/libaxidma.c:207, library/libaxidma.c:401).
* Buffers that are live together have non-zero bus bases, disjoint user ranges and disjoint
  bus ranges, and end inside both address spaces (`DriverRuns.FreshRegion`). A registered size
  does not exceed the mapped segment.
* `size_t`, pointers and bus addresses have 64 bits, `int` has 32 and wraps. The length of a
  scatter-gather entry is an `unsigned int`. An engine moves the bytes it is asked for: for a
  frame, `numf` lines of `sgl[0].size` bytes.
* The calling task is not null. The driver's calls are made on a channel table whose entries
  hold a direction and a kind; the one way to another table is the node without a `compatible`
  property below.
* `char` is an unsigned byte, the machine is little-endian, `>>` of a negative number is
  arithmetic. `revert_char` copies `len + 1` bytes (examples/util_interdma.c:28); the extra
  byte has no meaning and the model copies `len`.
* What `complete()` does to a completion that has not been initialised, and what happens after
  the kernel has followed a null pointer, cannot be said: the model records the event and goes
  on, as if the wake-up had been counted and the call had returned.

## Where the code and its documentation differ

* `AXIDMA_UNREGISTER_BUFFER` is documented as the way to give back an imported buffer, but it
  is number 10 and the gate refuses numbers from 10 on (driver/axidma_chrdev.c:364,
  include/axidma_ioctl.h:136, include/axidma_ioctl.h:378). Unregistering is therefore not a
  step of a run.
* A node without a `compatible` property is reported as an error but accepted, and counted
  nowhere (driver/axidma_of.c:49-50). `DeviceTree.CountersSum` and
  `EndToEnd.CountersFitExactly` say that this is the only way the counters and the table
  disagree, and `EndToEnd.Discover` that the library then writes beyond one of its lists or, if
  the entry's memory held no valid direction and kind, fails its assert at
  library/libaxidma.c:129.
* A blocking transfer stores its completion in the callback slot
  (driver/axidma_dma.c:246) before it initialises it (driver/axidma_dma.c:249). If an older
  asynchronous descriptor of the channel finishes in between, its callback completes
  uninitialised stack memory (`DriverLimits.SendThenBlock`). This cannot happen exactly when
  the channel has nothing issued at the call (`DriverLimits.EarlyWakeExactly`,
  `DriverLimits.TwoWayEarlyWakeExactly`).
* A channel has one callback slot. If two tasks use a channel asynchronously, the first one's
  descriptor signals the task that called last (`DriverLimits.TwoTasks`); if one task makes all
  calls on the channel, all its signals go to that task (`DriverTheorems.SignalsReachCaller`).
* The library documents two-way transfers like one-way ones, but a two-way call waits for its
  receive side only. Its transmit descriptor stays queued and not issued exactly when the
  receive side cannot be prepared (`DriverLimits.TwoWayLeavesTransmit`,
  `DriverLimits.TwoWayUnprepared`); and a blocking call may return 0 with its transmit
  descriptor issued and outstanding (`DriverLimits.TwoWayUnattended`,
  `DriverLimits.TwoWayTxEmptyExactly`).
* One-way calls are accepted on VDMA channels, but never set the frame that decides the size
  of the transfer (driver/axidma_dma.c:357-457, `DriverLimits.OneWayVideo`); a two-way call
  copies its receive frame only if the *transmit* channel is a VDMA channel
  (driver/axidma_dma.c:525 tests `tx_chan->type`, `DriverLimits.TwoWayMixedKinds`).
* A frame is never compared with its buffer. Its height becomes a `size_t` and its line the
  `size_t` of an `int` product (driver/axidma_dma.c:227-230). So a two-way call on VDMA channels
  with the frames the library sends for NULL, -1 in every field (library/libaxidma.c:508-518),
  asks for 2^64 - 1 lines (`DriverLimits.TwoWayNullFrames`). A video call checks ranges of
  `image_size` bytes, an `int` product (driver/axidma_dma.c:582): with two negative fields the
  check sees 16 bytes and the engine about 2^64 lines (`DriverLimits.VideoNegative`), with
  65536 x 65536 x 1 the check sees none and the engine 2^32 bytes
  (`DriverLimits.VideoOverflowing`). Frames whose fields are not negative and whose size is an
  `int` are safe (`DriverLimits.PlainFrame`).
* The range check adds without looking for a wrap (driver/axidma_chrdev.c:68-71): a request
  of nearly 2^64 bytes is accepted though no buffer covers it (`DriverLimits.WrappedRange`,
  `Regions.HoldsImproper`), and for such ranges the list order matters
  (`Regions.ImproperOrderMatters`). A DMA request of 2^32 bytes or more is cut to its low 32
  bits (driver/axidma_dma.c:121, `DriverTheorems.WholeRequest`).
* `DriverLimits.OneWayInsideExactly`, `DriverLimits.TwoWayInsideExactly` and
  `DriverLimits.VideoInsideExactly` give the exact conditions under which a call keeps the
  engine inside live buffers.
* Closing a buffer does not look for transfers that still use it
  (`DriverLimits.AsyncThenClose`, `DriverLimits.CloseWildExactly`).
* The checks at driver/axidma_dma.c:594 and driver/axidma_dma.c:625 use `&&`: they reject
  nothing and follow the null pointer of an unknown channel; a video call without frame
  buffers reads the first entry of an empty list (driver/axidma_dma.c:224).
  `DriverTheorems.FaultsExactly` says that these are the only steps that follow a null channel,
  a missing entry or a null task: the null task that every blocking call stores
  (driver/axidma_dma.c:248) never reaches `send_sig_info` (driver/axidma_dma.c:159).
* A device-tree node with one child that is asked for its second channel is reported through
  the null node itself (driver/axidma_of.c:103-106); the model ends there with `OOPS`.
* The assert at library/libaxidma.c:198 lets an id through that is one beyond the channel table
  (`Library.AxidmaDev.OnSignal`); the driver never sends it (`EndToEnd.SignalsInRange`).
* The library's handler is installed for one signal number (library/libaxidma.c:229). Signals
  of another number, after someone else has set one, do not reach it; the call count is right
  exactly when none of the channel's signals is one of those
  (`EndToEnd.CallbacksMatchCompletions`, `EndToEnd.OneNumberSuffices`).
* The comment in `random_mm2s` allows 0 blocks; the code never computes 0
  (`Frames.BlocksFor`). A decoded count of 0 would make the loop in `getInfo` run for ever
  (`Frames.WindowEndsExactly`), and 511 would make it read past the buffer
  (`Frames.WindowInsideExactly`).

## Model

| member | source | states |
|---|---|---|
| DriverTheorems.NoLateWakeup | driver/axidma_dma.c:144-319 | in every reachable state, for any mixture of blocking, asynchronous, two-way, video and stop calls under any interleaving, no callback ever reached a completion whose call had returned or sent a signal to a null task, with another number than a real-time signal's or an id outside the table; outstanding descriptors use their own channel's slot, which names no completion |
| DriverTheorems.BlockingRunsLeaveNothing | driver/axidma_dma.c:180-319 | a client that only makes blocking one-way calls never has a descriptor outstanding between calls, and no callback ever reaches a completion before it is initialised |
| DriverTheorems.BlockingRunsStayInside | driver/axidma_chrdev.c:206-222 | if its accepted calls are on DMA channels and ask for bytes that stay in a buffer, such a client can map, register and close buffers at will: the engine never finishes a descriptor outside a live buffer |
| DriverTheorems.BlockingSuccessIsOwn | driver/axidma_dma.c:242-318 | a blocking call that got past its argument checks leaves the channel empty whatever it returns, and if it returns 0 its own descriptor, at exactly the requested place, completed during the call, even if an older asynchronous descriptor did the wake-up |
| DriverTheorems.WholeRequest | driver/axidma_dma.c:119-121 | on a DMA channel that descriptor covers all requested bytes if and only if they are fewer than 2^32 |
| DriverTheorems.BlockingResultExact | driver/axidma_dma.c:276-319 | on an idle channel the result is 0 exactly if the engine attends to the channel before the wait ends, and a timeout otherwise |
| DriverResults.BlockingResultByCounts | driver/axidma_dma.c:242-319 | on any channel, busy or idle, the exact code of a blocking call from what was outstanding and how often the engine attends to the channel in each window: a timeout if nothing finishes between the initialisation of the completion and the end of the wait, -EBUSY if an older descriptor woke it and its own is not finished when the status is read, 0 otherwise |
| DriverResults.OneWayResult | driver/axidma_dma.c:357-457 | an accepted asynchronous call returns 0 if and only if its transfer can be prepared, and then its own descriptor, at the translated address and for the bytes asked for, was submitted and after that issued; if it cannot, blocking or not, the code says why, the channel is empty and nothing was submitted or issued |
| DriverResults.OneWayRefused | driver/axidma_dma.c:357-378 | a refused call changes nothing and returns -ENODEV if no channel has the id and direction, -EFAULT if only the range is not mapped |
| DriverResults.CallLeavesOthers | driver/axidma_dma.c:357-616 | a one-way or video call leaves every other channel's callback slot as it was, and its queue but for what the engine finishes meanwhile |
| DriverTheorems.TwoWayOrder | driver/axidma_dma.c:461-550 | transmit and receive channel and slot differ; nothing is issued for transmit before something is submitted for receive; a blocking 0 means both were issued, the call's own receive descriptor completed and the receive channel is empty |
| DriverResults.TwoWayResult | driver/axidma_dma.c:529-549 | the code tells which side could not be prepared, and that side is empty; if both can, both descriptors, at their translated addresses and for their own bytes, were submitted and then issued, and a call that does not wait returns 0 |
| DriverResults.TwoWayRefused | driver/axidma_dma.c:469-500 | a refused two-way call changes nothing and returns -ENODEV if a channel is missing, -EFAULT if only a range is not mapped |
| DriverResults.TwoWayLeavesOthers | driver/axidma_dma.c:461-550 | a two-way call leaves every channel but its two alone |
| DriverResults.VideoResult | driver/axidma_dma.c:552-616 | a video call whose ranges translate submits and issues exactly the bytes of its frame at its first frame buffer if they can be prepared; one whose ranges do not translate does nothing |
| DriverResults.StopResult | driver/axidma_dma.c:618-635 | stopping a channel empties its queue and changes no other queue, slot, buffer or book; whatever the engine does afterwards, nothing more completes on it and no more signals carry its id |
| DriverResults.SetSignalResult | driver/axidma_dma.c:343-355 | exactly the real-time signals are accepted and take effect; others change nothing |
| DriverTheorems.PoliteRunsWakeInTime | driver/axidma_dma.c:242-259 | if every blocking call of a run finds nothing issued on its channel, no callback of the whole run reaches an uninitialised completion |
| DriverTheorems.FaultsExactly | driver/axidma_dma.c:144-635 | a run follows a null channel, a missing scatter-gather entry or a null task if and only if some step stops or shows video on an unknown channel, or shows video without frames; the null task stored by blocking calls is never reached |
| DriverLimits.EarlyWakeExactly | driver/axidma_dma.c:242-259 | whatever the engine does, a blocking one-way call is not woken through an uninitialised completion, if and only if its channel has nothing issued |
| DriverLimits.TwoWayEarlyWakeExactly | driver/axidma_dma.c:529-537 | the same for a blocking two-way call and its receive channel |
| DriverLimits.SendThenBlock | driver/axidma_dma.c:245-249 | a concrete run: an asynchronous write, then a blocking one whose completion is completed before it is initialised |
| DriverLimits.TwoWayLeavesTransmit | driver/axidma_dma.c:529-537 | a two-way call returns with its transmit descriptor queued and not issued if and only if its transmit side could be prepared and its receive side could not |
| DriverLimits.TwoWayTxEmptyExactly | driver/axidma_dma.c:529-547 | on an idle transmit channel it is empty on return if and only if its prepare failed, or both prepares worked and the engine attended to it after its issue |
| DriverLimits.TwoWayResultExact | driver/axidma_dma.c:529-547 | on an idle receive channel, and with both sides prepared, a blocking call returns 0 exactly if the engine attends to the receive channel before the wait ends, and times out otherwise |
| DriverLimits.TwoWayUnprepared | driver/axidma_dma.c:533-536 | a concrete run that leaves a transmit descriptor queued and not issued |
| DriverLimits.TwoWayUnattended | driver/axidma_dma.c:539-547 | a concrete blocking call that returns 0 with its transmit descriptor outstanding |
| DriverTheorems.EngineStaysInside | driver/axidma_dma.c:106-124 | asynchronous runs too keep every descriptor in a live buffer, if buffers are closed only when no outstanding descriptor lies in them and every accepted call meets its condition of OneWayInsideExactly, TwoWayInsideExactly or VideoInsideExactly |
| DriverTheorems.CloseSafeExactly | driver/axidma_chrdev.c:206-222 | closing a buffer keeps all outstanding descriptors, issued or not, in live buffers if and only if none of them lies in it |
| DriverLimits.CloseWildExactly | driver/axidma_chrdev.c:206-222 | after closing a buffer some engine activity finishes a descriptor outside every live buffer if and only if an issued descriptor lies in that buffer and in no other |
| DriverLimits.NonEmptyOnlyIn | driver/axidma_chrdev.c:65-72 | a descriptor of at least one byte that lies in a buffer lies in no other |
| DriverLimits.AsyncThenClose | driver/axidma_chrdev.c:206-222 | a concrete run in which an asynchronous write is followed by closing its buffer and the engine finishes outside |
| DriverTheorems.ProperStays | driver/axidma_chrdev.c:65-110 | what an accepted range whose end does not wrap asks for stays in a live buffer |
| DriverLimits.OneWayInsideExactly | driver/axidma_dma.c:357-457 | whatever the stack held and the engine does, an accepted one-way call keeps the engine inside live buffers if and only if its channel is a DMA channel and the bytes it asks for stay in a buffer, which they do for every range whose end does not wrap |
| DriverLimits.TwoWayInsideExactly | driver/axidma_dma.c:496-547 | the same for a two-way call, if and only if what each channel is asked for, the length or the lines of its frame, stays in the buffer it starts in and no VDMA receive channel follows a DMA transmit channel |
| DriverLimits.VideoInsideExactly | driver/axidma_dma.c:552-616 | the same for a video call, if and only if the lines of its frame stay in its first frame buffer whenever the driver's own checks pass |
| DriverLimits.PlainFrame | driver/axidma_dma.c:581-590 | a frame with no negative field and an int size is asked for as it is checked, so the driver's check is enough for a range that does not wrap |
| DriverLimits.FrameRoom | driver/axidma_dma.c:213-229 | for a range that does not wrap, a frame stays in its buffer if and only if its lines as size_t have no more bytes than the room from the range's address to the buffer's end |
| DriverLimits.OneWayVideo | driver/axidma_dma.c:409-457 | a concrete one-way write on a VDMA channel that the engine finishes outside |
| DriverLimits.TwoWayMixedKinds | driver/axidma_dma.c:524-527 | a concrete two-way call from a DMA to a VDMA channel whose frames fit and which the engine finishes outside |
| DriverLimits.TwoWayNullFrames | driver/axidma_dma.c:227-230 | a concrete two-way call with the library's NULL frames that passes the checks and which the engine finishes outside |
| DriverLimits.VideoNegative | driver/axidma_dma.c:581-590 | a concrete video call with two negative fields that passes the checks and which the engine finishes outside |
| DriverLimits.VideoOverflowing | driver/axidma_dma.c:581-590 | a concrete video call of 2^32 bytes that passes the checks and which the engine finishes outside |
| DriverLimits.WrappedRange | driver/axidma_chrdev.c:65-72 | a concrete one-way DMA request whose end wraps: accepted, covered by no buffer, finished outside |
| DriverLimits.PageMappedExists | driver/axidma_chrdev.c:255-323 | the reachable states the concrete runs start from exist: a probed device that has mapped a page |
| DriverTheorems.SignalsMatchCompletions | driver/axidma_dma.c:144-161 | once a valid signal is set, a channel no call blocks on sends exactly one signal with its id per completed descriptor, whatever other channels do; terminated descriptors send none |
| DriverTheorems.SignalsKeepNumber | driver/axidma_dma.c:343-355 | if no other valid signal is set during the run, all signals of the channel carry that number |
| DriverTheorems.SignalsReachCaller | driver/axidma_dma.c:144-161 | if one task makes all calls that name the channel, all signals with its id go to that task, over whole runs and whatever other tasks do elsewhere |
| DriverLimits.TwoTasks | driver/axidma_dma.c:251-255 | a concrete run in which the completion of one task's descriptor is signalled to another task |
| DriverTheorems.ReachableTranslation | driver/axidma_chrdev.c:65-110 | in every reachable state a non-empty range that does not wrap translates exactly when a live buffer covers it, to that buffer's base plus the offset, and no other live buffer covers it; a range that wraps is covered by none |
| DriverTheorems.ReachableKeepsApart | driver/axidma_chrdev.c:74-110 | in every reachable state disjoint ranges that do not wrap translate to disjoint ranges, and a sub-range to the matching place |
| DriverTheorems.ReachableBalanced | driver/axidma_chrdev.c:112-323 | in every reachable state the driver holds exactly one coherent region per mapped buffer and one reference, attachment and mapping per imported one |
| DriverRuns.MmapMemOk | driver/axidma_chrdev.c:255-323 | mmap succeeds exactly when its three kernel calls do; otherwise the device is exactly as before and the call that failed decides the code; the books stay balanced and the regions disjoint |
| DriverRuns.RegisterMemOk | driver/axidma_chrdev.c:112-176 | the same for importing a buffer, with its four kernel calls and the one-segment check |
| DriverRuns.CloseMemOk | driver/axidma_chrdev.c:206-222 | closing gives back exactly the region of the buffer that is unlinked |
| DriverInvariant.WriteGood | driver/axidma_dma.c:242-259 | a half-written callback slot still serves the descriptors that are outstanding: what completes next signals for its own channel or reaches the completion of the call in progress, and that not before it is initialised if the channel had nothing issued |
| DriverInvariant.PrepGood | driver/axidma_dma.c:180-274 | prepare keeps the invariant; it either fails and empties the channel, or submits its descriptor, issues nothing, and if it will wait has initialised its completion |
| DriverInvariant.StartGood | driver/axidma_dma.c:276-319 | start keeps the invariant, issues exactly its channel, and when it waited returns with the channel empty on every path |
| DriverRuns.PairGood | driver/axidma_dma.c:529-547 | the two prepares and two starts keep the invariant and the order of TwoWayOrder |
| Regions.HoldsCovers | driver/axidma_chrdev.c:65-72 | the wrapping check means containment for every range that does not wrap |
| Regions.HoldsImproper | driver/axidma_chrdev.c:65-72 | a range that wraps lies in no buffer, and is accepted for a buffer if and only if it starts after the buffer's start and its wrapped end is not after the buffer's end |
| Regions.TranslateExact | driver/axidma_chrdev.c:65-110 | a range that does not wrap is translated exactly when some live buffer covers it; that buffer is unique and gives base plus offset |
| Regions.TranslateIgnoresOrder | driver/axidma_chrdev.c:83-106 | for ranges that do not wrap the answer does not depend on list order |
| Regions.ImproperOrderMatters | driver/axidma_chrdev.c:83-106 | two buffers and a range that wraps for which it does |
| Regions.TranslateKeepsApart | driver/axidma_chrdev.c:74-110 | disjoint user ranges go to disjoint bus ranges |
| Regions.TranslateSubrange | driver/axidma_chrdev.c:74-110 | a sub-range translates to the outer translation plus the offset |
| Regions.TranslateRoom | driver/axidma_chrdev.c:65-110 | what starts at the translation of a non-empty range stays in live buffers if and only if it fits into the rest of the range's buffer |
| Driver.AxidmaDevice.UservirtToDma | driver/axidma_chrdev.c:74-110 | the two list searches, with wrapping sums, return the translation of the live buffers |
| Driver.AxidmaDevice.GetChan | driver/axidma_dma.c:126-142 | the first channel with the id, or none |
| Driver.AxidmaDevice.DmaCallback | driver/axidma_dma.c:144-161 | wakes the call the slot names, recording whether its completion was initialised, or sends the signal the slot holds with its channel id to the task it holds, or neither |
| Driver.AxidmaDevice.PrepTransfer | driver/axidma_dma.c:180-274 | exactly the prepare step, with engine activity between field writes and before the completion is initialised |
| Driver.AxidmaDevice.StartTransfer | driver/axidma_dma.c:276-319 | exactly the start step |
| Driver.AxidmaDevice.SetSignal | driver/axidma_dma.c:343-355 | accepts exactly the real-time signals |
| Driver.AxidmaDevice.ReadTransfer | driver/axidma_dma.c:357-407 | exactly the one-way call in the read direction |
| Driver.AxidmaDevice.WriteTransfer | driver/axidma_dma.c:409-457 | exactly the one-way call in the write direction |
| Driver.AxidmaDevice.RwTransfer | driver/axidma_dma.c:461-550 | exactly the two-way call |
| Driver.AxidmaDevice.VideoTransfer | driver/axidma_dma.c:552-616 | exactly the video call for every request: every range of image_size bytes must translate, the first one is used for the frame's lines; an unknown channel or an empty frame list makes the kernel follow an invalid pointer |
| Driver.AxidmaDevice.StopChannel | driver/axidma_dma.c:618-635 | terminates everything on the channel; for an unknown id the kernel follows a null pointer |
| Driver.AxidmaDevice.Mmap | driver/axidma_chrdev.c:255-323 | the rollback ladder yields all or nothing |
| Driver.AxidmaDevice.VmaClose | driver/axidma_chrdev.c:206-222 | frees and unlinks the buffer |
| Driver.AxidmaDevice.GetExternal | driver/axidma_chrdev.c:112-176 | the rollback ladder yields all or nothing |
| Driver.AxidmaDevice.Serve | driver/axidma_chrdev.c:343-537 | any legal sequence of calls takes a probed device to a reachable state, the one the run function gives |
| DeviceTree.ChannelTable.ParseCompatible | driver/axidma_of.c:24-61 | sets direction and kind, counts the channel once, changes no other entry |
| DeviceTree.ChannelTable.CheckUniqueIds | driver/axidma_of.c:130-151 | 0 exactly when all ids differ |
| DeviceTree.ChannelTable.ParseDmaNodes | driver/axidma_of.c:204-262 | for every device tree: succeeds exactly when every entry parses and all ids differ; then the table and the counters are those of the entries; the first bad entry decides the error |
| DeviceTree.EntryOutcome | driver/axidma_of.c:83-262 | exactly the entries that name an existing child with an id, a name and no foreign 'compatible' string are accepted, and which code the others get |
| DeviceTree.CellsAreNodes | driver/axidma_of.c:24-61 | if no node lacks its property, the table's channels of a direction and kind are the nodes with the compatible string for it, with their ids, in order |
| DeviceTree.NodeIdsAre | driver/axidma_of.c:204-262 | each node is listed at the place its predecessors leave |
| DeviceTree.CountersSum | driver/axidma_of.c:215-258 | the counters sum to the number of channels if and only if no node lacks its 'compatible' property |
| DeviceTree.CountersAreSizes | driver/axidma_of.c:33-50 | each counter plus the uncounted nodes whose table entry held that direction and kind is the number of table entries of that direction and kind |
| DeviceTree.UncountedSum | driver/axidma_of.c:49-50 | the uncounted nodes of the four lists, and those whose memory held no valid direction and kind, are together the nodes that lack their 'compatible' property |
| DeviceTree.IdsArePermutation | driver/axidma_of.c:130-151 | unique ids in range form a permutation, so every id is found |
| ChannelRequests.ChannelHandles.RequestChannels | driver/axidma_dma.c:641-671 | all or nothing; a refusal at position k releases exactly the first k |
| ChannelRequests.ChannelHandles.Exit | driver/axidma_dma.c:734-752 | every channel is stopped, then released, once |
| ChannelRequests.ChannelHandles.RequestThenExit | driver/axidma_dma.c:641-752 | any request, followed by exit if it worked, leaves every handle held as often as before |
| ChannelRequests.ReleaseUndoesRequest | driver/axidma_dma.c:664-670 | releasing a list of handles undoes requesting it |
| ChannelRequests.StopsThenReleases | driver/axidma_dma.c:734-752 | the events of an exit: two per handle, in table order, the stop before the release |
| Library.AxidmaDev.Allocate | library/libaxidma.c:73-111 | a failed allocation frees exactly the blocks allocated before it, each of them once |
| Library.PlacedExactly | library/libaxidma.c:114-133 | every channel finds its place if and only if every entry holds a direction and a kind and the counters leave enough room |
| Library.AxidmaDev.Categorize | library/libaxidma.c:66-147 | for any table and counters: the first entry without a list makes the assert fail, the first without room a write beyond a list, whichever comes first; otherwise each array is the order-preserving list of its direction and kind, and all are full if and only if the counters fit |
| Library.AxidmaDev.FindChannel | library/libaxidma.c:246-260 | finds the position the driver's search finds |
| Library.LastRegisteredIs | library/libaxidma.c:394-406 | the registration in force is the callback and data of the last event that registered the id, and none without such an event |
| Library.InvocationsAre | library/libaxidma.c:190-215 | the calls of a history are, in order, one per signal that finds a callback, each of the callback and with the data of the last registration for its id before it |
| Library.AnswerableAre | library/libaxidma.c:205-212 | the signals answered are exactly those that arrive while the last registration for their id names a callback |
| Library.AxidmaDev.SetCallbackFor | library/libaxidma.c:394-406 | the callback in force for the id becomes the given one, all others stay |
| Library.AxidmaDev.OnSignal | library/libaxidma.c:190-215 | calls the callback in force for the id, if there is one; aborts for an id outside [0, n] and reads beyond the table for n |
| Library.AxidmaDev.Deliver | library/libaxidma.c:190-215 | over any history of registrations and signals exactly the calls that the most recent registrations demand |
| Library.AxidmaDev.OnewayTransfer | library/libaxidma.c:450-482 | asks for the driver's own direction, so only an unmapped range is refused |
| Library.AxidmaDev.TwowayTransfer | library/libaxidma.c:486-527 | checked ids are never refused by the driver |
| EndToEnd.CountersFitExactly | library/libaxidma.c:79-133 | whatever memory held, the library places all channels of an accepted table if and only if no node lacks its 'compatible' property, and then the counters fit exactly |
| EndToEnd.Discover | library/libaxidma.c:151-188 | from any device tree and memory to full library lists that hold the ids of the nodes with their compatible string, in order; or, exactly when an accepted node lacks its 'compatible' property, to a write beyond a list or a failed assert, the latter only over an entry that held no channel |
| EndToEnd.CallbacksMatchCompletions | library/libaxidma.c:190-240 | on a channel no call blocks on, with registrations and changes of the signal number at any time: there is one call per completed descriptor if and only if every signal of the channel carries the handler's number and arrives while a callback is registered; if one is registered at each arrival, the calls are, in order, those of the callback and data of the last registration before each arrival |
| EndToEnd.OneNumberSuffices | library/libaxidma.c:217-240 | if nobody sets another number, there is one call per completed descriptor if and only if a callback is registered at each arrival |
| EndToEnd.SignalsInRange | library/libaxidma.c:190-206 | no signal of any reachable driver history makes the handler abort or read beyond the table |
| EndToEnd.Dispatch | library/libaxidma.c:190-215 | the library's dispatcher, fed with the signals of a driver run, makes those calls |
| Bits.RevertChar | examples/util_interdma.c:25-40 | in-order reversal, the rest untouched |
| Bits.ReverseTwice | examples/util_interdma.c:25-40 | reversal is its own inverse |
| Bits.Long2Char | examples/util_interdma.c:55-64 | the bytes of the long, most significant first |
| Bits.Char2Bit | examples/util_interdma.c:66-75 | eight bits per byte, most significant first |
| Bits.Bit2Char | examples/util_interdma.c:77-86 | one byte per eight bits, whatever the destination held |
| Bits.PackExpand | examples/util_interdma.c:66-86 | packing undoes expanding for byte arrays of any length |
| Bits.ExpandPack | examples/util_interdma.c:66-86 | expanding undoes packing for 0/1 arrays |
| Bits.StoreLoad | examples/interdma.c:395-404 | splitting a loaded long gives back the bytes it was loaded from, for both signs |
| HeaderCodec.ConstrM2S | examples/util_interdma.c:201-252 | the header bytes of the parameters, whatever the buffer held |
| HeaderCodec.ParseHeader | examples/util_interdma.c:145-199 | parsing a header gives the modulation, Mb mod 64, the block count mod 512, and 0 in the unfilled fields |
| HeaderCodec.HeaderHead | examples/util_interdma.c:133-143 | every header has head 1234 |
| HeaderCodec.HeaderNumber | examples/util_interdma.c:201-252 | the 64 header bits are the number with the head, the three parameters at their places, and nothing else |
| HeaderCodec.HeadDigits | examples/util_interdma.c:133-143 | the head is the four nibbles read as decimal digits; among decimal nibbles only 0x12 0x34 reads 1234 |
| HeaderCodec.ParseFields | examples/util_interdma.c:145-199 | for any 64 bits each of the six fields is its part of the number they spell |
| HeaderCodec.ReceivedFields | examples/interdma.c:391-423 | for any eight received bytes each of the six fields is its part of their little-endian number |
| HeaderCodec.LoadSigned | examples/interdma.c:395-404 | the long the bytes are loaded into is their little-endian number in two's complement |
| HeaderCodec.GetParamS2M | examples/util_interdma.c:145-199 | the six fields of the received bits |
| HeaderCodec.GetParamM2S | examples/util_interdma.c:100-131 | the three fields of the sent bits |
| HeaderCodec.Loopback | examples/interdma.c:391-423 | the whole chain, for every modulation and all integers |
| HeaderCodec.Itobs | examples/util_interdma.c:42-53 | 64 binary digits and a terminator |
| HeaderCodec.ItobsValue | examples/util_interdma.c:42-53 | the digits read in two's complement are the number |
| Frames.BlocksFor | examples/interdma.c:178-211 | the block count is the least sufficient one, from 1 to 362, for every Mb |
| Frames.RandBtw | examples/util.c:181-191 | the random number modulo the width of the range, from its lower bound on, given the bounds in either order |
| Frames.PatternCounts | examples/interdma.c:134-144 | up to word 2^32 the bitwise OR of the pattern and the index is their sum |
| Frames.InitTxData | examples/interdma.c:125-147 | the pattern words, and nothing else written |
| Frames.CleanTxData | examples/interdma.c:151-166 | zeros, and nothing else written |
| Frames.BuildFrame | examples/interdma.c:221-305 | header, pattern words, zeros; nothing beyond MAX_SIZE written |
| Frames.FrameHolds | examples/interdma.c:221-305 | bytes 0 to 7 of a frame are the reversed header, word k of the data is word k of the pattern, all the rest is zero |
| Frames.SendAndDecode | examples/interdma.c:216-305 | the parameters are those the two random numbers give, and a receiver of the frame decodes exactly them |
| Frames.ShowWindow | examples/interdma.c:438-457 | the loop ends after 35 reads: the first five words and the last thirty |
| Frames.WindowEndsExactly | examples/interdma.c:441-457 | the loop ends if and only if there are at least 30 words |
| Frames.WindowInsideExactly | examples/interdma.c:441-457 | for 1 to 511 blocks the reads stay in the buffer if and only if there are at most 510 |
| FileUtil.RobustRead | examples/util.c:87-113 | under any splits and interruptions the next bytes of the stream arrive in order; a non-negative result counts them and is short only at the end or when the last answer was a zero-length one; a negative one is the last answer; all answers before the last moved something or were interruptions; without errors ahead all that can be read is read |
| FileUtil.RobustWrite | examples/util.c:115-141 | the same for writing |
| FileUtil.WriteThenRead | examples/util.c:87-141 | writing a buffer and reading it back is the identity |
| FileUtil.Int2String | examples/util.c:144-178 | the decimal digits and a terminator; the swap loop reverses the digits only |
| FileUtil.ParseDecimalInverse | examples/util.c:144-178 | parsing the result gives the number back; all characters but the sign are digits; no leading zero |

## Left out

- Kernel and OS calls: foreign code; their outcomes are parameters of the operations that make them, and copying to and from user space always works.
- Engine activity during mmap, close, registration and stop: these share no state with a completion but the buffer lists, so they are single steps.
- axidma_put_external: not reachable through the number gate (driver/axidma_chrdev.c:364), and it does not unlink the entry it frees.
- Driver calls on a table entry that holds no direction and kind: the kernel's own checks of the enumerations stop them (driver/axidma_dma.c:83-99).
- Video calls whose number of frame buffers is negative: sizes of the lists are lengths of sequences.
- Driver.AxidmaDevice.VideoTransfer: states containment for the first frame buffer only, because only that one reaches the engine.
- Driver.AxidmaDevice.VmaClose: buffers are values in a sequence and the vma's private pointer is an index; aliasing between list nodes is not modelled.
- Frames.BlocksFor: integers do not overflow; for the Mb from 0 to 63 that random_mm2s draws they cannot.
- FileUtil.Int2String: the most negative int, whose negation does not exist, is printed like any other number.
- FileUtil.RobustRead: follows the code in taking -EINTR as a return value; that the C library reports it through errno is outside the model.
- axidma_dma_init after a failed parse (driver/axidma_dma.c:710-713): it returns without freeing, and no balance is claimed.
- Re-initialising the library after axidma_destroy: the array lengths are not reset; only a first initialisation is modelled (Library.AxidmaDev.Allocate starts with nothing owned).
- The mutexes, condition variables and threads of examples/interdma.c: the waits have no predicate.
- Uniqueness of the head 1234: nibbles above nine make several byte pairs read as 1234.
- The benchmark, UDP, GPIO, UART, interrupt and image programs, argument parsing and printing: plumbing and configuration.
