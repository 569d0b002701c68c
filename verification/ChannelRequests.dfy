// Exclusive requests for the engine channels, and their release
// (driver/axidma_dma.c).
module ChannelRequests {
  import opened Types

  // Calls made to the kernel, in order, with the channel handle concerned.
  datatype Event = Requested(h: nat) | Released(h: nat) | Stopped(h: nat)

  // Each handle is stopped and then released.
  function StopAndRelease(hs: seq<nat>): seq<Event> {
    if hs == [] then [] else StopAndRelease(hs[..|hs| - 1]) + [Stopped(hs[|hs| - 1]), Released(hs[|hs| - 1])]
  }

  function Requests(hs: seq<nat>): seq<Event> {
    seq(|hs|, i requires 0 <= i < |hs| => Requested(hs[i]))
  }

  function Releases(hs: seq<nat>): seq<Event> {
    seq(|hs|, i requires 0 <= i < |hs| => Released(hs[i]))
  }

  // What is held after a history: +1 for a request, -1 for a release.
  function Held(log: seq<Event>, h: nat): int {
    if log == [] then 0
    else
      var e := log[|log| - 1];
      Held(log[..|log| - 1], h)
      + if e == Requested(h) then 1 else if e == Released(h) then -1 else 0
  }

  lemma {:induction false} HeldAppend(log: seq<Event>, more: seq<Event>, h: nat)
    ensures Held(log + more, h) == Held(log, h) + Held(more, h)
  {
    if more == [] {
      assert log + more == log;
    } else {
      var k := |more| - 1;
      HeldAppend(log, more[..k], h);
      assert (log + more)[..|log| + k] == log + more[..k];
    }
  }

  // Releasing, with or without stopping first, undoes requesting.
  lemma {:induction false} ReleaseUndoesRequest(hs: seq<nat>, h: nat)
    ensures Held(Requests(hs) + Releases(hs), h) == 0
    ensures Held(Requests(hs) + StopAndRelease(hs), h) == 0
  {
    HeldAppend(Requests(hs), Releases(hs), h);
    HeldAppend(Requests(hs), StopAndRelease(hs), h);
    if hs != [] {
      var k := |hs| - 1;
      var front := hs[..k];
      ReleaseUndoesRequest(front, h);
      HeldAppend(Requests(front), Releases(front), h);
      HeldAppend(Requests(front), StopAndRelease(front), h);
      assert Requests(hs)[..k] == Requests(front);
      assert Releases(hs)[..k] == Releases(front);
      assert StopAndRelease(hs) == StopAndRelease(front) + [Stopped(hs[k])] + [Released(hs[k])];
      HeldAppend(StopAndRelease(front), [Stopped(hs[k])], h);
      HeldAppend(StopAndRelease(front) + [Stopped(hs[k])], [Released(hs[k])], h);
      assert [Stopped(hs[k])][..0] == [] && [Released(hs[k])][..0] == [];
    }
  }

  // Said of its events: two per handle, in table order, the stop before the
  // release.
  lemma {:induction false} StopsThenReleases(hs: seq<nat>)
    ensures |StopAndRelease(hs)| == 2 * |hs|
    ensures forall i :: 0 <= i < |hs| ==>
              StopAndRelease(hs)[2 * i] == Stopped(hs[i]) && StopAndRelease(hs)[2 * i + 1] == Released(hs[i])
  {
    if hs != [] {
      StopsThenReleases(hs[..|hs| - 1]);
    }
  }

  // The `chan` fields of the channel table.
  class ChannelHandles {
    const chans: array<Option<nat>>
    ghost var log: seq<Event>

    constructor (numChans: nat)
      ensures chans.Length == numChans && fresh(chans) && log == []
    {
      chans := new Option<nat>[numChans](_ => None);
      log := [];
    }

    // The handles of the first n channels.
    ghost function Handles(n: nat): (hs: seq<nat>)
      requires n <= chans.Length && forall i :: 0 <= i < n ==> chans[i].Some?
      reads chans
    {
      seq(n, i requires 0 <= i < n reads chans requires chans[i].Some? => chans[i].value)
    }

    // `grants[i]` is what the kernel answers for channel i. All or nothing: a
    // refusal at position k releases exactly the first k, oldest first.
    method RequestChannels(grants: seq<Option<nat>>) returns (rc: int)
      requires |grants| == chans.Length
      modifies this, chans
      ensures rc == if (forall i :: 0 <= i < |grants| ==> grants[i].Some?) then 0 else -ENODEV
      ensures rc == 0 ==> chans[..] == grants && log == old(log) + Requests(Handles(chans.Length))
      ensures rc != 0 ==>
                exists hs :: |hs| < |grants| && grants[|hs|] == None
                             && (forall i :: 0 <= i < |hs| ==> grants[i] == Some(hs[i]))
                             && log == old(log) + (Requests(hs) + Releases(hs))
    {
      var numReserved := 0;
      var i := 0;
      while i < chans.Length
        invariant i == numReserved <= chans.Length
        invariant forall j :: 0 <= j < i ==> grants[j].Some? && chans[j] == grants[j]
        invariant log == old(log) + Requests(Handles(i))
      {
        chans[i] := grants[i];
        if chans[i] == None {
          ghost var hs := Handles(i);
          assert log == old(log) + Requests(hs);
          ReleaseFirst(numReserved);
          assert log == old(log) + (Requests(hs) + Releases(hs));
          return -ENODEV;
        }
        log := log + [Requested(chans[i].value)];
        numReserved := numReserved + 1;
        i := i + 1;
        assert Requests(Handles(i)) == Requests(Handles(i - 1)) + [Requested(chans[i - 1].value)];
      }
      return 0;
    }

    // The loop at the release_channels label
    method ReleaseFirst(n: nat)
      requires n <= chans.Length && forall i :: 0 <= i < n ==> chans[i].Some?
      modifies this`log
      ensures log == old(log) + Releases(Handles(n))
    {
      for i := 0 to n
        invariant log == old(log) + Releases(Handles(i))
      {
        log := log + [Released(chans[i].value)];
        assert Releases(Handles(i + 1)) == Releases(Handles(i)) + [Released(chans[i].value)];
      }
    }

    // `axidma_dma_exit`
    method Exit()
      requires forall i :: 0 <= i < chans.Length ==> chans[i].Some?
      modifies this`log
      ensures log == old(log) + StopAndRelease(Handles(chans.Length))
    {
      for i := 0 to chans.Length
        invariant log == old(log) + StopAndRelease(Handles(i))
      {
        log := log + [Stopped(chans[i].value)];
        log := log + [Released(chans[i].value)];
        assert Handles(i + 1)[..i] == Handles(i);
      }
    }

    // Whether the request fails or is followed by an exit, every handle ends
    // up held as often as before.
    method RequestThenExit(grants: seq<Option<nat>>) returns (rc: int)
      requires |grants| == chans.Length
      modifies this, chans
      ensures forall h :: Held(log, h) == Held(old(log), h)
    {
      rc := RequestChannels(grants);
      if rc == 0 {
        ghost var hs := Handles(chans.Length);
        Exit();
        assert log == old(log) + (Requests(hs) + StopAndRelease(hs));
        forall h: nat ensures Held(log, h) == Held(old(log), h) {
          HeldAppend(old(log), Requests(hs) + StopAndRelease(hs), h);
          ReleaseUndoesRequest(hs, h);
        }
      } else {
        ghost var hs :| |hs| < |grants| && log == old(log) + (Requests(hs) + Releases(hs));
        forall h: nat ensures Held(log, h) == Held(old(log), h) {
          HeldAppend(old(log), Requests(hs) + Releases(hs), h);
          ReleaseUndoesRequest(hs, h);
        }
      }
    }
  }
}
