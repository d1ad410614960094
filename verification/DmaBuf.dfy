/** Ownership of DMA-BUF file descriptors in internal/capture/kms.go and
    internal/capture/cursor.go: each is held by the capturer or by the pointer state, through
    every failure, and closed exactly once. The answers of DRM and EGL are inputs. */
module DmaBuf {
  import opened Basics

  lemma {:induction false} AboveAll(used: set<int>) returns (bound: nat)
    ensures forall fd :: fd in used ==> fd < bound
    decreases |used|
  {
    if x :| x in used {
      var rest := AboveAll(used - {x});
      bound := if x < rest then rest else x + 1;
      forall fd | fd in used ensures fd < bound {
        assert fd == x || fd in used - {x};
      }
    } else {
      bound := 0;
    }
  }

  lemma {:induction false} FreeDescriptor(used: set<int>)
    ensures exists fd :: fd >= 0 && fd !in used
  {
    var bound := AboveAll(used);
    assert bound !in used;
  }

  /** The kernel's view. An acquisition is numbered when `drmPrimeHandleToFD` succeeds; the
      descriptor number it gets may be one that was used and closed before. */
  class Kernel {
    var open: map<int, nat>     // descriptor -> acquisition
    var closes: seq<nat>        // how often each acquisition has been closed

    constructor ()
      ensures Valid() && open == map[] && closes == []
    {
      open, closes := map[], [];
    }

    /** Acquisition `n` has not been closed. */
    static ghost predicate Outstanding(open: map<int, nat>, n: int) {
      exists fd :: fd in open && open[fd] == n
    }

    ghost predicate Valid()
      reads this
    {
      && (forall fd :: fd in open ==> fd >= 0 && open[fd] < |closes|)
      && (forall fd, fd' :: fd in open && fd' in open && open[fd] == open[fd'] ==> fd == fd')
      && (forall n :: 0 <= n < |closes| ==> closes[n] == if Outstanding(open, n) then 0 else 1)
    }

    method Acquire() returns (fd: int)
      requires Valid()
      modifies this
      ensures Valid() && fd >= 0 && fd !in old(open)
      ensures open == old(open)[fd := |old(closes)|] && |closes| == |old(closes)| + 1
    {
      FreeDescriptor(open.Keys);
      fd :| fd >= 0 && fd !in open;
      open := open[fd := |closes|];
      closes := closes + [0];
      forall n | 0 <= n < |closes| ensures closes[n] == if Outstanding(open, n) then 0 else 1 {
        if n < |old(closes)| && Outstanding(old(open), n) {
          var f :| f in old(open) && old(open)[f] == n;
          assert open[f] == n;
        }
        if n == |old(closes)| {
          assert open[fd] == n;
        }
      }
    }

    /** Closing a descriptor that is not open would hit whatever has the number now. */
    method Close(fd: int)
      requires Valid() && fd in open
      modifies this
      ensures Valid() && open == old(open) - {fd} && |closes| == |old(closes)|
    {
      var n := open[fd];
      open := open - {fd};
      closes := closes[n := closes[n] + 1];
      assert Outstanding(old(open), n) by {
        assert fd in old(open) && old(open)[fd] == n;
      }
      forall m | 0 <= m < |closes| ensures closes[m] == if Outstanding(open, m) then 0 else 1 {
        if m != n && Outstanding(old(open), m) {
          var f :| f in old(open) && old(open)[f] == m;
          assert open[f] == m;
        }
      }
    }
  }

  /** What one `get_cursor_info` and the EGL calls after it answer. */
  datatype CursorPoll = Invalid | Shown(fbID: nat, importOk: bool, readOk: bool)

  lemma Replaced(open: map<int, nat>, held: set<int>, fd: int, n: nat)
    requires fd !in open
    ensures (open[fd := n] - held) - {fd} == open - held
  {}

  lemma Returned(open: map<int, nat>, fd: int, n: nat)
    requires fd !in open
    ensures open[fd := n] - {fd} == open
  {}

  class CursorState {
    var lastFBID: nat
    var lastDMAFD: int

    constructor ()
      ensures lastDMAFD == -1 && lastFBID == 0
    {
      lastFBID, lastDMAFD := 0, -1;
    }

    ghost function Held(): set<int>
      reads this
    {
      if lastDMAFD >= 0 then {lastDMAFD} else {}
    }

    /** A new descriptor takes the place of the held one, which is closed. */
    method Replace(kernel: Kernel, fd: int)
      requires kernel.Valid() && Held() <= kernel.open.Keys && fd in kernel.open && fd !in Held()
      modifies this`lastDMAFD, kernel
      ensures kernel.Valid() && lastDMAFD == fd && Held() == {fd}
      ensures kernel.open == old(kernel.open) - old(Held()) && |kernel.closes| == |old(kernel.closes)|
    {
      if lastDMAFD >= 0 {
        kernel.Close(lastDMAFD);
      } else {
        assert kernel.open - Held() == kernel.open;
      }
      lastDMAFD := fd;
    }

    /** `drawn` says whether a pointer image is returned. */
    method Capture(kernel: Kernel, poll: CursorPoll) returns (drawn: bool)
      requires kernel.Valid() && Held() <= kernel.open.Keys
      modifies this, kernel
      ensures kernel.Valid() && Held() <= kernel.open.Keys
      ensures kernel.open - Held() == old(kernel.open - Held())
      ensures poll.Invalid? ==> |kernel.closes| == |old(kernel.closes)| && lastFBID == old(lastFBID)
      ensures poll.Invalid? || poll.fbID == old(lastFBID) ==> lastDMAFD == old(lastDMAFD)
      ensures poll.Shown? && poll.fbID != old(lastFBID) ==> lastDMAFD >= 0 && lastDMAFD !in old(kernel.open)
      ensures poll.Shown? ==> |kernel.closes| == |old(kernel.closes)| + 1 && lastFBID == poll.fbID
      ensures drawn <==> poll.Shown? && poll.readOk && (poll.importOk || poll.fbID == old(lastFBID))
    {
      if poll.Invalid? {
        return false;
      }
      var fd := kernel.Acquire();
      if poll.fbID != lastFBID {
        lastFBID := poll.fbID;
        Replace(kernel, fd);
        Replaced(old(kernel.open), old(Held()), fd, |old(kernel.closes)|);
        if !poll.importOk {
          return false;
        }
      } else {
        kernel.Close(fd);
        Returned(old(kernel.open), fd, |old(kernel.closes)|);
      }
      return poll.readOk;
    }

    /** The field keeps its value: with a descriptor held, a second `Close` right away would
        close a number that is no longer its own. */
    method Close(kernel: Kernel)
      requires kernel.Valid() && Held() <= kernel.open.Keys
      modifies kernel
      ensures kernel.Valid() && kernel.open == old(kernel.open) - Held()
      ensures |kernel.closes| == |old(kernel.closes)|
      ensures Held() <= kernel.open.Keys <==> Held() == {}
    {
      if lastDMAFD >= 0 {
        kernel.Close(lastDMAFD);
      } else {
        assert kernel.open - Held() == kernel.open;
      }
      assert lastDMAFD !in kernel.open - Held();
    }
  }

  /** The answers met by `NewKMSCapturer`. */
  datatype Setup = Setup(
    cardOk: bool, eglOk: bool, planeOk: bool, fbInfoOk: bool, importOk: bool, planeFB: nat, hasCursor: bool)

  predicate SetupOk(s: Setup) {
    s.cardOk && s.eglOk && s.planeOk && s.fbInfoOk && s.importOk
  }

  /** The answers met by one `NextFrame`. */
  datatype Poll = Poll(
    cancelled: bool, planeFB: nat, fbInfoOk: bool, importOk: bool, readOk: bool, cursor: CursorPoll)

  /** A framebuffer's descriptor is obtained ... */
  predicate ObtainsBuffer(poll: Poll) {
    !poll.cancelled && poll.planeFB != 0 && poll.fbInfoOk
  }

  /** ... and a frame is returned. */
  predicate FrameOk(poll: Poll) {
    ObtainsBuffer(poll) && poll.importOk && poll.readOk
  }

  /** Descriptors obtained by one `NextFrame`. */
  function Obtained(poll: Poll, hasCursor: bool): nat {
    (if ObtainsBuffer(poll) then 1 else 0)
    + (if FrameOk(poll) && hasCursor && poll.cursor.Shown? then 1 else 0)
  }

  function ObtainedByAll(polls: seq<Poll>, hasCursor: bool): nat {
    if polls == [] then 0
    else ObtainedByAll(polls[..|polls| - 1], hasCursor) + Obtained(polls[|polls| - 1], hasCursor)
  }

  /** Descriptors obtained by the constructor. */
  function ObtainedBySetup(s: Setup): nat {
    if s.cardOk && s.eglOk && s.planeOk && s.fbInfoOk then 1 else 0
  }

  /** Descriptors obtained by a whole run. */
  function Acquisitions(setup: Setup, polls: seq<Poll>): nat {
    ObtainedBySetup(setup) + if SetupOk(setup) then ObtainedByAll(polls, setup.hasCursor) else 0
  }

  class KMSCapturer {
    const kernel: Kernel
    const cursor: CursorState?
    var lastFBID: nat
    var lastDMAFD: int

    constructor (kernel: Kernel, cursor: CursorState?, fbID: nat, fd: int)
      ensures this.kernel == kernel && this.cursor == cursor && lastFBID == fbID && lastDMAFD == fd
    {
      this.kernel, this.cursor, lastFBID, lastDMAFD := kernel, cursor, fbID, fd;
    }

    ghost function Own(): set<int>
      reads this
    {
      if lastDMAFD >= 0 then {lastDMAFD} else {}
    }

    ghost function Pointer(): set<int>
      reads if cursor == null then {} else {cursor}
    {
      if cursor == null then {} else cursor.Held()
    }

    /** Between calls the open descriptors are exactly the two kinds this capturer answers
        for and those of the rest of the process, and none is counted twice. */
    ghost predicate Valid(others: map<int, nat>)
      reads this, kernel, if cursor == null then {} else {cursor}
    {
      && kernel.Valid() && Own() + Pointer() <= kernel.open.Keys && Own() !! Pointer()
      && kernel.open - (Own() + Pointer()) == others
    }

    /** The new framebuffer's descriptor replaces the old one. */
    method TakeBuffer(currentFB: nat, ghost others: map<int, nat>)
      requires Valid(others)
      modifies this, kernel
      ensures Valid(others) && lastFBID == currentFB
      ensures lastDMAFD >= 0 && lastDMAFD !in old(kernel.open)
      ensures |kernel.closes| == |old(kernel.closes)| + 1
    {
      var fd := kernel.Acquire();
      if lastDMAFD >= 0 {
        kernel.Close(lastDMAFD);
      }
      lastDMAFD := fd;
      lastFBID := currentFB;
      assert kernel.open - (Own() + Pointer()) == others;
    }

    method TakePointer(poll: CursorPoll, ghost others: map<int, nat>)
      requires Valid(others) && cursor != null
      modifies kernel, cursor
      ensures Valid(others)
      ensures |kernel.closes| == |old(kernel.closes)| + if poll.Shown? then 1 else 0
    {
      ghost var own := kernel.open - cursor.Held();
      assert own - Own() == others && Own() <= own.Keys;
      var drawn := cursor.Capture(kernel, poll);
      assert kernel.open - (Own() + Pointer()) == own - Own();
    }

    /** `ok` says whether a frame is returned. Every exit keeps the books. */
    method NextFrame(poll: Poll, ghost others: map<int, nat>) returns (ok: bool)
      requires Valid(others)
      modifies this, kernel, if cursor == null then {} else {cursor}
      ensures Valid(others)
      ensures ok <==> !poll.cancelled && poll.planeFB != 0 && poll.fbInfoOk && poll.importOk && poll.readOk
      ensures |kernel.closes| == |old(kernel.closes)|
              + (if !poll.cancelled && poll.planeFB != 0 && poll.fbInfoOk then 1 else 0)
              + (if ok && cursor != null && poll.cursor.Shown? then 1 else 0)
      ensures if !poll.cancelled && poll.planeFB != 0 && poll.fbInfoOk
              then lastDMAFD >= 0 && lastDMAFD !in old(kernel.open) && lastFBID == poll.planeFB
              else lastDMAFD == old(lastDMAFD) && lastFBID == old(lastFBID) && kernel.open == old(kernel.open)
      ensures !ok ==> Pointer() == old(Pointer())
    {
      if poll.cancelled {
        return false;
      }
      var currentFB := poll.planeFB;
      if currentFB == 0 {
        return false;
      }
      if !poll.fbInfoOk {
        return false;
      }
      TakeBuffer(currentFB, others);
      if !poll.importOk {
        return false;
      }
      if !poll.readOk {
        return false;
      }
      if cursor != null {
        TakePointer(poll.cursor, others);
      }
      return true;
    }

    /** What `Close` closes is open: closing it hits nothing else. */
    ghost predicate MayClose()
      reads this, kernel, if cursor == null then {} else {cursor}
    {
      kernel.Valid() && Own() + Pointer() <= kernel.open.Keys && Own() !! Pointer()
    }

    /** Everything held is closed. Calling `Close` once more is safe exactly when no pointer
        descriptor was held, whose number is not forgotten. */
    method Close()
      requires MayClose()
      modifies this, kernel
      ensures kernel.Valid() && |kernel.closes| == |old(kernel.closes)|
      ensures kernel.open == old(kernel.open - (Own() + Pointer()))
      ensures lastDMAFD < 0 && Pointer() == old(Pointer())
      ensures MayClose() <==> old(Pointer()) == {}
    {
      ghost var own, pointer := Own(), Pointer();
      if lastDMAFD >= 0 {
        kernel.Close(lastDMAFD);
        lastDMAFD := -1;
      }
      assert kernel.open == old(kernel.open) - own;
      if cursor != null {
        cursor.Close(kernel);
      }
      assert kernel.open == old(kernel.open) - own - pointer == old(kernel.open) - (own + pointer);
      assert forall fd :: fd in pointer ==> fd !in kernel.open;
    }
  }

  /** `NewKMSCapturer`; a failure after the acquisition gives the descriptor back. */
  method NewKMSCapturer(kernel: Kernel, setup: Setup) returns (c: KMSCapturer?)
    requires kernel.Valid()
    modifies kernel
    ensures kernel.Valid()
    ensures |kernel.closes| == |old(kernel.closes)|
            + if setup.cardOk && setup.eglOk && setup.planeOk && setup.fbInfoOk then 1 else 0
    ensures c != null <==>
            setup.cardOk && setup.eglOk && setup.planeOk && setup.fbInfoOk && setup.importOk
    ensures c == null ==> kernel.open == old(kernel.open)
    ensures c != null ==> fresh(c) && c.kernel == kernel && c.Valid(old(kernel.open))
    ensures c != null ==> c.lastDMAFD >= 0 && c.lastDMAFD !in old(kernel.open) && c.lastFBID == setup.planeFB
    ensures c != null ==> (c.cursor != null <==> setup.hasCursor)
    ensures c != null && c.cursor != null ==> fresh(c.cursor) && c.cursor.lastDMAFD == -1
  {
    if !setup.cardOk || !setup.eglOk || !setup.planeOk || !setup.fbInfoOk {
      return null;
    }
    var fd := kernel.Acquire();
    if !setup.importOk {
      kernel.Close(fd);
      assert kernel.open == old(kernel.open);
      return null;
    }
    var cursor: CursorState? := null;
    if setup.hasCursor {
      cursor := new CursorState();
    }
    c := new KMSCapturer(kernel, cursor, setup.planeFB, fd);
    assert kernel.open - {fd} == old(kernel.open);
    assert c.Own() + c.Pointer() == {fd};
  }

  /** With the same descriptors open as before, what was obtained since has been closed once,
      and nothing else has been closed. */
  lemma Settled(kernel: Kernel, open: map<int, nat>, closes: seq<nat>)
    requires kernel.Valid() && kernel.open == open && |closes| <= |kernel.closes|
    requires forall fd :: fd in open ==> open[fd] < |closes|
    requires forall n :: 0 <= n < |closes| ==> closes[n] == if Kernel.Outstanding(open, n) then 0 else 1
    ensures forall n :: |closes| <= n < |kernel.closes| ==> kernel.closes[n] == 1
    ensures kernel.closes[..|closes|] == closes
  {}

  /** Any number of frames with any failures. */
  method Frames(c: KMSCapturer, polls: seq<Poll>, ghost others: map<int, nat>) returns (frames: seq<bool>)
    requires c.Valid(others)
    modifies c, c.kernel, if c.cursor == null then {} else {c.cursor}
    ensures c.Valid(others)
    ensures |c.kernel.closes| == |old(c.kernel.closes)| + ObtainedByAll(polls, c.cursor != null)
    ensures |frames| == |polls| && forall i :: 0 <= i < |polls| ==> frames[i] == FrameOk(polls[i])
  {
    frames := [];
    for k := 0 to |polls|
      invariant c.Valid(others)
      invariant |c.kernel.closes| == |old(c.kernel.closes)| + ObtainedByAll(polls[..k], c.cursor != null)
      invariant |frames| == k && forall i :: 0 <= i < k ==> frames[i] == FrameOk(polls[i])
    {
      PrefixOfPrefix(polls, k);
      var ok := c.NextFrame(polls[k], others);
      frames := frames + [ok];
    }
    assert polls[..|polls|] == polls;
  }

  /** A whole run in a process that may have other descriptors open: constructor, any number
      of frames with any failures, one `Close`. It obtains as many descriptors as its answers
      say, in the end each has been closed exactly once, and the others are as before. */
  method Session(kernel: Kernel, setup: Setup, polls: seq<Poll>) returns (frames: seq<bool>)
    requires kernel.Valid()
    modifies kernel
    ensures kernel.Valid() && kernel.open == old(kernel.open)
    ensures |kernel.closes| == |old(kernel.closes)| + Acquisitions(setup, polls)
    ensures forall n :: |old(kernel.closes)| <= n < |kernel.closes| ==> kernel.closes[n] == 1
    ensures kernel.closes[..|old(kernel.closes)|] == old(kernel.closes)
    ensures |frames| == if SetupOk(setup) then |polls| else 0
    ensures forall k :: 0 <= k < |frames| ==>
              (frames[k] <==> !polls[k].cancelled && polls[k].planeFB != 0 && polls[k].fbInfoOk
                              && polls[k].importOk && polls[k].readOk)
  {
    frames := [];
    ghost var others := kernel.open;
    var c := NewKMSCapturer(kernel, setup);
    if c != null {
      frames := Frames(c, polls, others);
      c.Close();
    }
    Settled(kernel, old(kernel.open), old(kernel.closes));
  }

  /** Without failures every poll obtains one descriptor, and one more for a shown pointer. */
  lemma {:induction false} AcquisitionsCount(setup: Setup, polls: seq<Poll>)
    requires setup.cardOk && setup.eglOk && setup.planeOk && setup.fbInfoOk && setup.importOk
    requires forall k :: 0 <= k < |polls| ==>
               !polls[k].cancelled && polls[k].planeFB != 0 && polls[k].fbInfoOk
               && polls[k].importOk && polls[k].readOk && polls[k].cursor.Shown?
    ensures Acquisitions(setup, polls) == 1 + |polls| * if setup.hasCursor then 2 else 1
    decreases |polls|
  {
    if polls != [] {
      AcquisitionsCount(setup, polls[..|polls| - 1]);
    }
  }
}
