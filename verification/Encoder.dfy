/** The life cycle of `FFmpegEncoder` in internal/encode/ffmpeg.go: `Encode`, `restart`,
    `kill` and `Close` against the goroutines that run beside them, proved against module
    EncoderRun. */
module Encoder {
  import opened Basics
  import opened EncoderRun

  // ---------------------------------------------------------------- the write channel

  /** A call on the encoder, with the value of `running` it sees and the outcome of `start`. */
  datatype Call = EncodeCall(running: bool, startOk: bool) | CloseCall

  datatype ChanOp = SendOn | CloseChan | MakeChan

  /** What a call does to `writeCh`. */
  function ChanOps(c: Call): seq<ChanOp> {
    match c
    case EncodeCall(true, _) => [SendOn]
    case EncodeCall(false, startOk) => [CloseChan, MakeChan] + if startOk then [SendOn] else []
    case CloseCall => [CloseChan]
  }

  /** Whether the current channel is open after `ops`, or a panic. */
  function Perform(open: bool, ops: seq<ChanOp>): Option<bool>
    decreases |ops|
  {
    if ops == [] then Some(open)
    else
      match ops[0]
      case MakeChan => Perform(true, ops[1..])
      case SendOn => if open then Perform(true, ops[1..]) else None
      case CloseChan => if open then Perform(false, ops[1..]) else None
  }

  function AllOps(calls: seq<Call>): seq<ChanOp> {
    if calls == [] then [] else ChanOps(calls[0]) + AllOps(calls[1..])
  }

  lemma {:induction false} PerformAppend(open: bool, a: seq<ChanOp>, b: seq<ChanOp>)
    ensures Perform(open, a + b) == match Perform(open, a) case None => None case Some(o) => Perform(o, b)
    decreases |a|
  {
    if a == [] {
      assert a + b == b;
    } else {
      assert (a + b)[1..] == a[1..] + b;
      var next := a[0] != CloseChan;
      PerformAppend(next, a[1..], b);
    }
  }

  lemma PerformCall(c: Call)
    ensures Perform(true, ChanOps(c)) == Some(c != CloseCall)
    ensures ChanOps(c) != [] && ChanOps(c)[0] != MakeChan
  {
    var ops := ChanOps(c);
    if c.EncodeCall? && !c.running {
      var tail: seq<ChanOp> := if c.startOk then [SendOn] else [];
      assert ops[1..] == [MakeChan] + tail;
      assert ([MakeChan] + tail)[1..] == tail;
      assert tail != [] ==> tail[1..] == [];
      assert Perform(true, tail) == Some(true);
      assert Perform(false, [MakeChan] + tail) == Some(true);
    } else {
      assert ops[1..] == [];
    }
  }

  /** A run of calls is free of panics exactly when nothing is called after a `Close`, not
      even `Close`: whatever `running` says then, a closed channel is sent on or closed. */
  lemma {:induction false} SafeIffNothingAfterClose(calls: seq<Call>)
    ensures Perform(true, AllOps(calls)).Some? <==> forall i :: 0 <= i < |calls| - 1 ==> calls[i] != CloseCall
    decreases |calls|
  {
    if calls != [] {
      var c, rest := calls[0], calls[1..];
      PerformCall(c);
      PerformAppend(true, ChanOps(c), AllOps(rest));
      SafeIffNothingAfterClose(rest);
      if c == CloseCall && rest != [] {
        PerformCall(rest[0]);
        assert AllOps(rest)[0] == ChanOps(rest[0])[0];
        assert calls[0] == CloseCall;
      }
      assert forall i :: 0 <= i < |rest| ==> rest[i] == calls[i + 1];
    }
  }

  lemma {:induction false} AllOpsAppend(a: seq<Call>, b: seq<Call>)
    ensures AllOps(a + b) == AllOps(a) + AllOps(b)
    decreases |a|
  {
    if a == [] {
      Nil(b);
      Nil(AllOps(b));
    } else {
      AllOpsAppend(a[1..], b);
      assert (a + b)[1..] == a[1..] + b;
      Assoc(ChanOps(a[0]), AllOps(a[1..]), AllOps(b));
    }
  }

  lemma AllOpsSnoc(calls: seq<Call>, c: Call)
    ensures AllOps(calls + [c]) == AllOps(calls) + ChanOps(c)
  {
    AllOpsAppend(calls, [c]);
    Nil(ChanOps(c));
  }

  /** Some calls of `Encode`, by the value of `running` that each sees. */
  function Seen(calls: seq<Request>): seq<Call> {
    if calls == [] then []
    else
      var init, plan := calls[..|calls| - 1], calls[|calls| - 1].plan;
      Seen(init) + [EncodeCall(!FindsStopped(Run(init).now, plan), plan.startOk)]
  }

  // ---------------------------------------------------------------- the class

  /** `writeCh`. Sending on it or closing it once closed would panic, so neither is allowed. */
  class WriteChan {
    var frames: seq<Bytes>
    var closed: bool
    ghost var closes: nat
    ghost var offered: seq<Bytes>
    ghost var log: seq<ChanOp>

    constructor ()
      ensures frames == [] && !closed && closes == 0 && offered == [] && log == []
    {
      frames, closed, closes, offered, log := [], false, 0, [], [];
    }

    /** A full queue drops the frame. */
    method TrySend(raw: Bytes)
      requires !closed
      modifies this`frames, this`offered, this`log
      ensures frames == old(frames) + if |old(frames)| < WRITE_CAPACITY then [raw] else []
      ensures offered == old(offered) + [raw] && log == old(log) + [SendOn]
    {
      if |frames| < WRITE_CAPACITY {
        frames := frames + [raw];
      }
      offered := offered + [raw];
      log := log + [SendOn];
    }

    method Close()
      requires !closed
      modifies this`closed, this`closes, this`log
      ensures closed && closes == old(closes) + 1 && log == old(log) + [CloseChan]
    {
      closed, closes, log := true, closes + 1, log + [CloseChan];
    }
  }

  class FFmpegEncoder {
    var nalCh: seq<Bytes>
    var writeCh: WriteChan
    var running: bool
    var firstFrame: bool
    ghost var happened: seq<Env>
    ghost var dropped: nat
    ghost var discarded: nat
    ghost var retired: seq<WriteChan>   // earlier write channels

    ghost function Now(): State
      reads this, writeCh
    {
      State(nalCh, running, firstFrame, writeCh.frames, writeCh.offered,
            happened, dropped, discarded, |retired|)
    }

    /** What has been done to the write channels, one after the other. */
    static ghost function Logs(chans: seq<WriteChan>): seq<ChanOp>
      reads (set c | c in chans)`log
    {
      if chans == [] then []
      else Logs(chans[..|chans| - 1]) + chans[|chans| - 1].log + [MakeChan]
    }

    ghost function Log(): seq<ChanOp>
      reads this`retired, this`writeCh, writeCh`log, (set c | c in retired)`log
    {
      Logs(retired) + writeCh.log
    }

    ghost predicate RetiredClosedOnce()
      reads this, retired
    {
      forall k :: 0 <= k < |retired| ==> retired[k].closed && retired[k].closes == 1 && retired[k] != writeCh
    }

    /** The current write channel is open, the earlier ones are closed. */
    ghost predicate Open()
      reads this, writeCh, retired
    {
      RetiredClosedOnce() && !writeCh.closed && writeCh.closes == 0
    }

    /** `NewFFmpegEncoder` when ffmpeg starts. */
    constructor ()
      ensures Open() && Now() == FRESH && fresh(writeCh) && Log() == []
      ensures nalCh == [] && running && firstFrame && writeCh.frames == []
    {
      nalCh, running, firstFrame := [], true, true;
      writeCh := new WriteChan();
      happened, dropped, discarded, retired := [], 0, 0, [];
    }

    /** Goroutines run for a while. */
    method Environment(steps: seq<Env>)
      modifies this`nalCh, this`happened, this`dropped, this`running, writeCh`frames
      ensures Now() == HappenAll(old(Now()), steps)
    {
      for k := 0 to |steps|
        invariant Now() == HappenAll(old(Now()), steps[..k])
      {
        PrefixOfPrefix(steps, k);
        happened := happened + [steps[k]];
        match steps[k]
        case Emit(nal) =>
          if |nalCh| < NAL_CAPACITY {
            nalCh := nalCh + [nal];
          } else {
            dropped := dropped + 1;
          }
        case Running(on) =>
          running := on;
        case WriterTakes =>
          if writeCh.frames != [] {
            writeCh.frames := writeCh.frames[1..];
          }
      }
      assert steps[..|steps|] == steps;
    }

    /** The loop that empties `nalCh`. */
    method DiscardAll(rounds: seq<seq<Env>>)
      modifies this`nalCh, this`happened, this`dropped, this`discarded, this`running, writeCh`frames
      ensures Now() == Killed(old(Now()), rounds)
    {
      var todo := rounds;
      while true
        invariant Killed(Now(), todo) == Killed(old(Now()), rounds)
        decreases |todo|, |nalCh|
      {
        if todo != [] {
          Environment(todo[0]);
        }
        if nalCh == [] {
          return;
        }
        nalCh := nalCh[1..];
        discarded := discarded + 1;
        todo := Rest(todo);
      }
    }

    method Kill(rounds: seq<seq<Env>>)
      requires Open()
      modifies this`nalCh, this`happened, this`dropped, this`discarded, this`running, writeCh
      ensures Now() == Killed(old(Now()), rounds) && Log() == old(Log()) + [CloseChan]
      ensures RetiredClosedOnce() && writeCh.closed && writeCh.closes == 1
    {
      Assoc(Logs(retired), writeCh.log, [CloseChan]);
      writeCh.Close();
      DiscardAll(rounds);
    }

    /** `e.writeCh = make(chan []byte, 2)`, the old channel closed. */
    method Replace()
      requires RetiredClosedOnce() && writeCh.closed && writeCh.closes == 1
      modifies this`writeCh, this`retired
      ensures Open() && fresh(writeCh) && retired == old(retired) + [old(writeCh)]
      ensures Now() == old(Now()).(frames := [], offered := [], restarts := old(Now()).restarts + 1)
      ensures Log() == old(Log()) + [MakeChan]
    {
      InitOfSnoc(retired, writeCh);
      Nil(Log() + [MakeChan]);
      retired := retired + [writeCh];
      writeCh := new WriteChan();
    }

    /** The first half of `restart`. */
    method Renew(rounds: seq<seq<Env>>)
      requires Open()
      modifies this`nalCh, this`happened, this`dropped, this`discarded, this`running
      modifies this`writeCh, this`retired, writeCh
      ensures Open() && Now() == Renewed(old(Now()), rounds)
      ensures fresh(writeCh) && retired == old(retired) + [old(writeCh)]
      ensures Log() == old(Log()) + [CloseChan, MakeChan]
    {
      KilledKeeps(Now(), rounds);
      ghost var log := Log();
      Kill(rounds);
      Replace();
      Assoc(log, [CloseChan], [MakeChan]);
      assert [CloseChan] + [MakeChan] == [CloseChan, MakeChan];
    }

    /** A new write channel whatever `start` answers, so that the next `kill` has an open one
        to close. */
    method Restart(plan: Plan) returns (ok: bool)
      requires Open()
      modifies this`nalCh, this`happened, this`dropped, this`discarded, this`running
      modifies this`writeCh, this`retired, writeCh
      ensures Open() && Now() == Restarted(old(Now()), plan) && ok == plan.startOk
      ensures fresh(writeCh) && retired == old(retired) + [old(writeCh)]
      ensures Log() == old(Log()) + [CloseChan, MakeChan]
    {
      Renew(plan.kill);
      Environment(plan.starting);
      if plan.startOk {
        running := true;
      }
      return plan.startOk;
    }

    method Drain(rounds: seq<seq<Env>>) returns (result: seq<Bytes>)
      modifies this`nalCh, this`happened, this`dropped, this`running, writeCh`frames
      ensures After(Now(), result) == Drained(old(Now()), rounds)
    {
      result := [];
      var todo := rounds;
      ghost var whole := Drained(Now(), rounds);
      Nil(whole.result);
      while true
        invariant var d := Drained(Now(), todo); whole == After(d.now, result + d.result)
        decreases |todo|, |nalCh|
      {
        ghost var rest := Drained(Now(), todo);
        if todo != [] {
          Environment(todo[0]);
        }
        Nil(result);
        if nalCh == [] {
          return;
        }
        Assoc(result, [nalCh[0]], rest.result[1..]);
        result := result + [nalCh[0]];
        nalCh := nalCh[1..];
        todo := Rest(todo);
      }
    }

    /** The wait for output after the first frame; `None` when the context is cancelled. */
    method WaitFirst(plan: Plan, result: seq<Bytes>) returns (more: Option<seq<Bytes>>)
      modifies this`nalCh, this`happened, this`dropped, this`discarded, this`running, writeCh`frames
      ensures After(Now(), more) == Waited(old(Now()), plan, result)
    {
      Environment(plan.waiting);
      match plan.wait
      case Cancelled =>
        discarded := discarded + |result|;
        return None;
      case GotNal =>
        if nalCh != [] {
          more := Some(result + [nalCh[0]]);
          nalCh := nalCh[1..];
          return;
        }
        return Some(result);
      case Timeout =>
        return Some(result);
    }

    method OfferFrame(frame: I420Frame)
      requires Open()
      modifies writeCh`frames, writeCh`offered, writeCh`log
      ensures Open() && Now() == Offered(old(Now()), Raw(frame)) && Log() == old(Log()) + [SendOn]
    {
      Assoc(Logs(retired), writeCh.log, [SendOn]);
      writeCh.TrySend(Raw(frame));
    }

    /** Drain, then offer the frame. */
    method Trade(frame: I420Frame, plan: Plan) returns (result: seq<Bytes>)
      requires Open()
      modifies this`nalCh, this`happened, this`dropped, this`running
      modifies writeCh`frames, writeCh`offered, writeCh`log
      ensures Open() && After(Now(), result) == Traded(old(Now()), frame, plan)
      ensures Log() == old(Log()) + [SendOn]
    {
      result := Drain(plan.drain);
      Environment(plan.sending);
      OfferFrame(frame);
    }

    /** Drain, offer the frame, and for the first frame wait. */
    method Exchange(frame: I420Frame, plan: Plan) returns (r: Option<seq<Bytes>>)
      requires Open()
      modifies this`nalCh, this`happened, this`dropped, this`discarded, this`running, this`firstFrame
      modifies writeCh`frames, writeCh`offered, writeCh`log
      ensures Open() && After(Now(), r) == Exchanged(old(Now()), frame, plan)
      ensures Log() == old(Log()) + [SendOn]
    {
      var result := Trade(frame, plan);
      if !firstFrame {
        return Some(result);
      }
      firstFrame := false;
      r := WaitFirst(plan, result);
    }

    /** `None` is an error return; what had been drained is then lost. */
    method Encode(frame: I420Frame, plan: Plan) returns (r: Option<seq<Bytes>>)
      requires Open()
      modifies this, writeCh
      ensures Open() && After(Now(), r) == Encoded(old(Now()), frame, plan)
      ensures if old(FindsStopped(Now(), plan))
              then fresh(writeCh) && retired == old(retired + [writeCh])
              else writeCh == old(writeCh) && retired == old(retired)
      ensures Log() == old(Log()) + ChanOps(EncodeCall(!old(FindsStopped(Now(), plan)), plan.startOk))
    {
      ghost var log := Log();
      Environment(plan.before);
      if !running {
        var ok := Restart(plan);
        if !ok {
          Nil([CloseChan, MakeChan]);
          return None;
        }
        Assoc(log, [CloseChan, MakeChan], [SendOn]);
      }
      r := Exchange(frame, plan);
    }

    method Close(rounds: seq<seq<Env>>)
      requires Open()
      modifies this`nalCh, this`happened, this`dropped, this`discarded, this`running, writeCh
      ensures Now() == Killed(old(Now()), rounds) && Log() == old(Log()) + [CloseChan]
      ensures RetiredClosedOnce() && writeCh.closed && writeCh.closes == 1
    {
      Kill(rounds);
    }
  }

  /** New and any number of Encode calls. */
  method RunCalls(calls: seq<Request>) returns (e: FFmpegEncoder, results: seq<Option<seq<Bytes>>>)
    ensures fresh(e) && fresh(e.writeCh) && e.Open()
    ensures After(e.Now(), results) == Run(calls) && e.Log() == AllOps(Seen(calls))
  {
    e := new FFmpegEncoder();
    results := [];
    for k := 0 to |calls|
      invariant fresh(e) && fresh(e.writeCh) && e.Open()
      invariant After(e.Now(), results) == Run(calls[..k])
      invariant e.Log() == AllOps(Seen(calls[..k]))
    {
      PrefixOfPrefix(calls, k);
      AllOpsSnoc(Seen(calls[..k]), EncodeCall(!FindsStopped(e.Now(), calls[k].plan), calls[k].plan.startOk));
      var r := e.Encode(calls[k].frame, calls[k].plan);
      results := results + [r];
    }
    assert calls[..|calls|] == calls;
  }

  /** A whole run: New, any number of Encode calls, one Close. Its results, what happened and
      the restarts are those of the calls and of closing. Every write channel ever made, one
      and one more for each call that found the process stopped, is closed exactly once. The
      results are, in order, among the chunks that the readers emitted; what is missing was
      dropped at a full channel or discarded with an old process or a cancelled call. */
  method Session(calls: seq<Request>, closing: seq<seq<Env>>)
    returns (e: FFmpegEncoder, results: seq<Option<seq<Bytes>>>)
    ensures results == Run(calls).result
    ensures e.Now() == Killed(Run(calls).now, closing)
    ensures |e.retired| == StoppedCalls(calls)
    ensures forall c :: c in e.retired || c == e.writeCh ==> c.closed && c.closes == 1
    ensures e.Log() == AllOps(Seen(calls) + [CloseCall])
    ensures Subsequence(e.happened, AllPlanned(calls) + Flatten(closing))
    ensures Subsequence(Delivered(results), Emits(e.happened))
    ensures |Delivered(results)| + e.dropped + e.discarded == |Emits(e.happened)|
    ensures Delivered(results) == Emits(e.happened) <==> e.dropped == 0 && e.discarded == 0
  {
    e, results := RunCalls(calls);
    RunSound(calls);
    RestartsCounted(calls);
    KilledSound(e.Now(), closing, Delivered(results));
    RunWithin(calls);
    KilledWithin(e.Now(), closing, AllPlanned(calls));
    KilledKeeps(e.Now(), closing);
    AllOpsSnoc(Seen(calls), CloseCall);
    e.Close(closing);
    Nil(Delivered(results));
    if e.dropped == 0 && e.discarded == 0 {
      SubsequenceWhole(Delivered(results), Emits(e.happened));
    }
  }
}
