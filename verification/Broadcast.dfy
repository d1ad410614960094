/** `Broadcast` and `BroadcastAudio` of internal/server/server.go with the registry at rest:
    framing, the IDR cache, the counters and every client's queue. Concurrent registration
    is the subject of module ServerProtocol. */
module Broadcast {
  import opened Basics
  import opened AnnexB
  import opened Keyframe
  import opened Protocol
  import opened ClientQueue

  class Client {
    var send: seq<Bytes>
    var taken: seq<Bytes>
    ghost var offered: seq<Bytes>

    constructor ()
      ensures State() == Empty()
    {
      send, taken, offered := [], [], [];
    }

    ghost function State(): Queue<Bytes>
      reads this
    {
      Queue(send, taken, offered)
    }

    /** The non-blocking send: a full buffer drops the message. */
    method Send(msg: Bytes)
      modifies this
      ensures State() == Apply(old(State()), Offer(msg))
    {
      if |send| < WRITE_BUFFER_SIZE {
        send := send + [msg];
      }
      offered := offered + [msg];
    }

    /** The receiving case of `writePump`; nothing happens while the channel is empty. */
    method Receive() returns (msg: Option<Bytes>)
      modifies this
      ensures State() == Apply(old(State()), Take)
      ensures msg == if old(send) == [] then None else Some(old(send)[0])
    {
      if send == [] {
        return None;
      }
      msg := Some(send[0]);
      taken := taken + [send[0]];
      send := send[1..];
    }
  }

  /** One NAL of one `Broadcast` call. */
  datatype Frame = Frame(nal: Bytes, width: uint16, height: uint16, timestamp: uint64)

  function Framed(f: Frame): Bytes {
    VideoMessage(f.nal, f.width, f.height, f.timestamp)
  }

  function FrameAll(frames: seq<Frame>): (r: seq<Bytes>)
    ensures |r| == |frames| && forall k :: 0 <= k < |r| ==> r[k] == Framed(frames[k])
  {
    seq(|frames|, k requires 0 <= k < |frames| => Framed(frames[k]))
  }

  function LastIDR(cached: Option<Bytes>, frames: seq<Frame>): Option<Bytes> {
    if frames == [] then cached
    else
      var f := frames[|frames| - 1];
      if IsIDR(f.nal) then Some(Framed(f)) else LastIDR(cached, frames[..|frames| - 1])
  }

  function ByteCount(frames: seq<Frame>): nat {
    if frames == [] then 0
    else ByteCount(frames[..|frames| - 1]) + HEADER_SIZE + |frames[|frames| - 1].nal|
  }

  function OfferedAll(q: Queue<Bytes>, msgs: seq<Bytes>): Queue<Bytes> {
    if msgs == [] then q else Apply(OfferedAll(q, msgs[..|msgs| - 1]), Offer(msgs[|msgs| - 1]))
  }

  function Add64(a: uint64, b: nat): uint64 {
    (a + b) % 0x1_0000_0000_0000_0000
  }

  /** A counter and an exact total agree modulo 2^64, and are equal until it wraps. */
  lemma CounterIsTotal(a: uint64, b: nat)
    ensures (a + b - Add64(a, b)) % 0x1_0000_0000_0000_0000 == 0
    ensures a + b < 0x1_0000_0000_0000_0000 ==> Add64(a, b) == a + b
  {}

  lemma Add64Twice(a: uint64, b: nat, c: nat)
    ensures Add64(Add64(a, b), c) == Add64(a, b + c)
  {}

  /** The frames of one call: its NALs share size and timestamp. */
  function CallFrames(nals: seq<Bytes>, width: uint16, height: uint16, timestamp: uint64): (r: seq<Frame>)
    ensures |r| == |nals| && forall k :: 0 <= k < |r| ==> r[k] == Frame(nals[k], width, height, timestamp)
  {
    seq(|nals|, k requires 0 <= k < |nals| => Frame(nals[k], width, height, timestamp))
  }

  lemma FrameStep(cached: Option<Bytes>, frames: seq<Frame>, k: nat)
    requires k < |frames|
    ensures LastIDR(cached, frames[..k + 1])
            == if IsIDR(frames[k].nal) then Some(Framed(frames[k])) else LastIDR(cached, frames[..k])
    ensures ByteCount(frames[..k + 1]) == ByteCount(frames[..k]) + HEADER_SIZE + |frames[k].nal|
    ensures forall q :: OfferedAll(q, FrameAll(frames[..k + 1]))
                        == Apply(OfferedAll(q, FrameAll(frames[..k])), Offer(Framed(frames[k])))
  {
    assert frames[..k + 1][..k] == frames[..k];
    assert FrameAll(frames[..k + 1])[..k] == FrameAll(frames[..k]);
  }

  method BuildMessage(typ: byte, payload: Bytes, width: uint16, height: uint16, timestamp: uint64)
    returns (msg: Bytes)
    ensures msg == Message(typ, payload, width, height, timestamp)
  {
    var hdrBytes := new byte[HEADER_SIZE](_ => 0);
    MarshalHeader(FrameHeader(typ, timestamp, width, height, SizeField(|payload|)), hdrBytes);
    msg := hdrBytes[..] + payload;
    assert hdrBytes[..] == HeaderBytes(FrameHeader(typ, timestamp, width, height, SizeField(|payload|)));
  }

  class Server {
    var clients: set<Client>
    var lastIDR: Option<Bytes>
    var framesBroadcast: uint64
    var bytesBroadcast: uint64

    constructor ()
      ensures clients == {} && lastIDR == None && framesBroadcast == 0 && bytesBroadcast == 0
    {
      clients, lastIDR, framesBroadcast, bytesBroadcast := {}, None, 0, 0;
    }

    /** `clients.Range(Send)`: every registered client once, in any order. */
    method SendToAll(msg: Bytes)
      modifies clients
      ensures forall c :: c in clients ==> c.State() == Apply(old(c.State()), Offer(msg))
    {
      var todo := clients;
      while todo != {}
        invariant todo <= clients
        invariant forall c :: c in todo ==> c.State() == old(c.State())
        invariant forall c :: c in clients - todo ==> c.State() == Apply(old(c.State()), Offer(msg))
        decreases |todo|
      {
        var c :| c in todo;
        c.Send(msg);
        todo := todo - {c};
      }
    }

    /** The loop body: frame, cache, fan out, count. */
    method BroadcastOne(nal: Bytes, width: uint16, height: uint16, timestamp: uint64)
      modifies this`lastIDR, this`framesBroadcast, this`bytesBroadcast, clients
      ensures var msg := VideoMessage(nal, width, height, timestamp);
              && lastIDR == (if IsIDR(nal) then Some(msg) else old(lastIDR))
              && framesBroadcast == (old(framesBroadcast) + 1) % 0x1_0000_0000_0000_0000
              && bytesBroadcast == (old(bytesBroadcast) + 17 + |nal|) % 0x1_0000_0000_0000_0000
              && forall c :: c in clients ==> c.State() == Apply(old(c.State()), Offer(msg))
    {
      var msg := BuildMessage(FRAME_TYPE_VIDEO_H264, nal, width, height, timestamp);
      if IsIDR(nal) {
        lastIDR := Some(msg);
      }
      SendToAll(msg);
      framesBroadcast := Add64(framesBroadcast, 1);
      bytesBroadcast := Add64(bytesBroadcast, |msg|);
    }

    method Broadcast(nals: seq<Bytes>, width: uint16, height: uint16, timestamp: uint64)
      modifies this`lastIDR, this`framesBroadcast, this`bytesBroadcast, clients
      ensures var frames := CallFrames(nals, width, height, timestamp);
              && lastIDR == LastIDR(old(lastIDR), frames)
              && framesBroadcast == Add64(old(framesBroadcast), |nals|)
              && bytesBroadcast == Add64(old(bytesBroadcast), ByteCount(frames))
              && forall c :: c in clients ==> c.State() == OfferedAll(old(c.State()), FrameAll(frames))
    {
      ghost var frames := CallFrames(nals, width, height, timestamp);
      for k := 0 to |nals|
        invariant lastIDR == LastIDR(old(lastIDR), frames[..k])
        invariant framesBroadcast == Add64(old(framesBroadcast), k)
        invariant bytesBroadcast == Add64(old(bytesBroadcast), ByteCount(frames[..k]))
        invariant forall c :: c in clients ==> c.State() == OfferedAll(old(c.State()), FrameAll(frames[..k]))
      {
        FrameStep(old(lastIDR), frames, k);
        Add64Twice(old(framesBroadcast), k, 1);
        Add64Twice(old(bytesBroadcast), ByteCount(frames[..k]), HEADER_SIZE + |nals[k]|);
        BroadcastOne(nals[k], width, height, timestamp);
      }
      assert frames[..|nals|] == frames;
    }

    method BroadcastAudio(pcm: Bytes, timestamp: uint64)
      modifies clients
      ensures forall c :: c in clients ==>
                c.State() == Apply(old(c.State()), Offer(AudioMessage(pcm, timestamp)))
    {
      var msg := BuildMessage(FRAME_TYPE_AUDIO_PCM, pcm, 48000, 2, timestamp);
      SendToAll(msg);
    }
  }

  // ---------------------------------------------------------------- over whole runs

  lemma {:induction false} LastIDRAppend(cached: Option<Bytes>, a: seq<Frame>, b: seq<Frame>)
    ensures LastIDR(cached, a + b) == LastIDR(LastIDR(cached, a), b)
    ensures ByteCount(a + b) == ByteCount(a) + ByteCount(b)
    decreases |b|
  {
    if b == [] {
      assert a + b == a;
    } else {
      assert (a + b)[..|a + b| - 1] == a + b[..|b| - 1];
      LastIDRAppend(cached, a, b[..|b| - 1]);
    }
  }

  /** The arguments of one `Broadcast` call. */
  datatype Call = Call(nals: seq<Bytes>, width: uint16, height: uint16, timestamp: uint64)

  function RunFrames(calls: seq<Call>): seq<Frame> {
    if calls == [] then []
    else
      var c := calls[|calls| - 1];
      RunFrames(calls[..|calls| - 1]) + CallFrames(c.nals, c.width, c.height, c.timestamp)
  }

  lemma {:induction false} OfferedAppend(q: Queue<Bytes>, a: seq<Bytes>, b: seq<Bytes>)
    ensures OfferedAll(q, a + b) == OfferedAll(OfferedAll(q, a), b)
    decreases |b|
  {
    if b == [] {
      Nil(a);
    } else {
      var init, m := b[..|b| - 1], b[|b| - 1];
      OfferedAppend(q, a, init);
      Snoc(b);
      Assoc(a, init, [m]);
      InitOfSnoc(a + init, m);
    }
  }

  lemma FrameAllAppend(a: seq<Frame>, b: seq<Frame>)
    ensures FrameAll(a + b) == FrameAll(a) + FrameAll(b)
  {}

  lemma OfferedFrames(before: seq<Frame>, now: seq<Frame>)
    ensures forall q :: OfferedAll(q, FrameAll(before + now))
                        == OfferedAll(OfferedAll(q, FrameAll(before)), FrameAll(now))
  {
    FrameAllAppend(before, now);
    forall q
      ensures OfferedAll(q, FrameAll(before + now)) == OfferedAll(OfferedAll(q, FrameAll(before)), FrameAll(now))
    {
      OfferedAppend(q, FrameAll(before), FrameAll(now));
    }
  }

  lemma RunFramesStep(calls: seq<Call>, k: nat)
    requires k < |calls|
    ensures var c := calls[k];
            RunFrames(calls[..k + 1])
            == RunFrames(calls[..k]) + CallFrames(c.nals, c.width, c.height, c.timestamp)
  {
    PrefixOfPrefix(calls, k);
  }

  lemma RunTotals(calls: seq<Call>, k: nat, cached: Option<Bytes>, count: uint64, bytes: uint64)
    requires k < |calls|
    ensures var c := calls[k];
            var before, now := RunFrames(calls[..k]), CallFrames(c.nals, c.width, c.height, c.timestamp);
            var after := RunFrames(calls[..k + 1]);
            && LastIDR(cached, after) == LastIDR(LastIDR(cached, before), now)
            && Add64(count, |after|) == Add64(Add64(count, |before|), |now|)
            && Add64(bytes, ByteCount(after)) == Add64(Add64(bytes, ByteCount(before)), ByteCount(now))
  {
    var c := calls[k];
    var before, now := RunFrames(calls[..k]), CallFrames(c.nals, c.width, c.height, c.timestamp);
    RunFramesStep(calls, k);
    LastIDRAppend(cached, before, now);
    Add64Twice(count, |before|, |now|);
    Add64Twice(bytes, ByteCount(before), ByteCount(now));
  }

  lemma RunOffers(calls: seq<Call>, k: nat)
    requires k < |calls|
    ensures var c := calls[k];
            var now := CallFrames(c.nals, c.width, c.height, c.timestamp);
            forall q :: OfferedAll(q, FrameAll(RunFrames(calls[..k + 1])))
                        == OfferedAll(OfferedAll(q, FrameAll(RunFrames(calls[..k]))), FrameAll(now))
  {
    var c := calls[k];
    RunFramesStep(calls, k);
    OfferedFrames(RunFrames(calls[..k]), CallFrames(c.nals, c.width, c.height, c.timestamp));
  }

  /** A frame that the encoder skipped is not broadcast. */
  method BroadcastCall(s: Server, call: Call)
    modifies s`lastIDR, s`framesBroadcast, s`bytesBroadcast, s.clients
    ensures var now := CallFrames(call.nals, call.width, call.height, call.timestamp);
            && s.lastIDR == LastIDR(old(s.lastIDR), now)
            && s.framesBroadcast == Add64(old(s.framesBroadcast), |now|)
            && s.bytesBroadcast == Add64(old(s.bytesBroadcast), ByteCount(now))
            && forall c :: c in s.clients ==> c.State() == OfferedAll(old(c.State()), FrameAll(now))
  {
    if |call.nals| > 0 {
      s.Broadcast(call.nals, call.width, call.height, call.timestamp);
    }
  }

  /** The encoding loop: over any run of calls the cache frames the last IDR, the counters are
      the exact totals modulo 2^64, and every client is offered every frame in order. */
  method BroadcastRun(s: Server, calls: seq<Call>)
    modifies s`lastIDR, s`framesBroadcast, s`bytesBroadcast, s.clients
    ensures s.lastIDR == LastIDR(old(s.lastIDR), RunFrames(calls))
    ensures s.framesBroadcast == Add64(old(s.framesBroadcast), |RunFrames(calls)|)
    ensures s.bytesBroadcast == Add64(old(s.bytesBroadcast), ByteCount(RunFrames(calls)))
    ensures forall c :: c in s.clients ==> c.State() == OfferedAll(old(c.State()), FrameAll(RunFrames(calls)))
  {
    for k := 0 to |calls|
      invariant s.lastIDR == LastIDR(old(s.lastIDR), RunFrames(calls[..k]))
      invariant s.framesBroadcast == Add64(old(s.framesBroadcast), |RunFrames(calls[..k])|)
      invariant s.bytesBroadcast == Add64(old(s.bytesBroadcast), ByteCount(RunFrames(calls[..k])))
      invariant forall c :: c in s.clients ==>
                  c.State() == OfferedAll(old(c.State()), FrameAll(RunFrames(calls[..k])))
    {
      RunTotals(calls, k, old(s.lastIDR), old(s.framesBroadcast), old(s.bytesBroadcast));
      RunOffers(calls, k);
      BroadcastCall(s, calls[k]);
    }
    assert calls[..|calls|] == calls;
  }

  /** The frames of a run are those of its calls, call after call. */
  lemma {:induction false} RunFramesAre(calls: seq<Call>)
    ensures RunFrames(calls)
            == Flatten(seq(|calls|, k requires 0 <= k < |calls| =>
                                      CallFrames(calls[k].nals, calls[k].width, calls[k].height, calls[k].timestamp)))
    decreases |calls|
  {
    var all := seq(|calls|, k requires 0 <= k < |calls| =>
                              CallFrames(calls[k].nals, calls[k].width, calls[k].height, calls[k].timestamp));
    if calls != [] {
      var n := |calls| - 1;
      RunFramesAre(calls[..n]);
      Snoc(all);
      FlattenAppend(all[..n], [all[n]]);
      FlattenOne(all[n]);
      assert all[..n] == seq(n, k requires 0 <= k < n =>
                                  CallFrames(calls[..n][k].nals, calls[..n][k].width, calls[..n][k].height, calls[..n][k].timestamp));
    }
  }

  /** Offering messages offers each once, in order, and takes none. */
  lemma {:induction false} OfferedAllOffers(q: Queue<Bytes>, msgs: seq<Bytes>)
    ensures var t := OfferedAll(q, msgs);
            t.offered == q.offered + msgs && t.taken == q.taken && q.send <= t.send
    decreases |msgs|
  {
    if msgs == [] {
      Nil(q.offered);
    } else {
      var n := |msgs| - 1;
      OfferedAllOffers(q, msgs[..n]);
      Snoc(msgs);
      Assoc(q.offered, msgs[..n], [msgs[n]]);
    }
  }

  ghost predicate NewestIDR(frames: seq<Frame>, k: int) {
    0 <= k < |frames| && IsIDR(frames[k].nal) && forall j :: k < j < |frames| ==> !IsIDR(frames[j].nal)
  }

  lemma NewestInInit(frames: seq<Frame>, k: int)
    requires NewestIDR(frames, k) && k < |frames| - 1
    ensures NewestIDR(frames[..|frames| - 1], k) && !IsIDR(frames[|frames| - 1].nal)
  {}

  lemma {:induction false} NewestIsCached(cached: Option<Bytes>, frames: seq<Frame>, k: int)
    requires NewestIDR(frames, k)
    ensures LastIDR(cached, frames) == Some(Framed(frames[k]))
    decreases |frames|
  {
    var n := |frames| - 1;
    if k < n {
      NewestInInit(frames, k);
      NewestIsCached(cached, frames[..n], k);
    }
  }

  lemma {:induction false} FindNewest(cached: Option<Bytes>, frames: seq<Frame>) returns (k: int)
    ensures k == -1 || NewestIDR(frames, k)
    ensures k == -1 ==> LastIDR(cached, frames) == cached
                        && forall j :: 0 <= j < |frames| ==> !IsIDR(frames[j].nal)
    decreases |frames|
  {
    var n := |frames| - 1;
    if frames == [] {
      k := -1;
    } else if IsIDR(frames[n].nal) {
      k := n;
    } else {
      k := FindNewest(cached, frames[..n]);
    }
  }

  /** The cache holds the newest IDR of the run and nothing else. */
  lemma CacheIsNewestIDR(frames: seq<Frame>, msg: Bytes)
    ensures LastIDR(None, frames) == Some(msg)
            <==> exists k :: NewestIDR(frames, k) && msg == Framed(frames[k])
  {
    var k := FindNewest(None, frames);
    if k != -1 {
      NewestIsCached(None, frames, k);
    }
  }

  /** What a new client is sent from the cache, its browser decodes as a key chunk. */
  lemma CachedFrameStartsDecoder(frames: seq<Frame>, msg: Bytes)
    requires LastIDR(None, frames) == Some(msg)
    requires forall k :: 0 <= k < |frames| ==> |frames[k].nal| < 0x1_0000_0000
    ensures OnMessage(msg).Video? && SeenAsKey(OnMessage(msg).nal)
  {
    CacheIsNewestIDR(frames, msg);
    var k :| NewestIDR(frames, k) && msg == Framed(frames[k]);
    var f := frames[k];
    FramingRoundTrip(f.nal, f.width, f.height, f.timestamp);
    CachedIsKey([], f.nal);
    assert [] + f.nal == f.nal;
  }
}
