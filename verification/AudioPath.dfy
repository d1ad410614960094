/** The whole audio path, from the recorder's output to the loudspeaker: chunk framing, the
    frame header, decoding and the worklet together keep order and channels. */
module AudioPath {
  import opened Basics
  import opened Protocol
  import opened AudioCapture
  import opened Worklet
  import ServerOrder
  import ServerProtocol

  /** What a broadcast chunk that survives all queues becomes in the browser: framing and
      unframing are invisible, the worklet gets exactly its samples. */
  lemma ChunkReachesWorklet(chunk: Bytes, ts: uint64)
    requires |chunk| == CHUNK_BYTES
    ensures OnMessage(AudioMessage(chunk, ts)).Audio?
    ensures Decode(OnMessage(AudioMessage(chunk, ts)).pcm) == Decode(chunk)
    ensures |Decode(chunk)| == CHUNK_SAMPLES
  {
    AudioRoundTrip(chunk, ts);
  }

  function DecodeAll(chunks: seq<Bytes>): (r: seq<seq<Sample>>)
    ensures |r| == |chunks| && forall d :: 0 <= d < |r| ==> r[d] == Decode(chunks[d])
  {
    seq(|chunks|, d requires 0 <= d < |chunks| => Decode(chunks[d]))
  }

  lemma PrefixExtend(part: seq<Bytes>, prefix: seq<Bytes>, whole: seq<Bytes>)
    requires Subsequence(part, prefix) && prefix <= whole
    ensures Subsequence(part, whole)
  {
    SubsequenceExtend(part, prefix, whole[|prefix|..]);
    assert prefix + whole[|prefix|..] == whole;
  }

  lemma DecodeKeepsOrder(part: seq<Bytes>, whole: seq<Bytes>)
    requires Subsequence(part, whole)
    ensures Subsequence(DecodeAll(part), DecodeAll(whole))
  {
    var at: seq<nat> :| Embeds(part, whole, at);
    assert Embeds(DecodeAll(part), DecodeAll(whole), at);
  }

  /** The chunks that some messages carry, the `j`-th broadcast being `received[j]`. */
  function Carried(msgs: seq<ServerProtocol.Msg>, received: seq<Bytes>): seq<Bytes> {
    if msgs == [] then []
    else
      var m := msgs[|msgs| - 1];
      Carried(msgs[..|msgs| - 1], received)
      + if m.Audio? && m.j < |received| then [received[m.j]] else []
  }

  /** Messages whose chunks rise carry a subsequence of what was broadcast. */
  lemma {:induction false} CarriedInOrder(msgs: seq<ServerProtocol.Msg>, received: seq<Bytes>, bound: nat)
    requires ServerOrder.AudioRises(msgs) && ServerOrder.AudioBelow(msgs, bound) && bound <= |received|
    ensures Subsequence(Carried(msgs, received), received[..bound])
    decreases |msgs|
  {
    if msgs == [] {
      var none: seq<Bytes> := [];
      SubsequenceRefl(none);
      SubsequenceExtend(none, none, received[..bound]);
      Nil(received[..bound]);
    } else {
      var init, m := msgs[..|msgs| - 1], msgs[|msgs| - 1];
      if m.Audio? {
        CarriedInOrder(init, received, m.j);
        PrefixOfPrefix(received, m.j);
        SubsequenceKeep(Carried(init, received), received[..m.j], received[m.j]);
        PrefixExtend(Carried(msgs, received), received[..m.j + 1], received[..bound]);
      } else {
        CarriedInOrder(init, received, bound);
        Nil(Carried(init, received));
      }
    }
  }

  /** Every audio message carries its chunk. */
  lemma {:induction false} AllCarried(msgs: seq<ServerProtocol.Msg>, received: seq<Bytes>, i: nat)
    requires i < |msgs| && msgs[i].Audio? && msgs[i].j < |received|
    ensures received[msgs[i].j] in Carried(msgs, received)
    decreases |msgs|
  {
    var n := |msgs| - 1;
    if i < n {
      AllCarried(msgs[..n], received, i);
    } else {
      var before := Carried(msgs[..n], received);
      assert Carried(msgs, received)[|before|] == received[msgs[i].j];
    }
  }

  /** A run of the whole path: the read loop makes `rounds` rounds over `sessions`, `removed` is
      how its chunks left the channel, the broadcaster's chunk `j` is the `j`-th received, and
      client `c` takes what its pump takes under any schedule of the server; the worklet may
      miss some of that. */
  ghost predicate Path(sessions: seq<Bytes>, rounds: nat, ch: seq<Bytes>, removed: seq<Removal>,
                       s: ServerProtocol.State, c: nat, events: seq<Event>) {
    && sessions != [] && Removed(removed) + ch == Produced(sessions[0], sessions[1..], rounds)
    && c < |s.conns| && s.chunks <= |ReceivedChunks(removed)|
    && Subsequence(Messages(events), DecodeAll(Carried(s.conns[c].queue.taken, ReceivedChunks(removed))))
  }

  /** Every stage keeps order, in every interleaving of the server: the worklet's messages are
      a subsequence of the decoded blocks of all recordings. */
  lemma StagesKeepOrder(sessions: seq<Bytes>, rounds: nat, ch: seq<Bytes>, removed: seq<Removal>,
                        hasInput: bool, schedule: seq<ServerProtocol.Step>, c: nat, events: seq<Event>)
    requires Path(sessions, rounds, ch, removed, ServerProtocol.StateAfter(hasInput, schedule), c, events)
    ensures Subsequence(Messages(events), DecodeAll(AllBlocks(sessions)))
  {
    var s := ServerProtocol.StateAfter(hasInput, schedule);
    var received, pushed := ReceivedChunks(removed), Produced(sessions[0], sessions[1..], rounds);
    var taken := Carried(s.conns[c].queue.taken, received);
    ServerOrder.TakenInOrder(hasInput, schedule, c);
    CarriedInOrder(s.conns[c].queue.taken, received, s.chunks);
    PrefixExtend(taken, received[..s.chunks], received);
    Accounting(ch, pushed, removed);
    SubsequenceTrans(taken, received, pushed);
    ProducedBlocks(sessions[0], sessions[1..], rounds);
    PrefixExtend(taken, pushed, AllBlocks(sessions));
    DecodeKeepsOrder(taken, AllBlocks(sessions));
    SubsequenceTrans(Messages(events), DecodeAll(taken), DecodeAll(AllBlocks(sessions)));
  }

  // ---------------------------------------------------------------- places in the recordings

  /** Sample `sample` of recording `session`. */
  datatype Spot = Spot(session: nat, sample: nat)

  predicate Earlier(a: Spot, b: Spot) {
    a.session < b.session || (a.session == b.session && a.sample < b.sample)
  }

  ghost predicate IsAt(v: Sample, sessions: seq<Bytes>, spot: Spot) {
    && spot.session < |sessions| && 2 * spot.sample + 2 <= |sessions[spot.session]|
    && v == SampleAt(sessions[spot.session], spot.sample)
  }

  /** Where sample `j` of block `b` of all recordings comes from. */
  function Origin(sessions: seq<Bytes>, b: nat, j: nat): Spot
    requires b < |AllBlocks(sessions)|
    decreases |sessions|
  {
    var own := |Blocks(sessions[0])|;
    if b < own then Spot(0, b * CHUNK_SAMPLES + j)
    else
      var spot := Origin(sessions[1..], b - own, j);
      Spot(spot.session + 1, spot.sample)
  }

  lemma EvenStart(half: nat, j: nat)
    ensures (2 * half + j) % 2 == j % 2
  {}

  lemma Strides(m: nat, j: nat)
    ensures m * CHUNK_BYTES == 2 * (m * CHUNK_SAMPLES)
    ensures (m * CHUNK_SAMPLES + j) % 2 == j % 2
  {
    assert m * CHUNK_SAMPLES == 2 * (m * 960);
    EvenStart(m * 960, j);
  }

  lemma SliceIndex(s: Bytes, lo: nat, hi: nat, k: nat)
    requires lo + k < hi <= |s|
    ensures s[lo..hi][k] == s[lo + k]
  {}

  /** A block that starts at sample `first` of its recording. */
  lemma SampleOfBlock(session: Bytes, block: Bytes, off: nat, first: nat, j: nat)
    requires off == 2 * first && off + CHUNK_BYTES <= |session| && j < CHUNK_SAMPLES
    requires block == session[off..off + CHUNK_BYTES]
    ensures IsAt(SampleAt(block, j), [session], Spot(0, first + j))
  {
    SliceIndex(session, off, off + CHUNK_BYTES, 2 * j);
    SliceIndex(session, off, off + CHUNK_BYTES, 2 * j + 1);
  }

  lemma BlockSample(session: Bytes, m: nat, j: nat)
    requires m < |Blocks(session)| && j < CHUNK_SAMPLES
    ensures |Blocks(session)[m]| == CHUNK_BYTES
    ensures IsAt(SampleAt(Blocks(session)[m], j), [session], Spot(0, m * CHUNK_SAMPLES + j))
    ensures (m * CHUNK_SAMPLES + j) % 2 == j % 2
  {
    BlockAt(session, m);
    Strides(m, j);
    SampleOfBlock(session, Blocks(session)[m], m * CHUNK_BYTES, m * CHUNK_SAMPLES, j);
  }

  lemma {:induction false} OriginHolds(sessions: seq<Bytes>, b: nat, j: nat)
    requires b < |AllBlocks(sessions)| && j < CHUNK_SAMPLES
    ensures |AllBlocks(sessions)[b]| == CHUNK_BYTES
    ensures IsAt(SampleAt(AllBlocks(sessions)[b], j), sessions, Origin(sessions, b, j))
    ensures Origin(sessions, b, j).sample % 2 == j % 2
    decreases |sessions|
  {
    var own := Blocks(sessions[0]);
    if b < |own| {
      BlockSample(sessions[0], b, j);
    } else {
      OriginHolds(sessions[1..], b - |own|, j);
      assert AllBlocks(sessions)[b] == AllBlocks(sessions[1..])[b - |own|];
    }
  }

  lemma {:induction false} OriginIncreases(sessions: seq<Bytes>, b: nat, j: nat, b': nat, j': nat)
    requires b <= b' < |AllBlocks(sessions)| && j < CHUNK_SAMPLES && j' < CHUNK_SAMPLES
    requires b < b' || j < j'
    ensures Earlier(Origin(sessions, b, j), Origin(sessions, b', j'))
    decreases |sessions|
  {
    var own := |Blocks(sessions[0])|;
    if b >= own {
      OriginIncreases(sessions[1..], b - own, j, b' - own, j');
    }
  }

  // ---------------------------------------------------------------- end to end

  /** The worklet's messages are blocks of the recordings, at the increasing places `at`. */
  ghost predicate Delivers(events: seq<Event>, sessions: seq<Bytes>, at: seq<nat>) {
    Embeds(Messages(events), DecodeAll(AllBlocks(sessions)), at)
  }

  lemma DeliversWhole(events: seq<Event>, sessions: seq<Bytes>, at: seq<nat>)
    requires Delivers(events, sessions, at)
    ensures WholeChunks(events)
  {
    forall d | 0 <= d < |Messages(events)| ensures |Messages(events)[d]| == CHUNK_SAMPLES {
      OriginHolds(sessions, at[d], 0);
    }
    WholeMessages(events);
  }

  /** Where the value at position `p` of everything received comes from. */
  function Source(sessions: seq<Bytes>, at: seq<nat>, p: nat): Spot
    requires p / CHUNK_SAMPLES < |at| && at[p / CHUNK_SAMPLES] < |AllBlocks(sessions)|
  {
    Origin(sessions, at[p / CHUNK_SAMPLES], p % CHUNK_SAMPLES)
  }

  lemma SameParity(p: nat)
    ensures p % 2 == (p % CHUNK_SAMPLES) % 2
  {
    var d, j := p / CHUNK_SAMPLES, p % CHUNK_SAMPLES;
    assert p == 2 * (d * 960) + j;
    EvenStart(d * 960, j);
  }

  lemma ReceivedFrom(events: seq<Event>, sessions: seq<Bytes>, at: seq<nat>, p: nat)
    requires Delivers(events, sessions, at) && p < |Posted(events)|
    ensures p / CHUNK_SAMPLES < |at| && at[p / CHUNK_SAMPLES] < |AllBlocks(sessions)|
    ensures IsAt(Posted(events)[p], sessions, Source(sessions, at, p))
    ensures Source(sessions, at, p).sample % 2 == p % 2
  {
    DeliversWhole(events, sessions, at);
    PostedAt(events, p);
    OriginHolds(sessions, at[p / CHUNK_SAMPLES], p % CHUNK_SAMPLES);
    SameParity(p);
  }

  lemma SourceIncreases(sessions: seq<Bytes>, at: seq<nat>, p: nat, q: nat)
    requires p < q && q / CHUNK_SAMPLES < |at|
    requires forall d :: 0 <= d < |at| ==> at[d] < |AllBlocks(sessions)|
    requires forall d, e :: 0 <= d < e < |at| ==> at[d] < at[e]
    ensures Earlier(Source(sessions, at, p), Source(sessions, at, q))
  {
    var d, e := p / CHUNK_SAMPLES, q / CHUNK_SAMPLES;
    assert d < e || (d == e && p % CHUNK_SAMPLES < q % CHUNK_SAMPLES);
    OriginIncreases(sessions, at[d], p % CHUNK_SAMPLES, at[e], q % CHUNK_SAMPLES);
  }

  /** `spots` says where each value played so far was recorded: on the channel that plays it,
      and each later than the one before. */
  ghost predicate PlayedFrom(s: State, sessions: seq<Bytes>, spots: seq<Spot>) {
    && |spots| == |s.heard|
    && (forall k :: 0 <= k < |spots| ==>
          && s.heard[k] < |s.received| && IsAt(s.received[s.heard[k]], sessions, spots[k])
          && spots[k].sample % 2 == k % 2)
    && (forall j, k :: 0 <= j < k < |spots| ==> Earlier(spots[j], spots[k]))
  }

  /** End to end: whatever was dropped, trimmed or restarted on the way, what is played are
      samples of the recordings in the order of recording, each on its own channel, none
      twice. */
  lemma PlayedInOrder(events: seq<Event>, sessions: seq<Bytes>)
    requires Subsequence(Messages(events), DecodeAll(AllBlocks(sessions)))
    ensures exists spots :: PlayedFrom(Run(events), sessions, spots)
  {
    var at: seq<nat> :| Embeds(Messages(events), DecodeAll(AllBlocks(sessions)), at);
    assert Delivers(events, sessions, at);
    var s := Run(events);
    DeliversWhole(events, sessions, at);
    ChannelAlignment(events);
    ReceivesMessages(events);
    forall k | 0 <= k < |s.heard|
      ensures s.heard[k] / CHUNK_SAMPLES < |at| && at[s.heard[k] / CHUNK_SAMPLES] < |AllBlocks(sessions)|
      ensures IsAt(s.received[s.heard[k]], sessions, Source(sessions, at, s.heard[k]))
      ensures Source(sessions, at, s.heard[k]).sample % 2 == k % 2
    {
      ReceivedFrom(events, sessions, at, s.heard[k]);
    }
    var spots := seq(|s.heard|, k requires 0 <= k < |s.heard| => Source(sessions, at, s.heard[k]));
    forall j, k | 0 <= j < k < |spots| ensures Earlier(spots[j], spots[k]) {
      SourceIncreases(sessions, at, s.heard[j], s.heard[k]);
    }
    assert PlayedFrom(s, sessions, spots);
  }

  /** The same for the whole path, in every interleaving. */
  lemma PathPlaysInOrder(sessions: seq<Bytes>, rounds: nat, ch: seq<Bytes>, removed: seq<Removal>,
                         hasInput: bool, schedule: seq<ServerProtocol.Step>, c: nat, events: seq<Event>)
    requires Path(sessions, rounds, ch, removed, ServerProtocol.StateAfter(hasInput, schedule), c, events)
    ensures exists spots :: PlayedFrom(Run(events), sessions, spots)
  {
    StagesKeepOrder(sessions, rounds, ch, removed, hasInput, schedule, c, events);
    PlayedInOrder(events, sessions);
  }
}
