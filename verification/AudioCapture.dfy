/** `readLoop` of internal/audio/capture.go: PCM is read in chunks of fixed size and pushed
    into a bounded channel that gives up its oldest chunk rather than block. The consumer
    runs concurrently: between any two channel operations of the producer it may have
    received any number of chunks, which is an input here. */
module AudioCapture {
  import opened Basics

  /** 960 frames, 20 ms at 48 kHz, of two samples of 16 bits. */
  const CHUNK_BYTES := 3840

  const CHANNEL_CAPACITY := 32

  /** How a chunk left the channel. */
  datatype Removal = Received(chunk: Bytes) | Dropped(chunk: Bytes)

  function Removed(rs: seq<Removal>): (r: seq<Bytes>)
    ensures |r| == |rs| && forall i :: 0 <= i < |r| ==> r[i] == rs[i].chunk
  {
    seq(|rs|, i requires 0 <= i < |rs| => rs[i].chunk)
  }

  function ReceivedChunks(rs: seq<Removal>): seq<Bytes> {
    if rs == [] then []
    else
      var r := rs[|rs| - 1];
      ReceivedChunks(rs[..|rs| - 1]) + if r.Received? then [r.chunk] else []
  }

  function Drops(rs: seq<Removal>): nat {
    if rs == [] then 0
    else Drops(rs[..|rs| - 1]) + if rs[|rs| - 1].Dropped? then 1 else 0
  }

  lemma HistorySnoc(rs: seq<Removal>, r: Removal)
    ensures Removed(rs + [r]) == Removed(rs) + [r.chunk]
    ensures Drops(rs + [r]) == Drops(rs) + if r.Dropped? then 1 else 0
    ensures ReceivedChunks(rs + [r]) == if r.Received? then ReceivedChunks(rs) + [r.chunk] else ReceivedChunks(rs)
  {
    InitOfSnoc(rs, r);
    Nil(ReceivedChunks(rs));
  }

  /** What the consumer receives around one push: before the first select, between the two,
      and before the plain send. */
  datatype Takes = Takes(first: nat, second: nat, third: nat)

  /** Chunks left of `len` after `n` receives. */
  function Left(len: nat, n: nat): nat {
    if n < len then len - n else 0
  }

  /** The channel's length after a push that found `len` chunks. */
  function PushedLength(len: nat, t: Takes): nat {
    var found := Left(len, t.first);
    if found < CHANNEL_CAPACITY then found + 1
    else Left(Left(Left(found, t.second), 1), t.third) + 1
  }

  /** The push finds the channel full, and it is not emptied before the drop. */
  predicate Overruns(len: nat, t: Takes) {
    var found := Left(len, t.first);
    found >= CHANNEL_CAPACITY && Left(found, t.second) > 0
  }

  /** The channel's length, and the chunks dropped, after some pushes. */
  function LengthAfter(len: nat, pushes: seq<Takes>): nat {
    if pushes == [] then len
    else PushedLength(LengthAfter(len, pushes[..|pushes| - 1]), pushes[|pushes| - 1])
  }

  function Losses(len: nat, pushes: seq<Takes>): nat {
    if pushes == [] then 0
    else
      var init, t := pushes[..|pushes| - 1], pushes[|pushes| - 1];
      Losses(len, init) + if Overruns(LengthAfter(len, init), t) then 1 else 0
  }

  /** The buffered channel and its whole past. */
  class Channel {
    var ch: seq<Bytes>
    var closed: bool
    ghost var pushed: seq<Bytes>
    ghost var removed: seq<Removal>

    constructor ()
      ensures Valid() && !closed && pushed == [] && removed == []
    {
      ch, closed, pushed, removed := [], false, [], [];
    }

    /** Chunks leave from the front in the order they came, whoever takes them. */
    ghost predicate Valid()
      reads this
    {
      |ch| <= CHANNEL_CAPACITY && Removed(removed) + ch == pushed
    }

    method TakeFront(ghost received: bool)
      requires Valid() && ch != []
      modifies this`ch, this`removed
      ensures Valid() && ch == old(ch)[1..]
      ensures removed == old(removed) + [if received then Received(old(ch)[0]) else Dropped(old(ch)[0])]
      ensures Drops(removed) == Drops(old(removed)) + if received then 0 else 1
    {
      ghost var r := if received then Received(ch[0]) else Dropped(ch[0]);
      HistorySnoc(removed, r);
      Assoc(Removed(removed), [ch[0]], ch[1..]);
      assert [ch[0]] + ch[1..] == ch;
      removed := removed + [r];
      ch := ch[1..];
    }

    /** The consumer receives up to `n` chunks. */
    method Consume(n: nat)
      requires Valid()
      modifies this`ch, this`removed
      ensures Valid() && |ch| == Left(|old(ch)|, n)
      ensures old(removed) <= removed && Drops(removed) == Drops(old(removed))
    {
      var k := 0;
      while k < n && ch != []
        invariant Valid() && k <= n && |ch| + k == |old(ch)|
        invariant old(removed) <= removed && Drops(removed) == Drops(old(removed))
      {
        TakeFront(true);
        k := k + 1;
      }
    }

    /** A plain send, only where it cannot block. */
    method Send(chunk: Bytes)
      requires Valid() && !closed && |ch| < CHANNEL_CAPACITY
      modifies this`ch, this`pushed
      ensures Valid() && ch == old(ch) + [chunk] && pushed == old(pushed) + [chunk]
    {
      ch := ch + [chunk];
      pushed := pushed + [chunk];
    }

    /** The inner select: drop the oldest chunk if there is one. */
    method MakeRoom(n: nat)
      requires Valid()
      modifies this`ch, this`removed
      ensures Valid() && |ch| == Left(Left(|old(ch)|, n), 1) && old(removed) <= removed
      ensures Drops(removed) == Drops(old(removed)) + if Left(|old(ch)|, n) > 0 then 1 else 0
    {
      Consume(n);
      if ch != [] {
        TakeFront(false);
      }
    }

    /** One push. The plain send never blocks, the new chunk is the last in the channel, and
        one chunk is dropped exactly when the push overruns. */
    method Push(chunk: Bytes, t: Takes)
      requires Valid() && !closed
      modifies this`ch, this`pushed, this`removed
      ensures Valid() && pushed == old(pushed) + [chunk]
      ensures |ch| == PushedLength(|old(ch)|, t) && 1 <= |ch| <= 32 && ch[|ch| - 1] == chunk
      ensures old(removed) <= removed
      ensures Drops(removed) == Drops(old(removed)) + if Overruns(|old(ch)|, t) then 1 else 0
    {
      Consume(t.first);
      if |ch| < CHANNEL_CAPACITY {
        Send(chunk);
        return;
      }
      MakeRoom(t.second);
      Consume(t.third);
      Send(chunk);
    }
  }

  // ---------------------------------------------------------------- chunk framing

  /** The whole chunks of one recorder's output; an incomplete tail is discarded. */
  function Blocks(stream: Bytes): seq<Bytes>
    decreases |stream|
  {
    if |stream| < CHUNK_BYTES then [] else [stream[..CHUNK_BYTES]] + Blocks(stream[CHUNK_BYTES..])
  }

  function AllBlocks(sessions: seq<Bytes>): seq<Bytes> {
    if sessions == [] then [] else Blocks(sessions[0]) + AllBlocks(sessions[1..])
  }

  /** What `rounds` rounds of the loop push: a block each, or a reconnection. */
  function Produced(stdout: Bytes, later: seq<Bytes>, rounds: nat): seq<Bytes>
    decreases rounds
  {
    if rounds == 0 then []
    else if |stdout| >= CHUNK_BYTES then
      [stdout[..CHUNK_BYTES]] + Produced(stdout[CHUNK_BYTES..], later, rounds - 1)
    else if later == [] then []
    else Produced(later[0], later[1..], rounds - 1)
  }

  /** The rounds of the same loop that push, by what the consumer receives around them. */
  function Pushes(stdout: Bytes, later: seq<Bytes>, takes: seq<Takes>): seq<Takes>
    decreases |takes|
  {
    if takes == [] then []
    else if |stdout| >= CHUNK_BYTES then
      [takes[0]] + Pushes(stdout[CHUNK_BYTES..], later, takes[1..])
    else if later == [] then []
    else Pushes(later[0], later[1..], takes[1..])
  }

  /** `sessions` are the outputs of the recorder processes, each replaced by the next when a
      read falls short; the context is cancelled after `|takes|` rounds, or when no process
      is left to reconnect to. */
  method ReadLoop(c: Channel, sessions: seq<Bytes>, takes: seq<Takes>)
    requires c.Valid() && !c.closed && sessions != []
    modifies c
    ensures c.Valid() && c.closed && old(c.removed) <= c.removed
    ensures c.pushed == old(c.pushed) + Produced(sessions[0], sessions[1..], |takes|)
    ensures var pushes := Pushes(sessions[0], sessions[1..], takes);
            && |c.ch| == LengthAfter(|old(c.ch)|, pushes)
            && Drops(c.removed) == Drops(old(c.removed)) + Losses(|old(c.ch)|, pushes)
  {
    var stdout, later, todo := sessions[0], sessions[1..], takes;
    ghost var done: seq<Bytes> := [];
    ghost var rounds: seq<Takes> := [];
    while todo != []
      invariant c.Valid() && !c.closed && old(c.removed) <= c.removed
      invariant c.pushed == old(c.pushed) + done
      invariant done + Produced(stdout, later, |todo|) == Produced(sessions[0], sessions[1..], |takes|)
      invariant rounds + Pushes(stdout, later, todo) == Pushes(sessions[0], sessions[1..], takes)
      invariant |c.ch| == LengthAfter(|old(c.ch)|, rounds)
      invariant Drops(c.removed) == Drops(old(c.removed)) + Losses(|old(c.ch)|, rounds)
      decreases |todo|
    {
      Nil(done);
      Nil(rounds);
      if |stdout| < CHUNK_BYTES {
        if later == [] {
          c.closed := true;
          return;
        }
        stdout, later := later[0], later[1..];
      } else {
        var chunk := stdout[..CHUNK_BYTES];
        stdout := stdout[CHUNK_BYTES..];
        Assoc(done, [chunk], Produced(stdout, later, |todo| - 1));
        Assoc(rounds, [todo[0]], Pushes(stdout, later, todo[1..]));
        InitOfSnoc(rounds, todo[0]);
        c.Push(chunk, todo[0]);
        done, rounds := done + [chunk], rounds + [todo[0]];
      }
      todo := todo[1..];
    }
    Nil(done);
    Nil(rounds);
    c.closed := true;
  }

  /** Framing loses nothing but short tails: a run pushes the blocks of the sessions in
      order, all of them unless it is cancelled first. */
  lemma {:induction false} ProducedBlocks(stdout: Bytes, later: seq<Bytes>, rounds: nat)
    ensures Produced(stdout, later, rounds) <= Blocks(stdout) + AllBlocks(later)
    ensures rounds >= |Blocks(stdout)| + |AllBlocks(later)| + |later| ==>
              Produced(stdout, later, rounds) == Blocks(stdout) + AllBlocks(later)
    decreases rounds
  {
    if rounds == 0 {
    } else if |stdout| >= CHUNK_BYTES {
      var rest := stdout[CHUNK_BYTES..];
      ProducedBlocks(rest, later, rounds - 1);
      assert Blocks(stdout) + AllBlocks(later) == [stdout[..CHUNK_BYTES]] + (Blocks(rest) + AllBlocks(later));
    } else if later != [] {
      ProducedBlocks(later[0], later[1..], rounds - 1);
      assert Blocks(stdout) + AllBlocks(later) == Blocks(later[0]) + AllBlocks(later[1..]);
    }
  }

  /** Block `m` of a stream is its bytes from `m * CHUNK_BYTES` on: frames stay aligned. */
  lemma {:induction false} BlockAt(stream: Bytes, m: nat)
    requires m < |Blocks(stream)|
    ensures m * CHUNK_BYTES + CHUNK_BYTES <= |stream|
    ensures Blocks(stream)[m] == stream[m * CHUNK_BYTES..m * CHUNK_BYTES + CHUNK_BYTES]
    decreases m
  {
    if m > 0 {
      BlockAt(stream[CHUNK_BYTES..], m - 1);
      var off := (m - 1) * CHUNK_BYTES;
      assert off + CHUNK_BYTES == m * CHUNK_BYTES;
      assert stream[CHUNK_BYTES..][off..off + CHUNK_BYTES]
             == stream[off + CHUNK_BYTES..off + CHUNK_BYTES + CHUNK_BYTES];
    }
  }

  // ---------------------------------------------------------------- accounting

  ghost predicate NeverOverruns(len: nat, pushes: seq<Takes>) {
    forall k :: 0 <= k < |pushes| ==> !Overruns(LengthAfter(len, pushes[..k]), pushes[k])
  }

  lemma NeverOverrunsSnoc(len: nat, pushes: seq<Takes>)
    requires pushes != []
    ensures var n := |pushes| - 1;
            NeverOverruns(len, pushes) <==>
            NeverOverruns(len, pushes[..n]) && !Overruns(LengthAfter(len, pushes[..n]), pushes[n])
  {
    var n := |pushes| - 1;
    assert forall k :: 0 <= k <= n ==> pushes[..n][..k] == pushes[..k];
  }

  /** Some pushes drop nothing exactly when none of them overruns. */
  lemma {:induction false} LosslessIffNoOverrun(len: nat, pushes: seq<Takes>)
    ensures Losses(len, pushes) == 0 <==> NeverOverruns(len, pushes)
    decreases |pushes|
  {
    if pushes != [] {
      LosslessIffNoOverrun(len, pushes[..|pushes| - 1]);
      NeverOverrunsSnoc(len, pushes);
    }
  }

  lemma {:induction false} RemovalCounts(rs: seq<Removal>)
    ensures |ReceivedChunks(rs)| + Drops(rs) == |rs|
    ensures Subsequence(ReceivedChunks(rs), Removed(rs))
    ensures Drops(rs) == 0 ==> ReceivedChunks(rs) == Removed(rs)
    decreases |rs|
  {
    if rs == [] {
      SubsequenceRefl(Removed(rs));
    } else {
      var init, r := rs[..|rs| - 1], rs[|rs| - 1];
      RemovalCounts(init);
      Snoc(rs);
      HistorySnoc(init, r);
      if r.Received? {
        SubsequenceKeep(ReceivedChunks(init), Removed(init), r.chunk);
      } else {
        SubsequenceSkip(ReceivedChunks(init), Removed(init), r.chunk);
      }
    }
  }

  /** Received, dropped and queued chunks account for everything pushed, the queue is its
      contiguous tail, and the consumer sees a subsequence of it in order, all of it exactly
      when nothing was dropped. */
  lemma Accounting(ch: seq<Bytes>, pushed: seq<Bytes>, removed: seq<Removal>)
    requires Removed(removed) + ch == pushed
    ensures |ReceivedChunks(removed)| + Drops(removed) + |ch| == |pushed|
    ensures |ch| <= |pushed| && ch == pushed[|pushed| - |ch|..]
    ensures Subsequence(ReceivedChunks(removed), pushed)
    ensures ReceivedChunks(removed) + ch == pushed <==> Drops(removed) == 0
  {
    RemovalCounts(removed);
    SubsequenceExtend(ReceivedChunks(removed), Removed(removed), ch);
  }

  // ---------------------------------------------------------------- how many

  lemma {:induction false} BlocksCount(stream: Bytes)
    ensures |Blocks(stream)| == |stream| / 3840
    decreases |stream|
  {
    if |stream| >= CHUNK_BYTES {
      BlocksCount(stream[CHUNK_BYTES..]);
    }
  }

  /** One round of takes goes with every chunk pushed. */
  lemma {:induction false} PushesCount(stdout: Bytes, later: seq<Bytes>, takes: seq<Takes>)
    ensures |Pushes(stdout, later, takes)| == |Produced(stdout, later, |takes|)|
    decreases |takes|
  {
    if takes == [] {
    } else if |stdout| >= CHUNK_BYTES {
      PushesCount(stdout[CHUNK_BYTES..], later, takes[1..]);
    } else if later != [] {
      PushesCount(later[0], later[1..], takes[1..]);
    }
  }

  /** A push overruns when it finds 32 chunks, none is received before its first attempt, and
      fewer than 32 before its second; it leaves at least its own chunk and at most 32, and with
      no receives one more than it found, or 32. */
  lemma PushOutcome(len: nat, t: Takes)
    requires len <= 32
    ensures Overruns(len, t) <==> len == 32 && t.first == 0 && t.second < 32
    ensures 1 <= PushedLength(len, t) <= 32
    ensures t.first > 0 || len < 32 ==> PushedLength(len, t) == (if t.first < len then len - t.first else 0) + 1
    ensures t.first == 0 && len == 32 && t.second < 32 ==>
              PushedLength(len, t) == (if t.second + t.third < 31 then 31 - t.second - t.third else 0) + 1
    ensures t.first == 0 && len == 32 && t.second >= 32 ==> PushedLength(len, t) == 1
  {}
}
