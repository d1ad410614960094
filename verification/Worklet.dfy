/** The browser's audio path in cmd/server/client/compositor.js: `playAudio` turns PCM bytes
    into samples, the `PCMProcessor` worklet buffers, trims and de-interleaves them. */
module Worklet {
  import opened Basics
  type Sample = real

  // ---------------------------------------------------------------- playAudio

  function Int16(lo: byte, hi: byte): (r: int)
    ensures -0x8000 <= r < 0x8000
  {
    var u := lo + 0x100 * hi;
    if u >= 0x8000 then u - 0x1_0000 else u
  }

  /** Signed 16-bit little-endian, as a fraction of 32768. */
  function SampleAt(s16: Bytes, n: nat): Sample
    requires 2 * n + 2 <= |s16|
  {
    Int16(s16[2 * n], s16[2 * n + 1]) as real / 32768.0
  }

  function Decode(s16: Bytes): (r: seq<Sample>)
    ensures |r| == |s16| / 2
    ensures forall n :: 0 <= n < |r| ==> r[n] == SampleAt(s16, n)
  {
    seq(|s16| / 2, n requires 0 <= n < |s16| / 2 => SampleAt(s16, n))
  }

  /** An odd number of bytes throws at the last sample, half of which lies past the end. */
  method PlayAudio(s16: Bytes) returns (posted: Option<seq<Sample>>)
    ensures posted == if |s16| % 2 == 0 then Some(Decode(s16)) else None
  {
    if |s16| % 2 != 0 {
      return None;
    }
    var samples := |s16| / 2;
    var floats := new Sample[samples](_ => 0.0);
    for i := 0 to samples
      invariant forall n :: 0 <= n < i ==> floats[n] == SampleAt(s16, n)
    {
      floats[i] := Int16(s16[i * 2], s16[i * 2 + 1]) as real / 32768.0;
    }
    assert floats[..] == Decode(s16);
    return Some(floats[..]);
  }

  lemma ScaleExact(x: int, y: int)
    requires x as real / 32768.0 == y as real / 32768.0
    ensures x == y
  {}

  lemma SampleExact(a: Bytes, b: Bytes, n: nat)
    requires 2 * n + 2 <= |a| && 2 * n + 2 <= |b| && SampleAt(a, n) == SampleAt(b, n)
    ensures a[2 * n] == b[2 * n] && a[2 * n + 1] == b[2 * n + 1]
  {
    ScaleExact(Int16(a[2 * n], a[2 * n + 1]), Int16(b[2 * n], b[2 * n + 1]));
  }

  /** Decoding loses nothing and stays in the range a player accepts. */
  lemma DecodeExact(a: Bytes, b: Bytes)
    requires |a| % 2 == 0 && |b| % 2 == 0
    ensures Decode(a) == Decode(b) <==> a == b
    ensures forall n :: 0 <= n < |Decode(a)| ==> -1.0 <= Decode(a)[n] < 1.0
  {
    if Decode(a) == Decode(b) {
      assert |Decode(a)| == |Decode(b)|;
      forall i | 0 <= i < |a| ensures a[i] == b[i] {
        assert Decode(a)[i / 2] == Decode(b)[i / 2];
        SampleExact(a, b, i / 2);
      }
    }
  }

  // ---------------------------------------------------------------- the worklet

  const TRIM_ABOVE := 48000
  const TRIM_TO := 24000
  const CHUNK_SAMPLES := 1920
  const STEREO := 2

  datatype Event = Message(samples: seq<Sample>) | Process(needed: nat)

  /** Buffer as a window on everything received: it holds `received[start..]`; `heard` lists
      the positions handed to the output so far, in the order of the interleaved stream. */
  datatype State = State(received: seq<Sample>, start: nat, heard: seq<nat>)

  function Buffered(s: State): int {
    |s.received| - s.start
  }

  function Next(s: State, e: Event): State {
    match e
    case Message(samples) =>
      State(s.received + samples,
            if Buffered(s) > TRIM_ABOVE then |s.received| - TRIM_TO else s.start,
            s.heard)
    case Process(needed) =>
      var samplesNeeded := needed * STEREO;
      if Buffered(s) < samplesNeeded then s
      else s.(start := s.start + samplesNeeded,
              heard := s.heard + seq(samplesNeeded, i requires 0 <= i => s.start + i))
  }

  /** `AudioWorkletProcessor` with its sample buffer. */
  class PCMProcessor {
    var buf: seq<Sample>
    ghost var state: State

    constructor ()
      ensures Valid() && state == State([], 0, [])
    {
      buf, state := [], State([], 0, []);
    }

    ghost predicate Valid()
      reads this
    {
      state.start <= |state.received| && buf == state.received[state.start..]
    }

    method OnMessage(added: seq<Sample>)
      requires Valid()
      modifies this
      ensures Valid() && state == Next(old(state), Message(added))
      ensures |old(buf)| <= 48000 ==> buf == old(buf) + added
      ensures |old(buf)| > 48000 ==> buf == old(buf)[|old(buf)| - 24000..] + added
    {
      var before := buf;
      if |before| > TRIM_ABOVE {
        before := before[|before| - TRIM_TO..];
      }
      buf := before + added;
      state := Next(state, Message(added));
    }

    method Deinterleave(consumed: seq<Sample>, out: array2<Sample>)
      requires out.Length0 == STEREO && |consumed| == out.Length1 * STEREO
      modifies out
      ensures forall ch, i :: 0 <= ch < STEREO && 0 <= i < out.Length1 ==>
                out[ch, i] == consumed[i * STEREO + ch]
    {
      for i := 0 to out.Length1
        invariant forall c, j :: 0 <= c < STEREO && 0 <= j < i ==> out[c, j] == consumed[j * STEREO + c]
      {
        for ch := 0 to STEREO
          invariant forall c, j :: 0 <= c < STEREO && 0 <= j < i ==> out[c, j] == consumed[j * STEREO + c]
          invariant forall c :: 0 <= c < ch ==> out[c, i] == consumed[i * STEREO + c]
        {
          out[ch, i] := consumed[i * STEREO + ch];
        }
      }
    }

    /** `out[ch, i]` is sample `i` of output channel `ch`. */
    method Process(out: array2<Sample>)
      requires Valid() && out.Length0 == STEREO
      modifies this, out
      ensures Valid() && state == Next(old(state), Event.Process(out.Length1))
      ensures buf == if |old(buf)| < out.Length1 * 2 then old(buf) else old(buf)[out.Length1 * 2..]
      ensures old(Buffered(state)) < out.Length1 * STEREO ==>
                forall ch, i :: 0 <= ch < STEREO && 0 <= i < out.Length1 ==> out[ch, i] == 0.0
      ensures old(Buffered(state)) >= out.Length1 * STEREO ==>
                forall ch, i :: 0 <= ch < STEREO && 0 <= i < out.Length1 ==>
                  var k := |old(state.heard)| + i * STEREO + ch;
                  k < |state.heard| && state.heard[k] < |state.received|
                  && out[ch, i] == state.received[state.heard[k]]
    {
      var needed := out.Length1;
      var samplesNeeded := needed * STEREO;
      if |buf| < samplesNeeded {
        for ch := 0 to STEREO
          modifies out
          invariant forall c, i :: 0 <= c < ch && 0 <= i < needed ==> out[c, i] == 0.0
        {
          for j := 0 to needed
            modifies out
            invariant forall c, i :: 0 <= c < ch && 0 <= i < needed ==> out[c, i] == 0.0
            invariant forall i :: 0 <= i < j ==> out[ch, i] == 0.0
          {
            out[ch, j] := 0.0;
          }
        }
        return;
      }
      var consumed := buf[..samplesNeeded];
      buf := buf[samplesNeeded..];
      Deinterleave(consumed, out);
      ghost var was := state;
      state := Next(state, Event.Process(needed));
      assert state.received[was.start..][samplesNeeded..] == state.received[state.start..];
    }
  }

  // ---------------------------------------------------------------- over whole runs

  function Run(events: seq<Event>): State {
    if events == [] then State([], 0, []) else Next(Run(events[..|events| - 1]), events[|events| - 1])
  }

  /** The server's chunks hold whole stereo frames, `CHUNK_SAMPLES` values each. */
  ghost predicate WholeChunks(events: seq<Event>) {
    forall k :: 0 <= k < |events| && events[k].Message? ==> |events[k].samples| == CHUNK_SAMPLES
  }

  ghost predicate Aligned(s: State) {
    && s.start % 2 == 0 && |s.received| % 2 == 0 && |s.heard| % 2 == 0
    && s.start <= |s.received| && Buffered(s) <= TRIM_ABOVE + CHUNK_SAMPLES
    && (forall k :: 0 <= k < |s.heard| ==> s.heard[k] < s.start && s.heard[k] % 2 == k % 2)
    && (forall j, k :: 0 <= j < k < |s.heard| ==> s.heard[j] < s.heard[k])
  }

  lemma NextKeepsAligned(s: State, e: Event)
    requires Aligned(s) && (e.Message? ==> |e.samples| == CHUNK_SAMPLES)
    ensures Aligned(Next(s, e))
  {
    if e.Process? {
      var s' := Next(s, e);
      forall k | 0 <= k < |s'.heard| ensures s'.heard[k] < s'.start && s'.heard[k] % 2 == k % 2 {
        if k >= |s.heard| {
          assert s'.heard[k] == s.start + (k - |s.heard|);
        }
      }
    }
  }

  /** Over every run of chunks, trims and output requests: the buffer is a bounded tail of
      what was received starting on a left sample, positions played strictly increase, and
      the `k`-th value played, which goes to channel `k % 2`, has a position of that parity. */
  lemma {:induction false} ChannelAlignment(events: seq<Event>)
    requires WholeChunks(events)
    ensures Aligned(Run(events)) && Buffered(Run(events)) <= 48000 + 1920
    decreases |events|
  {
    if events != [] {
      ChannelAlignment(events[..|events| - 1]);
      NextKeepsAligned(Run(events[..|events| - 1]), events[|events| - 1]);
    }
  }

  /** What the worklet's port delivers, message by message and sample by sample. */
  function Messages(events: seq<Event>): seq<seq<Sample>> {
    if events == [] then []
    else
      var e := events[|events| - 1];
      Messages(events[..|events| - 1]) + if e.Message? then [e.samples] else []
  }

  function Posted(events: seq<Event>): seq<Sample> {
    if events == [] then []
    else
      var e := events[|events| - 1];
      Posted(events[..|events| - 1]) + if e.Message? then e.samples else []
  }

  lemma {:induction false} ReceivesMessages(events: seq<Event>)
    ensures Run(events).received == Posted(events)
    decreases |events|
  {
    if events != [] {
      ReceivesMessages(events[..|events| - 1]);
      Nil(Posted(events[..|events| - 1]));
    }
  }

  /** All parts of a list have the size of a chunk. */
  ghost predicate AllWhole(parts: seq<seq<Sample>>) {
    forall d :: 0 <= d < |parts| ==> |parts[d]| == CHUNK_SAMPLES
  }

  lemma AllWholeSnoc(parts: seq<seq<Sample>>, last: seq<Sample>)
    ensures AllWhole(parts + [last]) <==> AllWhole(parts) && |last| == CHUNK_SAMPLES
  {
    assert (parts + [last])[|parts|] == last;
    assert forall d :: 0 <= d < |parts| ==> (parts + [last])[d] == parts[d];
  }

  lemma {:induction false} WholeMessages(events: seq<Event>)
    ensures AllWhole(Messages(events)) <==> WholeChunks(events)
    decreases |events|
  {
    if events != [] {
      var n := |events| - 1;
      WholeMessages(events[..n]);
      if events[n].Message? {
        AllWholeSnoc(Messages(events[..n]), events[n].samples);
      } else {
        Nil(Messages(events[..n]));
      }
      assert WholeChunks(events) <==>
             WholeChunks(events[..n]) && (events[n].Message? ==> |events[n].samples| == CHUNK_SAMPLES);
    }
  }

  /** Whole chunks line up: position `p` is sample `p % CHUNK_SAMPLES` of message
      `p / CHUNK_SAMPLES`. */
  lemma {:induction false} PostedAt(events: seq<Event>, p: nat)
    requires WholeChunks(events)
    ensures |Posted(events)| == |Messages(events)| * CHUNK_SAMPLES
    ensures p < |Posted(events)| ==>
              var d, j := p / CHUNK_SAMPLES, p % CHUNK_SAMPLES;
              d < |Messages(events)| && j < |Messages(events)[d]| && Posted(events)[p] == Messages(events)[d][j]
    decreases |events|
  {
    if events != [] {
      var n := |events| - 1;
      assert WholeChunks(events[..n]);
      PostedAt(events[..n], p);
      var d := |Messages(events[..n])|;
      if events[n].Message? && p >= d * CHUNK_SAMPLES {
        assert p < (d + 1) * CHUNK_SAMPLES ==> p / CHUNK_SAMPLES == d && p % CHUNK_SAMPLES == p - d * CHUNK_SAMPLES;
      }
    }
  }

  // ---------------------------------------------------------------- what is lost

  /** The samples decode to what was encoded: two's complement, low byte first. */
  lemma SampleReadsBack(v: int, s16: Bytes, n: nat)
    requires -32768 <= v < 32768 && 2 * n + 2 <= |s16|
    requires s16[2 * n] == v % 256 && s16[2 * n + 1] == (v / 256) % 256
    ensures SampleAt(s16, n) * 32768.0 == v as real
  {
    assert Int16(s16[2 * n], s16[2 * n + 1]) == v;
  }

  /** Message `k` of a run meets more than 48000 buffered samples. */
  ghost predicate TrimsAt(events: seq<Event>, k: int) {
    0 <= k < |events| && events[k].Message? && Buffered(Run(events[..k])) > 48000
  }

  /** Samples are dropped by trimming alone: up to 48000 buffered a message loses nothing, above
      that all but the newest 24000 go. */
  lemma MessageKeeps(s: State, samples: seq<Sample>)
    requires s.start <= |s.received|
    ensures var t, was := Next(s, Message(samples)), s.received[s.start..];
            && t.start <= |t.received| && t.heard == s.heard
            && t.received[t.start..] == (if |was| <= 48000 then was else was[|was| - 24000..]) + samples
  {}

  /** An output request takes two samples per frame from the front, or nothing. */
  lemma ProcessTakes(s: State, needed: nat)
    requires s.start <= |s.received|
    ensures var t, was := Next(s, Process(needed)), s.received[s.start..];
            && t.received == s.received && t.start <= |t.received|
            && (|was| < 2 * needed ==> t == s)
            && (|was| >= 2 * needed ==>
                  && t.received[t.start..] == was[2 * needed..] && |t.heard| == |s.heard| + 2 * needed
                  && s.heard <= t.heard
                  && forall k :: |s.heard| <= k < |t.heard| ==>
                       t.heard[k] < |t.received| && t.received[t.heard[k]] == was[k - |s.heard|])
  {}

  ghost predicate NeverTrims(events: seq<Event>) {
    forall k :: !TrimsAt(events, k)
  }

  lemma NeverTrimsSnoc(events: seq<Event>)
    requires events != []
    ensures NeverTrims(events) <==> NeverTrims(events[..|events| - 1]) && !TrimsAt(events, |events| - 1)
  {
    var init := events[..|events| - 1];
    forall k | 0 <= k < |init| ensures TrimsAt(init, k) <==> TrimsAt(events, k) {
      assert init[..k] == events[..k];
    }
  }

  /** What was played are the positions 0, 1, 2, ... of what was received. */
  ghost predicate Gapless(s: State) {
    forall i :: 0 <= i < |s.heard| ==> s.heard[i] == i
  }

  /** Nothing was played after a trim. */
  ghost predicate SilentAfterTrims(events: seq<Event>) {
    forall k :: TrimsAt(events, k) ==> |Run(events).heard| == |Run(events[..k]).heard|
  }

  lemma HeardGrows(s: State, e: Event)
    ensures s.heard <= Next(s, e).heard
  {}

  lemma {:induction false} HeardMonotone(events: seq<Event>, k: nat)
    requires k <= |events|
    ensures |Run(events[..k]).heard| <= |Run(events).heard|
    decreases |events|
  {
    if k == |events| {
      assert events[..k] == events;
    } else {
      var init := events[..|events| - 1];
      HeardMonotone(init, k);
      assert init[..k] == events[..k];
      HeardGrows(Run(init), events[|events| - 1]);
    }
  }

  lemma EarlierTrims(events: seq<Event>)
    requires events != []
    ensures var init := events[..|events| - 1];
            forall k :: 0 <= k < |init| ==>
              (TrimsAt(init, k) <==> TrimsAt(events, k))
              && Run(init[..k]) == Run(events[..k]) && |Run(init[..k]).heard| <= |Run(init).heard|
  {
    var init := events[..|events| - 1];
    forall k | 0 <= k < |init|
      ensures TrimsAt(init, k) <==> TrimsAt(events, k)
      ensures Run(init[..k]) == Run(events[..k]) && |Run(init[..k]).heard| <= |Run(init).heard|
    {
      assert init[..k] == events[..k];
      HeardMonotone(init, k);
    }
  }

  lemma SilentSnoc(events: seq<Event>)
    requires events != []
    ensures var init := events[..|events| - 1];
            SilentAfterTrims(events) <==>
            SilentAfterTrims(init) && (|Run(events).heard| == |Run(init).heard| || NeverTrims(init))
  {
    HeardGrows(Run(events[..|events| - 1]), events[|events| - 1]);
    EarlierTrims(events);
  }

  lemma GaplessStep(s: State, e: Event)
    requires |s.heard| <= s.start <= |s.received|
    ensures var t := Next(s, e);
            && |t.heard| <= t.start <= |t.received|
            && (t.start == |t.heard| <==> s.start == |s.heard| && !(e.Message? && Buffered(s) > 48000))
            && (Gapless(t) <==> Gapless(s) && (|t.heard| == |s.heard| || s.start == |s.heard|))
  {
    var t := Next(s, e);
    assert forall i :: 0 <= i < |s.heard| ==> t.heard[i] == s.heard[i];
    if |t.heard| > |s.heard| {
      assert forall k :: |s.heard| <= k < |t.heard| ==> t.heard[k] == s.start + (k - |s.heard|);
      if Gapless(t) {
        assert t.heard[|s.heard|] == s.start;
      }
    }
    if Gapless(t) {
      forall i | 0 <= i < |s.heard| ensures s.heard[i] == i {
        assert t.heard[i] == i;
      }
    }
  }

  /** Over every run: what was skipped was trimmed, so nothing is skipped exactly when no
      message met more than 48000 buffered samples; and what was played is without a gap
      exactly when nothing was played after such a message. */
  lemma {:induction false} GaplessIff(events: seq<Event>)
    ensures var s := Run(events);
            && |s.heard| <= s.start <= |s.received|
            && (s.start == |s.heard| <==> NeverTrims(events))
            && (Gapless(s) <==> SilentAfterTrims(events))
    decreases |events|
  {
    if events != [] {
      var init, e := events[..|events| - 1], events[|events| - 1];
      GaplessIff(init);
      NeverTrimsSnoc(events);
      SilentSnoc(events);
      GaplessStep(Run(init), e);
    }
  }
}
