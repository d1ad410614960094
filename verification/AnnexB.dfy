/** The streaming Annex B splitter of internal/encode/ffmpeg.go: `readNALs` and
    `extractNALs` cut an H.264 byte stream (Annex B, section B.1 of ITU-T H.264)
    into chunks at the four-byte start code, whatever the reads look like. */
module AnnexB {
  import opened Basics

  const START_CODE: Bytes := [0, 0, 0, 1]

  /** The start code occurs in `s` at offset `i`. */
  predicate CodeAt(s: Bytes, i: nat) {
    i + 4 <= |s| && s[i] == 0 && s[i + 1] == 0 && s[i + 2] == 0 && s[i + 3] == 1
  }

  lemma CodeAtMeans(s: Bytes, i: nat)
    ensures CodeAt(s, i) <==> i + 4 <= |s| && s[i..i + 4] == [0, 0, 0, 1]
  {
    if i + 4 <= |s| {
      assert s[i..i + 4] == [s[i], s[i + 1], s[i + 2], s[i + 3]];
    }
  }

  ghost predicate NoCodeFrom(s: Bytes, from: nat) {
    forall i: nat :: from <= i ==> !CodeAt(s, i)
  }

  /** Leftmost start code at or after `from`. */
  function FindCode(s: Bytes, from: nat): (r: Option<nat>)
    ensures r.Some? ==> from <= r.value && r.value + 4 <= |s|
    decreases |s| - from
  {
    if from + 4 > |s| then None
    else if CodeAt(s, from) then Some(from)
    else FindCode(s, from + 1)
  }

  ghost predicate IsLeftmost(s: Bytes, from: nat, i: nat) {
    from <= i && CodeAt(s, i) && forall j: nat :: from <= j < i ==> !CodeAt(s, j)
  }

  /** `FindCode` is `bytes.Index`: it misses nothing and returns the first match. */
  lemma {:induction false} FindCodeLeftmost(s: Bytes, from: nat)
    ensures FindCode(s, from).None? <==> NoCodeFrom(s, from)
    ensures forall i: nat :: FindCode(s, from) == Some(i) <==> IsLeftmost(s, from, i)
    decreases |s| - from
  {
    if from + 4 <= |s| && !CodeAt(s, from) {
      FindCodeLeftmost(s, from + 1);
    }
  }

  /** Chunks cut from a buffer, and what stays in it. */
  datatype Cut = Cut(chunks: seq<Bytes>, rest: Bytes)

  function Prepend(head: Bytes, cut: Cut): Cut {
    Cut([head] + cut.chunks, cut.rest)
  }

  function Extract(buf: Bytes): (r: Cut)
    decreases |buf|
  {
    match FindCode(buf, 4)
    case None => Cut([], buf)
    case Some(i) =>
      Prepend(buf[..i], Extract(buf[i..]))
  }

  /** A cut seen after `done` has already been cut off. */
  function After(done: seq<Bytes>, cut: Cut): Cut {
    Cut(done + cut.chunks, cut.rest)
  }

  lemma AfterNothing(done: seq<Bytes>, buf: Bytes)
    ensures FindCode(buf, 4).None? ==> After(done, Extract(buf)) == Cut(done, buf)
    ensures |buf| < 8 ==> FindCode(buf, 4).None?
  {
    assert done + [] == done;
  }

  lemma AfterPrepend(done: seq<Bytes>, head: Bytes, cut: Cut)
    ensures After(done, Prepend(head, cut)) == After(done + [head], cut)
  {
    assert done + ([head] + cut.chunks) == (done + [head]) + cut.chunks;
  }

  /** What reaching the end of the stream adds: a rest of at most four bytes is lost. */
  function Flush(rest: Bytes): seq<Bytes> {
    if |rest| > 4 then [rest] else []
  }

  /** Every chunk offered to `nalCh` when the whole stream arrives in one read. */
  function Split(stream: Bytes): seq<Bytes> {
    Extract(stream).chunks + Flush(Extract(stream).rest)
  }

  // ---------------------------------------------------------------- chunking invariance

  /** Start codes in a prefix are exactly those of the whole that fit in it. */
  lemma FindCodeExtend(a: Bytes, b: Bytes)
    requires FindCode(a, 4).Some?
    ensures FindCode(a + b, 4) == FindCode(a, 4)
  {
    var f := FindCode(a, 4).value;
    FindCodeLeftmost(a, 4);
    FindCodeLeftmost(a + b, 4);
    forall i: nat | i <= f ensures CodeAt(a, i) <==> CodeAt(a + b, i) {}
    assert IsLeftmost(a + b, 4, f);
  }

  lemma ExtractStep(s: Bytes, i: nat)
    requires FindCode(s, 4) == Some(i)
    ensures Extract(s) == Prepend(s[..i], Extract(s[i..]))
  {}

  /** The cut after more bytes `b` have arrived behind `cut.rest`. */
  function Resumed(cut: Cut, b: Bytes): Cut {
    var next := Extract(cut.rest + b);
    Cut(cut.chunks + next.chunks, next.rest)
  }

  lemma PrependResumed(head: Bytes, cut: Cut, b: Bytes)
    ensures Resumed(Prepend(head, cut), b) == Prepend(head, Resumed(cut, b))
  {
    var y := Extract(cut.rest + b).chunks;
    assert ([head] + cut.chunks) + y == [head] + (cut.chunks + y);
  }

  lemma ExtractAppendStep(a: Bytes, b: Bytes, i: nat)
    requires FindCode(a, 4) == Some(i)
    requires Extract(a[i..] + b) == Resumed(Extract(a[i..]), b)
    ensures Extract(a + b) == Resumed(Extract(a), b)
  {
    var head, tail := a[..i], a[i..];
    assert Extract(a) == Prepend(head, Extract(tail)) by {
      ExtractStep(a, i);
    }
    assert Extract(a + b) == Prepend(head, Extract(tail + b)) by {
      FindCodeExtend(a, b);
      assert (a + b)[i..] == tail + b && (a + b)[..i] == head;
      ExtractStep(a + b, i);
    }
    PrependResumed(head, Extract(tail), b);
  }

  /** Extracting in two instalments gives the chunks of extracting once: the streaming
      state (the rest) is all that has to be remembered. */
  lemma {:induction false} ExtractAppend(a: Bytes, b: Bytes)
    ensures Extract(a + b) == Resumed(Extract(a), b)
    decreases |a|
  {
    if FindCode(a, 4).None? {
      assert [] + Extract(a + b).chunks == Extract(a + b).chunks;
    } else {
      var i := FindCode(a, 4).value;
      ExtractAppend(a[i..], b);
      ExtractAppendStep(a, b, i);
    }
  }

  /** The splitter run read by read, with no buffer in sight. */
  function Feed(rest: Bytes, pieces: seq<Bytes>): (r: Cut)
    decreases |pieces|
  {
    if pieces == [] then Cut([], rest)
    else
      var head := Extract(rest + pieces[0]);
      var tail := Feed(head.rest, pieces[1..]);
      Cut(head.chunks + tail.chunks, tail.rest)
  }

  lemma {:induction false} ExtractIdempotent(s: Bytes)
    ensures FindCode(Extract(s).rest, 4).None?
    decreases |s|
  {
    if FindCode(s, 4).Some? {
      ExtractIdempotent(s[FindCode(s, 4).value..]);
    }
  }

  lemma {:induction false} FeedIsExtract(rest: Bytes, pieces: seq<Bytes>)
    requires FindCode(rest, 4).None?
    ensures Feed(rest, pieces) == Extract(rest + Flatten(pieces))
    decreases |pieces|
  {
    if pieces == [] {
      assert rest + Flatten(pieces) == rest;
    } else {
      var head := Extract(rest + pieces[0]);
      ExtractIdempotent(rest + pieces[0]);
      FeedIsExtract(head.rest, pieces[1..]);
      ExtractAppend(rest + pieces[0], Flatten(pieces[1..]));
      assert rest + Flatten(pieces) == (rest + pieces[0]) + Flatten(pieces[1..]);
    }
  }

  /** Chunking invariance: two ways of cutting one stream into reads emit one list. */
  lemma ChunkingInvariance(pieces: seq<Bytes>, pieces': seq<Bytes>)
    requires Flatten(pieces) == Flatten(pieces')
    ensures Feed([], pieces) == Feed([], pieces') == Extract(Flatten(pieces))
    ensures Feed([], pieces).chunks + Flush(Feed([], pieces).rest) == Split(Flatten(pieces))
  {
    var none: Bytes := [];
    FeedIsExtract(none, pieces);
    FeedIsExtract(none, pieces');
    assert none + Flatten(pieces) == Flatten(pieces);
  }

  // ---------------------------------------------------------------- imperative form

  /** `bytes.Buffer`: unread bytes. */
  class Buffer {
    var data: Bytes

    constructor ()
      ensures data == []
    {
      data := [];
    }

    method Write(p: Bytes)
      modifies this
      ensures data == old(data) + p
    {
      data := data + p;
    }

    method Next(n: nat)
      requires n <= |data|
      modifies this
      ensures data == old(data)[n..]
    {
      data := data[n..];
    }
  }

  /** The sending side of `nalCh`: `offered` is every chunk given to the non-blocking send.
      Whether the bounded channel keeps it is the subject of module Encoder. */
  class NalChannel {
    ghost var offered: seq<Bytes>

    constructor ()
      ensures offered == []
    {
      offered := [];
    }

    method TrySend(nal: Bytes)
      modifies this
      ensures offered == old(offered) + [nal]
    {
      offered := offered + [nal];
    }
  }

  method ExtractNALs(buf: Buffer, nalCh: NalChannel)
    modifies buf, nalCh
    ensures buf.data == Extract(old(buf.data)).rest
    ensures nalCh.offered == old(nalCh.offered) + Extract(old(buf.data)).chunks
  {
    ghost var whole := Extract(buf.data);
    ghost var done: seq<Bytes> := [];
    while true
      invariant whole == After(done, Extract(buf.data))
      invariant nalCh.offered == old(nalCh.offered) + done
      decreases |buf.data|
    {
      var data := buf.data;
      AfterNothing(done, data);
      if |data| < 8 {
        return;
      }
      var found := FindCode(data, 4);
      if found.None? {
        return;
      }
      var idx := found.value;
      var nal := data[..idx];
      buf.Next(idx);
      nalCh.TrySend(nal);
      AfterPrepend(done, nal, Extract(buf.data));
      done := done + [nal];
    }
  }

  lemma FeedStep(done: seq<Bytes>, rest: Bytes, pieces: seq<Bytes>) returns (head: Cut)
    requires pieces != []
    ensures head == Extract(rest + pieces[0]) && FindCode(head.rest, 4).None?
    ensures After(done, Feed(rest, pieces)) == After(done + head.chunks, Feed(head.rest, pieces[1..]))
  {
    head := Extract(rest + pieces[0]);
    var tail := Feed(head.rest, pieces[1..]);
    assert done + (head.chunks + tail.chunks) == (done + head.chunks) + tail.chunks;
    ExtractIdempotent(rest + pieces[0]);
  }

  /** The `n > 0` branch of one loop round. */
  method OnRead(buf: Buffer, nalCh: NalChannel, p: Bytes)
    requires FindCode(buf.data, 4).None?
    modifies buf, nalCh
    ensures buf.data == Extract(old(buf.data) + p).rest
    ensures nalCh.offered == old(nalCh.offered) + Extract(old(buf.data) + p).chunks
  {
    if |p| > 0 {
      buf.Write(p);
      ExtractNALs(buf, nalCh);
    } else {
      assert buf.data + p == buf.data;
    }
  }

  /** The read loop keeps only the rest of the last extraction between rounds. */
  method ReadAll(pieces: seq<Bytes>, buf: Buffer, nalCh: NalChannel)
    requires buf.data == []
    modifies buf, nalCh
    ensures buf.data == Feed([], pieces).rest
    ensures nalCh.offered == old(nalCh.offered) + Feed([], pieces).chunks
  {
    var todo := pieces;
    ghost var whole := Feed([], pieces);
    ghost var done: seq<Bytes> := [];
    while todo != []
      invariant whole == After(done, Feed(buf.data, todo))
      invariant FindCode(buf.data, 4).None?
      invariant nalCh.offered == old(nalCh.offered) + done
      decreases |todo|
    {
      ghost var head := FeedStep(done, buf.data, todo);
      OnRead(buf, nalCh, todo[0]);
      todo := todo[1..];
      done := done + head.chunks;
    }
    assert done + [] == done;
  }

  /** The `err != nil` branch: the last chunk has no start code to end it. */
  method OnError(buf: Buffer, nalCh: NalChannel)
    modifies nalCh
    ensures nalCh.offered == old(nalCh.offered) + Flush(buf.data)
  {
    if |buf.data| > 4 {
      nalCh.TrySend(buf.data);
    }
  }

  /** `readNALs`: `pieces` are the results of `reader.Read` up to the read error that
      ends the loop; the error may come with the last bytes or after them. */
  method ReadNALs(pieces: seq<Bytes>, nalCh: NalChannel)
    modifies nalCh
    ensures nalCh.offered == old(nalCh.offered) + Split(Flatten(pieces))
  {
    var buf := new Buffer();
    ReadAll(pieces, buf, nalCh);
    FeedIsExtract([], pieces);
    assert [] + Flatten(pieces) == Flatten(pieces);
    OnError(buf, nalCh);
  }

  // ---------------------------------------------------------------- conservation, shape

  /** A chunk list and a rest that cut `stream` at start codes and nowhere else. */
  ghost predicate CutsAtCodes(stream: Bytes, chunks: seq<Bytes>, rest: Bytes) {
    && Flatten(chunks) + rest == stream
    && (forall k :: 0 <= k < |chunks| ==> NoCodeFrom(chunks[k], 4) && |chunks[k]| >= 4)
    && NoCodeFrom(rest, 4)
    && (forall k :: 1 <= k < |chunks| ==> CodeAt(chunks[k], 0))
    && (chunks != [] ==> CodeAt(rest, 0))
  }

  /** A code found across a junction `c ++ t`, where `t` starts with a code, is found
      inside `t`: the start code has no border, so nothing straddles. */
  lemma NoStraddle(c: Bytes, t: Bytes, i: nat)
    requires CodeAt(t, 0) && CodeAt(c + t, i)
    ensures i + 4 <= |c| || |c| <= i
    ensures i + 4 <= |c| ==> CodeAt(c, i)
    ensures |c| <= i ==> CodeAt(t, i - |c|)
  {
    if |c| <= i + 3 {
      assert (c + t)[i + 3] == t[i + 3 - |c|];
    }
  }

  /** The first piece of a cutting starts as the stream does. */
  lemma FirstPiece(stream: Bytes, chunks: seq<Bytes>, rest: Bytes)
    requires CutsAtCodes(stream, chunks, rest)
    ensures chunks == [] ==> rest == stream
    ensures chunks != [] ==> stream == chunks[0] + (Flatten(chunks[1..]) + rest)
    ensures chunks != [] ==> (CodeAt(chunks[0], 0) <==> CodeAt(stream, 0))
  {
    if chunks != [] {
      assert stream[..4] == chunks[0][..4];
      assert CodeAt(stream, 0) <==> stream[..4] == START_CODE;
      assert CodeAt(chunks[0], 0) <==> chunks[0][..4] == START_CODE;
    }
  }

  /** A code-free head in front of a cutting that starts with a code is a cutting. */
  lemma PrependChunk(head: Bytes, t: Bytes, chunks: seq<Bytes>, rest: Bytes)
    requires CutsAtCodes(t, chunks, rest) && CodeAt(t, 0)
    requires |head| >= 4 && forall j: nat :: 4 <= j < |head| ==> !CodeAt(head + t, j)
    ensures CutsAtCodes(head + t, [head] + chunks, rest)
  {
    var all := [head] + chunks;
    assert all[1..] == chunks;
    assert Flatten(all) + rest == head + t;
    forall j: nat | 4 <= j ensures !CodeAt(head, j) {
      assert CodeAt(head, j) ==> CodeAt(head + t, j);
    }
    forall k | 1 <= k < |all| ensures CodeAt(all[k], 0) {
      if k == 1 {
        FirstPiece(t, chunks, rest);
      }
    }
    if chunks == [] {
      assert rest == t;
    }
  }

  lemma {:induction false} ExtractConserves(stream: Bytes)
    ensures CutsAtCodes(stream, Extract(stream).chunks, Extract(stream).rest)
    decreases |stream|
  {
    FindCodeLeftmost(stream, 4);
    if FindCode(stream, 4).None? {
      assert Flatten<byte>([]) + stream == stream;
    } else {
      var i := FindCode(stream, 4).value;
      var head, t := stream[..i], stream[i..];
      assert head + t == stream;
      ExtractStep(stream, i);
      ExtractConserves(t);
      PrependChunk(head, t, Extract(t).chunks, Extract(t).rest);
    }
  }

  /** What is lost at end of stream. */
  function Residue(stream: Bytes): Bytes {
    if |Extract(stream).rest| > 4 then [] else Extract(stream).rest
  }

  /** Stream conservation: nothing is invented, reordered or lost but a short residue,
      which is a lone start code once anything has been emitted. */
  lemma SplitConserves(stream: Bytes)
    ensures Flatten(Split(stream)) + Residue(stream) == stream
    ensures |Residue(stream)| <= 4
    ensures Split(stream) != [] ==> Residue(stream) == [] || Residue(stream) == START_CODE
  {
    ExtractConserves(stream);
    var cut := Extract(stream);
    FlattenAppend(cut.chunks, Flush(cut.rest));
    if |cut.rest| > 4 {
      FlattenOne(cut.rest);
    } else {
      assert Split(stream) == cut.chunks;
    }
  }

  lemma AppendedShape(stream: Bytes, chunks: seq<Bytes>, rest: Bytes)
    requires CutsAtCodes(stream, chunks, rest)
    ensures var all := chunks + Flush(rest);
            && (forall k :: 0 <= k < |all| ==> NoCodeFrom(all[k], 4))
            && (forall k :: 1 <= k < |all| ==> CodeAt(all[k], 0))
  {}

  /** Shape: every chunk but possibly the first starts with the code (the first too if
      the stream does), and none holds a code past its own. */
  lemma SplitShape(stream: Bytes)
    ensures forall k :: 0 <= k < |Split(stream)| ==> NoCodeFrom(Split(stream)[k], 4)
    ensures forall k :: 1 <= k < |Split(stream)| ==> CodeAt(Split(stream)[k], 0)
    ensures Split(stream) != [] ==> (CodeAt(Split(stream)[0], 0) <==> CodeAt(stream, 0))
  {
    ExtractConserves(stream);
    var cut := Extract(stream);
    FirstPiece(stream, cut.chunks, cut.rest);
    AppendedShape(stream, cut.chunks, cut.rest);
  }

  lemma FoundAt(c: Bytes, tail: Bytes)
    requires NoCodeFrom(c, 4) && |c| >= 4 && CodeAt(tail, 0)
    ensures FindCode(c + tail, 4) == Some(|c|)
  {
    forall i: nat | 4 <= i < |c| ensures !CodeAt(c + tail, i) {
      if CodeAt(c + tail, i) {
        NoStraddle(c, tail, i);
      }
    }
    assert CodeAt(c + tail, |c|);
    assert IsLeftmost(c + tail, 4, |c|);
    FindCodeLeftmost(c + tail, 4);
  }

  /** The first chunk of a cutting ends at the first start code past its own. */
  lemma FirstCut(stream: Bytes, chunks: seq<Bytes>, rest: Bytes)
    requires CutsAtCodes(stream, chunks, rest) && chunks != []
    ensures var c, tail := chunks[0], Flatten(chunks[1..]) + rest;
            && CutsAtCodes(tail, chunks[1..], rest) && stream == c + tail
            && Extract(stream) == Prepend(c, Extract(tail))
  {
    var c, tail := chunks[0], Flatten(chunks[1..]) + rest;
    FirstPiece(stream, chunks, rest);
    assert CutsAtCodes(tail, chunks[1..], rest);
    FirstPiece(tail, chunks[1..], rest);
    FoundAt(c, tail);
    ExtractStep(stream, |c|);
    assert stream[..|c|] == c && stream[|c|..] == tail;
  }

  /** Conservation and shape leave no freedom: every cutting at start codes is the one
      the splitter makes. */
  lemma {:induction false} CuttingIsUnique(stream: Bytes, chunks: seq<Bytes>, rest: Bytes)
    requires CutsAtCodes(stream, chunks, rest)
    ensures Extract(stream) == Cut(chunks, rest)
    decreases |chunks|
  {
    if chunks == [] {
      assert stream == rest;
      FindCodeLeftmost(stream, 4);
    } else {
      var c, tail := chunks[0], Flatten(chunks[1..]) + rest;
      FirstCut(stream, chunks, rest);
      CuttingIsUnique(tail, chunks[1..], rest);
      assert [c] + chunks[1..] == chunks;
    }
  }

  // ---------------------------------------------------------------- round trip

  /** A unit as an encoder writes it: the start code, then the payload. */
  function Unit(payload: Bytes): Bytes {
    START_CODE + payload
  }

  function Units(payloads: seq<Bytes>): (r: seq<Bytes>)
    ensures |r| == |payloads|
    ensures forall k :: 0 <= k < |r| ==> r[k] == Unit(payloads[k])
  {
    seq(|payloads|, k requires 0 <= k < |payloads| => Unit(payloads[k]))
  }

  function Join(payloads: seq<Bytes>): Bytes {
    Flatten(Units(payloads))
  }

  /** No payload hides a start code. */
  ghost predicate Clean(payloads: seq<Bytes>) {
    forall k :: 0 <= k < |payloads| ==> NoCodeFrom(payloads[k], 0)
  }

  lemma CodeInUnit(p: Bytes)
    ensures NoCodeFrom(Unit(p), 4) <==> NoCodeFrom(p, 0)
    ensures CodeAt(Unit(p), 0)
  {
    forall i: nat ensures CodeAt(p, i) <==> CodeAt(Unit(p), i + 4) {}
    if NoCodeFrom(p, 0) {
      forall i: nat | 4 <= i ensures !CodeAt(Unit(p), i) {
        assert CodeAt(p, i - 4) <==> CodeAt(Unit(p), (i - 4) + 4);
      }
    }
  }

  /** The join of clean units is cut back into all units but the last, which is the rest. */
  lemma ExtractJoin(payloads: seq<Bytes>)
    requires Clean(payloads) && payloads != []
    ensures var us := Units(payloads);
            Extract(Join(payloads)) == Cut(us[..|us| - 1], us[|us| - 1])
  {
    var us := Units(payloads);
    var n := |us| - 1;
    forall k | 0 <= k <= n
      ensures NoCodeFrom(us[k], 4) && CodeAt(us[k], 0) && |us[k]| >= 4
    {
      CodeInUnit(payloads[k]);
    }
    assert us == us[..n] + [us[n]];
    FlattenAppend(us[..n], [us[n]]);
    FlattenOne(us[n]);
    CuttingIsUnique(Join(payloads), us[..n], us[n]);
  }

  /** Splitting what was joined: everything comes back, except that an empty last
      payload is lost with its start code at end of stream. */
  lemma SplitJoin(payloads: seq<Bytes>)
    requires Clean(payloads)
    ensures payloads == [] ==> Split(Join(payloads)) == []
    ensures payloads != [] && payloads[|payloads| - 1] != [] ==> Split(Join(payloads)) == Units(payloads)
    ensures payloads != [] && payloads[|payloads| - 1] == [] ==>
              Split(Join(payloads)) == Units(payloads)[..|payloads| - 1]
  {
    if payloads != [] {
      ExtractJoin(payloads);
    }
  }

  /** Exactly when the round trip holds, over every list of payloads. */
  lemma JoinSplitRoundTrip(payloads: seq<Bytes>)
    ensures Split(Join(payloads)) == Units(payloads)
            <==> Clean(payloads) && (payloads == [] || payloads[|payloads| - 1] != [])
  {
    if Clean(payloads) {
      SplitJoin(payloads);
    }
    if Split(Join(payloads)) == Units(payloads) {
      SplitConserves(Join(payloads));
      SplitShape(Join(payloads));
      forall k | 0 <= k < |payloads| ensures NoCodeFrom(payloads[k], 0) {
        assert NoCodeFrom(Split(Join(payloads))[k], 4);
        CodeInUnit(payloads[k]);
      }
    }
  }
}
