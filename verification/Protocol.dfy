/** The 17-byte frame header of internal/protocol/protocol.go and the browser's reading of
    a framed message in cmd/server/client/compositor.js. */
module Protocol {
  import opened Basics
  import opened Binary

  const HEADER_SIZE := 17
  const FRAME_TYPE_VIDEO_H264: byte := 1
  const FRAME_TYPE_AUDIO_PCM: byte := 4

  datatype FrameHeader = FrameHeader(
    typ: byte, timestamp: uint64, width: uint16, height: uint16, payloadSize: uint32)

  // ---------------------------------------------------------------- header

  function HeaderBytes(h: FrameHeader): (r: Bytes)
    ensures |r| == HEADER_SIZE
  {
    [h.typ] + LittleEndian(h.timestamp, 8) + LittleEndian(h.width, 2)
    + LittleEndian(h.height, 2) + LittleEndian(h.payloadSize, 4)
  }

  method MarshalHeader(h: FrameHeader, buf: array<byte>)
    requires buf.Length >= HEADER_SIZE
    modifies buf
    ensures buf[..] == HeaderBytes(h) + old(buf[HEADER_SIZE..])
  {
    ghost var rest := buf[1..];
    buf[0] := h.typ;
    assert buf[..] == [h.typ] + rest;
    PatchNext([h.typ], rest, LittleEndian(h.timestamp, 8));
    PutLittleEndian(buf, 1, 8, h.timestamp);
    ghost var done := [h.typ] + LittleEndian(h.timestamp, 8);
    PatchNext(done, rest[8..], LittleEndian(h.width, 2));
    PutLittleEndian(buf, 9, 2, h.width);
    done := done + LittleEndian(h.width, 2);
    PatchNext(done, rest[8..][2..], LittleEndian(h.height, 2));
    PutLittleEndian(buf, 11, 2, h.height);
    done := done + LittleEndian(h.height, 2);
    PatchNext(done, rest[8..][2..][2..], LittleEndian(h.payloadSize, 4));
    PutLittleEndian(buf, 13, 4, h.payloadSize);
    assert rest[8..][2..][2..][4..] == old(buf[HEADER_SIZE..]);
  }

  function UnmarshalHeader(buf: Bytes): (r: Option<FrameHeader>)
    ensures r.Some? <==> |buf| >= HEADER_SIZE
  {
    if |buf| < HEADER_SIZE then None
    else
      WidthBounds();
      LittleEndianWrites(buf[1..9]);
      LittleEndianWrites(buf[9..11]);
      LittleEndianWrites(buf[11..13]);
      LittleEndianWrites(buf[13..17]);
      Some(FrameHeader(
             buf[0], FromLittleEndian(buf[1..9]), FromLittleEndian(buf[9..11]),
             FromLittleEndian(buf[11..13]), FromLittleEndian(buf[13..17])))
  }

  lemma FieldSlices(t: Bytes, ts: Bytes, w: Bytes, h: Bytes, size: Bytes, payload: Bytes)
    requires |t| == 1 && |ts| == 8 && |w| == 2 && |h| == 2 && |size| == 4
    ensures var m := t + ts + w + h + size + payload;
            && m[0] == t[0] && m[1..9] == ts && m[9..11] == w && m[11..13] == h
            && m[13..17] == size && m[17..] == payload
  {}

  lemma HeaderSlices(h: FrameHeader, payload: Bytes)
    ensures var m := HeaderBytes(h) + payload;
            && m[0] == h.typ && m[1..9] == LittleEndian(h.timestamp, 8)
            && m[9..11] == LittleEndian(h.width, 2) && m[11..13] == LittleEndian(h.height, 2)
            && m[13..17] == LittleEndian(h.payloadSize, 4) && m[17..] == payload
  {
    FieldSlices([h.typ], LittleEndian(h.timestamp, 8), LittleEndian(h.width, 2),
                LittleEndian(h.height, 2), LittleEndian(h.payloadSize, 4), payload);
  }

  /** Unmarshal undoes marshal, whatever follows the header ... */
  lemma UnmarshalMarshal(h: FrameHeader, payload: Bytes)
    ensures UnmarshalHeader(HeaderBytes(h) + payload) == Some(h)
  {
    WidthBounds();
    HeaderSlices(h, payload);
    LittleEndianReads(h.timestamp, 8);
    LittleEndianReads(h.width, 2);
    LittleEndianReads(h.height, 2);
    LittleEndianReads(h.payloadSize, 4);
  }

  /** ... and marshal undoes unmarshal on every buffer that is long enough. */
  lemma MarshalUnmarshal(buf: Bytes)
    requires |buf| >= HEADER_SIZE
    ensures HeaderBytes(UnmarshalHeader(buf).value) == buf[..HEADER_SIZE]
  {
    LittleEndianWrites(buf[1..9]);
    LittleEndianWrites(buf[9..11]);
    LittleEndianWrites(buf[11..13]);
    LittleEndianWrites(buf[13..17]);
    assert buf[..17] == [buf[0]] + buf[1..9] + buf[9..11] + buf[11..13] + buf[13..17];
  }

  // ---------------------------------------------------------------- framed messages

  /** `uint32(len(payload))`. */
  function SizeField(n: nat): (r: uint32)
    ensures r <= n
    ensures r == n <==> n < 0x1_0000_0000
  {
    n % 0x1_0000_0000
  }

  /** A header followed by its payload. */
  function Message(typ: byte, payload: Bytes, width: uint16, height: uint16, ts: uint64): (r: Bytes)
    ensures |r| == HEADER_SIZE + |payload|
  {
    HeaderBytes(FrameHeader(typ, ts, width, height, SizeField(|payload|))) + payload
  }

  function VideoMessage(nal: Bytes, width: uint16, height: uint16, ts: uint64): Bytes {
    Message(FRAME_TYPE_VIDEO_H264, nal, width, height, ts)
  }

  /** Sample rate and channel count travel in the width and height fields. */
  function AudioMessage(pcm: Bytes, ts: uint64): Bytes {
    Message(FRAME_TYPE_AUDIO_PCM, pcm, 48000, 2, ts)
  }

  /** What `ws.onmessage` does with a binary message. `BadRange` is the exception thrown by
      a `Uint8Array` view that would pass the end of the message. */
  datatype Received =
    | Ignored
    | BadRange
    | Video(width: uint16, height: uint16, nal: Bytes)
    | Audio(pcm: Bytes)

  function OnMessage(msg: Bytes): Received {
    match UnmarshalHeader(msg)
    case None => Ignored
    case Some(h) =>
      if h.typ != FRAME_TYPE_VIDEO_H264 && h.typ != FRAME_TYPE_AUDIO_PCM then Ignored
      else if HEADER_SIZE + h.payloadSize > |msg| then BadRange
      else
        var payload := msg[HEADER_SIZE..HEADER_SIZE + h.payloadSize];
        if h.typ == FRAME_TYPE_VIDEO_H264 then Video(h.width, h.height, payload) else Audio(payload)
  }

  lemma MessagePayload(typ: byte, payload: Bytes, width: uint16, height: uint16, ts: uint64)
    ensures var msg := Message(typ, payload, width, height, ts);
            var size := SizeField(|payload|);
            && UnmarshalHeader(msg) == Some(FrameHeader(typ, ts, width, height, size))
            && size <= |payload| && msg[HEADER_SIZE..HEADER_SIZE + size] == payload[..size]
  {
    var size := SizeField(|payload|);
    var h := FrameHeader(typ, ts, width, height, size);
    UnmarshalMarshal(h, payload);
    assert (HeaderBytes(h) + payload)[HEADER_SIZE..HEADER_SIZE + size] == payload[..size];
  }

  /** The browser recovers the dimensions of every broadcast frame, and its bytes exactly
      when their number fits the size field: 4 GiB and more are cut short. */
  lemma FramingRoundTrip(nal: Bytes, width: uint16, height: uint16, ts: uint64)
    ensures var got := OnMessage(VideoMessage(nal, width, height, ts));
            got.Video? && got.width == width && got.height == height
            && (got.nal == nal <==> |nal| < 0x1_0000_0000)
  {
    MessagePayload(FRAME_TYPE_VIDEO_H264, nal, width, height, ts);
    if |nal| < 0x1_0000_0000 {
      assert nal[..|nal|] == nal;
    }
  }

  /** What the headers of broadcast messages say. */
  lemma HeadersSay(payload: Bytes, width: uint16, height: uint16, ts: uint64)
    ensures UnmarshalHeader(VideoMessage(payload, width, height, ts))
            == Some(FrameHeader(1, ts, width, height, |payload| % 0x1_0000_0000))
    ensures UnmarshalHeader(AudioMessage(payload, ts))
            == Some(FrameHeader(4, ts, 48000, 2, |payload| % 0x1_0000_0000))
  {
    MessagePayload(1, payload, width, height, ts);
    MessagePayload(4, payload, 48000, 2, ts);
  }

  /** What the browser makes of any message, by its first byte and the size in its last four
      header bytes. */
  lemma OnMessageMeans(msg: Bytes)
    ensures |msg| < 17 ==> OnMessage(msg) == Ignored
    ensures |msg| >= 17 ==>
              var size := FromLittleEndian(msg[13..17]);
              && (msg[0] != 1 && msg[0] != 4 ==> OnMessage(msg) == Ignored)
              && (msg[0] == 1 || msg[0] == 4 ==> (OnMessage(msg) == BadRange <==> 17 + size > |msg|))
              && (msg[0] == 1 && 17 + size <= |msg| ==>
                    OnMessage(msg) == Video(FromLittleEndian(msg[9..11]), FromLittleEndian(msg[11..13]), msg[17..17 + size]))
              && (msg[0] == 4 && 17 + size <= |msg| ==> OnMessage(msg) == Audio(msg[17..17 + size]))
  {
    if |msg| >= 17 {
      WidthBounds();
      LittleEndianWrites(msg[9..11]);
      LittleEndianWrites(msg[11..13]);
    }
  }

  lemma AudioRoundTrip(pcm: Bytes, ts: uint64)
    ensures OnMessage(AudioMessage(pcm, ts)).Audio?
    ensures OnMessage(AudioMessage(pcm, ts)) == Audio(pcm) <==> |pcm| < 0x1_0000_0000
  {
    MessagePayload(FRAME_TYPE_AUDIO_PCM, pcm, 48000, 2, ts);
    if |pcm| < 0x1_0000_0000 {
      assert pcm[..|pcm|] == pcm;
    }
  }
}
