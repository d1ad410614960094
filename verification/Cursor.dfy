/** `BlendCursor` of internal/capture/cursor.go: alpha compositing of the pointer image onto
    the captured frame, in place, clipped to the frame. Both are RGBA, row by row. */
module Cursor {
  import opened Basics

  datatype CursorFrame = CursorFrame(pixels: Bytes, x: int, y: int, w: int, h: int)

  /** Enough bytes for `w` by `h` pixels; negative sizes mean no pixels. */
  predicate Holds(length: nat, w: int, h: int) {
    w > 0 && h > 0 ==> 4 * (w * h) <= length
  }

  // ---------------------------------------------------------------- the blend of one byte

  lemma BlendRange(sa: byte, s: byte, d: byte)
    ensures s <= d ==> 255 * s <= sa * s + (255 - sa) * d <= 255 * d
    ensures d <= s ==> 255 * d <= sa * s + (255 - sa) * d <= 255 * s
    ensures 0 <= sa * s + (255 - sa) * d <= 255 * 255
  {
    assert (255 - sa) * d == 255 * d - sa * d;
    assert sa * (d - s) == sa * d - sa * s;
    assert (255 - sa) * (d - s) == 255 * (d - s) - sa * (d - s);
    if s <= d {
      ProductNonNegative(sa, d - s);
      ProductNonNegative(255 - sa, d - s);
    } else {
      assert sa * (s - d) == -(sa * (d - s)) && (255 - sa) * (s - d) == -((255 - sa) * (d - s));
      ProductNonNegative(sa, s - d);
      ProductNonNegative(255 - sa, s - d);
    }
  }

  /** Source over destination with alpha `sa`. */
  function Over(sa: byte, s: byte, d: byte): (r: byte)
    ensures (s <= r <= d) || (d <= r <= s)
    ensures 255 * r <= sa * s + (255 - sa) * d < 255 * r + 255
  {
    BlendRange(sa, s, d);
    (sa * s + (255 - sa) * d) / 255
  }

  /** The branches for alpha 0 and 255 compute what the general formula would. */
  lemma SpecialAlphas(s: byte, d: byte)
    ensures Over(0, s, d) == d && Over(255, s, d) == s
  {}

  // ---------------------------------------------------------------- the specification

  /** Column and row of the pixel that owns byte `k`. */
  function Col(k: nat, frameW: int): int
    requires frameW > 0
  {
    (k / 4) % frameW
  }

  function Row(k: nat, frameW: int): int
    requires frameW > 0
  {
    (k / 4) / frameW
  }

  /** The pointer image covers frame pixel (`x`, `y`). */
  predicate Covers(c: CursorFrame, frameW: int, frameH: int, x: int, y: int) {
    0 <= x < frameW && 0 <= y < frameH && c.x <= x < c.x + c.w && c.y <= y < c.y + c.h
  }

  /** Offset in the pointer image of the pixel shown at (`x`, `y`). */
  function SrcOff(c: CursorFrame, x: int, y: int): int {
    ((y - c.y) * c.w + (x - c.x)) * 4
  }

  /** The pixel looked at exists in the pointer image and, unless it is transparent, the
      pixel written exists in the frame. */
  predicate PixelFits(length: nat, frameW: int, c: CursorFrame, x: int, y: int) {
    && 0 <= SrcOff(c, x, y) <= |c.pixels| - 4
    && (c.pixels[SrcOff(c, x, y) + 3] != 0 ==> (y * frameW + x) * 4 + 4 <= length)
  }

  /** No access of the loops is out of range. */
  ghost predicate Fits(length: nat, frameW: int, frameH: int, c: CursorFrame) {
    forall x, y :: Covers(c, frameW, frameH, x, y) ==> PixelFits(length, frameW, c, x, y)
  }

  lemma OffsetBound(row: int, col: int, w: int, h: int)
    requires 0 <= row < h && 0 <= col < w
    ensures 0 <= row * w + col < w * h
  {
    assert row * w + w <= w * h by {
      assert (row + 1) * w <= h * w by {
        assert (h - (row + 1)) * w >= 0;
      }
    }
  }

  /** Buffers of the stated sizes always do. */
  lemma FullSizeFits(length: nat, frameW: int, frameH: int, c: CursorFrame)
    requires Holds(length, frameW, frameH) && Holds(|c.pixels|, c.w, c.h)
    ensures Fits(length, frameW, frameH, c)
  {
    forall x, y | Covers(c, frameW, frameH, x, y)
      ensures PixelFits(length, frameW, c, x, y)
    {
      OffsetBound(y - c.y, x - c.x, c.w, c.h);
      OffsetBound(y, x, frameW, frameH);
    }
  }

  /** Byte `k` of the composited frame. */
  function Blended(frame: Bytes, frameW: int, frameH: int, c: CursorFrame, k: nat): byte
    requires k < |frame| && Fits(|frame|, frameW, frameH, c)
  {
    if frameW > 0 && Covers(c, frameW, frameH, Col(k, frameW), Row(k, frameW)) then
      assert PixelFits(|frame|, frameW, c, Col(k, frameW), Row(k, frameW));
      var src := SrcOff(c, Col(k, frameW), Row(k, frameW));
      var sa := c.pixels[src + 3];
      if sa == 0 then frame[k]
      else if k % 4 == 3 then 255
      else Over(sa, c.pixels[src + k % 4], frame[k])
    else frame[k]
  }

  function Composite(frame: Bytes, frameW: int, frameH: int, c: CursorFrame): (r: Bytes)
    requires Fits(|frame|, frameW, frameH, c)
    ensures |r| == |frame|
    ensures forall k :: 0 <= k < |frame| ==> r[k] == Blended(frame, frameW, frameH, c, k)
  {
    seq(|frame|, k requires 0 <= k < |frame| => Blended(frame, frameW, frameH, c, k))
  }

  /** Byte `k` lies in the pixel at offset `(fy * frameW + fx) * 4` just when that is the
      pixel that owns it: rows do not overlap. */
  lemma OwnPixel(k: nat, frameW: int, fx: int, fy: int)
    requires 0 <= fx < frameW && 0 <= fy
    ensures var off := (fy * frameW + fx) * 4;
            off <= k < off + 4 <==> Col(k, frameW) == fx && Row(k, frameW) == fy
    ensures var off := (fy * frameW + fx) * 4;
            off <= k < off + 4 ==> k == off + k % 4
  {
    var p := k / 4;
    assert p == (p / frameW) * frameW + p % frameW;
    if p == fy * frameW + fx {
      DivUnique(p, frameW, fy, fx);
    }
  }

  // ---------------------------------------------------------------- in place

  predicate Earlier(x: int, y: int, x': int, y': int) {
    y < y' || (y == y' && x < x')
  }

  /** Everything before pixel (`x`, `y`) in row order is composited, the rest untouched. */
  ghost predicate Progress(now: Bytes, was: Bytes, frameW: int, frameH: int, c: CursorFrame, x: int, y: int)
    requires Fits(|was|, frameW, frameH, c)
  {
    && |now| == |was|
    && forall k :: 0 <= k < |was| ==>
         now[k] == if frameW > 0 && Earlier(Col(k, frameW), Row(k, frameW), x, y)
                   then Blended(was, frameW, frameH, c, k) else was[k]
  }

  /** No access for a pixel before (`x`, `y`) in row order was out of range. */
  ghost predicate FitsBefore(length: nat, frameW: int, frameH: int, c: CursorFrame, x: int, y: int) {
    forall px, py :: Covers(c, frameW, frameH, px, py) && Earlier(px, py, x, y) ==>
      PixelFits(length, frameW, c, px, py)
  }

  /** The loops have come to pixel (`x`, `y`) without a panic. */
  ghost predicate Reached(now: Bytes, was: Bytes, frameW: int, frameH: int, c: CursorFrame, x: int, y: int) {
    && |now| == |was| && FitsBefore(|was|, frameW, frameH, c, x, y)
    && (Fits(|was|, frameW, frameH, c) ==> Progress(now, was, frameW, frameH, c, x, y))
  }

  lemma SkipRow(now: Bytes, was: Bytes, frameW: int, frameH: int, c: CursorFrame, fy: int)
    requires Reached(now, was, frameW, frameH, c, c.x, fy) && (fy < 0 || fy >= frameH)
    ensures Reached(now, was, frameW, frameH, c, c.x, fy + 1)
  {}

  lemma ReachedStart(was: Bytes, frameW: int, frameH: int, c: CursorFrame)
    ensures Reached(was, was, frameW, frameH, c, c.x, c.y)
  {}

  /** A column left or right of the frame owns no byte of it, nor does a row above or below. */
  lemma SkipColumn(now: Bytes, was: Bytes, frameW: int, frameH: int, c: CursorFrame, fx: int, fy: int)
    requires Reached(now, was, frameW, frameH, c, fx, fy) && (fx < 0 || fx >= frameW)
    ensures Reached(now, was, frameW, frameH, c, fx + 1, fy)
  {}

  /** The four bytes of one pixel after the loop body. */
  ghost predicate PixelDone(before: Bytes, after: Bytes, dstOff: nat, pixels: Bytes, srcOff: nat)
    requires |before| == |after| && srcOff + 4 <= |pixels|
    requires pixels[srcOff + 3] != 0 ==> dstOff + 4 <= |before|
  {
    var sa := pixels[srcOff + 3];
    if sa == 0 then after == before else
    && (forall k :: 0 <= k < |before| && !(dstOff <= k < dstOff + 4) ==> after[k] == before[k])
    && (forall k :: dstOff <= k < dstOff + 3 ==> after[k] == Over(sa, pixels[srcOff + k - dstOff], before[k]))
    && after[dstOff + 3] == 255
  }

  function Truncated(sum: nat): (r: byte)
    ensures sum <= 255 * 255 ==> r == sum / 255
  {
    ((sum % 0x1_0000_0000) / 255) % 0x100
  }

  /** `byte((sa*uint32(s) + da*uint32(d)) / 255)`, with the 32-bit sum and the truncation to
      a byte written out: neither loses anything. */
  function Mix(sa: byte, s: byte, d: byte): (r: byte)
    ensures r == Over(sa, s, d)
  {
    BlendRange(sa, s, d);
    Truncated(sa * s + (255 - sa) * d)
  }

  /** The body of the inner loop; `panicked` is Go's run-time panic at an index out of
      range, after which nothing matters. */
  method BlendPixel(frame: array<byte>, dstOff: nat, pixels: Bytes, srcOff: nat) returns (panicked: bool)
    modifies frame
    ensures panicked <==> !(srcOff + 4 <= |pixels| && (pixels[srcOff + 3] != 0 ==> dstOff + 4 <= frame.Length))
    ensures !panicked ==> PixelDone(old(frame[..]), frame[..], dstOff, pixels, srcOff)
  {
    if srcOff + 3 >= |pixels| {
      return true;
    }
    var sa := pixels[srcOff + 3];
    if sa == 0 {
      return false;
    }
    if dstOff + 3 >= frame.Length {
      return true;
    }
    if sa == 255 {
      SpecialAlphas(pixels[srcOff], frame[dstOff]);
      SpecialAlphas(pixels[srcOff + 1], frame[dstOff + 1]);
      SpecialAlphas(pixels[srcOff + 2], frame[dstOff + 2]);
      frame[dstOff + 0] := pixels[srcOff + 0];
      frame[dstOff + 1] := pixels[srcOff + 1];
      frame[dstOff + 2] := pixels[srcOff + 2];
      frame[dstOff + 3] := 255;
      return false;
    }
    frame[dstOff + 0] := Mix(sa, pixels[srcOff + 0], frame[dstOff + 0]);
    frame[dstOff + 1] := Mix(sa, pixels[srcOff + 1], frame[dstOff + 1]);
    frame[dstOff + 2] := Mix(sa, pixels[srcOff + 2], frame[dstOff + 2]);
    frame[dstOff + 3] := 255;
    return false;
  }

  lemma OwnByte(before: Bytes, after: Bytes, off: nat, pixels: Bytes, src: nat, k: nat)
    requires |before| == |after| && src + 4 <= |pixels| && off <= k < off + 4 && k < |before|
    requires pixels[src + 3] != 0 ==> off + 4 <= |before|
    requires k == off + k % 4
    requires PixelDone(before, after, off, pixels, src)
    ensures var sa := pixels[src + 3];
            after[k] == if sa == 0 then before[k]
                        else if k % 4 == 3 then 255
                        else Over(sa, pixels[src + k % 4], before[k])
  {}

  lemma OnePixel(before: Bytes, after: Bytes, was: Bytes, frameW: int, frameH: int, c: CursorFrame, fx: int, fy: int)
    requires Fits(|was|, frameW, frameH, c) && Covers(c, frameW, frameH, fx, fy)
    requires Progress(before, was, frameW, frameH, c, fx, fy) && |after| == |before|
    requires 0 <= (fy * frameW + fx) * 4
    requires PixelDone(before, after, (fy * frameW + fx) * 4, c.pixels, SrcOff(c, fx, fy))
    ensures Progress(after, was, frameW, frameH, c, fx + 1, fy)
  {
    var off, src := (fy * frameW + fx) * 4, SrcOff(c, fx, fy);
    forall k | 0 <= k < |was|
      ensures after[k] == if Earlier(Col(k, frameW), Row(k, frameW), fx + 1, fy)
                          then Blended(was, frameW, frameH, c, k) else was[k]
    {
      OwnPixel(k, frameW, fx, fy);
      if off <= k < off + 4 {
        assert before[k] == was[k];
        OwnByte(before, after, off, c.pixels, src, k);
      } else {
        assert after[k] == before[k];
      }
    }
  }

  /** A pixel that fits has been blended. */
  lemma StepPixel(before: Bytes, after: Bytes, was: Bytes, frameW: int, frameH: int, c: CursorFrame, fx: int, fy: int)
    requires Covers(c, frameW, frameH, fx, fy) && PixelFits(|was|, frameW, c, fx, fy)
    requires Reached(before, was, frameW, frameH, c, fx, fy) && |after| == |before|
    requires 0 <= (fy * frameW + fx) * 4
    requires PixelDone(before, after, (fy * frameW + fx) * 4, c.pixels, SrcOff(c, fx, fy))
    ensures Reached(after, was, frameW, frameH, c, fx + 1, fy)
  {
    if Fits(|was|, frameW, frameH, c) {
      OnePixel(before, after, was, frameW, frameH, c, fx, fy);
    }
  }

  /** Past the last pixel of a row comes the first of the next. */
  lemma EndRow(now: Bytes, was: Bytes, frameW: int, frameH: int, c: CursorFrame, fy: int)
    requires Reached(now, was, frameW, frameH, c, if c.w < 0 then c.x else c.x + c.w, fy)
    ensures Reached(now, was, frameW, frameH, c, c.x, fy + 1)
  {}

  method BlendRow(frame: array<byte>, ghost was: Bytes, frameW: int, frameH: int, c: CursorFrame, cy: int)
    returns (panicked: bool)
    requires |was| == frame.Length
    requires 0 <= cy < c.h && 0 <= c.y + cy < frameH
    requires Reached(frame[..], was, frameW, frameH, c, c.x, c.y + cy)
    modifies frame
    ensures panicked ==> !Fits(|was|, frameW, frameH, c)
    ensures !panicked ==> Reached(frame[..], was, frameW, frameH, c, c.x, c.y + cy + 1)
  {
    var fy := c.y + cy;
    var cx := 0;
    while cx < c.w
      invariant 0 <= cx && (c.w >= 0 ==> cx <= c.w)
      invariant Reached(frame[..], was, frameW, frameH, c, c.x + cx, fy)
    {
      var fx := c.x + cx;
      if fx < 0 || fx >= frameW {
        SkipColumn(frame[..], was, frameW, frameH, c, fx, fy);
        cx := cx + 1;
        continue;
      }
      ProductNonNegative(fy, frameW);
      ProductNonNegative(cy, c.w);
      assert Covers(c, frameW, frameH, fx, fy) && SrcOff(c, fx, fy) == (cy * c.w + cx) * 4;
      var srcOff := (cy * c.w + cx) * 4;
      var dstOff := (fy * frameW + fx) * 4;
      ghost var before := frame[..];
      panicked := BlendPixel(frame, dstOff, c.pixels, srcOff);
      if panicked {
        assert !PixelFits(|was|, frameW, c, fx, fy);
        return;
      }
      StepPixel(before, frame[..], was, frameW, frameH, c, fx, fy);
      cx := cx + 1;
    }
    EndRow(frame[..], was, frameW, frameH, c, fy);
    return false;
  }

  lemma Finished(now: Bytes, was: Bytes, frameW: int, frameH: int, c: CursorFrame, y: int)
    requires Reached(now, was, frameW, frameH, c, c.x, y) && y >= c.y + c.h
    ensures Fits(|was|, frameW, frameH, c) && now == Composite(was, frameW, frameH, c)
  {
    forall px, py | Covers(c, frameW, frameH, px, py) ensures PixelFits(|was|, frameW, c, px, py) {
      assert Earlier(px, py, c.x, y);
    }
  }

  /** The loops panic exactly when some access is out of range; else every byte of the frame
      is as specified. */
  method BlendCursor(frame: array<byte>, frameW: int, frameH: int, cursor: Option<CursorFrame>)
    returns (panicked: bool)
    modifies frame
    ensures panicked <==> cursor.Some? && !Fits(frame.Length, frameW, frameH, cursor.value)
    ensures !panicked ==>
              frame[..] == match cursor
                           case None => old(frame[..])
                           case Some(c) => Composite(old(frame[..]), frameW, frameH, c)
  {
    if cursor.None? {
      return false;
    }
    var c := cursor.value;
    ghost var was := frame[..];
    ReachedStart(was, frameW, frameH, c);
    var cy := 0;
    while cy < c.h
      invariant 0 <= cy && (c.h >= 0 ==> cy <= c.h)
      invariant Reached(frame[..], was, frameW, frameH, c, c.x, c.y + cy)
    {
      var fy := c.y + cy;
      if fy < 0 || fy >= frameH {
        SkipRow(frame[..], was, frameW, frameH, c, fy);
        cy := cy + 1;
        continue;
      }
      panicked := BlendRow(frame, was, frameW, frameH, c, cy);
      if panicked {
        return;
      }
      cy := cy + 1;
    }
    Finished(frame[..], was, frameW, frameH, c, c.y + cy);
    return false;
  }

  // ---------------------------------------------------------------- consequences

  /** That pixel of the pointer image is shown in the frame. */
  predicate Within(c: CursorFrame, frameW: int, frameH: int, cx: int, cy: int) {
    0 <= c.x + cx < frameW && 0 <= c.y + cy < frameH
  }

  /** The pixel at `src` shown at `dst`, looking at its colour byte `i`: a transparent one leaves
      the frame alone, any other makes it opaque and mixes the colours in the proportion of its
      alpha, rounded down. */
  predicate ShownAs(frame: Bytes, out: Bytes, pixels: Bytes, src: int, dst: int, i: int) {
    && 0 <= src && src + 4 <= |pixels| && 0 <= dst && 0 <= i < 3 && |out| == |frame|
    && var a: int := pixels[src + 3];
    if a == 0 then
      && (dst + i < |frame| ==> out[dst + i] == frame[dst + i])
      && (dst + 3 < |frame| ==> out[dst + 3] == frame[dst + 3])
    else
      && dst + 4 <= |frame| && out[dst + 3] == 255
      && var r: int, s: int, d: int := out[dst + i], pixels[src + i], frame[dst + i];
      255 * r <= a * s + (255 - a) * d < 255 * r + 255
  }

  /** What becomes of the frame pixel under column `cx`, row `cy` of the pointer image. */
  lemma ByteComposited(frame: Bytes, frameW: int, frameH: int, c: CursorFrame, x: int, y: int, dst: nat, i: nat)
    requires Fits(|frame|, frameW, frameH, c) && Covers(c, frameW, frameH, x, y) && PixelFits(|frame|, frameW, c, x, y)
    requires i < 4 && dst + i < |frame| && (dst + i) % 4 == i
    requires Col(dst + i, frameW) == x && Row(dst + i, frameW) == y
    ensures var a := c.pixels[SrcOff(c, x, y) + 3];
            Composite(frame, frameW, frameH, c)[dst + i]
            == if a == 0 then frame[dst + i] else if i == 3 then 255
               else Over(a, c.pixels[SrcOff(c, x, y) + i], frame[dst + i])
  {}

  lemma PixelComposited(frame: Bytes, frameW: int, frameH: int, c: CursorFrame,
                        cx: int, cy: int, src: int, dst: int, i: int)
    requires Fits(|frame|, frameW, frameH, c)
    requires 0 <= cx < c.w && 0 <= cy < c.h && Within(c, frameW, frameH, cx, cy)
    requires src == (cy * c.w + cx) * 4 && dst == ((c.y + cy) * frameW + (c.x + cx)) * 4 && 0 <= i < 3
    ensures ShownAs(frame, Composite(frame, frameW, frameH, c), c.pixels, src, dst, i)
  {
    var x, y := c.x + cx, c.y + cy;
    assert Covers(c, frameW, frameH, x, y) && SrcOff(c, x, y) == src;
    assert PixelFits(|frame|, frameW, c, x, y);
    ProductNonNegative(y, frameW);
    OwnPixel(dst + i, frameW, x, y);
    OwnPixel(dst + 3, frameW, x, y);
    if dst + i < |frame| {
      ByteComposited(frame, frameW, frameH, c, x, y, dst, i);
    }
    if dst + 3 < |frame| {
      ByteComposited(frame, frameW, frameH, c, x, y, dst, 3);
    }
  }

  /** Every other byte of the frame stays. */
  lemma ElsewhereUnchanged(frame: Bytes, frameW: int, frameH: int, c: CursorFrame, k: nat)
    requires Fits(|frame|, frameW, frameH, c) && k < |frame|
    requires forall cx, cy :: 0 <= cx < c.w && 0 <= cy < c.h && Within(c, frameW, frameH, cx, cy) ==>
               !(((c.y + cy) * frameW + (c.x + cx)) * 4 <= k < ((c.y + cy) * frameW + (c.x + cx)) * 4 + 4)
    ensures Composite(frame, frameW, frameH, c)[k] == frame[k]
  {
    if frameW > 0 && Covers(c, frameW, frameH, Col(k, frameW), Row(k, frameW)) {
      var cx, cy := Col(k, frameW) - c.x, Row(k, frameW) - c.y;
      OwnPixel(k, frameW, c.x + cx, c.y + cy);
      assert Within(c, frameW, frameH, cx, cy);
    }
  }

  /** Compositing never overshoots: each colour byte stays between pointer and frame, and
      bytes not covered keep their value. */
  lemma StaysBetween(frame: Bytes, frameW: int, frameH: int, c: CursorFrame, k: nat)
    requires Fits(|frame|, frameW, frameH, c) && k < |frame| && frameW > 0 && k % 4 != 3
    ensures var r, x, y := Composite(frame, frameW, frameH, c)[k], Col(k, frameW), Row(k, frameW);
            && (!Covers(c, frameW, frameH, x, y) ==> r == frame[k])
            && (Covers(c, frameW, frameH, x, y) ==>
                  0 <= SrcOff(c, x, y) && SrcOff(c, x, y) + 4 <= |c.pixels| &&
                  var s := c.pixels[SrcOff(c, x, y) + k % 4];
                  (s <= r <= frame[k]) || (frame[k] <= r <= s))
  {}

  /** An image without half-transparent pixels is copied: doing it twice changes nothing more. */
  lemma SharpIsIdempotent(frame: Bytes, frameW: int, frameH: int, c: CursorFrame)
    requires Fits(|frame|, frameW, frameH, c)
    requires forall x, y :: Covers(c, frameW, frameH, x, y) ==> c.pixels[SrcOff(c, x, y) + 3] in {0, 255}
    ensures var once := Composite(frame, frameW, frameH, c); Composite(once, frameW, frameH, c) == once
  {
    var once := Composite(frame, frameW, frameH, c);
    var twice := Composite(once, frameW, frameH, c);
    forall k | 0 <= k < |frame| ensures twice[k] == once[k] {
      if frameW > 0 && Covers(c, frameW, frameH, Col(k, frameW), Row(k, frameW)) {
        assert PixelFits(|frame|, frameW, c, Col(k, frameW), Row(k, frameW));
        var s := c.pixels[SrcOff(c, Col(k, frameW), Row(k, frameW)) + k % 4];
        SpecialAlphas(s, frame[k]);
        SpecialAlphas(s, once[k]);
      }
    }
  }

  /** Pointer images that share no frame pixel can be composited in either order. */
  lemma DisjointCommute(frame: Bytes, frameW: int, frameH: int, a: CursorFrame, b: CursorFrame)
    requires Fits(|frame|, frameW, frameH, a) && Fits(|frame|, frameW, frameH, b)
    requires forall x, y :: Covers(a, frameW, frameH, x, y) ==> !Covers(b, frameW, frameH, x, y)
    ensures Composite(Composite(frame, frameW, frameH, a), frameW, frameH, b)
            == Composite(Composite(frame, frameW, frameH, b), frameW, frameH, a)
  {
    var ab := Composite(Composite(frame, frameW, frameH, a), frameW, frameH, b);
    var ba := Composite(Composite(frame, frameW, frameH, b), frameW, frameH, a);
    forall k | 0 <= k < |frame| ensures ab[k] == ba[k] {
      if frameW > 0 {
        var x, y := Col(k, frameW), Row(k, frameW);
        assert Covers(a, frameW, frameH, x, y) ==> !Covers(b, frameW, frameH, x, y);
      }
    }
  }
}
