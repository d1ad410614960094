/** Little-endian integers, as in Go's `encoding/binary`. */
module Binary {
  import opened Basics

  function Pow256(w: nat): nat {
    if w == 0 then 1 else 0x100 * Pow256(w - 1)
  }

  /** The low `w` bytes of `v`, least significant first. */
  function LittleEndian(v: nat, w: nat): (r: Bytes)
    ensures |r| == w
    decreases w
  {
    if w == 0 then [] else [v % 0x100] + LittleEndian(v / 0x100, w - 1)
  }

  function FromLittleEndian(bs: Bytes): nat {
    if bs == [] then 0 else bs[0] + 0x100 * FromLittleEndian(bs[1..])
  }

  lemma {:induction false} LittleEndianReads(v: nat, w: nat)
    requires v < Pow256(w)
    ensures FromLittleEndian(LittleEndian(v, w)) == v
    decreases w
  {
    if w > 0 {
      LittleEndianReads(v / 0x100, w - 1);
      assert LittleEndian(v, w)[1..] == LittleEndian(v / 0x100, w - 1);
    }
  }

  lemma {:induction false} LittleEndianWrites(bs: Bytes)
    ensures FromLittleEndian(bs) < Pow256(|bs|)
    ensures LittleEndian(FromLittleEndian(bs), |bs|) == bs
  {
    if bs != [] {
      LittleEndianWrites(bs[1..]);
      assert FromLittleEndian(bs) / 0x100 == FromLittleEndian(bs[1..]);
    }
  }

  lemma WidthBounds()
    ensures Pow256(2) == 0x1_0000 && Pow256(4) == 0x1_0000_0000
    ensures Pow256(8) == 0x1_0000_0000_0000_0000
  {
    assert Pow256(2) == 0x1_0000;
    assert Pow256(6) == 0x1_0000_0000_0000;
  }

  /** `s` with `piece` written over it at `off`. */
  function Patched(s: Bytes, off: nat, piece: Bytes): (r: Bytes)
    requires off + |piece| <= |s|
    ensures |r| == |s|
    ensures forall i :: 0 <= i < |s| ==> r[i] == if off <= i < off + |piece| then piece[i - off] else s[i]
  {
    s[..off] + piece + s[off + |piece|..]
  }

  /** Writing behind what has been written. */
  lemma PatchNext(done: Bytes, rest: Bytes, piece: Bytes)
    requires |piece| <= |rest|
    ensures Patched(done + rest, |done|, piece) == (done + piece) + rest[|piece|..]
  {}

  /** `binary.LittleEndian.PutUintN` on `buf[off:off+w]`. */
  method PutLittleEndian(buf: array<byte>, off: nat, w: nat, v0: nat)
    requires off + w <= buf.Length
    modifies buf
    ensures buf[..] == Patched(old(buf[..]), off, LittleEndian(v0, w))
  {
    var v := v0;
    for k := 0 to w
      invariant forall i :: 0 <= i < buf.Length && !(off <= i < off + k) ==> buf[i] == old(buf[i])
      invariant buf[off..off + k] + LittleEndian(v, w - k) == LittleEndian(v0, w)
    {
      ghost var done := buf[off..off + k];
      buf[off + k] := v % 0x100;
      assert buf[off..off + k + 1] == done + [v % 0x100];
      v := v / 0x100;
    }
    assert buf[off..off + w] == LittleEndian(v0, w);
    assert forall i :: off <= i < off + w ==> buf[i] == buf[off..off + w][i - off];
  }

  lemma {:induction false} PowPositive(w: nat)
    ensures Pow256(w) > 0
  {
    if w > 0 {
      PowPositive(w - 1);
    }
  }

  lemma DivTwice(v: nat, p: nat)
    requires p > 0
    ensures (v / 0x100) / p == v / (0x100 * p)
  {
    var q, r := (v / 0x100) / p, (v / 0x100) % p;
    assert v / 0x100 == q * p + r;
    assert v == 0x100 * (q * p + r) + v % 0x100;
    assert v == q * (0x100 * p) + (0x100 * r + v % 0x100);
    assert 0x100 * r + v % 0x100 < 0x100 * p;
    DivUnique(v, 0x100 * p, q, 0x100 * r + v % 0x100);
  }

  /** Byte `i` is the digit of weight 256 to the `i`. */
  lemma {:induction false} LittleEndianDigit(v: nat, w: nat, i: nat)
    requires i < w
    ensures Pow256(i) > 0 && LittleEndian(v, w)[i] == v / Pow256(i) % 256
    decreases i
  {
    PowPositive(i);
    if i > 0 {
      LittleEndianDigit(v / 0x100, w - 1, i - 1);
      DivTwice(v, Pow256(i - 1));
    }
  }
}
