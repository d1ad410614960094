/** The two keyframe detectors: `isIDR` of internal/server/server.go decides what is cached
    for new clients, `detectH264Keyframe` of cmd/server/client/compositor.js decides what
    the browser hands to its decoder as a key chunk. */
module Keyframe {
  import opened Basics
  import opened AnnexB

  /** `b & 0x1F`: the nal_unit_type field. */
  function NalType(b: byte): byte {
    b % 32
  }

  predicate IsIDR(nal: Bytes) {
    if |nal| < 5 then false
    else
      var nalType :=
        if nal[0] == 0 && nal[1] == 0 && nal[2] == 0 && nal[3] == 1 then NalType(nal[4])
        else if nal[0] == 0 && nal[1] == 0 && nal[2] == 1 then NalType(nal[3])
        else 0;
      nalType == 5
  }

  /** The server's test, on units as they are written: it looks at the type of the unit behind
      a start code at the very beginning, of four bytes or of three, and nowhere else. */
  lemma IdrOfUnit(header: byte, rest: Bytes)
    ensures IsIDR([0, 0, 0, 1, header] + rest) <==> header % 32 == 5
    ensures rest != [] ==> (IsIDR([0, 0, 1, header] + rest) <==> header % 32 == 5)
    ensures !IsIDR([0, 0, 1, header])
  {}

  lemma NoCodeNoIdr(nal: Bytes)
    requires !([0, 0, 0, 1] <= nal) && !([0, 0, 1] <= nal)
    ensures !IsIDR(nal)
  {
    if |nal| >= 5 {
      assert nal[..4] == [nal[0], nal[1], nal[2], nal[3]] && nal[..3] == [nal[0], nal[1], nal[2]];
    }
  }

  /** Three-byte start code at `i`. */
  predicate ShortCodeAt(s: Bytes, i: nat) {
    i + 3 <= |s| && s[i] == 0 && s[i + 1] == 0 && s[i + 2] == 1
  }

  ghost predicate NoShortCodeFrom(s: Bytes, from: nat) {
    forall i: nat :: from <= i ==> !ShortCodeAt(s, i)
  }

  /** The server's test accepts some suffix. */
  ghost predicate SeenAsKey(data: Bytes) {
    exists k :: 0 <= k <= |data| && IsIDR(data[k..])
  }

  /** The scan finds a key exactly when the server's test accepts some suffix. */
  method DetectH264Keyframe(data: Bytes) returns (key: bool)
    ensures key <==> SeenAsKey(data)
  {
    for i := 0 to if |data| < 4 then 0 else |data| - 4
      invariant forall k :: 0 <= k < i ==> !IsIDR(data[k..])
    {
      if data[i] == 0 && data[i + 1] == 0 {
        var nalStart := -1;
        if data[i + 2] == 0 && data[i + 3] == 1 {
          nalStart := i + 4;
        } else if data[i + 2] == 1 {
          nalStart := i + 3;
        }
        if nalStart >= 0 && nalStart < |data| {
          if NalType(data[nalStart]) == 5 {
            assert IsIDR(data[i..]);
            return true;
          }
        }
      }
    }
    return false;
  }

  /** Every frame the server caches as IDR is a key chunk for the browser, whatever
      precedes it in the message. */
  lemma CachedIsKey(before: Bytes, nal: Bytes)
    requires IsIDR(nal)
    ensures SeenAsKey(before + nal)
  {
    assert (before + nal)[|before|..] == nal;
  }

  /** Where the readers can differ on a chunk of the splitter: only through a second,
      three-byte start code inside the chunk. */
  lemma KeyOnChunk(chunk: Bytes)
    requires CodeAt(chunk, 0)
    ensures SeenAsKey(chunk) <==> IsIDR(chunk) || exists k :: 4 <= k <= |chunk| && IsIDR(chunk[k..])
  {
    assert chunk[0..] == chunk;
    if SeenAsKey(chunk) {
      var k :| 0 <= k <= |chunk| && IsIDR(chunk[k..]);
      if k < 4 {
        assert chunk[k..][0] == chunk[k] && chunk[k..][1] == chunk[k + 1] && chunk[k..][2] == chunk[k + 2];
        assert chunk[k..][3] == chunk[k + 3];
      }
    }
  }

  lemma ShortCodeInSuffix(s: Bytes, k: nat, j: nat)
    requires k <= |s|
    ensures ShortCodeAt(s[k..], j) <==> ShortCodeAt(s, k + j)
  {}

  /** On a chunk with no three-byte start code past its own, the readers are equal. */
  lemma ReadersEqualOnSingleUnit(chunk: Bytes)
    requires CodeAt(chunk, 0) && NoShortCodeFrom(chunk, 4)
    ensures SeenAsKey(chunk) <==> IsIDR(chunk)
  {
    KeyOnChunk(chunk);
    forall k | 4 <= k <= |chunk| ensures !IsIDR(chunk[k..]) {
      ShortCodeInSuffix(chunk, k, 0);
      ShortCodeInSuffix(chunk, k, 1);
    }
  }

  lemma SplitsWhole(chunk: Bytes)
    requires |chunk| > 4 && forall i: nat :: 4 <= i ==> !CodeAt(chunk, i)
    ensures Split(chunk) == [chunk]
  {
    FindCodeLeftmost(chunk, 4);
    assert Extract(chunk) == Cut([], chunk);
    assert [] + [chunk] == [chunk];
  }

  /** Two parameter bytes and an IDR slice behind a three-byte code. */
  const SHARED_CHUNK: Bytes := [0, 0, 0, 1, 0x67, 0x42, 0, 0, 1, 0x65, 0x88]

  /** They do differ on chunks the splitter really emits: parameter sets and an IDR slice
      separated by three-byte codes travel in one chunk that only the browser sees as key,
      so the server does not cache it. */
  lemma ReadersDiffer()
    ensures Split(SHARED_CHUNK) == [SHARED_CHUNK] && SeenAsKey(SHARED_CHUNK) && !IsIDR(SHARED_CHUNK)
  {
    SplitsWhole(SHARED_CHUNK);
    var suffix := SHARED_CHUNK[6..];
    assert suffix == [0, 0, 1, 0x65, 0x88];
    assert IsIDR(suffix);
  }
}
