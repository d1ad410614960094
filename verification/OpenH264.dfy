/** The other producer of NAL lists, `extractNALs` of internal/encode/openh264.go: it cuts
    each layer's flat buffer by a table of lengths instead of looking for start codes. */
module OpenH264 {
  import opened Basics
  import opened AnnexB

  /** One `SLayerBSInfo`: the layer's bitstream and the length of each of its NAL units. */
  datatype Layer = Layer(bs: Bytes, lengths: seq<nat>)

  function Sum(lengths: seq<nat>): nat {
    if lengths == [] then 0 else lengths[0] + Sum(lengths[1..])
  }

  /** The table stays inside the buffer it describes. */
  predicate InBounds(layer: Layer) {
    Sum(layer.lengths) <= |layer.bs|
  }

  function CutBy(bs: Bytes, lengths: seq<nat>): (r: seq<Bytes>)
    requires Sum(lengths) <= |bs|
    decreases |lengths|
  {
    if lengths == [] then []
    else [bs[..lengths[0]]] + CutBy(bs[lengths[0]..], lengths[1..])
  }

  function TableNALs(layers: seq<Layer>): seq<Bytes>
    requires forall i :: 0 <= i < |layers| ==> InBounds(layers[i])
  {
    if layers == [] then []
    else assert InBounds(layers[0]); CutBy(layers[0].bs, layers[0].lengths) + TableNALs(layers[1..])
  }

  lemma CutStep(layer: Layer, buf: nat, j: nat)
    requires j < |layer.lengths| && buf <= |layer.bs|
    requires Sum(layer.lengths[j..]) <= |layer.bs| - buf
    ensures var nalLen := layer.lengths[j];
            && Sum(layer.lengths[j + 1..]) <= |layer.bs| - (buf + nalLen)
            && CutBy(layer.bs[buf..], layer.lengths[j..])
               == [layer.bs[buf..buf + nalLen]] + CutBy(layer.bs[buf + nalLen..], layer.lengths[j + 1..])
  {
    var nalLen := layer.lengths[j];
    assert layer.lengths[j..][0] == nalLen && layer.lengths[j..][1..] == layer.lengths[j + 1..];
    assert layer.bs[buf..][nalLen..] == layer.bs[buf + nalLen..];
    assert layer.bs[buf..][..nalLen] == layer.bs[buf..buf + nalLen];
  }

  /** The inner loop, with the cursor `buf` moving through the layer's bytes. */
  method AppendLayer(before: seq<Bytes>, layer: Layer) returns (nals: seq<Bytes>)
    requires InBounds(layer)
    ensures nals == before + CutBy(layer.bs, layer.lengths)
  {
    nals := before;
    var buf := 0;
    assert layer.bs[0..] == layer.bs && layer.lengths[0..] == layer.lengths;
    for j := 0 to |layer.lengths|
      invariant 0 <= buf <= |layer.bs|
      invariant Sum(layer.lengths[j..]) <= |layer.bs| - buf
      invariant nals + CutBy(layer.bs[buf..], layer.lengths[j..])
                == before + CutBy(layer.bs, layer.lengths)
    {
      var nalLen := layer.lengths[j];
      CutStep(layer, buf, j);
      Assoc(nals, [layer.bs[buf..buf + nalLen]], CutBy(layer.bs[buf + nalLen..], layer.lengths[j + 1..]));
      nals := nals + [layer.bs[buf..buf + nalLen]];
      buf := buf + nalLen;
    }
    Nil(nals);
  }

  method ExtractNALs(layers: seq<Layer>) returns (nals: seq<Bytes>)
    requires forall i :: 0 <= i < |layers| ==> InBounds(layers[i])
    ensures nals == TableNALs(layers)
  {
    nals := [];
    for i := 0 to |layers|
      invariant nals + TableNALs(layers[i..]) == TableNALs(layers)
    {
      assert layers[i..][0] == layers[i] && layers[i..][1..] == layers[i + 1..];
      assert InBounds(layers[i]);
      Assoc(nals, CutBy(layers[i].bs, layers[i].lengths), TableNALs(layers[i + 1..]));
      nals := AppendLayer(nals, layers[i]);
    }
    Nil(nals);
  }

  // ---------------------------------------------------------------- agreement with the splitter

  function Lengths(units: seq<Bytes>): seq<nat> {
    seq(|units|, k requires 0 <= k < |units| => |units[k]|)
  }

  /** A layer as the encoder fills it: its units back to back, and their lengths. */
  function Pack(units: seq<Bytes>): Layer {
    Layer(Flatten(units), Lengths(units))
  }

  function PackAll(groups: seq<seq<Bytes>>): (r: seq<Layer>)
    ensures |r| == |groups| && forall i :: 0 <= i < |r| ==> r[i] == Pack(groups[i])
  {
    seq(|groups|, i requires 0 <= i < |groups| => Pack(groups[i]))
  }

  /** All bytes of a frame, layer after layer. */
  function Bitstream(layers: seq<Layer>): Bytes {
    if layers == [] then [] else layers[0].bs + Bitstream(layers[1..])
  }

  lemma {:induction false} CutPacked(units: seq<Bytes>)
    ensures Sum(Lengths(units)) == |Flatten(units)|
    ensures CutBy(Flatten(units), Lengths(units)) == units
    decreases |units|
  {
    if units != [] {
      assert Lengths(units)[1..] == Lengths(units[1..]);
      CutPacked(units[1..]);
      var bs := Flatten(units);
      assert bs[..|units[0]|] == units[0] && bs[|units[0]|..] == Flatten(units[1..]);
      assert [units[0]] + units[1..] == units;
    }
  }

  /** The length table gives back the packed units however they are grouped in layers. */
  lemma {:induction false} TableUnpacks(groups: seq<seq<Bytes>>)
    ensures forall i :: 0 <= i < |groups| ==> InBounds(PackAll(groups)[i])
    ensures TableNALs(PackAll(groups)) == Flatten(groups)
    ensures Bitstream(PackAll(groups)) == Flatten(Flatten(groups))
    decreases |groups|
  {
    forall i | 0 <= i < |groups| ensures InBounds(PackAll(groups)[i]) {
      CutPacked(groups[i]);
    }
    if groups != [] {
      assert PackAll(groups)[1..] == PackAll(groups[1..]);
      TableUnpacks(groups[1..]);
      CutPacked(groups[0]);
      FlattenAppend(groups[0], Flatten(groups[1..]));
    }
  }

  /** Both encoders deliver the same list from the same bytes, for every grouping of the
      units in layers and every cutting of the bytes into reads, exactly when no payload
      hides a start code and the last one is not empty. */
  lemma ReadersAgree(payloads: seq<Bytes>, groups: seq<seq<Bytes>>, pieces: seq<Bytes>)
    requires Flatten(groups) == Units(payloads)
    requires Flatten(pieces) == Bitstream(PackAll(groups))
    ensures forall i :: 0 <= i < |groups| ==> InBounds(PackAll(groups)[i])
    ensures var fed := Feed([], pieces);
            fed.chunks + Flush(fed.rest) == TableNALs(PackAll(groups))
            <==> Clean(payloads) && (payloads == [] || payloads[|payloads| - 1] != [])
  {
    TableUnpacks(groups);
    ChunkingInvariance(pieces, pieces);
    JoinSplitRoundTrip(payloads);
  }
}
