/** The data that travels from the registry to the host. */
module Segments {
  import opened Base

  /** A deflated segment file: the bytes it inflates to, and its own size on disk. */
  datatype Packed = Packed(bytes: Bytes, size: nat)

  /** ContentElement (src/dpu/metadata.h): a fetched, still compressed segment. */
  datatype Element = Element(image: string, layer: string, index: nat, total: nat, data: Packed)

  /** UntarData: an inflated segment as the host hands it to the untar engine. */
  datatype Piece = Piece(image: string, layer: string, index: nat, total: nat, bytes: Bytes)

  function Unpack(e: Element): Piece {
    Piece(e.image, e.layer, e.index, e.total, e.data.bytes)
  }

  function Unpacks(es: seq<Element>): seq<Piece> {
    seq(|es|, i requires 0 <= i < |es| => Unpack(es[i]))
  }

  /** The registry: every layer as the segment files that the image tool wrote for it. */
  type Registry = map<string, seq<Packed>>

  /** Every layer has a segment, and no segment file is empty. */
  predicate WellStocked(reg: Registry) {
    forall l :: l in reg ==> reg[l] != [] && forall i :: 0 <= i < |reg[l]| ==> reg[l][i].size >= 1
  }

  /** Segment `index` of `layer` as it should reach the untar engine. */
  function PieceAt(reg: Registry, image: string, layer: string, index: nat): Piece {
    if layer in reg && index < |reg[layer]| then
      Piece(image, layer, index, |reg[layer]|, reg[layer][index].bytes)
    else Piece(image, layer, index, 0, [])
  }

  /** All of `layer`, in order. */
  function Full(reg: Registry, image: string, layer: string): (ps: seq<Piece>)
    requires layer in reg
  {
    seq(|reg[layer]|, i requires 0 <= i => PieceAt(reg, image, layer, i))
  }

  /** The pieces of `layer` among `ps`, in order. */
  function Of(layer: string, ps: seq<Piece>): seq<Piece> {
    if ps == [] then []
    else (if ps[0].layer == layer then [ps[0]] else []) + Of(layer, ps[1..])
  }

  lemma {:induction false} OfCat(layer: string, a: seq<Piece>, b: seq<Piece>)
    ensures Of(layer, a + b) == Of(layer, a) + Of(layer, b)
  {
    if a == [] {
      assert a + b == b;
    } else {
      assert (a + b)[1..] == a[1..] + b;
      OfCat(layer, a[1..], b);
    }
  }

  /** Of a sequence that belongs to one layer, that layer keeps everything and the others nothing. */
  lemma {:induction false} OfOne(layer: string, ps: seq<Piece>, owner: string)
    requires forall p :: p in ps ==> p.layer == owner
    ensures Of(layer, ps) == if layer == owner then ps else []
  {
    if ps != [] {
      assert ps[0] in ps;
      OfOne(layer, ps[1..], owner);
    }
  }

  lemma OfPrefix(layer: string, a: seq<Piece>, b: seq<Piece>)
    requires a <= b
    ensures Of(layer, a) <= Of(layer, b)
  {
    assert b == a + b[|a|..];
    OfCat(layer, a, b[|a|..]);
  }
}
