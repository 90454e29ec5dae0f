/** Cutting a layer into segments (tool/image_compress.cc). */
module Splitter {
  import opened Base

  /** The segments of a layer: full ones, then what is left; an empty layer has one empty segment. */
  function Chunks(content: Bytes, size: nat): (cs: seq<Bytes>)
    requires size >= 1
    ensures cs != []
  {
    if |content| <= size then [content] else [content[..size]] + Chunks(content[size..], size)
  }

  function Join(cs: seq<Bytes>): Bytes {
    if cs == [] then [] else cs[0] + Join(cs[1..])
  }

  /** Nothing is lost, repeated or reordered. */
  lemma {:induction false} ChunksJoin(content: Bytes, size: nat)
    requires size >= 1
    ensures Join(Chunks(content, size)) == content
  {
    if |content| > size {
      ChunksJoin(content[size..], size);
      assert Chunks(content, size)[1..] == Chunks(content[size..], size);
      assert content == content[..size] + content[size..];
    } else {
      assert Chunks(content, size)[1..] == [];
      assert Join([content]) == content + [];
    }
  }

  /** No segment exceeds the segment size, and only an empty layer has an empty segment. */
  lemma {:induction false} ChunkSizes(content: Bytes, size: nat)
    requires size >= 1
    ensures forall i :: 0 <= i < |Chunks(content, size)| ==> |Chunks(content, size)[i]| <= size
    ensures (exists i :: 0 <= i < |Chunks(content, size)| && Chunks(content, size)[i] == []) <==> content == []
  {
    if |content| > size {
      ChunkSizes(content[size..], size);
      var cs := Chunks(content, size);
      assert forall i :: 1 <= i < |cs| ==> cs[i] == Chunks(content[size..], size)[i - 1];
    } else {
      assert Chunks(content, size)[0] == content;
    }
  }

  /** Every segment but the last is full, and the last one is not longer. */
  lemma {:induction false} ChunksFull(content: Bytes, size: nat)
    requires size >= 1
    ensures forall i :: 0 <= i < |Chunks(content, size)| - 1 ==> |Chunks(content, size)[i]| == size
    ensures |Last(Chunks(content, size))| <= size
    ensures |content| > 0 ==> |Last(Chunks(content, size))| > 0
  {
    if |content| > size {
      ChunksFull(content[size..], size);
      var cs, rest := Chunks(content, size), Chunks(content[size..], size);
      assert cs == [content[..size]] + rest;
      assert forall i :: 1 <= i < |cs| ==> cs[i] == rest[i - 1];
    }
  }
}
