/** The tool that cuts every layer of an image into segments and compresses them one after the other
    (tool/image_compress.cc).  Each completion of the engine writes one segment file and starts the next. */
module ImageCompressor {
  import opened Base
  import opened Splitter

  datatype Entry = Entry(name: string, regular: bool, content: Bytes)

  predicate DistinctNames(es: seq<Entry>) {
    forall i, j :: 0 <= i < j < |es| ==> es[i].name != es[j].name
  }

  /** The segments that come after the first `head` bytes. */
  function Rest(content: Bytes, head: nat, size: nat): seq<Bytes>
    requires size >= 1 && head <= |content|
  {
    if head == |content| then [] else Chunks(content[head..], size)
  }

  function Cut(content: Bytes, head: nat, size: nat): (end: nat)
    requires head <= |content|
    ensures head <= end <= |content|
  {
    if |content| - head <= size then |content| else head + size
  }

  /** The next segment ends where the buffer is full or the file ends. */
  lemma CutNext(content: Bytes, head: nat, size: nat)
    requires size >= 1 && head <= |content| && (head < |content| || head == 0)
    ensures var end := Cut(content, head, size);
      Chunks(content[head..], size) == [content[head..end]] + Rest(content, end, size)
  {
    var x := content[head..];
    if |x| > size {
      assert x[..size] == content[head..head + size];
      assert x[size..] == content[head + size..];
    } else {
      assert x == content[head..|content|];
    }
  }

  /** How many segments the files make. */
  function Total(es: seq<Entry>, size: nat): nat
    requires size >= 1
  {
    if es == [] then 0 else (if es[0].regular then |Chunks(es[0].content, size)| else 0) + Total(es[1..], size)
  }

  /** The output folder holds exactly the segments and counts of the regular files of `es`. */
  ghost predicate Holds(es: seq<Entry>, size: nat, out: map<string, seq<Bytes>>, count: map<string, nat>)
    requires size >= 1
  {
    && (forall i :: 0 <= i < |es| && es[i].regular ==>
          && es[i].name in out && out[es[i].name] == Chunks(es[i].content, size)
          && es[i].name in count && count[es[i].name] == |Chunks(es[i].content, size)|)
    && (forall n :: n in out ==> exists i :: 0 <= i < |es| && es[i].regular && es[i].name == n)
    && (forall n :: n in count ==> n in out)
  }

  lemma HoldsSkip(es: seq<Entry>, i: nat, size: nat, out: map<string, seq<Bytes>>, count: map<string, nat>)
    requires size >= 1 && i < |es| && !es[i].regular && Holds(es[..i], size, out, count)
    ensures Holds(es[..i + 1], size, out, count)
  {
    assert es[..i + 1] == es[..i] + [es[i]];
    assert forall j :: 0 <= j < i ==> es[..i][j] == es[..i + 1][j];
  }

  lemma HoldsMore(es: seq<Entry>, i: nat, size: nat, out: map<string, seq<Bytes>>, count: map<string, nat>)
    requires size >= 1 && i < |es| && es[i].regular && DistinctNames(es) && Holds(es[..i], size, out, count)
    ensures var cs := Chunks(es[i].content, size);
      Holds(es[..i + 1], size, out[es[i].name := cs], count[es[i].name := |cs|])
  {
    assert es[..i + 1] == es[..i] + [es[i]];
    assert forall j :: 0 <= j < i ==> es[..i][j] == es[..i + 1][j];
    assert es[..i + 1][i] == es[i];
  }

  class ImageCompress {
    const input: seq<Entry>        // the input folder
    const size: nat                // segment_size_
    var at: nat                    // input_it_
    var head: nat
    var idx: nat
    var job: Bytes                 // the segment in the engine
    var pieces: seq<Bytes>         // segment files of the current layer: 0.tar.gz, 1.tar.gz, ..
    var out: map<string, seq<Bytes>>
    var count: map<string, nat>    // total_segment.txt

    predicate Done()
      reads this
    {
      at >= |input|
    }

    /** The segments of the current layer: written, being compressed, to come. */
    ghost predicate Cutting()
      reads this
      requires size >= 1
    {
      at < |input| ==>
        && input[at].regular && head <= |input[at].content|
        && Chunks(input[at].content, size) == pieces + [job] + Rest(input[at].content, head, size)
        && idx == |pieces| + 1
    }

    ghost predicate Valid()
      reads this
    {
      && size >= 1 && DistinctNames(input) && at <= |input|
      && Holds(input[..at], size, out, count)
      && Cutting()
    }

    /** Completions still to come. */
    ghost function Left(): nat
      requires Valid()
      reads this
    {
      if Done() then 0
      else 1 + |Rest(input[at].content, head, size)| + Total(input[at + 1..], size)
    }

    constructor (input: seq<Entry>, size: nat)
      requires size >= 1 && DistinctNames(input)
      ensures Valid() && this.input == input && this.size == size && Left() == Total(input, size)
    {
      this.input, this.size := input, size;
      at, head, idx, job, pieces, out, count := 0, 0, 0, [], [], map[], map[];
      new;
      assert input[0..] == input;
      NextFile();
    }

    /** Skips what is not a regular file. */
    method SkipOthers()
      requires size >= 1 && at <= |input| && Holds(input[..at], size, out, count)
      modifies this`at
      ensures old(at) <= at <= |input| && (at < |input| ==> input[at].regular)
      ensures Holds(input[..at], size, out, count) && Total(input[at..], size) == Total(input[old(at)..], size)
    {
      hide Holds;
      while at < |input| && !input[at].regular
        invariant old(at) <= at <= |input| && Holds(input[..at], size, out, count)
        invariant Total(input[at..], size) == Total(input[old(at)..], size)
      {
        assert input[at..][1..] == input[at + 1..];
        HoldsSkip(input, at, size, out, count);
        at := at + 1;
      }
    }

    /** Goes to the next regular file, if any, and starts on its first segment. */
    method NextFile()
      requires size >= 1 && DistinctNames(input) && at <= |input| && Holds(input[..at], size, out, count)
      modifies this
      ensures Valid() && out == old(out) && count == old(count) && Left() == Total(input[old(at)..], size)
    {
      hide Holds, Chunks;
      SkipOthers();
      if at < |input| {
        head, idx, pieces := 0, 0, [];
        assert input[at].content[0..] == input[at].content;
        assert input[at..][1..] == input[at + 1..];
        NextSegment();
      }
    }

    /** Reads the next segment into the engine's buffer and starts the job. */
    method NextSegment()
      requires size >= 1 && at < |input| && input[at].regular && head <= |input[at].content|
      requires head < |input[at].content| || head == 0
      requires Chunks(input[at].content, size) == pieces + Chunks(input[at].content[head..], size)
      requires idx == |pieces|
      modifies this`job, this`head, this`idx
      ensures Cutting()
      ensures 1 + |Rest(input[at].content, head, size)| == |Chunks(input[at].content[old(head)..], size)|
    {
      var content := input[at].content;
      CutNext(content, head, size);
      var end := Cut(content, head, size);
      var next := [content[head..end]];
      assert pieces + (next + Rest(content, end, size)) == pieces + next + Rest(content, end, size);
      job := content[head..end];
      head := end;
      idx := idx + 1;
    }

    /** Records the number of segments and goes on to the next file. */
    method FinishFile()
      requires size >= 1 && DistinctNames(input) && at < |input| && input[at].regular
      requires Holds(input[..at], size, out, count)
      requires pieces == Chunks(input[at].content, size) && idx == |pieces|
      modifies this
      ensures Valid() && Left() == Total(input[old(at) + 1..], size)
    {
      HoldsMore(input, at, size, out, count);
      hide Holds, Chunks;
      out := out[input[at].name := pieces];
      count := count[input[at].name := idx];
      at := at + 1;
      NextFile();
    }

    /** The engine has compressed `job`.  Every completion accounts for one segment; when none is left the
        folder holds every layer's segments, in order and complete, and their number. */
    method OnTaskSuccess()
      requires Valid() && !Done()
      modifies this
      ensures Valid() && Left() == old(Left()) - 1
      ensures Done() ==> Holds(input, size, out, count)
    {
      hide Holds, Chunks;
      ghost var was := pieces;
      var content := input[at].content;
      assert Chunks(content, size) == was + [job] + Rest(content, head, size);
      pieces := pieces + [job];
      if head >= |content| {
        assert pieces + [] == pieces;
        FinishFile();
      } else {
        NextSegment();
      }
      assert Done() ==> input[..at] == input;
    }
  }
}
