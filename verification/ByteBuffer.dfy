/** The growable byte buffer of the TCP layer (src/network/tcp/Buffer.h and Buffer.cc): a vector with two
    indexes, whose readable middle part behaves like a queue of bytes. */
module ByteBuffer {
  import opened Base
  import opened Endian

  const CHEAP_PREPEND: nat := 8
  const INITIAL_SIZE: nat := 1024
  const EXTRA_SIZE: nat := 65536

  /** std::copy into an array. */
  method CopyIn(a: array<byte>, at: nat, data: Bytes)
    requires at + |data| <= a.Length
    modifies a
    ensures a[..] == old(a[..at]) + data + old(a[at + |data|..])
  {
    ghost var was := a[..];
    var i := 0;
    while i < |data|
      invariant 0 <= i <= |data|
      invariant a[at..at + i] == data[..i]
      invariant a[..at] == was[..at] && a[at + i..] == was[at + i..]
    {
      a[at + i] := data[i];
      i := i + 1;
    }
    assert a[..] == a[..at] + a[at..at + i] + a[at + i..];
  }

  lemma InFront(x: Bytes, data: Bytes, y: Bytes, n: nat)
    requires n <= |y|
    ensures (x + data + y)[|x|..|x| + |data| + n] == data + y[..n]
  {
  }

  class Buffer {
    var buf: array<byte>
    var reader: nat
    var writer: nat

    ghost predicate Valid()
      reads this
    {
      reader <= writer <= buf.Length && CHEAP_PREPEND <= buf.Length
    }

    /** The bytes a reader of this buffer sees. */
    ghost function Contents(): (s: Bytes)
      requires Valid()
      reads this, buf
      ensures |s| == Readable()
    {
      buf[reader..writer]
    }

    function Readable(): nat
      requires Valid()
      reads this
    {
      writer - reader
    }

    function Writable(): nat
      requires Valid()
      reads this
    {
      buf.Length - writer
    }

    function Prependable(): nat
      requires Valid()
      reads this
    {
      reader
    }

    constructor (initialSize: nat)
      ensures Valid() && fresh(buf) && Contents() == []
      ensures Writable() == initialSize && Prependable() == CHEAP_PREPEND
    {
      buf := new byte[CHEAP_PREPEND + initialSize](_ => 0);
      reader, writer := CHEAP_PREPEND, CHEAP_PREPEND;
    }

    method Peek(len: nat) returns (s: Bytes)
      requires Valid() && len <= Readable()
      ensures s == Contents()[..len]
    {
      s := buf[reader..reader + len];
    }

    method RetrieveAll()
      requires Valid()
      modifies this`reader, this`writer
      ensures Valid() && Contents() == [] && Prependable() == CHEAP_PREPEND
    {
      reader, writer := CHEAP_PREPEND, CHEAP_PREPEND;
    }

    method Retrieve(len: nat)
      requires Valid() && len <= Readable()
      modifies this`reader, this`writer
      ensures Valid() && Contents() == old(Contents())[len..]
      ensures Readable() == 0 ==> Prependable() == CHEAP_PREPEND
    {
      if len < Readable() {
        reader := reader + len;
      } else {
        RetrieveAll();
      }
    }

    method RetrieveAsString(len: nat) returns (s: Bytes)
      requires Valid() && len <= Readable()
      modifies this`reader, this`writer
      ensures Valid() && old(Contents()) == s + Contents() && |s| == len
    {
      s := Peek(len);
      Retrieve(len);
    }

    /** buffer_.resize: a longer vector with the same bytes at the front. */
    method Resize(n: nat)
      requires Valid() && n >= buf.Length
      modifies this`buf
      ensures Valid() && fresh(buf) && buf.Length == n && Contents() == old(Contents())
    {
      var bigger := new byte[n](_ => 0);
      CopyIn(bigger, 0, buf[..]);
      assert bigger[..][reader..writer] == buf[reader..writer];
      buf := bigger;
    }

    /** The overlapping move of the readable bytes to the front, lowest first. */
    method MoveDown()
      requires Valid() && CHEAP_PREPEND < reader
      modifies this, buf
      ensures Valid() && buf == old(buf) && Contents() == old(Contents()) && reader == CHEAP_PREPEND
    {
      ghost var was := buf[..];
      var readable := writer - reader;
      var i := 0;
      while i < readable
        invariant 0 <= i <= readable
        invariant buf == old(buf) && reader == old(reader) && writer == old(writer)
        invariant buf[CHEAP_PREPEND..CHEAP_PREPEND + i] == was[reader..reader + i]
        invariant buf[reader + i..writer] == was[reader + i..writer]
      {
        assert buf[reader + i] == buf[reader + i..writer][0];
        buf[CHEAP_PREPEND + i] := buf[reader + i];
        i := i + 1;
      }
      reader := CHEAP_PREPEND;
      writer := reader + readable;
    }

    /** Called when there is not enough room behind the readable bytes.  The assertion of the moving
        branch is proved here: there the readable bytes never start at or before the reserve. */
    method MakeSpace(len: nat)
      requires Valid() && Writable() < len
      modifies this, buf
      ensures Valid() && Contents() == old(Contents()) && Writable() >= len
      ensures fresh(buf) || buf == old(buf)
      ensures buf == old(buf) ==> Prependable() == CHEAP_PREPEND < old(Prependable())
      ensures buf == old(buf) <==> old(Writable()) + old(Prependable()) >= len + CHEAP_PREPEND
      ensures buf != old(buf) ==> Writable() == len
      ensures old(Prependable()) <= CHEAP_PREPEND ==> Prependable() == old(Prependable())
    {
      if Writable() + Prependable() < len + CHEAP_PREPEND {
        Resize(writer + len);
      } else {
        assert CHEAP_PREPEND < reader;
        MoveDown();
      }
    }

    method EnsureWritableBytes(len: nat)
      requires Valid()
      modifies this, buf
      ensures Valid() && Contents() == old(Contents()) && Writable() >= len
      ensures fresh(buf) || buf == old(buf)
      ensures old(Prependable()) <= CHEAP_PREPEND ==> Prependable() == old(Prependable())
      ensures old(Writable()) >= len ==> buf == old(buf) && reader == old(reader) && writer == old(writer)
    {
      if Writable() < len {
        MakeSpace(len);
      }
    }

    method Append(data: Bytes)
      requires Valid()
      modifies this, buf
      ensures Valid() && Contents() == old(Contents()) + data
      ensures fresh(buf) || buf == old(buf)
      ensures old(Writable()) >= |data| ==>
        buf == old(buf) && reader == old(reader) && Writable() == old(Writable()) - |data|
    {
      EnsureWritableBytes(|data|);
      ghost var s := Contents();
      ghost var was := buf[..];
      CopyIn(buf, writer, data);
      writer := writer + |data|;
      assert Contents() == buf[..][reader..writer];
      assert was[reader..writer - |data|] == s;
    }

    /** Gives back the last bytes written. */
    method Unwrite(len: nat)
      requires Valid() && len <= Readable()
      modifies this`writer
      ensures Valid() && Contents() == old(Contents())[..old(Readable()) - len]
    {
      ghost var s := Contents();
      writer := writer - len;
      assert Contents() == s[..|s| - len];
    }

    method Prepend(data: Bytes)
      requires Valid() && |data| <= Prependable()
      modifies this`reader, buf
      ensures Valid() && Contents() == data + old(Contents()) && buf == old(buf)
      ensures Prependable() == old(Prependable()) - |data|
    {
      ghost var s := Contents();
      ghost var was := buf[..];
      reader := reader - |data|;
      CopyIn(buf, reader, data);
      ghost var n := |s|;
      ghost var x, y := was[..reader], was[reader + |data|..];
      assert y[..n] == s;
      assert Contents() == buf[..][reader..writer] == (x + data + y)[|x|..|x| + |data| + n];
      InFront(x, data, y, n);
    }

    /** Moves the contents to a buffer that has exactly the room asked for, or the default. */
    method Shrink(reserve: nat)
      requires Valid()
      modifies this
      ensures Valid() && fresh(buf) && Contents() == old(Contents())
      ensures Writable() >= reserve && Prependable() == CHEAP_PREPEND
    {
      var other := new Buffer(INITIAL_SIZE);
      other.EnsureWritableBytes(Readable() + reserve);
      assert other.Contents() == [];
      var data := Peek(Readable());
      other.Append(data);
      buf, reader, writer := other.buf, other.reader, other.writer;
    }

    /** How much one readFd offers to take: the room in the vector, and the spare buffer if that is small. */
    function ReadLimit(): nat
      requires Valid()
      reads this
    {
      Writable() + if Writable() < EXTRA_SIZE then EXTRA_SIZE else 0
    }

    /** readv has put `got` into the vector's free room and then into the spare buffer; None is an error.
        However the bytes are split between the two, the effect is one append. */
    method ReadFd(got: Option<Bytes>) returns (n: int)
      requires Valid() && (got.Some? ==> |got.value| <= ReadLimit())
      modifies this, buf
      ensures Valid() && (fresh(buf) || buf == old(buf))
      ensures got.None? ==> n < 0 && Contents() == old(Contents())
      ensures got.Some? ==> n == |got.value| && Contents() == old(Contents()) + got.value
    {
      if got.None? {
        return -1;
      }
      var bytes := got.value;
      n := |bytes|;
      var writable := Writable();
      if n <= writable {
        FillFree(bytes);
        writer := writer + n;
      } else {
        FillFree(bytes[..writable]);
        var extra := bytes[writable..];
        writer := buf.Length;
        assert Contents() == old(Contents()) + bytes[..writable];
        Append(extra);
        assert bytes == bytes[..writable] + extra;
      }
    }

    /** The kernel's write into the room behind the readable bytes. */
    method FillFree(data: Bytes)
      requires Valid() && |data| <= Writable()
      modifies buf
      ensures Valid() && Contents() == old(Contents()) && buf[reader..writer + |data|] == old(Contents()) + data
    {
      ghost var s := Contents();
      ghost var was := buf[..];
      CopyIn(buf, writer, data);
      assert was[reader..writer] == s;
      assert buf[reader..writer + |data|] == buf[..][reader..writer + |data|];
    }

    method AppendInt(x: int, w: nat)
      requires Valid() && Fits(x, w)
      modifies this, buf
      ensures Valid() && Contents() == old(Contents()) + EncodeInt(x, w)
      ensures fresh(buf) || buf == old(buf)
    {
      Append(EncodeInt(x, w));
    }

    method PrependInt(x: int, w: nat)
      requires Valid() && Fits(x, w) && w <= Prependable()
      modifies this`reader, buf
      ensures Valid() && Contents() == EncodeInt(x, w) + old(Contents()) && buf == old(buf)
    {
      Prepend(EncodeInt(x, w));
    }

    /** The integer whose encoding is at the front. */
    method PeekInt(w: nat) returns (x: int)
      requires Valid() && 0 < w <= Readable()
      ensures Fits(x, w) && EncodeInt(x, w) == Contents()[..w]
    {
      var b := Peek(w);
      BytesRoundTrip(b);
      x := DecodeInt(b);
    }

    method ReadInt(w: nat) returns (x: int)
      requires Valid() && 0 < w <= Readable()
      modifies this`reader, this`writer
      ensures Valid() && Fits(x, w) && old(Contents()) == EncodeInt(x, w) + Contents()
    {
      x := PeekInt(w);
      Retrieve(w);
    }
  }
}
