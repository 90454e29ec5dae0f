/** Message frames (src/utils/MsgFrame.h).  Over TCP a message follows its length in network order, and the
    stream may be cut anywhere; over RDMA a message type and a length in host order precede it, and a
    segment may follow it.  Messages are the bytes that protobuf makes of them. */
module Framing {
  import opened Base
  import opened Endian
  import opened ByteBuffer

  const HEADER: nat := 4
  const INT_MAX: int := 0x7FFF_FFFF

  /** A 32-bit result, wrapped around. */
  function Int32(x: int): (r: int)
    ensures -0x8000_0000 <= r <= INT_MAX
  {
    (x + 0x8000_0000) % 0x1_0000_0000 - 0x8000_0000
  }

  /** An int converted to size_t. */
  function SizeT(x: int): int {
    if x < 0 then x + 0x1_0000_0000_0000_0000 else x
  }

  lemma PowersOf256()
    ensures Pow256(4) == 0x1_0000_0000
  {
    assert Pow256(1) == 256 && Pow256(2) == 0x1_0000 && Pow256(3) == 0x100_0000;
  }

  // ---------------------------------------------------------------- TCP

  /** What sendTcpPbMsg sends: the low 32 bits of the length, then the message. */
  function Frame(m: Bytes): Bytes {
    Big(|m| % 0x1_0000_0000, HEADER) + m
  }

  datatype Received = Wait | Got(m: Bytes, rest: Bytes)

  /** receiveTcpPbMsg on the contents of the buffer.  The sum of header and length is an int, compared as
      size_t; a negative length that passes the comparison fails the assertion of retrieve(). */
  function Receive(buf: Bytes): Outcome<Received> {
    if |buf| < HEADER then Ok(Wait)
    else
      var len := DecodeInt(buf[..HEADER]);
      if |buf| < SizeT(Int32(HEADER + len)) then Ok(Wait)
      else if len < 0 || |buf| < HEADER + len then Crash
      else Ok(Got(buf[HEADER..HEADER + len], buf[HEADER + len..]))
  }

  /** The same on the buffer itself. */
  method ReceiveTcpPbMsg(buffer: Buffer) returns (m: Option<Bytes>)
    requires buffer.Valid() && Receive(buffer.Contents()).Ok?
    modifies buffer`reader, buffer`writer
    ensures buffer.Valid()
    ensures Receive(old(buffer.Contents())) ==
      Ok(if m.None? then Wait else Got(m.value, buffer.Contents()))
    ensures m.None? ==> buffer.Contents() == old(buffer.Contents())
  {
    ghost var was := buffer.Contents();
    if buffer.Readable() < HEADER {
      return None;
    }
    var len := buffer.PeekInt(HEADER);
    IntRoundTrip(len, HEADER);
    if buffer.Readable() < SizeT(Int32(HEADER + len)) {
      return None;
    }
    assert len == DecodeInt(was[..HEADER]);
    hide DecodeInt, EncodeInt, Int32, SizeT;
    buffer.Retrieve(HEADER);
    var b := buffer.RetrieveAsString(len);
    assert was[HEADER..] == b + buffer.Contents();
    assert was[HEADER..HEADER + len] == b && was[HEADER + len..] == buffer.Contents();
    m := Some(b);
  }

  /** The largest message whose header and length do not overflow an int. */
  predicate Sendable(m: Bytes) {
    HEADER + |m| <= INT_MAX
  }

  predicate AllSendable(ms: seq<Bytes>) {
    forall m :: m in ms ==> Sendable(m)
  }

  lemma HeaderOf(m: Bytes, rest: Bytes, k: nat)
    requires |m| <= INT_MAX && HEADER <= k <= |Frame(m) + rest|
    ensures DecodeInt((Frame(m) + rest)[..k][..HEADER]) == |m|
  {
    PowersOf256();
    assert (Frame(m) + rest)[..k][..HEADER] == Big(|m|, HEADER) == EncodeInt(|m|, HEADER);
    IntRoundTrip(|m|, HEADER);
  }

  /** On any part of a stream that begins with a frame, the frame is received exactly when it is all there. */
  lemma ReceiveFrame(m: Bytes, rest: Bytes, k: nat)
    requires Sendable(m) && k <= |Frame(m) + rest|
    ensures Receive((Frame(m) + rest)[..k]) ==
      Ok(if k < HEADER + |m| then Wait else Got(m, (Frame(m) + rest)[..k][HEADER + |m|..]))
  {
    if k >= HEADER {
      HeaderOf(m, rest, k);
      var buf := (Frame(m) + rest)[..k];
      if k >= HEADER + |m| {
        assert buf[HEADER..HEADER + |m|] == m;
      }
    }
  }

  /** A complete frame is received if and only if its size fits an int (a buffer that holds it being
      shorter than 2^63 bytes, as any is). */
  lemma ReceivedIffSendable(m: Bytes)
    requires |m| <= INT_MAX
    ensures Receive(Frame(m)) == Ok(Got(m, [])) <==> Sendable(m)
  {
    assert Frame(m) + [] == Frame(m) && Frame(m)[..|Frame(m)|] == Frame(m);
    if Sendable(m) {
      ReceiveFrame(m, [], |Frame(m)|);
    } else {
      HeaderOf(m, [], |Frame(m)|);
    }
  }

  function Encode(ms: seq<Bytes>): Bytes {
    if ms == [] then [] else Frame(ms[0]) + Encode(ms[1..])
  }

  function Flat(chunks: seq<Bytes>): Bytes {
    if chunks == [] then [] else Flat(ButLast(chunks)) + Last(chunks)
  }

  /** A message callback: each call takes at most one message out of the buffer. */
  datatype Reader = Reader(buf: Bytes, got: seq<Bytes>)

  function OnMessage(r: Reader, chunk: Bytes): Outcome<Reader> {
    var t :- Receive(r.buf + chunk);
    match t
    case Wait => Ok(Reader(r.buf + chunk, r.got))
    case Got(m, rest) => Ok(Reader(rest, r.got + [m]))
  }

  function Read(chunks: seq<Bytes>): Outcome<Reader> {
    if chunks == [] then Ok(Reader([], []))
    else
      var r :- Read(ButLast(chunks));
      OnMessage(r, Last(chunks))
  }

  /** The reader's buffer, followed by what is still to come, encodes the messages not yet read. */
  ghost predicate InStep(r: Reader, ms: seq<Bytes>, coming: Bytes) {
    r.got <= ms && r.buf + coming == Encode(ms[|r.got|..])
  }

  lemma EncodeSplit(ms: seq<Bytes>, n: nat)
    requires n < |ms|
    ensures Encode(ms[n..]) == Frame(ms[n]) + Encode(ms[n + 1..])
  {
    assert ms[n..][1..] == ms[n + 1..];
  }

  lemma ReceiveNothing()
    ensures Receive([]) == Ok(Wait)
  {
  }

  /** One callback on any next chunk. */
  lemma OnMessageInStep(r: Reader, ms: seq<Bytes>, chunk: Bytes, coming: Bytes)
    requires AllSendable(ms) && InStep(r, ms, chunk + coming)
    ensures OnMessage(r, chunk).Ok? && InStep(OnMessage(r, chunk).value, ms, coming)
  {
    hide Receive, Frame;
    var buf, n := r.buf + chunk, |r.got|;
    assert buf + coming == Encode(ms[n..]) by {
      assert r.buf + (chunk + coming) == buf + coming;
    }
    if n == |ms| {
      assert |buf + coming| == 0;
      assert buf == [];
      ReceiveNothing();
    } else {
      EncodeSplit(ms, n);
      var m, later := ms[n], Encode(ms[n + 1..]);
      assert buf == (Frame(m) + later)[..|buf|];
      ReceiveFrame(m, later, |buf|);
      FrameLength(m);
      if |buf| >= HEADER + |m| {
        assert Frame(m) + later == buf + coming;
        assert later == buf[HEADER + |m|..] + coming by {
          assert (Frame(m) + later)[HEADER + |m|..] == later;
        }
      }
    }
  }

  /** For every way to cut the stream, the messages read are a prefix of those sent, and the rest is still
      encoded by the buffer and what has not arrived. */
  lemma {:induction false} ReadIsPrefix(ms: seq<Bytes>, chunks: seq<Bytes>, coming: Bytes)
    requires AllSendable(ms) && Flat(chunks) + coming == Encode(ms)
    ensures Read(chunks).Ok? && InStep(Read(chunks).value, ms, coming)
  {
    if chunks == [] {
      assert coming == Encode(ms) && ms[0..] == ms;
    } else {
      assert Flat(ButLast(chunks)) + (Last(chunks) + coming) == Encode(ms);
      ReadIsPrefix(ms, ButLast(chunks), Last(chunks) + coming);
      OnMessageInStep(Read(ButLast(chunks)).value, ms, Last(chunks), coming);
    }
  }

  // ---------------------------------------------------------------- how many messages are read

  /** How many whole frames the first k bytes of the stream hold. */
  function Whole(ms: seq<Bytes>, k: nat): (n: nat)
    ensures n <= |ms|
  {
    if ms == [] || k < HEADER + |ms[0]| then 0 else 1 + Whole(ms[1..], k - (HEADER + |ms[0]|))
  }

  function Min(a: int, b: int): int {
    if a <= b then a else b
  }

  lemma FrameLength(m: Bytes)
    ensures |Frame(m)| == HEADER + |m|
  {
  }

  lemma {:induction false} WholeMonotone(ms: seq<Bytes>, j: nat, k: nat)
    requires j <= k
    ensures Whole(ms, j) <= Whole(ms, k)
  {
    if ms != [] && j >= HEADER + |ms[0]| {
      WholeMonotone(ms[1..], j - (HEADER + |ms[0]|), k - (HEADER + |ms[0]|));
    }
  }

  /** The first n frames and k bytes more. */
  lemma {:induction false} WholeBeyond(ms: seq<Bytes>, n: nat, k: nat)
    requires n <= |ms|
    ensures Whole(ms, |Encode(ms[..n])| + k) == n + Whole(ms[n..], k)
    decreases n
  {
    if n == 0 {
      assert ms[..0] == [] && ms[0..] == ms;
    } else {
      assert ms[..n][1..] == ms[1..][..n - 1] && ms[n..] == ms[1..][n - 1..];
      WholeBeyond(ms[1..], n - 1, k);
      FrameLength(ms[0]);
      hide Frame;
    }
  }

  lemma {:induction false} EncodeCat(a: seq<Bytes>, b: seq<Bytes>)
    ensures Encode(a + b) == Encode(a) + Encode(b)
  {
    if a == [] {
      assert a + b == b;
    } else {
      assert (a + b)[1..] == a[1..] + b;
      EncodeCat(a[1..], b);
    }
  }

  /** A callback takes one message if a whole one is there. */
  lemma OneAtATime(r: Reader, ms: seq<Bytes>, chunk: Bytes, coming: Bytes)
    requires AllSendable(ms) && InStep(r, ms, chunk + coming) && OnMessage(r, chunk).Ok?
    ensures |OnMessage(r, chunk).value.got| == |r.got| + Min(1, Whole(ms[|r.got|..], |r.buf + chunk|))
  {
    hide Frame, Receive;
    var buf, n := r.buf + chunk, |r.got|;
    assert r.buf + (chunk + coming) == buf + coming;
    if n == |ms| {
      assert ms[n..] == [];
      assert |buf + coming| == 0;
      assert buf == [];
      ReceiveNothing();
    } else {
      EncodeSplit(ms, n);
      var m, later := ms[n], Encode(ms[n + 1..]);
      assert buf == (Frame(m) + later)[..|buf|];
      ReceiveFrame(m, later, |buf|);
    }
  }

  /** The bytes read and buffered are the bytes that arrived. */
  lemma ReadLength(r: Reader, ms: seq<Bytes>, arrived: Bytes, coming: Bytes)
    requires InStep(r, ms, coming) && arrived + coming == Encode(ms)
    ensures |arrived| == |Encode(ms[..|r.got|])| + |r.buf|
  {
    var n := |r.got|;
    assert ms == ms[..n] + ms[n..];
    EncodeCat(ms[..n], ms[n..]);
    assert |r.buf + coming| == |Encode(ms[n..])|;
    assert |arrived + coming| == |Encode(ms)|;
  }

  /** Each callback adds a message as long as one has arrived whole. */
  lemma ReadStep(ms: seq<Bytes>, chunks: seq<Bytes>, coming: Bytes)
    requires AllSendable(ms) && chunks != [] && Flat(chunks) + coming == Encode(ms)
    ensures Read(ButLast(chunks)).Ok? && Read(chunks).Ok?
    ensures |Read(chunks).value.got| == Min(Whole(ms, |Flat(chunks)|), |Read(ButLast(chunks)).value.got| + 1)
  {
    hide InStep, Encode, Frame, AllSendable, Receive, OnMessage, Whole;
    assert Flat(ButLast(chunks)) + (Last(chunks) + coming) == Encode(ms);
    ReadIsPrefix(ms, ButLast(chunks), Last(chunks) + coming);
    ReadIsPrefix(ms, chunks, coming);
    var r := Read(ButLast(chunks)).value;
    OneAtATime(r, ms, Last(chunks), coming);
    ReadLength(r, ms, Flat(ButLast(chunks)), Last(chunks) + coming);
    WholeBeyond(ms, |r.got|, |r.buf + Last(chunks)|);
  }

  /** Enough callbacks are left, counting from each moment, for the messages not arrived before it. */
  ghost predicate Paced(ms: seq<Bytes>, chunks: seq<Bytes>, n: int) {
    forall c :: 0 <= c <= |chunks| ==> n <= Whole(ms, |Flat(chunks[..c])|) + |chunks| - c
  }

  lemma {:induction false} ReadAtLeastIff(ms: seq<Bytes>, chunks: seq<Bytes>, coming: Bytes, n: int)
    requires AllSendable(ms) && Flat(chunks) + coming == Encode(ms)
    ensures Read(chunks).Ok? && (n <= |Read(chunks).value.got| <==> Paced(ms, chunks, n))
  {
    if chunks == [] {
      assert Flat(chunks[..0]) == [];
      NoWhole(ms);
    } else {
      var init := ButLast(chunks);
      ReadStep(ms, chunks, coming);
      assert Flat(init) + (Last(chunks) + coming) == Encode(ms);
      hide AllSendable, Encode, Read, Whole;
      ReadAtLeastIff(ms, init, Last(chunks) + coming, n - 1);
      PacedStep(ms, chunks, n);
      hide Paced, Flat;
    }
  }

  lemma NoWhole(ms: seq<Bytes>)
    ensures Whole(ms, 0) == 0
  {
  }

  lemma PacedStep(ms: seq<Bytes>, chunks: seq<Bytes>, n: int)
    requires chunks != []
    ensures Paced(ms, chunks, n) <==> Paced(ms, ButLast(chunks), n - 1) && n <= Whole(ms, |Flat(chunks)|)
  {
    var init := ButLast(chunks);
    assert forall c :: 0 <= c <= |init| ==> init[..c] == chunks[..c];
    assert chunks[..|chunks|] == chunks;
    if Paced(ms, init, n - 1) && n <= Whole(ms, |Flat(chunks)|) {
      forall c | 0 <= c <= |chunks|
        ensures n <= Whole(ms, |Flat(chunks[..c])|) + |chunks| - c
      {
        if c < |chunks| {
          assert n - 1 <= Whole(ms, |Flat(init[..c])|) + |init| - c;
        }
      }
    }
    if Paced(ms, chunks, n) {
      assert n <= Whole(ms, |Flat(chunks[..|chunks|])|) + 0;
      forall c | 0 <= c <= |init|
        ensures n - 1 <= Whole(ms, |Flat(init[..c])|) + |init| - c
      {
        assert n <= Whole(ms, |Flat(chunks[..c])|) + |chunks| - c;
      }
    }
  }

  /** When the whole stream has arrived, every message has been read if and only if the chunks were paced:
      from each moment on there were at least as many callbacks as messages that had not arrived whole. */
  lemma AllReadIffPaced(ms: seq<Bytes>, chunks: seq<Bytes>)
    requires AllSendable(ms) && Flat(chunks) == Encode(ms)
    ensures Read(chunks).Ok? && (Read(chunks).value.got == ms <==> Paced(ms, chunks, |ms|))
  {
    assert Flat(chunks) + [] == Encode(ms);
    ReadAtLeastIff(ms, chunks, [], |ms|);
    ReadIsPrefix(ms, chunks, []);
  }

  /** A connection that carries one message, as the command client's do, is always read. */
  lemma OneMessageIsRead(m: Bytes, chunks: seq<Bytes>)
    requires Sendable(m) && Flat(chunks) == Frame(m)
    ensures Read(chunks).Ok? && Read(chunks).value.got == [m]
  {
    assert Encode([m]) == Frame(m) + Encode([]);
    assert Frame(m) + [] == Frame(m);
    assert chunks != [];
    ReadStep([m], chunks, []);
    ReadIsPrefix([m], chunks, []);
    FrameLength(m);
  }

  /** Two messages that arrive together are not both read: the second waits for more bytes. */
  lemma TwoAtOnce(a: Bytes, b: Bytes)
    requires Sendable(a) && Sendable(b)
    ensures Read([Encode([a, b])]).Ok? && Read([Encode([a, b])]).value.got == [a]
  {
    var ms, chunks := [a, b], [Encode([a, b])];
    assert Flat(chunks) == Flat([]) + Encode(ms);
    ReadStep(ms, chunks, []);
    ReadIsPrefix(ms, chunks, []);
    assert ButLast(chunks) == [];
    assert ms[1..] == [b];
    FrameLength(a);
  }

  /** However TCP cuts the stream, everything is read. */
  ghost predicate AlwaysRead(ms: seq<Bytes>) {
    forall chunks :: Flat(chunks) == Encode(ms) ==> Read(chunks).Ok? && Read(chunks).value.got == ms
  }

  /** What a sender can rely on: all its messages are read, whatever TCP does, if and only if the connection
      carries at most one. */
  lemma AlwaysReadIff(ms: seq<Bytes>)
    requires AllSendable(ms)
    ensures AlwaysRead(ms) <==> |ms| <= 1
  {
    if |ms| <= 1 {
      forall chunks | Flat(chunks) == Encode(ms)
        ensures Read(chunks).Ok? && Read(chunks).value.got == ms
      {
        if ms == [] {
          ReadIsPrefix(ms, chunks, []);
        } else {
          assert ms == [ms[0]] && Encode(ms) == Frame(ms[0]) + [];
          OneMessageIsRead(ms[0], chunks);
        }
      }
    } else {
      var chunks := [Encode(ms)];
      assert ButLast(chunks) == [] && Flat(chunks) == Flat([]) + Encode(ms);
      ReadStep(ms, chunks, []);
      assert |Read(chunks).value.got| <= 1;
    }
  }

  // ---------------------------------------------------------------- RDMA

  /** serializeRdmaPbMsg at the front of a send buffer's remaining room. */
  method SerializeRdma(buf: array<byte>, at: nat, cap: nat, m: Bytes) returns (n: int)
    requires at + cap <= buf.Length && |m| <= INT_MAX - HEADER
    modifies buf
    ensures n == if cap < HEADER + |m| then -1 else HEADER + |m|
    ensures n == -1 ==> buf[..] == old(buf[..])
    ensures n >= 0 ==> buf[..] == old(buf[..at]) + RdmaFrame(m) + old(buf[at + n..])
  {
    if cap < HEADER + |m| {
      return -1;
    }
    PowersOf256();
    FromLittleOfLittle(|m|, HEADER);
    hide Little;
    ghost var was := buf[..];
    CopyIn(buf, at, Little(|m|, HEADER));
    ghost var mid := buf[..];
    CopyIn(buf, at + HEADER, m);
    n := HEADER + |m|;
    TwoCopies(was, at, Little(|m|, HEADER), m, mid, buf[..]);
  }

  /** Two copies side by side are one. */
  lemma TwoCopies(was: Bytes, at: nat, h: Bytes, m: Bytes, mid: Bytes, now: Bytes)
    requires at + |h| + |m| <= |was|
    requires mid == was[..at] + h + was[at + |h|..]
    requires now == mid[..at + |h|] + m + mid[at + |h| + |m|..]
    ensures now == was[..at] + (h + m) + was[at + |h| + |m|..]
  {
    assert mid[..at + |h|] == was[..at] + h;
    assert mid[at + |h| + |m|..] == was[at + |h| + |m|..];
  }

  function RdmaFrame(m: Bytes): Bytes
    requires |m| <= INT_MAX - HEADER
  {
    Little(|m|, HEADER) + m
  }

  function SignedLittle(b: Bytes): int {
    DecodeInt(Reversed(b))
  }

  /** An int converted to uint32_t. */
  function UInt32(x: int): int {
    if x < 0 then x + 0x1_0000_0000 else x
  }

  /** parseRdmaPbMsg: the message and the length of its frame, or failure.  The sum of header and length is
      compared as unsigned, so lengths of -4..-1 pass, and protobuf is handed a negative size. */
  function ParseRdma(b: Bytes): Outcome<Option<(Bytes, nat)>> {
    if |b| < HEADER then Ok(None)
    else
      var len := SignedLittle(b[..HEADER]);
      if |b| < UInt32(Int32(HEADER + len)) then Ok(None)
      else if len < 0 || |b| < HEADER + len then Crash
      else Ok(Some((b[HEADER..HEADER + len], HEADER + len)))
  }

  /** Of the frames that can be received (shorter than 2^31 bytes), exactly those with a length of -4..-1
      reach protobuf with a negative size; of the others, those are parsed that are all there. */
  lemma ParseRdmaFailsIff(b: Bytes)
    requires HEADER <= |b| <= INT_MAX
    ensures var len := SignedLittle(b[..HEADER]);
      && (ParseRdma(b).Crash? <==> -4 <= len < 0)
      && (ParseRdma(b).Ok? && ParseRdma(b).value.Some? <==> 0 <= len && HEADER + len <= |b|)
  {
    PowersOf256();
    BytesRoundTrip(Reversed(b[..HEADER]));
    hide SignedLittle, Reversed, DecodeInt, EncodeInt;
  }

  lemma SignedLittleOf(v: nat)
    requires v <= INT_MAX
    ensures |Little(v, HEADER)| == HEADER && SignedLittle(Little(v, HEADER)) == v
  {
    PowersOf256();
    ReversedTwice(Big(v, HEADER));
    FromLittleOfLittle(v, HEADER);
    IntRoundTrip(v, HEADER);
  }

  lemma ParseOf(b: Bytes, len: nat)
    requires HEADER <= |b| && len <= INT_MAX - HEADER && SignedLittle(b[..HEADER]) == len
    ensures ParseRdma(b) == Ok(if |b| < HEADER + len then None else Some((b[HEADER..HEADER + len], HEADER + len)))
  {
    hide SignedLittle;
  }

  /** A frame is parsed back whatever follows it; cut short, it is refused. */
  lemma RdmaRoundTrip(m: Bytes, payload: Bytes)
    requires |m| <= INT_MAX - HEADER
    ensures ParseRdma(RdmaFrame(m) + payload) == Ok(Some((m, |RdmaFrame(m)|)))
    ensures forall k :: 0 <= k < |RdmaFrame(m)| ==> ParseRdma(RdmaFrame(m)[..k]) == Ok(None)
  {
    SignedLittleOf(|m|);
    hide SignedLittle, Little;
    var b := RdmaFrame(m) + payload;
    assert b[..HEADER] == Little(|m|, HEADER);
    assert b[HEADER..HEADER + |m|] == m;
    ParseOf(b, |m|);
    forall k | 0 <= k < |RdmaFrame(m)|
      ensures ParseRdma(RdmaFrame(m)[..k]) == Ok(None)
    {
      if k >= HEADER {
        assert RdmaFrame(m)[..k][..HEADER] == Little(|m|, HEADER);
        ParseOf(RdmaFrame(m)[..k], |m|);
      }
    }
  }

  /** What sendDecompressFinishRequest puts into a send buffer: type, frame and, inline, the segment. */
  function Finish(kind: nat, m: Bytes, segment: Bytes): Bytes
    requires kind <= INT_MAX && |m| <= INT_MAX - HEADER
  {
    Little(kind, HEADER) + RdmaFrame(m) + segment
  }

  /** What the host's onRecvSuccess takes from a received buffer. */
  function ParseFinish(b: Bytes): Outcome<Option<(int, Bytes, Bytes)>> {
    if |b| < HEADER then Ok(None)
    else
      var r :- ParseRdma(b[HEADER..]);
      if r.None? then Ok(None)
      else if HEADER + r.value.1 > |b| then Crash
      else Ok(Some((SignedLittle(b[..HEADER]), r.value.0, b[HEADER + r.value.1..])))
  }

  lemma ThreeParts(a: Bytes, b: Bytes, c: Bytes)
    ensures (a + b + c)[..|a|] == a && (a + b + c)[|a|..] == b + c && (a + b + c)[|a| + |b|..] == c
  {
  }

  lemma FinishRoundTrip(kind: nat, m: Bytes, segment: Bytes)
    requires kind <= INT_MAX && |m| <= INT_MAX - HEADER
    ensures ParseFinish(Finish(kind, m, segment)) == Ok(Some((kind, m, segment)))
  {
    SignedLittleOf(kind);
    RdmaRoundTrip(m, segment);
    hide Little, RdmaFrame, ParseRdma, SignedLittle;
    ThreeParts(Little(kind, HEADER), RdmaFrame(m), segment);
  }
}
