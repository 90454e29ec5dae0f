/** One end of an RDMA reliable connection, and the credit argument that makes its buffers safe.

    A send is only a descriptor: the adapter reads the buffer when the message leaves, not when it is
    posted.  A server returns a send buffer to its free list right after posting, and both sides post a
    receive slot again before the callback has read it.  Whether anything is overwritten therefore
    depends on the other end: on how many requests the client leaves unanswered. */
module Rdma {
  import opened Base

  /** Send side: free buffer ids, buffer contents, posted sends.  Receive side: posted slots, slot
      contents, completed receives. */
  datatype End<M> = End(
    free: seq<nat>, sendMem: seq<M>, sendQ: seq<nat>,
    recvQ: seq<nat>, recvMem: seq<M>, cq: seq<nat>)

  function NewEnd<M>(memNum: nat, zero: M): End<M> {
    End(Range(0, memNum), seq(memNum, i => zero), [], Range(0, memNum), seq(memNum, i => zero), [])
  }

  /** Write `m` into send buffer `id` and post it. */
  function Post<M>(e: End<M>, id: nat, m: M): Outcome<End<M>> {
    if id >= |e.sendMem| then Crash
    else Ok(e.(sendMem := e.sendMem[id := m], sendQ := e.sendQ + [id]))
  }

  /** A message reaches this end; with no slot posted the sender is told "receiver not ready". */
  function Arrive<M>(e: End<M>, m: M): Outcome<End<M>> {
    if e.recvQ == [] || e.recvQ[0] >= |e.recvMem| then Crash
    else Ok(e.(recvQ := e.recvQ[1..], recvMem := e.recvMem[e.recvQ[0] := m], cq := e.cq + [e.recvQ[0]]))
  }

  /** handleRead takes the next completion and posts its slot again. */
  function Poll<M>(e: End<M>): End<M>
    requires e.cq != []
  {
    e.(cq := e.cq[1..], recvQ := e.recvQ + [e.cq[0]])
  }

  // ---------------------------------------------------------------- client and server together

  /** `reading` is the slot that a callback is still reading.  The histories record what was sent, what
      the server's callbacks read, what it answered, and what the client's callbacks read. */
  datatype Link<M> = Link(
    kc: nat, ks: nat,
    client: End<M>, inflight: seq<nat>, clientReading: Option<nat>,
    server: End<M>, serverReading: Option<nat>,
    sent: seq<M>, served: seq<M>, answered: seq<M>, got: seq<M>)

  datatype Event<M> =
    | CSend(m: M)     // the client sends a request
    | ToServer        // the adapters move the next request
    | SPoll           // the server takes a completion and posts the slot again
    | SReply(m: M)    // the server's callback reads the request and answers
    | ToClient        // the adapters move the next answer
    | CPoll           // the client takes a completion, posts the slot again, returns a send buffer
    | CRead           // the client's callback reads the answer

  predicate Enabled<M>(l: Link<M>, e: Event<M>) {
    match e
    case CSend(_) => l.clientReading.None? && l.client.free != []
    case ToServer => l.client.sendQ != []
    case SPoll => l.serverReading.None? && l.server.cq != []
    case SReply(_) => l.serverReading.Some?
    case ToClient => l.server.sendQ != []
    case CPoll => l.clientReading.None? && l.client.cq != []
    case CRead => l.clientReading.Some?
  }

  function Apply<M>(l: Link<M>, e: Event<M>): Outcome<Link<M>>
    requires Enabled(l, e)
  {
    match e
    case CSend(m) =>
      var id := l.client.free[0];
      var c :- Post(l.client.(free := l.client.free[1..]), id, m);
      Ok(l.(client := c, inflight := l.inflight + [id], sent := l.sent + [m]))
    case ToServer =>
      if l.client.sendQ[0] >= |l.client.sendMem| then Crash
      else
        var s :- Arrive(l.server, l.client.sendMem[l.client.sendQ[0]]);
        Ok(l.(server := s, client := l.client.(sendQ := l.client.sendQ[1..])))
    case SPoll =>
      Ok(l.(server := Poll(l.server), serverReading := Some(l.server.cq[0])))
    case SReply(m) =>
      if l.server.free == [] || l.serverReading.value >= |l.server.recvMem| then Crash
      else
        var id := l.server.free[0];
        var s :- Post(l.server.(free := l.server.free[1..]), id, m);
        Ok(l.(server := s.(free := s.free + [id]), serverReading := None,
              served := l.served + [l.server.recvMem[l.serverReading.value]], answered := l.answered + [m]))
    case ToClient =>
      if l.server.sendQ[0] >= |l.server.sendMem| then Crash
      else
        var c :- Arrive(l.client, l.server.sendMem[l.server.sendQ[0]]);
        Ok(l.(client := c, server := l.server.(sendQ := l.server.sendQ[1..])))
    case CPoll =>
      if l.inflight == [] then Crash
      else
        var c := Poll(l.client);
        Ok(l.(client := c.(free := c.free + [l.inflight[0]]), inflight := l.inflight[1..],
              clientReading := Some(l.client.cq[0])))
    case CRead =>
      if l.clientReading.value >= |l.client.recvMem| then Crash
      else Ok(l.(clientReading := None, got := l.got + [l.client.recvMem[l.clientReading.value]]))
  }

  ghost predicate Init<M>(l: Link<M>, zero: M) {
    && l.kc >= 1 && l.ks >= 1
    && l.client == NewEnd(l.kc, zero) && l.server == NewEnd(l.ks, zero)
    && l.inflight == [] && l.clientReading == None && l.serverReading == None
    && l.sent == [] && l.served == [] && l.answered == [] && l.got == []
  }

  // ---------------------------------------------------------------- invariant

  ghost predicate Split(a: seq<nat>, b: seq<nat>, n: nat) {
    forall x: nat :: Count(a, x) + Count(b, x) == if x < n then 1 else 0
  }

  /** How many requests the server has taken, and how many answers the client has taken. */
  function Taken<M>(l: Link<M>): nat {
    |l.served| + if l.serverReading.Some? then 1 else 0
  }

  function Closed<M>(l: Link<M>): nat {
    |l.got| + if l.clientReading.Some? then 1 else 0
  }

  /** The ids in `ids` hold the consecutive messages of `ms` from number `from` on. */
  ghost predicate Holds<M>(ids: seq<nat>, mem: seq<M>, ms: seq<M>, from: nat) {
    from + |ids| <= |ms| && forall j :: 0 <= j < |ids| ==> ids[j] < |mem| && mem[ids[j]] == ms[from + j]
  }

  ghost predicate Numbers<M>(l: Link<M>) {
    && 1 <= l.kc <= l.ks
    && |l.client.sendMem| == |l.client.recvMem| == l.kc && |l.server.sendMem| == |l.server.recvMem| == l.ks
    && |l.served| == |l.answered|
    && Closed(l) + |l.inflight| == |l.sent|
    && |l.client.sendQ| + |l.server.cq| + Taken(l) == |l.sent|
    && Closed(l) + |l.client.cq| + |l.server.sendQ| == |l.answered|
    && |l.client.free| + |l.inflight| == l.kc && |l.server.free| == l.ks
    && |l.client.recvQ| + |l.client.cq| == l.kc && |l.server.recvQ| + |l.server.cq| == l.ks
    && (l.clientReading.Some? ==> l.client.free != [])
  }

  ghost predicate ClientSends<M>(l: Link<M>) {
    && Split(l.client.free, l.inflight, l.kc)
    && |l.client.sendQ| <= |l.inflight|
    && l.client.sendQ == l.inflight[|l.inflight| - |l.client.sendQ|..]
    && Closed(l) + |l.inflight| <= |l.sent|
    && Holds(l.inflight, l.client.sendMem, l.sent, Closed(l))
  }

  ghost predicate ServerReceives<M>(l: Link<M>) {
    && Split(l.server.recvQ, l.server.cq, l.ks)
    && Holds(l.server.cq, l.server.recvMem, l.sent, Taken(l))
    && (l.serverReading.Some? ==>
          l.server.recvQ != [] && Last(l.server.recvQ) == l.serverReading.value < |l.server.recvMem|
          && Taken(l) <= |l.sent| && l.server.recvMem[l.serverReading.value] == l.sent[Taken(l) - 1])
    && l.served <= l.sent
  }

  /** The buffers of the answers not taken yet are the last ones in the server's free list. */
  ghost predicate ServerSends<M>(l: Link<M>) {
    && Split(l.server.free, [], l.ks)
    && Closed(l) <= |l.answered| && |l.answered| - Closed(l) <= |l.server.free|
    && Holds(l.server.free[|l.server.free| - (|l.answered| - Closed(l))..], l.server.sendMem, l.answered, Closed(l))
    && |l.server.sendQ| <= |l.server.free|
    && l.server.sendQ == l.server.free[|l.server.free| - |l.server.sendQ|..]
  }

  ghost predicate ClientReceives<M>(l: Link<M>) {
    && Split(l.client.recvQ, l.client.cq, l.kc)
    && Holds(l.client.cq, l.client.recvMem, l.answered, Closed(l))
    && (l.clientReading.Some? ==>
          l.client.recvQ != [] && Last(l.client.recvQ) == l.clientReading.value < |l.client.recvMem|
          && Closed(l) <= |l.answered| && l.client.recvMem[l.clientReading.value] == l.answered[Closed(l) - 1])
    && l.got <= l.answered
  }

  ghost predicate Inv<M>(l: Link<M>) {
    Numbers(l) && ClientSends(l) && ServerReceives(l) && ServerSends(l) && ClientReceives(l)
  }

  lemma InitInv<M>(l: Link<M>, zero: M)
    requires Init(l, zero) && l.kc <= l.ks
    ensures Inv(l)
  {
    forall x: nat
      ensures Count(Range(0, l.kc), x) + Count([], x) == if x < l.kc then 1 else 0
      ensures Count(Range(0, l.ks), x) + Count([], x) == if x < l.ks then 1 else 0
    {
      CountRange(l.kc, x);
      CountRange(l.ks, x);
    }
  }

  // ---------------------------------------------------------------- id lists

  /** Members of the two halves of a split differ, and so do the members of one half. */
  lemma SplitDistinct(a: seq<nat>, b: seq<nat>, n: nat)
    requires Split(a, b, n)
    ensures forall i :: 0 <= i < |a| ==> a[i] < n
    ensures forall i :: 0 <= i < |b| ==> b[i] < n
    ensures forall i, j :: 0 <= i < |a| && 0 <= j < |b| ==> a[i] != b[j]
    ensures forall i, j :: 0 <= i < j < |a| ==> a[i] != a[j]
  {
    forall i | 0 <= i < |a|
      ensures a[i] < n && forall j :: 0 <= j < |b| ==> a[i] != b[j]
    {
      CountIn(a, a[i]);
      CountIn(b, a[i]);
    }
    forall j | 0 <= j < |b|
      ensures b[j] < n
    {
      CountIn(b, b[j]);
    }
    forall i, j | 0 <= i < j < |a|
      ensures a[i] != a[j]
    {
      assert a == a[..j] + a[j..];
      CountCat(a[..j], a[j..], a[i]);
      CountIn(a[..j], a[i]);
      CountIn(a[j..], a[i]);
    }
  }

  /** The front of one half moves to the back of the other. */
  lemma SplitMove(a: seq<nat>, b: seq<nat>, n: nat)
    requires Split(a, b, n) && a != []
    ensures Split(a[1..], b + [a[0]], n)
  {
    assert a == [a[0]] + a[1..];
    forall x: nat
      ensures Count(a[1..], x) + Count(b + [a[0]], x) == Count(a, x) + Count(b, x)
    {
      CountCat([a[0]], a[1..], x);
      CountCat(b, [a[0]], x);
    }
  }

  lemma SplitSwap(a: seq<nat>, b: seq<nat>, n: nat)
    requires Split(a, b, n)
    ensures Split(b, a, n)
  {
    forall x: nat
      ensures Count(b, x) + Count(a, x) == if x < n then 1 else 0
    {
      assert Count(a, x) + Count(b, x) == if x < n then 1 else 0;
    }
  }

  // ---------------------------------------------------------------- preservation

  lemma CSendSends<M>(l: Link<M>, m: M)
    requires Numbers(l) && ClientSends(l) && Enabled(l, CSend(m))
    ensures Apply(l, CSend(m)).Ok? && ClientSends(Apply(l, CSend(m)).value)
  {
    SplitDistinct(l.client.free, l.inflight, l.kc);
    SplitMove(l.client.free, l.inflight, l.kc);
    hide Split;
    var t := Apply(l, CSend(m)).value;
    assert t.client.sendQ == t.inflight[|t.inflight| - |t.client.sendQ|..];
  }

  lemma CSendReceives<M>(l: Link<M>, m: M)
    requires ServerReceives(l) && Enabled(l, CSend(m)) && Apply(l, CSend(m)).Ok?
    ensures ServerReceives(Apply(l, CSend(m)).value)
  {
    hide Split;
  }

  lemma CSendKeeps<M>(l: Link<M>, m: M)
    requires Inv(l) && Enabled(l, CSend(m))
    ensures Apply(l, CSend(m)).Ok? && Inv(Apply(l, CSend(m)).value)
  {
    CSendSends(l, m);
    CSendReceives(l, m);
    hide ClientSends, ServerReceives, Split, Holds;
  }

  /** A request lands in a posted slot, and not in the one the server is still reading. */
  lemma RequestLandsSafely<M>(l: Link<M>)
    requires Numbers(l) && ServerReceives(l) && l.client.sendQ != [] && l.client.sendQ[0] < |l.client.sendMem|
    requires l.client.sendMem[l.client.sendQ[0]] == l.sent[|l.sent| - |l.client.sendQ|]
    ensures Apply(l, ToServer).Ok? && ServerReceives(Apply(l, ToServer).value)
    ensures l.serverReading.Some? ==> l.server.recvQ[0] != l.serverReading.value
  {
    SplitDistinct(l.server.recvQ, l.server.cq, l.ks);
    SplitMove(l.server.recvQ, l.server.cq, l.ks);
    hide Split;
    assert l.serverReading.Some? ==> |l.server.recvQ| >= 2;
  }

  lemma ToServerSends<M>(l: Link<M>)
    requires Numbers(l) && ClientSends(l) && l.client.sendQ != []
    ensures l.client.sendQ[0] < |l.client.sendMem|
    ensures l.client.sendMem[l.client.sendQ[0]] == l.sent[|l.sent| - |l.client.sendQ|]
    ensures Apply(l, ToServer).Ok? ==> ClientSends(Apply(l, ToServer).value)
  {
    var k := |l.inflight| - |l.client.sendQ|;
    assert l.client.sendQ[0] == l.inflight[k];
    assert l.client.sendQ[1..] == l.inflight[k + 1..];
    hide Split;
  }

  lemma ToServerKeeps<M>(l: Link<M>)
    requires Inv(l) && Enabled(l, ToServer)
    ensures Apply(l, ToServer).Ok? && Inv(Apply(l, ToServer).value)
  {
    hide ClientSends, ServerReceives, ServerSends, ClientReceives, Numbers;
    ToServerSends(l);
    RequestLandsSafely(l);
    ToServerNumbers(l);
    ToServerRest(l);
  }

  lemma ToServerRest<M>(l: Link<M>)
    requires ServerSends(l) && ClientReceives(l) && Enabled(l, ToServer) && Apply(l, ToServer).Ok?
    ensures ServerSends(Apply(l, ToServer).value) && ClientReceives(Apply(l, ToServer).value)
  {
    hide Split, Holds;
  }

  lemma ToServerNumbers<M>(l: Link<M>)
    requires Numbers(l) && Enabled(l, ToServer) && Apply(l, ToServer).Ok?
    ensures Numbers(Apply(l, ToServer).value)
  {
  }

  lemma SPollReceives<M>(l: Link<M>)
    requires Numbers(l) && ServerReceives(l) && Enabled(l, SPoll)
    ensures ServerReceives(Apply(l, SPoll).value)
  {
    SplitSwap(l.server.recvQ, l.server.cq, l.ks);
    SplitMove(l.server.cq, l.server.recvQ, l.ks);
    SplitSwap(l.server.cq[1..], l.server.recvQ + [l.server.cq[0]], l.ks);
    hide Split;
  }

  lemma SPollKeeps<M>(l: Link<M>)
    requires Inv(l) && Enabled(l, SPoll)
    ensures Apply(l, SPoll).Ok? && Inv(Apply(l, SPoll).value)
  {
    SPollReceives(l);
    hide ServerReceives, Split, Holds;
  }

  lemma RotateSplit(free: seq<nat>, n: nat)
    requires Split(free, [], n) && free != []
    ensures Split(free[1..] + [free[0]], [], n)
  {
    forall x: nat
      ensures Count(free[1..] + [free[0]], x) + Count([], x) == if x < n then 1 else 0
    {
      assert free == [free[0]] + free[1..];
      CountCat([free[0]], free[1..], x);
      CountCat(free[1..], [free[0]], x);
      assert Count(free, x) + Count([], x) == if x < n then 1 else 0;
    }
  }

  /** Writing into the front of a rotating list leaves its last `w` members' contents alone. */
  lemma RotateHolds<M>(free: seq<nat>, w: nat, mem: seq<M>, ms: seq<M>, from: nat, m: M)
    requires Split(free, [], |mem|) && w < |free| && from + w == |ms|
    requires Holds(free[|free| - w..], mem, ms, from)
    ensures free[0] < |mem|
    ensures Holds((free[1..] + [free[0]])[|free| - (w + 1)..], mem[free[0] := m], ms + [m], from)
  {
    SplitDistinct(free, [], |mem|);
    assert (free[1..] + [free[0]])[|free| - (w + 1)..] == free[|free| - w..] + [free[0]];
  }

  lemma Rotated(free: seq<nat>, q: seq<nat>)
    requires free != [] && |q| < |free| && q == free[|free| - |q|..]
    ensures (free[1..] + [free[0]])[|free| - |q + [free[0]]|..] == q + [free[0]]
  {
  }

  /** An answer goes to a buffer that no answer still to be taken by the client occupies. */
  lemma ReplyOverwritesNothing<M>(l: Link<M>, m: M)
    requires Numbers(l) && ServerSends(l) && l.serverReading.Some? && l.serverReading.value < |l.server.recvMem|
    ensures Apply(l, SReply(m)).Ok? && ServerSends(Apply(l, SReply(m)).value)
  {
    hide Split, Holds;
    var free := l.server.free;
    var w := |l.answered| - Closed(l);
    assert w < |free|;
    RotateSplit(free, l.ks);
    RotateHolds(free, w, l.server.sendMem, l.answered, Closed(l), m);
    Rotated(free, l.server.sendQ);
    var t := Apply(l, SReply(m)).value;
    assert t.server.free == free[1..] + [free[0]] && t.server.sendQ == l.server.sendQ + [free[0]];
  }

  lemma SReplyKeeps<M>(l: Link<M>, m: M)
    requires Inv(l) && Enabled(l, SReply(m))
    ensures Apply(l, SReply(m)).Ok? && Inv(Apply(l, SReply(m)).value)
  {
    ReplyOverwritesNothing(l, m);
    hide ServerSends, Split, Holds;
  }

  lemma ToClientSends<M>(l: Link<M>)
    requires Numbers(l) && ServerSends(l) && ClientReceives(l) && l.server.sendQ != []
    ensures Apply(l, ToClient).Ok? && ServerSends(Apply(l, ToClient).value)
    ensures l.server.sendMem[l.server.sendQ[0]] == l.answered[|l.answered| - |l.server.sendQ|]
  {
    var free := l.server.free;
    var w := |l.answered| - Closed(l);
    var k := |free| - |l.server.sendQ|;
    assert l.server.sendQ[0] == free[k] == free[|free| - w..][w - |l.server.sendQ|];
    SplitDistinct(l.client.recvQ, l.client.cq, l.kc);
    hide Split, ClientReceives;
    var t := Apply(l, ToClient).value;
    assert t.server.sendQ == free[k + 1..];
  }

  /** An answer lands in a posted slot, and not in the one the client is still reading. */
  lemma AnswerLandsSafely<M>(l: Link<M>)
    requires Numbers(l) && ClientReceives(l) && l.server.sendQ != [] && Apply(l, ToClient).Ok?
    requires l.server.sendMem[l.server.sendQ[0]] == l.answered[|l.answered| - |l.server.sendQ|]
    ensures ClientReceives(Apply(l, ToClient).value)
    ensures l.clientReading.Some? ==> l.client.recvQ[0] != l.clientReading.value
  {
    SplitDistinct(l.client.recvQ, l.client.cq, l.kc);
    SplitMove(l.client.recvQ, l.client.cq, l.kc);
    hide Split;
    assert l.clientReading.Some? ==> |l.client.recvQ| >= 2;
  }

  lemma ToClientKeeps<M>(l: Link<M>)
    requires Inv(l) && Enabled(l, ToClient)
    ensures Apply(l, ToClient).Ok? && Inv(Apply(l, ToClient).value)
  {
    ToClientSends(l);
    AnswerLandsSafely(l);
    hide ServerSends, ClientReceives, Split, Holds;
    ToClientNumbers(l);
    hide Numbers;
  }

  lemma ToClientNumbers<M>(l: Link<M>)
    requires Numbers(l) && Enabled(l, ToClient) && Apply(l, ToClient).Ok?
    ensures Numbers(Apply(l, ToClient).value)
  {
  }

  lemma CPollReceives<M>(l: Link<M>)
    requires Numbers(l) && ClientReceives(l) && Enabled(l, CPoll)
    ensures Apply(l, CPoll).Ok? && ClientReceives(Apply(l, CPoll).value)
  {
    SplitSwap(l.client.recvQ, l.client.cq, l.kc);
    SplitMove(l.client.cq, l.client.recvQ, l.kc);
    SplitSwap(l.client.cq[1..], l.client.recvQ + [l.client.cq[0]], l.kc);
    hide Split;
  }

  lemma CPollSends<M>(l: Link<M>)
    requires Numbers(l) && ClientSends(l) && ServerSends(l) && Enabled(l, CPoll) && Apply(l, CPoll).Ok?
    ensures ClientSends(Apply(l, CPoll).value) && ServerSends(Apply(l, CPoll).value)
  {
    SplitSwap(l.client.free, l.inflight, l.kc);
    SplitMove(l.inflight, l.client.free, l.kc);
    SplitSwap(l.inflight[1..], l.client.free + [l.inflight[0]], l.kc);
    hide Split;
    var t := Apply(l, CPoll).value;
    assert t.client.sendQ == t.inflight[|t.inflight| - |t.client.sendQ|..];
    var w := |l.answered| - Closed(l);
    assert t.server.free[|l.server.free| - (w - 1)..] == l.server.free[|l.server.free| - w..][1..];
  }

  lemma CPollKeeps<M>(l: Link<M>)
    requires Inv(l) && Enabled(l, CPoll)
    ensures Apply(l, CPoll).Ok? && Inv(Apply(l, CPoll).value)
  {
    CPollReceives(l);
    CPollSends(l);
    hide ClientSends, ClientReceives, ServerSends, Split, Holds;
  }

  lemma CReadKeeps<M>(l: Link<M>)
    requires Inv(l) && Enabled(l, CRead)
    ensures Apply(l, CRead).Ok? && Inv(Apply(l, CRead).value)
  {
  }

  lemma StepKeeps<M>(l: Link<M>, e: Event<M>)
    requires Inv(l) && Enabled(l, e)
    ensures Apply(l, e).Ok? && Inv(Apply(l, e).value)
  {
    hide Inv, Apply;
    match e
    case CSend(m) => CSendKeeps(l, m);
    case ToServer => ToServerKeeps(l);
    case SPoll => SPollKeeps(l);
    case SReply(m) => SReplyKeeps(l, m);
    case ToClient => ToClientKeeps(l);
    case CPoll => CPollKeeps(l);
    case CRead => CReadKeeps(l);
  }

  // ---------------------------------------------------------------- whole runs

  ghost predicate Feasible<M>(l: Link<M>, es: seq<Event<M>>)
    decreases |es|
  {
    es != [] ==>
      Enabled(l, es[0]) && (Apply(l, es[0]).Ok? ==> Feasible(Apply(l, es[0]).value, es[1..]))
  }

  ghost function Run<M>(l: Link<M>, es: seq<Event<M>>): Outcome<Link<M>>
    requires Feasible(l, es)
    decreases |es|
  {
    if es == [] then Ok(l)
    else
      var t :- Apply(l, es[0]);
      Run(t, es[1..])
  }

  lemma {:induction false} RunKeeps<M>(l: Link<M>, es: seq<Event<M>>)
    requires Inv(l) && Feasible(l, es)
    ensures Run(l, es).Ok? && Inv(Run(l, es).value)
    decreases |es|
  {
    hide Inv, Apply;
    if es != [] {
      StepKeeps(l, es[0]);
      RunKeeps(Apply(l, es[0]).value, es[1..]);
    }
  }

  /** With at least as many buffers at the server as at the client, every message finds a posted slot,
      and every callback reads exactly the message that was sent, in order, at both ends. */
  lemma CallbacksReadWhatWasSent<M>(l: Link<M>, zero: M, es: seq<Event<M>>)
    requires Init(l, zero) && l.kc <= l.ks && Feasible(l, es)
    ensures Run(l, es).Ok?
    ensures Run(l, es).value.served <= Run(l, es).value.sent
    ensures Run(l, es).value.got <= Run(l, es).value.answered
  {
    InitInv(l, zero);
    RunKeeps(l, es);
  }

  /** The messages that a run posts at the client, and at the server. */
  function Posted<M>(es: seq<Event<M>>, atClient: bool): seq<M> {
    if es == [] then []
    else
      (if atClient && es[0].CSend? then [es[0].m] else if !atClient && es[0].SReply? then [es[0].m] else [])
      + Posted(es[1..], atClient)
  }

  lemma StepPosts<M>(l: Link<M>, e: Event<M>)
    requires Enabled(l, e) && Apply(l, e).Ok?
    ensures Apply(l, e).value.sent == l.sent + if e.CSend? then [e.m] else []
    ensures Apply(l, e).value.answered == l.answered + if e.SReply? then [e.m] else []
  {
  }

  lemma {:induction false} RunPosts<M>(l: Link<M>, es: seq<Event<M>>)
    requires Feasible(l, es) && Run(l, es).Ok?
    ensures Run(l, es).value.sent == l.sent + Posted(es, true)
    ensures Run(l, es).value.answered == l.answered + Posted(es, false)
    decreases |es|
  {
    if es != [] {
      StepPosts(l, es[0]);
      hide Apply, Enabled;
      var t := Apply(l, es[0]).value;
      RunPosts(t, es[1..]);
      Appended(l.sent, if es[0].CSend? then [es[0].m] else [], Posted(es[1..], true));
      Appended(l.answered, if es[0].SReply? then [es[0].m] else [], Posted(es[1..], false));
    }
  }

  /** Nothing is under way at either end. */
  predicate Idle<M>(l: Link<M>) {
    && !Enabled(l, ToServer) && !Enabled(l, SPoll) && l.serverReading.None?
    && !Enabled(l, ToClient) && !Enabled(l, CPoll) && l.clientReading.None?
  }

  /** In every run the callbacks read, in order, a prefix of what was posted at the other end, and all of it
      when nothing is under way any more. */
  lemma AllPostedIsRead<M>(l: Link<M>, zero: M, es: seq<Event<M>>)
    requires Init(l, zero) && l.kc <= l.ks && Feasible(l, es)
    ensures Run(l, es).Ok?
    ensures var t := Run(l, es).value;
      && t.served <= Posted(es, true) && t.got <= Posted(es, false)
      && (Idle(t) ==> t.served == Posted(es, true) && t.got == Posted(es, false))
  {
    hide Feasible, Run, Posted, Inv, Init, Idle;
    NothingPosted(l, zero);
    InitInv(l, zero);
    RunKeeps(l, es);
    RunPosts(l, es);
    IdleHasRead(Run(l, es).value);
  }

  lemma NothingPosted<M>(l: Link<M>, zero: M)
    requires Init(l, zero)
    ensures l.sent == [] && l.answered == []
  {
  }

  lemma IdleHasRead<M>(l: Link<M>)
    requires Inv(l)
    ensures l.served <= l.sent && l.got <= l.answered
    ensures Idle(l) ==> l.served == l.sent && l.got == l.answered
  {
    hide Split, Holds;
  }

  lemma {:induction false} RunCat<M>(l: Link<M>, a: seq<Event<M>>, b: seq<Event<M>>)
    requires Feasible(l, a) && Run(l, a).Ok? && Feasible(Run(l, a).value, b)
    ensures Feasible(l, a + b) && Run(l, a + b) == Run(Run(l, a).value, b)
    decreases |a|
  {
    if a == [] {
      assert a + b == b;
    } else {
      assert (a + b)[1..] == a[1..] + b;
      RunCat(Apply(l, a[0]).value, a[1..], b);
    }
  }

  function Burst<M>(n: nat, e: Event<M>): seq<Event<M>> {
    if n == 0 then [] else [e] + Burst(n - 1, e)
  }

  ghost predicate Sane<M>(l: Link<M>) {
    && (forall i :: 0 <= i < |l.client.free| ==> l.client.free[i] < |l.client.sendMem|)
    && (forall i :: 0 <= i < |l.client.sendQ| ==> l.client.sendQ[i] < |l.client.sendMem|)
    && (forall i :: 0 <= i < |l.server.recvQ| ==> l.server.recvQ[i] < |l.server.recvMem|)
  }

  /** A client with `n` free buffers can post `n` requests without waiting. */
  lemma {:induction false} BurstLeaves<M>(l: Link<M>, n: nat, m: M)
    requires Sane(l) && l.clientReading.None? && n <= |l.client.free|
    ensures Feasible(l, Burst(n, CSend(m))) && Run(l, Burst(n, CSend(m))).Ok?
    ensures var t := Run(l, Burst(n, CSend(m))).value;
      Sane(t) && t.server == l.server && |t.client.sendQ| == |l.client.sendQ| + n
    decreases n
  {
    if n > 0 {
      BurstLeaves(Apply(l, CSend(m)).value, n - 1, m);
    }
  }

  /** One request more than the server has slots posted finds none. */
  lemma {:induction false} BurstArrives<M>(l: Link<M>, n: nat)
    requires Sane(l) && |l.client.sendQ| == n + 1 && |l.server.recvQ| == n
    ensures Feasible(l, Burst(n + 1, ToServer)) && Run(l, Burst(n + 1, ToServer)).Crash?
    decreases n
  {
    if n > 0 {
      BurstArrives(Apply(l, ToServer).value, n - 1);
    }
  }

  /** The bound is exact: with fewer buffers at the server there is a run in which a request finds no
      posted slot. */
  lemma FewerServerBuffersFail<M>(l: Link<M>, zero: M) returns (es: seq<Event<M>>)
    requires Init(l, zero) && l.ks < l.kc
    ensures Feasible(l, es) && Run(l, es).Crash?
  {
    var leave: seq<Event<M>> := Burst(l.ks + 1, CSend(zero));
    var arrive: seq<Event<M>> := Burst(l.ks + 1, ToServer);
    BurstLeaves(l, l.ks + 1, zero);
    BurstArrives(Run(l, leave).value, l.ks);
    RunCat(l, leave, arrive);
    es := leave + arrive;
  }

  /** A connection is safe exactly when the server has at least as many buffers as the client. */
  lemma SafeIffServerHasEnough<M(!new)>(l: Link<M>, zero: M)
    requires Init(l, zero)
    ensures (forall es: seq<Event<M>> :: Feasible(l, es) ==> Run(l, es).Ok?) <==> l.kc <= l.ks
  {
    if l.kc <= l.ks {
      forall es: seq<Event<M>> | Feasible(l, es)
        ensures Run(l, es).Ok?
      {
        CallbacksReadWhatWasSent(l, zero, es);
      }
    } else {
      var es := FewerServerBuffersFail(l, zero);
    }
  }
}
