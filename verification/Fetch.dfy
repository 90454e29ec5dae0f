/** Fetching layers from the registry: the DPU's ContentClient, the ContentServer and the reliable
    connection between them.  A layer is asked for by its segment 0; the answer tells how many segments
    there are, and the rest are queued in front of everything that is still unsent. */
module Fetch {
  import opened Base
  import opened Segments

  datatype Request = Request(image: string, layer: string, index: nat, total: nat)

  datatype Response = Response(image: string, layer: string, index: nat, total: nat, data: Packed)

  datatype Client = Client(hasConn: bool, unsent: seq<Request>, inflight: seq<nat>, freeSend: seq<nat>)

  function Min(a: nat, b: nat): nat {
    if a <= b then a else b
  }

  /** trySendRequests: as many requests leave as there are free send buffers. */
  function TrySend(c: Client): (Client, seq<Request>) {
    if !c.hasConn then (c, [])
    else
      var n := Min(|c.unsent|, |c.freeSend|);
      (c.(unsent := c.unsent[n..], inflight := c.inflight + c.freeSend[..n], freeSend := c.freeSend[n..]),
       c.unsent[..n])
  }

  /** The requests that the answer to segment 0 gives rise to. */
  function Rest(r: Response): seq<Request> {
    if r.index == 0 && r.total > 1 then
      seq(r.total - 1, i requires 0 <= i => Request(r.image, r.layer, i + 1, r.total))
    else []
  }

  function Enqueue(c: Client, q: Request): (Client, seq<Request>) {
    TrySend(c.(unsent := c.unsent + [q]))
  }

  function OnConnected(c: Client): Outcome<(Client, seq<Request>)> {
    if c.unsent == [] || c.freeSend == [] then Crash else Ok(TrySend(c.(hasConn := true)))
  }

  function Received(r: Response): Element {
    Element(r.image, r.layer, r.index, r.total, r.data)
  }

  function OnRecv(c: Client, r: Response): Outcome<(Client, seq<Request>)> {
    if c.inflight == [] then Crash
    else Ok(TrySend(c.(freeSend := c.freeSend + [c.inflight[0]], inflight := c.inflight[1..],
                       unsent := Rest(r) + c.unsent)))
  }

  /** ContentServer::onRecvSuccess; an absent or empty segment file is answered by silence. */
  function Answer(reg: Registry, q: Request): Option<Response> {
    if q.layer in reg && q.index < |reg[q.layer]| && reg[q.layer][q.index].size > 0 then
      Some(Response(q.image, q.layer, q.index, |reg[q.layer]|, reg[q.layer][q.index]))
    else None
  }

  // ---------------------------------------------------------------- the closed system

  /** `asked` maps every layer fetched so far to its image; `out` is what has been handed to the
      decompress client, in order. */
  datatype Net = Net(
    reg: Registry,
    sends: nat,
    c: Client,
    toServer: seq<Request>,
    toClient: seq<Response>,
    asked: map<string, string>,
    out: seq<Element>)

  datatype Event = EAsk(layer: string, image: string) | EConnect | EServe | ERecv

  predicate Enabled(s: Net, e: Event) {
    match e
    case EAsk(l, _) => l in s.reg && l !in s.asked
    case EConnect => !s.c.hasConn && s.asked != map[]
    case EServe => s.toServer != []
    case ERecv => s.toClient != []
  }

  function Apply(s: Net, e: Event): Outcome<Net>
    requires Enabled(s, e)
  {
    match e
    case EAsk(l, image) =>
      var (c, sent) := Enqueue(s.c, Request(image, l, 0, 0));
      Ok(s.(c := c, toServer := s.toServer + sent, asked := s.asked[l := image]))
    case EConnect =>
      var (c, sent) :- OnConnected(s.c);
      Ok(s.(c := c, toServer := s.toServer + sent))
    case EServe =>
      var a := Answer(s.reg, s.toServer[0]);
      Ok(s.(toServer := s.toServer[1..],
            toClient := if a.Some? then s.toClient + [a.value] else s.toClient))
    case ERecv =>
      var r := s.toClient[0];
      var (c, sent) :- OnRecv(s.c, r);
      Ok(s.(c := c, toServer := s.toServer + sent, toClient := s.toClient[1..],
            out := s.out + [Received(r)]))
  }

  ghost predicate Init(s: Net) {
    && WellStocked(s.reg) && s.sends >= 1
    && s.c == Client(false, [], [], Range(0, s.sends))
    && s.toServer == [] && s.toClient == [] && s.asked == map[] && s.out == []
  }

  // ---------------------------------------------------------------- invariant

  function DueQ(reg: Registry, qs: seq<Request>): seq<Piece> {
    seq(|qs|, i requires 0 <= i < |qs| => PieceAt(reg, qs[i].image, qs[i].layer, qs[i].index))
  }

  function DueR(reg: Registry, rs: seq<Response>): seq<Piece> {
    seq(|rs|, i requires 0 <= i < |rs| => PieceAt(reg, rs[i].image, rs[i].layer, rs[i].index))
  }

  /** The pieces not handed over yet, in the order in which they will be. */
  function Due(s: Net): seq<Piece> {
    DueR(s.reg, s.toClient) + (DueQ(s.reg, s.toServer) + DueQ(s.reg, s.c.unsent))
  }

  ghost predicate GoodRequest(s: Net, q: Request) {
    q.layer in s.asked && q.image == s.asked[q.layer] && q.layer in s.reg && q.index < |s.reg[q.layer]|
  }

  ghost predicate GoodResponse(s: Net, r: Response) {
    && r.layer in s.asked && r.image == s.asked[r.layer] && r.layer in s.reg && r.index < |s.reg[r.layer]|
    && r.total == |s.reg[r.layer]| && r.data == s.reg[r.layer][r.index]
  }

  ghost predicate Contents(s: Net) {
    && WellStocked(s.reg)
    && (forall l :: l in s.asked ==> l in s.reg)
    && (forall q :: q in s.toServer ==> GoodRequest(s, q))
    && (forall q :: q in s.c.unsent ==> GoodRequest(s, q))
    && (forall r :: r in s.toClient ==> GoodResponse(s, r))
    && (forall e :: e in s.out ==> e.layer in s.reg && e.index < |s.reg[e.layer]| && e.data == s.reg[e.layer][e.index])
  }

  ghost predicate Credit(s: Net) {
    && s.sends >= 1
    && (forall b: nat :: Count(s.c.freeSend, b) + Count(s.c.inflight, b) == if b < s.sends then 1 else 0)
    && |s.c.inflight| == |s.toServer| + |s.toClient|
    && (!s.c.hasConn ==> s.c.inflight == [] && (s.asked != map[] ==> s.c.unsent != []))
  }

  ghost predicate Flow(s: Net) {
    s.c.hasConn && s.c.unsent != [] ==> s.c.freeSend == []
  }

  /** Of layer `l`, exactly its segments are handed over or due, in order; only segment 0 as long as
      it has not arrived. */
  ghost predicate LayerInOrder(reg: Registry, asked: map<string, string>, got: seq<Piece>, due: seq<Piece>, l: string) {
    got + due ==
      if l !in asked || l !in reg then []
      else if got == [] then Full(reg, asked[l], l)[..Min(1, |reg[l]|)]
      else Full(reg, asked[l], l)
  }

  ghost predicate InOrder(reg: Registry, asked: map<string, string>, out: seq<Piece>, due: seq<Piece>) {
    forall l :: LayerInOrder(reg, asked, Of(l, out), Of(l, due), l)
  }

  ghost predicate Core(s: Net) {
    Contents(s) && Credit(s) && InOrder(s.reg, s.asked, Unpacks(s.out), Due(s))
  }

  ghost predicate Inv(s: Net) {
    Core(s) && Flow(s)
  }

  // ---------------------------------------------------------------- weights

  /** An unanswered segment 0 stands for its whole layer, any other request for itself. */
  function WeightOf(p: Piece): nat {
    if p.index == 0 then p.total else 1
  }

  function Weight(ps: seq<Piece>): nat {
    if ps == [] then 0 else WeightOf(ps[0]) + Weight(ps[1..])
  }

  lemma {:induction false} WeightCat(a: seq<Piece>, b: seq<Piece>)
    ensures Weight(a + b) == Weight(a) + Weight(b)
  {
    if a == [] {
      assert a + b == b;
    } else {
      assert (a + b)[1..] == a[1..] + b;
      WeightCat(a[1..], b);
    }
  }

  lemma {:induction false} WeightAtLeast(ps: seq<Piece>)
    requires forall p :: p in ps ==> WeightOf(p) >= 1
    ensures Weight(ps) >= |ps|
  {
    if ps != [] {
      assert ps[0] in ps;
      WeightAtLeast(ps[1..]);
    }
  }

  lemma {:induction false} WeightOnes(ps: seq<Piece>)
    requires forall p :: p in ps ==> p.index > 0
    ensures Weight(ps) == |ps|
  {
    if ps != [] {
      assert ps[0] in ps;
      WeightOnes(ps[1..]);
    }
  }

  /** Work left: thirteen per segment still to arrive, less what its request has already done. */
  function Work(s: Net): int {
    13 * Weight(Due(s)) - |s.c.unsent| - 2 * |s.toServer| - 3 * |s.toClient| + (if s.c.hasConn then 0 else 1)
  }

  lemma WorkIsNat(s: Net)
    requires Contents(s)
    ensures Work(s) >= 0
  {
    var q, r, u := DueQ(s.reg, s.toServer), DueR(s.reg, s.toClient), DueQ(s.reg, s.c.unsent);
    assert forall i :: 0 <= i < |s.toServer| ==> s.toServer[i] in s.toServer;
    assert forall i :: 0 <= i < |s.toClient| ==> s.toClient[i] in s.toClient;
    assert forall i :: 0 <= i < |s.c.unsent| ==> s.c.unsent[i] in s.c.unsent;
    WeightAtLeast(q);
    WeightAtLeast(r);
    WeightAtLeast(u);
    WeightCat(r, q + u);
    WeightCat(q, u);
  }

  // ---------------------------------------------------------------- preservation

  lemma InitInv(s: Net)
    requires Init(s)
    ensures Inv(s)
  {
    forall b: nat
      ensures Count(s.c.freeSend, b) + Count(s.c.inflight, b) == if b < s.sends then 1 else 0
    {
      CountRange(s.sends, b);
    }
  }

  /** The system after trySendRequests. */
  function Flushed(s: Net): Net {
    var (c, sent) := TrySend(s.c);
    s.(c := c, toServer := s.toServer + sent)
  }

  lemma FlushedSplits(s: Net)
    ensures s.c.unsent == TrySend(s.c).1 + Flushed(s).c.unsent
    ensures Due(Flushed(s)) == Due(s)
    ensures Work(Flushed(s)) <= Work(s)
  {
    var (c, sent) := TrySend(s.c);
    assert s.c.unsent == sent + c.unsent;
    assert DueQ(s.reg, s.toServer + sent) == DueQ(s.reg, s.toServer) + DueQ(s.reg, sent);
    assert DueQ(s.reg, sent + c.unsent) == DueQ(s.reg, sent) + DueQ(s.reg, c.unsent);
    Regroup(DueR(s.reg, s.toClient), DueQ(s.reg, s.toServer), DueQ(s.reg, sent), DueQ(s.reg, c.unsent));
  }

  lemma FlushedCredit(s: Net)
    requires Credit(s)
    ensures Credit(Flushed(s)) && Flow(Flushed(s))
  {
    if s.c.hasConn {
      var (c, sent) := TrySend(s.c);
      var x := s.c.freeSend[..|sent|];
      assert s.c.freeSend == x + c.freeSend;
      forall b: nat
        ensures Count(c.freeSend, b) + Count(c.inflight, b) == Count(s.c.freeSend, b) + Count(s.c.inflight, b)
      {
        CountCat(x, c.freeSend, b);
        CountCat(s.c.inflight, x, b);
      }
    }
  }

  lemma FlushedContents(s: Net)
    requires Contents(s)
    ensures Contents(Flushed(s))
  {
    FlushedSplits(s);
    assert forall q :: q in TrySend(s.c).1 ==> q in s.c.unsent;
    assert forall q :: GoodRequest(s, q) ==> GoodRequest(Flushed(s), q);
    assert forall q :: GoodResponse(s, q) ==> GoodResponse(Flushed(s), q);
  }

  /** trySendRequests keeps the invariant and leaves no request waiting beside a free buffer. */
  lemma FlushedKeeps(s: Net)
    requires Core(s)
    ensures Inv(Flushed(s)) && Work(Flushed(s)) <= Work(s)
  {
    FlushedSplits(s);
    FlushedCredit(s);
    FlushedContents(s);
    hide Contents, Credit, Flow, Work, Due, InOrder;
  }

  /** The system after a request for a new layer has been queued. */
  function Asked(s: Net, l: string, image: string): Net {
    s.(c := s.c.(unsent := s.c.unsent + [Request(image, l, 0, 0)]), asked := s.asked[l := image])
  }

  lemma AskedDue(s: Net, l: string, image: string)
    requires l in s.reg && s.reg[l] != []
    ensures Due(Asked(s, l, image)) == Due(s) + [PieceAt(s.reg, image, l, 0)]
    ensures Work(Asked(s, l, image)) == Work(s) + 13 * |s.reg[l]| - 1
  {
    var q, p := Request(image, l, 0, 0), PieceAt(s.reg, image, l, 0);
    assert DueQ(s.reg, s.c.unsent + [q]) == DueQ(s.reg, s.c.unsent) + [p];
    RegroupEnd(DueR(s.reg, s.toClient), DueQ(s.reg, s.toServer), DueQ(s.reg, s.c.unsent), [p]);
    WeightCat(Due(s), [p]);
    assert Weight([p]) == |s.reg[l]|;
  }

  lemma AskedContents(s: Net, l: string, image: string)
    requires Contents(s) && l in s.reg && l !in s.asked
    ensures Contents(Asked(s, l, image))
  {
    var t := Asked(s, l, image);
    assert forall r :: GoodRequest(s, r) ==> GoodRequest(t, r);
    assert forall r :: GoodResponse(s, r) ==> GoodResponse(t, r);
  }

  lemma AskedInOrder(
      reg: Registry, asked: map<string, string>, out: seq<Piece>, due: seq<Piece>, l: string, image: string)
    requires InOrder(reg, asked, out, due) && l in reg && reg[l] != [] && l !in asked
    ensures InOrder(reg, asked[l := image], out, due + [PieceAt(reg, image, l, 0)])
  {
    var p := PieceAt(reg, image, l, 0);
    forall k
      ensures LayerInOrder(reg, asked[l := image], Of(k, out), Of(k, due + [p]), k)
    {
      assert LayerInOrder(reg, asked, Of(k, out), Of(k, due), k);
      OfCat(k, due, [p]);
      OfOne(k, [p], l);
      if k == l {
        assert Full(reg, image, l)[..1] == [p];
      }
    }
  }

  lemma AskedCore(s: Net, l: string, image: string)
    requires Core(s) && Enabled(s, EAsk(l, image))
    ensures Core(Asked(s, l, image)) && Work(Asked(s, l, image)) == Work(s) + 13 * |s.reg[l]| - 1
  {
    AskedContents(s, l, image);
    AskedInOrder(s.reg, s.asked, Unpacks(s.out), Due(s), l, image);
    assert s.reg[l] != [];
    hide Contents, InOrder, Due;
    AskedDue(s, l, image);
  }

  lemma ServedCore(s: Net)
    requires Core(s) && Enabled(s, EServe)
    ensures var t := Apply(s, EServe).value; Core(t) && Work(t) < Work(s)
  {
    var t, q := Apply(s, EServe).value, s.toServer[0];
    assert q in s.toServer;
    var p := [PieceAt(s.reg, q.image, q.layer, q.index)];
    assert DueQ(s.reg, s.toServer) == p + DueQ(s.reg, t.toServer);
    assert DueR(s.reg, t.toClient) == DueR(s.reg, s.toClient) + p;
    MoveBack(DueR(s.reg, s.toClient), p, DueQ(s.reg, t.toServer), DueQ(s.reg, s.c.unsent));
    assert Due(t) == Due(s);
    assert Contents(t) by {
      assert forall r :: GoodRequest(s, r) ==> GoodRequest(t, r);
      assert forall r :: GoodResponse(s, r) ==> GoodResponse(t, r);
    }
  }

  /** The system after an answer has been taken in, before new requests are sent. */
  function Taken(s: Net): Net
    requires s.toClient != [] && s.c.inflight != []
  {
    var r := s.toClient[0];
    s.(c := s.c.(freeSend := s.c.freeSend + [s.c.inflight[0]], inflight := s.c.inflight[1..],
                 unsent := Rest(r) + s.c.unsent),
       toClient := s.toClient[1..], out := s.out + [Received(r)])
  }

  lemma TakenContents(s: Net)
    requires Contents(s) && s.toClient != [] && s.c.inflight != []
    ensures Contents(Taken(s))
  {
    var t, r := Taken(s), s.toClient[0];
    assert r in s.toClient && GoodResponse(s, r);
    assert forall q :: q in Rest(r) ==> GoodRequest(t, q);
    assert forall q :: GoodRequest(s, q) ==> GoodRequest(t, q);
    assert forall q :: GoodResponse(s, q) ==> GoodResponse(t, q);
  }

  lemma TakenCredit(s: Net)
    requires Credit(s) && s.toClient != []
    ensures s.c.inflight != [] && Credit(Taken(s))
  {
    var c, x := Taken(s).c, [s.c.inflight[0]];
    assert s.c.inflight == x + c.inflight;
    forall b: nat
      ensures Count(c.freeSend, b) + Count(c.inflight, b) == Count(s.c.freeSend, b) + Count(s.c.inflight, b)
    {
      CountCat(x, c.inflight, b);
      CountCat(s.c.freeSend, x, b);
    }
  }

  /** What a good answer adds behind the wire: the rest of its layer if it is segment 0. */
  lemma RestDue(reg: Registry, r: Response)
    requires r.layer in reg && r.index < |reg[r.layer]| && r.total == |reg[r.layer]|
    ensures DueQ(reg, Rest(r)) == if r.index == 0 then Full(reg, r.image, r.layer)[1..] else []
    ensures Weight(DueQ(reg, Rest(r))) == if r.index == 0 then r.total - 1 else 0
  {
    WeightOnes(DueQ(reg, Rest(r)));
  }

  lemma TakenDue(s: Net)
    requires Contents(s) && s.toClient != [] && s.c.inflight != []
    ensures var r := s.toClient[0]; var p := [PieceAt(s.reg, r.image, r.layer, r.index)];
      exists d1, d2 ::
        && Due(s) == p + (d1 + d2)
        && Due(Taken(s)) == d1 + (DueQ(s.reg, Rest(r)) + d2)
        && Unpacks(Taken(s).out) == Unpacks(s.out) + p
  {
    var t, r := Taken(s), s.toClient[0];
    assert r in s.toClient && GoodResponse(s, r);
    var p := [PieceAt(s.reg, r.image, r.layer, r.index)];
    var x, y, z := DueR(s.reg, t.toClient), DueQ(s.reg, s.toServer), DueQ(s.reg, s.c.unsent);
    assert DueR(s.reg, s.toClient) == p + x;
    assert DueQ(s.reg, Rest(r) + s.c.unsent) == DueQ(s.reg, Rest(r)) + z;
    assert (p + x) + (y + z) == p + ((x + y) + z);
    assert x + (y + (DueQ(s.reg, Rest(r)) + z)) == (x + y) + (DueQ(s.reg, Rest(r)) + z);
    assert Unpacks(t.out) == Unpacks(s.out) + p;
  }

  /** The order argument for one layer, on bare sequences: `p` arrives next, `a` and `b` are due. */
  lemma NextArrives(full: seq<Piece>, got: seq<Piece>, p: Piece, a: seq<Piece>, b: seq<Piece>)
    requires full != [] && forall i :: 0 <= i < |full| ==> full[i].index == i
    requires got + ([p] + (a + b)) == if got == [] then full[..1] else full
    ensures p.index == |got|
    ensures (got + [p]) + (a + ((if p.index == 0 then full[1..] else []) + b)) == full
  {
    var all := got + ([p] + (a + b));
    assert all[|got|] == p;
    if got == [] {
      assert |a + b| == 0 && a == [] && b == [];
      assert full == [p] + full[1..];
    } else {
      assert all == (got + [p]) + (a + ([] + b));
    }
  }

  lemma OfTaken(k: string, out: seq<Piece>, p: seq<Piece>, d1: seq<Piece>, rest: seq<Piece>, d2: seq<Piece>)
    ensures Of(k, out + p) == Of(k, out) + Of(k, p)
    ensures Of(k, p + (d1 + d2)) == Of(k, p) + (Of(k, d1) + Of(k, d2))
    ensures Of(k, d1 + (rest + d2)) == Of(k, d1) + (Of(k, rest) + Of(k, d2))
  {
    OfCat(k, out, p);
    OfCat(k, p, d1 + d2);
    OfCat(k, d1, d2);
    OfCat(k, d1, rest + d2);
    OfCat(k, rest, d2);
  }

  lemma TakenOwnLayer(
      reg: Registry, asked: map<string, string>, r: Response, got: seq<Piece>, a: seq<Piece>, b: seq<Piece>)
    requires r.layer in asked && r.image == asked[r.layer] && r.layer in reg && r.index < |reg[r.layer]|
    requires LayerInOrder(reg, asked, got, [PieceAt(reg, r.image, r.layer, r.index)] + (a + b), r.layer)
    ensures var full := Full(reg, r.image, r.layer);
      LayerInOrder(reg, asked, got + [PieceAt(reg, r.image, r.layer, r.index)],
                   a + ((if r.index == 0 then full[1..] else []) + b), r.layer)
  {
    var full := Full(reg, r.image, r.layer);
    assert full[..Min(1, |reg[r.layer]|)] == full[..1];
    NextArrives(full, got, PieceAt(reg, r.image, r.layer, r.index), a, b);
  }

  lemma TakenLayer(reg: Registry, asked: map<string, string>, out: seq<Piece>, r: Response,
                   d1: seq<Piece>, d2: seq<Piece>, k: string)
    requires r.layer in asked && r.image == asked[r.layer] && r.layer in reg && r.index < |reg[r.layer]|
    requires r.total == |reg[r.layer]|
    requires var p := [PieceAt(reg, r.image, r.layer, r.index)];
      LayerInOrder(reg, asked, Of(k, out), Of(k, p + (d1 + d2)), k)
    ensures var p := [PieceAt(reg, r.image, r.layer, r.index)];
      LayerInOrder(reg, asked, Of(k, out + p), Of(k, d1 + (DueQ(reg, Rest(r)) + d2)), k)
  {
    hide Of, LayerInOrder, Full;
    var p, rest := PieceAt(reg, r.image, r.layer, r.index), DueQ(reg, Rest(r));
    OfOne(k, [p], r.layer);
    OfOne(k, rest, r.layer);
    RestDue(reg, r);
    hide DueQ, Rest, PieceAt;
    OfTaken(k, out, [p], d1, rest, d2);
    if k == r.layer {
      TakenOwnLayer(reg, asked, r, Of(k, out), Of(k, d1), Of(k, d2));
    } else {
      Untouched(Of(k, out), Of(k, d1), Of(k, d2));
    }
  }

  lemma Untouched(got: seq<Piece>, a: seq<Piece>, b: seq<Piece>)
    ensures got + [] == got && [] + (a + b) == a + ([] + b)
  {
  }

  lemma TakenCore(s: Net)
    requires Core(s) && s.toClient != [] && s.c.inflight != []
    ensures Core(Taken(s))
  {
    var t, r := Taken(s), s.toClient[0];
    assert r in s.toClient && GoodResponse(s, r);
    TakenContents(s);
    TakenCredit(s);
    TakenDue(s);
    var p := [PieceAt(s.reg, r.image, r.layer, r.index)];
    var d1, d2 :| Due(s) == p + (d1 + d2) && Due(t) == d1 + (DueQ(s.reg, Rest(r)) + d2);
    hide Contents, Credit, Due;
    forall k
      ensures LayerInOrder(t.reg, t.asked, Of(k, Unpacks(t.out)), Of(k, Due(t)), k)
    {
      assert LayerInOrder(s.reg, s.asked, Of(k, Unpacks(s.out)), Of(k, Due(s)), k);
      TakenLayer(s.reg, s.asked, Unpacks(s.out), r, d1, d2, k);
    }
  }

  /** Every answer takes exactly one unit of weight with it. */
  lemma TakenWeight(s: Net)
    requires Contents(s) && s.toClient != [] && s.c.inflight != []
    ensures Weight(Due(Taken(s))) == Weight(Due(s)) - 1
    ensures Work(Taken(s)) + 10 <= Work(s)
  {
    var r := s.toClient[0];
    assert r in s.toClient && GoodResponse(s, r);
    TakenDue(s);
    var p, rest := [PieceAt(s.reg, r.image, r.layer, r.index)], DueQ(s.reg, Rest(r));
    var d1, d2 :| Due(s) == p + (d1 + d2) && Due(Taken(s)) == d1 + (rest + d2);
    RestDue(s.reg, r);
    WeightCat(p, d1 + d2);
    WeightCat(d1, d2);
    WeightCat(d1, rest + d2);
    WeightCat(rest, d2);
    assert Weight(p) == WeightOf(p[0]);
  }

  // ---------------------------------------------------------------- the line of requests

  /** The requests that the server has not answered, in the order in which it will get them. */
  function Line(s: Net): seq<Request> {
    s.toServer + s.c.unsent
  }

  lemma FlushedLine(s: Net)
    ensures Line(Flushed(s)) == Line(s)
  {
  }

  /** Asking for a layer adds its segment 0 at the end of the line, the server takes from the front, and
      connecting changes nothing. */
  lemma LineMoves(s: Net, e: Event)
    requires Enabled(s, e) && Apply(s, e).Ok? && !e.ERecv?
    ensures Line(Apply(s, e).value) ==
      match e
      case EAsk(l, image) => Line(s) + [Request(image, l, 0, 0)]
      case EConnect => Line(s)
      case EServe => Line(s)[1..]
  {
    match e
    case EAsk(l, image) => FlushedLine(Asked(s, l, image));
    case EConnect => FlushedLine(s.(c := s.c.(hasConn := true)));
    case EServe =>
  }

  /** The answer to segment 0 of a layer of n segments puts the requests for 1, 2, .., n-1, in this order,
      behind what has been sent and in front of everything that waits; any other answer leaves the line
      alone. */
  lemma RestGoesFirst(s: Net)
    requires Enabled(s, ERecv) && Apply(s, ERecv).Ok?
    ensures var r, k, line := s.toClient[0], |s.toServer|, Line(Apply(s, ERecv).value);
      if r.index == 0 && r.total > 1 then
        && |line| == |Line(s)| + r.total - 1
        && line[..k] == s.toServer
        && (forall j :: 1 <= j < r.total ==> line[k + j - 1] == Request(r.image, r.layer, j, r.total))
        && line[k + r.total - 1..] == s.c.unsent
      else line == Line(s)
  {
    assert Apply(s, ERecv).value == Flushed(Taken(s));
    FlushedLine(Taken(s));
    var r := s.toClient[0];
    assert Line(Taken(s)) == s.toServer + (Rest(r) + s.c.unsent);
    assert |Rest(r)| == if r.index == 0 && r.total > 1 then r.total - 1 else 0;
    Between(s.toServer, Rest(r), s.c.unsent);
    assert forall i :: 0 <= i < |Rest(r)| ==> Rest(r)[i] == Request(r.image, r.layer, i + 1, r.total);
    hide Flushed, Taken, Rest, Apply;
  }

  lemma Between(a: seq<Request>, mid: seq<Request>, b: seq<Request>)
    ensures var line := a + (mid + b);
      && line[..|a|] == a && line[|a| + |mid|..] == b
      && (forall i :: 0 <= i < |mid| ==> line[|a| + i] == mid[i])
      && (mid == [] ==> line == a + b)
  {
  }

  // ---------------------------------------------------------------- whole runs

  lemma StepKeeps(s: Net, e: Event)
    requires Inv(s) && Enabled(s, e)
    ensures Apply(s, e).Ok? && Inv(Apply(s, e).value)
    ensures e.EAsk? ==> Work(Apply(s, e).value) <= Work(s) + 13 * |s.reg[e.layer]|
    ensures !e.EAsk? ==> Work(Apply(s, e).value) < Work(s)
    ensures e.ERecv? ==> Work(Apply(s, e).value) + 10 <= Work(s)
    ensures e.ERecv? ==> Apply(s, e).value.out == s.out + [Received(s.toClient[0])]
    ensures !e.ERecv? ==> Apply(s, e).value.out == s.out
    ensures Apply(s, e).value.reg == s.reg
    ensures Apply(s, e).value.asked == if e.EAsk? then s.asked[e.layer := e.image] else s.asked
  {
    match e
    case EAsk(l, image) =>
      AskedCore(s, l, image);
      hide Core, Work;
      FlushedKeeps(Asked(s, l, image));
      assert Apply(s, e).value == Flushed(Asked(s, l, image));
    case EConnect =>
      assert Count(s.c.freeSend, 0) + Count(s.c.inflight, 0) == 1;
      CountIn(s.c.freeSend, 0);
      var t := s.(c := s.c.(hasConn := true));
      ConnectedCore(s);
      assert Work(t) < Work(s);
      hide Core, Work;
      FlushedKeeps(t);
      assert Apply(s, e).value == Flushed(t);
    case EServe =>
      hide Core, Work;
      ServedCore(s);
    case ERecv =>
      TakenCredit(s);
      TakenCore(s);
      TakenWeight(s);
      hide Core, Work;
      FlushedKeeps(Taken(s));
      assert Apply(s, e).value == Flushed(Taken(s));
  }

  lemma ConnectedCore(s: Net)
    requires Core(s) && !s.c.hasConn
    ensures Core(s.(c := s.c.(hasConn := true)))
  {
    var t := s.(c := s.c.(hasConn := true));
    assert Due(t) == Due(s);
    assert forall r :: GoodRequest(s, r) ==> GoodRequest(t, r);
    assert forall r :: GoodResponse(s, r) ==> GoodResponse(t, r);
  }

  lemma QuietMeansNothingDue(s: Net)
    requires Inv(s) && s.asked != map[]
    requires !Enabled(s, EConnect) && !Enabled(s, EServe) && !Enabled(s, ERecv)
    ensures Due(s) == []
  {
    assert Count(s.c.freeSend, 0) + Count(s.c.inflight, 0) == 1;
    CountIn(s.c.freeSend, 0);
    assert s.c.unsent == [];
  }

  /** With nothing left to do, every layer asked for has arrived completely. */
  lemma QuietMeansFetched(s: Net, l: string)
    requires Inv(s) && l in s.asked
    requires !Enabled(s, EConnect) && !Enabled(s, EServe) && !Enabled(s, ERecv)
    ensures l in s.reg && Of(l, Unpacks(s.out)) == Full(s.reg, s.asked[l], l)
  {
    QuietMeansNothingDue(s);
    assert l in s.reg && s.reg[l] != [];
    hide Due, Contents, Credit, Flow;
    var got := Of(l, Unpacks(s.out));
    assert LayerInOrder(s.reg, s.asked, got, [], l);
    assert got + [] == got;
  }

  lemma ArrivesInOrder(s: Net, l: string)
    requires Inv(s)
    ensures l in s.asked ==> l in s.reg && Of(l, Unpacks(s.out)) <= Full(s.reg, s.asked[l], l)
    ensures l !in s.asked ==> Of(l, Unpacks(s.out)) == []
  {
    assert LayerInOrder(s.reg, s.asked, Of(l, Unpacks(s.out)), Of(l, Due(s)), l);
  }

  ghost predicate Feasible(s: Net, es: seq<Event>)
    decreases |es|
  {
    es != [] ==>
      Enabled(s, es[0]) && (Apply(s, es[0]).Ok? ==> Feasible(Apply(s, es[0]).value, es[1..]))
  }

  ghost function Run(s: Net, es: seq<Event>): Outcome<Net>
    requires Feasible(s, es)
    decreases |es|
  {
    if es == [] then Ok(s)
    else
      var t :- Apply(s, es[0]);
      Run(t, es[1..])
  }

  lemma {:induction false} RunKeeps(s: Net, es: seq<Event>)
    requires Inv(s) && Feasible(s, es)
    ensures Run(s, es).Ok? && Inv(Run(s, es).value) && Run(s, es).value.reg == s.reg
    decreases |es|
  {
    hide Inv, Apply, Work;
    if es != [] {
      StepKeeps(s, es[0]);
      RunKeeps(Apply(s, es[0]).value, es[1..]);
    }
  }

  /** For any interleaving of any number of distinct layers, each layer's segments arrive as
      0, 1, 2, .. with the registry's contents, although later requests overtake queued ones. */
  lemma EachLayerArrivesInOrder(s: Net, es: seq<Event>, l: string)
    requires Init(s) && Feasible(s, es)
    ensures Run(s, es).Ok?
    ensures var t := Run(s, es).value;
      if l in t.asked then l in s.reg && Of(l, Unpacks(t.out)) <= Full(s.reg, t.asked[l], l)
      else Of(l, Unpacks(t.out)) == []
  {
    InitInv(s);
    RunKeeps(s, es);
    ArrivesInOrder(Run(s, es).value, l);
  }

  /** The total weight of what is unanswered falls by exactly one with every answer. */
  lemma EveryAnswerWeighsOne(s: Net)
    requires Inv(s) && Enabled(s, ERecv)
    ensures Apply(s, ERecv).Ok? && Weight(Due(Apply(s, ERecv).value)) == Weight(Due(s)) - 1
  {
    TakenCredit(s);
    TakenWeight(s);
    FlushedSplits(Taken(s));
    assert Apply(s, ERecv).value == Flushed(Taken(s));
  }
}
