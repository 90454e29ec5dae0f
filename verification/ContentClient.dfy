/** The fetching side as objects: the DPU's ContentClient and the registry's ContentServer. */
module ContentClients {
  import opened Base
  import opened Segments
  import opened Fetch
  import opened RdmaConnections

  class ContentClient {
    const conn: RdmaConnection<Request>
    var hasConn: bool          // conn_ has been set
    var unsent: seq<Request>
    var inflight: seq<nat>
    /** What has been submitted to the decompress client. */
    var submitted: seq<Element>

    ghost function View(): Client
      reads this, conn
    {
      Client(hasConn, unsent, inflight, conn.free)
    }

    ghost predicate Valid()
      reads this, conn
    {
      Below(conn.free, |conn.sendMem|) && Below(inflight, |conn.sendMem|)
    }

    constructor (conn: RdmaConnection<Request>)
      requires Below(conn.free, |conn.sendMem|)
      ensures Valid() && this.conn == conn && View() == Client(false, [], [], conn.free) && submitted == []
    {
      this.conn := conn;
      hasConn, unsent, inflight, submitted := false, [], [], [];
    }

    method SendRequest()
      requires Valid() && unsent != [] && conn.free != []
      modifies this`unsent, this`inflight, conn
      ensures Valid() && |conn.sendMem| == old(|conn.sendMem|)
      ensures conn.free == old(conn.free)[1..] && inflight == old(inflight) + [old(conn.free)[0]]
      ensures unsent == old(unsent)[1..] && conn.posted == old(conn.posted) + [old(unsent)[0]]
    {
      var buf := conn.AcquireFreeSendBuf();
      var req := unsent[0];
      unsent := unsent[1..];
      conn.Send(buf.value, req);
      inflight := inflight + [buf.value];
    }

    method TrySendRequests()
      requires Valid()
      modifies this`unsent, this`inflight, conn
      ensures Valid() && View() == TrySend(old(View())).0
      ensures conn.posted == old(conn.posted) + TrySend(old(View())).1
    {
      if !hasConn {
        return;
      }
      ghost var u, f, n := unsent, conn.free, 0;
      var empty := conn.IsFreeSendBufEmpty();
      while unsent != [] && !empty
        invariant Valid() && n <= |u| && n <= |f| && (empty <==> conn.free == [])
        invariant unsent == u[n..] && conn.free == f[n..]
        invariant inflight == old(inflight) + f[..n] && conn.posted == old(conn.posted) + u[..n]
        decreases |unsent|
      {
        SendRequest();
        n := n + 1;
        empty := conn.IsFreeSendBufEmpty();
      }
    }

    method EnqueueRequest(req: Request)
      modifies this`unsent
      ensures unsent == old(unsent) + [req]
    {
      unsent := unsent + [req];
    }

    /** ContentFetcher::fetch on an existing client. */
    method FetchLayer(layer: string, image: string)
      requires Valid()
      modifies this`unsent, this`inflight, conn
      ensures Valid() && View() == Enqueue(old(View()), Request(image, layer, 0, 0)).0
      ensures conn.posted == old(conn.posted) + Enqueue(old(View()), Request(image, layer, 0, 0)).1
    {
      EnqueueRequest(Request(image, layer, 0, 0));
      TrySendRequests();
    }

    method OnConnected()
      requires Valid() && unsent != [] && conn.free != []
      modifies this`hasConn, this`unsent, this`inflight, conn
      ensures Valid() && View() == Fetch.OnConnected(old(View())).value.0
      ensures conn.posted == old(conn.posted) + Fetch.OnConnected(old(View())).value.1
    {
      hasConn := true;
      TrySendRequests();
    }

    /** Requests for the rest of the layer go to the front, last index first. */
    method QueueRest(r: Response)
      modifies this`unsent
      ensures unsent == Rest(r) + old(unsent)
      ensures r.index == 0 && r.total > 1 ==>
        forall j :: 1 <= j < r.total ==> unsent[j - 1] == Request(r.image, r.layer, j, r.total)
    {
      ghost var rest, u := Rest(r), unsent;
      if r.index == 0 && r.total > 1 {
        var i := r.total - 1;
        while i > 0
          invariant 0 <= i < r.total && unsent == rest[i..] + u
        {
          unsent := [Request(r.image, r.layer, i, r.total)] + unsent;
          assert rest[i - 1..] == [rest[i - 1]] + rest[i..];
          i := i - 1;
        }
        assert rest[0..] == rest;
      } else {
        assert rest + u == u;
      }
    }

    /** Segment 0 queues the rest of its layer in front, last index first. */
    method OnRecvSuccess(r: Response)
      requires Valid() && inflight != []
      modifies this, conn
      ensures Valid() && View() == OnRecv(old(View()), r).value.0
      ensures conn.posted == old(conn.posted) + OnRecv(old(View()), r).value.1
      ensures submitted == old(submitted) + [Received(r)]
      ensures conn.posted + unsent == old(conn.posted) + Rest(r) + old(unsent)
    {
      conn.ReleaseSendBuf(inflight[0]);
      inflight := inflight[1..];
      submitted := submitted + [Element(r.image, r.layer, r.index, r.total, r.data)];
      QueueRest(r);
      TrySendRequests();
    }
  }

  class ContentServer {
    const reg: Registry
    const conn: RdmaConnection<Option<Response>>

    constructor (reg: Registry, conn: RdmaConnection<Option<Response>>)
      ensures this.reg == reg && this.conn == conn
    {
      this.reg, this.conn := reg, conn;
    }

    /** The answer goes to the oldest free buffer, which is free again at once: the list rotates. */
    method OnRecvSuccess(q: Request)
      requires conn.free != [] && conn.free[0] < |conn.sendMem|
      modifies conn
      ensures Answer(reg, q).None? ==> conn.View() == old(conn.View()) && conn.posted == old(conn.posted)
      ensures Answer(reg, q).Some? ==>
        && conn.posted == old(conn.posted) + [Answer(reg, q)]
        && conn.free == old(conn.free)[1..] + [old(conn.free)[0]]
        && conn.sendQ == old(conn.sendQ) + [old(conn.free)[0]]
        && conn.sendMem == old(conn.sendMem)[old(conn.free)[0] := Answer(reg, q)]
        && conn.recvQ == old(conn.recvQ) && conn.recvMem == old(conn.recvMem) && conn.cq == old(conn.cq)
    {
      if q.layer !in reg || q.index >= |reg[q.layer]| {
        return;
      }
      var file := reg[q.layer][q.index];
      if file.size <= 0 {
        return;
      }
      var buf := conn.AcquireFreeSendBuf();
      conn.Send(buf.value, Some(Response(q.image, q.layer, q.index, |reg[q.layer]|, file)));
      conn.ReleaseSendBuf(buf.value);
    }
  }
}
