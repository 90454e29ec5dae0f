/** The DPU's decompress client and its inflate engine as the objects they are.  `View` is the state
    that module Decompress reasons about; every callback is shown to do what the function of the same
    name there says. */
module DecompressClients {
  import opened Base
  import opened Segments
  import opened Decompress
  import opened RdmaConnections

  class CompressEngine {
    var freePairs: seq<nat>
    var engineBusy: bool
    var ongoing: nat
    var src: seq<Packed>
    const srcCap: nat

    constructor (pairs: nat, srcCap: nat)
      ensures freePairs == Range(0, pairs) && !engineBusy && ongoing == 0
      ensures src == seq(pairs, i => Packed([], 0)) && this.srcCap == srcCap
    {
      var ids: seq<nat> := [];
      for i := 0 to pairs
        invariant ids == Range(0, i)
      {
        ids := ids + [i];
      }
      freePairs, engineBusy, ongoing := ids, false, 0;
      src := seq(pairs, i => Packed([], 0));
      this.srcCap := srcCap;
    }

    /** The pair released last. */
    method AcquireFreeBufpair() returns (id: Option<nat>)
      modifies this`freePairs
      ensures id.None? <==> old(freePairs) == []
      ensures id.Some? ==> old(freePairs) == freePairs + [id.value]
      ensures id.None? ==> freePairs == []
    {
      if freePairs != [] {
        id := Some(Last(freePairs));
        freePairs := ButLast(freePairs);
      } else {
        id := None;
      }
    }

    method ReleaseFreeBufpair(id: nat)
      requires id < |src|
      modifies this`freePairs
      ensures freePairs == old(freePairs) + [id]
    {
      freePairs := freePairs + [id];
    }

    method StartJob(pair: nat)
      requires !engineBusy && pair < |src|
      modifies this`engineBusy, this`ongoing
      ensures engineBusy && ongoing == pair
    {
      ongoing := pair;
      engineBusy := true;
    }
  }

  class DecompressClient {
    const engine: CompressEngine
    const conn: RdmaConnection<ToHost>
    var hasConn: bool        // conn_ has been set
    var connected: bool
    var busy: bool
    var job: Job
    var pendingJobs: seq<Element>
    var pendingSends: seq<Info>
    var inflight: seq<nat>

    ghost function View(): Client
      reads this, engine, conn
    {
      Client(hasConn, connected, busy, job, pendingJobs, pendingSends, inflight, conn.free,
             engine.freePairs, engine.engineBusy, engine.ongoing, engine.src, engine.srcCap)
    }

    /** Send buffer ids are real. */
    ghost predicate Valid()
      reads this, conn
    {
      Below(conn.free, |conn.sendMem|) && Below(inflight, |conn.sendMem|)
    }

    constructor (engine: CompressEngine, conn: RdmaConnection<ToHost>)
      requires Below(conn.free, |conn.sendMem|)
      ensures Valid() && this.engine == engine && this.conn == conn
      ensures View() == Client(false, false, false, Job("", "", 0, 0, 0), [], [], [], conn.free,
                               engine.freePairs, engine.engineBusy, engine.ongoing, engine.src, engine.srcCap)
    {
      this.engine, this.conn := engine, conn;
      hasConn, connected, busy, job := false, false, false, Job("", "", 0, 0, 0);
      pendingJobs, pendingSends, inflight := [], [], [];
    }

    method StartDecompressJob(task: Element, pair: nat)
      requires Valid() && StartJob(View(), task, pair).Ok?
      modifies this`job, this`busy, engine`src, engine`engineBusy, engine`ongoing
      ensures Valid() && View() == StartJob(old(View()), task, pair).value
    {
      job := Job(task.image, task.layer, task.total, task.index, pair);
      engine.src := engine.src[pair := task.data];
      engine.StartJob(pair);
      busy := true;
    }

    method TryStartDecompressJob()
      requires Valid() && TryStart(View()).Ok?
      modifies this`job, this`busy, this`pendingJobs, engine
      ensures Valid() && View() == TryStart(old(View())).value
    {
      if pendingJobs == [] {
        return;
      }
      var pair := engine.AcquireFreeBufpair();
      if pair.None? {
        return;
      }
      StartDecompressJob(pendingJobs[0], pair.value);
      pendingJobs := pendingJobs[1..];
    }

    method SubmitDecompressTask(content: Element)
      requires Valid() && Submit(View(), content).Ok?
      modifies this`job, this`busy, this`pendingJobs, engine
      ensures Valid() && View() == Submit(old(View()), content).value
    {
      pendingJobs := pendingJobs + [content];
      if connected && !busy {
        TryStartDecompressJob();
      }
    }

    method OnConnected()
      requires Valid() && Decompress.OnConnected(View()).Ok?
      modifies this`hasConn, this`inflight, conn
      ensures Valid() && View() == Decompress.OnConnected(old(View())).value.0
      ensures conn.posted == old(conn.posted) + Decompress.OnConnected(old(View())).value.1
    {
      hasConn := true;
      var buf := conn.AcquireFreeSendBuf();
      inflight := inflight + [buf.value];
      conn.Send(buf.value, MmapRequest(|engine.src|));
    }

    method SendDecompressFinishRequest(info: Info, buf: nat)
      requires Valid() && buf < |conn.sendMem|
      modifies this`inflight, conn`sendMem, conn`sendQ, conn`posted
      ensures Valid() && View() == SendFinish(old(View()), info, buf).0
      ensures conn.posted == old(conn.posted) + SendFinish(old(View()), info, buf).1
    {
      inflight := inflight + [buf];
      conn.Send(buf, Finish(info));
    }

    /** The engine's completion handler clears its busy flag and calls onDecompressTaskSuccess. */
    method OnDecompressTaskSuccess(len: nat)
      requires Valid() && OnJobDone(View(), len).Ok?
      modifies this`job, this`busy, this`pendingJobs, this`pendingSends, this`inflight, engine, conn
      ensures Valid() && View() == OnJobDone(old(View()), len).value.0
      ensures conn.posted == old(conn.posted) + OnJobDone(old(View()), len).value.1
    {
      engine.engineBusy := false;
      var info := Info(job.image, job.layer, job.total, job.index, len, job.pair);
      var buf := conn.AcquireFreeSendBuf();
      if buf.Some? {
        SendDecompressFinishRequest(info, buf.value);
      } else {
        pendingSends := pendingSends + [info];
      }
      busy := false;
      TryStartDecompressJob();
    }

    method HandleDecompressFinishResponse(pair: nat)
      requires Valid() && OnFinishResponse(View(), pair).Ok?
      modifies this`job, this`busy, this`pendingJobs, this`pendingSends, this`inflight, engine, conn
      ensures Valid() && View() == OnFinishResponse(old(View()), pair).value.0
      ensures conn.posted == old(conn.posted) + OnFinishResponse(old(View()), pair).value.1
    {
      if pendingSends != [] {
        var buf := conn.AcquireFreeSendBuf();
        var info := pendingSends[0];
        pendingSends := pendingSends[1..];
        SendDecompressFinishRequest(info, buf.value);
      }
      engine.ReleaseFreeBufpair(pair);
      if !busy {
        TryStartDecompressJob();
      }
    }

    method HandleMmapInfoResponse()
      requires Valid() && TryStart(View().(connected := true)).Ok?
      modifies this`job, this`busy, this`pendingJobs, this`connected, engine
      ensures Valid() && View() == TryStart(old(View()).(connected := true)).value
    {
      connected := true;
      TryStartDecompressJob();
    }

    method OnRecvSuccess(m: ToDpu)
      requires Valid() && OnRecv(View(), m).Ok?
      modifies this, engine, conn
      ensures Valid() && View() == OnRecv(old(View()), m).value.0
      ensures conn.posted == old(conn.posted) + OnRecv(old(View()), m).value.1
    {
      conn.ReleaseSendBuf(inflight[0]);
      inflight := inflight[1..];
      match m {
        case MmapResponse(_) => HandleMmapInfoResponse();
        case Ack(_, _, pair) => HandleDecompressFinishResponse(pair);
      }
    }
  }
}
