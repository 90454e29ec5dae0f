/** The host side as objects: the decompress server, which copies inflated segments out of the memory
    the DPU writes into, and the untar engine it feeds. */
module DecompressServers {
  import opened Base
  import opened Segments
  import opened Decompress
  import opened RdmaConnections
  import Untar

  class UntarEngine {
    const threads: nat
    var tasks: seq<Untar.Task>
    var table: map<string, nat>
    var adding: Option<nat>
    var reports: seq<Untar.Report>
    var given: seq<Piece>

    ghost function View(): Untar.Engine
      reads this
    {
      Untar.Engine(threads, tasks, table, adding, reports, given)
    }

    constructor (threads: nat)
      ensures View() == Untar.Engine(threads, [], map[], None, [], [])
    {
      this.threads := threads;
      tasks, table, adding, reports, given := [], map[], None, [], [];
    }

    /** Routing up to the moment at which the new queue still has to be entered into the table. */
    method UntarPiece(data: Piece)
      requires Untar.Give(View(), data).Ok?
      modifies this
      ensures View() == Untar.Give(old(View()), data).value
    {
      given := given + [data];
      if data.layer !in table {
        adding := Some(|tasks|);
        tasks := tasks + [Untar.Task(data.layer, data.image, [data], [], Untar.Running)];
      } else {
        var id := table[data.layer];
        tasks := tasks[id := tasks[id].(queue := tasks[id].queue + [data])];
      }
    }

    method Emplace()
      requires Untar.Enabled(View(), Untar.EEmplace) && adding.value < |tasks|
      modifies this`table, this`adding
      ensures View() == Untar.Apply(old(View()), Untar.EEmplace).value
    {
      var layer := tasks[adding.value].layer;
      if layer !in table {
        table := table[layer := adding.value];
      }
      adding := None;
    }

    /** One turn of a worker's loop; `status` is the exit status of tar when the worker closes it. */
    method WorkerRound(id: nat, status: int) returns (more: bool)
      requires Untar.Enabled(View(), Untar.EWork(id, status))
      modifies this`tasks, this`table, this`reports
      ensures View() == Untar.Apply(old(View()), Untar.EWork(id, status)).value
      ensures more <==> tasks[id].status == Untar.Running
    {
      var t := tasks[id];
      var data := t.queue[0];
      t := t.(queue := t.queue[1..], written := t.written + data.bytes);
      if |data.bytes| == 0 {
        tasks := tasks[id := t.(status := Untar.Failed)];
        reports := reports + [Untar.Report(t.layer, t.image, false)];
        more := false;
      } else if data.index == data.total - 1 {
        tasks := tasks[id := t.(status := Untar.Done)];
        table := table - {t.layer};
        reports := reports + [Untar.Report(t.layer, t.image, status == 0)];
        more := false;
      } else {
        tasks := tasks[id := t];
        more := true;
      }
    }
  }

  class DecompressServer {
    const conn: RdmaConnection<ToDpu>
    const untar: UntarEngine
    /** The host memory that the DPU's engine writes into, one buffer per pair. */
    var dst: seq<Bytes>

    constructor (conn: RdmaConnection<ToDpu>, untar: UntarEngine, dst: seq<Bytes>)
      ensures this.conn == conn && this.untar == untar && this.dst == dst
    {
      this.conn, this.untar, this.dst := conn, untar, dst;
    }

    /** Acquire, post, release: the buffer is free again before the message has left. */
    method Reply(m: ToDpu)
      requires conn.free != [] && conn.free[0] < |conn.sendMem|
      modifies conn
      ensures conn.posted == old(conn.posted) + [m]
      ensures conn.free == old(conn.free)[1..] + [old(conn.free)[0]] && |conn.sendMem| == old(|conn.sendMem|)
    {
      var buf := conn.AcquireFreeSendBuf();
      conn.Send(buf.value, m);
      conn.ReleaseSendBuf(buf.value);
    }

    method HandleMmapInfoRequest(num: nat)
      requires num == |dst| && conn.free != [] && conn.free[0] < |conn.sendMem|
      modifies conn
      ensures conn.posted == old(conn.posted) + [MmapResponse(|dst|)]
    {
      Reply(MmapResponse(|dst|));
    }

    /** The data is copied before the acknowledgement is sent, and untarred after it. */
    method HandleDecompressFinishRequest(i: Info)
      requires i.pair < |dst| && i.size <= |dst[i.pair]|
      requires conn.free != [] && conn.free[0] < |conn.sendMem|
      requires Untar.Give(untar.View(), Copy(i, dst)).Ok?
      modifies conn, untar
      ensures conn.posted == old(conn.posted) + [Ack(i.layer, i.index, i.pair)]
      ensures untar.View() == Untar.Give(old(untar.View()), Copy(i, dst)).value
    {
      var data := dst[i.pair][..i.size];
      Reply(Ack(i.layer, i.index, i.pair));
      untar.UntarPiece(Piece(i.image, i.layer, i.index, i.total, data));
    }

    /** What one message of the stage's `HostRecv` makes the host do. */
    method OnRecvSuccess(m: ToHost, ghost s: Stage)
      requires s.dst == dst && s.toHost != [] && s.toHost[0] == m && HostRecv(s).Ok?
      requires conn.free != [] && conn.free[0] < |conn.sendMem|
      requires m.Finish? ==> Untar.Give(untar.View(), Copy(m.info, dst)).Ok?
      modifies conn, untar
      ensures old(conn.posted) <= conn.posted
      ensures s.toDpu + conn.posted[|old(conn.posted)|..] == HostRecv(s).value.toDpu
      ensures m.MmapRequest? ==> untar.View() == old(untar.View())
      ensures m.Finish? ==>
        && HostRecv(s).value.delivered == s.delivered + [Copy(m.info, dst)]
        && untar.View() == Untar.Give(old(untar.View()), Copy(m.info, dst)).value
    {
      match m {
        case MmapRequest(num) => HandleMmapInfoRequest(num);
        case Finish(i) => HandleDecompressFinishRequest(i);
      }
    }
  }
}
