/** The connector object of one side, reading from the TCP connection's input buffer. */
module RdmaConnectors {
  import opened Base
  import opened ByteBuffer
  import opened Handshake
  import opened RdmaConnections

  /** What the connector needs of a TCP connection: it sends on it and shuts it down. */
  class Tcp {
    var sent: Bytes
    var shut: bool

    constructor ()
      ensures sent == [] && !shut
    {
      sent, shut := [], false;
    }

    method Send(data: Bytes)
      modifies this`sent
      ensures sent == old(sent) + data
    {
      sent := sent + data;
    }

    method Shutdown()
      modifies this`shut
      ensures shut
    {
      shut := true;
    }
  }

  /** Where connectQp fails, if it does: the two changes of the queue pair's state, or a receive that the
      adapter refuses after `posts` others. */
  datatype Fault = NoFault | AtRtr | AtFill(posts: nat) | AtRts

  class RdmaConnector {
    var state: State
    const info: Info
    const connection: RdmaConnection<Bytes>
    var remote: Option<Bytes>
    var installed: bool
    var calls: nat

    /** This connector, its connection and its buffer as one side of the protocol. */
    ghost function View(conn: Tcp, buffer: Buffer): Side
      requires buffer.Valid()
      reads this, connection, conn, buffer, buffer.buf
    {
      Side(state, |connection.recvMem|, info, buffer.Contents(), remote, |connection.recvQ|, installed, calls,
           conn.shut, false)
    }

    constructor (connection: RdmaConnection<Bytes>, info: Info)
      ensures state == NotInit && this.connection == connection && this.info == info
      ensures remote == None && !installed && calls == 0
    {
      this.connection, this.info := connection, info;
      state, remote, installed, calls := NotInit, None, false, 0;
    }

    method InitialRdmaResource(conn: Tcp)
      requires state == NotInit
      modifies this`state, conn`sent
      ensures state == Init && conn.sent == old(conn.sent) + info
    {
      conn.Send(info);
      state := Init;
    }

    /** The queue pair leads to the other side's, with every receive posted in order; or it leads nowhere,
        with some of them posted. */
    method ConnectQp(other: Bytes, fault: Fault) returns (ok: bool)
      requires fault.AtFill? ==> fault.posts < |connection.recvMem|
      modifies this`remote, connection`recvQ
      ensures ok <==> fault.NoFault?
      ensures ok ==> remote == Some(other)
      ensures ok ==> connection.recvQ == old(connection.recvQ) + Range(0, |connection.recvMem|)
      ensures !ok ==> remote == old(remote) && old(connection.recvQ) <= connection.recvQ
    {
      if fault.AtRtr? {
        return false;
      }
      ok := connection.FillRq(if fault.AtFill? then fault.posts else |connection.recvMem|);
      if !ok || fault.AtRts? {
        return false;
      }
      remote := Some(other);
    }

    /** The first half of handshakeQp.  If connectQp fails the TCP connection is shut down, nothing is
        sent, and the side stays where it was. */
    method TakeDescription(conn: Tcp, buffer: Buffer, fault: Fault) returns (ok: bool)
      requires buffer.Valid() && !conn.shut && (state == Init ==> connection.recvQ == [])
      requires fault.AtFill? ==> fault.posts < |connection.recvMem|
      modifies this, connection`recvQ, conn, buffer`reader, buffer`writer
      ensures buffer.Valid()
      ensures ok <==> fault.NoFault? || old(state) != Init || old(buffer.Readable()) < INFO_LEN
      ensures ok ==> !conn.shut && View(conn, buffer) == old(TakeInfo(View(conn, buffer))).0
      ensures ok ==> conn.sent == old(conn.sent) + old(TakeInfo(View(conn, buffer))).1
      ensures !ok ==> conn.shut && conn.sent == old(conn.sent) && state == Init && remote == old(remote)
      ensures !ok ==> installed == old(installed) && calls == old(calls)
    {
      ok := true;
      if state == Init && buffer.Readable() >= INFO_LEN {
        var other := buffer.Peek(INFO_LEN);
        buffer.Retrieve(INFO_LEN);
        ok := ConnectQp(other, fault);
        if !ok {
          conn.Shutdown();
          return;
        }
        state := RTS;
        installed := true;
        conn.Send([COMPLETE]);
      }
    }

    /** The second half, with the assertion. */
    method TakeByte(conn: Tcp, buffer: Buffer)
      requires buffer.Valid() && !conn.shut && state == RTS && TakeComplete(View(conn, buffer)).Ok?
      modifies this`state, this`calls, conn`shut, buffer`reader, buffer`writer
      ensures buffer.Valid() && Ok(View(conn, buffer)) == old(TakeComplete(View(conn, buffer)))
    {
      if buffer.Readable() >= 1 {
        var b := buffer.Peek(1);
        assert b[0] == COMPLETE;
        buffer.Retrieve(1);
        state := Connected;
        calls := calls + 1;
        conn.Shutdown();
      }
    }

    /** onTcpMessage: the bytes have arrived in the buffer.  If OnMessage does not fail for this side, the
        assertion holds, and side and stream change as it says, unless connectQp fails: then the connected
        callback is not called, now or later. */
    method OnTcpMessage(conn: Tcp, buffer: Buffer, fault: Fault)
      requires buffer.Valid() && OnMessage(View(conn, buffer), []).Ok? && (state == Init ==> connection.recvQ == [])
      requires fault.AtFill? ==> fault.posts < |connection.recvMem|
      modifies this, connection`recvQ, conn, buffer`reader, buffer`writer
      ensures buffer.Valid()
      ensures fault.NoFault? ==> old(OnMessage(View(conn, buffer), [])).value.0 == View(conn, buffer)
      ensures fault.NoFault? ==> conn.sent == old(conn.sent) + old(OnMessage(View(conn, buffer), [])).value.1
      ensures !fault.NoFault? && old(state) == Init && !old(conn.shut) ==>
        conn.sent == old(conn.sent) && calls == old(calls) && state == Init
      ensures !fault.NoFault? && old(state) == Init && old(buffer.Readable()) >= INFO_LEN ==> conn.shut
    {
      ghost var s := View(conn, buffer);
      assert s.(input := s.input + []) == s;
      if conn.shut {
        return;
      }
      hide TakeInfo, TakeComplete;
      var ok := TakeDescription(conn, buffer, fault);
      if ok {
        if state == RTS {
          TakeByte(conn, buffer);
        }
      }
    }
  }
}
