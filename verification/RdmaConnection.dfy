/** The connection object that clients and servers hold (src/network/rdma/RdmaConnection.h). */
module RdmaConnections {
  import opened Base
  import opened Rdma

  class RdmaConnection<M> {
    var free: seq<nat>       // free_bufpairs_
    var sendMem: seq<M>
    var sendQ: seq<nat>
    var recvQ: seq<nat>
    var recvMem: seq<M>
    var cq: seq<nat>
    /** Every message posted so far, as it was when it was posted. */
    ghost var posted: seq<M>

    ghost function View(): End<M>
      reads this
    {
      End(free, sendMem, sendQ, recvQ, recvMem, cq)
    }

    constructor (memNum: nat, zero: M)
      ensures View() == NewEnd(memNum, zero).(recvQ := []) && posted == []
    {
      var ids: seq<nat> := [];
      for i := 0 to memNum
        invariant ids == Range(0, i)
      {
        ids := ids + [i];
      }
      free, sendQ, recvQ, cq, posted := ids, [], [], [], [];
      sendMem := seq(memNum, i => zero);
      recvMem := seq(memNum, i => zero);
    }

    /** Posts every receive slot, in order; `posts` is how many the adapter accepts before it refuses. */
    method FillRq(posts: nat) returns (ok: bool)
      modifies this`recvQ
      ensures ok <==> posts >= |recvMem|
      ensures recvQ == old(recvQ) + Range(0, if ok then |recvMem| else posts)
    {
      var n := |recvMem|;
      assert recvQ + Range(0, 0) == recvQ;
      for i := 0 to n
        invariant i <= posts && recvQ == old(recvQ) + Range(0, i)
      {
        if i == posts {
          return false;
        }
        PostRecv(i);
        assert Range(0, i + 1) == Range(0, i) + [i];
      }
      ok := true;
    }

    method PostRecv(id: nat)
      modifies this`recvQ
      ensures recvQ == old(recvQ) + [id]
    {
      recvQ := recvQ + [id];
    }

    /** The oldest free buffer, so that buffers rotate. */
    method AcquireFreeSendBuf() returns (id: Option<nat>)
      modifies this`free
      ensures id.None? <==> old(free) == []
      ensures id.Some? ==> id.value == old(free)[0] && free == old(free)[1..]
      ensures id.None? ==> free == []
    {
      if free != [] {
        id := Some(free[0]);
        free := free[1..];
      } else {
        id := None;
      }
    }

    method ReleaseSendBuf(id: nat)
      modifies this`free
      ensures free == old(free) + [id]
    {
      free := free + [id];
    }

    method IsFreeSendBufEmpty() returns (b: bool)
      ensures b <==> free == []
    {
      b := free == [];
    }

    /** Serialise `m` into buffer `id` and post it. */
    method Send(id: nat, m: M)
      requires id < |sendMem|
      modifies this`sendMem, this`sendQ, this`posted
      ensures Post(old(View()), id, m) == Ok(View()) && posted == old(posted) + [m]
    {
      sendMem := sendMem[id := m];
      sendQ := sendQ + [id];
      posted := posted + [m];
    }

    /** One turn of handleRead's loop for a completed receive: the slot is posted again before its
        contents are handed to the callback. */
    method NextCompletion() returns (m: M)
      requires cq != [] && cq[0] < |recvMem|
      modifies this`recvQ, this`cq
      ensures View() == Poll(old(View())) && m == recvMem[old(cq)[0]]
    {
      var id := cq[0];
      cq := cq[1..];
      PostRecv(id);
      m := recvMem[id];
    }
  }
}
