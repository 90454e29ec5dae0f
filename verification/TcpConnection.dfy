/** The TCP connection as the object it is, over two byte buffers. */
module TcpConnections {
  import opened Base
  import opened ByteBuffer
  import opened TcpStreams

  class TcpConnection {
    var state: State
    const input: Buffer
    const output: Buffer
    var writing: bool
    const mark: nat
    var tasks: seq<Task>
    var shut: bool
    var broken: bool
    ghost var accepted: Bytes
    ghost var wire: Bytes
    ghost var lost: Bytes
    ghost var dropped: Bytes
    var calls: seq<Callback>

    ghost predicate Owns()
      reads this, input, output
    {
      input != output && input.Valid() && output.Valid() && input.buf != output.buf
    }

    ghost function View(): Conn
      requires Owns()
      reads this, input, output, output.buf
    {
      Conn(state, output.Contents(), writing, mark, tasks, shut, broken, accepted, wire, lost, dropped, calls)
    }

    ghost predicate Valid()
      reads this, input, output, output.buf
    {
      Owns() && Inv(View())
    }

    constructor (mark: nat)
      ensures Valid() && View() == NewConn(mark) && input.Contents() == []
      ensures fresh(input) && fresh(output) && fresh(input.buf) && fresh(output.buf)
    {
      input := new Buffer(INITIAL_SIZE);
      output := new Buffer(INITIAL_SIZE);
      this.mark := mark;
      state, writing, tasks, shut, broken, calls := Connecting, false, [], false, false, [];
      accepted, wire, lost, dropped := [], [], [], [];
    }

    /** `rest` is kept for later. */
    method KeepForLater(rest: Bytes)
      requires Owns() && rest != []
      modifies this`writing, this`calls, output, output.buf
      ensures Owns() && View() == Keep(old(View()), rest)
      ensures fresh(output.buf) || output.buf == old(output.buf)
    {
      var oldLen := output.Readable();
      if oldLen + |rest| >= mark && oldLen < mark {
        calls := calls + [HighWater(oldLen + |rest|)];
      }
      output.Append(rest);
      if !writing {
        writing := true;
      }
    }

    /** Nothing is waiting, so write(2) is called at once and answers `w`. */
    method WriteDirectly(m: Bytes, w: Write) returns (nwrote: nat, faultError: bool)
      requires Owns() && Allows(View(), |m|, w)
      modifies this`wire, this`calls, this`broken, this`lost
      ensures Owns() && nwrote == Taken(w) && (faultError <==> w.Fatal?)
      ensures View() == old(View()).(
        wire := old(wire) + m[..Taken(w)], broken := old(broken) || w.Fatal?,
        lost := if w.Fatal? then old(lost) + m else old(lost),
        calls := old(calls) + if w == Wrote(|m|) then [WriteComplete] else [])
    {
      nwrote, faultError := 0, false;
      match w {
        case Wrote(n) =>
          nwrote := n;
          wire := wire + m[..n];
          if nwrote == |m| {
            calls := calls + [WriteComplete];
          }
        case Fatal =>
          faultError := true;
          broken := true;
          lost := lost + m;
        case _ =>
      }
    }

    /** `w` is what write(2) answers if it is called. */
    method SendInLoop(m: Bytes, w: Write)
      requires Valid() && state != Connecting && Allows(View(), |m|, w)
      modifies this, output, output.buf
      ensures Valid() && View() == TcpStreams.SendInLoop(old(View()), m, w)
      ensures fresh(output.buf) || output.buf == old(output.buf)
    {
      hide Inv;
      SendKeeps(View(), m, w);
      if state == Disconnected {
        dropped := dropped + m;
        return;
      }
      var nwrote, faultError := 0, false;
      accepted := accepted + m;
      if !writing && output.Readable() == 0 {
        nwrote, faultError := WriteDirectly(m, w);
      }
      if !faultError && nwrote < |m| {
        assert m[0..] == m;
        KeepForLater(m[nwrote..]);
      }
    }

    method Send(m: Bytes, inLoopThread: bool, w: Write)
      requires Valid() && Allows(View(), |m|, w)
      modifies this, output, output.buf
      ensures Valid() && Apply(old(View()), ESend(inLoopThread, m, w)) == Ok(View())
      ensures old(state) == Connected && inLoopThread ==> accepted == old(accepted) + m
      ensures old(state) == Connected && !inLoopThread ==> tasks == old(tasks) + [TSend(m)]
    {
      StepKeeps(View(), ESend(inLoopThread, m, w));
      if state == Connected {
        if inLoopThread {
          SendInLoop(m, w);
        } else {
          tasks := tasks + [TSend(m)];
        }
      }
    }

    method ShutdownInLoop()
      requires Owns()
      modifies this`shut
      ensures Owns() && View() == TcpStreams.ShutdownInLoop(old(View()))
    {
      if !writing {
        shut := true;
      }
    }

    method Shutdown(inLoopThread: bool)
      requires Valid()
      modifies this
      ensures Valid() && Apply(old(View()), EShutdown(inLoopThread)) == Ok(View())
    {
      StepKeeps(View(), EShutdown(inLoopThread));
      if state == Connected {
        state := Disconnecting;
        if inLoopThread {
          ShutdownInLoop();
        } else {
          tasks := tasks + [TShutdown];
        }
      }
    }

    /** write(2) has taken the first n bytes of the output buffer. */
    method Written(n: nat)
      requires Owns() && writing && 0 < n <= output.Readable() && !shut && !broken
      modifies this`wire, this`writing, this`calls, this`shut, output`reader, output`writer
      ensures Owns() && View() == TcpStreams.HandleWrite(old(View()), Wrote(n))
    {
      wire := wire + output.Contents()[..n];
      output.Retrieve(n);
      if output.Readable() == 0 {
        assert output.Contents() == [];
        writing := false;
        calls := calls + [WriteComplete];
        if state == Disconnecting {
          ShutdownInLoop();
        }
      }
    }

    method HandleWrite(w: Write)
      requires Valid() && Allows(View(), output.Readable(), w)
      modifies this, output
      ensures Valid() && View() == TcpStreams.HandleWrite(old(View()), w)
    {
      WriteKeeps(View(), w);
      hide Inv;
      if writing {
        if w.Wrote? && w.n > 0 {
          Written(w.n);
        } else {
          broken := broken || w.Fatal?;
        }
      }
    }

    method HandleClose()
      requires Valid() && (state == Connected || state == Disconnecting)
      modifies this
      ensures Valid() && TcpStreams.HandleClose(old(View())) == Ok(View()) && state == Disconnected
    {
      StepKeeps(View(), EPeerClosed);
      state := Disconnected;
      writing := false;
    }

    /** readFd has got `got`; the flag says whether the message callback is called. */
    method HandleRead(got: Option<Bytes>) returns (message: bool)
      requires Valid() && (state == Connected || state == Disconnecting)
      requires got.Some? ==> |got.value| <= input.ReadLimit()
      modifies this, input, input.buf
      ensures Valid() && (message <==> got.Some? && got.value != [])
      ensures input.Contents() == old(input.Contents()) + (if got.Some? then got.value else [])
      ensures if got == Some([]) then TcpStreams.HandleClose(old(View())) == Ok(View()) else View() == old(View())
    {
      var n := input.ReadFd(got);
      message := n > 0;
      if n == 0 {
        HandleClose();
      }
    }
  }
}
