/** The sending half of a TCP connection (src/network/tcp/TcpConnection.cc): what the program asks to send is
    written at once, kept in the output buffer, or given up, and the write side is shut down in the end. */
module TcpStreams {
  import opened Base

  datatype State = Connecting | Connected | Disconnecting | Disconnected

  /** What write(2) does.  `Fatal` is EPIPE or ECONNRESET, `Failed` any other error. */
  datatype Write = Wrote(n: nat) | WouldBlock | Failed | Fatal

  /** Calls that another thread has handed to the loop. */
  datatype Task = TSend(m: Bytes) | TShutdown | TForceClose

  datatype Callback = WriteComplete | HighWater(size: nat)

  /** `shut` and `broken` belong to the kernel: the write side is closed, or a write has failed for good.
      The rest is history: `accepted` are the bytes given to sendInLoop of a connection that is not
      disconnected, `wire` those the kernel took, `lost` those given up after a fatal error, `dropped`
      those given to sendInLoop of a disconnected connection.  `calls` are the callbacks queued. */
  datatype Conn = Conn(
    state: State, out: Bytes, writing: bool, mark: nat, tasks: seq<Task>,
    shut: bool, broken: bool,
    accepted: Bytes, wire: Bytes, lost: Bytes, dropped: Bytes, calls: seq<Callback>)

  /** A shut or broken connection fails every write; otherwise a write takes at most what it is given. */
  predicate Allows(c: Conn, len: nat, w: Write) {
    && (c.shut || c.broken ==> w.Fatal?)
    && (w.Wrote? ==> w.n <= len)
  }

  function Taken(w: Write): nat {
    if w.Wrote? then w.n else 0
  }

  /** `rest` joins the output buffer, and write interest is switched on. */
  function Keep(c: Conn, rest: Bytes): Conn {
    if rest == [] then c
    else c.(out := c.out + rest, writing := true,
            calls := c.calls + if |c.out| < c.mark <= |c.out| + |rest| then [HighWater(|c.out| + |rest|)] else [])
  }

  function SendInLoop(c: Conn, m: Bytes, w: Write): Conn
    requires Allows(c, |m|, w)
  {
    if c.state.Disconnected? then c.(dropped := c.dropped + m)
    else
      var a := c.(accepted := c.accepted + m);
      if !c.writing && c.out == [] then
        var b := a.(wire := c.wire + m[..Taken(w)], broken := c.broken || w.Fatal?,
                    calls := c.calls + if w == Wrote(|m|) then [WriteComplete] else []);
        if w.Fatal? then b.(lost := c.lost + m) else Keep(b, m[Taken(w)..])
      else Keep(a, m)
  }

  function ShutdownInLoop(c: Conn): Conn {
    if c.writing then c else c.(shut := true)
  }

  function HandleWrite(c: Conn, w: Write): Conn
    requires Allows(c, |c.out|, w)
  {
    if !c.writing then c
    else if w.Wrote? && w.n > 0 then
      var d := c.(wire := c.wire + c.out[..w.n], out := c.out[w.n..]);
      if d.out != [] then d
      else
        var e := d.(writing := false, calls := d.calls + [WriteComplete]);
        if e.state.Disconnecting? then ShutdownInLoop(e) else e
    else c.(broken := c.broken || w.Fatal?)
  }

  /** handleClose, with its assertion. */
  function HandleClose(c: Conn): Outcome<Conn> {
    if c.state.Connected? || c.state.Disconnecting? then Ok(c.(state := Disconnected, writing := false)) else Crash
  }

  // ---------------------------------------------------------------- the system

  /** `own` says whether the call is made on the loop's thread; `w` is what write(2) will do if it is used. */
  datatype Event =
    | EEstablish
    | ESend(own: bool, m: Bytes, w: Write)
    | EShutdown(own: bool)
    | EForceClose
    | ETask(w: Write)          // the loop runs the next task handed to it
    | EWritable(w: Write)
    | EPeerClosed              // read returns 0

  predicate Enabled(c: Conn, e: Event) {
    match e
    case EEstablish => c.state.Connecting?
    case ESend(_, m, w) => Allows(c, |m|, w)
    case EShutdown(_) => true
    case EForceClose => true
    case ETask(w) => c.tasks != [] && (c.tasks[0].TSend? ==> Allows(c, |c.tasks[0].m|, w))
    case EWritable(w) => Allows(c, |c.out|, w)
    case EPeerClosed => c.state.Connected? || c.state.Disconnecting?
  }

  function RunTask(c: Conn, t: Task, w: Write): Outcome<Conn>
    requires t.TSend? ==> Allows(c, |t.m|, w)
  {
    match t
    case TSend(m) => Ok(SendInLoop(c, m, w))
    case TShutdown => Ok(ShutdownInLoop(c))
    case TForceClose => if c.state.Connected? || c.state.Disconnecting? then HandleClose(c) else Ok(c)
  }

  function Apply(c: Conn, e: Event): Outcome<Conn>
    requires Enabled(c, e)
  {
    match e
    case EEstablish => Ok(c.(state := Connected))
    case ESend(own, m, w) =>
      if !c.state.Connected? then Ok(c)
      else if own then Ok(SendInLoop(c, m, w))
      else Ok(c.(tasks := c.tasks + [TSend(m)]))
    case EShutdown(own) =>
      if !c.state.Connected? then Ok(c)
      else if own then Ok(ShutdownInLoop(c.(state := Disconnecting)))
      else Ok(c.(state := Disconnecting, tasks := c.tasks + [TShutdown]))
    case EForceClose =>
      if c.state.Connected? || c.state.Disconnecting? then
        Ok(c.(state := Disconnecting, tasks := c.tasks + [TForceClose]))
      else Ok(c)
    case ETask(w) => RunTask(c.(tasks := c.tasks[1..]), c.tasks[0], w)
    case EWritable(w) => Ok(HandleWrite(c, w))
    case EPeerClosed => HandleClose(c)
  }

  function NewConn(mark: nat): Conn {
    Conn(Connecting, [], false, mark, [], false, false, [], [], [], [], [])
  }

  // ---------------------------------------------------------------- invariant

  /** Nothing disappears: what was accepted is on the wire, in the buffer or given up, in this order. */
  ghost predicate Conserved(c: Conn) {
    c.accepted == c.wire + c.out + c.lost
  }

  ghost predicate Interest(c: Conn) {
    && (c.state.Connected? || c.state.Disconnecting? ==> (c.writing <==> c.out != []))
    && (c.writing ==> c.state.Connected? || c.state.Disconnecting?)
    && (c.state.Connecting? ==> c.out == [])
  }

  /** Bytes are only given up once the kernel has failed a write, and then nothing is buffered. */
  ghost predicate Losses(c: Conn) {
    && (c.lost != [] ==> c.broken && c.out == [])
    && (c.shut && !c.state.Disconnected? ==> c.out == [])
    && (c.shut ==> c.state.Disconnecting? || c.state.Disconnected?)
    && (c.state.Connecting? ==> c.tasks == [])
    && (c.state.Connected? ==> forall i :: 0 <= i < |c.tasks| ==> c.tasks[i].TSend?)
  }

  ghost predicate Inv(c: Conn) {
    Conserved(c) && Interest(c) && Losses(c)
  }

  lemma NewInv(mark: nat)
    ensures Inv(NewConn(mark))
  {
  }

  lemma KeepInv(c: Conn, m: Bytes, n: nat)
    requires n <= |m| && !c.state.Disconnected? && !c.state.Connecting? && c.lost == [] && !c.shut && Losses(c)
    requires c.accepted == c.wire + c.out + m[n..] && (c.writing <==> c.out != [])
    ensures Inv(Keep(c, m[n..]))
  {
    assert c.wire + c.out + m[n..] == c.wire + (c.out + m[n..]) + [];
    assert m[n..] == [] ==> c.out + m[n..] == c.out;
  }

  lemma SendKeeps(c: Conn, m: Bytes, w: Write)
    requires Inv(c) && !c.state.Connecting? && Allows(c, |m|, w)
    ensures Inv(SendInLoop(c, m, w))
  {
    if !c.state.Disconnected? {
      if !c.writing {
        assert c.accepted + m == c.wire + c.lost + m;
        if w.Fatal? {
          assert m[..0] == [];
          assert c.wire + c.lost + m == c.wire + m[..0] + [] + (c.lost + m);
        } else {
          assert c.lost == [];
          var n := Taken(w);
          assert m == m[..n] + m[n..];
          assert c.wire + [] + m == c.wire + m[..n] + [] + m[n..];
          KeepInv(c.(accepted := c.accepted + m, wire := c.wire + m[..n], broken := c.broken || w.Fatal?,
                     calls := c.calls + if w == Wrote(|m|) then [WriteComplete] else []), m, n);
        }
      } else {
        assert c.lost == [] && m[0..] == m;
        assert c.accepted + m == c.wire + c.out + m;
        KeepInv(c.(accepted := c.accepted + m), m, 0);
      }
    }
  }

  lemma WriteKeeps(c: Conn, w: Write)
    requires Inv(c) && Allows(c, |c.out|, w)
    ensures Inv(HandleWrite(c, w))
  {
    if c.writing && w.Wrote? {
      assert c.out == c.out[..w.n] + c.out[w.n..];
      assert c.wire + c.out + c.lost == (c.wire + c.out[..w.n]) + c.out[w.n..] + c.lost;
    }
  }

  lemma StepKeeps(c: Conn, e: Event)
    requires Inv(c) && Enabled(c, e)
    ensures Apply(c, e).Ok? && Inv(Apply(c, e).value)
  {
    match e
    case ESend(own, m, w) =>
      if c.state.Connected? && own {
        SendKeeps(c, m, w);
      }
    case ETask(w) =>
      if c.tasks[0].TSend? {
        SendKeeps(c.(tasks := c.tasks[1..]), c.tasks[0].m, w);
      }
    case EWritable(w) => WriteKeeps(c, w);
    case _ =>
  }

  predicate Enables(c: Conn, es: seq<Event>)
    decreases |es|
  {
    es == [] || (Enabled(c, es[0]) && (Apply(c, es[0]).Ok? ==> Enables(Apply(c, es[0]).value, es[1..])))
  }

  function After(c: Conn, es: seq<Event>): Outcome<Conn>
    requires Enables(c, es)
    decreases |es|
  {
    if es == [] then Ok(c)
    else
      var r :- Apply(c, es[0]);
      After(r, es[1..])
  }

  /** In every run, with every pattern of partial and failing writes. */
  lemma {:induction false} RunKeeps(c: Conn, es: seq<Event>)
    requires Inv(c) && Enables(c, es)
    ensures After(c, es).Ok? && Inv(After(c, es).value)
    decreases |es|
  {
    if es != [] {
      StepKeeps(c, es[0]);
      hide Inv, Apply, Enabled;
      RunKeeps(Apply(c, es[0]).value, es[1..]);
    }
  }

  /** Without a fatal write error the wire and the buffer hold everything accepted; write interest is on
      exactly when something is buffered; and as long as the connection has not been closed, a shut write
      side means that all of it was written. */
  lemma StreamIsConserved(mark: nat, es: seq<Event>)
    requires Enables(NewConn(mark), es)
    ensures After(NewConn(mark), es).Ok?
    ensures var c := After(NewConn(mark), es).value;
      && (!c.broken ==> c.wire + c.out == c.accepted)
      && c.wire <= c.accepted
      && (c.state.Connected? || c.state.Disconnecting? ==> (c.writing <==> c.out != []))
      && (c.shut && !c.broken && !c.state.Disconnected? ==> c.wire == c.accepted)
  {
    NewInv(mark);
    RunKeeps(NewConn(mark), es);
  }

  // ---------------------------------------------------------------- shutting down

  /** The step that shuts the write side finds nothing left to send, if and only if the connection has not
      been closed with something in its buffer. */
  lemma ShutWhenEmptyIff(c: Conn, e: Event)
    requires Inv(c) && Enabled(c, e) && !c.shut && Apply(c, e).Ok? && Apply(c, e).value.shut
    ensures Apply(c, e).value.out == [] <==> !c.state.Disconnected? || c.out == []
    ensures !c.state.Disconnected? && !Apply(c, e).value.broken ==>
      Apply(c, e).value.wire == Apply(c, e).value.accepted
  {
    StepKeeps(c, e);
  }

  /** A shutdown that another thread handed over can run after the peer has closed, and then shuts the
      write side in front of bytes that were accepted: with any message and a healthy kernel. */
  lemma LateShutdownLeavesBytes(mark: nat, m: Bytes) returns (es: seq<Event>)
    requires m != []
    ensures Enables(NewConn(mark), es) && Healthy(NewConn(mark), es) && After(NewConn(mark), es).Ok?
    ensures var c := After(NewConn(mark), es).value; c.shut && !c.broken && c.out == m && c.accepted == m
  {
    var c0 := NewConn(mark);
    var e1, e2, e3, e4, e5 := EEstablish, ESend(true, m, WouldBlock), EShutdown(false), EPeerClosed, ETask(WouldBlock);
    var c1 := Apply(c0, e1).value;
    assert m[0..] == m && m[..0] == [];
    var c2 := Apply(c1, e2).value;
    assert c2.out == m && c2.accepted == m && c2.writing;
    var c3 := Apply(c2, e3).value;
    var c4 := Apply(c3, e4).value;
    var c5 := Apply(c4, e5).value;
    assert c5.shut && !c5.broken && c5.out == m && c5.accepted == m;
    hide Apply, Enabled;
    Prefix(c4, e5, []);
    Prefix(c3, e4, [e5]);
    Prefix(c2, e3, [e4] + [e5]);
    Prefix(c1, e2, [e3] + ([e4] + [e5]));
    Prefix(c0, e1, [e2] + ([e3] + ([e4] + [e5])));
    es := [e1] + ([e2] + ([e3] + ([e4] + [e5])));
  }

  /** Once the write side is shut nothing more reaches the wire: all that is accepted later is lost. */
  lemma {:induction false} LateIsLost(c: Conn, es: seq<Event>)
    requires Inv(c) && c.shut && Enables(c, es)
    ensures After(c, es).Ok? && After(c, es).value.shut && After(c, es).value.wire == c.wire
    decreases |es|
  {
    if es != [] {
      StepKeeps(c, es[0]);
      StaysShut(c, es[0]);
      hide Inv, Apply, Enabled;
      LateIsLost(Apply(c, es[0]).value, es[1..]);
    }
  }

  lemma StaysShut(c: Conn, e: Event)
    requires Inv(c) && c.shut && Enabled(c, e) && Apply(c, e).Ok?
    ensures Apply(c, e).value.shut && Apply(c, e).value.wire == c.wire
  {
    assert forall m: Bytes :: c.wire + m[..0] == c.wire;
  }

  // ---------------------------------------------------------------- what is lost

  /** A kernel that never fails a write on its own account. */
  predicate Healthy(c: Conn, es: seq<Event>)
    requires Enables(c, es)
    decreases |es|
  {
    es == [] ||
    ((!c.shut && !c.broken ==> !Faulty(es[0])) &&
     (Apply(c, es[0]).Ok? ==> Healthy(Apply(c, es[0]).value, es[1..])))
  }

  predicate Faulty(e: Event) {
    match e
    case ESend(_, _, w) => w.Fatal?
    case ETask(w) => w.Fatal?
    case EWritable(w) => w.Fatal?
    case _ => false
  }

  /** No send call comes from another thread. */
  predicate OneThread(es: seq<Event>) {
    forall i :: 0 <= i < |es| && es[i].ESend? ==> es[i].own
  }

  /** Every message that another thread has handed over is empty. */
  ghost predicate NothingQueued(c: Conn) {
    forall i :: 0 <= i < |c.tasks| && c.tasks[i].TSend? ==> c.tasks[i].m == []
  }

  /** Nothing accepted by send() has been given up, before or after the connection was closed. */
  predicate Intact(c: Conn) {
    c.lost == [] && c.dropped == []
  }

  lemma StepIntact(c: Conn, e: Event)
    requires Inv(c) && Enabled(c, e) && Apply(c, e).Ok? && Intact(c) && NothingQueued(c)
    requires (e.ESend? ==> e.own) && (!c.shut && !c.broken ==> !Faulty(e)) && (c.broken ==> c.shut)
    ensures var d := Apply(c, e).value; Intact(d) && NothingQueued(d) && (d.broken ==> d.shut)
  {
  }

  lemma {:induction false} RunIntact(c: Conn, es: seq<Event>)
    requires Inv(c) && Intact(c) && NothingQueued(c) && (c.broken ==> c.shut)
    requires Enables(c, es) && Healthy(c, es) && OneThread(es)
    ensures After(c, es).Ok? && Intact(After(c, es).value)
    decreases |es|
  {
    if es != [] {
      StepKeeps(c, es[0]);
      assert es[0].ESend? ==> es[0].own;
      StepIntact(c, es[0]);
      hide Inv, Apply, Enabled, NothingQueued, Intact;
      assert forall i :: 0 <= i < |es[1..]| ==> es[1..][i] == es[i + 1];
      RunIntact(Apply(c, es[0]).value, es[1..]);
    }
  }

  /** On a write side that is shut, the first message in the queue that is not empty is lost. */
  lemma {:induction false} QueuedIsLost(c: Conn) returns (es: seq<Event>)
    requires Inv(c) && c.shut && c.state.Disconnecting? && !NothingQueued(c)
    requires forall i :: 0 <= i < |c.tasks| ==> c.tasks[i].TSend?
    ensures Enables(c, es) && Healthy(c, es) && OneThread(es)
    ensures After(c, es).Ok? && After(c, es).value.lost != []
    decreases |c.tasks|
  {
    var e := ETask(Fatal);
    StepKeeps(c, e);
    var d := Apply(c, e).value;
    es := [];
    if c.tasks[0].m == [] {
      es := QueuedIsLost(d);
    } else {
      assert d.lost == c.lost + c.tasks[0].m;
      assert |d.lost| >= |c.tasks[0].m|;
    }
    hide Apply, Enabled, Inv;
    Prefix(c, e, es);
    es := [e] + es;
  }

  /** The loop's thread shuts the connection down, after writing what is buffered. */
  lemma ShutDown(c: Conn) returns (es: seq<Event>)
    requires Inv(c) && c.state.Connected? && !c.broken
    ensures Enables(c, es) && Healthy(c, es) && OneThread(es) && After(c, es).Ok?
    ensures var d := After(c, es).value;
      Inv(d) && d.shut && d.state.Disconnecting? && d.tasks == c.tasks
  {
    var e1, e2 := EShutdown(true), EWritable(Wrote(|c.out|));
    StepKeeps(c, e1);
    var d := Apply(c, e1).value;
    es := [];
    if c.out != [] {
      StepKeeps(d, e2);
      assert c.out[|c.out|..] == [];
      Prefix(d, e2, []);
      es := [e2] + [];
    }
    Prefix(c, e1, es);
    es := [e1] + es;
  }

  lemma {:induction false} RunsInARow(c: Conn, a: seq<Event>, b: seq<Event>)
    requires Enables(c, a) && After(c, a).Ok? && Enables(After(c, a).value, b)
    ensures Enables(c, a + b) && After(c, a + b) == After(After(c, a).value, b)
    ensures Healthy(c, a) && Healthy(After(c, a).value, b) ==> Healthy(c, a + b)
    decreases |a|
  {
    if a == [] {
      assert a + b == b;
    } else {
      assert (a + b)[0] == a[0] && (a + b)[1..] == a[1..] + b;
      RunsInARow(Apply(c, a[0]).value, a[1..], b);
    }
  }

  /** No run loses anything in which the kernel is healthy and only the loop's thread goes on sending. */
  ghost predicate Secure(c: Conn) {
    forall es :: Enables(c, es) && Healthy(c, es) && OneThread(es) && After(c, es).Ok? ==> Intact(After(c, es).value)
  }

  /** What other threads have handed to a connection is safe if and only if it is nothing: any message
      still in the loop's queue can be lost to a shutdown by the loop's thread. */
  lemma SecureIffNothingQueued(c: Conn)
    requires Inv(c) && c.state.Connected? && !c.broken && Intact(c)
    ensures Secure(c) <==> NothingQueued(c)
  {
    if NothingQueued(c) {
      forall es | Enables(c, es) && Healthy(c, es) && OneThread(es) && After(c, es).Ok?
        ensures Intact(After(c, es).value)
      {
        RunIntact(c, es);
      }
    } else {
      var a := ShutDown(c);
      var b := QueuedIsLost(After(c, a).value);
      hide Inv, Apply, Enabled, NothingQueued;
      RunsInARow(c, a, b);
      assert OneThread(a + b) && !Intact(After(c, a + b).value);
    }
  }

  /** With a healthy kernel and one thread nothing accepted is ever given up. */
  lemma OneThreadLosesNothing(mark: nat, es: seq<Event>)
    requires Enables(NewConn(mark), es) && Healthy(NewConn(mark), es) && OneThread(es)
    ensures After(NewConn(mark), es).Ok? && Intact(After(NewConn(mark), es).value)
  {
    NewInv(mark);
    RunIntact(NewConn(mark), es);
  }

  lemma Prefix(c: Conn, e: Event, es: seq<Event>)
    requires Enabled(c, e) && Apply(c, e).Ok? && Enables(Apply(c, e).value, es)
    ensures Enables(c, [e] + es) && After(c, [e] + es) == After(Apply(c, e).value, es)
    ensures (!c.shut && !c.broken ==> !Faulty(e)) && Healthy(Apply(c, e).value, es) ==> Healthy(c, [e] + es)
  {
    assert ([e] + es)[1..] == es;
  }

  // ---------------------------------------------------------------- what was handed over

  /** What a thread hands to the loop in this step. */
  function HandedNow(c: Conn, e: Event): seq<Task> {
    match e
    case ESend(own, m, _) => if !own && c.state.Connected? then [TSend(m)] else []
    case EShutdown(own) => if !own && c.state.Connected? then [TShutdown] else []
    case EForceClose => if c.state.Connected? || c.state.Disconnecting? then [TForceClose] else []
    case _ => []
  }

  /** What the loop takes up in this step of what was handed to it. */
  function TakenUpNow(c: Conn, e: Event): seq<Task> {
    if e.ETask? && c.tasks != [] then [c.tasks[0]] else []
  }

  /** The message that reaches the loop's thread in this step: sent there by the program while connected, or
      handed over earlier. */
  function ReachesNow(c: Conn, e: Event): Bytes {
    if e.ESend? && e.own && c.state.Connected? then e.m
    else if e.ETask? && c.tasks != [] && c.tasks[0].TSend? then c.tasks[0].m
    else []
  }

  /** The bytes of ReachesNow over a run that reach a connection which is not closed, and those that do not. */
  function Reaching(c: Conn, es: seq<Event>, closed: bool): Bytes
    requires Enables(c, es)
    decreases |es|
  {
    if es == [] then []
    else
      (if c.state.Disconnected? == closed then ReachesNow(c, es[0]) else []) +
      if Apply(c, es[0]).Ok? then Reaching(Apply(c, es[0]).value, es[1..], closed) else []
  }

  function Handed(c: Conn, es: seq<Event>): seq<Task>
    requires Enables(c, es)
    decreases |es|
  {
    if es == [] then []
    else HandedNow(c, es[0]) + if Apply(c, es[0]).Ok? then Handed(Apply(c, es[0]).value, es[1..]) else []
  }

  function TakenUp(c: Conn, es: seq<Event>): seq<Task>
    requires Enables(c, es)
    decreases |es|
  {
    if es == [] then []
    else TakenUpNow(c, es[0]) + if Apply(c, es[0]).Ok? then TakenUp(Apply(c, es[0]).value, es[1..]) else []
  }

  lemma StepAccepts(c: Conn, e: Event)
    requires Enabled(c, e) && Apply(c, e).Ok?
    ensures var d := Apply(c, e).value;
      && d.accepted == c.accepted + (if c.state.Disconnected? then [] else ReachesNow(c, e))
      && d.dropped == c.dropped + (if c.state.Disconnected? then ReachesNow(c, e) else [])
  {
  }

  lemma StepHands(c: Conn, e: Event)
    requires Enabled(c, e) && Apply(c, e).Ok?
    ensures c.tasks + HandedNow(c, e) == TakenUpNow(c, e) + Apply(c, e).value.tasks
  {
  }

  /** Every byte that the program sends on the loop's thread while connected, and every message handed over
      and taken up, is accepted, in the order of these steps; or dropped if the connection is closed. */
  lemma {:induction false} AllSentIsAccepted(c: Conn, es: seq<Event>)
    requires Enables(c, es) && After(c, es).Ok?
    ensures After(c, es).value.accepted == c.accepted + Reaching(c, es, false)
    ensures After(c, es).value.dropped == c.dropped + Reaching(c, es, true)
    decreases |es|
  {
    if es != [] {
      StepAccepts(c, es[0]);
      hide Apply, Enabled, ReachesNow;
      var d := Apply(c, es[0]).value;
      AllSentIsAccepted(d, es[1..]);
      Appended(c.accepted, if c.state.Disconnected? then [] else ReachesNow(c, es[0]), Reaching(d, es[1..], false));
      Appended(c.dropped, if c.state.Disconnected? then ReachesNow(c, es[0]) else [], Reaching(d, es[1..], true));
    }
  }

  /** What threads hand over, calls to send, shutdown and forceClose, is taken up in order and nothing else
      is: handed over before and during the run is taken up or still waiting. */
  lemma {:induction false} HandedIsTakenUp(c: Conn, es: seq<Event>)
    requires Enables(c, es) && After(c, es).Ok?
    ensures c.tasks + Handed(c, es) == TakenUp(c, es) + After(c, es).value.tasks
    decreases |es|
  {
    if es == [] {
      assert c.tasks + [] == [] + c.tasks;
    } else {
      StepHands(c, es[0]);
      hide Apply, Enabled, HandedNow, TakenUpNow;
      var d := Apply(c, es[0]).value;
      HandedIsTakenUp(d, es[1..]);
      Appended(c.tasks, HandedNow(c, es[0]), Handed(d, es[1..]));
      Appended(TakenUpNow(c, es[0]), d.tasks, Handed(d, es[1..]));
      Appended(TakenUpNow(c, es[0]), TakenUp(d, es[1..]), After(c, es).value.tasks);
    }
  }

  /** The messages that the loop's own thread sends while connected. */
  function OwnMessages(c: Conn, es: seq<Event>): Bytes
    requires Enables(c, es)
    decreases |es|
  {
    if es == [] then []
    else
      (if es[0].ESend? && es[0].own && c.state.Connected? then es[0].m else []) +
      if Apply(c, es[0]).Ok? then OwnMessages(Apply(c, es[0]).value, es[1..]) else []
  }

  ghost predicate NoSendWaits(c: Conn) {
    forall i :: 0 <= i < |c.tasks| ==> !c.tasks[i].TSend?
  }

  lemma StepNoSend(c: Conn, e: Event)
    requires NoSendWaits(c) && (e.ESend? ==> e.own) && Enabled(c, e) && Apply(c, e).Ok?
    ensures NoSendWaits(Apply(c, e).value)
    ensures ReachesNow(c, e) == if e.ESend? && e.own && c.state.Connected? then e.m else []
  {
  }

  lemma {:induction false} OwnReach(c: Conn, es: seq<Event>)
    requires NoSendWaits(c) && OneThread(es) && Enables(c, es) && After(c, es).Ok?
    ensures Reaching(c, es, false) == OwnMessages(c, es) && Reaching(c, es, true) == []
    decreases |es|
  {
    if es != [] {
      assert es[0].ESend? ==> es[0].own;
      StepNoSend(c, es[0]);
      hide Apply, Enabled, ReachesNow, NoSendWaits;
      assert forall i :: 0 <= i < |es[1..]| ==> es[1..][i] == es[i + 1];
      OwnReach(Apply(c, es[0]).value, es[1..]);
    }
  }

  /** With sends on the loop's thread only and no fatal error, the wire followed by the buffer is exactly the
      messages sent while connected, in order, in every run. */
  lemma SentIsOnTheWay(mark: nat, es: seq<Event>)
    requires Enables(NewConn(mark), es) && OneThread(es)
    ensures After(NewConn(mark), es).Ok?
    ensures var c := After(NewConn(mark), es).value;
      !c.broken ==> c.wire + c.out == OwnMessages(NewConn(mark), es)
  {
    StreamIsConserved(mark, es);
    AllSentIsAccepted(NewConn(mark), es);
    OwnReach(NewConn(mark), es);
  }

  /** Shutting down and closing take effect: shutdown() stops sending at once and shuts the write side as soon
      as nothing is buffered; forceClose() closes when the loop takes it up. */
  lemma CallsTakeEffect(c: Conn, e: Event)
    requires Inv(c) && Enabled(c, e) && Apply(c, e).Ok?
    ensures var d := Apply(c, e).value;
      && (e.EShutdown? && c.state.Connected? ==> d.state.Disconnecting? && (e.own && c.out == [] ==> d.shut))
      && (e.ETask? && c.tasks[0].TShutdown? && c.out == [] ==> d.shut)
      && (e.EWritable? && c.state.Disconnecting? && c.out != [] && d.out == [] ==> d.shut)
      && (e.EForceClose? && !c.state.Connecting? && !c.state.Disconnected? ==> d.state.Disconnecting?)
      && (e.ETask? && c.tasks[0].TForceClose? && !c.state.Connecting? ==> d.state.Disconnected?)
      && (e.EPeerClosed? ==> d.state.Disconnected? && !d.writing)
  {
  }

  // ---------------------------------------------------------------- callbacks

  /** From c to d at most one callback is queued: write-complete only when everything accepted so far is
      written, high-water exactly when the buffer crosses the mark. */
  ghost predicate Timely(c: Conn, d: Conn) {
    if |c.out| < c.mark <= |d.out| then d.calls == c.calls + [HighWater(|d.out|)]
    else d.calls == c.calls
         || (d.calls == c.calls + [WriteComplete] && d.out == [] && (d.lost == [] ==> d.wire == d.accepted))
  }

  lemma SendTimely(c: Conn, m: Bytes, w: Write)
    requires Inv(c) && !c.state.Connecting? && Allows(c, |m|, w)
    ensures Timely(c, SendInLoop(c, m, w))
  {
    SendKeeps(c, m, w);
    assert forall xs: seq<Callback> :: xs + [] == xs;
  }

  lemma WriteTimely(c: Conn, w: Write)
    requires Inv(c) && Allows(c, |c.out|, w)
    ensures Timely(c, HandleWrite(c, w))
  {
    WriteKeeps(c, w);
  }

  lemma CallbacksAreTimely(c: Conn, e: Event)
    requires Inv(c) && Enabled(c, e) && Apply(c, e).Ok?
    ensures Timely(c, Apply(c, e).value)
  {
    match e
    case ESend(own, m, w) =>
      if c.state.Connected? && own {
        SendTimely(c, m, w);
      }
    case ETask(w) =>
      if c.tasks[0].TSend? {
        SendTimely(c.(tasks := c.tasks[1..]), c.tasks[0].m, w);
      }
    case EWritable(w) => WriteTimely(c, w);
    case _ =>
  }
}
