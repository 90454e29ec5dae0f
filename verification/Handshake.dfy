/** The handshake that opens an RDMA connection over a TCP connection (src/network/rdma/RdmaConnector.cc).

    Each side sends its queue pair's description, makes its own queue pair ready once it has the other's,
    then sends one byte to say so.  TCP may cut the streams anywhere, also between that byte and what
    precedes it, or nowhere at all. */
module Handshake {
  import opened Base

  /** sizeof(RdmaExchangeInfo), a packed struct: 2 + 4 + 4 + 16 + 8 + 4 + 4 bytes. */
  const INFO_LEN: nat := 42
  const COMPLETE: byte := 42

  type Info = x: Bytes | |x| == INFO_LEN witness seq(INFO_LEN, i => 0)

  datatype State = NotInit | Init | RTS | Connected

  /** One side.  `posted` counts posted receive buffers, `installed` says that the RDMA callbacks are set,
      `calls` how often the connected callback fired; `shut` and `eof` are the two ends of the TCP life. */
  datatype Side = Side(
    state: State, memNum: nat, info: Info, input: Bytes, remote: Option<Bytes>,
    posted: nat, installed: bool, calls: nat, shut: bool, eof: bool)

  function NewSide(memNum: nat, info: Info): Side {
    Side(NotInit, memNum, info, [], None, 0, false, 0, false, false)
  }

  /** The first half of handshakeQp: connectQp fills the receive queue, then the callbacks are set. */
  function TakeInfo(s: Side): (Side, Bytes) {
    if s.state.Init? && |s.input| >= INFO_LEN then
      (s.(state := RTS, input := s.input[INFO_LEN..], remote := Some(s.input[..INFO_LEN]),
          posted := s.memNum, installed := true), [COMPLETE])
    else (s, [])
  }

  /** The second half, with its assertion. */
  function TakeComplete(s: Side): Outcome<Side> {
    if s.state.RTS? && |s.input| >= 1 then
      if s.input[0] != COMPLETE then Crash
      else Ok(s.(state := Connected, input := s.input[1..], calls := s.calls + 1, shut := true))
    else Ok(s)
  }

  /** onTcpMessage with the bytes read appended to the input buffer; also what the side sends. */
  function OnMessage(s: Side, chunk: Bytes): Outcome<(Side, Bytes)> {
    var t := s.(input := s.input + chunk);
    if t.shut then Ok((t, []))
    else
      var (u, out) := TakeInfo(t);
      var v :- TakeComplete(u);
      Ok((v, out))
  }

  // ---------------------------------------------------------------- two sides

  /** `toMe` and `toYou` are what TCP has accepted and not yet delivered. */
  datatype Net = Net(me: Side, you: Side, toMe: Bytes, toYou: Bytes)

  function Flip(n: Net): Net {
    Net(n.you, n.me, n.toYou, n.toMe)
  }

  datatype Event =
    | EInit              // initialRdmaResource
    | EDeliver(k: nat)   // the next k bytes arrive
    | EEof               // the other side's end of stream arrives

  predicate Enabled(n: Net, e: Event) {
    match e
    case EInit => n.me.state.NotInit?
    case EDeliver(k) => !n.me.state.NotInit? && 1 <= k <= |n.toMe|
    case EEof => !n.me.state.NotInit? && n.you.shut && n.toMe == [] && !n.me.eof
  }

  function Apply(n: Net, e: Event): Outcome<Net>
    requires Enabled(n, e)
  {
    match e
    case EInit => Ok(n.(me := n.me.(state := Init), toYou := n.toYou + n.me.info))
    case EDeliver(k) =>
      var (s, out) :- OnMessage(n.me, n.toMe[..k]);
      Ok(n.(me := s, toMe := n.toMe[k..], toYou := n.toYou + out))
    case EEof => Ok(n.(me := n.me.(eof := true)))
  }

  /** A step of either side; `mine` says whose. */
  datatype Move = Move(mine: bool, event: Event)

  predicate Can(n: Net, m: Move) {
    Enabled(if m.mine then n else Flip(n), m.event)
  }

  function Go(n: Net, m: Move): Outcome<Net>
    requires Can(n, m)
  {
    if m.mine then Apply(n, m.event)
    else
      var r :- Apply(Flip(n), m.event);
      Ok(Flip(r))
  }

  predicate Start(n: Net) {
    && n.me == NewSide(n.me.memNum, n.me.info)
    && n.you == NewSide(n.you.memNum, n.you.info)
    && n.toMe == [] && n.toYou == []
  }

  // ---------------------------------------------------------------- invariant

  function Sent(s: State, info: Info): Bytes {
    match s
    case NotInit => []
    case Init => info
    case _ => info + [COMPLETE]
  }

  function Consumed(s: State, peer: Info): Bytes {
    match s
    case NotInit => []
    case Init => []
    case RTS => peer
    case Connected => peer + [COMPLETE]
  }

  /** What a side's state means. */
  ghost predicate SideInv(s: Side, peer: Info) {
    && (s.state.NotInit? ==> s.input == [])
    && (s.state.Init? ==> |s.input| < INFO_LEN)
    && (s.state.RTS? ==> s.input == [])
    && (s.shut <==> s.state.Connected?)
    && s.calls == (if s.state.Connected? then 1 else 0)
    && (Ready(s, peer) || s == NewSide(s.memNum, s.info).(state := s.state, input := s.input))
    && (Ready(s, peer) <==> s.state.RTS? || s.state.Connected?)
  }

  /** The queue pair is bound to the peer's, with every receive posted and the callbacks installed. */
  ghost predicate Ready(s: Side, peer: Info) {
    s.state != NotInit && s.state != Init && s.remote == Some(peer) && s.posted == s.memNum && s.installed
  }

  /** The stream towards a side: consumed, buffered, under way. */
  ghost predicate Stream(s: State, input: Bytes, wire: Bytes, peerState: State, peer: Info) {
    Consumed(s, peer) + input + wire == Sent(peerState, peer)
  }

  ghost predicate Half(s: Side, wire: Bytes, peer: Side) {
    && SideInv(s, peer.info)
    && Stream(s.state, s.input, wire, peer.state, peer.info)
    && (s.eof ==> s.state.Connected? && peer.shut && wire == [])
  }

  ghost predicate Inv(n: Net) {
    Half(n.me, n.toMe, n.you) && Half(n.you, n.toYou, n.me)
  }

  lemma StartInv(n: Net)
    requires Start(n)
    ensures Inv(n)
  {
  }

  lemma TakeInfoKeeps(s: Side, wire: Bytes, peer: Side)
    requires s.state.Init? && SideInv(s.(input := []), peer.info) && !s.eof && |s.input| >= INFO_LEN
    requires Stream(Init, s.input, wire, peer.state, peer.info)
    ensures var t := TakeInfo(s).0;
      && t.state.RTS? && Ready(t, peer.info) && t.calls == 0 && !t.shut
      && t.info == s.info && t.eof == s.eof && t.memNum == s.memNum
      && Stream(RTS, t.input, wire, peer.state, peer.info)
    ensures TakeInfo(s).1 == [COMPLETE]
  {
    var all := Sent(peer.state, peer.info);
    assert all == s.input + wire;
    assert |all| >= INFO_LEN && all[..INFO_LEN] == peer.info;
    assert s.input[..INFO_LEN] == peer.info;
    assert s.input == peer.info + s.input[INFO_LEN..];
    assert peer.info + s.input[INFO_LEN..] + wire == all;
  }

  /** What is left after the description can only be the byte. */
  lemma TakeCompleteKeeps(s: Side, wire: Bytes, peer: Side)
    requires s.state.RTS? && Ready(s, peer.info) && s.calls == 0 && !s.shut && !s.eof
    requires Stream(RTS, s.input, wire, peer.state, peer.info)
    ensures TakeComplete(s).Ok? && Half(TakeComplete(s).value, wire, peer)
    ensures TakeComplete(s).value.info == s.info && TakeComplete(s).value.state in {RTS, Connected}
    ensures TakeComplete(s).value.memNum == s.memNum
  {
    if s.input != [] {
      var all := Sent(peer.state, peer.info);
      assert all == peer.info + s.input + wire;
      assert all[INFO_LEN] == s.input[0];
      assert s.input == [COMPLETE] && wire == [];
    }
  }

  lemma Arrives(s: State, input: Bytes, wire: Bytes, k: nat, peerState: State, peer: Info)
    requires Stream(s, input, wire, peerState, peer) && k <= |wire|
    ensures Stream(s, input + wire[..k], wire[k..], peerState, peer)
  {
    assert wire == wire[..k] + wire[k..];
  }

  lemma NothingAfterConnected(s: Side, wire: Bytes, peer: Side)
    requires Half(s, wire, peer)
    ensures s.state.Connected? ==> wire == [] && s.input == []
  {
    assert |Sent(peer.state, peer.info)| <= INFO_LEN + 1;
  }

  /** A chunk of any size is handled without failing the assertion. */
  lemma MessageKeeps(s: Side, wire: Bytes, k: nat, peer: Side)
    requires Half(s, wire, peer) && !s.state.NotInit? && 1 <= k <= |wire|
    ensures var r := OnMessage(s, wire[..k]);
      && r.Ok? && Half(r.value.0, wire[k..], peer) && r.value.0.info == s.info
      && Sent(r.value.0.state, s.info) == Sent(s.state, s.info) + r.value.1
      && r.value.0.eof == s.eof == false && (s.shut ==> r.value.0.shut)
  {
    Arrives(s.state, s.input, wire, k, peer.state, peer.info);
    var t := s.(input := s.input + wire[..k]);
    NothingAfterConnected(s, wire, peer);
    if s.state.RTS? {
      TakeCompleteKeeps(t, wire[k..], peer);
    } else if |t.input| >= INFO_LEN {
      TakeInfoKeeps(t, wire[k..], peer);
      TakeCompleteKeeps(TakeInfo(t).0, wire[k..], peer);
    }
  }

  /** The peer's stream has grown by `out`. */
  lemma PeerSends(s: Side, wire: Bytes, peer: Side, peer': Side, out: Bytes)
    requires Half(s, wire, peer) && peer'.info == peer.info && !s.eof && (peer.shut ==> peer'.shut)
    requires Sent(peer'.state, peer.info) == Sent(peer.state, peer.info) + out
    ensures Half(s, wire + out, peer')
  {
    hide SideInv, Ready, Sent, Consumed;
    assert Consumed(s.state, peer.info) + s.input + (wire + out)
        == (Consumed(s.state, peer.info) + s.input + wire) + out;
  }

  /** A side that still has bytes coming is not connected, so the other has seen no end of stream. */
  lemma ComingMeansNoEof(n: Net)
    requires Inv(n) && n.toMe != []
    ensures !n.you.eof && !n.me.state.Connected?
  {
    NothingAfterConnected(n.me, n.toMe, n.you);
  }

  lemma EofConnected(n: Net)
    requires Inv(n) && Enabled(n, EEof)
    ensures n.me.state.Connected?
  {
    assert n.you.state.Connected?;
    assert |Consumed(n.me.state, n.you.info)| + |n.me.input| == INFO_LEN + 1;
  }

  lemma DeliverKeeps(n: Net, k: nat)
    requires Inv(n) && Enabled(n, EDeliver(k))
    ensures Apply(n, EDeliver(k)).Ok? && Inv(Apply(n, EDeliver(k)).value)
  {
    MessageKeeps(n.me, n.toMe, k, n.you);
    ComingMeansNoEof(n);
    hide Half, Stream, SideInv, Ready;
    var r := OnMessage(n.me, n.toMe[..k]).value;
    PeerSends(n.you, n.toYou, n.me, r.0, r.1);
  }

  lemma ApplyKeeps(n: Net, e: Event)
    requires Inv(n) && Enabled(n, e)
    ensures Apply(n, e).Ok? && Inv(Apply(n, e).value)
  {
    match e
    case EInit =>
      assert !n.you.eof;
      PeerSends(n.you, n.toYou, n.me, n.me.(state := Init), n.me.info);
    case EDeliver(k) => DeliverKeeps(n, k);
    case EEof => EofConnected(n);
  }

  lemma MoveKeeps(n: Net, m: Move)
    requires Inv(n) && Can(n, m)
    ensures Go(n, m).Ok? && Inv(Go(n, m).value)
  {
    hide Half;
    ApplyKeeps(if m.mine then n else Flip(n), m.event);
  }

  // ---------------------------------------------------------------- runs

  ghost predicate Moves(n: Net, ms: seq<Move>)
    decreases |ms|
  {
    ms == [] || (Can(n, ms[0]) && (Go(n, ms[0]).Ok? ==> Moves(Go(n, ms[0]).value, ms[1..])))
  }

  ghost function After(n: Net, ms: seq<Move>): Outcome<Net>
    requires Moves(n, ms)
    decreases |ms|
  {
    if ms == [] then Ok(n)
    else
      var r :- Go(n, ms[0]);
      After(r, ms[1..])
  }

  lemma {:induction false} RunKeeps(n: Net, ms: seq<Move>)
    requires Inv(n) && Moves(n, ms)
    ensures After(n, ms).Ok? && Inv(After(n, ms).value)
    decreases |ms|
  {
    if ms != [] {
      hide Inv, Can, Go;
      MoveKeeps(n, ms[0]);
      RunKeeps(Go(n, ms[0]).value, ms[1..]);
    }
  }

  /** In every run from the start, the assertion never fails; and when the connected callback of a side
      has fired, the other side's queue pair is bound to this one, with all its receives posted and its
      callbacks installed, and this side's own too. */
  lemma ConnectedMeansPeerReady(n: Net, ms: seq<Move>)
    requires Start(n) && Moves(n, ms)
    ensures After(n, ms).Ok?
    ensures var r := After(n, ms).value;
      && (r.me.calls > 0 ==> Ready(r.you, r.me.info) && Ready(r.me, r.you.info))
      && (r.you.calls > 0 ==> Ready(r.me, r.you.info) && Ready(r.you, r.me.info))
  {
    StartInv(n);
    RunKeeps(n, ms);
    ConnectedReady(After(n, ms).value);
    ConnectedReady(Flip(After(n, ms).value));
  }

  lemma ConnectedReady(n: Net)
    requires Inv(n)
    ensures n.me.calls > 0 ==> Ready(n.you, n.me.info) && Ready(n.me, n.you.info)
  {
    if n.me.calls > 0 {
      assert |Sent(n.you.state, n.you.info)| >= INFO_LEN + 1;
    }
  }

  /** The connected callback never fires twice, and a side whose TCP connection ends has been connected:
      the error "disconnected but RDMA is not connect" is never reported. */
  lemma ConnectedBeforeTcpEnds(n: Net, ms: seq<Move>)
    requires Start(n) && Moves(n, ms)
    ensures After(n, ms).Ok?
    ensures var r := After(n, ms).value;
      && r.me.calls <= 1 && r.you.calls <= 1
      && (r.me.eof ==> r.me.calls == 1) && (r.you.eof ==> r.you.calls == 1)
  {
    StartInv(n);
    RunKeeps(n, ms);
  }

  /** Nothing is left to do. */
  ghost predicate Quiet(n: Net) {
    forall m :: !Can(n, m)
  }

  lemma QuietEmpty(n: Net)
    requires Quiet(n)
    ensures n.me.state != NotInit && n.you.state != NotInit && n.toMe == [] && n.toYou == []
  {
    assert !Can(n, Move(true, EInit)) && !Can(n, Move(false, EInit));
    assert !Can(n, Move(true, EDeliver(1))) && !Can(n, Move(false, EDeliver(1)));
  }

  /** With everything delivered, neither side can be waiting. */
  lemma DeliveredMeansConnected(n: Net)
    requires Inv(n) && n.me.state != NotInit && n.you.state != NotInit && n.toMe == [] && n.toYou == []
    ensures n.me.state.Connected? && n.me.calls == 1
  {
    assert !n.you.state.Init? by {
      assert |n.you.input| == |Sent(n.me.state, n.me.info)| || !n.you.state.Init?;
    }
    assert |Consumed(n.me.state, n.you.info)| + |n.me.input| == INFO_LEN + 1;
  }

  lemma QuietMeansConnected(n: Net)
    requires Inv(n) && Quiet(n)
    ensures n.me.calls == 1 && n.you.calls == 1
  {
    QuietEmpty(n);
    DeliveredMeansConnected(n);
    DeliveredMeansConnected(Flip(n));
  }

  // ---------------------------------------------------------------- every run ends

  /** What this side may still do: start, receive, and see the end of the stream. */
  function HalfWork(s: Side, peer: Info): int {
    (if s.state.NotInit? then 1 else 0) + INFO_LEN + 1 - |Consumed(s.state, peer)| - |s.input|
    + (if s.eof then 0 else 1)
  }

  function Work(n: Net): int {
    HalfWork(n.me, n.you.info) + HalfWork(n.you, n.me.info)
  }

  lemma HalfWorkIsNat(s: Side, wire: Bytes, peer: Side)
    requires Half(s, wire, peer)
    ensures HalfWork(s, peer.info) >= 0
  {
    assert |Sent(peer.state, peer.info)| <= INFO_LEN + 1;
  }

  /** Handling a message loses and invents no byte. */
  lemma MessageUses(s: Side, chunk: Bytes, peer: Side)
    requires OnMessage(s, chunk).Ok? && !s.state.NotInit?
    ensures var t := OnMessage(s, chunk).value.0;
      |Consumed(t.state, peer.info)| + |t.input| == |Consumed(s.state, peer.info)| + |s.input| + |chunk|
      && !t.state.NotInit? && t.eof == s.eof
  {
  }

  lemma ApplyWorks(n: Net, e: Event)
    requires Enabled(n, e) && Apply(n, e).Ok?
    ensures HalfWork(Apply(n, e).value.me, n.you.info) < HalfWork(n.me, n.you.info)
    ensures Apply(n, e).value.you == n.you
  {
    if e.EDeliver? {
      MessageUses(n.me, n.toMe[..e.k], n.you);
    }
  }

  lemma InfoStays(n: Net, e: Event)
    requires Enabled(n, e) && Apply(n, e).Ok?
    ensures Apply(n, e).value.me.info == n.me.info && Apply(n, e).value.you == n.you
  {
  }

  lemma MoveWorks(n: Net, m: Move)
    requires Can(n, m) && Go(n, m).Ok?
    ensures Work(Go(n, m).value) < Work(n)
  {
    var p := if m.mine then n else Flip(n);
    ApplyWorks(p, m.event);
    InfoStays(p, m.event);
    hide Apply, HalfWork, Enabled;
  }

  lemma {:induction false} RunsAreShort(n: Net, ms: seq<Move>)
    requires Inv(n) && Moves(n, ms)
    ensures |ms| <= Work(n)
    decreases |ms|
  {
    HalfWorkIsNat(n.me, n.toMe, n.you);
    HalfWorkIsNat(n.you, n.toYou, n.me);
    if ms != [] {
      MoveKeeps(n, ms[0]);
      MoveWorks(n, ms[0]);
      hide Inv, Work, Go, Can;
      RunsAreShort(Go(n, ms[0]).value, ms[1..]);
    }
  }

  /** However the streams are cut, a run takes at most 90 steps, and one that cannot go on has connected
      both sides, each exactly once. */
  lemma EveryMaximalRunConnects(n: Net, ms: seq<Move>)
    requires Start(n) && Moves(n, ms)
    ensures |ms| <= 90 && After(n, ms).Ok?
    ensures Quiet(After(n, ms).value) ==> After(n, ms).value.me.calls == 1 && After(n, ms).value.you.calls == 1
  {
    StartInv(n);
    RunsAreShort(n, ms);
    RunKeeps(n, ms);
    assert Work(n) == 90;
    if Quiet(After(n, ms).value) {
      QuietMeansConnected(After(n, ms).value);
    }
  }
}
