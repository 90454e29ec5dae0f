/** The decompress stage: the DPU-side client with its inflate engine, the host-side server with the
    destination memory the engine writes into, and the reliable connection between them.

    `Client` is the state of one DecompressClientEpoll together with the parts of its CompressEngine and
    RdmaConnection that its callbacks touch; each callback is a function returning the new state and the
    messages it posts.  `Stage` closes the system. */
module Decompress {
  import opened Base
  import opened Segments

  datatype Job = Job(image: string, layer: string, total: nat, index: nat, pair: nat)

  datatype Info = Info(image: string, layer: string, total: nat, index: nat, size: nat, pair: nat)

  datatype ToHost = MmapRequest(num: nat) | Finish(info: Info)

  datatype ToDpu = MmapResponse(num: nat) | Ack(layer: string, index: nat, pair: nat)

  datatype Client = Client(
    hasConn: bool,
    connected: bool,
    busy: bool,
    job: Job,
    pendingJobs: seq<Element>,
    pendingSends: seq<Info>,
    inflight: seq<nat>,
    freeSend: seq<nat>,
    freePairs: seq<nat>,
    engineBusy: bool,
    ongoing: nat,
    src: seq<Packed>,
    srcCap: nat)

  // ---------------------------------------------------------------- callbacks of the DPU client

  function StartJob(c: Client, task: Element, pair: nat): Outcome<Client> {
    if pair >= |c.src| || task.data.size > c.srcCap || c.engineBusy then Crash
    else Ok(c.(job := Job(task.image, task.layer, task.total, task.index, pair),
               src := c.src[pair := task.data],
               engineBusy := true, ongoing := pair, busy := true))
  }

  function TryStart(c: Client): Outcome<Client> {
    if !c.connected || c.busy then Crash
    else if c.pendingJobs == [] || c.freePairs == [] then Ok(c)
    else
      var d :- StartJob(c.(freePairs := ButLast(c.freePairs)), c.pendingJobs[0], Last(c.freePairs));
      Ok(d.(pendingJobs := d.pendingJobs[1..]))
  }

  function Submit(c: Client, e: Element): Outcome<Client> {
    var d := c.(pendingJobs := c.pendingJobs + [e]);
    if d.connected && !d.busy then TryStart(d) else Ok(d)
  }

  function OnConnected(c: Client): Outcome<(Client, seq<ToHost>)> {
    if c.freeSend == [] then Crash
    else Ok((c.(hasConn := true, inflight := c.inflight + [c.freeSend[0]], freeSend := c.freeSend[1..]),
             [MmapRequest(|c.src|)]))
  }

  function SendFinish(c: Client, info: Info, buf: nat): (Client, seq<ToHost>) {
    (c.(inflight := c.inflight + [buf]), [Finish(info)])
  }

  /** CompressEngine::handleRead followed by onDecompressTaskSuccess. */
  function OnJobDone(c: Client, len: nat): Outcome<(Client, seq<ToHost>)> {
    var info := Info(c.job.image, c.job.layer, c.job.total, c.job.index, len, c.job.pair);
    var (d, sent) :=
      if c.freeSend != [] then SendFinish(c.(freeSend := c.freeSend[1..]), info, c.freeSend[0])
      else (c.(pendingSends := c.pendingSends + [info]), []);
    var f :- TryStart(d.(engineBusy := false, busy := false));
    Ok((f, sent))
  }

  function OnFinishResponse(c: Client, pair: nat): Outcome<(Client, seq<ToHost>)> {
    if c.pendingSends != [] && c.freeSend == [] then Crash
    else
      var (d, sent) :=
        if c.pendingSends != [] then
          SendFinish(c.(freeSend := c.freeSend[1..], pendingSends := c.pendingSends[1..]),
                     c.pendingSends[0], c.freeSend[0])
        else (c, []);
      if pair >= |d.src| then Crash
      else
        var e := d.(freePairs := d.freePairs + [pair]);
        if e.busy then Ok((e, sent))
        else
          var f :- TryStart(e);
          Ok((f, sent))
  }

  function OnRecv(c: Client, m: ToDpu): Outcome<(Client, seq<ToHost>)> {
    if c.inflight == [] then Crash
    else
      var d := c.(freeSend := c.freeSend + [c.inflight[0]], inflight := c.inflight[1..]);
      match m
      case MmapResponse(num) =>
        if num != |d.src| then Crash
        else
          var e :- TryStart(d.(connected := true));
          Ok((e, []))
      case Ack(_, _, pair) => OnFinishResponse(d, pair)
  }

  // ---------------------------------------------------------------- the closed system

  datatype Config = Config(pairs: nat, sends: nat, dstCap: nat, srcCap: nat) {
    predicate Ok() {
      pairs >= 1 && sends >= 1
    }
  }

  /** `done` is Some(n) when the hardware has completed the current job with n output bytes and its
      completion has not been handled yet.  `submitted` and `delivered` record the whole history. */
  datatype Stage = Stage(
    g: Config,
    c: Client,
    done: Option<nat>,
    dst: seq<Bytes>,
    toHost: seq<ToHost>,
    toDpu: seq<ToDpu>,
    submitted: seq<Element>,
    delivered: seq<Piece>)

  datatype Event =
    | EConnect                    // the RDMA connection comes up
    | ESubmit(e: Element)         // a fetched segment is submitted
    | EScribble(mem: Bytes)       // the running job has written part of its output
    | EFinish                     // the hardware completes the job
    | EJobDone                    // the DPU handles the completion
    | EHostRecv                   // the host handles the next message
    | EDpuRecv                    // the DPU handles the next message

  predicate Fits(g: Config, e: Element) {
    e.data.size <= g.srcCap && |e.data.bytes| <= g.dstCap
  }

  predicate Enabled(s: Stage, e: Event) {
    match e
    case EConnect => !s.c.hasConn
    case ESubmit(x) => Fits(s.g, x)
    case EScribble(mem) => s.c.engineBusy && s.done.None? && |mem| == s.g.dstCap
    case EFinish => s.c.engineBusy && s.done.None?
    case EJobDone => s.c.engineBusy && s.done.Some?
    case EHostRecv => s.toHost != []
    case EDpuRecv => s.toDpu != []
  }

  /** What the host copies out of its destination memory for a finish request. */
  function Copy(i: Info, dst: seq<Bytes>): Piece {
    Piece(i.image, i.layer, i.index, i.total,
          if i.pair < |dst| && i.size <= |dst[i.pair]| then dst[i.pair][..i.size] else [])
  }

  function HostRecv(s: Stage): Outcome<Stage>
    requires s.toHost != []
  {
    var t := s.(toHost := s.toHost[1..]);
    match s.toHost[0]
    case MmapRequest(num) =>
      if num != |s.dst| then Crash else Ok(t.(toDpu := t.toDpu + [MmapResponse(|s.dst|)]))
    case Finish(i) =>
      if i.pair >= |s.dst| || i.size > |s.dst[i.pair]| then Crash
      else Ok(t.(toDpu := t.toDpu + [Ack(i.layer, i.index, i.pair)],
                 delivered := t.delivered + [Copy(i, s.dst)]))
  }

  function Apply(s: Stage, e: Event): Outcome<Stage>
    requires Enabled(s, e)
  {
    match e
    case EConnect =>
      var (c, sent) :- OnConnected(s.c);
      Ok(s.(c := c, toHost := s.toHost + sent))
    case ESubmit(x) =>
      var c :- Submit(s.c, x);
      Ok(s.(c := c, submitted := s.submitted + [x]))
    case EScribble(mem) =>
      if s.c.ongoing >= |s.dst| then Crash else Ok(s.(dst := s.dst[s.c.ongoing := mem]))
    case EFinish =>
      var p := s.c.ongoing;
      if p >= |s.dst| || p >= |s.c.src| || |s.c.src[p].bytes| > |s.dst[p]| then Crash
      else
        var out := s.c.src[p].bytes;
        Ok(s.(dst := s.dst[p := out + s.dst[p][|out|..]], done := Some(|out|)))
    case EJobDone =>
      var (c, sent) :- OnJobDone(s.c, s.done.value);
      Ok(s.(c := c, toHost := s.toHost + sent, done := None))
    case EHostRecv => HostRecv(s)
    case EDpuRecv =>
      var (c, sent) :- OnRecv(s.c, s.toDpu[0]);
      Ok(s.(c := c, toHost := s.toHost + sent, toDpu := s.toDpu[1..]))
  }

  function InitClient(g: Config): Client {
    Client(false, false, false, Job("", "", 0, 0, 0), [], [], [], Range(0, g.sends), Range(0, g.pairs),
           false, 0, seq(g.pairs, i => Packed([], 0)), g.srcCap)
  }

  ghost predicate Init(s: Stage) {
    && s.g.Ok()
    && s.c == InitClient(s.g)
    && s.done == None
    && |s.dst| == s.g.pairs
    && (forall i :: 0 <= i < |s.dst| ==> |s.dst[i]| == s.g.dstCap)
    && s.toHost == [] && s.toDpu == []
    && s.submitted == [] && s.delivered == []
  }

  // ---------------------------------------------------------------- invariant

  function Copies(infos: seq<Info>, dst: seq<Bytes>): seq<Piece> {
    seq(|infos|, i requires 0 <= i < |infos| => Copy(infos[i], dst))
  }

  function Pairs(infos: seq<Info>): seq<nat> {
    seq(|infos|, i requires 0 <= i < |infos| => infos[i].pair)
  }

  /** The finish requests in flight to the host. */
  function Requests(s: Stage): seq<Info> {
    if s.c.connected then
      seq(|s.toHost|, i requires 0 <= i < |s.toHost| =>
        if s.toHost[i].Finish? then s.toHost[i].info else Info("", "", 0, 0, 0, 0))
    else []
  }

  /** The buffer pairs named by acknowledgements in flight to the DPU. */
  function Acked(s: Stage): seq<nat> {
    if s.c.connected then
      seq(|s.toDpu|, i requires 0 <= i < |s.toDpu| => if s.toDpu[i].Ack? then s.toDpu[i].pair else 0)
    else []
  }

  function Running(s: Stage): seq<nat> {
    if s.c.busy then [s.c.job.pair] else []
  }

  /** In how many places buffer pair `p` is held: free, running, queued, requested or acknowledged. */
  function Held(s: Stage, p: nat): nat {
    Count(s.c.freePairs, p) + Count(Running(s), p) + Count(Pairs(s.c.pendingSends), p)
    + Count(Pairs(Requests(s)), p) + Count(Acked(s), p)
  }

  /** Every buffer pair has exactly one owner. */
  ghost predicate Owned(s: Stage) {
    forall p: nat :: Held(s, p) == if p < s.g.pairs then 1 else 0
  }

  function Current(s: Stage): seq<Piece> {
    if s.c.busy && s.c.job.pair < |s.c.src| then
      [Piece(s.c.job.image, s.c.job.layer, s.c.job.index, s.c.job.total, s.c.src[s.c.job.pair].bytes)]
    else []
  }

  /** What the host has been given, followed by everything still on its way, in order. */
  function Stream(s: Stage): seq<Piece> {
    s.delivered + (Copies(Requests(s), s.dst) +
      (Copies(s.c.pendingSends, s.dst) + (Current(s) + Unpacks(s.c.pendingJobs))))
  }

  ghost predicate Shape(s: Stage) {
    && s.g.Ok()
    && |s.dst| == |s.c.src| == s.g.pairs && s.c.srcCap == s.g.srcCap
    && (forall i :: 0 <= i < |s.dst| ==> |s.dst[i]| == s.g.dstCap)
    && (s.c.connected ==> s.c.hasConn)
    && (s.c.busy <==> s.c.engineBusy)
    && (s.c.busy ==> s.c.connected && s.c.job.pair == s.c.ongoing < s.g.pairs)
    && (s.done.Some? ==> s.c.busy)
    && (!s.c.connected ==> s.c.pendingSends == [] && s.delivered == [])
    && (!s.c.hasConn ==> s.toHost == [] && s.toDpu == [])
    && (s.c.hasConn && !s.c.connected ==>
          || (s.toHost == [MmapRequest(s.g.pairs)] && s.toDpu == [])
          || (s.toHost == [] && s.toDpu == [MmapResponse(s.g.pairs)]))
    && (s.c.connected ==>
          && (forall i :: 0 <= i < |s.toHost| ==> s.toHost[i].Finish?)
          && (forall i :: 0 <= i < |s.toDpu| ==> s.toDpu[i].Ack?))
  }

  ghost predicate Memory(s: Stage)
    requires Shape(s)
  {
    && (s.c.busy ==> |s.c.src[s.c.job.pair].bytes| <= s.g.dstCap)
    && (s.done.Some? ==>
          && s.done.value == |s.c.src[s.c.job.pair].bytes|
          && s.dst[s.c.job.pair][..s.done.value] == s.c.src[s.c.job.pair].bytes)
    && (forall i :: i in s.c.pendingSends ==> i.size <= s.g.dstCap)
    && (forall i :: i in Requests(s) ==> i.size <= s.g.dstCap)
    && (forall e :: e in s.c.pendingJobs ==> Fits(s.g, e))
  }

  /** Send buffers are free or in flight, one per unanswered message; a waiting finish message means
      that none is free. */
  ghost predicate SendsOwned(free: seq<nat>, inflight: seq<nat>, n: nat) {
    forall b: nat :: Count(free, b) + Count(inflight, b) == if b < n then 1 else 0
  }

  ghost predicate Sends(s: Stage) {
    && SendsOwned(s.c.freeSend, s.c.inflight, s.g.sends)
    && |s.c.inflight| == |s.toHost| + |s.toDpu|
    && (s.c.pendingSends != [] ==> s.c.freeSend == [])
  }

  ghost predicate Core(s: Stage) {
    Shape(s) && Memory(s) && Owned(s) && Stream(s) == Unpacks(s.submitted)
  }

  /** A job waits only for a connection, the engine or a buffer pair. */
  ghost predicate Flow(s: Stage) {
    s.c.connected && !s.c.busy && s.c.pendingJobs != [] ==> s.c.freePairs == []
  }

  ghost predicate Inv(s: Stage) {
    Core(s) && Sends(s) && Flow(s)
  }

  /** Work left, counted in steps. */
  function Work(s: Stage): nat {
    8 * |s.c.pendingJobs| + (if s.c.busy then (if s.done.None? then 7 else 6) else 0)
    + 5 * |s.c.pendingSends| + 4 * |s.toHost| + |s.toDpu| + (if s.c.hasConn then 0 else 5)
  }

  // ---------------------------------------------------------------- preservation

  lemma InitInv(s: Stage)
    requires Init(s)
    ensures Inv(s)
  {
    forall p: nat
      ensures Held(s, p) == if p < s.g.pairs then 1 else 0
      ensures Count(s.c.freeSend, p) + Count(s.c.inflight, p) == if p < s.g.sends then 1 else 0
    {
      CountRange(s.g.pairs, p);
      CountRange(s.g.sends, p);
    }
  }

  /** Memory outside the pairs that `infos` name does not matter to their copies. */
  lemma CopiesFrame(infos: seq<Info>, dst: seq<Bytes>, p: nat, mem: Bytes)
    requires p < |dst| && |mem| == |dst[p]| && p !in Pairs(infos)
    ensures Copies(infos, dst[p := mem]) == Copies(infos, dst)
  {
    assert forall i :: 0 <= i < |infos| ==> Pairs(infos)[i] == infos[i].pair;
  }

  /** The pair of the running job belongs to nobody else. */
  lemma RunningPairIsPrivate(s: Stage)
    requires Core(s) && s.c.busy
    ensures s.c.job.pair !in Pairs(s.c.pendingSends)
    ensures s.c.job.pair !in Pairs(Requests(s))
    ensures s.c.job.pair !in s.c.freePairs && s.c.job.pair !in Acked(s)
  {
    var p := s.c.job.pair;
    assert Held(s, p) == 1;
    CountOne(p, p);
    CountIn(Pairs(s.c.pendingSends), p);
    CountIn(Pairs(Requests(s)), p);
    CountIn(s.c.freePairs, p);
    CountIn(Acked(s), p);
  }

  /** The state after tryStartDecompressJob has found a job and a buffer pair. */
  function Started(s: Stage): Stage
    requires s.c.pendingJobs != [] && s.c.freePairs != [] && Last(s.c.freePairs) < |s.c.src|
  {
    var e, p := s.c.pendingJobs[0], Last(s.c.freePairs);
    s.(c := s.c.(freePairs := ButLast(s.c.freePairs), pendingJobs := s.c.pendingJobs[1..],
                 job := Job(e.image, e.layer, e.total, e.index, p), src := s.c.src[p := e.data],
                 engineBusy := true, ongoing := p, busy := true))
  }

  lemma StartedOwners(s: Stage)
    requires s.c.pendingJobs != [] && s.c.freePairs != [] && Last(s.c.freePairs) < |s.c.src| && !s.c.busy
    ensures forall p: nat :: Held(Started(s), p) == Held(s, p)
  {
    forall p: nat
      ensures Held(Started(s), p) == Held(s, p)
    {
      assert s.c.freePairs == ButLast(s.c.freePairs) + [Last(s.c.freePairs)];
      CountCat(ButLast(s.c.freePairs), [Last(s.c.freePairs)], p);
    }
  }

  lemma StartedStream(s: Stage)
    requires s.c.pendingJobs != [] && s.c.freePairs != [] && Last(s.c.freePairs) < |s.c.src| && !s.c.busy
    ensures Stream(Started(s)) == Stream(s)
  {
    var e := s.c.pendingJobs[0];
    assert Unpacks(s.c.pendingJobs) == [Unpack(e)] + Unpacks(s.c.pendingJobs[1..]);
  }

  /** Owned ids are real buffer pairs. */
  lemma OwnedBelow(s: Stage, p: nat)
    requires Owned(s)
    requires p in s.c.freePairs || p in Acked(s) || p in Pairs(Requests(s))
    ensures p < s.g.pairs
  {
    CountIn(s.c.freePairs, p);
    CountIn(Acked(s), p);
    CountIn(Pairs(Requests(s)), p);
    assert Held(s, p) >= 1;
  }

  lemma StartedCore(s: Stage)
    requires Core(s) && s.c.connected && !s.c.busy && s.c.pendingJobs != [] && s.c.freePairs != []
    ensures Last(s.c.freePairs) < |s.c.src| && Core(Started(s))
  {
    OwnedBelow(s, Last(s.c.freePairs));
    StartedOwners(s);
    StartedStream(s);
    assert s.c.pendingJobs[0] in s.c.pendingJobs;
    assert Requests(Started(s)) == Requests(s);
  }

  /** tryStartDecompressJob keeps the invariant and leaves no startable job waiting. */
  lemma TryStartKeeps(s: Stage)
    requires Core(s) && s.c.connected && !s.c.busy
    ensures TryStart(s.c).Ok?
    ensures var t := s.(c := TryStart(s.c).value);
      Core(t) && Flow(t) && Work(t) <= Work(s) && t.c.inflight == s.c.inflight && t.c.freeSend == s.c.freeSend
      && t.c.pendingSends == s.c.pendingSends && t.c.hasConn == s.c.hasConn && t.c.connected
  {
    if s.c.pendingJobs != [] && s.c.freePairs != [] {
      StartedCore(s);
      assert s.c.pendingJobs[0] in s.c.pendingJobs;
      assert TryStart(s.c) == Ok(Started(s).c);
    }
  }

  lemma QueuedCore(s: Stage, x: Element)
    requires Core(s) && Fits(s.g, x)
    ensures Core(s.(c := s.c.(pendingJobs := s.c.pendingJobs + [x]), submitted := s.submitted + [x]))
  {
    var t := s.(c := s.c.(pendingJobs := s.c.pendingJobs + [x]), submitted := s.submitted + [x]);
    assert Unpacks(t.c.pendingJobs) == Unpacks(s.c.pendingJobs) + [Unpack(x)];
    assert Unpacks(t.submitted) == Unpacks(s.submitted) + [Unpack(x)];
    assert Requests(t) == Requests(s);
    assert Stream(t) == Stream(s) + [Unpack(x)];
    assert forall p: nat :: Held(t, p) == Held(s, p);
  }

  lemma SubmitKeeps(s: Stage, x: Element)
    requires Inv(s) && Enabled(s, ESubmit(x))
    ensures Apply(s, ESubmit(x)).Ok? && Inv(Apply(s, ESubmit(x)).value)
    ensures Work(Apply(s, ESubmit(x)).value) <= Work(s) + 8
  {
    hide Core, Stream, Held;
    QueuedCore(s, x);
    var t := s.(c := s.c.(pendingJobs := s.c.pendingJobs + [x]), submitted := s.submitted + [x]);
    if t.c.connected && !t.c.busy {
      TryStartKeeps(t);
    }
  }

  lemma ConnectKeeps(s: Stage)
    requires Inv(s) && Enabled(s, EConnect)
    ensures Apply(s, EConnect).Ok? && Inv(Apply(s, EConnect).value)
    ensures Work(Apply(s, EConnect).value) < Work(s)
  {
    assert s.c.inflight == [];
    assert Count(s.c.freeSend, 0) + Count(s.c.inflight, 0) == 1;
    CountIn(s.c.freeSend, 0);
    var t := Apply(s, EConnect).value;
    AcquireKeepsSends(s, t);
    assert Stream(t) == Stream(s) && forall p: nat :: Held(t, p) == Held(s, p);
  }

  lemma EngineKeeps(s: Stage, e: Event)
    requires Inv(s) && Enabled(s, e) && (e.EScribble? || e.EFinish?)
    ensures Apply(s, e).Ok? && Inv(Apply(s, e).value)
    ensures Work(Apply(s, e).value) <= Work(s)
    ensures e.EFinish? ==> Work(Apply(s, e).value) < Work(s)
  {
    RunningPairIsPrivate(s);
    var p := s.c.ongoing;
    var t := Apply(s, e).value;
    assert t.dst == s.dst[p := t.dst[p]];
    CopiesFrame(s.c.pendingSends, s.dst, p, t.dst[p]);
    CopiesFrame(Requests(s), s.dst, p, t.dst[p]);
    assert Requests(t) == Requests(s) && Acked(t) == Acked(s);
    assert forall q: nat :: Held(t, q) == Held(s, q);
    assert Stream(t) == Stream(s);
  }

  /** Moving the front free send buffer into flight keeps the partition. */
  lemma AcquireKeepsSends(s: Stage, t: Stage)
    requires SendsOwned(s.c.freeSend, s.c.inflight, s.g.sends) && t.g == s.g && s.c.freeSend != []
    requires t.c.freeSend == s.c.freeSend[1..] && t.c.inflight == s.c.inflight + [s.c.freeSend[0]]
    ensures SendsOwned(t.c.freeSend, t.c.inflight, t.g.sends)
  {
    var x := [s.c.freeSend[0]];
    assert s.c.freeSend == x + t.c.freeSend;
    forall b: nat
      ensures Count(t.c.freeSend, b) + Count(t.c.inflight, b) == Count(s.c.freeSend, b) + Count(s.c.inflight, b)
    {
      CountCat(x, t.c.freeSend, b);
      CountCat(s.c.inflight, x, b);
    }
  }

  /** The state in which onDecompressTaskSuccess looks for the next job. */
  function AfterJob(s: Stage): Stage
    requires s.done.Some?
  {
    var c := s.c.(engineBusy := false, busy := false);
    var info := Info(c.job.image, c.job.layer, c.job.total, c.job.index, s.done.value, c.job.pair);
    if c.freeSend != [] then
      s.(c := c.(freeSend := c.freeSend[1..], inflight := c.inflight + [c.freeSend[0]]),
         toHost := s.toHost + [Finish(info)], done := None)
    else
      s.(c := c.(pendingSends := c.pendingSends + [info]), done := None)
  }

  function JobInfo(s: Stage): Info
    requires s.done.Some?
  {
    Info(s.c.job.image, s.c.job.layer, s.c.job.total, s.c.job.index, s.done.value, s.c.job.pair)
  }

  lemma AfterJobLists(s: Stage)
    requires s.done.Some? && s.c.connected
    ensures Acked(AfterJob(s)) == Acked(s)
    ensures s.c.freeSend != [] ==>
      Requests(AfterJob(s)) == Requests(s) + [JobInfo(s)] && AfterJob(s).c.pendingSends == s.c.pendingSends
    ensures s.c.freeSend == [] ==>
      Requests(AfterJob(s)) == Requests(s) && AfterJob(s).c.pendingSends == s.c.pendingSends + [JobInfo(s)]
  {
  }

  lemma AfterJobOwners(s: Stage)
    requires s.done.Some? && s.c.connected && s.c.busy
    ensures forall p: nat :: Held(AfterJob(s), p) == Held(s, p)
  {
    AfterJobLists(s);
    assert Pairs(Requests(s) + [JobInfo(s)]) == Pairs(Requests(s)) + [s.c.job.pair];
    assert Pairs(s.c.pendingSends + [JobInfo(s)]) == Pairs(s.c.pendingSends) + [s.c.job.pair];
    hide Count, Requests, Acked, Pairs;
    forall p: nat
      ensures Held(AfterJob(s), p) == Held(s, p)
    {
      CountCat(Pairs(Requests(s)), [s.c.job.pair], p);
      CountCat(Pairs(s.c.pendingSends), [s.c.job.pair], p);
      CountEmpty(p);
    }
  }

  lemma AfterJobStream(s: Stage)
    requires Shape(s) && Memory(s) && s.done.Some? && (s.c.pendingSends != [] ==> s.c.freeSend == [])
    ensures Stream(AfterJob(s)) == Stream(s)
  {
    AfterJobLists(s);
    assert Current(s) == [Copy(JobInfo(s), s.dst)];
    assert Copies(Requests(s) + [JobInfo(s)], s.dst) == Copies(Requests(s), s.dst) + Current(s);
    assert Copies(s.c.pendingSends + [JobInfo(s)], s.dst) == Copies(s.c.pendingSends, s.dst) + Current(s);
  }

  lemma AfterJobCore(s: Stage)
    requires Inv(s) && Enabled(s, EJobDone)
    ensures Core(AfterJob(s))
  {
    AfterJobOwners(s);
    AfterJobStream(s);
    AfterJobLists(s);
  }

  lemma JobDoneIs(s: Stage)
    requires Enabled(s, EJobDone) && TryStart(AfterJob(s).c).Ok?
    ensures Apply(s, EJobDone) == Ok(AfterJob(s).(c := TryStart(AfterJob(s).c).value))
  {
    assert s.toHost + [] == s.toHost;
  }

  lemma AfterJobFacts(s: Stage)
    requires Inv(s) && Enabled(s, EJobDone)
    ensures Core(AfterJob(s)) && AfterJob(s).c.connected && !AfterJob(s).c.busy
    ensures Sends(AfterJob(s)) && Work(AfterJob(s)) < Work(s)
  {
    AfterJobCore(s);
    assert s.c.busy && s.c.connected;
    hide Core, Stream, Held;
    if s.c.freeSend != [] {
      AcquireKeepsSends(s, AfterJob(s));
    }
  }

  lemma JobDoneKeeps(s: Stage)
    requires Inv(s) && Enabled(s, EJobDone)
    ensures Apply(s, EJobDone).Ok? && Inv(Apply(s, EJobDone).value)
    ensures Work(Apply(s, EJobDone).value) < Work(s)
  {
    hide Core, Apply, TryStart, AfterJob;
    AfterJobFacts(s);
    TryStartKeeps(AfterJob(s));
    JobDoneIs(s);
  }

  /** The host's copy is the oldest piece on its way. */
  lemma HostRecvStream(s: Stage)
    requires Shape(s) && s.c.connected && s.toHost != [] && Apply(s, EHostRecv).Ok?
    ensures var t := Apply(s, EHostRecv).value;
      Stream(t) == Stream(s) && t.delivered == s.delivered + [Stream(s)[|s.delivered|]]
  {
    var t := Apply(s, EHostRecv).value;
    var x := [Copy(s.toHost[0].info, s.dst)];
    assert Copies(Requests(s), s.dst) == x + Copies(Requests(t), s.dst);
    MoveBack(s.delivered, x, Copies(Requests(t), s.dst),
             Copies(s.c.pendingSends, s.dst) + (Current(s) + Unpacks(s.c.pendingJobs)));
  }

  lemma HostRecvOwners(s: Stage)
    requires Shape(s) && s.c.connected && s.toHost != [] && Apply(s, EHostRecv).Ok?
    ensures forall p: nat :: Held(Apply(s, EHostRecv).value, p) == Held(s, p)
  {
    var t, x := Apply(s, EHostRecv).value, [s.toHost[0].info.pair];
    assert Pairs(Requests(s)) == x + Pairs(Requests(t));
    assert Acked(t) == Acked(s) + x;
    hide Count, Requests, Acked, Pairs;
    forall p: nat
      ensures Held(t, p) == Held(s, p)
    {
      CountCat(x, Pairs(Requests(t)), p);
      CountCat(Acked(s), x, p);
    }
  }

  lemma MmapRecvStream(s: Stage)
    requires Shape(s) && !s.c.connected && s.toHost != []
    ensures Apply(s, EHostRecv).Ok?
    ensures var t := Apply(s, EHostRecv).value; Stream(t) == Stream(s) && forall p: nat :: Held(t, p) == Held(s, p)
  {
  }

  lemma HostRecvOk(s: Stage)
    requires Core(s) && s.c.connected && s.toHost != []
    ensures Apply(s, EHostRecv).Ok?
  {
    var i := s.toHost[0].info;
    assert Requests(s)[0] == i && i in Requests(s) && Pairs(Requests(s))[0] == i.pair;
    OwnedBelow(s, i.pair);
  }

  lemma HostRecvShape(s: Stage)
    requires Shape(s) && Memory(s) && s.toHost != [] && Apply(s, EHostRecv).Ok?
    ensures var t := Apply(s, EHostRecv).value; Shape(t) && Memory(t)
  {
    if s.c.connected {
      assert Requests(Apply(s, EHostRecv).value) == Requests(s)[1..];
    }
  }

  lemma HostRecvKeeps(s: Stage)
    requires Inv(s) && Enabled(s, EHostRecv)
    ensures Apply(s, EHostRecv).Ok? && Inv(Apply(s, EHostRecv).value)
    ensures Work(Apply(s, EHostRecv).value) + 3 <= Work(s)
    ensures var t := Apply(s, EHostRecv).value;
      t.delivered == s.delivered || t.delivered == s.delivered + [Unpacks(s.submitted)[|s.delivered|]]
  {
    hide Stream, Held, Shape, Memory;
    if s.c.connected {
      HostRecvOk(s);
      HostRecvOwners(s);
      HostRecvStream(s);
    } else {
      MmapRecvStream(s);
    }
    HostRecvShape(s);
  }

  /** The DPU client after it has returned the oldest send buffer to its connection. */
  function Released(s: Stage): Stage
    requires s.c.inflight != []
  {
    s.(c := s.c.(freeSend := s.c.freeSend + [s.c.inflight[0]], inflight := s.c.inflight[1..]))
  }

  /** The state in which handleDecompressFinishResponse looks for the next job. */
  function AfterAck(s: Stage): Stage
    requires s.c.inflight != [] && s.toDpu != [] && s.toDpu[0].Ack?
  {
    var r := Released(s).(toDpu := s.toDpu[1..]);
    var c := r.c.(freePairs := r.c.freePairs + [s.toDpu[0].pair]);
    if c.pendingSends != [] then
      r.(c := c.(freeSend := c.freeSend[1..], inflight := c.inflight + [c.freeSend[0]],
                 pendingSends := c.pendingSends[1..]),
         toHost := r.toHost + [Finish(c.pendingSends[0])])
    else r.(c := c)
  }

  lemma AfterAckAcked(s: Stage)
    requires s.c.inflight != [] && s.toDpu != [] && s.toDpu[0].Ack? && s.c.connected
    ensures Acked(s) == [s.toDpu[0].pair] + Acked(AfterAck(s))
  {
    var t := AfterAck(s);
    assert t.toDpu == s.toDpu[1..] && t.c.connected;
    hide AfterAck;
  }

  lemma AfterAckQueued(s: Stage)
    requires s.c.inflight != [] && s.toDpu != [] && s.toDpu[0].Ack? && s.c.pendingSends != []
    ensures AfterAck(s).c.pendingSends == s.c.pendingSends[1..] && AfterAck(s).c.connected == s.c.connected
    ensures AfterAck(s).toHost == s.toHost + [Finish(s.c.pendingSends[0])]
  {
  }

  lemma AfterAckLists(s: Stage)
    requires s.c.inflight != [] && s.toDpu != [] && s.toDpu[0].Ack? && s.c.connected
    ensures Acked(s) == [s.toDpu[0].pair] + Acked(AfterAck(s))
    ensures s.c.pendingSends != [] ==>
      && s.c.pendingSends == [s.c.pendingSends[0]] + AfterAck(s).c.pendingSends
      && Requests(AfterAck(s)) == Requests(s) + [s.c.pendingSends[0]]
    ensures s.c.pendingSends == [] ==>
      AfterAck(s).c.pendingSends == [] && Requests(AfterAck(s)) == Requests(s)
  {
    AfterAckAcked(s);
    hide Acked;
    if s.c.pendingSends != [] {
      AfterAckQueued(s);
      hide AfterAck;
    }
  }

  lemma AfterAckOwners(s: Stage)
    requires s.c.inflight != [] && s.toDpu != [] && s.toDpu[0].Ack? && s.c.connected
    ensures forall p: nat :: Held(AfterAck(s), p) == Held(s, p)
  {
    forall p: nat
      ensures Held(AfterAck(s), p) == Held(s, p)
    {
      AfterAckHeld(s, p);
    }
  }

  lemma AfterAckPairs(s: Stage)
    requires s.c.inflight != [] && s.toDpu != [] && s.toDpu[0].Ack? && s.c.connected && s.c.pendingSends != []
    ensures var t, i := AfterAck(s), [s.c.pendingSends[0].pair];
      Pairs(Requests(t)) == Pairs(Requests(s)) + i && Pairs(s.c.pendingSends) == i + Pairs(t.c.pendingSends)
  {
    AfterAckLists(s);
    hide Requests, AfterAck;
  }

  lemma AfterAckHeld(s: Stage, p: nat)
    requires s.c.inflight != [] && s.toDpu != [] && s.toDpu[0].Ack? && s.c.connected
    ensures Held(AfterAck(s), p) == Held(s, p)
  {
    var t, x := AfterAck(s), [s.toDpu[0].pair];
    AfterAckLists(s);
    assert t.c.freePairs == s.c.freePairs + x && Running(t) == Running(s);
    hide Count, Requests, Acked, Pairs, AfterAck, Running;
    CountCat(x, Acked(t), p);
    CountCat(s.c.freePairs, x, p);
    if s.c.pendingSends != [] {
      AfterAckPairs(s);
      var i := [s.c.pendingSends[0].pair];
      CountCat(Pairs(Requests(s)), i, p);
      CountCat(i, Pairs(t.c.pendingSends), p);
    }
  }

  lemma AfterAckStream(s: Stage)
    requires s.c.inflight != [] && s.toDpu != [] && s.toDpu[0].Ack? && s.c.connected
    ensures Stream(AfterAck(s)) == Stream(s)
  {
    AfterAckLists(s);
    if s.c.pendingSends != [] {
      var i, t := s.c.pendingSends[0], AfterAck(s);
      var x := [Copy(i, s.dst)];
      assert Copies([i] + t.c.pendingSends, s.dst) == x + Copies(t.c.pendingSends, s.dst);
      assert Copies(Requests(s) + [i], s.dst) == Copies(Requests(s), s.dst) + x;
      MoveBackInside(s.delivered, Copies(Requests(s), s.dst), x,
                     Copies(t.c.pendingSends, s.dst), Current(s) + Unpacks(s.c.pendingJobs));
    }
  }

  lemma AfterAckShape(s: Stage)
    requires Shape(s) && Memory(s) && s.c.inflight != [] && s.toDpu != [] && s.toDpu[0].Ack?
    ensures Shape(AfterAck(s)) && Memory(AfterAck(s))
  {
    AfterAckLists(s);
  }

  lemma AfterAckCore(s: Stage)
    requires Core(s) && Enabled(s, EDpuRecv) && s.toDpu[0].Ack? && s.c.inflight != []
    ensures s.c.connected && s.toDpu[0].pair < s.g.pairs && Core(AfterAck(s))
  {
    assert s.toDpu[0].pair in Acked(s) by {
      assert Acked(s)[0] == s.toDpu[0].pair;
    }
    OwnedBelow(s, s.toDpu[0].pair);
    assert s.c.connected;
    hide Stream, Held, Shape, Memory;
    AfterAckShape(s);
    AfterAckOwners(s);
    AfterAckStream(s);
  }

  lemma ReleasedKeepsSends(s: Stage)
    requires Sends(s) && s.c.inflight != []
    ensures SendsOwned(Released(s).c.freeSend, Released(s).c.inflight, s.g.sends)
  {
    var c := Released(s).c;
    var x := [s.c.inflight[0]];
    assert s.c.inflight == x + c.inflight;
    forall b: nat
      ensures Count(c.freeSend, b) + Count(c.inflight, b) == Count(s.c.freeSend, b) + Count(s.c.inflight, b)
    {
      CountCat(x, c.inflight, b);
      CountCat(s.c.freeSend, x, b);
    }
  }

  lemma MappedStream(s: Stage, t: Stage)
    requires Shape(s) && !s.c.connected && s.toDpu != [] && s.c.inflight != []
    requires t == Released(s).(c := Released(s).c.(connected := true), toDpu := [])
    ensures Stream(t) == Stream(s) && forall p: nat :: Held(t, p) == Held(s, p)
  {
  }

  lemma MappedCore(s: Stage, t: Stage)
    requires Core(s) && !s.c.connected && s.toDpu != [] && s.c.inflight != []
    requires t == Released(s).(c := Released(s).c.(connected := true), toDpu := [])
    ensures Core(t)
  {
    MappedStream(s, t);
    hide Stream, Held;
  }

  /** The state in which the handlers of onRecvSuccess look for the next job. */
  function AfterRecv(s: Stage): Stage
    requires s.c.inflight != [] && s.toDpu != []
  {
    if s.toDpu[0].Ack? then AfterAck(s)
    else Released(s).(c := Released(s).c.(connected := true), toDpu := s.toDpu[1..])
  }

  lemma AckIs(s: Stage)
    requires Enabled(s, EDpuRecv) && s.c.inflight != [] && s.toDpu[0].Ack? && s.toDpu[0].pair < s.g.pairs
    requires s.g.pairs == |s.c.src|
    requires !AfterAck(s).c.busy ==> TryStart(AfterAck(s).c).Ok?
    ensures Apply(s, EDpuRecv) ==
      Ok(if AfterAck(s).c.busy then AfterAck(s) else AfterAck(s).(c := TryStart(AfterAck(s).c).value))
  {
    hide TryStart;
    assert s.toHost + [] == s.toHost;
  }

  lemma DpuRecvIs(s: Stage)
    requires Shape(s) && Enabled(s, EDpuRecv) && s.c.inflight != []
    requires s.toDpu[0].Ack? ==> s.toDpu[0].pair < s.g.pairs
    requires !AfterRecv(s).c.busy ==> TryStart(AfterRecv(s).c).Ok?
    ensures Apply(s, EDpuRecv) ==
      Ok(if AfterRecv(s).c.busy then AfterRecv(s) else AfterRecv(s).(c := TryStart(AfterRecv(s).c).value))
  {
    if s.toDpu[0].Ack? {
      hide Apply, TryStart;
      AckIs(s);
    } else {
      hide TryStart;
      assert s.toHost + [] == s.toHost;
    }
  }

  lemma AfterRecvSends(s: Stage)
    requires Sends(s) && Shape(s) && s.toDpu != []
    ensures s.c.inflight != [] && Sends(AfterRecv(s)) && Work(AfterRecv(s)) < Work(s)
  {
    ReleasedKeepsSends(s);
    if s.toDpu[0].Ack? && s.c.pendingSends != [] {
      AcquireKeepsSends(Released(s), AfterAck(s));
    }
  }

  lemma AfterRecvCore(s: Stage)
    requires Core(s) && s.toDpu != [] && s.c.inflight != []
    ensures s.toDpu[0].Ack? ==> s.toDpu[0].pair < s.g.pairs
    ensures Core(AfterRecv(s)) && AfterRecv(s).c.connected && AfterRecv(s).c.busy == s.c.busy
  {
    hide Stream, Held, Memory;
    if s.toDpu[0].MmapResponse? {
      MappedCore(s, AfterRecv(s));
    } else {
      AfterAckCore(s);
    }
  }

  lemma DpuRecvKeeps(s: Stage)
    requires Inv(s) && Enabled(s, EDpuRecv)
    ensures Apply(s, EDpuRecv).Ok? && Inv(Apply(s, EDpuRecv).value)
    ensures Work(Apply(s, EDpuRecv).value) < Work(s)
  {
    AfterRecvSends(s);
    AfterRecvCore(s);
    hide Core, Apply, TryStart, AfterRecv;
    if !AfterRecv(s).c.busy {
      TryStartKeeps(AfterRecv(s));
    }
    DpuRecvIs(s);
  }

  // ---------------------------------------------------------------- whole runs

  /** Steps that the program and the hardware take by themselves once work is there. */
  predicate Internal(e: Event) {
    !e.ESubmit? && !e.EScribble?
  }

  lemma StepKeeps(s: Stage, e: Event)
    requires Inv(s) && Enabled(s, e)
    ensures Apply(s, e).Ok? && Inv(Apply(s, e).value)
    ensures Internal(e) ==> Work(Apply(s, e).value) < Work(s)
    ensures e.EHostRecv? ==> Work(Apply(s, e).value) + 3 <= Work(s)
    ensures e.ESubmit? ==> Work(Apply(s, e).value) <= Work(s) + 8
    ensures e.EScribble? ==> Work(Apply(s, e).value) <= Work(s)
  {
    hide Inv, Apply, Work;
    match e
    case EConnect => ConnectKeeps(s);
    case ESubmit(x) => SubmitKeeps(s, x);
    case EScribble(_) => EngineKeeps(s, e);
    case EFinish => EngineKeeps(s, e);
    case EJobDone => JobDoneKeeps(s);
    case EHostRecv => HostRecvKeeps(s);
    case EDpuRecv => DpuRecvKeeps(s);
  }

  /** Each event of `es` is enabled when its turn comes. */
  ghost predicate Feasible(s: Stage, es: seq<Event>)
    decreases |es|
  {
    es != [] ==>
      Enabled(s, es[0]) && (Apply(s, es[0]).Ok? ==> Feasible(Apply(s, es[0]).value, es[1..]))
  }

  ghost function Run(s: Stage, es: seq<Event>): Outcome<Stage>
    requires Feasible(s, es)
    decreases |es|
  {
    if es == [] then Ok(s)
    else
      var t :- Apply(s, es[0]);
      Run(t, es[1..])
  }

  function CountIf(es: seq<Event>, p: Event -> bool): nat {
    if es == [] then 0 else (if p(es[0]) then 1 else 0) + CountIf(es[1..], p)
  }

  lemma {:induction false} RunKeeps(s: Stage, es: seq<Event>)
    requires Inv(s) && Feasible(s, es)
    ensures Run(s, es).Ok? && Inv(Run(s, es).value)
    ensures CountIf(es, Internal) + Work(Run(s, es).value) <= Work(s) + 8 * CountIf(es, (e: Event) => e.ESubmit?)
    decreases |es|
  {
    hide Inv, Apply, Work;
    if es != [] {
      StepKeeps(s, es[0]);
      RunKeeps(Apply(s, es[0]).value, es[1..]);
    }
  }

  /** No callback ever fails, and what the host has been handed is the inflated form of the first
      segments submitted: each once, in submission order, with its own layer and index. */
  lemma DeliversInOrder(s: Stage, es: seq<Event>)
    requires Init(s) && Feasible(s, es)
    ensures Run(s, es).Ok?
    ensures Run(s, es).value.delivered <= Unpacks(Run(s, es).value.submitted)
  {
    InitInv(s);
    RunKeeps(s, es);
  }

  /** Every buffer pair has one owner and every send buffer is free or in flight, in every reachable
      state; a finish message waits only while no send buffer is free. */
  lemma BuffersNeverShared(s: Stage, es: seq<Event>)
    requires Init(s) && Feasible(s, es)
    ensures Run(s, es).Ok?
    ensures var t := Run(s, es).value;
      && (forall p: nat :: Held(t, p) == if p < t.g.pairs then 1 else 0)
      && (forall b: nat :: Count(t.c.freeSend, b) + Count(t.c.inflight, b) == if b < t.g.sends then 1 else 0)
      && (t.c.pendingSends != [] ==> t.c.freeSend == [])
  {
    InitInv(s);
    RunKeeps(s, es);
  }

  // ---------------------------------------------------------------- destination memory

  /** The jobs completed and not copied by the host yet, oldest first: requested, queued, just completed. */
  function Awaiting(s: Stage): seq<Info> {
    Requests(s) + s.c.pendingSends + if s.done.Some? then [JobInfo(s)] else []
  }

  lemma TryStartFrame(s: Stage)
    requires s.done.None? && TryStart(s.c).Ok?
    ensures Awaiting(s.(c := TryStart(s.c).value)) == Awaiting(s)
  {
    assert Requests(s.(c := TryStart(s.c).value)) == Requests(s);
  }

  lemma AfterJobAwaits(s: Stage)
    requires s.done.Some? && s.c.connected && (s.c.pendingSends != [] ==> s.c.freeSend == [])
    ensures Awaiting(AfterJob(s)) == Awaiting(s) && AfterJob(s).delivered == s.delivered
  {
    AfterJobLists(s);
    hide Requests;
  }

  lemma JobDoneAwaits(s: Stage)
    requires Inv(s) && Enabled(s, EJobDone)
    ensures Apply(s, EJobDone).Ok? && Awaiting(Apply(s, EJobDone).value) == Awaiting(s)
    ensures Apply(s, EJobDone).value.delivered == s.delivered
  {
    assert s.c.connected && (s.c.pendingSends != [] ==> s.c.freeSend == []);
    AfterJobAwaits(s);
    assert AfterJob(s).done == None;
    hide Core, Apply, TryStart, AfterJob, Awaiting;
    AfterJobFacts(s);
    TryStartKeeps(AfterJob(s));
    TryStartFrame(AfterJob(s));
    JobDoneIs(s);
  }

  lemma DpuRecvAwaits(s: Stage)
    requires Inv(s) && Enabled(s, EDpuRecv)
    ensures Apply(s, EDpuRecv).Ok? && Awaiting(Apply(s, EDpuRecv).value) == Awaiting(s)
    ensures Apply(s, EDpuRecv).value.delivered == s.delivered
  {
    AfterRecvSends(s);
    AfterRecvCore(s);
    AfterRecvAwaits(s);
    assert s.done.Some? ==> s.c.busy;
    hide Core, Apply, TryStart, AfterRecv, Awaiting;
    if !AfterRecv(s).c.busy {
      TryStartKeeps(AfterRecv(s));
      TryStartFrame(AfterRecv(s));
    }
    DpuRecvIs(s);
  }

  lemma AfterAckAwaits(s: Stage)
    requires s.c.connected && s.toDpu != [] && s.toDpu[0].Ack? && s.c.inflight != []
    ensures Awaiting(AfterAck(s)) == Awaiting(s)
  {
    AfterAckLists(s);
    AfterAckFrame(s);
    hide Requests, AfterAck;
    if s.c.pendingSends != [] {
      var x, rest := [s.c.pendingSends[0]], AfterAck(s).c.pendingSends;
      assert Requests(s) + (x + rest) == (Requests(s) + x) + rest;
    }
  }

  lemma AfterAckFrame(s: Stage)
    requires s.toDpu != [] && s.toDpu[0].Ack? && s.c.inflight != []
    ensures AfterAck(s).done == s.done && AfterAck(s).c.job == s.c.job && AfterAck(s).delivered == s.delivered
  {
  }

  lemma AfterRecvAwaits(s: Stage)
    requires Shape(s) && s.toDpu != [] && s.c.inflight != []
    ensures Awaiting(AfterRecv(s)) == Awaiting(s) && AfterRecv(s).delivered == s.delivered
    ensures AfterRecv(s).done == s.done
  {
    if s.toDpu[0].Ack? {
      assert s.c.connected;
      hide Shape;
      AfterAckAwaits(s);
      AfterAckFrame(s);
      hide Awaiting, AfterAck;
    } else {
      assert !s.c.connected && s.toHost == [];
      hide Shape;
      assert Requests(AfterRecv(s)) == [];
    }
  }

  lemma HostRecvAwaits(s: Stage)
    requires Shape(s) && Enabled(s, EHostRecv) && Apply(s, EHostRecv).Ok?
    ensures var t := Apply(s, EHostRecv).value;
      if s.c.connected then Awaiting(s) != [] && Awaiting(t) == Awaiting(s)[1..]
                            && t.delivered == s.delivered + [Copy(Awaiting(s)[0], s.dst)]
      else Awaiting(t) == Awaiting(s) && t.delivered == s.delivered
  {
    var t := Apply(s, EHostRecv).value;
    if s.c.connected {
      assert Requests(s) == [s.toHost[0].info] + Requests(t);
    }
  }

  lemma SubmitAwaits(s: Stage, x: Element)
    requires Shape(s) && Enabled(s, ESubmit(x)) && Apply(s, ESubmit(x)).Ok?
    ensures Awaiting(Apply(s, ESubmit(x)).value) == Awaiting(s)
    ensures Apply(s, ESubmit(x)).value.delivered == s.delivered
  {
    var t := s.(c := s.c.(pendingJobs := s.c.pendingJobs + [x]), submitted := s.submitted + [x]);
    assert Requests(t) == Requests(s);
    if s.c.connected && !s.c.busy {
      assert s.done.None?;
      hide Shape;
      TryStartFrame(t);
    }
    hide Requests, TryStart, Shape;
  }

  lemma EngineAwaits(s: Stage, e: Event)
    requires Shape(s) && Enabled(s, e) && Apply(s, e).Ok? && (e.EConnect? || e.EScribble? || e.EFinish?)
    ensures Awaiting(s) <= Awaiting(Apply(s, e).value) && Apply(s, e).value.delivered == s.delivered
  {
    var t := Apply(s, e).value;
    assert s.c.connected ==> s.c.hasConn;
    assert Requests(t) == Requests(s);
    hide Shape, Requests;
  }

  lemma OtherAwaits(s: Stage, e: Event)
    requires Inv(s) && Enabled(s, e) && (e.EConnect? || e.ESubmit? || e.EScribble? || e.EFinish?)
    ensures Apply(s, e).Ok? && Awaiting(s) <= Awaiting(Apply(s, e).value)
    ensures Apply(s, e).value.delivered == s.delivered
  {
    assert Shape(s);
    hide Inv, Apply, Awaiting, Shape;
    StepKeeps(s, e);
    if e.ESubmit? {
      SubmitAwaits(s, e.e);
    } else {
      EngineAwaits(s, e);
    }
  }

  /** The running job writes into a buffer that no completed job occupies. */
  lemma AwaitedElsewhere(s: Stage, i: Info)
    requires Inv(s) && s.c.busy && s.done.None? && i in Awaiting(s)
    ensures i.pair != s.c.ongoing
  {
    RunningPairIsPrivate(s);
    assert s.c.job.pair == s.c.ongoing;
    hide Inv;
    if i in s.c.pendingSends {
      var k :| 0 <= k < |s.c.pendingSends| && s.c.pendingSends[k] == i;
      assert Pairs(s.c.pendingSends)[k] == i.pair;
    } else {
      var k :| 0 <= k < |Requests(s)| && Requests(s)[k] == i;
      assert Pairs(Requests(s))[k] == i.pair;
    }
  }

  lemma OnlyTheJobWrites(s: Stage, e: Event, i: Info)
    requires Enabled(s, e) && Apply(s, e).Ok?
    requires (e.EScribble? || e.EFinish?) ==> i.pair != s.c.ongoing
    ensures Copy(i, Apply(s, e).value.dst) == Copy(i, s.dst)
  {
  }

  /** No step changes the memory of a job that has completed and has not been copied, whatever the
      hardware writes for the next one. */
  lemma StepSpares(s: Stage, e: Event, i: Info)
    requires Inv(s) && Enabled(s, e) && i in Awaiting(s)
    ensures Apply(s, e).Ok? && Copy(i, Apply(s, e).value.dst) == Copy(i, s.dst)
  {
    assert s.c.busy == s.c.engineBusy;
    hide Inv, Apply, Awaiting, Copy;
    StepKeeps(s, e);
    if e.EScribble? || e.EFinish? {
      AwaitedElsewhere(s, i);
    }
    OnlyTheJobWrites(s, e, i);
  }

  /** The job that is number `n` of all jobs completed: waiting with its memory as in `was`, or copied. */
  ghost predicate Kept(s: Stage, n: nat, i: Info, was: Piece) {
    if n < |s.delivered| then s.delivered[n] == was
    else n - |s.delivered| < |Awaiting(s)| && Awaiting(s)[n - |s.delivered|] == i && Copy(i, s.dst) == was
  }

  /** A step leaves the queue of completed jobs as it is, adds to it, or copies its first member. */
  ghost predicate Moved(s: Stage, t: Stage) {
    || (t.delivered == s.delivered && Awaiting(s) <= Awaiting(t))
    || (Awaiting(s) != [] && Awaiting(t) == Awaiting(s)[1..]
        && t.delivered == s.delivered + [Copy(Awaiting(s)[0], s.dst)])
  }

  lemma StepMoves(s: Stage, e: Event)
    requires Inv(s) && Enabled(s, e)
    ensures Apply(s, e).Ok? && Moved(s, Apply(s, e).value)
  {
    assert Shape(s);
    hide Inv, Apply, Awaiting, Core, Copy, Shape;
    match e {
      case EJobDone => JobDoneAwaits(s);
      case EDpuRecv => DpuRecvAwaits(s);
      case EHostRecv =>
        StepKeeps(s, e);
        HostRecvAwaits(s);
      case _ => OtherAwaits(s, e);
    }
  }

  lemma MovedKept(s: Stage, t: Stage, n: nat, i: Info, was: Piece)
    requires Moved(s, t) && Kept(s, n, i, was)
    requires i in Awaiting(s) ==> Copy(i, t.dst) == Copy(i, s.dst)
    ensures Kept(t, n, i, was)
  {
    hide Awaiting, Copy;
  }

  lemma StepKept(s: Stage, e: Event, n: nat, i: Info, was: Piece)
    requires Inv(s) && Enabled(s, e) && Kept(s, n, i, was)
    ensures Apply(s, e).Ok? && Kept(Apply(s, e).value, n, i, was)
  {
    hide Inv, Apply, Awaiting, Moved, Kept, Copy;
    StepMoves(s, e);
    if i in Awaiting(s) {
      StepSpares(s, e, i);
    }
    MovedKept(s, Apply(s, e).value, n, i, was);
  }

  lemma {:induction false} RunKept(s: Stage, es: seq<Event>, n: nat, i: Info, was: Piece)
    requires Inv(s) && Feasible(s, es) && Kept(s, n, i, was)
    ensures Run(s, es).Ok? && Kept(Run(s, es).value, n, i, was)
    decreases |es|
  {
    hide Inv, Apply, Kept;
    if es != [] {
      StepKeeps(s, es[0]);
      StepKept(s, es[0], n, i, was);
      RunKept(Apply(s, es[0]).value, es[1..], n, i, was);
    }
  }

  /** From the moment the hardware completes a job, in every run: its destination memory does not change
      until the host has copied it, and what the host copies for it is what was there at completion. */
  lemma DestinationIsStable(s: Stage, es: seq<Event>)
    requires Inv(s) && s.done.Some? && Feasible(s, es)
    ensures Run(s, es).Ok?
    ensures var t, n, i := Run(s, es).value, |s.delivered| + |Awaiting(s)| - 1, JobInfo(s);
      if n < |t.delivered| then t.delivered[n] == Copy(i, s.dst) else Copy(i, t.dst) == Copy(i, s.dst)
  {
    hide Inv, Feasible, Run, Awaiting, Copy, JobInfo;
    JobIsLast(s);
    RunKept(s, es, |s.delivered| + |Awaiting(s)| - 1, JobInfo(s), Copy(JobInfo(s), s.dst));
  }

  lemma JobIsLast(s: Stage)
    requires s.done.Some?
    ensures Awaiting(s) != [] && Awaiting(s)[|Awaiting(s)| - 1] == JobInfo(s)
  {
    hide Requests;
  }

  // ---------------------------------------------------------------- progress

  /** The host acknowledges exactly what it has just copied: same layer and index, and the pair that is free
      to be used again. */
  lemma AcknowledgesTheCopy(s: Stage)
    requires Enabled(s, EHostRecv) && s.toHost[0].Finish? && Apply(s, EHostRecv).Ok?
    ensures var t := Apply(s, EHostRecv).value;
      && |t.toDpu| == |s.toDpu| + 1 && s.toDpu <= t.toDpu && Last(t.toDpu).Ack? && t.delivered != []
      && Last(t.toDpu).layer == Last(t.delivered).layer && Last(t.toDpu).index == Last(t.delivered).index
      && Last(t.toDpu).pair == s.toHost[0].info.pair
  {
  }

  /** Nothing internal can happen only when everything submitted has been delivered, for any number of
      buffer pairs and send buffers. */
  lemma QuietMeansDelivered(s: Stage)
    requires Inv(s)
    requires forall e :: Internal(e) ==> !Enabled(s, e)
    ensures s.delivered == Unpacks(s.submitted)
  {
    assert !Enabled(s, EConnect) && !Enabled(s, EFinish) && !Enabled(s, EJobDone);
    assert !Enabled(s, EHostRecv) && !Enabled(s, EDpuRecv);
    assert Count(s.c.freeSend, 0) + Count(s.c.inflight, 0) == 1;
    CountIn(s.c.freeSend, 0);
    assert s.c.connected && !s.c.busy && s.c.pendingSends == [];
    assert Requests(s) == [] && Acked(s) == [];
    assert Held(s, 0) == 1;
    CountIn(s.c.freePairs, 0);
    assert s.c.pendingJobs == [];
    assert Stream(s) == s.delivered;
  }

  /** A run takes at most five internal steps plus eight per submitted segment; one that cannot be
      continued internally has delivered everything. */
  lemma EveryMaximalRunDelivers(s: Stage, es: seq<Event>)
    requires Init(s) && Feasible(s, es)
    ensures Run(s, es).Ok?
    ensures CountIf(es, Internal) <= 5 + 8 * CountIf(es, (e: Event) => e.ESubmit?)
    ensures (forall e :: Internal(e) ==> !Enabled(Run(s, es).value, e)) ==>
      Run(s, es).value.delivered == Unpacks(Run(s, es).value.submitted)
  {
    InitInv(s);
    RunKeeps(s, es);
    if forall e :: Internal(e) ==> !Enabled(Run(s, es).value, e) {
      QuietMeansDelivered(Run(s, es).value);
    }
  }
}
