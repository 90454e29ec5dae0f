/** The whole pipeline: registry, fetcher, DPU, host and untar workers, on their own threads and machines.
    The fetcher's thread hands elements to the decompress client through the client's event loop
    (`handoff`); everything else runs as in the modules it comes from. */
module Pipeline {
  import opened Base
  import opened Segments
  import Splitter
  import Fetch
  import Decompress
  import Untar

  datatype Pipe = Pipe(net: Fetch.Net, handoff: seq<Element>, stage: Decompress.Stage, untar: Untar.Engine)

  datatype Event =
    | EFetch(f: Fetch.Event)
    | EHandoff
    | EStage(d: Decompress.Event)
    | EUntar(u: Untar.Event)

  predicate Enabled(p: Pipe, e: Event) {
    match e
    case EFetch(f) => Fetch.Enabled(p.net, f)
    case EHandoff => p.handoff != []
    case EStage(d) =>
      !d.ESubmit? && Decompress.Enabled(p.stage, d) && (d.EHostRecv? ==> p.untar.adding.None?)
    case EUntar(u) => Untar.Enabled(p.untar, u)
  }

  function Apply(p: Pipe, e: Event): Outcome<Pipe>
    requires Enabled(p, e)
  {
    match e
    case EFetch(f) =>
      var net :- Fetch.Apply(p.net, f);
      Ok(p.(net := net, handoff := if f.ERecv? then p.handoff + [Fetch.Received(p.net.toClient[0])] else p.handoff))
    case EHandoff =>
      if !Decompress.Enabled(p.stage, Decompress.ESubmit(p.handoff[0])) then Crash
      else
        var stage :- Decompress.Apply(p.stage, Decompress.ESubmit(p.handoff[0]));
        Ok(p.(stage := stage, handoff := p.handoff[1..]))
    case EStage(d) =>
      var stage :- Decompress.Apply(p.stage, d);
      if stage.delivered != p.stage.delivered && stage.delivered != [] then
        var untar :- Untar.Give(p.untar, Last(stage.delivered));
        Ok(p.(stage := stage, untar := untar))
      else Ok(p.(stage := stage))
    case EUntar(u) =>
      var untar :- Untar.Apply(p.untar, u);
      Ok(p.(untar := untar))
  }

  /** The registry holds every layer of `contents`, cut into segments of `size` bytes; inflated segments
      fit the destination buffers and segment files the source buffers. */
  ghost predicate Published(reg: Registry, contents: map<string, Bytes>, size: nat, g: Decompress.Config) {
    && 1 <= size <= g.dstCap
    && reg.Keys == contents.Keys
    && forall l :: l in reg ==>
         && |reg[l]| == |Splitter.Chunks(contents[l], size)|
         && forall i :: 0 <= i < |reg[l]| ==>
              reg[l][i].bytes == Splitter.Chunks(contents[l], size)[i] && reg[l][i].size <= g.srcCap
  }

  ghost predicate Init(p: Pipe) {
    Fetch.Init(p.net) && p.handoff == [] && Decompress.Init(p.stage) && Untar.Init(p.untar)
  }

  // ---------------------------------------------------------------- invariant

  /** What each layer asked for should be untarred from. */
  function Plan(net: Fetch.Net): Untar.Plan {
    map l | l in net.asked && l in net.reg :: Full(net.reg, net.asked[l], l)
  }

  ghost predicate Fitting(net: Fetch.Net, g: Decompress.Config) {
    forall l, i :: l in net.reg && 0 <= i < |net.reg[l]| ==>
      net.reg[l][i].size <= g.srcCap && |net.reg[l][i].bytes| <= g.dstCap
  }

  ghost predicate Inv(p: Pipe) {
    && Fetch.Inv(p.net)
    && Decompress.Inv(p.stage)
    && Untar.Inv(p.untar, Plan(p.net))
    && Fitting(p.net, p.stage.g)
    && p.stage.submitted + p.handoff == p.net.out
    && p.untar.given == p.stage.delivered
  }

  function Work(p: Pipe): int {
    Fetch.Work(p.net) + 9 * |p.handoff| + Decompress.Work(p.stage) + Untar.Work(p.untar)
  }

  lemma WorkIsNat(p: Pipe)
    requires Inv(p)
    ensures Work(p) >= 0
  {
    Fetch.WorkIsNat(p.net);
  }

  lemma PlanIsGood(net: Fetch.Net)
    requires WellStocked(net.reg)
    ensures Untar.GoodPlan(Plan(net))
  {
  }

  lemma PublishedFits(net: Fetch.Net, contents: map<string, Bytes>, size: nat, g: Decompress.Config)
    requires Published(net.reg, contents, size, g)
    ensures Fitting(net, g)
  {
    forall l, i | l in net.reg && 0 <= i < |net.reg[l]|
      ensures net.reg[l][i].size <= g.srcCap && |net.reg[l][i].bytes| <= g.dstCap
    {
      Splitter.ChunkSizes(contents[l], size);
    }
  }

  lemma InitInv(p: Pipe, contents: map<string, Bytes>, size: nat)
    requires Init(p) && Published(p.net.reg, contents, size, p.stage.g)
    ensures Inv(p) && Work(p) == 6
  {
    Fetch.InitInv(p.net);
    Decompress.InitInv(p.stage);
    PlanIsGood(p.net);
    Untar.InitInv(p.untar, Plan(p.net));
    PublishedFits(p.net, contents, size, p.stage.g);
  }

  // ---------------------------------------------------------------- preservation

  lemma NetIsStocked(net: Fetch.Net)
    requires Fetch.Inv(net)
    ensures WellStocked(net.reg)
  {
  }

  lemma FetchKeeps(p: Pipe, f: Fetch.Event)
    requires Inv(p) && Enabled(p, EFetch(f))
    ensures Apply(p, EFetch(f)).Ok? && Inv(Apply(p, EFetch(f)).value)
    ensures !f.EAsk? ==> Work(Apply(p, EFetch(f)).value) < Work(p)
    ensures f.EAsk? ==> Work(Apply(p, EFetch(f)).value) <= Work(p) + 13 * |p.net.reg[f.layer]|
  {
    hide Fetch.Inv, Fetch.Apply, Fetch.Work, Decompress.Inv, Decompress.Work, Untar.Inv, Untar.Work;
    Fetch.StepKeeps(p.net, f);
    var net := Fetch.Apply(p.net, f).value;
    NetIsStocked(net);
    PlanIsGood(net);
    Untar.PlanGrows(p.untar, Plan(p.net), Plan(net));
    if f.ERecv? {
      var x := [Fetch.Received(p.net.toClient[0])];
      assert p.stage.submitted + (p.handoff + x) == (p.stage.submitted + p.handoff) + x;
    }
  }

  lemma HandoffFits(p: Pipe)
    requires Inv(p) && p.handoff != []
    ensures Decompress.Fits(p.stage.g, p.handoff[0])
  {
    assert p.net.out[|p.stage.submitted|] == p.handoff[0];
    assert p.handoff[0] in p.net.out;
  }

  lemma HandoffKeeps(p: Pipe)
    requires Inv(p) && Enabled(p, EHandoff)
    ensures Apply(p, EHandoff).Ok? && Inv(Apply(p, EHandoff).value)
    ensures Work(Apply(p, EHandoff).value) < Work(p)
  {
    hide Fetch.Inv, Fetch.Work, Decompress.Inv, Decompress.Work, Decompress.Apply, Untar.Inv, Untar.Work;
    HandoffFits(p);
    var x := p.handoff[0];
    Decompress.StepKeeps(p.stage, Decompress.ESubmit(x));
    SubmitFrame(p.stage, x);
    assert p.stage.submitted + p.handoff == (p.stage.submitted + [x]) + p.handoff[1..];
  }

  lemma SubmitFrame(s: Decompress.Stage, x: Element)
    requires Decompress.Enabled(s, Decompress.ESubmit(x)) && Decompress.Apply(s, Decompress.ESubmit(x)).Ok?
    ensures var t := Decompress.Apply(s, Decompress.ESubmit(x)).value;
      t.submitted == s.submitted + [x] && t.delivered == s.delivered && t.g == s.g
  {
  }

  lemma StageFrame(s: Decompress.Stage, d: Decompress.Event)
    requires Decompress.Enabled(s, d) && Decompress.Apply(s, d).Ok? && !d.ESubmit?
    ensures var t := Decompress.Apply(s, d).value;
      && t.submitted == s.submitted && t.g == s.g
      && (t.delivered == s.delivered
          || (d.EHostRecv? && |t.delivered| == |s.delivered| + 1 && s.delivered <= t.delivered))
  {
  }

  /** The piece that the host hands over next continues its layer. */
  lemma NextPiece(p: Pipe, delivered: seq<Piece>)
    requires Fetch.Inv(p.net) && p.stage.submitted <= p.net.out
    requires delivered != [] && delivered <= Unpacks(p.stage.submitted)
    ensures var x := Last(delivered);
      x.layer in Plan(p.net) && Of(x.layer, ButLast(delivered)) + [x] <= Plan(p.net)[x.layer]
  {
    var x := Last(delivered);
    assert delivered == ButLast(delivered) + [x];
    assert delivered <= Unpacks(p.net.out);
    hide Unpacks, Fetch.Inv, Of;
    Untar.GiveOf(ButLast(delivered), x, x.layer);
    OfPrefix(x.layer, delivered, Unpacks(p.net.out));
    Fetch.ArrivesInOrder(p.net, x.layer);
    assert Of(x.layer, delivered) != [];
  }

  lemma DeliveredIsPrefix(s: Decompress.Stage)
    requires Decompress.Inv(s)
    ensures s.delivered <= Unpacks(s.submitted)
  {
  }

  lemma StageKeeps(p: Pipe, d: Decompress.Event)
    requires Inv(p) && Enabled(p, EStage(d))
    ensures Apply(p, EStage(d)).Ok? && Inv(Apply(p, EStage(d)).value)
    ensures Decompress.Internal(d) ==> Work(Apply(p, EStage(d)).value) < Work(p)
    ensures d.EScribble? ==> Work(Apply(p, EStage(d)).value) <= Work(p)
  {
    hide Fetch.Inv, Fetch.Work, Decompress.Inv, Decompress.Work, Decompress.Apply, Untar.Inv, Untar.Work, Untar.Give;
    Decompress.StepKeeps(p.stage, d);
    StageFrame(p.stage, d);
    var t := Decompress.Apply(p.stage, d).value;
    if t.delivered != p.stage.delivered {
      DeliveredIsPrefix(t);
      assert ButLast(t.delivered) == p.stage.delivered;
      NextPiece(p, t.delivered);
      Untar.GiveKeeps(p.untar, Plan(p.net), Last(t.delivered));
    }
  }

  lemma UntarKeeps(p: Pipe, u: Untar.Event)
    requires Inv(p) && Enabled(p, EUntar(u))
    ensures Apply(p, EUntar(u)).Ok? && Inv(Apply(p, EUntar(u)).value)
    ensures Work(Apply(p, EUntar(u)).value) < Work(p)
  {
    hide Fetch.Inv, Fetch.Work, Decompress.Inv, Decompress.Work, Untar.Inv, Untar.Work;
    match u
    case EEmplace => Untar.EmplaceKeeps(p.untar, Plan(p.net));
    case EWork(_, _) => Untar.WorkKeeps(p.untar, Plan(p.net), u);
  }

  /** Everything except new pulls and the hardware's partial writes. */
  predicate Internal(e: Event) {
    !(e.EFetch? && e.f.EAsk?) && !(e.EStage? && e.d.EScribble?)
  }

  function AskedSegments(p: Pipe, e: Event): nat {
    if e.EFetch? && e.f.EAsk? && e.f.layer in p.net.reg then |p.net.reg[e.f.layer]| else 0
  }

  lemma StepKeeps(p: Pipe, e: Event)
    requires Inv(p) && Enabled(p, e)
    ensures Apply(p, e).Ok? && Inv(Apply(p, e).value)
    ensures Apply(p, e).value.net.reg == p.net.reg && Apply(p, e).value.stage.g == p.stage.g
    ensures Internal(e) ==> Work(Apply(p, e).value) < Work(p)
    ensures Work(Apply(p, e).value) <= Work(p) + 13 * AskedSegments(p, e)
  {
    hide Inv, Work;
    match e
    case EFetch(f) =>
      FetchKeeps(p, f);
    case EHandoff =>
      HandoffKeeps(p);
    case EStage(d) =>
      StageKeeps(p, d);
      StageFrame(p.stage, d);
    case EUntar(u) =>
      UntarKeeps(p, u);
  }

  // ---------------------------------------------------------------- whole runs

  ghost predicate Feasible(p: Pipe, es: seq<Event>)
    decreases |es|
  {
    es != [] ==>
      Enabled(p, es[0]) && (Apply(p, es[0]).Ok? ==> Feasible(Apply(p, es[0]).value, es[1..]))
  }

  ghost function Run(p: Pipe, es: seq<Event>): Outcome<Pipe>
    requires Feasible(p, es)
    decreases |es|
  {
    if es == [] then Ok(p)
    else
      var q :- Apply(p, es[0]);
      Run(q, es[1..])
  }

  function CountInternal(es: seq<Event>): nat {
    if es == [] then 0 else (if Internal(es[0]) then 1 else 0) + CountInternal(es[1..])
  }

  /** How many segments the pulls in `es` ask for. */
  function TotalAsked(p: Pipe, es: seq<Event>): nat {
    if es == [] then 0 else AskedSegments(p, es[0]) + TotalAsked(p, es[1..])
  }

  lemma {:induction false} TotalAskedFrame(p: Pipe, q: Pipe, es: seq<Event>)
    requires p.net.reg == q.net.reg
    ensures TotalAsked(p, es) == TotalAsked(q, es)
  {
    if es != [] {
      TotalAskedFrame(p, q, es[1..]);
    }
  }

  lemma {:induction false} RunKeeps(p: Pipe, es: seq<Event>)
    requires Inv(p) && Feasible(p, es)
    ensures Run(p, es).Ok? && Inv(Run(p, es).value)
    ensures Run(p, es).value.net.reg == p.net.reg && Run(p, es).value.stage.g == p.stage.g
    ensures CountInternal(es) + Work(Run(p, es).value) <= Work(p) + 13 * TotalAsked(p, es)
    decreases |es|
  {
    hide Inv, Apply, Work, AskedSegments;
    if es != [] {
      StepKeeps(p, es[0]);
      var q := Apply(p, es[0]).value;
      RunKeeps(q, es[1..]);
      TotalAskedFrame(p, q, es[1..]);
    }
  }

  lemma {:induction false} ConcatIsJoin(ps: seq<Piece>, cs: seq<Bytes>)
    requires |ps| == |cs| && forall i :: 0 <= i < |ps| ==> ps[i].bytes == cs[i]
    ensures Untar.Concat(ps) == Splitter.Join(cs)
  {
    if ps != [] {
      ConcatIsJoin(ps[1..], cs[1..]);
    }
  }

  /** The pieces of a published layer make up the layer. */
  lemma FullIsContent(p: Pipe, contents: map<string, Bytes>, size: nat, l: string)
    requires Published(p.net.reg, contents, size, p.stage.g) && l in Plan(p.net)
    ensures l in contents && Untar.Concat(Plan(p.net)[l]) == contents[l]
    ensures (exists x :: x in Plan(p.net)[l] && x.bytes == []) ==> contents[l] == []
  {
    var full, cs := Plan(p.net)[l], Splitter.Chunks(contents[l], size);
    assert forall i :: 0 <= i < |full| ==> full[i].bytes == cs[i];
    ConcatIsJoin(full, cs);
    Splitter.ChunksJoin(contents[l], size);
    Splitter.ChunkSizes(contents[l], size);
  }

  lemma WrittenIsContentPrefix(p: Pipe, contents: map<string, Bytes>, size: nat, i: nat)
    requires Inv(p) && Published(p.net.reg, contents, size, p.stage.g) && i < |p.untar.tasks|
    ensures var t := p.untar.tasks[i];
      && t.layer in contents && t.layer in p.net.asked
      && t.written <= contents[t.layer]
      && (t.status == Untar.Done ==> t.written == contents[t.layer])
      && (t.status == Untar.Failed ==> t.written == contents[t.layer] == [])
  {
    hide Fetch.Inv, Decompress.Inv;
    Untar.WrittenIsPrefix(p.untar, Plan(p.net), i);
    FullIsContent(p, contents, size, p.untar.tasks[i].layer);
  }

  /** END TO END.  For every registry content, segment size, number of buffers and interleaving of the
      fetcher, the server, the engine, the host and the workers: no step fails, the bytes written to a
      layer's tar are always a prefix of that layer, and all of it once its task has ended. */
  lemma EndToEnd(p: Pipe, contents: map<string, Bytes>, size: nat, es: seq<Event>, i: nat)
    requires Init(p) && Published(p.net.reg, contents, size, p.stage.g) && Feasible(p, es)
    ensures Run(p, es).Ok?
    ensures var q := Run(p, es).value; i < |q.untar.tasks| ==>
      && q.untar.tasks[i].layer in contents
      && q.untar.tasks[i].written <= contents[q.untar.tasks[i].layer]
      && (q.untar.tasks[i].status != Untar.Running ==> q.untar.tasks[i].written == contents[q.untar.tasks[i].layer])
  {
    hide Inv, Init, Published, Feasible, Run;
    InitInv(p, contents, size);
    RunKeeps(p, es);
    var q := Run(p, es).value;
    if i < |q.untar.tasks| {
      WrittenIsContentPrefix(q, contents, size, i);
    }
  }

  lemma QuietPartsQuiet(p: Pipe)
    requires forall e :: Internal(e) ==> !Enabled(p, e)
    ensures !Fetch.Enabled(p.net, Fetch.EConnect) && !Fetch.Enabled(p.net, Fetch.EServe)
    ensures !Fetch.Enabled(p.net, Fetch.ERecv) && p.handoff == [] && p.untar.adding == None
    ensures forall d :: Decompress.Internal(d) ==> !Decompress.Enabled(p.stage, d)
    ensures forall id: nat :: !Untar.Enabled(p.untar, Untar.EWork(id, 0))
  {
    assert !Enabled(p, EFetch(Fetch.EConnect)) && !Enabled(p, EFetch(Fetch.EServe)) && !Enabled(p, EFetch(Fetch.ERecv));
    assert !Enabled(p, EHandoff) && !Enabled(p, EUntar(Untar.EEmplace));
    forall d | Decompress.Internal(d)
      ensures !Decompress.Enabled(p.stage, d)
    {
      assert !Enabled(p, EStage(d));
    }
    forall id: nat
      ensures !Untar.Enabled(p.untar, Untar.EWork(id, 0))
    {
      assert !Enabled(p, EUntar(Untar.EWork(id, 0)));
    }
  }

  lemma QuietAllGiven(p: Pipe, l: string)
    requires Inv(p) && (forall e :: Internal(e) ==> !Enabled(p, e)) && l in p.net.asked
    ensures l in Plan(p.net) && Of(l, p.untar.given) == Plan(p.net)[l]
  {
    QuietPartsQuiet(p);
    hide Untar.Inv;
    Fetch.QuietMeansFetched(p.net, l);
    hide Fetch.Inv;
    Decompress.QuietMeansDelivered(p.stage);
    assert p.stage.submitted == p.net.out;
  }

  lemma HasTask(p: Pipe, l: string)
    requires Inv(p) && l in Plan(p.net) && Of(l, p.untar.given) == Plan(p.net)[l]
    ensures Untar.HasTask(p.untar.tasks, l)
  {
    NetIsStocked(p.net);
    assert Plan(p.net)[l] != [];
  }

  lemma QuietTasksEnd(p: Pipe, i: nat)
    requires Inv(p) && (forall e :: Internal(e) ==> !Enabled(p, e)) && i < |p.untar.tasks|
    ensures p.untar.tasks[i].status != Untar.Running
  {
    QuietPartsQuiet(p);
    forall k | k in Plan(p.net)
      ensures Of(k, p.untar.given) == Plan(p.net)[k]
    {
      QuietAllGiven(p, k);
    }
    hide Fetch.Inv, Decompress.Inv, Untar.Inv, Of, Plan, Untar.Enabled;
    if p.untar.tasks[i].status == Untar.Running {
      var f := Untar.SomeWorkerMoves(p.untar, Plan(p.net), i);
    }
  }

  /** Nothing left to happen means that every layer asked for has been untarred completely. */
  lemma QuietMeansComplete(p: Pipe, contents: map<string, Bytes>, size: nat, l: string) returns (i: nat)
    requires Inv(p) && Published(p.net.reg, contents, size, p.stage.g)
    requires (forall e :: Internal(e) ==> !Enabled(p, e)) && l in p.net.asked
    ensures i < |p.untar.tasks| && p.untar.tasks[i].layer == l && p.untar.tasks[i].status != Untar.Running
    ensures l in contents && p.untar.tasks[i].written == contents[l]
  {
    hide Inv, Published, Plan, Internal, Enabled;
    QuietAllGiven(p, l);
    HasTask(p, l);
    i :| 0 <= i < |p.untar.tasks| && p.untar.tasks[i].layer == l;
    QuietTasksEnd(p, i);
    WrittenIsContentPrefix(p, contents, size, i);
  }

  /** PROGRESS.  A run takes at most 6 internal steps plus 13 for every segment asked for, whatever the
      scheduling; when no internal step is left, every layer asked for is in its tar, completely. */
  lemma EveryMaximalRunCompletes(p: Pipe, contents: map<string, Bytes>, size: nat, es: seq<Event>, l: string)
    requires Init(p) && Published(p.net.reg, contents, size, p.stage.g) && Feasible(p, es)
    ensures Run(p, es).Ok?
    ensures CountInternal(es) <= 6 + 13 * TotalAsked(p, es)
    ensures var q := Run(p, es).value;
      (forall e :: Internal(e) ==> !Enabled(q, e)) && l in q.net.asked ==>
      exists i :: 0 <= i < |q.untar.tasks| && q.untar.tasks[i].layer == l && l in contents
                  && q.untar.tasks[i].written == contents[l] && q.untar.tasks[i].status != Untar.Running
  {
    hide Inv, Init, Published, Feasible, Run, Work, CountInternal, TotalAsked, Enabled, Internal;
    InitInv(p, contents, size);
    RunKeeps(p, es);
    var q := Run(p, es).value;
    WorkIsNat(q);
    if (forall e :: Internal(e) ==> !Enabled(q, e)) && l in q.net.asked {
      var i := QuietMeansComplete(q, contents, size, l);
    }
  }
}
