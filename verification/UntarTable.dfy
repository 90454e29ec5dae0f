/** When the untar engine is ready for a layer again.  `untar` enters a new queue into the table after it has
    started the worker (src/host/client/untar_engine.cc:80-86), and the worker erases the entry when it ends
    (line 40), so an entry can be made after it should have been erased.  A layer whose entry stays cannot be
    pulled a second time: its pieces go to a queue that nobody reads. */
module UntarTable {
  import opened Base
  import opened Segments
  import opened Untar
  import Fetch
  import Decompress
  import Pipeline

  // ---------------------------------------------------------------- runs of the engine

  /** The host hands over a piece, or the engine takes a step of its own. */
  datatype Act = Hand(p: Piece) | Step(e: Event)

  ghost predicate Can(u: Engine, plan: Plan, a: Act) {
    match a
    case Hand(p) => u.adding.None? && p.layer in plan && Of(p.layer, u.given) + [p] <= plan[p.layer]
    case Step(e) => Enabled(u, e)
  }

  function Do(u: Engine, a: Act): Outcome<Engine>
    requires a.Step? ==> Enabled(u, a.e)
  {
    match a
    case Hand(p) => Give(u, p)
    case Step(e) => Apply(u, e)
  }

  ghost predicate Feasible(u: Engine, plan: Plan, acts: seq<Act>)
    decreases |acts|
  {
    acts != [] ==>
      Can(u, plan, acts[0]) && (Do(u, acts[0]).Ok? ==> Feasible(Do(u, acts[0]).value, plan, acts[1..]))
  }

  ghost function Run(u: Engine, plan: Plan, acts: seq<Act>): Outcome<Engine>
    requires Feasible(u, plan, acts)
    decreases |acts|
  {
    if acts == [] then Ok(u)
    else
      var v :- Do(u, acts[0]);
      Run(v, plan, acts[1..])
  }

  // ---------------------------------------------------------------- entries are erased

  /** A worker that has ended well leaves no entry, if its layer has at least two segments; and it ended on
      a segment that was not empty. */
  ghost predicate Erased(u: Engine, plan: Plan) {
    forall i :: 0 <= i < |u.tasks| && u.tasks[i].status == Done && u.tasks[i].layer in plan ==>
      && (|plan[u.tasks[i].layer]| >= 2 ==> u.adding != Some(i) && u.tasks[i].layer !in u.table)
      && plan[u.tasks[i].layer] != [] && Last(plan[u.tasks[i].layer]).bytes != []
  }

  /** While a queue waits to be entered, only the first piece of its layer has been handed over. */
  ghost predicate OnePieceYet(u: Engine) {
    u.adding.Some? && u.adding.value < |u.tasks| ==> |Of(u.tasks[u.adding.value].layer, u.given)| == 1
  }

  ghost predicate Tidy(u: Engine, plan: Plan) {
    Erased(u, plan) && OnePieceYet(u)
  }

  /** A worker ends well on the last segment of its layer, which is not empty. */
  lemma RoundEnds(t: Task, got: seq<Piece>, full: seq<Piece>)
    requires t.queue != [] && |t.queue| <= |got| && t.queue == got[|got| - |t.queue|..] && got <= full
    requires forall i :: 0 <= i < |full| ==> full[i].index == i && full[i].total == |full|
    requires Round(t).status == Done
    ensures full != [] && Last(full).bytes != [] && |full| <= |got|
  {
    var k := |got| - |t.queue|;
    assert t.queue[0] == got[k] == full[k];
  }

  lemma EndsOnLast(u: Engine, plan: Plan, id: nat)
    requires Inv(u, plan) && Enabled(u, EWork(id, 0)) && Round(u.tasks[id]).status == Done
    ensures u.tasks[id].layer in plan
    ensures var full := plan[u.tasks[id].layer];
      full != [] && Last(full).bytes != [] && |full| <= |Of(u.tasks[id].layer, u.given)|
  {
    assert GoodPlan(plan);
    hide Inv, Of, Concat, Round;
    TaskFacts(u, plan, id);
    var t := u.tasks[id];
    RoundEnds(t, Of(t.layer, u.given), plan[t.layer]);
  }

  lemma LayersDiffer(u: Engine, plan: Plan)
    requires Inv(u, plan)
    ensures forall i, j :: 0 <= i < j < |u.tasks| ==> u.tasks[i].layer != u.tasks[j].layer
    ensures u.adding.Some? ==> u.adding.value < |u.tasks|
    ensures forall i :: 0 <= i < |u.tasks| && u.tasks[i].status == Failed ==>
      u.adding == Some(i) || u.tasks[i].layer in u.table
  {
  }

  lemma WorkTidy(u: Engine, plan: Plan, e: Event)
    requires Inv(u, plan) && Tidy(u, plan) && e.EWork? && Enabled(u, e)
    ensures Apply(u, e).Ok? && Tidy(Apply(u, e).value, plan)
  {
    hide Inv, Of;
    LayersDiffer(u, plan);
    if Round(u.tasks[e.id]).status == Done {
      assert Enabled(u, EWork(e.id, 0));
      EndsOnLast(u, plan, e.id);
    }
  }

  lemma EmplaceTidy(u: Engine, plan: Plan)
    requires Inv(u, plan) && Tidy(u, plan) && Enabled(u, EEmplace)
    ensures Apply(u, EEmplace).Ok? && Tidy(Apply(u, EEmplace).value, plan)
  {
    hide Inv, Of;
    LayersDiffer(u, plan);
  }

  lemma FirstOfLayer(u: Engine, plan: Plan, p: Piece)
    requires Inv(u, plan) && Can(u, plan, Hand(p)) && p.layer !in u.table
    ensures Of(p.layer, u.given + [p]) == [p]
  {
    NewLayer(u, plan, p);
    GiveOf(u.given, p, p.layer);
  }

  lemma GiveTidy(u: Engine, plan: Plan, p: Piece)
    requires Inv(u, plan) && Tidy(u, plan) && Can(u, plan, Hand(p))
    ensures Give(u, p).Ok? && Tidy(Give(u, p).value, plan)
  {
    hide Inv, Of;
    GiveKeeps(u, plan, p);
    if p.layer !in u.table {
      FirstOfLayer(u, plan, p);
    }
  }

  lemma ActTidy(u: Engine, plan: Plan, a: Act)
    requires Inv(u, plan) && Tidy(u, plan) && Can(u, plan, a)
    ensures Do(u, a).Ok? && Inv(Do(u, a).value, plan) && Tidy(Do(u, a).value, plan)
  {
    hide Inv, Tidy;
    match a {
      case Hand(p) =>
        GiveKeeps(u, plan, p);
        GiveTidy(u, plan, p);
      case Step(e) =>
        if e.EWork? {
          WorkKeeps(u, plan, e);
          WorkTidy(u, plan, e);
        } else {
          EmplaceKeeps(u, plan);
          EmplaceTidy(u, plan);
        }
    }
  }

  lemma {:induction false} RunTidy(u: Engine, plan: Plan, acts: seq<Act>)
    requires Inv(u, plan) && Tidy(u, plan) && Feasible(u, plan, acts)
    ensures Run(u, plan, acts).Ok?
    ensures Inv(Run(u, plan, acts).value, plan) && Tidy(Run(u, plan, acts).value, plan)
    decreases |acts|
  {
    if acts != [] {
      hide Inv, Tidy, Do, Can;
      ActTidy(u, plan, acts[0]);
      RunTidy(Do(u, acts[0]).value, plan, acts[1..]);
    }
  }

  // ---------------------------------------------------------------- a second pull

  /** Handing over p starts a worker for it. */
  predicate StartsTask(u: Engine, p: Piece) {
    Give(u, p).Ok? && |Give(u, p).value.tasks| == |u.tasks| + 1
  }

  lemma StartsTaskIff(u: Engine, p: Piece)
    requires u.adding.None?
    ensures StartsTask(u, p) <==> p.layer !in u.table
  {
  }

  ghost predicate EndedWell(u: Engine, l: string) {
    exists i :: 0 <= i < |u.tasks| && u.tasks[i].layer == l && u.tasks[i].status == Done
  }

  /** If layer l has been untarred and the engine takes pieces, any piece of l would start a new task. */
  ghost predicate Restartable(u: Engine, l: string) {
    EndedWell(u, l) && u.adding.None? ==> forall p: Piece :: p.layer == l ==> StartsTask(u, p)
  }

  ghost predicate AlwaysRestartable(plan: Plan, l: string) {
    forall u: Engine, acts: seq<Act> :: Init(u) && Feasible(u, plan, acts) && Run(u, plan, acts).Ok? ==>
      Restartable(Run(u, plan, acts).value, l)
  }

  ghost predicate Labelled(plan: Plan) {
    forall l, i :: l in plan && 0 <= i < |plan[l]| ==> plan[l][i].layer == l
  }

  lemma TidyRestartable(u: Engine, plan: Plan, l: string)
    requires Tidy(u, plan) && l in plan && (|plan[l]| >= 2 || (plan[l] != [] && plan[l][0].bytes == []))
    ensures Restartable(u, l)
  {
    if EndedWell(u, l) && u.adding.None? {
      forall p: Piece | p.layer == l
        ensures StartsTask(u, p)
      {
        StartsTaskIff(u, p);
      }
    }
  }

  /** The schedule that leaves an entry behind: the worker ends before its queue is entered. */
  lemma StaleEntry(plan: Plan, l: string) returns (u: Engine, acts: seq<Act>)
    requires GoodPlan(plan) && Labelled(plan) && l in plan && |plan[l]| == 1 && plan[l][0].bytes != []
    ensures Init(u) && Feasible(u, plan, acts) && Run(u, plan, acts).Ok?
    ensures !Restartable(Run(u, plan, acts).value, l)
  {
    var p := plan[l][0];
    u := Engine(1, [], map[], None, [], []);
    var a, b, c := Hand(p), Step(EWork(0, 0)), Step(EEmplace);
    assert Of(l, u.given) + [p] == plan[l] && p.layer == l;
    var u1 := Do(u, a).value;
    assert u1.tasks[..0] == [] && u1.tasks[0].queue == [p];
    assert Enabled(u1, b.e);
    var u2 := Do(u1, b).value;
    var u3 := Do(u2, c).value;
    assert l in u3.table && u3.adding == None && u3.tasks[0].layer == l && u3.tasks[0].status == Done;
    StartsTaskIff(u3, p);
    assert !Restartable(u3, l);
    assert Can(u, plan, a) && Can(u1, plan, b) && Can(u2, plan, c);
    hide Do, Can, Restartable;
    Prefix(u2, plan, c, []);
    Prefix(u1, plan, b, [c]);
    Prefix(u, plan, a, [b] + [c]);
    acts := [a] + ([b] + [c]);
  }

  lemma Prefix(u: Engine, plan: Plan, a: Act, acts: seq<Act>)
    requires Can(u, plan, a) && Do(u, a).Ok? && Feasible(Do(u, a).value, plan, acts)
    ensures Feasible(u, plan, [a] + acts) && Run(u, plan, [a] + acts) == Run(Do(u, a).value, plan, acts)
  {
    assert ([a] + acts)[1..] == acts;
  }

  /** A second pull of a layer that has been untarred starts a new task in every run, if and only if the
      layer has at least two segments.  (A layer that is one empty segment does not end well at all.) */
  lemma RestartableIff(plan: Plan, l: string)
    requires GoodPlan(plan) && Labelled(plan) && l in plan
    ensures AlwaysRestartable(plan, l) <==> |plan[l]| >= 2 || plan[l][0].bytes == []
  {
    if |plan[l]| >= 2 || plan[l][0].bytes == [] {
      forall u: Engine, acts: seq<Act> | Init(u) && Feasible(u, plan, acts) && Run(u, plan, acts).Ok?
        ensures Restartable(Run(u, plan, acts).value, l)
      {
        InitInv(u, plan);
        RunTidy(u, plan, acts);
        TidyRestartable(Run(u, plan, acts).value, plan, l);
      }
    } else {
      var u, acts := StaleEntry(plan, l);
    }
  }

  // ---------------------------------------------------------------- failed layers

  lemma FailedStays(u: Engine, plan: Plan, a: Act, i: nat)
    requires Can(u, plan, a) && Do(u, a).Ok? && i < |u.tasks| && u.tasks[i].status == Failed
    ensures var v := Do(u, a).value;
      i < |v.tasks| && v.tasks[i].status == Failed && v.tasks[i].layer == u.tasks[i].layer
  {
    hide Of;
  }

  /** A worker that met an empty segment never erases its entry: in no later state of any run does a piece
      of its layer start a task. */
  lemma {:induction false} FailedNeverErased(u: Engine, plan: Plan, acts: seq<Act>, i: nat, p: Piece)
    requires Inv(u, plan) && Tidy(u, plan) && Feasible(u, plan, acts)
    requires i < |u.tasks| && u.tasks[i].status == Failed && p.layer == u.tasks[i].layer
    ensures Run(u, plan, acts).Ok? && !StartsTask(Run(u, plan, acts).value, p)
    decreases |acts|
  {
    hide Inv, Tidy, Do;
    if acts == [] {
      LayersDiffer(u, plan);
      if u.adding.None? {
        StartsTaskIff(u, p);
      }
    } else {
      ActTidy(u, plan, acts[0]);
      FailedStays(u, plan, acts[0], i);
      hide StartsTask;
      FailedNeverErased(Do(u, acts[0]).value, plan, acts[1..], i, p);
    }
  }

  // ---------------------------------------------------------------- a layer of two images

  /** No worker has been started, and nothing reported, for this layer on behalf of this image. */
  ghost predicate Unknown(u: Engine, l: string, image: string) {
    && (forall i :: 0 <= i < |u.tasks| ==> u.tasks[i].layer != l || u.tasks[i].image != image)
    && (forall i :: 0 <= i < |u.reports| ==> u.reports[i].layer != l || u.reports[i].image != image)
  }

  /** Runs that hand over whatever they like. */
  predicate Possible(u: Engine, acts: seq<Act>)
    decreases |acts|
  {
    acts != [] ==>
      (match acts[0] case Hand(_) => u.adding.None? case Step(e) => Enabled(u, e))
      && (Do(u, acts[0]).Ok? ==> Possible(Do(u, acts[0]).value, acts[1..]))
  }

  function Final(u: Engine, acts: seq<Act>): Outcome<Engine>
    requires Possible(u, acts)
    decreases |acts|
  {
    if acts == [] then Ok(u)
    else
      var v :- Do(u, acts[0]);
      Final(v, acts[1..])
  }

  /** A piece of the layer is handed over on behalf of the image while the layer has no entry. */
  predicate Starts(u: Engine, a: Act, l: string, image: string) {
    a.Hand? && a.p.layer == l && a.p.image == image && l !in u.table
  }

  predicate Started(u: Engine, acts: seq<Act>, l: string, image: string)
    requires Possible(u, acts)
    decreases |acts|
  {
    acts != [] &&
    (Starts(u, acts[0], l, image)
     || (Do(u, acts[0]).Ok? && Started(Do(u, acts[0]).value, acts[1..], l, image)))
  }

  lemma ActKnown(u: Engine, a: Act, l: string, image: string)
    requires (a.Step? ==> Enabled(u, a.e)) && Do(u, a).Ok?
    ensures Unknown(Do(u, a).value, l, image) <==> Unknown(u, l, image) && !Starts(u, a, l, image)
  {
    var v := Do(u, a).value;
    assert forall i :: 0 <= i < |u.tasks| ==>
      v.tasks[i].layer == u.tasks[i].layer && v.tasks[i].image == u.tasks[i].image;
    assert forall i :: 0 <= i < |u.reports| ==> v.reports[i] == u.reports[i];
    if a.Hand? && a.p.layer !in u.table {
      assert v.tasks[|u.tasks|] == Task(a.p.layer, a.p.image, [a.p], [], Running);
    }
  }

  /** A layer is worked on for an image if and only if one of the image's pieces arrives while the layer has
      no entry.  So of two images that share a layer, the one whose pieces all arrive while the other's worker
      holds the entry gets no worker, and no report, for it. */
  lemma {:induction false} KnownIffStarted(u: Engine, acts: seq<Act>, l: string, image: string)
    requires Unknown(u, l, image) && Possible(u, acts) && Final(u, acts).Ok?
    ensures !Unknown(Final(u, acts).value, l, image) <==> Started(u, acts, l, image)
    decreases |acts|
  {
    if acts != [] {
      ActKnown(u, acts[0], l, image);
      hide Do, Unknown;
      var v := Do(u, acts[0]).value;
      if Unknown(v, l, image) {
        KnownIffStarted(v, acts[1..], l, image);
      } else {
        StaysKnown(v, acts[1..], l, image);
      }
    }
  }

  lemma {:induction false} StaysKnown(u: Engine, acts: seq<Act>, l: string, image: string)
    requires !Unknown(u, l, image) && Possible(u, acts) && Final(u, acts).Ok?
    ensures !Unknown(Final(u, acts).value, l, image)
    decreases |acts|
  {
    if acts != [] {
      ActKnown(u, acts[0], l, image);
      hide Do, Unknown;
      StaysKnown(Do(u, acts[0]).value, acts[1..], l, image);
    }
  }

  // ---------------------------------------------------------------- in the pipeline

  lemma TidyMore(u: Engine, plan: Plan, more: Plan)
    requires Inv(u, plan) && Tidy(u, plan) && forall l :: l in plan ==> l in more && more[l] == plan[l]
    ensures Tidy(u, more)
  {
    forall i | 0 <= i < |u.tasks|
      ensures u.tasks[i].layer in plan
    {
      TaskFacts(u, plan, i);
    }
    hide Inv, Of;
  }

  lemma PlanMore(n: Fetch.Net, f: Fetch.Event)
    requires Fetch.Enabled(n, f) && Fetch.Apply(n, f).Ok?
    ensures var m := Fetch.Apply(n, f).value;
      forall l :: l in Pipeline.Plan(n) ==> l in Pipeline.Plan(m) && Pipeline.Plan(m)[l] == Pipeline.Plan(n)[l]
  {
  }

  lemma StageTidy(p: Pipeline.Pipe, d: Decompress.Event)
    requires Pipeline.Inv(p) && Tidy(p.untar, Pipeline.Plan(p.net))
    requires Pipeline.Enabled(p, Pipeline.EStage(d)) && Pipeline.Apply(p, Pipeline.EStage(d)).Ok?
    ensures var q := Pipeline.Apply(p, Pipeline.EStage(d)).value; Tidy(q.untar, Pipeline.Plan(q.net))
  {
    hide Fetch.Inv, Decompress.Inv, Decompress.Apply, Inv, Give, Tidy, Pipeline.Plan;
    Decompress.StepKeeps(p.stage, d);
    Pipeline.StageFrame(p.stage, d);
    var t := Decompress.Apply(p.stage, d).value;
    if t.delivered != p.stage.delivered {
      Pipeline.DeliveredIsPrefix(t);
      assert ButLast(t.delivered) == p.stage.delivered;
      Pipeline.NextPiece(p, t.delivered);
      GiveTidy(p.untar, Pipeline.Plan(p.net), Last(t.delivered));
    }
  }

  lemma StepTidy(p: Pipeline.Pipe, e: Pipeline.Event)
    requires Pipeline.Inv(p) && Tidy(p.untar, Pipeline.Plan(p.net))
    requires Pipeline.Enabled(p, e) && Pipeline.Apply(p, e).Ok?
    ensures var q := Pipeline.Apply(p, e).value; Tidy(q.untar, Pipeline.Plan(q.net))
  {
    hide Tidy, Inv, Fetch.Inv, Decompress.Inv, Pipeline.Plan;
    match e
    case EFetch(f) =>
      PlanMore(p.net, f);
      TidyMore(p.untar, Pipeline.Plan(p.net), Pipeline.Plan(Fetch.Apply(p.net, f).value));
    case EHandoff =>
    case EStage(d) => StageTidy(p, d);
    case EUntar(u) => ActTidy(p.untar, Pipeline.Plan(p.net), Step(u));
  }

  lemma {:induction false} PipeTidy(p: Pipeline.Pipe, es: seq<Pipeline.Event>)
    requires Pipeline.Inv(p) && Tidy(p.untar, Pipeline.Plan(p.net)) && Pipeline.Feasible(p, es)
    ensures Pipeline.Run(p, es).Ok?
    ensures var q := Pipeline.Run(p, es).value; Tidy(q.untar, Pipeline.Plan(q.net))
    decreases |es|
  {
    hide Pipeline.Inv, Pipeline.Apply, Tidy, Pipeline.Plan;
    if es != [] {
      Pipeline.StepKeeps(p, es[0]);
      StepTidy(p, es[0]);
      PipeTidy(Pipeline.Apply(p, es[0]).value, es[1..]);
    }
  }

  lemma NothingTidy(u: Engine, plan: Plan)
    requires Init(u)
    ensures Tidy(u, plan)
  {
  }

  /** In every run of the whole pipeline, a layer of at least two segments that has been untarred can be
      pulled again, as far as the engine is concerned. */
  lemma PipelineRestartable(
      p: Pipeline.Pipe, contents: map<string, Bytes>, size: nat, es: seq<Pipeline.Event>, l: string)
    requires Pipeline.Init(p) && Pipeline.Published(p.net.reg, contents, size, p.stage.g) && Pipeline.Feasible(p, es)
    requires l in p.net.reg && |p.net.reg[l]| >= 2
    ensures Pipeline.Run(p, es).Ok? && (l in Pipeline.Run(p, es).value.net.asked ==>
      Restartable(Pipeline.Run(p, es).value.untar, l))
  {
    NothingTidy(p.untar, Pipeline.Plan(p.net));
    Pipeline.InitInv(p, contents, size);
    hide Pipeline.Inv, Pipeline.Init, Pipeline.Published, Tidy, Restartable;
    Pipeline.RunKeeps(p, es);
    PipeTidy(p, es);
    var q := Pipeline.Run(p, es).value;
    if l in q.net.asked {
      TidyRestartable(q.untar, Pipeline.Plan(q.net), l);
    }
  }
}
