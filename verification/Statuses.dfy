/** What tar returned is ignored.  A worker reports whether tar succeeded (src/host/client/untar_engine.cc:46-55),
    and completeTask counts the report whatever it says and answers with success
    (src/host/client/offload_client_epoll.cc:106-126). */
module Statuses {
  import opened Base
  import opened Segments
  import Fetch
  import Decompress
  import Untar
  import Pipeline
  import Pulls
  import opened WholeSystem

  /** Two events that differ at most in what tar returns to a worker. */
  predicate SameEvent(e: Event, f: Event) {
    || e == f
    || (e.EPipe? && f.EPipe? && e.e.EUntar? && f.e.EUntar? && e.e.u.EWork? && f.e.u.EWork? && e.e.u.id == f.e.u.id)
  }

  predicate SameUpToStatus(es: seq<Event>, fs: seq<Event>) {
    |es| == |fs| && forall i :: 0 <= i < |es| ==> SameEvent(es[i], fs[i])
  }

  predicate SameReports(a: seq<Untar.Report>, b: seq<Untar.Report>) {
    |a| == |b| && forall i :: 0 <= i < |a| ==> a[i].layer == b[i].layer && a[i].image == b[i].image
  }

  /** Two states of the engine that differ at most in what the reports say about success. */
  predicate SameEngine(u: Untar.Engine, v: Untar.Engine) {
    v == u.(reports := v.reports) && SameReports(u.reports, v.reports)
  }

  predicate SamePipe(p: Pipeline.Pipe, q: Pipeline.Pipe) {
    q == p.(untar := q.untar) && SameEngine(p.untar, q.untar)
  }

  predicate Same(w: World, v: World) {
    v == w.(pipe := v.pipe) && SamePipe(w.pipe, v.pipe)
  }

  /** Both fail, or both lead to states that are the same in this sense. */
  predicate SameOutcome(a: Outcome<World>, b: Outcome<World>) {
    a.Ok? == b.Ok? && (a.Ok? ==> Same(a.value, b.value))
  }

  // ---------------------------------------------------------------- one step

  lemma GiveSame(u: Untar.Engine, v: Untar.Engine, x: Piece)
    requires SameEngine(u, v)
    ensures Untar.Give(u, x).Ok? == Untar.Give(v, x).Ok?
    ensures Untar.Give(u, x).Ok? ==> SameEngine(Untar.Give(u, x).value, Untar.Give(v, x).value)
  {
  }

  lemma WorkSame(u: Untar.Engine, v: Untar.Engine, id: nat, status: int, other: int)
    requires SameEngine(u, v) && Untar.Enabled(u, Untar.EWork(id, status))
    ensures Untar.Enabled(v, Untar.EWork(id, other))
    ensures var a, b := Untar.Apply(u, Untar.EWork(id, status)), Untar.Apply(v, Untar.EWork(id, other));
      a.Ok? && b.Ok? && SameEngine(a.value, b.value)
  {
  }

  lemma EmplaceSame(u: Untar.Engine, v: Untar.Engine)
    requires SameEngine(u, v) && Untar.Enabled(u, Untar.EEmplace)
    ensures Untar.Enabled(v, Untar.EEmplace)
    ensures var a, b := Untar.Apply(u, Untar.EEmplace), Untar.Apply(v, Untar.EEmplace);
      a.Ok? == b.Ok? && (a.Ok? ==> SameEngine(a.value, b.value))
  {
  }

  lemma PipeSame(p: Pipeline.Pipe, q: Pipeline.Pipe, x: Pipeline.Event)
    requires SamePipe(p, q) && Pipeline.Enabled(p, x) && !x.EUntar?
    ensures Pipeline.Enabled(q, x)
    ensures var a, b := Pipeline.Apply(p, x), Pipeline.Apply(q, x);
      a.Ok? == b.Ok? && (a.Ok? ==> SamePipe(a.value, b.value))
  {
    hide Fetch.Apply, Decompress.Apply, Untar.Give;
    if x.EStage? && Decompress.Apply(p.stage, x.d).Ok? {
      var t := Decompress.Apply(p.stage, x.d).value;
      if t.delivered != [] {
        GiveSame(p.untar, q.untar, Last(t.delivered));
      }
    }
  }

  lemma UntarSame(p: Pipeline.Pipe, q: Pipeline.Pipe, u: Untar.Event, v: Untar.Event)
    requires SamePipe(p, q) && Pipeline.Enabled(p, Pipeline.EUntar(u))
    requires u == v || (u.EWork? && v.EWork? && u.id == v.id)
    ensures Pipeline.Enabled(q, Pipeline.EUntar(v))
    ensures var a, b := Pipeline.Apply(p, Pipeline.EUntar(u)), Pipeline.Apply(q, Pipeline.EUntar(v));
      a.Ok? == b.Ok? && (a.Ok? ==> SamePipe(a.value, b.value))
  {
    hide Untar.Apply, Untar.Enabled;
    match u
    case EWork(id, status) => WorkSame(p.untar, q.untar, id, status, v.status);
    case EEmplace => EmplaceSame(p.untar, q.untar);
  }

  lemma StepSame(w: World, v: World, e: Event, f: Event)
    requires Same(w, v) && SameEvent(e, f) && Enabled(w, e)
    ensures Enabled(v, f) && SameOutcome(Apply(w, e), Apply(v, f))
  {
    hide Pipeline.Apply, Pipeline.Enabled, Pulls.Apply, Pulls.OnPull, Pulls.OnRecv, Pulls.Serve, Pulls.OnConnected;
    match e {
      case EPipe(x) =>
        if x.EUntar? {
          UntarSame(w.pipe, v.pipe, x.u, f.e.u);
        } else {
          PipeSame(w.pipe, v.pipe, x);
        }
      case EFetch => FetchSame(w, v);
      case EReport => assert SameReports(w.pipe.untar.reports, v.pipe.untar.reports);
      case _ =>
    }
  }

  lemma FetchSame(w: World, v: World)
    requires Same(w, v) && w.calls != []
    ensures SameOutcome(Apply(w, EFetch), Apply(v, EFetch))
  {
    var x := Ask(w.calls[0]);
    assert Pipeline.Enabled(w.pipe, x) <==> Pipeline.Enabled(v.pipe, x);
    hide Pipeline.Apply, Pipeline.Enabled;
    if Pipeline.Enabled(w.pipe, x) {
      PipeSame(w.pipe, v.pipe, x);
    }
  }

  // ---------------------------------------------------------------- whole runs

  lemma {:induction false} RunSame(w: World, v: World, es: seq<Event>, fs: seq<Event>)
    requires Same(w, v) && SameUpToStatus(es, fs) && Feasible(w, es)
    ensures Feasible(v, fs) && SameOutcome(Run(w, es), Run(v, fs))
    decreases |es|
  {
    hide Apply, Enabled, Same, SameEvent;
    if es != [] {
      assert SameEvent(es[0], fs[0]);
      StepSame(w, v, es[0], fs[0]);
      if Apply(w, es[0]).Ok? {
        assert forall i :: 0 <= i < |es[1..]| ==> es[1..][i] == es[i + 1] && fs[1..][i] == fs[i + 1];
        RunSame(Apply(w, es[0]).value, Apply(v, fs[0]).value, es[1..], fs[1..]);
      }
    }
  }

  /** Whatever tar returns to whatever worker, everything else happens in the same way: a run stays possible,
      and the pulls, with all replies, end up the same. */
  lemma StatusesIgnored(w: World, es: seq<Event>, fs: seq<Event>)
    requires SameUpToStatus(es, fs) && Feasible(w, es)
    ensures Feasible(w, fs) && Run(w, es).Ok? == Run(w, fs).Ok?
    ensures Run(w, es).Ok? ==> Run(w, es).value.pulls == Run(w, fs).value.pulls
  {
    RunSame(w, w, es, fs);
  }

  // ---------------------------------------------------------------- answers after failure

  /** The same run with every tar failing. */
  function Failing(es: seq<Event>): seq<Event> {
    seq(|es|, i requires 0 <= i < |es| =>
      if es[i].EPipe? && es[i].e.EUntar? && es[i].e.u.EWork?
      then EPipe(Pipeline.EUntar(Untar.EWork(es[i].e.u.id, 1))) else es[i])
  }

  lemma FailingSame(es: seq<Event>)
    ensures SameUpToStatus(es, Failing(es))
  {
  }

  ghost predicate AllFailed(rs: seq<Untar.Report>) {
    forall i :: 0 <= i < |rs| ==> !rs[i].success
  }

  predicate Fails(e: Event) {
    e.EPipe? && e.e.EUntar? && e.e.u.EWork? ==> e.e.u.status == 1
  }

  lemma StepFails(w: World, e: Event)
    requires Enabled(w, e) && Fails(e) && Apply(w, e).Ok? && AllFailed(w.pipe.untar.reports)
    ensures AllFailed(Apply(w, e).value.pipe.untar.reports)
  {
    hide Fetch.Apply, Decompress.Apply, Pulls.Apply, Pulls.OnPull, Pulls.OnRecv, Pulls.Serve, Pulls.OnConnected;
  }

  lemma {:induction false} RunFails(w: World, es: seq<Event>)
    requires Feasible(w, es) && Run(w, es).Ok? && AllFailed(w.pipe.untar.reports)
    requires forall i :: 0 <= i < |es| ==> Fails(es[i])
    ensures AllFailed(Run(w, es).value.pipe.untar.reports)
    decreases |es|
  {
    if es != [] {
      hide Apply, Enabled, Fails, AllFailed;
      StepFails(w, es[0]);
      assert forall i :: 0 <= i < |es[1..]| ==> es[1..][i] == es[i + 1];
      RunFails(Apply(w, es[0]).value, es[1..]);
    }
  }

  /** Any run gives the same answers when every tar of every layer fails. */
  lemma AnsweredThoughAllFailed(w: World, es: seq<Event>)
    requires w.pipe.untar.reports == [] && Feasible(w, es) && Run(w, es).Ok?
    ensures Feasible(w, Failing(es)) && Run(w, Failing(es)).Ok?
    ensures Run(w, Failing(es)).value.pulls == Run(w, es).value.pulls
    ensures AllFailed(Run(w, Failing(es)).value.pipe.untar.reports)
  {
    FailingSame(es);
    StatusesIgnored(w, es, Failing(es));
    RunFails(w, Failing(es));
  }

  /** For every image with layers there is a run from the start in which its pull is answered although tar has
      failed for every layer. */
  lemma FailureIsAnswered(w: World, contents: map<string, Bytes>, size: nat, i: Image, conn: nat)
      returns (es: seq<Event>)
    requires Init(w) && Pipeline.Published(w.pipe.net.reg, contents, size, w.pipe.stage.g)
    requires i in w.manifests && w.manifests[i] != []
    ensures Feasible(w, es) && Run(w, es).Ok?
    ensures Pulls.Pull(i, conn, 0) in Run(w, es).value.pulls.replied
    ensures AllFailed(Run(w, es).value.pipe.untar.reports)
  {
    StartFacts(w);
    hide Init, Pipeline.Published, Feasible, Run, Failing, AllFailed;
    es := SomeRunAnswers(w, contents, size, i, conn);
    AnsweredThoughAllFailed(w, es);
    es := Failing(es);
  }
}
