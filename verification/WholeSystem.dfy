/** The whole of it: the host's pulls (module Pulls) and the pipeline (module Pipeline), joined where the program
    joins them.  The DPU answers an offload request after it has handed one fetch call per layer to the
    fetcher's loop (src/dpu/offload_server_epoll.cc:103-146); an untar worker that ends hands one completeTask
    call to the offload client's loop (src/host/client/untar_engine.cc:46-55). */
module WholeSystem {
  import opened Base
  import opened Segments
  import Fetch
  import Decompress
  import Untar
  import Pipeline
  import Pulls
  import opened Answers

  type Image = Pulls.Image

  /** The metadata that loads: the layers of each image. */
  type Manifests = map<Image, seq<string>>

  /** A fetch call that the fetcher's loop has not run yet. */
  datatype Call = Call(image: Image, layer: string)

  /** `seen` is how many of the workers' reports completeTask has handled. */
  datatype World = World(manifests: Manifests, pulls: Pulls.Client, calls: seq<Call>, pipe: Pipeline.Pipe, seen: nat)

  datatype Event =
    | EPull(image: Image, conn: nat)
    | ELink
    | EServe                      // the DPU handles an offload request
    | EAnswer
    | EFetch                      // the fetcher's loop runs the next fetch call
    | EPipe(e: Pipeline.Event)    // anything the pipeline does by itself
    | EReport                     // the client's loop runs the next completeTask

  function Calls(i: Image, ls: seq<string>): seq<Call> {
    seq(|ls|, k requires 0 <= k < |ls| => Call(i, ls[k]))
  }

  /** The fetch calls that the request at the front gives rise to. */
  function NewCalls(w: World): seq<Call>
    requires w.pulls.requests != []
  {
    var m := w.pulls.requests[0];
    if m.Offload? && m.image in w.manifests then Calls(m.image, w.manifests[m.image]) else []
  }

  /** An image is pulled once in a run. */
  predicate NeverPulled(c: Pulls.Client, i: Image) {
    forall k :: 0 <= k < |c.asked| ==> c.asked[k].image != i
  }

  predicate Enabled(w: World, e: Event) {
    match e
    case EPull(i, _) => NeverPulled(w.pulls, i)
    case ELink => !w.pulls.linked
    case EServe => w.pulls.requests != []
    case EAnswer => w.pulls.answers != []
    case EFetch => w.calls != []
    case EPipe(x) => Pipeline.Enabled(w.pipe, x) && !(x.EFetch? && x.f.EAsk?)
    case EReport => w.seen < |w.pipe.untar.reports|
  }

  function Ask(c: Call): Pipeline.Event {
    Pipeline.EFetch(Fetch.EAsk(c.layer, c.image))
  }

  function Apply(w: World, e: Event): Outcome<World>
    requires Enabled(w, e)
  {
    match e
    case EPull(i, conn) => Ok(w.(pulls := Pulls.OnPull(w.pulls, i, conn)))
    case ELink =>
      var c :- Pulls.OnConnected(w.pulls);
      Ok(w.(pulls := c))
    case EServe => Ok(w.(pulls := Pulls.Serve(w.pulls), calls := w.calls + NewCalls(w)))
    case EAnswer =>
      var c :- Pulls.OnRecv(w.pulls);
      Ok(w.(pulls := c))
    case EFetch =>
      if !Pipeline.Enabled(w.pipe, Ask(w.calls[0])) then Crash
      else
        var p :- Pipeline.Apply(w.pipe, Ask(w.calls[0]));
        Ok(w.(pipe := p, calls := w.calls[1..]))
    case EPipe(x) =>
      var p :- Pipeline.Apply(w.pipe, x);
      Ok(w.(pipe := p))
    case EReport =>
      var i := w.pipe.untar.reports[w.seen].image;
      if Pulls.Left(w.pulls.left, i) == 0 then Crash
      else
        var c :- Pulls.Apply(w.pulls, Pulls.EUnpacked(i));
        Ok(w.(pulls := c, seen := w.seen + 1))
  }

  function Sizes(m: Manifests): map<Image, nat> {
    map i | i in m :: |m[i]|
  }

  /** Layers belong to one image, occur once in it, and are in the registry. */
  ghost predicate Good(m: Manifests, reg: Registry) {
    && (forall i :: i in m ==> NoDup(m[i]))
    && (forall i, l :: i in m && l in m[i] ==> l in reg)
    && (forall i, j, l :: i in m && j in m && l in m[i] && l in m[j] ==> i == j)
  }

  ghost predicate Init(w: World) {
    && (exists k: nat :: k >= 1 && w.pulls == Pulls.NewClient(k, Sizes(w.manifests)))
    && w.calls == [] && Pipeline.Init(w.pipe) && w.seen == 0 && Good(w.manifests, w.pipe.net.reg)
  }

  // ---------------------------------------------------------------- invariant

  ghost predicate Once(asked: seq<Pulls.Pull>) {
    forall a, b :: 0 <= a < b < |asked| ==> asked[a].image != asked[b].image
  }

  /** The images whose request the DPU has handled. */
  ghost function Served(c: Pulls.Client): set<Image> {
    set p | p in c.taken && p.image in c.layers && Pulls.Offload(p.image) !in c.requests :: p.image
  }

  /** Exactly the layers of served images have been asked for or wait in the fetcher's loop. */
  ghost predicate Fetching(m: Manifests, served: set<Image>, calls: seq<Call>, asked: map<string, string>) {
    && (forall k :: 0 <= k < |calls| ==>
          && calls[k].image in served && calls[k].image in m && calls[k].layer in m[calls[k].image]
          && calls[k].layer !in asked)
    && (forall l :: l in asked ==> asked[l] in served && asked[l] in m && l in m[asked[l]])
    && (forall i, l :: i in served && i in m && l in m[i] ==> l in asked || Call(i, l) in calls)
    && (forall a, b :: 0 <= a < b < |calls| ==> calls[a].layer != calls[b].layer)
  }

  /** Layers owed and layers reported make up the manifest of every served image. */
  ghost predicate Counted(
      m: Manifests, served: set<Image>, left: multiset<Image>, reports: seq<Untar.Report>, seen: nat)
  {
    && seen <= |reports|
    && forall i ::
         Pulls.Left(left, i) + |LayersReported(reports[..seen], i)| == if i in served && i in m then |m[i]| else 0
  }

  ghost predicate Inv(w: World) {
    && Pulls.Inv(w.pulls) && Once(w.pulls.asked) && w.pulls.layers == Sizes(w.manifests)
    && Pipeline.Inv(w.pipe) && Labelled(w.pipe) && Good(w.manifests, w.pipe.net.reg)
    && Fetching(w.manifests, Served(w.pulls), w.calls, w.pipe.net.asked)
    && Counted(w.manifests, Served(w.pulls), w.pulls.left, w.pipe.untar.reports, w.seen)
  }

  // ---------------------------------------------------------------- pulls

  lemma TryServed(c: Pulls.Client)
    requires Pulls.InOrder(c.asked, c.taken, c.pending) && Once(c.asked)
    ensures Served(Pulls.TryOffload(c)) == Served(c)
  {
    var d := Pulls.TryOffload(c);
    if c.pending != [] && c.free != [] {
      var p := c.pending[0];
      assert c.asked[|c.taken|] == p;
      forall q | q in c.taken
        ensures q.image != p.image
      {
        var k :| 0 <= k < |c.taken| && c.taken[k] == q;
        assert c.asked[k] == q;
      }
      forall i
        ensures i in Served(d) <==> i in Served(c)
      {
        if i in Served(d) {
          var q :| q in d.taken && q.image == i && q.image in d.layers && Pulls.Offload(q.image) !in d.requests;
          assert q != p ==> q in c.taken;
          assert p.image in c.layers ==> Pulls.Offload(p.image) in d.requests;
        }
        if i in Served(c) {
          var q :| q in c.taken && q.image == i && q.image in c.layers && Pulls.Offload(q.image) !in c.requests;
          assert q in d.taken;
        }
      }
    }
  }

  /** What an attempt to offload leaves alone. */
  lemma TryFrame(c: Pulls.Client)
    ensures var d := Pulls.TryOffload(c);
      d.left == c.left && d.asked == c.asked && d.layers == c.layers && d.replied == c.replied
  {
  }

  lemma NeverPulledFresh(c: Pulls.Client, i: Image)
    requires Pulls.Inv(c) && NeverPulled(c, i)
    ensures Pulls.Fresh(c, i)
  {
    assert c.asked == c.taken + c.pending;
    forall j | 0 <= j < |c.pending|
      ensures c.pending[j].image != i
    {
      assert c.asked[|c.taken| + j] == c.pending[j];
    }
    assert forall k :: 0 <= k < |c.taken| ==> c.asked[k] == c.taken[k];
    assert forall j :: j in c.tasks ==> c.tasks[j].pull in c.taken && c.tasks[j].pull.image == j;
  }

  lemma PullOnce(asked: seq<Pulls.Pull>, p: Pulls.Pull)
    requires Once(asked) && forall k :: 0 <= k < |asked| ==> asked[k].image != p.image
    ensures Once(asked + [p])
  {
  }

  /** A step of the pulls that concerns neither the DPU's requests nor the workers' reports. */
  ghost predicate Aside(c: Pulls.Client, d: Pulls.Client) {
    Pulls.Inv(d) && Once(d.asked) && d.layers == c.layers && d.left == c.left && Served(d) == Served(c)
  }

  lemma PullAside(c: Pulls.Client, i: Image, conn: nat)
    requires Pulls.Inv(c) && Once(c.asked) && NeverPulled(c, i)
    ensures Aside(c, Pulls.OnPull(c, i, conn))
  {
    NeverPulledFresh(c, i);
    Pulls.PullKeeps(c, i, conn);
    var p := Pulls.Pull(i, conn, |c.asked|);
    var d := c.(pending := c.pending + [p], asked := c.asked + [p]);
    PullOnce(c.asked, p);
    Pulls.PullOrder(c.asked, c.taken, c.pending, p);
    hide Pulls.Inv, Pulls.TryOffload, Pulls.InOrder, Once;
    assert Served(d) == Served(c);
    TryServed(d);
    TryFrame(d);
  }

  lemma LinkAside(c: Pulls.Client)
    requires Pulls.Inv(c) && Once(c.asked) && !c.linked
    ensures Pulls.OnConnected(c).Ok? && Aside(c, Pulls.OnConnected(c).value)
  {
    Pulls.LinkKeeps(c);
    hide Pulls.Inv;
    var d := Pulls.OnConnected(c).value;
    assert forall i :: Pulls.Offload(i) in d.requests <==> Pulls.Offload(i) in c.requests;
  }

  lemma AnswerAside(c: Pulls.Client)
    requires Pulls.Inv(c) && Once(c.asked) && c.answers != []
    ensures Pulls.OnRecv(c).Ok? && Aside(c, Pulls.OnRecv(c).value)
  {
    Pulls.AnswerKeeps(c);
    assert Pulls.InOrder(c.asked, c.taken, c.pending);
    hide Pulls.Inv, Pulls.TryOffload, Pulls.InOrder, Once;
    var d := c.(answers := c.answers[1..], inflight := c.inflight[1..], free := c.free + [c.inflight[0]]);
    var e := if c.answers[0].Hello? then d.(connected := true) else d;
    assert Served(e) == Served(c);
    TryServed(e);
    TryFrame(e);
  }

  lemma ServeServed(c: Pulls.Client)
    requires Pulls.Inv(c) && c.requests != []
    ensures c.requests[0].Hello? ==> Served(Pulls.Serve(c)) == Served(c) && Pulls.Serve(c).left == c.left
    ensures c.requests[0].Offload? ==>
      var i := c.requests[0].image;
      i in c.layers && i !in Served(c) && Served(Pulls.Serve(c)) == Served(c) + {i}
      && Pulls.Serve(c).left == c.left[i := Pulls.Left(c.left, i) + c.layers[i]]
  {
    var m, d := c.requests[0], Pulls.Serve(c);
    assert c.requests == [m] + d.requests;
    assert m !in d.requests;
    if m.Offload? {
      assert Pulls.Offload(m.image) in c.requests;
      var p := c.tasks[m.image].pull;
      assert p in c.taken && p.image == m.image;
    }
    hide Pulls.Inv;
    forall i
      ensures i in Served(d) <==> i in Served(c) || Pulls.Offload(i) == m
    {
      if i in Served(d) {
        var q :| q in d.taken && q.image == i && q.image in d.layers && Pulls.Offload(q.image) !in d.requests;
        assert Pulls.Offload(i) != m ==> Pulls.Offload(i) !in c.requests;
      }
    }
  }

  // ---------------------------------------------------------------- fetch calls

  lemma FetchingServe(
      m: Manifests, reg: Registry, served: set<Image>, calls: seq<Call>, asked: map<string, string>, i: Image)
    requires Fetching(m, served, calls, asked) && Good(m, reg) && i in m && i !in served
    ensures Fetching(m, served + {i}, calls + Calls(i, m[i]), asked)
  {
    var more := calls + Calls(i, m[i]);
    forall l | l in m[i]
      ensures Call(i, l) in more
    {
      var k :| 0 <= k < |m[i]| && m[i][k] == l;
      assert more[|calls| + k] == Call(i, l);
    }
    forall a, b | 0 <= a < b < |more|
      ensures more[a].layer != more[b].layer
    {
      if b >= |calls| {
        assert more[b] == Call(i, m[i][b - |calls|]);
        if a >= |calls| {
          assert more[a] == Call(i, m[i][a - |calls|]);
        }
      }
    }
    assert forall c :: c in calls ==> c in more;
  }

  lemma FetchingAsk(m: Manifests, reg: Registry, served: set<Image>, calls: seq<Call>, asked: map<string, string>)
    requires Fetching(m, served, calls, asked) && Good(m, reg) && calls != []
    ensures calls[0].layer in reg && calls[0].layer !in asked
    ensures Fetching(m, served, calls[1..], asked[calls[0].layer := calls[0].image])
  {
    assert forall c :: c in calls ==> c == calls[0] || c in calls[1..];
  }

  /** The layers asked for on behalf of a served image are those of its manifest. */
  lemma FetchingManifest(
      m: Manifests, reg: Registry, served: set<Image>, calls: seq<Call>, asked: map<string, string>, i: Image)
    requires Fetching(m, served, calls, asked) && Good(m, reg) && i in m
    ensures Manifest(asked, i, m[i])
  {
  }

  // ---------------------------------------------------------------- counting

  lemma CountedServe(
      m: Manifests, served: set<Image>, left: multiset<Image>, reports: seq<Untar.Report>, seen: nat, i: Image)
    requires Counted(m, served, left, reports, seen) && i in m && i !in served
    ensures Counted(m, served + {i}, left[i := Pulls.Left(left, i) + |m[i]|], reports, seen)
  {
  }

  lemma CountedMore(
      m: Manifests, served: set<Image>, left: multiset<Image>, reports: seq<Untar.Report>, more: seq<Untar.Report>,
      seen: nat)
    requires Counted(m, served, left, reports, seen) && reports <= more
    ensures Counted(m, served, left, more, seen)
  {
    assert more[..seen] == reports[..seen];
  }

  lemma ReportedNext(reports: seq<Untar.Report>, seen: nat, i: Image)
    requires seen < |reports|
    ensures |LayersReported(reports[..seen + 1], i)| ==
      |LayersReported(reports[..seen], i)| + if reports[seen].image == i then 1 else 0
    ensures |LayersReported(reports[..seen + 1], i)| <= |LayersReported(reports, i)|
  {
    assert reports[..seen + 1] == reports[..seen] + [reports[seen]];
    ReportedCat(reports[..seen], [reports[seen]], i);
    assert reports == reports[..seen + 1] + reports[seen + 1..];
    ReportedCat(reports[..seen + 1], reports[seen + 1..], i);
  }

  lemma CountedReport(m: Manifests, served: set<Image>, left: multiset<Image>, reports: seq<Untar.Report>, seen: nat)
    requires Counted(m, served, left, reports, seen) && seen < |reports|
    requires Pulls.Left(left, reports[seen].image) > 0
    ensures var i := reports[seen].image;
      Counted(m, served, left[i := Pulls.Left(left, i) - 1], reports, seen + 1)
  {
    var i := reports[seen].image;
    forall j
      ensures Pulls.Left(left[i := Pulls.Left(left, i) - 1], j) + |LayersReported(reports[..seen + 1], j)|
           == if j in served && j in m then |m[j]| else 0
    {
      ReportedNext(reports, seen, j);
      assert Pulls.Left(left, j) + |LayersReported(reports[..seen], j)| == if j in served && j in m then |m[j]| else 0;
    }
  }

  lemma ReportLabelled(p: Pipeline.Pipe, k: nat)
    requires Labelled(p) && k < |p.untar.reports|
    ensures var r := p.untar.reports[k]; r.layer in p.net.asked && p.net.asked[r.layer] == r.image
  {
    assert p.untar.reports[k] in p.untar.reports;
  }

  lemma AskedServed(m: Manifests, served: set<Image>, calls: seq<Call>, asked: map<string, string>, l: string)
    requires Fetching(m, served, calls, asked) && l in asked
    ensures asked[l] in m && asked[l] in served
  {
  }

  lemma CountOf(
      m: Manifests, served: set<Image>, left: multiset<Image>, reports: seq<Untar.Report>, seen: nat, i: Image)
    requires Counted(m, served, left, reports, seen) && i in served && i in m
    ensures seen <= |reports|
    ensures Pulls.Left(left, i) + |LayersReported(reports[..seen], i)| == |m[i]|
  {
  }

  /** A report that has not been handled is one that is owed. */
  lemma ReportOwed(w: World)
    requires Inv(w) && w.seen < |w.pipe.untar.reports|
    ensures var i := w.pipe.untar.reports[w.seen].image;
      && i in w.manifests && i in Served(w.pulls)
      && Pulls.Left(w.pulls.left, i) + |LayersReported(w.pipe.untar.reports[..w.seen], i)| == |w.manifests[i]|
      && Pulls.Left(w.pulls.left, i) > 0
  {
    hide Pulls.Inv, Pipeline.Inv, Labelled, Good, Fetching, Counted, Served, Once, LayersReported, Manifest, Pulls.Left;
    var rs := w.pipe.untar.reports;
    var r := rs[w.seen];
    ReportLabelled(w.pipe, w.seen);
    AskedServed(w.manifests, Served(w.pulls), w.calls, w.pipe.net.asked, r.layer);
    FetchingManifest(w.manifests, w.pipe.net.reg, Served(w.pulls), w.calls, w.pipe.net.asked, r.image);
    ReportsFit(w.pipe, r.image, w.manifests[r.image]);
    ReportedNext(rs, w.seen, r.image);
    CountOf(w.manifests, Served(w.pulls), w.pulls.left, rs, w.seen, r.image);
  }

  // ---------------------------------------------------------------- every step

  lemma PullsStart(w: World)
    requires Init(w)
    ensures Pulls.Inv(w.pulls) && Served(w.pulls) == {} && w.pulls.asked == []
    ensures w.pulls.layers == Sizes(w.manifests) && w.pulls.left == multiset{}
  {
    hide Pulls.Inv, Pulls.NewClient, Pipeline.Init, Good, Sizes;
    var k: nat :| k >= 1 && w.pulls == Pulls.NewClient(k, Sizes(w.manifests));
    Pulls.NewInv(k, Sizes(w.manifests));
    NothingServed(k, Sizes(w.manifests));
  }

  lemma NothingYet(m: Manifests)
    ensures Counted(m, {}, multiset{}, [], 0) && Fetching(m, {}, [], map[]) && Once([])
  {
  }

  lemma NothingAsked(p: Pipeline.Pipe)
    requires Pipeline.Init(p)
    ensures p.net.asked == map[] && p.untar.reports == []
  {
  }

  lemma InitInv(w: World, contents: map<string, Bytes>, size: nat)
    requires Init(w) && Pipeline.Published(w.pipe.net.reg, contents, size, w.pipe.stage.g)
    ensures Inv(w)
  {
    hide Pulls.Inv, Pulls.NewClient, Pipeline.Inv, Pipeline.Init, Pipeline.Published, Labelled, Good, Served;
    hide Fetching, Counted, Once, Sizes;
    PullsStart(w);
    NothingAsked(w.pipe);
    Pipeline.InitInv(w.pipe, contents, size);
    StartLabelled(w.pipe);
    NothingYet(w.manifests);
  }

  lemma NothingServed(k: nat, layers: map<Image, nat>)
    ensures var c := Pulls.NewClient(k, layers);
      Served(c) == {} && c.asked == [] && c.layers == layers && c.left == multiset{}
  {
  }

  lemma AsideKeeps(w: World, c: Pulls.Client)
    requires Inv(w) && Aside(w.pulls, c)
    ensures Inv(w.(pulls := c))
  {
    hide Pulls.Inv, Pipeline.Inv, Labelled, Good, Fetching, Counted, Served, Once;
  }

  lemma ServeKeeps(w: World)
    requires Inv(w) && Enabled(w, EServe)
    ensures Apply(w, EServe).Ok? && Inv(Apply(w, EServe).value)
  {
    Pulls.ServeKeeps(w.pulls);
    ServeServed(w.pulls);
    ServeFrame(w.pulls);
    hide Pulls.Inv, Pulls.Serve, Pipeline.Inv, Labelled, Good, Fetching, Counted, Served, Once, Calls;
    var m := w.pulls.requests[0];
    if m.Offload? {
      FetchingServe(w.manifests, w.pipe.net.reg, Served(w.pulls), w.calls, w.pipe.net.asked, m.image);
      CountedServe(w.manifests, Served(w.pulls), w.pulls.left, w.pipe.untar.reports, w.seen, m.image);
    } else {
      assert w.calls + [] == w.calls;
    }
  }

  lemma ServeFrame(c: Pulls.Client)
    requires c.requests != []
    ensures var d := Pulls.Serve(c); d.asked == c.asked && d.layers == c.layers && d.replied == c.replied
  {
  }

  lemma FetchKeeps(w: World)
    requires Inv(w) && Enabled(w, EFetch)
    ensures Apply(w, EFetch).Ok? && Inv(Apply(w, EFetch).value)
    ensures Pipeline.Enabled(w.pipe, Ask(w.calls[0]))
  {
    FetchingAsk(w.manifests, w.pipe.net.reg, Served(w.pulls), w.calls, w.pipe.net.asked);
    assert Pipeline.Enabled(w.pipe, Ask(w.calls[0]));
    Pipeline.StepKeeps(w.pipe, Ask(w.calls[0]));
    StepLabelled(w.pipe, Ask(w.calls[0]));
    PipeFrame(w.pipe, Ask(w.calls[0]));
    hide Pulls.Inv, Pipeline.Inv, Pipeline.Apply, Labelled, Good, Fetching, Counted, Served, Once;
    CountedMore(w.manifests, Served(w.pulls), w.pulls.left, w.pipe.untar.reports,
                Pipeline.Apply(w.pipe, Ask(w.calls[0])).value.untar.reports, w.seen);
  }

  /** Reports are only added, and only a fetch call asks for a layer. */
  lemma PipeFrame(p: Pipeline.Pipe, e: Pipeline.Event)
    requires Pipeline.Enabled(p, e) && Pipeline.Apply(p, e).Ok?
    ensures var q := Pipeline.Apply(p, e).value;
      && p.untar.reports <= q.untar.reports && q.net.reg == p.net.reg
      && q.net.asked == if e.EFetch? && e.f.EAsk? then p.net.asked[e.f.layer := e.f.image] else p.net.asked
  {
    hide Decompress.Apply;
  }

  lemma PipeKeeps(w: World, x: Pipeline.Event)
    requires Inv(w) && Enabled(w, EPipe(x))
    ensures Apply(w, EPipe(x)).Ok? && Inv(Apply(w, EPipe(x)).value)
  {
    hide Pulls.Inv, Pipeline.Inv, Pipeline.Apply, Labelled, Good, Fetching, Counted, Served, Once;
    Pipeline.StepKeeps(w.pipe, x);
    StepLabelled(w.pipe, x);
    PipeFrame(w.pipe, x);
    CountedMore(w.manifests, Served(w.pulls), w.pulls.left, w.pipe.untar.reports,
                Pipeline.Apply(w.pipe, x).value.untar.reports, w.seen);
  }

  lemma UnpackFrame(c: Pulls.Client, i: Image)
    requires Pulls.Left(c.left, i) > 0 && Pulls.Apply(c, Pulls.EUnpacked(i)).Ok?
    ensures var d := Pulls.Apply(c, Pulls.EUnpacked(i)).value;
      && d.asked == c.asked && d.layers == c.layers && Served(d) == Served(c)
      && d.left == c.left[i := Pulls.Left(c.left, i) - 1]
  {
  }

  lemma ReportKeeps(w: World)
    requires Inv(w) && Enabled(w, EReport)
    ensures Apply(w, EReport).Ok? && Inv(Apply(w, EReport).value)
  {
    hide Pulls.Inv, Pulls.Apply, Pipeline.Inv, Labelled, Good, Fetching, Counted, Served, Once;
    ReportOwed(w);
    var i := w.pipe.untar.reports[w.seen].image;
    Pulls.UnpackKeeps(w.pulls, i);
    UnpackFrame(w.pulls, i);
    CountedReport(w.manifests, Served(w.pulls), w.pulls.left, w.pipe.untar.reports, w.seen);
  }

  /** No step of anything fails, and the two halves stay in step. */
  lemma StepKeeps(w: World, e: Event)
    requires Inv(w) && Enabled(w, e)
    ensures Apply(w, e).Ok? && Inv(Apply(w, e).value)
  {
    match e {
      case EPull(i, conn) =>
        PullAside(w.pulls, i, conn);
        hide Inv, Aside;
        AsideKeeps(w, Pulls.OnPull(w.pulls, i, conn));
      case ELink =>
        LinkAside(w.pulls);
        hide Inv, Aside;
        AsideKeeps(w, Pulls.OnConnected(w.pulls).value);
      case EAnswer =>
        AnswerAside(w.pulls);
        hide Inv, Aside;
        AsideKeeps(w, Pulls.OnRecv(w.pulls).value);
      case EServe => ServeKeeps(w);
      case EFetch => FetchKeeps(w);
      case EPipe(x) => PipeKeeps(w, x);
      case EReport => ReportKeeps(w);
    }
  }

  // ---------------------------------------------------------------- what a reply means

  lemma RepliedFacts(c: Pulls.Client, p: Pulls.Pull)
    requires Pulls.Inv(c) && Once(c.asked) && p in c.taken && p.image in c.layers
    ensures p in c.replied ==> Pulls.Left(c.left, p.image) == 0 && p.image in Served(c)
    ensures p !in c.replied && c.layers[p.image] > 0 && p.image in Served(c) ==> Pulls.Left(c.left, p.image) > 0
  {
    assert forall k :: 0 <= k < |c.taken| ==> c.asked[k] == c.taken[k];
    assert forall j :: j in c.tasks ==> c.tasks[j].pull in c.taken && c.tasks[j].pull.image == j;
    assert p.image in c.tasks ==> c.tasks[p.image].pull == p;
  }

  /** In every reachable state a pull that has been taken up is answered if and only if completeTask has
      handled as many reports for its image as it has layers, whatever tar returned for them. */
  lemma AnsweredIffCounted(w: World, p: Pulls.Pull)
    requires Inv(w) && p in w.pulls.taken && p.image in w.manifests && w.manifests[p.image] != []
    ensures p in w.pulls.replied <==>
      |LayersReported(w.pipe.untar.reports[..w.seen], p.image)| == |w.manifests[p.image]|
  {
    hide Pipeline.Inv, Labelled, Good, Fetching, LayersReported;
    RepliedFacts(w.pulls, p);
    hide Pulls.Inv, Served, Once;
    assert Pulls.Left(w.pulls.left, p.image) + |LayersReported(w.pipe.untar.reports[..w.seen], p.image)|
        == if p.image in Served(w.pulls) then |w.manifests[p.image]| else 0;
  }

  /** Answered means that every byte of every layer of the image has been written to its tar. */
  lemma AnsweredMeansWritten(w: World, contents: map<string, Bytes>, size: nat, p: Pulls.Pull, l: string)
    requires Inv(w) && Pipeline.Published(w.pipe.net.reg, contents, size, w.pipe.stage.g)
    requires p in w.pulls.replied && p.image in w.manifests && l in w.manifests[p.image]
    ensures Unpacked(w.pipe.untar, contents, l)
  {
    hide Pulls.Inv, Pipeline.Inv, Labelled, Good, Fetching, Counted, Served, Once, LayersReported, Unpacked, Manifest;
    hide Pipeline.Published;
    RepliedTaken(w.pulls, p);
    AnsweredIffCounted(w, p);
    FetchingManifest(w.manifests, w.pipe.net.reg, Served(w.pulls), w.calls, w.pipe.net.asked, p.image);
    SeenOfAll(w);
    ReportedPrefix(w.pipe.untar.reports, w.seen, p.image);
    CountsMean(w.pipe, contents, size, p.image, w.manifests[p.image]);
  }

  lemma RepliedTaken(c: Pulls.Client, p: Pulls.Pull)
    requires Pulls.Inv(c) && p in c.replied
    ensures p in c.taken
  {
  }

  lemma SeenOfAll(w: World)
    requires Inv(w)
    ensures w.seen <= |w.pipe.untar.reports|
  {
    hide Pulls.Inv, Pipeline.Inv, Labelled, Good, Fetching;
  }

  lemma ReportedPrefix(rs: seq<Untar.Report>, seen: nat, i: Image)
    requires seen <= |rs|
    ensures |LayersReported(rs[..seen], i)| <= |LayersReported(rs, i)|
  {
    assert rs == rs[..seen] + rs[seen..];
    ReportedCat(rs[..seen], rs[seen..], i);
  }

  /** The next report to be handled is the last one for its image. */
  predicate LastReport(w: World)
    requires w.seen < |w.pipe.untar.reports|
  {
    var i := w.pipe.untar.reports[w.seen].image;
    i in w.manifests && |LayersReported(w.pipe.untar.reports[..w.seen + 1], i)| == |w.manifests[i]|
  }

  lemma LastReportOwed(w: World)
    requires Inv(w) && w.seen < |w.pipe.untar.reports|
    ensures var i := w.pipe.untar.reports[w.seen].image;
      Pulls.Left(w.pulls.left, i) > 0 && (LastReport(w) <==> Pulls.Left(w.pulls.left, i) == 1)
  {
    hide Inv, LayersReported, Pulls.Left, Served;
    ReportOwed(w);
    ReportedNext(w.pipe.untar.reports, w.seen, w.pipe.untar.reports[w.seen].image);
  }

  /** A reply goes out in the step that handles the last report for an image, to the pull of that image,
      and in no other step. */
  lemma AnsweredWithLastReport(w: World, e: Event)
    requires Inv(w) && Enabled(w, e)
    ensures Apply(w, e).Ok?
    ensures var v := Apply(w, e).value;
      if e.EReport? && LastReport(w) then
        && |v.pulls.replied| == |w.pulls.replied| + 1 && w.pulls.replied <= v.pulls.replied
        && Last(v.pulls.replied).image == w.pipe.untar.reports[w.seen].image
      else v.pulls.replied == w.pulls.replied
  {
    StepKeeps(w, e);
    PullsKept(w);
    hide LastReport, Apply, Inv, Pulls.Inv;
    if e.EReport? {
      LastReportOwed(w);
      ReportReplies(w);
    } else {
      RepliedFrame(w, e);
    }
  }

  lemma PullsKept(w: World)
    requires Inv(w)
    ensures Pulls.Inv(w.pulls)
  {
    hide Pulls.Inv, Pipeline.Inv, Labelled, Good, Fetching, Counted, Served, Once;
  }

  lemma ReportReplies(w: World)
    requires Enabled(w, EReport) && Apply(w, EReport).Ok? && Pulls.Inv(w.pulls)
    ensures var v, i := Apply(w, EReport).value, w.pipe.untar.reports[w.seen].image;
      if Pulls.Left(w.pulls.left, i) == 1 then
        && |v.pulls.replied| == |w.pulls.replied| + 1 && w.pulls.replied <= v.pulls.replied
        && Last(v.pulls.replied).image == i
      else v.pulls.replied == w.pulls.replied
  {
    hide Pulls.Inv, Pulls.Apply, Pulls.Left;
    UnpackReplies(w.pulls, w.pipe.untar.reports[w.seen].image);
  }

  lemma UnpackReplies(c: Pulls.Client, i: Image)
    requires Pulls.Inv(c) && Pulls.Left(c.left, i) > 0 && Pulls.Apply(c, Pulls.EUnpacked(i)).Ok?
    ensures var d := Pulls.Apply(c, Pulls.EUnpacked(i)).value;
      if Pulls.Left(c.left, i) == 1 then
        |d.replied| == |c.replied| + 1 && c.replied <= d.replied && Last(d.replied).image == i
      else d.replied == c.replied
  {
    hide Pulls.Inv, Pulls.Apply;
    Pulls.AnsweredWithLastLayer(c, Pulls.EUnpacked(i));
  }

  lemma RepliedFrame(w: World, e: Event)
    requires Enabled(w, e) && !e.EReport? && Apply(w, e).Ok?
    ensures Apply(w, e).value.pulls.replied == w.pulls.replied
  {
    hide Pipeline.Apply;
  }

  // ---------------------------------------------------------------- work left

  /** Steps that fetching a layer costs: the call, and what the pipeline does for its segments. */
  function LayerCost(reg: Registry, l: string): nat {
    1 + if l in reg then 13 * |reg[l]| else 0
  }

  function LayersCost(reg: Registry, ls: seq<string>): nat {
    if ls == [] then 0 else LayerCost(reg, ls[0]) + LayersCost(reg, ls[1..])
  }

  function ImageCost(m: Manifests, reg: Registry, i: Image): nat {
    if i in m then LayersCost(reg, m[i]) else 0
  }

  function CallsCost(reg: Registry, cs: seq<Call>): nat {
    if cs == [] then 0 else LayerCost(reg, cs[0].layer) + CallsCost(reg, cs[1..])
  }

  function RequestsCost(m: Manifests, reg: Registry, ms: seq<Pulls.Msg>): nat {
    if ms == [] then 0
    else (if ms[0].Offload? then ImageCost(m, reg, ms[0].image) else 0) + RequestsCost(m, reg, ms[1..])
  }

  function PullsCost(m: Manifests, reg: Registry, ps: seq<Pulls.Pull>): nat {
    if ps == [] then 0 else ImageCost(m, reg, ps[0].image) + PullsCost(m, reg, ps[1..])
  }

  /** What the pulls waiting or requested will cost the pipeline. */
  function Ahead(m: Manifests, reg: Registry, c: Pulls.Client): nat {
    RequestsCost(m, reg, c.requests) + PullsCost(m, reg, c.pending)
  }

  function Work(w: World): int {
    Pulls.Work(w.pulls) + Ahead(w.manifests, w.pipe.net.reg, w.pulls) + CallsCost(w.pipe.net.reg, w.calls)
    + Pipeline.Work(w.pipe)
  }

  lemma {:induction false} CallsCostCat(reg: Registry, a: seq<Call>, b: seq<Call>)
    ensures CallsCost(reg, a + b) == CallsCost(reg, a) + CallsCost(reg, b)
  {
    if a == [] {
      assert a + b == b;
    } else {
      assert (a + b)[1..] == a[1..] + b;
      CallsCostCat(reg, a[1..], b);
    }
  }

  lemma {:induction false} CallsCostOf(reg: Registry, i: Image, ls: seq<string>)
    ensures CallsCost(reg, Calls(i, ls)) == LayersCost(reg, ls)
  {
    if ls != [] {
      assert Calls(i, ls)[1..] == Calls(i, ls[1..]);
      CallsCostOf(reg, i, ls[1..]);
    }
  }

  lemma {:induction false} RequestsCostCat(m: Manifests, reg: Registry, a: seq<Pulls.Msg>, x: Pulls.Msg)
    ensures RequestsCost(m, reg, a + [x]) ==
      RequestsCost(m, reg, a) + if x.Offload? then ImageCost(m, reg, x.image) else 0
  {
    if a != [] {
      assert (a + [x])[1..] == a[1..] + [x];
      RequestsCostCat(m, reg, a[1..], x);
    }
  }

  lemma {:induction false} PullsCostCat(m: Manifests, reg: Registry, a: seq<Pulls.Pull>, x: Pulls.Pull)
    ensures PullsCost(m, reg, a + [x]) == PullsCost(m, reg, a) + ImageCost(m, reg, x.image)
  {
    if a != [] {
      assert (a + [x])[1..] == a[1..] + [x];
      PullsCostCat(m, reg, a[1..], x);
    }
  }

  lemma TryAhead(m: Manifests, reg: Registry, c: Pulls.Client)
    ensures Ahead(m, reg, Pulls.TryOffload(c)) <= Ahead(m, reg, c)
  {
    if c.pending != [] && c.free != [] {
      RequestsCostCat(m, reg, c.requests, Pulls.Offload(c.pending[0].image));
    }
  }

  lemma PullWorks(w: World, i: Image, conn: nat)
    ensures var d := Pulls.OnPull(w.pulls, i, conn);
      && Pulls.Work(d) <= Pulls.Work(w.pulls) + Pulls.Cost(w.pulls.layers, i)
      && Ahead(w.manifests, w.pipe.net.reg, d) <=
           Ahead(w.manifests, w.pipe.net.reg, w.pulls) + ImageCost(w.manifests, w.pipe.net.reg, i)
  {
    var p := Pulls.Pull(i, conn, |w.pulls.asked|);
    assert Pulls.Apply(w.pulls, Pulls.EPull(i, conn)) == Ok(Pulls.OnPull(w.pulls, i, conn));
    Pulls.StepWorks(w.pulls, Pulls.EPull(i, conn));
    PullsCostCat(w.manifests, w.pipe.net.reg, w.pulls.pending, p);
    TryAhead(w.manifests, w.pipe.net.reg, w.pulls.(pending := w.pulls.pending + [p], asked := w.pulls.asked + [p]));
    hide Pulls.TryOffload, Pulls.Work, PullsCost, RequestsCost;
  }

  lemma AnswerWorks(w: World)
    requires w.pulls.answers != [] && Pulls.OnRecv(w.pulls).Ok?
    ensures var d := Pulls.OnRecv(w.pulls).value;
      && Pulls.Work(d) < Pulls.Work(w.pulls)
      && Ahead(w.manifests, w.pipe.net.reg, d) <= Ahead(w.manifests, w.pipe.net.reg, w.pulls)
  {
    assert Pulls.Apply(w.pulls, Pulls.EAnswer) == Pulls.OnRecv(w.pulls);
    Pulls.StepWorks(w.pulls, Pulls.EAnswer);
    var c := w.pulls;
    var d := c.(answers := c.answers[1..], inflight := c.inflight[1..], free := c.free + [c.inflight[0]]);
    TryAhead(w.manifests, w.pipe.net.reg, if c.answers[0].Hello? then d.(connected := true) else d);
    hide Pulls.TryOffload, Pulls.Work, PullsCost, RequestsCost;
  }

  lemma ServeWorks(w: World)
    requires w.pulls.requests != []
    ensures Pulls.Work(Pulls.Serve(w.pulls)) < Pulls.Work(w.pulls)
    ensures Ahead(w.manifests, w.pipe.net.reg, Pulls.Serve(w.pulls)) + CallsCost(w.pipe.net.reg, w.calls + NewCalls(w))
         <= Ahead(w.manifests, w.pipe.net.reg, w.pulls) + CallsCost(w.pipe.net.reg, w.calls)
  {
    assert Pulls.Apply(w.pulls, Pulls.EServe) == Ok(Pulls.Serve(w.pulls));
    Pulls.StepWorks(w.pulls, Pulls.EServe);
    CallsCostCat(w.pipe.net.reg, w.calls, NewCalls(w));
    var m := w.pulls.requests[0];
    if m.Offload? && m.image in w.manifests {
      CallsCostOf(w.pipe.net.reg, m.image, w.manifests[m.image]);
    }
    hide Pulls.Work, PullsCost;
  }

  lemma LinkWorks(w: World)
    requires !w.pulls.linked && Pulls.OnConnected(w.pulls).Ok?
    ensures var d := Pulls.OnConnected(w.pulls).value;
      Pulls.Work(d) < Pulls.Work(w.pulls)
      && Ahead(w.manifests, w.pipe.net.reg, d) == Ahead(w.manifests, w.pipe.net.reg, w.pulls)
  {
    assert Pulls.Apply(w.pulls, Pulls.ELink) == Pulls.OnConnected(w.pulls);
    Pulls.StepWorks(w.pulls, Pulls.ELink);
    RequestsCostCat(w.manifests, w.pipe.net.reg, w.pulls.requests, Pulls.Hello);
    hide Pulls.Work, PullsCost;
  }

  lemma ReportWorks(c: Pulls.Client, i: Image)
    requires Pulls.Left(c.left, i) > 0 && Pulls.Apply(c, Pulls.EUnpacked(i)).Ok?
    ensures var d := Pulls.Apply(c, Pulls.EUnpacked(i)).value;
      Pulls.Work(d) < Pulls.Work(c) && d.requests == c.requests && d.pending == c.pending
  {
    Pulls.StepWorks(c, Pulls.EUnpacked(i));
    hide Pulls.Work;
  }

  // ---------------------------------------------------------------- every step works

  /** Everything except new pulls and the hardware's partial writes. */
  predicate Internal(e: Event) {
    !e.EPull? && !(e.EPipe? && e.e.EStage? && e.e.d.EScribble?)
  }

  /** The most a pull can cost. */
  function PullCost(w: World, e: Event): nat {
    if e.EPull? then Pulls.Cost(w.pulls.layers, e.image) + ImageCost(w.manifests, w.pipe.net.reg, e.image) else 0
  }

  /** The pulls and the calls change, the pipeline does not. */
  lemma HostChanges(w: World, v: World)
    requires v == w.(pulls := v.pulls, calls := v.calls, seen := v.seen)
    ensures Work(v) - Work(w) ==
      (Pulls.Work(v.pulls) - Pulls.Work(w.pulls))
      + (Ahead(w.manifests, w.pipe.net.reg, v.pulls) - Ahead(w.manifests, w.pipe.net.reg, w.pulls))
      + (CallsCost(w.pipe.net.reg, v.calls) - CallsCost(w.pipe.net.reg, w.calls))
  {
    hide Pulls.Work, Ahead, CallsCost, Pipeline.Work;
  }

  lemma HostWorks(w: World, e: Event)
    requires Enabled(w, e) && Apply(w, e).Ok? && (e.EPull? || e.ELink? || e.EAnswer?)
    ensures Internal(e) ==> Work(Apply(w, e).value) < Work(w)
    ensures Work(Apply(w, e).value) <= Work(w) + PullCost(w, e)
  {
    HostChanges(w, Apply(w, e).value);
    hide Work, Pulls.Work, Ahead, CallsCost, ImageCost, Pulls.Cost, Pulls.OnRecv, Pulls.OnPull, Pulls.OnConnected;
    match e {
      case EPull(i, conn) => PullWorks(w, i, conn);
      case ELink => LinkWorks(w);
      case EAnswer => AnswerWorks(w);
    }
  }

  lemma HandledWorks(w: World, e: Event)
    requires Enabled(w, e) && Apply(w, e).Ok? && (e.EServe? || e.EReport?)
    ensures Work(Apply(w, e).value) < Work(w)
  {
    HostChanges(w, Apply(w, e).value);
    hide Work, Pulls.Work, Ahead, CallsCost, Pulls.Serve, Pulls.Apply, NewCalls;
    if e.EServe? {
      ServeWorks(w);
    } else {
      ReportWorks(w.pulls, w.pipe.untar.reports[w.seen].image);
      SameAhead(w, Apply(w, e).value.pulls);
    }
  }

  lemma SameAhead(w: World, c: Pulls.Client)
    requires c.requests == w.pulls.requests && c.pending == w.pulls.pending
    ensures Ahead(w.manifests, w.pipe.net.reg, c) == Ahead(w.manifests, w.pipe.net.reg, w.pulls)
  {
  }

  lemma FetchWorks(w: World)
    requires Inv(w) && Enabled(w, EFetch)
    ensures Apply(w, EFetch).Ok? && Work(Apply(w, EFetch).value) < Work(w)
  {
    hide Pulls.Inv, Pipeline.Inv, Labelled, Good, Fetching, Counted, Served, Once;
    hide Pulls.Work, Ahead, Pipeline.Work, Pipeline.Apply, Pipeline.Enabled;
    FetchKeeps(w);
    Pipeline.StepKeeps(w.pipe, Ask(w.calls[0]));
  }

  lemma PipeWorks(w: World, x: Pipeline.Event)
    requires Inv(w) && Enabled(w, EPipe(x))
    ensures Apply(w, EPipe(x)).Ok? && Work(Apply(w, EPipe(x)).value) <= Work(w)
    ensures Internal(EPipe(x)) ==> Work(Apply(w, EPipe(x)).value) < Work(w)
  {
    hide Pulls.Inv, Pipeline.Inv, Labelled, Good, Fetching, Counted, Served, Once;
    hide Pulls.Work, Ahead, Pipeline.Work, Pipeline.Apply, Pipeline.Enabled, CallsCost;
    Pipeline.StepKeeps(w.pipe, x);
  }

  lemma StepWorks(w: World, e: Event)
    requires Inv(w) && Enabled(w, e)
    ensures Apply(w, e).Ok?
    ensures Internal(e) ==> Work(Apply(w, e).value) < Work(w)
    ensures Work(Apply(w, e).value) <= Work(w) + PullCost(w, e)
  {
    hide Inv, Work, Apply;
    StepKeeps(w, e);
    match e {
      case EFetch => FetchWorks(w);
      case EPipe(x) => PipeWorks(w, x);
      case EServe => HandledWorks(w, e);
      case EReport => HandledWorks(w, e);
      case _ => HostWorks(w, e);
    }
  }

  lemma WorkIsNat(w: World)
    requires Inv(w)
    ensures Work(w) >= 0
  {
    Pipeline.WorkIsNat(w.pipe);
  }

  // ---------------------------------------------------------------- nothing left to do

  ghost predicate Quiet(w: World) {
    forall e :: Internal(e) ==> !Enabled(w, e)
  }

  lemma QuietParts(w: World)
    requires Quiet(w)
    ensures w.pulls.linked && w.pulls.requests == [] && w.pulls.answers == [] && w.calls == []
    ensures w.seen >= |w.pipe.untar.reports|
    ensures forall x :: Pipeline.Internal(x) ==> !Pipeline.Enabled(w.pipe, x)
  {
    assert !Enabled(w, ELink) && !Enabled(w, EServe) && !Enabled(w, EAnswer) && !Enabled(w, EFetch);
    assert !Enabled(w, EReport);
    forall x | Pipeline.Internal(x)
      ensures !Pipeline.Enabled(w.pipe, x)
    {
      assert Internal(EPipe(x)) && !Enabled(w, EPipe(x));
    }
  }

  /** Every layer of a served image has been asked for, and the pipeline has finished it. */
  lemma QuietWritten(w: World, contents: map<string, Bytes>, size: nat, i: Image, l: string)
    requires Inv(w) && Quiet(w) && Pipeline.Published(w.pipe.net.reg, contents, size, w.pipe.stage.g)
    requires i in Served(w.pulls) && i in w.manifests && l in w.manifests[i]
    ensures Unpacked(w.pipe.untar, contents, l)
  {
    hide Pulls.Inv, Pipeline.Inv, Labelled, Good, Fetching, Counted, Served, Once, Pipeline.Published, Quiet;
    hide Pipeline.Internal, Pipeline.Enabled;
    QuietParts(w);
    AllAsked(w.manifests, Served(w.pulls), w.pipe.net.asked, i, l);
    var k := Pipeline.QuietMeansComplete(w.pipe, contents, size, l);
  }

  lemma AllAsked(m: Manifests, served: set<Image>, asked: map<string, string>, i: Image, l: string)
    requires Fetching(m, served, [], asked) && i in served && i in m && l in m[i]
    ensures l in asked
  {
  }

  lemma QuietOwesNothing(w: World, contents: map<string, Bytes>, size: nat, i: Image)
    requires Inv(w) && Quiet(w) && Pipeline.Published(w.pipe.net.reg, contents, size, w.pipe.stage.g)
    ensures Pulls.Left(w.pulls.left, i) == 0
  {
    hide Pulls.Inv, Pipeline.Inv, Labelled, Good, Served, Once, Pipeline.Published, Unpacked, LayersReported, Quiet;
    QuietParts(w);
    assert w.pipe.untar.reports[..w.seen] == w.pipe.untar.reports;
    assert Pulls.Left(w.pulls.left, i) + |LayersReported(w.pipe.untar.reports[..w.seen], i)|
        == if i in Served(w.pulls) && i in w.manifests then |w.manifests[i]| else 0;
    if i in Served(w.pulls) && i in w.manifests {
      FetchingManifest(w.manifests, w.pipe.net.reg, Served(w.pulls), w.calls, w.pipe.net.asked, i);
      forall l | l in w.manifests[i]
        ensures Unpacked(w.pipe.untar, contents, l)
      {
        QuietWritten(w, contents, size, i, l);
      }
      hide Fetching, Counted, Manifest;
      CountsMean(w.pipe, contents, size, i, w.manifests[i]);
    }
  }

  lemma QuietPulls(w: World, contents: map<string, Bytes>, size: nat)
    requires Inv(w) && Quiet(w) && Pipeline.Published(w.pipe.net.reg, contents, size, w.pipe.stage.g)
    ensures Pulls.Quiet(w.pulls)
  {
    hide Inv, Quiet, Pipeline.Published;
    QuietParts(w);
    forall e | Pulls.Internal(e)
      ensures !Pulls.Enabled(w.pulls, e)
    {
      if e.EUnpacked? {
        QuietOwesNothing(w, contents, size, e.image);
      }
    }
  }

  /** With nothing left to do and no failed load, exactly the pulls of images with layers are answered. */
  lemma QuietMeansAnswered(w: World, contents: map<string, Bytes>, size: nat, p: Pulls.Pull)
    requires Inv(w) && Quiet(w) && Pipeline.Published(w.pipe.net.reg, contents, size, w.pipe.stage.g)
    requires w.pulls.leaked == [] && p in w.pulls.asked
    ensures p in w.pulls.replied <==> p.image in w.manifests && w.manifests[p.image] != []
  {
    QuietPulls(w, contents, size);
    hide Quiet, Pipeline.Inv, Labelled, Good, Fetching, Counted, Served, Once, Pulls.Inv;
    Pulls.QuietMeansAnswered(w.pulls);
  }

  // ---------------------------------------------------------------- whole runs

  ghost predicate Feasible(w: World, es: seq<Event>)
    decreases |es|
  {
    es != [] ==>
      Enabled(w, es[0]) && (Apply(w, es[0]).Ok? ==> Feasible(Apply(w, es[0]).value, es[1..]))
  }

  ghost function Run(w: World, es: seq<Event>): Outcome<World>
    requires Feasible(w, es)
    decreases |es|
  {
    if es == [] then Ok(w)
    else
      var v :- Apply(w, es[0]);
      Run(v, es[1..])
  }

  function CountInternal(es: seq<Event>): nat {
    if es == [] then 0 else (if Internal(es[0]) then 1 else 0) + CountInternal(es[1..])
  }

  /** The most that the pulls of a run can cost: for each, two steps, two per layer, 13 per segment. */
  function TotalCost(w: World, es: seq<Event>): nat {
    if es == [] then 0 else PullCost(w, es[0]) + TotalCost(w, es[1..])
  }

  /** What the cost of a pull depends on. */
  predicate Alike(v: World, w: World) {
    v.manifests == w.manifests && v.pulls.layers == w.pulls.layers && v.pipe.net.reg == w.pipe.net.reg
    && v.pipe.stage.g == w.pipe.stage.g
  }

  lemma {:induction false} CostAlike(v: World, w: World, es: seq<Event>)
    requires Alike(v, w)
    ensures TotalCost(v, es) == TotalCost(w, es)
  {
    if es != [] {
      CostAlike(v, w, es[1..]);
    }
  }

  lemma StepAlike(w: World, e: Event)
    requires Inv(w) && Enabled(w, e) && Apply(w, e).Ok? && Inv(Apply(w, e).value)
    ensures Alike(Apply(w, e).value, w)
  {
    hide Pulls.Inv, Pipeline.Inv, Labelled, Good, Fetching, Counted, Served, Once, Pipeline.Apply;
    if e.EPipe? {
      Pipeline.StepKeeps(w.pipe, e.e);
    } else if e.EFetch? {
      FetchKeeps(w);
      Pipeline.StepKeeps(w.pipe, Ask(w.calls[0]));
    }
  }

  lemma {:induction false} RunKeeps(w: World, es: seq<Event>)
    requires Inv(w) && Feasible(w, es)
    ensures Run(w, es).Ok? && Inv(Run(w, es).value) && Alike(Run(w, es).value, w)
    ensures CountInternal(es) + Work(Run(w, es).value) <= Work(w) + TotalCost(w, es)
    decreases |es|
  {
    hide Inv, Apply, Work, PullCost;
    if es != [] {
      StepKeeps(w, es[0]);
      StepWorks(w, es[0]);
      StepAlike(w, es[0]);
      var v := Apply(w, es[0]).value;
      RunKeeps(v, es[1..]);
      CostAlike(v, w, es[1..]);
    }
  }

  lemma InitWork(w: World, contents: map<string, Bytes>, size: nat)
    requires Init(w) && Pipeline.Published(w.pipe.net.reg, contents, size, w.pipe.stage.g)
    ensures Work(w) == 9
  {
    Pipeline.InitInv(w.pipe, contents, size);
  }

  /** THE WHOLE SYSTEM, SAFETY.  In every run, for every registry content and interleaving of the host, the
      DPU, the registry and the workers: nothing fails, no pull is answered twice, and a pull that has been
      answered has every byte of every layer of its image written to its tar. */
  lemma AnswersAreTrue(w: World, contents: map<string, Bytes>, size: nat, es: seq<Event>)
    requires Init(w) && Pipeline.Published(w.pipe.net.reg, contents, size, w.pipe.stage.g) && Feasible(w, es)
    ensures Run(w, es).Ok?
    ensures var v := Run(w, es).value;
      && (forall a, b :: 0 <= a < b < |v.pulls.replied| ==> v.pulls.replied[a] != v.pulls.replied[b])
      && (forall p, l :: p in v.pulls.replied && p.image in v.manifests && l in v.manifests[p.image] ==>
            Unpacked(v.pipe.untar, contents, l))
  {
    InitInv(w, contents, size);
    hide Init, Feasible, Run, Pipeline.Published, Unpacked, Work, TotalCost, CountInternal;
    RunKeeps(w, es);
    var v := Run(w, es).value;
    forall p, l | p in v.pulls.replied && p.image in v.manifests && l in v.manifests[p.image]
      ensures Unpacked(v.pipe.untar, contents, l)
    {
      hide Inv;
      AnsweredMeansWritten(v, contents, size, p, l);
    }
    hide Pipeline.Inv, Labelled, Good, Fetching, Counted, Served, Once;
  }

  /** THE WHOLE SYSTEM, PROGRESS.  A run takes at most 9 internal steps plus the cost of its pulls; when no
      internal step is left and no load has failed, exactly the pulls of images with layers are answered. */
  lemma EveryMaximalRunAnswers(w: World, contents: map<string, Bytes>, size: nat, es: seq<Event>)
    requires Init(w) && Pipeline.Published(w.pipe.net.reg, contents, size, w.pipe.stage.g) && Feasible(w, es)
    ensures Run(w, es).Ok? && CountInternal(es) <= 9 + TotalCost(w, es)
    ensures var v := Run(w, es).value;
      Quiet(v) && v.pulls.leaked == [] ==>
      forall p :: p in v.pulls.asked ==>
        (p in v.pulls.replied <==> p.image in v.manifests && v.manifests[p.image] != [])
  {
    InitInv(w, contents, size);
    InitWork(w, contents, size);
    hide Init, Feasible, Run, Pipeline.Published, Inv, Work, TotalCost, CountInternal, Quiet;
    RunKeeps(w, es);
    var v := Run(w, es).value;
    WorkIsNat(v);
    if Quiet(v) && v.pulls.leaked == [] {
      forall p | p in v.pulls.asked
        ensures p in v.pulls.replied <==> p.image in v.manifests && v.manifests[p.image] != []
      {
        QuietMeansAnswered(v, contents, size, p);
      }
    }
  }

  // ---------------------------------------------------------------- coming to rest

  lemma Prefix(w: World, e: Event, es: seq<Event>)
    requires Enabled(w, e) && Apply(w, e).Ok? && Feasible(Apply(w, e).value, es)
    ensures Feasible(w, [e] + es) && Run(w, [e] + es) == Run(Apply(w, e).value, es)
  {
    assert ([e] + es)[1..] == es;
  }

  /** From every reachable state the system can come to rest without further pulls. */
  lemma {:induction false} ComesToRest(w: World) returns (es: seq<Event>)
    requires Inv(w)
    ensures Feasible(w, es) && Run(w, es).Ok? && Quiet(Run(w, es).value) && forall e :: e in es ==> Internal(e)
    decreases Work(w)
  {
    WorkIsNat(w);
    hide Inv, Work, Apply, Enabled, Internal;
    if Quiet(w) {
      es := [];
    } else {
      var e :| Internal(e) && Enabled(w, e);
      StepKeeps(w, e);
      StepWorks(w, e);
      WorkIsNat(Apply(w, e).value);
      es := ComesToRest(Apply(w, e).value);
      Prefix(w, e, es);
      es := [e] + es;
    }
  }

  lemma StepLoading(w: World, e: Event)
    requires Inv(w) && Pulls.Loading(w.pulls) && Enabled(w, e) && Apply(w, e).Ok?
    requires e.EPull? ==> e.image in w.pulls.layers
    ensures Pulls.Loading(Apply(w, e).value.pulls)
  {
    hide Inv, Pulls.Loading, Pulls.OnPull, Pulls.OnConnected, Pulls.Serve, Pulls.OnRecv;
    hide Pipeline.Apply, Pipeline.Enabled;
    match e
    case EPull(i, conn) => Pulls.StepLoading(w.pulls, Pulls.EPull(i, conn));
    case ELink => Pulls.StepLoading(w.pulls, Pulls.ELink);
    case EServe => Pulls.StepLoading(w.pulls, Pulls.EServe);
    case EAnswer => Pulls.StepLoading(w.pulls, Pulls.EAnswer);
    case EReport =>
      Pulls.StepLoading(w.pulls, Pulls.EUnpacked(w.pipe.untar.reports[w.seen].image));
    case _ =>
  }

  /** No load fails in a run that pulls only what loads. */
  lemma {:induction false} RunLoading(w: World, es: seq<Event>)
    requires Inv(w) && Pulls.Loading(w.pulls) && Feasible(w, es) && Run(w, es).Ok?
    requires forall e :: e in es && e.EPull? ==> e.image in w.pulls.layers
    ensures Pulls.Loading(Run(w, es).value.pulls)
    decreases |es|
  {
    hide Inv, Apply, Enabled, Pulls.Loading;
    if es != [] {
      assert es[0] in es && forall e :: e in es[1..] ==> e in es;
      StepKeeps(w, es[0]);
      StepLoading(w, es[0]);
      StepAlike(w, es[0]);
      RunLoading(Apply(w, es[0]).value, es[1..]);
    }
  }

  /** Every image that has layers can be pulled and is answered: from the start, and alone. */
  lemma SomeRunAnswers(w: World, contents: map<string, Bytes>, size: nat, i: Image, conn: nat) returns (es: seq<Event>)
    requires Init(w) && Pipeline.Published(w.pipe.net.reg, contents, size, w.pipe.stage.g)
    requires i in w.manifests && w.manifests[i] != []
    ensures Feasible(w, es) && Run(w, es).Ok? && Pulls.Pull(i, conn, 0) in Run(w, es).value.pulls.replied
  {
    InitInv(w, contents, size);
    StartFacts(w);
    var e, p := EPull(i, conn), Pulls.Pull(i, conn, 0);
    StepKeeps(w, e);
    var v := Apply(w, e).value;
    assert v.pulls.asked == [p] && v.manifests == w.manifests && v.pipe == w.pipe;
    StepLoading(w, e);
    StepAlike(w, e);
    hide Inv, Init, Enabled, Apply, Internal, Quiet, Pipeline.Published, Pulls.Loading;
    var rest := ComesToRest(v);
    RunKeeps(v, rest);
    InternalPullsNothing(v, rest);
    RunLoading(v, rest);
    var u := Run(v, rest).value;
    LoadingLeaksNothing(u.pulls);
    QuietMeansAnswered(u, contents, size, p);
    Prefix(w, e, rest);
    es := [e] + rest;
  }

  lemma LoadingLeaksNothing(c: Pulls.Client)
    requires Pulls.Loading(c)
    ensures c.leaked == []
  {
  }

  lemma StartFacts(w: World)
    requires Init(w)
    ensures w.pulls.asked == [] && !w.pulls.connected && w.pulls.pending == [] && Pulls.Loading(w.pulls)
    ensures w.pulls.layers == Sizes(w.manifests) && w.pipe.untar.reports == []
  {
  }

  lemma {:induction false} InternalPullsNothing(w: World, es: seq<Event>)
    requires Feasible(w, es) && Run(w, es).Ok? && forall e :: e in es ==> Internal(e)
    ensures Run(w, es).value.pulls.asked == w.pulls.asked && forall e :: e in es ==> !e.EPull?
    decreases |es|
  {
    if es != [] {
      assert es[0] in es && forall e :: e in es[1..] ==> e in es;
      AskedFrame(w, es[0]);
      hide Apply, Enabled;
      InternalPullsNothing(Apply(w, es[0]).value, es[1..]);
      assert forall e :: e in es ==> e == es[0] || e in es[1..];
    }
  }

  lemma AskedFrame(w: World, e: Event)
    requires Enabled(w, e) && !e.EPull? && Apply(w, e).Ok?
    ensures Apply(w, e).value.pulls.asked == w.pulls.asked
  {
    hide Pipeline.Apply;
  }

  // ---------------------------------------------------------------- who is answered

  /** The pulls made in a run: which image, on which connection. */
  function PullsIn(es: seq<Event>): seq<(Image, nat)> {
    if es == [] then []
    else (if es[0].EPull? then [(es[0].image, es[0].conn)] else []) + PullsIn(es[1..])
  }

  function Callers(ps: seq<Pulls.Pull>): seq<(Image, nat)> {
    seq(|ps|, i requires 0 <= i < |ps| => (ps[i].image, ps[i].conn))
  }

  lemma StepAsks(w: World, e: Event)
    requires Enabled(w, e) && Apply(w, e).Ok?
    ensures Callers(Apply(w, e).value.pulls.asked) ==
      Callers(w.pulls.asked) + if e.EPull? then [(e.image, e.conn)] else []
  {
    if !e.EPull? {
      AskedFrame(w, e);
      hide Apply;
    } else {
      hide Pulls.TryOffload;
      PullAsked(w.pulls, e.image, e.conn);
    }
  }

  lemma PullAsked(c: Pulls.Client, i: Image, conn: nat)
    ensures Pulls.OnPull(c, i, conn).asked == c.asked + [Pulls.Pull(i, conn, |c.asked|)]
  {
  }

  lemma {:induction false} RunAsks(w: World, es: seq<Event>)
    requires Feasible(w, es) && Run(w, es).Ok?
    ensures Callers(Run(w, es).value.pulls.asked) == Callers(w.pulls.asked) + PullsIn(es)
    decreases |es|
  {
    hide Apply, Enabled, Callers;
    if es == [] {
      assert Callers(w.pulls.asked) + [] == Callers(w.pulls.asked);
    } else {
      StepAsks(w, es[0]);
      RunAsks(Apply(w, es[0]).value, es[1..]);
      Appended(Callers(w.pulls.asked), if es[0].EPull? then [(es[0].image, es[0].conn)] else [], PullsIn(es[1..]));
    }
  }

  lemma {:induction false} PullsInAre(es: seq<Event>, i: Image, conn: nat)
    ensures (i, conn) in PullsIn(es) <==> EPull(i, conn) in es
  {
    if es != [] {
      PullsInAre(es[1..], i, conn);
      assert es == [es[0]] + es[1..];
    }
  }

  lemma CallersAre(ps: seq<Pulls.Pull>, i: Image, conn: nat)
    ensures (i, conn) in Callers(ps) <==> exists p :: p in ps && p.image == i && p.conn == conn
  {
    if (i, conn) in Callers(ps) {
      var k :| 0 <= k < |ps| && Callers(ps)[k] == (i, conn);
      assert ps[k] in ps;
    }
    if p :| p in ps && p.image == i && p.conn == conn {
      var k :| 0 <= k < |ps| && ps[k] == p;
      assert Callers(ps)[k] == (i, conn);
    }
  }

  lemma RepliedAsked(c: Pulls.Client, p: Pulls.Pull)
    requires Pulls.Inv(c) && p in c.replied
    ensures p in c.asked
  {
  }

  /** Answers go to those who asked.  In every run the pulls on record are those made, in order, each with its
      own connection; an answer goes to a connection that pulled that image; and when the system comes to rest
      with no failed load, every connection that pulled an image with layers has been answered. */
  lemma CallersAreAnswered(w: World, contents: map<string, Bytes>, size: nat, es: seq<Event>)
    requires Init(w) && Pipeline.Published(w.pipe.net.reg, contents, size, w.pipe.stage.g) && Feasible(w, es)
    ensures Run(w, es).Ok?
    ensures var v := Run(w, es).value;
      && Callers(v.pulls.asked) == PullsIn(es)
      && (forall p :: p in v.pulls.replied ==> EPull(p.image, p.conn) in es)
      && (Quiet(v) && v.pulls.leaked == [] ==>
            forall i, conn :: EPull(i, conn) in es && i in v.manifests && v.manifests[i] != [] ==>
              exists p :: p in v.pulls.replied && p.image == i && p.conn == conn)
  {
    InitInv(w, contents, size);
    StartFacts(w);
    EveryMaximalRunAnswers(w, contents, size, es);
    hide Init, Feasible, Run, Pipeline.Published, Work, TotalCost, CountInternal, Quiet, PullsIn, Inv;
    RunKeeps(w, es);
    RunAsks(w, es);
    var v := Run(w, es).value;
    assert Callers(w.pulls.asked) == [];
    assert Callers(v.pulls.asked) == PullsIn(es);
    forall p | p in v.pulls.replied
      ensures EPull(p.image, p.conn) in es
    {
      PullsKept(v);
      RepliedAsked(v.pulls, p);
      CallersAre(v.pulls.asked, p.image, p.conn);
      PullsInAre(es, p.image, p.conn);
    }
    forall i, conn | EPull(i, conn) in es
      ensures exists p :: p in v.pulls.asked && p.image == i && p.conn == conn
    {
      PullsInAre(es, i, conn);
      CallersAre(v.pulls.asked, i, conn);
    }
  }
}
