/** What a reply means.  The host counts the reports of the untar workers for each image and answers the pull
    when the count reaches the number of layers in its manifest.  Nothing in that count mentions bytes; here
    it is tied to what the pipeline has written. */
module Answers {
  import opened Base
  import opened Segments
  import Fetch
  import Decompress
  import Untar
  import Pipeline

  // ---------------------------------------------------------------- reports name the right image

  ghost predicate TasksLabelled(tasks: seq<Untar.Task>, asked: map<string, string>) {
    forall i :: 0 <= i < |tasks| ==> tasks[i].layer in asked && tasks[i].image == asked[tasks[i].layer]
  }

  ghost predicate ReportsLabelled(reports: seq<Untar.Report>, asked: map<string, string>) {
    forall r :: r in reports ==> r.layer in asked && r.image == asked[r.layer]
  }

  ghost predicate Labelled(p: Pipeline.Pipe) {
    TasksLabelled(p.untar.tasks, p.net.asked) && ReportsLabelled(p.untar.reports, p.net.asked)
  }

  lemma WorkLabelled(u: Untar.Engine, asked: map<string, string>, e: Untar.Event)
    requires Untar.Enabled(u, e) && Untar.Apply(u, e).Ok?
    requires TasksLabelled(u.tasks, asked) && ReportsLabelled(u.reports, asked)
    ensures var v := Untar.Apply(u, e).value; TasksLabelled(v.tasks, asked) && ReportsLabelled(v.reports, asked)
  {
  }

  lemma GiveLabelled(u: Untar.Engine, asked: map<string, string>, x: Piece)
    requires Untar.Give(u, x).Ok? && x.layer in asked && x.image == asked[x.layer]
    requires TasksLabelled(u.tasks, asked) && ReportsLabelled(u.reports, asked)
    ensures var v := Untar.Give(u, x).value; TasksLabelled(v.tasks, asked) && ReportsLabelled(v.reports, asked)
  {
  }

  /** The piece that reaches the engine carries the image that its layer was asked for. */
  lemma PieceLabelled(p: Pipeline.Pipe, delivered: seq<Piece>)
    requires Fetch.Inv(p.net) && p.stage.submitted <= p.net.out
    requires delivered != [] && delivered <= Unpacks(p.stage.submitted)
    ensures Last(delivered).layer in p.net.asked && Last(delivered).image == p.net.asked[Last(delivered).layer]
  {
    Pipeline.NextPiece(p, delivered);
    var x := Last(delivered);
    var got := Of(x.layer, ButLast(delivered));
    assert (got + [x])[|got|] == Pipeline.Plan(p.net)[x.layer][|got|];
  }

  lemma AskedGrows(n: Fetch.Net, f: Fetch.Event)
    requires Fetch.Enabled(n, f) && Fetch.Apply(n, f).Ok?
    ensures var m := Fetch.Apply(n, f).value; forall l :: l in n.asked ==> l in m.asked && m.asked[l] == n.asked[l]
  {
  }

  lemma StageLabelled(p: Pipeline.Pipe, d: Decompress.Event)
    requires Pipeline.Inv(p) && Labelled(p)
    requires Pipeline.Enabled(p, Pipeline.EStage(d)) && Pipeline.Apply(p, Pipeline.EStage(d)).Ok?
    ensures Labelled(Pipeline.Apply(p, Pipeline.EStage(d)).value)
  {
    hide Fetch.Inv, Decompress.Inv, Decompress.Apply, Untar.Inv, Untar.Give;
    Decompress.StepKeeps(p.stage, d);
    Pipeline.StageFrame(p.stage, d);
    var t := Decompress.Apply(p.stage, d).value;
    if t.delivered != p.stage.delivered {
      Pipeline.DeliveredIsPrefix(t);
      PieceLabelled(p, t.delivered);
      GiveLabelled(p.untar, p.net.asked, Last(t.delivered));
    }
  }

  lemma StepLabelled(p: Pipeline.Pipe, e: Pipeline.Event)
    requires Pipeline.Inv(p) && Labelled(p) && Pipeline.Enabled(p, e) && Pipeline.Apply(p, e).Ok?
    ensures Labelled(Pipeline.Apply(p, e).value)
  {
    hide Pipeline.Inv;
    match e
    case EFetch(f) => AskedGrows(p.net, f);
    case EHandoff =>
    case EStage(d) => StageLabelled(p, d);
    case EUntar(u) => WorkLabelled(p.untar, p.net.asked, u);
  }

  lemma {:induction false} RunLabelled(p: Pipeline.Pipe, es: seq<Pipeline.Event>)
    requires Pipeline.Inv(p) && Labelled(p) && Pipeline.Feasible(p, es)
    ensures Pipeline.Run(p, es).Ok? && Labelled(Pipeline.Run(p, es).value)
    decreases |es|
  {
    hide Pipeline.Inv, Pipeline.Apply, Labelled;
    if es != [] {
      Pipeline.StepKeeps(p, es[0]);
      StepLabelled(p, es[0]);
      RunLabelled(Pipeline.Apply(p, es[0]).value, es[1..]);
    }
  }

  // ---------------------------------------------------------------- counting reports

  /** The layers reported for an image: completeTask is called once for each entry. */
  function LayersReported(rs: seq<Untar.Report>, image: string): seq<string> {
    if rs == [] then []
    else (if rs[0].image == image then [rs[0].layer] else []) + LayersReported(rs[1..], image)
  }

  predicate NoDup(ls: seq<string>) {
    forall i, j :: 0 <= i < j < |ls| ==> ls[i] != ls[j]
  }

  lemma {:induction false} ReportedIn(rs: seq<Untar.Report>, image: string, l: string)
    requires l in LayersReported(rs, image)
    ensures Untar.ReportsFor(rs, l) >= 1 && exists r :: r in rs && r.layer == l && r.image == image
  {
    if rs[0].image == image && rs[0].layer == l {
      assert rs[0] in rs;
    } else {
      ReportedIn(rs[1..], image, l);
    }
  }

  lemma {:induction false} InReported(rs: seq<Untar.Report>, image: string, l: string)
    requires Untar.ReportsFor(rs, l) >= 1 && forall r :: r in rs && r.layer == l ==> r.image == image
    ensures l in LayersReported(rs, image)
  {
    if rs[0].layer == l {
      assert rs[0] in rs;
    } else {
      InReported(rs[1..], image, l);
    }
  }

  lemma {:induction false} NotReported(rs: seq<Untar.Report>, image: string, l: string)
    requires Untar.ReportsFor(rs, l) == 0
    ensures l !in LayersReported(rs, image)
  {
    if rs != [] {
      NotReported(rs[1..], image, l);
    }
  }

  lemma {:induction false} ReportedNoDup(rs: seq<Untar.Report>, image: string)
    requires forall l :: Untar.ReportsFor(rs, l) <= 1
    ensures NoDup(LayersReported(rs, image))
  {
    if rs != [] {
      forall l ensures Untar.ReportsFor(rs[1..], l) <= 1 {
        assert Untar.ReportsFor(rs, l) <= 1;
      }
      ReportedNoDup(rs[1..], image);
      assert Untar.ReportsFor(rs, rs[0].layer) <= 1;
      NotReported(rs[1..], image, rs[0].layer);
    }
  }

  function SetOf(ls: seq<string>): set<string> {
    set l | l in ls
  }

  lemma {:induction false} NoDupCount(ls: seq<string>)
    requires NoDup(ls)
    ensures |SetOf(ls)| == |ls|
  {
    if ls != [] {
      NoDupCount(ls[1..]);
      assert ls == [ls[0]] + ls[1..];
      assert SetOf(ls) == {ls[0]} + SetOf(ls[1..]);
    }
  }

  lemma SubsetCount(a: set<string>, b: set<string>)
    requires a <= b
    ensures |a| <= |b| && (|a| == |b| <==> a == b)
  {
    assert b == a + (b - a);
    if a != b {
      var x :| x in b - a;
    }
  }

  /** The count never exceeds the number of layers, and reaches it exactly when all are reported. */
  lemma CountReaches(ls: seq<string>, manifest: seq<string>)
    requires NoDup(ls) && NoDup(manifest) && forall l :: l in ls ==> l in manifest
    ensures |ls| <= |manifest| && (|ls| == |manifest| <==> forall l :: l in manifest ==> l in ls)
  {
    NoDupCount(ls);
    NoDupCount(manifest);
    SubsetCount(SetOf(ls), SetOf(manifest));
    assert forall l :: l in SetOf(ls) <==> l in ls;
    assert forall l :: l in SetOf(manifest) <==> l in manifest;
  }

  // ---------------------------------------------------------------- the meaning of a reply

  /** The layer's tar has been given all of the layer, and its task has ended. */
  ghost predicate Unpacked(u: Untar.Engine, contents: map<string, Bytes>, l: string) {
    l in contents && exists i :: 0 <= i < |u.tasks| && u.tasks[i].layer == l
                                 && u.tasks[i].status != Untar.Running && u.tasks[i].written == contents[l]
  }

  lemma {:induction false} FinishedTask(ts: seq<Untar.Task>, l: string) returns (i: nat)
    requires Untar.FinishedFor(ts, l) >= 1
    ensures i < |ts| && ts[i].layer == l && ts[i].status != Untar.Running
  {
    if ts[0].layer == l && ts[0].status != Untar.Running {
      i := 0;
    } else {
      i := FinishedTask(ts[1..], l);
      i := i + 1;
    }
  }

  lemma AtMostOneReport(u: Untar.Engine, plan: Untar.Plan, l: string)
    requires Untar.Inv(u, plan)
    ensures Untar.ReportsFor(u.reports, l) == Untar.FinishedFor(u.tasks, l) <= 1
  {
    if Untar.FinishedFor(u.tasks, l) >= 1 {
      var i := FinishedTask(u.tasks, l);
      Untar.ReportedOnce(u, plan, i);
    }
  }

  lemma ReportedUnpacked(p: Pipeline.Pipe, contents: map<string, Bytes>, size: nat, image: string, l: string)
    requires Pipeline.Inv(p) && Pipeline.Published(p.net.reg, contents, size, p.stage.g)
    requires l in LayersReported(p.untar.reports, image)
    ensures Unpacked(p.untar, contents, l)
  {
    hide Pipeline.Published, Pipeline.Plan, Fetch.Inv, Decompress.Inv, Untar.Inv, LayersReported;
    AtMostOneReport(p.untar, Pipeline.Plan(p.net), l);
    ReportedIn(p.untar.reports, image, l);
    var i := FinishedTask(p.untar.tasks, l);
    hide Pipeline.Inv;
    Pipeline.WrittenIsContentPrefix(p, contents, size, i);
  }

  lemma UnpackedReported(p: Pipeline.Pipe, contents: map<string, Bytes>, image: string, l: string)
    requires Pipeline.Inv(p) && Labelled(p) && Unpacked(p.untar, contents, l)
    requires l in p.net.asked && p.net.asked[l] == image
    ensures l in LayersReported(p.untar.reports, image)
  {
    hide Pipeline.Plan, Fetch.Inv, Decompress.Inv, Untar.Inv, LayersReported;
    var i :| 0 <= i < |p.untar.tasks| && p.untar.tasks[i].layer == l && p.untar.tasks[i].status != Untar.Running;
    Untar.ReportedOnce(p.untar, Pipeline.Plan(p.net), i);
    InReported(p.untar.reports, image, l);
  }

  /** A layer is among those reported exactly when it is unpacked. */
  lemma ReportedIffUnpacked(p: Pipeline.Pipe, contents: map<string, Bytes>, size: nat, image: string, l: string)
    requires Pipeline.Inv(p) && Labelled(p) && Pipeline.Published(p.net.reg, contents, size, p.stage.g)
    requires l in p.net.asked && p.net.asked[l] == image
    ensures l in LayersReported(p.untar.reports, image) <==> Unpacked(p.untar, contents, l)
  {
    hide Pipeline.Inv, Labelled, Pipeline.Published, LayersReported, Unpacked;
    if l in LayersReported(p.untar.reports, image) {
      ReportedUnpacked(p, contents, size, image, l);
    }
    if Unpacked(p.untar, contents, l) {
      UnpackedReported(p, contents, image, l);
    }
  }

  /** The layers asked for on behalf of an image, so far, belong to its manifest, and layers of the
      manifest are asked for on behalf of no other image. */
  ghost predicate Manifest(asked: map<string, string>, image: string, manifest: seq<string>) {
    && NoDup(manifest)
    && (forall l :: l in asked && asked[l] == image ==> l in manifest)
    && (forall l :: l in manifest && l in asked ==> asked[l] == image)
  }

  /** In every run of the pipeline, whether or not all layers have been asked for yet: the number of
      reports for an image never exceeds the number of layers in its manifest, and equals it, which is
      when the pull is answered, if and only if every one of those layers has been written to its tar
      completely. */
  lemma AnsweredIffUnpacked(
      p: Pipeline.Pipe, contents: map<string, Bytes>, size: nat, es: seq<Pipeline.Event>,
      image: string, manifest: seq<string>)
    requires Pipeline.Init(p) && Pipeline.Published(p.net.reg, contents, size, p.stage.g)
    requires Pipeline.Feasible(p, es) && Pipeline.Run(p, es).Ok?
    requires Manifest(Pipeline.Run(p, es).value.net.asked, image, manifest)
    ensures var u := Pipeline.Run(p, es).value.untar;
      && |LayersReported(u.reports, image)| <= |manifest|
      && (|LayersReported(u.reports, image)| == |manifest| <==>
            forall l :: l in manifest ==> Unpacked(u, contents, l))
  {
    StartLabelled(p);
    hide Pipeline.Inv, Pipeline.Init, Pipeline.Published, Pipeline.Feasible, Pipeline.Run;
    hide Labelled, Unpacked, LayersReported, Manifest;
    Pipeline.InitInv(p, contents, size);
    Pipeline.RunKeeps(p, es);
    RunLabelled(p, es);
    CountsMean(Pipeline.Run(p, es).value, contents, size, image, manifest);
  }

  lemma StartLabelled(p: Pipeline.Pipe)
    requires Pipeline.Init(p)
    ensures Labelled(p)
  {
  }

  /** A layer that has not been asked for has no task. */
  lemma NotAskedNotUnpacked(p: Pipeline.Pipe, contents: map<string, Bytes>, image: string, l: string)
    requires Labelled(p) && l !in p.net.asked
    ensures !Unpacked(p.untar, contents, l) && l !in LayersReported(p.untar.reports, image)
  {
    if l in LayersReported(p.untar.reports, image) {
      ReportedIn(p.untar.reports, image, l);
    }
  }

  /** No layer is reported twice, so there are at most as many reports as layers. */
  lemma ReportsFit(q: Pipeline.Pipe, image: string, manifest: seq<string>)
    requires Pipeline.Inv(q) && Labelled(q) && Manifest(q.net.asked, image, manifest)
    ensures var ls := LayersReported(q.untar.reports, image);
      |ls| <= |manifest| && (|ls| == |manifest| <==> forall l :: l in manifest ==> l in ls)
  {
    var rs := q.untar.reports;
    forall l ensures Untar.ReportsFor(rs, l) <= 1 {
      AtMostOneReport(q.untar, Pipeline.Plan(q.net), l);
    }
    ReportedNoDup(rs, image);
    forall l | l in LayersReported(rs, image)
      ensures l in q.net.asked && q.net.asked[l] == image
    {
      ReportedIn(rs, image, l);
    }
    CountReaches(LayersReported(rs, image), manifest);
  }

  lemma CountsMean(
      q: Pipeline.Pipe, contents: map<string, Bytes>, size: nat, image: string, manifest: seq<string>)
    requires Pipeline.Inv(q) && Labelled(q) && Pipeline.Published(q.net.reg, contents, size, q.stage.g)
    requires Manifest(q.net.asked, image, manifest)
    ensures |LayersReported(q.untar.reports, image)| <= |manifest|
    ensures |LayersReported(q.untar.reports, image)| == |manifest| <==>
      forall l :: l in manifest ==> Unpacked(q.untar, contents, l)
  {
    hide Pipeline.Inv, Unpacked, LayersReported, Labelled;
    ReportsFit(q, image, manifest);
    forall l | l in manifest
      ensures l in LayersReported(q.untar.reports, image) <==> Unpacked(q.untar, contents, l)
    {
      if l in q.net.asked {
        ReportedIffUnpacked(q, contents, size, image, l);
      } else {
        NotAskedNotUnpacked(q, contents, image, l);
      }
    }
  }

  lemma {:induction false} ReportedCat(a: seq<Untar.Report>, b: seq<Untar.Report>, image: string)
    ensures LayersReported(a + b, image) == LayersReported(a, image) + LayersReported(b, image)
  {
    if a == [] {
      assert a + b == b;
    } else {
      assert (a + b)[1..] == a[1..] + b;
      ReportedCat(a[1..], b, image);
    }
  }
}
