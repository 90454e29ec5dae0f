/** Pulling again.  Within one run of module WholeSystem an image is pulled once.  Here the system runs in
    rounds: whenever it has come to rest, what it has done so far is forgotten, and every image may be pulled
    again.  Only history is forgotten: what was asked for, handed over and answered, the reports handled, and the
    workers that have ended.  Connections, buffers and the untar table stay as they are. */
module Rounds {
  import opened Base
  import opened Segments
  import Splitter
  import Fetch
  import Decompress
  import Untar
  import UntarTable
  import Pipeline
  import Pulls
  import opened Answers
  import opened WholeSystem

  function ForgetPulls(c: Pulls.Client): Pulls.Client {
    c.(asked := [], taken := [], replied := [])
  }

  function ForgetPipe(p: Pipeline.Pipe): Pipeline.Pipe {
    p.(net := p.net.(asked := map[], out := []), stage := p.stage.(submitted := [], delivered := []),
       untar := p.untar.(tasks := [], reports := [], given := []))
  }

  function Forget(w: World): World {
    w.(pulls := ForgetPulls(w.pulls), pipe := ForgetPipe(w.pipe), seen := 0)
  }

  /** Every image has layers, and every layer at least two segments. */
  ghost predicate Rich(m: Manifests, reg: Registry) {
    forall i :: i in m ==> m[i] != [] && forall l :: l in m[i] ==> l in reg && |reg[l]| >= 2
  }

  ghost predicate RoundInv(w: World, contents: map<string, Bytes>, size: nat) {
    && Inv(w) && UntarTable.Tidy(w.pipe.untar, Pipeline.Plan(w.pipe.net))
    && Pipeline.Published(w.pipe.net.reg, contents, size, w.pipe.stage.g) && Rich(w.manifests, w.pipe.net.reg)
  }

  // ---------------------------------------------------------------- within a round

  lemma StepTidy(w: World, e: Event)
    requires Inv(w) && UntarTable.Tidy(w.pipe.untar, Pipeline.Plan(w.pipe.net)) && Enabled(w, e) && Apply(w, e).Ok?
    ensures var v := Apply(w, e).value; UntarTable.Tidy(v.pipe.untar, Pipeline.Plan(v.pipe.net))
  {
    hide UntarTable.Tidy, Pipeline.Plan, Pipeline.Inv, Pipeline.Apply, Pipeline.Enabled;
    hide Pulls.Inv, Labelled, Good, Fetching, Counted, Served, Once;
    if e.EPipe? {
      UntarTable.StepTidy(w.pipe, e.e);
    } else if e.EFetch? {
      UntarTable.StepTidy(w.pipe, Ask(w.calls[0]));
    }
  }

  lemma {:induction false} RunTidy(w: World, es: seq<Event>)
    requires Inv(w) && UntarTable.Tidy(w.pipe.untar, Pipeline.Plan(w.pipe.net)) && Feasible(w, es)
    ensures Run(w, es).Ok?
    ensures var v := Run(w, es).value; UntarTable.Tidy(v.pipe.untar, Pipeline.Plan(v.pipe.net))
    decreases |es|
  {
    hide Inv, Apply, Enabled, UntarTable.Tidy, Pipeline.Plan;
    if es != [] {
      StepKeeps(w, es[0]);
      StepTidy(w, es[0]);
      RunTidy(Apply(w, es[0]).value, es[1..]);
    }
  }

  lemma RoundKeeps(w: World, contents: map<string, Bytes>, size: nat, es: seq<Event>)
    requires RoundInv(w, contents, size) && Feasible(w, es)
    ensures Run(w, es).Ok? && RoundInv(Run(w, es).value, contents, size)
  {
    hide Inv, UntarTable.Tidy, Pipeline.Plan, Pipeline.Published, Rich, Feasible, Run, Work, CountInternal, TotalCost;
    RunKeeps(w, es);
    RunTidy(w, es);
  }

  // ---------------------------------------------------------------- the pulls at rest

  lemma PullsAtRest(c: Pulls.Client)
    requires Pulls.Inv(c) && Pulls.Quiet(c) && c.leaked == [] && forall i :: i in c.layers ==> c.layers[i] > 0
    ensures c.tasks == map[] && c.pending == [] && c.requests == [] && forall i :: Pulls.Left(c.left, i) == 0
  {
    Pulls.QuietFacts(c);
    Pulls.QuietMeansAnswered(c);
    assert c.tasks == map[];
  }

  lemma ForgetPullsKeeps(c: Pulls.Client)
    requires Pulls.Inv(c) && c.tasks == map[] && c.pending == [] && c.requests == []
    requires forall i :: Pulls.Left(c.left, i) == 0
    ensures Pulls.Inv(ForgetPulls(c)) && Served(ForgetPulls(c)) == {}
  {
    hide Pulls.Split, Pulls.Window;
  }

  // ---------------------------------------------------------------- the pipeline at rest

  lemma NetAtRest(n: Fetch.Net)
    requires Fetch.Inv(n)
    requires !Fetch.Enabled(n, Fetch.EConnect) && !Fetch.Enabled(n, Fetch.EServe) && !Fetch.Enabled(n, Fetch.ERecv)
    ensures n.toServer == [] && n.toClient == [] && n.c.unsent == []
  {
    if n.asked != map[] {
      Fetch.QuietMeansNothingDue(n);
      assert |Fetch.Due(n)| >= |n.c.unsent|;
    } else {
      NoRequests(n.c.unsent, n.asked);
    }
  }

  lemma NoRequests(qs: seq<Fetch.Request>, asked: map<string, string>)
    requires forall q :: q in qs ==> q.layer in asked
    ensures qs != [] ==> asked != map[]
  {
    if qs != [] {
      assert qs[0] in qs;
    }
  }

  lemma ForgetNetKeeps(n: Fetch.Net)
    requires Fetch.Inv(n) && n.toServer == [] && n.toClient == [] && n.c.unsent == []
    ensures Fetch.Inv(n.(asked := map[], out := []))
  {
    var m := n.(asked := map[], out := []);
    assert Fetch.Due(m) == [] && Unpacks(m.out) == [];
    forall l
      ensures Fetch.LayerInOrder(m.reg, m.asked, Of(l, Unpacks(m.out)), Of(l, Fetch.Due(m)), l)
    {
    }
  }

  lemma ForgetStageKeeps(s: Decompress.Stage)
    requires Decompress.Inv(s) && s.delivered == Unpacks(s.submitted)
    ensures Decompress.Inv(s.(submitted := [], delivered := []))
  {
    var t := s.(submitted := [], delivered := []);
    assert Decompress.Stream(s) == s.delivered;
    assert Decompress.Requests(t) == Decompress.Requests(s);
    assert |Decompress.Stream(s)| == |s.delivered| + |Decompress.Stream(t)|;
    assert Decompress.Stream(t) == [] && Unpacks(t.submitted) == [];
    forall p: nat
      ensures Decompress.Held(t, p) == Decompress.Held(s, p)
    {
    }
    hide Decompress.Stream, Decompress.Held, Decompress.Requests;
  }

  lemma ForgetEngineKeeps(u: Untar.Engine)
    requires u.threads >= 1 && u.table == map[] && u.adding == None
    ensures Untar.Inv(u.(tasks := [], reports := [], given := []), map[])
  {
  }

  lemma TableEntry(p: Pipeline.Pipe, l: string)
    requires Pipeline.Inv(p) && l in p.untar.table
    ensures p.untar.table[l] < |p.untar.tasks| && p.untar.tasks[p.untar.table[l]].layer == l
  {
    hide Fetch.Inv, Decompress.Inv;
  }

  /** At rest no entry is left, if every layer asked for has at least two segments. */
  lemma TableAtRest(p: Pipeline.Pipe, contents: map<string, Bytes>, size: nat, l: string)
    requires Pipeline.Inv(p) && UntarTable.Tidy(p.untar, Pipeline.Plan(p.net))
    requires Pipeline.Published(p.net.reg, contents, size, p.stage.g)
    requires forall e :: Pipeline.Internal(e) ==> !Pipeline.Enabled(p, e)
    requires forall k :: k in p.net.asked && k in p.net.reg ==> |p.net.reg[k]| >= 2
    ensures l !in p.untar.table
  {
    if l in p.untar.table {
      TableEntry(p, l);
      var i := p.untar.table[l];
      Pipeline.QuietTasksEnd(p, i);
      Ended(p, contents, size, i);
    }
  }

  lemma Ended(p: Pipeline.Pipe, contents: map<string, Bytes>, size: nat, i: nat)
    requires Pipeline.Inv(p) && UntarTable.Tidy(p.untar, Pipeline.Plan(p.net))
    requires Pipeline.Published(p.net.reg, contents, size, p.stage.g)
    requires forall k :: k in p.net.asked && k in p.net.reg ==> |p.net.reg[k]| >= 2
    requires i < |p.untar.tasks| && p.untar.tasks[i].status != Untar.Running
    ensures p.untar.tasks[i].layer !in p.untar.table
  {
    var l := p.untar.tasks[i].layer;
    Untar.TaskFacts(p.untar, Pipeline.Plan(p.net), i);
    assert l in p.net.asked && l in p.net.reg && |Pipeline.Plan(p.net)[l]| == |p.net.reg[l]| >= 2;
    hide Fetch.Inv, Decompress.Inv, Untar.Inv;
    Untar.WrittenIsPrefix(p.untar, Pipeline.Plan(p.net), i);
    NoEmptyPiece(p, contents, size, l);
  }

  lemma NoEmptyPiece(p: Pipeline.Pipe, contents: map<string, Bytes>, size: nat, l: string)
    requires Pipeline.Published(p.net.reg, contents, size, p.stage.g) && l in Pipeline.Plan(p.net)
    requires |p.net.reg[l]| >= 2
    ensures forall x :: x in Pipeline.Plan(p.net)[l] ==> x.bytes != []
  {
    Pipeline.FullIsContent(p, contents, size, l);
    SeveralChunks(contents[l], size);
  }

  lemma SeveralChunks(content: Bytes, size: nat)
    requires size >= 1
    ensures |Splitter.Chunks(content, size)| >= 2 ==> content != []
  {
  }

  // ---------------------------------------------------------------- forgetting

  /** The system has come to rest, and no load has failed. */
  ghost predicate Rested(w: World) {
    Quiet(w) && w.pulls.leaked == []
  }

  lemma RestOfPulls(w: World, contents: map<string, Bytes>, size: nat)
    requires RoundInv(w, contents, size) && Rested(w)
    ensures Pulls.Inv(ForgetPulls(w.pulls)) && Served(ForgetPulls(w.pulls)) == {}
    ensures w.calls == [] && forall i :: Pulls.Left(w.pulls.left, i) == 0
  {
    hide UntarTable.Tidy, Pipeline.Plan, Pipeline.Published, Quiet, Pipeline.Inv, Pulls.Inv, Labelled, Good;
    hide Fetching, Counted, Served, Once;
    QuietParts(w);
    QuietPulls(w, contents, size);
    assert forall i :: i in w.pulls.layers ==> w.pulls.layers[i] > 0;
    PullsAtRest(w.pulls);
    ForgetPullsKeeps(w.pulls);
  }

  lemma RichAsked(m: Manifests, reg: Registry, served: set<Image>, calls: seq<Call>, asked: map<string, string>)
    requires Rich(m, reg) && Fetching(m, served, calls, asked)
    ensures forall l :: l in asked && l in reg ==> |reg[l]| >= 2
  {
  }

  lemma RestOfPipe(p: Pipeline.Pipe, contents: map<string, Bytes>, size: nat)
    requires Pipeline.Inv(p) && UntarTable.Tidy(p.untar, Pipeline.Plan(p.net))
    requires Pipeline.Published(p.net.reg, contents, size, p.stage.g)
    requires forall e :: Pipeline.Internal(e) ==> !Pipeline.Enabled(p, e)
    requires forall k :: k in p.net.asked && k in p.net.reg ==> |p.net.reg[k]| >= 2
    ensures Pipeline.Inv(ForgetPipe(p)) && Labelled(ForgetPipe(p))
    ensures UntarTable.Tidy(ForgetPipe(p).untar, Pipeline.Plan(ForgetPipe(p).net))
  {
    hide Fetch.Inv, Decompress.Inv, Untar.Inv, Pipeline.Published, Pipeline.Internal, Pipeline.Enabled;
    hide UntarTable.Tidy, Fetch.Enabled, Decompress.Enabled, Untar.Enabled;
    forall l
      ensures l !in p.untar.table
    {
      TableAtRest(p, contents, size, l);
    }
    assert p.untar.table == map[];
    Pipeline.QuietPartsQuiet(p);
    NetAtRest(p.net);
    ForgetNetKeeps(p.net);
    Decompress.QuietMeansDelivered(p.stage);
    ForgetStageKeeps(p.stage);
    ThreadsStay(p);
    ForgetEngineKeeps(p.untar);
    assert Pipeline.Plan(ForgetPipe(p).net) == map[];
    UntarTable.NothingTidy(ForgetPipe(p).untar, map[]);
  }

  lemma ThreadsStay(p: Pipeline.Pipe)
    requires Pipeline.Inv(p)
    ensures p.untar.threads >= 1
  {
    hide Fetch.Inv, Decompress.Inv;
  }

  /** Forgetting at rest gives a state from which everything proved of a run holds again. */
  lemma ForgetKeeps(w: World, contents: map<string, Bytes>, size: nat)
    requires RoundInv(w, contents, size) && Rested(w)
    ensures RoundInv(Forget(w), contents, size)
  {
    RestOfPulls(w, contents, size);
    hide UntarTable.Tidy, Pipeline.Plan, Pipeline.Published, Quiet, Pipeline.Inv, Pulls.Inv, Labelled, Good;
    hide Fetching, Counted, Served, Once, Rich;
    QuietParts(w);
    RichAsked(w.manifests, w.pipe.net.reg, Served(w.pulls), w.calls, w.pipe.net.asked);
    hide Pipeline.Internal, Pipeline.Enabled;
    RestOfPipe(w.pipe, contents, size);
    NothingYet(w.manifests);
    NothingOwed(w.manifests, w.pulls.left);
  }

  lemma NothingOwed(m: Manifests, left: multiset<Image>)
    requires forall i :: Pulls.Left(left, i) == 0
    ensures Counted(m, {}, left, [], 0)
  {
  }

  // ---------------------------------------------------------------- many rounds

  /** Each of the rounds is a run that comes to rest; the next one starts with nothing remembered. */
  ghost predicate Completed(w: World, rounds: seq<seq<Event>>)
    decreases |rounds|
  {
    rounds != [] ==>
      && Feasible(w, rounds[0])
      && (Run(w, rounds[0]).Ok? ==>
            Rested(Run(w, rounds[0]).value) && Completed(Forget(Run(w, rounds[0]).value), rounds[1..]))
  }

  ghost function After(w: World, rounds: seq<seq<Event>>): Outcome<World>
    requires Completed(w, rounds)
    decreases |rounds|
  {
    if rounds == [] then Ok(w)
    else
      var v :- Run(w, rounds[0]);
      After(Forget(v), rounds[1..])
  }

  lemma {:induction false} RoundsKeep(w: World, contents: map<string, Bytes>, size: nat, rounds: seq<seq<Event>>)
    requires RoundInv(w, contents, size) && Completed(w, rounds)
    ensures After(w, rounds).Ok? && RoundInv(After(w, rounds).value, contents, size)
    decreases |rounds|
  {
    hide RoundInv, Rested, Feasible, Run;
    if rounds != [] {
      RoundKeeps(w, contents, size, rounds[0]);
      ForgetKeeps(Run(w, rounds[0]).value, contents, size);
      RoundsKeep(Forget(Run(w, rounds[0]).value), contents, size, rounds[1..]);
    }
  }

  lemma StartOfRounds(w: World, contents: map<string, Bytes>, size: nat)
    requires Init(w) && Pipeline.Published(w.pipe.net.reg, contents, size, w.pipe.stage.g)
    requires Rich(w.manifests, w.pipe.net.reg)
    ensures RoundInv(w, contents, size)
  {
    InitInv(w, contents, size);
    UntarTable.NothingTidy(w.pipe.untar, Pipeline.Plan(w.pipe.net));
  }

  /** Images can be pulled again and again.  After any number of rounds that came to rest, in every further
      run: nothing fails, a pull of this round that is answered has every byte of every layer of its image
      written in this round, and when the round comes to rest exactly the pulls of images that load have been
      answered. */
  lemma PulledAgain(w: World, contents: map<string, Bytes>, size: nat, rounds: seq<seq<Event>>, es: seq<Event>)
    requires Init(w) && Pipeline.Published(w.pipe.net.reg, contents, size, w.pipe.stage.g)
    requires Rich(w.manifests, w.pipe.net.reg)
    requires Completed(w, rounds) && After(w, rounds).Ok? && Feasible(After(w, rounds).value, es)
    ensures Run(After(w, rounds).value, es).Ok?
    ensures var v := Run(After(w, rounds).value, es).value;
      && (forall p, l :: p in v.pulls.replied && p.image in v.manifests && l in v.manifests[p.image] ==>
            Unpacked(v.pipe.untar, contents, l))
      && (Rested(v) ==>
            forall p :: p in v.pulls.asked ==> (p in v.pulls.replied <==> p.image in v.manifests))
  {
    StartOfRounds(w, contents, size);
    hide Init, Pipeline.Published, Completed, After, Feasible, Run, Unpacked, Inv, Quiet;
    hide UntarTable.Tidy, Pipeline.Plan;
    RoundsKeep(w, contents, size, rounds);
    RoundKeeps(After(w, rounds).value, contents, size, es);
    var v := Run(After(w, rounds).value, es).value;
    forall p, l | p in v.pulls.replied && p.image in v.manifests && l in v.manifests[p.image]
      ensures Unpacked(v.pipe.untar, contents, l)
    {
      AnsweredMeansWritten(v, contents, size, p, l);
    }
    if Rested(v) {
      forall p | p in v.pulls.asked
        ensures p in v.pulls.replied <==> p.image in v.manifests
      {
        QuietMeansAnswered(v, contents, size, p);
      }
    }
  }
}
