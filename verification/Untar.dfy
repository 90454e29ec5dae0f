/** The untar engine: pieces are routed by layer digest to queues, each drained by a worker task that
    writes to its own tar process; at most `threads` unfinished tasks run, the oldest first.

    `untar` registers a new queue in the table only after its worker has been started, so the worker may
    already be done by then; the model keeps the two moments apart. */
module Untar {
  import opened Base
  import opened Segments

  datatype Status = Running | Done | Failed

  datatype Task = Task(layer: string, image: string, queue: seq<Piece>, written: Bytes, status: Status)

  datatype Report = Report(layer: string, image: string, success: bool)

  /** `adding` is the task whose queue still has to be entered into the table; `given` is everything
      the engine has been handed. */
  datatype Engine = Engine(
    threads: nat,
    tasks: seq<Task>,
    table: map<string, nat>,
    adding: Option<nat>,
    reports: seq<Report>,
    given: seq<Piece>)

  datatype Event = EEmplace | EWork(id: nat, status: int)

  /** untar: append to the layer's queue, or start a task for it. */
  function Give(u: Engine, p: Piece): Outcome<Engine> {
    var v := u.(given := u.given + [p]);
    if u.adding.Some? then Crash
    else if p.layer in u.table then
      var id := u.table[p.layer];
      if id >= |u.tasks| then Crash
      else Ok(v.(tasks := u.tasks[id := u.tasks[id].(queue := u.tasks[id].queue + [p])]))
    else Ok(v.(tasks := u.tasks + [Task(p.layer, p.image, [p], [], Running)], adding := Some(|u.tasks|)))
  }

  function Unfinished(tasks: seq<Task>): nat {
    if tasks == [] then 0
    else (if tasks[0].status == Running then 1 else 0) + Unfinished(tasks[1..])
  }

  predicate Enabled(u: Engine, e: Event) {
    match e
    case EEmplace => u.adding.Some?
    case EWork(id, _) =>
      && id < |u.tasks| && u.tasks[id].status == Running && u.tasks[id].queue != []
      && Unfinished(u.tasks[..id]) < u.threads
  }

  /** One round of untar_task: dequeue, write, and finish on an empty segment or on the last index;
      `status` is what closing the tar process returns. */
  function Round(t: Task): Task
    requires t.queue != []
  {
    var p := t.queue[0];
    t.(queue := t.queue[1..], written := t.written + p.bytes,
       status := if p.bytes == [] then Failed else if p.index == p.total - 1 then Done else Running)
  }

  function Apply(u: Engine, e: Event): Outcome<Engine>
    requires Enabled(u, e)
  {
    match e
    case EEmplace =>
      if u.adding.value >= |u.tasks| then Crash
      else
        var l := u.tasks[u.adding.value].layer;
        Ok(u.(adding := None, table := if l in u.table then u.table else u.table[l := u.adding.value]))
    case EWork(id, status) =>
      var t := Round(u.tasks[id]);
      Ok(u.(tasks := u.tasks[id := t],
            table := if t.status == Done then u.table - {t.layer} else u.table,
            reports := if t.status == Running then u.reports
                       else u.reports + [Report(t.layer, t.image, t.status == Done && status == 0)]))
  }

  ghost predicate Init(u: Engine) {
    u.threads >= 1 && u.tasks == [] && u.table == map[] && u.adding == None && u.reports == [] && u.given == []
  }

  // ---------------------------------------------------------------- invariant

  function Concat(ps: seq<Piece>): Bytes {
    if ps == [] then [] else ps[0].bytes + Concat(ps[1..])
  }

  lemma {:induction false} ConcatCat(a: seq<Piece>, b: seq<Piece>)
    ensures Concat(a + b) == Concat(a) + Concat(b)
  {
    if a == [] {
      assert a + b == b;
    } else {
      assert (a + b)[1..] == a[1..] + b;
      ConcatCat(a[1..], b);
    }
  }

  /** What is to be untarred: for every layer its pieces, numbered and labelled. */
  type Plan = map<string, seq<Piece>>

  ghost predicate GoodPlan(plan: Plan) {
    forall l :: l in plan ==>
      plan[l] != [] &&
      forall i :: 0 <= i < |plan[l]| ==> plan[l][i].index == i && plan[l][i].total == |plan[l]|
  }

  /** The pieces handed over respect the plan, layer by layer. */
  ghost predicate Follows(given: seq<Piece>, plan: Plan) {
    forall l :: if l in plan then Of(l, given) <= plan[l] else Of(l, given) == []
  }

  /** A task has written the first k pieces of its layer that were handed over; the others wait. */
  ghost predicate TaskOk(t: Task, got: seq<Piece>, plan: Plan) {
    && t.layer in plan && got != [] && |t.queue| <= |got|
    && var k := |got| - |t.queue|;
      && t.queue == got[k..]
      && t.written == Concat(got[..k])
      && (t.status == Running ==> k < |plan[t.layer]| && forall i :: 0 <= i < k ==> got[i].bytes != [])
      && (t.status == Done ==> k == |plan[t.layer]|)
      && (t.status == Failed ==> exists i :: 0 <= i < |got| && got[i].bytes == [])
  }

  ghost predicate TasksOk(tasks: seq<Task>, given: seq<Piece>, plan: Plan) {
    forall i :: 0 <= i < |tasks| ==> TaskOk(tasks[i], Of(tasks[i].layer, given), plan)
  }

  ghost predicate HasTask(tasks: seq<Task>, l: string) {
    exists i :: 0 <= i < |tasks| && tasks[i].layer == l
  }

  /** One task for every layer that has been handed over, and no other. */
  ghost predicate OnePerLayer(tasks: seq<Task>, given: seq<Piece>) {
    && (forall i, j :: 0 <= i < j < |tasks| ==> tasks[i].layer != tasks[j].layer)
    && (forall l :: Of(l, given) != [] ==> HasTask(tasks, l))
  }

  ghost predicate Tasks(u: Engine, plan: Plan) {
    TasksOk(u.tasks, u.given, plan) && OnePerLayer(u.tasks, u.given)
  }

  ghost predicate Table(u: Engine) {
    && (forall l :: l in u.table ==> u.table[l] < |u.tasks| && u.tasks[u.table[l]].layer == l)
    && (u.adding.Some? ==> u.adding.value < |u.tasks|)
    && (forall i :: 0 <= i < |u.tasks| && u.tasks[i].status != Done ==>
          u.adding == Some(i) || u.tasks[i].layer in u.table)
  }

  ghost predicate Inv(u: Engine, plan: Plan) {
    && u.threads >= 1 && GoodPlan(plan) && Follows(u.given, plan)
    && Tasks(u, plan) && Table(u) && Reported(u.reports, u.tasks)
  }

  function ReportsFor(rs: seq<Report>, l: string): nat {
    if rs == [] then 0 else (if rs[0].layer == l then 1 else 0) + ReportsFor(rs[1..], l)
  }

  function FinishedFor(ts: seq<Task>, l: string): nat {
    if ts == [] then 0 else (if ts[0].layer == l && ts[0].status != Running then 1 else 0) + FinishedFor(ts[1..], l)
  }

  /** One report for each finished task. */
  ghost predicate Reported(reports: seq<Report>, tasks: seq<Task>) {
    forall l :: ReportsFor(reports, l) == FinishedFor(tasks, l)
  }

  lemma SameLayers(tasks: seq<Task>, id: nat, t: Task, given: seq<Piece>)
    requires OnePerLayer(tasks, given) && id < |tasks| && t.layer == tasks[id].layer
    ensures OnePerLayer(tasks[id := t], given)
  {
    forall l | Of(l, given) != []
      ensures HasTask(tasks[id := t], l)
    {
      assert HasTask(tasks, l);
      var i :| 0 <= i < |tasks| && tasks[i].layer == l;
      assert tasks[id := t][i].layer == l;
    }
  }

  function Queued(ts: seq<Task>): nat {
    if ts == [] then 0 else |ts[0].queue| + Queued(ts[1..])
  }

  function Work(u: Engine): nat {
    Queued(u.tasks) + if u.adding.Some? then 1 else 0
  }

  // ---------------------------------------------------------------- one task changes

  lemma {:induction false} QueuedUpdate(ts: seq<Task>, id: nat, t: Task)
    requires id < |ts|
    ensures Queued(ts[id := t]) == Queued(ts) - |ts[id].queue| + |t.queue|
  {
    if id > 0 {
      assert ts[id := t][1..] == ts[1..][id - 1 := t];
      QueuedUpdate(ts[1..], id - 1, t);
    } else {
      assert ts[id := t][1..] == ts[1..];
    }
  }

  lemma {:induction false} QueuedAppend(ts: seq<Task>, t: Task)
    ensures Queued(ts + [t]) == Queued(ts) + |t.queue|
  {
    if ts == [] {
      assert ts + [t] == [t];
    } else {
      assert (ts + [t])[1..] == ts[1..] + [t];
      QueuedAppend(ts[1..], t);
    }
  }

  lemma {:induction false} FinishedUpdate(ts: seq<Task>, id: nat, t: Task, l: string)
    requires id < |ts| && ts[id].status == Running && ts[id].layer == t.layer
    ensures FinishedFor(ts[id := t], l) == FinishedFor(ts, l) + (if t.layer == l && t.status != Running then 1 else 0)
  {
    if id > 0 {
      assert ts[id := t][1..] == ts[1..][id - 1 := t];
      FinishedUpdate(ts[1..], id - 1, t, l);
    } else {
      assert ts[id := t][1..] == ts[1..];
    }
  }

  lemma {:induction false} FinishedSame(ts: seq<Task>, id: nat, t: Task, l: string)
    requires id < |ts| && ts[id].status == t.status && ts[id].layer == t.layer
    ensures FinishedFor(ts[id := t], l) == FinishedFor(ts, l)
  {
    if id > 0 {
      assert ts[id := t][1..] == ts[1..][id - 1 := t];
      FinishedSame(ts[1..], id - 1, t, l);
    } else {
      assert ts[id := t][1..] == ts[1..];
    }
  }

  lemma {:induction false} FinishedAppend(ts: seq<Task>, t: Task, l: string)
    requires t.status == Running
    ensures FinishedFor(ts + [t], l) == FinishedFor(ts, l)
  {
    if ts == [] {
      assert ts + [t] == [t];
    } else {
      assert (ts + [t])[1..] == ts[1..] + [t];
      FinishedAppend(ts[1..], t, l);
    }
  }

  lemma {:induction false} ReportsAppend(rs: seq<Report>, r: Report, l: string)
    ensures ReportsFor(rs + [r], l) == ReportsFor(rs, l) + if r.layer == l then 1 else 0
  {
    if rs == [] {
      assert rs + [r] == [r];
    } else {
      assert (rs + [r])[1..] == rs[1..] + [r];
      ReportsAppend(rs[1..], r, l);
    }
  }

  // ---------------------------------------------------------------- preservation

  lemma InitInv(u: Engine, plan: Plan)
    requires Init(u) && GoodPlan(plan)
    ensures Inv(u, plan)
  {
  }

  /** A larger plan does no harm. */
  lemma FollowsMore(given: seq<Piece>, plan: Plan, more: Plan)
    requires Follows(given, plan) && forall l :: l in plan ==> l in more && more[l] == plan[l]
    ensures Follows(given, more)
  {
    hide Of;
    forall l
      ensures if l in more then Of(l, given) <= more[l] else Of(l, given) == []
    {
      assert if l in plan then Of(l, given) <= plan[l] else Of(l, given) == [];
    }
  }

  lemma TasksMore(tasks: seq<Task>, given: seq<Piece>, plan: Plan, more: Plan)
    requires TasksOk(tasks, given, plan) && forall l :: l in plan ==> l in more && more[l] == plan[l]
    ensures TasksOk(tasks, given, more)
  {
    hide Of, Concat;
  }

  /** New layers may be asked for at any time. */
  lemma PlanGrows(u: Engine, plan: Plan, more: Plan)
    requires Inv(u, plan) && GoodPlan(more)
    requires forall l :: l in plan ==> l in more && more[l] == plan[l]
    ensures Inv(u, more)
  {
    FollowsMore(u.given, plan, more);
    TasksMore(u.tasks, u.given, plan, more);
    hide Follows, TasksOk, OnePerLayer, Table, Reported, GoodPlan;
  }

  lemma WorkTask(t: Task, got: seq<Piece>, plan: Plan)
    requires GoodPlan(plan) && t.layer in plan && got <= plan[t.layer]
    requires TaskOk(t, got, plan) && t.status == Running && t.queue != []
    ensures TaskOk(Round(t), got, plan)
  {
    var k := |got| - |t.queue|;
    assert t.queue[0] == got[k] == plan[t.layer][k];
    assert got[..k + 1] == got[..k] + [got[k]];
    ConcatCat(got[..k], [got[k]]);
    assert Concat([got[k]]) == got[k].bytes;
  }

  lemma WorkKeepsTasks(u: Engine, plan: Plan, id: nat)
    requires GoodPlan(plan) && Follows(u.given, plan) && Tasks(u, plan)
    requires id < |u.tasks| && u.tasks[id].status == Running && u.tasks[id].queue != []
    ensures Tasks(u.(tasks := u.tasks[id := Round(u.tasks[id])]), plan)
  {
    var t := u.tasks[id];
    SameLayers(u.tasks, id, Round(t), u.given);
    assert TaskOk(t, Of(t.layer, u.given), plan);
    assert Of(t.layer, u.given) <= plan[t.layer];
    WorkTask(t, Of(t.layer, u.given), plan);
    hide TaskOk, OnePerLayer;
  }

  lemma WorkReported(u: Engine, id: nat, r: Report)
    requires Reported(u.reports, u.tasks) && id < |u.tasks| && u.tasks[id].status == Running && u.tasks[id].queue != []
    requires r.layer == u.tasks[id].layer
    ensures var t := Round(u.tasks[id]);
      Reported(if t.status == Running then u.reports else u.reports + [r], u.tasks[id := t])
  {
    var t := Round(u.tasks[id]);
    var rs := if t.status == Running then u.reports else u.reports + [r];
    forall l
      ensures ReportsFor(rs, l) == FinishedFor(u.tasks[id := t], l)
    {
      FinishedUpdate(u.tasks, id, t, l);
      ReportsAppend(u.reports, r, l);
    }
  }

  lemma WorkTable(u: Engine, e: Event)
    requires Table(u) && e.EWork? && Enabled(u, e) && OnePerLayer(u.tasks, u.given)
    ensures Apply(u, e).Ok? && Table(Apply(u, e).value)
  {
  }

  lemma WorkKeeps(u: Engine, plan: Plan, e: Event)
    requires Inv(u, plan) && e.EWork? && Enabled(u, e)
    ensures Apply(u, e).Ok? && Inv(Apply(u, e).value, plan) && Work(Apply(u, e).value) < Work(u)
  {
    hide TasksOk, OnePerLayer, GoodPlan, Follows, Table, Reported;
    var t := Round(u.tasks[e.id]);
    WorkKeepsTasks(u, plan, e.id);
    WorkReported(u, e.id, Report(t.layer, t.image, t.status == Done && e.status == 0));
    QueuedUpdate(u.tasks, e.id, t);
    WorkTable(u, e);
  }

  lemma EmplaceKeeps(u: Engine, plan: Plan)
    requires Inv(u, plan) && Enabled(u, EEmplace)
    ensures Apply(u, EEmplace).Ok? && Inv(Apply(u, EEmplace).value, plan)
    ensures Work(Apply(u, EEmplace).value) < Work(u)
  {
    hide TasksOk, OnePerLayer, GoodPlan, Follows;
  }

  lemma GiveTable(u: Engine, p: Piece)
    requires Table(u) && u.adding.None?
    ensures Give(u, p).Ok? && Table(Give(u, p).value)
  {
  }

  lemma GiveReported(u: Engine, p: Piece)
    requires Reported(u.reports, u.tasks) && Give(u, p).Ok? && Table(u)
    ensures Reported(Give(u, p).value.reports, Give(u, p).value.tasks) && Work(Give(u, p).value) <= Work(u) + 2
  {
    var v := Give(u, p).value;
    if p.layer in u.table {
      var id := u.table[p.layer];
      QueuedUpdate(u.tasks, id, v.tasks[id]);
      forall k
        ensures ReportsFor(v.reports, k) == FinishedFor(v.tasks, k)
      {
        FinishedSame(u.tasks, id, v.tasks[id], k);
      }
    } else {
      QueuedAppend(u.tasks, v.tasks[|u.tasks|]);
      forall k
        ensures ReportsFor(v.reports, k) == FinishedFor(v.tasks, k)
      {
        FinishedAppend(u.tasks, v.tasks[|u.tasks|], k);
      }
    }
  }

  /** A piece that continues its layer reaches the task of that layer, or starts it. */
  lemma GiveKeeps(u: Engine, plan: Plan, p: Piece)
    requires Inv(u, plan) && u.adding.None?
    requires p.layer in plan && Of(p.layer, u.given) + [p] <= plan[p.layer]
    ensures Give(u, p).Ok? && Inv(Give(u, p).value, plan) && Work(Give(u, p).value) <= Work(u) + 2
    ensures Give(u, p).value.given == u.given + [p]
  {
    GiveFollows(u, plan, p);
    if p.layer in u.table {
      GiveOldTasks(u, plan, p, u.table[p.layer]);
    } else {
      GiveNewTasks(u, plan, p);
    }
    GiveReported(u, p);
    GiveTable(u, p);
    hide TasksOk, OnePerLayer, GoodPlan, Follows, Reported, Work, Table;
  }

  lemma GiveOf(given: seq<Piece>, p: Piece, l: string)
    ensures Of(l, given + [p]) == if l == p.layer then Of(l, given) + [p] else Of(l, given)
  {
    OfCat(l, given, [p]);
    OfOne(l, [p], p.layer);
  }

  lemma GiveFollows(u: Engine, plan: Plan, p: Piece)
    requires Follows(u.given, plan) && p.layer in plan && Of(p.layer, u.given) + [p] <= plan[p.layer]
    ensures Follows(u.given + [p], plan)
  {
    forall l
      ensures if l in plan then Of(l, u.given + [p]) <= plan[l] else Of(l, u.given + [p]) == []
    {
      GiveOf(u.given, p, l);
      assert if l in plan then Of(l, u.given) <= plan[l] else Of(l, u.given) == [];
    }
  }

  lemma GrownTask(t: Task, got: seq<Piece>, p: Piece, plan: Plan)
    requires TaskOk(t, got, plan) && got + [p] <= plan[t.layer]
    ensures TaskOk(t.(queue := t.queue + [p]), got + [p], plan)
  {
    var k := |got| - |t.queue|;
    assert (got + [p])[k..] == got[k..] + [p];
    assert (got + [p])[..k] == got[..k];
    if t.status == Failed {
      var i :| 0 <= i < |got| && got[i].bytes == [];
      assert (got + [p])[i].bytes == [];
    }
  }

  lemma GiveLayers(tasks: seq<Task>, given: seq<Piece>, p: Piece)
    requires OnePerLayer(tasks, given) && HasTask(tasks, p.layer)
    ensures OnePerLayer(tasks, given + [p])
  {
    forall l | Of(l, given + [p]) != []
      ensures HasTask(tasks, l)
    {
      GiveOf(given, p, l);
    }
  }

  lemma GiveOldTasks(u: Engine, plan: Plan, p: Piece, id: nat)
    requires Tasks(u, plan) && p.layer in plan && Of(p.layer, u.given) + [p] <= plan[p.layer]
    requires id < |u.tasks| && u.tasks[id].layer == p.layer
    ensures var t := u.tasks[id];
      Tasks(u.(given := u.given + [p], tasks := u.tasks[id := t.(queue := t.queue + [p])]), plan)
  {
    var t := u.tasks[id];
    var tasks := u.tasks[id := t.(queue := t.queue + [p])];
    SameLayers(u.tasks, id, tasks[id], u.given);
    assert HasTask(tasks, p.layer) by {
      assert tasks[id].layer == p.layer;
    }
    GiveLayers(tasks, u.given, p);
    assert TaskOk(t, Of(p.layer, u.given), plan);
    GrownTask(t, Of(p.layer, u.given), p, plan);
    forall i | 0 <= i < |tasks|
      ensures TaskOk(tasks[i], Of(tasks[i].layer, u.given + [p]), plan)
    {
      hide TaskOk;
      GiveOf(u.given, p, tasks[i].layer);
      assert TaskOk(u.tasks[i], Of(u.tasks[i].layer, u.given), plan);
    }
  }

  lemma NewLayer(u: Engine, plan: Plan, p: Piece)
    requires Tasks(u, plan) && Table(u) && u.adding.None? && p.layer !in u.table
    requires p.layer in plan && Of(p.layer, u.given) + [p] <= plan[p.layer]
    ensures Of(p.layer, u.given) == []
    ensures forall i :: 0 <= i < |u.tasks| ==> u.tasks[i].layer != p.layer
  {
    forall i | 0 <= i < |u.tasks|
      ensures u.tasks[i].layer != p.layer
    {
      assert TaskOk(u.tasks[i], Of(u.tasks[i].layer, u.given), plan);
    }
  }

  lemma NewLayers(tasks: seq<Task>, given: seq<Piece>, p: Piece, t: Task)
    requires OnePerLayer(tasks, given) && t.layer == p.layer
    requires forall i :: 0 <= i < |tasks| ==> tasks[i].layer != p.layer
    ensures OnePerLayer(tasks + [t], given + [p])
  {
    hide Of;
    forall l | Of(l, given + [p]) != []
      ensures HasTask(tasks + [t], l)
    {
      GiveOf(given, p, l);
      if l == p.layer {
        assert (tasks + [t])[|tasks|].layer == l;
      } else {
        assert HasTask(tasks, l);
        var i :| 0 <= i < |tasks| && tasks[i].layer == l;
        assert (tasks + [t])[i].layer == l;
      }
    }
  }

  lemma GiveNewTasks(u: Engine, plan: Plan, p: Piece)
    requires Tasks(u, plan) && Table(u) && u.adding.None? && p.layer !in u.table
    requires p.layer in plan && Of(p.layer, u.given) + [p] <= plan[p.layer]
    ensures Tasks(u.(given := u.given + [p], tasks := u.tasks + [Task(p.layer, p.image, [p], [], Running)]), plan)
  {
    NewLayer(u, plan, p);
    var t := Task(p.layer, p.image, [p], [], Running);
    var tasks := u.tasks + [t];
    NewLayers(u.tasks, u.given, p, t);
    assert Of(p.layer, u.given) + [p] == [p];
    assert TaskOk(t, [p], plan);
    hide TaskOk, OnePerLayer, Of, Table;
    forall i | 0 <= i < |tasks|
      ensures TaskOk(tasks[i], Of(tasks[i].layer, u.given + [p]), plan)
    {
      GiveOf(u.given, p, tasks[i].layer);
      if i < |u.tasks| {
        assert TaskOk(u.tasks[i], Of(u.tasks[i].layer, u.given), plan);
      }
    }
  }

  // ---------------------------------------------------------------- what has been untarred

  /** The first k pieces of a layer make up a prefix of it. */
  lemma PrefixOfLayer(full: seq<Piece>, got: seq<Piece>, k: nat)
    requires got <= full && k <= |got|
    ensures Concat(got[..k]) <= Concat(full)
    ensures k == |full| ==> Concat(got[..k]) == Concat(full)
  {
    assert full == got[..k] + full[k..];
    ConcatCat(got[..k], full[k..]);
  }

  lemma TaskFacts(u: Engine, plan: Plan, i: nat)
    requires Inv(u, plan) && i < |u.tasks|
    ensures var t := u.tasks[i];
      t.layer in plan && TaskOk(t, Of(t.layer, u.given), plan) && Of(t.layer, u.given) <= plan[t.layer]
  {
    var t := u.tasks[i];
    assert TaskOk(t, Of(t.layer, u.given), plan);
  }

  /** Every task has written a prefix of its layer; a finished one all of it, unless the layer holds
      an empty segment. */
  lemma WrittenIsPrefix(u: Engine, plan: Plan, i: nat)
    requires Inv(u, plan) && i < |u.tasks|
    ensures var t := u.tasks[i];
      && t.layer in plan
      && t.written <= Concat(plan[t.layer])
      && (t.status == Done ==> t.written == Concat(plan[t.layer]))
      && (t.status == Failed ==> exists p :: p in plan[t.layer] && p.bytes == [])
  {
    hide Inv, Concat, Of;
    TaskFacts(u, plan, i);
    var t := u.tasks[i];
    var got := Of(t.layer, u.given);
    PrefixOfLayer(plan[t.layer], got, |got| - |t.queue|);
    if t.status == Failed {
      var j :| 0 <= j < |got| && got[j].bytes == [];
      assert plan[t.layer][j] == got[j];
    }
  }

  lemma {:induction false} FirstUnfinished(ts: seq<Task>, i: nat) returns (f: nat)
    requires i < |ts| && ts[i].status == Running
    ensures f < |ts| && ts[f].status == Running && Unfinished(ts[..f]) == 0
  {
    if ts[0].status == Running {
      f := 0;
    } else {
      f := FirstUnfinished(ts[1..], i - 1);
      assert ts[1..][..f] == ts[..f + 1][1..];
      f := f + 1;
    }
  }

  /** When everything has been handed over, an unfinished task means that some worker can move. */
  lemma SomeWorkerMoves(u: Engine, plan: Plan, i: nat) returns (f: nat)
    requires Inv(u, plan) && i < |u.tasks| && u.tasks[i].status == Running
    requires forall l :: l in plan ==> Of(l, u.given) == plan[l] || Of(l, u.given) == []
    ensures Enabled(u, EWork(f, 0))
  {
    f := FirstUnfinished(u.tasks, i);
    assert TaskOk(u.tasks[f], Of(u.tasks[f].layer, u.given), plan);
  }

  /** A layer is reported exactly once, when its task has finished. */
  lemma ReportedOnce(u: Engine, plan: Plan, i: nat)
    requires Inv(u, plan) && i < |u.tasks|
    ensures ReportsFor(u.reports, u.tasks[i].layer) == if u.tasks[i].status == Running then 0 else 1
  {
    FinishedOnce(u.tasks, i);
  }

  lemma {:induction false} FinishedOnce(ts: seq<Task>, i: nat)
    requires i < |ts| && forall a, b :: 0 <= a < b < |ts| ==> ts[a].layer != ts[b].layer
    ensures FinishedFor(ts, ts[i].layer) == if ts[i].status == Running then 0 else 1
  {
    if i == 0 {
      NoneFor(ts[1..], ts[0].layer);
    } else {
      FinishedOnce(ts[1..], i - 1);
    }
  }

  lemma {:induction false} NoneFor(ts: seq<Task>, l: string)
    requires forall a :: 0 <= a < |ts| ==> ts[a].layer != l
    ensures FinishedFor(ts, l) == 0
  {
    if ts != [] {
      NoneFor(ts[1..], l);
    }
  }

  /** A worker that ends reports its layer and image, and success exactly when it ended on the last segment,
      which was not empty, and tar returned 0; a worker that goes on reports nothing. */
  lemma ReportTells(u: Engine, id: nat, status: int)
    requires Enabled(u, EWork(id, status))
    ensures Apply(u, EWork(id, status)).Ok?
    ensures var v, p, t := Apply(u, EWork(id, status)).value, u.tasks[id].queue[0], u.tasks[id];
      if p.bytes != [] && p.index != p.total - 1 then v.reports == u.reports
      else
        && |v.reports| == |u.reports| + 1 && u.reports <= v.reports
        && Last(v.reports).layer == t.layer && Last(v.reports).image == t.image
        && (Last(v.reports).success <==> p.bytes != [] && status == 0)
  {
  }

  // ---------------------------------------------------------------- the thread limit

  lemma {:induction false} UnfinishedCat(a: seq<Task>, b: seq<Task>)
    ensures Unfinished(a + b) == Unfinished(a) + Unfinished(b)
  {
    if a == [] {
      assert a + b == b;
    } else {
      assert (a + b)[1..] == a[1..] + b;
      UnfinishedCat(a[1..], b);
    }
  }

  lemma {:induction false} RunningBefore(tasks: seq<Task>, ids: seq<nat>, bound: nat)
    requires bound <= |tasks| && forall i :: 0 <= i < |ids| ==> ids[i] < bound && tasks[ids[i]].status == Running
    requires forall i, j :: 0 <= i < j < |ids| ==> ids[i] < ids[j]
    ensures Unfinished(tasks[..bound]) >= |ids|
  {
    if ids != [] {
      var last := Last(ids);
      RunningBefore(tasks, ButLast(ids), last);
      assert tasks[..bound] == tasks[..last] + ([tasks[last]] + tasks[last + 1..bound]);
      UnfinishedCat(tasks[..last], [tasks[last]] + tasks[last + 1..bound]);
      assert ([tasks[last]] + tasks[last + 1..bound])[0] == tasks[last];
    }
  }

  /** At any time at most `threads` workers can move. */
  lemma WithinThreadLimit(u: Engine, ids: seq<nat>)
    requires u.threads >= 1 && forall i :: 0 <= i < |ids| ==> Enabled(u, EWork(ids[i], 0))
    requires forall i, j :: 0 <= i < j < |ids| ==> ids[i] < ids[j]
    ensures |ids| <= u.threads
  {
    if ids != [] {
      RunningBefore(u.tasks, ButLast(ids), Last(ids));
    }
  }
}
