/** The bookkeeping of pulls on the host (src/host/client/offload_client_epoll.cc): pulls wait for the
    connection to the DPU and for a send buffer, are offloaded one request at a time, and are answered when
    the last of their layers has been unpacked. */
module Pulls {
  import opened Base

  type Image = string

  /** `ticket` numbers the pulls in the order of their arrival. */
  datatype Pull = Pull(image: Image, conn: nat, ticket: nat)

  datatype Task = Task(total: nat, untar: nat, pull: Pull)

  datatype Msg = Hello | Offload(image: Image)

  /** `layers` is the metadata that loads: the number of layers of each image.  `leaked` are send buffers
      acquired for a pull whose metadata did not load.  `requests`, `answers` and `left` belong to the
      other side: requests under way, answers under way, and layers still to be unpacked.  `asked`,
      `taken`, `replied` are history. */
  datatype Client = Client(
    k: nat, layers: map<Image, nat>,
    linked: bool, connected: bool, pending: seq<Pull>, tasks: map<Image, Task>,
    free: seq<nat>, inflight: seq<nat>, leaked: seq<nat>,
    requests: seq<Msg>, answers: seq<Msg>, left: multiset<Image>,
    asked: seq<Pull>, taken: seq<Pull>, replied: seq<Pull>)

  function NewClient(k: nat, layers: map<Image, nat>): Client {
    Client(k, layers, false, false, [], map[], Range(0, k), [], [], [], [], multiset{}, [], [], [])
  }

  /** tryOffloadTask with offloadTaskToDpu: the first waiting pull, if there is a buffer for it.  A task
      already recorded for the image stays. */
  function TryOffload(c: Client): Client {
    if c.pending == [] || c.free == [] then c
    else
      var p, id := c.pending[0], c.free[0];
      var d := c.(pending := c.pending[1..], taken := c.taken + [p], free := c.free[1..]);
      if p.image !in c.layers then d.(leaked := c.leaked + [id])
      else d.(tasks := if p.image in c.tasks then c.tasks else c.tasks[p.image := Task(c.layers[p.image], 0, p)],
              inflight := c.inflight + [id], requests := c.requests + [Offload(p.image)])
  }

  function OnPull(c: Client, image: Image, conn: nat): Client {
    var p := Pull(image, conn, |c.asked|);
    var d := c.(pending := c.pending + [p], asked := c.asked + [p]);
    if !c.connected then d else TryOffload(d)
  }

  function OnConnected(c: Client): Outcome<Client> {
    if c.free == [] then Crash
    else Ok(c.(linked := true, free := c.free[1..], inflight := c.inflight + [c.free[0]],
               requests := c.requests + [Hello]))
  }

  /** onRecvSuccess takes the next answer. */
  function OnRecv(c: Client): Outcome<Client>
    requires c.answers != []
  {
    if c.inflight == [] then Crash
    else
      var d := c.(answers := c.answers[1..], inflight := c.inflight[1..], free := c.free + [c.inflight[0]]);
      Ok(TryOffload(if c.answers[0].Hello? then d.(connected := true) else d))
  }

  function Left(left: multiset<Image>, i: Image): nat {
    left[i]
  }

  /** completeTask, with its assertion. */
  function Complete(c: Client, i: Image): Outcome<Client> {
    if i !in c.tasks then Crash
    else
      var t := c.tasks[i];
      if t.untar + 1 == t.total then Ok(c.(tasks := c.tasks - {i}, replied := c.replied + [t.pull]))
      else Ok(c.(tasks := c.tasks[i := t.(untar := t.untar + 1)]))
  }

  datatype Event =
    | EPull(image: Image, conn: nat)
    | ELink                    // the RDMA connection is established
    | EServe                   // the DPU answers the next request and takes its layers on
    | EAnswer                  // an answer reaches the client
    | EUnpacked(image: Image)  // a layer of the image has been unpacked

  predicate Enabled(c: Client, e: Event) {
    match e
    case EPull(_, _) => true
    case ELink => !c.linked
    case EServe => c.requests != []
    case EAnswer => c.answers != []
    case EUnpacked(i) => Left(c.left, i) > 0
  }

  function Serve(c: Client): Client
    requires c.requests != []
  {
    var m := c.requests[0];
    c.(requests := c.requests[1..], answers := c.answers + [m],
       left := if m.Offload? && m.image in c.layers
               then c.left[m.image := Left(c.left, m.image) + c.layers[m.image]] else c.left)
  }

  function Apply(c: Client, e: Event): Outcome<Client>
    requires Enabled(c, e)
  {
    match e
    case EPull(i, conn) => Ok(OnPull(c, i, conn))
    case ELink => OnConnected(c)
    case EServe => Ok(Serve(c))
    case EAnswer => OnRecv(c)
    case EUnpacked(i) => Complete(c.(left := c.left[i := Left(c.left, i) - 1]), i)
  }

  /** The image is not being pulled. */
  predicate Fresh(c: Client, i: Image) {
    i !in c.tasks && forall j :: 0 <= j < |c.pending| ==> c.pending[j].image != i
  }

  // ---------------------------------------------------------------- invariant

  /** The send buffers are free, in flight or leaked, each exactly one of these. */
  ghost predicate Split(k: nat, free: seq<nat>, inflight: seq<nat>, leaked: seq<nat>) {
    forall x: nat :: Count(free, x) + Count(inflight, x) + Count(leaked, x) == if x < k then 1 else 0
  }

  ghost predicate Window(linked: bool, connected: bool, inflight: seq<nat>, requests: seq<Msg>, answers: seq<Msg>) {
    && |inflight| == |requests| + |answers|
    && (!linked ==> !connected && inflight == [])
    && (linked && !connected ==> answers + requests == [Hello])
    && (connected ==> Hello !in requests && Hello !in answers)
  }

  ghost predicate InOrder(asked: seq<Pull>, taken: seq<Pull>, pending: seq<Pull>) {
    asked == taken + pending && forall t :: 0 <= t < |asked| ==> asked[t].ticket == t
  }

  ghost predicate Distinct(pending: seq<Pull>, tasks: map<Image, Task>) {
    && (forall i, j :: 0 <= i < j < |pending| ==> pending[i].image != pending[j].image)
    && (forall i :: 0 <= i < |pending| ==> pending[i].image !in tasks)
  }

  /** What the other side still has to do for each task. */
  ghost predicate Owed(layers: map<Image, nat>, tasks: map<Image, Task>, requests: seq<Msg>, left: multiset<Image>) {
    && (forall i :: Left(left, i) > 0 ==> i in tasks)
    && (forall i :: i in tasks ==>
          i in layers && tasks[i].total == layers[i] &&
          tasks[i].untar + Left(left, i) == if Offload(i) in requests then 0 else tasks[i].total)
    && (forall i :: Offload(i) in requests ==> i in tasks)
    && (forall a, b :: 0 <= a < b < |requests| ==> requests[a] != requests[b])
  }

  /** Every pull taken is answered or recorded, unless its metadata did not load. */
  ghost predicate Ledger(layers: map<Image, nat>, taken: seq<Pull>, tasks: map<Image, Task>, replied: seq<Pull>) {
    && (forall i :: i in tasks ==> tasks[i].pull in taken && tasks[i].pull.image == i && tasks[i].pull !in replied)
    && (forall p :: p in replied ==> p in taken && p.image in layers && layers[p.image] > 0)
    && (forall p :: p in taken && p.image in layers ==>
          p in replied || (p.image in tasks && tasks[p.image].pull == p))
    && (forall a, b :: 0 <= a < b < |replied| ==> replied[a] != replied[b])
  }

  /** A task with layers is not finished. */
  ghost predicate Unfinished(tasks: map<Image, Task>) {
    forall i :: i in tasks ==> tasks[i].total == 0 || tasks[i].untar < tasks[i].total
  }

  ghost predicate Core(c: Client) {
    && c.k >= 1
    && Split(c.k, c.free, c.inflight, c.leaked)
    && Window(c.linked, c.connected, c.inflight, c.requests, c.answers)
    && InOrder(c.asked, c.taken, c.pending)
    && Distinct(c.pending, c.tasks)
    && Owed(c.layers, c.tasks, c.requests, c.left)
    && Ledger(c.layers, c.taken, c.tasks, c.replied)
    && Unfinished(c.tasks)
    && (!c.connected ==> c.leaked == [])
  }

  /** As long as every metadata load has succeeded, waiting pulls mean that an answer is on its way. */
  ghost predicate Moving(connected: bool, pending: seq<Pull>, inflight: seq<nat>, leaked: seq<nat>) {
    connected && pending != [] && leaked == [] ==> inflight != []
  }

  ghost predicate Inv(c: Client) {
    Core(c) && Moving(c.connected, c.pending, c.inflight, c.leaked)
  }

  // ---------------------------------------------------------------- preservation

  lemma NewInv(k: nat, layers: map<Image, nat>)
    requires k >= 1
    ensures Inv(NewClient(k, layers))
  {
    forall x: nat ensures Count(Range(0, k), x) + Count([], x) + Count([], x) == if x < k then 1 else 0 {
      CountRange(k, x);
    }
  }

  lemma Move(k: nat, from: seq<nat>, to: seq<nat>, rest: seq<nat>)
    requires from != [] && forall x: nat :: Count(from, x) + Count(to, x) + Count(rest, x) == if x < k then 1 else 0
    ensures forall x: nat :: Count(from[1..], x) + Count(to + [from[0]], x) + Count(rest, x) == if x < k then 1 else 0
  {
    forall x: nat ensures Count(from[1..], x) + Count(to + [from[0]], x) == Count(from, x) + Count(to, x) {
      assert from == [from[0]] + from[1..];
      CountCat([from[0]], from[1..], x);
      CountCat(to, [from[0]], x);
    }
  }

  lemma SplitSome(k: nat, free: seq<nat>, inflight: seq<nat>, leaked: seq<nat>)
    requires Split(k, free, inflight, leaked) && k >= 1 && free == [] && leaked == []
    ensures inflight != []
  {
    assert Count(free, 0) == 0 && Count(leaked, 0) == 0;
    CountIn(inflight, 0);
  }

  lemma TakeOrder(asked: seq<Pull>, taken: seq<Pull>, pending: seq<Pull>)
    requires InOrder(asked, taken, pending) && pending != []
    ensures InOrder(asked, taken + [pending[0]], pending[1..]) && pending[0] !in taken
  {
    assert pending == [pending[0]] + pending[1..];
    assert asked[|taken|] == pending[0];
    assert forall t :: 0 <= t < |taken| ==> asked[t] == taken[t];
  }

  lemma TakeOwed(layers: map<Image, nat>, tasks: map<Image, Task>, requests: seq<Msg>, left: multiset<Image>, p: Pull)
    requires Owed(layers, tasks, requests, left) && p.image !in tasks && p.image in layers
    ensures Owed(layers, tasks[p.image := Task(layers[p.image], 0, p)], requests + [Offload(p.image)], left)
  {
    assert Left(left, p.image) == 0;
  }

  lemma TakeLedger(layers: map<Image, nat>, taken: seq<Pull>, tasks: map<Image, Task>, replied: seq<Pull>, p: Pull)
    requires Ledger(layers, taken, tasks, replied) && p !in taken && p.image !in tasks
    ensures p.image in layers ==>
      Ledger(layers, taken + [p], tasks[p.image := Task(layers[p.image], 0, p)], replied)
    ensures p.image !in layers ==> Ledger(layers, taken + [p], tasks, replied)
  {
  }

  lemma TakeDistinct(pending: seq<Pull>, tasks: map<Image, Task>, t: Task)
    requires Distinct(pending, tasks) && pending != []
    ensures Distinct(pending[1..], tasks[pending[0].image := t]) && Distinct(pending[1..], tasks)
  {
  }

  /** A load that succeeds. */
  lemma TryLoaded(c: Client)
    requires Core(c) && c.connected && c.pending != [] && c.free != [] && c.pending[0].image in c.layers
    ensures Inv(TryOffload(c))
  {
    var p := c.pending[0];
    assert p.image !in c.tasks;
    var t := Task(c.layers[p.image], 0, p);
    TakeOrder(c.asked, c.taken, c.pending);
    TakeOwed(c.layers, c.tasks, c.requests, c.left, p);
    TakeLedger(c.layers, c.taken, c.tasks, c.replied, p);
    TakeDistinct(c.pending, c.tasks, t);
    Move(c.k, c.free, c.inflight, c.leaked);
    assert c.linked && Hello !in c.requests + [Offload(p.image)];
    hide InOrder, Owed, Ledger, Distinct;
  }

  lemma TryFailed(c: Client)
    requires Core(c) && c.connected && c.pending != [] && c.free != [] && c.pending[0].image !in c.layers
    ensures Inv(TryOffload(c))
  {
    var p := c.pending[0];
    TakeOrder(c.asked, c.taken, c.pending);
    TakeLedger(c.layers, c.taken, c.tasks, c.replied, p);
    TakeDistinct(c.pending, c.tasks, Task(0, 0, p));
    assert p.image !in c.tasks;
    Move(c.k, c.free, c.leaked, c.inflight);
    hide InOrder, Owed, Ledger, Distinct, Window;
  }

  lemma TryKeeps(c: Client)
    requires Core(c) && c.connected
    ensures Inv(TryOffload(c))
  {
    if c.pending == [] {
    } else if c.free == [] {
      if c.leaked == [] {
        SplitSome(c.k, c.free, c.inflight, c.leaked);
      }
    } else if c.pending[0].image in c.layers {
      TryLoaded(c);
    } else {
      TryFailed(c);
    }
  }

  lemma PullOrder(asked: seq<Pull>, taken: seq<Pull>, pending: seq<Pull>, p: Pull)
    requires InOrder(asked, taken, pending) && p.ticket == |asked|
    ensures InOrder(asked + [p], taken, pending + [p])
  {
    assert (taken + pending) + [p] == taken + (pending + [p]);
  }

  lemma PullKeeps(c: Client, i: Image, conn: nat)
    requires Inv(c) && Fresh(c, i)
    ensures Inv(OnPull(c, i, conn))
  {
    var p := Pull(i, conn, |c.asked|);
    PullOrder(c.asked, c.taken, c.pending, p);
    assert Distinct(c.pending + [p], c.tasks);
    var d := c.(pending := c.pending + [p], asked := c.asked + [p]);
    hide Split, Window, InOrder, Distinct, Owed, Ledger, TryOffload;
    assert Core(d);
    if c.connected {
      TryKeeps(d);
    }
  }

  lemma LinkKeeps(c: Client)
    requires Inv(c) && !c.linked
    ensures OnConnected(c).Ok? && Inv(OnConnected(c).value)
  {
    assert c.connected == false && c.inflight == [] && c.requests == [] && c.answers == [];
    FreeToLink(c);
    Move(c.k, c.free, c.inflight, c.leaked);
    LinkOwed(c.layers, c.tasks, c.left);
    hide Owed, Ledger, Distinct, InOrder;
  }

  lemma LinkOwed(layers: map<Image, nat>, tasks: map<Image, Task>, left: multiset<Image>)
    requires Owed(layers, tasks, [], left)
    ensures Owed(layers, tasks, [] + [Hello], left)
  {
  }

  lemma FreeToLink(c: Client)
    requires Inv(c) && !c.linked
    ensures c.free != []
  {
    assert Count(c.inflight, 0) == 0 && Count(c.leaked, 0) == 0;
    CountIn(c.free, 0);
  }

  lemma ServeOwed(layers: map<Image, nat>, tasks: map<Image, Task>, requests: seq<Msg>, left: multiset<Image>)
    requires Owed(layers, tasks, requests, left) && requests != []
    ensures requests[0].Hello? ==> Owed(layers, tasks, requests[1..], left)
    ensures requests[0].Offload? ==>
      requests[0].image in layers &&
      Owed(layers, tasks, requests[1..],
           left[requests[0].image := Left(left, requests[0].image) + layers[requests[0].image]])
  {
    assert requests == [requests[0]] + requests[1..];
    assert requests[0] !in requests[1..];
    if requests[0].Offload? {
      assert Offload(requests[0].image) in requests;
    }
  }

  lemma ServeWindow(linked: bool, connected: bool, inflight: seq<nat>, requests: seq<Msg>, answers: seq<Msg>)
    requires Window(linked, connected, inflight, requests, answers) && requests != []
    ensures Window(linked, connected, inflight, requests[1..], answers + [requests[0]])
  {
    assert (answers + [requests[0]]) + requests[1..] == answers + requests;
    assert requests[0] in requests;
  }

  lemma ServeKeeps(c: Client)
    requires Inv(c) && c.requests != []
    ensures Inv(Serve(c))
  {
    ServeOwed(c.layers, c.tasks, c.requests, c.left);
    ServeWindow(c.linked, c.connected, c.inflight, c.requests, c.answers);
    hide Owed, Window, Ledger, Distinct, InOrder, Split, Left;
  }

  lemma AnswerWindow(linked: bool, connected: bool, inflight: seq<nat>, requests: seq<Msg>, answers: seq<Msg>)
    requires Window(linked, connected, inflight, requests, answers) && answers != []
    ensures inflight != [] && linked && (answers[0].Hello? || connected)
    ensures Window(linked, true, inflight[1..], requests, answers[1..])
  {
    assert answers[0] in answers;
    if !connected {
      assert (answers + requests)[0] == answers[0] == Hello;
      assert |answers| == 1 && requests == [];
    }
  }

  /** An answer frees the buffer of its request, and the next pull goes out. */
  lemma AnswerKeeps(c: Client)
    requires Inv(c) && c.answers != []
    ensures OnRecv(c).Ok? && Inv(OnRecv(c).value)
  {
    AnswerWindow(c.linked, c.connected, c.inflight, c.requests, c.answers);
    Move(c.k, c.inflight, c.free, c.leaked);
    var d := c.(answers := c.answers[1..], inflight := c.inflight[1..], free := c.free + [c.inflight[0]],
                connected := true);
    hide Owed, Window, Ledger, Distinct, InOrder, TryOffload;
    assert Core(d);
    TryKeeps(d);
  }

  lemma DoneLedger(layers: map<Image, nat>, taken: seq<Pull>, tasks: map<Image, Task>, replied: seq<Pull>, i: Image)
    requires Ledger(layers, taken, tasks, replied) && i in tasks && i in layers && layers[i] > 0
    ensures Ledger(layers, taken, tasks - {i}, replied + [tasks[i].pull])
  {
  }

  lemma NextLedger(
      layers: map<Image, nat>, taken: seq<Pull>, tasks: map<Image, Task>, replied: seq<Pull>, i: Image, n: nat)
    requires Ledger(layers, taken, tasks, replied) && i in tasks
    ensures Ledger(layers, taken, tasks[i := tasks[i].(untar := n)], replied)
  {
  }

  lemma UnpackOwed(
      layers: map<Image, nat>, tasks: map<Image, Task>, requests: seq<Msg>, left: multiset<Image>, i: Image)
    requires Owed(layers, tasks, requests, left) && Left(left, i) > 0
    ensures i in tasks && i in layers && tasks[i].untar + Left(left, i) == tasks[i].total == layers[i]
    ensures tasks[i].untar + 1 == tasks[i].total ==> Owed(layers, tasks - {i}, requests, left[i := Left(left, i) - 1])
    ensures Owed(layers, tasks[i := tasks[i].(untar := tasks[i].untar + 1)], requests, left[i := Left(left, i) - 1])
  {
  }

  lemma UnpackLast(c: Client, i: Image)
    requires Inv(c) && Left(c.left, i) > 0 && i in c.tasks && c.tasks[i].untar + 1 == c.tasks[i].total
    ensures Apply(c, EUnpacked(i)).Ok? && Inv(Apply(c, EUnpacked(i)).value)
  {
    hide Owed, Window, Ledger, InOrder, Split, Distinct, Unfinished, Moving;
    UnpackOwed(c.layers, c.tasks, c.requests, c.left, i);
    hide Left;
    DoneLedger(c.layers, c.taken, c.tasks, c.replied, i);
    UnpackTasks(c.pending, c.tasks, i);
  }

  lemma UnpackNext(c: Client, i: Image)
    requires Inv(c) && Left(c.left, i) > 0 && i in c.tasks && c.tasks[i].untar + 1 != c.tasks[i].total
    ensures Apply(c, EUnpacked(i)).Ok? && Inv(Apply(c, EUnpacked(i)).value)
  {
    hide Owed, Window, Ledger, InOrder, Split, Distinct, Unfinished, Moving;
    UnpackOwed(c.layers, c.tasks, c.requests, c.left, i);
    hide Left;
    NextLedger(c.layers, c.taken, c.tasks, c.replied, i, c.tasks[i].untar + 1);
    UnpackTasks(c.pending, c.tasks, i);
  }

  lemma UnpackKeeps(c: Client, i: Image)
    requires Inv(c) && Left(c.left, i) > 0
    ensures Apply(c, EUnpacked(i)).Ok? && Inv(Apply(c, EUnpacked(i)).value)
  {
    UnpackOwed(c.layers, c.tasks, c.requests, c.left, i);
    hide Inv, Apply;
    if c.tasks[i].untar + 1 == c.tasks[i].total {
      UnpackLast(c, i);
    } else {
      UnpackNext(c, i);
    }
  }

  lemma UnpackTasks(pending: seq<Pull>, tasks: map<Image, Task>, i: Image)
    requires Distinct(pending, tasks) && Unfinished(tasks) && i in tasks && tasks[i].total > 0
    ensures Distinct(pending, tasks - {i}) && Unfinished(tasks - {i})
    ensures var t := tasks[i].(untar := tasks[i].untar + 1);
      Distinct(pending, tasks[i := t]) && (t.untar != t.total ==> Unfinished(tasks[i := t]))
  {
  }

  /** Every step keeps the invariant, if it does not pull an image that is already being pulled. */
  lemma StepKeeps(c: Client, e: Event)
    requires Inv(c) && Enabled(c, e) && (e.EPull? ==> Fresh(c, e.image))
    ensures Apply(c, e).Ok? && Inv(Apply(c, e).value)
  {
    hide Inv;
    match e
    case EPull(i, conn) => PullKeeps(c, i, conn);
    case ELink => LinkKeeps(c);
    case EServe => ServeKeeps(c);
    case EAnswer => AnswerKeeps(c);
    case EUnpacked(i) => UnpackKeeps(c, i);
  }

  // ---------------------------------------------------------------- runs

  predicate Enables(c: Client, es: seq<Event>)
    decreases |es|
  {
    es == [] ||
    (Enabled(c, es[0]) && (es[0].EPull? ==> Fresh(c, es[0].image)) &&
     (Apply(c, es[0]).Ok? ==> Enables(Apply(c, es[0]).value, es[1..])))
  }

  function After(c: Client, es: seq<Event>): Outcome<Client>
    requires Enables(c, es)
    decreases |es|
  {
    if es == [] then Ok(c)
    else
      var r :- Apply(c, es[0]);
      After(r, es[1..])
  }

  lemma {:induction false} RunKeeps(c: Client, es: seq<Event>)
    requires Inv(c) && Enables(c, es)
    ensures After(c, es).Ok? && Inv(After(c, es).value)
    decreases |es|
  {
    if es != [] {
      StepKeeps(c, es[0]);
      hide Inv, Apply, Enabled, Fresh;
      RunKeeps(Apply(c, es[0]).value, es[1..]);
    }
  }

  /** In every run no pull is answered twice, none that was not made, and pulls are taken up in the order
      of their arrival; the send buffers are exactly free, in flight, or lost to a failed load. */
  lemma AnsweredOnceTakenInOrder(k: nat, layers: map<Image, nat>, es: seq<Event>)
    requires k >= 1 && Enables(NewClient(k, layers), es)
    ensures After(NewClient(k, layers), es).Ok?
    ensures var c := After(NewClient(k, layers), es).value;
      && (forall a, b :: 0 <= a < b < |c.replied| ==> c.replied[a] != c.replied[b])
      && (forall p :: p in c.replied ==> p in c.taken)
      && c.asked == c.taken + c.pending
      && (forall x: nat :: Count(c.free, x) + Count(c.inflight, x) + Count(c.leaked, x) == if x < k then 1 else 0)
  {
    NewInv(k, layers);
    RunKeeps(NewClient(k, layers), es);
    LayersStay(NewClient(k, layers), es);
  }

  lemma StepLayers(c: Client, e: Event)
    requires Enabled(c, e) && Apply(c, e).Ok?
    ensures Apply(c, e).value.layers == c.layers && Apply(c, e).value.k == c.k
  {
    if e.EPull? {
      var p := Pull(e.image, e.conn, |c.asked|);
      TryLayers(c.(pending := c.pending + [p], asked := c.asked + [p]));
    } else if e.EAnswer? {
      var d := c.(answers := c.answers[1..], inflight := c.inflight[1..], free := c.free + [c.inflight[0]]);
      TryLayers(if c.answers[0].Hello? then d.(connected := true) else d);
    }
    hide TryOffload;
  }

  lemma TryLayers(c: Client)
    ensures TryOffload(c).layers == c.layers && TryOffload(c).k == c.k
  {
  }

  lemma {:induction false} LayersStay(c: Client, es: seq<Event>)
    requires Enables(c, es)
    ensures After(c, es).Ok? ==> After(c, es).value.layers == c.layers && After(c, es).value.k == c.k
    decreases |es|
  {
    if es != [] && Apply(c, es[0]).Ok? {
      StepLayers(c, es[0]);
      hide Apply, Enabled, Fresh;
      LayersStay(Apply(c, es[0]).value, es[1..]);
    }
  }

  /** A reply goes out exactly in the step that unpacks the last layer owed, to the one who pulled. */
  lemma AnsweredWithLastLayer(c: Client, e: Event)
    requires Inv(c) && Enabled(c, e) && (e.EPull? ==> Fresh(c, e.image)) && Apply(c, e).Ok?
    ensures var d := Apply(c, e).value;
      if e.EUnpacked? && Left(c.left, e.image) == 1
      then
        && e.image in c.tasks && c.tasks[e.image].pull.image == e.image
        && d.replied == c.replied + [c.tasks[e.image].pull]
      else d.replied == c.replied
  {
    if e.EUnpacked? {
      UnpackOwed(c.layers, c.tasks, c.requests, c.left, e.image);
    }
  }

  /** Everything except new pulls. */
  predicate Internal(e: Event) {
    !e.EPull?
  }

  ghost predicate Quiet(c: Client) {
    forall e :: Internal(e) ==> !Enabled(c, e)
  }

  lemma QuietFacts(c: Client)
    requires Inv(c) && Quiet(c)
    ensures c.connected && c.requests == [] && c.answers == [] && forall i :: Left(c.left, i) == 0
  {
    assert !Enabled(c, ELink) && !Enabled(c, EServe) && !Enabled(c, EAnswer);
    forall i ensures Left(c.left, i) == 0 {
      assert !Enabled(c, EUnpacked(i));
    }
    assert !c.connected ==> |c.answers + c.requests| == 0;
  }

  /** When nothing is left to happen and every load succeeded, exactly the pulls of images with layers have
      been answered. */
  lemma QuietMeansAnswered(c: Client)
    requires Inv(c) && Quiet(c) && c.leaked == []
    ensures c.pending == []
    ensures forall p :: p in c.asked ==> (p in c.replied <==> p.image in c.layers && c.layers[p.image] > 0)
  {
    QuietFacts(c);
    assert c.inflight == [];
    assert c.asked == c.taken;
    assert forall i :: i in c.tasks ==> c.tasks[i].untar + Left(c.left, i) == c.tasks[i].total;
    assert forall i :: i in c.tasks ==> c.layers[i] == 0;
  }

  // ---------------------------------------------------------------- every run ends

  /** Steps that a request for the image costs: served, answered, and one for each layer. */
  function Cost(layers: map<Image, nat>, i: Image): nat {
    2 + if i in layers then layers[i] else 0
  }

  function PullCost(layers: map<Image, nat>, ps: seq<Pull>): nat {
    if ps == [] then 0 else Cost(layers, ps[0].image) + PullCost(layers, ps[1..])
  }

  function MsgCost(layers: map<Image, nat>, ms: seq<Msg>): nat {
    if ms == [] then 0 else (if ms[0].Hello? then 2 else Cost(layers, ms[0].image)) + MsgCost(layers, ms[1..])
  }

  function Work(c: Client): nat {
    (if c.linked then 0 else 3) + PullCost(c.layers, c.pending) + MsgCost(c.layers, c.requests) + |c.answers| + |c.left|
  }

  lemma {:induction false} PullCostCat(layers: map<Image, nat>, ps: seq<Pull>, p: Pull)
    ensures PullCost(layers, ps + [p]) == PullCost(layers, ps) + Cost(layers, p.image)
  {
    if ps != [] {
      assert (ps + [p])[1..] == ps[1..] + [p];
      PullCostCat(layers, ps[1..], p);
    }
  }

  lemma {:induction false} MsgCostCat(layers: map<Image, nat>, ms: seq<Msg>, m: Msg)
    ensures MsgCost(layers, ms + [m]) == MsgCost(layers, ms) + if m.Hello? then 2 else Cost(layers, m.image)
  {
    if ms != [] {
      assert (ms + [m])[1..] == ms[1..] + [m];
      MsgCostCat(layers, ms[1..], m);
    }
  }

  lemma TryWorks(c: Client)
    ensures Work(TryOffload(c)) <= Work(c)
  {
    if c.pending != [] && c.free != [] {
      MsgCostCat(c.layers, c.requests, Offload(c.pending[0].image));
    }
  }

  /** Every step but a pull uses up some of the work; a pull adds its cost. */
  lemma StepWorks(c: Client, e: Event)
    requires Enabled(c, e) && Apply(c, e).Ok?
    ensures Internal(e) ==> Work(Apply(c, e).value) < Work(c)
    ensures e.EPull? ==> Work(Apply(c, e).value) <= Work(c) + Cost(c.layers, e.image)
  {
    hide TryOffload, PullCost;
    match e
    case EPull(i, conn) =>
      var p := Pull(i, conn, |c.asked|);
      PullCostCat(c.layers, c.pending, p);
      TryWorks(c.(pending := c.pending + [p], asked := c.asked + [p]));
    case ELink => MsgCostCat(c.layers, c.requests, Hello);
    case EAnswer =>
      var d := c.(answers := c.answers[1..], inflight := c.inflight[1..], free := c.free + [c.inflight[0]]);
      TryWorks(if c.answers[0].Hello? then d.(connected := true) else d);
    case _ =>
  }

  function CountInternal(es: seq<Event>): nat {
    if es == [] then 0 else (if Internal(es[0]) then 1 else 0) + CountInternal(es[1..])
  }

  function TotalCost(layers: map<Image, nat>, es: seq<Event>): nat {
    if es == [] then 0
    else (if es[0].EPull? then Cost(layers, es[0].image) else 0) + TotalCost(layers, es[1..])
  }

  lemma {:induction false} RunWorks(c: Client, es: seq<Event>)
    requires Enables(c, es) && After(c, es).Ok?
    ensures CountInternal(es) + Work(After(c, es).value) <= Work(c) + TotalCost(c.layers, es)
    decreases |es|
  {
    if es != [] {
      StepWorks(c, es[0]);
      StepLayers(c, es[0]);
      var d := Apply(c, es[0]).value;
      hide Apply, Enabled, Fresh, Work;
      RunWorks(d, es[1..]);
    }
  }

  /** A run takes at most three internal steps, and for every pull two and one per layer; one that cannot
      go on, with no failed load, has answered exactly the pulls of images with layers. */
  lemma EveryMaximalRunAnswers(k: nat, layers: map<Image, nat>, es: seq<Event>)
    requires k >= 1 && Enables(NewClient(k, layers), es)
    ensures After(NewClient(k, layers), es).Ok? && CountInternal(es) <= 3 + TotalCost(layers, es)
    ensures var c := After(NewClient(k, layers), es).value;
      Quiet(c) && c.leaked == [] ==>
      forall p :: p in c.asked ==> (p in c.replied <==> p.image in layers && layers[p.image] > 0)
  {
    NewInv(k, layers);
    RunKeeps(NewClient(k, layers), es);
    RunWorks(NewClient(k, layers), es);
    LayersStay(NewClient(k, layers), es);
    var c := After(NewClient(k, layers), es).value;
    if Quiet(c) && c.leaked == [] {
      QuietMeansAnswered(c);
    }
  }

  // ---------------------------------------------------------------- when pulls get stuck

  /** Pulls wait although nothing is under way that would start them. */
  predicate Stuck(c: Client) {
    c.connected && c.pending != [] && c.inflight == []
  }

  predicate PullsOnly(es: seq<Event>, images: set<Image>) {
    forall i :: 0 <= i < |es| && es[i].EPull? ==> es[i].image in images
  }

  ghost predicate NeverStuck(k: nat, layers: map<Image, nat>, images: set<Image>) {
    forall es :: Enables(NewClient(k, layers), es) && PullsOnly(es, images) && After(NewClient(k, layers), es).Ok? ==>
      !Stuck(After(NewClient(k, layers), es).value)
  }

  /** Nothing has failed to load and nothing waiting will. */
  ghost predicate Loading(c: Client) {
    c.leaked == [] && forall i :: 0 <= i < |c.pending| ==> c.pending[i].image in c.layers
  }

  lemma TryLoading(c: Client)
    requires Loading(c)
    ensures Loading(TryOffload(c))
  {
  }

  lemma StepLoading(c: Client, e: Event)
    requires Loading(c) && Enabled(c, e) && (e.EPull? ==> e.image in c.layers) && Apply(c, e).Ok?
    ensures Loading(Apply(c, e).value)
  {
    if e.EPull? {
      var p := Pull(e.image, e.conn, |c.asked|);
      TryLoading(c.(pending := c.pending + [p], asked := c.asked + [p]));
    } else if e.EAnswer? {
      var d := c.(answers := c.answers[1..], inflight := c.inflight[1..], free := c.free + [c.inflight[0]]);
      TryLoading(if c.answers[0].Hello? then d.(connected := true) else d);
    }
    hide TryOffload;
  }

  lemma {:induction false} RunLoading(c: Client, es: seq<Event>)
    requires Loading(c) && Enables(c, es) && PullsOnly(es, c.layers.Keys) && After(c, es).Ok?
    ensures Loading(After(c, es).value)
    decreases |es|
  {
    if es != [] {
      StepLoading(c, es[0]);
      StepLayers(c, es[0]);
      hide Apply, Enabled, Fresh, Loading;
      assert forall i :: 0 <= i < |es[1..]| ==> es[1..][i] == es[i + 1];
      RunLoading(Apply(c, es[0]).value, es[1..]);
    }
  }

  lemma Prefix(c: Client, e: Event, es: seq<Event>)
    requires Enabled(c, e) && (e.EPull? ==> Fresh(c, e.image)) && Apply(c, e).Ok? && Enables(Apply(c, e).value, es)
    ensures Enables(c, [e] + es) && After(c, [e] + es) == After(Apply(c, e).value, es)
  {
    assert ([e] + es)[1..] == es;
  }

  /** Pulling an image that does not load costs a send buffer each time, until none is left. */
  lemma {:induction false} LeakAll(c: Client, i: Image) returns (es: seq<Event>)
    requires c.connected && c.pending == [] && c.inflight == [] && i !in c.layers && i !in c.tasks
    ensures Enables(c, es) && After(c, es).Ok? && Stuck(After(c, es).value) && PullsOnly(es, {i})
    decreases |c.free|
  {
    var e := EPull(i, 0);
    var d := Apply(c, e).value;
    if c.free == [] {
      es := [];
      assert Stuck(d);
    } else {
      es := LeakAll(d, i);
    }
    Prefix(c, e, es);
    es := [e] + es;
  }

  lemma StuckRun(k: nat, layers: map<Image, nat>, i: Image) returns (es: seq<Event>)
    requires k >= 1 && i !in layers
    ensures var c := NewClient(k, layers);
      Enables(c, es) && After(c, es).Ok? && Stuck(After(c, es).value) && PullsOnly(es, {i})
  {
    var c0 := NewClient(k, layers);
    var c1 := Apply(c0, ELink).value;
    var c2 := Apply(c1, EServe).value;
    var c3 := Apply(c2, EAnswer).value;
    assert c3.connected && c3.pending == [] && c3.inflight == [] && c3.layers == layers && c3.tasks == map[];
    es := LeakAll(c3, i);
    hide Apply, Enables, After;
    Prefix(c2, EAnswer, es);
    Prefix(c1, EServe, [EAnswer] + es);
    Prefix(c0, ELink, [EServe] + ([EAnswer] + es));
    es := [ELink] + ([EServe] + ([EAnswer] + es));
  }

  /** Waiting pulls always have an answer on its way if and only if every image that is pulled loads. */
  lemma NeverStuckIffAllLoad(k: nat, layers: map<Image, nat>, images: set<Image>)
    requires k >= 1
    ensures NeverStuck(k, layers, images) <==> images <= layers.Keys
  {
    var c := NewClient(k, layers);
    if images <= layers.Keys {
      forall es | Enables(c, es) && PullsOnly(es, images) && After(c, es).Ok?
        ensures !Stuck(After(c, es).value)
      {
        NewInv(k, layers);
        RunKeeps(c, es);
        RunLoading(c, es);
      }
    } else {
      var i :| i in images && i !in layers;
      var es := StuckRun(k, layers, i);
      assert PullsOnly(es, images);
      assert !NeverStuck(k, layers, images);
    }
  }

  // ---------------------------------------------------------------- pulling an image that is in flight

  /** What keeps requests moving, whatever images they name. */
  ghost predicate Flowing(c: Client) {
    && c.k >= 1 && Loading(c)
    && Split(c.k, c.free, c.inflight, c.leaked)
    && Window(c.linked, c.connected, c.inflight, c.requests, c.answers)
  }

  function RequestedLayers(ms: seq<Msg>, i: Image, n: nat): nat {
    if ms == [] then 0 else (if ms[0] == Offload(i) then n else 0) + RequestedLayers(ms[1..], i, n)
  }

  function WaitingLayers(ps: seq<Pull>, i: Image, n: nat): nat {
    if ps == [] then 0 else (if ps[0].image == i then n else 0) + WaitingLayers(ps[1..], i, n)
  }

  lemma {:induction false} RequestedCat(ms: seq<Msg>, m: Msg, i: Image, n: nat)
    ensures RequestedLayers(ms + [m], i, n) == RequestedLayers(ms, i, n) + if m == Offload(i) then n else 0
  {
    if ms != [] {
      assert (ms + [m])[1..] == ms[1..] + [m];
      RequestedCat(ms[1..], m, i, n);
    }
  }

  lemma {:induction false} WaitingCat(ps: seq<Pull>, p: Pull, i: Image, n: nat)
    ensures WaitingLayers(ps + [p], i, n) == WaitingLayers(ps, i, n) + if p.image == i then n else 0
  {
    if ps != [] {
      assert (ps + [p])[1..] == ps[1..] + [p];
      WaitingCat(ps[1..], p, i, n);
    }
  }

  lemma {:induction false} RequestedIn(ms: seq<Msg>, i: Image, n: nat)
    requires Offload(i) in ms
    ensures RequestedLayers(ms, i, n) >= n
  {
    if ms[0] != Offload(i) {
      RequestedIn(ms[1..], i, n);
    }
  }

  lemma {:induction false} WaitingIn(ps: seq<Pull>, i: Image, n: nat, j: nat)
    requires j < |ps| && ps[j].image == i
    ensures WaitingLayers(ps, i, n) >= n
  {
    if j > 0 {
      WaitingIn(ps[1..], i, n, j - 1);
    }
  }

  /** Layers of image i that have been unpacked for its task, or will be. */
  function Supply(c: Client, i: Image, n: nat): nat {
    (if i in c.tasks then c.tasks[i].untar else 0) + Left(c.left, i)
    + RequestedLayers(c.requests, i, n) + WaitingLayers(c.pending, i, n)
  }

  /** Twice as many layers are on their way as the task of the image, if there is one, will count. */
  ghost predicate Doubled(c: Client, i: Image, n: nat) {
    && n >= 1 && i in c.layers && c.layers[i] == n
    && (i in c.tasks ==> c.tasks[i].total == n && c.tasks[i].untar < n)
    && Supply(c, i, n) >= 2 * n
  }

  lemma TryDoubled(c: Client, i: Image, n: nat)
    requires Doubled(c, i, n) && Loading(c)
    ensures Doubled(TryOffload(c), i, n)
  {
    if c.pending != [] && c.free != [] {
      RequestedCat(c.requests, Offload(c.pending[0].image), i, n);
    }
  }

  lemma TryFlowing(c: Client)
    requires Flowing(c) && c.connected
    ensures Flowing(TryOffload(c))
    ensures var d := TryOffload(c); Moving(d.connected, d.pending, d.inflight, d.leaked)
  {
    TryLoading(c);
    if c.pending != [] {
      if c.free == [] {
        SplitSome(c.k, c.free, c.inflight, c.leaked);
      } else {
        Move(c.k, c.free, c.inflight, c.leaked);
        hide Loading;
      }
    }
  }

  /** A state from which serving and answering goes on by itself until nothing waits. */
  ghost predicate Doomed(c: Client, i: Image, n: nat) {
    Flowing(c) && Moving(c.connected, c.pending, c.inflight, c.leaked) && Doubled(c, i, n)
  }

  lemma LinkDoomed(c: Client, i: Image, n: nat)
    requires Doomed(c, i, n) && !c.linked
    ensures Apply(c, ELink).Ok? && Doomed(Apply(c, ELink).value, i, n)
  {
    assert c.inflight == [] && c.requests == [] && c.answers == [];
    assert Count(c.inflight, 0) == 0 && Count(c.leaked, 0) == 0;
    CountIn(c.free, 0);
    Move(c.k, c.free, c.inflight, c.leaked);
    RequestedCat(c.requests, Hello, i, n);
  }

  lemma ServeDoomed(c: Client, i: Image, n: nat)
    requires Doomed(c, i, n) && c.requests != []
    ensures Doomed(Serve(c), i, n)
  {
    ServeWindow(c.linked, c.connected, c.inflight, c.requests, c.answers);
    hide Split, Window;
  }

  lemma AnswerDoomed(c: Client, i: Image, n: nat)
    requires Doomed(c, i, n) && c.answers != []
    ensures Apply(c, EAnswer).Ok? && Doomed(Apply(c, EAnswer).value, i, n)
  {
    AnswerWindow(c.linked, c.connected, c.inflight, c.requests, c.answers);
    Move(c.k, c.inflight, c.free, c.leaked);
    var d := c.(answers := c.answers[1..], inflight := c.inflight[1..], free := c.free + [c.inflight[0]],
                connected := true);
    hide Window, TryOffload, RequestedLayers, WaitingLayers;
    assert Flowing(d) && Doubled(d, i, n);
    TryFlowing(d);
    TryDoubled(d, i, n);
  }

  /** With everything served, unpacking erases the task and then finds none. */
  lemma {:induction false} Overrun(c: Client, i: Image, n: nat) returns (es: seq<Event>)
    requires Doubled(c, i, n) && c.requests == [] && c.pending == []
    ensures Enables(c, es) && After(c, es) == Crash
    decreases Left(c.left, i)
  {
    var e := EUnpacked(i);
    es := [];
    if i in c.tasks {
      var d := Apply(c, e).value;
      if i in d.tasks {
        es := Overrun(d, i, n);
      } else {
        es := NoTask(d, i);
      }
      Prefix(c, e, es);
      es := [e] + es;
    } else {
      es := NoTask(c, i);
    }
  }

  lemma NoTask(c: Client, i: Image) returns (es: seq<Event>)
    requires i !in c.tasks && Left(c.left, i) > 0
    ensures Enables(c, es) && After(c, es) == Crash
  {
    es := [EUnpacked(i)];
  }

  /** Link, serve and answer as long as possible, then unpack. */
  lemma {:induction false} DoomedFails(c: Client, i: Image, n: nat) returns (es: seq<Event>)
    requires Doomed(c, i, n)
    ensures Enables(c, es) && After(c, es) == Crash
    decreases Work(c)
  {
    if !c.linked || c.requests != [] || c.answers != [] {
      var e := if !c.linked then ELink else if c.requests != [] then EServe else EAnswer;
      NextDoomed(c, e, i, n);
      hide Doomed, Apply, Work;
      es := DoomedFails(Apply(c, e).value, i, n);
      Prefix(c, e, es);
      es := [e] + es;
    } else {
      assert c.connected by {
        assert |c.answers + c.requests| == 0;
      }
      assert c.inflight == [];
      es := Overrun(c, i, n);
    }
  }

  lemma NextDoomed(c: Client, e: Event, i: Image, n: nat)
    requires Doomed(c, i, n) && (e.ELink? || e.EServe? || e.EAnswer?) && Enabled(c, e)
    ensures Apply(c, e).Ok? && Doomed(Apply(c, e).value, i, n) && Work(Apply(c, e).value) < Work(c)
  {
    hide Doomed, Work;
    match e {
      case ELink => LinkDoomed(c, i, n);
      case EServe => ServeDoomed(c, i, n);
      case EAnswer => AnswerDoomed(c, i, n);
    }
    StepWorks(c, e);
  }

  lemma DoubledByPull(c: Client, i: Image, p: Pull)
    requires Inv(c) && i in c.layers && c.layers[i] >= 1 && !Fresh(c, i) && p.image == i
    ensures Doubled(c.(pending := c.pending + [p], asked := c.asked + [p]), i, c.layers[i])
  {
    var n := c.layers[i];
    WaitingCat(c.pending, p, i, n);
    if i in c.tasks {
      if Offload(i) in c.requests {
        RequestedIn(c.requests, i, n);
      }
    } else {
      var j :| 0 <= j < |c.pending| && c.pending[j].image == i;
      WaitingIn(c.pending, i, n, j);
    }
  }

  lemma PullDooms(c: Client, i: Image, conn: nat)
    requires Inv(c) && Loading(c) && i in c.layers && c.layers[i] >= 1 && !Fresh(c, i)
    ensures Doomed(OnPull(c, i, conn), i, c.layers[i])
  {
    var p := Pull(i, conn, |c.asked|);
    var d := c.(pending := c.pending + [p], asked := c.asked + [p]);
    DoubledByPull(c, i, p);
    assert Flowing(d);
    hide Flowing, Doubled, TryOffload;
    if c.connected {
      TryFlowing(d);
      TryDoubled(d, i, c.layers[i]);
    }
  }

  /** No run from here fails in which later pulls name images that are not in flight. */
  ghost predicate Survives(c: Client) {
    forall es :: Enables(c, es) ==> After(c, es).Ok?
  }

  /** An image may be pulled if and only if it is not in flight: otherwise only one of the two pulls is
      recorded, from whatever state, and the layers of the other find no task. */
  lemma PullSafeIffFresh(c: Client, i: Image, conn: nat)
    requires Inv(c) && Loading(c) && i in c.layers && c.layers[i] >= 1
    ensures Survives(OnPull(c, i, conn)) <==> Fresh(c, i)
  {
    var d := OnPull(c, i, conn);
    if Fresh(c, i) {
      forall es | Enables(d, es)
        ensures After(d, es).Ok?
      {
        PullKeeps(c, i, conn);
        RunKeeps(d, es);
      }
    } else {
      PullDooms(c, i, conn);
      var es := DoomedFails(d, i, c.layers[i]);
      assert Enables(d, es) && !After(d, es).Ok?;
    }
  }
}
