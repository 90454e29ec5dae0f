/** The client that offloads pulls, as the object it is. */
module OffloadClients {
  import opened Base
  import opened Pulls

  class OffloadClient {
    const k: nat
    const layers: map<Image, nat>       // what loadMetadata can load
    var linked: bool
    var connected: bool
    var pendingTasks: seq<Pull>
    var tasks: map<Image, Task>
    var freeSendBufs: seq<nat>
    var inflightSends: seq<nat>
    ghost var leaked: seq<nat>
    ghost var requests: seq<Msg>
    ghost var answers: seq<Msg>
    ghost var left: multiset<Image>
    ghost var asked: seq<Pull>
    ghost var taken: seq<Pull>
    ghost var replied: seq<Pull>
    var arrived: nat

    ghost function View(): Client
      reads this
    {
      Client(k, layers, linked, connected, pendingTasks, tasks, freeSendBufs, inflightSends, leaked,
             requests, answers, left, asked, taken, replied)
    }

    ghost predicate Valid()
      reads this
    {
      Inv(View()) && arrived == |asked|
    }

    constructor (k: nat, layers: map<Image, nat>)
      requires k >= 1
      ensures Valid() && View() == NewClient(k, layers)
    {
      this.k, this.layers := k, layers;
      linked, connected, pendingTasks, tasks, arrived := false, false, [], map[], 0;
      freeSendBufs, inflightSends := Range(0, k), [];
      leaked, requests, answers, left, asked, taken, replied := [], [], [], multiset{}, [], [], [];
      new;
      NewInv(k, layers);
    }

    method OnConnectedCallback()
      requires Valid() && !linked
      modifies this
      ensures Valid() && OnConnected(old(View())) == Ok(View())
    {
      LinkKeeps(View());
      hide Inv;
      inflightSends := inflightSends + [freeSendBufs[0]];
      freeSendBufs := freeSendBufs[1..];
      requests := requests + [Hello];
      linked := true;
    }

    /** tryOffloadTask; the result is false when the metadata of the pull does not load. */
    method TryOffloadTask() returns (ok: bool)
      modifies this`pendingTasks, this`freeSendBufs, this`tasks, this`inflightSends
      modifies this`leaked, this`requests, this`taken
      ensures View() == TryOffload(old(View()))
      ensures !ok <==> |leaked| > |old(leaked)|
    {
      if pendingTasks == [] || freeSendBufs == [] {
        return true;
      }
      var task, id := pendingTasks[0], freeSendBufs[0];
      freeSendBufs := freeSendBufs[1..];
      ok := task.image in layers;
      if ok {
        if task.image !in tasks {
          tasks := tasks[task.image := Task(layers[task.image], 0, task)];
        }
        inflightSends := inflightSends + [id];
        requests := requests + [Offload(task.image)];
      } else {
        leaked := leaked + [id];
      }
      pendingTasks := pendingTasks[1..];
      taken := taken + [task];
    }

    method OffloadTask(image: Image, conn: nat)
      requires Valid() && Fresh(View(), image)
      modifies this
      ensures Valid() && View() == OnPull(old(View()), image, conn)
      ensures asked == old(asked) + [Pull(image, conn, |old(asked)|)]
    {
      PullKeeps(View(), image, conn);
      hide Inv;
      var p := Pull(image, conn, arrived);
      pendingTasks := pendingTasks + [p];
      asked := asked + [p];
      arrived := arrived + 1;
      if connected {
        var _ := TryOffloadTask();
      }
    }

    method OnRecvSuccess(hello: bool)
      requires Valid() && answers != [] && answers[0].Hello? == hello
      modifies this
      ensures Valid() && OnRecv(old(View())) == Ok(View())
    {
      hide Inv, TryOffload;
      AnswerKeeps(View());
      freeSendBufs := freeSendBufs + [inflightSends[0]];
      inflightSends := inflightSends[1..];
      answers := answers[1..];
      if hello {
        connected := true;
      }
      var _ := TryOffloadTask();
    }

    /** The reply, if this was the last layer. */
    method CompleteTask(image: Image) returns (reply: Option<Pull>)
      requires Valid() && Left(left, image) > 0
      modifies this
      ensures Valid() && Apply(old(View()), EUnpacked(image)) == Ok(View())
      ensures replied == old(replied) + (if reply.Some? then [reply.value] else [])
      ensures reply.Some? <==> old(Left(left, image)) == 1
      ensures reply.Some? ==> image in old(tasks) && reply.value == old(tasks)[image].pull
    {
      hide Inv, Left;
      UnpackFacts(View(), image);
      left := left[image := Left(left, image) - 1];
      var t := tasks[image].(untar := tasks[image].untar + 1);
      if t.untar == t.total {
        tasks := tasks - {image};
        replied := replied + [t.pull];
        reply := Some(t.pull);
      } else {
        tasks := tasks[image := t];
        reply := None;
      }
    }
  }

  lemma UnpackFacts(c: Client, i: Image)
    requires Inv(c) && Left(c.left, i) > 0
    ensures Apply(c, EUnpacked(i)).Ok? && Inv(Apply(c, EUnpacked(i)).value)
    ensures i in c.tasks && c.tasks[i].untar + Left(c.left, i) == c.tasks[i].total
  {
    UnpackKeeps(c, i);
    UnpackOwed(c.layers, c.tasks, c.requests, c.left, i);
  }
}
